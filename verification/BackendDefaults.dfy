/**
 * Filling in default backends (patchPipeline in packages/cli/src/backends.ts) and describing a pipeline
 * (packages/core/src/introspect.ts).
 */
module BackendDefaults {
  import opened Common
  import opened Steps

  datatype Defaults = Defaults(infer: Option<string>, agent: Option<string>)

  function Or(a: Option<string>, b: Option<string>): Option<string> {
    if a.Some? then a else b
  }

  // ---------- patchStep ----------

  function Patch(s: Step, d: Defaults): Step
    decreases s, 1
  {
    match s
    case Infer(id, backend) => if backend.Some? || d.infer.None? then s else Infer(id, d.infer)
    case Agent(id, backend, permissions) =>
      if backend.Some? || d.agent.None? then s else Agent(id, d.agent, permissions)
    case Idempotent(id, step) => Idempotent(id, Patch(step, d))
    case Parallel(id, steps) => Parallel(id, PatchAll(steps, d))
    case ForEach(id, made) => ForEach(id, PatchAll(made, d))
    case Branch(id, labels, cases, fallback) =>
      Branch(id, labels, PatchAll(cases, d), if fallback.Some? then Some(Patch(fallback.value, d)) else None)
    case Loop(id, step) => Loop(id, Patch(step, d))
    case Nested(id, pipeline) => Nested(id, PatchPipeline(pipeline, d))
    case _ => s
  }

  function PatchAll(steps: seq<Step>, d: Defaults): (r: seq<Step>)
    ensures |r| == |steps|
    decreases steps, 0
  {
    if steps == [] then [] else [Patch(steps[0], d)] + PatchAll(steps[1..], d)
  }

  function PatchPipeline(p: Pipeline, d: Defaults): Pipeline
    decreases p, 2
  {
    p.(steps := PatchAll(p.steps, d))
  }

  // ---------- describeStep ----------

  datatype Kind = Other | InferKind | AgentKind | WaitKind | ParallelKind | ForEachKind | BranchKind | LoopKind
                | PipelineKind
                | InvokeKind | IdempotentKind

  /** Branches are children with labels. */
  datatype Described = Described(id: string, kind: Kind, labels: seq<string>, children: seq<Described>,
                                 permissions: seq<string>)

  function Describe(s: Step): Described
    decreases s, 1
  {
    match s
    case Parallel(id, steps) => Described(id, ParallelKind, [], DescribeAll(steps), [])
    case Branch(id, labels, cases, fallback) =>
      if fallback.None? then Described(id, BranchKind, labels, DescribeAll(cases), [])
      else Described(id, BranchKind, labels + ["default"], DescribeAll(cases) + [Describe(fallback.value)], [])
    case Loop(id, step) => Described(id, LoopKind, [], [Describe(step)], [])
    case Nested(id, pipeline) => Described(id, PipelineKind, [], DescribeAll(pipeline.steps), [])
    case Idempotent(id, step) => Described(id, IdempotentKind, [], [Describe(step)], [])
    case ForEach(id, _) => Described(id, ForEachKind, [], [], [])
    case Agent(id, _, permissions) => Described(id, AgentKind, [], [], permissions)
    case Infer(id, _) => Described(id, InferKind, [], [], [])
    case Wait(id) => Described(id, WaitKind, [], [], [])
    case Invoke(id) => Described(id, InvokeKind, [], [], [])
    case Plain(id) => Described(id, Other, [], [], [])
  }

  function DescribeAll(steps: seq<Step>): seq<Described>
    decreases steps, 0
  {
    if steps == [] then [] else [Describe(steps[0])] + DescribeAll(steps[1..])
  }

  // ---------- what a description shows ----------

  /** The description shows the node's id and kind, an agent's permissions and a branch's labels. */
  predicate Shows(d: Described, s: Step) {
    && d.id == s.id
    && d.permissions == (if s.Agent? then s.permissions else [])
    && d.labels == (if s.Branch? then s.labels + (if s.fallback.Some? then ["default"] else []) else [])
    && match s
       case Plain(_) => d.kind == Other
       case Infer(_, _) => d.kind == InferKind
       case Agent(_, _, _) => d.kind == AgentKind
       case Wait(_) => d.kind == WaitKind
       case Parallel(_, _) => d.kind == ParallelKind
       case ForEach(_, _) => d.kind == ForEachKind
       case Branch(_, _, _, _) => d.kind == BranchKind
       case Loop(_, _) => d.kind == LoopKind
       case Nested(_, _) => d.kind == PipelineKind
       case Invoke(_) => d.kind == InvokeKind
       case Idempotent(_, _) => d.kind == IdempotentKind
  }

  /** One static child, whose position in the description is its own: a branch's default comes after its cases. */
  function StaticChild(s: Step, i: nat): Option<Step> {
    match s
    case Parallel(_, steps) => if i < |steps| then Some(steps[i]) else None
    case Nested(_, pipeline) => if i < |pipeline.steps| then Some(pipeline.steps[i]) else None
    case Loop(_, step) => if i == 0 then Some(step) else None
    case Idempotent(_, step) => if i == 0 then Some(step) else None
    case Branch(_, _, cases, fallback) =>
      if i < |cases| then Some(cases[i]) else if i == |cases| then fallback else None
    case _ => None
  }

  lemma {:induction false} DescribeAllAt(steps: seq<Step>, i: nat)
    ensures |DescribeAll(steps)| == |steps|
    ensures i < |steps| ==> DescribeAll(steps)[i] == Describe(steps[i])
  {
    if steps != [] { DescribeAllAt(steps[1..], if i > 0 then i - 1 else 0); }
  }

  /** A description mirrors the tree: each node shows its step, and its children are its step's, described, in order. */
  lemma DescriptionMirrors(s: Step, i: nat)
    ensures Shows(Describe(s), s)
    ensures i < |Describe(s).children| <==> StaticChild(s, i).Some?
    ensures i < |Describe(s).children| ==> Describe(s).children[i] == Describe(StaticChild(s, i).value)
  {
    match s
    case Parallel(_, steps) => DescribeAllAt(steps, i);
    case Nested(_, pipeline) => DescribeAllAt(pipeline.steps, i);
    case Branch(_, _, cases, _) => DescribeAllAt(cases, i);
    case _ =>
  }

  // ---------- what patching keeps ----------

  /** Filling in backends does not change how a step is described. */
  lemma {:induction false} DescriptionIsKept(s: Step, d: Defaults)
    ensures Describe(Patch(s, d)) == Describe(s)
    decreases s, 1
  {
    match s
    case Idempotent(_, step) => DescriptionIsKept(step, d);
    case Parallel(_, steps) => DescriptionsAreKept(steps, d);
    case Branch(_, _, cases, fallback) =>
      DescriptionsAreKept(cases, d);
      if fallback.Some? { DescriptionIsKept(fallback.value, d); }
    case Loop(_, step) => DescriptionIsKept(step, d);
    case Nested(_, pipeline) => DescriptionsAreKept(pipeline.steps, d);
    case _ =>
  }

  lemma {:induction false} DescriptionsAreKept(steps: seq<Step>, d: Defaults)
    ensures DescribeAll(PatchAll(steps, d)) == DescribeAll(steps)
    decreases steps, 0
  {
    if steps != [] {
      DescriptionIsKept(steps[0], d);
      DescriptionsAreKept(steps[1..], d);
      assert PatchAll(steps, d)[1..] == PatchAll(steps[1..], d);
    }
  }

  datatype PipelineDescription = PipelineDescription(
    id: string, steps: seq<Described>, description: Option<string>, version: Option<string>)

  function DescribePipeline(p: Pipeline): PipelineDescription {
    PipelineDescription(p.id, DescribeAll(p.steps), p.description, p.version)
  }

  /** A pipeline's description is its own and that of its steps. */
  lemma PipelineDescriptionMirrors(p: Pipeline, i: nat)
    ensures var d := DescribePipeline(p);
            && d.id == p.id && d.description == p.description && d.version == p.version
            && |d.steps| == |p.steps| && (i < |p.steps| ==> d.steps[i] == Describe(p.steps[i]))
  {
    DescribeAllAt(p.steps, i);
  }

  /** So is a whole pipeline's description. */
  lemma PipelineDescriptionIsKept(p: Pipeline, d: Defaults)
    ensures DescribePipeline(PatchPipeline(p, d)) == DescribePipeline(p)
  {
    DescriptionsAreKept(p.steps, d);
  }

  /** Patching twice is patching once, the first defaults winning; with equal defaults, patching is idempotent. */
  lemma {:induction false} PatchesCompose(s: Step, d: Defaults, e: Defaults)
    ensures Patch(Patch(s, d), e) == Patch(s, Defaults(Or(d.infer, e.infer), Or(d.agent, e.agent)))
    ensures Patch(Patch(s, d), d) == Patch(s, d)
    decreases s, 1
  {
    match s
    case Idempotent(_, step) => PatchesCompose(step, d, e);
    case Parallel(_, steps) => ListPatchesCompose(steps, d, e);
    case ForEach(_, made) => ListPatchesCompose(made, d, e);
    case Branch(_, _, cases, fallback) =>
      ListPatchesCompose(cases, d, e);
      if fallback.Some? { PatchesCompose(fallback.value, d, e); }
    case Loop(_, step) => PatchesCompose(step, d, e);
    case Nested(_, pipeline) => ListPatchesCompose(pipeline.steps, d, e);
    case _ =>
  }

  lemma {:induction false} ListPatchesCompose(steps: seq<Step>, d: Defaults, e: Defaults)
    ensures PatchAll(PatchAll(steps, d), e) == PatchAll(steps, Defaults(Or(d.infer, e.infer), Or(d.agent, e.agent)))
    ensures PatchAll(PatchAll(steps, d), d) == PatchAll(steps, d)
    decreases steps, 0
  {
    if steps != [] {
      PatchesCompose(steps[0], d, e);
      ListPatchesCompose(steps[1..], d, e);
      assert PatchAll(steps, d)[1..] == PatchAll(steps[1..], d);
    }
  }

  // ---------- what patching reaches ----------

  function Children(s: Step): seq<Step> {
    if s.ForEach? then s.made else StaticChildren(s)
  }

  function NodeAt(s: Step, path: seq<nat>): Option<Step>
    decreases |path|
  {
    if path == [] then Some(s)
    else if path[0] < |Children(s)| then NodeAt(Children(s)[path[0]], path[1..])
    else None
  }

  lemma {:induction false} PatchAllAt(steps: seq<Step>, d: Defaults, i: nat)
    requires i < |steps|
    ensures PatchAll(steps, d)[i] == Patch(steps[i], d)
  {
    if i > 0 { PatchAllAt(steps[1..], d, i - 1); }
  }

  lemma ChildOfPatched(s: Step, d: Defaults, i: nat)
    ensures |Children(Patch(s, d))| == |Children(s)|
    ensures i < |Children(s)| ==> Children(Patch(s, d))[i] == Patch(Children(s)[i], d)
  {
    match s
    case Parallel(_, steps) => if i < |steps| { PatchAllAt(steps, d, i); }
    case ForEach(_, made) => if i < |made| { PatchAllAt(made, d, i); }
    case Nested(_, pipeline) => if i < |pipeline.steps| { PatchAllAt(pipeline.steps, d, i); }
    case Branch(_, _, cases, _) => if i < |cases| { PatchAllAt(cases, d, i); }
    case _ =>
  }

  /** The tree keeps its shape, and every node in it, at any depth and inside any factory, is the patched original. */
  lemma {:induction false} EveryNodeIsPatched(s: Step, d: Defaults, path: seq<nat>)
    ensures NodeAt(Patch(s, d), path)
            == if NodeAt(s, path).Some? then Some(Patch(NodeAt(s, path).value, d)) else None
    decreases |path|
  {
    if path != [] {
      ChildOfPatched(s, d, path[0]);
      if path[0] < |Children(s)| { EveryNodeIsPatched(Children(s)[path[0]], d, path[1..]); }
    }
  }

  /** An inference anywhere in the tree runs on its own backend, or else on the default. */
  lemma BackendOfEveryNode(s: Step, d: Defaults, path: seq<nat>)
    requires NodeAt(s, path).Some?
    ensures var node := NodeAt(s, path).value; var patched := NodeAt(Patch(s, d), path);
            && (node.Infer? ==> patched == Some(Infer(node.id, Or(node.backend, d.infer))))
            && (node.Agent? ==> patched == Some(Agent(node.id, Or(node.backend, d.agent), node.permissions)))
  {
    EveryNodeIsPatched(s, d, path);
  }
}
