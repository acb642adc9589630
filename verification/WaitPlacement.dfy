/** Where the step builders let a wait() stand (packages/core/src/builders.ts). */
module WaitPlacement {
  import opened Common
  import opened Steps

  datatype Retry = Retry(maxAttempts: int, delayMs: Option<int>, backoffMultiplier: Option<real>)

  datatype BuildError = MissingId | NoSteps | BadConfig | DuplicateId(id: string) | WaitInside(wait: string)

  predicate ValidRetry(retry: Option<Retry>) {
    retry.Some? ==>
      && retry.value.maxAttempts >= 1
      && (retry.value.delayMs.Some? ==> retry.value.delayMs.value >= 0)
      && (retry.value.backoffMultiplier.Some? ==> retry.value.backoffMultiplier.value >= 1.0)
  }

  // ---------- assertNoWaitInside ----------

  /** The wait the walk throws on, if any. */
  function FirstWait(s: Step): Option<string>
    decreases s, 1
  {
    match s
    case Wait(id) => Some(id)
    case Parallel(_, steps) => FirstWaitAmong(steps)
    case Branch(_, _, cases, fallback) =>
      var inCases := FirstWaitAmong(cases);
      if inCases.Some? || fallback.None? then inCases else FirstWait(fallback.value)
    case Loop(_, step) => FirstWait(step)
    case Idempotent(_, step) => FirstWait(step)
    case Nested(_, pipeline) => FirstWaitAmong(pipeline.steps)
    case _ => None
  }

  function FirstWaitAmong(steps: seq<Step>): Option<string>
    decreases steps, 0
  {
    if steps == [] then None
    else if FirstWait(steps[0]).Some? then FirstWait(steps[0])
    else FirstWaitAmong(steps[1..])
  }

  /** Some(id) stands for the thrown error naming that wait. */
  method AssertNoWaitInside(s: Step) returns (r: Option<string>)
    ensures r == FirstWait(s)
    decreases s, 1
  {
    match s
    case Wait(id) => r := Some(id);
    case Parallel(_, steps) => r := AssertNoWaitAmong(steps);
    case Branch(_, _, cases, fallback) =>
      r := AssertNoWaitAmong(cases);
      if r.None? && fallback.Some? { r := AssertNoWaitInside(fallback.value); }
    case Loop(_, step) => r := AssertNoWaitInside(step);
    case Idempotent(_, step) => r := AssertNoWaitInside(step);
    case Nested(_, pipeline) => r := AssertNoWaitAmong(pipeline.steps);
    case _ => r := None;
  }

  method AssertNoWaitAmong(steps: seq<Step>) returns (r: Option<string>)
    ensures r == FirstWaitAmong(steps)
    decreases steps, 0
  {
    for i := 0 to |steps|
      invariant FirstWaitAmong(steps) == FirstWaitAmong(steps[i..])
    {
      assert steps[i..][0] == steps[i] && steps[i..][1..] == steps[i + 1..];
      r := AssertNoWaitInside(steps[i]);
      if r.Some? { return; }
    }
    r := None;
  }

  // ---------- nodes under a step ----------

  /** What the wrapped factory hands to the runner: it throws instead on a child with a wait inside. */
  function Yields(made: seq<Step>): (r: seq<Step>)
    ensures forall c | c in r :: c in made && FirstWait(c).None?
  {
    if made == [] then []
    else if FirstWait(made[0]).Some? then Yields(made[1..])
    else [made[0]] + Yields(made[1..])
  }

  /** With `live`, the steps a forEach yields while running count as its children too. */
  function Children(s: Step, live: bool): seq<Step> {
    if live && s.ForEach? then Yields(s.made) else StaticChildren(s)
  }

  /** The node at the end of a path of child positions. */
  function NodeAt(s: Step, path: seq<nat>, live: bool): Option<Step>
    decreases |path|
  {
    if path == [] then Some(s)
    else if path[0] < |Children(s, live)| then NodeAt(Children(s, live)[path[0]], path[1..], live)
    else None
  }

  ghost predicate WaitReachable(s: Step) {
    exists path :: WaitAt(s, path, false)
  }

  predicate WaitAt(s: Step, path: seq<nat>, live: bool) {
    NodeAt(s, path, live).Some? && NodeAt(s, path, live).value.Wait?
  }

  lemma {:induction false} NoneAmong(steps: seq<Step>)
    ensures FirstWaitAmong(steps).None? <==> forall c | c in steps :: FirstWait(c).None?
    ensures FirstWaitAmong(steps).Some? ==> exists c | c in steps :: FirstWait(c) == FirstWaitAmong(steps)
  {
    if steps != [] {
      assert forall c | c in steps :: c == steps[0] || c in steps[1..];
      assert steps[0] in steps && forall c | c in steps[1..] :: c in steps;
      NoneAmong(steps[1..]);
    }
  }

  /** A step that is not itself a wait has none inside exactly when none of its static children has. */
  lemma NoneInside(s: Step)
    requires !s.Wait?
    ensures FirstWait(s).None? <==> forall c | c in StaticChildren(s) :: FirstWait(c).None?
    ensures FirstWait(s).Some? ==> exists c | c in StaticChildren(s) :: FirstWait(c) == FirstWait(s)
  {
    match s
    case Parallel(_, steps) => NoneAmong(steps);
    case Nested(_, pipeline) => NoneAmong(pipeline.steps);
    case Branch(_, _, cases, fallback) =>
      NoneAmong(cases);
      if fallback.Some? {
        var other := fallback.value;
        assert StaticChildren(s) == cases + [other];
        assert forall c :: c in StaticChildren(s) <==> c in cases || c == other;
        assert FirstWait(s).None? <==> FirstWaitAmong(cases).None? && FirstWait(other).None?;
        forall c | c in StaticChildren(s) && FirstWait(s).None? ensures FirstWait(c).None? {
          assert c in cases || c == other;
        }
        assert other in StaticChildren(s);
      } else {
        assert StaticChildren(s) == cases;
      }
    case Loop(_, step) => assert step in StaticChildren(s);
    case Idempotent(_, step) => assert step in StaticChildren(s);
    case _ =>
  }

  lemma {:induction false} PathImpliesWait(s: Step, path: seq<nat>)
    requires WaitAt(s, path, false)
    ensures FirstWait(s).Some?
    decreases |path|
  {
    if path != [] {
      var child := Children(s, false)[path[0]];
      PathImpliesWait(child, path[1..]);
      assert child in StaticChildren(s);
      NoneInside(s);
    }
  }

  lemma {:induction false} WaitImpliesPath(s: Step) returns (path: seq<nat>)
    requires FirstWait(s).Some?
    ensures NodeAt(s, path, false) == Some(Wait(FirstWait(s).value))
    decreases s
  {
    if s.Wait? {
      path := [];
    } else {
      NoneInside(s);
      var children := StaticChildren(s);
      var c :| c in children && FirstWait(c) == FirstWait(s);
      var i :| 0 <= i < |children| && children[i] == c;
      ChildIsSmaller(s, i);
      var below := WaitImpliesPath(c);
      path := [i] + below;
      assert path[1..] == below;
    }
  }

  lemma ChildIsSmaller(s: Step, i: nat)
    requires i < |StaticChildren(s)|
    ensures s decreases to StaticChildren(s)[i]
  {
    match s
    case Branch(_, _, cases, fallback) =>
      if i < |cases| {
        assert StaticChildren(s)[i] == cases[i];
      } else {
        assert StaticChildren(s)[i] == fallback.value;
      }
    case _ =>
  }

  /**
   * The check throws exactly when some wait can be reached without looking through forEach or invoke, and it names
   * one that can.
   */
  lemma ThrowsIffReachable(s: Step)
    ensures FirstWait(s).Some? <==> WaitReachable(s)
    ensures FirstWait(s).Some? ==> exists path :: NodeAt(s, path, false) == Some(Wait(FirstWait(s).value))
  {
    if FirstWait(s).Some? {
      var path := WaitImpliesPath(s);
      assert WaitAt(s, path, false);
    } else if WaitReachable(s) {
      var path :| WaitAt(s, path, false);
      PathImpliesWait(s, path);
    }
  }

  // ---------- builders ----------

  function Checked(id: string, retry: Option<Retry>, config: bool): Option<BuildError> {
    if id == "" then Some(MissingId) else if !ValidRetry(retry) || !config then Some(BadConfig) else None
  }

  /** parallel's loop over its children: sibling ids first, then waits, child by child. */
  function SiblingProblem(steps: seq<Step>, seen: set<string>): Option<BuildError> {
    if steps == [] then None
    else if steps[0].id in seen then Some(DuplicateId(steps[0].id))
    else if FirstWait(steps[0]).Some? then Some(WaitInside(FirstWait(steps[0]).value))
    else SiblingProblem(steps[1..], seen + {steps[0].id})
  }

  function BuildParallel(id: string, steps: seq<Step>, retry: Option<Retry>, waitFor: Option<string>)
    : Result<Step, BuildError>
  {
    if id == "" then Err(MissingId)
    else if steps == [] then Err(NoSteps)
    else if !ValidRetry(retry) || (waitFor.Some? && waitFor.value != "all") then Err(BadConfig)
    else if SiblingProblem(steps, {}).Some? then Err(SiblingProblem(steps, {}).value)
    else Ok(Parallel(id, steps))
  }

  method NewParallel(id: string, steps: seq<Step>, retry: Option<Retry>, waitFor: Option<string>)
    returns (r: Result<Step, BuildError>)
    ensures r == BuildParallel(id, steps, retry, waitFor)
  {
    if id == "" { return Err(MissingId); }
    if steps == [] { return Err(NoSteps); }
    if !ValidRetry(retry) || (waitFor.Some? && waitFor.value != "all") { return Err(BadConfig); }
    var seen: set<string> := {};
    for i := 0 to |steps|
      invariant SiblingProblem(steps, {}) == SiblingProblem(steps[i..], seen)
    {
      assert steps[i..][0] == steps[i] && steps[i..][1..] == steps[i + 1..];
      if steps[i].id in seen { return Err(DuplicateId(steps[i].id)); }
      seen := seen + {steps[i].id};
      var wait := AssertNoWaitInside(steps[i]);
      if wait.Some? { return Err(WaitInside(wait.value)); }
    }
    r := Ok(Parallel(id, steps));
  }

  /** The factory is only called at run time, so a wait it may return does not stop the builder. */
  function BuildForEach(id: string, made: seq<Step>, retry: Option<Retry>, concurrency: Option<int>)
    : Result<Step, BuildError>
  {
    var problem := Checked(id, retry, concurrency.Some? ==> concurrency.value >= 1);
    if problem.Some? then Err(problem.value) else Ok(ForEach(id, made))
  }

  function BuildBranch(id: string, labels: seq<string>, cases: seq<Step>, fallback: Option<Step>, retry: Option<Retry>)
    : Result<Step, BuildError>
  {
    if id == "" then Err(MissingId)
    else if cases == [] then Err(NoSteps)
    else if !ValidRetry(retry) then Err(BadConfig)
    else Ok(Branch(id, labels, cases, fallback))
  }

  function BuildLoop(id: string, step: Step, maxIterations: int, retry: Option<Retry>): Result<Step, BuildError> {
    var problem := Checked(id, retry, maxIterations >= 1);
    if problem.Some? then Err(problem.value)
    else if FirstWait(step).Some? then Err(WaitInside(FirstWait(step).value))
    else Ok(Loop(id, step))
  }

  function BuildWait(id: string, timeoutMs: Option<int>, retry: Option<Retry>): Result<Step, BuildError> {
    var problem := Checked(id, retry, timeoutMs.Some? ==> timeoutMs.value >= 1);
    if problem.Some? then Err(problem.value) else Ok(Wait(id))
  }

  function BuildNested(id: string, pipeline: Pipeline, retry: Option<Retry>): Result<Step, BuildError> {
    var problem := Checked(id, retry, true);
    if problem.Some? then Err(problem.value)
    else if FirstWaitAmong(pipeline.steps).Some? then Err(WaitInside(FirstWaitAmong(pipeline.steps).value))
    else Ok(Nested(id, pipeline))
  }

  /** Without an id of its own the wrapper takes the inner step's. */
  function BuildIdempotent(id: Option<string>, step: Step): Result<Step, BuildError> {
    var name := if id.Some? then id.value else step.id;
    if name == "" then Err(MissingId)
    else if FirstWait(step).Some? then Err(WaitInside(FirstWait(step).value))
    else Ok(Idempotent(name, step))
  }

  function FirstDuplicate(steps: seq<Step>, seen: set<string>): Option<string> {
    if steps == [] then None
    else if steps[0].id in seen then Some(steps[0].id)
    else FirstDuplicate(steps[1..], seen + {steps[0].id})
  }

  method AssertUniqueStepIds(steps: seq<Step>) returns (r: Option<string>)
    ensures r == FirstDuplicate(steps, {})
  {
    var seen: set<string> := {};
    for i := 0 to |steps|
      invariant FirstDuplicate(steps, {}) == FirstDuplicate(steps[i..], seen)
    {
      assert steps[i..][0] == steps[i] && steps[i..][1..] == steps[i + 1..];
      if steps[i].id in seen { return Some(steps[i].id); }
      seen := seen + {steps[i].id};
    }
    r := None;
  }

  function BuildPipeline(id: string, steps: seq<Step>, description: Option<string>, version: Option<string>)
    : Result<Pipeline, BuildError>
  {
    if id == "" then Err(MissingId)
    else if steps == [] then Err(NoSteps)
    else if FirstDuplicate(steps, {}).Some? then Err(DuplicateId(FirstDuplicate(steps, {}).value))
    else Ok(Pipeline(id, steps, description, version))
  }

  // ---------- what the builders accept ----------

  predicate DistinctIds(steps: seq<Step>, seen: set<string>) {
    && (forall i, j | 0 <= i < j < |steps| :: steps[i].id != steps[j].id)
    && (forall i | 0 <= i < |steps| :: steps[i].id !in seen)
  }

  lemma {:induction false} NoDuplicateIff(steps: seq<Step>, seen: set<string>)
    ensures FirstDuplicate(steps, seen).None? <==> DistinctIds(steps, seen)
  {
    if steps != [] {
      NoDuplicateIff(steps[1..], seen + {steps[0].id});
    }
  }

  lemma {:induction false} NoSiblingProblemIff(steps: seq<Step>, seen: set<string>)
    ensures SiblingProblem(steps, seen).None?
            <==> DistinctIds(steps, seen) && forall c | c in steps :: FirstWait(c).None?
  {
    if steps != [] {
      NoSiblingProblemIff(steps[1..], seen + {steps[0].id});
      assert steps[0] in steps && forall c | c in steps[1..] :: c in steps;
      assert forall c | c in steps :: c == steps[0] || c in steps[1..];
    }
  }

  ghost predicate NoneReachable(steps: seq<Step>) {
    forall c | c in steps :: !WaitReachable(c)
  }

  lemma NoneReachableIff(steps: seq<Step>)
    ensures NoneReachable(steps) <==> forall c | c in steps :: FirstWait(c).None?
    ensures NoneReachable(steps) <==> FirstWaitAmong(steps).None?
  {
    NoneAmong(steps);
    forall c | c in steps ensures FirstWait(c).Some? <==> WaitReachable(c) { ThrowsIffReachable(c); }
  }

  /** parallel() accepts exactly the non-empty lists of siblings with distinct ids from which no wait is reachable. */
  lemma ParallelAcceptsIff(id: string, steps: seq<Step>, retry: Option<Retry>, waitFor: Option<string>)
    ensures BuildParallel(id, steps, retry, waitFor).Ok?
            <==> id != "" && steps != [] && ValidRetry(retry) && (waitFor == None || waitFor == Some("all"))
                 && DistinctIds(steps, {}) && NoneReachable(steps)
  {
    NoSiblingProblemIff(steps, {});
    NoneReachableIff(steps);
  }

  /** The other containers accept exactly the bodies from which no wait is reachable; branch and forEach do not ask. */
  lemma ContainersAcceptIff(id: string, name: Option<string>, step: Step, pipeline: Pipeline, made: seq<Step>,
                            labels: seq<string>, fallback: Option<Step>, max: int, retry: Option<Retry>,
                            concurrency: Option<int>)
    ensures BuildLoop(id, step, max, retry).Ok? <==> id != "" && max >= 1 && ValidRetry(retry) && !WaitReachable(step)
    ensures BuildIdempotent(name, step).Ok?
            <==> (if name.Some? then name.value else step.id) != "" && !WaitReachable(step)
    ensures BuildNested(id, pipeline, retry).Ok? <==> id != "" && ValidRetry(retry) && NoneReachable(pipeline.steps)
    ensures BuildForEach(id, made, retry, concurrency).Ok?
            <==> id != "" && ValidRetry(retry) && (concurrency.Some? ==> concurrency.value >= 1)
    ensures BuildBranch(id, labels, made, fallback, retry).Ok? <==> id != "" && made != [] && ValidRetry(retry)
  {
    ThrowsIffReachable(step);
    NoneReachableIff(pipeline.steps);
  }

  /** pipeline() does not look for waits, only for repeated ids among its own steps. */
  lemma PipelineAcceptsIff(id: string, steps: seq<Step>, description: Option<string>, version: Option<string>)
    ensures BuildPipeline(id, steps, description, version).Ok? <==> id != "" && steps != [] && DistinctIds(steps, {})
  {
    NoDuplicateIff(steps, {});
  }

  // ---------- built values ----------

  /** Values made by the builders from values made by the builders. */
  predicate Built(s: Step)
    decreases s
  {
    match s
    case Parallel(_, steps) => forall c | c in steps :: Built(c) && FirstWait(c).None?
    case ForEach(_, made) => forall c | c in made :: Built(c)
    case Branch(_, _, cases, fallback) =>
      (forall c | c in cases :: Built(c)) && (fallback.Some? ==> Built(fallback.value))
    case Loop(_, step) => Built(step) && FirstWait(step).None?
    case Idempotent(_, step) => Built(step) && FirstWait(step).None?
    case Nested(_, pipeline) => forall c | c in pipeline.steps :: Built(c) && FirstWait(c).None?
    case _ => true
  }

  predicate BuiltPipeline(p: Pipeline) {
    forall c | c in p.steps :: Built(c)
  }

  lemma ListBuildersKeepBuilt(id: string, labels: seq<string>, steps: seq<Step>, fallback: Option<Step>,
                              retry: Option<Retry>,
                              waitFor: Option<string>, concurrency: Option<int>,
                              description: Option<string>, version: Option<string>)
    requires forall c | c in steps :: Built(c)
    requires fallback.Some? ==> Built(fallback.value)
    ensures var r := BuildParallel(id, steps, retry, waitFor); r.Ok? ==> Built(r.value)
    ensures var r := BuildForEach(id, steps, retry, concurrency); r.Ok? ==> Built(r.value)
    ensures var r := BuildBranch(id, labels, steps, fallback, retry); r.Ok? ==> Built(r.value)
    ensures var r := BuildNested(id, Pipeline(id, steps, description, version), retry); r.Ok? ==> Built(r.value)
    ensures var r := BuildPipeline(id, steps, description, version); r.Ok? ==> BuiltPipeline(r.value)
  {
    NoSiblingProblemIff(steps, {});
    NoneAmong(steps);
  }

  lemma StepBuildersKeepBuilt(id: string, name: Option<string>, step: Step, max: int, retry: Option<Retry>,
                              timeout: Option<int>)
    requires Built(step)
    ensures var r := BuildLoop(id, step, max, retry); r.Ok? ==> Built(r.value)
    ensures var r := BuildIdempotent(name, step); r.Ok? ==> Built(r.value)
    ensures var r := BuildWait(id, timeout, retry); r.Ok? ==> Built(r.value)
  {
  }

  lemma ChildrenAreBuilt(s: Step, c: Step)
    requires Built(s) && c in Children(s, true)
    ensures Built(c)
    ensures FirstWait(s).None? ==> FirstWait(c).None?
    ensures !s.Branch? ==> FirstWait(c).None?
  {
    if !s.Wait? { NoneInside(s); }
  }

  /** A built step that passes the check never meets a wait, even through what its forEach steps yield. */
  lemma {:induction false} NoLiveWait(s: Step, path: seq<nat>)
    requires Built(s) && FirstWait(s).None?
    ensures !WaitAt(s, path, true)
    decreases |path|
  {
    if path != [] && path[0] < |Children(s, true)| {
      var child := Children(s, true)[path[0]];
      ChildrenAreBuilt(s, child);
      NoLiveWait(child, path[1..]);
    }
  }

  /** Wait placement: in a built step every node above a wait, down any live path, is a branch. */
  lemma {:induction false} OnlyBranchesAboveAWait(s: Step, path: seq<nat>, k: nat)
    requires Built(s) && WaitAt(s, path, true) && k < |path|
    ensures NodeAt(s, path[..k], true).Some? && NodeAt(s, path[..k], true).value.Branch?
    decreases |path|
  {
    var child := Children(s, true)[path[0]];
    ChildrenAreBuilt(s, child);
    if !s.Branch? {
      NoLiveWait(child, path[1..]);
      assert false;
    }
    if k > 0 {
      OnlyBranchesAboveAWait(child, path[1..], k - 1);
      assert path[..k][1..] == path[1..][..k - 1];
    }
  }

  /** The same for a pipeline: a wait is one of its steps, or stands under branches only. */
  lemma WaitsOfAPipeline(p: Pipeline, i: nat, path: seq<nat>, k: nat)
    requires BuiltPipeline(p) && i < |p.steps| && WaitAt(p.steps[i], path, true) && k < |path|
    ensures NodeAt(p.steps[i], path[..k], true).Some? && NodeAt(p.steps[i], path[..k], true).value.Branch?
  {
    OnlyBranchesAboveAWait(p.steps[i], path, k);
  }

  /** For built steps the static check is complete: it passes exactly when no live path meets a wait. */
  lemma PassingStepsAreWaitFree(s: Step)
    requires Built(s)
    ensures FirstWait(s).None? <==> forall path :: !WaitAt(s, path, true)
  {
    if FirstWait(s).None? {
      forall path ensures !WaitAt(s, path, true) { NoLiveWait(s, path); }
    } else {
      var path := WaitImpliesPath(s);
      StaticPathIsLive(s, path);
      assert WaitAt(s, path, true);
    }
  }

  lemma {:induction false} StaticPathIsLive(s: Step, path: seq<nat>)
    requires NodeAt(s, path, false).Some?
    ensures NodeAt(s, path, true) == NodeAt(s, path, false)
    decreases |path|
  {
    if path != [] {
      assert !s.ForEach?;
      StaticPathIsLive(Children(s, false)[path[0]], path[1..]);
    }
  }
}
