/** The failover wrapper over model backends (packages/core/src/routing-backend.ts), nested to any depth. */
module Routing {
  import opened Common

  datatype ToolPermissions = Unsupported | Advisory | Wrapped | Native

  datatype Capabilities = Capabilities(
    prompt: bool, streaming: bool, sessionLifecycle: bool, modelSelection: bool,
    mcp: bool, skills: bool, toolPermissions: ToolPermissions,
    vision: Option<bool>, agentmemory: Option<bool>)

  /** What a provider does when called; a provider that lacks the method is None in its Leaf. */
  datatype Outcome = Success(value: string) | Failure(error: string)

  datatype Method = Inference | RunTurn

  /** `fatal` are the errors the wrapper's retryable() refuses: none by default, and possibly infinitely many. */
  datatype Backend =
    | Leaf(id: string, caps: Capabilities, inference: Option<Outcome>, run: Option<Outcome>)
    | Router(id: string, children: seq<Backend>, fatal: iset<string>)

  /** A router has a primary. */
  predicate Valid(b: Backend) {
    b.Router? ==> b.children != [] && forall c | c in b.children :: Valid(c)
  }

  /** One retryable throughout; the default one refuses nothing. */
  ghost predicate Uniform(b: Backend, fatal: iset<string>) {
    b.Router? ==> b.fatal == fatal && forall c | c in b.children :: Uniform(c, fatal)
  }

  // ---------- calls ----------

  function LeafOutcome(b: Backend, m: Method): Option<Outcome>
    requires b.Leaf?
  {
    match m
    case Inference => b.inference
    case RunTurn => b.run
  }

  /** The wrapper offers a method when some child does. */
  predicate Supports(b: Backend, m: Method) {
    match b
    case Leaf(_, _, _, _) => LeafOutcome(b, m).Some?
    case Router(_, children, _) => exists c | c in children :: Supports(c, m)
  }

  /** Providers called, in order, and the result: a value, or the last error if any child was called. */
  datatype Attempt = Attempt(calls: seq<string>, result: Result<string, Option<string>>)

  /** The wrapper's retryable says no. */
  predicate Refused(fatal: iset<string>, error: Option<string>) {
    error.Some? && error.value in fatal
  }

  function Call(b: Backend, m: Method): Attempt
    decreases b, 1
  {
    match b
    case Leaf(id, _, _, _) =>
      (match LeafOutcome(b, m)
       case None => Attempt([], Err(None))
       case Some(Success(v)) => Attempt([id], Ok(v))
       case Some(Failure(e)) => Attempt([id], Err(Some(e))))
    case Router(_, children, fatal) => TryEach(children, m, fatal, None)
  }

  function TryEach(children: seq<Backend>, m: Method, fatal: iset<string>, last: Option<string>): Attempt
    decreases children, 0
  {
    if children == [] then Attempt([], Err(last))
    else if !Supports(children[0], m) then TryEach(children[1..], m, fatal, last)
    else
      var a := Call(children[0], m);
      if a.result.Ok? || Refused(fatal, a.result.error) then a
      else Then(a.calls, TryEach(children[1..], m, fatal, a.result.error))
  }

  function Then(calls: seq<string>, a: Attempt): Attempt {
    Attempt(calls + a.calls, a.result)
  }

  /** The wrapper's loop; Err(None) stands for its own "no backend could service the request". */
  method CallBackend(b: Backend, m: Method) returns (r: Attempt)
    ensures r == Call(b, m)
    decreases b
  {
    if b.Leaf? { return Call(b, m); }
    var calls: seq<string> := [];
    var lastErr: Option<string> := None;
    for i := 0 to |b.children|
      invariant Call(b, m) == Then(calls, TryEach(b.children[i..], m, b.fatal, lastErr))
    {
      var child := b.children[i];
      assert b.children[i..][0] == child && b.children[i..][1..] == b.children[i + 1..];
      if !Supports(child, m) { continue; }
      var a := CallBackend(child, m);
      ghost var before := calls;
      calls := calls + a.calls;
      if a.result.Ok? { return Attempt(calls, a.result); }
      lastErr := a.result.error;
      if Refused(b.fatal, lastErr) { return Attempt(calls, a.result); }
      assert before + (a.calls + TryEach(b.children[i + 1..], m, b.fatal, lastErr).calls)
             == calls + TryEach(b.children[i + 1..], m, b.fatal, lastErr).calls;
    }
    return Attempt(calls, Err(lastErr));
  }

  /** A provider is asked for the method that was called and answers with its own outcome; without it, nobody is. */
  lemma ProviderAnswers(id: string, caps: Capabilities, inference: Option<Outcome>, run: Option<Outcome>, m: Method)
    ensures var own := match m case Inference => inference case RunTurn => run;
            && (Supports(Leaf(id, caps, inference, run), m) <==> own.Some?)
            && Call(Leaf(id, caps, inference, run), m) ==
                 match own
                 case None => Attempt([], Err(None))
                 case Some(Success(value)) => Attempt([id], Ok(value))
                 case Some(Failure(error)) => Attempt([id], Err(Some(error)))
  {
  }

  // ---------- flattening ----------

  function Leaves(b: Backend): seq<Backend>
    decreases b, 1
  {
    match b
    case Leaf(_, _, _, _) => [b]
    case Router(_, children, _) => AllLeaves(children)
  }

  function AllLeaves(children: seq<Backend>): seq<Backend>
    decreases children, 0
  {
    if children == [] then [] else Leaves(children[0]) + AllLeaves(children[1..])
  }

  predicate AnySupports(bs: seq<Backend>, m: Method) {
    exists b | b in bs :: Supports(b, m)
  }

  lemma {:induction false} LeavesSupport(b: Backend, m: Method)
    ensures Supports(b, m) <==> AnySupports(Leaves(b), m)
    decreases b, 1
  {
    match b
    case Leaf(_, _, _, _) => assert b in Leaves(b);
    case Router(_, children, _) => AllLeavesSupport(children, m);
  }

  lemma {:induction false} AllLeavesSupport(bs: seq<Backend>, m: Method)
    ensures AnySupports(bs, m) <==> AnySupports(AllLeaves(bs), m)
    decreases bs, 0
  {
    if bs != [] {
      LeavesSupport(bs[0], m);
      AllLeavesSupport(bs[1..], m);
      assert bs == [bs[0]] + bs[1..];
      assert AnySupports([bs[0]], m) <==> Supports(bs[0], m) by { assert bs[0] in [bs[0]]; }
    }
  }

  lemma {:induction false} TryEachConcat(a: seq<Backend>, b: seq<Backend>, m: Method, fatal: iset<string>,
                                         last: Option<string>)
    requires !Refused(fatal, last)
    ensures var first := TryEach(a, m, fatal, last);
            TryEach(a + b, m, fatal, last)
            == if first.result.Ok? || Refused(fatal, first.result.error) then first
               else Then(first.calls, TryEach(b, m, fatal, first.result.error))
  {
    if a == [] {
      assert a + b == b;
      assert Then([], TryEach(b, m, fatal, last)) == TryEach(b, m, fatal, last);
    } else {
      assert (a + b)[0] == a[0] && (a + b)[1..] == a[1..] + b;
      if !Supports(a[0], m) {
        TryEachConcat(a[1..], b, m, fatal, last);
      } else {
        var call := Call(a[0], m);
        if call.result.Err? && !Refused(fatal, call.result.error) {
          TryEachConcat(a[1..], b, m, fatal, call.result.error);
          var rest := TryEach(a[1..], m, fatal, call.result.error);
          if rest.result.Err? {
            assert call.calls + (rest.calls + TryEach(b, m, fatal, rest.result.error).calls)
                   == (call.calls + rest.calls) + TryEach(b, m, fatal, rest.result.error).calls;
          }
        }
      }
    }
  }

  /** Once somebody supports the method, the error handed in from before no longer matters. */
  lemma {:induction false} LastIsForgotten(bs: seq<Backend>, m: Method, fatal: iset<string>, last: Option<string>)
    requires AnySupports(bs, m)
    ensures TryEach(bs, m, fatal, last) == TryEach(bs, m, fatal, None)
  {
    if !Supports(bs[0], m) {
      assert bs == [bs[0]] + bs[1..];
      LastIsForgotten(bs[1..], m, fatal, last);
    }
  }

  lemma {:induction false} NobodySupports(bs: seq<Backend>, m: Method, fatal: iset<string>, last: Option<string>)
    requires !AnySupports(bs, m)
    ensures TryEach(bs, m, fatal, last) == Attempt([], Err(last))
  {
    if bs != [] {
      assert bs[0] in bs;
      assert forall b | b in bs[1..] :: b in bs;
      NobodySupports(bs[1..], m, fatal, last);
    }
  }

  /**
   * Wherever a failed child has a later sibling to turn to, its wrapper refuses the error exactly when `fatal`
   * does.
   */
  ghost predicate Agrees(b: Backend, m: Method, fatal: iset<string>)
    decreases b, 1
  {
    b.Router? ==> AgreesAmong(b.children, m, b.fatal, fatal)
  }

  ghost predicate AgreesAmong(bs: seq<Backend>, m: Method, own: iset<string>, fatal: iset<string>)
    decreases bs, 0
  {
    bs == []
    || if !Supports(bs[0], m) then AgreesAmong(bs[1..], m, own, fatal)
       else Agrees(bs[0], m, fatal) && MovesOnAlike(bs[0], bs[1..], m, own, fatal)
            && (MovesOn(bs[0], bs[1..], m, own) ==> AgreesAmong(bs[1..], m, own, fatal))
  }

  /** The child fails, somebody after it has the method, and its wrapper goes on. */
  predicate MovesOn(b: Backend, rest: seq<Backend>, m: Method, own: iset<string>) {
    var result := Call(b, m).result;
    result.Err? && AnySupports(rest, m) && !Refused(own, result.error)
  }

  predicate MovesOnAlike(b: Backend, rest: seq<Backend>, m: Method, own: iset<string>, fatal: iset<string>) {
    MovesOn(b, rest, m, own) <==> MovesOn(b, rest, m, fatal)
  }

  lemma {:induction false} CallIsFlat(b: Backend, m: Method, fatal: iset<string>)
    requires Agrees(b, m, fatal)
    ensures Call(b, m) == TryEach(Leaves(b), m, fatal, None)
    decreases b, 1
  {
    match b
    case Leaf(_, _, _, _) =>
      assert [b][1..] == [];
    case Router(_, children, own) => TryEachIsFlat(children, m, own, fatal, None);
  }

  lemma {:induction false} TryEachIsFlat(bs: seq<Backend>, m: Method, own: iset<string>, fatal: iset<string>,
                                         last: Option<string>)
    requires AgreesAmong(bs, m, own, fatal) && !Refused(fatal, last)
    ensures TryEach(bs, m, own, last) == TryEach(AllLeaves(bs), m, fatal, last)
    decreases bs, 0
  {
    if bs != [] {
      var head, tail := bs[0], bs[1..];
      LeavesSupport(head, m);
      AllLeavesSupport(tail, m);
      TryEachConcat(Leaves(head), AllLeaves(tail), m, fatal, last);
      if !Supports(head, m) {
        NobodySupports(Leaves(head), m, fatal, last);
        TryEachIsFlat(tail, m, own, fatal, last);
      } else {
        CallIsFlat(head, m, fatal);
        LastIsForgotten(Leaves(head), m, fatal, last);
        var error := Call(head, m).result;
        if error.Err? && !AnySupports(tail, m) {
          NobodySupports(tail, m, own, error.error);
          NobodySupports(AllLeaves(tail), m, fatal, error.error);
        } else if MovesOn(head, tail, m, own) {
          TryEachIsFlat(tail, m, own, fatal, error.error);
        }
      }
    }
  }

  lemma {:induction false} UniformAgrees(b: Backend, m: Method, fatal: iset<string>)
    requires Uniform(b, fatal)
    ensures Agrees(b, m, fatal)
    decreases b, 1
  {
    if b.Router? { UniformAgreesAmong(b.children, m, fatal); }
  }

  lemma {:induction false} UniformAgreesAmong(bs: seq<Backend>, m: Method, fatal: iset<string>)
    requires forall b | b in bs :: Uniform(b, fatal)
    ensures AgreesAmong(bs, m, fatal, fatal)
    decreases bs, 0
  {
    if bs != [] {
      assert bs[0] in bs && forall b | b in bs[1..] :: b in bs;
      UniformAgrees(bs[0], m, fatal);
      UniformAgreesAmong(bs[1..], m, fatal);
    }
  }

  /**
   * The flattening law: with one retryable used throughout, whatever it refuses, a tree of nested wrappers calls the
   * same providers in the same order, and ends with the same value or error, as one wrapper over its leaves.
   */
  lemma NestingIsFlattening(b: Backend, m: Method, fatal: iset<string>, id: string)
    requires Uniform(b, fatal)
    ensures Call(b, m) == Call(Router(id, Leaves(b), fatal), m)
  {
    UniformAgrees(b, m, fatal);
    CallIsFlat(b, m, fatal);
  }

  // ---------- what one flat wrapper does ----------

  function Supporting(ls: seq<Backend>, m: Method): seq<Backend> {
    if ls == [] then []
    else if Supports(ls[0], m) then [ls[0]] + Supporting(ls[1..], m)
    else Supporting(ls[1..], m)
  }

  predicate AllLeaf(ls: seq<Backend>) {
    forall l | l in ls :: l.Leaf?
  }

  predicate Failed(l: Backend, m: Method) {
    l.Leaf? && LeafOutcome(l, m).Some? && LeafOutcome(l, m).value.Failure?
  }

  function ErrorOf(l: Backend, m: Method): Option<string>
    requires Failed(l, m)
  {
    Some(LeafOutcome(l, m).value.error)
  }

  /**
   * The providers that have the method are called from the front, each once, until one succeeds, one fails with a
   * refused error, or there is none left.
   */
  predicate StopsInTime(sup: seq<Backend>, m: Method, fatal: iset<string>, a: Attempt, last: Option<string>) {
    var n := |a.calls|;
    && n <= |sup|
    && (forall i | 0 <= i < n :: a.calls[i] == sup[i].id)
    && (forall i | 0 <= i < n - 1 :: Failed(sup[i], m) && !Refused(fatal, ErrorOf(sup[i], m)))
    && match a.result
       case Ok(v) => n > 0 && sup[n - 1].Leaf? && LeafOutcome(sup[n - 1], m) == Some(Success(v))
       case Err(e) =>
         if n == 0 then sup == [] && e == last
         else Failed(sup[n - 1], m) && e == ErrorOf(sup[n - 1], m) && (n == |sup| || Refused(fatal, e))
  }

  lemma OneMoreFailure(head: Backend, rest: seq<Backend>, m: Method, fatal: iset<string>, t: Attempt,
                       last: Option<string>)
    requires Failed(head, m) && !Refused(fatal, ErrorOf(head, m))
    requires StopsInTime(rest, m, fatal, t, ErrorOf(head, m))
    ensures StopsInTime([head] + rest, m, fatal, Then([head.id], t), last)
  {
    var sup, whole := [head] + rest, Then([head.id], t);
    forall i | 0 <= i < |whole.calls| ensures whole.calls[i] == sup[i].id {}
    forall i | 0 <= i < |whole.calls| - 1 ensures Failed(sup[i], m) && !Refused(fatal, ErrorOf(sup[i], m)) {
      if i > 0 { assert sup[i] == rest[i - 1]; }
    }
  }

  lemma {:induction false} FlatMeaning(ls: seq<Backend>, m: Method, fatal: iset<string>, last: Option<string>)
    requires AllLeaf(ls)
    ensures StopsInTime(Supporting(ls, m), m, fatal, TryEach(ls, m, fatal, last), last)
  {
    if ls != [] {
      var head, tail := ls[0], ls[1..];
      assert head in ls;
      assert forall l | l in tail :: l in ls;
      if !Supports(head, m) {
        FlatMeaning(tail, m, fatal, last);
      } else {
        var a := Call(head, m);
        if a.result.Err? && !Refused(fatal, a.result.error) {
          FlatMeaning(tail, m, fatal, a.result.error);
          OneMoreFailure(head, Supporting(tail, m), m, fatal, TryEach(tail, m, fatal, a.result.error), last);
        }
      }
    }
  }

  lemma {:induction false} LeavesAreLeaves(b: Backend)
    ensures AllLeaf(Leaves(b))
    decreases b, 1
  {
    if b.Router? { AllLeavesAreLeaves(b.children); }
  }

  lemma {:induction false} AllLeavesAreLeaves(bs: seq<Backend>)
    ensures AllLeaf(AllLeaves(bs))
    decreases bs, 0
  {
    if bs != [] {
      LeavesAreLeaves(bs[0]);
      AllLeavesAreLeaves(bs[1..]);
    }
  }

  /**
   * So a nested wrapper with one retryable calls the providers that have the method from the front, each at most once,
   * and returns the first success, the first refused error or, when all fail otherwise, the last error.
   */
  lemma RoutingMeaning(b: Backend, m: Method, fatal: iset<string>)
    requires Uniform(b, fatal)
    ensures StopsInTime(Supporting(Leaves(b), m), m, fatal, Call(b, m), None)
  {
    UniformAgrees(b, m, fatal);
    CallIsFlat(b, m, fatal);
    LeavesAreLeaves(b);
    FlatMeaning(Leaves(b), m, fatal, None);
  }

  // ---------- advertised capabilities ----------

  function Weakest(values: seq<ToolPermissions>): ToolPermissions {
    if Unsupported in values then Unsupported
    else if Advisory in values then Advisory
    else if Wrapped in values then Wrapped
    else Native
  }

  function CapsOf(b: Backend): Capabilities
    requires Valid(b)
    decreases b, 1
  {
    match b
    case Leaf(_, caps, _, _) => caps
    case Router(_, children, _) => Combine(AllCaps(children))
  }

  function AllCaps(bs: seq<Backend>): (r: seq<Capabilities>)
    requires forall b | b in bs :: Valid(b)
    ensures |r| == |bs|
    decreases bs, 0
  {
    if bs == [] then []
    else
      assert bs[0] in bs;
      assert forall b | b in bs[1..] :: b in bs;
      [CapsOf(bs[0])] + AllCaps(bs[1..])
  }

  function Combine(all: seq<Capabilities>): Capabilities
    requires all != []
  {
    Capabilities(
      prompt := all[0].prompt,
      streaming := all[0].streaming,
      sessionLifecycle := all[0].sessionLifecycle,
      modelSelection := all[0].modelSelection,
      mcp := forall c | c in all :: c.mcp,
      skills := forall c | c in all :: c.skills,
      toolPermissions := Weakest(seq(|all|, i requires 0 <= i < |all| => all[i].toolPermissions)),
      vision := if exists c | c in all :: c.vision.Some?
                then Some(forall c | c in all :: c.vision == Some(true)) else None,
      agentmemory := if exists c | c in all :: c.agentmemory.Some?
                     then Some(forall c | c in all :: c.agentmemory == Some(true)) else None)
  }

  function Rank(t: ToolPermissions): nat {
    match t case Unsupported => 0 case Advisory => 1 case Wrapped => 2 case Native => 3
  }

  function Weaker(a: ToolPermissions, b: ToolPermissions): ToolPermissions {
    if Rank(a) <= Rank(b) then a else b
  }

  lemma WeakestIsOneOfThem(values: seq<ToolPermissions>)
    requires values != []
    ensures Weakest(values) in values
    ensures forall v | v in values :: Rank(Weakest(values)) <= Rank(v)
  {
    var v := values[0];
    assert v in values;
    assert v == Unsupported || v == Advisory || v == Wrapped || v == Native;
  }

  function MergeFlag(a: Option<bool>, b: Option<bool>): Option<bool> {
    if a.None? && b.None? then None else Some(a == Some(true) && b == Some(true))
  }

  /** Two backends side by side. */
  function Merge(a: Capabilities, b: Capabilities): Capabilities {
    a.(mcp := a.mcp && b.mcp, skills := a.skills && b.skills,
       toolPermissions := Weaker(a.toolPermissions, b.toolPermissions),
       vision := MergeFlag(a.vision, b.vision), agentmemory := MergeFlag(a.agentmemory, b.agentmemory))
  }

  /** The combination only depends on the groups' own combinations. */
  lemma CombineIsMerge(a: seq<Capabilities>, b: seq<Capabilities>)
    requires a != [] && b != []
    ensures Combine(a + b) == Merge(Combine(a), Combine(b))
  {
    var all := a + b;
    assert all[0] == a[0];
    var ta := seq(|a|, i requires 0 <= i < |a| => a[i].toolPermissions);
    var tb := seq(|b|, i requires 0 <= i < |b| => b[i].toolPermissions);
    assert seq(|all|, i requires 0 <= i < |all| => all[i].toolPermissions) == ta + tb;
    MergedFlags(a, b);
  }

  lemma MergedFlags(a: seq<Capabilities>, b: seq<Capabilities>)
    requires a != [] && b != []
    ensures Combine(a + b).vision == MergeFlag(Combine(a).vision, Combine(b).vision)
    ensures Combine(a + b).agentmemory == MergeFlag(Combine(a).agentmemory, Combine(b).agentmemory)
  {
    MergedVision(a, b);
    MergedMemory(a, b);
  }

  lemma MergedVision(a: seq<Capabilities>, b: seq<Capabilities>)
    requires a != [] && b != []
    ensures Combine(a + b).vision == MergeFlag(Combine(a).vision, Combine(b).vision)
  {
  }

  lemma MergedMemory(a: seq<Capabilities>, b: seq<Capabilities>)
    requires a != [] && b != []
    ensures Combine(a + b).agentmemory == MergeFlag(Combine(a).agentmemory, Combine(b).agentmemory)
  {
  }

  lemma FlagIsItself(o: Option<bool>)
    ensures o.Some? ==> o == Some(o == Some(true))
  {
    if o.Some? {
      var v: bool := o.value;
      assert o == Some(v);
      if v { assert o == Some(true); } else { assert o != Some(true); }
    }
  }

  lemma CombineOne(c: Capabilities)
    ensures Combine([c]) == c
  {
    var all := [c];
    assert forall x :: x in all <==> x == c;
    var values := seq(|all|, i requires 0 <= i < |all| => all[i].toolPermissions);
    assert values == [c.toolPermissions];
    assert Weakest(values) == c.toolPermissions;
    assert c in all;
    assert (forall x | x in all :: x.vision == Some(true)) <==> c.vision == Some(true);
    assert (forall x | x in all :: x.agentmemory == Some(true)) <==> c.agentmemory == Some(true);
    FlagIsItself(c.vision);
    FlagIsItself(c.agentmemory);
    assert Combine(all).mcp == c.mcp && Combine(all).skills == c.skills;
  }

  lemma {:induction false} LeavesAreSome(b: Backend)
    requires Valid(b)
    ensures Leaves(b) != [] && forall l | l in Leaves(b) :: Valid(l)
    decreases b, 1
  {
    if b.Router? { AllLeavesAreSome(b.children); }
  }

  lemma {:induction false} AllLeavesAreSome(bs: seq<Backend>)
    requires forall b | b in bs :: Valid(b)
    ensures bs != [] ==> AllLeaves(bs) != []
    ensures forall l | l in AllLeaves(bs) :: Valid(l)
    decreases bs, 0
  {
    if bs != [] {
      assert bs[0] in bs;
      assert forall b | b in bs[1..] :: b in bs;
      LeavesAreSome(bs[0]);
      AllLeavesAreSome(bs[1..]);
    }
  }

  lemma {:induction false} AllCapsConcat(a: seq<Backend>, b: seq<Backend>)
    requires (forall x | x in a :: Valid(x)) && (forall x | x in b :: Valid(x))
    ensures forall x | x in a + b :: Valid(x)
    ensures AllCaps(a + b) == AllCaps(a) + AllCaps(b)
  {
    if a == [] {
      assert a + b == b;
    } else {
      assert a[0] in a;
      assert forall x | x in a[1..] :: x in a;
      assert (a + b)[0] == a[0] && (a + b)[1..] == a[1..] + b;
      AllCapsConcat(a[1..], b);
    }
  }

  /** A tree of wrappers advertises what one wrapper over its leaves advertises. */
  lemma {:induction false} CapabilitiesAreFlat(b: Backend)
    requires Valid(b)
    ensures Leaves(b) != [] && (forall l | l in Leaves(b) :: Valid(l))
    ensures CapsOf(b) == Combine(AllCaps(Leaves(b)))
    decreases b, 1
  {
    LeavesAreSome(b);
    match b
    case Leaf(_, caps, _, _) =>
      assert [b][1..] == [] && AllCaps([b]) == [caps];
      CombineOne(caps);
    case Router(_, children, _) => AllCapabilitiesAreFlat(children);
  }

  lemma {:induction false} AllCapabilitiesAreFlat(bs: seq<Backend>)
    requires bs != [] && forall b | b in bs :: Valid(b)
    ensures AllLeaves(bs) != [] && (forall l | l in AllLeaves(bs) :: Valid(l))
    ensures Combine(AllCaps(bs)) == Combine(AllCaps(AllLeaves(bs)))
    decreases bs, 0
  {
    var head, tail := bs[0], bs[1..];
    assert head in bs;
    assert forall b | b in tail :: b in bs;
    AllLeavesAreSome(bs);
    CapabilitiesAreFlat(head);
    if tail == [] {
      assert AllLeaves(bs) == Leaves(head);
      assert AllCaps(bs) == [CapsOf(head)];
      CombineOne(CapsOf(head));
    } else {
      AllCapabilitiesAreFlat(tail);
      AllCapsConcat(Leaves(head), AllLeaves(tail));
      CombineIsMerge([CapsOf(head)], AllCaps(tail));
      CombineOne(CapsOf(head));
      CombineIsMerge(AllCaps(Leaves(head)), AllCaps(AllLeaves(tail)));
    }
  }

  /** No enforcement-relevant capability is advertised more strongly than any provider behind the wrapper has it. */
  lemma NeverStrongerThanALeaf(b: Backend, l: Backend)
    requires Valid(b) && l in Leaves(b)
    ensures l.Leaf?
    ensures var c := CapsOf(b);
            && (c.mcp ==> l.caps.mcp) && (c.skills ==> l.caps.skills)
            && Rank(c.toolPermissions) <= Rank(l.caps.toolPermissions)
            && (c.vision == Some(true) ==> l.caps.vision == Some(true))
            && (c.agentmemory == Some(true) ==> l.caps.agentmemory == Some(true))
  {
    CapabilitiesAreFlat(b);
    LeavesAreLeaves(b);
    var leaves := Leaves(b);
    var all := AllCaps(leaves);
    CapsOfMembers(leaves, l);
    var i :| 0 <= i < |all| && all[i] == CapsOf(l);
    var values := seq(|all|, i requires 0 <= i < |all| => all[i].toolPermissions);
    assert values[i] == l.caps.toolPermissions;
    assert values[i] in values;
  }

  lemma {:induction false} CapsOfMembers(bs: seq<Backend>, b: Backend)
    requires (forall x | x in bs :: Valid(x)) && b in bs
    ensures CapsOf(b) in AllCaps(bs)
  {
    assert bs[0] in bs;
    assert forall x | x in bs[1..] :: x in bs;
    if b != bs[0] { CapsOfMembers(bs[1..], b); }
  }
}
