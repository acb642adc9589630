/** The bounded-concurrency gate (packages/core/src/concurrency.ts). */
module Semaphore {

  /** `granted` lists, in order, the callers whose acquire has resolved. */
  datatype Gate = Gate(active: int, queue: seq<nat>, granted: seq<nat>)
  datatype Op = Acquire(caller: nat) | Release

  const FRESH := Gate(0, [], [])

  function Apply(max: int, g: Gate, op: Op): Gate {
    match op
    case Acquire(caller) =>
      if max == 0 || g.active < max then Gate(g.active + 1, g.queue, g.granted + [caller])
      else g.(queue := g.queue + [caller])
    case Release =>
      if g.queue != [] then Gate(g.active, g.queue[1..], g.granted + [g.queue[0]])
      else g.(active := g.active - 1)
  }

  class ConcurrencySemaphore {
    const max: int
    var active: int
    var queue: seq<nat>
    ghost var granted: seq<nat>

    ghost function State(): Gate
      reads this
    {
      Gate(active, queue, granted)
    }

    constructor (maxConcurrent: int)
      ensures max == maxConcurrent && State() == FRESH
    {
      max := maxConcurrent;
      active, queue, granted := 0, [], [];
    }

    /** The result says whether the promise is already resolved. */
    method AcquireFor(caller: nat) returns (now: bool)
      modifies this
      ensures State() == Apply(max, old(State()), Acquire(caller))
      ensures granted == if now then old(granted) + [caller] else old(granted)
    {
      if max == 0 || active < max {
        active := active + 1;
        granted := granted + [caller];
        return true;
      }
      queue := queue + [caller];
      return false;
    }

    /** Resolves the promise of the longest waiter, if there is one. */
    method ReleaseOne() returns (next: seq<nat>)
      modifies this
      ensures State() == Apply(max, old(State()), Release)
      ensures granted == old(granted) + next && |next| <= 1
    {
      if queue != [] {
        next := [queue[0]];
        granted := granted + [queue[0]];
        queue := queue[1..];
      } else {
        next := [];
        active := active - 1;
      }
    }
  }

  // ---------- whole histories ----------

  function Run(max: int, ops: seq<Op>): Gate {
    if ops == [] then FRESH else Apply(max, Run(max, ops[..|ops| - 1]), ops[|ops| - 1])
  }

  function Callers(ops: seq<Op>): seq<nat> {
    if ops == [] then []
    else
      var before, last := Callers(ops[..|ops| - 1]), ops[|ops| - 1];
      if last.Acquire? then before + [last.caller] else before
  }

  function Releases(ops: seq<Op>): nat {
    if ops == [] then 0 else Releases(ops[..|ops| - 1]) + if ops[|ops| - 1].Release? then 1 else 0
  }

  /** Nobody releases without having been granted. */
  predicate Disciplined(max: int, ops: seq<Op>) {
    ops == []
    || (Disciplined(max, ops[..|ops| - 1])
        && (ops[|ops| - 1].Release? ==> Run(max, ops[..|ops| - 1]).active > 0))
  }

  function Min(a: int, b: int): int {
    if a <= b then a else b
  }

  /** A negative limit never grants. */
  function Capacity(max: int): nat {
    if max < 0 then 0 else max
  }

  /** Grants are first come, first served; the count of active grants is grants less releases. */
  lemma {:induction false} FirstComeFirstServed(max: int, ops: seq<Op>)
    requires Disciplined(max, ops)
    ensures var g := Run(max, ops);
            && g.granted + g.queue == Callers(ops)
            && g.active == |g.granted| - Releases(ops) >= 0
            && (max == 0 ==> g.queue == [])
            && (max != 0 ==> g.active <= Capacity(max))
            && (g.queue != [] ==> g.active == Capacity(max))
  {
    if ops != [] {
      var front, last := ops[..|ops| - 1], ops[|ops| - 1];
      FirstComeFirstServed(max, front);
      var g := Run(max, front);
      match last
      case Acquire(caller) =>
        assert g.granted + (g.queue + [caller]) == (g.granted + g.queue) + [caller];
        if max == 0 || g.active < max { assert g.queue == []; }
      case Release =>
        if g.queue != [] { assert (g.granted + [g.queue[0]]) + g.queue[1..] == g.granted + g.queue; }
    }
  }

  /**
   * In closed form: with a limit, the callers granted so far are the first releases + limit of those that asked, so
   * no slot is ever idle while somebody waits; without one, everybody.
   */
  lemma GrantsInClosedForm(max: int, ops: seq<Op>)
    requires Disciplined(max, ops)
    ensures var asked := Callers(ops);
            var n := if max == 0 then |asked| else Min(|asked|, Releases(ops) + Capacity(max));
            0 <= n <= |asked| && Run(max, ops).granted == asked[..n]
  {
    FirstComeFirstServed(max, ops);
    ClosedForm(max, Run(max, ops), Callers(ops), Releases(ops));
  }

  lemma ClosedForm(max: int, g: Gate, asked: seq<nat>, releases: nat)
    requires g.granted + g.queue == asked && g.active == |g.granted| - releases >= 0
    requires if max == 0 then g.queue == [] else g.active <= Capacity(max)
    requires g.queue != [] ==> g.active == Capacity(max)
    ensures var n := if max == 0 then |asked| else Min(|asked|, releases + Capacity(max));
            0 <= n <= |asked| && g.granted == asked[..n]
  {
  }
}
