/** The in-process event bus and its per-run index (packages/core/src/events.ts). */
module EventBus {
  import opened Common

  type Listener = nat
  type RunId = string

  datatype Sub = Global(listener: Listener) | OnRun(run: RunId, listener: Listener)

  /**
   * A published event may already carry a sequence number; `terminal` is run.completed, run.failed or
   * run.cancelled.
   */
  datatype Op = Subscribe(sub: Sub) | Unsubscribe(sub: Sub) | Publish(run: RunId, given: Option<nat>, terminal: bool)

  // ---------- a flat list of subscriptions ----------

  function Remove<T(==)>(xs: seq<T>, x: T): seq<T> {
    if xs == [] then []
    else if xs[0] == x then Remove(xs[1..], x)
    else [xs[0]] + Remove(xs[1..], x)
  }

  function Add<T(==)>(xs: seq<T>, x: T): seq<T> {
    if x in xs then xs else xs + [x]
  }

  /** What is subscribed after a history, in registration order. */
  function Subs(history: seq<Op>): seq<Sub> {
    if history == [] then []
    else
      var before := Subs(history[..|history| - 1]);
      match history[|history| - 1]
      case Subscribe(sub) => Add(before, sub)
      case Unsubscribe(sub) => Remove(before, sub)
      case Publish(_, _, _) => before
  }

  /** The subscriptions an event of the run concerns, in registration order. */
  function Interested(subs: seq<Sub>, run: RunId): seq<Sub> {
    if subs == [] then []
    else if subs[0].Global? || subs[0].run == run then [subs[0]] + Interested(subs[1..], run)
    else Interested(subs[1..], run)
  }

  // ---------- the two indexes ----------

  function Globals(subs: seq<Sub>): seq<Listener> {
    if subs == [] then []
    else if subs[0].Global? then [subs[0].listener] + Globals(subs[1..])
    else Globals(subs[1..])
  }

  function OfRun(subs: seq<Sub>, run: RunId): seq<Listener> {
    if subs == [] then []
    else if subs[0].OnRun? && subs[0].run == run then [subs[0].listener] + OfRun(subs[1..], run)
    else OfRun(subs[1..], run)
  }

  lemma {:induction false} IndexAppend(subs: seq<Sub>, sub: Sub, run: RunId)
    ensures Globals(subs + [sub]) == if sub.Global? then Globals(subs) + [sub.listener] else Globals(subs)
    ensures OfRun(subs + [sub], run)
            == if sub.OnRun? && sub.run == run then OfRun(subs, run) + [sub.listener] else OfRun(subs, run)
  {
    if subs == [] {
      assert subs + [sub] == [sub] && [sub][1..] == [];
    } else {
      assert (subs + [sub])[0] == subs[0] && (subs + [sub])[1..] == subs[1..] + [sub];
      IndexAppend(subs[1..], sub, run);
    }
  }

  lemma {:induction false} IndexMember(subs: seq<Sub>, listener: Listener, run: RunId)
    ensures listener in Globals(subs) <==> Global(listener) in subs
    ensures listener in OfRun(subs, run) <==> OnRun(run, listener) in subs
  {
    if subs != [] { IndexMember(subs[1..], listener, run); }
  }

  lemma IndexAdd(subs: seq<Sub>, sub: Sub, run: RunId)
    ensures Globals(Add(subs, sub)) == if sub.Global? then Add(Globals(subs), sub.listener) else Globals(subs)
    ensures OfRun(Add(subs, sub), run)
            == if sub.OnRun? && sub.run == run then Add(OfRun(subs, run), sub.listener) else OfRun(subs, run)
  {
    IndexMember(subs, sub.listener, run);
    IndexAppend(subs, sub, run);
  }

  lemma RemovePush<T>(head: T, xs: seq<T>, x: T)
    ensures Remove([head] + xs, x) == if head == x then Remove(xs, x) else [head] + Remove(xs, x)
  {
  }

  lemma {:induction false} IndexRemove(subs: seq<Sub>, sub: Sub, run: RunId)
    ensures Globals(Remove(subs, sub)) == if sub.Global? then Remove(Globals(subs), sub.listener) else Globals(subs)
    ensures OfRun(Remove(subs, sub), run)
            == if sub.OnRun? && sub.run == run then Remove(OfRun(subs, run), sub.listener) else OfRun(subs, run)
  {
    if subs != [] {
      var head, tail := subs[0], subs[1..];
      IndexRemove(tail, sub, run);
      RemovePush(head.listener, Globals(tail), sub.listener);
      RemovePush(head.listener, OfRun(tail, run), sub.listener);
    }
  }

  // ---------- sequence numbers ----------

  /** How many events of the run the bus has numbered since the run's last terminal event. */
  function Counter(history: seq<Op>, run: RunId): nat {
    if history == [] then 0
    else
      var before, last := Counter(history[..|history| - 1], run), history[|history| - 1];
      if !last.Publish? || last.run != run then before
      else if last.terminal then 0
      else if last.given.None? then before + 1
      else before
  }

  /** The sequence number the i-th operation's event goes out with. */
  function Stamp(history: seq<Op>, i: nat): nat
    requires i < |history| && history[i].Publish?
  {
    if history[i].given.Some? then history[i].given.value else Counter(history[..i], history[i].run) + 1
  }

  // ---------- the bus ----------

  function Slot(byRun: map<RunId, seq<Listener>>, run: RunId): seq<Listener> {
    if run in byRun then byRun[run] else []
  }

  /** The index agrees with the flat list, and keeps no empty entry. */
  ghost predicate Indexes(byRun: map<RunId, seq<Listener>>, subs: seq<Sub>) {
    && (forall run :: Slot(byRun, run) == OfRun(subs, run))
    && (forall run | run in byRun :: byRun[run] != [])
  }

  function CountOf(seqByRun: map<RunId, nat>, run: RunId): nat {
    if run in seqByRun then seqByRun[run] else 0
  }

  /** The counters agree with the history, and none is kept for a run that has none. */
  ghost predicate Counts(seqByRun: map<RunId, nat>, history: seq<Op>) {
    && (forall run :: CountOf(seqByRun, run) == Counter(history, run))
    && (forall run | run in seqByRun :: seqByRun[run] > 0)
  }

  lemma AddOnRun(byRun: map<RunId, seq<Listener>>, subs: seq<Sub>, run: RunId, l: Listener)
    requires Indexes(byRun, subs)
    ensures Indexes(byRun[run := Add(Slot(byRun, run), l)], Add(subs, OnRun(run, l)))
    ensures Globals(Add(subs, OnRun(run, l))) == Globals(subs)
  {
    var after := byRun[run := Add(Slot(byRun, run), l)];
    forall r ensures Slot(after, r) == OfRun(Add(subs, OnRun(run, l)), r) { IndexAdd(subs, OnRun(run, l), r); }
    IndexAdd(subs, OnRun(run, l), run);
  }

  /** Deleting the entry that becomes empty. */
  function Dropped(byRun: map<RunId, seq<Listener>>, run: RunId, l: Listener): map<RunId, seq<Listener>> {
    if run !in byRun then byRun
    else
      var left := Remove(byRun[run], l);
      if left == [] then byRun - {run} else byRun[run := left]
  }

  lemma RemoveOnRun(byRun: map<RunId, seq<Listener>>, subs: seq<Sub>, run: RunId, l: Listener)
    requires Indexes(byRun, subs)
    ensures Indexes(Dropped(byRun, run, l), Remove(subs, OnRun(run, l)))
    ensures Globals(Remove(subs, OnRun(run, l))) == Globals(subs)
  {
    var after := Dropped(byRun, run, l);
    forall r ensures Slot(after, r) == OfRun(Remove(subs, OnRun(run, l)), r) {
      IndexRemove(subs, OnRun(run, l), r);
      assert Slot(byRun, r) == OfRun(subs, r);
    }
    IndexRemove(subs, OnRun(run, l), run);
  }

  lemma ChangeGlobal(byRun: map<RunId, seq<Listener>>, subs: seq<Sub>, l: Listener)
    requires Indexes(byRun, subs)
    ensures Indexes(byRun, Add(subs, Global(l))) && Globals(Add(subs, Global(l))) == Add(Globals(subs), l)
    ensures Indexes(byRun, Remove(subs, Global(l))) && Globals(Remove(subs, Global(l))) == Remove(Globals(subs), l)
  {
    forall r ensures OfRun(Add(subs, Global(l)), r) == OfRun(Remove(subs, Global(l)), r) == OfRun(subs, r) {
      IndexAdd(subs, Global(l), r);
      IndexRemove(subs, Global(l), r);
    }
    IndexAdd(subs, Global(l), "");
    IndexRemove(subs, Global(l), "");
  }

  lemma ChangeSubs(history: seq<Op>, op: Op, seqByRun: map<RunId, nat>)
    requires !op.Publish? && Counts(seqByRun, history)
    ensures Subs(history + [op]) == if op.Subscribe? then Add(Subs(history), op.sub) else Remove(Subs(history), op.sub)
    ensures Counts(seqByRun, history + [op])
  {
  }

  function Stamped(seqByRun: map<RunId, nat>, run: RunId, given: Option<nat>, terminal: bool): map<RunId, nat> {
    var m := if given.None? then seqByRun[run := CountOf(seqByRun, run) + 1] else seqByRun;
    if terminal then m - {run} else m
  }

  lemma StampCounts(history: seq<Op>, seqByRun: map<RunId, nat>, run: RunId, given: Option<nat>, terminal: bool)
    requires Counts(seqByRun, history)
    ensures var after := history + [Publish(run, given, terminal)];
            && Subs(after) == Subs(history)
            && Counts(Stamped(seqByRun, run, given, terminal), after)
            && Stamp(after, |history|) == if given.Some? then given.value else CountOf(seqByRun, run) + 1
  {
  }

  class Bus {
    var listeners: seq<Listener>
    var byRun: map<RunId, seq<Listener>>
    var seqByRun: map<RunId, nat>
    ghost var history: seq<Op>

    /** The state is the one the history calls for; no index entry is empty and no counter is zero. */
    ghost predicate Valid()
      reads this
    {
      && listeners == Globals(Subs(history))
      && Indexes(byRun, Subs(history))
      && Counts(seqByRun, history)
    }

    constructor ()
      ensures Valid() && history == []
    {
      listeners, byRun, seqByRun, history := [], map[], map[], [];
    }

    /** Stamps the event and calls the listeners; the result lists through which subscriptions, in order. */
    method PublishEvent(run: RunId, given: Option<nat>, terminal: bool) returns (number: nat, delivered: seq<Sub>)
      requires Valid()
      modifies this
      ensures Valid() && history == old(history) + [Publish(run, given, terminal)]
      ensures number == Stamp(history, |old(history)|)
      ensures delivered == Delivery(Subs(old(history)), run)
    {
      StampCounts(history, seqByRun, run, given, terminal);
      if given.None? {
        number := CountOf(seqByRun, run) + 1;
        seqByRun := seqByRun[run := number];
      } else {
        number := given.value;
      }
      delivered := CallListeners(run);
      if terminal { seqByRun := seqByRun - {run}; }
      history := history + [Publish(run, given, terminal)];
    }

    method CallListeners(run: RunId) returns (delivered: seq<Sub>)
      requires listeners == Globals(Subs(history))
      requires Indexes(byRun, Subs(history))
      ensures delivered == Delivery(Subs(history), run)
    {
      delivered := [];
      for i := 0 to |listeners|
        invariant delivered == AsGlobals(listeners[..i])
      {
        assert listeners[..i + 1][..i] == listeners[..i];
        delivered := delivered + [Global(listeners[i])];
      }
      assert listeners[..|listeners|] == listeners;
      assert Slot(byRun, run) == OfRun(Subs(history), run);
      if run in byRun {
        var indexed := byRun[run];
        ghost var first := delivered;
        for i := 0 to |indexed|
          invariant delivered == first + AsRun(run, indexed[..i])
        {
          assert indexed[..i + 1][..i] == indexed[..i];
          delivered := delivered + [OnRun(run, indexed[i])];
        }
        assert indexed[..|indexed|] == indexed;
      }
    }

    method SubscribeAll(listener: Listener)
      requires Valid()
      modifies this
      ensures Valid() && history == old(history) + [Subscribe(Global(listener))]
    {
      var op := Subscribe(Global(listener));
      ChangeSubs(history, op, seqByRun);
      ChangeGlobal(byRun, Subs(history), listener);
      listeners := Add(listeners, listener);
      history := history + [op];
    }

    method UnsubscribeAll(listener: Listener)
      requires Valid()
      modifies this
      ensures Valid() && history == old(history) + [Unsubscribe(Global(listener))]
    {
      var op := Unsubscribe(Global(listener));
      ChangeSubs(history, op, seqByRun);
      ChangeGlobal(byRun, Subs(history), listener);
      listeners := Remove(listeners, listener);
      history := history + [op];
    }

    method ForRun(run: RunId, listener: Listener)
      requires Valid()
      modifies this
      ensures Valid() && history == old(history) + [Subscribe(OnRun(run, listener))]
    {
      var op := Subscribe(OnRun(run, listener));
      ChangeSubs(history, op, seqByRun);
      AddOnRun(byRun, Subs(history), run, listener);
      byRun := byRun[run := Add(Slot(byRun, run), listener)];
      history := history + [op];
    }

    /** The function that forRun returns; it may be called late or twice. */
    method UnsubscribeRun(run: RunId, listener: Listener)
      requires Valid()
      modifies this
      ensures Valid() && history == old(history) + [Unsubscribe(OnRun(run, listener))]
    {
      var op := Unsubscribe(OnRun(run, listener));
      ChangeSubs(history, op, seqByRun);
      RemoveOnRun(byRun, Subs(history), run, listener);
      if run in byRun {
        var left := Remove(byRun[run], listener);
        byRun := if left == [] then byRun - {run} else byRun[run := left];
      }
      history := history + [op];
    }

    method ListenerCount() returns (n: nat)
      requires Valid()
      ensures n == |Subs(history)|
    {
      ghost var subs := Subs(history);
      n := |listeners|;
      var left := byRun.Keys;
      CountNone(subs);
      assert byRun.Keys - left == {};
      while left != {}
        invariant left <= byRun.Keys
        invariant n == |listeners| + CountIn(subs, byRun.Keys - left)
        decreases left
      {
        var run :| run in left;
        assert Slot(byRun, run) == OfRun(subs, run);
        n := n + |byRun[run]|;
        CountOneMore(subs, byRun.Keys - left, run);
        assert byRun.Keys - (left - {run}) == byRun.Keys - left + {run};
        left := left - {run};
      }
      assert byRun.Keys - {} == byRun.Keys;
      forall sub | sub in subs && sub.OnRun? ensures sub.run in byRun.Keys {
        IndexMember(subs, sub.listener, sub.run);
        assert Slot(byRun, sub.run) == OfRun(subs, sub.run);
      }
      CountAll(subs, byRun.Keys);
    }
  }

  // ---------- delivery ----------

  function AsGlobals(ls: seq<Listener>): seq<Sub> {
    if ls == [] then [] else AsGlobals(ls[..|ls| - 1]) + [Global(ls[|ls| - 1])]
  }

  function AsRun(run: RunId, ls: seq<Listener>): seq<Sub> {
    if ls == [] then [] else AsRun(run, ls[..|ls| - 1]) + [OnRun(run, ls[|ls| - 1])]
  }

  /** The order publish calls in: the global listeners, then those indexed under the run. */
  function Delivery(subs: seq<Sub>, run: RunId): seq<Sub> {
    AsGlobals(Globals(subs)) + AsRun(run, OfRun(subs, run))
  }

  lemma {:induction false} AsGlobalsPush(l: Listener, ls: seq<Listener>)
    ensures AsGlobals([l] + ls) == [Global(l)] + AsGlobals(ls)
  {
    var n := |ls|;
    if n > 0 {
      assert ([l] + ls)[..n] == [l] + ls[..n - 1];
      AsGlobalsPush(l, ls[..n - 1]);
    } else {
      assert [l] + ls == [l] && [l][..0] == [];
    }
  }

  lemma {:induction false} AsRunPush(run: RunId, l: Listener, ls: seq<Listener>)
    ensures AsRun(run, [l] + ls) == [OnRun(run, l)] + AsRun(run, ls)
  {
    var n := |ls|;
    if n > 0 {
      assert ([l] + ls)[..n] == [l] + ls[..n - 1];
      AsRunPush(run, l, ls[..n - 1]);
    } else {
      assert [l] + ls == [l] && [l][..0] == [];
    }
  }

  lemma DeliverGlobal(sub: Sub, subs: seq<Sub>, run: RunId)
    requires sub.Global?
    ensures Delivery([sub] + subs, run) == [sub] + Delivery(subs, run)
  {
    AsGlobalsPush(sub.listener, Globals(subs));
  }

  lemma DeliverOnRun(sub: Sub, subs: seq<Sub>, run: RunId)
    requires sub.OnRun? && sub.run == run
    ensures Delivery([sub] + subs, run) == AsGlobals(Globals(subs)) + ([sub] + AsRun(run, OfRun(subs, run)))
  {
    AsRunPush(run, sub.listener, OfRun(subs, run));
  }

  /** Through the index every interested subscription is called, as often as it is in the flat list. */
  lemma {:induction false} DeliveryIsInterested(subs: seq<Sub>, run: RunId)
    ensures multiset(Delivery(subs, run)) == multiset(Interested(subs, run))
  {
    if subs != [] {
      var sub, rest := subs[0], subs[1..];
      assert subs == [sub] + rest;
      DeliveryIsInterested(rest, run);
      if sub.Global? {
        DeliverGlobal(sub, rest, run);
      } else if sub.run == run {
        DeliverOnRun(sub, rest, run);
      } else {
      }
    }
  }

  /** No subscription to the run was registered before a global one. */
  predicate GlobalsFirst(subs: seq<Sub>, run: RunId) {
    forall i, j | 0 <= i < j < |subs| && subs[i].OnRun? && subs[i].run == run :: !subs[j].Global?
  }

  lemma {:induction false} NoGlobals(subs: seq<Sub>)
    ensures Globals(subs) == [] <==> forall s | s in subs :: s.OnRun?
  {
    if subs != [] {
      NoGlobals(subs[1..]);
      assert forall s | s in subs :: s == subs[0] || s in subs[1..];
      assert subs[0] in subs && forall s | s in subs[1..] :: s in subs;
    }
  }

  lemma {:induction false} NonEmptyStartsGlobal(ls: seq<Listener>)
    requires ls != []
    ensures AsGlobals(ls) != [] && AsGlobals(ls)[0].Global?
  {
    assert ls == [ls[0]] + ls[1..];
    AsGlobalsPush(ls[0], ls[1..]);
  }

  lemma GlobalsFirstStep(subs: seq<Sub>, run: RunId)
    requires subs != []
    ensures GlobalsFirst(subs, run)
            <==> GlobalsFirst(subs[1..], run)
                 && (subs[0].OnRun? && subs[0].run == run ==> forall s | s in subs[1..] :: s.OnRun?)
  {
    var rest := subs[1..];
    if GlobalsFirst(subs, run) {
      forall i, j | 0 <= i < j < |rest| && rest[i].OnRun? && rest[i].run == run ensures !rest[j].Global? {
        assert rest[i] == subs[i + 1] && rest[j] == subs[j + 1];
      }
      if subs[0].OnRun? && subs[0].run == run {
        forall s | s in rest ensures s.OnRun? {
          var j :| 0 <= j < |rest| && rest[j] == s;
          assert subs[j + 1] == s;
        }
      }
    }
    if GlobalsFirst(rest, run) && (subs[0].OnRun? && subs[0].run == run ==> forall s | s in rest :: s.OnRun?) {
      forall i, j | 0 <= i < j < |subs| && subs[i].OnRun? && subs[i].run == run ensures !subs[j].Global? {
        assert subs[j] == rest[j - 1] && rest[j - 1] in rest;
        if i > 0 { assert subs[i] == rest[i - 1]; }
      }
    }
  }

  /**
   * Listeners are called in registration order exactly when no listener of the run was registered before a
   * global one.
   */
  lemma {:induction false} RegistrationOrderIff(subs: seq<Sub>, run: RunId)
    ensures Delivery(subs, run) == Interested(subs, run) <==> GlobalsFirst(subs, run)
  {
    if subs != [] {
      var sub, rest := subs[0], subs[1..];
      assert subs == [sub] + rest;
      RegistrationOrderIff(rest, run);
      GlobalsFirstStep(subs, run);
      NoGlobals(rest);
      if sub.Global? {
        DeliverGlobal(sub, rest, run);
        SamePush(sub, Delivery(rest, run), Interested(rest, run));
      } else if sub.run != run {
      } else {
        DeliverOnRun(sub, rest, run);
        if Globals(rest) == [] {
          GlobalsFirstWithout(rest, run);
          assert AsGlobals([]) + ([sub] + AsRun(run, OfRun(rest, run))) == [sub] + Delivery(rest, run);
        } else {
          NonEmptyStartsGlobal(Globals(rest));
          assert Delivery(subs, run)[0].Global? && Interested(subs, run)[0] == sub;
        }
      }
    }
  }

  lemma SamePush<T>(x: T, a: seq<T>, b: seq<T>)
    ensures [x] + a == [x] + b <==> a == b
  {
    if [x] + a == [x] + b { assert ([x] + a)[1..] == a && ([x] + b)[1..] == b; }
  }

  /** A listener of the run registered first is called after a global one registered later. */
  lemma LaterGlobalGoesFirst(run: RunId, early: Listener, late: Listener)
    ensures Subs([Subscribe(OnRun(run, early)), Subscribe(Global(late))]) == [OnRun(run, early), Global(late)]
    ensures Delivery([OnRun(run, early), Global(late)], run) == [Global(late), OnRun(run, early)]
  {
    var both := [Subscribe(OnRun(run, early)), Subscribe(Global(late))];
    assert both[..1] == [Subscribe(OnRun(run, early))] && both[..1][..0] == [];
    assert Subs(both[..1]) == [OnRun(run, early)];
    DeliverOnRun(OnRun(run, early), [Global(late)], run);
    assert [OnRun(run, early)] + [Global(late)] == [OnRun(run, early), Global(late)];
    DeliverGlobal(Global(late), [], run);
    assert [Global(late)] + [] == [Global(late)];
    assert AsGlobals(Globals([Global(late)])) == [Global(late)] by { assert [Global(late)][1..] == []; }
  }

  lemma GlobalsFirstWithout(subs: seq<Sub>, run: RunId)
    requires forall s | s in subs :: s.OnRun?
    ensures GlobalsFirst(subs, run)
  {
    forall i, j | 0 <= i < j < |subs| && subs[i].OnRun? && subs[i].run == run ensures !subs[j].Global? {
      assert subs[j] in subs;
    }
  }

  // ---------- who is subscribed ----------

  predicate NoDuplicates<T(==)>(xs: seq<T>) {
    xs == [] || (xs[0] !in xs[1..] && NoDuplicates(xs[1..]))
  }

  lemma {:induction false} RemoveMeaning<T>(xs: seq<T>, x: T)
    ensures forall y :: y in Remove(xs, x) <==> y in xs && y != x
    ensures NoDuplicates(xs) ==> NoDuplicates(Remove(xs, x))
  {
    if xs != [] {
      RemoveMeaning(xs[1..], x);
      if xs[0] == x {
        assert Remove(xs, x) == Remove(xs[1..], x);
      } else {
        assert Remove(xs, x)[1..] == Remove(xs[1..], x);
      }
    }
  }

  lemma {:induction false} AddMeaning<T>(xs: seq<T>, x: T)
    requires NoDuplicates(xs)
    ensures forall y :: y in Add(xs, x) <==> y in xs || y == x
    ensures NoDuplicates(Add(xs, x))
  {
    if x !in xs { AppendNew(xs, x); }
  }

  lemma {:induction false} AppendNew<T>(xs: seq<T>, x: T)
    requires NoDuplicates(xs) && x !in xs
    ensures NoDuplicates(xs + [x])
  {
    if xs == [] {
      assert xs + [x] == [x] && [x][1..] == [];
    } else {
      AppendNew(xs[1..], x);
      assert (xs + [x])[0] == xs[0] && (xs + [x])[1..] == xs[1..] + [x];
    }
  }

  /** Subscribed, and not unsubscribed since. */
  predicate Live(history: seq<Op>, sub: Sub) {
    exists i :: 0 <= i < |history| && history[i] == Subscribe(sub) && Undisturbed(history, sub, i)
  }

  predicate Undisturbed(history: seq<Op>, sub: Sub, i: nat) {
    forall j | i <= j < |history| :: history[j] != Unsubscribe(sub)
  }

  /** A subscription is in the list once while it is live and not at all otherwise. */
  lemma {:induction false} SubscribedIffLive(history: seq<Op>, sub: Sub)
    ensures sub in Subs(history) <==> Live(history, sub)
    ensures NoDuplicates(Subs(history))
  {
    if history != [] {
      var front, last := history[..|history| - 1], history[|history| - 1];
      SubscribedIffLive(front, sub);
      if last.Subscribe? { AddMeaning(Subs(front), last.sub); }
      if last.Unsubscribe? { RemoveMeaning(Subs(front), last.sub); }
    }
  }

  // ---------- counting ----------

  function CountIn(subs: seq<Sub>, runs: set<RunId>): nat {
    if subs == [] then 0
    else (if subs[0].OnRun? && subs[0].run in runs then 1 else 0) + CountIn(subs[1..], runs)
  }

  lemma {:induction false} CountNone(subs: seq<Sub>)
    ensures CountIn(subs, {}) == 0
  {
    if subs != [] { CountNone(subs[1..]); }
  }

  lemma {:induction false} CountOneMore(subs: seq<Sub>, runs: set<RunId>, run: RunId)
    requires run !in runs
    ensures CountIn(subs, runs + {run}) == CountIn(subs, runs) + |OfRun(subs, run)|
  {
    if subs != [] { CountOneMore(subs[1..], runs, run); }
  }

  lemma {:induction false} CountAll(subs: seq<Sub>, runs: set<RunId>)
    requires forall s | s in subs && s.OnRun? :: s.run in runs
    ensures |Globals(subs)| + CountIn(subs, runs) == |subs|
  {
    if subs != [] {
      assert subs[0] in subs && forall s | s in subs[1..] :: s in subs;
      CountAll(subs[1..], runs);
    }
  }

  // ---------- numbering ----------

  predicate Numbers(op: Op, run: RunId) {
    op.Publish? && op.run == run && op.given.None?
  }

  predicate Ends(op: Op, run: RunId) {
    op.Publish? && op.run == run && op.terminal
  }

  lemma CounterStep(history: seq<Op>, run: RunId, k: nat)
    requires k < |history|
    ensures Counter(history[..k + 1], run)
            == if Ends(history[k], run) then 0
               else Counter(history[..k], run) + if Numbers(history[k], run) then 1 else 0
  {
    assert history[..k + 1][..k] == history[..k];
  }

  lemma {:induction false} CounterHolds(history: seq<Op>, run: RunId, i: nat, k: nat)
    requires i <= k <= |history|
    requires forall j | i <= j < k :: !Numbers(history[j], run) && !Ends(history[j], run)
    ensures Counter(history[..k], run) == Counter(history[..i], run)
  {
    if i < k {
      CounterHolds(history, run, i, k - 1);
      CounterStep(history, run, k - 1);
    }
  }

  /** Between terminal events a run's numbered events carry consecutive numbers, whatever other runs do meanwhile. */
  lemma ConsecutiveNumbers(history: seq<Op>, run: RunId, i: nat, j: nat)
    requires i < j < |history| && Numbers(history[i], run) && Numbers(history[j], run) && !Ends(history[i], run)
    requires forall k | i < k < j :: !Numbers(history[k], run) && !Ends(history[k], run)
    ensures Stamp(history, j) == Stamp(history, i) + 1
  {
    CounterStep(history, run, i);
    CounterHolds(history, run, i + 1, j);
  }

  /** The first numbered event of the run, or the first after a terminal one, carries 1. */
  lemma FirstNumber(history: seq<Op>, run: RunId, start: nat, j: nat)
    requires start <= j < |history| && Numbers(history[j], run)
    requires start == 0 || Ends(history[start - 1], run)
    requires forall k | start <= k < j :: !Numbers(history[k], run) && !Ends(history[k], run)
    ensures Stamp(history, j) == 1
  {
    if start > 0 { CounterStep(history, run, start - 1); }
    assert history[..0] == [];
    CounterHolds(history, run, start, j);
  }

  /** The numbers the bus gives a run's events increase over the whole history. */
  ghost predicate Increasing(history: seq<Op>, run: RunId) {
    forall i, j | 0 <= i < j < |history| && Numbers(history[i], run) && Numbers(history[j], run) ::
      Stamp(history, i) < Stamp(history, j)
  }

  /** A numbered event follows a terminal one, which is or follows a numbered event. */
  predicate Resumes(history: seq<Op>, run: RunId, i: nat, k: nat, j: nat) {
    i <= k < j < |history| && Numbers(history[i], run) && Ends(history[k], run) && Numbers(history[j], run)
  }

  lemma {:induction false} CounterGrows(history: seq<Op>, run: RunId, i: nat, k: nat)
    requires i <= k <= |history|
    requires forall j | i <= j < k :: !Ends(history[j], run)
    ensures Counter(history[..i], run) <= Counter(history[..k], run)
  {
    if i < k {
      CounterGrows(history, run, i, k - 1);
      CounterStep(history, run, k - 1);
    }
  }

  /** After a terminal event some numbered event carries 1 again. */
  lemma {:induction false} NumberingRestarts(history: seq<Op>, run: RunId, k: nat, j: nat) returns (r: nat)
    requires k < j < |history| && Ends(history[k], run) && Numbers(history[j], run)
    ensures k < r <= j && Numbers(history[r], run) && Stamp(history, r) == 1
    decreases j - k
  {
    if q :| k < q < j && Ends(history[q], run) {
      r := NumberingRestarts(history, run, q, j);
    } else if q :| k < q < j && Numbers(history[q], run) {
      r := NumberingRestarts(history, run, k, q);
    } else {
      r := j;
      FirstNumber(history, run, k + 1, j);
    }
  }

  /**
   * Whatever else happens, a run's numbers increase over its whole history exactly when it is never resumed: no event
   * that the bus numbers comes after a terminal one that is, or follows, such an event.
   */
  lemma NumbersIncreaseIff(history: seq<Op>, run: RunId)
    ensures Increasing(history, run) <==> !exists i, k, j :: Resumes(history, run, i, k, j)
  {
    if i, k, j :| Resumes(history, run, i, k, j) {
      var r := NumberingRestarts(history, run, k, j);
      assert Stamp(history, i) >= 1 == Stamp(history, r);
    } else {
      forall i, j | 0 <= i < j < |history| && Numbers(history[i], run) && Numbers(history[j], run)
        ensures Stamp(history, i) < Stamp(history, j)
      {
        forall k | i <= k < j ensures !Ends(history[k], run) { assert !Resumes(history, run, i, k, j); }
        CounterStep(history, run, i);
        CounterGrows(history, run, i + 1, j);
      }
    }
  }

  /** An event published after the run's terminal one repeats the number of the first. */
  lemma LateEventRepeatsANumber(run: RunId)
    ensures var event := Publish(run, None, false);
            var history := [event, Publish(run, None, true), event];
            Stamp(history, 0) == 1 && Stamp(history, 1) == 2 && Stamp(history, 2) == 1
  {
    var event := Publish(run, None, false);
    var history := [event, Publish(run, None, true), event];
    assert history[..0] == [];
    FirstNumber(history, run, 0, 0);
    ConsecutiveNumbers(history, run, 0, 1);
    FirstNumber(history, run, 2, 2);
  }
}
