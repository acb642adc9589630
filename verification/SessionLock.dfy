/**
 * The advisory lock on a durable conversation (packages/core/src/persistent-workflow-store.ts).
 *
 * Any number of gateway replicas share one record of a StateStore. Reads, blind writes and
 * compare-and-swap are each atomic, but an acquire or a release is several of them, and anything
 * may happen in between. Replicas have distinct owner ids and read one common clock. An owner id runs one
 * call at a time, within its replica because of withSessionLock in
 * packages/gateway/src/triggers/persistent-workflow-turn.ts; different owner ids interleave freely.
 */
module SessionLock {
  import opened Common

  /** An owner id is the string "gateway:" followed by a process id; the process id stands for it. */
  type Owner = nat

  /** What one completed turn appends to the conversation. */
  type Turn = string

  datatype Lock = Lock(ownerId: Owner, since: int)

  datatype Record = Record(
    workflowId: string,
    sessionKey: string,
    sessionId: string,
    conversation: seq<Turn>,
    turns: int,
    createdAt: int,
    updatedAt: int,
    active: Option<Lock>)

  /** Where an owner is inside acquire, its turn, save or release. */
  datatype Phase =
    | Idle
    | Fetched(current: Option<Record>, window: int)
    | Proposing(expected: Option<Record>, next: Record)
    | Held(rec: Record)
    | Saving(rec: Record, turn: Turn, next: Record)
    | Saved(rec: Record)
    | ReleaseFetched(current: Option<Record>)
    | Releasing(next: Record, lock: Lock)

  /**
   * `staleAfterMs` is the smallest staleness window any caller passes. `log` is history only:
   * every turn whose save reached the store, in the order the saves were made.
   */
  datatype System = System(
    workflowId: string,
    sessionKey: string,
    staleAfterMs: int,
    clock: int,
    store: Option<Record>,
    phases: map<Owner, Phase>,
    log: seq<Turn>)
  {
    function At(o: Owner): Phase {
      if o in phases then phases[o] else Idle
    }

    function Enter(o: Owner, p: Phase): System {
      this.(phases := phases[o := p])
    }
  }

  datatype Action =
    | Tick(ms: nat)
    | AcquireFetch(o: Owner, window: int)
    | AcquireCheck(o: Owner, freshId: string)
    | AcquireCas(o: Owner)
    | BeginSave(o: Owner, turn: Turn)
    | CommitSave(o: Owner)
    | FailSave(o: Owner)
    | ReleaseFetch(o: Owner)
    | ReleaseCheck(o: Owner)
    | ReleaseCommit(o: Owner)
    | Crash(o: Owner)

  // ---------- the code's own expressions ----------

  function CreateSessionRecord(workflowId: string, sessionKey: string, freshId: string, now: int): Record {
    Record(workflowId, sessionKey, freshId, [], 0, now, now, None)
  }

  /** The guard of acquireSession: nobody else holds the lock, or their lock is past the window. */
  predicate MayAcquire(current: Option<Record>, o: Owner, now: int, window: int) {
    match current
    case None => true
    case Some(r) =>
      match r.active
      case None => true
      case Some(lock) => lock.ownerId == o || now - lock.since > window
  }

  function Locked(base: Record, o: Owner, now: int): Record {
    base.(active := Some(Lock(o, now)), updatedAt := now)
  }

  predicate HeldBy(current: Option<Record>, o: Owner) {
    current.Some? && current.value.active.Some? && current.value.active.value.ownerId == o
  }

  // ---------- one atomic step of one owner, or of time ----------

  /** An action that is not enabled leaves the system as it is, so every action list is a run. */
  function Step(s: System, a: Action): System {
    match a
    case Tick(ms) => s.(clock := s.clock + ms)
    case AcquireFetch(o, window) =>
      if s.At(o).Idle? && window >= s.staleAfterMs then s.Enter(o, Fetched(s.store, window)) else s
    case AcquireCheck(o, freshId) => AcquireCheckStep(s, o, freshId)
    case AcquireCas(o) => AcquireCasStep(s, o)
    case BeginSave(o, turn) =>
      (match s.At(o)
       case Held(rec) =>
         s.Enter(o, Saving(rec, turn, rec.(conversation := rec.conversation + [turn],
                                           turns := rec.turns + 1, updatedAt := s.clock)))
       case _ => s)
    case CommitSave(o) =>
      (match s.At(o)
       case Saving(rec, turn, next) => s.(store := Some(next), log := s.log + [turn]).Enter(o, Saved(rec))
       case _ => s)
    case FailSave(o) =>
      (match s.At(o)
       case Saving(rec, _, _) => s.Enter(o, Saved(rec))
       case _ => s)
    case ReleaseFetch(o) =>
      (match s.At(o)
       case Idle => s.Enter(o, ReleaseFetched(s.store))
       case Held(_) => s.Enter(o, ReleaseFetched(s.store))
       case Saved(_) => s.Enter(o, ReleaseFetched(s.store))
       case _ => s)
    case ReleaseCheck(o) =>
      (match s.At(o)
       case ReleaseFetched(current) =>
         if HeldBy(current, o)
         then s.Enter(o, Releasing(current.value.(active := None, updatedAt := s.clock),
                                   current.value.active.value))
         else s.Enter(o, Idle)
       case _ => s)
    case ReleaseCommit(o) =>
      (match s.At(o)
       case Releasing(next, _) => s.(store := Some(next)).Enter(o, Idle)
       case _ => s)
    case Crash(o) => s.Enter(o, Idle)
  }

  function AcquireCheckStep(s: System, o: Owner, freshId: string): System {
    match s.At(o)
    case Fetched(current, window) =>
      if MayAcquire(current, o, s.clock, window)
      then
        var base := if current.Some? then current.value
                    else CreateSessionRecord(s.workflowId, s.sessionKey, freshId, s.clock);
        s.Enter(o, Proposing(current, Locked(base, o, s.clock)))
      else s.Enter(o, Idle)
    case _ => s
  }

  function AcquireCasStep(s: System, o: Owner): System {
    match s.At(o)
    case Proposing(expected, next) =>
      if s.store == expected then s.(store := Some(next)).Enter(o, Held(next)) else s.Enter(o, Idle)
    case _ => s
  }

  function Run(s: System, acts: seq<Action>): System {
    if acts == [] then s else Step(Run(s, acts[..|acts| - 1]), acts[|acts| - 1])
  }

  // ---------- vocabulary ----------

  /** The lock an owner acts under: from a won compare-and-swap until its release write, and inside a release. */
  function HeldLock(s: System, o: Owner): Option<Lock> {
    match s.At(o)
    case Held(rec) => rec.active
    case Saving(rec, _, _) => rec.active
    case Saved(rec) => rec.active
    case ReleaseFetched(current) => if HeldBy(current, o) then current.value.active else None
    case Releasing(_, lock) => Some(lock)
    case _ => None
  }

  predicate Holds(s: System, o: Owner) {
    HeldLock(s, o).Some?
  }

  /** No owner is still acting under a lock that others may regard as abandoned. */
  ghost predicate Timely(s: System) {
    forall o :: Holds(s, o) ==> s.clock - HeldLock(s, o).value.since <= s.staleAfterMs
  }

  /** The same for every state the run passes through. */
  ghost predicate TimelyRun(s: System, acts: seq<Action>) {
    Timely(Run(s, acts)) && (acts == [] || TimelyRun(s, acts[..|acts| - 1]))
  }

  /** Any stored record, even one left locked by a crash; nobody is inside a call. */
  ghost predicate Init(s: System) {
    && s.phases == map[]
    && (s.store.None? ==> s.log == [])
    && (s.store.Some? ==> s.store.value.conversation == s.log && s.store.value.turns == |s.log|)
  }

  predicate SameSession(a: Record, b: Record) {
    a.workflowId == b.workflowId && a.sessionKey == b.sessionKey && a.sessionId == b.sessionId
    && a.createdAt == b.createdAt
  }

  predicate BelongsTo(r: Option<Record>, store: Option<Record>) {
    r.Some? ==> store.Some? && SameSession(r.value, store.value)
  }

  // ---------- what every run keeps, stale reclaims included ----------

  /** Every record an owner carries was copied from, and belongs to, the stored session. */
  predicate CarriesStoredSession(p: Phase, store: Option<Record>) {
    match p
    case Idle => true
    case Fetched(current, _) => BelongsTo(current, store)
    case Proposing(expected, next) =>
      BelongsTo(expected, store) && (expected.Some? ==> SameSession(next, expected.value))
    case Held(rec) => BelongsTo(Some(rec), store)
    case Saving(rec, _, next) => BelongsTo(Some(rec), store) && BelongsTo(Some(next), store)
    case Saved(rec) => BelongsTo(Some(rec), store)
    case ReleaseFetched(current) => BelongsTo(current, store)
    case Releasing(next, _) => BelongsTo(Some(next), store)
  }

  /** A pending compare-and-swap proposes the record it read plus its own lock, on a legal ground. */
  predicate LegalProposal(s: System, o: Owner) {
    match s.At(o)
    case Fetched(_, window) => window >= s.staleAfterMs
    case Proposing(expected, next) =>
      && next.active.Some? && next.active.value.ownerId == o && next.active.value.since <= s.clock
      && MayAcquire(expected, o, s.clock, s.staleAfterMs)
      && (expected.None? ==> next.conversation == [] && next.turns == 0)
      && (expected.Some? ==> next == Locked(expected.value, o, next.updatedAt))
    case _ => true
  }

  ghost predicate Untimed(s: System) {
    && (forall o :: CarriesStoredSession(s.At(o), s.store))
    && (forall o :: LegalProposal(s, o))
  }

  /** The store only moves between records of one session. */
  lemma StoreKeepsSession(s: System, a: Action)
    requires !a.Tick? ==> CarriesStoredSession(s.At(a.o), s.store)
    ensures s.store.Some? ==> Step(s, a).store.Some? && SameSession(s.store.value, Step(s, a).store.value)
  {
  }

  lemma ActorStaysUntimed(s: System, a: Action)
    requires !a.Tick? && CarriesStoredSession(s.At(a.o), s.store) && LegalProposal(s, a.o)
    ensures CarriesStoredSession(Step(s, a).At(a.o), Step(s, a).store) && LegalProposal(Step(s, a), a.o)
  {
  }

  lemma BystanderStaysUntimed(s: System, a: Action, o: Owner)
    requires !a.Tick? ==> o != a.o && CarriesStoredSession(s.At(a.o), s.store)
    requires CarriesStoredSession(s.At(o), s.store) && LegalProposal(s, o)
    ensures CarriesStoredSession(Step(s, a).At(o), Step(s, a).store) && LegalProposal(Step(s, a), o)
  {
  }

  lemma UntimedStep(s: System, a: Action)
    requires Untimed(s)
    ensures Untimed(Step(s, a))
    ensures s.store.Some? ==> Step(s, a).store.Some? && SameSession(s.store.value, Step(s, a).store.value)
    ensures Step(s, a).staleAfterMs == s.staleAfterMs
  {
    var t := Step(s, a);
    assert !a.Tick? ==> CarriesStoredSession(s.At(a.o), s.store) && LegalProposal(s, a.o);
    StoreKeepsSession(s, a);
    forall o ensures CarriesStoredSession(t.At(o), t.store) && LegalProposal(t, o) {
      assert CarriesStoredSession(s.At(o), s.store) && LegalProposal(s, o);
      if !a.Tick? && o == a.o { ActorStaysUntimed(s, a); } else { BystanderStaysUntimed(s, a, o); }
    }
  }

  lemma {:induction false} UntimedRun(s: System, acts: seq<Action>)
    requires Init(s)
    ensures Untimed(Run(s, acts))
    ensures Run(s, acts).staleAfterMs == s.staleAfterMs
  {
    if acts != [] {
      UntimedRun(s, acts[..|acts| - 1]);
      UntimedStep(Run(s, acts[..|acts| - 1]), acts[|acts| - 1]);
    }
  }

  /**
   * In every run, stale reclaims and crashes included: once a record exists it is never dropped, and its
   * workflow, key, sessionId and createdAt never change.
   */
  lemma {:induction false} SessionIdentityIsStable(s: System, acts: seq<Action>, n: nat)
    requires Init(s) && n <= |acts|
    requires Run(s, acts[..n]).store.Some?
    ensures Run(s, acts).store.Some?
    ensures SameSession(Run(s, acts[..n]).store.value, Run(s, acts).store.value)
  {
    if n == |acts| {
      assert acts[..n] == acts;
    } else {
      var front := acts[..|acts| - 1];
      assert front[..n] == acts[..n];
      SessionIdentityIsStable(s, front, n);
      UntimedRun(s, front);
      UntimedStep(Run(s, front), acts[|acts| - 1]);
    }
  }

  /** The owner's compare-and-swap is about to succeed. */
  predicate WinsCas(s: System, o: Owner) {
    s.At(o).Proposing? && s.store == s.At(o).expected
  }

  function TurnsOf(store: Option<Record>): (seq<Turn>, int) {
    if store.Some? then (store.value.conversation, store.value.turns) else ([], 0)
  }

  lemma WinningCas(t: System, o: Owner)
    requires LegalProposal(t, o) && WinsCas(t, o)
    ensures var won := Step(t, AcquireCas(o));
            HeldBy(won.store, o) && won.At(o) == Held(won.store.value) && TurnsOf(won.store) == TurnsOf(t.store)
  {
  }

  /**
   * In every run, the record a winning compare-and-swap replaces was, at that instant, absent, unlocked,
   * held by the same owner or stale; and it keeps the conversation it replaces.
   */
  lemma AcquireReplacesOnlyFreeOrStale(s: System, acts: seq<Action>, o: Owner)
    requires Init(s) && WinsCas(Run(s, acts), o)
    ensures MayAcquire(Run(s, acts).store, o, Run(s, acts).clock, s.staleAfterMs)
    ensures HeldBy(Run(s, acts + [AcquireCas(o)]).store, o)
    ensures TurnsOf(Run(s, acts + [AcquireCas(o)]).store) == TurnsOf(Run(s, acts).store)
  {
    UntimedRun(s, acts);
    assert LegalProposal(Run(s, acts), o);
    WinningCas(Run(s, acts), o);
    assert (acts + [AcquireCas(o)])[..|acts|] == acts;
  }

  // ---------- what runs keep while no holder overstays ----------

  /** Whoever acts under a lock is the one the store names. */
  predicate NamedByStore(s: System, o: Owner) {
    Holds(s, o) ==> HeldLock(s, o).value.ownerId == o && s.store.Some? && s.store.value.active == HeldLock(s, o)
  }

  predicate IsLog(r: Record, log: seq<Turn>) {
    r.conversation == log && r.turns == |log|
  }

  /** The records a holder may still write carry every turn saved so far. */
  predicate CarriesLog(s: System, o: Owner) {
    match s.At(o)
    case Held(rec) => IsLog(rec, s.log) && rec.active.Some?
    case Saving(rec, turn, next) => IsLog(next, s.log + [turn]) && next.active == rec.active && rec.active.Some?
    case ReleaseFetched(current) => HeldBy(current, o) ==> IsLog(current.value, s.log)
    case Releasing(next, _) => IsLog(next, s.log) && next.active.None?
    case _ => true
  }

  ghost predicate Exclusive(s: System) {
    && Untimed(s)
    && (forall o :: NamedByStore(s, o))
    && (forall o :: CarriesLog(s, o))
    && StoreIsLog(s)
  }

  /** A compare-and-swap that takes the lock away from somebody who is still acting under it. */
  ghost predicate ReclaimsFromLiveHolder(s: System, a: Action) {
    && a.AcquireCas? && WinsCas(s, a.o)
    && exists p :: p != a.o && Holds(s, p)
  }

  lemma OneHolder(s: System, o1: Owner, o2: Owner)
    requires NamedByStore(s, o1) && NamedByStore(s, o2) && Holds(s, o1) && Holds(s, o2)
    ensures o1 == o2
  {
  }

  predicate StoreIsLog(s: System) {
    if s.store.Some? then IsLog(s.store.value, s.log) else s.log == []
  }

  lemma ActorStaysExclusive(s: System, a: Action)
    requires !a.Tick? && LegalProposal(s, a.o) && NamedByStore(s, a.o) && CarriesLog(s, a.o) && StoreIsLog(s)
    ensures NamedByStore(Step(s, a), a.o) && CarriesLog(Step(s, a), a.o) && StoreIsLog(Step(s, a))
  {
  }

  lemma BystanderStaysExclusive(s: System, a: Action, o: Owner)
    requires !a.Tick? ==> o != a.o && NamedByStore(s, a.o) && CarriesLog(s, a.o) && LegalProposal(s, a.o)
    requires NamedByStore(s, o) && CarriesLog(s, o) && !ReclaimsFromLiveHolder(s, a)
    ensures NamedByStore(Step(s, a), o) && CarriesLog(Step(s, a), o)
  {
    var t := Step(s, a);
    assert t.At(o) == s.At(o);
    if !a.Tick? && Holds(s, o) && Holds(s, a.o) { OneHolder(s, o, a.o); }
  }

  lemma ExclusiveStep(s: System, a: Action)
    requires Exclusive(s) && !ReclaimsFromLiveHolder(s, a)
    ensures Exclusive(Step(s, a))
  {
    UntimedStep(s, a);
    var t := Step(s, a);
    if !a.Tick? {
      assert LegalProposal(s, a.o) && NamedByStore(s, a.o) && CarriesLog(s, a.o);
      ActorStaysExclusive(s, a);
    }
    forall o ensures NamedByStore(t, o) && CarriesLog(t, o) {
      assert NamedByStore(s, o) && CarriesLog(s, o);
      if a.Tick? || o != a.o { BystanderStaysExclusive(s, a, o); }
    }
  }

  /** The converse: taking the lock from a live holder leaves two owners acting under locks. */
  lemma LiveReclaimMakesTwoHolders(s: System, a: Action)
    requires Exclusive(s) && ReclaimsFromLiveHolder(s, a)
    ensures !Exclusive(Step(s, a))
    ensures exists p :: p != a.o && Holds(Step(s, a), p) && Holds(Step(s, a), a.o)
  {
    var t := Step(s, a);
    var p :| p != a.o && Holds(s, p);
    assert LegalProposal(s, a.o);
    assert t.At(p) == s.At(p);
    assert Holds(t, p) && Holds(t, a.o);
    if Exclusive(t) { OneHolder(t, p, a.o); }
  }

  /** The only step of the whole protocol that can break exclusion is a reclaim from a live holder. */
  lemma ExclusionIsLostOnlyToALiveReclaim(s: System, a: Action)
    requires Exclusive(s)
    ensures Exclusive(Step(s, a)) <==> !ReclaimsFromLiveHolder(s, a)
  {
    if ReclaimsFromLiveHolder(s, a) { LiveReclaimMakesTwoHolders(s, a); } else { ExclusiveStep(s, a); }
  }

  lemma NoHolderBehindAFreeRecord(s: System, o: Owner, p: Owner)
    requires NamedByStore(s, p) && LegalProposal(s, o) && Timely(s) && p != o
    requires WinsCas(s, o)
    ensures !Holds(s, p)
  {
  }

  lemma TimelyRulesOutLiveReclaim(s: System, a: Action)
    requires Exclusive(s) && Timely(s)
    ensures !ReclaimsFromLiveHolder(s, a)
  {
    if a.AcquireCas? && WinsCas(s, a.o) {
      forall p | p != a.o ensures !Holds(s, p) {
        NoHolderBehindAFreeRecord(s, a.o, p);
      }
    }
  }

  lemma {:induction false} TimelyRunIsExclusive(s: System, acts: seq<Action>)
    requires Init(s) && TimelyRun(s, acts)
    ensures Exclusive(Run(s, acts))
  {
    if acts != [] {
      var front := acts[..|acts| - 1];
      TimelyRunIsExclusive(s, front);
      TimelyRulesOutLiveReclaim(Run(s, front), acts[|acts| - 1]);
      ExclusiveStep(Run(s, front), acts[|acts| - 1]);
    }
  }

  /**
   * Over every interleaving in which nobody acts under a lock for longer than the staleness window, at most
   * one owner id acts under the lock at a time and the stored record names it, although save and release
   * are blind writes.
   */
  lemma MutualExclusion(s: System, acts: seq<Action>, o1: Owner, o2: Owner)
    requires Init(s) && TimelyRun(s, acts)
    requires Holds(Run(s, acts), o1) && Holds(Run(s, acts), o2)
    ensures o1 == o2
    ensures HeldBy(Run(s, acts).store, o1)
  {
    TimelyRunIsExclusive(s, acts);
    var t := Run(s, acts);
    assert NamedByStore(t, o1) && NamedByStore(t, o2);
  }

  /**
   * In such runs no turn is lost: the stored conversation is every turn saved so far in order, and an acquire
   * hands exactly that conversation, with its count, to its caller.
   */
  lemma NoTurnIsLost(s: System, acts: seq<Action>)
    requires Init(s) && TimelyRun(s, acts)
    ensures Run(s, acts).store.Some? ==> IsLog(Run(s, acts).store.value, Run(s, acts).log)
    ensures forall o :: Run(s, acts).At(o).Held? ==> IsLog(Run(s, acts).At(o).rec, Run(s, acts).log)
  {
    TimelyRunIsExclusive(s, acts);
    var t := Run(s, acts);
    forall o | t.At(o).Held? ensures IsLog(t.At(o).rec, t.log) {
      assert CarriesLog(t, o);
    }
  }

  /** History is only ever extended, so "every turn saved so far" forgets nothing. */
  lemma {:induction false} LogOnlyGrows(s: System, acts: seq<Action>, n: nat)
    requires n <= |acts|
    ensures Run(s, acts[..n]).log <= Run(s, acts).log
  {
    if n == |acts| {
      assert acts[..n] == acts;
    } else {
      var front := acts[..|acts| - 1];
      assert front[..n] == acts[..n];
      LogOnlyGrows(s, front, n);
    }
  }

  // ---------- runs in parts ----------

  lemma {:induction false} RunConcat(s: System, a: seq<Action>, b: seq<Action>)
    ensures Run(s, a + b) == Run(Run(s, a), b)
  {
    if b == [] {
      assert a + b == a;
    } else {
      assert (a + b)[..|a + b| - 1] == a + b[..|b| - 1];
      RunConcat(s, a, b[..|b| - 1]);
    }
  }

  lemma RunOne(s: System, a: Action)
    ensures Run(s, [a]) == Step(s, a)
  {
  }

  lemma RunTwo(s: System, a: Action, b: Action)
    ensures Run(s, [a, b]) == Step(Step(s, a), b)
  {
    assert [a, b] == [a] + [b];
    RunConcat(s, [a], [b]);
    RunOne(s, a);
    RunOne(Step(s, a), b);
  }
}
