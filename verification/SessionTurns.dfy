/**
 * Which writes of the session lock's protocol lose turns, and what its calls do when nothing comes in between
 * (packages/core/src/persistent-workflow-store.ts).
 */
module SessionTurns {
  import opened Common
  import opened SessionLock

  // ---------- exactly when a write loses a turn, whatever the timing ----------

  /** What a save writes is the record its owner acquired plus the turn. */
  predicate SavesOneTurn(s: System, o: Owner) {
    match s.At(o)
    case Saving(rec, turn, next) =>
      next.conversation == rec.conversation + [turn] && next.turns == rec.turns + 1
    case _ => true
  }

  lemma {:induction false} SavesOneTurnRun(s: System, acts: seq<Action>, o: Owner)
    requires Init(s)
    ensures SavesOneTurn(Run(s, acts), o)
  {
    if acts != [] { SavesOneTurnRun(s, acts[..|acts| - 1], o); }
  }

  predicate SameTurns(a: Record, b: Record) {
    a.conversation == b.conversation && a.turns == b.turns
  }

  /** The step, if it writes the store, writes on top of the turns that are there: a test on the state before it. */
  predicate WritesOnTop(s: System, a: Action) {
    match a
    case CommitSave(o) => s.At(o).Saving? ==> s.store.Some? && SameTurns(s.store.value, s.At(o).rec)
    case ReleaseCommit(o) => s.At(o).Releasing? ==> s.store.Some? && SameTurns(s.store.value, s.At(o).next)
    case _ => true
  }

  /** A save keeps every turn saved before it exactly when the store still has the turns its owner acquired. */
  lemma SaveKeepsTurnsIff(s: System, acts: seq<Action>, o: Owner)
    requires Init(s) && StoreIsLog(Run(s, acts)) && Run(s, acts).At(o).Saving?
    ensures var t := Run(s, acts);
            && t.store.Some?
            && (StoreIsLog(Step(t, CommitSave(o))) <==> SameTurns(t.store.value, t.At(o).rec))
  {
    var t := Run(s, acts);
    SavesOneTurnRun(s, acts, o);
    UntimedRun(s, acts);
    assert CarriesStoredSession(t.At(o), t.store);
    var rec, turn := t.At(o).rec, t.At(o).turn;
    SameFront(rec.conversation, t.log, turn);
  }

  lemma SameFront<T>(a: seq<T>, b: seq<T>, x: T)
    ensures a + [x] == b + [x] <==> a == b
  {
    if a + [x] == b + [x] { assert (a + [x])[..|a|] == a && (b + [x])[..|b|] == b && |a| == |b|; }
  }

  /** A release keeps them exactly when the store still has the turns it read. */
  lemma ReleaseKeepsTurnsIff(s: System, acts: seq<Action>, o: Owner)
    requires Init(s) && StoreIsLog(Run(s, acts)) && Run(s, acts).At(o).Releasing?
    ensures var t := Run(s, acts);
            && t.store.Some?
            && (StoreIsLog(Step(t, ReleaseCommit(o))) <==> SameTurns(t.store.value, t.At(o).next))
  {
    UntimedRun(s, acts);
    assert CarriesStoredSession(Run(s, acts).At(o), Run(s, acts).store);
  }

  /** Every other step keeps them. */
  lemma OtherStepsKeepTurns(t: System, a: Action)
    requires StoreIsLog(t) && Untimed(t) && !a.CommitSave? && !a.ReleaseCommit?
    ensures StoreIsLog(Step(t, a))
  {
    if a.AcquireCas? { assert LegalProposal(t, a.o); }
  }

  lemma StepKeepsTurnsIff(s: System, acts: seq<Action>, a: Action)
    requires Init(s) && StoreIsLog(Run(s, acts))
    ensures StoreIsLog(Step(Run(s, acts), a)) <==> WritesOnTop(Run(s, acts), a)
  {
    match a
    case CommitSave(o) => if Run(s, acts).At(o).Saving? { SaveKeepsTurnsIff(s, acts, o); }
    case ReleaseCommit(o) => if Run(s, acts).At(o).Releasing? { ReleaseKeepsTurnsIff(s, acts, o); }
    case _ =>
      UntimedRun(s, acts);
      OtherStepsKeepTurns(Run(s, acts), a);
  }

  /** In every state of the run the store holds every turn saved so far. */
  ghost predicate KeepsEveryTurn(s: System, acts: seq<Action>) {
    StoreIsLog(Run(s, acts)) && (acts == [] || KeepsEveryTurn(s, acts[..|acts| - 1]))
  }

  ghost predicate AlwaysWritesOnTop(s: System, acts: seq<Action>) {
    acts == []
    || var front, last := acts[..|acts| - 1], acts[|acts| - 1];
       AlwaysWritesOnTop(s, front) && WritesOnTop(Run(s, front), last)
  }

  /**
   * Over every run, overstaying holders and reclaims included: no turn is lost exactly when every save and every
   * release that reaches the store finds there the turns it starts from.
   */
  lemma {:induction false} NoTurnIsLostIff(s: System, acts: seq<Action>)
    requires Init(s)
    ensures KeepsEveryTurn(s, acts) <==> AlwaysWritesOnTop(s, acts)
  {
    if acts != [] {
      var front := acts[..|acts| - 1];
      NoTurnIsLostIff(s, front);
      if KeepsEveryTurn(s, front) { StepKeepsTurnsIff(s, front, acts[|acts| - 1]); }
    }
  }

  // ---------- without the timing assumption ----------

  function AcquireCall(o: Owner, window: int, freshId: string): seq<Action> {
    [AcquireFetch(o, window), AcquireCheck(o, freshId), AcquireCas(o)]
  }

  function SaveCall(o: Owner, turn: Turn): seq<Action> {
    [BeginSave(o, turn), CommitSave(o)]
  }

  function Base(s: System, freshId: string): Record {
    if s.store.Some? then s.store.value else CreateSessionRecord(s.workflowId, s.sessionKey, freshId, s.clock)
  }

  lemma FetchAlone(s: System, o: Owner, window: int)
    requires s.At(o).Idle? && window >= s.staleAfterMs
    ensures var t := Step(s, AcquireFetch(o, window));
            t == s.Enter(o, Fetched(s.store, window)) && t.At(o) == Fetched(s.store, window)
  {
  }

  lemma CheckAlone(s: System, o: Owner, window: int, freshId: string)
    requires s.At(o) == Fetched(s.store, window)
    ensures Step(s, AcquireCheck(o, freshId))
            == s.Enter(o, if MayAcquire(s.store, o, s.clock, window)
                          then Proposing(s.store, Locked(Base(s, freshId), o, s.clock)) else Idle)
  {
  }

  lemma CasAlone(s: System, o: Owner, next: Record)
    requires s.At(o) == Proposing(s.store, next)
    ensures Step(s, AcquireCas(o)) == s.(store := Some(next)).Enter(o, Held(next))
  {
  }

  lemma EnterTwice(s: System, o: Owner, p: Phase, q: Phase)
    ensures s.Enter(o, p).Enter(o, q) == s.Enter(o, q)
  {
    assert s.phases[o := p][o := q] == s.phases[o := q];
  }

  /** An acquire nobody interrupts, as one step. */
  function AcquireAlone(s: System, o: Owner, window: int, freshId: string): System {
    var next := Locked(Base(s, freshId), o, s.clock);
    if MayAcquire(s.store, o, s.clock, window) then s.(store := Some(next)).Enter(o, Held(next)) else s.Enter(o, Idle)
  }

  lemma ThreeSteps(s: System, o: Owner, window: int, freshId: string)
    requires s.At(o).Idle? && window >= s.staleAfterMs
    ensures Step(Step(Step(s, AcquireFetch(o, window)), AcquireCheck(o, freshId)), AcquireCas(o))
            == AcquireAlone(s, o, window, freshId)
  {
    FetchAlone(s, o, window);
    var fetched := s.Enter(o, Fetched(s.store, window));
    CheckAlone(fetched, o, window, freshId);
    var next := Locked(Base(s, freshId), o, s.clock);
    EnterTwice(s, o, Fetched(s.store, window), Proposing(s.store, next));
    EnterTwice(s, o, Fetched(s.store, window), Idle);
    if MayAcquire(s.store, o, s.clock, window) {
      CasAlone(s.Enter(o, Proposing(s.store, next)), o, next);
      EnterTwice(s.(store := Some(next)), o, Proposing(s.store, next), Held(next));
    }
  }

  /** An acquire nobody interrupts succeeds exactly when the guard admits the stored record. */
  lemma UninterruptedAcquire(s: System, o: Owner, window: int, freshId: string)
    requires s.At(o).Idle? && window >= s.staleAfterMs
    ensures Run(s, AcquireCall(o, window, freshId)) == AcquireAlone(s, o, window, freshId)
    ensures var t := Run(s, AcquireCall(o, window, freshId));
            && (forall p | p != o :: t.At(p) == s.At(p))
            && t.clock == s.clock && t.log == s.log && t.staleAfterMs == s.staleAfterMs
    ensures var t, next := Run(s, AcquireCall(o, window, freshId)), Locked(Base(s, freshId), o, s.clock);
            if MayAcquire(s.store, o, s.clock, window)
            then t.store == Some(next) && t.At(o) == Held(next)
            else t.store == s.store && t.At(o) == Idle
  {
    var fetch, check, cas := AcquireFetch(o, window), AcquireCheck(o, freshId), AcquireCas(o);
    assert AcquireCall(o, window, freshId) == [fetch, check] + [cas];
    RunConcat(s, [fetch, check], [cas]);
    RunTwo(s, fetch, check);
    RunOne(Run(s, [fetch, check]), cas);
    ThreeSteps(s, o, window, freshId);
  }

  lemma UninterruptedSave(s: System, o: Owner, turn: Turn)
    requires s.At(o).Held?
    ensures var t := Run(s, SaveCall(o, turn));
            var rec := s.At(o).rec;
            && (forall p | p != o :: t.At(p) == s.At(p))
            && t.clock == s.clock && t.log == s.log + [turn]
            && t.store == Some(rec.(conversation := rec.conversation + [turn], turns := rec.turns + 1,
                                    updatedAt := s.clock))
            && t.At(o) == Saved(rec)
  {
    RunTwo(s, BeginSave(o, turn), CommitSave(o));
  }

  /** Owner 1 overstays: owner 2 reclaims the stale lock and saves a turn; owner 1 then saves over it. */
  function Overstay(): seq<Action> {
    AcquireCall(1, 10, "id") + [Tick(11)] + AcquireCall(2, 10, "id") + SaveCall(2, "two") + SaveCall(1, "one")
  }

  /**
   * Without the timing assumption both conclusions fail: two owners act under locks, the store names the
   * late one again, a saved turn is gone, and the late holder's blind save is never refused.
   */
  lemma OverstayingHolderLosesATurn()
    ensures var s := System("wf", "chat", 10, 0, None, map[], []);
            var t := Run(s, Overstay());
            && Init(s)
            && Holds(t, 1) && Holds(t, 2)
            && t.log == ["two", "one"]
            && t.store.Some? && t.store.value.conversation == ["one"] && HeldBy(t.store, 1)
  {
    var s := System("wf", "chat", 10, 0, None, map[], []);
    var rest := AcquireCall(2, 10, "id") + SaveCall(2, "two") + SaveCall(1, "one");
    var rec := FirstAcquireThenWait(s);
    var b := AcquireCall(1, 10, "id") + [Tick(11)];
    RunConcat(s, b, rest);
    assert Overstay() == b + rest;
    LateSaveOverwrites(Run(s, b), 1, 2, rec, 10, "one", "two");
  }

  lemma FirstAcquireThenWait(s: System) returns (rec: Record)
    requires s == System("wf", "chat", 10, 0, None, map[], [])
    ensures var t := Run(s, AcquireCall(1, 10, "id") + [Tick(11)]);
            && t.staleAfterMs == 10 && t.clock == 11 && t.log == [] && t.store == Some(rec)
            && t.At(1) == Held(rec) && t.At(2).Idle?
    ensures rec.active == Some(Lock(1, 0)) && rec.conversation == []
  {
    rec := Locked(CreateSessionRecord("wf", "chat", "id", 0), 1, 0);
    UninterruptedAcquire(s, 1, 10, "id");
    var t := Run(s, AcquireCall(1, 10, "id"));
    assert t.At(2) == s.At(2);
    RunConcat(s, AcquireCall(1, 10, "id"), [Tick(11)]);
    RunOne(t, Tick(11));
  }

  /**
   * From any state in which the store holds a stale lock of an owner who is still acting, and nothing newer, whatever
   * the window and the clock: another owner reclaims it and saves a turn, and the late owner's save discards that turn
   * and restores the late lock, with both acting.
   */
  lemma LateSaveOverwrites(s: System, late: Owner, taker: Owner, rec: Record, window: int, lateTurn: Turn, turn: Turn)
    requires late != taker && s.At(late) == Held(rec) && s.At(taker).Idle? && s.store == Some(rec)
    requires rec.active.Some? && rec.active.value.ownerId == late
    requires window >= s.staleAfterMs && window < s.clock - rec.active.value.since
    ensures var t := Run(s, AcquireCall(taker, window, "id") + SaveCall(taker, turn) + SaveCall(late, lateTurn));
            && Holds(t, late) && Holds(t, taker)
            && t.log == s.log + [turn] + [lateTurn]
            && t.store.Some? && t.store.value.conversation == rec.conversation + [lateTurn] && HeldBy(t.store, late)
  {
    var c := AcquireCall(taker, window, "id");
    UninterruptedAcquire(s, taker, window, "id");
    var s2 := Run(s, c);
    RunConcat(s, c, SaveCall(taker, turn));
    UninterruptedSave(s2, taker, turn);
    var s3 := Run(s, c + SaveCall(taker, turn));
    assert s3.At(late) == Held(rec);
    RunConcat(s, c + SaveCall(taker, turn), SaveCall(late, lateTurn));
    UninterruptedSave(s3, late, lateTurn);
  }
}
