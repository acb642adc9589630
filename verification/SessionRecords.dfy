/** What the session lock's calls write, field by field (packages/core/src/persistent-workflow-store.ts). */
module SessionRecords {
  import opened Common
  import opened SessionLock
  import SessionStore
  import SessionTurns

  // ---------- the record an acquire proposes ----------

  /** `next` is a fresh record of the session, or the record that was read, with the lock taken by o at `clock`. */
  predicate ProposedAt(workflowId: string, sessionKey: string, expected: Option<Record>, next: Record, o: Owner,
                       freshId: string, clock: int) {
    match expected
    case None => next == Record(workflowId, sessionKey, freshId, [], 0, clock, clock, Some(Lock(o, clock)))
    case Some(r) =>
      next == Record(r.workflowId, r.sessionKey, r.sessionId, r.conversation, r.turns, r.createdAt, clock,
                     Some(Lock(o, clock)))
  }

  /** The check of the owner's acquire that is under way, made as the k-th action. */
  ghost predicate ProposedBy(s: System, acts: seq<Action>, k: nat, o: Owner, expected: Option<Record>, next: Record) {
    && k < |acts| && acts[k].AcquireCheck? && acts[k].o == o
    && ProposedAt(s.workflowId, s.sessionKey, expected, next, o, acts[k].freshId, Run(s, acts[..k]).clock)
  }

  ghost predicate ProposalHasACheck(s: System, acts: seq<Action>, o: Owner) {
    var p := Run(s, acts).At(o);
    p.Proposing? ==> exists k :: ProposedBy(s, acts, k, o, p.expected, p.next)
  }

  lemma {:induction false} RunKeepsNames(s: System, acts: seq<Action>)
    ensures Run(s, acts).workflowId == s.workflowId && Run(s, acts).sessionKey == s.sessionKey
  {
    if acts != [] { RunKeepsNames(s, acts[..|acts| - 1]); }
  }

  lemma CheckProposes(t: System, o: Owner, freshId: string)
    requires t.At(o).Fetched? && Step(t, AcquireCheck(o, freshId)).At(o).Proposing?
    ensures var p := Step(t, AcquireCheck(o, freshId)).At(o);
            p.expected == t.At(o).current
            && ProposedAt(t.workflowId, t.sessionKey, p.expected, p.next, o, freshId, t.clock)
  {
  }

  lemma OnlyChecksPropose(t: System, a: Action, o: Owner)
    requires Step(t, a).At(o).Proposing? && t.At(o) != Step(t, a).At(o)
    ensures a.AcquireCheck? && a.o == o && t.At(o).Fetched?
  {
  }

  lemma {:induction false} ProposalsHaveChecks(s: System, acts: seq<Action>, o: Owner)
    requires s.phases == map[]
    ensures ProposalHasACheck(s, acts, o)
  {
    if acts != [] && Run(s, acts).At(o).Proposing? {
      var front, last := acts[..|acts| - 1], acts[|acts| - 1];
      var t, p := Run(s, front), Run(s, acts).At(o);
      assert p == Step(t, last).At(o);
      if t.At(o) == p {
        ProposalsHaveChecks(s, front, o);
        var k: nat :| ProposedBy(s, front, k, o, p.expected, p.next);
        assert acts[..k] == front[..k];
        assert ProposedBy(s, acts, k, o, p.expected, p.next);
      } else {
        OnlyChecksPropose(t, last, o);
        CheckProposes(t, o, last.freshId);
        RunKeepsNames(s, front);
        assert ProposedBy(s, acts, |front|, o, p.expected, p.next);
      }
    }
  }

  /**
   * In every run, the record that a winning compare-and-swap stores and hands to its owner is a fresh record of this
   * session, or else the stored one, locked by that owner at the time of its own check.
   */
  lemma WinnerStoresItsRecord(s: System, acts: seq<Action>, o: Owner) returns (k: nat)
    requires Init(s) && WinsCas(Run(s, acts), o)
    ensures var t, won := Run(s, acts), Run(s, acts + [AcquireCas(o)]);
            && won.store.Some? && won.At(o) == Held(won.store.value)
            && ProposedBy(s, acts, k, o, t.store, won.store.value)
  {
    ProposalsHaveChecks(s, acts, o);
    var p := Run(s, acts).At(o);
    k :| ProposedBy(s, acts, k, o, p.expected, p.next);
    assert (acts + [AcquireCas(o)])[..|acts|] == acts;
  }

  /** The first acquire of a conversation, when nobody interrupts it. */
  lemma FirstAcquire(s: System, o: Owner, window: int, freshId: string)
    requires s.store.None? && s.At(o).Idle? && window >= s.staleAfterMs
    ensures var t := Run(s, SessionTurns.AcquireCall(o, window, freshId));
            var rec := Record(s.workflowId, s.sessionKey, freshId, [], 0, s.clock, s.clock, Some(Lock(o, s.clock)));
            t.store == Some(rec) && t.At(o) == Held(rec)
  {
    SessionTurns.UninterruptedAcquire(s, o, window, freshId);
  }

  // ---------- when an action is possible ----------

  predicate Enabled(s: System, a: Action) {
    match a
    case Tick(_) => true
    case AcquireFetch(o, window) => s.At(o) == Idle && window >= s.staleAfterMs
    case AcquireCheck(o, _) => s.At(o).Fetched?
    case AcquireCas(o) => s.At(o).Proposing?
    case BeginSave(o, _) => s.At(o).Held?
    case CommitSave(o) => s.At(o).Saving?
    case FailSave(o) => s.At(o).Saving?
    case ReleaseFetch(o) => s.At(o) == Idle || s.At(o).Held? || s.At(o).Saved?
    case ReleaseCheck(o) => s.At(o).ReleaseFetched?
    case ReleaseCommit(o) => s.At(o).Releasing?
    case Crash(_) => true
  }

  /** An action that is not possible changes nothing; one that is moves its owner, or the clock, and nobody else. */
  lemma ActionsKeepToTheirOwner(s: System, a: Action, p: Owner)
    ensures !Enabled(s, a) ==> Step(s, a) == s
    ensures Enabled(s, a) && !a.Tick? ==> Step(s, a).clock == s.clock && (p != a.o ==> Step(s, a).At(p) == s.At(p))
    ensures a.Tick? ==> Step(s, a) == s.(clock := s.clock + a.ms)
  {
  }

  // ---------- a session's records stay under its key ----------

  predicate Names(r: Option<Record>, s: System) {
    r.Some? ==> r.value.workflowId == s.workflowId && r.value.sessionKey == s.sessionKey
  }

  /** Every record the owner may still write names the session of the system. */
  predicate CarriesNames(s: System, o: Owner) {
    match s.At(o)
    case Idle => true
    case Fetched(current, _) => Names(current, s)
    case Proposing(expected, next) => Names(expected, s) && Names(Some(next), s)
    case Held(rec) => Names(Some(rec), s)
    case Saving(rec, _, next) => Names(Some(rec), s) && Names(Some(next), s)
    case Saved(rec) => Names(Some(rec), s)
    case ReleaseFetched(current) => Names(current, s)
    case Releasing(next, _) => Names(Some(next), s)
  }

  ghost predicate AllNamed(s: System) {
    Names(s.store, s) && forall o :: CarriesNames(s, o)
  }

  lemma StepKeepsNames(s: System, a: Action)
    requires AllNamed(s)
    ensures AllNamed(Step(s, a))
  {
    if !a.Tick? {
      assert CarriesNames(s, a.o);
      ActorKeepsNames(s, a);
    }
    forall o ensures CarriesNames(Step(s, a), o) {
      assert CarriesNames(s, o);
      if a.Tick? || o != a.o { BystanderKeepsNames(s, a, o); }
    }
  }

  lemma BystanderKeepsNames(s: System, a: Action, o: Owner)
    requires CarriesNames(s, o) && (a.Tick? || o != a.o)
    ensures CarriesNames(Step(s, a), o)
  {
    assert Step(s, a).At(o) == s.At(o);
  }

  lemma ActorKeepsNames(s: System, a: Action)
    requires !a.Tick? && Names(s.store, s) && CarriesNames(s, a.o)
    ensures CarriesNames(Step(s, a), a.o) && Names(Step(s, a).store, Step(s, a))
  {
  }

  lemma {:induction false} RunIsNamed(s: System, acts: seq<Action>)
    requires Init(s) && Names(s.store, s)
    ensures AllNamed(Run(s, acts))
  {
    if acts != [] {
      RunIsNamed(s, acts[..|acts| - 1]);
      StepKeepsNames(Run(s, acts[..|acts| - 1]), acts[|acts| - 1]);
    }
  }

  /** In every run the stored record, and every record an owner saves, is of the session whose key was read. */
  lemma SavesGoBackToTheirKey(s: System, acts: seq<Action>, o: Owner)
    requires Init(s) && Names(s.store, s)
    ensures var t := Run(s, acts);
            && (t.store.Some? ==> t.store.value.workflowId == s.workflowId && t.store.value.sessionKey == s.sessionKey)
            && (t.At(o).Saving? ==> SessionStore.StateKey(t.At(o).next.workflowId, t.At(o).next.sessionKey)
                                    == SessionStore.StateKey(s.workflowId, s.sessionKey))
  {
    RunIsNamed(s, acts);
    RunKeepsNames(s, acts);
    assert CarriesNames(Run(s, acts), o);
  }

  // ---------- releases, failed saves and crashes, with nothing in between ----------

  function ReleaseCall(o: Owner): seq<Action> {
    [ReleaseFetch(o), ReleaseCheck(o), ReleaseCommit(o)]
  }

  lemma RunThree(s: System, a: Action, b: Action, c: Action)
    ensures Run(s, [a, b, c]) == Step(Step(Step(s, a), b), c)
  {
    assert [a, b, c] == [a, b] + [c];
    RunConcat(s, [a, b], [c]);
    RunTwo(s, a, b);
    RunOne(Run(s, [a, b]), c);
  }

  /** A release clears the lock of its own caller, whether the turn was saved or not, and nothing else. */
  lemma UninterruptedRelease(s: System, o: Owner)
    requires s.At(o).Idle? || s.At(o).Held? || s.At(o).Saved?
    ensures var t := Run(s, ReleaseCall(o));
            && t.At(o).Idle? && (forall p | p != o :: t.At(p) == s.At(p)) && t.clock == s.clock && t.log == s.log
            && t.store == if HeldBy(s.store, o) then Some(s.store.value.(active := None, updatedAt := s.clock))
                          else s.store
  {
    RunThree(s, ReleaseFetch(o), ReleaseCheck(o), ReleaseCommit(o));
  }

  /** A save that fails writes nothing, and its owner goes on to release. */
  lemma FailedSave(s: System, o: Owner, turn: Turn)
    requires s.At(o).Held?
    ensures var t := Run(s, [BeginSave(o, turn), FailSave(o)]);
            && t.store == s.store && t.log == s.log && t.At(o) == Saved(s.At(o).rec)
            && forall p | p != o :: t.At(p) == s.At(p)
  {
    RunTwo(s, BeginSave(o, turn), FailSave(o));
  }

  /** What an acquire nobody interrupts makes of a locked record. */
  predicate Recovers(clock: int, t: System, rec: Record, p: Owner, window: int) {
    if rec.active.Some? && rec.active.value.ownerId != p && clock - rec.active.value.since <= window
    then t.store == Some(rec) && t.At(p).Idle?
    else
      var next := Record(rec.workflowId, rec.sessionKey, rec.sessionId, rec.conversation, rec.turns, rec.createdAt,
                         clock, Some(Lock(p, clock)));
      t.store == Some(next) && t.At(p) == Held(next)
  }

  lemma AcquireOfALockedRecord(s: System, rec: Record, p: Owner, window: int, freshId: string)
    requires s.store == Some(rec) && s.At(p).Idle? && window >= s.staleAfterMs
    ensures Recovers(s.clock, Run(s, SessionTurns.AcquireCall(p, window, freshId)), rec, p, window)
  {
    SessionTurns.UninterruptedAcquire(s, p, window, freshId);
  }

  /**
   * Crash recovery: a holder that crashes leaves its lock in the store. Whoever acquires next, after any time, is
   * refused exactly while the lock is another owner's and within the window; otherwise they get the session with its
   * conversation, under their own lock.
   */
  lemma CrashedLockIsRecovered(s: System, o: Owner, p: Owner, ms: nat, window: int, freshId: string)
    requires s.At(o).Held? && s.store == Some(s.At(o).rec) && (p == o || s.At(p).Idle?) && window >= s.staleAfterMs
    ensures var t := Run(s, [Crash(o), Tick(ms)] + SessionTurns.AcquireCall(p, window, freshId));
            Recovers(s.clock + ms, t, s.At(o).rec, p, window)
  {
    var c := [Crash(o), Tick(ms)];
    CrashThenWait(s, o, p, ms);
    RunConcat(s, c, SessionTurns.AcquireCall(p, window, freshId));
    AcquireOfALockedRecord(Run(s, c), s.At(o).rec, p, window, freshId);
  }

  lemma CrashThenWait(s: System, o: Owner, p: Owner, ms: nat)
    requires p == o || s.At(p).Idle?
    ensures var t := Run(s, [Crash(o), Tick(ms)]);
            t.At(p).Idle? && t.store == s.store && t.clock == s.clock + ms && t.staleAfterMs == s.staleAfterMs
  {
    RunTwo(s, Crash(o), Tick(ms));
  }
}
