/** The exported calls on one StateStore, and its keys (packages/core/src/persistent-workflow-store.ts). */
module SessionStore {
  import opened Common
  import opened SessionLock

  // ---------- the exported calls, with nothing in between ----------

  /** The part of StateStore the calls use; each method is one atomic operation of the store. */
  class StateStore {
    var values: map<string, Record>

    constructor ()
      ensures values == map[]
    {
      values := map[];
    }

    function Lookup(key: string): Option<Record>
      reads this
    {
      if key in values then Some(values[key]) else None
    }

    method GetState(key: string) returns (r: Option<Record>)
      ensures r == Lookup(key)
    {
      r := if key in values then Some(values[key]) else None;
    }

    method SetState(key: string, next: Record)
      modifies this
      ensures values == old(values)[key := next]
    {
      values := values[key := next];
    }

    method CasState(key: string, expected: Option<Record>, next: Record) returns (ok: bool)
      modifies this
      ensures ok == (old(Lookup(key)) == expected)
      ensures values == if ok then old(values)[key := next] else old(values)
    {
      var current := GetState(key);
      ok := current == expected;
      if ok { values := values[key := next]; }
    }
  }

  /**
   * acquireSession up to its compare-and-swap: the record it read, and the locked record it proposes in its
   * place; or the owner it reports as holding the session.
   */
  method PrepareAcquire(store: StateStore, w: string, k: string, o: Owner, window: int, now: int, freshId: string)
    returns (r: Result<(Option<Record>, Record), Owner>)
    ensures r.Ok? <==> MayAcquire(store.Lookup(StateKey(w, k)), o, now, window)
    ensures r.Ok? ==>
              var s := System(w, k, window, now, store.Lookup(StateKey(w, k)), map[], []);
              Run(s, [AcquireFetch(o, window), AcquireCheck(o, freshId)]).At(o) == Proposing(r.value.0, r.value.1)
    ensures r.Ok? ==>
              && r.value.0 == store.Lookup(StateKey(w, k))
              && match r.value.0
                 case None => r.value.1 == Record(w, k, freshId, [], 0, now, now, Some(Lock(o, now)))
                 case Some(c) => r.value.1 == c.(active := Some(Lock(o, now)), updatedAt := now)
    ensures r.Err? ==> r.error != o && HeldBy(store.Lookup(StateKey(w, k)), r.error)
  {
    var current := store.GetState(StateKey(w, k));
    RunTwo(System(w, k, window, now, current, map[], []), AcquireFetch(o, window), AcquireCheck(o, freshId));
    if current.Some? && current.value.active.Some? && current.value.active.value.ownerId != o {
      var age := now - current.value.active.value.since;
      if age <= window {
        return Err(current.value.active.value.ownerId);
      }
    }
    var base := if current.Some? then current.value else CreateSessionRecord(w, k, freshId, now);
    var next := base.(active := Some(Lock(o, now)), updatedAt := now);
    return Ok((current, next));
  }

  /**
   * The rest of acquireSession, whatever others wrote meanwhile: it wins exactly when the store still holds
   * the record that was read, and otherwise changes nothing and reports the owner it now sees, if any.
   */
  method CommitAcquire(store: StateStore, key: string, expected: Option<Record>, next: Record)
    returns (r: Result<Record, Option<Owner>>)
    modifies store
    ensures r.Ok? <==> old(store.Lookup(key)) == expected
    ensures r.Ok? ==> r.value == next && store.values == old(store.values)[key := next]
    ensures r.Err? ==> store.values == old(store.values)
    ensures r.Err? && r.error.Some? ==> HeldBy(store.Lookup(key), r.error.value)
    ensures r.Err? && r.error.None? ==> forall p :: !HeldBy(store.Lookup(key), p)
  {
    var ok := store.CasState(key, expected, next);
    if !ok {
      var refreshed := store.GetState(key);
      return Err(if refreshed.Some? && refreshed.value.active.Some?
                 then Some(refreshed.value.active.value.ownerId) else None);
    }
    return Ok(next);
  }

  method SaveSession(store: StateStore, rec: Record, now: int)
    modifies store
    ensures store.values == old(store.values)[StateKey(rec.workflowId, rec.sessionKey) := rec.(updatedAt := now)]
  {
    store.SetState(StateKey(rec.workflowId, rec.sessionKey), rec.(updatedAt := now));
  }

  /** Clears the caller's own lock and nothing else; a caller that holds no lock changes nothing. */
  method ReleaseSession(store: StateStore, w: string, k: string, o: Owner, now: int)
    modifies store
    ensures !old(HeldBy(store.Lookup(StateKey(w, k)), o)) ==> store.values == old(store.values)
    ensures old(HeldBy(store.Lookup(StateKey(w, k)), o)) ==>
              store.values == old(store.values)[StateKey(w, k) :=
                old(store.values)[StateKey(w, k)].(active := None, updatedAt := now)]
  {
    var key := StateKey(w, k);
    var current := store.GetState(key);
    if current.None? { return; }
    if current.value.active.None? || current.value.active.value.ownerId != o { return; }
    store.SetState(key, current.value.(active := None, updatedAt := now));
  }

  // ---------- the store key ----------

  function StateKey(workflowId: string, sessionKey: string): string {
    workflowId + "::" + sessionKey
  }

  /** Two workflow ids can meet in one store key, for some conversation keys. */
  ghost predicate KeysCanCollide(w1: string, w2: string) {
    exists k1: string, k2: string :: StateKey(w1, k1) == StateKey(w2, k2)
  }

  /** They can exactly when one id followed by "::" is a prefix of the other followed by "::". */
  lemma KeysCollideIff(w1: string, w2: string)
    ensures KeysCanCollide(w1, w2) <==> w1 + "::" <= w2 + "::" || w2 + "::" <= w1 + "::"
  {
    if KeysCanCollide(w1, w2) {
      var k1: string, k2: string :| StateKey(w1, k1) == StateKey(w2, k2);
      var k := StateKey(w1, k1);
      assert k[..|w1| + 2] == w1 + "::";
      assert k[..|w2| + 2] == w2 + "::";
    }
    if w1 + "::" <= w2 + "::" {
      var rest := (w2 + "::")[|w1| + 2..];
      assert StateKey(w2, "") == w2 + "::" == (w1 + "::") + rest == StateKey(w1, rest);
    }
    if w2 + "::" <= w1 + "::" {
      var rest := (w1 + "::")[|w2| + 2..];
      assert StateKey(w1, "") == w1 + "::" == (w2 + "::") + rest == StateKey(w2, rest);
    }
  }

  lemma KeyDeterminesSessionKey(w: string, k1: string, k2: string)
    ensures StateKey(w, k1) == StateKey(w, k2) ==> k1 == k2
  {
    assert StateKey(w, k1)[|w| + 2..] == k1;
    assert StateKey(w, k2)[|w| + 2..] == k2;
  }

  /** Distinct ids do collide: one record would serve two different sessions. */
  lemma DistinctSessionsShareAKey()
    ensures StateKey("a", "b::c") == StateKey("a::b", "c")
  {
  }
}
