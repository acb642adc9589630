/**
 * Reconciling declared triggers with the coordinator's registrations (packages/cli/src/gateway.ts,
 * syncDeclaredTriggers).
 *
 * A workflow lists the declarations its module yielded in this pass: all of them, or those reached before
 * loading failed. Whether arming a trigger fails is up to the environment.
 */
module Triggers {
  import opened Common

  /** `json` is the rest of the spec as JSON.stringify renders it; `callback` is what that text leaves out. */
  datatype Spec = Spec(id: string, workflowId: string, kind: string, json: string, callback: int)

  /** A declared trigger: its spec unless the configuration is refused, and its input. */
  datatype Declaration = Declaration(spec: Option<Spec>, input: Option<string>)

  datatype Workflow = Workflow(id: string, declarations: seq<Declaration>)

  datatype Registration = Registration(spec: Spec, declared: bool, input: Option<string>, failed: bool)

  type Registrations = map<string, Registration>

  predicate SpecsEqual(a: Spec, b: Spec) {
    a.kind == b.kind && a.id == b.id && a.workflowId == b.workflowId && a.json == b.json
  }

  // ---------- the reconcile as a function ----------

  /** `touched` are the ids on which register or unregister was called. */
  datatype Sync = Sync(regs: Registrations, touched: set<string>, expected: set<string>, armed: set<string>)

  function Reconcile(st: Sync, d: Declaration, fails: Spec -> bool): Sync {
    if d.spec.None? then st
    else
      var spec := d.spec.value;
      var seen := st.(expected := st.expected + {spec.id});
      if spec.id in st.regs && SpecsEqual(st.regs[spec.id].spec, spec)
      then seen.(armed := st.armed + {spec.id})
      else seen.(regs := st.regs[spec.id := Registration(spec, true, d.input, fails(spec))],
                 touched := st.touched + {spec.id},
                 armed := if fails(spec) then st.armed else st.armed + {spec.id})
  }

  function ReconcileAll(st: Sync, ds: seq<Declaration>, fails: Spec -> bool): Sync {
    if ds == [] then st else Reconcile(ReconcileAll(st, ds[..|ds| - 1], fails), ds[|ds| - 1], fails)
  }

  function Flatten(ws: seq<Workflow>): seq<Declaration> {
    if ws == [] then [] else Flatten(ws[..|ws| - 1]) + ws[|ws| - 1].declarations
  }

  function LiveIds(ws: seq<Workflow>): set<string> {
    set w | w in ws :: w.id
  }

  predicate Keeps(r: Registration, live: set<string>, expected: set<string>) {
    !r.declared || (r.spec.workflowId in live && r.spec.id in expected)
  }

  function Swept(st: Sync, live: set<string>): Sync {
    var gone := set id | id in st.regs && !Keeps(st.regs[id], live, st.expected);
    st.(regs := st.regs - gone, touched := st.touched + gone)
  }

  function SyncAll(regs: Registrations, ws: seq<Workflow>, fails: Spec -> bool): Sync {
    Swept(ReconcileAll(Sync(regs, {}, {}, {}), Flatten(ws), fails), LiveIds(ws))
  }

  // ---------- the code ----------

  class Coordinator {
    var registrations: Registrations

    constructor (initial: Registrations)
      ensures registrations == initial
    {
      registrations := initial;
    }

    method Get(id: string) returns (r: Option<Registration>)
      ensures r == if id in registrations then Some(registrations[id]) else None
    {
      r := if id in registrations then Some(registrations[id]) else None;
    }

    method Register(spec: Spec, input: Option<string>, declared: bool, failed: bool) returns (reg: Registration)
      modifies this
      ensures reg == Registration(spec, declared, input, failed)
      ensures registrations == old(registrations)[spec.id := reg]
    {
      reg := Registration(spec, declared, input, failed);
      registrations := registrations[spec.id := reg];
    }

    method Unregister(id: string)
      modifies this
      ensures registrations == old(registrations) - {id}
    {
      registrations := registrations - {id};
    }
  }

  /** Registrations are stored under their own id. */
  ghost predicate Keyed(regs: Registrations) {
    forall id | id in regs :: regs[id].spec.id == id
  }

  method SyncDeclaredTriggers(c: Coordinator, ws: seq<Workflow>, fails: Spec -> bool)
    returns (armed: nat, touched: set<string>)
    requires Keyed(c.registrations)
    modifies c
    ensures c.registrations == SyncAll(old(c.registrations), ws, fails).regs
    ensures touched == SyncAll(old(c.registrations), ws, fails).touched
    ensures armed == |SyncAll(old(c.registrations), ws, fails).armed|
    ensures Keyed(c.registrations)
  {
    var liveWorkflowIds: set<string> := {};
    var st := Sync(c.registrations, {}, {}, {});
    ghost var start := st;
    for k := 0 to |ws|
      invariant Keyed(c.registrations) && c.registrations == st.regs
      invariant liveWorkflowIds == LiveIds(ws[..k])
      invariant st == ReconcileAll(start, Flatten(ws[..k]), fails)
    {
      var entry := ws[k];
      OneMoreWorkflow(ws, k);
      liveWorkflowIds := liveWorkflowIds + {entry.id};
      st := ReconcileWorkflow(c, entry, fails, st);
      ReconcileConcat(start, Flatten(ws[..k]), entry.declarations, fails);
    }
    assert ws[..|ws|] == ws;
    var gone := Sweep(c, liveWorkflowIds, st.expected);
    touched, armed := st.touched + gone, |st.armed|;
  }

  lemma OneMoreWorkflow(ws: seq<Workflow>, k: nat)
    requires k < |ws|
    ensures LiveIds(ws[..k + 1]) == LiveIds(ws[..k]) + {ws[k].id}
    ensures Flatten(ws[..k + 1]) == Flatten(ws[..k]) + ws[k].declarations
  {
    assert ws[..k + 1][..k] == ws[..k] && ws[..k + 1] == ws[..k] + [ws[k]];
  }

  /** The inner loop: one workflow's declarations, in order, against the live registrations. */
  method ReconcileWorkflow(c: Coordinator, entry: Workflow, fails: Spec -> bool, before: Sync) returns (st: Sync)
    requires Keyed(c.registrations) && c.registrations == before.regs
    modifies c
    ensures st == ReconcileAll(before, entry.declarations, fails)
    ensures Keyed(c.registrations) && c.registrations == st.regs
  {
    var touched, expected, armed := before.touched, before.expected, before.armed;
    for i := 0 to |entry.declarations|
      invariant Keyed(c.registrations)
      invariant Sync(c.registrations, touched, expected, armed)
                == ReconcileAll(before, entry.declarations[..i], fails)
    {
      var t := entry.declarations[i];
      assert entry.declarations[..i + 1][..i] == entry.declarations[..i];
      assert ReconcileAll(before, entry.declarations[..i + 1], fails)
             == Reconcile(Sync(c.registrations, touched, expected, armed), t, fails);
      if t.spec.None? { continue; }
      var spec := t.spec.value;
      expected := expected + {spec.id};
      var existing := c.Get(spec.id);
      if existing.Some? {
        if SpecsEqual(existing.value.spec, spec) {
          armed := armed + {spec.id};
          continue;
        }
        c.Unregister(spec.id);
      }
      var reg := c.Register(spec, t.input, true, fails(spec));
      touched := touched + {spec.id};
      if !reg.failed { armed := armed + {spec.id}; }
    }
    assert entry.declarations[..|entry.declarations|] == entry.declarations;
    st := Sync(c.registrations, touched, expected, armed);
  }

  /** The final loop over a snapshot of the registrations; `gone` are the ids it unregistered. */
  method Sweep(c: Coordinator, live: set<string>, expected: set<string>) returns (gone: set<string>)
    requires Keyed(c.registrations)
    modifies c
    ensures gone == set id | id in old(c.registrations) && !Keeps(old(c.registrations)[id], live, expected)
    ensures c.registrations == old(c.registrations) - gone
  {
    gone := {};
    var snapshot := c.registrations;
    var todo := snapshot.Keys;
    while todo != {}
      invariant todo <= snapshot.Keys
      invariant gone == set id | id in snapshot.Keys - todo && !Keeps(snapshot[id], live, expected)
      invariant c.registrations == snapshot - gone
      decreases todo
    {
      var id :| id in todo;
      var reg := snapshot[id];
      todo := todo - {id};
      if !reg.declared { continue; }
      if reg.spec.workflowId in live && reg.spec.id in expected { continue; }
      c.Unregister(reg.spec.id);
      gone := gone + {reg.spec.id};
    }
  }

  lemma {:induction false} ReconcileConcat(st: Sync, a: seq<Declaration>, b: seq<Declaration>, fails: Spec -> bool)
    ensures ReconcileAll(st, a + b, fails) == ReconcileAll(ReconcileAll(st, a, fails), b, fails)
  {
    if b == [] {
      assert a + b == a;
    } else {
      assert (a + b)[..|a + b| - 1] == a + b[..|b| - 1];
      ReconcileConcat(st, a, b[..|b| - 1], fails);
    }
  }

  // ---------- what a declaration list says about one id ----------

  predicate Names(d: Declaration, id: string) {
    d.spec.Some? && d.spec.value.id == id
  }

  predicate Mentions(ds: seq<Declaration>, id: string) {
    exists d | d in ds :: Names(d, id)
  }

  /** The spec that wins: the last one declared under the id. */
  function LastSpec(ds: seq<Declaration>, id: string): Spec
    requires Mentions(ds, id)
  {
    var last := ds[|ds| - 1];
    if Names(last, id) then last.spec.value
    else
      assert ds == ds[..|ds| - 1] + [last];
      LastSpec(ds[..|ds| - 1], id)
  }

  lemma {:induction false} LastSpecIsDeclared(ds: seq<Declaration>, id: string)
    requires Mentions(ds, id)
    ensures exists d | d in ds :: Names(d, id) && d.spec.value == LastSpec(ds, id)
  {
    var front, last := ds[..|ds| - 1], ds[|ds| - 1];
    assert ds == front + [last];
    if !Names(last, id) {
      LastSpecIsDeclared(front, id);
      var d :| d in front && Names(d, id) && d.spec.value == LastSpec(front, id);
      assert d in ds;
    }
  }

  /** The registration under the id already agrees with every declaration of it. */
  predicate Settled(regs: Registrations, ds: seq<Declaration>, id: string) {
    id in regs && forall d | d in ds && Names(d, id) :: SpecsEqual(regs[id].spec, d.spec.value)
  }

  lemma MentionsAppend(front: seq<Declaration>, last: Declaration, id: string)
    ensures Mentions(front + [last], id) <==> Mentions(front, id) || Names(last, id)
    ensures forall regs: Registrations :: Settled(regs, front + [last], id) <==>
              Settled(regs, front, id) && (Names(last, id) ==> SpecsEqual(regs[id].spec, last.spec.value))
  {
  }

  lemma {:induction false} ReconcileMeaning(st: Sync, ds: seq<Declaration>, fails: Spec -> bool, id: string)
    requires id !in st.touched
    ensures var t := ReconcileAll(st, ds, fails);
            && (id in t.expected <==> id in st.expected || Mentions(ds, id))
            && (Mentions(ds, id) ==> id in t.regs && SpecsEqual(t.regs[id].spec, LastSpec(ds, id)))
            && (id in t.touched <==> Mentions(ds, id) && !Settled(st.regs, ds, id))
            && (id in t.touched ==> id in t.regs && t.regs[id].declared)
            && (id !in t.touched ==> (id in t.regs <==> id in st.regs) && (id in t.regs ==> t.regs[id] == st.regs[id]))
  {
    if ds != [] {
      var front, last := ds[..|ds| - 1], ds[|ds| - 1];
      assert ds == front + [last];
      MentionsAppend(front, last, id);
      ReconcileMeaning(st, front, fails, id);
    }
  }

  /** What register stores for a declaration. */
  function Declared(d: Declaration, fails: Spec -> bool): Registration
    requires d.spec.Some?
  {
    Registration(d.spec.value, true, d.input, fails(d.spec.value))
  }

  predicate Carries(r: Registration, ds: seq<Declaration>, fails: Spec -> bool, id: string) {
    exists d | d in ds :: Names(d, id) && r == Declared(d, fails)
  }

  /** A registration that was touched carries one of the declarations of its id whole: spec, input and callback. */
  lemma {:induction false} TouchedCarriesADeclaration(st: Sync, ds: seq<Declaration>, fails: Spec -> bool, id: string)
    requires id !in st.touched
    ensures var t := ReconcileAll(st, ds, fails);
            id in t.touched ==> id in t.regs && Carries(t.regs[id], ds, fails, id)
  {
    if ds != [] {
      var front, last := ds[..|ds| - 1], ds[|ds| - 1];
      assert ds == front + [last];
      assert last in ds && forall d | d in front :: d in ds;
      TouchedCarriesADeclaration(st, front, fails, id);
      ReconcileMeaning(st, front, fails, id);
    }
  }

  /** The comparison sees everything but the callback. */
  lemma SpecsEqualMeaning(a: Spec, b: Spec)
    ensures SpecsEqual(a, b) <==> a.(callback := b.callback) == b
  {
  }

  /** The declarations are those of the workflows, in the order of the registry and, within one, as it lists them. */
  lemma {:induction false} DeclarationsInOrder(a: seq<Workflow>, b: seq<Workflow>, w: Workflow)
    ensures Flatten(a + b) == Flatten(a) + Flatten(b)
    ensures Flatten([w]) == w.declarations && Flatten([]) == []
  {
    assert [w][..0] == [];
    if b == [] {
      assert a + b == a;
    } else {
      assert (a + b)[..|a + b| - 1] == a + b[..|b| - 1];
      DeclarationsInOrder(a, b[..|b| - 1], w);
    }
  }

  // ---------- the result of a sync ----------

  /** Specs carry the id of the workflow that declares them, as pipelineTriggerToSpec builds them. */
  ghost predicate WellBuilt(ws: seq<Workflow>) {
    forall w, d | w in ws && d in w.declarations && d.spec.Some? :: d.spec.value.workflowId == w.id
  }

  lemma {:induction false} FlattenMeaning(ws: seq<Workflow>, d: Declaration)
    ensures d in Flatten(ws) <==> exists w | w in ws :: d in w.declarations
  {
    if ws != [] {
      FlattenMeaning(ws[..|ws| - 1], d);
      assert ws == ws[..|ws| - 1] + [ws[|ws| - 1]];
    }
  }

  lemma DeclaredIsLive(ws: seq<Workflow>, id: string)
    requires WellBuilt(ws) && Mentions(Flatten(ws), id)
    ensures LastSpec(Flatten(ws), id).workflowId in LiveIds(ws)
  {
    LastSpecIsDeclared(Flatten(ws), id);
    var d :| d in Flatten(ws) && Names(d, id) && d.spec.value == LastSpec(Flatten(ws), id);
    FlattenMeaning(ws, d);
  }

  /**
   * After a sync, from any registrations: every declared id is registered with the spec declared last under it, as far
   * as the comparison sees it, and every registration marked declared is one of those. It carries one of the
   * declarations whole, unless it agreed with all of them and was left as it was.
   */
  lemma SyncInstallsTheDeclarations(regs: Registrations, ws: seq<Workflow>, fails: Spec -> bool, id: string)
    requires Keyed(regs) && WellBuilt(ws)
    ensures var t, ds := SyncAll(regs, ws, fails).regs, Flatten(ws);
            && (Mentions(ds, id) ==> id in t && SpecsEqual(t[id].spec, LastSpec(ds, id)))
            && (id in t && t[id].declared ==> Mentions(ds, id))
            && (!Mentions(ds, id) && id in regs && !regs[id].declared ==> id in t && t[id] == regs[id])
            && (Mentions(ds, id) && Settled(regs, ds, id) ==> t[id] == regs[id])
            && (Mentions(ds, id) && !Settled(regs, ds, id) ==> Carries(t[id], ds, fails, id))
  {
    ReconcileMeaning(Sync(regs, {}, {}, {}), Flatten(ws), fails, id);
    TouchedCarriesADeclaration(Sync(regs, {}, {}, {}), Flatten(ws), fails, id);
    if Mentions(Flatten(ws), id) {
      DeclaredIsLive(ws, id);
      LastSpecIsDeclared(Flatten(ws), id);
    }
  }

  ghost predicate NoOperatorShares(regs: Registrations, ws: seq<Workflow>) {
    forall id | id in regs && !regs[id].declared :: !Mentions(Flatten(ws), id)
  }

  /**
   * When no operator registration shares a declared id, the declared registrations afterwards are exactly the
   * declared ids, each as it was if it agreed with every declaration and carrying one of them otherwise, and every
   * operator registration is untouched.
   */
  lemma DeclaredAreExactlyTheSpecs(regs: Registrations, ws: seq<Workflow>, fails: Spec -> bool)
    requires Keyed(regs) && WellBuilt(ws) && NoOperatorShares(regs, ws)
    ensures var t := SyncAll(regs, ws, fails).regs;
            && (forall id :: id in t && t[id].declared <==> Mentions(Flatten(ws), id))
            && (forall id | Mentions(Flatten(ws), id) ::
                  && SpecsEqual(t[id].spec, LastSpec(Flatten(ws), id))
                  && if Settled(regs, Flatten(ws), id) then t[id] == regs[id]
                    else Carries(t[id], Flatten(ws), fails, id))
            && (forall id :: id in t && !t[id].declared <==> id in regs && !regs[id].declared)
            && (forall id | id in regs && !regs[id].declared :: t[id] == regs[id])
  {
    var t := SyncAll(regs, ws, fails).regs;
    forall id
      ensures id in t && t[id].declared <==> Mentions(Flatten(ws), id)
      ensures Mentions(Flatten(ws), id) ==>
                && SpecsEqual(t[id].spec, LastSpec(Flatten(ws), id))
                && if Settled(regs, Flatten(ws), id) then t[id] == regs[id] else Carries(t[id], Flatten(ws), fails, id)
      ensures id in t && !t[id].declared <==> id in regs && !regs[id].declared
      ensures id in regs && !regs[id].declared ==> t[id] == regs[id]
    {
      SyncInstallsTheDeclarations(regs, ws, fails, id);
      ReconcileMeaning(Sync(regs, {}, {}, {}), Flatten(ws), fails, id);
    }
  }

  /**
   * Without that assumption, an operator registration survives a sync exactly when every declaration under its id
   * equals its spec; otherwise it is replaced by a declared one.
   */
  lemma OperatorRegistrationSurvivesIff(regs: Registrations, ws: seq<Workflow>, fails: Spec -> bool, id: string)
    requires Keyed(regs) && WellBuilt(ws) && id in regs && !regs[id].declared
    ensures var t := SyncAll(regs, ws, fails).regs;
            && (id in t && t[id] == regs[id] <==> Settled(regs, Flatten(ws), id))
            && (!Settled(regs, Flatten(ws), id) ==> id in t && t[id].declared)
  {
    SyncInstallsTheDeclarations(regs, ws, fails, id);
    ReconcileMeaning(Sync(regs, {}, {}, {}), Flatten(ws), fails, id);
  }

  /**
   * A sync calls register or unregister on exactly the declared ids that disagree with what is registered, and on the
   * declared registrations that nothing declares any more.
   */
  lemma SyncTouchesIff(regs: Registrations, ws: seq<Workflow>, fails: Spec -> bool, id: string)
    requires Keyed(regs) && WellBuilt(ws)
    ensures id in SyncAll(regs, ws, fails).touched <==>
            if Mentions(Flatten(ws), id) then !Settled(regs, Flatten(ws), id) else id in regs && regs[id].declared
  {
    ReconcileMeaning(Sync(regs, {}, {}, {}), Flatten(ws), fails, id);
    if Mentions(Flatten(ws), id) {
      DeclaredIsLive(ws, id);
      LastSpecIsDeclared(Flatten(ws), id);
    }
  }

  lemma SyncKeepsKeyed(regs: Registrations, ws: seq<Workflow>, fails: Spec -> bool)
    requires Keyed(regs)
    ensures Keyed(SyncAll(regs, ws, fails).regs)
  {
    var ds, t := Flatten(ws), SyncAll(regs, ws, fails).regs;
    forall k | k in t ensures t[k].spec.id == k {
      ReconcileMeaning(Sync(regs, {}, {}, {}), ds, fails, k);
      if Mentions(ds, k) { LastSpecIsDeclared(ds, k); }
    }
  }

  // ---------- edits the comparison does not see, and workflows that fail to load ----------

  /**
   * A declaration that alone names its id is installed whole, input and callback included, exactly unless a
   * registration with an equal spec but another input or callback is already there.
   */
  lemma DeclarationIsInstalledIff(regs: Registrations, ws: seq<Workflow>, fails: Spec -> bool, d: Declaration)
    requires Keyed(regs) && WellBuilt(ws) && d in Flatten(ws) && d.spec.Some?
    requires forall e | e in Flatten(ws) && Names(e, d.spec.value.id) :: e == d
    ensures var id, t := d.spec.value.id, SyncAll(regs, ws, fails).regs;
            && id in t
            && (t[id].spec == d.spec.value && t[id].input == d.input
                <==> (id in regs && SpecsEqual(regs[id].spec, d.spec.value) ==>
                        regs[id].spec == d.spec.value && regs[id].input == d.input))
  {
    var id := d.spec.value.id;
    assert Names(d, id) && Mentions(Flatten(ws), id);
    SyncInstallsTheDeclarations(regs, ws, fails, id);
  }

  /**
   * A declared registration survives a sync exactly when its id was reached in this pass. A workflow that fails to load
   * is live, but what it declares after the failure is not reached.
   */
  lemma DeclaredRegistrationSurvivesIff(regs: Registrations, ws: seq<Workflow>, fails: Spec -> bool, id: string)
    requires Keyed(regs) && WellBuilt(ws) && id in regs && regs[id].declared
    ensures id in SyncAll(regs, ws, fails).regs <==> Mentions(Flatten(ws), id)
  {
    SyncInstallsTheDeclarations(regs, ws, fails, id);
    ReconcileMeaning(Sync(regs, {}, {}, {}), Flatten(ws), fails, id);
  }

  function Nightly(json: string): Spec {
    Spec("wf#0", "wf", "cron", json, 0)
  }

  function One(d: Declaration): seq<Workflow> {
    [Workflow("wf", [d])]
  }

  function After(ws: seq<Workflow>, fails: Spec -> bool, next: seq<Workflow>): Registrations {
    SyncAll(SyncAll(map[], ws, fails).regs, next, fails).regs
  }

  lemma OneDeclaration(d: Declaration)
    requires d.spec.Some? && d.spec.value.workflowId == "wf"
    ensures Flatten(One(d)) == [d] && WellBuilt(One(d)) && d in Flatten(One(d))
  {
    assert One(d)[..0] == [];
  }

  /**
   * One workflow with one declaration: the registration is kept if its spec agrees, and otherwise is the
   * declaration.
   */
  lemma OneSync(regs: Registrations, d: Declaration, fails: Spec -> bool)
    requires Keyed(regs) && d.spec.Some? && d.spec.value.workflowId == "wf"
    ensures var id, t := d.spec.value.id, SyncAll(regs, One(d), fails).regs;
            && Keyed(t) && id in t
            && t[id] == if id in regs && SpecsEqual(regs[id].spec, d.spec.value) then regs[id] else Declared(d, fails)
  {
    OneDeclaration(d);
    var id := d.spec.value.id;
    assert Names(d, id);
    SyncInstallsTheDeclarations(regs, One(d), fails, id);
    SyncKeepsKeyed(regs, One(d), fails);
  }

  /** An edited input is ignored: the second sync keeps the first one's. */
  lemma EditedInputIsIgnored(fails: Spec -> bool)
    ensures var before := Declaration(Some(Nightly("0 2")), Some("full"));
            var after := before.(input := Some("quick"));
            var t := After(One(before), fails, One(after));
            "wf#0" in t && t["wf#0"].input == Some("full")
  {
    var before := Declaration(Some(Nightly("0 2")), Some("full"));
    var after := before.(input := Some("quick"));
    OneSync(map[], before, fails);
    OneSync(SyncAll(map[], One(before), fails).regs, after, fails);
  }

  /** An armed trigger is unregistered when its workflow fails to load in the next pass. */
  lemma FailedLoadUnregisters(fails: Spec -> bool)
    ensures var d := Declaration(Some(Nightly("0 2")), None);
            && "wf#0" in SyncAll(map[], One(d), fails).regs
            && "wf#0" !in After(One(d), fails, [Workflow("wf", [])])
  {
    var d := Declaration(Some(Nightly("0 2")), None);
    OneSync(map[], d, fails);
    var failed := [Workflow("wf", [])];
    assert Flatten(failed) == [] by { assert failed[..0] == []; }
    DeclaredRegistrationSurvivesIff(SyncAll(map[], One(d), fails).regs, failed, fails, "wf#0");
  }

  /** An operator's schedule under a declared id is replaced by the declared one. */
  lemma OperatorScheduleIsReplaced(fails: Spec -> bool)
    ensures var d := Declaration(Some(Nightly("0 2")), None);
            var operator := map["wf#0" := Registration(Nightly("0 3"), false, None, false)];
            var t := SyncAll(operator, One(d), fails).regs;
            "wf#0" in t && t["wf#0"] == Declared(d, fails)
  {
    var d := Declaration(Some(Nightly("0 2")), None);
    var operator := map["wf#0" := Registration(Nightly("0 3"), false, None, false)];
    assert "0 2"[2] != "0 3"[2];
    OneSync(operator, d, fails);
  }

  // ---------- syncing twice ----------

  /** Declarations that share an id agree; distinct ids are the usual way to ensure it. */
  ghost predicate Consistent(ds: seq<Declaration>) {
    forall d, e | d in ds && e in ds && d.spec.Some? && e.spec.Some? && d.spec.value.id == e.spec.value.id ::
      SpecsEqual(d.spec.value, e.spec.value)
  }

  lemma SettledIff(regs: Registrations, ds: seq<Declaration>, id: string)
    requires Mentions(ds, id) && id in regs && SpecsEqual(regs[id].spec, LastSpec(ds, id))
    ensures Settled(regs, ds, id) <==>
            forall d, e | d in ds && e in ds && Names(d, id) && Names(e, id) :: SpecsEqual(d.spec.value, e.spec.value)
  {
    LastSpecIsDeclared(ds, id);
  }

  lemma SecondSyncTouches(regs: Registrations, ws: seq<Workflow>, fails: Spec -> bool, fails2: Spec -> bool, id: string)
    requires Keyed(regs) && WellBuilt(ws)
    ensures var first := SyncAll(regs, ws, fails).regs;
            var second := SyncAll(first, ws, fails2);
            && (id in second.touched <==> Mentions(Flatten(ws), id) && !Settled(first, Flatten(ws), id))
            && (id !in second.touched ==> (id in second.regs <==> id in first)
                                          && (id in first ==> second.regs[id] == first[id]))
  {
    var ds := Flatten(ws);
    var first := SyncAll(regs, ws, fails).regs;
    SyncInstallsTheDeclarations(regs, ws, fails, id);
    SyncKeepsKeyed(regs, ws, fails);
    ReconcileMeaning(Sync(first, {}, {}, {}), ds, fails2, id);
    if Mentions(ds, id) {
      DeclaredIsLive(ws, id);
      LastSpecIsDeclared(ds, id);
    }
  }

  /** A second sync calls neither register nor unregister exactly when declarations that share an id agree. */
  lemma SecondSyncIsQuietIff(regs: Registrations, ws: seq<Workflow>, fails: Spec -> bool, fails2: Spec -> bool)
    requires Keyed(regs) && WellBuilt(ws)
    ensures var first := SyncAll(regs, ws, fails).regs;
            var second := SyncAll(first, ws, fails2);
            && (second.touched == {} <==> Consistent(Flatten(ws)))
            && (second.touched == {} ==> second.regs == first)
  {
    var ds := Flatten(ws);
    var first := SyncAll(regs, ws, fails).regs;
    var second := SyncAll(first, ws, fails2);
    forall id
      ensures id in second.touched <==> Mentions(ds, id) && !Settled(first, ds, id)
      ensures id !in second.touched ==> (id in second.regs <==> id in first)
      ensures id !in second.touched && id in first ==> second.regs[id] == first[id]
      ensures Mentions(ds, id) ==> (Settled(first, ds, id) <==>
                forall d, e | d in ds && e in ds && Names(d, id) && Names(e, id) ::
                  SpecsEqual(d.spec.value, e.spec.value))
    {
      SecondSyncTouches(regs, ws, fails, fails2, id);
      SyncInstallsTheDeclarations(regs, ws, fails, id);
      if Mentions(ds, id) { SettledIff(first, ds, id); }
    }
    if second.touched == {} {
      forall d, e | d in ds && e in ds && d.spec.Some? && e.spec.Some? && d.spec.value.id == e.spec.value.id
        ensures SpecsEqual(d.spec.value, e.spec.value)
      {
        var id := d.spec.value.id;
        assert Names(d, id) && Names(e, id);
        assert Mentions(ds, id);
        assert id !in second.touched;
      }
    }
    if Consistent(ds) {
      forall id ensures id !in second.touched {
        if Mentions(ds, id) { assert Settled(first, ds, id); }
      }
    }
  }

  // ---------- the count that a sync returns ----------

  /** The spec registered under the id after the declarations, as far as the comparison sees it. */
  function InForce(regs: Registrations, ds: seq<Declaration>, id: string): Option<Spec> {
    if Mentions(ds, id) then Some(LastSpec(ds, id)) else if id in regs then Some(regs[id].spec) else None
  }

  /** Coming after `front`, the declaration finds nothing under its id, or another spec, and is registered. */
  predicate IsRegistered(regs: Registrations, front: seq<Declaration>, d: Declaration, id: string) {
    Names(d, id) && var found := InForce(regs, front, id); found.None? || !SpecsEqual(found.value, d.spec.value)
  }

  /** The last declaration of the id that is registered. */
  function Installer(regs: Registrations, ds: seq<Declaration>, id: string): (r: Option<Declaration>)
    ensures r.Some? ==> Names(r.value, id)
  {
    if ds == [] then None
    else
      var front, last := ds[..|ds| - 1], ds[|ds| - 1];
      if IsRegistered(regs, front, last, id) then Some(last) else Installer(regs, front, id)
  }

  /** The registration that the last declaration to be registered leaves under the id is one that failed to arm. */
  predicate EndsFailed(regs: Registrations, ds: seq<Declaration>, fails: Spec -> bool, id: string) {
    match Installer(regs, ds, id)
    case Some(d) => fails(d.spec.value)
    case None => id in regs && regs[id].failed
  }

  /** The j-th declaration adds the id to the count: its spec is in force already, or arming it succeeds. */
  predicate CountsAt(regs: Registrations, ds: seq<Declaration>, fails: Spec -> bool, j: nat, id: string)
    requires j < |ds|
  {
    Names(ds[j], id) && (IsRegistered(regs, ds[..j], ds[j], id) ==> !fails(ds[j].spec.value))
  }

  predicate Counted(regs: Registrations, ds: seq<Declaration>, fails: Spec -> bool, id: string) {
    exists j | 0 <= j < |ds| :: CountsAt(regs, ds, fails, j, id)
  }

  lemma CountedAppend(regs: Registrations, front: seq<Declaration>, last: Declaration, fails: Spec -> bool, id: string)
    ensures Counted(regs, front + [last], fails, id)
            <==> Counted(regs, front, fails, id) || CountsAt(regs, front + [last], fails, |front|, id)
  {
    var ds := front + [last];
    forall j | 0 <= j < |front|
      ensures CountsAt(regs, ds, fails, j, id) <==> CountsAt(regs, front, fails, j, id)
    {
      assert ds[..j] == front[..j];
    }
  }

  ghost predicate AgreesWith(st: Sync, found: Option<Spec>, id: string) {
    (id in st.regs <==> found.Some?) && (id in st.regs ==> SpecsEqual(st.regs[id].spec, found.value))
  }

  lemma ReconcileOne(st: Sync, regs: Registrations, front: seq<Declaration>, d: Declaration, fails: Spec -> bool,
                     id: string)
    requires AgreesWith(st, InForce(regs, front, id), id)
    ensures var t := Reconcile(st, d, fails);
            && (id in t.regs <==> id in st.regs || Names(d, id))
            && (IsRegistered(regs, front, d, id) ==> id in t.regs && t.regs[id] == Declared(d, fails))
            && (!IsRegistered(regs, front, d, id) && id in t.regs ==> id in st.regs && t.regs[id] == st.regs[id])
            && (id in t.armed <==>
                  id in st.armed || (Names(d, id) && (IsRegistered(regs, front, d, id) ==> !fails(d.spec.value))))
  {
  }

  lemma FoundIsInForce(regs: Registrations, ds: seq<Declaration>, fails: Spec -> bool, id: string)
    ensures AgreesWith(ReconcileAll(Sync(regs, {}, {}, {}), ds, fails), InForce(regs, ds, id), id)
  {
    ReconcileMeaning(Sync(regs, {}, {}, {}), ds, fails, id);
  }

  /** For any registrations and declarations: what is registered under an id afterwards, and whether it is counted. */
  lemma {:induction false} ReconcileOfOneId(regs: Registrations, ds: seq<Declaration>, fails: Spec -> bool, id: string)
    ensures var t, d := ReconcileAll(Sync(regs, {}, {}, {}), ds, fails), Installer(regs, ds, id);
            && (id in t.regs <==> id in regs || Mentions(ds, id))
            && (id in t.regs ==> if d.Some? then t.regs[id] == Declared(d.value, fails)
                                 else id in regs && t.regs[id] == regs[id])
            && (id in t.armed <==> Counted(regs, ds, fails, id))
  {
    if ds != [] {
      var front, last := ds[..|ds| - 1], ds[|ds| - 1];
      assert ds == front + [last] && ds[..|front|] == front;
      MentionsAppend(front, last, id);
      ReconcileOfOneId(regs, front, fails, id);
      FoundIsInForce(regs, front, fails, id);
      ReconcileOne(ReconcileAll(Sync(regs, {}, {}, {}), front, fails), regs, front, last, fails, id);
      CountedAppend(regs, front, last, fails, id);
    }
  }

  /** A declared id whose registration did not fail is always counted. */
  lemma {:induction false} NeverUndercounted(regs: Registrations, ds: seq<Declaration>, fails: Spec -> bool, id: string)
    requires Mentions(ds, id) && !EndsFailed(regs, ds, fails, id)
    ensures Counted(regs, ds, fails, id)
  {
    var front, last := ds[..|ds| - 1], ds[|ds| - 1];
    assert ds == front + [last] && ds[..|front|] == front;
    MentionsAppend(front, last, id);
    CountedAppend(regs, front, last, fails, id);
    if !Names(last, id) { NeverUndercounted(regs, front, fails, id); }
  }

  /** What a sync is meant to count: the declared ids whose registration did not fail to arm. */
  function CurrentlyArmed(regs: Registrations, ds: seq<Declaration>): set<string> {
    set id | id in regs && Mentions(ds, id) && !regs[id].failed
  }

  /** Counted although the registration failed. */
  predicate Overcounted(regs: Registrations, ds: seq<Declaration>, fails: Spec -> bool, id: string) {
    Mentions(ds, id) && EndsFailed(regs, ds, fails, id) && Counted(regs, ds, fails, id)
  }

  lemma OneIdIsCountedRightIff(regs: Registrations, ws: seq<Workflow>, fails: Spec -> bool, id: string)
    requires Keyed(regs) && WellBuilt(ws)
    ensures var s, ds := SyncAll(regs, ws, fails), Flatten(ws);
            && (Mentions(ds, id) ==> id in s.regs && (s.regs[id].failed <==> EndsFailed(regs, ds, fails, id)))
            && (id in CurrentlyArmed(s.regs, ds) ==> id in s.armed)
            && (id in s.armed && id !in CurrentlyArmed(s.regs, ds) <==> Overcounted(regs, ds, fails, id))
  {
    var ds := Flatten(ws);
    ReconcileOfOneId(regs, ds, fails, id);
    SyncInstallsTheDeclarations(regs, ws, fails, id);
    if Mentions(ds, id) {
      if !EndsFailed(regs, ds, fails, id) { NeverUndercounted(regs, ds, fails, id); }
    }
  }

  /**
   * From any registrations: the number a sync returns is that of the currently armed declared triggers exactly when no
   * id is overcounted, which can be told from the registrations and declarations; it is never less.
   */
  lemma ReturnedCountIsRightIff(regs: Registrations, ws: seq<Workflow>, fails: Spec -> bool)
    requires Keyed(regs) && WellBuilt(ws)
    ensures var s, ds := SyncAll(regs, ws, fails), Flatten(ws);
            && |CurrentlyArmed(s.regs, ds)| <= |s.armed|
            && (|s.armed| == |CurrentlyArmed(s.regs, ds)| <==> forall id :: !Overcounted(regs, ds, fails, id))
  {
    var s, ds := SyncAll(regs, ws, fails), Flatten(ws);
    var right := CurrentlyArmed(s.regs, ds);
    forall id
      ensures id in right ==> id in s.armed
      ensures id in s.armed && id !in right <==> Overcounted(regs, ds, fails, id)
    {
      OneIdIsCountedRightIff(regs, ws, fails, id);
    }
    assert right <= s.armed;
    assert |s.armed - right| == |s.armed| - |right|;
    if forall id :: !Overcounted(regs, ds, fails, id) {
      assert s.armed == right;
    }
  }

  predicate OnlyAt(ds: seq<Declaration>, k: nat, id: string) {
    k < |ds| && forall j | 0 <= j < |ds| :: Names(ds[j], id) <==> j == k
  }

  /** An id declared once is overcounted exactly when its spec is registered already and failed to arm then. */
  lemma {:induction false} DeclaredOnce(regs: Registrations, ds: seq<Declaration>, fails: Spec -> bool, k: nat,
                                        id: string)
    requires OnlyAt(ds, k, id)
    ensures Overcounted(regs, ds, fails, id)
            <==> id in regs && SpecsEqual(regs[id].spec, ds[k].spec.value) && regs[id].failed
  {
    assert ds[k] in ds && Names(ds[k], id);
    NotMentioned(ds[..k], id);
    InstallerOfOne(regs, ds, k, id);
    assert Counted(regs, ds, fails, id) <==> CountsAt(regs, ds, fails, k, id);
  }

  lemma NotMentioned(ds: seq<Declaration>, id: string)
    requires forall j | 0 <= j < |ds| :: !Names(ds[j], id)
    ensures !Mentions(ds, id)
  {
  }

  lemma {:induction false} InstallerOfNone(regs: Registrations, ds: seq<Declaration>, id: string)
    requires forall j | 0 <= j < |ds| :: !Names(ds[j], id)
    ensures Installer(regs, ds, id) == None
  {
    if ds != [] { InstallerOfNone(regs, ds[..|ds| - 1], id); }
  }

  lemma {:induction false} InstallerOfOne(regs: Registrations, ds: seq<Declaration>, k: nat, id: string)
    requires OnlyAt(ds, k, id)
    ensures Installer(regs, ds, id) == if IsRegistered(regs, ds[..k], ds[k], id) then Some(ds[k]) else None
  {
    var front := ds[..|ds| - 1];
    if k == |ds| - 1 {
      InstallerOfNone(regs, front, id);
    } else {
      assert front[..k] == ds[..k];
      InstallerOfOne(regs, front, k, id);
    }
  }

  /**
   * So for an id declared once, from any registrations, first sync or later: it is in the count exactly when its
   * registration did not fail, unless a failed registration with an equal spec was there before.
   */
  lemma OnlyDeclarationIsCountedRightIff(regs: Registrations, ws: seq<Workflow>, fails: Spec -> bool, k: nat,
                                         id: string)
    requires Keyed(regs) && WellBuilt(ws) && OnlyAt(Flatten(ws), k, id)
    ensures var s, d := SyncAll(regs, ws, fails), Flatten(ws)[k];
            && id in s.regs
            && ((id in s.armed <==> !s.regs[id].failed)
                <==> !(id in regs && SpecsEqual(regs[id].spec, d.spec.value) && regs[id].failed))
  {
    assert Flatten(ws)[k] in Flatten(ws) && Names(Flatten(ws)[k], id);
    OneIdIsCountedRightIff(regs, ws, fails, id);
    DeclaredOnce(regs, Flatten(ws), fails, k, id);
  }

  /**
   * A second sync counts every declared trigger as armed, also those that failed to arm and are not tried again: it is
   * right about exactly the others.
   */
  lemma SecondSyncCountsFailures(regs: Registrations, ws: seq<Workflow>, fails: Spec -> bool, fails2: Spec -> bool,
                                 id: string)
    requires Keyed(regs) && WellBuilt(ws) && Consistent(Flatten(ws))
    ensures var first, ds := SyncAll(regs, ws, fails).regs, Flatten(ws);
            var second := SyncAll(first, ws, fails2);
            && (id in second.armed <==> Mentions(ds, id))
            && (Mentions(ds, id) ==> && id in first && id in second.regs && second.regs[id] == first[id]
                                     && (Overcounted(first, ds, fails2, id) <==> first[id].failed))
  {
    var ds := Flatten(ws);
    var first := SyncAll(regs, ws, fails).regs;
    SyncInstallsTheDeclarations(regs, ws, fails, id);
    if Mentions(ds, id) {
      SettledIff(first, ds, id);
      forall d, e | d in ds && e in ds && Names(d, id) && Names(e, id) ensures SpecsEqual(d.spec.value, e.spec.value) {}
    }
    SecondSyncTouches(regs, ws, fails, fails2, id);
    ReconcileOfOneId(first, ds, fails2, id);
    SettledIsCounted(first, ds, fails2, id);
  }

  /** Declarations that agree with the registration are counted, and none of them is registered. */
  lemma {:induction false} SettledIsCounted(regs: Registrations, ds: seq<Declaration>, fails: Spec -> bool, id: string)
    ensures Counted(regs, ds, fails, id) ==> Mentions(ds, id)
    ensures Settled(regs, ds, id) ==> Installer(regs, ds, id) == None
    ensures Settled(regs, ds, id) && Mentions(ds, id) ==> Counted(regs, ds, fails, id)
  {
    if ds != [] {
      var front, last := ds[..|ds| - 1], ds[|ds| - 1];
      assert ds == front + [last] && ds[..|front|] == front;
      MentionsAppend(front, last, id);
      CountedAppend(regs, front, last, fails, id);
      SettledIsCounted(regs, front, fails, id);
      if Mentions(front, id) { LastSpecIsDeclared(front, id); }
    }
  }

  predicate Clash(d: Declaration, e: Declaration) {
    && d.spec.Some? && e.spec.Some? && d.spec.value.id == e.spec.value.id && !SpecsEqual(d.spec.value, e.spec.value)
    && d.spec.value.workflowId == e.spec.value.workflowId == "wf"
  }

  lemma ClashIsInconsistent(d: Declaration, e: Declaration)
    requires Clash(d, e)
    ensures WellBuilt([Workflow("wf", [d, e])]) && !Consistent(Flatten([Workflow("wf", [d, e])]))
  {
    var ws := [Workflow("wf", [d, e])];
    assert Flatten(ws) == [d, e] by { assert ws[..0] == []; }
    assert d in [d, e] && e in [d, e];
  }

  /** Two declarations of one workflow with one id and different specs are registered again on every sync. */
  lemma DuplicatesNeverSettle(regs: Registrations, d: Declaration, e: Declaration, fails: Spec -> bool,
                              fails2: Spec -> bool)
    requires Keyed(regs) && Clash(d, e)
    ensures var ws := [Workflow("wf", [d, e])];
            SyncAll(SyncAll(regs, ws, fails).regs, ws, fails2).touched != {}
  {
    ClashIsInconsistent(d, e);
    SecondSyncIsQuietIff(regs, [Workflow("wf", [d, e])], fails, fails2);
  }

  lemma CountingAClash(regs: Registrations, d: Declaration, e: Declaration, fails: Spec -> bool)
    requires Clash(d, e) && d.spec.value.id !in regs
    ensures var id := d.spec.value.id;
            && Installer(regs, [d, e], id) == Some(e)
            && (Counted(regs, [d, e], fails, id) <==> !fails(d.spec.value) || !fails(e.spec.value))
  {
    var id := d.spec.value.id;
    var none: seq<Declaration>, one, both := [], [d], [d, e];
    assert one[..0] == none && both[..1] == one && both[..0] == none;
    assert d in one && Names(d, id);
    assert InForce(regs, none, id) == None && InForce(regs, one, id) == d.spec;
    assert IsRegistered(regs, none, d, id) && IsRegistered(regs, one, e, id);
    assert CountsAt(regs, both, fails, 0, id) <==> !fails(d.spec.value);
    assert CountsAt(regs, both, fails, 1, id) <==> !fails(e.spec.value);
  }

  /**
   * A first sync miscounts as well: of two such declarations the id is counted although its registration failed,
   * exactly when the first could be armed and the second, which replaces it, could not.
   */
  lemma ClashIsOvercountedIff(regs: Registrations, d: Declaration, e: Declaration, fails: Spec -> bool)
    requires Keyed(regs) && Clash(d, e) && d.spec.value.id !in regs
    ensures var id, s := d.spec.value.id, SyncAll(regs, [Workflow("wf", [d, e])], fails);
            && id in s.regs && s.regs[id].spec.id == id
            && (id in s.armed && s.regs[id].failed <==> !fails(d.spec.value) && fails(e.spec.value))
  {
    var id, ws := d.spec.value.id, [Workflow("wf", [d, e])];
    ClashIsInconsistent(d, e);
    CountingAClash(regs, d, e, fails);
    assert Flatten(ws) == [d, e] by { assert ws[..0] == []; }
    assert Mentions([d, e], id) by { assert e in [d, e] && Names(e, id); }
    OneIdIsCountedRightIff(regs, ws, fails, id);
    SyncKeepsKeyed(regs, ws, fails);
  }

  lemma FirstArmed(d: Declaration, fails: Spec -> bool)
    requires d.spec.Some? && d.spec.value.workflowId == "wf" && fails(d.spec.value)
    ensures SyncAll(map[], One(d), fails).armed == {}
  {
    OneDeclaration(d);
    var start := Sync(map[], {}, {}, {});
    assert ReconcileAll(start, [d], fails) == Reconcile(start, d, fails) by { assert [d][..0] == []; }
  }

  lemma OneIsConsistent(d: Declaration)
    requires d.spec.Some? && d.spec.value.workflowId == "wf"
    ensures Consistent(Flatten(One(d))) && Mentions(Flatten(One(d)), d.spec.value.id)
  {
    OneDeclaration(d);
    assert Names(d, d.spec.value.id);
  }

  /** A trigger that could not be armed is counted as armed by the next sync, though nothing was tried again. */
  lemma FailureCountsAsArmed(d: Declaration, fails: Spec -> bool)
    requires d.spec.Some? && d.spec.value.workflowId == "wf" && fails(d.spec.value)
    ensures var id, first := d.spec.value.id, SyncAll(map[], One(d), fails);
            var second := SyncAll(first.regs, One(d), fails);
            && id !in first.armed && id in second.armed
            && second.touched == {} && id in second.regs && second.regs[id].failed
  {
    OneDeclaration(d);
    OneIsConsistent(d);
    OneSync(map[], d, fails);
    FirstArmed(d, fails);
    SecondSyncCountsFailures(map[], One(d), fails, fails, d.spec.value.id);
    SecondSyncIsQuietIff(map[], One(d), fails, fails);
  }
}
