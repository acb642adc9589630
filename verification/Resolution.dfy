/** What resolvePermissions makes of its inputs, besides its allow-lists (packages/core/src/permissions.ts). */
module Resolution {
  import opened Common

  import opened Executables
  import opened Layers
  import opened Matchers
  import opened Policy

  /** The layers: the defaults, the profile the step names, and the step itself, as far as they are there. */
  lemma LayersInOrder(defaults: Option<AgentPermissions>, step: Option<AgentPermissions>,
                      profiles: map<string, AgentPermissions>)
    ensures Inputs(defaults, step, profiles)
            == (if defaults.Some? then [defaults.value] else [])
               + (if step.Some? && step.value.profile.Some? && step.value.profile.value in profiles
                  then [profiles[step.value.profile.value]] else [])
               + (if step.Some? then [step.value.(profile := None)] else [])
  {
    var named := if step.Some? && step.value.profile.Some? && step.value.profile.value in profiles
                 then Some(profiles[step.value.profile.value]) else None;
    var own := if step.Some? then Some(step.value.(profile := None)) else None;
    var all := [defaults, named, own];
    assert all[1..] == [named, own] && all[1..][1..] == [own] && all[1..][1..][1..] == [];
    assert Present([own]) == if own.Some? then [own.value] else [];
    assert Present([named, own]) == (if named.Some? then [named.value] else []) + Present([own]);
  }

  /** So what is proved of combined layers holds of the resolved policy. */
  lemma ResolvedFromLayers(defaults: Option<AgentPermissions>, step: Option<AgentPermissions>,
                           profiles: map<string, AgentPermissions>, grant: bool, defs: Definitions)
    returns (executables: seq<Option<set<string>>>)
    requires ResolvePermissions(defaults, step, profiles, grant, defs).Ok?
    ensures ExpandLayers(Inputs(defaults, step, profiles), defs) == Ok(executables)
    ensures ResolvePermissions(defaults, step, profiles, grant, defs).value
            == Combine(Inputs(defaults, step, profiles), executables, grant)
  {
    executables := ExpandLayers(Inputs(defaults, step, profiles), defs).value;
  }

  // ---------- executables of one layer ----------

  /** Some profile that the layer names lists the executable. */
  predicate InProfiles(p: AgentPermissions, defs: Definitions, e: string) {
    p.executableProfiles.Some? && exists n | n in p.executableProfiles.value :: n in defs && e in defs[n]
  }

  predicate InList(p: AgentPermissions, e: string) {
    p.allowedExecutables.Some? && e in p.allowedExecutables.value
  }

  ghost predicate CoveredByProfiles(p: AgentPermissions, defs: Definitions, e: string) {
    exists l :: InProfiles(p, defs, l) && CoveredBy(e, l)
  }

  ghost predicate CoveredByList(p: AgentPermissions, e: string) {
    exists l :: InList(p, l) && CoveredBy(e, l)
  }

  /**
   * Without profiles a layer grants its list; with profiles only, what some profile lists; with both, what either lists
   * and both cover. It names no executables exactly when it has neither.
   */
  lemma ExpansionMeaning(p: AgentPermissions, defs: Definitions, e: string)
    requires ExpandLayer(p, defs).Ok?
    ensures ExpandLayer(p, defs).value.None? <==> p.executableProfiles.None? && p.allowedExecutables.None?
    ensures ExpandLayer(p, defs).value.Some? ==>
              (e in ExpandLayer(p, defs).value.value <==>
                 if p.executableProfiles.None? then InList(p, e)
                 else if p.allowedExecutables.None? then InProfiles(p, defs, e)
                 else (InProfiles(p, defs, e) || InList(p, e)) && CoveredByProfiles(p, defs, e) && CoveredByList(p, e))
  {
    if p.executableProfiles.Some? {
      var named := Expanded(p.executableProfiles.value, defs);
      assert forall l :: l in named <==> InProfiles(p, defs, l);
      if p.allowedExecutables.Some? {
        var list := Entries(p.allowedExecutables.value);
        assert forall l :: l in list <==> InList(p, l);
        IntersectionMeaning([named, list], e);
        TwoLists(named, list, e);
        assert Covered(e, named) <==> CoveredByProfiles(p, defs, e);
        assert Covered(e, list) <==> CoveredByList(p, e);
      }
    }
  }

  lemma TwoLists(a: set<string>, b: set<string>, e: string)
    ensures ListedInSome(e, [a, b]) <==> e in a || e in b
    ensures CoveredByAll(e, [a, b]) <==> Covered(e, a) && Covered(e, b)
  {
    assert a in [a, b] && b in [a, b];
  }

  /** The first name that nobody defined. */
  predicate FirstUndefined(names: seq<string>, defs: Definitions, i: int) {
    0 <= i < |names| && names[i] !in defs && forall j | 0 <= j < i :: names[j] in defs
  }

  lemma {:induction false} FirstUnknownIsFirst(names: seq<string>, defs: Definitions)
    ensures match FirstUnknown(names, defs)
            case Some(name) => exists i :: FirstUndefined(names, defs, i) && names[i] == name
            case None => forall n | n in names :: n in defs
  {
    FirstUnknownMeaning(names, defs);
    if names != [] && names[0] !in defs {
      assert FirstUndefined(names, defs, 0);
    } else if names != [] && FirstUnknown(names, defs).Some? {
      FirstUnknownIsFirst(names[1..], defs);
      var i :| FirstUndefined(names[1..], defs, i) && names[1..][i] == FirstUnknown(names, defs).value;
      assert forall j | 0 < j <= i :: names[j] == names[1..][j - 1];
      assert FirstUndefined(names, defs, i + 1);
    }
  }

  ghost predicate Expandable(p: AgentPermissions, defs: Definitions) {
    p.executableProfiles.Some? ==> forall n | n in p.executableProfiles.value :: n in defs
  }

  /** The i-th layer is the first with an undefined executable profile, and `name` the first such name in it. */
  ghost predicate FailsAt(layers: seq<AgentPermissions>, defs: Definitions, i: int, name: string) {
    && 0 <= i < |layers| && layers[i].executableProfiles.Some?
    && (exists j :: FirstUndefined(layers[i].executableProfiles.value, defs, j)
                    && layers[i].executableProfiles.value[j] == name)
    && forall k | 0 <= k < i :: Expandable(layers[k], defs)
  }

  lemma {:induction false} FirstFailure(layers: seq<AgentPermissions>, defs: Definitions)
    requires ExpandLayers(layers, defs).Err?
    ensures exists i :: FailsAt(layers, defs, i, ExpandLayers(layers, defs).error)
  {
    var head := layers[0];
    if head.executableProfiles.Some? { FirstUnknownIsFirst(head.executableProfiles.value, defs); }
    if ExpandLayer(head, defs).Err? {
      assert FailsAt(layers, defs, 0, ExpandLayers(layers, defs).error);
    } else {
      FirstFailure(layers[1..], defs);
      var i :| FailsAt(layers[1..], defs, i, ExpandLayers(layers, defs).error);
      assert Expandable(head, defs);
      assert forall k | 0 < k <= i :: layers[k] == layers[1..][k - 1];
      assert FailsAt(layers, defs, i + 1, ExpandLayers(layers, defs).error);
    }
  }

  /** The error names what is missing: the step's profile, or else the first executable profile nobody defined. */
  lemma ErrorNamesTheFirst(defaults: Option<AgentPermissions>, step: Option<AgentPermissions>,
                           profiles: map<string, AgentPermissions>, grant: bool, defs: Definitions)
    requires ResolvePermissions(defaults, step, profiles, grant, defs).Err?
    ensures match ResolvePermissions(defaults, step, profiles, grant, defs).error
            case UnknownProfile(name) => step.Some? && step.value.profile == Some(name) && name !in profiles
            case UnknownExecutableProfile(name) =>
              exists i :: FailsAt(Inputs(defaults, step, profiles), defs, i, name)
  {
    var layers := Inputs(defaults, step, profiles);
    if ExpandLayers(layers, defs).Err? { FirstFailure(layers, defs); }
  }

  // ---------- what is recorded ----------

  /** The policy records the names of the executable profiles of all layers, and the last layer's approval, whole. */
  lemma RecordedFields(layers: seq<AgentPermissions>, executables: seq<Option<set<string>>>, grant: bool, name: string)
    ensures var p := Combine(layers, executables, grant);
            && p.executableProfileNames.Some?
            && (name in p.executableProfileNames.value <==>
                  exists l | l in layers :: l.executableProfiles.Some? && name in l.executableProfiles.value)
            && (p.approval.None? <==> forall l | l in layers :: l.approval.None?)
            && (p.approval.Some? ==> exists k :: LastOnApproval(layers, k) && p.approval == layers[k].approval)
  {
    LastApproval(layers);
    if l :| l in layers && l.approval.Some? { SomeLast(layers, l); }
  }

  lemma {:induction false} SomeLast(layers: seq<AgentPermissions>, l: AgentPermissions)
    requires l in layers && l.approval.Some?
    ensures exists k :: LastOnApproval(layers, k)
  {
    var n := |layers| - 1;
    var front := layers[..n];
    if layers[n].approval.Some? {
      assert LastOnApproval(layers, n);
    } else {
      assert layers == front + [layers[n]];
      SomeLast(front, l);
      var k :| LastOnApproval(front, k);
      SilentLayer(layers, k);
    }
  }
}
