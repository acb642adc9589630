/** When intersecting the root lists of permission layers loses nothing (packages/core/src/permissions.ts). */
module LayerRoots {
  import opened Common

  import opened FsPath
  import opened Layers
  import opened Matchers
  import opened Policy

  predicate LiesUnder(roots: seq<string>, path: string) {
    exists root | root in roots :: Within(Segments(root), Segments(path))
  }

  lemma ListAdmitsIff(roots: seq<string>, path: string)
    ensures RootListAdmits(roots, path) <==> LiesUnder(roots, path)
  {
    forall root | root in roots ensures RootAdmits(root, path) <==> Within(Segments(root), Segments(path)) {
      RootAdmitsIffWithin(root, path);
    }
  }

  predicate AllListsCover(lists: seq<seq<string>>, path: string) {
    forall l | l in lists :: LiesUnder(l, path)
  }

  /** Among roots of all lists that cover a path, one lies under all the others' lists. */
  lemma {:induction false} Innermost(lists: seq<seq<string>>, path: string) returns (r: string)
    requires lists != [] && AllListsCover(lists, path)
    ensures (exists l | l in lists :: r in l) && Within(Segments(r), Segments(path)) && AllListsCover(lists, r)
  {
    var front, last := lists[..|lists| - 1], lists[|lists| - 1];
    assert lists == front + [last] && last in lists;
    r :| r in last && Within(Segments(r), Segments(path));
    if front != [] {
      assert forall l | l in front :: l in lists;
      var q := Innermost(front, path);
      if Within(Segments(q), Segments(r)) {
        forall l | l in front ensures LiesUnder(l, r) { UnderIsTransitive(l, q, r); }
      } else {
        assert Within(Segments(r), Segments(q));
        r := q;
      }
    }
  }

  lemma UnderIsTransitive(roots: seq<string>, inner: string, path: string)
    requires LiesUnder(roots, inner) && Within(Segments(inner), Segments(path))
    ensures LiesUnder(roots, path)
  {
    var root :| root in roots && Within(Segments(root), Segments(inner));
    WithinTrans(Segments(root), Segments(inner), Segments(path));
  }

  /** Every listed root that all lists cover lies under a root that all lists contain: a test on the roots alone. */
  predicate InnerRootsAreShared(lists: seq<seq<string>>) {
    forall l | l in lists :: forall r | r in l && AllListsCover(lists, r) :: WithinSomeRoot(InAll(lists), r)
  }

  ghost predicate IntersectionIsExact(lists: seq<seq<string>>) {
    forall path | lists != [] && AllListsCover(lists, path) :: WithinSomeRoot(InAll(lists), path)
  }

  lemma IntersectionIsExactIff(lists: seq<seq<string>>)
    ensures IntersectionIsExact(lists) <==> InnerRootsAreShared(lists)
  {
    if InnerRootsAreShared(lists) {
      forall path | lists != [] && AllListsCover(lists, path) ensures WithinSomeRoot(InAll(lists), path) {
        var r := Innermost(lists, path);
        assert WithinSomeRoot(InAll(lists), r);
        var g :| g in InAll(lists) && Within(Segments(g), Segments(r));
        WithinTrans(Segments(g), Segments(r), Segments(path));
      }
    }
  }

  /** What all layers that list roots admit, in terms of the lists. */
  lemma AllLayersAdmitIff(layers: seq<AgentPermissions>, field: AgentPermissions -> Option<seq<string>>, path: string)
    ensures var lists := Present(Fields(layers, field));
            lists != [] && AllListsCover(lists, path) <==>
              && (exists p | p in layers :: field(p).Some?)
              && (forall p | p in layers && field(p).Some? :: RootListAdmits(field(p).value, path))
  {
    var lists := Present(Fields(layers, field));
    FieldsEmptyMeaning(layers, field);
    forall l: seq<string>
      ensures l in lists <==> exists p | p in layers :: field(p) == Some(l)
      ensures RootListAdmits(l, path) <==> LiesUnder(l, path)
    {
      FieldsMeaning(layers, field, l);
      ListAdmitsIff(l, path);
    }
  }

  ghost predicate ExactFor(p: ResolvedPolicy, layers: seq<AgentPermissions>, defs: Definitions, write: bool) {
    forall path: string ::
      var req := if write then Write(path) else Read(path);
      Allowed(p, req) <==> AllDefiningLayersAllow(layers, defs, req)
  }

  function FsField(write: bool): AgentPermissions -> Option<seq<string>> {
    if write then FsWriteField else FsReadField
  }

  lemma AllowedIffCommonRoot(layers: seq<AgentPermissions>, executables: seq<Option<set<string>>>, grant: bool,
                             write: bool, path: string)
    requires !Combine(layers, executables, grant).unrestricted
    ensures Allowed(Combine(layers, executables, grant), if write then Write(path) else Read(path))
            <==> WithinSomeRoot(InAll(Present(Fields(layers, FsField(write)))), path)
  {
    FsAllowedIff(Combine(layers, executables, grant), if write then Write(path) else Read(path));
    SomeRootAdmitsIff(InAll(Present(Fields(layers, FsField(write)))), path);
  }

  /** A layer speaks about file access by its root list, and allows what that admits. */
  predicate LayerAgrees(p: AgentPermissions, defs: Definitions, write: bool, path: string) {
    var req, roots := if write then Write(path) else Read(path), FsField(write)(p);
    && (Defines(p, req) <==> roots.Some?)
    && (Defines(p, req) ==> (LayerAllows(p, defs, req) <==> RootListAdmits(roots.value, path)))
  }

  lemma OneLayer(p: AgentPermissions, defs: Definitions, write: bool, path: string)
    ensures LayerAgrees(p, defs, write, path)
  {
  }

  lemma DefinersAdmit(layers: seq<AgentPermissions>, defs: Definitions, write: bool, path: string)
    ensures var lists := Present(Fields(layers, FsField(write)));
            AllDefiningLayersAllow(layers, defs, if write then Write(path) else Read(path))
            <==> lists != [] && AllListsCover(lists, path)
  {
    AllLayersAdmitIff(layers, FsField(write), path);
    forall p | p in layers ensures LayerAgrees(p, defs, write, path) { OneLayer(p, defs, write, path); }
  }

  /**
   * Reads and writes: resolution allows exactly the paths that every layer with a root list admits, if and only if
   * every listed root that all those layers cover lies under a root they all list.
   */
  lemma LayersLoseNoPathIff(layers: seq<AgentPermissions>, executables: seq<Option<set<string>>>, grant: bool,
                            defs: Definitions, write: bool)
    requires !Combine(layers, executables, grant).unrestricted
    ensures ExactFor(Combine(layers, executables, grant), layers, defs, write)
            <==> InnerRootsAreShared(Present(Fields(layers, FsField(write))))
  {
    var lists := Present(Fields(layers, FsField(write)));
    IntersectionIsExactIff(lists);
    forall path: string
      ensures var req := if write then Write(path) else Read(path);
              && (Allowed(Combine(layers, executables, grant), req) <==> WithinSomeRoot(InAll(lists), path))
              && (AllDefiningLayersAllow(layers, defs, req) <==> lists != [] && AllListsCover(lists, path))
    {
      AllowedIffCommonRoot(layers, executables, grant, write, path);
      DefinersAdmit(layers, defs, write, path);
    }
  }

  /** A step's narrower root under the defaults' root, such as "/srv/app" under "/srv", is lost. */
  lemma NarrowerLayerIsLost(outer: string, inner: string)
    requires Within(Segments(outer), Segments(inner)) && outer != inner
    ensures AllListsCover([[outer], [inner]], inner) && InAll([[outer], [inner]]) == {}
    ensures !InnerRootsAreShared([[outer], [inner]])
  {
    var lists := [[outer], [inner]];
    assert outer in lists[0] && inner in lists[1] && lists[1] in lists;
    assert InAll(lists) == {};
  }
}
