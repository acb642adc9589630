/**
 * Bounding a delegated child by its parent (packages/core/src/permissions.ts), and chains of delegations
 * of any length.
 */
module Delegation {
  import opened Common
  import opened Matchers
  import opened Policy
  import opened FsPath
  import opened Strings

  // ---------- the code ----------

  function MinRemember(a: Option<int>, b: Option<int>): Option<int> {
    if a.None? then b
    else if b.None? then a
    else Some(if a.value <= b.value then a.value else b.value)
  }

  function UnionApproval(a: Option<Approval>, b: Option<Approval>): Option<Approval> {
    if a.None? then b
    else if b.None? then a
    else Some(Approval(KeepAll(a.value.on, b.value.on), MinRemember(a.value.rememberFor, b.value.rememberFor)))
  }

  function UnionProfileNames(a: Option<set<string>>, b: Option<set<string>>): Option<set<string>> {
    if a.None? then b else if b.None? then a else Some(a.value + b.value)
  }

  function IntersectResolvedPolicies(ceiling: ResolvedPolicy, child: ResolvedPolicy): ResolvedPolicy {
    if ceiling.unrestricted then child.(unrestricted := true)
    else ResolvedPolicy(
      allowedTools := Meet(ceiling.allowedTools, child.allowedTools),
      deniedTools := Union(ceiling.deniedTools, child.deniedTools),
      allowedExecutables := ceiling.allowedExecutables * child.allowedExecutables,
      allowedMcpServers := ceiling.allowedMcpServers * child.allowedMcpServers,
      allowedSkills := ceiling.allowedSkills * child.allowedSkills,
      allowedAgents := Meet(ceiling.allowedAgents, child.allowedAgents),
      allowedSecrets := ceiling.allowedSecrets * child.allowedSecrets,
      networkEgress := NarrowNetwork(ceiling.networkEgress, child.networkEgress),
      fsRead := ceiling.fsRead * child.fsRead,
      fsWrite := ceiling.fsWrite * child.fsWrite,
      approval := UnionApproval(ceiling.approval, child.approval),
      agentmemory := IntersectAgentmemory(ceiling.agentmemory, child.agentmemory),
      executableProfileNames := UnionProfileNames(ceiling.executableProfileNames, child.executableProfileNames),
      unrestricted := false)
  }

  // ---------- one delegation ----------

  /** A policy's own grant, with any full bypass ignored. */
  function Capped(p: ResolvedPolicy): ResolvedPolicy {
    p.(unrestricted := false)
  }

  /** Outside the file system the bound is exactly "both allow", whatever bypass the child holds. */
  lemma MeetIsBothAllow(ceiling: ResolvedPolicy, child: ResolvedPolicy, req: Request)
    requires !ceiling.unrestricted && !IsFs(req)
    ensures Allowed(IntersectResolvedPolicies(ceiling, child), req) <==>
            Allowed(ceiling, req) && Allowed(Capped(child), req)
  {
    match req
    case Tool(id) =>
      MeetIsExact(ceiling.allowedTools, child.allowedTools, id);
      UnionIsExact(ceiling.deniedTools, child.deniedTools, id);
    case BuiltinTool(id) => UnionIsExact(ceiling.deniedTools, child.deniedTools, id);
    case Delegate(id) => MeetIsExact(ceiling.allowedAgents, child.allowedAgents, id);
    case Fetch(host) => NarrowNetworkIsExact(ceiling.networkEgress, child.networkEgress, host);
    case Memory(op) => IntersectAgentmemoryIsExact(ceiling.agentmemory, child.agentmemory, op);
    case _ =>
  }

  /** On the file system the bound keeps the roots both sides list verbatim. */
  lemma FsMeetMeaning(ceiling: ResolvedPolicy, child: ResolvedPolicy, req: Request)
    requires !ceiling.unrestricted && IsFs(req)
    ensures Allowed(IntersectResolvedPolicies(ceiling, child), req)
            <==> SomeRootAdmits(RootsFor(ceiling, req) * RootsFor(child, req), req.path)
  {
    FsAllowedIff(IntersectResolvedPolicies(ceiling, child), req);
  }

  /** So the bound allows nothing that either side denies. */
  lemma MeetIsLowerBound(ceiling: ResolvedPolicy, child: ResolvedPolicy, req: Request)
    requires !ceiling.unrestricted
    requires Allowed(IntersectResolvedPolicies(ceiling, child), req)
    ensures Allowed(ceiling, req) && Allowed(Capped(child), req)
  {
    if IsFs(req) {
      FsMeetMeaning(ceiling, child, req);
      FsAllowedIff(ceiling, req);
      FsAllowedIff(Capped(child), req);
    } else {
      MeetIsBothAllow(ceiling, child, req);
    }
  }

  /** An unrestricted ceiling hands its bypass on and changes nothing else of the child. */
  lemma UnrestrictedCeiling(ceiling: ResolvedPolicy, child: ResolvedPolicy)
    requires ceiling.unrestricted
    ensures IntersectResolvedPolicies(ceiling, child).unrestricted
    ensures IntersectResolvedPolicies(ceiling, child).(unrestricted := child.unrestricted) == child
  {
  }

  predicate Records(p: ResolvedPolicy, name: string) {
    p.executableProfileNames.Some? && name in p.executableProfileNames.value
  }

  /** A restricted bound records the profiles that shaped either side. */
  lemma ProfileNamesAreUnioned(ceiling: ResolvedPolicy, child: ResolvedPolicy, name: string)
    requires !ceiling.unrestricted
    ensures Records(IntersectResolvedPolicies(ceiling, child), name) <==> Records(ceiling, name) || Records(child, name)
    ensures IntersectResolvedPolicies(ceiling, child).executableProfileNames.None?
            <==> ceiling.executableProfileNames.None? && child.executableProfileNames.None?
  {
  }

  // ---------- when the file-system bound is exact ----------

  /** Wherever roots of the two sides nest, a common root already covers the inner one. */
  predicate NestedRootsAreShared(a: set<string>, b: set<string>) {
    forall ra, rb | ra in a && rb in b ::
      && (Within(Segments(ra), Segments(rb)) ==> CoveredByShared(a, b, rb))
      && (Within(Segments(rb), Segments(ra)) ==> CoveredByShared(a, b, ra))
  }

  predicate CoveredByShared(a: set<string>, b: set<string>, inner: string) {
    exists g | g in a * b :: Within(Segments(g), Segments(inner))
  }

  ghost predicate SharedRootsAreExact(a: set<string>, b: set<string>) {
    forall path :: SomeRootAdmits(a, path) && SomeRootAdmits(b, path) ==> SomeRootAdmits(a * b, path)
  }

  /** Keeping only common roots loses nothing exactly when nested roots are shared: a test on the roots alone. */
  lemma SharedRootsAreExactIff(a: set<string>, b: set<string>)
    ensures SharedRootsAreExact(a, b) <==> NestedRootsAreShared(a, b)
  {
    if SharedRootsAreExact(a, b) {
      forall ra, rb | ra in a && rb in b
        ensures Within(Segments(ra), Segments(rb)) ==> CoveredByShared(a, b, rb)
        ensures Within(Segments(rb), Segments(ra)) ==> CoveredByShared(a, b, ra)
      {
        if Within(Segments(ra), Segments(rb)) { InnerRootIsShared(a, b, ra, rb); }
        if Within(Segments(rb), Segments(ra)) { InnerRootIsShared(a, b, rb, ra); }
      }
    }
    if NestedRootsAreShared(a, b) {
      forall path | SomeRootAdmits(a, path) && SomeRootAdmits(b, path) ensures SomeRootAdmits(a * b, path) {
        var ra :| ra in a && RootAdmits(ra, path);
        var rb :| rb in b && RootAdmits(rb, path);
        SharedRootAdmits(a, b, ra, rb, path);
      }
    }
  }

  /** Not every pair of policies has that property: a child's narrower root under the parent's is lost. */
  lemma NestedRootIsLost()
    ensures var parent, child := {"/srv"}, {"/srv/app"};
            && SomeRootAdmits(parent, "/srv/app") && SomeRootAdmits(child, "/srv/app")
            && !SomeRootAdmits(parent * child, "/srv/app")
  {
    SegmentsOfSrv();
    RootAdmitsIffWithin("/srv", "/srv/app");
    RootAdmitsIffWithin("/srv/app", "/srv/app");
    assert {"/srv"} * {"/srv/app"} == {} by { assert |"/srv"| != |"/srv/app"|; }
  }

  lemma SegmentsOfSrv()
    ensures Segments("/srv") == ["srv"] && Segments("/srv/app") == ["srv", "app"]
  {
    var outer, inner := ["srv"], ["srv", "app"];
    assert IsName("srv") && IsName("app");
    RenderedSegments(outer);
    RenderedSegments(inner);
    assert inner[1..] == ["app"];
    assert "/" + Join(outer, "/") == "/srv" && "/" + Join(inner, "/") == "/srv/app";
  }

  lemma SharedRootCovers(a: set<string>, b: set<string>, ra: string, rb: string, path: string) returns (g: string)
    requires NestedRootsAreShared(a, b) && ra in a && rb in b
    requires Within(Segments(ra), Segments(path)) && Within(Segments(rb), Segments(path))
    ensures g in a * b && Within(Segments(g), Segments(path))
  {
    var inner := if Within(Segments(ra), Segments(rb)) then rb else ra;
    assert CoveredByShared(a, b, inner);
    g :| g in a * b && Within(Segments(g), Segments(inner));
    WithinTrans(Segments(g), Segments(inner), Segments(path));
  }

  lemma SharedRootAdmits(a: set<string>, b: set<string>, ra: string, rb: string, path: string)
    requires NestedRootsAreShared(a, b) && ra in a && rb in b
    requires RootAdmits(ra, path) && RootAdmits(rb, path)
    ensures SomeRootAdmits(a * b, path)
  {
    RootAdmitsIffWithin(ra, path);
    RootAdmitsIffWithin(rb, path);
    var g := SharedRootCovers(a, b, ra, rb, path);
    RootAdmitsIffWithin(g, path);
  }

  lemma InnerRootIsShared(a: set<string>, b: set<string>, outer: string, inner: string)
    requires (outer in a && inner in b) || (outer in b && inner in a)
    requires Within(Segments(outer), Segments(inner))
    requires SomeRootAdmits(a, inner) && SomeRootAdmits(b, inner) ==> SomeRootAdmits(a * b, inner)
    ensures CoveredByShared(a, b, inner)
  {
    RootAdmitsIffWithin(outer, inner);
    RootAdmitsIffWithin(inner, inner);
    assert SomeRootAdmits(a * b, inner);
    var g :| g in a * b && RootAdmits(g, inner);
    RootAdmitsIffWithin(g, inner);
  }

  // ---------- chains ----------

  /** What the last agent of a delegation chain may do; chain[0] is the agent that started it. */
  function Effective(chain: seq<ResolvedPolicy>): ResolvedPolicy
    requires chain != []
  {
    if |chain| == 1 then chain[0]
    else IntersectResolvedPolicies(Effective(chain[..|chain| - 1]), chain[|chain| - 1])
  }

  /** The bypass is decided at the head: below a restricted agent nothing is unrestricted, at any depth. */
  lemma {:induction false} BypassFollowsTheHead(chain: seq<ResolvedPolicy>)
    requires chain != []
    ensures Effective(chain).unrestricted <==> chain[0].unrestricted
  {
    if |chain| > 1 { BypassFollowsTheHead(chain[..|chain| - 1]); }
  }

  /** Outside the file system the last agent may do exactly what every policy on the chain allows by itself. */
  lemma {:induction false} ChainAllowsWhatAllAllow(chain: seq<ResolvedPolicy>, req: Request)
    requires chain != [] && !chain[0].unrestricted && !IsFs(req)
    ensures Allowed(Effective(chain), req) <==> forall p | p in chain :: Allowed(Capped(p), req)
  {
    if |chain| == 1 {
      assert Capped(chain[0]) == chain[0];
    } else {
      var front, last := chain[..|chain| - 1], chain[|chain| - 1];
      ChainAllowsWhatAllAllow(front, req);
      BypassFollowsTheHead(front);
      MeetIsBothAllow(Effective(front), last, req);
      assert chain == front + [last];
    }
  }

  lemma {:induction false} ChainRoots(chain: seq<ResolvedPolicy>, req: Request, root: string)
    requires chain != [] && !chain[0].unrestricted && IsFs(req)
    ensures root in RootsFor(Effective(chain), req) <==> ListedByAll(chain, req, root)
  {
    if |chain| > 1 {
      var front, last := chain[..|chain| - 1], chain[|chain| - 1];
      ChainRoots(front, req, root);
      BypassFollowsTheHead(front);
      assert chain == front + [last];
      assert RootsFor(Effective(chain), req) == RootsFor(Effective(front), req) * RootsFor(last, req);
    }
  }

  /** Listed by every policy of the chain. */
  predicate ListedByAll(chain: seq<ResolvedPolicy>, req: Request, root: string)
    requires IsFs(req)
  {
    forall p | p in chain :: root in RootsFor(p, req)
  }

  /** A file access needs one root that every policy on the chain lists. */
  lemma ChainFsMeaning(chain: seq<ResolvedPolicy>, req: Request)
    requires chain != [] && !chain[0].unrestricted && IsFs(req)
    ensures Allowed(Effective(chain), req) <==>
            exists root | root in RootsFor(chain[0], req) :: RootAdmits(root, req.path) && ListedByAll(chain, req, root)
  {
    BypassFollowsTheHead(chain);
    FsAllowedIff(Effective(chain), req);
    ChainCommonRoot(chain, req);
  }

  lemma ChainCommonRoot(chain: seq<ResolvedPolicy>, req: Request)
    requires chain != [] && !chain[0].unrestricted && IsFs(req)
    ensures SomeRootAdmits(RootsFor(Effective(chain), req), req.path) <==>
            exists root | root in RootsFor(chain[0], req) :: RootAdmits(root, req.path) && ListedByAll(chain, req, root)
  {
    if root :| root in RootsFor(Effective(chain), req) && RootAdmits(root, req.path) {
      ChainRoots(chain, req, root);
      assert chain[0] in chain && ListedByAll(chain, req, root);
    }
    if root :| root in RootsFor(chain[0], req) && RootAdmits(root, req.path) && ListedByAll(chain, req, root) {
      ChainRoots(chain, req, root);
    }
  }

  /**
   * Delegation only narrows, whatever the depth: below a restricted head, an agent's permission implies the
   * effective permission of every ancestor and the agent's own declared permission.
   */
  lemma {:induction false} DelegationOnlyNarrows(chain: seq<ResolvedPolicy>, depth: nat, req: Request)
    requires 1 <= depth <= |chain| && !chain[0].unrestricted
    requires Allowed(Effective(chain), req)
    ensures Allowed(Effective(chain[..depth]), req)
    ensures Allowed(Capped(chain[depth - 1]), req)
  {
    if depth == |chain| {
      assert chain[..depth] == chain;
      if |chain| > 1 {
        BypassFollowsTheHead(chain[..|chain| - 1]);
        MeetIsLowerBound(Effective(chain[..|chain| - 1]), chain[|chain| - 1], req);
      } else {
        assert Capped(chain[0]) == chain[0];
      }
    } else {
      var front := chain[..|chain| - 1];
      BypassFollowsTheHead(front);
      MeetIsLowerBound(Effective(front), chain[|chain| - 1], req);
      assert front[..depth] == chain[..depth];
      DelegationOnlyNarrows(front, depth, req);
    }
  }

  function Remember(p: ResolvedPolicy): Option<int> {
    if p.approval.Some? then p.approval.value.rememberFor else None
  }

  lemma UnionApprovalMeaning(ceiling: ResolvedPolicy, child: ResolvedPolicy, d: Dimension)
    requires !ceiling.unrestricted
    ensures Gates(IntersectResolvedPolicies(ceiling, child), d) <==> Gates(ceiling, d) || Gates(child, d)
    ensures Remember(IntersectResolvedPolicies(ceiling, child)) == MinRemember(Remember(ceiling), Remember(child))
  {
    if ceiling.approval.Some? && child.approval.Some? {
      KeepAllMembers(ceiling.approval.value.on, child.approval.value.on, d);
    }
  }

  /**
   * The bound gates what either side gates, except that an unrestricted ceiling's gates are dropped: for a dimension it
   * holds exactly unless the ceiling is unrestricted and gates it and the child does not.
   */
  lemma GatesAreUnionedIff(ceiling: ResolvedPolicy, child: ResolvedPolicy, d: Dimension)
    ensures (Gates(IntersectResolvedPolicies(ceiling, child), d) <==> Gates(ceiling, d) || Gates(child, d))
            <==> (ceiling.unrestricted && Gates(ceiling, d) ==> Gates(child, d))
  {
    if !ceiling.unrestricted { UnionApprovalMeaning(ceiling, child, d); }
  }

  /** An unrestricted parent that gates tools hands a child that gates nothing a policy that gates nothing. */
  lemma UnrestrictedParentDropsItsGates(parent: ResolvedPolicy, child: ResolvedPolicy)
    requires parent.unrestricted && Gates(parent, ToolDim) && child.approval.None?
    ensures forall d :: !Gates(IntersectResolvedPolicies(parent, child), d)
  {
  }

  /** Below a restricted head, a dimension is gated on approval exactly when somebody on the chain gates it. */
  lemma {:induction false} ChainGates(chain: seq<ResolvedPolicy>, d: Dimension)
    requires chain != [] && !chain[0].unrestricted
    ensures Gates(Effective(chain), d) <==> exists p | p in chain :: Gates(p, d)
  {
    if |chain| > 1 {
      var front, last := chain[..|chain| - 1], chain[|chain| - 1];
      ChainGates(front, d);
      BypassFollowsTheHead(front);
      UnionApprovalMeaning(Effective(front), last, d);
      assert chain == front + [last];
    }
  }

  /** And an approval is remembered for the shortest time anybody on the chain asks for. */
  lemma {:induction false} ChainRemembersShortest(chain: seq<ResolvedPolicy>)
    requires chain != [] && !chain[0].unrestricted
    ensures Remember(Effective(chain)).None? <==> forall p | p in chain :: Remember(p).None?
    ensures Remember(Effective(chain)).Some? ==>
              && (exists p | p in chain :: Remember(p) == Remember(Effective(chain)))
              && (forall p | p in chain :: Remember(p).Some? ==>
                    Remember(Effective(chain)).value <= Remember(p).value)
  {
    if |chain| > 1 {
      var front, last := chain[..|chain| - 1], chain[|chain| - 1];
      ChainRemembersShortest(front);
      BypassFollowsTheHead(front);
      UnionApprovalMeaning(Effective(front), last, ToolDim);
      assert chain == front + [last];
      assert forall p | p in front :: p in chain;
      assert last in chain;
    } else {
      assert chain[0] in chain;
    }
  }
}
