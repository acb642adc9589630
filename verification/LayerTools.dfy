/**
 * Exactly which tools and delegation targets a resolved policy allows, in the terms of what each layer's author wrote
 * (packages/core/src/permissions.ts).
 */
module LayerTools {
  import opened Common

  import opened Layers
  import opened Matchers
  import opened Policy

  // ---------- what an author's matcher says ----------

  predicate HasStar(m: RawMatcher) {
    match m
    case Listed(ids) => "*" in ids
    case Parts(_, _, star) => star == Some(true)
  }

  predicate EndsInDotStar(id: string) {
    |id| >= 2 && id[|id| - 2] == '.' && id[|id| - 1] == '*'
  }

  predicate ListsId(m: RawMatcher, id: string) {
    match m
    case Listed(ids) => id in ids && id != "*" && !EndsInDotStar(id)
    case Parts(exact, _, _) => exact.Some? && id in exact.value
  }

  /** A prefix is listed with a "*" after its final dot, or as it is among the spelled-out prefixes. */
  predicate ListsPrefix(m: RawMatcher, prefix: string) {
    match m
    case Listed(ids) => EndsInDotStar(prefix + "*") && prefix + "*" in ids
    case Parts(_, prefixes, _) => prefixes.Some? && prefix in prefixes.value
  }

  ghost predicate Says(m: RawMatcher, id: string) {
    HasStar(m) || ListsId(m, id) || exists prefix: string :: prefix <= id && ListsPrefix(m, prefix)
  }

  lemma PatternPrefix(entry: string, prefix: string)
    ensures IsPattern(entry) <==> EndsInDotStar(entry)
    ensures IsPattern(entry) ==> (entry[..|entry| - 1] == prefix <==> entry == prefix + "*")
  {
    if IsPattern(entry) {
      assert entry[|entry| - 2..][0] == '.' && entry[|entry| - 2..][1] == '*';
      assert entry == entry[..|entry| - 1] + "*";
      if entry == prefix + "*" { assert entry[..|entry| - 1] == prefix; }
    }
    if EndsInDotStar(entry) { assert entry[|entry| - 2..] == ".*"; }
  }

  lemma {:induction false} ListedParts(ids: seq<string>, id: string)
    ensures AddIds(ids).star <==> "*" in ids
    ensures id in AddIds(ids).exact <==> id in ids && id != "*" && !EndsInDotStar(id)
    ensures id in AddIds(ids).prefixes <==> EndsInDotStar(id + "*") && id + "*" in ids
  {
    if ids != [] {
      var front, last := ids[..|ids| - 1], ids[|ids| - 1];
      assert ids == front + [last];
      ListedParts(front, id);
      PatternPrefix(last, id);
    }
  }

  lemma NormalizedParts(m: RawMatcher, id: string)
    ensures NormalizeMatcher(m).star <==> HasStar(m)
    ensures id in NormalizeMatcher(m).exact <==> ListsId(m, id)
    ensures id in NormalizeMatcher(m).prefixes <==> ListsPrefix(m, id)
  {
    if m.Listed? { ListedParts(m.ids, id); }
  }

  /** What an author's matcher says is what its resolved form matches. */
  lemma NormalizedSays(m: RawMatcher, id: string)
    ensures Matches(NormalizeMatcher(m), id) <==> Says(m, id)
  {
    NormalizedParts(m, id);
    forall prefix: string ensures prefix in NormalizeMatcher(m).prefixes <==> ListsPrefix(m, prefix) {
      NormalizedParts(m, prefix);
    }
  }

  // ---------- all layers together ----------

  ghost predicate PrefixInAll(ms: seq<RawMatcher>, prefix: string) {
    forall m | m in ms :: ListsPrefix(m, prefix)
  }

  /** Some layer has a matcher, and all have the star, or all list the id, or all list one prefix of it. */
  ghost predicate AllSay(ms: seq<RawMatcher>, id: string) {
    ms != []
    && (|| (forall m | m in ms :: HasStar(m))
        || (forall m | m in ms :: ListsId(m, id))
        || (exists prefix: string :: prefix <= id && PrefixInAll(ms, prefix)))
  }

  lemma StructuralSays(fields: seq<Option<RawMatcher>>, id: string)
    ensures Matches(StructuralAll(Normalized(fields)), id) <==> AllSay(Present(fields), id)
  {
    var present, ms := Present(fields), Normalized(fields);
    if present != [] {
      StructuralMatches(ms, id);
      AllParts(present, ms, id);
      forall x: string ensures CommonPrefix(ms, x) <==> PrefixInAll(present, x) { AllParts(present, ms, x); }
    }
  }

  lemma AllParts(present: seq<RawMatcher>, ms: seq<Matcher>, x: string)
    requires |ms| == |present| && forall i | 0 <= i < |ms| :: ms[i] == NormalizeMatcher(present[i])
    ensures (forall n | n in ms :: n.star) <==> (forall m | m in present :: HasStar(m))
    ensures (forall n | n in ms :: x in n.exact) <==> (forall m | m in present :: ListsId(m, x))
    ensures CommonPrefix(ms, x) <==> PrefixInAll(present, x)
  {
    forall i | 0 <= i < |ms|
      ensures ms[i].star <==> HasStar(present[i])
      ensures x in ms[i].exact <==> ListsId(present[i], x)
      ensures x in ms[i].prefixes <==> ListsPrefix(present[i], x)
    {
      NormalizedParts(present[i], x);
    }
  }

  /** The matchers that the layers define, in order. */
  function Defined(layers: seq<AgentPermissions>, field: AgentPermissions -> Option<RawMatcher>): seq<RawMatcher> {
    if layers == [] then []
    else (if field(layers[0]).Some? then [field(layers[0]).value] else []) + Defined(layers[1..], field)
  }

  lemma {:induction false} PresentFields(layers: seq<AgentPermissions>, field: AgentPermissions -> Option<RawMatcher>)
    ensures Present(Fields(layers, field)) == Defined(layers, field)
  {
    if layers != [] {
      PresentFields(layers[1..], field);
      assert Fields(layers, field)[1..] == Fields(layers[1..], field);
    }
  }

  lemma SameFields(layers: seq<AgentPermissions>, f: AgentPermissions -> Option<RawMatcher>,
                   g: AgentPermissions -> Option<RawMatcher>)
    requires forall p :: f(p) == g(p)
    ensures Fields(layers, f) == Fields(layers, g)
  {
  }

  ghost predicate SomeLayerDenies(layers: seq<AgentPermissions>, id: string) {
    exists p | p in layers :: p.deniedTools.Some? && Says(p.deniedTools.value, id)
  }

  lemma DeniedIff(layers: seq<AgentPermissions>, id: string)
    ensures Matches(UnionAll(Fields(layers, DeniedField)), id) <==> SomeLayerDenies(layers, id)
  {
    DenialsAreUnioned(layers, id);
    forall p: AgentPermissions | p.deniedTools.Some?
      ensures LayerDenies(p, Tool(id)) <==> Says(p.deniedTools.value, id)
    {
      NormalizedSays(p.deniedTools.value, id);
    }
  }

  /**
   * Tools, built-in tools and delegation targets, without the bypass: a tool needs the consent of the layers, in the
   * structural sense, and that nobody denies it; a built-in tool only the latter; a target only the former.
   */
  lemma ToolsAndTargetsAreExact(layers: seq<AgentPermissions>, executables: seq<Option<set<string>>>, grant: bool,
                                id: string)
    requires !Combine(layers, executables, grant).unrestricted
    ensures var p := Combine(layers, executables, grant);
            && (Allowed(p, Tool(id)) <==>
                  AllSay(Defined(layers, (l: AgentPermissions) => l.allowedTools), id) && !SomeLayerDenies(layers, id))
            && (Allowed(p, BuiltinTool(id)) <==> !SomeLayerDenies(layers, id))
            && (Allowed(p, Delegate(id)) <==> AllSay(Defined(layers, (l: AgentPermissions) => l.delegation), id))
  {
    var tools, targets := (l: AgentPermissions) => l.allowedTools, (l: AgentPermissions) => l.delegation;
    SameFields(layers, ToolsField, tools);
    SameFields(layers, DelegationField, targets);
    PresentFields(layers, tools);
    PresentFields(layers, targets);
    StructuralSays(Fields(layers, ToolsField), id);
    StructuralSays(Fields(layers, DelegationField), id);
    DeniedIff(layers, id);
  }
}
