/** Tool matchers and their meets (packages/core/src/permissions.ts). */
module Matchers {
  import opened Common

  datatype Matcher = Matcher(exact: set<string>, prefixes: seq<string>, star: bool)

  const EMPTY_MATCHER := Matcher({}, [], false)

  /** What an author writes: a list of ids and patterns, or the three parts spelled out. */
  datatype RawMatcher =
    | Listed(ids: seq<string>)
    | Parts(exact: Option<seq<string>>, prefixes: Option<seq<string>>, star: Option<bool>)

  predicate Matches(m: Matcher, id: string) {
    m.star || id in m.exact || MatchesPrefix(m.prefixes, id)
  }

  predicate MatchesPrefix(prefixes: seq<string>, id: string) {
    exists p | p in prefixes :: p <= id
  }

  function Keep<T(==)>(xs: seq<T>, x: T): seq<T> {
    if x in xs then xs else xs + [x]
  }

  function KeepAll<T(==)>(xs: seq<T>, more: seq<T>): seq<T> {
    if more == [] then xs
    else Keep(KeepAll(xs, more[..|more| - 1]), more[|more| - 1])
  }

  lemma {:induction false} KeepAllMembers<T>(xs: seq<T>, more: seq<T>, x: T)
    ensures x in KeepAll(xs, more) <==> x in xs || x in more
  {
    if more != [] {
      KeepAllMembers(xs, more[..|more| - 1], x);
      assert more == more[..|more| - 1] + [more[|more| - 1]];
    }
  }

  // ---------- the semantic meet, for delegation ----------

  function MeetPair(pa: string, pb: string, kept: seq<string>): seq<string> {
    if pb <= pa then Keep(kept, pa) else if pa <= pb then Keep(kept, pb) else kept
  }

  function MeetRow(pa: string, pbs: seq<string>, kept: seq<string>): seq<string> {
    if pbs == [] then kept else MeetPair(pa, pbs[|pbs| - 1], MeetRow(pa, pbs[..|pbs| - 1], kept))
  }

  function MeetPrefixes(pas: seq<string>, pbs: seq<string>): seq<string> {
    if pas == [] then [] else MeetRow(pas[|pas| - 1], pbs, MeetPrefixes(pas[..|pas| - 1], pbs))
  }

  function Meet(a: Matcher, b: Matcher): Matcher {
    if a.star then b
    else if b.star then a
    else Matcher((set x | x in a.exact && Matches(b, x)) + (set x | x in b.exact && Matches(a, x)),
                 MeetPrefixes(a.prefixes, b.prefixes), false)
  }

  method IntersectResolvedMatchers(a: Matcher, b: Matcher) returns (r: Matcher)
    ensures r == Meet(a, b)
  {
    if a.star { return b; }
    if b.star { return a; }
    var exact: set<string> := {};
    var todo := a.exact;
    while todo != {}
      invariant todo <= a.exact
      invariant exact == set x | x in a.exact - todo && Matches(b, x)
      decreases todo
    {
      var x :| x in todo;
      if Matches(b, x) { exact := exact + {x}; }
      todo := todo - {x};
    }
    todo := b.exact;
    while todo != {}
      invariant todo <= b.exact
      invariant exact == (set x | x in a.exact && Matches(b, x)) + set x | x in b.exact - todo && Matches(a, x)
      decreases todo
    {
      var x :| x in todo;
      if Matches(a, x) { exact := exact + {x}; }
      todo := todo - {x};
    }
    var prefixes: seq<string> := [];
    for i := 0 to |a.prefixes|
      invariant prefixes == MeetPrefixes(a.prefixes[..i], b.prefixes)
    {
      var pa := a.prefixes[i];
      ghost var before := prefixes;
      for j := 0 to |b.prefixes|
        invariant prefixes == MeetRow(pa, b.prefixes[..j], before)
      {
        var pb := b.prefixes[j];
        assert b.prefixes[..j + 1][..j] == b.prefixes[..j];
        if pb <= pa {
          if pa !in prefixes { prefixes := prefixes + [pa]; }
        } else if pa <= pb {
          if pb !in prefixes { prefixes := prefixes + [pb]; }
        }
      }
      assert b.prefixes[..|b.prefixes|] == b.prefixes;
      assert a.prefixes[..i + 1][..i] == a.prefixes[..i];
    }
    assert a.prefixes[..|a.prefixes|] == a.prefixes;
    return Matcher(exact, prefixes, false);
  }

  lemma {:induction false} MeetRowKeeps(pa: string, pbs: seq<string>, kept: seq<string>, id: string)
    ensures MatchesPrefix(MeetRow(pa, pbs, kept), id)
            <==> MatchesPrefix(kept, id) || (pa <= id && MatchesPrefix(pbs, id))
  {
    if pbs != [] {
      var front, last := pbs[..|pbs| - 1], pbs[|pbs| - 1];
      var row := MeetRow(pa, front, kept);
      MeetRowKeeps(pa, front, kept, id);
      assert pbs == front + [last];
      AppendMatches(front, last, id);
      // Two prefixes of one string are comparable.
      if pa <= id && last <= id { assert pa == id[..|pa|] && last == id[..|last|]; }
      KeepMatches(row, pa, id);
      KeepMatches(row, last, id);
    }
  }

  lemma AppendMatches(prefixes: seq<string>, p: string, id: string)
    ensures MatchesPrefix(prefixes + [p], id) <==> MatchesPrefix(prefixes, id) || p <= id
  {
    if MatchesPrefix(prefixes, id) {
      var q :| q in prefixes && q <= id;
      assert q in prefixes + [p];
    }
    assert p in prefixes + [p];
  }

  lemma KeepMatches(prefixes: seq<string>, p: string, id: string)
    ensures MatchesPrefix(Keep(prefixes, p), id) <==> MatchesPrefix(prefixes, id) || p <= id
  {
    if p !in prefixes { AppendMatches(prefixes, p, id); }
  }

  lemma {:induction false} MeetPrefixesExact(pas: seq<string>, pbs: seq<string>, id: string)
    ensures MatchesPrefix(MeetPrefixes(pas, pbs), id) <==> MatchesPrefix(pas, id) && MatchesPrefix(pbs, id)
  {
    if pas != [] {
      var front, last := pas[..|pas| - 1], pas[|pas| - 1];
      MeetPrefixesExact(front, pbs, id);
      MeetRowKeeps(last, pbs, MeetPrefixes(front, pbs), id);
      assert pas == front + [last];
      AppendMatches(front, last, id);
    }
  }

  /** The meet matches an id exactly when both matchers do, for every mix of ids, prefixes and star. */
  lemma MeetIsExact(a: Matcher, b: Matcher, id: string)
    ensures Matches(Meet(a, b), id) <==> Matches(a, id) && Matches(b, id)
  {
    MeetPrefixesExact(a.prefixes, b.prefixes, id);
  }

  // ---------- the union, for denylists ----------

  function Union(a: Matcher, b: Matcher): Matcher {
    Matcher(a.exact + b.exact, KeepAll(a.prefixes, b.prefixes), a.star || b.star)
  }

  lemma {:induction false} KeepAllMatches(prefixes: seq<string>, more: seq<string>, id: string)
    ensures MatchesPrefix(KeepAll(prefixes, more), id) <==> MatchesPrefix(prefixes, id) || MatchesPrefix(more, id)
  {
    if more != [] {
      var front, last := more[..|more| - 1], more[|more| - 1];
      KeepAllMatches(prefixes, front, id);
      KeepMatches(KeepAll(prefixes, front), last, id);
      assert more == front + [last];
      AppendMatches(front, last, id);
    }
  }

  lemma UnionIsExact(a: Matcher, b: Matcher, id: string)
    ensures Matches(Union(a, b), id) <==> Matches(a, id) || Matches(b, id)
  {
    KeepAllMatches(a.prefixes, b.prefixes, id);
  }

  // ---------- author matchers ----------

  const STAR := "*"
  const DOT_STAR := ".*"

  predicate IsPattern(id: string) {
    |id| >= 2 && id[|id| - 2..] == DOT_STAR
  }

  function AddId(m: Matcher, id: string): Matcher {
    if id == STAR then m.(star := true)
    else if IsPattern(id) then m.(prefixes := m.prefixes + [id[..|id| - 1]])
    else m.(exact := m.exact + {id})
  }

  function AddIds(ids: seq<string>): Matcher {
    if ids == [] then EMPTY_MATCHER else AddId(AddIds(ids[..|ids| - 1]), ids[|ids| - 1])
  }

  function NormalizeMatcher(m: RawMatcher): Matcher {
    match m
    case Listed(ids) => AddIds(ids)
    case Parts(exact, prefixes, star) =>
      Matcher(if exact.Some? then set x | x in exact.value else {},
              if prefixes.Some? then prefixes.value else [],
              star.Some? && star.value)
  }

  method NormalizeToolMatcher(m: RawMatcher) returns (r: Matcher)
    ensures r == NormalizeMatcher(m)
  {
    if m.Parts? { return NormalizeMatcher(m); }
    var exact, prefixes, star := {}, [], false;
    for i := 0 to |m.ids|
      invariant Matcher(exact, prefixes, star) == AddIds(m.ids[..i])
    {
      var id := m.ids[i];
      assert m.ids[..i + 1][..i] == m.ids[..i];
      if id == STAR {
        star := true;
      } else if IsPattern(id) {
        prefixes := prefixes + [id[..|id| - 1]];
      } else {
        exact := exact + {id};
      }
    }
    assert m.ids[..|m.ids|] == m.ids;
    return Matcher(exact, prefixes, star);
  }

  /** What one listed entry allows. */
  predicate EntryMatches(entry: string, id: string) {
    if entry == STAR then true
    else if IsPattern(entry) then entry[..|entry| - 1] <= id
    else entry == id
  }

  lemma {:induction false} ListedMeaning(ids: seq<string>, id: string)
    ensures Matches(NormalizeMatcher(Listed(ids)), id) <==> exists e | e in ids :: EntryMatches(e, id)
  {
    if ids != [] {
      var front, last := ids[..|ids| - 1], ids[|ids| - 1];
      ListedMeaning(front, id);
      assert ids == front + [last];
      var m := AddIds(front);
      var n := AddIds(ids);
      if IsPattern(last) && last != STAR {
        AppendMatches(m.prefixes, last[..|last| - 1], id);
      }
      assert Matches(n, id) <==> Matches(m, id) || EntryMatches(last, id);
    }
  }

  // ---------- the structural intersection, for author layers ----------

  function Present<T>(fields: seq<Option<T>>): seq<T> {
    if fields == [] then []
    else if fields[0].None? then Present(fields[1..])
    else [fields[0].value] + Present(fields[1..])
  }

  function FilterIn(xs: seq<string>, ys: seq<string>): (r: seq<string>)
    ensures forall x :: x in r <==> x in xs && x in ys
  {
    if xs == [] then []
    else if xs[0] in ys then [xs[0]] + FilterIn(xs[1..], ys)
    else FilterIn(xs[1..], ys)
  }

  function Structural(a: Matcher, b: Matcher): Matcher {
    Matcher(a.exact * b.exact, FilterIn(a.prefixes, b.prefixes), a.star && b.star)
  }

  function StructuralAll(ms: seq<Matcher>): Matcher {
    if ms == [] then EMPTY_MATCHER
    else if |ms| == 1 then ms[0]
    else Structural(StructuralAll(ms[..|ms| - 1]), ms[|ms| - 1])
  }

  method IntersectToolMatchers(layers: seq<Option<RawMatcher>>) returns (r: Matcher)
    ensures r == StructuralAll(Normalized(layers))
  {
    var normalized := Normalized(layers);
    if normalized == [] { return EMPTY_MATCHER; }
    var acc := normalized[0];
    for i := 1 to |normalized|
      invariant acc == StructuralAll(normalized[..i])
    {
      assert normalized[..i + 1][..i] == normalized[..i];
      acc := Matcher(acc.exact * normalized[i].exact, FilterIn(acc.prefixes, normalized[i].prefixes),
                     acc.star && normalized[i].star);
    }
    assert normalized[..|normalized|] == normalized;
    return acc;
  }

  function Normalized(layers: seq<Option<RawMatcher>>): seq<Matcher> {
    var present := Present(layers);
    seq(|present|, i requires 0 <= i < |present| => NormalizeMatcher(present[i]))
  }

  /**
   * The structural intersection in full: every matcher has the star, or every matcher lists the id, or
   * one prefix of the id is listed by every matcher. It does not depend on the order of the layers.
   */
  lemma {:induction false} StructuralMeaning(ms: seq<Matcher>, id: string)
    requires ms != []
    ensures StructuralAll(ms).star <==> forall m | m in ms :: m.star
    ensures id in StructuralAll(ms).exact <==> forall m | m in ms :: id in m.exact
    ensures id in StructuralAll(ms).prefixes <==> forall m | m in ms :: id in m.prefixes
  {
    if |ms| > 1 {
      var front, last := ms[..|ms| - 1], ms[|ms| - 1];
      StructuralMeaning(front, id);
      assert ms == front + [last];
    }
  }

  ghost predicate CommonPrefix(ms: seq<Matcher>, p: string) {
    forall m | m in ms :: p in m.prefixes
  }

  lemma StructuralMatches(ms: seq<Matcher>, id: string)
    requires ms != []
    ensures Matches(StructuralAll(ms), id) <==>
            || (forall m | m in ms :: m.star)
            || (forall m | m in ms :: id in m.exact)
            || (exists p: string :: p <= id && CommonPrefix(ms, p))
  {
    StructuralMeaning(ms, id);
    var r := StructuralAll(ms);
    forall p: string ensures p in r.prefixes <==> CommonPrefix(ms, p) {
      StructuralMeaning(ms, p);
    }
  }

  /** So whatever it matches, every layer matches. */
  lemma StructuralIsLowerBound(ms: seq<Matcher>, m: Matcher, id: string)
    requires m in ms && Matches(StructuralAll(ms), id)
    ensures Matches(m, id)
  {
    StructuralMatches(ms, id);
  }

  /** It is not the meet: a star layer over a layer of plain ids leaves nothing. */
  lemma StructuralIsNotMeet()
    ensures var layers := [AddIds(["*"]), AddIds(["gh.list"])];
            && (forall m | m in layers :: Matches(m, "gh.list"))
            && !Matches(StructuralAll(layers), "gh.list")
  {
  }

  function UnionAll(layers: seq<Option<RawMatcher>>): Matcher {
    if layers == [] then EMPTY_MATCHER
    else
      var front, last := UnionAll(layers[..|layers| - 1]), layers[|layers| - 1];
      if last.None? then front else Union(front, NormalizeMatcher(last.value))
  }

  method UnionToolMatchers(layers: seq<Option<RawMatcher>>) returns (r: Matcher)
    ensures r == UnionAll(layers)
  {
    var exact, prefixes, star := {}, [], false;
    for i := 0 to |layers|
      invariant Matcher(exact, prefixes, star) == UnionAll(layers[..i])
    {
      assert layers[..i + 1][..i] == layers[..i];
      if layers[i].Some? {
        var n := NormalizeMatcher(layers[i].value);
        exact := exact + n.exact;
        ghost var before := prefixes;
        for j := 0 to |n.prefixes|
          invariant prefixes == KeepAll(before, n.prefixes[..j])
        {
          assert n.prefixes[..j + 1][..j] == n.prefixes[..j];
          if n.prefixes[j] !in prefixes { prefixes := prefixes + [n.prefixes[j]]; }
        }
        assert n.prefixes[..|n.prefixes|] == n.prefixes;
        if n.star { star := true; }
      }
    }
    assert layers[..|layers|] == layers;
    return Matcher(exact, prefixes, star);
  }

  lemma {:induction false} UnionAllIsExact(layers: seq<Option<RawMatcher>>, id: string)
    ensures Matches(UnionAll(layers), id) <==>
            exists l | l in layers :: l.Some? && Matches(NormalizeMatcher(l.value), id)
  {
    if layers != [] {
      var front, last := layers[..|layers| - 1], layers[|layers| - 1];
      UnionAllIsExact(front, id);
      assert layers == front + [last];
      if last.Some? { UnionIsExact(UnionAll(front), NormalizeMatcher(last.value), id); }
    }
  }

  lemma {:induction false} PresentMeaning<T>(fields: seq<Option<T>>, x: T)
    ensures x in Present(fields) <==> Some(x) in fields
  {
    if fields != [] { PresentMeaning(fields[1..], x); assert fields == [fields[0]] + fields[1..]; }
  }
}
