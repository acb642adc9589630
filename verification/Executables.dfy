/** Executable allow-lists: exact paths below bare names (packages/core/src/permissions.ts). */
module Executables {
  import opened Common
  import opened Matchers

  predicate IsSeparator(c: char) {
    c == '/' || c == '\\'
  }

  predicate HasPathSeparator(value: string) {
    exists c | c in value :: IsSeparator(c)
  }

  function Basename(value: string): string {
    if value == "" || IsSeparator(value[|value| - 1]) then ""
    else Basename(value[..|value| - 1]) + [value[|value| - 1]]
  }

  function IntersectEntry(left: string, right: string): Option<string> {
    if left == right then Some(left)
    else if HasPathSeparator(left) && !HasPathSeparator(right) && Basename(left) == right then Some(left)
    else if !HasPathSeparator(left) && HasPathSeparator(right) && left == Basename(right) then Some(right)
    else None
  }

  function IntersectSets(acc: set<string>, layer: set<string>): set<string> {
    set l, r | l in acc && r in layer && IntersectEntry(l, r).Some? :: IntersectEntry(l, r).value
  }

  function Entries(list: seq<string>): set<string> {
    set x | x in list
  }

  function EntrySets(lists: seq<seq<string>>): seq<set<string>> {
    seq(|lists|, i requires 0 <= i < |lists| => Entries(lists[i]))
  }

  function IntersectLayers(layers: seq<set<string>>): set<string> {
    if layers == [] then {}
    else if |layers| == 1 then layers[0]
    else IntersectSets(IntersectLayers(layers[..|layers| - 1]), layers[|layers| - 1])
  }

  method IntersectExecutables(arrays: seq<Option<seq<string>>>) returns (acc: set<string>)
    ensures acc == IntersectLayers(EntrySets(Present(arrays)))
  {
    var present := Present(arrays);
    if present == [] { return {}; }
    acc := Entries(present[0]);
    ghost var layers := EntrySets(present);
    for i := 1 to |present|
      invariant acc == IntersectLayers(layers[..i])
    {
      var next: set<string> := {};
      var todo := acc;
      while todo != {}
        invariant todo <= acc
        invariant next == IntersectSets(acc - todo, layers[i])
        decreases todo
      {
        var left :| left in todo;
        ghost var before := next;
        for j := 0 to |present[i]|
          invariant next == before + IntersectSets({left}, Entries(present[i][..j]))
        {
          var right := present[i][j];
          assert Entries(present[i][..j + 1]) == Entries(present[i][..j]) + {right};
          var entry := IntersectEntry(left, right);
          if entry.Some? { next := next + {entry.value}; }
        }
        assert present[i][..|present[i]|] == present[i];
        assert acc - (todo - {left}) == (acc - todo) + {left};
        todo := todo - {left};
      }
      assert acc - todo == acc;
      assert layers[..i + 1][..i] == layers[..i];
      acc := next;
    }
    assert layers[..|present|] == layers;
  }

  /** The bare name of a path is what follows its last separator, of either kind; a bare name is its own. */
  lemma {:induction false} BareName(dir: string, separator: char, name: string)
    requires separator == '/' || separator == '\\'
    requires '/' !in name && '\\' !in name
    ensures HasPathSeparator(dir + [separator] + name) && !HasPathSeparator(name)
    ensures Basename(dir + [separator] + name) == name && Basename(name) == name
  {
    var path := dir + [separator] + name;
    assert path[|dir|] == separator && IsSeparator(path[|dir|]);
    if name == "" {
      assert path[|path| - 1] == separator;
    } else {
      var front, last := name[..|name| - 1], name[|name| - 1];
      assert name == front + [last] && last in name;
      BareName(dir, separator, front);
      assert path[..|path| - 1] == dir + [separator] + front && path[|path| - 1] == last;
    }
  }

  // ---------- the order behind the intersection ----------

  /** The entry is granted by the allow-list entry l: the same string, or a path to the bare name l. */
  predicate CoveredBy(e: string, l: string) {
    e == l || (HasPathSeparator(e) && !HasPathSeparator(l) && Basename(e) == l)
  }

  predicate Covered(e: string, layer: set<string>) {
    exists l | l in layer :: CoveredBy(e, l)
  }

  ghost predicate CoveredByAll(e: string, layers: seq<set<string>>) {
    forall layer | layer in layers :: Covered(e, layer)
  }

  ghost predicate ListedInSome(e: string, layers: seq<set<string>>) {
    exists layer | layer in layers :: e in layer
  }

  lemma EntryIsMeet(left: string, right: string, e: string)
    ensures IntersectEntry(left, right) == Some(e) <==>
            CoveredBy(e, left) && CoveredBy(e, right) && (e == left || e == right)
  {
  }

  lemma InIntersectSets(acc: set<string>, layer: set<string>, e: string)
    ensures e in IntersectSets(acc, layer) <==>
            exists l, r :: l in acc && r in layer && CoveredBy(e, l) && CoveredBy(e, r) && (e == l || e == r)
  {
  }

  /**
   * An executable survives exactly when some layer lists it and every layer covers it. Neither side mentions
   * an order, so the result does not depend on the order of the layers.
   */
  lemma {:induction false} IntersectionMeaning(layers: seq<set<string>>, e: string)
    requires layers != []
    ensures e in IntersectLayers(layers) <==> ListedInSome(e, layers) && CoveredByAll(e, layers)
    decreases |layers|, 0
  {
    if |layers| == 1 {
      assert layers[0] in layers;
      if e in layers[0] { assert CoveredBy(e, e); }
    } else {
      var front, last := layers[..|layers| - 1], layers[|layers| - 1];
      assert layers == front + [last];
      assert last in layers;
      var acc := IntersectLayers(front);
      InIntersectSets(acc, last, e);
      IntersectionMeaning(front, e);
      if e in IntersectLayers(layers) {
        SurvivorIsListedAndCovered(front, last, e);
      } else if ListedInSome(e, layers) && CoveredByAll(e, layers) {
        ListedAndCoveredSurvives(front, last, e);
      }
    }
  }

  lemma {:induction false} SurvivorIsListedAndCovered(front: seq<set<string>>, last: set<string>, e: string)
    requires front != [] && e in IntersectSets(IntersectLayers(front), last)
    ensures ListedInSome(e, front + [last]) && CoveredByAll(e, front + [last])
    decreases |front|, 1
  {
    InIntersectSets(IntersectLayers(front), last, e);
    var l, r :| l in IntersectLayers(front) && r in last && CoveredBy(e, l) && CoveredBy(e, r) && (e == l || e == r);
    IntersectionMeaning(front, l);
    forall layer | layer in front ensures Covered(e, layer) {
      assert Covered(l, layer);
      var m :| m in layer && CoveredBy(l, m);
      assert CoveredBy(e, m);
    }
    assert Covered(e, last);
    if e == l {
      var layer :| layer in front && e in layer;
      assert layer in front + [last];
    } else {
      assert last in front + [last];
    }
  }

  lemma {:induction false} ListedAndCoveredSurvives(front: seq<set<string>>, last: set<string>, e: string)
    requires front != []
    requires ListedInSome(e, front + [last]) && CoveredByAll(e, front + [last])
    ensures e in IntersectSets(IntersectLayers(front), last)
    decreases |front|, 1
  {
    assert last in front + [last];
    var r :| r in last && CoveredBy(e, r);
    forall layer | layer in front ensures Covered(e, layer) {
      assert layer in front + [last];
    }
    InIntersectSets(IntersectLayers(front), last, e);
    if ListedInSome(e, front) {
      IntersectionMeaning(front, e);
      assert CoveredBy(e, e);
    } else {
      // Only the last layer lists e, so every earlier layer covers it by its bare name.
      assert e in last;
      var bare := Basename(e);
      forall layer | layer in front ensures bare in layer && !HasPathSeparator(bare) {
        var m :| m in layer && CoveredBy(e, m);
      }
      assert front[0] in front;
      assert ListedInSome(bare, front);
      forall layer | layer in front ensures Covered(bare, layer) {
        assert CoveredBy(bare, bare);
      }
      IntersectionMeaning(front, bare);
      assert CoveredBy(e, bare) && CoveredBy(e, e);
    }
  }

  lemma NonEmptyHasMember<T>(xs: seq<T>)
    ensures xs == [] || exists x :: x in xs
  {
    if xs != [] { assert xs[0] in xs; }
  }

  lemma LayerOrderIsIrrelevant(layers: seq<set<string>>, permuted: seq<set<string>>)
    requires forall layer :: layer in layers <==> layer in permuted
    ensures IntersectLayers(layers) == IntersectLayers(permuted)
  {
    if layers == [] {
      NonEmptyHasMember(permuted);
    } else {
      assert layers[0] in layers;
      forall e ensures e in IntersectLayers(layers) <==> e in IntersectLayers(permuted) {
        IntersectionMeaning(layers, e);
        IntersectionMeaning(permuted, e);
      }
    }
  }
}
