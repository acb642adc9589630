/** JavaScript's split and join on strings, and how they undo each other. */
module Strings {
  import opened Common

  predicate OccursAt(s: string, f: string, i: nat) {
    i <= |s| && f <= s[i..]
  }

  /** The first index from `start` on at which f occurs in s. */
  function IndexFrom(s: string, f: string, start: nat): (r: Option<nat>)
    ensures r.Some? ==> start <= r.value && r.value + |f| <= |s| && OccursAt(s, f, r.value)
    ensures r.Some? ==> forall j: nat | start <= j < r.value :: !OccursAt(s, f, j)
    ensures r.None? ==> forall j: nat | start <= j :: !OccursAt(s, f, j)
    decreases |s| - start
  {
    if OccursAt(s, f, start) then Some(start)
    else if start >= |s| then None
    else IndexFrom(s, f, start + 1)
  }

  function IndexOf(s: string, f: string): (r: Option<nat>)
    ensures r.Some? ==> r.value + |f| <= |s| && OccursAt(s, f, r.value)
    ensures r.Some? ==> forall j: nat | j < r.value :: !OccursAt(s, f, j)
    ensures r.None? ==> forall j: nat :: !OccursAt(s, f, j)
  {
    IndexFrom(s, f, 0)
  }

  /** s.split(f) for a non-empty separator: left to right, occurrences do not overlap. */
  function Split(s: string, f: string): (parts: seq<string>)
    requires f != ""
    ensures parts != []
    decreases |s|
  {
    match IndexOf(s, f)
    case None => [s]
    case Some(i) => [s[..i]] + Split(s[i + |f|..], f)
  }

  function Join(parts: seq<string>, sep: string): string {
    if parts == [] then ""
    else if |parts| == 1 then parts[0]
    else parts[0] + sep + Join(parts[1..], sep)
  }

  lemma {:induction false} JoinSplit(s: string, f: string)
    requires f != ""
    ensures Join(Split(s, f), f) == s
    decreases |s|
  {
    match IndexOf(s, f)
    case None =>
    case Some(i) =>
      var rest := s[i + |f|..];
      JoinSplit(rest, f);
      var tail := Split(rest, f);
      assert ([s[..i]] + tail)[1..] == tail;
      assert s == s[..i] + f + rest by {
        assert s[i..][..|f|] == f;
        assert s[i..i + |f|] == f;
      }
  }

  // ---------- one-character separators ----------

  ghost predicate Free(parts: seq<string>, c: char) {
    forall p | p in parts :: c !in p
  }

  lemma OccursAtChar(s: string, c: char, i: nat)
    ensures OccursAt(s, [c], i) <==> i < |s| && s[i] == c
  {
  }

  lemma {:induction false} SplitIsFree(s: string, c: char)
    ensures Free(Split(s, [c]), c)
    decreases |s|
  {
    match IndexOf(s, [c])
    case None =>
      forall i | 0 <= i < |s| ensures s[i] != c { OccursAtChar(s, c, i); }
    case Some(i) =>
      SplitIsFree(s[i + 1..], c);
      forall j: nat | j < i ensures s[..i][j] != c { OccursAtChar(s, c, j); }
  }

  lemma NoneOccurs(s: string, c: char)
    requires c !in s
    ensures Split(s, [c]) == [s]
  {
    forall i: nat ensures !OccursAt(s, [c], i) { OccursAtChar(s, c, i); }
  }

  lemma FirstOccurs(piece: string, rest: string, c: char)
    requires c !in piece
    ensures IndexOf(piece + [c] + rest, [c]) == Some(|piece|)
  {
    var s, i := piece + [c] + rest, |piece|;
    assert s[i] == c;
    forall j: nat | j < i ensures !OccursAt(s, [c], j) {
      OccursAtChar(s, c, j);
      assert s[j] == piece[j];
    }
    OccursAtChar(s, c, i);
  }

  lemma SplitFirst(piece: string, rest: string, c: char)
    requires c !in piece
    ensures Split(piece + [c] + rest, [c]) == [piece] + Split(rest, [c])
  {
    FirstOccurs(piece, rest, c);
    var s := piece + [c] + rest;
    assert s[..|piece|] == piece && s[|piece| + |[c]|..] == rest;
  }

  /** A list of separator-free pieces is what its joined text splits into. */
  lemma {:induction false} SplitJoin(parts: seq<string>, c: char)
    requires parts != [] && Free(parts, c)
    ensures Split(Join(parts, [c]), [c]) == parts
  {
    assert parts[0] in parts;
    if |parts| == 1 {
      NoneOccurs(parts[0], c);
      assert parts == [parts[0]];
    } else {
      assert forall p | p in parts[1..] :: p in parts;
      SplitJoin(parts[1..], c);
      SplitFirst(parts[0], Join(parts[1..], [c]), c);
      assert parts == [parts[0]] + parts[1..];
    }
  }

  lemma {:induction false} JoinConcat(a: seq<string>, b: seq<string>, sep: string)
    requires a != [] && b != []
    ensures Join(a + b, sep) == Join(a, sep) + sep + Join(b, sep)
  {
    if |a| == 1 {
      assert (a + b)[1..] == b;
    } else {
      assert (a + b)[1..] == a[1..] + b;
      JoinConcat(a[1..], b, sep);
    }
  }

  // ---------- decimal numerals ----------

  function Decimal(n: nat): (s: string)
    ensures s != ""
    ensures forall c | c in s :: '0' <= c <= '9'
  {
    var digit := ["0", "1", "2", "3", "4", "5", "6", "7", "8", "9"][n % 10];
    if n < 10 then digit else Decimal(n / 10) + digit
  }
}
