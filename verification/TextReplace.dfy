/** What edit_file's replace paths and read_file's line ranges do, occurrence by occurrence and line by line. */
module TextReplace {
  import opened Common

  import opened Strings
  import opened TextEdit

  // ---------- every occurrence, from the left ----------

  /** Occurrences that do not overlap are counted from the left. */
  lemma CountWalk(s: string, f: string)
    requires f != ""
    ensures Count(s, f) == match IndexOf(s, f)
                           case None => 0
                           case Some(i) => 1 + Count(s[i + |f|..], f)
  {
  }

  /** What an edit answers, by how often the text occurs. */
  lemma EditAnswers(s: string, f: string, r: string, all: bool)
    ensures f == "" ==> EditFind(s, f, r, all) == Err(EmptyFind)
    ensures f != "" && IndexOf(s, f).None? ==> EditFind(s, f, r, all) == Err(NotFound)
    ensures f != "" && IndexOf(s, f).Some? && !all && IndexOf(s[IndexOf(s, f).value + |f|..], f).Some? ==>
              EditFind(s, f, r, all) == Err(Ambiguous(Count(s, f)))
    ensures f != "" && IndexOf(s, f).Some? && (all || IndexOf(s[IndexOf(s, f).value + |f|..], f).None?) ==>
              EditFind(s, f, r, all).Ok?
  {
    if f != "" {
      CountWalk(s, f);
      if IndexOf(s, f).Some? { CountWalk(s[IndexOf(s, f).value + |f|..], f); }
    }
  }

  lemma JoinedAround(s: string, f: string, r: string)
    requires f != ""
    ensures ReplaceAll(s, f, r) == match IndexOf(s, f)
                                   case None => s
                                   case Some(i) => s[..i] + r + ReplaceAll(s[i + |f|..], f, r)
  {
    match IndexOf(s, f)
    case None =>
    case Some(i) =>
      var tail := Split(s[i + |f|..], f);
      assert ([s[..i]] + tail)[1..] == tail;
  }

  /**
   * Replacing all: the text up to the first occurrence, the replacement as it is, and the rest, edited in the same way
   * if the text occurs in it and unchanged otherwise.
   */
  lemma ReplaceAllWalk(s: string, f: string, r: string)
    requires f != "" && IndexOf(s, f).Some?
    ensures var i := IndexOf(s, f).value;
            var rest := s[i + |f|..];
            && (IndexOf(rest, f).None? ==> EditFind(s, f, r, true) == Ok(s[..i] + r + rest))
            && (IndexOf(rest, f).Some? ==>
                  && EditFind(rest, f, r, true).Ok?
                  && EditFind(s, f, r, true) == Ok(s[..i] + r + EditFind(rest, f, r, true).value))
  {
    var rest := s[IndexOf(s, f).value + |f|..];
    CountWalk(s, f);
    CountWalk(rest, f);
    JoinedAround(s, f, r);
    JoinedAround(rest, f, r);
  }

  /** Replacing every occurrence of a character leaves none of it behind, unless the replacement brings it in. */
  lemma {:induction false} ReplaceAllRemoves(s: string, c: char, r: string)
    requires c in s && c !in r
    ensures EditFind(s, [c], r, true).Ok? && c !in EditFind(s, [c], r, true).value
    decreases |s|
  {
    var k :| 0 <= k < |s| && s[k] == c;
    OccursAtChar(s, c, k);
    var i := IndexOf(s, [c]).value;
    var rest := s[i + 1..];
    ReplaceAllWalk(s, [c], r);
    forall j: nat | j < i ensures s[..i][j] != c { OccursAtChar(s, c, j); }
    if IndexOf(rest, [c]).Some? {
      OccursAtChar(rest, c, IndexOf(rest, [c]).value);
      ReplaceAllRemoves(rest, c, r);
    } else {
      forall j: nat | j < |rest| ensures rest[j] != c { OccursAtChar(rest, c, j); }
    }
  }

  /** Replacing all and replacing back gives the file as it was, when the replacement is a character new to it. */
  lemma ReplaceAllUndone(s: string, c: char, d: char)
    requires c in s && d !in s
    ensures EditFind(s, [c], [d], true).Ok?
    ensures EditFind(EditFind(s, [c], [d], true).value, [d], [c], true) == Ok(s)
  {
    var parts := Split(s, [c]);
    SplitIsFree(s, c);
    JoinSplit(s, [c]);
    var k :| 0 <= k < |s| && s[k] == c;
    OccursAtChar(s, c, k);
    EditAnswers(s, [c], [d], true);
    PiecesAreFree(s, c, d);
    SplitJoin(parts, d);
  }

  lemma {:induction false} PiecesAreFree(s: string, c: char, d: char)
    requires d !in s
    ensures Free(Split(s, [c]), d)
    decreases |s|
  {
    match IndexOf(s, [c])
    case None =>
    case Some(i) => PiecesAreFree(s[i + 1..], c, d);
  }

  // ---------- the replacement patterns of a single edit ----------

  /**
   * A single edit with a `$` pattern: "$$" writes a dollar, "$&" the text itself, "$`" what precedes it and "$'" what
   * follows it. So replacing by "$&" changes nothing.
   */
  lemma DollarPatterns(s: string, f: string)
    requires f != "" && Count(s, f) == 1
    ensures IndexOf(s, f).Some?
    ensures var i := IndexOf(s, f).value;
            var before, after := s[..i], s[i + |f|..];
            && EditFind(s, f, "$$", false) == Ok(before + "$" + after)
            && EditFind(s, f, "$&", false) == Ok(s)
            && EditFind(s, f, "$`", false) == Ok(before + before + after)
            && EditFind(s, f, "$'", false) == Ok(before + after + after)
  {
    OneOccurrence(s, f);
    var i := IndexOf(s, f).value;
    var before, after := s[..i], s[i + |f|..];
    PatternsExpand(f, before, after);
    assert s == before + f + after by { assert s[i..][..|f|] == f; }
  }

  lemma PatternsExpand(f: string, before: string, after: string)
    ensures Expand("$$", f, before, after) == "$" && Expand("$&", f, before, after) == f
    ensures Expand("$`", f, before, after) == before && Expand("$'", f, before, after) == after
  {
    assert "$$"[2..] == "" && "$&"[2..] == "" && "$`"[2..] == "" && "$'"[2..] == "";
  }

  /** The text that a pattern character after a dollar stands for. */
  function Stands(c: char, f: string, before: string, after: string): Option<string> {
    match c
    case '$' => Some("$")
    case '&' => Some(f)
    case '`' => Some(before)
    case '\'' => Some(after)
    case _ => None
  }

  /** Expansion goes from the left, character by character or pattern by pattern. */
  lemma ExpandFromTheLeft(r: string, f: string, before: string, after: string)
    ensures Expand("", f, before, after) == ""
    ensures r != "" ==>
              Expand(r, f, before, after)
              == if |r| > 1 && r[0] == '$' && Stands(r[1], f, before, after).Some?
                 then Stands(r[1], f, before, after).value + Expand(r[2..], f, before, after)
                 else [r[0]] + Expand(r[1..], f, before, after)
  {
  }

  // ---------- line ranges ----------

  /** Line k, counted from one, is in a read's range exactly when neither bound excludes it. */
  lemma ReadCoversIff(startLine: Option<real>, endLine: Option<real>, lines: nat, k: nat)
    requires 1 <= k <= lines
    ensures StartOf(startLine) <= k <= ReadEnd(endLine, lines) <==>
            && (startLine.Some? ==> startLine.value < k as real + 1.0)
            && (endLine.Some? ==> k as real <= endLine.value)
  {
  }

  /** An edit without an end edits one line, that of its start, or the first line for a start below it. */
  lemma EditCoversIff(startLine: Option<real>, endLine: Option<real>, lines: nat, k: nat)
    requires 1 <= k <= lines
    ensures StartOf(startLine) <= k <= EditEnd(startLine, endLine, lines) <==>
            && (startLine.Some? ==> startLine.value < k as real + 1.0)
            && (if endLine.Some? then k as real <= endLine.value
                else k == 1 || (startLine.Some? && k as real <= startLine.value))
  {
  }

  lemma ReadLinesNumbers(lines: seq<string>, start: int, end: int)
    requires Free(lines, '\n') && 1 <= start <= end <= |lines|
    ensures Split(ReadLines(lines, start, end).value, NEWLINE) == Number(lines[start - 1..end], start)
  {
    NumberedRoundTrip(lines[start - 1..end], start);
  }

  lemma NumberedAt(lines: seq<string>, first: nat, j: nat)
    requires j < |lines|
    ensures Number(lines, first)[j] == Decimal(first + j) + "\t" + lines[j]
  {
  }

  lemma NumberedSlice(lines: seq<string>, start: int, end: int, j: nat)
    requires Free(lines, '\n') && 1 <= start <= end <= |lines|
    ensures var shown := Split(ReadLines(lines, start, end).value, NEWLINE);
            && |shown| == end - start + 1
            && (j < |shown| ==> shown[j] == Decimal(start + j) + "\t" + lines[start - 1 + j])
  {
    ReadLinesNumbers(lines, start, end);
    if j < end - start + 1 { NumberedAt(lines[start - 1..end], start, j); }
  }

  /** The j-th line a read returns is its line number, a tab, and the line. */
  lemma ReadNumbersItsLines(raw: string, startLine: Option<real>, endLine: Option<real>, j: nat)
    requires ReadFile(raw, startLine, endLine).Ok?
    ensures var shown, lines := Split(ReadFile(raw, startLine, endLine).value, "\n"), Split(raw, "\n");
            var k := StartOf(startLine) + j;
            && |shown| == ReadEnd(endLine, |lines|) - StartOf(startLine) + 1
            && (j < |shown| ==> 1 <= k <= |lines| && shown[j] == Decimal(k) + "\t" + lines[k - 1])
  {
    var lines := Split(raw, NEWLINE);
    var start, end := StartOf(startLine), ReadEnd(endLine, |lines|);
    assert ReadFile(raw, startLine, endLine) == ReadLines(lines, start, end);
    assert Free(lines, '\n') by { SplitIsFree(raw, '\n'); }
    NumberedSlice(lines, start, end, j);
  }

  /** Reads and edits fail exactly on an empty range, and say which. */
  lemma EmptyRangesAreRefused(raw: string, replace: string, startLine: Option<real>, endLine: Option<real>)
    ensures var lines, start := |Split(raw, "\n")|, StartOf(startLine);
            && (ReadFile(raw, startLine, endLine).Err? <==> start > ReadEnd(endLine, lines))
            && (ReadFile(raw, startLine, endLine).Err? ==>
                  ReadFile(raw, startLine, endLine).error == StartAfterEnd(start, ReadEnd(endLine, lines)))
            && (EditRange(raw, replace, startLine, endLine).Err? <==> start > EditEnd(startLine, endLine, lines))
            && (EditRange(raw, replace, startLine, endLine).Err? ==>
                  EditRange(raw, replace, startLine, endLine).error
                  == StartAfterEnd(start, EditEnd(startLine, endLine, lines)))
  {
  }

  // ---------- numerals ----------

  function ValueOf(digits: string): int {
    if digits == "" then 0 else 10 * ValueOf(digits[..|digits| - 1]) + (digits[|digits| - 1] as int - '0' as int)
  }

  /** A line number is written in decimal, without leading zeros. */
  lemma {:induction false} DecimalMeaning(n: nat)
    ensures ValueOf(Decimal(n)) == n
    ensures n > 0 ==> Decimal(n)[0] != '0'
  {
    var digits := Decimal(n);
    if n >= 10 {
      DecimalMeaning(n / 10);
      assert digits[..|digits| - 1] == Decimal(n / 10);
    } else {
      assert digits[..0] == "" && |digits| == 1;
    }
  }
}
