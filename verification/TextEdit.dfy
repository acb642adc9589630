/** The agent's read_file and edit_file tools, after the permission check (packages/agent/src/tools.ts). */
module TextEdit {
  import opened Common
  import opened Strings

  const NEWLINE := "\n"

  datatype ToolError =
    | OneModeRequired
    | ReplaceRequired
    | EmptyFind
    | NotFound
    | Ambiguous(count: int)
    | StartAfterEnd(start: int, end: int)

  datatype EditArgs = EditArgs(
    find: Option<string>,
    replace: Option<string>,
    replaceAll: bool,
    startLine: Option<real>,
    endLine: Option<real>)

  function Max(a: int, b: int): int { if a >= b then a else b }

  function Min(a: int, b: int): int { if a <= b then a else b }

  // ---------- read_file ----------

  function StartOf(startLine: Option<real>): int {
    if startLine.Some? then Max(1, startLine.value.Floor) else 1
  }

  function ReadEnd(endLine: Option<real>, lines: nat): int {
    if endLine.Some? then Min(lines, endLine.value.Floor) else lines
  }

  function NumberLine(n: nat, line: string): string {
    Decimal(n) + "\t" + line
  }

  function Number(lines: seq<string>, first: nat): seq<string> {
    seq(|lines|, i requires 0 <= i < |lines| => NumberLine(first + i, lines[i]))
  }

  function ReadFile(raw: string, startLine: Option<real>, endLine: Option<real>): Result<string, ToolError> {
    var lines := Split(raw, NEWLINE);
    ReadLines(lines, StartOf(startLine), ReadEnd(endLine, |lines|))
  }

  function ReadLines(lines: seq<string>, start: int, end: int): Result<string, ToolError>
    requires 1 <= start && end <= |lines|
  {
    if start > end then Err(StartAfterEnd(start, end))
    else Ok(Join(Number(lines[start - 1..end], start), NEWLINE))
  }

  // ---------- edit_file ----------

  /** The replacement text as String.prototype.replace reads it when the pattern is a string. */
  function Expand(r: string, matched: string, before: string, after: string): string {
    if |r| < 2 || r[0] != '$' then (if r == "" then "" else [r[0]] + Expand(r[1..], matched, before, after))
    else match r[1]
      case '$' => "$" + Expand(r[2..], matched, before, after)
      case '&' => matched + Expand(r[2..], matched, before, after)
      case '`' => before + Expand(r[2..], matched, before, after)
      case '\'' => after + Expand(r[2..], matched, before, after)
      case _ => "$" + Expand(r[1..], matched, before, after)
  }

  function ReplaceFirst(s: string, f: string, r: string): string {
    match IndexOf(s, f)
    case None => s
    case Some(i) =>
      var before, after := s[..i], s[i + |f|..];
      before + Expand(r, f, before, after) + after
  }

  function ReplaceAll(s: string, f: string, r: string): string
    requires f != ""
  {
    Join(Split(s, f), r)
  }

  function Count(s: string, f: string): nat
    requires f != ""
  {
    |Split(s, f)| - 1
  }

  function EditEnd(startLine: Option<real>, endLine: Option<real>, lines: nat): int {
    Min(lines, if endLine.Some? then endLine.value.Floor else StartOf(startLine))
  }

  function EditRange(original: string, replace: string, startLine: Option<real>, endLine: Option<real>)
    : Result<string, ToolError>
  {
    var lines := Split(original, NEWLINE);
    var start, end := StartOf(startLine), EditEnd(startLine, endLine, |lines|);
    if start > end then Err(StartAfterEnd(start, end))
    else Ok(Join(lines[..start - 1] + Split(replace, NEWLINE) + lines[end..], NEWLINE))
  }

  function EditFind(original: string, find: string, replace: string, replaceAll: bool): Result<string, ToolError> {
    if find == "" then Err(EmptyFind)
    else if Count(original, find) == 0 then Err(NotFound)
    else if Count(original, find) > 1 && !replaceAll then Err(Ambiguous(Count(original, find)))
    else Ok(if replaceAll then ReplaceAll(original, find, replace) else ReplaceFirst(original, find, replace))
  }

  /** The handler: it checks its arguments, then edits a copy of the file's lines or text. */
  method EditFile(original: string, p: EditArgs) returns (r: Result<string, ToolError>)
    ensures var rangeMode := p.startLine.Some? || p.endLine.Some?;
            if rangeMode == p.find.Some? then r == Err(OneModeRequired)
            else if p.replace.None? then r == Err(ReplaceRequired)
            else if rangeMode then r == EditRange(original, p.replace.value, p.startLine, p.endLine)
            else r == EditFind(original, p.find.value, p.replace.value, p.replaceAll)
  {
    var rangeMode := p.startLine.Some? || p.endLine.Some?;
    var findMode := p.find.Some?;
    if rangeMode == findMode { return Err(OneModeRequired); }
    if p.replace.None? { return Err(ReplaceRequired); }
    var updated: string;
    if findMode {
      var find := p.find.value;
      if |find| == 0 { return Err(EmptyFind); }
      var count := |Split(original, find)| - 1;
      if count == 0 { return Err(NotFound); }
      if count > 1 && !p.replaceAll { return Err(Ambiguous(count)); }
      updated := if p.replaceAll then Join(Split(original, find), p.replace.value)
                 else ReplaceFirst(original, find, p.replace.value);
    } else {
      var lines := Split(original, NEWLINE);
      var start := StartOf(p.startLine);
      var end := EditEnd(p.startLine, p.endLine, |lines|);
      if start > end { return Err(StartAfterEnd(start, end)); }
      var replacementLines := Split(p.replace.value, NEWLINE);
      lines := lines[..start - 1] + replacementLines + lines[end..];
      updated := Join(lines, NEWLINE);
    }
    return Ok(updated);
  }

  // ---------- range edits ----------

  /** The edited file's lines are the old ones with exactly the range replaced: nothing outside it moves or changes. */
  lemma RangeEditReplacesExactlyTheRange(original: string, replace: string, startLine: Option<real>,
                                         endLine: Option<real>)
    requires EditRange(original, replace, startLine, endLine).Ok?
    ensures var lines := Split(original, NEWLINE);
            var start, end := StartOf(startLine), EditEnd(startLine, endLine, |lines|);
            && 1 <= start <= end <= |lines|
            && Split(EditRange(original, replace, startLine, endLine).value, NEWLINE)
               == lines[..start - 1] + Split(replace, NEWLINE) + lines[end..]
  {
    var lines := Split(original, NEWLINE);
    var start, end := StartOf(startLine), EditEnd(startLine, endLine, |lines|);
    SplitIsFree(original, '\n');
    SplitIsFree(replace, '\n');
    SplitJoin(lines[..start - 1] + Split(replace, NEWLINE) + lines[end..], '\n');
  }

  /** What the model sees of a numbered line once the number is cut off. */
  function Unnumber(line: string): string {
    match IndexOf(line, "\t")
    case None => line
    case Some(i) => line[i + 1..]
  }

  function UnnumberAll(lines: seq<string>): seq<string> {
    seq(|lines|, i requires 0 <= i < |lines| => Unnumber(lines[i]))
  }

  lemma UnnumberNumbered(n: nat, line: string)
    ensures Unnumber(NumberLine(n, line)) == line
  {
    var d := Decimal(n);
    var s := NumberLine(n, line);
    assert s == d + ("\t" + line);
    forall j: nat | j < |d| ensures !OccursAt(s, "\t", j) {
      OccursAtChar(s, '\t', j);
      assert s[j] == d[j] && d[j] in d;
    }
    OccursAtChar(s, '\t', |d|);
    assert IndexOf(s, "\t") == Some(|d|);
  }

  lemma NumbersCutOff(lines: seq<string>, first: nat)
    ensures UnnumberAll(Number(lines, first)) == lines
  {
    var numbered := Number(lines, first);
    forall i | 0 <= i < |lines| ensures Unnumber(numbered[i]) == lines[i] {
      UnnumberNumbered(first + i, lines[i]);
    }
  }

  /** Numbering lines, joining them, splitting again and cutting the numbers off gives the lines back. */
  lemma NumberedRoundTrip(lines: seq<string>, first: nat)
    requires lines != [] && Free(lines, '\n')
    ensures Split(Join(Number(lines, first), NEWLINE), NEWLINE) == Number(lines, first)
    ensures UnnumberAll(Split(Join(Number(lines, first), NEWLINE), NEWLINE)) == lines
  {
    SplitJoin(Number(lines, first), '\n');
    NumbersCutOff(lines, first);
  }

  /** The lines a successful read returns, numbers cut off, are the file's lines in that range. */
  lemma ReadReturnsTheRange(raw: string, startLine: Option<real>, endLine: Option<real>)
    requires ReadFile(raw, startLine, endLine).Ok?
    ensures var lines := Split(raw, NEWLINE);
            var start, end := StartOf(startLine), ReadEnd(endLine, |lines|);
            && 1 <= start <= end <= |lines|
            && UnnumberAll(Split(ReadFile(raw, startLine, endLine).value, NEWLINE)) == lines[start - 1..end]
  {
    SplitIsFree(raw, '\n');
    SliceReads(Split(raw, NEWLINE), StartOf(startLine), ReadEnd(endLine, |Split(raw, NEWLINE)|));
  }

  lemma SliceReads(lines: seq<string>, start: int, end: int)
    requires Free(lines, '\n') && 1 <= start <= end <= |lines|
    ensures UnnumberAll(Split(ReadLines(lines, start, end).value, NEWLINE)) == lines[start - 1..end]
  {
    NumberedRoundTrip(lines[start - 1..end], start);
  }

  lemma PutBack(lines: seq<string>, from: nat, to: nat)
    requires from <= to <= |lines|
    ensures lines[..from] + lines[from..to] + lines[to..] == lines
  {
  }

  /**
   * Reading an explicit range and writing back the lines it returned leaves the file as it was; and the two
   * tools refuse the same ranges.
   */
  lemma WritingBackWhatWasReadChangesNothing(raw: string, startLine: real, endLine: real)
    ensures var read := ReadFile(raw, Some(startLine), Some(endLine));
            && (read.Ok? ==>
                  EditRange(raw, Join(UnnumberAll(Split(read.value, NEWLINE)), NEWLINE), Some(startLine), Some(endLine))
                  == Ok(raw))
            && (read.Err? ==> forall replace :: EditRange(raw, replace, Some(startLine), Some(endLine)) == read)
  {
    var read := ReadFile(raw, Some(startLine), Some(endLine));
    var lines := Split(raw, NEWLINE);
    var start, end := StartOf(Some(startLine)), ReadEnd(Some(endLine), |lines|);
    if read.Ok? {
      ReadReturnsTheRange(raw, Some(startLine), Some(endLine));
      SplitIsFree(raw, '\n');
      SplitJoin(lines[start - 1..end], '\n');
      PutBack(lines, start - 1, end);
      JoinSplit(raw, NEWLINE);
    }
  }

  /** Reading the edited range back returns the replacement's lines. */
  lemma ReadingBackAnEdit(original: string, replace: string, startLine: Option<real>, endLine: Option<real>,
                          first: int, last: int)
    requires EditRange(original, replace, startLine, endLine).Ok?
    requires first == StartOf(startLine) && last == first + |Split(replace, NEWLINE)| - 1
    ensures ReadFile(EditRange(original, replace, startLine, endLine).value, Some(first as real), Some(last as real))
            == Ok(Join(Number(Split(replace, NEWLINE), first), NEWLINE))
  {
    var before, lines := Split(original, NEWLINE), Split(replace, NEWLINE);
    var updated := EditRange(original, replace, startLine, endLine).value;
    RangeEditReplacesExactlyTheRange(original, replace, startLine, endLine);
  }

  // ---------- find and replace ----------

  lemma OneOccurrence(s: string, f: string)
    requires f != "" && Count(s, f) == 1
    ensures IndexOf(s, f).Some?
    ensures var i := IndexOf(s, f).value;
            Split(s, f) == [s[..i], s[i + |f|..]] && IndexOf(s[i + |f|..], f).None?
  {
  }

  lemma SameMiddle(before: string, a: string, b: string, after: string)
    ensures before + a + after == before + b + after <==> a == b
  {
    var i := |before|;
    if before + a + after == before + b + after {
      assert |a| == |b|;
      assert a == (before + a + after)[i..i + |a|] && b == (before + b + after)[i..i + |b|];
    }
  }

  lemma JoinTwo(before: string, after: string, sep: string)
    ensures Join([before, after], sep) == before + sep + after
  {
  }

  /** When the text occurs once, the two replace paths agree exactly when the replacement expands to itself. */
  lemma SingleAndAllAgreeIff(s: string, f: string, r: string)
    requires f != "" && Count(s, f) == 1
    ensures IndexOf(s, f).Some?
    ensures var i := IndexOf(s, f).value;
            EditFind(s, f, r, false) == EditFind(s, f, r, true) <==> Expand(r, f, s[..i], s[i + |f|..]) == r
  {
    OneOccurrence(s, f);
    var i := IndexOf(s, f).value;
    var before, after := s[..i], s[i + |f|..];
    JoinTwo(before, after, r);
    SameMiddle(before, Expand(r, f, before, after), r, after);
  }

  /** No "$" that String.replace would interpret. */
  predicate DollarFree(r: string) {
    forall i | 0 <= i < |r| - 1 && r[i] == '$' :: r[i + 1] !in {'$', '&', '`', '\''}
  }

  lemma {:induction false} DollarFreeExpandsToItself(r: string, matched: string, before: string, after: string)
    requires DollarFree(r)
    ensures Expand(r, matched, before, after) == r
  {
    if r != "" {
      var t := r[1..];
      forall i | 0 <= i < |t| - 1 && t[i] == '$' ensures t[i + 1] !in {'$', '&', '`', '\''} {
        assert r[i + 1] == '$' && t[i + 1] == r[i + 2];
      }
      DollarFreeExpandsToItself(r[1..], matched, before, after);
    }
  }

  lemma DollarFreeStep(r: string)
    requires r != ""
    ensures DollarFree(r) <==>
            !(|r| > 1 && r[0] == '$' && r[1] in {'$', '&', '`', '\''}) && DollarFree(r[1..])
  {
    var t := r[1..];
    assert forall i | 0 <= i < |t| :: t[i] == r[i + 1];
    if !DollarFree(r) {
      var i :| 0 <= i < |r| - 1 && r[i] == '$' && r[i + 1] in {'$', '&', '`', '\''};
      if i > 0 { assert t[i - 1] == '$' && t[i] == r[i + 1]; }
    }
    if !DollarFree(t) {
      var i :| 0 <= i < |t| - 1 && t[i] == '$' && t[i + 1] in {'$', '&', '`', '\''};
      assert r[i + 1] == '$';
    }
  }

  /** Replacing the whole of a one-letter file, every pattern costs a character. */
  lemma {:induction false} ExpansionShrinks(r: string, letter: string)
    requires |letter| == 1
    ensures |Expand(r, letter, "", "")| <= |r|
    ensures !DollarFree(r) ==> |Expand(r, letter, "", "")| < |r|
    decreases |r|
  {
    if r != "" {
      DollarFreeStep(r);
      ExpansionShrinks(r[1..], letter);
      if |r| > 1 { ExpansionShrinks(r[2..], letter); }
    }
  }

  lemma WholeFileOccursOnce(letter: char)
    ensures Count([letter], [letter]) == 1 && IndexOf([letter], [letter]) == Some(0)
  {
    PrefixIsFirst([letter], [letter]);
    ShorterHasNone([letter][1..], [letter]);
  }

  ghost predicate PathsAgree(r: string) {
    forall s, f | f != "" && Count(s, f) == 1 :: EditFind(s, f, r, false) == EditFind(s, f, r, true)
  }

  /**
   * The two replace paths agree on every file, for every text that occurs once, exactly when the replacement is
   * free of `$` patterns.
   */
  lemma PathsAgreeIff(r: string)
    ensures PathsAgree(r) <==> DollarFree(r)
  {
    if DollarFree(r) {
      forall s, f | f != "" && Count(s, f) == 1 ensures EditFind(s, f, r, false) == EditFind(s, f, r, true) {
        SingleAndAllAgreeIff(s, f, r);
        var i := IndexOf(s, f).value;
        DollarFreeExpandsToItself(r, f, s[..i], s[i + |f|..]);
      }
    } else {
      WholeFileOccursOnce('a');
      SingleAndAllAgreeIff("a", "a", r);
      assert "a"[..0] == "" && "a"[1..] == "";
      ExpansionShrinks(r, "a");
    }
  }

  /** Otherwise they differ: replacing "a" by "$$" writes one dollar, or two with replaceAll. */
  lemma DollarsAreExpandedInSingleMode()
    ensures EditFind("a", "a", "$$", false) == Ok("$")
    ensures EditFind("a", "a", "$$", true) == Ok("$$")
  {
    var parts := ["", ""];
    assert Free(parts, 'a');
    assert parts[1..] == [""] && Join([""], "a") == "" && Join([""], "$$") == "";
    assert Join(parts, "a") == "a" && Join(parts, "$$") == "$$";
    SplitJoin(parts, 'a');
    OneOccurrence("a", "a");
    assert Expand("$$", "a", "", "") == "$" by { assert "$$"[2..] == ""; }
    PrefixIsFirst("a", "a");
    assert "a"[..0] == "" && "a"[1..] == "";
    assert "" + "$" + "" == "$";
  }

  // ---------- "must occur exactly once" ----------

  /** A proper suffix of f is also a prefix of f, so two occurrences of f can overlap. */
  predicate Bordered(f: string) {
    exists d | 0 < d < |f| :: f[d..] <= f
  }

  ghost predicate OccursOnce(s: string, f: string) {
    forall i: nat, j: nat | OccursAt(s, f, i) && OccursAt(s, f, j) :: i == j
  }

  lemma OverlapIsABorder(s: string, f: string, i: nat, j: nat)
    requires OccursAt(s, f, i) && OccursAt(s, f, j) && i < j < i + |f|
    ensures Bordered(f)
  {
    var d := j - i;
    assert s[i..][..|f|] == f && s[j..][..|f|] == f;
    assert f[d..] == s[j..i + |f|] == f[..|f| - d];
  }

  lemma OccursLater(s: string, f: string, i: nat, j: nat)
    requires i + |f| <= |s| && j >= i + |f| && OccursAt(s, f, j)
    ensures OccursAt(s[i + |f|..], f, j - i - |f|)
  {
  }

  predicate Accepts(s: string, f: string) {
    f != "" && Count(s, f) == 1
  }

  lemma SingleEditAcceptsIff(s: string, f: string, r: string)
    ensures EditFind(s, f, r, false).Ok? <==> Accepts(s, f)
  {
  }

  lemma NoOtherOccurrence(s: string, f: string, i: nat, j: nat)
    requires !Bordered(f) && IndexOf(s, f) == Some(i) && IndexOf(s[i + |f|..], f).None? && OccursAt(s, f, j)
    ensures j == i
  {
    if i < j < i + |f| {
      OverlapIsABorder(s, f, i, j);
    } else if j >= i + |f| {
      OccursLater(s, f, i, j);
    }
  }

  /** For a text that cannot overlap itself, an accepted edit has the only occurrence there is as its target. */
  lemma UnborderedIsUnambiguous(s: string, f: string)
    requires Accepts(s, f) && !Bordered(f)
    ensures OccursOnce(s, f)
  {
    OneOccurrence(s, f);
    var i := IndexOf(s, f).value;
    forall j: nat | OccursAt(s, f, j) ensures j == i { NoOtherOccurrence(s, f, i, j); }
  }

  lemma ShorterHasNone(s: string, f: string)
    requires |s| < |f|
    ensures IndexOf(s, f).None?
  {
  }

  lemma PrefixIsFirst(s: string, f: string)
    requires f != "" && f <= s
    ensures IndexOf(s, f) == Some(0)
    ensures Count(s, f) == 1 + Count(s[|f|..], f)
  {
  }

  /** A text that can overlap itself has a file where an accepted edit had two places to go. */
  lemma BorderedIsAmbiguous(f: string) returns (s: string)
    requires Bordered(f)
    ensures Accepts(s, f) && !OccursOnce(s, f)
  {
    var d :| 0 < d < |f| && f[d..] <= f;
    s := f[..d] + f;
    assert s[d..] == f;
    assert f[d..] == f[..|f| - d];
    assert s[..|f|] == f[..d] + f[..|f| - d] == f;
    assert OccursAt(s, f, 0) && OccursAt(s, f, d);
    PrefixIsFirst(s, f);
    ShorterHasNone(s[|f|..], f);
  }

  /** edit_file's promise of an unambiguous target holds for all files exactly when the text has no border. */
  lemma UnambiguousIff(f: string, r: string)
    requires f != ""
    ensures (forall s :: EditFind(s, f, r, false).Ok? ==> OccursOnce(s, f)) <==> !Bordered(f)
  {
    if Bordered(f) {
      var s := BorderedIsAmbiguous(f);
      SingleEditAcceptsIff(s, f, r);
    } else {
      forall s | EditFind(s, f, r, false).Ok? ensures OccursOnce(s, f) {
        SingleEditAcceptsIff(s, f, r);
        UnborderedIsUnambiguous(s, f);
      }
    }
  }
}
