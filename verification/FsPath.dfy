/**
 * Path containment in the permission enforcer (packages/core/src/permissions.ts): the code compares rendered
 * path strings; the meaning is a comparison of collapsed segment lists. Paths are POSIX paths.
 */
module FsPath {
  import opened Strings

  // ---------- the code ----------

  function Push(stack: seq<string>, segment: string): seq<string> {
    if segment == "" || segment == "." then stack
    else if segment == ".." then (if stack == [] then [] else stack[..|stack| - 1])
    else stack + [segment]
  }

  function Collapse(segments: seq<string>): seq<string> {
    if segments == [] then [] else Push(Collapse(segments[..|segments| - 1]), segments[|segments| - 1])
  }

  function Segments(p: string): seq<string> {
    Collapse(Split(p, "/"))
  }

  /** node:path resolve, on an absolute path. */
  function Resolve(p: string): string {
    "/" + Join(Segments(p), "/")
  }

  function Normalize(p: string): string {
    Resolve(if "/" <= p then p else "/" + p)
  }

  function StripTrailingSlash(root: string): string {
    if root != "" && root[|root| - 1] == '/' then root[..|root| - 1] else root
  }

  /** One iteration of the loop in canFsAccess. */
  predicate RootAdmits(rawRoot: string, path: string) {
    var normalized := Normalize(path);
    var root := Normalize(StripTrailingSlash(rawRoot));
    normalized == root || root + "/" <= normalized
  }

  // ---------- its meaning ----------

  /** Inside the root, segment by segment; the root "/" contains nothing but itself. */
  predicate Within(root: seq<string>, path: seq<string>) {
    if root == [] then path == [] else root <= path
  }

  predicate IsName(s: string) {
    s != "" && s != "." && s != ".." && '/' !in s
  }

  ghost predicate Clean(segments: seq<string>) {
    forall i | 0 <= i < |segments| :: IsName(segments[i])
  }

  lemma {:induction false} CollapseIsClean(segments: seq<string>)
    requires Free(segments, '/')
    ensures Clean(Collapse(segments))
  {
    if segments != [] {
      var last := segments[|segments| - 1];
      CollapseIsClean(segments[..|segments| - 1]);
      assert last in segments;
    }
  }

  /** No "..", "." or empty segment survives, so containment is decided on real directories only. */
  lemma SegmentsAreClean(p: string)
    ensures Clean(Segments(p))
  {
    SplitIsFree(p, '/');
    CollapseIsClean(Split(p, "/"));
  }

  lemma {:induction false} CollapseIgnoresLeadingEmpty(segments: seq<string>)
    ensures Collapse([""] + segments) == Collapse(segments)
  {
    if segments == [] {
      assert [""] + segments == [""] && [""][..0] == [];
    } else {
      var front := segments[..|segments| - 1];
      assert ([""] + segments)[..|segments|] == [""] + front;
      CollapseIgnoresLeadingEmpty(front);
    }
  }

  lemma {:induction false} CollapseKeepsClean(segments: seq<string>)
    requires Clean(segments)
    ensures Collapse(segments) == segments
  {
    if segments != [] {
      var front := segments[..|segments| - 1];
      assert IsName(segments[|segments| - 1]);
      CollapseKeepsClean(front);
      assert segments == front + [segments[|segments| - 1]];
    }
  }

  lemma SegmentsIgnoreLeadingSlash(p: string)
    ensures Segments("/" + p) == Segments(p)
  {
    var parts := Split(p, "/");
    JoinSplit(p, "/");
    SplitIsFree(p, '/');
    JoinConcat([""], parts, "/");
    SplitJoin([""] + parts, '/');
    CollapseIgnoresLeadingEmpty(parts);
  }

  lemma SegmentsIgnoreTrailingSlash(p: string)
    ensures Segments(p + "/") == Segments(p)
  {
    var parts := Split(p, "/");
    JoinSplit(p, "/");
    SplitIsFree(p, '/');
    JoinConcat(parts, [""], "/");
    SplitJoin(parts + [""], '/');
    assert p + "/" == Join(parts + [""], "/");
    assert (parts + [""])[..|parts|] == parts;
  }

  lemma NormalizeIsResolve(p: string)
    ensures Normalize(p) == "/" + Join(Segments(p), "/")
  {
    SegmentsIgnoreLeadingSlash(p);
  }

  lemma StripKeepsSegments(root: string)
    ensures Segments(StripTrailingSlash(root)) == Segments(root)
  {
    if StripTrailingSlash(root) != root {
      assert root == StripTrailingSlash(root) + "/";
      SegmentsIgnoreTrailingSlash(StripTrailingSlash(root));
    }
  }

  lemma ExtensionRendersAsPrefix(a: seq<string>, b: seq<string>)
    requires a != [] && a < b
    ensures Join(a, "/") + "/" <= Join(b, "/")
  {
  }

  lemma CutPrefix(s: string, front: string)
    requires front + "/" <= s
    ensures s == front + "/" + s[|front| + 1..]
  {
  }

  lemma PrefixRendersExtension(a: seq<string>, b: seq<string>)
    requires Clean(a) && Clean(b) && a != [] && b != []
    requires Join(a, "/") + "/" <= Join(b, "/")
    ensures a <= b
  {
    var rest := Join(b, "/")[|Join(a, "/")| + 1..];
    var tail := Split(rest, "/");
    CutPrefix(Join(b, "/"), Join(a, "/"));
    JoinSplit(rest, "/");
    SplitIsFree(rest, '/');
    JoinConcat(a, tail, "/");
    SplitJoin(b, '/');
    SplitJoin(a + tail, '/');
    assert b == a + tail;
  }

  lemma RenderingIsInjective(a: seq<string>, b: seq<string>)
    requires Clean(a) && Clean(b) && Join(a, "/") == Join(b, "/")
    ensures a == b
  {
    if a != [] {  SplitJoin(a, '/'); }
    if b != [] {  SplitJoin(b, '/'); }
  }

  /** The string test is the segment test: why comparing with `startsWith(root + "/")` is right. */
  lemma RenderedPrefixIffWithin(a: seq<string>, b: seq<string>)
    requires Clean(a) && Clean(b)
    ensures var ra, rb := "/" + Join(a, "/"), "/" + Join(b, "/");
            rb == ra || ra + "/" <= rb <==> Within(a, b)
  {
    var ja, jb := Join(a, "/"), Join(b, "/");
    var ra, rb := "/" + ja, "/" + jb;
    assert ra[1..] == ja && rb[1..] == jb;
    assert ra + "/" <= rb <==> ja + "/" <= jb by {
      assert ra + "/" == "/" + (ja + "/");
      if ra + "/" <= rb { assert (ra + "/")[1..] == ja + "/"; }
    }
    assert rb == ra <==> ja == jb;
    if ja == jb { RenderingIsInjective(a, b); }
    if a == [] {
      assert ja + "/" == "/";
      assert jb == "" || jb[0] != '/';
    } else {
      if a < b { ExtensionRendersAsPrefix(a, b); }
      if ja + "/" <= jb {
        assert b != [];
        PrefixRendersExtension(a, b);
      }
      assert a <= b <==> a < b || a == b;
    }
  }

  /** A root admits a path exactly when the path's collapsed segments extend the root's. */
  lemma RootAdmitsIffWithin(root: string, path: string)
    ensures RootAdmits(root, path) <==> Within(Segments(root), Segments(path))
  {
    NormalizeIsResolve(path);
    NormalizeIsResolve(StripTrailingSlash(root));
    StripKeepsSegments(root);
    SegmentsAreClean(root);
    SegmentsAreClean(path);
    RenderedPrefixIffWithin(Segments(root), Segments(path));
  }

  lemma RenderedSegments(segs: seq<string>)
    requires Clean(segs) && segs != []
    ensures Segments("/" + Join(segs, "/")) == segs
  {
    SegmentsIgnoreLeadingSlash(Join(segs, "/"));
    SplitJoin(segs, '/');
    CollapseKeepsClean(segs);
  }

  /** Normalizing twice is normalizing once, and never changes what a path denotes. */
  lemma NormalizeIsIdempotent(p: string)
    ensures Segments(Normalize(p)) == Segments(p)
    ensures Normalize(Normalize(p)) == Normalize(p)
  {
    var segs := Segments(p);
    NormalizeIsResolve(p);
    SegmentsAreClean(p);
    if segs == [] {
      SegmentsIgnoreLeadingSlash("");
      SplitJoin([""], '/');
      CollapseIgnoresLeadingEmpty([]);
    } else {
      RenderedSegments(segs);
    }
    NormalizeIsResolve(Normalize(p));
  }

  /** Allow-listing "/" admits the path "/" and nothing below it. */
  lemma SlashRootAdmitsOnlyItself(path: string)
    ensures RootAdmits("/", path) <==> Segments(path) == []
  {
    RootAdmitsIffWithin("/", path);
    SegmentsIgnoreTrailingSlash("");
    SplitJoin([""], '/');
    CollapseIgnoresLeadingEmpty([]);
  }

  /** So no file or directory of any name is under it. */
  lemma NothingIsUnderTheSlashRoot(segs: seq<string>)
    requires Clean(segs) && segs != []
    ensures !RootAdmits("/", "/" + Join(segs, "/"))
  {
    SlashRootAdmitsOnlyItself("/" + Join(segs, "/"));
    RenderedSegments(segs);
  }

  lemma WithinTrans(a: seq<string>, b: seq<string>, c: seq<string>)
    requires Within(a, b) && Within(b, c)
    ensures Within(a, c)
  {
  }

  // ---------- what collapsing computes ----------

  lemma SplitAppend(p: string, last: string)
    requires '/' !in last
    ensures Split(p + "/" + last, "/") == Split(p, "/") + [last]
  {
    var parts := Split(p, "/");
    JoinSplit(p, "/");
    SplitIsFree(p, '/');
    JoinConcat(parts, [last], "/");
    SplitJoin(parts + [last], '/');
  }

  lemma SegmentsAppend(p: string, last: string)
    requires '/' !in last
    ensures Segments(p + "/" + last) == Push(Segments(p), last)
  {
    SplitAppend(p, last);
    var parts := Split(p, "/");
    assert (parts + [last])[..|parts|] == parts;
  }

  lemma SegmentsOfNothing()
    ensures Segments("") == []
  {
    SplitJoin([""], '/');
    CollapseIgnoresLeadingEmpty([]);
  }

  /** Entering a directory or naming a file in it. */
  lemma SegmentsOfChild(p: string, name: string)
    requires IsName(name)
    ensures Segments(p + "/" + name) == Segments(p) + [name]
  {
    SegmentsAppend(p, name);
  }

  lemma SegmentsOfHere(p: string)
    ensures Segments(p + "/" + ".") == Segments(p) && Segments(p + "/") == Segments(p)
  {
    SegmentsAppend(p, ".");
    SegmentsIgnoreTrailingSlash(p);
  }

  /** Going up; the root directory is its own parent. */
  lemma SegmentsOfParent(p: string)
    ensures Segments(p + "/" + "..") == if Segments(p) == [] then [] else Segments(p)[..|Segments(p)| - 1]
  {
    SegmentsAppend(p, "..");
  }

  /** A detour through a directory and up again admits what the direct path admits. */
  lemma DetourIsIgnored(root: string, p: string, n: string, m: string)
    requires IsName(n) && IsName(m)
    ensures RootAdmits(root, p + "/" + n + "/" + ".." + "/" + m) <==> RootAdmits(root, p + "/" + m)
  {
    SegmentsOfChild(p, n);
    SegmentsOfParent(p + "/" + n);
    SegmentsOfChild(p + "/" + n + "/" + "..", m);
    SegmentsOfChild(p, m);
    assert (Segments(p) + [n])[..|Segments(p)|] == Segments(p);
    RootAdmitsIffWithin(root, p + "/" + n + "/" + ".." + "/" + m);
    RootAdmitsIffWithin(root, p + "/" + m);
  }

  /** A root admits itself and its children; going up from it leads out, unless its own name is what follows. */
  lemma LeavingTheRoot(root: string, name: string)
    requires IsName(name) && Segments(root) != []
    ensures RootAdmits(root, root) && RootAdmits(root, root + "/" + name)
    ensures !RootAdmits(root, root + "/" + "..")
    ensures RootAdmits(root, root + "/" + ".." + "/" + name) <==> Segments(root)[|Segments(root)| - 1] == name
  {
    var up, segs := root + "/" + "..", Segments(root);
    var front, last := segs[..|segs| - 1], segs[|segs| - 1];
    SegmentsOfChild(root, name);
    SegmentsOfParent(root);
    SegmentsOfChild(up, name);
    RootAdmitsIffWithin(root, root);
    RootAdmitsIffWithin(root, root + "/" + name);
    RootAdmitsIffWithin(root, up);
    RootAdmitsIffWithin(root, up + "/" + name);
    assert segs == front + [last];
    if front + [last] <= front + [name] { assert (front + [name])[|front|] == (front + [last])[|front|]; }
  }

  /** Going up twice from a root and naming something leads out of a root of two segments or more. */
  lemma LeavingTwice(root: string, name: string)
    requires IsName(name) && |Segments(root)| > 1
    ensures !RootAdmits(root, root + "/" + ".." + "/" + ".." + "/" + name)
  {
    var up := root + "/" + "..";
    SegmentsOfParent(root);
    SegmentsOfParent(up);
    SegmentsOfChild(up + "/" + "..", name);
    RootAdmitsIffWithin(root, up + "/" + ".." + "/" + name);
  }

  lemma TwoSegments(a: string, b: string)
    requires IsName(a) && IsName(b)
    ensures Segments("" + "/" + a + "/" + b) == [a, b]
  {
    SegmentsOfNothing();
    SegmentsOfChild("", a);
    SegmentsOfChild("" + "/" + a, b);
  }

  /** So "/srv/app/../../etc" is not admitted by "/srv/app". */
  lemma TraversalIsDenied(root: string, path: string)
    requires root == "/srv/app" && path == "/srv/app/../../etc"
    ensures !RootAdmits(root, path)
  {
    var a, b, c := "srv", "app", "etc";
    TwoSegments(a, b);
    assert root == "" + "/" + a + "/" + b;
    assert path == root + "/" + ".." + "/" + ".." + "/" + c;
    LeavingTwice(root, c);
  }
}
