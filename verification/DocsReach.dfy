/**
 * The docs orphan guard (scripts/guards/docs-orphans.ts): pages reachable from the sidebar by links.
 * Reading a page and resolving its links against the docs directory is a finite function `links` from a page
 * to the resolved targets that pass the guard's filters; `files` are the files that exist.
 */
module DocsReach {
  datatype Site = Site(files: set<string>, links: map<string, seq<string>>)

  function LinksOf(site: Site, page: string): seq<string> {
    if page in site.links then site.links[page] else []
  }

  lemma LinksAsListed(site: Site, page: string, target: string)
    ensures target in LinksOf(site, page) <==> page in site.links && target in site.links[page]
  {
  }

  // ---------- reachability, without an algorithm ----------

  /** A walk along links of existing files. */
  predicate IsWalk(site: Site, walk: seq<string>) {
    && walk != []
    && (forall i | 0 <= i < |walk| :: walk[i] in site.files)
    && (forall i | 0 < i < |walk| :: walk[i] in LinksOf(site, walk[i - 1]))
  }

  /** A walk from an existing sidebar page leads to p. */
  ghost predicate Reachable(site: Site, sidebar: seq<string>, p: string) {
    exists walk :: IsWalk(site, walk) && walk[0] in sidebar && walk[|walk| - 1] == p
  }

  lemma ExtendWalk(site: Site, sidebar: seq<string>, p: string, q: string)
    requires Reachable(site, sidebar, p) && q in LinksOf(site, p) && q in site.files
    ensures Reachable(site, sidebar, q)
  {
    var walk :| IsWalk(site, walk) && walk[0] in sidebar && walk[|walk| - 1] == p;
    var longer := walk + [q];
    assert longer[0] == walk[0] && longer[|longer| - 1] == q;
    forall i | 0 < i < |longer| ensures longer[i] in LinksOf(site, longer[i - 1]) {
      assert longer[i - 1] == walk[i - 1];
      if i < |walk| { assert longer[i] == walk[i]; }
    }
    assert IsWalk(site, longer);
  }

  /** A set closed under links to existing files contains every walk that starts in it. */
  lemma {:induction false} ClosedContainsWalk(site: Site, s: set<string>, walk: seq<string>)
    requires IsWalk(site, walk) && walk[0] in s
    requires forall p, q | p in s && q in LinksOf(site, p) && q in site.files :: q in s
    ensures walk[|walk| - 1] in s
  {
    if |walk| > 1 {
      var front := walk[..|walk| - 1];
      forall i | 0 < i < |front| ensures front[i] in LinksOf(site, front[i - 1]) {
        assert front[i] == walk[i];
      }
      ClosedContainsWalk(site, s, front);
      assert walk[|walk| - 1] in LinksOf(site, walk[|walk| - 2]);
    }
  }

  // ---------- the guard ----------

  predicate NoDuplicates(xs: seq<string>) {
    forall i, j | 0 <= i < j < |xs| :: xs[i] != xs[j]
  }

  function Elements(xs: seq<string>): set<string> {
    set x | x in xs
  }

  /** Links of p that still have to be handled: those from index i on. */
  ghost predicate ClosedUpTo(site: Site, reachable: set<string>, p: string, i: nat) {
    forall k | 0 <= k < |LinksOf(site, p)| && k < i && LinksOf(site, p)[k] in site.files ::
      LinksOf(site, p)[k] in reachable
  }

  ghost predicate Closed(site: Site, reachable: set<string>, p: string) {
    ClosedUpTo(site, reachable, p, |LinksOf(site, p)|)
  }

  /** The pages queued so far, in queue order, are exactly the set; all are reachable and no seed is missing. */
  ghost predicate Frontier(site: Site, sidebar: seq<string>, reachable: set<string>, pages: seq<string>) {
    && reachable <= site.files
    && NoDuplicates(pages) && Elements(pages) == reachable
    && (forall p | p in reachable :: Reachable(site, sidebar, p))
    && (forall p | p in sidebar && p in site.files :: p in reachable)
  }

  method Seed(site: Site, sidebar: seq<string>) returns (reachable: set<string>, queue: seq<string>)
    ensures Frontier(site, sidebar, reachable, queue)
  {
    reachable, queue := {}, [];
    for i := 0 to |sidebar|
      invariant NoDuplicates(queue) && Elements(queue) == reachable
      invariant reachable == set p | p in sidebar[..i] && p in site.files
    {
      var rel := sidebar[i];
      if rel in site.files && rel !in reachable {
        reachable := reachable + {rel};
        queue := queue + [rel];
      }
    }
    forall p | p in reachable ensures Reachable(site, sidebar, p) {
      assert IsWalk(site, [p]) && [p][0] in sidebar;
    }
  }

  lemma ExtendFrontier(site: Site, sidebar: seq<string>, reachable: set<string>, pages: seq<string>, cur: string,
                       rel: string)
    requires Frontier(site, sidebar, reachable, pages) && cur in reachable
    requires rel in LinksOf(site, cur) && rel in site.files && rel !in reachable
    ensures Frontier(site, sidebar, reachable + {rel}, pages + [rel])
  {
    ExtendWalk(site, sidebar, cur, rel);
  }

  lemma AddLink(site: Site, reachable: set<string>, more: set<string>, cur: string, i: nat)
    requires ClosedUpTo(site, reachable, cur, i) && reachable <= more
    requires i < |LinksOf(site, cur)| && (LinksOf(site, cur)[i] in site.files ==> LinksOf(site, cur)[i] in more)
    ensures ClosedUpTo(site, more, cur, i + 1)
  {
  }

  /** One page of the search: its unseen existing targets are marked and queued. */
  method Visit(site: Site, sidebar: seq<string>, cur: string, order: seq<string>, before: set<string>,
               queue0: seq<string>)
    returns (reachable: set<string>, queue: seq<string>)
    requires Frontier(site, sidebar, before, order + queue0) && cur in before
    ensures Frontier(site, sidebar, reachable, order + queue)
    ensures before <= reachable && Closed(site, reachable, cur)
    ensures reachable == before ==> queue == queue0
  {
    reachable, queue := before, queue0;
    var links := LinksOf(site, cur);
    for i := 0 to |links|
      invariant before <= reachable
      invariant Frontier(site, sidebar, reachable, order + queue)
      invariant ClosedUpTo(site, reachable, cur, i)
      invariant reachable == before ==> queue == queue0
    {
      var rel := links[i];
      ghost var seen := reachable;
      if rel !in reachable && rel in site.files {
        ExtendFrontier(site, sidebar, reachable, order + queue, cur, rel);
        assert (order + queue) + [rel] == order + (queue + [rel]);
        reachable := reachable + {rel};
        queue := queue + [rel];
      }
      AddLink(site, seen, reachable, cur, i);
    }
  }

  ghost predicate AllClosed(site: Site, reachable: set<string>, order: seq<string>) {
    forall p | p in order :: Closed(site, reachable, p)
  }

  lemma DeliverClosed(site: Site, before: set<string>, after: set<string>, order: seq<string>, cur: string)
    requires AllClosed(site, before, order) && before <= after && Closed(site, after, cur)
    ensures AllClosed(site, after, order + [cur])
  {
  }

  lemma MoveHead(order: seq<string>, queue: seq<string>)
    requires queue != []
    ensures (order + [queue[0]]) + queue[1..] == order + queue
    ensures queue[0] in Elements(order + queue)
  {
  }

  /** Take the head of the queue and visit it. */
  method Deliver(site: Site, sidebar: seq<string>, before: set<string>, order0: seq<string>, queue0: seq<string>)
    returns (reachable: set<string>, order: seq<string>, queue: seq<string>)
    requires queue0 != [] && Frontier(site, sidebar, before, order0 + queue0) && AllClosed(site, before, order0)
    ensures Frontier(site, sidebar, reachable, order + queue) && AllClosed(site, reachable, order)
    ensures |site.files - reachable| < |site.files - before|
            || (|site.files - reachable| == |site.files - before| && |queue| < |queue0|)
  {
    var cur := queue0[0];
    MoveHead(order0, queue0);
    order := order0 + [cur];
    reachable, queue := Visit(site, sidebar, cur, order, before, queue0[1..]);
    DeliverClosed(site, before, reachable, order0, cur);
    if reachable != before { ShrinkingRest(site.files, before, reachable); }
  }

  /**
   * The search. `order` lists the pages in the order the queue delivered them. On exit the set is exactly what
   * walks from the sidebar reach, and each page was queued once.
   */
  method Crawl(site: Site, sidebar: seq<string>) returns (reachable: set<string>, order: seq<string>)
    ensures forall p :: p in reachable <==> Reachable(site, sidebar, p)
    ensures NoDuplicates(order) && Elements(order) == reachable
  {
    var queue: seq<string>;
    reachable, queue := Seed(site, sidebar);
    order := [];
    assert order + queue == queue;
    while queue != []
      invariant Frontier(site, sidebar, reachable, order + queue)
      invariant AllClosed(site, reachable, order)
      decreases |site.files - reachable|, |queue|
    {
      reachable, order, queue := Deliver(site, sidebar, reachable, order, queue);
    }
    assert order + queue == order;
    NothingIsMissed(site, sidebar, reachable, order);
  }

  lemma NothingIsMissed(site: Site, sidebar: seq<string>, reachable: set<string>, order: seq<string>)
    requires Frontier(site, sidebar, reachable, order)
    requires AllClosed(site, reachable, order)
    ensures forall p :: p in reachable <==> Reachable(site, sidebar, p)
  {
    forall a, b | a in reachable && b in LinksOf(site, a) && b in site.files ensures b in reachable {
      assert a in order;
      assert Closed(site, reachable, a);
    }
    forall p | Reachable(site, sidebar, p) ensures p in reachable {
      var walk :| IsWalk(site, walk) && walk[0] in sidebar && walk[|walk| - 1] == p;
      ClosedContainsWalk(site, reachable, walk);
    }
  }

  lemma ShrinkingRest(files: set<string>, before: set<string>, after: set<string>)
    requires before < after <= files
    ensures |files - after| < |files - before|
  {
    var x :| x in after && x !in before;
    assert files - after <= (files - before) - {x};
    SubsetSize(files - after, (files - before) - {x});
  }

  lemma {:induction false} SubsetSize(a: set<string>, b: set<string>)
    requires a <= b
    ensures |a| <= |b|
  {
    if a != {} {
      var x :| x in a;
      SubsetSize(a - {x}, b - {x});
    }
  }

  /** Pages the guard never reports: exempt by name, or under a skipped prefix. */
  predicate Skipped(exempt: set<string>, prefixes: seq<string>, p: string) {
    p in exempt || exists q | q in prefixes :: q <= p
  }

  /** The guard's verdict: the authored pages nobody can reach. It fails the build when the list is non-empty. */
  method FindOrphans(site: Site, sidebar: seq<string>, authored: seq<string>, exempt: set<string>,
                     prefixes: seq<string>)
    returns (orphans: seq<string>)
    ensures forall p :: p in orphans <==>
              && p in authored && !Reachable(site, sidebar, p)
              && p !in exempt && forall q | q in prefixes :: !(q <= p)
  {
    var reachable, order := Crawl(site, sidebar);
    orphans := [];
    for i := 0 to |authored|
      invariant forall p :: p in orphans <==> p in authored[..i] && p !in reachable && !Skipped(exempt, prefixes, p)
    {
      var rel := authored[i];
      if rel !in reachable && !Skipped(exempt, prefixes, rel) { orphans := orphans + [rel]; }
    }
    assert authored[..|authored|] == authored;
  }

  // ---------- the link filter ----------

  predicate HasDot(link: string) { '.' in link }

  /** Some ".md" ends the link or stands before a fragment. */
  predicate MatchesMd(link: string) {
    exists i: nat | i < |link| :: ".md" <= link[i..] && (i + 3 == |link| || link[i + 3] == '#')
  }

  /** The last character is neither a dot nor a slash. */
  predicate EndsPlainly(link: string) {
    link != "" && link[|link| - 1] != '.' && link[|link| - 1] != '/'
  }

  predicate EndsWithSlash(link: string) {
    link != "" && link[|link| - 1] == '/'
  }

  /** The guard's test for links it does not follow. */
  predicate FilteredOut(link: string) {
    HasDot(link) && !MatchesMd(link) && !EndsWithSlash(link) && !EndsPlainly(link)
  }

  /**
   * The test is meant to drop assets such as images, but a link with its fragment cut off is dropped exactly
   * when it ends in a dot.
   */
  lemma FilterDropsOnlyTrailingDots(link: string)
    requires '#' !in link
    ensures FilteredOut(link) <==> link != "" && link[|link| - 1] == '.'
  {
  }

  predicate HasMdFragment(link: string) {
    exists i: nat | i < |link| :: ".md#" <= link[i..]
  }

  lemma MdBefore(link: string, i: nat)
    requires i < |link|
    ensures ".md#" <= link[i..] <==> ".md" <= link[i..] && i + 3 < |link| && link[i + 3] == '#'
  {
    var rest := link[i..];
    if ".md#" <= rest { assert rest[..4] == ".md#" && rest[..4][..3] == ".md" == rest[..3] && rest[3] == '#'; }
    if ".md" <= rest && i + 3 < |link| && link[i + 3] == '#' { assert rest[..4] == rest[..3] + [rest[3]] == ".md#"; }
  }

  /** Fragments included: a link is dropped exactly when it ends in a dot and has no ".md" before a fragment. */
  lemma FilterDropsIff(link: string)
    ensures FilteredOut(link) <==> link != "" && link[|link| - 1] == '.' && !HasMdFragment(link)
  {
    forall i: nat | i < |link|
      ensures ".md#" <= link[i..] <==> ".md" <= link[i..] && i + 3 < |link| && link[i + 3] == '#'
    {
      MdBefore(link, i);
    }
    if link != "" && link[|link| - 1] == '.' {
      forall i: nat | i < |link| && ".md" <= link[i..] ensures i + 3 < |link| {
        assert link[i..][..3] == ".md" && link[i..][..3][2] == link[i + 2];
      }
    }
  }

  /** An image is followed like a page. */
  lemma ImagesAreFollowed(name: string)
    ensures !FilteredOut(name + ".png")
  {
    assert (name + ".png")[|name| + 3] == 'g';
  }
}
