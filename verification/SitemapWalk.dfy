/** The bounded depth-first walk over a sitemap graph that may contain cycles. */
module SitemapWalk {
  import opened Reachability
  import opened Sums
  import opened Wrappers

  /** One `<sitemap>` or `<url>` element. */
  datatype Block = Block(loc: Option<string>, lastmod: Option<string>)

  datatype Doc = Index(blocks: seq<Block>) | Urlset(blocks: seq<Block>) | Failure(message: string)

  /** What fetching and parsing each URL gives, and which texts are http(s) URLs. */
  datatype Web = Web(docs: map<string, Doc>, isHttp: string -> bool)

  datatype Entry = Entry(url: string, lastmod: Option<string>)

  datatype FetchError = FetchError(url: string, message: string)

  datatype SitemapResult = SitemapResult(entries: seq<Entry>, errors: seq<FetchError>, truncated: bool,
                                         sitemapCount: nat)

  function Fetch(web: Web, url: string): Doc {
    if url in web.docs then web.docs[url] else Failure("unreachable")
  }

  predicate Usable(web: Web, b: Block) {
    b.loc.Some? && b.loc.value != "" && web.isHttp(b.loc.value)
  }

  function UsableLocs(web: Web, blocks: seq<Block>): seq<string> {
    if blocks == [] then []
    else (if Usable(web, blocks[0]) then [blocks[0].loc.value] else []) + UsableLocs(web, blocks[1..])
  }

  lemma {:induction false} UsableLocOf(web: Web, blocks: seq<Block>, b: Block)
    requires b in blocks && Usable(web, b)
    ensures b.loc.value in UsableLocs(web, blocks)
  {
    if b != blocks[0] {
      UsableLocOf(web, blocks[1..], b);
    }
  }

  lemma {:induction false} UsableLocsWithin(web: Web, blocks: seq<Block>, known: set<string>)
    requires forall k :: 0 <= k < |blocks| && Usable(web, blocks[k]) ==> blocks[k].loc.value in known
    ensures forall l <- UsableLocs(web, blocks) :: l in known
  {
    if blocks != [] {
      UsableLocsWithin(web, blocks[1..], known);
    }
  }

  /** The sitemaps that a document points to. */
  function Children(web: Web, url: string): seq<string> {
    var doc := Fetch(web, url);
    if doc.Index? then UsableLocs(web, doc.blocks) else []
  }

  /** The page URLs that a document lists. */
  function Locs(web: Web, url: string): seq<string> {
    var doc := Fetch(web, url);
    if doc.Urlset? then UsableLocs(web, doc.blocks) else []
  }

  function Links(web: Web): Graph {
    url => Children(web, url)
  }

  /** Every sitemap URL that could ever be met. */
  function Universe(web: Web, root: string): set<string> {
    {root} + set u, c | u in web.docs && c in Children(web, u) :: c
  }

  ghost function Reachable(web: Web, root: string): set<string> {
    set u | u in Universe(web, root) && Reaches(Links(web), root, u)
  }

  ghost function ReachableLocs(web: Web, root: string): set<string> {
    set u, l | u in Reachable(web, root) && l in Locs(web, u) :: l
  }

  lemma ReachableIsReaches(web: Web, root: string, u: string)
    ensures u in Reachable(web, root) <==> Reaches(Links(web), root, u)
  {
    if Reaches(Links(web), root, u) {
      ClosedHolds(Links(web), Universe(web, root), root, u);
    }
  }

  function Max0(bound: int): nat {
    if bound < 0 then 0 else bound
  }

  /** An empty lastmod is dropped. */
  function Dated(lastmod: Option<string>): Option<string> {
    if lastmod == Some("") then None else lastmod
  }

  function UrlsOf(entries: seq<Entry>): set<string> {
    set e <- entries :: e.url
  }

  predicate BlockGives(web: Web, b: Block, e: Entry) {
    Usable(web, b) && b.loc.value == e.url && Dated(b.lastmod) == e.lastmod
  }

  ghost predicate DocGives(web: Web, u: string, e: Entry) {
    var doc := Fetch(web, u);
    doc.Urlset? && exists b <- doc.blocks :: BlockGives(web, b, e)
  }

  /** The entry is a block of some visited urlset. */
  ghost predicate Listed(web: Web, visited: set<string>, e: Entry) {
    exists u <- visited :: DocGives(web, u, e)
  }

  ghost predicate ValidEntries(web: Web, maxUrls: int, visited: set<string>, entries: seq<Entry>, seen: set<string>) {
    && seen == UrlsOf(entries)
    && |seen| == |entries| <= Max0(maxUrls)
    && forall e <- entries :: Listed(web, visited, e)
  }

  /** Each visited document that failed has one error, and there are no other errors. */
  ghost predicate ValidErrors(web: Web, visited: set<string>, errors: seq<FetchError>) {
    && (forall i, j :: 0 <= i < j < |errors| ==> errors[i].url != errors[j].url)
    && (forall e <- errors :: e.url in visited && Fetch(web, e.url) == Failure(e.message))
    && (forall u <- visited :: Fetch(web, u).Failure? ==> FetchError(u, Fetch(web, u).message) in errors)
  }

  /** The document's children are visited and its URLs collected. */
  ghost predicate Expanded(web: Web, u: string, visited: set<string>, seen: set<string>) {
    (forall c <- Children(web, u) :: c in visited) && (forall l <- Locs(web, u) :: l in seen)
  }

  ghost predicate AllExpanded(web: Web, nodes: set<string>, visited: set<string>, seen: set<string>) {
    forall u <- nodes :: Expanded(web, u, visited, seen)
  }

  ghost predicate AllReached(web: Web, root: string, nodes: set<string>) {
    forall u <- nodes :: Reaches(Links(web), root, u)
  }

  /** Why a walk stops short: a new sitemap or a new URL meets a full collection. */
  ghost predicate NewSitemap(web: Web, root: string, visited: set<string>) {
    exists u :: u !in visited && Reaches(Links(web), root, u)
  }

  ghost predicate NewUrl(web: Web, root: string, seen: set<string>) {
    exists u, l :: Reaches(Links(web), root, u) && l in Locs(web, u) && l !in seen
  }

  /** Progress through the children of an index. */
  lemma ChildWalked(web: Web, url: string, child: string, before: set<string>,
                    visited: set<string>, seen: set<string>, visited': set<string>, seen': set<string>)
    requires child in Children(web, url) && visited <= visited' && seen <= seen'
    requires AllReached(web, url, visited - before) && AllReached(web, child, visited' - visited)
    ensures AllReached(web, url, visited' - before)
    ensures
      && AllExpanded(web, visited - before - {url}, visited, seen)
      && AllExpanded(web, visited' - visited, visited', seen')
      ==> AllExpanded(web, visited' - before - {url}, visited', seen')
  {
    forall u <- visited' - before
      ensures Reaches(Links(web), url, u)
    {
      if u !in visited {
        assert u in visited' - visited;
        ReachesAfter(Links(web), url, child, u);
      } else {
        assert u in visited - before;
      }
    }
    if AllExpanded(web, visited - before - {url}, visited, seen) &&
      AllExpanded(web, visited' - visited, visited', seen') {
      forall u <- visited' - before - {url}
        ensures Expanded(web, u, visited', seen')
      {
        assert u in visited - before - {url} || u in visited' - visited;
      }
    }
  }

  /** What stops a child's walk stops its parent's. */
  lemma StoppedBelow(web: Web, url: string, child: string, visited: set<string>, seen: set<string>)
    requires child in Children(web, url)
    ensures NewSitemap(web, child, visited) ==> NewSitemap(web, url, visited)
    ensures NewUrl(web, child, seen) ==> NewUrl(web, url, seen)
  {
    forall u | Reaches(Links(web), child, u)
      ensures Reaches(Links(web), url, u)
    {
      ReachesAfter(Links(web), url, child, u);
    }
  }

  lemma Larger<T>(a: set<T>, b: set<T>, x: T)
    requires a <= b && x in b && x !in a
    ensures |a| < |b|
  {
    Cardinality(a + {x}, b);
  }

  class Walker {
    const web: Web
    const maxUrls: int
    const maxSitemaps: int
    var entries: seq<Entry>
    var errors: seq<FetchError>
    var visitedSitemaps: set<string>
    var seenLocs: set<string>
    var truncated: bool

    constructor (web: Web, maxUrls: int, maxSitemaps: int)
      ensures this.web == web && this.maxUrls == maxUrls && this.maxSitemaps == maxSitemaps
      ensures Valid() && visitedSitemaps == {} && entries == [] && !truncated
    {
      this.web, this.maxUrls, this.maxSitemaps := web, maxUrls, maxSitemaps;
      entries, errors, visitedSitemaps, seenLocs, truncated := [], [], {}, {}, false;
    }

    ghost predicate Valid()
      reads this
    {
      && ValidEntries(web, maxUrls, visitedSitemaps, entries, seenLocs)
      && ValidErrors(web, visitedSitemaps, errors)
      && |visitedSitemaps| <= Max0(maxSitemaps)
    }

    ghost predicate Overflow(root: string)
      reads this
    {
      || (|visitedSitemaps| >= maxSitemaps && NewSitemap(web, root, visitedSitemaps))
      || (|entries| >= maxUrls && NewUrl(web, root, seenLocs))
    }

    method AddEntry(loc: string, lastmod: Option<string>)
      requires Valid() && !truncated
      requires Listed(web, visitedSitemaps, Entry(loc, Dated(lastmod)))
      modifies this`entries, this`seenLocs, this`truncated
      ensures Valid()
      ensures truncated <==> loc !in old(seenLocs) && |old(entries)| >= maxUrls
      ensures truncated ==> entries == old(entries) && seenLocs == old(seenLocs)
      ensures !truncated ==> seenLocs == old(seenLocs) + {loc}
    {
      if loc in seenLocs {
        return;
      }
      if |entries| >= maxUrls {
        truncated := true;
        return;
      }
      seenLocs := seenLocs + {loc};
      entries := entries + [Entry(loc, Dated(lastmod))];
    }

    method Walk(url: string)
      requires Valid()
      modifies this
      ensures Valid()
      ensures old(visitedSitemaps) <= visitedSitemaps && old(seenLocs) <= seenLocs
      ensures old(truncated) ==> truncated && visitedSitemaps == old(visitedSitemaps) && entries == old(entries)
      ensures AllReached(web, url, visitedSitemaps - old(visitedSitemaps))
      ensures !truncated ==> url in visitedSitemaps
      ensures !truncated ==> AllExpanded(web, visitedSitemaps - old(visitedSitemaps), visitedSitemaps, seenLocs)
      ensures truncated && !old(truncated) ==> Overflow(url)
      decreases maxSitemaps - |visitedSitemaps|, 0
    {
      ReachesSelf(Links(web), url);
      if truncated || url in visitedSitemaps {
        return;
      }
      if |visitedSitemaps| >= maxSitemaps {
        truncated := true;
        return;
      }
      var result := Visit(url);
      match result
      case Failure(_) =>
      case Index(blocks) => WalkIndex(url, blocks, old(visitedSitemaps));
      case Urlset(blocks) => ReadUrls(url, blocks);
    }

    /** Fetches a document for the first time and reports its failure. */
    method Visit(url: string) returns (result: Doc)
      requires Valid() && url !in visitedSitemaps && |visitedSitemaps| < maxSitemaps
      modifies this`visitedSitemaps, this`errors
      ensures Valid() && visitedSitemaps == old(visitedSitemaps) + {url} && result == Fetch(web, url)
    {
      visitedSitemaps := visitedSitemaps + {url};
      result := Fetch(web, url);
      if result.Failure? {
        errors := errors + [FetchError(url, result.message)];
      }
      ListedAbove(web, old(visitedSitemaps), visitedSitemaps, entries);
    }

    /** Everything visited since `before` is below `url`, and all but `url` itself is expanded. */
    ghost predicate Below(url: string, before: set<string>)
      reads this
    {
      && AllReached(web, url, visitedSitemaps - before)
      && (!truncated ==> AllExpanded(web, visitedSitemaps - before - {url}, visitedSitemaps, seenLocs))
    }

    /** One `<sitemap>` element. */
    method WalkChild(url: string, blocks: seq<Block>, i: nat, ghost before: set<string>)
      requires Valid() && !truncated && Fetch(web, url) == Index(blocks) && i < |blocks| && Below(url, before)
      modifies this
      ensures Valid() && old(visitedSitemaps) <= visitedSitemaps && old(seenLocs) <= seenLocs && Below(url, before)
      ensures !truncated && Usable(web, blocks[i]) ==> blocks[i].loc.value in visitedSitemaps
      ensures truncated ==> Overflow(url)
      decreases maxSitemaps - |visitedSitemaps|, 1
    {
      var block := blocks[i];
      if Usable(web, block) {
        var loc := block.loc.value;
        UsableLocOf(web, blocks, block);
        ghost var visited, seen := visitedSitemaps, seenLocs;
        Walk(loc);
        ChildWalked(web, url, loc, before, visited, seen, visitedSitemaps, seenLocs);
        StoppedBelow(web, url, loc, visitedSitemaps, seenLocs);
      }
    }

    /** The children of an index, in order, until the walk is cut short. */
    method WalkIndex(url: string, blocks: seq<Block>, ghost before: set<string>)
      requires Valid() && !truncated && Fetch(web, url) == Index(blocks) && Below(url, before)
      modifies this
      ensures Valid() && old(visitedSitemaps) <= visitedSitemaps && old(seenLocs) <= seenLocs && Below(url, before)
      ensures !truncated ==> Expanded(web, url, visitedSitemaps, seenLocs)
      ensures truncated ==> Overflow(url)
      decreases maxSitemaps - |visitedSitemaps|, 2
    {
      for i := 0 to |blocks|
        invariant Valid() && !truncated && Below(url, before)
        invariant old(visitedSitemaps) <= visitedSitemaps && old(seenLocs) <= seenLocs
        invariant forall k :: 0 <= k < i && Usable(web, blocks[k]) ==> blocks[k].loc.value in visitedSitemaps
      {
        Cardinality(old(visitedSitemaps), visitedSitemaps);
        WalkChild(url, blocks, i, before);
        if truncated {
          return;
        }
      }
      UsableLocsWithin(web, blocks, visitedSitemaps);
    }

    /** One `<url>` element. */
    method ReadUrl(url: string, blocks: seq<Block>, i: nat)
      requires Valid() && !truncated && Fetch(web, url) == Urlset(blocks) && url in visitedSitemaps && i < |blocks|
      modifies this`entries, this`seenLocs, this`truncated
      ensures Valid() && old(seenLocs) <= seenLocs
      ensures !truncated && Usable(web, blocks[i]) ==> blocks[i].loc.value in seenLocs
      ensures truncated ==> Overflow(url)
    {
      var block := blocks[i];
      if Usable(web, block) {
        var loc := block.loc.value;
        assert DocGives(web, url, Entry(loc, Dated(block.lastmod))) by {
          assert BlockGives(web, block, Entry(loc, Dated(block.lastmod)));
        }
        AddEntry(loc, block.lastmod);
        if truncated {
          assert NewUrl(web, url, seenLocs) by {
            UsableLocOf(web, blocks, block);
            ReachesSelf(Links(web), url);
          }
        }
      }
    }

    /** The pages of a urlset, in order, until the walk is cut short. */
    method ReadUrls(url: string, blocks: seq<Block>)
      requires Valid() && !truncated && Fetch(web, url) == Urlset(blocks) && url in visitedSitemaps
      modifies this`entries, this`seenLocs, this`truncated
      ensures Valid() && old(seenLocs) <= seenLocs
      ensures !truncated ==> Expanded(web, url, visitedSitemaps, seenLocs)
      ensures truncated ==> Overflow(url)
    {
      for i := 0 to |blocks|
        invariant Valid() && !truncated && old(seenLocs) <= seenLocs
        invariant forall k :: 0 <= k < i && Usable(web, blocks[k]) ==> blocks[k].loc.value in seenLocs
      {
        ReadUrl(url, blocks, i);
        if truncated {
          return;
        }
      }
      UsableLocsWithin(web, blocks, seenLocs);
    }
  }

  lemma CollectedAreReachable(web: Web, root: string, maxUrls: int, visited: set<string>, entries: seq<Entry>,
                              seen: set<string>)
    requires ValidEntries(web, maxUrls, visited, entries, seen) && AllReached(web, root, visited)
    ensures visited <= Reachable(web, root) && seen <= ReachableLocs(web, root)
  {
    forall u <- visited
      ensures u in Reachable(web, root)
    {
      ReachableIsReaches(web, root, u);
    }
    forall l <- seen
      ensures l in ReachableLocs(web, root)
    {
      var e :| e in entries && e.url == l;
      assert Listed(web, visited, e);
      var u :| u in visited && DocGives(web, u, e);
      var b :| b in Fetch(web, u).blocks && BlockGives(web, b, e);
      UsableLocOf(web, Fetch(web, u).blocks, b);
      assert l in Locs(web, u);
    }
  }

  lemma FinishedWalk(web: Web, root: string, visited: set<string>, seen: set<string>)
    requires root in visited && AllExpanded(web, visited, visited, seen)
    ensures Reachable(web, root) <= visited && ReachableLocs(web, root) <= seen
  {
    forall u <- Reachable(web, root)
      ensures u in visited
    {
      assert forall n <- visited :: Expanded(web, n, visited, seen);
      ClosedHolds(Links(web), visited, root, u);
    }
    forall l <- ReachableLocs(web, root)
      ensures l in seen
    {
      var u :| u in Reachable(web, root) && l in Locs(web, u);
      assert Expanded(web, u, visited, seen);
    }
  }

  /** A walk cut short has a reachable sitemap or URL beyond its full collection. */
  lemma NewSitemapBeyond(web: Web, root: string, visited: set<string>)
    requires visited <= Reachable(web, root) && NewSitemap(web, root, visited)
    ensures |visited| < |Reachable(web, root)|
  {
    var u :| u !in visited && Reaches(Links(web), root, u);
    ReachableIsReaches(web, root, u);
    Larger(visited, Reachable(web, root), u);
  }

  lemma NewUrlBeyond(web: Web, root: string, seen: set<string>)
    requires seen <= ReachableLocs(web, root) && NewUrl(web, root, seen)
    ensures |seen| < |ReachableLocs(web, root)|
  {
    var u, l :| Reaches(Links(web), root, u) && l in Locs(web, u) && l !in seen;
    var locs := ReachableLocs(web, root);
    assert l in locs by {
      ReachableIsReaches(web, root, u);
    }
    Larger(seen, locs, l);
  }

  /** Too many sitemaps or too many distinct URLs below the root. */
  ghost predicate Exceeds(web: Web, root: string, maxUrls: int, maxSitemaps: int) {
    |Reachable(web, root)| > Max0(maxSitemaps) || |ReachableLocs(web, root)| > Max0(maxUrls)
  }

  /** Each reachable sitemap counted, each of their URLs collected once, each failing one reported once. */
  ghost predicate Complete(web: Web, root: string, r: SitemapResult) {
    && r.sitemapCount == |Reachable(web, root)|
    && UrlsOf(r.entries) == ReachableLocs(web, root) && |r.entries| == |ReachableLocs(web, root)|
    && ValidErrors(web, Reachable(web, root), r.errors)
  }

  /** The walk is exact: it is truncated iff the reachable sitemaps or their distinct URLs exceed
      the bounds, and otherwise its result is complete. */
  method FetchSitemapTree(web: Web, root: string, maxUrls: int, maxSitemaps: int) returns (r: SitemapResult)
    ensures r.truncated <==> Exceeds(web, root, maxUrls, maxSitemaps)
    ensures !r.truncated ==> Complete(web, root, r)
    ensures forall e <- r.entries :: Listed(web, Reachable(web, root), e)
  {
    var w := new Walker(web, maxUrls, maxSitemaps);
    w.Walk(root);
    assert w.visitedSitemaps - {} == w.visitedSitemaps;
    r := SitemapResult(w.entries, w.errors, w.truncated, |w.visitedSitemaps|);
    ResultIsExact(web, root, maxUrls, maxSitemaps, w.visitedSitemaps, w.seenLocs, r);
  }

  lemma ResultIsExact(web: Web, root: string, maxUrls: int, maxSitemaps: int, visited: set<string>, seen: set<string>,
                      r: SitemapResult)
    requires ValidEntries(web, maxUrls, visited, r.entries, seen) && ValidErrors(web, visited, r.errors)
    requires r.sitemapCount == |visited| <= Max0(maxSitemaps) && AllReached(web, root, visited)
    requires r.truncated ==>
      || (|visited| >= maxSitemaps && NewSitemap(web, root, visited))
      || (|r.entries| >= maxUrls && NewUrl(web, root, seen))
    requires !r.truncated ==> root in visited && AllExpanded(web, visited, visited, seen)
    ensures r.truncated <==> Exceeds(web, root, maxUrls, maxSitemaps)
    ensures !r.truncated ==> Complete(web, root, r)
    ensures forall e <- r.entries :: Listed(web, Reachable(web, root), e)
  {
    CollectedAreReachable(web, root, maxUrls, visited, r.entries, seen);
    ListedAbove(web, visited, Reachable(web, root), r.entries);
    if r.truncated {
      if |visited| >= maxSitemaps && NewSitemap(web, root, visited) {
        NewSitemapBeyond(web, root, visited);
      } else {
        NewUrlBeyond(web, root, seen);
      }
    } else {
      FinishedWalk(web, root, visited, seen);
      assert visited == Reachable(web, root) && seen == ReachableLocs(web, root);
    }
  }

  lemma ListedAbove(web: Web, visited: set<string>, more: set<string>, entries: seq<Entry>)
    requires visited <= more && forall e <- entries :: Listed(web, visited, e)
    ensures forall e <- entries :: Listed(web, more, e)
  {
    forall e <- entries
      ensures Listed(web, more, e)
    {
      assert Listed(web, visited, e);
    }
  }
}
