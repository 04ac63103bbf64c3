/** How often the passes derive each row: once for each place it comes from. */
module FinalizeRows {
  import opened Wrappers
  import opened Sequences
  import opened JsonCanon
  import opened FinalizePasses

  // ---------- labelled parts ----------

  /** The elements of each part, with the part's number. */
  function Label<G>(parts: nat -> seq<G>, n: nat): seq<(nat, G)> {
    if n == 0 then []
    else Label(parts, n - 1) + seq(|parts(n - 1)|, j requires 0 <= j < |parts(n - 1)| => (n - 1, parts(n - 1)[j]))
  }

  lemma {:induction false} LabelHas<G>(parts: nat -> seq<G>, n: nat, i: nat, g: G)
    ensures (i, g) in Label(parts, n) <==> i < n && g in parts(i)
  {
    if n > 0 {
      LabelHas(parts, n - 1, i, g);
      var last := seq(|parts(n - 1)|, j requires 0 <= j < |parts(n - 1)| => (n - 1, parts(n - 1)[j]));
      if i == n - 1 && g in parts(i) {
        var j :| 0 <= j < |parts(i)| && parts(i)[j] == g;
        assert last[j] == (i, g);
      }
      assert Label(parts, n) == Label(parts, n - 1) + last;
    }
  }

  lemma {:induction false} LabelDistinct<G>(parts: nat -> seq<G>, n: nat)
    requires forall i: nat :: i < n ==> Distinct(parts(i))
    ensures Distinct(Label(parts, n)) && forall x <- Label(parts, n) :: x.0 < n
  {
    if n > 0 {
      LabelDistinct(parts, n - 1);
      var before, all := Label(parts, n - 1), Label(parts, n);
      forall i, j | 0 <= i < j < |all|
        ensures all[i] != all[j]
      {
        if i < |before| {
          assert before[i] in before;
        } else {
          assert all[i].1 == parts(n - 1)[i - |before|] && all[j].1 == parts(n - 1)[j - |before|];
        }
      }
    }
  }

  /** Each row is the one of its label. */
  ghost predicate RowsOfLabels<T, G>(rows: seq<T>, at: seq<G>, of: (G, T) -> bool) {
    |rows| == |at| && forall n :: 0 <= n < |at| ==> of(at[n], rows[n])
  }

  function Under<T, G>(of: ((nat, G), T) -> bool, i: nat): (G, T) -> bool {
    (g, x) => of((i, g), x)
  }

  lemma {:induction false} FlatLabels<K, T, G>(f: K -> seq<T>, keys: seq<K>, parts: nat -> seq<G>,
                                               of: ((nat, G), T) -> bool, n: nat)
    requires n <= |keys| && forall i: nat :: i < n ==> RowsOfLabels(f(keys[i]), parts(i), Under(of, i))
    ensures RowsOfLabels(Flat(f, keys[..n]), Label(parts, n), of)
  {
    if n > 0 {
      FlatLabels(f, keys, parts, of, n - 1);
      FlatNext(f, keys, n - 1);
      var before, at := Flat(f, keys[..n - 1]), Label(parts, n - 1);
      forall k | 0 <= k < |Label(parts, n)|
        ensures of(Label(parts, n)[k], Flat(f, keys[..n])[k])
      {
        if k >= |at| {
          assert Under(of, n - 1)(parts(n - 1)[k - |at|], f(keys[n - 1])[k - |at|]);
        }
      }
    }
  }

  // ---------- joins ----------

  /** The places of a snapshot, of one of its items, and of a link check. */
  type Place = (nat, (nat, nat))

  /** The test and the row of a join. */
  datatype Rule = Rule(matches: (Snapshot, Item, LinkCheck) -> bool, row: (Snapshot, Item, LinkCheck) -> Issue)

  /** The join derives the rule's row where the rule matches, and nothing elsewhere. */
  ghost predicate Derives(c: Config, issue: (Config, Snapshot, Item, LinkCheck) -> seq<Issue>, rule: Rule) {
    forall s, i, l :: issue(c, s, i, l) == if rule.matches(s, i, l) then [rule.row(s, i, l)] else []
  }

  function ChecksAt(rule: Rule, s: Snapshot, i: Item, links: seq<LinkCheck>): seq<nat> {
    Where((b: nat) => b < |links| && rule.matches(s, i, links[b]), |links|)
  }

  predicate CheckRow(rule: Rule, s: Snapshot, i: Item, links: seq<LinkCheck>, b: nat, x: Issue) {
    b < |links| && x == rule.row(s, i, links[b])
  }

  function IsCheckRow(rule: Rule, s: Snapshot, i: Item, links: seq<LinkCheck>): (nat, Issue) -> bool {
    (b: nat, x: Issue) => CheckRow(rule, s, i, links, b, x)
  }

  lemma {:induction false} CheckRows(c: Config, issue: (Config, Snapshot, Item, LinkCheck) -> seq<Issue>, rule: Rule,
                                     s: Snapshot, i: Item, links: seq<LinkCheck>)
    requires Derives(c, issue, rule)
    ensures RowsOfLabels(Flat((l: LinkCheck) => issue(c, s, i, l), links), ChecksAt(rule, s, i, links),
                         IsCheckRow(rule, s, i, links))
  {
    var f := (l: LinkCheck) => issue(c, s, i, l);
    var test := (b: nat) => b < |links| && rule.matches(s, i, links[b]);
    FlatWhere(f, links, test, |links|);
    assert links[..|links|] == links;
    var at := Where(test, |links|);
    forall n | 0 <= n < |at|
      ensures at[n] < |links| && Flat(f, links)[n] == rule.row(s, i, links[at[n]])
    {
      assert at[n] in at && f(links[at[n]]) == [Flat(f, links)[n]];
    }
  }

  function ChecksOfItem(rule: Rule, s: Snapshot, items: seq<Item>, links: seq<LinkCheck>): nat -> seq<nat> {
    (m: nat) => if m < |items| then ChecksAt(rule, s, items[m], links) else []
  }

  function IsItemRow(rule: Rule, s: Snapshot, items: seq<Item>, links: seq<LinkCheck>): ((nat, nat), Issue) -> bool {
    (p: (nat, nat), x: Issue) => p.0 < |items| && CheckRow(rule, s, items[p.0], links, p.1, x)
  }

  lemma {:induction false} ItemRows(c: Config, issue: (Config, Snapshot, Item, LinkCheck) -> seq<Issue>, rule: Rule,
                                    s: Snapshot, items: seq<Item>, links: seq<LinkCheck>)
    requires Derives(c, issue, rule)
    ensures var at := Label(ChecksOfItem(rule, s, items, links), |items|);
      && RowsOfLabels(Flat((i: Item) => Flat((l: LinkCheck) => issue(c, s, i, l), links), items), at,
                      IsItemRow(rule, s, items, links))
      && Distinct(at)
      && forall m: nat, b: nat :: (m, b) in at <==> m < |items| && b < |links| && rule.matches(s, items[m], links[b])
  {
    var f := (i: Item) => Flat((l: LinkCheck) => issue(c, s, i, l), links);
    var parts := ChecksOfItem(rule, s, items, links);
    forall m: nat | m < |items|
      ensures RowsOfLabels(f(items[m]), parts(m), Under(IsItemRow(rule, s, items, links), m)) && Distinct(parts(m))
    {
      CheckRows(c, issue, rule, s, items[m], links);
      var of, also := IsCheckRow(rule, s, items[m], links), Under(IsItemRow(rule, s, items, links), m);
      assert forall b: nat, x: Issue :: of(b, x) ==> also(b, x);
      RowsWeaker(f(items[m]), parts(m), of, also);
    }
    FlatLabels(f, items, parts, IsItemRow(rule, s, items, links), |items|);
    assert items[..|items|] == items;
    LabelDistinct(parts, |items|);
    forall m: nat, b: nat
      ensures (m, b) in Label(parts, |items|) <==> m < |items| && b < |links| && rule.matches(s, items[m], links[b])
    {
      LabelHas(parts, |items|, m, b);
    }
  }

  // ---------- the rows of the crawl ----------

  ghost predicate Joined(c: Config, itemsOf: Snapshot -> seq<Item>, rule: Rule, snapshots: seq<Snapshot>,
                         links: seq<LinkCheck>, at: Place)
  {
    && at.0 < |snapshots| && snapshots[at.0].crawlId == c.crawlId
    && at.1.0 < |itemsOf(snapshots[at.0])| && at.1.1 < |links|
    && rule.matches(snapshots[at.0], itemsOf(snapshots[at.0])[at.1.0], links[at.1.1])
  }

  predicate IsRow(itemsOf: Snapshot -> seq<Item>, rule: Rule, snapshots: seq<Snapshot>, links: seq<LinkCheck>,
                  at: Place, x: Issue)
  {
    && at.0 < |snapshots| && at.1.0 < |itemsOf(snapshots[at.0])| && at.1.1 < |links|
    && x == rule.row(snapshots[at.0], itemsOf(snapshots[at.0])[at.1.0], links[at.1.1])
  }

  /** The rows are one for each snapshot of the crawl, item and check that match, and no others. */
  ghost predicate OneRowEach(rows: seq<Issue>, at: seq<Place>, c: Config, itemsOf: Snapshot -> seq<Item>, rule: Rule,
                             snapshots: seq<Snapshot>, links: seq<LinkCheck>)
  {
    && Distinct(at) && |at| == |rows|
    && (forall n :: 0 <= n < |at| ==> IsRow(itemsOf, rule, snapshots, links, at[n], rows[n]))
    && (forall p: Place :: p in at <==> Joined(c, itemsOf, rule, snapshots, links, p))
  }

  function PlacesOf(c: Config, itemsOf: Snapshot -> seq<Item>, rule: Rule, snapshots: seq<Snapshot>,
                    links: seq<LinkCheck>): nat -> seq<(nat, nat)>
  {
    (a: nat) =>
      if a < |snapshots| && snapshots[a].crawlId == c.crawlId then
        Label(ChecksOfItem(rule, snapshots[a], itemsOf(snapshots[a]), links), |itemsOf(snapshots[a])|)
      else []
  }

  function RowsOfSnapshot(c: Config, itemsOf: Snapshot -> seq<Item>,
                          issue: (Config, Snapshot, Item, LinkCheck) -> seq<Issue>, links: seq<LinkCheck>)
    : Snapshot -> seq<Issue>
  {
    (s: Snapshot) =>
      if s.crawlId == c.crawlId then Flat((i: Item) => Flat((l: LinkCheck) => issue(c, s, i, l), links), itemsOf(s))
      else []
  }

  function IsRowOf(itemsOf: Snapshot -> seq<Item>, rule: Rule, snapshots: seq<Snapshot>, links: seq<LinkCheck>)
    : (Place, Issue) -> bool
  {
    (p: Place, x: Issue) => IsRow(itemsOf, rule, snapshots, links, p, x)
  }

  lemma RowsWeaker<T, G>(rows: seq<T>, at: seq<G>, of: (G, T) -> bool, also: (G, T) -> bool)
    requires RowsOfLabels(rows, at, of) && forall g, x :: g in at && of(g, x) ==> also(g, x)
    ensures RowsOfLabels(rows, at, also)
  {
    forall n | 0 <= n < |at|
      ensures also(at[n], rows[n])
    {
      assert at[n] in at && of(at[n], rows[n]);
    }
  }

  lemma ItemRowIsRow(itemsOf: Snapshot -> seq<Item>, rule: Rule, snapshots: seq<Snapshot>, links: seq<LinkCheck>,
      a: nat,
                     g: (nat, nat), x: Issue)
    requires a < |snapshots| && IsItemRow(rule, snapshots[a], itemsOf(snapshots[a]), links)(g, x)
    ensures Under(IsRowOf(itemsOf, rule, snapshots, links), a)(g, x)
  {
    var p: Place := (a, g);
    assert IsRow(itemsOf, rule, snapshots, links, p, x);
    assert IsRowOf(itemsOf, rule, snapshots, links)(p, x);
  }

  lemma SnapshotRows(c: Config, itemsOf: Snapshot -> seq<Item>,
                     issue: (Config, Snapshot, Item, LinkCheck) -> seq<Issue>, rule: Rule, snapshots: seq<Snapshot>,
                     links: seq<LinkCheck>, a: nat)
    requires Derives(c, issue, rule) && a < |snapshots|
    ensures RowsOfLabels(RowsOfSnapshot(c, itemsOf, issue, links)(snapshots[a]),
                         PlacesOf(c, itemsOf, rule, snapshots, links)(a),
                           Under(IsRowOf(itemsOf, rule, snapshots, links), a))
  {
    var s := snapshots[a];
    if s.crawlId == c.crawlId {
      var items := itemsOf(s);
      ItemRows(c, issue, rule, s, items, links);
      var of, also := IsItemRow(rule, s, items, links), Under(IsRowOf(itemsOf, rule, snapshots, links), a);
      forall g: (nat, nat), x: Issue | g in Label(ChecksOfItem(rule, s, items, links), |items|) && of(g, x)
        ensures also(g, x)
      {
        ItemRowIsRow(itemsOf, rule, snapshots, links, a, g, x);
      }
      RowsWeaker(RowsOfSnapshot(c, itemsOf, issue, links)(s), Label(ChecksOfItem(rule, s, items, links), |items|), of,
        also);
    }
  }

  lemma SnapshotPlaces(c: Config, itemsOf: Snapshot -> seq<Item>,
                       issue: (Config, Snapshot, Item, LinkCheck) -> seq<Issue>, rule: Rule, snapshots: seq<Snapshot>,
                       links: seq<LinkCheck>, a: nat, q: (nat, nat))
    requires Derives(c, issue, rule) && a < |snapshots|
    ensures Distinct(PlacesOf(c, itemsOf, rule, snapshots, links)(a))
    ensures q in PlacesOf(c, itemsOf, rule, snapshots, links)(a) <==>
            Joined(c, itemsOf, rule, snapshots, links, (a, q))
  {
    var s := snapshots[a];
    if s.crawlId == c.crawlId {
      ItemRows(c, issue, rule, s, itemsOf(s), links);
      assert q == (q.0, q.1);
    }
  }

  lemma JoinRows(c: Config, itemsOf: Snapshot -> seq<Item>, issue: (Config, Snapshot, Item, LinkCheck) -> seq<Issue>,
                 rule: Rule, snapshots: seq<Snapshot>, links: seq<LinkCheck>) returns (at: seq<Place>)
    requires Derives(c, issue, rule)
    ensures OneRowEach(Join(c, itemsOf, issue, snapshots, links), at, c, itemsOf, rule, snapshots, links)
  {
    var parts, of := PlacesOf(c, itemsOf, rule, snapshots, links), IsRowOf(itemsOf, rule, snapshots, links);
    forall a: nat | a < |snapshots|
      ensures RowsOfLabels(RowsOfSnapshot(c, itemsOf, issue, links)(snapshots[a]), parts(a), Under(of, a))
      ensures Distinct(parts(a))
    {
      SnapshotRows(c, itemsOf, issue, rule, snapshots, links, a);
      SnapshotPlaces(c, itemsOf, issue, rule, snapshots, links, a, (0, 0));
    }
    FlatLabels(RowsOfSnapshot(c, itemsOf, issue, links), snapshots, parts, of, |snapshots|);
    assert snapshots[..|snapshots|] == snapshots;
    at := Label(parts, |snapshots|);
    LabelDistinct(parts, |snapshots|);
    forall p: Place
      ensures p in at <==> Joined(c, itemsOf, rule, snapshots, links, p)
    {
      PlaceLabelled(c, itemsOf, issue, rule, snapshots, links, p);
    }
    JoinIsFlat(c, itemsOf, issue, snapshots, links);
  }

  lemma {:induction false} PlaceLabelled(c: Config, itemsOf: Snapshot -> seq<Item>,
                                         issue: (Config, Snapshot, Item, LinkCheck) -> seq<Issue>, rule: Rule,
                                         snapshots: seq<Snapshot>, links: seq<LinkCheck>, p: Place)
    requires Derives(c, issue, rule)
    ensures p in Label(PlacesOf(c, itemsOf, rule, snapshots, links), |snapshots|) <==>
            Joined(c, itemsOf, rule, snapshots, links, p)
  {
    assert p == (p.0, p.1);
    LabelHas(PlacesOf(c, itemsOf, rule, snapshots, links), |snapshots|, p.0, p.1);
    if p.0 < |snapshots| {
      SnapshotPlaces(c, itemsOf, issue, rule, snapshots, links, p.0, p.1);
    }
  }

  lemma {:induction false} JoinIsFlat(c: Config, itemsOf: Snapshot -> seq<Item>,
                                      issue: (Config, Snapshot, Item, LinkCheck) -> seq<Issue>,
                                      snapshots: seq<Snapshot>, links: seq<LinkCheck>)
    ensures Join(c, itemsOf, issue, snapshots, links) == Flat(RowsOfSnapshot(c, itemsOf, issue, links), snapshots)
  {
    var f := (s: Snapshot) =>
      if s.crawlId == c.crawlId then Flat((i: Item) => Flat((l: LinkCheck) => issue(c, s, i, l), links), itemsOf(s))
      else [];
    FlatSame(f, RowsOfSnapshot(c, itemsOf, issue, links), snapshots);
  }

  lemma {:induction false} FlatSame<K, T>(f: K -> seq<T>, g: K -> seq<T>, keys: seq<K>)
    requires forall k <- keys :: f(k) == g(k)
    ensures Flat(f, keys) == Flat(g, keys)
  {
    if keys != [] {
      assert keys == [keys[0]] + keys[1..];
      FlatSame(f, g, keys[1..]);
    }
  }

  // ---------- broken links, broken images, redirect chains ----------

  predicate Fails(s: Snapshot, i: Item, l: LinkCheck) {
    l.crawlId == s.crawlId && i.target == Some(l.url) && !l.ok
  }

  function BrokenLinks(c: Config): Rule {
    Rule(Fails, (s: Snapshot, i: Item, l: LinkCheck) =>
      BrokenIssue(c, if l.isInternal then c.internalCheck else c.externalCheck, s, i, l))
  }

  function BrokenImages(c: Config): Rule {
    Rule(Fails, (s: Snapshot, i: Item, l: LinkCheck) => BrokenIssue(c, c.imageCheck, s, i, l))
  }

  function LongChains(c: Config): Rule {
    Rule((s: Snapshot, i: Item, l: LinkCheck) =>
           l.crawlId == s.crawlId && i.target == Some(l.url) && l.redirectHops > c.maxHops,
         (s: Snapshot, i: Item, l: LinkCheck) =>
           Issue(s.crawlId, s.id, s.pageId, c.redirectCheck, c.severityOf(c.redirectCheck),
                 Chained(l.url, l.redirectHops, i)))
  }

  /** Broken links: one issue for each snapshot of the crawl, first link of a target, and failed check of
      that target. */
  lemma LinkRowsOnce(c: Config, snapshots: seq<Snapshot>, links: seq<LinkCheck>) returns (at: seq<Place>)
    ensures OneRowEach(LinkRows(c, snapshots, links), at, c, LinksOf, BrokenLinks(c), snapshots, links)
  {
    at := JoinRows(c, LinksOf, LinkIssue, BrokenLinks(c), snapshots, links);
  }

  lemma ImageRowsOnce(c: Config, snapshots: seq<Snapshot>, links: seq<LinkCheck>) returns (at: seq<Place>)
    ensures OneRowEach(ImageRows(c, snapshots, links), at, c, ImagesOf, BrokenImages(c), snapshots, links)
  {
    at := JoinRows(c, ImagesOf, ImageIssue, BrokenImages(c), snapshots, links);
  }

  lemma RedirectRowsOnce(c: Config, snapshots: seq<Snapshot>, links: seq<LinkCheck>) returns (at: seq<Place>)
    ensures OneRowEach(RedirectRows(c, snapshots, links), at, c, LinksOf, LongChains(c), snapshots, links)
  {
    at := JoinRows(c, LinksOf, RedirectIssue, LongChains(c), snapshots, links);
  }

  /** No two of them have the same target, nor one already seen. */
  ghost predicate NewTargets(items: seq<Item>, seen: set<Option<string>>) {
    && (forall a :: 0 <= a < |items| ==> items[a].target !in seen)
    && forall a, b :: 0 <= a < b < |items| ==> items[a].target != items[b].target
  }

  lemma {:induction false} FirstUnseenNew(usable: Item -> bool, items: seq<Item>, seen: set<Option<string>>)
    ensures NewTargets(FirstUnseen(usable, items, seen), seen)
    decreases |items|
  {
    if items != [] {
      if usable(items[0]) && items[0].target !in seen {
        FirstUnseenNew(usable, items[1..], seen + {items[0].target});
      } else {
        FirstUnseenNew(usable, items[1..], seen);
      }
    }
  }

  /** `DISTINCT ON`: each target of a usable item once, as its first usable item. */
  lemma FirstItemsOnce(usable: Item -> bool, items: seq<Item>)
    ensures NewTargets(FirstItems(usable, items), {})
    ensures forall k: nat :: FirstAt(usable, items, k, {}) ==> items[k] in FirstItems(usable, items)
    ensures forall x <- FirstItems(usable, items) :: exists k: nat :: FirstAt(usable, items, k, {}) && items[k] == x
  {
    FirstUnseenNew(usable, items, {});
    forall x: Item
      ensures x in FirstItems(usable, items) <==> exists k: nat :: FirstAt(usable, items, k, {}) && items[k] == x
    {
      FirstUnseenAre(usable, items, {}, x);
    }
  }

  // ---------- duplicates ----------

  /** The snapshot's hash is shared by two snapshots with a sample. */
  ghost predicate Shares(c: Config, f: DupField, snapshots: seq<Snapshot>, s: Snapshot) {
    exists hash :: HasHash(c, f, hash, s) && Repeated(c, f, hash, snapshots)
  }

  /** The snapshots with a sample of the same hash are counted. */
  ghost predicate IsDupRow(c: Config, f: DupField, snapshots: seq<Snapshot>, s: Snapshot, x: Issue) {
    exists hash :: HasHash(c, f, hash, s) && x == DupIssue(c, f, s, |Matching(c, f, hash, snapshots)|)
  }

  /** One issue for each snapshot that shares its hash, in order, and no others. */
  lemma DupRowsOnce(c: Config, f: DupField, snapshots: seq<Snapshot>) returns (at: seq<nat>)
    ensures var rows := DupRows(c, f, snapshots);
      && Increasing(at) && |at| == |rows|
      && (forall n :: 0 <= n < |at| ==> at[n] < |snapshots| && IsDupRow(c, f, snapshots, snapshots[at[n]], rows[n]))
      && forall a: nat :: a in at <==> a < |snapshots| && Shares(c, f, snapshots, snapshots[a])
  {
    var rowsOf := DupIssueOf(c, f, snapshots);
    var test := (a: nat) => a < |snapshots| && |rowsOf(snapshots[a])| == 1;
    FlatWhere(rowsOf, snapshots, test, |snapshots|);
    assert snapshots[..|snapshots|] == snapshots;
    at := Where(test, |snapshots|);
    forall a: nat | a < |snapshots|
      ensures test(a) <==> Shares(c, f, snapshots, snapshots[a])
    {
      OneDupRow(c, f, snapshots, snapshots[a]);
    }
    forall n | 0 <= n < |at|
      ensures at[n] < |snapshots| && IsDupRow(c, f, snapshots, snapshots[at[n]], DupRows(c, f, snapshots)[n])
    {
      assert rowsOf(snapshots[at[n]]) == [DupRows(c, f, snapshots)[n]];
      OneDupRow(c, f, snapshots, snapshots[at[n]]);
    }
  }

  lemma OneDupRow(c: Config, f: DupField, snapshots: seq<Snapshot>, s: Snapshot)
    ensures |DupIssueOf(c, f, snapshots)(s)| == 1 <==> Shares(c, f, snapshots, s)
    ensures forall x <- DupIssueOf(c, f, snapshots)(s) :: IsDupRow(c, f, snapshots, s, x)
  {
    if s.crawlId == c.crawlId && f in s.artifacts.hashes {
      var hash := s.artifacts.hashes[f];
      MatchingTwice(c, f, hash, snapshots);
      assert HasHash(c, f, hash, s);
    }
  }

  lemma {:induction false} LeastIs(texts: seq<string>)
    requires texts != []
    ensures Least(texts) in texts && forall t <- texts :: AtMost(Least(texts), t)
  {
    AtMostTotal(texts[0], texts[0]);
    if |texts| > 1 {
      var rest := Least(texts[1..]);
      LeastIs(texts[1..]);
      AtMostTotal(texts[0], rest);
      forall t <- texts
        ensures AtMost(Least(texts), t)
      {
        if t != texts[0] {
          assert t in texts[1..];
          if AtMost(texts[0], rest) {
            AtMostTransitive(texts[0], rest, t);
          }
        }
      }
    }
  }

  lemma {:induction false} UniqueDistinct<A>(s: seq<A>)
    ensures Distinct(Unique(s))
  {
    if s != [] {
      var before := s[..|s| - 1];
      UniqueDistinct(before);
      UniqueAre(before);
      assert forall i :: 0 <= i < |Unique(before)| ==> Unique(before)[i] in Unique(before);
    }
  }

  /** The least sample of a group. */
  ghost predicate IsLeastSample(f: DupField, members: seq<Snapshot>, sample: string) {
    (exists s <- members :: SampleOf(f)(s) == sample) && forall s <- members :: AtMost(sample, SampleOf(f)(s))
  }

  lemma {:induction false} LeastSample(f: DupField, members: seq<Snapshot>)
    requires members != []
    ensures IsLeastSample(f, members, Least(Map(SampleOf(f), members)))
  {
    var samples := Map(SampleOf(f), members);
    LeastIs(samples);
    var i :| 0 <= i < |samples| && samples[i] == Least(samples);
    MapAt(SampleOf(f), members, i);
    assert members[i] in members;
    forall s <- members
      ensures AtMost(Least(samples), SampleOf(f)(s))
    {
      var j :| 0 <= j < |members| && members[j] == s;
      MapAt(SampleOf(f), members, j);
      assert samples[j] in samples;
    }
  }

  /** The group of a hash: the pages of its snapshots with a sample, in order, and the least sample. */
  ghost predicate IsGroup(c: Config, f: DupField, snapshots: seq<Snapshot>, g: DupGroup) {
    && g.crawlId == c.crawlId && g.field == f
    && g.pageIds == Map((s: Snapshot) => s.pageId, Matching(c, f, g.hash, snapshots))
    && IsLeastSample(f, Matching(c, f, g.hash, snapshots), g.sample)
  }

  lemma GroupOfIs(c: Config, f: DupField, snapshots: seq<Snapshot>, hash: string)
    ensures |GroupOf(c, f, snapshots)(hash)| == if Repeated(c, f, hash, snapshots) then 1 else 0
    ensures forall g <- GroupOf(c, f, snapshots)(hash) :: g.hash == hash && IsGroup(c, f, snapshots, g)
  {
    var members := Matching(c, f, hash, snapshots);
    MatchingTwice(c, f, hash, snapshots);
    if |members| > 1 {
      LeastSample(f, members);
    }
    forall g <- GroupOf(c, f, snapshots)(hash)
      ensures g.hash == hash && IsGroup(c, f, snapshots, g)
    {
      GroupOfHash(c, f, snapshots, hash, g);
    }
  }

  /** Each group is its hash's, and no hash has two. */
  ghost predicate GroupsApart(c: Config, f: DupField, snapshots: seq<Snapshot>, groups: seq<DupGroup>) {
    && (forall g <- groups :: IsGroup(c, f, snapshots, g))
    && forall a, b :: 0 <= a < b < |groups| ==> groups[a].hash != groups[b].hash
  }

  lemma {:induction false} GroupsAreApart(c: Config, f: DupField, snapshots: seq<Snapshot>, hashes: seq<string>)
    requires Distinct(hashes)
    ensures GroupsApart(c, f, snapshots, Flat(GroupOf(c, f, snapshots), hashes))
  {
    var rowsOf := GroupOf(c, f, snapshots);
    var test := (a: nat) => a < |hashes| && |rowsOf(hashes[a])| == 1;
    forall a: nat | a < |hashes|
      ensures |rowsOf(hashes[a])| <= 1
      ensures forall g <- rowsOf(hashes[a]) :: g.hash == hashes[a] && IsGroup(c, f, snapshots, g)
    {
      GroupOfIs(c, f, snapshots, hashes[a]);
    }
    FlatWhere(rowsOf, hashes, test, |hashes|);
    assert hashes[..|hashes|] == hashes;
    var at, groups := Where(test, |hashes|), Flat(rowsOf, hashes);
    forall a | 0 <= a < |groups|
      ensures at[a] < |hashes| && groups[a].hash == hashes[at[a]] && IsGroup(c, f, snapshots, groups[a])
    {
      assert rowsOf(hashes[at[a]]) == [groups[a]];
      assert groups[a] in rowsOf(hashes[at[a]]);
    }
  }

  /** One group for each hash that two snapshots with a sample share, and no others. */
  lemma GroupRowsOnce(c: Config, f: DupField, snapshots: seq<Snapshot>)
    ensures var groups := GroupRows(c, f, snapshots);
      GroupsApart(c, f, snapshots, groups) &&
      forall hash :: Repeated(c, f, hash, snapshots) <==> exists g <- groups :: g.hash == hash
  {
    UniqueDistinct(Flat((s: Snapshot) =>
      if s.crawlId == c.crawlId && f in s.artifacts.hashes then [s.artifacts.hashes[f]] else [], snapshots));
    GroupsAreApart(c, f, snapshots, HashesOf(c, f, snapshots));
    forall hash
      ensures Repeated(c, f, hash, snapshots) <==> exists g <- GroupRows(c, f, snapshots) :: g.hash == hash
    {
      GroupRowsAre(c, f, snapshots, hash);
    }
  }
}
