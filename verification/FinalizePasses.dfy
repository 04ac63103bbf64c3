/** The finalizer's passes over its tables: the issues they derive, and that however often a run is cut
    short, one full run ends in the same state. */
module FinalizePasses {
  import opened Wrappers
  import opened Sequences
  import opened JsonCanon
  import opened Scoring

  // ---------- the tables ----------

  datatype DupField = Title | Description | Heading

  /** An extracted link or image; a missing attribute is null. */
  datatype Item = Item(target: Option<string>, text: Option<string>, selector: Option<string>, snippet: Option<string>)

  datatype Artifacts = Artifacts(hashes: map<DupField, string>, samples: map<DupField, string>, links: seq<Item>,
                                 images: seq<Item>)

  datatype Snapshot = Snapshot(id: string, crawlId: string, pageId: string, artifacts: Artifacts)

  /** The columns of a snapshot that rescoring writes. */
  datatype Grade = Grade(score: Option<real>, counts: map<Severity, nat>)

  datatype LinkCheck = LinkCheck(crawlId: string, url: string, ok: bool, isInternal: bool, redirectHops: int,
                                 status: Option<int>, error: Option<string>)

  datatype Evidence =
    | Duplicated(value: Option<string>, duplicateCount: nat, field: DupField)
    | Broken(check: LinkCheck, item: Item)
    | Chained(url: string, hops: int, item: Item)
    | Found(details: string)

  /** A stored issue, without its row id. */
  datatype Issue = Issue(crawlId: string, snapshotId: string, pageId: string, check: string, severity: Severity,
                         evidence: Evidence)

  datatype DupGroup = DupGroup(crawlId: string, field: DupField, hash: string, sample: string, pageIds: seq<string>)

  /** The grade at each index belongs to the snapshot there. */
  datatype Tables = Tables(snapshots: seq<Snapshot>, grades: seq<Grade>, issues: seq<Issue>, groups: seq<DupGroup>,
                           links: seq<LinkCheck>)

  datatype Config = Config(crawlId: string, titleCheck: string, descriptionCheck: string, headingCheck: string,
                           internalCheck: string, externalCheck: string, imageCheck: string, redirectCheck: string,
                           maxHops: int, severityOf: string -> Severity, catalog: Catalog, log2: Log)

  function DupCheck(c: Config, f: DupField): string {
    match f
    case Title => c.titleCheck
    case Description => c.descriptionCheck
    case Heading => c.headingCheck
  }

  // ---------- duplicates ----------

  predicate HasHash(c: Config, f: DupField, hash: string, s: Snapshot) {
    s.crawlId == c.crawlId && f in s.artifacts.hashes && s.artifacts.hashes[f] == hash
  }

  /** The snapshot counts towards the group of its hash: it has a sample to show. */
  predicate Eligible(c: Config, f: DupField, hash: string, s: Snapshot) {
    HasHash(c, f, hash, s) && f in s.artifacts.samples && s.artifacts.samples[f] != ""
  }

  function Matching(c: Config, f: DupField, hash: string, snapshots: seq<Snapshot>): seq<Snapshot> {
    Drop((s: Snapshot) => !Eligible(c, f, hash, s), snapshots)
  }

  function HashesOf(c: Config, f: DupField, snapshots: seq<Snapshot>): seq<string> {
    Unique(Flat((s: Snapshot) =>
      if s.crawlId == c.crawlId && f in s.artifacts.hashes then [s.artifacts.hashes[f]] else [], snapshots))
  }

  function Least(texts: seq<string>): string
    requires texts != []
  {
    if |texts| == 1 then texts[0]
    else
      var rest := Least(texts[1..]);
      if AtMost(texts[0], rest) then texts[0] else rest
  }

  function SampleOf(f: DupField): Snapshot -> string {
    (s: Snapshot) => if f in s.artifacts.samples then s.artifacts.samples[f] else ""
  }

  function GroupOf(c: Config, f: DupField, snapshots: seq<Snapshot>): string -> seq<DupGroup> {
    (hash: string) =>
      var members := Matching(c, f, hash, snapshots);
      if |members| > 1 then
        [DupGroup(c.crawlId, f, hash, Least(Map(SampleOf(f), members)), Map((s: Snapshot) => s.pageId, members))]
      else []
  }

  function GroupRows(c: Config, f: DupField, snapshots: seq<Snapshot>): seq<DupGroup> {
    Flat(GroupOf(c, f, snapshots), HashesOf(c, f, snapshots))
  }

  /** Every snapshot of the crawl with the hash of a group gets the issue, whatever its sample. */
  function DupIssueOf(c: Config, f: DupField, snapshots: seq<Snapshot>): Snapshot -> seq<Issue> {
    (s: Snapshot) =>
      if s.crawlId == c.crawlId && f in s.artifacts.hashes
         && |Matching(c, f, s.artifacts.hashes[f], snapshots)| > 1 then
        [DupIssue(c, f, s, |Matching(c, f, s.artifacts.hashes[f], snapshots)|)]
      else []
  }

  function DupIssue(c: Config, f: DupField, s: Snapshot, count: nat): Issue {
    var value := if f in s.artifacts.samples then Some(s.artifacts.samples[f]) else None;
    Issue(s.crawlId, s.id, s.pageId, DupCheck(c, f), c.severityOf(DupCheck(c, f)), Duplicated(value, count, f))
  }

  function DupRows(c: Config, f: DupField, snapshots: seq<Snapshot>): seq<Issue> {
    Flat(DupIssueOf(c, f, snapshots), snapshots)
  }

  // ---------- links and images ----------

  predicate UsableLink(i: Item) {
    i.target.Some?
  }

  predicate UsableImage(i: Item) {
    i.target.Some? && i.target.value != ""
  }

  /** The first usable item of each target, in order. */
  function FirstItems(usable: Item -> bool, items: seq<Item>): seq<Item> {
    FirstUnseen(usable, items, {})
  }

  function FirstUnseen(usable: Item -> bool, items: seq<Item>, seen: set<Option<string>>): seq<Item>
    decreases |items|
  {
    if items == [] then []
    else if usable(items[0]) && items[0].target !in seen then
      [items[0]] + FirstUnseen(usable, items[1..], seen + {items[0].target})
    else FirstUnseen(usable, items[1..], seen)
  }

  function BrokenIssue(c: Config, check: string, s: Snapshot, i: Item, l: LinkCheck): Issue {
    Issue(s.crawlId, s.id, s.pageId, check, c.severityOf(check), Broken(l, i))
  }

  function LinkIssue(c: Config, s: Snapshot, i: Item, l: LinkCheck): seq<Issue> {
    if l.crawlId == s.crawlId && i.target == Some(l.url) && !l.ok
    then [BrokenIssue(c, if l.isInternal then c.internalCheck else c.externalCheck, s, i, l)] else []
  }

  function ImageIssue(c: Config, s: Snapshot, i: Item, l: LinkCheck): seq<Issue> {
    if l.crawlId == s.crawlId && i.target == Some(l.url) && !l.ok then [BrokenIssue(c, c.imageCheck, s, i, l)] else []
  }

  function RedirectIssue(c: Config, s: Snapshot, i: Item, l: LinkCheck): seq<Issue> {
    if l.crawlId == s.crawlId && i.target == Some(l.url) && l.redirectHops > c.maxHops then
      [Issue(s.crawlId, s.id, s.pageId, c.redirectCheck, c.severityOf(c.redirectCheck),
        Chained(l.url, l.redirectHops, i))]
    else []
  }

  /** The rows of a join of a crawl's snapshots, their items and the link checks. */
  function Join(c: Config, itemsOf: Snapshot -> seq<Item>, issue: (Config, Snapshot, Item, LinkCheck) -> seq<Issue>,
                snapshots: seq<Snapshot>, links: seq<LinkCheck>): seq<Issue>
  {
    Flat((s: Snapshot) =>
      if s.crawlId == c.crawlId then Flat((i: Item) => Flat((l: LinkCheck) => issue(c, s, i, l), links), itemsOf(s))
      else [], snapshots)
  }

  function LinksOf(s: Snapshot): seq<Item> {
    FirstItems(UsableLink, s.artifacts.links)
  }

  function ImagesOf(s: Snapshot): seq<Item> {
    FirstItems(UsableImage, s.artifacts.images)
  }

  function LinkRows(c: Config, snapshots: seq<Snapshot>, links: seq<LinkCheck>): seq<Issue> {
    Join(c, LinksOf, LinkIssue, snapshots, links)
  }

  function ImageRows(c: Config, snapshots: seq<Snapshot>, links: seq<LinkCheck>): seq<Issue> {
    Join(c, ImagesOf, ImageIssue, snapshots, links)
  }

  function RedirectRows(c: Config, snapshots: seq<Snapshot>, links: seq<LinkCheck>): seq<Issue> {
    Join(c, LinksOf, RedirectIssue, snapshots, links)
  }

  // ---------- what the rows mean ----------

  lemma JoinHas(c: Config, itemsOf: Snapshot -> seq<Item>, issue: (Config, Snapshot, Item, LinkCheck) -> seq<Issue>,
                snapshots: seq<Snapshot>, links: seq<LinkCheck>, x: Issue)
    ensures x in Join(c, itemsOf, issue, snapshots, links) <==>
      exists s, i, l :: s in snapshots && s.crawlId == c.crawlId && i in itemsOf(s) && l in links &&
        x in issue(c, s, i, l)
  {
    var perSnapshot := (s: Snapshot) =>
      if s.crawlId == c.crawlId then Flat((i: Item) => Flat((l: LinkCheck) => issue(c, s, i, l), links), itemsOf(s))
      else [];
    FlatHas(perSnapshot, snapshots, x);
    forall s: Snapshot | s.crawlId == c.crawlId
      ensures x in perSnapshot(s) <==> exists i, l :: i in itemsOf(s) && l in links && x in issue(c, s, i, l)
    {
      var perItem := (i: Item) => Flat((l: LinkCheck) => issue(c, s, i, l), links);
      FlatHas(perItem, itemsOf(s), x);
      forall i: Item
        ensures x in perItem(i) <==> exists l :: l in links && x in issue(c, s, i, l)
      {
        FlatHas((l: LinkCheck) => issue(c, s, i, l), links, x);
      }
    }
  }

  /** The item at an index is the first usable one with its target, and the target is not yet seen. */
  predicate FirstAt(usable: Item -> bool, items: seq<Item>, k: nat, seen: set<Option<string>>) {
    && k < |items| && usable(items[k]) && items[k].target !in seen
    && forall j :: 0 <= j < k && usable(items[j]) ==> items[j].target != items[k].target
  }

  lemma FirstAtNext(usable: Item -> bool, items: seq<Item>, k: nat, seen: set<Option<string>>)
    requires items != []
    ensures var more := if usable(items[0]) then seen + {items[0].target} else seen;
      FirstAt(usable, items, k + 1, seen) <==> FirstAt(usable, items[1..], k, more)
  {
    var rest := items[1..];
    var more := if usable(items[0]) then seen + {items[0].target} else seen;
    if FirstAt(usable, rest, k, more) {
      forall j | 0 <= j < k + 1 && usable(items[j])
        ensures items[j].target != items[k + 1].target
      {
        assert j > 0 ==> rest[j - 1] == items[j];
      }
    }
    if FirstAt(usable, items, k + 1, seen) {
      assert forall j :: 0 <= j < k ==> rest[j] == items[j + 1];
    }
  }

  lemma {:induction false} FirstUnseenAre(usable: Item -> bool, items: seq<Item>, seen: set<Option<string>>, x: Item)
    ensures x in FirstUnseen(usable, items, seen) <==> exists k: nat :: FirstAt(usable, items, k, seen) && items[k] == x
    decreases |items|
  {
    if items != [] {
      var rest := items[1..];
      var more := if usable(items[0]) then seen + {items[0].target} else seen;
      FirstUnseenAre(usable, rest, more, x);
      forall k: nat
        ensures FirstAt(usable, items, k + 1, seen) <==> FirstAt(usable, rest, k, more)
      {
        FirstAtNext(usable, items, k, seen);
      }
      SeenOnce(usable, items, seen);
      if exists k: nat :: FirstAt(usable, rest, k, more) && rest[k] == x {
        var k: nat :| FirstAt(usable, rest, k, more) && rest[k] == x;
        assert FirstAt(usable, items, k + 1, seen);
      }
      if exists k: nat :: FirstAt(usable, items, k, seen) && items[k] == x {
        var k: nat :| FirstAt(usable, items, k, seen) && items[k] == x;
        assert k > 0 ==> FirstAt(usable, rest, k - 1, more) && rest[k - 1] == x;
      }
      assert FirstAt(usable, items, 0, seen) <==> usable(items[0]) && items[0].target !in seen;
    }
  }

  lemma SeenOnce(usable: Item -> bool, items: seq<Item>, seen: set<Option<string>>)
    requires items != []
    ensures var more := if usable(items[0]) then seen + {items[0].target} else seen;
      FirstUnseen(usable, items, seen) ==
        (if usable(items[0]) && items[0].target !in seen then [items[0]] else []) +
          FirstUnseen(usable, items[1..], more)
  {
    if usable(items[0]) && items[0].target in seen {
      assert seen + {items[0].target} == seen;
    }
  }

  /** Broken links: an issue for each snapshot of the crawl, first link with a target and failed check
      of that target, and no others. */
  lemma LinkRowsAre(c: Config, snapshots: seq<Snapshot>, links: seq<LinkCheck>, x: Issue)
    ensures x in LinkRows(c, snapshots, links) <==>
      exists s, i, l :: s in snapshots && s.crawlId == c.crawlId && i in LinksOf(s) && l in links
        && l.crawlId == s.crawlId && i.target == Some(l.url) && !l.ok
        && x == BrokenIssue(c, if l.isInternal then c.internalCheck else c.externalCheck, s, i, l)
  {
    JoinHas(c, LinksOf, LinkIssue, snapshots, links, x);
  }

  lemma ImageRowsAre(c: Config, snapshots: seq<Snapshot>, links: seq<LinkCheck>, x: Issue)
    ensures x in ImageRows(c, snapshots, links) <==>
      exists s, i, l :: s in snapshots && s.crawlId == c.crawlId && i in ImagesOf(s) && l in links
        && l.crawlId == s.crawlId && i.target == Some(l.url) && !l.ok && x == BrokenIssue(c, c.imageCheck, s, i, l)
  {
    JoinHas(c, ImagesOf, ImageIssue, snapshots, links, x);
  }

  lemma RedirectRowsAre(c: Config, snapshots: seq<Snapshot>, links: seq<LinkCheck>, x: Issue)
    ensures x in RedirectRows(c, snapshots, links) <==>
      exists s, i, l :: s in snapshots && s.crawlId == c.crawlId && i in LinksOf(s) && l in links
        && l.crawlId == s.crawlId && i.target == Some(l.url) && l.redirectHops > c.maxHops
        && x == Issue(s.crawlId, s.id, s.pageId, c.redirectCheck, c.severityOf(c.redirectCheck),
                      Chained(l.url, l.redirectHops, i))
  {
    JoinHas(c, LinksOf, RedirectIssue, snapshots, links, x);
  }

  /** Two different snapshots count towards the hash. */
  predicate Repeated(c: Config, f: DupField, hash: string, snapshots: seq<Snapshot>) {
    exists i, j :: 0 <= i < j < |snapshots| && Eligible(c, f, hash, snapshots[i]) && Eligible(c, f, hash, snapshots[j])
  }

  ghost predicate Found(c: Config, f: DupField, hash: string, snapshots: seq<Snapshot>) {
    exists j :: 0 <= j < |snapshots| && Eligible(c, f, hash, snapshots[j])
  }

  lemma {:induction false} MatchingSome(c: Config, f: DupField, hash: string, snapshots: seq<Snapshot>)
    ensures |Matching(c, f, hash, snapshots)| > 0 <==> Found(c, f, hash, snapshots)
  {
    var drop := (s: Snapshot) => !Eligible(c, f, hash, s);
    var members := Matching(c, f, hash, snapshots);
    if |members| > 0 {
      DropHas(drop, snapshots, members[0]);
      assert members[0] in members;
    }
    if exists i :: 0 <= i < |snapshots| && Eligible(c, f, hash, snapshots[i]) {
      var i :| 0 <= i < |snapshots| && Eligible(c, f, hash, snapshots[i]);
      DropHas(drop, snapshots, snapshots[i]);
    }
  }

  lemma RepeatedThen(c: Config, f: DupField, hash: string, snapshots: seq<Snapshot>)
    requires snapshots != []
    requires Repeated(c, f, hash, snapshots[1..]) ||
      (Eligible(c, f, hash, snapshots[0]) && Found(c, f, hash, snapshots[1..]))
    ensures Repeated(c, f, hash, snapshots)
  {
    var rest := snapshots[1..];
    if Repeated(c, f, hash, rest) {
      var i, j :| 0 <= i < j < |rest| && Eligible(c, f, hash, rest[i]) && Eligible(c, f, hash, rest[j]);
      assert snapshots[i + 1] == rest[i] && snapshots[j + 1] == rest[j];
    } else {
      var j :| 0 <= j < |rest| && Eligible(c, f, hash, rest[j]);
      assert snapshots[j + 1] == rest[j];
    }
  }

  lemma RepeatedFrom(c: Config, f: DupField, hash: string, snapshots: seq<Snapshot>)
    requires Repeated(c, f, hash, snapshots)
    ensures Repeated(c, f, hash, snapshots[1..]) ||
      (Eligible(c, f, hash, snapshots[0]) && Found(c, f, hash, snapshots[1..]))
  {
    var rest := snapshots[1..];
    var i, j :| 0 <= i < j < |snapshots| && Eligible(c, f, hash, snapshots[i]) && Eligible(c, f, hash, snapshots[j]);
    assert rest[j - 1] == snapshots[j] && (i > 0 ==> rest[i - 1] == snapshots[i]);
  }

  lemma {:induction false} MatchingTwice(c: Config, f: DupField, hash: string, snapshots: seq<Snapshot>)
    ensures |Matching(c, f, hash, snapshots)| > 1 <==> Repeated(c, f, hash, snapshots)
  {
    if snapshots != [] {
      MatchingTwice(c, f, hash, snapshots[1..]);
      MatchingSome(c, f, hash, snapshots[1..]);
      if Repeated(c, f, hash, snapshots) {
        RepeatedFrom(c, f, hash, snapshots);
      } else if Repeated(c, f, hash, snapshots[1..]) ||
        (Eligible(c, f, hash, snapshots[0]) && Found(c, f, hash, snapshots[1..])) {
        RepeatedThen(c, f, hash, snapshots);
      }
    }
  }

  lemma DupIssueAt(c: Config, f: DupField, snapshots: seq<Snapshot>, s: Snapshot, x: Issue)
    ensures x in DupIssueOf(c, f, snapshots)(s) <==>
      exists hash :: HasHash(c, f, hash, s) && Repeated(c, f, hash, snapshots)
        && x == DupIssue(c, f, s, |Matching(c, f, hash, snapshots)|)
  {
    if s.crawlId == c.crawlId && f in s.artifacts.hashes {
      var hash := s.artifacts.hashes[f];
      MatchingTwice(c, f, hash, snapshots);
      assert HasHash(c, f, hash, s);
    }
  }

  /** Duplicates: an issue for each snapshot whose hash two snapshots with a sample share, counting
      those with a sample. */
  lemma DupRowsAre(c: Config, f: DupField, snapshots: seq<Snapshot>, x: Issue)
    ensures x in DupRows(c, f, snapshots) <==>
      exists s, hash :: s in snapshots && HasHash(c, f, hash, s) && Repeated(c, f, hash, snapshots)
        && x == DupIssue(c, f, s, |Matching(c, f, hash, snapshots)|)
  {
    var rowsOf := DupIssueOf(c, f, snapshots);
    FlatHas(rowsOf, snapshots, x);
    forall s: Snapshot
      ensures x in rowsOf(s) <==>
        exists hash :: HasHash(c, f, hash, s) && Repeated(c, f, hash, snapshots)
          && x == DupIssue(c, f, s, |Matching(c, f, hash, snapshots)|)
    {
      DupIssueAt(c, f, snapshots, s, x);
    }
  }

  lemma GroupOfHash(c: Config, f: DupField, snapshots: seq<Snapshot>, hash: string, g: DupGroup)
    requires g in GroupOf(c, f, snapshots)(hash)
    ensures g.hash == hash && g.crawlId == c.crawlId && g.field == f
    ensures g.pageIds == Map((s: Snapshot) => s.pageId, Matching(c, f, hash, snapshots))
    ensures Repeated(c, f, hash, snapshots)
  {
    MatchingTwice(c, f, hash, snapshots);
  }

  /** Groups: one for each hash that two snapshots with a sample share, naming the pages of all such
      snapshots. */
  lemma GroupRowsAre(c: Config, f: DupField, snapshots: seq<Snapshot>, hash: string)
    ensures Repeated(c, f, hash, snapshots) <==> exists g <- GroupRows(c, f, snapshots) :: g.hash == hash
    ensures forall g <- GroupRows(c, f, snapshots) :: g.hash == hash ==>
      g.crawlId == c.crawlId && g.field == f &&
        g.pageIds == Map((s: Snapshot) => s.pageId, Matching(c, f, hash, snapshots))
  {
    var hashes, rowsOf := HashesOf(c, f, snapshots), GroupOf(c, f, snapshots);
    forall g <- GroupRows(c, f, snapshots) | g.hash == hash
      ensures g in rowsOf(hash)
    {
      FlatHas(rowsOf, hashes, g);
      var h :| h in hashes && g in rowsOf(h);
      GroupOfHash(c, f, snapshots, h, g);
    }
    forall g <- GroupRows(c, f, snapshots) | g.hash == hash
      ensures g.crawlId == c.crawlId && g.field == f && Repeated(c, f, hash, snapshots)
      ensures g.pageIds == Map((s: Snapshot) => s.pageId, Matching(c, f, hash, snapshots))
    {
      GroupOfHash(c, f, snapshots, hash, g);
    }
    if Repeated(c, f, hash, snapshots) {
      RepeatedHasGroup(c, f, hash, snapshots);
    }
  }

  lemma RepeatedHasGroup(c: Config, f: DupField, hash: string, snapshots: seq<Snapshot>)
    requires Repeated(c, f, hash, snapshots)
    ensures exists g <- GroupRows(c, f, snapshots) :: g.hash == hash
  {
    HashListed(c, f, hash, snapshots);
    MatchingTwice(c, f, hash, snapshots);
    var rows := GroupOf(c, f, snapshots)(hash);
    assert rows[0] in rows;
    FlatHas(GroupOf(c, f, snapshots), HashesOf(c, f, snapshots), rows[0]);
  }

  lemma HashListed(c: Config, f: DupField, hash: string, snapshots: seq<Snapshot>)
    requires Repeated(c, f, hash, snapshots)
    ensures hash in HashesOf(c, f, snapshots)
  {
    var i, j :| 0 <= i < j < |snapshots| && Eligible(c, f, hash, snapshots[i]) && Eligible(c, f, hash, snapshots[j]);
    var own := (s: Snapshot) =>
      if s.crawlId == c.crawlId && f in s.artifacts.hashes then [s.artifacts.hashes[f]] else [];
    FlatHas(own, snapshots, hash);
    assert hash in own(snapshots[i]);
    UniqueAre(Flat(own, snapshots));
  }

  // ---------- rescoring ----------

  function PageFaults(c: Config, issues: seq<Issue>, pageId: string): seq<Fault> {
    Flat((i: Issue) => if i.crawlId == c.crawlId &&
      i.pageId == pageId then [Fault(i.check, i.severity)] else [], issues)
  }

  function CountsOf(faults: seq<Fault>): map<Severity, nat> {
    var severities := Map((f: Fault) => f.severity, faults);
    map s | s in severities :: multiset(severities)[s]
  }

  /** A page without issues keeps its grade. */
  function Regraded(c: Config, issues: seq<Issue>, s: Snapshot, g: Grade): Grade {
    var faults := PageFaults(c, issues, s.pageId);
    if s.crawlId == c.crawlId && faults != [] then Grade(Some(SqlScore(faults, c.catalog, c.log2)), CountsOf(faults))
      else g
  }

  function Regrade(c: Config, issues: seq<Issue>, snapshots: seq<Snapshot>, grades: seq<Grade>): seq<Grade> {
    seq(|grades|, i requires 0 <= i < |grades| =>
      if i < |snapshots| then Regraded(c, issues, snapshots[i], grades[i]) else grades[i])
  }

  // ---------- the run ----------

  datatype Step = Duplicates(field: DupField) | ClearLinks | AddLinks | ClearImages | AddImages | ClearRedirects |
                  AddRedirects | Rescore

  /** The statements of a run; each is atomic, and a run may stop after any of them. */
  const RUN: seq<Step> := [Duplicates(Title), Duplicates(Description), Duplicates(Heading), ClearLinks, AddLinks,
                           ClearImages, AddImages, ClearRedirects, AddRedirects, Rescore]

  /** The issues of the crawl with one of the checks. */
  function IsOf(c: Config, checks: set<string>): Issue -> bool {
    (i: Issue) => i.crawlId == c.crawlId && i.check in checks
  }

  function IsGroupOf(c: Config, f: DupField): DupGroup -> bool {
    (g: DupGroup) => g.crawlId == c.crawlId && g.field == f
  }

  function LinkChecks(c: Config): set<string> {
    {c.internalCheck, c.externalCheck}
  }

  function Do(c: Config, t: Tables, step: Step): Tables {
    match step
    case Duplicates(f) =>
      t.(groups := Drop(IsGroupOf(c, f), t.groups) + GroupRows(c, f, t.snapshots),
         issues := Drop(IsOf(c, {DupCheck(c, f)}), t.issues) + DupRows(c, f, t.snapshots))
    case ClearLinks => t.(issues := Drop(IsOf(c, LinkChecks(c)), t.issues))
    case AddLinks => t.(issues := t.issues + LinkRows(c, t.snapshots, t.links))
    case ClearImages => t.(issues := Drop(IsOf(c, {c.imageCheck}), t.issues))
    case AddImages => t.(issues := t.issues + ImageRows(c, t.snapshots, t.links))
    case ClearRedirects => t.(issues := Drop(IsOf(c, {c.redirectCheck}), t.issues))
    case AddRedirects => t.(issues := t.issues + RedirectRows(c, t.snapshots, t.links))
    case Rescore => t.(grades := Regrade(c, t.issues, t.snapshots, t.grades))
  }

  function DoAll(c: Config, t: Tables, steps: seq<Step>): Tables {
    if steps == [] then t else Do(c, DoAll(c, t, steps[..|steps| - 1]), steps[|steps| - 1])
  }

  class IssueStore {
    const config: Config
    var snapshots: seq<Snapshot>
    var grades: seq<Grade>
    var issues: seq<Issue>
    var groups: seq<DupGroup>
    var links: seq<LinkCheck>

    constructor (config: Config, t: Tables)
      ensures this.config == config && View() == t
    {
      this.config := config;
      snapshots, grades, issues, groups, links := t.snapshots, t.grades, t.issues, t.groups, t.links;
    }

    function View(): Tables
      reads this
    {
      Tables(snapshots, grades, issues, groups, links)
    }

    /** One transaction: the field's groups and issues are replaced. */
    method InsertDuplicateIssues(f: DupField) returns (inserted: nat)
      modifies this
      ensures View() == Do(config, old(View()), Duplicates(f)) && inserted == |DupRows(config, f, snapshots)|
    {
      groups := Drop(IsGroupOf(config, f), groups);
      issues := Drop(IsOf(config, {DupCheck(config, f)}), issues);
      groups := groups + GroupRows(config, f, snapshots);
      var rows := DupRows(config, f, snapshots);
      issues := issues + rows;
      inserted := |rows|;
    }

    method ClearChecks(checks: set<string>)
      modifies this`issues
      ensures issues == Drop(IsOf(config, checks), old(issues))
      ensures Remains(old(issues), issues, (i: Issue) => i.crawlId == config.crawlId && i.check in checks)
    {
      DropRemains(IsOf(config, checks), issues);
      issues := Drop(IsOf(config, checks), issues);
    }

    method AddRows(rows: seq<Issue>) returns (inserted: nat)
      modifies this`issues
      ensures issues == old(issues) + rows && inserted == |rows|
    {
      issues := issues + rows;
      inserted := |rows|;
    }

    method RecomputeSnapshotScores()
      requires |grades| == |snapshots|
      modifies this`grades
      ensures grades == Regrade(config, issues, snapshots, old(grades))
    {
      ghost var before := grades;
      for i := 0 to |grades|
        invariant |grades| == |before| == |snapshots|
        invariant forall k :: 0 <= k < i ==> grades[k] == Regraded(config, issues, snapshots[k], before[k])
        invariant forall k :: i <= k < |grades| ==> grades[k] == before[k]
      {
        grades := grades[i := Regraded(config, issues, snapshots[i], grades[i])];
      }
    }

    method Perform(step: Step)
      requires |grades| == |snapshots|
      modifies this
      ensures View() == Do(config, old(View()), step) && |grades| == |snapshots|
    {
      match step
      case Duplicates(f) => var _ := InsertDuplicateIssues(f);
      case ClearLinks => ClearChecks({config.internalCheck, config.externalCheck});
      case AddLinks => var _ := AddRows(LinkRows(config, snapshots, links));
      case ClearImages => ClearChecks({config.imageCheck});
      case AddImages => var _ := AddRows(ImageRows(config, snapshots, links));
      case ClearRedirects => ClearChecks({config.redirectCheck});
      case AddRedirects => var _ := AddRows(RedirectRows(config, snapshots, links));
      case Rescore => RecomputeSnapshotScores();
    }

    method PerformNext(ghost start: Tables, steps: seq<Step>, i: nat)
      requires |grades| == |snapshots| && i < |steps| && View() == DoAll(config, start, steps[..i])
      modifies this
      ensures |grades| == |snapshots| && View() == DoAll(config, start, steps[..i + 1])
    {
      DoAllNext(config, start, steps, i);
      Perform(steps[i]);
    }

    method PerformAll(steps: seq<Step>)
      requires |grades| == |snapshots|
      modifies this
      ensures View() == DoAll(config, old(View()), steps) && |grades| == |snapshots|
    {
      ghost var start := View();
      assert DoAll(config, start, steps[..0]) == start;
      for i := 0 to |steps|
        invariant |grades| == |snapshots| && View() == DoAll(config, start, steps[..i])
      {
        PerformNext(start, steps, i);
      }
      assert steps[..|steps|] == steps;
    }

    /** The passes in order, stopping after the first `cut` statements. */
    method Finalize(cut: nat)
      requires |grades| == |snapshots| && cut <= |RUN|
      modifies this
      ensures View() == DoAll(config, old(View()), RUN[..cut]) && |grades| == |snapshots|
    {
      PerformAll(RUN[..cut]);
    }
  }

  lemma {:induction false} DoAllNext(c: Config, t: Tables, steps: seq<Step>, i: nat)
    requires i < |steps|
    ensures DoAll(c, t, steps[..i + 1]) == Do(c, DoAll(c, t, steps[..i]), steps[i])
  {
    assert steps[..i + 1][..i] == steps[..i];
  }
}
