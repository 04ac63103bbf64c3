/** Idempotent persistence of a page's snapshot and its issues under at-least-once delivery. */
module Snapshots {
  import opened Wrappers
  import opened Sequences

  const CHUNK := 500

  /** The page of a crawl. */
  datatype Key = Key(crawlId: string, pageId: string)

  /** Columns of an issue that do not depend on where it is stored. */
  datatype Finding = Finding(check: string, severity: string, fingerprint: string, evidence: string)

  datatype SnapshotRow = SnapshotRow(id: nat, key: Key, content: string)

  datatype IssueRow = IssueRow(snapshotId: nat, key: Key, finding: Finding)

  // ---------- the tables ----------

  function IsKey(key: Key): SnapshotRow -> bool {
    (s: SnapshotRow) => s.key == key
  }

  /** The issues of a crawl that hang on one of the snapshots. */
  function HangsOn(crawlId: string, ids: seq<nat>): IssueRow -> bool {
    (i: IssueRow) => i.key.crawlId == crawlId && i.snapshotId in ids
  }

  function Hang(id: nat, key: Key): Finding -> IssueRow {
    (f: Finding) => IssueRow(id, key, f)
  }

  function FindingOf(): IssueRow -> Finding {
    (i: IssueRow) => i.finding
  }

  /** The ids that a delete of the page's snapshots returns. */
  function IdsOf(snapshots: seq<SnapshotRow>, key: Key): seq<nat> {
    if snapshots == [] then []
    else (if snapshots[0].key == key then [snapshots[0].id] else []) + IdsOf(snapshots[1..], key)
  }

  function NotAt(key: Key): IssueRow -> bool {
    (i: IssueRow) => i.key != key
  }

  /** The page's snapshots and issues, in order. */
  function SnapshotsAt(snapshots: seq<SnapshotRow>, key: Key): seq<SnapshotRow> {
    Drop((s: SnapshotRow) => s.key != key, snapshots)
  }

  function RowsAt(issues: seq<IssueRow>, key: Key): seq<IssueRow> {
    Drop(NotAt(key), issues)
  }

  function IssuesAt(issues: seq<IssueRow>, key: Key): seq<Finding> {
    Map(FindingOf(), RowsAt(issues, key))
  }

  // ---------- the invariant ----------

  /** One snapshot for each page at most, ids below the next one and unique, and every issue hangs on its
      page's snapshot. */
  ghost predicate Tidy(snapshots: seq<SnapshotRow>, issues: seq<IssueRow>, nextId: nat) {
    && UniqueRows(snapshots)
    && (forall s <- snapshots :: s.id < nextId)
    && (forall r <- issues :: exists s <- snapshots :: s.id == r.snapshotId && s.key == r.key)
  }

  predicate UniqueRows(snapshots: seq<SnapshotRow>) {
    forall i, j :: 0 <= i < j < |snapshots| ==>
      snapshots[i].key != snapshots[j].key && snapshots[i].id != snapshots[j].id
  }

  lemma {:induction false} IdsOfAre(snapshots: seq<SnapshotRow>, key: Key, id: nat)
    ensures id in IdsOf(snapshots, key) <==> exists s <- snapshots :: s.key == key && s.id == id
  {
    if snapshots != [] {
      IdsOfAre(snapshots[1..], key, id);
      assert snapshots == [snapshots[0]] + snapshots[1..];
    }
  }

  class SnapshotStore {
    var snapshots: seq<SnapshotRow>
    var issues: seq<IssueRow>
    var nextId: nat

    ghost predicate Valid()
      reads this
    {
      Tidy(snapshots, issues, nextId)
    }

    constructor ()
      ensures Valid() && snapshots == [] && issues == []
    {
      snapshots, issues, nextId := [], [], 0;
    }

    /** The statement that inserts a snapshot with a fresh id. */
    method InsertSnapshot(key: Key, content: string) returns (id: nat)
      modifies this`snapshots, this`nextId
      ensures id == old(nextId) && nextId == old(nextId) + 1
      ensures snapshots == old(snapshots) + [SnapshotRow(id, key, content)]
    {
      id := nextId;
      snapshots := snapshots + [SnapshotRow(id, key, content)];
      nextId := nextId + 1;
    }

    /** The statements that delete the issues of each deleted snapshot. */
    method DeleteIssues(crawlId: string, ids: seq<nat>)
      modifies this`issues
      ensures issues == Drop(HangsOn(crawlId, ids), old(issues))
    {
      DropNone(HangsOn(crawlId, []), issues);
      assert ids[..0] == [];
      for i := 0 to |ids|
        invariant issues == Drop(HangsOn(crawlId, ids[..i]), old(issues))
      {
        assert ids[..i + 1] == ids[..i] + [ids[i]];
        DropEither(HangsOn(crawlId, ids[..i]), HangsOn(crawlId, [ids[i]]), HangsOn(crawlId, ids[..i + 1]), old(issues));
        issues := Drop(HangsOn(crawlId, [ids[i]]), issues);
      }
      assert ids[..|ids|] == ids;
    }

    /** The findings, inserted a chunk at a time. */
    method InsertIssues(id: nat, key: Key, findings: seq<Finding>)
      modifies this`issues
      ensures issues == old(issues) + Map(Hang(id, key), findings)
    {
      var i := 0;
      assert old(issues) + [] == old(issues);
      while i < |findings|
        invariant i <= |findings|
        invariant issues == old(issues) + Map(Hang(id, key), findings[..i])
      {
        var end := if i + CHUNK < |findings| then i + CHUNK else |findings|;
        var chunk := findings[i..end];
        MapSplit(Hang(id, key), findings[..i], chunk);
        assert findings[..end] == findings[..i] + chunk;
        Associative(old(issues), Map(Hang(id, key), findings[..i]), Map(Hang(id, key), chunk));
        issues := issues + Map(Hang(id, key), chunk);
        i := end;
      }
      assert findings[..i] == findings;
    }

    /** One transaction: whatever was stored for the page is replaced. */
    method ReplaceSnapshot(key: Key, content: string, findings: seq<Finding>) returns (id: nat, existed: bool)
      requires Valid()
      modifies this
      ensures Valid() && id == old(nextId)
      ensures existed <==> old(SnapshotsAt(snapshots, key)) != []
      ensures SnapshotsAt(snapshots, key) == [SnapshotRow(id, key, content)]
      ensures OnlyChanged(old(snapshots), old(issues), snapshots, issues, key, Page(content, findings))
    {
      var prior := IdsOf(snapshots, key);
      ghost var first, stored := snapshots, issues;
      snapshots := Drop(IsKey(key), snapshots);
      DeleteIssues(key.crawlId, prior);
      DeletedAre(first, stored, nextId, key);
      id := InsertSnapshot(key, content);
      InsertIssues(id, key, findings);
      Replaced(first, stored, id, key, content, findings);
      existed := |prior| > 0;
    }

    /** Copies the issues of a page's earlier snapshot onto a snapshot just stored without any. */
    method CopyIssues(from: SnapshotRow, to: SnapshotRow)
      requires Valid() && from in snapshots && to in snapshots && from.key.crawlId != to.key.crawlId
      modifies this`issues
      ensures Valid()
      ensures RowsAt(issues, to.key) == old(RowsAt(issues, to.key)) +
        Map(Hang(to.id, to.key), IssuesAt(issues, from.key))
      ensures forall k: Key :: k != to.key ==> RowsAt(issues, k) == old(RowsAt(issues, k))
    {
      ghost var stored := issues;
      var copied := Map(FindingOf(), Drop((i: IssueRow) => !HangsOn(from.key.crawlId, [from.id])(i), issues));
      SnapshotIssues(snapshots, issues, nextId, from);
      issues := issues + Map(Hang(to.id, to.key), copied);
      Copied(snapshots, stored, nextId, to, copied);
    }

    /** An unchanged page: a snapshot without issues, then those of the previous crawl; a job may crash
        between the two. */
    method CarryForward(key: Key, previousCrawl: string, content: string, crash: bool)
      requires Valid() && previousCrawl != key.crawlId
      modifies this
      ensures Valid()
      ensures var prior := old(PageAt(snapshots, issues, Key(previousCrawl, key.pageId)));
        OnlyChanged(old(snapshots), old(issues), snapshots, issues, key,
                    Page(content, if prior.Some? && !crash then prior.value.findings else []))
    {
      ghost var first, stored := snapshots, issues;
      var before := Key(previousCrawl, key.pageId);
      var prior := SnapshotsAt(snapshots, before);
      var id, _ := ReplaceSnapshot(key, content, []);
      assert SnapshotsAt(snapshots, before) == SnapshotsAt(first, before);
      if |prior| > 0 && !crash {
        AtIsThere(snapshots, before);
        AtIsThere(snapshots, key);
        assert RowsAt(issues, key) == [] by {
          assert |IssuesAt(issues, key)| == 0;
        }
        CopyIssues(prior[0], SnapshotRow(id, key, content));
        MapHang(id, key, IssuesAt(issues, before));
        assert [] + Map(Hang(id, key), IssuesAt(issues, before)) == Map(Hang(id, key), IssuesAt(issues, before));
      }
    }

    /** What is stored for each page. */
    function Stored(): Key -> Option<Page>
      reads this
    {
      var rows, found := snapshots, issues;
      (k: Key) => PageAt(rows, found, k)
    }

    /** One delivery of a page job: whole, or a carry-forward that may stop between its two statements. */
    method Perform(a: Attempt)
      requires Valid() && FromEarlier(a)
      modifies this
      ensures Valid()
      ensures forall k: Key :: Stored()(k) == After(old(Stored()), a)(k)
    {
      ghost var first, stored := snapshots, issues;
      match a {
        case Replaces(key, page) => var _, _ := ReplaceSnapshot(key, page.content, page.findings);
        case Carries(key, previousCrawl, content, crash) => CarryForward(key, previousCrawl, content, crash);
      }
      ChangedIsAfter(first, stored, snapshots, issues, old(Stored()), a);
    }

    /** Deliveries of page jobs, of any kind, in any order and however often each is repeated. */
    method Deliver(attempts: seq<Attempt>)
      requires Valid() && forall a <- attempts :: FromEarlier(a)
      modifies this
      ensures Valid()
      ensures forall k: Key :: Stored()(k) == Latest(old(Stored()), attempts)(k)
      ensures forall k: Key :: |SnapshotsAt(snapshots, k)| <= 1
    {
      ghost var start := Stored();
      for i := 0 to |attempts|
        invariant Valid()
        invariant forall k: Key :: Stored()(k) == Latest(start, attempts[..i])(k)
      {
        ghost var before := Stored();
        assert attempts[..i + 1][..i] == attempts[..i];
        Perform(attempts[i]);
        SameAfter(before, Latest(start, attempts[..i]), attempts[i]);
      }
      assert attempts[..|attempts|] == attempts;
      forall k: Key
        ensures |SnapshotsAt(snapshots, k)| <= 1
      {
        AtMostOne(snapshots, k);
      }
    }
  }

  /** A delivered job: it replaces what is stored for its page, by what it found or by what an earlier
      crawl holds, and in the second case it may crash before the issues are copied. */
  datatype Attempt =
    | Replaces(key: Key, page: Page)
    | Carries(key: Key, previousCrawl: string, content: string, crash: bool)

  predicate FromEarlier(a: Attempt) {
    a.Carries? ==> a.previousCrawl != a.key.crawlId
  }

  function FindingsOf(p: Option<Page>): seq<Finding> {
    if p.Some? then p.value.findings else []
  }

  /** What an attempt leaves at its page, given what is stored. */
  function Outcome(stored: Key -> Option<Page>, a: Attempt): Page {
    match a
    case Replaces(_, page) => page
    case Carries(key, previousCrawl, content, crash) =>
      Page(content, if crash then [] else FindingsOf(stored(Key(previousCrawl, key.pageId))))
  }

  function After(stored: Key -> Option<Page>, a: Attempt): Key -> Option<Page> {
    (k: Key) => if k == a.key then Some(Outcome(stored, a)) else stored(k)
  }

  /** What is stored after the attempts, one after the other. */
  function Latest(stored: Key -> Option<Page>, attempts: seq<Attempt>): Key -> Option<Page> {
    if attempts == [] then stored
    else After(Latest(stored, attempts[..|attempts| - 1]), attempts[|attempts| - 1])
  }

  lemma SameAfter(stored: Key -> Option<Page>, other: Key -> Option<Page>, a: Attempt)
    requires forall k: Key :: stored(k) == other(k)
    ensures forall k: Key :: After(stored, a)(k) == After(other, a)(k)
  {
    if a.Carries? {
      assert stored(Key(a.previousCrawl, a.key.pageId)) == other(Key(a.previousCrawl, a.key.pageId));
    }
    assert Outcome(stored, a) == Outcome(other, a);
    forall k: Key
      ensures After(stored, a)(k) == After(other, a)(k)
    {
      assert stored(k) == other(k);
    }
  }

  lemma ChangedIsAfter(first: seq<SnapshotRow>, found: seq<IssueRow>, snapshots: seq<SnapshotRow>,
      issues: seq<IssueRow>,
                       stored: Key -> Option<Page>, a: Attempt)
    requires forall k: Key :: stored(k) == PageAt(first, found, k)
    requires OnlyChanged(first, found, snapshots, issues, a.key, Outcome(stored, a))
    ensures forall k: Key :: PageAt(snapshots, issues, k) == After(stored, a)(k)
  {
  }

  /** The attempt at `i` is the last for the page. */
  predicate LastFor(attempts: seq<Attempt>, key: Key, i: nat) {
    && i < |attempts| && attempts[i].key == key
    && forall j :: i < j < |attempts| ==> attempts[j].key != key
  }

  /** A page without attempts keeps what it held. */
  lemma {:induction false} NoAttempt(stored: Key -> Option<Page>, attempts: seq<Attempt>, key: Key)
    requires forall a <- attempts :: a.key != key
    ensures Latest(stored, attempts)(key) == stored(key)
  {
    if attempts != [] {
      assert attempts[|attempts| - 1] in attempts;
      NoAttempt(stored, attempts[..|attempts| - 1], key);
    }
  }

  /** The last attempt for a page decides what it holds, whatever came before or was delivered for other
      pages. */
  lemma {:induction false} LastAttemptWins(stored: Key -> Option<Page>, attempts: seq<Attempt>, key: Key, i: nat)
    requires LastFor(attempts, key, i)
    ensures Latest(stored, attempts)(key) == Some(Outcome(Latest(stored, attempts[..i]), attempts[i]))
    decreases |attempts|
  {
    var n := |attempts| - 1;
    if i < n {
      assert attempts[..n][..i] == attempts[..i];
      LastAttemptWins(stored, attempts[..n], key, i);
    }
  }

  /** A page whose last attempt carried forward whole, from a crawl that no job is delivered for, has the
      issues that the earlier crawl's page has, however often the job had crashed before. */
  lemma {:induction false} CarriedIssues(stored: Key -> Option<Page>, attempts: seq<Attempt>, i: nat)
    requires i < |attempts| && attempts[i].Carries? && !attempts[i].crash && LastFor(attempts, attempts[i].key, i)
    requires var from := Key(attempts[i].previousCrawl, attempts[i].key.pageId); forall a <- attempts :: a.key != from
    ensures var from := Key(attempts[i].previousCrawl, attempts[i].key.pageId);
      Latest(stored, attempts)(attempts[i].key) == Some(Page(attempts[i].content, FindingsOf(stored(from))))
  {
    var from := Key(attempts[i].previousCrawl, attempts[i].key.pageId);
    LastAttemptWins(stored, attempts, attempts[i].key, i);
    assert forall a <- attempts[..i] :: a in attempts;
    NoAttempt(stored, attempts[..i], from);
  }

  lemma {:induction false} AtMostOne(snapshots: seq<SnapshotRow>, key: Key)
    requires UniqueRows(snapshots)
    ensures |SnapshotsAt(snapshots, key)| <= 1
  {
    if snapshots != [] {
      AtMostOne(snapshots[1..], key);
      if snapshots[0].key == key {
        DropAll((s: SnapshotRow) => s.key != key, snapshots[1..]);
      }
    }
  }

  lemma AtIsThere(snapshots: seq<SnapshotRow>, key: Key)
    ensures forall s :: s in SnapshotsAt(snapshots, key) <==> s in snapshots && s.key == key
  {
    forall s
      ensures s in SnapshotsAt(snapshots, key) <==> s in snapshots && s.key == key
    {
      DropHas((s: SnapshotRow) => s.key != key, snapshots, s);
    }
  }

  /** The issues that hang on a snapshot are those of its page. */
  lemma {:induction false} SnapshotIssues(snapshots: seq<SnapshotRow>, issues: seq<IssueRow>, nextId: nat,
                                          from: SnapshotRow)
    requires Tidy(snapshots, issues, nextId) && from in snapshots
    ensures Drop((i: IssueRow) => !HangsOn(from.key.crawlId, [from.id])(i), issues) == RowsAt(issues, from.key)
  {
    forall r <- issues
      ensures HangsOn(from.key.crawlId, [from.id])(r) <==> r.key == from.key
    {
      var s :| s in snapshots && s.id == r.snapshotId && s.key == r.key;
    }
    DropSame((i: IssueRow) => !HangsOn(from.key.crawlId, [from.id])(i), NotAt(from.key), issues);
  }

  lemma {:induction false} Copied(snapshots: seq<SnapshotRow>, stored: seq<IssueRow>, nextId: nat, to: SnapshotRow,
                                  copied: seq<Finding>)
    requires Tidy(snapshots, stored, nextId) && to in snapshots
    ensures var issues := stored + Map(Hang(to.id, to.key), copied);
      && Tidy(snapshots, issues, nextId)
      && RowsAt(issues, to.key) == RowsAt(stored, to.key) + Map(Hang(to.id, to.key), copied)
      && forall k: Key :: k != to.key ==> RowsAt(issues, k) == RowsAt(stored, k)
  {
    var rows := Map(Hang(to.id, to.key), copied);
    HangKeys(to.id, to.key, copied);
    forall k: Key
      ensures RowsAt(stored + rows, k) == RowsAt(stored, k) + if k == to.key then rows else []
    {
      DropSplit(NotAt(k), stored, rows);
      if k == to.key {
        DropNone(NotAt(k), rows);
      } else {
        DropAll(NotAt(k), rows);
      }
    }
    assert forall k: Key :: RowsAt(stored, k) + [] == RowsAt(stored, k);
  }

  datatype Page = Page(content: string, findings: seq<Finding>)

  /** What is stored for a page. */
  function PageAt(snapshots: seq<SnapshotRow>, issues: seq<IssueRow>, key: Key): Option<Page> {
    var mine := SnapshotsAt(snapshots, key);
    if mine == [] then None else Some(Page(mine[0].content, IssuesAt(issues, key)))
  }

  /** The issues to delete are exactly those of the page. */
  lemma {:induction false} DeletedAre(snapshots: seq<SnapshotRow>, issues: seq<IssueRow>, nextId: nat, key: Key)
    requires Tidy(snapshots, issues, nextId)
    ensures Drop(HangsOn(key.crawlId, IdsOf(snapshots, key)), issues) == Drop(OfPage(key), issues)
    ensures |IdsOf(snapshots, key)| > 0 <==> SnapshotsAt(snapshots, key) != []
  {
    var ids := IdsOf(snapshots, key);
    forall r <- issues
      ensures HangsOn(key.crawlId, ids)(r) <==> r.key == key
    {
      IdsOfAre(snapshots, key, r.snapshotId);
      var s :| s in snapshots && s.id == r.snapshotId && s.key == r.key;
    }
    DropSame(HangsOn(key.crawlId, ids), OfPage(key), issues);
    IdsAreThere(snapshots, key);
  }

  function OfPage(key: Key): IssueRow -> bool {
    (i: IssueRow) => i.key == key
  }

  lemma {:induction false} DropSame<A>(f: A -> bool, g: A -> bool, s: seq<A>)
    requires forall x <- s :: f(x) <==> g(x)
    ensures Drop(f, s) == Drop(g, s)
  {
    if s != [] {
      assert s == [s[0]] + s[1..];
      DropSame(f, g, s[1..]);
    }
  }

  lemma {:induction false} IdsAreThere(snapshots: seq<SnapshotRow>, key: Key)
    ensures |IdsOf(snapshots, key)| == |SnapshotsAt(snapshots, key)|
  {
    if snapshots != [] {
      IdsAreThere(snapshots[1..], key);
    }
  }

  /** The page now has what is given, and every other page what it had. */
  ghost predicate OnlyChanged(first: seq<SnapshotRow>, stored: seq<IssueRow>, snapshots: seq<SnapshotRow>,
                              issues: seq<IssueRow>, key: Key, page: Page)
  {
    && PageAt(snapshots, issues, key) == Some(page)
    && forall k: Key :: k != key ==>
      SnapshotsAt(snapshots, k) == SnapshotsAt(first, k) && RowsAt(issues, k) == RowsAt(stored, k)
  }

  lemma {:induction false} Replaced(first: seq<SnapshotRow>, stored: seq<IssueRow>, id: nat, key: Key, content: string,
                                    findings: seq<Finding>)
    requires Tidy(first, stored, id)
    ensures var snapshots := Drop(IsKey(key), first) + [SnapshotRow(id, key, content)];
      var issues := Drop(OfPage(key), stored) + Map(Hang(id, key), findings);
      && Tidy(snapshots, issues, id + 1) && SnapshotsAt(snapshots, key) == [SnapshotRow(id, key, content)]
      && OnlyChanged(first, stored, snapshots, issues, key, Page(content, findings))
  {
    var snapshots := Drop(IsKey(key), first) + [SnapshotRow(id, key, content)];
    var issues := Drop(OfPage(key), stored) + Map(Hang(id, key), findings);
    ReplacedTidy(first, stored, id, key, content, findings);
    forall k: Key
      ensures SnapshotsAt(snapshots, k) == if k == key then [SnapshotRow(id, key, content)] else SnapshotsAt(first, k)
      ensures RowsAt(issues, k) == if k == key then Map(Hang(id, key), findings) else RowsAt(stored, k)
    {
      ReplacedSnapshots(first, id, key, content, k);
      ReplacedRows(stored, id, key, findings, k);
    }
    MapHang(id, key, findings);
  }

  lemma {:induction false} ReplacedSnapshots(first: seq<SnapshotRow>, id: nat, key: Key, content: string, k: Key)
    ensures SnapshotsAt(Drop(IsKey(key), first) + [SnapshotRow(id, key, content)], k) ==
            if k == key then [SnapshotRow(id, key, content)] else SnapshotsAt(first, k)
  {
    var other := (s: SnapshotRow) => s.key != k;
    var row := SnapshotRow(id, key, content);
    var all := (s: SnapshotRow) => true;
    DropSplit(other, Drop(IsKey(key), first), [row]);
    assert Drop(other, [row]) == if k == key then [row] else [] by {
      assert Drop(other, []) == [];
    }
    if k == key {
      DropEither(IsKey(key), other, all, first);
      DropAll(all, first);
    } else {
      DropEither(IsKey(key), other, other, first);
      assert Drop(other, first) + [] == Drop(other, first);
    }
  }

  lemma {:induction false} ReplacedRows(stored: seq<IssueRow>, id: nat, key: Key, findings: seq<Finding>, k: Key)
    ensures RowsAt(Drop(OfPage(key), stored) + Map(Hang(id, key), findings), k) ==
            if k == key then Map(Hang(id, key), findings) else RowsAt(stored, k)
  {
    var rows := Map(Hang(id, key), findings);
    var all := (i: IssueRow) => true;
    DropSplit(NotAt(k), Drop(OfPage(key), stored), rows);
    HangKeys(id, key, findings);
    if k == key {
      DropEither(OfPage(key), NotAt(k), all, stored);
      DropAll(all, stored);
      DropNone(NotAt(k), rows);
    } else {
      DropEither(OfPage(key), NotAt(k), NotAt(k), stored);
      DropAll(NotAt(k), rows);
      assert Drop(NotAt(k), stored) + [] == Drop(NotAt(k), stored);
    }
  }

  lemma {:induction false} HangKeys(id: nat, key: Key, findings: seq<Finding>)
    ensures forall r <- Map(Hang(id, key), findings) :: r.key == key && r.snapshotId == id
  {
    if findings != [] {
      HangKeys(id, key, findings[1..]);
    }
  }

  lemma {:induction false} MapHang(id: nat, key: Key, findings: seq<Finding>)
    ensures Map(FindingOf(), Map(Hang(id, key), findings)) == findings
  {
    if findings != [] {
      MapHang(id, key, findings[1..]);
      var rows := Map(Hang(id, key), findings);
      assert rows[0] == IssueRow(id, key, findings[0]) && rows[1..] == Map(Hang(id, key), findings[1..]);
      assert Map(FindingOf(), rows) == [findings[0]] + Map(FindingOf(), rows[1..]);
    }
  }

  lemma UniqueFirst(x: SnapshotRow, rest: seq<SnapshotRow>)
    requires UniqueRows(rest) && forall s <- rest :: s.key != x.key && s.id != x.id
    ensures UniqueRows([x] + rest)
  {
    var all := [x] + rest;
    forall i, j | 0 <= i < j < |all|
      ensures all[i].key != all[j].key && all[i].id != all[j].id
    {
      assert all[j] == rest[j - 1] && rest[j - 1] in rest;
    }
  }

  lemma {:induction false} DropDistinct(first: seq<SnapshotRow>, key: Key)
    requires UniqueRows(first)
    ensures UniqueRows(Drop(IsKey(key), first))
  {
    if first != [] {
      var rest := Drop(IsKey(key), first[1..]);
      DropDistinct(first[1..], key);
      if first[0].key != key {
        forall s <- rest
          ensures s.key != first[0].key && s.id != first[0].id
        {
          DropHas(IsKey(key), first[1..], s);
          var j :| 0 <= j < |first[1..]| && first[1..][j] == s;
          assert first[j + 1] == s;
        }
        UniqueFirst(first[0], rest);
      }
    }
  }

  lemma {:induction false} ReplacedTidy(first: seq<SnapshotRow>, stored: seq<IssueRow>, id: nat, key: Key,
                                        content: string, findings: seq<Finding>)
    requires Tidy(first, stored, id)
    ensures Tidy(Drop(IsKey(key), first) + [SnapshotRow(id, key, content)],
                 Drop(OfPage(key), stored) + Map(Hang(id, key), findings), id + 1)
  {
    var kept, row := Drop(IsKey(key), first), SnapshotRow(id, key, content);
    var rows := Map(Hang(id, key), findings);
    DropDistinct(first, key);
    HangKeys(id, key, findings);
    assert row in kept + [row];
    forall s: SnapshotRow
      ensures s in kept <==> s in first && s.key != key
    {
      DropHas(IsKey(key), first, s);
    }
    assert forall s <- kept :: s.key != key && s.id < id;
    forall r <- Drop(OfPage(key), stored) + rows
      ensures exists s <- kept + [row] :: s.id == r.snapshotId && s.key == r.key
    {
      if r in rows {
        assert row.id == r.snapshotId && row.key == r.key;
      } else {
        DropHas(OfPage(key), stored, r);
        var s :| s in first && s.id == r.snapshotId && s.key == r.key;
        assert s in kept + [row];
      }
    }
  }
}
