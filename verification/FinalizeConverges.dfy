/** Convergence of the finalizer: any number of runs cut short anywhere, then one full run, end in the
    state of one full run. */
module FinalizeConverges {
  import opened Wrappers
  import opened Sequences
  import opened Scoring
  import opened FinalizePasses

  // ---------- dropping and adding rows ----------

  /** A statement's effect on a table: it drops some rows and adds others. */
  datatype Pass<!A> = Change(drop: A -> bool, rows: seq<A>)

  function RunPass<A>(x: seq<A>, p: Pass<A>): seq<A> {
    Drop(p.drop, x) + p.rows
  }

  function RunPasses<A>(x: seq<A>, ps: seq<Pass<A>>): seq<A> {
    if ps == [] then x else RunPass(RunPasses(x, ps[..|ps| - 1]), ps[|ps| - 1])
  }

  ghost predicate Dropped<A>(ps: seq<Pass<A>>, a: A) {
    exists i :: 0 <= i < |ps| && ps[i].drop(a)
  }

  /** No pass drops what an earlier one added. */
  ghost predicate Apart<A(!new)>(ps: seq<Pass<A>>) {
    forall i, j, a :: 0 <= i < j < |ps| && a in ps[i].rows ==> !ps[j].drop(a)
  }

  function RowsOf<A>(): Pass<A> -> seq<A> {
    (p: Pass<A>) => p.rows
  }

  lemma {:induction false} PassAfter<A>(kept: seq<A>, added: seq<A>, p: Pass<A>)
    requires forall a <- added :: !p.drop(a)
    ensures RunPass(kept + added, p) == Drop(p.drop, kept) + (added + p.rows)
  {
    DropSplit(p.drop, kept, added);
    DropNone(p.drop, added);
    Associative(Drop(p.drop, kept), added, p.rows);
  }

  lemma DroppedBefore<A>(ps: seq<Pass<A>>, a: A)
    requires ps != []
    ensures Dropped(ps, a) <==> Dropped(ps[..|ps| - 1], a) || ps[|ps| - 1].drop(a)
  {
    var n := |ps| - 1;
    if Dropped(ps, a) && !ps[n].drop(a) {
      var i :| 0 <= i < |ps| && ps[i].drop(a);
      assert ps[..n][i].drop(a);
    }
    if Dropped(ps[..n], a) {
      var i :| 0 <= i < n && ps[..n][i].drop(a);
      assert ps[i].drop(a);
    }
  }

  lemma EarlierRowsStay<A(!new)>(ps: seq<Pass<A>>, a: A)
    requires ps != [] && Apart(ps) && a in Flat(RowsOf<A>(), ps[..|ps| - 1])
    ensures !ps[|ps| - 1].drop(a)
  {
    var before := ps[..|ps| - 1];
    FlatHas(RowsOf<A>(), before, a);
    var p :| p in before && a in RowsOf<A>()(p);
    var i :| 0 <= i < |before| && before[i] == p;
    assert a in ps[i].rows;
  }

  /** Running passes over a table leaves the rows that none drops, then all that was added. */
  lemma {:induction false} PassesResult<A(!new)>(x: seq<A>, ps: seq<Pass<A>>, dropped: A -> bool)
    requires Apart(ps) && forall a :: dropped(a) <==> Dropped(ps, a)
    ensures RunPasses(x, ps) == Drop(dropped, x) + Flat(RowsOf<A>(), ps)
    decreases |ps|
  {
    if ps == [] {
      DropNone(dropped, x);
      assert x + [] == x;
    } else {
      var n := |ps| - 1;
      var before, last := ps[..n], ps[n];
      var earlier := (a: A) => exists i :: 0 <= i < n && before[i].drop(a);
      PassesResult(x, before, earlier);
      forall a: A
        ensures dropped(a) <==> earlier(a) || last.drop(a)
      {
        DroppedBefore(ps, a);
      }
      DropEither(earlier, last.drop, dropped, x);
      forall a <- Flat(RowsOf<A>(), before)
        ensures !last.drop(a)
      {
        EarlierRowsStay(ps, a);
      }
      PassAfter(Drop(earlier, x), Flat(RowsOf<A>(), before), last);
      FlatAppend(RowsOf<A>(), before, last);
      assert before + [last] == ps;
    }
  }

  lemma {:induction false} OwnedPass<A>(x: seq<A>, p: Pass<A>, owned: A -> bool)
    requires (forall a <- p.rows :: owned(a)) && forall a <- x :: p.drop(a) ==> owned(a)
    ensures Drop(owned, RunPass(x, p)) == Drop(owned, x)
  {
    DropSplit(owned, Drop(p.drop, x), p.rows);
    DropEither(p.drop, owned, owned, x);
    DropAll(owned, p.rows);
    assert Drop(owned, x) + [] == Drop(owned, x);
  }

  /** Passes that only drop and add owned rows do not touch the others. */
  lemma {:induction false} OthersUntouched<A(!new)>(x: seq<A>, ps: seq<Pass<A>>, owned: A -> bool)
    requires forall i, a :: 0 <= i < |ps| && (a in ps[i].rows || ps[i].drop(a)) ==> owned(a)
    ensures Drop(owned, RunPasses(x, ps)) == Drop(owned, x)
    decreases |ps|
  {
    if ps != [] {
      var n := |ps| - 1;
      assert forall i :: 0 <= i < n ==> ps[..n][i] == ps[i];
      OthersUntouched(x, ps[..n], owned);
      OwnedPass(RunPasses(x, ps[..n]), ps[n], owned);
    }
  }

  // ---------- the statements as passes ----------

  function Never<A>(): A -> bool {
    (a: A) => false
  }

  function IssuePass(c: Config, snapshots: seq<Snapshot>, links: seq<LinkCheck>, step: Step): Pass<Issue> {
    match step
    case Duplicates(f) => Change(IsOf(c, {DupCheck(c, f)}), DupRows(c, f, snapshots))
    case ClearLinks => Change(IsOf(c, LinkChecks(c)), [])
    case AddLinks => Change(Never(), LinkRows(c, snapshots, links))
    case ClearImages => Change(IsOf(c, {c.imageCheck}), [])
    case AddImages => Change(Never(), ImageRows(c, snapshots, links))
    case ClearRedirects => Change(IsOf(c, {c.redirectCheck}), [])
    case AddRedirects => Change(Never(), RedirectRows(c, snapshots, links))
    case Rescore => Change(Never(), [])
  }

  function GroupPass(c: Config, snapshots: seq<Snapshot>, step: Step): Pass<DupGroup> {
    match step
    case Duplicates(f) => Change(IsGroupOf(c, f), GroupRows(c, f, snapshots))
    case _ => Change(Never(), [])
  }

  function IssuePassOf(c: Config, t: Tables): Step -> Pass<Issue> {
    (step: Step) => IssuePass(c, t.snapshots, t.links, step)
  }

  function GroupPassOf(c: Config, t: Tables): Step -> Pass<DupGroup> {
    (step: Step) => GroupPass(c, t.snapshots, step)
  }

  lemma {:induction false} DropNever<A>(x: seq<A>)
    ensures Drop(Never<A>(), x) == x
  {
    DropNone(Never<A>(), x);
  }

  lemma DoIsPass(c: Config, t: Tables, step: Step)
    ensures Do(c, t, step).issues == RunPass(t.issues, IssuePass(c, t.snapshots, t.links, step))
    ensures Do(c, t, step).groups == RunPass(t.groups, GroupPass(c, t.snapshots, step))
    ensures Do(c, t, step).snapshots == t.snapshots && Do(c, t, step).links == t.links
    ensures step != Rescore ==> Do(c, t, step).grades == t.grades
    ensures step == Rescore ==> Do(c, t, step).grades == Regrade(c, t.issues, t.snapshots, t.grades)
  {
    DropNever(t.issues);
    DropNever(t.groups);
    assert t.issues + [] == t.issues && t.groups + [] == t.groups;
  }

  lemma {:induction false} DoAllIsPasses(c: Config, t: Tables, steps: seq<Step>)
    ensures var u := DoAll(c, t, steps);
      && u.snapshots == t.snapshots && u.links == t.links
      && u.issues == RunPasses(t.issues, Map(IssuePassOf(c, t), steps))
      && u.groups == RunPasses(t.groups, Map(GroupPassOf(c, t), steps))
      && (Rescore !in steps ==> u.grades == t.grades)
  {
    if steps != [] {
      var n := |steps| - 1;
      var before, last := steps[..n], steps[n];
      DoAllIsPasses(c, t, before);
      DoIsPass(c, DoAll(c, t, before), last);
      MapLast(IssuePassOf(c, t), steps);
      MapLast(GroupPassOf(c, t), steps);
    }
  }

  lemma {:induction false} MapLast<A, B>(f: A -> B, s: seq<A>)
    requires s != []
    ensures Map(f, s)[..|s| - 1] == Map(f, s[..|s| - 1]) && Map(f, s)[|s| - 1] == f(s[|s| - 1])
  {
    var n := |s| - 1;
    MapSplit(f, s[..n], [s[n]]);
    assert s == s[..n] + [s[n]];
    assert Map(f, [s[n]]) == [f(s[n])];
  }

  // ---------- what the finalizer owns ----------

  /** The passes have different checks; the two kinds of broken links may share one. */
  predicate DistinctChecks(c: Config) {
    && c.titleCheck != c.descriptionCheck && c.titleCheck != c.headingCheck && c.descriptionCheck != c.headingCheck
    && c.imageCheck != c.redirectCheck
    && {c.titleCheck, c.descriptionCheck, c.headingCheck} !!
         {c.internalCheck, c.externalCheck, c.imageCheck, c.redirectCheck}
    && {c.internalCheck, c.externalCheck} !! {c.imageCheck, c.redirectCheck}
  }

  function OwnedChecks(c: Config): set<string> {
    {c.titleCheck, c.descriptionCheck, c.headingCheck, c.internalCheck, c.externalCheck, c.imageCheck, c.redirectCheck}
  }

  /** The checks whose issues a statement drops or adds. */
  function ChecksOf(c: Config, step: Step): set<string> {
    match step
    case Duplicates(f) => {DupCheck(c, f)}
    case ClearLinks => LinkChecks(c)
    case AddLinks => LinkChecks(c)
    case ClearImages => {c.imageCheck}
    case AddImages => {c.imageCheck}
    case ClearRedirects => {c.redirectCheck}
    case AddRedirects => {c.redirectCheck}
    case Rescore => {}
  }

  lemma RowsAreOwned(c: Config, snapshots: seq<Snapshot>, links: seq<LinkCheck>, step: Step, x: Issue)
    requires x in IssuePass(c, snapshots, links, step).rows
    ensures x.crawlId == c.crawlId && x.check in ChecksOf(c, step)
    ensures !step.ClearLinks? && !step.ClearImages? && !step.ClearRedirects?
  {
    match step
    case Duplicates(f) => DupRowsAre(c, f, snapshots, x);
    case AddLinks => LinkRowsAre(c, snapshots, links, x);
    case AddImages => ImageRowsAre(c, snapshots, links, x);
    case AddRedirects => RedirectRowsAre(c, snapshots, links, x);
    case _ =>
  }

  lemma DropsAreOwned(c: Config, snapshots: seq<Snapshot>, links: seq<LinkCheck>, step: Step, x: Issue)
    requires IssuePass(c, snapshots, links, step).drop(x)
    ensures x.crawlId == c.crawlId && x.check in ChecksOf(c, step)
    ensures !step.AddLinks? && !step.AddImages? && !step.AddRedirects?
  {
  }

  predicate Sources(a: Step, b: Step) {
    || (a.Duplicates? && a == b)
    || (a == AddLinks && b == ClearLinks)
    || (a == AddImages && b == ClearImages)
    || (a == AddRedirects && b == ClearRedirects)
  }

  /** A run: no statement is followed by one that drops what it added, everything owned is dropped, and
      rescoring comes last. */
  ghost predicate IsRun(run: seq<Step>) {
    && run != []
    && (forall i, j :: 0 <= i < j < |run| ==> !Sources(run[i], run[j]))
    && (forall f: DupField :: Duplicates(f) in run) && ClearLinks in run && ClearImages in run && ClearRedirects in run
    && run[|run| - 1] == Rescore && Rescore !in run[..|run| - 1]
  }

  function StepAt(i: nat): Step {
    if i == 0 then Duplicates(Title)
    else if i == 1 then Duplicates(Description)
    else if i == 2 then Duplicates(Heading)
    else if i == 3 then ClearLinks
    else if i == 4 then AddLinks
    else if i == 5 then ClearImages
    else if i == 6 then AddImages
    else if i == 7 then ClearRedirects
    else if i == 8 then AddRedirects
    else Rescore
  }

  lemma RunAt(i: nat)
    requires i < 10
    ensures |RUN| == 10 && RUN[i] == StepAt(i)
  {
  }

  lemma StepsInOrder(i: nat, j: nat)
    requires i < j < 10
    ensures !Sources(StepAt(i), StepAt(j)) && StepAt(i) != Rescore
  {
  }

  lemma InRun(step: Step, i: nat)
    requires i < 10 && step == StepAt(i)
    ensures step in RUN
  {
    RunAt(i);
  }

  lemma FinalizerIsRun()
    ensures IsRun(RUN)
  {
    InRun(Duplicates(Title), 0);
    InRun(Duplicates(Description), 1);
    InRun(Duplicates(Heading), 2);
    InRun(ClearLinks, 3);
    InRun(ClearImages, 5);
    InRun(ClearRedirects, 7);
    RunAt(9);
    var run := RUN;
    forall i, j | 0 <= i < j < |run|
      ensures !Sources(run[i], run[j]) && run[i] != Rescore
    {
      RunAt(i);
      RunAt(j);
      StepsInOrder(i, j);
    }
    forall f: DupField
      ensures Duplicates(f) in run
    {
      assert f == Title || f == Description || f == Heading;
    }
    assert run[|run| - 1] == Rescore;
    assert Rescore !in run[..|run| - 1] by {
      assert forall i :: 0 <= i < |run| - 1 ==> run[..|run| - 1][i] == run[i];
    }
  }

  lemma {:induction false} IssuePassesApart(run: seq<Step>, c: Config, t: Tables)
    requires IsRun(run) && DistinctChecks(c)
    ensures Apart(Map(IssuePassOf(c, t), run))
  {
    var ps := Map(IssuePassOf(c, t), run);
    forall i, j, x | 0 <= i < j < |ps| && x in ps[i].rows
      ensures !ps[j].drop(x)
    {
      MapAt(IssuePassOf(c, t), run, i);
      MapAt(IssuePassOf(c, t), run, j);
      RowsAreOwned(c, t.snapshots, t.links, run[i], x);
      if ps[j].drop(x) {
        DropsAreOwned(c, t.snapshots, t.links, run[j], x);
        SharedCheck(c, run[i], run[j], x.check);
      }
    }
  }

  lemma SharedCheck(c: Config, a: Step, b: Step, check: string)
    requires DistinctChecks(c) && check in ChecksOf(c, a) && check in ChecksOf(c, b)
    requires !a.ClearLinks? && !a.ClearImages? && !a.ClearRedirects?
    requires !b.AddLinks? && !b.AddImages? && !b.AddRedirects?
    ensures Sources(a, b)
  {
  }

  lemma {:induction false} GroupPassesApart(run: seq<Step>, c: Config, t: Tables)
    requires IsRun(run)
    ensures Apart(Map(GroupPassOf(c, t), run))
  {
    var ps := Map(GroupPassOf(c, t), run);
    forall i, j, g | 0 <= i < j < |ps| && g in ps[i].rows
      ensures !ps[j].drop(g)
    {
      MapAt(GroupPassOf(c, t), run, i);
      MapAt(GroupPassOf(c, t), run, j);
      GroupRowsAre(c, run[i].field, t.snapshots, g.hash);
    }
  }

  predicate OwnedIssue(c: Config, i: Issue) {
    i.crawlId == c.crawlId && i.check in OwnedChecks(c)
  }

  predicate OwnedGroup(c: Config, g: DupGroup) {
    g.crawlId == c.crawlId
  }

  function IssueOwned(c: Config): Issue -> bool {
    (i: Issue) => OwnedIssue(c, i)
  }

  function GroupOwned(c: Config): DupGroup -> bool {
    (g: DupGroup) => OwnedGroup(c, g)
  }

  /** The statement that drops the issues with an owned check. */
  function DroppingStep(c: Config, check: string): Step
    requires check in OwnedChecks(c)
  {
    if check == c.titleCheck then Duplicates(Title)
    else if check == c.descriptionCheck then Duplicates(Description)
    else if check == c.headingCheck then Duplicates(Heading)
    else if check in LinkChecks(c) then ClearLinks
    else if check == c.imageCheck then ClearImages
    else ClearRedirects
  }

  lemma OwnedHasStep(c: Config, t: Tables, x: Issue)
    requires OwnedIssue(c, x)
    ensures IssuePass(c, t.snapshots, t.links, DroppingStep(c, x.check)).drop(x)
  {
  }

  lemma {:induction false} OwnedIsDropped(run: seq<Step>, c: Config, t: Tables, x: Issue)
    requires IsRun(run)
    ensures OwnedIssue(c, x) <==> Dropped(Map(IssuePassOf(c, t), run), x)
  {
    var ps := Map(IssuePassOf(c, t), run);
    if OwnedIssue(c, x) {
      OwnedHasStep(c, t, x);
      assert DroppingStep(c, x.check) in run;
      var i :| 0 <= i < |run| && run[i] == DroppingStep(c, x.check);
      MapAt(IssuePassOf(c, t), run, i);
      assert ps[i].drop(x);
    }
    if Dropped(ps, x) {
      var i :| 0 <= i < |ps| && ps[i].drop(x);
      MapAt(IssuePassOf(c, t), run, i);
      DropsAreOwned(c, t.snapshots, t.links, run[i], x);
    }
  }

  lemma {:induction false} OwnedGroupIsDropped(run: seq<Step>, c: Config, t: Tables, g: DupGroup)
    requires IsRun(run)
    ensures OwnedGroup(c, g) <==> Dropped(Map(GroupPassOf(c, t), run), g)
  {
    var ps := Map(GroupPassOf(c, t), run);
    if OwnedGroup(c, g) {
      assert Duplicates(g.field) in run;
      var i :| 0 <= i < |run| && run[i] == Duplicates(g.field);
      MapAt(GroupPassOf(c, t), run, i);
      assert ps[i].drop(g);
    }
    if Dropped(ps, g) {
      var i :| 0 <= i < |ps| && ps[i].drop(g);
      MapAt(GroupPassOf(c, t), run, i);
    }
  }

  // ---------- a full run ----------

  /** The issues after a full run: those that are not the finalizer's, then its own afresh. */
  function FinalIssues(run: seq<Step>, c: Config, t: Tables): seq<Issue> {
    Drop(IssueOwned(c), t.issues) + Flat(RowsOf<Issue>(), Map(IssuePassOf(c, t), run))
  }

  function FinalGroups(run: seq<Step>, c: Config, t: Tables): seq<DupGroup> {
    Drop(GroupOwned(c), t.groups) + Flat(RowsOf<DupGroup>(), Map(GroupPassOf(c, t), run))
  }

  function Final(run: seq<Step>, c: Config, t: Tables): Tables {
    t.(issues := FinalIssues(run, c, t), groups := FinalGroups(run, c, t),
       grades := Regrade(c, FinalIssues(run, c, t), t.snapshots, t.grades))
  }

  lemma {:induction false} FullIssues(run: seq<Step>, c: Config, t: Tables)
    requires IsRun(run) && DistinctChecks(c)
    ensures RunPasses(t.issues, Map(IssuePassOf(c, t), run)) == FinalIssues(run, c, t)
  {
    IssuePassesApart(run, c, t);
    forall x: Issue
      ensures IssueOwned(c)(x) <==> Dropped(Map(IssuePassOf(c, t), run), x)
    {
      OwnedIsDropped(run, c, t, x);
    }
    PassesResult(t.issues, Map(IssuePassOf(c, t), run), IssueOwned(c));
  }

  lemma {:induction false} FullGroups(run: seq<Step>, c: Config, t: Tables)
    requires IsRun(run)
    ensures RunPasses(t.groups, Map(GroupPassOf(c, t), run)) == FinalGroups(run, c, t)
  {
    GroupPassesApart(run, c, t);
    forall g: DupGroup
      ensures GroupOwned(c)(g) <==> Dropped(Map(GroupPassOf(c, t), run), g)
    {
      OwnedGroupIsDropped(run, c, t, g);
    }
    PassesResult(t.groups, Map(GroupPassOf(c, t), run), GroupOwned(c));
  }

  /** All statements but the last leave the grades alone. */
  lemma {:induction false} BeforeRescore(run: seq<Step>, c: Config, t: Tables, k: nat)
    requires IsRun(run) && k < |run|
    ensures DoAll(c, t, run[..k]).grades == t.grades
  {
    assert Rescore !in run[..k] by {
      assert forall i :: 0 <= i < k ==> run[i] == run[..|run| - 1][i];
    }
    DoAllIsPasses(c, t, run[..k]);
  }

  lemma {:induction false} LastRescores(run: seq<Step>, c: Config, t: Tables)
    requires IsRun(run)
    ensures DoAll(c, t, run).grades == Regrade(c, DoAll(c, t, run).issues, t.snapshots, t.grades)
  {
    var n := |run| - 1;
    var almost := DoAll(c, t, run[..n]);
    BeforeRescore(run, c, t, n);
    DoAllIsPasses(c, t, run[..n]);
    assert DoAll(c, t, run) == Do(c, almost, Rescore);
  }

  /** What a full run leaves, whatever state it starts from. */
  lemma {:induction false} FullRun(run: seq<Step>, c: Config, t: Tables)
    requires IsRun(run) && DistinctChecks(c)
    ensures DoAll(c, t, run) == Final(run, c, t)
  {
    DoAllIsPasses(c, t, run);
    FullIssues(run, c, t);
    FullGroups(run, c, t);
    LastRescores(run, c, t);
  }

  // ---------- convergence ----------

  lemma {:induction false} CutKeepsOthers(run: seq<Step>, c: Config, t: Tables, k: nat)
    requires k <= |run|
    ensures var u := DoAll(c, t, run[..k]);
      && u.snapshots == t.snapshots && u.links == t.links
      && Drop(IssueOwned(c), u.issues) == Drop(IssueOwned(c), t.issues)
      && Drop(GroupOwned(c), u.groups) == Drop(GroupOwned(c), t.groups)
  {
    var steps := run[..k];
    DoAllIsPasses(c, t, steps);
    var ps, qs := Map(IssuePassOf(c, t), steps), Map(GroupPassOf(c, t), steps);
    forall i, x: Issue | 0 <= i < |ps| && (x in ps[i].rows || ps[i].drop(x))
      ensures IssueOwned(c)(x)
    {
      MapAt(IssuePassOf(c, t), steps, i);
      StepIsOwned(c, t, steps[i], x);
    }
    OthersUntouched(t.issues, ps, IssueOwned(c));
    forall i, g: DupGroup | 0 <= i < |qs| && (g in qs[i].rows || qs[i].drop(g))
      ensures GroupOwned(c)(g)
    {
      MapAt(GroupPassOf(c, t), steps, i);
      if steps[i].Duplicates? {
        GroupRowsAre(c, steps[i].field, t.snapshots, g.hash);
      }
    }
    OthersUntouched(t.groups, qs, GroupOwned(c));
  }

  lemma StepIsOwned(c: Config, t: Tables, step: Step, x: Issue)
    requires var p := IssuePass(c, t.snapshots, t.links, step); x in p.rows || p.drop(x)
    ensures OwnedIssue(c, x)
  {
    if x in IssuePass(c, t.snapshots, t.links, step).rows {
      RowsAreOwned(c, t.snapshots, t.links, step, x);
    } else {
      DropsAreOwned(c, t.snapshots, t.links, step, x);
    }
  }

  lemma RegradeTwice(c: Config, issues: seq<Issue>, snapshots: seq<Snapshot>, grades: seq<Grade>)
    ensures Regrade(c, issues, snapshots, Regrade(c, issues, snapshots, grades)) ==
            Regrade(c, issues, snapshots, grades)
  {
  }

  /** A run stopped anywhere, even between a clear and its insert, leads a full run to the same state. */
  lemma {:induction false} CutThenFull(run: seq<Step>, c: Config, t: Tables, k: nat)
    requires IsRun(run) && DistinctChecks(c) && k <= |run|
    ensures DoAll(c, DoAll(c, t, run[..k]), run) == DoAll(c, t, run)
  {
    var u := DoAll(c, t, run[..k]);
    CutKeepsOthers(run, c, t, k);
    FullRun(run, c, t);
    FullRun(run, c, u);
    SamePasses(run, c, t, u);
    if k < |run| {
      BeforeRescore(run, c, t, k);
    } else {
      assert run[..k] == run;
      RegradeTwice(c, FinalIssues(run, c, t), t.snapshots, t.grades);
    }
  }

  lemma {:induction false} SamePasses(run: seq<Step>, c: Config, t: Tables, u: Tables)
    requires t.snapshots == u.snapshots && t.links == u.links
    ensures Map(IssuePassOf(c, t), run) == Map(IssuePassOf(c, u), run)
    ensures Map(GroupPassOf(c, t), run) == Map(GroupPassOf(c, u), run)
  {
    forall i | 0 <= i < |run|
      ensures Map(IssuePassOf(c, t), run)[i] == Map(IssuePassOf(c, u), run)[i]
      ensures Map(GroupPassOf(c, t), run)[i] == Map(GroupPassOf(c, u), run)[i]
    {
      MapAt(IssuePassOf(c, t), run, i);
      MapAt(IssuePassOf(c, u), run, i);
      MapAt(GroupPassOf(c, t), run, i);
      MapAt(GroupPassOf(c, u), run, i);
    }
  }

  /** Runs that stop after each of the given numbers of statements. */
  function Runs(run: seq<Step>, c: Config, t: Tables, cuts: seq<nat>): Tables
    requires forall k <- cuts :: k <= |run|
    decreases |cuts|
  {
    if cuts == [] then t
    else
      assert cuts[0] in cuts && forall k <- cuts[1..] :: k in cuts;
      Runs(run, c, DoAll(c, t, run[..cuts[0]]), cuts[1..])
  }

  lemma {:induction false} CutsThenFull(run: seq<Step>, c: Config, t: Tables, cuts: seq<nat>)
    requires IsRun(run) && DistinctChecks(c) && forall k <- cuts :: k <= |run|
    ensures DoAll(c, Runs(run, c, t, cuts), run) == DoAll(c, t, run)
    decreases |cuts|
  {
    if cuts != [] {
      assert cuts[0] in cuts && forall k <- cuts[1..] :: k in cuts;
      CutsThenFull(run, c, DoAll(c, t, run[..cuts[0]]), cuts[1..]);
      CutThenFull(run, c, t, cuts[0]);
    }
  }

  /** Any number of interrupted runs and then one full run end as one full run does. */
  lemma {:induction false} FinalizeConverges(c: Config, t: Tables, cuts: seq<nat>)
    requires DistinctChecks(c) && forall k <- cuts :: k <= |RUN|
    ensures DoAll(c, Runs(RUN, c, t, cuts), RUN) == DoAll(c, t, RUN)
  {
    FinalizerIsRun();
    CutsThenFull(RUN, c, t, cuts);
  }

  /** Issues that are not the finalizer's stay as they were, in order, through any interrupted runs. */
  lemma {:induction false} OthersThroughRuns(run: seq<Step>, c: Config, t: Tables, cuts: seq<nat>)
    requires forall k <- cuts :: k <= |run|
    ensures Drop(IssueOwned(c), Runs(run, c, t, cuts).issues) == Drop(IssueOwned(c), t.issues)
    decreases |cuts|
  {
    if cuts != [] {
      assert cuts[0] in cuts && forall k <- cuts[1..] :: k in cuts;
      CutKeepsOthers(run, c, t, cuts[0]);
      OthersThroughRuns(run, c, DoAll(c, t, run[..cuts[0]]), cuts[1..]);
    }
  }

  // ---------- finalizing never raises a score ----------

  lemma PageFaultsSplit(c: Config, a: seq<Issue>, b: seq<Issue>, pageId: string)
    ensures PageFaults(c, a + b, pageId) == PageFaults(c, a, pageId) + PageFaults(c, b, pageId)
  {
    FlatJoin((i: Issue) => if i.crawlId == c.crawlId &&
      i.pageId == pageId then [Fault(i.check, i.severity)] else [], a, b);
  }

  /** The grade of a page scored from its own issues alone. */
  predicate OwnGrade(c: Config, t: Tables, s: Snapshot, g: Grade) {
    g.score == Some(SqlScore(PageFaults(c, Drop(IssueOwned(c), t.issues), s.pageId), c.catalog, c.log2))
  }

  /** The passes leave a page of the crawl its own issues and add theirs. */
  lemma {:induction false} FaultsAfterRun(run: seq<Step>, c: Config, t: Tables, pageId: string)
    ensures PageFaults(c, FinalIssues(run, c, t), pageId) ==
            PageFaults(c, Drop(IssueOwned(c), t.issues), pageId)
            + PageFaults(c, Flat(RowsOf<Issue>(), Map(IssuePassOf(c, t), run)), pageId)
  {
    var added := Flat(RowsOf<Issue>(), Map(IssuePassOf(c, t), run));
    PageFaultsSplit(c, Drop(IssueOwned(c), t.issues), added, pageId);
  }

  lemma RegradedScore(c: Config, t: Tables, issues: seq<Issue>, s: Snapshot, g: Grade, added: seq<Fault>)
    requires s.crawlId == c.crawlId && OwnGrade(c, t, s, g)
    requires PageFaults(c, issues, s.pageId) == PageFaults(c, Drop(IssueOwned(c), t.issues), s.pageId) + added
    ensures Regraded(c, issues, s, g).score == Some(SqlScore(PageFaults(c, issues, s.pageId), c.catalog, c.log2))
  {
    if PageFaults(c, issues, s.pageId) == [] {
      assert PageFaults(c, Drop(IssueOwned(c), t.issues), s.pageId) == PageFaults(c, issues, s.pageId);
    }
  }

  /** A full run scores such a page from its own issues and those the passes add. */
  lemma {:induction false} ScoreAfterRun(run: seq<Step>, c: Config, t: Tables, i: nat)
    requires IsRun(run)
    requires DistinctChecks(c) && i < |t.snapshots| == |t.grades| && t.snapshots[i].crawlId == c.crawlId
    requires OwnGrade(c, t, t.snapshots[i], t.grades[i])
    ensures |DoAll(c, t, run).grades| == |t.grades|
    ensures var page := t.snapshots[i].pageId;
      DoAll(c, t, run).grades[i].score ==
      Some(SqlScore(PageFaults(c, Drop(IssueOwned(c), t.issues), page)
                    + PageFaults(c, Flat(RowsOf<Issue>(), Map(IssuePassOf(c, t), run)), page), c.catalog, c.log2))
  {
    var page := t.snapshots[i].pageId;
    FullRun(run, c, t);
    FaultsAfterRun(run, c, t, page);
    RegradedScore(c, t, FinalIssues(run, c, t), t.snapshots[i], t.grades[i],
                  PageFaults(c, Flat(RowsOf<Issue>(), Map(IssuePassOf(c, t), run)), page));
  }

  /** Such a page scores no higher after a full run. */
  lemma {:induction false} FinalizeNeverRaises(c: Config, t: Tables, i: nat)
    requires DistinctChecks(c) && Sane(c.catalog, c.log2)
    requires i < |t.snapshots| == |t.grades| && t.snapshots[i].crawlId == c.crawlId
    requires OwnGrade(c, t, t.snapshots[i], t.grades[i])
    ensures |DoAll(c, t, RUN).grades| == |t.grades| && DoAll(c, t, RUN).grades[i].score.Some?
    ensures DoAll(c, t, RUN).grades[i].score.value <= t.grades[i].score.value
  {
    var page := t.snapshots[i].pageId;
    FinalizerIsRun();
    ScoreAfterRun(RUN, c, t, i);
    MoreFaultsScoreLess(PageFaults(c, Drop(IssueOwned(c), t.issues), page),
                        PageFaults(c, Flat(RowsOf<Issue>(), Map(IssuePassOf(c, t), RUN)), page), c.catalog, c.log2);
  }

  /** A freshly validated page to which the passes add nothing keeps the engine's score exactly; one to
      which they add issues scores no higher. */
  lemma {:induction false} FreshPageScore(c: Config, t: Tables, i: nat, checks: seq<CheckRun>, disabled: set<string>,
                                          overrides: map<string, Severity>)
    requires DistinctChecks(c) && Sane(c.catalog, c.log2) && Catalogued(checks, c.catalog)
    requires i < |t.snapshots| == |t.grades| && t.snapshots[i].crawlId == c.crawlId
    requires var results := Flat(RunOf(disabled, overrides), checks);
      && PageFaults(c, Drop(IssueOwned(c), t.issues), t.snapshots[i].pageId) == Faults(results)
      && t.grades[i].score == Some(PageScore(results, c.catalog, c.log2))
    ensures |DoAll(c, t, RUN).grades| == |t.grades| && DoAll(c, t, RUN).grades[i].score.Some?
    ensures DoAll(c, t, RUN).grades[i].score.value <= t.grades[i].score.value
    ensures var added := Flat(RowsOf<Issue>(), Map(IssuePassOf(c, t), RUN));
      PageFaults(c, added, t.snapshots[i].pageId) == [] ==> DoAll(c, t, RUN).grades[i].score == t.grades[i].score
  {
    var results := Flat(RunOf(disabled, overrides), checks);
    FreshPageAgrees(checks, disabled, overrides, c.catalog, c.log2);
    assert OwnGrade(c, t, t.snapshots[i], t.grades[i]);
    FinalizeNeverRaises(c, t, i);
    if PageFaults(c, Flat(RowsOf<Issue>(), Map(IssuePassOf(c, t), RUN)), t.snapshots[i].pageId) == [] {
      NothingAdded(c, t, i);
    }
  }

  lemma {:induction false} NothingAdded(c: Config, t: Tables, i: nat)
    requires DistinctChecks(c) && i < |t.snapshots| == |t.grades| && t.snapshots[i].crawlId == c.crawlId
    requires OwnGrade(c, t, t.snapshots[i], t.grades[i])
    requires PageFaults(c, Flat(RowsOf<Issue>(), Map(IssuePassOf(c, t), RUN)), t.snapshots[i].pageId) == []
    ensures |DoAll(c, t, RUN).grades| == |t.grades| && DoAll(c, t, RUN).grades[i].score == t.grades[i].score
  {
    var mine := PageFaults(c, Drop(IssueOwned(c), t.issues), t.snapshots[i].pageId);
    FinalizerIsRun();
    ScoreAfterRun(RUN, c, t, i);
    assert mine + [] == mine;
  }
}
