/** Discovery is finite: over a finite universe of pages, every event that is not a delay, a
    failure or an operator's request strictly decreases a measure. */
module CrawlProgress {
  import opened Sums
  import opened CrawlProtocol

  /** How far a page's job still is from its end. */
  function Stage(x: Phase): nat {
    match x
    case Waiting(lane) => if lane.FetchLane? then 19 else 14
    case Active(lane) => if lane.FetchLane? then 18 else 13
    case Processing(lane) => if lane.FetchLane? then 17 else 12
    case Uncancelled(lane) => if lane.FetchLane? then 16 else 11
    case Cleared(lane) => if lane.FetchLane? then 15 else 10
    case Persisted(_, _, _) => 9
    case Marked(_, _, _) => 8
    case Batching(_, _, _) => 7
    case Expanding(_, _, _) => 6
    case Added(_, _) => 5
    case Settling(_, _) => 4
    case Recorded(_, _) => 3
    case Flushed(_) => 2
    case Notified(_) => 1
    case _ => 0
  }

  /** Rounds left in the loop a page's job is in. */
  function Rounds(x: Phase): nat {
    match x
    case Batching(_, batches, _) => |batches|
    case Expanding(_, links, _) => |links|
    case _ => 0
  }

  function SeedStage(o: Orchestrator): nat {
    match o
    case Idle => 6
    case Begun => 5
    case Resolving => 4
    case Initialised(_) => 3
    case Seeding(_, _) => 2
    case Returned => 1
    case _ => 0
  }

  function SeedsLeft(o: Orchestrator): nat {
    if o.Seeding? && o.next < |o.seeds| then |o.seeds| - o.next else 0
  }

  function LinkRank(stage: LinkStage): nat {
    match stage
    case LinkWaiting => 4
    case LinkActive => 3
    case LinkCleared => 2
    case LinkInserted => 1
    case _ => 0
  }

  function LinkWork(jobs: seq<LinkJob>): nat {
    if jobs == [] then 0 else LinkWork(jobs[..|jobs| - 1]) + LinkRank(jobs[|jobs| - 1].stage)
  }

  function FinalizeRank(f: Finalizer): nat {
    match f
    case FinalizeQueued(_) => 4
    case FinalizeActive(_) => 3
    case FinalizeCleared(_) => 2
    case FinalizeRunning => 1
    case _ => 0
  }

  /** Compared from the left: the orchestrator's stage, seeds left to mark, pages not yet queued,
      stages, loop rounds, link work, finalize work. */
  datatype Measure =
    Measure(seeding: nat, seeds: nat, unqueued: nat, stages: nat, rounds: nat, links: nat, ending: nat)

  ghost function MeasureOf(universe: set<Page>, s: State): Measure {
    Measure(SeedStage(s.pages.orchestrator), SeedsLeft(s.pages.orchestrator), |universe - s.pages.phase.Keys|,
            Sum(s.pages.phase, Stage), Sum(s.pages.phase, Rounds), LinkWork(s.links.jobs),
            FinalizeRank(s.ending.finalizer))
  }

  predicate Below(a: Measure, b: Measure) {
    if a.seeding != b.seeding then a.seeding < b.seeding
    else if a.seeds != b.seeds then a.seeds < b.seeds
    else if a.unqueued != b.unqueued then a.unqueued < b.unqueued
    else if a.stages != b.stages then a.stages < b.stages
    else if a.rounds != b.rounds then a.rounds < b.rounds
    else if a.links != b.links then a.links < b.links
    else a.ending < b.ending
  }

  /** Events that move the crawl on. */
  predicate Advances(e: Event) {
    match e
    case Orchestrate(step) => !step.OrchestratorCrash?
    case PageEvent(_, step) => !step.Delay? && !step.Crash?
    case LinkEvent(_, step) => !step.CrashLinks?
    case FinalizeEvent(step) => !step.Wait? && !step.CrashFinalize? && !step.Redrive?
    case _ => false
  }

  function SeedsOf(o: Orchestrator): seq<Page> {
    match o
    case Initialised(seeds) => seeds
    case Seeding(seeds, _) => seeds
    case _ => []
  }

  /** No job or event names a page outside the universe. */
  ghost predicate Within(universe: set<Page>, q: Pages) {
    && q.phase.Keys <= universe && SetOf(SeedsOf(q.orchestrator)) <= universe
    && forall p <- q.phase :: SetOf(LinksOf(q.phase[p])) + SetOf(FoundOf(q.phase[p])) <= universe
  }

  predicate Names(universe: set<Page>, e: Event) {
    && (e.PageEvent? && e.step.Persist? ==> SetOf(e.step.links) <= universe)
    && (e.Orchestrate? && e.seeding.InitCounters? ==> SetOf(e.seeding.resolved) <= universe)
  }

  /** Only persisting an outcome gives a page links it did not have. */
  lemma NextNames(cfg: Config, s: State, page: Page, step: PageStep)
    requires PageEnabled(cfg, s, page, step) && !step.Persist?
    ensures var x, next := s.pages.phase[page], NextPhase(cfg, s, page, step);
      && (forall l <- LinksOf(next) :: l in LinksOf(x))
      && (forall l <- FoundOf(next) :: l in LinksOf(x) || l in FoundOf(x))
  {
  }

  lemma PhaseWithin(cfg: Config, universe: set<Page>, s: State, page: Page, step: PageStep)
    requires Within(universe, s.pages) && PageEnabled(cfg, s, page, step) && Names(universe, PageEvent(page, step))
    ensures var x := NextPhase(cfg, s, page, step); SetOf(LinksOf(x)) + SetOf(FoundOf(x)) <= universe
  {
    var x := s.pages.phase[page];
    assert SetOf(LinksOf(x)) + SetOf(FoundOf(x)) <= universe;
    if !step.Persist? {
      NextNames(cfg, s, page, step);
    }
  }

  lemma {:induction false} AddJobsWithin(universe: set<Page>, q: Pages, pages: seq<Page>, jobOf: Page -> Job)
    requires Within(universe, q) && SetOf(pages) <= universe
    ensures Within(universe, AddJobs(q, pages, jobOf))
  {
    var t := AddJobs(q, pages, jobOf);
    forall p <- t.phase
      ensures SetOf(LinksOf(t.phase[p])) + SetOf(FoundOf(t.phase[p])) <= universe
    {
      if p !in q.phase {
        assert p in pages;
      }
    }
  }

  lemma WithinOrchestrator(cfg: Config, universe: set<Page>, s: State, step: OrchestratorStep)
    requires Within(universe, s.pages) && OrchestratorEnabled(s, step) && Names(universe, Orchestrate(step))
    ensures Within(universe, ApplyOrchestrator(cfg, s, step).pages)
  {
    if step.QueueSeeds? {
      AddJobsWithin(universe, s.pages.(orchestrator := Returned), s.pages.orchestrator.seeds, SeedJob(cfg));
    }
  }

  lemma WithinStep(cfg: Config, universe: set<Page>, s: State, e: Event)
    requires Within(universe, s.pages) && Enabled(cfg, s, e) && Names(universe, e)
    ensures Within(universe, Apply(cfg, s, e).pages)
  {
    match e
    case PageEvent(page, step) =>
      PhaseWithin(cfg, universe, s, page, step);
      if step.QueueChildren? {
        var q := s.pages.(phase := s.pages.phase[page := NextPhase(cfg, s, page, step)]);
        assert SetOf(FoundOf(s.pages.phase[page])) <= universe;
        AddJobsWithin(universe, q, s.pages.phase[page].found, ChildJob(s.pages.jobs[page]));
      }
    case Orchestrate(step) => WithinOrchestrator(cfg, universe, s, step);
    case _ =>
  }

  lemma PageDescends(cfg: Config, s: State, page: Page, step: PageStep)
    requires PageEnabled(cfg, s, page, step) && !step.Delay? && !step.Crash?
    ensures var x, next := s.pages.phase[page], NextPhase(cfg, s, page, step);
      Stage(next) < Stage(x) || (Stage(next) == Stage(x) && Rounds(next) < Rounds(x))
  {
  }

  lemma {:induction false} LinkWorkUpdate(jobs: seq<LinkJob>, i: nat, stage: LinkStage)
    requires i < |jobs|
    ensures LinkWork(jobs[i := jobs[i].(stage := stage)])
         == LinkWork(jobs) - LinkRank(jobs[i].stage) + LinkRank(stage)
  {
    var updated := jobs[i := jobs[i].(stage := stage)];
    var n := |jobs| - 1;
    if i < n {
      LinkWorkUpdate(jobs[..n], i, stage);
      assert updated[..n] == jobs[..n][i := jobs[i].(stage := stage)];
    } else {
      assert updated[..n] == jobs[..n];
    }
  }

  lemma SmallerRest(universe: set<Page>, known: set<Page>, more: set<Page>)
    requires more <= universe && !(more <= known)
    ensures |universe - (known + more)| < |universe - known|
  {
    var p :| p in more && p !in known;
    var rest := universe - (known + more);
    assert rest + {p} <= universe - known;
    Cardinality(rest + {p}, universe - known);
  }

  /** Queueing children either reaches a new page or only ends the parent's stage. */
  lemma {:induction false} ChildrenOrStages(universe: set<Page>, q: Pages, page: Page, next: Phase, found: seq<Page>,
                                            jobOf: Page -> Job)
    requires page in q.phase && Stage(next) < Stage(q.phase[page]) && SetOf(found) <= universe
    ensures var t := AddJobs(q.(phase := q.phase[page := next]), found, jobOf);
      || |universe - t.phase.Keys| < |universe - q.phase.Keys|
      || (t.phase.Keys == q.phase.Keys && Sum(t.phase, Stage) < Sum(q.phase, Stage))
  {
    var ended := q.(phase := q.phase[page := next]);
    assert ended.phase.Keys == q.phase.Keys;
    if SetOf(found) <= q.phase.Keys {
      SumUpdate(q.phase, Stage, page, next);
      KnownJobsRefused(ended, found, jobOf);
    } else {
      SmallerRest(universe, q.phase.Keys, SetOf(found));
    }
  }

  lemma QueueChildrenProgress(cfg: Config, universe: set<Page>, s: State, page: Page)
    requires Within(universe, s.pages) && PageEnabled(cfg, s, page, QueueChildren)
    ensures Below(MeasureOf(universe, ApplyPage(cfg, s, page, QueueChildren)), MeasureOf(universe, s))
  {
    var found := FoundOf(s.pages.phase[page]);
    assert SetOf(found) <= universe;
    ChildrenOrStages(universe, s.pages, page, NextPhase(cfg, s, page, QueueChildren), found,
                     ChildJob(s.pages.jobs[page]));
  }

  lemma PageProgress(cfg: Config, universe: set<Page>, s: State, page: Page, step: PageStep)
    requires Within(universe, s.pages) && PageEnabled(cfg, s, page, step) && !step.Delay? && !step.Crash?
    ensures Below(MeasureOf(universe, ApplyPage(cfg, s, page, step)), MeasureOf(universe, s))
  {
    if step.QueueChildren? {
      QueueChildrenProgress(cfg, universe, s, page);
    } else {
      PageDescends(cfg, s, page, step);
      var next := NextPhase(cfg, s, page, step);
      SumUpdate(s.pages.phase, Stage, page, next);
      SumUpdate(s.pages.phase, Rounds, page, next);
      assert NextPages(cfg, s, page, step) == s.pages.(phase := s.pages.phase[page := next]);
      assert s.pages.phase[page := next].Keys == s.pages.phase.Keys;
    }
  }

  lemma {:induction false} KnownJobsRefused(q: Pages, pages: seq<Page>, jobOf: Page -> Job)
    requires SetOf(pages) <= q.phase.Keys
    ensures AddJobs(q, pages, jobOf).phase == q.phase
    decreases |pages|
  {
    if pages != [] {
      assert pages[0] in SetOf(pages) && SetOf(pages[1..]) <= SetOf(pages);
      KnownJobsRefused(AddJob(q, pages[0], jobOf(pages[0])), pages[1..], jobOf);
    }
  }

  /** Every advancing event strictly decreases the measure. */
  lemma Progress(cfg: Config, universe: set<Page>, s: State, e: Event)
    requires Within(universe, s.pages) && Enabled(cfg, s, e) && Advances(e)
    ensures Below(MeasureOf(universe, Apply(cfg, s, e)), MeasureOf(universe, s))
  {
    match e
    case PageEvent(page, step) => PageProgress(cfg, universe, s, page, step);
    case LinkEvent(index, step) => LinkProgress(cfg, universe, s, index, step);
    case Orchestrate(step) => SeedProgress(cfg, universe, s, step);
    case FinalizeEvent(step) => FinalizeProgress(cfg, universe, s, step);
  }

  lemma SeedingFalls(cfg: Config, s: State, step: OrchestratorStep)
    requires OrchestratorEnabled(s, step) && !step.OrchestratorCrash?
    ensures var o, t := s.pages.orchestrator, ApplyOrchestrator(cfg, s, step).pages.orchestrator;
      SeedStage(t) < SeedStage(o) || (SeedStage(t) == SeedStage(o) && SeedsLeft(t) < SeedsLeft(o))
  {
  }

  lemma SeedProgress(cfg: Config, universe: set<Page>, s: State, step: OrchestratorStep)
    requires Enabled(cfg, s, Orchestrate(step)) && Advances(Orchestrate(step))
    ensures Below(MeasureOf(universe, Apply(cfg, s, Orchestrate(step))), MeasureOf(universe, s))
  {
    SeedingFalls(cfg, s, step);
  }

  lemma FinalizeProgress(cfg: Config, universe: set<Page>, s: State, step: FinalizeStep)
    requires Enabled(cfg, s, FinalizeEvent(step)) && Advances(FinalizeEvent(step))
    ensures Below(MeasureOf(universe, Apply(cfg, s, FinalizeEvent(step))), MeasureOf(universe, s))
  {
    var t := Apply(cfg, s, FinalizeEvent(step));
    assert t.pages == s.pages && t.links == s.links;
    assert FinalizeRank(t.ending.finalizer) < FinalizeRank(s.ending.finalizer);
  }

  lemma LinkProgress(cfg: Config, universe: set<Page>, s: State, index: nat, step: LinkStep)
    requires Enabled(cfg, s, LinkEvent(index, step)) && Advances(LinkEvent(index, step))
    ensures Below(MeasureOf(universe, Apply(cfg, s, LinkEvent(index, step))), MeasureOf(universe, s))
  {
    LinkWorkUpdate(s.links.jobs, index, NextStage(step));
  }
}
