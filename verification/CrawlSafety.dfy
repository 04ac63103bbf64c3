/** Safety of the crawl over all interleavings and failures: finalize is never signalled early,
    and what its link gate guarantees. */
module CrawlSafety {
  import opened Sequences
  import opened Sums
  import opened CrawlProtocol

  // ---------- conservation of pages ----------

  ghost function TotalOwed(q: Pages): nat {
    Sum(q.phase, Owed)
  }

  /** Every page counted in the totals, those since overwritten included, is recorded, still owed by
      some job, or lost; recounted pages are recorded twice. */
  ghost predicate Balanced(s: State) {
    s.redis.counters.total + s.past.forgotten + s.past.recounted ==
    s.redis.counters.Finished() + s.past.discarded
      + TotalOwed(s.pages) + SeedsOwed(s.pages.orchestrator) + s.past.stranded + s.pages.refused
  }

  /** No recorded page was run again, and the counters of a crawl with pages were not set again. */
  predicate Clean(h: History) {
    h.recounted == 0 && h.restarts == 0
  }

  ghost predicate Accounted(s: State) {
    && s.pages.phase.Keys == s.pages.jobs.Keys
    && s.redis.counters.Finished() >= 0
    && (s.past.restarts == 0 ==> s.past.forgotten == s.past.discarded == 0)
    && (s.pages.phase == map[] ==>
          s.redis.counters.Finished() == 0 && s.pages.refused == 0 && Clean(s.past))
    && ((s.pages.orchestrator.Initialised? || s.pages.orchestrator.Seeding?) && s.past.restarts == 0 ==>
          s.pages.phase == map[])
    && Balanced(s)
  }

  lemma AddJobOwes(q: Pages, page: Page, job: Job)
    ensures var t := AddJob(q, page, job);
      && (q.phase.Keys == q.jobs.Keys ==> t.phase.Keys == t.jobs.Keys)
      && TotalOwed(t) + t.refused == TotalOwed(q) + q.refused + 1
  {
    SumUpdate(q.phase, Owed, page, Waiting(FetchLane));
  }

  lemma {:induction false} AddJobsOwes(q: Pages, pages: seq<Page>, jobOf: Page -> Job)
    ensures var t := AddJobs(q, pages, jobOf);
      && (q.phase.Keys == q.jobs.Keys ==> t.phase.Keys == t.jobs.Keys)
      && TotalOwed(t) + t.refused == TotalOwed(q) + q.refused + |pages|
    decreases |pages|
  {
    if pages != [] {
      AddJobOwes(q, pages[0], jobOf(pages[0]));
      AddJobsOwes(AddJob(q, pages[0], jobOf(pages[0])), pages[1..], jobOf);
    }
  }

  /** What a page step moves between the counters, its own debt and the losses. */
  lemma EffectBalances(cfg: Config, s: State, page: Page, step: PageStep)
    requires PageEnabled(cfg, s, page, step)
    ensures var r, h := NextRedis(cfg, s, page, step), NextHistory(cfg, s, page, step);
      && r.counters.Finished() >= s.redis.counters.Finished()
      && h.restarts == s.past.restarts && h.forgotten == s.past.forgotten && h.discarded == s.past.discarded
      && r.counters.total + h.recounted - r.counters.Finished() - h.stranded + Owed(s.pages.phase[page]) ==
         s.redis.counters.total + s.past.recounted - s.redis.counters.Finished() - s.past.stranded
           + Owed(NextPhase(cfg, s, page, step)) + if step.QueueChildren? then |s.pages.phase[page].found| else 0
  {
  }

  lemma AccountedPage(cfg: Config, s: State, page: Page, step: PageStep)
    requires Accounted(s) && PageEnabled(cfg, s, page, step)
    ensures Accounted(ApplyPage(cfg, s, page, step))
  {
    EffectBalances(cfg, s, page, step);
    SumUpdate(s.pages.phase, Owed, page, NextPhase(cfg, s, page, step));
    if step.QueueChildren? {
      var q := s.pages.(phase := s.pages.phase[page := NextPhase(cfg, s, page, step)]);
      AddJobsOwes(q, s.pages.phase[page].found, ChildJob(s.pages.jobs[page]));
    }
  }

  lemma AccountedOrchestrator(cfg: Config, s: State, step: OrchestratorStep)
    requires Accounted(s) && OrchestratorEnabled(s, step)
    ensures Accounted(ApplyOrchestrator(cfg, s, step))
  {
    if step.QueueSeeds? {
      var seeds := s.pages.orchestrator.seeds;
      AddJobsOwes(s.pages.(orchestrator := Returned), seeds, SeedJob(cfg));
      assert seeds != [] ==> seeds[0] in SetOf(seeds);
    }
  }

  lemma AccountedStep(cfg: Config, s: State, e: Event)
    requires Accounted(s) && Enabled(cfg, s, e)
    ensures Accounted(Apply(cfg, s, e))
  {
    match e
    case PageEvent(page, step) => AccountedPage(cfg, s, page, step);
    case Orchestrate(step) => AccountedOrchestrator(cfg, s, step);
    case _ =>
  }

  // ---------- discovery ----------

  /** The page's registrable domain is that of a page queued as a seed. */
  ghost predicate SharesSeed(cfg: Config, jobs: map<Page, Job>, page: Page) {
    exists seed <- jobs :: jobs[seed].depth == 0 && cfg.domainOf(seed) == cfg.domainOf(page)
  }

  ghost predicate JobInBounds(cfg: Config, jobs: map<Page, Job>, page: Page, job: Job) {
    job.depth == 0 || (job.discover && job.depth <= cfg.maxDepth && SharesSeed(cfg, jobs, page))
  }

  /** A phase may name links only above the depth limit, and only of the page's own domain. */
  ghost predicate LinksInBounds(cfg: Config, page: Page, x: Phase, job: Job) {
    && (LinksOf(x) != [] || FoundOf(x) != [] ==> job.discover && job.depth < cfg.maxDepth)
    && (forall l <- LinksOf(x) :: cfg.domainOf(l) == cfg.domainOf(page))
    && (forall l <- FoundOf(x) :: cfg.domainOf(l) == cfg.domainOf(page))
  }

  ghost predicate Bounded(cfg: Config, q: Pages) {
    && q.phase.Keys == q.jobs.Keys
    && forall p <- q.phase :: JobInBounds(cfg, q.jobs, p, q.jobs[p]) && LinksInBounds(cfg, p, q.phase[p], q.jobs[p])
  }

  /** More jobs do not take a seed away. */
  lemma SeedStays(cfg: Config, jobs: map<Page, Job>, more: map<Page, Job>, page: Page, job: Job)
    requires JobInBounds(cfg, jobs, page, job) && forall p <- jobs :: p in more && more[p] == jobs[p]
    ensures JobInBounds(cfg, more, page, job)
  {
    if job.depth != 0 {
      var seed :| seed in jobs && jobs[seed].depth == 0 && cfg.domainOf(seed) == cfg.domainOf(page);
      assert more[seed].depth == 0;
    }
  }

  lemma AddJobBounded(cfg: Config, q: Pages, page: Page, job: Job)
    requires Bounded(cfg, q) && JobInBounds(cfg, q.jobs, page, job)
    ensures Bounded(cfg, AddJob(q, page, job))
  {
    var t := AddJob(q, page, job);
    forall p <- t.phase
      ensures JobInBounds(cfg, t.jobs, p, t.jobs[p]) && LinksInBounds(cfg, p, t.phase[p], t.jobs[p])
    {
      SeedStays(cfg, q.jobs, t.jobs, p, t.jobs[p]);
    }
  }

  lemma {:induction false} AddJobsBounded(cfg: Config, q: Pages, pages: seq<Page>, jobOf: Page -> Job)
    requires Bounded(cfg, q)
    requires forall p <- pages :: JobInBounds(cfg, q.jobs, p, jobOf(p))
    ensures Bounded(cfg, AddJobs(q, pages, jobOf))
    decreases |pages|
  {
    if pages != [] {
      assert pages[0] in pages;
      var t := AddJob(q, pages[0], jobOf(pages[0]));
      AddJobBounded(cfg, q, pages[0], jobOf(pages[0]));
      forall p <- pages[1..]
        ensures JobInBounds(cfg, t.jobs, p, jobOf(p))
      {
        assert p in pages;
        SeedStays(cfg, q.jobs, t.jobs, p, jobOf(p));
      }
      AddJobsBounded(cfg, t, pages[1..], jobOf);
    }
  }

  lemma NextPhaseInBounds(cfg: Config, s: State, page: Page, step: PageStep)
    requires PageEnabled(cfg, s, page, step)
    requires LinksInBounds(cfg, page, s.pages.phase[page], s.pages.jobs[page])
    ensures LinksInBounds(cfg, page, NextPhase(cfg, s, page, step), s.pages.jobs[page])
  {
  }

  /** A child has the domain of its parent, which shares it with a seed or is one. */
  lemma ChildInBounds(cfg: Config, q: Pages, page: Page, child: Page)
    requires Bounded(cfg, q) && page in q.phase && child in FoundOf(q.phase[page])
    ensures JobInBounds(cfg, q.jobs, child, ChildJob(q.jobs[page])(child))
  {
    assert LinksInBounds(cfg, page, q.phase[page], q.jobs[page]) && FoundOf(q.phase[page]) != [];
    if q.jobs[page].depth != 0 {
      var seed :| seed in q.jobs && q.jobs[seed].depth == 0 && cfg.domainOf(seed) == cfg.domainOf(page);
      assert cfg.domainOf(seed) == cfg.domainOf(child);
    } else {
      assert cfg.domainOf(page) == cfg.domainOf(child);
    }
  }

  lemma BoundedPage(cfg: Config, s: State, page: Page, step: PageStep)
    requires Bounded(cfg, s.pages) && PageEnabled(cfg, s, page, step)
    ensures Bounded(cfg, NextPages(cfg, s, page, step))
  {
    NextPhaseInBounds(cfg, s, page, step);
    if step.QueueChildren? {
      var q := s.pages.(phase := s.pages.phase[page := NextPhase(cfg, s, page, step)]);
      forall child <- s.pages.phase[page].found
        ensures JobInBounds(cfg, q.jobs, child, ChildJob(s.pages.jobs[page])(child))
      {
        ChildInBounds(cfg, s.pages, page, child);
      }
      AddJobsBounded(cfg, q, s.pages.phase[page].found, ChildJob(s.pages.jobs[page]));
    }
  }

  lemma {:induction false} BoundedSeeds(cfg: Config, q: Pages, seeds: seq<Page>)
    requires Bounded(cfg, q)
    ensures Bounded(cfg, AddJobs(q, seeds, SeedJob(cfg)))
  {
    forall p <- seeds
      ensures JobInBounds(cfg, q.jobs, p, SeedJob(cfg)(p))
    {
    }
    AddJobsBounded(cfg, q, seeds, SeedJob(cfg));
  }

  lemma BoundedFrame(cfg: Config, q: Pages, t: Pages)
    requires Bounded(cfg, q) && t.phase == q.phase && t.jobs == q.jobs
    ensures Bounded(cfg, t)
  {
  }

  lemma BoundedOrchestrator(cfg: Config, s: State, step: OrchestratorStep)
    requires Bounded(cfg, s.pages) && OrchestratorEnabled(s, step)
    ensures Bounded(cfg, ApplyOrchestrator(cfg, s, step).pages)
  {
    if step.QueueSeeds? {
      var q := s.pages.(orchestrator := Returned);
      BoundedFrame(cfg, s.pages, q);
      BoundedSeeds(cfg, q, s.pages.orchestrator.seeds);
    } else {
      BoundedFrame(cfg, s.pages, ApplyOrchestrator(cfg, s, step).pages);
    }
  }

  lemma BoundedStep(cfg: Config, s: State, e: Event)
    requires Bounded(cfg, s.pages) && Enabled(cfg, s, e)
    ensures Bounded(cfg, Apply(cfg, s, e).pages)
  {
    match e
    case PageEvent(page, step) => BoundedPage(cfg, s, page, step);
    case Orchestrate(step) => BoundedOrchestrator(cfg, s, step);
    case _ => BoundedFrame(cfg, s.pages, Apply(cfg, s, e).pages);
  }

  // ---------- no page is queued twice, and completion is seen once ----------

  ghost predicate FoundIsClaimed(s: State, p: Page, found: seq<Page>) {
    && Distinct(found)
    && forall c <- found ::
         && c in s.past.claims && s.past.claims[c] == p
         && c !in s.pages.phase
         && (!s.ending.cleaned ==> c in s.redis.seen)
  }

  /** The seeds of an attempt are distinct, and the first attempt marks them one by one. */
  ghost predicate SeedsMarked(s: State) {
    match s.pages.orchestrator
    case Initialised(seeds) => Distinct(seeds)
    case Seeding(seeds, next) =>
      Distinct(seeds) && next <= |seeds| && (s.past.restarts == 0 ==> SetOf(seeds[..next]) <= s.redis.seen)
    case _ => true
  }

  /** Queued pages are marked, and what is found to be queued is new, and found by one page. */
  ghost predicate FoundOnce(s: State) {
    && (!s.ending.cleaned ==> s.pages.phase.Keys <= s.redis.seen)
    && forall p <- s.pages.phase :: FoundIsClaimed(s, p, FoundOf(s.pages.phase[p]))
  }

  /** Unless a recorded page is run again or the counters are set again, no add is refused: a page's
      job is queued once. */
  ghost predicate Claimed(s: State) {
    SeedsMarked(s) && (Clean(s.past) ==> s.pages.refused == 0 && FoundOnce(s))
  }

  predicate Untouched(e: Ending) {
    e.finalizer.FinalizeIdle? && !e.statsComplete && !e.cleaned
  }

  /** The page saw completion and queued finalize. */
  predicate HasNotified(x: Phase) {
    x.Notified? || x == Done(true)
  }

  ghost predicate SeenIsStarted(s: State) {
    forall p <- s.pages.phase :: HasNotified(s.pages.phase[p]) ==> !s.ending.finalizer.FinalizeIdle?
  }

  ghost predicate SomeFlushed(phase: map<Page, Phase>) {
    exists p <- phase :: HasFlushed(phase[p]) > 0
  }

  /** One page saw completion exactly when the crawl is complete, and no one else wrote its stats. */
  ghost predicate SeenOnce(s: State) {
    && Sum(s.pages.phase, SawComplete) == (if s.redis.counters.IsComplete() then 1 else 0)
    && (!Untouched(s.ending) ==> SomeFlushed(s.pages.phase))
    && (SomeFlushed(s.pages.phase) ==> s.ending.statsComplete)
  }

  ghost predicate Signalled(s: State) {
    && (s.pages.phase == map[] ==> Untouched(s.ending))
    && SeenIsStarted(s)
    && (Clean(s.past) ==> SeenOnce(s))
  }

  /** A page that has written the stats saw completion. */
  lemma FlushedSaw(s: State)
    requires SeenOnce(s) && !Untouched(s.ending)
    ensures s.redis.counters.IsComplete()
  {
    var p :| p in s.pages.phase && HasFlushed(s.pages.phase[p]) > 0;
    SumAtLeast(s.pages.phase, SawComplete, p);
  }

  /** In a complete clean crawl nothing is owed and nothing was lost. */
  lemma CompleteOwesNothing(s: State)
    requires Accounted(s) && Clean(s.past) && s.redis.counters.IsComplete()
    ensures SeedsOwed(s.pages.orchestrator) == 0
    ensures s.redis.counters.total == s.redis.counters.Finished()
    ensures s.past.stranded == s.pages.refused == 0
    ensures forall p <- s.pages.phase :: Owed(s.pages.phase[p]) == 0
  {
    forall p <- s.pages.phase
      ensures Owed(s.pages.phase[p]) == 0
    {
      SumAtLeast(s.pages.phase, Owed, p);
    }
  }

  /** Once a clean crawl is cleaned up, nothing is owed. */
  lemma CleanedOwesNothing(s: State)
    requires Accounted(s) && Signalled(s) && Clean(s.past) && s.ending.cleaned
    ensures s.redis.counters.IsComplete() && forall p <- s.pages.phase :: Owed(s.pages.phase[p]) == 0
  {
    FlushedSaw(s);
    CompleteOwesNothing(s);
  }

  /** Distinct new pages are all accepted. */
  lemma {:induction false} AddJobsAccepted(q: Pages, pages: seq<Page>, jobOf: Page -> Job)
    requires Distinct(pages) && forall p <- pages :: p !in q.phase
    ensures AddJobs(q, pages, jobOf).refused == q.refused
    decreases |pages|
  {
    if pages != [] {
      assert forall p <- pages[1..] :: p in pages && p != pages[0];
      AddJobsAccepted(AddJob(q, pages[0], jobOf(pages[0])), pages[1..], jobOf);
    }
  }

  lemma {:induction false} AddJobsKeepsSum(q: Pages, pages: seq<Page>, jobOf: Page -> Job, weight: Phase -> nat)
    requires weight(Waiting(FetchLane)) == 0
    ensures Sum(AddJobs(q, pages, jobOf).phase, weight) == Sum(q.phase, weight)
    decreases |pages|
  {
    if pages != [] {
      SumUpdate(q.phase, weight, pages[0], Waiting(FetchLane));
      AddJobsKeepsSum(AddJob(q, pages[0], jobOf(pages[0])), pages[1..], jobOf, weight);
    }
  }

  lemma FoundMarkLink(cfg: Config, s: State, page: Page)
    requires FoundOnce(s) && PageEnabled(cfg, s, page, MarkLink) && !s.ending.cleaned
    ensures FoundOnce(ApplyPage(cfg, s, page, MarkLink))
  {
    var t := ApplyPage(cfg, s, page, MarkLink);
    forall p <- t.pages.phase
      ensures FoundIsClaimed(t, p, FoundOf(t.pages.phase[p]))
    {
      assert FoundIsClaimed(s, p, FoundOf(s.pages.phase[p]));
    }
  }

  /** Queueing the found pages makes them known, and leaves what others found alone. */
  lemma QueueChildrenPhases(cfg: Config, s: State, page: Page, found: seq<Page>)
    requires PageEnabled(cfg, s, page, QueueChildren) && found == s.pages.phase[page].found
    requires FoundIsClaimed(s, page, found)
    ensures var t := NextPages(cfg, s, page, QueueChildren);
      && t.refused == s.pages.refused && t.orchestrator == s.pages.orchestrator
      && t.phase.Keys == s.pages.phase.Keys + SetOf(found)
      && forall p <- t.phase :: FoundOf(t.phase[p]) ==
           if p in s.pages.phase && p != page then FoundOf(s.pages.phase[p]) else []
  {
    var q := s.pages.(phase := s.pages.phase[page := NextPhase(cfg, s, page, QueueChildren)]);
    AddJobsAccepted(q, found, ChildJob(s.pages.jobs[page]));
    var t := NextPages(cfg, s, page, QueueChildren);
    forall p <- t.phase
      ensures FoundOf(t.phase[p]) == if p in s.pages.phase && p != page then FoundOf(s.pages.phase[p]) else []
    {
      if p !in q.phase {
        assert p in found;
      }
    }
  }

  lemma FoundQueueChildren(cfg: Config, s: State, page: Page)
    requires FoundOnce(s) && PageEnabled(cfg, s, page, QueueChildren) && !s.ending.cleaned
    ensures FoundOnce(ApplyPage(cfg, s, page, QueueChildren))
    ensures ApplyPage(cfg, s, page, QueueChildren).pages.refused == s.pages.refused
  {
    var t := ApplyPage(cfg, s, page, QueueChildren);
    var found := s.pages.phase[page].found;
    assert FoundIsClaimed(s, page, found);
    QueueChildrenPhases(cfg, s, page, found);
    forall p <- t.pages.phase
      ensures FoundIsClaimed(t, p, FoundOf(t.pages.phase[p]))
    {
      if p in s.pages.phase && p != page {
        OthersStayClaimed(s, t, page, p);
      }
    }
  }

  /** What other pages found is not among the children queued. */
  lemma OthersStayClaimed(s: State, t: State, page: Page, p: Page)
    requires p != page && page in s.pages.phase && p in s.pages.phase
    requires FoundIsClaimed(s, page, FoundOf(s.pages.phase[page])) && FoundIsClaimed(s, p, FoundOf(s.pages.phase[p]))
    requires t.past.claims == s.past.claims && t.redis.seen == s.redis.seen && t.ending.cleaned == s.ending.cleaned
    requires t.pages.phase.Keys == s.pages.phase.Keys + SetOf(FoundOf(s.pages.phase[page]))
    ensures FoundIsClaimed(t, p, FoundOf(s.pages.phase[p]))
  {
  }

  lemma OtherStepsFindNothing(cfg: Config, s: State, page: Page, step: PageStep)
    requires PageEnabled(cfg, s, page, step) && !step.MarkLink? && !step.QueueChildren?
    ensures FoundOf(NextPhase(cfg, s, page, step)) in {FoundOf(s.pages.phase[page]), []}
    ensures NextRedis(cfg, s, page, step).seen == s.redis.seen
    ensures NextHistory(cfg, s, page, step).claims == s.past.claims
    ensures NextEnding(cfg, s, page, step).cleaned == s.ending.cleaned
    ensures NextHistory(cfg, s, page, step).recounted >= s.past.recounted
    ensures NextHistory(cfg, s, page, step).restarts == s.past.restarts
  {
  }

  /** A step that keeps the claims, the queue's keys and everyone's found pages. */
  lemma FoundFrame(s: State, t: State)
    requires FoundOnce(s) && t.pages.phase.Keys == s.pages.phase.Keys && t.past.claims == s.past.claims
    requires s.ending.cleaned ==> t.ending.cleaned
    requires t.redis.seen == s.redis.seen || t.ending.cleaned
    requires forall p <- s.pages.phase :: FoundOf(t.pages.phase[p]) in {FoundOf(s.pages.phase[p]), []}
    ensures FoundOnce(t)
  {
    forall p <- t.pages.phase
      ensures FoundIsClaimed(t, p, FoundOf(t.pages.phase[p]))
    {
      assert FoundIsClaimed(s, p, FoundOf(s.pages.phase[p]));
    }
  }

  lemma ClaimedFrame(cfg: Config, s: State, t: State)
    requires Claimed(s)
    requires t.pages == s.pages.(phase := t.pages.phase) && t.pages.phase.Keys == s.pages.phase.Keys
    requires t.past.claims == s.past.claims && t.past.recounted >= s.past.recounted &&
      t.past.restarts == s.past.restarts
    requires s.ending.cleaned ==> t.ending.cleaned
    requires t.redis.seen == s.redis.seen ||
             (t.ending.cleaned && (s.pages.orchestrator.Seeding? ==> s.past.restarts > 0))
    requires forall p <- s.pages.phase :: FoundOf(t.pages.phase[p]) in {FoundOf(s.pages.phase[p]), []}
    ensures Claimed(t)
  {
    if Clean(t.past) {
      FoundFrame(s, t);
    }
  }

  /** Until the dedupe sets are deleted, no step of a page finds a page twice or asks for a known one. */
  lemma FoundOncePage(cfg: Config, s: State, page: Page, step: PageStep)
    requires FoundOnce(s) && !s.ending.cleaned && PageEnabled(cfg, s, page, step)
    ensures var t := ApplyPage(cfg, s, page, step); FoundOnce(t) && t.pages.refused == s.pages.refused
  {
    if step.MarkLink? {
      FoundMarkLink(cfg, s, page);
    } else if step.QueueChildren? {
      FoundQueueChildren(cfg, s, page);
    } else {
      OtherStepsFindNothing(cfg, s, page, step);
      FoundFrame(s, ApplyPage(cfg, s, page, step));
    }
  }

  /** A page step keeps the seeds of an attempt marked. */
  lemma SeedsStayMarked(cfg: Config, s: State, page: Page, step: PageStep)
    requires SeedsMarked(s) && PageEnabled(cfg, s, page, step)
    ensures var t := ApplyPage(cfg, s, page, step); SeedsMarked(t) && (Clean(t.past) ==> Clean(s.past))
  {
  }

  lemma ClaimedPage(cfg: Config, s: State, page: Page, step: PageStep)
    requires Accounted(s) && Claimed(s) && Signalled(s) && PageEnabled(cfg, s, page, step)
    ensures Claimed(ApplyPage(cfg, s, page, step))
  {
    SeedsStayMarked(cfg, s, page, step);
    if Clean(s.past) {
      if !s.ending.cleaned {
        FoundOncePage(cfg, s, page, step);
      } else if step.MarkLink? || step.QueueChildren? {
        CleanedOwesNothing(s);
      } else {
        OtherStepsFindNothing(cfg, s, page, step);
        ClaimedFrame(cfg, s, ApplyPage(cfg, s, page, step));
      }
    }
  }

  lemma ClaimedOrchestrator(cfg: Config, s: State, step: OrchestratorStep)
    requires Accounted(s) && Claimed(s) && Signalled(s) && OrchestratorEnabled(s, step)
    ensures Claimed(ApplyOrchestrator(cfg, s, step))
  {
    var o := s.pages.orchestrator;
    if step.QueueSeeds? {
      if s.past.restarts == 0 {
        AddJobsAccepted(s.pages.(orchestrator := Returned), o.seeds, SeedJob(cfg));
        assert o.seeds[..|o.seeds|] == o.seeds;
      }
    } else if step.MarkSeed? {
      assert o.seeds[..o.next + 1] == o.seeds[..o.next] + [o.seeds[o.next]];
    }
  }

  lemma ClaimedStep(cfg: Config, s: State, e: Event)
    requires Accounted(s) && Claimed(s) && Signalled(s) && Enabled(cfg, s, e)
    ensures Claimed(Apply(cfg, s, e))
  {
    match e
    case PageEvent(page, step) => ClaimedPage(cfg, s, page, step);
    case Orchestrate(step) => ClaimedOrchestrator(cfg, s, step);
    case _ => ClaimedFrame(cfg, s, Apply(cfg, s, e));
  }

  /** In a clean crawl completion is first seen by the step that records. */
  lemma EffectSignals(cfg: Config, s: State, page: Page, step: PageStep)
    requires PageEnabled(cfg, s, page, step) && Clean(NextHistory(cfg, s, page, step))
    ensures var x, next := s.pages.phase[page], NextPhase(cfg, s, page, step);
      && SawComplete(next) == (
           if step.Record? && NextRedis(cfg, s, page, step).counters.IsComplete() then 1 else SawComplete(x))
      && (step.Record? ==> SawComplete(x) == 0)
      && (step.Record? || step.AddToTotal? ==> Owed(x) > 0)
      && (step.AddToTotal? ==> Owed(next) > 0)
      && (!step.Record? && !step.AddToTotal? ==> NextRedis(cfg, s, page, step).counters == s.redis.counters)
      && (NextEnding(cfg, s, page, step) != s.ending ==> HasFlushed(next) > 0)
      && HasFlushed(x) <= HasFlushed(next)
      && (HasFlushed(x) < HasFlushed(next) ==> NextEnding(cfg, s, page, step).statsComplete)
      && Clean(s.past)
  {
  }

  /** The pages that saw completion, after a step of one page. */
  lemma SignalSum(cfg: Config, s: State, page: Page, step: PageStep)
    requires PageEnabled(cfg, s, page, step)
    ensures Sum(ApplyPage(cfg, s, page, step).pages.phase, SawComplete) ==
            Sum(s.pages.phase, SawComplete) - SawComplete(s.pages.phase[page]) +
              SawComplete(NextPhase(cfg, s, page, step))
  {
    SumUpdate(s.pages.phase, SawComplete, page, NextPhase(cfg, s, page, step));
    if step.QueueChildren? {
      var q := s.pages.(phase := s.pages.phase[page := NextPhase(cfg, s, page, step)]);
      AddJobsKeepsSum(q, s.pages.phase[page].found, ChildJob(s.pages.jobs[page]), SawComplete);
    }
  }

  /** A page notifies by queueing finalize, and no page takes it back. */
  lemma NotifiedBefore(cfg: Config, s: State, page: Page, step: PageStep)
    requires PageEnabled(cfg, s, page, step)
    ensures var f := NextEnding(cfg, s, page, step).finalizer;
      && (HasNotified(NextPhase(cfg, s, page, step)) ==> HasNotified(s.pages.phase[page]) || !f.FinalizeIdle?)
      && (!s.ending.finalizer.FinalizeIdle? ==> !f.FinalizeIdle?)
  {
  }

  lemma SeenIsStartedPage(cfg: Config, s: State, page: Page, step: PageStep)
    requires SeenIsStarted(s) && PageEnabled(cfg, s, page, step)
    ensures SeenIsStarted(ApplyPage(cfg, s, page, step))
  {
    NotifiedBefore(cfg, s, page, step);
    var t := ApplyPage(cfg, s, page, step);
    assert forall p <- t.pages.phase :: p != page ==>
      (p in s.pages.phase && t.pages.phase[p] == s.pages.phase[p]) || t.pages.phase[p] == Waiting(FetchLane);
  }

  lemma SomeFlushedPage(cfg: Config, s: State, page: Page, step: PageStep)
    requires PageEnabled(cfg, s, page, step)
    requires HasFlushed(NextPhase(cfg, s, page, step)) > 0 ||
             (SomeFlushed(s.pages.phase) && HasFlushed(s.pages.phase[page]) <= HasFlushed(NextPhase(cfg, s, page,
               step)))
    ensures SomeFlushed(ApplyPage(cfg, s, page, step).pages.phase)
  {
    var t := ApplyPage(cfg, s, page, step);
    assert t.pages.phase[page] == NextPhase(cfg, s, page, step);
    if HasFlushed(t.pages.phase[page]) == 0 {
      var p :| p in s.pages.phase && HasFlushed(s.pages.phase[p]) > 0;
      assert t.pages.phase[p] == s.pages.phase[p];
    }
  }

  /** A page that has written the stats had done so before, or does now. */
  lemma FlushedBefore(cfg: Config, s: State, page: Page, step: PageStep)
    requires PageEnabled(cfg, s, page, step) && SomeFlushed(ApplyPage(cfg, s, page, step).pages.phase)
    ensures SomeFlushed(s.pages.phase) || HasFlushed(s.pages.phase[page]) < HasFlushed(NextPhase(cfg, s, page, step))
  {
    var t := ApplyPage(cfg, s, page, step);
    var p :| p in t.pages.phase && HasFlushed(t.pages.phase[p]) > 0;
    if p != page {
      assert p in s.pages.phase && s.pages.phase[p] == t.pages.phase[p];
    }
  }

  lemma SeenOncePage(cfg: Config, s: State, page: Page, step: PageStep, t: State)
    requires Accounted(s) && SeenOnce(s) && PageEnabled(cfg, s, page, step)
    requires t == ApplyPage(cfg, s, page, step) && Clean(t.past)
    ensures SeenOnce(t)
  {
    EffectSignals(cfg, s, page, step);
    AccountedPage(cfg, s, page, step);
    SignalSum(cfg, s, page, step);
    SumAtLeast(s.pages.phase, Owed, page);
    SumAtLeast(s.pages.phase, SawComplete, page);
    SumAtLeast(t.pages.phase, Owed, page);
    if !Untouched(t.ending) {
      SomeFlushedPage(cfg, s, page, step);
    }
    if SomeFlushed(t.pages.phase) {
      FlushedBefore(cfg, s, page, step);
    }
  }

  lemma SignalledPage(cfg: Config, s: State, page: Page, step: PageStep)
    requires Accounted(s) && Signalled(s) && PageEnabled(cfg, s, page, step)
    ensures Signalled(ApplyPage(cfg, s, page, step))
  {
    var t := ApplyPage(cfg, s, page, step);
    SeenIsStartedPage(cfg, s, page, step);
    if Clean(t.past) {
      EffectSignals(cfg, s, page, step);
      SeenOncePage(cfg, s, page, step, t);
    }
  }

  lemma FlushedOrchestrator(cfg: Config, s: State, step: OrchestratorStep)
    requires OrchestratorEnabled(s, step)
    ensures SomeFlushed(ApplyOrchestrator(cfg, s, step).pages.phase) <==> SomeFlushed(s.pages.phase)
  {
    var t := ApplyOrchestrator(cfg, s, step);
    if SomeFlushed(s.pages.phase) {
      var p :| p in s.pages.phase && HasFlushed(s.pages.phase[p]) > 0;
      assert t.pages.phase[p] == s.pages.phase[p];
    }
    if SomeFlushed(t.pages.phase) {
      var p :| p in t.pages.phase && HasFlushed(t.pages.phase[p]) > 0;
      assert p in s.pages.phase && t.pages.phase[p] == s.pages.phase[p];
    }
  }

  lemma SeenOnceOrchestrator(cfg: Config, s: State, step: OrchestratorStep, t: State)
    requires Accounted(s) && Signalled(s) && OrchestratorEnabled(s, step)
    requires t == ApplyOrchestrator(cfg, s, step) && Clean(t.past)
    ensures SeenOnce(t)
  {
    FlushedOrchestrator(cfg, s, step);
    if step.QueueSeeds? {
      AddJobsKeepsSum(s.pages.(orchestrator := Returned), s.pages.orchestrator.seeds, SeedJob(cfg), SawComplete);
    }
  }

  lemma SignalledOrchestrator(cfg: Config, s: State, step: OrchestratorStep)
    requires Accounted(s) && Signalled(s) && OrchestratorEnabled(s, step)
    ensures Signalled(ApplyOrchestrator(cfg, s, step))
  {
    var t := ApplyOrchestrator(cfg, s, step);
    if Clean(t.past) {
      SeenOnceOrchestrator(cfg, s, step, t);
    }
  }

  lemma SignalledStep(cfg: Config, s: State, e: Event)
    requires Accounted(s) && Signalled(s) && Enabled(cfg, s, e)
    ensures Signalled(Apply(cfg, s, e))
  {
    match e
    case PageEvent(page, step) => SignalledPage(cfg, s, page, step);
    case Orchestrate(step) => SignalledOrchestrator(cfg, s, step);
    case _ =>
  }
}
