/** A crawl over a finite universe ends: no run advances for ever.  Whether the workers can still bring
    it to its end, every page recorded and finalize done, is exactly a condition on where it stands. */
module CrawlEnds {
  import opened Sequences
  import opened Sums
  import opened CrawlProtocol
  import opened CrawlSafety
  import opened CrawlLinks
  import opened CrawlTheorems
  import opened CrawlProgress

  lemma {:induction false} RunWithin(cfg: Config, universe: set<Page>, events: seq<Event>)
    requires Run(cfg, events).Reached? && forall e <- events :: Names(universe, e)
    ensures Within(universe, Run(cfg, events).state.pages)
  {
    if events != [] {
      RunLast(cfg, events);
      var before, e := events[..|events| - 1], events[|events| - 1];
      assert e in events;
      RunWithin(cfg, universe, before);
      WithinStep(cfg, universe, Run(cfg, before).state, e);
    }
  }

  // ---------- no endless run ----------

  ghost predicate Advancing(cfg: Config, universe: set<Page>, s: State, e: Event, t: State) {
    Enabled(cfg, s, e) && Advances(e) && Names(universe, e) && t == Apply(cfg, s, e)
  }

  ghost predicate Endless(cfg: Config, universe: set<Page>, states: nat -> State, events: nat -> Event) {
    forall i: nat :: Advancing(cfg, universe, states(i), events(i), states(i + 1))
  }

  lemma {:induction false} EndlessFrom(cfg: Config, universe: set<Page>, states: nat -> State, events: nat -> Event,
                                       i: nat, m: Measure)
    requires Within(universe, states(i).pages) && m == MeasureOf(universe, states(i))
    ensures !Endless(cfg, universe, states, events)
    decreases m.seeding, m.seeds, m.unqueued, m.stages, m.rounds, m.links, m.ending
  {
    if Endless(cfg, universe, states, events) {
      assert Advancing(cfg, universe, states(i), events(i), states(i + 1));
      Progress(cfg, universe, states(i), events(i));
      WithinStep(cfg, universe, states(i), events(i));
      EndlessFrom(cfg, universe, states, events, i + 1, MeasureOf(universe, states(i + 1)));
    }
  }

  /** From no reachable state does a crawl over a finite universe advance for ever. */
  lemma {:induction false} NoEndlessRun(cfg: Config, universe: set<Page>, before: seq<Event>, states: nat -> State,
                                        events: nat -> Event)
    requires Run(cfg, before).Reached? && forall e <- before :: Names(universe, e)
    requires states(0) == Run(cfg, before).state
    ensures !Endless(cfg, universe, states, events)
  {
    RunWithin(cfg, universe, before);
    EndlessFrom(cfg, universe, states, events, 0, MeasureOf(universe, states(0)));
  }

  // ---------- what can still be completed ----------

  /** A worker's own step that does not fail, or the crawl resumed: no other request, and no watchdog. */
  predicate Undisturbed(e: Event) {
    match e
    case Orchestrate(step) => !step.OrchestratorCrash? && !step.OrchestratorAbandon?
    case Cancel => false
    case SetPaused(on) => !on
    case DeleteWebsite => false
    case PageEvent(_, step) => !step.Crash? && !step.Abandon?
    case LinkEvent(_, step) => !step.CrashLinks? && !step.AbandonLinks?
    case FinalizeEvent(step) => !step.CrashFinalize? && !step.FailFinalize? && !step.Redrive?
  }

  /** In the render queue, or taken from it and not let through yet. */
  predicate InRender(x: Phase) {
    x == Waiting(RenderLane) || x == Active(RenderLane)
  }

  /** The page will not be recorded: its job is over, or will be dropped when it is looked at. */
  predicate Doomed(s: State, p: Page) {
    p in s.pages.phase &&
    var x := s.pages.phase[p];
    x.Dropped? || x.Abandoned? || (s.redis.cancelled && InRender(x))
  }

  /** Finalize failed, or the job that was to queue it died for good. */
  ghost predicate Muted(s: State) {
    s.ending.finalizer.FinalizeFailed? ||
    (s.ending.finalizer.FinalizeIdle? && exists p <- s.pages.phase :: s.pages.phase[p].Silenced?)
  }

  /** An orchestrate job that has queued nothing is going to set the counters. */
  predicate Recounts(s: State) {
    s.pages.phase == map[] &&
    match s.pages.orchestrator
    case Idle => !s.redis.cancelled && s.links.website
    case Begun => s.links.website
    case Resolving => true
    case _ => false
  }

  /** The total counts pages whose jobs were never queued. */
  predicate Short(s: State) {
    s.past.stranded != 0 && !Recounts(s)
  }

  ghost predicate Completable(s: State) {
    (forall p <- s.pages.phase :: !Doomed(s, p)) && !Muted(s) && !Short(s)
  }

  /** No recorded page was run again, no counters were or will be set again on a crawl with pages, and
      no link batch was lost.  Any other failure is allowed. */
  ghost predicate Sound(s: State) {
    && Clean(s.past) && (YetToCount(s.pages.orchestrator) ==> s.pages.phase == map[])
    && s.past.leaked == 0 && forall j <- s.links.jobs :: !j.stage.LinkDead?
  }

  predicate Over(x: Phase) {
    x.Done? || x.Silenced?
  }

  /** Everything is recorded and checked, and finalize has run. */
  ghost predicate AllDone(s: State) {
    && SeedingEnded(s.pages.orchestrator)
    && (forall p <- s.pages.phase :: Over(s.pages.phase[p]))
    && s.redis.counters.Finished() == s.redis.counters.total
    && (forall j <- s.links.jobs :: j.stage.LinkCounted?)
    && (s.redis.counters.total > 0 ==> s.ending.finalizer.FinalizeDone?)
  }

  // ---------- what cannot be completed stays so ----------

  lemma DoomedStaysPage(cfg: Config, s: State, page: Page, step: PageStep, p: Page)
    requires PageEnabled(cfg, s, page, step) && Doomed(s, p)
    ensures Doomed(ApplyPage(cfg, s, page, step), p)
  {
    PhasesAfter(cfg, s, page, step);
  }

  /** Whatever happens. */
  lemma DoomedStays(cfg: Config, s: State, e: Event, p: Page)
    requires Enabled(cfg, s, e) && Doomed(s, p)
    ensures Doomed(Apply(cfg, s, e), p)
  {
    match e
    case PageEvent(page, step) => DoomedStaysPage(cfg, s, page, step, p);
    case _ =>
  }

  lemma SoundLink(s: State, index: nat, step: LinkStep)
    requires (forall j <- s.links.jobs :: !j.stage.LinkDead?) && LinkEnabled(s.links, index, step) &&
      !step.AbandonLinks?
    ensures forall j <- ApplyLink(s, index, step).links.jobs :: !j.stage.LinkDead?
  {
    var t := ApplyLink(s, index, step);
    assert forall j <- t.links.jobs :: j in s.links.jobs || j.stage == NextStage(step);
  }

  lemma SoundStep(cfg: Config, s: State, e: Event)
    requires Sound(s) && Enabled(cfg, s, e) && Undisturbed(e)
    ensures Sound(Apply(cfg, s, e))
  {
    if e.LinkEvent? {
      SoundLink(s, e.index, e.work);
    }
  }

  /** The silenced page was the only one to see completion. */
  lemma SilencedAlone(s: State, p: Page, q: Page)
    requires SeenOnce(s) && p in s.pages.phase && s.pages.phase[p].Silenced? && q in s.pages.phase
    requires SawComplete(s.pages.phase[q]) > 0
    ensures q == p
  {
    if q != p {
      SumSplit(s.pages.phase, SawComplete, p);
      SumAtLeast(s.pages.phase - {p}, SawComplete, q);
    }
  }

  /** Only a page that saw completion queues finalize, and a job that has ended takes no step. */
  lemma OnlySignalsQueue(cfg: Config, s: State, page: Page, step: PageStep)
    requires PageEnabled(cfg, s, page, step)
    ensures !Ended(s.pages.phase[page])
    ensures SawComplete(s.pages.phase[page]) == 0 ==>
      ApplyPage(cfg, s, page, step).ending.finalizer == s.ending.finalizer
    ensures forall q <- s.pages.phase :: q != page ==>
      q in ApplyPage(cfg, s, page, step).pages.phase &&
      ApplyPage(cfg, s, page, step).pages.phase[q] == s.pages.phase[q]
    ensures s.ending.finalizer.FinalizeFailed? ==> ApplyPage(cfg, s, page, step).ending.finalizer.FinalizeFailed?
  {
    PhasesAfter(cfg, s, page, step);
  }

  lemma MutedStaysPage(cfg: Config, s: State, page: Page, step: PageStep)
    requires Signalled(s) && Clean(s.past) && Muted(s) && PageEnabled(cfg, s, page, step)
    ensures Muted(ApplyPage(cfg, s, page, step))
  {
    OnlySignalsQueue(cfg, s, page, step);
    if s.ending.finalizer.FinalizeIdle? {
      var p :| p in s.pages.phase && s.pages.phase[p].Silenced?;
      if SawComplete(s.pages.phase[page]) > 0 {
        SilencedAlone(s, p, page);
      }
      assert ApplyPage(cfg, s, page, step).pages.phase[p].Silenced?;
    }
  }

  lemma MutedStays(cfg: Config, s: State, e: Event)
    requires Signalled(s) && Clean(s.past) && Muted(s) && Enabled(cfg, s, e) && Undisturbed(e)
    ensures Muted(Apply(cfg, s, e))
  {
    match e
    case PageEvent(page, step) => MutedStaysPage(cfg, s, page, step);
    case Orchestrate(step) =>
      var t := ApplyOrchestrator(cfg, s, step);
      assert forall p <- s.pages.phase :: t.pages.phase[p] == s.pages.phase[p];
    case _ =>
  }

  lemma ShortStays(cfg: Config, s: State, e: Event)
    requires Sound(s) && Short(s) && Enabled(cfg, s, e) && Undisturbed(e)
    ensures Short(Apply(cfg, s, e))
  {
  }

  lemma HopelessStep(cfg: Config, s: State, e: Event)
    requires Signalled(s) && Sound(s) && !Completable(s) && Enabled(cfg, s, e) && Undisturbed(e)
    ensures !Completable(Apply(cfg, s, e))
  {
    if Muted(s) {
      MutedStays(cfg, s, e);
    } else if Short(s) {
      ShortStays(cfg, s, e);
    } else {
      var p :| p in s.pages.phase && Doomed(s, p);
      DoomedStays(cfg, s, e, p);
    }
  }

  /** A page that saw completion saw it in a crawl that is complete. */
  lemma SawIsComplete(s: State, p: Page)
    requires SeenOnce(s) && p in s.pages.phase && SawComplete(s.pages.phase[p]) > 0
    ensures s.redis.counters.IsComplete()
  {
    SumAtLeast(s.pages.phase, SawComplete, p);
  }

  lemma DoneIsNotMuted(s: State)
    requires Signalled(s) && Clean(s.past) && AllDone(s)
    ensures !Muted(s)
  {
    if Muted(s) {
      if s.ending.finalizer.FinalizeFailed? {
        FlushedSaw(s);
      } else {
        var p :| p in s.pages.phase && s.pages.phase[p].Silenced?;
        SawIsComplete(s, p);
      }
    }
  }

  lemma DoneIsNotShort(s: State)
    requires Balanced(s) && Clean(s.past) && s.past.forgotten == s.past.discarded == 0
    requires s.redis.counters.Finished() == s.redis.counters.total
    ensures s.past.stranded == 0
  {
  }

  lemma OverIsNotDoomed(s: State)
    requires forall p <- s.pages.phase :: Over(s.pages.phase[p])
    ensures forall p <- s.pages.phase :: !Doomed(s, p)
  {
  }

  lemma DoneIsCompletable(s: State)
    requires Accounted(s) && Signalled(s) && Clean(s.past) && AllDone(s)
    ensures Completable(s)
  {
    OverIsNotDoomed(s);
    DoneIsNotMuted(s);
    DoneIsNotShort(s);
  }

  /** Only undisturbed steps follow. */
  ghost predicate Continues(cfg: Config, events: seq<Event>, after: seq<Event>) {
    Run(cfg, events + after).Reached? && forall e <- after :: Undisturbed(e)
  }

  lemma {:induction false} HopelessRun(cfg: Config, events: seq<Event>, after: seq<Event>)
    requires Run(cfg, events).Reached? && Sound(Run(cfg, events).state) && !Completable(Run(cfg, events).state)
    requires Continues(cfg, events, after)
    ensures Sound(Run(cfg, events + after).state) && !Completable(Run(cfg, events + after).state)
    decreases |after|
  {
    if after == [] {
      assert events + after == events;
    } else {
      var all, last := events + after, after[|after| - 1];
      RunLast(cfg, all);
      assert all[..|all| - 1] == events + after[..|after| - 1] && last in after;
      HopelessRun(cfg, events, after[..|after| - 1]);
      RunKeepsInvariant(cfg, all[..|all| - 1]);
      SoundStep(cfg, Run(cfg, all[..|all| - 1]).state, last);
      HopelessStep(cfg, Run(cfg, all[..|all| - 1]).state, last);
    }
  }

  // ---------- what can be completed ----------

  /** An undisturbed step that moves the crawl on. */
  predicate Moves(cfg: Config, universe: set<Page>, s: State, e: Event) {
    Enabled(cfg, s, e) && Advances(e) && Undisturbed(e) && Names(universe, e)
  }

  /** One after which the crawl can still be completed, and the seeds are the given ones. */
  ghost predicate Onward(cfg: Config, universe: set<Page>, seeds: seq<Page>, s: State, e: Event) {
    && Moves(cfg, universe, s, e) && Completable(Apply(cfg, s, e)) && !Apply(cfg, s, e).redis.paused
    && (e.Orchestrate? && e.seeding.InitCounters? ==> e.seeding.resolved == seeds)
  }

  function OrchestratorMove(s: State, seeds: seq<Page>): OrchestratorStep {
    match s.pages.orchestrator
    case Idle => if s.redis.cancelled then GiveUp else Begin
    case Begun => if s.links.website then FindWebsite else GiveUp
    case Resolving => InitCounters(seeds)
    case Initialised(resolved) => if resolved == [] then EndEmpty else ResetStats
    case Seeding(resolved, next) => if next < |resolved| then MarkSeed else QueueSeeds
    case _ => AcknowledgeSeeds
  }

  lemma OrchestratorMoves(cfg: Config, universe: set<Page>, seeds: seq<Page>, s: State)
    requires SeedsMarked(s) && !SeedingEnded(s.pages.orchestrator) && Distinct(seeds) && SetOf(seeds) <= universe
    ensures Moves(cfg, universe, s, Orchestrate(OrchestratorMove(s, seeds)))
  {
  }

  lemma SeedingDoomsNone(cfg: Config, s: State, step: OrchestratorStep)
    requires OrchestratorEnabled(s, step) && (forall p <- s.pages.phase :: !Doomed(s, p)) && !Muted(s)
    ensures var t := ApplyOrchestrator(cfg, s, step);
      (forall p <- t.pages.phase :: !Doomed(t, p)) && !Muted(t) && t.redis.paused == s.redis.paused
  {
    var t := ApplyOrchestrator(cfg, s, step);
    SeedingKeeps(cfg, s, step);
    assert t.redis.cancelled == s.redis.cancelled && t.ending.finalizer == s.ending.finalizer;
  }

  lemma NotShortAfter(cfg: Config, seeds: seq<Page>, s: State)
    requires Sound(s) && !Short(s) && OrchestratorEnabled(s, OrchestratorMove(s, seeds))
    ensures !Short(ApplyOrchestrator(cfg, s, OrchestratorMove(s, seeds)))
  {
  }

  lemma OrchestratorOnward(cfg: Config, universe: set<Page>, seeds: seq<Page>, s: State)
    requires SeedsMarked(s) && Sound(s) && Completable(s) && !s.redis.paused
    requires !SeedingEnded(s.pages.orchestrator) && Distinct(seeds) && SetOf(seeds) <= universe
    ensures Onward(cfg, universe, seeds, s, Orchestrate(OrchestratorMove(s, seeds)))
  {
    OrchestratorMoves(cfg, universe, seeds, s);
    SeedingDoomsNone(cfg, s, OrchestratorMove(s, seeds));
    NotShortAfter(cfg, seeds, s);
  }

  /** What the worker of a page does next; a cleared page's fetch fails. */
  function PageMove(s: State, p: Page): PageStep
    requires p in s.pages.phase && !Ended(s.pages.phase[p])
  {
    match s.pages.phase[p]
    case Waiting(_) => Take
    case Active(lane) => if lane.RenderLane? && s.redis.cancelled then DropRender else Process
    case Processing(_) => if s.redis.cancelled then Skip else NotCancelled
    case Uncancelled(_) => NotPaused
    case Cleared(_) => PersistError
    case Persisted(_, _, _) => MarkTargets
    case Marked(_, _, _) => CountBatches
    case Batching(_, _, _) => QueueBatch
    case Expanding(_, links, found) =>
      if links != [] then MarkLink else if found != [] then AddToTotal else SettleCrawled
    case Added(_, _) => QueueChildren
    case Settling(_, _) => Record
    case Recorded(_, saw) => if saw then FlushStats else Acknowledge
    case Flushed(_) => SignalFinalize
    case Notified(_) => Acknowledge
  }

  lemma PageMoves(cfg: Config, universe: set<Page>, s: State, p: Page)
    requires p in s.pages.phase && p in s.pages.jobs && PhaseSized(s.pages.phase[p]) && !Ended(s.pages.phase[p])
    requires !s.redis.paused
    ensures Moves(cfg, universe, s, PageEvent(p, PageMove(s, p)))
  {
  }

  /** What such a step leaves alone. */
  predicate SameCourse(s: State, t: State) {
    && t.redis.cancelled == s.redis.cancelled && t.redis.paused == s.redis.paused
    && t.past.stranded == s.past.stranded && t.past.recounted == s.past.recounted
    && t.past.restarts == s.past.restarts && t.ending.cleaned == s.ending.cleaned
    && t.pages.orchestrator == s.pages.orchestrator
    && (t.ending.finalizer == s.ending.finalizer || t.ending.finalizer == FinalizeQueued(0))
  }

  lemma PageMoveKeepsCourse(cfg: Config, s: State, p: Page)
    requires p in s.pages.phase && !Ended(s.pages.phase[p]) && PageEnabled(cfg, s, p, PageMove(s, p))
    ensures SameCourse(s, ApplyPage(cfg, s, p, PageMove(s, p)))
  {
  }

  lemma NextIsNotDoomed(cfg: Config, s: State, p: Page)
    requires p in s.pages.phase && !Ended(s.pages.phase[p]) && !Doomed(s, p)
    requires PageEnabled(cfg, s, p, PageMove(s, p))
    ensures var next := NextPhase(cfg, s, p, PageMove(s, p));
      !next.Dropped? && !next.Abandoned? && !next.Silenced? && (s.redis.cancelled ==> !InRender(next))
  {
  }

  /** Such a step dooms no page, and saves none. */
  lemma PageMoveDooms(cfg: Config, s: State, p: Page)
    requires p in s.pages.phase && !Ended(s.pages.phase[p]) && !Doomed(s, p)
    requires PageEnabled(cfg, s, p, PageMove(s, p))
    ensures var t := ApplyPage(cfg, s, p, PageMove(s, p));
      && s.pages.phase.Keys <= t.pages.phase.Keys
      && (forall q <- t.pages.phase :: Doomed(t, q) <==> Doomed(s, q))
      && (forall q <- t.pages.phase :: t.pages.phase[q].Silenced? ==> q in s.pages.phase && s.pages.phase[q].Silenced?)
  {
    PageMoveKeepsCourse(cfg, s, p);
    NextIsNotDoomed(cfg, s, p);
    PhasesAfter(cfg, s, p, PageMove(s, p));
    DoomedAlike(s, ApplyPage(cfg, s, p, PageMove(s, p)), p);
  }

  lemma DoomedAlike(s: State, t: State, p: Page)
    requires t.redis.cancelled == s.redis.cancelled && p in s.pages.phase && s.pages.phase.Keys <= t.pages.phase.Keys
    requires forall q <- t.pages.phase :: q != p ==>
      (q in s.pages.phase && t.pages.phase[q] == s.pages.phase[q]) || t.pages.phase[q] == Waiting(FetchLane)
    requires forall q <- s.pages.phase :: q != p ==> t.pages.phase[q] == s.pages.phase[q]
    requires !Doomed(s, p) && !Doomed(t, p) && !t.pages.phase[p].Silenced?
    ensures forall q <- t.pages.phase :: Doomed(t, q) <==> Doomed(s, q)
    ensures forall q <- t.pages.phase :: t.pages.phase[q].Silenced? ==> q in s.pages.phase && s.pages.phase[q].Silenced?
  {
  }

  lemma PageOnward(cfg: Config, universe: set<Page>, seeds: seq<Page>, s: State, p: Page)
    requires Completable(s) && !s.redis.paused
    requires p in s.pages.phase && p in s.pages.jobs && PhaseSized(s.pages.phase[p]) && !Ended(s.pages.phase[p])
    ensures Onward(cfg, universe, seeds, s, PageEvent(p, PageMove(s, p)))
  {
    PageMoves(cfg, universe, s, p);
    PageMoveKeepsCourse(cfg, s, p);
    PageMoveDooms(cfg, s, p);
  }

  function LinkMove(s: State, stage: LinkStage): LinkStep {
    match stage
    case LinkWaiting => TakeLinks
    case LinkActive => if s.links.website then FindSite else SkipLinks
    case LinkCleared => InsertRows
    case _ => Decrement
  }

  lemma LinkOnward(cfg: Config, universe: set<Page>, seeds: seq<Page>, s: State, i: nat)
    requires Completable(s) && !s.redis.paused
    requires i < |s.links.jobs| && !s.links.jobs[i].stage.LinkCounted? && !s.links.jobs[i].stage.LinkDead?
    ensures Onward(cfg, universe, seeds, s, LinkEvent(i, LinkMove(s, s.links.jobs[i].stage)))
  {
  }

  function FinalizerMove(s: State): FinalizeStep {
    match s.ending.finalizer
    case FinalizeQueued(_) => TakeFinalize
    case FinalizeActive(_) => if s.redis.cancelled then CancelFinalize else ClearFinalize
    case FinalizeCleared(_) => PassGate
    case _ => Finish
  }

  lemma FinalizerOnward(cfg: Config, universe: set<Page>, seeds: seq<Page>, s: State)
    requires Completable(s) && !s.redis.paused && s.redis.linkBatches <= 0 && FinalizeRank(s.ending.finalizer) > 0
    ensures Onward(cfg, universe, seeds, s, FinalizeEvent(FinalizerMove(s)))
  {
  }

  lemma {:induction false} AllCounted(jobs: seq<LinkJob>)
    requires forall j <- jobs :: j.stage.LinkCounted?
    ensures Pending(jobs) == 0
  {
    if jobs != [] {
      assert jobs[|jobs| - 1] in jobs;
      AllCounted(jobs[..|jobs| - 1]);
    }
  }

  /** Every job but finalize has ended. */
  ghost predicate WorkIsOver(s: State) {
    && SeedingEnded(s.pages.orchestrator) && (forall p <- s.pages.phase :: Over(s.pages.phase[p]))
    && forall j <- s.links.jobs :: j.stage.LinkCounted?
  }

  lemma NoBatchesLeft(s: State)
    requires Linked(s) && Sound(s) && WorkIsOver(s)
    ensures s.redis.linkBatches <= 0
  {
    SumZero(s.pages.phase, CountedBatches);
    AllCounted(s.links.jobs);
  }

  lemma OverIsQuiescent(s: State)
    requires Balanced(s) && Clean(s.past) && s.past.forgotten == s.past.discarded == s.pages.refused == 0
    requires WorkIsOver(s) && s.past.stranded == 0
    ensures s.redis.counters.Finished() == s.redis.counters.total
    ensures s.redis.counters.total > 0 ==> Quiescent(s)
  {
    SumZero(s.pages.phase, Owed);
  }

  /** With all work over and finalize not under way, nothing is left to do. */
  lemma OverIsDone(s: State)
    requires Accounted(s) && Claimed(s) && Signalled(s) && Sound(s) && Completable(s) && WorkIsOver(s)
    requires FinalizeRank(s.ending.finalizer) == 0
    ensures AllDone(s)
  {
    assert !Recounts(s);
    OverIsQuiescent(s);
    if s.redis.counters.total > 0 {
      var p := QuiescentState(s);
      assert s.pages.phase[p] == Done(true) || s.pages.phase[p].Silenced?;
    }
  }

  lemma UnfinishedWork(cfg: Config, universe: set<Page>, seeds: seq<Page>, s: State) returns (e: Event)
    requires Accounted(s) && Claimed(s) && Checked(s) && Sound(s) && Completable(s) && !s.redis.paused
    requires !WorkIsOver(s) && Distinct(seeds) && SetOf(seeds) <= universe
    ensures Onward(cfg, universe, seeds, s, e)
  {
    if !SeedingEnded(s.pages.orchestrator) {
      OrchestratorOnward(cfg, universe, seeds, s);
      e := Orchestrate(OrchestratorMove(s, seeds));
    } else if p :| p in s.pages.phase && !Over(s.pages.phase[p]) {
      assert !Doomed(s, p);
      PageOnward(cfg, universe, seeds, s, p);
      e := PageEvent(p, PageMove(s, p));
    } else {
      var j :| j in s.links.jobs && !j.stage.LinkCounted?;
      var i :| 0 <= i < |s.links.jobs| && s.links.jobs[i] == j;
      LinkOnward(cfg, universe, seeds, s, i);
      e := LinkEvent(i, LinkMove(s, j.stage));
    }
  }

  /** A crawl that can be completed and is not done can move on and still be completed. */
  lemma StillMoves(cfg: Config, universe: set<Page>, seeds: seq<Page>, s: State) returns (e: Event)
    requires Invariant(cfg, s) && Sound(s) && Completable(s) && !s.redis.paused && !AllDone(s)
    requires Distinct(seeds) && SetOf(seeds) <= universe
    ensures Onward(cfg, universe, seeds, s, e)
  {
    if WorkIsOver(s) {
      NoBatchesLeft(s);
      if FinalizeRank(s.ending.finalizer) == 0 {
        OverIsDone(s);
      }
      FinalizerOnward(cfg, universe, seeds, s);
      e := FinalizeEvent(FinalizerMove(s));
    } else {
      e := UnfinishedWork(cfg, universe, seeds, s);
    }
  }

  /** One step of the drive. */
  lemma NextState(cfg: Config, universe: set<Page>, seeds: seq<Page>, s: State) returns (e: Event)
    requires Invariant(cfg, s) && Sound(s) && Completable(s) && !s.redis.paused && !AllDone(s)
    requires Distinct(seeds) && SetOf(seeds) <= universe && Within(universe, s.pages)
    ensures Onward(cfg, universe, seeds, s, e)
    ensures var t := Apply(cfg, s, e);
      Sound(t) && Within(universe, t.pages) && Below(MeasureOf(universe, t), MeasureOf(universe, s))
  {
    e := StillMoves(cfg, universe, seeds, s);
    Progress(cfg, universe, s, e);
    WithinStep(cfg, universe, s, e);
    SoundStep(cfg, s, e);
  }

  /** What the drive needs of a state. */
  ghost predicate Drivable(universe: set<Page>, s: State) {
    Sound(s) && Completable(s) && !s.redis.paused && Within(universe, s.pages)
  }

  /** An undisturbed continuation to the end, in which the orchestrator resolves the given seeds. */
  ghost predicate Finishes(cfg: Config, seeds: seq<Page>, events: seq<Event>, after: seq<Event>) {
    && Continues(cfg, events, after) && AllDone(Run(cfg, events + after).state)
    && forall e <- after :: e.Orchestrate? && e.seeding.InitCounters? ==> e.seeding.resolved == seeds
  }

  lemma FinishesNow(cfg: Config, seeds: seq<Page>, events: seq<Event>) returns (after: seq<Event>)
    requires Run(cfg, events).Reached? && AllDone(Run(cfg, events).state)
    ensures Finishes(cfg, seeds, events, after)
  {
    after := [];
    assert events + after == events;
  }

  lemma FinishesLater(cfg: Config, seeds: seq<Page>, events: seq<Event>, e: Event, rest: seq<Event>)
    returns (after: seq<Event>)
    requires Finishes(cfg, seeds, events + [e], rest) && Undisturbed(e)
    requires e.Orchestrate? && e.seeding.InitCounters? ==> e.seeding.resolved == seeds
    ensures Finishes(cfg, seeds, events, after)
  {
    after := [e] + rest;
    assert events + after == events + [e] + rest;
  }

  lemma DriveStep(cfg: Config, universe: set<Page>, seeds: seq<Page>, events: seq<Event>)
    returns (e: Event, m: Measure)
    requires Run(cfg, events).Reached? && Distinct(seeds) && SetOf(seeds) <= universe
    requires Drivable(universe, Run(cfg, events).state) && !AllDone(Run(cfg, events).state)
    ensures Run(cfg, events + [e]).Reached? && Drivable(universe, Run(cfg, events + [e]).state)
    ensures m == MeasureOf(universe, Run(cfg, events + [e]).state)
    ensures Below(m, MeasureOf(universe, Run(cfg, events).state))
    ensures Undisturbed(e) && (e.Orchestrate? && e.seeding.InitCounters? ==> e.seeding.resolved == seeds)
  {
    RunKeepsInvariant(cfg, events);
    var s := Run(cfg, events).state;
    e := NextState(cfg, universe, seeds, s);
    m := MeasureOf(universe, Apply(cfg, s, e));
    var longer := Extend(cfg, events, e);
  }

  /** Moving on until all is done. */
  lemma {:induction false} Drive(cfg: Config, universe: set<Page>, seeds: seq<Page>, events: seq<Event>, m: Measure)
    returns (after: seq<Event>)
    requires Run(cfg, events).Reached? && Distinct(seeds) && SetOf(seeds) <= universe
    requires Drivable(universe, Run(cfg, events).state) && m == MeasureOf(universe, Run(cfg, events).state)
    ensures Finishes(cfg, seeds, events, after)
    decreases m.seeding, m.seeds, m.unqueued, m.stages, m.rounds, m.links, m.ending
  {
    if AllDone(Run(cfg, events).state) {
      after := FinishesNow(cfg, seeds, events);
    } else {
      var e, less := DriveStep(cfg, universe, seeds, events);
      var rest := Drive(cfg, universe, seeds, events + [e], less);
      after := FinishesLater(cfg, seeds, events, e, rest);
    }
  }

  /** The pages that some events name, with some more. */
  lemma {:induction false} Universe(events: seq<Event>, more: set<Page>) returns (universe: set<Page>)
    ensures more <= universe && forall e <- events :: Names(universe, e)
  {
    if events == [] {
      universe := more;
    } else {
      var e := events[0];
      var named := if e.PageEvent? && e.step.Persist? then SetOf(e.step.links)
                   else if e.Orchestrate? && e.seeding.InitCounters? then SetOf(e.seeding.resolved)
                   else {};
      universe := Universe(events[1..], more + named);
    }
  }

  /** A crawl that can be completed: whatever seeds an attempt that is still to resolve them finds. */
  lemma CanComplete(cfg: Config, seeds: seq<Page>, events: seq<Event>) returns (after: seq<Event>)
    requires Run(cfg, events).Reached? && Sound(Run(cfg, events).state) && Completable(Run(cfg, events).state)
    requires Distinct(seeds)
    ensures Finishes(cfg, seeds, events, after)
  {
    var universe := Universe(events, SetOf(seeds));
    RunWithin(cfg, universe, events);
    var resumed := Extend(cfg, events, SetPaused(false));
    var rest := Drive(cfg, universe, seeds, resumed, MeasureOf(universe, Run(cfg, resumed).state));
    after := FinishesLater(cfg, seeds, events, SetPaused(false), rest);
  }

  /** After any run in which no page was recounted, no counters were set again and no link batch was
      lost, whatever else failed, was cancelled or paused, and whatever seeds are still to be resolved:
      the workers can bring the crawl to its end if and only if no page is doomed, finalize has neither
      failed nor lost its signal, and every page in the total was queued or the counters are yet to be set. */
  lemma {:induction false} CrawlCompletes(cfg: Config, seeds: seq<Page>, events: seq<Event>)
    requires Run(cfg, events).Reached? && Sound(Run(cfg, events).state) && Distinct(seeds)
    ensures Completable(Run(cfg, events).state) <==> exists after :: Finishes(cfg, seeds, events, after)
  {
    if Completable(Run(cfg, events).state) {
      var after := CanComplete(cfg, seeds, events);
    } else if after :| Finishes(cfg, seeds, events, after) {
      HopelessRun(cfg, events, after);
      RunKeepsInvariant(cfg, events + after);
      DoneIsCompletable(Run(cfg, events + after).state);
    }
  }

  // ---------- runs that rest ----------

  ghost predicate AtRest(cfg: Config, universe: set<Page>, s: State) {
    !s.redis.paused && forall e :: !Moves(cfg, universe, s, e)
  }

  predicate Smooth(e: Event) {
    NoFailure(e) && (e.FinalizeEvent? ==> !e.pass.FailFinalize?)
  }

  /** Without failures only a cancelled crawl's render jobs end without an outcome. */
  ghost predicate Lossless(s: State) {
    && NothingLost(s) && !s.ending.finalizer.FinalizeFailed?
    && (forall p <- s.pages.phase :: !s.pages.phase[p].Abandoned? && !s.pages.phase[p].Silenced?)
    && forall j <- s.links.jobs :: !j.stage.LinkDead?
  }

  lemma LosslessStep(cfg: Config, s: State, e: Event)
    requires Lossless(s) && Enabled(cfg, s, e) && Smooth(e)
    ensures Lossless(Apply(cfg, s, e))
  {
    NoFailureStep(cfg, s, e);
    match e
    case PageEvent(page, step) => PhasesAfter(cfg, s, page, step);
    case LinkEvent(index, step) => SoundLink(s, index, step);
    case _ =>
  }

  lemma {:induction false} SmoothRunIsLossless(cfg: Config, events: seq<Event>)
    requires Run(cfg, events).Reached? && forall e <- events :: Smooth(e)
    ensures Lossless(Run(cfg, events).state)
  {
    if events != [] {
      RunLast(cfg, events);
      var before, e := events[..|events| - 1], events[|events| - 1];
      assert e in events;
      SmoothRunIsLossless(cfg, before);
      LosslessStep(cfg, Run(cfg, before).state, e);
    }
  }

  /** At rest, what can be completed is complete. */
  lemma RestIsFinished(cfg: Config, universe: set<Page>, s: State)
    requires Invariant(cfg, s) && Sound(s) && AtRest(cfg, universe, s)
    ensures AllDone(s) <==> Completable(s)
  {
    if AllDone(s) {
      DoneIsCompletable(s);
    } else if Completable(s) {
      var e := StillMoves(cfg, universe, [], s);
    }
  }

  lemma NothingWaits(cfg: Config, universe: set<Page>, s: State, p: Page)
    requires p in s.pages.phase && p in s.pages.jobs && PhaseSized(s.pages.phase[p]) && AtRest(cfg, universe, s)
    ensures Ended(s.pages.phase[p])
  {
    if !Ended(s.pages.phase[p]) {
      PageMoves(cfg, universe, s, p);
    }
  }

  lemma RestHasEnded(cfg: Config, universe: set<Page>, s: State)
    requires Bounded(cfg, s.pages) && Checked(s) && AtRest(cfg, universe, s)
    ensures forall p <- s.pages.phase :: Ended(s.pages.phase[p])
  {
    forall p <- s.pages.phase
      ensures Ended(s.pages.phase[p])
    {
      NothingWaits(cfg, universe, s, p);
    }
  }

  lemma EndedIsCompletable(s: State)
    requires Lossless(s) && forall p <- s.pages.phase :: Ended(s.pages.phase[p])
    ensures Completable(s) <==> forall p <- s.pages.phase :: !s.pages.phase[p].Dropped?
  {
  }

  /** Every failure-free run that cannot move on, however its events interleaved, has finished if and
      only if no render job was dropped. */
  lemma {:induction false} RestingRunIsFinished(cfg: Config, universe: set<Page>, events: seq<Event>)
    requires Run(cfg, events).Reached? && forall e <- events :: Smooth(e)
    requires AtRest(cfg, universe, Run(cfg, events).state)
    ensures var s := Run(cfg, events).state;
      AllDone(s) <==> forall p <- s.pages.phase :: !s.pages.phase[p].Dropped?
  {
    RunKeepsInvariant(cfg, events);
    SmoothRunIsLossless(cfg, events);
    RestIsFinished(cfg, universe, Run(cfg, events).state);
    RestHasEnded(cfg, universe, Run(cfg, events).state);
    EndedIsCompletable(Run(cfg, events).state);
  }
}
