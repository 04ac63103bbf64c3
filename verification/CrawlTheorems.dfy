/** The theorems about whole crawls, for every sequence of events. */
module CrawlTheorems {
  import opened Sequences
  import opened Sums
  import opened CrawlProtocol
  import opened CrawlSafety
  import opened CrawlLinks

  ghost predicate Invariant(cfg: Config, s: State) {
    Bounded(cfg, s.pages) && Claimed(s) && Signalled(s) && Linked(s) && Accounted(s)
  }

  lemma InvariantStep(cfg: Config, s: State, e: Event)
    requires Invariant(cfg, s) && Enabled(cfg, s, e)
    ensures Invariant(cfg, Apply(cfg, s, e))
  {
    AccountedStep(cfg, s, e);
    BoundedStep(cfg, s, e);
    ClaimedStep(cfg, s, e);
    SignalledStep(cfg, s, e);
    LinkedStep(cfg, s, e);
  }

  lemma {:induction false} RunLast(cfg: Config, events: seq<Event>)
    requires events != [] && Run(cfg, events).Reached?
    ensures var r, e := Run(cfg, events[..|events| - 1]), events[|events| - 1];
      r.Reached? && Enabled(cfg, r.state, e) && Run(cfg, events).state == Apply(cfg, r.state, e)
  {
  }

  lemma Extend(cfg: Config, events: seq<Event>, e: Event) returns (longer: seq<Event>)
    requires Run(cfg, events).Reached? && Enabled(cfg, Run(cfg, events).state, e)
    ensures longer == events + [e]
    ensures Run(cfg, longer) == Reached(Apply(cfg, Run(cfg, events).state, e))
  {
    longer := events + [e];
    assert longer[..|events|] == events;
  }

  /** Before anything has happened. */
  predicate Untold(s: State) {
    && s.redis.counters == Counters(0, 0, 0, 0) && s.redis.linkBatches == 0 && s.redis.linkTargets == {}
    && s.pages == Pages(Idle, map[], map[], 0) && s.links.jobs == [] && Untouched(s.ending)
    && s.past.place == map[] && Clean(s.past)
    && s.past.stranded == s.past.leaked == s.past.overcounted == 0 && s.past.forgotten == s.past.discarded == 0
  }

  lemma InitialInvariant(cfg: Config, s: State)
    requires Untold(s)
    ensures Invariant(cfg, s)
  {
  }

  lemma {:induction false} RunKeepsInvariant(cfg: Config, events: seq<Event>)
    requires Run(cfg, events).Reached?
    ensures Invariant(cfg, Run(cfg, events).state)
  {
    if events == [] {
      InitialInvariant(cfg, INITIAL);
    } else {
      RunLast(cfg, events);
      var before := events[..|events| - 1];
      RunKeepsInvariant(cfg, before);
      InvariantStep(cfg, Run(cfg, before).state, events[|events| - 1]);
    }
  }

  // ---------- no early finalize ----------

  /** The pages whose job can still record an outcome. */
  ghost function OutstandingPages(s: State): set<Page> {
    set p <- s.pages.phase | Outstanding(s.pages.phase[p])
  }

  /** What is still owed to the counters: the outcomes of pages, and pages counted but not queued. */
  ghost function Unpaid(s: State): nat {
    TotalOwed(s.pages) + SeedsOwed(s.pages.orchestrator)
  }

  /** What the counters miss beyond that, and what they count too much. */
  function Missed(s: State): int {
    s.past.stranded + s.pages.refused + s.past.discarded
  }

  function Excess(s: State): int {
    s.past.recounted + s.past.forgotten
  }

  /** The counters look complete exactly when recounted pages and overwritten totals cover everything
      still owed, lost, refused or overwritten; and they do so too soon exactly when something is owed
      that they cover. */
  lemma {:induction false} CompletionIsExact(cfg: Config, events: seq<Event>)
    requires Run(cfg, events).Reached?
    ensures var s := Run(cfg, events).state;
      && (s.redis.counters.IsComplete() <==> s.redis.counters.total > 0 && Unpaid(s) + Missed(s) <= Excess(s))
      && (s.redis.counters.IsComplete() && Unpaid(s) > 0 <==>
          s.redis.counters.total > 0 && 0 < Unpaid(s) <= Excess(s) - Missed(s))
  {
    RunKeepsInvariant(cfg, events);
  }

  /** Unless a worker died between recording a page and acknowledging its job, or the orchestrator
      after queueing the seeds, finalize is never signalled, by a page or by the watchdog, while some
      page is unrecorded or some was lost. */
  lemma {:induction false} NoEarlyFinalize(cfg: Config, events: seq<Event>)
    requires Run(cfg, events).Reached?
    ensures var s := Run(cfg, events).state;
      Clean(s.past) &&
      (!s.ending.finalizer.FinalizeIdle? || s.ending.statsComplete ||
       exists p <- s.pages.phase :: SawComplete(s.pages.phase[p]) > 0) ==>
        && (forall p <- s.pages.phase :: Owed(s.pages.phase[p]) == 0)
        && OutstandingPages(s) == {} && SeedsOwed(s.pages.orchestrator) == 0
        && s.redis.counters.total == s.redis.counters.Finished()
        && s.past.stranded == s.pages.refused == 0
  {
    RunKeepsInvariant(cfg, events);
    var s := Run(cfg, events).state;
    forall p <- s.pages.phase
      ensures SawComplete(s.pages.phase[p]) <= Sum(s.pages.phase, SawComplete)
    {
      SumAtLeast(s.pages.phase, SawComplete, p);
    }
    if Clean(s.past) && !Untouched(s.ending) {
      FlushedSaw(s);
    }
    if Clean(s.past) && s.redis.counters.IsComplete() {
      CompleteOwesNothing(s);
    }
  }

  /** Whatever dies and whatever is delivered again, the counters run ahead of the outstanding pages
      by no more than was recounted or overwritten; in a clean crawl, not at all. */
  lemma {:induction false} RedeliveryIsSafe(cfg: Config, events: seq<Event>)
    requires Run(cfg, events).Reached?
    ensures var s := Run(cfg, events).state;
      && s.redis.counters.total - s.redis.counters.Finished() + Excess(s)
           >= |OutstandingPages(s)| + SeedsOwed(s.pages.orchestrator) + Missed(s)
      && (Clean(s.past) ==>
            s.redis.counters.total - s.redis.counters.Finished() >= |OutstandingPages(s)| + s.past.stranded)
  {
    RunKeepsInvariant(cfg, events);
    var s := Run(cfg, events).state;
    SumCounts(s.pages.phase, Owed, OutstandingPages(s));
  }

  // ---------- counters set again ----------

  lemma {:induction false} RunPrefix(cfg: Config, events: seq<Event>, k: nat)
    requires k <= |events| && Run(cfg, events).Reached?
    ensures Run(cfg, events[..k]).Reached?
    decreases |events|
  {
    if k < |events| {
      RunLast(cfg, events);
      RunPrefix(cfg, events[..|events| - 1], k);
      assert events[..|events| - 1][..k] == events[..k];
    } else {
      assert events[..k] == events;
    }
  }

  /** Only setting the counters of a crawl with pages overwrites totals and outcomes. */
  lemma OverwritesStep(cfg: Config, s: State, e: Event)
    requires Enabled(cfg, s, e)
    ensures var t := Apply(cfg, s, e);
      && s.past.restarts <= t.past.restarts
      && (s.past.restarts == t.past.restarts ==>
            s.past.forgotten == t.past.forgotten && s.past.discarded == t.past.discarded)
  {
  }

  lemma {:induction false} OverwritesRun(cfg: Config, events: seq<Event>, k: nat)
    requires k <= |events| && Run(cfg, events).Reached? && Run(cfg, events[..k]).Reached?
    ensures var h, g := Run(cfg, events[..k]).state.past, Run(cfg, events).state.past;
      && h.restarts <= g.restarts
      && (h.restarts == g.restarts ==> h.forgotten == g.forgotten && h.discarded == g.discarded)
    decreases |events|
  {
    if k < |events| {
      RunLast(cfg, events);
      var before := events[..|events| - 1];
      assert before[..k] == events[..k];
      OverwritesRun(cfg, before, k);
      OverwritesStep(cfg, Run(cfg, before).state, events[|events| - 1]);
    } else {
      assert events[..k] == events;
    }
  }

  /** A run that sets the counters of a crawl with pages after `k` events, and not again. */
  ghost predicate RestartsAt(cfg: Config, events: seq<Event>, k: nat) {
    && k < |events| && Run(cfg, events).Reached? && Run(cfg, events[..k]).Reached?
    && events[k].Orchestrate? && events[k].seeding.InitCounters?
    && Run(cfg, events[..k]).state.pages.phase != map[]
    && Run(cfg, events).state.past.restarts == Run(cfg, events[..k]).state.past.restarts + 1
  }

  /** What has been owed, lost or refused since, against what was owed when the counters were set. */
  lemma {:induction false} RestartBalance(cfg: Config, events: seq<Event>, k: nat)
    requires RestartsAt(cfg, events, k)
    ensures var s, t := Run(cfg, events[..k]).state, Run(cfg, events).state;
      t.redis.counters.total - t.redis.counters.Finished() ==
        Unpaid(t) + (t.pages.refused - s.pages.refused) + (t.past.stranded - s.past.stranded)
        - TotalOwed(s.pages) - (t.past.recounted - s.past.recounted)
  {
    RunKeepsInvariant(cfg, events);
    RunKeepsInvariant(cfg, events[..k]);
    RunPrefix(cfg, events, k + 1);
    RunLast(cfg, events[..k + 1]);
    assert events[..k + 1][..k] == events[..k] && events[..k + 1][k] == events[k];
    OverwritesRun(cfg, events, k + 1);
  }

  /** After the orchestrate job was run again on a crawl with pages, and nothing else failed: the
      crawl looks complete while pages are owed exactly while no more are owed than were owed at the
      reset beyond the adds refused since.  So it never does when as many adds were refused as pages
      were owed. */
  lemma {:induction false} RestartIsExact(cfg: Config, events: seq<Event>, k: nat)
    requires RestartsAt(cfg, events, k)
    requires var s, t := Run(cfg, events[..k]).state, Run(cfg, events).state;
      s.past.recounted == t.past.recounted && s.past.stranded == t.past.stranded
    ensures var s, t := Run(cfg, events[..k]).state, Run(cfg, events).state;
      var refused := t.pages.refused - s.pages.refused;
      && (t.redis.counters.IsComplete() && Unpaid(t) > 0 <==>
          t.redis.counters.total > 0 && 0 < Unpaid(t) <= TotalOwed(s.pages) - refused)
      && (TotalOwed(s.pages) <= refused && t.redis.counters.IsComplete() ==> Unpaid(t) == 0)
  {
    RestartBalance(cfg, events, k);
  }

  // ---------- quiescence ----------

  /** The page that saw completion, and no other page did. */
  ghost predicate OnlySignaller(s: State, p: Page) {
    && p in s.pages.phase && SawComplete(s.pages.phase[p]) == 1
    && (forall q <- s.pages.phase :: SawComplete(s.pages.phase[q]) > 0 ==> q == p)
    && (HasNotified(s.pages.phase[p]) ==> !s.ending.finalizer.FinalizeIdle?)
  }

  /** A non-empty clean crawl in which every page is recorded and none was stranded. */
  ghost predicate Quiescent(s: State) {
    && s.redis.counters.total > 0 && Clean(s.past) && s.past.stranded == 0
    && SeedsOwed(s.pages.orchestrator) == 0
    && (forall p <- s.pages.phase :: Owed(s.pages.phase[p]) == 0)
  }

  lemma QuiescentState(s: State) returns (p: Page)
    requires Accounted(s) && Claimed(s) && Signalled(s) && Quiescent(s)
    ensures OnlySignaller(s, p)
  {
    SumZero(s.pages.phase, Owed);
    p := SumOne(s.pages.phase, SawComplete);
  }

  /** However the events interleave, a quiescent crawl has exactly one page that saw completion; once
      that page has notified, finalize has been queued. */
  lemma {:induction false} QuiescenceSignals(cfg: Config, events: seq<Event>)
    requires Run(cfg, events).Reached? && Quiescent(Run(cfg, events).state)
    ensures exists p :: OnlySignaller(Run(cfg, events).state, p)
  {
    RunKeepsInvariant(cfg, events);
    var p := QuiescentState(Run(cfg, events).state);
  }

  /** A quiescent crawl whose jobs have all ended. */
  ghost predicate Settled(s: State) {
    Quiescent(s) && SeedingEnded(s.pages.orchestrator) && forall p <- s.pages.phase :: Ended(s.pages.phase[p])
  }

  predicate SeedingEnded(o: Orchestrator) {
    o.Acknowledged? || o.OrchestratorDead?
  }

  /** The orchestrate job has yet to set the counters, for the first time or again. */
  predicate YetToCount(o: Orchestrator) {
    o.Idle? || o.Begun? || o.Resolving?
  }

  predicate Ended(x: Phase) {
    x.Done? || x.Silenced? || x.Dropped? || x.Abandoned?
  }

  function LostSignal(x: Phase): nat {
    if x.Silenced? then 1 else 0
  }

  /** Nothing is left that could start finalize. */
  ghost predicate Stuck(s: State) {
    && SeedingEnded(s.pages.orchestrator) && (forall p <- s.pages.phase :: Ended(s.pages.phase[p]))
    && s.ending.finalizer.FinalizeIdle? && !s.ending.statsComplete
  }

  lemma EndedTakesNoStep(cfg: Config, s: State, page: Page, step: PageStep)
    requires PageEnabled(cfg, s, page, step)
    ensures !Ended(s.pages.phase[page])
  {
  }

  lemma StuckStep(cfg: Config, s: State, e: Event)
    requires Stuck(s) && Enabled(cfg, s, e)
    ensures Stuck(Apply(cfg, s, e))
  {
    match e
    case PageEvent(page, step) => EndedTakesNoStep(cfg, s, page, step);
    case _ =>
  }

  lemma {:induction false} StuckForever(cfg: Config, events: seq<Event>, after: seq<Event>)
    requires Run(cfg, events).Reached? && Stuck(Run(cfg, events).state) && Run(cfg, events + after).Reached?
    ensures Stuck(Run(cfg, events + after).state)
    decreases |after|
  {
    if after == [] {
      assert events + after == events;
    } else {
      var all := events + after;
      RunLast(cfg, all);
      assert all[..|all| - 1] == events + after[..|after| - 1];
      StuckForever(cfg, events, after[..|after| - 1]);
      StuckStep(cfg, Run(cfg, events + after[..|after| - 1]).state, all[|all| - 1]);
    }
  }

  lemma LostSignals(s: State, p: Page)
    requires OnlySignaller(s, p)
    ensures Sum(s.pages.phase, LostSignal) == LostSignal(s.pages.phase[p])
  {
    SumSplit(s.pages.phase, LostSignal, p);
    SumZero(s.pages.phase - {p}, LostSignal);
  }

  /** Who signalled in a settled crawl. */
  lemma SettledState(s: State)
    requires Accounted(s) && Claimed(s) && Signalled(s) && Settled(s)
    ensures Sum(s.pages.phase, LostSignal) <= 1
    ensures Sum(s.pages.phase, LostSignal) == 0 ==> !s.ending.finalizer.FinalizeIdle?
    ensures Untouched(s.ending) <==> exists p <- s.pages.phase :: s.pages.phase[p] == Silenced(false)
  {
    var p := QuiescentState(s);
    var x := s.pages.phase[p];
    LostSignals(s, p);
    assert x == Done(true) || x.Silenced?;
    if HasFlushed(x) > 0 {
      assert SomeFlushed(s.pages.phase);
    }
  }

  /** In a settled crawl at most one signal was lost: a page's job died for good between seeing
      completion and queueing finalize.  If none was, finalize has been queued; and finalize can
      never run, whatever happens next, exactly if the job died before it wrote the final stats. */
  lemma {:induction false} SettledSignals(cfg: Config, events: seq<Event>)
    requires Run(cfg, events).Reached? && Settled(Run(cfg, events).state)
    ensures var s := Run(cfg, events).state;
      && Sum(s.pages.phase, LostSignal) <= 1
      && (Sum(s.pages.phase, LostSignal) == 0 ==> !s.ending.finalizer.FinalizeIdle?)
      && ((exists p <- s.pages.phase :: s.pages.phase[p] == Silenced(false)) <==>
          forall after :: Run(cfg, events + after).Reached? ==>
            Run(cfg, events + after).state.ending.finalizer.FinalizeIdle?)
  {
    RunKeepsInvariant(cfg, events);
    var s := Run(cfg, events).state;
    SettledState(s);
    if Untouched(s.ending) {
      forall after | Run(cfg, events + after).Reached?
        ensures Run(cfg, events + after).state.ending.finalizer.FinalizeIdle?
      {
        StuckForever(cfg, events, after);
      }
    } else {
      Restarted(cfg, events);
    }
  }

  /** Unless finalize is idle and no stats are final, finalize has been queued or the watchdog may. */
  lemma {:induction false} Restarted(cfg: Config, events: seq<Event>)
    requires Run(cfg, events).Reached? && Signalled(Run(cfg, events).state) && Clean(Run(cfg, events).state.past)
    requires !Untouched(Run(cfg, events).state.ending)
    ensures exists after :: Run(cfg, events + after).Reached? &&
                            !Run(cfg, events + after).state.ending.finalizer.FinalizeIdle?
  {
    var s := Run(cfg, events).state;
    if s.ending.finalizer.FinalizeIdle? {
      var longer := Extend(cfg, events, FinalizeEvent(Redrive));
      assert longer == events + [FinalizeEvent(Redrive)];
    } else {
      assert events + [] == events;
    }
  }

  // ---------- discovery ----------

  /** The pages that an event asks to queue. */
  function Asked(cfg: Config, s: State, e: Event): seq<Page>
    requires Enabled(cfg, s, e)
  {
    match e
    case Orchestrate(step) => if step.QueueSeeds? then s.pages.orchestrator.seeds else []
    case PageEvent(page, step) => if step.QueueChildren? then s.pages.phase[page].found else []
    case _ => []
  }

  /** Every page that the orchestrator or a worker asked to queue, in order. */
  ghost function Queued(cfg: Config, events: seq<Event>): seq<Page>
    requires Run(cfg, events).Reached?
  {
    if events == [] then []
    else
      RunLast(cfg, events);
      var before := events[..|events| - 1];
      Queued(cfg, before) + Asked(cfg, Run(cfg, before).state, events[|events| - 1])
  }

  lemma AskedIsNew(cfg: Config, s: State, e: Event)
    requires Accounted(s) && Claimed(s) && Enabled(cfg, s, e)
    ensures Apply(cfg, s, e).pages.phase.Keys == s.pages.phase.Keys + SetOf(Asked(cfg, s, e))
    ensures Clean(s.past) ==> Distinct(Asked(cfg, s, e)) && forall p <- Asked(cfg, s, e) :: p !in s.pages.phase
    ensures Clean(Apply(cfg, s, e).past) ==> Clean(s.past)
  {
    match e
    case PageEvent(page, step) => PageAsks(cfg, s, page, step);
    case Orchestrate(step) =>
    case _ =>
  }

  lemma PageAsks(cfg: Config, s: State, page: Page, step: PageStep)
    requires Claimed(s) && PageEnabled(cfg, s, page, step)
    ensures var asked, t := Asked(cfg, s, PageEvent(page, step)), ApplyPage(cfg, s, page, step);
      && t.pages.phase.Keys == s.pages.phase.Keys + SetOf(asked)
      && (Clean(s.past) ==> Distinct(asked) && forall p <- asked :: p !in s.pages.phase)
      && (Clean(t.past) ==> Clean(s.past))
  {
    if step.QueueChildren? {
      assert Clean(s.past) ==> FoundIsClaimed(s, page, FoundOf(s.pages.phase[page]));
    }
  }

  lemma DistinctJoin<T>(a: seq<T>, b: seq<T>)
    requires Distinct(a) && Distinct(b) && forall x <- b :: x !in a
    ensures Distinct(a + b)
  {
    var all := a + b;
    forall i, j | 0 <= i < j < |all|
      ensures all[i] != all[j]
    {
      if j >= |a| {
        assert all[j] == b[j - |a|];
        if i < |a| {
          assert all[i] == a[i] && a[i] in a && b[j - |a|] in b;
        } else {
          assert all[i] == b[i - |a|];
        }
      }
    }
  }

  lemma QueueGrows(queued: seq<Page>, asked: seq<Page>, known: set<Page>)
    requires SetOf(queued) == known
    ensures SetOf(queued + asked) == known + SetOf(asked)
    ensures Distinct(queued) && Distinct(asked) && (forall p <- asked :: p !in known) ==> Distinct(queued + asked)
  {
    if Distinct(queued) && Distinct(asked) && forall p <- asked :: p !in known {
      DistinctJoin(queued, asked);
    }
  }

  /** The jobs that exist are exactly the pages asked for; in a clean crawl none is asked for twice. */
  lemma {:induction false} QueuedOnce(cfg: Config, events: seq<Event>)
    requires Run(cfg, events).Reached?
    ensures SetOf(Queued(cfg, events)) == Run(cfg, events).state.pages.phase.Keys
    ensures Clean(Run(cfg, events).state.past) ==> Distinct(Queued(cfg, events))
  {
    if events != [] {
      RunLast(cfg, events);
      var before, e := events[..|events| - 1], events[|events| - 1];
      QueuedOnce(cfg, before);
      RunKeepsInvariant(cfg, before);
      var s := Run(cfg, before).state;
      AskedIsNew(cfg, s, e);
      QueueGrows(Queued(cfg, before), Asked(cfg, s, e), s.pages.phase.Keys);
    }
  }

  /** Every job ever queued is a seed's, or within the depth limit and of a seed's domain. */
  lemma {:induction false} DiscoveryStaysInScope(cfg: Config, events: seq<Event>, p: Page)
    requires Run(cfg, events).Reached? && p in Run(cfg, events).state.pages.jobs
    ensures var jobs := Run(cfg, events).state.pages.jobs;
      jobs[p].depth > 0 ==>
        && jobs[p].depth <= cfg.maxDepth && jobs[p].discover
        && exists seed <- jobs :: jobs[seed].depth == 0 && cfg.domainOf(seed) == cfg.domainOf(p)
  {
    RunKeepsInvariant(cfg, events);
    var jobs := Run(cfg, events).state.pages.jobs;
    assert JobInBounds(cfg, jobs, p, jobs[p]);
  }

  // ---------- the link gate ----------

  /** Finalize is about to pass its gate with its waits not used up. */
  ghost predicate PassesGate(s: State) {
    FinalizeEnabled(s, PassGate) && s.ending.finalizer.waits < MAX_LINK_WAITS
  }

  ghost predicate InOneJob(jobs: seq<LinkJob>, t: Target) {
    exists i :: 0 <= i < |jobs| && t in jobs[i].urls && Distinct(jobs[i].urls) &&
                forall j :: 0 <= j < |jobs| && t in jobs[j].urls ==> i == j
  }

  /** What the open gate promises. */
  ghost predicate LinksVerified(s: State) {
    && s.past.leaked == 0
    && (forall j <- s.links.jobs :: j.stage.LinkCounted?)
    && (!s.ending.cleaned ==> s.redis.linkTargets == s.past.place.Keys)
    && (forall t <- s.past.place :: s.past.place[t] != Lost ==>
          InOneJob(s.links.jobs, t) && t in s.links.rows + s.past.skipped)
  }

  lemma OpenGateState(cfg: Config, s: State)
    requires Accounted(s) && Signalled(s) && Linked(s)
    requires PassesGate(s) && Clean(s.past) && s.past.overcounted == 0
    ensures LinksVerified(s)
  {
    FlushedSaw(s);
    CompleteOwesNothing(s);
    SumZero(s.pages.phase, CountedBatches);
    forall i | 0 <= i < |s.links.jobs|
      ensures s.links.jobs[i].stage.LinkCounted?
    {
      NonePending(s.links.jobs, i);
    }
    forall t <- s.past.place | s.past.place[t] != Lost
      ensures InOneJob(s.links.jobs, t) && t in s.links.rows + s.past.skipped
    {
      PlacedInOneJob(s, t);
    }
  }

  lemma PlacedInOneJob(s: State, t: Target)
    requires Placed(s) && Checked(s) && t in s.past.place && s.past.place[t] != Lost
    requires forall p <- s.pages.phase :: Owed(s.pages.phase[p]) == 0
    requires forall j <- s.links.jobs :: j.stage.LinkCounted?
    ensures InOneJob(s.links.jobs, t) && t in s.links.rows + s.past.skipped
  {
    assert PlaceIsTrue(s, t);
    if s.past.place[t].OnPage? {
      assert false;
    }
    var i := s.past.place[t].index;
    assert HandedIn(s.past.place, i, s.links.jobs[i]);
    forall j | 0 <= j < |s.links.jobs| && t in s.links.jobs[j].urls
      ensures i == j
    {
      assert HandedIn(s.past.place, j, s.links.jobs[j]);
    }
    assert s.links.jobs[i] in s.links.jobs;
  }

  /** When the gate opens on the counter, every marked target that no dead worker took with it
      was handed to exactly one batch, and has its row unless the website was gone. */
  lemma {:induction false} LinkGate(cfg: Config, events: seq<Event>)
    requires Run(cfg, events).Reached? && PassesGate(Run(cfg, events).state)
    requires Clean(Run(cfg, events).state.past) && Run(cfg, events).state.past.overcounted == 0
    ensures LinksVerified(Run(cfg, events).state)
  {
    RunKeepsInvariant(cfg, events);
    OpenGateState(cfg, Run(cfg, events).state);
  }

  predicate NoFailure(e: Event) {
    match e
    case Orchestrate(step) => !step.OrchestratorCrash? && !step.OrchestratorAbandon?
    case PageEvent(_, step) => !step.Crash? && !step.Abandon?
    case LinkEvent(_, step) => !step.CrashLinks? && !step.AbandonLinks?
    case DeleteWebsite => false
    case _ => true
  }

  ghost predicate NothingLost(s: State) {
    && s.links.website
    && Clean(s.past) && s.past.stranded == s.past.leaked == s.past.overcounted == 0
    && (YetToCount(s.pages.orchestrator) ==> s.pages.phase == map[])
    && s.past.skipped == {} && (forall t <- s.past.place :: s.past.place[t] != Lost)
  }

  lemma NoFailureStep(cfg: Config, s: State, e: Event)
    requires NothingLost(s) && Enabled(cfg, s, e) && NoFailure(e)
    ensures NothingLost(Apply(cfg, s, e))
  {
  }

  lemma {:induction false} NoFailureLosesNothing(cfg: Config, events: seq<Event>)
    requires Run(cfg, events).Reached? && forall e <- events :: NoFailure(e)
    ensures NothingLost(Run(cfg, events).state)
  {
    if events != [] {
      RunLast(cfg, events);
      var before, e := events[..|events| - 1], events[|events| - 1];
      assert e in events;
      NoFailureLosesNothing(cfg, before);
      NoFailureStep(cfg, Run(cfg, before).state, e);
    }
  }

  /** Without failures, every URL ever put in the linkTargets set has its link_checks row and was
      handed to exactly one batch. */
  lemma {:induction false} LinkGateWithoutFailures(cfg: Config, events: seq<Event>)
    requires Run(cfg, events).Reached? && PassesGate(Run(cfg, events).state)
    requires forall e <- events :: NoFailure(e)
    ensures var s := Run(cfg, events).state;
      forall t <- s.past.place :: t in s.links.rows && InOneJob(s.links.jobs, t)
  {
    NoFailureLosesNothing(cfg, events);
    LinkGate(cfg, events);
  }
}
