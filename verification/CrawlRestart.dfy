/** An orchestrate job run again on a crawl with pages: exactly when the crawl can then look complete
    while pages are owed. */
module CrawlRestart {
  import opened Sequences
  import opened Sums
  import opened CrawlProtocol
  import opened CrawlSafety
  import opened CrawlLinks
  import opened CrawlTheorems
  import opened CrawlProgress
  import opened CrawlEnds

  /** An attempt is about to set the counters of a crawl with pages, for the first time since they
      were queued, and no recorded page was run again. */
  ghost predicate Restartable(s: State) {
    s.pages.orchestrator.Resolving? && s.pages.phase != map[] && Clean(s.past)
  }

  /** The pages that will not be recorded whatever happens. */
  ghost function DoomedPages(s: State): set<Page> {
    set p <- s.pages.phase | Doomed(s, p)
  }

  /** A run that resets the counters once, in this state, with these seeds, and loses nothing more. */
  ghost predicate Restarts(cfg: Config, before: seq<Event>, seeds: seq<Page>, all: seq<Event>)
    requires Run(cfg, before).Reached?
  {
    && before + [Orchestrate(InitCounters(seeds))] <= all && RestartsAt(cfg, all, |before|)
    && Run(cfg, all).state.past.recounted == Run(cfg, before).state.past.recounted
    && Run(cfg, all).state.past.stranded == Run(cfg, before).state.past.stranded
  }

  ghost predicate TooSoon(t: State) {
    t.redis.counters.IsComplete() && TotalOwed(t.pages) > 0
  }

  // ---------- it cannot, unless more is owed than there are seeds ----------

  /** The seeds are still to be queued again, or have been refused. */
  ghost predicate SeedsCome(s: State, t: State, seeds: seq<Page>) {
    && SetOf(seeds) <= t.pages.phase.Keys && s.past.stranded <= t.past.stranded
    && match t.pages.orchestrator
       case Initialised(again) => again == seeds && t.pages.refused >= s.pages.refused
       case Seeding(again, _) => again == seeds && t.pages.refused >= s.pages.refused
       case _ => t.pages.refused >= s.pages.refused + |seeds| || t.past.stranded > s.past.stranded
  }

  lemma {:induction false} KnownRefused(q: Pages, pages: seq<Page>, jobOf: Page -> Job)
    requires SetOf(pages) <= q.phase.Keys
    ensures AddJobs(q, pages, jobOf).refused == q.refused + |pages|
    decreases |pages|
  {
    if pages != [] {
      assert pages[0] in SetOf(pages) && SetOf(pages[1..]) <= SetOf(pages);
      KnownRefused(AddJob(q, pages[0], jobOf(pages[0])), pages[1..], jobOf);
    }
  }

  lemma {:induction false} RefusedGrows(q: Pages, pages: seq<Page>, jobOf: Page -> Job)
    ensures AddJobs(q, pages, jobOf).refused >= q.refused
    decreases |pages|
  {
    if pages != [] {
      RefusedGrows(AddJob(q, pages[0], jobOf(pages[0])), pages[1..], jobOf);
    }
  }

  lemma SeedsComeOrchestrator(cfg: Config, s: State, t: State, seeds: seq<Page>, step: OrchestratorStep)
    requires SeedsCome(s, t, seeds) && seeds != [] && OrchestratorEnabled(t, step)
    requires ApplyOrchestrator(cfg, t, step).past.restarts == t.past.restarts
    ensures SeedsCome(s, ApplyOrchestrator(cfg, t, step), seeds)
  {
    assert seeds[0] in SetOf(seeds);
    if step.QueueSeeds? {
      KnownRefused(t.pages.(orchestrator := Returned), seeds, SeedJob(cfg));
    }
  }

  lemma SeedsComeStep(cfg: Config, s: State, t: State, seeds: seq<Page>, e: Event)
    requires SeedsCome(s, t, seeds) && seeds != [] && Enabled(cfg, t, e)
    requires Apply(cfg, t, e).past.restarts == t.past.restarts
    ensures SeedsCome(s, Apply(cfg, t, e), seeds)
  {
    match e
    case PageEvent(page, step) =>
      if step.QueueChildren? {
        var q := t.pages.(phase := t.pages.phase[page := NextPhase(cfg, t, page, step)]);
        RefusedGrows(q, t.pages.phase[page].found, ChildJob(t.pages.jobs[page]));
      }
    case Orchestrate(step) => SeedsComeOrchestrator(cfg, s, t, seeds, step);
    case _ =>
  }

  lemma ResetState(cfg: Config, s: State, seeds: seq<Page>)
    requires OrchestratorEnabled(s, InitCounters(seeds)) && seeds != [] && SetOf(seeds) <= s.pages.phase.Keys
    ensures var t := ApplyOrchestrator(cfg, s, InitCounters(seeds));
      SeedsCome(s, t, seeds) && t.past.restarts == s.past.restarts + 1
  {
    assert seeds[0] in SetOf(seeds);
  }

  /** Each state follows from the one before. */
  ghost predicate Chain(cfg: Config, states: nat -> State, events: nat -> Event, k: nat, n: nat) {
    forall i: nat :: k <= i < n ==>
      Enabled(cfg, states(i), events(i)) && states(i + 1) == Apply(cfg, states(i), events(i))
  }

  lemma {:induction false} ChainRestarts(cfg: Config, states: nat -> State, events: nat -> Event, k: nat, n: nat)
    requires k <= n && Chain(cfg, states, events, k, n)
    ensures states(k).past.restarts <= states(n).past.restarts
    decreases n - k
  {
    if k < n {
      OverwritesStep(cfg, states(k), events(k));
      ChainRestarts(cfg, states, events, k + 1, n);
    }
  }

  lemma {:induction false} ChainSeeds(cfg: Config, s: State, states: nat -> State, events: nat -> Event, k: nat, n: nat,
                                      seeds: seq<Page>)
    requires k <= n && Chain(cfg, states, events, k, n) && seeds != [] && SeedsCome(s, states(k), seeds)
    requires states(k).past.restarts == states(n).past.restarts
    ensures SeedsCome(s, states(n), seeds)
    decreases n - k
  {
    if k < n {
      OverwritesStep(cfg, states(k), events(k));
      ChainRestarts(cfg, states, events, k + 1, n);
      SeedsComeStep(cfg, s, states(k), seeds, events(k));
      ChainSeeds(cfg, s, states, events, k + 1, n, seeds);
    }
  }

  /** The states and events of a run. */
  function StateAt(cfg: Config, all: seq<Event>): nat -> State {
    (i: nat) =>
      if i <= |all| then
        match Run(cfg, all[..i])
        case Reached(s) => s
        case Stuck => INITIAL
      else INITIAL
  }

  function EventAt(all: seq<Event>): nat -> Event {
    (i: nat) => if i < |all| then all[i] else Cancel
  }

  /** The run up to an index and the event there. */
  lemma {:induction false} RunThrough(cfg: Config, all: seq<Event>, k: nat)
    requires Run(cfg, all).Reached? && k < |all|
    ensures Run(cfg, all[..k]).Reached? && Enabled(cfg, Run(cfg, all[..k]).state, all[k])
    ensures Run(cfg, all[..k + 1]) == Reached(Apply(cfg, Run(cfg, all[..k]).state, all[k]))
  {
    RunPrefix(cfg, all, k + 1);
    RunLast(cfg, all[..k + 1]);
    assert all[..k + 1][..k] == all[..k] && all[..k + 1][k] == all[k];
  }

  lemma {:induction false} RunIsChain(cfg: Config, all: seq<Event>)
    requires Run(cfg, all).Reached?
    ensures Chain(cfg, StateAt(cfg, all), EventAt(all), 0, |all|)
  {
    forall i: nat | i < |all|
      ensures Enabled(cfg, StateAt(cfg, all)(i), EventAt(all)(i))
      ensures StateAt(cfg, all)(i + 1) == Apply(cfg, StateAt(cfg, all)(i), EventAt(all)(i))
    {
      RunThrough(cfg, all, i);
    }
  }

  lemma {:induction false} SeedsComeRun(cfg: Config, all: seq<Event>, k: nat, seeds: seq<Page>, s: State, t: State)
    requires Run(cfg, all) == Reached(t) && k < |all| && all[k] == Orchestrate(InitCounters(seeds)) && seeds != []
    requires Run(cfg, all[..k]) == Reached(s) && SetOf(seeds) <= s.pages.phase.Keys
    requires t.past.restarts == s.past.restarts + 1
    ensures SeedsCome(s, t, seeds)
  {
    RunIsChain(cfg, all);
    assert all[..|all|] == all;
    var states, events := StateAt(cfg, all), EventAt(all);
    assert states(k) == s && states(|all|) == t && events(k) == Orchestrate(InitCounters(seeds));
    ResetState(cfg, s, seeds);
    ChainSeeds(cfg, s, states, events, k + 1, |all|, seeds);
  }

  // ---------- doomed pages stay owed ----------

  lemma {:induction false} DoomedChain(cfg: Config, states: nat -> State, events: nat -> Event, k: nat, n: nat)
    requires k <= n && Chain(cfg, states, events, k, n)
    ensures forall p :: Doomed(states(k), p) ==> Doomed(states(n), p)
    decreases n - k
  {
    if k < n {
      forall p | Doomed(states(k), p)
        ensures Doomed(states(k + 1), p)
      {
        DoomedStays(cfg, states(k), events(k), p);
      }
      DoomedChain(cfg, states, events, k + 1, n);
    }
  }

  lemma {:induction false} DoomedRun(cfg: Config, all: seq<Event>, k: nat, s: State, t: State)
    requires Run(cfg, all) == Reached(t) && k <= |all| && Run(cfg, all[..k]) == Reached(s)
    ensures |DoomedPages(s)| <= TotalOwed(t.pages)
  {
    RunIsChain(cfg, all);
    assert all[..|all|] == all;
    var states := StateAt(cfg, all);
    DoomedChain(cfg, states, EventAt(all), k, |all|);
    assert states(k) == s && states(|all|) == t;
    assert forall p <- DoomedPages(s) :: Doomed(states(k), p) && Doomed(t, p);
    SumCounts(t.pages.phase, Owed, DoomedPages(s));
  }

  lemma {:induction false} TooSoonNeedsMore(cfg: Config, before: seq<Event>, seeds: seq<Page>, all: seq<Event>)
    requires Run(cfg, before).Reached? && seeds != [] && SetOf(seeds) <= Run(cfg, before).state.pages.phase.Keys
    requires Restarts(cfg, before, seeds, all) && TooSoon(Run(cfg, all).state)
    ensures var s := Run(cfg, before).state;
      TotalOwed(s.pages) > |seeds| && TotalOwed(s.pages) - |DoomedPages(s)| >= |seeds|
  {
    var k := |before|;
    assert all[..k] == before && all[k] == (before + [Orchestrate(InitCounters(seeds))])[k];
    SeedsComeRun(cfg, all, k, seeds, Run(cfg, before).state, Run(cfg, all).state);
    DoomedRun(cfg, all, k, Run(cfg, before).state, Run(cfg, all).state);
    RestartBalance(cfg, all, k);
  }

  // ---------- and then it can ----------

  /** What running pages forward from a state must find to go on, and keeps. */
  ghost predicate Runnable(cfg: Config, universe: set<Page>, s: State) {
    Invariant(cfg, s) && FoundOnce(s) && !s.ending.cleaned && !s.redis.paused && Within(universe, s.pages)
  }

  /** Nothing that the balance of the restart depends on has changed but what is owed. */
  ghost predicate SameBooks(s: State, t: State) {
    && t.past.recounted == s.past.recounted && t.past.stranded == s.past.stranded
    && t.past.restarts == s.past.restarts && t.pages.refused == s.pages.refused
    && t.pages.orchestrator == s.pages.orchestrator && t.redis.counters.total >= s.redis.counters.total
    && DoomedPages(t) == DoomedPages(s)
  }

  /** While more is owed than by the doomed, some page owes that is not doomed. */
  lemma SomeoneOwes(s: State) returns (p: Page)
    requires TotalOwed(s.pages) > |DoomedPages(s)|
    ensures p in s.pages.phase && Owed(s.pages.phase[p]) > 0 && !Doomed(s, p)
  {
    if forall p <- s.pages.phase :: Owed(s.pages.phase[p]) > 0 ==> Doomed(s, p) {
      SumAtMost(s.pages.phase, Owed, DoomedPages(s));
    }
    p :| p in s.pages.phase && Owed(s.pages.phase[p]) > 0 && !Doomed(s, p);
  }

  lemma CountersAfter(cfg: Config, s: State, p: Page, step: PageStep)
    requires PageEnabled(cfg, s, p, step)
    ensures var c, d := s.redis.counters, ApplyPage(cfg, s, p, step).redis.counters;
      c.total <= d.total && d.Finished() <= c.Finished() + 1
  {
  }

  /** A step forward pays at most one debt. */
  lemma OwedAfter(s: State, t: State)
    requires Balanced(s) && Balanced(t) && s.redis.counters.total <= t.redis.counters.total
    requires t.redis.counters.Finished() <= s.redis.counters.Finished() + 1
    requires t.past.forgotten == s.past.forgotten && t.past.discarded == s.past.discarded
    requires t.past.recounted == s.past.recounted && t.past.stranded == s.past.stranded
    requires t.pages.refused == s.pages.refused && t.pages.orchestrator == s.pages.orchestrator
    ensures TotalOwed(t.pages) >= TotalOwed(s.pages) - 1
  {
  }

  lemma SameDoomed(s: State, t: State)
    requires s.pages.phase.Keys <= t.pages.phase.Keys
    requires forall q <- t.pages.phase :: Doomed(t, q) <==> Doomed(s, q)
    ensures DoomedPages(t) == DoomedPages(s)
  {
  }

  lemma ForwardBooks(cfg: Config, s: State, p: Page)
    requires FoundOnce(s) && !s.ending.cleaned && p in s.pages.phase && !Ended(s.pages.phase[p]) && !Doomed(s, p)
    requires PageEnabled(cfg, s, p, PageMove(s, p))
    ensures var t := ApplyPage(cfg, s, p, PageMove(s, p));
      SameBooks(s, t) && FoundOnce(t) && !t.ending.cleaned && t.redis.paused == s.redis.paused
  {
    FoundOncePage(cfg, s, p, PageMove(s, p));
    PageMoveKeepsCourse(cfg, s, p);
    PageMoveDooms(cfg, s, p);
    SameDoomed(s, ApplyPage(cfg, s, p, PageMove(s, p)));
    CountersAfter(cfg, s, p, PageMove(s, p));
  }

  lemma ForwardOwes(cfg: Config, s: State, p: Page)
    requires Accounted(s) && p in s.pages.phase && !Ended(s.pages.phase[p])
    requires PageEnabled(cfg, s, p, PageMove(s, p)) && SameBooks(s, ApplyPage(cfg, s, p, PageMove(s, p)))
    ensures TotalOwed(ApplyPage(cfg, s, p, PageMove(s, p)).pages) >= TotalOwed(s.pages) - 1
  {
    AccountedPage(cfg, s, p, PageMove(s, p));
    CountersAfter(cfg, s, p, PageMove(s, p));
    OverwritesStep(cfg, s, PageEvent(p, PageMove(s, p)));
    OwedAfter(s, ApplyPage(cfg, s, p, PageMove(s, p)));
  }

  lemma ForwardOne(cfg: Config, universe: set<Page>, s: State, p: Page)
    requires Runnable(cfg, universe, s) && p in s.pages.phase && !Ended(s.pages.phase[p]) && !Doomed(s, p)
    requires Moves(cfg, universe, s, PageEvent(p, PageMove(s, p)))
    ensures var t := ApplyPage(cfg, s, p, PageMove(s, p));
      && Runnable(cfg, universe, t) && SameBooks(s, t) && TotalOwed(t.pages) >= TotalOwed(s.pages) - 1
      && Below(MeasureOf(universe, t), MeasureOf(universe, s))
  {
    ForwardBooks(cfg, s, p);
    ForwardOwes(cfg, s, p);
    InvariantStep(cfg, s, PageEvent(p, PageMove(s, p)));
    Progress(cfg, universe, s, PageEvent(p, PageMove(s, p)));
    WithinStep(cfg, universe, s, PageEvent(p, PageMove(s, p)));
  }

  lemma Forward(cfg: Config, universe: set<Page>, s: State) returns (e: Event)
    requires Runnable(cfg, universe, s) && TotalOwed(s.pages) > |DoomedPages(s)|
    ensures Enabled(cfg, s, e)
    ensures var t := Apply(cfg, s, e);
      && Runnable(cfg, universe, t) && SameBooks(s, t) && TotalOwed(t.pages) >= TotalOwed(s.pages) - 1
      && Below(MeasureOf(universe, t), MeasureOf(universe, s))
  {
    var p := SomeoneOwes(s);
    assert PhaseSized(s.pages.phase[p]) && !Ended(s.pages.phase[p]);
    PageMoves(cfg, universe, s, p);
    ForwardOne(cfg, universe, s, p);
    e := PageEvent(p, PageMove(s, p));
  }

  /** Running pages forward until just this much is owed. */
  lemma {:induction false} PayDown(cfg: Config, universe: set<Page>, events: seq<Event>, goal: nat, m: Measure)
    returns (longer: seq<Event>)
    requires Run(cfg, events).Reached? && Runnable(cfg, universe, Run(cfg, events).state)
    requires var s := Run(cfg, events).state;
      |DoomedPages(s)| <= goal <= TotalOwed(s.pages) && m == MeasureOf(universe, s)
    ensures events <= longer && Run(cfg, longer).Reached? && SameBooks(Run(cfg, events).state, Run(cfg, longer).state)
    ensures TotalOwed(Run(cfg, longer).state.pages) == goal
    decreases m.seeding, m.seeds, m.unqueued, m.stages, m.rounds, m.links, m.ending
  {
    var s := Run(cfg, events).state;
    if TotalOwed(s.pages) == goal {
      longer := events;
    } else {
      var e := Forward(cfg, universe, s);
      longer := Extend(cfg, events, e);
      longer := PayDown(cfg, universe, longer, goal, MeasureOf(universe, Apply(cfg, s, e)));
    }
  }

  /** The counters have just been set anew. */
  ghost predicate JustReset(cfg: Config, universe: set<Page>, seeds: seq<Page>, s: State, t: State) {
    && Runnable(cfg, universe, t) && DoomedPages(t) == DoomedPages(s) && t.pages.phase == s.pages.phase
    && t.redis.counters == Counters(|seeds|, 0, 0, 0) && t.pages.orchestrator == Initialised(seeds)
    && t.past.recounted == s.past.recounted && t.past.stranded == s.past.stranded
    && t.past.restarts == s.past.restarts + 1 && t.pages.refused == s.pages.refused
  }

  lemma ResetRunnable(cfg: Config, universe: set<Page>, s: State, seeds: seq<Page>)
    requires Invariant(cfg, s) && Restartable(s) && !s.ending.cleaned && Within(universe, s.pages)
    requires Distinct(seeds) && SetOf(seeds) <= universe
    ensures var u := ApplyOrchestrator(cfg, s, InitCounters(seeds));
      JustReset(cfg, universe, seeds, s, u.(redis := u.redis.(paused := false)))
  {
    var u := ApplyOrchestrator(cfg, s, InitCounters(seeds));
    var t := u.(redis := u.redis.(paused := false));
    InvariantStep(cfg, s, Orchestrate(InitCounters(seeds)));
    InvariantStep(cfg, u, SetPaused(false));
    FoundFrame(s, t);
    SameDoomed(s, t);
  }

  /** While something is owed, the dedupe sets are still there. */
  lemma OwingIsNotCleaned(s: State)
    requires Accounted(s) && Signalled(s) && Clean(s.past) && TotalOwed(s.pages) > 0
    ensures !s.ending.cleaned
  {
    if s.ending.cleaned {
      CleanedOwesNothing(s);
      SumZero(s.pages.phase, Owed);
    }
  }

  lemma ResetRun(cfg: Config, before: seq<Event>, seeds: seq<Page>) returns (all: seq<Event>, universe: set<Page>)
    requires Run(cfg, before).Reached? && Restartable(Run(cfg, before).state) && Distinct(seeds)
    requires TotalOwed(Run(cfg, before).state.pages) > 0
    ensures before + [Orchestrate(InitCounters(seeds))] <= all && Run(cfg, all).Reached?
    ensures JustReset(cfg, universe, seeds, Run(cfg, before).state, Run(cfg, all).state)
  {
    RunKeepsInvariant(cfg, before);
    universe := Universe(before, SetOf(seeds));
    RunWithin(cfg, universe, before);
    OwingIsNotCleaned(Run(cfg, before).state);
    ResetRunnable(cfg, universe, Run(cfg, before).state, seeds);
    all := Extend(cfg, before, Orchestrate(InitCounters(seeds)));
    all := Extend(cfg, all, SetPaused(false));
  }

  lemma {:induction false} RestartsBy(cfg: Config, before: seq<Event>, seeds: seq<Page>, all: seq<Event>)
    requires Run(cfg, before).Reached? && Run(cfg, all).Reached? && Run(cfg, before).state.pages.phase != map[]
    requires before + [Orchestrate(InitCounters(seeds))] <= all
    requires var s, t := Run(cfg, before).state, Run(cfg, all).state;
      && t.past.recounted == s.past.recounted && t.past.stranded == s.past.stranded
      && t.past.restarts == s.past.restarts + 1
    ensures Restarts(cfg, before, seeds, all) && all[..|before|] == before
  {
    var reset := before + [Orchestrate(InitCounters(seeds))];
    assert all[..|before|] == before && all[|before|] == reset[|before|];
  }

  lemma MoreGetsTooSoon(cfg: Config, before: seq<Event>, seeds: seq<Page>) returns (all: seq<Event>)
    requires Run(cfg, before).Reached? && Restartable(Run(cfg, before).state) && seeds != [] && Distinct(seeds)
    requires var s := Run(cfg, before).state;
      TotalOwed(s.pages) > |seeds| && TotalOwed(s.pages) - |DoomedPages(s)| >= |seeds|
    ensures Restarts(cfg, before, seeds, all) && TooSoon(Run(cfg, all).state)
  {
    var universe: set<Page>;
    all, universe := ResetRun(cfg, before, seeds);
    var goal, m := TotalOwed(Run(cfg, before).state.pages) - |seeds|, MeasureOf(universe, Run(cfg, all).state);
    all := PayDown(cfg, universe, all, goal, m);
    RestartsBy(cfg, before, seeds, all);
    RestartBalance(cfg, all, |before|);
  }

  /** When the orchestrate job is run again and sets the counters of a crawl with pages, with seeds that
      are queued already: the crawl can then look complete while pages are owed, with nothing else
      recounted or stranded, exactly if more is owed than there are seeds, and as much as there are
      seeds by pages that can still be recorded. */
  lemma {:induction false} RestartTooSoonWhen(cfg: Config, before: seq<Event>, seeds: seq<Page>)
    requires Run(cfg, before).Reached? && Restartable(Run(cfg, before).state)
    requires seeds != [] && Distinct(seeds) && SetOf(seeds) <= Run(cfg, before).state.pages.phase.Keys
    ensures var s := Run(cfg, before).state;
      (exists all :: Restarts(cfg, before, seeds, all) && TooSoon(Run(cfg, all).state)) <==>
      TotalOwed(s.pages) > |seeds| && TotalOwed(s.pages) - |DoomedPages(s)| >= |seeds|
  {
    var s := Run(cfg, before).state;
    if all :| Restarts(cfg, before, seeds, all) && TooSoon(Run(cfg, all).state) {
      TooSoonNeedsMore(cfg, before, seeds, all);
    }
    if TotalOwed(s.pages) > |seeds| && TotalOwed(s.pages) - |DoomedPages(s)| >= |seeds| {
      var all := MoreGetsTooSoon(cfg, before, seeds);
    }
  }
}
