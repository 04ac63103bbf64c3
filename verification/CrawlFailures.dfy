/** Runs that show the conditions of the theorems are needed: a page recorded twice, an orchestrate
    job run again, a completion signal lost with its job, and a crawl cancelled with a page to render. */
module CrawlFailures {
  import opened CrawlProtocol
  import opened CrawlSafety
  import opened CrawlTheorems
  import opened CrawlEnds

  /** A crawl in which `a` is a seed that may be expanded once. */
  function Expandable(a: Page): Config {
    Config({a}, 1, page => "site")
  }

  /** What queueing the only seed `a` makes of a state. */
  function Seeded(cfg: Config, s: State, a: Page): State {
    s.(redis := s.redis.(counters := Counters(1, 0, 0, 0), seen := s.redis.seen + {a}),
       pages := AddJob(s.pages.(orchestrator := Returned), a, SeedJob(cfg)(a)),
       ending := s.ending.(statsComplete := false),
       past := ForgetCounters(s.past, s.redis.counters, s.pages.phase == map[]))
  }

  /** Neither cancelled nor paused, and the website is there. */
  predicate Undecided(s: State) {
    !s.redis.cancelled && !s.redis.paused && s.links.website
  }

  /** Nothing fails in the events added. */
  ghost predicate Smoothly(events: seq<Event>, longer: seq<Event>) {
    (forall e <- events :: Smooth(e)) ==> forall e <- longer :: Smooth(e)
  }

  lemma BeginOne(cfg: Config, events: seq<Event>) returns (longer: seq<Event>)
    requires Run(cfg, events).Reached? && Run(cfg, events).state.pages.orchestrator.Idle?
    requires !Run(cfg, events).state.redis.cancelled
    ensures var s := Run(cfg, events).state; Run(cfg, longer) == Reached(s.(pages := s.pages.(orchestrator := Begun)))
    ensures Smoothly(events, longer)
  {
    longer := Extend(cfg, events, Orchestrate(Begin));
  }

  lemma StartOne(cfg: Config, events: seq<Event>) returns (longer: seq<Event>)
    requires Run(cfg, events).Reached? && Run(cfg, events).state.pages.orchestrator.Idle?
    requires Undecided(Run(cfg, events).state)
    ensures var s := Run(cfg, events).state;
      Run(cfg, longer) == Reached(s.(pages := s.pages.(orchestrator := Resolving)))
    ensures Smoothly(events, longer)
  {
    longer := BeginOne(cfg, events);
    longer := Extend(cfg, longer, Orchestrate(FindWebsite));
  }

  lemma CountOne(cfg: Config, events: seq<Event>, a: Page) returns (longer: seq<Event>)
    requires Run(cfg, events).Reached? && Run(cfg, events).state.pages.orchestrator.Resolving?
    ensures var s := Run(cfg, events).state;
      Run(cfg, longer) == Reached(Seeded(cfg, s, a).(redis := s.redis.(counters := Counters(1, 0, 0, 0)),
                                                     pages := s.pages.(orchestrator := Seeding([a], 0))))
    ensures Smoothly(events, longer)
  {
    longer := Extend(cfg, events, Orchestrate(InitCounters([a])));
    longer := Extend(cfg, longer, Orchestrate(ResetStats));
  }

  lemma MarkOne(cfg: Config, events: seq<Event>, a: Page) returns (longer: seq<Event>)
    requires Run(cfg, events).Reached? && Run(cfg, events).state.pages.orchestrator.Resolving?
    ensures var s := Run(cfg, events).state;
      Run(cfg, longer) == Reached(Seeded(cfg, s, a).(pages := s.pages.(orchestrator := Seeding([a], 1))))
    ensures Smoothly(events, longer)
  {
    longer := CountOne(cfg, events, a);
    longer := Extend(cfg, longer, Orchestrate(MarkSeed));
  }

  /** One attempt of the orchestrate job with one seed. */
  lemma SeedOne(cfg: Config, events: seq<Event>, a: Page) returns (longer: seq<Event>)
    requires Run(cfg, events).Reached? && Run(cfg, events).state.pages.orchestrator.Idle?
    requires Undecided(Run(cfg, events).state)
    ensures Run(cfg, longer) == Reached(Seeded(cfg, Run(cfg, events).state, a))
    ensures Smoothly(events, longer)
  {
    longer := StartOne(cfg, events);
    longer := MarkOne(cfg, longer, a);
    var q := Run(cfg, longer).state.pages.(orchestrator := Returned);
    longer := Extend(cfg, longer, Orchestrate(QueueSeeds));
    assert AddJobs(q, [a], SeedJob(cfg)) == AddJobs(AddJob(q, a, SeedJob(cfg)(a)), [], SeedJob(cfg));
  }

  ghost predicate AtPage(r: Result, a: Page, x: Phase) {
    r.Reached? && a in r.state.pages.phase && a in r.state.pages.jobs && r.state.pages.phase[a] == x
  }

  /** The state with `a` in another phase. */
  function Moved(s: State, a: Page, x: Phase): State {
    s.(pages := s.pages.(phase := s.pages.phase[a := x]))
  }

  /** What marking and counting the only link `b` makes of a state, and then what queueing it does. */
  function Marked(s: State, a: Page, b: Page): State {
    var c := s.redis.counters;
    Moved(s, a, Added(FetchLane, [b])).(
      redis := s.redis.(counters := c.(total := c.total + 1), seen := s.redis.seen + {b}),
      past := s.past.(claims := s.past.claims[b := a]))
  }

  function Expanded(s: State, a: Page, b: Page): State
    requires a in s.pages.jobs
  {
    s.(pages := AddJob(Moved(s, a, Settling(FetchLane, Crawled)).pages, b, ChildJob(s.pages.jobs[a])(b)))
  }

  lemma TakeOne(cfg: Config, events: seq<Event>, a: Page) returns (longer: seq<Event>)
    requires AtPage(Run(cfg, events), a, Waiting(FetchLane))
    ensures Run(cfg, longer) == Reached(Moved(Run(cfg, events).state, a, Processing(FetchLane)))
    ensures Smoothly(events, longer)
  {
    longer := Extend(cfg, events, PageEvent(a, Take));
    longer := Extend(cfg, longer, PageEvent(a, Process));
  }

  /** The page's job is taken and let through. */
  lemma ClearOne(cfg: Config, events: seq<Event>, a: Page) returns (longer: seq<Event>)
    requires AtPage(Run(cfg, events), a, Waiting(FetchLane)) && Undecided(Run(cfg, events).state)
    ensures Run(cfg, longer) == Reached(Moved(Run(cfg, events).state, a, Cleared(FetchLane)))
    ensures Smoothly(events, longer)
  {
    longer := TakeOne(cfg, events, a);
    longer := Extend(cfg, longer, PageEvent(a, NotCancelled));
    longer := Extend(cfg, longer, PageEvent(a, NotPaused));
  }

  lemma PersistCleared(cfg: Config, events: seq<Event>, a: Page, b: Page) returns (longer: seq<Event>)
    requires AtPage(Run(cfg, events), a, Cleared(FetchLane)) && cfg.domainOf(a) == cfg.domainOf(b)
    requires var job := Run(cfg, events).state.pages.jobs[a]; job.discover && job.depth < cfg.maxDepth
    ensures Run(cfg, longer) == Reached(Moved(Run(cfg, events).state, a, Expanding(FetchLane, [b], [])))
  {
    longer := Extend(cfg, events, PageEvent(a, Persist([], [b])));
    longer := Extend(cfg, longer, PageEvent(a, MarkTargets));
    assert Unmarked([], Run(cfg, events).state.redis.linkTargets) == [];
  }

  lemma PersistLink(cfg: Config, events: seq<Event>, a: Page, b: Page) returns (longer: seq<Event>)
    requires AtPage(Run(cfg, events), a, Waiting(FetchLane)) && Undecided(Run(cfg, events).state)
    requires cfg.domainOf(a) == cfg.domainOf(b)
    requires var job := Run(cfg, events).state.pages.jobs[a]; job.discover && job.depth < cfg.maxDepth
    ensures Run(cfg, longer) == Reached(Moved(Run(cfg, events).state, a, Expanding(FetchLane, [b], [])))
  {
    longer := ClearOne(cfg, events, a);
    longer := PersistCleared(cfg, longer, a, b);
  }

  lemma CountLink(cfg: Config, events: seq<Event>, a: Page, b: Page) returns (longer: seq<Event>)
    requires AtPage(Run(cfg, events), a, Expanding(FetchLane, [b], [])) && b !in Run(cfg, events).state.redis.seen
    ensures Run(cfg, longer) == Reached(Marked(Run(cfg, events).state, a, b))
  {
    longer := Extend(cfg, events, PageEvent(a, MarkLink));
    assert [b][1..] == [] && [] + [b] == [b];
    longer := Extend(cfg, longer, PageEvent(a, AddToTotal));
  }

  lemma QueueLink(cfg: Config, events: seq<Event>, a: Page, b: Page) returns (longer: seq<Event>)
    requires AtPage(Run(cfg, events), a, Added(FetchLane, [b]))
    ensures Run(cfg, longer) == Reached(Expanded(Run(cfg, events).state, a, b))
  {
    var s := Run(cfg, events).state;
    var q, jobOf := Moved(s, a, Settling(FetchLane, Crawled)).pages, ChildJob(s.pages.jobs[a]);
    longer := Extend(cfg, events, PageEvent(a, QueueChildren));
    assert AddJobs(q, [b], jobOf) == AddJobs(AddJob(q, b, jobOf(b)), [], jobOf);
  }

  lemma RecordOne(cfg: Config, events: seq<Event>, a: Page, outcome: Outcome) returns (longer: seq<Event>)
    requires AtPage(Run(cfg, events), a, Settling(FetchLane, outcome))
    ensures var s := Run(cfg, events).state;
      var c := s.redis.counters.Count(outcome);
      Run(cfg, longer) ==
        Reached(Moved(s, a, Recorded(FetchLane, c.IsComplete())).(redis := s.redis.(counters := c)))
  {
    longer := Extend(cfg, events, PageEvent(a, Record));
  }

  lemma FlushOne(cfg: Config, events: seq<Event>, a: Page) returns (longer: seq<Event>)
    requires AtPage(Run(cfg, events), a, Recorded(FetchLane, true))
    ensures var s := Run(cfg, events).state;
      Run(cfg, longer) == Reached(Moved(s, a, Flushed(FetchLane)).(ending := s.ending.(statsComplete := true)))
  {
    longer := Extend(cfg, events, PageEvent(a, FlushStats));
  }

  /** The page that saw completion ends its job. */
  lemma SignalOne(cfg: Config, events: seq<Event>, a: Page) returns (longer: seq<Event>)
    requires AtPage(Run(cfg, events), a, Recorded(FetchLane, true))
    requires Run(cfg, events).state.ending.finalizer.FinalizeIdle?
    ensures var s := Run(cfg, events).state;
      Run(cfg, longer) == Reached(Moved(s, a, Done(true)).(
        ending := s.ending.(statsComplete := true, finalizer := FinalizeQueued(0))))
  {
    longer := FlushOne(cfg, events, a);
    longer := Extend(cfg, longer, PageEvent(a, SignalFinalize));
    longer := Extend(cfg, longer, PageEvent(a, Acknowledge));
  }

  /** `a` has queued its child `b`, and still owes its own outcome. */
  ghost predicate ChildWaits(r: Result, a: Page, b: Page) {
    && AtPage(r, a, Settling(FetchLane, Crawled)) && AtPage(r, b, Waiting(FetchLane))
    && r.state.pages.phase.Keys == {a, b} && r.state.pages.orchestrator.Returned? && r.state.pages.refused == 0
    && Undecided(r.state)
    && r.state.redis.counters == Counters(2, 0, 0, 0) && Untouched(r.state.ending)
    && r.state.past == INITIAL.past.(claims := map[b := a])
  }

  lemma StartPair(a: Page, b: Page) returns (events: seq<Event>)
    requires a != b
    ensures ChildWaits(Run(Expandable(a), events), a, b)
  {
    events := SeedOne(Expandable(a), [], a);
    events := PersistLink(Expandable(a), events, a, b);
    events := CountLink(Expandable(a), events, a, b);
    events := QueueLink(Expandable(a), events, a, b);
  }

  /** Finalize is queued while `b`, queued long before, still waits. */
  ghost predicate EndsEarly(r: Result, b: Page) {
    && AtPage(r, b, Waiting(FetchLane)) && OutstandingPages(r.state) == {b}
    && r.state.ending.finalizer.FinalizeQueued?
  }

  /** `a` records the outcome that completes the counters, while `b` waits. */
  lemma EndPair(a: Page, b: Page, events: seq<Event>, outcome: Outcome) returns (longer: seq<Event>)
    requires var r := Run(Expandable(a), events);
      && a != b && AtPage(r, a, Settling(FetchLane, outcome)) && AtPage(r, b, Waiting(FetchLane))
      && r.state.pages.phase.Keys == {a, b} && Untouched(r.state.ending)
      && r.state.redis.counters.Count(outcome).IsComplete()
    ensures EndsEarly(Run(Expandable(a), longer), b)
    ensures Run(Expandable(a), longer).state.past == Run(Expandable(a), events).state.past
  {
    longer := RecordOne(Expandable(a), events, a, outcome);
    longer := SignalOne(Expandable(a), longer, a);
    assert Run(Expandable(a), longer).state.pages.phase.Keys == {a, b};
  }

  /** A fetch that fails. */
  lemma FailOne(cfg: Config, events: seq<Event>, a: Page) returns (longer: seq<Event>)
    requires AtPage(Run(cfg, events), a, Waiting(FetchLane)) && Undecided(Run(cfg, events).state)
    ensures Run(cfg, longer) == Reached(Moved(Run(cfg, events).state, a, Settling(FetchLane, Failed)))
  {
    longer := ClearOne(cfg, events, a);
    longer := Extend(cfg, longer, PageEvent(a, PersistError));
  }

  lemma CrashOne(cfg: Config, events: seq<Event>, a: Page) returns (longer: seq<Event>)
    requires AtPage(Run(cfg, events), a, Recorded(FetchLane, false))
    ensures var s, r := Run(cfg, events).state, Run(cfg, longer);
      && r.Reached? && r.state.(past := s.past) == Moved(s, a, Waiting(FetchLane))
      && r.state.past.recounted == s.past.recounted + 1 && r.state.past.restarts == s.past.restarts
  {
    longer := Extend(cfg, events, PageEvent(a, Crash));
  }

  /** `a` is counted, and settles a second time. */
  lemma RecordAgain(a: Page, b: Page, events: seq<Event>) returns (longer: seq<Event>)
    requires a != b && ChildWaits(Run(Expandable(a), events), a, b)
    ensures var s, r := Run(Expandable(a), events).state, Run(Expandable(a), longer);
      && r.Reached? && r.state.pages == Moved(s, a, Settling(FetchLane, Failed)).pages
      && r.state.redis.counters == Counters(2, 1, 0, 0) && Untouched(r.state.ending) && r.state.past.restarts == 0
  {
    var cfg := Expandable(a);
    longer := RecordOne(cfg, events, a, Crawled);
    longer := CrashOne(cfg, longer, a);
    longer := FailOne(cfg, longer, a);
  }

  /** One page recorded twice ends a two-page crawl too early. */
  lemma RecountFinalizesEarly(a: Page, b: Page)
    requires a != b
    ensures exists events: seq<Event> ::
      EndsEarly(Run(Expandable(a), events), b) && Run(Expandable(a), events).state.past.restarts == 0
  {
    var events := StartPair(a, b);
    events := RecordAgain(a, b, events);
    events := EndPair(a, b, events, Failed);
  }

  /** The orchestrate job is run again: the total is the seed's alone, and the seed is refused. */
  lemma OrchestrateAgain(a: Page, b: Page, events: seq<Event>) returns (longer: seq<Event>)
    requires a != b && ChildWaits(Run(Expandable(a), events), a, b)
    ensures var s, r := Run(Expandable(a), events).state, Run(Expandable(a), longer);
      && r.Reached? && r.state.pages == s.pages.(orchestrator := Acknowledged, refused := 1)
      && r.state.redis.counters == Counters(1, 0, 0, 0) && Untouched(r.state.ending)
      && r.state.past.restarts == 1 && r.state.past.recounted == r.state.past.stranded == 0
  {
    var cfg := Expandable(a);
    longer := Extend(cfg, events, Orchestrate(OrchestratorCrash));
    longer := SeedOne(cfg, longer, a);
    longer := Extend(cfg, longer, Orchestrate(AcknowledgeSeeds));
  }

  /** An orchestrate job run again after its bulk add ends the crawl too early, though no page was
      recorded twice and none was stranded. */
  lemma RestartFinalizesEarly(a: Page, b: Page)
    requires a != b
    ensures exists events: seq<Event> ::
      && EndsEarly(Run(Expandable(a), events), b)
      && Run(Expandable(a), events).state.past.restarts == 1
      && Run(Expandable(a), events).state.past.recounted == Run(Expandable(a), events).state.past.stranded == 0
  {
    var events := StartPair(a, b);
    events := OrchestrateAgain(a, b, events);
    events := EndPair(a, b, events, Crawled);
  }

  ghost predicate EndsSilently(r: Result, a: Page) {
    && AtPage(r, a, Silenced(false)) && r.state.pages.phase.Keys == {a} && r.state.pages.refused == 0
    && r.state.pages.orchestrator.Acknowledged? && r.state.redis.counters == Counters(1, 0, 0, 1)
    && Untouched(r.state.ending) && r.state.past == INITIAL.past
  }

  lemma AbandonOne(cfg: Config, events: seq<Event>, a: Page) returns (longer: seq<Event>)
    requires AtPage(Run(cfg, events), a, Recorded(FetchLane, true))
    ensures Run(cfg, longer) == Reached(Moved(Run(cfg, events).state, a, Silenced(false)))
  {
    longer := Extend(cfg, events, PageEvent(a, Abandon));
    assert Held(Recorded(FetchLane, true)) == [];
  }

  lemma SilenceOne(a: Page) returns (events: seq<Event>)
    ensures EndsSilently(Run(Expandable(a), events), a)
  {
    var cfg := Expandable(a);
    events := SeedOne(cfg, [], a);
    events := Extend(cfg, events, Orchestrate(AcknowledgeSeeds));
    events := FailOne(cfg, events, a);
    events := RecordOne(cfg, events, a, Failed);
    events := AbandonOne(cfg, events, a);
  }

  /** A job that dies for good right after it saw completion leaves a crawl that is settled, with
      nothing stranded, dropped or recounted, and that no event can ever finalize. */
  lemma SignalLostForever(a: Page)
    ensures exists events: seq<Event> ::
      && Run(Expandable(a), events).Reached? && Settled(Run(Expandable(a), events).state)
      && forall after :: Run(Expandable(a), events + after).Reached? ==>
           Run(Expandable(a), events + after).state.ending.finalizer.FinalizeIdle?
  {
    var cfg := Expandable(a);
    var events := SilenceOne(a);
    assert Settled(Run(cfg, events).state);
    SettledSignals(cfg, events);
    assert Run(cfg, events).state.pages.phase[a] == Silenced(false);
  }

  // ---------- cancelled with a page to render ----------

  lemma HandOffOne(cfg: Config, events: seq<Event>, a: Page) returns (longer: seq<Event>)
    requires AtPage(Run(cfg, events), a, Waiting(FetchLane)) && Undecided(Run(cfg, events).state)
    ensures Run(cfg, longer) == Reached(Moved(Run(cfg, events).state, a, Waiting(RenderLane)))
    ensures Smoothly(events, longer)
  {
    longer := ClearOne(cfg, events, a);
    longer := Extend(cfg, longer, PageEvent(a, HandOff));
  }

  lemma CancelOne(a: Page) returns (events: seq<Event>)
    ensures AtPage(Run(Expandable(a), events), a, Waiting(RenderLane))
    ensures Run(Expandable(a), events).state.redis.cancelled && forall e <- events :: Smooth(e)
  {
    var cfg := Expandable(a);
    events := SeedOne(cfg, [], a);
    events := HandOffOne(cfg, events, a);
    events := Extend(cfg, events, Cancel);
  }

  lemma {:induction false} DoomedForever(cfg: Config, events: seq<Event>, after: seq<Event>, p: Page)
    requires Run(cfg, events).Reached? && Doomed(Run(cfg, events).state, p) && Run(cfg, events + after).Reached?
    ensures Doomed(Run(cfg, events + after).state, p)
    decreases |after|
  {
    if after == [] {
      assert events + after == events;
    } else {
      var all := events + after;
      RunLast(cfg, all);
      assert all[..|all| - 1] == events + after[..|after| - 1];
      DoomedForever(cfg, events, after[..|after| - 1], p);
      DoomedStays(cfg, Run(cfg, all[..|all| - 1]).state, all[|all| - 1], p);
    }
  }

  /** A crawl cancelled while its only page waits to be rendered: nothing has failed, and whatever
      happens next the page is never recorded and the crawl never done. */
  lemma CancelStrandsRender(a: Page)
    ensures exists events :: Strands(Expandable(a), events, a) && forall e <- events :: Smooth(e)
  {
    var cfg := Expandable(a);
    var events := CancelOne(a);
    forall after | Run(cfg, events + after).Reached?
      ensures Unrecorded(Run(cfg, events + after).state, a)
    {
      DoomedForever(cfg, events, after, a);
      DoomedIsUnrecorded(Run(cfg, events + after).state, a);
    }
    assert Strands(cfg, events, a);
  }

  ghost predicate Unrecorded(s: State, p: Page) {
    p in s.pages.phase && Owed(s.pages.phase[p]) == 1 && !AllDone(s)
  }

  /** After these events the page is never recorded. */
  ghost predicate Strands(cfg: Config, events: seq<Event>, p: Page) {
    Run(cfg, events).Reached? &&
    forall after :: Run(cfg, events + after).Reached? ==> Unrecorded(Run(cfg, events + after).state, p)
  }

  lemma DoomedIsUnrecorded(s: State, p: Page)
    requires Doomed(s, p)
    ensures Unrecorded(s, p)
  {
  }
}
