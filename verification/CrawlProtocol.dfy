/** One crawl as a state machine over its shared state: the Redis hash of counters, the dedupe
    sets, the queues, and what each worker has done so far with its job.  Every event is one
    Redis command (or MULTI block), one queue operation, or one failure of a worker, so a
    sequence of events is an interleaving of any number of workers. */
module CrawlProtocol {
  import opened Sequences

  /** A page is identified by the hash of its normalized URL. */
  type Page = string
  type Target = string

  datatype Outcome = Crawled | Unchanged | Failed

  /** The queue that a page's job sits in: page-fetch or page-render. */
  datatype Lane = FetchLane | RenderLane

  datatype Counters = Counters(total: int, crawled: int, unmodified: int, failed: int) {
    function Finished(): int {
      crawled + unmodified + failed
    }

    predicate IsComplete() {
      total > 0 && Finished() >= total
    }

    function Count(outcome: Outcome): Counters {
      match outcome
      case Crawled => this.(crawled := crawled + 1)
      case Unchanged => this.(unmodified := unmodified + 1)
      case Failed => this.(failed := failed + 1)
    }
  }

  /** What a page's job has done so far.  A worker that took the job is Active; it is Processing once a
      render job was let through, which a fetch job always is, Uncancelled once the crawl was found not
      cancelled, and Cleared once it was found not paused either.  `links` are the in-scope links still to be looked at,
      `found` the ones this job was the first to mark as seen.  A job given up for good is Abandoned
      if its page was not recorded, Silenced if it saw completion and did not queue finalize, and
      otherwise as good as Done. */
  datatype Phase =
    | Waiting(lane: Lane)
    | Active(lane: Lane)
    | Processing(lane: Lane)
    | Uncancelled(lane: Lane)
    | Cleared(lane: Lane)
    | Persisted(lane: Lane, targets: seq<Target>, links: seq<Page>)
    | Marked(lane: Lane, batches: seq<seq<Target>>, links: seq<Page>)
    | Batching(lane: Lane, batches: seq<seq<Target>>, links: seq<Page>)
    | Expanding(lane: Lane, links: seq<Page>, found: seq<Page>)
    | Added(lane: Lane, found: seq<Page>)
    | Settling(lane: Lane, outcome: Outcome)
    | Recorded(lane: Lane, sawComplete: bool)
    | Flushed(lane: Lane)
    | Notified(lane: Lane)
    | Done(signalled: bool)
    | Dropped
    | Abandoned
    | Silenced(flushed: bool)

  datatype Job = Job(depth: nat, discover: bool)

  datatype LinkStage = LinkWaiting | LinkActive | LinkCleared | LinkInserted | LinkCounted | LinkDead

  datatype LinkJob = LinkJob(urls: seq<Target>, stage: LinkStage)

  /** One attempt of the orchestrate job: the crawl is found not cancelled, then its website is found;
      the counters are set, then the stats, then each seed is marked, and one bulk add queues them.
      An attempt has Returned when it has queued its seeds or has none.  Until the job is acknowledged
      or given up for good it may be run again. */
  datatype Orchestrator =
    | Idle
    | Begun
    | Resolving
    | Initialised(seeds: seq<Page>)
    | Seeding(seeds: seq<Page>, next: nat)
    | Returned
    | Acknowledged
    | OrchestratorDead

  datatype Finalizer =
    | FinalizeIdle
    | FinalizeQueued(waits: nat)
    | FinalizeActive(waits: nat)
    | FinalizeCleared(waits: nat)
    | FinalizeRunning
    | FinalizeDone
    | FinalizeFailed

  /** Where a link target ended up: with the page that marked it, in a link-check job, or lost
      with the worker that held it. */
  datatype Place = OnPage(page: Page) | InJob(index: nat) | Lost

  /** The crawl's keys in Redis. */
  datatype Redis = Redis(counters: Counters, seen: set<Page>, linkTargets: set<Target>, linkBatches: int,
                         cancelled: bool, paused: bool)

  /** The page queues and their workers.  `refused` counts adds whose fixed job id existed. */
  datatype Pages = Pages(orchestrator: Orchestrator, phase: map<Page, Phase>, jobs: map<Page, Job>, refused: nat)

  /** The link-check jobs in the order they were queued, and the rows of link_checks. */
  datatype Links = Links(jobs: seq<LinkJob>, rows: set<Target>, website: bool)

  datatype Ending = Ending(finalizer: Finalizer, statsComplete: bool, cleaned: bool)

  /** What happened so far: where each marked target is, which page first marked each link, and
      what failures cost.  `recounted` counts recorded pages that are run again, `stranded` the
      pages counted in the total whose jobs were never queued, `leaked` the counted link batches
      that were never queued, `overcounted` the link jobs run again after their decrement,
      `skipped` the targets whose job found no website row.  `restarts` counts the times that the
      orchestrate job set the counters of a crawl that had pages, `forgotten` the totals and
      `discarded` the outcomes it overwrote. */
  datatype History = History(place: map<Target, Place>, claims: map<Page, Page>, recounted: nat, stranded: nat,
                             leaked: nat, overcounted: nat, skipped: set<Target>,
                             restarts: nat, forgotten: int, discarded: int)

  datatype State = State(redis: Redis, pages: Pages, links: Links, ending: Ending, past: History)

  /** Which seeds may be expanded, the depth limit, and the registrable domain of each page. */
  datatype Config = Config(discoverable: set<Page>, maxDepth: int, domainOf: Page -> string)

  const BATCH: nat := 100
  const MAX_LINK_WAITS: nat := 30

  datatype OrchestratorStep =
    | GiveUp
    | Begin
    | FindWebsite
    | InitCounters(resolved: seq<Page>)
    | EndEmpty
    | ResetStats
    | MarkSeed
    | QueueSeeds
    | AcknowledgeSeeds
    | OrchestratorCrash
    | OrchestratorAbandon

  datatype PageStep =
    | Take
    | DropRender
    | Process
    | Skip
    | NotCancelled
    | Delay
    | NotPaused
    | HandOff
    | PersistError
    | CarryForward
    | Persist(targets: seq<Target>, links: seq<Page>)
    | MarkTargets
    | CountBatches
    | QueueBatch
    | MarkLink
    | AddToTotal
    | QueueChildren
    | SettleCrawled
    | Record
    | FlushStats
    | SignalFinalize
    | Acknowledge
    | Crash
    | Abandon

  datatype LinkStep = TakeLinks | FindSite | InsertRows | Decrement | SkipLinks | CrashLinks | AbandonLinks

  datatype FinalizeStep =
    | TakeFinalize
    | CancelFinalize
    | ClearFinalize
    | Wait(kept: bool)
    | PassGate
    | Finish
    | CrashFinalize(resumed: nat)
    | FailFinalize
    | Redrive

  datatype Event =
    | Orchestrate(seeding: OrchestratorStep)
    | Cancel
    | SetPaused(on: bool)
    | DeleteWebsite
    | PageEvent(page: Page, step: PageStep)
    | LinkEvent(index: nat, work: LinkStep)
    | FinalizeEvent(pass: FinalizeStep)

  // ---------- reading a state ----------

  const INITIAL: State := State(
    Redis(Counters(0, 0, 0, 0), {}, {}, 0, false, false),
    Pages(Idle, map[], map[], 0),
    Links([], {}, true),
    Ending(FinalizeIdle, false, false),
    History(map[], map[], 0, 0, 0, 0, {}, 0, 0, 0))

  /** What a phase still owes to the counters: one for a page not yet recorded, and one for each
      child already added to the total but not yet queued. */
  function Owed(p: Phase): nat {
    match p
    case Added(_, found) => 1 + |found|
    case Recorded(_, _) => 0
    case Flushed(_) => 0
    case Notified(_) => 0
    case Done(_) => 0
    case Silenced(_) => 0
    case _ => 1
  }

  /** Seeds counted in the total by an orchestrate job that has not queued them yet. */
  function SeedsOwed(o: Orchestrator): nat {
    match o
    case Initialised(seeds) => |seeds|
    case Seeding(seeds, _) => |seeds|
    case _ => 0
  }

  /** Link batches that the phase has counted but not yet queued. */
  function CountedBatches(p: Phase): nat {
    if p.Batching? then |p.batches| else 0
  }

  function SawComplete(p: Phase): nat {
    match p
    case Recorded(_, saw) => if saw then 1 else 0
    case Flushed(_) => 1
    case Notified(_) => 1
    case Done(signalled) => if signalled then 1 else 0
    case Silenced(_) => 1
    case _ => 0
  }

  /** The page saw completion and wrote the final stats. */
  function HasFlushed(p: Phase): nat {
    match p
    case Flushed(_) => 1
    case Notified(_) => 1
    case Done(signalled) => if signalled then 1 else 0
    case Silenced(flushed) => if flushed then 1 else 0
    case _ => 0
  }

  predicate Running(p: Phase) {
    !p.Waiting? && !p.Done? && !p.Dropped? && !p.Abandoned? && !p.Silenced?
  }

  /** Not recorded yet, and still able to be: queued, in flight or in the render queue. */
  predicate Outstanding(p: Phase) {
    Owed(p) > 0 && !p.Dropped? && !p.Abandoned?
  }

  function LinksOf(p: Phase): seq<Page> {
    match p
    case Persisted(_, _, links) => links
    case Marked(_, _, links) => links
    case Batching(_, _, links) => links
    case Expanding(_, links, _) => links
    case _ => []
  }

  function FoundOf(p: Phase): seq<Page> {
    match p
    case Expanding(_, _, found) => found
    case Added(_, found) => found
    case _ => []
  }

  function HeldBatches(p: Phase): seq<seq<Target>> {
    match p
    case Marked(_, batches, _) => batches
    case Batching(_, batches, _) => batches
    case _ => []
  }

  function Held(p: Phase): seq<Target> {
    Flatten(HeldBatches(p))
  }

  // ---------- sequences ----------

  function Flatten<T>(batches: seq<seq<T>>): seq<T> {
    if batches == [] then [] else batches[0] + Flatten(batches[1..])
  }

  function Chunk<T>(items: seq<T>, size: nat): (chunks: seq<seq<T>>)
    requires size > 0
    ensures Flatten(chunks) == items
    ensures forall c <- chunks :: 0 < |c| <= size
    ensures items != [] ==> chunks != []
  {
    if items == [] then []
    else if |items| <= size then assert [items][1..] == []; [items]
    else
      assert items == items[..size] + items[size..];
      [items[..size]] + Chunk(items[size..], size)
  }

  /** The targets that are new to a set to which each is added in turn. */
  function Unmarked(targets: seq<Target>, known: set<Target>): (news: seq<Target>)
    ensures forall t :: t in news <==> t in targets && t !in known
    ensures Distinct(news)
  {
    if targets == [] then []
    else if targets[0] in known then Unmarked(targets[1..], known)
    else [targets[0]] + Unmarked(targets[1..], known + {targets[0]})
  }

  function SetOf<T>(s: seq<T>): set<T> {
    set x | x in s
  }

  // ---------- steps ----------

  /** Queueing with a fixed job id: an id that already exists is refused. */
  function AddJob(q: Pages, page: Page, job: Job): Pages {
    if page in q.phase then q.(refused := q.refused + 1)
    else q.(phase := q.phase[page := Waiting(FetchLane)], jobs := q.jobs[page := job])
  }

  /** Jobs already there are left alone; a new one waits in the fetch queue. */
  function AddJobs(q: Pages, pages: seq<Page>, jobOf: Page -> Job): (r: Pages)
    ensures r.orchestrator == q.orchestrator
    ensures r.phase.Keys == q.phase.Keys + SetOf(pages)
    ensures forall p <- q.phase :: r.phase[p] == q.phase[p] && (p in q.jobs ==> p in r.jobs && r.jobs[p] == q.jobs[p])
    ensures forall p <- pages :: p !in q.phase ==> r.phase[p] == Waiting(FetchLane)
    decreases |pages|
  {
    if pages == [] then q else AddJobs(AddJob(q, pages[0], jobOf(pages[0])), pages[1..], jobOf)
  }

  function SeedJob(cfg: Config): Page -> Job {
    page => Job(0, page in cfg.discoverable)
  }

  function ChildJob(parent: Job): Page -> Job {
    _ => Job(parent.depth + 1, true)
  }

  /** An attempt of the orchestrate job is under way. */
  predicate Attempting(o: Orchestrator) {
    !o.Idle? && !o.Acknowledged? && !o.OrchestratorDead?
  }

  predicate OrchestratorEnabled(s: State, step: OrchestratorStep) {
    var o := s.pages.orchestrator;
    match step
    case GiveUp => (o.Idle? && s.redis.cancelled) || (o.Begun? && !s.links.website)
    case Begin => o.Idle? && !s.redis.cancelled
    case FindWebsite => o.Begun? && s.links.website
    case InitCounters(seeds) => o.Resolving? && Distinct(seeds)
    case EndEmpty => o.Initialised? && o.seeds == []
    case ResetStats => o.Initialised? && o.seeds != []
    case MarkSeed => o.Seeding? && o.next < |o.seeds|
    case QueueSeeds => o.Seeding? && o.next == |o.seeds|
    case AcknowledgeSeeds => o.Returned?
    case OrchestratorCrash => Attempting(o)
    case OrchestratorAbandon => Attempting(o)
  }

  /** Setting the counters forgets what they held; before any page exists that was only the seeds
      of an attempt that never queued them. */
  function ForgetCounters(h: History, c: Counters, first: bool): History {
    if first then h.(stranded := 0)
    else h.(restarts := h.restarts + 1, forgotten := h.forgotten + c.total, discarded := h.discarded + c.Finished())
  }

  function ApplyOrchestrator(cfg: Config, s: State, step: OrchestratorStep): State
    requires OrchestratorEnabled(s, step)
  {
    var o := s.pages.orchestrator;
    match step
    case GiveUp => s.(pages := s.pages.(orchestrator := Returned))
    case Begin => s.(pages := s.pages.(orchestrator := Begun))
    case FindWebsite => s.(pages := s.pages.(orchestrator := Resolving))
    case InitCounters(seeds) =>
      s.(redis := s.redis.(counters := Counters(|seeds|, 0, 0, 0)),
         pages := s.pages.(orchestrator := Initialised(seeds)),
         past := ForgetCounters(s.past, s.redis.counters, s.pages.phase == map[]))
    case EndEmpty => s.(pages := s.pages.(orchestrator := Returned))
    case ResetStats =>
      s.(pages := s.pages.(orchestrator := Seeding(o.seeds, 0)), ending := s.ending.(statsComplete := false))
    case MarkSeed =>
      s.(redis := s.redis.(seen := s.redis.seen + {o.seeds[o.next]}),
         pages := s.pages.(orchestrator := Seeding(o.seeds, o.next + 1)))
    case QueueSeeds => s.(pages := AddJobs(s.pages.(orchestrator := Returned), o.seeds, SeedJob(cfg)))
    case AcknowledgeSeeds => s.(pages := s.pages.(orchestrator := Acknowledged))
    case OrchestratorCrash =>
      s.(pages := s.pages.(orchestrator := Idle), past := s.past.(stranded := s.past.stranded + SeedsOwed(o)))
    case OrchestratorAbandon =>
      s.(pages := s.pages.(orchestrator := OrchestratorDead),
         past := s.past.(stranded := s.past.stranded + SeedsOwed(o)))
  }

  predicate PageEnabled(cfg: Config, s: State, page: Page, step: PageStep) {
    page in s.pages.phase && page in s.pages.jobs &&
    var x := s.pages.phase[page];
    match step
    case Take => x.Waiting?
    case DropRender => x.Active? && x.lane.RenderLane? && s.redis.cancelled
    case Process => x.Active? && (x.lane.FetchLane? || !s.redis.cancelled)
    case Skip => x.Processing? && s.redis.cancelled
    case NotCancelled => x.Processing? && !s.redis.cancelled
    case Delay => (x.Uncancelled? && s.redis.paused) || (x.Cleared? && x.lane.FetchLane?)
    case NotPaused => x.Uncancelled? && !s.redis.paused
    case HandOff => x.Cleared? && x.lane.FetchLane?
    case PersistError => x.Cleared?
    case CarryForward => x.Cleared?
    case Persist(_, links) =>
      x.Cleared? &&
      (links != [] ==> s.pages.jobs[page].discover && s.pages.jobs[page].depth < cfg.maxDepth) &&
      (forall l <- links :: cfg.domainOf(l) == cfg.domainOf(page))
    case MarkTargets => x.Persisted?
    case CountBatches => x.Marked?
    case QueueBatch => x.Batching? && x.batches != []
    case MarkLink => x.Expanding? && x.links != []
    case AddToTotal => x.Expanding? && x.links == [] && x.found != []
    case QueueChildren => x.Added?
    case SettleCrawled => x.Expanding? && x.links == [] && x.found == []
    case Record => x.Settling?
    case FlushStats => x.Recorded? && x.sawComplete
    case SignalFinalize => x.Flushed?
    case Acknowledge => (x.Recorded? && !x.sawComplete) || x.Notified?
    case Crash => Running(x)
    case Abandon => Running(x)
  }

  /** The phase that a page step leads to. */
  function NextPhase(cfg: Config, s: State, page: Page, step: PageStep): Phase
    requires PageEnabled(cfg, s, page, step)
  {
    var x := s.pages.phase[page];
    match step
    case Take => Active(x.lane)
    case DropRender => Dropped
    case Process => Processing(x.lane)
    case Skip => Settling(x.lane, Unchanged)
    case NotCancelled => Uncancelled(x.lane)
    case Delay => Waiting(x.lane)
    case NotPaused => Cleared(x.lane)
    case HandOff => Waiting(RenderLane)
    case PersistError => Settling(x.lane, Failed)
    case CarryForward => Settling(x.lane, Unchanged)
    case Persist(targets, links) => Persisted(x.lane, targets, links)
    case MarkTargets =>
      var news := Unmarked(x.targets, s.redis.linkTargets);
      if news == [] then Expanding(x.lane, x.links, [])
      else Marked(x.lane, Chunk(news, BATCH), x.links)
    case CountBatches => Batching(x.lane, x.batches, x.links)
    case QueueBatch =>
      if |x.batches| == 1 then Expanding(x.lane, x.links, [])
      else Batching(x.lane, x.batches[1..], x.links)
    case MarkLink =>
      if x.links[0] in s.redis.seen then Expanding(x.lane, x.links[1..], x.found)
      else Expanding(x.lane, x.links[1..], x.found + [x.links[0]])
    case AddToTotal => Added(x.lane, x.found)
    case QueueChildren => Settling(x.lane, Crawled)
    case SettleCrawled => Settling(x.lane, Crawled)
    case Record => Recorded(x.lane, s.redis.counters.Count(x.outcome).IsComplete())
    case FlushStats => Flushed(x.lane)
    case SignalFinalize => Notified(x.lane)
    case Acknowledge => Done(x.Notified?)
    case Crash => Waiting(x.lane)
    case Abandon => GivenUp(x)
  }

  /** Where a job ends whose attempts are used up. */
  function GivenUp(x: Phase): Phase {
    match x
    case Recorded(_, saw) => if saw then Silenced(false) else Done(false)
    case Flushed(_) => Silenced(true)
    case Notified(_) => Done(true)
    case _ => Abandoned
  }

  function NextRedis(cfg: Config, s: State, page: Page, step: PageStep): Redis
    requires PageEnabled(cfg, s, page, step)
  {
    var x, r := s.pages.phase[page], s.redis;
    match step
    case MarkTargets => r.(linkTargets := r.linkTargets + SetOf(Unmarked(x.targets, r.linkTargets)))
    case CountBatches => r.(linkBatches := r.linkBatches + |x.batches|)
    case MarkLink => r.(seen := r.seen + {x.links[0]})
    case AddToTotal => r.(counters := r.counters.(total := r.counters.total + |x.found|))
    case Record => r.(counters := r.counters.Count(x.outcome))
    case _ => r
  }

  function NextPages(cfg: Config, s: State, page: Page, step: PageStep): Pages
    requires PageEnabled(cfg, s, page, step)
  {
    var q := s.pages.(phase := s.pages.phase[page := NextPhase(cfg, s, page, step)]);
    if step.QueueChildren? then AddJobs(q, s.pages.phase[page].found, ChildJob(s.pages.jobs[page])) else q
  }

  function NextLinks(cfg: Config, s: State, page: Page, step: PageStep): Links
    requires PageEnabled(cfg, s, page, step)
  {
    if step.QueueBatch? then
      s.links.(jobs := s.links.jobs + [LinkJob(s.pages.phase[page].batches[0], LinkWaiting)])
    else s.links
  }

  function NextEnding(cfg: Config, s: State, page: Page, step: PageStep): Ending {
    match step
    case FlushStats => s.ending.(statsComplete := true)
    case SignalFinalize =>
      if s.ending.finalizer.FinalizeIdle? then s.ending.(finalizer := FinalizeQueued(0)) else s.ending
    case _ => s.ending
  }

  function NextHistory(cfg: Config, s: State, page: Page, step: PageStep): History
    requires PageEnabled(cfg, s, page, step)
  {
    var x, h := s.pages.phase[page], s.past;
    match step
    case MarkTargets =>
      h.(place := h.place + map t | t in Unmarked(x.targets, s.redis.linkTargets) :: OnPage(page))
    case QueueBatch => h.(place := h.place + map t | t in x.batches[0] :: InJob(|s.links.jobs|))
    case MarkLink => if x.links[0] in s.redis.seen then h else h.(claims := h.claims[x.links[0] := page])
    case Crash => Lose(h, x, true)
    case Abandon => Lose(h, x, false)
    case _ => h
  }

  /** What is lost when the worker in phase `x` dies, and when its job will be run again. */
  function Lose(h: History, x: Phase, again: bool): History {
    h.(place := h.place + map t | t in Held(x) :: Lost,
       recounted := h.recounted + if again && Owed(x) == 0 then 1 else 0,
       stranded := h.stranded + if x.Added? then |x.found| else 0,
       leaked := h.leaked + CountedBatches(x))
  }

  function ApplyPage(cfg: Config, s: State, page: Page, step: PageStep): State
    requires PageEnabled(cfg, s, page, step)
  {
    State(NextRedis(cfg, s, page, step), NextPages(cfg, s, page, step), NextLinks(cfg, s, page, step),
          NextEnding(cfg, s, page, step), NextHistory(cfg, s, page, step))
  }

  predicate LinkEnabled(links: Links, index: nat, step: LinkStep) {
    index < |links.jobs| &&
    var stage := links.jobs[index].stage;
    match step
    case TakeLinks => stage.LinkWaiting?
    case FindSite => stage.LinkActive? && links.website
    case InsertRows => stage.LinkCleared?
    case Decrement => stage.LinkInserted?
    case SkipLinks => stage.LinkActive? && !links.website
    case CrashLinks => stage.LinkActive? || stage.LinkCleared? || stage.LinkInserted? || stage.LinkCounted?
    case AbandonLinks => stage.LinkActive? || stage.LinkCleared? || stage.LinkInserted?
  }

  function NextStage(step: LinkStep): LinkStage {
    match step
    case TakeLinks => LinkActive
    case FindSite => LinkCleared
    case InsertRows => LinkInserted
    case Decrement => LinkCounted
    case SkipLinks => LinkCounted
    case CrashLinks => LinkWaiting
    case AbandonLinks => LinkDead
  }

  function ApplyLink(s: State, index: nat, step: LinkStep): State
    requires LinkEnabled(s.links, index, step)
  {
    var job := s.links.jobs[index];
    s.(links := s.links.(
         jobs := s.links.jobs[index := job.(stage := NextStage(step))],
         rows := if step.InsertRows? then s.links.rows + SetOf(job.urls) else s.links.rows),
       redis := if step.Decrement? || step.SkipLinks? then s.redis.(linkBatches := s.redis.linkBatches - 1)
                else s.redis,
       past := if step.SkipLinks? then s.past.(skipped := s.past.skipped + SetOf(job.urls))
               else if step.CrashLinks? && job.stage.LinkCounted? then s.past.(overcounted := s.past.overcounted + 1)
               else s.past)
  }

  predicate FinalizeEnabled(s: State, step: FinalizeStep) {
    var f := s.ending.finalizer;
    match step
    case TakeFinalize => f.FinalizeQueued?
    case CancelFinalize => f.FinalizeActive? && s.redis.cancelled
    case ClearFinalize => f.FinalizeActive? && !s.redis.cancelled
    case Wait(_) => f.FinalizeCleared? && s.redis.linkBatches > 0 && f.waits < MAX_LINK_WAITS
    case PassGate => f.FinalizeCleared? && !(s.redis.linkBatches > 0 && f.waits < MAX_LINK_WAITS)
    case Finish => f.FinalizeRunning?
    case CrashFinalize(_) => f.FinalizeActive? || f.FinalizeCleared? || f.FinalizeRunning?
    case FailFinalize => f.FinalizeActive? || f.FinalizeCleared? || f.FinalizeRunning?
    case Redrive => (f.FinalizeIdle? && s.ending.statsComplete) || f.FinalizeDone? || f.FinalizeFailed?
  }

  function NextFinalizer(f: Finalizer, step: FinalizeStep): Finalizer
    requires step.TakeFinalize? ==> f.FinalizeQueued?
    requires step.ClearFinalize? ==> f.FinalizeActive?
    requires step.Wait? ==> f.FinalizeCleared?
  {
    match step
    case TakeFinalize => FinalizeActive(f.waits)
    case CancelFinalize => FinalizeDone
    case ClearFinalize => FinalizeCleared(f.waits)
    case Wait(kept) => FinalizeQueued(f.waits + if kept then 1 else 0)
    case PassGate => FinalizeRunning
    case Finish => FinalizeDone
    case CrashFinalize(resumed) => FinalizeQueued(resumed)
    case FailFinalize => FinalizeFailed
    case Redrive => FinalizeQueued(0)
  }

  /** Both ways of ending delete the dedupe sets. */
  function ApplyFinalize(s: State, step: FinalizeStep): State
    requires FinalizeEnabled(s, step)
  {
    var cleans := step.CancelFinalize? || step.Finish?;
    s.(ending := s.ending.(finalizer := NextFinalizer(s.ending.finalizer, step), cleaned := s.ending.cleaned || cleans),
       redis := if cleans then s.redis.(seen := {}, linkTargets := {}) else s.redis)
  }

  predicate Enabled(cfg: Config, s: State, e: Event) {
    match e
    case Orchestrate(step) => OrchestratorEnabled(s, step)
    case PageEvent(page, step) => PageEnabled(cfg, s, page, step)
    case LinkEvent(index, step) => LinkEnabled(s.links, index, step)
    case FinalizeEvent(step) => FinalizeEnabled(s, step)
    case _ => true
  }

  function Apply(cfg: Config, s: State, e: Event): State
    requires Enabled(cfg, s, e)
  {
    match e
    case Orchestrate(step) => ApplyOrchestrator(cfg, s, step)
    case Cancel => s.(redis := s.redis.(cancelled := true))
    case SetPaused(on) => s.(redis := s.redis.(paused := on))
    case DeleteWebsite => s.(links := s.links.(website := false))
    case PageEvent(page, step) => ApplyPage(cfg, s, page, step)
    case LinkEvent(index, step) => ApplyLink(s, index, step)
    case FinalizeEvent(step) => ApplyFinalize(s, step)
  }

  datatype Result = Stuck | Reached(state: State)

  /** The state after a sequence of events, if each is enabled in turn. */
  function Run(cfg: Config, events: seq<Event>): Result {
    if events == [] then Reached(INITIAL)
    else
      match Run(cfg, events[..|events| - 1])
      case Stuck => Stuck
      case Reached(s) =>
        var e := events[|events| - 1];
        if Enabled(cfg, s, e) then Reached(Apply(cfg, s, e)) else Stuck
  }
}
