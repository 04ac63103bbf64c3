/** The page processor's own code, with other workers free to act between any two of its
    commands.  Each command on shared state is one method; Interference stands for everyone else.
    Whatever path the code takes, the log of commands is a run of the protocol. */
module CrawlWorker {
  import opened Sequences
  import opened CrawlProtocol

  /** A link of a page that has a normalized URL: whether it is marked internal, and whether the
      filter's path scope and allow and block lists admit it. */
  datatype Link = Link(page: Page, inner: bool, listed: bool)

  /** What fetching (or rendering) a page gives: a transport or HTTP error, content unchanged
      since the previous crawl, a shell that needs rendering, or artifacts to persist. */
  datatype Response =
    | Error
    | NotModified
    | NeedsRender
    | Artifacts(links: seq<Link>, targets: seq<Target>)

  /** An answer to a HEAD or GET request; a status of 0 means that none came. */
  datatype Reply = Reply(status: nat, ok: bool, failed: bool, hops: nat)

  /** How each target answers to HEAD and to GET, and which targets are of the website's own domain. */
  datatype Net = Net(head: Target -> Reply, get: Target -> Reply, inner: Target -> bool)

  datatype CheckResult = CheckResult(url: Target, status: nat, ok: bool, inner: bool, hops: nat)

  predicate Succeeds(r: Reply) {
    r.ok || 200 <= r.status < 400
  }

  /** The server may only have refused to be asked by HEAD. */
  predicate Refuses(r: Reply) {
    r.status == 405 || r.status == 501 || (r.status == 0 && r.failed)
  }

  /** A target is found broken exactly if its last answer fails; GET is asked where HEAD was refused. */
  predicate Tells(net: Net, c: CheckResult) {
    && (!c.ok <==> if Refuses(net.head(c.url)) then !Succeeds(net.get(c.url)) else !Succeeds(net.head(c.url)))
    && (Refuses(net.head(c.url)) ==> c.status == net.get(c.url).status && c.hops == net.get(c.url).hops)
    && (!Refuses(net.head(c.url)) ==> c.status == net.head(c.url).status && c.hops == net.head(c.url).hops)
    && c.inner == net.inner(c.url)
  }

  datatype Decision = Skipped | Held | Passed

  datatype Verdict = Delayed | RoutedToRender | Finished(outcome: Outcome)

  datatype Actor = PageWorker(page: Page) | LinkWorker(index: nat) | FinalizeWorker | OrchestratorWorker

  /** The actor's own job exists. */
  predicate Stakes(s: State, me: Actor) {
    match me
    case PageWorker(page) => page in s.pages.phase && page in s.pages.jobs
    case LinkWorker(index) => index < |s.links.jobs|
    case FinalizeWorker => !s.ending.finalizer.FinalizeIdle?
    case OrchestratorWorker => true
  }

  /** What an actor may rely on while others act. */
  predicate Kept(s: State, t: State, me: Actor)
    requires Stakes(s, me) && Stakes(t, me)
  {
    (!s.ending.finalizer.FinalizeIdle? ==> !t.ending.finalizer.FinalizeIdle?) &&
    (s.redis.cancelled ==> t.redis.cancelled) && (t.links.website ==> s.links.website) &&
    s.links.rows <= t.links.rows &&
    s.pages.phase.Keys <= t.pages.phase.Keys &&
    match me
    case PageWorker(page) =>
      t.pages.phase[page] == s.pages.phase[page] && t.pages.jobs[page] == s.pages.jobs[page]
    case LinkWorker(index) => t.links.jobs[index] == s.links.jobs[index]
    case FinalizeWorker => t.ending.finalizer == s.ending.finalizer
    case OrchestratorWorker => t.pages.orchestrator == s.pages.orchestrator
  }

  /** An event that is not the actor's own step. */
  predicate Foreign(me: Actor, e: Event) {
    match me
    case PageWorker(page) => !(e.PageEvent? && e.page == page)
    case LinkWorker(index) => !(e.LinkEvent? && e.index == index)
    case FinalizeWorker => !e.FinalizeEvent?
    case OrchestratorWorker => !e.Orchestrate?
  }

  class CrawlSystem {
    const cfg: Config
    var counters: Counters
    var seen: set<Page>
    var linkTargets: set<Target>
    var linkBatches: int
    var cancelled: bool
    var paused: bool
    var pages: Pages
    var links: Links
    var ending: Ending
    var past: History
    ghost var log: seq<Event>

    function View(): State
      reads this
    {
      State(Redis(counters, seen, linkTargets, linkBatches, cancelled, paused), pages, links, ending, past)
    }

    /** The state is the one its log of commands leads to. */
    ghost predicate Valid()
      reads this
    {
      Run(cfg, log) == Reached(View())
    }

    /** This worker holds the page's job in phase `x`. */
    ghost predicate Holds(page: Page, x: Phase)
      reads this
    {
      page in pages.phase && page in pages.jobs && pages.phase[page] == x
    }

    constructor (cfg: Config)
      ensures Valid() && this.cfg == cfg && log == []
    {
      this.cfg := cfg;
      counters := Counters(0, 0, 0, 0);
      seen, linkTargets, linkBatches, cancelled, paused := {}, {}, 0, false, false;
      pages, links := Pages(Idle, map[], map[], 0), Links([], {}, true);
      ending, past := Ending(FinalizeIdle, false, false), INITIAL.past;
      log := [];
    }

    // ---------- commands ----------

    /** A step that only the worker itself can see. */
    method Advance(page: Page, step: PageStep)
      requires Valid() && PageEnabled(cfg, View(), page, step)
      requires step.Process? || step.NotCancelled? || step.NotPaused? || step.Delay? || step.Skip? ||
               step.DropRender? || step.HandOff? || step.PersistError? || step.CarryForward? || step.Persist? ||
               step.SettleCrawled? || step.Acknowledge?
      modifies this`pages, this`log
      ensures Valid() && View() == ApplyPage(cfg, old(View()), page, step)
      ensures log == old(log) + [PageEvent(page, step)]
    {
      var x := pages.phase[page];
      var next :=
        match step
        case Process => Processing(x.lane)
        case NotCancelled => Uncancelled(x.lane)
        case NotPaused => Cleared(x.lane)
        case Delay => Waiting(x.lane)
        case HandOff => Waiting(RenderLane)
        case DropRender => Dropped
        case Skip => Settling(x.lane, Unchanged)
        case CarryForward => Settling(x.lane, Unchanged)
        case PersistError => Settling(x.lane, Failed)
        case Persist(targets, links) => Persisted(x.lane, targets, links)
        case SettleCrawled => Settling(x.lane, Crawled)
        case _ => Done(x.Notified?);
      pages := pages.(phase := pages.phase[page := next]);
      Commit(PageEvent(page, step));
    }

    /** Logs a command whose effect has just been written. */
    ghost method Commit(e: Event)
      requires Run(cfg, log).Reached? && Enabled(cfg, Run(cfg, log).state, e)
      requires View() == Apply(cfg, Run(cfg, log).state, e)
      modifies this`log
      ensures Valid() && log == old(log) + [e]
    {
      log := log + [e];
      assert log[..|log| - 1] == old(log);
    }

    /** SADD of each target; returns the ones that were new. */
    method AddTargets(targets: seq<Target>) returns (news: seq<Target>)
      modifies this`linkTargets
      ensures news == Unmarked(targets, old(linkTargets))
      ensures linkTargets == old(linkTargets) + SetOf(news)
    {
      news := [];
      ghost var before := linkTargets;
      for i := 0 to |targets|
        invariant linkTargets == before + SetOf(news)
        invariant news == Unmarked(targets[..i], before)
      {
        UnmarkedNext(targets, i, before);
        assert targets[i] in linkTargets <==> targets[i] in before + SetOf(Unmarked(targets[..i], before));
        if targets[i] !in linkTargets {
          linkTargets := linkTargets + {targets[i]};
          news := news + [targets[i]];
        }
      }
      assert targets[..|targets|] == targets;
    }

    /** The MULTI block that marks a page's targets. */
    method MarkLinkTargetsNew(page: Page, targets: seq<Target>) returns (news: seq<Target>)
      requires Valid() && PageEnabled(cfg, View(), page, MarkTargets) && targets == Unique(pages.phase[page].targets)
      modifies this`linkTargets, this`pages, this`past, this`log
      ensures Valid() && View() == ApplyPage(cfg, old(View()), page, MarkTargets)
      ensures log == old(log) + [PageEvent(page, MarkTargets)]
      ensures news == Unmarked(targets, old(linkTargets))
      ensures var x := old(pages.phase[page]);
        Holds(page, if news == [] then Expanding(x.lane, x.links, []) else Marked(x.lane, Chunk(news, BATCH), x.links))
    {
      var s := View();
      var x := pages.phase[page];
      news := AddTargets(targets);
      MarkedTargets(cfg, s, page, news);
      pages := pages.(phase := pages.phase[page :=
        if news == [] then Expanding(x.lane, x.links, []) else Marked(x.lane, Chunk(news, BATCH), x.links)]);
      past := NextHistory(cfg, s, page, MarkTargets);
      Commit(PageEvent(page, MarkTargets));
    }

    method IncrLinkBatches(page: Page, delta: nat)
      requires Valid() && PageEnabled(cfg, View(), page, CountBatches) && delta == |pages.phase[page].batches|
      modifies this`linkBatches, this`pages, this`log
      ensures Valid() && View() == ApplyPage(cfg, old(View()), page, CountBatches)
      ensures log == old(log) + [PageEvent(page, CountBatches)]
    {
      var x := pages.phase[page];
      linkBatches := linkBatches + delta;
      pages := pages.(phase := pages.phase[page := Batching(x.lane, x.batches, x.links)]);
      Commit(PageEvent(page, CountBatches));
    }

    method EnqueueLinkCheck(page: Page, urls: seq<Target>)
      requires Valid() && PageEnabled(cfg, View(), page, QueueBatch) && urls == pages.phase[page].batches[0]
      modifies this`links, this`pages, this`past, this`log
      ensures Valid() && View() == ApplyPage(cfg, old(View()), page, QueueBatch)
      ensures log == old(log) + [PageEvent(page, QueueBatch)]
    {
      var s := View();
      var x := pages.phase[page];
      links := links.(jobs := links.jobs + [LinkJob(urls, LinkWaiting)]);
      pages := pages.(phase := pages.phase[page :=
        if |x.batches| == 1 then Expanding(x.lane, x.links, []) else Batching(x.lane, x.batches[1..], x.links)]);
      past := NextHistory(cfg, s, page, QueueBatch);
      Commit(PageEvent(page, QueueBatch));
    }

    /** SADD of one link's hash. */
    method MarkSeen(page: Page, link: Page) returns (added: bool)
      requires Valid() && PageEnabled(cfg, View(), page, MarkLink) && link == pages.phase[page].links[0]
      modifies this`seen, this`pages, this`past, this`log
      ensures Valid() && View() == ApplyPage(cfg, old(View()), page, MarkLink)
      ensures log == old(log) + [PageEvent(page, MarkLink)]
      ensures added <==> link !in old(seen)
    {
      var s := View();
      var x := pages.phase[page];
      added := link !in seen;
      seen := seen + {link};
      pages := pages.(phase := pages.phase[page :=
        Expanding(x.lane, x.links[1..], if added then x.found + [link] else x.found)]);
      past := NextHistory(cfg, s, page, MarkLink);
      Commit(PageEvent(page, MarkLink));
    }

    method AddCounted(page: Page, delta: nat)
      requires Valid() && PageEnabled(cfg, View(), page, AddToTotal) && delta == |pages.phase[page].found|
      modifies this`counters, this`pages, this`log
      ensures Valid() && View() == ApplyPage(cfg, old(View()), page, AddToTotal)
      ensures log == old(log) + [PageEvent(page, AddToTotal)]
    {
      var x := pages.phase[page];
      counters := counters.(total := counters.total + delta);
      pages := pages.(phase := pages.phase[page := Added(x.lane, x.found)]);
      Commit(PageEvent(page, AddToTotal));
    }

    static method AddBulk(start: Pages, children: seq<Page>, jobOf: Page -> Job) returns (queue: Pages)
      ensures queue == AddJobs(start, children, jobOf)
    {
      queue := start;
      for i := 0 to |children|
        invariant AddJobs(queue, children[i..], jobOf) == AddJobs(start, children, jobOf)
      {
        assert children[i..][1..] == children[i + 1..];
        queue := AddJob(queue, children[i], jobOf(children[i]));
      }
    }

    /** One bulk add of the children's jobs. */
    method EnqueuePageFetch(page: Page, children: seq<Page>)
      requires Valid() && PageEnabled(cfg, View(), page, QueueChildren) && children == pages.phase[page].found
      modifies this`pages, this`log
      ensures Valid() && View() == ApplyPage(cfg, old(View()), page, QueueChildren)
      ensures log == old(log) + [PageEvent(page, QueueChildren)]
    {
      ghost var s := View();
      var jobOf := ChildJob(pages.jobs[page]);
      var settled := pages.(phase := pages.phase[page := Settling(pages.phase[page].lane, Crawled)]);
      pages := AddBulk(settled, children, jobOf);
      assert NextPages(cfg, s, page, QueueChildren) == pages;
      Commit(PageEvent(page, QueueChildren));
    }

    /** The MULTI block that counts a page's outcome and reads the counters back. */
    method RecordPage(page: Page, outcome: Outcome) returns (now: Counters)
      requires Valid() && PageEnabled(cfg, View(), page, Record) && outcome == pages.phase[page].outcome
      modifies this`counters, this`pages, this`log
      ensures Valid() && View() == ApplyPage(cfg, old(View()), page, Record)
      ensures log == old(log) + [PageEvent(page, Record)]
      ensures now == counters == old(counters).Count(outcome)
    {
      counters := counters.Count(outcome);
      now := counters;
      pages := pages.(phase := pages.phase[page := Recorded(pages.phase[page].lane, counters.IsComplete())]);
      Commit(PageEvent(page, Record));
    }

    method UpdateStats(page: Page)
      requires Valid() && PageEnabled(cfg, View(), page, FlushStats)
      modifies this`ending, this`pages, this`log
      ensures Valid() && View() == ApplyPage(cfg, old(View()), page, FlushStats)
      ensures log == old(log) + [PageEvent(page, FlushStats)]
    {
      ending := ending.(statsComplete := true);
      pages := pages.(phase := pages.phase[page := Flushed(pages.phase[page].lane)]);
      Commit(PageEvent(page, FlushStats));
    }

    /** A fixed job id collapses repeated completion signals. */
    method EnqueueFinalize(page: Page)
      requires Valid() && PageEnabled(cfg, View(), page, SignalFinalize)
      modifies this`ending, this`pages, this`log
      ensures Valid() && View() == ApplyPage(cfg, old(View()), page, SignalFinalize)
      ensures log == old(log) + [PageEvent(page, SignalFinalize)]
    {
      if ending.finalizer.FinalizeIdle? {
        ending := ending.(finalizer := FinalizeQueued(0));
      }
      pages := pages.(phase := pages.phase[page := Notified(pages.phase[page].lane)]);
      Commit(PageEvent(page, SignalFinalize));
    }

    // ---------- the other workers ----------

    method Perform(e: Event)
      requires Valid() && Enabled(cfg, View(), e)
      modifies this
      ensures Valid() && View() == Apply(cfg, old(View()), e) && log == old(log) + [e]
    {
      var s := Apply(cfg, View(), e);
      counters, seen, linkTargets := s.redis.counters, s.redis.seen, s.redis.linkTargets;
      linkBatches, cancelled, paused := s.redis.linkBatches, s.redis.cancelled, s.redis.paused;
      pages, links, ending, past := s.pages, s.links, s.ending, s.past;
      Commit(e);
    }

    /** Any number of events of everyone else: what this actor holds is left alone. */
    method Interference(me: Actor)
      requires Valid() && Stakes(View(), me)
      modifies this
      ensures Valid() && Stakes(View(), me) && Kept(old(View()), View(), me)
      ensures old(log) <= log && forall e <- log[|old(log)|..] :: Foreign(me, e)
    {
      var events: seq<Event> := *;
      for i := 0 to |events|
        invariant Valid() && Stakes(View(), me) && Kept(old(View()), View(), me)
        invariant old(log) <= log && forall e <- log[|old(log)|..] :: Foreign(me, e)
      {
        var e := events[i];
        if Foreign(me, e) && Enabled(cfg, View(), e) {
          ForeignKeeps(cfg, View(), me, e);
          Perform(e);
        }
      }
    }

    // ---------- the page processor ----------

    /** Slices of at most BATCH targets. */
    static method CutBatches(news: seq<Target>) returns (batches: seq<seq<Target>>)
      ensures batches == Chunk(news, BATCH)
    {
      batches := [];
      var i := 0;
      while i < |news|
        invariant i <= |news|
        invariant batches + Chunk(news[i..], BATCH) == Chunk(news, BATCH)
      {
        var end := if i + BATCH < |news| then i + BATCH else |news|;
        CutStep(batches, news, i, end);
        batches := batches + [news[i..end]];
        i := end;
      }
      assert news[i..] == [];
    }

    method EnqueueBatches(page: Page, batches: seq<seq<Target>>)
      requires Valid() && page in pages.phase && page in pages.jobs
      requires pages.phase[page].Batching? && pages.phase[page].batches == batches != []
      modifies this
      ensures Valid() && old(log) <= log
      ensures Holds(page, Expanding(old(pages.phase[page]).lane, old(pages.phase[page]).links, []))
    {
      var lane, internal := pages.phase[page].lane, pages.phase[page].links;
      for b := 0 to |batches|
        invariant Valid() && old(log) <= log
        invariant Holds(page, if b < |batches| then Batching(lane, batches[b..], internal)
                              else Expanding(lane, internal, []))
      {
        EnqueueLinkCheck(page, batches[b]);
        assert batches[b..][1..] == batches[b + 1..];
        Interference(PageWorker(page));
      }
    }

    /** A new set of the targets keeps the first of each. */
    static method RemoveRepeats(all: seq<Target>) returns (targets: seq<Target>)
      ensures targets == Unique(all) && Distinct(targets) && SetOf(targets) == SetOf(all)
    {
      targets := [];
      for i := 0 to |all|
        invariant targets == Unique(all[..i])
      {
        UniqueAre(all[..i]);
        assert all[..i + 1][..i] == all[..i];
        if all[i] !in targets {
          targets := targets + [all[i]];
        }
      }
      assert all[..|all|] == all;
      UniqueAre(all);
      UniqueIsDistinct(all);
    }

    /** Removes repeated link targets of the page, marks the rest, counts the batches of new ones, then
        queues them. */
    method EnqueueLinkTargets(page: Page, hrefs: seq<Target>)
      requires Valid() && page in pages.phase && page in pages.jobs
      requires pages.phase[page].Persisted? && pages.phase[page].targets == hrefs
      modifies this
      ensures Valid() && old(log) <= log
      ensures Holds(page, Expanding(old(pages.phase[page]).lane, old(pages.phase[page]).links, []))
    {
      var targets := RemoveRepeats(hrefs);
      var news := MarkLinkTargetsNew(page, targets);
      var batches := CutBatches(news);
      Interference(PageWorker(page));
      if |batches| > 0 {
        IncrLinkBatches(page, |batches|);
        Interference(PageWorker(page));
        EnqueueBatches(page, batches);
      }
    }

    method MarkOne(page: Page, ghost lane: Lane, internal: seq<Page>, i: nat, newJobs: seq<Page>)
      returns (more: seq<Page>)
      requires Valid() && i < |internal| && Holds(page, Expanding(lane, internal[i..], newJobs))
      modifies this
      ensures Valid() && old(log) <= log && Holds(page, Expanding(lane, internal[i + 1..], more))
    {
      var added := MarkSeen(page, internal[i]);
      more := if added then newJobs + [internal[i]] else newJobs;
      assert internal[i..][1..] == internal[i + 1..];
      Interference(PageWorker(page));
    }

    /** Marks each in-scope link; returns the ones that were new. */
    method MarkLinks(page: Page, internal: seq<Page>) returns (newJobs: seq<Page>)
      requires Valid() && page in pages.phase && page in pages.jobs
      requires pages.phase[page].Expanding? && pages.phase[page].links == internal && pages.phase[page].found == []
      modifies this
      ensures Valid() && old(log) <= log
      ensures Holds(page, Expanding(old(pages.phase[page]).lane, [], newJobs))
    {
      ghost var lane := pages.phase[page].lane;
      newJobs := [];
      for i := 0 to |internal|
        invariant Valid() && old(log) <= log
        invariant Holds(page, Expanding(lane, internal[i..], newJobs))
      {
        newJobs := MarkOne(page, lane, internal, i, newJobs);
      }
    }

    /** Counts the new links in the total, and then queues them. */
    method QueueFound(page: Page, newJobs: seq<Page>)
      requires Valid() && page in pages.phase && page in pages.jobs && newJobs != []
      requires pages.phase[page].Expanding? && pages.phase[page].links == [] && pages.phase[page].found == newJobs
      modifies this
      ensures Valid() && old(log) <= log
      ensures Holds(page, Settling(old(pages.phase[page]).lane, Crawled))
    {
      AddCounted(page, |newJobs|);
      Interference(PageWorker(page));
      EnqueuePageFetch(page, newJobs);
    }

    /** Marks each in-scope link, then counts the new ones before it queues them. */
    method ExpandDiscovery(page: Page)
      requires Valid() && page in pages.phase && page in pages.jobs
      requires pages.phase[page].Expanding? && pages.phase[page].found == []
      modifies this
      ensures Valid() && old(log) <= log
      ensures Holds(page, Settling(old(pages.phase[page]).lane, Crawled))
    {
      var newJobs := MarkLinks(page, pages.phase[page].links);
      if |newJobs| > 0 {
        QueueFound(page, newJobs);
      } else {
        Advance(page, SettleCrawled);
      }
    }

    /** The links a page may expand: internal, of its own domain and admitted by the filter; none at the
        depth limit, or of a page outside discovery. */
    static function Internal(cfg: Config, page: Page, job: Job, found: seq<Link>): (internal: seq<Page>)
      ensures forall p :: p in internal <==>
        && job.discover && job.depth < cfg.maxDepth
        && exists l <- found :: l.page == p && l.inner && l.listed && cfg.domainOf(p) == cfg.domainOf(page)
    {
      if found == [] || !job.discover || job.depth >= cfg.maxDepth then []
      else
        var l, rest := found[0], Internal(cfg, page, job, found[1..]);
        if l.inner && l.listed && cfg.domainOf(l.page) == cfg.domainOf(page) then [l.page] + rest else rest
    }

    method ValidateAndPersist(page: Page, found: seq<Link>, targets: seq<Target>)
      requires Valid() && page in pages.phase && page in pages.jobs && pages.phase[page].Cleared?
      modifies this
      ensures Valid() && old(log) <= log
      ensures Holds(page, Settling(old(pages.phase[page]).lane, Crawled))
    {
      var internal := Internal(cfg, page, pages.jobs[page], found);
      Advance(page, Persist(targets, internal));
      Interference(PageWorker(page));
      EnqueueLinkTargets(page, targets);
      Interference(PageWorker(page));
      ExpandDiscovery(page);
    }

    /** Reads the cancel flag and then the pause flag: a cancelled crawl skips the page, a paused one
        delays its job. */
    method ShouldSkip(page: Page) returns (decision: Decision)
      requires Valid() && page in pages.phase && page in pages.jobs && pages.phase[page].Processing?
      modifies this
      ensures Valid() && old(log) <= log
      ensures var lane := old(pages.phase[page]).lane; match decision
        case Skipped => Holds(page, Settling(lane, Unchanged))
        case Held => Holds(page, Waiting(lane)) && paused
        case Passed => Holds(page, Cleared(lane))
      ensures decision.Skipped? <==> old(cancelled)
    {
      if cancelled {
        Advance(page, Skip);
        return Skipped;
      }
      Advance(page, NotCancelled);
      Interference(PageWorker(page));
      if paused {
        Advance(page, Delay);
        return Held;
      }
      Advance(page, NotPaused);
      Interference(PageWorker(page));
      return Passed;
    }

    /** The static fetch path.  The rate limiter may delay the job; its verdict is an input. */
    method ProcessFetch(page: Page, rateLimited: bool, response: Response) returns (verdict: Verdict)
      requires Valid() && Holds(page, Active(FetchLane))
      modifies this
      ensures Valid() && old(log) <= log
      ensures match verdict
        case Delayed => Holds(page, Waiting(FetchLane))
        case RoutedToRender => response.NeedsRender? && Holds(page, Waiting(RenderLane))
        case Finished(outcome) =>
          && Holds(page, Settling(FetchLane, outcome))
          && (outcome.Failed? ==> response.Error?) && (outcome.Crawled? ==> response.Artifacts?)
    {
      Advance(page, Process);
      var decision := ShouldSkip(page);
      if decision.Skipped? {
        return Finished(Unchanged);
      }
      if decision.Held? {
        return Delayed;
      }
      if rateLimited {
        Advance(page, Delay);
        return Delayed;
      }
      match response
      case Error =>
        Advance(page, PersistError);
        return Finished(Failed);
      case NotModified =>
        Advance(page, CarryForward);
        return Finished(Unchanged);
      case NeedsRender =>
        Advance(page, HandOff);
        return RoutedToRender;
      case Artifacts(found, targets) =>
        ValidateAndPersist(page, found, targets);
        return Finished(Crawled);
    }

    /** The final stats first, then finalize. */
    method SignalCompletion(page: Page)
      requires Valid() && page in pages.phase && page in pages.jobs
      requires pages.phase[page].Recorded? && pages.phase[page].sawComplete
      modifies this
      ensures Valid() && old(log) <= log && Holds(page, Notified(old(pages.phase[page]).lane))
      ensures PageEvent(page, FlushStats) in log[|old(log)|..] && !ending.finalizer.FinalizeIdle?
    {
      UpdateStats(page);
      assert log[|log| - 1] == PageEvent(page, FlushStats);
      Interference(PageWorker(page));
      EnqueueFinalize(page);
    }

    /** Records the outcome and, when the counters say the crawl is complete, writes the final stats and
        then queues finalize. */
    method FinishPage(page: Page, outcome: Outcome)
      requires Valid() && page in pages.phase && page in pages.jobs
      requires pages.phase[page].Settling? && pages.phase[page].outcome == outcome
      modifies this
      ensures Valid() && old(log) <= log && page in pages.phase && page in pages.jobs && pages.phase[page].Done?
      ensures pages.phase[page].signalled <==> old(counters).Count(outcome).IsComplete()
      ensures pages.phase[page].signalled ==>
        PageEvent(page, FlushStats) in log[|old(log)|..] && !ending.finalizer.FinalizeIdle?
    {
      var now := RecordPage(page, outcome);
      Interference(PageWorker(page));
      if now.IsComplete() {
        SignalCompletion(page);
        Interference(PageWorker(page));
      }
      Advance(page, Acknowledge);
    }

    /** One delivery of a page-fetch job. */
    method FetchJob(page: Page, rateLimited: bool, response: Response)
      requires Valid() && Holds(page, Active(FetchLane))
      modifies this
      ensures Valid() && old(log) <= log && page in pages.phase
      ensures pages.phase[page].Done? || pages.phase[page] == Waiting(FetchLane) ||
              (response.NeedsRender? && pages.phase[page] == Waiting(RenderLane))
    {
      var verdict := ProcessFetch(page, rateLimited, response);
      if verdict.Finished? {
        Interference(PageWorker(page));
        FinishPage(page, verdict.outcome);
      }
    }

    /** The page once rendered: the flags are looked at again. */
    method ProcessRendered(page: Page, response: Response) returns (verdict: Verdict)
      requires Valid() && Holds(page, Processing(RenderLane)) && !response.NeedsRender?
      modifies this
      ensures Valid() && old(log) <= log && !verdict.RoutedToRender?
      ensures verdict.Delayed? ==> Holds(page, Waiting(RenderLane))
      ensures verdict.Finished? ==> Holds(page, Settling(RenderLane, verdict.outcome))
    {
      var decision := ShouldSkip(page);
      if decision.Held? {
        return Delayed;
      }
      if decision.Skipped? {
        return Finished(Unchanged);
      }
      match response
      case Error =>
        Advance(page, PersistError);
        return Finished(Failed);
      case NotModified =>
        Advance(page, CarryForward);
        return Finished(Unchanged);
      case Artifacts(found, targets) =>
        ValidateAndPersist(page, found, targets);
        return Finished(Crawled);
    }

    /** One delivery of a page-render job: a cancelled crawl drops the page unrecorded. */
    method RenderJob(page: Page, response: Response)
      requires Valid() && Holds(page, Active(RenderLane)) && !response.NeedsRender?
      modifies this
      ensures Valid() && old(log) <= log && page in pages.phase
      ensures pages.phase[page].Done? || pages.phase[page] == Waiting(RenderLane) || pages.phase[page].Dropped?
      ensures pages.phase[page].Dropped? <==> old(cancelled)
    {
      if cancelled {
        Advance(page, DropRender);
        return;
      }
      Advance(page, Process);
      Interference(PageWorker(page));
      var verdict := ProcessRendered(page, response);
      if verdict.Finished? {
        Interference(PageWorker(page));
        FinishPage(page, verdict.outcome);
      }
    }

    // ---------- the other processors ----------

    /** Sets the counters to the seeds' number and no outcomes, whatever they were. */
    method Init(seeds: seq<Page>)
      requires Valid() && OrchestratorEnabled(View(), InitCounters(seeds))
      modifies this`counters, this`pages, this`past, this`log
      ensures Valid() && View() == ApplyOrchestrator(cfg, old(View()), InitCounters(seeds))
      ensures log == old(log) + [Event.Orchestrate(InitCounters(seeds))]
    {
      past := ForgetCounters(past, counters, pages.phase == map[]);
      counters := Counters(|seeds|, 0, 0, 0);
      pages := pages.(orchestrator := Initialised(seeds));
      Commit(Event.Orchestrate(InitCounters(seeds)));
    }

    /** One bulk add of the seeds' jobs; those queued by an earlier attempt are refused. */
    method EnqueueSeeds(seeds: seq<Page>)
      requires Valid() && OrchestratorEnabled(View(), QueueSeeds) && seeds == pages.orchestrator.seeds
      modifies this`pages, this`log
      ensures Valid() && View() == ApplyOrchestrator(cfg, old(View()), QueueSeeds)
      ensures log == old(log) + [Event.Orchestrate(QueueSeeds)]
      ensures SetOf(seeds) <= pages.phase.Keys && forall p <- old(pages.phase) :: pages.phase[p] == old(pages.phase)[p]
    {
      pages := AddBulk(pages.(orchestrator := Returned), seeds, SeedJob(cfg));
      Commit(Event.Orchestrate(QueueSeeds));
    }

    method MarkNext(seeds: seq<Page>, i: nat)
      requires Valid() && i < |seeds| && pages.orchestrator == Seeding(seeds, i)
      modifies this`seen, this`pages, this`log
      ensures Valid() && View() == ApplyOrchestrator(cfg, old(View()), MarkSeed)
      ensures log == old(log) + [Event.Orchestrate(MarkSeed)]
    {
      seen := seen + {seeds[i]};
      pages := pages.(orchestrator := Seeding(seeds, i + 1));
      Commit(Event.Orchestrate(MarkSeed));
    }

    /** Marks each seed as seen, with other workers in between. */
    method MarkSeeds(seeds: seq<Page>)
      requires Valid() && pages.orchestrator == Seeding(seeds, 0)
      modifies this
      ensures Valid() && old(log) <= log && pages.orchestrator == Seeding(seeds, |seeds|)
    {
      for i := 0 to |seeds|
        invariant Valid() && old(log) <= log && pages.orchestrator == Seeding(seeds, i)
      {
        MarkNext(seeds, i);
        Interference(OrchestratorWorker);
      }
    }

    /** Finds the crawl not cancelled, or its website there. */
    method Attempt(step: OrchestratorStep)
      requires Valid() && OrchestratorEnabled(View(), step) && (step.Begin? || step.FindWebsite?)
      modifies this`pages, this`log
      ensures Valid() && View() == ApplyOrchestrator(cfg, old(View()), step)
      ensures log == old(log) + [Event.Orchestrate(step)]
    {
      pages := pages.(orchestrator := if step.Begin? then Begun else Resolving);
      Commit(Event.Orchestrate(step));
    }

    /** Ends an attempt that queues nothing. */
    method Leave(step: OrchestratorStep)
      requires Valid() && OrchestratorEnabled(View(), step) && (step.GiveUp? || step.EndEmpty?)
      modifies this`pages, this`log
      ensures Valid() && View() == ApplyOrchestrator(cfg, old(View()), step)
      ensures log == old(log) + [Event.Orchestrate(step)]
    {
      pages := pages.(orchestrator := Returned);
      Commit(Event.Orchestrate(step));
    }

    /** Writes the crawl's stats with no outcomes, whatever they were. */
    method InitStats(seeds: seq<Page>)
      requires Valid() && OrchestratorEnabled(View(), ResetStats) && seeds == pages.orchestrator.seeds
      modifies this`ending, this`pages, this`log
      ensures Valid() && View() == ApplyOrchestrator(cfg, old(View()), ResetStats)
      ensures log == old(log) + [Event.Orchestrate(ResetStats)]
    {
      ending := ending.(statsComplete := false);
      pages := pages.(orchestrator := Seeding(seeds, 0));
      Commit(Event.Orchestrate(ResetStats));
    }

    /** From the counters to the bulk add. */
    method Seed(seeds: seq<Page>)
      requires Valid() && pages.orchestrator == Initialised(seeds) && seeds != []
      modifies this
      ensures Valid() && old(log) <= log && pages.orchestrator.Returned?
      ensures SetOf(seeds) <= pages.phase.Keys
    {
      InitStats(seeds);
      Interference(OrchestratorWorker);
      MarkSeeds(seeds);
      EnqueueSeeds(seeds);
    }

    /** Reads the cancel flag and then the website's row. */
    method MaySeed() returns (goes: bool)
      requires Valid() && pages.orchestrator.Idle?
      modifies this
      ensures Valid() && old(log) <= log
      ensures pages.orchestrator == if goes then Resolving else Returned
      ensures old(cancelled) ==> !goes && log == old(log) + [Event.Orchestrate(GiveUp)]
      ensures !old(links).website ==> !goes
      ensures !goes && !old(cancelled) ==> !links.website
    {
      if cancelled {
        Leave(GiveUp);
        return false;
      }
      Attempt(Begin);
      Interference(OrchestratorWorker);
      if !links.website {
        Leave(GiveUp);
        return false;
      }
      Attempt(FindWebsite);
      return true;
    }

    /** One delivery of the orchestrate job, the first or a later one: counts the seeds, resets the
        stats, marks each seed as seen, and only then queues their jobs. */
    method Orchestrate(seeds: seq<Page>) returns (resolved: nat)
      requires Valid() && pages.orchestrator.Idle? && Distinct(seeds)
      modifies this
      ensures Valid() && old(log) <= log && pages.orchestrator.Returned?
      ensures old(cancelled) ==> resolved == 0 && log == old(log) + [Event.Orchestrate(GiveUp)]
      ensures !old(links).website ==> resolved == 0
      ensures resolved == 0 || (resolved == |seeds| && SetOf(seeds) <= pages.phase.Keys)
      ensures resolved == 0 && !old(cancelled) ==> seeds == [] || !links.website
    {
      var goes := MaySeed();
      if !goes {
        return 0;
      }
      Interference(OrchestratorWorker);
      Init(seeds);
      Interference(OrchestratorWorker);
      if |seeds| == 0 {
        Leave(EndEmpty);
      } else {
        Seed(seeds);
      }
      return |seeds|;
    }

    /** Asks for each target in order. */
    static method CheckTargets(net: Net, urls: seq<Target>) returns (results: seq<CheckResult>)
      ensures |results| == |urls|
      ensures forall i :: 0 <= i < |urls| ==> results[i].url == urls[i] && Tells(net, results[i])
    {
      results := [];
      for i := 0 to |urls|
        invariant |results| == i
        invariant forall k :: 0 <= k < i ==> results[k].url == urls[k] && Tells(net, results[k])
      {
        var res := net.head(urls[i]);
        if res.status == 405 || res.status == 501 || (res.status == 0 && res.failed) {
          res := net.get(urls[i]);
        }
        var ok := res.ok || 200 <= res.status < 400;
        results := results + [CheckResult(urls[i], res.status, ok, net.inner(urls[i]), res.hops)];
      }
    }

    /** One delivery of a link-check job: a row for each target first, then the count is given back. */
    method CheckLinks(index: nat, net: Net) returns (results: seq<CheckResult>)
      requires Valid() && index < |links.jobs| && links.jobs[index].stage.LinkActive?
      modifies this
      ensures Valid() && old(log) <= log && index < |links.jobs|
      ensures links.jobs[index] == old(links.jobs[index]).(stage := LinkCounted)
      ensures old(links.website) ==> SetOf(links.jobs[index].urls) <= links.rows
      ensures |results| == if old(links.website) then |links.jobs[index].urls| else 0
      ensures forall i :: 0 <= i < |results| ==> results[i].url == links.jobs[index].urls[i] && Tells(net, results[i])
    {
      if !links.website {
        Perform(LinkEvent(index, SkipLinks));
        return [];
      }
      Perform(LinkEvent(index, FindSite));
      results := CheckTargets(net, links.jobs[index].urls);
      Interference(LinkWorker(index));
      Perform(LinkEvent(index, InsertRows));
      Interference(LinkWorker(index));
      Perform(LinkEvent(index, Decrement));
    }

    /** The gate of a finalize job: cancelled, made to wait, or through. */
    method FinalizeGate(kept: bool) returns (passed: bool)
      requires Valid() && ending.finalizer.FinalizeActive?
      modifies this
      ensures Valid() && old(log) <= log
      ensures passed <==> ending.finalizer.FinalizeRunning?
      ensures old(cancelled) ==> !passed && ending.finalizer.FinalizeDone?
      ensures ending.finalizer.FinalizeQueued? ==> old(ending.finalizer).waits < MAX_LINK_WAITS
    {
      if cancelled {
        Perform(FinalizeEvent(CancelFinalize));
        return false;
      }
      Perform(FinalizeEvent(ClearFinalize));
      Interference(FinalizeWorker);
      if linkBatches > 0 && ending.finalizer.waits < MAX_LINK_WAITS {
        Perform(FinalizeEvent(Wait(kept)));
        return false;
      }
      Perform(FinalizeEvent(PassGate));
      return true;
    }
  }

  lemma ForeignKeeps(cfg: Config, s: State, me: Actor, e: Event)
    requires Stakes(s, me) && Enabled(cfg, s, e) && Foreign(me, e)
    ensures Stakes(Apply(cfg, s, e), me) && Kept(s, Apply(cfg, s, e), me)
  {
  }

  lemma {:induction false} ChunkStep<T>(items: seq<T>, n: nat)
    requires items != [] && n == if BATCH < |items| then BATCH else |items|
    ensures Chunk(items, BATCH) == [items[..n]] + Chunk(items[n..], BATCH)
  {
    assert n == |items| ==> items[..n] == items && Chunk(items[n..], BATCH) == [];
  }

  lemma CutStep<T>(batches: seq<seq<T>>, news: seq<T>, i: nat, end: nat)
    requires i < |news| && end == if i + BATCH < |news| then i + BATCH else |news|
    ensures batches + Chunk(news[i..], BATCH) == batches + [news[i..end]] + Chunk(news[end..], BATCH)
  {
    ChunkStep(news[i..], end - i);
    assert news[i..][end - i..] == news[end..] && news[i..][..end - i] == news[i..end];
  }

  lemma {:induction false} UnmarkedAppend(targets: seq<Target>, t: Target, known: set<Target>)
    ensures Unmarked(targets + [t], known) ==
            Unmarked(targets, known) + if t in known + SetOf(Unmarked(targets, known)) then [] else [t]
    decreases |targets|
  {
    if targets == [] {
      assert targets + [t] == [t];
    } else {
      assert (targets + [t])[1..] == targets[1..] + [t];
      if targets[0] in known {
        UnmarkedAppend(targets[1..], t, known);
      } else {
        UnmarkedAppend(targets[1..], t, known + {targets[0]});
      }
    }
  }

  lemma {:induction false} UnmarkedNext(targets: seq<Target>, i: nat, known: set<Target>)
    requires i < |targets|
    ensures Unmarked(targets[..i + 1], known) == Unmarked(targets[..i], known) +
      if targets[i] in known + SetOf(Unmarked(targets[..i], known)) then [] else [targets[i]]
  {
    UnmarkedAppend(targets[..i], targets[i], known);
    assert targets[..i + 1] == targets[..i] + [targets[i]];
  }

  /** What marking a page's targets, repeats removed, makes of the state. */
  lemma {:induction false} MarkedTargets(cfg: Config, s: State, page: Page, news: seq<Target>)
    requires PageEnabled(cfg, s, page, MarkTargets)
    requires news == Unmarked(Unique(s.pages.phase[page].targets), s.redis.linkTargets)
    ensures var x := s.pages.phase[page];
      var next := if news == [] then Expanding(x.lane, x.links, []) else Marked(x.lane, Chunk(news, BATCH), x.links);
      ApplyPage(cfg, s, page, MarkTargets) ==
      s.(redis := s.redis.(linkTargets := s.redis.linkTargets + SetOf(news)),
         pages := s.pages.(phase := s.pages.phase[page := next]), past := NextHistory(cfg, s, page, MarkTargets))
  {
    UnmarkedUnique(s.pages.phase[page].targets, s.redis.linkTargets);
  }

  lemma {:induction false} UniqueIsDistinct(targets: seq<Target>)
    ensures Distinct(Unique(targets))
  {
    if targets != [] {
      UniqueIsDistinct(targets[..|targets| - 1]);
      UniqueAre(targets[..|targets| - 1]);
    }
  }

  /** Marking finds the same targets new with repeats and without. */
  lemma {:induction false} UnmarkedUnique(targets: seq<Target>, known: set<Target>)
    ensures Unmarked(Unique(targets), known) == Unmarked(targets, known)
  {
    if targets != [] {
      var before, last := targets[..|targets| - 1], targets[|targets| - 1];
      UnmarkedUnique(before, known);
      UnmarkedAppend(before, last, known);
      assert targets == before + [last];
      if last !in before {
        UnmarkedAppend(Unique(before), last, known);
      }
    }
  }
}
