/** The link-check side of a crawl: where each marked target is, and how the outstanding-batch
    counter relates to the work that is left. */
module CrawlLinks {
  import opened Sequences
  import opened Sums
  import opened CrawlProtocol
  import opened CrawlSafety

  /** Jobs that have not given back their count. */
  function Pending(jobs: seq<LinkJob>): nat {
    if jobs == [] then 0
    else (if jobs[|jobs| - 1].stage.LinkCounted? then 0 else 1) + Pending(jobs[..|jobs| - 1])
  }

  /** The counter is the work left, plus leaked counts, minus counts given back twice. */
  ghost predicate Counted(s: State) {
    s.redis.linkBatches + s.past.overcounted ==
    Sum(s.pages.phase, CountedBatches) + Pending(s.links.jobs) + s.past.leaked
  }

  predicate BatchSized(urls: seq<Target>) {
    0 < |urls| <= BATCH
  }

  predicate PhaseSized(x: Phase) {
    && (forall b <- HeldBatches(x) :: BatchSized(b))
    && (x.Marked? || x.Batching? ==> HeldBatches(x) != [])
  }

  ghost predicate Checked(s: State) {
    && (forall j <- s.links.jobs :: BatchSized(j.urls))
    && (forall p <- s.pages.phase :: PhaseSized(s.pages.phase[p]))
    && (forall j <- s.links.jobs :: j.stage.LinkInserted? || j.stage.LinkCounted? ==>
          SetOf(j.urls) <= s.links.rows + s.past.skipped)
  }

  ghost predicate HeldBy(place: map<Target, Place>, p: Page, x: Phase) {
    Distinct(Held(x)) && forall t <- Held(x) :: t in place && place[t] == OnPage(p)
  }

  ghost predicate HandedIn(place: map<Target, Place>, i: nat, job: LinkJob) {
    Distinct(job.urls) && forall t <- job.urls :: t in place && place[t] == InJob(i)
  }

  ghost predicate PlaceIsTrue(s: State, t: Target)
    requires t in s.past.place
  {
    match s.past.place[t]
    case OnPage(p) => p in s.pages.phase && t in Held(s.pages.phase[p])
    case InJob(i) => i < |s.links.jobs| && t in s.links.jobs[i].urls
    case Lost => true
  }

  /** Each target ever marked is in exactly the one place the history gives. */
  ghost predicate Placed(s: State) {
    && (!s.ending.cleaned ==> s.redis.linkTargets == s.past.place.Keys)
    && (forall p <- s.pages.phase :: HeldBy(s.past.place, p, s.pages.phase[p]))
    && (forall i :: 0 <= i < |s.links.jobs| ==> HandedIn(s.past.place, i, s.links.jobs[i]))
    && (forall t <- s.past.place :: PlaceIsTrue(s, t))
  }

  ghost predicate Linked(s: State) {
    && Counted(s) && Checked(s)
    && (Clean(s.past) ==> Placed(s))
  }

  lemma {:induction false} PendingUpdate(jobs: seq<LinkJob>, i: nat, stage: LinkStage)
    requires i < |jobs|
    ensures Pending(jobs[i := jobs[i].(stage := stage)])
         == Pending(jobs) - (if jobs[i].stage.LinkCounted? then 0 else 1) + (if stage.LinkCounted? then 0 else 1)
  {
    var updated := jobs[i := jobs[i].(stage := stage)];
    var n := |jobs| - 1;
    if i < n {
      PendingUpdate(jobs[..n], i, stage);
      assert updated[..n] == jobs[..n][i := jobs[i].(stage := stage)];
    } else {
      assert updated[..n] == jobs[..n];
    }
  }

  lemma {:induction false} NonePending(jobs: seq<LinkJob>, i: nat)
    requires Pending(jobs) == 0 && i < |jobs|
    ensures jobs[i].stage.LinkCounted?
  {
    if i < |jobs| - 1 {
      NonePending(jobs[..|jobs| - 1], i);
    }
  }

  lemma CountedPage(cfg: Config, s: State, page: Page, step: PageStep)
    requires Counted(s) && PageEnabled(cfg, s, page, step)
    ensures Counted(ApplyPage(cfg, s, page, step))
  {
    SumUpdate(s.pages.phase, CountedBatches, page, NextPhase(cfg, s, page, step));
    if step.QueueChildren? {
      var q := s.pages.(phase := s.pages.phase[page := NextPhase(cfg, s, page, step)]);
      AddJobsKeepsSum(q, s.pages.phase[page].found, ChildJob(s.pages.jobs[page]), CountedBatches);
    } else if step.QueueBatch? {
      var job := LinkJob(s.pages.phase[page].batches[0], LinkWaiting);
      assert (s.links.jobs + [job])[..|s.links.jobs|] == s.links.jobs;
    }
  }

  lemma NextPhaseSized(cfg: Config, s: State, page: Page, step: PageStep)
    requires PageEnabled(cfg, s, page, step) && PhaseSized(s.pages.phase[page])
    ensures PhaseSized(NextPhase(cfg, s, page, step))
    ensures step.QueueBatch? ==> BatchSized(s.pages.phase[page].batches[0])
  {
  }

  /** New jobs wait, new batches are sized, and no row is lost. */
  lemma CheckedFrame(s: State, t: State)
    requires Checked(s)
    requires t.links.rows == s.links.rows && t.past.skipped == s.past.skipped
    requires forall j <- t.links.jobs :: j in s.links.jobs || (j.stage.LinkWaiting? && BatchSized(j.urls))
    requires forall p <- t.pages.phase ::
      (p in s.pages.phase && t.pages.phase[p] == s.pages.phase[p]) || PhaseSized(t.pages.phase[p])
    ensures Checked(t)
  {
  }

  lemma PhasesAfter(cfg: Config, s: State, page: Page, step: PageStep)
    requires PageEnabled(cfg, s, page, step)
    ensures var t := ApplyPage(cfg, s, page, step);
      && t.links.rows == s.links.rows && t.past.skipped == s.past.skipped
      && (forall p <- t.pages.phase :: p != page ==>
            (p in s.pages.phase && t.pages.phase[p] == s.pages.phase[p]) || t.pages.phase[p] == Waiting(FetchLane))
      && t.pages.phase[page] == NextPhase(cfg, s, page, step)
  {
  }

  lemma CheckedPage(cfg: Config, s: State, page: Page, step: PageStep)
    requires Checked(s) && PageEnabled(cfg, s, page, step)
    ensures Checked(ApplyPage(cfg, s, page, step))
  {
    NextPhaseSized(cfg, s, page, step);
    PhasesAfter(cfg, s, page, step);
    CheckedFrame(s, ApplyPage(cfg, s, page, step));
  }

  /** Marking moves new targets onto the page. */
  lemma PlacedMarkTargets(cfg: Config, s: State, page: Page)
    requires Placed(s) && !s.ending.cleaned && PageEnabled(cfg, s, page, MarkTargets)
    ensures Placed(ApplyPage(cfg, s, page, MarkTargets))
  {
    var t := ApplyPage(cfg, s, page, MarkTargets);
    var news := Unmarked(s.pages.phase[page].targets, s.redis.linkTargets);
    assert HeldBy(t.past.place, page, t.pages.phase[page]);
    forall p <- t.pages.phase
      ensures HeldBy(t.past.place, p, t.pages.phase[p])
    {
      assert HeldBy(s.past.place, p, s.pages.phase[p]);
    }
    forall i | 0 <= i < |t.links.jobs|
      ensures HandedIn(t.past.place, i, t.links.jobs[i])
    {
      assert HandedIn(s.past.place, i, s.links.jobs[i]);
    }
    forall u <- t.past.place
      ensures PlaceIsTrue(t, u)
    {
      if u in s.past.place {
        assert PlaceIsTrue(s, u);
      }
    }
  }

  /** The first batch of what a page holds, and the rest. */
  lemma BatchParts(place: map<Target, Place>, page: Page, x: Phase)
    requires x.Batching? && x.batches != [] && HeldBy(place, page, x)
    ensures Held(x) == x.batches[0] + Flatten(x.batches[1..])
    ensures Distinct(x.batches[0]) && Distinct(Flatten(x.batches[1..]))
    ensures forall t <- x.batches[0] :: t !in Flatten(x.batches[1..]) && t in place && place[t] == OnPage(page)
    ensures forall t <- Flatten(x.batches[1..]) :: t in place && place[t] == OnPage(page)
  {
    DistinctParts(x.batches[0], Flatten(x.batches[1..]));
  }

  lemma HandedAfterBatch(cfg: Config, s: State, page: Page)
    requires Placed(s) && PageEnabled(cfg, s, page, QueueBatch)
    ensures var t := ApplyPage(cfg, s, page, QueueBatch);
      forall i :: 0 <= i < |t.links.jobs| ==> HandedIn(t.past.place, i, t.links.jobs[i])
  {
    var t := ApplyPage(cfg, s, page, QueueBatch);
    BatchParts(s.past.place, page, s.pages.phase[page]);
    forall i | 0 <= i < |t.links.jobs|
      ensures HandedIn(t.past.place, i, t.links.jobs[i])
    {
      if i < |s.links.jobs| {
        assert HandedIn(s.past.place, i, s.links.jobs[i]);
      }
    }
  }

  /** Queueing moves the first batch into a new link-check job. */
  lemma PlacedQueueBatch(cfg: Config, s: State, page: Page)
    requires Placed(s) && PageEnabled(cfg, s, page, QueueBatch)
    ensures Placed(ApplyPage(cfg, s, page, QueueBatch))
  {
    var t := ApplyPage(cfg, s, page, QueueBatch);
    var x := s.pages.phase[page];
    HandedAfterBatch(cfg, s, page);
    BatchParts(s.past.place, page, x);
    assert Held(t.pages.phase[page]) == Flatten(x.batches[1..]);
    forall p <- t.pages.phase
      ensures HeldBy(t.past.place, p, t.pages.phase[p])
    {
      assert HeldBy(s.past.place, p, s.pages.phase[p]);
    }
    forall u <- t.past.place
      ensures PlaceIsTrue(t, u)
    {
      assert PlaceIsTrue(s, u);
    }
  }

  lemma DistinctParts<T>(a: seq<T>, b: seq<T>)
    requires Distinct(a + b)
    ensures Distinct(a) && Distinct(b) && forall x <- a :: x !in b
  {
    var all := a + b;
    forall i, j | 0 <= i < |a| && 0 <= j < |b|
      ensures a[i] != b[j]
    {
      assert all[i] == a[i] && all[|a| + j] == b[j];
    }
    forall i, j | 0 <= i < j < |b|
      ensures b[i] != b[j]
    {
      assert all[|a| + i] == b[i] && all[|a| + j] == b[j];
    }
    forall i, j | 0 <= i < j < |a|
      ensures a[i] != a[j]
    {
      assert all[i] == a[i] && all[j] == a[j];
    }
  }

  /** A dying worker loses exactly what it held. */
  lemma PlacedLoss(cfg: Config, s: State, page: Page, step: PageStep)
    requires Placed(s) && PageEnabled(cfg, s, page, step) && (step.Crash? || step.Abandon?)
    ensures Placed(ApplyPage(cfg, s, page, step))
  {
    var t := ApplyPage(cfg, s, page, step);
    assert HeldBy(s.past.place, page, s.pages.phase[page]);
    forall p <- t.pages.phase
      ensures HeldBy(t.past.place, p, t.pages.phase[p])
    {
      assert HeldBy(s.past.place, p, s.pages.phase[p]);
    }
    forall i | 0 <= i < |t.links.jobs|
      ensures HandedIn(t.past.place, i, t.links.jobs[i])
    {
      assert HandedIn(s.past.place, i, s.links.jobs[i]);
    }
    forall u <- t.past.place
      ensures PlaceIsTrue(t, u)
    {
      assert PlaceIsTrue(s, u);
    }
  }

  /** Steps that move no target. */
  lemma PlacedFrame(s: State, t: State)
    requires Placed(s)
    requires t.past.place == s.past.place
    requires t.ending.cleaned || (t.redis.linkTargets == s.redis.linkTargets && !s.ending.cleaned)
    requires s.pages.phase.Keys <= t.pages.phase.Keys
    requires forall p <- t.pages.phase ::
      Held(t.pages.phase[p]) == if p in s.pages.phase then Held(s.pages.phase[p]) else []
    requires |t.links.jobs| == |s.links.jobs|
    requires forall i :: 0 <= i < |s.links.jobs| ==> t.links.jobs[i].urls == s.links.jobs[i].urls
    ensures Placed(t)
  {
    forall p <- t.pages.phase
      ensures HeldBy(t.past.place, p, t.pages.phase[p])
    {
      if p in s.pages.phase {
        assert HeldBy(s.past.place, p, s.pages.phase[p]);
      }
    }
    forall i | 0 <= i < |t.links.jobs|
      ensures HandedIn(t.past.place, i, t.links.jobs[i])
    {
      assert HandedIn(s.past.place, i, s.links.jobs[i]);
    }
    forall u <- t.past.place
      ensures PlaceIsTrue(t, u)
    {
      assert PlaceIsTrue(s, u);
    }
  }

  lemma OtherStepsMoveNothing(cfg: Config, s: State, page: Page, step: PageStep)
    requires PageEnabled(cfg, s, page, step)
    requires !step.MarkTargets? && !step.QueueBatch? && !step.Crash? && !step.Abandon?
    ensures HeldBatches(NextPhase(cfg, s, page, step)) == HeldBatches(s.pages.phase[page])
    ensures NextHistory(cfg, s, page, step).place == s.past.place
    ensures NextRedis(cfg, s, page, step).linkTargets == s.redis.linkTargets
    ensures NextLinks(cfg, s, page, step) == s.links
    ensures NextEnding(cfg, s, page, step).cleaned == s.ending.cleaned
    ensures Clean(NextHistory(cfg, s, page, step)) == Clean(s.past)
  {
  }

  lemma PlacedOther(cfg: Config, s: State, page: Page, step: PageStep)
    requires Placed(s) && PageEnabled(cfg, s, page, step)
    requires !step.MarkTargets? && !step.QueueBatch? && !step.Crash? && !step.Abandon?
    ensures Placed(ApplyPage(cfg, s, page, step))
  {
    OtherStepsMoveNothing(cfg, s, page, step);
    var next := NextPhase(cfg, s, page, step);
    var t := ApplyPage(cfg, s, page, step);
    forall p <- t.pages.phase
      ensures Held(t.pages.phase[p]) == if p in s.pages.phase then Held(s.pages.phase[p]) else []
    {
      if p == page {
        assert t.pages.phase[p] == next;
      }
    }
    PlacedFrame(s, t);
  }

  lemma PlacedPage(cfg: Config, s: State, page: Page, step: PageStep)
    requires Accounted(s) && Signalled(s) && PageEnabled(cfg, s, page, step) && Clean(s.past)
    requires Placed(s) && Checked(s)
    ensures Placed(ApplyPage(cfg, s, page, step))
  {
    if step.MarkTargets? {
      if s.ending.cleaned {
        CleanedOwesNothing(s);
      } else {
        PlacedMarkTargets(cfg, s, page);
      }
    } else if step.QueueBatch? {
      PlacedQueueBatch(cfg, s, page);
    } else if step.Crash? || step.Abandon? {
      PlacedLoss(cfg, s, page, step);
    } else {
      PlacedOther(cfg, s, page, step);
    }
  }

  lemma LinkedPage(cfg: Config, s: State, page: Page, step: PageStep)
    requires Accounted(s) && Signalled(s) && Linked(s) && PageEnabled(cfg, s, page, step)
    ensures Linked(ApplyPage(cfg, s, page, step))
  {
    CountedPage(cfg, s, page, step);
    CheckedPage(cfg, s, page, step);
    if Clean(s.past) {
      PlacedPage(cfg, s, page, step);
    }
  }

  lemma CountedLink(s: State, index: nat, step: LinkStep)
    requires Counted(s) && LinkEnabled(s.links, index, step)
    ensures Counted(ApplyLink(s, index, step))
  {
    PendingUpdate(s.links.jobs, index, NextStage(step));
  }

  lemma CheckedLink(s: State, index: nat, step: LinkStep)
    requires Checked(s) && LinkEnabled(s.links, index, step)
    ensures Checked(ApplyLink(s, index, step))
  {
    var job, t := s.links.jobs[index], ApplyLink(s, index, step);
    assert job in s.links.jobs;
    assert forall j <- t.links.jobs :: j in s.links.jobs || j == job.(stage := NextStage(step));
  }

  lemma LinkedLink(cfg: Config, s: State, index: nat, step: LinkStep)
    requires Linked(s) && LinkEnabled(s.links, index, step)
    ensures Linked(ApplyLink(s, index, step))
  {
    CountedLink(s, index, step);
    CheckedLink(s, index, step);
    if Clean(s.past) {
      PlacedFrame(s, ApplyLink(s, index, step));
    }
  }

  lemma CountedOrchestrator(cfg: Config, s: State, step: OrchestratorStep)
    requires Counted(s) && OrchestratorEnabled(s, step)
    ensures Counted(ApplyOrchestrator(cfg, s, step))
  {
    if step.QueueSeeds? {
      AddJobsKeepsSum(s.pages.(orchestrator := Returned), s.pages.orchestrator.seeds, SeedJob(cfg), CountedBatches);
    }
  }

  /** Seeding leaves links, places and what running pages hold alone. */
  lemma SeedingKeeps(cfg: Config, s: State, step: OrchestratorStep)
    requires OrchestratorEnabled(s, step)
    ensures var t := ApplyOrchestrator(cfg, s, step);
      && t.links == s.links && t.redis.linkTargets == s.redis.linkTargets && t.ending.cleaned == s.ending.cleaned
      && t.past.place == s.past.place && t.past.skipped == s.past.skipped && (Clean(t.past) ==> Clean(s.past))
      && s.pages.phase.Keys <= t.pages.phase.Keys
      && forall p <- t.pages.phase ::
        (p in s.pages.phase && t.pages.phase[p] == s.pages.phase[p]) || t.pages.phase[p] == Waiting(FetchLane)
  {
  }

  lemma LinkedOrchestrator(cfg: Config, s: State, step: OrchestratorStep)
    requires Linked(s) && OrchestratorEnabled(s, step)
    ensures Linked(ApplyOrchestrator(cfg, s, step))
  {
    var t := ApplyOrchestrator(cfg, s, step);
    CountedOrchestrator(cfg, s, step);
    SeedingKeeps(cfg, s, step);
    CheckedFrame(s, t);
    if Clean(t.past) {
      PlacedFrame(s, t);
    }
  }

  lemma LinkedStep(cfg: Config, s: State, e: Event)
    requires Accounted(s) && Signalled(s) && Linked(s) && Enabled(cfg, s, e)
    ensures Linked(Apply(cfg, s, e))
  {
    match e
    case PageEvent(page, step) => LinkedPage(cfg, s, page, step);
    case LinkEvent(index, step) => LinkedLink(cfg, s, index, step);
    case Orchestrate(step) => LinkedOrchestrator(cfg, s, step);
    case _ =>
      if Clean(s.past) {
        PlacedFrame(s, Apply(cfg, s, e));
      }
  }
}
