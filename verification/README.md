# Verified model of the crawler

This project models, in Dafny, the parts of the SEO crawler whose correctness is least visible from
any one function, and proves what they promise.

**The crawl protocol.** `CrawlProtocol` is one crawl as a state machine over its Redis keys, its queues
and the progress of every job. One event is one Redis command or `MULTI` block, one queue operation, or
one failure of a worker, so a sequence of events is an interleaving of any number of workers. Each flag
or row that decides what a worker does is read in a step of its own, so no worker acts on a flag that it
did not find set. Any job may be delivered again until it is acknowledged, the orchestrate job included,
or be given up for good. `CrawlSafety` and `CrawlLinks` hold the invariants and show that every event
keeps them; `CrawlTheorems` states what follows over whole runs, `CrawlFailures` the runs in which a
promise fails, `CrawlRestart` when an orchestrate job that is run again causes one, and `CrawlProgress`
and `CrawlEnds` that crawls end and how. `CrawlWorker` is the same protocol as the workers' own methods
over mutable fields: each command writes the fields and is logged, the invariant says that the fields
are what the log leads to, and between any two commands of a method any events of the other workers may
happen. So everything proved of all runs holds of the methods. `SeedResolver` shows that the seeds are
distinct where the protocol asks for that.

**Finalizing and persistence.** `FinalizePasses` gives the rows that each pass derives from the stored
snapshots and link checks, and `FinalizeRows` says what they are and how often; `FinalizeConverges`
shows that interrupted runs converge, `Scoring` that the rescoring query agrees with the engine, and
`Snapshots` that redelivered jobs leave the last attempt.

**Algorithms.** `SitemapWalk`, `RobotsPattern`, `RobotsRules`, `RobotsParse`, `RobotsRoundTrip`,
`RobotsTexts`, `IPv6`, `IPv6Texts`, `Percent`, `UrlScope`, `RateLimit`, `JsonCanon`, `EntityHash`,
`SchemaDiff` and `TypeHierarchy` each pair the code's loops with an independent statement of what they
decide. `Wrappers`, `Sequences`, `Text`, `Sums` and `Reachability` are shared.

Where the source mutates objects, fields or locals the model does too, and its methods are proved
against functions; the lemmas are then about those functions. No proof rests on Dafny's automatic
induction: lemmas to which it would apply turn it off, because its hypothesis over a sequence also speaks
of sequences of other types (Dafny 4.11) and can contradict what is known of the functions called.

Some results say exactly when a promise holds, with a failing case beside it:

- Completion counts can be trusted exactly while recounted pages and overwritten totals do not cover
  what is still owed (`CrawlTheorems.CompletionIsExact`). Two failures make them: a page job that dies
  between recording and acknowledging (`CrawlFailures.RecountFinalizesEarly`), and an orchestrate job
  that is run again after it queued the seeds, since it sets the counters anew
  (`CrawlFailures.RestartFinalizesEarly`). For the second, `CrawlTheorems.RestartIsExact` gives the
  condition in what was owed at the reset and the adds refused since, and
  `CrawlRestart.RestartTooSoonWhen` the one that is there to see at the reset: the crawl can look
  complete too soon exactly when more is owed than there are seeds, and as much as there are seeds by
  pages that can still be recorded.
- The workers can bring a crawl to its end, whatever failed short of recording a page twice, setting
  counters again or losing a link batch, exactly if no page's job was given up or dropped, no page of a
  cancelled crawl is in the render queue, no page in the total was never queued, and finalize has
  neither failed nor lost its signal (`CrawlEnds.CrawlCompletes`). A crawl cancelled while a page waits
  to be rendered is never done (`CrawlFailures.CancelStrandsRender`).
- A crawl in which every page is recorded finalizes unless the job that saw completion died for good
  before it queued finalize; exactly if it died before it wrote the final stats, nothing can start
  finalize any more (`CrawlTheorems.SettledSignals`, `CrawlFailures.SignalLostForever`).
- Percent normalisation preserves a path's meaning exactly when no bare `%` would be completed to an
  encoding, and is idempotent exactly when every encoding so completed is already normal
  (`Percent.DecodePreserved`, `Percent.IdempotentWhen`, `Percent.MalformedCounterexample`); such paths
  can share a normal form with others (`Percent.SameNormalFormWhen`, `Percent.FusedCounterexample`).
- `blog.example.com` shares the domain of `example.com`, but a subdomain of a two-label host whose
  first label looks like a suffix does not (`UrlScope.SubdomainShares`, `UrlScope.SuffixKeepsApart`).
- A category's seeds are distinct exactly when its entries normalize apart
  (`SeedResolver.EntriesDistinct`, `SeedResolver.EntriesRepeat`).
- The reverse of a diff is the diff the other way round exactly for entities that keep their type and
  identity or did not change (`SchemaDiff.KeptReversed`, `SchemaDiff.EmptyIdentityNotReversed`); on a
  page, two entities that did neither can make up for each other (`SchemaDiff.CompensatingReversed`).
- The rate bounds hold while the store counts an attempt before the window after its own has ended
  (`RateLimit.LateCount` shows a later one).

Code and comments differ in two places, and the model follows the code. The rescoring query is said to
mirror the engine exactly, but it weighs an unknown check ten where the engine weighs it nothing, and it
groups by check and severity where the engine groups by check; both are conditions of
`Scoring.ScoresAgree`, and `Scoring.FreshPageAgrees` shows that the runner meets the second. Duplicate
issues are inserted for every snapshot with the shared hash, also for one whose own sample is empty,
although only snapshots with a sample are counted.

## Model

| member | source | states |
|---|---|---|
| CrawlSafety.AccountedStep | apps/worker/src/crawl/page-processor.service.ts:272-350 | every event of any interleaving, redeliveries of every job included, keeps the conservation law: what queued, in-flight and render-lane pages still owe, with counted pages not yet queued, is `total - done`, plus totals overwritten and recounts, minus outcomes overwritten, refused adds, and what cancelled renders and dead workers stranded |
| CrawlTheorems.RunKeepsInvariant | apps/worker/src/crawl/page-processor.service.ts:272-350 | after any run of the protocol, whatever the interleaving, every invariant of the crawl holds |
| CrawlTheorems.CompletionIsExact | apps/worker/src/infra/crawl-state.service.ts:76-79 | over all runs: the counters look complete exactly when recounts and overwritten totals cover all that is owed, stranded, refused or overwritten, and they look complete while something is owed exactly when these cover that too |
| CrawlTheorems.NoEarlyFinalize | apps/worker/src/crawl/page-processor.service.ts:272-284 | unless a worker dies between recording and acknowledging, or the orchestrator after queueing the seeds, no finalize is ever signalled while some page is unrecorded or some counted page is not queued |
| CrawlTheorems.RedeliveryIsSafe | apps/worker/src/crawl/page-processor.service.ts:117-194 | however often jobs crash and are delivered again, `total - done` falls short of the outstanding pages by at most what was recounted or overwritten; in a crawl with neither, never |
| CrawlTheorems.RestartIsExact | apps/worker/src/processors/orchestrate.processor.ts:175-200 | after an orchestrate job is run again on a crawl with pages, and with no other failure: the crawl looks complete while something is owed exactly while no more is owed than was owed at the reset beyond the adds refused since; so never if as many adds were refused |
| CrawlRestart.RestartTooSoonWhen | apps/worker/src/processors/orchestrate.processor.ts:175-200 | a crawl with pages whose orchestrate job, run again for the first time, is about to set the counters with seeds that are queued already: some continuation that loses nothing more looks complete while pages are owed if and only if more is owed than there are seeds, and as much as there are seeds by pages that are not dropped, given up, or in the render queue of a cancelled crawl |
| CrawlTheorems.QuiescenceSignals | apps/worker/src/processors/page-fetch.processor.ts:16-32 | in a crawl with pages, all recorded, none stranded, recounted or overwritten, exactly one page saw completion, and once it has notified finalize is queued, whatever delays, render hand-offs and lost jobs there were |
| CrawlTheorems.SettledSignals | apps/worker/src/crawl/page-processor.service.ts:271-284 | when such a crawl's jobs have all ended, the orchestrate job acknowledged or given up, at most one signal was lost; finalize is queued if none was, and can never run again exactly if the job that saw completion died for good before it wrote the final stats |
| CrawlTheorems.QueuedOnce | apps/worker/src/crawl/page-processor.service.ts:330-349 | the jobs that exist are exactly the pages asked for, by any attempt; and unless a recorded page is run again or the seeds are queued again no page is asked for twice |
| CrawlTheorems.DiscoveryStaysInScope | apps/worker/src/crawl/page-processor.service.ts:318-343 | every job is a seed or a discovery job within the depth limit whose page shares the registrable domain of a page queued as a seed |
| CrawlTheorems.LinkGate | apps/worker/src/processors/finalize.processor.ts:71-77 | unless a recorded page, a finished batch or the queued orchestrate job is run again: when the gate opens on the counter, every marked link target that no dead worker took with it was handed to exactly one batch and has its row, or its job found no website |
| CrawlTheorems.LinkGateWithoutFailures | apps/worker/src/processors/finalize.processor.ts:71-77 | in runs without failures, every URL ever put in the link-target set has its `link_checks` row and was in exactly one batch when the gate opens |
| CrawlFailures.RecountFinalizesEarly | apps/worker/src/processors/page-fetch.processor.ts:16-24 | a condition of the above is needed: for any two pages, recording one of them twice finalizes while the other, its child, is outstanding |
| CrawlFailures.RestartFinalizesEarly | apps/worker/src/infra/crawl-state.service.ts:27-44 | so is the other: for any two pages, running the orchestrate job again after it queued the one finalizes while the other, its child, is outstanding, with nothing recounted or stranded |
| CrawlFailures.SignalLostForever | apps/worker/src/crawl/page-processor.service.ts:271-284 | a crawl with everything recorded and nothing stranded that no sequence of events can finalize, because the job that saw completion died |
| CrawlFailures.CancelStrandsRender | apps/worker/src/processors/page-render.processor.ts:34-75 | for any page, a failure-free run that cancels the crawl while the page waits to be rendered; no sequence of events records the page or ends the crawl |
| CrawlEnds.NoEndlessRun | apps/worker/src/crawl/page-processor.service.ts:313-350 | from any reachable state, over a finite universe of pages, no run of advancing events goes on for ever |
| CrawlEnds.RestingRunIsFinished | apps/worker/src/processors/page-render.processor.ts:34-75 | every run without failures that cannot advance any more, however it interleaved, has finished, with every page recorded, every link checked and finalize done if there were pages, if and only if no render job of a cancelled crawl was dropped |
| CrawlEnds.CrawlCompletes | apps/worker/src/crawl/page-processor.service.ts:271-350 | after any run, failures, cancelling and pausing included, in which no page was recounted, no counters were or will be set again on a crawl with pages and no link batch was lost, and for any seeds still to be resolved: an undisturbed continuation ends with everything recorded, checked and finalized if and only if no page was dropped, given up, or is in the render queue of a cancelled crawl, every page in the total was queued or the counters are yet to be set, and finalize has not failed nor its signal died with its job |
| CrawlProgress.Progress | apps/worker/src/crawl/page-processor.service.ts:313-350 | over a finite universe of pages every event but a delay, a failure or an operator request strictly decreases a measure |
| CrawlProgress.WithinStep | apps/worker/src/crawl/page-processor.service.ts:331-345 | no event takes a crawl outside the universe its links come from |
| CrawlSafety.BoundedStep | apps/worker/src/crawl/page-processor.service.ts:318-343 | depth and scope bounds of every job survive every event |
| CrawlSafety.ClaimedStep | apps/worker/src/infra/crawl-state.service.ts:81-87 | every event keeps: a page found for queueing was first marked seen by exactly one page, and unless a recorded page is run again or the counters are set again no add is refused |
| CrawlSafety.SignalledStep | apps/worker/src/crawl/page-processor.service.ts:272-284 | every event keeps: completion is seen by one recording page, a page that notified has queued finalize, and no one else wrote the final stats |
| CrawlLinks.LinkedStep | apps/worker/src/infra/crawl-state.service.ts:99-115 | every event keeps the link counter equal to counted and unfinished batches, and every marked target in exactly one place |
| CrawlWorker.CrawlSystem.RecordPage | apps/worker/src/infra/crawl-state.service.ts:55-69 | counts one outcome and returns the counters read back in the same command block |
| CrawlWorker.CrawlSystem.MarkLinkTargetsNew | apps/worker/src/infra/crawl-state.service.ts:89-97 | adds the targets to the set and returns exactly the ones that were new, in order |
| CrawlWorker.CrawlSystem.MarkSeen | apps/worker/src/infra/crawl-state.service.ts:81-87 | adds a link to the seen set and says whether it was new |
| CrawlWorker.CrawlSystem.EnqueuePageFetch | apps/worker/src/crawl/crawl-producer.service.ts:31-42 | bulk-adds the children with fixed job ids: known ids are refused, new ones wait |
| CrawlWorker.CrawlSystem.EnqueueFinalize | apps/worker/src/crawl/crawl-producer.service.ts:56-64 | repeated completion signals collapse into one finalize job |
| CrawlWorker.CrawlSystem.CutBatches | apps/worker/src/crawl/page-processor.service.ts:297-299 | slices the new targets into batches of at most a hundred, losing none |
| CrawlWorker.CrawlSystem.EnqueueLinkTargets | apps/worker/src/crawl/page-processor.service.ts:286-311 | removes repeated targets, marks the rest, counts the batches of new ones, then queues them, with any other workers in between, as steps of the protocol |
| CrawlWorker.CrawlSystem.RemoveRepeats | apps/worker/src/crawl/page-processor.service.ts:294 | keeps each target once, in the order of first appearance |
| CrawlWorker.CrawlSystem.ExpandDiscovery | apps/worker/src/crawl/page-processor.service.ts:313-350 | marks each in-scope link, adds the new ones to the total and only then queues them, with any other workers in between |
| CrawlWorker.CrawlSystem.Internal | apps/worker/src/crawl/page-processor.service.ts:318-328 | the links to expand are exactly the internal ones of the page's registrable domain that the filter's scope and lists admit, and none at the depth limit or outside discovery |
| CrawlWorker.CrawlSystem.ValidateAndPersist | apps/worker/src/crawl/page-processor.service.ts:161-194 | persists, then link targets, then discovery, ending in a page that owes only its own outcome |
| CrawlWorker.CrawlSystem.ShouldSkip | apps/worker/src/crawl/page-processor.service.ts:358-362 | reads the cancel flag and then the pause flag: skips the page exactly if the crawl was cancelled at the first, delays its job if it is paused at the second |
| CrawlWorker.CrawlSystem.ProcessFetch | apps/worker/src/crawl/page-processor.service.ts:70-101 | each path of the static fetch leaves the page settled, delayed or handed to the render queue |
| CrawlWorker.CrawlSystem.FinishPage | apps/worker/src/crawl/page-processor.service.ts:271-284 | records the outcome; writes the final stats and then queues finalize exactly when the counters read back are complete |
| CrawlWorker.CrawlSystem.ProcessRendered | apps/worker/src/crawl/page-processor.service.ts:104-115 | looks at the flags again after rendering, and leaves the page settled or delayed |
| CrawlWorker.CrawlSystem.FetchJob | apps/worker/src/processors/page-fetch.processor.ts:16-32 | one delivery of a fetch job is a run of protocol steps that ends recorded, delayed or in the render lane |
| CrawlWorker.CrawlSystem.RenderJob | apps/worker/src/processors/page-render.processor.ts:34-75 | one delivery of a render job ends recorded, delayed, or dropped unrecorded when the crawl is cancelled |
| CrawlWorker.CrawlSystem.Orchestrate | apps/worker/src/processors/orchestrate.processor.ts:48-206 | on any delivery, first or later: gives up on a cancelled crawl or a deleted website, and otherwise counts the seeds, resets the stats, marks each seed and only then queues them, with any other workers in between |
| CrawlWorker.CrawlSystem.Init | apps/worker/src/infra/crawl-state.service.ts:27-44 | sets the counters to the number of seeds and no outcomes, whatever they were |
| CrawlWorker.CrawlSystem.CheckLinks | apps/worker/src/processors/link-check.processor.ts:35-77 | a result for each target first, then the batch is given back; without a website it is given back at once |
| CrawlWorker.CrawlSystem.CheckTargets | apps/worker/src/processors/link-check.processor.ts:50-72 | one result for each target, in order: broken exactly if its last answer fails, where GET is asked only when HEAD is refused, with that answer's status and hops |
| CrawlWorker.CrawlSystem.FinalizeGate | apps/worker/src/processors/finalize.processor.ts:65-77 | a finalize job is cancelled, made to wait, or passes, as steps of the protocol |
| SeedResolver.Resolve | apps/worker/src/crawl/url-resolver.service.ts:67-85 | merging the sources one seed at a time gives the merge of all their seeds, failing sources giving none |
| SeedResolver.SeedsAreMerged | apps/worker/src/crawl/url-resolver.service.ts:68-85 | the seeds are distinct, are exactly the URLs of the sources that resolved, and may be expanded exactly when some occurrence may |
| SeedResolver.MergedUrls | apps/worker/src/crawl/url-resolver.service.ts:73-77 | the URLs come in the order of their first appearance |
| SeedResolver.EntriesDistinct | apps/worker/src/crawl/url-resolver.service.ts:157-172 | a category's seeds are distinct exactly when no two usable entries normalize to one URL |
| SeedResolver.EntriesRepeat | apps/worker/src/crawl/url-resolver.service.ts:157-172 | whatever else the normaliser does, two entries that it sends to one URL give that URL twice |
| FinalizeRows.LinkRowsOnce | packages/db/src/repositories/page-issues.repository.ts:214-254 | the broken-link rows are one for each snapshot of the crawl, first link of a target and failed check of that target, and no others |
| FinalizeRows.ImageRowsOnce | packages/db/src/repositories/page-issues.repository.ts:260-289 | likewise for images with a source |
| FinalizeRows.RedirectRowsOnce | packages/db/src/repositories/page-issues.repository.ts:295-326 | likewise for links whose check took more than the allowed hops |
| FinalizeRows.FirstItemsOnce | packages/db/src/repositories/page-issues.repository.ts:231-238 | `DISTINCT ON` keeps each target of a usable item once, as the first usable item with it |
| FinalizeRows.DupRowsOnce | packages/db/src/repositories/page-issues.repository.ts:177-198 | one duplicate issue for each snapshot whose hash is shared by two snapshots with a sample, counting those with a sample, and no others |
| FinalizeRows.GroupRowsOnce | packages/db/src/repositories/page-issues.repository.ts:160-176 | one group for each hash that two snapshots with a sample share, and no others, naming their pages in order and their least sample |
| FinalizePasses.IssueStore.InsertDuplicateIssues | packages/db/src/repositories/page-issues.repository.ts:139-200 | one transaction replaces the field's groups and issues |
| FinalizePasses.IssueStore.ClearChecks | packages/db/src/repositories/page-issues.repository.ts:328-339 | what remains is every issue that is not of the crawl and the given checks, as often as before and in order, and nothing else |
| FinalizePasses.IssueStore.RecomputeSnapshotScores | packages/db/src/repositories/page-issues.repository.ts:341-401 | rewrites score and counts of the crawl's pages that have issues, and of no others |
| FinalizePasses.IssueStore.Finalize | apps/worker/src/processors/finalize.processor.ts:81-132 | the passes run in order and may stop after any statement |
| FinalizeConverges.FinalizerIsRun | apps/worker/src/processors/finalize.processor.ts:81-132 | no statement of the run is followed by one that drops what it added, every owned check is cleared, and rescoring is last |
| FinalizeConverges.FullRun | packages/db/src/repositories/page-issues.repository.ts:328-339 | a full run leaves the issues it does not own, in order, followed by its own afresh, and grades from exactly these, whatever state it starts from |
| FinalizeConverges.CutThenFull | packages/db/src/repositories/page-issues.repository.ts:147-158 | a run cut short anywhere, even between a clear and its insert, and then a full run end exactly as one full run |
| FinalizeConverges.FinalizeConverges | apps/worker/src/processors/finalize.processor.ts:81-132 | so do any number of interrupted runs: the same issues, groups, scores and counts |
| FinalizeConverges.OthersThroughRuns | packages/db/src/repositories/page-issues.repository.ts:328-339 | issues that are not the finalizer's survive any interrupted runs unchanged and in order |
| FinalizeConverges.FinalizeNeverRaises | packages/db/src/repositories/page-issues.repository.ts:341-353 | no full run raises the score of a page that was scored from its own issues |
| FinalizeConverges.FreshPageScore | packages/db/src/repositories/page-issues.repository.ts:354-381 | a freshly validated page to which the passes add nothing keeps the engine's score exactly, and one to which they add issues scores no higher |
| Scoring.ComputePageScore | packages/seo-engine/src/scoring.ts:24-52 | the loop computes the specified score, within 0 and 100 |
| Scoring.RunChecks | packages/seo-engine/src/runner.ts:15-39 | the nested loops give the actionable results of the enabled checks, in order, at the severity in force |
| Scoring.FreshPageAgrees | packages/db/src/repositories/page-issues.repository.ts:354-381 | whatever is disabled or overridden, the query over the stored issues of a run of the checks gives the engine's score, and no rule appears at two severities |
| Scoring.ScoresAgree | packages/seo-engine/src/scoring.ts:24-52 | the query equals the engine on any results with one severity per rule and known rules |
| Scoring.DeductionPermuted | packages/db/src/repositories/page-issues.repository.ts:357-377 | the query's deduction depends on the issues only as a multiset |
| Scoring.MoreFaultsScoreLess | packages/db/src/repositories/page-issues.repository.ts:341-353 | adding any issues never raises the query's score |
| Scoring.MixedSeverities | packages/seo-engine/src/scoring.ts:39-49 | with two severities for one rule the engine's score depends on the order of results |
| Snapshots.SnapshotStore.ReplaceSnapshot | packages/db/src/repositories/page-snapshots.repository.ts:69-115 | the page then has exactly the given snapshot and issues, and every other page what it had |
| Snapshots.SnapshotStore.InsertIssues | packages/db/src/repositories/page-snapshots.repository.ts:148-177 | inserting in chunks of five hundred inserts all the issues, in order |
| Snapshots.SnapshotStore.CopyIssues | packages/db/src/repositories/page-snapshots.repository.ts:228-242 | the earlier snapshot's issues are appended to the page's, and nothing else changes |
| Snapshots.SnapshotStore.CarryForward | apps/worker/src/crawl/page-processor.service.ts:201-234 | an unchanged page ends with its previous issues, or with none if the job crashed between the two statements |
| Snapshots.SnapshotStore.Deliver | packages/db/src/repositories/page-snapshots.repository.ts:64-115 | after any deliveries of any kind in any order, carry-forwards that crashed half-way included, every page has at most one snapshot and holds what its attempts leave one after the other |
| Snapshots.LastAttemptWins | apps/worker/src/crawl/page-processor.service.ts:117-234 | what a page holds is what its last attempt leaves, whatever came before or was delivered for other pages |
| Snapshots.CarriedIssues | apps/worker/src/crawl/page-processor.service.ts:201-234 | a page last carried forward whole has the issues of the earlier crawl's page, however often the job had crashed before |
| SitemapWalk.FetchSitemapTree | packages/crawler-core/src/sitemap.ts:89-188 | on any fixed graph of sitemaps, cyclic or not, the walk is truncated exactly when the reachable sitemaps or their distinct URLs exceed the bounds; otherwise it has visited exactly the reachable ones, listed their URLs once, and reported each failing document once |
| SitemapWalk.Walker.Walk | packages/crawler-core/src/sitemap.ts:118-184 | a walk keeps its collections, visits only what its start reaches, and expands everything new unless cut short |
| SitemapWalk.Walker.AddEntry | packages/crawler-core/src/sitemap.ts:102-116 | a new URL is listed once, or truncates when the list is full |
| SitemapWalk.ResultIsExact | packages/crawler-core/src/sitemap.ts:125-127 | collections that are closed under expansion, or stopped at a full bound, are exact in the sense above |
| RobotsPattern.RegexIsPattern | packages/crawler-core/src/robots.ts:25-37 | escaping and joining lose nothing: the expression compiled from any pattern is the pattern's own tokens |
| RobotsPattern.TestDecides | packages/crawler-core/src/robots.ts:25-37 | on every path without line breaks the compiled expression accepts exactly the `*` / trailing-`$` language of RFC 9309 section 2.2.3 |
| RobotsRules.MatchGroups | packages/crawler-core/src/robots.ts:138-158 | exactly the groups whose applicable token no other beats, in order |
| RobotsRules.IsAllowed | packages/crawler-core/src/robots.ts:162-185 | allowed exactly when no rule of the groups in force matches, or some longest matching one is an Allow |
| RobotsRules.CrawlDelayMs | packages/crawler-core/src/robots.ts:186-193 | the delay of the first group in force that gives one |
| RobotsRules.OrderIsIrrelevant | packages/crawler-core/src/robots.ts:138-185 | reordering groups, tokens or rules changes no decision |
| RobotsParse.ParseRobots | packages/crawler-core/src/robots.ts:63-136 | the loop over lines computes the fold of their directives |
| RobotsParse.NoiseIsIgnored | packages/crawler-core/src/robots.ts:121-135 | sitemap lines and unknown fields never open, close or change a group, and sitemaps are collected wherever they stand |
| RobotsRoundTrip.FoldGroups | packages/crawler-core/src/robots.ts:85-120 | the directives of well-formed groups are read back as those groups |
| RobotsRoundTrip.RobotsRoundTrip | packages/crawler-core/src/robots.ts:63-136 | any text that writes well-formed groups down, in any case, spacing, comments and line ends, each delay in any spelling that reads as it, with other lines among them and the last line ended or not, parses back to those groups, rules and delays |
| RobotsTexts.TextsArePrintable | packages/crawler-core/src/robots.ts:63-136 | well-formed groups have such a text exactly if every token and pattern can stand on a line |
| IPv6.ExpandIPv6 | packages/crawler-core/src/safe-fetcher.ts:104-151 | the rewriting and the loop compute the specified expansion |
| IPv6.IPv6RoundTrip | packages/crawler-core/src/safe-fetcher.ts:104-151 | every written form of an address, with any run of groups compressed, either case, a dotted tail or a zone, expands to its eight groups |
| IPv6Texts.ExpandsOnlyForms | packages/crawler-core/src/safe-fetcher.ts:104-151 | a text expands exactly if it is a written form of an address, and then to what the form denotes; malformed text gives nothing |
| IPv6.EveryAddressIsWritten | packages/crawler-core/src/safe-fetcher.ts:104-151 | every eight 16-bit groups have such a form |
| IPv6.MappedVerdict | packages/crawler-core/src/safe-fetcher.ts:83-91 | however it is written, a mapped address gets the verdict of the IPv4 address it carries |
| IPv6.IPv4Blocks | packages/crawler-core/src/safe-fetcher.ts:58-75 | the IPv4 verdict is membership of the 32-bit address in the named blocks |
| IPv6.IPv6Blocks | packages/crawler-core/src/safe-fetcher.ts:77-102 | the verdict on any other written address is unspecified, loopback, `fc00::/7`, `fe80::/10` or `ff00::/8` |
| Percent.DecodePreserved | packages/crawler-core/src/url.ts:14-19 | normalising preserves the percent-decoded path exactly when no bare `%` would be completed to an encoding |
| Percent.SameNormalForm | packages/crawler-core/src/url.ts:14-19 | paths that differ only by hexadecimal case and by encoding unreserved characters have one normal form, and where no bare `%` would be completed only they do |
| Percent.SameNormalFormWhen | packages/crawler-core/src/url.ts:14-19 | any two paths have one normal form exactly when they agree up to these and to encodings made of a bare `%` and two upper-case digits |
| Percent.FusedCounterexample | packages/crawler-core/src/url.ts:14-19 | two paths of different meaning with one normal form |
| Percent.IdempotentWhen | packages/crawler-core/src/url.ts:14-19 | normalising twice is normalising once exactly when every completed encoding is already normal |
| Percent.PathIdempotent | packages/crawler-core/src/url.ts:56 | on well-formed paths, normalisation followed by slash collapse is idempotent |
| Percent.MalformedCounterexample | packages/crawler-core/src/url.ts:14-19 | a malformed path on which one pass is not enough and which changes meaning |
| Percent.WellFormedHasNoStray | packages/crawler-core/src/url.ts:14-19 | a path in which every `%` begins an encoding meets both conditions |
| UrlScope.SubdomainShares | packages/crawler-core/src/url.ts:98-114 | a subdomain has its parent's registrable domain exactly when the parent has three labels, or two of which the first is no public-suffix label |
| UrlScope.SuffixKeepsApart | packages/crawler-core/src/url.ts:98-114 | `x.co.uk` does not have the registrable domain of `co.uk` |
| UrlScope.ScopeIsSegments | packages/crawler-core/src/url-filter.ts:37-43 | a scope means the same with and without its final slash, and takes in no sibling path |
| UrlScope.GlobToRegex | packages/crawler-core/src/url-filter.ts:14-35 | the index loop builds the compiled source of the rooted glob |
| UrlScope.GlobDecides | packages/crawler-core/src/url-filter.ts:8-35 | the compiled expression accepts exactly the glob language of `**`, `*` and `?` |
| UrlScope.UrlFilter.ClassifyMeans | packages/crawler-core/src/url-filter.ts:78-121 | a URL is in scope exactly when its registrable domain, path scope and glob lists all agree |
| RateLimit.Limiter.Incr | apps/worker/src/infra/politeness.service.ts:28-31 | while counts are prompt, the count is the number of attempts in the window so far: no expiry resets a live window |
| RateLimit.Limiter.Acquire | apps/worker/src/infra/politeness.service.ts:20-37 | with any commands of other workers in between, the invariant holds, and a refused caller is sent exactly to the start of the next window |
| RateLimit.BucketBound | apps/worker/src/infra/politeness.service.ts:25-34 | at most floor(rate) grants in a window |
| RateLimit.WindowBound | apps/worker/src/infra/politeness.service.ts:20-37 | in any L milliseconds at most (ceil(L/1000) + 1) times floor(rate) grants |
| RateLimit.SecondBound | apps/worker/src/infra/politeness.service.ts:6-11 | in any second at most twice floor(rate) grants |
| RateLimit.SecondBoundIsTight | apps/worker/src/infra/politeness.service.ts:6-11 | at every rate the bound of twice floor(rate) is met by a fair run |
| RateLimit.LimiterBound | apps/worker/src/infra/politeness.service.ts:20-37 | the limiter's invariant gives the bound for its whole history |
| RateLimit.LateCount | apps/worker/src/infra/politeness.service.ts:28-31 | a count that reaches the store when its window's key has expired is granted a second slot at a rate of one |
| JsonCanon.SortJson | packages/schema-engine/src/util.ts:32-41 | the recursive loops compute the specified canonical value |
| JsonCanon.SortDecides | packages/schema-engine/src/util.ts:27-41 | sorting maps two values to the same result exactly when they are equal up to the order of object keys, at any depth |
| EntityHash.NormalizeJsonLdEntity | packages/schema-engine/src/extract.ts:79-95 | bumping the shared counter in loops, and taking a blank-node number only without an `@id`, gives the entity and counter of the specification |
| EntityHash.NormalizeJsonLdValue | packages/schema-engine/src/extract.ts:97-123 | likewise for values |
| EntityHash.ContentHash | packages/schema-engine/src/extract.ts:312-332 | hashed values are equal exactly for the same types in any order and the same properties in any order, at every level; ids never matter |
| EntityHash.NodeSame | packages/schema-engine/src/extract.ts:79-123 | nodes with the same content up to key order, type order, spelling of property names and `@id` have the same hash from any two starting counters |
| EntityHash.HashesIgnoreCounter | packages/schema-engine/src/extract.ts:32-58 | a document's hashes do not depend on where the counter starts |
| EntityHash.ExtractJsonLd | packages/schema-engine/src/extract.ts:53-56 | the loop over a block's nodes gives exactly those hashes |
| SchemaDiff.DiffPageSchema | packages/schema-engine/src/diff.ts:12-62 | the two loops compute the specified diff |
| SchemaDiff.PropertyDiff | packages/schema-engine/src/diff.ts:64-106 | one change for each property shown differently, at most one for a property, with its kind, what was shown, what is now, and the severity of the policy |
| SchemaDiff.RichResultDiff | packages/schema-engine/src/diff.ts:108-129 | one change for each profile of both crawls whose status differs, High exactly if it was eligible and is now ineligible; a profile that one crawl lacks changes nothing |
| SchemaDiff.StatusIsLast | packages/schema-engine/src/diff.ts:110-111 | a profile given twice has the status given last |
| SchemaDiff.IndexByKey | packages/schema-engine/src/diff.ts:131-139 | every key once, with the first summary that has it |
| SchemaDiff.DiffEmpty | packages/schema-engine/src/diff.ts:12-62 | a diff is empty exactly when both sides have the same keys, the same hashes, and the same status in every shared profile |
| SchemaDiff.DiffSelf | packages/schema-engine/src/diff.ts:12-62 | nothing changes between a crawl and itself |
| SchemaDiff.DiffReversed | packages/schema-engine/src/diff.ts:8-10 | the reverse diff has the same changes with added and removed, before and after swapped, at the severities of the policy, where every entity of both crawls has one type and identity or is unchanged |
| SchemaDiff.KeptReversed | packages/schema-engine/src/diff.ts:35-45 | for one entity the condition is exact: its changes are reversed exactly if it keeps its type and identity or is unchanged |
| SchemaDiff.OneEntityReversed | packages/schema-engine/src/diff.ts:12-62 | and so it is for a page with one entity in each crawl under one key |
| SchemaDiff.EmptyIdentityNotReversed | packages/schema-engine/src/diff.ts:131-139 | an empty identity against none, with a status that changed: one key, and not reversed |
| SchemaDiff.KeysDecide | packages/schema-engine/src/diff.ts:131-139 | types without a colon and identities that are no other's hash make keys tell entities apart |
| SchemaDiff.PlainDiffReversed | packages/schema-engine/src/diff.ts:8-10 | so on every page whose types have no colon and whose identities are not empty nor any entity's hash, the reverse diff is the diff the other way round |
| SchemaDiff.CompensatingReversed | packages/schema-engine/src/diff.ts:131-139 | the condition is not needed on every page: two entities, one with an empty identity and one with none, that change places reverse together and neither alone |
| SchemaDiff.DetectSchemaChanges | apps/worker/src/processors/finalize.processor.ts:178-226 | batches of fifty pages record exactly one diff per page over all the rows |
| SchemaDiff.GroupByPage | apps/worker/src/processors/finalize.processor.ts:282-290 | each page gets its rows, in order |
| TypeHierarchy.IsSubtypeOf | packages/schema-engine/src/validate.ts:292-305 | the walk with a shared seen set decides reflexive-transitive reachability over parents, cycles or not |
| TypeHierarchy.CollectProperties | packages/schema-engine/src/validate.ts:273-286 | exactly the properties of the reachable known types, a type's own spec winning |
| TypeHierarchy.SubtypeInherits | packages/schema-engine/src/validate.ts:273-305 | a subtype has every property of its ancestors |
| TypeHierarchy.EntityMatches | packages/schema-engine/src/validate.ts:232-236 | an entity satisfies an expected type exactly when its primary type or one of its types reaches it |
## Left out

- CrawlTheorems.NoEarlyFinalize: a job run twice at once after its lease expires, and a retried fetch that changes its render decision after the hand-off, count a page twice like a recount and are not told apart from it.
- CrawlTheorems.QuiescenceSignals: says nothing of a crawl in which a cancelled render dropped a page or a dead worker stranded children, for which the code never signals completion by itself.
- CrawlRestart.RestartTooSoonWhen: is about the first time an orchestrate job is run again, and about seeds that are all queued already.
- CrawlEnds.CrawlCompletes: says nothing of crawls with recounted pages, counters set again or lost link batches; the workers go on without the watchdog, which could queue a failed or unsignalled finalize again.
- CrawlTheorems.LinkGate: supposes the gate opened on the counter and not on the limit of waits, which depends on whether the queue keeps a change made to a job's data in place.
- CrawlProtocol.Apply: the seeds that an attempt resolves are any distinct ones; the crawl's status column and its own row are not modelled, so the watchdog may be asked about any crawl whose stats are final or whose finalize ended.
- CrawlProtocol.AddJob: a job id stays known; the queue forgets completed jobs after a day or ten thousand of them, after which an add would not be refused.
- Retrying failed pages (`retryFailed`), which queues pages again without adding to the total.
- The number of attempts of a job: a failed job may or may not be retried.
- Expiry of the crawl's Redis keys, and the progress events published from the counters.
- Rendering, fetching, DNS and the host guard around sockets; what a fetch finds is an input.
- The limit on discovered pages, which discovery itself does not check.
- CrawlWorker.CrawlSystem.Internal: whether the filter's path scope and lists admit a link is an input; `UrlScope` says when they do.
- CrawlWorker.CrawlSystem.CheckTargets: the politeness call before each request; error codes.
- SeedResolver.Resolve: the URL normaliser, sitemap fetch and CSV reading give each source's list, and a failing source gives none.
- FinalizePasses.Do: row ids, timestamps and fingerprints are not stored, the order of rows a query returns is that of its table, and the least sample is by character code and not by collation.
- FinalizeConverges.FinalizeConverges: link checks and snapshots do not change between the runs, and `crawl_changes`, which every run appends to, is not among the tables.
- FinalizeConverges.FreshPageScore: is about pages validated in this crawl; error pages store a score of zero and carried-forward pages start from an earlier finalized score.
- Scoring.ComputePageScore: reals instead of floating point and `numeric(5,2)`, and log2 as any function of the count that is zero at one and does not decrease where order matters.
- The individual SEO checks: what each gives on a page is an input.
- Snapshots.SnapshotStore.Deliver: attempts on one page do not overlap in time; schema entities, which the same transaction replaces in the same way, are not stored.
- SitemapWalk.FetchSitemapTree: fetching, decompression and the XML text are a fixed map from URL to index, urlset or failure.
- RobotsRules.IsAllowed: takes the path that the URL parser gives, without line breaks; letters beyond ASCII are not lowered.
- RobotsParse.ParseRobots: a delay is a plain decimal; exponents, hexadecimal and `Infinity` are taken as not a number, and a sitemap's URL is what a given resolver makes of it.
- IPv6.ExpandIPv6: `net.isIP` on the dotted tail is four decimal octets without leading zeros; `net.isIP` on whole addresses and signs or spaces in `parseInt` are not modelled.
- Percent.PathIdempotent: the path alone; the rest of `normalizeUrl` (host, port, query order) belongs to the URL parser.
- UrlScope.SubdomainShares: hosts as the URL parser gives them; which texts are IP addresses is a parameter.
- RateLimit.Limiter.Pexpire: the store's clock is not behind the window of the key it sets to expire.
- EntityHash.ContentHash: SHA-256 and `JSON.stringify` are taken to tell values apart, so the canonical value stands for the digest; a `@value` that is not a scalar is kept whole.
- EntityHash.NodeSame: names must not collide when shortened, and keys that look like array indexes, which JavaScript moves to the front, are not treated apart.
- EntityHash.ExtractJsonLd: the DOM, comment stripping and JSON parsing; Microdata and RDFa use the same entity builder.
- SchemaDiff.DiffReversed: is sufficient for a whole page and not necessary, as `SchemaDiff.CompensatingReversed` shows; message texts are not modelled.
- SchemaDiff.DetectSchemaChanges: the cap on the size of one entity's properties is part of the stored row.
- TypeHierarchy.EntityMatches: only the entity case of the value check; scalars, enumerations and references are single tests.
- Controllers, CRUD services, schedules and the web application.
