# Verification of the CI flake pipeline

The backend ingests GitHub Actions deliveries, merges them into job and run rows, derives flake events
from the rows, crawls history, and serves a leaderboard from a daily rollup. Its comments claim that it is
idempotent, independent of delivery order and safe to crash. This project models the code those claims rest
on and proves them, or proves exactly when they hold.

`dafny verify dfyconfig.toml` checks everything.

## The modules

**Facts and signals.** `Merge` is the merge of one row (a payload is a status and a map of non-NULL progress
cells, so COALESCE is map addition). `Detection` holds the two signals over the opportunities of the job
table; `Signals` says what they mean, that both are monotone as opportunities appear, and when re-deriving an
event forgets its history; `Verdicts` says it in the columns of the rows. `Handlers` gives the two webhook
handlers as transitions and as methods of a `Store` that updates the tables in place. `Convergence` and `Order` run deliveries about one `World` of
GitHub facts in any order and with any repetition; `Attempts` and `Times` say exactly when the two columns
that can depend on the order do not; `Replay` re-evaluates stored deliveries.

**Queue.** `Queue` is the event queue table. `Protocol` interleaves any number of workers, crashes and reaper
passes over it, with ghost claims, counters and commits; `Settling` is about unending runs; `Worker` is the
single process, which discharges the timeout assumption by itself.

**Crawl.** `Backfill` is the cursor and the repository whose fields it lives in; `Crawl` says which days the
windows cover; `History` puts the crawl on the queue and says what has been recorded.

**Statistics.** `Rollup` recomputes daily rows; `Board` compares the summed board with a count over job rows;
`Tallies` states the numbers of both in the columns they are counted from; `Implication` shows that only
eligible runs are ever named by events; `Activity` sweeps only recently active repositories; `Wilson` is the interval over the reals (with `Reals` for order facts about products);
`Ranking` is the two-pass sort (with `Names` for string order).

**GitHub access.** `RateLimit` is the token bucket and the limiter; `TokenCache` is the double-checked cache.

## What a reader should know

- Operations are specified by functions, and the functions in turn by statements about the stored columns, the
  fields of a body, the settings and literal values: `Handlers.JobDeliveryWrites`, `Verdicts.FiresOnRows`,
  `Queue.Table` and `Worker.RowAnswered`, `Backfill.PageInFull`, `Tallies`, `RateLimit.Refilled` and
  `RateLimit.Corrected`, `Ranking.Leads` and `TokenCache.TokensAreRenewedEarly`.
- A run of deliveries is *consistent* (`Convergence.AllConsistent`) when repository, commit and workflow are
  functions of the run id, run, attempt and name are functions of the job id, completed payloads of one job
  agree and supply every column its other payloads supply, and only completed payloads carry a conclusion.
- `NeverRegress` is not commutative in general. `Merge.OrderIndependentIffDominated` gives the exact
  condition on a set of payloads, and job and run progress are compared under that condition.
- Status is not coalesced, so the status-less run stub of a job event overwrites a stored `queued`
  (`Merge.StubAndQueuedDoNotConverge`), contrary to the comment at backend/app/upserts.py:59-60.
- The time of an event is coalesced with the stored one, so an event can keep the time of an earlier
  derivation. `Signals.HistoryFreeIffTimely` says exactly when it cannot, and `Times.EventIsOrderFreeIff` the
  same of deliveries: a run's event depends on their order exactly when its last recovery has no completion
  time and some success after a failure has. Under consistent deliveries whose eligible jobs all have one the
  event tables are equal outright (`Order.EventsConverge`).
- The workflow column of a single run attempt can depend on order (`Attempts.AttemptWorkflowDependsOnOrder`);
  `Attempts.AttemptWorkflowIsOrderFreeIff` says exactly when it does not. The workflow of the run never does.
- The floor of a crawl moves with the date, and a day over the result cap loses all but its newest runs.
  `History.FinishedCrawlIsComplete` says what a finished crawl has recorded under both.
- `mark_done`, `mark_for_retry` and `defer` do not check who owns the row. Safety therefore needs that no
  live claim outlives the reaper timeout; `Protocol.SweepKeepsOwnershipIff` shows the need is exact and
  `Protocol.ReapingALiveWorkerDuplicates` shows two commits of one row without it.
- The module comment of backend/app/stats.py:3-7 motivates the ranking with one flake in two runs
  outranking fifty in a thousand under the raw rate. It still does under the Wilson lower bound
  (`Wilson.OneInTwoStillOutranksFiftyInAThousand`); `Wilson.OutranksIff` says when one job outranks another.
- Two groups of one board share an identity when one has no workflow and the other has workflow zero, and
  then the order the query returned shows (`Ranking.OrderNeverShowsIffNoFullTie`).
- The wait of the bucket ignores a window turnover that restores tokens sooner; `RateLimit.WaitIsExact` says
  when a request may really leave.

## Model

| member | source | states |
|---|---|---|
| Merge.OrderIndependentIffDominated | backend/app/upserts.py:19-68 | every processing order and repetition of a set of payloads stores the same row if and only if the most advanced payloads agree and supply every column any payload supplies |
| Merge.MergeExplains | backend/app/upserts.py:31-68 | whatever the order, the row has the status of a most advanced payload, holds only supplied columns, and holds a most advanced payload's value wherever there is one |
| Merge.RowNeverRegresses | backend/app/upserts.py:37-49 | with no hypothesis, status rank never falls and a non-null progress column never becomes null again |
| Merge.StatusIsTheLastApplied | backend/app/upserts.py:19-60 | for every history, the status is that of the last payload that no earlier one was ahead of, where completed is ahead of all others and in_progress of whatever is neither |
| Merge.ColumnIsTheLastSupplied | backend/app/upserts.py:49-56 | and every column holds what the last such payload that supplies it says, or null if none does |
| Merge.StubAndQueuedDoNotConverge | backend/app/upserts.py:59-61 | a stub without status and a queued payload end in different rows in different orders, until a more advanced payload arrives |
| Signals.RecoveryIff | backend/app/detection.py:222-228 | signal A fires exactly when some failed opportunity of the run is followed, anywhere later in attempt order, by a successful one |
| Signals.RerunEvidenceNamesThePairs | backend/app/detection.py:230-245 | the evidence names exactly the job ids of neighbouring failed and recovered attempts |
| Signals.CommitEvidenceNamesTheGroup | backend/app/detection.py:266-322 | signal B's evidence names exactly the opportunities on the commit, ascending, and counts their distinct runs |
| Signals.EvidenceIsEligible | backend/app/detection.py:230-245 | whatever an event names was an opportunity of its group |
| Signals.FiresIff | backend/app/detection.py:222-322 | each signal's firing condition on its group, stated without sequences: a failure before a success, or a failure and a success; on the columns of the rows it is Verdicts.FiresOnRows |
| Signals.FiresIsMonotone | backend/app/detection.py:197-322 | an event once implied stays implied as any further opportunities and workflows appear, so never deleting one is right |
| Signals.CurrentIsExact | backend/app/detection.py:325-366 | an event whose evidence is current and whose time is plausible equals a fresh derivation when its time is determined |
| Signals.HistoryFreeIffTimely | backend/app/detection.py:358-366 | every history of growing facts leaves the event a fresh derivation would give if and only if the last derivation has a time or no earlier one could have had |
| Signals.TimelyWhenTimesAreKnown | backend/app/detection.py:246-254 | when the group's opportunities all have a completion time, and for signal B always, the event's time does not depend on history |
| Signals.EvaluateJobCleans | backend/app/detection.py:369-397 | re-evaluating a job name leaves both of its groups' events exactly derived, and disturbs no other event |
| Verdicts.FiresOnRows | backend/app/detection.py:67-110 | a signal fires on the stored rows if and only if some row of its group is judged a failure and another, later in attempt order for signal A, concluded success: judged means success, failure or, under its flag, timed_out, less the failures with planned and no completed steps under theirs |
| Verdicts.EvaluationOnRows | backend/app/detection.py:369-397 | with no hypothesis on the rows, evaluating a job name of a run records an event exactly for the run, and for the workflow first known among its judged attempts on the commit of the last, where their rows contradict each other; every other event stays |
| Verdicts.RerunHappenedAt | backend/app/detection.py:228-254 | the event of signal A carries the completed_at and the commit of the last attempt that recovered |
| Verdicts.RerunNames | backend/app/detection.py:231-240 | its evidence names exactly the failed attempts whose next judged attempt succeeded and those that succeeded, and lists every judged attempt with its outcome |
| Verdicts.RerunPairs | backend/app/detection.py:241-244 | the pairs it lists are exactly the attempt numbers of those recoveries |
| Verdicts.CommitHappenedAt | backend/app/detection.py:279-322 | the event of signal B carries the latest completed_at among the judged rows of the commit and names exactly those rows |
| Verdicts.CommitLists | backend/app/detection.py:279-322 | it lists every judged row of the commit with its outcome and counts their distinct runs |
| Handlers.Store.UpsertRun | backend/app/upserts.py:272-325 | the run row after an upsert: repository from the first write, commit from the last, workflow first-write-wins, and every progress column from the write unless the stored status is ahead of it |
| Handlers.Store.UpsertJob | backend/app/upserts.py:375-426 | the job row after an upsert, column by column in the body's fields: identity kept, workflow first-write-wins, and where the stored status is not ahead, the conclusion, both times, runner, labels, number of steps and number of completed steps of the body |
| Handlers.Store.PropagateWorkflowId | backend/app/upserts.py:349-372 | afterwards every attempt and job of the run knows a workflow, known ones and all other rows are as they were, and the names returned are strictly ascending and exactly those of the jobs that changed |
| Handlers.Store.RecordFlakeEvent | backend/app/detection.py:325-366 | one row per group key: evidence replaced, a known time not replaced by an unknown one |
| Handlers.Store.EvaluateRerunRecovery | backend/app/detection.py:197-263 | upserts the signal A event exactly when some failed attempt of the list is followed by a successful one |
| Handlers.Store.EvaluateSameCommit | backend/app/detection.py:266-322 | upserts the signal B event exactly when the workflow is known and outcomes on the commit disagree |
| Handlers.Store.EvaluateJob | backend/app/detection.py:369-397 | both signals over one job name of one run, signal B on the last attempt's commit |
| Handlers.Store.HandleWorkflowJob | backend/app/handlers.py:59-86 | the tables after a job delivery; without a job id, a repository id or an installation nothing changes |
| Handlers.Store.HandleWorkflowRun | backend/app/handlers.py:89-125 | the tables after a run delivery, every changed job name re-evaluated against the changed tables; a malformed one changes nothing |
| Handlers.Store.HandleAll | backend/app/worker.py:47-53 | deliveries one after the other perform the composed transition |
| Handlers.JobDeliveryWrites | backend/app/handlers.py:59-85 | in the body's own fields: the job row, the stub of its run, which learns nothing but the branch, and the workflow the job takes from any attempt that knows it; a malformed delivery writes nothing |
| Handlers.RunDeliveryWrites | backend/app/handlers.py:89-125 | in the body's own fields: the run attempt's row, its workflow from the stored row, the body or the event in that order, and afterwards every attempt and job of the run knows a workflow or no attempt does; nothing else of any row moves |
| Convergence.RunWorkflowIsTheRuns | backend/app/upserts.py:328-346 | whichever attempt the query picks, the answer is the run's one workflow |
| Convergence.EvaluatedCovers | backend/app/detection.py:381-397 | evaluating a job's name covers every group that an opportunity of that name in that run belongs to |
| Convergence.JobStep | backend/app/handlers.py:59-86 | a job delivery keeps the facts true and the events sound and complete |
| Convergence.RunStep | backend/app/handlers.py:89-125 | a run delivery, with its propagation and re-evaluations, keeps the facts true and the events sound and complete |
| Convergence.EventsAreDerivedAlways | backend/app/handlers.py:59-125 | in every state reachable under consistent deliveries the event table is exactly what the job rows imply: none missing, stale or duplicated |
| Verdicts.EventsAreWhatTheRowsSay | backend/app/handlers.py:59-125 | in every state reachable under consistent deliveries an event exists if and only if stored rows contradict each other, and names exactly the rows that do |
| Verdicts.RecoveredRerunIsRecorded | backend/app/handlers.py:59-86 | a job that completed with failure and in a later attempt with success, delivered in any order and with any repetition, leaves the re-run event naming both |
| Order.JobRowIsTheMerge | backend/app/handlers.py:78-84 | a job's progress is the fold of the payloads delivered for it |
| Order.RunRowIsTheMerge | backend/app/handlers.py:66-121 | a run attempt's progress is the fold of the run payloads and stubs delivered for it |
| Order.KnownWorkflowsStay | backend/app/upserts.py:62-67 | with no hypothesis, a known workflow id of a job or run attempt never changes |
| Order.OrderAndRepetitionDoNotMatter | backend/app/handlers.py:59-125 | two sequences holding the same consistent deliveries, in any order and with any repetition, end with the same jobs (identity and workflow always, the whole row once completed or when its payloads are dominated), the same workflow per run, dominated run rows alike, and the same events, times included where the facts determine them |
| Order.EventsConverge | backend/app/handlers.py:59-125 | the event tables are equal, times included, when every eligible job has a completion time |
| Times.EventIsOrderFreeIff | backend/app/detection.py:358-366 | for consistent deliveries, a group ends with the same event, its time included, for every order and repetition if and only if the fresh derivation has a time or no part of the group could have given one; for signal A the witness of the failing half is an order that puts one early recovery first and one that puts the last recovery first |
| Times.PartHasTheSameTime | backend/app/detection.py:230-254 | once the last recovery of a run is known, whatever else is known of the run, the derived time is that recovery's |
| Attempts.AttemptWorkflowIsOrderFreeIff | backend/app/upserts.py:328-372 | for consistent deliveries, a run attempt's own workflow column is the same for every order and repetition if and only if nothing writes the attempt, no run delivery supplies the run's workflow, or some run delivery is for that very attempt; and then which value it has |
| Attempts.AttemptWorkflowDependsOnOrder | backend/app/handlers.py:70-77 | two deliveries after which a run attempt's own workflow column is null or known depending on their order, while the run's workflow agrees |
| Replay.EventQueue.EnqueueReevaluation | backend/app/reevaluate.py:35-69 | appends, in order, one copy for every stored row of type webhook of the repository, or of all: type reevaluate, its payload and age, no delivery id, priority 1; nothing stored moves and the count returned is the number of those rows |
| Replay.SecondReevaluationQueuesTheSame | backend/app/reevaluate.py:42-44 | running it twice queues the same rows the second time |
| Replay.CopiesAreTheSources | backend/app/reevaluate.py:46-59 | the payloads copied are exactly the webhook payloads of the repository asked for |
| Replay.ReplayRebuilds | backend/app/reevaluate.py:35-69 | after any of the events were deleted, replaying the stored deliveries in any order and repetition changes no workflow and no completed or dominated row, and rebuilds every derived event of the repository and no other |
| Queue.BatchTakesTheFirst | backend/app/queue.py:42-83 | a batch is a prefix, in claim order, of the claimable unlocked rows, without repeats and as long as it can be |
| Queue.BackoffDoublesUntilCapped | backend/app/queue.py:29-39 | the first retry delay is the base and each is twice the one before, up to the cap |
| Queue.Table.ClaimBatch | backend/app/queue.py:42-83 | takes only rows that wait, each once, all of them if fewer than asked for, and none ahead of one of better priority or of the same priority and older; each is processing under a lock of now with one attempt more, which is the one returned |
| Queue.Table.MarkDone | backend/app/queue.py:86-92 | the row is done, stamped and unlocked, its other columns and all other rows unchanged |
| Queue.Table.MarkForRetry | backend/app/queue.py:95-125 | the row fails, stamped, exactly when its claim was the last; otherwise it is pending until now plus the base doubled with each attempt, up to the cap; unlocked, other columns and rows unchanged |
| Queue.Table.Defer | backend/app/queue.py:128-151 | the row is pending until now plus the seconds told, unlocked and with its attempt back; other columns and rows unchanged |
| Queue.Table.ReapStuck | backend/app/queue.py:154-185 | afterwards no row is stuck, no attempt count or payload moved, every row that changed was processing and is now unlocked and claimable or out of attempts, and exactly the processing rows locked before the timeout are returned |
| Queue.Table.FailExhausted | backend/app/queue.py:188-211 | afterwards no pending row is out of attempts, no attempt count or payload moved, and exactly the rows returned went from pending to failed, with the completion time stamped |
| Queue.Table.Sweep | backend/app/worker.py:100-121 | reap then fail: a row whose last attempt died with its worker is dead-lettered by the same pass |
| Protocol.AttemptsAreCounted | backend/app/queue.py:42-211 | in every interleaving, even with a reaper firing on a live worker, attempts are claims minus deferrals, cover the live claims, and stay within the ceiling |
| Protocol.AttemptsFollowTheSteps | backend/app/queue.py:42-151 | over every run, whatever the reaper does, the attempts a row has gained are the claims of it in the run less the deferrals |
| Protocol.RunsInTimeAreSafe | backend/app/worker.py:36-90 | if no live claim outlives the timeout: one live owner per processing row, done and failed absorbing, and writes committed exactly once and exactly when the row becomes done |
| Protocol.TerminalStays | backend/app/queue.py:86-151 | under ownership no step moves a done or failed row |
| Protocol.SweepKeepsOwnershipIff | backend/app/queue.py:154-185 | a sweep leaves every claim owned if and only if no live claim is older than the timeout |
| Protocol.ReapingALiveWorkerDuplicates | backend/app/queue.py:86-92 | a sweep past the timeout of a live claim lets two workers commit one row |
| Protocol.WaitsAreKept | backend/app/queue.py:95-151 | over any run in time, a row put back by a retry or a deferral is not claimed by any worker before its wait is over |
| Protocol.DeferralIsKept | backend/app/queue.py:128-151 | after a deferral nobody holds or can claim the row in any run in time until the seconds it was deferred for have passed |
| Protocol.RetryIsKept | backend/app/queue.py:95-125 | after a failed attempt likewise, until the base times two to the attempts before it, or the cap, has passed |
| Settling.ChangeLowersWeight | backend/app/queue.py:42-211 | every claim, retry, reap and fail lowers the row's measure; only a deferral raises it |
| Settling.EveryRowSettles | backend/app/queue.py:42-211 | in an unending run, if from some point on nothing is enqueued, sweeps go on, no row is deferred without end, and some row changes later whenever some row is claimable, then every row reaches done or failed and the table never changes again |
| Settling.RowThatIsClaimedSettles | backend/app/queue.py:42-211 | even while new rows keep arriving, a row that is claimed whenever it waits settles, under the same conditions on sweeps and deferrals |
| Settling.SettledRowsStay | backend/app/queue.py:42-211 | from then on it never changes |
| Worker.Process.ClaimBatch | backend/app/worker.py:43-45 | the jobs are those of the batch the queue picks, one claim each, committed before any work; this process then holds exactly those claims |
| Worker.Process.Process | backend/app/worker.py:48-88 | commit with done, defer, retry or death: one step of the protocol, in time, which releases the claim and leaves the row as the source does |
| Worker.Process.RunOnce | backend/app/worker.py:36-90 | one pass claims the batch, answers its rows one after the other until none is left or the process dies, returns how many it claimed, and holds no claim afterwards; its steps are a run of the protocol in which no live claim outlives the timeout |
| Worker.EveryClaimIsAnswered | backend/app/worker.py:47-90 | after a pass every row of the batch is done, or pending until the wait it was told, or until the backoff of its attempt, or failed, as its handler said; only if the process died is a row still processing, for the reaper to find |
| Worker.Process.RunForever | backend/app/worker.py:148-184 | each round is a sweep if due, a pass, and a pause if it found nothing; all rounds together are one run of the protocol in which no live claim outlives the timeout, so the timeout assumption of the safety results is discharged by the loop itself |
| Backfill.Repository.SaveCursor | backend/app/backfill.py:148-160 | the four cursor columns after a save |
| Backfill.Repository.StartBackfill | backend/app/backfill.py:195-234 | a pending crawl is left alone; otherwise one runs row is queued and the cursor is on the first page of a window that ends today and starts at the later of the configured width and the days asked for, or else the days configured for an observed or an installed repository |
| Backfill.Repository.RecordRun | backend/app/backfill.py:353-400 | records the run and queues a jobs row for each attempt from 1 to the latest, in order; a run without id does nothing |
| Backfill.Repository.HandleBackfillRuns | backend/app/backfill.py:242-350 | the cursor, the recorded runs and the queued rows after one page, under the floor the settings give for the day and the kind of repository |
| Backfill.PageInFull | backend/app/backfill.py:75-86 | one page in days and settings: unreadable; narrower, to the newest half; next page, within the cap; done exactly when the window handled starts at or before the oldest configured day; otherwise the adjoining window of the configured width, cut at that day |
| Crawl.WindowsPartitionTheDays | backend/app/backfill.py:102-136 | for any answers and floors the finished windows, the current window and the days not yet reached partition the days up to today |
| Crawl.EachDayOnce | backend/app/backfill.py:131-136 | adjoining windows cover each day between their ends exactly once |
| Crawl.FixedFloorIsExact | backend/app/backfill.py:131-136 | with a fixed floor, a done cursor means the finished windows are exactly the days from the floor to today |
| Crawl.PageLowersMeasure | backend/app/backfill.py:286-331 | every narrowing, page and window advance lowers end above the floor, then span, then pages left under the cap |
| Crawl.CrawlStops | backend/app/backfill.py:286-331 | the crawl stops for every sequence of answers, including changing totals and a floor that moves forward |
| History.PageIsFaithful | backend/app/backfill.py:261-331 | one page keeps: recorded runs are exactly those of the finished windows and finished pages, newest first |
| History.EachAttemptOnce | backend/app/backfill.py:393-400 | with distinct runs, every attempt of every recorded run has its jobs row exactly once, and nothing else has one |
| History.CrawlIsFaithful | backend/app/backfill.py:242-400 | for a fixed listing, and with crashes, rollbacks, deferrals, reaps and other workers' steps anywhere, what is recorded matches the cursor, and while running exactly one runs row is live unless it was dead-lettered |
| History.FinishedCrawlIsComplete | backend/app/backfill.py:325-339 | when the cursor reads done, however the floor moved between pages, every run within reach from the latest floor to the start day was recorded once, older ones only down to the earliest floor, and each attempt of each recorded run has one jobs row |
| History.FixedFloorCrawlIsTheHistory | backend/app/backfill.py:325-339 | with one floor throughout and no day over the cap, what is recorded is the whole history from the floor to the start day, each attempt queued once |
| History.ConfiguredHistoryIsCrawled | backend/app/backfill.py:75-86 | a crawl begun and finished on one day, whatever failed or was deferred in between, has recorded exactly the days configured for an installed, or for an observed, repository |
| History.KeptOfWindow | backend/app/backfill.py:280-316 | what a window yields: everything if it fits under the cap, and of a single day over the cap exactly its newest results up to the cap |
| History.UnstartedHolds | backend/app/backfill.py:195-234 | a repository never crawled satisfies the invariant, so the results hold from the beginning |
| Rollup.CountsAreOrdered | backend/app/detection.py:133-141 | flakes and failures never exceed opportunities nor those the runs, whatever the events say; a run both signals name counts once |
| Rollup.LatestCompletionIsTheMaximum | backend/app/rollup.py:137-137 | the last flake's time is attained by a flaky run and by none later |
| Tallies.DayInColumns | backend/app/rollup.py:125-153 | one row of the rollup in the columns it is counted from: rows that completed within the UTC day, of these the judged, the judged failures and those some event names, the latest completion of the last, and the durations of those that started |
| Tallies.WindowInColumns | backend/app/rollup.py:142-153 | a window has a row exactly for each workflow, job name and day from its first on that a run of the repository completed on |
| Implication.ImplicatedRunsAreOpportunities | backend/app/rollup.py:30-36 | in every reachable state every run an event names is a stored, eligible run of the event's repository |
| Implication.FlakesAreTheImplicated | backend/app/detection.py:133-141 | so the eligibility half of the flake filter excludes nothing: a day's flakes are all its implicated runs |
| Tallies.FlakesAreWhatTheRowsSay | backend/app/detection.py:113-141 | after any consistent deliveries a run counts as a flake if and only if the stored rows make it part of a recovery or of a disagreement on a commit |
| Rollup.WindowIsTheAggregate | backend/app/rollup.py:156-202 | whatever the table held, the repository's window equals the aggregate of the facts under the null-not-distinct key |
| Rollup.OthersUntouched | backend/app/rollup.py:174-193 | rows of other repositories and of days before the window do not move |
| Rollup.SecondRollupChangesNothing | backend/app/rollup.py:8-11 | a second recompute of the same facts changes nothing, row ids included |
| Rollup.StatsTable.Upsert | backend/app/rollup.py:174-183 | the row holding the key keeps its id and creation time; otherwise a new id is used |
| Rollup.StatsTable.UpsertAll | backend/app/rollup.py:174-183 | every row of the aggregate is written, and the ids returned are exactly those of the rows written |
| Rollup.StatsTable.DeleteOthers | backend/app/rollup.py:185-193 | afterwards every row in scope was just written; rows written or out of scope stay as they were, nothing is added, and the count is how many rows went |
| Rollup.StatsTable.RollupRepository | backend/app/rollup.py:156-202 | the whole table after a recompute: window replaced by the aggregate, surviving ids kept, the rest untouched |
| Board.SumCountsOnce | backend/app/stats.py:155-163 | a column summed over days is the number of distinct runs it counts on those days |
| Board.RollupBoardIsTheFacts | backend/app/stats.py:149-180 | for a cutoff inside the rolled-up window, the summed board equals the count over job rows of those days: groups, opportunities, failures and flakes |
| Board.BoardsAgreeIffNothingEarlierThatDay | backend/app/stats.py:387-426 | the day-cut and the instant-cut boards of one moment agree if and only if no eligible run completed earlier on that day |
| Tallies.BoardsInColumns | backend/app/stats.py:149-180 | both boards in the columns of the job rows: a group is shown exactly when it has a judged run since the cutoff, with the numbers of those runs, their failures and those some event names |
| Activity.AggregateIsLocal | backend/app/rollup.py:117-153 | a repository's aggregate depends on its own job rows and events only |
| Activity.DeliveryIsLocal | backend/app/handlers.py:59-125 | a repository none of whose job rows a delivery writes keeps its jobs and events |
| Activity.RollupRepos | backend/app/rollup.py:221-230 | the listed repositories agree with the facts and no other repository's rows moved |
| Activity.RollupRecent | backend/app/rollup.py:233-237 | the same for the repositories with a job row written since the given time |
| Activity.RollupAgreesAfterEverySweep | backend/app/worker.py:123-127 | from agreement, with consecutive sweeps at most three intervals apart, every repository's in-window rollup equals the full aggregate after every sweep |
| Activity.PunctualSweepsAgree | backend/app/worker.py:123-127 | the same for every run in which no more than three intervals pass between two sweeps |
| Tallies.RecentInColumns | backend/app/rollup.py:205-213 | the repositories swept are exactly those with a job row written within the last three intervals |
| Tallies.SweepReachesBack | backend/app/rollup.py:172-172 | the window recomputed begins with the UTC day that holds the instant so many days ago |
| Activity.SweepRepairsIffRecent | backend/app/rollup.py:205-213 | a sweep repairs a repository that fell behind if and only if it counts as recently active |
| Activity.MissedWriteStaysMissed | backend/app/rollup.py:205-237 | a repository that no longer counts as recently active keeps its rollup, right or wrong, over every run of deliveries elsewhere and sweeps, until one of its job rows is written |
| Wilson.IntervalHoldsTheRate | backend/app/stats.py:35-59 | undefined only without opportunities; otherwise 0 <= lower <= rate <= upper <= 1 |
| Wilson.IntervalInTerms | backend/app/stats.py:49-59 | neither clamp ever changes a bound |
| Wilson.IntervalIsTheScoreTest | backend/app/stats.py:35-44 | the interval holds exactly the rates from which the observed one is at most z standard errors away |
| Wilson.BoundsRiseWithFlakes | backend/app/stats.py:50-58 | at fixed opportunities both bounds strictly rise with flakes |
| Wilson.NeverAndAlwaysFlaky | backend/app/stats.py:41-59 | the exact intervals at no flakes, up to z^2 / (n + z^2), and at nothing but flakes, from n / (n + z^2): three out of three is not certainty |
| Wilson.ThreeOfThreeIsNotCertain | backend/app/stats.py:41-44 | at the confidence used, the lower bound of three flakes in three is 0.4385 |
| Wilson.IntervalTightensWithEvidence | backend/app/stats.py:3-7 | at equal rate, more opportunities strictly raise a positive lower bound and strictly lower an upper bound below one |
| Wilson.OutranksIff | backend/app/stats.py:3-7 | one job's lower bound exceeds another's if and only if the other's lower bound is below its rate and more than z standard errors away from it |
| Wilson.FarHigherRateOutranks | backend/app/stats.py:3-7 | a rate far enough above another's outranks it however many runs the other was seen on, so small samples can still top the board |
| Wilson.OneInTwoStillOutranksFiftyInAThousand | backend/app/stats.py:3-7 | the instance the module comment names: one flake in two has the higher lower bound than fifty in a thousand |
| Ranking.StableSortIsStable | backend/app/stats.py:188-189 | each pass is a sorted permutation that keeps the order of ties |
| Ranking.TwoPassesGiveTheBoardOrder | backend/app/stats.py:184-189 | any two stable passes, identity then rank, leave the rows in the order lower bound descending, opportunities descending, identity ascending |
| Ranking.BoardOrderInColumns | backend/app/stats.py:75-83 | in the columns of the rows: greater lower bound first, none last, then more opportunities, then repository and job name in string order, then workflow with none as zero |
| Names.LessIffFirstDifference | backend/app/stats.py:79-83 | strings are ordered by their first difference, a prefix first |
| Ranking.FullTiesKeepQueryOrder | backend/app/stats.py:187-189 | rows that tie on everything stay in the order the query returned them |
| Ranking.Ranked | backend/app/stats.py:183-190 | the result is in board order, also as its columns say it, as long as the limit allows, and no row left out belongs before a row kept |
| Ranking.OrderNeverShowsIffNoFullTie | backend/app/stats.py:184-189 | the board depends only on the multiset of rows if and only if no two different rows tie on everything |
| Ranking.PositiveWorkflowsNeverTie | backend/app/stats.py:79-83 | distinct groups without workflow zero never tie on everything |
| Ranking.ShorterBoardIsAPrefix | backend/app/stats.py:190-190 | the top k is a prefix of every longer board |
| RateLimit.WaitIsExact | backend/app/ratelimit.py:96-102 | with no response in between, a request may leave at a later instant if and only if the wait has passed, or the window turned over and nothing blocks |
| RateLimit.AdvanceRefills | backend/app/ratelimit.py:88-94 | time fills a bucket at a turnover and otherwise adds what flowed in, never beyond its capacity; time that runs backwards adds nothing |
| RateLimit.ObservedCorrects | backend/app/ratelimit.py:192-220 | each header's effect on the bucket in its own fields |
| RateLimit.RequestsAreBudgeted | backend/app/ratelimit.py:88-105 | over every run with non-negative remaining headers, tokens stay non-negative and issued plus tokens never exceed initial tokens plus accrued refill plus one capacity per turnover |
| RateLimit.SteadyPace | backend/app/ratelimit.py:88-94 | while the announced limit stands, requests issued are at most the initial tokens, the refill rate times the elapsed time, and what turnovers restored |
| RateLimit.EveryLookIsCapped | backend/app/ratelimit.py:93-93 | over every run no look leaves more tokens than the capacity |
| RateLimit.BurstIsCapped | backend/app/ratelimit.py:88-102 | however long the bucket was idle before, a stretch with one limit and no turnover issues at most one capacity and what flows in during it |
| RateLimit.ResponsePacesWhatFollows | backend/app/ratelimit.py:203-216 | after a response announcing a limit and a remainder, requests issued are at most the remainder, the announced rate times the elapsed time, and what turnovers restored |
| RateLimit.NothingLeavesWhileBlocked | backend/app/ratelimit.py:96-102 | over every run, no request leaves before the end of any block in force at any earlier time, whatever responses said since |
| RateLimit.NothingLeavesUnderEmbargo | backend/app/ratelimit.py:208-220 | no request leaves before the instant set by any earlier response, by retry-after or by an exhausted budget whose turnover that response or an earlier one announced |
| RateLimit.Bucket.Advance | backend/app/ratelimit.py:88-94 | at a turnover full; otherwise the lesser of the capacity and what was there plus what flowed in |
| RateLimit.Bucket.WaitForToken | backend/app/ratelimit.py:96-102 | brings the bucket up to date and gives the shortest wait after which nothing blocks and a token is there |
| RateLimit.Bucket.Observe | backend/app/ratelimit.py:192-220 | the bucket after one response: brought up to date, then limit, reset, remainder, clamped down and never up, and block, never shortened |
| RateLimit.RateLimiter.BucketOf | backend/app/ratelimit.py:147-159 | a full bucket on first use, the same bucket afterwards, no other bucket touched |
| RateLimit.RateLimiter.Acquire | backend/app/ratelimit.py:168-190 | a grant spends exactly one token after every block; a refusal spends none and its wait exceeds the maximum; every sleep but the last was interrupted by a response, so without responses there is at most one; and the call is a run of looks and responses in time order that ends in the budget reached and issues one request if granted, none if refused, so the budgeting results apply to it |
| TokenCache.OneFetchInFlight | backend/app/github.py:184-190 | in every interleaving the exchanges begun are those ended and those of the callers now waiting for one, and at any time at most one caller waits for one |
| TokenCache.InvariantAlways | backend/app/github.py:172-190 | exchanges alternate with their ends, the cache is exactly what the successful ones left, and no exchange begins while an earlier token is usable |
| TokenCache.TokensAreRenewedEarly | backend/app/github.py:54-55 | a cached token is handed out exactly while more than five minutes are left of it; without one the caller queues, and once it holds the lock begins an exchange |
| TokenCache.CancelledForGood | backend/app/github.py:184-190 | over every further run a caller cancelled while it queues never takes the lock or a token |
| TokenCache.BurstBuysOnce | backend/app/github.py:175-177 | a further exchange for an installation begins or succeeds only once the earlier token is no longer usable |
| TokenCache.UsableTokenIsKept | backend/app/github.py:185-187 | while a cached token stays usable no waiter begins an exchange and the entry does not change |
| TokenCache.NobodyIsStuck | backend/app/github.py:184-190 | a queued caller can enter, or can as soon as the exchange in flight ends, even by failing |
| TokenCache.Cache.Ask | backend/app/github.py:179-182 | a hit outside the lock returns a usable token and touches nothing |
| TokenCache.Cache.Enter | backend/app/github.py:184-188 | the second check returns a usable token or takes the lock for an exchange |
| TokenCache.Cache.Finish | backend/app/github.py:188-190 | success stores the token and releases the lock; failure releases it and stores nothing |

## Left out

- Transactions are atomic steps; SQL isolation, row locks and SKIP LOCKED appear only as claims being disjoint.
- Ties that SQL leaves open are broken by id: opportunities of one run and attempt, claim order, and the attempt `run_workflow_id` picks.
- Rows of repositories, installations and workflows, receipt columns, `last_error`, logs and metrics; `updated_at` only where the sweep reads it.
- JSON, HTTP, JWTs, signatures and auth; a listing is a function from window and page to a total and runs, and missing payload keys that raise before any write are not told apart.
- Backfill's run upsert does not propagate workflows, so backfill handlers are not steps of the detection invariant; `handle_backfill_jobs` is not modelled.
- Installation lifecycle handlers, `discover`, `history`, `usage`, `observe`, `ops`, the failure proofs of the public board, and the frontend.
- `api_request`'s loop of three attempts over acquire and observe, and the parsing of header values.
- Duration percentiles are any function of the day's durations; the board's `last_flake_at` is not compared, because the two boards take it from different columns.
- Float rounding in the Wilson interval, the bucket and backoff; the existence of the square root is assumed by taking it as a parameter.
- The `days` argument of `start_backfill` shapes only the first window and is modelled as such; completeness is stated for the floors the handler uses.
- A rollup pass computes its window from one reading of the clock, and a delivery begins after the last sweep, as in one worker process.
- Cancelling a task that holds the token lock counts as its exchange failing; `reset_token_cache` is not part of this model.
- Protocol.AttemptsAreCounted: assumes a row is enqueued with a non-negative ceiling, because the schema's default is positive.
- RateLimit.RequestsAreBudgeted: assumes non-negative remaining headers, because a negative one is a debt that a turnover forgives.
