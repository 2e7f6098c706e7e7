# Fraud pipeline: verified model

A Dafny model of the stateful backend of Fraudhunter and proofs of what it promises. Every transaction is one atomic
step; tables are maps and sequences. The modules follow the program:

- `JobRuns`, `QueueProtocol`, `QueueSafety`, `QueueTerminal`, `QueueAttempts`, `QueueLeases`, `QueueRuns`, `QueueHeartbeats`,
  `JobQueueStore`: the durable job queue. `JobRuns` holds the rows and their single-row updates, `QueueProtocol` the steps of
  any number of workers with their leases, heartbeats, locks and crashes, and the next six what holds over every run and the
  runs that show why each hypothesis is needed. `JobQueueStore` is the store and the job service as a class whose methods are
  proved against the same row functions.
- `Aggregates`, `IngestionRepository`, `Rollups`: merge, replace and purge keep the daily aggregates in step with the raw
  tables, and the grouped queries over the aggregates give what grouping the raw tables gives.
- `ClickPadding`, `PaddingQueries`, `DetectorRules`, `Detector`: the chunked click-padding metrics against their per-pair
  definition, the nine reasons against what the logs say, and the two-stage detector against a full scan.
- `FindingKeys`, `Generations`, `FindingsRepository`: finding and case keys, the replacement of a date's findings and
  every way of reading the current ones.
- `Freshness`: whether a date's findings are computed from the aggregates stored now, with ingestion interleaved.
- `Reviews`, `ReviewRuns`: review states, events and follow-up tasks.
- `RateLimit`, `Damage`, `Reasons`, `Text`: the sliding-window limiter, the damage snapshot, and the printer and parser of
  the detector's reasons.

Where the code does less than its documentation suggests, the code is modelled and the exact condition is proved:

- `complete`, `fail` and `requeue_blocked` do not look at worker or status. Terminal rows are final when finishing writes are
  owned (`TerminalIsFinal`), `TerminalChangesIff` says exactly which steps break it, `StaleExecutionReopens` is a run that
  does.
- Whether runs are owned is a matter of time: `PacedRunsAreOwnedIff` gives the delays and lost heartbeats a lease can take.
  Two lost heartbeats fit into the default lease of 300 seconds only with no delay at all (`TwoLostFits`), because each beat
  of the real thread waits its interval of 100 seconds on top of the call before it; one lost heartbeat leaves an interval
  of slack (`OneLostFits`).
- `fail` reads the attempts and writes them in two transactions: `RetriesAreBounded` where they are not separated,
  `RetriesAreBoundedIff` where they may be: then only jobs with a single attempt have a bound, and the service has none.
- A date replacement upserts raw rows but always counts: `ReplaceConsistentIff`, as a condition on table and batch.
- The key texts join addresses with `|`: `KeysCanClash`, and `RowCountExactIff` for what a clash costs.
- The damage evidence sums to the larger of total and details, except that a negative total without details is kept as it is.

Times are integers (seconds in the queue and the reviews, microseconds in logs and aggregates, reals in the limiter). Local
clock readings are non-decreasing. A clock reading and the transaction that uses it are one step. SHA-256 is taken to be
injective, so a key is the text it is made from; the number PostgreSQL hashes a lock key to is an arbitrary function of the
key. Generated ids are fresh.

## Model

| member | source | states |
|---|---|---|
| JobRuns.BackoffBounds | backend/src/fraud_checker/job_status_queue.py:538-540 | the default back-off of any attempt lies between 30 and 900 seconds and never shrinks from one attempt to the next |
| JobRuns.BackoffIsTable | backend/src/fraud_checker/job_status_queue.py:335-340 | the default delay after the first failures is 30, 60, 120, 240 and 480 seconds and then 900, and a given non-zero back-off is the delay itself |
| JobRuns.FailedRowIs | backend/src/fraud_checker/job_status_queue.py:320-373 | a failed row has one more attempt than was read; it is queued with its delay while attempts are left, so no acquire takes it within 30 seconds and any may after 900, and failed for good otherwise |
| JobRuns.ServiceSpecs | backend/src/fraud_checker/services/jobs.py:37-50 | lock, priority and attempts of the five kinds of jobs |
| JobRuns.RecoveredIsEligible | backend/src/fraud_checker/job_status_queue.py:198-250 | every run the recovery puts back into the queue is eligible in an acquire at the same or a later time |
| JobRuns.CandidateExists | backend/src/fraud_checker/job_status_queue.py:219-250 | as soon as one unskipped run is eligible there is a first one by priority and queueing time, so an acquire never comes back empty-handed |
| JobRuns.IndexAfterUpdate | backend/alembic/versions/0008_add_job_run_concurrency.py:28-34 | rewriting one row breaks the unique index exactly when it makes a terminal row active whose dedupe key another active row has |
| QueueSafety.InvAlways | backend/src/fraud_checker/job_status_queue.py:138-432 | in every run of any number of workers, owned or not: every row has the shape its status demands, active dedupe keys are unique, the lock table and the executions agree |
| QueueSafety.OneActiveRunPerDedupeKey | backend/src/fraud_checker/job_status_queue.py:103-120 | in every reachable state two active runs with the same dedupe key are the same run |
| QueueSafety.OnlyInsertsHitTheIndex | backend/src/fraud_checker/job_status_queue.py:275-373 | when finishing writes are owned, only an insert can be rejected by the unique index |
| QueueSafety.InsertConflict | backend/src/fraud_checker/job_status_queue.py:138-196 | an insert is rejected exactly when an active run with its dedupe key is there |
| QueueSafety.RunningRowsAreRecoverable | backend/src/fraud_checker/job_status_queue.py:198-217 | no running row is orphaned: each has a worker, a lease and a start, and the recovery after the lease's end puts it back |
| QueueSafety.OneDispatchPerKey | backend/src/fraud_checker/job_status_queue.py:495-517 | two executions that dispatch under the same concurrency key are one, whatever happened to leases and rows |
| QueueSafety.DateJobsNeverOverlap | backend/src/fraud_checker/services/jobs.py:110-124 | hence click ingestion, conversion ingestion and recompute of one date never run at the same time |
| QueueSafety.MasterSyncsNeverOverlap | backend/src/fraud_checker/services/jobs.py:110-124 | nor do two master syncs |
| QueueSafety.RowStep | backend/src/fraud_checker/job_status_queue.py:198-392 | an owned step inserts a fresh row or keeps a row's spec, never makes a row active again, and counts an attempt only in fail |
| QueueSafety.OwnersFitAlways | backend/src/fraud_checker/job_status_queue.py:219-250 | in every run, owned or not, each running row has a last acquirer, which is dead or works on just that row, under the worker name in it, and has not committed |
| QueueTerminal.TerminalIsFinal | backend/src/fraud_checker/job_status_queue.py:294-392 | over a whole run with owned finishing writes, a succeeded, failed or cancelled row never changes again until it is purged |
| QueueTerminal.TerminalChangesIff | backend/src/fraud_checker/job_status_queue.py:275-392 | exactly which single steps, owned or not, change the status of a terminal row |
| QueueRuns.StaleExecutionReopens | backend/src/fraud_checker/job_status_queue.py:356-373 | for every job with two attempts or more, a run of events in which an execution that lost its lease puts a succeeded run back into the queue, so ownership is needed |
| QueueAttempts.BudgetAlways | backend/src/fraud_checker/job_status_queue.py:320-373 | in every run whose fails write over the attempts they read, owned or not, the failures that requeued a job are covered by its attempt count and stay below max_attempts, purged jobs included |
| QueueAttempts.RetriesAreBounded | backend/src/fraud_checker/job_status_queue.py:320-373 | in every run with atomic fails, whatever happened to leases, owners and terminal rows, a job re-enters the queue through a failure at most max_attempts - 1 times |
| QueueAttempts.OwnedFailsAreAtomic | backend/src/fraud_checker/job_status_queue.py:320-373 | where finishing writes are owned, fail always writes over the attempts it read, although its read and its write are two transactions |
| QueueAttempts.OwnedRetriesAreBounded | backend/src/fraud_checker/job_status_queue.py:320-373 | so the retry bound holds over every owned run with nothing assumed about fail |
| QueueAttempts.FailWriteRows | backend/src/fraud_checker/job_status_queue.py:344-373 | a written failure changes just its row, to the status and retry time that follow from the attempts read |
| QueueAttempts.PurgeRows | backend/src/fraud_checker/job_status_queue.py:412-432 | retention deletes exactly the rows that are done and finished before the cutoff |
| QueueRuns.RequeuedAnyNumberOfTimes | backend/src/fraud_checker/job_status_queue.py:320-373 | without atomic fails, any job with two attempts or more, whatever its keys, can be requeued any number of times: that many executions stall between the two transactions of fail, lose their lease one after the other, and then all write |
| QueueRuns.RetriesAreBoundedIff | backend/src/fraud_checker/job_status_queue.py:320-373 | all runs requeue a job at most max_attempts - 1 times if and only if max_attempts is 1, and only then is there any bound at all |
| QueueRuns.NoServiceJobIsBounded | backend/src/fraud_checker/services/jobs.py:37-50 | no job type of the service has a single attempt, so for each of them every bound is broken by some run |
| QueueLeases.LeaseCoversThreeBeats | backend/src/fraud_checker/services/jobs.py:82-87 | the lease is 300 seconds or the configured ones but at least 30, the interval a third of it, so three intervals fit into every lease |
| QueueLeases.AllHeldAlways | backend/src/fraud_checker/services/jobs.py:138-153 | in every timely run each execution that has not committed yet owns its run, under the lease last written for it |
| QueueLeases.TimelyRunsAreOwned | backend/src/fraud_checker/services/jobs.py:368-419 | every run in which no uncommitted execution outlives its lease is an owned run, so leases discharge the ownership hypothesis |
| QueueLeases.OneExecutionPerRun | backend/src/fraud_checker/services/jobs.py:368-419 | in a timely run no two uncommitted executions work on the same run, and the owner's lease is not stale |
| QueueLeases.TimelyTerminalIsFinal | backend/src/fraud_checker/job_status_queue.py:294-392 | terminal rows are final in every timely run, with no assumption about ownership |
| QueueHeartbeats.PacedRunsAreTimely | backend/src/fraud_checker/services/jobs.py:138-153 | when set-up, lost heartbeats, heartbeat latency and failing fit into the lease, no uncommitted execution of any run that keeps that pace outlives its lease |
| QueueHeartbeats.TooSlowLosesOwnership | backend/src/fraud_checker/services/jobs.py:138-153 | for every pace that does not fit there is a run that keeps it and in which an execution fails a run it no longer owns |
| QueueHeartbeats.PacedRunsAreOwnedIff | backend/src/fraud_checker/services/jobs.py:138-153 | all runs that keep a pace are owned exactly when setup + (lost + 1) * (interval + latency) + failing fits into the lease |
| QueueHeartbeats.TwoLostFits | backend/src/fraud_checker/services/jobs.py:82-87 | two lost heartbeats in a row fit into every configured lease if nothing else takes time, and into the default one only then |
| QueueHeartbeats.OneLostFits | backend/src/fraud_checker/services/jobs.py:82-87 | one lost heartbeat leaves a whole interval of every configured lease for all other delays |
| JobQueueStore.JobStatusQueueStore.Enqueue | backend/src/fraud_checker/job_status_queue.py:138-196 | inserts exactly the new queued row, or reports the conflict and leaves the table alone, precisely when an active duplicate exists |
| JobQueueStore.JobStatusQueueStore.AcquireNext | backend/src/fraud_checker/job_status_queue.py:219-250 | recovers stale runs, then gives the worker the waiting run with the least priority number and, among those, the longest wait, with its lease and start; none only when no run waits |
| JobQueueStore.KindsInOrder | backend/src/fraud_checker/services/jobs.py:44-50 | a claim never passes over a waiting service job of an earlier kind, refreshes first and master syncs last, nor over one of its kind that waits longer |
| JobQueueStore.JobStatusQueueStore.RequeueBlocked | backend/src/fraud_checker/job_status_queue.py:275-292 | a blocked run goes back to queued, kept back for the given seconds and at least one, with no worker or lease; the rest of the row stays |
| JobQueueStore.JobStatusQueueStore.Fail | backend/src/fraud_checker/job_status_queue.py:320-373 | counts the attempt and fails the run, or queues it again after the delay for its attempts: 30 seconds at the least and 900 at the most, or the explicit back-off; an unknown run is an error |
| JobQueueStore.JobStatusQueueStore.EnqueueJob | backend/src/fraud_checker/services/jobs.py:156-217 | any run returned carried the dedupe key and was active in the table found at the call or in the one at its end, also on the insert-race path; the insert's error comes back only when no active run has the key any more |
| JobQueueStore.JobStatusQueueStore.EnqueueFindingsRecomputeJobs | backend/src/fraud_checker/services/jobs.py:258-279 | afterwards every date has an active recompute job, the one returned for it; nothing but fresh recompute jobs of those dates came in and no old row changed |
| JobQueueStore.JobStatusQueueStore.DispatchJob | backend/src/fraud_checker/services/jobs.py:568-700 | a refresh or master sync may insert recompute jobs before it returns or raises, and no other job body touches the table |
| JobQueueStore.JobStatusQueueStore.ExecuteJobRun | backend/src/fraud_checker/services/jobs.py:368-419 | an execution always takes its run out of running: blocked, completed or failed; other rows do not change, and only a refresh or master sync that dispatched adds rows, fresh recompute jobs |
| JobQueueStore.JobStatusQueueStore.ProcessQueuedJobs | backend/src/fraud_checker/services/jobs.py:345-365 | the loop is exactly the counted turns of recovery, claim of the first eligible run and its execution; it stops early only when nothing is eligible, jobs inserted on the way included; what is running afterwards was running, unchanged, before; rows that came in are recompute jobs and no spec changes |
| IngestionRepository.Repository.MergeClicks | backend/src/fraud_checker/repositories/ingestion.py:308-345 | stored ids keep their log, new ones get the first of the batch, aggregate rows gain a count per new log and otherwise stay; new and skipped logs are counted and the dates of the new ones reported |
| IngestionRepository.Repository.MergeConversions | backend/src/fraud_checker/repositories/ingestion.py:347-391 | the same for conversions, where only valid entries are aggregated |
| IngestionRepository.Repository.IngestClicks | backend/src/fraud_checker/repositories/ingestion.py:101-113 | clears just the date, then stores its last log per id and counts its logs in a transaction of its own, whatever other sessions commit in between; every row of another day stays unless a log of the day has its id |
| IngestionRepository.Repository.IngestConversions | backend/src/fraud_checker/repositories/ingestion.py:199-210 | afterwards the date's raw rows are its last log per id, its aggregate rows count its valid entries, and every row of another day is unchanged unless a log of the day has its id |
| IngestionRepository.Repository.PurgeRawBefore | backend/src/fraud_checker/repositories/ingestion.py:393-398 | deletes exactly the raw rows before the cutoff and leaves the aggregates |
| IngestionRepository.Repository.PurgeAggregatesBefore | backend/src/fraud_checker/repositories/ingestion.py:400-405 | deletes exactly the aggregate rows of days before the cutoff and leaves the raw rows |
| Aggregates.StoreIsStored | backend/src/fraud_checker/repositories/ingestion.py:101-171 | storing a day's logs one by one leaves the last one under each id, counts each of them once, and touches nothing else |
| Aggregates.ReplaceIsReplaced | backend/src/fraud_checker/repositories/ingestion.py:89-125 | clearing and storing together renew exactly the one day |
| Aggregates.MergeIsMerged | backend/src/fraud_checker/repositories/ingestion.py:308-391 | a merge adds the first log of each new id, and to each aggregate row as many counts as its group gained raw rows |
| Aggregates.StoreMatches | backend/src/fraud_checker/repositories/ingestion.py:63-87 | storing a log where nothing of a group is overwritten keeps the group's count, first and last time equal to its raw rows |
| Aggregates.ConsistentAlways | backend/src/fraud_checker/repositories/ingestion.py:308-423 | after any run of merges, clearings, stores, replacements and purges whose stores do not collide, every aggregate row above the purge horizon is the grouping of the raw rows |
| Aggregates.CollidesIff | backend/src/fraud_checker/repositories/ingestion.py:127-171 | storing a day's logs overwrites a counted row exactly when, before the call, a log of the day has the id of a counted row or two of them share an id and the earlier one counts |
| Aggregates.StoreConsistentIff | backend/src/fraud_checker/repositories/ingestion.py:101-113 | the second transaction of a click replacement keeps the aggregates in step exactly when its logs do not collide with the table it finds |
| Aggregates.ReplaceConsistentIff | backend/src/fraud_checker/repositories/ingestion.py:199-210 | a replacement keeps the aggregates in step exactly when its logs do not collide with the cleared table |
| Aggregates.FreshIdsNeverOverwrite | backend/src/fraud_checker/repositories/ingestion.py:127-171 | distinct ids that are not stored under other dates never collide |
| Aggregates.RepeatedLogBreaks | backend/src/fraud_checker/repositories/ingestion.py:199-210 | any counted log that is twice in the batch of a replacement collides, and is counted twice for its one raw row |
| Aggregates.MergeBetweenBreaks | backend/src/fraud_checker/repositories/ingestion.py:101-113 | any counted log merged between the clearing and the store of a replacement that has it too collides, and is counted twice for its one raw row |
| Aggregates.MergedDatesCover | backend/src/fraud_checker/repositories/ingestion.py:308-391 | every date whose aggregate rows a merge changed is among the reported dates |
| Aggregates.CountsAlways | backend/src/fraud_checker/repositories/ingestion.py:63-99 | every aggregate row the ingestion can reach counts at least one log |
| Rollups.RollupsRefineRaw | backend/src/fraud_checker/repositories/reporting_read.py:126-162 | the rollups of the aggregate table are those of the raw valid-entry conversions: sum, distinct media and programs, first and last time |
| Rollups.RollupsRefineRawAlways | backend/src/fraud_checker/repositories/reporting_read.py:126-162 | and so in every state the ingestion can reach, for days above the purge horizon |
| Rollups.FilterCommutes | backend/src/fraud_checker/repositories/reporting_read.py:436-500 | filtering rows before grouping gives the groups that filtering pairs after it gives |
| PaddingQueries.FetchMetrics | backend/src/fraud_checker/repositories/reporting_read.py:199-227 | for any chunk size and pair order the result has exactly the pairs with conversions, each with the metrics of its own definition |
| PaddingQueries.BuildMetrics | backend/src/fraud_checker/repositories/reporting_read.py:348-434 | one chunk, through dictionaries shared by its pairs, yields the per-pair metrics |
| ClickPadding.MetricsMeaning | backend/src/fraud_checker/repositories/reporting_read.py:348-434 | linked and extra clicks are disjoint, the useragent list has exactly the extra count, and counts over it depend on the clicks alone |
| Detector.FetchGaps | backend/src/fraud_checker/repositories/reporting_read.py:164-197 | minimum and maximum gap of exactly the pairs with timed conversions |
| Detector.AddGapCandidates | backend/src/fraud_checker/suspicious.py:80-96 | the second stage adds each pair with gap data that passes the filter and is not listed yet, once |
| Detector.FindForDate | backend/src/fraud_checker/suspicious.py:63-153 | reports each kept pair that passes a threshold or has gap data and has a reason, once, with its numbers and exactly the reasons they give, each reason by its written-out inequality |
| DetectorRules.NothingMissed | backend/src/fraud_checker/suspicious.py:155-254 | what a full scan would find beyond the two stages has reasons about click padding only |
| DetectorRules.FindingSays | backend/src/fraud_checker/suspicious.py:155-254 | each of the nine reasons is in a finding if and only if its inequality holds of the counts, the time span, the least or greatest click gap, the linked clicks or the extra clicks, in a fixed order and each once |
| DetectorRules.FastIff | backend/src/fraud_checker/suspicious.py:180-190 | a finding is called fast if and only if the rule is set and some timed conversion of the pair came sooner after its click |
| DetectorRules.SlowIff | backend/src/fraud_checker/suspicious.py:191-200 | a finding is called slow if and only if the rule is set and some timed conversion of the pair came later after its click |
| DetectorRules.PaddingForIs | backend/src/fraud_checker/repositories/reporting_read.py:348-434 | the padding numbers count the clicks that name a conversion of the pair by id or cid, and the other clicks of the day for the same affiliate and promotion within half an hour of them |
| Detector.FindingsAreOfRawLogs | backend/src/fraud_checker/suspicious.py:63-153 | after any collision-free ingestion run, for a day above the purge horizon, the detector reports exactly the pairs the raw logs make suspect, each once, with the counts and times of the raw logs and exactly the reasons these give |
| FindingKeys.CaseKeysEqualIff | backend/src/fraud_checker/services/findings.py:30-31 | two case texts are equal exactly for the same date and pairs that are equal or differ by a shifted separator |
| FindingKeys.FindingKeysEqualIff | backend/src/fraud_checker/services/findings.py:193-195 | two finding texts are equal exactly when case and rule version are |
| FindingKeys.NoClashWithoutSeparator | backend/src/fraud_checker/services/findings.py:30-31 | addresses without the separator never clash |
| FindingKeys.KeysCanClash | backend/src/fraud_checker/services/findings.py:193-196 | two different pairs of one date with the same keys |
| FindingKeys.KindsAreDisjoint | backend/src/fraud_checker/repositories/suspicious_findings_write.py:72-179 | no text is both a finding key and a case key |
| Generations.InvAlways | backend/src/fraud_checker/repositories/suspicious_findings_write.py:308-428 | after any recomputes and purges: one current generation per type and date, every current finding carries the id of its date's one, one rule version per date |
| Generations.OneCurrentPerCase | backend/src/fraud_checker/repositories/suspicious_findings_write.py:308-370 | at most one current finding per case key, whatever the addresses contain |
| Generations.JoinIsNoOp | backend/src/fraud_checker/repositories/suspicious_findings_read.py:13-22 | joining the generations neither drops nor repeats a current finding |
| Generations.CurrentIsLastRecompute | backend/src/fraud_checker/repositories/suspicious_findings_read.py:147-167 | every reader sees exactly the findings of the date's last recompute since its last purge, contents included |
| Generations.RowCountExactIff | backend/src/fraud_checker/services/findings.py:230-245 | the generation's row count is the number of current findings exactly when no two detected pairs clash |
| Generations.ReadersAgree | backend/src/fraud_checker/repositories/suspicious_findings_read.py:226-296 | joined, unjoined and console reads count the same rows: the row count of the last recompute, or none after a purge |
| Generations.LineageIsLastRecompute | backend/src/fraud_checker/repositories/reporting_read.py:47-69 | the lineage read returns the generation of the last recompute, and only that one |
| FindingsRepository.SuspiciousFindingsRepository.ReplaceConversionFindings | backend/src/fraud_checker/repositories/suspicious_findings_write.py:308-428 | keeps the date's old findings and generations as history that is no longer current, adds a row per detected pair with its total, and leaves every other date alone |
| FindingsRepository.SuspiciousFindingsRepository.RecomputeFindingsForDates | backend/src/fraud_checker/services/findings.py:121-256 | every target date shows exactly its detected pairs with their totals, every other date what it showed before, contents included |
| FindingsRepository.SuspiciousFindingsRepository.PurgeFindingsBefore | backend/src/fraud_checker/repositories/suspicious_findings_read.py:246-260 | deletes exactly the findings dated before the cutoff in calendar order, or leaves them, and reports in either case how many rows the deletion takes away |
| Freshness.BuildFindingsFreshness | backend/src/fraud_checker/services/reporting.py:17-52 | which reasons are reported, as conditions on data, lineage, watermark and settings |
| Freshness.ChangeAdvances | backend/src/fraud_checker/repositories/ingestion.py:173-197 | a write that changes a day's rows leaves the day empty or its watermark above every earlier stamp |
| Freshness.SourceAdvancedIff | backend/src/fraud_checker/services/reporting.py:36-39 | in every interleaving: for a day with conversions the watermarks agree exactly when no write changed the day's rows since the generation's computation read its watermark |
| Freshness.FreshIsCurrent | backend/src/fraud_checker/services/reporting.py:17-52 | then every query of that computation saw exactly the rows stored now |
| Freshness.ReportIsRight | backend/src/fraud_checker/services/reporting.py:17-52 | what the report says about a day with conversions is right: neither missing nor advanced means the findings were computed from the rows stored now, advanced means a write has changed them since |
| Freshness.FreshRollupsAreRaw | backend/src/fraud_checker/services/findings.py:144-256 | and the rollups it formed are those of the raw conversions stored now |
| Reviews.OneEventPerCase | backend/src/fraud_checker/repositories/suspicious_findings_write.py:94-179 | a call writes one event for each matched current case and none for any other, so the updated count is the matched count |
| Reviews.MissingNamesNothing | backend/src/fraud_checker/services/console.py:727-762 | a requested key is missing exactly when no current finding has it as finding or case key |
| Reviews.SyncedTasks | backend/src/fraud_checker/repositories/suspicious_findings_write.py:430-514 | no review drops a task or moves a completed one; a confirmation refreshes all three tasks of its cases with their due times, a clearing cancels what is not completed, and every other task is untouched |
| Reviews.DecisionTasks | backend/src/fraud_checker/repositories/suspicious_findings_write.py:14-23 | after a confirmation all three tasks of a matched case are there and none is cancelled; after a clearing none is open |
| ReviewRuns.GoodAlways | backend/src/fraud_checker/repositories/suspicious_findings_write.py:109-179 | over any run each case's state is its latest event, task ids are unique, completion times are set exactly on completed tasks, and a confirmed case has all three tasks, none cancelled |
| ReviewRuns.HistoryGrows | backend/src/fraud_checker/services/console.py:318-372 | over any run each review appends exactly one event per matched current case and nothing else touches the history |
| ReviewRuns.TaskIsStable | backend/src/fraud_checker/repositories/suspicious_findings_write.py:264-306 | over any run a task keeps its row and id, and stays completed until it is itself set to open |
| FindingsRepository.SuspiciousFindingsRepository.ApplyReviewAction | backend/src/fraud_checker/services/console.py:318-372 | only the four status texts with a reason of 1 to 500 characters are accepted, and refused or empty requests write nothing; confirmed_fraud leaves each matched case confirmed with three uncancelled tasks due in 1, 4 and 24 hours, white and unhandled leave none open, investigating leaves tasks alone, no other case changes, and the counts and missing keys are right |
| FindingsRepository.RequestedKeys | backend/src/fraud_checker/services/console.py:703-723 | a request means its non-empty keys, or the cases of the shown current findings when it has none |
| Reviews.ReviewDecides | backend/src/fraud_checker/repositories/suspicious_findings_write.py:94-179 | a review writes its decision as the state of each matched case, one event each, and the tasks that go with its text |
| FindingsRepository.SuspiciousFindingsRepository.UpdateFollowupTaskStatus | backend/src/fraud_checker/services/console.py:397-414 | sets the one task with the id to completed by whom and when, or open again, leaves every other, and reports not found exactly when there is none |
| RateLimit.SlidingWindowRateLimiter.Allow | backend/src/fraud_checker/rate_limit.py:20-31 | the pruned deque decides like counting over all accepted calls; a refusal means a full window, and its wait is what is left until the oldest call in the window leaves it, cut to whole seconds and at least one |
| RateLimit.AcceptKeepsBound | backend/src/fraud_checker/rate_limit.py:20-31 | accepting into a window with room keeps every window of the history within the limit |
| RateLimit.DequeCounts | backend/src/fraud_checker/rate_limit.py:24-26 | what is left of the deque after the pruning is exactly the window's calls |
| RateLimit.RefusalBounds | backend/src/fraud_checker/rate_limit.py:27-28 | every refusal's wait is between one second and the larger of one second and the window |
| Damage.EstimateDamage | backend/src/fraud_checker/services/findings.py:54-118 | each positive detail becomes a row at its program's observed price or at 3000 yen, one row at 3000 yen stands for what they do not explain, the estimate is the sum of counts times prices, the label is single exactly when all rows share their source |
| Damage.FillerNeverNeeded | backend/src/fraud_checker/repositories/suspicious_findings_read.py:24-81 | with details from the rollup's own aggregates the counts agree, and no filler row is needed exactly when there is a conversion |
| Damage.FillerNeverNeededAlways | backend/src/fraud_checker/services/findings.py:54-118 | in every state the ingestion can reach, for every pair with a rollup, the details explain the whole total, so no filler row is needed |
| Reasons.RoundTrip | backend/src/fraud_checker/api_presenters.py:53-124 | every printed reason of whole numbers reaches its own branch, which says what the reason says |
| Reasons.RatioRoundTrip | backend/src/fraud_checker/api_presenters.py:100-106 | a printed click-padding ratio reaches its own branch and is shown as printed |
| Reasons.NonBrowserRoundTrip | backend/src/fraud_checker/api_presenters.py:114-122 | a printed share of clicks without a browser reaches its own branch with the number its percentage is made from |
| Reasons.ClicksRoundTrip | backend/src/fraud_checker/api_presenters.py:56-58 | a printed click threshold reaches its own branch and is shown |
| Reasons.ClickBurstRoundTrip | backend/src/fraud_checker/api_presenters.py:65-72 | a printed burst of clicks is shown with its count and its duration, and is not taken for one of conversions |
| Reasons.FastThreshold | backend/src/fraud_checker/api_presenters.py:84-91 | a fast reason without its least gap shows the threshold |
| Reasons.SlowThreshold | backend/src/fraud_checker/api_presenters.py:92-99 | a slow reason without its greatest gap shows the threshold as a duration |
| Reasons.RatioThreshold | backend/src/fraud_checker/api_presenters.py:104-106 | a ratio reason without its ratio shows the threshold |
| Reasons.ExtraThreshold | backend/src/fraud_checker/api_presenters.py:107-113 | an extra-clicks reason without its count shows the threshold |
| Reasons.NonBrowserThreshold | backend/src/fraud_checker/api_presenters.py:119-122 | a no-browser reason without its share shows the threshold |
| Reasons.ShortBursts | backend/src/fraud_checker/api_presenters.py:65-83 | a burst with too few words is shown without numbers |
| Reasons.OthersAreVerbatim | backend/src/fraud_checker/api_presenters.py:123-124 | a text none of the branches is for is shown as it is |
| Reasons.NumbersSurvive | backend/src/fraud_checker/api_presenters.py:47-51 | the sentence shows exactly the number that was printed |
| Reasons.DurationIsFloor | backend/src/fraud_checker/api_presenters.py:34-44 | a shown duration is the printed seconds cut to the largest unit that fits |
| Reasons.FormatReasons | backend/src/fraud_checker/api_presenters.py:53-124 | the loop formats each reason by itself, in order |

## Left out

- Frontend, routers, authentication, command line, logging, CSV export and the ACS client: plumbing and external formats.
- Master sync, health checks, daily statistics, labels and masking: only easy members.
- Legacy-schema branches: all tables and columns are there.
- `message`, `params_json`, `result_json` and `error_message` of a job run, and the display columns of a finding (names, risk,
  reasons, metrics, search text): carried along, never decided on. Labels of follow-up tasks are constants of their type.
- The dedupe key's canonical JSON: a dedupe key is given text.
- `refresh` jobs have no concurrency key, so nothing is claimed about two refreshes or a refresh beside a date job.
- Merging clicks with `store_raw` off: no caller does, and a repeated click would be counted again.
- Settings freshness when an old fingerprint is saved again, and click watermarks, which are stored and never compared.
- Risk levels, the reward read from raw payloads and the representative unit price: prices are a given map.
- Assigning cases to users.
- A lock session that drops while its job dispatches: the job would go on without its lock. Database errors before the
  dispatch are steps of the protocol.
- QueueAttempts.RetriesAreBounded: for runs whose fails write over the attempts they read; `RetriesAreBoundedIff` says what is left
  without that.
- QueueLeases.TimelyRunsAreOwned: timely means that no execution outlives its lease before its commit, nobody cancels (nothing
  calls cancel) and leaving the lock block after the commit does not raise.
- QueueHeartbeats.PacedRunsAreOwnedIff: a heartbeat that raises ends its thread, which is a run whose later heartbeats are all
  lost; the paced runs also hold those in which a later one gets through.
- JobQueueStore.JobStatusQueueStore.ExecuteJobRun: one worker without concurrent steps or heartbeats; `QueueProtocol` has those.
  The dates a job body inserts recompute jobs for are any dates.
- JobQueueStore.JobStatusQueueStore.EnqueueJob: what other sessions do between its transactions is given as the tables they
  leave, which keep the table's invariant and do not take the new id.
- Aggregates.ConsistentAlways: for runs whose stores and replacements do not collide; one that does breaks the aggregates.
- Detector.FindForDate: the rollup queries are given answers in any order; the SQL and the Python filter are one predicate; the
  float ratios are compared as cross-multiplied integers.
- FindingsRepository.SuspiciousFindingsRepository.RecomputeFindingsForDates: dates come in any order instead of sorted, which no
  reader can tell.
- FindingsRepository.SuspiciousFindingsRepository.ApplyReviewAction: the select for the answer and the one for the writes see the
  same store; white space to strip is ASCII.
- FindingsRepository.SuspiciousFindingsRepository.UpdateFollowupTaskStatus: takes open or completed as a flag, the refusal of other
  texts is left out.
- Freshness.FreshIsCurrent: the report itself is one step, and stamps follow the commit order; about aggregates only, gap and
  padding queries read raw tables.
- RateLimit.SlidingWindowRateLimiter.Allow: times are reals instead of floats, the clock does not run backwards and a key keeps
  its rule, as in every caller.
- Damage.EstimateDamage: program names in the evidence are left out.
- Reasons.RoundTrip: numbers read as `float` are whole numbers, others count as not readable, which no printed reason is; the
  sentences are templates with their fillings instead of Japanese text.
- Reasons.RatioRoundTrip: a ratio is any text of digits and points; rounding it to two decimals is left out.
- Reasons.NonBrowserRoundTrip: the sentence carries the printed share; turning it into a percentage with floats is left out.
