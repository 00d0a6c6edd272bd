# Verification of the shoprl control plane

A Dafny model of the parts of shoprl whose correctness is a matter of state over time,
with proofs of what they promise and, where a promise is broken by some run, the run and the
exact condition under which it holds.

* **Job queue.** `Jobs` holds the lifecycle graph. `JobTable` holds every statement the store runs,
  as a function on a map from ids to jobs; `transition()` and `fail()` are split there into the read
  and the guarded UPDATE. Two layers share these functions:
  * `Protocol` interleaves any number of processes statement by statement, with crashes between
    any two statements; `Ownership`, `RetryBound` and `Reapers` say exactly when a claim, the retry
    bound and a reap hold up; `ProtocolEdges` holds the runs that break naive statements;
    `Atomicity` says when an interleaved operation does what the atomic one does.
  * `JobStores` is the store as an object with atomic methods, `Histories` runs of them, `Drains`
    and `Pool` their end, and `Schedulers`, `Workers`, `Recovery`, `OomRetry` and `Control` are built
    on that object.
* **Crash-atomic registries.** `Ingest` interleaves file-system steps of any number of writers and
  sweeps; `Checkpoints` is the registry object; `Policy` numbers versions on top of `Ingest`.
* **Lineage.** `Artifacts`: the two tables and the worklist search.
* **Shopping environment.** `Shop`: the episode machine and its score.
* **Rewards.** `Claims` (the merge of parsed lines), `Reward` (scores) and `Advantages`
  (group and leave-one-out advantages, over exact reals).

`Basics` holds stock datatypes and the finite sum that the drain argument uses.

Where the code and its documentation disagree, the model follows the code:

* `BatchPlan.shrink` is documented to preserve the effective batch. An odd microbatch from 5 on
  loses one round of gradient accumulation (`Recovery.ShrinkEffect`).
* A heartbeat is documented to keep a healthy job from ever being reaped. Leases name no owner, so a
  worker that was reaped but lives on completes another's claim, and a second reaper with an older
  list fails a healthy one (`ProtocolEdges`). `Ownership.OwnedExactlyIfForgotten` says exactly when a
  claim is safe, and `Histories.KeptExactlyIfCovered` exactly when uninterrupted reaps spare it.
* `max_attempts` bounds failures as long as every write counts from the attempts it finds. A write on
  a stale read undoes counts, and a job fails beyond its bound by no more than was undone
  (`RetryBound.FailuresAreBoundedByUndone`), which can be any number of times
  (`ProtocolEdges.StaleWritesUndoTheRetryBound`).
* `run_with_oom_recovery` returns nothing when its tries run out while the batch could still
  shrink. `serve_pending` then stores the job as SUCCEEDED and raises a TypeError, and the jobs
  admitted after it stay RUNNING (`Control.OutOfMemoryStoredAsSuccess`, `Control.AbortStrandsTheRest`).
* `serve_pending` treats a cancel of the job it runs as benign, but not one of a job it admitted and
  has not come to yet: renewing that job's lease raises and ends the pass. Another server's reap does
  the same once the earlier job has run beyond the 30 seconds that admission gave the later one
  (`Control.AbortedIff`, `Control.LongRunAborts`).
* `prune` is documented to return the removed checkpoints. It ignores removal errors, so what it
  returns may still be there, listed exactly if its manifest is left, and then corrupt
  (`Checkpoints.PruneKeepsRecentAndProtected`, `Checkpoints.HalfRemovedIsCorrupt`).
* `serve_forever` with `drain_and_exit` is documented to return once the queue is empty. It returns
  once every waiting job is blocked (`Control.IdleIffAllBlocked`, `Control.DrainStopsEarly`).
* `sweep_staging` while a writer is at work can make that writer commit a checkpoint whose
  manifest lists a missing file (`Ingest.SweepDuringWrite`).
* `RecoveryController.handle` on a job that is no longer RUNNING raises, but for a shrinkable OOM
  only after it has replaced the payload (`Recovery.HandleOnStoppedJob`).

## Model

| member | source | states |
|---|---|---|
| Jobs.TerminalIffNoExit | src/shoprl/platform/jobs.py:39-53 | the states listed as terminal are exactly those without an outgoing edge |
| Jobs.FailPathLegalIffRunning | src/shoprl/platform/store.py:223-232 | the edge-by-edge check in fail() accepts a job exactly if it is RUNNING |
| Jobs.StoredMoveFollowsGraph | src/shoprl/platform/store.py:215-242 | every stored change of state, fail()'s collapsed one included, is a path of edges and never starts in a terminal state |
| JobTable.FailMeaning | src/shoprl/platform/store.py:215-242 | fail() succeeds exactly on RUNNING jobs, leaves PENDING or DEAD_LETTER by the retry bound, clears the lease, and otherwise names the refused edge |
| JobTable.TransitionSucceedsExactly | src/shoprl/platform/jobs.py:39-66 | state by state which moves succeed: cancel on PENDING, RUNNING and PAUSED, pause on PENDING and RUNNING, resume on PAUSED, and so on; what they leave and what they raise |
| JobTable.PlansAreLegal | src/shoprl/platform/store.py:95-114 | what transition() and fail() are about to write was validated: an edge, or RUNNING to PENDING or DEAD_LETTER |
| Protocol.StepLegal | src/shoprl/platform/store.py:95-114 | no step, on however stale a read, moves a job other than along the graph or loses a job |
| Protocol.EveryStepFollowsGraph | src/shoprl/platform/store.py:215-242 | the same for each step of any run of any processes with crashes |
| Protocol.TerminalIsForever | src/shoprl/platform/jobs.py:49-66 | in every run a finished job keeps its row but for the payload |
| Protocol.ClaimsAreExclusive | src/shoprl/platform/store.py:128-182 | in every run, won claims and starts by hand less exits from RUNNING are one exactly while the job is RUNNING |
| Protocol.TwoWinsNeedAReleaseBetween | src/shoprl/platform/store.py:142-158 | between two won claims of one job some commit took it out of RUNNING, however stale the candidate lists |
| Protocol.NoReleaseKeepsRunning | src/shoprl/platform/store.py:128-159 | a RUNNING job stays so in every run in which no commit takes it out |
| Protocol.LeaseImpliesRunning | src/shoprl/platform/store.py:103-108 | in every run only RUNNING jobs hold a lease |
| Protocol.ClaimedRunsAlwaysLeased | src/shoprl/platform/store.py:196-209 | if transition() is not used to start jobs, every RUNNING job holds a lease in every run |
| Protocol.FirstResultStays | src/shoprl/platform/store.py:261-268 | a recorded result is never overwritten or lost |
| Protocol.HandlerNeverRunsAgain | src/shoprl/platform/workers.py:48-62 | a job with a result that nobody handles is never handled again, redelivery and crashes included |
| Protocol.SucceededHasResult | src/shoprl/platform/workers.py:48-62 | in every run in which only workers complete jobs, every SUCCEEDED job has a recorded result |
| ProtocolEdges.FailedIsTransientIff | src/shoprl/platform/failures.py:144-147 | over whole runs a FAILED job always has a process about to dead-letter it, exactly if no crash hits the only such process of a job |
| ProtocolEdges.InTransitUnlessStranded | src/shoprl/platform/failures.py:144-147 | the same for each single step |
| ProtocolEdges.StrandedStaysFailed | src/shoprl/platform/failures.py:144-147 | a stranded job stays FAILED in every run without an operator's transition() on it |
| ProtocolEdges.CrashStrandsFailed | src/shoprl/platform/failures.py:144-147 | from an empty table a run with a crash between the two commits ends in FAILED with every process idle |
| ProtocolEdges.SingleWriteFailNeverStrands | src/shoprl/platform/store.py:215-242 | without _dead_letter_now and hand-made moves, no run with crashes stores FAILED or RETRYING |
| Ownership.OwnedExactlyIfForgotten | src/shoprl/platform/store.py:196-258 | with nobody but p turning to a RUNNING job, somebody else can end p's claim exactly if another process still refers to it: on its way through run_once, with a prepared write from RUNNING, or with a reap list that can still reach it |
| Ownership.EveryReleaseIsTheOwners | src/shoprl/platform/store.py:196-258 | over whole runs, if nobody else refers to the job at first nor turns to it later, every commit that takes it out of RUNNING is p's |
| Ownership.HealthyClaimIsTheOwners | src/shoprl/platform/store.py:196-258 | and the same with reapers at work, as long as none goes by a time beyond the lease then current |
| Ownership.SoleIsSafe | src/shoprl/platform/store.py:196-258 | without such a reference no run whatever ends the claim by another hand |
| Ownership.RunKeepsWellFormed | src/shoprl/platform/store.py:215-258 | in every run reap lists have no row twice and prepared failures and completions start from RUNNING |
| ProtocolEdges.ReapedWorkerCompletesAnothersClaim | src/shoprl/platform/store.py:196-213 | from an empty table, a run in which a reaped worker completes the claim of another that still handles the job |
| ProtocolEdges.StaleReaperFailsHealthyClaim | src/shoprl/platform/store.py:244-258 | from an empty table, a run in which a second reaper fails a fresh claim with an unexpired lease |
| Reapers.ReapStopsAtFirstLostRow | src/shoprl/platform/store.py:252-258 | with anything in between, a reap fails its rows in order and gives up the rest at the first row it finds not RUNNING, so it fails all exactly if it finds none |
| Reapers.HandStartedIsInvisible | src/shoprl/platform/store.py:103-108 | a job that transition() set RUNNING gets on no reaper's list until a commit takes it out of RUNNING or a renewal leases it |
| ProtocolEdges.StaleWritesUndoTheRetryBound | src/shoprl/platform/store.py:98-107 | for every n a run from an empty table that fails a job of two attempts n times and leaves it as new |
| RetryBound.FailuresAreBoundedByUndone | src/shoprl/platform/store.py:98-107 | in every interleaved run, stale writes included, attempts are the failures less what writes undid, and the failures exceed max(1, max_attempts) by no more than was undone |
| RetryBound.CountsAlwaysIffFresh | src/shoprl/platform/store.py:219-237 | attempts count the failures at every step exactly if every committed write counts from the attempts it finds |
| RetryBound.FreshWritesKeepTheBound | src/shoprl/platform/store.py:219-237 | in every interleaved run whose writes of the job count from the attempts they find, attempts are the failures and never exceed max(1, max_attempts) |
| Atomicity.StaleFailIsFreshIff | src/shoprl/platform/store.py:219-242 | with anything in between, fail() does what it would do atomically at its UPDATE exactly if the job left RUNNING or has the attempts that were read |
| Atomicity.StaleTransitionIsFreshIff | src/shoprl/platform/store.py:95-114 | the same condition for transition(): state and attempts as read, or a state the move is refused from |
| Atomicity.ClaimRetries | src/shoprl/platform/store.py:138-159 | a claim tries up to eight candidates in order, queries again once all were contested, and gives up on an empty query only |
| Atomicity.ContestedIsSkipped | src/shoprl/platform/store.py:149-159 | a contested candidate is passed over and nothing is changed |
| Atomicity.LateWorkerFailsAnothersClaim | src/shoprl/platform/workers.py:57-62 | a worker whose complete() lost its race calls fail(), and so fails whatever claim of the job runs by then |
| Atomicity.RefusedCompletion | src/shoprl/platform/workers.py:52-62 | a refused complete() leads to fail() in the try block, and out of run_once before it |
| Atomicity.ReaperEnds | src/shoprl/platform/store.py:257-258 | a reaper ends with its list, or at a row that is gone |
| Atomicity.UninterruptedReapIsAtomic | src/shoprl/platform/store.py:244-258 | the reaper's query and its row-by-row fail() calls, uninterrupted, are the closed-form reap |
| Atomicity.UninterruptedRunOnceIsAtomic | src/shoprl/platform/workers.py:42-62 | an uninterrupted worker does to job and ledger what the object's run_once does |
| Histories.AttemptsCountFailures | src/shoprl/platform/store.py:215-242 | with atomic operations attempts grow by exactly the number of failures, which never exceeds max(1, max_attempts) |
| Histories.StepCounts | src/shoprl/platform/store.py:95-114 | each atomic operation adds one attempt exactly if it is a failure of the job |
| Histories.SubmitMeaning | src/shoprl/platform/store.py:80-93 | a submitted job is PENDING and untried, without error or lease |
| Histories.ReapClearsExpired | src/shoprl/platform/store.py:244-258 | after a reap no job is expired, expired ones are PENDING or DEAD_LETTER by the bound, and no other job moved |
| Histories.AliveBeforeExpiry | src/shoprl/platform/store.py:196-209 | while renewals come in time, no moment of the history lies beyond the expiry then current |
| Histories.RenewingWorkerIsNeverReaped | src/shoprl/platform/store.py:196-209 | a worker that renews no later than its current expiry keeps its job through any reaps and other events |
| Histories.KeptExactlyIfCovered | src/shoprl/platform/store.py:196-258 | a running job touched by renewals alone keeps running exactly if each reap uses a time no later than the lease then current |
| Histories.DeadWorkersJobIsRecovered | src/shoprl/platform/store.py:244-258 | the first reap after a dead worker's expiry frees its job or gives it up |
| JobStores.SomeRowIsFirst | src/shoprl/platform/store.py:161-182 | the order by priority then age has a first row among any waiting rows |
| JobStores.FirstIsOldest | src/shoprl/platform/store.py:138-146 | the first row of claim()'s query is a job of the kinds than which none was created earlier |
| JobStores.FirstIsForemost | src/shoprl/platform/store.py:169-172 | the first row of claim_priority()'s query is a job of the class than which none has a higher priority, nor the same one and an earlier creation |
| JobStores.JobStore.Create | src/shoprl/platform/store.py:80-93 | one PENDING row with no attempts is added, or the id is refused and nothing changes |
| JobStores.JobStore.Transition | src/shoprl/platform/store.py:95-114 | atomically, the table's transition, with the same errors |
| JobStores.JobStore.UpdatePayload | src/shoprl/platform/store.py:116-125 | the payload is replaced in any state, and nothing else |
| JobStores.JobStore.Claim | src/shoprl/platform/store.py:128-159 | nothing exactly if no job of the kinds waits, and otherwise an oldest one, RUNNING and leased |
| JobStores.JobStore.ClaimPriority | src/shoprl/platform/store.py:161-182 | the same for one resource class, by priority and then age |
| JobStores.JobStore.RenewLease | src/shoprl/platform/store.py:196-209 | only a RUNNING job's lease moves; otherwise an error |
| JobStores.JobStore.Complete | src/shoprl/platform/store.py:211-213 | the transition to SUCCEEDED |
| JobStores.JobStore.Fail | src/shoprl/platform/store.py:215-242 | the table's fail(), with the same errors |
| JobStores.JobStore.ReapExpired | src/shoprl/platform/store.py:244-258 | the row-by-row loop fails exactly the expired jobs, each once |
| JobStores.JobStore.RecordResult | src/shoprl/platform/store.py:261-268 | true exactly for the first result, which stays |
| Schedulers.Scheduler.Admit | src/shoprl/platform/scheduler.py:68-79 | the inner loop admits min(waiting, free slots, room) jobs, a top-k in order |
| Schedulers.Scheduler.Schedule | src/shoprl/platform/scheduler.py:60-80 | one pass equals its closed form: GPU quota, then CPU quota, and nothing else changed |
| Schedulers.PassCounts | src/shoprl/platform/scheduler.py:60-80 | the running and waiting jobs per class, and all running jobs, after a pass |
| Schedulers.PassIsWorkConserving | src/shoprl/platform/scheduler.py:60-80 | after a pass a class has no waiting job, or no free slot, or the cap is reached |
| Schedulers.SecondPassIsIdle | src/shoprl/platform/scheduler.py:60-80 | a second pass right after the first admits nothing |
| Schedulers.PassTouchesOnlyAdmitted | src/shoprl/platform/scheduler.py:57-80 | admitted jobs were PENDING GPU or CPU jobs; jobs of any other class are never admitted or changed |
| Schedulers.PassFollowsPriority | src/shoprl/platform/scheduler.py:60-80 | no job left waiting has a higher priority than an admitted one of its class, nor the same one and an earlier creation; the admitted one is RUNNING with a lease of 30 seconds |
| Schedulers.PassAdmitsOnce | src/shoprl/platform/scheduler.py:60-80 | no job is admitted twice in a pass |
| Schedulers.QuietEventsOnlyFreeSlots | src/shoprl/platform/scheduler.py:82-93 | submit, complete, fail, cancel, pause, resume, renew and reap never take a slot |
| Schedulers.CapacityIsNeverExceeded | src/shoprl/platform/scheduler.py:60-93 | in every run in which only passes start jobs, no class exceeds its slots and the total never exceeds the cap |
| Schedulers.OverlapCounts | src/shoprl/platform/scheduler.py:60-80 | what any number of whole passes, GPU and then CPU jobs each, start on one reading of the counts |
| Schedulers.OverlapExceedsIff | src/shoprl/platform/scheduler.py:60-80 | they exceed the GPU slots, the CPU slots and the cap exactly if those numbers exceed what the reading had free |
| Schedulers.OnePassFits | src/shoprl/platform/scheduler.py:60-80 | by the same numbers a single pass never does |
| Schedulers.OverlappingPassesOversubscribe | src/shoprl/platform/scheduler.py:63-68 | two passes, one free GPU slot, two jobs waiting: both run |
| Schedulers.OverlappingPassesExceedTheCapAlone | src/shoprl/platform/scheduler.py:63-79 | two passes that keep to the slots of both classes and start three jobs under a cap of two |
| Workers.Worker.RunOnce | src/shoprl/platform/workers.py:42-62 | what one run_once does to queue, ledger and handler calls, for every handler behaviour |
| Workers.RunOnceMeaning | src/shoprl/platform/workers.py:42-62 | an oldest job is taken; a recorded result completes it without a handler call, a kind without handler fails it, and otherwise one call decides and is recorded |
| Workers.Worker.Drain | src/shoprl/platform/workers.py:64-74 | one worker's drain loop ends, whatever the handlers do, with nothing left to claim and every claim accounted for |
| Drains.EventLowersRank | src/shoprl/platform/workers.py:42-74 | every claim, fail, reap, completion, cancel and dead-lettering that changes a row lowers its rank, and a won claim uses up one of the claims left |
| Drains.ChangesArePaid | src/shoprl/platform/workers.py:42-74 | every row change costs the table a unit of rank at least, a reap of many rows included |
| Drains.DrainingIsBounded | src/shoprl/platform/workers.py:64-74 | any number of workers and reapers, in any order, change rows no more often than the rank they start with |
| Drains.ClaimsAreBounded | src/shoprl/platform/store.py:215-258 | no job is claimed more often than max(1, attempts left), whoever claims and reaps |
| Pool.PoolEnds | src/shoprl/platform/workers.py:109-124 | however the workers of a pool interleave and whatever their handlers do, their steps are bounded, and no job is lost from sight |
| Pool.PoolIsNeverStuck | src/shoprl/platform/workers.py:64-74 | each worker that has not left can take a step |
| Pool.PoolDrains | src/shoprl/platform/workers.py:98-124 | a pool of one worker or more that has run to its end has brought every waiting job to SUCCEEDED or DEAD_LETTER |
| Workers.RankDrops | src/shoprl/platform/workers.py:42-74 | every claim, however it ends, lowers the sum of the claims left |
| Workers.ClaimMakesProgress | src/shoprl/platform/workers.py:64-74 | each claimed job advances by one claim within its budget and all others stay |
| Workers.DrainedJobsEnded | src/shoprl/platform/workers.py:64-74 | a drained job is SUCCEEDED with a result or DEAD_LETTER, after at most max(1, attempts left) claims, and DEAD_LETTER only after exactly that many |
| Recovery.RecoveryController.DeadLetterNow | src/shoprl/platform/failures.py:144-147 | uninterrupted, both transitions; DEAD_LETTER with one attempt more, or refused |
| Recovery.RecoveryController.Handle | src/shoprl/platform/failures.py:149-201 | the new table and the reported action, for every failure class |
| Recovery.HandleNeverStrands | src/shoprl/platform/failures.py:149-201 | handling a RUNNING job leaves it PENDING or DEAD_LETTER, with one attempt more; DEAD_LETTER exactly at the bound or for a hopeless failure |
| Recovery.HandleOnStoppedJob | src/shoprl/platform/failures.py:165-176 | on any other job handle() raises, having changed exactly the payload in exactly the case of a shrinkable OOM |
| Recovery.OomChangesTwoKeys | src/shoprl/platform/failures.py:87-97 | a shrinkable OOM halves the microbatch, raises the accumulation by the same factor, and keeps every other key of the payload |
| Recovery.OthersKeepPayload | src/shoprl/platform/failures.py:156-191 | any other failure leaves the payload alone |
| Recovery.RefusalIsFails | src/shoprl/platform/store.py:219-232 | what handle() raises on a stopped or missing job is what fail() raises |
| Recovery.ShrinkEffect | src/shoprl/platform/failures.py:84-92 | the effective batch is kept exactly for an even microbatch and 1 and 3, and otherwise drops by grad_accum_steps |
| Recovery.PowerOfTwoKeepsBatch | src/shoprl/platform/failures.py:87-92 | from a power of two it is kept however often the plan shrinks |
| Recovery.HandleOom | src/shoprl/platform/failures.py:165-186 | one OOM of a RUNNING job changes that job only: the shrunk plan and the retry bound, or DEAD_LETTER at microbatch 1 |
| Recovery.Log2Meaning | src/shoprl/platform/failures.py:87-92 | the number of halvings down to 1 is the floor of the binary logarithm |
| Recovery.OomSeriesLength | src/shoprl/platform/failures.py:165-186 | repeated OOMs dead-letter a job after exactly the smaller of max(1, attempts left) and floor(log2 microbatch) + 1 |
| Recovery.DefaultPlanOoms | src/shoprl/platform/failures.py:94-97 | without the two keys in the payload, after the smaller of max(1, attempts left) and four |
| OomRetry.RunWithOomRecovery | src/shoprl/platform/control.py:111-160 | the runner calls and the end of the loop: at most max_oom_retries + 1 calls, each with the batch shrunk once more and the newest checkpoint |
| OomRetry.EachRetryShrinksAndResumes | src/shoprl/platform/control.py:132-160 | each retry halves the prompts, or at one prompt the samples, and resumes from the newest checkpoint found after the run before |
| OomRetry.EndingIsTheLastRuns | src/shoprl/platform/control.py:132-160 | the end is the last run's result, its error unless it is an OOM of a batch that can shrink, or nothing after the last try |
| OomRetry.ShrinkMeaning | src/shoprl/platform/control.py:85-97 | shrinking stops exactly at one prompt and two samples, at least halves the batch, and keeps the group size while there are prompts to drop |
| OomRetry.ShrinksAreCounted | src/shoprl/platform/control.py:85-97 | a batch can be shrunk i times exactly up to its count of shrinks, and is then smaller by 2^i at least |
| OomRetry.AlwaysOom | src/shoprl/platform/control.py:132-160 | a run that never fits re-raises exactly if the tries outnumber the shrinks, and otherwise ends without a result |
| Control.ServeJob | src/shoprl/platform/control.py:190-210 | one admitted job, whatever its run returns, raises or moves, and the error if the job left RUNNING before its turn |
| Control.ServePending | src/shoprl/platform/control.py:176-211 | a pass reaps, admits from what reaping left, and serves the admitted jobs in order up to an abort |
| Control.ServedJobLeavesRunning | src/shoprl/platform/control.py:190-210 | a served job is not RUNNING, nor FAILED or RETRYING, and reported succeeded exactly if SUCCEEDED |
| Control.TrainingRunOutcome | src/shoprl/platform/control.py:195-210 | a run that raised while its job was RUNNING is a failed attempt with its error, any other completes the job, and a job that others took out stays as they left it; the summary says which |
| Control.UnhandledKindOutcome | src/shoprl/platform/control.py:190-193 | a job of another kind is a failed attempt without running |
| Control.RunKeepsItsJobIff | src/shoprl/platform/control.py:194-197 | a run that nobody pauses or cancels keeps its job exactly if its lease, two minutes at first, covers every reap |
| Control.OthersWhenServed | src/shoprl/platform/control.py:190-210 | any other job leaves RUNNING exactly by a pause, a cancel or a reap of its expired lease during the run, and is otherwise as it was |
| Control.AbortedIff | src/shoprl/platform/control.py:189-211 | a pass is aborted exactly by a training run without a result, or by a pause, cancel or reap of an admitted job during an earlier one's run, and at the first of these |
| Control.LongRunAborts | src/shoprl/platform/control.py:185-198 | a run beyond the lease that admission gave the next job aborts the pass if another server reaps meanwhile |
| Control.SomeAbortedPass | src/shoprl/platform/control.py:185-198 | two GPU jobs that both return their results, and a pass over them that is aborted so |
| Control.AbortedIffNoResult | src/shoprl/platform/control.py:205-210 | if no run takes out a job that waits for its turn, exactly by a training run without a result |
| Control.SummariesTellTheTruth | src/shoprl/platform/control.py:189-211 | at the end of the pass every reported job has left RUNNING, and "succeeded" is reported exactly for SUCCEEDED |
| Control.AbortStrandsTheRest | src/shoprl/platform/control.py:194-211 | an aborted pass stores a job without a result as SUCCEEDED unless touched, and leaves every later admitted job that nobody moved or reaped RUNNING as admitted |
| Control.ServePassOutcome | src/shoprl/platform/control.py:176-211 | all of this for a whole pass: one summary per reaped and admitted job unless aborted |
| Control.OutOfMemoryStoredAsSuccess | src/shoprl/platform/control.py:132-160 | a job that never fits is stored as SUCCEEDED exactly if its tries run out before its batch cannot shrink |
| Control.DefaultRetriesStoreSuccess | src/shoprl/platform/control.py:111-160 | with the default of four retries, a batch of 32 prompts by two samples that never fits is stored as SUCCEEDED after five runs |
| Control.ReapedJobRunsAgain | src/shoprl/platform/control.py:185-189 | a job reaped in a pass runs again in the same pass, or its class or the cap is full and nothing it comes before was admitted |
| Control.IdlePassIff | src/shoprl/platform/control.py:219-223 | a pass has nothing to report, so that draining stops, exactly if no lease has expired and both quotas are zero |
| Control.IdleIffAllBlocked | src/shoprl/platform/control.py:219-223 | that is, exactly if every waiting job is of no class, of a full class or under a full cap |
| Control.DrainStopsEarly | src/shoprl/platform/control.py:219-223 | a table on which draining stops with a GPU job and a job of no class still waiting |
| Ingest.VerifyDetectsEveryChange | src/shoprl/platform/checkpoints.py:108-123 | a directory verifies exactly if every ingested file has the source's bytes |
| Ingest.CompleteVerifiesIff | src/shoprl/platform/_atomic.py:63-78 | a complete ingest verifies exactly if its source held no file of the manifest's name with other content |
| Ingest.LoadedStateIsSavedState | src/shoprl/platform/checkpoints.py:88-134 | what load_state() returns is what save_state() wrote |
| Ingest.StepKeepsInv | src/shoprl/platform/_atomic.py:58-80 | each live writer's staging directory holds exactly what it has copied, under any interleaving and quiet sweeps |
| Ingest.StepIsAllOrNothing | src/shoprl/platform/_atomic.py:81 | a step changes no committed directory, or is a rename that adds one complete directory over nothing |
| Ingest.BeforeTheRenameNothing | src/shoprl/platform/_atomic.py:52-80 | any run without a successful rename, crashes and sweeps included, changes nothing a reader sees |
| Ingest.CommittedStaysComplete | src/shoprl/platform/_atomic.py:44-83 | in every run committed directories stay as they are and every new one is complete |
| Ingest.CommitAddsOneVerifiedEntry | src/shoprl/platform/_atomic.py:81-83 | a rename adds exactly one entry to what readers list, and when it verifies |
| Ingest.AloneIngestCommits | src/shoprl/platform/_atomic.py:44-83 | undisturbed, an ingest under a new name commits its complete directory and nothing else |
| Ingest.RaisesAndCommitsExactly | src/shoprl/platform/_atomic.py:55-81 | when a writer raises, with the disk as it was, and that it ends committed only by a rename that went through |
| Ingest.CrashLeavesPartInStaging | src/shoprl/platform/_atomic.py:64-78 | a crash while a file is written leaves any part of it in the staging directory and nothing else |
| Ingest.SweepDuringWrite | src/shoprl/platform/checkpoints.py:149-156 | a sweep after i of n copies, for all i and n: at n the writer raises and nothing is committed; before, it commits a directory that verifies exactly if i is 0 and otherwise lacks the first file |
| Ingest.SweepDuringWriteCommitsCorruption | src/shoprl/platform/_atomic.py:64-81 | from an empty registry, any two-file source swept between its copies ends up committed and corrupt |
| Checkpoints.CheckpointRegistry.AtomicIngest | src/shoprl/platform/_atomic.py:44-83 | uninterrupted, a complete directory is added or an existing one refused |
| Checkpoints.CheckpointRegistry.VerifyCheckpoint | src/shoprl/platform/checkpoints.py:108-123 | the loop finds the first manifested file that is missing or differs |
| Checkpoints.CheckpointRegistry.List | src/shoprl/platform/checkpoints.py:136-143 | every committed manifest once, by time |
| Checkpoints.CheckpointRegistry.SweepStaging | src/shoprl/platform/checkpoints.py:149-156 | all staging directories go, counted, and nothing committed changes |
| Checkpoints.CheckpointRegistry.Prune | src/shoprl/platform/checkpoints.py:158-174 | the names it returns, in order, and the disk without their directories, but for files that could not be removed |
| Checkpoints.CheckpointRegistry.RemoveTree | src/shoprl/platform/checkpoints.py:172 | file by file, in any order: what is left is exactly the files that resist, and no directory if none does |
| Checkpoints.PruneKeepsRecentAndProtected | src/shoprl/platform/checkpoints.py:158-174 | what is protected or among the last n stays as it was, the newest among it; anything else is listed exactly if its manifest could not be removed |
| Checkpoints.NewestSurvives | src/shoprl/platform/checkpoints.py:136-174 | a checkpoint of the greatest creation time survives every prune, untouched |
| Checkpoints.PrunedAreOlder | src/shoprl/platform/checkpoints.py:136-174 | what is pruned is no newer than what the count of recent ones keeps |
| Checkpoints.GoneIff | src/shoprl/platform/checkpoints.py:166-173 | a listed checkpoint is pruned exactly if it is neither protected nor among the last n |
| Checkpoints.LeftoverVerifiesIff | src/shoprl/platform/checkpoints.py:108-123 | a directory that lost files verifies exactly if it did before and none of its manifest's files is among the lost |
| Checkpoints.HalfRemovedIsCorrupt | src/shoprl/platform/checkpoints.py:172 | a checkpoint whose removal stopped after some file, by a crash or an error, is listed exactly if its manifest is left, and never verifies |
| Checkpoints.PrunableIff | src/shoprl/platform/checkpoints.py:166-173 | a listed checkpoint is removed exactly if it is not kept |
| Policy.StepKeepsContiguous | src/shoprl/platform/policy.py:66-84 | a publish that goes through adds version n + 1; no other step changes a version |
| Policy.VersionsStayContiguous | src/shoprl/platform/policy.py:66-117 | in every run of any publishers the versions stay 1 to m, none is overwritten, and each new number is won exactly once |
| Policy.FromEmptyRegistry | src/shoprl/platform/policy.py:66-84 | from an empty registry the versions are 1 to the number of publishes, each won once |
| Policy.AlonePublishSucceeds | src/shoprl/platform/policy.py:66-84 | a publisher that nobody interferes with publishes the version after the newest it read |
| Policy.RefreshNeverGoesBack | src/shoprl/platform/policy.py:163-170 | an unpinned refresh never returns an older version than before, nor none |
| Policy.StalenessCountsPublishes | src/shoprl/platform/policy.py:181-205 | staleness against latest is never negative and counts the publishes since; the gate flags exactly what exceeds the bound |
| Policy.GateByMode | src/shoprl/platform/policy.py:190-205 | beyond the bound warn flags, reject raises and off passes; within it all pass |
| Policy.PolicyClient.Refresh | src/shoprl/platform/policy.py:163-170 | the pinned version, or the newest on the disk; unpinned, no older than at the last refresh whatever was published in between |
| Policy.Latest | src/shoprl/platform/policy.py:97-117 | the loop finds the greatest committed version, and none exactly if there is none |
| Artifacts.ArtifactRegistry.Register | src/shoprl/platform/artifacts.py:94-110 | both tables gain the record, and they still agree |
| Artifacts.ArtifactRegistry.Children | src/shoprl/platform/artifacts.py:139-143 | exactly the stored artifacts that list the id as a parent |
| Artifacts.ArtifactRegistry.Ancestors | src/shoprl/platform/artifacts.py:145-161 | ends on any graph, with exactly the existing artifacts reachable by parent edges through existing ones, each once |
| Artifacts.PathWasSeen | src/shoprl/platform/artifacts.py:145-161 | with the stack empty, every path of parents has been followed to its end |
| Artifacts.WalkVisits | src/shoprl/platform/artifacts.py:152-160 | visiting an artifact keeps the frontier and the result right |
| Artifacts.WalkEnds | src/shoprl/platform/artifacts.py:152-161 | with the stack empty, the result is exactly the ancestors |
| Shop.ShopEnv.Step | src/shoprl/env/shopenv.py:76-125 | one turn, every branch; budget and cart still balance |
| Shop.ValidExactly | src/shoprl/env/shopenv.py:91-119 | when each action is valid: an affordable indexed SKU to add, one in the cart to remove, some criteria to filter by, checkout always |
| Shop.EveryTurn | src/shoprl/env/shopenv.py:82-125 | every turn is counted, the episode ends by checkout or at the last turn, and each action changes what it is about only |
| Shop.AddMoves | src/shoprl/env/shopenv.py:93-101 | a valid add puts the product at the end of the cart and takes its price |
| Shop.RemoveMoves | src/shoprl/env/shopenv.py:102-107 | a valid remove takes one of the product and gives its price back |
| Shop.FiltersAccumulate | src/shoprl/env/shopenv.py:108-112 | a filter sets the keys it states and leaves the others |
| Shop.FiltersHoldTheLastStated | src/shoprl/env/shopenv.py:108-112 | over an episode each filter key holds the value last stated for it |
| Shop.LastProductIsIndexed | src/shoprl/env/shopenv.py:68 | of two products with one SKU the later one is bought |
| Shop.ListRemove | src/shoprl/env/shopenv.py:102-104 | removal takes the first occurrence |
| Shop.BudgetIsConserved | src/shoprl/env/shopenv.py:93-108 | in every reachable state what is left plus the cart's catalog prices is the budget, and what is left is not negative |
| Shop.EpisodeNeverOverspends | src/shoprl/env/shopenv.py:65-125 | an episode from reset never spends more than the budget |
| Shop.EpisodeEnds | src/shoprl/env/shopenv.py:121-125 | an episode is done within max(1, max_turns) steps |
| Shop.DoneIsFrozen | src/shoprl/env/shopenv.py:82-84 | a finished episode never changes |
| Shop.CandidatesMatch | src/shoprl/env/shopenv.py:127-130 | candidates satisfy the filters, and none is missing unless the limit is reached |
| Shop.ShownKeepsToFilters | src/shoprl/env/shopenv.py:127-130 | a shown product costs and weighs at most, and has memory and battery at least, what the filters say |
| Shop.ShownInCatalogOrder | src/shoprl/env/shopenv.py:127-130 | the first matches of the catalog are shown, in its order |
| Shop.NoWorseSatisfies | src/shoprl/data/prompts.py:29-41 | a product that is no worse in each dimension meets whatever the other meets, and one just at the limits meets them |
| Shop.RewardMeaning | src/shoprl/env/reward.py:24-41 | the unrounded reward lies in [0, 1] and is 1 exactly for a checked-out, compliant cart of the target size |
| Shop.RewardParts | src/shoprl/env/reward.py:34-41 | a cart of the right size earns 0.4 and 0.6 by its compliant share; a compliant cart loses 0.4 by its miss of the target, down to 0.6; no purchase earns nothing |
| Shop.WithoutCheckoutNoReward | src/shoprl/env/reward.py:34-35 | an episode without a checkout earns nothing |
| Shop.DiscountedSum | src/shoprl/env/reward.py:44-59 | discounted credit is a geometric series that ends in the full advantage |
| Shop.UniformCredit | src/shoprl/env/reward.py:52-56 | uniform credit gives every turn the whole advantage |
| Claims.ParseResponse | src/shoprl/reward/parse.py:62-94 | the in-place merge yields each SKU once, in first-seen order, with its merged specs |
| Claims.MergeLine | src/shoprl/reward/parse.py:79-93 | one line: new SKUs get its specs, known ones only what they lack |
| Claims.FirstSeenOnce | src/shoprl/reward/parse.py:69-94 | each cited SKU is listed exactly once |
| Claims.FirstSeenInOrder | src/shoprl/reward/parse.py:69-94 | the order of the list is that of first citation |
| Claims.CitationsSplit | src/shoprl/reward/parse.py:69-79 | citations are read line by line, and within a line as cited |
| Claims.CitedIff | src/shoprl/reward/parse.py:69-94 | the claims are those of the SKUs that some line cites |
| Claims.MergedIsFirstStated | src/shoprl/reward/parse.py:84-93 | each spec is the first value stated on a line that names the SKU |
| Reward.CoverageAtMostBudget | src/shoprl/reward/functions.py:69-121 | coverage never exceeds the budget score; both lie in [0, 1] |
| Reward.BudgetMeaning | src/shoprl/reward/functions.py:69-80 | full without a cap, none without a grounded claim, and full exactly if all grounded ones keep the cap |
| Reward.CoverageMeaning | src/shoprl/reward/functions.py:111-121 | none without a grounded claim, and otherwise full exactly if all grounded ones meet every constraint |
| Reward.HallucinatedIffUngrounded | src/shoprl/reward/functions.py:84-107 | a non-empty response is hallucinated exactly if its groundedness is below 1, and then by a claim's share at least |
| Reward.GroundednessMeaning | src/shoprl/reward/functions.py:84-96 | full exactly if there are claims and each is of a product and true of it |
| Reward.ConsistentIff | src/shoprl/reward/functions.py:55-65 | a stated price within a dollar, a weight within a tenth of a pound, the others exactly |
| Reward.QualityBounds | src/shoprl/reward/functions.py:142-174 | both quality scores lie in [0, 1] |
| Reward.FormatMeaning | src/shoprl/reward/functions.py:142-156 | format is the mean of the stated quarters, and full exactly if every claim states all four specs |
| Reward.ComparisonMeaning | src/shoprl/reward/functions.py:158-174 | a bare pick is worth 0.4, comparative language 0.3 more, each of two dimensions 0.15 more, and all of it half for a single product |
| Reward.TotalBounds | src/shoprl/reward/composite.py:50-83 | with the default weights the total lies in [-0.5, 1], reaches 1 exactly with every component full, and a hallucination of n claims scores at most 0.5 - 0.25/n |
| Reward.ShortfallCosts | src/shoprl/reward/composite.py:26-33 | what each shortfall costs under the default weights: a quarter for each of the first three, 0.15 for format, 0.1 for comparison, and half for a hallucination |
| Advantages.CenteredSumsToZero | src/shoprl/grpo/advantages.py:40-45 | centred rewards sum to zero |
| Advantages.CauchySum | src/shoprl/grpo/advantages.py:40-51 | the square of a sum is at most the count times the sum of squares |
| Advantages.ZeroSumBound | src/shoprl/grpo/advantages.py:40-51 | in a zero-sum group n times any square is at most n - 1 times the sum of squares |
| Advantages.AdvantagesBounded | src/shoprl/grpo/advantages.py:40-51 | each standardised advantage squared is at most n - 1; the squares sum to at most n and the advantages to zero |
| Advantages.AdvantagesKeepDifferences | src/shoprl/grpo/advantages.py:40-51 | advantages keep the differences between rewards, as they are when raw and divided by std + eps when standardised, and sum to zero |
| Advantages.RlooIsScaledCentering | src/shoprl/rl/rloo.py:26-32 | leave-one-out advantages are the centred rewards times n / (n - 1) |
| Advantages.RlooSumsToZero | src/shoprl/rl/rloo.py:26-32 | so they sum to zero |
| Advantages.RlooComparesWithSiblings | src/shoprl/rl/rloo.py:26-32 | each is the reward less the mean of the others |
| Advantages.RlooWithoutSiblings | src/shoprl/rl/rloo.py:26-29 | a group of one gets zero, and an empty group nothing |
| Advantages.FlatGroup | src/shoprl/grpo/advantages.py:46-51 | a group of equal rewards gets zero advantages under both estimators |

## Left out

- SQLite, WAL, SQL text, threads and processes: a statement is one atomic step on a map. `updated_at`, read by nothing, is left out.
- Clocks, uuids and ids: `now`, staging tokens and job ids are parameters; a job id is a number.
- `LIMIT 8` in the interleaved protocol: the candidates are any at most eight PENDING rows in any order, which includes the query's own.
- JobStores.JobStore.Claim: alone on the table its first candidate is never contested, so the retry loop of `claim` and `claim_priority` is modelled in `Protocol` only.
- JobStores.JobStore.Create: the ids of the original are fresh random tokens; here a repeated id is refused, as the primary key does.
- Protocol.SucceededHasResult: says nothing about jobs that `serve_pending` completes, since that path records no result.
- Protocol.HandlerNeverRunsAgain: handlers that already run when the result is recorded are not stopped, by the code either.
- Workers.Worker.Drain: one worker alone; pools are in `Pool`, and any mix of workers and reapers in `Drains`. The stop event and the poll interval are not modelled.
- Drains.DrainingIsBounded: nobody pauses or resumes jobs meanwhile, since that can go on for ever, and nobody submits any.
- Pool.PoolDrains: no worker is killed and nothing is reaped; a killed worker's job stays RUNNING until a reaper requeues it, which may be after the others have left.
- Schedulers.CapacityIsNeverExceeded: passes must not overlap; `OverlapExceedsIff` says when overlapping ones exceed the capacity.
- Schedulers.OverlapExceedsIff: the passes go by one reading but claim one after the other; how many CPU jobs they start depends on how the GPU claims interleave, which is not modelled claim by claim.
- Control.ServePending: while a job runs, its heartbeat, operators and another server's reaper act; that another server claims a job this pass had admitted, once it was requeued, and BaseExceptions that are not Exceptions are not modelled.
- Checkpoints.CheckpointRegistry.Prune: a crash in the middle leaves what a prune of a first part of the list leaves, with the files not yet removed of its last directory for the stuck ones.
- classify(): the failure class of an exception is a parameter; its string matching is not modelled.
- Recovery events, GPU telemetry and the JSON event log: presentation only.
- Manifest text and sha256: `Codec` is any rendering that parses back and any injective hash. File sizes are lengths.
- fsync, power loss and directories nested in a source: only process crashes are modelled, and a source is a list of paths with contents.
- Directory names: checkpoint ids and version numbers are a datatype, so foreign directory names and the parsing of `v<n>` are not modelled.
- `publish_state`, `save_state`'s temporary directory, `staleness_report`, `parse_policy_version`: easy members.
- Policy.VersionsStayContiguous: sweeps that hit a live publisher are excluded; `SweepDuringWrite` shows why.
- Artifacts.ArtifactRegistry.Register: an id is assumed unused, as uuids are; metadata and run ids are not modelled.
- Regular expressions, number parsing and keyword matching: `Claims` starts from tokenised lines, `Reward` from keyword flags, `Shop` from parsed actions.
- Shop.ShopEnv.Step: rounding to two decimals; money is whole cents, weights are tenths of a pound, and the context text is not modelled.
- Shop.RewardMeaning: the reward before it is rounded to four digits.
- Shop.DiscountedSum: credit before rounding; the ValueError for an unknown scheme is not modelled.
- Advantages.AdvantagesBounded: exact reals; the standard deviation is any non-negative number whose square is the population variance.
- `Scheduler.status`, experiment and trajectory registries, alerts, random catalog and prompt generation: one-branch claims only.
- Torch code, HTTP API, web front ends, dashboards, configuration files, benchmarks: not part of this model.
