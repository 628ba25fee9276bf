# The pipeline scheduler, modelled and proved in Dafny

The system schedules CI pipeline runs on a pool of workers. Runs, workers and
the assignment rows between them live in three database tables; about fifteen
transactions in six files write them: scheduling a push, claiming, assigning
and giving back a run, the callbacks for builds and stages, two-phase recovery,
automatic and manual retry, cancel, flush, and taking workers offline, online
or through a reset. No function of the program states how the three tables
belong together. This project states it, proves which steps keep it, and says
for each of the others exactly when they do.

## How it is built

`Records` holds the rows, `Database` the session object whose fields the
services write. Each service is an imperative method over that session, with
the source's branches and loops, proved equal to a function from tables to
tables (`JobScheduler`, `WorkerPool`, `Recovery`, `Operators`, `Scheduler`,
`PipelineTasks`, `Executor`; the operator handlers, with what they do to the
invariants, are in `Handlers`). `Machine` makes one step of each committed
transaction; what the code leaves to the database, such as the row an
unordered `LIMIT 1` returns, is an argument of the step, so every theorem holds
for every choice.

`Columns` says what each of these transactions writes, column by column, with
the source's own comparisons and constants and without the functions that define
the steps.

Over that machine:

- `Invariants`: what no step can break, from any caller in any order.
- `Coupling`: the invariant between the tables, with one guard per call that a
  caller can look up beforehand, proved necessary and sufficient for every
  choice the database may make.
- `Loads`: when the clamps on a worker's load act, and how long offline lasts.
- `Orphans`: which running runs recovery finds, and which it never will.
- `Protocol`: any number of ticks at once, each between its claim, its
  assignment and its revert while everything else may happen, and the exact
  condition on everything else under which ticks are safe.
- `TickHistory`: the tick's loops are such a sequence of guarded steps.
- `Ledger`: claims, retries, waiting times and a distance to rest, counted over
  whole histories without any guard.
- `Loopholes`: for each guard the code does not check, and for each condition
  on the world around the ticks, a history from a fresh deployment that goes
  through the gap; the condition that shuts out the whole family stands in the
  module that proves it exact.

Beside it stand the parts whose data flows into a run: stage names
(`StageNames`), Jenkins paths (`JenkinsPath`, RFC 3986 sections 2.1 and 2.3),
the worker language (`Languages`), the priority policy (`Priority`), the log
error blocks (`LogParser`), the error-signature ledger (`PatternStore`), and the
cap on execution threads (`ExecutorCap`, `CapTrace`). `Text` and `Queries` are what they
share: splitting, joining, stripping, first occurrences, ordered query answers.

Loads are counted in half units (the source's 0.5 is 1), times are integers.

## Where the code does less than its words

- `release_worker` may close an old row of the same run and worker and leave the
  new one open (`Loopholes.ReleaseIsSafeIff`, `RetryOnSameWorkerLeaksRow`,
  `CancelLeaksRow`).
- Offline followed by online makes a worker idle that still holds a running run
  (`Coupling.OnlineCoupling`, `Loopholes.OfflineOnlineForgetsRow`). When that run
  completes, the worker has no load to give back and the clamp at zero acts
  (`Loads.ReleaseClampsIff`, `Loopholes.ReleaseMeetsNoLoad`).
- An offline worker becomes idle again as soon as the build it held completes
  (`Loads.OfflineLastsIff`, `Loopholes.CompletionWakesOfflineWorker`).
- A run cancelled between claim and assignment still gets a worker, or comes
  back into the queue (`Loopholes.CancelledRunGetsWorker`, `CancelledRunComesBack`);
  one that failed there comes back without a retry being counted
  (`RevertRevivesFailedRun`).
- Recovery may queue a run that a tick has claimed and not yet assigned; the
  tick's late revert then queues a run that is running elsewhere, or both ticks
  assign it (`Loopholes.RecoverySweepsPendingRun`, `LateRevertUncouples`,
  `DoubleDispatch`).
- Callbacks look at no status: a late one reopens a finished run
  (`Ledger.StepApproachesRestIff`, `Loopholes.LateStartReopensRun`,
  `LateFailureReopensRun`).
- A retried run keeps the URL of its failed attempt, so recovery cannot find it
  if it is orphaned (`Orphans.StaysLostIff`, `Loopholes.RetriedRunIsNeverRecovered`).
- The comment at app/scheduler.py:213 calls the thread cap hard. Up to twice the
  cap less one threads can live (`ExecutorCap.CapHoldsIff`).
- README.md:110 of the repository says that infrastructure failures are retried;
  app/scheduler.py:336-343 retries every failed run that has retries left. The
  model follows the code.
- `PIPELINE_MAX_RETRIES` (app/config.py:64) is read nowhere; the limit is the
  column default 2 of app/pipeline_models.py:68.

## Model

| member | source | states |
|---|---|---|
| Coupling.StepKeepsCouplingIff | app/scheduler.py:91-364 | Whatever the call, every outcome the database may choose keeps "open rows belong to running runs and workers that are not idle, nobody has two, every busy worker has one" if and only if the call's guard holds; the guard can be looked up before the call, and ten of the fifteen calls need none |
| Coupling.OutcomeKeepsCouplingIff | app/scheduler.py:91-364 | One outcome keeps it if and only if what the database chose was harmless: for a completion, that the row it closes was open |
| Coupling.GuardIff | app/services/worker_pool.py:85-148 | The guard is exactly what makes all outcomes of a call harmless; for a completion, that the run never had another row with its present worker |
| Coupling.StepKeepsPairsIff | app/services/worker_pool.py:109-116 | "No run was assigned to one worker twice" lasts until an assignment does that, and implies the guard of every completion and cancellation |
| Coupling.AssignCoupling | app/services/worker_pool.py:85-116 | Assigning keeps the coupling exactly when the run is still running and holds no row, which assign_worker does not check |
| Coupling.RevertCoupling | app/scheduler.py:319-327 | The unconditional revert keeps it exactly when the run holds no row |
| Coupling.FinishCoupling | app/services/job_scheduler.py:229-278 | Completing a build keeps it exactly when the row that release_worker happens to pick is the open one |
| Coupling.CancelCoupling | app/routers/ui.py:520-546 | The same for a cancelled run; cancelling a queued run is always safe |
| Coupling.OnlineCoupling | app/routers/workers.py:84-96 | Bringing a worker online keeps it exactly when the worker holds no row |
| Coupling.StartCoupling | app/services/job_scheduler.py:135-165 | A build-started callback keeps it, whatever status the run had |
| Coupling.ResetCoupling | app/routers/workers.py:99-138 | Taking all work back from any set of workers keeps it |
| Coupling.ReclaimCoupling | app/scheduler.py:155-200 | Re-queueing any set of runs with their rows and workers keeps it |
| Coupling.FlushCoupling | app/routers/ui.py:554-567 | Deleting the queued runs and all their rows keeps it |
| Coupling.AlwaysCoupled | app/scheduler.py:205-368 | Every history of calls whose guards held beforehand stays sound and coupled, whatever the database chose on the way |
| Coupling.CouplingMeans | app/worker_models.py:42-84 | In every state reached from a fresh deployment by guarded calls a run that is not running holds no worker, a busy worker has exactly one open row and an idle worker none |
| Protocol.RecoverSparesIff | app/scheduler.py:155-200 | Recovery leaves a claimed run that has no row yet to its tick exactly when it is not an orphan by the cutoff |
| Protocol.MoveKeepsConsistentIff | app/scheduler.py:258-328 | With any number of ticks between their transactions, every outcome of a move keeps soundness, coupling and "ticks hold distinct running runs without rows" if and only if the move is civil: ticks need nothing, the rest of the world needs conditions that can be looked up beforehand |
| Protocol.OutcomeKeepsConsistentIff | app/scheduler.py:258-328 | The same for one outcome, with the row a completion closes instead of the run's earlier rows |
| Protocol.HistoryKeepsConsistent | app/scheduler.py:258-328 | So does every civil history |
| Protocol.TicksAreSafe | app/scheduler.py:258-328 | In every civil history from a fresh deployment, no two ticks ever hold the same run, and every assignment and every revert a tick can make meets the guard its code does not check; a revert hits a run that is still running |
| Invariants.StepKeepsSound | app/pipeline_models.py:37-80 | No step, from any caller, breaks: a queued run has no start time, retries stay within the limit, stage rows have distinct names in order 0, 1, ..., load matches status, rows refer to known runs and workers |
| Invariants.AlwaysSound | app/pipeline_models.py:37-80 | Hence they hold after every history |
| Invariants.LoadAccounting | app/services/worker_pool.py:101-135 | In every reachable state the load of the workers that are not offline is half a unit per busy worker |
| Invariants.ClampsAreIdle | app/services/worker_pool.py:101-104 | In every reachable state the min of assigning an idle worker changes nothing, nor does the max when a busy worker is freed |
| Loads.ReleaseClampsIff | app/services/worker_pool.py:134-135 | Releasing any worker in any sound state takes exactly half a unit if and only if the worker carries one, that is if it is busy or went offline with it; otherwise the max acts and the load stays zero |
| Loads.StepKeepsHeldLoaded | app/services/worker_pool.py:101-135 | A guarded call keeps: the worker of every open row carries half a unit |
| Loads.GuardedNeverClamps | app/services/worker_pool.py:101-135 | So after every guarded history from a fresh deployment no clamp acts: the next assignment adds and the next release takes exactly half a unit |
| Loads.OfflineLastsIff | app/routers/workers.py:79-95 | Whatever the call, an offline worker stays offline under every choice of the database if and only if the call does not set it online or reset it and does not complete or cancel a run that holds a row with it |
| Loads.OutcomeKeepsOfflineIff | app/services/worker_pool.py:134 | For one outcome: unless the row it picks is with that worker |
| Invariants.ClaimThenRevert | app/scheduler.py:261-328 | In every reachable state claiming a queued run and giving it back restores the tables exactly |
| Invariants.StageLookupIsUnique | app/services/job_scheduler.py:168-199 | In every reachable state at most one stage row answers to a run and a name, so the lookup never raises |
| Scheduler.SelectQueued | app/scheduler.py:242-256 | As many live queued runs as the limit allows, each once, in the mode's order, and no run left out comes strictly before a selected one |
| Columns.SelectionOnColumns | app/scheduler.py:242-256 | Selected are live queued runs, each once, up to the limit and all if they fit; in Priority mode no run selected later or left out has a smaller priority, or the same and an earlier push, than a selected one, and in the other mode none has an earlier push, whatever the priorities |
| Scheduler.Dispatch | app/scheduler.py:258-328 | Undisturbed, from any tables, the loop serves the first min(selected, idle) runs in order, on pairwise distinct workers that were idle and preferred in turn, and reaches exactly the tables given in closed form |
| Invariants.DispatchedRuns | app/scheduler.py:258-328 | After that loop the served runs differ from before in status and start time only and every other run record is unchanged |
| Invariants.DispatchedWorkers | app/services/worker_pool.py:85-104 | As many workers as possible, distinct, idle before, are busy with half a unit; no other worker changed |
| Invariants.DispatchedRows | app/services/worker_pool.py:109-116 | There is one fresh open row per served run with its worker; no other row changed |
| Invariants.TickServesAtMostCap | app/scheduler.py:205-328 | A tick serves min(cap, live queued, idle) runs, and a run that was neither served nor failed is as before |
| Scheduler.RetryPhase | app/scheduler.py:330-364 | Each failed live run with retries left gets a retry date, or is re-queued if its date has come, or is left alone; no other run changes |
| Columns.RetryOnColumns | app/scheduler.py:336-363 | A live failed run with retries left and no date gets now plus the backoff of its count, the last one repeating, and stays failed; one whose date has come is queued with a count one higher and start, completion and date cleared; every other run is unchanged |
| Scheduler.Tick | app/scheduler.py:205-368 | A saturated tick changes nothing; any other is recovery, then the dispatch of the first runs of the queue, then the retry phase, each with its own clock reading and the dispatch with one per claim and per assignment, and reports the runs selected and served |
| TickHistory.TickIsGuardedHistory | app/scheduler.py:205-368 | An undisturbed tick over sound, coupled tables is a history of recovery, claims, assignments, reverts and retries in which every step meets its guard; so it leaves the tables sound and coupled |
| WorkerPool.AssignWorker | app/services/worker_pool.py:80-120 | Nobody is assigned exactly when nobody is idle; otherwise a least loaded worker of the wanted language, failing that a generic one, failing that any, becomes busy by a fresh row; a vanished run changes nothing |
| Columns.ServiceOnColumns | app/services/worker_pool.py:85-99 | A worker may serve if and only if it is idle and speaks the wanted language and no idle speaker has less load; without such speakers the same for generic workers; without those no idle worker has less load |
| WorkerPool.FirstCandidate | app/services/worker_pool.py:85-99 | For every ordered answer to the query, the head of the filtered list is a worker with those properties, and the list is empty only if nobody is idle |
| WorkerPool.ReleaseWorker | app/services/worker_pool.py:123-157 | The worker is idle with half a unit less and some row of the pair, open or not, is closed with the result; an unknown worker changes nothing |
| Recovery.RecoverStale | app/scheduler.py:114-153 | Phase one reaches the closed form and counts the workers that were busy and no longer are |
| Recovery.RecoverOrphans | app/scheduler.py:155-200 | Phase two does, on the runs that phase one left |
| Recovery.RecoverStaleWorkers | app/scheduler.py:91-202 | Both phases together return busy workers before minus busy workers after, though one worker may be met twice |
| Recovery.RecoveryIsComplete | app/scheduler.py:110-200 | Afterwards no busy worker has a heartbeat before the cutoff and no running run without a build URL has a missing or old start |
| Recovery.RecoveryLeavesNobody | app/scheduler.py:116-168 | On columns: every busy worker has a heartbeat at or after the cutoff or none, and every running run without a build URL has a start at or after it |
| Columns.StaleOnColumns | app/scheduler.py:114-153 | Phase one: exactly the busy workers with a heartbeat before the cutoff become idle without load and with a heartbeat now, exactly their open rows are closed as failed with TIMEOUT, exactly the running runs of those rows are queued without a start |
| Columns.ReclaimOnColumns | app/scheduler.py:155-198 | Phase two: exactly the running runs without a URL and with an old or missing start are queued, exactly their open rows closed with TIMEOUT, exactly the busy workers of those rows idle with half a unit less |
| Columns.RecoveredRunsOnColumns | app/scheduler.py:110-200 | Both phases: a running run is queued if and only if a silent worker holds it or it is an orphan; every other run is unchanged |
| Columns.RecoveredRowsOnColumns | app/scheduler.py:110-200 | Both phases: the open rows at silent workers and those of the orphans left are closed as failed with TIMEOUT; every other row is unchanged |
| Columns.RecoveredWorkersOnColumns | app/scheduler.py:110-200 | Both phases: a silent worker is idle without load, a busy one holding an orphan idle with half a unit less, every other unchanged |
| Recovery.RecoveryIsIdempotent | app/scheduler.py:110-200 | Repeating it at the same moment changes nothing |
| Recovery.ResetByHand | app/routers/workers.py:99-138 | An unknown worker is refused; otherwise all its open rows are abandoned, their running runs re-queued and the worker idle |
| Columns.ResetOnColumns | app/routers/workers.py:109-138 | The worker is idle without load and with a heartbeat now, exactly its open rows are closed with MANUAL_RESET and exactly their running runs queued |
| Handlers.CancelRun | app/routers/ui.py:520-546 | Unknown and inactive runs are refused unchanged; a running run is finalised as aborted, a queued one only changes status; the coupling survives if the run never had another row with its worker |
| Columns.CancelOnColumns | app/routers/ui.py:530-545 | A queued run becomes aborted and stays otherwise as it is, a running one is completed as aborted, any other is left alone |
| Handlers.TakeOffline | app/routers/workers.py:70-81 | Only the status of a known worker changes, its load and all rows stay; soundness and coupling survive |
| Handlers.BringOnline | app/routers/workers.py:84-96 | Only a known worker changes, to idle without load; soundness survives, and the coupling if and only if the worker holds no row |
| Handlers.RetryRun | app/routers/jobs.py:113-148 | A refused retry changes nothing; a granted one queues the run with a counter one higher and within the limit; no other run changes; soundness and coupling survive |
| Columns.ManualRetryOnColumns | app/routers/jobs.py:123-141 | A failed run with retries left is queued with a count one higher and its dates cleared, the rest of it kept; otherwise nothing changes and the reply says why |
| Handlers.FlushQueue | app/routers/ui.py:554-567 | Exactly the queued runs disappear; from coupled tables no open row does, and the coupling survives |
| Columns.FlushOnColumns | app/routers/ui.py:556-565 | Exactly the queued runs and exactly the rows that name one are gone, everything else is unchanged |
| JobScheduler.SchedulePipeline | app/services/job_scheduler.py:26-79 | Without stages and without permission for synthetic ones it refuses unchanged; otherwise one queued run with pending stages numbered from 0 is added |
| Columns.ScheduleOnColumns | app/services/job_scheduler.py:51-74 | The new run has the priority, job name, language and filter of the request, is queued now with no retries used of two, and its stages are pending and numbered from 0; nothing else changes |
| JobScheduler.OnBuildStarted | app/services/job_scheduler.py:135-165 | An existing run is running with number, URL and start, and some open row of it, if any, is marked running |
| Columns.StartOnColumns | app/services/job_scheduler.py:145-163 | Exactly status, number, URL and start of the run and status and start of the picked row are written |
| JobScheduler.OnStage | app/services/job_scheduler.py:168-207 | The one stage of that name is marked; an unknown name changes nothing; two stages of that name make the lookup raise |
| Columns.StageOnColumns | app/services/job_scheduler.py:173-207 | The stage of that name gets status and start, or status, end and excerpt; no other stage and nothing else changes |
| JobScheduler.OnBuildCompleted | app/services/job_scheduler.py:210-278 | Status by result, unfinished stages skipped, the worker of an open row released; if that worker is gone nothing is stored |
| Columns.CompletedRunOnColumns | app/services/job_scheduler.py:233-247 | For every result: COMPLETED if and only if it is SUCCESS, ABORTED if and only if it is ABORTED, else FAILED; result and end are written, pending and running stages skipped, the rest of the run kept; nothing at all if the worker is gone |
| Columns.ReleaseOnColumns | app/services/worker_pool.py:134-157 | The released worker is idle with half a unit less and a heartbeat now, one row of the pair is DONE with SUCCESS or FAILED with FAILURE, and no other worker or row changes |
| Columns.NothingToRelease | app/services/job_scheduler.py:276-278 | Without an open row a completion touches no worker and no row |
| Ledger.ClaimExclusion | app/scheduler.py:261-281 | In every interleaving of ticks and all other steps the claims won on a run never exceed the times it entered the queue |
| Ledger.DispatchBound | app/scheduler.py:261-364 | From deployment on a run is claimed at most 1 + max_retries times plus once per revert, recovery or reset that gave it back |
| Ledger.RetryCountIsExact | app/scheduler.py:336-363 | Over every history the stored counter plus the reverts that revived a failed run equals the passages from FAILED to QUEUED, automatic or manual, and stays within the limit |
| Ledger.HistoryKeepsPace | app/scheduler.py:345-359 | Along every history with automatic retries only, time is never behind the sum of the backoffs of the retries so far |
| Ledger.BackoffsAddUp | app/scheduler.py:345-359 | After k automatic retries at least the first k delays, the last one repeating, have passed |
| Ledger.ShippedDelays | app/config.py:65 | With the shipped delays that is one minute for one retry and six for two |
| Ledger.StepApproachesRestIff | app/scheduler.py:261-364 | For every step, 5 (max_retries - retry_count) + phase does not rise, and falls when the status changes or a retry is dated, if and only if the step neither gives the run back nor is a start of a finished run or a completion that changes a COMPLETED or ABORTED verdict |
| Ledger.RunsComeToRest | app/scheduler.py:261-364 | So along a history without such steps for the run it changes status at most as often as that distance |
| Ledger.NewRunDistance | app/pipeline_models.py:67-69 | Which is 14 for a freshly scheduled run |
| Loopholes.ReleaseIsSafeIff | app/services/worker_pool.py:140-153 | Completing a run keeps the coupling for every choice of the database if and only if the run never had another row with its present worker |
| Loopholes.RetryOnSameWorkerLeaksRow | app/services/worker_pool.py:140-153 | A history in which a retried run completes, its worker is idle and its second row stays open |
| Loopholes.CancelLeaksRow | app/routers/ui.py:533-537 | The same when it is cancelled |
| Loopholes.OfflineOnlineForgetsRow | app/routers/workers.py:79-95 | A history after which an idle worker without load holds a running run |
| Loopholes.ReleaseMeetsNoLoad | app/services/worker_pool.py:134-135 | A history after which completing a run releases a worker without load, so that the max changes the value |
| Loopholes.CompletionWakesOfflineWorker | app/services/worker_pool.py:134 | A history in which completing a run makes an offline worker idle |
| Loopholes.CancelledRunGetsWorker | app/services/worker_pool.py:80-116 | A history in which an aborted run occupies a worker |
| Loopholes.CancelledRunComesBack | app/scheduler.py:319-327 | A history in which a tick finds no worker, its run is aborted and the revert queues it again |
| Loopholes.RevertRevivesFailedRun | app/scheduler.py:319-327 | A history in which a failed run is queued again without a retry being counted |
| Loopholes.RecoverySweepsPendingRun | app/scheduler.py:159-198 | A history in which recovery queues a run that a tick has claimed and not yet given back |
| Loopholes.LateRevertUncouples | app/scheduler.py:319-327 | A history of coupled states up to a late revert, after which a queued run occupies a busy worker |
| Loopholes.RunningRunGetsSecondRow | app/services/worker_pool.py:85-116 | A history in which a running run that holds a row is assigned again and has two |
| Loopholes.DoubleDispatch | app/scheduler.py:258-284 | A history in which two ticks claim one run, with a recovery between the claims, and both assign it: two busy workers hold it |
| Loopholes.LateStartReopensRun | app/services/job_scheduler.py:145-151 | A history in which a late start callback makes a completed run run again on no worker; it stays running through every further history that does not complete, cancel, revert or assign it |
| Loopholes.LateFailureReopensRun | app/services/job_scheduler.py:229-240 | A history in which a late failure callback makes a completed run failed, so that it can be retried |
| Orphans.RecoveredIff | app/scheduler.py:114-198 | Recovery re-queues a running run if and only if a worker of one of its open rows is busy with an old heartbeat, or the run has no build URL and its start is old or missing; otherwise it leaves the record alone |
| Orphans.NeverRecoveredIff | app/scheduler.py:114-198 | At a given moment no recovery would re-queue a running run, whatever its cutoff, if and only if the run has a build URL and no open row of it is at a busy worker with a heartbeat |
| Orphans.StaysLostIff | app/scheduler.py:91-364 | A running run with a build URL and no open row stays so under every step, recoveries included, if and only if the step does not complete, cancel, revert or assign that run |
| Orphans.LostForGood | app/scheduler.py:91-364 | Hence it stays so over every history without such a step |
| Loopholes.RetriedRunIsNeverRecovered | app/scheduler.py:353-359 | A history after which a retried run is running without a row, and stays running through every further history that does not complete, cancel, revert or assign it, recoveries at any time included |
| PipelineTasks.SyncStages | app/pipeline_tasks.py:257-332 | True exactly for the four final build statuses; the tables are those of the entries applied in order, then of the completion; an unanswered poll changes nothing |
| PipelineTasks.EntryOnColumns | app/pipeline_tasks.py:305-326 | An entry writes status and start, or status, end and log excerpt, into the stage it names, and nothing for an unknown word or name |
| PipelineTasks.FinalizeExhaustedPoll | app/pipeline_tasks.py:240-254 | A run that is still queued or running is completed with the fallback result, any other is left alone |
| PipelineTasks.LastWriterWins | app/pipeline_tasks.py:305-326 | After any stage list each stage has the status of the last entry for its name with a known word, or the one it had |
| PipelineTasks.FinalStages | app/services/job_scheduler.py:244-247 | After a final poll no stage is pending or running: last called successful means succeeded, failed or unstable means failed, in progress means skipped, not listed means finished as before or skipped |
| Executor.PollUntilDone | app/scheduler.py:464-479 | True exactly if one of the first 120 polls is final; it syncs up to that poll and no further; then the run has that poll's verdict |
| Executor.RunExecution | app/scheduler.py:393-491 | For every outcome of the trigger and every sequence of polls, an existing run ends with the result of the first final poll or FAILURE and the status of that result, never queued or running, and with the number and URL of the build that was triggered; from coupled tables its worker ends idle, and if the run was new to it the coupling is kept and no row stays open; true exactly if a final status was seen; at most 120 syncs |
| Executor.FinalResultMeans | app/scheduler.py:464-489 | The result is that of the first of 120 polls that reports one of the four final statuses; without one, without a job name or without a trigger it is FAILURE |
| Executor.FinishSettles | app/services/job_scheduler.py:229-278 | A completion leaves a run with its verdict and from coupled tables its worker idle; if the run was new to that worker no row stays open |
| ExecutorCap.TickSpendsBudget | app/scheduler.py:249-318 | A tick starts min(cap, waiting runs, idle workers) threads, which is the budget of the thread model |
| ExecutorCap.LiveBound | app/scheduler.py:217-223 | With a cap of at least one, never more than twice the cap less one execution threads live |
| ExecutorCap.BoundIsReached | app/scheduler.py:249-312 | For every such cap two ticks reach that number, with cap - 1 runs and 2 cap - 1 idle workers at the first and cap runs and cap idle workers at the second |
| CapTrace.TwoTicksFillTwice | app/scheduler.py:205-318 | Those counts are real: for every cap, a fresh fleet of 2 cap - 1 workers, cap - 1 pushes, a tick, cap more pushes and a second tick five seconds later serve cap - 1 and cap runs, and recovery has nothing to do at either |
| CapTrace.TickHappens | app/scheduler.py:242-364 | From any tables a tick has some outcome |
| CapTrace.TickCounts | app/scheduler.py:258-318 | A tick over fine tables takes as many runs from the queue and workers from the idle ones as it serves |
| ExecutorCap.CapHoldsIff | app/scheduler.py:213-223 | The configured cap is an upper bound if and only if it is at most one |
| StageNames.ParseStages | app/services/jenkinsfile_parser.py:86-94 | The loop returns the matches without repetition |
| Text.FirstOccurrencesIff | app/services/jenkinsfile_parser.py:86-94 | A list is that one if and only if it has exactly the matches, each once, ordered by first occurrence |
| StageNames.PlannedRowsAreIdentified | app/services/job_scheduler.py:40-74 | Whatever the Jenkinsfile says, the rows of a run are numbered 0, 1, ... and their names are pairwise distinct |
| StageNames.AsciiWhiteSpace | app/pipeline_models.py:80 | Which ASCII characters trimming removes |
| StageNames.FromCsvIsPlain | app/pipeline_models.py:76-80 | Whatever the column holds, the names read from it are non-empty, trimmed and without a comma |
| StageNames.CsvRoundTripIff | app/services/job_scheduler.py:59 | The names survive the CSV column if and only if every one is non-empty, trimmed and without a comma |
| JenkinsPath.UnquoteQuote | app/pipeline_tasks.py:122-124 | Percent-decoding undoes the encoding of any byte string |
| JenkinsPath.QuotedByte | app/pipeline_tasks.py:122-124 | Letters, digits, hyphen, period, underscore and tilde stand for themselves; any other byte becomes a percent sign and its two upper-case hex digits |
| JenkinsPath.QuoteHasNoSlash | app/pipeline_tasks.py:122-124 | An encoded segment has no slash |
| JenkinsPath.DecodeEncode | app/pipeline_tasks.py:122-124 | Decoding an encoded path returns exactly the cleaned segments |
| JenkinsPath.EncodeInjective | app/pipeline_tasks.py:122-124 | Two segment lists with the same path have the same cleaned segments |
| JenkinsPath.TriggerCandidates | app/pipeline_tasks.py:127-161 | The method returns the first occurrences of the four candidates in their order |
| JenkinsPath.CandidatesAreDistinct | app/pipeline_tasks.py:154-161 | All candidates are tried, none twice, in the order in which they first came up |
| JenkinsPath.CandidatesOfRun | app/pipeline_tasks.py:140-152 | For a run of an organisation's repository on a branch: organisation, repository and branch; repository and branch; organisation and repository; the name taken apart, in this order |
| JenkinsPath.BaseIsFolders | app/services/job_scheduler.py:314-323 | For every repository URL and branch, removing the branch from the derived job name recovers the folders |
| JenkinsPath.FoldersOfUrl | app/services/job_scheduler.py:319-322 | Whatever precedes them, the folders of a URL are its last two segments, without ".git" and trailing slashes |
| JenkinsPath.FoldersOfPath | app/services/job_scheduler.py:319-322 | The same when nothing precedes them |
| JenkinsPath.FoldersOfShortUrl | app/services/job_scheduler.py:319-323 | A URL of one segment has that folder, one of slashes only has "unknown" |
| JenkinsPath.FirstCandidate | app/pipeline_tasks.py:133-142 | The first URL tried encodes the folders and then the trimmed branch as one segment, and decodes back to them |
| JenkinsPath.LogPathAgreesIff | app/services/log_fetcher.py:19-25 | The path the log is fetched under is that of the first URL tried if and only if the trimmed branch has no slash |
| JenkinsPath.LogPathIsTriedIff | app/pipeline_tasks.py:150-161 | For every job name and branch that path is among the URLs tried, as the plain job fallback, unless the name is only slashes, and then no URL is tried |
| Languages.DetectLanguage | app/services/worker_pool.py:48-65 | No language scores more than the returned one and none ranked before it as much; without any score it is generic |
| Languages.Weights | app/services/worker_pool.py:52-60 | A language with one signal scores two, one with one hint three |
| Languages.TiesAreOrdered | app/services/worker_pool.py:62 | Equal scores go to Python before Node before Java before Go before Ruby |
| Languages.OnlyTheSetOfStagesMatters | app/services/worker_pool.py:48-65 | Order and repetition of stages do not change the answer, although they are searched as one joined text |
| Languages.MoreStagesScoreMore | app/services/worker_pool.py:48-60 | Further stages never lower the score of any language |
| Languages.GenericIff | app/services/worker_pool.py:62-65 | The answer is generic if and only if no signal occurs in the URL or in one stage name and no hint in one stage name |
| LogParser.Parse | app/services/log_parser.py:36-53 | For any anchor pattern and any trimming, the loop returns one block per line that is an anchor and the first with its trimmed text, in order |
| LogParser.BlocksCoverAnchors | app/services/log_parser.py:41-48 | The anchors of the blocks are pairwise distinct and every anchor line's trimmed text heads a block from that line or an earlier one |
| LogParser.ContextIsExact | app/services/log_parser.py:48-52 | Context and anchor line are one stretch of the log, five lines on each side, fewer only where the log ends |
| LogParser.FullTextReadsBack | app/services/log_parser.py:21-23 | The text of a block, cut at line breaks, is its context and anchor again |
| PatternStore.PatternTable.Upsert | app/services/pattern_store.py:67-82 | The record of the signature is counted up and takes the new failure type, or a record with count one is appended; signatures stay unique |
| PatternStore.LedgerIsExact | app/services/pattern_store.py:67-82 | After any history of upserts signatures are unique, each count is the number of upserts of its signature and the counts add up to the number of calls |
| PatternStore.LedgerRemembers | app/services/pattern_store.py:73-78 | Each record has the failure type of the last and the sample of the first upsert of its signature, and a signature without a record was never seen |
| PatternStore.CountIsTheRecords | app/models.py:44-48 | With unique signatures the count of a signature is that of its one record |
| PatternStore.PatternTable.FindSimilar | app/services/pattern_store.py:42-64 | The answer is the top of the qualifying records, empty if scoring failed |
| PatternStore.QualifyingMeans | app/services/pattern_store.py:59-62 | A match qualifies if and only if it is a record with its own score at or above the threshold |
| PatternStore.TopIsBest | app/services/pattern_store.py:63-64 | The answer is descending, has k entries or all there are, together with the omitted ones it is everything that qualified, and no omitted entry scores more than a returned one |
| PatternStore.SortIsStable | app/services/pattern_store.py:63 | Entries of equal score keep the order of the table |
| Priority.PolicyIsCaseOrPromotion | app/services/priority.py:61-88 | For every branch and file list the interleaved guards give the smaller of the branch class of the cleaned name and the promotion by name or files; the value lies in 1..6 |
| Priority.PolicyOnWords | app/services/priority.py:16-88 | Value by value, with the words of the policy: which branch keys and which changed paths, in lower case and with forward slashes, give at most 1, 2, 3, 4 and 5 |
| Priority.DecideOnWords | app/services/priority.py:67-88 | And which reason goes with each value; a branch is named before files of the same urgency |
| Priority.KeyOfPaddedName | app/services/priority.py:63-64 | The branch key is the name in lower case without the white space around it |
| Priority.CaseOnWords | main.py:89-98 | Which stored branches the SQL CASE maps to at most 1, 2, 3, 4 and 5 |
| Priority.MoreFilesNeverLessUrgent | app/services/priority.py:65-80 | Adding files never makes a run less urgent |
| Priority.OnlyTheSetOfFilesMatters | app/services/priority.py:65-80 | Order and repetition of files change neither value nor reason |
| Priority.PolicyAtLeastAsUrgent | main.py:89-100 | The policy is never less urgent than the SQL CASE on the stored branch, so the rewrite at start-up never makes a stored priority more urgent |
| Priority.RewriteKeepsIff | main.py:89-100 | The rewrite leaves a priority as it was if and only if cleaning the branch had not changed its class and no promotion was more urgent than that class |

## Left out

- HTTP, Jenkins, GitHub, Slack, SMTP and LLM calls, Celery retries and the queue-item wait: their outcomes are arguments (a trigger that failed or not, polls, callbacks); the tasks `trigger_jenkins_build` and `poll_pipeline_stages` around them are not modelled.
- Webhook routing and signature checks, dashboards, server-sent events, metrics, health checks and serialisers: display and sampling.
- Transactions are atomic steps; isolation anomalies inside one, such as two sessions reading the same idle worker, are not modelled.
- Within one callback transaction (build started, build completed with its release) the source reads the clock two or three times; the model uses one reading.
- `duration_s`, `current_job`, `jobs_run`, `capabilities` and `resolution_text`: written for display and never read by a decision.
- Repository URL, branch and the stage-name column are not fields of the modelled run; priority, job name and language are computed from them in their own modules and stored or supplied.
- A null or empty `PIPELINE_RETRY_BACKOFF_SECONDS`: indexing it raises in the source, so `Settings.backoffs` is required to be non-empty.
- `seed_workers` and the deletion of demo runs; the filter that keeps demo runs out of the scheduler is the field `live`.
- `branch_priority_expr`: its first arm always applies because `scheduling_priority` is not nullable, so the ordering uses the stored value.
- Executor.RunExecution: assumes that nobody else writes during the execution, that the database does not fail when the start or the early failure is stored, and that a run's stages are distinct, which every reachable state provides; that no row stays open is stated for a run that has no earlier row with its worker, the condition of Loopholes.ReleaseIsSafeIff.
- PipelineTasks.SyncStages: assumes a sound state, in which no stage lookup raises; an exception may stop a poll after any number of entries or roll its completion back, but not strike between the completion's commit and the return.
- JenkinsPath: works on bytes; turning text into UTF-8 before percent-encoding is left to the caller.
- Priority, Languages: lower-casing is that of ASCII letters; labels and texts of the priority are left out.
- LogParser.Parse: starts from the lines that remain after escape codes and time stamps were removed; the patterns for these and for anchors, and `str.strip`, are parameters.
- StageNames.ParseStages: takes the matches of the stage pattern as given.
- PatternStore: normalising, hashing and TF-IDF scores are given; a failed computation is the missing list of scores.
- The guarantee of one Slack message per build: its check and its insert are separate transactions without a unique key, so it does not hold.
