/** Where the code's missing guards show: histories that start from a freshly
    deployed system, use only steps the code allows, and break what the guarded
    system keeps. Each is the other half of an if-and-only-if in Coupling,
    Protocol, Loads, Ledger, Orphans or this module. */
module Loopholes {
  import opened Records
  import opened Machine
  import opened Coupling
  import WorkerPool
  import JobScheduler
  import Recovery
  import Invariants
  import Ledger
  import Orphans

  const REQUEST := JobScheduler.Request(6, "org/repo/main", Generic, true)
  const ONE_WORKER := Tables(map[], map[0 := Worker(Generic, Idle, 0, None)], map[], 0, 0)
  const NO_WORKERS := Tables(map[], map[], map[], 0, 0)
  const PLAN: seq<string> := ["Build"]

  const TWO_WORKERS := Tables(map[], map[0 := Worker(Generic, Idle, 0, None), 1 := Worker(Generic, Idle, 0, None)], map[], 0, 0)

  /** The events can happen in a freshly deployed system. */
  predicate Happens(t0: Tables, es: seq<Event>) {
    Fresh(t0) && Possible(t0, es)
  }

  /** One event more. */
  lemma Then(t0: Tables, es: seq<Event>, t: Tables, now: Time, step: Step) returns (es': seq<Event>, t': Tables)
    requires Possible(t0, es) && After(t0, es) == t && Enabled(t, step)
    ensures es' == es + [Event(now, step)] && t' == Apply(t, now, step)
    ensures Possible(t0, es') && After(t0, es') == t'
  {
    Append(t0, es, Event(now, step));
    es', t' := es + [Event(now, step)], Apply(t, now, step);
  }

  /** All workers are generic, and idle ones carry no load. */
  predicate PlainWorkers(t: Tables) {
    forall v | v in t.workers :: t.workers[v].language == Generic && (t.workers[v].status.Idle? ==> t.workers[v].load == 0)
  }

  lemma AnyIdleServes(t: Tables, w: WorkerId)
    requires w in t.workers && t.workers[w].status.Idle? && PlainWorkers(t)
    ensures WorkerPool.MayServe(t, Generic, w)
  {
    assert w in WorkerPool.IdleWorkers(t);
    assert w in WorkerPool.Candidates(t, Generic);
    assert forall v | v in WorkerPool.Candidates(t, Generic) :: v in WorkerPool.IdleWorkers(t);
  }

  lemma Serves(t0: Tables, es: seq<Event>, t: Tables, now: Time, r: RunId, w: WorkerId) returns (es': seq<Event>, t': Tables)
    requires Possible(t0, es) && After(t0, es) == t
    requires w in t.workers && t.workers[w].status.Idle? && PlainWorkers(t) && r in t.runs
    ensures es' == es + [Event(now, Step.Assign(r, Generic, WorkerPool.Serving(w)))]
    ensures t' == WorkerPool.Occupy(t, r, w, now)
    ensures Possible(t0, es') && After(t0, es') == t'
  {
    AnyIdleServes(t, w);
    es', t' := Then(t0, es, t, now, Step.Assign(r, Generic, WorkerPool.Serving(w)));
  }

  /** Scheduled and claimed, from any fresh system. */
  lemma FirstClaim(t0: Tables) returns (es: seq<Event>, t: Tables)
    requires Fresh(t0) && t0.nextRun == 0
    ensures Possible(t0, es) && |es| == 2 && After(t0, es) == t && es[1].step == Step.Claim(0)
    ensures t.HasStatus(0, InProgress) && t.runs[0] == JobScheduler.NewRun(REQUEST, PLAN, 0).(status := InProgress, startedAt := Some(0))
    ensures t == t0.(runs := t.runs, nextRun := 1)
  {
    es, t := Then(t0, [], t0, 0, Step.Schedule(REQUEST, PLAN));
    es, t := Then(t0, es, t, 0, Step.Claim(0));
  }

  /** Scheduled, claimed and assigned to the only worker. */
  lemma FirstDispatch() returns (es: seq<Event>, t: Tables)
    ensures Happens(ONE_WORKER, es) && |es| == 3 && After(ONE_WORKER, es) == t
    ensures t.HasStatus(0, InProgress) && t.runs[0].retryCount == 0 && t.runs[0].maxRetries == 2
    ensures t.workers == map[0 := Worker(Generic, Busy, 1, Some(0))]
    ensures t.rows == map[0 := Assignment(0, 0, RowAssigned, None, None, None)] && t.nextRow == 1
    ensures t.OpenFor(0, 0) && t.OpenAt(0, 0) && t.Pairs(0, 0, 0)
  {
    es, t := FirstClaim(ONE_WORKER);
    es, t := Serves(ONE_WORKER, es, t, 0, 0, 0);
  }

  // ------------------------------------------------- the wrong row closed

  /** Whatever row the database picks, finishing a run keeps the coupling if and
      only if the run never had an earlier row with its present worker. */
  lemma ReleaseIsSafeIff(t: Tables, r: RunId, result: JenkinsResult, now: Time)
    requires Coupled(t)
    ensures (forall open, close | JobScheduler.MayFinish(t, r, open, close) ::
               Coupled(JobScheduler.FinishBuild(t, r, result, open, close, now)))
      <==> (r in t.runs ==> FirstPairing(t, r))
  {
    if r in t.runs && !FirstPairing(t, r) {
      var open, close := RepeatedPairingMayCloseOldRow(t, r);
      FinishCoupling(t, r, result, open, close, now);
    } else {
      forall open, close | JobScheduler.MayFinish(t, r, open, close)
        ensures Coupled(JobScheduler.FinishBuild(t, r, result, open, close, now))
      {
        FirstPairingClosesOpenRow(t, r, open, close);
        FinishCoupling(t, r, result, open, close, now);
      }
    }
  }

  /** From a running first attempt: it fails, is retried by hand, claimed again. */
  lemma FailRetryClaim(es: seq<Event>, t: Tables, now: Time) returns (es': seq<Event>, t': Tables)
    requires Possible(ONE_WORKER, es) && After(ONE_WORKER, es) == t
    requires t.HasStatus(0, InProgress) && t.runs[0].retryCount == 0 && t.runs[0].maxRetries == 2
    requires t.workers.Keys == {0} && PlainWorkers(t) && t.workers[0].load <= 1 && t.rows.Keys == {0} && t.nextRow == 1
    requires t.OpenFor(0, 0) && t.Pairs(0, 0, 0)
    ensures Possible(ONE_WORKER, es') && After(ONE_WORKER, es') == t'
    ensures t'.HasStatus(0, InProgress) && t'.runs[0].buildUrl == t.runs[0].buildUrl
    ensures t'.workers.Keys == {0} && PlainWorkers(t') && t'.workers[0].status.Idle?
    ensures t'.rows.Keys == {0} && t'.nextRow == 1 && t'.Pairs(0, 0, 0) && !t'.rows[0].Open()
  {
    es', t' := Then(ONE_WORKER, es, t, now, Step.Finish(0, FAILURE, Some(0), Some(0)));
    es', t' := Then(ONE_WORKER, es', t', now + 1, Step.RetryByHand(0));
    es', t' := Then(ONE_WORKER, es', t', now + 2, Step.Claim(0));
  }

  /** A run that failed and was retried runs on the same worker again. */
  lemma SecondAttempt() returns (es: seq<Event>, t: Tables)
    ensures Happens(ONE_WORKER, es) && After(ONE_WORKER, es) == t
    ensures t.HasStatus(0, InProgress) && t.workers.Keys == {0} && t.rows.Keys == {0, 1}
    ensures t.OpenFor(1, 0) && t.Pairs(0, 0, 0) && t.Pairs(1, 0, 0) && !t.rows[0].Open()
  {
    es, t := FirstDispatch();
    es, t := FailRetryClaim(es, t, 1);
    es, t := Serves(ONE_WORKER, es, t, 3, 0, 0);
  }

  /** When it then succeeds its second row may stay open for ever while its
      worker is idle. */
  lemma RetryOnSameWorkerLeaksRow() returns (es: seq<Event>)
    ensures Happens(ONE_WORKER, es)
    ensures var t := After(ONE_WORKER, es);
      t.HasStatus(0, Completed) && 0 in t.workers && t.workers[0].status.Idle? && t.OpenAt(1, 0) && !Coupled(t)
  {
    var t: Tables;
    es, t := SecondAttempt();
    es, t := Then(ONE_WORKER, es, t, 4, Step.Finish(0, SUCCESS, Some(1), Some(0)));
    assert t.OpenAt(1, 0);
  }

  /** The same when it is cancelled. */
  lemma CancelLeaksRow() returns (es: seq<Event>)
    ensures Happens(ONE_WORKER, es)
    ensures var t := After(ONE_WORKER, es);
      t.HasStatus(0, Aborted) && 0 in t.workers && t.workers[0].status.Idle? && t.OpenAt(1, 0) && !Coupled(t)
  {
    var t: Tables;
    es, t := SecondAttempt();
    es, t := Then(ONE_WORKER, es, t, 4, Step.Cancel(0, Some(1), Some(0)));
    assert t.OpenAt(1, 0);
  }

  // -------------------------------------------- offline, then online

  /** Taking a busy worker offline and online again makes it idle while it
      still holds the row of a running run. */
  lemma OfflineOnlineForgetsRow() returns (es: seq<Event>, t: Tables)
    ensures Happens(ONE_WORKER, es) && After(ONE_WORKER, es) == t
    ensures t.HasStatus(0, InProgress) && t.workers.Keys == {0} && t.workers[0].status.Idle? && t.workers[0].load == 0
    ensures t.OpenAt(0, 0) && t.OpenFor(0, 0) && t.rows.Keys == {0} && t.nextRow == 1 && PlainWorkers(t) && !Coupled(t)
  {
    es, t := FirstDispatch();
    es, t := Then(ONE_WORKER, es, t, 1, Step.GoOffline(0));
    es, t := Then(ONE_WORKER, es, t, 2, Step.GoOnline(0));
    assert t.OpenAt(0, 0);
  }

  /** When that run then completes, its worker has no load left to give back,
      and only the clamp keeps it from going below zero. */
  lemma ReleaseMeetsNoLoad() returns (es: seq<Event>, step: Step)
    ensures Happens(ONE_WORKER, es) && Enabled(After(ONE_WORKER, es), step) && step.Finish?
    ensures var t := After(ONE_WORKER, es);
      0 in t.workers && t.workers[0].load == 0 && t.OpenAt(0, 0) && Apply(t, 3, step).workers[0].load == 0
  {
    var t: Tables;
    es, t := OfflineOnlineForgetsRow();
    step := Step.Finish(0, SUCCESS, Some(0), Some(0));
  }

  /** A worker that was taken offline is idle again, and may be assigned, as
      soon as the build it held completes. */
  lemma CompletionWakesOfflineWorker() returns (es: seq<Event>)
    ensures Happens(ONE_WORKER, es) && es != [] && es[|es| - 1].step.Finish?
    ensures Possible(ONE_WORKER, es[..|es| - 1])
    ensures var t := After(ONE_WORKER, es[..|es| - 1]); 0 in t.workers && t.workers[0].status.Offline?
    ensures var t := After(ONE_WORKER, es); 0 in t.workers && t.workers[0].status.Idle?
  {
    var t: Tables;
    es, t := FirstDispatch();
    es, t := Then(ONE_WORKER, es, t, 1, Step.GoOffline(0));
    ghost var before := es;
    es, t := Then(ONE_WORKER, es, t, 2, Step.Finish(0, SUCCESS, Some(0), Some(0)));
    assert es[..|es| - 1] == before;
  }

  // -------------------------------- cancelled between claim and assignment

  /** A run cancelled after a tick claimed it still gets a worker. */
  lemma CancelledRunGetsWorker() returns (es: seq<Event>)
    ensures Happens(ONE_WORKER, es)
    ensures var t := After(ONE_WORKER, es);
      t.HasStatus(0, Aborted) && 0 in t.workers && t.workers[0].status.Busy? && t.OpenFor(0, 0) && !Coupled(t)
  {
    var t: Tables;
    es, t := FirstClaim(ONE_WORKER);
    es, t := Then(ONE_WORKER, es, t, 0, Step.Cancel(0, None, None));
    es, t := Serves(ONE_WORKER, es, t, 0, 0, 0);
    assert t.OpenFor(0, 0) && !t.HasStatus(t.rows[0].run, InProgress);
  }

  lemma MissedWithoutWorkers() returns (es: seq<Event>, t: Tables)
    ensures Happens(NO_WORKERS, es) && |es| == 3 && After(NO_WORKERS, es) == t
    ensures es[2].step == Step.Assign(0, Generic, WorkerPool.NoWorker)
    ensures t.HasStatus(0, InProgress) && t.runs[0].retryCount == 0 && t.rows == map[]
  {
    es, t := FirstClaim(NO_WORKERS);
    es, t := Then(NO_WORKERS, es, t, 0, Step.Assign(0, Generic, WorkerPool.NoWorker));
  }

  lemma EndedWhileMissed(end: Step) returns (es: seq<Event>, t: Tables)
    requires end == Step.Cancel(0, None, None) || end == Step.Finish(0, FAILURE, None, None)
    ensures Happens(NO_WORKERS, es) && |es| == 4 && After(NO_WORKERS, es) == t
    ensures es[2].step == Step.Assign(0, Generic, WorkerPool.NoWorker) && es[3].step == end
    ensures t.HasStatus(0, if end.Cancel? then Aborted else Failed) && t.runs[0].retryCount == 0
  {
    es, t := MissedWithoutWorkers();
    es, t := Then(NO_WORKERS, es, t, 0, end);
  }

  /** A tick claimed the run and found no worker; then something ended the run;
      then the tick gives it back. */
  lemma RevertAfter(end: Step) returns (es: seq<Event>, t: Tables)
    requires end == Step.Cancel(0, None, None) || end == Step.Finish(0, FAILURE, None, None)
    ensures Happens(NO_WORKERS, es) && |es| == 5 && After(NO_WORKERS, es) == t
    ensures es[2].step == Step.Assign(0, Generic, WorkerPool.NoWorker) && es[3].step == end && es[4].step == Step.Revert(0)
    ensures Possible(NO_WORKERS, es[..4])
    ensures After(NO_WORKERS, es[..4]).HasStatus(0, if end.Cancel? then Aborted else Failed)
    ensures t.HasStatus(0, Queued) && t.runs[0].retryCount == 0
  {
    ghost var before: seq<Event>;
    before, t := EndedWhileMissed(end);
    es, t := Then(NO_WORKERS, before, t, 0, Step.Revert(0));
    assert es[..4] == before;
  }

  /** A run cancelled while a tick looks for a worker comes back into the queue
      when the tick finds none and gives it back. */
  lemma CancelledRunComesBack() returns (es: seq<Event>)
    ensures Happens(NO_WORKERS, es) && |es| == 5 && es[3].step.Cancel?
    ensures Possible(NO_WORKERS, es[..4]) && After(NO_WORKERS, es[..4]).HasStatus(0, Aborted)
    ensures After(NO_WORKERS, es).HasStatus(0, Queued)
  {
    var t: Tables;
    es, t := RevertAfter(Step.Cancel(0, None, None));
  }

  /** So does a run that failed meanwhile: it is queued again without a retry
      being counted, the one way in which FAILED leads to QUEUED for free. */
  lemma RevertRevivesFailedRun() returns (es: seq<Event>)
    ensures Happens(NO_WORKERS, es) && |es| == 5 && es[4].step == Step.Revert(0)
    ensures Possible(NO_WORKERS, es[..4])
    ensures Ledger.Requeued(After(NO_WORKERS, es[..4]), After(NO_WORKERS, es), 0)
    ensures After(NO_WORKERS, es).HasStatus(0, Queued) && After(NO_WORKERS, es).runs[0].retryCount == 0
  {
    var t: Tables;
    es, t := RevertAfter(Step.Finish(0, FAILURE, None, None));
  }

  // ---------------------------------- swept up between claim and assignment

  lemma MissedWhileOffline() returns (es: seq<Event>, t: Tables)
    ensures Happens(ONE_WORKER, es) && |es| == 4 && After(ONE_WORKER, es) == t
    ensures es[3].step == Step.Assign(0, Generic, WorkerPool.NoWorker)
    ensures t.HasStatus(0, InProgress) && t.runs[0].startedAt == Some(0) && t.runs[0].buildUrl.None?
    ensures t.rows == map[] && t.nextRow == 0 && t.workers.Keys == {0} && t.workers[0].status.Offline? && PlainWorkers(t)
  {
    es, t := FirstClaim(ONE_WORKER);
    es, t := Then(ONE_WORKER, es, t, 0, Step.GoOffline(0));
    es, t := Then(ONE_WORKER, es, t, 0, Step.Assign(0, Generic, WorkerPool.NoWorker));
  }

  /** A tick claimed the run and found its worker offline. Before it gives the
      run back, recovery finds the run old enough and puts it into the queue. */
  lemma RecoverySweepsPendingRun() returns (es: seq<Event>, t: Tables)
    ensures Happens(ONE_WORKER, es) && |es| == 5 && After(ONE_WORKER, es) == t
    ensures es[3].step == Step.Assign(0, Generic, WorkerPool.NoWorker) && es[4].step.Recover?
    ensures Possible(ONE_WORKER, es[..4])
    ensures var before := After(ONE_WORKER, es[..4]); before.HasStatus(0, InProgress) && NoOpenRowFor(before, 0)
    ensures t.HasStatus(0, Queued) && t.rows == map[] && t.nextRow == 0
    ensures t.workers.Keys == {0} && t.workers[0].status.Offline? && PlainWorkers(t)
  {
    ghost var before: seq<Event>;
    var t4: Tables;
    before, t4 := MissedWhileOffline();
    es, t := Then(ONE_WORKER, before, t4, 9, Step.Recover(5));
    Orphans.RecoveredIff(t4, 0, 9, 5);
    RecoverWithoutRows(t4, 9, 5);
    assert es[..4] == before;
  }

  lemma SecondTickServes() returns (es: seq<Event>, t: Tables)
    ensures Happens(ONE_WORKER, es) && After(ONE_WORKER, es) == t
    ensures t.HasStatus(0, InProgress) && t.workers.Keys == {0} && t.workers[0].status.Busy?
    ensures t.rows.Keys == {0} && t.OpenFor(0, 0) && t.OpenAt(0, 0) && Coupled(t)
  {
    es, t := RecoverySweepsPendingRun();
    es, t := Then(ONE_WORKER, es, t, 10, Step.GoOnline(0));
    es, t := Then(ONE_WORKER, es, t, 11, Step.Claim(0));
    es, t := Serves(ONE_WORKER, es, t, 11, 0, 0);
    assert t.OpenFor(0, 0) && t.OpenAt(0, 0);
  }

  /** The worker comes back and a second tick serves the run. Now the first tick
      reverts it: the run is queued although a worker is busy with it. */
  lemma LateRevertUncouples() returns (es: seq<Event>)
    ensures Happens(ONE_WORKER, es) && es != [] && es[|es| - 1].step == Step.Revert(0)
    ensures Possible(ONE_WORKER, es[..|es| - 1]) && Coupled(After(ONE_WORKER, es[..|es| - 1]))
    ensures var t := After(ONE_WORKER, es);
      t.HasStatus(0, Queued) && 0 in t.workers && t.workers[0].status.Busy? && t.OpenFor(0, 0) && !Coupled(t)
  {
    var t: Tables;
    ghost var before: seq<Event>;
    before, t := SecondTickServes();
    es, t := Then(ONE_WORKER, before, t, 12, Step.Revert(0));
    assert es[..|es| - 1] == before;
    assert t.OpenFor(0, 0) && !t.HasStatus(t.rows[0].run, InProgress);
  }

  // ------------------------------------------------------ double dispatch

  /** A worker that forgot its row is assigned to the same run again: one run,
      two open rows with one worker. */
  lemma RunningRunGetsSecondRow() returns (es: seq<Event>, t: Tables)
    ensures Happens(ONE_WORKER, es) && After(ONE_WORKER, es) == t
    ensures t.HasStatus(0, InProgress) && t.OpenFor(0, 0) && t.OpenFor(1, 0) && t.OpenAt(0, 0) && t.OpenAt(1, 0) && !Coupled(t)
  {
    es, t := OfflineOnlineForgetsRow();
    es, t := Serves(ONE_WORKER, es, t, 3, 0, 0);
    assert t.OpenFor(0, 0) && t.OpenFor(1, 0);
  }

  lemma RecoverWithoutRows(t: Tables, now: Time, cutoff: Time)
    requires t.rows == map[] && forall w | w in t.workers :: !t.workers[w].status.Busy?
    ensures var t' := Recovery.Recover(t, now, cutoff);
      t'.workers == t.workers && t'.rows == map[] && t'.nextRow == t.nextRow
  {
    assert Recovery.StaleWorkers(t, cutoff) == {};
    Recovery.ResetNobody(t, WasTimeout, now);
    var orphans := Recovery.Orphans(t, cutoff);
    assert Recovery.OpenRowsFor(t, orphans) == {};
  }

  /** A first tick claimed the run; recovery put it back into the queue. */
  lemma ClaimedThenSwept() returns (es: seq<Event>, t: Tables)
    ensures Happens(TWO_WORKERS, es) && |es| == 3 && After(TWO_WORKERS, es) == t
    ensures es[1].step == Step.Claim(0) && es[2].step.Recover?
    ensures t.HasStatus(0, Queued) && t.rows == map[] && t.nextRow == 0 && t.workers == TWO_WORKERS.workers
  {
    ghost var two: seq<Event>;
    var t2: Tables;
    two, t2 := FirstClaim(TWO_WORKERS);
    es, t := Then(TWO_WORKERS, two, t2, 9, Step.Recover(5));
    Orphans.RecoveredIff(t2, 0, 9, 5);
    RecoverWithoutRows(t2, 9, 5);
  }

  /** A second tick claims it again, so two ticks hold one run. */
  lemma ClaimedTwice() returns (es: seq<Event>, t: Tables)
    ensures Happens(TWO_WORKERS, es) && |es| == 4 && After(TWO_WORKERS, es) == t
    ensures es[1].step == Step.Claim(0) && es[2].step.Recover? && es[3].step == Step.Claim(0)
    ensures t.HasStatus(0, InProgress) && t.rows == map[] && t.nextRow == 0 && t.workers == TWO_WORKERS.workers
  {
    ghost var three: seq<Event>;
    var t3: Tables;
    three, t3 := ClaimedThenSwept();
    es, t := Then(TWO_WORKERS, three, t3, 10, Step.Claim(0));
  }

  lemma FirstOfTwoServes() returns (es: seq<Event>, t: Tables)
    ensures Happens(TWO_WORKERS, es) && |es| == 5 && After(TWO_WORKERS, es) == t
    ensures es[4].step == Step.Assign(0, Generic, WorkerPool.Serving(0))
    ensures t.OpenFor(0, 0) && t.OpenAt(0, 0) && t.nextRow == 1 && 0 in t.runs
    ensures t.workers.Keys == {0, 1} && t.workers[0].status.Busy? && t.workers[1].status.Idle? && PlainWorkers(t)
  {
    es, t := ClaimedTwice();
    es, t := Serves(TWO_WORKERS, es, t, 11, 0, 0);
  }

  /** Both then find a worker: the run is dispatched twice, to two workers. */
  lemma DoubleDispatch() returns (es: seq<Event>, t: Tables)
    ensures Happens(TWO_WORKERS, es) && |es| == 6 && After(TWO_WORKERS, es) == t
    ensures es[4].step == Step.Assign(0, Generic, WorkerPool.Serving(0)) && es[5].step == Step.Assign(0, Generic, WorkerPool.Serving(1))
    ensures t.OpenFor(0, 0) && t.OpenAt(0, 0) && t.OpenFor(1, 0) && t.OpenAt(1, 1) && !Coupled(t)
    ensures t.workers.Keys == {0, 1} && t.workers[0].status.Busy? && t.workers[1].status.Busy?
  {
    es, t := FirstOfTwoServes();
    es, t := Serves(TWO_WORKERS, es, t, 11, 0, 1);
    assert t.OpenFor(0, 0) && t.OpenFor(1, 0);
  }

  // ------------------------------------------------------- late callbacks

  lemma FirstSuccess() returns (es: seq<Event>, t: Tables)
    ensures Happens(ONE_WORKER, es) && After(ONE_WORKER, es) == t
    ensures t.HasStatus(0, Completed) && t.runs[0].retryCount == 0 && t.runs[0].maxRetries == 2
    ensures t.workers.Keys == {0} && t.workers[0].status.Idle? && t.rows.Keys == {0} && !t.rows[0].Open()
  {
    es, t := FirstDispatch();
    es, t := Then(ONE_WORKER, es, t, 1, Step.Finish(0, SUCCESS, Some(0), Some(0)));
  }

  /** A build-started callback that arrives after the run completed makes it
      run again, without a row, on no worker, where no recovery finds it, then
      or later. */
  lemma LateStartReopensRun() returns (es: seq<Event>, t: Tables)
    ensures Happens(ONE_WORKER, es) && After(ONE_WORKER, es) == t && es != [] && es[|es| - 1].step.Start?
    ensures Possible(ONE_WORKER, es[..|es| - 1]) && After(ONE_WORKER, es[..|es| - 1]).HasStatus(0, Completed)
    ensures Orphans.Lost(t, 0) && 0 in t.workers && t.workers[0].status.Idle?
    ensures forall more | Possible(t, more) && Orphans.NeverFinds(more, 0) :: After(t, more).HasStatus(0, InProgress)
  {
    es, t := FirstSuccess();
    ghost var before := es;
    es, t := Then(ONE_WORKER, es, t, 2, Step.Start(0, 7, "build/7", None));
    assert es[..|es| - 1] == before;
    LostAfter(es, t);
  }

  /** A failure reported after the run completed makes it failed, and a retry
      then queues the completed run once more. */
  lemma LateFailureReopensRun() returns (es: seq<Event>)
    ensures Happens(ONE_WORKER, es) && |es| >= 2 && es[|es| - 2].step.Finish? && es[|es| - 1].step.RetryByHand?
    ensures Possible(ONE_WORKER, es[..|es| - 2]) && After(ONE_WORKER, es[..|es| - 2]).HasStatus(0, Completed)
    ensures After(ONE_WORKER, es).HasStatus(0, Queued)
  {
    var t: Tables;
    es, t := FirstSuccess();
    ghost var before := es;
    es, t := Then(ONE_WORKER, es, t, 2, Step.Finish(0, FAILURE, None, None));
    es, t := Then(ONE_WORKER, es, t, 3, Step.RetryByHand(0));
    assert es[..|es| - 2] == before;
  }

  // ------------------------------------------------ orphans that are missed

  /** A retry keeps the URL of the failed attempt. If the tick that claims the
      retried run dies before it assigns a worker, the run is lost: whatever else
      happens, recoveries included, it stays as it is until somebody completes,
      cancels, reverts or assigns that very run. */
  lemma RetriedRunIsNeverRecovered() returns (es: seq<Event>, t: Tables)
    ensures Happens(ONE_WORKER, es) && After(ONE_WORKER, es) == t && Orphans.Lost(t, 0)
    ensures forall more | Possible(t, more) && Orphans.NeverFinds(more, 0) :: After(t, more).HasStatus(0, InProgress)
  {
    es, t := FirstDispatch();
    es, t := Then(ONE_WORKER, es, t, 1, Step.Start(0, 7, "build/7", Some(0)));
    es, t := FailRetryClaim(es, t, 2);
    LostAfter(es, t);
  }

  lemma LostAfter(es: seq<Event>, t: Tables)
    requires Happens(ONE_WORKER, es) && After(ONE_WORKER, es) == t && Orphans.Lost(t, 0)
    ensures forall more | Possible(t, more) && Orphans.NeverFinds(more, 0) :: After(t, more).HasStatus(0, InProgress)
  {
    Invariants.AlwaysSound(ONE_WORKER, es);
    forall more | Possible(t, more) && Orphans.NeverFinds(more, 0) ensures After(t, more).HasStatus(0, InProgress) {
      Orphans.LostForGood(t, more, 0);
    }
  }
}
