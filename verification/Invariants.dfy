/** What every step keeps, whatever the order and the arguments of the calls. */
module Invariants {
  import opened Records
  import opened Queries
  import opened WorkerPool
  import opened Machine
  import JobScheduler
  import Recovery
  import Scheduler
  import Operators

  /** A queued run was not started, retries stay within their allowance, and
      the stage rows have pairwise distinct names, in their stored order. */
  predicate RunSound(run: Run) {
    && (run.status.Queued? ==> run.startedAt.None?)
    && run.retryCount <= run.maxRetries
    && forall i | 0 <= i < |run.stages| ::
         run.stages[i].order == i && forall j | 0 <= j < i :: run.stages[j].name != run.stages[i].name
  }

  /** An idle worker carries no load, a busy one half a unit, and one that went
      offline what it had. */
  predicate WorkerSound(worker: Worker) {
    match worker.status
    case Idle => worker.load == 0
    case Busy => worker.load == 1
    case Offline => worker.load <= 1
  }

  predicate RowSound(t: Tables, i: RowId) {
    i in t.rows ==> i < t.nextRow && t.rows[i].run in t.runs && t.rows[i].worker in t.workers
  }

  ghost predicate Sound(t: Tables) {
    && (forall r | r in t.runs :: r < t.nextRun && RunSound(t.runs[r]))
    && (forall w | w in t.workers :: WorkerSound(t.workers[w]))
    && (forall i | i in t.rows :: RowSound(t, i))
  }

  lemma ScheduleKeepsSound(t: Tables, q: JobScheduler.Request, names: seq<string>, now: Time)
    requires Sound(t) && Distinct(names)
    ensures Sound(JobScheduler.Schedule(t, q, names, now))
  {
    assert RunSound(JobScheduler.NewRun(q, names, now));
  }

  lemma FinishKeepsSound(t: Tables, r: RunId, result: JenkinsResult, open: Option<RowId>, close: Option<RowId>, now: Time)
    requires Sound(t) && JobScheduler.MayFinish(t, r, open, close)
    ensures Sound(JobScheduler.FinishBuild(t, r, result, open, close, now))
  {
    if r in t.runs {
      assert RunSound(JobScheduler.FinishedRun(t.runs[r], result, now));
      assert forall i | i in t.rows :: RowSound(t, i);
    }
  }

  lemma RecoverKeepsSound(t: Tables, now: Time, cutoff: Time)
    requires Sound(t)
    ensures Sound(Recovery.Recover(t, now, cutoff))
  {
    var stale := Recovery.StaleWorkers(t, cutoff);
    ResetTakesBack(t, stale, WasTimeout, now);
    var t1 := Recovery.AfterStale(t, now, cutoff);
    TakingBackKeepsSound(t, t1);
    var orphans := Recovery.Orphans(t1, cutoff);
    ReclaimTakesBack(t1, orphans, now);
    TakingBackKeepsSound(t1, Recovery.ReclaimRuns(t1, orphans, now));
  }

  lemma RequeueKeepsRunSound(run: Run)
    requires RunSound(run)
    ensures RunSound(Recovery.Requeue(run))
  {
  }

  /** What taking work back may do: re-queue runs, idle workers, close rows. */
  ghost predicate TakesBack(t: Tables, t': Tables) {
    && t'.runs.Keys == t.runs.Keys && t'.workers.Keys == t.workers.Keys && t'.rows.Keys == t.rows.Keys
    && t'.nextRun == t.nextRun && t'.nextRow == t.nextRow
    && (forall r | r in t.runs :: t'.runs[r] == t.runs[r] || t'.runs[r] == Recovery.Requeue(t.runs[r]))
    && (forall w | w in t.workers :: t'.workers[w] == t.workers[w]
          || (t'.workers[w].status.Idle? && (t'.workers[w].load == 0
               || (t.workers[w].status.Busy? && t'.workers[w].load == t.workers[w].load - 1))))
    && (forall i | i in t.rows :: t'.rows[i].run == t.rows[i].run && t'.rows[i].worker == t.rows[i].worker)
  }

  lemma TakingBackKeepsSound(t: Tables, t': Tables)
    requires Sound(t) && TakesBack(t, t')
    ensures Sound(t')
  {
    forall r | r in t'.runs ensures r < t'.nextRun && RunSound(t'.runs[r]) {
      RequeueKeepsRunSound(t.runs[r]);
    }
    forall w | w in t'.workers ensures WorkerSound(t'.workers[w]) {
      assert WorkerSound(t.workers[w]);
    }
    forall i | i in t'.rows ensures RowSound(t', i) {
      assert RowSound(t, i);
    }
  }

  lemma ResetTakesBack(t: Tables, ws: set<WorkerId>, why: RowResult, now: Time)
    ensures TakesBack(t, Recovery.ResetWorkers(t, ws, why, now))
  {
  }

  lemma ReclaimTakesBack(t: Tables, rs: set<RunId>, now: Time)
    ensures TakesBack(t, Recovery.ReclaimRuns(t, rs, now))
  {
  }

  lemma RetriesKeepSound(t: Tables, now: Time, backoffs: seq<int>)
    requires Sound(t) && backoffs != []
    ensures Sound(Scheduler.RetryAll(t, now, backoffs))
  {
    assert forall i | i in t.rows :: RowSound(t, i);
    forall r | r in t.runs ensures RunSound(Scheduler.RetryStep(t.runs[r], now, backoffs)) {
    }
  }

  lemma StageKeepsSound(t: Tables, r: RunId, name: string, e: JobScheduler.StageEvent, now: Time)
    requires Sound(t)
    ensures Sound(JobScheduler.StageCallback(t, r, name, e, now))
  {
    assert forall i | i in t.rows :: RowSound(t, i);
    if r in t.runs {
      var run := t.runs[r];
      assert RunSound(run.(stages := JobScheduler.MarkStages(run.stages, name, e, now)));
    }
  }

  lemma FlushKeepsSound(t: Tables)
    requires Sound(t)
    ensures Sound(Operators.Flush(t))
  {
    assert forall i | i in t.rows :: RowSound(t, i);
  }

  lemma RunStepKeepsSound(t: Tables, now: Time, step: Step)
    requires Sound(t) && Enabled(t, step)
    requires step.Claim? || step.Revert? || step.RetryByHand?
    ensures Sound(Apply(t, now, step))
  {
    assert forall i | i in t.rows :: RowSound(t, i);
  }

  lemma StartKeepsSound(t: Tables, r: RunId, number: int, url: string, pick: Option<RowId>, now: Time)
    requires Sound(t) && JobScheduler.MayBeOpen(t, r, pick)
    ensures Sound(JobScheduler.StartBuild(t, r, number, url, pick, now))
  {
    assert forall i | i in t.rows :: RowSound(t, i);
  }

  lemma WorkerStepKeepsSound(t: Tables, now: Time, step: Step)
    requires Sound(t) && Enabled(t, step)
    requires step.Assign? || step.GoOffline? || step.GoOnline?
    ensures Sound(Apply(t, now, step))
  {
    assert forall i | i in t.rows :: RowSound(t, i);
  }

  lemma CancelKeepsSound(t: Tables, r: RunId, open: Option<RowId>, close: Option<RowId>, now: Time)
    requires Sound(t) && JobScheduler.MayFinish(t, r, open, close)
    ensures Sound(Operators.Cancel(t, r, open, close, now))
  {
    assert forall i | i in t.rows :: RowSound(t, i);
    FinishKeepsSound(t, r, ABORTED, open, close, now);
  }

  /** No step needs a guard for this. */
  lemma StepKeepsSound(t: Tables, now: Time, step: Step)
    requires Sound(t) && Enabled(t, step)
    ensures Sound(Apply(t, now, step))
  {
    match step
    case Schedule(q, names) => ScheduleKeepsSound(t, q, names, now);
    case Finish(r, result, open, close) => FinishKeepsSound(t, r, result, open, close, now);
    case Cancel(r, open, close) => CancelKeepsSound(t, r, open, close, now);
    case OnStage(r, name, e) => StageKeepsSound(t, r, name, e, now);
    case Recover(cutoff) => RecoverKeepsSound(t, now, cutoff);
    case RetryDue(backoffs) => RetriesKeepSound(t, now, backoffs);
    case Flush => FlushKeepsSound(t);
    case Reset(w) =>
      ResetTakesBack(t, {w}, WasManualReset, now);
      TakingBackKeepsSound(t, Recovery.ResetWorkers(t, {w}, WasManualReset, now));
    case Start(r, number, url, pick) => StartKeepsSound(t, r, number, url, pick, now);
    case Claim(_) => RunStepKeepsSound(t, now, step);
    case Revert(_) => RunStepKeepsSound(t, now, step);
    case RetryByHand(_) => RunStepKeepsSound(t, now, step);
    case _ => WorkerStepKeepsSound(t, now, step);
  }

  lemma {:induction false} AlwaysSound(t: Tables, es: seq<Event>)
    requires Sound(t) && Possible(t, es)
    ensures Sound(After(t, es))
    decreases |es|
  {
    if es != [] {
      StepKeepsSound(t, es[0].now, es[0].step);
      AlwaysSound(Apply(t, es[0].now, es[0].step), es[1..]);
    }
  }

  // ------------------------------------------------------- what follows

  /** The load of the given workers together, in half units. */
  ghost function TotalLoad(workers: map<WorkerId, Worker>, ws: set<WorkerId>): nat
    requires ws <= workers.Keys
  {
    if ws == {} then 0 else
      var w: WorkerId :| w in ws;
      workers[w].load + TotalLoad(workers, ws - {w})
  }

  lemma {:induction false} LoadCountsBusy(workers: map<WorkerId, Worker>, ws: set<WorkerId>)
    requires ws <= workers.Keys
    requires forall w | w in ws :: WorkerSound(workers[w]) && !workers[w].status.Offline?
    ensures TotalLoad(workers, ws) == |ws * BusyIn(workers)|
    decreases |ws|
  {
    if ws != {} {
      var w: WorkerId :| w in ws && TotalLoad(workers, ws) == workers[w].load + TotalLoad(workers, ws - {w});
      LoadCountsBusy(workers, ws - {w});
      var busy := BusyIn(workers);
      if w in busy {
        assert ws * busy == (ws - {w}) * busy + {w};
      } else {
        assert ws * busy == (ws - {w}) * busy;
      }
    }
  }

  /** In every reachable state the load of the workers that are not offline is
      half a unit for each busy one. */
  lemma LoadAccounting(t0: Tables, es: seq<Event>)
    requires Fresh(t0) && Possible(t0, es)
    ensures var t := After(t0, es);
      TotalLoad(t.workers, set w | w in t.workers && !t.workers[w].status.Offline?) == |BusyIn(t.workers)|
  {
    AlwaysSound(t0, es);
    var t := After(t0, es);
    var up := set w | w in t.workers && !t.workers[w].status.Offline?;
    LoadCountsBusy(t.workers, up);
    assert up * BusyIn(t.workers) == BusyIn(t.workers);
  }

  /** Two of the three clamps never change a value: the one of assigning, which
      meets idle workers only, and the one of recovery's second phase, which
      frees busy workers only. Module Loads has the third. */
  lemma ClampsAreIdle(t0: Tables, es: seq<Event>, w: WorkerId, now: Time)
    requires Fresh(t0) && Possible(t0, es)
    requires w in After(t0, es).workers
    ensures var worker := After(t0, es).workers[w];
      && (worker.status.Idle? ==> Engaged(worker, now).load == worker.load + 1)
      && (worker.status.Busy? ==> FreeWorker(worker, now).load == worker.load - 1)
  {
    AlwaysSound(t0, es);
  }

  /** In every reachable state a queued run is one that was never started, so
      claiming it and giving it back leaves no trace at all. */
  lemma ClaimThenRevert(t0: Tables, es: seq<Event>, r: RunId, now: Time)
    requires Fresh(t0) && Possible(t0, es)
    requires After(t0, es).HasStatus(r, Queued)
    ensures Scheduler.Revert(Scheduler.Claim(After(t0, es), r, now), r) == After(t0, es)
  {
    AlwaysSound(t0, es);
    var t := After(t0, es);
    assert t.runs[r := t.runs[r]] == t.runs;
  }

  /** A lookup of a stage by run and name never raises. */
  lemma StageLookupIsUnique(t0: Tables, es: seq<Event>, r: RunId, name: string)
    requires Fresh(t0) && Possible(t0, es)
    requires r in After(t0, es).runs
    ensures !JobScheduler.Clash(After(t0, es).runs[r].stages, name)
  {
    AlwaysSound(t0, es);
  }

  // ------------------------------------------------- an undisturbed tick

  /** The runs after a dispatch: the first |ws| are running, nothing else moved. */
  lemma DispatchedRuns(t: Tables, q: seq<RunId>, ws: seq<WorkerId>, at: Scheduler.Clock, after: Tables)
    requires Sound(t) && Scheduler.AllQueued(t, q)
    requires Scheduler.DispatchOutcome(t, q, ws, at, after)
    ensures after.runs.Keys == t.runs.Keys
    ensures forall k | 0 <= k < |ws| ::
      q[k] in t.runs && after.runs[q[k]] == t.runs[q[k]].(status := InProgress, startedAt := Some(at.claim(q[k])))
    ensures forall r | r in t.runs && r !in q[..|ws|] :: after.runs[r] == t.runs[r]
  {
    assert forall k | 0 <= k < |ws| :: q[..|ws|][k] == q[k];
    forall r | r in t.runs && r !in q[..|ws|] ensures after.runs[r] == t.runs[r] {
      if r in q {
        var k :| 0 <= k < |q| && q[k] == r;
        assert RunSound(t.runs[r]);
      }
    }
  }

  /** The workers after a dispatch: as many as possible, pairwise distinct, all
      idle before, at busy with half a unit; nobody else moved. */
  lemma DispatchedWorkers(t: Tables, q: seq<RunId>, ws: seq<WorkerId>, at: Scheduler.Clock, after: Tables)
    requires Sound(t)
    requires Scheduler.DispatchOutcome(t, q, ws, at, after)
    ensures |ws| == Scheduler.Min(|q|, |IdleWorkers(t)|) && Distinct(ws)
    ensures after.workers.Keys == t.workers.Keys
    ensures forall k | 0 <= k < |ws| ::
      && ws[k] in t.workers && t.workers[ws[k]].status.Idle?
      && after.workers[ws[k]] == t.workers[ws[k]].(status := Busy, load := 1, heartbeat := Some(at.assign(ws[k])))
    ensures forall w | w in t.workers && w !in ws :: after.workers[w] == t.workers[w]
  {
    forall k | 0 <= k < |ws| ensures ws[k] in t.workers && t.workers[ws[k]].status.Idle? {
      assert ws[k] in Members(ws);
    }
  }

  /** The rows after a dispatch: one fresh open row per served run. */
  lemma DispatchedRows(t: Tables, q: seq<RunId>, ws: seq<WorkerId>, at: Scheduler.Clock, after: Tables)
    requires Sound(t)
    requires Scheduler.DispatchOutcome(t, q, ws, at, after)
    ensures forall i: RowId :: i in after.rows <==> i in t.rows || t.nextRow <= i < t.nextRow + |ws|
    ensures forall k | 0 <= k < |ws| ::
      after.rows[t.nextRow + k] == Assignment(q[k], ws[k], RowAssigned, None, None, None)
    ensures forall i | i in t.rows :: after.rows[i] == t.rows[i]
  {
    Scheduler.FreshRowsContent(t.nextRow, q, ws);
    assert forall i | i in t.rows :: RowSound(t, i);
  }

  /** A tick dispatches at most `maxConcurrent` runs, and whoever was selected
      but not served is exactly as before. */
  lemma TickServesAtMostCap(t: Tables, mode: Scheduler.Mode, settings: Scheduler.Settings, at: Scheduler.Clock, retryAt: Time,
                            full: seq<RunId>, q: seq<RunId>, ws: seq<WorkerId>, after: Tables)
    requires Sound(t) && settings.backoffs != []
    requires Scheduler.Ticked(t, mode, settings, at, retryAt, full, q, ws, after)
    ensures |ws| == Scheduler.Min(Scheduler.Min(settings.maxConcurrent, |Scheduler.Waiting(t, mode)|), |IdleWorkers(t)|)
    ensures forall r | r in t.runs && !t.runs[r].status.Failed? && r !in q[..|ws|] :: after.runs[r] == t.runs[r]
  {
    Scheduler.SelectedAreQueued(q, full, t, mode, settings.maxConcurrent);
    DistinctSize(full);
    assert |Scheduler.Waiting(t, mode)| == |Scheduler.Waiting(t, mode).Keys|;
    DispatchedRuns(t, q, ws, at, Scheduler.Dispatched(t, q, ws, at));
  }
}
