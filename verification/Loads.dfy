/** The clamps on a worker's load, `min(1.0, ...)` when it is assigned and
    `max(0.0, ...)` when it is released: exactly when they change a value, and
    what a release does to a worker that was taken offline. */
module Loads {
  import opened Records
  import opened WorkerPool
  import opened Machine
  import opened Invariants
  import opened Coupling
  import JobScheduler
  import Recovery

  /** The worker of every open row carries its half unit. */
  ghost predicate HeldIsLoaded(t: Tables) {
    forall i | i in t.rows && t.rows[i].Open() :: t.rows[i].worker in t.workers && t.workers[t.rows[i].worker].load == 1
  }

  lemma HeldIsNotIdle(t: Tables, i: RowId)
    requires Sound(t) && HeldIsLoaded(t) && i in t.rows && t.rows[i].Open()
    ensures !t.workers[t.rows[i].worker].status.Idle?
  {
    assert WorkerSound(t.workers[t.rows[i].worker]);
  }

  /** Every row that is open after the step was open before, and its worker's
      load was not touched. */
  ghost predicate KeepsHeldLoads(t: Tables, t': Tables) {
    forall i | i in t'.rows && t'.rows[i].Open() ::
      && i in t.rows && t.rows[i].Open() && t'.rows[i].worker == t.rows[i].worker
      && (t.rows[i].worker in t.workers ==>
            t.rows[i].worker in t'.workers && t'.workers[t.rows[i].worker].load == t.workers[t.rows[i].worker].load)
  }

  lemma AssignKeepsHeldLoaded(t: Tables, r: RunId, w: WorkerId, now: Time)
    requires Sound(t) && HeldIsLoaded(t) && w in t.workers && t.workers[w].status.Idle?
    ensures HeldIsLoaded(Occupy(t, r, w, now))
  {
    var t' := Occupy(t, r, w, now);
    assert WorkerSound(t.workers[w]);
    forall i | i in t'.rows && t'.rows[i].Open()
      ensures t'.rows[i].worker in t'.workers && t'.workers[t'.rows[i].worker].load == 1
    {
      if i != t.nextRow {
        HeldIsNotIdle(t, i);
      }
    }
  }

  /** A completion that closes the open row takes the load of no other row. */
  lemma FinishKeepsHeldLoads(t: Tables, r: RunId, result: JenkinsResult, open: Option<RowId>, close: Option<RowId>, now: Time)
    requires Coupled(t) && JobScheduler.MayFinish(t, r, open, close) && ClosesOpenRow(t, open, close)
    ensures KeepsHeldLoads(t, JobScheduler.FinishBuild(t, r, result, open, close, now))
  {
    if r in t.runs && open.Some? {
      assert t.Pairs(close.value, r, t.rows[open.value].worker);
      assert close == open;
    }
  }

  lemma ResetKeepsHeldLoads(t: Tables, ws: set<WorkerId>, why: RowResult, now: Time)
    ensures KeepsHeldLoads(t, Recovery.ResetWorkers(t, ws, why, now))
  {
    var t', ids := Recovery.ResetWorkers(t, ws, why, now), Recovery.OpenRowsAt(t, ws);
    assert forall i | i in t'.rows && t'.rows[i].Open() :: i !in ids;
  }

  lemma ReclaimKeepsHeldLoads(t: Tables, rs: set<RunId>, now: Time)
    requires Coupled(t)
    ensures KeepsHeldLoads(t, Recovery.ReclaimRuns(t, rs, now))
  {
    var t', ids := Recovery.ReclaimRuns(t, rs, now), Recovery.OpenRowsFor(t, rs);
    assert forall i | i in t'.rows && t'.rows[i].Open() :: i !in ids && t.rows[i].worker !in Recovery.WorkersOf(t, ids);
  }

  lemma OtherKeepsHeldLoads(t: Tables, now: Time, step: Step)
    requires Coupled(t) && Enabled(t, step) && Harmless(t, step)
    requires !step.Assign? && !step.Finish? && !step.Cancel? && !step.Recover? && !step.Reset?
    ensures KeepsHeldLoads(t, Apply(t, now, step))
  {
    if step.GoOnline? {
      assert forall i | i in t.rows && t.rows[i].Open() :: !t.OpenAt(i, step.w);
    }
  }

  /** What keeps the coupling keeps the held workers loaded. */
  lemma StepKeepsHeldLoaded(t: Tables, now: Time, step: Step)
    requires Sound(t) && Coupled(t) && HeldIsLoaded(t) && Enabled(t, step) && Guard(t, step)
    ensures HeldIsLoaded(Apply(t, now, step))
  {
    GuardMakesHarmless(t, step);
    if step.Assign? {
      if step.outcome.Serving? {
        AssignKeepsHeldLoaded(t, step.r, step.outcome.worker, now);
      }
    } else if step.Finish? {
      FinishKeepsHeldLoads(t, step.r, step.result, step.open, step.close, now);
    } else if step.Cancel? {
      FinishKeepsHeldLoads(t, step.r, ABORTED, step.open, step.close, now);
    } else if step.Recover? {
      ResetKeepsHeldLoads(t, Recovery.StaleWorkers(t, step.cutoff), WasTimeout, now);
      ResetCoupling(t, Recovery.StaleWorkers(t, step.cutoff), WasTimeout, now);
      var t1 := Recovery.AfterStale(t, now, step.cutoff);
      ReclaimKeepsHeldLoads(t1, Recovery.Orphans(t1, step.cutoff), now);
    } else if step.Reset? {
      ResetKeepsHeldLoads(t, {step.w}, WasManualReset, now);
    } else {
      OtherKeepsHeldLoads(t, now, step);
    }
  }

  lemma {:induction false} HeldIsAlwaysLoaded(t: Tables, es: seq<Event>)
    requires Sound(t) && Coupled(t) && HeldIsLoaded(t) && Possible(t, es) && Guarded(t, es)
    ensures HeldIsLoaded(After(t, es))
    decreases |es|
  {
    if es != [] {
      StepKeepsSound(t, es[0].now, es[0].step);
      GuardedStepKeepsCoupling(t, es[0].now, es[0].step);
      StepKeepsHeldLoaded(t, es[0].now, es[0].step);
      HeldIsAlwaysLoaded(Apply(t, es[0].now, es[0].step), es[1..]);
    }
  }

  // -------------------------------------------------------------- release

  /** The worker a completion or a cancellation releases, if it does. */
  function Released(t: Tables, step: Step): Option<WorkerId>
    requires Enabled(t, step)
  {
    if (step.Finish? && step.r in t.runs) || (step.Cancel? && t.HasStatus(step.r, InProgress)) then
      if step.open.Some? && t.rows[step.open.value].worker in t.workers then Some(t.rows[step.open.value].worker) else None
    else None
  }

  /** Whatever its worker is doing, a release takes half a unit exactly when the
      worker has one: when it is busy, or went offline with it. Otherwise the
      clamp acts and the load stays 0. */
  lemma ReleaseClampsIff(t: Tables, now: Time, step: Step)
    requires Sound(t) && Enabled(t, step) && Released(t, step).Some?
    ensures var w := Released(t, step).value;
      var before, after := t.workers[w], Apply(t, now, step).workers[w];
      && (after.load == before.load - 1 <==> before.load >= 1)
      && (before.load >= 1 <==> before.status.Busy? || (before.status.Offline? && before.load == 1))
      && (before.load < 1 ==> before.load == 0 == after.load)
  {
    assert WorkerSound(t.workers[Released(t, step).value]);
  }

  predicate IsOffline(t: Tables, w: WorkerId) {
    w in t.workers && t.workers[w].status.Offline?
  }

  /** The call ends a run that holds a row with the worker. */
  ghost predicate EndsRunAt(t: Tables, step: Step, w: WorkerId) {
    && ((step.Finish? && step.r in t.runs) || (step.Cancel? && t.HasStatus(step.r, InProgress)))
    && exists i :: t.OpenFor(i, step.r) && t.rows[i].worker == w
  }

  /** A worker that was taken offline surely stays so, whatever the database
      chooses, unless it is set online or reset, with one exception: completing
      or cancelling a run it holds. The exception can be looked up beforehand. */
  lemma OfflineLastsIff(t: Tables, now: Time, step: Step, w: WorkerId)
    requires Enabled(t, step) && IsOffline(t, w)
    ensures (forall s | SameCall(step, s) && Enabled(t, s) :: IsOffline(Apply(t, now, s), w)) <==>
      !((step.GoOnline? || step.Reset?) && step.w == w) && !EndsRunAt(t, step, w)
  {
    forall s | SameCall(step, s) && Enabled(t, s)
      ensures IsOffline(Apply(t, now, s), w) <==> !((step.GoOnline? || step.Reset?) && step.w == w) && Released(t, s) != Some(w)
      ensures Released(t, s) == Some(w) ==> EndsRunAt(t, step, w)
    {
      OutcomeKeepsOfflineIff(t, now, s, w);
      if Released(t, s) == Some(w) {
        assert t.OpenFor(s.open.value, s.r);
      }
    }
    if EndsRunAt(t, step, w) {
      var s := WakingOutcome(t, step, w);
    } else {
      assert SameCall(step, step);
    }
  }

  lemma WakingOutcome(t: Tables, step: Step, w: WorkerId) returns (s: Step)
    requires Enabled(t, step) && EndsRunAt(t, step, w) && w in t.workers
    ensures SameCall(step, s) && Enabled(t, s) && Released(t, s) == Some(w)
  {
    var i :| t.OpenFor(i, step.r) && t.rows[i].worker == w;
    assert t.Pairs(i, step.r, w);
    s := if step.Finish? then Step.Finish(step.r, step.result, Some(i), Some(i)) else Step.Cancel(step.r, Some(i), Some(i));
  }

  /** For one outcome: unless the row it picks is at that worker. */
  lemma OutcomeKeepsOfflineIff(t: Tables, now: Time, step: Step, w: WorkerId)
    requires Enabled(t, step) && w in t.workers && t.workers[w].status.Offline?
    ensures w in Apply(t, now, step).workers
    ensures Apply(t, now, step).workers[w].status.Offline? <==>
      !((step.GoOnline? || step.Reset?) && step.w == w) && Released(t, step) != Some(w)
  {
    if step.Assign? && step.outcome.Serving? {
      assert step.outcome.worker in IdleWorkers(t);
    }
  }

  /** After any guarded history no clamp acts in the next call: a worker that is
      assigned gains exactly half a unit and one that is released loses it. */
  lemma GuardedNeverClamps(t0: Tables, es: seq<Event>, now: Time, step: Step)
    requires Fresh(t0) && Possible(t0, es) && Guarded(t0, es)
    requires Enabled(After(t0, es), step)
    ensures var t := After(t0, es);
      && (Released(t, step).Some? ==>
            var w := Released(t, step).value; Apply(t, now, step).workers[w].load == t.workers[w].load - 1)
      && (step.Assign? && step.outcome.Serving? ==>
            var w := step.outcome.worker; Apply(t, now, step).workers[w].load == t.workers[w].load + 1)
  {
    AlwaysCoupled(t0, es);
    HeldIsAlwaysLoaded(t0, es);
    var t := After(t0, es);
    if Released(t, step).Some? {
      ReleaseClampsIff(t, now, step);
    }
    if step.Assign? && step.outcome.Serving? {
      assert WorkerSound(t.workers[step.outcome.worker]);
    }
  }
}
