/** The invariant that ties the three tables together, and exactly when each
    step keeps it. */
module Coupling {
  import opened Records
  import opened Machine
  import opened Invariants
  import WorkerPool
  import JobScheduler
  import Recovery
  import Scheduler
  import Operators

  /** An open row belongs to a running run and to a worker that is not idle. */
  ghost predicate OpenRowsAreLive(t: Tables) {
    forall i | i in t.rows && t.rows[i].Open() ::
      && t.HasStatus(t.rows[i].run, InProgress)
      && t.rows[i].worker in t.workers && !t.workers[t.rows[i].worker].status.Idle?
  }

  /** No run and no worker has two open rows. */
  ghost predicate OpenRowsAreExclusive(t: Tables) {
    forall i, j | i in t.rows && j in t.rows && i != j && t.rows[i].Open() && t.rows[j].Open() ::
      t.rows[i].run != t.rows[j].run && t.rows[i].worker != t.rows[j].worker
  }

  ghost predicate Held(t: Tables, w: WorkerId) {
    exists i :: t.OpenAt(i, w)
  }

  ghost predicate BusyIsHeld(t: Tables) {
    forall w | w in t.workers && t.workers[w].status.Busy? :: Held(t, w)
  }

  ghost predicate Coupled(t: Tables) {
    OpenRowsAreLive(t) && OpenRowsAreExclusive(t) && BusyIsHeld(t)
  }

  predicate NoOpenRowFor(t: Tables, r: RunId) {
    forall i | i in t.rows :: !t.OpenFor(i, r)
  }

  predicate NoOpenRowAt(t: Tables, w: WorkerId) {
    forall i | i in t.rows :: !t.OpenAt(i, w)
  }

  /** The run never had another row with the worker it is running on. */
  ghost predicate FirstPairing(t: Tables, r: RunId) {
    forall i, j | t.OpenFor(i, r) && j in t.rows && t.Pairs(j, r, t.rows[i].worker) :: j == i
  }

  /** What a caller has to see to before the call. Most steps ask for nothing. */
  ghost predicate Guard(t: Tables, step: Step) {
    match step
    case Assign(r, _, _) => r in t.runs && WorkerPool.IdleWorkers(t) != {} ==> t.HasStatus(r, InProgress) && NoOpenRowFor(t, r)
    case Revert(r) => NoOpenRowFor(t, r)
    case Finish(r, _, _, _) => r in t.runs ==> FirstPairing(t, r)
    case Cancel(r, _, _) => t.HasStatus(r, InProgress) ==> FirstPairing(t, r)
    case GoOnline(w) => NoOpenRowAt(t, w)
    case _ => true
  }

  /** Releasing picks the run's open row and not an old one of the same pair. */
  predicate ClosesOpenRow(t: Tables, open: Option<RowId>, close: Option<RowId>) {
    open.None? || (close.Some? && close.value in t.rows && t.rows[close.value].Open())
  }

  /** The guard of one particular outcome, once the database has chosen. */
  predicate Harmless(t: Tables, step: Step) {
    match step
    case Assign(r, _, outcome) => outcome.Serving? ==> t.HasStatus(r, InProgress) && NoOpenRowFor(t, r)
    case Revert(r) => NoOpenRowFor(t, r)
    case Finish(_, _, open, close) => ClosesOpenRow(t, open, close)
    case Cancel(_, open, close) => ClosesOpenRow(t, open, close)
    case GoOnline(w) => NoOpenRowAt(t, w)
    case _ => true
  }

  // ------------------------------------------------ the guarded steps

  lemma AssignCoupling(t: Tables, r: RunId, w: WorkerId, now: Time)
    requires Sound(t) && Coupled(t)
    requires r in t.runs && w in t.workers && t.workers[w].status.Idle?
    ensures Coupled(WorkerPool.Occupy(t, r, w, now)) <==> t.HasStatus(r, InProgress) && NoOpenRowFor(t, r)
  {
    var t', added := WorkerPool.Occupy(t, r, w, now), t.nextRow;
    assert forall i | i in t.rows :: RowSound(t, i);
    assert added !in t.rows && t'.OpenFor(added, r) && t'.OpenAt(added, w);
    assert forall i | i in t.rows :: t'.rows[i] == t.rows[i];
    if t.HasStatus(r, InProgress) && NoOpenRowFor(t, r) {
      assert forall i | i in t.rows && t.rows[i].Open() :: !t.OpenFor(i, r) && t.rows[i].worker != w;
      forall v | v in t'.workers && t'.workers[v].status.Busy? ensures Held(t', v) {
        if v != w {
          var i :| t.OpenAt(i, v);
          assert t'.OpenAt(i, v);
        }
      }
    }
  }

  lemma RevertCoupling(t: Tables, r: RunId)
    requires Coupled(t)
    ensures Coupled(Scheduler.Revert(t, r)) <==> NoOpenRowFor(t, r)
  {
    var t' := Scheduler.Revert(t, r);
    if NoOpenRowFor(t, r) {
      assert forall i | i in t.rows && t.rows[i].Open() :: !t.OpenFor(i, r);
      SameHolding(t, t');
    } else {
      var i :| i in t.rows && t.OpenFor(i, r);
      assert !t'.HasStatus(r, InProgress);
    }
  }

  /** Holding a worker is a matter of the open rows only. */
  lemma SameHolding(t: Tables, t': Tables)
    requires BusyIsHeld(t) && t'.rows == t.rows
    requires forall w | w in t'.workers && t'.workers[w].status.Busy? :: w in t.workers && t.workers[w].status.Busy?
    ensures BusyIsHeld(t')
  {
    forall w | w in t'.workers && t'.workers[w].status.Busy? ensures Held(t', w) {
      var i :| t.OpenAt(i, w);
      assert t'.OpenAt(i, w);
    }
  }

  lemma FinishCoupling(t: Tables, r: RunId, result: JenkinsResult, open: Option<RowId>, close: Option<RowId>, now: Time)
    requires Coupled(t) && JobScheduler.MayFinish(t, r, open, close)
    ensures Coupled(JobScheduler.FinishBuild(t, r, result, open, close, now)) <==> ClosesOpenRow(t, open, close)
  {
    var t' := JobScheduler.FinishBuild(t, r, result, open, close, now);
    if r in t.runs && open.Some? {
      var i, w := open.value, t.rows[open.value].worker;
      assert t.Pairs(i, r, w) && close.Some?;
      var j := close.value;
      if t.rows[j].Open() {
        assert j == i;
        OthersKeepTheirs(t, t', i);
      } else {
        assert t'.rows[i] == t.rows[i] && !t'.HasStatus(r, InProgress);
      }
    } else if r in t.runs {
      assert forall i | i in t.rows && t.rows[i].Open() :: !t.OpenFor(i, r);
      SameHolding(t, t');
    }
  }

  /** Closing row `i` and idling its worker takes no other worker's row away. */
  lemma OthersKeepTheirs(t: Tables, t': Tables, i: RowId)
    requires Coupled(t) && i in t.rows && t.rows[i].Open()
    requires t'.rows.Keys == t.rows.Keys && forall j | j in t.rows && j != i :: t'.rows[j] == t.rows[j]
    requires t'.workers.Keys == t.workers.Keys
    requires forall w | w in t.workers && w != t.rows[i].worker :: t'.workers[w] == t.workers[w]
    requires t.rows[i].worker in t'.workers && t'.workers[t.rows[i].worker].status.Idle?
    ensures BusyIsHeld(t')
  {
    forall w | w in t'.workers && t'.workers[w].status.Busy? ensures Held(t', w) {
      assert Held(t, w);
      var j :| t.OpenAt(j, w);
      assert t'.OpenAt(j, w);
    }
  }

  lemma CancelCoupling(t: Tables, r: RunId, open: Option<RowId>, close: Option<RowId>, now: Time)
    requires Coupled(t) && JobScheduler.MayFinish(t, r, open, close)
    ensures Coupled(Operators.Cancel(t, r, open, close, now)) <==> ClosesOpenRow(t, open, close)
  {
    var t' := Operators.Cancel(t, r, open, close, now);
    if t.HasStatus(r, InProgress) {
      FinishCoupling(t, r, ABORTED, open, close, now);
    } else {
      assert open.None?;
      if t.HasStatus(r, Queued) {
        assert forall i | i in t.rows && t.rows[i].Open() :: t.HasStatus(t.rows[i].run, InProgress);
        SameHolding(t, t');
      }
    }
  }

  lemma OnlineCoupling(t: Tables, w: WorkerId)
    requires Coupled(t)
    ensures Coupled(Operators.SetOnline(t, w)) <==> NoOpenRowAt(t, w)
  {
    var t' := Operators.SetOnline(t, w);
    if NoOpenRowAt(t, w) {
      assert forall i | i in t.rows && t.rows[i].Open() :: !t.OpenAt(i, w);
      SameHolding(t, t');
    } else {
      var i :| i in t.rows && t.OpenAt(i, w);
      assert t'.rows[i].Open();
    }
  }

  // ---------------------------------------------- the unguarded steps

  /** Any new or unheld run may take any status; a held one must stay running. */
  lemma RunsMove(t: Tables, t': Tables)
    requires Coupled(t) && t'.rows == t.rows && t'.workers == t.workers
    requires forall r | t.HasStatus(r, InProgress) && !NoOpenRowFor(t, r) :: t'.HasStatus(r, InProgress)
    ensures Coupled(t')
  {
    assert forall i | i in t.rows && t.rows[i].Open() :: t.OpenFor(i, t.rows[i].run);
    SameHolding(t, t');
  }

  lemma StartCoupling(t: Tables, r: RunId, number: int, url: string, pick: Option<RowId>, now: Time)
    requires Coupled(t) && JobScheduler.MayBeOpen(t, r, pick)
    ensures Coupled(JobScheduler.StartBuild(t, r, number, url, pick, now))
  {
    var t' := JobScheduler.StartBuild(t, r, number, url, pick, now);
    assert forall i | i in t.rows ::
      && t'.rows[i].run == t.rows[i].run && t'.rows[i].worker == t.rows[i].worker
      && (t'.rows[i].Open() <==> t.rows[i].Open());
    forall w | w in t'.workers && t'.workers[w].status.Busy? ensures Held(t', w) {
      var i :| t.OpenAt(i, w);
      assert t'.OpenAt(i, w);
    }
  }

  lemma ResetCoupling(t: Tables, ws: set<WorkerId>, why: RowResult, now: Time)
    requires Coupled(t)
    ensures Coupled(Recovery.ResetWorkers(t, ws, why, now))
  {
    var t', ids := Recovery.ResetWorkers(t, ws, why, now), Recovery.OpenRowsAt(t, ws);
    forall i | i in t'.rows && t'.rows[i].Open()
      ensures i !in ids && t'.rows[i] == t.rows[i]
      ensures t.rows[i].worker !in ws && t'.HasStatus(t.rows[i].run, InProgress)
    {
      assert t.rows[i].run !in Recovery.RunsOf(t, ids);
    }
    forall w | w in t'.workers && t'.workers[w].status.Busy? ensures Held(t', w) {
      assert w !in ws && t.workers[w].status.Busy?;
      var i :| t.OpenAt(i, w);
      assert t'.OpenAt(i, w);
    }
  }

  lemma ReclaimCoupling(t: Tables, rs: set<RunId>, now: Time)
    requires Coupled(t)
    ensures Coupled(Recovery.ReclaimRuns(t, rs, now))
  {
    var t', ids := Recovery.ReclaimRuns(t, rs, now), Recovery.OpenRowsFor(t, rs);
    forall i | i in t'.rows && t'.rows[i].Open()
      ensures i !in ids && t'.rows[i] == t.rows[i] && t.rows[i].run !in rs
      ensures t.rows[i].worker !in Recovery.WorkersOf(t, ids)
    {
    }
    forall w | w in t'.workers && t'.workers[w].status.Busy? ensures Held(t', w) {
      assert t.workers[w].status.Busy? && w !in Recovery.WorkersOf(t, ids);
      var i :| t.OpenAt(i, w);
      assert i !in ids;
      assert t'.OpenAt(i, w);
    }
  }

  lemma FlushCoupling(t: Tables)
    requires Coupled(t)
    ensures Coupled(Operators.Flush(t))
  {
    var t' := Operators.Flush(t);
    forall w | w in t'.workers && t'.workers[w].status.Busy? ensures Held(t', w) {
      var i :| t.OpenAt(i, w);
      assert t.HasStatus(t.rows[i].run, InProgress);
      assert t'.OpenAt(i, w);
    }
  }

  lemma OfflineCoupling(t: Tables, w: WorkerId)
    requires Coupled(t)
    ensures Coupled(Operators.SetOffline(t, w))
  {
    SameHolding(t, Operators.SetOffline(t, w));
  }

  lemma RunStepCoupling(t: Tables, now: Time, step: Step)
    requires Sound(t) && Coupled(t) && Enabled(t, step)
    requires step.Schedule? || step.Claim? || step.OnStage? || step.RetryDue? || step.RetryByHand?
    ensures Coupled(Apply(t, now, step))
  {
    RunsMove(t, Apply(t, now, step));
  }

  /** One outcome of a step keeps the coupling if and only if it is harmless. */
  lemma OutcomeKeepsCouplingIff(t: Tables, now: Time, step: Step)
    requires Sound(t) && Coupled(t) && Enabled(t, step)
    ensures Coupled(Apply(t, now, step)) <==> Harmless(t, step)
  {
    match step
    case Assign(r, _, outcome) =>
      if outcome.Serving? {
        AssignCoupling(t, r, outcome.worker, now);
      }
    case Revert(r) => RevertCoupling(t, r);
    case Finish(r, result, open, close) => FinishCoupling(t, r, result, open, close, now);
    case Cancel(r, open, close) => CancelCoupling(t, r, open, close, now);
    case GoOnline(w) => OnlineCoupling(t, w);
    case Start(r, number, url, pick) => StartCoupling(t, r, number, url, pick, now);
    case Recover(cutoff) =>
      ResetCoupling(t, Recovery.StaleWorkers(t, cutoff), WasTimeout, now);
      var t1 := Recovery.AfterStale(t, now, cutoff);
      ReclaimCoupling(t1, Recovery.Orphans(t1, cutoff), now);
    case Reset(w) => ResetCoupling(t, {w}, WasManualReset, now);
    case Flush => FlushCoupling(t);
    case GoOffline(w) => OfflineCoupling(t, w);
    case _ => RunStepCoupling(t, now, step);
  }

  // ----------------------------------------------- whatever is chosen

  /** The open row of a first pairing is the only row a release can close. */
  lemma FirstPairingClosesOpenRow(t: Tables, r: RunId, open: Option<RowId>, close: Option<RowId>)
    requires JobScheduler.MayFinish(t, r, open, close)
    requires r in t.runs ==> FirstPairing(t, r)
    ensures ClosesOpenRow(t, open, close)
  {
    if open.Some? {
      assert t.Pairs(open.value, r, t.rows[open.value].worker);
    }
  }

  /** Otherwise some choice closes an old row. */
  lemma RepeatedPairingMayCloseOldRow(t: Tables, r: RunId) returns (open: Option<RowId>, close: Option<RowId>)
    requires Coupled(t) && r in t.runs && !FirstPairing(t, r)
    ensures t.HasStatus(r, InProgress)
    ensures JobScheduler.MayFinish(t, r, open, close) && !ClosesOpenRow(t, open, close)
  {
    var i, j :| t.OpenFor(i, r) && j in t.rows && t.Pairs(j, r, t.rows[i].worker) && j != i;
    open, close := Some(i), Some(j);
  }

  /** The guard, and nothing less, makes every outcome of the call harmless. */
  lemma GuardIff(t: Tables, step: Step)
    requires Coupled(t) && Enabled(t, step)
    ensures (forall s | SameCall(step, s) && Enabled(t, s) :: Harmless(t, s)) <==> Guard(t, step)
  {
    if Guard(t, step) {
      forall s | SameCall(step, s) && Enabled(t, s) ensures Harmless(t, s) {
        GuardMakesHarmless(t, s);
      }
    } else {
      var s := HarmfulOutcome(t, step);
    }
  }

  lemma GuardMakesHarmless(t: Tables, s: Step)
    requires Coupled(t) && Enabled(t, s) && Guard(t, s)
    ensures Harmless(t, s)
  {
    match s
    case Assign(r, language, outcome) =>
      if outcome.Serving? {
        assert outcome.worker in WorkerPool.IdleWorkers(t);
      }
    case Finish(r, _, open, close) => FirstPairingClosesOpenRow(t, r, open, close);
    case Cancel(r, open, close) =>
      if t.HasStatus(r, InProgress) {
        FirstPairingClosesOpenRow(t, r, open, close);
      } else {
        assert open.None?;
      }
    case _ =>
  }

  lemma HarmfulOutcome(t: Tables, step: Step) returns (s: Step)
    requires Coupled(t) && Enabled(t, step) && !Guard(t, step)
    ensures SameCall(step, s) && Enabled(t, s) && !Harmless(t, s)
  {
    s := step;
    if step.Finish? {
      var open, close := RepeatedPairingMayCloseOldRow(t, step.r);
      s := Step.Finish(step.r, step.result, open, close);
    } else if step.Cancel? {
      var open, close := RepeatedPairingMayCloseOldRow(t, step.r);
      s := Step.Cancel(step.r, open, close);
    }
  }

  /** A call keeps the coupling, whatever the database chooses, if and only if
      its guard holds. */
  lemma StepKeepsCouplingIff(t: Tables, now: Time, step: Step)
    requires Sound(t) && Coupled(t) && Enabled(t, step)
    ensures (forall s | SameCall(step, s) && Enabled(t, s) :: Coupled(Apply(t, now, s))) <==> Guard(t, step)
  {
    GuardIff(t, step);
    forall s | SameCall(step, s) && Enabled(t, s) ensures Coupled(Apply(t, now, s)) <==> Harmless(t, s) {
      OutcomeKeepsCouplingIff(t, now, s);
    }
  }

  lemma GuardedStepKeepsCoupling(t: Tables, now: Time, step: Step)
    requires Sound(t) && Coupled(t) && Enabled(t, step) && Guard(t, step)
    ensures Coupled(Apply(t, now, step))
  {
    GuardMakesHarmless(t, step);
    OutcomeKeepsCouplingIff(t, now, step);
  }

  // ------------------------------------------ where first pairings come from

  /** No run was ever assigned to one worker twice. */
  ghost predicate PairsAreUnique(t: Tables) {
    forall i, j | i in t.rows && j in t.rows && i != j :: t.rows[i].run != t.rows[j].run || t.rows[i].worker != t.rows[j].worker
  }

  predicate IsNewPair(t: Tables, r: RunId, w: WorkerId) {
    forall i | i in t.rows :: !t.Pairs(i, r, w)
  }

  /** That lasts until a run is assigned to a worker it had before; until then
      every completion and every cancellation meets its guard. */
  lemma StepKeepsPairsIff(t: Tables, now: Time, step: Step)
    requires Sound(t) && PairsAreUnique(t) && Enabled(t, step)
    ensures PairsAreUnique(Apply(t, now, step)) <==>
      (step.Assign? && step.outcome.Serving? ==> IsNewPair(t, step.r, step.outcome.worker))
    ensures forall r :: FirstPairing(t, r)
  {
    if step.Assign? && step.outcome.Serving? {
      AssignPairs(t, step.r, step.outcome.worker, now);
    } else if step.Finish? || step.Cancel? {
      FinishKeepsPairs(t, now, step);
    } else {
      OtherStepsKeepPairs(t, now, step);
    }
  }

  lemma SamePairs(t: Tables, t': Tables)
    requires PairsAreUnique(t) && t'.rows.Keys <= t.rows.Keys
    requires forall i | i in t'.rows :: t'.rows[i].run == t.rows[i].run && t'.rows[i].worker == t.rows[i].worker
    ensures PairsAreUnique(t')
  {
  }

  lemma AssignPairs(t: Tables, r: RunId, w: WorkerId, now: Time)
    requires Sound(t) && PairsAreUnique(t) && w in t.workers
    ensures PairsAreUnique(WorkerPool.Occupy(t, r, w, now)) <==> IsNewPair(t, r, w)
  {
    var t', added := WorkerPool.Occupy(t, r, w, now), t.nextRow;
    assert forall i | i in t.rows :: RowSound(t, i);
    assert added !in t.rows && t'.Pairs(added, r, w);
    assert forall i | i in t.rows :: t'.rows[i] == t.rows[i];
    if i :| i in t.rows && t.Pairs(i, r, w) {
      assert t'.rows[i].run == t'.rows[added].run && t'.rows[i].worker == t'.rows[added].worker;
    }
  }

  lemma FinishKeepsPairs(t: Tables, now: Time, step: Step)
    requires PairsAreUnique(t) && Enabled(t, step) && (step.Finish? || step.Cancel?)
    ensures PairsAreUnique(Apply(t, now, step))
  {
    SamePairs(t, Apply(t, now, step));
  }

  lemma OtherStepsKeepPairs(t: Tables, now: Time, step: Step)
    requires PairsAreUnique(t) && Enabled(t, step)
    requires !step.Finish? && !step.Cancel? && (step.Assign? ==> !step.outcome.Serving?)
    ensures PairsAreUnique(Apply(t, now, step))
  {
    SamePairs(t, Apply(t, now, step));
  }

  // ------------------------------------------------------- over whole runs

  ghost predicate Guarded(t: Tables, es: seq<Event>)
    requires Possible(t, es)
    decreases |es|
  {
    es == [] ||
    (Guard(t, es[0].step) && Guarded(Apply(t, es[0].now, es[0].step), es[1..]))
  }

  lemma {:induction false} AlwaysCoupled(t: Tables, es: seq<Event>)
    requires Sound(t) && Coupled(t) && Possible(t, es) && Guarded(t, es)
    ensures Sound(After(t, es)) && Coupled(After(t, es))
    decreases |es|
  {
    if es != [] {
      StepKeepsSound(t, es[0].now, es[0].step);
      GuardedStepKeepsCoupling(t, es[0].now, es[0].step);
      AlwaysCoupled(Apply(t, es[0].now, es[0].step), es[1..]);
    }
  }

  /** Hence a run that is not running holds no worker, a busy worker has exactly
      one open row and an idle one has none. */
  lemma CouplingMeans(t0: Tables, es: seq<Event>)
    requires Fresh(t0) && Possible(t0, es) && Guarded(t0, es)
    ensures var t := After(t0, es);
      && (forall r | r in t.runs && !t.runs[r].status.InProgress? :: NoOpenRowFor(t, r))
      && (forall w | w in t.workers && t.workers[w].status.Idle? :: NoOpenRowAt(t, w))
      && (forall w | w in t.workers && t.workers[w].status.Busy? ::
            exists i :: t.OpenAt(i, w) && forall j :: t.OpenAt(j, w) ==> j == i)
  {
    AlwaysCoupled(t0, es);
    var t := After(t0, es);
    forall w | w in t.workers && t.workers[w].status.Busy?
      ensures exists i :: t.OpenAt(i, w) && forall j :: t.OpenAt(j, w) ==> j == i
    {
      assert Held(t, w);
      var i :| t.OpenAt(i, w);
    }
  }
}
