/** Running runs that recovery finds and those it never will. */
module Orphans {
  import opened Records
  import opened Machine
  import opened Invariants
  import opened Coupling
  import WorkerPool
  import JobScheduler
  import Recovery

  /** Busy, and the last heartbeat is before the cutoff. */
  predicate IsSilent(t: Tables, w: WorkerId, cutoff: Time) {
    w in t.workers && t.workers[w].status == Busy && t.workers[w].heartbeat.Some? && t.workers[w].heartbeat.value < cutoff
  }

  /** Never acknowledged by Jenkins, and started before the cutoff or at no time. */
  predicate IsOrphan(run: Run, cutoff: Time) {
    run.status == InProgress && run.buildUrl == None && (run.startedAt == None || run.startedAt.value < cutoff)
  }

  /** The run holds a row with a busy worker that stopped sending heartbeats. */
  ghost predicate HeldByStale(t: Tables, r: RunId, cutoff: Time) {
    exists i :: t.OpenFor(i, r) && IsSilent(t, t.rows[i].worker, cutoff)
  }

  /** Recovery re-queues a running run if and only if one of its workers is
      stale or it is an orphan; otherwise it leaves the record alone. */
  lemma RecoveredIff(t: Tables, r: RunId, now: Time, cutoff: Time)
    requires t.HasStatus(r, InProgress)
    ensures Recovery.Recover(t, now, cutoff).HasStatus(r, Queued) <==> HeldByStale(t, r, cutoff) || IsOrphan(t.runs[r], cutoff)
    ensures !Recovery.Recover(t, now, cutoff).HasStatus(r, Queued) ==>
      r in Recovery.Recover(t, now, cutoff).runs && Recovery.Recover(t, now, cutoff).runs[r] == t.runs[r]
  {
    var ids := Recovery.OpenRowsAt(t, Recovery.StaleWorkers(t, cutoff));
    var t1 := Recovery.AfterStale(t, now, cutoff);
    if HeldByStale(t, r, cutoff) {
      var i :| t.OpenFor(i, r) && IsSilent(t, t.rows[i].worker, cutoff);
      assert i in ids && r in Recovery.RunsOf(t, ids);
      assert t1.runs[r] == Recovery.Requeue(t.runs[r]);
    } else {
      assert forall i | i in ids :: !t.OpenFor(i, r);
      assert t1.runs[r] == t.runs[r];
    }
  }

  /** No worker of the run counts as stale at any cutoff: it is offline, say, or
      never sent a heartbeat. */
  ghost predicate HeldByNobodyStale(t: Tables, r: RunId) {
    forall i | t.OpenFor(i, r) :: t.rows[i].worker in t.workers ==>
      var worker := t.workers[t.rows[i].worker]; !worker.status.Busy? || worker.heartbeat.None?
  }

  /** At this moment no recovery would re-queue the running run, whatever its
      cutoff, if and only if the run has a build URL and none of its workers can
      be stale. Later steps may change that, for instance by giving its worker
      another run. */
  lemma NeverRecoveredIff(t: Tables, r: RunId, now: Time)
    requires t.HasStatus(r, InProgress)
    ensures (forall cutoff :: !Recovery.Recover(t, now, cutoff).HasStatus(r, Queued)) <==>
      t.runs[r].buildUrl.Some? && HeldByNobodyStale(t, r)
  {
    forall cutoff ensures Recovery.Recover(t, now, cutoff).HasStatus(r, Queued) <==> HeldByStale(t, r, cutoff) || IsOrphan(t.runs[r], cutoff) {
      RecoveredIff(t, r, now, cutoff);
    }
    if t.runs[r].buildUrl.None? {
      var late := if t.runs[r].startedAt.None? then now else t.runs[r].startedAt.value + 1;
      assert Recovery.Recover(t, now, late).HasStatus(r, Queued);
    } else if !HeldByNobodyStale(t, r) {
      var i :| t.OpenFor(i, r) && t.rows[i].worker in t.workers
        && t.workers[t.rows[i].worker].status.Busy? && t.workers[t.rows[i].worker].heartbeat.Some?;
      var late := t.workers[t.rows[i].worker].heartbeat.value + 1;
      assert HeldByStale(t, r, late);
      assert Recovery.Recover(t, now, late).HasStatus(r, Queued);
    } else {
      forall cutoff ensures !HeldByStale(t, r, cutoff) {
      }
    }
  }

  // ------------------------------------------------------- lost for good

  /** A run nobody works on and that recovery cannot see. */
  predicate Lost(t: Tables, r: RunId) {
    t.HasStatus(r, InProgress) && t.runs[r].buildUrl.Some? && NoOpenRowFor(t, r)
  }

  /** The steps that concern the run itself and do something to it. */
  predicate Finds(step: Step, r: RunId) {
    ((step.Finish? || step.Cancel? || step.Revert?) && step.r == r) || (step.Assign? && step.r == r && step.outcome.Serving?)
  }

  lemma RecoverLeavesLost(t: Tables, r: RunId, now: Time, cutoff: Time)
    requires Lost(t, r)
    ensures Lost(Recovery.Recover(t, now, cutoff), r)
  {
    assert forall i | i in t.rows :: !t.OpenFor(i, r);
    RecoveredIff(t, r, now, cutoff);
    var t' := Recovery.Recover(t, now, cutoff);
    assert forall i | i in t'.rows :: !t'.OpenFor(i, r);
  }

  lemma ResetLeavesLost(t: Tables, r: RunId, w: WorkerId, now: Time)
    requires Lost(t, r)
    ensures Lost(Recovery.ResetWorkers(t, {w}, WasManualReset, now), r)
  {
    var t', ids := Recovery.ResetWorkers(t, {w}, WasManualReset, now), Recovery.OpenRowsAt(t, {w});
    assert forall i | i in t.rows :: !t.OpenFor(i, r);
    assert r !in Recovery.RunsOf(t, ids);
    assert forall i | i in t'.rows :: !t'.OpenFor(i, r);
  }

  lemma FinishLeavesLostIff(t: Tables, s: RunId, result: JenkinsResult, open: Option<RowId>, close: Option<RowId>, now: Time, r: RunId)
    requires Lost(t, r) && JobScheduler.MayFinish(t, s, open, close)
    ensures Lost(JobScheduler.FinishBuild(t, s, result, open, close, now), r) <==> s != r
  {
    var t' := JobScheduler.FinishBuild(t, s, result, open, close, now);
    assert forall i | i in t.rows :: !t.OpenFor(i, r);
    assert forall i | i in t'.rows :: !t'.OpenFor(i, r);
  }

  lemma AssignLeavesLostIff(t: Tables, s: RunId, w: WorkerId, now: Time, r: RunId)
    requires Sound(t) && Lost(t, r) && w in t.workers
    ensures Lost(WorkerPool.Occupy(t, s, w, now), r) <==> s != r
  {
    var t' := WorkerPool.Occupy(t, s, w, now);
    assert forall i | i in t.rows :: !t.OpenFor(i, r) && RowSound(t, i);
    assert t'.OpenFor(t.nextRow, s);
    assert forall i | i in t.rows :: t'.rows[i] == t.rows[i];
  }

  lemma StartLeavesLost(t: Tables, s: RunId, number: int, url: string, pick: Option<RowId>, now: Time, r: RunId)
    requires Lost(t, r) && JobScheduler.MayBeOpen(t, s, pick)
    ensures Lost(JobScheduler.StartBuild(t, s, number, url, pick, now), r)
  {
    var t' := JobScheduler.StartBuild(t, s, number, url, pick, now);
    assert forall i | i in t.rows :: !t.OpenFor(i, r);
    assert forall i | i in t'.rows :: !t'.OpenFor(i, r);
  }

  lemma RowsLeaveLostIff(t: Tables, t': Tables, r: RunId)
    requires Lost(t, r) && t'.rows.Keys <= t.rows.Keys && forall i | i in t'.rows :: t'.rows[i] == t.rows[i]
    ensures Lost(t', r) <==> t'.HasStatus(r, InProgress) && t'.runs[r].buildUrl.Some?
  {
    assert forall i | i in t'.rows :: !t.OpenFor(i, r);
  }

  lemma RunStepLeavesLost(t: Tables, now: Time, step: Step, r: RunId)
    requires Sound(t) && Enabled(t, step) && Lost(t, r)
    requires step.Schedule? || step.Claim? || step.OnStage? || step.RetryDue? || step.RetryByHand?
    ensures Lost(Apply(t, now, step), r)
  {
    RowsLeaveLostIff(t, Apply(t, now, step), r);
  }

  lemma QuietLeavesLostIff(t: Tables, now: Time, step: Step, r: RunId)
    requires Enabled(t, step) && Lost(t, r)
    requires step.Revert? || step.Flush? || step.GoOffline? || step.GoOnline? || (step.Assign? && !step.outcome.Serving?)
      || (step.Cancel? && !t.HasStatus(step.r, InProgress))
    ensures Lost(Apply(t, now, step), r) <==> !(step.Revert? && step.r == r)
  {
    RowsLeaveLostIff(t, Apply(t, now, step), r);
  }

  /** A lost run stays lost, recovery or not, until a step names it: it is
      completed, cancelled or given back, or a tick assigns it a worker. */
  lemma StaysLostIff(t: Tables, now: Time, step: Step, r: RunId)
    requires Sound(t) && Enabled(t, step) && Lost(t, r)
    ensures Lost(Apply(t, now, step), r) <==> !Finds(step, r)
  {
    if step.Recover? {
      RecoverLeavesLost(t, r, now, step.cutoff);
    } else if step.Reset? {
      ResetLeavesLost(t, r, step.w, now);
    } else if step.Finish? {
      FinishLeavesLostIff(t, step.r, step.result, step.open, step.close, now, r);
    } else if step.Cancel? && t.HasStatus(step.r, InProgress) {
      FinishLeavesLostIff(t, step.r, ABORTED, step.open, step.close, now, r);
    } else if step.Assign? && step.outcome.Serving? {
      AssignLeavesLostIff(t, step.r, step.outcome.worker, now, r);
    } else if step.Start? {
      StartLeavesLost(t, step.r, step.number, step.url, step.pick, now, r);
    } else if step.Schedule? || step.Claim? || step.OnStage? || step.RetryDue? || step.RetryByHand? {
      RunStepLeavesLost(t, now, step, r);
    } else {
      QuietLeavesLostIff(t, now, step, r);
    }
  }

  predicate NeverFinds(es: seq<Event>, r: RunId) {
    forall i | 0 <= i < |es| :: !Finds(es[i].step, r)
  }

  /** So no number of recoveries, between any other steps, ever finds it. */
  lemma {:induction false} LostForGood(t: Tables, es: seq<Event>, r: RunId)
    requires Sound(t) && Possible(t, es) && Lost(t, r) && NeverFinds(es, r)
    ensures Lost(After(t, es), r)
    decreases |es|
  {
    if es != [] {
      assert !Finds(es[0].step, r);
      StepKeepsSound(t, es[0].now, es[0].step);
      StaysLostIff(t, es[0].now, es[0].step, r);
      assert forall i | 0 <= i < |es[1..]| :: es[1..][i] == es[i + 1];
      LostForGood(Apply(t, es[0].now, es[0].step), es[1..], r);
    }
  }
}
