/** What the transactions write, column by column. Everything is said in terms of
    the rows before and after, in the source's own comparisons and constants, and
    without the functions that define the steps. */
module Columns {
  import opened Records
  import opened Queries
  import opened Orphans
  import WorkerPool
  import JobScheduler
  import Recovery
  import Scheduler
  import Operators

  // ------------------------------------------------------------ selection

  predicate Waits(t: Tables, r: RunId) {
    r in t.runs && t.runs[r].status == Queued && t.runs[r].live
  }

  /** Run `a` goes before run `b`: the smaller priority number first and then
      the earlier push in Priority mode, the earlier push alone otherwise. */
  predicate GoesBefore(t: Tables, a: RunId, b: RunId, mode: Scheduler.Mode) {
    && a in t.runs && b in t.runs
    && var x, y := t.runs[a], t.runs[b];
       if mode == Scheduler.PriorityMode then x.priority < y.priority || (x.priority == y.priority && x.queuedAt < y.queuedAt)
       else x.queuedAt < y.queuedAt
  }

  lemma KeysCompare(t: Tables, mode: Scheduler.Mode, a: RunId, b: RunId)
    requires Waits(t, a) && Waits(t, b)
    ensures var key := Scheduler.Waiting(t, mode);
      a in key && b in key && (Below(key[a], key[b]) <==> GoesBefore(t, a, b, mode))
  {
  }

  /** What a tick selects: waiting runs, each once, as many as the limit allows;
      no run that was selected later or left out goes before a selected one. */
  lemma SelectionOnColumns(q: seq<RunId>, full: seq<RunId>, t: Tables, mode: Scheduler.Mode, limit: nat)
    requires Scheduler.Selects(q, full, t, mode, limit)
    ensures Distinct(q) && forall i | 0 <= i < |q| :: Waits(t, q[i])
    ensures |q| <= limit && (|q| < limit ==> forall r | Waits(t, r) :: r in q)
    ensures forall i, j | 0 <= i < j < |q| :: !GoesBefore(t, q[j], q[i], mode)
    ensures forall i, r | 0 <= i < |q| && Waits(t, r) && r !in q :: !GoesBefore(t, r, q[i], mode)
  {
    var key := Scheduler.Waiting(t, mode);
    ListingPrefix(full, key, limit);
    forall i | 0 <= i < |q| ensures q[i] in key && Waits(t, q[i]) {
      assert q[i] in Members(q);
    }
    forall i, j | 0 <= i < j < |q| ensures !GoesBefore(t, q[j], q[i], mode) {
      KeysCompare(t, mode, q[j], q[i]);
    }
    forall i, r | 0 <= i < |q| && Waits(t, r) && r !in q ensures !GoesBefore(t, r, q[i], mode) {
      KeysCompare(t, mode, r, q[i]);
    }
    if |q| < limit {
      assert q == full;
      forall r | Waits(t, r) ensures r in q {
        assert r in key && r in Members(full);
      }
    }
  }

  // --------------------------------------------------------- worker choice

  predicate Rests(t: Tables, w: WorkerId) {
    w in t.workers && t.workers[w].status == Idle
  }

  /** Somebody of the language is idle. */
  ghost predicate Speaks(t: Tables, language: Language) {
    exists w :: Rests(t, w) && t.workers[w].language == language
  }

  /** `w` is an idle speaker of the language, and no other has less load. */
  ghost predicate LeastSpeaker(t: Tables, language: Language, w: WorkerId) {
    && Rests(t, w) && t.workers[w].language == language
    && forall v | Rests(t, v) && t.workers[v].language == language :: t.workers[w].load <= t.workers[v].load
  }

  /** Who may serve a run: an idle worker of its language if there is one, else
      a generic one if there is one, else anyone idle; least loaded of those. */
  lemma ServiceOnColumns(t: Tables, language: Language, w: WorkerId)
    ensures WorkerPool.MayServe(t, language, w) <==>
      if Speaks(t, language) then LeastSpeaker(t, language, w)
      else if Speaks(t, Generic) then LeastSpeaker(t, Generic, w)
      else Rests(t, w) && forall v | Rests(t, v) :: t.workers[w].load <= t.workers[v].load
  {
    var idle := WorkerPool.IdleWorkers(t);
    assert forall v :: v in idle <==> Rests(t, v);
    SpeakersAre(t, language);
    SpeakersAre(t, Generic);
    var all := WorkerPool.Candidates(t, language);
    if Speaks(t, language) {
      assert forall v :: v in all <==> Rests(t, v) && t.workers[v].language == language;
    } else if Speaks(t, Generic) {
      assert forall v :: v in all <==> Rests(t, v) && t.workers[v].language == Generic;
    } else {
      assert all == idle;
    }
  }

  lemma SpeakersAre(t: Tables, language: Language)
    ensures var idle := WorkerPool.IdleWorkers(t);
      (set w | w in idle && t.workers[w].language == language) != {} <==> Speaks(t, language)
  {
    var speakers := set w | w in WorkerPool.IdleWorkers(t) && t.workers[w].language == language;
    forall w | w in speakers ensures Speaks(t, language) {
      assert Rests(t, w);
    }
    if Speaks(t, language) {
      var w :| Rests(t, w) && t.workers[w].language == language;
      assert w in speakers;
    }
  }

  // -------------------------------------------------------------- schedule

  /** A push: one run with what the request says, queued now, with the default
      of two retries, and its stages pending and numbered from 0. */
  lemma ScheduleOnColumns(t: Tables, q: JobScheduler.Request, names: seq<string>, now: Time)
    ensures var t', r := JobScheduler.Schedule(t, q, names, now), t.nextRun;
      && t'.nextRun == t.nextRun + 1 && t'.rows == t.rows && t'.workers == t.workers && t'.nextRow == t.nextRow
      && (forall s :: s in t'.runs <==> s in t.runs || s == r)
      && (forall s | s in t.runs && s != r :: t'.runs[s] == t.runs[s])
      && var run := t'.runs[r];
         && run.status == Queued && run.queuedAt == now && run.startedAt == None && run.completedAt == None
         && run.priority == q.priority && run.jobName == q.jobName && run.language == q.language && run.live == q.live
         && run.buildNumber == None && run.buildUrl == None && run.result == None
         && run.retryCount == 0 && run.maxRetries == 2 && run.retryAfter == None
         && |run.stages| == |names|
         && forall k | 0 <= k < |names| ::
              && run.stages[k].name == names[k] && run.stages[k].order == k && run.stages[k].status == Pending
              && run.stages[k].startedAt == None && run.stages[k].completedAt == None && run.stages[k].logExcerpt == None
  {
  }

  // ------------------------------------------------------------- callbacks

  /** Every other run, and everything outside the three run columns named by the
      caller, is as before. */
  predicate OnlyRunDiffers(t: Tables, t': Tables, r: RunId) {
    && t'.nextRun == t.nextRun && t'.nextRow == t.nextRow && t'.runs.Keys == t.runs.Keys
    && forall s | s in t.runs && s != r :: t'.runs[s] == t.runs[s]
  }

  /** A build started: status, number, URL and start of the run, status and start
      of its open row, and nothing else. */
  lemma StartOnColumns(t: Tables, r: RunId, number: int, url: string, pick: Option<RowId>, now: Time)
    requires JobScheduler.MayBeOpen(t, r, pick)
    ensures var t' := JobScheduler.StartBuild(t, r, number, url, pick, now);
      && OnlyRunDiffers(t, t', r) && t'.workers == t.workers && t'.rows.Keys == t.rows.Keys
      && (r !in t.runs ==> t' == t)
      && (r in t.runs ==>
            && t'.runs[r].status == InProgress && t'.runs[r].buildNumber == Some(number)
            && t'.runs[r].buildUrl == Some(url) && t'.runs[r].startedAt == Some(now)
            && t'.runs[r] == t.runs[r].(status := InProgress, buildNumber := Some(number), buildUrl := Some(url), startedAt := Some(now))
            && (forall i | i in t.rows && pick == Some(i) ::
                  t'.rows[i] == t.rows[i].(status := RowRunning, startedAt := Some(now)))
            && (forall i | i in t.rows && pick != Some(i) :: t'.rows[i] == t.rows[i]))
  {
  }

  /** A stage callback for a run whose stages have distinct names: the stage of
      that name and no other, with time, outcome and excerpt of the event. */
  lemma StageOnColumns(t: Tables, r: RunId, name: string, e: JobScheduler.StageEvent, now: Time)
    requires r in t.runs && forall i, j | 0 <= i < j < |t.runs[r].stages| :: t.runs[r].stages[i].name != t.runs[r].stages[j].name
    ensures var t' := JobScheduler.StageCallback(t, r, name, e, now);
      && OnlyRunDiffers(t, t', r) && t'.workers == t.workers && t'.rows == t.rows
      && t'.runs[r] == t.runs[r].(stages := t'.runs[r].stages) && |t'.runs[r].stages| == |t.runs[r].stages|
      && forall k | 0 <= k < |t.runs[r].stages| ::
           var was, after := t.runs[r].stages[k], t'.runs[r].stages[k];
           if was.name != name then after == was
           else if e.Began? then after == was.(status := Running, startedAt := Some(now))
           else after == was.(status := if e.success then Succeeded else StageFailed, completedAt := Some(now), logExcerpt := e.excerpt)
  {
  }

  /** The status a build result means, spelled out for every result. */
  predicate Means(status: RunStatus, result: JenkinsResult) {
    && (status == Completed <==> result == SUCCESS)
    && (status == Aborted <==> result == ABORTED)
    && (status == Failed <==> result != SUCCESS && result != ABORTED)
  }

  /** A build completed: what is written to the run, whatever the result, unless
      the worker of its open row is gone and everything is rolled back. */
  lemma CompletedRunOnColumns(t: Tables, r: RunId, result: JenkinsResult, open: Option<RowId>, close: Option<RowId>, now: Time)
    requires JobScheduler.MayFinish(t, r, open, close)
    ensures var t' := JobScheduler.FinishBuild(t, r, result, open, close, now);
      if r !in t.runs || (open.Some? && t.rows[open.value].worker !in t.workers) then t' == t
      else
        && OnlyRunDiffers(t, t', r)
        && var was, run := t.runs[r], t'.runs[r];
           && Means(run.status, result) && run.result == Some(result) && run.completedAt == Some(now)
           && run == was.(status := run.status, result := run.result, completedAt := run.completedAt, stages := run.stages)
           && |run.stages| == |was.stages|
           && forall k | 0 <= k < |was.stages| ::
                run.stages[k] == if was.stages[k].status == Pending || was.stages[k].status == Running
                                 then was.stages[k].(status := Skipped) else was.stages[k]
  {
  }

  /** And what its release writes: the worker of the open row idle with half a
      unit less, and one row of the pair closed with the outcome. */
  lemma ReleaseOnColumns(t: Tables, r: RunId, result: JenkinsResult, open: Option<RowId>, close: Option<RowId>, now: Time)
    requires JobScheduler.MayFinish(t, r, open, close) && r in t.runs
    requires open.Some? && t.rows[open.value].worker in t.workers
    ensures var t', w := JobScheduler.FinishBuild(t, r, result, open, close, now), t.rows[open.value].worker;
      && t'.workers.Keys == t.workers.Keys && t'.rows.Keys == t.rows.Keys
      && t'.workers[w].status == Idle && t'.workers[w].heartbeat == Some(now) && t'.workers[w].language == t.workers[w].language
      && t'.workers[w].load == (if t.workers[w].load >= 1 then t.workers[w].load - 1 else 0)
      && (forall v | v in t.workers && v != w :: t'.workers[v] == t.workers[v])
      && close.Some? && t.rows[close.value].run == r && t.rows[close.value].worker == w
      && (forall i | i in t.rows && i != close.value :: t'.rows[i] == t.rows[i])
      && t'.rows[close.value] == t.rows[close.value].(
           status := if result == SUCCESS then RowDone else RowFailed,
           completedAt := Some(now),
           result := Some(if result == SUCCESS then WasSuccess else WasFailure))
  {
    assert t.Pairs(open.value, r, t.rows[open.value].worker);
  }

  /** Without an open row a completion touches neither workers nor rows. */
  lemma NothingToRelease(t: Tables, r: RunId, result: JenkinsResult, now: Time)
    requires JobScheduler.MayFinish(t, r, None, None)
    ensures var t' := JobScheduler.FinishBuild(t, r, result, None, None, now);
      t'.workers == t.workers && t'.rows == t.rows
  {
  }

  // ------------------------------------------------------------- operators

  /** Cancelling: a running run is completed as aborted, a queued one becomes
      aborted and stays otherwise as it is, any other is left alone. */
  lemma CancelOnColumns(t: Tables, r: RunId, open: Option<RowId>, close: Option<RowId>, now: Time)
    requires JobScheduler.MayFinish(t, r, open, close)
    ensures var t' := Operators.Cancel(t, r, open, close, now);
      if r in t.runs && t.runs[r].status == InProgress then
        t' == JobScheduler.FinishBuild(t, r, ABORTED, open, close, now)
      else if r in t.runs && t.runs[r].status == Queued then
        t' == t.(runs := t.runs[r := t.runs[r].(status := Aborted)])
      else t' == t
    ensures Operators.CancelAnswer(t, r) == Operators.CancelDone <==>
      r in t.runs && t.runs[r].status != Completed && t.runs[r].status != Failed && t.runs[r].status != Aborted
    ensures Operators.CancelAnswer(t, r) == Operators.CancelNotFound <==> r !in t.runs
  {
  }

  /** Run `after` is run `run` queued once more. */
  predicate QueuedAgain(run: Run, after: Run) {
    && after.status == Queued && after.retryCount == run.retryCount + 1
    && after.startedAt == None && after.completedAt == None && after.retryAfter == None
    && after == run.(status := after.status, retryCount := after.retryCount, startedAt := None, completedAt := None, retryAfter := None)
  }

  lemma ManualRetryOnColumns(t: Tables, r: RunId)
    ensures var t' := Operators.RetryByHand(t, r);
      if r in t.runs && t.runs[r].status == Failed && t.runs[r].retryCount < t.runs[r].maxRetries then
        && Operators.RetryAnswer(t, r) == Operators.RetryQueued
        && OnlyRunDiffers(t, t', r) && t'.rows == t.rows && t'.workers == t.workers && QueuedAgain(t.runs[r], t'.runs[r])
      else
        && t' == t
        && Operators.RetryAnswer(t, r) ==
             if r !in t.runs then Operators.RetryNotFound
             else if t.runs[r].status != Failed then Operators.RetryNotFailed
             else Operators.RetryExhausted
  {
  }

  lemma FlushOnColumns(t: Tables)
    ensures var t' := Operators.Flush(t);
      && t'.workers == t.workers && t'.nextRun == t.nextRun && t'.nextRow == t.nextRow
      && (forall r :: r in t'.runs <==> r in t.runs && t.runs[r].status != Queued)
      && (forall r | r in t'.runs :: t'.runs[r] == t.runs[r])
      && (forall i :: i in t'.rows <==> i in t.rows && !(t.rows[i].run in t.runs && t.runs[t.rows[i].run].status == Queued))
      && (forall i | i in t'.rows :: t'.rows[i] == t.rows[i])
  {
  }

  // ----------------------------------------------------------- retry phase

  /** The automatic retry of one run: no date yet, date come, or nothing. */
  predicate RetriedAsDue(run: Run, after: Run, now: Time, backoffs: seq<int>)
    requires backoffs != []
  {
    if run.status == Failed && run.retryCount < run.maxRetries && run.live && run.retryAfter == None then
      var last := |backoffs| - 1;
      var delay := if run.retryCount < last then backoffs[run.retryCount] else backoffs[last];
      after.status == Failed && after == run.(retryAfter := Some(now + delay))
    else if run.status == Failed && run.retryCount < run.maxRetries && run.live && run.retryAfter.value <= now then
      QueuedAgain(run, after)
    else
      after == run
  }

  lemma RetryOnColumns(t: Tables, now: Time, backoffs: seq<int>)
    requires backoffs != []
    ensures var t' := Scheduler.RetryAll(t, now, backoffs);
      && t'.runs.Keys == t.runs.Keys && t'.rows == t.rows && t'.workers == t.workers
      && t'.nextRun == t.nextRun && t'.nextRow == t.nextRow
      && forall r | r in t.runs :: RetriedAsDue(t.runs[r], t'.runs[r], now, backoffs)
  {
    forall r | r in t.runs ensures RetriedAsDue(t.runs[r], Scheduler.RetryAll(t, now, backoffs).runs[r], now, backoffs) {
      OneRetryOnColumns(t.runs[r], now, backoffs);
    }
  }

  lemma OneRetryOnColumns(run: Run, now: Time, backoffs: seq<int>)
    requires backoffs != []
    ensures RetriedAsDue(run, Scheduler.RetryStep(run, now, backoffs), now, backoffs)
  {
  }

  // --------------------------------------------------------------- recovery

  /** Recovered in the second phase: the first one did not take it back. */
  ghost predicate Orphaned(t: Tables, r: RunId, cutoff: Time) {
    r in t.runs && IsOrphan(t.runs[r], cutoff) && !HeldByStale(t, r, cutoff)
  }

  /** Phase one on columns. */
  lemma StaleOnColumns(t: Tables, now: Time, cutoff: Time)
    ensures var t' := Recovery.AfterStale(t, now, cutoff);
      && t'.runs.Keys == t.runs.Keys && t'.rows.Keys == t.rows.Keys && t'.workers.Keys == t.workers.Keys
      && (forall w | w in t.workers :: t'.workers[w] ==
            if IsSilent(t, w, cutoff) then t.workers[w].(status := Idle, load := 0, heartbeat := Some(now)) else t.workers[w])
      && (forall i | i in t.rows :: t'.rows[i] ==
            if t.rows[i].completedAt == None && IsSilent(t, t.rows[i].worker, cutoff)
            then t.rows[i].(status := RowFailed, completedAt := Some(now), result := Some(WasTimeout)) else t.rows[i])
      && (forall r | r in t.runs :: t'.runs[r] ==
            if t.runs[r].status == InProgress && HeldByStale(t, r, cutoff)
            then t.runs[r].(status := Queued, startedAt := None) else t.runs[r])
  {
    var stale := Recovery.StaleWorkers(t, cutoff);
    assert forall w :: w in stale <==> IsSilent(t, w, cutoff);
    var ids := Recovery.OpenRowsAt(t, stale);
    forall r | r in t.runs ensures r in Recovery.RunsOf(t, ids) <==> HeldByStale(t, r, cutoff) {
      if HeldByStale(t, r, cutoff) {
        var i :| t.OpenFor(i, r) && IsSilent(t, t.rows[i].worker, cutoff);
        assert i in ids;
      }
    }
  }

  /** Phase two on columns, for any tables. */
  lemma ReclaimOnColumns(t: Tables, now: Time, cutoff: Time)
    ensures var t' := Recovery.ReclaimRuns(t, Recovery.Orphans(t, cutoff), now);
      && t'.runs.Keys == t.runs.Keys && t'.rows.Keys == t.rows.Keys && t'.workers.Keys == t.workers.Keys
      && (forall r | r in t.runs :: t'.runs[r] ==
            if IsOrphan(t.runs[r], cutoff) then t.runs[r].(status := Queued, startedAt := None) else t.runs[r])
      && (forall i | i in t.rows :: t'.rows[i] ==
            if HoldsUnacknowledged(t, i, cutoff)
            then t.rows[i].(status := RowFailed, completedAt := Some(now), result := Some(WasTimeout)) else t.rows[i])
      && (forall w | w in t.workers :: t'.workers[w] ==
            if t.workers[w].status == Busy && HoldsSuchAt(t, w, cutoff)
            then t.workers[w].(status := Idle, load := if t.workers[w].load >= 1 then t.workers[w].load - 1 else 0, heartbeat := Some(now))
            else t.workers[w])
  {
    var orphans := Recovery.Orphans(t, cutoff);
    assert forall r :: r in orphans <==> r in t.runs && IsOrphan(t.runs[r], cutoff);
    var ids := Recovery.OpenRowsFor(t, orphans);
    assert forall i :: i in ids <==> HoldsUnacknowledged(t, i, cutoff);
    forall w | w in t.workers ensures w in Recovery.WorkersOf(t, ids) <==> HoldsSuchAt(t, w, cutoff) {
      if HoldsSuchAt(t, w, cutoff) {
        var i :| HoldsUnacknowledged(t, i, cutoff) && t.rows[i].worker == w;
        assert i in ids;
      }
    }
  }

  predicate HoldsUnacknowledged(t: Tables, i: RowId, cutoff: Time) {
    i in t.rows && t.rows[i].completedAt == None && t.rows[i].run in t.runs && IsOrphan(t.runs[t.rows[i].run], cutoff)
  }

  ghost predicate HoldsSuchAt(t: Tables, w: WorkerId, cutoff: Time) {
    exists i :: HoldsUnacknowledged(t, i, cutoff) && t.rows[i].worker == w
  }

  /** Both phases, in terms of the tables before them: the runs. */
  lemma RecoveredRunsOnColumns(t: Tables, now: Time, cutoff: Time)
    ensures var t' := Recovery.Recover(t, now, cutoff);
      && t'.runs.Keys == t.runs.Keys && t'.nextRun == t.nextRun && t'.nextRow == t.nextRow
      && forall r | r in t.runs :: t'.runs[r] ==
           if t.runs[r].status == InProgress && (HeldByStale(t, r, cutoff) || IsOrphan(t.runs[r], cutoff))
           then t.runs[r].(status := Queued, startedAt := None) else t.runs[r]
  {
    StaleOnColumns(t, now, cutoff);
    ReclaimOnColumns(Recovery.AfterStale(t, now, cutoff), now, cutoff);
  }

  lemma HoldsAfterStale(t: Tables, now: Time, cutoff: Time, i: RowId)
    ensures HoldsUnacknowledged(Recovery.AfterStale(t, now, cutoff), i, cutoff) <==>
      i in t.rows && t.rows[i].completedAt == None && !IsSilent(t, t.rows[i].worker, cutoff) && Orphaned(t, t.rows[i].run, cutoff)
  {
    StaleOnColumns(t, now, cutoff);
  }

  /** The rows: those of silent workers and those of orphans are closed. */
  lemma RecoveredRowsOnColumns(t: Tables, now: Time, cutoff: Time)
    ensures var t' := Recovery.Recover(t, now, cutoff);
      && t'.rows.Keys == t.rows.Keys
      && forall i | i in t.rows :: t'.rows[i] ==
           if t.rows[i].completedAt == None && (IsSilent(t, t.rows[i].worker, cutoff) || Orphaned(t, t.rows[i].run, cutoff))
           then t.rows[i].(status := RowFailed, completedAt := Some(now), result := Some(WasTimeout)) else t.rows[i]
  {
    StaleOnColumns(t, now, cutoff);
    ReclaimOnColumns(Recovery.AfterStale(t, now, cutoff), now, cutoff);
    forall i | i in t.rows
      ensures HoldsUnacknowledged(Recovery.AfterStale(t, now, cutoff), i, cutoff) <==>
        t.rows[i].completedAt == None && !IsSilent(t, t.rows[i].worker, cutoff) && Orphaned(t, t.rows[i].run, cutoff)
    {
      HoldsAfterStale(t, now, cutoff, i);
    }
  }

  /** An open row of the worker is of an orphan. */
  ghost predicate HoldsOrphan(t: Tables, w: WorkerId, cutoff: Time) {
    exists i :: i in t.rows && t.rows[i].completedAt == None && t.rows[i].worker == w && Orphaned(t, t.rows[i].run, cutoff)
  }

  /** The workers: a silent one is idle without load, a busy one that holds an
      orphan is idle with half a unit less, any other is unchanged. */
  lemma RecoveredWorkersOnColumns(t: Tables, now: Time, cutoff: Time, w: WorkerId)
    requires w in t.workers
    ensures var t' := Recovery.Recover(t, now, cutoff);
      && t'.workers.Keys == t.workers.Keys
      && t'.workers[w] ==
           if IsSilent(t, w, cutoff) then t.workers[w].(status := Idle, load := 0, heartbeat := Some(now))
           else if t.workers[w].status == Busy && HoldsOrphan(t, w, cutoff)
           then t.workers[w].(status := Idle, load := if t.workers[w].load >= 1 then t.workers[w].load - 1 else 0, heartbeat := Some(now))
           else t.workers[w]
  {
    StaleWorkerOnColumns(t, now, cutoff, w);
    ReclaimedWorkerOnColumns(Recovery.AfterStale(t, now, cutoff), now, cutoff, w);
    if !IsSilent(t, w, cutoff) {
      SameHolders(t, now, cutoff, w);
    }
  }

  lemma StaleWorkerOnColumns(t: Tables, now: Time, cutoff: Time, w: WorkerId)
    requires w in t.workers
    ensures var t' := Recovery.AfterStale(t, now, cutoff);
      && t'.workers.Keys == t.workers.Keys
      && t'.workers[w] ==
           if IsSilent(t, w, cutoff) then t.workers[w].(status := Idle, load := 0, heartbeat := Some(now)) else t.workers[w]
  {
    StaleOnColumns(t, now, cutoff);
  }

  lemma ReclaimedWorkerOnColumns(t: Tables, now: Time, cutoff: Time, w: WorkerId)
    requires w in t.workers
    ensures var t' := Recovery.ReclaimRuns(t, Recovery.Orphans(t, cutoff), now);
      && t'.workers.Keys == t.workers.Keys
      && t'.workers[w] ==
           if t.workers[w].status == Busy && HoldsSuchAt(t, w, cutoff)
           then t.workers[w].(status := Idle, load := if t.workers[w].load >= 1 then t.workers[w].load - 1 else 0, heartbeat := Some(now))
           else t.workers[w]
  {
    ReclaimOnColumns(t, now, cutoff);
  }

  lemma SameHolders(t: Tables, now: Time, cutoff: Time, w: WorkerId)
    requires !IsSilent(t, w, cutoff)
    ensures HoldsSuchAt(Recovery.AfterStale(t, now, cutoff), w, cutoff) <==> HoldsOrphan(t, w, cutoff)
  {
    var t1 := Recovery.AfterStale(t, now, cutoff);
    StaleOnColumns(t, now, cutoff);
    if HoldsSuchAt(t1, w, cutoff) {
      var i :| HoldsUnacknowledged(t1, i, cutoff) && t1.rows[i].worker == w;
      HoldsAfterStale(t, now, cutoff, i);
      assert t.rows[i].worker == w;
    }
    if HoldsOrphan(t, w, cutoff) {
      var i :| i in t.rows && t.rows[i].completedAt == None && t.rows[i].worker == w && Orphaned(t, t.rows[i].run, cutoff);
      HoldsAfterStale(t, now, cutoff, i);
      assert t1.rows[i].worker == w;
    }
  }

  /** A manual reset on columns: the same for one worker, whatever its status. */
  lemma ResetOnColumns(t: Tables, w: WorkerId, now: Time)
    requires w in t.workers
    ensures var t' := Recovery.ResetWorkers(t, {w}, WasManualReset, now);
      && t'.runs.Keys == t.runs.Keys && t'.rows.Keys == t.rows.Keys && t'.workers.Keys == t.workers.Keys
      && t'.workers[w] == t.workers[w].(status := Idle, load := 0, heartbeat := Some(now))
      && (forall v | v in t.workers && v != w :: t'.workers[v] == t.workers[v])
      && (forall i | i in t.rows :: t'.rows[i] ==
            if t.rows[i].completedAt == None && t.rows[i].worker == w
            then t.rows[i].(status := RowFailed, completedAt := Some(now), result := Some(WasManualReset)) else t.rows[i])
      && (forall r | r in t.runs :: t'.runs[r] ==
            if t.runs[r].status == InProgress && exists i :: t.OpenFor(i, r) && t.rows[i].worker == w
            then t.runs[r].(status := Queued, startedAt := None) else t.runs[r])
  {
    var ids := Recovery.OpenRowsAt(t, {w});
    forall r | r in t.runs ensures r in Recovery.RunsOf(t, ids) <==> exists i :: t.OpenFor(i, r) && t.rows[i].worker == w {
      if i :| t.OpenFor(i, r) && t.rows[i].worker == w {
        assert i in ids;
      }
    }
  }
}
