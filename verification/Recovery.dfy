/** Taking work back from workers: the two-phase recovery of app/scheduler.py
    and the reset of app/routers/workers.py. */
module Recovery {
  import opened Records
  import opened Database
  import opened WorkerPool

  function Requeue(run: Run): Run {
    run.(status := Queued, startedAt := None)
  }

  function Abandon(row: Assignment, why: RowResult, now: Time): Assignment {
    row.(status := RowFailed, completedAt := Some(now), result := Some(why))
  }

  function OpenRowsAt(t: Tables, ws: set<WorkerId>): set<RowId> {
    set i | i in t.rows && t.rows[i].Open() && t.rows[i].worker in ws
  }

  function OpenRowsFor(t: Tables, rs: set<RunId>): set<RowId> {
    set i | i in t.rows && t.rows[i].Open() && t.rows[i].run in rs
  }

  function AbandonAll(rows: map<RowId, Assignment>, ids: set<RowId>, why: RowResult, now: Time): map<RowId, Assignment> {
    map i | i in rows :: if i in ids then Abandon(rows[i], why, now) else rows[i]
  }

  function RunsOf(t: Tables, ids: set<RowId>): set<RunId>
    requires ids <= t.rows.Keys
  {
    set i | i in ids :: t.rows[i].run
  }

  function RequeueRunning(runs: map<RunId, Run>, rs: set<RunId>): map<RunId, Run> {
    map r | r in runs :: if r in rs && runs[r].status.InProgress? then Requeue(runs[r]) else runs[r]
  }

  /** The given open rows are abandoned and their running runs re-queued. */
  function TakeBack(t: Tables, ids: set<RowId>, why: RowResult, now: Time): Tables
    requires ids <= t.rows.Keys
  {
    t.(rows := AbandonAll(t.rows, ids, why, now), runs := RequeueRunning(t.runs, RunsOf(t, ids)))
  }

  function ResetWorker(worker: Worker, now: Time): Worker {
    worker.(status := Idle, load := 0, heartbeat := Some(now))
  }

  /** Every worker of `ws` loses its open rows and becomes idle. */
  function ResetWorkers(t: Tables, ws: set<WorkerId>, why: RowResult, now: Time): Tables {
    TakeBack(t, OpenRowsAt(t, ws), why, now).(
      workers := map w | w in t.workers :: if w in ws then ResetWorker(t.workers[w], now) else t.workers[w])
  }

  /** Busy workers whose heartbeat is older than the cutoff; a null heartbeat
      is not older than anything. */
  function StaleWorkers(t: Tables, cutoff: Time): set<WorkerId> {
    set w | w in t.workers && t.workers[w].status.Busy? && t.workers[w].heartbeat.Some? && t.workers[w].heartbeat.value < cutoff
  }

  predicate Orphan(run: Run, cutoff: Time) {
    run.status.InProgress? && run.buildUrl.None? && (run.startedAt.None? || run.startedAt.value < cutoff)
  }

  function Orphans(t: Tables, cutoff: Time): set<RunId> {
    set r | r in t.runs && Orphan(t.runs[r], cutoff)
  }

  function WorkersOf(t: Tables, ids: set<RowId>): set<WorkerId>
    requires ids <= t.rows.Keys
  {
    set i | i in ids :: t.rows[i].worker
  }

  function FreeBusy(workers: map<WorkerId, Worker>, ws: set<WorkerId>, now: Time): map<WorkerId, Worker> {
    map w | w in workers :: if w in ws && workers[w].status.Busy? then FreeWorker(workers[w], now) else workers[w]
  }

  /** The given open rows are abandoned and their still busy workers freed. */
  function LetGo(t: Tables, ids: set<RowId>, now: Time): (after: Tables)
    requires ids <= t.rows.Keys
    ensures after.rows.Keys == t.rows.Keys && after.workers.Keys == t.workers.Keys
  {
    t.(rows := AbandonAll(t.rows, ids, WasTimeout, now), workers := FreeBusy(t.workers, WorkersOf(t, ids), now))
  }

  /** Every run of `rs` is re-queued and its open rows are let go. */
  function ReclaimRuns(t: Tables, rs: set<RunId>, now: Time): (after: Tables)
    ensures after.runs.Keys == t.runs.Keys && after.workers.Keys == t.workers.Keys
  {
    LetGo(t, OpenRowsFor(t, rs), now).(
      runs := map r | r in t.runs :: if r in rs then Requeue(t.runs[r]) else t.runs[r])
  }

  function AfterStale(t: Tables, now: Time, cutoff: Time): Tables {
    ResetWorkers(t, StaleWorkers(t, cutoff), WasTimeout, now)
  }

  function Recover(t: Tables, now: Time, cutoff: Time): Tables {
    var t1 := AfterStale(t, now, cutoff);
    ReclaimRuns(t1, Orphans(t1, cutoff), now)
  }

  // ---------------------------------------------------------------- loops

  /** Taking rows back in two goes is taking them back in one. */
  lemma TakeBackMore(t: Tables, a: set<RowId>, b: set<RowId>, why: RowResult, now: Time)
    requires a <= t.rows.Keys && b <= t.rows.Keys && a !! b
    ensures b <= TakeBack(t, a, why, now).rows.Keys
    ensures TakeBack(TakeBack(t, a, why, now), b, why, now) == TakeBack(t, a + b, why, now)
  {
    var t1 := TakeBack(t, a, why, now);
    assert b <= t1.rows.Keys;
    assert RunsOf(t1, b) == RunsOf(t, b) by {
      assert forall i | i in b :: t1.rows[i] == t.rows[i];
    }
    assert RunsOf(t, a + b) == RunsOf(t, a) + RunsOf(t, b);
    assert AbandonAll(t1.rows, b, why, now) == AbandonAll(t.rows, a + b, why, now);
    assert RequeueRunning(t1.runs, RunsOf(t, b)) == RequeueRunning(t.runs, RunsOf(t, a + b));
  }

  lemma TakeBackNothing(t: Tables, why: RowResult, now: Time)
    ensures TakeBack(t, {}, why, now) == t
  {
    assert AbandonAll(t.rows, {}, why, now) == t.rows;
    assert RequeueRunning(t.runs, RunsOf(t, {})) == t.runs;
  }

  lemma TakeBackOne(t: Tables, i: RowId, why: RowResult, now: Time)
    requires i in t.rows
    ensures var r := t.rows[i].run; TakeBack(t, {i}, why, now) == t.(
      rows := t.rows[i := Abandon(t.rows[i], why, now)],
      runs := if r in t.runs && t.runs[r].status.InProgress? then t.runs[r := Requeue(t.runs[r])] else t.runs)
  {
    var r := t.rows[i].run;
    assert RunsOf(t, {i}) == {r};
    assert AbandonAll(t.rows, {i}, why, now) == t.rows[i := Abandon(t.rows[i], why, now)];
    assert RequeueRunning(t.runs, {r}) ==
      if r in t.runs && t.runs[r].status.InProgress? then t.runs[r := Requeue(t.runs[r])] else t.runs;
  }

  lemma ResetNobody(t: Tables, why: RowResult, now: Time)
    ensures ResetWorkers(t, {}, why, now) == t
  {
    assert OpenRowsAt(t, {}) == {};
    TakeBackNothing(t, why, now);
  }

  /** Resetting workers one after the other is resetting them together. */
  lemma ResetOneMore(t: Tables, done: set<WorkerId>, w: WorkerId, why: RowResult, now: Time)
    requires w !in done
    ensures ResetWorkers(ResetWorkers(t, done, why, now), {w}, why, now) == ResetWorkers(t, done + {w}, why, now)
  {
    var t1 := ResetWorkers(t, done, why, now);
    var others, mine := OpenRowsAt(t, done), OpenRowsAt(t1, {w});
    assert OpenRowsAt(t, done + {w}) == others + mine;
    TakeBackMore(t, others, mine, why, now);
    var back := TakeBack(t, others, why, now);
    assert t1 == back.(workers := t1.workers);
    assert TakeBack(t1, mine, why, now) == TakeBack(back, mine, why, now).(workers := t1.workers);
    assert ResetWorkers(t1, {w}, why, now).workers == ResetWorkers(t, done + {w}, why, now).workers;
  }

  lemma LetGoNothing(t: Tables, now: Time)
    ensures LetGo(t, {}, now) == t
  {
    assert AbandonAll(t.rows, {}, WasTimeout, now) == t.rows;
    assert FreeBusy(t.workers, WorkersOf(t, {}), now) == t.workers;
  }

  lemma ReclaimNothing(t: Tables, now: Time)
    ensures ReclaimRuns(t, {}, now) == t
  {
    assert OpenRowsFor(t, {}) == {};
    LetGoNothing(t, now);
  }

  lemma LetGoMore(t: Tables, a: set<RowId>, b: set<RowId>, now: Time)
    requires a <= t.rows.Keys && b <= t.rows.Keys && a !! b
    ensures b <= LetGo(t, a, now).rows.Keys
    ensures LetGo(LetGo(t, a, now), b, now) == LetGo(t, a + b, now)
  {
    var t1 := LetGo(t, a, now);
    assert WorkersOf(t1, b) == WorkersOf(t, b) by {
      assert forall i | i in b :: t1.rows[i] == t.rows[i];
    }
    assert WorkersOf(t, a + b) == WorkersOf(t, a) + WorkersOf(t, b);
    assert AbandonAll(t1.rows, b, WasTimeout, now) == AbandonAll(t.rows, a + b, WasTimeout, now);
    assert FreeBusy(t1.workers, WorkersOf(t, b), now) == FreeBusy(t.workers, WorkersOf(t, a + b), now);
  }

  lemma LetGoOne(t: Tables, i: RowId, now: Time)
    requires i in t.rows
    ensures var w := t.rows[i].worker; var busy := w in t.workers && t.workers[w].status.Busy?;
      && LetGo(t, {i}, now) == t.(
           rows := t.rows[i := Abandon(t.rows[i], WasTimeout, now)],
           workers := if busy then t.workers[w := FreeWorker(t.workers[w], now)] else t.workers)
      && |BusyIn(LetGo(t, {i}, now).workers)| == |BusyIn(t.workers)| - if busy then 1 else 0
  {
    var w := t.rows[i].worker;
    assert WorkersOf(t, {i}) == {w};
    assert AbandonAll(t.rows, {i}, WasTimeout, now) == t.rows[i := Abandon(t.rows[i], WasTimeout, now)];
    var freed := FreeBusy(t.workers, {w}, now);
    if w in t.workers && t.workers[w].status.Busy? {
      assert freed == t.workers[w := FreeWorker(t.workers[w], now)];
      assert BusyIn(freed) == BusyIn(t.workers) - {w};
    } else {
      assert freed == t.workers;
    }
  }

  /** Reclaiming runs one after the other is reclaiming them together. */
  lemma ReclaimOneMore(t: Tables, done: set<RunId>, r: RunId, now: Time)
    requires r !in done
    ensures ReclaimRuns(ReclaimRuns(t, done, now), {r}, now) == ReclaimRuns(t, done + {r}, now)
  {
    var t1 := ReclaimRuns(t, done, now);
    var others, mine := OpenRowsFor(t, done), OpenRowsFor(t1, {r});
    assert OpenRowsFor(t, done + {r}) == others + mine;
    LetGoMore(t, others, mine, now);
    var let := LetGo(t, others, now);
    assert t1 == let.(runs := t1.runs);
    assert LetGo(t1, mine, now) == LetGo(let, mine, now).(runs := t1.runs);
    assert ReclaimRuns(t1, {r}, now).runs == ReclaimRuns(t, done + {r}, now).runs;
  }

  lemma ReclaimOneRun(t: Tables, r: RunId, now: Time)
    requires r in t.runs
    ensures ReclaimRuns(t, {r}, now) == LetGo(t, OpenRowsFor(t, {r}), now).(runs := t.runs[r := Requeue(t.runs[r])])
  {
    assert ReclaimRuns(t, {r}, now).runs == t.runs[r := Requeue(t.runs[r])];
  }

  lemma TakeBackTurn(t: Tables, all: set<RowId>, todo: set<RowId>, i: RowId, why: RowResult, now: Time)
    requires todo <= all <= t.rows.Keys && i in todo
    ensures i in TakeBack(t, all - todo, why, now).rows
    ensures TakeBack(TakeBack(t, all - todo, why, now), {i}, why, now) == TakeBack(t, all - (todo - {i}), why, now)
  {
    var done, one := all - todo, {i};
    assert all - (todo - one) == done + one;
    TakeBackMore(t, done, one, why, now);
  }

  method TakeBackRow(db: Session, i: RowId, why: RowResult, now: Time)
    requires i in db.rows
    modifies db
    ensures db.Contents() == TakeBack(old(db.Contents()), {i}, why, now)
  {
    TakeBackOne(db.Contents(), i, why, now);
    var r := db.rows[i].run;
    if r in db.runs && db.runs[r].status.InProgress? {
      db.runs := db.runs[r := db.runs[r].(status := Queued, startedAt := None)];
    }
    db.rows := db.rows[i := Abandon(db.rows[i], why, now)];
  }

  /** The inner loop of recovery and reset: the open rows of one worker. */
  method TakeBackRows(db: Session, w: WorkerId, why: RowResult, now: Time)
    modifies db
    ensures db.Contents() == TakeBack(old(db.Contents()), OpenRowsAt(old(db.Contents()), {w}), why, now)
  {
    ghost var t := db.Contents();
    var todo := set i | i in db.rows && db.rows[i].completedAt.None? && db.rows[i].worker == w;
    ghost var all := todo;
    assert all == OpenRowsAt(t, {w});
    TakeBackNothing(t, why, now);
    while todo != {}
      invariant todo <= all
      invariant db.Contents() == TakeBack(t, all - todo, why, now)
      decreases todo
    {
      var i: RowId :| i in todo;
      TakeBackTurn(t, all, todo, i, why, now);
      TakeBackRow(db, i, why, now);
      todo := todo - {i};
    }
    assert all - todo == all;
  }

  lemma ResetOneWorker(t: Tables, w: WorkerId, why: RowResult, now: Time)
    requires w in t.workers
    ensures ResetWorkers(t, {w}, why, now) ==
      TakeBack(t, OpenRowsAt(t, {w}), why, now).(workers := t.workers[w := ResetWorker(t.workers[w], now)])
    ensures t.workers[w].status.Busy? ==> |BusyIn(ResetWorkers(t, {w}, why, now).workers)| == |BusyIn(t.workers)| - 1
  {
    var workers := t.workers[w := ResetWorker(t.workers[w], now)];
    assert ResetWorkers(t, {w}, why, now).workers == workers;
    assert BusyIn(workers) == BusyIn(t.workers) - {w};
  }

  method ResetOne(db: Session, w: WorkerId, why: RowResult, now: Time)
    requires w in db.workers
    modifies db
    ensures db.Contents() == ResetWorkers(old(db.Contents()), {w}, why, now)
  {
    ResetOneWorker(db.Contents(), w, why, now);
    TakeBackRows(db, w, why, now);
    db.workers := db.workers[w := db.workers[w].(status := Idle, load := 0, heartbeat := Some(now))];
  }

  /** Manual reset. False: no such worker. */
  method ResetByHand(db: Session, w: WorkerId, now: Time) returns (found: bool)
    modifies db
    ensures found <==> w in old(db.workers)
    ensures db.Contents() == if found then ResetWorkers(old(db.Contents()), {w}, WasManualReset, now) else old(db.Contents())
  {
    if w !in db.workers {
      return false;
    }
    ResetOne(db, w, WasManualReset, now);
    return true;
  }

  method LetGoRow(db: Session, i: RowId, now: Time) returns (freed: nat)
    requires i in db.rows
    modifies db
    ensures db.Contents() == LetGo(old(db.Contents()), {i}, now)
    ensures freed == |BusyIn(old(db.workers))| - |BusyIn(db.workers)|
  {
    LetGoOne(db.Contents(), i, now);
    freed := 0;
    var w := db.rows[i].worker;
    if w in db.workers && db.workers[w].status.Busy? {
      db.workers := db.workers[w := FreeWorker(db.workers[w], now)];
      freed := 1;
    }
    db.rows := db.rows[i := Abandon(db.rows[i], WasTimeout, now)];
  }

  method LetGoEach(db: Session, ids: set<RowId>, now: Time) returns (freed: nat)
    requires ids <= db.rows.Keys
    modifies db
    ensures db.Contents() == LetGo(old(db.Contents()), ids, now)
    ensures freed == |BusyIn(old(db.workers))| - |BusyIn(db.workers)|
  {
    freed := 0;
    ghost var t := db.Contents();
    LetGoNothing(t, now);
    var todo := ids;
    ghost var done: set<RowId> := {};
    while todo != {}
      invariant done + todo == ids && done !! todo
      invariant db.Contents() == LetGo(t, done, now)
      invariant freed == |BusyIn(t.workers)| - |BusyIn(db.workers)|
      decreases todo
    {
      var i: RowId :| i in todo;
      LetGoMore(t, done, {i}, now);
      var one := LetGoRow(db, i, now);
      freed := freed + one;
      todo, done := todo - {i}, done + {i};
    }
    assert done == ids;
  }

  /** The inner loop of the second phase: the open rows of one orphaned run.
      A worker is counted when this loop is what makes it idle. */
  method ReclaimOne(db: Session, r: RunId, now: Time) returns (freed: nat)
    requires r in db.runs
    modifies db
    ensures db.Contents() == ReclaimRuns(old(db.Contents()), {r}, now)
    ensures freed == |BusyIn(old(db.workers))| - |BusyIn(db.workers)|
  {
    ReclaimOneRun(db.Contents(), r, now);
    var held := set i | i in db.rows && db.rows[i].completedAt.None? && db.rows[i].run == r;
    assert held == OpenRowsFor(db.Contents(), {r});
    freed := LetGoEach(db, held, now);
    db.runs := db.runs[r := db.runs[r].(status := Queued, startedAt := None)];
  }

  /** Phase one: busy workers that stopped sending heartbeats. */
  method RecoverStale(db: Session, now: Time, cutoff: Time) returns (recovered: nat)
    modifies db
    ensures db.Contents() == AfterStale(old(db.Contents()), now, cutoff)
    ensures recovered == |BusyIn(old(db.workers))| - |BusyIn(db.workers)|
  {
    recovered := 0;
    ghost var t := db.Contents();
    var stale := set w | w in db.workers && db.workers[w].status.Busy? && db.workers[w].heartbeat.Some? && db.workers[w].heartbeat.value < cutoff;
    ghost var all := stale;
    assert all == StaleWorkers(t, cutoff);
    ResetNobody(t, WasTimeout, now);
    ghost var done: set<WorkerId> := {};
    while stale != {}
      invariant done + stale == all && done !! stale
      invariant db.Contents() == ResetWorkers(t, done, WasTimeout, now)
      invariant recovered == |BusyIn(t.workers)| - |BusyIn(db.workers)|
      decreases stale
    {
      var w: WorkerId :| w in stale;
      ResetOneMore(t, done, w, WasTimeout, now);
      ResetOneWorker(db.Contents(), w, WasTimeout, now);
      ResetOne(db, w, WasTimeout, now);
      recovered := recovered + 1;
      stale, done := stale - {w}, done + {w};
    }
    assert done == all;
  }

  method ReclaimEach(db: Session, orphans: set<RunId>, now: Time) returns (recovered: nat)
    requires orphans <= db.runs.Keys
    modifies db
    ensures db.Contents() == ReclaimRuns(old(db.Contents()), orphans, now)
    ensures recovered == |BusyIn(old(db.workers))| - |BusyIn(db.workers)|
  {
    recovered := 0;
    ghost var t := db.Contents();
    ReclaimNothing(t, now);
    var todo := orphans;
    ghost var done: set<RunId> := {};
    while todo != {}
      invariant done + todo == orphans && done !! todo
      invariant db.Contents() == ReclaimRuns(t, done, now)
      invariant recovered == |BusyIn(t.workers)| - |BusyIn(db.workers)|
      decreases todo
    {
      var r: RunId :| r in todo;
      ReclaimOneMore(t, done, r, now);
      var freed := ReclaimOne(db, r, now);
      recovered := recovered + freed;
      todo, done := todo - {r}, done + {r};
    }
    assert done == orphans;
  }

  /** Phase two: running runs that Jenkins never acknowledged. */
  method RecoverOrphans(db: Session, now: Time, cutoff: Time) returns (recovered: nat)
    modifies db
    ensures db.Contents() == ReclaimRuns(old(db.Contents()), Orphans(old(db.Contents()), cutoff), now)
    ensures recovered == |BusyIn(old(db.workers))| - |BusyIn(db.workers)|
  {
    var orphans := set r | r in db.runs && Orphan(db.runs[r], cutoff);
    assert orphans == Orphans(db.Contents(), cutoff);
    recovered := ReclaimEach(db, orphans, now);
  }

  /** `_recover_stale_workers`: the count it returns is the number of workers
      it made idle, although one worker may be met in both phases. */
  method RecoverStaleWorkers(db: Session, now: Time, cutoff: Time) returns (recovered: nat)
    modifies db
    ensures db.Contents() == Recover(old(db.Contents()), now, cutoff)
    ensures recovered == |BusyIn(old(db.workers))| - |BusyIn(db.workers)|
  {
    var silent := RecoverStale(db, now, cutoff);
    var orphaned := RecoverOrphans(db, now, cutoff);
    recovered := silent + orphaned;
  }

  // ----------------------------------------------------------- properties

  /** Nothing stale or orphaned is left behind, whatever the tables held. */
  lemma RecoveryIsComplete(t: Tables, now: Time, cutoff: Time)
    requires cutoff <= now
    ensures StaleWorkers(Recover(t, now, cutoff), cutoff) == {}
    ensures Orphans(Recover(t, now, cutoff), cutoff) == {}
  {
    var t1 := AfterStale(t, now, cutoff);
    assert StaleWorkers(t1, cutoff) == {};
  }

  /** On columns: every busy worker has sent a heartbeat since the cutoff or none
      at all, and every running run without a build URL has started since. */
  lemma RecoveryLeavesNobody(t: Tables, now: Time, cutoff: Time)
    requires cutoff <= now
    ensures NobodyIsLate(Recover(t, now, cutoff), cutoff)
  {
    RecoveryIsComplete(t, now, cutoff);
    EmptySetsMeanNobody(Recover(t, now, cutoff), cutoff);
  }

  predicate NobodyIsLate(t: Tables, cutoff: Time) {
    && (forall w | w in t.workers && t.workers[w].status == Busy :: t.workers[w].heartbeat == None || t.workers[w].heartbeat.value >= cutoff)
    && (forall r | r in t.runs && t.runs[r].status == InProgress && t.runs[r].buildUrl == None ::
          t.runs[r].startedAt.Some? && t.runs[r].startedAt.value >= cutoff)
  }

  lemma EmptySetsMeanNobody(t: Tables, cutoff: Time)
    requires StaleWorkers(t, cutoff) == {} && Orphans(t, cutoff) == {}
    ensures NobodyIsLate(t, cutoff)
  {
    assert forall w | w in t.workers :: w !in StaleWorkers(t, cutoff);
    assert forall r | r in t.runs :: r !in Orphans(t, cutoff);
  }

  /** Running it again at the same moment does nothing. */
  lemma RecoveryIsIdempotent(t: Tables, now: Time, cutoff: Time)
    requires cutoff <= now
    ensures Recover(Recover(t, now, cutoff), now, cutoff) == Recover(t, now, cutoff)
  {
    var t2 := Recover(t, now, cutoff);
    RecoveryIsComplete(t, now, cutoff);
    ResetNobody(t2, WasTimeout, now);
    ReclaimNothing(t2, now);
  }
}
