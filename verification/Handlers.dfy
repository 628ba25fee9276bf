/** The operator handlers of app/routers/workers.py (offline, online),
    app/routers/jobs.py (manual retry) and app/routers/ui.py (cancel, flush),
    with what they do to the invariants. The worker reset is in Recovery. */
module Handlers {
  import opened Records
  import opened Database
  import opened Machine
  import opened Invariants
  import opened Coupling
  import JobScheduler
  import Operators

  /** Always safe: the rows the worker holds stay coupled. */
  method TakeOffline(db: Session, w: WorkerId) returns (found: bool)
    modifies db
    ensures found <==> w in old(db.workers)
    ensures db.Contents() == Operators.SetOffline(old(db.Contents()), w)
    ensures Sound(old(db.Contents())) ==> Sound(db.Contents())
    ensures Coupled(old(db.Contents())) ==> Coupled(db.Contents())
    ensures forall v | v in old(db.workers) && v != w :: v in db.workers && db.workers[v] == old(db.workers)[v]
    ensures found ==> w in db.workers && db.workers[w].status.Offline? && db.workers[w].load == old(db.workers)[w].load
  {
    ghost var t := db.Contents();
    if Sound(t) { WorkerStepKeepsSound(t, 0, Step.GoOffline(w)); }
    if Coupled(t) { OfflineCoupling(t, w); }
    found := w in db.workers;
    if found {
      db.workers := db.workers[w := db.workers[w].(status := Offline)];
    }
  }

  /** Safe for the coupling if and only if the worker holds nothing. */
  method BringOnline(db: Session, w: WorkerId) returns (found: bool)
    modifies db
    ensures found <==> w in old(db.workers)
    ensures db.Contents() == Operators.SetOnline(old(db.Contents()), w)
    ensures Sound(old(db.Contents())) ==> Sound(db.Contents())
    ensures Coupled(old(db.Contents())) ==> (Coupled(db.Contents()) <==> NoOpenRowAt(old(db.Contents()), w))
    ensures forall v | v in old(db.workers) && v != w :: v in db.workers && db.workers[v] == old(db.workers)[v]
    ensures found ==> w in db.workers && db.workers[w].status.Idle? && db.workers[w].load == 0
  {
    ghost var t := db.Contents();
    if Sound(t) { WorkerStepKeepsSound(t, 0, Step.GoOnline(w)); }
    if Coupled(t) { OnlineCoupling(t, w); }
    found := w in db.workers;
    if found {
      db.workers := db.workers[w := db.workers[w].(status := Idle, load := 0)];
    }
  }

  /** Retries beyond the allowance are refused, so the counter stays within it;
      a queued run never holds a worker, so the coupling survives. */
  method RetryRun(db: Session, r: RunId) returns (reply: Operators.RetryReply)
    modifies db
    ensures reply == Operators.RetryAnswer(old(db.Contents()), r)
    ensures db.Contents() == Operators.RetryByHand(old(db.Contents()), r)
    ensures Sound(old(db.Contents())) ==> Sound(db.Contents())
    ensures Sound(old(db.Contents())) && Coupled(old(db.Contents())) ==> Coupled(db.Contents())
    ensures reply != Operators.RetryQueued ==> db.Contents() == old(db.Contents())
    ensures reply == Operators.RetryQueued ==>
      && r in db.runs && db.runs[r].status.Queued? && db.runs[r].retryCount == old(db.runs)[r].retryCount + 1
      && db.runs[r].retryCount <= db.runs[r].maxRetries
    ensures forall s | s in old(db.runs) && s != r :: s in db.runs && db.runs[s] == old(db.runs)[s]
  {
    ghost var t := db.Contents();
    if Sound(t) {
      RunStepKeepsSound(t, 0, Step.RetryByHand(r));
      if Coupled(t) { RunStepCoupling(t, 0, Step.RetryByHand(r)); }
    }
    if r !in db.runs {
      return Operators.RetryNotFound;
    }
    var run := db.runs[r];
    if run.status != Failed {
      return Operators.RetryNotFailed;
    }
    if run.retryCount >= run.maxRetries {
      return Operators.RetryExhausted;
    }
    run := run.(retryCount := run.retryCount + 1);
    run := run.(status := Queued, startedAt := None, completedAt := None, retryAfter := None);
    db.runs := db.runs[r := run];
    return Operators.RetryQueued;
  }

  method CancelRun(db: Session, r: RunId, now: Time)
    returns (reply: Operators.CancelReply, ghost open: Option<RowId>, ghost close: Option<RowId>)
    modifies db
    ensures reply == Operators.CancelAnswer(old(db.Contents()), r)
    ensures JobScheduler.MayFinish(old(db.Contents()), r, open, close)
    ensures db.Contents() == Operators.Cancel(old(db.Contents()), r, open, close, now)
    ensures Sound(old(db.Contents())) ==> Sound(db.Contents())
    ensures Sound(old(db.Contents())) && Coupled(old(db.Contents())) ==>
      (old(db.Contents()).HasStatus(r, InProgress) ==> FirstPairing(old(db.Contents()), r)) ==> Coupled(db.Contents())
  {
    ghost var t := db.Contents();
    open, close := Operators.SomeChoice(t, r);
    if r !in db.runs {
      reply := Operators.CancelNotFound;
    } else {
      var status := db.runs[r].status;
      if status != Queued && status != InProgress {
        reply := Operators.CancelNotActive;
      } else {
        if status == InProgress {
          var i, j := JobScheduler.OnBuildCompleted(db, r, ABORTED, now);
          open, close := i, j;
        } else {
          db.runs := db.runs[r := db.runs[r].(status := Aborted)];
        }
        reply := Operators.CancelDone;
      }
    }
    assert db.Contents() == Operators.Cancel(t, r, open, close, now);
    CancelKeepsInvariants(t, r, open, close, now);
  }

  lemma CancelKeepsInvariants(t: Tables, r: RunId, open: Option<RowId>, close: Option<RowId>, now: Time)
    requires JobScheduler.MayFinish(t, r, open, close)
    ensures Sound(t) ==> Sound(Operators.Cancel(t, r, open, close, now))
    ensures Sound(t) && Coupled(t) && (t.HasStatus(r, InProgress) ==> FirstPairing(t, r)) ==> Coupled(Operators.Cancel(t, r, open, close, now))
  {
    if Sound(t) {
      CancelKeepsSound(t, r, open, close, now);
      if Coupled(t) && (t.HasStatus(r, InProgress) ==> FirstPairing(t, r)) {
        GuardedStepKeepsCoupling(t, now, Step.Cancel(r, open, close));
      }
    }
  }

  lemma FlushKeepsInvariants(t: Tables)
    ensures Sound(t) ==> Sound(Operators.Flush(t))
    ensures Coupled(t) ==> Coupled(Operators.Flush(t)) && KeepsOpenRows(t, Operators.Flush(t))
  {
    if Sound(t) {
      FlushKeepsSound(t);
    }
    if Coupled(t) {
      FlushCoupling(t);
      assert forall i | i in t.rows && t.rows[i].Open() :: t.HasStatus(t.rows[i].run, InProgress);
    }
  }

  predicate KeepsOpenRows(t: Tables, t': Tables) {
    forall i | i in t.rows && t.rows[i].Open() :: i in t'.rows && t'.rows[i] == t.rows[i]
  }

  method DeleteQueued(db: Session) returns (flushed: nat)
    modifies db
    ensures flushed == |Operators.QueuedRuns(old(db.Contents()))|
    ensures db.Contents() == Operators.Flush(old(db.Contents()))
  {
    var ids := set r | r in db.runs && db.runs[r].status == Queued;
    assert ids == Operators.QueuedRuns(db.Contents());
    db.rows := map i | i in db.rows && db.rows[i].run !in ids :: db.rows[i];
    db.runs := db.runs - ids;
    return |ids|;
  }

  /** From coupled tables no row of a running run is lost and no worker freed,
      since queued runs hold none: the coupling survives. */
  method FlushQueue(db: Session) returns (flushed: nat)
    modifies db
    ensures flushed == |Operators.QueuedRuns(old(db.Contents()))|
    ensures db.Contents() == Operators.Flush(old(db.Contents()))
    ensures Sound(old(db.Contents())) ==> Sound(db.Contents())
    ensures Coupled(old(db.Contents())) ==> Coupled(db.Contents()) && KeepsOpenRows(old(db.Contents()), db.Contents())
    ensures forall r :: r in db.runs <==> r in old(db.runs) && !old(db.runs)[r].status.Queued?
  {
    FlushKeepsInvariants(db.Contents());
    flushed := DeleteQueued(db);
  }
}
