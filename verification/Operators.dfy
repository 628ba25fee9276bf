/** What an operator can do to the tables from the outside: app/routers/workers.py
    (offline, online), app/routers/jobs.py (manual retry) and app/routers/ui.py
    (cancel, flush). The handlers are in Handlers, the worker reset in Recovery. */
module Operators {
  import opened Records
  import JobScheduler

  function SetOffline(t: Tables, w: WorkerId): Tables {
    if w in t.workers then t.(workers := t.workers[w := t.workers[w].(status := Offline)]) else t
  }

  /** Online does not look at the assignments the worker may still hold. */
  function SetOnline(t: Tables, w: WorkerId): Tables {
    if w in t.workers then t.(workers := t.workers[w := t.workers[w].(status := Idle, load := 0)]) else t
  }

  function Retried(run: Run): Run {
    run.(retryCount := run.retryCount + 1, status := Queued, startedAt := None, completedAt := None, retryAfter := None)
  }

  datatype RetryReply = RetryNotFound | RetryNotFailed | RetryExhausted | RetryQueued

  function RetryAnswer(t: Tables, r: RunId): RetryReply {
    if r !in t.runs then RetryNotFound
    else if !t.runs[r].status.Failed? then RetryNotFailed
    else if t.runs[r].retryCount >= t.runs[r].maxRetries then RetryExhausted
    else RetryQueued
  }

  function RetryByHand(t: Tables, r: RunId): Tables {
    if RetryAnswer(t, r).RetryQueued? then t.(runs := t.runs[r := Retried(t.runs[r])]) else t
  }

  datatype CancelReply = CancelNotFound | CancelNotActive | CancelDone

  function CancelAnswer(t: Tables, r: RunId): CancelReply {
    if r !in t.runs then CancelNotFound
    else if t.runs[r].status.Queued? || t.runs[r].status.InProgress? then CancelDone
    else CancelNotActive
  }

  /** A running run is finalised as aborted; a queued one only changes status. */
  function Cancel(t: Tables, r: RunId, open: Option<RowId>, close: Option<RowId>, now: Time): Tables
    requires JobScheduler.MayFinish(t, r, open, close)
  {
    if t.HasStatus(r, InProgress) then JobScheduler.FinishBuild(t, r, ABORTED, open, close, now)
    else if t.HasStatus(r, Queued) then t.(runs := t.runs[r := t.runs[r].(status := Aborted)])
    else t
  }

  /** The two `LIMIT 1` queries always have some answer. */
  lemma SomeChoice(t: Tables, r: RunId) returns (open: Option<RowId>, close: Option<RowId>)
    ensures JobScheduler.MayFinish(t, r, open, close)
  {
    open, close := None, None;
    if i :| r in t.runs && t.OpenFor(i, r) {
      open, close := Some(i), Some(i);
    }
  }

  function QueuedRuns(t: Tables): set<RunId> {
    set r | r in t.runs && t.runs[r].status.Queued?
  }

  /** Queued runs vanish with every assignment row, open or closed, they have. */
  function Flush(t: Tables): Tables {
    t.(runs := map r | r in t.runs && !t.runs[r].status.Queued? :: t.runs[r],
       rows := map i | i in t.rows && t.rows[i].run !in QueuedRuns(t) :: t.rows[i])
  }
}
