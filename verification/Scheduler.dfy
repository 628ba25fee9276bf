/** The tick of app/scheduler.py: recover, select, claim, assign, revert, retry. */
module Scheduler {
  import opened Records
  import opened Database
  import opened Queries
  import opened WorkerPool
  import Recovery
  import Operators

  datatype Mode = PriorityMode | FifoMode

  /** `backoffs` is indexed by every retry, so the source needs it non-empty. */
  datatype Settings = Settings(maxConcurrent: nat, backoffs: seq<int>, heartbeatTimeout: nat)

  // ------------------------------------------------------- claim and revert

  function Claimed(run: Run, now: Time): Run {
    run.(status := InProgress, startedAt := Some(now))
  }

  function Claim(t: Tables, r: RunId, now: Time): Tables {
    if t.HasStatus(r, Queued) then t.(runs := t.runs[r := Claimed(t.runs[r], now)]) else t
  }

  /** The guarded UPDATE; true when it changed a row. */
  method ClaimRun(db: Session, r: RunId, now: Time) returns (won: bool)
    modifies db
    ensures won <==> old(db.Contents()).HasStatus(r, Queued)
    ensures db.Contents() == Claim(old(db.Contents()), r, now)
  {
    won := r in db.runs && db.runs[r].status == Queued;
    if won {
      db.runs := db.runs[r := db.runs[r].(status := InProgress, startedAt := Some(now))];
    }
  }

  /** The UPDATE that gives a run back has no guard on its status. */
  function Revert(t: Tables, r: RunId): Tables {
    if r in t.runs then t.(runs := t.runs[r := Recovery.Requeue(t.runs[r])]) else t
  }

  method RevertRun(db: Session, r: RunId)
    modifies db
    ensures db.Contents() == Revert(old(db.Contents()), r)
  {
    if r in db.runs {
      db.runs := db.runs[r := db.runs[r].(status := Queued, startedAt := None)];
    }
  }

  // --------------------------------------------------------------- selection

  /** `scheduling_priority` is never null, so the branch arms of the source's
      CASE are never reached and the key is the stored priority. */
  function QueueKey(run: Run, mode: Mode): Key {
    if mode.PriorityMode? then (run.priority, run.queuedAt) else (run.queuedAt, 0)
  }

  function Waiting(t: Tables, mode: Mode): map<RunId, Key> {
    map r | r in t.runs && t.runs[r].status.Queued? && t.runs[r].live :: QueueKey(t.runs[r], mode)
  }

  /** `q` is the first `limit` entries of some ordered answer. */
  predicate Selects(q: seq<RunId>, full: seq<RunId>, t: Tables, mode: Mode, limit: nat) {
    Listing(full, Waiting(t, mode)) && q == full[..if |full| <= limit then |full| else limit]
  }

  method SelectQueued(db: Session, mode: Mode, limit: nat) returns (q: seq<RunId>, ghost full: seq<RunId>)
    ensures Selects(q, full, db.Contents(), mode, limit)
    ensures Foremost(q, Waiting(db.Contents(), mode), limit)
  {
    var key := Waiting(db.Contents(), mode);
    assert exists all :: Listing(all, key) by {
      var all := ListingExists(key);
    }
    var all :| Listing(all, key);
    full := all;
    ListingPrefix(full, key, limit);
    q := if |all| <= limit then all else all[..limit];
  }

  // ---------------------------------------------------------- dispatch loop

  /** One open row per served run, numbered on from `first`. */
  function FreshRows(first: nat, q: seq<RunId>, ws: seq<WorkerId>): map<RowId, Assignment>
    requires |ws| <= |q|
  {
    if ws == [] then map[]
    else
      var n := |ws| - 1;
      FreshRows(first, q, ws[..n])[first + n := Assignment(q[n], ws[n], RowAssigned, None, None, None)]
  }

  lemma {:induction false} FreshRowsPrefix(first: nat, q: seq<RunId>, more: seq<RunId>, ws: seq<WorkerId>)
    requires |ws| <= |q|
    ensures FreshRows(first, q + more, ws) == FreshRows(first, q, ws)
  {
    if ws != [] {
      FreshRowsPrefix(first, q, more, ws[..|ws| - 1]);
    }
  }

  lemma {:induction false} FreshRowsContent(first: nat, q: seq<RunId>, ws: seq<WorkerId>)
    requires |ws| <= |q|
    ensures forall i: RowId :: i in FreshRows(first, q, ws) <==> first <= i < first + |ws|
    ensures forall k | 0 <= k < |ws| ::
      FreshRows(first, q, ws)[first + k] == Assignment(q[k], ws[k], RowAssigned, None, None, None)
  {
    if ws != [] {
      FreshRowsContent(first, q, ws[..|ws| - 1]);
    }
  }

  /** What the clock shows when a run is claimed and when a worker is assigned.
      In one tick each run is claimed and each worker assigned at most once. */
  datatype Clock = Clock(claim: RunId -> Time, assign: WorkerId -> Time)

  /** The tables after a dispatch over `q` that found workers `ws`: the first
      |ws| runs are running, run q[i] on worker ws[i] by row nextRow + i; the
      others were claimed and given back; nothing else changed. */
  function Dispatched(t: Tables, q: seq<RunId>, ws: seq<WorkerId>, at: Clock): Tables
    requires |ws| <= |q|
  {
    Tables(
      map r | r in t.runs :: if r in q[..|ws|] then Claimed(t.runs[r], at.claim(r)) else if r in q then Recovery.Requeue(t.runs[r]) else t.runs[r],
      map w | w in t.workers :: if w in ws then Engaged(t.workers[w], at.assign(w)) else t.workers[w],
      t.rows + FreshRows(t.nextRow, q, ws),
      t.nextRun,
      t.nextRow + |ws|)
  }

  /** Each worker ws[i] is one the pool prefers for run q[i] when its turn comes. */
  ghost predicate EachPreferred(t: Tables, q: seq<RunId>, ws: seq<WorkerId>, at: Clock)
    requires |ws| <= |q|
  {
    ws == [] ||
    var n := |ws| - 1;
    && EachPreferred(t, q, ws[..n], at)
    && q[n] in t.runs && MayServe(Dispatched(t, q[..n], ws[..n], at), t.runs[q[n]].language, ws[n])
  }

  lemma DispatchNothing(t: Tables, at: Clock)
    ensures Dispatched(t, [], [], at) == t
  {
    assert FreshRows(t.nextRow, [], []) == map[];
  }

  lemma ServesRun(t: Tables, q: seq<RunId>, ws: seq<WorkerId>, r: RunId, w: WorkerId, at: Clock)
    requires |ws| == |q| && r !in q && t.HasStatus(r, Queued)
    ensures Dispatched(t, q, ws, at).HasStatus(r, Queued)
    ensures Dispatched(t, q + [r], ws + [w], at).runs == Claim(Dispatched(t, q, ws, at), r, at.claim(r)).runs
  {
    assert q[..|ws|] == q && (q + [r])[..|ws + [w]|] == q + [r];
  }

  lemma ServesWorker(t: Tables, q: seq<RunId>, ws: seq<WorkerId>, r: RunId, w: WorkerId, at: Clock)
    requires |ws| == |q| && w !in ws && w in t.workers
    ensures w in Dispatched(t, q, ws, at).workers
    ensures Dispatched(t, q + [r], ws + [w], at).workers ==
      Occupy(Dispatched(t, q, ws, at), r, w, at.assign(w)).workers
  {
  }

  lemma ServesRow(t: Tables, q: seq<RunId>, ws: seq<WorkerId>, r: RunId, w: WorkerId, at: Clock)
    requires |ws| == |q|
    ensures Dispatched(t, q + [r], ws + [w], at).rows ==
      Dispatched(t, q, ws, at).rows[t.nextRow + |ws| := Assignment(r, w, RowAssigned, None, None, None)]
  {
    assert (ws + [w])[..|ws|] == ws;
    FreshRowsPrefix(t.nextRow, q, [r], ws);
  }

  /** Claiming the next run and finding a worker serves one run more. */
  lemma DispatchServes(t: Tables, q: seq<RunId>, ws: seq<WorkerId>, r: RunId, w: WorkerId, at: Clock)
    requires |ws| == |q| && r !in q && w !in ws
    requires t.HasStatus(r, Queued) && w in t.workers
    ensures Dispatched(t, q, ws, at).HasStatus(r, Queued)
    ensures Occupy(Claim(Dispatched(t, q, ws, at), r, at.claim(r)), r, w, at.assign(w)) == Dispatched(t, q + [r], ws + [w], at)
  {
    ServesRun(t, q, ws, r, w, at);
    ServesWorker(t, q, ws, r, w, at);
    ServesRow(t, q, ws, r, w, at);
  }

  /** Claiming the next run and finding nobody gives it back. */
  lemma DispatchMisses(t: Tables, q: seq<RunId>, ws: seq<WorkerId>, r: RunId, at: Clock)
    requires |ws| <= |q| && r !in q && t.HasStatus(r, Queued)
    ensures Dispatched(t, q, ws, at).HasStatus(r, Queued)
    ensures Revert(Claim(Dispatched(t, q, ws, at), r, at.claim(r)), r) == Dispatched(t, q + [r], ws, at)
  {
    var d, next := Dispatched(t, q, ws, at), Dispatched(t, q + [r], ws, at);
    assert (q + [r])[..|ws|] == q[..|ws|];
    assert next.runs == d.runs[r := Recovery.Requeue(t.runs[r])];
    FreshRowsPrefix(t.nextRow, q, [r], ws);
  }

  function Min(a: nat, b: nat): nat { if a <= b then a else b }

  /** One turn of the dispatch loop: claim, assign, and revert if nobody was
      idle. Undisturbed, the assignment fails only then. */
  method DispatchOne(db: Session, r: RunId, at: Clock) returns (outcome: Assigning)
    requires db.Contents().HasStatus(r, Queued)
    modifies db
    ensures var t1 := Claim(old(db.Contents()), r, at.claim(r));
      && MayEnd(t1, r, t1.runs[r].language, outcome)
      && !outcome.RunGone?
      && db.Contents() == if outcome.NoWorker? then Revert(t1, r) else Occupy(t1, r, outcome.worker, at.assign(outcome.worker))
  {
    var won := ClaimRun(db, r, at.claim(r));
    outcome := AssignWorker(db, r, db.runs[r].language, at.assign);
    if outcome.NoWorker? {
      RevertRun(db, r);
    }
  }

  /** What a dispatch promises: as many runs as possible are served, in order,
      on pairwise distinct workers that were idle, each the preferred one. */
  ghost predicate DispatchOutcome(t: Tables, q: seq<RunId>, ws: seq<WorkerId>, at: Clock, after: Tables) {
    && |ws| == Min(|q|, |IdleWorkers(t)|)
    && Distinct(ws) && Members(ws) <= IdleWorkers(t)
    && EachPreferred(t, q, ws, at)
    && after == Dispatched(t, q, ws, at)
  }

  /** Of the workers that were idle, `ws` were taken and `left` remain. */
  ghost predicate Taken(idle: set<WorkerId>, turns: nat, ws: seq<WorkerId>, left: set<WorkerId>) {
    && |ws| <= turns && (|ws| < turns ==> left == {})
    && Distinct(ws) && Members(ws) !! left && Members(ws) + left == idle
  }

  lemma TakeOneMore(idle: set<WorkerId>, turns: nat, ws: seq<WorkerId>, left: set<WorkerId>, w: WorkerId)
    requires Taken(idle, turns, ws, left) && w in left
    ensures w !in ws && |ws| == turns && Taken(idle, turns + 1, ws + [w], left - {w})
  {
    assert w !in Members(ws);
    assert Members(ws + [w]) == Members(ws) + {w};
  }

  /** The loop invariant of the dispatch: `done` are the runs already met. */
  ghost predicate DispatchSoFar(t: Tables, q: seq<RunId>, done: seq<RunId>, ws: seq<WorkerId>, at: Clock, d: Tables) {
    && done <= q && |ws| <= |done|
    && Taken(IdleWorkers(t), |done|, ws, IdleWorkers(d))
    && EachPreferred(t, q, ws, at)
    && d == Dispatched(t, done, ws, at)
  }

  ghost predicate AllQueued(t: Tables, q: seq<RunId>) {
    Distinct(q) && forall i | 0 <= i < |q| :: t.HasStatus(q[i], Queued)
  }

  lemma DispatchStart(t: Tables, q: seq<RunId>, at: Clock)
    ensures DispatchSoFar(t, q, [], [], at, t)
  {
    DispatchNothing(t, at);
  }

  /** Run `r` comes next in `q` after the runs `done`. */
  ghost predicate Next(q: seq<RunId>, done: seq<RunId>, r: RunId) {
    done + [r] <= q
  }

  lemma NextIsQueued(t: Tables, q: seq<RunId>, done: seq<RunId>, r: RunId, ws: seq<WorkerId>, at: Clock, d: Tables)
    requires AllQueued(t, q) && Next(q, done, r) && DispatchSoFar(t, q, done, ws, at, d)
    ensures t.HasStatus(r, Queued) && r !in done && d.HasStatus(r, Queued)
    ensures Claim(d, r, at.claim(r)).runs[r].language == t.runs[r].language
  {
    assert r == q[|done|] && done == q[..|done|];
  }

  lemma ServeTurn(t: Tables, q: seq<RunId>, done: seq<RunId>, r: RunId, ws: seq<WorkerId>, w: WorkerId, at: Clock, d: Tables)
    requires AllQueued(t, q) && Next(q, done, r) && DispatchSoFar(t, q, done, ws, at, d)
    requires r in t.runs && MayServe(Claim(d, r, at.claim(r)), t.runs[r].language, w)
    ensures w in d.workers
    ensures DispatchSoFar(t, q, done + [r], ws + [w], at, Occupy(Claim(d, r, at.claim(r)), r, w, at.assign(w)))
  {
    NextIsQueued(t, q, done, r, ws, at, d);
    ServedIsIdle(d, r, t.runs[r].language, w, at);
    TakeOneMore(IdleWorkers(t), |done|, ws, IdleWorkers(d), w);
    DispatchServes(t, done, ws, r, w, at);
    IdleAfterServe(d, r, w, at);
    PreferOneMore(t, q, done, r, ws, w, at, d);
  }

  lemma ServedIsIdle(d: Tables, r: RunId, language: Language, w: WorkerId, at: Clock)
    requires MayServe(Claim(d, r, at.claim(r)), language, w)
    ensures w in IdleWorkers(d)
  {
    assert w in IdleWorkers(Claim(d, r, at.claim(r)));
  }

  lemma IdleAfterServe(d: Tables, r: RunId, w: WorkerId, at: Clock)
    requires w in d.workers
    ensures IdleWorkers(Occupy(Claim(d, r, at.claim(r)), r, w, at.assign(w))) == IdleWorkers(d) - {w}
  {
  }

  lemma PreferSnoc(t: Tables, q: seq<RunId>, ws: seq<WorkerId>, w: WorkerId, at: Clock)
    requires |ws| < |q| && EachPreferred(t, q, ws, at)
    requires q[|ws|] in t.runs && MayServe(Dispatched(t, q[..|ws|], ws, at), t.runs[q[|ws|]].language, w)
    ensures EachPreferred(t, q, ws + [w], at)
  {
    var more := ws + [w];
    assert more[..|more| - 1] == ws && more[|more| - 1] == w;
  }

  lemma PreferOneMore(t: Tables, q: seq<RunId>, done: seq<RunId>, r: RunId, ws: seq<WorkerId>, w: WorkerId, at: Clock, d: Tables)
    requires Next(q, done, r) && |ws| == |done| && EachPreferred(t, q, ws, at)
    requires d == Dispatched(t, done, ws, at) && r in t.runs
    requires MayServe(Claim(d, r, at.claim(r)), t.runs[r].language, w)
    ensures EachPreferred(t, q, ws + [w], at)
  {
    SamePreference(d, r, t.runs[r].language, w, at);
    assert q[..|ws|] == done && q[|ws|] == r;
    PreferSnoc(t, q, ws, w, at);
  }

  lemma SamePreference(d: Tables, r: RunId, language: Language, w: WorkerId, at: Clock)
    requires MayServe(Claim(d, r, at.claim(r)), language, w)
    ensures MayServe(d, language, w)
  {
    assert Candidates(Claim(d, r, at.claim(r)), language) == Candidates(d, language);
  }

  lemma MissTurn(t: Tables, q: seq<RunId>, done: seq<RunId>, r: RunId, ws: seq<WorkerId>, at: Clock, d: Tables)
    requires AllQueued(t, q) && Next(q, done, r) && DispatchSoFar(t, q, done, ws, at, d)
    requires IdleWorkers(Claim(d, r, at.claim(r))) == {}
    ensures DispatchSoFar(t, q, done + [r], ws, at, Revert(Claim(d, r, at.claim(r)), r))
  {
    NextIsQueued(t, q, done, r, ws, at, d);
    DispatchMisses(t, done, ws, r, at);
    assert IdleWorkers(d) == IdleWorkers(Claim(d, r, at.claim(r)));
    assert IdleWorkers(Revert(Claim(d, r, at.claim(r)), r)) == IdleWorkers(d);
  }

  lemma DispatchDone(t: Tables, q: seq<RunId>, ws: seq<WorkerId>, at: Clock, d: Tables)
    requires DispatchSoFar(t, q, q, ws, at, d)
    ensures DispatchOutcome(t, q, ws, at, d)
  {
    DistinctSize(ws);
    assert |IdleWorkers(t)| == |Members(ws)| + |IdleWorkers(d)|;
  }

  method DispatchTurn(db: Session, r: RunId, ws: seq<WorkerId>, at: Clock, ghost t: Tables, ghost q: seq<RunId>, ghost done: seq<RunId>)
    returns (ws': seq<WorkerId>, ghost done': seq<RunId>)
    requires AllQueued(t, q) && Next(q, done, r) && DispatchSoFar(t, q, done, ws, at, db.Contents())
    modifies db
    ensures done' == done + [r]
    ensures DispatchSoFar(t, q, done', ws', at, db.Contents())
  {
    done' := done + [r];
    ghost var d := db.Contents();
    NextIsQueued(t, q, done, r, ws, at, d);
    var outcome := DispatchOne(db, r, at);
    if outcome.Serving? {
      ServeTurn(t, q, done, r, ws, outcome.worker, at, d);
      ws' := ws + [outcome.worker];
    } else {
      MissTurn(t, q, done, r, ws, at, d);
      ws' := ws;
    }
  }

  method DispatchLoop(db: Session, q: seq<RunId>, at: Clock, ghost t: Tables) returns (ws: seq<WorkerId>)
    requires t == db.Contents() && AllQueued(t, q)
    modifies db
    ensures DispatchSoFar(t, q, q, ws, at, db.Contents())
  {
    ghost var done: seq<RunId> := [];
    ws := [];
    DispatchStart(t, q, at);
    for n := 0 to |q|
      invariant |done| == n
      invariant DispatchSoFar(t, q, done, ws, at, db.Contents())
    {
      assert Next(q, done, q[n]);
      ws, done := DispatchTurn(db, q[n], ws, at, t, q, done);
    }
    assert done == q;
  }

  method Dispatch(db: Session, q: seq<RunId>, at: Clock) returns (ws: seq<WorkerId>)
    requires AllQueued(db.Contents(), q)
    modifies db
    ensures DispatchOutcome(old(db.Contents()), q, ws, at, db.Contents())
  {
    ghost var t := db.Contents();
    ws := DispatchLoop(db, q, at, t);
    DispatchDone(t, q, ws, at, db.Contents());
  }

  // ------------------------------------------------------------- retry phase

  function Backoff(backoffs: seq<int>, attempt: nat): int
    requires backoffs != []
  {
    backoffs[if attempt <= |backoffs| - 1 then attempt else |backoffs| - 1]
  }

  predicate RetryEligible(run: Run) {
    run.status.Failed? && run.retryCount < run.maxRetries && run.live
  }

  /** First sighting schedules the retry; a later tick re-queues the run. */
  function RetryStep(run: Run, now: Time, backoffs: seq<int>): Run
    requires backoffs != []
  {
    if !RetryEligible(run) then run
    else if run.retryAfter.None? then run.(retryAfter := Some(now + Backoff(backoffs, run.retryCount)))
    else if run.retryAfter.value <= now then Operators.Retried(run)
    else run
  }

  function RetrySome(runs: map<RunId, Run>, due: set<RunId>, now: Time, backoffs: seq<int>): map<RunId, Run>
    requires backoffs != []
  {
    map r | r in runs :: if r in due then RetryStep(runs[r], now, backoffs) else runs[r]
  }

  function RetryAll(t: Tables, now: Time, backoffs: seq<int>): Tables
    requires backoffs != []
  {
    t.(runs := RetrySome(t.runs, t.runs.Keys, now, backoffs))
  }

  lemma RetryOneMore(runs: map<RunId, Run>, done: set<RunId>, r: RunId, now: Time, backoffs: seq<int>)
    requires backoffs != [] && r in runs && r !in done
    ensures RetrySome(runs, done, now, backoffs)[r] == runs[r]
    ensures RetrySome(runs, done + {r}, now, backoffs) ==
      RetrySome(runs, done, now, backoffs)[r := RetryStep(runs[r], now, backoffs)]
  {
  }

  method RetryOne(db: Session, r: RunId, now: Time, backoffs: seq<int>)
    requires backoffs != [] && r in db.runs && RetryEligible(db.runs[r])
    modifies db`runs
    ensures db.runs == old(db.runs)[r := RetryStep(old(db.runs)[r], now, backoffs)]
  {
    var run := db.runs[r];
    if run.retryAfter.None? {
      var delay := backoffs[if run.retryCount <= |backoffs| - 1 then run.retryCount else |backoffs| - 1];
      db.runs := db.runs[r := run.(retryAfter := Some(now + delay))];
    } else if run.retryAfter.value <= now {
      run := run.(retryCount := run.retryCount + 1);
      db.runs := db.runs[r := run.(status := Queued, startedAt := None, completedAt := None, retryAfter := None)];
    }
  }

  method RetryEach(db: Session, eligible: set<RunId>, now: Time, backoffs: seq<int>)
    requires backoffs != [] && eligible <= db.runs.Keys
    requires forall r | r in eligible :: RetryEligible(db.runs[r])
    modifies db`runs
    ensures db.runs == RetrySome(old(db.runs), eligible, now, backoffs)
  {
    ghost var runs := db.runs;
    var todo := eligible;
    ghost var done: set<RunId> := {};
    assert RetrySome(runs, {}, now, backoffs) == runs;
    while todo != {}
      invariant done + todo == eligible && done !! todo
      invariant db.runs == RetrySome(runs, done, now, backoffs)
      decreases todo
    {
      var r: RunId :| r in todo;
      RetryOneMore(runs, done, r, now, backoffs);
      RetryOne(db, r, now, backoffs);
      todo, done := todo - {r}, done + {r};
    }
    assert done == eligible;
  }

  method RetryPhase(db: Session, now: Time, backoffs: seq<int>)
    requires backoffs != []
    modifies db
    ensures db.Contents() == RetryAll(old(db.Contents()), now, backoffs)
  {
    var eligible := set r | r in db.runs && RetryEligible(db.runs[r]);
    assert RetrySome(db.runs, eligible, now, backoffs) == RetrySome(db.runs, db.runs.Keys, now, backoffs);
    RetryEach(db, eligible, now, backoffs);
  }

  // ------------------------------------------------------------------- tick

  datatype Report = Report(processed: nat, served: nat, skipped: bool)

  /** Live in-process executors make the tick skip everything, recovery and
      retries included. */
  predicate Saturated(inProcess: bool, active: nat, settings: Settings) {
    inProcess && active >= settings.maxConcurrent
  }

  /** From the recovered tables `t` to the tables after the tick. */
  ghost predicate Ticked(t: Tables, mode: Mode, settings: Settings, at: Clock, retryAt: Time,
                         full: seq<RunId>, q: seq<RunId>, ws: seq<WorkerId>, after: Tables)
    requires settings.backoffs != []
  {
    && Selects(q, full, t, mode, settings.maxConcurrent)
    && |ws| <= |q|
    && DispatchOutcome(t, q, ws, at, Dispatched(t, q, ws, at))
    && after == RetryAll(Dispatched(t, q, ws, at), retryAt, settings.backoffs)
  }

  lemma SelectedAreQueued(q: seq<RunId>, full: seq<RunId>, t: Tables, mode: Mode, limit: nat)
    requires Selects(q, full, t, mode, limit)
    ensures AllQueued(t, q)
  {
    assert forall i | 0 <= i < |q| :: q[i] == full[i] && full[i] in Members(full);
  }

  method SelectDispatchRetry(db: Session, mode: Mode, settings: Settings, at: Clock, retryAt: Time, ghost t: Tables)
    returns (report: Report, ghost full: seq<RunId>, ghost q: seq<RunId>, ghost ws: seq<WorkerId>)
    requires settings.backoffs != [] && t == db.Contents()
    modifies db
    ensures Ticked(t, mode, settings, at, retryAt, full, q, ws, db.Contents())
    ensures report == Report(|q|, |ws|, false)
  {
    var queued, all := SelectQueued(db, mode, settings.maxConcurrent);
    SelectedAreQueued(queued, all, db.Contents(), mode, settings.maxConcurrent);
    var serving := Dispatch(db, queued, at);
    RetryPhase(db, retryAt, settings.backoffs);
    full, q, ws := all, queued, serving;
    report := Report(|queued|, |serving|, false);
  }

  function Cutoff(settings: Settings, now: Time): Time {
    now - settings.heartbeatTimeout
  }

  /** A whole undisturbed tick: recovery reads the clock at `now`, the dispatch
      loop anew for each run and worker, the retry phase at `retryAt`. `t` are
      the tables after its recovery. */
  method Tick(db: Session, mode: Mode, settings: Settings, inProcess: bool, active: nat, now: Time, at: Clock, retryAt: Time)
    returns (report: Report, ghost t: Tables, ghost full: seq<RunId>, ghost q: seq<RunId>, ghost ws: seq<WorkerId>)
    requires settings.backoffs != []
    modifies db
    ensures Cutoff(settings, now) == now - settings.heartbeatTimeout
    ensures t == Recovery.Recover(old(db.Contents()), now, Cutoff(settings, now))
    ensures if inProcess && active >= settings.maxConcurrent
            then report == Report(0, 0, true) && db.Contents() == old(db.Contents())
            else report == Report(|q|, |ws|, false) && Ticked(t, mode, settings, at, retryAt, full, q, ws, db.Contents())
  {
    t, full, q, ws := Recovery.Recover(db.Contents(), now, Cutoff(settings, now)), [], [], [];
    if Saturated(inProcess, active, settings) {
      return Report(0, 0, true), t, [], [], [];
    }
    var recovered := Recovery.RecoverStaleWorkers(db, now, Cutoff(settings, now));
    report, full, q, ws := SelectDispatchRetry(db, mode, settings, at, retryAt, t);
  }
}
