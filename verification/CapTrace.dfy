/** The trace that fills the thread cap twice, on real tables: a fresh fleet of
    workers, two batches of pushes, and two ticks five seconds apart. */
module CapTrace {
  import opened Records
  import opened Queries
  import opened WorkerPool
  import opened Machine
  import opened Invariants
  import opened Coupling
  import opened TickHistory
  import opened ExecutorCap
  import JobScheduler
  import Recovery
  import Scheduler

  // ------------------------------------------------- a tick can always run

  lemma SomeoneServes(t: Tables, language: Language) returns (w: WorkerId)
    requires IdleWorkers(t) != {}
    ensures MayServe(t, language, w)
  {
    var idle := ListingExists(IdleByLoad(t));
    FirstCandidate(t, idle, language);
    w := CandidateList(t, idle, language)[0];
  }

  lemma NextTurn(t: Tables, q: seq<RunId>, done: seq<RunId>, r: RunId, ws: seq<WorkerId>, at: Scheduler.Clock)
    returns (ws': seq<WorkerId>)
    requires Scheduler.AllQueued(t, q) && Scheduler.Next(q, done, r) && |ws| <= |done|
    requires Scheduler.DispatchSoFar(t, q, done, ws, at, Scheduler.Dispatched(t, done, ws, at))
    ensures |ws'| <= |done| + 1
    ensures Scheduler.DispatchSoFar(t, q, done + [r], ws', at, Scheduler.Dispatched(t, done + [r], ws', at))
  {
    var d := Scheduler.Dispatched(t, done, ws, at);
    Scheduler.NextIsQueued(t, q, done, r, ws, at, d);
    var c := Scheduler.Claim(d, r, at.claim(r));
    if IdleWorkers(c) == {} {
      Scheduler.MissTurn(t, q, done, r, ws, at, d);
      ws' := ws;
    } else {
      var w := SomeoneServes(c, t.runs[r].language);
      Scheduler.ServeTurn(t, q, done, r, ws, w, at, d);
      ws' := ws + [w];
    }
  }

  lemma NoTurn(t: Tables, q: seq<RunId>, at: Scheduler.Clock)
    ensures q[..0] == [] && Scheduler.DispatchSoFar(t, q, [], [], at, Scheduler.Dispatched(t, [], [], at))
  {
    Scheduler.DispatchNothing(t, at);
    Scheduler.DispatchStart(t, q, at);
  }

  lemma {:induction false} DispatchHappens(t: Tables, q: seq<RunId>, at: Scheduler.Clock, k: nat) returns (ws: seq<WorkerId>)
    requires Scheduler.AllQueued(t, q) && k <= |q|
    ensures |ws| <= k
    ensures Scheduler.DispatchSoFar(t, q, q[..k], ws, at, Scheduler.Dispatched(t, q[..k], ws, at))
    decreases k
  {
    if k == 0 {
      ws := [];
      NoTurn(t, q, at);
    } else {
      var before := DispatchHappens(t, q, at, k - 1);
      var done, r := q[..k - 1], q[k - 1];
      assert q[..k] == done + [r];
      ws := NextTurn(t, q, done, r, before, at);
    }
  }

  /** Some outcome of a tick exists for any tables. */
  lemma TickHappens(t: Tables, mode: Scheduler.Mode, settings: Scheduler.Settings, at: Scheduler.Clock, retryAt: Time)
    returns (full: seq<RunId>, q: seq<RunId>, ws: seq<WorkerId>, after: Tables)
    requires settings.backoffs != []
    ensures Scheduler.Ticked(t, mode, settings, at, retryAt, full, q, ws, after)
  {
    full := ListingExists(Scheduler.Waiting(t, mode));
    q := full[..if |full| <= settings.maxConcurrent then |full| else settings.maxConcurrent];
    Scheduler.SelectedAreQueued(q, full, t, mode, settings.maxConcurrent);
    ws := DispatchHappens(t, q, at, |q|);
    assert q[..|q|] == q;
    Scheduler.DispatchDone(t, q, ws, at, Scheduler.Dispatched(t, q, ws, at));
    after := Scheduler.RetryAll(Scheduler.Dispatched(t, q, ws, at), retryAt, settings.backoffs);
  }

  // ------------------------------------------------------------ the tables

  /** Everything happened at time 0, nothing failed, nobody forgot a row. */
  ghost predicate Fine(t: Tables) {
    && Sound(t) && Coupled(t)
    && (forall r | r in t.runs :: !t.runs[r].status.Failed? && (t.runs[r].status.InProgress? ==> t.runs[r].startedAt == Some(0)))
    && (forall w | w in t.workers && t.workers[w].status.Busy? :: t.workers[w].heartbeat == Some(0))
  }

  const ZERO := Scheduler.Clock(_ => 0, _ => 0)

  const RESTING := Worker(Generic, Idle, 0, None)

  function Crew(n: nat): (workers: map<WorkerId, Worker>)
    ensures forall w: WorkerId :: w in workers <==> w < n
    ensures forall w | w in workers :: workers[w] == RESTING
  {
    if n == 0 then map[] else Crew(n - 1)[n - 1 := RESTING]
  }

  /** `n` idle workers and nothing else. */
  function Fleet(n: nat): Tables {
    Tables(map[], Crew(n), map[], 0, 0)
  }

  lemma {:induction false} CrewSize(n: nat)
    ensures |Crew(n).Keys| == n
  {
    if n > 0 {
      CrewSize(n - 1);
      assert Crew(n).Keys == Crew(n - 1).Keys + {n - 1};
    }
  }

  lemma FleetIsIdle(n: nat, mode: Scheduler.Mode)
    ensures Fresh(Fleet(n)) && Fine(Fleet(n))
    ensures |IdleWorkers(Fleet(n))| == n && |Scheduler.Waiting(Fleet(n), mode)| == 0
  {
    CrewSize(n);
    assert IdleWorkers(Fleet(n)) == Crew(n).Keys;
    assert Scheduler.Waiting(Fleet(n), mode) == map[];
  }

  const REQUEST := JobScheduler.Request(6, "org/repo/main", Generic, true)
  const PLAN: seq<string> := ["Build"]

  /** After `n` pushes. */
  function Pushed(t: Tables, n: nat): Tables {
    if n == 0 then t else JobScheduler.Schedule(Pushed(t, n - 1), REQUEST, PLAN, 0)
  }

  lemma PushStaysFine(t: Tables)
    requires Fine(t)
    ensures Fine(JobScheduler.Schedule(t, REQUEST, PLAN, 0))
  {
    ScheduleKeepsSound(t, REQUEST, PLAN, 0);
    RunStepCoupling(t, 0, Step.Schedule(REQUEST, PLAN));
  }

  lemma KeySize<K, V>(m: map<K, V>)
    ensures |m| == |m.Keys|
  {
  }

  lemma PushAddsKey(t: Tables, mode: Scheduler.Mode)
    requires Sound(t)
    ensures t.nextRun !in Scheduler.Waiting(t, mode).Keys
    ensures Scheduler.Waiting(JobScheduler.Schedule(t, REQUEST, PLAN, 0), mode).Keys == Scheduler.Waiting(t, mode).Keys + {t.nextRun}
  {
  }

  lemma PushWaits(t: Tables, mode: Scheduler.Mode)
    requires Sound(t)
    ensures |Scheduler.Waiting(JobScheduler.Schedule(t, REQUEST, PLAN, 0), mode)| == |Scheduler.Waiting(t, mode)| + 1
  {
    PushAddsKey(t, mode);
    KeySize(Scheduler.Waiting(t, mode));
    KeySize(Scheduler.Waiting(JobScheduler.Schedule(t, REQUEST, PLAN, 0), mode));
  }

  lemma {:induction false} PushMany(t: Tables, n: nat, mode: Scheduler.Mode)
    requires Fine(t)
    ensures Fine(Pushed(t, n)) && Pushed(t, n).workers == t.workers
    ensures |Scheduler.Waiting(Pushed(t, n), mode)| == |Scheduler.Waiting(t, mode)| + n
  {
    if n > 0 {
      PushMany(t, n - 1, mode);
      PushStaysFine(Pushed(t, n - 1));
      PushWaits(Pushed(t, n - 1), mode);
    }
  }

  /** With everything recent recovery finds nothing to do. */
  lemma NothingToRecover(t: Tables, now: Time, cutoff: Time)
    requires Fine(t) && cutoff <= 0
    ensures Recovery.Recover(t, now, cutoff) == t
  {
    assert Recovery.StaleWorkers(t, cutoff) == {};
    Recovery.ResetNobody(t, WasTimeout, now);
    assert Recovery.Orphans(t, cutoff) == {};
    Recovery.ReclaimNothing(t, now);
  }

  // -------------------------------------------------------------- the ticks

  lemma DispatchedIsFine(t: Tables, q: seq<RunId>, ws: seq<WorkerId>)
    requires Fine(t) && Dispatching(t, q, ws, ZERO)
    ensures Fine(Scheduler.Dispatched(t, q, ws, ZERO))
  {
    var d := Scheduler.Dispatched(t, q, ws, ZERO);
    var es := DispatchSteps(t, [], t, q, ws, ZERO, |q|);
    AllTurns(t, q, ws, ZERO);
    StaysCoupled(t, es, d);
    DispatchedRuns(t, q, ws, ZERO, d);
    DispatchedWorkers(t, q, ws, ZERO, d);
    forall r | r in d.runs
      ensures !d.runs[r].status.Failed? && (d.runs[r].status.InProgress? ==> d.runs[r].startedAt == Some(0))
    {
      if r in q[..|ws|] {
        var k :| 0 <= k < |ws| && q[k] == r;
      }
    }
    forall w | w in d.workers && d.workers[w].status.Busy? ensures d.workers[w].heartbeat == Some(0) {
      if w in ws {
        var k :| 0 <= k < |ws| && ws[k] == w;
      }
    }
  }

  lemma DispatchedWaiting(t: Tables, q: seq<RunId>, ws: seq<WorkerId>, mode: Scheduler.Mode)
    requires Fine(t) && Dispatching(t, q, ws, ZERO) && Members(q) <= Scheduler.Waiting(t, mode).Keys
    ensures |Scheduler.Waiting(Scheduler.Dispatched(t, q, ws, ZERO), mode)| == |Scheduler.Waiting(t, mode)| - |ws|
  {
    var d, served := Scheduler.Dispatched(t, q, ws, ZERO), q[..|ws|];
    ServedRun(t, q, ws);
    SameButServed(t, d, served, mode);
    ServedSize(Scheduler.Waiting(t, mode).Keys, Scheduler.Waiting(d, mode).Keys, served);
    KeySize(Scheduler.Waiting(t, mode));
    KeySize(Scheduler.Waiting(d, mode));
  }

  lemma ServedRun(t: Tables, q: seq<RunId>, ws: seq<WorkerId>)
    requires Fine(t) && Dispatching(t, q, ws, ZERO)
    ensures var d, served := Scheduler.Dispatched(t, q, ws, ZERO), q[..|ws|];
      && d.runs.Keys == t.runs.Keys && |served| == |ws| && Distinct(served) && Members(served) <= Members(q)
      && (forall r | r in served :: d.HasStatus(r, InProgress))
      && (forall r | r in t.runs && r !in served :: d.runs[r] == t.runs[r])
  {
    var d, served := Scheduler.Dispatched(t, q, ws, ZERO), q[..|ws|];
    DispatchedRuns(t, q, ws, ZERO, d);
    forall r | r in served ensures d.HasStatus(r, InProgress) && r in Members(q) {
      var k :| 0 <= k < |ws| && q[k] == r;
    }
  }

  lemma SameButServed(t: Tables, d: Tables, served: seq<RunId>, mode: Scheduler.Mode)
    requires d.runs.Keys == t.runs.Keys
    requires forall r | r in served :: d.HasStatus(r, InProgress)
    requires forall r | r in t.runs && r !in served :: d.runs[r] == t.runs[r]
    ensures Scheduler.Waiting(d, mode).Keys == Scheduler.Waiting(t, mode).Keys - Members(served)
  {
  }

  lemma ServedSize(all: set<nat>, left: set<nat>, gone: seq<nat>)
    requires left == all - Members(gone) && Members(gone) <= all && Distinct(gone)
    ensures |left| == |all| - |gone|
  {
    DistinctSize(gone);
  }

  lemma DispatchedIdle(t: Tables, q: seq<RunId>, ws: seq<WorkerId>)
    requires Fine(t) && Dispatching(t, q, ws, ZERO)
    ensures |IdleWorkers(Scheduler.Dispatched(t, q, ws, ZERO))| == |IdleWorkers(t)| - |ws|
  {
    var d := Scheduler.Dispatched(t, q, ws, ZERO);
    assert IdleWorkers(d) == IdleWorkers(t) - Members(ws);
    ServedSize(IdleWorkers(t), IdleWorkers(d), ws);
  }

  lemma NothingToRetry(t: Tables, now: Time, backoffs: seq<int>)
    requires Fine(t) && backoffs != []
    ensures Scheduler.RetryAll(t, now, backoffs) == t
  {
    assert Scheduler.RetryAll(t, now, backoffs).runs == t.runs;
  }

  /** What a tick leaves of the runs and workers it found. */
  lemma TickCounts(t: Tables, mode: Scheduler.Mode, settings: Scheduler.Settings, retryAt: Time,
                   full: seq<RunId>, q: seq<RunId>, ws: seq<WorkerId>, after: Tables)
    requires Fine(t) && settings.backoffs != []
    requires Scheduler.Ticked(t, mode, settings, ZERO, retryAt, full, q, ws, after)
    ensures Fine(after)
    ensures |Scheduler.Waiting(after, mode)| == |Scheduler.Waiting(t, mode)| - |ws|
    ensures |IdleWorkers(after)| == |IdleWorkers(t)| - |ws|
  {
    Scheduler.SelectedAreQueued(q, full, t, mode, settings.maxConcurrent);
    ListingPrefix(full, Scheduler.Waiting(t, mode), settings.maxConcurrent);
    DispatchedIsFine(t, q, ws);
    DispatchedWaiting(t, q, ws, mode);
    DispatchedIdle(t, q, ws);
    NothingToRetry(Scheduler.Dispatched(t, q, ws, ZERO), retryAt, settings.backoffs);
  }

  function CapSettings(max: nat): Scheduler.Settings {
    Scheduler.Settings(max, [60, 300], 1800)
  }

  /** One tick at time `now` over tables where recovery has nothing to do. */
  lemma TickOver(t: Tables, mode: Scheduler.Mode, max: nat, now: Time) returns (ws: seq<WorkerId>, after: Tables)
    requires Fine(t) && now <= 1800
    ensures Recovery.Recover(t, now, Scheduler.Cutoff(CapSettings(max), now)) == t
    ensures exists full, q :: Scheduler.Ticked(t, mode, CapSettings(max), ZERO, now, full, q, ws, after)
    ensures |ws| == Budget(max, |Scheduler.Waiting(t, mode)|, |IdleWorkers(t)|)
    ensures Fine(after)
    ensures |Scheduler.Waiting(after, mode)| == |Scheduler.Waiting(t, mode)| - |ws|
    ensures |IdleWorkers(after)| == |IdleWorkers(t)| - |ws|
  {
    NothingToRecover(t, now, Scheduler.Cutoff(CapSettings(max), now));
    var full, q;
    full, q, ws, after := TickHappens(t, mode, CapSettings(max), ZERO, now);
    TickSpendsBudget(t, mode, CapSettings(max), ZERO, now, full, q, ws, after);
    TickCounts(t, mode, CapSettings(max), now, full, q, ws, after);
  }

  /** Tables `t` as a tick finds them at time `now`, and what it does to them. */
  ghost predicate TickAt(t: Tables, mode: Scheduler.Mode, max: nat, now: Time, ws: seq<WorkerId>, after: Tables) {
    && Recovery.Recover(t, now, Scheduler.Cutoff(CapSettings(max), now)) == t
    && exists full, q :: Scheduler.Ticked(t, mode, CapSettings(max), ZERO, now, full, q, ws, after)
  }

  /** The history of the threads in such a tick. */
  function TickTrace(t: Tables, mode: Scheduler.Mode, ws: seq<WorkerId>): seq<ThreadStep> {
    [TickStarts(|Scheduler.Waiting(t, mode)|, |IdleWorkers(t)|)] + Times(|ws|, ThreadStarts)
  }

  /** The trace FillTwice is what two ticks do: to a fresh fleet of 2 max - 1
      workers after max - 1 pushes, and to what that leaves after max more.
      They start 2 max - 1 executors, and none of them need have ended. */
  lemma TwoTicksFillTwice(max: nat, mode: Scheduler.Mode)
    returns (t1: Tables, ws1: seq<WorkerId>, after1: Tables, t2: Tables, ws2: seq<WorkerId>, after2: Tables)
    requires max >= 1
    ensures t1 == Pushed(Fleet(2 * max - 1), max - 1) && TickAt(t1, mode, max, 0, ws1, after1)
    ensures t2 == Pushed(after1, max) && TickAt(t2, mode, max, 5, ws2, after2)
    ensures |ws1| == max - 1 && |ws2| == max
    ensures FillTwice(max) == TickTrace(t1, mode, ws1) + [TickEnds] + TickTrace(t2, mode, ws2)
  {
    var crew, few := 2 * max - 1, max - 1;
    FleetIsIdle(crew, mode);
    var fleet := Fleet(crew);
    t1 := Pushed(fleet, few);
    ws1, after1 := PushAndTick(fleet, few, mode, max, 0);
    t2 := Pushed(after1, max);
    ws2, after2 := PushAndTick(after1, max, mode, max, 5);
    SameTrace(max, t1, ws1, t2, ws2, mode);
  }

  lemma PushAndTick(t: Tables, n: nat, mode: Scheduler.Mode, max: nat, now: Time) returns (ws: seq<WorkerId>, after: Tables)
    requires Fine(t) && now <= 1800 && |Scheduler.Waiting(t, mode)| == 0
    ensures var t' := Pushed(t, n);
      && |Scheduler.Waiting(t', mode)| == n && |IdleWorkers(t')| == |IdleWorkers(t)|
      && TickAt(t', mode, max, now, ws, after)
    ensures |ws| == Budget(max, n, |IdleWorkers(t)|)
    ensures Fine(after) && |Scheduler.Waiting(after, mode)| == n - |ws| && |IdleWorkers(after)| == |IdleWorkers(t)| - |ws|
  {
    PushMany(t, n, mode);
    var t' := Pushed(t, n);
    assert IdleWorkers(t') == IdleWorkers(t);
    ws, after := TickOver(t', mode, max, now);
  }

  lemma SameTrace(max: nat, t1: Tables, ws1: seq<WorkerId>, t2: Tables, ws2: seq<WorkerId>, mode: Scheduler.Mode)
    requires max >= 1 && |ws1| == max - 1 && |ws2| == max
    requires |Scheduler.Waiting(t1, mode)| == max - 1 && |IdleWorkers(t1)| == 2 * max - 1
    requires |Scheduler.Waiting(t2, mode)| == max && |IdleWorkers(t2)| == max
    ensures FillTwice(max) == TickTrace(t1, mode, ws1) + [TickEnds] + TickTrace(t2, mode, ws2)
  {
    var b, c, d := Times(max - 1, ThreadStarts), TickStarts(max, max), Times(max, ThreadStarts);
    var a := [TickStarts(max - 1, 2 * max - 1)];
    assert a + b + [TickEnds, c] + d == (a + b) + [TickEnds] + ([c] + d);
  }
}
