/** The cap on in-process execution threads: app/scheduler.py checks the number
    of live threads once, when a tick starts, and then starts up to the cap. */
module ExecutorCap {
  import opened Records
  import WorkerPool
  import Invariants
  import Scheduler

  /** Live execution threads, and what the running tick may still start; ticks
      follow one another in the one loop of main.py. */
  datatype Threads = Threads(live: nat, budget: nat, inTick: bool)

  /** A tick starts with so many runs waiting and so many workers idle. */
  datatype ThreadStep = TickStarts(waiting: nat, idle: nat) | ThreadStarts | TickEnds | ThreadEnds

  const START := Threads(0, 0, false)

  /** How many threads one tick can start: one per run it dispatches. */
  function Budget(max: nat, waiting: nat, idle: nat): nat {
    Scheduler.Min(Scheduler.Min(max, waiting), idle)
  }

  /** That is what a tick of the scheduler comes to. */
  lemma TickSpendsBudget(t: Tables, mode: Scheduler.Mode, settings: Scheduler.Settings, at: Scheduler.Clock, retryAt: Time,
                         full: seq<RunId>, q: seq<RunId>, ws: seq<WorkerId>, after: Tables)
    requires Invariants.Sound(t) && settings.backoffs != []
    requires Scheduler.Ticked(t, mode, settings, at, retryAt, full, q, ws, after)
    ensures |ws| == Budget(settings.maxConcurrent, |Scheduler.Waiting(t, mode)|, |WorkerPool.IdleWorkers(t)|)
    ensures |ws| <= settings.maxConcurrent
  {
    Invariants.TickServesAtMostCap(t, mode, settings, at, retryAt, full, q, ws, after);
  }

  predicate Can(max: nat, s: Threads, step: ThreadStep) {
    match step
    case TickStarts(_, _) => !s.inTick && s.live < max
    case ThreadStarts => s.inTick && s.budget > 0
    case TickEnds => s.inTick
    case ThreadEnds => s.live > 0
  }

  function Do(max: nat, s: Threads, step: ThreadStep): Threads
    requires Can(max, s, step)
  {
    match step
    case TickStarts(waiting, idle) => Threads(s.live, Budget(max, waiting, idle), true)
    case ThreadStarts => Threads(s.live + 1, s.budget - 1, true)
    case TickEnds => Threads(s.live, 0, false)
    case ThreadEnds => s.(live := s.live - 1)
  }

  predicate Allowed(max: nat, s: Threads, steps: seq<ThreadStep>)
    decreases |steps|
  {
    steps == [] || (Can(max, s, steps[0]) && Allowed(max, Do(max, s, steps[0]), steps[1..]))
  }

  function DoAll(max: nat, s: Threads, steps: seq<ThreadStep>): Threads
    requires Allowed(max, s, steps)
    decreases |steps|
  {
    if steps == [] then s else DoAll(max, Do(max, s, steps[0]), steps[1..])
  }

  /** Twice the cap less one, never more. */
  lemma {:induction false} LiveBound(max: nat, s: Threads, steps: seq<ThreadStep>)
    requires max >= 1 && Allowed(max, s, steps)
    requires s.live + s.budget <= 2 * max - 1
    ensures DoAll(max, s, steps).live <= 2 * max - 1
    decreases |steps|
  {
    if steps != [] {
      LiveBound(max, Do(max, s, steps[0]), steps[1..]);
    }
  }

  function Times(n: nat, step: ThreadStep): seq<ThreadStep> {
    if n == 0 then [] else [step] + Times(n - 1, step)
  }

  lemma {:induction false} StartMany(max: nat, s: Threads, n: nat)
    requires s.inTick && s.budget >= n
    ensures Allowed(max, s, Times(n, ThreadStarts))
    ensures DoAll(max, s, Times(n, ThreadStarts)) == Threads(s.live + n, s.budget - n, true)
    decreases n
  {
    if n > 0 {
      StartMany(max, Do(max, s, ThreadStarts), n - 1);
      assert Times(n, ThreadStarts)[1..] == Times(n - 1, ThreadStarts);
    }
  }

  lemma {:induction false} Chain(max: nat, s: Threads, a: seq<ThreadStep>, b: seq<ThreadStep>)
    requires Allowed(max, s, a) && Allowed(max, DoAll(max, s, a), b)
    ensures Allowed(max, s, a + b) && DoAll(max, s, a + b) == DoAll(max, DoAll(max, s, a), b)
    decreases |a|
  {
    if a == [] {
      assert a + b == b;
    } else {
      assert (a + b)[1..] == a[1..] + b;
      Chain(max, Do(max, s, a[0]), a[1..], b);
    }
  }

  /** The trace that fills the cap twice. It takes 2 * max - 1 workers, all idle
      at first: max - 1 runs are waiting at the first tick, max at the second. */
  function FillTwice(max: nat): seq<ThreadStep>
    requires max >= 1
  {
    [TickStarts(max - 1, 2 * max - 1)] + Times(max - 1, ThreadStarts) + [TickEnds, TickStarts(max, max)] + Times(max, ThreadStarts)
  }

  /** The bound is reached: one tick starts all but one of the allowed threads,
      the next one passes the check and starts a full set. */
  lemma BoundIsReached(max: nat)
    requires max >= 1
    ensures Allowed(max, START, FillTwice(max)) && DoAll(max, START, FillTwice(max)).live == 2 * max - 1
  {
    var one := [TickStarts(max - 1, 2 * max - 1)];
    assert one[1..] == [];
    var s1 := Threads(0, max - 1, true);
    assert DoAll(max, START, one) == s1;
    StartMany(max, s1, max - 1);
    Chain(max, START, one, Times(max - 1, ThreadStarts));
    var steps := one + Times(max - 1, ThreadStarts);
    var next := TickStarts(max, max);
    var turn := [TickEnds, next];
    assert turn[1..] == [next] && [next][1..] == [];
    var s2 := Threads(max - 1, max, true);
    assert Allowed(max, Do(max, Threads(max - 1, 0, true), TickEnds), [next]);
    assert DoAll(max, Threads(max - 1, 0, false), [next]) == s2;
    Chain(max, START, steps, turn);
    steps := steps + turn;
    StartMany(max, s2, max);
    Chain(max, START, steps, Times(max, ThreadStarts));
  }

  /** The configured cap holds in every reachable state if and only if it is
      at most one. */
  lemma CapHoldsIff(max: nat)
    ensures (forall steps | Allowed(max, START, steps) :: DoAll(max, START, steps).live <= max) <==> max <= 1
  {
    if max > 1 {
      BoundIsReached(max);
      assert DoAll(max, START, FillTwice(max)).live > max;
    } else if max == 1 {
      forall steps | Allowed(max, START, steps) ensures DoAll(max, START, steps).live <= max {
        LiveBound(max, START, steps);
      }
    } else {
      forall steps | Allowed(max, START, steps) ensures DoAll(max, START, steps).live <= max {
        assert forall step :: !Can(max, START, step);
        assert steps == [];
      }
    }
  }
}
