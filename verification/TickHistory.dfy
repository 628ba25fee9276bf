/** The tick as a history: what the loop methods of Scheduler do in one go is
    what a sequence of machine steps does, and each of these steps meets the
    guard that the code does not check. */
module TickHistory {
  import opened Records
  import opened Queries
  import opened WorkerPool
  import opened Machine
  import opened Invariants
  import opened Coupling
  import Recovery
  import Scheduler

  ghost predicate Reaches(t: Tables, es: seq<Event>, d: Tables) {
    Possible(t, es) && Guarded(t, es) && After(t, es) == d
  }

  lemma {:induction false} GuardedAppend(t: Tables, es: seq<Event>, e: Event)
    requires Possible(t, es) && Guarded(t, es)
    requires Enabled(After(t, es), e.step) && Guard(After(t, es), e.step)
    ensures Possible(t, es + [e]) && Guarded(t, es + [e])
    decreases |es|
  {
    Append(t, es, e);
    if es == [] {
      assert [e][1..] == [];
      assert es + [e] == [e];
    } else {
      assert (es + [e])[1..] == es[1..] + [e];
      GuardedAppend(Apply(t, es[0].now, es[0].step), es[1..], e);
    }
  }

  lemma OneMore(t: Tables, es: seq<Event>, d: Tables, now: Time, step: Step) returns (es': seq<Event>)
    requires Reaches(t, es, d) && Enabled(d, step) && Guard(d, step)
    ensures Reaches(t, es', Apply(d, now, step))
  {
    var e := Event(now, step);
    GuardedAppend(t, es, e);
    Append(t, es, e);
    es' := es + [e];
  }

  /** A queued run holds nothing, so its tick may assign it or give it back. */
  lemma ClaimedHoldsNothing(d: Tables, r: RunId, now: Time)
    requires Coupled(d) && d.HasStatus(r, Queued)
    ensures var c := Scheduler.Claim(d, r, now); c.HasStatus(r, InProgress) && NoOpenRowFor(c, r)
  {
    assert forall i | i in d.rows && d.rows[i].Open() :: d.HasStatus(d.rows[i].run, InProgress);
  }

  lemma SameCandidates(d: Tables, r: RunId, language: Language, w: WorkerId, now: Time)
    requires MayServe(d, language, w)
    ensures MayServe(Scheduler.Claim(d, r, now), language, w)
  {
    assert IdleWorkers(Scheduler.Claim(d, r, now)) == IdleWorkers(d);
    assert Candidates(Scheduler.Claim(d, r, now), language) == Candidates(d, language);
  }

  lemma ServeSteps(t: Tables, es: seq<Event>, d: Tables, r: RunId, w: WorkerId, at: Scheduler.Clock) returns (es': seq<Event>)
    requires Coupled(d) && Reaches(t, es, d)
    requires d.HasStatus(r, Queued) && MayServe(d, d.runs[r].language, w)
    ensures w in d.workers && Reaches(t, es', Occupy(Scheduler.Claim(d, r, at.claim(r)), r, w, at.assign(w)))
  {
    var c := Scheduler.Claim(d, r, at.claim(r));
    ClaimedHoldsNothing(d, r, at.claim(r));
    SameCandidates(d, r, d.runs[r].language, w, at.claim(r));
    es' := OneMore(t, es, d, at.claim(r), Step.Claim(r));
    es' := OneMore(t, es', c, at.assign(w), Step.Assign(r, d.runs[r].language, Serving(w)));
  }

  lemma MissSteps(t: Tables, es: seq<Event>, d: Tables, r: RunId, at: Scheduler.Clock) returns (es': seq<Event>)
    requires Coupled(d) && Reaches(t, es, d)
    requires d.HasStatus(r, Queued) && IdleWorkers(d) == {}
    ensures Reaches(t, es', Scheduler.Revert(Scheduler.Claim(d, r, at.claim(r)), r))
  {
    var c := Scheduler.Claim(d, r, at.claim(r));
    ClaimedHoldsNothing(d, r, at.claim(r));
    assert IdleWorkers(c) == IdleWorkers(d);
    es' := OneMore(t, es, d, at.claim(r), Step.Claim(r));
    es' := OneMore(t, es', c, at.claim(r), Step.Assign(r, c.runs[r].language, NoWorker));
    es' := OneMore(t, es', c, at.claim(r), Step.Revert(r));
  }

  lemma {:induction false} PreferredAt(t: Tables, q: seq<RunId>, ws: seq<WorkerId>, at: Scheduler.Clock, k: nat)
    requires k < |ws| <= |q| && Scheduler.EachPreferred(t, q, ws, at)
    ensures q[k] in t.runs && MayServe(Scheduler.Dispatched(t, q[..k], ws[..k], at), t.runs[q[k]].language, ws[k])
  {
    var n := |ws| - 1;
    if k < n {
      PreferredAt(t, q, ws[..n], at, k);
      assert ws[..n][..k] == ws[..k];
    }
  }

  /** `ws` are the workers found by a dispatch over `q`. */
  ghost predicate Dispatching(t: Tables, q: seq<RunId>, ws: seq<WorkerId>, at: Scheduler.Clock) {
    Scheduler.AllQueued(t, q) && |ws| <= |q| && Scheduler.DispatchOutcome(t, q, ws, at, Scheduler.Dispatched(t, q, ws, at))
  }

  /** The tables after the first `k` turns of the dispatch. */
  function Turn(t: Tables, q: seq<RunId>, ws: seq<WorkerId>, at: Scheduler.Clock, k: nat): Tables
    requires |ws| <= |q| && k <= |q|
  {
    Scheduler.Dispatched(t, q[..k], ws[..Scheduler.Min(k, |ws|)], at)
  }

  /** All idle workers are taken once fewer were found than runs. */
  lemma NobodyLeft(t: Tables, q: seq<RunId>, ws: seq<WorkerId>, at: Scheduler.Clock, k: nat)
    requires Dispatching(t, q, ws, at) && |ws| <= k < |q|
    ensures IdleWorkers(Turn(t, q, ws, at, k)) == {}
  {
    assert ws[..Scheduler.Min(k, |ws|)] == ws;
    DistinctSize(ws);
    SameSize(Members(ws), IdleWorkers(t));
    assert forall w | w in t.workers && t.workers[w].status.Idle? :: w in IdleWorkers(t) && w in Members(ws);
  }

  lemma SameSize(a: set<WorkerId>, b: set<WorkerId>)
    requires a <= b && |a| == |b|
    ensures a == b
  {
    assert b == a + (b - a);
  }

  lemma NextRun(t: Tables, q: seq<RunId>, ws: seq<WorkerId>, at: Scheduler.Clock, k: nat)
    requires Dispatching(t, q, ws, at) && k < |q|
    ensures var r := q[k];
      q[..k + 1] == q[..k] + [r] && r !in q[..k] && t.HasStatus(r, Queued) && Turn(t, q, ws, at, k).runs[r] == t.runs[r]
  {
  }

  lemma NextWorker(t: Tables, q: seq<RunId>, ws: seq<WorkerId>, at: Scheduler.Clock, k: nat)
    requires Dispatching(t, q, ws, at) && k < |ws|
    ensures ws[..k + 1] == ws[..k] + [ws[k]] && ws[k] !in ws[..k] && ws[k] in t.workers
  {
    assert ws[k] in Members(ws);
  }

  lemma ServedTurn(t: Tables, q: seq<RunId>, ws: seq<WorkerId>, at: Scheduler.Clock, k: nat)
    requires Dispatching(t, q, ws, at) && k < |ws|
    ensures var d, r := Turn(t, q, ws, at, k), q[k];
      && d.HasStatus(r, Queued) && MayServe(d, d.runs[r].language, ws[k])
      && Occupy(Scheduler.Claim(d, r, at.claim(r)), r, ws[k], at.assign(ws[k])) == Turn(t, q, ws, at, k + 1)
  {
    NextRun(t, q, ws, at, k);
    NextWorker(t, q, ws, at, k);
    PreferredAt(t, q, ws, at, k);
    var done, got, r, w := q[..k], ws[..k], q[k], ws[k];
    Scheduler.DispatchServes(t, done, got, r, w, at);
  }

  lemma MissedTurn(t: Tables, q: seq<RunId>, ws: seq<WorkerId>, at: Scheduler.Clock, k: nat)
    requires Dispatching(t, q, ws, at) && |ws| <= k < |q|
    ensures var d, r := Turn(t, q, ws, at, k), q[k];
      && d.HasStatus(r, Queued) && IdleWorkers(d) == {}
      && Scheduler.Revert(Scheduler.Claim(d, r, at.claim(r)), r) == Turn(t, q, ws, at, k + 1)
  {
    NextRun(t, q, ws, at, k);
    NobodyLeft(t, q, ws, at, k);
    assert ws[..Scheduler.Min(k, |ws|)] == ws && ws[..Scheduler.Min(k + 1, |ws|)] == ws;
    Scheduler.DispatchMisses(t, q[..k], ws, q[k], at);
  }

  lemma NextTurn(t0: Tables, es: seq<Event>, t: Tables, q: seq<RunId>, ws: seq<WorkerId>, at: Scheduler.Clock, k: nat) returns (es': seq<Event>)
    requires Dispatching(t, q, ws, at) && k < |q|
    requires Coupled(Turn(t, q, ws, at, k)) && Reaches(t0, es, Turn(t, q, ws, at, k))
    ensures Reaches(t0, es', Turn(t, q, ws, at, k + 1))
  {
    var d := Turn(t, q, ws, at, k);
    if k < |ws| {
      ServedTurn(t, q, ws, at, k);
      es' := ServeSteps(t0, es, d, q[k], ws[k], at);
    } else {
      MissedTurn(t, q, ws, at, k);
      es' := MissSteps(t0, es, d, q[k], at);
    }
  }

  lemma StaysCoupled(t0: Tables, es: seq<Event>, d: Tables)
    requires Sound(t0) && Coupled(t0) && Reaches(t0, es, d)
    ensures Sound(d) && Coupled(d)
  {
    AlwaysCoupled(t0, es);
  }

  /** The first `k` turns of the dispatch loop as steps. */
  lemma {:induction false} DispatchSteps(t0: Tables, es0: seq<Event>, t: Tables, q: seq<RunId>, ws: seq<WorkerId>, at: Scheduler.Clock, k: nat)
    returns (es: seq<Event>)
    requires Sound(t0) && Coupled(t0) && Reaches(t0, es0, t)
    requires Dispatching(t, q, ws, at) && k <= |q|
    ensures Reaches(t0, es, Turn(t, q, ws, at, k))
    decreases k
  {
    if k == 0 {
      Scheduler.DispatchNothing(t, at);
      assert q[..0] == [] && ws[..0] == [];
      es := es0;
    } else {
      es := DispatchSteps(t0, es0, t, q, ws, at, k - 1);
      StaysCoupled(t0, es, Turn(t, q, ws, at, k - 1));
      es := NextTurn(t0, es, t, q, ws, at, k - 1);
    }
  }

  lemma AllTurns(t: Tables, q: seq<RunId>, ws: seq<WorkerId>, at: Scheduler.Clock)
    requires |ws| <= |q|
    ensures Turn(t, q, ws, at, |q|) == Scheduler.Dispatched(t, q, ws, at)
  {
    assert q[..|q|] == q && ws[..Scheduler.Min(|q|, |ws|)] == ws;
  }

  lemma RecoverStep(t0: Tables, now: Time, cutoff: Time) returns (es: seq<Event>)
    ensures Reaches(t0, es, Recovery.Recover(t0, now, cutoff))
  {
    es := OneMore(t0, [], t0, now, Step.Recover(cutoff));
  }

  /** An undisturbed tick over sound, coupled tables is a history of guarded
      steps, so it leaves them sound and coupled. */
  lemma TickIsGuardedHistory(t0: Tables, mode: Scheduler.Mode, settings: Scheduler.Settings, now: Time, at: Scheduler.Clock, retryAt: Time,
                             full: seq<RunId>, q: seq<RunId>, ws: seq<WorkerId>, after: Tables)
    returns (es: seq<Event>)
    requires Sound(t0) && Coupled(t0) && settings.backoffs != []
    requires var t := Recovery.Recover(t0, now, Scheduler.Cutoff(settings, now));
      Scheduler.Ticked(t, mode, settings, at, retryAt, full, q, ws, after)
    ensures Reaches(t0, es, after) && Sound(after) && Coupled(after)
  {
    var cutoff := Scheduler.Cutoff(settings, now);
    var t := Recovery.Recover(t0, now, cutoff);
    Scheduler.SelectedAreQueued(q, full, t, mode, settings.maxConcurrent);
    es := RecoverStep(t0, now, cutoff);
    es := DispatchSteps(t0, es, t, q, ws, at, |q|);
    AllTurns(t, q, ws, at);
    es := OneMore(t0, es, Scheduler.Dispatched(t, q, ws, at), retryAt, Step.RetryDue(settings.backoffs));
    StaysCoupled(t0, es, after);
  }
}
