/** Any number of ticks at once: each claims a run in one transaction, assigns a
    worker in a second and, if nobody was idle, gives the run back in a third.
    Between them every other step of the system may happen. */
module Protocol {
  import opened Records
  import opened Machine
  import opened Invariants
  import opened Coupling
  import JobScheduler
  import Recovery
  import Scheduler
  import WorkerPool

  type TickId = nat

  /** A tick between two of its transactions. */
  datatype Pending = Holding(r: RunId) | Missed(r: RunId)

  datatype System = System(db: Tables, ticks: map<TickId, Pending>)

  datatype Move =
    | TickClaims(tick: TickId, r: RunId)
    | TickAssigns(tick: TickId, language: Language, outcome: WorkerPool.Assigning)
    | TickReverts(tick: TickId)
    | TickDies(tick: TickId)
    | Elsewhere(step: Step)

  predicate CanMove(s: System, m: Move) {
    match m
    case TickClaims(k, r) => k !in s.ticks
    case TickAssigns(k, language, outcome) =>
      k in s.ticks && s.ticks[k].Holding? && WorkerPool.MayEnd(s.db, s.ticks[k].r, language, outcome)
    case TickReverts(k) => k in s.ticks && s.ticks[k].Missed?
    case TickDies(k) => k in s.ticks
    case Elsewhere(step) => Enabled(s.db, step) && !step.Claim? && !step.Assign? && !step.Revert?
  }

  /** The step a move makes on the tables, if it makes one. */
  function StepOf(s: System, m: Move): Option<Step>
    requires CanMove(s, m)
  {
    match m
    case TickClaims(_, r) => Some(Step.Claim(r))
    case TickAssigns(k, language, outcome) => Some(Step.Assign(s.ticks[k].r, language, outcome))
    case TickReverts(k) => Some(Step.Revert(s.ticks[k].r))
    case TickDies(_) => None
    case Elsewhere(step) => Some(step)
  }

  /** A lost claim leaves the tick free; a foreign-key error kills the tick. */
  function TicksAfter(s: System, m: Move): map<TickId, Pending>
    requires CanMove(s, m)
  {
    match m
    case TickClaims(k, r) => if s.db.HasStatus(r, Queued) then s.ticks[k := Holding(r)] else s.ticks
    case TickAssigns(k, _, outcome) => if outcome.NoWorker? then s.ticks[k := Missed(s.ticks[k].r)] else s.ticks - {k}
    case TickReverts(k) => s.ticks - {k}
    case TickDies(k) => s.ticks - {k}
    case Elsewhere(_) => s.ticks
  }

  function Moved(s: System, now: Time, m: Move): System
    requires CanMove(s, m)
  {
    var step := StepOf(s, m);
    System(if step.Some? then Apply(s.db, now, step.value) else s.db, TicksAfter(s, m))
  }

  /** A pending run is running without a row, and no two ticks have the same. */
  ghost predicate PendingAreClaims(s: System) {
    && (forall k | k in s.ticks :: s.db.HasStatus(s.ticks[k].r, InProgress) && NoOpenRowFor(s.db, s.ticks[k].r))
    && (forall k, l | k in s.ticks && l in s.ticks && k != l :: s.ticks[k].r != s.ticks[l].r)
  }

  ghost predicate Consistent(s: System) {
    Sound(s.db) && Coupled(s.db) && PendingAreClaims(s)
  }

  predicate IsPending(s: System, r: RunId) {
    exists k | k in s.ticks :: s.ticks[k].r == r
  }

  /** The conditions on the world outside the ticks, all of which can be looked
      up before the call: a build is not finished or cancelled while a tick is
      about to assign its run, nor if the run had its present worker before;
      recovery does not sweep up a run that a tick is about to assign; a worker
      that still holds a row is not declared idle. Ticks need no condition. */
  ghost predicate Civil(s: System, m: Move) {
    m.Elsewhere? ==>
    match m.step
    case Finish(r, _, _, _) => r in s.db.runs ==> !IsPending(s, r) && FirstPairing(s.db, r)
    case Cancel(r, _, _) => !IsPending(s, r) && (s.db.HasStatus(r, InProgress) ==> FirstPairing(s.db, r))
    case Recover(cutoff) => SweepsNoPending(s, cutoff)
    case GoOnline(w) => NoOpenRowAt(s.db, w)
    case _ => true
  }

  predicate SweepsNoPending(s: System, cutoff: Time) {
    forall k | k in s.ticks && s.ticks[k].r in s.db.runs :: !Recovery.Orphan(s.db.runs[s.ticks[k].r], cutoff)
  }

  /** The same for one outcome of a move, once the database has chosen. */
  predicate CivilOutcome(s: System, m: Move) {
    m.Elsewhere? ==>
    match m.step
    case Finish(r, _, open, close) => !(r in s.db.runs && IsPending(s, r)) && ClosesOpenRow(s.db, open, close)
    case Cancel(r, open, close) => !IsPending(s, r) && ClosesOpenRow(s.db, open, close)
    case Recover(cutoff) => SweepsNoPending(s, cutoff)
    case GoOnline(w) => NoOpenRowAt(s.db, w)
    case _ => true
  }

  /** The same move, up to what the database chooses. */
  predicate SameMove(a: Move, b: Move) {
    match a
    case TickAssigns(k, language, _) => b.TickAssigns? && b.tick == k && b.language == language
    case Elsewhere(step) => b.Elsewhere? && SameCall(step, b.step)
    case _ => b == a
  }

  // -------------------------------------------------------- pending runs

  /** What a step may do to a pending run without hurting its tick. */
  ghost predicate Spared(t: Tables, t': Tables, r: RunId) {
    t'.HasStatus(r, InProgress) && (NoOpenRowFor(t, r) ==> NoOpenRowFor(t', r))
  }

  lemma RecoverSparesIff(t: Tables, r: RunId, now: Time, cutoff: Time)
    requires t.HasStatus(r, InProgress) && NoOpenRowFor(t, r)
    ensures Spared(t, Recovery.Recover(t, now, cutoff), r) <==> !Recovery.Orphan(t.runs[r], cutoff)
  {
    var ids := Recovery.OpenRowsAt(t, Recovery.StaleWorkers(t, cutoff));
    var t1 := Recovery.AfterStale(t, now, cutoff);
    assert r !in Recovery.RunsOf(t, ids) by {
      assert forall i | i in ids :: !t.OpenFor(i, r);
    }
    assert t1.runs[r] == t.runs[r];
    assert NoOpenRowFor(t1, r) by {
      assert forall i | i in t.rows :: !t.OpenFor(i, r);
    }
    assert forall i | i in t1.rows :: !t1.OpenFor(i, r);
  }

  lemma ElsewhereSparesIff(s: System, now: Time, step: Step)
    requires Consistent(s) && CanMove(s, Elsewhere(step))
    requires Harmless(s.db, step)
    ensures (forall k | k in s.ticks :: Spared(s.db, Apply(s.db, now, step), s.ticks[k].r)) <==> CivilOutcome(s, Elsewhere(step))
  {
    var t' := Apply(s.db, now, step);
    if step.Recover? {
      forall k | k in s.ticks
        ensures Spared(s.db, t', s.ticks[k].r) <==> !Recovery.Orphan(s.db.runs[s.ticks[k].r], step.cutoff)
      {
        RecoverSparesIff(s.db, s.ticks[k].r, now, step.cutoff);
      }
    } else {
      forall k | k in s.ticks
        ensures Spared(s.db, t', s.ticks[k].r) <==> !((step.Finish? || step.Cancel?) && step.r == s.ticks[k].r)
      {
        SpareOne(s.db, now, step, s.ticks[k].r);
      }
    }
  }

  lemma ResetSpares(t: Tables, w: WorkerId, r: RunId, now: Time)
    requires t.HasStatus(r, InProgress) && NoOpenRowFor(t, r)
    ensures Spared(t, Recovery.ResetWorkers(t, {w}, WasManualReset, now), r)
  {
    var t', ids := Recovery.ResetWorkers(t, {w}, WasManualReset, now), Recovery.OpenRowsAt(t, {w});
    assert forall i | i in t.rows :: !t.OpenFor(i, r);
    assert r !in Recovery.RunsOf(t, ids);
    assert forall i | i in t'.rows :: !t'.OpenFor(i, r);
  }

  lemma FinishSparesIff(t: Tables, r: RunId, result: JenkinsResult, open: Option<RowId>, close: Option<RowId>, now: Time, held: RunId)
    requires Coupled(t) && JobScheduler.MayFinish(t, r, open, close)
    requires t.HasStatus(held, InProgress) && NoOpenRowFor(t, held)
    ensures Spared(t, JobScheduler.FinishBuild(t, r, result, open, close, now), held) <==> held != r
  {
    var t' := JobScheduler.FinishBuild(t, r, result, open, close, now);
    assert forall i | i in t.rows :: !t.OpenFor(i, held);
    assert forall i | i in t'.rows :: !t'.OpenFor(i, held);
  }

  lemma SpareOne(t: Tables, now: Time, step: Step, r: RunId)
    requires Sound(t) && Coupled(t) && Enabled(t, step)
    requires !step.Recover? && !step.Claim? && !step.Assign? && !step.Revert?
    requires t.HasStatus(r, InProgress) && NoOpenRowFor(t, r)
    ensures Spared(t, Apply(t, now, step), r) <==> !((step.Finish? || step.Cancel?) && step.r == r)
  {
    if step.Reset? {
      ResetSpares(t, step.w, r, now);
    } else if step.Finish? {
      FinishSparesIff(t, step.r, step.result, step.open, step.close, now, r);
    } else if step.Cancel? && t.HasStatus(step.r, InProgress) {
      FinishSparesIff(t, step.r, ABORTED, step.open, step.close, now, r);
    } else if step.Start? {
      var t' := Apply(t, now, step);
      assert forall i | i in t.rows :: !t.OpenFor(i, r);
      assert forall i | i in t'.rows :: !t'.OpenFor(i, r);
    } else {
      QuietSpares(t, now, step, r);
    }
  }

  lemma QuietSpares(t: Tables, now: Time, step: Step, r: RunId)
    requires Sound(t) && Enabled(t, step)
    requires step.Schedule? || step.OnStage? || step.RetryDue? || step.RetryByHand? || step.Flush?
      || step.GoOffline? || step.GoOnline? || (step.Cancel? && !t.HasStatus(step.r, InProgress))
    requires t.HasStatus(r, InProgress) && NoOpenRowFor(t, r)
    ensures Spared(t, Apply(t, now, step), r)
  {
    var t' := Apply(t, now, step);
    assert t'.rows.Keys <= t.rows.Keys;
    assert forall i | i in t'.rows :: t'.rows[i] == t.rows[i] && !t.OpenFor(i, r);
  }

  // ----------------------------------------------------------- every move

  lemma ClaimLeavesPending(s: System, now: Time, r: RunId)
    requires Consistent(s) && s.db.HasStatus(r, Queued)
    ensures var t' := Scheduler.Claim(s.db, r, now);
      && t'.HasStatus(r, InProgress) && NoOpenRowFor(t', r)
      && forall l | l in s.ticks :: t'.HasStatus(s.ticks[l].r, InProgress) && NoOpenRowFor(t', s.ticks[l].r) && s.ticks[l].r != r
  {
    var t, t' := s.db, Scheduler.Claim(s.db, r, now);
    assert t'.rows == t.rows;
    assert forall i | i in t.rows && t.rows[i].Open() :: t.HasStatus(t.rows[i].run, InProgress);
    forall l | l in s.ticks ensures t'.HasStatus(s.ticks[l].r, InProgress) && NoOpenRowFor(t', s.ticks[l].r) && s.ticks[l].r != r {
      assert forall i | i in t.rows :: !t.OpenFor(i, s.ticks[l].r);
    }
  }

  lemma ClaimMove(s: System, now: Time, k: TickId, r: RunId)
    requires Consistent(s) && k !in s.ticks
    ensures Consistent(Moved(s, now, TickClaims(k, r)))
  {
    StepKeepsSound(s.db, now, Step.Claim(r));
    OutcomeKeepsCouplingIff(s.db, now, Step.Claim(r));
    if s.db.HasStatus(r, Queued) {
      ClaimLeavesPending(s, now, r);
    }
  }

  lemma AssignMove(s: System, now: Time, k: TickId, language: Language, outcome: WorkerPool.Assigning)
    requires Consistent(s) && CanMove(s, TickAssigns(k, language, outcome))
    ensures Consistent(Moved(s, now, TickAssigns(k, language, outcome)))
  {
    var t, r := s.db, s.ticks[k].r;
    var t' := WorkerPool.Assign(t, r, outcome, now);
    StepKeepsSound(t, now, Step.Assign(r, language, outcome));
    OutcomeKeepsCouplingIff(t, now, Step.Assign(r, language, outcome));
    forall l | l in s.ticks && (outcome.NoWorker? || l != k)
      ensures t'.HasStatus(s.ticks[l].r, InProgress) && NoOpenRowFor(t', s.ticks[l].r)
    {
      assert forall i | i in t.rows :: !t.OpenFor(i, s.ticks[l].r);
    }
  }

  lemma RevertMove(s: System, now: Time, k: TickId)
    requires Consistent(s) && CanMove(s, TickReverts(k))
    ensures Consistent(Moved(s, now, TickReverts(k)))
  {
    var t, r := s.db, s.ticks[k].r;
    var t' := Scheduler.Revert(t, r);
    StepKeepsSound(t, now, Step.Revert(r));
    OutcomeKeepsCouplingIff(t, now, Step.Revert(r));
    forall l | l in s.ticks && l != k
      ensures t'.HasStatus(s.ticks[l].r, InProgress) && NoOpenRowFor(t', s.ticks[l].r)
    {
      assert forall i | i in t.rows :: !t.OpenFor(i, s.ticks[l].r);
    }
  }

  lemma ElsewhereMove(s: System, now: Time, step: Step)
    requires Consistent(s) && CanMove(s, Elsewhere(step))
    ensures Consistent(Moved(s, now, Elsewhere(step))) <==> CivilOutcome(s, Elsewhere(step))
  {
    StepKeepsSound(s.db, now, step);
    OutcomeKeepsCouplingIff(s.db, now, step);
    if Harmless(s.db, step) {
      ElsewhereSparesIff(s, now, step);
    }
  }

  /** One outcome of a move keeps the system consistent if and only if it is civil. */
  lemma OutcomeKeepsConsistentIff(s: System, now: Time, m: Move)
    requires Consistent(s) && CanMove(s, m)
    ensures Consistent(Moved(s, now, m)) <==> CivilOutcome(s, m)
  {
    match m
    case TickClaims(k, r) => ClaimMove(s, now, k, r);
    case TickAssigns(k, language, outcome) => AssignMove(s, now, k, language, outcome);
    case TickReverts(k) => RevertMove(s, now, k);
    case TickDies(k) =>
    case Elsewhere(step) => ElsewhereMove(s, now, step);
  }

  lemma CivilMakesCivilOutcome(s: System, m: Move)
    requires Consistent(s) && CanMove(s, m) && Civil(s, m)
    ensures CivilOutcome(s, m)
  {
    if m.Elsewhere? {
      assert Guard(s.db, m.step);
      GuardMakesHarmless(s.db, m.step);
    }
  }

  lemma UncivilOutcome(s: System, m: Move) returns (m': Move)
    requires Consistent(s) && CanMove(s, m) && !Civil(s, m)
    ensures SameMove(m, m') && CanMove(s, m') && !CivilOutcome(s, m')
  {
    m' := m;
    if !Guard(s.db, m.step) {
      var step := HarmfulOutcome(s.db, m.step);
      m' := Elsewhere(step);
    }
  }

  /** Under any interleaving, and whatever the database chooses, a move keeps
      the system consistent if and only if it is civil. */
  lemma MoveKeepsConsistentIff(s: System, now: Time, m: Move)
    requires Consistent(s) && CanMove(s, m)
    ensures (forall o | SameMove(m, o) && CanMove(s, o) :: Consistent(Moved(s, now, o))) <==> Civil(s, m)
  {
    forall o | SameMove(m, o) && CanMove(s, o)
      ensures Consistent(Moved(s, now, o)) <==> CivilOutcome(s, o)
      ensures Civil(s, m) ==> CivilOutcome(s, o)
    {
      OutcomeKeepsConsistentIff(s, now, o);
      if Civil(s, m) {
        assert Civil(s, o);
        CivilMakesCivilOutcome(s, o);
      }
    }
    if !Civil(s, m) {
      var o := UncivilOutcome(s, m);
    }
  }

  datatype Occurrence = Occurrence(now: Time, move: Move)

  ghost predicate CivilHistory(s: System, h: seq<Occurrence>)
    decreases |h|
  {
    h == [] ||
    (CanMove(s, h[0].move) && Civil(s, h[0].move) && CivilHistory(Moved(s, h[0].now, h[0].move), h[1..]))
  }

  ghost function Outcome(s: System, h: seq<Occurrence>): System
    requires CivilHistory(s, h)
    decreases |h|
  {
    if h == [] then s else Outcome(Moved(s, h[0].now, h[0].move), h[1..])
  }

  lemma {:induction false} HistoryKeepsConsistent(s: System, h: seq<Occurrence>)
    requires Consistent(s) && CivilHistory(s, h)
    ensures Consistent(Outcome(s, h))
    decreases |h|
  {
    if h != [] {
      CivilMakesCivilOutcome(s, h[0].move);
      OutcomeKeepsConsistentIff(s, h[0].now, h[0].move);
      HistoryKeepsConsistent(Moved(s, h[0].now, h[0].move), h[1..]);
    }
  }

  /** Safety of the dispatch protocol: in a civil world, however many ticks run
      at once, the tables stay coupled, no two ticks ever hold the same run, and
      whatever a tick does next meets the guard its code does not check. */
  lemma TicksAreSafe(t0: Tables, h: seq<Occurrence>)
    requires Fresh(t0) && CivilHistory(System(t0, map[]), h)
    ensures var s := Outcome(System(t0, map[]), h);
      && Coupled(s.db)
      && (forall k, l | k in s.ticks && l in s.ticks && k != l :: s.ticks[k].r != s.ticks[l].r)
      && (forall k, language, outcome | CanMove(s, TickAssigns(k, language, outcome)) ::
            Guard(s.db, Step.Assign(s.ticks[k].r, language, outcome)))
      && (forall k | CanMove(s, TickReverts(k)) ::
            Guard(s.db, Step.Revert(s.ticks[k].r)) && s.db.HasStatus(s.ticks[k].r, InProgress))
  {
    HistoryKeepsConsistent(System(t0, map[]), h);
  }
}
