/** `_run_execution` of app/scheduler.py: trigger a build, poll it at most 120
    times, and make sure the run does not stay in progress. */
module Executor {
  import opened Records
  import opened Database
  import opened Invariants
  import opened Coupling
  import opened PipelineTasks
  import JobScheduler
  import Loopholes

  const MAX_POLLS: nat := 120

  /** The first of the polls from `n` on that brings a final build status. */
  function FirstTerminal(polls: nat -> Poll, n: nat): (at: nat)
    requires n <= MAX_POLLS
    ensures n <= at <= MAX_POLLS
    ensures forall k | n <= k < at :: !Terminal(polls(k))
    ensures at < MAX_POLLS ==> Terminal(polls(at))
    decreases MAX_POLLS - n
  {
    if n == MAX_POLLS || Terminal(polls(n)) then n else FirstTerminal(polls, n + 1)
  }

  /** The result that an existing run gets if nobody else touches it: the first
      final status Jenkins reports in time, FAILURE otherwise. */
  function FinalResult(run: Run, triggered: bool, polls: nat -> Poll): JenkinsResult {
    if run.jobName == "" || !triggered then FAILURE
    else
      var at := FirstTerminal(polls, 0);
      if at < MAX_POLLS then polls(at).status else FAILURE
  }

  /** The poll reports one of the four final build statuses. */
  predicate ReportsEnd(p: Poll) {
    p.Report? && (p.status == SUCCESS || p.status == FAILURE || p.status == ABORTED || p.status == UNSTABLE)
  }

  /** Poll `k` is the first that does. */
  predicate EndsAt(polls: nat -> Poll, k: nat) {
    ReportsEnd(polls(k)) && forall j | 0 <= j < k :: !ReportsEnd(polls(j))
  }

  /** Of 120 polls: the first final report decides; without one, without a job
      name or without a trigger the run fails. */
  lemma FinalResultMeans(run: Run, triggered: bool, polls: nat -> Poll)
    ensures forall k | 0 <= k < 120 && EndsAt(polls, k) && run.jobName != "" && triggered ::
      FinalResult(run, triggered, polls) == polls(k).status
    ensures run.jobName == "" || !triggered || (forall k | 0 <= k < 120 :: !ReportsEnd(polls(k))) ==>
      FinalResult(run, triggered, polls) == FAILURE
    ensures FirstTerminal(polls, 0) < 120 <==> exists k :: 0 <= k < 120 && EndsAt(polls, k)
  {
    var at := FirstTerminal(polls, 0);
    forall k ensures Terminal(polls(k)) <==> ReportsEnd(polls(k)) {
    }
    if at < 120 {
      assert EndsAt(polls, at);
    }
    forall k | 0 <= k < 120 && EndsAt(polls, k) ensures at == k {
      assert at < k ==> !ReportsEnd(polls(at));
    }
  }

  /** The run is settled. If the tables were coupled its worker is idle; if the
      run also had no earlier row with that worker, they still are coupled and
      the run has no open row. */
  ghost predicate Settled(t: Tables, d: Tables, r: RunId, result: JenkinsResult) {
    && d.HasStatus(r, JobScheduler.Verdict(result)) && d.runs[r].result == Some(result)
    && !d.HasStatus(r, Queued) && !d.HasStatus(r, InProgress)
    && (Coupled(t) ==>
          forall i | t.OpenFor(i, r) :: t.rows[i].worker in d.workers && d.workers[t.rows[i].worker].status.Idle?)
    && (Coupled(t) && FirstPairing(t, r) ==> Coupled(d) && NoOpenRowFor(d, r))
  }

  /** The build number and URL are as they were. */
  predicate SameBuild(t: Tables, d: Tables, r: RunId) {
    r in t.runs && r in d.runs && d.runs[r].buildNumber == t.runs[r].buildNumber && d.runs[r].buildUrl == t.runs[r].buildUrl
  }

  lemma FinishSettles(t: Tables, r: RunId, result: JenkinsResult, open: Option<RowId>, close: Option<RowId>, now: Time)
    requires Sound(t) && r in t.runs && JobScheduler.MayFinish(t, r, open, close)
    ensures Settled(t, JobScheduler.FinishBuild(t, r, result, open, close, now), r, result)
    ensures SameBuild(t, JobScheduler.FinishBuild(t, r, result, open, close, now), r)
  {
    var d := JobScheduler.FinishBuild(t, r, result, open, close, now);
    assert open.Some? ==> RowSound(t, open.value);
    if Coupled(t) {
      assert forall i: RowId | t.OpenFor(i, r) :: open == Some(i);
      if FirstPairing(t, r) {
        Loopholes.ReleaseIsSafeIff(t, r, result, now);
        assert Coupled(d) && !d.HasStatus(r, InProgress);
        assert NoOpenRowFor(d, r);
      }
    }
  }

  /** Starting a build and storing stages does not change who holds what. */
  lemma StagesKeepHolding(t: Tables, d: Tables, r: RunId)
    requires OnlyStagesDiffer(t, d, r)
    ensures Coupled(t) ==> Coupled(d)
    ensures FirstPairing(t, r) ==> FirstPairing(d, r)
    ensures forall i :: t.OpenFor(i, r) <==> d.OpenFor(i, r)
  {
    if Coupled(t) {
      RunsMove(t, d);
    }
    if FirstPairing(t, r) {
      forall i, j | d.OpenFor(i, r) && j in d.rows && d.Pairs(j, r, d.rows[i].worker) ensures j == i {
        assert t.OpenFor(i, r) && t.Pairs(j, r, t.rows[i].worker);
      }
    }
  }

  lemma SettledThroughStages(t: Tables, d: Tables, d': Tables, r: RunId, result: JenkinsResult)
    requires OnlyStagesDiffer(t, d, r) && Settled(d, d', r, result)
    ensures Settled(t, d', r, result)
  {
    StagesKeepHolding(t, d, r);
    assert forall i :: t.OpenFor(i, r) ==> d.OpenFor(i, r);
  }

  lemma StartKeepsHolding(t: Tables, r: RunId, number: int, url: string, pick: Option<RowId>, now: Time)
    requires JobScheduler.MayBeOpen(t, r, pick)
    ensures var d := JobScheduler.StartBuild(t, r, number, url, pick, now);
      && (Coupled(t) ==> Coupled(d))
      && (FirstPairing(t, r) ==> FirstPairing(d, r))
      && (forall i :: t.OpenFor(i, r) <==> d.OpenFor(i, r))
      && (forall i | t.OpenFor(i, r) :: d.rows[i].worker == t.rows[i].worker)
  {
    var d := JobScheduler.StartBuild(t, r, number, url, pick, now);
    if Coupled(t) {
      StartCoupling(t, r, number, url, pick, now);
    }
    assert d.rows.Keys == t.rows.Keys;
    assert forall i | i in t.rows :: d.rows[i].run == t.rows[i].run && d.rows[i].worker == t.rows[i].worker && d.rows[i].Open() == t.rows[i].Open();
    if FirstPairing(t, r) {
      forall i, j | d.OpenFor(i, r) && j in d.rows && d.Pairs(j, r, d.rows[i].worker) ensures j == i {
        assert t.OpenFor(i, r) && t.Pairs(j, r, t.rows[i].worker);
      }
    }
  }

  lemma SettledThroughStart(t: Tables, r: RunId, number: int, url: string, pick: Option<RowId>, now: Time, d': Tables, result: JenkinsResult)
    requires JobScheduler.MayBeOpen(t, r, pick)
    requires Settled(JobScheduler.StartBuild(t, r, number, url, pick, now), d', r, result)
    ensures Settled(t, d', r, result)
  {
    StartKeepsHolding(t, r, number, url, pick, now);
  }

  /** One completion with FAILURE, as in the early exits and at the very end. */
  method Fail(db: Session, r: RunId, now: Time)
    requires Sound(db.Contents()) && r in db.runs
    modifies db
    ensures Settled(old(db.Contents()), db.Contents(), r, FAILURE)
    ensures SameBuild(old(db.Contents()), db.Contents(), r)
  {
    ghost var t := db.Contents();
    var i, j := JobScheduler.OnBuildCompleted(db, r, FAILURE, now);
    FinishSettles(t, r, FAILURE, i, j, now);
  }

  /** The poll loop. True: a final status was seen and the run is settled. */
  method PollUntilDone(db: Session, r: RunId, polls: nat -> Poll, clock: nat -> Time)
    returns (done: bool, syncs: nat)
    requires Sound(db.Contents()) && db.Contents().HasStatus(r, InProgress)
    modifies db
    ensures done <==> FirstTerminal(polls, 0) < MAX_POLLS
    ensures syncs == if done then FirstTerminal(polls, 0) + 1 else MAX_POLLS
    ensures done ==> Settled(old(db.Contents()), db.Contents(), r, polls(FirstTerminal(polls, 0)).status)
    ensures !done ==> Sound(db.Contents()) && OnlyStagesDiffer(old(db.Contents()), db.Contents(), r)
    ensures SameBuild(old(db.Contents()), db.Contents(), r)
  {
    ghost var t := db.Contents();
    syncs := 0;
    while syncs < MAX_POLLS
      invariant syncs <= MAX_POLLS
      invariant FirstTerminal(polls, 0) == FirstTerminal(polls, syncs)
      invariant Sound(db.Contents()) && OnlyStagesDiffer(t, db.Contents(), r)
    {
      var end := SyncAgain(db, r, polls(syncs), clock(syncs), t);
      syncs := syncs + 1;
      if end.Done? {
        return true, syncs;
      }
    }
    return false, syncs;
  }

  lemma StagesAgain(t: Tables, d: Tables, d': Tables, r: RunId)
    requires OnlyStagesDiffer(t, d, r) && OnlyStagesDiffer(d, d', r)
    ensures OnlyStagesDiffer(t, d', r)
  {
  }

  method SyncOnce(db: Session, r: RunId, p: Poll, now: Time) returns (end: Synced)
    requires Sound(db.Contents()) && r in db.runs
    modifies db
    ensures end.Done? <==> Terminal(p)
    ensures end.Done? ==> Settled(old(db.Contents()), db.Contents(), r, p.status)
    ensures !end.Done? ==> Sound(db.Contents()) && OnlyStagesDiffer(old(db.Contents()), db.Contents(), r)
    ensures SameBuild(old(db.Contents()), db.Contents(), r)
  {
    ghost var t := db.Contents();
    ghost var open, close;
    end, open, close := SyncStages(db, r, p, now);
    if !p.NoReport? {
      EntriesTouchStages(t, r, p.stages, now);
      if Terminal(p) {
        ghost var d := ApplyEntries(t, r, p.stages, now);
        FinishSettles(d, r, p.status, open, close, now);
        SettledThroughStages(t, d, db.Contents(), r, p.status);
      }
    }
  }

  /** One more poll of a run that earlier polls changed in its stages only. */
  method SyncAgain(db: Session, r: RunId, p: Poll, now: Time, ghost t: Tables) returns (end: Synced)
    requires Sound(db.Contents()) && r in db.runs && OnlyStagesDiffer(t, db.Contents(), r)
    modifies db
    ensures end.Done? <==> Terminal(p)
    ensures end.Done? ==> Settled(t, db.Contents(), r, p.status)
    ensures !end.Done? ==> Sound(db.Contents()) && OnlyStagesDiffer(t, db.Contents(), r)
    ensures SameBuild(t, db.Contents(), r)
  {
    ghost var before := db.Contents();
    end := SyncOnce(db, r, p, now);
    if end.Done? {
      SettledThroughStages(t, before, db.Contents(), r, p.status);
    } else {
      StagesAgain(t, before, db.Contents(), r);
    }
  }

  /** The executor of one dispatched run. `trigger` is the build that Jenkins
      started, if it did; `polls` what the successive polls bring. */
  method RunExecution(db: Session, r: RunId, trigger: Option<(int, string)>, polls: nat -> Poll, clock: nat -> Time, now: Time)
    returns (success: bool, syncs: nat)
    requires Sound(db.Contents())
    modifies db
    ensures syncs <= MAX_POLLS
    ensures r !in old(db.runs) ==> !success && db.Contents() == old(db.Contents())
    ensures r in old(db.runs) ==>
      && Settled(old(db.Contents()), db.Contents(), r, FinalResult(old(db.runs)[r], trigger.Some?, polls))
      && (success <==> old(db.runs)[r].jobName != "" && trigger.Some? && FirstTerminal(polls, 0) < MAX_POLLS)
      && if old(db.runs)[r].jobName != "" && trigger.Some?
         then db.runs[r].buildNumber == Some(trigger.value.0) && db.runs[r].buildUrl == Some(trigger.value.1)
         else SameBuild(old(db.Contents()), db.Contents(), r)
  {
    success, syncs := false, 0;
    if r !in db.runs {
      return;
    }
    if db.runs[r].jobName == "" {
      Fail(db, r, now);
      return;
    }
    if trigger.None? {
      Fail(db, r, now);
      return;
    }
    ghost var t := db.Contents();
    var number, url := trigger.value.0, trigger.value.1;
    var pick := JobScheduler.OnBuildStarted(db, r, number, url, now);
    StartKeepsSound(t, r, number, url, pick, now);
    ghost var started := db.Contents();
    success, syncs := PollUntilDone(db, r, polls, clock);
    if !success {
      ghost var tired := db.Contents();
      if r in db.runs && db.runs[r].status == InProgress {
        Fail(db, r, clock(MAX_POLLS));
        SettledThroughStages(started, tired, db.Contents(), r, FAILURE);
      }
    }
    SettledThroughStart(t, r, number, url, pick, now, db.Contents(), FinalResult(t.runs[r], true, polls));
  }
}
