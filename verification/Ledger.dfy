/** Bookkeeping over whole histories of the tables: who was claimed how often,
    what a retry costs, how long it waits, and why a run comes to rest. Nothing
    here assumes a guard: the events may be anything that can happen. */
module Ledger {
  import opened Records
  import opened Machine
  import opened Invariants
  import JobScheduler
  import Scheduler
  import Recovery
  import Operators

  function One(b: bool): nat { if b then 1 else 0 }

  // ----------------------------------------------------- claim exclusion

  /** A claim that changes a row; every dispatch is preceded by one. */
  predicate WinsClaim(t: Tables, step: Step, r: RunId) {
    step.Claim? && step.r == r && t.HasStatus(r, Queued)
  }

  predicate Enters(t: Tables, t': Tables, r: RunId) {
    !t.HasStatus(r, Queued) && t'.HasStatus(r, Queued)
  }

  function ClaimsWon(t: Tables, es: seq<Event>, r: RunId): nat
    requires Possible(t, es)
    decreases |es|
  {
    if es == [] then 0 else
      var t' := Apply(t, es[0].now, es[0].step);
      One(WinsClaim(t, es[0].step, r)) + ClaimsWon(t', es[1..], r)
  }

  function Entries(t: Tables, es: seq<Event>, r: RunId): nat
    requires Possible(t, es)
    decreases |es|
  {
    if es == [] then 0 else
      var t' := Apply(t, es[0].now, es[0].step);
      One(Enters(t, t', r)) + Entries(t', es[1..], r)
  }

  /** In any interleaving a run is claimed no more often than it was queued:
      between two claims of one run it was put back into the queue. */
  lemma {:induction false} ClaimExclusion(t: Tables, es: seq<Event>, r: RunId)
    requires Possible(t, es)
    ensures ClaimsWon(t, es, r) + One(After(t, es).HasStatus(r, Queued)) <= One(t.HasStatus(r, Queued)) + Entries(t, es, r)
    decreases |es|
  {
    if es != [] {
      ClaimExclusion(Apply(t, es[0].now, es[0].step), es[1..], r);
    }
  }

  // ------------------------------------------------------ dispatch bound

  /** The step put run `r` back although nobody retried it: a tick found no
      worker, or the work was taken back from a worker. */
  predicate GivesBack(t: Tables, t': Tables, step: Step, r: RunId) {
    (step.Revert? || step.Recover? || step.Reset?) && Enters(t, t', r)
  }

  function GivenBack(t: Tables, es: seq<Event>, r: RunId): nat
    requires Possible(t, es)
    decreases |es|
  {
    if es == [] then 0 else
      var t' := Apply(t, es[0].now, es[0].step);
      One(GivesBack(t, t', es[0].step, r)) + GivenBack(t', es[1..], r)
  }

  /** Claims run `r` can still win without ever being given back. */
  function ClaimsLeft(t: Tables, r: RunId): nat
    requires r in t.runs ==> t.runs[r].retryCount <= t.runs[r].maxRetries
  {
    if r in t.runs then One(t.runs[r].status.Queued?) + (t.runs[r].maxRetries - t.runs[r].retryCount)
    else if r < t.nextRun then 0
    else 1 + JobScheduler.DEFAULT_MAX_RETRIES
  }

  /** Recovery and reset leave a run alone or give it back. */
  lemma TakingBack(t: Tables, now: Time, step: Step, r: RunId)
    requires step.Recover? || step.Reset?
    requires r in t.runs
    ensures r in Apply(t, now, step).runs
    ensures Apply(t, now, step).runs[r] == t.runs[r] || GivesBack(t, Apply(t, now, step), step, r)
  {
  }

  lemma StepSpendsClaims(t: Tables, now: Time, step: Step, r: RunId)
    requires Sound(t) && Enabled(t, step)
    ensures Sound(Apply(t, now, step))
    ensures One(WinsClaim(t, step, r)) + ClaimsLeft(Apply(t, now, step), r)
         <= ClaimsLeft(t, r) + One(GivesBack(t, Apply(t, now, step), step, r))
  {
    StepKeepsSound(t, now, step);
    if (step.Recover? || step.Reset?) && r in t.runs {
      TakingBack(t, now, step, r);
    } else if step.Finish? || step.Cancel? {
      FinishingSpendsClaims(t, now, step, r);
    } else if step.Claim? || step.Revert? || step.RetryDue? || step.RetryByHand? || step.Start? {
      QueueStepSpendsClaims(t, now, step, r);
    } else if !step.Recover? && !step.Reset? {
      OtherSpendsClaims(t, now, step, r);
    }
  }

  lemma FinishingSpendsClaims(t: Tables, now: Time, step: Step, r: RunId)
    requires Sound(t) && Enabled(t, step) && Sound(Apply(t, now, step))
    requires step.Finish? || step.Cancel?
    ensures ClaimsLeft(Apply(t, now, step), r) <= ClaimsLeft(t, r)
  {
  }

  lemma QueueStepSpendsClaims(t: Tables, now: Time, step: Step, r: RunId)
    requires Sound(t) && Enabled(t, step) && Sound(Apply(t, now, step))
    requires step.Claim? || step.Revert? || step.RetryDue? || step.RetryByHand? || step.Start?
    ensures One(WinsClaim(t, step, r)) + ClaimsLeft(Apply(t, now, step), r)
         <= ClaimsLeft(t, r) + One(GivesBack(t, Apply(t, now, step), step, r))
  {
  }

  lemma OtherSpendsClaims(t: Tables, now: Time, step: Step, r: RunId)
    requires Sound(t) && Enabled(t, step) && Sound(Apply(t, now, step))
    requires step.Schedule? || step.Assign? || step.OnStage? || step.Flush? || step.GoOffline? || step.GoOnline?
    ensures ClaimsLeft(Apply(t, now, step), r) <= ClaimsLeft(t, r)
  {
  }

  lemma {:induction false} HistorySpendsClaims(t: Tables, es: seq<Event>, r: RunId)
    requires Sound(t) && Possible(t, es)
    ensures ClaimsWon(t, es, r) <= ClaimsLeft(t, r) + GivenBack(t, es, r)
    decreases |es|
  {
    if es != [] {
      StepSpendsClaims(t, es[0].now, es[0].step, r);
      HistorySpendsClaims(Apply(t, es[0].now, es[0].step), es[1..], r);
    }
  }

  /** From deployment on, no run is dispatched more than 1 + max_retries times
      plus once for each time it was given back. */
  lemma DispatchBound(t0: Tables, es: seq<Event>, r: RunId)
    requires Fresh(t0) && Possible(t0, es)
    ensures ClaimsWon(t0, es, r) <= 1 + JobScheduler.DEFAULT_MAX_RETRIES + GivenBack(t0, es, r)
  {
    HistorySpendsClaims(t0, es, r);
  }

  // -------------------------------------------------------- retry ledger

  predicate Requeued(t: Tables, t': Tables, r: RunId) {
    t.HasStatus(r, Failed) && t'.HasStatus(r, Queued)
  }

  /** Times run `r` went from FAILED straight to QUEUED. */
  function Requeues(t: Tables, es: seq<Event>, r: RunId): nat
    requires Possible(t, es)
    decreases |es|
  {
    if es == [] then 0 else
      var t' := Apply(t, es[0].now, es[0].step);
      One(Requeued(t, t', r)) + Requeues(t', es[1..], r)
  }

  /** Of those, the times a tick's unguarded revert did it. */
  function Revivals(t: Tables, es: seq<Event>, r: RunId): nat
    requires Possible(t, es)
    decreases |es|
  {
    if es == [] then 0 else
      var t' := Apply(t, es[0].now, es[0].step);
      One(es[0].step.Revert? && Requeued(t, t', r)) + Revivals(t', es[1..], r)
  }

  /** The counter of `r` rises by one when the run is requeued, except by a revert. */
  predicate CountsRetry(t: Tables, t': Tables, step: Step, r: RunId)
    requires r in t.runs
  {
    if r in t'.runs then
      t'.runs[r].retryCount + One(step.Revert? && Requeued(t, t', r)) == t.runs[r].retryCount + One(Requeued(t, t', r))
    else
      r < t'.nextRun
  }

  lemma StepCountsRetries(t: Tables, now: Time, step: Step, r: RunId)
    requires Sound(t) && Enabled(t, step) && r in t.runs
    ensures CountsRetry(t, Apply(t, now, step), step, r)
  {
    assert r < t.nextRun;
    if step.Recover? || step.Reset? || step.RetryDue? || step.Flush? {
      SweepCountsRetries(t, now, step, r);
    } else if step.Finish? || step.Cancel? {
      FinishCountsRetries(t, now, step, r);
    } else {
      OtherCountsRetries(t, now, step, r);
    }
  }

  lemma SweepCountsRetries(t: Tables, now: Time, step: Step, r: RunId)
    requires Enabled(t, step) && r in t.runs && r < t.nextRun
    requires step.Recover? || step.Reset? || step.RetryDue? || step.Flush?
    ensures CountsRetry(t, Apply(t, now, step), step, r)
  {
  }

  lemma FinishCountsRetries(t: Tables, now: Time, step: Step, r: RunId)
    requires Enabled(t, step) && r in t.runs && r < t.nextRun
    requires step.Finish? || step.Cancel?
    ensures CountsRetry(t, Apply(t, now, step), step, r)
  {
  }

  lemma OtherCountsRetries(t: Tables, now: Time, step: Step, r: RunId)
    requires Enabled(t, step) && r in t.runs && r < t.nextRun
    requires !step.Recover? && !step.Reset? && !step.RetryDue? && !step.Flush? && !step.Finish? && !step.Cancel?
    ensures CountsRetry(t, Apply(t, now, step), step, r)
  {
  }

  lemma GoneStaysGone(t: Tables, now: Time, step: Step, r: RunId)
    requires Enabled(t, step) && r !in t.runs && r < t.nextRun
    ensures r !in Apply(t, now, step).runs && r < Apply(t, now, step).nextRun
  {
  }

  lemma {:induction false} GoneForGood(t: Tables, es: seq<Event>, r: RunId)
    requires Possible(t, es) && r !in t.runs && r < t.nextRun
    ensures r !in After(t, es).runs
    decreases |es|
  {
    if es != [] {
      GoneStaysGone(t, es[0].now, es[0].step, r);
      GoneForGood(Apply(t, es[0].now, es[0].step), es[1..], r);
    }
  }

  /** The stored counter is the number of times the run went from FAILED to
      QUEUED, less the revivals that only a revert can cause, and it stays
      within the allowance whoever asks for the retries. */
  lemma {:induction false} RetryCountIsExact(t: Tables, es: seq<Event>, r: RunId)
    requires Sound(t) && Possible(t, es) && r in t.runs && r in After(t, es).runs
    ensures After(t, es).runs[r].retryCount + Revivals(t, es, r) == t.runs[r].retryCount + Requeues(t, es, r)
    ensures After(t, es).runs[r].retryCount <= After(t, es).runs[r].maxRetries
    decreases |es|
  {
    if es != [] {
      var t' := Apply(t, es[0].now, es[0].step);
      StepKeepsSound(t, es[0].now, es[0].step);
      StepCountsRetries(t, es[0].now, es[0].step, r);
      if r !in t'.runs {
        GoneForGood(t', es[1..], r);
      }
      RetryCountIsExact(t', es[1..], r);
    }
  }

  // ------------------------------------------------------------- backoff

  /** The first `k` delays together. */
  function Waits(backoffs: seq<int>, k: nat): int
    requires backoffs != []
  {
    if k == 0 then 0 else Waits(backoffs, k - 1) + Scheduler.Backoff(backoffs, k - 1)
  }

  /** Time does not run backwards, retries of `r` are automatic, and the delays
      are those of the configuration. */
  predicate Unhurried(es: seq<Event>, start: Time, r: RunId, backoffs: seq<int>) {
    es == [] ||
    (&& start <= es[0].now
     && (es[0].step.RetryByHand? ==> es[0].step.r != r)
     && (es[0].step.RetryDue? ==> es[0].step.backoffs == backoffs)
     && Unhurried(es[1..], es[0].now, r, backoffs))
  }

  function LastTime(es: seq<Event>, start: Time): Time {
    if es == [] then start else es[|es| - 1].now
  }

  /** By `now` the run has waited for every retry it had, counted from `base`,
      and a scheduled retry will have waited for one more. */
  predicate Paced(t: Tables, r: RunId, base: Time, now: Time, backoffs: seq<int>)
    requires backoffs != []
  {
    r in t.runs ==>
      var run := t.runs[r];
      && base + Waits(backoffs, run.retryCount) <= now
      && (run.retryAfter.Some? ==> base + Waits(backoffs, run.retryCount + 1) <= run.retryAfter.value)
  }

  lemma StepKeepsPace(t: Tables, now: Time, step: Step, r: RunId, base: Time, before: Time, backoffs: seq<int>)
    requires Enabled(t, step) && backoffs != []
    requires r < t.nextRun && Paced(t, r, base, before, backoffs) && before <= now
    requires step.RetryByHand? ==> step.r != r
    requires step.RetryDue? ==> step.backoffs == backoffs
    ensures Paced(Apply(t, now, step), r, base, now, backoffs)
    ensures r < Apply(t, now, step).nextRun
  {
    if step.RetryDue? {
      RetryKeepsPace(t, now, r, base, backoffs);
    } else {
      OtherStepsKeepRetries(t, now, step, r);
    }
  }

  lemma RetryKeepsPace(t: Tables, now: Time, r: RunId, base: Time, backoffs: seq<int>)
    requires backoffs != [] && Paced(t, r, base, now, backoffs)
    ensures Paced(Scheduler.RetryAll(t, now, backoffs), r, base, now, backoffs)
  {
    if r in t.runs {
      assert Waits(backoffs, t.runs[r].retryCount + 1) ==
        Waits(backoffs, t.runs[r].retryCount) + Scheduler.Backoff(backoffs, t.runs[r].retryCount);
    }
  }

  /** Only the retry phase and retries by hand write the counter or the date. */
  predicate SameRetries(t: Tables, t': Tables, r: RunId) {
    r in t'.runs ==>
      r in t.runs
      && t'.runs[r].retryCount == t.runs[r].retryCount && t'.runs[r].retryAfter == t.runs[r].retryAfter
  }

  lemma OtherStepsKeepRetries(t: Tables, now: Time, step: Step, r: RunId)
    requires Enabled(t, step) && r < t.nextRun
    requires !step.RetryDue? && (step.RetryByHand? ==> step.r != r)
    ensures SameRetries(t, Apply(t, now, step), r) && r < Apply(t, now, step).nextRun
  {
    if step.Finish? || step.Cancel? {
      FinishKeepsRetries(t, now, step, r);
    } else if step.Recover? || step.Reset? {
      RecoveryKeepsRetries(t, now, step, r);
    }
  }

  lemma FinishKeepsRetries(t: Tables, now: Time, step: Step, r: RunId)
    requires Enabled(t, step) && r < t.nextRun
    requires step.Finish? || step.Cancel?
    ensures SameRetries(t, Apply(t, now, step), r) && r < Apply(t, now, step).nextRun
  {
  }

  lemma RecoveryKeepsRetries(t: Tables, now: Time, step: Step, r: RunId)
    requires Enabled(t, step) && r < t.nextRun
    requires step.Recover? || step.Reset?
    ensures SameRetries(t, Apply(t, now, step), r) && r < Apply(t, now, step).nextRun
  {
  }

  lemma {:induction false} HistoryKeepsPace(t: Tables, es: seq<Event>, r: RunId, base: Time, start: Time, backoffs: seq<int>)
    requires Possible(t, es) && backoffs != []
    requires Unhurried(es, start, r, backoffs)
    requires r < t.nextRun && Paced(t, r, base, start, backoffs)
    ensures Paced(After(t, es), r, base, LastTime(es, start), backoffs)
    decreases |es|
  {
    if es != [] {
      var e := es[0];
      StepKeepsPace(t, e.now, e.step, r, base, start, backoffs);
      HistoryKeepsPace(Apply(t, e.now, e.step), es[1..], r, base, e.now, backoffs);
      assert LastTime(es, start) == LastTime(es[1..], e.now);
    }
  }

  /** A run that was only retried automatically has been in the system for at
      least the sum of the backoffs of the retries it had. */
  lemma BackoffsAddUp(t: Tables, es: seq<Event>, r: RunId, start: Time, backoffs: seq<int>)
    requires Possible(t, es) && backoffs != []
    requires Unhurried(es, start, r, backoffs)
    requires r in t.runs && r < t.nextRun && t.runs[r].retryCount == 0 && t.runs[r].retryAfter.None?
    ensures r in After(t, es).runs ==>
      LastTime(es, start) - start >= Waits(backoffs, After(t, es).runs[r].retryCount)
  {
    HistoryKeepsPace(t, es, r, start, start, backoffs);
  }

  /** With the shipped delays: one minute for one retry, six for two. */
  lemma ShippedDelays()
    ensures Waits([60, 300], 1) == 60 && Waits([60, 300], 2) == 360
  {
    assert Scheduler.Backoff([60, 300], 0) == 60;
    assert Scheduler.Backoff([60, 300], 1) == 300;
    assert Waits([60, 300], 1) == Waits([60, 300], 0) + 60;
  }

  // ------------------------------------------------------ coming to rest

  /** How far a run is from rest: five for each retry left, plus its phase. */
  function Distance(run: Run): nat
    requires run.retryCount <= run.maxRetries
  {
    if run.status.Completed? || run.status.Aborted? then 0
    else
      5 * (run.maxRetries - run.retryCount) +
      match run.status
      case Queued => 4
      case InProgress => 3
      case _ => if run.retryAfter.None? then 2 else 1
  }

  /** A change of status, or a failed run getting its retry date. */
  predicate Advances(run: Run, after: Run) {
    run.status != after.status || (run.status.Failed? && run.retryAfter.None? && after.retryAfter.Some?)
  }

  predicate Advanced(t: Tables, t': Tables, r: RunId) {
    r in t.runs && r in t'.runs && Advances(t.runs[r], t'.runs[r])
  }

  /** The steps that take a run back: it is given back, or a callback that looks
      at no status starts a finished run or changes a final verdict. */
  predicate Rewinds(t: Tables, t': Tables, step: Step, r: RunId) {
    GivesBack(t, t', step, r) || CallsBack(t, step, r)
  }

  predicate CallsBack(t: Tables, step: Step, r: RunId) {
    r in t.runs &&
    var status := t.runs[r].status;
    || (step.Start? && step.r == r && !status.Queued? && !status.InProgress?)
    || (step.Finish? && step.r == r && ChangesVerdict(t.runs[r], step.result))
  }

  predicate ChangesVerdict(run: Run, result: JenkinsResult) {
    (run.status.Completed? || run.status.Aborted?) && JobScheduler.Verdict(result) != run.status
  }

  /** The measure pays for what happened to the run. */
  predicate Approaches(run: Run, after: Run) {
    && run.retryCount <= run.maxRetries && after.retryCount <= after.maxRetries
    && Distance(after) + One(Advances(run, after)) <= Distance(run)
  }

  predicate ApproachesIff(t: Tables, t': Tables, step: Step, r: RunId) {
    r in t.runs && r in t'.runs && (Approaches(t.runs[r], t'.runs[r]) <==> !Rewinds(t, t', step, r))
  }

  // On one run.

  lemma StandingStill(run: Run, after: Run)
    requires run.retryCount <= run.maxRetries
    requires after == run.(stages := after.stages)
    ensures Approaches(run, after)
  {
  }

  lemma RetryingApproaches(run: Run, now: Time, backoffs: seq<int>)
    requires run.retryCount <= run.maxRetries && backoffs != []
    ensures Approaches(run, Scheduler.RetryStep(run, now, backoffs))
    ensures run.status.Failed? && run.retryCount < run.maxRetries ==> Approaches(run, Operators.Retried(run))
  {
  }

  lemma FinishingApproachesIff(run: Run, result: JenkinsResult, now: Time)
    requires run.retryCount <= run.maxRetries
    ensures Approaches(run, JobScheduler.FinishedRun(run, result, now)) <==> !ChangesVerdict(run, result)
  {
  }

  lemma QueueingApproachesIff(run: Run)
    requires run.retryCount <= run.maxRetries
    ensures Approaches(run, Recovery.Requeue(run)) <==> run.status.Queued?
  {
  }

  // On the tables.

  lemma FinishedRuns(t: Tables, r: RunId, result: JenkinsResult, open: Option<RowId>, close: Option<RowId>, now: Time)
    requires Sound(t) && JobScheduler.MayFinish(t, r, open, close)
    ensures JobScheduler.FinishBuild(t, r, result, open, close, now).runs ==
      if r in t.runs then t.runs[r := JobScheduler.FinishedRun(t.runs[r], result, now)] else t.runs
  {
    assert open.Some? ==> RowSound(t, open.value);
  }

  lemma FinishApproachesIff(t: Tables, now: Time, step: Step, r: RunId)
    requires Sound(t) && Enabled(t, step) && step.Finish? && r in t.runs
    ensures ApproachesIff(t, Apply(t, now, step), step, r)
  {
    FinishedRuns(t, step.r, step.result, step.open, step.close, now);
    assert RunSound(t.runs[r]);
    FinishingApproachesIff(t.runs[r], step.result, now);
    StandingStill(t.runs[r], t.runs[r]);
  }

  lemma CancelApproachesIff(t: Tables, now: Time, step: Step, r: RunId)
    requires Sound(t) && Enabled(t, step) && step.Cancel? && r in t.runs
    ensures ApproachesIff(t, Apply(t, now, step), step, r)
  {
    if t.HasStatus(step.r, InProgress) {
      FinishedRuns(t, step.r, ABORTED, step.open, step.close, now);
    }
    assert RunSound(t.runs[r]);
    FinishingApproachesIff(t.runs[r], ABORTED, now);
    StandingStill(t.runs[r], t.runs[r]);
  }

  lemma RetryApproachesIff(t: Tables, now: Time, step: Step, r: RunId)
    requires Enabled(t, step) && (step.RetryDue? || step.RetryByHand?)
    requires r in t.runs && t.runs[r].retryCount <= t.runs[r].maxRetries
    ensures ApproachesIff(t, Apply(t, now, step), step, r)
  {
    RetryingApproaches(t.runs[r], now, if step.RetryDue? then step.backoffs else [0]);
    StandingStill(t.runs[r], t.runs[r]);
  }

  lemma TakingBackApproachesIff(t: Tables, now: Time, step: Step, r: RunId)
    requires Enabled(t, step) && (step.Recover? || step.Reset?)
    requires r in t.runs && t.runs[r].retryCount <= t.runs[r].maxRetries
    ensures ApproachesIff(t, Apply(t, now, step), step, r)
  {
    TakingBack(t, now, step, r);
    RecoveryRequeues(t, now, step, r);
    QueueingApproachesIff(t.runs[r]);
    StandingStill(t.runs[r], t.runs[r]);
  }

  lemma RecoveryRequeues(t: Tables, now: Time, step: Step, r: RunId)
    requires (step.Recover? || step.Reset?) && r in t.runs
    ensures r in Apply(t, now, step).runs
    ensures Apply(t, now, step).runs[r] == t.runs[r] || Apply(t, now, step).runs[r] == Recovery.Requeue(t.runs[r])
  {
  }

  lemma StartApproachesIff(t: Tables, now: Time, step: Step, r: RunId)
    requires Enabled(t, step) && (step.Start? || step.Claim?)
    requires r in t.runs && t.runs[r].retryCount <= t.runs[r].maxRetries
    ensures ApproachesIff(t, Apply(t, now, step), step, r)
  {
    StandingStill(t.runs[r], t.runs[r]);
  }

  lemma RevertApproachesIff(t: Tables, now: Time, step: Step, r: RunId)
    requires Enabled(t, step) && step.Revert?
    requires r in t.runs && t.runs[r].retryCount <= t.runs[r].maxRetries
    ensures ApproachesIff(t, Apply(t, now, step), step, r)
  {
    QueueingApproachesIff(t.runs[r]);
    StandingStill(t.runs[r], t.runs[r]);
  }

  lemma OtherApproachesIff(t: Tables, now: Time, step: Step, r: RunId)
    requires Enabled(t, step) && r in Apply(t, now, step).runs
    requires step.Schedule? || step.Assign? || step.OnStage? || step.Flush? || step.GoOffline? || step.GoOnline?
    requires r in t.runs && r < t.nextRun && t.runs[r].retryCount <= t.runs[r].maxRetries
    ensures ApproachesIff(t, Apply(t, now, step), step, r)
  {
    StandingStill(t.runs[r], Apply(t, now, step).runs[r]);
  }

  /** A step never takes a run further from rest, and a change of status brings
      it nearer, if and only if the step does not rewind the run. */
  lemma StepApproachesRestIff(t: Tables, now: Time, step: Step, r: RunId)
    requires Sound(t) && Enabled(t, step) && r in t.runs && r in Apply(t, now, step).runs
    ensures Approaches(t.runs[r], Apply(t, now, step).runs[r]) <==> !Rewinds(t, Apply(t, now, step), step, r)
  {
    EachApproachesIff(t, now, step, r);
  }

  lemma EachApproachesIff(t: Tables, now: Time, step: Step, r: RunId)
    requires Sound(t) && Enabled(t, step) && r in t.runs && r in Apply(t, now, step).runs
    ensures ApproachesIff(t, Apply(t, now, step), step, r)
  {
    assert r < t.nextRun && RunSound(t.runs[r]);
    if step.Finish? {
      FinishApproachesIff(t, now, step, r);
    } else if step.Cancel? {
      CancelApproachesIff(t, now, step, r);
    } else if step.RetryDue? || step.RetryByHand? {
      RetryApproachesIff(t, now, step, r);
    } else if step.Recover? || step.Reset? {
      TakingBackApproachesIff(t, now, step, r);
    } else if step.Start? || step.Claim? {
      StartApproachesIff(t, now, step, r);
    } else if step.Revert? {
      RevertApproachesIff(t, now, step, r);
    } else {
      OtherApproachesIff(t, now, step, r);
    }
  }

  predicate NeverRewound(t: Tables, es: seq<Event>, r: RunId)
    requires Possible(t, es)
    decreases |es|
  {
    es == [] ||
    var t' := Apply(t, es[0].now, es[0].step);
    !Rewinds(t, t', es[0].step, r) && NeverRewound(t', es[1..], r)
  }

  function Advance(t: Tables, es: seq<Event>, r: RunId): nat
    requires Possible(t, es)
    decreases |es|
  {
    if es == [] then 0 else
      var t' := Apply(t, es[0].now, es[0].step);
      One(Advanced(t, t', r)) + Advance(t', es[1..], r)
  }

  lemma {:induction false} GoneStandsStill(t: Tables, es: seq<Event>, r: RunId)
    requires Possible(t, es) && r !in t.runs && r < t.nextRun
    ensures Advance(t, es, r) == 0
    decreases |es|
  {
    if es != [] {
      GoneStaysGone(t, es[0].now, es[0].step, r);
      GoneStandsStill(Apply(t, es[0].now, es[0].step), es[1..], r);
    }
  }

  /** Every run comes to rest: it changes status at most as often as its
      distance says, 14 times for a freshly scheduled one. */
  lemma {:induction false} RunsComeToRest(t: Tables, es: seq<Event>, r: RunId)
    requires Sound(t) && Possible(t, es) && r in t.runs && NeverRewound(t, es, r)
    ensures Advance(t, es, r) <= Distance(t.runs[r])
    decreases |es|
  {
    if es != [] {
      var t' := Apply(t, es[0].now, es[0].step);
      StepKeepsSound(t, es[0].now, es[0].step);
      assert r < t.nextRun;
      if r in t'.runs {
        StepApproachesRestIff(t, es[0].now, es[0].step, r);
        RunsComeToRest(t', es[1..], r);
      } else {
        GoneStandsStill(t', es[1..], r);
      }
    }
  }

  lemma NewRunDistance(q: JobScheduler.Request, names: seq<string>, now: Time)
    ensures Distance(JobScheduler.NewRun(q, names, now)) == 14
  {
  }
}
