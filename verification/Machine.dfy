/** The whole system as a state machine: one step per committed transaction,
    in any order and with any arguments the outside world may supply. */
module Machine {
  import opened Records
  import opened Queries
  import opened WorkerPool
  import JobScheduler
  import Recovery
  import Scheduler
  import Operators

  /** Steps carry the choices that the code leaves to the database: the worker
      assigned and the rows picked by unordered `LIMIT 1` queries. */
  datatype Step =
    | Schedule(request: JobScheduler.Request, names: seq<string>)
    | Claim(r: RunId)
    | Assign(r: RunId, language: Language, outcome: Assigning)
    | Revert(r: RunId)
    | Start(r: RunId, number: int, url: string, pick: Option<RowId>)
    | Finish(r: RunId, result: JenkinsResult, open: Option<RowId>, close: Option<RowId>)
    | OnStage(r: RunId, name: string, event: JobScheduler.StageEvent)
    | Recover(cutoff: Time)
    | RetryDue(backoffs: seq<int>)
    | RetryByHand(r: RunId)
    | Cancel(r: RunId, open: Option<RowId>, close: Option<RowId>)
    | Flush
    | GoOffline(w: WorkerId)
    | GoOnline(w: WorkerId)
    | Reset(w: WorkerId)

  /** The choices a step carries are ones the code may make. */
  predicate Enabled(t: Tables, step: Step) {
    match step
    case Schedule(_, names) => names != [] && Distinct(names)
    case Assign(r, language, outcome) => MayEnd(t, r, language, outcome)
    case Start(r, _, _, pick) => JobScheduler.MayBeOpen(t, r, pick)
    case Finish(r, _, open, close) => JobScheduler.MayFinish(t, r, open, close)
    case Cancel(r, open, close) => JobScheduler.MayFinish(t, r, open, close)
    case RetryDue(backoffs) => backoffs != []
    case _ => true
  }

  function Apply(t: Tables, now: Time, step: Step): Tables
    requires Enabled(t, step)
  {
    match step
    case Schedule(request, names) => JobScheduler.Schedule(t, request, names, now)
    case Claim(r) => Scheduler.Claim(t, r, now)
    case Assign(r, _, outcome) => WorkerPool.Assign(t, r, outcome, now)
    case Revert(r) => Scheduler.Revert(t, r)
    case Start(r, number, url, pick) => JobScheduler.StartBuild(t, r, number, url, pick, now)
    case Finish(r, result, open, close) => JobScheduler.FinishBuild(t, r, result, open, close, now)
    case OnStage(r, name, event) => JobScheduler.StageCallback(t, r, name, event, now)
    case Recover(cutoff) => Recovery.Recover(t, now, cutoff)
    case RetryDue(backoffs) => Scheduler.RetryAll(t, now, backoffs)
    case RetryByHand(r) => Operators.RetryByHand(t, r)
    case Cancel(r, open, close) => Operators.Cancel(t, r, open, close, now)
    case Flush => Operators.Flush(t)
    case GoOffline(w) => Operators.SetOffline(t, w)
    case GoOnline(w) => Operators.SetOnline(t, w)
    case Reset(w) => if w in t.workers then Recovery.ResetWorkers(t, {w}, WasManualReset, now) else t
  }

  /** The same call: the steps differ at most in what the database chooses. */
  predicate SameCall(a: Step, b: Step) {
    match a
    case Assign(r, language, _) => b.Assign? && b.r == r && b.language == language
    case Start(r, number, url, _) => b.Start? && b.r == r && b.number == number && b.url == url
    case Finish(r, result, _, _) => b.Finish? && b.r == r && b.result == result
    case Cancel(r, _, _) => b.Cancel? && b.r == r
    case _ => b == a
  }

  datatype Event = Event(now: Time, step: Step)

  /** The events can happen one after the other, starting from `t`. */
  predicate Possible(t: Tables, es: seq<Event>)
    decreases |es|
  {
    es == [] ||
    (Enabled(t, es[0].step) && Possible(Apply(t, es[0].now, es[0].step), es[1..]))
  }

  function After(t: Tables, es: seq<Event>): Tables
    requires Possible(t, es)
    decreases |es|
  {
    if es == [] then t else After(Apply(t, es[0].now, es[0].step), es[1..])
  }

  lemma {:induction false} Append(t: Tables, es: seq<Event>, e: Event)
    requires Possible(t, es) && Enabled(After(t, es), e.step)
    ensures Possible(t, es + [e]) && After(t, es + [e]) == Apply(After(t, es), e.now, e.step)
    decreases |es|
  {
    if es == [] {
      assert [e][1..] == [];
      assert es + [e] == [e];
    } else {
      assert (es + [e])[1..] == es[1..] + [e];
      Append(Apply(t, es[0].now, es[0].step), es[1..], e);
    }
  }

  /** A freshly deployed system: workers, but no run was ever scheduled. */
  predicate Fresh(t: Tables) {
    && t.runs == map[] && t.rows == map[]
    && forall w | w in t.workers :: t.workers[w].status.Idle? && t.workers[w].load == 0
  }
}
