/** app/services/job_scheduler.py: the life of a run, from scheduling to the
    callbacks for builds and stages. */
module JobScheduler {
  import opened Records
  import opened Database
  import WorkerPool

  /** What a push or an API call asks for; priority, job name and language are
      computed from it before the run is stored. */
  datatype Request = Request(priority: int, jobName: string, language: Language, live: bool)

  /** The column default of `max_retries`. */
  const DEFAULT_MAX_RETRIES: nat := 2

  const SYNTHETIC_STAGES: seq<string> := ["Checkout", "Build", "Test", "Deploy"]

  function StageRows(names: seq<string>): (stages: seq<Stage>)
    ensures |stages| == |names|
    ensures forall i | 0 <= i < |names| :: stages[i] == Stage(i, names[i], Pending, None, None, None)
  {
    seq(|names|, i requires 0 <= i < |names| => Stage(i, names[i], Pending, None, None, None))
  }

  function NewRun(q: Request, names: seq<string>, now: Time): Run {
    Run(Queued, q.priority, now, None, None, q.jobName, q.language, q.live, None, None, None,
        0, DEFAULT_MAX_RETRIES, None, StageRows(names))
  }

  function Schedule(t: Tables, q: Request, names: seq<string>, now: Time): Tables {
    t.(runs := t.runs[t.nextRun := NewRun(q, names, now)], nextRun := t.nextRun + 1)
  }

  /** The stage list a run is created with; without one the request is refused. */
  function StagePlan(parsed: seq<string>, allowSynthetic: bool): Option<seq<string>> {
    if parsed != [] then Some(parsed) else if allowSynthetic then Some(SYNTHETIC_STAGES) else None
  }

  /** `parsed` is what the Jenkinsfile fetch and parse delivered. */
  method SchedulePipeline(db: Session, q: Request, parsed: seq<string>, allowSynthetic: bool, now: Time)
    returns (r: Option<RunId>)
    modifies db
    ensures match StagePlan(parsed, allowSynthetic)
            case None => r == None && db.Contents() == old(db.Contents())
            case Some(names) => r == Some(old(db.nextRun)) && db.Contents() == Schedule(old(db.Contents()), q, names, now)
    ensures r == None <==> parsed == [] && !allowSynthetic
    ensures r.Some? ==> db.Contents() == Schedule(old(db.Contents()), q,
      if parsed != [] then parsed else ["Checkout", "Build", "Test", "Deploy"], now)
  {
    var names := parsed;
    if names == [] {
      if !allowSynthetic {
        return None;
      }
      names := SYNTHETIC_STAGES;
    }
    var id := db.nextRun;
    db.nextRun := id + 1;
    var stages: seq<Stage> := [];
    for idx := 0 to |names|
      invariant |stages| == idx
      invariant forall k | 0 <= k < idx :: stages[k] == Stage(k, names[k], Pending, None, None, None)
    {
      stages := stages + [Stage(idx, names[idx], Pending, None, None, None)];
    }
    assert stages == StageRows(names);
    db.runs := db.runs[id := NewRun(q, names, now).(stages := stages)];
    return Some(id);
  }

  /** An open row the `LIMIT 1` over the run's open assignments may return. */
  predicate MayBeOpen(t: Tables, r: RunId, pick: Option<RowId>) {
    match pick
    case Some(i) => t.OpenFor(i, r)
    case None => forall i | i in t.rows :: !t.OpenFor(i, r)
  }

  function StartRow(row: Assignment, now: Time): Assignment {
    row.(status := RowRunning, startedAt := Some(now))
  }

  /** on_build_started does not look at the current status of the run. */
  function StartBuild(t: Tables, r: RunId, number: int, url: string, pick: Option<RowId>, now: Time): Tables
    requires pick.Some? ==> pick.value in t.rows
  {
    if r !in t.runs then t
    else
      var run := t.runs[r].(status := InProgress, buildNumber := Some(number), buildUrl := Some(url), startedAt := Some(now));
      var t1 := t.(runs := t.runs[r := run]);
      if pick.None? then t1 else t1.(rows := t.rows[pick.value := StartRow(t.rows[pick.value], now)])
  }

  method OnBuildStarted(db: Session, r: RunId, number: int, url: string, now: Time) returns (pick: Option<RowId>)
    modifies db
    ensures MayBeOpen(old(db.Contents()), r, pick)
    ensures db.Contents() == StartBuild(old(db.Contents()), r, number, url, pick, now)
  {
    pick := None;
    if i :| i in db.rows && db.rows[i].run == r && db.rows[i].completedAt.None? {
      pick := Some(i);
    }
    if r !in db.runs {
      return;
    }
    var run := db.runs[r];
    db.runs := db.runs[r := run.(status := InProgress, buildNumber := Some(number), buildUrl := Some(url), startedAt := Some(now))];
    if pick.Some? {
      db.rows := db.rows[pick.value := StartRow(db.rows[pick.value], now)];
    }
  }

  /** Two stage rows of one run answer to the same name; a lookup by name then
      raises. */
  predicate Clash(stages: seq<Stage>, name: string) {
    exists i, j | 0 <= i < j < |stages| :: stages[i].name == name && stages[j].name == name
  }

  datatype StageEvent = Began | Ended(success: bool, excerpt: Option<string>)

  function MarkStage(stage: Stage, e: StageEvent, now: Time): Stage {
    match e
    case Began => stage.(status := Running, startedAt := Some(now))
    case Ended(success, excerpt) =>
      stage.(status := if success then Succeeded else StageFailed, completedAt := Some(now), logExcerpt := excerpt)
  }

  function MarkStages(stages: seq<Stage>, name: string, e: StageEvent, now: Time): (marked: seq<Stage>)
    ensures |marked| == |stages|
    ensures forall i | 0 <= i < |stages| ::
      marked[i] == if stages[i].name == name then MarkStage(stages[i], e, now) else stages[i]
  {
    seq(|stages|, i requires 0 <= i < |stages| =>
      if stages[i].name == name then MarkStage(stages[i], e, now) else stages[i])
  }

  function StageCallback(t: Tables, r: RunId, name: string, e: StageEvent, now: Time): Tables {
    if r !in t.runs || Clash(t.runs[r].stages, name) then t
    else t.(runs := t.runs[r := t.runs[r].(stages := MarkStages(t.runs[r].stages, name, e, now))])
  }

  /** on_stage_started and on_stage_completed. False: the lookup raised. */
  method OnStage(db: Session, r: RunId, name: string, e: StageEvent, now: Time) returns (ok: bool)
    modifies db
    ensures db.Contents() == StageCallback(old(db.Contents()), r, name, e, now)
    ensures ok <==> !(r in old(db.runs) && Clash(old(db.runs)[r].stages, name))
  {
    if r !in db.runs {
      return true;
    }
    var stages := db.runs[r].stages;
    if i :| 0 <= i < |stages| && stages[i].name == name {
      if j :| 0 <= j < |stages| && j != i && stages[j].name == name {
        assert Clash(stages, name) by {
          var lo, hi := if i < j then i else j, if i < j then j else i;
          assert stages[lo].name == name && stages[hi].name == name;
        }
        return false;
      }
      stages := stages[i := MarkStage(stages[i], e, now)];
    }
    assert stages == MarkStages(old(db.runs)[r].stages, name, e, now);
    db.runs := db.runs[r := db.runs[r].(stages := stages)];
    return true;
  }

  predicate Unfinished(s: StageStatus) {
    s.Pending? || s.Running?
  }

  function SkipUnfinished(stages: seq<Stage>): (skipped: seq<Stage>)
    ensures |skipped| == |stages|
    ensures forall i | 0 <= i < |stages| ::
      skipped[i] == if Unfinished(stages[i].status) then stages[i].(status := Skipped) else stages[i]
  {
    seq(|stages|, i requires 0 <= i < |stages| =>
      if Unfinished(stages[i].status) then stages[i].(status := Skipped) else stages[i])
  }

  /** Every result but SUCCESS and ABORTED counts as a failure. */
  function Verdict(result: JenkinsResult): RunStatus {
    match result
    case SUCCESS => Completed
    case ABORTED => Aborted
    case _ => Failed
  }

  function FinishedRun(run: Run, result: JenkinsResult, now: Time): Run {
    run.(status := Verdict(result), result := Some(result), completedAt := Some(now), stages := SkipUnfinished(run.stages))
  }

  /** The rows two unordered `LIMIT 1` queries may return: an open row of the
      run, then any row pairing the run with that row's worker. */
  predicate MayFinish(t: Tables, r: RunId, open: Option<RowId>, close: Option<RowId>) {
    if r !in t.runs then open == None && close == None
    else
      && MayBeOpen(t, r, open)
      && match open
         case None => close == None
         case Some(i) => WorkerPool.MayClose(t, r, t.rows[i].worker, close)
  }

  /** on_build_completed does not look at the current status of the run. When
      the worker row is missing release_worker returns before the commit and
      nothing is stored. */
  function FinishBuild(t: Tables, r: RunId, result: JenkinsResult, open: Option<RowId>, close: Option<RowId>, now: Time): Tables
    requires MayFinish(t, r, open, close)
  {
    if r !in t.runs then t
    else
      var t1 := t.(runs := t.runs[r := FinishedRun(t.runs[r], result, now)]);
      match open
      case None => t1
      case Some(i) =>
        if t.rows[i].worker !in t.workers then t
        else WorkerPool.Release(t1, t.rows[i].worker, result.SUCCESS?, close, now)
  }

  method OnBuildCompleted(db: Session, r: RunId, result: JenkinsResult, now: Time)
    returns (open: Option<RowId>, close: Option<RowId>)
    modifies db
    ensures MayFinish(old(db.Contents()), r, open, close)
    ensures db.Contents() == FinishBuild(old(db.Contents()), r, result, open, close, now)
  {
    open, close := None, None;
    if r !in db.runs {
      return;
    }
    var run := db.runs[r].(status := Verdict(result), result := Some(result), completedAt := Some(now));
    var stages := run.stages;
    for k := 0 to |stages|
      invariant |stages| == |run.stages|
      invariant forall m | 0 <= m < k :: stages[m] == SkipUnfinished(run.stages)[m]
      invariant forall m | k <= m < |stages| :: stages[m] == run.stages[m]
    {
      if Unfinished(stages[k].status) {
        stages := stages[k := stages[k].(status := Skipped)];
      }
    }
    assert stages == SkipUnfinished(run.stages);
    run := run.(stages := stages);
    if i :| i in db.rows && db.rows[i].run == r && db.rows[i].completedAt.None? {
      open := Some(i);
      var w := db.rows[i].worker;
      if w in db.workers {
        db.runs := db.runs[r := run];
      }
      close := WorkerPool.ReleaseWorker(db, w, r, result.SUCCESS?, now);
    } else {
      db.runs := db.runs[r := run];
    }
  }
}
