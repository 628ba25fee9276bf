/** app/pipeline_tasks.py: reconciling the stage rows with what Jenkins reports. */
module PipelineTasks {
  import opened Records
  import opened Database
  import opened Invariants
  import JobScheduler

  datatype StageWord = SaysInProgress | SaysSuccess | SaysFailed | SaysUnstable | SaysOther

  /** One entry of the stage list, with the log excerpt that could be fetched. */
  datatype JenkinsStage = JenkinsStage(name: string, word: StageWord, log: Option<string>)

  /** One poll: Jenkins did not answer with a report, answered, or the handling
      of its answer raised after some entries were processed. The last covers a
      completion that raised before its commit and was rolled back. */
  datatype Poll =
    | NoReport
    | Report(status: JenkinsResult, stages: seq<JenkinsStage>)
    | Breaks(stages: seq<JenkinsStage>)

  predicate Terminal(p: Poll) {
    p.Report? && !p.status.OTHER?
  }

  /** The callback an entry triggers, if its status is one the source knows. */
  function EventOf(js: JenkinsStage): Option<JobScheduler.StageEvent> {
    match js.word
    case SaysInProgress => Some(JobScheduler.Began)
    case SaysSuccess => Some(JobScheduler.Ended(true, js.log))
    case SaysFailed => Some(JobScheduler.Ended(false, js.log))
    case SaysUnstable => Some(JobScheduler.Ended(false, js.log))
    case SaysOther => None
  }

  function ApplyEntry(t: Tables, r: RunId, js: JenkinsStage, now: Time): Tables {
    match EventOf(js)
    case Some(e) => JobScheduler.StageCallback(t, r, js.name, e, now)
    case None => t
  }

  /** The entries are applied one after the other, each in its own transaction. */
  function ApplyEntries(t: Tables, r: RunId, list: seq<JenkinsStage>, now: Time): Tables {
    if list == [] then t
    else
      var n := |list| - 1;
      ApplyEntry(ApplyEntries(t, r, list[..n], now), r, list[n], now)
  }

  /** Only the stages of run `r` differ. */
  predicate OnlyStagesDiffer(t: Tables, d: Tables, r: RunId) {
    && d.rows == t.rows && d.workers == t.workers && d.nextRun == t.nextRun && d.nextRow == t.nextRow
    && d.runs.Keys == t.runs.Keys
    && (forall s | s in t.runs && s != r :: d.runs[s] == t.runs[s])
    && (r in t.runs ==> d.runs[r] == t.runs[r].(stages := d.runs[r].stages))
  }

  lemma {:induction false} EntriesTouchStages(t: Tables, r: RunId, list: seq<JenkinsStage>, now: Time)
    requires Sound(t)
    ensures Sound(ApplyEntries(t, r, list, now))
    ensures OnlyStagesDiffer(t, ApplyEntries(t, r, list, now), r)
  {
    if list != [] {
      var n := |list| - 1;
      EntriesTouchStages(t, r, list[..n], now);
      var before := ApplyEntries(t, r, list[..n], now);
      if EventOf(list[n]).Some? {
        StageKeepsSound(before, r, list[n].name, EventOf(list[n]).value, now);
      }
    }
  }

  method ApplyStageList(db: Session, r: RunId, list: seq<JenkinsStage>, now: Time)
    requires Sound(db.Contents())
    modifies db
    ensures db.Contents() == ApplyEntries(old(db.Contents()), r, list, now)
    ensures Sound(db.Contents())
  {
    ghost var t := db.Contents();
    assert list[..0] == [];
    for n := 0 to |list|
      invariant db.Contents() == ApplyEntries(t, r, list[..n], now)
    {
      assert list[..n + 1][..n] == list[..n];
      EntriesTouchStages(t, r, list[..n], now);
      var js := list[n];
      if js.word == SaysInProgress {
        var found := JobScheduler.OnStage(db, r, js.name, JobScheduler.Began, now);
      } else if js.word == SaysSuccess || js.word == SaysFailed || js.word == SaysUnstable {
        var found := JobScheduler.OnStage(db, r, js.name, JobScheduler.Ended(js.word == SaysSuccess, js.log), now);
      }
    }
    assert list[..|list|] == list;
    EntriesTouchStages(t, r, list, now);
  }

  datatype Synced = Done | NotDone | Raised

  /** `_sync_stages`, given what the poll brought. In a sound state no lookup of
      a stage by name raises. */
  method SyncStages(db: Session, r: RunId, p: Poll, now: Time)
    returns (end: Synced, ghost open: Option<RowId>, ghost close: Option<RowId>)
    requires Sound(db.Contents())
    modifies db
    ensures end.Done? <==> Terminal(p)
    ensures Terminal(p) <==> p.Report? && (p.status == SUCCESS || p.status == FAILURE || p.status == ABORTED || p.status == UNSTABLE)
    ensures end.Raised? <==> p.Breaks?
    ensures p.NoReport? ==> db.Contents() == old(db.Contents())
    ensures !p.NoReport? ==>
      var d := ApplyEntries(old(db.Contents()), r, p.stages, now);
      if Terminal(p)
      then JobScheduler.MayFinish(d, r, open, close) && db.Contents() == JobScheduler.FinishBuild(d, r, p.status, open, close, now)
      else db.Contents() == d
  {
    open, close := None, None;
    match p
    case NoReport =>
      end := NotDone;
    case Breaks(list) =>
      ApplyStageList(db, r, list, now);
      end := Raised;
    case Report(status, list) =>
      ApplyStageList(db, r, list, now);
      if status == SUCCESS || status == FAILURE || status == ABORTED || status == UNSTABLE {
        var i, j := JobScheduler.OnBuildCompleted(db, r, status, now);
        open, close := i, j;
        end := Done;
      } else {
        end := NotDone;
      }
  }

  /** Fail-safe completion: a run that reached a final status is left alone. */
  method FinalizeExhaustedPoll(db: Session, r: RunId, fallback: JenkinsResult, now: Time)
    returns (ghost open: Option<RowId>, ghost close: Option<RowId>)
    modifies db
    ensures JobScheduler.MayFinish(old(db.Contents()), r, open, close)
    ensures db.Contents() ==
      if old(db.Contents()).HasStatus(r, Queued) || old(db.Contents()).HasStatus(r, InProgress)
      then JobScheduler.FinishBuild(old(db.Contents()), r, fallback, open, close, now)
      else old(db.Contents())
  {
    open, close := None, None;
    if i :| r in db.runs && db.Contents().OpenFor(i, r) {
      open, close := Some(i), Some(i);
    }
    if r in db.runs && db.runs[r].status != Completed && db.runs[r].status != Failed && db.runs[r].status != Aborted {
      var i, j := JobScheduler.OnBuildCompleted(db, r, fallback, now);
      open, close := i, j;
    }
  }

  // --------------------------------------------------- last writer wins

  /** The last entry for a name that has a status the source knows. */
  function LastWord(list: seq<JenkinsStage>, name: string): Option<StageWord> {
    if list == [] then None
    else
      var n := |list| - 1;
      if list[n].name == name && list[n].word != SaysOther then Some(list[n].word) else LastWord(list[..n], name)
  }

  /** The status that word leaves a stage in. */
  function StatusAfter(was: StageStatus, word: Option<StageWord>): StageStatus {
    match word
    case None => was
    case Some(w) => if w.SaysInProgress? then Running else if w.SaysSuccess? then Succeeded else StageFailed
  }

  lemma {:induction false} LastWriterWins(t: Tables, r: RunId, list: seq<JenkinsStage>, now: Time)
    requires Sound(t) && r in t.runs
    ensures var d := ApplyEntries(t, r, list, now);
      && r in d.runs && |d.runs[r].stages| == |t.runs[r].stages|
      && forall k | 0 <= k < |t.runs[r].stages| ::
           && d.runs[r].stages[k].name == t.runs[r].stages[k].name
           && d.runs[r].stages[k].status == StatusAfter(t.runs[r].stages[k].status, LastWord(list, t.runs[r].stages[k].name))
  {
    if list != [] {
      var n := |list| - 1;
      LastWriterWins(t, r, list[..n], now);
      EntriesTouchStages(t, r, list[..n], now);
      OneEntry(ApplyEntries(t, r, list[..n], now), r, list[n], now);
    }
  }

  /** One entry writes the stage it names and no other. */
  lemma OneEntry(t: Tables, r: RunId, js: JenkinsStage, now: Time)
    requires Sound(t) && r in t.runs
    ensures var d := ApplyEntry(t, r, js, now);
      && r in d.runs && |d.runs[r].stages| == |t.runs[r].stages|
      && forall k | 0 <= k < |t.runs[r].stages| ::
           && d.runs[r].stages[k].name == t.runs[r].stages[k].name
           && d.runs[r].stages[k].status ==
                if t.runs[r].stages[k].name == js.name && js.word != SaysOther
                then StatusAfter(t.runs[r].stages[k].status, Some(js.word)) else t.runs[r].stages[k].status
  {
    assert !JobScheduler.Clash(t.runs[r].stages, js.name);
  }

  /** The same on columns: what an entry writes into the stage it names. */
  lemma EntryOnColumns(t: Tables, r: RunId, js: JenkinsStage, now: Time)
    requires Sound(t) && r in t.runs
    ensures var d := ApplyEntry(t, r, js, now);
      && OnlyStagesDiffer(t, d, r) && |d.runs[r].stages| == |t.runs[r].stages|
      && forall k | 0 <= k < |t.runs[r].stages| ::
           var was, after := t.runs[r].stages[k], d.runs[r].stages[k];
           if was.name != js.name || js.word == SaysOther then after == was
           else if js.word == SaysInProgress then after == was.(status := Running, startedAt := Some(now))
           else after == was.(
             status := if js.word == SaysSuccess then Succeeded else StageFailed,
             completedAt := Some(now),
             logExcerpt := js.log)
  {
    assert !JobScheduler.Clash(t.runs[r].stages, js.name);
  }

  /** What a poll with a final build status makes of the stages: nothing is left
      pending or running; a stage Jenkins last called successful succeeded, one
      it last called failed or unstable failed, one still in progress is
      skipped, and one it did not list keeps a final status or is skipped. */
  lemma FinalStages(t: Tables, r: RunId, p: Poll, open: Option<RowId>, close: Option<RowId>, now: Time)
    requires Sound(t) && r in t.runs && Terminal(p)
    requires JobScheduler.MayFinish(ApplyEntries(t, r, p.stages, now), r, open, close)
    ensures var d := JobScheduler.FinishBuild(ApplyEntries(t, r, p.stages, now), r, p.status, open, close, now);
      && r in d.runs && |d.runs[r].stages| == |t.runs[r].stages|
      && forall k | 0 <= k < |t.runs[r].stages| ::
           var was, now' := t.runs[r].stages[k], d.runs[r].stages[k];
           && now'.name == was.name && !JobScheduler.Unfinished(now'.status)
           && match LastWord(p.stages, was.name)
              case Some(SaysSuccess) => now'.status == Succeeded
              case Some(SaysFailed) => now'.status == StageFailed
              case Some(SaysUnstable) => now'.status == StageFailed
              case Some(_) => now'.status == Skipped
              case None => now'.status == if JobScheduler.Unfinished(was.status) then Skipped else was.status
  {
    LastWriterWins(t, r, p.stages, now);
    EntriesTouchStages(t, r, p.stages, now);
    forall name ensures LastWord(p.stages, name) != Some(SaysOther) {
      LastWordIsKnown(p.stages, name);
    }
    assert open.Some? ==> RowSound(ApplyEntries(t, r, p.stages, now), open.value);
  }

  lemma {:induction false} LastWordIsKnown(list: seq<JenkinsStage>, name: string)
    ensures LastWord(list, name) != Some(SaysOther)
  {
    if list != [] {
      LastWordIsKnown(list[..|list| - 1], name);
    }
  }
}
