/** The rows of the three scheduling tables and their stage rows.

    Identifiers are drawn from auto-increment counters. Times are integers on
    one clock. A worker's load is counted in half units: the source's 0.5 is 1. */
module Records {
  type RunId = nat
  type WorkerId = nat
  type RowId = nat
  type Time = int

  datatype Option<+T> = None | Some(value: T)

  datatype RunStatus = Queued | InProgress | Completed | Failed | Aborted

  datatype StageStatus = Pending | Running | Succeeded | StageFailed | Skipped

  datatype WorkerStatus = Idle | Busy | Offline

  datatype RowStatus = RowAssigned | RowRunning | RowDone | RowFailed

  datatype Language = Python | Node | Java | Go | Ruby | Generic

  /** A Jenkins build result; OTHER is any string the source does not name. */
  datatype JenkinsResult = SUCCESS | FAILURE | UNSTABLE | ABORTED | OTHER(text: string)

  /** What is written in the `result` column of an assignment row. */
  datatype RowResult = WasSuccess | WasFailure | WasTimeout | WasManualReset

  datatype Stage = Stage(
    order: nat,
    name: string,
    status: StageStatus,
    startedAt: Option<Time>,
    completedAt: Option<Time>,
    logExcerpt: Option<string>)

  /** A PipelineRun row together with its StageExecution rows, which live and
      die with it. `live` is the filter that keeps demo and test runs out of
      the scheduler; `language` is the worker language detected for the run. */
  datatype Run = Run(
    status: RunStatus,
    priority: int,
    queuedAt: Time,
    startedAt: Option<Time>,
    completedAt: Option<Time>,
    jobName: string,
    language: Language,
    live: bool,
    buildNumber: Option<int>,
    buildUrl: Option<string>,
    result: Option<JenkinsResult>,
    retryCount: nat,
    maxRetries: nat,
    retryAfter: Option<Time>,
    stages: seq<Stage>)

  datatype Worker = Worker(
    language: Language,
    status: WorkerStatus,
    load: nat,
    heartbeat: Option<Time>)

  /** A WorkerAssignment row. It is open until `completedAt` is written. */
  datatype Assignment = Assignment(
    run: RunId,
    worker: WorkerId,
    status: RowStatus,
    startedAt: Option<Time>,
    completedAt: Option<Time>,
    result: Option<RowResult>)
  {
    predicate Open() { completedAt.None? }
  }

  /** The committed contents of the tables. */
  datatype Tables = Tables(
    runs: map<RunId, Run>,
    workers: map<WorkerId, Worker>,
    rows: map<RowId, Assignment>,
    nextRun: nat,
    nextRow: nat)
  {
    /** Row `i` is an open assignment of run `r`. */
    predicate OpenFor(i: RowId, r: RunId) {
      i in rows && rows[i].Open() && rows[i].run == r
    }

    /** Row `i` is an open assignment of worker `w`. */
    predicate OpenAt(i: RowId, w: WorkerId) {
      i in rows && rows[i].Open() && rows[i].worker == w
    }

    /** Row `i`, open or closed, pairs run `r` with worker `w`. */
    predicate Pairs(i: RowId, r: RunId, w: WorkerId) {
      i in rows && rows[i].run == r && rows[i].worker == w
    }

    predicate HasStatus(r: RunId, status: RunStatus) {
      r in runs && runs[r].status == status
    }
  }
}
