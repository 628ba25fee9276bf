/** The database session every service function is handed. */
module Database {
  import opened Records

  class Session {
    var runs: map<RunId, Run>
    var workers: map<WorkerId, Worker>
    var rows: map<RowId, Assignment>
    var nextRun: nat
    var nextRow: nat

    constructor (t: Tables)
      ensures Contents() == t
    {
      runs, workers, rows := t.runs, t.workers, t.rows;
      nextRun, nextRow := t.nextRun, t.nextRow;
    }

    function Contents(): Tables
      reads this
    {
      Tables(runs, workers, rows, nextRun, nextRow)
    }
  }
}
