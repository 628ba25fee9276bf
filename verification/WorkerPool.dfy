/** app/services/worker_pool.py: choosing, occupying and releasing a worker. */
module WorkerPool {
  import opened Records
  import opened Database
  import opened Queries

  function IdleWorkers(t: Tables): set<WorkerId> {
    set w | w in t.workers && t.workers[w].status.Idle?
  }

  function BusyIn(workers: map<WorkerId, Worker>): set<WorkerId> {
    set w | w in workers && workers[w].status.Busy?
  }

  /** The idle workers by load: the key map behind the source's query. */
  function IdleByLoad(t: Tables): (key: map<WorkerId, Key>)
    ensures key.Keys == IdleWorkers(t)
  {
    map w | w in t.workers && t.workers[w].status.Idle? :: (t.workers[w].load, 0)
  }

  /** Workers of the wanted language; failing those, generic ones; failing
      those, anyone. */
  function Candidates(t: Tables, language: Language): set<WorkerId> {
    var idle := IdleWorkers(t);
    var preferred := set w | w in idle && t.workers[w].language == language;
    var fallback := set w | w in idle && t.workers[w].language == Generic;
    if preferred != {} then preferred else if fallback != {} then fallback else idle
  }

  /** What the caller may rely on about the worker chosen for a language. */
  predicate MayServe(t: Tables, language: Language, w: WorkerId) {
    && w in Candidates(t, language)
    && forall v | v in Candidates(t, language) :: t.workers[w].load <= t.workers[v].load
  }

  function Engaged(worker: Worker, now: Time): Worker {
    worker.(status := Busy, load := if worker.load + 1 <= 2 then worker.load + 1 else 2, heartbeat := Some(now))
  }

  /** Worker `w` is occupied and a fresh open row ties it to run `r`. */
  function Occupy(t: Tables, r: RunId, w: WorkerId, now: Time): Tables
    requires w in t.workers
  {
    t.(
      workers := t.workers[w := Engaged(t.workers[w], now)],
      rows := t.rows[t.nextRow := Assignment(r, w, RowAssigned, None, None, None)],
      nextRow := t.nextRow + 1)
  }

  /** How a call to assign_worker ended. An assignment to a run that is gone
      breaks a foreign key: the transaction is rolled back and the call raises. */
  datatype Assigning = NoWorker | Serving(worker: WorkerId) | RunGone

  /** The worker column of the outcome is one the pool may pick. */
  predicate MayEnd(t: Tables, r: RunId, language: Language, outcome: Assigning) {
    match outcome
    case NoWorker => IdleWorkers(t) == {}
    case Serving(w) => r in t.runs && MayServe(t, language, w)
    case RunGone => r !in t.runs && IdleWorkers(t) != {}
  }

  function Assign(t: Tables, r: RunId, outcome: Assigning, now: Time): Tables
    requires outcome.Serving? ==> outcome.worker in t.workers
  {
    if outcome.Serving? then Occupy(t, r, outcome.worker, now) else t
  }

  /** The sublist of the given language, in order. */
  function OfLanguage(idle: seq<WorkerId>, workers: map<WorkerId, Worker>, language: Language): (some: seq<WorkerId>)
    requires Members(idle) <= workers.Keys
    ensures Members(some) == set w | w in Members(idle) && workers[w].language == language
  {
    if idle == [] then []
    else
      assert idle[0] in Members(idle);
      assert idle == [idle[0]] + idle[1..];
      assert Members(idle) == {idle[0]} + Members(idle[1..]);
      var rest := OfLanguage(idle[1..], workers, language);
      assert Members([idle[0]] + rest) == {idle[0]} + Members(rest);
      if workers[idle[0]].language == language then [idle[0]] + rest else rest
  }

  ghost predicate LoadOrdered(s: seq<WorkerId>, workers: map<WorkerId, Worker>) {
    forall i, j | 0 <= i < j < |s| && s[i] in workers && s[j] in workers ::
      workers[s[i]].load <= workers[s[j]].load
  }

  /** Filtering keeps a load-ordered list load-ordered. */
  lemma {:induction false} OfLanguageOrdered(idle: seq<WorkerId>, workers: map<WorkerId, Worker>, language: Language)
    requires Members(idle) <= workers.Keys && LoadOrdered(idle, workers)
    ensures LoadOrdered(OfLanguage(idle, workers, language), workers)
  {
    if idle != [] {
      var rest := OfLanguage(idle[1..], workers, language);
      assert idle == [idle[0]] + idle[1..];
      assert Members(idle[1..]) <= Members(idle);
      OfLanguageOrdered(idle[1..], workers, language);
      forall x | x in rest ensures x in workers && workers[idle[0]].load <= workers[x].load {
        assert x in Members(rest) && x in Members(idle[1..]) && idle[0] in Members(idle);
      }
    }
  }

  /** The candidate list of the source, given the answer to its query. */
  function CandidateList(t: Tables, idle: seq<WorkerId>, language: Language): seq<WorkerId>
    requires Members(idle) <= t.workers.Keys
  {
    var preferred := OfLanguage(idle, t.workers, language);
    var fallback := OfLanguage(idle, t.workers, Generic);
    if preferred != [] then preferred else if fallback != [] then fallback else idle
  }

  lemma CandidateMembers(t: Tables, idle: seq<WorkerId>, language: Language)
    requires Members(idle) == IdleWorkers(t)
    ensures Members(CandidateList(t, idle, language)) == Candidates(t, language)
  {
    NoMembers(OfLanguage(idle, t.workers, language));
    NoMembers(OfLanguage(idle, t.workers, Generic));
  }

  lemma CandidatesOrdered(t: Tables, idle: seq<WorkerId>, language: Language)
    requires Listing(idle, IdleByLoad(t)) && Members(idle) == IdleWorkers(t)
    ensures LoadOrdered(CandidateList(t, idle, language), t.workers)
  {
    assert forall x | x in idle :: x in Members(idle);
    assert LoadOrdered(idle, t.workers);
    OfLanguageOrdered(idle, t.workers, language);
    OfLanguageOrdered(idle, t.workers, Generic);
  }

  /** Its head is a worker the pool may serve with; the final sort of the
      source meets a list that the query already put in load order. */
  lemma FirstCandidate(t: Tables, idle: seq<WorkerId>, language: Language)
    requires Listing(idle, IdleByLoad(t))
    ensures Members(idle) <= t.workers.Keys
    ensures var list := CandidateList(t, idle, language);
      (list == [] <==> IdleWorkers(t) == {}) && (list != [] ==> MayServe(t, language, list[0]))
  {
    assert Members(idle) == IdleWorkers(t);
    var list := CandidateList(t, idle, language);
    CandidateMembers(t, idle, language);
    CandidatesOrdered(t, idle, language);
    NoMembers(list);
    if list != [] {
      assert list[0] in Members(list);
      HeadLeast(list, t.workers);
    }
  }

  lemma HeadLeast(s: seq<WorkerId>, workers: map<WorkerId, Worker>)
    requires s != [] && LoadOrdered(s, workers) && s[0] in workers
    ensures forall v | v in Members(s) && v in workers :: workers[s[0]].load <= workers[v].load
  {
    forall v | v in Members(s) && v in workers ensures workers[s[0]].load <= workers[v].load {
      var i :| 0 <= i < |s| && s[i] == v;
    }
  }

  /** Fails only when nobody is idle; otherwise the least loaded candidate of
      the best non-empty class is occupied. `at` is what the clock shows once
      the worker is chosen. */
  method AssignWorker(db: Session, r: RunId, language: Language, at: WorkerId -> Time) returns (outcome: Assigning)
    modifies db
    ensures MayEnd(old(db.Contents()), r, language, outcome)
    ensures db.Contents() == if outcome.Serving?
      then Occupy(old(db.Contents()), r, outcome.worker, at(outcome.worker)) else old(db.Contents())
  {
    var key := IdleByLoad(db.Contents());
    assert exists idle :: Listing(idle, key) by {
      var idle := ListingExists(key);
    }
    var idle :| Listing(idle, key);
    FirstCandidate(db.Contents(), idle, language);
    var candidates := CandidateList(db.Contents(), idle, language);
    if candidates == [] {
      return NoWorker;
    }
    var chosen := candidates[0];
    if r !in db.runs {
      return RunGone;
    }
    var worker := db.workers[chosen];
    var load := if worker.load + 1 <= 2 then worker.load + 1 else 2;
    db.workers := db.workers[chosen := worker.(status := Busy, load := load, heartbeat := Some(at(chosen)))];
    db.rows := db.rows[db.nextRow := Assignment(r, chosen, RowAssigned, None, None, None)];
    db.nextRow := db.nextRow + 1;
    return Serving(chosen);
  }

  /** A row the unordered `LIMIT 1` over (run, worker) may return. The query
      does not ask for an open row. */
  predicate MayClose(t: Tables, r: RunId, w: WorkerId, pick: Option<RowId>) {
    match pick
    case Some(j) => t.Pairs(j, r, w)
    case None => forall j | j in t.rows :: !t.Pairs(j, r, w)
  }

  function CloseRow(row: Assignment, success: bool, now: Time): Assignment {
    row.(
      status := if success then RowDone else RowFailed,
      completedAt := Some(now),
      result := Some(if success then WasSuccess else WasFailure))
  }

  function FreeWorker(worker: Worker, now: Time): Worker {
    worker.(status := Idle, load := if worker.load >= 1 then worker.load - 1 else 0, heartbeat := Some(now))
  }

  function Release(t: Tables, w: WorkerId, success: bool, pick: Option<RowId>, now: Time): Tables
    requires pick.Some? ==> pick.value in t.rows
  {
    if w !in t.workers then t
    else
      var t1 := t.(workers := t.workers[w := FreeWorker(t.workers[w], now)]);
      if pick.None? then t1
      else t1.(rows := t.rows[pick.value := CloseRow(t.rows[pick.value], success, now)])
  }

  method ReleaseWorker(db: Session, w: WorkerId, r: RunId, success: bool, now: Time) returns (pick: Option<RowId>)
    modifies db
    ensures MayClose(old(db.Contents()), r, w, pick)
    ensures db.Contents() == Release(old(db.Contents()), w, success, pick, now)
  {
    pick := None;
    if j :| j in db.rows && db.rows[j].run == r && db.rows[j].worker == w {
      pick := Some(j);
    }
    if w !in db.workers {
      return;
    }
    var worker := db.workers[w];
    db.workers := db.workers[w := worker.(status := Idle, load := if worker.load >= 1 then worker.load - 1 else 0, heartbeat := Some(now))];
    if pick.Some? {
      db.rows := db.rows[pick.value := CloseRow(db.rows[pick.value], success, now)];
    }
  }
}
