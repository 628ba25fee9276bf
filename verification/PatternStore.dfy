/** app/services/pattern_store.py: the ledger of error signatures and the query
    for similar ones. Hashing and TF-IDF scoring are left to their libraries:
    signatures and scores are given. */
module PatternStore {
  import opened Records

  datatype PatternRecord = PatternRecord(signature: string, failureType: string, sample: string, count: nat)

  /** What one upsert is called with; the signature is the sample's hash. */
  datatype Sighting = Sighting(signature: string, failureType: string, sample: string)

  class PatternTable {
    var records: seq<PatternRecord>

    constructor ()
      ensures records == []
    {
      records := [];
    }

    /** `upsert_pattern`. */
    method Upsert(s: Sighting)
      requires UniqueSignatures(records)
      modifies this
      ensures records == Upserted(old(records), s)
      ensures UniqueSignatures(records)
    {
      UpsertKeepsUnique(records, s);
      if i :| 0 <= i < |records| && records[i].signature == s.signature {
        UpsertKnown(records, s, i);
        records := records[i := CountedUp(records[i], s)];
      } else {
        UpsertUnknown(records, s);
        records := records + [NewRecord(s)];
      }
    }

    /** `find_similar`, given the similarity of every record to the query, or
        none if the computation failed. */
    method FindSimilar(scores: Option<seq<real>>, topK: nat) returns (matches: seq<Match>)
      requires scores.Some? ==> |scores.value| == |records|
      ensures matches == if scores.None? then [] else Top(Qualifying(records, scores.value), topK)
    {
      if records == [] || scores.None? {
        return [];
      }
      matches := [];
      for n := 0 to |records|
        invariant matches == Qualifying(records[..n], scores.value[..n])
      {
        assert records[..n + 1][..n] == records[..n] && scores.value[..n + 1][..n] == scores.value[..n];
        if scores.value[n] >= THRESHOLD {
          matches := matches + [Match(records[n], scores.value[n])];
        }
      }
      assert records[..|records|] == records && scores.value[..|records|] == scores.value;
      matches := SortDescending(matches);
      if topK <= |matches| {
        matches := matches[..topK];
      }
    }
  }

  // -------------------------------------------------------------- ledger

  predicate UniqueSignatures(records: seq<PatternRecord>) {
    forall i, j | 0 <= i < j < |records| :: records[i].signature != records[j].signature
  }

  /** The record of the sighting's signature is counted up, or a new one added. */
  function Upserted(records: seq<PatternRecord>, s: Sighting): seq<PatternRecord> {
    if records == [] then [NewRecord(s)]
    else if records[0].signature == s.signature then [CountedUp(records[0], s)] + records[1..]
    else [records[0]] + Upserted(records[1..], s)
  }

  function CountedUp(x: PatternRecord, s: Sighting): PatternRecord {
    x.(count := x.count + 1, failureType := s.failureType)
  }

  function NewRecord(s: Sighting): PatternRecord {
    PatternRecord(s.signature, s.failureType, s.sample, 1)
  }

  predicate Unknown(records: seq<PatternRecord>, signature: string) {
    forall i | 0 <= i < |records| :: records[i].signature != signature
  }

  lemma {:induction false} UpsertKnown(records: seq<PatternRecord>, s: Sighting, k: nat)
    requires UniqueSignatures(records) && k < |records| && records[k].signature == s.signature
    ensures Upserted(records, s) == records[k := CountedUp(records[k], s)]
  {
    if k > 0 {
      var rest := records[1..];
      assert rest[k - 1] == records[k];
      UpsertKnown(rest, s, k - 1);
      assert records == [records[0]] + rest;
    }
  }

  lemma {:induction false} UpsertUnknown(records: seq<PatternRecord>, s: Sighting)
    requires Unknown(records, s.signature)
    ensures Upserted(records, s) == records + [NewRecord(s)]
  {
    if records != [] {
      var rest := records[1..];
      assert forall i | 0 <= i < |rest| :: rest[i] == records[i + 1];
      UpsertUnknown(rest, s);
      assert records == [records[0]] + rest;
    }
  }

  lemma UpsertKeepsUnique(records: seq<PatternRecord>, s: Sighting)
    requires UniqueSignatures(records)
    ensures UniqueSignatures(Upserted(records, s))
  {
    if k :| 0 <= k < |records| && records[k].signature == s.signature {
      UpsertKnown(records, s, k);
    } else {
      UpsertUnknown(records, s);
    }
  }

  /** The ledger after a history of sightings. */
  function Ledger(history: seq<Sighting>): seq<PatternRecord> {
    if history == [] then []
    else Upserted(Ledger(history[..|history| - 1]), history[|history| - 1])
  }

  function CountOf(records: seq<PatternRecord>, signature: string): nat {
    if records == [] then 0
    else (if records[0].signature == signature then records[0].count else 0) + CountOf(records[1..], signature)
  }

  function TotalCount(records: seq<PatternRecord>): nat {
    if records == [] then 0 else records[0].count + TotalCount(records[1..])
  }

  function SightingsOf(history: seq<Sighting>, signature: string): nat {
    if history == [] then 0
    else SightingsOf(history[..|history| - 1], signature) + if history[|history| - 1].signature == signature then 1 else 0
  }

  lemma {:induction false} UpsertCounts(records: seq<PatternRecord>, s: Sighting, signature: string)
    ensures CountOf(Upserted(records, s), signature) == CountOf(records, signature) + if s.signature == signature then 1 else 0
    ensures TotalCount(Upserted(records, s)) == TotalCount(records) + 1
  {
    if records != [] {
      if records[0].signature == s.signature {
        assert Upserted(records, s)[1..] == records[1..];
      } else {
        UpsertCounts(records[1..], s, signature);
        assert Upserted(records, s)[1..] == Upserted(records[1..], s);
      }
    }
  }

  /** After any history signatures are unique, each record counts the sightings
      of its signature, and the counts add up to the number of calls. */
  lemma {:induction false} LedgerIsExact(history: seq<Sighting>)
    ensures var records := Ledger(history);
      && UniqueSignatures(records)
      && (forall signature :: CountOf(records, signature) == SightingsOf(history, signature))
      && TotalCount(records) == |history|
  {
    if history != [] {
      var before, s := history[..|history| - 1], history[|history| - 1];
      LedgerIsExact(before);
      UpsertKeepsUnique(Ledger(before), s);
      forall signature ensures CountOf(Ledger(history), signature) == SightingsOf(history, signature) {
        UpsertCounts(Ledger(before), s, signature);
      }
      UpsertCounts(Ledger(before), s, s.signature);
    }
  }

  /** The failure type of the last sighting of a signature. */
  function LatestType(history: seq<Sighting>, signature: string): Option<string> {
    if history == [] then None
    else
      var n := |history| - 1;
      if history[n].signature == signature then Some(history[n].failureType) else LatestType(history[..n], signature)
  }

  /** The sample of the first sighting of a signature. */
  function FirstSample(history: seq<Sighting>, signature: string): Option<string> {
    if history == [] then None
    else if history[0].signature == signature then Some(history[0].sample)
    else FirstSample(history[1..], signature)
  }

  lemma {:induction false} FirstSampleSnoc(history: seq<Sighting>, s: Sighting, signature: string)
    ensures FirstSample(history + [s], signature) ==
      if FirstSample(history, signature).Some? || s.signature != signature then FirstSample(history, signature)
      else Some(s.sample)
  {
    if history != [] {
      assert (history + [s])[1..] == history[1..] + [s];
      FirstSampleSnoc(history[1..], s, signature);
    } else {
      assert (history + [s])[1..] == [];
    }
  }

  predicate Recalls(history: seq<Sighting>, x: PatternRecord) {
    LatestType(history, x.signature) == Some(x.failureType) && FirstSample(history, x.signature) == Some(x.sample)
  }

  /** Each record has the failure type it was last reported with and the sample
      it was first reported with, and a signature without a record was never seen. */
  ghost predicate Remembers(history: seq<Sighting>, records: seq<PatternRecord>) {
    && (forall i | 0 <= i < |records| :: Recalls(history, records[i]))
    && (forall signature :: Unknown(records, signature) ==> FirstSample(history, signature).None?)
  }

  lemma {:induction false} LedgerRemembers(history: seq<Sighting>)
    ensures Remembers(history, Ledger(history))
  {
    if history != [] {
      var before, s := history[..|history| - 1], history[|history| - 1];
      LedgerRemembers(before);
      LedgerIsExact(before);
      UpsertRemembers(before, Ledger(before), s);
      assert history == before + [s];
    }
  }

  lemma UpsertRemembers(before: seq<Sighting>, records: seq<PatternRecord>, s: Sighting)
    requires UniqueSignatures(records) && Remembers(before, records)
    ensures Remembers(before + [s], Upserted(records, s))
  {
    var after, history := Upserted(records, s), before + [s];
    assert history[..|before|] == before;
    forall signature ensures FirstSample(history, signature) ==
      if FirstSample(before, signature).Some? || s.signature != signature then FirstSample(before, signature) else Some(s.sample)
    {
      FirstSampleSnoc(before, s, signature);
    }
    if k :| 0 <= k < |records| && records[k].signature == s.signature {
      UpsertKnown(records, s, k);
      forall signature | Unknown(after, signature) ensures Unknown(records, signature) && signature != s.signature {
        assert after[k].signature == s.signature;
        assert forall i | 0 <= i < |records| :: after[i].signature == records[i].signature;
      }
    } else {
      UpsertUnknown(records, s);
      forall signature | Unknown(after, signature) ensures Unknown(records, signature) && signature != s.signature {
        assert after[|records|].signature == s.signature;
        assert forall i | 0 <= i < |records| :: after[i] == records[i];
      }
    }
  }

  /** With unique signatures the count of a signature is that of its record. */
  lemma {:induction false} CountIsTheRecords(records: seq<PatternRecord>, i: nat)
    requires UniqueSignatures(records) && i < |records|
    ensures CountOf(records, records[i].signature) == records[i].count
  {
    var rest := records[1..];
    if i > 0 {
      CountIsTheRecords(rest, i - 1);
    } else {
      NoCount(rest, records[0].signature);
    }
  }

  lemma {:induction false} NoCount(records: seq<PatternRecord>, signature: string)
    requires forall i | 0 <= i < |records| :: records[i].signature != signature
    ensures CountOf(records, signature) == 0
  {
    if records != [] {
      NoCount(records[1..], signature);
    }
  }

  // ------------------------------------------------------------ similar

  const THRESHOLD: real := 0.75

  datatype Match = Match(record: PatternRecord, score: real)

  function Qualifying(records: seq<PatternRecord>, scores: seq<real>): seq<Match>
    requires |scores| == |records|
  {
    if records == [] then []
    else
      var n := |records| - 1;
      Qualifying(records[..n], scores[..n]) + if scores[n] >= THRESHOLD then [Match(records[n], scores[n])] else []
  }

  predicate Descending(ms: seq<Match>) {
    forall i, j | 0 <= i < j < |ms| :: ms[i].score >= ms[j].score
  }

  /** Python's stable sort by descending score: a new entry goes behind those
      that score at least as much. */
  function InsertDescending(ms: seq<Match>, m: Match): seq<Match> {
    if ms == [] || ms[|ms| - 1].score >= m.score then ms + [m]
    else InsertDescending(ms[..|ms| - 1], m) + [ms[|ms| - 1]]
  }

  function SortDescending(ms: seq<Match>): seq<Match> {
    if ms == [] then [] else InsertDescending(SortDescending(ms[..|ms| - 1]), ms[|ms| - 1])
  }

  function Top(ms: seq<Match>, k: nat): seq<Match> {
    var sorted := SortDescending(ms);
    if k <= |sorted| then sorted[..k] else sorted
  }

  lemma {:induction false} InsertKeepsAll(ms: seq<Match>, m: Match)
    ensures multiset(InsertDescending(ms, m)) == multiset(ms) + multiset{m}
  {
    if ms != [] && ms[|ms| - 1].score < m.score {
      var front, last := ms[..|ms| - 1], ms[|ms| - 1];
      assert ms == front + [last];
      InsertKeepsAll(front, m);
    }
  }

  lemma DescendingSnoc(ms: seq<Match>, last: Match)
    requires Descending(ms) && (ms != [] ==> ms[|ms| - 1].score >= last.score)
    ensures Descending(ms + [last])
  {
  }

  lemma {:induction false} InsertSorts(ms: seq<Match>, m: Match)
    requires Descending(ms)
    ensures var sorted := InsertDescending(ms, m);
      && Descending(sorted)
      && |sorted| == |ms| + 1
      && (sorted[|ms|] == m || (ms != [] && sorted[|ms|] == ms[|ms| - 1]))
  {
    if ms == [] || ms[|ms| - 1].score >= m.score {
      DescendingSnoc(ms, m);
    } else {
      var front, last := ms[..|ms| - 1], ms[|ms| - 1];
      InsertSorts(front, m);
      DescendingSnoc(InsertDescending(front, m), last);
    }
  }

  lemma {:induction false} SortSorts(ms: seq<Match>)
    ensures Descending(SortDescending(ms))
  {
    if ms != [] {
      var front, last := ms[..|ms| - 1], ms[|ms| - 1];
      SortSorts(front);
      var sorted := SortDescending(front);
      InsertSorts(sorted, last);
    }
  }

  lemma {:induction false} SortKeepsAll(ms: seq<Match>)
    ensures multiset(SortDescending(ms)) == multiset(ms)
  {
    if ms != [] {
      var front, last := ms[..|ms| - 1], ms[|ms| - 1];
      SortKeepsAll(front);
      var sorted := SortDescending(front);
      InsertKeepsAll(sorted, last);
      assert ms == front + [last];
    }
  }

  /** The entries of one score, in their order. */
  function WithScore(ms: seq<Match>, score: real): seq<Match> {
    if ms == [] then []
    else
      var n := |ms| - 1;
      WithScore(ms[..n], score) + if ms[n].score == score then [ms[n]] else []
  }

  lemma WithScoreSnoc(ms: seq<Match>, last: Match, score: real)
    ensures WithScore(ms + [last], score) == WithScore(ms, score) + if last.score == score then [last] else []
  {
    assert (ms + [last])[..|ms|] == ms;
  }

  lemma {:induction false} InsertIsStable(ms: seq<Match>, m: Match, score: real)
    ensures WithScore(InsertDescending(ms, m), score) == WithScore(ms, score) + if m.score == score then [m] else []
  {
    if ms == [] || ms[|ms| - 1].score >= m.score {
      WithScoreSnoc(ms, m, score);
    } else {
      var front, last := ms[..|ms| - 1], ms[|ms| - 1];
      InsertIsStable(front, m, score);
      WithScoreSnoc(InsertDescending(front, m), last, score);
    }
  }

  /** Equal scores keep the order of the table, as Python's sort does. */
  lemma {:induction false} SortIsStable(ms: seq<Match>, score: real)
    ensures WithScore(SortDescending(ms), score) == WithScore(ms, score)
  {
    if ms != [] {
      var front := ms[..|ms| - 1];
      SortIsStable(front, score);
      InsertIsStable(SortDescending(front), ms[|ms| - 1], score);
    }
  }

  lemma {:induction false} QualifyingMeans(records: seq<PatternRecord>, scores: seq<real>)
    requires |scores| == |records|
    ensures forall m :: m in Qualifying(records, scores) <==>
      exists i | 0 <= i < |records| :: m == Match(records[i], scores[i]) && scores[i] >= 0.75
  {
    if records != [] {
      var n := |records| - 1;
      QualifyingMeans(records[..n], scores[..n]);
      forall m ensures m in Qualifying(records, scores) <==>
        exists i | 0 <= i < |records| :: m == Match(records[i], scores[i]) && scores[i] >= THRESHOLD
      {
        if i :| 0 <= i < n && m == Match(records[i], scores[i]) && scores[i] >= THRESHOLD {
          assert records[..n][i] == records[i] && scores[..n][i] == scores[i];
        }
      }
    }
  }

  function Omitted(ms: seq<Match>, k: nat): seq<Match> {
    var sorted := SortDescending(ms);
    if k <= |sorted| then sorted[k..] else []
  }

  /** A descending list cut in two: the front is descending and nothing in the
      rest scores more than anything in it. */
  lemma CutIsOrdered(sorted: seq<Match>, top: seq<Match>, omitted: seq<Match>)
    requires Descending(sorted) && sorted == top + omitted
    ensures Descending(top)
    ensures forall o, m | o in omitted && m in top :: m.score >= o.score
  {
    forall o, m | o in omitted && m in top ensures m.score >= o.score {
      var i :| 0 <= i < |top| && top[i] == m;
      var j :| 0 <= j < |omitted| && omitted[j] == o;
      assert sorted[i] == m && sorted[|top| + j] == o;
    }
    assert forall i | 0 <= i < |top| :: top[i] == sorted[i];
  }

  lemma {:induction false} SortKeepsLength(ms: seq<Match>)
    ensures |SortDescending(ms)| == |ms|
  {
    if ms != [] {
      var front, last := ms[..|ms| - 1], ms[|ms| - 1];
      SortKeepsLength(front);
      SortSorts(front);
      var sorted := SortDescending(front);
      InsertSorts(sorted, last);
    }
  }

  lemma CutKeepsAll(sorted: seq<Match>, k: nat)
    requires k <= |sorted|
    ensures sorted == sorted[..k] + sorted[k..]
    ensures multiset(sorted) == multiset(sorted[..k]) + multiset(sorted[k..])
  {
    assert sorted == sorted[..k] + sorted[k..];
  }

  lemma TopAndOmitted(ms: seq<Match>, k: nat)
    ensures SortDescending(ms) == Top(ms, k) + Omitted(ms, k)
    ensures multiset(SortDescending(ms)) == multiset(Top(ms, k)) + multiset(Omitted(ms, k))
  {
    var sorted := SortDescending(ms);
    CutKeepsAll(sorted, if k <= |sorted| then k else |sorted|);
  }

  /** The answer is descending, has at most `k` entries and fewer only if fewer
      qualify; the omitted entries are the other qualifying ones, and none of
      them scores more than one that was returned. */
  lemma TopIsBest(ms: seq<Match>, k: nat)
    ensures Descending(Top(ms, k))
    ensures |Top(ms, k)| == if k <= |ms| then k else |ms|
    ensures multiset(ms) == multiset(Top(ms, k)) + multiset(Omitted(ms, k))
    ensures forall o, m | o in Omitted(ms, k) && m in Top(ms, k) :: m.score >= o.score
  {
    SortSorts(ms);
    SortKeepsAll(ms);
    SortKeepsLength(ms);
    TopAndOmitted(ms, k);
    var sorted, top, omitted := SortDescending(ms), Top(ms, k), Omitted(ms, k);
    CutIsOrdered(sorted, top, omitted);
  }
}
