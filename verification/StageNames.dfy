/** Stage names on their way from the Jenkinsfile to rows, to a CSV column and
    back: app/services/jenkinsfile_parser.py and app/pipeline_models.py. */
module StageNames {
  import opened Records
  import opened Queries
  import opened Text
  import JobScheduler
  import Machine

  // ------------------------------------------------------------ parsing

  /** parse_stages, given the group-1 matches of the stage pattern in order. */
  method ParseStages(matches: seq<string>) returns (stages: seq<string>)
    ensures stages == FirstOccurrences(matches)
  {
    stages := Deduplicate(matches);
  }

  /** Whatever the Jenkinsfile says, the plan a run is created from is a
      non-empty list of distinct names, so scheduling it is an enabled step and
      its rows are numbered 0, 1, ... with pairwise distinct names. */
  lemma PlannedRowsAreIdentified(matches: seq<string>, allowSynthetic: bool, request: JobScheduler.Request, now: Time, t: Tables)
    requires JobScheduler.StagePlan(FirstOccurrences(matches), allowSynthetic).Some?
    ensures var names := JobScheduler.StagePlan(FirstOccurrences(matches), allowSynthetic).value;
      && Machine.Enabled(t, Machine.Schedule(request, names))
      && var rows := JobScheduler.NewRun(request, names, now).stages;
         && |rows| == |names|
         && forall i, j | 0 <= i < |rows| && 0 <= j < |rows| ::
              rows[i].order == i && (rows[i].name == rows[j].name <==> i == j)
  {
    FirstOccurrencesMeans(matches);
    assert Distinct(JobScheduler.SYNTHETIC_STAGES) by {
      var s := JobScheduler.SYNTHETIC_STAGES;
      assert s[0][0] == 'C' && s[1][0] == 'B' && s[2][0] == 'T' && s[3][0] == 'D';
    }
  }

  // ---------------------------------------------------------------- CSV

  /** The white space that Python's `str.strip` removes. */
  predicate IsSpace(c: char) {
    var n := c as int;
    || 9 <= n <= 13 || 28 <= n <= 32 || n == 0x85 || n == 0xA0 || n == 0x1680
    || 0x2000 <= n <= 0x200A || n == 0x2028 || n == 0x2029 || n == 0x202F || n == 0x205F || n == 0x3000
  }

  /** Of the ASCII characters: the blank, the tab, the four line and page breaks
      and the four separators 28 to 31. */
  lemma AsciiWhiteSpace(c: char)
    requires c as int < 128
    ensures IsSpace(c) <==>
      || c == ' ' || c == '\t' || c == '\n' || c == '\r' || c == '\U{0B}' || c == '\U{0C}'
      || c == '\U{1C}' || c == '\U{1D}' || c == '\U{1E}' || c == '\U{1F}'
  {
  }

  function ToCsv(names: seq<string>): Option<string> {
    if names == [] then None else Some(Join(names, ','))
  }

  /** The `stage_names` property: an empty column means no stages. */
  function FromCsv(csv: Option<string>): seq<string> {
    if csv.None? || csv.value == "" then [] else Clean(Split(csv.value, ','), IsSpace)
  }

  predicate Plain(name: string) {
    name != "" && ',' !in name && Trimmed(name, IsSpace)
  }

  lemma StrippedIsPlain(piece: string)
    requires ',' !in piece
    ensures Strip(piece, IsSpace) == "" || Plain(Strip(piece, IsSpace))
  {
    StripTrims(piece, IsSpace);
  }

  lemma StrippedArePlain(pieces: seq<string>)
    requires forall p | p in pieces :: ',' !in p
    ensures forall name | name in Clean(pieces, IsSpace) :: Plain(name)
  {
    var stripped := StripAll(pieces, IsSpace);
    NonEmptyMembers(stripped);
    forall name | name in Clean(pieces, IsSpace) ensures Plain(name) {
      var i :| 0 <= i < |stripped| && stripped[i] == name;
      assert pieces[i] in pieces;
      StrippedIsPlain(pieces[i]);
    }
  }

  lemma FromCsvIsPlain(csv: Option<string>)
    ensures forall name | name in FromCsv(csv) :: Plain(name)
  {
    if csv.Some? && csv.value != "" {
      StrippedArePlain(Split(csv.value, ','));
    }
  }

  /** The names survive the column if and only if every one is non-empty,
      without a comma and without white space at either end. */
  lemma CsvRoundTripIff(names: seq<string>)
    ensures FromCsv(ToCsv(names)) == names <==> forall name | name in names :: Plain(name)
  {
    FromCsvIsPlain(ToCsv(names));
    if names != [] && forall name | name in names :: Plain(name) {
      SplitJoin(names, ',');
      CleanPlain(names, IsSpace);
      assert Join(names, ',') != "" by {
        assert Plain(names[0]);
      }
    }
  }
}
