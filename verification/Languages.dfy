/** `detect_language` of app/services/worker_pool.py: which kind of worker a run
    should get, guessed from its repository URL and its stage names. */
module Languages {
  import opened Records
  import opened Text

  /** In the order of the source's enumeration, which settles ties. */
  function Rank(l: Language): nat {
    match l
    case Python => 0
    case Node => 1
    case Java => 2
    case Go => 3
    case Ruby => 4
    case Generic => 5
  }

  const LANGUAGES: seq<Language> := [Python, Node, Java, Go, Ruby, Generic]

  function Signals(l: Language): seq<string> {
    match l
    case Python => ["python", "pytest", "pip", "django", "flask", "fastapi", ".py"]
    case Node => ["node", "npm", "yarn", "jest", "react", "next", ".js", ".ts"]
    case Java => ["java", "maven", "gradle", "spring", "kotlin", ".java"]
    case Go => ["go", "golang", "gotest", ".go"]
    case Ruby => ["ruby", "rails", "rspec", "bundler", ".rb"]
    case Generic => []
  }

  function Hints(l: Language): seq<string> {
    match l
    case Python => ["pytest", "pip install", "python", "coverage", "mypy", "ruff"]
    case Node => ["npm", "yarn", "jest", "webpack", "eslint", "next build"]
    case Java => ["maven", "gradle", "mvn", "java", "spring"]
    case Go => ["go test", "go build", "golangci"]
    case Ruby => ["bundle", "rspec", "rails"]
    case Generic => []
  }

  /** How many of the words occur in the text. */
  function Found(words: seq<string>, text: string): nat {
    if words == [] then 0
    else Found(words[..|words| - 1], text) + if Contains(text, words[|words| - 1]) then 1 else 0
  }

  /** The word occurs in one of the names, whatever their case. */
  predicate InSome(names: seq<string>, word: string) {
    names != [] && (Contains(Lower(names[0]), word) || InSome(names[1..], word))
  }

  /** How many of the words occur in one of the names each. */
  function Named(words: seq<string>, names: seq<string>): nat {
    if words == [] then 0
    else Named(words[..|words| - 1], names) + if InSome(names, words[|words| - 1]) then 1 else 0
  }

  /** The text the signals are looked up in. */
  function Corpus(repoUrl: string, names: seq<string>): string {
    Lower(repoUrl + " " + Join(names, ' '))
  }

  function Score(repoUrl: string, names: seq<string>, l: Language): nat {
    2 * Found(Signals(l), Corpus(repoUrl, names)) + 3 * Named(Hints(l), names)
  }

  ghost predicate NoScore(score: Language -> nat) {
    forall l :: score(l) == 0
  }

  /** Nobody scores more, and nobody ranked before scores as much; without any
      score the language is generic. */
  ghost predicate Best(score: Language -> nat, best: Language) {
    if NoScore(score) then best == Generic
    else (forall l :: score(l) <= score(best)) && (forall l | Rank(l) < Rank(best) :: score(l) < score(best))
  }

  ghost predicate Detected(repoUrl: string, names: seq<string>, best: Language) {
    Best(l => Score(repoUrl, names, l), best)
  }

  method AddSignals(words: seq<string>, text: string, before: nat) returns (score: nat)
    ensures score == before + 2 * Found(words, text)
  {
    score := before;
    for n := 0 to |words|
      invariant score == before + 2 * Found(words[..n], text)
    {
      assert words[..n + 1][..n] == words[..n];
      if Contains(text, words[n]) {
        score := score + 2;
      }
    }
    assert words[..|words|] == words;
  }

  method AddHints(words: seq<string>, names: seq<string>, before: nat) returns (score: nat)
    ensures score == before + 3 * Named(words, names)
  {
    score := before;
    for n := 0 to |words|
      invariant score == before + 3 * Named(words[..n], names)
    {
      assert words[..n + 1][..n] == words[..n];
      if InSome(names, words[n]) {
        score := score + 3;
      }
    }
    assert words[..|words|] == words;
  }

  /** `max` over the scores keeps the first of the best. */
  method Winner(scores: seq<nat>) returns (best: nat)
    requires |scores| == |LANGUAGES|
    ensures best < |scores|
    ensures forall k | 0 <= k < |scores| :: scores[k] <= scores[best]
    ensures forall k | 0 <= k < best :: scores[k] < scores[best]
  {
    best := 0;
    for k := 1 to |scores|
      invariant best < k
      invariant forall j | 0 <= j < k :: scores[j] <= scores[best]
      invariant forall j | 0 <= j < best :: scores[j] < scores[best]
    {
      if scores[k] > scores[best] {
        best := k;
      }
    }
  }

  lemma Ranked(l: Language)
    ensures Rank(l) < |LANGUAGES| && LANGUAGES[Rank(l)] == l
  {
  }

  /** `detect_language`. */
  method DetectLanguage(repoUrl: string, names: seq<string>) returns (best: Language)
    ensures Detected(repoUrl, names, best)
  {
    var text := Lower(repoUrl + " " + Join(names, ' '));
    var scores: seq<nat> := [0, 0, 0, 0, 0, 0];
    for k := 0 to |LANGUAGES|
      invariant |scores| == |LANGUAGES|
      invariant forall j | 0 <= j < |scores| ::
        scores[j] == if j < k then 2 * Found(Signals(LANGUAGES[j]), text) else 0
    {
      var score := AddSignals(Signals(LANGUAGES[k]), text, scores[k]);
      scores := scores[k := score];
    }
    for k := 0 to |LANGUAGES|
      invariant |scores| == |LANGUAGES|
      invariant forall j | 0 <= j < |scores| ::
        scores[j] == 2 * Found(Signals(LANGUAGES[j]), text) + if j < k then 3 * Named(Hints(LANGUAGES[j]), names) else 0
    {
      var score := AddHints(Hints(LANGUAGES[k]), names, scores[k]);
      scores := scores[k := score];
    }
    var at := Winner(scores);
    best := if scores[at] == 0 then Generic else LANGUAGES[at];
    BestOfScores(l => Score(repoUrl, names, l), scores, at);
  }

  lemma BestOfScores(score: Language -> nat, scores: seq<nat>, at: nat)
    requires |scores| == |LANGUAGES| && at < |scores|
    requires forall j | 0 <= j < |scores| :: scores[j] == score(LANGUAGES[j])
    requires forall k | 0 <= k < |scores| :: scores[k] <= scores[at]
    requires forall k | 0 <= k < at :: scores[k] < scores[at]
    ensures Best(score, if scores[at] == 0 then Generic else LANGUAGES[at])
  {
    forall l ensures score(l) == scores[Rank(l)] {
      Ranked(l);
    }
    assert score(LANGUAGES[at]) == scores[at];
    assert Rank(LANGUAGES[at]) == at;
  }

  /** The conditions leave one language. */
  lemma BestIsUnique(score: Language -> nat, a: Language, b: Language)
    requires Best(score, a) && Best(score, b)
    ensures a == b
  {
    if Rank(a) == Rank(b) {
      Ranked(a);
      Ranked(b);
    }
  }

  // ------------------------------------------ what the guess depends on

  /** No signal holds a space, so none straddles two stage names. */
  lemma SignalsAreWords(l: Language)
    ensures forall k | 0 <= k < |Signals(l)| :: Signals(l)[k] != "" && ' ' !in Signals(l)[k]
  {
  }

  lemma {:induction false} InJoined(names: seq<string>, word: string)
    requires word != "" && ' ' !in word
    ensures Contains(Lower(Join(names, ' ')), word) <==> InSome(names, word)
  {
    if |names| == 1 {
      assert names[1..] == [];
    } else if |names| > 1 {
      var rest := Join(names[1..], ' ');
      InJoined(names[1..], word);
      LowerConcat(names[0] + [' '], rest);
      LowerConcat(names[0], [' ']);
      assert Lower([' ']) == [' '];
      ContainsAround(Lower(names[0]), ' ', Lower(rest), word);
    }
  }

  lemma InCorpus(repoUrl: string, names: seq<string>, word: string)
    requires word != "" && ' ' !in word
    ensures Contains(Corpus(repoUrl, names), word) <==> Contains(Lower(repoUrl), word) || InSome(names, word)
  {
    InJoined(names, word);
    LowerConcat(repoUrl + " ", Join(names, ' '));
    LowerConcat(repoUrl, " ");
    assert Lower(" ") == [' '];
    ContainsAround(Lower(repoUrl), ' ', Lower(Join(names, ' ')), word);
  }

  lemma {:induction false} InSomeIff(names: seq<string>, word: string)
    ensures InSome(names, word) <==> exists name :: name in names && Contains(Lower(name), word)
  {
    if names != [] {
      InSomeIff(names[1..], word);
      assert names == [names[0]] + names[1..];
    }
  }

  lemma InSomeOther(names: seq<string>, others: seq<string>, word: string)
    requires forall name | name in names :: name in others
    ensures InSome(names, word) ==> InSome(others, word)
  {
    InSomeIff(names, word);
    InSomeIff(others, word);
  }

  lemma {:induction false} FoundInMore(words: seq<string>, repoUrl: string, names: seq<string>, more: seq<string>)
    requires forall k | 0 <= k < |words| :: words[k] != "" && ' ' !in words[k]
    requires forall name | name in names :: name in more
    ensures Found(words, Corpus(repoUrl, names)) <= Found(words, Corpus(repoUrl, more))
  {
    if words != [] {
      var n := |words| - 1;
      FoundInMore(words[..n], repoUrl, names, more);
      InCorpus(repoUrl, names, words[n]);
      InCorpus(repoUrl, more, words[n]);
      InSomeOther(names, more, words[n]);
    }
  }

  lemma {:induction false} NamedInMore(words: seq<string>, names: seq<string>, more: seq<string>)
    requires forall name | name in names :: name in more
    ensures Named(words, names) <= Named(words, more)
  {
    if words != [] {
      NamedInMore(words[..|words| - 1], names, more);
      InSomeOther(names, more, words[|words| - 1]);
    }
  }

  /** Further stages never lower a score. */
  lemma MoreStagesScoreMore(repoUrl: string, names: seq<string>, more: seq<string>, l: Language)
    requires forall name | name in names :: name in more
    ensures Score(repoUrl, names, l) <= Score(repoUrl, more, l)
  {
    SignalsAreWords(l);
    FoundInMore(Signals(l), repoUrl, names, more);
    NamedInMore(Hints(l), names, more);
  }

  /** The order and repetition of stages do not matter, although the source
      joins them into one text before it searches that. */
  lemma OnlyTheSetOfStagesMatters(repoUrl: string, names: seq<string>, others: seq<string>, a: Language, b: Language)
    requires forall name :: name in names <==> name in others
    requires Detected(repoUrl, names, a) && Detected(repoUrl, others, b)
    ensures a == b
  {
    forall l ensures Score(repoUrl, names, l) == Score(repoUrl, others, l) {
      MoreStagesScoreMore(repoUrl, names, others, l);
      MoreStagesScoreMore(repoUrl, others, names, l);
    }
    SameBest(l => Score(repoUrl, names, l), l => Score(repoUrl, others, l), a, b);
  }

  lemma SameBest(score: Language -> nat, other: Language -> nat, a: Language, b: Language)
    requires forall l :: score(l) == other(l)
    requires Best(score, a) && Best(other, b)
    ensures a == b
  {
    assert Best(score, b);
    BestIsUnique(score, a, b);
  }

  lemma {:induction false} NothingFound(words: seq<string>, repoUrl: string, names: seq<string>)
    requires forall k | 0 <= k < |words| :: words[k] != "" && ' ' !in words[k]
    ensures Found(words, Corpus(repoUrl, names)) == 0 <==>
      forall k | 0 <= k < |words| :: !Contains(Lower(repoUrl), words[k]) && !InSome(names, words[k])
  {
    if words != [] {
      var n := |words| - 1;
      NothingFound(words[..n], repoUrl, names);
      InCorpus(repoUrl, names, words[n]);
      assert forall k | 0 <= k < n :: words[..n][k] == words[k];
    }
  }

  lemma {:induction false} NothingNamed(words: seq<string>, names: seq<string>)
    ensures Named(words, names) == 0 <==> forall k | 0 <= k < |words| :: !InSome(names, words[k])
  {
    if words != [] {
      var n := |words| - 1;
      NothingNamed(words[..n], names);
      assert forall k | 0 <= k < n :: words[..n][k] == words[k];
    }
  }

  /** No trace of the language: no signal in the URL or a stage name and no hint
      in a stage name. */
  predicate NoTrace(repoUrl: string, names: seq<string>, l: Language) {
    var signals, hints := Signals(l), Hints(l);
    && (forall k | 0 <= k < |signals| :: !Contains(Lower(repoUrl), signals[k]) && !InSome(names, signals[k]))
    && (forall k | 0 <= k < |hints| :: !InSome(names, hints[k]))
  }

  lemma ScoresIff(repoUrl: string, names: seq<string>, l: Language)
    ensures Score(repoUrl, names, l) == 0 <==> NoTrace(repoUrl, names, l)
  {
    SignalsAreWords(l);
    NothingFound(Signals(l), repoUrl, names);
    NothingNamed(Hints(l), names);
  }

  lemma GenericIsLast(score: Language -> nat, best: Language)
    requires Best(score, best) && score(Generic) == 0
    ensures best == Generic <==> NoScore(score)
  {
  }

  /** A run gets the generic language exactly when there is no trace of any. */
  lemma GenericIff(repoUrl: string, names: seq<string>, best: Language)
    requires Detected(repoUrl, names, best)
    ensures best == Generic <==> forall l :: NoTrace(repoUrl, names, l)
  {
    var score := l => Score(repoUrl, names, l);
    assert score(Generic) == 0;
    GenericIsLast(score, best);
    if NoScore(score) {
      forall l ensures NoTrace(repoUrl, names, l) {
        assert score(l) == 0;
        ScoresIff(repoUrl, names, l);
      }
    } else {
      var l :| score(l) != 0;
      ScoresIff(repoUrl, names, l);
    }
  }

  /** One hint in a stage name weighs three, one signal two. */
  lemma Weights(repoUrl: string, names: seq<string>, a: Language, b: Language)
    requires Found(Signals(a), Corpus(repoUrl, names)) == 1 && Named(Hints(a), names) == 0
    requires Found(Signals(b), Corpus(repoUrl, names)) == 0 && Named(Hints(b), names) == 1
    ensures Score(repoUrl, names, a) == 2 && Score(repoUrl, names, b) == 3
  {
  }

  /** Ties go to Python before Node before Java before Go before Ruby. */
  predicate WinsTies(score: Language -> nat, best: Language) {
    && (best == Node ==> score(Python) < score(best))
    && (best == Java ==> score(Python) < score(best) && score(Node) < score(best))
    && (best == Go ==> score(Python) < score(best) && score(Node) < score(best) && score(Java) < score(best))
    && (best == Ruby ==> score(Python) < score(best) && score(Node) < score(best) && score(Java) < score(best) && score(Go) < score(best))
  }

  lemma TiesAreOrdered(repoUrl: string, names: seq<string>, best: Language)
    requires Detected(repoUrl, names, best)
    ensures WinsTies(l => Score(repoUrl, names, l), best)
  {
    TiesOf(l => Score(repoUrl, names, l), best);
  }

  lemma TiesOf(score: Language -> nat, best: Language)
    requires Best(score, best)
    ensures WinsTies(score, best)
  {
  }
}
