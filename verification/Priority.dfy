/** app/services/priority.py, and the SQL CASE that rewrites stored priorities
    when the application starts (main.py). */
module Priority {
  import opened Text
  import StageNames

  function Slashed(s: string): string {
    seq(|s|, i requires 0 <= i < |s| => if s[i] == '\\' then '/' else s[i])
  }

  const CRITICAL: seq<string> := ["jenkinsfile", ".github/workflows/", "dockerfile", "docker-compose",
                                  "k8s/", "kubernetes/", "helm/", "terraform/", "infra/"]

  const PRODUCTION: seq<string> := ["auth/", "security/", "payment/", "billing/", "prod/"]

  /** A changed file whose normalised path contains one of the markers. */
  predicate Touches(files: seq<string>, markers: seq<string>) {
    exists f, m | f in files && m in markers :: Contains(Slashed(Lower(f)), m)
  }

  datatype Reason = HotfixBranch | ProductionBranch | ProductionFiles | ReleaseBranch | CriticalFiles | DevelopBranch | FeatureBranch | NoReason

  datatype PipelinePriority = PipelinePriority(value: nat, reason: Reason)

  function BranchKey(branch: string): string {
    Lower(Strip(branch, StageNames.IsSpace))
  }

  /** What the policy asks about a branch key and about the changed files. */
  datatype Facts = Facts(hotfix: bool, security: bool, main: bool, release: bool, develop: bool, feature: bool,
                         production: bool, critical: bool)

  function FactsOf(key: string, files: seq<string>): Facts {
    Facts("hotfix/" <= key, Contains(key, "security"), key == "main" || key == "master", "release/" <= key,
          key == "develop", "feature/" <= key, Touches(files, PRODUCTION), Touches(files, CRITICAL))
  }

  /** The guarded returns, in the order of the source. */
  function Decide(f: Facts): PipelinePriority {
    if f.hotfix || f.security then PipelinePriority(1, HotfixBranch)
    else if f.main then PipelinePriority(2, ProductionBranch)
    else if f.production then PipelinePriority(2, ProductionFiles)
    else if f.release then PipelinePriority(3, ReleaseBranch)
    else if f.critical then PipelinePriority(3, CriticalFiles)
    else if f.develop then PipelinePriority(4, DevelopBranch)
    else if f.feature then PipelinePriority(5, FeatureBranch)
    else PipelinePriority(6, NoReason)
  }

  /** `calculate_pipeline_priority`. A missing branch is the empty string,
      missing files are no files. */
  function Calculate(branch: string, files: seq<string>): PipelinePriority {
    Decide(FactsOf(BranchKey(branch), files))
  }

  /** The CASE on the branch column alone: `LIKE` is case-sensitive and the
      branch is taken as stored. */
  function SqlCase(branch: string): nat {
    if "hotfix/" <= branch then 1
    else if branch == "main" || branch == "master" then 2
    else if "release/" <= branch then 3
    else if branch == "develop" then 4
    else if "feature/" <= branch then 5
    else 6
  }

  function Least(a: nat, b: nat): nat {
    if a <= b then a else b
  }

  /** The urgency that the name "security" and the changed files bring. */
  function Promotion(key: string, files: seq<string>): nat {
    if Contains(key, "security") then 1
    else if Touches(files, PRODUCTION) then 2
    else if Touches(files, CRITICAL) then 3
    else 6
  }

  lemma PolicyOfKey(key: string, files: seq<string>)
    ensures Decide(FactsOf(key, files)).value == Least(SqlCase(key), Promotion(key, files))
  {
    var f := FactsOf(key, files);
    var sql := SqlCase(key);
    assert sql == if f.hotfix then 1 else if f.main then 2 else if f.release then 3 else if f.develop then 4 else if f.feature then 5 else 6;
    var up := Promotion(key, files);
    assert up == if f.security then 1 else if f.production then 2 else if f.critical then 3 else 6;
  }

  /** The interleaved guards amount to this: the CASE on the cleaned branch, or
      the promotion if that is more urgent. So the value lies in 1..6. */
  lemma PolicyIsCaseOrPromotion(branch: string, files: seq<string>)
    ensures Calculate(branch, files).value == Least(SqlCase(BranchKey(branch)), Promotion(BranchKey(branch), files))
    ensures 1 <= Calculate(branch, files).value <= 6
  {
    PolicyOfKey(BranchKey(branch), files);
  }

  /** A path as it is searched: ASCII letters in lower case, slashes forward. */
  predicate Normalised(path: string, shown: string) {
    |shown| == |path| && forall i | 0 <= i < |path| ::
      var c := path[i];
      shown[i] == if c == '\\' then '/' else if 'A' <= c <= 'Z' then (c as int + 32) as char else c
  }

  lemma PathIsNormalised(path: string)
    ensures Normalised(path, Slashed(Lower(path)))
  {
  }

  predicate InProduction(shown: string) {
    Contains(shown, "auth/") || Contains(shown, "security/") || Contains(shown, "payment/") || Contains(shown, "billing/")
    || Contains(shown, "prod/")
  }

  predicate InInfrastructure(shown: string) {
    Contains(shown, "jenkinsfile") || Contains(shown, ".github/workflows/") || Contains(shown, "dockerfile")
    || Contains(shown, "docker-compose") || Contains(shown, "k8s/") || Contains(shown, "kubernetes/") || Contains(shown, "helm/")
    || Contains(shown, "terraform/") || Contains(shown, "infra/")
  }

  ghost predicate ChangesProduction(files: seq<string>) {
    exists f, shown :: f in files && Normalised(f, shown) && InProduction(shown)
  }

  ghost predicate ChangesInfrastructure(files: seq<string>) {
    exists f, shown :: f in files && Normalised(f, shown) && InInfrastructure(shown)
  }

  lemma ProductionMarkers(f: string)
    ensures (exists m :: m in PRODUCTION && Contains(Slashed(Lower(f)), m)) <==> InProduction(Slashed(Lower(f)))
  {
    assert PRODUCTION[0] in PRODUCTION && PRODUCTION[1] in PRODUCTION && PRODUCTION[2] in PRODUCTION
      && PRODUCTION[3] in PRODUCTION && PRODUCTION[4] in PRODUCTION;
  }

  lemma AnyOfNine(list: seq<string>, shown: string)
    requires |list| == 9
    ensures (exists m :: m in list && Contains(shown, m)) <==>
      Contains(shown, list[0]) || Contains(shown, list[1]) || Contains(shown, list[2]) || Contains(shown, list[3]) || Contains(shown, list[4])
      || Contains(shown, list[5]) || Contains(shown, list[6]) || Contains(shown, list[7]) || Contains(shown, list[8])
  {
    assert forall k | 0 <= k < 9 :: list[k] in list;
  }

  lemma CriticalMarkers(f: string)
    ensures (exists m :: m in CRITICAL && Contains(Slashed(Lower(f)), m)) <==> InInfrastructure(Slashed(Lower(f)))
  {
    AnyOfNine(CRITICAL, Slashed(Lower(f)));
  }

  lemma OneNormalForm(f: string, shown: string)
    requires Normalised(f, shown)
    ensures shown == Slashed(Lower(f))
  {
    PathIsNormalised(f);
  }

  lemma TouchesProduction(files: seq<string>)
    ensures Touches(files, PRODUCTION) <==> ChangesProduction(files)
  {
    if Touches(files, PRODUCTION) {
      var f, m :| f in files && m in PRODUCTION && Contains(Slashed(Lower(f)), m);
      ProductionMarkers(f);
      PathIsNormalised(f);
    }
    if f, shown :| f in files && Normalised(f, shown) && InProduction(shown) {
      OneNormalForm(f, shown);
      ProductionMarkers(f);
    }
  }

  lemma TouchesInfrastructure(files: seq<string>)
    ensures Touches(files, CRITICAL) <==> ChangesInfrastructure(files)
  {
    if Touches(files, CRITICAL) {
      var f, m :| f in files && m in CRITICAL && Contains(Slashed(Lower(f)), m);
      CriticalMarkers(f);
      PathIsNormalised(f);
    }
    if f, shown :| f in files && Normalised(f, shown) && InInfrastructure(shown) {
      OneNormalForm(f, shown);
      CriticalMarkers(f);
    }
  }

  /** ASCII letters in lower case, everything else as it is. */
  predicate InLowerCase(name: string, low: string) {
    |low| == |name| && forall i | 0 <= i < |name| :: low[i] == if 'A' <= name[i] <= 'Z' then (name[i] as int + 32) as char else name[i]
  }

  lemma LowerIsLowerCase(name: string)
    ensures InLowerCase(name, Lower(name))
  {
  }

  /** The branch key is the name in lower case without the white space around it. */
  lemma KeyOfPaddedName(before: string, name: string, after: string)
    requires Trimmed(name, StageNames.IsSpace) && name != ""
    requires forall i | 0 <= i < |before| :: StageNames.IsSpace(before[i])
    requires forall i | 0 <= i < |after| :: StageNames.IsSpace(after[i])
    ensures InLowerCase(name, BranchKey(before + name + after))
  {
    StripPadded(before, name, after, StageNames.IsSpace);
    LowerIsLowerCase(name);
  }

  /** The policy in the words of its documentation: which values a run may have
      by its branch key and its files, and for what reason. */
  lemma PolicyOnWords(branch: string, files: seq<string>)
    ensures var key, p := BranchKey(branch), Calculate(branch, files);
      && (p.value <= 1 <==> "hotfix/" <= key || Contains(key, "security"))
      && (p.value <= 2 <==> p.value <= 1 || key == "main" || key == "master" || ChangesProduction(files))
      && (p.value <= 3 <==> p.value <= 2 || "release/" <= key || ChangesInfrastructure(files))
      && (p.value <= 4 <==> p.value <= 3 || key == "develop")
      && (p.value <= 5 <==> p.value <= 4 || "feature/" <= key)
      && 1 <= p.value <= 6
  {
    TouchesProduction(files);
    TouchesInfrastructure(files);
    DecideOnWords(FactsOf(BranchKey(branch), files));
  }

  /** The reason goes with the value; where two reasons give one value the
      branch is named before the files. */
  lemma DecideOnWords(f: Facts)
    ensures var p := Decide(f);
      && (p.value <= 1 <==> f.hotfix || f.security)
      && (p.value <= 2 <==> p.value <= 1 || f.main || f.production)
      && (p.value <= 3 <==> p.value <= 2 || f.release || f.critical)
      && (p.value <= 4 <==> p.value <= 3 || f.develop)
      && (p.value <= 5 <==> p.value <= 4 || f.feature)
      && 1 <= p.value <= 6
      && (p.reason == HotfixBranch <==> p.value == 1)
      && (p.reason == ProductionBranch <==> p.value == 2 && f.main)
      && (p.reason == ProductionFiles <==> p.value == 2 && !f.main)
      && (p.reason == ReleaseBranch <==> p.value == 3 && f.release)
      && (p.reason == CriticalFiles <==> p.value == 3 && !f.release)
      && (p.reason == DevelopBranch <==> p.value == 4)
      && (p.reason == FeatureBranch <==> p.value == 5)
      && (p.reason == NoReason <==> p.value == 6)
  {
  }

  /** The CASE of the start-up rewrite, arm by arm. */
  lemma CaseOnWords(branch: string)
    ensures var v := SqlCase(branch);
      && (v <= 1 <==> "hotfix/" <= branch)
      && (v <= 2 <==> v <= 1 || branch == "main" || branch == "master")
      && (v <= 3 <==> v <= 2 || "release/" <= branch)
      && (v <= 4 <==> v <= 3 || branch == "develop")
      && (v <= 5 <==> v <= 4 || "feature/" <= branch)
      && 1 <= v <= 6
  {
  }

  lemma TouchesMore(files: seq<string>, more: seq<string>, markers: seq<string>)
    requires forall f | f in files :: f in more
    ensures Touches(files, markers) ==> Touches(more, markers)
  {
    if Touches(files, markers) {
      var f, m :| f in files && m in markers && Contains(Slashed(Lower(f)), m);
      assert f in more;
    }
  }

  lemma MoreFactsNeverLessUrgent(f: Facts, g: Facts)
    requires g == f.(production := g.production, critical := g.critical)
    requires (f.production ==> g.production) && (f.critical ==> g.critical)
    ensures Decide(g).value <= Decide(f).value
  {
  }

  /** More files never make a run less urgent. */
  lemma MoreFilesNeverLessUrgent(branch: string, files: seq<string>, more: seq<string>)
    requires forall f | f in files :: f in more
    ensures Calculate(branch, more).value <= Calculate(branch, files).value
  {
    TouchesMore(files, more, PRODUCTION);
    TouchesMore(files, more, CRITICAL);
    var key := BranchKey(branch);
    MoreFactsNeverLessUrgent(FactsOf(key, files), FactsOf(key, more));
  }

  /** Order and repetition of the files do not matter, not even to the reason. */
  lemma OnlyTheSetOfFilesMatters(branch: string, files: seq<string>, others: seq<string>)
    requires forall f :: f in files <==> f in others
    ensures Calculate(branch, files) == Calculate(branch, others)
  {
    TouchesMore(files, others, PRODUCTION);
    TouchesMore(others, files, PRODUCTION);
    TouchesMore(files, others, CRITICAL);
    TouchesMore(others, files, CRITICAL);
    var key := BranchKey(branch);
    assert FactsOf(key, files) == FactsOf(key, others);
  }

  predicate StartsPlain(s: string) {
    s != "" && !StageNames.IsSpace(s[0])
  }

  lemma StripLeftNothing(s: string)
    requires StartsPlain(s)
    ensures StripLeft(s, StageNames.IsSpace) == s
  {
  }

  /** Stripping does not reach into a prefix that ends in no white space. */
  lemma {:induction false} StripRightKeeps(s: string, prefix: string)
    requires prefix != "" && prefix <= s && !StageNames.IsSpace(prefix[|prefix| - 1])
    ensures prefix <= StripRight(s, StageNames.IsSpace)
    decreases |s|
  {
    if StageNames.IsSpace(s[|s| - 1]) {
      assert |s| > |prefix|;
      StripRightKeeps(s[..|s| - 1], prefix);
    }
  }

  predicate LowerCase(s: string) {
    forall i | 0 <= i < |s| :: LowerChar(s[i]) == s[i]
  }

  /** A word in lower case without white space at its ends. */
  predicate Plain(word: string) {
    word != "" && LowerCase(word) && StartsPlain(word) && !StageNames.IsSpace(word[|word| - 1])
  }

  /** A plain prefix of the stored branch is a prefix of the branch key. */
  lemma KeyKeepsPrefix(branch: string, prefix: string)
    requires Plain(prefix) && prefix <= branch
    ensures prefix <= BranchKey(branch)
    ensures prefix == branch ==> BranchKey(branch) == branch
  {
    assert branch[0] == prefix[0];
    StripLeftNothing(branch);
    StripRightKeeps(branch, prefix);
    var kept := Strip(branch, StageNames.IsSpace);
    assert forall i | 0 <= i < |prefix| :: Lower(kept)[i] == prefix[i];
  }

  lemma PrefixesArePlain()
    ensures Plain("hotfix/") && Plain("main") && Plain("master")
  {
  }

  lemma MorePrefixesArePlain()
    ensures Plain("release/") && Plain("develop") && Plain("feature/")
  {
  }

  lemma KeyKeepsUrgentClass(branch: string)
    ensures "hotfix/" <= branch ==> "hotfix/" <= BranchKey(branch)
    ensures branch == "main" ==> BranchKey(branch) == branch
    ensures branch == "master" ==> BranchKey(branch) == branch
  {
    PrefixesArePlain();
    if "hotfix/" <= branch { KeyKeepsPrefix(branch, "hotfix/"); }
    if branch == "main" { KeyKeepsPrefix(branch, "main"); }
    if branch == "master" { KeyKeepsPrefix(branch, "master"); }
  }

  lemma KeyKeepsLaterClass(branch: string)
    ensures "release/" <= branch ==> "release/" <= BranchKey(branch)
    ensures branch == "develop" ==> BranchKey(branch) == branch
    ensures "feature/" <= branch ==> "feature/" <= BranchKey(branch)
  {
    MorePrefixesArePlain();
    if "release/" <= branch { KeyKeepsPrefix(branch, "release/"); }
    if branch == "develop" { KeyKeepsPrefix(branch, "develop"); }
    if "feature/" <= branch { KeyKeepsPrefix(branch, "feature/"); }
  }

  lemma CleaningNeverLessUrgent(branch: string)
    ensures SqlCase(BranchKey(branch)) <= SqlCase(branch)
  {
    if SqlCase(branch) <= 2 {
      KeyKeepsUrgentClass(branch);
    } else {
      KeyKeepsLaterClass(branch);
    }
  }

  /** The policy is never less urgent than the CASE, so the rewrite at start-up
      never makes a stored priority more urgent. */
  lemma PolicyAtLeastAsUrgent(branch: string, files: seq<string>)
    ensures Calculate(branch, files).value <= SqlCase(branch)
  {
    PolicyOfKey(BranchKey(branch), files);
    CleaningNeverLessUrgent(branch);
  }

  /** The rewrite leaves a priority alone if and only if cleaning the branch had
      not changed its class and no promotion was more urgent than that class. */
  lemma RewriteKeepsIff(branch: string, files: seq<string>)
    ensures Calculate(branch, files).value == SqlCase(branch) <==>
      SqlCase(BranchKey(branch)) == SqlCase(branch) && SqlCase(branch) <= Promotion(BranchKey(branch), files)
  {
    PolicyOfKey(BranchKey(branch), files);
    CleaningNeverLessUrgent(branch);
  }
}
