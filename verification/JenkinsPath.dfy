/** Jenkins job names and URL paths: `_derive_job_name`, `_encode_jenkins_path`,
    `_build_trigger_url_candidates` and `_jenkins_job_path`.

    Strings are their UTF-8 bytes, which is what percent-encoding works on; the
    slash is a byte of its own there. */
module JenkinsPath {
  import opened Queries
  import opened Text

  newtype Byte = b: int | 0 <= b < 256
  type Bytes = seq<Byte>

  const SLASH: Byte := 47
  const PERCENT: Byte := 37

  // --------------------------------------------------- percent-encoding

  /** Section 2.3 of RFC 3986: letters, digits, '-', '.', '_' and '~'. */
  predicate Unreserved(b: Byte) {
    48 <= b <= 57 || 65 <= b <= 90 || 97 <= b <= 122 || b == 45 || b == 46 || b == 95 || b == 126
  }

  /** Upper-case hexadecimal digits. */
  function Hex(n: Byte): Byte
    requires n < 16
  {
    if n < 10 then 48 + n else 55 + n
  }

  function Unhex(h: Byte): Byte {
    if 48 <= h <= 57 then h - 48 else if 65 <= h <= 70 then h - 55 else 0
  }

  /** Section 2.1 of RFC 3986, as `quote(..., safe='')` applies it. */
  function QuoteByte(b: Byte): Bytes {
    if Unreserved(b) then [b] else [PERCENT, Hex(b / 16), Hex(b % 16)]
  }

  predicate IsLetterOrDigit(c: int) {
    'a' as int <= c <= 'z' as int || 'A' as int <= c <= 'Z' as int || '0' as int <= c <= '9' as int
  }

  /** The value of an upper-case hexadecimal digit, -1 for any other byte. */
  function DigitValue(c: int): int {
    if '0' as int <= c <= '9' as int then c - '0' as int
    else if 'A' as int <= c <= 'F' as int then c - 'A' as int + 10
    else -1
  }

  /** A letter, digit, hyphen, period, underscore or tilde stands for itself; any
      other byte becomes a percent sign and its two upper-case hex digits. */
  lemma QuotedByte(b: Byte)
    ensures var c := b as int;
      if IsLetterOrDigit(c) || c == '-' as int || c == '.' as int || c == '_' as int || c == '~' as int
      then QuoteByte(b) == [b]
      else
        && |QuoteByte(b)| == 3 && QuoteByte(b)[0] as int == '%' as int
        && DigitValue(QuoteByte(b)[1] as int) >= 0 && DigitValue(QuoteByte(b)[2] as int) >= 0
        && c == 16 * DigitValue(QuoteByte(b)[1] as int) + DigitValue(QuoteByte(b)[2] as int)
  {
  }

  function Quote(s: Bytes): Bytes {
    if s == [] then [] else QuoteByte(s[0]) + Quote(s[1..])
  }

  function Unquote(q: Bytes): Bytes {
    if q == [] then []
    else if q[0] == PERCENT && |q| >= 3 && Unhex(q[1]) < 16 && Unhex(q[2]) < 16 then
      [(((Unhex(q[1]) as int) * 16 + (Unhex(q[2]) as int)) as Byte)] + Unquote(q[3..])
    else [q[0]] + Unquote(q[1..])
  }

  lemma HexRoundTrip(b: Byte)
    ensures Unhex(Hex(b / 16)) == b / 16 && Unhex(Hex(b % 16)) == b % 16
    ensures (b / 16) as int * 16 + (b % 16) as int == b as int
  {
  }

  lemma {:induction false} UnquoteQuote(s: Bytes)
    ensures Unquote(Quote(s)) == s
  {
    if s != [] {
      var head, tail := QuoteByte(s[0]), Quote(s[1..]);
      UnquoteQuote(s[1..]);
      assert Quote(s) == head + tail;
      if Unreserved(s[0]) {
        assert (head + tail)[1..] == tail;
      } else {
        HexRoundTrip(s[0]);
        assert (head + tail)[3..] == tail;
      }
      assert s == [s[0]] + s[1..];
    }
  }

  /** No slash inside an encoded segment. */
  lemma {:induction false} QuoteHasNoSlash(s: Bytes)
    ensures SLASH !in Quote(s)
  {
    if s != [] {
      QuoteHasNoSlash(s[1..]);
    }
  }

  // ------------------------------------------------------ encoded paths

  const JOB: Bytes := [106, 111, 98]

  predicate IsSlash(b: Byte) { b == SLASH }

  function StripSlashes(s: Bytes): Bytes {
    Strip(s, IsSlash)
  }

  /** Segments without their outer slashes; empty ones are dropped. */
  function Cleaned(segments: seq<Bytes>): seq<Bytes> {
    Clean(segments, IsSlash)
  }

  /** `job`, segment, `job`, segment, ... */
  function Pieces(cleaned: seq<Bytes>): seq<Bytes> {
    if cleaned == [] then [] else [JOB, Quote(cleaned[0])] + Pieces(cleaned[1..])
  }

  /** `_encode_jenkins_path`: the pieces `job/<quoted>` joined by slashes. */
  function JobPieces(cleaned: seq<Bytes>): (pieces: seq<Bytes>)
    ensures |pieces| == |cleaned|
    ensures forall i | 0 <= i < |cleaned| :: pieces[i] == JOB + [SLASH] + Quote(cleaned[i])
  {
    seq(|cleaned|, i requires 0 <= i < |cleaned| => JOB + [SLASH] + Quote(cleaned[i]))
  }

  function EncodePath(segments: seq<Bytes>): Bytes {
    Join(JobPieces(Cleaned(segments)), SLASH)
  }

  /** Joining the `job/<quoted>` pieces is joining all pieces one level deeper. */
  lemma {:induction false} JoinPieces(cleaned: seq<Bytes>)
    ensures Join(JobPieces(cleaned), SLASH) == Join(Pieces(cleaned), SLASH)
  {
    if cleaned != [] {
      var q, rest := Quote(cleaned[0]), cleaned[1..];
      assert JobPieces(cleaned) == [JOB + [SLASH] + q] + JobPieces(rest);
      assert Pieces(cleaned) == [JOB] + ([q] + Pieces(rest));
      JoinCons(JOB, [q] + Pieces(rest), SLASH);
      if rest == [] {
        assert [q] + Pieces(rest) == [q];
      } else {
        JoinPieces(rest);
        JoinCons(q, Pieces(rest), SLASH);
        JoinCons(JOB + [SLASH] + q, JobPieces(rest), SLASH);
      }
    }
  }

  /** Every second piece, unquoted. */
  function Targets(pieces: seq<Bytes>): seq<Bytes> {
    if |pieces| < 2 then [] else [Unquote(pieces[1])] + Targets(pieces[2..])
  }

  function DecodePath(path: Bytes): seq<Bytes> {
    Targets(Split(path, SLASH))
  }

  lemma {:induction false} TargetsOfPieces(cleaned: seq<Bytes>)
    ensures Targets(Pieces(cleaned)) == cleaned
    ensures forall p | p in Pieces(cleaned) :: SLASH !in p
  {
    if cleaned != [] {
      TargetsOfPieces(cleaned[1..]);
      UnquoteQuote(cleaned[0]);
      QuoteHasNoSlash(cleaned[0]);
      assert Pieces(cleaned)[2..] == Pieces(cleaned[1..]);
      assert cleaned == [cleaned[0]] + cleaned[1..];
    }
  }

  lemma DecodeCleaned(cleaned: seq<Bytes>)
    ensures DecodePath(Join(JobPieces(cleaned), SLASH)) == cleaned
  {
    JoinPieces(cleaned);
    if cleaned != [] {
      TargetsOfPieces(cleaned);
      SplitJoin(Pieces(cleaned), SLASH);
    }
  }

  /** A path gives back exactly the cleaned segments it was built from. */
  lemma DecodeEncode(segments: seq<Bytes>)
    ensures DecodePath(EncodePath(segments)) == Cleaned(segments)
  {
    DecodeCleaned(Cleaned(segments));
  }

  /** Hence two calls build the same path exactly for the same segments. */
  lemma EncodeInjective(a: seq<Bytes>, b: seq<Bytes>)
    ensures EncodePath(a) == EncodePath(b) <==> Cleaned(a) == Cleaned(b)
  {
    DecodeEncode(a);
    DecodeEncode(b);
  }

  // ---------------------------------------------------------- job names

  const DOT_GIT: Bytes := [46, 103, 105, 116]
  const UNKNOWN: Bytes := [117, 110, 107, 110, 111, 119, 110]

  function RemoveSuffix(s: Bytes, suffix: Bytes): Bytes {
    if |suffix| <= |s| && s[|s| - |suffix|..] == suffix then s[..|s| - |suffix|] else s
  }

  /** The folders a repository's jobs live in: [org, repo], or [repo] for a
      one-part URL, or [unknown]. */
  function Folders(repoUrl: Bytes): seq<Bytes> {
    var parts := NonEmpty(Split(RemoveSuffix(StripRight(repoUrl, IsSlash), DOT_GIT), SLASH));
    if |parts| >= 2 then parts[|parts| - 2..] else if |parts| == 1 then parts else [UNKNOWN]
  }

  /** `_derive_job_name`. */
  function DeriveJobName(repoUrl: Bytes, branch: Bytes): Bytes {
    Join(Folders(repoUrl) + [branch], SLASH)
  }

  predicate PlainFolders(folders: seq<Bytes>) {
    folders != [] && forall f | f in folders :: f != [] && SLASH !in f
  }

  lemma FoldersArePlain(repoUrl: Bytes)
    ensures PlainFolders(Folders(repoUrl)) && |Folders(repoUrl)| <= 2
  {
    var pieces := Split(RemoveSuffix(StripRight(repoUrl, IsSlash), DOT_GIT), SLASH);
    NonEmptyMembers(pieces);
    assert SLASH !in UNKNOWN;
    assert forall f | f in Folders(repoUrl) :: f in NonEmpty(pieces) || f == UNKNOWN;
  }

  /** A path segment: not empty, no slash. */
  predicate Segment(s: Bytes) {
    s != [] && SLASH !in s
  }

  /** The ending ".git", or nothing for a name that does not end so. */
  predicate Ending(name: Bytes, ending: Bytes) {
    ending == ['.' as int as Byte, 'g' as int as Byte, 'i' as int as Byte, 't' as int as Byte] || (ending == [] && RemoveSuffix(name, DOT_GIT) == name)
  }

  lemma EndingDrops(front: Bytes, name: Bytes, ending: Bytes)
    requires Segment(name) && Ending(name, ending) && (front == [] || front[|front| - 1] == SLASH)
    ensures var s := front + name + ending;
      s != [] && s[|s| - 1] != SLASH && RemoveSuffix(s, DOT_GIT) == front + name
  {
    var s := front + name + ending;
    if ending == [] {
      assert s == front + name;
      assert s[|s| - 1] == name[|name| - 1];
      if |name| >= 4 {
        assert s[|s| - 4..] == name[|name| - 4..];
      } else if |s| >= 4 {
        assert s[|s| - |name| - 1] == SLASH && SLASH in s[|s| - 4..];
        assert SLASH !in DOT_GIT;
      }
    } else {
      assert ending == DOT_GIT;
      assert s[|s| - 4..] == DOT_GIT && s[..|s| - 4] == front + name;
    }
  }

  lemma StrippedPath(front: Bytes, name: Bytes, ending: Bytes, slashes: Bytes)
    requires Segment(name) && Ending(name, ending) && (front == [] || front[|front| - 1] == SLASH)
    requires forall i | 0 <= i < |slashes| :: slashes[i] == SLASH
    ensures RemoveSuffix(StripRight(front + name + ending + slashes, IsSlash), DOT_GIT) == front + name
  {
    EndingDrops(front, name, ending);
    StripRightEnds(front + name + ending, slashes);
  }

  /** Whatever stands before them, the folders of a URL are its last two
      segments, without ".git" and without trailing slashes. */
  lemma FoldersOfUrl(before: Bytes, org: Bytes, repo: Bytes, ending: Bytes, slashes: Bytes)
    requires Segment(org) && Segment(repo) && Ending(repo, ending)
    requires forall i | 0 <= i < |slashes| :: slashes[i] == SLASH
    ensures Folders(before + [SLASH] + org + [SLASH] + repo + ending + slashes) == [org, repo]
  {
    LastTwoParts(before, org, repo);
    var front := before + [SLASH] + org + [SLASH];
    StrippedPath(front, repo, ending, slashes);
  }

  /** Also if there is nothing before them. */
  lemma FoldersOfPath(org: Bytes, repo: Bytes, ending: Bytes, slashes: Bytes)
    requires Segment(org) && Segment(repo) && Ending(repo, ending)
    requires forall i | 0 <= i < |slashes| :: slashes[i] == SLASH
    ensures Folders(org + [SLASH] + repo + ending + slashes) == [org, repo]
  {
    var front := org + [SLASH];
    StrippedPath(front, repo, ending, slashes);
    SplitAt(org, SLASH, repo);
    SplitPiece(org, SLASH);
    SplitPiece(repo, SLASH);
    var two := [org, repo];
    assert [org] + [repo] == two;
    NonEmptyAll(two);
  }

  lemma LastTwoParts(before: Bytes, org: Bytes, repo: Bytes)
    requires Segment(org) && Segment(repo)
    ensures var parts := NonEmpty(Split(before + [SLASH] + org + [SLASH] + repo, SLASH));
      |parts| >= 2 && parts[|parts| - 2..] == [org, repo]
  {
    PartsSnoc(before, org);
    PartsSnoc(before + [SLASH] + org, repo);
    LastTwo(NonEmpty(Split(before, SLASH)), org, repo);
  }

  lemma LastTwo<T>(front: seq<T>, a: T, b: T)
    ensures var s := front + [a] + [b]; |s| >= 2 && s[|s| - 2..] == [a, b]
  {
  }

  lemma PartsSnoc(before: Bytes, last: Bytes)
    requires Segment(last)
    ensures NonEmpty(Split(before + [SLASH] + last, SLASH)) == NonEmpty(Split(before, SLASH)) + [last]
  {
    SplitAt(before, SLASH, last);
    SplitPiece(last, SLASH);
    NonEmptyConcat(Split(before, SLASH), [last]);
    assert NonEmpty([last]) == [last];
  }

  /** A URL with one segment has that one folder, one of slashes "unknown". */
  lemma FoldersOfShortUrl(lead: Bytes, repo: Bytes, ending: Bytes, slashes: Bytes)
    requires Segment(repo) && Ending(repo, ending)
    requires forall i | 0 <= i < |lead| :: lead[i] == SLASH
    requires forall i | 0 <= i < |slashes| :: slashes[i] == SLASH
    ensures Folders(lead + repo + ending + slashes) == [repo]
    ensures Folders(slashes) ==
      [['u' as int as Byte, 'n' as int as Byte, 'k' as int as Byte, 'n' as int as Byte, 'o' as int as Byte, 'w' as int as Byte, 'n' as int as Byte]]
  {
    StrippedPath(lead, repo, ending, slashes);
    LeadingSlashes(lead, repo);
    SplitPiece(repo, SLASH);
    assert NonEmpty([repo]) == [repo];
    OnlySlashesStripped(slashes);
  }

  lemma {:induction false} OnlySlashesStripped(slashes: Bytes)
    requires forall i | 0 <= i < |slashes| :: slashes[i] == SLASH
    ensures StripRight(slashes, IsSlash) == [] && NonEmpty(Split(RemoveSuffix([], DOT_GIT), SLASH)) == []
  {
    if slashes != [] {
      OnlySlashesStripped(slashes[..|slashes| - 1]);
    }
  }

  lemma {:induction false} JoinSnoc(folders: seq<Bytes>, last: Bytes)
    requires folders != []
    ensures Join(folders + [last], SLASH) == Join(folders, SLASH) + [SLASH] + last
  {
    if |folders| == 1 {
      assert (folders + [last])[1..] == [last];
    } else {
      assert (folders + [last])[1..] == folders[1..] + [last];
      JoinSnoc(folders[1..], last);
    }
  }

  // ---------------------------------------------------- URL candidates

  function DropBranch(normalized: Bytes, branch: Bytes): Bytes {
    if branch != [] && |branch| + 1 <= |normalized| && normalized[|normalized| - |branch| - 1..] == [SLASH] + branch
    then normalized[..|normalized| - |branch| - 1] else normalized
  }

  function BaseParts(jobName: Bytes, branch: Bytes): seq<Bytes> {
    NonEmpty(Split(DropBranch(StripSlashes(jobName), StripSlashes(branch)), SLASH))
  }

  /** The candidate targets, most specific first: folders and branch, the last
      folder and branch, folders alone, and the job name taken apart. */
  function TargetLists(base: seq<Bytes>, all: seq<Bytes>, clean: Bytes): seq<seq<Bytes>> {
    var first := With([], base != [] && clean != [], base + [clean]);
    var second := if |base| >= 2 then With(first, clean != [], [base[|base| - 1], clean]) else first;
    With(With(second, base != [], base), all != [], all)
  }

  function Url(root: Bytes): seq<Bytes> -> Bytes {
    segments => root + [SLASH] + EncodePath(segments)
  }

  /** The candidates before repetitions are dropped. */
  function RawCandidates(root: Bytes, jobName: Bytes, branch: Bytes): seq<Bytes> {
    Images(TargetLists(BaseParts(jobName, branch), NonEmpty(Split(StripSlashes(jobName), SLASH)), StripSlashes(branch)), Url(root))
  }

  method CollectCandidates(url: seq<Bytes> -> Bytes, base: seq<Bytes>, all: seq<Bytes>, clean: Bytes) returns (urls: seq<Bytes>)
    ensures urls == Images(TargetLists(base, all, clean), url)
  {
    ghost var targets: seq<seq<Bytes>> := [];
    urls := [];
    urls, targets := AppendIf(urls, base != [] && clean != [], base + [clean], url, targets);
    if |base| >= 2 {
      urls, targets := AppendIf(urls, clean != [], [base[|base| - 1], clean], url, targets);
    }
    urls, targets := AppendIf(urls, base != [], base, url, targets);
    urls, targets := AppendIf(urls, all != [], all, url, targets);
  }

  /** `_build_trigger_url_candidates`, for Jenkins at `root`. */
  method TriggerCandidates(root: Bytes, jobName: Bytes, branch: Bytes) returns (urls: seq<Bytes>)
    ensures urls == FirstOccurrences(RawCandidates(root, jobName, branch))
  {
    var normalized, clean := StripSlashes(jobName), StripSlashes(branch);
    var base := NonEmpty(Split(DropBranch(normalized, clean), SLASH));
    var all := NonEmpty(Split(normalized, SLASH));
    var candidates := CollectCandidates(Url(root), base, all, clean);
    urls := Deduplicate(candidates);
  }

  /** The candidates are distinct and keep the order in which they were found. */
  lemma CandidatesAreDistinct(root: Bytes, jobName: Bytes, branch: Bytes)
    ensures var raw := RawCandidates(root, jobName, branch);
      var urls := FirstOccurrences(raw);
      && Distinct(urls)
      && (forall u :: u in urls <==> u in raw)
      && forall i, j | 0 <= i < j < |urls| :: FirstIndex(raw, urls[i]) < FirstIndex(raw, urls[j])
  {
    FirstOccurrencesMeans(RawCandidates(root, jobName, branch));
  }

  // ------------------------------------ what the suffix removal recovers

  /** Splitting slashes gives only empty pieces. */
  lemma {:induction false} SlashesSplit(s: Bytes)
    requires forall i | 0 <= i < |s| :: s[i] == SLASH
    ensures NonEmpty(Split(s, SLASH)) == []
  {
    if s != [] {
      SlashesSplit(s[1..]);
    }
  }

  /** Slashes in front of or behind a path do not change its parts. */
  lemma OuterSlashes(lead: Bytes, s: Bytes, trail: Bytes)
    requires forall i | 0 <= i < |lead| :: lead[i] == SLASH
    requires forall i | 0 <= i < |trail| :: trail[i] == SLASH
    ensures NonEmpty(Split(lead + s + trail, SLASH)) == NonEmpty(Split(s, SLASH))
  {
    LeadingSlashes(lead, s + trail);
    assert lead + s + trail == lead + (s + trail);
    TrailingSlashes(s, trail);
  }

  lemma {:induction false} LeadingSlashes(lead: Bytes, s: Bytes)
    requires forall i | 0 <= i < |lead| :: lead[i] == SLASH
    ensures NonEmpty(Split(lead + s, SLASH)) == NonEmpty(Split(s, SLASH))
  {
    if lead == [] {
      assert lead + s == s;
    } else {
      assert (lead + s)[1..] == lead[1..] + s;
      LeadingSlashes(lead[1..], s);
    }
  }

  lemma TrailingSlashes(s: Bytes, trail: Bytes)
    requires forall i | 0 <= i < |trail| :: trail[i] == SLASH
    ensures NonEmpty(Split(s + trail, SLASH)) == NonEmpty(Split(s, SLASH))
  {
    if trail == [] {
      assert s + trail == s;
    } else {
      assert s + trail == s + [SLASH] + trail[1..];
      SplitAt(s, SLASH, trail[1..]);
      SlashesSplit(trail[1..]);
      NonEmptyConcat(Split(s, SLASH), Split(trail[1..], SLASH));
    }
  }

  /** The parts of joined plain folders are the folders. */
  lemma FolderParts(folders: seq<Bytes>)
    requires PlainFolders(folders)
    ensures NonEmpty(Split(Join(folders, SLASH), SLASH)) == folders
  {
    SplitJoin(folders, SLASH);
    NonEmptyAll(folders);
  }

  lemma {:induction false} JoinedStart(folders: seq<Bytes>)
    requires PlainFolders(folders)
    ensures var j := Join(folders, SLASH); j != [] && j[0] != SLASH && j[|j| - 1] != SLASH
  {
    assert folders[0] in folders;
    if |folders| > 1 {
      assert forall f | f in folders[1..] :: f in folders;
      JoinedStart(folders[1..]);
    }
  }

  /** A branch is slashes, its stripped part, and slashes again. */
  lemma BranchShape(branch: Bytes) returns (lead: Bytes, trail: Bytes)
    ensures branch == lead + StripSlashes(branch) + trail
    ensures forall i | 0 <= i < |lead| :: lead[i] == SLASH
    ensures forall i | 0 <= i < |trail| :: trail[i] == SLASH
  {
    lead, trail := StripShape(branch, IsSlash);
    OnlySlashes(lead);
    OnlySlashes(trail);
  }

  lemma OnlySlashes(s: Bytes)
    requires forall i | 0 <= i < |s| :: IsSlash(s[i])
    ensures forall i | 0 <= i < |s| :: s[i] == SLASH
  {
    forall i | 0 <= i < |s| ensures s[i] == SLASH {
      assert IsSlash(s[i]);
    }
  }

  lemma StrippedEnd(branch: Bytes)
    requires StripSlashes(branch) != []
    ensures !IsSlash(StripSlashes(branch)[|StripSlashes(branch)| - 1])
  {
    StripTrims(branch, IsSlash);
  }

  /** Stripping a derived name takes away only what ends the branch. */
  lemma NormalizedName(folders: seq<Bytes>, branch: Bytes) returns (lead: Bytes)
    requires PlainFolders(folders) && StripSlashes(branch) != []
    ensures forall i | 0 <= i < |lead| :: lead[i] == SLASH
    ensures StripSlashes(Join(folders + [branch], SLASH)) == Join(folders, SLASH) + lead + ([SLASH] + StripSlashes(branch))
  {
    var j := Join(folders, SLASH);
    var clean := StripSlashes(branch);
    var after: Bytes;
    lead, after := BranchShape(branch);
    JoinSnoc(folders, branch);
    JoinedStart(folders);
    StrippedEnd(branch);
    RegroupName(j, lead, clean, after);
    var kept := j + lead + ([SLASH] + clean);
    StripEnds(kept, after);
  }

  lemma RegroupName(j: Bytes, before: Bytes, clean: Bytes, after: Bytes)
    requires j != [] && clean != [] && j[0] != SLASH && !IsSlash(clean[|clean| - 1])
    requires forall i | 0 <= i < |before| :: before[i] == SLASH
    ensures j + [SLASH] + (before + clean + after) == j + before + ([SLASH] + clean) + after
    ensures var kept := j + before + ([SLASH] + clean); kept != [] && kept[0] != SLASH && kept[|kept| - 1] != SLASH
  {
    assert [SLASH] + before == before + [SLASH];
    assert j + [SLASH] + (before + clean + after) == j + ([SLASH] + before) + clean + after;
    assert j + (before + [SLASH]) + clean + after == j + before + ([SLASH] + clean) + after;
  }

  lemma NormalizedBareName(folders: seq<Bytes>, branch: Bytes)
    requires PlainFolders(folders) && StripSlashes(branch) == []
    ensures StripSlashes(Join(folders + [branch], SLASH)) == Join(folders, SLASH)
  {
    var j := Join(folders, SLASH);
    var before, after := BranchShape(branch);
    JoinSnoc(folders, branch);
    JoinedStart(folders);
    var rest := [SLASH] + branch;
    assert branch == before + after;
    assert j + [SLASH] + branch == j + rest;
    StripEnds(j, rest);
  }

  /** A path with proper ends is what stripping leaves of it and slashes. */
  lemma StripEnds(kept: Bytes, after: Bytes)
    requires kept != [] && kept[0] != SLASH && kept[|kept| - 1] != SLASH
    requires forall i | 0 <= i < |after| :: after[i] == SLASH
    ensures StripSlashes(kept + after) == kept
  {
    var s := kept + after;
    assert s[0] == kept[0] && !IsSlash(s[0]);
    assert StripLeft(s, IsSlash) == s;
    StripRightEnds(kept, after);
  }

  lemma {:induction false} StripRightEnds(kept: Bytes, after: Bytes)
    requires kept != [] && kept[|kept| - 1] != SLASH
    requires forall i | 0 <= i < |after| :: after[i] == SLASH
    ensures StripRight(kept + after, IsSlash) == kept
  {
    if after == [] {
      assert kept + after == kept;
    } else {
      var shorter := after[..|after| - 1];
      assert (kept + after)[..|kept + after| - 1] == kept + shorter;
      StripRightEnds(kept, shorter);
    }
  }

  lemma DropsBranch(kept: Bytes, clean: Bytes)
    requires clean != []
    ensures DropBranch(kept + ([SLASH] + clean), clean) == kept
  {
    var all := kept + ([SLASH] + clean);
    assert all[|all| - |clean| - 1..] == [SLASH] + clean;
  }

  /** For every derived job name, removing the branch recovers the folders. */
  lemma BaseIsFolders(repoUrl: Bytes, branch: Bytes)
    ensures BaseParts(DeriveJobName(repoUrl, branch), branch) == Folders(repoUrl)
  {
    var folders, clean := Folders(repoUrl), StripSlashes(branch);
    FoldersArePlain(repoUrl);
    FolderParts(folders);
    if clean != [] {
      var lead := NormalizedName(folders, branch);
      DropsBranch(Join(folders, SLASH) + lead, clean);
      TrailingSlashes(Join(folders, SLASH), lead);
    } else {
      NormalizedBareName(folders, branch);
    }
  }

  /** What a run builds: the folders of its repository, then its branch, slashes
      and all, as one name. */
  function Target(repoUrl: Bytes, branch: Bytes): seq<Bytes> {
    var clean := StripSlashes(branch);
    Folders(repoUrl) + if clean == [] then [] else [clean]
  }

  lemma FirstTarget(root: Bytes, repoUrl: Bytes, branch: Bytes)
    ensures var raw := RawCandidates(root, DeriveJobName(repoUrl, branch), branch);
      raw != [] && raw[0] == root + [SLASH] + EncodePath(Target(repoUrl, branch))
  {
    var folders, clean := Folders(repoUrl), StripSlashes(branch);
    BaseIsFolders(repoUrl, branch);
    assert folders + [] == folders;
    var all := NonEmpty(Split(StripSlashes(DeriveJobName(repoUrl, branch)), SLASH));
    var targets := TargetLists(folders, all, clean);
    assert targets != [] && targets[0] == Target(repoUrl, branch);
  }

  lemma TargetIsPlain(repoUrl: Bytes, branch: Bytes)
    ensures forall s | s in Target(repoUrl, branch) :: s != [] && Trimmed(s, IsSlash)
  {
    var folders, clean := Folders(repoUrl), StripSlashes(branch);
    FoldersArePlain(repoUrl);
    StripTrims(branch, IsSlash);
    forall s | s in Target(repoUrl, branch) ensures s != [] && Trimmed(s, IsSlash) {
      assert s in folders || s == clean;
    }
  }

  lemma TargetReadsBack(repoUrl: Bytes, branch: Bytes)
    ensures DecodePath(EncodePath(Target(repoUrl, branch))) == Target(repoUrl, branch)
  {
    var target := Target(repoUrl, branch);
    TargetIsPlain(repoUrl, branch);
    CleanPlain(target, IsSlash);
    DecodeEncode(target);
  }

  /** The first URL tried for a scheduled run names its folders and then its
      branch as one encoded segment, whatever the repository URL and branch. */
  lemma FirstCandidate(root: Bytes, repoUrl: Bytes, branch: Bytes)
    ensures var urls := FirstOccurrences(RawCandidates(root, DeriveJobName(repoUrl, branch), branch));
      var target := Target(repoUrl, branch);
      && urls != [] && urls[0] == root + [SLASH] + EncodePath(target)
      && DecodePath(EncodePath(target)) == target
  {
    FirstTarget(root, repoUrl, branch);
    var raw := RawCandidates(root, DeriveJobName(repoUrl, branch), branch);
    FirstStaysFirst(raw);
    TargetReadsBack(repoUrl, branch);
  }

  lemma {:induction false} FirstStaysFirst(s: seq<Bytes>)
    requires s != []
    ensures FirstOccurrences(s) != [] && FirstOccurrences(s)[0] == s[0]
  {
    if |s| > 1 {
      FirstStaysFirst(s[..|s| - 1]);
    } else {
      assert s[..0] == [];
    }
  }

  // ------------------------------------------------ the log fetcher's path

  /** `_jenkins_job_path` of the log fetcher: every slash separates folders. */
  function LogPath(jobName: Bytes): Bytes {
    Join(JobPieces(NonEmpty(Split(jobName, SLASH))), SLASH)
  }

  lemma NameParts(folders: seq<Bytes>, branch: Bytes)
    requires PlainFolders(folders)
    ensures NonEmpty(Split(Join(folders + [branch], SLASH), SLASH)) == folders + NonEmpty(Split(branch, SLASH))
  {
    JoinSnoc(folders, branch);
    SplitAt(Join(folders, SLASH), SLASH, branch);
    NonEmptyConcat(Split(Join(folders, SLASH), SLASH), Split(branch, SLASH));
    FolderParts(folders);
  }

  lemma BranchParts(branch: Bytes)
    ensures var clean := StripSlashes(branch);
      NonEmpty(Split(branch, SLASH)) == (if clean == [] then [] else [clean]) <==> SLASH !in clean
  {
    var clean := StripSlashes(branch);
    var lead, trail := BranchShape(branch);
    OuterSlashes(lead, clean, trail);
    if SLASH !in clean {
      SplitPiece(clean, SLASH);
    } else {
      NonEmptyMembers(Split(clean, SLASH));
      assert clean !in NonEmpty(Split(clean, SLASH));
      assert [clean][0] == clean;
    }
  }

  /** The parts of a job name do not depend on its outer slashes. */
  lemma NamePartsStripped(jobName: Bytes)
    ensures NonEmpty(Split(jobName, SLASH)) == NonEmpty(Split(StripSlashes(jobName), SLASH))
  {
    var lead, trail := BranchShape(jobName);
    OuterSlashes(lead, StripSlashes(jobName), trail);
  }

  lemma NoPartsIff(clean: Bytes)
    requires Trimmed(clean, IsSlash)
    ensures NonEmpty(Split(clean, SLASH)) == [] <==> clean == []
  {
    if clean != [] {
      NonEmptyMembers(Split(clean, SLASH));
      var first := Split(clean, SLASH)[0];
      assert first in Split(clean, SLASH) && first != [];
      assert first in NonEmpty(Split(clean, SLASH));
    }
  }

  /** Parts hold no slash, so cleaning them changes nothing. */
  lemma PartsAreClean(s: Bytes)
    ensures Cleaned(NonEmpty(Split(s, SLASH))) == NonEmpty(Split(s, SLASH))
  {
    var parts := NonEmpty(Split(s, SLASH));
    NonEmptyMembers(Split(s, SLASH));
    forall p | p in parts ensures p != [] && Trimmed(p, IsSlash) {
      assert SLASH !in p;
    }
    CleanPlain(parts, IsSlash);
  }

  lemma LastTarget(base: seq<Bytes>, all: seq<Bytes>, clean: Bytes)
    ensures all != [] ==> all in TargetLists(base, all, clean)
    ensures base == [] && all == [] ==> TargetLists(base, all, clean) == []
  {
    if all != [] {
      var targets := TargetLists(base, all, clean);
      assert targets[|targets| - 1] == all;
    }
  }

  /** The path the log is fetched under is always among the URLs tried: the last
      candidate is that path. Only a name of slashes has no candidates at all. */
  lemma LogPathIsTriedIff(root: Bytes, jobName: Bytes, branch: Bytes)
    ensures var urls := FirstOccurrences(RawCandidates(root, jobName, branch));
      && (root + [SLASH] + LogPath(jobName) in urls <==> StripSlashes(jobName) != [])
      && (urls == [] <==> StripSlashes(jobName) == [])
  {
    var name := StripSlashes(jobName);
    var base, all, clean := BaseParts(jobName, branch), NonEmpty(Split(name, SLASH)), StripSlashes(branch);
    var raw := RawCandidates(root, jobName, branch);
    FirstOccurrencesMeans(raw);
    StripTrims(jobName, IsSlash);
    NoPartsIff(name);
    LastTarget(base, all, clean);
    if name != [] {
      NamePartsStripped(jobName);
      PartsAreClean(name);
      var targets := TargetLists(base, all, clean);
      var k :| 0 <= k < |targets| && targets[k] == all;
      assert raw[k] == Url(root)(all);
    } else {
      assert DropBranch(name, clean) == [];
    }
  }

  lemma JoinThree(a: Bytes, b: Bytes, c: Bytes)
    ensures Join([a, b, c], SLASH) == a + [SLASH] + b + [SLASH] + c
  {
    assert [a, b, c][1..] == [b, c] && [b, c][1..] == [c];
    assert Join([b, c], SLASH) == b + [SLASH] + c;
    assert a + [SLASH] + (b + [SLASH] + c) == a + [SLASH] + b + [SLASH] + c;
  }

  lemma ImagesSnoc<S, T>(list: seq<S>, last: S, f: S -> T)
    ensures Images(list + [last], f) == Images(list, f) + [f(last)]
  {
    assert (list + [last])[..|list|] == list;
  }

  lemma FourImages(a: seq<Bytes>, b: seq<Bytes>, c: seq<Bytes>, d: seq<Bytes>, url: seq<Bytes> -> Bytes)
    ensures Images([a, b, c, d], url) == [url(a), url(b), url(c), url(d)]
  {
    ImagesSnoc([], a, url);
    ImagesSnoc([a], b, url);
    ImagesSnoc([a, b], c, url);
    ImagesSnoc([a, b, c], d, url);
    assert [] + [a] == [a] && [a] + [b] == [a, b] && [a, b] + [c] == [a, b, c] && [a, b, c] + [d] == [a, b, c, d];
  }

  lemma FourTargets(org: Bytes, repo: Bytes, all: seq<Bytes>, clean: Bytes)
    requires all != [] && clean != []
    ensures TargetLists([org, repo], all, clean) == [[org, repo, clean], [repo, clean], [org, repo], all]
  {
    var base := [org, repo];
    assert base + [clean] == [org, repo, clean] && base[|base| - 1] == repo;
    var first := With([], true, base + [clean]);
    assert first == [[org, repo, clean]];
    var second := With(first, true, [repo, clean]);
    assert second == [[org, repo, clean], [repo, clean]];
    assert With(second, true, base) == [[org, repo, clean], [repo, clean], base];
  }

  /** A derived name is not only slashes. */
  lemma DerivedNameHasParts(repoUrl: Bytes, branch: Bytes)
    ensures NonEmpty(Split(StripSlashes(DeriveJobName(repoUrl, branch)), SLASH)) != []
  {
    FoldersArePlain(repoUrl);
    NameParts(Folders(repoUrl), branch);
    NamePartsStripped(DeriveJobName(repoUrl, branch));
  }

  lemma UrlOfLogPath(root: Bytes, jobName: Bytes)
    ensures Url(root)(NonEmpty(Split(StripSlashes(jobName), SLASH))) == root + [SLASH] + LogPath(jobName)
  {
    NamePartsStripped(jobName);
    PartsAreClean(StripSlashes(jobName));
  }

  /** All URLs tried for a run of a repository with an organisation, on a branch
      not made of slashes only, before repetitions are dropped. */
  lemma CandidatesOfRun(root: Bytes, repoUrl: Bytes, branch: Bytes, org: Bytes, repo: Bytes)
    requires Folders(repoUrl) == [org, repo] && StripSlashes(branch) != []
    ensures DeriveJobName(repoUrl, branch) == org + [SLASH] + repo + [SLASH] + branch
    ensures var name, clean := DeriveJobName(repoUrl, branch), StripSlashes(branch);
      RawCandidates(root, name, branch) == [
        root + [SLASH] + EncodePath([org, repo, clean]),
        root + [SLASH] + EncodePath([repo, clean]),
        root + [SLASH] + EncodePath([org, repo]),
        root + [SLASH] + LogPath(name)]
  {
    var name, clean := DeriveJobName(repoUrl, branch), StripSlashes(branch);
    assert [org, repo] + [branch] == [org, repo, branch];
    JoinThree(org, repo, branch);
    BaseIsFolders(repoUrl, branch);
    DerivedNameHasParts(repoUrl, branch);
    UrlOfLogPath(root, name);
    var all := NonEmpty(Split(StripSlashes(name), SLASH));
    FourTargets(org, repo, all, clean);
    FourImages([org, repo, clean], [repo, clean], [org, repo], all, Url(root));
  }

  /** It is the first URL tried if and only if the trimmed branch has no slash. */
  lemma LogPathAgreesIff(repoUrl: Bytes, branch: Bytes)
    ensures var clean := StripSlashes(branch);
      LogPath(DeriveJobName(repoUrl, branch)) == EncodePath(Target(repoUrl, branch)) <==> SLASH !in clean
  {
    var folders, clean := Folders(repoUrl), StripSlashes(branch);
    var target := Target(repoUrl, branch);
    FoldersArePlain(repoUrl);
    NameParts(folders, branch);
    BranchParts(branch);
    TargetIsPlain(repoUrl, branch);
    CleanPlain(target, IsSlash);
    var parts := NonEmpty(Split(branch, SLASH));
    DecodeCleaned(folders + parts);
    DecodeCleaned(target);
    assert folders + parts == target <==> parts == (if clean == [] then [] else [clean]) by {
      assert (folders + parts)[|folders|..] == parts;
      assert target[|folders|..] == if clean == [] then [] else [clean];
    }
  }
}
