/** app/services/log_parser.py: cutting error blocks out of a build log. */
module LogParser {
  import opened Text

  const CONTEXT: nat := 5

  datatype ErrorBlock = ErrorBlock(anchor: string, before: seq<string>, after: seq<string>)

  /** A Python slice with non-negative bounds: out-of-range bounds are cut. */
  function Slice(lines: seq<string>, lo: nat, hi: nat): seq<string> {
    var h := if hi <= |lines| then hi else |lines|;
    if lo <= h then lines[lo..h] else []
  }

  /** The block for the anchor line `idx`; `norm` is `str.strip`. */
  function BlockAt(lines: seq<string>, norm: string -> string, idx: nat): ErrorBlock
    requires idx < |lines|
  {
    ErrorBlock(norm(lines[idx]),
               Slice(lines, if idx >= CONTEXT then idx - CONTEXT else 0, idx),
               Slice(lines, idx + 1, idx + 1 + CONTEXT))
  }

  /** Line `idx` is an anchor, and the first with its trimmed text. */
  predicate FirstAnchor(lines: seq<string>, isAnchor: string -> bool, norm: string -> string, idx: nat)
    requires idx < |lines|
  {
    isAnchor(lines[idx]) && forall k | 0 <= k < idx && isAnchor(lines[k]) :: norm(lines[k]) != norm(lines[idx])
  }

  /** The lines among the first `n` that head a block, in order. */
  function Heads(lines: seq<string>, isAnchor: string -> bool, norm: string -> string, n: nat): (at: seq<nat>)
    requires n <= |lines|
    ensures forall k | 0 <= k < |at| :: at[k] < n && FirstAnchor(lines, isAnchor, norm, at[k])
    ensures forall j, k | 0 <= j < k < |at| :: at[j] < at[k]
    ensures forall i | 0 <= i < n && FirstAnchor(lines, isAnchor, norm, i) :: i in at
  {
    if n == 0 then []
    else
      var at := Heads(lines, isAnchor, norm, n - 1);
      if FirstAnchor(lines, isAnchor, norm, n - 1) then at + [n - 1] else at
  }

  function Blocks(lines: seq<string>, norm: string -> string, at: seq<nat>): (blocks: seq<ErrorBlock>)
    requires forall k | 0 <= k < |at| :: at[k] < |lines|
    ensures |blocks| == |at|
    ensures forall k | 0 <= k < |at| :: blocks[k] == BlockAt(lines, norm, at[k])
  {
    seq(|at|, k requires 0 <= k < |at| => BlockAt(lines, norm, at[k]))
  }

  /** What the loop remembers after `n` lines: for each text seen, a line. */
  ghost predicate SeenIn(lines: seq<string>, isAnchor: string -> bool, norm: string -> string, n: nat, whence: map<string, nat>)
    requires n <= |lines|
  {
    && (forall s | s in whence :: whence[s] < n && isAnchor(lines[whence[s]]) && norm(lines[whence[s]]) == s)
    && (forall k | 0 <= k < n && isAnchor(lines[k]) :: norm(lines[k]) in whence)
  }

  /** The loop invariant: the first `n` lines are dealt with. */
  ghost predicate ParsedTo(lines: seq<string>, isAnchor: string -> bool, norm: string -> string, n: nat,
                           blocks: seq<ErrorBlock>, whence: map<string, nat>)
    requires n <= |lines|
  {
    && SeenIn(lines, isAnchor, norm, n, whence)
    && blocks == Blocks(lines, norm, Heads(lines, isAnchor, norm, n))
  }

  predicate IsNews(line: string, isAnchor: string -> bool, norm: string -> string, seen: set<string>) {
    isAnchor(line) && norm(line) !in seen
  }

  lemma NewsAreFirst(lines: seq<string>, isAnchor: string -> bool, norm: string -> string, idx: nat, whence: map<string, nat>)
    requires idx < |lines| && SeenIn(lines, isAnchor, norm, idx, whence)
    ensures FirstAnchor(lines, isAnchor, norm, idx) <==> IsNews(lines[idx], isAnchor, norm, whence.Keys)
  {
  }

  lemma SeeOne(lines: seq<string>, isAnchor: string -> bool, norm: string -> string, idx: nat, whence: map<string, nat>)
    requires idx < |lines| && SeenIn(lines, isAnchor, norm, idx, whence)
    ensures if IsNews(lines[idx], isAnchor, norm, whence.Keys)
      then SeenIn(lines, isAnchor, norm, idx + 1, whence[norm(lines[idx]) := idx])
      else SeenIn(lines, isAnchor, norm, idx + 1, whence)
  {
  }

  lemma BlocksSnoc(lines: seq<string>, isAnchor: string -> bool, norm: string -> string, idx: nat)
    requires idx < |lines|
    ensures var next := Blocks(lines, norm, Heads(lines, isAnchor, norm, idx + 1));
      var blocks := Blocks(lines, norm, Heads(lines, isAnchor, norm, idx));
      next == if FirstAnchor(lines, isAnchor, norm, idx) then blocks + [BlockAt(lines, norm, idx)] else blocks
  {
  }

  /** One turn of the loop. */
  lemma ParseOne(lines: seq<string>, isAnchor: string -> bool, norm: string -> string, idx: nat,
                 blocks: seq<ErrorBlock>, whence: map<string, nat>)
    requires idx < |lines| && ParsedTo(lines, isAnchor, norm, idx, blocks, whence)
    ensures if IsNews(lines[idx], isAnchor, norm, whence.Keys)
      then ParsedTo(lines, isAnchor, norm, idx + 1, blocks + [BlockAt(lines, norm, idx)], whence[norm(lines[idx]) := idx])
      else ParsedTo(lines, isAnchor, norm, idx + 1, blocks, whence)
  {
    NewsAreFirst(lines, isAnchor, norm, idx, whence);
    SeeOne(lines, isAnchor, norm, idx, whence);
    BlocksSnoc(lines, isAnchor, norm, idx);
  }

  lemma ParseNone(lines: seq<string>, isAnchor: string -> bool, norm: string -> string)
    ensures ParsedTo(lines, isAnchor, norm, 0, [], map[])
  {
  }

  /** `parse`, on the lines left after stripping, for any anchor pattern. */
  method Parse(lines: seq<string>, isAnchor: string -> bool, norm: string -> string) returns (blocks: seq<ErrorBlock>)
    ensures blocks == Blocks(lines, norm, Heads(lines, isAnchor, norm, |lines|))
  {
    var seen: set<string> := {};
    ghost var whence: map<string, nat> := map[];
    blocks := [];
    ParseNone(lines, isAnchor, norm);
    for idx := 0 to |lines|
      invariant seen == whence.Keys && ParsedTo(lines, isAnchor, norm, idx, blocks, whence)
    {
      ParseOne(lines, isAnchor, norm, idx, blocks, whence);
      if isAnchor(lines[idx]) {
        var text := norm(lines[idx]);
        if text !in seen {
          seen := seen + {text};
          whence := whence[text := idx];
          blocks := blocks + [BlockAt(lines, norm, idx)];
        }
      }
    }
  }

  lemma {:induction false} FirstWith(lines: seq<string>, isAnchor: string -> bool, norm: string -> string, i: nat)
    returns (f: nat)
    requires i < |lines| && isAnchor(lines[i])
    ensures f <= i && norm(lines[f]) == norm(lines[i]) && FirstAnchor(lines, isAnchor, norm, f)
  {
    if FirstAnchor(lines, isAnchor, norm, i) {
      f := i;
    } else {
      var k :| 0 <= k < i && isAnchor(lines[k]) && norm(lines[k]) == norm(lines[i]);
      f := FirstWith(lines, isAnchor, norm, k);
    }
  }

  /** Block `k` stands for line `i`. */
  ghost predicate Covers(blocks: seq<ErrorBlock>, at: seq<nat>, norm: string -> string, line: string, i: nat, k: nat) {
    k < |blocks| == |at| && blocks[k].anchor == norm(line) && at[k] <= i
  }

  /** What a reader of the blocks may rely on: their anchors are distinct, come
      in the order of the log, and every anchor line's text is among them, in a
      block taken from that line or an earlier one. */
  lemma BlocksCoverAnchors(lines: seq<string>, isAnchor: string -> bool, norm: string -> string)
    ensures var at := Heads(lines, isAnchor, norm, |lines|);
      var blocks := Blocks(lines, norm, at);
      && (forall j, k | 0 <= j < k < |blocks| :: blocks[j].anchor != blocks[k].anchor)
      && (forall i | 0 <= i < |lines| && isAnchor(lines[i]) :: exists k :: Covers(blocks, at, norm, lines[i], i, k))
  {
    var at := Heads(lines, isAnchor, norm, |lines|);
    var blocks := Blocks(lines, norm, at);
    forall j, k | 0 <= j < k < |blocks| ensures blocks[j].anchor != blocks[k].anchor {
      assert FirstAnchor(lines, isAnchor, norm, at[j]) && FirstAnchor(lines, isAnchor, norm, at[k]);
    }
    forall i | 0 <= i < |lines| && isAnchor(lines[i]) ensures exists k :: Covers(blocks, at, norm, lines[i], i, k) {
      var f := FirstWith(lines, isAnchor, norm, i);
      assert f in at;
      var k :| 0 <= k < |at| && at[k] == f;
      assert Covers(blocks, at, norm, lines[i], i, k);
    }
  }

  /** The context of a block is exactly the lines around its anchor line, five
      on each side as far as the log has them: with the anchor line itself they
      are one stretch of the log, cut short only by an end of it. */
  lemma ContextIsExact(lines: seq<string>, norm: string -> string, idx: nat)
    requires idx < |lines|
    ensures var b := BlockAt(lines, norm, idx);
      var from, to := idx - |b.before|, idx + 1 + |b.after|;
      && 0 <= from <= idx < to <= |lines|
      && b.before + [lines[idx]] + b.after == lines[from..to]
      && |b.before| <= 5 && (|b.before| < 5 ==> from == 0)
      && |b.after| <= 5 && (|b.after| < 5 ==> to == |lines|)
  {
    var b := BlockAt(lines, norm, idx);
    var from, to := idx - |b.before|, idx + 1 + |b.after|;
    assert b.before == lines[from..idx];
    assert b.after == lines[idx + 1..to];
  }

  /** `full_text`. */
  function FullText(b: ErrorBlock): string {
    Join(b.before + [b.anchor] + b.after, '\n')
  }

  /** The text of a block reads back as its lines, nothing lost and nothing
      merged, since a line and its trimmed form hold no line break. */
  lemma FullTextReadsBack(lines: seq<string>, norm: string -> string, idx: nat)
    requires idx < |lines|
    requires forall i | 0 <= i < |lines| :: '\n' !in lines[i] && '\n' !in norm(lines[i])
    ensures var b := BlockAt(lines, norm, idx);
      Split(FullText(b), '\n') == b.before + [norm(lines[idx])] + b.after
  {
    var b := BlockAt(lines, norm, idx);
    var parts := b.before + [b.anchor] + b.after;
    forall p | p in parts ensures '\n' !in p {
      if p in b.before {
        var i :| 0 <= i < |b.before| && b.before[i] == p;
      } else if p in b.after {
        var i :| 0 <= i < |b.after| && b.after[i] == p;
      }
    }
    SplitJoin(parts, '\n');
  }
}
