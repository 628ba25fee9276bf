/** Strings as the source cuts and joins them. */
module Text {
  import opened Queries

  /** `sep.join(parts)`. */
  function Join<T>(parts: seq<seq<T>>, sep: T): seq<T> {
    if parts == [] then []
    else if |parts| == 1 then parts[0]
    else parts[0] + [sep] + Join(parts[1..], sep)
  }

  /** `s.split(sep)`: always at least one piece. */
  function Split<T(==)>(s: seq<T>, sep: T): (pieces: seq<seq<T>>)
    ensures pieces != []
    ensures forall p | p in pieces :: sep !in p
  {
    if s == [] then [[]]
    else
      var rest := Split(s[1..], sep);
      if s[0] == sep then [[]] + rest else [[s[0]] + rest[0]] + rest[1..]
  }

  lemma {:induction false} SplitPiece<T>(a: seq<T>, sep: T)
    requires sep !in a
    ensures Split(a, sep) == [a]
  {
    if a != [] {
      SplitPiece(a[1..], sep);
      assert a == [a[0]] + a[1..];
    }
  }

  lemma {:induction false} SplitAt<T>(a: seq<T>, sep: T, b: seq<T>)
    ensures Split(a + [sep] + b, sep) == Split(a, sep) + Split(b, sep)
  {
    var s := a + [sep] + b;
    if a == [] {
      assert s[1..] == b;
      assert Split(s, sep) == [[]] + Split(b, sep);
    } else {
      assert s[0] == a[0] && s[1..] == a[1..] + [sep] + b;
      SplitAt(a[1..], sep, b);
      SplitHead(Split(a[1..], sep), Split(b, sep), a[0]);
    }
  }

  lemma SplitHead<T>(rest: seq<seq<T>>, more: seq<seq<T>>, x: T)
    requires rest != []
    ensures [[x] + (rest + more)[0]] + (rest + more)[1..] == [[x] + rest[0]] + rest[1..] + more
    ensures [[]] + (rest + more) == [[]] + rest + more
  {
  }

  /** Splitting undoes joining when no part contains the separator. */
  lemma {:induction false} SplitJoin<T>(parts: seq<seq<T>>, sep: T)
    requires parts != [] && forall p | p in parts :: sep !in p
    ensures Split(Join(parts, sep), sep) == parts
  {
    if |parts| == 1 {
      SplitPiece(parts[0], sep);
    } else {
      SplitAt(parts[0], sep, Join(parts[1..], sep));
      SplitPiece(parts[0], sep);
      SplitJoin(parts[1..], sep);
      assert parts == [parts[0]] + parts[1..];
    }
  }

  /** The non-empty pieces, in order. */
  function NonEmpty<T(==)>(pieces: seq<seq<T>>): seq<seq<T>> {
    if pieces == [] then []
    else (if pieces[0] == [] then [] else [pieces[0]]) + NonEmpty(pieces[1..])
  }

  lemma {:induction false} NonEmptyConcat<T>(a: seq<seq<T>>, b: seq<seq<T>>)
    ensures NonEmpty(a + b) == NonEmpty(a) + NonEmpty(b)
  {
    if a == [] {
      assert a + b == b;
    } else {
      assert (a + b)[1..] == a[1..] + b;
      NonEmptyConcat(a[1..], b);
    }
  }

  lemma {:induction false} NonEmptyMembers<T>(pieces: seq<seq<T>>)
    ensures forall p :: p in NonEmpty(pieces) <==> p in pieces && p != []
  {
    if pieces != [] {
      NonEmptyMembers(pieces[1..]);
    }
  }

  lemma {:induction false} NonEmptyAll<T>(pieces: seq<seq<T>>)
    requires forall p | p in pieces :: p != []
    ensures NonEmpty(pieces) == pieces
  {
    if pieces != [] {
      assert pieces == [pieces[0]] + pieces[1..];
      assert pieces[0] in pieces && forall p | p in pieces[1..] :: p in pieces;
      NonEmptyAll(pieces[1..]);
    }
  }

  // ---------------------------------------------------------- stripping

  /** Left and right stripping of the elements in `junk`. */
  function StripLeft<T>(s: seq<T>, junk: T -> bool): (r: seq<T>)
    ensures r != [] ==> !junk(r[0])
    ensures |r| <= |s| && r == s[|s| - |r|..]
    ensures forall i | 0 <= i < |s| - |r| :: junk(s[i])
  {
    if s != [] && junk(s[0]) then StripLeft(s[1..], junk) else s
  }

  function StripRight<T>(s: seq<T>, junk: T -> bool): (r: seq<T>)
    ensures r != [] ==> !junk(r[|r| - 1])
    ensures |r| <= |s| && r == s[..|r|]
    ensures forall i | |r| <= i < |s| :: junk(s[i])
  {
    if s != [] && junk(s[|s| - 1]) then StripRight(s[..|s| - 1], junk) else s
  }

  function Strip<T>(s: seq<T>, junk: T -> bool): seq<T> {
    StripRight(StripLeft(s, junk), junk)
  }

  predicate Trimmed<T>(s: seq<T>, junk: T -> bool) {
    s != [] ==> !junk(s[0]) && !junk(s[|s| - 1])
  }

  lemma StripTrims<T>(s: seq<T>, junk: T -> bool)
    ensures Trimmed(Strip(s, junk), junk)
    ensures Trimmed(s, junk) ==> Strip(s, junk) == s
    ensures forall x | x in Strip(s, junk) :: x in s
  {
    var left := StripLeft(s, junk);
    var both := StripRight(left, junk);
    assert both != [] ==> both[0] == left[0];
  }

  lemma {:induction false} StripLeftJunk<T>(before: seq<T>, s: seq<T>, junk: T -> bool)
    requires forall i | 0 <= i < |before| :: junk(before[i])
    requires s != [] && !junk(s[0])
    ensures StripLeft(before + s, junk) == s
  {
    if before == [] {
      assert before + s == s;
    } else {
      assert (before + s)[1..] == before[1..] + s;
      StripLeftJunk(before[1..], s, junk);
    }
  }

  lemma {:induction false} StripRightJunk<T>(s: seq<T>, after: seq<T>, junk: T -> bool)
    requires forall i | 0 <= i < |after| :: junk(after[i])
    requires s != [] && !junk(s[|s| - 1])
    ensures StripRight(s + after, junk) == s
  {
    if after == [] {
      assert s + after == s;
    } else {
      var shorter := after[..|after| - 1];
      assert (s + after)[..|s + after| - 1] == s + shorter;
      StripRightJunk(s, shorter, junk);
    }
  }

  lemma StripPadded<T>(before: seq<T>, s: seq<T>, after: seq<T>, junk: T -> bool)
    requires forall i | 0 <= i < |before| :: junk(before[i])
    requires forall i | 0 <= i < |after| :: junk(after[i])
    requires s != [] && Trimmed(s, junk)
    ensures Strip(before + s + after, junk) == s
  {
    assert before + s + after == before + (s + after);
    StripLeftJunk(before, s + after, junk);
    StripRightJunk(s, after, junk);
  }

  function StripAll<T>(pieces: seq<seq<T>>, junk: T -> bool): (stripped: seq<seq<T>>)
    ensures |stripped| == |pieces|
    ensures forall i | 0 <= i < |pieces| :: stripped[i] == Strip(pieces[i], junk)
  {
    seq(|pieces|, i requires 0 <= i < |pieces| => Strip(pieces[i], junk))
  }

  /** The pieces stripped, without those of which nothing is left. */
  function Clean<T(==)>(pieces: seq<seq<T>>, junk: T -> bool): seq<seq<T>> {
    NonEmpty(StripAll(pieces, junk))
  }

  lemma CleanPlain<T>(pieces: seq<seq<T>>, junk: T -> bool)
    requires forall p | p in pieces :: p != [] && Trimmed(p, junk)
    ensures Clean(pieces, junk) == pieces
  {
    var stripped := StripAll(pieces, junk);
    forall i | 0 <= i < |pieces| ensures stripped[i] == pieces[i] {
      assert pieces[i] in pieces;
      StripTrims(pieces[i], junk);
    }
    assert stripped == pieces;
    NonEmptyAll(pieces);
  }

  /** `s` is junk, its stripped part, and junk again. */
  lemma StripShape<T>(s: seq<T>, junk: T -> bool) returns (lead: seq<T>, trail: seq<T>)
    ensures s == lead + Strip(s, junk) + trail
    ensures forall i | 0 <= i < |lead| :: junk(lead[i])
    ensures forall i | 0 <= i < |trail| :: junk(trail[i])
  {
    lead := LeftShape(s, junk);
    var left := StripLeft(s, junk);
    trail := RightShape(left, junk);
    Regroup(s, lead, left, StripRight(left, junk), trail);
  }

  lemma Regroup<T>(s: seq<T>, lead: seq<T>, left: seq<T>, both: seq<T>, trail: seq<T>)
    requires s == lead + left && left == both + trail
    ensures s == lead + both + trail
  {
  }

  lemma LeftShape<T>(s: seq<T>, junk: T -> bool) returns (lead: seq<T>)
    ensures s == lead + StripLeft(s, junk)
    ensures forall i | 0 <= i < |lead| :: junk(lead[i])
  {
    var n := |s| - |StripLeft(s, junk)|;
    lead := s[..n];
  }

  lemma RightShape<T>(s: seq<T>, junk: T -> bool) returns (trail: seq<T>)
    ensures s == StripRight(s, junk) + trail
    ensures forall i | 0 <= i < |trail| :: junk(trail[i])
  {
    var n := |StripRight(s, junk)|;
    trail := s[n..];
  }

  lemma JoinCons<T>(x: seq<T>, rest: seq<seq<T>>, sep: T)
    requires rest != []
    ensures Join([x] + rest, sep) == x + [sep] + Join(rest, sep)
  {
    assert ([x] + rest)[1..] == rest;
  }

  // ------------------------------------------------------ parts and case

  /** Python's `part in s`: somewhere `part` starts in `s`. */
  predicate Contains<T(==)>(s: seq<T>, part: seq<T>) {
    part <= s || (s != [] && Contains(s[1..], part))
  }

  lemma {:induction false} ContainsIff<T>(s: seq<T>, part: seq<T>)
    ensures Contains(s, part) <==> exists i :: 0 <= i <= |s| && part <= s[i..]
  {
    if part <= s {
      assert s[0..] == s;
    } else if s != [] {
      ContainsIff(s[1..], part);
      assert forall i | 0 <= i <= |s| - 1 :: s[1..][i..] == s[i + 1..];
      if i :| 0 <= i <= |s| && part <= s[i..] {
        assert i > 0 && s[1..][i - 1..] == s[i..];
      }
      if i :| 0 <= i <= |s| - 1 && part <= s[1..][i..] {
        assert part <= s[i + 1..];
      }
    }
  }

  /** A part without the separator lies on one side of it. */
  lemma {:induction false} ContainsAround<T>(a: seq<T>, sep: T, b: seq<T>, part: seq<T>)
    requires part != [] && sep !in part
    ensures Contains(a + [sep] + b, part) <==> Contains(a, part) || Contains(b, part)
  {
    var s := a + [sep] + b;
    assert s[|a|] == sep;
    if a == [] {
      assert s[1..] == b;
    } else {
      assert s[1..] == a[1..] + [sep] + b;
      ContainsAround(a[1..], sep, b, part);
      assert part <= s <==> part <= a;
    }
  }

  /** Lower-casing of ASCII letters. */
  function LowerChar(c: char): char {
    if 'A' <= c <= 'Z' then c - 'A' + 'a' else c
  }

  function Lower(s: string): (low: string)
    ensures |low| == |s|
    ensures forall i | 0 <= i < |s| :: low[i] == LowerChar(s[i])
  {
    seq(|s|, i requires 0 <= i < |s| => LowerChar(s[i]))
  }

  lemma LowerConcat(a: string, b: string)
    ensures Lower(a + b) == Lower(a) + Lower(b)
  {
  }

  // --------------------------------------------------- optional entries

  /** The images of a list, one by one. */
  function Images<S, T>(list: seq<S>, f: S -> T): (images: seq<T>)
    ensures |images| == |list|
    ensures forall i | 0 <= i < |list| :: images[i] == f(list[i])
  {
    if list == [] then [] else Images(list[..|list| - 1], f) + [f(list[|list| - 1])]
  }

  function With<S>(list: seq<S>, wanted: bool, x: S): seq<S> {
    if wanted then list + [x] else list
  }

  method AppendIf<S, T>(images: seq<T>, wanted: bool, x: S, f: S -> T, ghost list: seq<S>)
    returns (images': seq<T>, ghost list': seq<S>)
    requires images == Images(list, f)
    ensures list' == With(list, wanted, x)
    ensures images' == Images(list', f) == if wanted then images + [f(x)] else images
  {
    images', list' := images, list;
    if wanted {
      list' := list + [x];
      assert list'[..|list|] == list;
      images' := images + [f(x)];
    }
  }

  // ---------------------------------------------- first occurrences only

  /** `s` without repetitions, in the order of first occurrence. */
  function FirstOccurrences<T(==)>(s: seq<T>): seq<T> {
    if s == [] then []
    else
      var n := |s| - 1;
      var seen := FirstOccurrences(s[..n]);
      if s[n] in seen then seen else seen + [s[n]]
  }

  function FirstIndex<T(==)>(s: seq<T>, x: T): (i: nat)
    requires x in s
    ensures i < |s| && s[i] == x && x !in s[..i]
  {
    if s[0] == x then 0 else
      assert x in s[1..];
      var i := 1 + FirstIndex(s[1..], x);
      assert s[..i] == [s[0]] + s[1..][..i - 1];
      i
  }

  lemma FirstIndexIs<T>(s: seq<T>, x: T, i: nat)
    requires i < |s| && s[i] == x && x !in s[..i]
    ensures x in s && FirstIndex(s, x) == i
  {
    var k := FirstIndex(s, x);
    assert k >= i && i >= k;
  }

  /** `f` lists exactly the members of `s`, once each, ordered by first occurrence. */
  ghost predicate ListsFirst<T(!new)>(s: seq<T>, f: seq<T>) {
    && Distinct(f)
    && (forall x :: x in f <==> x in s)
    && forall i, j | 0 <= i < j < |f| :: FirstIndex(s, f[i]) < FirstIndex(s, f[j])
  }

  lemma {:induction false} FirstOccurrencesMeans<T(!new)>(s: seq<T>)
    ensures ListsFirst(s, FirstOccurrences(s))
  {
    if s != [] {
      var n := |s| - 1;
      var front, f := s[..n], FirstOccurrences(s);
      FirstOccurrencesMeans(front);
      assert s == front + [s[n]];
      forall x | x in front ensures FirstIndex(s, x) == FirstIndex(front, x) {
        var i := FirstIndex(front, x);
        assert s[..i] == front[..i];
        FirstIndexIs(s, x, i);
      }
      if s[n] !in front {
        FirstIndexIs(s, s[n], n);
      }
    }
  }

  /** Two lists of the same members in the same strict order are one list. */
  lemma {:induction false} OneOrder<T(!new)>(s: seq<T>, f: seq<T>, g: seq<T>)
    requires forall x | x in f :: x in s
    requires forall x :: x in f <==> x in g
    requires forall i, j | 0 <= i < j < |f| :: FirstIndex(s, f[i]) < FirstIndex(s, f[j])
    requires forall i, j | 0 <= i < j < |g| :: FirstIndex(s, g[i]) < FirstIndex(s, g[j])
    ensures f == g
  {
    assert Members(f) == Members(g);
    NoMembers(f);
    NoMembers(g);
    if f != [] {
      SameHead(s, f, g);
      var x, rest, others := f[0], f[1..], g[1..];
      assert f == [x] + rest && g == [x] + others;
      assert x !in rest && x !in others by {
        assert forall i | 0 <= i < |rest| :: rest[i] == f[i + 1];
        assert forall i | 0 <= i < |others| :: others[i] == g[i + 1];
      }
      forall y ensures y in rest <==> y in others {
        assert y in f <==> y == x || y in rest;
        assert y in g <==> y == x || y in others;
      }
      OneOrder(s, rest, others);
    }
  }

  lemma SameHead<T(!new)>(s: seq<T>, f: seq<T>, g: seq<T>)
    requires f != [] && g != []
    requires forall x | x in f :: x in s
    requires forall x :: x in f <==> x in g
    requires forall i, j | 0 <= i < j < |f| :: FirstIndex(s, f[i]) < FirstIndex(s, f[j])
    requires forall i, j | 0 <= i < j < |g| :: FirstIndex(s, g[i]) < FirstIndex(s, g[j])
    ensures f[0] == g[0]
  {
    assert f[0] in g && g[0] in f;
    var j :| 0 <= j < |g| && g[j] == f[0];
    var i :| 0 <= i < |f| && f[i] == g[0];
  }

  /** Those conditions fix the list. */
  lemma FirstOccurrencesIff<T(!new)>(s: seq<T>, f: seq<T>)
    ensures ListsFirst(s, f) <==> f == FirstOccurrences(s)
  {
    FirstOccurrencesMeans(s);
    if ListsFirst(s, f) {
      OneOrder(s, f, FirstOccurrences(s));
    }
  }

  /** The loop the source writes each time: a set of what was seen and a list. */
  method Deduplicate<T(==)>(s: seq<T>) returns (kept: seq<T>)
    ensures kept == FirstOccurrences(s)
  {
    kept := [];
    var seen: set<T> := {};
    assert s[..0] == [];
    for n := 0 to |s|
      invariant kept == FirstOccurrences(s[..n])
      invariant seen == Members(kept)
    {
      assert s[..n + 1][..n] == s[..n];
      if s[n] !in seen {
        kept := kept + [s[n]];
        seen := seen + {s[n]};
      }
    }
    assert s[..|s|] == s;
  }
}
