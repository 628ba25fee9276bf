/** Answers to `SELECT ... ORDER BY` queries.

    The database may break ties in any way, so an answer is any listing of the
    wanted identifiers in which nobody comes before a strictly smaller key. */
module Queries {
  type Key = (int, int)

  predicate Below(a: Key, b: Key) {
    a.0 < b.0 || (a.0 == b.0 && a.1 < b.1)
  }

  predicate Distinct<T(==)>(s: seq<T>) {
    forall i, j | 0 <= i < j < |s| :: s[i] != s[j]
  }

  function Members<T(==)>(s: seq<T>): set<T> {
    set x | x in s
  }

  lemma NoMembers<T>(s: seq<T>)
    ensures s == [] <==> Members(s) == {}
  {
    if s != [] { assert s[0] in Members(s); }
  }

  predicate Ordered(s: seq<nat>, key: map<nat, Key>) {
    forall i, j | 0 <= i < j < |s| && s[i] in key && s[j] in key :: !Below(key[s[j]], key[s[i]])
  }

  /** `s` lists exactly the keys of `key`, each once, in key order. */
  predicate Listing(s: seq<nat>, key: map<nat, Key>) {
    Distinct(s) && Members(s) == key.Keys && Ordered(s, key)
  }

  /** A least key put before a listing of the others lists them all. */
  lemma ListingCons(m: nat, rest: seq<nat>, key: map<nat, Key>)
    requires m in key && Listing(rest, key - {m})
    requires forall x | x in key :: !Below(key[x], key[m])
    ensures Listing([m] + rest, key)
  {
    var s := [m] + rest;
    var smaller := key - {m};
    assert smaller.Keys == key.Keys - {m};
    assert Members(s) == {m} + Members(rest) == key.Keys;
    assert forall x | x in rest :: x in Members(rest);
    assert forall x | x in Members(rest) :: x in smaller;
    forall i, j | 0 <= i < j < |s| && s[i] in key && s[j] in key
      ensures s[i] != s[j] && !Below(key[s[j]], key[s[i]])
    {
      if i > 0 {
        assert rest[i - 1] in smaller && rest[j - 1] in smaller;
      }
    }
  }

  /** Such an answer always exists. */
  lemma {:induction false} ListingExists(key: map<nat, Key>) returns (s: seq<nat>)
    ensures Listing(s, key)
    decreases |key.Keys|
  {
    if key.Keys == {} {
      s := [];
    } else {
      var k: nat :| k in key.Keys;
      var m := LeastKey(key, key.Keys, k);
      assert (key - {m}).Keys == key.Keys - {m};
      var tail := ListingExists(key - {m});
      ListingCons(m, tail, key);
      s := [m] + tail;
    }
  }

  lemma {:induction false} LeastKey(key: map<nat, Key>, among: set<nat>, start: nat) returns (m: nat)
    requires start in key && among <= key.Keys
    ensures m in key && (m == start || m in among)
    ensures !Below(key[start], key[m])
    ensures forall x | x in among :: !Below(key[x], key[m])
    decreases |among|
  {
    if among == {} {
      m := start;
    } else {
      var x: nat :| x in among;
      var next := if Below(key[x], key[start]) then x else start;
      m := LeastKey(key, among - {x}, next);
    }
  }

  /** A list without repetitions is as long as its set of members is large. */
  lemma {:induction false} DistinctSize<T>(s: seq<T>)
    requires Distinct(s)
    ensures |Members(s)| == |s|
  {
    if s != [] {
      var front := s[..|s| - 1];
      var last := s[|s| - 1];
      DistinctSize(front);
      assert s == front + [last];
      assert last !in front;
      assert Members(s) == Members(front) + {last};
    }
  }

  /** `q` are the first entries of the ordered answer: as many as the limit
      allows, each once, in order, and nobody left out comes strictly before. */
  predicate Foremost(q: seq<nat>, key: map<nat, Key>, limit: nat) {
    && Distinct(q) && Members(q) <= key.Keys && Ordered(q, key)
    && |q| == (if |key| <= limit then |key| else limit)
    && forall x, i | x in key && x !in q && 0 <= i < |q| && q[i] in key :: !Below(key[x], key[q[i]])
  }

  lemma ListingPrefix(full: seq<nat>, key: map<nat, Key>, limit: nat)
    requires Listing(full, key)
    ensures Foremost(full[..if |full| <= limit then |full| else limit], key, limit)
  {
    var q := full[..if |full| <= limit then |full| else limit];
    DistinctSize(full);
    assert |key| == |key.Keys|;
    forall x | x in q ensures x in key {
      assert x in Members(full);
    }
    forall x, i | x in key && x !in q && 0 <= i < |q| && q[i] in key ensures !Below(key[x], key[q[i]]) {
      assert x in Members(full);
      var j :| 0 <= j < |full| && full[j] == x;
      assert j >= |q| && full[i] == q[i];
    }
  }
}
