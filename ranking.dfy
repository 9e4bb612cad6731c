/**
 * Stable ranking by a two-part key: a larger first part ranks higher, and
 * among equal first parts the smaller second part (an insertion position)
 * ranks higher. Used for `Counter.most_common` (count, then first-seen
 * order) and for newest-first listings (time, then row order).
 */
module Ranking {

  /** `a` ranks above `b`. */
  predicate Before<T>(key: T -> (int, int), a: T, b: T) {
    key(a).0 > key(b).0 || (key(a).0 == key(b).0 && key(a).1 < key(b).1)
  }

  predicate Ranked<T>(s: seq<T>, key: T -> (int, int)) {
    forall i, j :: 0 <= i < j < |s| ==> Before(key, s[i], s[j])
  }

  /** No two elements share the tie-breaking part of the key. */
  predicate DistinctTieBreaks<T>(s: seq<T>, key: T -> (int, int)) {
    forall i, j :: 0 <= i < j < |s| ==> key(s[i]).1 != key(s[j]).1
  }

  /** Puts `e` in front of the first element it ranks above. */
  function Insert<T>(s: seq<T>, e: T, key: T -> (int, int)): (r: seq<T>)
    ensures |r| == |s| + 1
    ensures multiset(r) == multiset(s) + multiset{e}
  {
    if s == [] then [e]
    else if Before(key, e, s[0]) then [e] + s
    else
      assert s == [s[0]] + s[1..];
      [s[0]] + Insert(s[1..], e, key)
  }

  /** Inserting into a ranked list keeps it ranked. */
  lemma {:induction false} InsertRanked<T>(s: seq<T>, e: T, key: T -> (int, int))
    requires Ranked(s, key)
    requires forall x :: x in s ==> key(x).1 != key(e).1
    ensures Ranked(Insert(s, e, key), key)
  {
    if s != [] && !Before(key, e, s[0]) {
      var t := Insert(s[1..], e, key);
      InsertRanked(s[1..], e, key);
      assert Before(key, s[0], e);
      forall k | 0 <= k < |t| ensures Before(key, s[0], t[k]) {
        assert t[k] in multiset(t);
        if t[k] != e {
          assert t[k] in s[1..];
        }
      }
    }
  }

  /** A stable sort by the key: a ranked permutation of `s`. */
  function Rank<T>(s: seq<T>, key: T -> (int, int)): (r: seq<T>)
    requires DistinctTieBreaks(s, key)
    ensures |r| == |s|
    ensures multiset(r) == multiset(s)
    ensures Ranked(r, key)
  {
    if s == [] then []
    else
      var p := s[..|s| - 1];
      var e := s[|s| - 1];
      var q := Rank(p, key);
      assert s == p + [e];
      assert forall x :: x in q ==> key(x).1 != key(e).1 by {
        forall x | x in q ensures key(x).1 != key(e).1 {
          assert x in multiset(q);
        }
      }
      InsertRanked(q, e, key);
      Insert(q, e, key)
  }

  /** `n` clamped to `[0, m]`: how many entries a top-`n` selection keeps out of `m`. */
  function Clamp(n: int, m: nat): (k: nat)
    ensures k <= m
    ensures n <= 0 ==> k == 0
    ensures 0 <= n <= m ==> k == n
    ensures n > m ==> k == m
  {
    if n <= 0 then 0 else if n < m then n else m
  }

  /** The first `n` of the ranking. */
  function Top<T>(s: seq<T>, n: int, key: T -> (int, int)): (r: seq<T>)
    requires DistinctTieBreaks(s, key)
    ensures |r| == Clamp(n, |s|)
  {
    var ranked := Rank(s, key);
    ranked[..Clamp(n, |ranked|)]
  }

  /** The top `n` are elements of `s` in ranked order, and nothing left out ranks above
      the last one kept. */
  lemma TopIsTop<T>(s: seq<T>, n: int, key: T -> (int, int))
    requires DistinctTieBreaks(s, key)
    ensures forall i :: 0 <= i < |Top(s, n, key)| ==> Top(s, n, key)[i] in s
    ensures Ranked(Top(s, n, key), key)
    ensures forall x :: x in s && x !in Top(s, n, key) && Top(s, n, key) != [] ==>
      key(x).0 <= key(Top(s, n, key)[|Top(s, n, key)| - 1]).0
  {
    var ranked := Rank(s, key);
    var r := Top(s, n, key);
    forall i | 0 <= i < |r| ensures r[i] in s {
      assert r[i] == ranked[i];
      assert ranked[i] in multiset(ranked);
    }
    forall x | x in s && x !in r && r != []
      ensures key(x).0 <= key(r[|r| - 1]).0
    {
      assert x in multiset(ranked);
      var m :| 0 <= m < |ranked| && ranked[m] == x;
      if m < |r| {
        assert false;
      }
      assert r[|r| - 1] == ranked[|r| - 1];
      assert Before(key, ranked[|r| - 1], ranked[m]) || m == |r| - 1;
    }
  }
}
