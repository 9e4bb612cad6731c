/**
 * Keep-first de-duplication of a sequence by a key: the behaviour of
 * filling a JavaScript `Map` or a Python `dict` in scan order and reading
 * back its values (or keys), where the first element with a given key wins
 * and the insertion order is kept; and `Array.prototype.filter`.
 */
module Seqs {

  /** The keys of the elements of `s`. */
  function Keys<T, K(==)>(s: seq<T>, key: T -> K): set<K> {
    set i | 0 <= i < |s| :: key(s[i])
  }

  /** No two elements of `s` share a key. */
  predicate DistinctKeys<T, K(==)>(s: seq<T>, key: T -> K) {
    forall i, j :: 0 <= i < j < |s| ==> key(s[i]) != key(s[j])
  }

  /** Position `j` holds the first element of `s` with its key. */
  predicate FirstWithKey<T, K(==)>(s: seq<T>, key: T -> K, j: int)
    requires 0 <= j < |s|
  {
    forall k :: 0 <= k < j ==> key(s[k]) != key(s[j])
  }

  /** The elements of `s` that are the first with their key, in their order in `s`. */
  function KeepFirst<T, K(==)>(s: seq<T>, key: T -> K): seq<T> {
    if s == [] then []
    else
      var p := KeepFirst(s[..|s| - 1], key);
      if key(s[|s| - 1]) in Keys(p, key) then p else p + [s[|s| - 1]]
  }

  lemma KeysAppend<T, K>(s: seq<T>, x: T, key: T -> K)
    ensures Keys(s + [x], key) == Keys(s, key) + {key(x)}
  {
    var t := s + [x];
    assert forall i :: 0 <= i < |s| ==> t[i] == s[i];
    assert t[|s|] == x;
  }

  /** The output has exactly the keys of the input. */
  lemma {:induction false} KeepFirstKeys<T, K>(s: seq<T>, key: T -> K)
    ensures Keys(KeepFirst(s, key), key) == Keys(s, key)
  {
    if s != [] {
      var q := s[..|s| - 1];
      var x := s[|s| - 1];
      assert s == q + [x];
      KeepFirstKeys(q, key);
      KeysAppend(q, x, key);
      KeysAppend(KeepFirst(q, key), x, key);
    }
  }

  /** No key occurs twice in the output. */
  lemma {:induction false} KeepFirstDistinct<T, K>(s: seq<T>, key: T -> K)
    ensures DistinctKeys(KeepFirst(s, key), key)
  {
    if s != [] {
      var q := s[..|s| - 1];
      var p := KeepFirst(q, key);
      KeepFirstDistinct(q, key);
      var x := s[|s| - 1];
      if key(x) !in Keys(p, key) {
        var r := p + [x];
        forall i, j | 0 <= i < j < |r| ensures key(r[i]) != key(r[j]) {
          if j == |p| {
            assert key(r[i]) in Keys(p, key);
          }
        }
      }
    }
  }

  /** Every output element is the first element of the input with its key. */
  lemma {:induction false} KeepFirstPicks<T, K>(s: seq<T>, key: T -> K)
    ensures |KeepFirst(s, key)| <= |s|
    ensures forall i :: 0 <= i < |KeepFirst(s, key)| ==>
      exists j :: 0 <= j < |s| && s[j] == KeepFirst(s, key)[i] && FirstWithKey(s, key, j)
  {
    if s != [] {
      var q := s[..|s| - 1];
      var p := KeepFirst(q, key);
      var x := s[|s| - 1];
      KeepFirstPicks(q, key);
      KeepFirstKeys(q, key);
      var r := KeepFirst(s, key);
      assert forall k :: 0 <= k < |q| ==> s[k] == q[k];
      forall i | 0 <= i < |p|
        ensures exists j :: 0 <= j < |s| && s[j] == p[i] && FirstWithKey(s, key, j)
      {
        var j :| 0 <= j < |q| && q[j] == p[i] && FirstWithKey(q, key, j);
        assert s[j] == q[j];
        assert FirstWithKey(s, key, j);
      }
      if key(x) !in Keys(p, key) {
        assert r == p + [x];
        forall k | 0 <= k < |s| - 1 ensures key(s[k]) != key(x) {
          assert key(q[k]) in Keys(q, key);
        }
        assert FirstWithKey(s, key, |s| - 1) && s[|s| - 1] == r[|p|];
        assert forall i :: 0 <= i < |p| ==> r[i] == p[i];
      } else {
        assert r == p;
      }
    }
  }

  /** De-duplicating a concatenation starts with the de-duplicated first part:
      everything kept from `a` comes before anything kept from `b`. */
  lemma {:induction false} KeepFirstPrefix<T, K>(a: seq<T>, b: seq<T>, key: T -> K)
    ensures |KeepFirst(a, key)| <= |KeepFirst(a + b, key)|
    ensures KeepFirst(a + b, key)[..|KeepFirst(a, key)|] == KeepFirst(a, key)
  {
    if b == [] {
      assert a + b == a;
    } else {
      var b' := b[..|b| - 1];
      assert (a + b)[..|a + b| - 1] == a + b';
      KeepFirstPrefix(a, b', key);
    }
  }

  /** The output is in order of first appearance: wherever the key of a later
      output element occurs in the input, the key of an earlier one occurs before it. */
  lemma {:induction false} KeepFirstOrder<T, K>(s: seq<T>, key: T -> K)
    ensures forall i, j, b :: (0 <= i < j < |KeepFirst(s, key)| && 0 <= b < |s| &&
      key(s[b]) == key(KeepFirst(s, key)[j])) ==>
      exists a :: 0 <= a < b && key(s[a]) == key(KeepFirst(s, key)[i])
  {
    if s != [] {
      var q := s[..|s| - 1];
      var p := KeepFirst(q, key);
      var x := s[|s| - 1];
      var r := KeepFirst(s, key);
      KeepFirstOrder(q, key);
      KeepFirstKeys(q, key);
      forall i, j, b | 0 <= i < j < |r| && 0 <= b < |s| && key(s[b]) == key(r[j])
        ensures exists a :: 0 <= a < b && key(s[a]) == key(r[i])
      {
        assert r[i] == p[i];
        assert key(p[i]) in Keys(p, key);
        if j < |p| {
          assert r[j] == p[j];
          if b < |q| {
            assert q[b] == s[b];
            var a :| 0 <= a < b && key(q[a]) == key(p[i]);
            assert s[a] == q[a];
          } else {
            assert key(p[j]) in Keys(p, key);
            var b' :| 0 <= b' < |q| && key(q[b']) == key(p[j]);
            var a :| 0 <= a < b' && key(q[a]) == key(p[i]);
            assert s[a] == q[a];
          }
        } else {
          assert r[j] == x && key(x) !in Keys(q, key);
          var a :| 0 <= a < |q| && key(q[a]) == key(p[i]);
          assert s[a] == q[a];
        }
      }
    }
  }

  /** An element of the input whose key is new joins the output. */
  lemma KeepFirstStep<T, K>(s: seq<T>, x: T, key: T -> K)
    ensures KeepFirst(s + [x], key) ==
      if key(x) in Keys(KeepFirst(s, key), key) then KeepFirst(s, key) else KeepFirst(s, key) + [x]
  {
    assert (s + [x])[..|s + [x]| - 1] == s;
  }

  /** Distinct keys: the length is the number of keys. */
  lemma {:induction false} DistinctKeysCount<T, K>(s: seq<T>, key: T -> K)
    requires DistinctKeys(s, key)
    ensures |Keys(s, key)| == |s|
  {
    if s != [] {
      var q := s[..|s| - 1];
      var x := s[|s| - 1];
      assert s == q + [x];
      DistinctKeysCount(q, key);
      KeysAppend(q, x, key);
      assert key(x) !in Keys(q, key) by {
        forall i | 0 <= i < |q| ensures key(q[i]) != key(x) {
          assert q[i] == s[i];
        }
      }
    }
  }

  // ----------------------------------------------------------------- filter

  /** `s.filter(keep)`: the elements that pass, in their order in `s`. */
  function Filter<T>(s: seq<T>, keep: T -> bool): (r: seq<T>)
    ensures |r| <= |s|
    ensures forall i :: 0 <= i < |r| ==> r[i] in s && keep(r[i])
    ensures forall i :: 0 <= i < |s| && keep(s[i]) ==> s[i] in r
  {
    if s == [] then []
    else if keep(s[0]) then [s[0]] + Filter(s[1..], keep)
    else Filter(s[1..], keep)
  }

  /** Filtering works piecewise, so the kept elements keep their relative order. */
  lemma {:induction false} FilterConcat<T>(a: seq<T>, b: seq<T>, keep: T -> bool)
    ensures Filter(a + b, keep) == Filter(a, keep) + Filter(b, keep)
  {
    if a == [] {
      assert a + b == b;
    } else {
      assert (a + b)[1..] == a[1..] + b;
      FilterConcat(a[1..], b, keep);
    }
  }

  /** Filtering by `q` after `p` is filtering by `q` alone when whatever `q` keeps `p`
      keeps too. */
  lemma {:induction false} FilterFilter<T>(s: seq<T>, p: T -> bool, q: T -> bool)
    requires forall i :: 0 <= i < |s| && q(s[i]) ==> p(s[i])
    ensures Filter(Filter(s, p), q) == Filter(s, q)
  {
    if s != [] {
      var t := s[1..];
      assert forall i :: 0 <= i < |t| ==> t[i] == s[i + 1];
      FilterFilter(t, p, q);
      if p(s[0]) {
        var f := [s[0]] + Filter(t, p);
        assert f[0] == s[0] && f[1..] == Filter(t, p);
      }
    }
  }

  /** Two tests that agree on every element filter alike. */
  lemma {:induction false} FilterSame<T>(s: seq<T>, p: T -> bool, q: T -> bool)
    requires forall i :: 0 <= i < |s| ==> p(s[i]) == q(s[i])
    ensures Filter(s, p) == Filter(s, q)
  {
    if s != [] {
      FilterSame(s[1..], p, q);
    }
  }

  /** When nothing passes, nothing is left. */
  lemma {:induction false} FilterNone<T>(s: seq<T>, keep: T -> bool)
    requires forall i :: 0 <= i < |s| ==> !keep(s[i])
    ensures Filter(s, keep) == []
  {
    if s != [] {
      FilterNone(s[1..], keep);
    }
  }

  /** When everything passes, the filter changes nothing. */
  lemma {:induction false} FilterAll<T>(s: seq<T>, keep: T -> bool)
    requires forall i :: 0 <= i < |s| ==> keep(s[i])
    ensures Filter(s, keep) == s
  {
    if s != [] {
      FilterAll(s[1..], keep);
    }
  }

  /** A relation that holds between every earlier and later element of `s` still holds
      in the filtered sequence. */
  lemma {:induction false} FilterOrdered<T>(s: seq<T>, keep: T -> bool, before: (T, T) -> bool)
    requires forall i, j :: 0 <= i < j < |s| ==> before(s[i], s[j])
    ensures forall i, j :: 0 <= i < j < |Filter(s, keep)| ==> before(Filter(s, keep)[i], Filter(s, keep)[j])
  {
    if s != [] {
      var t := s[1..];
      assert forall i, j :: 0 <= i < j < |t| ==> t[i] == s[i + 1] && t[j] == s[j + 1];
      FilterOrdered(t, keep, before);
      if keep(s[0]) {
        var f := Filter(t, keep);
        var r := [s[0]] + f;
        forall j | 0 < j < |r| ensures before(r[0], r[j]) {
          assert r[j] == f[j - 1];
          var k :| 0 <= k < |t| && t[k] == r[j];
          assert s[k + 1] == r[j];
        }
        forall i, j | 0 <= i < j < |r| ensures before(r[i], r[j]) {
          if i > 0 {
            assert r[i] == f[i - 1] && r[j] == f[j - 1];
            assert before(f[i - 1], f[j - 1]);
          }
        }
      }
    }
  }
}
