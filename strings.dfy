/**
 * String operations used throughout the application: lower-casing,
 * trimming, substring and prefix tests, and `replace` of the first
 * occurrence of a character, as JavaScript and Python provide them.
 */
module Strings {

  /** `toLowerCase` on one character, restricted to the ASCII letters. */
  function LowerChar(c: char): (d: char)
    ensures 'A' <= c <= 'Z' ==> d as int == c as int + 32
    ensures !('A' <= c <= 'Z') ==> d == c
    ensures !('A' <= d <= 'Z')
  {
    if 'A' <= c <= 'Z' then (c as int + 32) as char else c
  }

  /** `toLowerCase`: every ASCII upper-case letter lowered, everything else kept. */
  function Lower(s: string): (t: string)
    ensures |t| == |s|
    ensures forall i :: 0 <= i < |s| ==> t[i] == LowerChar(s[i])
  {
    seq(|s|, i requires 0 <= i < |s| => LowerChar(s[i]))
  }

  predicate IsLower(s: string) {
    forall i :: 0 <= i < |s| ==> !('A' <= s[i] <= 'Z')
  }

  /** Lower-casing is idempotent, and already lower-case text is left alone. */
  lemma LowerIdempotent(s: string)
    ensures IsLower(Lower(s))
    ensures Lower(Lower(s)) == Lower(s)
  {
  }

  /** Lower-casing never turns blank text into text with content, nor the reverse. */
  lemma LowerBlank(s: string)
    ensures IsBlank(Lower(s)) <==> IsBlank(s)
  {
  }

  lemma LowerOfLower(s: string)
    requires IsLower(s)
    ensures Lower(s) == s
  {
  }

  /** Lower-casing commutes with concatenation. */
  lemma LowerConcat(a: string, b: string)
    ensures Lower(a + b) == Lower(a) + Lower(b)
  {
  }

  /** `s.startsWith(p)`. */
  predicate StartsWith(s: string, p: string) {
    |p| <= |s| && s[..|p|] == p
  }

  /** `s.includes(k)`: `k` occurs somewhere in `s` as a contiguous block. */
  predicate Contains(s: string, k: string) {
    exists i | 0 <= i <= |s| :: OccursAt(s, k, i)
  }

  /** `k` occurs in `s` starting at position `i`. */
  predicate OccursAt(s: string, k: string, i: int) {
    0 <= i <= |s| - |k| && s[i..i + |k|] == k
  }

  lemma ContainsSuffix(a: string, b: string)
    ensures Contains(a + b, b)
  {
    assert OccursAt(a + b, b, |a|);
  }

  lemma ContainsPrefix(a: string, b: string)
    ensures Contains(a + b, a)
  {
    assert OccursAt(a + b, a, 0);
  }

  lemma ContainsExtend(s: string, t: string, k: string)
    requires Contains(s, k)
    ensures Contains(s + t, k)
  {
    var i :| 0 <= i <= |s| && OccursAt(s, k, i);
    assert (s + t)[i..i + |k|] == s[i..i + |k|];
    assert OccursAt(s + t, k, i);
  }

  /** A string starting with `p` contains `p`. */
  lemma StartsWithContains(s: string, p: string)
    requires StartsWith(s, p)
    ensures Contains(s, p)
  {
    assert OccursAt(s, p, 0);
  }

  /** A string starting with `p` agrees with `p` at each of its positions. */
  lemma StartsWithAt(s: string, p: string, i: int)
    requires 0 <= i < |p|
    ensures StartsWith(s, p) ==> s[i] == p[i]
  {
    if StartsWith(s, p) {
      assert s[i] == s[..|p|][i];
    }
  }

  /** JavaScript's white-space and line-terminator characters (the common ones). */
  predicate IsSpace(c: char) {
    c == ' ' || c == '\t' || c == '\n' || c == '\r' || c == '\U{000B}' || c == '\U{000C}'
    || c == '\U{00A0}' || c == '\U{FEFF}' || c == '\U{2028}' || c == '\U{2029}'
  }

  /** `s.trimStart()`. */
  function TrimStart(s: string): (t: string)
    ensures |t| <= |s| && t == s[|s| - |t|..]
    ensures t == [] || !IsSpace(t[0])
    ensures forall i :: 0 <= i < |s| - |t| ==> IsSpace(s[i])
  {
    if s != [] && IsSpace(s[0]) then TrimStart(s[1..]) else s
  }

  lemma TrimStartKeeps(s: string)
    requires s == [] || !IsSpace(s[0])
    ensures TrimStart(s) == s
  {
  }

  /** `s.trimEnd()`. */
  function TrimEnd(s: string): (t: string)
    ensures |t| <= |s| && t == s[..|t|]
    ensures t == [] || !IsSpace(t[|t| - 1])
    ensures forall i :: |t| <= i < |s| ==> IsSpace(s[i])
  {
    if s != [] && IsSpace(s[|s| - 1]) then TrimEnd(s[..|s| - 1]) else s
  }

  /** `s.trim()`. */
  function Trim(s: string): string {
    TrimEnd(TrimStart(s))
  }

  predicate IsBlank(s: string) {
    forall i :: 0 <= i < |s| ==> IsSpace(s[i])
  }

  /** Trimming gives the empty string exactly for blank text: `!s.trim()` is the blank test. */
  lemma TrimEmptyIffBlank(s: string)
    ensures Trim(s) == [] <==> IsBlank(s)
  {
    var t := TrimStart(s);
    if Trim(s) != [] {
      var e := Trim(s);
      assert !IsSpace(e[|e| - 1]);
      assert e[|e| - 1] == s[|s| - |t| + |e| - 1];
    }
  }

  /** A trimmed string has no white space at either end. */
  lemma TrimEnds(s: string)
    ensures Trim(s) == [] || (!IsSpace(Trim(s)[0]) && !IsSpace(Trim(s)[|Trim(s)| - 1]))
  {
    var t := TrimStart(s);
    if Trim(s) != [] {
      assert Trim(s)[0] == t[0];
    }
  }

  /** `s.replace(a, b)` for one-character strings: only the first `a` is replaced. */
  function ReplaceFirst(s: string, a: char, b: char): (t: string)
    ensures |t| == |s|
    ensures a !in s ==> t == s
  {
    if s == [] then []
    else if s[0] == a then [b] + s[1..]
    else [s[0]] + ReplaceFirst(s[1..], a, b)
  }

  /**
   * Replacing the first `a` by `b` and then the first `b` by `a` gives the
   * text back, provided `b` did not occur in it: the price-text round trip
   * between a dotted number and its comma display.
   */
  lemma {:induction false} ReplaceFirstRoundTrip(s: string, a: char, b: char)
    requires b !in s
    ensures ReplaceFirst(ReplaceFirst(s, a, b), b, a) == s
  {
    if s != [] && s[0] != a {
      assert b !in s[1..];
      ReplaceFirstRoundTrip(s[1..], a, b);
      assert s[0] != b;
    }
  }

  /** `s.replace(a, '')` for a one-character `a`: the first `a`, if any, is removed. */
  function RemoveFirst(s: string, a: char): (t: string)
    ensures a !in s ==> t == s
    ensures a in s ==> |t| == |s| - 1
  {
    if s == [] then []
    else if s[0] == a then s[1..]
    else [s[0]] + RemoveFirst(s[1..], a)
  }

  /** `s.substring(start, end)` for `start <= end`: both ends are clamped to the length. */
  function Substring(s: string, start: nat, end: nat): (t: string)
    requires start <= end
    ensures |t| == (if end <= |s| then end else |s|) - (if start <= |s| then start else |s|)
  {
    var j := if end <= |s| then end else |s|;
    var i := if start <= |s| then start else |s|;
    s[i..j]
  }
}
