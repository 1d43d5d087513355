/** Option, as used for every lookup that may come back empty. */
module Wrappers {
  datatype Option<+T> = None | Some(value: T)
}

/**
 * The string facts the scraper relies on: Python's `t in s` substring test,
 * `str.startswith`, the character classes its regular expressions use
 * (restricted to ASCII) and `str.strip()`.
 */
module Text {

  predicate IsDigit(c: char) { '0' <= c <= '9' }

  predicate AllDigits(s: string) { forall i :: 0 <= i < |s| ==> IsDigit(s[i]) }

  /** `\w` of Python's `re`, restricted to ASCII. */
  predicate IsWordChar(c: char) { IsDigit(c) || 'a' <= c <= 'z' || 'A' <= c <= 'Z' || c == '_' }

  /** `\s` of Python's `re` and the characters `str.strip()` removes, restricted to ASCII. */
  predicate IsSpace(c: char) { '\t' <= c <= '\r' || '\U{1C}' <= c <= ' ' }

  predicate StartsWith(s: string, p: string) { |p| <= |s| && s[..|p|] == p }

  /** `t` occurs in `s` starting at position `i`. */
  predicate OccursAt(s: string, t: string, i: int) { 0 <= i && i + |t| <= |s| && s[i..i + |t|] == t }

  /** Python's `t in s` for strings. */
  predicate Contains(s: string, t: string) { exists i | 0 <= i <= |s| - |t| :: OccursAt(s, t, i) }

  lemma {:induction false} ContainsWitness(s: string, t: string, i: int)
    requires OccursAt(s, t, i)
    ensures Contains(s, t)
  {
  }

  lemma {:induction false} ContainsInfix(a: string, t: string, b: string)
    ensures Contains(a + t + b, t)
  {
    assert (a + t + b)[|a|..|a| + |t|] == t;
    ContainsWitness(a + t + b, t, |a|);
  }

  /** An occurrence in a part is an occurrence in the whole. */
  lemma {:induction false} ContainsExtend(a: string, s: string, b: string, t: string)
    requires Contains(s, t)
    ensures Contains(a + s + b, t)
  {
    var i :| 0 <= i <= |s| - |t| && OccursAt(s, t, i);
    assert (a + s + b)[|a| + i..|a| + i + |t|] == s[i..i + |t|];
    ContainsWitness(a + s + b, t, |a| + i);
  }

  /** A string that lacks one of the characters of `t` cannot contain `t`. */
  lemma {:induction false} AbsentCharExcludes(s: string, t: string, k: nat)
    requires k < |t| && t[k] !in s
    ensures !Contains(s, t)
  {
  }

  /**
   * An occurrence in `x + y` lies inside `x` or inside `y` when the first
   * character of `y` does not occur in `t`: no occurrence can straddle it.
   */
  lemma {:induction false} ContainsSplit(x: string, y: string, t: string)
    requires |y| > 0 && y[0] !in t
    ensures Contains(x + y, t) ==> Contains(x, t) || Contains(y, t)
  {
    if Contains(x + y, t) {
      var s := x + y;
      var i :| 0 <= i <= |s| - |t| && OccursAt(s, t, i);
      if i + |t| <= |x| {
        assert s[i..i + |t|] == x[i..i + |t|];
        ContainsWitness(x, t, i);
      } else if i >= |x| {
        assert s[i..i + |t|] == y[i - |x|..i - |x| + |t|];
        ContainsWitness(y, t, i - |x|);
      } else {
        OccurrenceChar(s, t, i, |x|);
      }
    }
  }

  /** Every character covered by an occurrence of `t` is a character of `t`. */
  lemma {:induction false} OccurrenceChar(s: string, t: string, i: int, j: int)
    requires OccursAt(s, t, i) && i <= j < i + |t|
    ensures s[j] in t
  {
    assert s[i..i + |t|][j - i] == s[j];
  }

  /** An occurrence inside an occurrence is an occurrence in the outer string. */
  lemma {:induction false} OccursWithin(s: string, t: string, i: int, u: string, j: int)
    requires OccursAt(s, t, i) && OccursAt(t, u, j)
    ensures OccursAt(s, u, i + j)
  {
    forall k | 0 <= k < |u| ensures s[i + j + k] == u[k] {
      assert u[k] == t[j..j + |u|][k] == t[j + k];
      assert t[j + k] == s[i..i + |t|][j + k];
    }
    assert s[i + j..i + j + |u|] == u;
  }

  lemma {:induction false} StartsWithConcat(p: string, b: string)
    ensures StartsWith(p + b, p)
  {
    assert (p + b)[..|p|] == p;
  }

  /** `r` occurs in `s` at `i` with nothing but whitespace before and after it. */
  predicate StrippedAt(s: string, r: string, i: int)
  {
    OccursAt(s, r, i)
    && (forall k :: 0 <= k < i ==> IsSpace(s[k]))
    && (forall k :: i + |r| <= k < |s| ==> IsSpace(s[k]))
  }

  /**
   * Python's `str.strip()` (whitespace restricted to ASCII): `s` is `r` with
   * only whitespace around it, and `r` neither starts nor ends with whitespace.
   */
  function Strip(s: string): (r: string)
    ensures |r| <= |s|
    ensures r == [] || (!IsSpace(r[0]) && !IsSpace(r[|r| - 1]))
    ensures exists i | 0 <= i <= |s| - |r| :: StrippedAt(s, r, i)
  {
    var l := StripLeft(s, 0);
    var e := StripRight(s, l, |s|);
    assert StrippedAt(s, s[l..e], l);
    s[l..e]
  }

  /** The index of the first non-space character of `s` at or after `i`, or `|s|`. */
  function StripLeft(s: string, i: nat): (l: nat)
    requires i <= |s|
    ensures i <= l <= |s|
    ensures l < |s| ==> !IsSpace(s[l])
    ensures forall k :: i <= k < l ==> IsSpace(s[k])
    decreases |s| - i
  {
    if i < |s| && IsSpace(s[i]) then StripLeft(s, i + 1) else i
  }

  /** The end of `s[l..e]` once its trailing spaces are dropped. */
  function StripRight(s: string, l: nat, e: nat): (r: nat)
    requires l <= e <= |s|
    requires l < e ==> !IsSpace(s[l])
    ensures l <= r <= e
    ensures l < r ==> !IsSpace(s[r - 1])
    ensures forall k :: r <= k < e ==> IsSpace(s[k])
    ensures r == l ==> l == e
    decreases e
  {
    if l < e && IsSpace(s[e - 1]) then StripRight(s, l, e - 1) else e
  }
}
