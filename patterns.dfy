/**
 * The two regular expressions of the extractor, each written out as a
 * dedicated leftmost-first matcher that follows the backtracking order of
 * Python's `re.search`:
 *   - `\$?\d+\.\d+`            (the price, parser.py:167)
 *   - `\b\d{1,2}\s?GB?\b`, ignoring case  (the memory size, parser.py:175)
 * Character classes are the ASCII ones of module Text.
 */
module Patterns {
  import opened Wrappers
  import opened Text

  // ---------------------------------------------------------------------
  // \$?\d+\.\d+
  // ---------------------------------------------------------------------

  /** The text of a match of `\d+\.\d+`: digits, one dot, digits. */
  predicate Decimal(q: string)
  {
    exists k | 0 < k < |q| - 1 :: q[k] == '.' && AllDigits(q[..k]) && AllDigits(q[k + 1..])
  }

  /** The text of a match of `\$?\d+\.\d+`. */
  predicate PriceShaped(p: string)
  {
    Decimal(p) || (|p| > 0 && p[0] == '$' && Decimal(p[1..]))
  }

  /** Position `k` of `s` holds a dot with a digit on each side. */
  predicate DotBetweenDigits(s: string, k: int)
  {
    0 < k < |s| - 1 && IsDigit(s[k - 1]) && s[k] == '.' && IsDigit(s[k + 1])
  }

  /** Some part of `s` matches `\d\.\d`, the least text `\$?\d+\.\d+` can match. */
  predicate HasDecimal(s: string)
  {
    exists k | 0 < k < |s| - 1 :: DotBetweenDigits(s, k)
  }

  /** Length of the longest run of digits that starts at position `i` (what a greedy `\d+` takes). */
  function DigitRun(s: string, i: nat): (n: nat)
    requires i <= |s|
    ensures i + n <= |s|
    ensures forall k :: i <= k < i + n ==> IsDigit(s[k])
    ensures i + n == |s| || !IsDigit(s[i + n])
    decreases |s| - i
  {
    if i < |s| && IsDigit(s[i]) then 1 + DigitRun(s, i + 1) else 0
  }

  /**
   * The end of the match of `\d+\.\d+` that starts at `j`, if any. After a
   * greedy run of digits the next character is not a digit, so giving back
   * digits can never bring the dot into place: only the longest run can work.
   */
  function DecimalAt(s: string, j: nat): (e: Option<nat>)
    requires j <= |s|
    ensures e.Some? ==> j < e.value <= |s| && Decimal(s[j..e.value])
    ensures e.Some? ==> HasDecimal(s)
    ensures j + 1 < |s| - 1 && DotBetweenDigits(s, j + 1) ==> e.Some?
  {
    var a := DigitRun(s, j);
    if a > 0 && j + a < |s| && s[j + a] == '.' then
      var b := DigitRun(s, j + a + 1);
      if b > 0 then
        var q := s[j..j + a + 1 + b];
        assert q[..a] == s[j..j + a] && q[a + 1..] == s[j + a + 1..j + a + 1 + b];
        assert q[a] == '.';
        assert DotBetweenDigits(s, j + a);
        Some(j + a + 1 + b)
      else None
    else None
  }

  /**
   * The end of the match of `\$?\d+\.\d+` that starts at `i`, if any. `\$?`
   * first takes a `$`; if the rest then fails it gives the `$` back, but a
   * `$` is not a digit, so that second try fails as well.
   */
  function PriceMatchAt(s: string, i: nat): (e: Option<nat>)
    requires i < |s|
    ensures e.Some? ==> i < e.value <= |s| && PriceShaped(s[i..e.value])
    ensures e.Some? ==> HasDecimal(s)
    ensures i + 1 < |s| - 1 && DotBetweenDigits(s, i + 1) ==> e.Some?
  {
    if s[i] == '$' then
      var e := DecimalAt(s, i + 1);
      if e.Some? then
        assert s[i..e.value][1..] == s[i + 1..e.value];
        e
      else e
    else DecimalAt(s, i)
  }

  /** Leftmost match of `\$?\d+\.\d+` in `s` at or after position `i`. */
  function SearchPrice(s: string, i: nat): (r: Option<string>)
    requires i <= |s|
    ensures r.Some? ==> PriceShaped(r.value) && Contains(s, r.value)
    ensures r.Some? ==> HasDecimal(s)
    ensures r.None? ==> forall k :: i < k < |s| - 1 ==> !DotBetweenDigits(s, k)
    decreases |s| - i
  {
    if i == |s| then None
    else
      match PriceMatchAt(s, i)
      case Some(e) =>
        assert OccursAt(s, s[i..e], i);
        Some(s[i..e])
      case None => SearchPrice(s, i + 1)
  }

  /** `re.search(r"\$?\d+\.\d+", s)[0]`, or `None` when there is no match. */
  function FindPrice(s: string): (r: Option<string>)
    ensures r.Some? <==> HasDecimal(s)
    ensures r.Some? ==> PriceShaped(r.value) && Contains(s, r.value)
  {
    SearchPrice(s, 0)
  }

  /** `s[i..e]` is text the price pattern matches. */
  predicate PriceMatch(s: string, i: int, e: int)
  {
    0 <= i < e <= |s| && PriceShaped(s[i..e])
  }

  /** The parts of a match of `\d+\.\d+` at `j`: digits up to the dot at `j + k`, digits after it. */
  lemma DecimalParts(s: string, j: nat, e: nat) returns (k: nat)
    requires j < e <= |s| && Decimal(s[j..e])
    ensures 0 < k < e - j - 1 && s[j + k] == '.'
    ensures forall t :: j <= t < j + k ==> IsDigit(s[t])
    ensures forall t :: j + k + 1 <= t < e ==> IsDigit(s[t])
  {
    var q := s[j..e];
    k :| 0 < k < |q| - 1 && q[k] == '.' && AllDigits(q[..k]) && AllDigits(q[k + 1..]);
    forall t | j <= t < j + k ensures IsDigit(s[t]) {
      assert s[t] == q[..k][t - j];
    }
    forall t | j + k + 1 <= t < e ensures IsDigit(s[t]) {
      assert s[t] == q[k + 1..][t - j - k - 1];
    }
  }

  /** Any match of `\d+\.\d+` at `j` is found there, and ends no later than the greedy one. */
  lemma {:induction false} DecimalAtExact(s: string, j: nat, e: nat)
    requires j < e <= |s| && Decimal(s[j..e])
    ensures DecimalAt(s, j).Some? && e <= DecimalAt(s, j).value
  {
    var k := DecimalParts(s, j, e);
    var a := DigitRun(s, j);
    assert a == k;
    var b := DigitRun(s, j + a + 1);
    assert b > 0;
  }

  /** Any price match at `i` is found there, and ends no later than the one found. */
  lemma {:induction false} PriceMatchAtExact(s: string, i: nat, e: nat)
    requires PriceMatch(s, i, e)
    ensures PriceMatchAt(s, i).Some? && e <= PriceMatchAt(s, i).value
  {
    var p := s[i..e];
    if s[i] == '$' {
      if Decimal(p) {
        var k := DecimalParts(s, i, e);
      }
      assert p[1..] == s[i + 1..e];
      DecimalAtExact(s, i + 1, e);
    } else {
      DecimalAtExact(s, i, e);
    }
  }

  /**
   * `s[j..e]` is the match `re.search` reports from `i` on: it starts
   * leftmost and, among the matches there, is the longest (both quantifiers
   * of the pattern are greedy).
   */
  ghost predicate LeftmostPrice(s: string, i: int, j: int, e: int)
  {
    i <= j && PriceMatch(s, j, e)
    && (forall e' :: PriceMatch(s, j, e') ==> e' <= e)
    && (forall j', e' :: i <= j' < j ==> !PriceMatch(s, j', e'))
  }

  /**
   * The price `re.search` finds from `i` on: none exactly when no text from
   * `i` on matches; otherwise the leftmost, longest match.
   */
  lemma {:induction false} SearchPriceLeftmost(s: string, i: nat)
    requires i <= |s|
    ensures SearchPrice(s, i).None? <==> forall j, e :: i <= j ==> !PriceMatch(s, j, e)
    ensures SearchPrice(s, i).Some? ==> exists j, e :: LeftmostPrice(s, i, j, e) && SearchPrice(s, i).value == s[j..e]
    decreases |s| - i
  {
    if i < |s| {
      var m := PriceMatchAt(s, i);
      if m.Some? {
        LeftmostPriceHere(s, i, m.value);
        assert SearchPrice(s, i) == Some(s[i..m.value]);
      } else {
        forall e | PriceMatch(s, i, e) ensures false {
          PriceMatchAtExact(s, i, e);
        }
        SearchPriceLeftmost(s, i + 1);
        var r := SearchPrice(s, i + 1);
        assert SearchPrice(s, i) == r;
        if r.Some? {
          var j, e :| LeftmostPrice(s, i + 1, j, e) && r.value == s[j..e];
          LeftmostPriceLater(s, i, j, e);
        }
      }
    }
  }

  lemma {:induction false} LeftmostPriceHere(s: string, i: nat, e: nat)
    requires i < |s| && PriceMatchAt(s, i) == Some(e)
    ensures LeftmostPrice(s, i, i, e)
  {
    forall e' | PriceMatch(s, i, e') ensures e' <= e {
      PriceMatchAtExact(s, i, e');
    }
  }

  lemma {:induction false} LeftmostPriceLater(s: string, i: nat, j: int, e: int)
    requires LeftmostPrice(s, i + 1, j, e)
    requires forall e' :: !PriceMatch(s, i, e')
    ensures LeftmostPrice(s, i, j, e)
  {
  }

  // ---------------------------------------------------------------------
  // \b\d{1,2}\s?GB?\b, ignoring case
  // ---------------------------------------------------------------------

  predicate IsG(c: char) { c == 'G' || c == 'g' }

  predicate IsB(c: char) { c == 'B' || c == 'b' }

  /** The unit part `\s?GB?` of a match. */
  predicate UnitShaped(u: string)
  {
    var v := if |u| > 0 && IsSpace(u[0]) then u[1..] else u;
    (|v| == 1 || |v| == 2) && IsG(v[0]) && (|v| == 2 ==> IsB(v[1]))
  }

  /** The text of a match of `\d{1,2}\s?GB?`: one or two digits, then the unit. */
  predicate GddrShaped(g: string)
  {
    (|g| > 1 && IsDigit(g[0]) && UnitShaped(g[1..]))
    || (|g| > 2 && IsDigit(g[0]) && IsDigit(g[1]) && UnitShaped(g[2..]))
  }

  /** `\b` just before position `e`, where `s[e - 1]` is a word character. */
  predicate WordEndsAt(s: string, e: nat)
    requires e <= |s|
  {
    e == |s| || !IsWordChar(s[e])
  }

  /** End of the match of `GB?\b` starting at `q`: `B?` is greedy and gives the `B` back if `\b` fails. */
  function UnitFrom(s: string, q: nat): (e: Option<nat>)
    requires q <= |s|
    ensures e.Some? ==> q < e.value <= |s| && IsG(s[q]) && (e.value == q + 1 || (e.value == q + 2 && IsB(s[q + 1])))
    ensures e.Some? ==> WordEndsAt(s, e.value)
  {
    if q < |s| && IsG(s[q]) then
      if q + 1 < |s| && IsB(s[q + 1]) && WordEndsAt(s, q + 2) then Some(q + 2)
      else if WordEndsAt(s, q + 1) then Some(q + 1)
      else None
    else None
  }

  /** End of the match of `\s?GB?\b` starting at `p`: `\s?` is greedy and gives the space back on failure. */
  function SpaceUnitFrom(s: string, p: nat): (e: Option<nat>)
    requires p <= |s|
    ensures e.Some? ==> p < e.value <= |s| && UnitShaped(s[p..e.value]) && WordEndsAt(s, e.value)
  {
    if p < |s| && IsSpace(s[p]) then
      match UnitFrom(s, p + 1)
      case Some(e) =>
        assert s[p..e][1..] == s[p + 1..e];
        Some(e)
      case None => None
    else
      var e := UnitFrom(s, p);
      if e.Some? then
        assert s[p..e.value][0] == s[p];
        e
      else e
  }

  /** `s[i..e]` is a match of `\b\d{1,2}\s?GB?\b`: word boundaries on both sides of a memory-size text. */
  predicate GddrMatch(s: string, i: int, e: int)
  {
    0 <= i < e <= |s| && (i == 0 || !IsWordChar(s[i - 1])) && GddrShaped(s[i..e]) && WordEndsAt(s, e)
  }

  /**
   * End of the match of `\b\d{1,2}\s?GB?\b` starting at `i`, if any: `\d{1,2}`
   * first takes two digits and then falls back to one.
   */
  function GddrMatchAt(s: string, i: nat): (e: Option<nat>)
    requires i <= |s|
    ensures e.Some? ==> GddrMatch(s, i, e.value)
  {
    if i < |s| && IsDigit(s[i]) && (i == 0 || !IsWordChar(s[i - 1])) then
      var two := if i + 1 < |s| && IsDigit(s[i + 1]) then SpaceUnitFrom(s, i + 2) else None;
      if two.Some? then
        assert s[i..two.value][2..] == s[i + 2..two.value];
        two
      else
        var one := SpaceUnitFrom(s, i + 1);
        if one.Some? then
          assert s[i..one.value][1..] == s[i + 1..one.value];
          one
        else one
    else None
  }

  /** Leftmost match of `\b\d{1,2}\s?GB?\b` in `s` at or after position `i`. */
  function SearchGddr(s: string, i: nat): (r: Option<string>)
    requires i <= |s|
    ensures r.Some? ==> GddrShaped(r.value) && Contains(s, r.value)
    decreases |s| - i
  {
    if i == |s| then None
    else
      match GddrMatchAt(s, i)
      case Some(e) =>
        assert OccursAt(s, s[i..e], i);
        Some(s[i..e])
      case None => SearchGddr(s, i + 1)
  }

  /** A unit `GB?` followed by a word boundary is found, with its end. */
  lemma {:induction false} UnitFromExact(s: string, q: nat, e: nat)
    requires q < e <= |s| && IsG(s[q]) && (e == q + 1 || (e == q + 2 && IsB(s[q + 1]))) && WordEndsAt(s, e)
    ensures UnitFrom(s, q) == Some(e)
  {
  }

  /** A unit `\s?GB?` followed by a word boundary is found, with its end. */
  lemma {:induction false} SpaceUnitFromExact(s: string, p: nat, e: nat)
    requires p < e <= |s| && UnitShaped(s[p..e]) && WordEndsAt(s, e)
    ensures SpaceUnitFrom(s, p) == Some(e)
  {
    var u := s[p..e];
    assert u[0] == s[p];
    if IsSpace(s[p]) {
      var v := u[1..];
      assert v == s[p + 1..e];
      assert v[0] == s[p + 1];
      if |v| == 2 {
        assert v[1] == s[p + 2];
      }
      UnitFromExact(s, p + 1, e);
    } else {
      if |u| == 2 {
        assert u[1] == s[p + 1];
      }
      UnitFromExact(s, p, e);
    }
  }

  /** A match at `i` is found there, with its end: one start admits only one match. */
  lemma {:induction false} GddrMatchAtExact(s: string, i: nat, e: nat)
    requires GddrMatch(s, i, e)
    ensures GddrMatchAt(s, i) == Some(e)
  {
    var g := s[i..e];
    assert g[0] == s[i];
    if i + 1 < |s| && IsDigit(s[i + 1]) {
      if |g| > 1 {
        assert g[1] == s[i + 1];
        assert g[1..][0] == g[1];
      }
      assert !UnitShaped(g[1..]);
      assert g[2..] == s[i + 2..e];
      SpaceUnitFromExact(s, i + 2, e);
    } else {
      if |g| > 2 {
        assert g[1] == s[i + 1];
      }
      assert g[1..] == s[i + 1..e];
      SpaceUnitFromExact(s, i + 1, e);
    }
  }

  /** `s[j..e]` is the leftmost match of the memory-size pattern at or after `i`. */
  ghost predicate LeftmostGddr(s: string, i: int, j: int, e: int)
  {
    i <= j && GddrMatch(s, j, e) && forall j', e' :: i <= j' < j ==> !GddrMatch(s, j', e')
  }

  /**
   * The memory size `re.search` finds from `i` on: none exactly when no text
   * from `i` on matches; otherwise the leftmost match.
   */
  lemma {:induction false} SearchGddrLeftmost(s: string, i: nat)
    requires i <= |s|
    ensures SearchGddr(s, i).None? <==> forall j, e :: i <= j ==> !GddrMatch(s, j, e)
    ensures SearchGddr(s, i).Some? ==> exists j, e :: LeftmostGddr(s, i, j, e) && SearchGddr(s, i).value == s[j..e]
    decreases |s| - i
  {
    if i < |s| {
      var m := GddrMatchAt(s, i);
      if m.Some? {
        assert LeftmostGddr(s, i, i, m.value);
        assert SearchGddr(s, i) == Some(s[i..m.value]);
      } else {
        forall e | GddrMatch(s, i, e) ensures false {
          GddrMatchAtExact(s, i, e);
        }
        SearchGddrLeftmost(s, i + 1);
        var r := SearchGddr(s, i + 1);
        assert SearchGddr(s, i) == r;
        if r.Some? {
          var j, e :| LeftmostGddr(s, i + 1, j, e) && r.value == s[j..e];
          LeftmostGddrLater(s, i, j, e);
        }
      }
    }
  }

  lemma {:induction false} LeftmostGddrLater(s: string, i: nat, j: int, e: int)
    requires LeftmostGddr(s, i + 1, j, e)
    requires forall e' :: !GddrMatch(s, i, e')
    ensures LeftmostGddr(s, i, j, e)
  {
  }
}
