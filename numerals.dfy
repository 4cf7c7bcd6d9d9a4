/**
 * Character classes and decimal numerals, the pieces of JavaScript's
 * `Number(s)` / `String(n)` round trip that the identifier checks rely on,
 * restricted to strings of decimal digits.
 */
module Numerals {

  predicate IsDigit(c: char) {
    '0' <= c <= '9'
  }

  predicate IsDigits(s: string) {
    forall i :: 0 <= i < |s| ==> IsDigit(s[i])
  }

  /** `[0-9a-f]` under the regular expression flag `i`. */
  predicate IsHexDigit(c: char) {
    IsDigit(c) || 'a' <= c <= 'f' || 'A' <= c <= 'F'
  }

  function DigitValue(c: char): (d: nat)
    requires IsDigit(c)
    ensures d <= 9
  {
    (c as int) - ('0' as int)
  }

  function Pow10(n: nat): (r: nat)
    ensures r >= 1
  {
    if n == 0 then 1 else 10 * Pow10(n - 1)
  }

  /** The value of a digit string read in base ten; `""` reads as 0, as `Number('')` does. */
  function DecimalValue(s: string): (v: nat)
    requires IsDigits(s)
    ensures v < Pow10(|s|)
  {
    if s == [] then 0
    else
      var d, p, rest := DigitValue(s[0]), Pow10(|s| - 1), DecimalValue(s[1..]);
      LeadingDigitBound(d, p, rest);
      d * p + rest
  }

  /** A leading digit `d` in front of a tail below `p` stays below `10 * p`. */
  lemma LeadingDigitBound(d: nat, p: nat, rest: nat)
    requires d <= 9 && rest < p
    ensures d * p + rest < 10 * p
  {
    assert (9 - d) * p >= 0;
  }

  /**
   * The significant digits of `s`: `s` without its leading zeros (empty for
   * zero). For a digit string of at most 20 significant digits, having at
   * least 16 of them is exactly having a `String(Number(s))` of at least 16
   * characters, although the printed digits themselves may differ (rounding
   * beyond 2^53, `0` for zero).
   */
  function StripLeadingZeros(s: string): (t: string)
    ensures |t| <= |s| && t == s[|s| - |t|..]
    ensures t == [] || t[0] != '0'
    ensures IsDigits(s) ==> IsDigits(t) && DecimalValue(t) == DecimalValue(s)
  {
    if s != [] && s[0] == '0' then StripLeadingZeros(s[1..]) else s
  }

  lemma {:induction false} Pow10Monotone(a: nat, b: nat)
    requires a <= b
    ensures Pow10(a) <= Pow10(b)
  {
    if a < b {
      Pow10Monotone(a, b - 1);
    }
  }

  /**
   * A digit string without a leading zero has exactly |t| significant digits:
   * its value lies in [10^(|t|-1), 10^|t|).
   */
  lemma SignificantDigits(t: string)
    requires IsDigits(t) && t != [] && t[0] != '0'
    ensures Pow10(|t| - 1) <= DecimalValue(t) < Pow10(|t|)
  {
    var d, p := DigitValue(t[0]), Pow10(|t| - 1);
    assert 1 <= d;
    assert p <= d * p;
  }

  /**
   * For a digit string without a leading zero, comparing its value with a
   * power of ten is comparing its length: this is why `String(c).length >= 16`
   * is the same test as `c >= 10^15`.
   */
  lemma {:induction false} ValueBoundsByLength(t: string, k: nat)
    requires IsDigits(t) && (t == [] || t[0] != '0')
    ensures Pow10(k) <= DecimalValue(t) <==> k < |t|
    ensures DecimalValue(t) < Pow10(k) <==> |t| <= k
  {
    if t == [] {
      assert DecimalValue(t) == 0;
    } else {
      SignificantDigits(t);
      if k < |t| {
        Pow10Monotone(k, |t| - 1);
      } else {
        Pow10Monotone(|t|, k);
      }
    }
  }
}
