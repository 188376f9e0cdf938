/**
 * Decimal text for numbers: `QString::number` for non-negative integers,
 * `QString::toInt` (base 10) for parsing, and the digit-string helpers the
 * time label uses.
 */
module Decimal {
  import opened Common

  predicate IsDigit(c: char)
  {
    '0' <= c <= '9'
  }

  predicate AllDigits(s: string)
  {
    forall i :: 0 <= i < |s| ==> IsDigit(s[i])
  }

  function DigitChar(d: nat): (c: char)
    requires d < 10
    ensures IsDigit(c)
  {
    "0123456789"[d]
  }

  function DigitValue(c: char): (d: nat)
    requires IsDigit(c)
    ensures d < 10
  {
    c as int - '0' as int
  }

  lemma DigitRoundTrip(d: nat)
    requires d < 10
    ensures DigitValue(DigitChar(d)) == d
  {
  }

  /** The value of a string of decimal digits, most significant first. */
  function DigitsValue(s: string): nat
    requires AllDigits(s)
  {
    if s == [] then 0 else DigitsValue(s[..|s| - 1]) * 10 + DigitValue(s[|s| - 1])
  }

  /** `QString::number(n)`: decimal digits of `n` without leading zeros. */
  function NumberText(n: nat): (s: string)
    ensures |s| >= 1 && AllDigits(s)
    ensures |s| > 1 ==> s[0] != '0'
  {
    if n < 10 then [DigitChar(n)] else NumberText(n / 10) + [DigitChar(n % 10)]
  }

  /** Reading the digits of `NumberText(n)` gives back `n`. */
  lemma {:induction false} NumberRoundTrip(n: nat)
    ensures DigitsValue(NumberText(n)) == n
  {
    var s := NumberText(n);
    if n < 10 {
      DigitRoundTrip(n);
    } else {
      NumberRoundTrip(n / 10);
      assert s[..|s| - 1] == NumberText(n / 10);
      DigitRoundTrip(n % 10);
    }
  }

  lemma DigitCharOfValue(c: char)
    requires IsDigit(c)
    ensures DigitChar(DigitValue(c)) == c
  {
  }

  /** A digit string that does not start with '0' denotes at least 1. */
  lemma {:induction false} LeadingDigitPositive(t: string)
    requires |t| >= 1 && AllDigits(t) && t[0] != '0'
    ensures DigitsValue(t) >= 1
    decreases |t|
  {
    if |t| > 1 {
      LeadingDigitPositive(t[..|t| - 1]);
    }
  }

  /**
   * The decimal text without leading zeros is unique: any such digit string
   * is the `NumberText` of the value it denotes.
   */
  lemma {:induction false} CanonicalDigitsAreNumberText(t: string)
    requires |t| >= 1 && AllDigits(t) && (|t| > 1 ==> t[0] != '0')
    ensures t == NumberText(DigitsValue(t))
    decreases |t|
  {
    var last := t[|t| - 1];
    DigitCharOfValue(last);
    if |t| == 1 {
      assert DigitsValue(t) == DigitValue(last) by {
        assert t[..0] == [];
      }
    } else {
      var p := t[..|t| - 1];
      LeadingDigitPositive(p);
      CanonicalDigitsAreNumberText(p);
      var n := DigitsValue(t);
      assert n == DigitsValue(p) * 10 + DigitValue(last);
      assert n / 10 == DigitsValue(p) && n % 10 == DigitValue(last);
      assert t == p + [last];
    }
  }

  function Pow10(k: nat): (p: nat)
    ensures p >= 1
  {
    if k == 0 then 1 else 10 * Pow10(k - 1)
  }

  /** A number below 10^k has at most k digits. */
  lemma {:induction false} NumberLength(n: nat, k: nat)
    requires k >= 1 && n < Pow10(k)
    ensures |NumberText(n)| <= k
  {
    if n >= 10 {
      NumberLength(n / 10, k - 1);
    }
  }

  /** The whitespace `QString::toInt` ignores around a number (ASCII part). */
  predicate IsSpace(c: char)
  {
    c == ' ' || c == '\t' || c == '\n' || c == '\r' || c as int == 0x0B || c as int == 0x0C
  }

  function TrimStart(s: string): (t: string)
    ensures |t| <= |s| && t == s[|s| - |t|..]
    ensures |t| > 0 ==> !IsSpace(t[0])
    ensures forall i :: 0 <= i < |s| - |t| ==> IsSpace(s[i])
  {
    if |s| > 0 && IsSpace(s[0]) then TrimStart(s[1..]) else s
  }

  function TrimEnd(s: string): (t: string)
    ensures |t| <= |s| && t == s[..|t|]
    ensures |t| > 0 ==> !IsSpace(t[|t| - 1])
    ensures forall i :: |t| <= i < |s| ==> IsSpace(s[i])
  {
    if |s| > 0 && IsSpace(s[|s| - 1]) then TrimEnd(s[..|s| - 1]) else s
  }

  /** An optionally signed run of at least one decimal digit. */
  function ParseSigned(t: string): Option<int>
  {
    if |t| > 0 && (t[0] == '+' || t[0] == '-') then
      var digits := t[1..];
      if |digits| > 0 && AllDigits(digits) then
        Some(if t[0] == '-' then 0 - DigitsValue(digits) as int else DigitsValue(digits) as int)
      else None
    else if |t| > 0 && AllDigits(t) then Some(DigitsValue(t))
    else None
  }

  /**
   * `QString::toInt()`: the base-10 value of the text between optional
   * surrounding whitespace, or 0 when the text is not a number or the number
   * does not fit in `int`.
   */
  function ToInt(s: string): (r: int32)
    ensures ParseSigned(TrimEnd(TrimStart(s))).None? ==> r == 0
    ensures ParseSigned(TrimEnd(TrimStart(s))).Some? ==>
              var v := ParseSigned(TrimEnd(TrimStart(s))).value;
              (-0x8000_0000 <= v <= INT32_MAX ==> r == v) && (v < -0x8000_0000 || INT32_MAX < v ==> r == 0)
    ensures r != 0 ==> ParseSigned(TrimEnd(TrimStart(s))) == Some(r)
  {
    match ParseSigned(TrimEnd(TrimStart(s)))
    case None => 0
    case Some(v) => if -0x8000_0000 <= v <= INT32_MAX then v else 0
  }

  /** The text of a number has no surrounding whitespace and parses as its digits. */
  lemma ParseNumberText(n: nat)
    ensures ParseSigned(TrimEnd(TrimStart(NumberText(n)))) == Some(n)
  {
    var s := NumberText(n);
    assert IsDigit(s[0]) && IsDigit(s[|s| - 1]);
    assert TrimStart(s) == s by {
      assert !IsSpace(s[0]);
    }
    assert TrimEnd(s) == s by {
      assert !IsSpace(s[|s| - 1]);
    }
    assert s[0] != '+' && s[0] != '-';
    NumberRoundTrip(n);
  }

  /** `toInt` reads back what `number` wrote, for every value that fits in `int`. */
  lemma ToIntOfNumber(n: nat)
    requires n <= INT32_MAX
    ensures ToInt(NumberText(n)) == n
  {
    ParseNumberText(n);
  }

  /** A number too large for `int` reads back as 0. */
  lemma ToIntOfLargeNumber(n: nat)
    requires n > INT32_MAX
    ensures ToInt(NumberText(n)) == 0
  {
    ParseNumberText(n);
  }
}
