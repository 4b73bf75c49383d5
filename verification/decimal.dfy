/**
 * Decimal rendering of integers, with a parser that serves as its inverse.
 * It agrees with JavaScript's `Number.prototype.toString` and template
 * literals only for integers of magnitude below 10^21, where JavaScript
 * switches to exponent notation ("1e+21"), and a JavaScript number holds
 * such an integer exactly only below 2^53.
 */
module Decimal {
  import opened Optional
  import opened Text

  function DigitChar(d: nat): (c: char)
    requires d < 10
    ensures IsDigit(c)
  {
    ('0' as int + d) as char
  }

  function DigitValue(c: char): (d: nat)
    requires IsDigit(c)
    ensures d < 10 && DigitChar(d) == c
  {
    c as int - '0' as int
  }

  /** Decimal digits of `n`, most significant first, without leading zeros. */
  function NatToString(n: nat): (r: string)
    ensures |r| > 0 && All(r, IsDigit)
    ensures r[0] == '0' ==> n == 0 && r == "0"
    decreases n
  {
    if n < 10 then [DigitChar(n)] else NatToString(n / 10) + [DigitChar(n % 10)]
  }

  /**
   * The numerals `toString` writes for integers: a digit run without a
   * leading zero (other than "0" itself), or a minus sign before a digit run
   * that does not start with zero.
   */
  predicate Canonical(s: string) {
    || (|s| > 0 && All(s, IsDigit) && (s[0] == '0' ==> |s| == 1))
    || (|s| > 1 && s[0] == '-' && All(s[1..], IsDigit) && s[1] != '0')
  }

  /** `i.toString()` for an integer: a minus sign before the digits of a negative number. */
  function IntToString(i: int): (r: string)
    ensures |r| > 0
    ensures r[0] == '-' <==> i < 0
    ensures Canonical(r)
  {
    if i < 0 then "-" + NatToString(-i) else NatToString(i)
  }

  /** Value of a nonempty run of decimal digits. */
  function ParseDigits(s: string): nat
    requires |s| > 0 && All(s, IsDigit)
  {
    if |s| == 1 then DigitValue(s[0])
    else ParseDigits(s[..|s| - 1]) * 10 + DigitValue(s[|s| - 1])
  }

  /** Reads back what `IntToString` writes; `None` for anything else that is not a digit run. */
  function ParseInt(s: string): Option<int> {
    if |s| > 0 && s[0] == '-' then
      if |s| > 1 && All(s[1..], IsDigit) then Some(0 - ParseDigits(s[1..]) as int) else None
    else if |s| > 0 && All(s, IsDigit) then Some(ParseDigits(s))
    else None
  }

  lemma {:induction false} NatToStringRoundTrip(n: nat)
    ensures ParseDigits(NatToString(n)) == n
    decreases n
  {
    if n >= 10 {
      var r := NatToString(n);
      NatToStringRoundTrip(n / 10);
      assert r[..|r| - 1] == NatToString(n / 10);
    }
  }

  /** Rendering an integer and parsing it back gives the integer. */
  lemma IntToStringRoundTrip(i: int)
    ensures ParseInt(IntToString(i)) == Some(i)
  {
    if i < 0 {
      var r := IntToString(i);
      assert r[1..] == NatToString(-i);
      NatToStringRoundTrip(-i);
    } else {
      NatToStringRoundTrip(i);
    }
  }

  /** Distinct integers render as distinct strings. */
  lemma IntToStringInjective(a: int, b: int)
    ensures IntToString(a) == IntToString(b) ==> a == b
  {
    IntToStringRoundTrip(a);
    IntToStringRoundTrip(b);
  }

  /** A digit run without a leading zero is the rendering of its own value. */
  lemma {:induction false} CanonicalDigitsAreNatToString(s: string)
    requires |s| > 0 && All(s, IsDigit) && (s[0] == '0' ==> |s| == 1)
    ensures s == NatToString(ParseDigits(s))
    decreases |s|
  {
    if |s| > 1 {
      var init := s[..|s| - 1];
      var d := DigitValue(s[|s| - 1]);
      assert init[0] == s[0];
      CanonicalDigitsAreNatToString(init);
      var m := ParseDigits(init);
      assert m != 0 by { assert init[0] != '0' && NatToString(0) == "0"; }
      var n := m * 10 + d;
      assert n / 10 == m && n % 10 == d;
      assert s == init + [s[|s| - 1]];
    }
  }

  /**
   * Every canonical numeral is what `IntToString` writes for its value, so
   * two canonical numerals with the same value are the same string.
   */
  lemma CanonicalIsIntToString(s: string)
    requires Canonical(s)
    ensures ParseInt(s).Some? && s == IntToString(ParseInt(s).value)
  {
    if |s| > 0 && s[0] == '-' {
      var t := s[1..];
      CanonicalDigitsAreNatToString(t);
      assert ParseDigits(t) != 0 by { assert t[0] != '0' && NatToString(0) == "0"; }
      assert s == "-" + t;
    } else {
      CanonicalDigitsAreNatToString(s);
    }
  }
}
