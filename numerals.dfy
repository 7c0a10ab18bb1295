/**
 * Decimal numerals: JavaScript's `Number.prototype.toString` on integers,
 * and an independent left-to-right reading of a string of digits that the
 * numerals are checked against.
 */
module Numerals {

  predicate IsDigit(c: char)
  {
    '0' <= c <= '9'
  }

  ghost predicate AllDigits(s: string)
  {
    forall i :: 0 <= i < |s| ==> IsDigit(s[i])
  }

  function DigitChar(d: nat): (c: char)
    requires d < 10
    ensures IsDigit(c) && c as int - '0' as int == d
  {
    ('0' as int + d) as char
  }

  /** The value of a decimal digit (and 0 for any other character). */
  function DigitValue(c: char): (d: nat)
    ensures d < 10
    ensures IsDigit(c) ==> d == c as int - '0' as int
  {
    if IsDigit(c) then c as int - '0' as int else 0
  }

  /** The decimal value of a string of digits, leading zeros allowed. */
  function DecimalValue(s: string): nat
  {
    if s == [] then 0
    else DecimalValue(s[..|s| - 1]) * 10 + DigitValue(s[|s| - 1])
  }

  /**
   * `n.toString()` for a non-negative integer: its shortest decimal numeral,
   * so a numeral of more than one digit never starts with '0'.
   */
  function NatToString(n: nat): (s: string)
    ensures |s| >= 1
    ensures forall i :: 0 <= i < |s| ==> IsDigit(s[i])
    ensures n < 10 <==> |s| == 1
    ensures n >= 10 ==> s[0] != '0'
    decreases n
  {
    if n < 10 then [DigitChar(n)] else NatToString(n / 10) + [DigitChar(n % 10)]
  }

  /** The numeral of n reads back as n. */
  lemma {:induction false} NatToStringRoundTrip(n: nat)
    ensures DecimalValue(NatToString(n)) == n
    decreases n
  {
    var s := NatToString(n);
    if n >= 10 {
      NatToStringRoundTrip(n / 10);
      assert s[..|s| - 1] == NatToString(n / 10);
    }
  }

  /**
   * `i.toString()` for any integer: the digits of a non-negative number read
   * back as the number; a negative number is a minus sign followed by digits
   * that read back as its magnitude. In both the digits carry no leading zero.
   */
  function IntToString(i: int): (s: string)
    ensures i >= 0 ==> AllDigits(s) && DecimalValue(s) == i
    ensures i < 0 ==> |s| >= 2 && s[0] == '-' && AllDigits(s[1..]) && DecimalValue(s[1..]) == -i
    ensures i >= 0 ==> |s| >= 1 && (|s| == 1 || s[0] != '0')
    ensures i < 0 ==> |s| == 2 || s[1] != '0'
  {
    if i < 0 then
      NatToStringRoundTrip(-i);
      assert ("-" + NatToString(-i))[1..] == NatToString(-i);
      "-" + NatToString(-i)
    else
      NatToStringRoundTrip(i);
      NatToString(i)
  }

  /** A leading zero does not change a decimal value. */
  lemma {:induction false} LeadingZero(s: string)
    ensures DecimalValue(['0'] + s) == DecimalValue(s)
  {
    if s != [] {
      assert (['0'] + s)[..|s|] == ['0'] + s[..|s| - 1];
      LeadingZero(s[..|s| - 1]);
    }
  }

  /** Numbers below 100 have at most two digits. */
  lemma ShortNumeral(n: nat)
    requires n < 100
    ensures |NatToString(n)| <= 2
  {
    if n >= 10 {
      assert |NatToString(n / 10)| == 1;
    }
  }
}
