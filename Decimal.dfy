/** Decimal rendering of integers, as JavaScript's number-to-string coercion
    produces it for integral values, together with the parser that inverts it. */
module Decimal {

  predicate IsDigit(c: char) {
    '0' <= c <= '9'
  }

  predicate AllDigits(s: string) {
    forall i :: 0 <= i < |s| ==> IsDigit(s[i])
  }

  function DigitValue(c: char): (d: nat)
    requires IsDigit(c)
    ensures d < 10
  {
    c as int - '0' as int
  }

  function DigitChar(d: nat): (c: char)
    requires d < 10
    ensures IsDigit(c) && DigitValue(c) == d
  {
    ('0' as int + d) as char
  }

  /** The digits of `n`, most significant first, without leading zeros. */
  function NatToDecimal(n: nat): (s: string)
    ensures |s| > 0 && AllDigits(s)
    ensures s[0] == '0' ==> n == 0
  {
    if n < 10 then [DigitChar(n)] else NatToDecimal(n / 10) + [DigitChar(n % 10)]
  }

  /** The value of a digit string, most significant digit first. */
  function DecimalValue(s: string): nat
    requires AllDigits(s)
  {
    if |s| == 0 then 0 else DecimalValue(s[..|s| - 1]) * 10 + DigitValue(s[|s| - 1])
  }

  lemma {:induction false} NatToDecimalRoundTrip(n: nat)
    ensures DecimalValue(NatToDecimal(n)) == n
  {
    if n >= 10 {
      NatToDecimalRoundTrip(n / 10);
      var s := NatToDecimal(n);
      assert s[..|s| - 1] == NatToDecimal(n / 10);
    }
  }

  /** An optional minus sign followed by digits. */
  predicate IsIntLiteral(s: string) {
    if |s| > 0 && s[0] == '-' then AllDigits(s[1..]) else AllDigits(s)
  }

  /** Decimal rendering of an integer: a minus sign for negative values. */
  function IntToDecimal(i: int): (s: string)
    ensures |s| > 0 && IsIntLiteral(s)
    ensures '.' !in s
  {
    if i < 0 then "-" + NatToDecimal(-i) else NatToDecimal(i)
  }

  function IntValue(s: string): int
    requires IsIntLiteral(s)
  {
    if |s| > 0 && s[0] == '-' then -(DecimalValue(s[1..]) as int) else DecimalValue(s)
  }

  lemma IntToDecimalRoundTrip(i: int)
    ensures IntValue(IntToDecimal(i)) == i
  {
    var s := IntToDecimal(i);
    if i < 0 {
      assert s[1..] == NatToDecimal(-i);
      NatToDecimalRoundTrip(-i);
    } else {
      assert IsDigit(s[0]);
      NatToDecimalRoundTrip(i);
    }
  }
}
