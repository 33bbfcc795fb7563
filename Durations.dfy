/** The timeout a route action reports, and its diagnostic rendering
    (`durationToLogString` in route-action.ts). */
module Durations {
  import Decimal

  /** `Duration | undefined`: None is an absent timeout. */
  datatype Option<T> = None | Some(value: T)

  /** A protobuf Duration: whole seconds plus a sub-second nanosecond remainder. */
  datatype Duration = Duration(seconds: int, nanos: nat)

  const NanosPerMilli: nat := 1_000_000

  /** Renders `seconds`, or `seconds.millis` when the truncated millisecond
      count is positive; the millisecond count is not zero-padded. */
  function DurationToLogString(d: Duration): (s: string)
    ensures '.' in s <==> d.nanos >= NanosPerMilli
  {
    var millis := d.nanos / NanosPerMilli;
    if millis > 0 then
      Decimal.IntToDecimal(d.seconds) + "." + Decimal.NatToDecimal(millis)
    else
      Decimal.IntToDecimal(d.seconds)
  }

  /** Position of the first '.' in `s`, or |s| when there is none. */
  function IndexOfDot(s: string): (k: nat)
    ensures k <= |s|
    ensures k < |s| ==> s[k] == '.'
    ensures forall j :: 0 <= j < k ==> s[j] != '.'
  {
    if |s| == 0 || s[0] == '.' then 0 else 1 + IndexOfDot(s[1..])
  }

  /** Reads a log string back as (seconds, milliseconds); None when malformed. */
  function ParseLogString(s: string): Option<(int, nat)> {
    var k := IndexOfDot(s);
    if !Decimal.IsIntLiteral(s[..k]) then None
    else if k == |s| then Some((Decimal.IntValue(s[..k]), 0))
    else if Decimal.AllDigits(s[k + 1..]) then
      Some((Decimal.IntValue(s[..k]), Decimal.DecimalValue(s[k + 1..])))
    else None
  }

  /** The rendering keeps the seconds exactly and the sub-second part at
      millisecond granularity, truncated. */
  lemma LogStringRoundTrip(d: Duration)
    ensures ParseLogString(DurationToLogString(d)) == Some((d.seconds, d.nanos / NanosPerMilli))
  {
    var millis := d.nanos / NanosPerMilli;
    var whole := Decimal.IntToDecimal(d.seconds);
    var s := DurationToLogString(d);
    Decimal.IntToDecimalRoundTrip(d.seconds);
    var k := IndexOfDot(s);
    if millis > 0 {
      var frac := Decimal.NatToDecimal(millis);
      assert s == whole + "." + frac;
      assert s[|whole|] == '.';
      assert k == |whole|;
      assert s[..k] == whole;
      assert s[k + 1..] == frac;
      Decimal.NatToDecimalRoundTrip(millis);
    } else {
      assert k == |s|;
      assert s[..k] == whole;
    }
  }

  /** The millisecond part is never zero-padded: the character after the dot
      is never '0', for every duration that has a fractional part. */
  lemma MillisNeverZeroPadded(d: Duration)
    requires d.nanos >= NanosPerMilli
    ensures var s := DurationToLogString(d);
      IndexOfDot(s) + 1 < |s| && s[IndexOfDot(s) + 1] != '0'
  {
    var millis := d.nanos / NanosPerMilli;
    var whole := Decimal.IntToDecimal(d.seconds);
    var frac := Decimal.NatToDecimal(millis);
    var s := DurationToLogString(d);
    assert s == whole + "." + frac;
    assert s[|whole|] == '.';
    assert IndexOfDot(s) == |whole|;
    assert s[|whole| + 1] == frac[0];
  }

  /** Five milliseconds print as ".5", not ".005". */
  lemma MillisNotPadded()
    ensures DurationToLogString(Duration(2, 5_000_000)) == "2.5"
    ensures DurationToLogString(Duration(2, 500_000_000)) == "2.500"
    ensures DurationToLogString(Duration(7, 999_999)) == "7"
  {
    assert Decimal.NatToDecimal(5) == "5";
    assert Decimal.NatToDecimal(50) == "50";
    assert Decimal.NatToDecimal(500) == "500";
  }
}
