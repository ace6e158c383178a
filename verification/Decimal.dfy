/** Decimal numerals. */
module Decimal {
  import opened Common
  import opened Utf8Text

  /** The number of decimal digits of a number as it is printed. */
  function Digits(n: nat): (r: nat)
    ensures r >= 1
  {
    if n < 10 then 1 else 1 + Digits(n / 10)
  }

  /** The digits of a number, most significant first and without leading zeros. */
  function Numeral(n: nat): (t: Text)
    ensures |t| == Digits(n)
    ensures forall i :: 0 <= i < |t| ==> 0x30 <= t[i] <= 0x39
    ensures t[0] == 0x30 <==> n == 0
  {
    if n < 10 then [0x30 + n] else Numeral(n / 10) + [0x30 + n % 10]
  }

  /** The number that digits denote. */
  function NumeralValue(t: Text): Option<nat> {
    if t == [] then None
    else
      var n := |t| - 1;
      var before := if n == 0 then Some(0) else NumeralValue(t[..n]);
      if 0x30 <= t[n] <= 0x39 && before.Some? then Some(10 * before.value + (t[n] - 0x30)) else None
  }

  lemma {:induction false} NumeralRoundTrip(n: nat)
    ensures NumeralValue(Numeral(n)) == Some(n)
  {
    if n >= 10 {
      NumeralRoundTrip(n / 10);
      var t := Numeral(n);
      assert t[..|t| - 1] == Numeral(n / 10);
      assert 10 * (n / 10) + n % 10 == n;
    }
  }
}
