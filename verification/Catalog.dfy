/** The capability catalog that states its own serialized length. */
module Catalog {
  import opened Decimal

  /** The token estimate: a quarter of the bytes, rounded up. */
  function Tokens(bytes: nat): nat {
    (bytes + 3) / 4
  }

  /** How many bytes the two metrics themselves take. */
  function MetricBytes(bytes: nat): nat {
    Digits(bytes) + Digits(Tokens(bytes))
  }

  /** The serialized length of a catalog whose other content takes `rest` bytes and whose metrics claim `bytes`. */
  function CatalogBytes(rest: nat, bytes: nat): nat {
    rest + MetricBytes(bytes)
  }

  // Digits and powers of ten

  function Pow10(k: nat): (r: nat)
    ensures r >= k + 1
  {
    if k == 0 then 1 else 10 * Pow10(k - 1)
  }

  lemma {:induction false} DigitsRange(n: nat)
    requires n >= 1
    ensures Pow10(Digits(n) - 1) <= n < Pow10(Digits(n))
  {
    if n < 10 {
      assert Pow10(1) == 10 * Pow10(0);
    } else {
      DigitsRange(n / 10);
    }
  }

  lemma {:induction false} DigitsMonotone(a: nat, b: nat)
    requires a <= b
    ensures Digits(a) <= Digits(b)
  {
    if b >= 10 && a >= 10 {
      DigitsMonotone(a / 10, b / 10);
    }
  }

  lemma {:induction false} Pow10Monotone(j: nat, k: nat)
    requires j <= k
    ensures Pow10(j) <= Pow10(k)
  {
    if j < k {
      Pow10Monotone(j, k - 1);
    }
  }

  /** A number below a power of ten has no more digits than its exponent. */
  lemma DigitsBelow(n: nat, k: nat)
    requires k >= 1 && n < Pow10(k)
    ensures Digits(n) <= k
  {
    if n >= 1 && Digits(n) > k {
      DigitsRange(n);
      Pow10Monotone(k, Digits(n) - 1);
    }
  }

  lemma MetricsMonotone(a: nat, b: nat)
    requires a <= b
    ensures MetricBytes(a) <= MetricBytes(b)
  {
    DigitsMonotone(a, b);
    DigitsMonotone(Tokens(a), Tokens(b));
  }

  /** The two metrics have equally many digits, or the byte count has one more. */
  lemma TokenDigits(a: nat)
    requires a >= 1
    ensures Digits(a) - 1 <= Digits(Tokens(a)) <= Digits(a)
  {
    DigitsMonotone(Tokens(a), a);
    var t := Tokens(a);
    assert a <= 4 * t;
    DigitsRange(t);
    assert Pow10(Digits(t) + 1) == 10 * Pow10(Digits(t));
    DigitsBelow(a, Digits(t) + 1);
  }

  /** When both metrics have `k` digits, the token count keeps them and the byte count gains at most one. */
  lemma EqualDigits(a: nat, x: nat, k: nat)
    requires k >= 1 && a < Pow10(k) && a <= x <= a + 2 * k
    ensures Digits(x) <= k + 1 && Digits(Tokens(x)) <= k
  {
    var q := Pow10(k);
    assert q >= k + 1;
    assert Pow10(k + 1) == 10 * q;
    DigitsBelow(x, k + 1);
    assert 4 * Tokens(x) <= x + 3;
    DigitsBelow(Tokens(x), k);
  }

  /** When the token count has a digit less, the byte count keeps its digits and the token count gains at most one. */
  lemma UnequalDigits(a: nat, x: nat, k: nat)
    requires k >= 1 && Tokens(a) < Pow10(k - 1) && a <= x <= a + 2 * k
    ensures Digits(x) <= k && Digits(Tokens(x)) <= k
  {
    var p := Pow10(k - 1);
    assert p >= k && Pow10(k) == 10 * p;
    assert a <= 4 * Tokens(a);
    DigitsBelow(x, k);
    assert Tokens(x) <= x;
    DigitsBelow(Tokens(x), k);
  }

  /** Between a size and a size at most twice its digits larger, at most one of the two metrics gains a digit. */
  lemma OneDigitAtMost(a: nat, x: nat)
    requires 1 <= a <= x <= a + 2 * Digits(a)
    ensures MetricBytes(x) <= MetricBytes(a) + 1
  {
    hide Digits, Pow10, Tokens;
    var k, j := Digits(a), Digits(Tokens(a));
    TokenDigits(a);
    DigitsRange(a);
    if j == k {
      EqualDigits(a, x, k);
    } else {
      TokensPositive(a);
      DigitsRange(Tokens(a));
      UnequalDigits(a, x, k);
    }
  }

  lemma TokensPositive(a: nat)
    requires a >= 1
    ensures Tokens(a) >= 1
  {
  }

  /** The measure after three passes is a fixed point, whatever the catalog holds. */
  lemma ThirdMeasureIsExact(rest: nat)
    ensures var a := CatalogBytes(rest, 0);
            var b := CatalogBytes(rest, a);
            var c := CatalogBytes(rest, b);
            a <= b <= c && CatalogBytes(rest, c) == c
  {
    var a := CatalogBytes(rest, 0);
    var b := CatalogBytes(rest, a);
    var c := CatalogBytes(rest, b);
    assert a == rest + 2;
    MetricsMonotone(a, b);
    TokenDigits(a);
    OneDigitAtMost(a, b);
    OneDigitAtMost(a, c);
    MetricsMonotone(b, c);
  }

  /** Passes below every fixed point stay below it. */
  lemma BelowFixedPoint(rest: nat, bytes: nat, fixed: nat)
    requires bytes <= fixed && CatalogBytes(rest, fixed) == fixed
    ensures CatalogBytes(rest, bytes) <= fixed
  {
    MetricsMonotone(bytes, fixed);
  }

  /** The measure after a number of passes. */
  function Measured(rest: nat, passes: nat): nat {
    if passes == 0 then 0 else CatalogBytes(rest, Measured(rest, passes - 1))
  }

  lemma {:induction false} MeasuredBelow(rest: nat, passes: nat, fixed: nat)
    requires CatalogBytes(rest, fixed) == fixed
    ensures Measured(rest, passes) <= fixed
  {
    if passes > 0 {
      hide CatalogBytes;
      MeasuredBelow(rest, passes - 1, fixed);
      BelowFixedPoint(rest, Measured(rest, passes - 1), fixed);
    }
  }

  /**
   * The metrics loop.  It stops within four of its eight passes for every catalog, so it never reports that the
   * metrics did not converge; the length it embeds is the length of the catalog that embeds it, and the least such.
   */
  method MeasureCatalog(rest: nat) returns (converged: bool, bytes: nat, tokens: nat, passes: nat)
    ensures converged && passes <= 4
    ensures bytes == CatalogBytes(rest, bytes) && tokens == Tokens(bytes)
    ensures forall fixed :: CatalogBytes(rest, fixed) == fixed ==> bytes <= fixed
  {
    converged, bytes, tokens, passes := false, 0, 0, 0;
    while passes < 8 && !converged
      invariant passes <= 4 && (!converged ==> passes <= 3)
      invariant tokens == Tokens(bytes)
      invariant if converged then bytes == CatalogBytes(rest, bytes) else bytes == Measured(rest, passes)
      invariant exists k :: bytes == Measured(rest, k)
      decreases 8 - passes, !converged
    {
      var measured := rest + Digits(bytes) + Digits(tokens);
      var nextTokens := (measured + 3) / 4;
      assert measured == CatalogBytes(rest, bytes) == Measured(rest, passes + 1);
      if measured == bytes && nextTokens == tokens {
        converged := true;
      }
      if passes == 3 {
        ThirdMeasureIsExact(rest);
        assert Measured(rest, 1) == CatalogBytes(rest, Measured(rest, 0));
        assert Measured(rest, 2) == CatalogBytes(rest, Measured(rest, 1));
      }
      bytes, tokens := measured, nextTokens;
      passes := passes + 1;
    }
    forall fixed | CatalogBytes(rest, fixed) == fixed ensures bytes <= fixed {
      var k :| bytes == Measured(rest, k);
      MeasuredBelow(rest, k, fixed);
    }
  }
}
