/**
 * JavaScript strings as sequences of UTF-16 code units, their UTF-8 length
 * (section 3 of RFC 3629), and the byte-bounded truncation used for worker purposes.
 */
module Utf8Text {

  type CodeUnit = x: nat | x < 0x10000

  type Text = seq<CodeUnit>

  predicate High(u: CodeUnit) { 0xD800 <= u <= 0xDBFF }

  predicate Low(u: CodeUnit) { 0xDC00 <= u <= 0xDFFF }

  /** Bytes of one unpaired unit; a lone surrogate is encoded as U+FFFD, three bytes. */
  function UnitBytes(u: CodeUnit): nat {
    if u < 0x80 then 1 else if u < 0x800 then 2 else 3
  }

  /** The length of `TextEncoder.encode`: a surrogate pair is one four-byte character. */
  function Utf8Bytes(t: Text): nat {
    if t == [] then 0
    else if |t| >= 2 && High(t[0]) && Low(t[1]) then 4 + Utf8Bytes(t[2..])
    else UnitBytes(t[0]) + Utf8Bytes(t[1..])
  }

  /** Every high surrogate is followed by a low one and every low one preceded by a high one. */
  ghost predicate WellFormed(t: Text) {
    && (forall i :: 0 <= i < |t| && High(t[i]) ==> i + 1 < |t| && Low(t[i + 1]))
    && (forall i :: 0 <= i < |t| && Low(t[i]) ==> i > 0 && High(t[i - 1]))
  }

  /** Cutting `t` before unit `m` separates the two halves of a pair. */
  predicate Splits(t: Text, m: nat) {
    0 < m < |t| && High(t[m - 1]) && Low(t[m])
  }

  predicate Fits(t: Text, limit: nat, m: nat) {
    m <= |t| && Utf8Bytes(t[..m]) <= limit
  }

  /** `m` cuts the longest prefix of `t` that fits the limit and splits no pair. */
  ghost predicate LongestWholePrefix(t: Text, limit: nat, m: nat) {
    && Fits(t, limit, m) && !Splits(t, m)
    && forall k :: m < k <= |t| && !Splits(t, k) ==> !Fits(t, limit, k)
  }

  /** What one more unit adds: it completes a pair or stands alone. */
  function UnitGrowth(t: Text, u: CodeUnit): nat {
    if t != [] && High(t[|t| - 1]) && Low(u) then 1 else UnitBytes(u)
  }

  lemma {:induction false} Utf8Snoc(t: Text, u: CodeUnit)
    ensures Utf8Bytes(t + [u]) == Utf8Bytes(t) + UnitGrowth(t, u)
  {
    if t == [] {
      assert t + [u] == [u];
    } else if |t| >= 2 && High(t[0]) && Low(t[1]) {
      Utf8Snoc(t[2..], u);
      assert (t + [u])[2..] == t[2..] + [u];
    } else if |t| == 1 {
      assert (t + [u])[1..] == [u];
      assert (t + [u])[2..] == [];
    } else {
      Utf8Snoc(t[1..], u);
      assert (t + [u])[1..] == t[1..] + [u];
    }
  }

  lemma {:induction false} PrefixBytesGrow(t: Text, m: nat, k: nat)
    requires m <= k <= |t|
    ensures Utf8Bytes(t[..m]) + (k - m) <= Utf8Bytes(t[..k])
    decreases k - m
  {
    if m < k {
      PrefixBytesGrow(t, m, k - 1);
      assert t[..k] == t[..k - 1] + [t[k - 1]];
      Utf8Snoc(t[..k - 1], t[k - 1]);
    }
  }

  /** The longest prefix that fits, pairs ignored: what the binary search looks for. */
  function GreatestFit(t: Text, limit: nat, m: nat): (r: nat)
    requires m <= |t|
    ensures r <= m && Fits(t, limit, r)
    ensures r < m ==> !Fits(t, limit, r + 1)
  {
    if Utf8Bytes(t[..m]) <= limit then m else GreatestFit(t, limit, m - 1)
  }

  lemma GreatestFitIs(t: Text, limit: nat, m: nat)
    requires m <= |t| && Fits(t, limit, m)
    requires m < |t| ==> !Fits(t, limit, m + 1)
    ensures GreatestFit(t, limit, |t|) == m
  {
    var g := GreatestFit(t, limit, |t|);
    if g < m {
      PrefixBytesGrow(t, g + 1, m);
    } else if m < g {
      PrefixBytesGrow(t, m + 1, g);
    }
  }

  /** The whole text if it fits, else its greatest fitting prefix without a final high surrogate. */
  function Truncated(t: Text, limit: nat): Text {
    if Utf8Bytes(t) <= limit then t
    else
      var g := GreatestFit(t, limit, |t|);
      t[..if g > 0 && High(t[g - 1]) then g - 1 else g]
  }

  /**
   * The truncation is lossy exactly when the greatest fitting prefix ends in a high surrogate
   * that is not the first half of a pair: the final unit is dropped although it fitted.
   */
  ghost predicate CutAfterLoneHigh(t: Text, limit: nat) {
    var g := GreatestFit(t, limit, |t|);
    0 < g < |t| && High(t[g - 1]) && !Low(t[g])
  }

  lemma WellFormedNeverLossy(t: Text, limit: nat)
    requires WellFormed(t)
    ensures !CutAfterLoneHigh(t, limit)
  {
    var g := GreatestFit(t, limit, |t|);
    assert 0 < g && High(t[g - 1]) ==> g < |t| && Low(t[g]);
  }

  lemma DroppingFinalHigh(t: Text, limit: nat, m: nat, r: nat)
    requires m < |t| && Fits(t, limit, m) && !Fits(t, limit, m + 1)
    requires r == if m > 0 && High(t[m - 1]) then m - 1 else m
    ensures Fits(t, limit, r)
    ensures LongestWholePrefix(t, limit, r) <==> !CutAfterLoneHigh(t, limit)
  {
    GreatestFitIs(t, limit, m);
    PrefixBytesGrow(t, r, m);
    forall k | m < k <= |t| ensures !Fits(t, limit, k) {
      PrefixBytesGrow(t, m + 1, k);
    }
    if m > 0 && High(t[m - 1]) && !Low(t[m]) {
      assert !Splits(t, m) && r < m;
    }
  }

  method BoundedUtf8Text(value: Text, maximumBytes: nat) returns (r: Text)
    ensures r == Truncated(value, maximumBytes)
    ensures r <= value && Utf8Bytes(r) <= maximumBytes
    ensures Utf8Bytes(value) <= maximumBytes ==> r == value
    ensures LongestWholePrefix(value, maximumBytes, |r|) <==> !CutAfterLoneHigh(value, maximumBytes)
    ensures WellFormed(value) ==> LongestWholePrefix(value, maximumBytes, |r|)
  {
    assert value[..|value|] == value;
    if Utf8Bytes(value) <= maximumBytes {
      GreatestFitIs(value, maximumBytes, |value|);
      return value;
    }
    var lower, upper := 0, |value|;
    while lower < upper
      invariant 0 <= lower <= upper <= |value|
      invariant Fits(value, maximumBytes, lower)
      invariant upper < |value| ==> !Fits(value, maximumBytes, upper + 1)
    {
      var middle := (lower + upper + 1) / 2;
      if Utf8Bytes(value[..middle]) <= maximumBytes {
        lower := middle;
      } else {
        upper := middle - 1;
      }
    }
    assert lower < |value|;
    r := value[..if lower > 0 && High(value[lower - 1]) then lower - 1 else lower];
    DroppingFinalHigh(value, maximumBytes, lower, |r|);
    GreatestFitIs(value, maximumBytes, lower);
    if WellFormed(value) {
      WellFormedNeverLossy(value, maximumBytes);
    }
  }

  /** A lone high surrogate that fits is dropped all the same. */
  lemma LoneHighIsLost()
    ensures var t: Text := [0xD800, 0x61];
            CutAfterLoneHigh(t, 3) && LongestWholePrefix(t, 3, 1) && !LongestWholePrefix(t, 3, 0)
  {
    var t: Text := [0xD800, 0x61];
    assert t[..1] == [0xD800];
    assert t[..2] == t;
    assert Utf8Bytes(t[1..]) == 1 by { assert t[1..] == [0x61]; }
    assert Utf8Bytes(t[..1]) == 3;
    assert Utf8Bytes(t) == 4;
    GreatestFitIs(t, 3, 1);
  }
}
