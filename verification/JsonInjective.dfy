/** No two JSON values print alike, whatever follows them, and a codec that prints natural numbers in decimal. */
module JsonInjective {
  import opened Common
  import opened Utf8Text
  import opened Decimal
  import opened JsonText
  import opened Json

  /** Which constructor a text begins with, by its first unit. */
  function KindOf(u: CodeUnit): nat {
    if u == 0x6E then 0 else if u == 0x74 then 1 else if u == 0x66 then 2
    else if u == 0x2D || IsDigit(u) then 3 else if u == QUOTE then 4 else if u == 0x5B then 5 else if u == 0x7B then 6
    else 7
  }

  function Kind(v: Value): nat {
    match v
    case Null => 0
    case Bool(b) => if b then 1 else 2
    case Num(_) => 3
    case Str(_) => 4
    case Arr(_) => 5
    case Obj(_) => 6
  }

  lemma NumeralLead(t: Text)
    requires NumberLength(t) > 0
    ensures KindOf(t[0]) == 3
  {
    assert IntegerLength(t) > 0;
  }

  lemma Lead(c: Codec, v: Value, k: Text)
    requires c.Valid()
    ensures Printed(c, v, k) != [] && KindOf(Printed(c, v, k)[0]) == Kind(v)
  {
    hide NumberLength, Escaped;
    if v.Num? {
      NumeralLead(c.show(v.n));
    }
  }

  lemma NumberInjective(c: Codec, m: nat, n: nat, k: Text, l: Text)
    requires c.Valid() && EndsNumber(k) && EndsNumber(l) && c.show(m) + k == c.show(n) + l
    ensures m == n && k == l
  {
    hide NumberLength, EndsNumber;
    var s, t := c.show(m), c.show(n);
    NumberStops(s, k);
    NumberStops(t, l);
    assert s == (s + k)[..|s|] && t == (t + l)[..|t|];
    assert k == (s + k)[|s|..] && l == (t + l)[|t|..];
    assert c.read(s) == Some(m) && c.read(t) == Some(n);
  }

  lemma StringInjective(s: Text, t: Text, k: Text, l: Text)
    requires QuotedThen(s, k) == QuotedThen(t, l)
    ensures s == t && k == l
  {
    hide Escaped, ScanString;
    ScanEscaped(s, [QUOTE] + k);
    ScanEscaped(t, [QUOTE] + l);
    assert QuotedThen(s, k)[1..] == Escaped(s) + ([QUOTE] + k);
    assert QuotedThen(t, l)[1..] == Escaped(t) + ([QUOTE] + l);
    assert ([QUOTE] + k)[1..] == k && ([QUOTE] + l)[1..] == l;
  }

  lemma Cancel(p: Text, k: Text, l: Text)
    requires p + k == p + l
    ensures k == l
  {
    assert k == (p + k)[|p|..] && l == (p + l)[|p|..];
  }

  /** The printed text determines the value and what follows it. */
  lemma {:induction false} PrintedInjective(c: Codec, a: Value, b: Value, k: Text, l: Text)
    requires c.Valid() && EndsNumber(k) && EndsNumber(l) && Printed(c, a, k) == Printed(c, b, l)
    ensures a == b && k == l
    decreases a
  {
    hide NumberLength, KindOf, EndsNumber, QuotedThen;
    Lead(c, a, k);
    Lead(c, b, l);
    match a
    case Null => Cancel(NULL_TEXT, k, l);
    case Bool(v) => Cancel(if v then TRUE_TEXT else FALSE_TEXT, k, l);
    case Num(n) => NumberInjective(c, n, b.n, k, l);
    case Str(s) => StringInjective(s, b.s, k, l);
    case Arr(items) =>
      Cancel([0x5B], PrintedItems(c, items, [0x5D] + k), PrintedItems(c, b.items, [0x5D] + l));
      ItemsInjective(c, items, b.items, k, l);
    case Obj(members) =>
      Cancel([0x7B], PrintedMembers(c, members, [0x7D] + k), PrintedMembers(c, b.members, [0x7D] + l));
      MembersInjective(c, members, b.members, k, l);
  }

  function ItemsTail(c: Codec, items: seq<Value>, k: Text): (r: Text)
    requires items != []
    ensures EndsNumber(k) ==> EndsNumber(r)
  {
    if |items| == 1 then k else [0x2C] + PrintedItems(c, items[1..], k)
  }

  function MembersTail(c: Codec, members: seq<Member>, k: Text): (r: Text)
    requires members != []
    ensures EndsNumber(k) ==> EndsNumber(r)
  {
    if |members| == 1 then k else [0x2C] + PrintedMembers(c, members[1..], k)
  }

  lemma NoItems(c: Codec, items: seq<Value>, k: Text, l: Text)
    requires c.Valid() && PrintedItems(c, items, [0x5D] + k) == [0x5D] + l
    ensures items == []
  {
    hide Printed;
    if items != [] {
      Lead(c, items[0], ItemsTail(c, items, [0x5D] + k));
    }
  }

  lemma NoMembers(c: Codec, members: seq<Member>, k: Text, l: Text)
    requires PrintedMembers(c, members, [0x7D] + k) == [0x7D] + l
    ensures members == []
  {
    hide Printed, Escaped;
    if members != [] {
      assert PrintedMembers(c, members, [0x7D] + k)[0] == QUOTE;
    }
  }

  lemma {:induction false} ItemsInjective(c: Codec, xs: seq<Value>, ys: seq<Value>, k: Text, l: Text)
    requires c.Valid() && PrintedItems(c, xs, [0x5D] + k) == PrintedItems(c, ys, [0x5D] + l)
    ensures xs == ys && k == l
    decreases xs
  {
    hide Printed;
    if xs == [] {
      NoItems(c, ys, l, k);
      Cancel([0x5D], k, l);
    } else if ys == [] {
      NoItems(c, xs, k, l);
    } else {
      var p, q := ItemsTail(c, xs, [0x5D] + k), ItemsTail(c, ys, [0x5D] + l);
      PrintedInjective(c, xs[0], ys[0], p, q);
      assert p[0] == q[0];
      if |xs| == 1 {
        Cancel([0x5D], k, l);
      } else {
        Cancel([0x2C], PrintedItems(c, xs[1..], [0x5D] + k), PrintedItems(c, ys[1..], [0x5D] + l));
        ItemsInjective(c, xs[1..], ys[1..], k, l);
      }
      assert xs == [xs[0]] + xs[1..] && ys == [ys[0]] + ys[1..];
    }
  }

  lemma {:induction false} MembersInjective(c: Codec, xs: seq<Member>, ys: seq<Member>, k: Text, l: Text)
    requires c.Valid() && PrintedMembers(c, xs, [0x7D] + k) == PrintedMembers(c, ys, [0x7D] + l)
    ensures xs == ys && k == l
    decreases xs
  {
    hide Printed, Escaped;
    if xs == [] {
      NoMembers(c, ys, l, k);
      Cancel([0x7D], k, l);
    } else if ys == [] {
      NoMembers(c, xs, k, l);
    } else {
      var p, q := MembersTail(c, xs, [0x7D] + k), MembersTail(c, ys, [0x7D] + l);
      var s, t := Printed(c, xs[0].value, p), Printed(c, ys[0].value, q);
      StringInjective(xs[0].key, ys[0].key, [0x3A] + s, [0x3A] + t);
      Cancel([0x3A], s, t);
      PrintedInjective(c, xs[0].value, ys[0].value, p, q);
      assert p[0] == q[0];
      if |xs| == 1 {
        Cancel([0x7D], k, l);
      } else {
        Cancel([0x2C], PrintedMembers(c, xs[1..], [0x7D] + k), PrintedMembers(c, ys[1..], [0x7D] + l));
        MembersInjective(c, xs[1..], ys[1..], k, l);
      }
      assert xs == [xs[0]] + xs[1..] && ys == [ys[0]] + ys[1..];
    }
  }

  // A codec

  lemma {:induction false} AllDigitsRun(t: Text)
    requires forall i :: 0 <= i < |t| ==> IsDigit(t[i])
    ensures DigitRun(t) == |t|
  {
    if t != [] {
      AllDigitsRun(t[1..]);
    }
  }

  const DECIMAL: Codec := Codec(Numeral, NumeralValue)

  lemma NumeralIsNumber(n: nat)
    ensures 0 < NumberLength(Numeral(n)) == |Numeral(n)|
  {
    var t := Numeral(n);
    AllDigitsRun(t);
    assert t[0..] == t;
    assert t != [] && IsDigit(t[0]);
    hide Numeral, DigitRun, Digits;
    assert IntegerLength(t) == |t|;
    assert t[|t|..] == [];
  }

  /** Natural numbers printed in decimal meet what is asked of a codec. */
  lemma DecimalValid()
    ensures DECIMAL.Valid()
  {
    hide Numeral, NumeralValue, NumberLength;
    forall n: nat ensures 0 < NumberLength(Numeral(n)) == |Numeral(n)| && NumeralValue(Numeral(n)) == Some(n) {
      NumeralIsNumber(n);
      NumeralRoundTrip(n);
    }
  }
}
