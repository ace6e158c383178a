/** The tokens of JSON text (sections 6 and 7 of RFC 8259): how strings are printed and scanned, where numbers end. */
module JsonText {
  import opened Common
  import opened Utf8Text

  const QUOTE: CodeUnit := 0x22
  const BACKSLASH: CodeUnit := 0x5C

  predicate IsWhitespace(c: CodeUnit) {
    c == 0x20 || c == 0x09 || c == 0x0A || c == 0x0D
  }

  function SkipWhitespace(t: Text): (r: Text)
    ensures |r| <= |t| && (r != [] ==> !IsWhitespace(r[0]))
  {
    if t != [] && IsWhitespace(t[0]) then SkipWhitespace(t[1..]) else t
  }

  // Strings

  function HexDigit(n: nat): CodeUnit
    requires n < 16
  {
    if n < 10 then 0x30 + n else 0x61 + n - 10
  }

  /** The value of a hexadecimal digit in either case. */
  function HexValue(c: CodeUnit): Option<nat> {
    if 0x30 <= c <= 0x39 then Some(c - 0x30)
    else if 0x61 <= c <= 0x66 then Some(c - 0x61 + 10)
    else if 0x41 <= c <= 0x46 then Some(c - 0x41 + 10)
    else None
  }

  /** The letter of a two-character escape. */
  function ShortEscape(u: CodeUnit): Option<CodeUnit> {
    if u == QUOTE || u == BACKSLASH then Some(u)
    else if u == 0x08 then Some(0x62)
    else if u == 0x0C then Some(0x66)
    else if u == 0x0A then Some(0x6E)
    else if u == 0x0D then Some(0x72)
    else if u == 0x09 then Some(0x74)
    else None
  }

  /** What a two-character escape stands for; the solidus is accepted though never printed. */
  function Unescaped(e: CodeUnit): Option<CodeUnit> {
    if e == QUOTE || e == BACKSLASH || e == 0x2F then Some(e)
    else if e == 0x62 then Some(0x08)
    else if e == 0x66 then Some(0x0C)
    else if e == 0x6E then Some(0x0A)
    else if e == 0x72 then Some(0x0D)
    else if e == 0x74 then Some(0x09)
    else None
  }

  function HexDigits(u: CodeUnit): (r: Text)
    ensures |r| == 4
  {
    [HexDigit(u / 16 / 16 / 16), HexDigit(u / 16 / 16 % 16), HexDigit(u / 16 % 16), HexDigit(u % 16)]
  }

  function HexEscape(u: CodeUnit): Text {
    [BACKSLASH, 0x75] + HexDigits(u)
  }

  /** One unit that is not part of a surrogate pair. */
  function EscapedUnit(u: CodeUnit): Text {
    if ShortEscape(u).Some? then [BACKSLASH, ShortEscape(u).value]
    else if u < 0x20 || High(u) || Low(u) then HexEscape(u)
    else [u]
  }

  /** How many units the first character takes: a surrogate pair is printed as it is. */
  function HeadLength(s: Text): (n: nat)
    requires s != []
    ensures 1 <= n <= |s|
  {
    if |s| >= 2 && High(s[0]) && Low(s[1]) then 2 else 1
  }

  function HeadText(s: Text): Text
    requires s != []
  {
    if HeadLength(s) == 2 then s[..2] else EscapedUnit(s[0])
  }

  function Escaped(s: Text): Text {
    if s == [] then [] else HeadText(s) + Escaped(s[HeadLength(s)..])
  }

  /** A string as it is printed. */
  function Quoted(s: Text): Text {
    [QUOTE] + Escaped(s) + [QUOTE]
  }

  datatype Scanned = Scanned(value: Text, rest: Text)

  function Extend(u: CodeUnit, r: Option<Scanned>): Option<Scanned> {
    if r.None? then None else Some(Scanned([u] + r.value.value, r.value.rest))
  }

  function Prepend(a: Text, r: Option<Scanned>): Option<Scanned> {
    if r.None? then None else Some(Scanned(a + r.value.value, r.value.rest))
  }

  /** Scans a string from behind its opening quote: its value and what follows the closing quote. */
  function ScanString(t: Text): (r: Option<Scanned>)
    ensures r.Some? ==> |r.value.rest| < |t|
  {
    if t == [] then None
    else if t[0] == QUOTE then Some(Scanned([], t[1..]))
    else if t[0] < 0x20 then None
    else if t[0] != BACKSLASH then Extend(t[0], ScanString(t[1..]))
    else if |t| < 2 then None
    else if t[1] != 0x75 then
      if Unescaped(t[1]).None? then None else Extend(Unescaped(t[1]).value, ScanString(t[2..]))
    else if |t| < 6 || HexUnit(t[2..6]).None? then None
    else Extend(HexUnit(t[2..6]).value, ScanString(t[6..]))
  }

  /** The unit four hexadecimal digits name. */
  function HexUnit(h: Text): Option<CodeUnit>
    requires |h| == 4
  {
    var a, b, c, d := HexValue(h[0]), HexValue(h[1]), HexValue(h[2]), HexValue(h[3]);
    if a.None? || b.None? || c.None? || d.None? then None
    else Some(16 * (16 * (16 * a.value + b.value) + c.value) + d.value)
  }

  lemma HexDigitValue(n: nat)
    requires n < 16
    ensures HexValue(HexDigit(n)) == Some(n)
  {
  }

  lemma HexRoundTrip(u: CodeUnit)
    ensures HexUnit(HexDigits(u)) == Some(u)
  {
    hide HexDigit, HexValue;
    var a := u / 16;
    var b := a / 16;
    HexDigitValue(u % 16);
    HexDigitValue(a % 16);
    HexDigitValue(b % 16);
    HexDigitValue(b / 16);
  }

  lemma ScanPlain(u: CodeUnit, rest: Text)
    requires u >= 0x20 && u != QUOTE && u != BACKSLASH
    ensures ScanString([u] + rest) == Extend(u, ScanString(rest))
  {
    assert ([u] + rest)[1..] == rest;
  }

  lemma ScanPair(u: CodeUnit, v: CodeUnit, rest: Text)
    requires High(u) && Low(v)
    ensures ScanString([u, v] + rest) == Extend(u, Extend(v, ScanString(rest)))
  {
    assert [u, v] + rest == [u] + ([v] + rest);
    ScanPlain(u, [v] + rest);
    ScanPlain(v, rest);
  }

  lemma ScanHex(u: CodeUnit, rest: Text)
    ensures ScanString(HexEscape(u) + rest) == Extend(u, ScanString(rest))
  {
    hide HexUnit, HexDigits;
    var t := HexEscape(u) + rest;
    assert t[2..6] == HexDigits(u) && t[6..] == rest;
    HexRoundTrip(u);
  }

  lemma ScanUnit(u: CodeUnit, rest: Text)
    ensures ScanString(EscapedUnit(u) + rest) == Extend(u, ScanString(rest))
  {
    if ShortEscape(u).Some? {
      assert (EscapedUnit(u) + rest)[2..] == rest;
    } else {
      hide ScanString;
      if u < 0x20 || High(u) || Low(u) {
        ScanHex(u, rest);
      } else {
        ScanPlain(u, rest);
      }
    }
  }

  lemma ScanHead(s: Text, rest: Text)
    requires s != []
    ensures ScanString(HeadText(s) + rest) == Prepend(s[..HeadLength(s)], ScanString(rest))
  {
    hide ScanString, EscapedUnit;
    if HeadLength(s) == 2 {
      assert s[..2] == [s[0], s[1]];
      ScanPair(s[0], s[1], rest);
      if ScanString(rest).Some? {
        assert [s[0]] + ([s[1]] + ScanString(rest).value.value) == s[..2] + ScanString(rest).value.value;
      }
    } else {
      assert s[..1] == [s[0]];
      ScanUnit(s[0], rest);
    }
  }

  lemma EscapedCons(s: Text)
    requires s != []
    ensures Escaped(s) == HeadText(s) + Escaped(s[HeadLength(s)..])
  {
  }

  /** Scanning a printed string gives the string back and stops right behind it. */
  lemma {:induction false} ScanEscaped(s: Text, after: Text)
    requires after != [] && after[0] == QUOTE
    ensures ScanString(Escaped(s) + after) == Some(Scanned(s, after[1..]))
    decreases |s|
  {
    if s == [] {
      assert Escaped(s) + after == after;
    } else {
      var n := HeadLength(s);
      ScanEscaped(s[n..], after);
      ScanEscapedCons(s, after);
    }
  }

  lemma ScanEscapedCons(s: Text, after: Text)
    requires s != [] && after != []
    requires ScanString(Escaped(s[HeadLength(s)..]) + after) == Some(Scanned(s[HeadLength(s)..], after[1..]))
    ensures ScanString(Escaped(s) + after) == Some(Scanned(s, after[1..]))
  {
    EscapedCons(s);
    hide ScanString, HeadText, HeadLength, Escaped;
    var n := HeadLength(s);
    var head, tail := HeadText(s), Escaped(s[n..]);
    ScanHead(s, tail + after);
    Regroup(head, tail, after);
    Rejoin(s, n);
  }

  lemma Regroup(a: Text, b: Text, c: Text)
    ensures a + b + c == a + (b + c)
  {
  }

  lemma Rejoin(s: Text, n: nat)
    requires n <= |s|
    ensures s[..n] + s[n..] == s
  {
  }

  /** The check for well-formed Unicode, pair by pair. */
  predicate Paired(t: Text) {
    if t == [] then true
    else if High(t[0]) then |t| >= 2 && Low(t[1]) && Paired(t[2..])
    else !Low(t[0]) && Paired(t[1..])
  }

  lemma {:induction false} PairedIsWellFormed(t: Text)
    ensures Paired(t) <==> WellFormed(t)
    decreases |t|
  {
    if t != [] {
      if High(t[0]) {
        if |t| >= 2 && Low(t[1]) {
          PairedIsWellFormed(t[2..]);
          WellFormedTail(t, 2);
        }
      } else if !Low(t[0]) {
        PairedIsWellFormed(t[1..]);
        WellFormedTail(t, 1);
      }
    }
  }

  lemma WellFormedTail(t: Text, n: nat)
    requires 1 <= n <= |t| && !High(t[n - 1])
    requires n == 1 ==> !Low(t[0])
    requires n == 2 ==> High(t[0]) && Low(t[1])
    requires n <= 2
    ensures WellFormed(t) <==> WellFormed(t[n..])
  {
    var r := t[n..];
    if WellFormed(t) {
      forall i | 0 <= i < |r| && High(r[i]) ensures i + 1 < |r| && Low(r[i + 1]) { assert High(t[n + i]); }
      forall i | 0 <= i < |r| && Low(r[i]) ensures i > 0 && High(r[i - 1]) { assert Low(t[n + i]); }
    }
    if WellFormed(r) {
      forall i | 0 <= i < |t| && High(t[i]) ensures i + 1 < |t| && Low(t[i + 1]) {
        if i >= n {
          assert High(r[i - n]);
        }
      }
      forall i | 0 <= i < |t| && Low(t[i]) ensures i > 0 && High(t[i - 1]) {
        if i >= n {
          assert Low(r[i - n]);
        }
      }
    }
  }

  // Numbers

  predicate IsDigit(c: CodeUnit) {
    0x30 <= c <= 0x39
  }

  function DigitRun(t: Text): (n: nat)
    ensures n <= |t|
  {
    if t != [] && IsDigit(t[0]) then 1 + DigitRun(t[1..]) else 0
  }

  /** The integer part: an optional minus, then a zero or digits that do not begin with one. */
  function IntegerLength(t: Text): (n: nat)
    ensures n <= |t|
  {
    var sign := if t != [] && t[0] == 0x2D then 1 else 0;
    var u := t[sign..];
    if u == [] || !IsDigit(u[0]) then 0
    else if u[0] == 0x30 then sign + 1
    else sign + DigitRun(u)
  }

  function FractionLength(t: Text): (n: nat)
    ensures n <= |t|
  {
    if |t| >= 2 && t[0] == 0x2E && IsDigit(t[1]) then 1 + DigitRun(t[1..]) else 0
  }

  function ExponentLength(t: Text): (n: nat)
    ensures n <= |t|
  {
    if t == [] || (t[0] != 0x65 && t[0] != 0x45) then 0
    else
      var sign := if |t| >= 2 && (t[1] == 0x2B || t[1] == 0x2D) then 1 else 0;
      var digits := DigitRun(t[1 + sign..]);
      if digits == 0 then 0 else 1 + sign + digits
  }

  /** The length of the number at the start of the text; zero when there is none. */
  function NumberLength(t: Text): (n: nat)
    ensures n <= |t|
  {
    var i := IntegerLength(t);
    if i == 0 then 0
    else
      var f := FractionLength(t[i..]);
      i + f + ExponentLength(t[i + f..])
  }

  /** Nothing a number could continue with. */
  predicate EndsNumber(rest: Text) {
    rest == [] || !(IsDigit(rest[0]) || rest[0] in {0x2E, 0x65, 0x45, 0x2B, 0x2D})
  }

  lemma {:induction false} DigitRunStops(t: Text, rest: Text)
    requires rest == [] || !IsDigit(rest[0])
    ensures DigitRun(t + rest) == DigitRun(t)
  {
    if t == [] {
      assert t + rest == rest;
    } else {
      assert (t + rest)[1..] == t[1..] + rest;
      DigitRunStops(t[1..], rest);
    }
  }

  lemma IntegerStops(t: Text, rest: Text)
    requires EndsNumber(rest)
    ensures IntegerLength(t + rest) == IntegerLength(t)
  {
    var sign := if t != [] && t[0] == 0x2D then 1 else 0;
    if t != [] {
      assert (t + rest)[sign..] == t[sign..] + rest;
      DigitRunStops(t[sign..], rest);
    } else {
      assert t + rest == rest;
    }
  }

  lemma FractionStops(t: Text, rest: Text)
    requires EndsNumber(rest)
    ensures FractionLength(t + rest) == FractionLength(t)
  {
    if t != [] {
      assert (t + rest)[1..] == t[1..] + rest;
      DigitRunStops(t[1..], rest);
    } else {
      assert t + rest == rest;
    }
  }

  lemma ExponentStops(t: Text, rest: Text)
    requires EndsNumber(rest)
    ensures ExponentLength(t + rest) == ExponentLength(t)
  {
    if t != [] {
      var sign := if |t| >= 2 && (t[1] == 0x2B || t[1] == 0x2D) then 1 else 0;
      assert (t + rest)[1 + sign..] == t[1 + sign..] + rest;
      DigitRunStops(t[1 + sign..], rest);
    } else {
      assert t + rest == rest;
    }
  }

  /** A text that is one number is recognised as exactly that number in front of a delimiter. */
  lemma NumberStops(t: Text, rest: Text)
    requires EndsNumber(rest) && NumberLength(t) == |t|
    ensures NumberLength(t + rest) == |t|
  {
    hide IntegerLength, FractionLength, ExponentLength, EndsNumber;
    IntegerStops(t, rest);
    var i := IntegerLength(t);
    if i > 0 {
      assert (t + rest)[i..] == t[i..] + rest;
      FractionStops(t[i..], rest);
      var f := FractionLength(t[i..]);
      assert (t + rest)[i + f..] == t[i + f..] + rest;
      ExponentStops(t[i + f..], rest);
    } else {
      assert t == [];
    }
  }
}
