/** The strict parser accepts exactly the JSON texts within its limits, and returns what they denote. */
module JsonExact {
  import opened Common
  import opened Utf8Text
  import opened JsonText
  import opened Json
  import opened JsonRoundTrip
  import opened JsonGrammar

  // Whitespace

  lemma {:induction false} SkipSplits(t: Text) returns (w: Text)
    ensures Blank(w) && t == w + SkipWhitespace(t)
    decreases |t|
  {
    if t != [] && IsWhitespace(t[0]) {
      var rest := SkipSplits(t[1..]);
      w := [t[0]] + rest;
      assert t == [t[0]] + t[1..];
    } else {
      w := [];
    }
  }

  lemma {:induction false} SkipBlank(w: Text, t: Text)
    requires Blank(w) && (t == [] || !IsWhitespace(t[0]))
    ensures SkipWhitespace(w + t) == t
    decreases |w|
  {
    if w == [] {
      assert w + t == t;
    } else {
      assert (w + t)[1..] == w[1..] + t && IsWhitespace(w[0]);
      SkipBlank(w[1..], t);
    }
  }

  lemma BlankJoined(a: Text, b: Text)
    requires Blank(a) && Blank(b)
    ensures Blank(a + b)
  {
  }

  // Numbers

  lemma {:induction false} RunIsDigits(t: Text)
    ensures DigitRun(t) > 0 ==> Digits(t[..DigitRun(t)])
    decreases |t|
  {
    if t != [] && IsDigit(t[0]) {
      RunIsDigits(t[1..]);
      var n := DigitRun(t);
      assert forall i :: 0 < i < n ==> t[..n][i] == t[1..][..n - 1][i - 1];
    }
  }

  lemma {:induction false} DigitsRun(t: Text, rest: Text)
    requires Digits(t) && (rest == [] || !IsDigit(rest[0]))
    ensures DigitRun(t + rest) == |t|
    decreases |t|
  {
    assert (t + rest)[1..] == t[1..] + rest;
    if |t| == 1 {
      assert t[1..] + rest == rest;
    } else {
      DigitsRun(t[1..], rest);
    }
  }

  lemma IntegerIs(t: Text) returns (minus: Text, whole: Text)
    requires IntegerLength(t) > 0
    ensures Minus(minus) && Whole(whole) && minus + whole == t[..IntegerLength(t)]
  {
    var sign := if t[0] == 0x2D then 1 else 0;
    var u := t[sign..];
    var n := IntegerLength(t) - sign;
    minus, whole := t[..sign], u[..n];
    RunIsDigits(u);
    assert whole[0] == u[0];
    assert t[..sign] + u[..n] == t[..sign + n];
  }

  lemma SliceInside(t: Text, n: nat, a: nat)
    requires a <= n <= |t|
    ensures t[..n][a..] == t[a..][..n - a]
  {
  }

  lemma FractionIs(t: Text)
    ensures Fraction(t[..FractionLength(t)])
  {
    var n := FractionLength(t);
    if n > 0 {
      RunIsDigits(t[1..]);
      SliceInside(t, n, 1);
    }
  }

  lemma ExponentIs(t: Text)
    ensures Exponent(t[..ExponentLength(t)])
  {
    var n := ExponentLength(t);
    if n > 0 {
      var sign := if |t| >= 2 && (t[1] == 0x2B || t[1] == 0x2D) then 1 else 0;
      RunIsDigits(t[1 + sign..]);
      SliceInside(t, n, 1 + sign);
    }
  }

  /** What the number scanner takes is a numeral. */
  lemma NumberIsNumeral(t: Text)
    requires NumberLength(t) > 0
    ensures IsNumeral(t[..NumberLength(t)])
  {
    hide IntegerLength, FractionLength, ExponentLength, Minus, Whole, Fraction, Exponent, IsNumeral;
    var i := IntegerLength(t);
    var f := FractionLength(t[i..]);
    var e := ExponentLength(t[i + f..]);
    var minus, whole := IntegerIs(t);
    FractionIs(t[i..]);
    ExponentIs(t[i + f..]);
    var fraction, exponent := t[i..][..f], t[i + f..][..e];
    ThreeParts(t, i, f, e);
    NumeralOf(minus, whole, fraction, exponent);
  }

  lemma ThreeParts(t: Text, i: nat, f: nat, e: nat)
    requires i + f + e <= |t|
    ensures t[..i + f + e] == t[..i] + t[i..][..f] + t[i + f..][..e]
  {
  }

  lemma NumeralOf(minus: Text, whole: Text, fraction: Text, exponent: Text)
    requires Minus(minus) && Whole(whole) && Fraction(fraction) && Exponent(exponent)
    ensures IsNumeral(minus + whole + fraction + exponent)
  {
    hide Minus, Whole, Fraction, Exponent;
  }

  lemma IntegerOf(minus: Text, whole: Text, rest: Text)
    requires Minus(minus) && Whole(whole) && (rest == [] || !IsDigit(rest[0]))
    ensures IntegerLength(minus + whole + rest) == |minus + whole|
  {
    var t := minus + whole + rest;
    var sign := |minus|;
    assert t[sign..] == whole + rest;
    assert (whole + rest)[0] == whole[0];
    if sign == 0 {
      assert t[0] == whole[0];
    } else {
      assert t[0] == 0x2D;
    }
    if whole != [0x30] {
      DigitsRun(whole, rest);
    }
  }

  lemma FractionOf(fraction: Text, rest: Text)
    requires Fraction(fraction) && (rest == [] || rest[0] in {0x65, 0x45})
    ensures FractionLength(fraction + rest) == |fraction|
  {
    var t := fraction + rest;
    if fraction != [] {
      assert t[1..] == fraction[1..] + rest && t[0] == 0x2E;
      assert t[1] == fraction[1..][0];
      DigitsRun(fraction[1..], rest);
    } else {
      assert t == rest;
    }
  }

  lemma ExponentOf(exponent: Text)
    requires Exponent(exponent)
    ensures ExponentLength(exponent) == |exponent|
  {
    if exponent != [] {
      if Digits(exponent[1..]) {
        assert exponent[1] == exponent[1..][0];
        assert exponent[1..] + [] == exponent[1..];
        DigitsRun(exponent[1..], []);
      } else {
        assert exponent[2..] + [] == exponent[2..];
        DigitsRun(exponent[2..], []);
      }
    }
  }

  lemma Tails(a: Text, b: Text, d: Text)
    ensures (a + b + d)[|a|..] == b + d && (a + b + d)[|a| + |b|..] == d
  {
  }

  lemma NumberOf(minus: Text, whole: Text, fraction: Text, exponent: Text)
    requires Minus(minus) && Whole(whole) && Fraction(fraction) && Exponent(exponent)
    ensures NumberLength(minus + whole + fraction + exponent) == |minus| + |whole| + |fraction| + |exponent|
  {
    assert whole != [] && (exponent == [] || exponent[0] in {0x65, 0x45});
    var rest := fraction + exponent;
    assert rest == [] || !IsDigit(rest[0]) by {
      assert fraction != [] ==> rest[0] == fraction[0];
      assert fraction == [] ==> rest == exponent;
    }
    hide IntegerLength, FractionLength, ExponentLength, Minus, Whole, Fraction, Exponent;
    Regroup(minus + whole, fraction, exponent);
    IntegerOf(minus, whole, rest);
    FractionOf(fraction, exponent);
    ExponentOf(exponent);
    Tails(minus + whole, fraction, exponent);
  }

  /** The number scanner takes a numeral as a whole. */
  lemma NumeralIsNumber(t: Text)
    requires IsNumeral(t)
    ensures NumberLength(t) == |t| > 0
  {
    var minus, whole, fraction, exponent :|
      Minus(minus) && Whole(whole) && Fraction(fraction) && Exponent(exponent)
      && t == minus + whole + fraction + exponent;
    assert |whole| > 0;
    hide NumberLength, Minus, Whole, Fraction, Exponent;
    NumberOf(minus, whole, fraction, exponent);
  }

  // Strings

  lemma HexAgrees(a: CodeUnit, b: CodeUnit, c: CodeUnit, d: CodeUnit)
    ensures HexUnit([a, b, c, d]) == UnitOf(Hex(a, b, c, d))
  {
    assert HexValue(a) == HexNumber(a) && HexValue(b) == HexNumber(b);
    assert HexValue(c) == HexNumber(c) && HexValue(d) == HexNumber(d);
    hide HexValue, HexNumber;
  }

  lemma ShortAgrees(e: CodeUnit)
    ensures Unescaped(e) == UnitOf(Short(e))
  {
  }

  lemma CharsCons(ch: Char, u: CodeUnit, chars: seq<Char>, s: Text, k: Text)
    requires UnitOf(ch) == Some(u) && CharsAre(chars, s)
    ensures CharsAre([ch] + chars, [u] + s) && CharsText([ch] + chars, k) == CharText(ch) + CharsText(chars, k)
  {
    assert ([ch] + chars)[1..] == chars;
  }

  /** A scanned string is a sequence of characters up to a quotation mark. */
  lemma {:induction false} ScannedIsChars(t: Text) returns (chars: seq<Char>)
    requires ScanString(t).Some?
    ensures var r := ScanString(t).value; CharsAre(chars, r.value) && t == CharsText(chars, [0x22] + r.rest)
    decreases |t|
  {
    var r := ScanString(t).value;
    if t[0] == QUOTE {
      chars := [];
      assert t == [0x22] + t[1..];
    } else if t[0] != BACKSLASH {
      chars := ScannedPlain(t);
    } else if t[1] != 0x75 {
      chars := ScannedShort(t);
    } else {
      chars := ScannedHex(t);
    }
  }

  lemma {:induction false} ScannedPlain(t: Text) returns (chars: seq<Char>)
    requires ScanString(t).Some? && t[0] != QUOTE && t[0] != BACKSLASH
    ensures var r := ScanString(t).value; CharsAre(chars, r.value) && t == CharsText(chars, [0x22] + r.rest)
    decreases |t|, 0
  {
    var more := ScannedIsChars(t[1..]);
    var r := ScanString(t[1..]).value;
    chars := [Plain(t[0])] + more;
    CharsCons(Plain(t[0]), t[0], more, r.value, [0x22] + r.rest);
    assert t == [t[0]] + t[1..];
  }

  lemma {:induction false} ScannedShort(t: Text) returns (chars: seq<Char>)
    requires ScanString(t).Some? && t[0] == BACKSLASH && t[1] != 0x75
    ensures var r := ScanString(t).value; CharsAre(chars, r.value) && t == CharsText(chars, [0x22] + r.rest)
    decreases |t|, 0
  {
    var more := ScannedIsChars(t[2..]);
    var r := ScanString(t[2..]).value;
    chars := [Short(t[1])] + more;
    ShortAgrees(t[1]);
    CharsCons(Short(t[1]), Unescaped(t[1]).value, more, r.value, [0x22] + r.rest);
    assert t == [t[0], t[1]] + t[2..];
  }

  lemma {:induction false} ScannedHex(t: Text) returns (chars: seq<Char>)
    requires ScanString(t).Some? && t[0] == BACKSLASH && t[1] == 0x75
    ensures var r := ScanString(t).value; CharsAre(chars, r.value) && t == CharsText(chars, [0x22] + r.rest)
    decreases |t|, 0
  {
    hide HexUnit;
    var more := ScannedIsChars(t[6..]);
    var r := ScanString(t[6..]).value;
    var ch := Hex(t[2], t[3], t[4], t[5]);
    chars := [ch] + more;
    assert t[2..6] == [t[2], t[3], t[4], t[5]];
    HexAgrees(t[2], t[3], t[4], t[5]);
    CharsCons(ch, HexUnit(t[2..6]).value, more, r.value, [0x22] + r.rest);
    assert t == [t[0], t[1], t[2], t[3], t[4], t[5]] + t[6..];
  }

  lemma ScanChar(ch: Char, rest: Text)
    requires UnitOf(ch).Some?
    ensures ScanString(CharText(ch) + rest) == Extend(UnitOf(ch).value, ScanString(rest))
  {
    hide HexUnit;
    var t := CharText(ch) + rest;
    match ch
    case Plain(u) => assert t[1..] == rest;
    case Short(e) =>
      ShortAgrees(e);
      assert t[2..] == rest;
    case Hex(a, b, c, d) =>
      HexAgrees(a, b, c, d);
      assert t[2..6] == [a, b, c, d] && t[6..] == rest;
  }

  /** Characters up to a quotation mark scan as the string they stand for. */
  lemma {:induction false} CharsScan(chars: seq<Char>, s: Text, k: Text)
    requires CharsAre(chars, s)
    ensures ScanString(CharsText(chars, [0x22] + k)) == Some(Scanned(s, k))
    decreases |chars|
  {
    if chars == [] {
      assert ([0x22] + k)[1..] == k;
    } else {
      CharsScan(chars[1..], s[1..], k);
      ScanChar(chars[0], CharsText(chars[1..], [0x22] + k));
      hide ScanString, UnitOf, CharText;
      assert s == [s[0]] + s[1..];
    }
  }

  // What the parser accepts is derived

  ghost predicate From(l: Limits, c: Codec, t: Text, tree: Tree, p: Parsed<Value>) {
    t == TreeText(tree, p.rest) && Derives(c, l.maxNumberChars, tree, p.value)
  }

  /** Whitespace in front of elements belongs to the first of them. */
  function LeadElements(w: Text, elements: seq<Element>): (r: seq<Element>)
    requires elements != []
    ensures |r| == |elements|
  {
    [elements[0].(before := w + elements[0].before)] + elements[1..]
  }

  lemma LeadingElements(c: Codec, max: nat, w: Text, elements: seq<Element>, items: seq<Value>, k: Text)
    requires elements != [] && Blank(w) && DerivesItems(c, max, elements, items)
    ensures ElementsText(LeadElements(w, elements), k) == w + ElementsText(elements, k)
    ensures DerivesItems(c, max, LeadElements(w, elements), items)
  {
    var led := LeadElements(w, elements);
    assert led[1..] == elements[1..];
    BlankJoined(w, elements[0].before);
    hide TreeText, Derives;
    var e := elements[0];
    var body := TreeText(e.tree, e.after + if |elements| == 1 then k else [0x2C] + ElementsText(elements[1..], k));
    Regroup(w, e.before, body);
  }

  function LeadEntries(w: Text, entries: seq<Entry>): (r: seq<Entry>)
    requires entries != []
    ensures |r| == |entries|
  {
    [entries[0].(before := w + entries[0].before)] + entries[1..]
  }

  lemma LeadingEntries(c: Codec, max: nat, w: Text, entries: seq<Entry>, members: seq<Member>, k: Text)
    requires entries != [] && Blank(w) && DerivesMembers(c, max, entries, members)
    ensures EntriesText(LeadEntries(w, entries), k) == w + EntriesText(entries, k)
    ensures DerivesMembers(c, max, LeadEntries(w, entries), members)
  {
    var led := LeadEntries(w, entries);
    assert led[1..] == entries[1..];
    BlankJoined(w, entries[0].before);
    hide TreeText, Derives, StringText, CharsAre;
    var e := entries[0];
    var tail := e.after + if |entries| == 1 then k else [0x2C] + EntriesText(entries[1..], k);
    Regroup(w, e.before, StringText(e.name, e.gap + ([0x3A] + (e.lead + TreeText(e.tree, tail)))));
  }

  lemma StringDerived(l: Limits, t: Text, isKey: bool) returns (chars: seq<Char>)
    requires ParseString(l, t, isKey).Ok?
    ensures var s := ParseString(l, t, isKey).value;
            CharsAre(chars, s.value) && [QUOTE] + t == StringText(chars, s.rest)
  {
    chars := ScannedIsChars(t);
    hide ScanString, CharsAre, CharsText;
  }

  lemma WordDerived(l: Limits, c: Codec, u: Text, v: Value, nodes: nat)
    requires (v.Null? || v.Bool?) && WordText(v) <= u
    ensures From(l, c, u, Word(v), Parsed(v, u[|WordText(v)|..], nodes))
  {
  }

  lemma NumeralDerived(l: Limits, c: Codec, u: Text, nodes: nat)
    requires ParseNumber(l, c, u, nodes).Ok?
    ensures From(l, c, u, Numeral(u[..NumberLength(u)]), ParseNumber(l, c, u, nodes).value)
  {
    hide IsNumeral, NumberLength;
    NumberIsNumeral(u);
    Rejoin(u, NumberLength(u));
  }

  lemma QuotedDerived(l: Limits, c: Codec, u: Text, nodes: nat) returns (tree: Tree)
    requires u != [] && u[0] == QUOTE && ParseString(l, u[1..], false).Ok?
    ensures var s := ParseString(l, u[1..], false).value; From(l, c, u, tree, Parsed(Str(s.value), s.rest, nodes))
  {
    hide ParseString, StringText, CharsAre;
    var chars := StringDerived(l, u[1..], false);
    assert u == [QUOTE] + u[1..];
    tree := Quoted(chars);
  }

  lemma ScalarDerived(l: Limits, c: Codec, u: Text, depth: nat, nodes: nat) returns (tree: Tree)
    requires u != [] && !IsWhitespace(u[0]) && u[0] != 0x7B && u[0] != 0x5B && ParseValue(l, c, u, depth, nodes).Ok?
    ensures From(l, c, u, tree, ParseValue(l, c, u, depth, nodes).value)
  {
    hide ParseObject, ParseArray, ParseString, ParseNumber, From, NumberLength;
    SkipNothing(u);
    if u[0] == QUOTE {
      tree := QuotedDerived(l, c, u, nodes + 1);
    } else if TRUE_TEXT <= u {
      tree := Word(Bool(true));
      WordDerived(l, c, u, Bool(true), nodes + 1);
    } else if FALSE_TEXT <= u {
      tree := Word(Bool(false));
      WordDerived(l, c, u, Bool(false), nodes + 1);
    } else if NULL_TEXT <= u {
      tree := Word(Null);
      WordDerived(l, c, u, Null, nodes + 1);
    } else {
      tree := Numeral(u[..NumberLength(u)]);
      NumeralDerived(l, c, u, nodes + 1);
    }
  }

  lemma {:induction false} ValueDerived(l: Limits, c: Codec, t: Text, depth: nat, nodes: nat)
    returns (w: Text, tree: Tree)
    requires ParseValue(l, c, t, depth, nodes).Ok?
    ensures Blank(w) && t == w + SkipWhitespace(t)
    ensures From(l, c, SkipWhitespace(t), tree, ParseValue(l, c, t, depth, nodes).value)
    decreases |t|, 2
  {
    w := SkipSplits(t);
    var u := SkipWhitespace(t);
    SkippedFirst(l, c, t, depth, nodes);
    if u[0] == 0x7B {
      AtObject(l, c, u, depth, nodes);
      tree := ObjectDerived(l, c, u[1..], depth + 1, nodes + 1);
      assert u == [0x7B] + u[1..];
    } else if u[0] == 0x5B {
      AtArray(l, c, u, depth, nodes);
      tree := ArrayDerived(l, c, u[1..], depth + 1, nodes + 1);
      assert u == [0x5B] + u[1..];
    } else {
      hide ParseValue;
      tree := ScalarDerived(l, c, u, depth, nodes);
    }
  }

  lemma SkippedFirst(l: Limits, c: Codec, t: Text, depth: nat, nodes: nat)
    ensures ParseValue(l, c, t, depth, nodes) == ParseValue(l, c, SkipWhitespace(t), depth, nodes)
    ensures ParseValue(l, c, t, depth, nodes).Ok? ==> SkipWhitespace(t) != [] && nodes + 1 <= l.maxNodes
  {
    hide ParseObject, ParseArray, ParseString, ParseNumber;
    var u := SkipWhitespace(t);
    assert SkipWhitespace(u) == u;
  }

  lemma {:induction false} ArrayDerived(l: Limits, c: Codec, t: Text, depth: nat, nodes: nat) returns (tree: Tree)
    requires ParseArray(l, c, t, depth, nodes).Ok?
    ensures From(l, c, [0x5B] + t, tree, ParseArray(l, c, t, depth, nodes).value)
    decreases |t|, 4
  {
    hide ParseItems, ElementsText, DerivesItems;
    var w := SkipSplits(t);
    var u := SkipWhitespace(t);
    if u[0] == 0x5D {
      tree := Array(w, []);
      assert u == [0x5D] + u[1..];
      NothingDerived(c, l.maxNumberChars);
    } else {
      var p := ParseItems(l, c, u, depth, nodes, []).value;
      var elements := ItemsDerived(l, c, u, depth, nodes, []);
      LeadingElements(c, l.maxNumberChars, w, elements, p.value.items, [0x5D] + p.rest);
      tree := Array([], LeadElements(w, elements));
    }
  }

  lemma NothingDerived(c: Codec, max: nat)
    ensures DerivesItems(c, max, [], []) && DerivesMembers(c, max, [], [])
  {
  }

  /** The items read from a text, behind those read before it. */
  ghost predicate ItemsFrom(l: Limits, c: Codec, t: Text, elements: seq<Element>, items: seq<Value>, p: Parsed<Value>) {
    && elements != [] && p.value.Arr? && |items| <= |p.value.items| && p.value.items[..|items|] == items
    && DerivesItems(c, l.maxNumberChars, elements, p.value.items[|items|..])
    && t == ElementsText(elements, [0x5D] + p.rest)
  }

  lemma LastElement(l: Limits, c: Codec, t: Text, e: Element, items: seq<Value>, v: Value, rest: Text, nodes: nat)
    requires Blank(e.before) && Blank(e.after) && Derives(c, l.maxNumberChars, e.tree, v)
    requires t == e.before + TreeText(e.tree, e.after + ([0x5D] + rest))
    ensures ItemsFrom(l, c, t, [e], items, Parsed(Arr(items + [v]), rest, nodes))
  {
    hide TreeText, Derives;
    NothingDerived(c, l.maxNumberChars);
    assert (items + [v])[|items|..] == [v] && [v][1..] == [] && [e][1..] == [];
    assert (items + [v])[..|items|] == items;
  }

  lemma NextElement(l: Limits, c: Codec, t: Text, e: Element, more: seq<Element>, items: seq<Value>, v: Value,
                    p: Parsed<Value>, next: Text)
    requires Blank(e.before) && Blank(e.after) && Derives(c, l.maxNumberChars, e.tree, v)
    requires ItemsFrom(l, c, next, more, items + [v], p) && t == e.before + TreeText(e.tree, e.after + ([0x2C] + next))
    ensures ItemsFrom(l, c, t, [e] + more, items, p)
  {
    hide TreeText, Derives;
    var all := p.value.items;
    assert ([e] + more)[1..] == more;
    assert all[|items|..][1..] == all[|items| + 1..] && all[|items|..][0] == v;
    assert all[..|items|] == items;
  }

  lemma {:induction false} ItemsDerived(l: Limits, c: Codec, t: Text, depth: nat, nodes: nat, items: seq<Value>)
    returns (elements: seq<Element>)
    requires t != [] && ParseItems(l, c, t, depth, nodes, items).Ok?
    ensures ItemsFrom(l, c, t, elements, items, ParseItems(l, c, t, depth, nodes, items).value)
    decreases |t|, 3
  {
    hide ParseValue, TreeText, Derives, ItemsFrom, Blank;
    var v := ParseValue(l, c, t, depth, nodes).value;
    var w, tree := ValueDerived(l, c, t, depth, nodes);
    var after := SkipSplits(v.rest);
    var u := SkipWhitespace(v.rest);
    var e := Element(w, tree, after);
    assert u == [u[0]] + u[1..];
    if u[0] == 0x5D {
      LastElement(l, c, t, e, items, v.value, u[1..], v.nodes);
      elements := [e];
    } else {
      var gap := SkipSplits(u[1..]);
      var next := SkipWhitespace(u[1..]);
      var p := ParseItems(l, c, next, depth, v.nodes, items + [v.value]).value;
      var more := ItemsDerived(l, c, next, depth, v.nodes, items + [v.value]);
      LedItems(l, c, gap, next, more, items + [v.value], p);
      NextElement(l, c, t, e, LeadElements(gap, more), items, v.value, p, u[1..]);
      elements := [e] + LeadElements(gap, more);
    }
  }

  lemma LedItems(l: Limits, c: Codec, gap: Text, next: Text, more: seq<Element>, items: seq<Value>, p: Parsed<Value>)
    requires Blank(gap) && ItemsFrom(l, c, next, more, items, p)
    ensures more != [] && ItemsFrom(l, c, gap + next, LeadElements(gap, more), items, p)
  {
    LeadingElements(c, l.maxNumberChars, gap, more, p.value.items[|items|..], [0x5D] + p.rest);
    hide DerivesItems, ElementsText;
  }

  lemma {:induction false} ObjectDerived(l: Limits, c: Codec, t: Text, depth: nat, nodes: nat) returns (tree: Tree)
    requires ParseObject(l, c, t, depth, nodes).Ok?
    ensures From(l, c, [0x7B] + t, tree, ParseObject(l, c, t, depth, nodes).value)
    decreases |t|, 1
  {
    hide ParseMembers, EntriesText, DerivesMembers;
    var w := SkipSplits(t);
    var u := SkipWhitespace(t);
    if u != [] && u[0] == 0x7D {
      tree := Object(w, []);
      assert u == [0x7D] + u[1..];
      NothingDerived(c, l.maxNumberChars);
    } else {
      var p := ParseMembers(l, c, u, depth, nodes, []).value;
      var entries := MembersDerived(l, c, u, depth, nodes, []);
      LeadingEntries(c, l.maxNumberChars, w, entries, p.value.members, [0x7D] + p.rest);
      tree := Object([], LeadEntries(w, entries));
    }
  }

  ghost predicate MembersFrom(l: Limits, c: Codec, t: Text, entries: seq<Entry>, members: seq<Member>,
                              p: Parsed<Value>)
  {
    && entries != [] && p.value.Obj? && |members| <= |p.value.members| && p.value.members[..|members|] == members
    && DerivesMembers(c, l.maxNumberChars, entries, p.value.members[|members|..])
    && t == EntriesText(entries, [0x7D] + p.rest)
  }

  lemma KeyDerived(l: Limits, t: Text, members: seq<Member>) returns (chars: seq<Char>, gap: Text)
    requires ParseKey(l, t, members).Ok?
    ensures var k := ParseKey(l, t, members).value;
            CharsAre(chars, k.value) && Blank(gap) && t == StringText(chars, gap + ([0x3A] + k.rest))
  {
    hide ParseString, CharsAre, StringText, HasKey, Blank, SkipWhitespace;
    var s := ParseString(l, t[1..], true).value;
    chars := StringDerived(l, t[1..], true);
    gap := SkipSplits(s.rest);
    HeadAndTail(t);
    HeadAndTail(SkipWhitespace(s.rest));
  }

  lemma HeadAndTail(t: Text)
    requires t != []
    ensures t == [t[0]] + t[1..]
  {
  }

  lemma EntryOf(l: Limits, c: Codec, t: Text, chars: seq<Char>, gap: Text, key: Scanned, lead: Text, tree: Tree,
                after: Text, v: Value, u: Text)
    requires CharsAre(chars, key.value) && Blank(gap) && t == StringText(chars, gap + ([0x3A] + key.rest))
    requires Blank(lead) && Blank(after) && Derives(c, l.maxNumberChars, tree, v)
    requires key.rest == lead + TreeText(tree, after + u)
    ensures EntryFrom(l, c, t, Entry([], chars, gap, lead, tree, after), Member(key.value, v), u)
  {
    hide CharsAre, StringText, TreeText, Derives;
    assert [] + t == t;
  }

  /** One entry of an object: its key and value, and the text it opens. */
  ghost predicate EntryFrom(l: Limits, c: Codec, t: Text, e: Entry, m: Member, rest: Text) {
    && EntryBlank(e) && CharsAre(e.name, m.key) && Derives(c, l.maxNumberChars, e.tree, m.value)
    && t == e.before + StringText(e.name, e.gap + ([0x3A] + (e.lead + TreeText(e.tree, e.after + rest))))
  }

  lemma LastEntry(l: Limits, c: Codec, t: Text, e: Entry, members: seq<Member>, m: Member, rest: Text, nodes: nat)
    requires EntryFrom(l, c, t, e, m, [0x7D] + rest)
    ensures MembersFrom(l, c, t, [e], members, Parsed(Obj(members + [m]), rest, nodes))
  {
    hide TreeText, Derives, StringText, CharsAre;
    NothingDerived(c, l.maxNumberChars);
    assert (members + [m])[|members|..] == [m] && [m][1..] == [] && [e][1..] == [];
    assert (members + [m])[..|members|] == members;
  }

  lemma NextEntry(l: Limits, c: Codec, t: Text, e: Entry, more: seq<Entry>, members: seq<Member>, m: Member,
                  p: Parsed<Value>, next: Text)
    requires EntryFrom(l, c, t, e, m, [0x2C] + next) && MembersFrom(l, c, next, more, members + [m], p)
    ensures MembersFrom(l, c, t, [e] + more, members, p)
  {
    hide TreeText, Derives, StringText, CharsAre;
    var all := p.value.members;
    assert ([e] + more)[1..] == more;
    assert all[|members|..][1..] == all[|members| + 1..] && all[|members|..][0] == m;
    assert all[..|members|] == members;
  }

  lemma LedMembers(l: Limits, c: Codec, gap: Text, next: Text, more: seq<Entry>, members: seq<Member>, p: Parsed<Value>)
    requires Blank(gap) && MembersFrom(l, c, next, more, members, p)
    ensures more != [] && MembersFrom(l, c, gap + next, LeadEntries(gap, more), members, p)
  {
    LeadingEntries(c, l.maxNumberChars, gap, more, p.value.members[|members|..], [0x7D] + p.rest);
    hide DerivesMembers, EntriesText;
  }

  lemma {:induction false} MembersDerived(l: Limits, c: Codec, t: Text, depth: nat, nodes: nat, members: seq<Member>)
    returns (entries: seq<Entry>)
    requires ParseMembers(l, c, t, depth, nodes, members).Ok?
    ensures MembersFrom(l, c, t, entries, members, ParseMembers(l, c, t, depth, nodes, members).value)
    decreases |t|, 0
  {
    hide ParseValue, ParseKey, TreeText, StringText, CharsAre, Derives, MembersFrom, Blank, EntryFrom, LeadEntries;
    var k := ParseKey(l, t, members).value;
    var chars, gap := KeyDerived(l, t, members);
    var v := ParseValue(l, c, k.rest, depth, nodes).value;
    var lead, tree := ValueDerived(l, c, k.rest, depth, nodes);
    var after := SkipSplits(v.rest);
    var u := SkipWhitespace(v.rest);
    var e, m := Entry([], chars, gap, lead, tree, after), Member(k.value, v.value);
    assert u == [u[0]] + u[1..];
    EntryOf(l, c, t, chars, gap, k, lead, tree, after, v.value, u);
    if u[0] == 0x7D {
      LastEntry(l, c, t, e, members, m, u[1..], v.nodes);
      entries := [e];
    } else {
      var space := SkipSplits(u[1..]);
      var next := SkipWhitespace(u[1..]);
      var p := ParseMembers(l, c, next, depth, v.nodes, members + [m]).value;
      var more := MembersDerived(l, c, next, depth, v.nodes, members + [m]);
      LedMembers(l, c, space, next, more, members + [m], p);
      NextEntry(l, c, t, e, LeadEntries(space, more), members, m, p, u[1..]);
      entries := [e] + LeadEntries(space, more);
    }
  }

  /** Every text the parser accepts denotes the value it returns. */
  lemma ParsedIsDenoted(l: Limits, c: Codec, t: Text)
    requires Parse(l, c, t).Ok?
    ensures Denotes(c, l.maxNumberChars, t, Parse(l, c, t).value)
  {
    hide ParseValue, TreeText, Derives, Utf8Bytes;
    var before := SkipSplits(t);
    var u := SkipWhitespace(t);
    var p := ParseValue(l, c, u, 0, 0).value;
    var w, tree := ValueDerived(l, c, u, 0, 0);
    var after := SkipSplits(p.rest);
    assert SkipWhitespace(u) == u;
    assert after + [] == after;
    assert t == before + TreeText(tree, after);
  }

  // What is derived, the parser accepts

  lemma NumeralFirst(text: Text, k: Text)
    requires IsNumeral(text)
    ensures var t := text + k; t != [] && !IsWhitespace(t[0]) && (t[0] == 0x2D || IsDigit(t[0]))
  {
    var minus, whole, fraction, exponent :|
      Minus(minus) && Whole(whole) && Fraction(fraction) && Exponent(exponent)
      && text == minus + whole + fraction + exponent;
    assert text[0] == (minus + whole)[0];
  }

  /** A value begins with a character that is no whitespace and ends no collection. */
  lemma TreeStarts(c: Codec, max: nat, tree: Tree, v: Value, k: Text)
    requires Derives(c, max, tree, v)
    ensures var t := TreeText(tree, k); t != [] && !IsWhitespace(t[0]) && t[0] != 0x5D
  {
    hide IsNumeral, DerivesItems, DerivesMembers, CharsAre;
    if tree.Numeral? {
      NumeralFirst(tree.text, k);
    }
  }

  /** What may follow a value: whitespace, then a comma, a closing bracket or brace, or the end. */
  lemma FollowsNumber(after: Text, k: Text)
    requires Blank(after) && (k == [] || k[0] in {0x2C, 0x5D, 0x7D})
    ensures EndsNumber(after + k)
  {
    if after != [] {
      assert (after + k)[0] == after[0];
    } else {
      assert after + k == k;
    }
  }

  ghost predicate Fits(l: Limits, v: Value, depth: nat, nodes: nat) {
    WithinLimits(l, v, depth) && nodes + Nodes(v) <= l.maxNodes
  }

  lemma WordParsed(l: Limits, c: Codec, v: Value, k: Text, depth: nat, nodes: nat)
    requires (v.Null? || v.Bool?) && nodes + 1 <= l.maxNodes
    ensures ParseValue(l, c, WordText(v) + k, depth, nodes) == Ok(Parsed(v, k, nodes + 1))
  {
    AtLiteral(l, c, v, k, depth, nodes);
  }

  lemma StringParsed(l: Limits, chars: seq<Char>, s: Text, k: Text, isKey: bool)
    requires CharsAre(chars, s) && WellFormed(s) && Utf8Bytes(s) <= if isKey then l.maxKeyBytes else l.maxStringBytes
    ensures var t := StringText(chars, k);
            t != [] && t[0] == QUOTE && ParseString(l, t[1..], isKey) == Ok(Scanned(s, k))
  {
    hide CharsText, CharsAre, WellFormed, ScanString;
    CharsScan(chars, s, k);
    PairedIsWellFormed(s);
    assert StringText(chars, k)[1..] == CharsText(chars, [0x22] + k);
  }

  lemma NumeralParsed(l: Limits, c: Codec, text: Text, n: nat, k: Text, depth: nat, nodes: nat)
    requires IsNumeral(text) && |text| <= l.maxNumberChars && c.read(text) == Some(n) && EndsNumber(k)
    requires nodes + 1 <= l.maxNodes
    ensures ParseValue(l, c, text + k, depth, nodes) == Ok(Parsed(Num(n), k, nodes + 1))
  {
    hide ParseValue, IsNumeral, NumberLength;
    NumeralFirst(text, k);
    AtNumber(l, c, text + k, depth, nodes);
    NumeralIsNumber(text);
    NumberStops(text, k);
    assert (text + k)[..|text|] == text && (text + k)[|text|..] == k;
  }

  lemma ScalarParsed(l: Limits, c: Codec, tree: Tree, v: Value, k: Text, depth: nat, nodes: nat)
    requires !v.Arr? && !v.Obj? && Derives(c, l.maxNumberChars, tree, v) && Fits(l, v, depth, nodes) && EndsNumber(k)
    ensures ParseValue(l, c, TreeText(tree, k), depth, nodes) == Ok(Parsed(v, k, nodes + Nodes(v)))
  {
    hide ParseValue, ParseString, IsNumeral, CharsAre, StringText, WellFormed, EndsNumber;
    match tree
    case Word(_) => WordParsed(l, c, v, k, depth, nodes);
    case Numeral(text) => NumeralParsed(l, c, text, v.n, k, depth, nodes);
    case Quoted(chars) =>
      StringParsed(l, chars, v.s, k, false);
      AtString(l, c, StringText(chars, k), depth, nodes);
  }

  lemma {:induction false} ValueParsed(l: Limits, c: Codec, tree: Tree, v: Value, k: Text, depth: nat, nodes: nat)
    requires Derives(c, l.maxNumberChars, tree, v) && Fits(l, v, depth, nodes) && EndsNumber(k)
    ensures ParseValue(l, c, TreeText(tree, k), depth, nodes) == Ok(Parsed(v, k, nodes + Nodes(v)))
    decreases tree, 0
  {
    hide ParseValue, EndsNumber, TreeText, Fits;
    if tree.Array? {
      ArrayParsed(l, c, tree.blank, tree.elements, v.items, k, depth, nodes);
    } else if tree.Object? {
      ObjectParsed(l, c, tree.blank, tree.entries, v.members, k, depth, nodes);
    } else {
      ScalarParsed(l, c, tree, v, k, depth, nodes);
    }
  }

  /** A value behind whitespace. */
  lemma {:induction false} LedValueParsed(l: Limits, c: Codec, w: Text, tree: Tree, v: Value, k: Text, depth: nat,
                                          nodes: nat)
    requires Blank(w) && Derives(c, l.maxNumberChars, tree, v) && Fits(l, v, depth, nodes) && EndsNumber(k)
    ensures ParseValue(l, c, w + TreeText(tree, k), depth, nodes) == Ok(Parsed(v, k, nodes + Nodes(v)))
    decreases tree, 1
  {
    hide ParseValue, EndsNumber, TreeText, Fits, Derives;
    TreeStarts(c, l.maxNumberChars, tree, v, k);
    SkipBlank(w, TreeText(tree, k));
    SkippedFirst(l, c, w + TreeText(tree, k), depth, nodes);
    ValueParsed(l, c, tree, v, k, depth, nodes);
  }

  function BareElements(elements: seq<Element>): (r: seq<Element>)
    requires elements != []
    ensures |r| == |elements|
  {
    [elements[0].(before := [])] + elements[1..]
  }

  lemma BareText(c: Codec, max: nat, elements: seq<Element>, items: seq<Value>, k: Text)
    requires elements != [] && DerivesItems(c, max, elements, items)
    ensures var bare := ElementsText(BareElements(elements), k);
            && SkipWhitespace(ElementsText(elements, k)) == bare && bare != [] && bare[0] != 0x5D
            && DerivesItems(c, max, BareElements(elements), items)
  {
    var bare, e := BareElements(elements), elements[0];
    assert bare[1..] == elements[1..];
    var tail := e.after + if |elements| == 1 then k else [0x2C] + ElementsText(elements[1..], k);
    TreeStarts(c, max, e.tree, items[0], tail);
    hide TreeText, Derives, IsWhitespace;
    assert [] + TreeText(e.tree, tail) == TreeText(e.tree, tail);
    SkipBlank(e.before, TreeText(e.tree, tail));
  }

  lemma {:induction false} ArrayParsed(l: Limits, c: Codec, blank: Text, elements: seq<Element>, items: seq<Value>,
                                       k: Text, depth: nat, nodes: nat)
    requires Blank(blank) && DerivesItems(c, l.maxNumberChars, elements, items) && Fits(l, Arr(items), depth, nodes)
    ensures ParseValue(l, c, TreeText(Array(blank, elements), k), depth, nodes) ==
            Ok(Parsed(Arr(items), k, nodes + Nodes(Arr(items))))
    decreases elements, 2
  {
    hide ParseValue, ParseItems, ElementsText, DerivesItems, ItemNodes;
    var t := TreeText(Array(blank, elements), k);
    AtArray(l, c, t, depth, nodes);
    if elements == [] {
      NoItemsDerived(c, l.maxNumberChars, items);
      assert t[1..] == blank + ([0x5D] + k);
      SkipBlank(blank, [0x5D] + k);
      assert ([0x5D] + k)[1..] == k;
    } else {
      assert t[1..] == ElementsText(elements, [0x5D] + k);
      BareText(c, l.maxNumberChars, elements, items, [0x5D] + k);
      ItemsParsed(l, c, elements, items, k, depth + 1, nodes + 1, []);
      assert [] + items == items;
    }
  }

  lemma NoItemsDerived(c: Codec, max: nat, items: seq<Value>)
    requires DerivesItems(c, max, [], items)
    ensures items == [] && ItemNodes(items) == 0
  {
  }

  /** The first element of a list and what follows it. */
  lemma {:induction false} ItemParsed(l: Limits, c: Codec, e: Element, v: Value, rest: Text, depth: nat, nodes: nat)
    requires Blank(e.after) && Derives(c, l.maxNumberChars, e.tree, v) && Fits(l, v, depth, nodes)
    requires rest != [] && rest[0] in {0x2C, 0x5D, 0x7D}
    ensures var p := ParseValue(l, c, TreeText(e.tree, e.after + rest), depth, nodes);
            && p == Ok(Parsed(v, e.after + rest, nodes + Nodes(v)))
            && SkipWhitespace(p.value.rest) == rest
    decreases e.tree, 2
  {
    hide ParseValue, TreeText, Derives, Fits, EndsNumber;
    FollowsNumber(e.after, rest);
    ValueParsed(l, c, e.tree, v, e.after + rest, depth, nodes);
    SkipBlank(e.after, rest);
  }

  ghost predicate AllFit(l: Limits, items: seq<Value>, depth: nat, nodes: nat) {
    (forall i :: 0 <= i < |items| ==> WithinLimits(l, items[i], depth)) && nodes + ItemNodes(items) <= l.maxNodes
  }

  lemma FirstFits(l: Limits, items: seq<Value>, depth: nat, nodes: nat)
    requires items != [] && AllFit(l, items, depth, nodes)
    ensures Fits(l, items[0], depth, nodes) && AllFit(l, items[1..], depth, nodes + Nodes(items[0]))
    ensures ItemNodes(items) == Nodes(items[0]) + ItemNodes(items[1..])
  {
    hide WithinLimits, Nodes;
  }

  lemma FirstDerived(c: Codec, max: nat, elements: seq<Element>, items: seq<Value>)
    requires elements != [] && DerivesItems(c, max, elements, items)
    ensures items != [] && Blank(elements[0].before) && Blank(elements[0].after)
    ensures Derives(c, max, elements[0].tree, items[0]) && DerivesItems(c, max, elements[1..], items[1..])
    ensures |elements| == 1 ==> |items| == 1
    ensures |elements| > 1 ==> |items| > 1
  {
    hide Derives, Blank;
  }

  lemma EndOfItems(l: Limits, c: Codec, t: Text, depth: nat, nodes: nat, done: seq<Value>, p: Parsed<Value>, k: Text)
    requires t != [] && |done| < l.maxArrayLength && ParseValue(l, c, t, depth, nodes) == Ok(p)
    requires SkipWhitespace(p.rest) == [0x5D] + k
    ensures ParseItems(l, c, t, depth, nodes, done) == Ok(Parsed(Arr(done + [p.value]), k, p.nodes))
  {
    hide ParseValue;
    assert ([0x5D] + k)[1..] == k;
  }

  lemma NextOfItems(l: Limits, c: Codec, t: Text, depth: nat, nodes: nat, done: seq<Value>, p: Parsed<Value>, k: Text)
    requires t != [] && |done| < l.maxArrayLength && ParseValue(l, c, t, depth, nodes) == Ok(p)
    requires SkipWhitespace(p.rest) == [0x2C] + k && SkipWhitespace(k) != []
    ensures ParseItems(l, c, t, depth, nodes, done) ==
            ParseItems(l, c, SkipWhitespace(k), depth, p.nodes, done + [p.value])
  {
    hide ParseValue;
    assert ([0x2C] + k)[1..] == k;
  }

  lemma {:induction false} ItemsParsed(l: Limits, c: Codec, elements: seq<Element>, items: seq<Value>, k: Text,
                                       depth: nat, nodes: nat, done: seq<Value>)
    requires elements != [] && DerivesItems(c, l.maxNumberChars, elements, items)
    requires AllFit(l, items, depth, nodes) && |done| + |items| <= l.maxArrayLength
    ensures var t := ElementsText(BareElements(elements), [0x5D] + k);
            t != [] && ParseItems(l, c, t, depth, nodes, done) ==
                       Ok(Parsed(Arr(done + items), k, nodes + ItemNodes(items)))
    decreases elements, 1
  {
    hide ParseValue, ParseItems, TreeText, Derives, DerivesItems, Fits, AllFit, ItemNodes, Nodes, Blank;
    hide BareElements, ElementsText, SkipWhitespace;
    BareText(c, l.maxNumberChars, elements, items, [0x5D] + k);
    FirstDerived(c, l.maxNumberChars, elements, items);
    FirstFits(l, items, depth, nodes);
    var e, v := elements[0], items[0];
    var t := ElementsText(BareElements(elements), [0x5D] + k);
    var n := nodes + Nodes(v);
    if |elements| == 1 {
      BareOne(elements, [0x5D] + k);
      ItemParsed(l, c, e, v, [0x5D] + k, depth, nodes);
      EndOfItems(l, c, t, depth, nodes, done, Parsed(v, e.after + ([0x5D] + k), n), k);
      OnlyOne(items);
      NoNodes();
    } else {
      var more := ElementsText(elements[1..], [0x5D] + k);
      BareMore(elements, [0x5D] + k);
      ItemParsed(l, c, e, v, [0x2C] + more, depth, nodes);
      BareText(c, l.maxNumberChars, elements[1..], items[1..], [0x5D] + k);
      NextOfItems(l, c, t, depth, nodes, done, Parsed(v, e.after + ([0x2C] + more), n), more);
      ItemsParsed(l, c, elements[1..], items[1..], k, depth, n, done + [v]);
      FirstJoins(done, items);
    }
  }

  lemma OnlyOne<T>(s: seq<T>)
    requires |s| == 1
    ensures s == [s[0]] && s[1..] == []
  {
  }

  lemma FirstJoins<T>(done: seq<T>, s: seq<T>)
    requires s != []
    ensures done + [s[0]] + s[1..] == done + s
  {
  }

  lemma NoNodes()
    ensures ItemNodes([]) == 0 && MemberNodes([]) == 0
  {
  }

  lemma BareOne(elements: seq<Element>, k: Text)
    requires |elements| == 1
    ensures ElementsText(BareElements(elements), k) == TreeText(elements[0].tree, elements[0].after + k)
  {
    hide TreeText;
    assert [] + TreeText(elements[0].tree, elements[0].after + k) == TreeText(elements[0].tree, elements[0].after + k);
  }

  lemma BareMore(elements: seq<Element>, k: Text)
    requires |elements| > 1
    ensures ElementsText(BareElements(elements), k) ==
            TreeText(elements[0].tree, elements[0].after + ([0x2C] + ElementsText(elements[1..], k)))
  {
    hide TreeText;
    assert BareElements(elements)[1..] == elements[1..];
    var text := TreeText(elements[0].tree, elements[0].after + ([0x2C] + ElementsText(elements[1..], k)));
    assert [] + text == text;
  }

  // Objects

  function BareEntries(entries: seq<Entry>): (r: seq<Entry>)
    requires entries != []
    ensures |r| == |entries|
  {
    [entries[0].(before := [])] + entries[1..]
  }

  lemma BareObject(c: Codec, max: nat, entries: seq<Entry>, members: seq<Member>, k: Text)
    requires entries != [] && DerivesMembers(c, max, entries, members)
    ensures var bare := EntriesText(BareEntries(entries), k);
            && SkipWhitespace(EntriesText(entries, k)) == bare && bare != [] && bare[0] == 0x22
            && DerivesMembers(c, max, BareEntries(entries), members)
  {
    var bare, e := BareEntries(entries), entries[0];
    assert bare[1..] == entries[1..];
    hide TreeText, Derives, CharsText, CharsAre;
    var tail := e.after + if |entries| == 1 then k else [0x2C] + EntriesText(entries[1..], k);
    var text := StringText(e.name, e.gap + ([0x3A] + (e.lead + TreeText(e.tree, tail))));
    assert [] + text == text;
    SkipBlank(e.before, text);
  }

  lemma {:induction false} ObjectParsed(l: Limits, c: Codec, blank: Text, entries: seq<Entry>, members: seq<Member>,
                                        k: Text, depth: nat, nodes: nat)
    requires Blank(blank) && DerivesMembers(c, l.maxNumberChars, entries, members)
    requires Fits(l, Obj(members), depth, nodes)
    ensures ParseValue(l, c, TreeText(Object(blank, entries), k), depth, nodes) ==
            Ok(Parsed(Obj(members), k, nodes + Nodes(Obj(members))))
    decreases entries, 2
  {
    hide ParseValue, ParseMembers, EntriesText, DerivesMembers, MemberNodes, KeyFits, DistinctKeys;
    var t := TreeText(Object(blank, entries), k);
    AtObject(l, c, t, depth, nodes);
    if entries == [] {
      NoMembersDerived(c, l.maxNumberChars, members);
      assert t[1..] == blank + ([0x7D] + k);
      SkipBlank(blank, [0x7D] + k);
      assert ([0x7D] + k)[1..] == k;
    } else {
      assert t[1..] == EntriesText(entries, [0x7D] + k);
      BareObject(c, l.maxNumberChars, entries, members, [0x7D] + k);
      assert [] + members == members;
      MembersParsed(l, c, entries, members, k, depth + 1, nodes + 1, []);
    }
  }

  lemma NoMembersDerived(c: Codec, max: nat, members: seq<Member>)
    requires DerivesMembers(c, max, [], members)
    ensures members == [] && MemberNodes(members) == 0
  {
  }

  ghost predicate AllMembersFit(l: Limits, members: seq<Member>, depth: nat, nodes: nat) {
    && (forall i :: 0 <= i < |members| ==> KeyFits(l, members[i].key) && WithinLimits(l, members[i].value, depth))
    && nodes + MemberNodes(members) <= l.maxNodes
  }

  lemma FirstMemberFits(l: Limits, members: seq<Member>, depth: nat, nodes: nat)
    requires members != [] && AllMembersFit(l, members, depth, nodes)
    ensures KeyFits(l, members[0].key) && Fits(l, members[0].value, depth, nodes)
    ensures AllMembersFit(l, members[1..], depth, nodes + Nodes(members[0].value))
    ensures MemberNodes(members) == Nodes(members[0].value) + MemberNodes(members[1..])
  {
    hide WithinLimits, Nodes, KeyFits;
  }

  lemma FirstEntryDerived(c: Codec, max: nat, entries: seq<Entry>, members: seq<Member>)
    requires entries != [] && DerivesMembers(c, max, entries, members)
    ensures members != [] && EntryBlank(entries[0]) && CharsAre(entries[0].name, members[0].key)
    ensures Derives(c, max, entries[0].tree, members[0].value) && DerivesMembers(c, max, entries[1..], members[1..])
    ensures |entries| == 1 ==> |members| == 1
    ensures |entries| > 1 ==> |members| > 1
  {
    hide Derives, Blank, CharsAre;
  }

  lemma KeyParsed(l: Limits, e: Entry, key: Text, rest: Text, done: seq<Member>)
    requires Blank(e.gap) && CharsAre(e.name, key) && KeyFits(l, key) && !HasKey(done, key) && |done| < l.maxObjectKeys
    ensures ParseKey(l, StringText(e.name, e.gap + ([0x3A] + rest)), done) == Ok(Scanned(key, rest))
  {
    hide ParseString, StringText, CharsAre, HasKey, WellFormed;
    StringParsed(l, e.name, key, e.gap + ([0x3A] + rest), true);
    SkipBlank(e.gap, [0x3A] + rest);
    assert ([0x3A] + rest)[1..] == rest;
  }

  /** The value of a member and what follows it. */
  lemma {:induction false} MemberValueParsed(l: Limits, c: Codec, e: Entry, v: Value, rest: Text, depth: nat,
                                             nodes: nat)
    requires EntryBlank(e) && Derives(c, l.maxNumberChars, e.tree, v) && Fits(l, v, depth, nodes)
    requires rest != [] && rest[0] in {0x2C, 0x5D, 0x7D}
    ensures var p := ParseValue(l, c, e.lead + TreeText(e.tree, e.after + rest), depth, nodes);
            && p == Ok(Parsed(v, e.after + rest, nodes + Nodes(v)))
            && SkipWhitespace(p.value.rest) == rest
    decreases e.tree, 2
  {
    hide ParseValue, TreeText, Derives, Fits, EndsNumber;
    FollowsNumber(e.after, rest);
    LedValueParsed(l, c, e.lead, e.tree, v, e.after + rest, depth, nodes);
    SkipBlank(e.after, rest);
  }

  lemma BareEntry(entries: seq<Entry>, k: Text)
    requires entries != []
    ensures var e := entries[0];
            var rest := if |entries| == 1 then k else [0x2C] + EntriesText(entries[1..], k);
            EntriesText(BareEntries(entries), k) ==
            StringText(e.name, e.gap + ([0x3A] + (e.lead + TreeText(e.tree, e.after + rest))))
  {
    hide TreeText, StringText;
    assert BareEntries(entries)[1..] == entries[1..];
    var e := entries[0];
    var rest := if |entries| == 1 then k else [0x2C] + EntriesText(entries[1..], k);
    var text := StringText(e.name, e.gap + ([0x3A] + (e.lead + TreeText(e.tree, e.after + rest))));
    assert [] + text == text;
  }

  lemma EndOfMembers(l: Limits, c: Codec, t: Text, depth: nat, nodes: nat, done: seq<Member>, key: Scanned,
                     p: Parsed<Value>, k: Text)
    requires ParseKey(l, t, done) == Ok(key) && ParseValue(l, c, key.rest, depth, nodes) == Ok(p)
    requires SkipWhitespace(p.rest) == [0x7D] + k
    ensures ParseMembers(l, c, t, depth, nodes, done) ==
            Ok(Parsed(Obj(done + [Member(key.value, p.value)]), k, p.nodes))
  {
    hide ParseValue, ParseKey;
    assert ([0x7D] + k)[1..] == k;
  }

  lemma NextOfMembers(l: Limits, c: Codec, t: Text, depth: nat, nodes: nat, done: seq<Member>, key: Scanned,
                      p: Parsed<Value>, k: Text)
    requires ParseKey(l, t, done) == Ok(key) && ParseValue(l, c, key.rest, depth, nodes) == Ok(p)
    requires SkipWhitespace(p.rest) == [0x2C] + k
    ensures ParseMembers(l, c, t, depth, nodes, done) ==
            ParseMembers(l, c, SkipWhitespace(k), depth, p.nodes, done + [Member(key.value, p.value)])
  {
    hide ParseValue, ParseKey;
    assert ([0x2C] + k)[1..] == k;
  }

  lemma {:induction false} MembersParsed(l: Limits, c: Codec, entries: seq<Entry>, members: seq<Member>, k: Text,
                                         depth: nat, nodes: nat, done: seq<Member>)
    requires entries != [] && DerivesMembers(c, l.maxNumberChars, entries, members)
    requires AllMembersFit(l, members, depth, nodes) && |done| + |members| <= l.maxObjectKeys
    requires DistinctKeys(done + members)
    ensures ParseMembers(l, c, EntriesText(BareEntries(entries), [0x7D] + k), depth, nodes, done) ==
            Ok(Parsed(Obj(done + members), k, nodes + MemberNodes(members)))
    decreases entries, 1
  {
    hide ParseValue, ParseKey, ParseMembers, TreeText, StringText, CharsAre, Derives, DerivesMembers, Fits, MemberNodes;
    hide AllMembersFit, Nodes, Blank, KeyFits, DistinctKeys, HasKey, BareEntries, EntriesText, SkipWhitespace;
    FirstEntryDerived(c, l.maxNumberChars, entries, members);
    FirstMemberFits(l, members, depth, nodes);
    FreshKey(done, members);
    BareEntry(entries, [0x7D] + k);
    var e, m := entries[0], members[0];
    var rest := if |entries| == 1 then [0x7D] + k else [0x2C] + EntriesText(entries[1..], [0x7D] + k);
    var key := Scanned(m.key, e.lead + TreeText(e.tree, e.after + rest));
    var p := Parsed(m.value, e.after + rest, nodes + Nodes(m.value));
    var t := EntriesText(BareEntries(entries), [0x7D] + k);
    KeyParsed(l, e, m.key, key.rest, done);
    MemberValueParsed(l, c, e, m.value, rest, depth, nodes);
    if |entries| == 1 {
      EndOfMembers(l, c, t, depth, nodes, done, key, p, k);
      OnlyOne(members);
      NoNodes();
    } else {
      NextOfMembers(l, c, t, depth, nodes, done, key, p, EntriesText(entries[1..], [0x7D] + k));
      BareObject(c, l.maxNumberChars, entries[1..], members[1..], [0x7D] + k);
      FirstJoins(done, members);
      MembersParsed(l, c, entries[1..], members[1..], k, depth, p.nodes, done + [m]);
    }
  }

  // Main results

  lemma DenotedIsParsed(l: Limits, c: Codec, t: Text, v: Value)
    requires Denotes(c, l.maxNumberChars, t, v) && Utf8Bytes(t) <= l.maxBytes && Fits(l, v, 0, 0)
    ensures Parse(l, c, t) == Ok(v)
  {
    var before, tree, after :|
      Blank(before) && Blank(after) && Derives(c, l.maxNumberChars, tree, v) && t == before + TreeText(tree, after);
    TreeStarts(c, l.maxNumberChars, tree, v, after);
    hide ParseValue, TreeText, Derives, Fits, Utf8Bytes, EndsNumber;
    SkipBlank(before, TreeText(tree, after));
    assert after + [] == after;
    FollowsNumber(after, []);
    ValueParsed(l, c, tree, v, after, 0, 0);
    SkipBlank(after, []);
  }

  /**
   * The parser answers with a value exactly when the text is a JSON text for that value, the text has at most the
   * permitted bytes, its numerals the permitted length, and the value keeps every other limit.
   */
  lemma ParseExactly(l: Limits, c: Codec, t: Text, v: Value)
    ensures Parse(l, c, t) == Ok(v) <==>
            && Denotes(c, l.maxNumberChars, t, v) && Utf8Bytes(t) <= l.maxBytes
            && WithinLimits(l, v, 0) && Nodes(v) <= l.maxNodes
  {
    if Parse(l, c, t) == Ok(v) {
      ParsedIsDenoted(l, c, t);
      ParsedWithinLimits(l, c, t);
    }
    hide Denotes, WithinLimits, Nodes, ParseValue;
    if Denotes(c, l.maxNumberChars, t, v) && Utf8Bytes(t) <= l.maxBytes && Fits(l, v, 0, 0) {
      DenotedIsParsed(l, c, t, v);
    }
  }

  lemma {:induction false} CharsTextJoined(chars: seq<Char>, k: Text, x: Text)
    ensures CharsText(chars, k) + x == CharsText(chars, k + x)
    decreases |chars|
  {
    if chars != [] {
      CharsTextJoined(chars[1..], k, x);
      Regroup(CharText(chars[0]), CharsText(chars[1..], k), x);
    }
  }

  lemma StringTextJoined(chars: seq<Char>, k: Text, x: Text)
    ensures StringText(chars, k) + x == StringText(chars, k + x)
  {
    CharsTextJoined(chars, [0x22] + k, x);
    Regroup([0x22], k, x);
    Regroup([0x22], CharsText(chars, [0x22] + k), x);
  }

  /** The text behind a derivation is only what is put there. */
  lemma {:induction false} TreeTextJoined(tree: Tree, k: Text, x: Text)
    ensures TreeText(tree, k) + x == TreeText(tree, k + x)
    decreases tree
  {
    hide StringText, ElementsText, EntriesText;
    match tree
    case Word(word) => Regroup(WordText(word), k, x);
    case Numeral(text) => Regroup(text, k, x);
    case Quoted(chars) => StringTextJoined(chars, k, x);
    case Array(blank, elements) =>
      Regroup([0x5D], k, x);
      if elements == [] {
        Regroup(blank, [0x5D] + k, x);
        Regroup([0x5B], blank + ([0x5D] + k), x);
      } else {
        ElementsTextJoined(elements, [0x5D] + k, x);
        Regroup([0x5B], ElementsText(elements, [0x5D] + k), x);
      }
    case Object(blank, entries) =>
      Regroup([0x7D], k, x);
      if entries == [] {
        Regroup(blank, [0x7D] + k, x);
        Regroup([0x7B], blank + ([0x7D] + k), x);
      } else {
        EntriesTextJoined(entries, [0x7D] + k, x);
        Regroup([0x7B], EntriesText(entries, [0x7D] + k), x);
      }
  }

  lemma {:induction false} ElementsTextJoined(elements: seq<Element>, k: Text, x: Text)
    requires elements != []
    ensures ElementsText(elements, k) + x == ElementsText(elements, k + x)
    decreases elements
  {
    hide TreeText;
    var e := elements[0];
    if |elements| == 1 {
      TreeTextJoined(e.tree, e.after + k, x);
      Regroup(e.after, k, x);
      Regroup(e.before, TreeText(e.tree, e.after + k), x);
    } else {
      var more := ElementsText(elements[1..], k);
      ElementsTextJoined(elements[1..], k, x);
      Regroup([0x2C], more, x);
      TreeTextJoined(e.tree, e.after + ([0x2C] + more), x);
      Regroup(e.after, [0x2C] + more, x);
      Regroup(e.before, TreeText(e.tree, e.after + ([0x2C] + more)), x);
    }
  }

  lemma EntryTextJoined(e: Entry, tail: Text, x: Text)
    requires TreeText(e.tree, tail) + x == TreeText(e.tree, tail + x)
    ensures e.before + StringText(e.name, e.gap + ([0x3A] + (e.lead + TreeText(e.tree, tail)))) + x ==
            e.before + StringText(e.name, e.gap + ([0x3A] + (e.lead + TreeText(e.tree, tail + x))))
  {
    hide TreeText, StringText;
    var tree := TreeText(e.tree, tail);
    Regroup(e.lead, tree, x);
    Regroup([0x3A], e.lead + tree, x);
    Regroup(e.gap, [0x3A] + (e.lead + tree), x);
    StringTextJoined(e.name, e.gap + ([0x3A] + (e.lead + tree)), x);
    Regroup(e.before, StringText(e.name, e.gap + ([0x3A] + (e.lead + tree))), x);
  }

  lemma {:induction false} EntriesTextJoined(entries: seq<Entry>, k: Text, x: Text)
    requires entries != []
    ensures EntriesText(entries, k) + x == EntriesText(entries, k + x)
    decreases entries
  {
    hide TreeText, StringText;
    var e := entries[0];
    if |entries| == 1 {
      Regroup(e.after, k, x);
      TreeTextJoined(e.tree, e.after + k, x);
      EntryTextJoined(e, e.after + k, x);
    } else {
      var more := EntriesText(entries[1..], k);
      EntriesTextJoined(entries[1..], k, x);
      Regroup([0x2C], more, x);
      Regroup(e.after, [0x2C] + more, x);
      TreeTextJoined(e.tree, e.after + ([0x2C] + more), x);
      EntryTextJoined(e, e.after + ([0x2C] + more), x);
    }
  }

  /** Behind an accepted text and whitespace, anything but more whitespace is refused. */
  lemma TrailingRefused(l: Limits, c: Codec, t: Text, w: Text, x: Text)
    requires Parse(l, c, t).Ok? && Blank(w) && w != [] && x != [] && !Blank([x[0]])
    ensures Parse(l, c, t + w + x) == Err(if Utf8Bytes(t + w + x) > l.maxBytes then MaxBytes else InvalidJson)
  {
    var v := Parse(l, c, t).value;
    ParseExactly(l, c, t, v);
    var before, tree, after :|
      Blank(before) && Blank(after) && Derives(c, l.maxNumberChars, tree, v) && t == before + TreeText(tree, after);
    var behind := after + (w + x);
    assert t + w + x == before + TreeText(tree, behind) by {
      Regroup(t, w, x);
      Regroup(before, TreeText(tree, after), w + x);
      TreeTextJoined(tree, after, w + x);
    }
    TreeStarts(c, l.maxNumberChars, tree, v, behind);
    SkipBlank(before, TreeText(tree, behind));
    BlankJoined(after, w);
    Regroup(after, w, x);
    assert [x[0]][0] == x[0];
    SkipBlank(after + w, x);
    assert EndsNumber(behind) by {
      assert behind[0] == (after + w)[0];
    }
    ValueParsed(l, c, tree, v, behind, 0, 0);
    hide ParseValue, TreeText, Derives, Utf8Bytes, WithinLimits, Nodes;
  }

  /** Whitespace around an accepted text changes nothing but its length. */
  lemma PaddingAccepted(l: Limits, c: Codec, before: Text, t: Text, after: Text)
    requires Parse(l, c, t).Ok? && Blank(before) && Blank(after) && Utf8Bytes(before + t + after) <= l.maxBytes
    ensures Parse(l, c, before + t + after) == Parse(l, c, t)
  {
    var v := Parse(l, c, t).value;
    ParseExactly(l, c, t, v);
    var b, tree, a :|
      Blank(b) && Blank(a) && Derives(c, l.maxNumberChars, tree, v) && t == b + TreeText(tree, a);
    TreeTextJoined(tree, a, after);
    Regroup(before, b, TreeText(tree, a));
    Regroup(before + b, TreeText(tree, a), after);
    BlankJoined(before, b);
    BlankJoined(a, after);
    hide Parse, TreeText, Derives, Utf8Bytes, WithinLimits, Nodes, Blank;
    assert before + t + after == (before + b) + TreeText(tree, a + after);
    assert Denotes(c, l.maxNumberChars, before + t + after, v);
    ParseExactly(l, c, before + t + after, v);
  }
}
