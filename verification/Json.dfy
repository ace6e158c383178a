/** JSON values, the canonical printer's layout, and the strict parser with its limits (sections 2 to 5 of RFC 8259). */
module Json {
  import opened Common
  import opened Utf8Text
  import opened JsonText

  datatype Value =
    | Null
    | Bool(b: bool)
    | Num(n: nat)
    | Str(s: Text)
    | Arr(items: seq<Value>)
    | Obj(members: seq<Member>)

  /** Members are kept in the order of the text. */
  datatype Member = Member(key: Text, value: Value)

  /** Numbers by name: how each finite number other than minus zero is printed, and the number a numeral denotes. */
  datatype Codec = Codec(show: nat -> Text, read: Text -> Option<nat>) {
    /** Printing gives a JSON numeral that reads back as the same number. */
    ghost predicate Valid() {
      forall n: nat :: 0 < NumberLength(show(n)) == |show(n)| && read(show(n)) == Some(n)
    }
  }

  datatype Limits = Limits(
    maxBytes: nat, maxDepth: nat, maxNodes: nat, maxObjectKeys: nat, maxArrayLength: nat, maxStringBytes: nat,
    maxKeyBytes: nat, maxNumberChars: nat, forbiddenKeys: set<Text>)

  datatype Error =
    | MaxBytes | MaxDepth | MaxNodes | MaxObjectKeys | MaxArrayLength | MaxStringBytes | MaxKeyBytes | MaxNumberChars
    | InvalidJson | InvalidUnicode | InvalidNumber | ForbiddenKey | DuplicateKey

  const TRUE_TEXT: Text := [0x74, 0x72, 0x75, 0x65]
  const FALSE_TEXT: Text := [0x66, 0x61, 0x6C, 0x73, 0x65]
  const NULL_TEXT: Text := [0x6E, 0x75, 0x6C, 0x6C]

  // The printer

  /** The text of a value followed by `k`. */
  function Printed(c: Codec, v: Value, k: Text): Text
    decreases v
  {
    match v
    case Null => NULL_TEXT + k
    case Bool(b) => (if b then TRUE_TEXT else FALSE_TEXT) + k
    case Num(n) => c.show(n) + k
    case Str(s) => QuotedThen(s, k)
    case Arr(items) => [0x5B] + PrintedItems(c, items, [0x5D] + k)
    case Obj(members) => [0x7B] + PrintedMembers(c, members, [0x7D] + k)
  }

  function QuotedThen(s: Text, k: Text): Text {
    [QUOTE] + (Escaped(s) + ([QUOTE] + k))
  }

  function PrintedItems(c: Codec, items: seq<Value>, k: Text): Text
    decreases items
  {
    if items == [] then k
    else Printed(c, items[0], if |items| == 1 then k else [0x2C] + PrintedItems(c, items[1..], k))
  }

  function PrintedMembers(c: Codec, members: seq<Member>, k: Text): Text
    decreases members
  {
    if members == [] then k
    else
      var tail := if |members| == 1 then k else [0x2C] + PrintedMembers(c, members[1..], k);
      QuotedThen(members[0].key, [0x3A] + Printed(c, members[0].value, tail))
  }

  function Print(c: Codec, v: Value): Text {
    Printed(c, v, [])
  }

  // The parser

  /** A parsed value, the text behind it and the nodes counted so far. */
  datatype Parsed<T> = Parsed(value: T, rest: Text, nodes: nat)

  predicate HasKey(members: seq<Member>, key: Text) {
    exists i :: 0 <= i < |members| && members[i].key == key
  }

  /** A string from behind its opening quote. */
  function ParseString(l: Limits, t: Text, isKey: bool): (r: Result<Scanned, Error>)
    ensures r.Ok? ==> |r.value.rest| < |t| && Paired(r.value.value)
    ensures r.Ok? ==> Utf8Bytes(r.value.value) <= if isKey then l.maxKeyBytes else l.maxStringBytes
  {
    match ScanString(t)
    case None => Err(InvalidJson)
    case Some(scanned) =>
      if !Paired(scanned.value) then Err(InvalidUnicode)
      else if Utf8Bytes(scanned.value) > (if isKey then l.maxKeyBytes else l.maxStringBytes)
      then Err(if isKey then MaxKeyBytes else MaxStringBytes)
      else Ok(scanned)
  }

  function ParseNumber(l: Limits, c: Codec, t: Text, nodes: nat): (r: Result<Parsed<Value>, Error>)
    ensures r.Ok? ==> |r.value.rest| < |t| && r.value.nodes == nodes
  {
    var n := NumberLength(t);
    if n == 0 then Err(InvalidJson)
    else if n > l.maxNumberChars then Err(MaxNumberChars)
    else if c.read(t[..n]).None? then Err(InvalidNumber)
    else Ok(Parsed(Num(c.read(t[..n]).value), t[n..], nodes))
  }

  function ParseValue(l: Limits, c: Codec, t: Text, depth: nat, nodes: nat): (r: Result<Parsed<Value>, Error>)
    ensures r.Ok? ==> |r.value.rest| < |t|
    decreases |t|, 2
  {
    var u := SkipWhitespace(t);
    if nodes + 1 > l.maxNodes then Err(MaxNodes)
    else if u == [] then Err(InvalidJson)
    else if u[0] == 0x7B then ParseObject(l, c, u[1..], depth + 1, nodes + 1)
    else if u[0] == 0x5B then ParseArray(l, c, u[1..], depth + 1, nodes + 1)
    else if u[0] == QUOTE then
      var s := ParseString(l, u[1..], false);
      if s.Err? then Err(s.error) else Ok(Parsed(Str(s.value.value), s.value.rest, nodes + 1))
    else if TRUE_TEXT <= u then Ok(Parsed(Bool(true), u[4..], nodes + 1))
    else if FALSE_TEXT <= u then Ok(Parsed(Bool(false), u[5..], nodes + 1))
    else if NULL_TEXT <= u then Ok(Parsed(Null, u[4..], nodes + 1))
    else if u[0] == 0x2D || IsDigit(u[0]) then ParseNumber(l, c, u, nodes + 1)
    else Err(InvalidJson)
  }

  function ParseObject(l: Limits, c: Codec, t: Text, depth: nat, nodes: nat): (r: Result<Parsed<Value>, Error>)
    ensures r.Ok? ==> |r.value.rest| < |t|
    decreases |t|, 1
  {
    var u := SkipWhitespace(t);
    if depth > l.maxDepth then Err(MaxDepth)
    else if u != [] && u[0] == 0x7D then Ok(Parsed(Obj([]), u[1..], nodes))
    else ParseMembers(l, c, u, depth, nodes, [])
  }

  /** A key up to and including its colon. */
  function ParseKey(l: Limits, t: Text, members: seq<Member>): (r: Result<Scanned, Error>)
    ensures r.Ok? ==> |r.value.rest| < |t|
  {
    if t == [] || t[0] != QUOTE then Err(InvalidJson)
    else
      var s := ParseString(l, t[1..], true);
      if s.Err? then s
      else if s.value.value in l.forbiddenKeys then Err(ForbiddenKey)
      else if HasKey(members, s.value.value) then Err(DuplicateKey)
      else if |members| + 1 > l.maxObjectKeys then Err(MaxObjectKeys)
      else
        var u := SkipWhitespace(s.value.rest);
        if u == [] || u[0] != 0x3A then Err(InvalidJson) else Ok(Scanned(s.value.value, u[1..]))
  }

  /** The members from a key on, behind those already read. */
  function ParseMembers(l: Limits, c: Codec, t: Text, depth: nat, nodes: nat, members: seq<Member>)
    : (r: Result<Parsed<Value>, Error>)
    ensures r.Ok? ==> |r.value.rest| < |t|
    decreases |t|, 0
  {
    var k := ParseKey(l, t, members);
    if k.Err? then Err(k.error)
    else
      var v := ParseValue(l, c, k.value.rest, depth, nodes);
      if v.Err? then v
      else
        var more := members + [Member(k.value.value, v.value.value)];
        var u := SkipWhitespace(v.value.rest);
        if u == [] then Err(InvalidJson)
        else if u[0] == 0x7D then Ok(Parsed(Obj(more), u[1..], v.value.nodes))
        else if u[0] != 0x2C then Err(InvalidJson)
        else ParseMembers(l, c, SkipWhitespace(u[1..]), depth, v.value.nodes, more)
  }

  function ParseArray(l: Limits, c: Codec, t: Text, depth: nat, nodes: nat): (r: Result<Parsed<Value>, Error>)
    ensures r.Ok? ==> |r.value.rest| < |t|
    decreases |t|, 4
  {
    var u := SkipWhitespace(t);
    if depth > l.maxDepth then Err(MaxDepth)
    else if u != [] && u[0] == 0x5D then Ok(Parsed(Arr([]), u[1..], nodes))
    else if u == [] then Err(InvalidJson)
    else ParseItems(l, c, u, depth, nodes, [])
  }

  /** The items from a value on, behind those already read. */
  function ParseItems(l: Limits, c: Codec, t: Text, depth: nat, nodes: nat, items: seq<Value>)
    : (r: Result<Parsed<Value>, Error>)
    requires t != []
    ensures r.Ok? ==> |r.value.rest| < |t|
    decreases |t|, 3
  {
    if |items| >= l.maxArrayLength then Err(MaxArrayLength)
    else
      var v := ParseValue(l, c, t, depth, nodes);
      if v.Err? then v
      else
        var more := items + [v.value.value];
        var u := SkipWhitespace(v.value.rest);
        if u == [] then Err(InvalidJson)
        else if u[0] == 0x5D then Ok(Parsed(Arr(more), u[1..], v.value.nodes))
        else if u[0] != 0x2C then Err(InvalidJson)
        else
          var next := SkipWhitespace(u[1..]);
          if next == [] then Err(InvalidJson) else ParseItems(l, c, next, depth, v.value.nodes, more)
  }

  function Parse(l: Limits, c: Codec, t: Text): Result<Value, Error> {
    if Utf8Bytes(t) > l.maxBytes then Err(MaxBytes)
    else
      var u := SkipWhitespace(t);
      if u == [] then Err(InvalidJson)
      else
        var v := ParseValue(l, c, u, 0, 0);
        if v.Err? then Err(v.error)
        else if SkipWhitespace(v.value.rest) != [] then Err(InvalidJson)
        else Ok(v.value.value)
  }

  // Limits on values

  function Nodes(v: Value): nat
    decreases v
  {
    match v
    case Arr(items) => 1 + ItemNodes(items)
    case Obj(members) => 1 + MemberNodes(members)
    case _ => 1
  }

  function ItemNodes(items: seq<Value>): nat
    decreases items
  {
    if items == [] then 0 else Nodes(items[0]) + ItemNodes(items[1..])
  }

  function MemberNodes(members: seq<Member>): nat
    decreases members
  {
    if members == [] then 0 else Nodes(members[0].value) + MemberNodes(members[1..])
  }

  ghost predicate KeyFits(l: Limits, key: Text) {
    key !in l.forbiddenKeys && WellFormed(key) && Utf8Bytes(key) <= l.maxKeyBytes
  }

  ghost predicate DistinctKeys(members: seq<Member>) {
    forall i, k :: 0 <= i < k < |members| ==> members[i].key != members[k].key
  }

  /** The value, inside `depth` enclosing values, keeps every limit but that on the length of numerals. */
  ghost predicate WithinLimits(l: Limits, v: Value, depth: nat)
    decreases v
  {
    match v
    case Str(s) => WellFormed(s) && Utf8Bytes(s) <= l.maxStringBytes
    case Arr(items) =>
      && depth + 1 <= l.maxDepth && |items| <= l.maxArrayLength
      && forall i :: 0 <= i < |items| ==> WithinLimits(l, items[i], depth + 1)
    case Obj(members) =>
      && depth + 1 <= l.maxDepth && |members| <= l.maxObjectKeys && DistinctKeys(members)
      && forall i :: 0 <= i < |members| ==>
           KeyFits(l, members[i].key) && WithinLimits(l, members[i].value, depth + 1)
    case _ => true
  }

  /** Every number in the value prints within the limit on numerals. */
  ghost predicate NumeralsFit(l: Limits, c: Codec, v: Value)
    decreases v
  {
    match v
    case Num(n) => |c.show(n)| <= l.maxNumberChars
    case Arr(items) => forall i :: 0 <= i < |items| ==> NumeralsFit(l, c, items[i])
    case Obj(members) => forall i :: 0 <= i < |members| ==> NumeralsFit(l, c, members[i].value)
    case _ => true
  }

  // Printing, then parsing

  lemma PrintedStarts(c: Codec, v: Value, k: Text)
    requires c.Valid()
    ensures Printed(c, v, k) != [] && !IsWhitespace(Printed(c, v, k)[0])
  {
    if v.Num? {
      assert NumberLength(c.show(v.n)) > 0;
    }
  }

  lemma SkipNothing(t: Text)
    requires t != [] && !IsWhitespace(t[0])
    ensures SkipWhitespace(t) == t
  {
  }

  lemma ParseQuoted(l: Limits, s: Text, k: Text, isKey: bool)
    requires WellFormed(s) && Utf8Bytes(s) <= if isKey then l.maxKeyBytes else l.maxStringBytes
    ensures QuotedThen(s, k)[0] == QUOTE && ParseString(l, QuotedThen(s, k)[1..], isKey) == Ok(Scanned(s, k))
  {
    assert QuotedThen(s, k)[1..] == Escaped(s) + ([QUOTE] + k);
    ScanEscaped(s, [QUOTE] + k);
    assert ([QUOTE] + k)[1..] == k;
    PairedIsWellFormed(s);
  }

  lemma ParseNumeral(l: Limits, c: Codec, n: nat, k: Text, nodes: nat)
    requires c.Valid() && |c.show(n)| <= l.maxNumberChars && EndsNumber(k)
    ensures ParseNumber(l, c, c.show(n) + k, nodes) == Ok(Parsed(Num(n), k, nodes))
  {
    var t := c.show(n);
    assert 0 < NumberLength(t) == |t| && c.read(t) == Some(n);
    NumberStops(t, k);
    assert (t + k)[..|t|] == t && (t + k)[|t|..] == k;
  }

  lemma NumeralStarts(c: Codec, n: nat, k: Text)
    requires c.Valid()
    ensures var t := c.show(n) + k; t != [] && (t[0] == 0x2D || IsDigit(t[0]))
  {
    assert NumberLength(c.show(n)) > 0;
  }

  // Where the first character leads

  lemma AtObject(l: Limits, c: Codec, u: Text, depth: nat, nodes: nat)
    requires u != [] && u[0] == 0x7B && nodes + 1 <= l.maxNodes
    ensures ParseValue(l, c, u, depth, nodes) == ParseObject(l, c, u[1..], depth + 1, nodes + 1)
  {
    hide ParseObject;
  }

  lemma AtArray(l: Limits, c: Codec, u: Text, depth: nat, nodes: nat)
    requires u != [] && u[0] == 0x5B && nodes + 1 <= l.maxNodes
    ensures ParseValue(l, c, u, depth, nodes) == ParseArray(l, c, u[1..], depth + 1, nodes + 1)
  {
    hide ParseArray;
  }

  lemma AtString(l: Limits, c: Codec, u: Text, depth: nat, nodes: nat)
    requires u != [] && u[0] == QUOTE && nodes + 1 <= l.maxNodes && ParseString(l, u[1..], false).Ok?
    ensures var s := ParseString(l, u[1..], false).value;
            ParseValue(l, c, u, depth, nodes) == Ok(Parsed(Str(s.value), s.rest, nodes + 1))
  {
    hide ParseString;
  }

  lemma AtNumber(l: Limits, c: Codec, u: Text, depth: nat, nodes: nat)
    requires u != [] && (u[0] == 0x2D || IsDigit(u[0])) && nodes + 1 <= l.maxNodes
    ensures ParseValue(l, c, u, depth, nodes) == ParseNumber(l, c, u, nodes + 1)
  {
    hide ParseNumber;
    assert !(TRUE_TEXT <= u) && !(FALSE_TEXT <= u) && !(NULL_TEXT <= u);
  }

  lemma AtLiteral(l: Limits, c: Codec, v: Value, k: Text, depth: nat, nodes: nat)
    requires (v.Null? || v.Bool?) && nodes + 1 <= l.maxNodes
    ensures ParseValue(l, c, Printed(c, v, k), depth, nodes) == Ok(Parsed(v, k, nodes + 1))
  {
    hide ParseObject, ParseArray, ParseNumber, ParseString;
    var u := Printed(c, v, k);
    SkipNothing(u);
    if v.Null? {
      assert NULL_TEXT <= u && u[4..] == k && u[0] == 0x6E;
      assert !(TRUE_TEXT <= u) && !(FALSE_TEXT <= u);
    } else if v.b {
      assert TRUE_TEXT <= u && u[4..] == k && u[0] == 0x74;
    } else {
      assert FALSE_TEXT <= u && u[5..] == k && u[0] == 0x66;
      assert !(TRUE_TEXT <= u);
    }
  }

  lemma ParseScalar(l: Limits, c: Codec, v: Value, k: Text, depth: nat, nodes: nat)
    requires !v.Arr? && !v.Obj? && c.Valid() && WithinLimits(l, v, depth) && NumeralsFit(l, c, v)
    requires nodes + 1 <= l.maxNodes && EndsNumber(k)
    ensures ParseValue(l, c, Printed(c, v, k), depth, nodes) == Ok(Parsed(v, k, nodes + 1))
  {
    hide ParseValue, ParseNumber, ParseString, QuotedThen, WellFormed;
    match v
    case Null => AtLiteral(l, c, v, k, depth, nodes);
    case Bool(_) => AtLiteral(l, c, v, k, depth, nodes);
    case Num(n) =>
      NumeralStarts(c, n, k);
      AtNumber(l, c, c.show(n) + k, depth, nodes);
      ParseNumeral(l, c, n, k, nodes + 1);
    case Str(s) =>
      PrintedStarts(c, v, k);
      ParseQuoted(l, s, k, false);
      AtString(l, c, QuotedThen(s, k), depth, nodes);
  }
}
