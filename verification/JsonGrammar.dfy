/** The grammar of JSON text by its productions (sections 2 to 7 of RFC 8259), and the value a derivation denotes. */
module JsonGrammar {
  import opened Common
  import opened Utf8Text
  import opened Json

  // Whitespace, section 2

  predicate Blank(t: Text) {
    forall i :: 0 <= i < |t| ==> t[i] in {0x20, 0x09, 0x0A, 0x0D}
  }

  // Numbers, section 6

  predicate Digits(t: Text) {
    |t| >= 1 && forall i :: 0 <= i < |t| ==> 0x30 <= t[i] <= 0x39
  }

  predicate Minus(t: Text) {
    t == [] || t == [0x2D]
  }

  /** A zero, or digits that do not begin with one. */
  predicate Whole(t: Text) {
    t == [0x30] || (Digits(t) && t[0] != 0x30)
  }

  predicate Fraction(t: Text) {
    t == [] || (t[0] == 0x2E && Digits(t[1..]))
  }

  predicate Exponent(t: Text) {
    t == [] || (t[0] in {0x65, 0x45} && (Digits(t[1..]) || (|t| >= 2 && t[1] in {0x2B, 0x2D} && Digits(t[2..]))))
  }

  ghost predicate IsNumeral(t: Text) {
    exists minus, whole, fraction, exponent ::
      Minus(minus) && Whole(whole) && Fraction(fraction) && Exponent(exponent)
      && t == minus + whole + fraction + exponent
  }

  // Strings, section 7

  datatype Char =
    | Plain(unit: CodeUnit)
    | Short(letter: CodeUnit)
    | Hex(a: CodeUnit, b: CodeUnit, c: CodeUnit, d: CodeUnit)

  function HexNumber(c: CodeUnit): Option<nat> {
    if 0x30 <= c <= 0x39 then Some(c - 0x30)
    else if 0x41 <= c <= 0x46 then Some(c - 0x37)
    else if 0x61 <= c <= 0x66 then Some(c - 0x57)
    else None
  }

  /** The unit a character of a string stands for, if it is one. */
  function UnitOf(ch: Char): Option<CodeUnit> {
    match ch
    case Plain(u) => if u < 0x20 || u == 0x22 || u == 0x5C then None else Some(u)
    case Short(letter) =>
      if letter == 0x22 || letter == 0x5C || letter == 0x2F then Some(letter)
      else if letter == 0x62 then Some(0x08)
      else if letter == 0x66 then Some(0x0C)
      else if letter == 0x6E then Some(0x0A)
      else if letter == 0x72 then Some(0x0D)
      else if letter == 0x74 then Some(0x09)
      else None
    case Hex(a, b, c, d) =>
      var i, j, m, n := HexNumber(a), HexNumber(b), HexNumber(c), HexNumber(d);
      if i.None? || j.None? || m.None? || n.None? then None
      else Some(4096 * i.value + 256 * j.value + 16 * m.value + n.value)
  }

  function CharText(ch: Char): Text {
    match ch
    case Plain(u) => [u]
    case Short(letter) => [0x5C, letter]
    case Hex(a, b, c, d) => [0x5C, 0x75, a, b, c, d]
  }

  /** The characters followed by `k`. */
  function CharsText(chars: seq<Char>, k: Text): Text {
    if chars == [] then k else CharText(chars[0]) + CharsText(chars[1..], k)
  }

  /** The characters stand for the units of the string. */
  predicate CharsAre(chars: seq<Char>, s: Text) {
    |chars| == |s| && forall i :: 0 <= i < |s| ==> UnitOf(chars[i]) == Some(s[i])
  }

  /** A string in quotation marks, followed by `k`. */
  function StringText(chars: seq<Char>, k: Text): Text {
    [0x22] + CharsText(chars, [0x22] + k)
  }

  // Values, sections 3 to 5

  datatype Tree =
    | Word(word: Value)
    | Numeral(text: Text)
    | Quoted(chars: seq<Char>)
    | Array(blank: Text, elements: seq<Element>)
    | Object(blank: Text, entries: seq<Entry>)

  datatype Element = Element(before: Text, tree: Tree, after: Text)

  datatype Entry = Entry(before: Text, name: seq<Char>, gap: Text, lead: Text, tree: Tree, after: Text)

  function WordText(word: Value): Text {
    match word
    case Null => [0x6E, 0x75, 0x6C, 0x6C]
    case Bool(true) => [0x74, 0x72, 0x75, 0x65]
    case Bool(false) => [0x66, 0x61, 0x6C, 0x73, 0x65]
    case _ => []
  }

  /** The text of a derivation, followed by `k`. */
  function TreeText(tree: Tree, k: Text): Text
    decreases tree
  {
    match tree
    case Word(word) => WordText(word) + k
    case Numeral(text) => text + k
    case Quoted(chars) => StringText(chars, k)
    case Array(blank, elements) =>
      [0x5B] + if elements == [] then blank + ([0x5D] + k) else ElementsText(elements, [0x5D] + k)
    case Object(blank, entries) =>
      [0x7B] + if entries == [] then blank + ([0x7D] + k) else EntriesText(entries, [0x7D] + k)
  }

  /** Elements separated by commas, followed by `k`. */
  function ElementsText(elements: seq<Element>, k: Text): Text
    requires elements != []
    decreases elements
  {
    var e := elements[0];
    e.before + TreeText(e.tree, e.after + if |elements| == 1 then k else [0x2C] + ElementsText(elements[1..], k))
  }

  function EntriesText(entries: seq<Entry>, k: Text): Text
    requires entries != []
    decreases entries
  {
    var e := entries[0];
    var tail := e.after + if |entries| == 1 then k else [0x2C] + EntriesText(entries[1..], k);
    e.before + StringText(e.name, e.gap + ([0x3A] + (e.lead + TreeText(e.tree, tail))))
  }

  /** The derivation follows the grammar, its numerals have at most `max` characters, and it denotes the value. */
  ghost predicate Derives(c: Codec, max: nat, tree: Tree, v: Value)
    decreases tree
  {
    match tree
    case Word(word) => word == v && (v.Null? || v.Bool?)
    case Numeral(text) => IsNumeral(text) && |text| <= max && v.Num? && c.read(text) == Some(v.n)
    case Quoted(chars) => v.Str? && CharsAre(chars, v.s)
    case Array(blank, elements) => v.Arr? && Blank(blank) && DerivesItems(c, max, elements, v.items)
    case Object(blank, entries) => v.Obj? && Blank(blank) && DerivesMembers(c, max, entries, v.members)
  }

  ghost predicate DerivesItems(c: Codec, max: nat, elements: seq<Element>, items: seq<Value>)
    decreases elements
  {
    if elements == [] || items == [] then elements == [] && items == []
    else
      && Blank(elements[0].before) && Blank(elements[0].after) && Derives(c, max, elements[0].tree, items[0])
      && DerivesItems(c, max, elements[1..], items[1..])
  }

  ghost predicate DerivesMembers(c: Codec, max: nat, entries: seq<Entry>, members: seq<Member>)
    decreases entries
  {
    if entries == [] || members == [] then entries == [] && members == []
    else
      && EntryBlank(entries[0]) && CharsAre(entries[0].name, members[0].key)
      && Derives(c, max, entries[0].tree, members[0].value)
      && DerivesMembers(c, max, entries[1..], members[1..])
  }

  predicate EntryBlank(e: Entry) {
    Blank(e.before) && Blank(e.gap) && Blank(e.lead) && Blank(e.after)
  }

  /** The text is a JSON text for the value, with numerals of at most `max` characters. */
  ghost predicate Denotes(c: Codec, max: nat, t: Text, v: Value) {
    exists before, tree, after ::
      Blank(before) && Blank(after) && Derives(c, max, tree, v) && t == before + TreeText(tree, after)
  }
}
