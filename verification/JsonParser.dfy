/** The strict parser as an object moving an index over its text and counting nodes, proved against the functions. */
module JsonParser {
  import opened Common
  import opened Utf8Text
  import opened JsonText
  import opened Json

  /** Skipping in two parts is skipping. */
  lemma SkipStep(t: Text)
    requires t != [] && IsWhitespace(t[0])
    ensures SkipWhitespace(t) == SkipWhitespace(t[1..])
  {
  }

  lemma SkipDone(t: Text)
    requires t == [] || !IsWhitespace(t[0])
    ensures SkipWhitespace(t) == t
  {
  }

  lemma ScanOne(t: Text, n: nat, u: CodeUnit, value: Text)
    requires n <= |t| && ScanString(t) == Extend(u, ScanString(t[n..]))
    ensures Prepend(value, ScanString(t)) == Prepend(value + [u], ScanString(t[n..]))
  {
    hide ScanString;
    if ScanString(t[n..]).Some? {
      var v := ScanString(t[n..]).value.value;
      assert value + ([u] + v) == value + [u] + v;
    }
  }

  lemma ScanNothing()
    ensures ScanString([]) == None
  {
  }

  /** How the first character of the rest of a string decides what follows. */
  lemma ScanFirst(t: Text)
    requires t != []
    ensures t[0] == QUOTE ==> ScanString(t) == Some(Scanned([], t[1..]))
    ensures t[0] < 0x20 ==> ScanString(t) == None
    ensures t[0] >= 0x20 && t[0] != QUOTE && t[0] != BACKSLASH ==> ScanString(t) == Extend(t[0], ScanString(t[1..]))
    ensures t[0] == BACKSLASH && |t| < 2 ==> ScanString(t) == None
  {
    hide HexUnit, Unescaped;
  }

  lemma ScanEscape(t: Text)
    requires |t| >= 2 && t[0] == BACKSLASH
    ensures t[1] != 0x75 ==>
              ScanString(t) == if Unescaped(t[1]).None? then None else Extend(Unescaped(t[1]).value, ScanString(t[2..]))
    ensures t[1] == 0x75 && |t| < 6 ==> ScanString(t) == None
    ensures t[1] == 0x75 && |t| >= 6 ==>
              ScanString(t) == if HexUnit(t[2..6]).None? then None
                               else Extend(HexUnit(t[2..6]).value, ScanString(t[6..]))
  {
    hide HexUnit, Unescaped;
  }

  lemma PrependNothing(r: Option<Scanned>)
    ensures Prepend([], r) == r
  {
    if r.Some? {
      assert [] + r.value.value == r.value.value;
    }
  }

  class StrictJsonParser {
    const text: Text
    const limits: Limits
    const codec: Codec
    var index: nat
    var nodes: nat

    constructor (text: Text, limits: Limits, codec: Codec)
      ensures this.text == text && this.limits == limits && this.codec == codec && index == 0 && nodes == 0
    {
      this.text, this.limits, this.codec := text, limits, codec;
      index, nodes := 0, 0;
    }

    function Rest(): Text
      requires index <= |text|
      reads this
    {
      text[index..]
    }

    /** The object stands where the functional parser stands after this outcome. */
    ghost predicate Agrees(r: Result<Value, Error>, spec: Result<Parsed<Value>, Error>)
      reads this
    {
      match spec
      case Err(e) => r == Err(e)
      case Ok(p) => r == Ok(p.value) && index <= |text| && Rest() == p.rest && nodes == p.nodes
    }

    method SkipSpaces()
      requires index <= |text|
      modifies this`index
      ensures old(index) <= index <= |text| && Rest() == SkipWhitespace(old(Rest()))
    {
      hide SkipWhitespace;
      while index < |text| && IsWhitespace(text[index])
        invariant old(index) <= index <= |text|
        invariant SkipWhitespace(text[index..]) == SkipWhitespace(old(Rest()))
      {
        SkipStep(text[index..]);
        assert text[index..][1..] == text[index + 1..];
        index := index + 1;
      }
      SkipDone(text[index..]);
    }

    /** The check for well-formed Unicode. */
    method IsWellFormed(value: Text) returns (ok: bool)
      ensures ok == WellFormed(value)
    {
      PairedIsWellFormed(value);
      var i := 0;
      while i < |value|
        invariant 0 <= i <= |value| && Paired(value) == Paired(value[i..])
      {
        if High(value[i]) {
          if i + 1 >= |value| || !Low(value[i + 1]) { return false; }
          assert value[i..][2..] == value[i + 2..];
          i := i + 2;
        } else if Low(value[i]) {
          return false;
        } else {
          assert value[i..][1..] == value[i + 1..];
          i := i + 1;
        }
      }
      assert value[i..] == [];
      ok := true;
    }

    /** The characters of a string, from behind the opening quote to behind the closing one. */
    method ScanCharacters() returns (r: Option<Text>)
      requires index <= |text|
      modifies this`index
      ensures var spec := ScanString(old(Rest()));
              if r.None? then spec.None?
              else old(index) < index <= |text| && spec == Some(Scanned(r.value, Rest()))
    {
      hide ScanString, HexUnit, Unescaped;
      var value: Text := [];
      ghost var spec := ScanString(Rest());
      PrependNothing(spec);
      while index < |text|
        invariant old(index) <= index <= |text|
        invariant Prepend(value, ScanString(Rest())) == spec
      {
        var c := text[index];
        ghost var t := Rest();
        ScanFirst(t);
        if c == BACKSLASH && index + 1 < |text| {
          ScanEscape(t);
        }
        if c == QUOTE {
          index := index + 1;
          assert t[1..] == Rest();
          assert value + [] == value;
          return Some(value);
        }
        if c < 0x20 { return None; }
        if c != BACKSLASH {
          ScanOne(t, 1, c, value);
          assert t[1..] == text[index + 1..];
          value, index := value + [c], index + 1;
        } else if index + 1 >= |text| {
          return None;
        } else if text[index + 1] == 0x75 {
          if |text| < index + 6 || HexUnit(text[index + 2..index + 6]).None? {
            assert |t| >= 6 ==> t[2..6] == text[index + 2..index + 6];
            return None;
          }
          assert t[2..6] == text[index + 2..index + 6] && t[6..] == text[index + 6..];
          var u := HexUnit(text[index + 2..index + 6]).value;
          ScanOne(t, 6, u, value);
          value, index := value + [u], index + 6;
        } else {
          var u := Unescaped(text[index + 1]);
          if u.None? { return None; }
          ScanOne(t, 2, u.value, value);
          assert t[2..] == text[index + 2..];
          value, index := value + [u.value], index + 2;
        }
      }
      assert Rest() == [];
      ScanNothing();
      r := None;
    }

    /** A string or key at the opening quote. */
    method ParseStringHere(isKey: bool) returns (r: Result<Text, Error>)
      requires index < |text| && text[index] == QUOTE
      modifies this`index
      ensures var spec := ParseString(limits, old(Rest())[1..], isKey);
              if spec.Err? then r == Err(spec.error)
              else r == Ok(spec.value.value) && old(index) < index <= |text| && Rest() == spec.value.rest
    {
      ghost var t := Rest();
      index := index + 1;
      assert Rest() == t[1..];
      var scanned := ScanCharacters();
      if scanned.None? { return Err(InvalidJson); }
      var ok := IsWellFormed(scanned.value);
      PairedIsWellFormed(scanned.value);
      if !ok { return Err(InvalidUnicode); }
      var limit := if isKey then limits.maxKeyBytes else limits.maxStringBytes;
      if Utf8Bytes(scanned.value) > limit { return Err(if isKey then MaxKeyBytes else MaxStringBytes); }
      r := Ok(scanned.value);
    }

    method ParseNumberHere() returns (r: Result<Value, Error>)
      requires index <= |text|
      modifies this`index
      ensures Agrees(r, ParseNumber(limits, codec, old(Rest()), nodes))
      ensures r.Ok? ==> old(index) < index
    {
      var t := Rest();
      var n := NumberLength(t);
      if n == 0 { return Err(InvalidJson); }
      if n > limits.maxNumberChars { return Err(MaxNumberChars); }
      var value := codec.read(t[..n]);
      if value.None? { return Err(InvalidNumber); }
      assert t[n..] == text[index + n..];
      index := index + n;
      r := Ok(Num(value.value));
    }

    method ParseValueHere(depth: nat) returns (r: Result<Value, Error>)
      requires index <= |text|
      modifies this`index, this`nodes
      ensures Agrees(r, ParseValue(limits, codec, old(Rest()), depth, old(nodes)))
      ensures r.Ok? ==> old(index) < index
      decreases |text| - index, 5
    {
      hide ParseObject, ParseArray, ParseNumber, ParseString, SkipWhitespace;
      SkipSpaces();
      nodes := nodes + 1;
      if nodes > limits.maxNodes { return Err(MaxNodes); }
      if index == |text| { return Err(InvalidJson); }
      ghost var u := Rest();
      if text[index] == 0x7B {
        r := ParseObjectHere(depth + 1);
      } else if text[index] == 0x5B {
        r := ParseArrayHere(depth + 1);
      } else if text[index] == QUOTE {
        var s := ParseStringHere(false);
        r := if s.Err? then Err(s.error) else Ok(Str(s.value));
      } else if TRUE_TEXT <= text[index..] {
        assert u[4..] == text[index + 4..];
        index := index + 4;
        r := Ok(Bool(true));
      } else if FALSE_TEXT <= text[index..] {
        assert u[5..] == text[index + 5..];
        index := index + 5;
        r := Ok(Bool(false));
      } else if NULL_TEXT <= text[index..] {
        assert u[4..] == text[index + 4..];
        index := index + 4;
        r := Ok(Null);
      } else if text[index] == 0x2D || IsDigit(text[index]) {
        r := ParseNumberHere();
      } else {
        r := Err(InvalidJson);
      }
    }

    /** An object at its opening brace. */
    method ParseObjectHere(depth: nat) returns (r: Result<Value, Error>)
      requires index < |text|
      modifies this`index, this`nodes
      ensures Agrees(r, ParseObject(limits, codec, old(Rest())[1..], depth, old(nodes)))
      ensures r.Ok? ==> old(index) < index
      decreases |text| - index, 4
    {
      hide ParseMembers, ParseValue, ParseKey, SkipWhitespace;
      if depth > limits.maxDepth { return Err(MaxDepth); }
      ghost var start := Rest();
      index := index + 1;
      assert Rest() == start[1..];
      SkipSpaces();
      ghost var u := Rest();
      if index < |text| && text[index] == 0x7D {
        assert u[1..] == text[index + 1..];
        index := index + 1;
        return Ok(Obj([]));
      }
      r := ParseMembersHere(depth);
    }

    /** The loop over members, from the first key on. */
    method ParseMembersHere(depth: nat) returns (r: Result<Value, Error>)
      requires index <= |text|
      modifies this`index, this`nodes
      ensures Agrees(r, ParseMembers(limits, codec, old(Rest()), depth, old(nodes), []))
      ensures r.Ok? ==> old(index) < index
      decreases |text| - index, 3
    {
      hide ParseMembers, ParseValue, ParseKey, SkipWhitespace;
      var members: seq<Member> := [];
      ghost var spec := ParseMembers(limits, codec, Rest(), depth, nodes, []);
      while true
        invariant old(index) <= index <= |text|
        invariant ParseMembers(limits, codec, Rest(), depth, nodes, members) == spec
        decreases |text| - index
      {
        ghost var t, counted := Rest(), nodes;
        var key := ParseKeyHere(members);
        if key.Err? { MembersKeyFails(limits, codec, t, depth, counted, members); return Err(key.error); }
        MembersStep(limits, codec, t, depth, counted, members, Scanned(key.value, Rest()));
        var value := ParseValueHere(depth);
        if value.Err? { return value; }
        members := members + [Member(key.value, value.value)];
        SkipSpaces();
        if index == |text| { return Err(InvalidJson); }
        assert text[index..][1..] == text[index + 1..];
        if text[index] == 0x7D {
          index := index + 1;
          return Ok(Obj(members));
        }
        if text[index] != 0x2C { return Err(InvalidJson); }
        index := index + 1;
        SkipSpaces();
      }
    }

    method ParseKeyHere(members: seq<Member>) returns (r: Result<Text, Error>)
      requires index <= |text|
      modifies this`index
      ensures var spec := ParseKey(limits, old(Rest()), members);
              if spec.Err? then r == Err(spec.error)
              else r == Ok(spec.value.value) && old(index) < index <= |text| && Rest() == spec.value.rest
    {
      hide ParseString, SkipWhitespace;
      if index == |text| || text[index] != QUOTE { return Err(InvalidJson); }
      r := ParseStringHere(true);
      if r.Err? { return; }
      if r.value in limits.forbiddenKeys { return Err(ForbiddenKey); }
      if HasKey(members, r.value) { return Err(DuplicateKey); }
      if |members| + 1 > limits.maxObjectKeys { return Err(MaxObjectKeys); }
      SkipSpaces();
      if index == |text| || text[index] != 0x3A { return Err(InvalidJson); }
      ghost var u := Rest();
      assert u[1..] == text[index + 1..];
      index := index + 1;
    }

    /** An array at its opening bracket. */
    method ParseArrayHere(depth: nat) returns (r: Result<Value, Error>)
      requires index < |text|
      modifies this`index, this`nodes
      ensures Agrees(r, ParseArray(limits, codec, old(Rest())[1..], depth, old(nodes)))
      ensures r.Ok? ==> old(index) < index
      decreases |text| - index, 4
    {
      hide ParseItems, ParseValue, SkipWhitespace;
      if depth > limits.maxDepth { return Err(MaxDepth); }
      ghost var start := Rest();
      index := index + 1;
      assert Rest() == start[1..];
      SkipSpaces();
      ghost var u := Rest();
      if index < |text| && text[index] == 0x5D {
        assert u[1..] == text[index + 1..];
        index := index + 1;
        return Ok(Arr([]));
      }
      if index == |text| { return Err(InvalidJson); }
      r := ParseItemsHere(depth);
    }

    /** The loop over items, from the first value on. */
    method ParseItemsHere(depth: nat) returns (r: Result<Value, Error>)
      requires index < |text|
      modifies this`index, this`nodes
      ensures Agrees(r, ParseItems(limits, codec, old(Rest()), depth, old(nodes), []))
      ensures r.Ok? ==> old(index) < index
      decreases |text| - index, 6
    {
      hide ParseItems, ParseValue, SkipWhitespace;
      var items: seq<Value> := [];
      ghost var spec := ParseItems(limits, codec, Rest(), depth, nodes, []);
      while true
        invariant old(index) <= index < |text|
        invariant ParseItems(limits, codec, Rest(), depth, nodes, items) == spec
        decreases |text| - index
      {
        ItemsStep(limits, codec, Rest(), depth, nodes, items);
        if |items| >= limits.maxArrayLength { return Err(MaxArrayLength); }
        var value := ParseValueHere(depth);
        if value.Err? { return value; }
        items := items + [value.value];
        SkipSpaces();
        if index == |text| { return Err(InvalidJson); }
        assert text[index..][1..] == text[index + 1..];
        if text[index] == 0x5D {
          index := index + 1;
          return Ok(Arr(items));
        }
        if text[index] != 0x2C { return Err(InvalidJson); }
        index := index + 1;
        SkipSpaces();
        if index == |text| { return Err(InvalidJson); }
      }
    }

    /** The whole text. */
    method ParseText() returns (r: Result<Value, Error>)
      requires index == 0 && nodes == 0
      modifies this
      ensures r == Parse(limits, codec, text)
    {
      hide ParseValue, SkipWhitespace, Utf8Bytes;
      assert Rest() == text;
      if Utf8Bytes(text) > limits.maxBytes { return Err(MaxBytes); }
      SkipSpaces();
      if index == |text| { return Err(InvalidJson); }
      r := ParseValueHere(0);
      if r.Err? { return; }
      SkipSpaces();
      if index != |text| { return Err(InvalidJson); }
    }
  }

  /** What one turn of the member loop decides, given how its key was read. */
  lemma MembersStep(l: Limits, c: Codec, t: Text, depth: nat, nodes: nat, members: seq<Member>, key: Scanned)
    requires ParseKey(l, t, members) == Ok(key)
    ensures var v := ParseValue(l, c, key.rest, depth, nodes);
            var r := ParseMembers(l, c, t, depth, nodes, members);
            && (v.Err? ==> r == v)
            && (v.Ok? ==>
                  var more := members + [Member(key.value, v.value.value)];
                  var u := SkipWhitespace(v.value.rest);
                  && (u == [] ==> r == Err(InvalidJson))
                  && (u != [] && u[0] == 0x7D ==> r == Ok(Parsed(Obj(more), u[1..], v.value.nodes)))
                  && (u != [] && u[0] != 0x7D && u[0] != 0x2C ==> r == Err(InvalidJson))
                  && (u != [] && u[0] == 0x2C ==>
                        r == ParseMembers(l, c, SkipWhitespace(u[1..]), depth, v.value.nodes, more)))
  {
    hide ParseValue, ParseKey, SkipWhitespace;
  }

  lemma MembersKeyFails(l: Limits, c: Codec, t: Text, depth: nat, nodes: nat, members: seq<Member>)
    requires ParseKey(l, t, members).Err?
    ensures ParseMembers(l, c, t, depth, nodes, members) == Err(ParseKey(l, t, members).error)
  {
    hide ParseKey;
  }

  /** What one turn of the item loop decides. */
  lemma ItemsStep(l: Limits, c: Codec, t: Text, depth: nat, nodes: nat, items: seq<Value>)
    requires t != []
    ensures var v := ParseValue(l, c, t, depth, nodes);
            var r := ParseItems(l, c, t, depth, nodes, items);
            && (|items| >= l.maxArrayLength ==> r == Err(MaxArrayLength))
            && (|items| < l.maxArrayLength && v.Err? ==> r == v)
            && (|items| < l.maxArrayLength && v.Ok? ==>
                  var more := items + [v.value.value];
                  var u := SkipWhitespace(v.value.rest);
                  && (u == [] ==> r == Err(InvalidJson))
                  && (u != [] && u[0] == 0x5D ==> r == Ok(Parsed(Arr(more), u[1..], v.value.nodes)))
                  && (u != [] && u[0] != 0x5D && u[0] != 0x2C ==> r == Err(InvalidJson))
                  && (u != [] && u[0] == 0x2C && SkipWhitespace(u[1..]) == [] ==> r == Err(InvalidJson))
                  && (u != [] && u[0] == 0x2C && SkipWhitespace(u[1..]) != [] ==>
                        r == ParseItems(l, c, SkipWhitespace(u[1..]), depth, v.value.nodes, more)))
  {
    hide ParseValue, SkipWhitespace;
  }
}
