/** The strict parser against the printer: what is printed is read back, and what is read keeps every limit. */
module JsonRoundTrip {
  import opened Common
  import opened Utf8Text
  import opened JsonText
  import opened Json

  // One step of each loop

  lemma LastItem(l: Limits, c: Codec, t: Text, depth: nat, nodes: nat, items: seq<Value>, v: Parsed<Value>, k: Text)
    requires t != [] && |items| < l.maxArrayLength && ParseValue(l, c, t, depth, nodes) == Ok(v) && v.rest == [0x5D] + k
    ensures ParseItems(l, c, t, depth, nodes, items) == Ok(Parsed(Arr(items + [v.value]), k, v.nodes))
  {
    hide ParseValue;
    SkipNothing(v.rest);
    assert v.rest[1..] == k;
  }

  lemma MoreItems(l: Limits, c: Codec, t: Text, depth: nat, nodes: nat, items: seq<Value>, v: Parsed<Value>, k: Text)
    requires t != [] && |items| < l.maxArrayLength && ParseValue(l, c, t, depth, nodes) == Ok(v) && v.rest == [0x2C] + k
    requires k != [] && !IsWhitespace(k[0])
    ensures ParseItems(l, c, t, depth, nodes, items) == ParseItems(l, c, k, depth, v.nodes, items + [v.value])
  {
    hide ParseValue;
    SkipNothing(v.rest);
    assert v.rest[1..] == k;
    SkipNothing(k);
  }

  lemma LastMember(l: Limits, c: Codec, t: Text, depth: nat, nodes: nat, members: seq<Member>, key: Scanned,
                   v: Parsed<Value>, k: Text)
    requires ParseKey(l, t, members) == Ok(key) && ParseValue(l, c, key.rest, depth, nodes) == Ok(v)
    requires v.rest == [0x7D] + k
    ensures ParseMembers(l, c, t, depth, nodes, members) ==
            Ok(Parsed(Obj(members + [Member(key.value, v.value)]), k, v.nodes))
  {
    hide ParseValue, ParseKey;
    SkipNothing(v.rest);
    assert v.rest[1..] == k;
  }

  lemma MoreMembers(l: Limits, c: Codec, t: Text, depth: nat, nodes: nat, members: seq<Member>, key: Scanned,
                    v: Parsed<Value>, k: Text)
    requires ParseKey(l, t, members) == Ok(key) && ParseValue(l, c, key.rest, depth, nodes) == Ok(v)
    requires v.rest == [0x2C] + k && k != [] && !IsWhitespace(k[0])
    ensures ParseMembers(l, c, t, depth, nodes, members) ==
            ParseMembers(l, c, k, depth, v.nodes, members + [Member(key.value, v.value)])
  {
    hide ParseValue, ParseKey;
    SkipNothing(v.rest);
    assert v.rest[1..] == k;
    SkipNothing(k);
  }

  lemma ParsePrintedKey(l: Limits, key: Text, k: Text, members: seq<Member>)
    requires KeyFits(l, key) && !HasKey(members, key) && |members| < l.maxObjectKeys
    ensures ParseKey(l, QuotedThen(key, [0x3A] + k), members) == Ok(Scanned(key, k))
  {
    hide ParseString;
    ParseQuoted(l, key, [0x3A] + k, true);
    SkipNothing([0x3A] + k);
    assert ([0x3A] + k)[1..] == k;
  }

  // Printed collections

  ghost predicate Printable(l: Limits, c: Codec, v: Value, depth: nat) {
    WithinLimits(l, v, depth) && NumeralsFit(l, c, v)
  }

  lemma {:induction false} ParsePrinted(l: Limits, c: Codec, v: Value, k: Text, depth: nat, nodes: nat)
    requires c.Valid() && Printable(l, c, v, depth) && nodes + Nodes(v) <= l.maxNodes && EndsNumber(k)
    ensures ParseValue(l, c, Printed(c, v, k), depth, nodes) == Ok(Parsed(v, k, nodes + Nodes(v)))
    decreases v
  {
    hide ParseValue, c.Valid;
    if v.Arr? {
      ParsePrintedArray(l, c, v.items, k, depth, nodes);
    } else if v.Obj? {
      ParsePrintedObject(l, c, v.members, k, depth, nodes);
    } else {
      ParseScalar(l, c, v, k, depth, nodes);
    }
  }

  lemma {:induction false} ParsePrintedArray(l: Limits, c: Codec, items: seq<Value>, k: Text, depth: nat, nodes: nat)
    requires c.Valid() && Printable(l, c, Arr(items), depth) && nodes + 1 + ItemNodes(items) <= l.maxNodes
    ensures ParseValue(l, c, Printed(c, Arr(items), k), depth, nodes) ==
            Ok(Parsed(Arr(items), k, nodes + 1 + ItemNodes(items)))
    decreases items, 1
  {
    hide ParseValue, ParseItems, PrintedItems, ItemNodes;
    var t := PrintedItems(c, items, [0x5D] + k);
    AtArray(l, c, [0x5B] + t, depth, nodes);
    assert ([0x5B] + t)[1..] == t;
    if items == [] {
      NoItems(c, [0x5D] + k);
      SkipNothing(t);
      assert t[1..] == k;
    } else {
      ItemsStart(c, items, [0x5D] + k);
      SkipNothing(t);
      ParsePrintedItems(l, c, items, k, depth + 1, nodes + 1, []);
      assert [] + items == items;
    }
  }

  lemma NoItems(c: Codec, k: Text)
    ensures PrintedItems(c, [], k) == k && ItemNodes([]) == 0
  {
  }

  lemma ItemsStart(c: Codec, items: seq<Value>, k: Text)
    requires c.Valid() && items != []
    ensures var t := PrintedItems(c, items, k); t != [] && !IsWhitespace(t[0]) && t[0] != 0x5D
  {
    var tail := if |items| == 1 then k else [0x2C] + PrintedItems(c, items[1..], k);
    PrintedStarts(c, items[0], tail);
    if items[0].Num? {
      NumeralStarts(c, items[0].n, tail);
    }
  }

  lemma {:induction false} ParsePrintedItems(l: Limits, c: Codec, items: seq<Value>, k: Text, depth: nat, nodes: nat,
                                             done: seq<Value>)
    requires c.Valid() && items != [] && nodes + ItemNodes(items) <= l.maxNodes
    requires |done| + |items| <= l.maxArrayLength
    requires forall i :: 0 <= i < |items| ==> Printable(l, c, items[i], depth)
    ensures PrintedItems(c, items, [0x5D] + k) != []
    ensures ParseItems(l, c, PrintedItems(c, items, [0x5D] + k), depth, nodes, done) ==
            Ok(Parsed(Arr(done + items), k, nodes + ItemNodes(items)))
    decreases items, 0
  {
    hide ParseValue, ParseItems, Printed, Nodes, Printable, c.Valid;
    var t := PrintedItems(c, items, [0x5D] + k);
    ItemsStart(c, items, [0x5D] + k);
    if |items| == 1 {
      ParsePrinted(l, c, items[0], [0x5D] + k, depth, nodes);
      LastItem(l, c, t, depth, nodes, done, Parsed(items[0], [0x5D] + k, nodes + Nodes(items[0])), k);
      assert items == [items[0]] && items[1..] == [];
    } else {
      var tail := PrintedItems(c, items[1..], [0x5D] + k);
      ItemsStart(c, items[1..], [0x5D] + k);
      ParsePrinted(l, c, items[0], [0x2C] + tail, depth, nodes);
      MoreItems(l, c, t, depth, nodes, done, Parsed(items[0], [0x2C] + tail, nodes + Nodes(items[0])), tail);
      ParsePrintedItems(l, c, items[1..], k, depth, nodes + Nodes(items[0]), done + [items[0]]);
      assert done + [items[0]] + items[1..] == done + items;
    }
  }

  lemma {:induction false} ParsePrintedObject(l: Limits, c: Codec, members: seq<Member>, k: Text, depth: nat,
                                              nodes: nat)
    requires c.Valid() && Printable(l, c, Obj(members), depth) && nodes + 1 + MemberNodes(members) <= l.maxNodes
    ensures ParseValue(l, c, Printed(c, Obj(members), k), depth, nodes) ==
            Ok(Parsed(Obj(members), k, nodes + 1 + MemberNodes(members)))
    decreases members, 1
  {
    hide ParseValue, ParseMembers, PrintedMembers, MemberNodes;
    var t := PrintedMembers(c, members, [0x7D] + k);
    AtObject(l, c, [0x7B] + t, depth, nodes);
    assert ([0x7B] + t)[1..] == t;
    if members == [] {
      NoMembers(c, [0x7D] + k);
      SkipNothing(t);
      assert t[1..] == k;
    } else {
      MembersStart(c, members, [0x7D] + k);
      SkipNothing(t);
      ParsePrintedMembers(l, c, members, k, depth + 1, nodes + 1, []);
      assert [] + members == members;
    }
  }

  lemma NoMembers(c: Codec, k: Text)
    ensures PrintedMembers(c, [], k) == k && MemberNodes([]) == 0
  {
  }

  lemma MembersStart(c: Codec, members: seq<Member>, k: Text)
    requires members != []
    ensures var t := PrintedMembers(c, members, k); t != [] && t[0] == QUOTE
  {
  }

  lemma {:induction false} ParsePrintedMembers(l: Limits, c: Codec, members: seq<Member>, k: Text, depth: nat,
                                               nodes: nat, done: seq<Member>)
    requires c.Valid() && members != [] && nodes + MemberNodes(members) <= l.maxNodes
    requires |done| + |members| <= l.maxObjectKeys && DistinctKeys(done + members)
    requires forall i :: 0 <= i < |members| ==>
               KeyFits(l, members[i].key) && Printable(l, c, members[i].value, depth)
    ensures ParseMembers(l, c, PrintedMembers(c, members, [0x7D] + k), depth, nodes, done) ==
            Ok(Parsed(Obj(done + members), k, nodes + MemberNodes(members)))
    decreases members, 0
  {
    hide ParseValue, ParseMembers, ParseKey, Printed, QuotedThen, Nodes, Printable, KeyFits, c.Valid;
    var t := PrintedMembers(c, members, [0x7D] + k);
    var m := members[0];
    FreshKey(done, members);
    if |members| == 1 {
      var text := Printed(c, m.value, [0x7D] + k);
      ParsePrintedKey(l, m.key, text, done);
      ParsePrinted(l, c, m.value, [0x7D] + k, depth, nodes);
      LastMember(l, c, t, depth, nodes, done, Scanned(m.key, text),
                 Parsed(m.value, [0x7D] + k, nodes + Nodes(m.value)), k);
      assert members == [m] && members[1..] == [];
    } else {
      var tail := PrintedMembers(c, members[1..], [0x7D] + k);
      var text := Printed(c, m.value, [0x2C] + tail);
      MembersStart(c, members[1..], [0x7D] + k);
      ParsePrintedKey(l, m.key, text, done);
      ParsePrinted(l, c, m.value, [0x2C] + tail, depth, nodes);
      MoreMembers(l, c, t, depth, nodes, done, Scanned(m.key, text),
                  Parsed(m.value, [0x2C] + tail, nodes + Nodes(m.value)), tail);
      assert done + [m] + members[1..] == done + members;
      ParsePrintedMembers(l, c, members[1..], k, depth, nodes + Nodes(m.value), done + [m]);
    }
  }

  lemma FreshKey(done: seq<Member>, members: seq<Member>)
    requires members != [] && DistinctKeys(done + members)
    ensures !HasKey(done, members[0].key)
  {
    forall i | 0 <= i < |done| ensures done[i].key != members[0].key {
      assert (done + members)[i] == done[i] && (done + members)[|done|] == members[0];
    }
  }

  /** The strict parser reads back every printed value that keeps the limits. */
  lemma PrintThenParse(l: Limits, c: Codec, v: Value)
    requires c.Valid() && Printable(l, c, v, 0) && Nodes(v) <= l.maxNodes && Utf8Bytes(Print(c, v)) <= l.maxBytes
    ensures Parse(l, c, Print(c, v)) == Ok(v)
  {
    hide ParseValue, Printable, Utf8Bytes;
    ParsePrinted(l, c, v, [], 0, 0);
    PrintedStarts(c, v, []);
    SkipNothing(Print(c, v));
  }

  // What the parser returns keeps the limits

  lemma {:induction false} ItemNodesSnoc(items: seq<Value>, v: Value)
    ensures ItemNodes(items + [v]) == ItemNodes(items) + Nodes(v)
    decreases |items|
  {
    if items == [] {
      assert items + [v] == [v] && [v][1..] == [];
    } else {
      assert (items + [v])[1..] == items[1..] + [v];
      ItemNodesSnoc(items[1..], v);
    }
  }

  lemma {:induction false} MemberNodesSnoc(members: seq<Member>, m: Member)
    ensures MemberNodes(members + [m]) == MemberNodes(members) + Nodes(m.value)
    decreases |members|
  {
    if members == [] {
      assert members + [m] == [m] && [m][1..] == [];
    } else {
      assert (members + [m])[1..] == members[1..] + [m];
      MemberNodesSnoc(members[1..], m);
    }
  }

  /** The value keeps the limits, its keys differ, and its nodes are those counted since `nodes`. */
  ghost predicate Obeys(l: Limits, r: Result<Parsed<Value>, Error>, depth: nat, nodes: nat) {
    r.Ok? ==> WithinLimits(l, r.value.value, depth) && r.value.nodes == nodes + Nodes(r.value.value) <= l.maxNodes
  }

  lemma {:induction false} ValueObeys(l: Limits, c: Codec, t: Text, depth: nat, nodes: nat)
    ensures Obeys(l, ParseValue(l, c, t, depth, nodes), depth, nodes)
    decreases |t|, 2
  {
    hide ParseObject, ParseArray, ParseNumber, ParseString, WithinLimits, Nodes;
    var u := SkipWhitespace(t);
    var r := ParseValue(l, c, t, depth, nodes);
    if r.Ok? {
      if u[0] == 0x7B {
        ObjectObeys(l, c, u[1..], depth, nodes);
      } else if u[0] == 0x5B {
        ArrayObeys(l, c, u[1..], depth, nodes);
      } else if u[0] == QUOTE {
        StringObeys(l, u[1..], depth);
      } else {
        ScalarObeys(l, r.value.value, depth);
        NumberIsScalar(l, c, u, nodes + 1);
      }
    }
  }

  lemma ScalarObeys(l: Limits, v: Value, depth: nat)
    ensures v.Null? || v.Bool? || v.Num? ==> WithinLimits(l, v, depth) && Nodes(v) == 1
  {
  }

  lemma NumberIsScalar(l: Limits, c: Codec, t: Text, nodes: nat)
    ensures var r := ParseNumber(l, c, t, nodes); r.Ok? ==> r.value.value.Num? && r.value.nodes == nodes
  {
  }

  lemma StringObeys(l: Limits, t: Text, depth: nat)
    ensures var s := ParseString(l, t, false);
            s.Ok? ==> WithinLimits(l, Str(s.value.value), depth) && Nodes(Str(s.value.value)) == 1
  {
    if ParseString(l, t, false).Ok? {
      PairedIsWellFormed(ParseString(l, t, false).value.value);
    }
  }

  lemma {:induction false} ArrayObeys(l: Limits, c: Codec, t: Text, depth: nat, nodes: nat)
    requires nodes + 1 <= l.maxNodes
    ensures Obeys(l, ParseArray(l, c, t, depth + 1, nodes + 1), depth, nodes)
    decreases |t|, 4
  {
    hide ParseItems;
    var u := SkipWhitespace(t);
    if depth + 1 <= l.maxDepth && u != [] && u[0] != 0x5D {
      ItemsObey(l, c, u, depth, nodes + 1, []);
    }
  }

  lemma {:induction false} ItemsObey(l: Limits, c: Codec, t: Text, depth: nat, nodes: nat, items: seq<Value>)
    requires t != [] && depth + 1 <= l.maxDepth && |items| <= l.maxArrayLength
    requires nodes <= l.maxNodes && nodes >= ItemNodes(items) + 1
    requires forall i :: 0 <= i < |items| ==> WithinLimits(l, items[i], depth + 1)
    ensures Obeys(l, ParseItems(l, c, t, depth + 1, nodes, items), depth, nodes - ItemNodes(items) - 1)
    decreases |t|, 3
  {
    hide ParseValue, WithinLimits, ItemNodes, Nodes, SkipWhitespace;
    var v := ParseValue(l, c, t, depth + 1, nodes);
    if |items| < l.maxArrayLength && v.Ok? {
      ValueObeys(l, c, t, depth + 1, nodes);
      var more := items + [v.value.value];
      ItemNodesSnoc(items, v.value.value);
      assert forall i :: 0 <= i < |more| ==> WithinLimits(l, more[i], depth + 1);
      ArrayWithin(l, more, depth);
      var u := SkipWhitespace(v.value.rest);
      if u != [] && u[0] == 0x2C && SkipWhitespace(u[1..]) != [] {
        ItemsObey(l, c, SkipWhitespace(u[1..]), depth, v.value.nodes, more);
      }
    }
  }

  lemma ArrayWithin(l: Limits, items: seq<Value>, depth: nat)
    requires depth + 1 <= l.maxDepth && |items| <= l.maxArrayLength
    requires forall i :: 0 <= i < |items| ==> WithinLimits(l, items[i], depth + 1)
    ensures WithinLimits(l, Arr(items), depth) && Nodes(Arr(items)) == 1 + ItemNodes(items)
  {
  }

  lemma {:induction false} ObjectObeys(l: Limits, c: Codec, t: Text, depth: nat, nodes: nat)
    requires nodes + 1 <= l.maxNodes
    ensures Obeys(l, ParseObject(l, c, t, depth + 1, nodes + 1), depth, nodes)
    decreases |t|, 1
  {
    hide ParseMembers;
    var u := SkipWhitespace(t);
    if depth + 1 <= l.maxDepth && !(u != [] && u[0] == 0x7D) {
      MembersObey(l, c, u, depth, nodes + 1, []);
    }
  }

  ghost predicate MemberFits(l: Limits, m: Member, depth: nat) {
    KeyFits(l, m.key) && WithinLimits(l, m.value, depth)
  }

  lemma KeyObeys(l: Limits, t: Text, members: seq<Member>)
    ensures var k := ParseKey(l, t, members);
            k.Ok? ==> KeyFits(l, k.value.value) && !HasKey(members, k.value.value) && |members| < l.maxObjectKeys
  {
    if ParseKey(l, t, members).Ok? {
      PairedIsWellFormed(ParseKey(l, t, members).value.value);
    }
  }

  lemma {:induction false} MembersObey(l: Limits, c: Codec, t: Text, depth: nat, nodes: nat, members: seq<Member>)
    requires depth + 1 <= l.maxDepth && |members| <= l.maxObjectKeys && DistinctKeys(members)
    requires nodes <= l.maxNodes && nodes >= MemberNodes(members) + 1
    requires forall i :: 0 <= i < |members| ==> MemberFits(l, members[i], depth + 1)
    ensures Obeys(l, ParseMembers(l, c, t, depth + 1, nodes, members), depth, nodes - MemberNodes(members) - 1)
    decreases |t|, 0
  {
    hide ParseValue, ParseKey, WithinLimits, MemberNodes, KeyFits, Nodes, SkipWhitespace, HasKey;
    var k := ParseKey(l, t, members);
    if k.Ok? && ParseValue(l, c, k.value.rest, depth + 1, nodes).Ok? {
      var v := ParseValue(l, c, k.value.rest, depth + 1, nodes);
      KeyObeys(l, t, members);
      ValueObeys(l, c, k.value.rest, depth + 1, nodes);
      var m := Member(k.value.value, v.value.value);
      var more := members + [m];
      MemberNodesSnoc(members, m);
      assert forall i :: 0 <= i < |more| ==> MemberFits(l, more[i], depth + 1);
      DistinctSnoc(members, m);
      ObjectWithin(l, more, depth);
      var u := SkipWhitespace(v.value.rest);
      if u != [] && u[0] == 0x2C {
        MembersObey(l, c, SkipWhitespace(u[1..]), depth, v.value.nodes, more);
      }
    }
  }

  lemma DistinctSnoc(members: seq<Member>, m: Member)
    requires DistinctKeys(members) && !HasKey(members, m.key)
    ensures DistinctKeys(members + [m])
  {
  }

  lemma ObjectWithin(l: Limits, members: seq<Member>, depth: nat)
    requires depth + 1 <= l.maxDepth && |members| <= l.maxObjectKeys && DistinctKeys(members)
    requires forall i :: 0 <= i < |members| ==> MemberFits(l, members[i], depth + 1)
    ensures WithinLimits(l, Obj(members), depth) && Nodes(Obj(members)) == 1 + MemberNodes(members)
  {
    assert forall i :: 0 <= i < |members| ==> MemberFits(l, members[i], depth + 1);
  }

  /** Every value the parser returns keeps the depth, node, key, array and string limits and repeats no key. */
  lemma ParsedWithinLimits(l: Limits, c: Codec, t: Text)
    ensures var r := Parse(l, c, t); r.Ok? ==> WithinLimits(l, r.value, 0) && Nodes(r.value) <= l.maxNodes
  {
    hide ParseValue, WithinLimits, Nodes;
    ValueObeys(l, c, SkipWhitespace(t), 0, 0);
  }
}
