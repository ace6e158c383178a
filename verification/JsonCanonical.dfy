/** The canonical form of a JSON value: members in the code-unit order of their keys, at every depth. */
module JsonCanonical {
  import opened Common
  import opened Utf8Text
  import opened JsonText
  import opened Json
  import opened JsonInjective
  import opened JsonRoundTrip
  import Sets
  import Sorting

  // The order of keys

  predicate KeyLess(a: Text, b: Text) {
    b != [] && (a == [] || a[0] < b[0] || (a[0] == b[0] && KeyLess(a[1..], b[1..])))
  }

  predicate MemberLess(m: Member, n: Member) {
    KeyLess(m.key, n.key)
  }

  lemma {:induction false} KeyLessTotal(a: Text, b: Text)
    ensures a != b ==> KeyLess(a, b) || KeyLess(b, a)
    ensures !(KeyLess(a, b) && KeyLess(b, a))
    decreases |a|
  {
    if a != [] && b != [] {
      KeyLessTotal(a[1..], b[1..]);
      assert a == [a[0]] + a[1..] && b == [b[0]] + b[1..];
    }
  }

  lemma {:induction false} KeyLessTransitive(a: Text, b: Text, c: Text)
    ensures KeyLess(a, b) && KeyLess(b, c) ==> KeyLess(a, c)
    decreases |a|
  {
    if a != [] && b != [] && c != [] {
      KeyLessTransitive(a[1..], b[1..], c[1..]);
    }
  }

  lemma KeyOrder()
    ensures Sorting.WeakOrder(MemberLess)
  {
    forall m: Member, n: Member ensures MemberLess(m, n) ==> !MemberLess(n, m) {
      KeyLessTotal(m.key, n.key);
    }
    forall m: Member, n: Member, o: Member
      ensures !MemberLess(n, m) && !MemberLess(o, n) ==> !MemberLess(o, m)
    {
      KeyLessTotal(m.key, n.key);
      KeyLessTotal(n.key, o.key);
      KeyLessTotal(m.key, o.key);
      KeyLessTransitive(o.key, m.key, n.key);
      KeyLessTransitive(m.key, n.key, o.key);
    }
  }

  // Normal forms

  function Normalize(v: Value): Value
    decreases v
  {
    match v
    case Arr(items) => Arr(NormalItems(items))
    case Obj(members) => Obj(Sorting.Sort(NormalMembers(members), MemberLess))
    case _ => v
  }

  function NormalItems(items: seq<Value>): (r: seq<Value>)
    ensures |r| == |items| && forall i :: 0 <= i < |items| ==> r[i] == Normalize(items[i])
    decreases items
  {
    if items == [] then [] else [Normalize(items[0])] + NormalItems(items[1..])
  }

  function NormalMembers(members: seq<Member>): (r: seq<Member>)
    ensures |r| == |members|
    ensures forall i :: 0 <= i < |members| ==> r[i] == Member(members[i].key, Normalize(members[i].value))
    decreases members
  {
    if members == [] then []
    else [Member(members[0].key, Normalize(members[0].value))] + NormalMembers(members[1..])
  }

  function Canonical(c: Codec, v: Value): Text {
    Print(c, Normalize(v))
  }

  // Equality of values

  /** Two values are the same when they differ at most in the order of members. */
  ghost predicate Same(a: Value, b: Value)
    decreases a
  {
    match a
    case Arr(items) =>
      b.Arr? && |items| == |b.items| && forall i :: 0 <= i < |items| ==> Same(items[i], b.items[i])
    case Obj(members) =>
      && b.Obj? && |members| == |b.members|
      && forall i :: 0 <= i < |members| ==>
           exists k :: 0 <= k < |b.members| && members[i].key == b.members[k].key
                       && Same(members[i].value, b.members[k].value)
    case _ => a == b
  }

  /** No object in the value repeats a key. */
  ghost predicate KeysDistinct(v: Value)
    decreases v
  {
    match v
    case Arr(items) => forall i :: 0 <= i < |items| ==> KeysDistinct(items[i])
    case Obj(members) =>
      DistinctKeys(members) && forall i :: 0 <= i < |members| ==> KeysDistinct(members[i].value)
    case _ => true
  }

  lemma {:induction false} NormalEqualIsSame(a: Value, b: Value)
    requires Normalize(a) == Normalize(b)
    ensures Same(a, b)
    decreases a
  {
    if a.Arr? {
      forall i | 0 <= i < |a.items| ensures Same(a.items[i], b.items[i]) {
        assert NormalItems(a.items)[i] == NormalItems(b.items)[i];
        NormalEqualIsSame(a.items[i], b.items[i]);
      }
    } else if a.Obj? {
      var ms, ns := NormalMembers(a.members), NormalMembers(b.members);
      forall i | 0 <= i < |a.members|
        ensures exists k :: 0 <= k < |b.members| && a.members[i].key == b.members[k].key
                            && Same(a.members[i].value, b.members[k].value)
      {
        Sorting.SortKeepsMembers(ms, MemberLess, ms[i]);
        Sorting.SortKeepsMembers(ns, MemberLess, ms[i]);
        assert ms[i] in ns;
        var k :| 0 <= k < |ns| && ns[k] == ms[i];
        NormalEqualIsSame(a.members[i].value, b.members[k].value);
      }
    }
  }

  /** Distinct sequences of one length, each element of the first in the second, have the same elements. */
  lemma SameElements(a: seq<Member>, b: seq<Member>)
    requires |a| == |b| && DistinctKeys(a) && DistinctKeys(b)
    requires forall i :: 0 <= i < |a| ==> a[i] in b
    ensures multiset(a) == multiset(b)
  {
    DistinctMultiset(a);
    DistinctMultiset(b);
    var x, y := set m | m in a, set m | m in b;
    assert |multiset(a)| == |a| && |multiset(b)| == |b|;
    assert x <= y;
    Sets.SubsetEqual(x, y);
  }

  lemma {:induction false} DistinctMultiset(a: seq<Member>)
    requires DistinctKeys(a)
    ensures multiset(a) == multiset(set m | m in a)
  {
    if a != [] {
      var n := |a| - 1;
      var before, last := a[..n], a[n];
      DistinctMultiset(before);
      assert a == before + [last];
      assert last !in before;
      assert (set m | m in a) == (set m | m in before) + {last};
    }
  }

  lemma NormalKeysDistinct(members: seq<Member>)
    requires DistinctKeys(members)
    ensures DistinctKeys(NormalMembers(members))
  {
  }

  lemma {:induction false} SameIsNormalEqual(a: Value, b: Value)
    requires KeysDistinct(a) && KeysDistinct(b) && Same(a, b)
    ensures Normalize(a) == Normalize(b)
    decreases a
  {
    if a.Arr? {
      forall i | 0 <= i < |a.items| ensures NormalItems(a.items)[i] == NormalItems(b.items)[i] {
        SameIsNormalEqual(a.items[i], b.items[i]);
      }
      assert NormalItems(a.items) == NormalItems(b.items);
    } else if a.Obj? {
      var ms, ns := NormalMembers(a.members), NormalMembers(b.members);
      forall i | 0 <= i < |ms| ensures ms[i] in ns {
        var k :| 0 <= k < |b.members| && a.members[i].key == b.members[k].key
                 && Same(a.members[i].value, b.members[k].value);
        SameIsNormalEqual(a.members[i].value, b.members[k].value);
        assert ns[k] == ms[i];
      }
      NormalKeysDistinct(a.members);
      NormalKeysDistinct(b.members);
      SameElements(ms, ns);
      SortedAgree(ms, ns);
    }
  }

  lemma DistinctCompare(s: seq<Member>)
    requires DistinctKeys(s)
    ensures forall x, y :: x in s && y in s && x != y ==> MemberLess(x, y) || MemberLess(y, x)
  {
    forall x, y | x in s && y in s && x != y ensures MemberLess(x, y) || MemberLess(y, x) {
      var i :| 0 <= i < |s| && s[i] == x;
      var k :| 0 <= k < |s| && s[k] == y;
      assert i < k || k < i;
      KeyLessTotal(x.key, y.key);
    }
  }

  lemma SortedAgree(ms: seq<Member>, ns: seq<Member>)
    requires multiset(ms) == multiset(ns) && DistinctKeys(ms)
    ensures Sorting.Sort(ms, MemberLess) == Sorting.Sort(ns, MemberLess)
  {
    var a, b := Sorting.Sort(ms, MemberLess), Sorting.Sort(ns, MemberLess);
    KeyOrder();
    DistinctCompare(ms);
    Sorting.SortOrders(ms, MemberLess);
    Sorting.SortOrders(ns, MemberLess);
    Sorting.SortPermutes(ms, MemberLess);
    Sorting.SortPermutes(ns, MemberLess);
    forall x, y | x in a && y in a && x != y ensures MemberLess(x, y) || MemberLess(y, x) {
      Sorting.SortKeepsMembers(ms, MemberLess, x);
      Sorting.SortKeepsMembers(ms, MemberLess, y);
    }
    Sorting.OrderedUnique(a, b, MemberLess);
  }

  // Normal forms keep the limits

  lemma SortDistinct(s: seq<Member>)
    requires DistinctKeys(s)
    ensures DistinctKeys(Sorting.Sort(s, MemberLess))
  {
    var r := Sorting.Sort(s, MemberLess);
    KeyOrder();
    DistinctCompare(s);
    Sorting.SortStrictly(s, MemberLess);
    forall i, j | 0 <= i < j < |r| ensures r[i].key != r[j].key {
      KeyLessTotal(r[i].key, r[j].key);
    }
  }

  lemma {:induction false} InsertNodes(m: Member, s: seq<Member>)
    ensures MemberNodes(Sorting.Insert(m, s, MemberLess)) == Nodes(m.value) + MemberNodes(s)
  {
    if s != [] && MemberLess(s[0], m) {
      InsertNodes(m, s[1..]);
      assert ([s[0]] + Sorting.Insert(m, s[1..], MemberLess))[1..] == Sorting.Insert(m, s[1..], MemberLess);
    } else {
      assert ([m] + s)[1..] == s;
      assert [m] + [] == [m];
    }
  }

  lemma {:induction false} SortNodes(s: seq<Member>)
    ensures MemberNodes(Sorting.Sort(s, MemberLess)) == MemberNodes(s)
  {
    if s != [] {
      SortNodes(s[1..]);
      InsertNodes(s[0], Sorting.Sort(s[1..], MemberLess));
    }
  }

  lemma {:induction false} NormalNodes(v: Value)
    ensures Nodes(Normalize(v)) == Nodes(v)
    decreases v
  {
    if v.Arr? {
      NormalItemNodes(v.items);
    } else if v.Obj? {
      SortNodes(NormalMembers(v.members));
      NormalMemberNodes(v.members);
    }
  }

  lemma {:induction false} NormalItemNodes(items: seq<Value>)
    ensures ItemNodes(NormalItems(items)) == ItemNodes(items)
    decreases items
  {
    if items != [] {
      NormalNodes(items[0]);
      NormalItemNodes(items[1..]);
      assert NormalItems(items)[1..] == NormalItems(items[1..]);
    }
  }

  lemma {:induction false} NormalMemberNodes(members: seq<Member>)
    ensures MemberNodes(NormalMembers(members)) == MemberNodes(members)
    decreases members
  {
    if members != [] {
      NormalNodes(members[0].value);
      NormalMemberNodes(members[1..]);
      assert NormalMembers(members)[1..] == NormalMembers(members[1..]);
    }
  }

  lemma {:induction false} NormalPrintable(l: Limits, c: Codec, v: Value, depth: nat)
    requires Printable(l, c, v, depth)
    ensures Printable(l, c, Normalize(v), depth)
    decreases v
  {
    if v.Arr? {
      forall i | 0 <= i < |v.items| ensures Printable(l, c, NormalItems(v.items)[i], depth + 1) {
        NormalPrintable(l, c, v.items[i], depth + 1);
      }
    } else if v.Obj? {
      var ms := NormalMembers(v.members);
      var sorted := Sorting.Sort(ms, MemberLess);
      NormalKeysDistinct(v.members);
      SortDistinct(ms);
      forall i | 0 <= i < |sorted|
        ensures KeyFits(l, sorted[i].key) && Printable(l, c, sorted[i].value, depth + 1)
      {
        Sorting.SortKeepsMembers(ms, MemberLess, sorted[i]);
        var k :| 0 <= k < |ms| && ms[k] == sorted[i];
        NormalPrintable(l, c, v.members[k].value, depth + 1);
      }
    }
  }

  lemma {:induction false} WithinHasDistinctKeys(l: Limits, v: Value, depth: nat)
    requires WithinLimits(l, v, depth)
    ensures KeysDistinct(v)
    decreases v
  {
    if v.Arr? {
      forall i | 0 <= i < |v.items| ensures KeysDistinct(v.items[i]) {
        WithinHasDistinctKeys(l, v.items[i], depth + 1);
      }
    } else if v.Obj? {
      forall i | 0 <= i < |v.members| ensures KeysDistinct(v.members[i].value) {
        WithinHasDistinctKeys(l, v.members[i].value, depth + 1);
      }
    }
  }

  /** A normal form is its own normal form. */
  lemma {:induction false} NormalizeTwice(v: Value)
    requires KeysDistinct(v)
    ensures Normalize(Normalize(v)) == Normalize(v)
    decreases v
  {
    if v.Arr? {
      var items := NormalItems(v.items);
      forall i | 0 <= i < |items| ensures NormalItems(items)[i] == items[i] {
        NormalizeTwice(v.items[i]);
      }
      assert NormalItems(items) == items;
    } else if v.Obj? {
      var ms := NormalMembers(v.members);
      var sorted := Sorting.Sort(ms, MemberLess);
      forall i | 0 <= i < |sorted| ensures NormalMembers(sorted)[i] == sorted[i] {
        Sorting.SortKeepsMembers(ms, MemberLess, sorted[i]);
        var k :| 0 <= k < |ms| && ms[k] == sorted[i];
        NormalizeTwice(v.members[k].value);
      }
      assert NormalMembers(sorted) == sorted;
      NormalKeysDistinct(v.members);
      SortDistinct(ms);
      Sorting.SortPermutes(ms, MemberLess);
      SortedAgree(sorted, ms);
    }
  }

  // Main results

  /** The value keeps every limit of the strict parser, in its canonical form. */
  ghost predicate Accepted(l: Limits, c: Codec, v: Value) {
    Printable(l, c, v, 0) && Nodes(v) <= l.maxNodes && Utf8Bytes(Canonical(c, v)) <= l.maxBytes
  }

  /** The strict parser applied to a canonical form returns the value, with its members in canonical order. */
  lemma CanonicalRoundTrip(l: Limits, c: Codec, v: Value)
    requires c.Valid() && Accepted(l, c, v)
    ensures Parse(l, c, Canonical(c, v)) == Ok(Normalize(v)) && Same(v, Normalize(v))
  {
    hide Parse, Utf8Bytes, Print;
    NormalPrintable(l, c, v, 0);
    NormalNodes(v);
    PrintThenParse(l, c, Normalize(v));
    WithinHasDistinctKeys(l, v, 0);
    NormalizeTwice(v);
    NormalEqualIsSame(v, Normalize(v));
  }

  /**
   * Canonical forms are equal exactly when the values are, up to the order of members: for every pair of values without
   * repeated keys, whatever their size, depth and strings.
   */
  lemma CanonicalDecidesEquality(c: Codec, a: Value, b: Value)
    requires c.Valid() && KeysDistinct(a) && KeysDistinct(b)
    ensures Canonical(c, a) == Canonical(c, b) <==> Same(a, b)
  {
    hide Same, Printed;
    if Canonical(c, a) == Canonical(c, b) {
      PrintedInjective(c, Normalize(a), Normalize(b), [], []);
      NormalEqualIsSame(a, b);
    }
    if Same(a, b) {
      SameIsNormalEqual(a, b);
    }
  }

  // The layout of the printed text

  function Join(parts: seq<Text>): Text {
    if parts == [] then [] else if |parts| == 1 then parts[0] else parts[0] + [0x2C] + Join(parts[1..])
  }

  lemma {:induction false} PrintedAppends(c: Codec, v: Value, k: Text)
    ensures Printed(c, v, k) == Print(c, v) + k
    decreases v
  {
    hide Escaped;
    match v
    case Arr(items) =>
      ItemsAppend(c, items, [0x5D] + k);
      ItemsAppend(c, items, [0x5D] + []);
    case Obj(members) =>
      MembersAppend(c, members, [0x7D] + k);
      MembersAppend(c, members, [0x7D] + []);
    case _ =>
  }

  lemma {:induction false} ItemsAppend(c: Codec, items: seq<Value>, k: Text)
    ensures PrintedItems(c, items, k) == Join(ItemTexts(c, items)) + k
    decreases items
  {
    if items != [] {
      assert ItemTexts(c, items)[1..] == ItemTexts(c, items[1..]);
      if |items| == 1 {
        PrintedAppends(c, items[0], k);
      } else {
        ItemsAppend(c, items[1..], k);
        PrintedAppends(c, items[0], [0x2C] + PrintedItems(c, items[1..], k));
      }
    }
  }

  lemma MemberAppends(c: Codec, m: Member, k: Text)
    requires Printed(c, m.value, k) == Print(c, m.value) + k
    ensures QuotedThen(m.key, [0x3A] + Printed(c, m.value, k)) == Quoted(m.key) + [0x3A] + Print(c, m.value) + k
  {
    hide Escaped, Printed;
  }

  lemma {:induction false} MembersAppend(c: Codec, members: seq<Member>, k: Text)
    ensures PrintedMembers(c, members, k) == Join(MemberTexts(c, members)) + k
    decreases members
  {
    hide Escaped, Printed, QuotedThen, Quoted;
    if members != [] {
      var m := members[0];
      assert MemberTexts(c, members)[1..] == MemberTexts(c, members[1..]);
      if |members| == 1 {
        PrintedAppends(c, m.value, k);
        MemberAppends(c, m, k);
      } else {
        var tail := [0x2C] + PrintedMembers(c, members[1..], k);
        MembersAppend(c, members[1..], k);
        PrintedAppends(c, m.value, tail);
        MemberAppends(c, m, tail);
      }
    }
  }

  function ItemTexts(c: Codec, items: seq<Value>): (r: seq<Text>)
    ensures |r| == |items| && forall i :: 0 <= i < |r| ==> r[i] == Print(c, items[i])
  {
    seq(|items|, i requires 0 <= i < |items| => Print(c, items[i]))
  }

  function MemberTexts(c: Codec, members: seq<Member>): (r: seq<Text>)
    ensures |r| == |members|
    ensures forall i :: 0 <= i < |r| ==> r[i] == Quoted(members[i].key) + [0x3A] + Print(c, members[i].value)
  {
    seq(|members|, i requires 0 <= i < |members| => Quoted(members[i].key) + [0x3A] + Print(c, members[i].value))
  }

  /** Collections print as their parts joined by commas between brackets. */
  lemma PrintLayout(c: Codec, items: seq<Value>, members: seq<Member>)
    ensures Print(c, Arr(items)) == [0x5B] + Join(ItemTexts(c, items)) + [0x5D]
    ensures Print(c, Obj(members)) == [0x7B] + Join(MemberTexts(c, members)) + [0x7D]
  {
    ItemsAppend(c, items, [0x5D] + []);
    MembersAppend(c, members, [0x7D] + []);
  }
}
