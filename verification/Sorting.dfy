/** A stable sort by a comparison, standing for `Array.prototype.sort` with a comparator. */
module Sorting {

  function Insert<T>(x: T, s: seq<T>, less: (T, T) -> bool): (r: seq<T>)
    ensures |r| == |s| + 1
  {
    if s == [] then [x]
    else if less(s[0], x) then [s[0]] + Insert(x, s[1..], less)
    else [x] + s
  }

  function Sort<T>(s: seq<T>, less: (T, T) -> bool): (r: seq<T>)
    ensures |r| == |s|
  {
    if s == [] then [] else Insert(s[0], Sort(s[1..], less), less)
  }

  ghost predicate Ordered<T>(s: seq<T>, less: (T, T) -> bool) {
    forall i, j :: 0 <= i < j < |s| ==> !less(s[j], s[i])
  }

  /** What a comparator must satisfy for the sort to be meaningful. */
  ghost predicate WeakOrder<T(!new)>(less: (T, T) -> bool) {
    && (forall a, b :: less(a, b) ==> !less(b, a))
    && (forall a, b, c :: !less(b, a) && !less(c, b) ==> !less(c, a))
  }

  lemma {:induction false} InsertPermutes<T>(x: T, s: seq<T>, less: (T, T) -> bool)
    ensures multiset(Insert(x, s, less)) == multiset(s) + multiset{x}
  {
    if s != [] {
      assert s == [s[0]] + s[1..];
      if less(s[0], x) {
        InsertPermutes(x, s[1..], less);
      }
    }
  }

  lemma {:induction false} SortPermutes<T>(s: seq<T>, less: (T, T) -> bool)
    ensures multiset(Sort(s, less)) == multiset(s)
  {
    if s != [] {
      assert s == [s[0]] + s[1..];
      SortPermutes(s[1..], less);
      InsertPermutes(s[0], Sort(s[1..], less), less);
    }
  }

  /** Sorting neither loses nor invents an element. */
  lemma SortKeepsMembers<T>(s: seq<T>, less: (T, T) -> bool, x: T)
    ensures x in Sort(s, less) <==> x in s
  {
    SortPermutes(s, less);
    assert x in multiset(Sort(s, less)) <==> x in multiset(s);
  }

  lemma SortSameMembers<T(!new)>(s: seq<T>, less: (T, T) -> bool)
    ensures forall x :: x in Sort(s, less) <==> x in s
  {
    forall x ensures x in Sort(s, less) <==> x in s {
      SortKeepsMembers(s, less, x);
    }
  }

  lemma OrderedCons<T>(x: T, s: seq<T>, less: (T, T) -> bool)
    requires Ordered(s, less) && forall y :: y in s ==> !less(y, x)
    ensures Ordered([x] + s, less)
  {
    var t := [x] + s;
    forall i, j | 0 <= i < j < |t| ensures !less(t[j], t[i]) {
      assert t[j] == s[j - 1];
    }
  }

  lemma {:induction false} InsertOrders<T(!new)>(x: T, s: seq<T>, less: (T, T) -> bool)
    requires WeakOrder(less) && Ordered(s, less)
    ensures Ordered(Insert(x, s, less), less)
  {
    if s != [] && less(s[0], x) {
      var rest := Insert(x, s[1..], less);
      InsertOrders(x, s[1..], less);
      InsertPermutes(x, s[1..], less);
      forall y | y in rest ensures !less(y, s[0]) {
        assert y in multiset(rest);
        assert y == x || y in s[1..];
      }
      OrderedCons(s[0], rest, less);
    } else if s != [] {
      forall y | y in s ensures !less(y, x) {
        assert y == s[0] || !less(y, s[0]);
      }
      OrderedCons(x, s, less);
    }
  }

  lemma {:induction false} SortOrders<T(!new)>(s: seq<T>, less: (T, T) -> bool)
    requires WeakOrder(less)
    ensures Ordered(Sort(s, less), less)
  {
    if s != [] {
      SortOrders(s[1..], less);
      InsertOrders(s[0], Sort(s[1..], less), less);
    }
  }

  /** No two distinct elements tie. */
  ghost predicate Comparable<T>(s: seq<T>, less: (T, T) -> bool) {
    forall x, y :: x in s && y in s && x != y ==> less(x, y) || less(y, x)
  }

  lemma HeadsAgree<T>(a: seq<T>, b: seq<T>, less: (T, T) -> bool)
    requires Ordered(a, less) && Ordered(b, less) && Comparable(a, less)
    requires a != [] && multiset(a) == multiset(b)
    ensures b != [] && a[0] == b[0]
  {
    assert |a| == |multiset(a)| == |multiset(b)| == |b|;
    assert a[0] in multiset(b) && b[0] in multiset(a);
    var i :| 0 <= i < |b| && b[i] == a[0];
    var j :| 0 <= j < |a| && a[j] == b[0];
    assert i > 0 ==> !less(b[i], b[0]);
    assert j > 0 ==> !less(a[j], a[0]);
  }

  lemma TailsPermute<T>(a: seq<T>, b: seq<T>)
    requires a != [] && b != [] && a[0] == b[0] && multiset(a) == multiset(b)
    ensures multiset(a[1..]) == multiset(b[1..])
  {
    assert a == [a[0]] + a[1..] && b == [b[0]] + b[1..];
    assert multiset(a[1..]) == multiset(a) - multiset{a[0]};
    assert multiset(b[1..]) == multiset(b) - multiset{b[0]};
  }

  lemma SameHeadAndTail<T>(a: seq<T>, b: seq<T>)
    requires a != [] && b != [] && a[0] == b[0] && a[1..] == b[1..]
    ensures a == b
  {
    assert a == [a[0]] + a[1..] && b == [b[0]] + b[1..];
  }

  lemma TailOrdered<T>(a: seq<T>, less: (T, T) -> bool)
    requires a != [] && Ordered(a, less)
    ensures Ordered(a[1..], less)
  {
  }

  lemma TailComparable<T>(a: seq<T>, less: (T, T) -> bool)
    requires a != [] && Comparable(a, less)
    ensures Comparable(a[1..], less)
  {
  }

  lemma NoElements<T>(b: seq<T>)
    requires multiset(b) == multiset([])
    ensures b == []
  {
    assert |b| == |multiset(b)|;
  }

  /** Two ordered arrangements of the same elements agree when no two distinct elements tie. */
  lemma {:induction false} OrderedUnique<T>(a: seq<T>, b: seq<T>, less: (T, T) -> bool)
    requires Ordered(a, less) && Ordered(b, less) && Comparable(a, less)
    requires multiset(a) == multiset(b)
    ensures a == b
  {
    hide Ordered, Comparable;
    if a == [] {
      NoElements(b);
    } else {
      HeadsAgree(a, b, less);
      TailsPermute(a, b);
      TailOrdered(a, less);
      TailOrdered(b, less);
      TailComparable(a, less);
      OrderedUnique(a[1..], b[1..], less);
      SameHeadAndTail(a, b);
    }
  }

  ghost predicate Distinct<T(!new)>(s: seq<T>) {
    forall i, j :: 0 <= i < j < |s| ==> s[i] != s[j]
  }

  lemma {:induction false} InsertDistinct<T(!new)>(x: T, s: seq<T>, less: (T, T) -> bool)
    requires Distinct(s) && x !in s
    ensures Distinct(Insert(x, s, less))
  {
    if s != [] && less(s[0], x) {
      InsertDistinct(x, s[1..], less);
      InsertPermutes(x, s[1..], less);
      var rest := Insert(x, s[1..], less);
      forall i | 0 <= i < |rest| ensures rest[i] != s[0] {
        assert rest[i] in multiset(rest);
        assert rest[i] == x || rest[i] in s[1..];
      }
    }
  }

  lemma {:induction false} SortDistinct<T(!new)>(s: seq<T>, less: (T, T) -> bool)
    requires Distinct(s)
    ensures Distinct(Sort(s, less))
  {
    if s != [] {
      SortDistinct(s[1..], less);
      SortKeepsMembers(s[1..], less, s[0]);
      InsertDistinct(s[0], Sort(s[1..], less), less);
    }
  }

  /** Distinct elements of which no two tie are sorted strictly. */
  lemma SortStrictly<T(!new)>(s: seq<T>, less: (T, T) -> bool)
    requires WeakOrder(less) && Distinct(s) && Comparable(s, less)
    ensures forall i, j :: 0 <= i < j < |s| ==> less(Sort(s, less)[i], Sort(s, less)[j])
  {
    var r := Sort(s, less);
    SortOrders(s, less);
    SortDistinct(s, less);
    forall i, j | 0 <= i < j < |s| ensures less(r[i], r[j]) {
      SortKeepsMembers(s, less, r[i]);
      SortKeepsMembers(s, less, r[j]);
    }
  }
}
