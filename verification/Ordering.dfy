/** The elements of a finite set of identifiers in ascending order, and maps over them. */
module Ordering {

  lemma {:induction false} FindLeast(s: set<nat>) returns (least: nat)
    requires s != {}
    ensures least in s && forall x <- s :: least <= x
    decreases s
  {
    var first :| first in s;
    var rest := s - {first};
    least := first;
    if rest != {} {
      var other := FindLeast(rest);
      least := if other < first then other else first;
    }
    forall x <- s ensures least <= x {
      assert x != first ==> x in rest;
    }
  }

  lemma HasLeast(s: set<nat>)
    requires s != {}
    ensures exists m :: m in s && forall x <- s :: m <= x
  {
    var _ := FindLeast(s);
  }

  function Least(s: set<nat>): (m: nat)
    requires s != {}
    ensures m in s && forall x <- s :: m <= x
  {
    HasLeast(s);
    var m :| m in s && forall x <- s :: m <= x;
    m
  }

  /** A set listed from its least element to its greatest. */
  function Ascending(s: set<nat>): (r: seq<nat>)
    ensures |r| == |s|
    ensures forall x :: x in r <==> x in s
    decreases |s|
  {
    if s == {} then []
    else
      var m := Least(s);
      [m] + Ascending(s - {m})
  }

  lemma {:induction false} AscendingIncreases(s: set<nat>, i: nat, j: nat)
    requires i < j < |Ascending(s)|
    ensures Ascending(s)[i] < Ascending(s)[j]
    decreases |s|
  {
    var m := Least(s);
    var rest := s - {m};
    assert Ascending(s)[j] == Ascending(rest)[j - 1];
    if i == 0 {
      assert Ascending(rest)[j - 1] in Ascending(rest);
    } else {
      AscendingIncreases(rest, i - 1, j - 1);
    }
  }

  function Mapped<T>(s: seq<nat>, f: nat -> T): (r: seq<T>)
    ensures |r| == |s|
    ensures forall i :: 0 <= i < |s| ==> r[i] == f(s[i])
  {
    seq(|s|, i requires 0 <= i < |s| => f(s[i]))
  }

  lemma MappedMembers<T>(s: seq<nat>, f: nat -> T)
    ensures forall x :: x in s ==> f(x) in Mapped(s, f)
  {
    forall x | x in s ensures f(x) in Mapped(s, f) {
      var i :| 0 <= i < |s| && s[i] == x;
      assert Mapped(s, f)[i] == f(x);
    }
  }

  lemma AllMapped<T>(s: set<nat>, f: nat -> T)
    ensures forall x :: x in s ==> f(x) in Mapped(Ascending(s), f)
  {
    MappedMembers(Ascending(s), f);
  }
}
