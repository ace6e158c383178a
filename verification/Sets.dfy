/** Sizes of finite sets. */
module Sets {

  lemma {:induction false} SubsetSize<T>(a: set<T>, b: set<T>)
    requires a <= b
    ensures |a| <= |b|
  {
    if a != {} {
      var x :| x in a;
      SubsetSize(a - {x}, b - {x});
    }
  }

  lemma SubsetEqual<T>(a: set<T>, b: set<T>)
    requires a <= b && |a| == |b|
    ensures a == b
  {
    if a != b {
      var x :| x in b && x !in a;
      SubsetSize(a, b - {x});
    }
  }

  /** A map whose distinct keys have distinct values has as many values as keys. */
  lemma {:induction false} InjectiveSize<K, V>(m: map<K, V>)
    requires forall a, b :: a in m && b in m && a != b ==> m[a] != m[b]
    ensures |m.Values| == |m|
  {
    if m != map[] {
      var k :| k in m;
      var rest := m - {k};
      InjectiveSize(rest);
      forall v <- m.Values ensures v in rest.Values + {m[k]} {
        var a :| a in m && m[a] == v;
        assert a != k ==> a in rest && rest[a] == v;
      }
      forall v <- rest.Values ensures v in m.Values && v != m[k] {
        var a :| a in rest && rest[a] == v;
        assert a in m && m[a] == v;
      }
      assert k in m && m[k] in m.Values;
      assert m.Values == rest.Values + {m[k]};
      assert m.Keys == rest.Keys + {k};
    }
  }
}
