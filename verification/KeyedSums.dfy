/** Maps that are added up entry by entry, starting every key from the same value. */
module KeyedSums {

  function At<V>(m: map<string, V>, key: string, zero: V): V { if key in m then m[key] else zero }

  function Merged<V>(a: map<string, V>, b: map<string, V>, zero: V, plus: (V, V) -> V): map<string, V>
  {
    map k | k in a.Keys + b.Keys :: plus(At(a, k, zero), At(b, k, zero))
  }

  ghost predicate Monoid<V(!new)>(zero: V, plus: (V, V) -> V)
  {
    && (forall x :: plus(x, zero) == x == plus(zero, x))
    && (forall x, y, z :: plus(plus(x, y), z) == plus(x, plus(y, z)))
  }

  ghost predicate Commutes<V(!new)>(plus: (V, V) -> V)
  {
    forall x, y :: plus(x, y) == plus(y, x)
  }

  lemma MergedAt<V(!new)>(a: map<string, V>, b: map<string, V>, zero: V, plus: (V, V) -> V, key: string)
    requires Monoid(zero, plus)
    ensures At(Merged(a, b, zero, plus), key, zero) == plus(At(a, key, zero), At(b, key, zero))
  {
    assert plus(zero, zero) == zero;
  }

  lemma SameEntries<V>(a: map<string, V>, b: map<string, V>, zero: V)
    requires a.Keys == b.Keys && forall k :: At(a, k, zero) == At(b, k, zero)
    ensures a == b
  {
    forall k | k in a ensures a[k] == b[k] {
      assert At(a, k, zero) == At(b, k, zero);
    }
  }

  lemma MergedAssociates<V(!new)>(a: map<string, V>, b: map<string, V>, c: map<string, V>, zero: V, plus: (V, V) -> V)
    requires Monoid(zero, plus)
    ensures Merged(Merged(a, b, zero, plus), c, zero, plus) == Merged(a, Merged(b, c, zero, plus), zero, plus)
  {
    var l, r := Merged(Merged(a, b, zero, plus), c, zero, plus), Merged(a, Merged(b, c, zero, plus), zero, plus);
    assert l.Keys == r.Keys;
    hide Merged, At;
    forall k ensures At(l, k, zero) == At(r, k, zero) {
      MergedAt(a, b, zero, plus, k);
      MergedAt(Merged(a, b, zero, plus), c, zero, plus, k);
      MergedAt(b, c, zero, plus, k);
      MergedAt(a, Merged(b, c, zero, plus), zero, plus, k);
    }
    SameEntries(l, r, zero);
  }

  lemma MergedNone<V(!new)>(a: map<string, V>, zero: V, plus: (V, V) -> V)
    requires Monoid(zero, plus)
    ensures Merged(a, map[], zero, plus) == a == Merged(map[], a, zero, plus)
  {
  }

  lemma MergedCommutes<V(!new)>(a: map<string, V>, b: map<string, V>, zero: V, plus: (V, V) -> V)
    requires Commutes(plus)
    ensures Merged(a, b, zero, plus) == Merged(b, a, zero, plus)
  {
  }

  // One entry is added to.
  lemma MergedOne<V(!new)>(a: map<string, V>, key: string, v: V, zero: V, plus: (V, V) -> V)
    requires Monoid(zero, plus)
    ensures Merged(a, map[key := v], zero, plus) == a[key := plus(At(a, key, zero), v)]
  {
  }

  lemma SumOfEntries<V(!new)>(a: map<string, V>, b: map<string, V>, r: map<string, V>, zero: V, plus: (V, V) -> V)
    requires Monoid(zero, plus) && r.Keys == a.Keys + b.Keys
    requires forall k :: k in r ==> r[k] == if k in b then plus(At(a, k, zero), b[k]) else a[k]
    ensures r == Merged(a, b, zero, plus)
  {
    forall k | k in r ensures r[k] == Merged(a, b, zero, plus)[k] {
      if k !in b {
        assert plus(a[k], zero) == a[k];
      }
    }
    hide Monoid;
  }

  // The left map is copied, and the entries of the right one are added in whatever order they come.
  method AddEntries<V(!new)>(a: map<string, V>, b: map<string, V>, zero: V, plus: (V, V) -> V) returns (r: map<string, V>)
    requires Monoid(zero, plus)
    ensures r == Merged(a, b, zero, plus)
  {
    hide Monoid, Merged;
    r := a;
    var todo := b.Keys;
    while todo != {}
      invariant todo <= b.Keys && r.Keys == a.Keys + (b.Keys - todo)
      invariant forall k :: k in r ==> r[k] == if k in b && k !in todo then plus(At(a, k, zero), b[k]) else a[k]
      decreases todo
    {
      var k :| k in todo;
      assert At(r, k, zero) == At(a, k, zero);
      r := r[k := plus(At(r, k, zero), b[k])];
      todo := todo - {k};
    }
    SumOfEntries(a, b, r, zero, plus);
  }
}
