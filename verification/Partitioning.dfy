/** First-fit classes by a representative, and the same classes found bucket by bucket. */
module Partitioning {
  import opened Sequences

  // A class is never empty: its representative came first.
  datatype Class<T> = Class(representative: T, others: seq<T>) {
    function Members(): seq<T> { [representative] + others }
  }

  // Put x into the first class whose representative equals it, else into a class of its own.
  function Place<T>(classes: seq<Class<T>>, x: T, eq: (T, T) -> bool): seq<Class<T>>
  {
    if classes == [] then [Class(x, [])]
    else if eq(classes[0].representative, x) then [classes[0].(others := classes[0].others + [x])] + classes[1..]
    else [classes[0]] + Place(classes[1..], x, eq)
  }

  // The naive partition: compare with every representative found so far.
  function FirstFit<T>(xs: seq<T>, eq: (T, T) -> bool): seq<Class<T>>
  {
    if xs == [] then [] else Place(FirstFit(xs[..|xs| - 1], eq), xs[|xs| - 1], eq)
  }

  method FirstFitLoop<T>(xs: seq<T>, eq: (T, T) -> bool) returns (classes: seq<Class<T>>)
    ensures classes == FirstFit(xs, eq)
  {
    classes := [];
    for i := 0 to |xs|
      invariant classes == FirstFit(xs[..i], eq)
    {
      assert xs[..i + 1][..i] == xs[..i];
      classes := PlaceLoop(classes, xs[i], eq);
    }
    assert xs[..|xs|] == xs;
  }

  lemma PlaceSkips<T>(classes: seq<Class<T>>, i: nat, x: T, eq: (T, T) -> bool)
    requires i < |classes|
    ensures Place(classes[i..], x, eq)
         == if eq(classes[i].representative, x)
            then [classes[i].(others := classes[i].others + [x])] + classes[i + 1..]
            else [classes[i]] + Place(classes[i + 1..], x, eq)
  {
    assert classes[i..][1..] == classes[i + 1..];
  }

  lemma UpdateAsConcat<T>(s: seq<T>, i: nat, v: T)
    requires i < |s|
    ensures s[i := v] == s[..i] + ([v] + s[i + 1..])
  {
  }

  lemma ShiftOne<T>(s: seq<T>, i: nat, rest: seq<T>)
    requires i < |s|
    ensures s[..i] + ([s[i]] + rest) == s[..i + 1] + rest
  {
  }

  method PlaceLoop<T>(classes: seq<Class<T>>, x: T, eq: (T, T) -> bool) returns (r: seq<Class<T>>)
    ensures r == Place(classes, x, eq)
  {
    assert classes[0..] == classes && classes[..0] == [];
    ghost var expected := Place(classes, x, eq);
    for i := 0 to |classes|
      invariant expected == classes[..i] + Place(classes[i..], x, eq)
    {
      hide Place;
      PlaceSkips(classes, i, x, eq);
      if eq(classes[i].representative, x) {
        UpdateAsConcat(classes, i, classes[i].(others := classes[i].others + [x]));
        return classes[i := classes[i].(others := classes[i].others + [x])];
      }
      ShiftOne(classes, i, Place(classes[i + 1..], x, eq));
    }
    r := classes + [Class(x, [])];
    assert classes[..|classes|] == classes && classes[|classes|..] == [];
  }

  // ---------- Bucketing ----------

  // The keys of xs in the order they are first seen.
  function KeysInOrder<T, K(==)>(xs: seq<T>, key: T -> K): (ks: seq<K>)
    ensures forall i :: 0 <= i < |xs| ==> key(xs[i]) in ks
    ensures forall i, j :: 0 <= i < j < |ks| ==> ks[i] != ks[j]
  {
    if xs == [] then []
    else
      var ks := KeysInOrder(xs[..|xs| - 1], key);
      if key(xs[|xs| - 1]) in ks then ks else ks + [key(xs[|xs| - 1])]
  }

  function Bucket<T, K(==)>(xs: seq<T>, key: T -> K, k: K): seq<T>
  {
    if xs == [] then []
    else Bucket(xs[..|xs| - 1], key, k) + if key(xs[|xs| - 1]) == k then [xs[|xs| - 1]] else []
  }

  lemma {:induction false} BucketMembers<T(!new), K(!new)>(xs: seq<T>, key: T -> K, k: K)
    ensures forall x :: x in Bucket(xs, key, k) <==> x in xs && key(x) == k
  {
    if xs != [] {
      BucketMembers(xs[..|xs| - 1], key, k);
      assert xs == xs[..|xs| - 1] + [xs[|xs| - 1]];
    }
  }

  lemma {:induction false} BucketHasNoDuplicates<T(!new), K(!new)>(xs: seq<T>, key: T -> K, k: K)
    requires NoDuplicates(xs)
    ensures NoDuplicates(Bucket(xs, key, k))
  {
    if xs != [] {
      BucketHasNoDuplicates(xs[..|xs| - 1], key, k);
      BucketMembers(xs[..|xs| - 1], key, k);
      LastIsNew(xs);
    }
  }

  lemma LastIsNew<T(!new)>(xs: seq<T>)
    requires NoDuplicates(xs) && xs != []
    ensures xs[|xs| - 1] !in xs[..|xs| - 1]
  {
    assert forall i :: 0 <= i < |xs| - 1 ==> xs[..|xs| - 1][i] == xs[i];
  }

  // Keep what passes a test, in order.
  function Select<T>(xs: seq<T>, keep: T -> bool): seq<T>
  {
    if xs == [] then []
    else Select(xs[..|xs| - 1], keep) + if keep(xs[|xs| - 1]) then [xs[|xs| - 1]] else []
  }

  method SelectLoop<T>(xs: seq<T>, keep: T -> bool) returns (r: seq<T>)
    ensures r == Select(xs, keep)
  {
    r := [];
    for i := 0 to |xs|
      invariant r == Select(xs[..i], keep)
    {
      assert xs[..i + 1][..i] == xs[..i];
      if keep(xs[i]) {
        r := r + [xs[i]];
      }
    }
    assert xs[..|xs|] == xs;
  }

  lemma {:induction false} SelectMembers<T(!new)>(xs: seq<T>, keep: T -> bool)
    ensures forall x :: x in Select(xs, keep) <==> x in xs && keep(x)
  {
    if xs != [] {
      SelectMembers(xs[..|xs| - 1], keep);
      assert xs == xs[..|xs| - 1] + [xs[|xs| - 1]];
    }
  }

  lemma {:induction false} SelectHasNoDuplicates<T(!new)>(xs: seq<T>, keep: T -> bool)
    requires NoDuplicates(xs)
    ensures NoDuplicates(Select(xs, keep))
  {
    if xs != [] {
      SelectHasNoDuplicates(xs[..|xs| - 1], keep);
      SelectMembers(xs[..|xs| - 1], keep);
      LastIsNew(xs);
    }
  }

  // The classes of each bucket, one bucket after the other.
  function Bucketed<T, K(==)>(xs: seq<T>, key: T -> K, ks: seq<K>, eq: (T, T) -> bool): seq<Class<T>>
  {
    if ks == [] then [] else Bucketed(xs, key, ks[..|ks| - 1], eq) + FirstFit(Bucket(xs, key, ks[|ks| - 1]), eq)
  }

  // The classes whose representative has key k.
  function WithKey<T, K(==)>(classes: seq<Class<T>>, key: T -> K, k: K): seq<Class<T>>
  {
    if classes == [] then []
    else (if key(classes[0].representative) == k then [classes[0]] else []) + WithKey(classes[1..], key, k)
  }

  // Values that compare equal have equal keys.
  ghost predicate Respects<T(!new), K(!new)>(xs: seq<T>, key: T -> K, eq: (T, T) -> bool)
  {
    forall a, b :: a in xs && b in xs && eq(a, b) ==> key(a) == key(b)
  }

  // x can only join classes of its own key.
  ghost predicate JoinsOwnKey<T(!new), K(!new)>(classes: seq<Class<T>>, x: T, key: T -> K, eq: (T, T) -> bool)
  {
    forall i :: 0 <= i < |classes| && eq(classes[i].representative, x) ==> key(classes[i].representative) == key(x)
  }

  lemma {:induction false} PlaceSameKey<T(!new), K(!new)>(classes: seq<Class<T>>, x: T, key: T -> K, eq: (T, T) -> bool)
    requires JoinsOwnKey(classes, x, key, eq)
    ensures WithKey(Place(classes, x, eq), key, key(x)) == Place(WithKey(classes, key, key(x)), x, eq)
  {
    if classes != [] {
      var c, rest := classes[0], WithKey(classes[1..], key, key(x));
      assert ([c] + rest)[1..] == rest;
      if eq(c.representative, x) {
        var d := c.(others := c.others + [x]);
        assert ([d] + classes[1..])[1..] == classes[1..];
      } else {
        PlaceSameKey(classes[1..], x, key, eq);
        var placed := Place(classes[1..], x, eq);
        assert ([c] + placed)[1..] == placed;
        assert [] + rest == rest && [] + WithKey(placed, key, key(x)) == WithKey(placed, key, key(x));
      }
    }
  }

  lemma {:induction false} PlaceOtherKey<T(!new), K(!new)>(classes: seq<Class<T>>, x: T, key: T -> K, k: K, eq: (T, T) -> bool)
    requires JoinsOwnKey(classes, x, key, eq) && key(x) != k
    ensures WithKey(Place(classes, x, eq), key, k) == WithKey(classes, key, k)
  {
    if classes != [] && !eq(classes[0].representative, x) {
      PlaceOtherKey(classes[1..], x, key, k, eq);
    }
  }

  lemma {:induction false} PlaceKeepsMembers<T(!new)>(classes: seq<Class<T>>, x: T, eq: (T, T) -> bool)
    ensures forall c, y :: c in Place(classes, x, eq) && y in c.Members() ==>
              y == x || exists d :: d in classes && y in d.Members()
  {
    if classes == [] {
    } else if eq(classes[0].representative, x) {
      var c := classes[0].(others := classes[0].others + [x]);
      assert c.Members() == classes[0].Members() + [x];
      assert classes[0] in classes;
    } else {
      PlaceKeepsMembers(classes[1..], x, eq);
      assert classes[0] in classes;
    }
  }

  lemma {:induction false} MembersComeFromInput<T(!new)>(xs: seq<T>, eq: (T, T) -> bool)
    ensures forall c, y :: c in FirstFit(xs, eq) && y in c.Members() ==> y in xs
  {
    if xs != [] {
      MembersComeFromInput(xs[..|xs| - 1], eq);
      PlaceKeepsMembers(FirstFit(xs[..|xs| - 1], eq), xs[|xs| - 1], eq);
      assert xs == xs[..|xs| - 1] + [xs[|xs| - 1]];
    }
  }

  // Partitioning one bucket gives exactly the classes of the whole whose representative is in that bucket.
  lemma {:induction false} BucketClasses<T(!new), K(!new)>(xs: seq<T>, key: T -> K, k: K, eq: (T, T) -> bool)
    requires Respects(xs, key, eq)
    ensures FirstFit(Bucket(xs, key, k), eq) == WithKey(FirstFit(xs, eq), key, k)
  {
    if xs != [] {
      var init, x := xs[..|xs| - 1], xs[|xs| - 1];
      BucketClasses(init, key, k, eq);
      RepresentativesKnown(xs, key, eq);
      if key(x) == k {
        PlaceSameKey(FirstFit(init, eq), x, key, eq);
        assert (Bucket(init, key, k) + [x])[..|Bucket(init, key, k)|] == Bucket(init, key, k);
      } else {
        PlaceOtherKey(FirstFit(init, eq), x, key, k, eq);
        assert Bucket(xs, key, k) == Bucket(init, key, k);
      }
    }
  }

  lemma RepresentativesKnown<T(!new), K(!new)>(xs: seq<T>, key: T -> K, eq: (T, T) -> bool)
    requires Respects(xs, key, eq) && xs != []
    ensures JoinsOwnKey(FirstFit(xs[..|xs| - 1], eq), xs[|xs| - 1], key, eq)
  {
    var classes := FirstFit(xs[..|xs| - 1], eq);
    MembersComeFromInput(xs[..|xs| - 1], eq);
    forall i | 0 <= i < |classes| ensures classes[i].representative in xs {
      assert classes[i] in classes && classes[i].Members()[0] == classes[i].representative;
      assert classes[i].representative in xs[..|xs| - 1];
    }
  }

  // The classes sorted into their keys, key after key.
  function ByKey<T, K(==)>(classes: seq<Class<T>>, key: T -> K, ks: seq<K>): seq<Class<T>>
  {
    if ks == [] then [] else ByKey(classes, key, ks[..|ks| - 1]) + WithKey(classes, key, ks[|ks| - 1])
  }

  lemma {:induction false} ByKeyOfOne<T(!new), K(!new)>(c: Class<T>, rest: seq<Class<T>>, key: T -> K, ks: seq<K>)
    requires NoDuplicates(ks)
    ensures multiset(ByKey([c] + rest, key, ks))
         == multiset(ByKey(rest, key, ks)) + if key(c.representative) in ks then multiset{c} else multiset{}
  {
    if ks != [] {
      var init, k := ks[..|ks| - 1], ks[|ks| - 1];
      ByKeyOfOne(c, rest, key, init);
      LastIsNew(ks);
      assert key(c.representative) in ks <==> key(c.representative) in init || key(c.representative) == k;
      WithKeyOfOne(c, rest, key, k);
    }
  }

  lemma WithKeyOfOne<T(!new), K(!new)>(c: Class<T>, rest: seq<Class<T>>, key: T -> K, k: K)
    ensures WithKey([c] + rest, key, k) == (if key(c.representative) == k then [c] else []) + WithKey(rest, key, k)
  {
    assert ([c] + rest)[1..] == rest;
  }

  lemma {:induction false} ByKeyIsPermutation<T(!new), K(!new)>(classes: seq<Class<T>>, key: T -> K, ks: seq<K>)
    requires forall i :: 0 <= i < |classes| ==> key(classes[i].representative) in ks
    requires NoDuplicates(ks)
    ensures multiset(ByKey(classes, key, ks)) == multiset(classes)
  {
    if classes == [] {
      NothingByKey<T, K>(key, ks);
    } else {
      ByKeyIsPermutation(classes[1..], key, ks);
      assert classes == [classes[0]] + classes[1..];
      ByKeyOfOne(classes[0], classes[1..], key, ks);
    }
  }

  lemma {:induction false} NothingByKey<T(!new), K(!new)>(key: T -> K, ks: seq<K>)
    ensures ByKey<T, K>([], key, ks) == []
  {
    if ks != [] {
      NothingByKey<T, K>(key, ks[..|ks| - 1]);
    }
  }

  lemma {:induction false} BucketedIsByKey<T(!new), K(!new)>(xs: seq<T>, key: T -> K, ks: seq<K>, eq: (T, T) -> bool)
    requires Respects(xs, key, eq)
    ensures Bucketed(xs, key, ks, eq) == ByKey(FirstFit(xs, eq), key, ks)
  {
    if ks != [] {
      BucketedIsByKey(xs, key, ks[..|ks| - 1], eq);
      BucketClasses(xs, key, ks[|ks| - 1], eq);
    }
  }

  // Bucketing by a key that equal values share finds the classes of the naive partition, member for member;
  // only the order in which the classes are listed may differ.
  lemma BucketingKeepsClasses<T(!new), K(!new)>(xs: seq<T>, key: T -> K, eq: (T, T) -> bool)
    requires Respects(xs, key, eq)
    ensures multiset(Bucketed(xs, key, KeysInOrder(xs, key), eq)) == multiset(FirstFit(xs, eq))
  {
    var ks, classes := KeysInOrder(xs, key), FirstFit(xs, eq);
    BucketedIsByKey(xs, key, ks, eq);
    MembersComeFromInput(xs, eq);
    forall i | 0 <= i < |classes| ensures key(classes[i].representative) in ks {
      assert classes[i] in classes && classes[i].Members()[0] == classes[i].representative;
      assert classes[i].representative in xs;
    }
    ByKeyIsPermutation(classes, key, ks);
  }

  lemma OneMoreKey<T(!new), K(!new)>(xs: seq<T>, i: nat, key: T -> K)
    requires i < |xs|
    ensures forall k :: Bucket(xs[..i + 1], key, k) == Bucket(xs[..i], key, k) + if key(xs[i]) == k then [xs[i]] else []
    ensures KeysInOrder(xs[..i + 1], key)
         == if key(xs[i]) in KeysInOrder(xs[..i], key) then KeysInOrder(xs[..i], key)
            else KeysInOrder(xs[..i], key) + [key(xs[i])]
  {
    assert xs[..i + 1][..i] == xs[..i];
  }

  method FillBuckets<T(!new), K(==,!new)>(xs: seq<T>, key: T -> K) returns (buckets: map<K, seq<T>>, bucketOrder: seq<K>)
    ensures bucketOrder == KeysInOrder(xs, key)
    ensures forall k :: k in buckets <==> k in bucketOrder
    ensures forall k :: Bucket(xs, key, k) == if k in buckets then buckets[k] else []
  {
    buckets, bucketOrder := map[], [];
    for i := 0 to |xs|
      invariant bucketOrder == KeysInOrder(xs[..i], key)
      invariant forall k :: k in buckets <==> k in bucketOrder
      invariant forall k :: Bucket(xs[..i], key, k) == if k in buckets then buckets[k] else []
    {
      hide Bucket, KeysInOrder;
      OneMoreKey(xs, i, key);
      var k := key(xs[i]);
      var members := [];
      if k in buckets {
        members := buckets[k];
      } else {
        bucketOrder := bucketOrder + [k];
      }
      buckets := buckets[k := members + [xs[i]]];
    }
    assert xs[..|xs|] == xs;
  }

  // Buckets filled in one pass, then each refined: the loop structure of the fast partition.
  method PartitionByKey<T(!new), K(==,!new)>(xs: seq<T>, key: T -> K, eq: (T, T) -> bool) returns (classes: seq<Class<T>>)
    ensures classes == Bucketed(xs, key, KeysInOrder(xs, key), eq)
  {
    var buckets, bucketOrder := FillBuckets(xs, key);
    classes := [];
    assert bucketOrder[..0] == [] && Bucketed(xs, key, bucketOrder[..0], eq) == [];
    hide Bucketed, Bucket, FirstFit, KeysInOrder;
    for i := 0 to |bucketOrder|
      invariant classes == Bucketed(xs, key, bucketOrder[..i], eq)
    {
      OneMoreBucket(xs, key, bucketOrder, i, eq);
      var bucketClasses := FirstFitLoop(buckets[bucketOrder[i]], eq);
      classes := classes + bucketClasses;
    }
    assert bucketOrder[..|bucketOrder|] == bucketOrder;
  }

  lemma OneMoreBucket<T, K>(xs: seq<T>, key: T -> K, ks: seq<K>, i: nat, eq: (T, T) -> bool)
    requires i < |ks|
    ensures Bucketed(xs, key, ks[..i + 1], eq) == Bucketed(xs, key, ks[..i], eq) + FirstFit(Bucket(xs, key, ks[i]), eq)
  {
    assert ks[..i + 1][..i] == ks[..i];
  }

  // ---------- What the classes are ----------

  ghost predicate Disjoint<T(!new)>(c: Class<T>, d: Class<T>)
  {
    forall y :: y in c.Members() ==> y !in d.Members()
  }

  ghost predicate ProperClass<T(!new)>(c: Class<T>, eq: (T, T) -> bool)
  {
    NoDuplicates(c.Members()) && forall y :: y in c.others ==> eq(c.representative, y)
  }

  // Classes of a duplicate-free input: no member twice, every member equal to its representative.
  ghost predicate ProperClasses<T(!new)>(classes: seq<Class<T>>, eq: (T, T) -> bool)
  {
    && (forall i :: 0 <= i < |classes| ==> ProperClass(classes[i], eq))
    && (forall i, j :: 0 <= i < j < |classes| ==> Disjoint(classes[i], classes[j]))
  }

  // Classes overlap only with themselves.
  lemma SharedMember<T(!new)>(classes: seq<Class<T>>, i: nat, j: nat, y: T, eq: (T, T) -> bool)
    requires ProperClasses(classes, eq) && i < |classes| && j < |classes|
    requires y in classes[i].Members() && y in classes[j].Members()
    ensures i == j
  {
  }

  lemma ProperHasNoDuplicates<T(!new)>(classes: seq<Class<T>>, eq: (T, T) -> bool)
    requires ProperClasses(classes, eq)
    ensures NoDuplicates(classes)
  {
    forall i, j | 0 <= i < j < |classes| ensures classes[i] != classes[j] {
      assert Disjoint(classes[i], classes[j]) && classes[i].Members()[0] in classes[i].Members();
    }
  }

  lemma {:induction false} CountedOnce<T(!new)>(xs: seq<T>)
    requires NoDuplicates(xs)
    ensures forall x :: multiset(xs)[x] <= 1
  {
    if xs != [] {
      CountedOnce(xs[..|xs| - 1]);
      LastIsNew(xs);
      assert xs == xs[..|xs| - 1] + [xs[|xs| - 1]];
    }
  }

  lemma PermutationHasNoDuplicates<T(!new)>(xs: seq<T>, ys: seq<T>)
    requires multiset(xs) == multiset(ys) && NoDuplicates(ys)
    ensures NoDuplicates(xs)
  {
    CountedOnce(ys);
    forall i, j | 0 <= i < j < |xs| ensures xs[i] != xs[j] {
      assert xs == xs[..i] + [xs[i]] + xs[i + 1..j] + [xs[j]] + xs[j + 1..];
      assert multiset(xs)[xs[i]] <= 1;
    }
  }

  lemma GrownIsProper<T(!new)>(classes: seq<Class<T>>, x: T, eq: (T, T) -> bool)
    requires ProperClasses(classes, eq) && forall i :: 0 <= i < |classes| ==> x !in classes[i].Members()
    requires classes != [] && eq(classes[0].representative, x)
    ensures ProperClasses([classes[0].(others := classes[0].others + [x])] + classes[1..], eq)
  {
    var c := classes[0].(others := classes[0].others + [x]);
    assert c.Members() == classes[0].Members() + [x];
    var r := [c] + classes[1..];
    forall i, j | 0 <= i < j < |r| ensures Disjoint(r[i], r[j]) {
      assert Disjoint(classes[i], classes[j]);
    }
  }

  lemma AddedIsProper<T(!new)>(c: Class<T>, classes: seq<Class<T>>, eq: (T, T) -> bool)
    requires ProperClass(c, eq) && ProperClasses(classes, eq)
    requires forall d :: d in classes ==> Disjoint(c, d)
    ensures ProperClasses([c] + classes, eq)
  {
    hide ProperClass, Disjoint;
  }

  lemma {:induction false} PlaceKeepsProper<T(!new)>(classes: seq<Class<T>>, x: T, eq: (T, T) -> bool)
    requires ProperClasses(classes, eq) && forall i :: 0 <= i < |classes| ==> x !in classes[i].Members()
    ensures ProperClasses(Place(classes, x, eq), eq)
  {
    if classes == [] {
    } else if eq(classes[0].representative, x) {
      GrownIsProper(classes, x, eq);
    } else {
      var rest, r := classes[1..], Place(classes[1..], x, eq);
      PlaceKeepsProper(rest, x, eq);
      PlaceKeepsMembers(rest, x, eq);
      forall e | e in rest ensures Disjoint(classes[0], e) {
        var k :| 0 <= k < |rest| && rest[k] == e;
        assert classes[k + 1] == e;
      }
      assert x !in classes[0].Members();
      AddedIsProper(classes[0], r, eq);
    }
  }

  lemma {:induction false} FirstFitIsProper<T(!new)>(xs: seq<T>, eq: (T, T) -> bool)
    requires NoDuplicates(xs)
    ensures ProperClasses(FirstFit(xs, eq), eq)
  {
    if xs != [] {
      var init, x := xs[..|xs| - 1], xs[|xs| - 1];
      FirstFitIsProper(init, eq);
      MembersComeFromInput(init, eq);
      var classes := FirstFit(init, eq);
      LastIsNew(xs);
      forall i | 0 <= i < |classes| ensures x !in classes[i].Members() {
        assert classes[i] in classes;
      }
      PlaceKeepsProper(classes, x, eq);
    }
  }

  // Flattened, the classes are the input again: nothing lost, nothing invented.
  function Flatten<T>(classes: seq<Class<T>>): seq<T>
  {
    if classes == [] then [] else classes[0].Members() + Flatten(classes[1..])
  }

  lemma {:induction false} PlaceAddsOne<T>(classes: seq<Class<T>>, x: T, eq: (T, T) -> bool)
    ensures multiset(Flatten(Place(classes, x, eq))) == multiset(Flatten(classes)) + multiset{x}
  {
    if classes == [] {
    } else if eq(classes[0].representative, x) {
      var c := classes[0].(others := classes[0].others + [x]);
      assert c.Members() == classes[0].Members() + [x];
    } else {
      PlaceAddsOne(classes[1..], x, eq);
    }
  }

  lemma OneMore<T>(xs: seq<T>)
    requires xs != []
    ensures multiset(xs) == multiset(xs[..|xs| - 1]) + multiset{xs[|xs| - 1]}
  {
    assert xs == xs[..|xs| - 1] + [xs[|xs| - 1]];
  }

  lemma {:induction false} FirstFitIsPermutation<T>(xs: seq<T>, eq: (T, T) -> bool)
    ensures multiset(Flatten(FirstFit(xs, eq))) == multiset(xs)
  {
    hide Place, Flatten;
    if xs == [] {
      assert Flatten(FirstFit(xs, eq)) == [] by { NothingToFit(eq); }
    } else {
      FirstFitIsPermutation(xs[..|xs| - 1], eq);
      PlaceAddsOne(FirstFit(xs[..|xs| - 1], eq), xs[|xs| - 1], eq);
      OneMore(xs);
    }
  }

  lemma NothingToFit<T>(eq: (T, T) -> bool)
    ensures Flatten(FirstFit([], eq)) == []
  {
  }

  // ---------- Nothing equal is kept apart ----------

  // No representative equals a later one.
  ghost predicate Apart<T(!new)>(classes: seq<Class<T>>, eq: (T, T) -> bool)
  {
    forall i, j :: 0 <= i < j < |classes| ==> !eq(classes[i].representative, classes[j].representative)
  }

  lemma {:induction false} PlaceKeepsApart<T(!new)>(classes: seq<Class<T>>, x: T, eq: (T, T) -> bool)
    requires Apart(classes, eq)
    ensures Apart(Place(classes, x, eq), eq)
    ensures forall j :: 0 <= j < |Place(classes, x, eq)| ==>
              var r := Place(classes, x, eq)[j].representative;
              r == x || exists i :: 0 <= i < |classes| && classes[i].representative == r
  {
    if classes == [] {
    } else if eq(classes[0].representative, x) {
      var placed := Place(classes, x, eq);
      assert forall j :: 0 <= j < |placed| ==> placed[j].representative == classes[j].representative;
    } else {
      var rest, placed := classes[1..], Place(classes[1..], x, eq);
      assert forall i :: 0 <= i < |rest| ==> rest[i] == classes[i + 1];
      PlaceKeepsApart(rest, x, eq);
      forall j | 0 <= j < |placed|
        ensures !eq(classes[0].representative, placed[j].representative)
        ensures placed[j].representative == x
                || exists i :: 0 <= i < |classes| && classes[i].representative == placed[j].representative {
        if placed[j].representative != x {
          var i :| 0 <= i < |rest| && rest[i].representative == placed[j].representative;
          assert classes[i + 1].representative == placed[j].representative;
        }
      }
    }
  }

  lemma {:induction false} FirstFitIsApart<T(!new)>(xs: seq<T>, eq: (T, T) -> bool)
    ensures Apart(FirstFit(xs, eq), eq)
  {
    if xs != [] {
      FirstFitIsApart(xs[..|xs| - 1], eq);
      PlaceKeepsApart(FirstFit(xs[..|xs| - 1], eq), xs[|xs| - 1], eq);
    }
  }

  lemma {:induction false} ClassOf<T(!new)>(classes: seq<Class<T>>, x: T) returns (i: nat)
    requires x in Flatten(classes)
    ensures i < |classes| && x in classes[i].Members()
  {
    if x in classes[0].Members() {
      i := 0;
    } else {
      i := ClassOf(classes[1..], x);
      i := i + 1;
    }
  }

  lemma MemberIs<T(!new)>(c: Class<T>, x: T)
    requires x in c.Members() && x != c.representative
    ensures x in c.others
  {
  }

  // Of two members that equal each other, one is listed behind a representative.
  lemma OneIsListed<T(!new)>(xs: seq<T>, a: T, b: T, eq: (T, T) -> bool) returns (i: nat)
    requires NoDuplicates(xs) && a in xs && b in xs && a != b && eq(a, b) && eq(b, a)
    ensures i < |FirstFit(xs, eq)| && (a in FirstFit(xs, eq)[i].others || b in FirstFit(xs, eq)[i].others)
  {
    var classes := FirstFit(xs, eq);
    FirstFitIsPermutation(xs, eq);
    FirstFitIsApart(xs, eq);
    assert a in multiset(xs) && b in multiset(xs);
    hide FirstFit, Flatten;
    var k := ClassOf(classes, a);
    i := ClassOf(classes, b);
    if b == classes[i].representative {
      if a != classes[k].representative {
        MemberIs(classes[k], a);
        i := k;
      }
    } else {
      MemberIs(classes[i], b);
    }
  }

  // Where equality is an equivalence, they are in the same class.
  lemma BothInOneClass<T(!new)>(xs: seq<T>, a: T, b: T, eq: (T, T) -> bool) returns (i: nat)
    requires NoDuplicates(xs) && a in xs && b in xs && eq(a, b)
    requires forall x, y :: x in xs && y in xs && eq(x, y) ==> eq(y, x)
    requires forall x, y, z :: x in xs && y in xs && z in xs && eq(x, y) && eq(y, z) ==> eq(x, z)
    requires forall x :: x in xs ==> eq(x, x)
    ensures i < |FirstFit(xs, eq)| && a in FirstFit(xs, eq)[i].Members() && b in FirstFit(xs, eq)[i].Members()
  {
    var classes := FirstFit(xs, eq);
    FirstFitIsPermutation(xs, eq);
    FirstFitIsApart(xs, eq);
    FirstFitIsProper(xs, eq);
    MembersComeFromInput(xs, eq);
    assert a in multiset(xs) && b in multiset(xs);
    hide FirstFit, Flatten;
    var k := ClassOf(classes, a);
    i := ClassOf(classes, b);
    EqualsRepresentative(classes, k, a, xs, eq);
    EqualsRepresentative(classes, i, b, xs, eq);
    hide ProperClasses, Class.Members;
    var p, q := classes[k].representative, classes[i].representative;
    assert eq(p, b) && eq(b, q) && eq(p, q) && eq(q, p);
  }

  lemma EqualsRepresentative<T(!new)>(classes: seq<Class<T>>, i: nat, x: T, xs: seq<T>, eq: (T, T) -> bool)
    requires ProperClasses(classes, eq) && i < |classes| && x in classes[i].Members()
    requires forall c, y :: c in classes && y in c.Members() ==> y in xs
    requires forall y :: y in xs ==> eq(y, y)
    ensures x in xs && classes[i].representative in xs && eq(classes[i].representative, x)
  {
    var c := classes[i];
    assert c in classes && c.Members()[0] == c.representative;
    if x != c.representative {
      MemberIs(c, x);
    }
  }
}
