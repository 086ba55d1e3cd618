/** One level of the search: group by structure, split each group by value, link every prototype to its duplicates.
    Stated for any kind of handle; the rules say what is grouped, what may merge and what is equal. */
module LevelMerging {
  import opened Sequences
  import opened Partitioning

  datatype Rules<!T, !K, !P> = Rules(
    grouped: T -> bool,        // takes part in the grouping at all
    key: T -> K,               // structural key
    mergeable: T -> bool,      // may become a prototype or a duplicate
    equal: (T, T) -> bool,     // pairwise value comparison
    path: T -> P)

  // ---------- What one level contributes ----------

  function Group<T, K(==), P>(level: seq<T>, rules: Rules<T, K, P>, k: K): seq<T>
  {
    Bucket(Select(level, rules.grouped), rules.key, k)
  }

  function Mergeable<T, K(==), P>(level: seq<T>, rules: Rules<T, K, P>, k: K): seq<T>
  {
    Select(Group(level, rules, k), rules.mergeable)
  }

  function Classes<T, K(==), P>(level: seq<T>, rules: Rules<T, K, P>, k: K): seq<Class<T>>
  {
    FirstFit(Mergeable(level, rules, k), rules.equal)
  }

  // The duplicates listed behind h, when h represents one of the classes.
  function Followers<T(==)>(classes: seq<Class<T>>, h: T): seq<T>
  {
    if classes == [] then []
    else if classes[0].representative == h then classes[0].others
    else Followers(classes[1..], h)
  }

  function FollowersOf<T(==), K(==), P>(level: seq<T>, rules: Rules<T, K, P>, h: T): seq<T>
  {
    Followers(Classes(level, rules, rules.key(h)), h)
  }

  function PathsOf<T, P>(hs: seq<T>, path: T -> P): (ps: seq<P>)
    ensures |ps| == |hs| && forall i :: 0 <= i < |hs| ==> ps[i] == path(hs[i])
  {
    seq(|hs|, i requires 0 <= i < |hs| => path(hs[i]))
  }

  // Prototype -> paths of its duplicates, in the order found.
  type Links<!T(==), P> = map<T, seq<P>>

  ghost function Linked<T(!new), K(!new), P(!new)>(level: seq<T>, rules: Rules<T, K, P>): Links<T, P>
  {
    map h | h in level && FollowersOf(level, rules, h) != [] :: PathsOf(FollowersOf(level, rules, h), rules.path)
  }

  ghost predicate Injective<T(!new), P(!new)>(hs: set<T>, path: T -> P)
  {
    forall a, b :: a in hs && b in hs && path(a) == path(b) ==> a == b
  }

  // The links with the prototypes written down by path, too.
  ghost function PlanOf<T(!new), P(!new)>(links: Links<T, P>, path: T -> P): map<P, seq<P>>
    requires Injective(links.Keys, path)
  {
    map h | h in links :: path(h) := links[h]
  }

  ghost function PrunedOf<T(!new), P(!new)>(links: Links<T, P>): set<P>
  {
    set h, p | h in links && p in links[h] :: p
  }

  // ---------- Facts about classes and followers ----------

  // The classes of one key: disjoint, from the level, all mergeable, all equal to their representative.
  lemma ClassFacts<T(!new), K(!new), P(!new)>(level: seq<T>, rules: Rules<T, K, P>, k: K)
    requires NoDuplicates(level)
    ensures ProperClasses(Classes(level, rules, k), rules.equal)
    ensures forall c, y :: c in Classes(level, rules, k) && y in c.Members() ==>
              y in level && rules.grouped(y) && rules.key(y) == k && rules.mergeable(y)
  {
    MergeableFacts(level, rules, k);
    FirstFitIsProper(Mergeable(level, rules, k), rules.equal);
    MembersComeFromInput(Mergeable(level, rules, k), rules.equal);
  }

  lemma MergeableFacts<T(!new), K(!new), P(!new)>(level: seq<T>, rules: Rules<T, K, P>, k: K)
    requires NoDuplicates(level)
    ensures NoDuplicates(Mergeable(level, rules, k))
    ensures forall y :: y in Group(level, rules, k) <==> y in level && rules.grouped(y) && rules.key(y) == k
    ensures forall y :: y in Mergeable(level, rules, k) <==> y in Group(level, rules, k) && rules.mergeable(y)
  {
    var kept, group := Select(level, rules.grouped), Group(level, rules, k);
    SelectHasNoDuplicates(level, rules.grouped);
    BucketHasNoDuplicates(kept, rules.key, k);
    SelectHasNoDuplicates(group, rules.mergeable);
    SelectMembers(level, rules.grouped);
    BucketMembers(kept, rules.key, k);
    SelectMembers(group, rules.mergeable);
  }

  lemma {:induction false} FollowersName<T(!new)>(classes: seq<Class<T>>, h: T) returns (i: nat)
    requires Followers(classes, h) != []
    ensures i < |classes| && classes[i] == Class(h, Followers(classes, h))
  {
    if classes[0].representative == h {
      i := 0;
    } else {
      i := FollowersName(classes[1..], h);
      i := i + 1;
    }
  }

  lemma {:induction false} NamesFollowers<T(!new)>(classes: seq<Class<T>>, i: nat, eq: (T, T) -> bool)
    requires ProperClasses(classes, eq) && i < |classes|
    ensures Followers(classes, classes[i].representative) == classes[i].others
  {
    if i > 0 {
      assert Disjoint(classes[0], classes[i]);
      assert classes[0].Members()[0] == classes[0].representative && classes[i].Members()[0] == classes[i].representative;
      assert classes[0].representative in classes[0].Members();
      NamesFollowers(classes[1..], i - 1, eq);
    }
  }

  // Prototype and duplicate are both in the level, mergeable, of the same structure and equal in value.
  lemma FollowerIsCopy<T(!new), K(!new), P(!new)>(level: seq<T>, rules: Rules<T, K, P>, h: T, d: T)
    requires NoDuplicates(level) && d in FollowersOf(level, rules, h)
    ensures h in level && d in level && d != h && rules.key(d) == rules.key(h)
    ensures rules.grouped(h) && rules.grouped(d) && rules.mergeable(h) && rules.mergeable(d)
    ensures rules.equal(h, d)
    ensures NoDuplicates(FollowersOf(level, rules, h))
  {
    hide FirstFit, Mergeable;
    var classes := Classes(level, rules, rules.key(h));
    ClassFacts(level, rules, rules.key(h));
    var i := FollowersName(classes, h);
    var c := classes[i];
    assert c in classes && ProperClass(c, rules.equal);
    assert c.Members()[0] == h && c.Members()[1..] == c.others;
    var m :| 0 <= m < |c.others| && c.others[m] == d;
    assert c.Members()[m + 1] == d;
    assert forall a :: 0 <= a < |c.others| ==> c.Members()[a + 1] == c.others[a];
  }

  // A duplicate has one prototype, and is not a prototype itself.
  lemma FollowerIsUnique<T(!new), K(!new), P(!new)>(level: seq<T>, rules: Rules<T, K, P>, h: T, d: T)
    requires NoDuplicates(level) && d in FollowersOf(level, rules, h)
    ensures forall g :: d in FollowersOf(level, rules, g) ==> g == h
    ensures FollowersOf(level, rules, d) == []
  {
    FollowerIsCopy(level, rules, h, d);
    var classes := Classes(level, rules, rules.key(h));
    ClassFacts(level, rules, rules.key(h));
    var i := FollowersName(classes, h);
    assert classes[i].Members()[1..] == classes[i].others && d in classes[i].Members();
    forall g | d in FollowersOf(level, rules, g) ensures g == h {
      FollowerIsCopy(level, rules, g, d);
      var j := FollowersName(classes, g);
      assert classes[j].Members()[1..] == classes[j].others && d in classes[j].Members();
      SharedMember(classes, i, j, d, rules.equal);
    }
    if FollowersOf(level, rules, d) != [] {
      var j := FollowersName(classes, d);
      assert classes[j].Members()[0] == d;
      SharedMember(classes, i, j, d, rules.equal);
    }
  }

  // ---------- The loops ----------

  // The fast partition finds the classes of the naive one.
  method PartitionByValues<T(!new), K, P>(group: seq<T>, rules: Rules<T, K, P>, fingerprint: T -> int) returns (classes: seq<Class<T>>)
    ensures classes == Bucketed(group, fingerprint, KeysInOrder(group, fingerprint), rules.equal)
    ensures Respects(group, fingerprint, rules.equal) ==> multiset(classes) == multiset(FirstFit(group, rules.equal))
  {
    classes := PartitionByKey(group, fingerprint, rules.equal);
    if Respects(group, fingerprint, rules.equal) {
      BucketingKeepsClasses(group, fingerprint, rules.equal);
    }
  }

  ghost predicate DistinctPaths<T(!new), P(!new)>(classes: seq<Class<T>>, path: T -> P)
  {
    forall i, j :: 0 <= i < j < |classes| ==> path(classes[i].representative) != path(classes[j].representative)
  }

  // Classes of one member link nothing.
  ghost function ClassLinks<T, P>(classes: seq<Class<T>>, path: T -> P): (links: Links<T, P>)
  {
    if classes == [] then map[]
    else
      var c, links := classes[|classes| - 1], ClassLinks(classes[..|classes| - 1], path);
      if c.others == [] then links else links[c.representative := PathsOf(c.others, path)]
  }

  lemma {:induction false} LinkOfClass<T(!new), P(!new)>(classes: seq<Class<T>>, path: T -> P, i: nat)
    requires DistinctPaths(classes, path) && i < |classes| && classes[i].others != []
    ensures classes[i].representative in ClassLinks(classes, path)
    ensures ClassLinks(classes, path)[classes[i].representative] == PathsOf(classes[i].others, path)
  {
    if i < |classes| - 1 {
      assert classes[..|classes| - 1][i] == classes[i];
      LinkOfClass(classes[..|classes| - 1], path, i);
    }
  }

  lemma {:induction false} ClassOfLink<T(!new), P(!new)>(classes: seq<Class<T>>, path: T -> P, h: T) returns (i: nat)
    requires h in ClassLinks(classes, path)
    ensures i < |classes| && classes[i].representative == h && classes[i].others != []
  {
    var c := classes[|classes| - 1];
    if c.others != [] && c.representative == h {
      i := |classes| - 1;
    } else {
      i := ClassOfLink(classes[..|classes| - 1], path, h);
    }
  }

  lemma PlanOfSum<T(!new), P(!new)>(a: Links<T, P>, b: Links<T, P>, path: T -> P)
    requires Injective(a.Keys + b.Keys, path)
    requires forall h :: h in a && h in b ==> a[h] == b[h]
    ensures Injective((a + b).Keys, path)
    ensures PlanOf(a + b, path) == PlanOf(a, path) + PlanOf(b, path)
    ensures PrunedOf(a + b) == PrunedOf(a) + PrunedOf(b)
  {
    assert (a + b).Keys == a.Keys + b.Keys;
    forall h | h in a ensures (a + b)[h] == a[h] {
    }
    hide PrunedOf;
    PlanPart(a + b, a, path);
    PlanPart(a + b, b, path);
    var l, r := PlanOf(a + b, path), PlanOf(a, path) + PlanOf(b, path);
    forall p | p in l ensures p in r {
      var h :| h in a + b && path(h) == p;
      assert h in a || h in b;
    }
    hide PlanOf;
    forall p | p in r ensures p in l && l[p] == r[p] {
    }
    PrunedSum(a, b);
  }

  // The plan of some of the links is part of the plan.
  lemma PlanPart<T(!new), P(!new)>(all: Links<T, P>, some: Links<T, P>, path: T -> P)
    requires Injective(all.Keys, path) && some.Keys <= all.Keys && forall h :: h in some ==> all[h] == some[h]
    ensures Injective(some.Keys, path)
    ensures forall p :: p in PlanOf(some, path) ==> p in PlanOf(all, path) && PlanOf(all, path)[p] == PlanOf(some, path)[p]
  {
    forall p | p in PlanOf(some, path) ensures p in PlanOf(all, path) && PlanOf(all, path)[p] == PlanOf(some, path)[p] {
      var h :| h in some && path(h) == p;
      assert h in all;
    }
  }

  lemma PrunedSum<T(!new), P(!new)>(a: Links<T, P>, b: Links<T, P>)
    requires forall h :: h in a && h in b ==> a[h] == b[h]
    ensures PrunedOf(a + b) == PrunedOf(a) + PrunedOf(b)
  {
    forall h | h in a ensures h in a + b && (a + b)[h] == a[h] {
    }
    forall h | h in b ensures h in a + b && (a + b)[h] == b[h] {
    }
    forall p | p in PrunedOf(a + b) ensures p in PrunedOf(a) + PrunedOf(b) {
      var h :| h in a + b && p in (a + b)[h];
      assert if h in a then p in a[h] else p in b[h];
    }
    forall p | p in PrunedOf(a) + PrunedOf(b) ensures p in PrunedOf(a + b) {
      if p in PrunedOf(a) {
        var h :| h in a && p in a[h];
        assert p in (a + b)[h];
      } else {
        var h :| h in b && p in b[h];
        assert p in (a + b)[h];
      }
    }
  }

  function ToSet<P>(ps: seq<P>): set<P>
  {
    set p | p in ps
  }

  method RecordClasses<T(==,!new), P(==,!new)>(classes: seq<Class<T>>, path: T -> P, plan: map<P, seq<P>>, pruned: set<P>)
    returns (plan': map<P, seq<P>>, pruned': set<P>)
    requires DistinctPaths(classes, path)
    requires forall i :: 0 <= i < |classes| ==> path(classes[i].representative) !in plan
    ensures Injective(ClassLinks(classes, path).Keys, path)
    ensures plan' == plan + PlanOf(ClassLinks(classes, path), path)
    ensures pruned' == pruned + PrunedOf(ClassLinks(classes, path))
  {
    plan', pruned' := plan, pruned;
    for i := 0 to |classes|
      invariant Noted(classes[..i], path, plan, pruned, plan', pruned')
    {
      var c := classes[i];
      NotedMore(classes, i, path, plan, pruned, plan', pruned');
      if c.others == [] {
        continue;
      }
      assert path(c.representative) !in plan';  // so the entry starts out empty
      plan' := plan'[path(c.representative) := PathsOf(c.others, path)];
      pruned' := pruned' + ToSet(PathsOf(c.others, path));
    }
    assert classes[..|classes|] == classes;
  }

  // What the classes handled so far have recorded.
  ghost predicate Noted<T(!new), P(!new)>(classes: seq<Class<T>>, path: T -> P, plan: map<P, seq<P>>, pruned: set<P>,
                                          plan': map<P, seq<P>>, pruned': set<P>)
  {
    && Injective(ClassLinks(classes, path).Keys, path)
    && plan' == plan + PlanOf(ClassLinks(classes, path), path)
    && pruned' == pruned + PrunedOf(ClassLinks(classes, path))
  }

  lemma NotedMore<T(!new), P(!new)>(classes: seq<Class<T>>, i: nat, path: T -> P, plan: map<P, seq<P>>, pruned: set<P>,
                                    plan': map<P, seq<P>>, pruned': set<P>)
    requires DistinctPaths(classes, path) && i < |classes| && path(classes[i].representative) !in plan
    requires Noted(classes[..i], path, plan, pruned, plan', pruned')
    ensures classes[i].others == [] ==> Noted(classes[..i + 1], path, plan, pruned, plan', pruned')
    ensures classes[i].others != [] ==>
              path(classes[i].representative) !in plan' &&
              Noted(classes[..i + 1], path, plan, pruned,
                    plan'[path(classes[i].representative) := PathsOf(classes[i].others, path)],
                    pruned' + ToSet(PathsOf(classes[i].others, path)))
  {
    var c, links := classes[i], ClassLinks(classes[..i], path);
    OneMoreClass(classes, i, path);
    if c.others != [] {
      PlanOfMore(links, c.representative, PathsOf(c.others, path), path);
      UpdateLast(plan, PlanOf(links, path), path(c.representative), PathsOf(c.others, path));
    }
  }

  lemma OneMoreClass<T(!new), P(!new)>(classes: seq<Class<T>>, i: nat, path: T -> P)
    requires DistinctPaths(classes, path) && i < |classes|
    ensures ClassLinks(classes[..i + 1], path)
         == if classes[i].others == [] then ClassLinks(classes[..i], path)
            else ClassLinks(classes[..i], path)[classes[i].representative := PathsOf(classes[i].others, path)]
    ensures forall h :: h in ClassLinks(classes[..i], path) ==> path(h) != path(classes[i].representative)
  {
    assert classes[..i + 1][..i] == classes[..i];
    forall h | h in ClassLinks(classes[..i], path) ensures path(h) != path(classes[i].representative) {
      var j := ClassOfLink(classes[..i], path, h);
    }
  }

  lemma PlanOfMore<T(!new), P(!new)>(links: Links<T, P>, h: T, ps: seq<P>, path: T -> P)
    requires Injective(links.Keys, path) && forall g :: g in links ==> path(g) != path(h)
    ensures Injective(links[h := ps].Keys, path) && path(h) !in PlanOf(links, path)
    ensures PlanOf(links[h := ps], path) == PlanOf(links, path)[path(h) := ps]
    ensures PrunedOf(links[h := ps]) == PrunedOf(links) + ToSet(ps)
  {
    var more := links[h := ps];
    assert h in more && more[h] == ps;
    assert forall g :: g in links ==> g in more && more[g] == links[g];
  }

  // ---------- Group after group ----------

  // The links of the groups in `keys`.
  ghost function Share<T(!new), K(!new), P(!new)>(links: Links<T, P>, rules: Rules<T, K, P>, keys: set<K>): Links<T, P>
  {
    map h | h in links && rules.key(h) in keys :: links[h]
  }

  lemma LinkedInLevel<T(!new), K(!new), P(!new)>(level: seq<T>, rules: Rules<T, K, P>)
    ensures forall h :: h in Linked(level, rules) ==> h in level
    ensures Injective(ToSet(level), rules.path) ==> Injective(Linked(level, rules).Keys, rules.path)
  {
  }

  // A group with fewer than two candidates links nothing.
  lemma FewLinkNothing<T(!new), K(!new), P(!new)>(level: seq<T>, rules: Rules<T, K, P>, k: K)
    requires NoDuplicates(level)
    requires |Group(level, rules, k)| < 2 || |Mergeable(level, rules, k)| < 2
    ensures Share(Linked(level, rules), rules, {k}) == map[]
  {
    MergeableFacts(level, rules, k);
    forall h | h in Linked(level, rules) && rules.key(h) == k ensures false {
      var d := FollowersOf(level, rules, h)[0];
      FollowerIsCopy(level, rules, h, d);
      TwoDifferent(Group(level, rules, k), h, d);
      TwoDifferent(Mergeable(level, rules, k), h, d);
    }
  }

  lemma TwoDifferent<T>(hs: seq<T>, a: T, b: T)
    requires a in hs && b in hs && a != b
    ensures |hs| >= 2
  {
  }

  // However the classes of one key are listed, they link what that key contributes to the level.
  lemma OneGroup<T(!new), K(!new), P(!new)>(level: seq<T>, rules: Rules<T, K, P>, k: K, classes: seq<Class<T>>)
    requires NoDuplicates(level) && Injective(ToSet(level), rules.path)
    requires multiset(classes) == multiset(Classes(level, rules, k))
    ensures DistinctPaths(classes, rules.path)
    ensures forall i :: 0 <= i < |classes| ==> classes[i].representative in level && rules.key(classes[i].representative) == k
    ensures ClassLinks(classes, rules.path) == Share(Linked(level, rules), rules, {k})
  {
    RepresentativesDiffer(level, rules, k, classes);
    forall i | 0 <= i < |classes|
      ensures classes[i].representative in level && rules.key(classes[i].representative) == k
    {
      ClassInLevel(level, rules, k, classes, i);
    }
    var links, share := ClassLinks(classes, rules.path), Share(Linked(level, rules), rules, {k});
    forall h | h in links ensures h in share && share[h] == links[h] {
      LinkIsShared(level, rules, k, classes, h);
    }
    forall h | h in share ensures h in links {
      var i := LinkIsClass(level, rules, k, classes, h);
      LinkOfClass(classes, rules.path, i);
    }
    SameLinks(links, share);
  }

  lemma SameLinks<T, P>(a: Links<T, P>, b: Links<T, P>)
    requires forall h :: h in a ==> h in b && b[h] == a[h]
    requires forall h :: h in b ==> h in a
    ensures a == b
  {
  }

  lemma LinkIsShared<T(!new), K(!new), P(!new)>(level: seq<T>, rules: Rules<T, K, P>, k: K, classes: seq<Class<T>>, h: T)
    requires NoDuplicates(level) && DistinctPaths(classes, rules.path)
    requires multiset(classes) == multiset(Classes(level, rules, k)) && h in ClassLinks(classes, rules.path)
    ensures h in Share(Linked(level, rules), rules, {k})
    ensures Share(Linked(level, rules), rules, {k})[h] == ClassLinks(classes, rules.path)[h]
  {
    var i := ClassOfLink(classes, rules.path, h);
    ClassInLevel(level, rules, k, classes, i);
    LinkOfClass(classes, rules.path, i);
  }

  lemma ClassInLevel<T(!new), K(!new), P(!new)>(level: seq<T>, rules: Rules<T, K, P>, k: K, classes: seq<Class<T>>, i: nat)
    requires NoDuplicates(level) && multiset(classes) == multiset(Classes(level, rules, k)) && i < |classes|
    ensures classes[i].representative in level && rules.key(classes[i].representative) == k
    ensures FollowersOf(level, rules, classes[i].representative) == classes[i].others
  {
    hide FirstFit, Mergeable, ProperClasses;
    var naive := Classes(level, rules, k);
    ClassFacts(level, rules, k);
    assert classes[i] in multiset(classes);
    var j :| 0 <= j < |naive| && naive[j] == classes[i];
    assert naive[j].Members()[0] == naive[j].representative;
    NamesFollowers(naive, j, rules.equal);
  }

  lemma LinkIsClass<T(!new), K(!new), P(!new)>(level: seq<T>, rules: Rules<T, K, P>, k: K, classes: seq<Class<T>>, h: T)
    returns (i: nat)
    requires multiset(classes) == multiset(Classes(level, rules, k))
    requires rules.key(h) == k && FollowersOf(level, rules, h) != []
    ensures i < |classes| && classes[i] == Class(h, FollowersOf(level, rules, h))
  {
    var naive := Classes(level, rules, k);
    var j := FollowersName(naive, h);
    assert naive[j] in multiset(naive) && naive[j] in multiset(classes);
    i :| 0 <= i < |classes| && classes[i] == naive[j];
  }

  lemma RepresentativesDiffer<T(!new), K(!new), P(!new)>(level: seq<T>, rules: Rules<T, K, P>, k: K, classes: seq<Class<T>>)
    requires NoDuplicates(level) && Injective(ToSet(level), rules.path)
    requires multiset(classes) == multiset(Classes(level, rules, k))
    ensures DistinctPaths(classes, rules.path)
  {
    var naive := Classes(level, rules, k);
    ClassFacts(level, rules, k);
    ProperHasNoDuplicates(naive, rules.equal);
    PermutationHasNoDuplicates(classes, naive);
    forall i, j | 0 <= i < j < |classes|
      ensures rules.path(classes[i].representative) != rules.path(classes[j].representative)
    {
      ClassInLevel(level, rules, k, classes, i);
      ClassInLevel(level, rules, k, classes, j);
      assert classes[i] != classes[j];
    }
  }

  lemma ShareMore<T(!new), K(!new), P(!new)>(links: Links<T, P>, rules: Rules<T, K, P>, done: set<K>, k: K)
    requires Injective(links.Keys, rules.path)
    ensures Injective(Share(links, rules, done).Keys, rules.path) && Injective(Share(links, rules, {k}).Keys, rules.path)
    ensures Injective(Share(links, rules, done + {k}).Keys, rules.path)
    ensures PlanOf(Share(links, rules, done + {k}), rules.path)
         == PlanOf(Share(links, rules, done), rules.path) + PlanOf(Share(links, rules, {k}), rules.path)
    ensures PrunedOf(Share(links, rules, done + {k}))
         == PrunedOf(Share(links, rules, done)) + PrunedOf(Share(links, rules, {k}))
  {
    var b, c := Share(links, rules, done), Share(links, rules, {k});
    assert Share(links, rules, done + {k}) == b + c;
    PlanOfSum(b, c, rules.path);
  }

  // Values that are equal share a fingerprint, within every structural group.
  ghost predicate FingerprintSound<T(!new), K(!new), P(!new)>(rules: Rules<T, K, P>, fingerprint: T -> int)
  {
    forall a, b :: rules.key(a) == rules.key(b) && rules.equal(a, b) ==> fingerprint(a) == fingerprint(b)
  }

  // One group of the level: skip it when it is too small, else partition it and record its classes.
  method ProcessGroup<T(==,!new), K(==,!new), P(==,!new)>(ghost level: seq<T>, rules: Rules<T, K, P>, fingerprint: T -> int,
                                                          ghost k: K, group: seq<T>,
                                                          plan: map<P, seq<P>>, pruned: set<P>)
    returns (plan': map<P, seq<P>>, pruned': set<P>)
    requires NoDuplicates(level) && Injective(ToSet(level), rules.path) && FingerprintSound(rules, fingerprint)
    requires group == Group(level, rules, k)
    requires forall h :: h in level && rules.key(h) == k ==> rules.path(h) !in plan
    ensures Injective(Share(Linked(level, rules), rules, {k}).Keys, rules.path)
    ensures plan' == plan + PlanOf(Share(Linked(level, rules), rules, {k}), rules.path)
    ensures pruned' == pruned + PrunedOf(Share(Linked(level, rules), rules, {k}))
  {
    if |group| < 2 {
      FewLinkNothing(level, rules, k);
      return plan, pruned;
    }
    var valid := SelectLoop(group, rules.mergeable);
    if |valid| < 2 {
      FewLinkNothing(level, rules, k);
      return plan, pruned;
    }
    MergeableFacts(level, rules, k);
    assert Respects(valid, fingerprint, rules.equal);
    var classes := PartitionByValues(valid, rules, fingerprint);
    OneGroup(level, rules, k, classes);
    plan', pruned' := RecordClasses(classes, rules.path, plan, pruned);
  }

  // The keys of the grouped prims cover everything that is linked.
  lemma AllGroups<T(!new), K(!new), P(!new)>(level: seq<T>, rules: Rules<T, K, P>, keys: set<K>)
    requires NoDuplicates(level)
    requires forall k :: k in KeysInOrder(Select(level, rules.grouped), rules.key) ==> k in keys
    ensures Share(Linked(level, rules), rules, keys) == Linked(level, rules)
  {
    SelectMembers(level, rules.grouped);
    forall h | h in Linked(level, rules) ensures rules.key(h) in keys {
      FollowerIsCopy(level, rules, h, FollowersOf(level, rules, h)[0]);
      assert h in Select(level, rules.grouped);
      assert rules.key(h) in KeysInOrder(Select(level, rules.grouped), rules.key);
    }
  }

  // All groups of the level, in whatever order the hash table lists them.
  method MergeLevel<T(==,!new), K(==,!new), P(==,!new)>(level: seq<T>, rules: Rules<T, K, P>, fingerprint: T -> int, plan: map<P, seq<P>>)
    returns (plan': map<P, seq<P>>, pruned: set<P>)
    requires NoDuplicates(level) && Injective(ToSet(level), rules.path) && FingerprintSound(rules, fingerprint)
    requires forall h :: h in level ==> rules.path(h) !in plan
    ensures Injective(Linked(level, rules).Keys, rules.path)
    ensures plan' == plan + PlanOf(Linked(level, rules), rules.path)
    ensures pruned == PrunedOf(Linked(level, rules))
  {
    hide Linked, FollowersOf, PlanOf, PrunedOf, Share, FingerprintSound, Select, Bucket, KeysInOrder;
    var kept := SelectLoop(level, rules.grouped);
    var groups, _ := FillBuckets(kept, rules.key);
    plan', pruned := plan, {};
    ghost var links, done := Linked(level, rules), {};
    LinkedInLevel(level, rules);
    NothingMerged(links, rules, plan);
    var todo := groups.Keys;
    while todo != {}
      invariant todo + done == groups.Keys && todo !! done
      invariant Merged(links, rules, done, plan, plan', pruned)
      decreases todo
    {
      var k :| k in todo;
      NotYetPlanned(level, rules, done, k);
      ghost var before, prunedBefore := plan', pruned;
      plan', pruned := ProcessGroup(level, rules, fingerprint, k, groups[k], plan', pruned);
      MergedMore(links, rules, done, k, plan, before, prunedBefore);
      todo, done := todo - {k}, done + {k};
    }
    AllGroups(level, rules, groups.Keys);
  }

  // What the groups handled so far have recorded.
  ghost predicate Merged<T(!new), K(!new), P(!new)>(links: Links<T, P>, rules: Rules<T, K, P>, done: set<K>,
                                                    plan: map<P, seq<P>>, plan': map<P, seq<P>>, pruned: set<P>)
  {
    && Injective(links.Keys, rules.path)
    && Injective(Share(links, rules, done).Keys, rules.path)
    && plan' == plan + PlanOf(Share(links, rules, done), rules.path)
    && pruned == PrunedOf(Share(links, rules, done))
  }

  lemma NothingMerged<T(!new), K(!new), P(!new)>(links: Links<T, P>, rules: Rules<T, K, P>, plan: map<P, seq<P>>)
    requires Injective(links.Keys, rules.path)
    ensures Merged(links, rules, {}, plan, plan, {})
  {
    assert Share(links, rules, {}) == map[];
  }

  lemma MergedMore<T(!new), K(!new), P(!new)>(links: Links<T, P>, rules: Rules<T, K, P>, done: set<K>, k: K,
                                              plan: map<P, seq<P>>, plan': map<P, seq<P>>, pruned: set<P>)
    requires Merged(links, rules, done, plan, plan', pruned)
    ensures Injective(Share(links, rules, {k}).Keys, rules.path)
    ensures Merged(links, rules, done + {k}, plan, plan' + PlanOf(Share(links, rules, {k}), rules.path),
                   pruned + PrunedOf(Share(links, rules, {k})))
  {
    ShareMore(links, rules, done, k);
    SumAssociative(plan, PlanOf(Share(links, rules, done), rules.path), PlanOf(Share(links, rules, {k}), rules.path));
  }

  lemma UpdateLast<K, V>(a: map<K, V>, b: map<K, V>, k: K, v: V)
    ensures (a + b)[k := v] == a + b[k := v]
  {
  }

  lemma SumAssociative<K, V>(a: map<K, V>, b: map<K, V>, c: map<K, V>)
    ensures (a + b) + c == a + (b + c)
  {
  }

  lemma NotYetPlanned<T(!new), K(!new), P(!new)>(level: seq<T>, rules: Rules<T, K, P>, done: set<K>, k: K)
    requires Injective(ToSet(level), rules.path) && k !in done
    ensures Injective(Share(Linked(level, rules), rules, done).Keys, rules.path)
    ensures forall h :: h in level && rules.key(h) == k ==>
              rules.path(h) !in PlanOf(Share(Linked(level, rules), rules, done), rules.path)
  {
    LinkedInLevel(level, rules);
  }

  // Two handles that may merge and are equal form one class.
  lemma PairMerges<T(!new), K(!new), P(!new)>(a: T, b: T, rules: Rules<T, K, P>)
    requires rules.grouped(a) && rules.grouped(b) && rules.mergeable(a) && rules.mergeable(b)
    requires rules.key(a) == rules.key(b) && rules.equal(a, b)
    ensures FollowersOf([a, b], rules, a) == [b]
  {
    var both, k := [a, b], rules.key(a);
    assert both[..1] == [a] && [a][..0] == [];
    assert Select([a], rules.grouped) == [a];
    assert Select(both, rules.grouped) == both;
    assert Bucket([a], rules.key, k) == [a];
    assert Group(both, rules, k) == both;
    assert Select([a], rules.mergeable) == [a];
    assert Mergeable(both, rules, k) == both;
    assert FirstFit([a], rules.equal) == [Class(a, [])];
    var c := Class(a, []);
    assert c.others + [b] == [b] && [c][1..] == [];
    assert Place([c], b, rules.equal) == [Class(a, [b])];
  }

  // ---------- Nothing equal is left alone ----------

  // What may merge with h in its level.
  ghost predicate Candidate<T(!new), K(!new), P(!new)>(level: seq<T>, rules: Rules<T, K, P>, h: T, k: K)
  {
    h in level && rules.grouped(h) && rules.mergeable(h) && rules.key(h) == k
  }

  // The followers of a representative are the rest of its class.
  lemma FollowersAre<T(!new), K(!new), P(!new)>(level: seq<T>, rules: Rules<T, K, P>, k: K, i: nat)
    requires NoDuplicates(level) && i < |Classes(level, rules, k)|
    ensures var c := Classes(level, rules, k)[i]; FollowersOf(level, rules, c.representative) == c.others
  {
    hide FirstFit, Mergeable;
    var classes := Classes(level, rules, k);
    ClassFacts(level, rules, k);
    var c := classes[i];
    assert c in classes && c.Members()[0] == c.representative;
    NamesFollowers(classes, i, rules.equal);
  }

  // Of two candidates that equal each other, one follows a prototype.
  lemma OneFollows<T(!new), K(!new), P(!new)>(level: seq<T>, rules: Rules<T, K, P>, a: T, b: T) returns (h: T)
    requires NoDuplicates(level) && a != b
    requires Candidate(level, rules, a, rules.key(a)) && Candidate(level, rules, b, rules.key(a))
    requires rules.equal(a, b) && rules.equal(b, a)
    ensures a in FollowersOf(level, rules, h) || b in FollowersOf(level, rules, h)
  {
    var k := rules.key(a);
    MergeableFacts(level, rules, k);
    hide Mergeable, Group, FirstFit, FollowersOf, NoDuplicates;
    var i := OneIsListed(Mergeable(level, rules, k), a, b, rules.equal);
    h := Classes(level, rules, k)[i].representative;
    FollowersAre(level, rules, k, i);
  }

  // Within a structural group, equality is an equivalence.
  ghost predicate Equivalence<T(!new), K(!new), P(!new)>(level: seq<T>, rules: Rules<T, K, P>)
  {
    && (forall x :: x in level ==> rules.equal(x, x))
    && (forall x, y :: x in level && y in level && rules.key(x) == rules.key(y) && rules.equal(x, y) ==> rules.equal(y, x))
    && (forall x, y, z :: x in level && y in level && z in level && rules.key(x) == rules.key(y) == rules.key(z) ==>
          rules.equal(x, y) && rules.equal(y, z) ==> rules.equal(x, z))
  }

  // Then both belong to one prototype.
  lemma BothFollow<T(!new), K(!new), P(!new)>(level: seq<T>, rules: Rules<T, K, P>, a: T, b: T) returns (h: T)
    requires NoDuplicates(level)
    requires Candidate(level, rules, a, rules.key(a)) && Candidate(level, rules, b, rules.key(a)) && rules.equal(a, b)
    requires Equivalence(level, rules)
    ensures a == h || a in FollowersOf(level, rules, h)
    ensures b == h || b in FollowersOf(level, rules, h)
  {
    var k := rules.key(a);
    MergeableFacts(level, rules, k);
    hide Mergeable, Group, FirstFit, FollowersOf, NoDuplicates;
    var i := BothInOneClass(Mergeable(level, rules, k), a, b, rules.equal);
    var c := Classes(level, rules, k)[i];
    h := c.representative;
    FollowersAre(level, rules, k, i);
    if a != h {
      MemberIs(c, a);
    }
    if b != h {
      MemberIs(c, b);
    }
  }
}
