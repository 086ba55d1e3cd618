/** The skeletons of a stage, found before its prims are converted: which prims are corrected at their own root, and
    which are left alone because they lie inside a skeleton. */
module SkeletonSearch {
  import opened StageMetrics

  // A prim's place: the positions of the children on the way down to it.
  type Place = seq<nat>

  predicate Valid(p: Prim, q: Place)
    decreases |q|
  {
    q == [] || (q[0] < |p.children| && Valid(p.children[q[0]], q[1..]))
  }

  function PrimAt(p: Prim, q: Place): Prim
    requires Valid(p, q)
    decreases |q|
  {
    if q == [] then p else PrimAt(p.children[q[0]], q[1..])
  }

  // A skeleton root lies strictly above the place.
  predicate Inside(p: Prim, q: Place)
    requires Valid(p, q)
    decreases |q|
  {
    q != [] && (p.kind.SkeletonRoot? || Inside(p.children[q[0]], q[1..]))
  }

  ghost predicate Recorded(root: Prim, q: Place)
    requires Valid(root, q)
  {
    Inside(root, q) || PrimAt(root, q).kind.SkeletonRoot?
  }

  // What the cache says about a place: a root of its own, inside a skeleton, or nothing.
  ghost predicate CacheAt(root: Prim, cache: map<Place, bool>, q: Place)
    requires Valid(root, q)
  {
    && (q in cache <==> Recorded(root, q))
    && (q in cache ==> cache[q] == !Inside(root, q))
  }

  lemma {:induction false} Down(p: Prim, q: Place, i: nat)
    requires Valid(p, q)
    ensures Valid(p, q + [i]) <==> i < |PrimAt(p, q).children|
    ensures Valid(p, q + [i]) ==>
              PrimAt(p, q + [i]) == PrimAt(p, q).children[i]
              && Inside(p, q + [i]) == (Inside(p, q) || PrimAt(p, q).kind.SkeletonRoot?)
    decreases |q|
  {
    if q == [] {
      assert (q + [i])[1..] == [];
    } else {
      assert (q + [i])[1..] == q[1..] + [i];
      Down(p.children[q[0]], q[1..], i);
    }
  }

  lemma {:induction false} ValidAbove(p: Prim, q: Place, k: nat)
    requires Valid(p, q) && k <= |q|
    ensures Valid(p, q[..k])
    decreases k
  {
    if k > 0 {
      ValidAbove(p.children[q[0]], q[1..], k - 1);
      assert q[..k][1..] == q[1..][..k - 1];
    }
  }

  // Everything below a skeleton root is inside.
  lemma {:induction false} InsideBelow(p: Prim, t: Place, q: Place)
    requires Valid(p, t) && Valid(p, q) && t < q && PrimAt(p, t).kind.SkeletonRoot?
    ensures Inside(p, q)
    decreases |t|
  {
    if t != [] {
      assert t[1..] < q[1..];
      InsideBelow(p.children[t[0]], t[1..], q[1..]);
    }
  }

  /** Inside means that some prim strictly above is a skeleton root. */
  lemma {:induction false} InsideIff(p: Prim, q: Place)
    requires Valid(p, q)
    ensures Inside(p, q) <==> exists t :: t < q && Valid(p, t) && PrimAt(p, t).kind.SkeletonRoot?
    decreases |q|
  {
    if q != [] {
      var c := p.children[q[0]];
      InsideIff(c, q[1..]);
      if p.kind.SkeletonRoot? {
        var here: Place := [];
        assert here < q && Valid(p, here) && PrimAt(p, here) == p;
      } else if t :| t < q[1..] && Valid(c, t) && PrimAt(c, t).kind.SkeletonRoot? {
        var here := [q[0]] + t;
        assert here[0] == q[0] && here[1..] == t && here < q;
        assert Valid(p, here) && PrimAt(p, here) == PrimAt(c, t);
      }
      if t :| t < q && Valid(p, t) && PrimAt(p, t).kind.SkeletonRoot? {
        InsideBelow(p, t, q);
      }
    }
  }

  // ---------- Worklists of places ----------

  ghost predicate Apart(todo: seq<Place>)
  {
    forall i, j :: 0 <= i < |todo| && 0 <= j < |todo| && i != j ==> !(todo[i] <= todo[j])
  }

  ghost predicate Covered(todo: seq<Place>, q: Place)
  {
    exists i :: 0 <= i < |todo| && todo[i] <= q
  }

  ghost predicate AllValid(root: Prim, todo: seq<Place>)
  {
    forall i :: 0 <= i < |todo| ==> Valid(root, todo[i])
  }

  function Steps(t: Place, n: nat): (r: seq<Place>)
    ensures |r| == n && forall i :: 0 <= i < n ==> r[i] == t + [i]
  {
    seq(n, i requires 0 <= i < n => t + [i])
  }

  function Size(p: Prim): nat { 1 + SizeAll(p.children) }

  function SizeAll(ps: seq<Prim>): nat { if ps == [] then 0 else Size(ps[0]) + SizeAll(ps[1..]) }

  ghost function Work(root: Prim, todo: seq<Place>): nat
    requires AllValid(root, todo)
  {
    if todo == [] then 0 else Size(PrimAt(root, todo[0])) + Work(root, todo[1..])
  }

  lemma {:induction false} WorkConcat(root: Prim, a: seq<Place>, b: seq<Place>)
    requires AllValid(root, a) && AllValid(root, b)
    ensures AllValid(root, a + b) && Work(root, a + b) == Work(root, a) + Work(root, b)
  {
    hide Size, Valid, PrimAt;
    if a == [] {
      assert a + b == b;
    } else {
      assert (a + b)[1..] == a[1..] + b;
      WorkConcat(root, a[1..], b);
    }
  }

  lemma {:induction false} WorkOfSteps(root: Prim, t: Place, n: nat)
    requires Valid(root, t) && n <= |PrimAt(root, t).children|
    ensures AllValid(root, Steps(t, n)) && Work(root, Steps(t, n)) == SizeAll(PrimAt(root, t).children[..n])
  {
    hide Size, Valid, PrimAt;
    var ps := PrimAt(root, t).children;
    forall i | 0 <= i < n ensures Valid(root, t + [i]) && PrimAt(root, t + [i]) == ps[i] {
      Down(root, t, i);
    }
    if n > 0 {
      WorkOfSteps(root, t, n - 1);
      assert Steps(t, n) == Steps(t, n - 1) + [t + [n - 1]];
      WorkConcat(root, Steps(t, n - 1), [t + [n - 1]]);
      assert Work(root, [t + [n - 1]]) == Size(ps[n - 1]) by { assert [t + [n - 1]][1..] == []; }
      SizeMore(ps, n - 1);
    }
  }

  lemma {:induction false} SizeMore(ps: seq<Prim>, n: nat)
    requires n < |ps|
    ensures SizeAll(ps[..n + 1]) == SizeAll(ps[..n]) + Size(ps[n])
    decreases n
  {
    hide Size;
    if n == 0 {
      assert ps[..1][1..] == [];
    } else {
      assert ps[..n + 1][1..] == ps[1..][..n] && ps[..n][1..] == ps[1..][..n - 1];
      SizeMore(ps[1..], n - 1);
    }
  }

  // The places of the first one's children, and the other places.
  ghost function Next(root: Prim, todo: seq<Place>): seq<Place>
    requires todo != [] && Valid(root, todo[0])
  {
    Steps(todo[0], |PrimAt(root, todo[0]).children|) + todo[1..]
  }

  // Taking the first place, or replacing it by those of its children, leaves less to do.
  lemma NextIsLess(root: Prim, todo: seq<Place>)
    requires todo != [] && AllValid(root, todo)
    ensures AllValid(root, Next(root, todo)) && Work(root, Next(root, todo)) < Work(root, todo)
    ensures AllValid(root, todo[1..]) && Work(root, todo[1..]) < Work(root, todo)
  {
    var t := todo[0];
    var n := |PrimAt(root, t).children|;
    assert PrimAt(root, t).children[..n] == PrimAt(root, t).children;
    WorkOfSteps(root, t, n);
    assert AllValid(root, todo[1..]);
    WorkConcat(root, Steps(t, n), todo[1..]);
    hide PrimAt, Valid, SizeAll, AllValid;
  }

  // What they cover: all that was covered but the first place itself.
  lemma NextCovers(root: Prim, todo: seq<Place>, q: Place)
    requires todo != [] && AllValid(root, todo) && Apart(todo) && Valid(root, q)
    ensures Covered(todo, q) <==> Covered(Next(root, todo), q) || q == todo[0]
    ensures Covered(todo, q) <==> Covered(todo[1..], q) || todo[0] <= q
    ensures todo[0] <= q ==> !Covered(todo[1..], q)
    ensures q == todo[0] ==> !Covered(Next(root, todo), q)
  {
    var t := todo[0];
    var n := |PrimAt(root, t).children|;
    CoveredReplaced(todo, n, q);
    if t < q {
      ValidAbove(root, q, |t| + 1);
      assert q[..|t| + 1] == t + [q[|t|]];
      Down(root, t, q[|t|]);
      assert Steps(t, n)[q[|t|]] == t + [q[|t|]] <= q;
      assert Covered(Steps(t, n), q);
    }
    hide Covered, Apart, PrimAt, Valid;
  }

  lemma ApartReplaced(todo: seq<Place>, n: nat)
    requires todo != [] && Apart(todo)
    ensures Apart(Steps(todo[0], n) + todo[1..]) && Apart(todo[1..])
  {
    var t, rest := todo[0], todo[1..];
    var next := Steps(t, n) + rest;
    assert forall i :: 0 <= i < |rest| ==> rest[i] == todo[i + 1];
    forall i, j | 0 <= i < |next| && 0 <= j < |next| && i != j ensures !(next[i] <= next[j]) {
      if i < n {
        assert next[i] == t + [i] && next[i][|t|] == i;
      } else {
        assert next[i] == todo[i - n + 1];
      }
      if j < n {
        assert next[j] == t + [j] && next[j][|t|] == j;
      } else {
        assert next[j] == todo[j - n + 1];
      }
      if j < n <= i {
        NotAboveToo(t, next[i], next[j]);
      }
    }
  }

  // Two prefixes of one place are comparable.
  lemma NotAboveToo(t: Place, u: Place, q: Place)
    requires t <= q && !(t <= u) && !(u <= t)
    ensures !(u <= q)
  {
  }

  lemma CoveredReplaced(todo: seq<Place>, n: nat, q: Place)
    requires todo != [] && Apart(todo)
    ensures Covered(todo, q) <==> Covered(todo[1..], q) || todo[0] <= q
    ensures todo[0] <= q ==> !Covered(todo[1..], q)
    ensures Covered(Steps(todo[0], n) + todo[1..], q) <==> Covered(Steps(todo[0], n), q) || Covered(todo[1..], q)
    ensures Covered(Steps(todo[0], n), q) ==> todo[0] < q
  {
    var t, rest, steps := todo[0], todo[1..], Steps(todo[0], n);
    var next := steps + rest;
    assert forall i :: 0 <= i < |rest| ==> todo[i + 1] == rest[i];
    if t <= q {
      forall i | 0 <= i < |rest| ensures !(rest[i] <= q) {
        NotAboveToo(t, rest[i], q);
      }
    }
    if i :| 0 <= i < |rest| && rest[i] <= q {
      assert next[n + i] == rest[i];
    }
    if i :| 0 <= i < |todo| && todo[i] <= q {
      if i > 0 {
        assert rest[i - 1] == todo[i];
      }
    }
    if i :| 0 <= i < |steps| && steps[i] <= q {
      assert next[i] == steps[i];
    }
    if i :| 0 <= i < |next| && next[i] <= q {
      if i < n {
        assert next[i] == steps[i];
      } else {
        assert next[i] == rest[i - n];
      }
    }
  }

  // ---------- The search ----------

  // Same entry, or both without.
  predicate SameEntry(a: map<Place, bool>, b: map<Place, bool>, q: Place)
  {
    (q in a <==> q in b) && (q in a ==> a[q] == b[q])
  }

  // Of the descendants, all but those waiting to be visited are marked; nothing else is touched.
  ghost predicate Marked(root: Prim, t: Place, start: map<Place, bool>, cache: map<Place, bool>, todo: seq<Place>)
  {
    && AllValid(root, todo) && Apart(todo)
    && (forall q :: Valid(root, q) && Covered(todo, q) ==> t < q)
    && (forall q :: Valid(root, q) && t < q && !Covered(todo, q) ==> q in cache && !cache[q])
    && (forall q :: !(Valid(root, q) && t < q) ==> SameEntry(cache, start, q))
  }

  lemma FirstIsCovered(root: Prim, todo: seq<Place>)
    requires todo != [] && AllValid(root, todo)
    ensures Valid(root, todo[0]) && Covered(todo, todo[0])
  {
    assert todo[0] <= todo[0];
    hide Valid;
  }

  lemma MarkKeeps(root: Prim, t: Place, start: map<Place, bool>, cache: map<Place, bool>, todo: seq<Place>)
    requires Marked(root, t, start, cache, todo) && todo != []
    ensures Valid(root, todo[0])
    ensures Marked(root, t, start, cache[todo[0] := false], Next(root, todo))
  {
    hide Covered, Apart, AllValid, Valid, PrimAt, Work;
    FirstIsCovered(root, todo);
    var here, next := todo[0], Next(root, todo);
    NextIsLess(root, todo);
    ApartReplaced(todo, |PrimAt(root, here).children|);
    assert Apart(next) && AllValid(root, next);
    hide Next;
    assert t < here;
    var cache' := cache[here := false];
    forall q | Valid(root, q) && Covered(next, q) ensures t < q {
      NextCovers(root, todo, q);
      assert Covered(todo, q);
    }
    forall q | Valid(root, q) && t < q && !Covered(next, q) ensures q in cache' && !cache'[q] {
      NextCovers(root, todo, q);
      assert q == here || !Covered(todo, q);
    }
    forall q | !(Valid(root, q) && t < q) ensures SameEntry(cache', start, q) {
      assert q != here && SameEntry(cache, start, q);
    }
    hide SameEntry;
  }

  // All descendants of a skeleton root are marked as inside it.
  method MarkDescendants(root: Prim, t: Place, start: map<Place, bool>) returns (cache: map<Place, bool>)
    requires Valid(root, t)
    ensures forall q :: Valid(root, q) && t < q ==> q in cache && !cache[q]
    ensures forall q :: !(Valid(root, q) && t < q) ==> SameEntry(cache, start, q)
  {
    cache := start;
    var todo := Steps(t, |PrimAt(root, t).children|);
    WorkOfSteps(root, t, |PrimAt(root, t).children|);
    StepsCover(root, t);
    while todo != []
      invariant Marked(root, t, start, cache, todo)
      decreases Work(root, todo)
    {
      var here := todo[0];
      NextIsLess(root, todo);
      MarkKeeps(root, t, start, cache, todo);
      cache := cache[here := false];
      todo := Steps(here, |PrimAt(root, here).children|) + todo[1..];
      hide Marked, Work;
    }
    assert forall q :: !Covered([], q);
  }

  lemma StepsCover(root: Prim, t: Place)
    requires Valid(root, t)
    ensures var todo := Steps(t, |PrimAt(root, t).children|);
            Apart(todo) && forall q :: Valid(root, q) ==> (Covered(todo, q) <==> t < q)
  {
    var todo := Steps(t, |PrimAt(root, t).children|);
    assert forall i :: 0 <= i < |todo| ==> todo[i][|t|] == i;
    forall q | Valid(root, q) ensures Covered(todo, q) <==> t < q {
      if t < q {
        ValidAbove(root, q, |t| + 1);
        assert q[..|t| + 1] == t + [q[|t|]];
        Down(root, t, q[|t|]);
        assert todo[q[|t|]] <= q;
      }
    }
  }

  // Everything that is not waiting to be visited is as it should be.
  ghost predicate Found(root: Prim, cache: map<Place, bool>, todo: seq<Place>)
  {
    && AllValid(root, todo) && Apart(todo)
    && (forall i :: 0 <= i < |todo| ==> Valid(root, todo[i]) && !Inside(root, todo[i]))
    && (forall q :: Valid(root, q) && !Covered(todo, q) ==> CacheAt(root, cache, q))
    && (forall q :: Valid(root, q) && Covered(todo, q) ==> q !in cache)
    && (forall q :: q in cache ==> Valid(root, q))
  }

  // A prim that is no skeleton root is passed, and its children are next.
  lemma PassKeeps(root: Prim, cache: map<Place, bool>, todo: seq<Place>)
    requires Found(root, cache, todo) && todo != [] && !PrimAt(root, todo[0]).kind.SkeletonRoot?
    ensures Found(root, cache, Next(root, todo))
  {
    hide Covered, Apart, AllValid, Valid, Inside, Work;
    FirstIsCovered(root, todo);
    var here := todo[0];
    var steps, rest := Steps(here, |PrimAt(root, here).children|), todo[1..];
    NextIsLess(root, todo);
    ApartReplaced(todo, |steps|);
    forall q | Valid(root, q)
      ensures Covered(todo, q) <==> Covered(Next(root, todo), q) || q == here
      ensures q == here ==> !Covered(Next(root, todo), q) {
      NextCovers(root, todo, q);
    }
    assert forall i :: 0 <= i < |rest| ==> rest[i] == todo[i + 1];
    forall i | 0 <= i < |steps| ensures Valid(root, steps[i]) && !Inside(root, steps[i]) {
      Down(root, here, i);
    }
    hide PrimAt;
  }

  // A skeleton root is recorded with everything below it, which is then not visited.
  lemma RootKeeps(root: Prim, cache: map<Place, bool>, cache': map<Place, bool>, todo: seq<Place>)
    requires Found(root, cache, todo) && todo != [] && PrimAt(root, todo[0]).kind.SkeletonRoot?
    requires todo[0] in cache' && cache'[todo[0]]
    requires forall q :: Valid(root, q) && todo[0] < q ==> q in cache' && !cache'[q]
    requires forall q :: !(Valid(root, q) && todo[0] <= q) ==> SameEntry(cache', cache, q)
    ensures Found(root, cache', todo[1..])
  {
    hide Covered, Apart, AllValid, Valid, PrimAt, Inside, Work;
    FirstIsCovered(root, todo);
    NextIsLess(root, todo);
    ApartReplaced(todo, 0);
    var here, rest := todo[0], todo[1..];
    forall i | 0 <= i < |rest| ensures Valid(root, rest[i]) && !Inside(root, rest[i]) {
      assert rest[i] == todo[i + 1];
    }
    forall q | Valid(root, q) && Covered(rest, q) ensures q !in cache' {
      NextCovers(root, todo, q);
    }
    forall q | Valid(root, q) && !Covered(rest, q) ensures CacheAt(root, cache', q) {
      NextCovers(root, todo, q);
      if here < q {
        InsideBelow(root, here, q);
      } else if here != q {
        assert CacheAt(root, cache, q);
      }
    }
    hide CacheAt;
  }

  // Only the root itself and what is below it have new entries.
  lemma RootRecorded(root: Prim, cache: map<Place, bool>, recorded: map<Place, bool>, here: Place)
    requires Valid(root, here)
    requires forall q :: !(Valid(root, q) && here < q) ==> SameEntry(recorded, cache[here := true], q)
    ensures here in recorded && recorded[here]
    ensures forall q :: !(Valid(root, q) && here <= q) ==> SameEntry(recorded, cache, q)
  {
    hide Valid;
    assert SameEntry(recorded, cache[here := true], here);
    forall q | !(Valid(root, q) && here <= q) ensures SameEntry(recorded, cache, q) {
      assert SameEntry(recorded, cache[here := true], q);
    }
  }

  /** One traversal records every skeleton root that lies in no other skeleton as a root, everything below such a root
      as inside, nested roots included, and nothing else. */
  method FindSkeletons(root: Prim) returns (cache: map<Place, bool>)
    ensures forall q :: Valid(root, q) ==> CacheAt(root, cache, q)
    ensures forall q :: q in cache ==> Valid(root, q)
  {
    cache := map[];
    var todo: seq<Place> := [[]];
    assert Found(root, cache, todo) by {
      forall q ensures Covered(todo, q) {
        assert todo[0] <= q;
      }
    }
    while todo != []
      invariant Found(root, cache, todo)
      decreases Work(root, todo)
    {
      var here := todo[0];
      NextIsLess(root, todo);
      FirstIsCovered(root, todo);
      hide Found, CacheAt, Work, AllValid, Valid, SameEntry;
      if PrimAt(root, here).kind.SkeletonRoot? {
        var recorded := MarkDescendants(root, here, cache[here := true]);
        RootRecorded(root, cache, recorded, here);
        RootKeeps(root, cache, recorded, todo);
        cache := recorded;
        todo := todo[1..];
      } else {
        PassKeeps(root, cache, todo);
        todo := Steps(here, |PrimAt(root, here).children|) + todo[1..];
      }
    }
    assert forall q :: !Covered([], q);
  }

  // ---------- What the cache is used for ----------

  // The conversion of a prim is told by its cache entry alone: left alone, corrected as a root, or rewritten.
  lemma {:induction false} ConversionFollowsCache(settings: Settings, p: Prim, q: Place, inside: bool)
    requires settings.stopAtSkeletons && Ready(settings, p, inside) && Valid(p, q)
    ensures Ready(settings, PrimAt(p, q), inside || Inside(p, q))
    ensures Valid(Converted(settings, p, inside), q)
    ensures PrimAt(Converted(settings, p, inside), q) == Converted(settings, PrimAt(p, q), inside || Inside(p, q))
    decreases |q|
  {
    if q != [] {
      ConvertedChild(settings, p, inside, q[0]);
      hide Converted, Ready;
      ConversionFollowsCache(settings, p.children[q[0]], q[1..], inside || Stops(settings, p.kind));
    }
  }
}
