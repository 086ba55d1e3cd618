/** What a reader of the deduplicated stage sees when values were matched within a tolerance: the original tree, with
    floating-point values that may drift by the tolerance at every reference on the way to them. */
module HierarchyDrift {
  import opened Wrappers
  import opened SceneTree
  import opened Matching
  import opened MatchMeaning
  import opened MergePlans
  import opened HierarchySearch
  import opened HierarchyReferences
  import opened HierarchyMeaning

  // ---------- Trees of one shape ----------

  lemma {:induction false} SiblingsAlike(xs: seq<Prim>, ys: seq<Prim>)
    requires SameShapes(xs, ys)
    ensures |xs| == |ys| && forall i :: 0 <= i < |xs| ==> xs[i].name == ys[i].name && SameShape(xs[i], ys[i])
  {
    if xs != [] {
      hide SameShape;
      SiblingsAlike(xs[1..], ys[1..]);
      assert forall i :: 1 <= i < |xs| ==> xs[i] == xs[1..][i - 1] && ys[i] == ys[1..][i - 1];
    }
  }

  lemma {:induction false} ShapeAt(a: Prim, b: Prim, path: Path)
    requires SameShape(a, b)
    ensures At(a, path).Some? <==> At(b, path).Some?
    ensures At(a, path).Some? ==> SameShape(At(a, path).value, At(b, path).value)
    ensures At(a, path).Some? && path != [] ==> At(a, path).value.name == At(b, path).value.name
    decreases |path|
  {
    SiblingsAlike(a.children, b.children);
    if path != [] {
      SameNamesSameIndex(a.children, b.children, path[0]);
      var i := ChildIndex(a.children, path[0]);
      if i < |a.children| {
        hide SameShape;
        ShapeAt(a.children[i], b.children[i], path[1..]);
        assert path[1..] == [] ==> At(a, path) == Some(a.children[i]) && At(b, path) == Some(b.children[i]);
      }
    }
  }

  // ---------- Drift ----------

  lemma PrototypesStay(plan: Plan, d: Path)
    requires Tidy(plan) && d in ReferencesOf(plan)
    ensures ReferencesOf(plan)[d] !in ReferencesOf(plan)
  {
    PrototypeReachable(plan, ReferencesOf(plan)[d], d);
  }

  // How many references a reader follows on the way from the prim at `at` to the prim `more` below it.
  ghost function Hops(plan: Plan, at: Path, more: Path): nat
    requires Tidy(plan)
    decreases |more|, if at in ReferencesOf(plan) then 1 else 0
  {
    if more == [] then 0
    else if at in ReferencesOf(plan) then
      PrototypesStay(plan, at);
      1 + Hops(plan, ReferencesOf(plan)[at], more)
    else Hops(plan, at + [more[0]], more[1..])
  }

  ghost function Allowance(tolerance: real, hops: nat): real { tolerance * hops as real }

  // The value, or nearly: each component is off by less than the tolerance for every reference.
  ghost predicate Drifted(x: Value, y: Value, tolerance: real, hops: nat)
  {
    if hops == 0 then x == y else Near(x, y, Allowance(tolerance, hops))
  }

  // A prim as it reads against the original: same type, same names of attributes and children, values nearly the same.
  ghost predicate ReadsNearly(x: Prim, y: Prim, cfg: Config, hops: nat)
  {
    && x.typeName == y.typeName && x.attributes.Keys == y.attributes.Keys
    && |x.children| == |y.children| && (forall i :: 0 <= i < |x.children| ==> x.children[i].name == y.children[i].name)
    && forall n :: n in y.attributes && !(cfg.ignoreShaderOutputs && "outputs:" <= n) ==>
         && (x.attributes[n].None? <==> y.attributes[n].None?)
         && (x.attributes[n].Some? ==> Drifted(x.attributes[n].value, y.attributes[n].value, cfg.tolerance, hops))
  }

  lemma OneMoreHop(tolerance: real, hops: nat)
    ensures Allowance(tolerance, 0) == 0.0 && Allowance(tolerance, hops + 1) == Allowance(tolerance, hops) + tolerance
    ensures tolerance <= 0.0 ==> Allowance(tolerance, hops) <= 0.0
    ensures tolerance > 0.0 ==> Allowance(tolerance, hops) >= 0.0 && (hops > 0 ==> Allowance(tolerance, hops) > 0.0)
  {
    if tolerance <= 0.0 {
      assert tolerance * hops as real <= 0.0;
    } else {
      assert tolerance * hops as real >= 0.0;
      assert hops > 0 ==> tolerance * hops as real >= tolerance;
    }
  }

  lemma NearAdds(x: Value, y: Value, z: Value, a: real, b: real)
    requires a > 0.0 && b > 0.0 && Near(x, y, a) && Near(y, z, b)
    ensures Near(x, z, a + b)
  {
  }

  lemma DriftsFurther(x: Value, y: Value, z: Value, tolerance: real, hops: nat)
    requires Drifted(x, y, tolerance, hops) && Near(y, z, tolerance)
    ensures Drifted(x, z, tolerance, hops + 1)
  {
    OneMoreHop(tolerance, hops);
    hide Allowance;
    if hops > 0 && tolerance > 0.0 {
      NearAdds(x, y, z, Allowance(tolerance, hops), tolerance);
    }
  }

  lemma PrimDriftsFurther(x: Prim, y: Prim, z: Prim, path: Path, cfg: Config, hops: nat)
    requires ReadsNearly(x, y, cfg, hops) && SameShape(y, z) && path != [] && PrimsNear(path, y, z, cfg)
    ensures ReadsNearly(x, z, cfg, hops + 1)
  {
    SiblingsAlike(y.children, z.children);
    hide SameShapes, Drifted, Near;
    forall n | n in z.attributes && !(cfg.ignoreShaderOutputs && "outputs:" <= n)
      ensures x.attributes[n].None? <==> z.attributes[n].None?
      ensures x.attributes[n].Some? ==> Drifted(x.attributes[n].value, z.attributes[n].value, cfg.tolerance, hops + 1)
    {
      assert !LeftOut(path, n, cfg);
      assert BothNear(y.attributes[n], z.attributes[n], cfg.tolerance);
      if x.attributes[n].Some? {
        DriftsFurther(x.attributes[n].value, y.attributes[n].value, z.attributes[n].value, cfg.tolerance, hops);
      }
    }
  }

  // ---------- Reading ----------

  ghost predicate NearlyBelow(original: Prim, plan: Plan, cfg: Config, at: Path, more: Path, fuel: nat)
    requires Tidy(plan) && At(original, at).Some?
  {
    var p, r := At(original, at).value, Read(original, plan, at, fuel);
    && r.Some? && (At(r.value, more).Some? <==> At(p, more).Some?)
    && (At(p, more).Some? ==> ReadsNearly(At(r.value, more).value, At(p, more).value, cfg, Hops(plan, at, more)))
  }

  lemma ReadsItself(x: Prim, y: Prim, cfg: Config)
    requires x.typeName == y.typeName && x.attributes == y.attributes && |x.children| == |y.children|
    requires forall i :: 0 <= i < |x.children| ==> x.children[i].name == y.children[i].name
    ensures ReadsNearly(x, y, cfg, 0)
  {
  }

  lemma PlainHere(original: Prim, plan: Plan, cfg: Config, at: Path, fuel: nat)
    requires Prepared(original, plan, cfg) && Reachable(plan, at) && At(original, at).Some?
    requires at !in ReferencesOf(plan) && fuel >= Need(At(original, at).value, at, plan)
    ensures NearlyBelow(original, plan, cfg, at, [], fuel)
  {
    ReadPlainFully(original, plan, cfg, at, fuel);
    NamesAsRead(original, plan, cfg, at, fuel);
    ReadsItself(Read(original, plan, at, fuel).value, At(original, at).value, cfg);
    hide Prepared, Read, Reachable, Need, ReadsNearly;
  }

  lemma PlainBelow(original: Prim, plan: Plan, cfg: Config, at: Path, more: Path, fuel: nat)
    requires Prepared(original, plan, cfg) && Reachable(plan, at) && At(original, at).Some? && more != []
    requires at !in ReferencesOf(plan) && fuel >= Need(At(original, at).value, at, plan) && fuel > 0
    requires At(original, at + [more[0]]).Some? ==> NearlyBelow(original, plan, cfg, at + [more[0]], more[1..], fuel - 1)
    ensures NearlyBelow(original, plan, cfg, at, more, fuel)
  {
    hide MergesCopies, NoInternalArcs, Read, Reachable, Need, ReadsNearly, WellFormed, Tidy;
    var p := At(original, at).value;
    ReadPlainFully(original, plan, cfg, at, fuel);
    NamesAsRead(original, plan, cfg, at, fuel);
    var r := Read(original, plan, at, fuel).value;
    SameNamesSameIndex(p.children, r.children, more[0]);
    var i := ChildIndex(p.children, more[0]);
    if i < |p.children| {
      ChildIsReachable(original, plan, cfg, at, i);
    }
  }

  // ---------- Reading a duplicate ----------

  // Prototype and duplicate, at the same place below.
  lemma CopiesBelow(original: Prim, p: Path, d: Path, cfg: Config, more: Path)
    requires WellFormed(original) && AreCopies(original, p, d, cfg)
    ensures var (q, c) := (At(original, p).value, At(original, d).value);
            && (At(q, more).Some? <==> At(c, more).Some?)
            && (At(q, more).Some? ==>
                  SameShape(At(q, more).value, At(c, more).value)
                  && PrimsNear(more, At(q, more).value, At(c, more).value, cfg))
  {
    var q, c := At(original, p).value, At(original, d).value;
    KeyDeterminesShape(q, c);
    WellFormedAt(original, p);
    WellFormedAt(original, d);
    MatchingIff(q, c, cfg);
    hide WellFormed, StructuralKey, SubtreeValuesMatch, SameShape, PrimsNear, IsMaterialRelated;
    ShapeAt(q, c, more);
    assert NearAt(q, c, more, cfg);
  }

  // On the duplicate itself the attributes are its own.
  lemma OwnAttributes(p: Path, d: Path, original: Prim, cfg: Config)
    requires WellFormed(original) && AreCopies(original, p, d, cfg) && PlacementKept(original, p, d)
    ensures var (q, c) := (At(original, p).value, At(original, d).value);
            && MergeAttributes(c.attributes, q.attributes).Keys == c.attributes.Keys
            && forall n :: n in c.attributes && !(cfg.ignoreShaderOutputs && "outputs:" <= n) ==>
                 MergeAttributes(c.attributes, q.attributes)[n] == c.attributes[n]
  {
    var q, c := At(original, p).value, At(original, d).value;
    CopiesBelow(original, p, d, cfg, []);
    hide AreCopies;
    assert At(q, []) == Some(q) && At(c, []) == Some(c);
    assert q.attributes.Keys == c.attributes.Keys;
    hide SameShape, At;
    forall n | n in c.attributes && !(cfg.ignoreShaderOutputs && "outputs:" <= n) && c.attributes[n].None?
      ensures q.attributes[n].None? {
      if !LeftOut([], n, cfg) {
        assert BothNear(q.attributes[n], c.attributes[n], cfg.tolerance);
      }
    }
  }

  lemma DuplicateHere(original: Prim, plan: Plan, cfg: Config, d: Path, fuel: nat)
    requires Prepared(original, plan, cfg) && AllPlacementsKept(original, plan, cfg)
    requires Reachable(plan, d) && At(original, d).Some?
    requires d in ReferencesOf(plan) && fuel >= Need(At(original, d).value, d, plan)
    ensures NearlyBelow(original, plan, cfg, d, [], fuel)
  {
    hide Read, Reachable, AreCopies, WellFormed, MergeAttributes, PrimsNear, MergesCopies, NoInternalArcs, PlacementKept, Tidy;
    var target := ReferencesOf(plan)[d];
    ReferenceIsCopy(original, plan, cfg, d);
    ReadPlainFully(original, plan, cfg, target, fuel - 1);
    NamesAsRead(original, plan, cfg, target, fuel - 1);
    ReadDuplicate(original, plan, cfg, d, fuel);
    hide Need;
    var q, c, r := At(original, target).value, At(original, d).value, Read(original, plan, d, fuel).value;
    OwnAttributes(target, d, original, cfg);
    CopiesBelow(original, target, d, cfg, []);
    hide AllPlacementsKept, Prepared;
    ReadsOwn(q, c, r, cfg);
    hide SameShape, ReadsNearly;
  }

  lemma ReadsOwn(q: Prim, c: Prim, r: Prim, cfg: Config)
    requires SameShape(q, c) && r.typeName == c.typeName && r.attributes == MergeAttributes(c.attributes, q.attributes)
    requires r.attributes.Keys == c.attributes.Keys
    requires forall n :: n in c.attributes && !(cfg.ignoreShaderOutputs && "outputs:" <= n) ==> r.attributes[n] == c.attributes[n]
    requires |r.children| == |q.children| && forall i :: 0 <= i < |q.children| ==> r.children[i].name == q.children[i].name
    ensures ReadsNearly(r, c, cfg, 0)
  {
    hide MergeAttributes;
    SiblingsAlike(q.children, c.children);
    hide SameShape, SameShapes;
  }

  lemma DuplicateBelow(original: Prim, plan: Plan, cfg: Config, d: Path, more: Path, fuel: nat)
    requires Prepared(original, plan, cfg) && Reachable(plan, d) && At(original, d).Some? && more != []
    requires d in ReferencesOf(plan) && fuel > 0 && At(original, ReferencesOf(plan)[d]).Some?
    requires NearlyBelow(original, plan, cfg, ReferencesOf(plan)[d], more, fuel - 1)
    ensures NearlyBelow(original, plan, cfg, d, more, fuel)
  {
    hide Read, Reachable, WellFormed, Tidy, MergeAttributes, PrimsNear, ReadsNearly, AreCopies;
    var target := ReferencesOf(plan)[d];
    ReferenceIsCopy(original, plan, cfg, d);
    ReadDuplicate(original, plan, cfg, d, fuel);
    CopiesBelow(original, target, d, cfg, more);
    hide Prepared, SameShape;
    var q, c := At(original, target).value, At(original, d).value;
    var e, r := Read(original, plan, target, fuel - 1).value, Read(original, plan, d, fuel).value;
    assert At(r, more) == At(e, more);
    if At(q, more).Some? {
      PrimDriftsFurther(At(e, more).value, At(q, more).value, At(c, more).value, more, cfg, Hops(plan, target, more));
    }
  }

  lemma {:induction false} ReadsNearlyBelow(original: Prim, plan: Plan, cfg: Config, at: Path, more: Path, fuel: nat)
    requires Prepared(original, plan, cfg) && AllPlacementsKept(original, plan, cfg)
    requires Reachable(plan, at) && At(original, at).Some? && fuel >= Need(At(original, at).value, at, plan)
    ensures NearlyBelow(original, plan, cfg, at, more, fuel)
    decreases |more|, if at in ReferencesOf(plan) then 1 else 0
  {
    hide Read, Reachable, WellFormed, Tidy, ReadsNearly, AreCopies, AllPlacementsKept, NearlyBelow, MergesCopies, NoInternalArcs;
    if at in ReferencesOf(plan) {
      if more == [] {
        DuplicateHere(original, plan, cfg, at, fuel);
      } else {
        ReferenceIsCopy(original, plan, cfg, at);
        PrototypesStay(plan, at);
        ReadsNearlyBelow(original, plan, cfg, ReferencesOf(plan)[at], more, fuel - 1);
        DuplicateBelow(original, plan, cfg, at, more, fuel);
      }
    } else if more == [] {
      PlainHere(original, plan, cfg, at, fuel);
    } else {
      var child := at + [more[0]];
      if At(original, child).Some? {
        StepIsReachable(original, plan, cfg, at, more[0]);
        ReadsNearlyBelow(original, plan, cfg, child, more[1..], fuel - 1);
      }
      PlainBelow(original, plan, cfg, at, more, fuel);
    }
  }

  lemma StepIsReachable(original: Prim, plan: Plan, cfg: Config, at: Path, name: Name)
    requires Prepared(original, plan, cfg) && Reachable(plan, at) && At(original, at).Some? && at !in ReferencesOf(plan)
    requires At(original, at + [name]).Some?
    ensures Reachable(plan, at + [name])
    ensures Need(At(original, at + [name]).value, at + [name], plan) < Need(At(original, at).value, at, plan)
  {
    AtAppend(original, at, [name]);
    ChildIsReachable(original, plan, cfg, at, ChildIndex(At(original, at).value.children, name));
  }

  // Every reference is followed by a step down, so there are at most as many as names in the path.
  lemma {:induction false} HopsAreFew(plan: Plan, at: Path, more: Path)
    requires Tidy(plan)
    ensures Hops(plan, at, more) <= |more|
    ensures more != [] && at !in ReferencesOf(plan) ==> Hops(plan, at, more) < |more|
    decreases |more|, if at in ReferencesOf(plan) then 1 else 0
  {
    hide ReferencesOf, ListedOnce, NothingBelowDuplicates, RolesDisjoint;
    if more != [] && at in ReferencesOf(plan) {
      PrototypesStay(plan, at);
      HopsAreFew(plan, ReferencesOf(plan)[at], more);
    } else if more != [] {
      HopsAreFew(plan, at + [more[0]], more[1..]);
    }
  }

  // The prim at the path, in the expanded stage and in the original.
  ghost predicate NearlyRestored(original: Prim, plan: Plan, cfg: Config, fuel: nat, path: Path)
    requires Tidy(plan)
  {
    var expanded := Expand(Rewritten(original, plan), Rewritten(original, plan), fuel);
    && expanded.Some?
    && (At(expanded.value, path).Some? <==> At(original, path).Some?)
    && (At(original, path).Some? ==>
          ReadsNearly(At(expanded.value, path).value, At(original, path).value, cfg, Hops(plan, [], path)))
  }

  // A value that comes in with the prototype shows.
  lemma MergedNone(c: Prim, q: Prim, r: Prim, cfg: Config, hops: nat)
    requires ReadsNearly(r, c, cfg, hops) && r.attributes == MergeAttributes(c.attributes, q.attributes)
    ensures forall n :: n in c.attributes && n in q.attributes && IsXformProperty(n) ==>
              c.attributes[n].None? ==> q.attributes[n].None?
  {
    hide Drifted;
    forall n | n in c.attributes && n in q.attributes && IsXformProperty(n) && c.attributes[n].None?
      ensures q.attributes[n].None? {
      assert n[0] == 'x';
      assert r.attributes[n] == q.attributes[n];
    }
  }

  // So a placement that is not kept does.
  lemma PlacementShows(original: Prim, plan: Plan, cfg: Config, d: Path, fuel: nat)
    requires Prepared(original, plan, cfg) && d in ReferencesOf(plan) && fuel >= 2 * Size(original)
    requires NearlyRestored(original, plan, cfg, fuel, d)
    ensures AreCopies(original, ReferencesOf(plan)[d], d, cfg) && PlacementKept(original, ReferencesOf(plan)[d], d)
  {
    hide WellFormed, NoInternalArcs, MergesCopies, AreCopies, Reachable, Read, Hops, Tidy, ReadsNearly, MergeAttributes;
    var target := ReferencesOf(plan)[d];
    ReferenceIsCopy(original, plan, cfg, d);
    DuplicateReachable(plan, target, d);
    RootRead(original, plan, fuel);
    hide NearlyRestored;
    assert [] + d == d;
    ReadDown(original, plan, cfg, [], d, fuel);
    var rest := fuel - |d|;
    ReadPlainFully(original, plan, cfg, target, rest - 1);
    ReadDuplicate(original, plan, cfg, d, rest);
    hide Need;
    MergedNone(At(original, d).value, At(original, target).value, Read(original, plan, d, rest).value, cfg, Hops(plan, [], d));
  }

  lemma RootRead(original: Prim, plan: Plan, fuel: nat)
    requires Tidy(plan)
    ensures At(original, []) == Some(original) && Reachable(plan, [])
    ensures Read(original, plan, [], fuel) == Expand(Rewritten(original, plan), Rewritten(original, plan), fuel)
  {
  }

  lemma EachNearlyRestored(original: Prim, plan: Plan, cfg: Config, fuel: nat, path: Path)
    requires Prepared(original, plan, cfg) && AllPlacementsKept(original, plan, cfg) && fuel >= 2 * Size(original)
    ensures NearlyRestored(original, plan, cfg, fuel, path)
  {
    hide Read, Reachable, ReadsNearly, AllPlacementsKept, WellFormed, NoInternalArcs, MergesCopies, Hops;
    RootRead(original, plan, fuel);
    ReadsNearlyBelow(original, plan, cfg, [], path, fuel);
    hide Expand, Rewritten;
  }

  /** For every tolerance: expanding all references of the rewritten stage gives the original tree, prim for prim, with the
      same types, names and attributes and the same values, but for floating-point ones (and shader outputs where these
      are ignored), exactly when every merged placement is kept. A floating-point component is off by less than the
      tolerance for every reference on the way to it, and not at all where there is none. */
  lemma DeduplicationDriftsIff(original: Prim, plan: Plan, cfg: Config, fuel: nat)
    requires Prepared(original, plan, cfg) && fuel >= 2 * Size(original)
    ensures (forall path :: NearlyRestored(original, plan, cfg, fuel, path)) <==> AllPlacementsKept(original, plan, cfg)
  {
    hide NearlyRestored, PlacementKept, WellFormed, NoInternalArcs, StructuralKey, SubtreeValuesMatch, IsMaterialRelated;
    if AllPlacementsKept(original, plan, cfg) {
      forall path ensures NearlyRestored(original, plan, cfg, fuel, path) {
        EachNearlyRestored(original, plan, cfg, fuel, path);
      }
    }
    if forall path :: NearlyRestored(original, plan, cfg, fuel, path) {
      forall p, d | Merges(plan, p, d) ensures AreCopies(original, p, d, cfg) && PlacementKept(original, p, d) {
        assert NearlyRestored(original, plan, cfg, fuel, d);
        PlacementShows(original, plan, cfg, d, fuel);
      }
    }
  }

  // ---------- Reading through nested references ----------

  // What is read below a duplicate is read below its prototype.
  lemma ThroughDuplicate(original: Prim, plan: Plan, cfg: Config, d: Path, p: Path, more: Path, fuel: nat)
    requires Prepared(original, plan, cfg) && Merges(plan, p, d) && At(original, d).Some? && more != []
    requires fuel >= Need(At(original, d).value, d, plan)
    ensures At(original, p).Some? && fuel > 0 && fuel - 1 >= Need(At(original, p).value, p, plan) && Reachable(plan, p)
    ensures Read(original, plan, d, fuel).Some? && Read(original, plan, p, fuel - 1).Some?
    ensures At(Read(original, plan, d, fuel).value, more) == At(Read(original, plan, p, fuel - 1).value, more)
  {
    hide WellFormed, NoInternalArcs, MergesCopies, AreCopies, Reachable, Read, MergeAttributes;
    DuplicateReachable(plan, p, d);
    ReferenceIsCopy(original, plan, cfg, d);
    Readable(original, plan, cfg, p, fuel - 1);
    ReadDuplicate(original, plan, cfg, d, fuel);
  }

  // A prim's own values are read, whether or not it is a duplicate.
  lemma OwnValuesRead(w: Prim, plan: Plan, cfg: Config, at: Path, n: Name, fuel: nat)
    requires Prepared(w, plan, cfg) && Reachable(plan, at) && At(w, at).Some? && fuel >= Need(At(w, at).value, at, plan)
    requires n in At(w, at).value.attributes && At(w, at).value.attributes[n].Some?
    ensures Read(w, plan, at, fuel).Some?
    ensures n in Read(w, plan, at, fuel).value.attributes
    ensures Read(w, plan, at, fuel).value.attributes[n] == At(w, at).value.attributes[n]
  {
    hide WellFormed, NoInternalArcs, MergesCopies, AreCopies, Reachable, Read;
    Readable(w, plan, cfg, at, fuel);
    if at in ReferencesOf(plan) {
      ReferenceIsCopy(w, plan, cfg, at);
      Readable(w, plan, cfg, ReferencesOf(plan)[at], fuel - 1);
      ReadDuplicate(w, plan, cfg, at, fuel);
    } else {
      ReadPlainFully(w, plan, cfg, at, fuel);
    }
  }

  // Below a prototype that holds a duplicate itself, the content is that of the other prototype.
  lemma NestedRead(w: Prim, plan: Plan, cfg: Config, p: Path, c: Name, q: Path, l: Name, n: Name, fuel: nat)
    requires Prepared(w, plan, cfg) && Merges(plan, q, p + [c]) && At(w, p).Some? && At(w, p + [c]).Some?
    requires At(w, q + [l]).Some? && n in At(w, q + [l]).value.attributes && At(w, q + [l]).value.attributes[n].Some?
    requires fuel >= Need(At(w, p).value, p, plan)
    ensures Read(w, plan, p, fuel).Some?
    ensures var r := At(Read(w, plan, p, fuel).value, [c] + [l]);
            r.Some? && n in r.value.attributes && r.value.attributes[n] == At(w, q + [l]).value.attributes[n]
  {
    hide WellFormed, NoInternalArcs, MergesCopies, AreCopies, Reachable, Read, Need;
    DuplicateReachable(plan, q, p + [c]);
    PrototypeReachable(plan, q, p + [c]);
    ReachableChild(plan, q, l);
    ReadDown(w, plan, cfg, p, [c], fuel);
    ThroughDuplicate(w, plan, cfg, p + [c], q, [l], fuel - 1);
    ReadDown(w, plan, cfg, q, [l], fuel - 2);
    OwnValuesRead(w, plan, cfg, q + [l], n, fuel - 3);
    AtAppend(Read(w, plan, p, fuel).value, [c], [l]);
  }

  lemma RootNeed(w: Prim, plan: Plan)
    requires Tidy(plan)
    ensures Need(w, [], plan) <= 2 * Size(w)
  {
  }

  // And so it is on the whole stage, below a duplicate of that prototype.
  lemma TwiceNestedRead(w: Prim, plan: Plan, cfg: Config, d: Path, p: Path, c: Name, q: Path, l: Name, n: Name, fuel: nat)
    requires Prepared(w, plan, cfg) && Merges(plan, p, d) && Merges(plan, q, p + [c]) && fuel >= 2 * Size(w)
    requires At(w, d).Some? && At(w, p + [c]).Some? && At(w, q + [l]).Some?
    requires n in At(w, q + [l]).value.attributes && At(w, q + [l]).value.attributes[n].Some?
    ensures Read(w, plan, [], fuel).Some?
    ensures var r := At(Read(w, plan, [], fuel).value, d + ([c] + [l]));
            r.Some? && n in r.value.attributes && r.value.attributes[n] == At(w, q + [l]).value.attributes[n]
  {
    hide WellFormed, NoInternalArcs, MergesCopies, AreCopies, Reachable, Read, Need, Expand, Rewritten, At, ReferencesOf;
    RootRead(w, plan, fuel);
    RootNeed(w, plan);
    assert [] + d == d;
    DuplicateReachable(plan, p, d);
    ReadDown(w, plan, cfg, [], d, fuel);
    ThroughDuplicate(w, plan, cfg, d, p, [c] + [l], fuel - |d|);
    NestedRead(w, plan, cfg, p, c, q, l, n, fuel - |d| - 1);
    AtAppend(Read(w, plan, [], fuel).value, d, [c] + [l]);
  }

  lemma NestedExpanded(w: Prim, plan: Plan, cfg: Config, d: Path, p: Path, c: Name, q: Path, l: Name, n: Name, v: Option<Value>,
                       path: Path, fuel: nat)
    requires Prepared(w, plan, cfg) && Merges(plan, p, d) && Merges(plan, q, p + [c]) && fuel >= 2 * Size(w)
    requires At(w, d).Some? && At(w, p + [c]).Some? && At(w, q + [l]).Some? && path == d + ([c] + [l])
    requires n in At(w, q + [l]).value.attributes && At(w, q + [l]).value.attributes[n] == v && v.Some?
    ensures var expanded := Expand(Rewritten(w, plan), Rewritten(w, plan), fuel);
            && expanded.Some? && At(expanded.value, path).Some?
            && n in At(expanded.value, path).value.attributes && At(expanded.value, path).value.attributes[n] == v
  {
    RootRead(w, plan, fuel);
    hide Read, Expand, Rewritten, At, WellFormed, NoInternalArcs, MergesCopies, Size;
    TwiceNestedRead(w, plan, cfg, d, p, c, q, l, n, fuel);
  }
}
