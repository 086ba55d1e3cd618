/** What it means that the values of two subtrees match, path by path, without the traversals that decide it. */
module MatchMeaning {
  import opened Wrappers
  import opened SceneTree
  import opened Matching

  // Placement on the root and, where asked for, shader outputs are not compared.
  predicate LeftOut(path: Path, name: Name, cfg: Config)
  {
    || (path == [] && ("xformOp:" <= name || name == "xformOpOrder"))
    || (cfg.ignoreShaderOutputs && "outputs:" <= name)
  }

  // Floating-point values of one type and size whose components differ by less than the bound; others are the same.
  ghost predicate Near(x: Value, y: Value, bound: real)
  {
    if bound > 0.0 && x.Floats? && y.Floats? then
      && x.typeName == y.typeName && x.isArray == y.isArray && |x.elements| == |y.elements|
      && forall i :: 0 <= i < |x.elements| ==>
           && |x.elements[i]| == |y.elements[i]|
           && forall j :: 0 <= j < |x.elements[i]| ==> -bound < x.elements[i][j] - y.elements[i][j] < bound
    else x == y
  }

  // Both lack a value, or both have one and these are near.
  ghost predicate BothNear(x: Option<Value>, y: Option<Value>, bound: real)
  {
    (x.None? <==> y.None?) && (x.Some? ==> Near(x.value, y.value, bound))
  }

  ghost predicate PrimsNear(path: Path, a: Prim, b: Prim, cfg: Config)
  {
    forall n :: n in a.attributes && n in b.attributes && !LeftOut(path, n, cfg) ==>
      BothNear(a.attributes[n], b.attributes[n], cfg.tolerance)
  }

  lemma NearIsEqual(x: Value, y: Value, tolerance: real)
    ensures ValuesEqual(x, y, tolerance) <==> Near(x, y, tolerance)
  {
  }

  lemma PrimMatchIff(a: Prim, b: Prim, path: Path, cfg: Config)
    requires a.attributes.Keys == b.attributes.Keys
    ensures PrimMatches(a, b, path == [], cfg) <==> PrimsNear(path, a, b, cfg)
  {
    forall n | n in a.attributes
      ensures AttributeMatches(n, a.attributes, b.attributes, cfg.tolerance)
              <==> BothNear(a.attributes[n], b.attributes[n], cfg.tolerance)
    {
      if a.attributes[n].Some? && b.attributes[n].Some? {
        NearIsEqual(a.attributes[n].value, b.attributes[n].value, cfg.tolerance);
      }
    }
    hide AttributeMatches, BothNear;
    forall n ensures n in Compared(a, path == [], cfg) <==> n in a.attributes && !LeftOut(path, n, cfg) {
    }
  }

  // Two traversals of equal keys go through the same paths.
  lemma SameVisits(a: Prim, b: Prim, i: nat)
    requires StructuralKey(a) == StructuralKey(b) && i < Size(a)
    ensures Size(a) == Size(b)
    ensures Preorder(a, [])[i].path == Preorder(b, [])[i].path
    ensures Preorder(a, [])[i].prim.attributes.Keys == Preorder(b, [])[i].prim.attributes.Keys
  {
    assert |StructuralKey(a)| == Size(a) && |StructuralKey(b)| == Size(b);
    assert StructuralKey(a)[i] == EntryOf(Preorder(a, [])[i]) && StructuralKey(b)[i] == EntryOf(Preorder(b, [])[i]);
  }

  ghost predicate NearAt(a: Prim, b: Prim, path: Path, cfg: Config)
  {
    At(a, path).Some? ==> At(b, path).Some? && PrimsNear(path, At(a, path).value, At(b, path).value, cfg)
  }

  lemma VisitsAreFound(a: Prim, i: nat)
    requires WellFormed(a) && i < Size(a)
    ensures At(a, Preorder(a, [])[i].path) == Some(Preorder(a, [])[i].prim)
  {
    assert At(a, []) == Some(a);
    PreorderOnStage(a, []);
  }

  /** For every tolerance and subtrees of equal structural keys: their values match if and only if at every path, and in
      every attribute that is compared there, both lack a value or both have one; floating-point values of one type have
      the same lengths, and every component differs by less than the tolerance; all other values are the same. */
  lemma MatchingIff(a: Prim, b: Prim, cfg: Config)
    requires StructuralKey(a) == StructuralKey(b) && WellFormed(a) && WellFormed(b)
    ensures SubtreeValuesMatch(a, b, cfg) <==> forall path :: NearAt(a, b, path, cfg)
  {
    var xs, ys := Preorder(a, []), Preorder(b, []);
    SameVisits(a, b, 0);
    forall i | 0 <= i < Size(a)
      ensures PrimMatches(xs[i].prim, ys[i].prim, xs[i].path == [], cfg) <==> NearAt(a, b, xs[i].path, cfg)
    {
      SameVisits(a, b, i);
      VisitsAreFound(a, i);
      VisitsAreFound(b, i);
      PrimMatchIff(xs[i].prim, ys[i].prim, xs[i].path, cfg);
    }
    hide PrimMatches, PrimsNear, WellFormed, Preorder, StructuralKey, Size;
    assert SubtreeValuesMatch(a, b, cfg) <==> forall i :: 0 <= i < Size(a) ==> NearAt(a, b, xs[i].path, cfg);
    if SubtreeValuesMatch(a, b, cfg) {
      forall path | At(a, path).Some? ensures NearAt(a, b, path, cfg) {
        VisitedBelow(a, [], path);
        assert [] + path == path;
        var i :| 0 <= i < |xs| && xs[i] == Visit(path, At(a, path).value);
      }
    }
  }

  /** Every subtree matches itself, whatever the tolerance. */
  lemma MatchesItself(a: Prim, cfg: Config)
    ensures SubtreeValuesMatch(a, a, cfg)
  {
    var xs := Preorder(a, []);
    forall i | 0 <= i < |xs| ensures PrimMatches(xs[i].prim, xs[i].prim, xs[i].path == [], cfg) {
      PrimMatchIff(xs[i].prim, xs[i].prim, xs[i].path, cfg);
      hide PrimMatches, Preorder;
    }
    hide PrimMatches, Preorder;
  }

  lemma VisitsMatchIff(a: Prim, b: Prim, cfg: Config)
    requires StructuralKey(a) == StructuralKey(b)
    ensures Size(a) == Size(b)
    ensures SubtreeValuesMatch(a, b, cfg) <==>
              forall i :: 0 <= i < Size(a) ==>
                PrimsNear(Preorder(a, [])[i].path, Preorder(a, [])[i].prim, Preorder(b, [])[i].prim, cfg)
  {
    var xs, ys := Preorder(a, []), Preorder(b, []);
    SameVisits(a, b, 0);
    forall i | 0 <= i < Size(a)
      ensures PrimMatches(xs[i].prim, ys[i].prim, xs[i].path == [], cfg) <==> PrimsNear(xs[i].path, xs[i].prim, ys[i].prim, cfg)
    {
      SameVisits(a, b, i);
      PrimMatchIff(xs[i].prim, ys[i].prim, xs[i].path, cfg);
    }
    hide PrimMatches, PrimsNear, Preorder, StructuralKey, Size;
  }

  // It does not matter which of the two is compared with which.
  lemma MatchingIsSymmetric(a: Prim, b: Prim, cfg: Config)
    requires StructuralKey(a) == StructuralKey(b) && SubtreeValuesMatch(a, b, cfg)
    ensures SubtreeValuesMatch(b, a, cfg)
  {
    VisitsMatchIff(a, b, cfg);
    VisitsMatchIff(b, a, cfg);
    hide SubtreeValuesMatch;
    forall i | 0 <= i < Size(a)
      ensures PrimsNear(Preorder(b, [])[i].path, Preorder(b, [])[i].prim, Preorder(a, [])[i].prim, cfg) {
      SameVisits(a, b, i);
      hide Preorder, StructuralKey;
    }
  }

  // Exact matching is an equivalence; with a tolerance it is not transitive.
  lemma ExactIsTransitive(a: Prim, b: Prim, c: Prim, cfg: Config)
    requires cfg.tolerance <= 0.0 && StructuralKey(a) == StructuralKey(b) == StructuralKey(c)
    requires SubtreeValuesMatch(a, b, cfg) && SubtreeValuesMatch(b, c, cfg)
    ensures SubtreeValuesMatch(a, c, cfg)
  {
    VisitsMatchIff(a, b, cfg);
    VisitsMatchIff(b, c, cfg);
    VisitsMatchIff(a, c, cfg);
    hide SubtreeValuesMatch;
    forall i | 0 <= i < Size(a)
      ensures PrimsNear(Preorder(a, [])[i].path, Preorder(a, [])[i].prim, Preorder(c, [])[i].prim, cfg) {
      SameVisits(a, b, i);
      SameVisits(b, c, i);
      hide Preorder, StructuralKey;
    }
  }

  function PointAt(x: real): Prim
  {
    Prim("P", "Points", map["points" := Some(Floats("point3f[]", true, [[x, 0.0, 0.0]]))], NoArcs, [])
  }

  lemma PointsMatchIff(x: real, y: real, cfg: Config)
    requires cfg.tolerance > 0.0
    ensures StructuralKey(PointAt(x)) == StructuralKey(PointAt(y))
    ensures SubtreeValuesMatch(PointAt(x), PointAt(y), cfg) <==> -cfg.tolerance < x - y < cfg.tolerance
  {
    var a, b := PointAt(x), PointAt(y);
    assert Preorder(a, []) == [Visit([], a)] && Preorder(b, []) == [Visit([], b)];
    PrimMatchIff(a, b, [], cfg);
    hide PrimMatches, Preorder;
    var n := "points";
    assert n in a.attributes && n in b.attributes && n[0] == 'p' && !LeftOut([], n, cfg);
    assert PrimsNear([], a, b, cfg) <==> BothNear(a.attributes[n], b.attributes[n], cfg.tolerance);
    var v, w := a.attributes[n].value, b.attributes[n].value;
    assert v.elements[0] == [x, 0.0, 0.0] && w.elements[0] == [y, 0.0, 0.0];
    assert v.elements[0][0] == x && w.elements[0][0] == y;
  }

  // Three copies of which the first and the last are not copies of each other, for any tolerance above zero.
  lemma MatchingIsNotTransitive(cfg: Config)
    requires cfg.tolerance > 0.0
    ensures var step := cfg.tolerance * 0.75;
            var (a, b, c) := (PointAt(0.0), PointAt(step), PointAt(step + step));
            && StructuralKey(a) == StructuralKey(b) == StructuralKey(c)
            && SubtreeValuesMatch(a, b, cfg) && SubtreeValuesMatch(b, c, cfg) && !SubtreeValuesMatch(a, c, cfg)
  {
    var step := cfg.tolerance * 0.75;
    hide StructuralKey, SubtreeValuesMatch, PointAt;
    PointsMatchIff(0.0, step, cfg);
    PointsMatchIff(step, step + step, cfg);
    PointsMatchIff(0.0, step + step, cfg);
  }
}
