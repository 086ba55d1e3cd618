/** A whole layer converted to other units and another up axis: where the points of every prim end up. */
module StageMetrics {
  import opened Wrappers
  import opened Affine
  import opened ChangeOfBasis
  import opened XformStack
  import opened XformConversion

  // A shape is given by sizes along an axis (cone, camera, light, ...), not by points that could be rotated.
  datatype PrimKind = Geometry | Shape | SkeletonRoot

  datatype Prim = Prim(kind: PrimKind, xform: Xform, points: seq<Vec>, children: seq<Prim>)

  datatype Settings = Settings(metrics: Metrics, collapse: bool, stopAtSkeletons: bool)

  predicate Turns(settings: Settings, kind: PrimKind)
  {
    kind.Shape? && !settings.metrics.change.Keep?
  }

  predicate Collapses(settings: Settings, kind: PrimKind, x: Xform)
  {
    settings.collapse && !settings.metrics.change.Keep? && (HasOps(x) || Turns(settings, kind))
  }

  predicate Stops(settings: Settings, kind: PrimKind)
  {
    settings.stopAtSkeletons && kind.SkeletonRoot?
  }

  ghost function ConvertedXform(settings: Settings, kind: PrimKind, x: Xform): Xform
    requires Typed(x.ops)
  {
    var m := settings.metrics;
    if Stops(settings, kind) then
      SkeletonCorrected(m, x, FreshOp(x.ops, Scale, "skeletonMetricsCorrection"),
                        FreshOp(x.ops, RotateX, "skeletonMetricsCorrection"))
    else if Collapses(settings, kind, x) then Collapsed(m, LocalValue(x), Turns(settings, kind))
    else if Turns(settings, kind) then
      UpAxisCorrected(m.change, PerOp(m, x), FreshOp(x.ops, RotateX, "upAxisCorrection"))
    else PerOp(m, x)
  }

  // How the points of a prim are carried over: rotated and scaled, only scaled, or left alone.
  datatype Role = Rewritten | Sized | Untouched

  function RoleOf(settings: Settings, kind: PrimKind, inside: bool): Role
  {
    if inside || Stops(settings, kind) then Untouched else if Turns(settings, kind) then Sized else Rewritten
  }

  function CarriedPoint(m: Metrics, role: Role, p: Vec): Vec
  {
    match role
    case Rewritten => ConvertedPoint(m, p)
    case Sized => Scaled(p, Factor(m))
    case Untouched => p
  }

  function CarriedPoints(m: Metrics, role: Role, points: seq<Vec>): (r: seq<Vec>)
    ensures |r| == |points| && forall i :: 0 <= i < |r| ==> r[i] == CarriedPoint(m, role, points[i])
  {
    seq(|points|, i requires 0 <= i < |points| => CarriedPoint(m, role, points[i]))
  }

  // What is asked of a prim, given whether it lies inside a skeleton.
  ghost predicate ReadyHere(settings: Settings, prim: Prim, inside: bool)
  {
    && WellFormed(prim.xform)
    && (inside || Stops(settings, prim.kind) || Collapses(settings, prim.kind, prim.xform) || Convertible(settings.metrics, prim.xform))
    && (inside || !Turns(settings, prim.kind) || prim.children == [])
  }

  ghost predicate Ready(settings: Settings, prim: Prim, inside: bool)
    decreases prim
  {
    && ReadyHere(settings, prim, inside)
    && forall c :: c in prim.children ==> Ready(settings, c, inside || Stops(settings, prim.kind))
  }

  ghost function Converted(settings: Settings, prim: Prim, inside: bool): (r: Prim)
    requires Ready(settings, prim, inside)
    ensures |r.children| == |prim.children|
    decreases prim
  {
    if inside then prim
    else
      Prim(prim.kind, ConvertedXform(settings, prim.kind, prim.xform),
           CarriedPoints(settings.metrics, RoleOf(settings, prim.kind, inside), prim.points),
           seq(|prim.children|, i requires 0 <= i < |prim.children| =>
             (assert prim.children[i] in prim.children; Converted(settings, prim.children[i], Stops(settings, prim.kind)))))
  }

  // From the prim's own space to the world.
  ghost function Placement(x: Xform, parent: Map): Map
    requires Typed(x.ops)
  {
    if Resets(x) then Local(x) else Then(Local(x), parent)
  }

  ghost function XformAfter(settings: Settings, prim: Prim, inside: bool): Xform
    requires Typed(prim.xform.ops)
  {
    if inside then prim.xform else ConvertedXform(settings, prim.kind, prim.xform)
  }

  // Every point of the prim's space, carried over, ends up where the conversion takes its old world position.
  ghost predicate Lands(m: Metrics, role: Role, before: Map, after: Map)
  {
    forall p :: Moved(CarriedPoint(m, role, p), after) == ConvertedPoint(m, Moved(p, before))
  }

  // ---------- The rewritten xforms ----------

  lemma FreshNotInOrder(x: Xform, n: OpName)
    requires WellFormed(x) && n !in x.ops
    ensures NotInOrder(x, n)
  {
    forall t | t in x.order ensures !Mentions(t, n) {
      var i :| 0 <= i < |x.order| && x.order[i] == t;
    }
  }

  // The name chosen for the up axis correction is still free after the renaming.
  lemma CorrectionStaysFresh(m: Metrics, x: Xform, n: OpName)
    requires Convertible(m, x) && n !in x.ops && n.kind.RotateX?
    ensures NotInOrder(PerOp(m, x), n)
  {
    FreshNotInOrder(x, n);
    PerOpOrder(m, x);
    var order := OrderAfter(m.change, x.order);
    forall t | t in order ensures !Mentions(t, n) {
      var i :| 0 <= i < |order| && order[i] == t;
      assert x.order[i] in x.order;
      if x.order[i].Forward? {
        NewNameInvolutive(m.change, x.order[i].op);
        NewNameInvolutive(m.change, n);
      }
    }
  }

  ghost function LocalAfter(settings: Settings, prim: Prim): Map
    requires Sensible(settings.metrics) && Typed(prim.xform.ops)
  {
    var m, local := settings.metrics, Local(prim.xform);
    if Stops(settings, prim.kind) then Then(local, Conversion(m))
    else if Turns(settings, prim.kind) then Then(LinearMap(Correction(m.change)), Conjugate(m, local))
    else Conjugate(m, local)
  }

  lemma XformRewritten(settings: Settings, prim: Prim)
    requires Sensible(settings.metrics) && ReadyHere(settings, prim, false)
    ensures var x' := ConvertedXform(settings, prim.kind, prim.xform);
            && Typed(x'.ops) && Local(x') == LocalAfter(settings, prim)
            && Resets(x') == (Resets(prim.xform) && (Stops(settings, prim.kind) || !Collapses(settings, prim.kind, prim.xform)))
  {
    hide Then, Conjugate, Correction, LinearMap, StackMap, PerOp, FreshOp, UpAxisCorrected, SkeletonCorrected, Collapsed;
    var m, x := settings.metrics, prim.xform;
    if Stops(settings, prim.kind) {
      SkeletonCorrects(m, x, FreshOp(x.ops, Scale, "skeletonMetricsCorrection"),
                       FreshOp(x.ops, RotateX, "skeletonMetricsCorrection"));
    } else if Collapses(settings, prim.kind, x) {
      CollapsedConverts(m, x, Turns(settings, prim.kind));
    } else {
      PerOpConverts(m, x);
      if Turns(settings, prim.kind) {
        var n := FreshOp(x.ops, RotateX, "upAxisCorrection");
        CorrectionStaysFresh(m, x, n);
        UpAxisCorrects(m.change, PerOp(m, x), n);
        PerOpOrder(m, x);
      }
    }
  }

  // The same token, but for the axis of a rotation about one of the two that change.
  predicate SameOp(turned: bool, t: Token, u: Token)
  {
    match t
    case Forward(n) =>
      if turned && n.kind == RotateY then u == Forward(OpName(RotateZ, n.suffix))
      else if turned && n.kind == RotateZ then u == Forward(OpName(RotateY, n.suffix))
      else u == t
    case _ => u == t
  }

  lemma SameOpAfter(change: Change, t: Token)
    ensures SameOp(!change.Keep?, t, TokenAfter(change, t))
  {
  }

  lemma PerOpOrderKept(m: Metrics, x: Xform)
    requires Convertible(m, x)
    ensures |PerOp(m, x).order| == |x.order|
    ensures forall i :: 0 <= i < |x.order| ==> SameOp(!m.change.Keep?, x.order[i], PerOp(m, x).order[i])
  {
    hide Convertible, PerOp, SameOp, TokenAfter;
    PerOpOrder(m, x);
    forall i | 0 <= i < |x.order| {
      SameOpAfter(m.change, x.order[i]);
    }
  }

  lemma CorrectionsFirst(m: Metrics, x: Xform, scaleName: OpName, rotateName: OpName)
    requires scaleName !in x.ops && rotateName !in x.ops
    ensures var first := if x.order != [] && x.order[0] == Reset then 1 else 0;
            exists corrections: seq<Token> ::
              && |corrections| == (if m.scale.Some? then 1 else 0) + (if m.change.Keep? then 0 else 1)
              && (forall t :: t in corrections ==> t.Forward? && t.op !in x.ops)
              && SkeletonCorrected(m, x, scaleName, rotateName).order == x.order[..first] + corrections + x.order[first..]
  {
    hide Factor, CorrectionAngle;
    var scaled := if m.scale.Some? then [Forward(scaleName)] else [];
    var rotated := if m.change.Keep? then [] else [Forward(rotateName)];
    var first := if x.order != [] && x.order[0] == Reset then 1 else 0;
    assert x.order[..first] + scaled + rotated + x.order[first..] == x.order[..first] + (scaled + rotated) + x.order[first..];
    assert first == 1 ==> x.order[..first] == [Reset];
  }

  /** How a prim is rewritten. A skeleton root where these are kept gets corrections before all its ops, behind a reset
      token; where ops are collapsed and the up axis changes, one matrix is left of the ops of a prim that has any, or of a
      shape; otherwise every op keeps its place, with axes exchanged, and a shape gets one more op at the end. */
  lemma OrderRewritten(settings: Settings, prim: Prim)
    requires ReadyHere(settings, prim, false)
    ensures var m, x, x' := settings.metrics, prim.xform, ConvertedXform(settings, prim.kind, prim.xform);
            var turned := !m.change.Keep?;
            if settings.stopAtSkeletons && prim.kind == SkeletonRoot then
              var first := if x.order != [] && x.order[0] == Reset then 1 else 0;
              exists corrections: seq<Token> ::
                && |corrections| == (if m.scale.Some? then 1 else 0) + (if turned then 1 else 0)
                && (forall t :: t in corrections ==> t.Forward? && t.op !in x.ops)
                && x'.order == x.order[..first] + corrections + x.order[first..]
            else if settings.collapse && turned && (prim.kind == Shape || exists t :: t in x.order && t != Reset) then
              x'.order == [Forward(OpName(Matrix, ""))]
            else
              && |x'.order| == |x.order| + (if prim.kind == Shape && turned then 1 else 0)
              && (forall i :: 0 <= i < |x.order| ==> SameOp(turned, x.order[i], x'.order[i]))
              && (prim.kind == Shape && turned ==>
                    x'.order[|x.order|].Forward? && x'.order[|x.order|].op.kind == RotateX && x'.order[|x.order|].op !in x.ops)
  {
    hide PerOp, FreshOp, LocalValue, SameOp, Convertible, Typed;
    var m, x := settings.metrics, prim.xform;
    if Stops(settings, prim.kind) {
      CorrectionsFirst(m, x, FreshOp(x.ops, Scale, "skeletonMetricsCorrection"), FreshOp(x.ops, RotateX, "skeletonMetricsCorrection"));
      hide SkeletonCorrected;
    } else if Collapses(settings, prim.kind, x) {
      if i :| 0 <= i < |x.order| && !x.order[i].Reset? {
        assert x.order[i] in x.order;
      }
    } else {
      if t :| t in x.order && t != Reset {
        assert HasOps(x);
      }
      PerOpOrderKept(m, x);
    }
  }

  // ---------- One prim ----------

  // How placements above a prim are related when everything above it has landed.
  ghost predicate ParentRight(m: Metrics, inside: bool, parent: Map, parent': Map)
    requires Sensible(m)
  {
    parent' == if inside then Then(parent, Conversion(m)) else Conjugate(m, parent)
  }

  // A reset token does no harm: it is kept where it has to be, or what it shields the prim from changes nothing.
  ghost predicate ResetHarmless(settings: Settings, prim: Prim, inside: bool, parent: Map)
    requires Typed(prim.xform.ops)
  {
    var local := Local(prim.xform);
    Resets(prim.xform) ==>
      if inside then Then(local, Conversion(settings.metrics)) == local
      else Stops(settings, prim.kind) || !Collapses(settings, prim.kind, prim.xform) || Then(local, parent) == local
  }

  lemma ConversionMovesConjugate(m: Metrics, a: Map)
    requires Sensible(m)
    ensures Then(Conversion(m), Conjugate(m, a)) == Then(a, Conversion(m))
  {
    var k, l := Conversion(m), Reversion(m);
    ConversionUndone(m);
    hide Then, Conversion, Reversion;
    ThenAssociates(l, a, k);
    CancelLeft(k, l, Then(a, k));
  }

  lemma UntouchedLands(m: Metrics, a: Map)
    ensures Lands(m, Untouched, a, Then(a, Conversion(m)))
  {
    hide Then, Moved, Conversion, ConvertedPoint;
    forall p ensures Moved(p, Then(a, Conversion(m))) == ConvertedPoint(m, Moved(p, a)) {
      MovedThen(p, a, Conversion(m));
      PointConverted(m, Moved(p, a));
    }
  }

  lemma RewrittenLands(m: Metrics, a: Map)
    requires Sensible(m)
    ensures Lands(m, Rewritten, a, Conjugate(m, a))
  {
    hide Moved, Conjugate, ConvertedPoint, ConvertedMap;
    forall p ensures Moved(ConvertedPoint(m, p), Conjugate(m, a)) == ConvertedPoint(m, Moved(p, a)) {
      MapConverted(m, a);
      ConvertedMoves(m, p, a);
    }
  }

  lemma SizedThenTurned(m: Metrics, p: Vec)
    ensures Moved(Scaled(p, Factor(m)), LinearMap(Correction(m.change))) == ConvertedPoint(m, p)
  {
    hide Scaled, Moved, LinearMap, Turned, Correction;
    MovedLinear(Scaled(p, Factor(m)), Correction(m.change));
  }

  lemma SizedLands(m: Metrics, a: Map)
    requires Sensible(m)
    ensures Lands(m, Sized, a, Then(LinearMap(Correction(m.change)), Conjugate(m, a)))
  {
    hide Then, Moved, Conjugate, Scaled, ConvertedPoint, LinearMap, Correction;
    var c := LinearMap(Correction(m.change));
    RewrittenLands(m, a);
    forall p ensures Moved(Scaled(p, Factor(m)), Then(c, Conjugate(m, a))) == ConvertedPoint(m, Moved(p, a)) {
      SizedThenTurned(m, p);
      MovedThen(Scaled(p, Factor(m)), c, Conjugate(m, a));
      assert Moved(CarriedPoint(m, Rewritten, p), Conjugate(m, a)) == ConvertedPoint(m, Moved(p, a));
    }
  }

  // Where the placement of a prim has to go.
  ghost function PlacementAfter(settings: Settings, prim: Prim, inside: bool, before: Map): Map
    requires Sensible(settings.metrics)
  {
    var m := settings.metrics;
    match RoleOf(settings, prim.kind, inside)
    case Untouched => Then(before, Conversion(m))
    case Sized => Then(LinearMap(Correction(m.change)), Conjugate(m, before))
    case Rewritten => Conjugate(m, before)
  }

  lemma RightPlacementLands(settings: Settings, prim: Prim, inside: bool, before: Map)
    requires Sensible(settings.metrics)
    ensures Lands(settings.metrics, RoleOf(settings, prim.kind, inside), before, PlacementAfter(settings, prim, inside, before))
  {
    var m := settings.metrics;
    UntouchedLands(m, before);
    RewrittenLands(m, before);
    SizedLands(m, before);
    hide Lands, Then, Conjugate;
  }

  // Without a lost reset, the placement goes where it has to.
  lemma PlacedRight(settings: Settings, prim: Prim, inside: bool, parent: Map, parent': Map)
    requires Sensible(settings.metrics) && ReadyHere(settings, prim, inside)
    requires ParentRight(settings.metrics, inside, parent, parent')
    requires ResetHarmless(settings, prim, inside, parent)
    ensures Typed(XformAfter(settings, prim, inside).ops)
    ensures Placement(XformAfter(settings, prim, inside), parent')
            == PlacementAfter(settings, prim, inside, Placement(prim.xform, parent))
  {
    var m, x := settings.metrics, prim.xform;
    var local, k, c := Local(x), Conversion(m), LinearMap(Correction(m.change));
    if !inside {
      XformRewritten(settings, prim);
    }
    hide Then, Conjugate, Conversion, LinearMap, Correction, Local, ConvertedXform, ReadyHere;
    if inside {
      ThenAssociates(local, parent, k);
    } else if Stops(settings, prim.kind) {
      ThenAssociates(local, k, parent');
      ConversionMovesConjugate(m, parent);
      ThenAssociates(local, parent, k);
    } else {
      ConjugateThen(m, local, parent);
      ThenAssociates(c, Conjugate(m, local), parent');
    }
  }

  // Equal up to the conversion means equal.
  lemma ConversionInjective(m: Metrics, p: Vec, q: Vec)
    requires Sensible(m) && ConvertedPoint(m, p) == ConvertedPoint(m, q)
    ensures p == q
  {
    PointConverted(m, p);
    PointConverted(m, q);
    ConversionUndone(m);
    hide ConvertedPoint, Conversion, Reversion, Then, Moved;
    MovedThen(p, Conversion(m), Reversion(m));
    MovedThen(q, Conversion(m), Reversion(m));
    MovedByIdentity(p);
    MovedByIdentity(q);
  }

  // Inside a skeleton, a prim that lands although it resets the stack is not moved by the correction.
  lemma InsideResetShows(m: Metrics, local: Map)
    requires Sensible(m) && Lands(m, Untouched, local, local)
    ensures Then(local, Conversion(m)) == local
  {
    UntouchedLands(m, local);
    hide Then, Conversion, Moved, ConvertedPoint;
    forall p ensures Moved(p, Then(local, Conversion(m))) == Moved(p, local) {
      assert Moved(CarriedPoint(m, Untouched, p), local) == ConvertedPoint(m, Moved(p, local));
      assert Moved(CarriedPoint(m, Untouched, p), Then(local, Conversion(m))) == ConvertedPoint(m, Moved(p, local));
    }
    SameMap(Then(local, Conversion(m)), local);
  }

  // A prim that lands where it was is not moved by what lies above it.
  lemma TwoLandings(m: Metrics, role: Role, a: Map, b: Map, after: Map)
    requires Sensible(m) && Lands(m, role, a, after) && Lands(m, role, b, after)
    ensures a == b
  {
    hide Moved, ConvertedPoint, CarriedPoint;
    forall p ensures Moved(p, a) == Moved(p, b) {
      assert Moved(CarriedPoint(m, role, p), after) == ConvertedPoint(m, Moved(p, a));
      ConversionInjective(m, Moved(p, a), Moved(p, b));
    }
    SameMap(a, b);
  }

  // A reset token that does harm shows.
  lemma LostResetShows(settings: Settings, prim: Prim, inside: bool, parent: Map, parent': Map)
    requires Sensible(settings.metrics) && ReadyHere(settings, prim, inside)
    requires ParentRight(settings.metrics, inside, parent, parent')
    requires Typed(XformAfter(settings, prim, inside).ops)
    requires Lands(settings.metrics, RoleOf(settings, prim.kind, inside), Placement(prim.xform, parent),
                   Placement(XformAfter(settings, prim, inside), parent'))
    ensures ResetHarmless(settings, prim, inside, parent)
  {
    var m, x := settings.metrics, prim.xform;
    var local, role := Local(x), RoleOf(settings, prim.kind, inside);
    if Resets(x) && inside {
      hide Lands, Then, Conversion, Local;
      InsideResetShows(m, local);
    } else if Resets(x) && !Stops(settings, prim.kind) && Collapses(settings, prim.kind, x) {
      XformRewritten(settings, prim);
      CollapsedWithout(settings, prim, parent);
      RightPlacementLands(settings, prim, false, Then(local, parent));
      hide Lands, Then, Conjugate, Local, LocalAfter, PlacementAfter, ConvertedXform, ReadyHere;
      TwoLandings(m, role, Then(local, parent), local, Placement(XformAfter(settings, prim, false), parent'));
    }
  }

  // Collapsed, a prim is placed as if it had never reset the stack.
  lemma CollapsedWithout(settings: Settings, prim: Prim, parent: Map)
    requires Sensible(settings.metrics) && Typed(prim.xform.ops) && !Stops(settings, prim.kind)
    ensures Then(LocalAfter(settings, prim), Conjugate(settings.metrics, parent))
            == PlacementAfter(settings, prim, false, Then(Local(prim.xform), parent))
  {
    var m, local := settings.metrics, Local(prim.xform);
    var c := LinearMap(Correction(m.change));
    hide Then, Conjugate, Correction, LinearMap, Local;
    ConjugateThen(m, local, parent);
    ThenAssociates(c, Conjugate(m, local), Conjugate(m, parent));
  }

  // ---------- The whole hierarchy ----------

  ghost predicate AllLand(settings: Settings, prim: Prim, inside: bool, parent: Map, parent': Map)
    requires Ready(settings, prim, inside)
    decreases prim
  {
    var x' := XformAfter(settings, prim, inside);
    && Typed(x'.ops)
    && Lands(settings.metrics, RoleOf(settings, prim.kind, inside), Placement(prim.xform, parent), Placement(x', parent'))
    && forall c :: c in prim.children ==>
         AllLand(settings, c, inside || Stops(settings, prim.kind), Placement(prim.xform, parent), Placement(x', parent'))
  }

  // No reset token does harm.
  ghost predicate ResetsHarmless(settings: Settings, prim: Prim, inside: bool, parent: Map)
    requires Ready(settings, prim, inside)
    decreases prim
  {
    && ResetHarmless(settings, prim, inside, parent)
    && forall c :: c in prim.children ==>
         ResetsHarmless(settings, c, inside || Stops(settings, prim.kind), Placement(prim.xform, parent))
  }

  lemma ChildrenRight(settings: Settings, prim: Prim, inside: bool, parent: Map, parent': Map)
    requires Sensible(settings.metrics) && ReadyHere(settings, prim, inside)
    requires ParentRight(settings.metrics, inside, parent, parent')
    requires ResetHarmless(settings, prim, inside, parent) && prim.children != []
    ensures Typed(XformAfter(settings, prim, inside).ops)
    ensures ParentRight(settings.metrics, inside || Stops(settings, prim.kind), Placement(prim.xform, parent),
                        Placement(XformAfter(settings, prim, inside), parent'))
  {
    PlacedRight(settings, prim, inside, parent, parent');
    hide Placement, Then, Conjugate, XformAfter;
  }

  /** For every hierarchy and every way its prims are rewritten, all points land on the converted world positions if
      no reset token is lost. */
  lemma {:induction false} AllPointsLand(settings: Settings, prim: Prim, inside: bool, parent: Map, parent': Map)
    requires Sensible(settings.metrics) && Ready(settings, prim, inside)
    requires ParentRight(settings.metrics, inside, parent, parent')
    requires ResetsHarmless(settings, prim, inside, parent)
    ensures AllLand(settings, prim, inside, parent, parent')
    decreases prim
  {
    PlacedRight(settings, prim, inside, parent, parent');
    RightPlacementLands(settings, prim, inside, Placement(prim.xform, parent));
    hide Placement, XformAfter, Lands, RoleOf;
    forall c | c in prim.children
      ensures AllLand(settings, c, inside || Stops(settings, prim.kind), Placement(prim.xform, parent),
                      Placement(XformAfter(settings, prim, inside), parent')) {
      ChildrenRight(settings, prim, inside, parent, parent');
      hide ReadyHere, ResetHarmless, ParentRight;
      AllPointsLand(settings, c, inside || Stops(settings, prim.kind), Placement(prim.xform, parent),
                    Placement(XformAfter(settings, prim, inside), parent'));
    }
  }

  /** And only if: every reset that does harm moves a prim. */
  lemma {:induction false} LandingNeedsResets(settings: Settings, prim: Prim, inside: bool, parent: Map, parent': Map)
    requires Sensible(settings.metrics) && Ready(settings, prim, inside)
    requires ParentRight(settings.metrics, inside, parent, parent')
    requires AllLand(settings, prim, inside, parent, parent')
    ensures ResetsHarmless(settings, prim, inside, parent)
    decreases prim
  {
    LostResetShows(settings, prim, inside, parent, parent');
    hide Placement, XformAfter, Lands, RoleOf, Local;
    forall c | c in prim.children
      ensures ResetsHarmless(settings, c, inside || Stops(settings, prim.kind), Placement(prim.xform, parent)) {
      ChildrenRight(settings, prim, inside, parent, parent');
      hide ReadyHere, ResetHarmless, ParentRight;
      LandingNeedsResets(settings, c, inside || Stops(settings, prim.kind), Placement(prim.xform, parent),
                         Placement(XformAfter(settings, prim, inside), parent'));
    }
  }

  // ---------- World positions ----------

  ghost predicate AllTyped(prim: Prim)
    decreases prim
  {
    Typed(prim.xform.ops) && forall c :: c in prim.children ==> AllTyped(c)
  }

  // The world positions of all points, prim after prim.
  ghost function WorldPoints(prim: Prim, parent: Map): seq<Vec>
    requires AllTyped(prim)
    decreases prim, 1
  {
    var place := Placement(prim.xform, parent);
    MovedPoints(prim.points, place) + ChildPoints(prim, |prim.children|, place)
  }

  ghost function ChildPoints(prim: Prim, n: nat, place: Map): seq<Vec>
    requires AllTyped(prim) && n <= |prim.children|
    decreases prim, 0, n
  {
    if n == 0 then [] else ChildPoints(prim, n - 1, place) + WorldPoints(prim.children[n - 1], place)
  }

  function ConvertedPoints(m: Metrics, points: seq<Vec>): (r: seq<Vec>)
    ensures |r| == |points| && forall i :: 0 <= i < |r| ==> r[i] == ConvertedPoint(m, points[i])
  {
    seq(|points|, i requires 0 <= i < |points| => ConvertedPoint(m, points[i]))
  }

  lemma ConvertedConcat(m: Metrics, a: seq<Vec>, b: seq<Vec>)
    ensures ConvertedPoints(m, a + b) == ConvertedPoints(m, a) + ConvertedPoints(m, b)
  {
    hide ConvertedPoint;
  }

  lemma {:induction false} ReadyTyped(settings: Settings, prim: Prim, inside: bool)
    requires Ready(settings, prim, inside)
    ensures AllTyped(prim)
    decreases prim
  {
    forall c | c in prim.children ensures AllTyped(c) {
      ReadyTyped(settings, c, inside || Stops(settings, prim.kind));
    }
  }

  lemma OwnPointsLand(settings: Settings, prim: Prim, inside: bool, parent: Map, parent': Map)
    requires Ready(settings, prim, inside) && AllLand(settings, prim, inside, parent, parent')
    ensures var prim' := Converted(settings, prim, inside);
            && prim'.xform == XformAfter(settings, prim, inside) && Typed(prim'.xform.ops)
            && MovedPoints(prim'.points, Placement(prim'.xform, parent'))
               == ConvertedPoints(settings.metrics, MovedPoints(prim.points, Placement(prim.xform, parent)))
  {
    hide Placement, ConvertedPoint, Moved, ConvertedXform;
    var prim' := Converted(settings, prim, inside);
    var m, role := settings.metrics, RoleOf(settings, prim.kind, inside);
    forall i | 0 <= i < |prim.points| ensures prim'.points[i] == CarriedPoint(m, role, prim.points[i]) {
    }
  }

  lemma ConvertedChild(settings: Settings, prim: Prim, inside: bool, i: nat)
    requires Ready(settings, prim, inside) && i < |prim.children|
    ensures Ready(settings, prim.children[i], inside || Stops(settings, prim.kind))
    ensures Converted(settings, prim, inside).children[i]
            == Converted(settings, prim.children[i], inside || Stops(settings, prim.kind))
  {
    assert prim.children[i] in prim.children;
    hide ReadyHere, ConvertedXform;
  }

  lemma ChildLands(settings: Settings, prim: Prim, inside: bool, parent: Map, parent': Map, i: nat)
    requires Ready(settings, prim, inside) && AllLand(settings, prim, inside, parent, parent') && i < |prim.children|
    ensures Ready(settings, prim.children[i], inside || Stops(settings, prim.kind))
    ensures Typed(XformAfter(settings, prim, inside).ops)
    ensures AllLand(settings, prim.children[i], inside || Stops(settings, prim.kind), Placement(prim.xform, parent),
                    Placement(XformAfter(settings, prim, inside), parent'))
  {
    assert prim.children[i] in prim.children;
    hide ReadyHere, Lands, XformAfter, Placement;
  }

  lemma {:induction false} ConvertedAllTyped(settings: Settings, prim: Prim, inside: bool, parent: Map, parent': Map)
    requires Ready(settings, prim, inside) && AllLand(settings, prim, inside, parent, parent')
    ensures AllTyped(Converted(settings, prim, inside))
    decreases prim
  {
    if inside {
      ReadyTyped(settings, prim, inside);
    } else {
      hide Placement, Lands, ReadyHere;
      var prim' := Converted(settings, prim, inside);
      assert prim'.xform == XformAfter(settings, prim, inside);
      hide ConvertedXform;
      forall c | c in prim'.children ensures AllTyped(c) {
        var i :| 0 <= i < |prim'.children| && prim'.children[i] == c;
        ConvertedChild(settings, prim, inside, i);
        ChildLands(settings, prim, inside, parent, parent', i);
        hide Converted, AllLand, Ready;
        ConvertedAllTyped(settings, prim.children[i], Stops(settings, prim.kind), Placement(prim.xform, parent),
                          Placement(XformAfter(settings, prim, inside), parent'));
      }
    }
  }

  lemma {:induction false} WorldPointsConvert(settings: Settings, prim: Prim, inside: bool, parent: Map, parent': Map)
    requires Ready(settings, prim, inside) && AllLand(settings, prim, inside, parent, parent')
    ensures AllTyped(prim) && AllTyped(Converted(settings, prim, inside))
    ensures WorldPoints(Converted(settings, prim, inside), parent')
            == ConvertedPoints(settings.metrics, WorldPoints(prim, parent))
    decreases prim, 1
  {
    ReadyTyped(settings, prim, inside);
    ConvertedAllTyped(settings, prim, inside, parent, parent');
    OwnPointsLand(settings, prim, inside, parent, parent');
    var place, place' := Placement(prim.xform, parent), Placement(XformAfter(settings, prim, inside), parent');
    ChildPointsConvert(settings, prim, inside, parent, parent', |prim.children|);
    ConvertedConcat(settings.metrics, MovedPoints(prim.points, place), ChildPoints(prim, |prim.children|, place));
    hide Placement, MovedPoints, ConvertedPoints, ChildPoints, Converted, XformAfter, AllTyped, Ready, AllLand;
  }

  lemma LastChildPoints(prim: Prim, n: nat, place: Map)
    requires AllTyped(prim) && 0 < n <= |prim.children|
    ensures AllTyped(prim.children[n - 1])
    ensures ChildPoints(prim, n, place) == ChildPoints(prim, n - 1, place) + WorldPoints(prim.children[n - 1], place)
  {
    assert prim.children[n - 1] in prim.children;
    hide WorldPoints;
  }

  lemma TypedHere(settings: Settings, prim: Prim, inside: bool, parent: Map, parent': Map)
    requires Ready(settings, prim, inside) && AllLand(settings, prim, inside, parent, parent')
    ensures Typed(prim.xform.ops) && Typed(XformAfter(settings, prim, inside).ops)
  {
    hide Convertible, XformAfter, Lands, Placement;
  }

  lemma ChildPointsStep(m: Metrics, prim: Prim, prim': Prim, n: nat, place: Map, place': Map)
    requires AllTyped(prim) && AllTyped(prim') && 0 < n <= |prim.children| == |prim'.children|
    requires AllTyped(prim.children[n - 1]) && AllTyped(prim'.children[n - 1])
    requires ChildPoints(prim', n - 1, place') == ConvertedPoints(m, ChildPoints(prim, n - 1, place))
    requires WorldPoints(prim'.children[n - 1], place') == ConvertedPoints(m, WorldPoints(prim.children[n - 1], place))
    ensures ChildPoints(prim', n, place') == ConvertedPoints(m, ChildPoints(prim, n, place))
  {
    hide WorldPoints, ConvertedPoints, AllTyped;
    LastChildPoints(prim, n, place);
    LastChildPoints(prim', n, place');
    ConvertedConcat(m, ChildPoints(prim, n - 1, place), WorldPoints(prim.children[n - 1], place));
  }

  lemma {:induction false} ChildPointsConvert(settings: Settings, prim: Prim, inside: bool, parent: Map, parent': Map, n: nat)
    requires Ready(settings, prim, inside) && AllLand(settings, prim, inside, parent, parent') && n <= |prim.children|
    requires AllTyped(prim) && AllTyped(Converted(settings, prim, inside))
    ensures Typed(prim.xform.ops) && Typed(XformAfter(settings, prim, inside).ops)
    ensures var place, place' := Placement(prim.xform, parent), Placement(XformAfter(settings, prim, inside), parent');
            ChildPoints(Converted(settings, prim, inside), n, place')
            == ConvertedPoints(settings.metrics, ChildPoints(prim, n, place))
    decreases prim, 0, n
  {
    hide Placement, MovedPoints, XformAfter, WorldPoints, Converted, AllLand, Ready, AllTyped, Typed;
    TypedHere(settings, prim, inside, parent, parent');
    if n > 0 {
      var place, place' := Placement(prim.xform, parent), Placement(XformAfter(settings, prim, inside), parent');
      ConvertedChild(settings, prim, inside, n - 1);
      ChildLands(settings, prim, inside, parent, parent', n - 1);
      hide ConvertedPoints, ChildPoints;
      ChildPointsConvert(settings, prim, inside, parent, parent', n - 1);
      WorldPointsConvert(settings, prim.children[n - 1], inside || Stops(settings, prim.kind), place, place');
      ChildPointsStep(settings.metrics, prim, Converted(settings, prim, inside), n, place, place');
    }
  }

  /** Converting a layer takes the world position of every point, in every prim, to the converted position, whichever
      way the prims on its path were rewritten. */
  lemma StageConverts(settings: Settings, root: Prim)
    requires Sensible(settings.metrics) && Ready(settings, root, false) && ResetsHarmless(settings, root, false, IDENTITY)
    ensures AllTyped(root) && AllTyped(Converted(settings, root, false))
    ensures WorldPoints(Converted(settings, root, false), IDENTITY)
            == ConvertedPoints(settings.metrics, WorldPoints(root, IDENTITY))
  {
    ConjugateIdentity(settings.metrics);
    hide Conjugate, ResetsHarmless, Ready, Converted;
    AllPointsLand(settings, root, false, IDENTITY, IDENTITY);
    WorldPointsConvert(settings, root, false, IDENTITY, IDENTITY);
  }

  /** The exact condition. */
  lemma StageConvertsIff(settings: Settings, root: Prim)
    requires Sensible(settings.metrics) && Ready(settings, root, false)
    ensures AllLand(settings, root, false, IDENTITY, IDENTITY) <==> ResetsHarmless(settings, root, false, IDENTITY)
  {
    ConjugateIdentity(settings.metrics);
    hide Conjugate, Ready;
    if AllLand(settings, root, false, IDENTITY, IDENTITY) {
      LandingNeedsResets(settings, root, false, IDENTITY, IDENTITY);
    }
    if ResetsHarmless(settings, root, false, IDENTITY) {
      AllPointsLand(settings, root, false, IDENTITY, IDENTITY);
    }
  }

  // A prim that shields itself from a moved parent is not shielded any more once it is collapsed.
  lemma ShieldedChildMoves(settings: Settings, root: Prim, c: Prim)
    requires Sensible(settings.metrics) && Ready(settings, root, false)
    requires c in root.children && !Stops(settings, root.kind) && !Stops(settings, c.kind)
    requires Collapses(settings, c.kind, c.xform) && Resets(c.xform) && Typed(c.xform.ops)
    requires Then(Local(c.xform), Placement(root.xform, IDENTITY)) != Local(c.xform)
    ensures !AllLand(settings, root, false, IDENTITY, IDENTITY)
  {
    assert Ready(settings, c, false);
    assert !ResetHarmless(settings, c, false, Placement(root.xform, IDENTITY));
    assert !ResetsHarmless(settings, c, false, Placement(root.xform, IDENTITY));
    hide Placement, ResetHarmless, ReadyHere, Collapses;
    StageConvertsIff(settings, root);
  }

  const MOVE := OpName(Translate, "")

  function MovedRight(children: seq<Prim>, order: seq<Token>): Prim
  {
    Prim(Geometry, Xform(map[MOVE := Some(Offset(X_AXIS))], order), [], children)
  }

  lemma MovedRightLocal(children: seq<Prim>, resets: bool)
    ensures var x := MovedRight(children, (if resets then [Reset] else []) + [Forward(MOVE)]).xform;
            && WellFormed(x) && Typed(x.ops) && HasOps(x) && Resets(x) == resets && Local(x) == Map(UNIT, X_AXIS)
  {
    hide Then, Inverse;
    var x := MovedRight(children, (if resets then [Reset] else []) + [Forward(MOVE)]).xform;
    assert Typed(x.ops);
    assert TokenMap(x.ops, Forward(MOVE)) == Map(UNIT, X_AXIS);
    hide TokenMap, Typed;
    assert WellFormed(x);
    assert !x.order[|x.order| - 1].Reset?;
    assert [] + [Forward(MOVE)] == [Forward(MOVE)];
    SingleOp(x.ops, Forward(MOVE));
    ResetFirst(x.ops, [Forward(MOVE)]);
    hide StackMap;
  }

  // Two translations by one unit are not one.
  lemma MovesTwice()
    ensures Then(Map(UNIT, X_AXIS), Map(UNIT, X_AXIS)) != Map(UNIT, X_AXIS)
  {
    UnitTurns(X_AXIS);
    hide Turned;
  }

  // A concrete layer: a child with a reset token under a translated parent.
  lemma ResetCanBeLost(settings: Settings, child: Prim, root: Prim)
    requires settings == Settings(Metrics(YtoZ, None), true, false)
    requires child == MovedRight([], [Reset] + [Forward(MOVE)]) && root == MovedRight([child], [] + [Forward(MOVE)])
    ensures Ready(settings, root, false)
    ensures !AllLand(settings, root, false, IDENTITY, IDENTITY)
  {
    MovedRightLocal([], true);
    MovedRightLocal([child], false);
    MovesTwice();
    ThenIdentity(Map(UNIT, X_AXIS));
    hide Local, WellFormed, Typed, HasOps, Resets, Then, Convertible;
    assert ReadyHere(settings, child, false) && ReadyHere(settings, root, false);
    hide ReadyHere;
    assert Ready(settings, child, false);
    assert child in root.children;
    ShieldedChildMoves(settings, root, child);
  }
}
