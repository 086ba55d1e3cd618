/** The whole operation on a layer: which units and up axis it ends up with, and where its points are then. */
module UnitChange {
  import opened Wrappers
  import opened Affine
  import opened ChangeOfBasis
  import opened StageMetrics

  datatype UpAxis = UpY | UpZ | Other

  // What the layer says about itself.
  datatype Units = Units(metersPerUnit: real, upAxis: UpAxis)

  // What is asked for; zero meters and Other stand for leaving it alone.
  datatype Request = Request(metersPerUnit: real, upAxis: UpAxis, collapse: bool, stopAtSkeletons: bool)

  // The distance from one to the next double.
  const EPSILON := 1.0 / 4503599627370496.0

  function Abs(a: real): real { if a < 0.0 then -a else a }

  predicate AsksForUnits(request: Request) { Abs(request.metersPerUnit) > EPSILON }

  function ScaleFor(units: Units, request: Request): Option<real>
  {
    if AsksForUnits(request) && Abs(units.metersPerUnit / request.metersPerUnit - 1.0) > EPSILON
    then Some(units.metersPerUnit / request.metersPerUnit) else None
  }

  function ChangeFor(units: Units, request: Request): Change
  {
    if units.upAxis.UpY? && request.upAxis.UpZ? then YtoZ
    else if units.upAxis.UpZ? && request.upAxis.UpY? then ZtoY
    else Keep
  }

  function SettingsFor(units: Units, request: Request): Settings
  {
    Settings(Metrics(ChangeFor(units, request), ScaleFor(units, request)), request.collapse, request.stopAtSkeletons)
  }

  function UnitsAfter(units: Units, request: Request): Units
  {
    Units(if AsksForUnits(request) then request.metersPerUnit else units.metersPerUnit,
          if ChangeFor(units, request).Keep? then units.upAxis else request.upAxis)
  }

  predicate NothingToDo(units: Units, request: Request)
  {
    ScaleFor(units, request).None? && ChangeFor(units, request).Keep?
  }

  // What is asked of a layer.
  ghost predicate Editable(units: Units, request: Request, root: Prim)
  {
    && units.metersPerUnit > 0.0 && (AsksForUnits(request) ==> request.metersPerUnit > 0.0)
    && Ready(SettingsFor(units, request), root, false)
  }

  ghost function Edited(units: Units, request: Request, root: Prim): Prim
    requires Editable(units, request, root)
  {
    if NothingToDo(units, request) then root else Converted(SettingsFor(units, request), root, false)
  }

  // ---------- The coordinates ----------

  // The same position in coordinates with the other axis up.
  function InAxes(p: Vec, before: UpAxis, after: UpAxis): Vec
  {
    if before.UpY? && after.UpZ? then Vec(p.x, -p.z, p.y)
    else if before.UpZ? && after.UpY? then Vec(p.x, p.z, -p.y)
    else p
  }

  // Coordinates in the old and in the new units that amount to the same number of meters.
  ghost predicate SameMeters(a: real, before: real, b: real, after: real)
  {
    b * after == a * before
  }

  // ... and to nearly the same, when the units nearly agree.
  ghost predicate NearlySameMeters(a: real, before: real, b: real, after: real)
  {
    Abs(b * after - a * before) <= EPSILON * Abs(a) * after
  }

  // The units agree exactly, or by more than rounding do not.
  predicate Distinguishable(units: Units, request: Request)
  {
    AsksForUnits(request) && units.metersPerUnit != request.metersPerUnit ==>
      Abs(units.metersPerUnit / request.metersPerUnit - 1.0) > EPSILON
  }

  lemma RatioUndone(a: real, before: real, after: real)
    requires after > 0.0
    ensures SameMeters(a, before, Times(a, before / after), after)
  {
    assert before / after * after == before;
    assert a * (before / after) * after == a * (before / after * after);
  }

  lemma NearlyOne(a: real, before: real, after: real)
    requires after > 0.0 && Abs(before / after - 1.0) <= EPSILON
    ensures NearlySameMeters(a, before, a, after)
  {
    var d := before / after - 1.0;
    assert before == after + d * after by {
      assert before / after * after == before;
    }
    var error := a * d * after;
    assert a * before - a * after == error by {
      assert a * (after + d * after) == a * after + a * d * after;
    }
    AbsTimes(a, d);
    AbsTimes(a * d, after);
    assert Abs(error) == Abs(a) * Abs(d) * after by {
      assert Abs(a * d) == Abs(a) * Abs(d);
    }
    AtMost(Abs(d), EPSILON, Abs(a), after);
    assert Abs(a * after - a * before) == Abs(error);
  }

  lemma AbsTimes(a: real, b: real)
    ensures Abs(a * b) == Abs(a) * Abs(b)
  {
  }

  lemma AtMost(d: real, e: real, a: real, after: real)
    requires 0.0 <= d <= e && a >= 0.0 && after > 0.0
    ensures a * d * after <= e * a * after
  {
    assert a * d <= a * e;
    assert a * d * after <= a * e * after;
  }

  // How one coordinate of a converted point compares.
  lemma CoordinateKept(units: Units, request: Request, a: real, b: real)
    requires units.metersPerUnit > 0.0 && (AsksForUnits(request) ==> request.metersPerUnit > 0.0)
    requires b == match ScaleFor(units, request) case Some(k) => Times(a, k) case None => a
    ensures NearlySameMeters(a, units.metersPerUnit, b, UnitsAfter(units, request).metersPerUnit)
    ensures Distinguishable(units, request) ==>
              SameMeters(a, units.metersPerUnit, b, UnitsAfter(units, request).metersPerUnit)
  {
    var before, after := units.metersPerUnit, UnitsAfter(units, request).metersPerUnit;
    if ScaleFor(units, request).Some? {
      RatioUndone(a, before, after);
      ExactIsNear(a, before, b, after);
    } else if AsksForUnits(request) {
      NearlyOne(a, before, after);
      assert before == after ==> a * before == a * after;
    } else {
      ExactIsNear(a, before, a, before);
    }
  }

  lemma ExactIsNear(a: real, before: real, b: real, after: real)
    requires after > 0.0 && SameMeters(a, before, b, after)
    ensures NearlySameMeters(a, before, b, after)
  {
    AtMost(0.0, EPSILON, Abs(a), after);
  }

  // A converted point, coordinate by coordinate.
  lemma PointIs(m: Metrics, p: Vec)
    ensures var k := if m.scale.Some? then m.scale.value else 1.0;
            var q := Vec(Times(p.x, k), Times(p.y, k), Times(p.z, k));
            ConvertedPoint(m, p) == match m.change
                                    case Keep => q
                                    case YtoZ => Vec(q.x, -q.z, q.y)
                                    case ZtoY => Vec(q.x, q.z, -q.y)
  {
    TimesUnits();
    hide Times;
  }

  // A world position before and after: the same place, in other coordinates.
  ghost predicate SamePlace(before: Units, p: Vec, after: Units, q: Vec)
  {
    var t, k, l := InAxes(p, before.upAxis, after.upAxis), before.metersPerUnit, after.metersPerUnit;
    SameMeters(t.x, k, q.x, l) && SameMeters(t.y, k, q.y, l) && SameMeters(t.z, k, q.z, l)
  }

  ghost predicate NearlySamePlace(before: Units, p: Vec, after: Units, q: Vec)
  {
    var t, k, l := InAxes(p, before.upAxis, after.upAxis), before.metersPerUnit, after.metersPerUnit;
    NearlySameMeters(t.x, k, q.x, l) && NearlySameMeters(t.y, k, q.y, l) && NearlySameMeters(t.z, k, q.z, l)
  }

  lemma PlaceKept(units: Units, request: Request, p: Vec)
    requires units.metersPerUnit > 0.0 && (AsksForUnits(request) ==> request.metersPerUnit > 0.0)
    ensures var q, after := ConvertedPoint(SettingsFor(units, request).metrics, p), UnitsAfter(units, request);
            && NearlySamePlace(units, p, after, q)
            && (Distinguishable(units, request) ==> SamePlace(units, p, after, q))
            && (NothingToDo(units, request) ==> q == p)
  {
    var m, after := SettingsFor(units, request).metrics, UnitsAfter(units, request);
    var k := if m.scale.Some? then m.scale.value else 1.0;
    PointIs(m, p);
    TimesUnits();
    hide ConvertedPoint, Times;
    var t, q := InAxes(p, units.upAxis, after.upAxis), ConvertedPoint(m, p);
    TimesMinus(p.y, k);
    TimesMinus(p.z, k);
    CoordinateKept(units, request, t.x, q.x);
    CoordinateKept(units, request, t.y, q.y);
    CoordinateKept(units, request, t.z, q.z);
    hide SameMeters, NearlySameMeters, Distinguishable;
  }

  lemma TimesMinus(a: real, k: real)
    ensures Times(-a, k) == -Times(a, k)
  {
  }

  /** Every point of the edited layer is where it was, in the units and axes that the layer then has: each new coordinate,
      turned, times the new meters per unit is the old one times the old meters per unit. Units that differ by no more
      than rounding are replaced without scaling: then the error is at most that part of the coordinate. */
  lemma PlacesKept(units: Units, request: Request, root: Prim)
    requires Editable(units, request, root)
    requires NothingToDo(units, request) || ResetsHarmless(SettingsFor(units, request), root, false, IDENTITY)
    ensures AllTyped(root) && AllTyped(Edited(units, request, root))
    ensures var first, last := WorldPoints(root, IDENTITY), WorldPoints(Edited(units, request, root), IDENTITY);
            && |last| == |first|
            && forall i :: 0 <= i < |first| ==>
                 && NearlySamePlace(units, first[i], UnitsAfter(units, request), last[i])
                 && (Distinguishable(units, request) ==> SamePlace(units, first[i], UnitsAfter(units, request), last[i]))
  {
    var settings := SettingsFor(units, request);
    ReadyTyped(settings, root, false);
    if !NothingToDo(units, request) {
      StageConverts(settings, root);
    }
    hide Converted, WorldPoints, ResetsHarmless, Ready, AllTyped;
    var first := WorldPoints(root, IDENTITY);
    forall i | 0 <= i < |first| {
      PlaceKept(units, request, first[i]);
    }
    hide SamePlace, NearlySamePlace, Distinguishable, ConvertedPoint;
  }

  // ---------- The layer ----------

  class Layer {
    var metersPerUnit: real
    var upAxis: UpAxis
    ghost var root: Prim

    function Says(): Units
      reads this
    {
      Units(metersPerUnit, upAxis)
    }

    constructor (units: Units, ghost root: Prim)
      ensures Says() == units && this.root == root
    {
      metersPerUnit, upAxis := units.metersPerUnit, units.upAxis;
      this.root := root;
    }

    method Execute(request: Request)
      requires Editable(Says(), request, root)
      requires NothingToDo(Says(), request) || ResetsHarmless(SettingsFor(Says(), request), root, false, IDENTITY)
      modifies this
      ensures Says() == UnitsAfter(old(Says()), request)
      ensures root == Edited(old(Says()), request, old(root))
      ensures AllTyped(old(root)) && AllTyped(root)
      ensures var first, last := WorldPoints(old(root), IDENTITY), WorldPoints(root, IDENTITY);
              && |last| == |first|
              && forall i :: 0 <= i < |first| ==>
                   && NearlySamePlace(old(Says()), first[i], Says(), last[i])
                   && (Distinguishable(old(Says()), request) ==> SamePlace(old(Says()), first[i], Says(), last[i]))
    {
      ghost var before, start := Says(), root;
      PlacesKept(before, request, root);
      hide Converted, Ready, ResetsHarmless, WorldPoints, AllTyped, SamePlace, NearlySamePlace, Distinguishable;
      var scale: Option<real> := None;
      if Abs(request.metersPerUnit) > EPSILON {
        var ratio := metersPerUnit / request.metersPerUnit;
        metersPerUnit := request.metersPerUnit;
        if Abs(ratio - 1.0) > EPSILON {
          scale := Some(ratio);
        }
      }
      var change := Keep;
      if upAxis.UpY? && request.upAxis.UpZ? {
        upAxis, change := UpZ, YtoZ;
      } else if upAxis.UpZ? && request.upAxis.UpY? {
        upAxis, change := UpY, ZtoY;
      }
      if scale.None? && change.Keep? {
        return;
      }
      ghost var settings := Settings(Metrics(change, scale), request.collapse, request.stopAtSkeletons);
      assert settings == SettingsFor(before, request);
      root := Converted(settings, root, false);
    }
  }
}
