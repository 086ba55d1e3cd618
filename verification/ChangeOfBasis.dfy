/** The change of units and up axis of a stage, on points and on maps. */
module ChangeOfBasis {
  import opened Wrappers
  import opened Affine

  datatype Change = Keep | YtoZ | ZtoY

  // No scale means that the units already agree.
  datatype Metrics = Metrics(change: Change, scale: Option<real>)

  ghost predicate Sensible(m: Metrics)
  {
    m.scale.Some? ==> m.scale.value > 0.0
  }

  function Factor(m: Metrics): real { if m.scale.Some? then m.scale.value else 1.0 }

  function Basis(change: Change): Mat
  {
    match change
    case Keep => UNIT
    case YtoZ => Mat(Vec(1.0, 0.0, 0.0), Vec(0.0, 0.0, -1.0), Vec(0.0, 1.0, 0.0))
    case ZtoY => Mat(Vec(1.0, 0.0, 0.0), Vec(0.0, 0.0, 1.0), Vec(0.0, -1.0, 0.0))
  }

  function BasisInverse(change: Change): Mat
  {
    match change
    case Keep => UNIT
    case YtoZ => Basis(ZtoY)
    case ZtoY => Basis(YtoZ)
  }

  datatype Axis = X | Y | Z

  // The rotation about an axis by an angle of cosine c and sine s.
  function AxisTurn(axis: Axis, c: real, s: real): Mat
  {
    match axis
    case X => Mat(Vec(1.0, 0.0, 0.0), Vec(0.0, c, s), Vec(0.0, -s, c))
    case Y => Mat(Vec(c, 0.0, -s), Vec(0.0, 1.0, 0.0), Vec(s, 0.0, c))
    case Z => Mat(Vec(c, s, 0.0), Vec(-s, c, 0.0), Vec(0.0, 0.0, 1.0))
  }

  // Cosine and sine of the angle, about the X axis, that the up axis correction is given.
  function CorrectionAngle(change: Change): (real, real)
  {
    match change
    case Keep => (1.0, 0.0)
    case YtoZ => (0.0, 1.0)
    case ZtoY => (0.0, -1.0)
  }

  function Correction(change: Change): Mat
  {
    var (c, s) := CorrectionAngle(change);
    AxisTurn(X, c, s)
  }

  function LinearMap(m: Mat): Map { Map(m, ORIGIN) }

  function Uniform(k: real): Mat { Mat(Vec(k, 0.0, 0.0), Vec(0.0, k, 0.0), Vec(0.0, 0.0, k)) }

  // What the operation does to a point, and to a matrix attribute.
  function ConvertedPoint(m: Metrics, p: Vec): Vec
  {
    Turned(Scaled(p, Factor(m)), Correction(m.change))
  }

  function ConvertedMap(m: Metrics, a: Map): Map
  {
    Then(Then(LinearMap(Basis(m.change)), Map(a.linear, Scaled(a.translation, Factor(m)))), LinearMap(BasisInverse(m.change)))
  }

  // The conversion of points as a map, and its inverse.
  function Conversion(m: Metrics): Map { Then(LinearMap(Uniform(Factor(m))), LinearMap(Correction(m.change))) }

  ghost function Reversion(m: Metrics): Map
    requires Sensible(m)
  {
    Then(LinearMap(Basis(m.change)), LinearMap(Uniform(1.0 / Factor(m))))
  }

  // ---------- The conversion of maps is conjugation ----------

  lemma TimesUnits()
    ensures forall a {:trigger Times(a, 1.0)} :: Times(a, 1.0) == a
    ensures forall a {:trigger Times(1.0, a)} :: Times(1.0, a) == a
    ensures forall a {:trigger Times(a, 0.0)} :: Times(a, 0.0) == 0.0
    ensures forall a {:trigger Times(0.0, a)} :: Times(0.0, a) == 0.0
    ensures forall a {:trigger Times(a, -1.0)} :: Times(a, -1.0) == -a
    ensures forall a {:trigger Times(-1.0, a)} :: Times(-1.0, a) == -a
  {
  }

  lemma BasisUndone(change: Change)
    ensures Correction(change) == BasisInverse(change)
    ensures Undoes(LinearMap(BasisInverse(change)), LinearMap(Basis(change)))
  {
    TimesUnits();
    hide Times;
  }

  lemma TurnedUniform(p: Vec, k: real)
    ensures Turned(p, Uniform(k)) == Scaled(p, k)
  {
    TimesUnits();
    assert forall a, b :: Times(a, b) == Times(b, a);
    hide Times;
  }

  lemma MovedLinear(p: Vec, a: Mat)
    ensures Moved(p, LinearMap(a)) == Turned(p, a)
  {
    hide Turned;
  }

  lemma ScaledTwice(p: Vec, k: real, l: real)
    requires k * l == 1.0
    ensures Scaled(Scaled(p, k), l) == p
  {
    Undone(p.x, k, l);
    Undone(p.y, k, l);
    Undone(p.z, k, l);
    hide Times;
  }

  lemma Undone(a: real, k: real, l: real)
    requires k * l == 1.0
    ensures Times(Times(a, k), l) == a
  {
    assert a * k * l == a * (k * l);
  }

  lemma UniformUndone(k: real)
    requires k > 0.0
    ensures Undoes(LinearMap(Uniform(1.0 / k)), LinearMap(Uniform(k)))
  {
    var a, b := LinearMap(Uniform(k)), LinearMap(Uniform(1.0 / k));
    assert k * (1.0 / k) == 1.0;
    forall p ensures Moved(p, Then(a, b)) == Moved(p, IDENTITY) == Moved(p, Then(b, a)) {
      MovedThen(p, a, b);
      MovedThen(p, b, a);
      MovedByIdentity(p);
      MovedLinear(p, Uniform(k));
      MovedLinear(p, Uniform(1.0 / k));
      TurnedUniform(p, k);
      TurnedUniform(p, 1.0 / k);
      MovedLinear(Scaled(p, k), Uniform(1.0 / k));
      MovedLinear(Scaled(p, 1.0 / k), Uniform(k));
      TurnedUniform(Scaled(p, k), 1.0 / k);
      TurnedUniform(Scaled(p, 1.0 / k), k);
      ScaledTwice(p, k, 1.0 / k);
      ScaledTwice(p, 1.0 / k, k);
      hide *;
    }
    hide Then, Moved;
    SameMap(Then(a, b), IDENTITY);
    SameMap(Then(b, a), IDENTITY);
  }

  lemma ConversionUndone(m: Metrics)
    requires Sensible(m)
    ensures Undoes(Reversion(m), Conversion(m))
  {
    BasisUndone(m.change);
    UniformUndone(Factor(m));
    hide Then, Uniform, Basis, BasisInverse, Correction;
    ProductUndone(LinearMap(Uniform(Factor(m))), LinearMap(Uniform(1.0 / Factor(m))),
                  LinearMap(BasisInverse(m.change)), LinearMap(Basis(m.change)));
    assert Undoes(LinearMap(Basis(m.change)), LinearMap(BasisInverse(m.change)));
  }

  lemma PointConverted(m: Metrics, p: Vec)
    ensures Moved(p, Conversion(m)) == ConvertedPoint(m, p)
  {
    MovedThen(p, LinearMap(Uniform(Factor(m))), LinearMap(Correction(m.change)));
    MovedLinear(p, Uniform(Factor(m)));
    TurnedUniform(p, Factor(m));
    MovedLinear(Scaled(p, Factor(m)), Correction(m.change));
    hide Then, Moved, Turned, Scaled, Uniform, Correction;
  }

  // Conjugating by a uniform scale only scales the translation.
  lemma ScaledTranslation(a: Map, k: real)
    requires k > 0.0
    ensures Then(Then(LinearMap(Uniform(1.0 / k)), a), LinearMap(Uniform(k))) == Map(a.linear, Scaled(a.translation, k))
  {
    var u, v := LinearMap(Uniform(1.0 / k)), LinearMap(Uniform(k));
    var b := Map(a.linear, Scaled(a.translation, k));
    assert k * (1.0 / k) == 1.0;
    forall p ensures Moved(p, Then(Then(u, a), v)) == Moved(p, b) {
      MovedThen(p, Then(u, a), v);
      MovedThen(p, u, a);
      MovedLinear(p, Uniform(1.0 / k));
      TurnedUniform(p, 1.0 / k);
      TurnedScaled(p, 1.0 / k, a.linear);
      var q := Turned(p, a.linear);
      var r := Moved(Moved(p, u), a);
      assert r == Plus(Scaled(q, 1.0 / k), a.translation);
      MovedLinear(r, Uniform(k));
      TurnedUniform(r, k);
      ScaledPlus(Scaled(q, 1.0 / k), a.translation, k);
      ScaledTwice(q, 1.0 / k, k);
      hide Then, Turned, Scaled, Uniform, Plus;
    }
    hide Then, Moved;
    SameMap(Then(Then(u, a), v), b);
  }

  lemma ScaledPlus(u: Vec, v: Vec, k: real)
    ensures Scaled(Plus(u, v), k) == Plus(Scaled(u, k), Scaled(v, k))
  {
    TimesSum(u.x, v.x, k);
    TimesSum(u.y, v.y, k);
    TimesSum(u.z, v.z, k);
    hide Times;
  }

  lemma TimesSum(a: real, b: real, k: real)
    ensures Times(a + b, k) == Times(a, k) + Times(b, k)
  {
  }

  ghost function Conjugate(m: Metrics, a: Map): Map
    requires Sensible(m)
  {
    Then(Then(Reversion(m), a), Conversion(m))
  }

  /** What is done to a matrix is conjugation by what is done to points. */
  lemma MapConverted(m: Metrics, a: Map)
    requires Sensible(m)
    ensures ConvertedMap(m, a) == Conjugate(m, a)
  {
    var k := Factor(m);
    var c, u, v, d := LinearMap(Basis(m.change)), LinearMap(Uniform(1.0 / k)), LinearMap(Uniform(k)),
                      LinearMap(BasisInverse(m.change));
    ScaledTranslation(a, k);
    BasisUndone(m.change);
    hide Then, Uniform, Basis, BasisInverse, Correction, Scaled;
    ThenAssociates(c, u, a);
    ThenAssociates(c, Then(u, a), v);
    ThenAssociates(Then(c, Then(u, a)), v, d);
    ThenAssociates(c, Then(Then(u, a), v), d);
    assert Then(Then(Then(c, u), a), Then(v, d)) == Then(Then(Then(c, Then(u, a)), v), d);
  }

  /** Converting a point and moving it by the converted map is moving it and converting the result. */
  lemma ConvertedMoves(m: Metrics, p: Vec, a: Map)
    requires Sensible(m)
    ensures Moved(ConvertedPoint(m, p), ConvertedMap(m, a)) == ConvertedPoint(m, Moved(p, a))
  {
    MapConverted(m, a);
    PointConverted(m, p);
    PointConverted(m, Moved(p, a));
    ConversionUndone(m);
    hide Then, Moved, ConvertedMap, ConvertedPoint, Conversion, Reversion;
    var k, l := Conversion(m), Reversion(m);
    MovedThen(p, k, Then(Then(l, a), k));
    ThenAssociates(l, a, k);
    CancelLeft(k, l, Then(a, k));
    MovedThen(p, a, k);
  }

  // ---------- Conjugation respects products and inverses ----------

  lemma ConjugateIdentity(m: Metrics)
    requires Sensible(m)
    ensures Conjugate(m, IDENTITY) == IDENTITY
  {
    ThenIdentity(Reversion(m));
    ConversionUndone(m);
    hide Then, Reversion, Conversion;
  }

  lemma ConjugateThen(m: Metrics, a: Map, b: Map)
    requires Sensible(m)
    ensures Conjugate(m, Then(a, b)) == Then(Conjugate(m, a), Conjugate(m, b))
  {
    var k, l := Conversion(m), Reversion(m);
    ConversionUndone(m);
    hide Then, Reversion, Conversion;
    ThenAssociates(l, a, b);
    ThenAssociates(l, b, k);
    ThenAssociates(Then(l, a), k, Then(l, Then(b, k)));
    CancelLeft(k, l, Then(b, k));
    ThenAssociates(Then(l, a), b, k);
  }

  lemma ConjugateInverse(m: Metrics, a: Map)
    requires Sensible(m)
    ensures Conjugate(m, Inverse(a)) == Inverse(Conjugate(m, a))
  {
    hide Then, Reversion, Conversion, Conjugate;
    ConjugateIdentity(m);
    if Invertible(a) {
      ConjugateThen(m, a, Inverse(a));
      ConjugateThen(m, Inverse(a), a);
      UndoneIsInverse(Conjugate(m, a), Conjugate(m, Inverse(a)));
    } else if Invertible(Conjugate(m, a)) {
      ConjugateInvertible(m, a);
      assert false;
    }
  }

  lemma ConjugateInvertible(m: Metrics, a: Map)
    requires Sensible(m) && Invertible(Conjugate(m, a))
    ensures Invertible(a)
  {
    var k, l := Conversion(m), Reversion(m);
    ConversionUndone(m);
    hide Then, Reversion, Conversion;
    var b := Inverse(Conjugate(m, a));
    ProductUndone(k, l, Conjugate(m, a), b);
    ProductUndone(Then(k, Conjugate(m, a)), Then(b, l), l, k);
    ThenAssociates(l, a, k);
    CancelLeft(k, l, Then(a, k));
    CancelRight(k, l, a);
    assert Then(Then(k, Conjugate(m, a)), l) == a;
    assert Undoes(Then(k, Then(b, l)), a);
  }

  // ---------- And back ----------

  function Opposite(change: Change): Change { match change case Keep => Keep case YtoZ => ZtoY case ZtoY => YtoZ }

  // The metrics that were there before.
  ghost function Back(m: Metrics): (r: Metrics)
    requires Sensible(m)
    ensures Sensible(r)
  {
    Metrics(Opposite(m.change), if m.scale.Some? then Some(1.0 / m.scale.value) else None)
  }

  lemma BackReverts(m: Metrics)
    requires Sensible(m)
    ensures Conversion(Back(m)) == Reversion(m)
  {
    var u, c := Uniform(1.0 / Factor(m)), Basis(m.change);
    assert Factor(Back(m)) == 1.0 / Factor(m);
    assert Correction(Opposite(m.change)) == c;
    hide Uniform, Basis, Correction, Then;
    UniformSlides(1.0 / Factor(m), c);
  }

  lemma UniformSlides(k: real, a: Mat)
    ensures Then(LinearMap(Uniform(k)), LinearMap(a)) == Then(LinearMap(a), LinearMap(Uniform(k)))
  {
    var u, l := LinearMap(Uniform(k)), LinearMap(a);
    forall p ensures Moved(p, Then(u, l)) == Moved(p, Then(l, u)) {
      MovedThen(p, u, l);
      MovedThen(p, l, u);
      MovedLinear(p, Uniform(k));
      TurnedUniform(p, k);
      MovedLinear(Scaled(p, k), a);
      MovedLinear(p, a);
      MovedLinear(Turned(p, a), Uniform(k));
      TurnedUniform(Turned(p, a), k);
      TurnedScaled(p, k, a);
      hide Then, Moved, Turned, Scaled, Uniform;
    }
    hide Then, Moved;
    SameMap(Then(u, l), Then(l, u));
  }

  /** Converting to other metrics and back again gives every point and every map as it was. */
  lemma RoundTrip(m: Metrics, p: Vec, a: Map)
    requires Sensible(m)
    ensures ConvertedPoint(Back(m), ConvertedPoint(m, p)) == p
    ensures ConvertedMap(Back(m), ConvertedMap(m, a)) == a
  {
    var k, l := Conversion(m), Reversion(m);
    ConversionUndone(m);
    ConversionUndone(Back(m));
    BackReverts(m);
    hide Then, Moved, Conversion, Reversion, ConvertedPoint, ConvertedMap;
    PointConverted(m, p);
    PointConverted(Back(m), ConvertedPoint(m, p));
    MovedThen(p, k, l);
    MovedByIdentity(p);
    MapConverted(m, a);
    MapConverted(Back(m), ConvertedMap(m, a));
    OneInverse(l, k, Reversion(Back(m)));
    ThenAssociates(l, a, k);
    CancelLeft(k, l, Then(a, k));
    CancelRight(k, l, a);
  }

  // ---------- Extents ----------

  predicate InBox(p: Vec, low: Vec, high: Vec)
  {
    low.x <= p.x <= high.x && low.y <= p.y <= high.y && low.z <= p.z <= high.z
  }

  function Least(u: Vec, v: Vec): Vec
  {
    Vec(if v.x < u.x then v.x else u.x, if v.y < u.y then v.y else u.y, if v.z < u.z then v.z else u.z)
  }

  function Greatest(u: Vec, v: Vec): Vec
  {
    Vec(if u.x < v.x then v.x else u.x, if u.y < v.y then v.y else u.y, if u.z < v.z then v.z else u.z)
  }

  function TurnedBox(change: Change, values: seq<Vec>): seq<Vec>
  {
    if |values| != 2 then values
    else
      var a, b := Turned(values[0], Correction(change)), Turned(values[1], Correction(change));
      [Least(a, b), Greatest(a, b)]
  }

  lemma QuarterTurned(v: Vec)
    ensures Turned(v, Correction(Keep)) == v
    ensures Turned(v, Correction(YtoZ)) == Vec(v.x, -v.z, v.y)
    ensures Turned(v, Correction(ZtoY)) == Vec(v.x, v.z, -v.y)
  {
    TimesUnits();
    hide Times;
  }

  /** Two turned corners are enough: the turned box holds exactly the turned points of the box. */
  lemma BoxTurns(change: Change, low: Vec, high: Vec, p: Vec)
    requires InBox(low, low, high)
    ensures var box := TurnedBox(change, [low, high]);
            InBox(p, low, high) <==> InBox(Turned(p, Correction(change)), box[0], box[1])
  {
    QuarterTurned(low);
    QuarterTurned(high);
    QuarterTurned(p);
    hide Turned;
  }
}
