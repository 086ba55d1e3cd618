/** Points, linear maps and affine maps over the reals, in the row-vector convention: a point stands left of a map,
    and the left factor of a product applies first. */
module Affine {

  // Products of two reals go through this function, so that proofs about structure can hide it.
  function Times(a: real, b: real): real { a * b }

  datatype Vec = Vec(x: real, y: real, z: real)

  const ORIGIN := Vec(0.0, 0.0, 0.0)
  const X_AXIS := Vec(1.0, 0.0, 0.0)
  const Y_AXIS := Vec(0.0, 1.0, 0.0)
  const Z_AXIS := Vec(0.0, 0.0, 1.0)

  function Plus(u: Vec, v: Vec): Vec { Vec(u.x + v.x, u.y + v.y, u.z + v.z) }

  function Minus(v: Vec): Vec { Vec(-v.x, -v.y, -v.z) }

  function Scaled(v: Vec, k: real): Vec { Vec(Times(v.x, k), Times(v.y, k), Times(v.z, k)) }

  // Rows are the images of the axes.
  datatype Mat = Mat(r0: Vec, r1: Vec, r2: Vec)

  const UNIT := Mat(X_AXIS, Y_AXIS, Z_AXIS)

  function Turned(v: Vec, m: Mat): Vec
  {
    Plus(Plus(Scaled(m.r0, v.x), Scaled(m.r1, v.y)), Scaled(m.r2, v.z))
  }

  function Product(a: Mat, b: Mat): Mat { Mat(Turned(a.r0, b), Turned(a.r1, b), Turned(a.r2, b)) }

  datatype Map = Map(linear: Mat, translation: Vec)

  const IDENTITY := Map(UNIT, ORIGIN)

  function Moved(p: Vec, a: Map): Vec { Plus(Turned(p, a.linear), a.translation) }

  function MovedPoints(points: seq<Vec>, a: Map): (r: seq<Vec>)
    ensures |r| == |points| && forall i :: 0 <= i < |r| ==> r[i] == Moved(points[i], a)
  {
    seq(|points|, i requires 0 <= i < |points| => Moved(points[i], a))
  }

  // First a, then b.
  function Then(a: Map, b: Map): Map
  {
    Map(Product(a.linear, b.linear), Plus(Turned(a.translation, b.linear), b.translation))
  }

  // ---------- Linearity ----------

  lemma SumDistributes(a: real, x: real, x': real, b: real, y: real, y': real, c: real, z: real, z': real)
    ensures Times(a, x + x') + Times(b, y + y') + Times(c, z + z')
            == (Times(a, x) + Times(b, y) + Times(c, z)) + (Times(a, x') + Times(b, y') + Times(c, z'))
  {
    assert a * (x + x') == a * x + a * x';
    assert b * (y + y') == b * y + b * y';
    assert c * (z + z') == c * z + c * z';
  }

  lemma TurnedPlus(u: Vec, v: Vec, m: Mat)
    ensures Turned(Plus(u, v), m) == Plus(Turned(u, m), Turned(v, m))
  {
    SumDistributes(m.r0.x, u.x, v.x, m.r1.x, u.y, v.y, m.r2.x, u.z, v.z);
    SumDistributes(m.r0.y, u.x, v.x, m.r1.y, u.y, v.y, m.r2.y, u.z, v.z);
    SumDistributes(m.r0.z, u.x, v.x, m.r1.z, u.y, v.y, m.r2.z, u.z, v.z);
    hide Times;
  }

  lemma FactorMoves(a: real, x: real, x': real, b: real, y: real, y': real, c: real, z: real, z': real, k: real, w: real)
    requires x' == x * k && y' == y * k && z' == z * k && w == a * x + b * y + c * z
    ensures a * x' + b * y' + c * z' == w * k
  {
  }

  lemma FactorMovesOut(a: real, x: real, x': real, b: real, y: real, y': real, c: real, z: real, z': real, k: real, w: real)
    requires x' == Times(x, k) && y' == Times(y, k) && z' == Times(z, k)
    requires w == Times(a, x) + Times(b, y) + Times(c, z)
    ensures Times(a, x') + Times(b, y') + Times(c, z') == Times(w, k)
  {
    FactorMoves(a, x, x', b, y, y', c, z, z', k, w);
  }

  lemma TurnedScaled(v: Vec, k: real, m: Mat)
    ensures Turned(Scaled(v, k), m) == Scaled(Turned(v, m), k)
  {
    hide Times;
    var u, w := Scaled(v, k), Turned(v, m);
    FactorMovesOut(m.r0.x, v.x, u.x, m.r1.x, v.y, u.y, m.r2.x, v.z, u.z, k, w.x);
    FactorMovesOut(m.r0.y, v.x, u.x, m.r1.y, v.y, u.y, m.r2.y, v.z, u.z, k, w.y);
    FactorMovesOut(m.r0.z, v.x, u.x, m.r1.z, v.y, u.y, m.r2.z, v.z, u.z, k, w.z);
  }

  lemma TurnedProduct(v: Vec, a: Mat, b: Mat)
    ensures Turned(v, Product(a, b)) == Turned(Turned(v, a), b)
  {
    var p, q, r := Scaled(a.r0, v.x), Scaled(a.r1, v.y), Scaled(a.r2, v.z);
    TurnedPlus(Plus(p, q), r, b);
    TurnedPlus(p, q, b);
    TurnedScaled(a.r0, v.x, b);
    TurnedScaled(a.r1, v.y, b);
    TurnedScaled(a.r2, v.z, b);
    hide Times, Plus, Scaled;
  }

  lemma PlusAssociates(u: Vec, v: Vec, w: Vec)
    ensures Plus(Plus(u, v), w) == Plus(u, Plus(v, w))
  {
  }

  // ---------- Maps act on points ----------

  lemma MovedThen(p: Vec, a: Map, b: Map)
    ensures Moved(p, Then(a, b)) == Moved(Moved(p, a), b)
  {
    TurnedProduct(p, a.linear, b.linear);
    TurnedPlus(Turned(p, a.linear), a.translation, b.linear);
    PlusAssociates(Turned(Turned(p, a.linear), b.linear), Turned(a.translation, b.linear), b.translation);
    hide Turned, Product, Plus;
  }

  lemma ScaledByUnits(v: Vec)
    ensures Scaled(v, 1.0) == v && Scaled(v, 0.0) == ORIGIN
  {
    assert forall a :: Times(a, 1.0) == a && Times(a, 0.0) == 0.0;
    hide Times;
  }

  lemma AxesTurned(m: Mat)
    ensures Turned(X_AXIS, m) == m.r0 && Turned(Y_AXIS, m) == m.r1 && Turned(Z_AXIS, m) == m.r2
    ensures Turned(ORIGIN, m) == ORIGIN
  {
    ScaledByUnits(m.r0);
    ScaledByUnits(m.r1);
    ScaledByUnits(m.r2);
    hide Scaled;
  }

  lemma UnitTurns(v: Vec)
    ensures Turned(v, UNIT) == v
  {
    assert forall a :: Times(1.0, a) == a && Times(0.0, a) == 0.0;
    hide Times;
  }

  lemma MovedByIdentity(p: Vec)
    ensures Moved(p, IDENTITY) == p
  {
    UnitTurns(p);
    hide Turned;
  }

  lemma ThenIdentity(a: Map)
    ensures Then(a, IDENTITY) == a == Then(IDENTITY, a)
  {
    UnitTurns(a.linear.r0);
    UnitTurns(a.linear.r1);
    UnitTurns(a.linear.r2);
    UnitTurns(a.translation);
    AxesTurned(a.linear);
    hide Turned;
  }

  // A map is determined by where it takes the points.
  lemma SameMap(a: Map, b: Map)
    requires forall p :: Moved(p, a) == Moved(p, b)
    ensures a == b
  {
    assert Moved(ORIGIN, a) == Moved(ORIGIN, b);
    assert Moved(X_AXIS, a) == Moved(X_AXIS, b) && Moved(Y_AXIS, a) == Moved(Y_AXIS, b) && Moved(Z_AXIS, a) == Moved(Z_AXIS, b);
    AxesTurned(a.linear);
    AxesTurned(b.linear);
    hide Turned;
  }

  lemma ThenAssociates(a: Map, b: Map, c: Map)
    ensures Then(Then(a, b), c) == Then(a, Then(b, c))
  {
    hide Then, Moved;
    forall p ensures Moved(p, Then(Then(a, b), c)) == Moved(p, Then(a, Then(b, c))) {
      MovedThen(p, Then(a, b), c);
      MovedThen(p, a, b);
      MovedThen(p, a, Then(b, c));
      MovedThen(Moved(p, a), b, c);
    }
    SameMap(Then(Then(a, b), c), Then(a, Then(b, c)));
  }

  // ---------- Inverses ----------

  ghost predicate Undoes(b: Map, a: Map)
  {
    Then(a, b) == IDENTITY == Then(b, a)
  }

  ghost predicate Invertible(a: Map)
  {
    exists b :: Undoes(b, a)
  }

  // A map that cannot be inverted is dropped.
  ghost function Inverse(a: Map): Map
  {
    if Invertible(a) then var b :| Undoes(b, a); b else IDENTITY
  }

  lemma OneInverse(a: Map, b: Map, c: Map)
    requires Undoes(b, a) && Undoes(c, a)
    ensures b == c
  {
    ThenAssociates(b, a, c);
    ThenIdentity(b);
    ThenIdentity(c);
    hide Then;
  }

  lemma UndoneIsInverse(a: Map, b: Map)
    requires Undoes(b, a)
    ensures Invertible(a) && Inverse(a) == b
  {
    OneInverse(a, b, Inverse(a));
  }

  lemma IdentityInverse()
    ensures Inverse(IDENTITY) == IDENTITY
  {
    ThenIdentity(IDENTITY);
    hide Then;
    UndoneIsInverse(IDENTITY, IDENTITY);
  }

  lemma CancelLeft(a: Map, b: Map, c: Map)
    requires Undoes(b, a)
    ensures Then(b, Then(a, c)) == c == Then(a, Then(b, c))
  {
    ThenAssociates(b, a, c);
    ThenAssociates(a, b, c);
    ThenIdentity(c);
    hide Then;
  }

  lemma CancelRight(a: Map, b: Map, c: Map)
    requires Undoes(b, a)
    ensures Then(Then(c, a), b) == c == Then(Then(c, b), a)
  {
    ThenAssociates(c, a, b);
    ThenAssociates(c, b, a);
    ThenIdentity(c);
    hide Then;
  }

  lemma ProductUndone(a: Map, a': Map, b: Map, b': Map)
    requires Undoes(a', a) && Undoes(b', b)
    ensures Undoes(Then(b', a'), Then(a, b))
  {
    ThenAssociates(Then(a, b), b', a');
    CancelRight(b, b', a);
    ThenAssociates(Then(b', a'), a, b);
    CancelRight(a', a, b');
    hide Then;
  }
}
