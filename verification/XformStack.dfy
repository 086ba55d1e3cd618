/** Transform op stacks of a prim: named op attributes and the order in which they apply. */
module XformStack {
  import opened Wrappers
  import opened Affine
  import opened ChangeOfBasis

  datatype Kind = Translate | Scale | RotateX | RotateY | RotateZ | Rotation | Matrix

  datatype OpName = OpName(kind: Kind, suffix: string)

  datatype Value =
    | Offset(v: Vec)
    | Factors(v: Vec)
    | Angle(c: real, s: real)   // cosine and sine
    | Turning(m: Mat)           // three-axis angles or a quaternion
    | Whole(a: Map)

  datatype Token = Reset | Forward(op: OpName) | Inverted(op: OpName)

  // An op may be declared without a value.
  type Ops = map<OpName, Option<Value>>

  datatype Xform = Xform(ops: Ops, order: seq<Token>)

  predicate IsAxis(k: Kind) { k.RotateX? || k.RotateY? || k.RotateZ? }

  function AxisOf(k: Kind): Axis
    requires IsAxis(k)
  {
    match k case RotateX => X case RotateY => Y case RotateZ => Z
  }

  function KindOf(axis: Axis): Kind
  {
    match axis case X => RotateX case Y => RotateY case Z => RotateZ
  }

  predicate Fits(k: Kind, v: Value)
  {
    match v
    case Offset(_) => k.Translate?
    case Factors(_) => k.Scale?
    case Angle(_, _) => IsAxis(k)
    case Turning(_) => k.Rotation?
    case Whole(_) => k.Matrix?
  }

  function Diagonal(v: Vec): Mat { Mat(Vec(v.x, 0.0, 0.0), Vec(0.0, v.y, 0.0), Vec(0.0, 0.0, v.z)) }

  function ValueMap(k: Kind, v: Value): Map
    requires Fits(k, v)
  {
    match v
    case Offset(t) => Map(UNIT, t)
    case Factors(f) => LinearMap(Diagonal(f))
    case Angle(c, s) => LinearMap(AxisTurn(AxisOf(k), c, s))
    case Turning(m) => LinearMap(m)
    case Whole(a) => a
  }

  predicate Typed(ops: Ops)
  {
    forall n :: n in ops && ops[n].Some? ==> Fits(n.kind, ops[n].value)
  }

  function OpMap(ops: Ops, n: OpName): Map
    requires Typed(ops)
  {
    if n in ops && ops[n].Some? then ValueMap(n.kind, ops[n].value) else IDENTITY
  }

  ghost function TokenMap(ops: Ops, t: Token): Map
    requires Typed(ops)
  {
    match t
    case Reset => IDENTITY
    case Forward(n) => OpMap(ops, n)
    case Inverted(n) => Inverse(OpMap(ops, n))
  }

  // The last op in the order applies to points first.
  ghost function StackMap(ops: Ops, order: seq<Token>): Map
    requires Typed(ops)
  {
    if order == [] then IDENTITY else Then(StackMap(ops, order[1..]), TokenMap(ops, order[0]))
  }

  ghost function Local(x: Xform): Map
    requires Typed(x.ops)
  {
    StackMap(x.ops, x.order)
  }

  predicate Resets(x: Xform) { x.order != [] && x.order[0] == Reset }

  // Every op in the order has its attribute, and the reset token can only come first.
  ghost predicate WellFormed(x: Xform)
  {
    && Typed(x.ops)
    && forall i :: 0 <= i < |x.order| ==>
         match x.order[i]
         case Reset => i == 0
         case Forward(n) => n in x.ops
         case Inverted(n) => n in x.ops
  }

  // ---------- Converting a value in place ----------

  function ConvertedValue(m: Metrics, v: Value): Value
  {
    match v
    case Offset(t) => Offset(ConvertedPoint(m, t))
    case Factors(f) => if m.change.Keep? || f.x == f.y == f.z then v else Factors(Vec(f.x, f.z, f.y))
    case Turning(r) =>
      if m.change.Keep? then v else Turning(Product(Product(Basis(m.change), r), BasisInverse(m.change)))
    case Whole(a) => Whole(ConvertedMap(m, a))
    case Angle(_, _) => v
  }

  function ConvertedOps(m: Metrics, ops: Ops): Ops
  {
    map n | n in ops ::
      if ops[n].Some? && !IsAxis(n.kind) then Some(ConvertedValue(m, ops[n].value)) else ops[n]
  }

  lemma OffsetConverts(m: Metrics, t: Vec)
    requires Sensible(m)
    ensures Map(UNIT, ConvertedPoint(m, t)) == ConvertedMap(m, Map(UNIT, t))
  {
    var c, d := Basis(m.change), BasisInverse(m.change);
    BasisUndone(m.change);
    UnitTurns(c.r0);
    UnitTurns(c.r1);
    UnitTurns(c.r2);
    AxesTurned(UNIT);
    hide Turned, Scaled, Basis, BasisInverse, Correction;
    assert Product(c, d) == UNIT;
    PlusOrigin(Scaled(t, Factor(m)));
    PlusOrigin(ConvertedPoint(m, t));
  }

  lemma PlusOrigin(v: Vec)
    ensures Plus(v, ORIGIN) == v == Plus(ORIGIN, v)
  {
  }

  // Without translation only the matrices matter.
  lemma LinearConverts(m: Metrics, r: Mat)
    ensures ConvertedMap(m, LinearMap(r)) == LinearMap(Product(Product(Basis(m.change), r), BasisInverse(m.change)))
  {
    OriginScaled(Factor(m));
    AxesTurned(r);
    AxesTurned(BasisInverse(m.change));
    PlusOrigin(ORIGIN);
    hide Turned, Scaled, Basis, BasisInverse, Plus;
  }

  lemma OriginScaled(k: real)
    ensures Scaled(ORIGIN, k) == ORIGIN
  {
  }

  lemma UnitConjugates(r: Mat)
    ensures Product(Product(UNIT, r), UNIT) == r
  {
    UnitTurns(r.r0);
    UnitTurns(r.r1);
    UnitTurns(r.r2);
    AxesTurned(r);
    hide Turned;
  }

  lemma TurnedByBasis(v: Vec)
    ensures Turned(v, Basis(YtoZ)) == Vec(v.x, v.z, -v.y)
    ensures Turned(v, Basis(ZtoY)) == Vec(v.x, -v.z, v.y)
  {
    TimesUnits();
    hide Times;
  }

  lemma ScaledByMinusOne(v: Vec)
    ensures Scaled(v, -1.0) == Minus(v)
  {
  }

  lemma SignedAxesTurned(r: Mat)
    ensures Turned(Vec(0.0, 0.0, -1.0), r) == Minus(r.r2) && Turned(Vec(0.0, -1.0, 0.0), r) == Minus(r.r1)
  {
    ScaledByUnits(r.r0);
    ScaledByUnits(r.r1);
    ScaledByUnits(r.r2);
    ScaledByMinusOne(r.r1);
    ScaledByMinusOne(r.r2);
    hide Scaled;
  }

  // The conjugated matrix, entry by entry.
  lemma BasisConjugates(change: Change, r: Mat)
    ensures Product(Product(Basis(change), r), BasisInverse(change))
            == match change
               case Keep => r
               case YtoZ => Mat(Vec(r.r0.x, -r.r0.z, r.r0.y), Vec(-r.r2.x, r.r2.z, -r.r2.y), Vec(r.r1.x, -r.r1.z, r.r1.y))
               case ZtoY => Mat(Vec(r.r0.x, r.r0.z, -r.r0.y), Vec(r.r2.x, r.r2.z, -r.r2.y), Vec(-r.r1.x, -r.r1.z, r.r1.y))
  {
    AxesTurned(r);
    SignedAxesTurned(r);
    TurnedByBasis(r.r0);
    TurnedByBasis(r.r1);
    TurnedByBasis(r.r2);
    TurnedByBasis(Minus(r.r1));
    TurnedByBasis(Minus(r.r2));
    UnitConjugates(r);
    hide Turned;
  }

  lemma DiagonalConverts(change: Change, f: Vec)
    ensures Product(Product(Basis(change), Diagonal(f)), BasisInverse(change))
            == Diagonal(if change.Keep? then f else Vec(f.x, f.z, f.y))
  {
    BasisConjugates(change, Diagonal(f));
    hide Product;
  }

  lemma ValueConverts(m: Metrics, k: Kind, v: Value)
    requires Sensible(m) && Fits(k, v) && !IsAxis(k)
    ensures Fits(k, ConvertedValue(m, v))
    ensures ValueMap(k, ConvertedValue(m, v)) == Conjugate(m, ValueMap(k, v))
  {
    MapConverted(m, ValueMap(k, v));
    match v
    case Offset(t) => OffsetConverts(m, t);
    case Factors(f) =>
      LinearConverts(m, Diagonal(f));
      DiagonalConverts(m.change, f);
      hide ConvertedMap, Product;
    case Turning(r) =>
      LinearConverts(m, r);
      if m.change.Keep? {
        UnitConjugates(r);
      }
      hide ConvertedMap, Product;
    case Whole(a) =>
  }

  // ---------- Renaming single-axis rotations ----------

  function AxisVector(axis: Axis): Vec { match axis case X => X_AXIS case Y => Y_AXIS case Z => Z_AXIS }

  // The axis that the rotation takes an axis to, and whether it comes out reversed.
  function AxisAfter(change: Change, axis: Axis): (Axis, bool)
  {
    match (change, axis)
    case (YtoZ, Y) => (Z, false)
    case (YtoZ, Z) => (Y, true)
    case (ZtoY, Y) => (Z, true)
    case (ZtoY, Z) => (Y, false)
    case _ => (axis, false)
  }

  lemma AxisAfterIsRotated(change: Change, axis: Axis)
    ensures var (axis', reversed) := AxisAfter(change, axis);
            Turned(AxisVector(axis), Correction(change)) == if reversed then Minus(AxisVector(axis')) else AxisVector(axis')
  {
    AxesTurned(Correction(change));
    hide Turned;
  }

  function Component(v: Vec, axis: Axis): real { match axis case X => v.x case Y => v.y case Z => v.z }

  predicate NearZero(a: real) { -0.0001 <= a <= 0.0001 }

  lemma RotatedComponents(change: Change, axis: Axis)
    ensures var v, (axis', reversed) := Turned(AxisVector(axis), Correction(change)), AxisAfter(change, axis);
            && (Component(v, axis') == 1.0 || Component(v, axis') == -1.0)
            && (Component(v, axis') < 0.0 <==> reversed)
            && (axis' != X ==> v.x == 0.0) && (axis' != Y ==> v.y == 0.0)
  {
    AxesTurned(Correction(change));
    hide Turned;
    match (change, axis) {
      case (YtoZ, Z) =>
      case (ZtoY, Y) =>
      case _ => assert !AxisAfter(change, axis).1;
    }
  }

  // The first component of the rotated axis that is not zero names the new axis, its sign the direction.
  method FindNewAxis(change: Change, axis: Axis) returns (axis': Axis, reversed: bool)
    ensures (axis', reversed) == AxisAfter(change, axis)
  {
    var rotated := Turned(AxisVector(axis), Correction(change));
    RotatedComponents(change, axis);
    hide Turned, Correction, AxisAfter, AxisVector;
    axis' := X;
    while NearZero(Component(rotated, axis')) && axis' != Z
      invariant axis'.Y? ==> AxisAfter(change, axis).0 != X
      invariant axis'.Z? ==> AxisAfter(change, axis).0 == Z
      decreases match axis' case X => 2 case Y => 1 case Z => 0
    {
      axis' := if axis' == X then Y else Z;
    }
    reversed := Component(rotated, axis') < 0.0;
  }

  function NewName(change: Change, n: OpName): OpName
  {
    if IsAxis(n.kind) then OpName(KindOf(AxisAfter(change, AxisOf(n.kind)).0), n.suffix) else n
  }

  // The angle times the direction of the new axis.
  function NewValue(change: Change, n: OpName, v: Value): Value
  {
    if IsAxis(n.kind) && v.Angle? && AxisAfter(change, AxisOf(n.kind)).1 then Angle(v.c, -v.s) else v
  }

  function NewContent(change: Change, n: OpName, v: Option<Value>): Option<Value>
  {
    if v.Some? then Some(NewValue(change, n, v.value)) else None
  }

  lemma NewNameInvolutive(change: Change, n: OpName)
    ensures NewName(change, NewName(change, n)) == n
    ensures IsAxis(NewName(change, n).kind) <==> IsAxis(n.kind)
    ensures n.kind.RotateX? ==> NewName(change, n) == n
    ensures !IsAxis(n.kind) || change.Keep? ==> NewName(change, n) == n
  {
  }

  lemma NewValueFits(change: Change, n: OpName, v: Value)
    requires Fits(n.kind, v) && IsAxis(n.kind)
    ensures Fits(NewName(change, n).kind, NewValue(change, n, v))
    ensures change.Keep? ==> NewValue(change, n, v) == v
  {
  }

  lemma AxisTurnConverts(change: Change, axis: Axis, c: real, s: real)
    ensures Product(Product(Basis(change), AxisTurn(axis, c, s)), BasisInverse(change))
            == var (axis', reversed) := AxisAfter(change, axis); AxisTurn(axis', c, if reversed then -s else s)
  {
    BasisConjugates(change, AxisTurn(axis, c, s));
    hide Product;
  }

  lemma AngleConverts(m: Metrics, n: OpName, v: Value)
    requires Sensible(m) && Fits(n.kind, v) && IsAxis(n.kind)
    ensures Fits(NewName(m.change, n).kind, NewValue(m.change, n, v))
    ensures ValueMap(NewName(m.change, n).kind, NewValue(m.change, n, v)) == Conjugate(m, ValueMap(n.kind, v))
  {
    hide ConvertedMap, Conjugate, Product, AxisTurn;
    var r := AxisTurn(AxisOf(n.kind), v.c, v.s);
    MapConverted(m, LinearMap(r));
    LinearConverts(m, r);
    AxisTurnConverts(m.change, AxisOf(n.kind), v.c, v.s);
  }

  // ---------- The renaming as it is carried out ----------

  function RenamedNames(change: Change, names: set<OpName>): set<OpName>
  {
    set n | n in names :: NewName(change, n)
  }

  // The attribute a renamed rotation is written to keeps what it held when there is no value to write.
  function WrittenOps(change: Change, ops: Ops, names: set<OpName>): Ops
    requires names <= ops.Keys
  {
    var targets := RenamedNames(change, names);
    map n | n in ops.Keys + targets ::
      var source := NewName(change, n);
      if n in targets && source in names && ops[source].Some? then NewContent(change, source, ops[source])
      else if n in ops then ops[n] else None
  }

  // Old attributes that nothing was renamed to are removed.
  function RenamedOps(change: Change, ops: Ops, names: set<OpName>): Ops
    requires names <= ops.Keys
  {
    WrittenOps(change, ops, names) - (names - RenamedNames(change, names))
  }

  function RenamedToken(change: Change, names: set<OpName>, t: Token): seq<Token>
  {
    match t
    case Forward(n) =>
      if n in names then [Forward(NewName(change, n))]
      else if n in RenamedNames(change, names) then [] else [t]
    case _ => [t]
  }

  function RenamedOrder(change: Change, names: set<OpName>, order: seq<Token>): seq<Token>
  {
    if order == [] then []
    else RenamedOrder(change, names, order[..|order| - 1]) + RenamedToken(change, names, order[|order| - 1])
  }

  // The single-axis rotations that the order applies.
  function AxisOps(x: Xform): (names: set<OpName>)
    ensures names <= x.ops.Keys
  {
    set t | t in x.order && t.Forward? && IsAxis(t.op.kind) && t.op in x.ops :: t.op
  }

  function Renamed(change: Change, x: Xform): Xform
  {
    var names := AxisOps(x);
    if change.Keep? || names == {} then x
    else Xform(RenamedOps(change, x.ops, names), RenamedOrder(change, names, x.order))
  }

  // A rotation without a value must not take the place of one with a value.
  predicate NothingStale(change: Change, ops: Ops, names: set<OpName>)
    requires names <= ops.Keys
  {
    forall n :: n in names && ops[n].None? ==> NewName(change, n) in ops ==> ops[NewName(change, n)].None?
  }

  lemma RenamedValue(change: Change, ops: Ops, names: set<OpName>, n: OpName)
    requires names <= ops.Keys && n in names
    ensures var ops', n' := RenamedOps(change, ops, names), NewName(change, n);
            && n' in ops'
            && ops'[n'] == if ops[n].Some? then NewContent(change, n, ops[n]) else if n' in ops then ops[n'] else None
  {
    NewNameInvolutive(change, n);
    hide NewName, NewContent;
    assert NewName(change, n) in RenamedNames(change, names);
  }

  /** The swap in place gives every rotation its own new value, exactly when nothing stale is left. */
  lemma SwapIsRight(change: Change, ops: Ops, names: set<OpName>)
    requires names <= ops.Keys
    ensures NothingStale(change, ops, names) <==>
      forall n :: n in names ==>
        var ops', n' := RenamedOps(change, ops, names), NewName(change, n);
        n' in ops' && ops'[n'] == NewContent(change, n, ops[n])
  {
    forall n | n in names {
      RenamedValue(change, ops, names, n);
    }
    hide RenamedOps, NewName, NewValue;
  }
}
