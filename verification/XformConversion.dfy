/** How the operation rewrites the transform of one prim, and what each way of rewriting does to its local map. */
module XformConversion {
  import opened Wrappers
  import opened Affine
  import opened ChangeOfBasis
  import opened XformStack
  import opened UniqueNames

  // ---------- Op by op ----------

  function PerOp(m: Metrics, x: Xform): Xform
  {
    var y := Renamed(m.change, x);
    Xform(ConvertedOps(m, y.ops), y.order)
  }

  // Single-axis rotations applied by the order are forward ops, and no stale value is left by their swap.
  ghost predicate Convertible(m: Metrics, x: Xform)
  {
    && WellFormed(x)
    && (m.change.Keep? ||
        ((forall t :: t in x.order && t.Inverted? ==> !IsAxis(t.op.kind))
         && NothingStale(m.change, x.ops, AxisOps(x))))
  }

  function TokenAfter(change: Change, t: Token): Token
  {
    if t.Forward? then Forward(NewName(change, t.op)) else t
  }

  function OrderAfter(change: Change, order: seq<Token>): (r: seq<Token>)
    ensures |r| == |order| && forall i :: 0 <= i < |r| ==> r[i] == TokenAfter(change, order[i])
  {
    seq(|order|, i requires 0 <= i < |order| => TokenAfter(change, order[i]))
  }

  lemma RenamedTokenIs(change: Change, names: set<OpName>, t: Token)
    requires forall n :: n in names ==> IsAxis(n.kind)
    requires t.Forward? && IsAxis(t.op.kind) ==> t.op in names
    ensures RenamedToken(change, names, t) == [TokenAfter(change, t)]
  {
    forall n ensures IsAxis(NewName(change, n).kind) <==> IsAxis(n.kind) {
      NewNameInvolutive(change, n);
    }
    if t.Forward? {
      NewNameInvolutive(change, t.op);
    }
    hide NewName;
  }

  // No op is lost or repeated by the rewriting of the order.
  lemma {:induction false} RenamedOrderIs(change: Change, names: set<OpName>, order: seq<Token>)
    requires forall n :: n in names ==> IsAxis(n.kind)
    requires forall t :: t in order && t.Forward? && IsAxis(t.op.kind) ==> t.op in names
    ensures RenamedOrder(change, names, order) == OrderAfter(change, order)
    decreases |order|
  {
    hide RenamedToken, TokenAfter, IsAxis;
    if order != [] {
      var init, t := order[..|order| - 1], order[|order| - 1];
      assert t in order && forall u :: u in init ==> u in order;
      RenamedOrderIs(change, names, init);
      RenamedTokenIs(change, names, t);
    }
  }

  lemma PerOpOrder(m: Metrics, x: Xform)
    requires Convertible(m, x)
    ensures PerOp(m, x).order == OrderAfter(m.change, x.order)
  {
    var names := AxisOps(x);
    forall t | t in x.order && t.Forward? && IsAxis(t.op.kind) ensures t.op in names {
    }
    RenamedOrderIs(m.change, names, x.order);
    hide ConvertedOps, RenamedOrder, RenamedOps;
    if names == {} || m.change.Keep? {
      forall i | 0 <= i < |x.order| ensures TokenAfter(m.change, x.order[i]) == x.order[i] {
        assert x.order[i] in x.order;
        if x.order[i].Forward? {
          NewNameInvolutive(m.change, x.order[i].op);
        }
      }
      assert OrderAfter(m.change, x.order) == x.order;
    }
  }

  lemma RenamedOpTyped(change: Change, ops: Ops, names: set<OpName>, n: OpName)
    requires Typed(ops) && names <= ops.Keys && (forall k :: k in names ==> IsAxis(k.kind))
    requires n in RenamedOps(change, ops, names) && RenamedOps(change, ops, names)[n].Some?
    ensures Fits(n.kind, RenamedOps(change, ops, names)[n].value)
  {
    NewNameInvolutive(change, n);
    var source := NewName(change, n);
    if source in names && ops[source].Some? {
      NewValueFits(change, source, ops[source].value);
    }
    hide NewName, NewValue, Fits;
  }

  lemma ConvertedTyped(m: Metrics, ops: Ops)
    requires Typed(ops)
    ensures Typed(ConvertedOps(m, ops))
  {
    hide ConvertedPoint, ConvertedMap;
  }

  lemma PerOpTyped(m: Metrics, x: Xform)
    requires Typed(x.ops)
    ensures Typed(PerOp(m, x).ops)
  {
    var names := AxisOps(x);
    forall n | n in RenamedOps(m.change, x.ops, names) && RenamedOps(m.change, x.ops, names)[n].Some?
      ensures Fits(n.kind, RenamedOps(m.change, x.ops, names)[n].value) {
      RenamedOpTyped(m.change, x.ops, names, n);
    }
    hide RenamedOps, RenamedOrder, ConvertedOps;
    ConvertedTyped(m, Renamed(m.change, x).ops);
  }

  // Names other than single-axis rotations are not affected by the renaming.
  lemma RenamingKeepsOthers(change: Change, x: Xform, n: OpName)
    requires !IsAxis(n.kind) && n in x.ops
    ensures n in Renamed(change, x).ops && Renamed(change, x).ops[n] == x.ops[n]
  {
    hide RenamedOrder;
    forall k ensures IsAxis(NewName(change, k).kind) <==> IsAxis(k.kind) {
      NewNameInvolutive(change, k);
    }
    hide NewName;
  }

  // A single-axis rotation of the order has its new value under its new name.
  lemma AxisRenamed(change: Change, x: Xform, n: OpName)
    requires n in x.ops && IsAxis(n.kind)
    requires change.Keep? || (Forward(n) in x.order && NothingStale(change, x.ops, AxisOps(x)))
    ensures NewName(change, n) in Renamed(change, x).ops
    ensures change.Keep? ==> Renamed(change, x).ops == x.ops && NewName(change, n) == n
    ensures !change.Keep? ==> Renamed(change, x).ops[NewName(change, n)] == NewContent(change, n, x.ops[n])
  {
    hide RenamedOrder;
    NewNameInvolutive(change, n);
    if !change.Keep? {
      assert Forward(n).op in AxisOps(x);
      RenamedValue(change, x.ops, AxisOps(x), n);
      hide RenamedOps, NewName, NewValue;
    }
  }

  lemma OpConverts(m: Metrics, x: Xform, n: OpName)
    requires Sensible(m) && Convertible(m, x) && n in x.ops
    requires IsAxis(n.kind) && !m.change.Keep? ==> Forward(n) in x.order
    ensures Typed(PerOp(m, x).ops)
    ensures OpMap(PerOp(m, x).ops, NewName(m.change, n)) == Conjugate(m, OpMap(x.ops, n))
  {
    hide Conjugate, NewName, NewValue, Renamed, ConvertedValue, ValueMap, AxisOps, NothingStale;
    PerOpTyped(m, x);
    ConjugateIdentity(m);
    NewNameInvolutive(m.change, n);
    if !IsAxis(n.kind) {
      RenamingKeepsOthers(m.change, x, n);
      if x.ops[n].Some? {
        ValueConverts(m, n.kind, x.ops[n].value);
      }
    } else {
      AxisRenamed(m.change, x, n);
      if x.ops[n].Some? {
        AngleConverts(m, n, x.ops[n].value);
        NewValueFits(m.change, n, x.ops[n].value);
      }
    }
  }

  lemma TokenConverts(m: Metrics, x: Xform, i: nat)
    requires Sensible(m) && Convertible(m, x) && i < |x.order|
    ensures Typed(PerOp(m, x).ops)
    ensures TokenMap(PerOp(m, x).ops, TokenAfter(m.change, x.order[i])) == Conjugate(m, TokenMap(x.ops, x.order[i]))
  {
    hide Conjugate, NewName, PerOp, OpMap, AxisOps, NothingStale;
    PerOpTyped(m, x);
    ConjugateIdentity(m);
    var t := x.order[i];
    assert t in x.order;
    match t
    case Reset =>
    case Forward(n) => OpConverts(m, x, n);
    case Inverted(n) =>
      NewNameInvolutive(m.change, n);
      OpConverts(m, x, n);
      ConjugateInverse(m, OpMap(x.ops, n));
  }

  lemma {:induction false} StackConverts(m: Metrics, ops: Ops, order: seq<Token>, ops': Ops, order': seq<Token>)
    requires Sensible(m) && Typed(ops) && Typed(ops') && |order| == |order'|
    requires forall i :: 0 <= i < |order| ==> TokenMap(ops', order'[i]) == Conjugate(m, TokenMap(ops, order[i]))
    ensures StackMap(ops', order') == Conjugate(m, StackMap(ops, order))
    decreases |order|
  {
    hide Conjugate, TokenMap;
    ConjugateIdentity(m);
    if order != [] {
      StackConverts(m, ops, order[1..], ops', order'[1..]);
      ConjugateThen(m, StackMap(ops, order[1..]), TokenMap(ops, order[0]));
    }
  }

  /** Rewriting op by op, with the single-axis rotations renamed and negated, conjugates the local map. */
  lemma PerOpConverts(m: Metrics, x: Xform)
    requires Sensible(m) && Convertible(m, x)
    ensures Typed(PerOp(m, x).ops) && Local(PerOp(m, x)) == Conjugate(m, Local(x))
    ensures Resets(PerOp(m, x)) == Resets(x)
  {
    PerOpTyped(m, x);
    PerOpOrder(m, x);
    forall i | 0 <= i < |x.order|
      ensures TokenMap(PerOp(m, x).ops, OrderAfter(m.change, x.order)[i]) == Conjugate(m, TokenMap(x.ops, x.order[i])) {
      TokenConverts(m, x, i);
    }
    hide PerOp, Conjugate, TokenMap, NewName, AxisOps, NothingStale;
    StackConverts(m, x.ops, x.order, PerOp(m, x).ops, PerOp(m, x).order);
  }

  lemma TwoKeys(m: Ops, y: OpName, z: OpName, a: Option<Value>, b: Option<Value>)
    requires y != z && m.Keys == {y, z} && m[y] == a && m[z] == b
    ensures m == map[y := a, z := b]
  {
  }

  lemma SwappedKeys(ops: Ops, y: OpName, z: OpName)
    requires ops.Keys == {y, z} && NewName(YtoZ, y) == z && NewName(YtoZ, z) == y
    ensures RenamedOps(YtoZ, ops, {y, z}).Keys == {y, z}
  {
    hide NewName, NewContent;
    assert RenamedNames(YtoZ, {y, z}) == {y, z};
  }

  // Renaming a rotation without a value onto one with a value leaves the stale angle behind.
  lemma StaleRotationStays(y: OpName, z: OpName, ops: Ops)
    requires y == OpName(RotateY, "") && z == OpName(RotateZ, "")
    requires ops.Keys == {y, z} && ops[y] == None && ops[z] == Some(Angle(0.0, 1.0))
    ensures !NothingStale(YtoZ, ops, {y, z})
    ensures RenamedOps(YtoZ, ops, {y, z}) == map[y := Some(Angle(0.0, -1.0)), z := Some(Angle(0.0, 1.0))]
  {
    var names := {y, z};
    assert NewName(YtoZ, y) == z && NewName(YtoZ, z) == y;
    assert NewContent(YtoZ, z, ops[z]) == Some(Angle(0.0, -1.0));
    hide NewName, NewContent;
    assert !NothingStale(YtoZ, ops, names);
    hide NothingStale;
    RenamedValue(YtoZ, ops, names, y);
    RenamedValue(YtoZ, ops, names, z);
    SwappedKeys(ops, y, z);
    hide RenamedOps;
    TwoKeys(RenamedOps(YtoZ, ops, names), y, z, Some(Angle(0.0, -1.0)), Some(Angle(0.0, 1.0)));
  }

  // ---------- Added correction ops ----------

  function FreshOp(ops: Ops, kind: Kind, suffix: string): (n: OpName)
    ensures n !in ops && n.kind == kind
  {
    var taken := set n | n in ops && n.kind == kind :: n.suffix;
    var i := FirstFree(suffix, "", taken, 0);
    var name := Candidate(suffix, "", i);
    assert OpName(kind, name) in ops ==> name in taken;
    OpName(kind, name)
  }

  predicate Mentions(t: Token, n: OpName)
  {
    !t.Reset? && t.op == n
  }

  lemma {:induction false} StackFrame(ops: Ops, order: seq<Token>, n: OpName, v: Option<Value>)
    requires Typed(ops) && Typed(ops[n := v])
    requires forall t :: t in order ==> !Mentions(t, n)
    ensures StackMap(ops[n := v], order) == StackMap(ops, order)
    decreases |order|
  {
    hide Then, ValueMap, Fits;
    if order != [] {
      assert order[0] in order;
      assert forall t :: t in order[1..] ==> t in order;
      StackFrame(ops, order[1..], n, v);
    }
  }

  lemma {:induction false} StackAppend(ops: Ops, order: seq<Token>, t: Token)
    requires Typed(ops)
    ensures StackMap(ops, order + [t]) == Then(TokenMap(ops, t), StackMap(ops, order))
    decreases |order|
  {
    hide TokenMap, Then;
    if order == [] {
      assert (order + [t])[1..] == [];
      ThenIdentity(TokenMap(ops, t));
    } else {
      assert (order + [t])[1..] == order[1..] + [t];
      StackAppend(ops, order[1..], t);
      ThenAssociates(TokenMap(ops, t), StackMap(ops, order[1..]), TokenMap(ops, order[0]));
    }
  }

  // The up axis correction becomes the innermost op.
  function UpAxisCorrected(change: Change, x: Xform, name: OpName): Xform
  {
    var (c, s) := CorrectionAngle(change);
    Xform(x.ops[name := Some(Angle(c, s))], x.order + [Forward(name)])
  }

  ghost predicate NotInOrder(x: Xform, name: OpName)
  {
    forall t :: t in x.order ==> !Mentions(t, name)
  }

  lemma UpAxisCorrects(change: Change, x: Xform, name: OpName)
    requires Typed(x.ops) && name.kind.RotateX? && NotInOrder(x, name)
    ensures var x' := UpAxisCorrected(change, x, name);
            && Typed(x'.ops) && Local(x') == Then(LinearMap(Correction(change)), Local(x))
            && (x.order != [] ==> Resets(x') == Resets(x)) && (x.order == [] ==> !Resets(x'))
  {
    var (c, s) := CorrectionAngle(change);
    var x' := UpAxisCorrected(change, x, name);
    StackFrame(x.ops, x.order, name, Some(Angle(c, s)));
    StackAppend(x'.ops, x.order, Forward(name));
    hide Then, StackMap;
  }

  // ---------- Collapsed into one matrix ----------

  const TRANSFORM := OpName(Matrix, "")

  predicate HasOps(x: Xform)
  {
    exists i :: 0 <= i < |x.order| && !x.order[i].Reset?
  }

  predicate HasValue(x: Xform)
  {
    exists i :: 0 <= i < |x.order| && !x.order[i].Reset? && x.order[i].op in x.ops && x.ops[x.order[i].op].Some?
  }

  // The one matrix attribute that is left, and the order that names it alone.
  function Collapsed(m: Metrics, local: Option<Map>, requiresRotation: bool): Xform
  {
    var start := if local.None? && requiresRotation then Some(IDENTITY) else local;
    var value :=
      if start.None? then None
      else
        var a := ConvertedMap(m, start.value);
        Some(Whole(if requiresRotation then Then(LinearMap(Correction(m.change)), a) else a));
    Xform(map[TRANSFORM := value], [Forward(TRANSFORM)])
  }

  lemma NoValueToken(ops: Ops, t: Token)
    requires Typed(ops) && (!t.Reset? && t.op in ops ==> ops[t.op].None?)
    ensures TokenMap(ops, t) == IDENTITY
  {
    hide Inverse, ValueMap, Fits;
    IdentityInverse();
  }

  lemma {:induction false} NoValueNoMap(ops: Ops, order: seq<Token>)
    requires Typed(ops)
    requires forall t :: t in order ==> !t.Reset? && t.op in ops ==> ops[t.op].None?
    ensures StackMap(ops, order) == IDENTITY
    decreases |order|
  {
    ThenIdentity(IDENTITY);
    hide Then, TokenMap, Typed;
    if order != [] {
      assert order[0] in order && forall t :: t in order[1..] ==> t in order;
      NoValueToken(ops, order[0]);
      NoValueNoMap(ops, order[1..]);
    }
  }

  // The local map as it is handed to the transformer: absent when no op has a value.
  ghost function LocalValue(x: Xform): Option<Map>
    requires Typed(x.ops)
  {
    if HasValue(x) then Some(Local(x)) else None
  }

  lemma SingleOp(ops: Ops, t: Token)
    requires Typed(ops)
    ensures StackMap(ops, [t]) == TokenMap(ops, t)
  {
    assert [t][1..] == [];
    ThenIdentity(TokenMap(ops, t));
    hide Then, TokenMap;
  }

  lemma CollapsedConverts(m: Metrics, x: Xform, requiresRotation: bool)
    requires Sensible(m) && Typed(x.ops)
    ensures var x' := Collapsed(m, LocalValue(x), requiresRotation);
            && Typed(x'.ops) && !Resets(x')
            && Local(x') == if requiresRotation then Then(LinearMap(Correction(m.change)), Conjugate(m, Local(x)))
                            else Conjugate(m, Local(x))
  {
    hide Then, Conjugate, ConvertedMap, StackMap, HasValue, Correction, LinearMap;
    var x' := Collapsed(m, LocalValue(x), requiresRotation);
    SingleOp(x'.ops, Forward(TRANSFORM));
    MapConverted(m, Local(x));
    ConjugateIdentity(m);
    MapConverted(m, IDENTITY);
    if !HasValue(x) {
      ValuelessStack(x);
    }
  }

  lemma ValuelessStack(x: Xform)
    requires Typed(x.ops) && !HasValue(x)
    ensures Local(x) == IDENTITY
  {
    hide StackMap;
    forall t | t in x.order && !t.Reset? && t.op in x.ops ensures x.ops[t.op].None? {
      var i :| 0 <= i < |x.order| && x.order[i] == t;
    }
    NoValueNoMap(x.ops, x.order);
  }

  // ---------- Skeleton roots ----------

  // The corrections become the outermost ops, after a reset token.
  function SkeletonCorrected(m: Metrics, x: Xform, scaleName: OpName, rotateName: OpName): Xform
  {
    var head := if x.order != [] && x.order[0] == Reset then [Reset] else [];
    var scaled := if m.scale.Some? then [Forward(scaleName)] else [];
    var rotated := if m.change.Keep? then [] else [Forward(rotateName)];
    var k := Factor(m);
    var (c, s) := CorrectionAngle(m.change);
    var ops := if m.scale.Some? then x.ops[scaleName := Some(Factors(Vec(k, k, k)))] else x.ops;
    Xform(if m.change.Keep? then ops else ops[rotateName := Some(Angle(c, s))],
          head + scaled + rotated + x.order[|head|..])
  }

  lemma KeptConversion(m: Metrics)
    ensures m.change.Keep? ==> Conversion(m) == LinearMap(Uniform(Factor(m)))
    ensures m.scale.None? ==> Conversion(m) == LinearMap(Correction(m.change))
  {
    ThenIdentity(LinearMap(Uniform(Factor(m))));
    ThenIdentity(LinearMap(Correction(m.change)));
    hide Then;
  }

  // What the correction ops alone amount to.
  lemma CorrectionStack(m: Metrics, ops: Ops, scaleName: OpName, rotateName: OpName, rest: seq<Token>)
    requires Typed(ops)
    requires m.scale.Some? ==> OpMap(ops, scaleName) == LinearMap(Uniform(Factor(m)))
    requires !m.change.Keep? ==> OpMap(ops, rotateName) == LinearMap(Correction(m.change))
    ensures var scaled := if m.scale.Some? then [Forward(scaleName)] else [];
            var rotated := if m.change.Keep? then [] else [Forward(rotateName)];
            StackMap(ops, scaled + rotated + rest) == Then(StackMap(ops, rest), Conversion(m))
  {
    var k, r := LinearMap(Uniform(Factor(m))), LinearMap(Correction(m.change));
    KeptConversion(m);
    UniformSlides(Factor(m), Correction(m.change));
    var scaled := if m.scale.Some? then [Forward(scaleName)] else [];
    var rotated := if m.change.Keep? then [] else [Forward(rotateName)];
    assert m.scale.Some? ==> (scaled + rotated + rest)[1..] == rotated + rest;
    assert m.scale.None? ==> scaled + rotated + rest == rotated + rest;
    assert !m.change.Keep? ==> (rotated + rest)[1..] == rest;
    assert m.change.Keep? ==> rotated + rest == rest;
    ThenAssociates(StackMap(ops, rest), r, k);
    ThenIdentity(StackMap(ops, rest));
    UniformOne();
    hide Then, Uniform, Correction, OpMap;
    assert StackMap(ops, rotated + rest) == if m.change.Keep? then StackMap(ops, rest) else Then(StackMap(ops, rest), r);
    assert StackMap(ops, scaled + rotated + rest)
           == if m.scale.None? then StackMap(ops, rotated + rest) else Then(StackMap(ops, rotated + rest), k);
  }

  lemma UniformOne()
    ensures LinearMap(Uniform(1.0)) == IDENTITY && LinearMap(Correction(Keep)) == IDENTITY
  {
  }

  // The corrections are new attributes, so the old ops mean what they meant.
  lemma SkeletonOps(m: Metrics, x: Xform, scaleName: OpName, rotateName: OpName, rest: seq<Token>)
    requires WellFormed(x) && scaleName !in x.ops && rotateName !in x.ops
    requires scaleName.kind.Scale? && rotateName.kind.RotateX?
    requires forall t :: t in rest ==> t in x.order
    ensures var ops := SkeletonCorrected(m, x, scaleName, rotateName).ops;
            && Typed(ops)
            && StackMap(ops, rest) == StackMap(x.ops, rest)
            && (m.scale.Some? ==> OpMap(ops, scaleName) == LinearMap(Uniform(Factor(m))))
            && (!m.change.Keep? ==> OpMap(ops, rotateName) == LinearMap(Correction(m.change)))
  {
    hide StackMap;
    var k := Factor(m);
    var (c, s) := CorrectionAngle(m.change);
    var ops := if m.scale.Some? then x.ops[scaleName := Some(Factors(Vec(k, k, k)))] else x.ops;
    forall t | t in rest ensures !Mentions(t, scaleName) && !Mentions(t, rotateName) {
      var i :| 0 <= i < |x.order| && x.order[i] == t;
    }
    StackFrame(x.ops, rest, scaleName, Some(Factors(Vec(k, k, k))));
    StackFrame(ops, rest, rotateName, Some(Angle(c, s)));
  }

  lemma ResetFirst(ops: Ops, order: seq<Token>)
    requires Typed(ops)
    ensures StackMap(ops, [Reset] + order) == StackMap(ops, order)
  {
    assert ([Reset] + order)[1..] == order;
    ThenIdentity(StackMap(ops, order));
    hide Then;
  }

  lemma SkeletonOrder(m: Metrics, x: Xform, scaleName: OpName, rotateName: OpName)
    ensures var scaled := if m.scale.Some? then [Forward(scaleName)] else [];
            var rotated := if m.change.Keep? then [] else [Forward(rotateName)];
            var rest := x.order[if Resets(x) then 1 else 0..];
            && x.order == (if Resets(x) then [Reset] else []) + rest
            && SkeletonCorrected(m, x, scaleName, rotateName).order
               == (if Resets(x) then [Reset] else []) + (scaled + rotated + rest)
  {
  }

  lemma SkeletonCorrects(m: Metrics, x: Xform, scaleName: OpName, rotateName: OpName)
    requires WellFormed(x) && scaleName !in x.ops && rotateName !in x.ops
    requires scaleName.kind.Scale? && rotateName.kind.RotateX?
    ensures var x' := SkeletonCorrected(m, x, scaleName, rotateName);
            && Typed(x'.ops) && Local(x') == Then(Local(x), Conversion(m)) && Resets(x') == Resets(x)
  {
    var rest := x.order[if Resets(x) then 1 else 0..];
    SkeletonOps(m, x, scaleName, rotateName, rest);
    SkeletonOrder(m, x, scaleName, rotateName);
    hide Then, Conversion, Uniform, Correction, OpMap, StackMap, WellFormed, Typed, SkeletonCorrected;
    var x' := SkeletonCorrected(m, x, scaleName, rotateName);
    var scaled := if m.scale.Some? then [Forward(scaleName)] else [];
    var rotated := if m.change.Keep? then [] else [Forward(rotateName)];
    CorrectionStack(m, x'.ops, scaleName, rotateName, rest);
    if Resets(x) {
      ResetFirst(x'.ops, scaled + rotated + rest);
      ResetFirst(x.ops, rest);
    } else {
      assert [] + (scaled + rotated + rest) == scaled + rotated + rest;
      assert [] + rest == rest;
    }
  }
}
