/** Pivot pairs of a transform stack: ops that the order also applies inverted. */
module PivotOps {
  import opened Sequences
  import opened Affine
  import opened ChangeOfBasis
  import opened XformStack

  predicate Paired(order: seq<Token>, n: OpName)
  {
    Forward(n) in order && Inverted(n) in order
  }

  predicate IsPivotToken(order: seq<Token>, t: Token, includeInverse: bool)
  {
    !t.Reset? && Paired(order, t.op) && (includeInverse || t.Forward?)
  }

  function Kept(all: seq<Token>, order: seq<Token>, includeInverse: bool): seq<Token>
  {
    if order == [] then []
    else Kept(all, order[..|order| - 1], includeInverse)
         + if IsPivotToken(all, order[|order| - 1], includeInverse) then [order[|order| - 1]] else []
  }

  // The paired ops in their original order.
  function PivotTokens(order: seq<Token>, includeInverse: bool): seq<Token>
  {
    Kept(order, order, includeInverse)
  }

  method PivotXformOps(order: seq<Token>, includeInverse: bool) returns (pivots: seq<Token>)
    ensures pivots == PivotTokens(order, includeInverse)
  {
    var pairedNames: set<OpName> := {};
    for i := 0 to |order|
      invariant forall n :: n in pairedNames <==> Forward(n) in order[..i] && Inverted(n) in order
    {
      assert order[..i + 1] == order[..i] + [order[i]];
      if order[i].Forward? {
        for j := 0 to |order|
          invariant Inverted(order[i].op) !in order[..j]
          invariant forall n :: n in pairedNames <==> Forward(n) in order[..i] && Inverted(n) in order
        {
          if order[j] == Inverted(order[i].op) {
            pairedNames := pairedNames + {order[i].op};
            break;
          }
        }
        assert order[..|order|] == order;
      }
    }
    assert order[..|order|] == order;
    pivots := [];
    for i := 0 to |order|
      invariant pivots == Kept(order, order[..i], includeInverse)
    {
      assert order[..i + 1][..i] == order[..i];
      if !order[i].Reset? && order[i].op in pairedNames && (includeInverse || order[i].Forward?) {
        pivots := pivots + [order[i]];
      }
    }
    assert order[..|order|] == order;
  }

  // ---------- Splitting a prim into a transform and a child with the geometry ----------

  // The parent takes the whole stack, the child only the pivot pairs.
  function ParentXform(x: Xform): Xform { x }

  function ChildXform(x: Xform): Xform
  {
    var pivots := PivotTokens(x.order, true);
    Xform(map n | n in x.ops && Forward(n) in pivots :: x.ops[n], pivots)
  }

  // Pivots are translations, and no op is listed twice.
  ghost predicate TranslationPivots(x: Xform)
  {
    && WellFormed(x)
    && (forall n :: Paired(x.order, n) ==> n.kind.Translate?)
    && NoDuplicates(x.order)
  }

  ghost predicate OnlyTranslates(order: seq<Token>)
  {
    forall t :: t in order ==> !t.Reset? && t.op.kind.Translate?
  }

  function OffsetOf(ops: Ops, n: OpName): Vec
    requires Typed(ops) && n.kind.Translate?
  {
    if n in ops && ops[n].Some? then ops[n].value.v else ORIGIN
  }

  function TokenOffset(ops: Ops, t: Token): Vec
    requires Typed(ops) && !t.Reset? && t.op.kind.Translate?
  {
    if t.Forward? then OffsetOf(ops, t.op) else Minus(OffsetOf(ops, t.op))
  }

  function Shift(v: Vec): Map { Map(UNIT, v) }

  lemma ShiftThen(u: Vec, v: Vec)
    ensures Then(Shift(u), Shift(v)) == Shift(Plus(u, v))
  {
    UnitTurns(u);
    AxesTurned(UNIT);
    hide Turned;
  }

  lemma ShiftUndone(v: Vec)
    ensures Undoes(Shift(Minus(v)), Shift(v)) && Inverse(Shift(v)) == Shift(Minus(v))
  {
    ShiftThen(v, Minus(v));
    ShiftThen(Minus(v), v);
    hide Then;
    UndoneIsInverse(Shift(v), Shift(Minus(v)));
  }

  lemma OpIsShift(ops: Ops, n: OpName)
    requires Typed(ops) && n.kind.Translate?
    ensures OpMap(ops, n) == Shift(OffsetOf(ops, n))
  {
    hide AxisTurn, Diagonal;
  }

  lemma TokenIsShift(ops: Ops, t: Token)
    requires Typed(ops) && !t.Reset? && t.op.kind.Translate?
    ensures TokenMap(ops, t) == Shift(TokenOffset(ops, t))
  {
    hide Inverse, OpMap, OffsetOf, Shift, Minus;
    OpIsShift(ops, t.op);
    ShiftUndone(OffsetOf(ops, t.op));
  }

  function Total(ops: Ops, order: seq<Token>): Vec
    requires Typed(ops) && forall t :: t in order ==> !t.Reset? && t.op.kind.Translate?
  {
    if order == [] then ORIGIN else Plus(Total(ops, order[1..]), TokenOffset(ops, order[0]))
  }

  lemma {:induction false} StackIsShift(ops: Ops, order: seq<Token>)
    requires Typed(ops) && OnlyTranslates(order)
    ensures StackMap(ops, order) == Shift(Total(ops, order))
    decreases |order|
  {
    hide Then, TokenMap, TokenOffset, Typed;
    if order != [] {
      assert order[0] in order && forall t :: t in order[1..] ==> t in order;
      StackIsShift(ops, order[1..]);
      TokenIsShift(ops, order[0]);
      ShiftThen(Total(ops, order[1..]), TokenOffset(ops, order[0]));
    }
  }

  lemma OnlyTranslatesWithout(order: seq<Token>, k: nat)
    requires OnlyTranslates(order) && k < |order|
    ensures OnlyTranslates(order[..k] + order[k + 1..]) && OnlyTranslates(order[1..]) && order[k] in order
  {
    assert forall i :: 0 <= i < |order| ==> order[i] in order;
  }

  lemma {:induction false} TotalWithout(ops: Ops, order: seq<Token>, k: nat)
    requires Typed(ops) && OnlyTranslates(order) && k < |order|
    ensures OnlyTranslates(order[..k] + order[k + 1..]) && order[k] in order
    ensures Total(ops, order) == Plus(Total(ops, order[..k] + order[k + 1..]), TokenOffset(ops, order[k]))
    decreases |order|
  {
    hide TokenOffset, Typed;
    OnlyTranslatesWithout(order, k);
    var rest := order[..k] + order[k + 1..];
    if k > 0 {
      TotalWithout(ops, order[1..], k - 1);
      assert order[1..][k - 1] == order[k];
      assert rest[1..] == order[1..][..k - 1] + order[1..][k..];
      assert rest[0] == order[0];
    } else {
      assert rest == order[1..];
    }
  }

  // Every op that occurs occurs forward and inverted.
  ghost predicate AllPaired(order: seq<Token>)
  {
    forall n :: Forward(n) in order <==> Inverted(n) in order
  }

  lemma OppositeOffsets(ops: Ops, t: Token, u: Token)
    requires Typed(ops) && !t.Reset? && t.op.kind.Translate? && u == if t.Forward? then Inverted(t.op) else Forward(t.op)
    ensures var v := OffsetOf(ops, t.op);
            && TokenOffset(ops, t) == (if t.Forward? then v else Minus(v))
            && TokenOffset(ops, u) == (if t.Forward? then Minus(v) else v)
  {
    hide OffsetOf, Minus, Typed;
  }

  // The op and its inverse, wherever they stand.
  lemma PairTaken(ops: Ops, order: seq<Token>, k: nat)
    requires Typed(ops) && OnlyTranslates(order) && NoDuplicates(order) && 0 < k < |order|
    requires order[k] == if order[0].Forward? then Inverted(order[0].op) else Forward(order[0].op)
    ensures var rest := order[1..k] + order[k + 1..];
            && OnlyTranslates(rest) && NoDuplicates(rest) && Total(ops, rest) == Total(ops, order)
            && (forall t :: t in rest <==> t in order && t != order[0] && t != order[k])
  {
    hide Typed, OffsetOf, TokenOffset, Minus, Plus, Total, NoDuplicates;
    var once, rest := order[..k] + order[k + 1..], order[1..k] + order[k + 1..];
    TotalWithout(ops, order, k);
    RemovedOne(order, k);
    assert once[0] == order[0];
    assert once[..0] + once[1..] == rest;
    TotalWithout(ops, once, 0);
    RemovedOne(once, 0);
    var v := OffsetOf(ops, order[0].op);
    assert order[0] in order && order[k] in order;
    OppositeOffsets(ops, order[0], order[k]);
    Cancel(Total(ops, rest), v);
  }

  lemma {:induction false} PairsCancel(ops: Ops, order: seq<Token>)
    requires Typed(ops) && OnlyTranslates(order) && NoDuplicates(order) && AllPaired(order)
    ensures Total(ops, order) == ORIGIN
    decreases |order|
  {
    hide Typed;
    if order != [] {
      var t := order[0];
      var u := if t.Forward? then Inverted(t.op) else Forward(t.op);
      assert t in order;
      assert u in order;
      var k :| 0 <= k < |order| && order[k] == u;
      hide Total;
      PairTaken(ops, order, k);
      var rest := order[1..k] + order[k + 1..];
      hide NoDuplicates, OnlyTranslates;
      assert AllPaired(rest);
      PairsCancel(ops, rest);
    }
  }

  lemma Cancel(u: Vec, v: Vec)
    ensures Plus(Plus(u, v), Minus(v)) == u == Plus(Plus(u, Minus(v)), v)
  {
  }

  lemma {:induction false} KeptIs(all: seq<Token>, order: seq<Token>, t: Token)
    ensures t in Kept(all, order, true) <==> t in order && IsPivotToken(all, t, true)
    decreases |order|
  {
    hide IsPivotToken;
    if order != [] {
      var init := order[..|order| - 1];
      assert order == init + [order[|order| - 1]];
      KeptIs(all, init, t);
    }
  }

  lemma {:induction false} KeptDistinct(all: seq<Token>, order: seq<Token>)
    requires NoDuplicates(order)
    ensures NoDuplicates(Kept(all, order, true))
    decreases |order|
  {
    hide IsPivotToken;
    if order != [] {
      var init, last := order[..|order| - 1], order[|order| - 1];
      KeptDistinct(all, init);
      KeptIs(all, init, last);
      assert last !in init;
    }
  }

  lemma PivotsArePairs(x: Xform)
    requires TranslationPivots(x)
    ensures var pivots := PivotTokens(x.order, true);
            NoDuplicates(pivots) && AllPaired(pivots) && OnlyTranslates(pivots)
  {
    hide WellFormed;
    KeptDistinct(x.order, x.order);
    forall t {
      KeptIs(x.order, x.order, t);
    }
    hide NoDuplicates, Kept;
  }

  /** Splitting leaves the composed transform alone: the pivot ops on the child amount to nothing. */
  lemma SplitKeepsPlacement(x: Xform)
    requires TranslationPivots(x)
    ensures Typed(ChildXform(x).ops) && Local(ChildXform(x)) == IDENTITY
    ensures Then(Local(ChildXform(x)), Local(ParentXform(x))) == Local(x)
  {
    var y := ChildXform(x);
    PivotsArePairs(x);
    ThenIdentity(Local(x));
    assert Typed(y.ops);
    hide Then, PivotTokens, Typed, TranslationPivots;
    StackIsShift(y.ops, y.order);
    PairsCancel(y.ops, y.order);
  }

  // Without its inverse, a pivot would move the child.
  lemma OrphansAreDropped(order: seq<Token>, n: OpName)
    requires !Paired(order, n)
    ensures Forward(n) !in PivotTokens(order, true) && Inverted(n) !in PivotTokens(order, true)
  {
    KeptIs(order, order, Forward(n));
    KeptIs(order, order, Inverted(n));
  }
}
