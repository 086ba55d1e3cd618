/** A duplicate becomes a reference to a prototype whose points differ by a transform: that transform is inserted into
    the duplicate's op order, outside its pivots, and the pivots are moved into the prototype's space. */
module DeepTransform {
  import opened Wrappers
  import opened Affine
  import opened ChangeOfBasis
  import opened XformStack
  import opened XformConversion
  import opened PivotOps

  const COMPOSITION := OpName(Matrix, "DeduplicateGeometryReferenceTransform")

  // ---------- The new order ----------

  // Before the first forward pivot op, or at the end.
  function Inserted(order: seq<Token>, first: Option<Token>): seq<Token>
  {
    if first.None? || first.value !in order then order + [Forward(COMPOSITION)]
    else InsertedBefore(order, first.value)
  }

  function InsertedBefore(order: seq<Token>, t: Token): seq<Token>
    requires t in order
  {
    if order[0] == t then [Forward(COMPOSITION)] + order else [order[0]] + InsertedBefore(order[1..], t)
  }

  lemma {:induction false} InsertedSplits(pre: seq<Token>, t: Token, post: seq<Token>)
    requires t !in pre
    ensures InsertedBefore(pre + [t] + post, t) == pre + [Forward(COMPOSITION), t] + post
    decreases |pre|
  {
    var all := pre + [t] + post;
    assert all[|pre|] == t;
    if pre == [] {
      assert all == [t] + post;
    } else {
      assert all[1..] == pre[1..] + [t] + post;
      InsertedSplits(pre[1..], t, post);
    }
  }

  function FirstPivot(order: seq<Token>): Option<Token>
  {
    var pivots := PivotTokens(order, false);
    if pivots == [] then None else Some(pivots[0])
  }

  method InsertComposition(order: seq<Token>) returns (newOrder: seq<Token>)
    ensures newOrder == Inserted(order, FirstPivot(order))
  {
    var pivots := PivotXformOps(order, false);
    newOrder := [];
    var inserted := false;
    for i := 0 to |order|
      invariant inserted ==> pivots != [] && pivots[0] in order[..i] && newOrder == InsertedBefore(order[..i], pivots[0])
      invariant !inserted ==> newOrder == order[..i] && (pivots != [] ==> pivots[0] !in order[..i])
    {
      assert order[..i + 1] == order[..i] + [order[i]];
      if !inserted && pivots != [] && order[i] == pivots[0] {
        newOrder := newOrder + [Forward(COMPOSITION)];
        inserted := true;
        InsertedSplits(order[..i], pivots[0], []);
        assert order[..i] + [pivots[0]] + [] == order[..i + 1];
      } else if inserted {
        InsertedLonger(order[..i], pivots[0], [order[i]]);
      }
      newOrder := newOrder + [order[i]];
    }
    assert order[..|order|] == order;
    if !inserted {
      newOrder := newOrder + [Forward(COMPOSITION)];
    }
  }

  lemma {:induction false} InsertedLonger(order: seq<Token>, t: Token, more: seq<Token>)
    requires t in order
    ensures InsertedBefore(order + more, t) == InsertedBefore(order, t) + more
    decreases |order|
  {
    if order[0] != t {
      assert (order + more)[1..] == order[1..] + more;
      InsertedLonger(order[1..], t, more);
    } else {
      assert [Forward(COMPOSITION)] + (order + more) == [Forward(COMPOSITION)] + order + more;
    }
  }

  lemma {:induction false} InsertedBeforeSplits(order: seq<Token>, t: Token) returns (k: nat)
    requires t in order
    ensures k < |order| && order[k] == t && t !in order[..k]
    ensures InsertedBefore(order, t) == order[..k] + [Forward(COMPOSITION)] + order[k..]
    decreases |order|
  {
    if order[0] == t {
      k := 0;
    } else {
      k := InsertedBeforeSplits(order[1..], t);
      k := k + 1;
    }
  }

  lemma {:induction false} LeadingKept(all: seq<Token>, order: seq<Token>) returns (k: nat)
    ensures k <= |order| && forall i :: 0 <= i < k ==> !IsPivotToken(all, order[i], false)
    ensures Kept(all, order, false) == [] <==> k == |order|
    ensures k < |order| ==> IsPivotToken(all, order[k], false) && Kept(all, order, false)[0] == order[k]
    decreases |order|
  {
    hide IsPivotToken;
    if order == [] {
      k := 0;
    } else {
      k := LeadingKept(all, order[..|order| - 1]);
      if k == |order| - 1 && !IsPivotToken(all, order[k], false) {
        k := k + 1;
      }
    }
  }

  // An op that the order lists inverted as well.
  predicate OpensPivot(order: seq<Token>, k: nat)
    requires k < |order|
  {
    order[k].Forward? && Inverted(order[k].op) in order
  }

  /** The transform is inserted once: before the first forward op of a pivot, or at the end if there is no pivot. */
  lemma InsertedOnce(order: seq<Token>) returns (k: nat)
    ensures k <= |order| && (forall i :: 0 <= i < k ==> !OpensPivot(order, i)) && (k < |order| ==> OpensPivot(order, k))
    ensures Inserted(order, FirstPivot(order))
            == order[..k] + [Forward(OpName(Matrix, "DeduplicateGeometryReferenceTransform"))] + order[k..]
  {
    k := LeadingKept(order, order);
    forall i | 0 <= i < |order| ensures IsPivotToken(order, order[i], false) <==> OpensPivot(order, i) {
      assert order[i] in order;
    }
    hide IsPivotToken, Kept, OpensPivot;
    if k < |order| {
      var l := InsertedBeforeSplits(order, order[k]);
      forall i | 0 <= i < l ensures order[i] != order[k] {
        assert order[..l][i] == order[i];
      }
      assert order[l] == order[k];
    }
  }

  // ---------- The new prim ----------

  // The pivots' values in the prototype's space.
  ghost function RemappedOps(x: Xform, deep: Map): Ops
    requires Typed(x.ops)
  {
    map n | n in x.ops ::
      if Paired(x.order, n) && x.ops[n].Some? && x.ops[n].value.Offset?
      then Some(Offset(Moved(x.ops[n].value.v, Inverse(deep)))) else x.ops[n]
  }

  ghost function Composed(x: Xform, deep: Map): Xform
    requires Typed(x.ops)
  {
    Xform(RemappedOps(x, deep)[COMPOSITION := Some(Whole(deep))], Inserted(x.order, FirstPivot(x.order)))
  }

  // The prototype's points land where the duplicate's own points were.
  ghost predicate PlacementPreserved(x: Xform, deep: Map)
    requires Typed(x.ops) && Typed(Composed(x, deep).ops)
  {
    forall p :: Moved(p, Local(Composed(x, deep))) == Moved(Moved(p, deep), Local(x))
  }

  lemma ComposedTyped(x: Xform, deep: Map)
    requires Typed(x.ops)
    ensures Typed(Composed(x, deep).ops)
  {
    hide Moved, Inverse;
  }

  lemma PreservedIffMaps(x: Xform, deep: Map)
    requires Typed(x.ops) && Typed(Composed(x, deep).ops)
    ensures PlacementPreserved(x, deep) <==> Local(Composed(x, deep)) == Then(deep, Local(x))
  {
    hide Local, Composed, Then, Moved, Typed;
    forall p ensures Moved(p, Then(deep, Local(x))) == Moved(Moved(p, deep), Local(x)) {
      MovedThen(p, deep, Local(x));
    }
    if PlacementPreserved(x, deep) {
      SameMap(Local(Composed(x, deep)), Then(deep, Local(x)));
    }
  }

  lemma {:induction false} StackConcat(ops: Ops, a: seq<Token>, b: seq<Token>)
    requires Typed(ops)
    ensures StackMap(ops, a + b) == Then(StackMap(ops, b), StackMap(ops, a))
    decreases |a|
  {
    hide TokenMap, Then, Typed;
    if a == [] {
      assert a + b == b;
      ThenIdentity(StackMap(ops, b));
    } else {
      assert (a + b)[1..] == a[1..] + b;
      StackConcat(ops, a[1..], b);
      ThenAssociates(StackMap(ops, b), StackMap(ops, a[1..]), TokenMap(ops, a[0]));
    }
  }

  lemma {:induction false} SameOpsSameStack(ops: Ops, ops': Ops, order: seq<Token>)
    requires Typed(ops) && Typed(ops')
    requires forall t :: t in order && !t.Reset? ==> OpMap(ops, t.op) == OpMap(ops', t.op)
    ensures StackMap(ops, order) == StackMap(ops', order)
    decreases |order|
  {
    hide OpMap, Then, Typed, Inverse;
    if order != [] {
      assert order[0] in order && forall t :: t in order[1..] ==> t in order;
      SameOpsSameStack(ops, ops', order[1..]);
    }
  }

  // ---------- Without pivots ----------

  lemma {:induction false} NoPivotTokens(all: seq<Token>, order: seq<Token>)
    requires forall n :: !Paired(all, n)
    ensures Kept(all, order, false) == []
    decreases |order|
  {
    if order != [] {
      NoPivotTokens(all, order[..|order| - 1]);
    }
  }

  /** Without pivots the transform becomes the innermost op, and the placement is preserved. */
  lemma ComposedWithoutPivots(x: Xform, deep: Map)
    requires WellFormed(x) && COMPOSITION !in x.ops && forall n :: !Paired(x.order, n)
    ensures Typed(Composed(x, deep).ops) && PlacementPreserved(x, deep)
  {
    var x' := Composed(x, deep);
    ComposedTyped(x, deep);
    NoPivotTokens(x.order, x.order);
    assert x'.order == x.order + [Forward(COMPOSITION)];
    assert RemappedOps(x, deep) == x.ops;
    forall t | t in x.order && !t.Reset? ensures OpMap(x.ops, t.op) == OpMap(x'.ops, t.op) {
      var i :| 0 <= i < |x.order| && x.order[i] == t;
      assert t.op in x.ops;
    }
    assert TokenMap(x'.ops, Forward(COMPOSITION)) == deep;
    hide OpMap, Then, Moved, Typed, Inverse, TokenMap, Composed;
    SameOpsSameStack(x.ops, x'.ops, x.order);
    StackAppend(x'.ops, x.order, Forward(COMPOSITION));
    PreservedIffMaps(x, deep);
  }

  // ---------- One pivot pair ----------

  // Around a pivot: away, the ops inside, and back.
  function Around(v: Vec, inner: Map): Map
  {
    Then(Then(Shift(Minus(v)), inner), Shift(v))
  }

  lemma TurnedMinus(v: Vec, m: Mat)
    ensures Turned(Minus(v), m) == Minus(Turned(v, m))
  {
    TurnedPlus(v, Minus(v), m);
    AxesTurned(m);
    PlusMinus(v);
    PlusMinus(Turned(v, m));
    MinusUnique(Turned(v, m), Turned(Minus(v), m));
    hide Turned;
  }

  lemma PlusMinus(v: Vec)
    ensures Plus(v, Minus(v)) == ORIGIN
  {
  }

  lemma MinusUnique(u: Vec, w: Vec)
    requires Plus(u, w) == ORIGIN
    ensures w == Minus(u)
  {
  }

  lemma AroundIs(v: Vec, inner: Map)
    ensures Around(v, inner) == Map(inner.linear, Plus(Plus(Minus(Turned(v, inner.linear)), inner.translation), v))
  {
    UnitTurns(Minus(v));
    TurnedMinus(v, inner.linear);
    var a := Then(Shift(Minus(v)), inner);
    UnitTurns(a.translation);
    ProductUnit(inner.linear);
    hide Turned, Product, Plus, Minus;
    assert a == Map(inner.linear, Plus(Minus(Turned(v, inner.linear)), inner.translation));
  }

  lemma ProductUnit(m: Mat)
    ensures Product(UNIT, m) == m == Product(m, UNIT)
  {
    AxesTurned(m);
    UnitTurns(m.r0);
    UnitTurns(m.r1);
    UnitTurns(m.r2);
    hide Turned;
  }

  // The transform commutes with the turning inside the pair and does not turn its translation.
  predicate Slides(deep: Map, inner: Map)
  {
    && Product(deep.linear, inner.linear) == Product(inner.linear, deep.linear)
    && Turned(inner.translation, deep.linear) == inner.translation
  }

  lemma RemappedBack(deep: Map, v: Vec)
    requires Invertible(deep)
    ensures Plus(Turned(Moved(v, Inverse(deep)), deep.linear), deep.translation) == v
  {
    MovedThen(v, Inverse(deep), deep);
    MovedByIdentity(v);
    hide Then, Turned;
  }

  // The transform with its translation multiplied.
  function Part(deep: Map, s: real): Map { Map(deep.linear, Scaled(deep.translation, s)) }

  lemma Parts(deep: Map)
    ensures Part(deep, 1.0) == deep && Part(deep, 0.0) == LinearMap(deep.linear)
  {
    ScaledByUnits(deep.translation);
    hide Scaled;
  }

  lemma OneTimeLess(v: Vec, s: real)
    ensures Scaled(v, s) == Plus(Scaled(v, s - 1.0), v)
  {
    TimesLess(v.x, s);
    TimesLess(v.y, s);
    TimesLess(v.z, s);
    hide Times;
  }

  lemma TimesLess(x: real, s: real)
    ensures Times(x, s) == Times(x, s - 1.0) + x
  {
  }

  // That part of the transform comes out unchanged behind the ops, which it turns from a into b.
  predicate Passes(deep: Map, s: real, a: Map, b: Map)
  {
    Then(Part(deep, s), a) == Then(b, Part(deep, s))
  }

  // Sums of the translations on both sides.
  lemma SameSums(t: Vec, ta: Vec, st: Vec, sta: Vec, rt: Vec, rta: Vec, va: Vec, a: Vec, v: Vec, bl: Vec, wl: Vec, wbl: Vec)
    requires Plus(wl, t) == v                            // the moved pivot goes back to the pivot
    requires va == Plus(wbl, ta)                         // and so does its image
    requires st == Plus(rt, t) && sta == Plus(rta, ta)   // one translation less
    ensures Plus(sta, Plus(Plus(Minus(va), a), v)) == Plus(Plus(Plus(Minus(wbl), bl), wl), st) <==> Plus(rta, a) == Plus(bl, rt)
  {
  }

  /** Around a pivot a part of the transform passes with the remapped pivot, exactly when the part with one translation
      less passes the ops inside. */
  lemma AroundPassesIff(deep: Map, s: real, v: Vec, a: Map, b: Map)
    requires Invertible(deep)
    ensures Passes(deep, s, Around(v, a), Around(Moved(v, Inverse(deep)), b)) <==> Passes(deep, s - 1.0, a, b)
  {
    var w := Moved(v, Inverse(deep));
    var l, t := deep.linear, deep.translation;
    AroundIs(v, a);
    AroundIs(w, b);
    RemappedBack(deep, v);
    OneTimeLess(t, s);
    hide Around, Moved, Inverse, Invertible;
    var st, rt := Scaled(t, s), Scaled(t, s - 1.0);
    TurnedPlus(rt, t, a.linear);
    // right hand side
    var wb := Turned(w, b.linear);
    TurnedPlus(Plus(Minus(wb), b.translation), w, l);
    TurnedPlus(Minus(wb), b.translation, l);
    TurnedMinus(wb, l);
    TurnedProduct(w, b.linear, l);
    // left hand side
    TurnedPlus(Turned(w, l), t, a.linear);
    TurnedProduct(w, l, a.linear);
    hide Turned, Product, Plus, Minus, Scaled;
    if Product(l, a.linear) == Product(b.linear, l) {
      SameSums(t, Turned(t, a.linear), st, Turned(st, a.linear), rt, Turned(rt, a.linear), Turned(v, a.linear), a.translation,
               v, Turned(b.translation, l), Turned(w, l), Turned(wb, l));
    }
  }

  // Without its translation the transform passes ops that stay the same exactly when it slides past them.
  lemma LinearPassesIff(deep: Map, inner: Map)
    ensures Passes(deep, 0.0, inner, inner) <==> Slides(deep, inner)
  {
    Parts(deep);
    AxesTurned(inner.linear);
    PlusOrigin(inner.translation);
    PlusOrigin(Turned(inner.translation, deep.linear));
    hide Turned, Product, Plus, Scaled, Part;
  }

  /** Pulling the transform out through a pivot pair works with the remapped pivot, exactly when the transform slides
      past the ops inside. */
  lemma SlidesIff(deep: Map, v: Vec, inner: Map)
    requires Invertible(deep)
    ensures var w := Moved(v, Inverse(deep));
            Then(deep, Around(v, inner)) == Then(Around(w, inner), deep) <==> Slides(deep, inner)
  {
    Parts(deep);
    AroundPassesIff(deep, 1.0, v, inner, inner);
    LinearPassesIff(deep, inner);
    hide Slides, Then, Around, Moved, Inverse, Part;
  }

  // ---------- Stacks with pivot pairs ----------

  // Plain ops, or a pivot around other pieces.
  datatype Piece = Run(tokens: seq<Token>) | Nest(pivot: OpName, inner: seq<Piece>)

  function PieceTokens(p: Piece): seq<Token>
    decreases p, 0
  {
    match p
    case Run(tokens) => tokens
    case Nest(pivot, inner) => [Forward(pivot)] + PiecesTokens(inner) + [Inverted(pivot)]
  }

  function PiecesTokens(pieces: seq<Piece>): seq<Token>
    decreases pieces, 1
  {
    if pieces == [] then [] else PieceTokens(pieces[0]) + PiecesTokens(pieces[1..])
  }

  // Ops that are in no pair.
  ghost predicate Plain(x: Xform, order: seq<Token>)
  {
    forall t :: t in order && !t.Reset? ==> t.op in x.ops && !Paired(x.order, t.op)
  }

  // A translation pivot with a value.
  ghost predicate GoodPivot(x: Xform, n: OpName)
  {
    && n in x.ops && n.kind.Translate? && x.ops[n].Some? && x.ops[n].value.Offset?
    && Paired(x.order, n)
  }

  ghost predicate GoodPiece(x: Xform, p: Piece)
  {
    match p
    case Run(tokens) => Plain(x, tokens)
    case Nest(pivot, inner) => GoodPivot(x, pivot) && forall q :: q in inner ==> GoodPiece(x, q)
  }

  // Plain ops, then a pivot pair, then pairs and plain ops in any mix and nesting.
  ghost predicate PivotStack(x: Xform, pre: seq<Token>, pieces: seq<Piece>)
  {
    && WellFormed(x) && COMPOSITION !in x.ops && pieces != [] && pieces[0].Nest?
    && x.order == pre + PiecesTokens(pieces)
    && Plain(x, pre)
    && forall p :: p in pieces ==> GoodPiece(x, p)
  }

  lemma {:induction false} NoneKept(all: seq<Token>, order: seq<Token>)
    requires forall t :: t in order && !t.Reset? ==> !Paired(all, t.op)
    ensures Kept(all, order, false) == []
    decreases |order|
  {
    if order != [] {
      assert order[|order| - 1] in order;
      NoneKept(all, order[..|order| - 1]);
    }
  }

  lemma {:induction false} FirstKept(all: seq<Token>, pre: seq<Token>, n: OpName, post: seq<Token>)
    requires (forall t :: t in pre && !t.Reset? ==> !Paired(all, t.op)) && Paired(all, n)
    ensures Kept(all, pre + [Forward(n)] + post, false) != []
    ensures Kept(all, pre + [Forward(n)] + post, false)[0] == Forward(n)
    decreases |post|
  {
    var order := pre + [Forward(n)] + post;
    if post == [] {
      assert order[..|order| - 1] == pre;
      NoneKept(all, pre);
    } else {
      assert order[..|order| - 1] == pre + [Forward(n)] + post[..|post| - 1];
      FirstKept(all, pre, n, post[..|post| - 1]);
    }
  }

  lemma InsertedAt(order: seq<Token>, pre: seq<Token>, t: Token, post: seq<Token>)
    requires order == pre + [t] + post && t !in pre
    ensures Inserted(order, Some(t)) == pre + [Forward(COMPOSITION)] + ([t] + post)
  {
    assert order[|pre|] == t;
    InsertedSplits(pre, t, post);
    hide InsertedBefore;
    assert pre + [Forward(COMPOSITION), t] + post == pre + [Forward(COMPOSITION)] + ([t] + post);
  }

  lemma FirstPivotIs(order: seq<Token>, pre: seq<Token>, n: OpName, post: seq<Token>)
    requires order == pre + [Forward(n)] + post && Paired(order, n)
    requires forall t :: t in pre && !t.Reset? ==> !Paired(order, t.op)
    ensures FirstPivot(order) == Some(Forward(n)) && Forward(n) !in pre
  {
    hide Kept;
    FirstKept(order, pre, n, post);
  }

  // The transform goes before the first pair.
  lemma ComposedOrder(x: Xform, deep: Map, pre: seq<Token>, pieces: seq<Piece>)
    requires PivotStack(x, pre, pieces)
    ensures Inserted(x.order, FirstPivot(x.order)) == pre + [Forward(COMPOSITION)] + PiecesTokens(pieces)
  {
    hide PiecesTokens, WellFormed, Inserted, FirstPivot;
    PiecesFront(pieces);
    var n, rest := pieces[0].pivot, PiecesTokens(pieces)[1..];
    assert GoodPiece(x, pieces[0]);
    assert x.order == pre + [Forward(n)] + rest;
    hide GoodPiece;
    FirstPivotIs(x.order, pre, n, rest);
    hide Paired, Plain;
    InsertedAt(x.order, pre, Forward(n), rest);
  }

  lemma PiecesFront(pieces: seq<Piece>)
    requires pieces != [] && pieces[0].Nest?
    ensures PiecesTokens(pieces) != [] && PiecesTokens(pieces) == [Forward(pieces[0].pivot)] + PiecesTokens(pieces)[1..]
  {
  }

  lemma NestMap(ops: Ops, n: OpName, inner: seq<Token>, v: Vec)
    requires Typed(ops) && OpMap(ops, n) == Shift(v)
    ensures StackMap(ops, [Forward(n)] + inner + [Inverted(n)]) == Around(v, StackMap(ops, inner))
  {
    hide Then, OpMap, Shift, Minus, StackMap, Typed;
    ShiftUndone(v);
    StackConcat(ops, [Forward(n)] + inner, [Inverted(n)]);
    StackConcat(ops, [Forward(n)], inner);
    SingleOp(ops, Inverted(n));
    SingleOp(ops, Forward(n));
    ThenAssociates(Shift(Minus(v)), StackMap(ops, inner), Shift(v));
  }

  // Ops in no pair mean the same before and after.
  lemma PlainKept(x: Xform, deep: Map, order: seq<Token>)
    requires Typed(x.ops) && COMPOSITION !in x.ops && Plain(x, order)
    ensures Typed(Composed(x, deep).ops)
    ensures StackMap(Composed(x, deep).ops, order) == StackMap(x.ops, order)
  {
    ComposedTyped(x, deep);
    var ops' := Composed(x, deep).ops;
    forall t | t in order && !t.Reset? ensures OpMap(x.ops, t.op) == OpMap(ops', t.op) {
      assert t.op in ops' && ops'[t.op] == x.ops[t.op];
      hide ValueMap, Fits;
    }
    hide OpMap, Composed, Typed, Plain;
    SameOpsSameStack(x.ops, ops', order);
  }

  lemma PivotMoved(x: Xform, deep: Map, n: OpName)
    requires Typed(x.ops) && COMPOSITION !in x.ops && GoodPivot(x, n)
    ensures Typed(Composed(x, deep).ops)
    ensures OpMap(x.ops, n) == Shift(x.ops[n].value.v)
    ensures OpMap(Composed(x, deep).ops, n) == Shift(Moved(x.ops[n].value.v, Inverse(deep)))
  {
    ComposedTyped(x, deep);
    hide Moved, Inverse;
  }

  // Plain ops commute with the part of the transform; a pair asks that of the ops inside, with one translation less.
  ghost predicate PiecePasses(x: Xform, deep: Map, s: real, p: Piece)
    requires Typed(x.ops)
    decreases p
  {
    match p
    case Run(tokens) => Passes(deep, s, StackMap(x.ops, tokens), StackMap(x.ops, tokens))
    case Nest(_, inner) => forall q :: q in inner ==> PiecePasses(x, deep, s - 1.0, q)
  }

  // The same ops before and after.
  ghost predicate TokensPass(x: Xform, deep: Map, s: real, tokens: seq<Token>)
    requires Typed(x.ops) && Typed(Composed(x, deep).ops)
  {
    Passes(deep, s, StackMap(x.ops, tokens), StackMap(Composed(x, deep).ops, tokens))
  }

  lemma NestPassesIff(x: Xform, deep: Map, s: real, n: OpName, inner: seq<Token>)
    requires Typed(x.ops) && Typed(Composed(x, deep).ops) && COMPOSITION !in x.ops && GoodPivot(x, n) && Invertible(deep)
    ensures TokensPass(x, deep, s, [Forward(n)] + inner + [Inverted(n)]) <==> TokensPass(x, deep, s - 1.0, inner)
  {
    var v := x.ops[n].value.v;
    hide Passes, OpMap, Composed, Inverse, Moved, Around, StackMap, Typed, Invertible;
    PivotMoved(x, deep, n);
    NestMap(x.ops, n, inner, v);
    NestMap(Composed(x, deep).ops, n, inner, Moved(v, Inverse(deep)));
    AroundPassesIff(deep, s, v, StackMap(x.ops, inner), StackMap(Composed(x, deep).ops, inner));
  }

  // What passes first one and then the other passes both.
  lemma PassesBoth(deep: Map, s: real, head: Map, head': Map, tail: Map, tail': Map)
    requires Passes(deep, s, head, head') && Passes(deep, s, tail, tail')
    ensures Passes(deep, s, Then(tail, head), Then(tail', head'))
  {
    hide Then, Part;
    var d := Part(deep, s);
    ThenAssociates(d, tail, head);
    ThenAssociates(tail', d, head);
    ThenAssociates(tail', head', d);
  }

  lemma NothingPasses(x: Xform, deep: Map, s: real)
    requires Typed(x.ops) && Typed(Composed(x, deep).ops)
    ensures TokensPass(x, deep, s, [])
  {
    ThenIdentity(Part(deep, s));
    hide Then, Part, Composed;
  }

  lemma ConcatPasses(x: Xform, deep: Map, s: real, a: seq<Token>, b: seq<Token>)
    requires Typed(x.ops) && Typed(Composed(x, deep).ops)
    requires TokensPass(x, deep, s, a) && TokensPass(x, deep, s, b)
    ensures TokensPass(x, deep, s, a + b)
  {
    var ops' := Composed(x, deep).ops;
    hide Passes, Composed, StackMap, Then, Typed;
    StackConcat(x.ops, a, b);
    StackConcat(ops', a, b);
    PassesBoth(deep, s, StackMap(x.ops, a), StackMap(ops', a), StackMap(x.ops, b), StackMap(ops', b));
  }

  lemma {:induction false} PiecePass(x: Xform, deep: Map, s: real, p: Piece)
    requires Typed(x.ops) && Typed(Composed(x, deep).ops) && COMPOSITION !in x.ops && Invertible(deep)
    requires GoodPiece(x, p) && PiecePasses(x, deep, s, p)
    ensures TokensPass(x, deep, s, PieceTokens(p))
    decreases p, 0
  {
    hide Composed, Passes, StackMap, Typed, Invertible, GoodPivot;
    match p {
      case Run(tokens) => PlainKept(x, deep, tokens);
      case Nest(n, inner) =>
        PiecesPass(x, deep, s - 1.0, inner);
        hide PiecesTokens, TokensPass;
        NestPassesIff(x, deep, s, n, PiecesTokens(inner));
    }
  }

  lemma {:induction false} PiecesPass(x: Xform, deep: Map, s: real, pieces: seq<Piece>)
    requires Typed(x.ops) && Typed(Composed(x, deep).ops) && COMPOSITION !in x.ops && Invertible(deep)
    requires forall p :: p in pieces ==> GoodPiece(x, p) && PiecePasses(x, deep, s, p)
    ensures TokensPass(x, deep, s, PiecesTokens(pieces))
    decreases pieces, 1
  {
    hide Composed, Typed, Invertible, PiecePasses, GoodPiece, PieceTokens, TokensPass;
    if pieces == [] {
      NothingPasses(x, deep, s);
    } else {
      assert pieces[0] in pieces && forall p :: p in pieces[1..] ==> p in pieces;
      PiecePass(x, deep, s, pieces[0]);
      PiecesPass(x, deep, s, pieces[1..]);
      ConcatPasses(x, deep, s, PieceTokens(pieces[0]), PiecesTokens(pieces[1..]));
    }
  }

  // The local maps before and after, cut at the transform.
  lemma ComposedLocals(x: Xform, deep: Map, pre: seq<Token>, pieces: seq<Piece>)
    requires PivotStack(x, pre, pieces)
    ensures Typed(Composed(x, deep).ops)
    ensures Local(x) == Then(StackMap(x.ops, PiecesTokens(pieces)), StackMap(x.ops, pre))
    ensures Local(Composed(x, deep))
            == Then(Then(StackMap(Composed(x, deep).ops, PiecesTokens(pieces)), deep), StackMap(x.ops, pre))
  {
    var ops' := Composed(x, deep).ops;
    ComposedTyped(x, deep);
    ComposedOrder(x, deep, pre, pieces);
    assert TokenMap(ops', Forward(COMPOSITION)) == deep by { hide Moved, Inverse, Diagonal, AxisTurn; }
    assert Composed(x, deep).order == pre + [Forward(COMPOSITION)] + PiecesTokens(pieces);
    hide Composed, TokenMap, GoodPiece, Then, StackMap, Typed, WellFormed, Plain;
    var rest := PiecesTokens(pieces);
    hide PiecesTokens;
    PlainKept(x, deep, pre);
    StackConcat(x.ops, pre, rest);
    StackConcat(ops', pre + [Forward(COMPOSITION)], rest);
    StackConcat(ops', pre, [Forward(COMPOSITION)]);
    SingleOp(ops', Forward(COMPOSITION));
    ThenAssociates(StackMap(ops', rest), deep, StackMap(x.ops, pre));
  }

  lemma OuterKeeps(outer: Map, deep: Map, tail: Map, tail': Map)
    ensures Then(deep, tail) == Then(tail', deep) ==> Then(Then(tail', deep), outer) == Then(deep, Then(tail, outer))
    ensures Invertible(outer) ==>
              (Then(Then(tail', deep), outer) == Then(deep, Then(tail, outer)) <==> Then(deep, tail) == Then(tail', deep))
  {
    hide Then;
    ThenAssociates(deep, tail, outer);
    if Invertible(outer) {
      CancelByInverse(outer, Then(tail', deep), Then(deep, tail));
    }
  }

  lemma CancelByInverse(m: Map, a: Map, b: Map)
    requires Invertible(m)
    ensures Then(a, m) == Then(b, m) <==> a == b
  {
    var back := Inverse(m);
    CancelRight(m, back, a);
    CancelRight(m, back, b);
    hide Then;
  }

  // The placement is preserved when the transform passes what it was put before; only ops before it that cannot be
  // undone could hide that it does not.
  lemma ComposedThroughRest(x: Xform, deep: Map, pre: seq<Token>, pieces: seq<Piece>)
    requires PivotStack(x, pre, pieces)
    ensures Typed(Composed(x, deep).ops)
    ensures TokensPass(x, deep, 1.0, PiecesTokens(pieces)) ==> PlacementPreserved(x, deep)
    ensures Invertible(StackMap(x.ops, pre)) ==>
              (PlacementPreserved(x, deep) <==> TokensPass(x, deep, 1.0, PiecesTokens(pieces)))
  {
    assert Typed(x.ops);
    hide Composed, Then, StackMap, Local, PlacementPreserved, Invertible, GoodPiece, Plain, PiecesTokens, WellFormed;
    ComposedLocals(x, deep, pre, pieces);
    PreservedIffMaps(x, deep);
    Parts(deep);
    hide Part;
    OuterKeeps(StackMap(x.ops, pre), deep, StackMap(x.ops, PiecesTokens(pieces)),
               StackMap(Composed(x, deep).ops, PiecesTokens(pieces)));
  }

  /** One pivot pair closing the stack, around plain ops: the placement is preserved exactly when the transform slides past
      the ops inside the pair. */
  lemma ComposedAroundPivot(x: Xform, deep: Map, pre: seq<Token>, n: OpName, inner: seq<Token>)
    requires PivotStack(x, pre, [Nest(n, [Run(inner)])]) && Invertible(deep)
    ensures Typed(Composed(x, deep).ops)
    ensures Slides(deep, StackMap(x.ops, inner)) ==> PlacementPreserved(x, deep)
    ensures Invertible(StackMap(x.ops, pre)) ==> (PlacementPreserved(x, deep) <==> Slides(deep, StackMap(x.ops, inner)))
  {
    var nest := Nest(n, [Run(inner)]);
    ComposedTyped(x, deep);
    assert nest in [nest] && GoodPiece(x, nest);
    assert Run(inner) in nest.inner && GoodPiece(x, Run(inner));
    OneNest(n, inner);
    hide StackMap, Composed, PlacementPreserved, Invertible, Slides, Passes, PiecesTokens, Typed, GoodPiece, WellFormed, Plain;
    ComposedThroughRest(x, deep, pre, [nest]);
    NestPassesIff(x, deep, 1.0, n, inner);
    PlainKept(x, deep, inner);
    LinearPassesIff(deep, StackMap(x.ops, inner));
  }

  lemma OneNest(n: OpName, inner: seq<Token>)
    ensures PiecesTokens([Nest(n, [Run(inner)])]) == [Forward(n)] + inner + [Inverted(n)]
  {
    OnePiece(Run(inner));
    OnePiece(Nest(n, [Run(inner)]));
  }

  lemma OnePiece(p: Piece)
    ensures PiecesTokens([p]) == PieceTokens(p)
  {
    assert [p][1..] == [];
    assert PieceTokens(p) + [] == PieceTokens(p);
    hide PieceTokens;
  }

  /** Any mix of pivot pairs, nested or in a row, and plain ops after the first pair: the placement is preserved when the
      transform passes every piece, that is, commutes with the plain ops, and slides past those inside a pair. */
  lemma ComposedAroundPivots(x: Xform, deep: Map, pre: seq<Token>, pieces: seq<Piece>)
    requires PivotStack(x, pre, pieces) && Invertible(deep)
    requires forall p :: p in pieces ==> PiecePasses(x, deep, 1.0, p)
    ensures Typed(Composed(x, deep).ops) && PlacementPreserved(x, deep)
  {
    ComposedTyped(x, deep);
    hide StackMap, Composed, PlacementPreserved, Invertible, PiecePasses, PiecesTokens, GoodPiece, Plain, Typed;
    PiecesPass(x, deep, 1.0, pieces);
    ComposedThroughRest(x, deep, pre, pieces);
  }

  // A pair around plain ops asks that the transform slides past them.
  lemma PairPassesIff(x: Xform, deep: Map, n: OpName, inner: seq<Token>)
    requires Typed(x.ops)
    ensures PiecePasses(x, deep, 1.0, Nest(n, [Run(inner)])) <==> Slides(deep, StackMap(x.ops, inner))
  {
    hide StackMap, Slides, Passes, Typed;
    LinearPassesIff(deep, StackMap(x.ops, inner));
    var nest := Nest(n, [Run(inner)]);
    assert PiecePasses(x, deep, 0.0, Run(inner)) <==> Slides(deep, StackMap(x.ops, inner));
    assert Run(inner) in nest.inner && forall q :: q in nest.inner ==> q == Run(inner);
    var less := 1.0 - 1.0;
    assert less == 0.0;
    assert PiecePasses(x, deep, 1.0, nest) <==> forall q :: q in nest.inner ==> PiecePasses(x, deep, less, q);
  }

  // The two sides, once all but the last has been passed.
  lemma LastCancelsOut(deep: Map, most: Map, most': Map, last: Map)
    requires Invertible(most) && Then(deep, most) == Then(most', deep)
    ensures Then(deep, Then(last, most)) == Then(Then(last, most'), deep) <==> Then(deep, last) == Then(last, deep)
  {
    hide Then, Invertible;
    ThenAssociates(deep, last, most);
    ThenAssociates(last, most', deep);
    ThenAssociates(last, deep, most);
    CancelByInverse(most, Then(deep, last), Then(last, deep));
  }

  /** Ops after all pairs: when the transform passes everything before them, the placement is preserved exactly when it
      commutes with them. */
  lemma ComposedBeforePlainOps(x: Xform, deep: Map, pre: seq<Token>, pieces: seq<Piece>, post: seq<Token>)
    requires PivotStack(x, pre, pieces + [Run(post)]) && pieces != [] && Invertible(deep)
    requires forall p :: p in pieces ==> PiecePasses(x, deep, 1.0, p)
    requires Invertible(StackMap(x.ops, pre)) && Invertible(StackMap(x.ops, PiecesTokens(pieces)))
    ensures Typed(Composed(x, deep).ops)
    ensures PlacementPreserved(x, deep) <==> Then(deep, StackMap(x.ops, post)) == Then(StackMap(x.ops, post), deep)
  {
    ComposedTyped(x, deep);
    var all := pieces + [Run(post)];
    assert Run(post) == all[|pieces|];
    assert GoodPiece(x, Run(post));
    forall p | p in pieces ensures GoodPiece(x, p) {
      assert p in all;
    }
    hide StackMap, Then, Composed, PlacementPreserved, Invertible, PiecePasses, PiecesTokens, GoodPiece, Typed;
    ComposedThroughRest(x, deep, pre, all);
    PiecesPass(x, deep, 1.0, pieces);
    PlainKept(x, deep, post);
    PiecesConcat(pieces, [Run(post)]);
    OnePiece(Run(post));
    var ops' := Composed(x, deep).ops;
    StackConcat(x.ops, PiecesTokens(pieces), post);
    StackConcat(ops', PiecesTokens(pieces), post);
    Parts(deep);
    hide Part;
    LastCancelsOut(deep, StackMap(x.ops, PiecesTokens(pieces)), StackMap(ops', PiecesTokens(pieces)), StackMap(x.ops, post));
  }

  lemma {:induction false} PiecesConcat(a: seq<Piece>, b: seq<Piece>)
    ensures PiecesTokens(a + b) == PiecesTokens(a) + PiecesTokens(b)
  {
    hide PieceTokens;
    if a == [] {
      assert a + b == b;
    } else {
      assert (a + b)[1..] == a[1..] + b;
      PiecesConcat(a[1..], b);
    }
  }

  lemma FirstRows(a: Mat, b: Mat)
    requires a.r0 == X_AXIS && b.r0 == Vec(0.0, 0.0, -1.0)
    ensures Product(a, b).r0 == b.r0 && Product(b, a).r0 == Minus(a.r2)
  {
    AxesTurned(b);
    SignedAxesTurned(a);
    hide Turned;
  }

  // Two quarter turns about different axes do not slide past each other.
  lemma QuarterTurnsClash(a: Mat, b: Mat)
    requires a == AxisTurn(X, 0.0, 1.0) && b == AxisTurn(Y, 0.0, 1.0)
    ensures !Slides(LinearMap(a), LinearMap(b))
  {
    assert a.r0 == X_AXIS && a.r2.y == -1.0;
    assert b.r0 == Vec(0.0, 0.0, -1.0);
    hide AxisTurn, Product, Turned;
    FirstRows(a, b);
    assert Minus(a.r2).y == 1.0;
  }

  const PIVOT := OpName(Translate, "pivot")

  const SPIN := OpName(RotateY, "")

  // A quarter turn about Y around a pivot.
  function Spinning(): Xform
  {
    Xform(map[PIVOT := Some(Offset(X_AXIS)), SPIN := Some(Angle(0.0, 1.0))], [Forward(PIVOT), Forward(SPIN), Inverted(PIVOT)])
  }

  lemma SpinningOps()
    ensures var x := Spinning(); Typed(x.ops) && WellFormed(x)
    ensures StackMap(Spinning().ops, [Forward(SPIN)]) == LinearMap(AxisTurn(Y, 0.0, 1.0))
  {
    hide AxisTurn, Then;
    var x := Spinning();
    assert Typed(x.ops);
    assert TokenMap(x.ops, Forward(SPIN)) == LinearMap(AxisTurn(Y, 0.0, 1.0));
    hide TokenMap, Typed;
    SingleOp(x.ops, Forward(SPIN));
    hide StackMap;
  }

  lemma SpinningPair()
    ensures Spinning().order == [Forward(PIVOT), Forward(SPIN), Inverted(PIVOT)]
    ensures GoodPivot(Spinning(), PIVOT) && Plain(Spinning(), [Forward(SPIN)])
  {
    var x := Spinning();
    assert x.order[0] == Forward(PIVOT) && x.order[2] == Inverted(PIVOT);
    assert Paired(x.order, PIVOT) && !Paired(x.order, SPIN);
    hide Paired;
  }

  lemma SpinningStack()
    ensures PivotStack(Spinning(), [], [Nest(PIVOT, [Run([Forward(SPIN)])])])
  {
    hide Typed, WellFormed, StackMap, GoodPivot, PiecesTokens, Plain;
    var x, p := Spinning(), Nest(PIVOT, [Run([Forward(SPIN)])]);
    SpinningOps();
    SpinningPair();
    OneNest(PIVOT, [Forward(SPIN)]);
    assert x.order == [Forward(PIVOT)] + [Forward(SPIN)] + [Inverted(PIVOT)];
    assert [] + x.order == x.order;
    assert GoodPiece(x, Run([Forward(SPIN)])) && GoodPiece(x, p);
    NothingIsPlain(x);
  }

  lemma NothingIsPlain(x: Xform)
    ensures Plain(x, [])
  {
  }

  lemma QuarterTurnInvertible()
    ensures Correction(YtoZ) == AxisTurn(X, 0.0, 1.0) && Invertible(LinearMap(Correction(YtoZ)))
  {
    hide Then, Basis, BasisInverse;
    BasisUndone(YtoZ);
    assert Undoes(LinearMap(Basis(YtoZ)), LinearMap(BasisInverse(YtoZ)));
  }

  // A quarter turn about X between the prototype and such a duplicate: the duplicate's points move.
  lemma PlacementCanChange()
    ensures var x, deep := Spinning(), LinearMap(Correction(YtoZ));
            Typed(x.ops) && Typed(Composed(x, deep).ops) && !PlacementPreserved(x, deep)
  {
    hide StackMap, Composed, PlacementPreserved, Slides, AxisTurn, Invertible, Spinning, LinearMap, Correction, PivotStack, Typed;
    var x, deep := Spinning(), LinearMap(Correction(YtoZ));
    SpinningStack();
    SpinningOps();
    QuarterTurnInvertible();
    QuarterTurnsClash(AxisTurn(X, 0.0, 1.0), AxisTurn(Y, 0.0, 1.0));
    NothingInvertible(x.ops);
    ComposedAroundPivot(x, deep, [], PIVOT, [Forward(SPIN)]);
  }

  lemma NothingInvertible(ops: Ops)
    requires Typed(ops)
    ensures Invertible(StackMap(ops, []))
  {
    hide Then, Typed;
    ThenIdentity(IDENTITY);
    assert Undoes(IDENTITY, StackMap(ops, []));
  }
}
