/** Splitting prims with their transform stacks: what is read back from the transform and from the child. */
module SplitPlacement {
  import opened Sequences
  import opened Affine
  import opened XformStack
  import opened PivotOps
  import opened PrimSplitting

  // ---------- Reading a transform stack from properties ----------

  function OpsIn(order: seq<Token>): set<OpName>
  {
    set t | t in order && !t.Reset? :: t.op
  }

  function OrderOf(properties: Properties): seq<Token>
  {
    if "xformOpOrder" in properties && properties["xformOpOrder"].OpOrder? then properties["xformOpOrder"].tokens else []
  }

  // The ops in the order, each with the value of the attribute of its name.
  function XformOf(properties: Properties, nameOf: OpName -> Name): Xform
  {
    var order := OrderOf(properties);
    Xform(map n | n in OpsIn(order) && nameOf(n) in properties && properties[nameOf(n)].OpValue? :: properties[nameOf(n)].value,
          order)
  }

  ghost predicate NamesOps(nameOf: OpName -> Name)
  {
    forall n :: "xformOp:" <= nameOf(n)
  }

  // ---------- Filling the records ----------

  // The attributes of the pivot pairs, and the order that lists these.
  function PivotProperties(properties: Properties, nameOf: OpName -> Name): Properties
  {
    var pivots := PivotTokens(OrderOf(properties), true);
    if pivots == [] then map[]
    else
      (map k | k in properties && k in (set n | n in OpsIn(pivots) :: nameOf(n)) :: properties[k])
      ["xformOpOrder" := OpOrder(pivots)]
  }

  function Records(prims: seq<(Path, Properties)>, nameOf: OpName -> Name): (r: seq<Job>)
    ensures |r| == |prims|
    ensures forall i :: 0 <= i < |r| ==> r[i] == Job(prims[i].0, prims[i].1, PivotProperties(prims[i].1, nameOf))
  {
    seq(|prims|, i requires 0 <= i < |prims| => Job(prims[i].0, prims[i].1, PivotProperties(prims[i].1, nameOf)))
  }

  // The read phase.
  method FillRecords(prims: seq<(Path, Properties)>, nameOf: OpName -> Name) returns (jobs: seq<Job>)
    ensures jobs == Records(prims, nameOf)
  {
    jobs := [];
    for i := 0 to |prims|
      invariant |jobs| == i
      invariant forall k :: 0 <= k < i ==> jobs[k] == Job(prims[k].0, prims[k].1, PivotProperties(prims[k].1, nameOf))
    {
      var properties := prims[i].1;
      var pivots := PivotXformOps(OrderOf(properties), true);
      var copies: Properties := map[];
      if pivots != [] {
        copies := (map k | k in properties && k in (set n | n in OpsIn(pivots) :: nameOf(n)) :: properties[k])
          ["xformOpOrder" := OpOrder(pivots)];
      }
      jobs := jobs + [Job(prims[i].0, properties, copies)];
    }
  }

  // ---------- What the layer says afterwards ----------

  // Material binding and transform stay on the transform, everything else goes to the child.
  ghost predicate SidesRight(properties: Properties, parent: Properties, child: Properties)
  {
    && (forall n :: n in parent <==>
          n in properties && (n == "material:binding" || n == "xformOpOrder" || "xformOp:" <= n))
    && (forall n :: n in parent ==> parent[n] == properties[n])
    && (forall n :: n != "xformOpOrder" && !("xformOp:" <= n) ==>
          (n in child <==> n in properties && n != "material:binding") && (n in child ==> child[n] == properties[n]))
  }

  // Whether the pivots are just those ops that the order lists forward and inverted, in their order.
  ghost predicate PairsOf(order: seq<Token>, pivots: seq<Token>)
  {
    && NoDuplicates(pivots)
    && (forall t :: t in pivots <==> t in order && !t.Reset? && Forward(t.op) in order && Inverted(t.op) in order)
    && (forall a, b :: 0 <= a < b < |pivots| ==>
          exists i, j :: 0 <= i < j < |order| && order[i] == pivots[a] && order[j] == pivots[b])
  }

  ghost predicate StacksRight(x: Xform, parent: Xform, child: Xform)
  {
    && parent == x
    && (NoDuplicates(x.order) ==> PairsOf(x.order, child.order))
    && (forall n :: n in child.ops <==> n in x.ops && Forward(n) in child.order)
    && (forall n :: n in child.ops ==> child.ops[n] == x.ops[n])
    && (TranslationPivots(x) ==>
          Typed(child.ops) && Local(child) == IDENTITY && Then(Local(child), Local(parent)) == Local(x))
  }

  lemma {:induction false} KeptInOrder(all: seq<Token>, order: seq<Token>, a: nat, b: nat)
    requires a < b < |Kept(all, order, true)|
    ensures exists i, j :: 0 <= i < j < |order| && order[i] == Kept(all, order, true)[a] && order[j] == Kept(all, order, true)[b]
    decreases |order|
  {
    var init, last := order[..|order| - 1], order[|order| - 1];
    var before := Kept(all, init, true);
    hide IsPivotToken;
    if b < |before| {
      KeptInOrder(all, init, a, b);
      var i, j :| 0 <= i < j < |init| && init[i] == before[a] && init[j] == before[b];
      assert order[i] == init[i] && order[j] == init[j];
    } else {
      KeptIs(all, init, before[a]);
      var i :| 0 <= i < |init| && init[i] == before[a];
      assert order[i] == init[i];
    }
  }

  lemma PivotsAreThePairs(order: seq<Token>)
    requires NoDuplicates(order)
    ensures PairsOf(order, PivotTokens(order, true))
  {
    KeptDistinct(order, order);
    var pivots := PivotTokens(order, true);
    forall t ensures t in pivots <==> t in order && !t.Reset? && Forward(t.op) in order && Inverted(t.op) in order {
      KeptIs(order, order, t);
    }
    forall a, b | 0 <= a < b < |pivots|
      ensures exists i, j :: 0 <= i < j < |order| && order[i] == pivots[a] && order[j] == pivots[b] {
      KeptInOrder(order, order, a, b);
    }
  }

  lemma OrderIsNoOp(nameOf: OpName -> Name, n: OpName)
    requires NamesOps(nameOf)
    ensures "xformOp:" <= nameOf(n) && nameOf(n) != "xformOpOrder"
  {
    assert nameOf(n)[7] == ':' && "xformOpOrder"[7] == 'O';
  }

  lemma PivotOpsAre(order: seq<Token>, n: OpName)
    ensures n in OpsIn(PivotTokens(order, true)) <==> Forward(n) in PivotTokens(order, true)
    ensures n in OpsIn(PivotTokens(order, true)) ==> n in OpsIn(order)
  {
    var pivots := PivotTokens(order, true);
    if n in OpsIn(pivots) {
      var t :| t in pivots && !t.Reset? && t.op == n;
      KeptIs(order, order, t);
      KeptIs(order, order, Forward(n));
    }
    if Forward(n) in pivots {
      assert n == Forward(n).op;
    }
  }

  lemma ParentReads(properties: Properties, nameOf: OpName -> Name)
    requires NamesOps(nameOf)
    ensures XformOf(ParentPart(properties), nameOf) == XformOf(properties, nameOf)
  {
    var parent := ParentPart(properties);
    assert OrderOf(parent) == OrderOf(properties);
    var a, b := XformOf(parent, nameOf).ops, XformOf(properties, nameOf).ops;
    forall n ensures n in a <==> n in b {
      OrderIsNoOp(nameOf, n);
    }
    assert a == b;
  }

  lemma ChildReads(properties: Properties, nameOf: OpName -> Name)
    requires NamesOps(nameOf)
    ensures var child := ChildPart(properties, PivotProperties(properties, nameOf));
            XformOf(child, nameOf) == ChildXform(XformOf(properties, nameOf))
  {
    var pivots, x := PivotTokens(OrderOf(properties), true), XformOf(properties, nameOf);
    var child := ChildPart(properties, PivotProperties(properties, nameOf));
    hide PivotTokens;
    assert OrderOf(child) == pivots;
    var a, b := XformOf(child, nameOf).ops, ChildXform(x).ops;
    forall n ensures (n in a <==> n in b) && (n in a ==> a[n] == b[n]) {
      OrderIsNoOp(nameOf, n);
      PivotOpsAre(x.order, n);
    }
    assert a == b;
  }

  lemma PivotsInheritable(properties: Properties, nameOf: OpName -> Name)
    requires NamesOps(nameOf)
    ensures forall k :: k in PivotProperties(properties, nameOf) ==> k == "xformOpOrder" || "xformOp:" <= k
  {
    hide PivotTokens;
  }

  lemma SplitSides(properties: Properties, nameOf: OpName -> Name)
    requires NamesOps(nameOf)
    ensures SidesRight(properties, ParentPart(properties), ChildPart(properties, PivotProperties(properties, nameOf)))
  {
    PivotsInheritable(properties, nameOf);
    hide PivotProperties;
  }

  lemma StacksAre(x: Xform)
    ensures StacksRight(x, x, ChildXform(x))
  {
    if NoDuplicates(x.order) {
      PivotsAreThePairs(x.order);
    }
    forall n | Forward(n) in PivotTokens(x.order, true) ensures n in ChildXform(x).ops <==> n in x.ops {
    }
    hide PairsOf, PivotTokens, NoDuplicates;
    if TranslationPivots(x) {
      SplitKeepsPlacement(x);
    }
    hide TranslationPivots, Local, Then, Typed;
  }

  lemma SplitStacks(properties: Properties, nameOf: OpName -> Name)
    requires NamesOps(nameOf)
    ensures StacksRight(XformOf(properties, nameOf), XformOf(ParentPart(properties), nameOf),
                        XformOf(ChildPart(properties, PivotProperties(properties, nameOf)), nameOf))
  {
    hide *;
    ParentReads(properties, nameOf);
    ChildReads(properties, nameOf);
    StacksAre(XformOf(properties, nameOf));
  }

  lemma SplitAsRead(layer: Layer, prims: seq<(Path, Properties)>, nameOf: OpName -> Name, i: nat)
    requires NamesOps(nameOf) && GoodJobs(layer, Records(prims, nameOf)) && i < |prims|
    ensures var r := SplitLayer(Cleared(layer, Records(prims, nameOf)), Records(prims, nameOf));
            var (path, properties) := prims[i];
            && (forall k :: path <= k ==> (k in r <==> k == path || k == path + ["Geometry"]))
            && path in r && path + ["Geometry"] in r
            && SidesRight(properties, r[path], r[path + ["Geometry"]])
            && StacksRight(XformOf(properties, nameOf), XformOf(r[path], nameOf), XformOf(r[path + ["Geometry"]], nameOf))
  {
    var jobs := Records(prims, nameOf);
    var base := Cleared(layer, jobs);
    ClearedIsGood(layer, jobs);
    hide Cleared;
    SplitLayerIs(base, jobs, |jobs|);
    assert jobs[..|jobs|] == jobs;
    assert SplitStands(SplitLayer(base, jobs), jobs[i], jobs[i].path);
    hide SplitLayer, GoodJobs, Bare;
    SplitSides(prims[i].1, nameOf);
    SplitStacks(prims[i].1, nameOf);
    hide SidesRight, StacksRight, XformOf, ParentPart, ChildPart, PivotProperties;
  }

  lemma RestAsBefore(layer: Layer, jobs: seq<Job>, k: Path)
    requires GoodJobs(layer, jobs) && forall i :: 0 <= i < |jobs| ==> !(jobs[i].path <= k)
    ensures SameAt(layer, SplitLayer(Cleared(layer, jobs), jobs), k)
  {
    hide Cleared, GoodJobs, SplitStands, Removed, Removals, SplitLayer, SameAt, Bare;
    var base := Cleared(layer, jobs);
    ClearedIsGood(layer, jobs);
    RemovalLeaves(layer, jobs, k);
    SplitLayerIs(base, jobs, |jobs|);
    assert jobs[..|jobs|] == jobs;
    assert SameAt(base, SplitLayer(base, jobs), k);
    SameChain(layer, base, SplitLayer(base, jobs), k);
  }

  /** The whole operation. For every prim there is a transform, from which its own stack is read, and a child, from which
      exactly the pivot pairs are; where pivots are translations the child is placed as the prim was. The material binding
      is on the transform, everything else on the child with its values, and the rest of the layer is as it was. */
  method SplitPrims(layer: Layer, prims: seq<(Path, Properties)>, nameOf: OpName -> Name) returns (r: Layer)
    requires NamesOps(nameOf) && GoodJobs(layer, Records(prims, nameOf))
    ensures forall i :: 0 <= i < |prims| ==>
              var (path, properties) := prims[i];
              && (forall k :: path <= k ==> (k in r <==> k == path || k == path + ["Geometry"]))
              && path in r && path + ["Geometry"] in r
              && SidesRight(properties, r[path], r[path + ["Geometry"]])
              && StacksRight(XformOf(properties, nameOf), XformOf(r[path], nameOf), XformOf(r[path + ["Geometry"]], nameOf))
    ensures forall k :: (forall i :: 0 <= i < |prims| ==> !(prims[i].0 <= k)) ==>
              (k in r <==> k in layer) && (k in r ==> r[k] == layer[k])
  {
    hide GoodJobs, SidesRight, StacksRight, XformOf, PivotProperties, SplitLayer, Cleared;
    var jobs := FillRecords(prims, nameOf);
    var applied;
    r, applied := SplitBatch(layer, jobs);
    forall i | 0 <= i < |prims|
      ensures var (path, properties) := prims[i];
              && (forall k :: path <= k ==> (k in r <==> k == path || k == path + ["Geometry"]))
              && path in r && path + ["Geometry"] in r
              && SidesRight(properties, r[path], r[path + ["Geometry"]])
              && StacksRight(XformOf(properties, nameOf), XformOf(r[path], nameOf), XformOf(r[path + ["Geometry"]], nameOf)) {
      SplitAsRead(layer, prims, nameOf, i);
    }
    forall k | forall i :: 0 <= i < |prims| ==> !(prims[i].0 <= k)
      ensures (k in r <==> k in layer) && (k in r ==> r[k] == layer[k]) {
      RestAsBefore(layer, jobs, k);
    }
  }
}
