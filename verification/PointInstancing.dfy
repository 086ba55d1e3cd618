/** Sets of duplicate meshes replaced by point instances of one of them. */
module PointInstancing {
  import opened Wrappers
  import opened Affine
  import opened ChangeOfBasis
  import opened XformStack
  import opened PivotOps

  datatype Mesh = Mesh(points: seq<Vec>, toWorld: Map)

  datatype Placement = Placement(position: Vec, orientation: Mat, scale: Vec)

  // How an instance is placed in the instancer's space: scaled, then turned, then moved.
  function PlacementMap(p: Placement): Map
  {
    Then(Then(LinearMap(Diagonal(p.scale)), LinearMap(p.orientation)), Shift(p.position))
  }

  // What is computed natively: the transform between equal meshes, and the decomposition of a placement, which fails
  // when it would need shear.
  datatype Native = Native(deep: (Mesh, Mesh) -> Map, decompose: Map -> Option<Placement>)

  ghost predicate Exact(native: Native)
  {
    forall a :: native.decompose(a).Some? ==> PlacementMap(native.decompose(a).value) == a
  }

  // The meshes of a set are equal up to the deep transforms.
  ghost predicate Equal(native: Native, meshes: seq<Mesh>)
  {
    forall i, j :: 0 <= i < |meshes| && 0 <= j < |meshes| ==>
      MovedPoints(meshes[i].points, native.deep(meshes[i], meshes[j])) == meshes[j].points
  }

  // An instancer has identity transform in its parent.
  datatype Parent = Parent(toWorld: Map, fromWorld: Map)

  ghost predicate GoodParent(p: Parent)
  {
    Undoes(p.fromWorld, p.toWorld)
  }

  datatype Instancer = Instancer(
    prototype: seq<Vec>,
    positions: seq<Vec>,
    orientations: seq<Mat>,
    scales: seq<Vec>,
    protoIndices: seq<nat>)

  // The placement of mesh i as an instance of the mesh at source.
  function InstanceMap(native: Native, meshes: seq<Mesh>, parent: Parent, source: nat, i: nat): Map
    requires source < |meshes| && i < |meshes|
  {
    if i == source then Then(meshes[i].toWorld, parent.fromWorld)
    else Then(Then(native.deep(meshes[source], meshes[i]), meshes[i].toWorld), parent.fromWorld)
  }

  predicate Representable(native: Native, meshes: seq<Mesh>, parent: Parent, source: nat, i: nat)
    requires source < |meshes| && i < |meshes|
  {
    native.decompose(InstanceMap(native, meshes, parent, source, i)).Some?
  }

  // The first mesh whose own placement can be represented, if any.
  function Source(native: Native, meshes: seq<Mesh>, parent: Parent, i: nat): (r: nat)
    requires i <= |meshes|
    ensures i <= r <= |meshes|
    ensures r < |meshes| ==> Representable(native, meshes, parent, r, r)
    ensures forall j :: i <= j < r ==> !Representable(native, meshes, parent, j, j)
    decreases |meshes| - i
  {
    if i == |meshes| || Representable(native, meshes, parent, i, i) then i
    else Source(native, meshes, parent, i + 1)
  }

  // The meshes among the first n that become instances.
  function Instanced(native: Native, meshes: seq<Mesh>, parent: Parent, source: nat, n: nat): (r: seq<nat>)
    requires source < |meshes| && n <= |meshes|
    ensures forall k :: 0 <= k < |r| ==> r[k] < n && Representable(native, meshes, parent, source, r[k])
  {
    if n == 0 then []
    else
      Instanced(native, meshes, parent, source, n - 1)
      + if Representable(native, meshes, parent, source, n - 1) then [n - 1] else []
  }

  // What happens to a set: the meshes that become instances, none if the set is skipped.
  function Chosen(native: Native, meshes: seq<Mesh>, parent: Parent, minimum: nat): (r: seq<nat>)
    ensures forall k :: 0 <= k < |r| ==> r[k] < |meshes|
  {
    if |meshes| < minimum then []
    else
      var source := Source(native, meshes, parent, 0);
      if source == |meshes| then []
      else
        var chosen := Instanced(native, meshes, parent, source, |meshes|);
        if |chosen| < minimum then [] else chosen
  }

  function PlacementAt(instancer: Instancer, k: nat): Placement
    requires k < |instancer.positions| == |instancer.orientations| == |instancer.scales|
  {
    Placement(instancer.positions[k], instancer.orientations[k], instancer.scales[k])
  }

  ghost predicate WellMade(instancer: Instancer, count: nat)
  {
    && |instancer.positions| == |instancer.orientations| == |instancer.scales| == |instancer.protoIndices| == count
    && forall k :: 0 <= k < count ==> instancer.protoIndices[k] == 0
  }

  // Instance k is the placement computed for the mesh it replaces.
  ghost predicate Places(native: Native, meshes: seq<Mesh>, parent: Parent, source: nat, instancer: Instancer, chosen: seq<nat>)
    requires source < |meshes| && forall k :: 0 <= k < |chosen| ==> chosen[k] < |meshes|
  {
    && WellMade(instancer, |chosen|)
    && instancer.prototype == meshes[source].points
    && forall k :: 0 <= k < |chosen| ==>
         native.decompose(InstanceMap(native, meshes, parent, source, chosen[k])) == Some(PlacementAt(instancer, k))
  }

  lemma OneMorePlaced(native: Native, meshes: seq<Mesh>, parent: Parent, source: nat, instancer: Instancer,
                      chosen: seq<nat>, i: nat, p: Placement)
    requires source < |meshes| && i < |meshes| && forall k :: 0 <= k < |chosen| ==> chosen[k] < |meshes|
    requires Places(native, meshes, parent, source, instancer, chosen)
    requires native.decompose(InstanceMap(native, meshes, parent, source, i)) == Some(p)
    ensures Places(native, meshes, parent, source,
                   Instancer(instancer.prototype, instancer.positions + [p.position], instancer.orientations + [p.orientation],
                             instancer.scales + [p.scale], instancer.protoIndices + [0]), chosen + [i])
  {
    hide InstanceMap;
  }

  method FindSource(native: Native, meshes: seq<Mesh>, parent: Parent) returns (source: nat, own: Option<Placement>)
    ensures source == Source(native, meshes, parent, 0)
    ensures source < |meshes| ==> own == native.decompose(InstanceMap(native, meshes, parent, source, source)) && own.Some?
  {
    source, own := 0, None;
    while source < |meshes|
      invariant source <= |meshes| && Source(native, meshes, parent, 0) == Source(native, meshes, parent, source)
    {
      own := native.decompose(Then(meshes[source].toWorld, parent.fromWorld));
      if own.Some? {
        break;
      }
      source := source + 1;
    }
  }

  // Where the instance of mesh i would be placed, if it can be.
  method InstancePlacement(native: Native, meshes: seq<Mesh>, parent: Parent, source: nat, own: Option<Placement>, i: nat)
    returns (placement: Option<Placement>)
    requires source < |meshes| && i < |meshes|
    requires own == native.decompose(InstanceMap(native, meshes, parent, source, source))
    ensures placement == native.decompose(InstanceMap(native, meshes, parent, source, i))
    ensures placement.Some? <==> Representable(native, meshes, parent, source, i)
  {
    placement := own;
    if i != source {
      var deep := native.deep(meshes[source], meshes[i]);
      placement := native.decompose(Then(Then(deep, meshes[i].toWorld), parent.fromWorld));
    }
  }

  lemma InstancedMore(native: Native, meshes: seq<Mesh>, parent: Parent, source: nat, n: nat)
    requires source < |meshes| && n < |meshes|
    ensures Instanced(native, meshes, parent, source, n + 1)
            == Instanced(native, meshes, parent, source, n) + if Representable(native, meshes, parent, source, n) then [n] else []
  {
    hide Representable;
  }

  method PlaceAll(native: Native, meshes: seq<Mesh>, parent: Parent, source: nat, own: Option<Placement>)
    returns (result: Instancer, instanced: seq<nat>)
    requires source < |meshes| && own.Some?
    requires own == native.decompose(InstanceMap(native, meshes, parent, source, source))
    ensures instanced == Instanced(native, meshes, parent, source, |meshes|) && source in instanced
    ensures Places(native, meshes, parent, source, result, instanced)
  {
    hide Then, InstanceMap, Representable;
    result, instanced := Instancer(meshes[source].points, [], [], [], []), [];
    assert Places(native, meshes, parent, source, result, []);
    hide Places;
    for i := 0 to |meshes|
      invariant instanced == Instanced(native, meshes, parent, source, i)
      invariant source < i ==> source in instanced
      invariant Places(native, meshes, parent, source, result, instanced)
    {
      var placement := InstancePlacement(native, meshes, parent, source, own, i);
      InstancedMore(native, meshes, parent, source, i);
      hide Instanced;
      if placement.Some? {
        var p := placement.value;
        OneMorePlaced(native, meshes, parent, source, result, instanced, i, p);
        result := Instancer(result.prototype, result.positions + [p.position], result.orientations + [p.orientation],
                            result.scales + [p.scale], result.protoIndices + [0]);
        instanced := instanced + [i];
      }
    }
  }

  method CreatePointInstancer(native: Native, meshes: seq<Mesh>, parent: Parent, minimum: nat)
    returns (instancer: Option<Instancer>, deleted: seq<nat>)
    requires minimum > 0
    ensures deleted == Chosen(native, meshes, parent, minimum)
    ensures instancer.None? <==> deleted == []
    ensures instancer.Some? ==>
      var source := Source(native, meshes, parent, 0);
      && source < |meshes| && |deleted| >= minimum && source in deleted
      && Places(native, meshes, parent, source, instancer.value, deleted)
  {
    hide Instanced, Places, InstanceMap, Representable;
    if |meshes| < minimum {
      return None, [];
    }
    var source, own := FindSource(native, meshes, parent);
    if source == |meshes| {
      return None, [];
    }
    var result;
    result, deleted := PlaceAll(native, meshes, parent, source, own);
    if |deleted| < minimum {
      return None, [];
    }
    instancer := Some(result);
  }

  // ---------- World positions ----------

  // The points of instance k in the world.
  function InstanceCloud(instancer: Instancer, parent: Parent, k: nat): seq<Vec>
    requires k < |instancer.positions| == |instancer.orientations| == |instancer.scales|
  {
    MovedPoints(MovedPoints(instancer.prototype, PlacementMap(PlacementAt(instancer, k))), parent.toWorld)
  }

  lemma CloudThen(points: seq<Vec>, a: Map, b: Map)
    ensures MovedPoints(MovedPoints(points, a), b) == MovedPoints(points, Then(a, b))
  {
    hide Moved, Then;
    forall i | 0 <= i < |points| ensures MovedPoints(MovedPoints(points, a), b)[i] == MovedPoints(points, Then(a, b))[i] {
      MovedThen(points[i], a, b);
    }
  }

  /** Every instance puts the prototype's points where the mesh it replaces had its own. */
  lemma InstanceKeepsCloud(native: Native, meshes: seq<Mesh>, parent: Parent, source: nat, instancer: Instancer,
                           chosen: seq<nat>, k: nat)
    requires Exact(native) && Equal(native, meshes) && GoodParent(parent)
    requires source < |meshes| && (forall k :: 0 <= k < |chosen| ==> chosen[k] < |meshes|) && k < |chosen|
    requires Places(native, meshes, parent, source, instancer, chosen)
    ensures InstanceCloud(instancer, parent, k) == MovedPoints(meshes[chosen[k]].points, meshes[chosen[k]].toWorld)
  {
    var i := chosen[k];
    var place := InstanceMap(native, meshes, parent, source, i);
    var mesh := meshes[i];
    assert PlacementMap(PlacementAt(instancer, k)) == place;
    hide PlacementMap, Then, MovedPoints, PlacementAt, Exact;
    CloudThen(instancer.prototype, place, parent.toWorld);
    CancelRight(parent.fromWorld, parent.toWorld, mesh.toWorld);
    if i != source {
      var deep := native.deep(meshes[source], mesh);
      CancelRight(parent.fromWorld, parent.toWorld, Then(deep, mesh.toWorld));
      CloudThen(instancer.prototype, deep, mesh.toWorld);
    }
  }

  // ---------- All sets ----------

  datatype DuplicateSet = DuplicateSet(meshes: seq<Mesh>, parent: Parent)

  // The visible point clouds of the first n meshes of a set.
  function MeshClouds(meshes: seq<Mesh>, n: nat): multiset<seq<Vec>>
    requires n <= |meshes|
  {
    if n == 0 then multiset{}
    else MeshClouds(meshes, n - 1) + multiset{MovedPoints(meshes[n - 1].points, meshes[n - 1].toWorld)}
  }

  // Those of the meshes that are left.
  function LeftClouds(meshes: seq<Mesh>, deleted: seq<nat>, n: nat): multiset<seq<Vec>>
    requires n <= |meshes|
  {
    if n == 0 then multiset{}
    else LeftClouds(meshes, deleted, n - 1)
         + if n - 1 in deleted then multiset{} else multiset{MovedPoints(meshes[n - 1].points, meshes[n - 1].toWorld)}
  }

  function InstanceClouds(instancer: Instancer, parent: Parent, n: nat): multiset<seq<Vec>>
    requires n <= |instancer.positions| == |instancer.orientations| == |instancer.scales|
  {
    if n == 0 then multiset{} else InstanceClouds(instancer, parent, n - 1) + multiset{InstanceCloud(instancer, parent, n - 1)}
  }

  // Clouds of the chosen meshes, in the order they were chosen.
  function ChosenClouds(meshes: seq<Mesh>, chosen: seq<nat>, n: nat): multiset<seq<Vec>>
    requires n <= |chosen| && forall k :: 0 <= k < |chosen| ==> chosen[k] < |meshes|
  {
    if n == 0 then multiset{}
    else ChosenClouds(meshes, chosen, n - 1) + multiset{MovedPoints(meshes[chosen[n - 1]].points, meshes[chosen[n - 1]].toWorld)}
  }

  lemma {:induction false} InstancesAreChosen(instancer: Instancer, parent: Parent, meshes: seq<Mesh>, chosen: seq<nat>, n: nat)
    requires n <= |chosen| == |instancer.positions| == |instancer.orientations| == |instancer.scales|
    requires forall k :: 0 <= k < |chosen| ==>
               chosen[k] < |meshes|
               && InstanceCloud(instancer, parent, k) == MovedPoints(meshes[chosen[k]].points, meshes[chosen[k]].toWorld)
    ensures InstanceClouds(instancer, parent, n) == ChosenClouds(meshes, chosen, n)
  {
    hide InstanceCloud, MovedPoints;
    if n > 0 {
      InstancesAreChosen(instancer, parent, meshes, chosen, n - 1);
    }
  }

  // In increasing order, so each once.
  ghost predicate Increasing(s: seq<nat>)
  {
    forall i, j :: 0 <= i < j < |s| ==> s[i] < s[j]
  }

  lemma {:induction false} InstancedIncreasing(native: Native, meshes: seq<Mesh>, parent: Parent, source: nat, n: nat)
    requires source < |meshes| && n <= |meshes|
    ensures Increasing(Instanced(native, meshes, parent, source, n))
  {
    hide Representable;
    if n > 0 {
      InstancedIncreasing(native, meshes, parent, source, n - 1);
    }
  }

  lemma {:induction false} ChosenPrefix(meshes: seq<Mesh>, a: seq<nat>, b: seq<nat>)
    requires forall k :: 0 <= k < |a + b| ==> (a + b)[k] < |meshes|
    ensures forall k :: 0 <= k < |a| ==> a[k] < |meshes|
    ensures ChosenClouds(meshes, a + b, |a|) == ChosenClouds(meshes, a, |a|)
    decreases |a|
  {
    forall k | 0 <= k < |a| ensures a[k] < |meshes| {
      assert (a + b)[k] == a[k];
    }
    hide MovedPoints;
    if a != [] {
      var init := a[..|a| - 1];
      assert a + b == init + ([a[|a| - 1]] + b);
      assert a == init + [a[|a| - 1]];
      ChosenPrefix(meshes, init, [a[|a| - 1]] + b);
      ChosenPrefix(meshes, init, [a[|a| - 1]]);
    }
  }

  lemma ChosenLast(meshes: seq<Mesh>, init: seq<nat>, i: nat)
    requires i < |meshes| && forall k :: 0 <= k < |init| ==> init[k] < |meshes|
    ensures ChosenClouds(meshes, init + [i], |init| + 1)
            == ChosenClouds(meshes, init, |init|) + multiset{MovedPoints(meshes[i].points, meshes[i].toWorld)}
  {
    hide MovedPoints;
    ChosenPrefix(meshes, init, [i]);
  }

  lemma OneMoreCloud<T>(a: multiset<T>, b: multiset<T>, m: multiset<T>, c: T)
    requires a + b == m
    ensures a + (b + multiset{c}) == m + multiset{c} == (a + multiset{c}) + b
  {
  }

  // The last mesh of n was chosen, or it is left.
  lemma LastChosen(meshes: seq<Mesh>, init: seq<nat>, n: nat)
    requires 0 < n <= |meshes| && forall k :: 0 <= k < |init| ==> init[k] < n - 1
    requires LeftClouds(meshes, init, n - 1) + ChosenClouds(meshes, init, |init|) == MeshClouds(meshes, n - 1)
    ensures LeftClouds(meshes, init + [n - 1], n) + ChosenClouds(meshes, init + [n - 1], |init| + 1) == MeshClouds(meshes, n)
  {
    hide MovedPoints, ChosenClouds;
    var chosen := init + [n - 1];
    assert forall i :: i < n - 1 ==> (i in init <==> i in chosen);
    LeftWithout(meshes, init, chosen, n - 1);
    ChosenLast(meshes, init, n - 1);
    OneMoreCloud(LeftClouds(meshes, init, n - 1), ChosenClouds(meshes, init, |init|), MeshClouds(meshes, n - 1),
                 MovedPoints(meshes[n - 1].points, meshes[n - 1].toWorld));
    assert chosen[|init|] in chosen;
  }

  lemma LastLeft(meshes: seq<Mesh>, chosen: seq<nat>, n: nat)
    requires 0 < n <= |meshes| && forall k :: 0 <= k < |chosen| ==> chosen[k] < n - 1
    requires LeftClouds(meshes, chosen, n - 1) + ChosenClouds(meshes, chosen, |chosen|) == MeshClouds(meshes, n - 1)
    ensures LeftClouds(meshes, chosen, n) + ChosenClouds(meshes, chosen, |chosen|) == MeshClouds(meshes, n)
  {
    hide MovedPoints, ChosenClouds;
    OneMoreCloud(LeftClouds(meshes, chosen, n - 1), ChosenClouds(meshes, chosen, |chosen|), MeshClouds(meshes, n - 1),
                 MovedPoints(meshes[n - 1].points, meshes[n - 1].toWorld));
  }

  // What is left and what was chosen make up the set.
  lemma {:induction false} LeftAndChosen(meshes: seq<Mesh>, chosen: seq<nat>, n: nat)
    requires n <= |meshes| && Increasing(chosen) && forall k :: 0 <= k < |chosen| ==> chosen[k] < n
    ensures LeftClouds(meshes, chosen, n) + ChosenClouds(meshes, chosen, |chosen|) == MeshClouds(meshes, n)
    decreases n
  {
    if n == 0 {
      NothingChosen(meshes);
    } else {
      hide MovedPoints, ChosenClouds, LeftClouds, MeshClouds;
      if chosen != [] && chosen[|chosen| - 1] == n - 1 {
        var init := chosen[..|chosen| - 1];
        assert chosen == init + [n - 1];
        LeftAndChosen(meshes, init, n - 1);
        LastChosen(meshes, init, n);
      } else {
        LeftAndChosen(meshes, chosen, n - 1);
        LastLeft(meshes, chosen, n);
      }
    }
  }

  lemma {:induction false} LeftWithout(meshes: seq<Mesh>, a: seq<nat>, b: seq<nat>, n: nat)
    requires n <= |meshes| && forall i :: i < n ==> (i in a <==> i in b)
    ensures LeftClouds(meshes, a, n) == LeftClouds(meshes, b, n)
  {
    hide MovedPoints;
    if n > 0 {
      LeftWithout(meshes, a, b, n - 1);
    }
  }

  // The clouds on the stage after a set was processed.
  function CloudsAfter(duplicates: DuplicateSet, instancer: Option<Instancer>, deleted: seq<nat>): multiset<seq<Vec>>
    requires instancer.Some? ==> |instancer.value.positions| == |instancer.value.orientations| == |instancer.value.scales|
  {
    LeftClouds(duplicates.meshes, deleted, |duplicates.meshes|)
    + if instancer.Some? then InstanceClouds(instancer.value, duplicates.parent, |instancer.value.positions|) else multiset{}
  }

  /** Processing a set keeps the stage's point clouds, each as often as before. */
  method ReplaceSet(native: Native, duplicates: DuplicateSet, minimum: nat)
    returns (instancer: Option<Instancer>, deleted: seq<nat>)
    requires minimum > 0 && Exact(native) && Equal(native, duplicates.meshes) && GoodParent(duplicates.parent)
    ensures instancer.Some? ==> WellMade(instancer.value, |deleted|)
    ensures CloudsAfter(duplicates, instancer, deleted) == MeshClouds(duplicates.meshes, |duplicates.meshes|)
    ensures deleted == Chosen(native, duplicates.meshes, duplicates.parent, minimum)
  {
    instancer, deleted := CreatePointInstancer(native, duplicates.meshes, duplicates.parent, minimum);
    hide Exact, Equal, InstanceClouds, ChosenClouds, LeftClouds, MeshClouds;
    var source := Source(native, duplicates.meshes, duplicates.parent, 0);
    if instancer.Some? {
      forall k | 0 <= k < |deleted| {
        InstanceKeepsCloud(native, duplicates.meshes, duplicates.parent, source, instancer.value, deleted, k);
      }
      hide InstanceCloud, MovedPoints, Places;
      InstancesAreChosen(instancer.value, duplicates.parent, duplicates.meshes, deleted, |deleted|);
      InstancedIncreasing(native, duplicates.meshes, duplicates.parent, source, |duplicates.meshes|);
    } else {
      NothingChosen(duplicates.meshes);
    }
    LeftAndChosen(duplicates.meshes, deleted, |duplicates.meshes|);
  }

  lemma NothingChosen(meshes: seq<Mesh>)
    ensures ChosenClouds(meshes, [], 0) == multiset{}
  {
  }

  // ---------- Which meshes are replaced ----------

  // The mesh, in its own place.
  ghost predicate Stands(native: Native, meshes: seq<Mesh>, parent: Parent, i: nat)
    requires i < |meshes|
  {
    native.decompose(Then(meshes[i].toWorld, parent.fromWorld)).Some?
  }

  // The prototype, put in the place of the mesh.
  ghost predicate FitsPlace(native: Native, meshes: seq<Mesh>, parent: Parent, source: nat, i: nat)
    requires source < |meshes| && i < |meshes|
  {
    i == source
    || native.decompose(Then(Then(native.deep(meshes[source], meshes[i]), meshes[i].toWorld), parent.fromWorld)).Some?
  }

  lemma FitsIff(native: Native, meshes: seq<Mesh>, parent: Parent, source: nat, i: nat)
    requires source < |meshes| && i < |meshes| && Stands(native, meshes, parent, source)
    ensures Representable(native, meshes, parent, source, i) <==> FitsPlace(native, meshes, parent, source, i)
  {
    hide Then;
  }

  // The meshes among the first n in whose place the prototype fits.
  ghost function Fitting(native: Native, meshes: seq<Mesh>, parent: Parent, source: nat, n: nat): set<nat>
    requires source < |meshes| && n <= |meshes|
  {
    set i | 0 <= i < n && FitsPlace(native, meshes, parent, source, i)
  }

  lemma FittingMore(native: Native, meshes: seq<Mesh>, parent: Parent, source: nat, n: nat)
    requires source < |meshes| && n < |meshes|
    ensures Fitting(native, meshes, parent, source, n + 1)
            == Fitting(native, meshes, parent, source, n) + if FitsPlace(native, meshes, parent, source, n) then {n} else {}
    ensures n !in Fitting(native, meshes, parent, source, n)
  {
    hide FitsPlace;
  }

  ghost predicate SameMembers(r: seq<nat>, able: set<nat>)
  {
    (forall i :: i in r <==> i in able) && |r| == |able|
  }

  lemma OneMoreMember(r: seq<nat>, able: set<nat>, n: nat, fits: bool)
    requires SameMembers(r, able) && n !in able
    ensures SameMembers(r + if fits then [n] else [], able + if fits then {n} else {})
  {
  }

  lemma NoneInstanced(native: Native, meshes: seq<Mesh>, parent: Parent, source: nat)
    requires source < |meshes|
    ensures Instanced(native, meshes, parent, source, 0) == []
    ensures SameMembers(Instanced(native, meshes, parent, source, 0), Fitting(native, meshes, parent, source, 0))
  {
  }

  lemma {:induction false} InstancedAre(native: Native, meshes: seq<Mesh>, parent: Parent, source: nat, n: nat)
    requires source < |meshes| && n <= |meshes| && Stands(native, meshes, parent, source)
    ensures SameMembers(Instanced(native, meshes, parent, source, n), Fitting(native, meshes, parent, source, n))
    ensures |Instanced(native, meshes, parent, source, n)| <= n
  {
    hide *;
    if n == 0 {
      NoneInstanced(native, meshes, parent, source);
    } else {
      FitsIff(native, meshes, parent, source, n - 1);
      FittingMore(native, meshes, parent, source, n - 1);
      InstancedMore(native, meshes, parent, source, n - 1);
      InstancedAre(native, meshes, parent, source, n - 1);
      OneMoreMember(Instanced(native, meshes, parent, source, n - 1), Fitting(native, meshes, parent, source, n - 1),
                    n - 1, FitsPlace(native, meshes, parent, source, n - 1));
    }
  }

  // The first mesh that stands in its place.
  ghost predicate FirstToStand(native: Native, meshes: seq<Mesh>, parent: Parent, source: nat)
  {
    && source < |meshes| && Stands(native, meshes, parent, source)
    && forall i :: 0 <= i < source ==> !Stands(native, meshes, parent, i)
  }

  lemma SourceIs(native: Native, meshes: seq<Mesh>, parent: Parent)
    ensures var first := Source(native, meshes, parent, 0);
            && (first < |meshes| ==> FirstToStand(native, meshes, parent, first))
            && (first == |meshes| ==> forall i :: 0 <= i < |meshes| ==> !Stands(native, meshes, parent, i))
  {
    forall i | 0 <= i < |meshes| ensures Representable(native, meshes, parent, i, i) <==> Stands(native, meshes, parent, i) {
    }
    hide Stands, Representable;
  }

  /** Which meshes of a set are replaced. The prototype is the first that stands in its place without shear, if any; then
      it is replaced together with all in whose place it fits, in order, or none is if these are too few. */
  lemma ChosenAre(native: Native, meshes: seq<Mesh>, parent: Parent, minimum: nat, source: nat)
    requires FirstToStand(native, meshes, parent, source)
    ensures var chosen := Chosen(native, meshes, parent, minimum);
            var able := Fitting(native, meshes, parent, source, |meshes|);
            if |able| >= minimum then Increasing(chosen) && forall i :: i in chosen <==> i in able
            else chosen == []
  {
    SourceIs(native, meshes, parent);
    hide Stands, Source, Representable;
    assert source == Source(native, meshes, parent, 0);
    InstancedAre(native, meshes, parent, source, |meshes|);
    InstancedIncreasing(native, meshes, parent, source, |meshes|);
    hide Instanced, Fitting, Increasing;
  }

  lemma NoneChosen(native: Native, meshes: seq<Mesh>, parent: Parent, minimum: nat)
    requires forall i :: 0 <= i < |meshes| ==> !Stands(native, meshes, parent, i)
    ensures Chosen(native, meshes, parent, minimum) == []
  {
    SourceIs(native, meshes, parent);
    hide Stands, Source, Representable, Instanced;
  }
}
