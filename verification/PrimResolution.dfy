/** Resolving paths to prims: one traversal that prunes cameras and lights, against looking at every ancestor. */
module PrimResolution {
  import opened Wrappers
  import opened SceneTree

  datatype Query = Query(
    camera: Prim -> bool,
    light: Prim -> bool,
    material: Prim -> bool,
    mesh: Prim -> bool,
    visited: Prim -> bool,    // the traversal predicate
    matches: Path -> bool,    // the path expressions
    filter: Prim -> bool,
    meshesOnly: bool)

  predicate StartsWith(name: Name, prefix: string)
  {
    prefix <= name
  }

  predicate AllowedName(path: Path)
    requires path != []
  {
    !StartsWith(path[0], "Render") && !StartsWith(path[0], "OmniverseKit_")
  }

  // Neither this prim nor anything below it is looked at.
  predicate Blocks(q: Query, p: Prim)
  {
    q.camera(p) || q.light(p) || (q.meshesOnly && q.material(p))
  }

  predicate Selects(q: Query, p: Prim, path: Path)
  {
    path != [] && (q.meshesOnly ==> q.mesh(p)) && q.matches(path) && q.filter(p) && AllowedName(path)
  }

  // The stage's root is passed over, whatever it is.
  predicate Enters(q: Query, p: Prim, path: Path)
  {
    q.visited(p) && (path == [] || !Blocks(q, p))
  }

  // What the traversal finds, in order.
  function Found(q: Query, p: Prim, path: Path): seq<Path>
  {
    if !Enters(q, p, path) then []
    else (if Selects(q, p, path) then [path] else []) + FoundBelow(q, p.children, path)
  }

  function FoundBelow(q: Query, ps: seq<Prim>, path: Path): seq<Path>
  {
    if ps == [] then [] else Found(q, ps[0], path + [ps[0].name]) + FoundBelow(q, ps[1..], path)
  }

  function FoundByAll(q: Query, todo: seq<Visit>): seq<Path>
  {
    if todo == [] then [] else Found(q, todo[0].prim, todo[0].path) + FoundByAll(q, todo[1..])
  }

  function Visits(ps: seq<Prim>, path: Path): (r: seq<Visit>)
    ensures |r| == |ps| && forall i :: 0 <= i < |r| ==> r[i] == Visit(path + [ps[i].name], ps[i])
  {
    seq(|ps|, i requires 0 <= i < |ps| => Visit(path + [ps[i].name], ps[i]))
  }

  lemma {:induction false} VisitsFound(q: Query, ps: seq<Prim>, path: Path)
    ensures FoundByAll(q, Visits(ps, path)) == FoundBelow(q, ps, path)
  {
    hide Found;
    if ps != [] {
      assert Visits(ps, path)[1..] == Visits(ps[1..], path);
      VisitsFound(q, ps[1..], path);
    }
  }

  lemma {:induction false} FoundByConcat(q: Query, a: seq<Visit>, b: seq<Visit>)
    ensures FoundByAll(q, a + b) == FoundByAll(q, a) + FoundByAll(q, b)
  {
    hide Found;
    if a == [] {
      assert a + b == b;
    } else {
      assert (a + b)[1..] == a[1..] + b;
      FoundByConcat(q, a[1..], b);
    }
  }

  function WorkLeft(todo: seq<Visit>): nat
  {
    if todo == [] then 0 else Size(todo[0].prim) + WorkLeft(todo[1..])
  }

  lemma {:induction false} WorkConcat(a: seq<Visit>, b: seq<Visit>)
    ensures WorkLeft(a + b) == WorkLeft(a) + WorkLeft(b)
  {
    if a == [] {
      assert a + b == b;
    } else {
      assert (a + b)[1..] == a[1..] + b;
      WorkConcat(a[1..], b);
    }
  }

  lemma {:induction false} WorkOfVisits(ps: seq<Prim>, path: Path)
    ensures WorkLeft(Visits(ps, path)) == SizeAll(ps)
  {
    if ps != [] {
      assert Visits(ps, path)[1..] == Visits(ps[1..], path);
      WorkOfVisits(ps[1..], path);
    }
  }

  lemma FoundHere(q: Query, todo: seq<Visit>)
    requires todo != []
    ensures var p, path := todo[0].prim, todo[0].path;
            FoundByAll(q, todo) ==
              (if !Enters(q, p, path) then []
               else (if Selects(q, p, path) then [path] else []) + FoundBelow(q, p.children, path)) + FoundByAll(q, todo[1..])
  {
    hide Enters, Selects;
  }

  lemma WorkNext(todo: seq<Visit>)
    requires todo != []
    ensures WorkLeft(todo[1..]) < WorkLeft(todo)
    ensures WorkLeft(Visits(todo[0].prim.children, todo[0].path) + todo[1..]) < WorkLeft(todo)
  {
    var p, path, rest := todo[0].prim, todo[0].path, todo[1..];
    assert WorkLeft(todo) == 1 + SizeAll(p.children) + WorkLeft(rest);
    hide WorkLeft, SizeAll, Visits;
    WorkOfVisits(p.children, path);
    WorkConcat(Visits(p.children, path), rest);
  }

  lemma Regrouped(own: seq<Path>, a: seq<Path>, b: seq<Path>)
    ensures own + a + b == own + (a + b) && [] + b == b
  {
  }

  // One prim is looked at, and its children are next unless it is pruned.
  lemma NextVisits(q: Query, todo: seq<Visit>)
    requires todo != []
    ensures var p, path, rest := todo[0].prim, todo[0].path, todo[1..];
            FoundByAll(q, todo) ==
              if !Enters(q, p, path) then FoundByAll(q, rest)
              else (if Selects(q, p, path) then [path] else []) + FoundByAll(q, Visits(p.children, path) + rest)
  {
    hide Enters, Selects, Visits, FoundByAll, FoundBelow;
    var p, path, rest := todo[0].prim, todo[0].path, todo[1..];
    FoundHere(q, todo);
    VisitsFound(q, p.children, path);
    FoundByConcat(q, Visits(p.children, path), rest);
    Regrouped(if Selects(q, p, path) then [path] else [], FoundBelow(q, p.children, path), FoundByAll(q, rest));
  }

  function Reversed<T>(s: seq<T>): (r: seq<T>)
    ensures |r| == |s| && forall i :: 0 <= i < |s| ==> r[i] == s[|s| - 1 - i]
  {
    seq(|s|, i requires 0 <= i < |s| => s[|s| - 1 - i])
  }

  // One turn of the iterator: what is still to be visited, in preorder, without the children of a pruned prim.
  method LookAt(q: Query, todo: seq<Visit>) returns (next: seq<Visit>, own: seq<Path>)
    requires todo != []
    ensures own + FoundByAll(q, next) == FoundByAll(q, todo) && WorkLeft(next) < WorkLeft(todo)
  {
    hide FoundByAll, WorkLeft, Found, Visits, AllowedName;
    NextVisits(q, todo);
    WorkNext(todo);
    var p, path, rest := todo[0].prim, todo[0].path, todo[1..];
    var below := Visits(p.children, path) + rest;
    next, own := rest, [];
    assert [] + FoundByAll(q, rest) == FoundByAll(q, rest) && [] + FoundByAll(q, below) == FoundByAll(q, below);
    if q.visited(p) {
      if path == [] {
        next := below;
      } else if q.camera(p) || q.light(p) {
      } else if q.meshesOnly && q.material(p) {
      } else {
        next := below;
        if (!q.meshesOnly || q.mesh(p)) && q.matches(path) && q.filter(p) && AllowedName(path) {
          own := [path];
        }
      }
    }
  }

  method Resolve(q: Query, start: Prim, path: Path, reverse: bool) returns (resolved: seq<Path>)
    ensures resolved == if reverse then Reversed(Found(q, start, path)) else Found(q, start, path)
  {
    var todo := [Visit(path, start)];
    assert FoundByAll(q, todo) == Found(q, start, path) by {
      assert todo[1..] == [];
      assert FoundByAll(q, []) == [];
    }
    resolved := [];
    while todo != []
      invariant resolved + FoundByAll(q, todo) == Found(q, start, path)
      decreases WorkLeft(todo)
    {
      hide FoundByAll, WorkLeft, Found;
      var next, own := LookAt(q, todo);
      assert resolved + (own + FoundByAll(q, next)) == resolved + own + FoundByAll(q, next);
      resolved := resolved + own;
      todo := next;
    }
    if reverse {
      resolved := Reversed(resolved);
    }
  }

  // ---------- Against the full traversal ----------

  // Every prim from start down to the one at `rest` is entered.
  predicate Clear(q: Query, start: Prim, path: Path, rest: Path)
    decreases |rest|
  {
    && Enters(q, start, path)
    && (rest == [] ||
        var i := ChildIndex(start.children, rest[0]);
        i < |start.children| && Clear(q, start.children[i], path + [rest[0]], rest[1..]))
  }

  // The visits of a traversal without pruning that are selected and nowhere cut off.
  function Filtered(q: Query, start: Prim, path: Path, visits: seq<Visit>): seq<Path>
  {
    if visits == [] then []
    else
      var v := visits[0];
      (if path <= v.path && Clear(q, start, path, v.path[|path|..]) && Selects(q, v.prim, v.path) then [v.path] else [])
      + Filtered(q, start, path, visits[1..])
  }

  lemma {:induction false} FilteredConcat(q: Query, start: Prim, path: Path, a: seq<Visit>, b: seq<Visit>)
    ensures Filtered(q, start, path, a + b) == Filtered(q, start, path, a) + Filtered(q, start, path, b)
  {
    hide Clear, Selects;
    if a == [] {
      assert a + b == b;
    } else {
      assert (a + b)[1..] == a[1..] + b;
      FilteredConcat(q, start, path, a[1..], b);
    }
  }

  ghost predicate Under(visits: seq<Visit>, path: Path)
  {
    forall i :: 0 <= i < |visits| ==> path <= visits[i].path
  }

  lemma {:induction false} PreorderUnder(p: Prim, path: Path)
    ensures Under(Preorder(p, path), path)
    decreases p, 1
  {
    PreorderAllUnder(p.children, path);
  }

  lemma {:induction false} PreorderAllUnder(ps: seq<Prim>, path: Path)
    ensures Under(PreorderAll(ps, path), path)
    decreases ps, 0
  {
    if ps != [] {
      PreorderUnder(ps[0], path + [ps[0].name]);
      PreorderAllUnder(ps[1..], path);
      hide Preorder;
    }
  }

  // Below a child, being clear from the parent is being clear from the child.
  lemma {:induction false} FilteredBelowChild(q: Query, p: Prim, path: Path, i: nat, visits: seq<Visit>)
    requires WellFormed(p) && i < |p.children| && Enters(q, p, path)
    requires Under(visits, path + [p.children[i].name])
    ensures Filtered(q, p, path, visits) == Filtered(q, p.children[i], path + [p.children[i].name], visits)
  {
    if visits != [] {
      var c := p.children[i];
      var v := visits[0];
      assert Under(visits[1..], path + [c.name]);
      FilteredBelowChild(q, p, path, i, visits[1..]);
      var rest := v.path[|path|..];
      assert v.path == path + [c.name] + v.path[|path| + 1..];
      assert rest[0] == c.name && rest[1..] == v.path[|path + [c.name]|..];
      assert ChildIndex(p.children, c.name) == i;
      hide Enters, Selects;
    }
  }

  lemma {:induction false} FilteredNone(q: Query, p: Prim, path: Path, visits: seq<Visit>)
    requires !Enters(q, p, path)
    ensures Filtered(q, p, path, visits) == []
  {
    if visits != [] {
      FilteredNone(q, p, path, visits[1..]);
    }
  }

  /** The pruning traversal finds, in preorder, exactly the selected prims with nothing blocking from the start down
      to and including them. */
  lemma {:induction false} FoundIsFiltered(q: Query, p: Prim, path: Path)
    requires WellFormed(p)
    ensures Found(q, p, path) == Filtered(q, p, path, Preorder(p, path))
    decreases p, |p.children| + 1
  {
    if !Enters(q, p, path) {
      FilteredNone(q, p, path, Preorder(p, path));
    } else {
      FoundBelowIsFiltered(q, p, path, 0);
      assert p.children[0..] == p.children;
      FilteredConcat(q, p, path, [Visit(path, p)], PreorderAll(p.children, path));
      assert path[|path|..] == [];
      assert Filtered(q, p, path, [Visit(path, p)]) == if Selects(q, p, path) then [path] else [] by {
        assert [Visit(path, p)][1..] == [];
        assert Filtered(q, p, path, []) == [];
      }
    }
  }

  lemma {:induction false} FoundBelowIsFiltered(q: Query, p: Prim, path: Path, k: nat)
    requires WellFormed(p) && k <= |p.children| && Enters(q, p, path)
    ensures FoundBelow(q, p.children[k..], path) == Filtered(q, p, path, PreorderAll(p.children[k..], path))
    decreases p, |p.children| - k
  {
    if k < |p.children| {
      var c := p.children[k];
      assert p.children[k..][1..] == p.children[k + 1..];
      FoundBelowIsFiltered(q, p, path, k + 1);
      FoundIsFiltered(q, c, path + [c.name]);
      PreorderUnder(c, path + [c.name]);
      hide Found, Preorder, Filtered, Enters;
      FilteredBelowChild(q, p, path, k, Preorder(c, path + [c.name]));
      FilteredConcat(q, p, path, Preorder(c, path + [c.name]), PreorderAll(p.children[k + 1..], path));
    }
  }

  // ---------- Against the check of every ancestor ----------

  // No camera or light at the prefix of the given length.
  predicate Unblocked(q: Query, stage: Prim, path: Path, k: nat)
    requires k <= |path|
  {
    At(stage, path[..k]).Some? ==> !q.camera(At(stage, path[..k]).value) && !q.light(At(stage, path[..k]).value)
  }

  ghost predicate UnblockedBetween(q: Query, stage: Prim, path: Path, from: nat, to: nat)
    requires to <= |path|
  {
    forall k :: from <= k <= to ==> Unblocked(q, stage, path, k)
  }

  // The check of every ancestor, the prim itself included.
  ghost predicate AncestorsChecked(q: Query, stage: Prim, path: Path)
  {
    UnblockedBetween(q, stage, path, 1, |path|)
  }

  // Visited at the prefix of the given length, and no material there when only meshes are wanted.
  predicate Passed(q: Query, stage: Prim, path: Path, k: nat)
    requires k <= |path|
  {
    At(stage, path[..k]).Some? ==>
      var p := At(stage, path[..k]).value; q.visited(p) && (k > 0 && q.meshesOnly ==> !q.material(p))
  }

  ghost predicate PassedFrom(q: Query, stage: Prim, path: Path, from: nat)
  {
    forall k :: from <= k <= |path| ==> Passed(q, stage, path, k)
  }

  lemma EntersIs(q: Query, stage: Prim, path: Path, more: Path)
    requires At(stage, path).Some?
    ensures Enters(q, At(stage, path).value, path) <==>
              (path == [] || Unblocked(q, stage, path + more, |path|)) && Passed(q, stage, path + more, |path|)
  {
    assert (path + more)[..|path|] == path;
    hide At;
  }

  lemma {:induction false} ClearIsChecked(q: Query, stage: Prim, from: Path, rest: Path)
    requires At(stage, from).Some? && At(stage, from + rest).Some?
    ensures Clear(q, At(stage, from).value, from, rest) <==>
            UnblockedBetween(q, stage, from + rest, if from == [] then 1 else |from|, |from + rest|)
            && PassedFrom(q, stage, from + rest, |from|)
    decreases |rest|
  {
    var p, whole := At(stage, from).value, from + rest;
    EntersIs(q, stage, from, rest);
    if rest == [] {
      assert whole == from;
      hide Unblocked, Passed, At, Enters;
    } else {
      var next := from + [rest[0]];
      assert whole == next + rest[1..];
      AtAppend(stage, from, rest);
      AtAppend(stage, from, [rest[0]]);
      var i := ChildIndex(p.children, rest[0]);
      assert At(stage, next) == Some(p.children[i]);
      ClearIsChecked(q, stage, next, rest[1..]);
      hide Unblocked, Passed, At, Enters;
    }
  }

  lemma UnblockedPrefix(q: Query, stage: Prim, path: Path, more: Path, n: nat)
    requires n <= |path|
    ensures UnblockedBetween(q, stage, path + more, 1, n) <==> UnblockedBetween(q, stage, path[..n], 1, n)
  {
    forall k | 0 <= k <= n ensures Unblocked(q, stage, path + more, k) == Unblocked(q, stage, path[..n], k) {
      assert (path + more)[..k] == path[..n][..k];
    }
    hide Unblocked;
  }

  /** The check of every ancestor accepts a prim, and everything from the start down to it is visited and, when only
      meshes are wanted, no material, exactly when pruning reaches it and no camera or light lies above the start. */
  lemma PruningIsChecking(q: Query, stage: Prim, from: Path, rest: Path)
    requires At(stage, from).Some? && At(stage, from + rest).Some? && from + rest != []
    ensures AncestorsChecked(q, stage, from + rest) && PassedFrom(q, stage, from + rest, |from|) <==>
            Clear(q, At(stage, from).value, from, rest)
            && (from == [] || AncestorsChecked(q, stage, from[..|from| - 1]))
  {
    ClearIsChecked(q, stage, from, rest);
    if from != [] {
      UnblockedPrefix(q, stage, from, rest, |from| - 1);
    }
    hide Unblocked, Passed, Clear, At;
  }

  // A prim of the stage that the query selects.
  ghost predicate SelectedAt(q: Query, stage: Prim, path: Path)
  {
    At(stage, path).Some? && Selects(q, At(stage, path).value, path)
  }

  /** Traversing a whole stage resolves exactly what the check of every ancestor resolves, if and only if no selected
      prim the check accepts is, or lies below, a prim that is not visited or, when only meshes are wanted, a material. */
  lemma PruningAgreesIff(q: Query, stage: Prim)
    ensures (forall path :: SelectedAt(q, stage, path) ==> (Clear(q, stage, [], path) <==> AncestorsChecked(q, stage, path)))
            <==> forall path :: SelectedAt(q, stage, path) && AncestorsChecked(q, stage, path) ==> PassedFrom(q, stage, path, 0)
  {
    forall path | SelectedAt(q, stage, path)
      ensures Clear(q, stage, [], path) <==> AncestorsChecked(q, stage, path) && PassedFrom(q, stage, path, 0) {
      assert [] + path == path && At(stage, []) == Some(stage);
      PruningIsChecking(q, stage, [], path);
    }
    hide Clear, AncestorsChecked, PassedFrom, SelectedAt;
  }

  // ---------- The list that is resolved ----------

  // The selected prims that the check of every ancestor accepts, in the order of the visits.
  ghost function Accepted(q: Query, stage: Prim, visits: seq<Visit>): seq<Path>
  {
    if visits == [] then []
    else
      var v := visits[0];
      (if Selects(q, v.prim, v.path) && AncestorsChecked(q, stage, v.path) then [v.path] else [])
      + Accepted(q, stage, visits[1..])
  }

  // The visit is cut off although the check accepts it.
  ghost predicate Missed(q: Query, stage: Prim, v: Visit)
  {
    Selects(q, v.prim, v.path) && AncestorsChecked(q, stage, v.path) && !PassedFrom(q, stage, v.path, 0)
  }

  lemma ClearFromRoot(q: Query, stage: Prim, v: Visit)
    requires At(stage, v.path) == Some(v.prim) && Selects(q, v.prim, v.path)
    ensures [] <= v.path && v.path[0..] == v.path
    ensures Clear(q, stage, [], v.path) <==> AncestorsChecked(q, stage, v.path) && PassedFrom(q, stage, v.path, 0)
  {
    assert [] + v.path == v.path && At(stage, []) == Some(stage);
    PruningIsChecking(q, stage, [], v.path);
    hide Clear, AncestorsChecked, PassedFrom;
  }

  lemma EqualWithFronts(a: seq<Path>, b: seq<Path>, x: seq<Path>, y: seq<Path>)
    requires |x| <= |y| && (a == b || |a| < |b|)
    ensures |a + x| <= |b + y| && (a + x == b + y <==> a == b && x == y)
  {
    if a == b && a + x == b + y {
      assert x == (a + x)[|a|..] && y == (b + y)[|b|..];
    }
  }

  // Pruning never finds more than the check, and as much exactly when nothing is missed.
  lemma {:induction false} FilteredIsAccepted(q: Query, stage: Prim, visits: seq<Visit>)
    requires VisitsAt(stage, visits)
    ensures |Filtered(q, stage, [], visits)| <= |Accepted(q, stage, visits)|
    ensures Filtered(q, stage, [], visits) == Accepted(q, stage, visits) <==> forall v :: v in visits ==> !Missed(q, stage, v)
  {
    if visits != [] {
      var v, rest := visits[0], visits[1..];
      if Selects(q, v.prim, v.path) {
        ClearFromRoot(q, stage, v);
      }
      hide Clear, AncestorsChecked, PassedFrom, Selects;
      var a := if [] <= v.path && Clear(q, stage, [], v.path[0..]) && Selects(q, v.prim, v.path) then [v.path] else [];
      var b := if Selects(q, v.prim, v.path) && AncestorsChecked(q, stage, v.path) then [v.path] else [];
      assert Filtered(q, stage, [], visits) == a + Filtered(q, stage, [], rest);
      assert Accepted(q, stage, visits) == b + Accepted(q, stage, rest);
      assert VisitsAt(stage, rest);
      FilteredIsAccepted(q, stage, rest);
      hide VisitsAt, Filtered, Accepted;
      assert a == b <==> !Missed(q, stage, v);
      EqualWithFronts(a, b, Filtered(q, stage, [], rest), Accepted(q, stage, rest));
      assert forall u :: u in visits <==> u == v || u in rest;
    }
  }

  /** The list a whole stage resolves to is the full preorder filtered by the selection and the check of every ancestor,
      if and only if no selected prim the check accepts is, or lies below, a prim that is not visited or, when only meshes
      are wanted, a material. */
  lemma ResolvedIsCheckedIff(q: Query, stage: Prim)
    requires WellFormed(stage)
    ensures Found(q, stage, []) == Accepted(q, stage, Preorder(stage, []))
            <==> forall path :: SelectedAt(q, stage, path) && AncestorsChecked(q, stage, path) ==> PassedFrom(q, stage, path, 0)
  {
    var visits := Preorder(stage, []);
    assert At(stage, []) == Some(stage);
    PreorderOnStage(stage, []);
    FoundIsFiltered(q, stage, []);
    FilteredIsAccepted(q, stage, visits);
    hide Found, Filtered, Accepted, Preorder, AncestorsChecked, PassedFrom, Selects, WellFormed;
    forall v | v in visits && Missed(q, stage, v) ensures SelectedAt(q, stage, v.path) {
      var i :| 0 <= i < |visits| && visits[i] == v;
    }
    forall path | SelectedAt(q, stage, path) ensures Visit(path, At(stage, path).value) in visits {
      VisitedBelow(stage, [], path);
      assert [] + path == path;
    }
    if path :| SelectedAt(q, stage, path) && AncestorsChecked(q, stage, path) && !PassedFrom(q, stage, path, 0) {
      assert Missed(q, stage, Visit(path, At(stage, path).value));
    }
  }

  // ---------- What is found ----------

  lemma {:induction false} FilteredMembers(q: Query, stage: Prim, visits: seq<Visit>, path: Path)
    ensures path in Filtered(q, stage, [], visits) <==>
              exists i :: 0 <= i < |visits| && visits[i].path == path
                          && Clear(q, stage, [], path[0..]) && Selects(q, visits[i].prim, path)
  {
    hide Clear, Selects;
    if visits != [] {
      var v, rest := visits[0], visits[1..];
      FilteredMembers(q, stage, rest, path);
      var own := if [] <= v.path && Clear(q, stage, [], v.path[0..]) && Selects(q, v.prim, v.path) then [v.path] else [];
      assert Filtered(q, stage, [], visits) == own + Filtered(q, stage, [], rest);
      hide Filtered;
      if i :| 0 <= i < |rest| && rest[i].path == path && Clear(q, stage, [], path[0..]) && Selects(q, rest[i].prim, path) {
        assert visits[i + 1] == rest[i];
      }
      if i :| 0 <= i < |visits| && visits[i].path == path && Clear(q, stage, [], path[0..]) && Selects(q, visits[i].prim, path) {
        assert i > 0 ==> rest[i - 1] == visits[i];
      }
    }
  }

  // Visited all the way down, past no camera, no light and, when only meshes are wanted, no material.
  ghost predicate MayPass(q: Query, stage: Prim, path: Path)
  {
    forall k, p :: 0 <= k <= |path| && At(stage, path[..k]) == Some(p) ==>
      q.visited(p) && (k > 0 ==> !q.camera(p) && !q.light(p) && (q.meshesOnly ==> !q.material(p)))
  }

  lemma PassesIff(q: Query, stage: Prim, path: Path)
    ensures AncestorsChecked(q, stage, path) && PassedFrom(q, stage, path, 0) <==> MayPass(q, stage, path)
  {
    hide At;
    if MayPass(q, stage, path) {
      forall k | 1 <= k <= |path| ensures Unblocked(q, stage, path, k) {
      }
      forall k | 0 <= k <= |path| ensures Passed(q, stage, path, k) {
      }
    }
    if AncestorsChecked(q, stage, path) && PassedFrom(q, stage, path, 0) {
      forall k, p | 0 <= k <= |path| && At(stage, path[..k]) == Some(p)
        ensures q.visited(p) && (k > 0 ==> !q.camera(p) && !q.light(p) && (q.meshesOnly ==> !q.material(p))) {
        assert Passed(q, stage, path, k) && (k > 0 ==> Unblocked(q, stage, path, k));
      }
    }
  }

  /** A prim of the stage is found if and only if it is not the root, a mesh where only meshes are wanted, at a path that
      the expressions match, not under the reserved names, accepted by the filter, and nothing on the way down keeps the
      traversal from it. */
  lemma FoundIff(q: Query, stage: Prim, path: Path)
    requires WellFormed(stage)
    ensures path in Found(q, stage, []) <==>
              && path != [] && At(stage, path).Some?
              && (q.meshesOnly ==> q.mesh(At(stage, path).value)) && q.matches(path) && q.filter(At(stage, path).value)
              && !("Render" <= path[0]) && !("OmniverseKit_" <= path[0])
              && MayPass(q, stage, path)
  {
    var visits := Preorder(stage, []);
    assert At(stage, []) == Some(stage);
    PreorderOnStage(stage, []);
    FoundIsFiltered(q, stage, []);
    FilteredMembers(q, stage, visits, path);
    PassesIff(q, stage, path);
    if At(stage, path).Some? {
      VisitedBelow(stage, [], path);
      assert [] + path == path;
      if path != [] {
        PruningIsChecking(q, stage, [], path);
      }
    }
    hide Found, Filtered, Preorder, AncestorsChecked, PassedFrom, WellFormed, Clear, MayPass;
    assert path[0..] == path;
  }

  // A visit of x comes before one of y.
  ghost predicate Before(visits: seq<Visit>, x: Path, y: Path)
  {
    exists i, j :: 0 <= i < j < |visits| && visits[i].path == x && visits[j].path == y
  }

  lemma BeforeFurtherOn(visits: seq<Visit>, x: Path, y: Path)
    requires visits != [] && Before(visits[1..], x, y)
    ensures Before(visits, x, y)
  {
    var i, j :| 0 <= i < j < |visits[1..]| && visits[1..][i].path == x && visits[1..][j].path == y;
    assert visits[i + 1].path == x && visits[j + 1].path == y;
  }

  lemma FirstIsBefore(visits: seq<Visit>, j: nat)
    requires 0 < j < |visits|
    ensures Before(visits, visits[0].path, visits[j].path)
  {
  }

  // What is found comes in the order of the visits.
  lemma {:induction false} FilteredInOrder(q: Query, stage: Prim, visits: seq<Visit>, a: nat, b: nat)
    requires a < b < |Filtered(q, stage, [], visits)|
    ensures Before(visits, Filtered(q, stage, [], visits)[a], Filtered(q, stage, [], visits)[b])
    decreases |visits|
  {
    hide Clear, Selects, Before;
    var v, rest := visits[0], visits[1..];
    var own := if [] <= v.path && Clear(q, stage, [], v.path[0..]) && Selects(q, v.prim, v.path) then [v.path] else [];
    var below := Filtered(q, stage, [], rest);
    assert Filtered(q, stage, [], visits) == own + below;
    hide Filtered;
    if a >= |own| {
      FilteredInOrder(q, stage, rest, a - |own|, b - |own|);
      BeforeFurtherOn(visits, below[a - |own|], below[b - |own|]);
    } else {
      FilteredMembers(q, stage, rest, below[b - 1]);
      var j :| 0 <= j < |rest| && rest[j].path == below[b - 1];
      FirstIsBefore(visits, j + 1);
    }
  }

  lemma FoundInOrder(q: Query, stage: Prim, a: nat, b: nat)
    requires WellFormed(stage) && a < b < |Found(q, stage, [])|
    ensures Before(Preorder(stage, []), Found(q, stage, [])[a], Found(q, stage, [])[b])
  {
    hide Before;
    FoundIsFiltered(q, stage, []);
    FilteredInOrder(q, stage, Preorder(stage, []), a, b);
  }

  function MeshQuery(): Query
  {
    Query((p: Prim) => p.typeName == "Camera", (p: Prim) => p.typeName == "Light", (p: Prim) => p.typeName == "Material",
          (p: Prim) => p.typeName == "Mesh", (p: Prim) => true, (path: Path) => true, (p: Prim) => true, true)
  }

  function MaterialStage(): Prim
  {
    Prim("", "", map[], NoArcs, [Prim("M", "Material", map[], NoArcs, [Prim("m", "Mesh", map[], NoArcs, [])])])
  }

  // A mesh below a material passes the check of its ancestors, but the traversal for meshes does not find it.
  lemma MeshUnderMaterial()
    ensures SelectedAt(MeshQuery(), MaterialStage(), ["M", "m"])
    ensures AncestorsChecked(MeshQuery(), MaterialStage(), ["M", "m"])
    ensures Found(MeshQuery(), MaterialStage(), []) == []
  {
    var q, stage, path := MeshQuery(), MaterialStage(), ["M", "m"];
    var material, mesh := stage.children[0], stage.children[0].children[0];
    assert path[..1] == ["M"] && path[..2] == path && path[1..] == ["m"];
    assert At(stage, ["M"]) == Some(material) && At(material, ["m"]) == Some(mesh) && At(stage, path) == Some(mesh);
    assert !StartsWith("M", "Render") && !StartsWith("M", "OmniverseKit_") by {
      assert |"M"| == 1;
    }
    assert Found(q, material, ["M"]) == [];
    assert FoundBelow(q, [], []) == [];
    assert FoundBelow(q, stage.children, []) == [];
  }

  // ---------- Order ----------

  // No path comes after one that lies below it.
  ghost predicate AncestorsFirst(s: seq<Path>)
  {
    forall i, j :: 0 <= i < j < |s| ==> !(s[j] < s[i])
  }

  ghost predicate AllUnder(s: seq<Path>, path: Path)
  {
    forall i :: 0 <= i < |s| ==> path <= s[i]
  }

  lemma {:induction false} FoundUnder(q: Query, p: Prim, path: Path)
    ensures AllUnder(Found(q, p, path), path)
    decreases p, 1
  {
    FoundBelowUnder(q, p.children, path);
  }

  lemma {:induction false} FoundBelowUnder(q: Query, ps: seq<Prim>, path: Path)
    ensures AllUnder(FoundBelow(q, ps, path), path)
    ensures forall i :: 0 <= i < |FoundBelow(q, ps, path)| ==>
              |FoundBelow(q, ps, path)[i]| > |path| && exists j :: 0 <= j < |ps| && ps[j].name == FoundBelow(q, ps, path)[i][|path|]
    decreases ps, 0
  {
    if ps != [] {
      var here := path + [ps[0].name];
      FoundUnder(q, ps[0], here);
      FoundBelowUnder(q, ps[1..], path);
      hide Found;
      var first, rest := Found(q, ps[0], here), FoundBelow(q, ps[1..], path);
      forall i | 0 <= i < |first| ensures |first[i]| > |path| && first[i][|path|] == ps[0].name && path <= first[i] {
        assert here <= first[i];
      }
      forall i | 0 <= i < |rest| ensures exists j :: 0 <= j < |ps| && ps[j].name == rest[i][|path|] {
        var j :| 0 <= j < |ps[1..]| && ps[1..][j].name == rest[i][|path|];
        assert ps[j + 1].name == rest[i][|path|];
      }
    }
  }

  lemma {:induction false} FoundOrdered(q: Query, p: Prim, path: Path)
    requires WellFormed(p)
    ensures AncestorsFirst(Found(q, p, path))
    decreases p, 1
  {
    FoundBelowOrdered(q, p.children, path);
    FoundBelowUnder(q, p.children, path);
    hide FoundBelow;
  }

  lemma {:induction false} FoundBelowOrdered(q: Query, ps: seq<Prim>, path: Path)
    requires DistinctNames(ps) && forall i :: 0 <= i < |ps| ==> WellFormed(ps[i])
    ensures AncestorsFirst(FoundBelow(q, ps, path))
    decreases ps, 0
  {
    if ps != [] {
      var here := path + [ps[0].name];
      FoundOrdered(q, ps[0], here);
      FoundBelowOrdered(q, ps[1..], path);
      FoundUnder(q, ps[0], here);
      FoundBelowUnder(q, ps[1..], path);
      var first, rest := Found(q, ps[0], here), FoundBelow(q, ps[1..], path);
      hide Found, WellFormed;
      forall i, j | 0 <= i < |first| && 0 <= j < |rest| ensures !(rest[j] < first[i]) {
        assert here <= first[i];
        assert first[i][|path|] == ps[0].name;
        var k :| 0 <= k < |ps[1..]| && ps[1..][k].name == rest[j][|path|];
        assert ps[k + 1].name != ps[0].name;
      }
      assert FoundBelow(q, ps, path) == first + rest;
      OrderedConcat(first, rest);
    }
  }

  lemma OrderedConcat(a: seq<Path>, b: seq<Path>)
    requires AncestorsFirst(a) && AncestorsFirst(b)
    requires forall i, j :: 0 <= i < |a| && 0 <= j < |b| ==> !(b[j] < a[i])
    ensures AncestorsFirst(a + b)
  {
  }

  /** Reversed, every prim comes before all prims above it. */
  lemma ReversedIsLeavesFirst(q: Query, p: Prim, path: Path, i: nat, j: nat)
    requires WellFormed(p) && i < |Found(q, p, path)| && j < |Found(q, p, path)|
    ensures var r := Reversed(Found(q, p, path)); r[i] < r[j] ==> j < i
  {
    FoundOrdered(q, p, path);
    hide Found;
    var s := Found(q, p, path);
    if i < j {
      assert !(s[|s| - 1 - i] < s[|s| - 1 - j]);
    }
  }
}
