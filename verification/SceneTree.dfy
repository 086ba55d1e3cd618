/** The composed scene as a finite tree of prims, addressed by paths of names. */
module SceneTree {
  import opened Wrappers

  type Name = string

  // A path is the list of names leading from the root to a prim; [] is the root itself.
  type Path = seq<Name>

  /** An attribute value: `Exact` types must match exactly, `Floats` are compared within a tolerance.
      Each element of `Floats` is the tuple of components of one scalar, vector, matrix or quaternion. */
  datatype Value =
    | Exact(typeName: string, content: string)
    | Floats(typeName: string, isArray: bool, elements: seq<seq<real>>)

  // An authored attribute may be declared without carrying a value.
  type Attributes = map<Name, Option<Value>>

  /** Composition arcs of a prim. `External` stands for references or payloads that were there before;
      the content they bring in is already part of the tree. */
  datatype Arcs = NoArcs | External | Internal(target: Path)

  datatype Prim = Prim(name: Name, typeName: string, attributes: Attributes, arcs: Arcs, children: seq<Prim>)

  // ---------- Size and shape of a tree ----------

  function Size(p: Prim): (n: nat)
    ensures n >= 1
  {
    1 + SizeAll(p.children)
  }

  function SizeAll(ps: seq<Prim>): nat
  {
    if ps == [] then 0 else Size(ps[0]) + SizeAll(ps[1..])
  }

  lemma ChildSmaller(ps: seq<Prim>, i: nat)
    requires i < |ps|
    ensures Size(ps[i]) <= SizeAll(ps)
  {
    if i > 0 {
      ChildSmaller(ps[1..], i - 1);
    }
  }

  ghost predicate DistinctNames(ps: seq<Prim>)
  {
    forall i, j :: 0 <= i < j < |ps| ==> ps[i].name != ps[j].name
  }

  // Siblings have different names, everywhere in the tree.
  ghost predicate WellFormed(p: Prim)
  {
    DistinctNames(p.children) && forall i :: 0 <= i < |p.children| ==> WellFormed(p.children[i])
  }

  // No prim carries an internal reference.
  ghost predicate NoInternalArcs(p: Prim)
  {
    !p.arcs.Internal? && forall i :: 0 <= i < |p.children| ==> NoInternalArcs(p.children[i])
  }

  // ---------- Looking a prim up by its path ----------

  // Position of the first sibling with the given name, or past the end.
  function ChildIndex(ps: seq<Prim>, name: Name): (i: nat)
    ensures i <= |ps|
    ensures i < |ps| ==> ps[i].name == name
    ensures forall j :: 0 <= j < i ==> ps[j].name != name
  {
    if ps == [] || ps[0].name == name then 0 else 1 + ChildIndex(ps[1..], name)
  }

  function At(root: Prim, path: Path): Option<Prim>
    decreases |path|
  {
    if path == [] then Some(root)
    else
      var i := ChildIndex(root.children, path[0]);
      if i == |root.children| then None else At(root.children[i], path[1..])
  }

  lemma {:induction false} AtAppend(root: Prim, path: Path, more: Path)
    requires At(root, path).Some?
    ensures At(root, path + more) == At(At(root, path).value, more)
    decreases |path|
  {
    if path == [] {
      assert path + more == more;
    } else {
      AtAppend(root.children[ChildIndex(root.children, path[0])], path[1..], more);
      assert (path + more)[1..] == path[1..] + more;
    }
  }

  lemma {:induction false} WellFormedAt(root: Prim, path: Path)
    requires WellFormed(root) && At(root, path).Some?
    ensures WellFormed(At(root, path).value)
    decreases |path|
  {
    if path != [] {
      WellFormedAt(root.children[ChildIndex(root.children, path[0])], path[1..]);
    }
  }

  // The i-th child of the prim at `path` is found at `path` extended by its name.
  lemma ChildAt(root: Prim, path: Path, i: nat)
    requires WellFormed(root) && At(root, path).Some? && i < |At(root, path).value.children|
    ensures At(root, path + [At(root, path).value.children[i].name]) == Some(At(root, path).value.children[i])
  {
    var p := At(root, path).value;
    WellFormedAt(root, path);
    AtAppend(root, path, [p.children[i].name]);
    assert ChildIndex(p.children, p.children[i].name) == i;
  }

  // ---------- Preorder traversal ----------

  // A prim met by a traversal, with its path relative to where the traversal started.
  datatype Visit = Visit(path: Path, prim: Prim)

  function Preorder(p: Prim, path: Path): (vs: seq<Visit>)
    ensures |vs| == Size(p) && vs[0] == Visit(path, p)
  {
    [Visit(path, p)] + PreorderAll(p.children, path)
  }

  function PreorderAll(ps: seq<Prim>, path: Path): (vs: seq<Visit>)
    ensures |vs| == SizeAll(ps)
  {
    if ps == [] then [] else Preorder(ps[0], path + [ps[0].name]) + PreorderAll(ps[1..], path)
  }

  // ---------- Visits and paths ----------

  // Every visit shows the prim that is found by its path.
  ghost predicate VisitsAt(stage: Prim, visits: seq<Visit>)
  {
    forall i :: 0 <= i < |visits| ==> At(stage, visits[i].path) == Some(visits[i].prim)
  }

  lemma {:induction false} PreorderOnStage(stage: Prim, path: Path)
    requires WellFormed(stage) && At(stage, path).Some?
    ensures VisitsAt(stage, Preorder(At(stage, path).value, path))
    decreases At(stage, path).value, |At(stage, path).value.children| + 1
  {
    var p := At(stage, path).value;
    assert p.children[0..] == p.children;
    PreorderAllOnStage(stage, path, 0);
    hide WellFormed, At, PreorderAll;
  }

  lemma {:induction false} PreorderAllOnStage(stage: Prim, path: Path, k: nat)
    requires WellFormed(stage) && At(stage, path).Some? && k <= |At(stage, path).value.children|
    ensures VisitsAt(stage, PreorderAll(At(stage, path).value.children[k..], path))
    decreases At(stage, path).value, |At(stage, path).value.children| - k
  {
    var p := At(stage, path).value;
    if k < |p.children| {
      ChildAt(stage, path, k);
      assert p.children[k..][1..] == p.children[k + 1..];
      PreorderOnStage(stage, path + [p.children[k].name]);
      PreorderAllOnStage(stage, path, k + 1);
      hide WellFormed, At, Preorder;
    }
  }

  // Every prim of the stage is visited.
  lemma {:induction false} VisitedBelow(p: Prim, path: Path, more: Path)
    requires At(p, more).Some?
    ensures Visit(path + more, At(p, more).value) in Preorder(p, path)
    decreases |more|
  {
    if more == [] {
      assert path + more == path;
    } else {
      var i := ChildIndex(p.children, more[0]);
      VisitedBelow(p.children[i], path + [more[0]], more[1..]);
      assert path + [more[0]] + more[1..] == path + more;
      hide Preorder;
      VisitedAmong(p.children, path, i, Visit(path + more, At(p, more).value));
      PreorderIs(p, path);
    }
  }

  lemma PreorderIs(p: Prim, path: Path)
    ensures Preorder(p, path) == [Visit(path, p)] + PreorderAll(p.children, path)
  {
  }

  lemma {:induction false} VisitedAmong(ps: seq<Prim>, path: Path, i: nat, v: Visit)
    requires i < |ps| && v in Preorder(ps[i], path + [ps[i].name])
    ensures v in PreorderAll(ps, path)
  {
    hide Preorder;
    if i > 0 {
      VisitedAmong(ps[1..], path, i - 1, v);
    }
  }
}
