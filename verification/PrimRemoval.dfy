/** Deleting prims from a layer in batches: children to delete are gathered by parent, then each parent's child list is
    written once. */
module PrimRemoval {
  import opened SceneTree

  // ---------- What deletion means ----------

  // The tree without the prims of the given paths and everything below them.
  function Pruned(p: Prim, path: Path, doomed: set<Path>): Prim
  {
    p.(children := PrunedAll(p.children, path, doomed))
  }

  function PrunedAll(ps: seq<Prim>, path: Path, doomed: set<Path>): seq<Prim>
  {
    if ps == [] then []
    else
      var rest := PrunedAll(ps[1..], path, doomed);
      var here := path + [ps[0].name];
      if here in doomed then rest else [Pruned(ps[0], here, doomed)] + rest
  }

  // ---------- How it is done ----------

  function Kept(ps: seq<Prim>, names: set<Name>): seq<Prim>
  {
    if ps == [] then []
    else if ps[0].name in names then Kept(ps[1..], names) else [ps[0]] + Kept(ps[1..], names)
  }

  // Filter the child list of one prim; nothing happens when it is gone.
  function RemoveChildren(p: Prim, at: Path, names: set<Name>): Prim
    decreases |at|, 1, 0
  {
    if at == [] then p.(children := Kept(p.children, names))
    else p.(children := RemoveFromAll(p.children, at, names))
  }

  function RemoveFromAll(ps: seq<Prim>, at: Path, names: set<Name>): seq<Prim>
    requires at != []
    decreases |at|, 0, |ps|
  {
    if ps == [] then []
    else [if ps[0].name == at[0] then RemoveChildren(ps[0], at[1..], names) else ps[0]] + RemoveFromAll(ps[1..], at, names)
  }

  function Below(parent: Path, names: set<Name>): set<Path>
  {
    set n | n in names :: parent + [n]
  }

  // Paths that cannot be met below the given one do not matter.
  ghost predicate SameBelow(path: Path, a: set<Path>, b: set<Path>)
  {
    forall q :: path < q ==> (q in a <==> q in b)
  }

  lemma {:induction false} PrunedSame(p: Prim, path: Path, a: set<Path>, b: set<Path>)
    requires SameBelow(path, a, b)
    ensures Pruned(p, path, a) == Pruned(p, path, b)
    decreases p, 1
  {
    PrunedAllSame(p.children, path, a, b);
  }

  lemma {:induction false} PrunedAllSame(ps: seq<Prim>, path: Path, a: set<Path>, b: set<Path>)
    requires SameBelow(path, a, b)
    ensures PrunedAll(ps, path, a) == PrunedAll(ps, path, b)
    decreases ps, 0
  {
    if ps != [] {
      var here := path + [ps[0].name];
      assert path < here;
      assert SameBelow(here, a, b);
      hide SameBelow;
      PrunedSame(ps[0], here, a, b);
      PrunedAllSame(ps[1..], path, a, b);
    }
  }

  lemma BelowLength(parent: Path, names: set<Name>, q: Path)
    ensures q in Below(parent, names) <==> |q| == |parent| + 1 && parent < q && q[|parent|] in names
  {
    if |q| == |parent| + 1 && parent < q {
      assert q == parent + [q[|parent|]];
    }
  }

  // Filtering one child list of a pruned tree prunes it further.
  lemma {:induction false} RemoveIsPrune(p: Prim, path: Path, at: Path, names: set<Name>, doomed: set<Path>)
    ensures RemoveChildren(Pruned(p, path, doomed), at, names) == Pruned(p, path, doomed + Below(path + at, names))
    decreases |at|, 1, 0
  {
    if at == [] {
      assert path + at == path;
      KeptIsPrune(p.children, path, names, doomed);
    } else {
      RemoveAllIsPrune(p.children, path, at, names, doomed);
    }
  }

  lemma {:induction false} KeptIsPrune(ps: seq<Prim>, path: Path, names: set<Name>, doomed: set<Path>)
    ensures Kept(PrunedAll(ps, path, doomed), names) == PrunedAll(ps, path, doomed + Below(path, names))
  {
    if ps != [] {
      var here, more := path + [ps[0].name], doomed + Below(path, names);
      KeptIsPrune(ps[1..], path, names, doomed);
      BelowLength(path, names, here);
      forall q | here < q ensures q in doomed <==> q in more {
        BelowLength(path, names, q);
      }
      PrunedSame(ps[0], here, doomed, more);
      hide Below, SameBelow;
      if here !in doomed {
        assert ([Pruned(ps[0], here, doomed)] + PrunedAll(ps[1..], path, doomed))[1..] == PrunedAll(ps[1..], path, doomed);
      }
    }
  }

  lemma {:induction false} RemoveAllIsPrune(ps: seq<Prim>, path: Path, at: Path, names: set<Name>, doomed: set<Path>)
    requires at != []
    ensures RemoveFromAll(PrunedAll(ps, path, doomed), at, names) == PrunedAll(ps, path, doomed + Below(path + at, names))
    decreases |at|, 0, |ps|
  {
    if ps != [] {
      var c, here, more := ps[0], path + [ps[0].name], doomed + Below(path + at, names);
      RemoveAllIsPrune(ps[1..], path, at, names, doomed);
      BelowLength(path + at, names, here);
      assert here in more <==> here in doomed;
      if c.name == at[0] {
        assert here + at[1..] == path + at;
        RemoveIsPrune(c, here, at[1..], names, doomed);
      } else {
        forall q | here < q ensures q in doomed <==> q in more {
          BelowLength(path + at, names, q);
          assert here[|path|] == c.name && (path + at)[|path|] == at[0];
        }
        PrunedSame(c, here, doomed, more);
      }
      hide Below, SameBelow, RemoveChildren;
      if here !in doomed {
        assert ([Pruned(c, here, doomed)] + PrunedAll(ps[1..], path, doomed))[1..] == PrunedAll(ps[1..], path, doomed);
      }
    }
  }

  lemma {:induction false} NothingPruned(p: Prim, path: Path)
    ensures Pruned(p, path, {}) == p
    decreases p, 1
  {
    NonePruned(p.children, path);
  }

  lemma {:induction false} NonePruned(ps: seq<Prim>, path: Path)
    ensures PrunedAll(ps, path, {}) == ps
    decreases ps, 0
  {
    if ps != [] {
      NothingPruned(ps[0], path + [ps[0].name]);
      NonePruned(ps[1..], path);
    }
  }

  // A parent that is gone has no children to filter.
  lemma {:induction false} GoneParent(p: Prim, at: Path, names: set<Name>)
    requires WellFormed(p) && At(p, at).None?
    ensures RemoveChildren(p, at, names) == p
    decreases |at|, 1, 0
  {
    GoneFromAll(p, p.children, at, names);
  }

  lemma {:induction false} GoneFromAll(p: Prim, ps: seq<Prim>, at: Path, names: set<Name>)
    requires WellFormed(p) && At(p, at).None? && at != []
    requires forall c :: c in ps ==> c in p.children
    ensures RemoveFromAll(ps, at, names) == ps
    decreases |at|, 0, |ps|
  {
    if ps != [] {
      assert ps[0] in ps && forall c :: c in ps[1..] ==> c in ps;
      GoneFromAll(p, ps[1..], at, names);
      if ps[0].name == at[0] {
        var i :| 0 <= i < |p.children| && p.children[i] == ps[0];
        assert ChildIndex(p.children, at[0]) == i;
        GoneParent(ps[0], at[1..], names);
      }
    }
  }

  lemma {:induction false} PrunedWellFormed(p: Prim, path: Path, doomed: set<Path>)
    requires WellFormed(p)
    ensures WellFormed(Pruned(p, path, doomed))
    decreases p, 1
  {
    PrunedAllWellFormed(p.children, path, doomed);
  }

  lemma {:induction false} PrunedAllWellFormed(ps: seq<Prim>, path: Path, doomed: set<Path>)
    requires DistinctNames(ps) && forall i :: 0 <= i < |ps| ==> WellFormed(ps[i])
    ensures var r := PrunedAll(ps, path, doomed);
            && DistinctNames(r) && (forall i :: 0 <= i < |r| ==> WellFormed(r[i]))
            && (forall i :: 0 <= i < |r| ==> exists j :: 0 <= j < |ps| && ps[j].name == r[i].name)
    decreases ps, 0
  {
    if ps != [] {
      PrunedAllWellFormed(ps[1..], path, doomed);
      PrunedWellFormed(ps[0], path + [ps[0].name], doomed);
      var rest, r := PrunedAll(ps[1..], path, doomed), PrunedAll(ps, path, doomed);
      forall i | 0 <= i < |rest| ensures rest[i].name != ps[0].name && exists j :: 0 <= j < |ps| && ps[j].name == rest[i].name {
        var j :| 0 <= j < |ps[1..]| && ps[1..][j].name == rest[i].name;
        assert ps[j + 1].name == rest[i].name;
      }
      hide WellFormed, Pruned;
      assert r == rest || r == [Pruned(ps[0], path + [ps[0].name], doomed)] + rest;
      assert Pruned(ps[0], path + [ps[0].name], doomed).name == ps[0].name by { PrunedName(ps[0], path + [ps[0].name], doomed); }
    }
  }

  lemma PrunedName(p: Prim, path: Path, doomed: set<Path>)
    ensures Pruned(p, path, doomed).name == p.name
  {
  }

  // ---------- The layer ----------

  function Parent(path: Path): Path
    requires path != []
  {
    path[..|path| - 1]
  }

  function Last(path: Path): Name
    requires path != []
  {
    path[|path| - 1]
  }

  // The paths gathered under their parents.
  function Gathered(parents: map<Path, set<Name>>, keys: set<Path>): set<Path>
  {
    set k, n | k in keys && k in parents && n in parents[k] :: k + [n]
  }

  lemma GatheredMore(parents: map<Path, set<Name>>, keys: set<Path>, k: Path)
    requires k in parents
    ensures Gathered(parents, keys + {k}) == Gathered(parents, keys) + Below(k, parents[k])
  {
  }

  lemma GatheredAdd(parents: map<Path, set<Name>>, path: Path)
    requires path != []
    ensures var k := Parent(path);
            var parents' := parents[k := (if k in parents then parents[k] else {}) + {Last(path)}];
            Gathered(parents', parents'.Keys) == Gathered(parents, parents.Keys) + {path}
  {
    var k := Parent(path);
    var names := if k in parents then parents[k] else {};
    var parents' := parents[k := names + {Last(path)}];
    assert path == k + [Last(path)];
    forall q | q in Gathered(parents, parents.Keys) ensures q in Gathered(parents', parents'.Keys) {
      var l, n :| l in parents && n in parents[l] && q == l + [n];
      assert l in parents' && n in parents'[l];
    }
    assert k in parents' && Last(path) in parents'[k];
    forall q | q in Gathered(parents', parents'.Keys) ensures q in Gathered(parents, parents.Keys) || q == path {
      var l, n :| l in parents' && n in parents'[l] && q == l + [n];
      if l == k && n == Last(path) {
      } else {
        assert l in parents && n in parents[l];
      }
    }
  }

  class Layer {
    var root: Prim

    constructor (root: Prim)
      ensures this.root == root
    {
      this.root := root;
    }

    /** Whatever order the parents come in, and with prims nested in or repeated among the paths: what is left is the
        tree without them. */
    method DeletePrims(paths: seq<Path>)
      requires WellFormed(root) && forall i :: 0 <= i < |paths| ==> paths[i] != []
      modifies this
      ensures root == Pruned(old(root), [], set q | q in paths)
    {
      var parents: map<Path, set<Name>> := map[];
      for i := 0 to |paths|
        invariant root == old(root) && Gathered(parents, parents.Keys) == set q | q in paths[..i]
      {
        assert paths[..i + 1] == paths[..i] + [paths[i]];
        GatheredAdd(parents, paths[i]);
        var k := Parent(paths[i]);
        parents := parents[k := (if k in parents then parents[k] else {}) + {Last(paths[i])}];
      }
      assert paths[..|paths|] == paths;
      var todo, done := parents.Keys, {};
      NothingPruned(root, []);
      assert Gathered(parents, {}) == {};
      while todo != {}
        invariant done !! todo && done + todo == parents.Keys
        invariant root == Pruned(old(root), [], Gathered(parents, done))
        decreases todo
      {
        var k :| k in todo;
        GatheredMore(parents, done, k);
        RemoveIsPrune(old(root), [], k, parents[k], Gathered(parents, done));
        assert [] + k == k;
        PrunedWellFormed(old(root), [], Gathered(parents, done));
        if At(root, k).Some? {
          root := RemoveChildren(root, k, parents[k]);
        } else {
          GoneParent(root, k, parents[k]);
        }
        todo, done := todo - {k}, done + {k};
      }
      assert done == parents.Keys;
    }
  }

  function DeletedOneByOne(root: Prim, paths: seq<Path>): Prim
    requires forall i :: 0 <= i < |paths| ==> paths[i] != []
  {
    if paths == [] then root
    else
      var q := paths[|paths| - 1];
      RemoveChildren(DeletedOneByOne(root, paths[..|paths| - 1]), Parent(q), {Last(q)})
  }

  /** Deleting the prims one at a time, in any order, gives the same tree. */
  lemma {:induction false} OneByOneIsPruned(root: Prim, paths: seq<Path>)
    requires forall i :: 0 <= i < |paths| ==> paths[i] != []
    ensures DeletedOneByOne(root, paths) == Pruned(root, [], set q | q in paths)
  {
    if paths == [] {
      NothingPruned(root, []);
      assert (set q | q in paths) == {};
    } else {
      var init, q := paths[..|paths| - 1], paths[|paths| - 1];
      assert paths == init + [q];
      OneByOneIsPruned(root, init);
      RemoveIsPrune(root, [], Parent(q), {Last(q)}, set r | r in init);
      assert [] + Parent(q) == Parent(q);
      assert q == Parent(q) + [Last(q)];
      assert Below(Parent(q), {Last(q)}) == {q};
      assert (set r | r in init) + {q} == set r | r in paths;
    }
  }

  // ---------- Who survives ----------

  ghost predicate Survives(path: Path, rest: Path, doomed: set<Path>)
  {
    forall k :: 0 < k <= |rest| ==> path + rest[..k] !in doomed
  }

  lemma {:induction false} NoSuchChild(ps: seq<Prim>, name: Name)
    requires forall i :: 0 <= i < |ps| ==> ps[i].name != name
    ensures ChildIndex(ps, name) == |ps|
  {
  }

  lemma IndexOfCons(p: Prim, ps: seq<Prim>, name: Name)
    ensures ChildIndex([p] + ps, name) == if p.name == name then 0 else 1 + ChildIndex(ps, name)
  {
    assert ([p] + ps)[1..] == ps;
  }

  lemma {:induction false} PrunedChild(ps: seq<Prim>, path: Path, doomed: set<Path>, name: Name)
    requires DistinctNames(ps)
    ensures var r, i := PrunedAll(ps, path, doomed), ChildIndex(ps, name);
            var j := ChildIndex(r, name);
            && (j < |r| <==> i < |ps| && path + [name] !in doomed)
            && (j < |r| ==> r[j] == Pruned(ps[i], path + [name], doomed))
  {
    if ps != [] {
      var here := path + [ps[0].name];
      var c, rest := Pruned(ps[0], here, doomed), PrunedAll(ps[1..], path, doomed);
      PrunedName(ps[0], here, doomed);
      hide Pruned;
      assert PrunedAll(ps, path, doomed) == if here in doomed then rest else [c] + rest;
      PrunedChild(ps[1..], path, doomed, name);
      IndexOfCons(c, rest, name);
      IndexOfCons(ps[0], ps[1..], name);
      assert ps == [ps[0]] + ps[1..];
      if ps[0].name == name {
        assert forall i :: 0 <= i < |ps[1..]| ==> ps[1..][i] == ps[i + 1];
        NoSuchChild(ps[1..], name);
      }
      hide PrunedAll, ChildIndex;
    }
  }

  /** A prim is left exactly when neither it nor any prim above it was to be deleted, and then its own children are the
      old ones, in order, less those to be deleted. */
  lemma {:induction false} SurvivesIff(root: Prim, path: Path, rest: Path, doomed: set<Path>)
    requires WellFormed(root)
    ensures At(Pruned(root, path, doomed), rest).Some? <==> At(root, rest).Some? && Survives(path, rest, doomed)
    ensures At(Pruned(root, path, doomed), rest).Some? ==>
              At(Pruned(root, path, doomed), rest).value == Pruned(At(root, rest).value, path + rest, doomed)
    decreases |rest|
  {
    if rest == [] {
      assert path + rest == path;
    } else {
      PrunedChild(root.children, path, doomed, rest[0]);
      var here := path + [rest[0]];
      var i := ChildIndex(root.children, rest[0]);
      assert rest[..1] == [rest[0]];
      assert Survives(path, rest, doomed) <==> here !in doomed && Survives(here, rest[1..], doomed) by {
        forall k | 0 < k <= |rest| ensures path + rest[..k] == here + rest[1..][..k - 1] {
        }
        if here !in doomed && Survives(here, rest[1..], doomed) {
          forall k | 0 < k <= |rest| ensures path + rest[..k] !in doomed {
            if k > 1 {
              assert here + rest[1..][..k - 1] !in doomed;
            } else {
              assert here + rest[1..][..0] == here;
            }
          }
        }
        if Survives(path, rest, doomed) {
          assert path + rest[..1] !in doomed;
          forall k | 0 < k <= |rest[1..]| ensures here + rest[1..][..k] !in doomed {
            assert path + rest[..k + 1] == here + rest[1..][..k];
          }
        }
      }
      if i < |root.children| && here !in doomed {
        SurvivesIff(root.children[i], here, rest[1..], doomed);
        assert here + rest[1..] == path + rest;
      }
    }
  }
}
