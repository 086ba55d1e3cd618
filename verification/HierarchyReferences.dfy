/** Replacing every duplicate by a reference to its prototype, and what a reader of the stage then sees. */
module HierarchyReferences {
  import opened Wrappers
  import opened SceneTree
  import opened Sequences
  import opened MergePlans

  // Duplicate path -> prototype path.
  type References = map<Path, Path>

  ghost function Duplicates(plan: Plan): set<Path>
  {
    set p, d | p in plan && d in plan[p] :: d
  }

  ghost function ReferencesOf(plan: Plan): (refs: References)
    requires OnePrototype(plan)
    ensures forall p, d :: Merges(plan, p, d) ==> d in refs && refs[d] == p
    ensures forall d :: d in refs ==> Merges(plan, refs[d], d)
  {
    assert forall p, d :: Merges(plan, p, d) ==> d in Duplicates(plan);
    map d | d in Duplicates(plan) :: (var p :| Merges(plan, p, d); p)
  }

  // ---------- The rewritten tree ----------

  // A duplicate keeps its own attributes, loses its children and points at the prototype.
  function Referring(p: Prim, target: Path): Prim
  {
    p.(children := [], arcs := Internal(target))
  }

  // All duplicates replaced at once; `path` is where p sits on the stage.
  function Rewrite(p: Prim, path: Path, refs: References): Prim
  {
    if path in refs then Referring(p, refs[path]) else p.(children := RewriteAll(p.children, path, refs))
  }

  function RewriteAll(ps: seq<Prim>, path: Path, refs: References): (r: seq<Prim>)
    ensures |r| == |ps| && forall i :: 0 <= i < |ps| ==> r[i] == Rewrite(ps[i], path + [ps[i].name], refs)
  {
    if ps == [] then [] else [Rewrite(ps[0], path + [ps[0].name], refs)] + RewriteAll(ps[1..], path, refs)
  }

  lemma SameNamesSameIndex(xs: seq<Prim>, ys: seq<Prim>, name: Name)
    requires |xs| == |ys| && forall i :: 0 <= i < |xs| ==> xs[i].name == ys[i].name
    ensures ChildIndex(xs, name) == ChildIndex(ys, name)
  {
  }

  // Paths that are not cut off by a duplicate still lead to the same, rewritten, prim.
  lemma {:induction false} RewriteAt(p: Prim, path: Path, more: Path, refs: References)
    requires forall d :: d in refs && path <= d ==> !(d < path + more)
    ensures At(Rewrite(p, path, refs), more)
         == match At(p, more) case None => None case Some(q) => Some(Rewrite(q, path + more, refs))
    decreases |more|
  {
    if more == [] {
      assert path + more == path;
    } else {
      assert path < path + more && path !in refs;
      SameNamesSameIndex(p.children, Rewrite(p, path, refs).children, more[0]);
      var i := ChildIndex(p.children, more[0]);
      if i < |p.children| {
        var next := path + [more[0]];
        assert next + more[1..] == path + more;
        forall d | d in refs && next <= d ensures !(d < next + more[1..]) {
          assert path <= d;
        }
        RewriteAt(p.children[i], next, more[1..], refs);
      }
    }
  }

  // ---------- One duplicate after the other ----------

  function SetAt(root: Prim, path: Path, p: Prim): Prim
    decreases |path|
  {
    if path == [] then p
    else
      var i := ChildIndex(root.children, path[0]);
      if i == |root.children| then root
      else root.(children := root.children[i := SetAt(root.children[i], path[1..], p)])
  }

  // A reference elsewhere leaves a subtree as it is.
  lemma {:induction false} RewriteElsewhere(p: Prim, path: Path, refs: References, d: Path, target: Path)
    requires !(path <= d)
    ensures Rewrite(p, path, refs[d := target]) == Rewrite(p, path, refs)
    decreases p
  {
    forall i | 0 <= i < |p.children|
      ensures Rewrite(p.children[i], path + [p.children[i].name], refs[d := target])
           == Rewrite(p.children[i], path + [p.children[i].name], refs)
    {
      assert path <= path + [p.children[i].name];
      RewriteElsewhere(p.children[i], path + [p.children[i].name], refs, d, target);
    }
  }

  lemma SiblingsElsewhere(p: Prim, path: Path, refs: References, d: Path, target: Path, i: nat)
    requires WellFormed(p) && path < d && i < |p.children| && p.children[i].name == d[|path|]
    ensures RewriteAll(p.children, path, refs[d := target])
         == RewriteAll(p.children, path, refs)[i := Rewrite(p.children[i], path + [p.children[i].name], refs[d := target])]
  {
    var before, after := RewriteAll(p.children, path, refs), RewriteAll(p.children, path, refs[d := target]);
    forall j | 0 <= j < |p.children| && j != i ensures after[j] == before[j] {
      var next := path + [p.children[j].name];
      assert next[|path|] == p.children[j].name;
      RewriteElsewhere(p.children[j], next, refs, d, target);
    }
  }

  // The tree after one duplicate at `more` below p has been replaced.
  function ReplaceOne(p: Prim, path: Path, refs: References, more: Path, target: Path): Prim
  {
    match At(p, more)
    case None => Rewrite(p, path, refs)
    case Some(q) => SetAt(Rewrite(p, path, refs), more, Referring(q, target))
  }

  lemma ReplaceBelow(p: Prim, path: Path, refs: References, more: Path, target: Path, i: nat)
    requires path !in refs && more != [] && i < |p.children| && i == ChildIndex(p.children, more[0])
    ensures ReplaceOne(p, path, refs, more, target)
         == p.(children := RewriteAll(p.children, path, refs)
                 [i := ReplaceOne(p.children[i], path + [p.children[i].name], refs, more[1..], target)])
  {
    var before, child := RewriteAll(p.children, path, refs), path + [p.children[i].name];
    assert Rewrite(p, path, refs) == p.(children := before) && before[i] == Rewrite(p.children[i], child, refs);
    assert At(p, more) == At(p.children[i], more[1..]);
    SameNamesSameIndex(p.children, before, more[0]);
    hide Rewrite, RewriteAll, Referring;
    assert before == before[i := before[i]];
  }

  // Recording one more duplicate is one update of the tree, whatever the order.
  lemma {:induction false} RewriteOneMore(p: Prim, path: Path, refs: References, d: Path, target: Path)
    requires WellFormed(p) && path <= d && d !in refs
    requires forall e :: e in refs && path <= e ==> !(e < d) && !(d < e)
    ensures Rewrite(p, path, refs[d := target]) == ReplaceOne(p, path, refs, d[|path|..], target)
    decreases p
  {
    var more := d[|path|..];
    if more == [] {
      assert d == path;
    } else {
      assert path < d && path !in refs;
      var i := ChildIndex(p.children, more[0]);
      if i == |p.children| {
        MissingElsewhere(p, path, refs, d, target);
      } else {
        var next := path + [more[0]];
        assert next <= d && d[|next|..] == more[1..];
        StillUnrelated(path, more[0], refs, d);
        RewriteOneMore(p.children[i], next, refs, d, target);
        SiblingsElsewhere(p, path, refs, d, target, i);
        ReplaceBelow(p, path, refs, more, target, i);
      }
    }
  }

  lemma StillUnrelated(path: Path, name: Name, refs: References, d: Path)
    requires forall e :: e in refs && path <= e ==> !(e < d) && !(d < e)
    ensures forall e :: e in refs && path + [name] <= e ==> !(e < d) && !(d < e)
  {
    forall e | e in refs && path + [name] <= e ensures !(e < d) && !(d < e) {
      assert path <= e;
    }
  }

  lemma MissingElsewhere(p: Prim, path: Path, refs: References, d: Path, target: Path)
    requires path < d && ChildIndex(p.children, d[|path|]) == |p.children|
    ensures RewriteAll(p.children, path, refs[d := target]) == RewriteAll(p.children, path, refs)
  {
    forall j | 0 <= j < |p.children|
      ensures RewriteAll(p.children, path, refs[d := target])[j] == RewriteAll(p.children, path, refs)[j]
    {
      var next := path + [p.children[j].name];
      assert next[|path|] == p.children[j].name;
      RewriteElsewhere(p.children[j], next, refs, d, target);
    }
  }

  // ---------- Authoring the references on the stage ----------

  class Stage {
    var root: Prim

    constructor (root: Prim)
      ensures this.root == root
    {
      this.root := root;
    }
  }

  method ReplaceDuplicate(stage: Stage, dupPath: Path, prototype: Path, ghost original: Prim, ghost done: References)
    returns (ok: bool)
    requires WellFormed(original) && stage.root == Rewrite(original, [], done)
    requires dupPath !in done && forall e :: e in done ==> !(e < dupPath) && !(dupPath < e)
    modifies stage
    ensures stage.root == Rewrite(original, [], done[dupPath := prototype])
    ensures ok <==> At(original, dupPath).Some?
  {
    RewriteOneMore(original, [], done, dupPath, prototype);
    RewriteAt(original, [], dupPath, done);
    assert dupPath[0..] == dupPath && [] + dupPath == dupPath;
    var dup := At(stage.root, dupPath);
    if dup.None? {
      return false;
    }
    var p := dup.value;
    p := p.(children := []);
    p := p.(arcs := NoArcs);
    p := p.(arcs := Internal(prototype));
    assert p == Referring(At(original, dupPath).value, prototype);
    stage.root := SetAt(stage.root, dupPath, p);
    return true;
  }

  // The references authored so far, and whether all their duplicates were found.
  ghost predicate Progress(original: Prim, root: Prim, allOk: bool, refs: References, done: References)
  {
    && (forall d :: d in done ==> d in refs && done[d] == refs[d])
    && root == Rewrite(original, [], done)
    && (allOk <==> forall d :: d in done ==> At(original, d).Some?)
  }

  lemma ProgressMore(original: Prim, root: Prim, allOk: bool, refs: References, done: References, d: Path, found: bool)
    requires allOk <==> forall e :: e in done ==> At(original, e).Some?
    requires forall e :: e in done ==> e in refs && done[e] == refs[e]
    requires d in refs && d !in done && root == Rewrite(original, [], done[d := refs[d]])
    requires found <==> At(original, d).Some?
    ensures Progress(original, root, allOk && found, refs, done[d := refs[d]])
  {
  }

  // No reference is authored below another.
  ghost predicate Flat(refs: References)
  {
    forall d, e :: d in refs && e in refs ==> !(d < e)
  }

  method ReplaceDuplicates(stage: Stage, prototype: Path, duplicates: seq<Path>, okSoFar: bool,
                           ghost refs: References, ghost original: Prim, ghost done: References)
    returns (allOk: bool, ghost done': References)
    requires WellFormed(original) && Flat(refs) && NoDuplicates(duplicates)
    requires forall d :: d in duplicates ==> d in refs && refs[d] == prototype && d !in done
    requires Progress(original, stage.root, okSoFar, refs, done)
    modifies stage
    ensures Progress(original, stage.root, allOk, refs, done')
    ensures forall d :: d in done' <==> d in done || d in duplicates
  {
    allOk, done' := okSoFar, done;
    for i := 0 to |duplicates|
      invariant Progress(original, stage.root, allOk, refs, done')
      invariant forall d :: d in done' <==> d in done || d in duplicates[..i]
    {
      var d := duplicates[i];
      NotBefore(duplicates, i);
      assert d in duplicates;
      assert d !in done';
      assert forall e :: e in done' ==> e in refs;
      assert forall e :: e in done' ==> !(e < d) && !(d < e);
      var ok := ReplaceDuplicate(stage, d, prototype, original, done');
      ProgressMore(original, stage.root, allOk, refs, done', d, ok);
      if !ok {
        allOk := false;
      }
      done' := done'[d := prototype];
      PrefixMore(duplicates, i);
    }
    assert duplicates[..|duplicates|] == duplicates;
  }

  lemma NotBefore(ds: seq<Path>, i: nat)
    requires NoDuplicates(ds) && i < |ds|
    ensures ds[i] !in ds[..i]
  {
    assert forall j :: 0 <= j < i ==> ds[..i][j] == ds[j];
  }

  lemma PrefixMore(ds: seq<Path>, i: nat)
    requires i < |ds|
    ensures forall d :: d in ds[..i + 1] <==> d in ds[..i] || d == ds[i]
  {
    assert ds[..i + 1] == ds[..i] + [ds[i]];
  }

  method ApplyInternalReferences(stage: Stage, hierarchies: Plan) returns (allOk: bool)
    requires WellFormed(stage.root) && Tidy(hierarchies)
    modifies stage
    ensures stage.root == Rewrite(old(stage.root), [], ReferencesOf(hierarchies))
    ensures allOk <==> forall d :: d in ReferencesOf(hierarchies) ==> At(old(stage.root), d).Some?
  {
    allOk := true;
    ghost var original, refs, done: References := stage.root, ReferencesOf(hierarchies), map[];
    RewriteNothing(original, []);
    ReferencesAreFlat(hierarchies);
    var todo := hierarchies.Keys;
    while todo != {}
      invariant todo <= hierarchies.Keys
      invariant forall d :: d in refs ==> (d in done <==> refs[d] !in todo)
      invariant Progress(original, stage.root, allOk, refs, done)
      decreases todo
    {
      var prototype :| prototype in todo;
      ListedReferences(hierarchies, prototype);
      allOk, done := ReplaceDuplicates(stage, prototype, hierarchies[prototype], allOk, refs, original, done);
      todo := todo - {prototype};
    }
    assert done == refs;
  }

  lemma ReferencesAreFlat(plan: Plan)
    requires Tidy(plan)
    ensures Flat(ReferencesOf(plan))
  {
    var refs := ReferencesOf(plan);
    forall d, e | d in refs && e in refs ensures !(d < e) {
      assert Merges(plan, refs[d], d) && Merges(plan, refs[e], e);
      assert IsDuplicate(plan, d) && IsDuplicate(plan, e) && Touched(plan, e);
    }
  }

  lemma ListedReferences(plan: Plan, p: Path)
    requires Tidy(plan) && p in plan
    ensures NoDuplicates(plan[p])
    ensures forall d :: d in plan[p] <==> d in ReferencesOf(plan) && ReferencesOf(plan)[d] == p
  {
    var refs := ReferencesOf(plan);
    forall d ensures d in plan[p] <==> d in refs && refs[d] == p {
      assert d in plan[p] <==> Merges(plan, p, d);
      assert d in refs ==> Merges(plan, refs[d], d);
    }
  }

  lemma {:induction false} RewriteNothing(p: Prim, path: Path)
    ensures Rewrite(p, path, map[]) == p
    decreases p
  {
    forall i | 0 <= i < |p.children| ensures Rewrite(p.children[i], path + [p.children[i].name], map[]) == p.children[i] {
      RewriteNothing(p.children[i], path + [p.children[i].name]);
    }
    assert RewriteAll(p.children, path, map[]) == p.children;
  }
}
