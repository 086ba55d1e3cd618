/** What a reader of the deduplicated stage sees: expanding every reference gives the original tree back,
    exactly when no duplicate declares a placement attribute without a value that its prototype does have. */
module HierarchyMeaning {
  import opened Wrappers
  import opened SceneTree
  import opened Matching
  import opened LevelMerging
  import opened MergePlans
  import opened HierarchySearch
  import opened HierarchyReferences

  // ---------- What a reader of the stage sees ----------

  function MergeAttributes(local: Attributes, weaker: Attributes): Attributes
  {
    map n | n in local.Keys + weaker.Keys ::
      if n in local && local[n].Some? then local[n] else if n in weaker then weaker[n] else local[n]
  }

  /** Composition: a prim with an internal reference shows its own attributes over those of the target, and the
      target's children; None when a reference leads nowhere or the fuel runs out. */
  function Expand(stage: Prim, p: Prim, fuel: nat): (r: Option<Prim>)
    ensures r.Some? ==> r.value.name == p.name
    decreases fuel, 0
  {
    if fuel == 0 then None
    else
      match p.arcs
      case Internal(target) => (
        match At(stage, target)
        case None => None
        case Some(q) =>
          match Expand(stage, q, fuel - 1)
          case None => None
          case Some(e) => Some(Prim(p.name, p.typeName, MergeAttributes(p.attributes, e.attributes), NoArcs, e.children))
      )
      case _ =>
        match ExpandAll(stage, p.children, fuel - 1)
        case None => None
        case Some(cs) => Some(Prim(p.name, p.typeName, p.attributes, NoArcs, cs))
  }

  function ExpandAll(stage: Prim, ps: seq<Prim>, fuel: nat): (r: Option<seq<Prim>>)
    ensures r.Some? ==> |r.value| == |ps| && forall i :: 0 <= i < |ps| ==> Expand(stage, ps[i], fuel) == Some(r.value[i])
    ensures (forall i :: 0 <= i < |ps| ==> Expand(stage, ps[i], fuel).Some?) ==> r.Some?
    decreases fuel, |ps|
  {
    if ps == [] then Some([])
    else
      match (Expand(stage, ps[0], fuel), ExpandAll(stage, ps[1..], fuel))
      case (Some(e), Some(es)) => Some([e] + es)
      case _ => None
  }

  // ---------- Reading the rewritten stage ----------

  // What the search hands to the rewriting phase.
  ghost predicate Prepared(original: Prim, plan: Plan, cfg: Config)
  {
    WellFormed(original) && NoInternalArcs(original) && Tidy(plan) && MergesCopies(original, plan, cfg)
  }

  ghost function Rewritten(original: Prim, plan: Plan): Prim
    requires Tidy(plan)
  {
    Rewrite(original, [], ReferencesOf(plan))
  }

  // No duplicate lies strictly above the path.
  ghost predicate Reachable(plan: Plan, path: Path)
  {
    forall d :: IsDuplicate(plan, d) ==> !(d < path)
  }

  /** The guard that decides whether placement survives: where the duplicate declares an xform property without a
      value, the prototype must not carry a value for it. */
  ghost predicate PlacementKept(original: Prim, p: Path, d: Path)
    requires At(original, p).Some? && At(original, d).Some?
  {
    forall n :: n in At(original, d).value.attributes && n in At(original, p).value.attributes && IsXformProperty(n) ==>
      At(original, d).value.attributes[n].None? ==> At(original, p).value.attributes[n].None?
  }

  ghost predicate AllPlacementsKept(original: Prim, plan: Plan, cfg: Config)
    requires MergesCopies(original, plan, cfg)
  {
    forall p, d :: Merges(plan, p, d) ==> AreCopies(original, p, d, cfg) && PlacementKept(original, p, d)
  }

  lemma {:induction false} NoInternalArcsAt(root: Prim, path: Path)
    requires NoInternalArcs(root) && At(root, path).Some?
    ensures !At(root, path).value.arcs.Internal?
    decreases |path|
  {
    if path != [] {
      NoInternalArcsAt(root.children[ChildIndex(root.children, path[0])], path[1..]);
    }
  }

  lemma PrototypeReachable(plan: Plan, p: Path, d: Path)
    requires Tidy(plan) && Merges(plan, p, d)
    ensures Reachable(plan, p) && p !in ReferencesOf(plan)
  {
    assert Touched(plan, p);
  }

  lemma ReachableChild(plan: Plan, path: Path, name: Name)
    requires Tidy(plan) && Reachable(plan, path) && path !in ReferencesOf(plan)
    ensures Reachable(plan, path + [name])
  {
    forall d | IsDuplicate(plan, d) ensures !(d < path + [name]) {
      PrefixOfExtension(d, path, name);
      var p :| Merges(plan, p, d);
      assert d != path;
    }
  }

  // A reachable path leads to the rewritten prim.
  lemma RewrittenAt(original: Prim, plan: Plan, path: Path)
    requires Tidy(plan) && Reachable(plan, path) && At(original, path).Some?
    ensures At(Rewritten(original, plan), path) == Some(Rewrite(At(original, path).value, path, ReferencesOf(plan)))
  {
    forall d | d in ReferencesOf(plan) && [] <= d ensures !(d < [] + path) {
      assert [] + path == path;
      assert Merges(plan, ReferencesOf(plan)[d], d) && IsDuplicate(plan, d);
    }
    RewriteAt(original, [], path, ReferencesOf(plan));
    assert [] + path == path;
  }

  /** What is authored: a duplicate keeps its name, type and attributes, refers to its prototype and has no children any
      more; every other prim that is not below a duplicate keeps everything, but for what becomes of its children. */
  lemma RewrittenPrim(original: Prim, plan: Plan, cfg: Config, path: Path)
    requires Prepared(original, plan, cfg) && Reachable(plan, path) && At(original, path).Some?
    ensures At(Rewritten(original, plan), path).Some?
    ensures var (c, r) := (At(original, path).value, At(Rewritten(original, plan), path).value);
            && (forall p :: Merges(plan, p, path) ==> r == Prim(c.name, c.typeName, c.attributes, Internal(p), []))
            && (!IsDuplicate(plan, path) ==>
                  && r.name == c.name && r.typeName == c.typeName && r.attributes == c.attributes && r.arcs == c.arcs
                  && |r.children| == |c.children|
                  && forall i :: 0 <= i < |c.children| ==> r.children[i].name == c.children[i].name)
  {
    RewrittenAt(original, plan, path);
    if path in ReferencesOf(plan) {
      assert Merges(plan, ReferencesOf(plan)[path], path) && IsDuplicate(plan, path);
    } else {
      forall p ensures !Merges(plan, p, path) {
      }
    }
    hide Rewritten, Reachable, WellFormed, NoInternalArcs, MergesCopies;
  }

  // Fuel that suffices to expand the prim at `path`: children are smaller, a prototype is no duplicate.
  ghost function Need(p: Prim, path: Path, plan: Plan): nat
    requires Tidy(plan)
  {
    2 * Size(p) - (if path in ReferencesOf(plan) then 0 else 1)
  }

  // The prim at `path` as the reader finds it.
  ghost function Read(original: Prim, plan: Plan, path: Path, fuel: nat): Option<Prim>
    requires Tidy(plan) && At(original, path).Some?
  {
    Expand(Rewritten(original, plan), Rewrite(At(original, path).value, path, ReferencesOf(plan)), fuel)
  }

  lemma ReferenceIsCopy(original: Prim, plan: Plan, cfg: Config, d: Path)
    requires Prepared(original, plan, cfg) && d in ReferencesOf(plan)
    ensures Merges(plan, ReferencesOf(plan)[d], d) && AreCopies(original, ReferencesOf(plan)[d], d, cfg)
    ensures Size(At(original, ReferencesOf(plan)[d]).value) == Size(At(original, d).value)
    ensures Reachable(plan, ReferencesOf(plan)[d]) && ReferencesOf(plan)[d] !in ReferencesOf(plan)
  {
    var p := ReferencesOf(plan)[d];
    assert Merges(plan, p, d);
    KeyDeterminesShape(At(original, p).value, At(original, d).value);
    SameShapeSameSize(At(original, p).value, At(original, d).value);
    PrototypeReachable(plan, p, d);
  }

  lemma ExpandReference(stage: Prim, p: Prim, target: Path, q: Prim, e: Prim, fuel: nat)
    requires fuel > 0 && At(stage, target) == Some(q) && Expand(stage, q, fuel - 1) == Some(e)
    ensures Expand(stage, Referring(p, target), fuel)
         == Some(Prim(p.name, p.typeName, MergeAttributes(p.attributes, e.attributes), NoArcs, e.children))
  {
  }

  lemma ExpandPrim(stage: Prim, p: Prim, children: seq<Prim>, fuel: nat)
    requires fuel > 0 && !p.arcs.Internal?
    requires forall i :: 0 <= i < |children| ==> Expand(stage, children[i], fuel - 1).Some?
    ensures var r := Expand(stage, p.(children := children), fuel);
            && r.Some?
            && r.value == p.(arcs := NoArcs, children := r.value.children)
            && |r.value.children| == |children|
            && forall i :: 0 <= i < |children| ==> Expand(stage, children[i], fuel - 1) == Some(r.value.children[i])
  {
  }

  // A duplicate reads like its prototype, with its own attributes on top.
  lemma ReadDuplicate(original: Prim, plan: Plan, cfg: Config, d: Path, fuel: nat)
    requires Prepared(original, plan, cfg) && Reachable(plan, d) && At(original, d).Some? && d in ReferencesOf(plan)
    requires fuel > 0
    ensures At(original, ReferencesOf(plan)[d]).Some?
    ensures Read(original, plan, ReferencesOf(plan)[d], fuel - 1).Some? ==>
              var (p, e) := (At(original, d).value, Read(original, plan, ReferencesOf(plan)[d], fuel - 1).value);
              Read(original, plan, d, fuel)
              == Some(Prim(p.name, p.typeName, MergeAttributes(p.attributes, e.attributes), NoArcs, e.children))
  {
    var target := ReferencesOf(plan)[d];
    ReferenceIsCopy(original, plan, cfg, d);
    RewrittenAt(original, plan, target);
    var q := Rewrite(At(original, target).value, target, ReferencesOf(plan));
    var r := Expand(Rewritten(original, plan), q, fuel - 1);
    if r.Some? {
      ExpandReference(Rewritten(original, plan), At(original, d).value, target, q, r.value, fuel);
    }
  }

  // Any other prim reads as itself, with its children as they read.
  lemma ReadPlain(original: Prim, plan: Plan, cfg: Config, path: Path, fuel: nat)
    requires Prepared(original, plan, cfg) && At(original, path).Some? && path !in ReferencesOf(plan)
    requires fuel > 0
    requires forall i :: 0 <= i < |At(original, path).value.children| ==>
               var child := path + [At(original, path).value.children[i].name];
               At(original, child).Some? && Read(original, plan, child, fuel - 1).Some?
    ensures var p := At(original, path).value;
            var r := Read(original, plan, path, fuel);
            && r.Some? && r.value == p.(arcs := NoArcs, children := r.value.children)
            && |r.value.children| == |p.children|
            && forall i :: 0 <= i < |p.children| ==>
                 Read(original, plan, path + [p.children[i].name], fuel - 1) == Some(r.value.children[i])
  {
    var p, refs := At(original, path).value, ReferencesOf(plan);
    NoInternalArcsAt(original, path);
    forall i | 0 <= i < |p.children|
      ensures Read(original, plan, path + [p.children[i].name], fuel - 1)
           == Expand(Rewritten(original, plan), RewriteAll(p.children, path, refs)[i], fuel - 1)
    {
      ChildAt(original, path, i);
    }
    ExpandPrim(Rewritten(original, plan), p, RewriteAll(p.children, path, refs), fuel);
  }

  // What the induction needs about the i-th child.
  lemma ChildIsReachable(original: Prim, plan: Plan, cfg: Config, path: Path, i: nat)
    requires Prepared(original, plan, cfg) && Reachable(plan, path) && At(original, path).Some?
    requires path !in ReferencesOf(plan) && i < |At(original, path).value.children|
    ensures var p := At(original, path).value;
            var child := path + [p.children[i].name];
            && At(original, child) == Some(p.children[i]) && Reachable(plan, child)
            && Size(p.children[i]) < Size(p) && Need(p.children[i], child, plan) < Need(p, path, plan)
  {
    var p := At(original, path).value;
    ChildAt(original, path, i);
    ChildSmaller(p.children, i);
    ReachableChild(plan, path, p.children[i].name);
  }

  // Every reachable prim can be read, whatever the tolerance: references are never dangling nor cyclic.
  lemma {:induction false} Readable(original: Prim, plan: Plan, cfg: Config, path: Path, fuel: nat)
    requires Prepared(original, plan, cfg) && Reachable(plan, path) && At(original, path).Some?
    requires fuel >= Need(At(original, path).value, path, plan)
    ensures Read(original, plan, path, fuel).Some?
    decreases Size(At(original, path).value), if path in ReferencesOf(plan) then 1 else 0
  {
    hide WellFormed, NoInternalArcs, Tidy, MergesCopies, AreCopies, Reachable, Read;
    if path in ReferencesOf(plan) {
      ReferenceIsCopy(original, plan, cfg, path);
      Readable(original, plan, cfg, ReferencesOf(plan)[path], fuel - 1);
      ReadDuplicate(original, plan, cfg, path, fuel);
    } else {
      var p := At(original, path).value;
      forall i | 0 <= i < |p.children|
        ensures At(original, path + [p.children[i].name]).Some?
        ensures Read(original, plan, path + [p.children[i].name], fuel - 1).Some?
      {
        ChildIsReachable(original, plan, cfg, path, i);
        Readable(original, plan, cfg, path + [p.children[i].name], fuel - 1);
      }
      ReadPlain(original, plan, cfg, path, fuel);
    }
  }

  // ---------- Exact matching: the original comes back ----------

  lemma MergedAttributes(dup: Attributes, proto: Attributes)
    requires dup.Keys == proto.Keys && forall n :: n in dup && !IsXformProperty(n) ==> dup[n] == proto[n]
    ensures MergeAttributes(dup, proto) == dup <==>
              forall n :: n in dup && n in proto && IsXformProperty(n) ==> dup[n].None? ==> proto[n].None?
  {
    var merged := MergeAttributes(dup, proto);
    assert merged.Keys == dup.Keys;
    if merged == dup {
      forall n | n in dup && n in proto && IsXformProperty(n) && dup[n].None? ensures proto[n].None? {
        assert merged[n] == dup[n];
      }
    }
  }

  // On an exact copy, merging in the prototype's attributes changes nothing exactly when the placement is kept.
  lemma CopyReadsBack(original: Prim, plan: Plan, cfg: Config, d: Path)
    requires Prepared(original, plan, cfg) && ExactMatching(cfg) && d in ReferencesOf(plan)
    ensures AreCopies(original, ReferencesOf(plan)[d], d, cfg)
    ensures var (p, q) := (At(original, d).value, At(original, ReferencesOf(plan)[d]).value);
            && p.typeName == q.typeName && PlainAll(q.children) == PlainAll(p.children)
            && (MergeAttributes(p.attributes, q.attributes) == p.attributes
                <==> PlacementKept(original, ReferencesOf(plan)[d], d))
  {
    ReferenceIsCopy(original, plan, cfg, d);
    var p, q := At(original, d).value, At(original, ReferencesOf(plan)[d]).value;
    ExactMatchMeansCopy(q, p, cfg);
    MergedAttributes(p.attributes, q.attributes);
  }

  lemma DuplicateReadsBack(original: Prim, plan: Plan, cfg: Config, d: Path, fuel: nat)
    requires Prepared(original, plan, cfg) && ExactMatching(cfg) && AllPlacementsKept(original, plan, cfg)
    requires Reachable(plan, d) && At(original, d).Some? && d in ReferencesOf(plan) && fuel > 0
    requires At(original, ReferencesOf(plan)[d]).Some?
    requires Read(original, plan, ReferencesOf(plan)[d], fuel - 1) == Some(Plain(At(original, ReferencesOf(plan)[d]).value))
    ensures Read(original, plan, d, fuel) == Some(Plain(At(original, d).value))
  {
    ReadDuplicate(original, plan, cfg, d, fuel);
    CopyReadsBack(original, plan, cfg, d);
    assert Merges(plan, ReferencesOf(plan)[d], d);
  }

  lemma PlainReadsBack(original: Prim, plan: Plan, cfg: Config, path: Path, fuel: nat)
    requires Prepared(original, plan, cfg) && At(original, path).Some? && path !in ReferencesOf(plan) && fuel > 0
    requires forall i :: 0 <= i < |At(original, path).value.children| ==>
               var c := At(original, path).value.children[i];
               At(original, path + [c.name]).Some? && Read(original, plan, path + [c.name], fuel - 1) == Some(Plain(c))
    ensures Read(original, plan, path, fuel) == Some(Plain(At(original, path).value))
  {
    ReadPlain(original, plan, cfg, path, fuel);
    assert Read(original, plan, path, fuel).value.children == PlainAll(At(original, path).value.children);
  }

  lemma {:induction false} ReadsBack(original: Prim, plan: Plan, cfg: Config, path: Path, fuel: nat)
    requires Prepared(original, plan, cfg) && ExactMatching(cfg) && AllPlacementsKept(original, plan, cfg)
    requires Reachable(plan, path) && At(original, path).Some?
    requires fuel >= Need(At(original, path).value, path, plan)
    ensures Read(original, plan, path, fuel) == Some(Plain(At(original, path).value))
    decreases Size(At(original, path).value), if path in ReferencesOf(plan) then 1 else 0
  {
    hide WellFormed, NoInternalArcs, Tidy, MergesCopies, AreCopies, Reachable, Read, AllPlacementsKept, Plain, ExactMatching;
    if path in ReferencesOf(plan) {
      ReferenceIsCopy(original, plan, cfg, path);
      ReadsBack(original, plan, cfg, ReferencesOf(plan)[path], fuel - 1);
      DuplicateReadsBack(original, plan, cfg, path, fuel);
    } else {
      var p := At(original, path).value;
      forall i | 0 <= i < |p.children|
        ensures At(original, path + [p.children[i].name]).Some?
        ensures Read(original, plan, path + [p.children[i].name], fuel - 1) == Some(Plain(p.children[i]))
      {
        ChildIsReachable(original, plan, cfg, path, i);
        ReadsBack(original, plan, cfg, path + [p.children[i].name], fuel - 1);
      }
      PlainReadsBack(original, plan, cfg, path, fuel);
    }
  }

  // ---------- Reading below a prim ----------

  lemma {:induction false} PlainAt(p: Prim, path: Path)
    requires At(p, path).Some?
    ensures At(Plain(p), path) == Some(Plain(At(p, path).value))
    decreases |path|
  {
    if path != [] {
      SameNamesSameIndex(p.children, PlainAll(p.children), path[0]);
      PlainAt(p.children[ChildIndex(p.children, path[0])], path[1..]);
    }
  }

  lemma ReadPlainFully(original: Prim, plan: Plan, cfg: Config, path: Path, fuel: nat)
    requires Prepared(original, plan, cfg) && Reachable(plan, path) && At(original, path).Some?
    requires path !in ReferencesOf(plan) && fuel >= Need(At(original, path).value, path, plan)
    ensures var p := At(original, path).value;
            var r := Read(original, plan, path, fuel);
            && r.Some? && r.value == p.(arcs := NoArcs, children := r.value.children)
            && |r.value.children| == |p.children|
            && forall i :: 0 <= i < |p.children| ==>
                 At(original, path + [p.children[i].name]).Some? &&
                 Read(original, plan, path + [p.children[i].name], fuel - 1) == Some(r.value.children[i])
  {
    hide WellFormed, NoInternalArcs, Tidy, MergesCopies, AreCopies, Reachable, Read;
    var p := At(original, path).value;
    forall i | 0 <= i < |p.children|
      ensures At(original, path + [p.children[i].name]).Some?
      ensures Read(original, plan, path + [p.children[i].name], fuel - 1).Some?
    {
      ChildIsReachable(original, plan, cfg, path, i);
      Readable(original, plan, cfg, path + [p.children[i].name], fuel - 1);
    }
    ReadPlain(original, plan, cfg, path, fuel);
  }

  // Down to a duplicate, reading and looking up commute.
  lemma {:induction false} ReadDown(original: Prim, plan: Plan, cfg: Config, path: Path, more: Path, fuel: nat)
    requires Prepared(original, plan, cfg) && Reachable(plan, path + more)
    requires At(original, path).Some? && At(original, path + more).Some?
    requires fuel >= Need(At(original, path).value, path, plan)
    ensures Reachable(plan, path) && Read(original, plan, path, fuel).Some?
    ensures fuel >= |more| && fuel - |more| >= Need(At(original, path + more).value, path + more, plan)
    ensures At(Read(original, plan, path, fuel).value, more) == Read(original, plan, path + more, fuel - |more|)
    decreases |more|
  {
    hide WellFormed, NoInternalArcs, Tidy, MergesCopies, AreCopies, Reachable, Read, Need;
    ReachablePrefix(plan, path, more);
    Readable(original, plan, cfg, path, fuel);
    if more == [] {
      assert path + more == path;
    } else {
      var child := path + [more[0]];
      assert child + more[1..] == path + more;
      StepDown(original, plan, cfg, path, more, fuel);
      ReadDown(original, plan, cfg, child, more[1..], fuel - 1);
    }
  }

  // One step of the way: the child exists, reads with one unit of fuel less, and is found under its name.
  lemma StepDown(original: Prim, plan: Plan, cfg: Config, path: Path, more: Path, fuel: nat)
    requires Prepared(original, plan, cfg) && Reachable(plan, path) && Reachable(plan, path + more) && more != []
    requires At(original, path).Some? && At(original, path + more).Some?
    requires fuel >= Need(At(original, path).value, path, plan) && Read(original, plan, path, fuel).Some?
    ensures fuel > 0 && At(original, path + [more[0]]).Some?
    ensures fuel - 1 >= Need(At(original, path + [more[0]]).value, path + [more[0]], plan)
    ensures Read(original, plan, path + [more[0]], fuel - 1).Some? ==>
              At(Read(original, plan, path, fuel).value, more)
              == At(Read(original, plan, path + [more[0]], fuel - 1).value, more[1..])
  {
    NotDuplicateAbove(plan, path, more);
    var p := At(original, path).value;
    AtAppend(original, path, more);
    var i := ChildIndex(p.children, more[0]);
    ReadPlainFully(original, plan, cfg, path, fuel);
    ChildIsReachable(original, plan, cfg, path, i);
    NamesAsRead(original, plan, cfg, path, fuel);
    SameNamesSameIndex(p.children, Read(original, plan, path, fuel).value.children, more[0]);
  }

  lemma ReachablePrefix(plan: Plan, path: Path, more: Path)
    requires Reachable(plan, path + more)
    ensures Reachable(plan, path)
  {
    forall d | IsDuplicate(plan, d) ensures !(d < path) {
      assert d < path ==> d < path + more;
    }
  }

  lemma NotDuplicateAbove(plan: Plan, path: Path, more: Path)
    requires Tidy(plan) && Reachable(plan, path + more) && more != []
    ensures path !in ReferencesOf(plan)
  {
    if path in ReferencesOf(plan) {
      assert Merges(plan, ReferencesOf(plan)[path], path) && IsDuplicate(plan, path) && path < path + more;
    }
  }

  // Names are read unchanged.
  lemma NameAsRead(original: Prim, plan: Plan, path: Path, fuel: nat)
    requires Tidy(plan) && At(original, path).Some? && Read(original, plan, path, fuel).Some?
    ensures Read(original, plan, path, fuel).value.name == At(original, path).value.name
  {
  }

  lemma NamesAsRead(original: Prim, plan: Plan, cfg: Config, path: Path, fuel: nat)
    requires Prepared(original, plan, cfg) && Reachable(plan, path) && At(original, path).Some?
    requires path !in ReferencesOf(plan) && fuel >= Need(At(original, path).value, path, plan)
    ensures Read(original, plan, path, fuel).Some?
    ensures var (p, r) := (At(original, path).value, Read(original, plan, path, fuel).value);
            |r.children| == |p.children| && forall i :: 0 <= i < |p.children| ==> r.children[i].name == p.children[i].name
  {
    hide WellFormed, NoInternalArcs, Tidy, MergesCopies, AreCopies, Reachable, Read;
    ReadPlainFully(original, plan, cfg, path, fuel);
    var p, r := At(original, path).value, Read(original, plan, path, fuel).value;
    forall i | 0 <= i < |p.children| ensures r.children[i].name == p.children[i].name {
      ChildAt(original, path, i);
      NameAsRead(original, plan, path + [p.children[i].name], fuel - 1);
    }
  }

  // If the whole stage reads back, then in particular each duplicate does.
  lemma DuplicateIsRead(original: Prim, plan: Plan, cfg: Config, d: Path, fuel: nat) returns (rest: nat)
    requires Prepared(original, plan, cfg) && d in ReferencesOf(plan)
    requires fuel >= 2 * Size(original) && Read(original, plan, [], fuel) == Some(Plain(original))
    ensures At(original, d).Some? && Reachable(plan, d) && Merges(plan, ReferencesOf(plan)[d], d)
    ensures rest >= 2 * Size(At(original, d).value) && Read(original, plan, d, rest) == Some(Plain(At(original, d).value))
  {
    hide WellFormed, NoInternalArcs, Tidy, MergesCopies, AreCopies, Reachable, Read;
    ReferenceIsCopy(original, plan, cfg, d);
    DuplicateReachable(plan, ReferencesOf(plan)[d], d);
    assert [] + d == d;
    ReadDown(original, plan, cfg, [], d, fuel);
    PlainAt(original, d);
    rest := fuel - |d|;
  }

  // So its placement was kept.
  lemma PlacementMustBeKept(original: Prim, plan: Plan, cfg: Config, d: Path, fuel: nat)
    requires Prepared(original, plan, cfg) && ExactMatching(cfg) && d in ReferencesOf(plan)
    requires fuel >= 2 * Size(original) && Read(original, plan, [], fuel) == Some(Plain(original))
    ensures AreCopies(original, ReferencesOf(plan)[d], d, cfg) && PlacementKept(original, ReferencesOf(plan)[d], d)
  {
    hide WellFormed, NoInternalArcs, Tidy, MergesCopies, AreCopies, Reachable, Read, PlacementKept, ExactMatching;
    var rest := DuplicateIsRead(original, plan, cfg, d, fuel);
    ReferenceIsCopy(original, plan, cfg, d);
    var target := ReferencesOf(plan)[d];
    ReadPlainFully(original, plan, cfg, target, rest - 1);
    ReadDuplicate(original, plan, cfg, d, rest);
    CopyReadsBack(original, plan, cfg, d);
    hide MergeAttributes, PlainAll;
  }

  lemma DuplicateReachable(plan: Plan, p: Path, d: Path)
    requires Tidy(plan) && Merges(plan, p, d)
    ensures Reachable(plan, d)
  {
    assert IsDuplicate(plan, d) && Touched(plan, d);
  }

  /** Finding duplicates and replacing them by references loses nothing: expanding every reference of the rewritten
      stage gives the original tree, exactly when every merged placement is kept. */
  lemma DeduplicationIsLossless(original: Prim, plan: Plan, cfg: Config, fuel: nat)
    requires Prepared(original, plan, cfg) && ExactMatching(cfg) && fuel >= 2 * Size(original)
    ensures Expand(Rewritten(original, plan), Rewritten(original, plan), fuel) == Some(Plain(original))
            <==> AllPlacementsKept(original, plan, cfg)
  {
    assert Reachable(plan, []);
    if AllPlacementsKept(original, plan, cfg) {
      ReadsBack(original, plan, cfg, [], fuel);
    }
    if Read(original, plan, [], fuel) == Some(Plain(original)) {
      forall p, d | Merges(plan, p, d) ensures PlacementKept(original, p, d) {
        PlacementMustBeKept(original, plan, cfg, d, fuel);
      }
    }
  }

  // Expanding all references of the rewritten stage gives the original.
  ghost predicate Restored(original: Prim, plan: Plan)
    requires Tidy(plan)
  {
    forall fuel :: fuel >= 2 * Size(original) ==>
      Expand(Rewritten(original, plan), Rewritten(original, plan), fuel) == Some(Plain(original))
  }

  lemma RestoredIff(original: Prim, plan: Plan, cfg: Config)
    requires Prepared(original, plan, cfg) && ExactMatching(cfg)
    ensures Restored(original, plan) <==> AllPlacementsKept(original, plan, cfg)
  {
    hide Expand, Rewritten, Plain, Size, AllPlacementsKept, WellFormed, NoInternalArcs, Tidy, MergesCopies, ExactMatching;
    var enough: nat := 2 * Size(original);
    if Restored(original, plan) {
      assert Expand(Rewritten(original, plan), Rewritten(original, plan), enough) == Some(Plain(original));
      DeduplicationIsLossless(original, plan, cfg, enough);
    }
    if AllPlacementsKept(original, plan, cfg) {
      forall fuel: nat | fuel >= 2 * Size(original)
        ensures Expand(Rewritten(original, plan), Rewritten(original, plan), fuel) == Some(Plain(original)) {
        DeduplicationIsLossless(original, plan, cfg, fuel);
      }
    }
  }

  // What the search plans when it starts from these prims.
  ghost function PlanFrom(original: Prim, starting: seq<Handle>, cfg: Config, maxDepth: nat): (plan: Plan)
    requires WellFormed(original) && Unrelated(starting) && OnStage(original, starting)
    ensures Tidy(plan) && MergesCopies(original, plan, cfg)
  {
    SearchIsSound(original, starting, cfg, maxDepth);
    Search(original, starting, map[], cfg, 1, maxDepth)
  }

  // Two copies, of which d declares an xform property without a value that p has.
  ghost predicate LosesPlacement(original: Prim, p: Path, d: Path, cfg: Config)
  {
    AreCopies(original, p, d, cfg) && !PlacementKept(original, p, d)
  }

  ghost predicate CopiesKeepPlacements(original: Prim, cfg: Config)
  {
    forall p, d :: !LosesPlacement(original, p, d, cfg)
  }

  lemma KeptIffNoneLost(original: Prim, plan: Plan, cfg: Config)
    requires MergesCopies(original, plan, cfg)
    ensures AllPlacementsKept(original, plan, cfg) <==> forall p, d :: Merges(plan, p, d) ==> !LosesPlacement(original, p, d, cfg)
  {
    hide PlacementKept;
    forall p, d | Merges(plan, p, d) ensures AreCopies(original, p, d, cfg) {
    }
    hide AreCopies, MergesCopies;
  }

  lemma PairIsPlanned(cfg: Config, h: Handle, g: Handle)
    requires !(h.path <= g.path) && !(g.path <= h.path)
    requires !IsMaterialRelated(h.prim) && !IsMaterialRelated(g.prim) && h.prim.arcs == g.prim.arcs == NoArcs
    requires StructuralKey(h.prim) == StructuralKey(g.prim) && SubtreeValuesMatch(h.prim, g.prim, cfg)
    ensures Unrelated([h, g]) && Merges(LevelPlan([h, g], cfg), h.path, g.path)
  {
    hide StructuralKey, SubtreeValuesMatch, IsMaterialRelated, FollowersOf, LevelPlan;
    PairMerges(h, g, LevelRules(cfg));
    assert h in [h, g];
    LinkedIsPlanned([h, g], cfg, h);
    var plan := LevelPlan([h, g], cfg);
    assert plan[h.path] == PathsOf([g], LevelRules(cfg).path);
    assert plan[h.path][0] == g.path;
  }

  // Of any two copies, some search makes the one a reference to the other.
  lemma CopiesMerge(original: Prim, cfg: Config, p: Path, d: Path) returns (starting: seq<Handle>)
    requires WellFormed(original) && AreCopies(original, p, d, cfg)
    ensures Unrelated(starting) && OnStage(original, starting)
    ensures Merges(PlanFrom(original, starting, cfg, 1), p, d)
  {
    hide StructuralKey, SubtreeValuesMatch, IsMaterialRelated, WellFormed, LevelPlan, Tidy, MergesCopies, Unrelated, Search;
    var h, g := Handle(p, At(original, p).value), Handle(d, At(original, d).value);
    starting := [h, g];
    PairIsPlanned(cfg, h, g);
    SearchFirstLevel(original, starting, cfg);
  }

  // With depth limit 1 the search is its first level.
  lemma SearchFirstLevel(stage: Prim, level: seq<Handle>, cfg: Config)
    requires WellFormed(stage) && Unrelated(level) && OnStage(stage, level) && level != []
    ensures Below(level, map[]) && Search(stage, level, map[], cfg, 1, 1) == LevelPlan(level, cfg)
  {
    hide LevelPlan, LevelPruned, Unrelated, OnStage, WellFormed, NextLevel, Search;
    NextLevelBelow(stage, level, map[], cfg);
    var plan := LevelPlan(level, cfg);
    assert map[] + plan == plan;
    SearchUnfolds(stage, level, map[], cfg, 1, 1);
    SearchStops(stage, NextLevel(level, LevelPruned(level, cfg)), plan, cfg);
  }

  lemma SearchStops(stage: Prim, level: seq<Handle>, plan: Plan, cfg: Config)
    requires WellFormed(stage) && Unrelated(level) && OnStage(stage, level) && Below(level, plan)
    ensures Search(stage, level, plan, cfg, 2, 1) == plan
  {
  }

  /** A condition on the scene alone: with exact matching every search, from whatever prims and to whatever depth, gives a
      stage that expands to the original, if and only if no two copies differ in which xform properties have values. */
  lemma SceneIsSafeIff(original: Prim, cfg: Config)
    requires WellFormed(original) && NoInternalArcs(original) && ExactMatching(cfg)
    ensures CopiesKeepPlacements(original, cfg) <==>
              forall starting, maxDepth :: Unrelated(starting) && OnStage(original, starting) ==>
                Restored(original, PlanFrom(original, starting, cfg, maxDepth))
  {
    hide Restored, PlanFrom, LosesPlacement, WellFormed, NoInternalArcs, Tidy, Unrelated, OnStage, AllPlacementsKept;
    forall starting, maxDepth | Unrelated(starting) && OnStage(original, starting)
      ensures Restored(original, PlanFrom(original, starting, cfg, maxDepth))
              <==> forall p, d ::
                     Merges(PlanFrom(original, starting, cfg, maxDepth), p, d) ==> !LosesPlacement(original, p, d, cfg) {
      RestoredIff(original, PlanFrom(original, starting, cfg, maxDepth), cfg);
      KeptIffNoneLost(original, PlanFrom(original, starting, cfg, maxDepth), cfg);
    }
    if p, d :| LosesPlacement(original, p, d, cfg) {
      LosingAreCopies(original, p, d, cfg);
      var starting := CopiesMerge(original, cfg, p, d);
      assert !Restored(original, PlanFrom(original, starting, cfg, 1));
    }
  }

  lemma LosingAreCopies(original: Prim, p: Path, d: Path, cfg: Config)
    requires LosesPlacement(original, p, d, cfg)
    ensures AreCopies(original, p, d, cfg)
  {
    hide AreCopies, PlacementKept;
  }

  // Every xform property that is declared has a value.
  ghost predicate XformsValued(p: Prim)
  {
    && (forall n :: n in p.attributes && IsXformProperty(n) ==> p.attributes[n].Some?)
    && forall c :: c in p.children ==> XformsValued(c)
  }

  lemma {:induction false} XformsValuedAt(root: Prim, path: Path)
    requires XformsValued(root) && At(root, path).Some?
    ensures XformsValued(At(root, path).value)
    decreases |path|
  {
    if path != [] {
      var i := ChildIndex(root.children, path[0]);
      assert root.children[i] in root.children;
      XformsValuedAt(root.children[i], path[1..]);
    }
  }

  lemma ValuedKeepsPlacement(original: Prim, p: Path, d: Path, cfg: Config)
    requires XformsValued(original)
    ensures !LosesPlacement(original, p, d, cfg)
  {
    hide StructuralKey, SubtreeValuesMatch, IsMaterialRelated;
    if AreCopies(original, p, d, cfg) {
      XformsValuedAt(original, d);
      hide At, IsXformProperty;
    }
  }

  /** In particular where every declared xform property has a value. */
  lemma ValuedSceneIsSafe(original: Prim, cfg: Config, starting: seq<Handle>, maxDepth: nat)
    requires WellFormed(original) && NoInternalArcs(original) && ExactMatching(cfg) && XformsValued(original)
    requires Unrelated(starting) && OnStage(original, starting)
    ensures Restored(original, PlanFrom(original, starting, cfg, maxDepth))
  {
    hide Restored, PlanFrom, LosesPlacement, XformsValued, WellFormed, NoInternalArcs, Unrelated, OnStage;
    forall p, d ensures !LosesPlacement(original, p, d, cfg) {
      ValuedKeepsPlacement(original, p, d, cfg);
    }
    SceneIsSafeIff(original, cfg);
  }

  // For every tolerance the rewritten stage can be read completely: no reference dangles, none is cyclic.
  lemma DeduplicationIsReadable(original: Prim, plan: Plan, cfg: Config, fuel: nat)
    requires Prepared(original, plan, cfg) && fuel >= 2 * Size(original)
    ensures Expand(Rewritten(original, plan), Rewritten(original, plan), fuel).Some?
  {
    assert Reachable(plan, []);
    Readable(original, plan, cfg, [], fuel);
  }

  // ---------- The operation ----------

  // Find the duplicates, then author the references.
  method Deduplicate(stage: Stage, starting: seq<Handle>, cfg: Config, maxDepth: nat, mix: Mixer, seed: int)
    returns (success: bool)
    requires WellFormed(stage.root) && NoInternalArcs(stage.root)
    requires Unrelated(starting) && OnStage(stage.root, starting)
    modifies stage
    ensures success
    ensures var plan := Search(old(stage.root), starting, map[], cfg, 1, maxDepth);
            Prepared(old(stage.root), plan, cfg) && stage.root == Rewritten(old(stage.root), plan)
    ensures forall fuel :: fuel >= 2 * Size(old(stage.root)) ==> Expand(stage.root, stage.root, fuel).Some?
    ensures ExactMatching(cfg) ==>
              forall fuel :: fuel >= 2 * Size(old(stage.root)) ==>
                (Expand(stage.root, stage.root, fuel) == Some(Plain(old(stage.root)))
                 <==> AllPlacementsKept(old(stage.root), Search(old(stage.root), starting, map[], cfg, 1, maxDepth), cfg))
  {
    ghost var original := stage.root;
    SearchIsSound(original, starting, cfg, maxDepth);
    var hierarchies := FindDuplicates(stage.root, starting, cfg, maxDepth, mix, seed);
    forall fuel | fuel >= 2 * Size(original)
      ensures Expand(Rewritten(original, hierarchies), Rewritten(original, hierarchies), fuel).Some?
      ensures ExactMatching(cfg) ==>
                (Expand(Rewritten(original, hierarchies), Rewritten(original, hierarchies), fuel) == Some(Plain(original))
                 <==> AllPlacementsKept(original, hierarchies, cfg))
    {
      DeduplicationIsReadable(original, hierarchies, cfg, fuel);
      if ExactMatching(cfg) {
        DeduplicationIsLossless(original, hierarchies, cfg, fuel);
      }
    }
    if hierarchies == map[] {
      assert ReferencesOf(hierarchies) == map[];
      RewriteNothing(original, []);
      return true;
    }
    success := ApplyInternalReferences(stage, hierarchies);
    forall d | d in ReferencesOf(hierarchies) ensures At(original, d).Some? {
      ReferenceIsCopy(original, hierarchies, cfg, d);
    }
  }

  // ---------- A scene that loses its placement ----------

  // Two childless prims; B declares its translation without giving it a value.
  function PlacedPrim(): Prim
  {
    Prim("A", "Xform", map["xformOp:translate" := Some(Floats("double3", false, [[1.0, 0.0, 0.0]]))], NoArcs, [])
  }

  function UnplacedPrim(): Prim { Prim("B", "Xform", map["xformOp:translate" := None], NoArcs, []) }

  function TwoPrims(): Prim { Prim("World", "Xform", map[], NoArcs, [PlacedPrim(), UnplacedPrim()]) }

  function TwoHandles(): seq<Handle> { [Handle(["A"], PlacedPrim()), Handle(["B"], UnplacedPrim())] }

  lemma TwoPrimsMatch(cfg: Config)
    ensures StructuralKey(PlacedPrim()) == StructuralKey(UnplacedPrim())
    ensures SubtreeValuesMatch(PlacedPrim(), UnplacedPrim(), cfg)
    ensures !IsMaterialRelated(PlacedPrim()) && !IsMaterialRelated(UnplacedPrim())
  {
    var a, b := PlacedPrim(), UnplacedPrim();
    assert Preorder(a, []) == [Visit([], a)] && Preorder(b, []) == [Visit([], b)];
    assert Compared(a, true, cfg) == {} && Compared(b, true, cfg) == {};
    assert PrimMatches(a, b, true, cfg);
    assert a.attributes.Keys == b.attributes.Keys;
    assert SameShape(a, b);
    KeyDeterminesShape(a, b);
    assert |a.name| == |b.name| == 1;
  }

  lemma TwoPrimsMerge(cfg: Config)
    ensures FollowersOf(TwoHandles(), LevelRules(cfg), TwoHandles()[0]) == [TwoHandles()[1]]
  {
    TwoPrimsMatch(cfg);
    hide StructuralKey, SubtreeValuesMatch, IsMaterialRelated, FollowersOf;
    PairMerges(TwoHandles()[0], TwoHandles()[1], LevelRules(cfg));
    assert TwoHandles() == [TwoHandles()[0], TwoHandles()[1]];
  }

  lemma NoNextLevel(pruned: set<Path>)
    ensures NextLevel(TwoHandles(), pruned) == []
  {
    var level := TwoHandles();
    assert Children(level[0]) == [] && Children(level[1]) == [];
    assert level[1..] == [level[1]] && [level[1]][1..] == [];
    assert NextLevel([], pruned) == [];
    assert NextLevel([level[1]], pruned) == [];
  }

  lemma TwoPrimsOnStage()
    ensures WellFormed(TwoPrims()) && NoInternalArcs(TwoPrims())
    ensures Unrelated(TwoHandles()) && OnStage(TwoPrims(), TwoHandles()) && Below(TwoHandles(), map[])
  {
    var a, b, scene := PlacedPrim(), UnplacedPrim(), TwoPrims();
    hide Size, SizeAll;
    assert scene.children == [a, b] && a.name != b.name;
    assert ChildIndex(scene.children, "B") == 1;
    assert At(scene, ["A"]) == Some(a) && At(scene, ["B"]) == Some(b);
  }

  // A level without a next one is the whole search.
  lemma SearchOneLevel(stage: Prim, level: seq<Handle>, cfg: Config, maxDepth: nat)
    requires WellFormed(stage) && Unrelated(level) && OnStage(stage, level) && Below(level, map[])
    requires level != [] && NextLevel(level, LevelPruned(level, cfg)) == []
    ensures Search(stage, level, map[], cfg, 1, maxDepth) == LevelPlan(level, cfg)
  {
    hide LevelPlan, LevelPruned, Unrelated, OnStage, Below, WellFormed, NextLevel, Search;
    NextLevelBelow(stage, level, map[], cfg);
    var plan := LevelPlan(level, cfg);
    assert map[] + plan == plan;
    SearchUnfolds(stage, level, map[], cfg, 1, maxDepth);
    SearchEnds(stage, plan, cfg, 2, maxDepth);
  }

  lemma SearchEnds(stage: Prim, plan: Plan, cfg: Config, depth: nat, maxDepth: nat)
    requires WellFormed(stage)
    ensures Unrelated([]) && OnStage(stage, []) && Below([], plan)
    ensures Search(stage, [], plan, cfg, depth, maxDepth) == plan
  {
  }

  // The search merges B into A, and a reader of the rewritten stage finds B at A's place.
  lemma PlacementCanBeLost(cfg: Config, maxDepth: nat)
    ensures WellFormed(TwoPrims()) && NoInternalArcs(TwoPrims())
    ensures Unrelated(TwoHandles()) && OnStage(TwoPrims(), TwoHandles()) && Below(TwoHandles(), map[])
    ensures var plan := Search(TwoPrims(), TwoHandles(), map[], cfg, 1, maxDepth);
            && Prepared(TwoPrims(), plan, cfg) && Merges(plan, ["A"], ["B"]) && !AllPlacementsKept(TwoPrims(), plan, cfg)
            && var rewritten := Rewritten(TwoPrims(), plan);
               ExactMatching(cfg) ==>
                 forall fuel :: fuel >= 2 * Size(TwoPrims()) ==> Expand(rewritten, rewritten, fuel) != Some(Plain(TwoPrims()))
  {
    TwoPrimsMerged(cfg, maxDepth);
    hide Search, Tidy, MergesCopies, WellFormed, NoInternalArcs, TwoPrims, AllPlacementsKept, Rewritten, Expand, Plain;
    var plan := Search(TwoPrims(), TwoHandles(), map[], cfg, 1, maxDepth);
    forall fuel | ExactMatching(cfg) && fuel >= 2 * Size(TwoPrims())
      ensures Expand(Rewritten(TwoPrims(), plan), Rewritten(TwoPrims(), plan), fuel) != Some(Plain(TwoPrims())) {
      DeduplicationIsLossless(TwoPrims(), plan, cfg, fuel);
    }
  }

  lemma TwoPrimsMerged(cfg: Config, maxDepth: nat)
    ensures WellFormed(TwoPrims()) && NoInternalArcs(TwoPrims())
    ensures Unrelated(TwoHandles()) && OnStage(TwoPrims(), TwoHandles()) && Below(TwoHandles(), map[])
    ensures var plan := Search(TwoPrims(), TwoHandles(), map[], cfg, 1, maxDepth);
            Prepared(TwoPrims(), plan, cfg) && Merges(plan, ["A"], ["B"]) && !AllPlacementsKept(TwoPrims(), plan, cfg)
  {
    var scene, level := TwoPrims(), TwoHandles();
    TwoPrimsOnStage();
    SearchIsSound(scene, level, cfg, maxDepth);
    TwoPrimsMerge(cfg);
    LinkedIsPlanned(level, cfg, level[0]);
    NoNextLevel(LevelPruned(level, cfg));
    SearchOneLevel(scene, level, cfg, maxDepth);
    TwoPlacements();
    hide Search, LevelPlan, FollowersOf, Tidy, MergesCopies, WellFormed, NoInternalArcs, TwoPrims, PlacementKept;
    var plan := LevelPlan(level, cfg);
    assert plan[["A"]] == PathsOf([level[1]], LevelRules(cfg).path);
    assert plan[["A"]][0] == ["B"];
    assert Merges(plan, ["A"], ["B"]);
  }

  lemma TwoPlacements()
    ensures At(TwoPrims(), ["A"]).Some? && At(TwoPrims(), ["B"]).Some? && !PlacementKept(TwoPrims(), ["A"], ["B"])
  {
    var a, b, scene := PlacedPrim(), UnplacedPrim(), TwoPrims();
    assert scene.children == [a, b] && ChildIndex(scene.children, "B") == 1;
    assert At(scene, ["A"]) == Some(a) && At(scene, ["B"]) == Some(b);
    assert "xformOp:translate" in a.attributes && IsXformProperty("xformOp:translate");
  }
}
