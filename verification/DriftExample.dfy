/** A scene that the search deduplicates so that a value drifts further than the tolerance. */
module DriftExample {
  import opened Wrappers
  import opened SceneTree
  import opened Matching
  import opened MatchMeaning
  import opened MergePlans
  import opened HierarchySearch
  import opened SearchCompleteness
  import opened HierarchyMeaning
  import opened HierarchyDrift

  function Leaf(x: real): Prim { Prim("leaf", "Points", map["points" := Some(Floats("float[]", true, [[x]]))], NoArcs, []) }

  function Holder(name: Name, x: real): Prim { Prim(name, "Xform", map[], NoArcs, [Leaf(x)]) }

  function Group(name: Name, step: real, x: real): Prim
  {
    Prim(name, "Xform", map[], NoArcs, [Holder("q", -step), Holder("c", x)])
  }

  // P holds two prims that match, and D another two, one of which is further away from the first of P.
  function Drifting(step: real): Prim
  {
    Prim("World", "Xform", map[], NoArcs, [Group("P", step, 0.0), Group("D", step, step)])
  }

  function DriftingStart(step: real): seq<Handle>
  {
    [Handle(["P"], Group("P", step, 0.0)), Handle(["D"], Group("D", step, step))]
  }

  lemma LeafsMatch(x: real, y: real, path: Path, cfg: Config)
    requires cfg.tolerance > 0.0 && -cfg.tolerance < x - y < cfg.tolerance
    ensures PrimMatches(Leaf(x), Leaf(y), path == [], cfg)
  {
    var v, w := Leaf(x).attributes["points"].value, Leaf(y).attributes["points"].value;
    assert v.elements[0] == [x] && w.elements[0] == [y];
    PrimMatchIff(Leaf(x), Leaf(y), path, cfg);
    hide PrimMatches;
  }

  lemma HolderVisits(name: Name, x: real, path: Path)
    ensures Preorder(Holder(name, x), path) == [Visit(path, Holder(name, x)), Visit(path + ["leaf"], Leaf(x))]
  {
    assert Preorder(Leaf(x), path + ["leaf"]) == [Visit(path + ["leaf"], Leaf(x))];
    hide Leaf;
    var h := Holder(name, x);
    assert h.children[1..] == [];
    assert PreorderAll(h.children, path) == Preorder(Leaf(x), path + ["leaf"]) + PreorderAll([], path);
  }

  lemma HoldersAreCopies(a: Name, b: Name, x: real, y: real, cfg: Config)
    requires cfg.tolerance > 0.0 && -cfg.tolerance < x - y < cfg.tolerance
    ensures StructuralKey(Holder(a, x)) == StructuralKey(Holder(b, y))
    ensures SubtreeValuesMatch(Holder(a, x), Holder(b, y), cfg)
  {
    var h, g := Holder(a, x), Holder(b, y);
    HolderVisits(a, x, []);
    HolderVisits(b, y, []);
    assert Leaf(x).attributes.Keys == Leaf(y).attributes.Keys;
    assert PrimMatches(h, g, true, cfg);
    LeafsMatch(x, y, ["leaf"], cfg);
    assert SameShape(Leaf(x), Leaf(y));
    hide PrimMatches, Leaf, Preorder;
    HoldersShaped(a, b, x, y);
    KeyDeterminesShape(h, g);
  }

  lemma HoldersShaped(a: Name, b: Name, x: real, y: real)
    requires SameShape(Leaf(x), Leaf(y)) && Leaf(x).name == Leaf(y).name
    ensures SameShape(Holder(a, x), Holder(b, y))
  {
    hide Leaf;
    assert [Leaf(x)][1..] == [] && [Leaf(y)][1..] == [];
    assert SameShapes([], []);
    assert SameShapes([Leaf(x)], [Leaf(y)]);
  }

  lemma HolderName(name: Name, x: real)
    ensures Holder(name, x).name == name
  {
  }

  lemma GroupVisits(name: Name, step: real, x: real)
    ensures Preorder(Group(name, step, x), [])
            == [Visit([], Group(name, step, x)), Visit(["q"], Holder("q", -step)), Visit(["q", "leaf"], Leaf(-step)),
                Visit(["c"], Holder("c", x)), Visit(["c", "leaf"], Leaf(x))]
  {
    HolderVisits("q", -step, ["q"]);
    HolderVisits("c", x, ["c"]);
    assert ["q"] + ["leaf"] == ["q", "leaf"] && ["c"] + ["leaf"] == ["c", "leaf"] && [] + ["q"] == ["q"] && [] + ["c"] == ["c"];
    hide Leaf, Holder;
    var g := Group(name, step, x);
    HolderName("q", -step);
    HolderName("c", x);
    var rest := g.children[1..];
    assert rest == [Holder("c", x)] && rest[1..] == [];
    assert PreorderAll(rest, []) == Preorder(Holder("c", x), ["c"]) + PreorderAll([], []);
    assert PreorderAll(g.children, []) == Preorder(Holder("q", -step), ["q"]) + PreorderAll(rest, []);
  }

  lemma HoldersMatch(name: Name, x: real, y: real, cfg: Config)
    ensures PrimMatches(Holder(name, x), Holder(name, y), false, cfg)
  {
  }

  lemma GroupsShaped(a: Name, b: Name, step: real, x: real, y: real)
    requires SameShape(Holder("q", -step), Holder("q", -step)) && SameShape(Holder("c", x), Holder("c", y))
    ensures SameShape(Group(a, step, x), Group(b, step, y))
  {
    hide Holder;
    HolderName("q", -step);
    HolderName("c", x);
    HolderName("c", y);
    var xs, ys := Group(a, step, x).children, Group(b, step, y).children;
    assert xs[1..] == [Holder("c", x)] && ys[1..] == [Holder("c", y)];
    assert xs[1..][1..] == [] && ys[1..][1..] == [];
    assert SameShapes([], []);
    assert SameShapes(xs[1..], ys[1..]);
    assert SameShapes(xs, ys);
  }

  lemma GroupsAreCopies(a: Name, b: Name, step: real, x: real, y: real, cfg: Config)
    requires cfg.tolerance > 0.0 && -cfg.tolerance < x - y < cfg.tolerance
    ensures StructuralKey(Group(a, step, x)) == StructuralKey(Group(b, step, y))
    ensures SubtreeValuesMatch(Group(a, step, x), Group(b, step, y), cfg)
  {
    var h, g := Group(a, step, x), Group(b, step, y);
    GroupVisits(a, step, x);
    GroupVisits(b, step, y);
    assert PrimMatches(h, g, true, cfg);
    HoldersMatch("q", -step, -step, cfg);
    HoldersMatch("c", x, y, cfg);
    LeafsMatch(-step, -step, ["q", "leaf"], cfg);
    LeafsMatch(x, y, ["c", "leaf"], cfg);
    HoldersAreCopies("q", "q", -step, -step, cfg);
    HoldersAreCopies("c", "c", x, y, cfg);
    KeyDeterminesShape(Holder("q", -step), Holder("q", -step));
    KeyDeterminesShape(Holder("c", x), Holder("c", y));
    hide PrimMatches, Leaf, Preorder, Holder, StructuralKey, SameShape, Group;
    GroupsShaped(a, b, step, x, y);
    KeyDeterminesShape(h, g);
  }

  lemma GroupNames(name: Name, step: real, x: real)
    ensures Group(name, step, x).name == name && Leaf(x).name == "leaf"
    ensures Leaf(x).attributes == map["points" := Some(Floats("float[]", true, [[x]]))]
  {
  }

  lemma DriftingAt(step: real)
    ensures var w := Drifting(step);
            At(w, ["P"]) == Some(Group("P", step, 0.0)) && At(w, ["D"]) == Some(Group("D", step, step))
  {
    var w := Drifting(step);
    hide Group;
    GroupNames("P", step, 0.0);
    GroupNames("D", step, step);
    assert w.children[0].name == "P" && w.children[1].name == "D";
    assert w.children[1..] == [w.children[1]] && ChildIndex([w.children[1]], "D") == 0;
    assert ChildIndex(w.children, "P") == 0 && ChildIndex(w.children, "D") == 1;
    assert ["P"][1..] == [] && ["D"][1..] == [];
  }

  lemma GroupAt(root: Prim, path: Path, name: Name, step: real, x: real)
    requires At(root, path) == Some(Group(name, step, x))
    ensures At(root, path + ["q"]) == Some(Holder("q", -step)) && At(root, path + ["c"]) == Some(Holder("c", x))
  {
    hide Holder;
    HolderName("q", -step);
    HolderName("c", x);
    var g := Group(name, step, x);
    AtAppend(root, path, ["q"]);
    AtAppend(root, path, ["c"]);
    assert g.children[1..] == [Holder("c", x)] && ChildIndex([Holder("c", x)], "c") == 0;
    assert ChildIndex(g.children, "q") == 0 && ChildIndex(g.children, "c") == 1;
    assert ["q"][1..] == [] && ["c"][1..] == [];
  }

  lemma HolderAt(root: Prim, path: Path, name: Name, x: real)
    requires At(root, path) == Some(Holder(name, x))
    ensures At(root, path + ["leaf"]) == Some(Leaf(x))
  {
    hide Leaf;
    GroupNames(name, 0.0, x);
    AtAppend(root, path, ["leaf"]);
    assert ChildIndex(Holder(name, x).children, "leaf") == 0 && ["leaf"][1..] == [];
  }

  lemma HolderGood(name: Name, x: real)
    ensures WellFormed(Holder(name, x)) && NoInternalArcs(Holder(name, x))
  {
    assert WellFormed(Leaf(x)) && NoInternalArcs(Leaf(x));
    hide Leaf;
  }

  lemma GroupGood(name: Name, step: real, x: real)
    ensures WellFormed(Group(name, step, x)) && NoInternalArcs(Group(name, step, x))
  {
    HolderGood("q", -step);
    HolderGood("c", x);
    HolderName("q", -step);
    HolderName("c", x);
    hide Holder;
  }

  lemma DriftingGood(step: real)
    ensures WellFormed(Drifting(step)) && NoInternalArcs(Drifting(step))
    ensures Unrelated(DriftingStart(step)) && OnStage(Drifting(step), DriftingStart(step))
  {
    GroupGood("P", step, 0.0);
    GroupGood("D", step, step);
    GroupNames("P", step, 0.0);
    GroupNames("D", step, step);
    DriftingAt(step);
    hide Group, At;
    assert ["P"][0] == "P" && ["D"][0] == "D";
  }

  lemma NotMaterial(p: Prim)
    requires |p.name| == 1 && p.typeName == "Xform"
    ensures !IsMaterialRelated(p)
  {
    AboutMaterialsIff(p);
  }

  lemma GroupPlain(name: Name, step: real, x: real)
    requires |name| == 1
    ensures !IsMaterialRelated(Group(name, step, x)) && Group(name, step, x).arcs == NoArcs
    ensures !IsMaterialRelated(Holder(name, x)) && Holder(name, x).arcs == NoArcs
  {
    NotMaterial(Group(name, step, x));
    NotMaterial(Holder(name, x));
  }

  lemma PrototypeStays(level: seq<Handle>, cfg: Config, p: Path, d: Path)
    requires Unrelated(level) && Merges(LevelPlan(level, cfg), p, d)
    ensures d in LevelPruned(level, cfg) && p !in LevelPruned(level, cfg)
  {
    PrunedAreDuplicates(level, cfg, d);
    PrunedAreDuplicates(level, cfg, p);
    hide LevelPlan, LevelPruned;
    if IsDuplicate(LevelPlan(level, cfg), p) {
      var r :| Merges(LevelPlan(level, cfg), r, p);
      LevelRoles(level, cfg, r, p);
    }
  }

  lemma FirstLevel(step: real, cfg: Config)
    requires cfg.tolerance > 0.0 && -cfg.tolerance < step < cfg.tolerance
    ensures Unrelated(DriftingStart(step)) && Merges(LevelPlan(DriftingStart(step), cfg), ["P"], ["D"])
    ensures ["D"] in LevelPruned(DriftingStart(step), cfg) && ["P"] !in LevelPruned(DriftingStart(step), cfg)
  {
    var h, g := DriftingStart(step)[0], DriftingStart(step)[1];
    GroupPlain("P", step, 0.0);
    GroupPlain("D", step, step);
    GroupsAreCopies("P", "D", step, 0.0, step, cfg);
    assert ["P"][0] == "P" && ["D"][0] == "D";
    assert DriftingStart(step) == [h, g];
    hide Group, StructuralKey, SubtreeValuesMatch, IsMaterialRelated, LevelPlan, LevelPruned, Merges;
    PairIsPlanned(cfg, h, g);
    PrototypeStays([h, g], cfg, ["P"], ["D"]);
  }

  // The children of P.
  function InnerLevel(step: real): seq<Handle>
  {
    [Handle(["P", "q"], Holder("q", -step)), Handle(["P", "c"], Holder("c", 0.0))]
  }

  lemma SecondLevelIs(step: real, pruned: set<Path>)
    requires ["D"] in pruned && ["P"] !in pruned
    ensures NextLevel(DriftingStart(step), pruned) == InnerLevel(step)
  {
    var level := DriftingStart(step);
    GroupPlain("P", step, 0.0);
    HolderName("q", -step);
    HolderName("c", 0.0);
    hide Holder, IsMaterialRelated;
    assert ["P"] + ["q"] == ["P", "q"] && ["P"] + ["c"] == ["P", "c"];
    assert Children(level[0]) == InnerLevel(step);
    assert level[1..] == [level[1]] && [level[1]][1..] == [];
    hide Children, Group;
    assert NextLevel([level[1]], pruned) == [] + NextLevel([], pruned);
  }

  lemma SecondLevel(step: real, cfg: Config)
    requires cfg.tolerance > 0.0 && -cfg.tolerance < step < cfg.tolerance
    ensures Unrelated(InnerLevel(step)) && Merges(LevelPlan(InnerLevel(step), cfg), ["P", "q"], ["P", "c"])
  {
    var h, g := InnerLevel(step)[0], InnerLevel(step)[1];
    GroupPlain("q", step, -step);
    GroupPlain("c", step, 0.0);
    HoldersAreCopies("q", "c", -step, 0.0, cfg);
    assert ["P", "q"][1] == "q" && ["P", "c"][1] == "c";
    assert InnerLevel(step) == [h, g];
    hide Holder, StructuralKey, SubtreeValuesMatch, IsMaterialRelated, LevelPlan, Merges;
    PairIsPlanned(cfg, h, g);
  }

  // Both merges are in the plan of the search.
  lemma DriftingMerges(step: real, cfg: Config)
    requires cfg.tolerance > 0.0 && -cfg.tolerance < step < cfg.tolerance
    ensures WellFormed(Drifting(step)) && Unrelated(DriftingStart(step)) && OnStage(Drifting(step), DriftingStart(step))
    ensures var plan := PlanFrom(Drifting(step), DriftingStart(step), cfg, 0);
            Merges(plan, ["P"], ["D"]) && Merges(plan, ["P", "q"], ["P", "c"])
  {
    var w, start := Drifting(step), DriftingStart(step);
    DriftingGood(step);
    NothingYet(start);
    hide *;
    FirstLevel(step, cfg);
    SecondLevelIs(step, LevelPruned(start, cfg));
    SecondLevel(step, cfg);
    var found := Search(w, start, map[], cfg, 1, 0);
    assert start != [] by { StartIsThere(step); }
    var next, plan := LevelIsKept(w, start, map[], cfg, 1, 0, found);
    assert next != [] by { InnerIsThere(step); }
    var more, plan' := LevelIsKept(w, next, plan, cfg, 2, 0, found);
    PlanIsSearch(w, start, cfg);
    InExtended(found, LevelPlan(start, cfg), ["P"], ["D"]);
    InExtended(found, LevelPlan(next, cfg), ["P", "q"], ["P", "c"]);
  }

  lemma StartIsThere(step: real)
    ensures DriftingStart(step) != []
  {
  }

  lemma InnerIsThere(step: real)
    ensures InnerLevel(step) != []
  {
  }

  lemma PlanIsSearch(w: Prim, start: seq<Handle>, cfg: Config)
    requires WellFormed(w) && Unrelated(start) && OnStage(w, start)
    ensures Below(start, map[]) && PlanFrom(w, start, cfg, 0) == Search(w, start, map[], cfg, 1, 0)
  {
    NothingYet(start);
  }

  lemma InExtended(found: Plan, plan: Plan, p: Path, d: Path)
    requires Extends(found, plan) && Merges(plan, p, d)
    ensures Merges(found, p, d)
  {
  }

  // Where the two values are.
  lemma DriftingLeaves(step: real)
    ensures var w := Drifting(step);
            && At(w, ["D"]).Some? && At(w, ["P"] + ["c"]).Some?
            && At(w, ["P", "q"] + ["leaf"]) == Some(Leaf(-step)) && At(w, ["D", "c", "leaf"]) == Some(Leaf(step))
  {
    var w := Drifting(step);
    DriftingAt(step);
    hide Drifting, Group, Holder, Leaf, At;
    GroupAt(w, ["P"], "P", step, 0.0);
    GroupAt(w, ["D"], "D", step, step);
    assert ["P"] + ["q"] == ["P", "q"] && ["D"] + ["c"] + ["leaf"] == ["D", "c", "leaf"];
    HolderAt(w, ["P", "q"], "q", -step);
    HolderAt(w, ["D"] + ["c"], "c", step);
  }

  /** Through nested references values drift further than the tolerance, if no further than it allows for each. In this
      scene the search merges D into P and, inside P, one prim into the other. Reading then finds `-step` where `step` was,
      which is too far when `step` is more than half of the tolerance. */
  lemma DriftExceedsTolerance(step: real, cfg: Config, fuel: nat)
    requires cfg.tolerance > 0.0 && -cfg.tolerance < step < cfg.tolerance && fuel >= 2 * Size(Drifting(step))
    ensures WellFormed(Drifting(step)) && NoInternalArcs(Drifting(step))
    ensures Unrelated(DriftingStart(step)) && OnStage(Drifting(step), DriftingStart(step))
    ensures var w, path := Drifting(step), ["D", "c", "leaf"];
            var plan := PlanFrom(w, DriftingStart(step), cfg, 0);
            var expanded := Expand(Rewritten(w, plan), Rewritten(w, plan), fuel);
            && expanded.Some? && At(expanded.value, path).Some? && At(w, path).Some?
            && "points" in At(w, path).value.attributes && "points" in At(expanded.value, path).value.attributes
            && At(w, path).value.attributes["points"] == Some(Floats("float[]", true, [[step]]))
            && At(expanded.value, path).value.attributes["points"] == Some(Floats("float[]", true, [[-step]]))
  {
    hide *;
    DriftingGood(step);
    DriftingMerges(step, cfg);
    DriftingLeaves(step);
    GroupNames("D", step, step);
    GroupNames("D", step, -step);
    DriftingPaths();
    var w, v := Drifting(step), Some(Floats("float[]", true, [[-step]]));
    var plan := PlanFrom(w, DriftingStart(step), cfg, 0);
    PlanPrepared(w, DriftingStart(step), cfg);
    NestedExpanded(w, plan, cfg, ["D"], ["P"], "c", ["P", "q"], "leaf", "points", v, ["D", "c", "leaf"], fuel);
  }

  lemma DriftingPaths()
    ensures ["P"] + ["c"] == ["P", "c"] && ["D"] + (["c"] + ["leaf"]) == ["D", "c", "leaf"]
  {
  }

  lemma PlanPrepared(w: Prim, start: seq<Handle>, cfg: Config)
    requires WellFormed(w) && NoInternalArcs(w) && Unrelated(start) && OnStage(w, start)
    ensures Tidy(PlanFrom(w, start, cfg, 0)) && Prepared(w, PlanFrom(w, start, cfg, 0), cfg)
  {
    hide PlanFrom, WellFormed, NoInternalArcs, Unrelated, OnStage, Tidy, MergesCopies;
  }
}
