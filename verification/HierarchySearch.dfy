/** The breadth-first search for duplicate hierarchies: one level at a time, prototypes are descended into,
    their duplicates are not. */
module HierarchySearch {
  import opened Wrappers
  import opened SceneTree
  import opened Matching
  import opened Sequences
  import opened Partitioning
  import opened LevelMerging
  import opened MergePlans

  // A prim together with its path on the stage.
  datatype Handle = Handle(path: Path, prim: Prim)

  const MATERIAL_TYPES: set<string> := {"Material", "Shader", "NodeGraph", "GeomSubset"}
  const MATERIAL_SCOPES: set<string> := {"Looks", "Materials"}
  const TEXTURE_PREFIXES: seq<string> := ["Diffuse", "Specular", "Normal", "Roughness", "Metallic", "Emissive",
                                          "Opacity", "AO", "Displacement"]

  predicate IsMaterialRelated(p: Prim)
  {
    || p.typeName in MATERIAL_TYPES
    || p.name in MATERIAL_SCOPES
    || exists i :: 0 <= i < |TEXTURE_PREFIXES| && TEXTURE_PREFIXES[i] <= p.name
  }

  // Material-related prims are not grouped; prims that carry references or payloads already are not merged.
  function LevelRules(cfg: Config): Rules<Handle, seq<Entry>, Path>
  {
    Rules((h: Handle) => !IsMaterialRelated(h.prim),
          (h: Handle) => StructuralKey(h.prim),
          (h: Handle) => h.prim.arcs == NoArcs,
          (a: Handle, b: Handle) => SubtreeValuesMatch(a.prim, b.prim, cfg),
          (h: Handle) => h.path)
  }

  function HandleFingerprint(cfg: Config, mix: Mixer, seed: int): Handle -> int
  {
    (h: Handle) => Fingerprint(mix, seed, h.prim, cfg)
  }

  lemma HandleFingerprintSound(cfg: Config, mix: Mixer, seed: int)
    ensures FingerprintSound(LevelRules(cfg), HandleFingerprint(cfg, mix, seed))
  {
    var rules := LevelRules(cfg);
    forall a: Handle, b: Handle | rules.key(a) == rules.key(b) && rules.equal(a, b)
      ensures HandleFingerprint(cfg, mix, seed)(a) == HandleFingerprint(cfg, mix, seed)(b)
    {
      FingerprintIsNecessary(mix, seed, a.prim, b.prim, cfg);
    }
  }

  /** For every tolerance: splitting a structural group by fingerprint first finds the same classes, member for member,
      as comparing every prim with every representative. */
  lemma FingerprintsKeepClasses(group: seq<Handle>, cfg: Config, mix: Mixer, seed: int)
    requires forall a, b :: a in group && b in group ==> StructuralKey(a.prim) == StructuralKey(b.prim)
    ensures var fingerprint := HandleFingerprint(cfg, mix, seed);
            multiset(Bucketed(group, fingerprint, KeysInOrder(group, fingerprint), LevelRules(cfg).equal))
            == multiset(FirstFit(group, LevelRules(cfg).equal))
  {
    HandleFingerprintSound(cfg, mix, seed);
    BucketingKeepsClasses(group, HandleFingerprint(cfg, mix, seed), LevelRules(cfg).equal);
  }

  // ---------- Levels ----------

  // No path leads to or through another.
  ghost predicate Unrelated(level: seq<Handle>)
  {
    forall i, j :: 0 <= i < |level| && 0 <= j < |level| && i != j ==> !(level[i].path <= level[j].path)
  }

  lemma UnrelatedHandles(level: seq<Handle>, a: Handle, b: Handle)
    requires Unrelated(level) && a in level && b in level && a.path <= b.path
    ensures a == b
  {
  }

  lemma UnrelatedIsDistinct(level: seq<Handle>, cfg: Config)
    requires Unrelated(level)
    ensures NoDuplicates(level) && Injective(ToSet(level), LevelRules(cfg).path)
    ensures Injective(Linked(level, LevelRules(cfg)).Keys, LevelRules(cfg).path)
  {
    forall i, j | 0 <= i < j < |level| ensures level[i] != level[j] {
      assert !(level[i].path <= level[j].path);
    }
    forall a, b | a in level && b in level && a.path == b.path ensures a == b {
      UnrelatedHandles(level, a, b);
    }
    LinkedInLevel(level, LevelRules(cfg));
  }

  // Every prototype of the level with its duplicates.
  ghost function LevelPlan(level: seq<Handle>, cfg: Config): Plan
    requires Unrelated(level)
  {
    UnrelatedIsDistinct(level, cfg);
    PlanOf(Linked(level, LevelRules(cfg)), LevelRules(cfg).path)
  }

  // The duplicates of the level.
  ghost function LevelPruned(level: seq<Handle>, cfg: Config): set<Path>
  {
    PrunedOf(Linked(level, LevelRules(cfg)))
  }

  function Children(h: Handle): (hs: seq<Handle>)
    ensures |hs| == |h.prim.children|
    ensures forall i :: 0 <= i < |hs| ==> hs[i] == Handle(h.path + [h.prim.children[i].name], h.prim.children[i])
  {
    seq(|h.prim.children|, i requires 0 <= i < |h.prim.children| =>
      Handle(h.path + [h.prim.children[i].name], h.prim.children[i]))
  }

  predicate Expands(h: Handle, pruned: set<Path>)
  {
    h.path !in pruned && !IsMaterialRelated(h.prim)
  }

  function NextLevel(level: seq<Handle>, pruned: set<Path>): seq<Handle>
  {
    if level == [] then []
    else (if Expands(level[0], pruned) then Children(level[0]) else []) + NextLevel(level[1..], pruned)
  }

  // Children of every prim that was neither pruned nor material-related.
  method CollectNext(level: seq<Handle>, pruned: set<Path>) returns (next: seq<Handle>)
    ensures next == NextLevel(level, pruned)
  {
    next := [];
    for i := 0 to |level|
      invariant next + NextLevel(level[i..], pruned) == NextLevel(level, pruned)
    {
      var rest := level[i..];
      assert rest[0] == level[i] && rest[1..] == level[i + 1..];
      hide IsMaterialRelated;
      if level[i].path in pruned {
        assert NextLevel(rest, pruned) == [] + NextLevel(level[i + 1..], pruned) == NextLevel(level[i + 1..], pruned);
        continue;
      }
      if IsMaterialRelated(level[i].prim) {
        assert NextLevel(rest, pruned) == [] + NextLevel(level[i + 1..], pruned) == NextLevel(level[i + 1..], pruned);
        continue;
      }
      assert next + (Children(level[i]) + NextLevel(level[i + 1..], pruned))
             == next + Children(level[i]) + NextLevel(level[i + 1..], pruned);
      next := next + Children(level[i]);
    }
  }

  method ProcessLevel(level: seq<Handle>, plan: Plan, cfg: Config, mix: Mixer, seed: int)
    returns (plan': Plan, next: seq<Handle>)
    requires Unrelated(level) && forall h :: h in level ==> h.path !in plan
    ensures plan' == plan + LevelPlan(level, cfg)
    ensures next == NextLevel(level, LevelPruned(level, cfg))
  {
    UnrelatedIsDistinct(level, cfg);
    HandleFingerprintSound(cfg, mix, seed);
    var pruned;
    plan', pruned := MergeLevel(level, LevelRules(cfg), HandleFingerprint(cfg, mix, seed), plan);
    next := CollectNext(level, pruned);
  }

  // ---------- The whole search ----------

  // Number of prims at or below a level.
  function Remaining(level: seq<Handle>): nat
  {
    if level == [] then 0 else Size(level[0].prim) + Remaining(level[1..])
  }

  lemma RemainingSplit(xs: seq<Handle>, ys: seq<Handle>)
    ensures Remaining(xs + ys) == Remaining(xs) + Remaining(ys)
  {
    if xs == [] {
      assert xs + ys == ys;
    } else {
      RemainingSplit(xs[1..], ys);
      assert (xs + ys)[1..] == xs[1..] + ys;
    }
  }

  lemma {:induction false} RemainingOfRow(hs: seq<Handle>, ps: seq<Prim>)
    requires |hs| == |ps| && forall i :: 0 <= i < |hs| ==> hs[i].prim == ps[i]
    ensures Remaining(hs) == SizeAll(ps)
  {
    if hs != [] {
      RemainingOfRow(hs[1..], ps[1..]);
    }
  }

  // Every level has fewer prims below it than the one before, so the search ends.
  lemma {:induction false} NextLevelIsSmaller(level: seq<Handle>, pruned: set<Path>)
    requires level != []
    ensures Remaining(NextLevel(level, pruned)) < Remaining(level)
  {
    var first := if Expands(level[0], pruned) then Children(level[0]) else [];
    RemainingOfRow(Children(level[0]), level[0].prim.children);
    RemainingSplit(first, NextLevel(level[1..], pruned));
    if level[1..] != [] {
      NextLevelIsSmaller(level[1..], pruned);
    }
  }

  // ---------- What a plan promises ----------

  // Prototype and duplicate are different prims of the stage, neither below the other, free of arcs and unrelated to
  // materials, of equal structure and matching values.
  ghost predicate AreCopies(stage: Prim, p: Path, d: Path, cfg: Config)
  {
    && At(stage, p).Some? && At(stage, d).Some? && !(p <= d) && !(d <= p)
    && !IsMaterialRelated(At(stage, p).value) && !IsMaterialRelated(At(stage, d).value)
    && At(stage, p).value.arcs == NoArcs && At(stage, d).value.arcs == NoArcs
    && StructuralKey(At(stage, p).value) == StructuralKey(At(stage, d).value)
    && SubtreeValuesMatch(At(stage, p).value, At(stage, d).value, cfg)
  }

  ghost predicate MergesCopies(stage: Prim, plan: Plan, cfg: Config)
  {
    forall p, d :: Merges(plan, p, d) ==> AreCopies(stage, p, d, cfg)
  }

  ghost predicate OnStage(stage: Prim, level: seq<Handle>)
  {
    forall h :: h in level ==> At(stage, h.path) == Some(h.prim)
  }

  // No path of the level leads to or through anything recorded, nor lies at or below a recorded duplicate.
  ghost predicate Below(level: seq<Handle>, plan: Plan)
  {
    && (forall h, r :: h in level && Touched(plan, r) ==> !(h.path <= r))
    && (forall h, d :: h in level && IsDuplicate(plan, d) ==> !(d <= h.path))
  }

  // ---------- One level keeps the promises ----------

  lemma MergeInLevel(level: seq<Handle>, cfg: Config, p: Path, d: Path) returns (h: Handle, g: Handle)
    requires Unrelated(level) && Merges(LevelPlan(level, cfg), p, d)
    ensures h in level && h.path == p && g in level && g.path == d
    ensures g in FollowersOf(level, LevelRules(cfg), h)
    ensures LevelPlan(level, cfg)[p] == PathsOf(FollowersOf(level, LevelRules(cfg), h), LevelRules(cfg).path)
  {
    UnrelatedIsDistinct(level, cfg);
    var links := Linked(level, LevelRules(cfg));
    h :| h in links && LevelRules(cfg).path(h) == p;
    var m :| 0 <= m < |links[h]| && links[h][m] == d;
    g := FollowersOf(level, LevelRules(cfg), h)[m];
    UnrelatedIsDistinct(level, cfg);
    FollowerIsCopy(level, LevelRules(cfg), h, g);
  }

  lemma PlannedInLevel(level: seq<Handle>, cfg: Config, p: Path) returns (h: Handle)
    requires Unrelated(level) && p in LevelPlan(level, cfg)
    ensures h in level && h.path == p && FollowersOf(level, LevelRules(cfg), h) != []
    ensures LevelPlan(level, cfg)[p] == PathsOf(FollowersOf(level, LevelRules(cfg), h), LevelRules(cfg).path)
  {
    UnrelatedIsDistinct(level, cfg);
    h :| h in Linked(level, LevelRules(cfg)) && LevelRules(cfg).path(h) == p;
  }

  lemma LinkedIsPlanned(level: seq<Handle>, cfg: Config, h: Handle)
    requires Unrelated(level) && h in level && FollowersOf(level, LevelRules(cfg), h) != []
    ensures h.path in LevelPlan(level, cfg)
    ensures LevelPlan(level, cfg)[h.path] == PathsOf(FollowersOf(level, LevelRules(cfg), h), LevelRules(cfg).path)
  {
    UnrelatedIsDistinct(level, cfg);
    hide FollowersOf;
    assert h in Linked(level, LevelRules(cfg)) && LevelRules(cfg).path(h) == h.path;
  }

  lemma PrunedAreDuplicates(level: seq<Handle>, cfg: Config, d: Path)
    requires Unrelated(level)
    ensures d in LevelPruned(level, cfg) <==> IsDuplicate(LevelPlan(level, cfg), d)
  {
    UnrelatedIsDistinct(level, cfg);
    var links, rules := Linked(level, LevelRules(cfg)), LevelRules(cfg);
    if d in LevelPruned(level, cfg) {
      var h :| h in links && d in links[h];
      assert rules.path(h) in PlanOf(links, rules.path) && PlanOf(links, rules.path)[rules.path(h)] == links[h];
      assert Merges(LevelPlan(level, cfg), rules.path(h), d);
    }
    if IsDuplicate(LevelPlan(level, cfg), d) {
      var p :| Merges(LevelPlan(level, cfg), p, d);
      var h :| h in links && rules.path(h) == p;
    }
  }

  // Everything a level records are paths of that level.
  lemma RecordedInLevel(level: seq<Handle>, cfg: Config, r: Path) returns (h: Handle)
    requires Unrelated(level) && Touched(LevelPlan(level, cfg), r)
    ensures h in level && h.path == r
  {
    if r in LevelPlan(level, cfg) {
      h := PlannedInLevel(level, cfg, r);
    } else {
      var p :| Merges(LevelPlan(level, cfg), p, r);
      var _, g := MergeInLevel(level, cfg, p, r);
      h := g;
    }
  }

  lemma LevelCopies(stage: Prim, level: seq<Handle>, cfg: Config, p: Path, d: Path)
    requires Unrelated(level) && OnStage(stage, level)
    requires Merges(LevelPlan(level, cfg), p, d)
    ensures AreCopies(stage, p, d, cfg)
  {
    UnrelatedIsDistinct(level, cfg);
    var h, g := MergeInLevel(level, cfg, p, d);
    FollowerIsCopy(level, LevelRules(cfg), h, g);
  }

  lemma LevelRoles(level: seq<Handle>, cfg: Config, p: Path, d: Path)
    requires Unrelated(level) && Merges(LevelPlan(level, cfg), p, d)
    ensures d !in LevelPlan(level, cfg)
  {
    UnrelatedIsDistinct(level, cfg);
    var h, g := MergeInLevel(level, cfg, p, d);
    FollowerIsUnique(level, LevelRules(cfg), h, g);
    if d in LevelPlan(level, cfg) {
      var f := PlannedInLevel(level, cfg, d);
      UnrelatedHandles(level, f, g);
    }
  }

  lemma LevelPrototypeUnique(level: seq<Handle>, cfg: Config, p: Path, q: Path, d: Path)
    requires Unrelated(level) && Merges(LevelPlan(level, cfg), p, d) && Merges(LevelPlan(level, cfg), q, d)
    ensures p == q
  {
    UnrelatedIsDistinct(level, cfg);
    var h, g := MergeInLevel(level, cfg, p, d);
    var h', g' := MergeInLevel(level, cfg, q, d);
    UnrelatedHandles(level, g, g');
    FollowerIsUnique(level, LevelRules(cfg), h, g);
  }

  lemma LevelListsOnce(level: seq<Handle>, cfg: Config, p: Path)
    requires Unrelated(level) && p in LevelPlan(level, cfg)
    ensures NoDuplicates(LevelPlan(level, cfg)[p]) && LevelPlan(level, cfg)[p] != []
  {
    UnrelatedIsDistinct(level, cfg);
    var h := PlannedInLevel(level, cfg, p);
    var followers := FollowersOf(level, LevelRules(cfg), h);
    FollowerIsCopy(level, LevelRules(cfg), h, followers[0]);
    forall i, j | 0 <= i < j < |followers| ensures followers[i].path != followers[j].path {
      FollowerIsCopy(level, LevelRules(cfg), h, followers[i]);
      FollowerIsCopy(level, LevelRules(cfg), h, followers[j]);
      if followers[i].path == followers[j].path {
        UnrelatedHandles(level, followers[i], followers[j]);
      }
    }
  }

  lemma LevelPlanTidy(level: seq<Handle>, cfg: Config)
    requires Unrelated(level)
    ensures Tidy(LevelPlan(level, cfg))
  {
    var plan := LevelPlan(level, cfg);
    forall p, d | Merges(plan, p, d) ensures d !in plan {
      LevelRoles(level, cfg, p, d);
    }
    forall p | p in plan ensures NoDuplicates(plan[p]) && plan[p] != [] {
      LevelListsOnce(level, cfg, p);
    }
    forall p, q, d | Merges(plan, p, d) && Merges(plan, q, d) ensures p == q {
      LevelPrototypeUnique(level, cfg, p, q, d);
    }
    forall d, r | IsDuplicate(plan, d) && Touched(plan, r) ensures !(d < r) {
      LevelFlat(level, cfg, d, r);
    }
  }

  lemma LevelFlat(level: seq<Handle>, cfg: Config, d: Path, r: Path)
    requires Unrelated(level) && Touched(LevelPlan(level, cfg), d) && Touched(LevelPlan(level, cfg), r)
    ensures !(d < r)
  {
    var g := RecordedInLevel(level, cfg, d);
    var h := RecordedInLevel(level, cfg, r);
    if d < r {
      UnrelatedHandles(level, g, h);
    }
  }

  lemma LevelMergesCopies(stage: Prim, level: seq<Handle>, cfg: Config)
    requires Unrelated(level) && OnStage(stage, level)
    ensures MergesCopies(stage, LevelPlan(level, cfg), cfg)
  {
    forall p, d | Merges(LevelPlan(level, cfg), p, d) ensures AreCopies(stage, p, d, cfg) {
      LevelCopies(stage, level, cfg, p, d);
    }
  }

  lemma LevelIsSeparate(level: seq<Handle>, plan: Plan, cfg: Config)
    requires Unrelated(level) && Below(level, plan)
    ensures Separate(plan, LevelPlan(level, cfg))
  {
    var b := LevelPlan(level, cfg);
    forall r, s | Touched(plan, r) && Touched(b, s) ensures !(s <= r) {
      var h := RecordedInLevel(level, cfg, s);
    }
    forall d, s | IsDuplicate(plan, d) && Touched(b, s) ensures !(d <= s) {
      var h := RecordedInLevel(level, cfg, s);
    }
  }

  // ---------- The next level is again below everything recorded ----------

  lemma {:induction false} NextLevelMembers(level: seq<Handle>, pruned: set<Path>, c: Handle) returns (h: Handle)
    requires c in NextLevel(level, pruned)
    ensures h in level && Expands(h, pruned) && c in Children(h)
  {
    var first := if Expands(level[0], pruned) then Children(level[0]) else [];
    if c in first {
      h := level[0];
    } else {
      h := NextLevelMembers(level[1..], pruned, c);
    }
  }

  lemma UnrelatedSum(xs: seq<Handle>, ys: seq<Handle>)
    requires Unrelated(xs) && Unrelated(ys)
    requires forall x, y :: x in xs && y in ys ==> !(x.path <= y.path) && !(y.path <= x.path)
    ensures Unrelated(xs + ys)
  {
    var all := xs + ys;
    forall i, j | 0 <= i < |all| && 0 <= j < |all| && i != j ensures !(all[i].path <= all[j].path) {
      if i < |xs| && j >= |xs| {
        assert all[i] in xs && all[j] in ys;
      }
      if i >= |xs| && j < |xs| {
        assert all[i] in ys && all[j] in xs;
      }
    }
  }

  lemma ChildrenUnrelated(h: Handle)
    requires DistinctNames(h.prim.children)
    ensures Unrelated(Children(h))
  {
    var cs := Children(h);
    forall i, j | 0 <= i < |cs| && 0 <= j < |cs| && i != j ensures !(cs[i].path <= cs[j].path) {
      assert cs[i].path[|h.path|] == h.prim.children[i].name;
      assert cs[j].path[|h.path|] == h.prim.children[j].name;
    }
  }

  lemma CousinsUnrelated(a: Path, b: Path, x: Name, y: Name)
    requires !(a <= b) && !(b <= a)
    ensures !(a + [x] <= b + [y])
  {
    var k :| 0 <= k < |a| && (k >= |b| || a[k] != b[k]);
    if |a| <= |b| {
      assert (a + [x])[k] == a[k] && (b + [y])[k] == b[k];
    }
  }

  lemma {:induction false} NextLevelUnrelated(stage: Prim, level: seq<Handle>, pruned: set<Path>)
    requires WellFormed(stage) && Unrelated(level) && OnStage(stage, level)
    ensures Unrelated(NextLevel(level, pruned))
  {
    if level != [] {
      var rest := level[1..];
      assert forall i :: 0 <= i < |rest| ==> rest[i] == level[i + 1];
      NextLevelUnrelated(stage, rest, pruned);
      WellFormedAt(stage, level[0].path);
      ChildrenUnrelated(level[0]);
      var first := if Expands(level[0], pruned) then Children(level[0]) else [];
      forall x, y | x in first && y in NextLevel(rest, pruned) ensures !(x.path <= y.path) && !(y.path <= x.path) {
        var h := NextLevelMembers(rest, pruned, y);
        var k :| 0 <= k < |rest| && rest[k] == h;
        var i :| 0 <= i < |first| && first[i] == x;
        var j :| 0 <= j < |Children(h)| && Children(h)[j] == y;
        assert !(level[0].path <= level[k + 1].path) && !(level[k + 1].path <= level[0].path);
        CousinsUnrelated(level[0].path, h.path, level[0].prim.children[i].name, h.prim.children[j].name);
        CousinsUnrelated(h.path, level[0].path, h.prim.children[j].name, level[0].prim.children[i].name);
      }
      UnrelatedSum(first, NextLevel(rest, pruned));
    }
  }

  lemma PrefixOfExtension(d: Path, a: Path, x: Name)
    ensures d <= a + [x] <==> d <= a || d == a + [x]
  {
    if d <= a + [x] && |d| <= |a| {
      assert d == (a + [x])[..|d|] == a[..|d|];
    }
  }

  // One child of an expanded prim, against what was recorded before and on its level.
  lemma ChildIsBelow(stage: Prim, level: seq<Handle>, plan: Plan, cfg: Config, c: Handle)
    requires WellFormed(stage) && Unrelated(level) && OnStage(stage, level) && Below(level, plan)
    requires c in NextLevel(level, LevelPruned(level, cfg))
    ensures At(stage, c.path) == Some(c.prim)
    ensures forall r :: Touched(plan, r) || Touched(LevelPlan(level, cfg), r) ==> !(c.path <= r)
    ensures forall d :: IsDuplicate(plan, d) || IsDuplicate(LevelPlan(level, cfg), d) ==> !(d <= c.path)
  {
    var h := NextLevelMembers(level, LevelPruned(level, cfg), c);
    var i :| 0 <= i < |Children(h)| && Children(h)[i] == c;
    ChildAt(stage, h.path, i);
    var name := c.prim.name;
    assert c.path == h.path + [name] && h.path <= c.path;
    forall r | Touched(plan, r) || Touched(LevelPlan(level, cfg), r) ensures !(c.path <= r) {
      if Touched(plan, r) {
        assert !(h.path <= r);
      } else if c.path <= r {
        var g := RecordedInLevel(level, cfg, r);
        UnrelatedHandles(level, h, g);
      }
    }
    forall d | IsDuplicate(plan, d) || IsDuplicate(LevelPlan(level, cfg), d) ensures !(d <= c.path) {
      PrefixOfExtension(d, h.path, name);
      if IsDuplicate(plan, d) {
        assert Touched(plan, d);
      } else {
        PrunedAreDuplicates(level, cfg, d);
        var g := RecordedInLevel(level, cfg, d);
        if d <= h.path {
          UnrelatedHandles(level, g, h);
        } else if h.path <= d {
          UnrelatedHandles(level, h, g);
        }
      }
    }
  }

  // One round of the search keeps the plan sound and the next level below everything recorded.
  lemma NextLevelBelow(stage: Prim, level: seq<Handle>, plan: Plan, cfg: Config)
    requires WellFormed(stage) && Unrelated(level) && OnStage(stage, level) && Below(level, plan)
    ensures Unrelated(NextLevel(level, LevelPruned(level, cfg)))
    ensures OnStage(stage, NextLevel(level, LevelPruned(level, cfg)))
    ensures Below(NextLevel(level, LevelPruned(level, cfg)), plan + LevelPlan(level, cfg))
  {
    LevelIsSeparate(level, plan, cfg);
    SumTouches(plan, LevelPlan(level, cfg));
    NextLevelUnrelated(stage, level, LevelPruned(level, cfg));
    forall c | c in NextLevel(level, LevelPruned(level, cfg))
      ensures At(stage, c.path) == Some(c.prim)
      ensures forall r :: Touched(plan + LevelPlan(level, cfg), r) ==> !(c.path <= r)
      ensures forall d :: IsDuplicate(plan + LevelPlan(level, cfg), d) ==> !(d <= c.path)
    {
      ChildIsBelow(stage, level, plan, cfg, c);
    }
  }

  lemma LevelKeepsPlan(stage: Prim, level: seq<Handle>, plan: Plan, cfg: Config)
    requires Unrelated(level) && OnStage(stage, level) && Below(level, plan)
    requires Tidy(plan) && MergesCopies(stage, plan, cfg)
    ensures Tidy(plan + LevelPlan(level, cfg)) && MergesCopies(stage, plan + LevelPlan(level, cfg), cfg)
  {
    LevelPlanTidy(level, cfg);
    LevelMergesCopies(stage, level, cfg);
    LevelIsSeparate(level, plan, cfg);
    SumIsTidy(plan, LevelPlan(level, cfg));
    SumMerges(plan, LevelPlan(level, cfg));
  }

  // ---------- The search ----------

  // All levels from `level` on; maxDepth 0 means unbounded.
  ghost function Search(stage: Prim, level: seq<Handle>, plan: Plan, cfg: Config, depth: nat, maxDepth: nat): Plan
    requires WellFormed(stage) && Unrelated(level) && OnStage(stage, level) && Below(level, plan)
    decreases Remaining(level)
  {
    if level == [] || (maxDepth > 0 && depth > maxDepth) then plan
    else
      NextLevelIsSmaller(level, LevelPruned(level, cfg));
      NextLevelBelow(stage, level, plan, cfg);
      Search(stage, NextLevel(level, LevelPruned(level, cfg)), plan + LevelPlan(level, cfg), cfg, depth + 1, maxDepth)
  }

  method FindDuplicates(stage: Prim, starting: seq<Handle>, cfg: Config, maxDepth: nat, mix: Mixer, seed: int)
    returns (hierarchies: Plan)
    requires WellFormed(stage) && Unrelated(starting) && OnStage(stage, starting)
    ensures hierarchies == Search(stage, starting, map[], cfg, 1, maxDepth)
  {
    hierarchies := map[];
    var currentLevel, level := starting, 1;
    while currentLevel != []
      invariant level >= 1
      invariant Unrelated(currentLevel) && OnStage(stage, currentLevel) && Below(currentLevel, hierarchies)
      invariant Search(stage, currentLevel, hierarchies, cfg, level, maxDepth) == Search(stage, starting, map[], cfg, 1, maxDepth)
      decreases Remaining(currentLevel)
    {
      if maxDepth > 0 && level > maxDepth {
        break;
      }
      NextLevelIsSmaller(currentLevel, LevelPruned(currentLevel, cfg));
      NextLevelBelow(stage, currentLevel, hierarchies, cfg);
      NotTouchedYet(currentLevel, hierarchies);
      hierarchies, currentLevel := ProcessLevel(currentLevel, hierarchies, cfg, mix, seed);
      level := level + 1;
    }
  }

  lemma NotTouchedYet(level: seq<Handle>, plan: Plan)
    requires Below(level, plan)
    ensures forall h :: h in level ==> h.path !in plan
  {
    forall h | h in level ensures h.path !in plan {
      assert h.path <= h.path;
      assert h.path in plan ==> Touched(plan, h.path);
    }
  }

  lemma {:induction false} SearchKeepsPlan(stage: Prim, level: seq<Handle>, plan: Plan, cfg: Config,
                                           depth: nat, maxDepth: nat, found: Plan)
    requires WellFormed(stage) && Unrelated(level) && OnStage(stage, level) && Below(level, plan)
    requires Tidy(plan) && MergesCopies(stage, plan, cfg)
    requires found == Search(stage, level, plan, cfg, depth, maxDepth)
    ensures Tidy(found) && MergesCopies(stage, found, cfg)
    decreases Remaining(level)
  {
    if level == [] || (maxDepth > 0 && depth > maxDepth) {
      assert found == plan;
    } else {
      NextLevelIsSmaller(level, LevelPruned(level, cfg));
      var next, plan' := SearchRound(stage, level, plan, cfg, depth, maxDepth);
      SearchKeepsPlan(stage, next, plan', cfg, depth + 1, maxDepth, found);
    }
  }

  lemma SearchRound(stage: Prim, level: seq<Handle>, plan: Plan, cfg: Config, depth: nat, maxDepth: nat)
    returns (next: seq<Handle>, plan': Plan)
    requires WellFormed(stage) && Unrelated(level) && OnStage(stage, level) && Below(level, plan)
    requires Tidy(plan) && MergesCopies(stage, plan, cfg)
    requires level != [] && !(maxDepth > 0 && depth > maxDepth)
    ensures next == NextLevel(level, LevelPruned(level, cfg))
    ensures Unrelated(next) && OnStage(stage, next) && Below(next, plan')
    ensures Tidy(plan') && MergesCopies(stage, plan', cfg)
    ensures Search(stage, level, plan, cfg, depth, maxDepth) == Search(stage, next, plan', cfg, depth + 1, maxDepth)
  {
    NextLevelBelow(stage, level, plan, cfg);
    LevelKeepsPlan(stage, level, plan, cfg);
    next, plan' := NextLevel(level, LevelPruned(level, cfg)), plan + LevelPlan(level, cfg);
    SearchUnfolds(stage, level, plan, cfg, depth, maxDepth);
  }

  lemma SearchUnfolds(stage: Prim, level: seq<Handle>, plan: Plan, cfg: Config, depth: nat, maxDepth: nat)
    requires WellFormed(stage) && Unrelated(level) && OnStage(stage, level) && Below(level, plan)
    requires level != [] && !(maxDepth > 0 && depth > maxDepth)
    requires Unrelated(NextLevel(level, LevelPruned(level, cfg))) && OnStage(stage, NextLevel(level, LevelPruned(level, cfg)))
    requires Below(NextLevel(level, LevelPruned(level, cfg)), plan + LevelPlan(level, cfg))
    ensures Search(stage, level, plan, cfg, depth, maxDepth)
         == Search(stage, NextLevel(level, LevelPruned(level, cfg)), plan + LevelPlan(level, cfg), cfg, depth + 1, maxDepth)
  {
  }

  // The plan of the whole search, for every tolerance and depth limit.
  lemma SearchIsSound(stage: Prim, starting: seq<Handle>, cfg: Config, maxDepth: nat)
    requires WellFormed(stage) && Unrelated(starting) && OnStage(stage, starting)
    ensures Tidy(Search(stage, starting, map[], cfg, 1, maxDepth))
    ensures MergesCopies(stage, Search(stage, starting, map[], cfg, 1, maxDepth), cfg)
  {
    SearchKeepsPlan(stage, starting, map[], cfg, 1, maxDepth, Search(stage, starting, map[], cfg, 1, maxDepth));
  }
}
