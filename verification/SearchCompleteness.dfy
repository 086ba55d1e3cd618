/** What the search for duplicate hierarchies finds: everything there is to find on its way down. */
module SearchCompleteness {
  import opened Wrappers
  import opened SceneTree
  import opened Matching
  import opened MatchMeaning
  import opened LevelMerging
  import opened MergePlans
  import opened HierarchySearch

  // Materials, their parts, and textures that are prims.
  predicate AboutMaterials(p: Prim)
  {
    || p.typeName == "Material" || p.typeName == "Shader" || p.typeName == "NodeGraph" || p.typeName == "GeomSubset"
    || p.name == "Looks" || p.name == "Materials"
    || "Diffuse" <= p.name || "Specular" <= p.name || "Normal" <= p.name || "Roughness" <= p.name || "Metallic" <= p.name
    || "Emissive" <= p.name || "Opacity" <= p.name || "AO" <= p.name || "Displacement" <= p.name
  }

  lemma AboutMaterialsIff(p: Prim)
    ensures IsMaterialRelated(p) <==> AboutMaterials(p)
  {
    var t := TEXTURE_PREFIXES;
    assert t[0] == "Diffuse" && t[1] == "Specular" && t[2] == "Normal" && t[3] == "Roughness" && t[4] == "Metallic"
           && t[5] == "Emissive" && t[6] == "Opacity" && t[7] == "AO" && t[8] == "Displacement";
  }

  // The path leads to a prim, and neither this nor any on the way down from `from` has to do with materials.
  ghost predicate Open(stage: Prim, from: Path, more: Path)
  {
    forall k :: 0 <= k <= |more| ==> At(stage, from + more[..k]).Some? && !AboutMaterials(At(stage, from + more[..k]).value)
  }

  // Two prims, free of arcs, with equal structure and matching values.
  ghost predicate Alike(stage: Prim, p: Path, q: Path, cfg: Config)
  {
    && At(stage, p).Some? && At(stage, q).Some?
    && At(stage, p).value.arcs == NoArcs && At(stage, q).value.arcs == NoArcs
    && StructuralKey(At(stage, p).value) == StructuralKey(At(stage, q).value)
    && SubtreeValuesMatch(At(stage, p).value, At(stage, q).value, cfg)
  }

  // The prototype itself, or a reference to it.
  ghost predicate BelongsTo(plan: Plan, r: Path, p: Path)
  {
    p == r || Merges(plan, r, p)
  }

  ghost predicate Together(plan: Plan, p: Path, q: Path)
  {
    exists r :: BelongsTo(plan, r, p) && BelongsTo(plan, r, q)
  }

  ghost predicate NothingAbove(plan: Plan, p: Path)
  {
    forall d :: IsDuplicate(plan, d) ==> !(d < p)
  }

  // ---------- One level ----------

  lemma HandlesAreCandidates(stage: Prim, level: seq<Handle>, cfg: Config, h: Handle, g: Handle)
    requires Unrelated(level) && OnStage(stage, level) && h in level && g in level
    requires Alike(stage, h.path, g.path, cfg) && !AboutMaterials(h.prim) && !AboutMaterials(g.prim)
    ensures var rules := LevelRules(cfg);
            && Candidate(level, rules, h, rules.key(h)) && Candidate(level, rules, g, rules.key(h))
            && rules.equal(h, g) && rules.equal(g, h)
  {
    AboutMaterialsIff(h.prim);
    AboutMaterialsIff(g.prim);
    MatchingIsSymmetric(h.prim, g.prim, cfg);
    hide StructuralKey, SubtreeValuesMatch, IsMaterialRelated, AboutMaterials;
  }

  lemma FollowerIsPlanned(level: seq<Handle>, cfg: Config, h: Handle, d: Handle)
    requires Unrelated(level) && d in FollowersOf(level, LevelRules(cfg), h)
    ensures Merges(LevelPlan(level, cfg), h.path, d.path)
  {
    hide StructuralKey, SubtreeValuesMatch, IsMaterialRelated, FollowersOf, LevelPlan;
    var rules := LevelRules(cfg);
    UnrelatedIsDistinct(level, cfg);
    FollowerIsCopy(level, rules, h, d);
    LinkedIsPlanned(level, cfg, h);
    hide Unrelated;
    var followers := FollowersOf(level, rules, h);
    var m :| 0 <= m < |followers| && followers[m] == d;
    assert LevelPlan(level, cfg)[h.path][m] == d.path;
  }

  lemma LevelFinds(stage: Prim, level: seq<Handle>, cfg: Config, h: Handle, g: Handle)
    requires Unrelated(level) && OnStage(stage, level) && h in level && g in level && h != g
    requires Alike(stage, h.path, g.path, cfg) && !AboutMaterials(h.prim) && !AboutMaterials(g.prim)
    ensures IsDuplicate(LevelPlan(level, cfg), h.path) || IsDuplicate(LevelPlan(level, cfg), g.path)
  {
    HandlesAreCandidates(stage, level, cfg, h, g);
    UnrelatedIsDistinct(level, cfg);
    hide LevelRules, LevelPlan, FollowersOf, Unrelated, OnStage, Alike, AboutMaterials, Candidate;
    var r := OneFollows(level, LevelRules(cfg), h, g);
    if h in FollowersOf(level, LevelRules(cfg), r) {
      FollowerIsPlanned(level, cfg, r, h);
    } else {
      FollowerIsPlanned(level, cfg, r, g);
    }
  }

  lemma ExactIsEquivalence(level: seq<Handle>, cfg: Config)
    requires cfg.tolerance <= 0.0
    ensures Equivalence(level, LevelRules(cfg))
  {
    var rules := LevelRules(cfg);
    hide StructuralKey, SubtreeValuesMatch;
    forall x | x in level ensures rules.equal(x, x) {
      MatchesItself(x.prim, cfg);
    }
    forall x, y | x in level && y in level && rules.key(x) == rules.key(y) && rules.equal(x, y) ensures rules.equal(y, x) {
      MatchingIsSymmetric(x.prim, y.prim, cfg);
    }
    forall x, y, z | x in level && y in level && z in level && rules.key(x) == rules.key(y) == rules.key(z)
                     && rules.equal(x, y) && rules.equal(y, z) ensures rules.equal(x, z) {
      ExactIsTransitive(x.prim, y.prim, z.prim, cfg);
    }
  }

  lemma LevelUnites(stage: Prim, level: seq<Handle>, cfg: Config, h: Handle, g: Handle)
    requires Unrelated(level) && OnStage(stage, level) && h in level && g in level && cfg.tolerance <= 0.0
    requires Alike(stage, h.path, g.path, cfg) && !AboutMaterials(h.prim) && !AboutMaterials(g.prim)
    ensures Together(LevelPlan(level, cfg), h.path, g.path)
  {
    HandlesAreCandidates(stage, level, cfg, h, g);
    ExactIsEquivalence(level, cfg);
    UnrelatedIsDistinct(level, cfg);
    hide LevelRules, LevelPlan, FollowersOf, Unrelated, OnStage, Alike, AboutMaterials, Candidate, Equivalence;
    var r := BothFollow(level, LevelRules(cfg), h, g);
    if h != r {
      FollowerIsPlanned(level, cfg, r, h);
    }
    if g != r {
      FollowerIsPlanned(level, cfg, r, g);
    }
    assert BelongsTo(LevelPlan(level, cfg), r.path, h.path) && BelongsTo(LevelPlan(level, cfg), r.path, g.path);
  }

  // ---------- The levels ----------

  lemma {:induction false} NextLevelHas(level: seq<Handle>, pruned: set<Path>, h: Handle, c: Handle)
    requires h in level && Expands(h, pruned) && c in Children(h)
    ensures c in NextLevel(level, pruned)
  {
    hide Expands, Children;
    if h != level[0] {
      NextLevelHas(level[1..], pruned, h, c);
    }
  }

  // One round of the search: the next level, and the plan with what this level adds.
  lemma NextRound(stage: Prim, level: seq<Handle>, plan: Plan, cfg: Config, depth: nat, maxDepth: nat)
    returns (next: seq<Handle>, plan': Plan)
    requires WellFormed(stage) && Unrelated(level) && OnStage(stage, level) && Below(level, plan)
    requires level != [] && !(maxDepth > 0 && depth > maxDepth)
    ensures next == NextLevel(level, LevelPruned(level, cfg)) && Remaining(next) < Remaining(level)
    ensures Unrelated(next) && OnStage(stage, next) && Below(next, plan')
    ensures forall p, d :: Merges(plan', p, d) <==> Merges(plan, p, d) || Merges(LevelPlan(level, cfg), p, d)
    ensures Search(stage, level, plan, cfg, depth, maxDepth) == Search(stage, next, plan', cfg, depth + 1, maxDepth)
  {
    hide *;
    next, plan' := NextLevel(level, LevelPruned(level, cfg)), plan + LevelPlan(level, cfg);
    NextLevelIsSmaller(level, LevelPruned(level, cfg));
    NextLevelBelow(stage, level, plan, cfg);
    LevelIsSeparate(level, plan, cfg);
    SumMerges(plan, LevelPlan(level, cfg));
    SearchUnfolds(stage, level, plan, cfg, depth, maxDepth);
  }

  lemma SearchIsOver(stage: Prim, level: seq<Handle>, plan: Plan, cfg: Config, depth: nat, maxDepth: nat)
    requires WellFormed(stage) && Unrelated(level) && OnStage(stage, level) && Below(level, plan)
    requires level == [] || (maxDepth > 0 && depth > maxDepth)
    ensures Search(stage, level, plan, cfg, depth, maxDepth) == plan
  {
  }

  // The one plan has all that the other has.
  ghost predicate Extends(found: Plan, plan: Plan)
  {
    forall p, d :: Merges(plan, p, d) ==> Merges(found, p, d)
  }

  // What has been recorded stays.
  lemma {:induction false} SearchKeeps(stage: Prim, level: seq<Handle>, plan: Plan, cfg: Config, depth: nat, maxDepth: nat)
    requires WellFormed(stage) && Unrelated(level) && OnStage(stage, level) && Below(level, plan)
    ensures Extends(Search(stage, level, plan, cfg, depth, maxDepth), plan)
    decreases Remaining(level)
  {
    hide Search, WellFormed, Unrelated, OnStage, Below, LevelPlan, NextLevel, LevelPruned, Remaining, Merges;
    if level == [] || (maxDepth > 0 && depth > maxDepth) {
      SearchIsOver(stage, level, plan, cfg, depth, maxDepth);
    } else {
      var next, plan' := NextRound(stage, level, plan, cfg, depth, maxDepth);
      SearchKeeps(stage, next, plan', cfg, depth + 1, maxDepth);
    }
  }

  // ---------- The search ----------

  // The prim a level's handle leads to, one step further down.
  lemma ChildIsThere(stage: Prim, h: Handle, name: Name) returns (c: Handle)
    requires At(stage, h.path) == Some(h.prim) && At(stage, h.path + [name]).Some?
    ensures c in Children(h) && c.path == h.path + [name]
  {
    AtAppend(stage, h.path, [name]);
    c := Children(h)[ChildIndex(h.prim.children, name)];
  }

  lemma StepOpen(stage: Prim, h: Handle, more: Path) returns (c: Handle)
    requires At(stage, h.path) == Some(h.prim) && Open(stage, h.path, more) && more != []
    ensures !AboutMaterials(h.prim) && c in Children(h) && c.path == h.path + [more[0]] && c.path + more[1..] == h.path + more
    ensures Open(stage, c.path, more[1..])
  {
    hide AboutMaterials, At, Children;
    assert h.path + more[..0] == h.path;
    assert more[..1] == [more[0]];
    assert At(stage, h.path + more[..1]).Some?;
    c := ChildIsThere(stage, h, more[0]);
    forall k | 0 <= k <= |more[1..]|
      ensures At(stage, c.path + more[1..][..k]).Some? && !AboutMaterials(At(stage, c.path + more[1..][..k]).value)
    {
      assert c.path + more[1..][..k] == h.path + more[..k + 1];
    }
  }

  lemma OpenHere(stage: Prim, h: Handle)
    requires At(stage, h.path) == Some(h.prim) && Open(stage, h.path, [])
    ensures !AboutMaterials(h.prim)
  {
    assert h.path + [][..0] == h.path;
  }

  // A handle of the level with nothing merged above the prim it leads to goes on to the next level.
  lemma StepDown(stage: Prim, level: seq<Handle>, cfg: Config, found: Plan, h: Handle, more: Path) returns (c: Handle)
    requires Unrelated(level) && OnStage(stage, level) && h in level && more != [] && Open(stage, h.path, more)
    requires Extends(found, LevelPlan(level, cfg))
    requires NothingAbove(found, h.path + more)
    ensures c in NextLevel(level, LevelPruned(level, cfg))
    ensures c.path == h.path + [more[0]] && c.path + more[1..] == h.path + more && Open(stage, c.path, more[1..])
  {
    c := StepOpen(stage, h, more);
    AboutMaterialsIff(h.prim);
    hide LevelPlan, Children, IsMaterialRelated, AboutMaterials, Open, LevelPruned;
    PrunedAreDuplicates(level, cfg, h.path);
    assert h.path < h.path + more;
    KeptInPlan(LevelPlan(level, cfg), found, h.path, h.path);
    NextLevelHas(level, LevelPruned(level, cfg), h, c);
  }

  ghost predicate Within(depth: nat, maxDepth: nat, more: Path) { maxDepth == 0 || depth + |more| <= maxDepth }

  lemma WithinNext(depth: nat, maxDepth: nat, m: Path)
    requires Within(depth, maxDepth, m)
    ensures !(maxDepth > 0 && depth > maxDepth)
    ensures m != [] ==> Within(depth + 1, maxDepth, m[1..])
  {
  }

  lemma FoundOnLevel(stage: Prim, level: seq<Handle>, cfg: Config, found: Plan, h: Handle, g: Handle)
    requires Unrelated(level) && OnStage(stage, level) && h in level && g in level && h.path != g.path
    requires Extends(found, LevelPlan(level, cfg))
    requires Open(stage, h.path, []) && Open(stage, g.path, []) && Alike(stage, h.path, g.path, cfg)
    ensures IsDuplicate(found, h.path) || IsDuplicate(found, g.path)
    ensures cfg.tolerance <= 0.0 ==> Together(found, h.path, g.path)
  {
    OpenHere(stage, h);
    OpenHere(stage, g);
    hide LevelPlan, Alike, AboutMaterials, Unrelated, Open, OnStage;
    LevelFinds(stage, level, cfg, h, g);
    if cfg.tolerance <= 0.0 {
      LevelUnites(stage, level, cfg, h, g);
    }
    KeptInPlan(LevelPlan(level, cfg), found, h.path, g.path);
  }

  lemma LevelIsKept(stage: Prim, level: seq<Handle>, plan: Plan, cfg: Config, depth: nat, maxDepth: nat, found: Plan)
    returns (next: seq<Handle>, plan': Plan)
    requires WellFormed(stage) && Unrelated(level) && OnStage(stage, level) && Below(level, plan)
    requires found == Search(stage, level, plan, cfg, depth, maxDepth) && level != [] && !(maxDepth > 0 && depth > maxDepth)
    ensures next == NextLevel(level, LevelPruned(level, cfg))
    ensures Unrelated(next) && OnStage(stage, next) && Below(next, plan')
    ensures found == Search(stage, next, plan', cfg, depth + 1, maxDepth) && Extends(found, LevelPlan(level, cfg))
  {
    hide Search, WellFormed, Unrelated, OnStage, Below, LevelPlan, NextLevel, LevelPruned, Merges;
    next, plan' := NextRound(stage, level, plan, cfg, depth, maxDepth);
    SearchKeeps(stage, next, plan', cfg, depth + 1, maxDepth);
  }

  lemma {:induction false} SearchFinds(stage: Prim, level: seq<Handle>, plan: Plan, cfg: Config, depth: nat, maxDepth: nat,
                                       h: Handle, m: Path, g: Handle, n: Path, found: Plan)
    requires WellFormed(stage) && Unrelated(level) && OnStage(stage, level) && Below(level, plan)
    requires found == Search(stage, level, plan, cfg, depth, maxDepth)
    requires h in level && g in level && |m| == |n| && h.path + m != g.path + n && Within(depth, maxDepth, m)
    requires Open(stage, h.path, m) && Open(stage, g.path, n)
    requires NothingAbove(found, h.path + m) && NothingAbove(found, g.path + n)
    requires Alike(stage, h.path + m, g.path + n, cfg)
    ensures IsDuplicate(found, h.path + m) || IsDuplicate(found, g.path + n)
    ensures cfg.tolerance <= 0.0 ==> Together(found, h.path + m, g.path + n)
    decreases |m|
  {
    WithinNext(depth, maxDepth, m);
    hide *;
    var next, plan' := LevelIsKept(stage, level, plan, cfg, depth, maxDepth, found);
    if m == [] {
      assert h.path + m == h.path && g.path + n == g.path;
      FoundOnLevel(stage, level, cfg, found, h, g);
    } else {
      var c := StepDown(stage, level, cfg, found, h, m);
      var e := StepDown(stage, level, cfg, found, g, n);
      SearchFinds(stage, next, plan', cfg, depth + 1, maxDepth, c, m[1..], e, n[1..], found);
    }
  }

  lemma KeptInPlan(plan: Plan, found: Plan, p: Path, q: Path)
    requires Extends(found, plan)
    ensures IsDuplicate(plan, p) ==> IsDuplicate(found, p)
    ensures IsDuplicate(plan, q) ==> IsDuplicate(found, q)
    ensures Together(plan, p, q) ==> Together(found, p, q)
  {
    if IsDuplicate(plan, p) {
      var r :| Merges(plan, r, p);
      assert Merges(found, r, p);
    }
    if IsDuplicate(plan, q) {
      var r :| Merges(plan, r, q);
      assert Merges(found, r, q);
    }
    if Together(plan, p, q) {
      var r :| BelongsTo(plan, r, p) && BelongsTo(plan, r, q);
      assert BelongsTo(found, r, p) && BelongsTo(found, r, q);
    }
  }

  /** The search leaves nothing out. Take two different prims equally far below starting prims, not deeper than the limit,
      with nothing to do with materials at them or on the way and with no duplicate of the plan above them. If they are
      free of arcs and equal in structure, and their values match, then at least one of them becomes a reference; with
      exact matching both belong to the same prototype. */
  lemma CopiesAreFound(stage: Prim, starting: seq<Handle>, cfg: Config, maxDepth: nat, h: Handle, m: Path, g: Handle, n: Path)
    requires WellFormed(stage) && Unrelated(starting) && OnStage(stage, starting)
    requires h in starting && g in starting && |m| == |n| && h.path + m != g.path + n
    requires maxDepth == 0 || |m| < maxDepth
    requires Open(stage, h.path, m) && Open(stage, g.path, n) && Alike(stage, h.path + m, g.path + n, cfg)
    requires var plan := Search(stage, starting, map[], cfg, 1, maxDepth);
             NothingAbove(plan, h.path + m) && NothingAbove(plan, g.path + n)
    ensures var plan := Search(stage, starting, map[], cfg, 1, maxDepth);
            && (IsDuplicate(plan, h.path + m) || IsDuplicate(plan, g.path + n))
            && (cfg.tolerance <= 0.0 ==> Together(plan, h.path + m, g.path + n))
  {
    hide Search, Open, Alike, NothingAbove, Together;
    SearchFinds(stage, starting, map[], cfg, 1, maxDepth, h, m, g, n, Search(stage, starting, map[], cfg, 1, maxDepth));
  }

  // ---------- Nothing else is found ----------

  // The path leads n steps down from a starting prim, past nothing that has to do with materials.
  ghost predicate StepsDown(stage: Prim, starting: seq<Handle>, n: nat, path: Path)
  {
    exists h, m :: h in starting && |m| == n && path == h.path + m && Passes(stage, h.path, m)
  }

  ghost predicate Passes(stage: Prim, from: Path, more: Path)
  {
    forall k :: 0 <= k < |more| ==> At(stage, from + more[..k]).Some? && !AboutMaterials(At(stage, from + more[..k]).value)
  }

  ghost predicate Reached(stage: Prim, starting: seq<Handle>, n: nat, path: Path)
  {
    StepsDown(stage, starting, n, path) && At(stage, path).Some? && !AboutMaterials(At(stage, path).value)
  }

  // Both are equally far down, and not too far.
  ghost predicate BothReached(stage: Prim, starting: seq<Handle>, maxDepth: nat, p: Path, d: Path)
  {
    exists n: nat :: (maxDepth == 0 || n < maxDepth) && Reached(stage, starting, n, p) && Reached(stage, starting, n, d)
  }

  ghost predicate LevelDown(stage: Prim, starting: seq<Handle>, n: nat, level: seq<Handle>)
  {
    forall h :: h in level ==> StepsDown(stage, starting, n, h.path)
  }

  ghost predicate AllReached(stage: Prim, starting: seq<Handle>, maxDepth: nat, plan: Plan)
  {
    forall p, d :: Merges(plan, p, d) ==> BothReached(stage, starting, maxDepth, p, d)
  }

  lemma PassesFurther(stage: Prim, from: Path, more: Path, name: Name)
    requires Passes(stage, from, more) && At(stage, from + more).Some? && !AboutMaterials(At(stage, from + more).value)
    ensures Passes(stage, from, more + [name]) && from + (more + [name]) == from + more + [name]
  {
    hide AboutMaterials, At;
    var longer := more + [name];
    forall k | 0 <= k < |longer|
      ensures At(stage, from + longer[..k]).Some? && !AboutMaterials(At(stage, from + longer[..k]).value) {
      if k < |more| {
        assert longer[..k] == more[..k];
      } else {
        assert longer[..k] == more;
      }
    }
  }

  lemma ChildIsDown(stage: Prim, starting: seq<Handle>, n: nat, g: Handle, c: Handle)
    requires At(stage, g.path) == Some(g.prim) && !AboutMaterials(g.prim) && c in Children(g)
    requires StepsDown(stage, starting, n, g.path)
    ensures StepsDown(stage, starting, n + 1, c.path)
  {
    hide AboutMaterials, At, Passes;
    var i :| 0 <= i < |Children(g)| && Children(g)[i] == c;
    var name := g.prim.children[i].name;
    var h, m :| h in starting && |m| == n && g.path == h.path + m && Passes(stage, h.path, m);
    PassesFurther(stage, h.path, m, name);
    assert c.path == h.path + (m + [name]);
  }

  lemma NextIsDown(stage: Prim, starting: seq<Handle>, n: nat, level: seq<Handle>, cfg: Config)
    requires Unrelated(level) && OnStage(stage, level) && LevelDown(stage, starting, n, level)
    ensures LevelDown(stage, starting, n + 1, NextLevel(level, LevelPruned(level, cfg)))
  {
    hide NextLevel, LevelPruned, Unrelated, StepsDown, Children, AboutMaterials, IsMaterialRelated, At;
    forall c | c in NextLevel(level, LevelPruned(level, cfg)) ensures StepsDown(stage, starting, n + 1, c.path) {
      var g := NextLevelMembers(level, LevelPruned(level, cfg), c);
      AboutMaterialsIff(g.prim);
      ChildIsDown(stage, starting, n, g, c);
    }
  }

  lemma LevelIsReached(stage: Prim, starting: seq<Handle>, n: nat, level: seq<Handle>, cfg: Config, maxDepth: nat)
    requires Unrelated(level) && OnStage(stage, level) && LevelDown(stage, starting, n, level)
    requires maxDepth == 0 || n < maxDepth
    ensures AllReached(stage, starting, maxDepth, LevelPlan(level, cfg))
  {
    hide StepsDown, Merges, LevelPlan, StructuralKey, SubtreeValuesMatch, IsMaterialRelated, AboutMaterials;
    forall p, d | Merges(LevelPlan(level, cfg), p, d) ensures BothReached(stage, starting, maxDepth, p, d) {
      var h, g := MergeInLevel(level, cfg, p, d);
      LevelCopies(stage, level, cfg, p, d);
      AboutMaterialsIff(At(stage, p).value);
      AboutMaterialsIff(At(stage, d).value);
      hide Unrelated, OnStage;
      assert Reached(stage, starting, n, p) && Reached(stage, starting, n, d);
    }
  }

  lemma SumIsReached(stage: Prim, starting: seq<Handle>, maxDepth: nat, a: Plan, b: Plan, sum: Plan)
    requires AllReached(stage, starting, maxDepth, a) && AllReached(stage, starting, maxDepth, b)
    requires forall p, d :: Merges(sum, p, d) <==> Merges(a, p, d) || Merges(b, p, d)
    ensures AllReached(stage, starting, maxDepth, sum)
  {
    hide Merges, BothReached;
  }

  // One round keeps what is known of the level and of the plan.
  lemma RoundReaches(stage: Prim, starting: seq<Handle>, level: seq<Handle>, plan: Plan, cfg: Config, depth: nat, maxDepth: nat)
    returns (next: seq<Handle>, plan': Plan)
    requires WellFormed(stage) && Unrelated(level) && OnStage(stage, level) && Below(level, plan) && depth > 0
    requires LevelDown(stage, starting, depth - 1, level) && AllReached(stage, starting, maxDepth, plan)
    requires level != [] && !(maxDepth > 0 && depth > maxDepth)
    ensures Remaining(next) < Remaining(level)
    ensures Unrelated(next) && OnStage(stage, next) && Below(next, plan')
    ensures LevelDown(stage, starting, depth, next) && AllReached(stage, starting, maxDepth, plan')
    ensures Search(stage, level, plan, cfg, depth, maxDepth) == Search(stage, next, plan', cfg, depth + 1, maxDepth)
  {
    hide *;
    next, plan' := NextRound(stage, level, plan, cfg, depth, maxDepth);
    NextIsDown(stage, starting, depth - 1, level, cfg);
    LevelIsReached(stage, starting, depth - 1, level, cfg, maxDepth);
    SumIsReached(stage, starting, maxDepth, plan, LevelPlan(level, cfg), plan');
  }

  lemma {:induction false} SearchReaches(stage: Prim, starting: seq<Handle>, level: seq<Handle>, plan: Plan, cfg: Config,
                                         depth: nat, maxDepth: nat)
    requires WellFormed(stage) && Unrelated(level) && OnStage(stage, level) && Below(level, plan) && depth > 0
    requires LevelDown(stage, starting, depth - 1, level) && AllReached(stage, starting, maxDepth, plan)
    ensures AllReached(stage, starting, maxDepth, Search(stage, level, plan, cfg, depth, maxDepth))
    decreases Remaining(level)
  {
    hide *;
    if level == [] || (maxDepth > 0 && depth > maxDepth) {
      SearchIsOver(stage, level, plan, cfg, depth, maxDepth);
    } else {
      var next, plan' := RoundReaches(stage, starting, level, plan, cfg, depth, maxDepth);
      SearchReaches(stage, starting, next, plan', cfg, depth + 1, maxDepth);
    }
  }

  lemma StartsAreDown(stage: Prim, starting: seq<Handle>, maxDepth: nat)
    ensures LevelDown(stage, starting, 0, starting) && AllReached(stage, starting, maxDepth, map[])
  {
    forall h | h in starting ensures StepsDown(stage, starting, 0, h.path) {
      assert h.path == h.path + [] && Passes(stage, h.path, []);
    }
  }

  /** And nothing else is: prototype and duplicate are equally far below starting prims, not deeper than the limit, with
      nothing to do with materials at them or on the way. */
  lemma OnlyReachedAreMerged(stage: Prim, starting: seq<Handle>, cfg: Config, maxDepth: nat)
    requires WellFormed(stage) && Unrelated(starting) && OnStage(stage, starting)
    ensures AllReached(stage, starting, maxDepth, Search(stage, starting, map[], cfg, 1, maxDepth))
  {
    StartsAreDown(stage, starting, maxDepth);
    NothingYet(starting);
    hide *;
    SearchReaches(stage, starting, starting, map[], cfg, 1, maxDepth);
  }

  lemma NothingYet(level: seq<Handle>)
    ensures Below(level, map[])
  {
  }
}
