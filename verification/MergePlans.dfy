/** The outcome of the search: which paths become references to which prototypes. */
module MergePlans {
  import opened SceneTree
  import opened Sequences

  // Prototype path -> paths of its duplicates, in the order found.
  type Plan = map<Path, seq<Path>>

  ghost predicate Merges(plan: Plan, p: Path, d: Path)
  {
    p in plan && d in plan[p]
  }

  ghost predicate IsDuplicate(plan: Plan, d: Path)
  {
    exists p :: Merges(plan, p, d)
  }

  ghost predicate Touched(plan: Plan, r: Path)
  {
    r in plan || IsDuplicate(plan, r)
  }

  // Every prototype has duplicates, listed without repetition.
  ghost predicate ListedOnce(plan: Plan)
  {
    forall p :: p in plan ==> NoDuplicates(plan[p]) && plan[p] != []
  }

  ghost predicate OnePrototype(plan: Plan)
  {
    forall p, q, d :: Merges(plan, p, d) && Merges(plan, q, d) ==> p == q
  }

  // No path is both prototype and duplicate.
  ghost predicate RolesDisjoint(plan: Plan)
  {
    forall p, d :: Merges(plan, p, d) ==> d !in plan
  }

  // Nothing recorded lies below a duplicate.
  ghost predicate NothingBelowDuplicates(plan: Plan)
  {
    forall d, r :: IsDuplicate(plan, d) && Touched(plan, r) ==> !(d < r)
  }

  ghost predicate Tidy(plan: Plan)
  {
    ListedOnce(plan) && OnePrototype(plan) && RolesDisjoint(plan) && NothingBelowDuplicates(plan)
  }

  // b was recorded later, at paths neither above what a recorded nor at or below its duplicates.
  ghost predicate Separate(a: Plan, b: Plan)
  {
    && (forall r, s :: Touched(a, r) && Touched(b, s) ==> !(s <= r))
    && (forall d, s :: IsDuplicate(a, d) && Touched(b, s) ==> !(d <= s))
  }

  lemma SumMerges(a: Plan, b: Plan)
    requires Separate(a, b)
    ensures forall p :: !(p in a && p in b)
    ensures forall p, d :: Merges(a + b, p, d) <==> Merges(a, p, d) || Merges(b, p, d)
  {
    forall p | p in a && p in b ensures false {
      assert Touched(a, p) && Touched(b, p) && p <= p;
    }
  }

  lemma SumTouches(a: Plan, b: Plan)
    requires Separate(a, b)
    ensures forall d :: IsDuplicate(a + b, d) <==> IsDuplicate(a, d) || IsDuplicate(b, d)
    ensures forall r :: Touched(a + b, r) <==> Touched(a, r) || Touched(b, r)
  {
    SumMerges(a, b);
    forall d ensures IsDuplicate(a + b, d) <==> IsDuplicate(a, d) || IsDuplicate(b, d) {
      if IsDuplicate(a, d) {
        var p :| Merges(a, p, d);
        assert Merges(a + b, p, d);
      }
      if IsDuplicate(b, d) {
        var p :| Merges(b, p, d);
        assert Merges(a + b, p, d);
      }
    }
  }

  lemma SumRoles(a: Plan, b: Plan, p: Path, d: Path)
    requires Separate(a, b) && RolesDisjoint(a) && RolesDisjoint(b) && Merges(a + b, p, d)
    ensures d !in a + b
  {
    SumMerges(a, b);
    assert d <= d;
    if Merges(a, p, d) {
      assert IsDuplicate(a, d);
      assert d in b ==> Touched(b, d);
    } else {
      assert IsDuplicate(b, d) && Touched(b, d);
      assert d in a ==> Touched(a, d);
    }
  }

  lemma SumOnePrototype(a: Plan, b: Plan, p: Path, q: Path, d: Path)
    requires Separate(a, b) && OnePrototype(a) && OnePrototype(b) && Merges(a + b, p, d) && Merges(a + b, q, d)
    ensures p == q
  {
    SumMerges(a, b);
    assert d <= d;
    assert Merges(b, p, d) || Merges(b, q, d) ==> Touched(b, d);
    assert Merges(a, p, d) || Merges(a, q, d) ==> IsDuplicate(a, d);
  }

  // Plans about separate parts of the stage can be put together.
  lemma SumIsTidy(a: Plan, b: Plan)
    requires Tidy(a) && Tidy(b) && Separate(a, b)
    ensures Tidy(a + b)
  {
    SumMerges(a, b);
    SumTouches(a, b);
    forall p, d | Merges(a + b, p, d) ensures d !in a + b {
      SumRoles(a, b, p, d);
    }
    forall p, q, d | Merges(a + b, p, d) && Merges(a + b, q, d) ensures p == q {
      SumOnePrototype(a, b, p, q, d);
    }
    forall d, r | IsDuplicate(a + b, d) && Touched(a + b, r) ensures !(d < r) {
      assert IsDuplicate(b, d) ==> Touched(b, d);
    }
  }
}
