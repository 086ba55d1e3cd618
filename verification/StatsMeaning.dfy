/** What the reported statistics are: counts and sums over all prims of the scene, each with the prims above it. */
module StatsMeaning {
  import opened KeyedSums
  import opened SceneCounters
  import opened SceneStats

  // A prim, with what is known of those above it, from the top down.
  datatype Visit = Visit(above: seq<Facts>, node: Node) {
    function Own(): Facts { node.facts }
  }

  function Visits(n: Node, above: seq<Facts>): seq<Visit>
  {
    [Visit(above, n)] + VisitsAll(n.children, above + [n.facts])
  }

  function VisitsAll(ns: seq<Node>, above: seq<Facts>): seq<Visit>
  {
    if ns == [] then [] else Visits(ns[0], above) + VisitsAll(ns[1..], above)
  }

  function SumOf(vs: seq<Visit>, measure: Visit -> nat): nat
  {
    if vs == [] then 0 else measure(vs[0]) + SumOf(vs[1..], measure)
  }

  // ---------- What is counted ----------

  function CountIf(b: bool): nat { if b then 1 else 0 }

  ghost predicate Hidden(v: Visit)
  {
    && v.Own().imageable
    && (v.Own().authoredInvisible || exists i :: 0 <= i < |v.above| && v.above[i].imageable && v.above[i].authoredInvisible)
  }

  predicate OfType(v: Visit, name: string)
  {
    if v.Own().typeName != "" then v.Own().typeName == name else name == "No Type"
  }

  predicate IsGeometry(v: Visit) { v.Own().defined && (v.Own().kind.Points? || v.Own().kind.Mesh?) }

  function VerticesOf(v: Visit): nat { if IsGeometry(v) then v.Own().kind.vertices else 0 }

  function FacesIn(v: Visit): nat { if v.Own().defined && v.Own().kind.Mesh? then v.Own().kind.faces else 0 }

  function PartsOf(v: Visit): nat
  {
    if v.Own().defined && v.Own().kind.Mesh? && v.Own().kind.disjoint > 1 then v.Own().kind.disjoint else 0
  }

  // What the interpolation of a primvar promises, if it does, else what is stored.
  function Expected(kind: Kind, p: Primvar): nat
  {
    match (p.interpolation, kind)
    case (Constant, _) => 1
    case (Uniform, Mesh(_, faces, _, _)) => if faces > 0 then faces else p.stored
    case (PerPoint, Mesh(vertices, _, _, _)) => if vertices > 0 then vertices else p.stored
    case (PerPoint, Points(vertices)) => if vertices > 0 then vertices else p.stored
    case (FaceVarying, Mesh(_, _, corners, _)) => if corners > 0 then corners else p.stored
    case _ => p.stored
  }

  function Named(ps: seq<Primvar>, name: string): nat
  {
    if ps == [] then 0 else CountIf(ps[0].name == name) + Named(ps[1..], name)
  }

  function ExpectedIn(kind: Kind, ps: seq<Primvar>, name: string): nat
  {
    if ps == [] then 0 else (if ps[0].name == name then Expected(kind, ps[0]) else 0) + ExpectedIn(kind, ps[1..], name)
  }

  ghost predicate TotalsRight(vs: seq<Visit>, t: Totals)
  {
    && t.prims == |vs|
    && t.instanceable == SumOf(vs, (v: Visit) => CountIf(v.Own().instanceable))
    && t.instances == SumOf(vs, (v: Visit) => CountIf(v.Own().instance))
    && t.inactive == SumOf(vs, (v: Visit) => CountIf(!v.Own().active))
    && t.invisible == SumOf(vs, (v: Visit) => CountIf(Hidden(v)))
    && t.timeSamples == SumOf(vs, (v: Visit) => v.Own().samples)
    && t.vertices == SumOf(vs, (v: Visit) => VerticesOf(v))
    && t.faces == SumOf(vs, (v: Visit) => FacesIn(v))
    && t.geometries == SumOf(vs, (v: Visit) => CountIf(IsGeometry(v)))
  }

  // The entry of one type, zero where there is none.
  ghost predicate TypeRight(vs: seq<Visit>, name: string, info: PrimInfo)
  {
    && info.count == SumOf(vs, (v: Visit) => CountIf(OfType(v, name)))
    && info.disjoint == SumOf(vs, (v: Visit) => if OfType(v, name) then PartsOf(v) else 0)
    && info.inactive == SumOf(vs, (v: Visit) => CountIf(OfType(v, name) && !v.Own().active))
    && info.leaf == SumOf(vs, (v: Visit) => CountIf(OfType(v, name) && v.Own().kind.Container? && v.node.children == []))
    && info.invisible == SumOf(vs, (v: Visit) => CountIf(OfType(v, name) && Hidden(v)))
    && info.unique == SumOf(vs, (v: Visit) => CountIf(OfType(v, name) && v.Own().kind.Mesh? && !v.Own().proxy))
    && forall hash :: hash in info.materials <==>
         exists i :: 0 <= i < |vs| && OfType(vs[i], name) && !vs[i].Own().proxy && vs[i].Own().kind == Material(hash)
  }

  ghost predicate PrimvarRight(vs: seq<Visit>, name: string, tally: Tally)
  {
    && tally.count == SumOf(vs, (v: Visit) => if v.Own().defined then Named(v.Own().primvars, name) else 0)
    && tally.values
       == SumOf(vs, (v: Visit) => if v.Own().defined then ExpectedIn(v.Own().kind, v.Own().primvars, name) else 0)
  }

  ghost predicate CountersRight(vs: seq<Visit>, c: Counters)
  {
    && TotalsRight(vs, c.totals)
    && (forall name :: TypeRight(vs, name, At(c.types, name, NO_INFO)))
    && (forall name :: PrimvarRight(vs, name, At(c.primvars, name, NO_TALLY)))
  }

  // ---------- Sums over more visits ----------

  lemma {:induction false} SumOfConcat(a: seq<Visit>, b: seq<Visit>, measure: Visit -> nat)
    ensures SumOf(a + b, measure) == SumOf(a, measure) + SumOf(b, measure)
  {
    if a == [] {
      assert a + b == b;
    } else {
      assert (a + b)[1..] == a[1..] + b;
      SumOfConcat(a[1..], b, measure);
    }
  }

  lemma SumsAdd(a: seq<Visit>, b: seq<Visit>)
    ensures forall measure :: SumOf(a + b, measure) == SumOf(a, measure) + SumOf(b, measure)
  {
    forall measure {
      SumOfConcat(a, b, measure);
    }
  }

  lemma SumOfOne(v: Visit)
    ensures forall measure: Visit -> nat :: SumOf([v], measure) == measure(v)
  {
    assert [v][1..] == [];
  }

  lemma TotalsAdd(vs: seq<Visit>, a: Totals, ws: seq<Visit>, b: Totals)
    requires TotalsRight(vs, a) && TotalsRight(ws, b)
    ensures TotalsRight(vs + ws, a.Plus(b))
  {
    SumsAdd(vs, ws);
    hide SumOf;
  }

  lemma TypesAdd(vs: seq<Visit>, a: PrimInfo, ws: seq<Visit>, b: PrimInfo, name: string)
    requires TypeRight(vs, name, a) && TypeRight(ws, name, b)
    ensures TypeRight(vs + ws, name, AddInfo(a, b))
  {
    SumsAdd(vs, ws);
    hide SumOf, OfType, Hidden;
    var all := vs + ws;
    forall hash ensures hash in a.materials + b.materials <==>
              exists i :: 0 <= i < |all| && OfType(all[i], name) && !all[i].Own().proxy && all[i].Own().kind == Material(hash) {
      if i :| 0 <= i < |vs| && OfType(vs[i], name) && !vs[i].Own().proxy && vs[i].Own().kind == Material(hash) {
        assert all[i] == vs[i];
      }
      if i :| 0 <= i < |ws| && OfType(ws[i], name) && !ws[i].Own().proxy && ws[i].Own().kind == Material(hash) {
        assert all[|vs| + i] == ws[i];
      }
    }
  }

  lemma PrimvarsAdd(vs: seq<Visit>, a: Tally, ws: seq<Visit>, b: Tally, name: string)
    requires PrimvarRight(vs, name, a) && PrimvarRight(ws, name, b)
    ensures PrimvarRight(vs + ws, name, AddTally(a, b))
  {
    SumsAdd(vs, ws);
    hide SumOf, Named, ExpectedIn;
  }

  lemma CountersAdd(vs: seq<Visit>, a: Counters, ws: seq<Visit>, b: Counters)
    requires CountersRight(vs, a) && CountersRight(ws, b)
    ensures CountersRight(vs + ws, a.Plus(b))
  {
    hide TotalsRight, TypeRight, PrimvarRight, Totals.Plus, AddInfo, AddTally, Merged, At;
    TotalsAdd(vs, a.totals, ws, b.totals);
    InfoMonoid();
    TallyMonoid();
    hide Monoid, Commutes;
    forall name ensures TypeRight(vs + ws, name, At(a.Plus(b).types, name, NO_INFO)) {
      MergedAt(a.types, b.types, NO_INFO, AddInfo, name);
      TypesAdd(vs, At(a.types, name, NO_INFO), ws, At(b.types, name, NO_INFO), name);
    }
    forall name ensures PrimvarRight(vs + ws, name, At(a.Plus(b).primvars, name, NO_TALLY)) {
      MergedAt(a.primvars, b.primvars, NO_TALLY, AddTally, name);
      PrimvarsAdd(vs, At(a.primvars, name, NO_TALLY), ws, At(b.primvars, name, NO_TALLY), name);
    }
  }

  // ---------- One prim ----------

  lemma HiddenIs(v: Visit)
    ensures Hidden(v) <==> v.Own().imageable && HiddenBy(v.above + [v.Own()])
  {
    HiddenMore(v.above, v.Own());
  }

  lemma TotalsOfOne(v: Visit)
    ensures TotalsRight([v], OwnTotals(v.Own(), HiddenBy(v.above + [v.Own()])))
  {
    SumOfOne(v);
    HiddenIs(v);
    hide SumOf, Hidden, HiddenBy;
  }

  function InfoFor(v: Visit, name: string): PrimInfo
  {
    if TypeName(v.Own()) == name then OwnInfo(v.Own(), HiddenBy(v.above + [v.Own()]), v.node.children == []) else NO_INFO
  }

  lemma MaterialsOfOne(v: Visit, name: string)
    ensures forall hash :: hash in InfoFor(v, name).materials <==>
              exists i :: 0 <= i < |[v]| && OfType([v][i], name) && ![v][i].Own().proxy && [v][i].Own().kind == Material(hash)
  {
    hide HiddenBy;
    forall hash ensures hash in InfoFor(v, name).materials <==>
              exists i :: 0 <= i < |[v]| && OfType([v][i], name) && ![v][i].Own().proxy && [v][i].Own().kind == Material(hash) {
      assert [v][0] == v;
      assert hash in InfoFor(v, name).materials <==> OfType(v, name) && !v.Own().proxy && v.Own().kind == Material(hash);
      hide OfType, InfoFor;
    }
  }

  lemma TypeOfOne(v: Visit, name: string)
    ensures TypeRight([v], name, InfoFor(v, name))
  {
    SumOfOne(v);
    HiddenIs(v);
    MaterialsOfOne(v, name);
    hide SumOf, Hidden, HiddenBy;
  }

  lemma ExpectedIs(f: Facts, p: Primvar)
    requires f.defined
    ensures ValueCount(f, p) == Expected(f.kind, p)
  {
  }

  lemma OneMoreTally(f: Facts, ps: seq<Primvar>, p: Primvar, name: string)
    ensures At(OwnTallies(f, ps + [p]), name, NO_TALLY)
            == AddTally(At(OwnTallies(f, ps), name, NO_TALLY), if name == p.name then Tally(1, ValueCount(f, p)) else NO_TALLY)
  {
    hide ValueCount, Merged, At, OwnTallies, AddTally;
    OwnMore(f, ps, p);
    TallyMonoid();
    hide Monoid, Commutes;
    MergedAt(OwnTallies(f, ps), map[p.name := Tally(1, ValueCount(f, p))], NO_TALLY, AddTally, name);
    OneAt(p.name, Tally(1, ValueCount(f, p)), name);
  }

  lemma {:induction false} TallyOfOwn(f: Facts, ps: seq<Primvar>, name: string)
    requires f.defined
    ensures At(OwnTallies(f, ps), name, NO_TALLY) == Tally(Named(ps, name), ExpectedIn(f.kind, ps, name))
    decreases |ps|
  {
    hide ValueCount, Expected, At, OwnTallies;
    if ps == [] {
      NoTallies(f);
      NothingAt(name);
    } else {
      var init, p := ps[..|ps| - 1], ps[|ps| - 1];
      assert ps == init + [p];
      TallyOfOwn(f, init, name);
      ExpectedIs(f, p);
      OneMoreTally(f, init, p, name);
      NamedMore(f.kind, init, p, name);
      hide Named, ExpectedIn;
    }
  }

  lemma NothingAt(name: string)
    ensures At(map[], name, NO_TALLY) == NO_TALLY
  {
  }

  lemma OneAt(key: string, t: Tally, name: string)
    ensures At(map[key := t], name, NO_TALLY) == if name == key then t else NO_TALLY
  {
  }

  lemma {:induction false} NamedMore(kind: Kind, ps: seq<Primvar>, p: Primvar, name: string)
    ensures Named(ps + [p], name) == Named(ps, name) + CountIf(p.name == name)
    ensures ExpectedIn(kind, ps + [p], name) == ExpectedIn(kind, ps, name) + if p.name == name then Expected(kind, p) else 0
  {
    hide Expected;
    if ps == [] {
      assert [p][1..] == [] && ps + [p] == [p];
    } else {
      assert (ps + [p])[1..] == ps[1..] + [p];
      NamedMore(kind, ps[1..], p, name);
    }
  }

  lemma PrimvarOfOne(v: Visit, name: string)
    ensures PrimvarRight([v], name, At(OwnTallies(v.Own(), Looked(v.Own())), name, NO_TALLY))
  {
    SumOfOne(v);
    hide SumOf, OwnTallies, Named, ExpectedIn;
    if v.Own().defined {
      TallyOfOwn(v.Own(), v.Own().primvars, name);
    } else {
      NoTallies(v.Own());
      NothingAt(name);
    }
    hide At;
  }

  lemma NoTallies(f: Facts)
    ensures OwnTallies(f, []) == map[]
  {
  }

  lemma OwnIsRight(v: Visit)
    ensures CountersRight([v], Own(v.Own(), HiddenBy(v.above + [v.Own()]), v.node.children == []))
  {
    hide TotalsRight, TypeRight, PrimvarRight, OwnTotals, OwnInfo, OwnTallies, HiddenBy, TypeName;
    var own := Own(v.Own(), HiddenBy(v.above + [v.Own()]), v.node.children == []);
    TotalsOfOne(v);
    forall name
      ensures TypeRight([v], name, At(own.types, name, NO_INFO))
      ensures PrimvarRight([v], name, At(own.primvars, name, NO_TALLY)) {
      TypeOfOne(v, name);
      PrimvarOfOne(v, name);
    }
  }

  // The primvar is the last one of the name.
  predicate IsLast(ps: seq<Primvar>, name: string, k: nat)
    requires k < |ps|
  {
    ps[k].name == name && forall j :: k < j < |ps| ==> ps[j].name != name
  }

  lemma {:induction false} LastSizeIs(ps: seq<Primvar>, name: string)
    ensures LastSizeIn(ps, name).Missing? <==> forall k :: 0 <= k < |ps| ==> ps[k].name != name
    ensures LastSizeIn(ps, name).Last? ==>
              exists k :: 0 <= k < |ps| && IsLast(ps, name, k) && ps[k].size == LastSizeIn(ps, name).size
  {
    if ps == [] {
    } else if ps[|ps| - 1].name == name {
      assert IsLast(ps, name, |ps| - 1);
    } else {
      var init := ps[..|ps| - 1];
      LastSizeIs(init, name);
      assert forall k :: 0 <= k < |init| ==> init[k] == ps[k];
      if LastSizeIn(init, name).Last? {
        var k :| 0 <= k < |init| && IsLast(init, name, k) && init[k].size == LastSizeIn(init, name).size;
        assert IsLast(ps, name, k);
      }
    }
  }

  // What a prim says of the size of a primvar: that of its last primvar of the name, if it is defined and has one.
  lemma OwnSizeIs(f: Facts, name: string)
    ensures OwnSize(f, name).Missing? <==> !f.defined || forall k :: 0 <= k < |f.primvars| ==> f.primvars[k].name != name
    ensures OwnSize(f, name).Last? ==>
              exists k :: 0 <= k < |f.primvars| && IsLast(f.primvars, name, k) && f.primvars[k].size == OwnSize(f, name).size
  {
    LastSizeIs(if f.defined then f.primvars else [], name);
    hide LastSizeIn, IsLast;
  }

  // ---------- All prims ----------

  lemma {:induction false} CountIsOverVisits(n: Node, above: seq<Facts>)
    ensures CountersRight(Visits(n, above), Count(n, HiddenBy(above)))
    decreases n, 1
  {
    var chain := above + [n.facts];
    OwnIsRight(Visit(above, n));
    HiddenMore(above, n.facts);
    AllOverVisits(n.children, chain);
    hide CountersRight, HiddenBy, CountAll, Own, Counters.Plus, HiddenHere, VisitsAll;
    CountersAdd([Visit(above, n)], Own(n.facts, HiddenBy(chain), n.children == []),
                VisitsAll(n.children, chain), CountAll(n.children, HiddenBy(chain)));
  }

  lemma NothingCounted()
    ensures CountersRight([], NO_COUNTERS)
  {
    hide OfType, Hidden, IsGeometry;
  }

  lemma {:induction false} AllOverVisits(ns: seq<Node>, above: seq<Facts>)
    ensures CountersRight(VisitsAll(ns, above), CountAll(ns, HiddenBy(above)))
    decreases ns, 0
  {
    if ns == [] {
      NothingCounted();
    } else {
      CountIsOverVisits(ns[0], above);
      AllOverVisits(ns[1..], above);
      hide CountersRight, HiddenBy, Count, Counters.Plus, Visits;
      CountersAdd(Visits(ns[0], above), Count(ns[0], HiddenBy(above)),
                  VisitsAll(ns[1..], above), CountAll(ns[1..], HiddenBy(above)));
    }
  }

  /** Whatever the schedule, every number reported is a count or a sum over all prims of the scene: each total, each entry
      of a type, and for each primvar how often it occurs and how many values are expected of it. */
  lemma StatsAreCounts(roots: seq<Node>, turns: seq<Turn>, result: StatCounters)
    requires Outcome(roots, turns, result)
    ensures TotalsRight(VisitsAll(roots, []), result.totals)
    ensures forall name :: TypeRight(VisitsAll(roots, []), name, At(result.types, name, NO_INFO))
    ensures forall name ::
              var stats := At(result.primvars, name, NO_PRIMVARS);
              PrimvarRight(VisitsAll(roots, []), name, Tally(stats.count, stats.valueCount))
  {
    OutcomeCounts(roots, turns, result);
    AllOverVisits(roots, []);
    assert !HiddenBy([]);
    hide TotalsRight, TypeRight, PrimvarRight, CountAll, HiddenBy, Outcome, VisitsAll;
    forall name
      ensures var stats := At(result.primvars, name, NO_PRIMVARS);
              PrimvarRight(VisitsAll(roots, []), name, Tally(stats.count, stats.valueCount)) {
      TallyAt(result.primvars, name);
    }
  }
}
