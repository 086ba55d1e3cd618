/** What is counted for one prim, and how counters are combined. */
module SceneCounters {
  import opened KeyedSums

  // ---------- A prim ----------

  datatype Interpolation = Constant | Uniform | PerPoint | FaceVarying | Unknown

  // `stored` is the number of its indices if it has any, else of its values.
  datatype Primvar = Primvar(name: string, size: nat, interpolation: Interpolation, stored: nat)

  datatype Kind =
    | Container                                            // a transform or scope
    | Material(hash: nat)
    | Points(vertices: nat)
    | Mesh(vertices: nat, faces: nat, corners: nat, disjoint: nat)
    | Plain

  // What one prim contributes apart from its visibility.
  datatype Facts = Facts(
    typeName: string,
    imageable: bool,
    authoredInvisible: bool,
    active: bool,
    instanceable: bool,
    instance: bool,
    proxy: bool,
    defined: bool,
    kind: Kind,
    samples: nat,
    primvars: seq<Primvar>)

  // ---------- Counters ----------

  datatype PrimInfo = PrimInfo(
    count: nat, disjoint: nat, inactive: nat, leaf: nat, invisible: nat, unique: nat, materials: set<nat>)

  const NO_INFO := PrimInfo(0, 0, 0, 0, 0, 0, {})

  function AddInfo(a: PrimInfo, b: PrimInfo): PrimInfo
  {
    PrimInfo(a.count + b.count, a.disjoint + b.disjoint, a.inactive + b.inactive, a.leaf + b.leaf,
             a.invisible + b.invisible, a.unique + b.unique, a.materials + b.materials)
  }

  datatype PrimvarStats = PrimvarStats(count: nat, valueCount: nat, sizeOf: nat)

  const NO_PRIMVARS := PrimvarStats(0, 0, 0)

  function NonzeroLast(a: nat, b: nat): nat { if b != 0 then b else a }

  // A size that is not zero replaces the one that was there.
  function AddPrimvars(a: PrimvarStats, b: PrimvarStats): PrimvarStats
  {
    PrimvarStats(a.count + b.count, a.valueCount + b.valueCount, NonzeroLast(a.sizeOf, b.sizeOf))
  }

  datatype Totals = Totals(
    prims: nat, instanceable: nat, instances: nat, inactive: nat, invisible: nat, timeSamples: nat, vertices: nat,
    faces: nat, geometries: nat)
  {
    function Plus(o: Totals): Totals
    {
      Totals(prims + o.prims, instanceable + o.instanceable, instances + o.instances, inactive + o.inactive,
             invisible + o.invisible, timeSamples + o.timeSamples, vertices + o.vertices, faces + o.faces,
             geometries + o.geometries)
    }
  }

  const NO_TOTALS := Totals(0, 0, 0, 0, 0, 0, 0, 0, 0)

  type Types = map<string, PrimInfo>

  datatype StatCounters = StatCounters(totals: Totals, types: Types, primvars: map<string, PrimvarStats>) {
    function Plus(o: StatCounters): StatCounters
    {
      StatCounters(totals.Plus(o.totals), Merged(types, o.types, NO_INFO, AddInfo),
                   Merged(primvars, o.primvars, NO_PRIMVARS, AddPrimvars))
    }
  }

  const NO_STATS := StatCounters(NO_TOTALS, map[], map[])

  // ---------- The part that does not depend on the order ----------

  datatype Tally = Tally(count: nat, values: nat)

  const NO_TALLY := Tally(0, 0)

  function AddTally(a: Tally, b: Tally): Tally { Tally(a.count + b.count, a.values + b.values) }

  datatype Counters = Counters(totals: Totals, types: Types, primvars: map<string, Tally>) {
    function Plus(o: Counters): Counters
    {
      Counters(totals.Plus(o.totals), Merged(types, o.types, NO_INFO, AddInfo),
               Merged(primvars, o.primvars, NO_TALLY, AddTally))
    }
  }

  const NO_COUNTERS := Counters(NO_TOTALS, map[], map[])

  function TallyOf(s: PrimvarStats): Tally { Tally(s.count, s.valueCount) }

  function Tallies(primvars: map<string, PrimvarStats>): map<string, Tally>
  {
    map n | n in primvars :: TallyOf(primvars[n])
  }

  // Everything but the sizes of primvars.
  function Tallied(s: StatCounters): Counters { Counters(s.totals, s.types, Tallies(s.primvars)) }

  function SizeOf(s: StatCounters, n: string): nat { At(s.primvars, n, NO_PRIMVARS).sizeOf }

  // Tallies and sizes together are the counters.
  lemma TalliesAndSizes(s: StatCounters, t: StatCounters)
    requires Tallied(s) == Tallied(t) && forall n :: SizeOf(s, n) == SizeOf(t, n)
    ensures s == t
  {
    assert s.primvars.Keys == Tallies(s.primvars).Keys == t.primvars.Keys;
    forall n | n in s.primvars ensures s.primvars[n] == t.primvars[n] {
      assert Tallies(s.primvars)[n] == Tallies(t.primvars)[n] && SizeOf(s, n) == SizeOf(t, n);
    }
  }

  lemma InfoMonoid()
    ensures Monoid(NO_INFO, AddInfo) && Commutes(AddInfo)
  {
    forall x: PrimInfo ensures AddInfo(x, NO_INFO) == x == AddInfo(NO_INFO, x) {
      assert x.materials + {} == x.materials == {} + x.materials;
    }
    forall x: PrimInfo, y: PrimInfo, z: PrimInfo ensures AddInfo(AddInfo(x, y), z) == AddInfo(x, AddInfo(y, z)) {
      assert x.materials + y.materials + z.materials == x.materials + (y.materials + z.materials);
    }
    forall x: PrimInfo, y: PrimInfo ensures AddInfo(x, y) == AddInfo(y, x) {
      assert x.materials + y.materials == y.materials + x.materials;
    }
  }

  lemma TallyMonoid()
    ensures Monoid(NO_TALLY, AddTally) && Commutes(AddTally)
  {
  }

  // Adding primvars is a monoid, but the last size wins.
  lemma PrimvarMonoid()
    ensures Monoid(NO_PRIMVARS, AddPrimvars)
    ensures forall a: PrimvarStats, b: PrimvarStats {:trigger AddPrimvars(a, b)} ::
              AddPrimvars(a, b) == AddPrimvars(b, a) <==> a.sizeOf == b.sizeOf || a.sizeOf == 0 || b.sizeOf == 0
  {
  }

  lemma TotalsPlus(a: Totals, b: Totals, c: Totals)
    ensures a.Plus(b).Plus(c) == a.Plus(b.Plus(c)) && a.Plus(b) == b.Plus(a)
    ensures a.Plus(NO_TOTALS) == a == NO_TOTALS.Plus(a)
  {
  }

  // Without sizes counters add up in any order and grouping.
  lemma CountersPlus(a: Counters, b: Counters, c: Counters)
    ensures a.Plus(b).Plus(c) == a.Plus(b.Plus(c)) && a.Plus(b) == b.Plus(a)
    ensures a.Plus(NO_COUNTERS) == a == NO_COUNTERS.Plus(a)
  {
    TotalsPlus(a.totals, b.totals, c.totals);
    InfoMonoid();
    TallyMonoid();
    hide Monoid, Commutes, Totals.Plus;
    MergedAssociates(a.types, b.types, c.types, NO_INFO, AddInfo);
    MergedCommutes(a.types, b.types, NO_INFO, AddInfo);
    MergedNone(a.types, NO_INFO, AddInfo);
    MergedAssociates(a.primvars, b.primvars, c.primvars, NO_TALLY, AddTally);
    MergedCommutes(a.primvars, b.primvars, NO_TALLY, AddTally);
    MergedNone(a.primvars, NO_TALLY, AddTally);
    hide Merged;
  }

  // With sizes they add up in any grouping.
  lemma StatsPlus(a: StatCounters, b: StatCounters, c: StatCounters)
    ensures a.Plus(b).Plus(c) == a.Plus(b.Plus(c)) && a.Plus(NO_STATS) == a == NO_STATS.Plus(a)
  {
    TotalsPlus(a.totals, b.totals, c.totals);
    InfoMonoid();
    PrimvarMonoid();
    hide Monoid, Commutes, Totals.Plus, AddPrimvars;
    MergedAssociates(a.types, b.types, c.types, NO_INFO, AddInfo);
    MergedNone(a.types, NO_INFO, AddInfo);
    MergedAssociates(a.primvars, b.primvars, c.primvars, NO_PRIMVARS, AddPrimvars);
    MergedNone(a.primvars, NO_PRIMVARS, AddPrimvars);
    hide Merged;
  }

  // The sum of counters, taken apart.
  lemma PlusTallied(a: StatCounters, b: StatCounters)
    ensures Tallied(a.Plus(b)) == Tallied(a).Plus(Tallied(b))
    ensures forall n :: SizeOf(a.Plus(b), n) == NonzeroLast(SizeOf(a, n), SizeOf(b, n))
  {
    TalliesOfSum(a.primvars, b.primvars);
    PrimvarMonoid();
    hide Tallies, Monoid, Totals.Plus, Merged, At;
    forall n ensures SizeOf(a.Plus(b), n) == NonzeroLast(SizeOf(a, n), SizeOf(b, n)) {
      MergedAt(a.primvars, b.primvars, NO_PRIMVARS, AddPrimvars, n);
    }
  }

  lemma TallyAt(primvars: map<string, PrimvarStats>, n: string)
    ensures At(Tallies(primvars), n, NO_TALLY) == TallyOf(At(primvars, n, NO_PRIMVARS))
  {
  }

  lemma TallyOfSum(a: PrimvarStats, b: PrimvarStats)
    ensures TallyOf(AddPrimvars(a, b)) == AddTally(TallyOf(a), TallyOf(b))
  {
  }

  lemma TalliesOfSum(a: map<string, PrimvarStats>, b: map<string, PrimvarStats>)
    ensures Tallies(Merged(a, b, NO_PRIMVARS, AddPrimvars)) == Merged(Tallies(a), Tallies(b), NO_TALLY, AddTally)
  {
    var l, r := Tallies(Merged(a, b, NO_PRIMVARS, AddPrimvars)), Merged(Tallies(a), Tallies(b), NO_TALLY, AddTally);
    assert l.Keys == r.Keys == a.Keys + b.Keys;
    forall n | n in l ensures l[n] == r[n] {
      TallyAt(a, n);
      TallyAt(b, n);
      TallyOfSum(At(a, n, NO_PRIMVARS), At(b, n, NO_PRIMVARS));
      hide At, AddPrimvars, AddTally, TallyOf;
    }
    hide Merged, Tallies;
  }

  // The operator that combines two threads' counters.
  method AddStats(a: StatCounters, b: StatCounters) returns (r: StatCounters)
    ensures r == a.Plus(b)
  {
    InfoMonoid();
    PrimvarMonoid();
    hide Monoid, Commutes, Merged, Totals.Plus, AddPrimvars, AddInfo;
    var types := AddEntries(a.types, b.types, NO_INFO, AddInfo);
    var primvars := AddEntries(a.primvars, b.primvars, NO_PRIMVARS, AddPrimvars);
    r := StatCounters(a.totals.Plus(b.totals), types, primvars);
  }

  // ---------- One prim's share ----------

  function One(b: bool): nat { if b then 1 else 0 }

  function TypeName(f: Facts): string { if f.typeName == "" then "No Type" else f.typeName }

  function PointsOf(f: Facts): nat
  {
    if (f.kind.Points? || f.kind.Mesh?) && f.defined then f.kind.vertices else 0
  }

  function FacesOf(f: Facts): nat { if f.kind.Mesh? && f.defined then f.kind.faces else 0 }

  function CornersOf(f: Facts): nat { if f.kind.Mesh? && f.defined then f.kind.corners else 0 }

  // The number a renderer would expect, where the interpolation tells.
  function ValueCount(f: Facts, p: Primvar): nat
  {
    if p.interpolation.Constant? then 1
    else if FacesOf(f) != 0 && p.interpolation.Uniform? then FacesOf(f)
    else if PointsOf(f) != 0 && p.interpolation.PerPoint? then PointsOf(f)
    else if CornersOf(f) != 0 && p.interpolation.FaceVarying? then CornersOf(f)
    else p.stored
  }

  function OwnInfo(f: Facts, hidden: bool, empty: bool): PrimInfo
  {
    PrimInfo(1,
             if f.kind.Mesh? && f.defined && f.kind.disjoint > 1 then f.kind.disjoint else 0,
             One(!f.active),
             One(f.kind.Container? && empty),
             One(f.imageable && hidden),
             One(f.kind.Mesh? && !f.proxy),
             if f.kind.Material? && !f.proxy then {f.kind.hash} else {})
  }

  function OwnTotals(f: Facts, hidden: bool): Totals
  {
    Totals(1, One(f.instanceable), One(f.instance), One(!f.active), One(f.imageable && hidden), f.samples,
           PointsOf(f), FacesOf(f), One((f.kind.Points? || f.kind.Mesh?) && f.defined))
  }

  // The primvars that are looked at.
  function Looked(f: Facts): seq<Primvar> { if f.defined then f.primvars else [] }

  function OwnTallies(f: Facts, ps: seq<Primvar>): map<string, Tally>
  {
    if ps == [] then map[]
    else
      var p := ps[|ps| - 1];
      Merged(OwnTallies(f, ps[..|ps| - 1]), map[p.name := Tally(1, ValueCount(f, p))], NO_TALLY, AddTally)
  }

  function Own(f: Facts, hidden: bool, empty: bool): Counters
  {
    Counters(OwnTotals(f, hidden), map[TypeName(f) := OwnInfo(f, hidden, empty)], OwnTallies(f, Looked(f)))
  }

  datatype LastSize = Missing | Last(size: nat)

  // The size of the last primvar of that name.
  function LastSizeIn(ps: seq<Primvar>, n: string): LastSize
  {
    if ps == [] then Missing
    else if ps[|ps| - 1].name == n then Last(ps[|ps| - 1].size)
    else LastSizeIn(ps[..|ps| - 1], n)
  }

  function OwnSize(f: Facts, n: string): LastSize { LastSizeIn(Looked(f), n) }

  function SizeAfter(start: nat, own: LastSize): nat { if own.Last? then own.size else start }

  // ---------- The increments of one task on its thread's counters ----------

  method CountTotals(f: Facts, hidden: bool, start: Totals) returns (t: Totals)
    ensures t == start.Plus(OwnTotals(f, hidden))
  {
    t := start.(prims := start.prims + 1);
    if f.instanceable {
      t := t.(instanceable := t.instanceable + 1);
    }
    if f.instance {
      t := t.(instances := t.instances + 1);
    }
    if !f.active {
      t := t.(inactive := t.inactive + 1);
    }
    if f.imageable && hidden {
      t := t.(invisible := t.invisible + 1);
    }
    t := t.(timeSamples := t.timeSamples + f.samples);
    if f.defined {
      match f.kind {
        case Points(vertices) =>
          t := t.(geometries := t.geometries + 1, vertices := t.vertices + vertices);
        case Mesh(vertices, faces, _, _) =>
          t := t.(geometries := t.geometries + 1, vertices := t.vertices + vertices, faces := t.faces + faces);
        case _ =>
      }
    }
  }

  method CountInfo(f: Facts, hidden: bool, empty: bool, start: PrimInfo) returns (info: PrimInfo)
    ensures info == AddInfo(start, OwnInfo(f, hidden, empty))
  {
    info := start.(count := start.count + 1);
    if !f.active {
      info := info.(inactive := info.inactive + 1);
    }
    if f.imageable && hidden {
      info := info.(invisible := info.invisible + 1);
    }
    match f.kind {
      case Container =>
        if empty {
          info := info.(leaf := info.leaf + 1);
        }
      case Material(hash) =>
        if !f.proxy {
          info := info.(materials := info.materials + {hash});
        }
      case Mesh(_, _, _, disjoint) =>
        if f.defined && disjoint > 1 {
          info := info.(disjoint := info.disjoint + disjoint);
        }
        if !f.proxy {
          info := info.(unique := info.unique + 1);
        }
      case _ =>
    }
  }

  // A primvar is counted, and its size overwrites the one that was there, zero or not.
  function Bumped(f: Facts, primvars: map<string, PrimvarStats>, p: Primvar): map<string, PrimvarStats>
  {
    var stats := At(primvars, p.name, NO_PRIMVARS);
    primvars[p.name := PrimvarStats(stats.count + 1, stats.valueCount + ValueCount(f, p), p.size)]
  }

  lemma OwnMore(f: Facts, ps: seq<Primvar>, p: Primvar)
    ensures OwnTallies(f, ps + [p]) == Merged(OwnTallies(f, ps), map[p.name := Tally(1, ValueCount(f, p))], NO_TALLY, AddTally)
  {
    hide Merged, ValueCount, AddTally;
    var more := ps + [p];
    assert more != [] && more[..|more| - 1] == ps && more[|more| - 1] == p;
  }

  lemma BumpedTallies(f: Facts, start: map<string, Tally>, primvars: map<string, PrimvarStats>, ps: seq<Primvar>, p: Primvar)
    requires Tallies(primvars) == Merged(start, OwnTallies(f, ps), NO_TALLY, AddTally)
    ensures Tallies(Bumped(f, primvars, p)) == Merged(start, OwnTallies(f, ps + [p]), NO_TALLY, AddTally)
  {
    hide ValueCount, Merged, Bumped, Tallies, OwnTallies, At, AddTally;
    var share := Tally(1, ValueCount(f, p));
    BumpedIs(f, primvars, p);
    OwnMore(f, ps, p);
    TallyMonoid();
    hide Monoid, Commutes;
    MergedOne(Tallies(primvars), p.name, share, NO_TALLY, AddTally);
    MergedAssociates(start, OwnTallies(f, ps), map[p.name := share], NO_TALLY, AddTally);
  }

  lemma BumpedIs(f: Facts, primvars: map<string, PrimvarStats>, p: Primvar)
    ensures Tallies(Bumped(f, primvars, p))
            == Tallies(primvars)[p.name := AddTally(At(Tallies(primvars), p.name, NO_TALLY), Tally(1, ValueCount(f, p)))]
  {
    hide ValueCount;
  }

  function BumpedAll(f: Facts, start: map<string, PrimvarStats>, ps: seq<Primvar>): map<string, PrimvarStats>
  {
    if ps == [] then start else Bumped(f, BumpedAll(f, start, ps[..|ps| - 1]), ps[|ps| - 1])
  }

  lemma {:induction false} BumpedAllTallies(f: Facts, start: map<string, PrimvarStats>, ps: seq<Primvar>)
    ensures Tallies(BumpedAll(f, start, ps)) == Merged(Tallies(start), OwnTallies(f, ps), NO_TALLY, AddTally)
  {
    hide Bumped, Tallies, Merged, ValueCount;
    if ps == [] {
      TallyMonoid();
      MergedNone(Tallies(start), NO_TALLY, AddTally);
    } else {
      var init, p := ps[..|ps| - 1], ps[|ps| - 1];
      BumpedAllTallies(f, start, init);
      hide OwnTallies;
      BumpedTallies(f, Tallies(start), BumpedAll(f, start, init), init, p);
      assert ps == init + [p];
    }
  }

  lemma BumpedSize(f: Facts, primvars: map<string, PrimvarStats>, p: Primvar, n: string)
    ensures At(Bumped(f, primvars, p), n, NO_PRIMVARS).sizeOf
            == if n == p.name then p.size else At(primvars, n, NO_PRIMVARS).sizeOf
  {
    hide ValueCount;
  }

  lemma {:induction false} BumpedAllSizes(f: Facts, start: map<string, PrimvarStats>, ps: seq<Primvar>, n: string)
    ensures At(BumpedAll(f, start, ps), n, NO_PRIMVARS).sizeOf
            == SizeAfter(At(start, n, NO_PRIMVARS).sizeOf, LastSizeIn(ps, n))
  {
    hide Bumped, At, ValueCount;
    if ps != [] {
      BumpedAllSizes(f, start, ps[..|ps| - 1], n);
      BumpedSize(f, BumpedAll(f, start, ps[..|ps| - 1]), ps[|ps| - 1], n);
    }
  }

  method CountPrimvars(f: Facts, start: map<string, PrimvarStats>) returns (r: map<string, PrimvarStats>)
    ensures Tallies(r) == Merged(Tallies(start), OwnTallies(f, Looked(f)), NO_TALLY, AddTally)
    ensures forall n :: At(r, n, NO_PRIMVARS).sizeOf == SizeAfter(At(start, n, NO_PRIMVARS).sizeOf, OwnSize(f, n))
  {
    hide Merged, Tallies, ValueCount, OwnTallies, SizeAfter, LastSizeIn, At, Bumped;
    r := start;
    var ps := Looked(f);
    for i := 0 to |ps|
      invariant r == BumpedAll(f, start, ps[..i])
    {
      assert ps[..i + 1][..i] == ps[..i];
      r := Bumped(f, r, ps[i]);
    }
    assert ps[..|ps|] == ps;
    hide Looked, BumpedAll;
    BumpedAllTallies(f, start, ps);
    forall n ensures At(r, n, NO_PRIMVARS).sizeOf == SizeAfter(At(start, n, NO_PRIMVARS).sizeOf, OwnSize(f, n)) {
      BumpedAllSizes(f, start, ps, n);
    }
  }

  // One task adds the prim's own share, and sets the sizes of the primvars it has.
  ghost predicate CountsOwn(f: Facts, hidden: bool, empty: bool, start: StatCounters, c: StatCounters)
  {
    && Tallied(c) == Tallied(start).Plus(Own(f, hidden, empty))
    && forall n :: SizeOf(c, n) == SizeAfter(SizeOf(start, n), OwnSize(f, n))
  }

  method CountPrim(f: Facts, hidden: bool, empty: bool, start: StatCounters) returns (c: StatCounters)
    ensures CountsOwn(f, hidden, empty, start, c)
  {
    InfoMonoid();
    hide Monoid, Commutes, OwnInfo, OwnTotals, AddInfo, Totals.Plus, Merged, OwnTallies, OwnSize, Tallies;
    var totals := CountTotals(f, hidden, start.totals);
    var info := CountInfo(f, hidden, empty, At(start.types, TypeName(f), NO_INFO));
    var primvars := CountPrimvars(f, start.primvars);
    c := StatCounters(totals, start.types[TypeName(f) := info], primvars);
    MergedOne(start.types, TypeName(f), OwnInfo(f, hidden, empty), NO_INFO, AddInfo);
    hide At;
  }

  // There always are such counters.
  lemma SomeOwn(f: Facts, hidden: bool, empty: bool, start: StatCounters) returns (c: StatCounters)
    ensures CountsOwn(f, hidden, empty, start, c)
  {
    InfoMonoid();
    hide Monoid, Commutes, OwnInfo, AddInfo, Totals.Plus, Merged, OwnTallies, Tallies, At, LastSizeIn;
    var info := AddInfo(At(start.types, TypeName(f), NO_INFO), OwnInfo(f, hidden, empty));
    var primvars := BumpedAll(f, start.primvars, Looked(f));
    c := StatCounters(start.totals.Plus(OwnTotals(f, hidden)), start.types[TypeName(f) := info], primvars);
    MergedOne(start.types, TypeName(f), OwnInfo(f, hidden, empty), NO_INFO, AddInfo);
    BumpedAllTallies(f, start.primvars, Looked(f));
    forall n ensures SizeOf(c, n) == SizeAfter(SizeOf(start, n), OwnSize(f, n)) {
      BumpedAllSizes(f, start.primvars, Looked(f), n);
    }
  }
}
