/** Prims split in bulk into a transform and a child with the geometry: records are filled first, then replayed onto the
    layer under temporary names, and the renames are applied in chunks. */
module PrimSplitting {
  import opened Wrappers
  import XformStack

  type Name = string
  type Path = seq<Name>

  // What a property holds, as far as transforms are concerned.
  datatype Contents = OpOrder(tokens: seq<XformStack.Token>) | OpValue(value: Option<XformStack.Value>) | Other(id: int)

  type Properties = map<Name, Contents>

  // The specs that say something about a prim; specs that only hold others are not recorded.
  type Layer = map<Path, Properties>

  const TEMPORARY := "__temp_name__"
  const GEOMETRY: Path := ["Geometry"]

  predicate Inheritable(name: Name)
  {
    name == "material:binding" || name == "xformOpOrder" || "xformOp:" <= name
  }

  // What goes on the transform, and what goes on the child together with its copies of the pivots.
  function ParentPart(properties: Properties): Properties
  {
    map n | n in properties && Inheritable(n) :: properties[n]
  }

  function ChildPart(properties: Properties, pivots: Properties): Properties
  {
    (map n | n in properties && !Inheritable(n) :: properties[n]) + pivots
  }

  // One prim to split, as it is composed on the stage, with its pivot ops.
  datatype Job = Job(path: Path, properties: Properties, pivots: Properties)

  // The prim's place while it waits for its name.
  function Temporary(path: Path): (r: Path)
    ensures |r| == |path|
  {
    if path == [] then [] else path[..|path| - 1] + [TEMPORARY + path[|path| - 1]]
  }

  predicate Apart(p: Path, q: Path) { !(p <= q) && !(q <= p) }

  // The temporary names are free: nothing of the batch or of the layer is at or below one.
  ghost predicate NamesFree(start: Layer, jobs: seq<Job>)
  {
    && (forall i :: 0 <= i < |jobs| ==> jobs[i].path != [])
    && (forall i, j :: 0 <= i < |jobs| && 0 <= j < |jobs| ==> !(Temporary(jobs[i].path) <= jobs[j].path))
    && (forall i, k :: 0 <= i < |jobs| && k in start ==> !(Temporary(jobs[i].path) <= k))
  }

  // No prim of the batch lies above another, and the layer has every prim it has something below.
  ghost predicate Flat(start: Layer, jobs: seq<Job>)
  {
    && (forall i, j :: 0 <= i < |jobs| && 0 <= j < |jobs| ==> !(jobs[i].path < jobs[j].path))
    && (forall i, k :: 0 <= i < |jobs| && k in start && jobs[i].path < k ==> jobs[i].path in start)
  }

  // Different prims, none above another, with free temporary names.
  ghost predicate GoodJobs(layer: Layer, jobs: seq<Job>)
  {
    && NamesFree(layer, jobs) && Flat(layer, jobs)
    && (forall i, j :: 0 <= i < |jobs| && 0 <= j < |jobs| && i != j ==> Apart(jobs[i].path, jobs[j].path))
    && (forall i :: 0 <= i < |jobs| ==> forall n :: n in jobs[i].pivots ==> Inheritable(n))
  }

  // ---------- Edits of the namespace ----------

  // Removing a spec takes everything below it.
  function Removed(layer: Layer, removals: set<Path>): Layer
  {
    map k | k in layer && (forall r :: r in removals ==> !(r <= k)) :: layer[k]
  }

  // A rename needs its prim, and nothing may be where it is to be.
  ghost predicate CanRename(layer: Layer, from: Path, to: Path)
  {
    Apart(from, to) && from in layer && forall k :: k in layer ==> !(to <= k)
  }

  // Everything below moves along.
  ghost function Renamed(layer: Layer, from: Path, to: Path): Layer
    requires CanRename(layer, from, to)
  {
    (map k | k in layer && !(from <= k) :: layer[k]) + Moved(layer, from, to)
  }

  function Moved(layer: Layer, from: Path, to: Path): Layer
  {
    map k | k in (set q | q in layer && from <= q :: to + q[|from|..]) && from + k[|to|..] in layer :: layer[from + k[|to|..]]
  }

  lemma MovedAt(layer: Layer, from: Path, to: Path, k: Path)
    ensures k in Moved(layer, from, to) <==> to <= k && from + k[|to|..] in layer
    ensures k in Moved(layer, from, to) ==> Moved(layer, from, to)[k] == layer[from + k[|to|..]]
  {
    if k in Moved(layer, from, to) {
      var q :| q in layer && from <= q && k == to + q[|from|..];
      assert k[|to|..] == q[|from|..];
    }
    if to <= k && from + k[|to|..] in layer {
      var q := from + k[|to|..];
      assert q[|from|..] == k[|to|..] && to + q[|from|..] == k;
    }
  }

  lemma RenamedAt(layer: Layer, from: Path, to: Path, k: Path)
    requires CanRename(layer, from, to)
    ensures to <= k ==> (k in Renamed(layer, from, to) <==> from + k[|to|..] in layer)
    ensures to <= k && k in Renamed(layer, from, to) ==> Renamed(layer, from, to)[k] == layer[from + k[|to|..]]
    ensures from <= k ==> k !in Renamed(layer, from, to)
    ensures !(to <= k) && !(from <= k) ==> (k in Renamed(layer, from, to) <==> k in layer)
    ensures !(to <= k) && !(from <= k) && k in layer ==> Renamed(layer, from, to)[k] == layer[k]
  {
    MovedAt(layer, from, to, k);
    hide Moved;
    if from <= k && to <= k {
      Comparable(from, to, k);
    }
  }

  lemma Comparable(p: Path, q: Path, k: Path)
    requires p <= k && q <= k
    ensures !Apart(p, q)
  {
    if |p| <= |q| {
      assert p == q[..|p|];
    } else {
      assert q == p[..|q|];
    }
  }

  // ---------- The write phase ----------

  // The two specs of a split prim, at the given place.
  function WithSplit(layer: Layer, job: Job, place: Path): Layer
  {
    layer[place := ParentPart(job.properties)][place + GEOMETRY := ChildPart(job.properties, job.pivots)]
  }

  // The layer with the jobs' prims split under their own paths.
  function SplitLayer(layer: Layer, jobs: seq<Job>): Layer
  {
    if jobs == [] then layer
    else WithSplit(SplitLayer(layer, jobs[..|jobs| - 1]), jobs[|jobs| - 1], jobs[|jobs| - 1].path)
  }

  function WithTemporaries(layer: Layer, jobs: seq<Job>): Layer
  {
    if jobs == [] then layer
    else WithSplit(WithTemporaries(layer, jobs[..|jobs| - 1]), jobs[|jobs| - 1], Temporary(jobs[|jobs| - 1].path))
  }

  // The specs that stand where the split prims are going to be.
  function Removals(layer: Layer, jobs: seq<Job>): set<Path>
  {
    set i | 0 <= i < |jobs| && jobs[i].path in layer :: jobs[i].path
  }

  lemma RemovalsMore(layer: Layer, jobs: seq<Job>, job: Job)
    ensures Removals(layer, jobs + [job]) == Removals(layer, jobs) + if job.path in layer then {job.path} else {}
  {
    var more := jobs + [job];
    assert more[|jobs|] == job;
    forall k | k in Removals(layer, jobs) ensures k in Removals(layer, more) {
      var i :| 0 <= i < |jobs| && jobs[i].path in layer && k == jobs[i].path;
      assert more[i] == jobs[i];
    }
    forall k | k in Removals(layer, more) ensures k in Removals(layer, jobs) || k == job.path {
      var i :| 0 <= i < |more| && more[i].path in layer && k == more[i].path;
      if i < |jobs| {
        assert more[i] == jobs[i];
      }
    }
  }

  // The write phase: specs under temporary names.
  method WriteTemporaries(layer: Layer, jobs: seq<Job>) returns (r: Layer, removals: set<Path>, renames: seq<Path>)
    ensures removals == Removals(layer, jobs)
    ensures |renames| == |jobs| && forall i :: 0 <= i < |jobs| ==> renames[i] == jobs[i].path
    ensures r == WithTemporaries(layer, jobs)
  {
    hide Temporary, ParentPart, Removals;
    r, removals, renames := layer, {}, [];
    assert Removals(layer, []) == {} by { NoRemovals(layer); }
    assert jobs[..0] == [];
    for i := 0 to |jobs|
      invariant r == WithTemporaries(layer, jobs[..i])
      invariant removals == Removals(layer, jobs[..i])
      invariant |renames| == i && forall j :: 0 <= j < i ==> renames[j] == jobs[j].path
    {
      assert jobs[..i + 1][..i] == jobs[..i] && jobs[..i + 1] == jobs[..i] + [jobs[i]];
      RemovalsMore(layer, jobs[..i], jobs[i]);
      var job := jobs[i];
      var parent, child := Route(job.properties);
      r := r[Temporary(job.path) := parent][Temporary(job.path) + GEOMETRY := child + job.pivots];
      if job.path in layer {
        removals := removals + {job.path};
      }
      renames := renames + [job.path];
    }
    assert jobs[..|jobs|] == jobs;
  }

  lemma NoRemovals(layer: Layer)
    ensures Removals(layer, []) == {}
  {
  }

  method Route(properties: Properties) returns (parent: Properties, child: Properties)
    ensures parent == ParentPart(properties)
    ensures child == map n | n in properties && !Inheritable(n) :: properties[n]
  {
    parent, child := map[], map[];
    var todo := properties.Keys;
    while todo != {}
      invariant todo <= properties.Keys
      invariant parent == map n | n in properties && n !in todo && Inheritable(n) :: properties[n]
      invariant child == map n | n in properties && n !in todo && !Inheritable(n) :: properties[n]
      decreases todo
    {
      var n :| n in todo;
      if Inheritable(n) {
        parent := parent[n := properties[n]];
      } else {
        child := child[n := properties[n]];
      }
      todo := todo - {n};
    }
  }

  // ---------- Between the edits ----------

  // The specs at and below the given place are those of the split prim.
  ghost predicate SplitStands(layer: Layer, job: Job, place: Path)
  {
    && (forall k :: place <= k ==> (k in layer <==> k == place || k == place + GEOMETRY))
    && place in layer && layer[place] == ParentPart(job.properties)
    && place + GEOMETRY in layer && layer[place + GEOMETRY] == ChildPart(job.properties, job.pivots)
  }

  ghost predicate Empty(layer: Layer, place: Path)
  {
    forall k :: place <= k ==> k !in layer
  }

  // The job's prim is under its temporary name, or renamed, and the other place is empty.
  ghost predicate JobStands(layer: Layer, job: Job, done: bool)
  {
    SplitStands(layer, job, if done then job.path else Temporary(job.path))
    && Empty(layer, if done then Temporary(job.path) else job.path)
  }

  predicate Concerns(jobs: seq<Job>, k: Path)
  {
    exists i :: 0 <= i < |jobs| && (jobs[i].path <= k || Temporary(jobs[i].path) <= k)
  }

  predicate SameAt(a: Layer, b: Layer, k: Path)
  {
    (k in a <==> k in b) && (k in a ==> a[k] == b[k])
  }

  ghost predicate SameBelow(a: Layer, b: Layer, place: Path)
  {
    forall k :: place <= k ==> SameAt(a, b, k)
  }

  lemma StandsInBoth(a: Layer, b: Layer, job: Job, place: Path)
    requires SameBelow(a, b, place)
    ensures SplitStands(a, job, place) ==> SplitStands(b, job, place)
    ensures Empty(a, place) ==> Empty(b, place)
  {
    hide ParentPart, ChildPart;
    assert place <= place && place <= place + GEOMETRY;
    assert SameAt(a, b, place) && SameAt(a, b, place + GEOMETRY);
    if SplitStands(a, job, place) {
      forall k | place <= k ensures k in b <==> k == place || k == place + GEOMETRY {
        assert SameAt(a, b, k);
      }
    }
    if Empty(a, place) {
      forall k | place <= k ensures k !in b {
        assert SameAt(a, b, k);
      }
    }
  }

  ghost predicate OthersStand(start: Layer, jobs: seq<Job>, layer: Layer)
  {
    forall k :: !Concerns(jobs, k) ==> SameAt(start, layer, k)
  }

  // The state after the removals and the first n renames.
  ghost predicate RenamedSoFar(start: Layer, jobs: seq<Job>, n: nat, layer: Layer)
    requires n <= |jobs|
  {
    (forall i :: 0 <= i < |jobs| ==> JobStands(layer, jobs[i], i < n)) && OthersStand(start, jobs, layer)
  }

  lemma PrefixOfTemporary(p: Path, q: Path)
    requires q != [] && p <= Temporary(q)
    ensures p == Temporary(q) || p < q
  {
    if |p| < |q| {
      assert Temporary(q)[..|p|] == q[..|p|];
    }
  }

  // The places of the jobs, final and temporary, are all apart.
  lemma PlacesApart(layer: Layer, jobs: seq<Job>, i: nat, j: nat)
    requires GoodJobs(layer, jobs) && i < |jobs| && j < |jobs|
    ensures Apart(jobs[i].path, Temporary(jobs[j].path))
    ensures i != j ==> Apart(Temporary(jobs[i].path), Temporary(jobs[j].path))
  {
    var p, q := jobs[i].path, jobs[j].path;
    assert !(Temporary(q) <= p) && !(Temporary(p) <= q);
    if p <= Temporary(q) {
      PrefixOfTemporary(p, q);
    }
    if i != j {
      TemporariesApart(p, q);
    }
  }

  lemma TemporariesApart(p: Path, q: Path)
    requires p != [] && q != [] && Apart(p, q) && !(Temporary(p) <= q) && !(Temporary(q) <= p)
    ensures Apart(Temporary(p), Temporary(q))
  {
    if Temporary(p) <= Temporary(q) {
      TemporaryPrefix(p, q);
    }
    if Temporary(q) <= Temporary(p) {
      TemporaryPrefix(q, p);
    }
  }

  lemma TemporaryPrefix(p: Path, q: Path)
    requires p != [] && q != [] && Temporary(p) <= Temporary(q)
    ensures p == q || Temporary(p) <= q
  {
    var tp, tq := Temporary(p), Temporary(q);
    if |p| < |q| {
      assert tq[..|p|] == q[..|p|];
    } else {
      assert tp == tq;
      assert tp[|p| - 1][|TEMPORARY|..] == p[|p| - 1] && tq[|p| - 1][|TEMPORARY|..] == q[|p| - 1];
      assert p == tp[..|p| - 1] + [p[|p| - 1]];
      assert q == tq[..|p| - 1] + [q[|p| - 1]];
    }
  }

  // ---------- Layers with split prims ----------

  lemma SplitAt(layer: Layer, job: Job, place: Path, k: Path)
    ensures !(place <= k) ==> SameAt(layer, WithSplit(layer, job, place), k)
    ensures place <= k ==>
              (k in WithSplit(layer, job, place) <==> k == place || k == place + GEOMETRY || k in layer)
    ensures place in WithSplit(layer, job, place) && WithSplit(layer, job, place)[place] == ParentPart(job.properties)
    ensures place + GEOMETRY in WithSplit(layer, job, place)
            && WithSplit(layer, job, place)[place + GEOMETRY] == ChildPart(job.properties, job.pivots)
  {
    hide ParentPart, ChildPart;
    assert place != place + GEOMETRY;
  }

  lemma SplitStandsNow(layer: Layer, job: Job, place: Path)
    requires forall k :: k in layer && place <= k ==> k == place
    ensures SplitStands(WithSplit(layer, job, place), job, place)
  {
    forall k {
      SplitAt(layer, job, place, k);
    }
    hide WithSplit, ParentPart, ChildPart;
  }

  lemma SplitStandsStill(layer: Layer, job: Job, place: Path, other: Job, elsewhere: Path)
    requires SplitStands(layer, other, elsewhere) && Apart(place, elsewhere)
    ensures SplitStands(WithSplit(layer, job, place), other, elsewhere)
  {
    forall k | elsewhere <= k ensures SameAt(layer, WithSplit(layer, job, place), k) {
      SplitAt(layer, job, place, k);
      if place <= k {
        Comparable(place, elsewhere, k);
      }
    }
    hide WithSplit, SplitStands, SameAt;
    StandsInBoth(layer, WithSplit(layer, job, place), other, elsewhere);
  }

  lemma {:induction false} TemporariesAre(start: Layer, jobs: seq<Job>, n: nat)
    requires GoodJobs(start, jobs) && n <= |jobs|
    ensures forall i :: 0 <= i < n ==> SplitStands(WithTemporaries(start, jobs[..n]), jobs[i], Temporary(jobs[i].path))
    ensures forall k :: (forall i :: 0 <= i < n ==> !(Temporary(jobs[i].path) <= k)) ==>
              SameAt(start, WithTemporaries(start, jobs[..n]), k)
    decreases n
  {
    hide SplitStands, WithSplit, Temporary;
    if n > 0 {
      var init, job := jobs[..n - 1], jobs[n - 1];
      var before, place := WithTemporaries(start, init), Temporary(job.path);
      assert jobs[..n][..n - 1] == init;
      TemporariesAre(start, jobs, n - 1);
      assert WithTemporaries(start, jobs[..n]) == WithSplit(before, job, place);
      hide WithTemporaries;
      forall i | 0 <= i < n - 1 ensures SplitStands(WithSplit(before, job, place), jobs[i], Temporary(jobs[i].path)) {
        PlacesApart(start, jobs, n - 1, i);
        SplitStandsStill(before, job, place, jobs[i], Temporary(jobs[i].path));
      }
      forall k | place <= k ensures k !in before {
        TemporaryFree(start, jobs, n - 1, k);
        assert SameAt(start, before, k);
      }
      SplitStandsNow(before, job, place);
      forall k | forall i :: 0 <= i < n ==> !(Temporary(jobs[i].path) <= k)
        ensures SameAt(start, WithSplit(before, job, place), k) {
        SplitAt(before, job, place, k);
        assert SameAt(start, before, k);
      }
    }
  }

  // Below a temporary place nothing else is written.
  lemma TemporaryFree(start: Layer, jobs: seq<Job>, n: nat, k: Path)
    requires GoodJobs(start, jobs) && n < |jobs| && Temporary(jobs[n].path) <= k
    ensures k !in start && forall i :: 0 <= i < |jobs| && i != n ==> !(Temporary(jobs[i].path) <= k)
  {
    hide Temporary;
    forall i | 0 <= i < |jobs| && i != n ensures !(Temporary(jobs[i].path) <= k) {
      PlacesApart(start, jobs, n, i);
      if Temporary(jobs[i].path) <= k {
        Comparable(Temporary(jobs[i].path), Temporary(jobs[n].path), k);
      }
    }
  }

  lemma {:induction false} SplitLayerIs(start: Layer, jobs: seq<Job>, n: nat)
    requires GoodJobs(start, jobs) && Bare(start, jobs) && n <= |jobs|
    ensures forall i :: 0 <= i < n ==> SplitStands(SplitLayer(start, jobs[..n]), jobs[i], jobs[i].path)
    ensures forall k :: (forall i :: 0 <= i < n ==> !(jobs[i].path <= k)) ==> SameAt(start, SplitLayer(start, jobs[..n]), k)
    decreases n
  {
    hide SplitStands, WithSplit, Temporary;
    if n > 0 {
      var init, job := jobs[..n - 1], jobs[n - 1];
      var before := SplitLayer(start, init);
      assert jobs[..n][..n - 1] == init;
      SplitLayerIs(start, jobs, n - 1);
      assert SplitLayer(start, jobs[..n]) == WithSplit(before, job, job.path);
      hide SplitLayer;
      forall i | 0 <= i < n - 1 ensures SplitStands(WithSplit(before, job, job.path), jobs[i], jobs[i].path) {
        SplitStandsStill(before, job, job.path, jobs[i], jobs[i].path);
      }
      forall k | job.path <= k ensures k !in before {
        PlaceFree(start, jobs, n - 1, k);
        assert SameAt(start, before, k);
      }
      SplitStandsNow(before, job, job.path);
      forall k | forall i :: 0 <= i < n ==> !(jobs[i].path <= k) ensures SameAt(start, WithSplit(before, job, job.path), k) {
        SplitAt(before, job, job.path, k);
        assert SameAt(start, before, k);
      }
    }
  }

  /** In the resulting layer every property of a split prim is on exactly one side with its value, but for pivots, which
      are also on the child, and neither side has anything else. */
  lemma EveryPropertyOnce(start: Layer, jobs: seq<Job>, i: nat, n: Name)
    requires GoodJobs(start, jobs) && i < |jobs|
    ensures var job, layer := jobs[i], SplitLayer(Cleared(start, jobs), jobs);
            && job.path in layer && job.path + GEOMETRY in layer
            && var parent, child := layer[job.path], layer[job.path + GEOMETRY];
               && (n in parent || n in child <==> n in job.properties || n in job.pivots)
               && (n in parent && n in child ==> n in job.pivots)
               && (n in parent ==> n in job.properties && parent[n] == job.properties[n])
               && (n in child ==>
                     if n in job.pivots then child[n] == job.pivots[n]
                     else n in job.properties && child[n] == job.properties[n])
               && (n in job.pivots ==> n in child)
  {
    var base := Cleared(start, jobs);
    ClearedIsGood(start, jobs);
    hide Cleared;
    SplitLayerIs(base, jobs, |jobs|);
    assert jobs[..|jobs|] == jobs;
    assert SplitStands(SplitLayer(base, jobs), jobs[i], jobs[i].path);
    hide SplitLayer, Temporary;
  }

  // At and below a job's path there are no other jobs.
  lemma PlaceFree(start: Layer, jobs: seq<Job>, n: nat, k: Path)
    requires GoodJobs(start, jobs) && n < |jobs| && jobs[n].path <= k
    ensures forall i :: 0 <= i < |jobs| && i != n ==> !(jobs[i].path <= k)
    ensures forall i :: 0 <= i < |jobs| ==> !(Temporary(jobs[i].path) <= k)
  {
    hide Temporary;
    forall i | 0 <= i < |jobs|
      ensures i != n ==> !(jobs[i].path <= k)
      ensures !(Temporary(jobs[i].path) <= k) {
      PlacesApart(start, jobs, n, i);
      if jobs[i].path <= k && i != n {
        Comparable(jobs[i].path, jobs[n].path, k);
      }
      if Temporary(jobs[i].path) <= k {
        Comparable(jobs[n].path, Temporary(jobs[i].path), k);
      }
    }
  }

  // ---------- The removals ----------

  lemma RemovedAt(layer: Layer, start: Layer, jobs: seq<Job>, k: Path)
    ensures k in Removed(layer, Removals(start, jobs)) <==>
              k in layer && forall i :: 0 <= i < |jobs| && jobs[i].path in start ==> !(jobs[i].path <= k)
    ensures k in Removed(layer, Removals(start, jobs)) ==> Removed(layer, Removals(start, jobs))[k] == layer[k]
  {
    if k in layer && forall i :: 0 <= i < |jobs| && jobs[i].path in start ==> !(jobs[i].path <= k) {
      forall r | r in Removals(start, jobs) ensures !(r <= k) {
      }
    }
    forall i | 0 <= i < |jobs| && jobs[i].path in start ensures jobs[i].path in Removals(start, jobs) {
    }
  }

  // The layer after the removals.
  function AfterRemovals(start: Layer, jobs: seq<Job>): Layer
  {
    Removed(WithTemporaries(start, jobs), Removals(start, jobs))
  }

  // The layer without what lies at or below the split prims.
  function Cleared(start: Layer, jobs: seq<Job>): Layer { Removed(start, Removals(start, jobs)) }

  ghost predicate Bare(layer: Layer, jobs: seq<Job>)
  {
    forall i, k :: 0 <= i < |jobs| && k in layer ==> !(jobs[i].path <= k)
  }

  lemma ClearedIsGood(start: Layer, jobs: seq<Job>)
    requires GoodJobs(start, jobs)
    ensures GoodJobs(Cleared(start, jobs), jobs) && Bare(Cleared(start, jobs), jobs)
  {
    hide Removed, Removals, Temporary;
    forall i, k | 0 <= i < |jobs| && k in Cleared(start, jobs) ensures k in start && !(jobs[i].path <= k) {
      assert jobs[i].path <= k ==> jobs[i].path < k || jobs[i].path == k;
      RemovedAt(start, start, jobs, k);
    }
  }

  lemma RemovalLeaves(start: Layer, jobs: seq<Job>, k: Path)
    requires GoodJobs(start, jobs)
    ensures var written := WithTemporaries(start, jobs);
            && ((exists i :: 0 <= i < |jobs| && jobs[i].path <= k) ==> k !in Removed(written, Removals(start, jobs)))
            && ((forall i :: 0 <= i < |jobs| ==> !(jobs[i].path <= k)) ==>
                  SameAt(written, Removed(written, Removals(start, jobs)), k) && SameAt(start, Cleared(start, jobs), k))
  {
    var written := WithTemporaries(start, jobs);
    RemovedAt(written, start, jobs, k);
    RemovedAt(start, start, jobs, k);
    hide Removed, Removals, WithTemporaries, Temporary;
    if i :| 0 <= i < |jobs| && jobs[i].path <= k {
      TemporariesAre(start, jobs, |jobs|);
      assert jobs[..|jobs|] == jobs;
      PlaceFree(start, jobs, i, k);
      assert SameAt(start, written, k);
      if k in start {
        assert jobs[i].path == k || jobs[i].path < k;
      }
    }
  }

  lemma RemovalsDone(start: Layer, jobs: seq<Job>)
    requires GoodJobs(start, jobs)
    ensures RenamedSoFar(Cleared(start, jobs), jobs, 0, AfterRemovals(start, jobs))
  {
    var written, base := WithTemporaries(start, jobs), Cleared(start, jobs);
    var layer := Removed(written, Removals(start, jobs));
    TemporariesAre(start, jobs, |jobs|);
    assert jobs[..|jobs|] == jobs;
    forall k {
      RemovalLeaves(start, jobs, k);
    }
    hide Removed, Removals, WithTemporaries, Temporary, SplitStands, GoodJobs, SameAt, Cleared;
    forall i | 0 <= i < |jobs| ensures JobStands(layer, jobs[i], i < 0) {
      var place := Temporary(jobs[i].path);
      forall k | place <= k ensures SameAt(written, layer, k) {
        NoPathBelow(start, jobs, i, k);
      }
      StandsInBoth(written, layer, jobs[i], place);
      assert Empty(layer, jobs[i].path);
    }
    forall k | !Concerns(jobs, k) ensures SameAt(base, layer, k) {
      SameChain(start, written, layer, k);
      SameSwapped(start, base, k);
      SameChain(base, start, layer, k);
    }
  }

  lemma SameChain(a: Layer, b: Layer, c: Layer, k: Path)
    requires SameAt(a, b, k)
    ensures SameAt(b, c, k) <==> SameAt(a, c, k)
  {
  }

  lemma NoPathBelow(start: Layer, jobs: seq<Job>, n: nat, k: Path)
    requires GoodJobs(start, jobs) && n < |jobs| && Temporary(jobs[n].path) <= k
    ensures forall i :: 0 <= i < |jobs| ==> !(jobs[i].path <= k)
  {
    hide Temporary;
    forall i | 0 <= i < |jobs| ensures !(jobs[i].path <= k) {
      PlacesApart(start, jobs, i, n);
      if jobs[i].path <= k {
        Comparable(jobs[i].path, Temporary(jobs[n].path), k);
      }
    }
  }

  // ---------- What the removals take ----------

  lemma {:induction false} TemporariesWritten(start: Layer, jobs: seq<Job>, n: nat)
    requires n <= |jobs|
    ensures forall j :: 0 <= j < n ==> Temporary(jobs[j].path) in WithTemporaries(start, jobs[..n])
    ensures forall k :: k in start ==> k in WithTemporaries(start, jobs[..n])
    decreases n
  {
    hide Temporary;
    if n > 0 {
      assert jobs[..n][..n - 1] == jobs[..n - 1];
      TemporariesWritten(start, jobs, n - 1);
    }
  }

  // A job below another one is taken along by the removal: its temporary prim is gone before it is renamed.
  lemma NestedJobIsLost(start: Layer, jobs: seq<Job>, i: nat, j: nat)
    requires i < |jobs| && j < |jobs| && jobs[i].path in start && jobs[i].path < jobs[j].path
    ensures Temporary(jobs[j].path) !in AfterRemovals(start, jobs)
  {
    var p, q := jobs[i].path, jobs[j].path;
    assert p <= Temporary(q) by {
      assert p == q[..|p|] == Temporary(q)[..|p|];
    }
    RemovedAt(WithTemporaries(start, jobs), start, jobs, Temporary(q));
    hide Removed, Removals, WithTemporaries;
  }

  /** For any batch: every split prim is still there to be renamed after the removals, if and only if no prim of the batch
      that the layer has lies above another one of the batch. */
  lemma SplitPrimsKeptIff(start: Layer, jobs: seq<Job>)
    requires forall j :: 0 <= j < |jobs| ==> jobs[j].path != []
    requires forall i, j :: 0 <= i < |jobs| && 0 <= j < |jobs| ==> jobs[i].path != Temporary(jobs[j].path)
    ensures (forall j :: 0 <= j < |jobs| ==>
               Temporary(jobs[j].path) in AfterRemovals(start, jobs))
            <==> forall i, j :: 0 <= i < |jobs| && 0 <= j < |jobs| && jobs[i].path in start ==> !(jobs[i].path < jobs[j].path)
  {
    var written := WithTemporaries(start, jobs);
    TemporariesWritten(start, jobs, |jobs|);
    assert jobs[..|jobs|] == jobs;
    hide Removed, Removals, WithTemporaries, Temporary;
    if i, j :| 0 <= i < |jobs| && 0 <= j < |jobs| && jobs[i].path in start && jobs[i].path < jobs[j].path {
      NestedJobIsLost(start, jobs, i, j);
    } else {
      forall j | 0 <= j < |jobs| ensures Temporary(jobs[j].path) in Removed(written, Removals(start, jobs)) {
        RemovedAt(written, start, jobs, Temporary(jobs[j].path));
        forall i | 0 <= i < |jobs| && jobs[i].path in start ensures !(jobs[i].path <= Temporary(jobs[j].path)) {
          if jobs[i].path <= Temporary(jobs[j].path) {
            PrefixOfTemporary(jobs[i].path, jobs[j].path);
          }
        }
      }
    }
  }

  // What there is after the write phase: the old specs and the two of every split prim.
  lemma {:induction false} WrittenAre(start: Layer, jobs: seq<Job>, n: nat, k: Path)
    requires n <= |jobs|
    ensures k in WithTemporaries(start, jobs[..n]) <==>
              k in start
              || exists j :: 0 <= j < n && (k == Temporary(jobs[j].path) || k == Temporary(jobs[j].path) + GEOMETRY)
    decreases n
  {
    hide Temporary;
    if n > 0 {
      assert jobs[..n][..n - 1] == jobs[..n - 1];
      WrittenAre(start, jobs, n - 1, k);
    }
  }

  lemma LeftIs(start: Layer, jobs: seq<Job>, k: Path)
    ensures k in AfterRemovals(start, jobs) ==>
              (k in start && forall i :: 0 <= i < |jobs| && jobs[i].path in start ==> !(jobs[i].path <= k))
              || exists j :: 0 <= j < |jobs| && (k == Temporary(jobs[j].path) || k == Temporary(jobs[j].path) + GEOMETRY)
  {
    hide Removed, Removals, WithTemporaries, Temporary;
    RemovedAt(WithTemporaries(start, jobs), start, jobs, k);
    WrittenAre(start, jobs, |jobs|, k);
    assert jobs[..|jobs|] == jobs;
  }

  lemma NotAboveTemporary(p: Path, q: Path)
    requires q != [] && !(p < q) && !(Temporary(q) <= p)
    ensures !(p <= Temporary(q)) && !(p <= Temporary(q) + GEOMETRY)
  {
    if p <= Temporary(q) {
      PrefixOfTemporary(p, q);
    }
    hide Temporary;
    assert p <= Temporary(q) + GEOMETRY ==> p <= Temporary(q) || Temporary(q) <= p;
  }

  lemma FlatIsEmpty(start: Layer, jobs: seq<Job>, i: nat, k: Path)
    requires NamesFree(start, jobs) && Flat(start, jobs) && i < |jobs| && k in AfterRemovals(start, jobs)
    ensures !(jobs[i].path <= k)
  {
    hide AfterRemovals, Temporary;
    LeftIs(start, jobs, k);
    var p := jobs[i].path;
    if j :| 0 <= j < |jobs| && (k == Temporary(jobs[j].path) || k == Temporary(jobs[j].path) + GEOMETRY) {
      NotAboveTemporary(p, jobs[j].path);
    } else {
      assert p <= k ==> p < k || p == k;
      assert p < k ==> p in start;
    }
  }

  lemma FlatCanBegin(start: Layer, jobs: seq<Job>, i: nat)
    requires NamesFree(start, jobs) && Flat(start, jobs) && i < |jobs|
    ensures CanRename(AfterRemovals(start, jobs), Temporary(jobs[i].path), jobs[i].path)
  {
    forall k | k in AfterRemovals(start, jobs) ensures !(jobs[i].path <= k) {
      FlatIsEmpty(start, jobs, i, k);
    }
    assert !(Temporary(jobs[i].path) <= jobs[i].path) && |Temporary(jobs[i].path)| == |jobs[i].path|;
    PathsAreNoNames(start, jobs);
    SplitPrimsKeptIff(start, jobs);
    hide Removed, Removals, WithTemporaries, Temporary, NamesFree;
  }

  lemma PathsAreNoNames(start: Layer, jobs: seq<Job>)
    requires NamesFree(start, jobs)
    ensures forall i, j :: 0 <= i < |jobs| && 0 <= j < |jobs| ==> jobs[i].path != Temporary(jobs[j].path)
  {
    hide Temporary;
    forall i, j | 0 <= i < |jobs| && 0 <= j < |jobs| ensures jobs[i].path != Temporary(jobs[j].path) {
      assert !(Temporary(jobs[j].path) <= jobs[i].path);
    }
  }

  // Of two nested prims one cannot be renamed: the inner one is gone, or stands where the outer one is to be.
  lemma NestedCannotBegin(start: Layer, jobs: seq<Job>, i: nat, j: nat)
    requires i < |jobs| && j < |jobs| && jobs[i].path < jobs[j].path
    ensures !CanRename(AfterRemovals(start, jobs), Temporary(jobs[i].path), jobs[i].path)
            || !CanRename(AfterRemovals(start, jobs), Temporary(jobs[j].path), jobs[j].path)
  {
    var p, q := jobs[i].path, jobs[j].path;
    assert p <= Temporary(q) by {
      assert p == q[..|p|] == Temporary(q)[..|p|];
    }
    hide AfterRemovals, Temporary;
    if Temporary(q) in AfterRemovals(start, jobs) {
      assert !CanRename(AfterRemovals(start, jobs), Temporary(p), p);
    }
  }

  // What is below a prim that the layer does not have stays there.
  lemma LooseCannotBegin(start: Layer, jobs: seq<Job>, i: nat, k: Path)
    requires i < |jobs| && k in start && jobs[i].path < k && jobs[i].path !in start
    requires forall a, b :: 0 <= a < |jobs| && 0 <= b < |jobs| ==> !(jobs[a].path < jobs[b].path)
    ensures !CanRename(AfterRemovals(start, jobs), Temporary(jobs[i].path), jobs[i].path)
  {
    hide Removed, Removals, WithTemporaries, Temporary;
    TemporariesWritten(start, jobs, |jobs|);
    assert jobs[..|jobs|] == jobs;
    RemovedAt(WithTemporaries(start, jobs), start, jobs, k);
    forall r | 0 <= r < |jobs| && jobs[r].path in start ensures !(jobs[r].path <= k) {
      NotBothAbove(jobs[r].path, jobs[i].path, k);
    }
    assert jobs[i].path <= k;
  }

  lemma NotBothAbove(p: Path, q: Path, k: Path)
    requires q < k && p != q && !(p < q) && !(q < p)
    ensures !(p <= k)
  {
    if p <= k {
      Comparable(p, q, k);
    }
  }

  /** For any batch with free names: after the removals every split prim can be renamed, if and only if no prim of the
      batch lies above another and the layer has every prim it has something below. */
  lemma RenamesCanBeginIff(start: Layer, jobs: seq<Job>)
    requires NamesFree(start, jobs)
    ensures (forall i :: 0 <= i < |jobs| ==>
               CanRename(AfterRemovals(start, jobs), Temporary(jobs[i].path), jobs[i].path))
            <==> Flat(start, jobs)
  {
    hide AfterRemovals, Temporary, CanRename, NamesFree;
    if Flat(start, jobs) {
      forall i | 0 <= i < |jobs| ensures CanRename(AfterRemovals(start, jobs), Temporary(jobs[i].path), jobs[i].path) {
        FlatCanBegin(start, jobs, i);
      }
    } else if i, j :| 0 <= i < |jobs| && 0 <= j < |jobs| && jobs[i].path < jobs[j].path {
      NestedCannotBegin(start, jobs, i, j);
    } else {
      var i, k :| 0 <= i < |jobs| && k in start && jobs[i].path < k && jobs[i].path !in start;
      LooseCannotBegin(start, jobs, i, k);
    }
  }

  /** What the layer has below one prim of the batch, and at or below no other, is lost if and only if it has the prim. */
  lemma BelowIsLostIff(start: Layer, jobs: seq<Job>, i: nat, k: Path)
    requires i < |jobs| && k in start && jobs[i].path < k
    requires forall j :: 0 <= j < |jobs| && j != i ==> !(jobs[j].path <= k)
    ensures k !in AfterRemovals(start, jobs) <==> jobs[i].path in start
  {
    TemporariesWritten(start, jobs, |jobs|);
    assert jobs[..|jobs|] == jobs;
    RemovedAt(WithTemporaries(start, jobs), start, jobs, k);
    hide Removed, Removals, WithTemporaries, Temporary;
    assert jobs[i].path <= k;
  }

  // Two nested prims: the outer one can be renamed, the inner one is gone, with its spec.
  lemma InnerPrimIsLost(start: Layer, jobs: seq<Job>)
    requires start == map[["a"] := map[], ["a", "b"] := map[]]
    requires jobs == [Job(["a"], map[], map[]), Job(["a", "b"], map[], map[])]
    ensures var layer := AfterRemovals(start, jobs);
            Temporary(["a"]) in layer && Temporary(["a", "b"]) !in layer && ["a", "b"] !in layer
  {
    var written := WithTemporaries(start, jobs);
    var outer, inner := jobs[0].path, jobs[1].path;
    TemporariesWritten(start, jobs, 2);
    assert jobs[..2] == jobs;
    assert Temporary(outer)[0] == TEMPORARY + "a" && |TEMPORARY + "a"| > |"a"|;
    hide Removed, Removals, WithTemporaries, Temporary;
    assert outer[0] == inner[0] == "a" && outer == inner[..1];
    NestedJobIsLost(start, jobs, 0, 1);
    RemovedAt(written, start, jobs, inner);
    RemovedAt(written, start, jobs, Temporary(outer));
    assert !(outer <= Temporary(outer)) && !(inner <= Temporary(outer));
  }

  // ---------- The renames ----------

  lemma OwnRename(layer: Layer, job: Job)
    requires JobStands(layer, job, false) && Apart(Temporary(job.path), job.path)
    ensures CanRename(layer, Temporary(job.path), job.path)
    ensures JobStands(Renamed(layer, Temporary(job.path), job.path), job, true)
  {
    hide Temporary, ParentPart, ChildPart;
    var from, to := Temporary(job.path), job.path;
    forall k | k in layer ensures !(to <= k) {
    }
    hide Renamed;
    SplitMoves(layer, job, from, to);
    forall k | from <= k ensures k !in Renamed(layer, from, to) {
      RenamedAt(layer, from, to, k);
    }
    hide SplitStands;
  }

  lemma SplitMoves(layer: Layer, job: Job, from: Path, to: Path)
    requires CanRename(layer, from, to) && SplitStands(layer, job, from)
    ensures SplitStands(Renamed(layer, from, to), job, to)
  {
    hide Renamed, ParentPart, ChildPart, CanRename;
    var layer' := Renamed(layer, from, to);
    forall k | to <= k ensures k in layer' <==> k == to || k == to + GEOMETRY {
      RenamedAt(layer, from, to, k);
      SameSuffix(from, to, k);
    }
    RenamedAt(layer, from, to, to);
    RenamedAt(layer, from, to, to + GEOMETRY);
    SameSuffix(from, to, to);
    SameSuffix(from, to, to + GEOMETRY);
  }

  lemma SameSuffix(from: Path, to: Path, k: Path)
    requires to <= k
    ensures from + k[|to|..] == from <==> k == to
    ensures from + k[|to|..] == from + GEOMETRY <==> k == to + GEOMETRY
    ensures from <= from + k[|to|..]
  {
    assert k == to + k[|to|..];
    if from + k[|to|..] == from + GEOMETRY {
      assert (from + k[|to|..])[|from|..] == (from + GEOMETRY)[|from|..];
    }
  }

  lemma OtherPlace(layer: Layer, from: Path, to: Path, place: Path)
    requires CanRename(layer, from, to) && Apart(from, place) && Apart(to, place)
    ensures SameBelow(layer, Renamed(layer, from, to), place)
  {
    hide Renamed, CanRename;
    forall k | place <= k ensures SameAt(layer, Renamed(layer, from, to), k) {
      RenamedAt(layer, from, to, k);
      if from <= k {
        Comparable(from, place, k);
      }
      if to <= k {
        Comparable(to, place, k);
      }
    }
  }

  lemma OtherJob(layer: Layer, from: Path, to: Path, job: Job, done: bool)
    requires CanRename(layer, from, to) && JobStands(layer, job, done)
    requires Apart(from, job.path) && Apart(to, job.path)
    requires Apart(from, Temporary(job.path)) && Apart(to, Temporary(job.path))
    ensures JobStands(Renamed(layer, from, to), job, done)
  {
    hide Renamed, CanRename, Temporary, Apart, SplitStands, Empty, SameBelow;
    OtherPlace(layer, from, to, job.path);
    OtherPlace(layer, from, to, Temporary(job.path));
    StandsInBoth(layer, Renamed(layer, from, to), job, job.path);
    StandsInBoth(layer, Renamed(layer, from, to), job, Temporary(job.path));
  }

  lemma OthersStay(start: Layer, jobs: seq<Job>, layer: Layer, n: nat)
    requires n < |jobs| && OthersStand(start, jobs, layer) && CanRename(layer, Temporary(jobs[n].path), jobs[n].path)
    ensures OthersStand(start, jobs, Renamed(layer, Temporary(jobs[n].path), jobs[n].path))
  {
    hide Renamed, CanRename, Temporary;
    var layer' := Renamed(layer, Temporary(jobs[n].path), jobs[n].path);
    forall k | !Concerns(jobs, k) ensures SameAt(start, layer', k) {
      RenamedAt(layer, Temporary(jobs[n].path), jobs[n].path, k);
      assert SameAt(start, layer, k);
    }
  }

  lemma OneMoreRenamed(start: Layer, jobs: seq<Job>, n: nat, layer: Layer)
    requires GoodJobs(start, jobs) && n < |jobs| && RenamedSoFar(start, jobs, n, layer)
    ensures CanRename(layer, Temporary(jobs[n].path), jobs[n].path)
    ensures RenamedSoFar(start, jobs, n + 1, Renamed(layer, Temporary(jobs[n].path), jobs[n].path))
  {
    hide Renamed, CanRename, JobStands, OthersStand, Temporary;
    assert JobStands(layer, jobs[n], n < n);
    PlacesApart(start, jobs, n, n);
    OwnRename(layer, jobs[n]);
    OthersStay(start, jobs, layer, n);
    var from, to := Temporary(jobs[n].path), jobs[n].path;
    forall i | 0 <= i < |jobs| ensures JobStands(Renamed(layer, from, to), jobs[i], i < n + 1) {
      if i != n {
        assert JobStands(layer, jobs[i], i < n);
        PlacesApart(start, jobs, i, n);
        PlacesApart(start, jobs, n, i);
        OtherJob(layer, from, to, jobs[i], i < n);
      }
    }
  }

  // Two layers in which the split prim stands are the same there.
  lemma SplitsAreSame(a: Layer, b: Layer, job: Job, place: Path, k: Path)
    requires SplitStands(a, job, place) && SplitStands(b, job, place) && place <= k
    ensures SameAt(a, b, k)
  {
    hide ParentPart, ChildPart;
  }

  lemma SameOutside(start: Layer, jobs: seq<Job>, layer: Layer, split: Layer, k: Path)
    requires GoodJobs(start, jobs) && RenamedSoFar(start, jobs, |jobs|, layer) && SameAt(start, split, k)
    requires forall i :: 0 <= i < |jobs| ==> !(jobs[i].path <= k)
    ensures SameAt(layer, split, k)
  {
    hide SameAt, Temporary, SplitStands;
    if i :| 0 <= i < |jobs| && Temporary(jobs[i].path) <= k {
      assert JobStands(layer, jobs[i], i < |jobs|);
      TemporaryFree(start, jobs, i, k);
      hide GoodJobs;
      BothMissing(start, layer, k);
    } else {
      hide GoodJobs;
      assert SameAt(start, layer, k);
    }
    SameSwapped(start, layer, k);
    SameChain(layer, start, split, k);
  }

  lemma AllRenamed(start: Layer, jobs: seq<Job>, layer: Layer)
    requires GoodJobs(start, jobs) && Bare(start, jobs) && RenamedSoFar(start, jobs, |jobs|, layer)
    ensures layer == SplitLayer(start, jobs)
  {
    var split := SplitLayer(start, jobs);
    SplitLayerIs(start, jobs, |jobs|);
    assert jobs[..|jobs|] == jobs;
    hide SplitLayer, Temporary, SplitStands, GoodJobs, SameAt, Empty, OthersStand;
    forall k ensures SameAt(layer, split, k) {
      if i :| 0 <= i < |jobs| && jobs[i].path <= k {
        assert JobStands(layer, jobs[i], i < |jobs|);
        SplitsAreSame(layer, split, jobs[i], jobs[i].path, k);
      } else {
        assert SameAt(start, split, k);
        SameOutside(start, jobs, layer, split, k);
      }
    }
    SameLayers(layer, split);
  }

  lemma BothMissing(a: Layer, b: Layer, k: Path)
    requires k !in a && k !in b
    ensures SameAt(a, b, k)
  {
  }

  lemma SameSwapped(a: Layer, b: Layer, k: Path)
    requires SameAt(a, b, k)
    ensures SameAt(b, a, k)
  {
  }

  lemma SameLayers(a: Layer, b: Layer)
    requires forall k :: SameAt(a, b, k)
    ensures a == b
  {
    forall k ensures k in a <==> k in b {
      assert SameAt(a, b, k);
    }
    forall k | k in a ensures a[k] == b[k] {
      assert SameAt(a, b, k);
    }
  }

  const CHUNK := 500

  // One batch of namespace edits.
  method ApplyChunk(layer: Layer, renames: seq<Path>, from: nat, to: nat, ghost start: Layer, ghost jobs: seq<Job>)
    returns (r: Layer)
    requires GoodJobs(start, jobs) && from <= to <= |jobs| == |renames|
    requires forall i :: 0 <= i < |jobs| ==> renames[i] == jobs[i].path
    requires RenamedSoFar(start, jobs, from, layer)
    ensures RenamedSoFar(start, jobs, to, r)
  {
    hide GoodJobs, RenamedSoFar, CanRename, Renamed, Moved, Temporary;
    r := layer;
    for k := from to to
      invariant RenamedSoFar(start, jobs, k, r)
    {
      OneMoreRenamed(start, jobs, k, r);
      r := RenameOne(r, Temporary(renames[k]), renames[k]);
    }
  }

  // A prim and everything below it, moved.
  method RenameOne(layer: Layer, from: Path, to: Path) returns (r: Layer)
    requires CanRename(layer, from, to)
    ensures r == Renamed(layer, from, to)
  {
    r := (map k | k in layer && !(from <= k) :: layer[k]) + Moved(layer, from, to);
  }

  /** Each rename is applied exactly once, whatever the number of chunks, and the layer ends up with the split prims under
      their own paths, without what was at or below these, and nothing else changed. */
  method SplitBatch(layer: Layer, jobs: seq<Job>) returns (r: Layer, applied: seq<Path>)
    requires GoodJobs(layer, jobs)
    ensures r == SplitLayer(Cleared(layer, jobs), jobs)
    ensures |applied| == |jobs| && forall i :: 0 <= i < |jobs| ==> applied[i] == jobs[i].path
  {
    hide GoodJobs, RenamedSoFar, SplitLayer, WithTemporaries, Removals, Removed, Cleared, Bare;
    ghost var base := Cleared(layer, jobs);
    ClearedIsGood(layer, jobs);
    var removals, renames;
    r, removals, renames := WriteTemporaries(layer, jobs);
    RemovalsDone(layer, jobs);
    r := Removed(r, removals);
    applied := [];
    var start := 0;
    while start < |renames|
      invariant start <= |renames| && applied == renames[..start] && RenamedSoFar(base, jobs, start, r)
    {
      var end := if start + CHUNK < |renames| then start + CHUNK else |renames|;
      r := ApplyChunk(r, renames, start, end, base, jobs);
      applied := applied + renames[start..end];
      start := end;
    }
    AllRenamed(base, jobs, r);
  }
}
