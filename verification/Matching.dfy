/** When two subtrees count as copies of each other: structural key, value comparison, value fingerprint. */
module Matching {
  import opened Wrappers
  import opened SceneTree

  datatype Config = Config(tolerance: real, ignoreShaderOutputs: bool)

  // ---------- Structural key ----------

  // What the structural hash folds in for one prim: relative path, type and property names.
  datatype Entry = Entry(path: Path, typeName: string, properties: set<Name>)

  function EntryOf(v: Visit): Entry
  {
    Entry(v.path, v.prim.typeName, v.prim.attributes.Keys)
  }

  function Entries(vs: seq<Visit>): (es: seq<Entry>)
  {
    seq(|vs|, i requires 0 <= i < |vs| => EntryOf(vs[i]))
  }

  // The hash is taken to be injective, so the key is the hashed content itself.
  function StructuralKey(p: Prim): seq<Entry>
  {
    Entries(Preorder(p, []))
  }

  method StructuralHash(root: Prim) returns (key: seq<Entry>)
    ensures key == StructuralKey(root)
  {
    key := [];
    var range := Preorder(root, []);
    for i := 0 to |range|
      invariant key == Entries(range[..i])
    {
      key := key + [EntryOf(range[i])];
    }
    assert range[..|range|] == range;
  }

  // Same tree up to attribute values and the name of the root.
  ghost predicate SameShape(a: Prim, b: Prim)
  {
    && a.typeName == b.typeName
    && a.attributes.Keys == b.attributes.Keys
    && SameShapes(a.children, b.children)
  }

  ghost predicate SameShapes(xs: seq<Prim>, ys: seq<Prim>)
  {
    if xs == [] || ys == [] then xs == ys == []
    else xs[0].name == ys[0].name && SameShape(xs[0], ys[0]) && SameShapes(xs[1..], ys[1..])
  }

  lemma EntriesConcat(xs: seq<Visit>, ys: seq<Visit>)
    ensures Entries(xs + ys) == Entries(xs) + Entries(ys)
  {
  }

  // What follows the entries of a subtree at depth d belongs to a prim that is not below it.
  ghost predicate Outside(rest: seq<Entry>, d: nat)
  {
    rest == [] || |rest[0].path| <= d
  }

  // The entries of a row of siblings start one level below `path`, with the name of the first sibling.
  lemma FirstEntry(xs: seq<Prim>, path: Path, rest: seq<Entry>)
    ensures xs == [] ==> Entries(PreorderAll(xs, path)) + rest == rest
    ensures xs != [] ==> |Entries(PreorderAll(xs, path))| > 0 &&
                         (Entries(PreorderAll(xs, path)) + rest)[0].path == path + [xs[0].name]
  {
  }

  lemma {:induction false} DecodeSubtree(a: Prim, b: Prim, path: Path, restA: seq<Entry>, restB: seq<Entry>)
    requires Entries(Preorder(a, path)) + restA == Entries(Preorder(b, path)) + restB
    requires Outside(restA, |path|) && Outside(restB, |path|)
    ensures SameShape(a, b) && restA == restB
    decreases a, 1
  {
    hide SameShapes, Entries, PreorderAll, EntryOf;
    SubtreeEntries(a, path);
    SubtreeEntries(b, path);
    var la, lb := Entries(PreorderAll(a.children, path)) + restA, Entries(PreorderAll(b.children, path)) + restB;
    assert Entries(Preorder(a, path)) + restA == [Entry(path, a.typeName, a.attributes.Keys)] + la;
    assert Entries(Preorder(b, path)) + restB == [Entry(path, b.typeName, b.attributes.Keys)] + lb;
    assert ([Entry(path, a.typeName, a.attributes.Keys)] + la)[1..] == la;
    assert ([Entry(path, b.typeName, b.attributes.Keys)] + lb)[1..] == lb;
    DecodeSiblings(a.children, b.children, path, restA, restB);
  }

  lemma SubtreeEntries(p: Prim, path: Path)
    ensures Entries(Preorder(p, path))
         == [Entry(path, p.typeName, p.attributes.Keys)] + Entries(PreorderAll(p.children, path))
  {
    EntriesConcat([Visit(path, p)], PreorderAll(p.children, path));
  }

  lemma SiblingEntries(xs: seq<Prim>, path: Path, rest: seq<Entry>)
    requires xs != []
    ensures Entries(PreorderAll(xs, path)) + rest
         == Entries(Preorder(xs[0], path + [xs[0].name])) + (Entries(PreorderAll(xs[1..], path)) + rest)
  {
    hide Entries, Preorder;
    var first, others := Preorder(xs[0], path + [xs[0].name]), PreorderAll(xs[1..], path);
    EntriesConcat(first, others);
    assert PreorderAll(xs, path) == first + others;
    Associative(Entries(first), Entries(others), rest);
  }

  lemma Associative(xs: seq<Entry>, ys: seq<Entry>, zs: seq<Entry>)
    ensures (xs + ys) + zs == xs + (ys + zs)
  {
  }

  lemma {:induction false} DecodeSiblings(xs: seq<Prim>, ys: seq<Prim>, path: Path, restX: seq<Entry>, restY: seq<Entry>)
    requires Entries(PreorderAll(xs, path)) + restX == Entries(PreorderAll(ys, path)) + restY
    requires Outside(restX, |path|) && Outside(restY, |path|)
    ensures SameShapes(xs, ys) && restX == restY
    decreases xs, 0
  {
    FirstEntry(xs, path, restX);
    FirstEntry(ys, path, restY);
    if xs != [] && ys != [] {
      hide Entries, Preorder, PreorderAll, SameShape;
      SiblingEntries(xs, path, restX);
      SiblingEntries(ys, path, restY);
      var px, py := path + [xs[0].name], path + [ys[0].name];
      assert px[|path|] == xs[0].name && py[|path|] == ys[0].name;
      FirstEntry(xs[1..], path, restX);
      FirstEntry(ys[1..], path, restY);
      DecodeSubtree(xs[0], ys[0], px, Entries(PreorderAll(xs[1..], path)) + restX, Entries(PreorderAll(ys[1..], path)) + restY);
      DecodeSiblings(xs[1..], ys[1..], path, restX, restY);
    }
  }

  // The structural key determines the tree up to values and root name, and nothing more.
  lemma KeyDeterminesShape(a: Prim, b: Prim)
    ensures StructuralKey(a) == StructuralKey(b) <==> SameShape(a, b)
  {
    if StructuralKey(a) == StructuralKey(b) {
      assert StructuralKey(a) + [] == StructuralKey(b) + [];
      DecodeSubtree(a, b, [], [], []);
    }
    if SameShape(a, b) {
      ShapeGivesEntries(a, b, []);
    }
  }

  lemma {:induction false} ShapeGivesEntries(a: Prim, b: Prim, path: Path)
    requires SameShape(a, b)
    ensures Entries(Preorder(a, path)) == Entries(Preorder(b, path))
    decreases a, 1
  {
    EntriesConcat([Visit(path, a)], PreorderAll(a.children, path));
    EntriesConcat([Visit(path, b)], PreorderAll(b.children, path));
    ShapesGiveEntries(a.children, b.children, path);
  }

  lemma {:induction false} ShapesGiveEntries(xs: seq<Prim>, ys: seq<Prim>, path: Path)
    requires SameShapes(xs, ys)
    ensures Entries(PreorderAll(xs, path)) == Entries(PreorderAll(ys, path))
    decreases xs, 0
  {
    if xs != [] {
      EntriesConcat(Preorder(xs[0], path + [xs[0].name]), PreorderAll(xs[1..], path));
      EntriesConcat(Preorder(ys[0], path + [ys[0].name]), PreorderAll(ys[1..], path));
      ShapeGivesEntries(xs[0], ys[0], path + [xs[0].name]);
      ShapesGiveEntries(xs[1..], ys[1..], path);
    }
  }

  // ---------- Value comparison ----------

  predicate IsXformProperty(name: Name)
  {
    "xformOp:" <= name || name == "xformOpOrder"
  }

  predicate IsShaderOutput(name: Name)
  {
    "outputs:" <= name
  }

  predicate Skipped(name: Name, isRoot: bool, cfg: Config)
  {
    (isRoot && IsXformProperty(name)) || (cfg.ignoreShaderOutputs && IsShaderOutput(name))
  }

  function Abs(x: real): real { if x < 0.0 then -x else x }

  predicate IsClose(xs: seq<seq<real>>, ys: seq<seq<real>>, epsilon: real)
  {
    && |xs| == |ys|
    && forall i :: 0 <= i < |xs| ==>
         && |xs[i]| == |ys[i]|
         && forall j :: 0 <= j < |xs[i]| ==> Abs(xs[i][j] - ys[i][j]) < epsilon
  }

  predicate ValuesEqual(a: Value, b: Value, tolerance: real)
  {
    if tolerance <= 0.0 then a == b
    else if a.Floats? && b.Floats? && a.typeName == b.typeName && a.isArray == b.isArray then
      IsClose(a.elements, b.elements, tolerance)
    else a == b
  }

  // The attribute `name` of one prim against the same name on another; a missing attribute has no value.
  predicate AttributeMatches(name: Name, a: Attributes, b: Attributes, tolerance: real)
    requires name in a
  {
    var theirs := if name in b then b[name] else None;
    && a[name].Some? == theirs.Some?
    && (a[name].Some? ==> ValuesEqual(a[name].value, theirs.value, tolerance))
  }

  // The attributes that take part in the comparison.
  function Compared(p: Prim, isRoot: bool, cfg: Config): set<Name>
  {
    set name | name in p.attributes && !Skipped(name, isRoot, cfg)
  }

  predicate PrimMatches(a: Prim, b: Prim, isRoot: bool, cfg: Config)
  {
    && (forall name :: name in Compared(a, isRoot, cfg) ==>
          AttributeMatches(name, a.attributes, b.attributes, cfg.tolerance))
    && Compared(b, isRoot, cfg) <= a.attributes.Keys
  }

  // Prims are compared in lockstep along the two traversals.
  predicate VisitsMatch(xs: seq<Visit>, ys: seq<Visit>, cfg: Config)
  {
    && |xs| == |ys|
    && forall i :: 0 <= i < |xs| ==> PrimMatches(xs[i].prim, ys[i].prim, xs[i].path == [], cfg)
  }

  predicate SubtreeValuesMatch(a: Prim, b: Prim, cfg: Config)
  {
    VisitsMatch(Preorder(a, []), Preorder(b, []), cfg)
  }

  method CompareAttribute(name: Name, a: Attributes, b: Attributes, tolerance: real) returns (equal: bool)
    requires name in a
    ensures equal == AttributeMatches(name, a, b, tolerance)
  {
    var aHasValue := a[name].Some?;
    var bHasValue := name in b && b[name].Some?;
    if aHasValue != bHasValue {
      return false;
    }
    if !aHasValue {
      return true;
    }
    return ValuesEqual(a[name].value, b[name].value, tolerance);
  }

  // Pass 1: every compared attribute of A must match B.
  method FirstPass(names: set<Name>, a: Attributes, b: Attributes, tolerance: real)
    returns (equal: bool, seenOnA: set<Name>)
    requires names <= a.Keys
    ensures equal <==> forall n :: n in names ==> AttributeMatches(n, a, b, tolerance)
    ensures equal ==> seenOnA == names
  {
    seenOnA := {};
    var todo := names;
    while todo != {}
      invariant todo + seenOnA == names
      invariant forall n :: n in seenOnA ==> AttributeMatches(n, a, b, tolerance)
      decreases todo
    {
      var name :| name in todo;
      var same := CompareAttribute(name, a, b, tolerance);
      if !same {
        return false, seenOnA;
      }
      todo, seenOnA := todo - {name}, seenOnA + {name};
    }
    equal := true;
  }

  // Pass 2: every compared attribute of B must have been seen on A.
  method SecondPass(names: set<Name>, seenOnA: set<Name>) returns (equal: bool)
    ensures equal <==> names <= seenOnA
  {
    var todo := names;
    while todo != {}
      invariant todo <= names
      invariant names - todo <= seenOnA
      decreases todo
    {
      var name :| name in todo;
      if name !in seenOnA {
        return false;
      }
      todo := todo - {name};
    }
    equal := true;
  }

  method ComparePrims(a: Prim, b: Prim, isRoot: bool, cfg: Config) returns (equal: bool)
    ensures equal == PrimMatches(a, b, isRoot, cfg)
  {
    var seenOnA;
    equal, seenOnA := FirstPass(Compared(a, isRoot, cfg), a.attributes, b.attributes, cfg.tolerance);
    if equal {
      equal := SecondPass(Compared(b, isRoot, cfg), seenOnA);
      SkippedAlike(a, b, isRoot, cfg);
    }
  }

  // A name is skipped on both sides or on neither, so membership on A and among the compared ones of A agree.
  lemma SkippedAlike(a: Prim, b: Prim, isRoot: bool, cfg: Config)
    ensures Compared(b, isRoot, cfg) <= Compared(a, isRoot, cfg) <==> Compared(b, isRoot, cfg) <= a.attributes.Keys
  {
  }

  method SubtreeValuesEqual(rootA: Prim, rootB: Prim, cfg: Config) returns (equal: bool)
    ensures equal == SubtreeValuesMatch(rootA, rootB, cfg)
  {
    var rangeA, rangeB := Preorder(rootA, []), Preorder(rootB, []);
    var i := 0;
    while i < |rangeA| && i < |rangeB|
      invariant 0 <= i <= |rangeA| && i <= |rangeB|
      invariant forall k :: 0 <= k < i ==>
                  PrimMatches(rangeA[k].prim, rangeB[k].prim, rangeA[k].path == [], cfg)
    {
      var same := ComparePrims(rangeA[i].prim, rangeB[i].prim, rangeA[i].path == [], cfg);
      if !same {
        return false;
      }
      i := i + 1;
    }
    return i == |rangeA| && i == |rangeB|;
  }

  // ---------- What exact matching means for the tree ----------

  // The tree without its arcs: what a reader of the composed scene sees.
  function Plain(p: Prim): Prim
  {
    Prim(p.name, p.typeName, p.attributes, NoArcs, PlainAll(p.children))
  }

  function PlainAll(ps: seq<Prim>): (r: seq<Prim>)
    ensures |r| == |ps| && forall i :: 0 <= i < |ps| ==> r[i] == Plain(ps[i])
  {
    if ps == [] then [] else [Plain(ps[0])] + PlainAll(ps[1..])
  }

  predicate ExactMatching(cfg: Config)
  {
    cfg.tolerance <= 0.0 && !cfg.ignoreShaderOutputs
  }

  lemma VisitsMatchSplit(xs: seq<Visit>, xt: seq<Visit>, ys: seq<Visit>, yt: seq<Visit>, cfg: Config)
    requires |xs| == |ys|
    ensures VisitsMatch(xs + xt, ys + yt, cfg) <==> VisitsMatch(xs, ys, cfg) && VisitsMatch(xt, yt, cfg)
  {
    if VisitsMatch(xs + xt, ys + yt, cfg) {
      forall i | 0 <= i < |xs| ensures PrimMatches(xs[i].prim, ys[i].prim, xs[i].path == [], cfg) {
        assert (xs + xt)[i] == xs[i] && (ys + yt)[i] == ys[i];
      }
      forall i | 0 <= i < |xt| ensures PrimMatches(xt[i].prim, yt[i].prim, xt[i].path == [], cfg) {
        assert (xs + xt)[|xs| + i] == xt[i] && (ys + yt)[|xs| + i] == yt[i];
      }
    }
  }

  lemma SameShapeSameSize(a: Prim, b: Prim)
    requires SameShape(a, b)
    ensures Size(a) == Size(b)
  {
    KeyDeterminesShape(a, b);
    assert |StructuralKey(a)| == Size(a) && |StructuralKey(b)| == Size(b);
  }

  lemma {:induction false} ExactSubtree(a: Prim, b: Prim, path: Path, cfg: Config)
    requires ExactMatching(cfg) && path != [] && SameShape(a, b) && a.name == b.name
    requires VisitsMatch(Preorder(a, path), Preorder(b, path), cfg)
    ensures Plain(a) == Plain(b)
    decreases a, 1
  {
    VisitsMatchSplit([Visit(path, a)], PreorderAll(a.children, path), [Visit(path, b)], PreorderAll(b.children, path), cfg);
    assert PrimMatches([Visit(path, a)][0].prim, [Visit(path, b)][0].prim, [Visit(path, a)][0].path == [], cfg);
    assert forall n :: n in a.attributes ==> AttributeMatches(n, a.attributes, b.attributes, cfg.tolerance);
    assert a.attributes == b.attributes;
    ExactSiblings(a.children, b.children, path, cfg);
  }

  lemma {:induction false} ExactSiblings(xs: seq<Prim>, ys: seq<Prim>, path: Path, cfg: Config)
    requires ExactMatching(cfg) && SameShapes(xs, ys)
    requires VisitsMatch(PreorderAll(xs, path), PreorderAll(ys, path), cfg)
    ensures PlainAll(xs) == PlainAll(ys)
    decreases xs, 0
  {
    if xs != [] {
      var p := path + [xs[0].name];
      SameShapeSameSize(xs[0], ys[0]);
      VisitsMatchSplit(Preorder(xs[0], p), PreorderAll(xs[1..], path), Preorder(ys[0], p), PreorderAll(ys[1..], path), cfg);
      ExactSubtree(xs[0], ys[0], p, cfg);
      ExactSiblings(xs[1..], ys[1..], path, cfg);
    }
  }

  // Copies under exact comparison: equal below the root, and on the root equal in everything but placement.
  lemma ExactMatchMeansCopy(a: Prim, b: Prim, cfg: Config)
    requires ExactMatching(cfg) && StructuralKey(a) == StructuralKey(b) && SubtreeValuesMatch(a, b, cfg)
    ensures a.typeName == b.typeName && a.attributes.Keys == b.attributes.Keys
    ensures forall n :: n in a.attributes && !IsXformProperty(n) ==> a.attributes[n] == b.attributes[n]
    ensures PlainAll(a.children) == PlainAll(b.children)
  {
    KeyDeterminesShape(a, b);
    VisitsMatchSplit([Visit([], a)], PreorderAll(a.children, []), [Visit([], b)], PreorderAll(b.children, []), cfg);
    assert PrimMatches([Visit([], a)][0].prim, [Visit([], b)][0].prim, [Visit([], a)][0].path == [], cfg);
    forall n | n in a.attributes && !IsXformProperty(n) ensures a.attributes[n] == b.attributes[n] {
      assert AttributeMatches(n, a.attributes, b.attributes, cfg.tolerance);
    }
    ExactSiblings(a.children, b.children, [], cfg);
  }

  // ---------- Value fingerprint ----------

  // What the fingerprint folds in for one attribute.
  datatype Summary = Declared | Contents(value: Value) | Extent(typeName: string, arrayLength: Option<nat>)

  function Summarize(v: Option<Value>, tolerance: real): Summary
  {
    match v
    case None => Declared
    case Some(Floats(typeName, isArray, elements)) =>
      if tolerance <= 0.0 then Contents(v.value)
      else Extent(typeName, if isArray then Some(|elements|) else None)
    case Some(Exact(_, _)) => Contents(v.value)
  }

  // The participating attributes of one prim, which the code sorts by name before folding them in.
  function Participating(p: Prim, isRoot: bool, cfg: Config): map<Name, Summary>
  {
    map n | n in Compared(p, isRoot, cfg) :: Summarize(p.attributes[n], cfg.tolerance)
  }

  // One step of the running hash; any deterministic function will do.
  type Mixer = (int, map<Name, Summary>) -> int

  function Fold(mix: Mixer, seed: int, vs: seq<Visit>, cfg: Config): int
  {
    if vs == [] then seed
    else mix(Fold(mix, seed, vs[..|vs| - 1], cfg), Participating(vs[|vs| - 1].prim, vs[|vs| - 1].path == [], cfg))
  }

  function Fingerprint(mix: Mixer, seed: int, p: Prim, cfg: Config): int
  {
    Fold(mix, seed, Preorder(p, []), cfg)
  }

  method ValueFingerprint(mix: Mixer, seed: int, root: Prim, cfg: Config) returns (hash: int)
    ensures hash == Fingerprint(mix, seed, root, cfg)
  {
    hash := seed;
    var range := Preorder(root, []);
    for i := 0 to |range|
      invariant hash == Fold(mix, seed, range[..i], cfg)
    {
      hash := mix(hash, Participating(range[i].prim, range[i].path == [], cfg));
      assert range[..i + 1][..i] == range[..i];
    }
    assert range[..|range|] == range;
  }

  lemma MatchingPrimsParticipateAlike(a: Prim, b: Prim, isRoot: bool, cfg: Config)
    requires a.attributes.Keys == b.attributes.Keys && PrimMatches(a, b, isRoot, cfg)
    ensures Participating(a, isRoot, cfg) == Participating(b, isRoot, cfg)
  {
    assert Compared(a, isRoot, cfg) == Compared(b, isRoot, cfg);
    forall n | n in Compared(a, isRoot, cfg)
      ensures Summarize(a.attributes[n], cfg.tolerance) == Summarize(b.attributes[n], cfg.tolerance)
    {
      assert AttributeMatches(n, a.attributes, b.attributes, cfg.tolerance);
    }
  }

  lemma {:induction false} FoldAgrees(mix: Mixer, seed: int, xs: seq<Visit>, ys: seq<Visit>, cfg: Config)
    requires Entries(xs) == Entries(ys) && VisitsMatch(xs, ys, cfg)
    ensures Fold(mix, seed, xs, cfg) == Fold(mix, seed, ys, cfg)
    decreases |xs|
  {
    assert |xs| == |ys|;
    hide Entries, VisitsMatch, Participating, PrimMatches;
    if xs != [] {
      var k := |xs| - 1;
      LastVisit(xs, ys, cfg);
      FoldAgrees(mix, seed, xs[..k], ys[..k], cfg);
      MatchingPrimsParticipateAlike(xs[k].prim, ys[k].prim, xs[k].path == [], cfg);
    }
  }

  lemma LastVisit(xs: seq<Visit>, ys: seq<Visit>, cfg: Config)
    requires xs != [] && Entries(xs) == Entries(ys) && VisitsMatch(xs, ys, cfg)
    ensures Entries(xs[..|xs| - 1]) == Entries(ys[..|ys| - 1]) && VisitsMatch(xs[..|xs| - 1], ys[..|ys| - 1], cfg)
    ensures var (x, y) := (xs[|xs| - 1], ys[|xs| - 1]);
            x.path == y.path && x.prim.attributes.Keys == y.prim.attributes.Keys &&
            PrimMatches(x.prim, y.prim, x.path == [], cfg)
  {
    var k := |xs| - 1;
    assert Entries(xs[..k]) == Entries(xs)[..k] && Entries(ys[..k]) == Entries(ys)[..k];
    assert Entries(xs)[k] == EntryOf(xs[k]) && Entries(ys)[k] == EntryOf(ys[k]);
  }

  // Within a structural group the fingerprint never separates subtrees that compare equal.
  lemma FingerprintIsNecessary(mix: Mixer, seed: int, a: Prim, b: Prim, cfg: Config)
    requires StructuralKey(a) == StructuralKey(b) && SubtreeValuesMatch(a, b, cfg)
    ensures Fingerprint(mix, seed, a, cfg) == Fingerprint(mix, seed, b, cfg)
  {
    FoldAgrees(mix, seed, Preorder(a, []), Preorder(b, []), cfg);
  }

  // Outside a structural group it can: a declared attribute without value matches a missing one.
  function DeclaringPrim(): Prim { Prim("A", "Mesh", map["primvars:st:indices" := None], NoArcs, []) }
  function BarePrim(): Prim { Prim("B", "Mesh", map[], NoArcs, []) }
  function CountingMixer(): Mixer { (h, m) => h + |m| }

  lemma FingerprintNeedsStructuralGroup(cfg: Config)
    ensures SubtreeValuesMatch(DeclaringPrim(), BarePrim(), cfg)
    ensures Fingerprint(CountingMixer(), 0, DeclaringPrim(), cfg) != Fingerprint(CountingMixer(), 0, BarePrim(), cfg)
  {
    var a, b := DeclaringPrim(), BarePrim();
    var name := "primvars:st:indices";
    assert name[0] == 'p';
    assert !Skipped(name, true, cfg);
    assert Preorder(a, []) == [Visit([], a)] && Preorder(b, []) == [Visit([], b)];
    assert AttributeMatches(name, a.attributes, b.attributes, cfg.tolerance);
    assert Participating(a, true, cfg) == map[name := Declared];
    assert Participating(b, true, cfg) == map[];
  }
}
