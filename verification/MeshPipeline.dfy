/** The mesh pipeline: worker threads claim prims and process them in parallel; a serial output filter queues the
    results and writes them to the stage on the main thread only. */
module MeshPipeline {
  import opened Wrappers
  import opened Sequences

  datatype MeshStats = MeshStats(vertices: nat, faces: nat) {
    function Plus(other: MeshStats): MeshStats { MeshStats(vertices + other.vertices, faces + other.faces) }
  }

  datatype TotalStats = TotalStats(before: MeshStats, after: MeshStats) {
    function Plus(other: TotalStats): TotalStats { TotalStats(before.Plus(other.before), after.Plus(other.after)) }
  }

  const NO_MESH := MeshStats(0, 0)
  const NOTHING := TotalStats(NO_MESH, NO_MESH)

  /** What processing a prim hands to the output filter. */
  datatype ProcessedData =
    | Unchanged(write: bool)
    | HostMesh(write: bool, counts: MeshStats)
    | HostMeshData(write: bool, counts: MeshStats)
    | HostPrim(write: bool, fitted: bool)
  {
    predicate ShouldDelete() { HostMeshData? && counts.vertices == 0 }

    function Counts(): MeshStats { if HostMesh? || HostMeshData? then counts else NO_MESH }

    // What this result adds to the totals, given what is on the stage when it is drained.
    function Contribution(onStage: MeshStats): TotalStats
    {
      if HostPrim? then TotalStats(onStage, if !write || !fitted then onStage else NO_MESH)
      else TotalStats(onStage, if write then Counts() else onStage)
    }
  }

  // A prim's content on the stage; what writing does to it is up to the exporter.
  datatype Content<C> = Present(content: C) | Removed

  datatype Event = Wrote(index: nat) | Deleted(index: nat)

  // One operation run over a list of prims.
  datatype Job<!C> = Job(
    prims: seq<C>,                                    // contents before the run
    isProxy: nat -> bool,
    processMesh: (nat, C) -> Option<ProcessedData>,   // None: nothing to output
    measure: C -> MeshStats,                          // points and faces, zero when not a mesh
    write: (ProcessedData, C) -> C,
    maxTokens: nat,
    mainThread: nat)
  {
    function Process(i: nat, content: C): Option<ProcessedData>
    {
      if isProxy(i) then Some(Unchanged(false)) else processMesh(i, content)
    }

    // The result the sequential program computes for prim i.
    function Result(i: nat): Option<ProcessedData>
      requires i < |prims|
    {
      Process(i, prims[i])
    }
  }

  type Item = (nat, ProcessedData)

  // ---------- The output filter's data ----------

  datatype Sink<C> = Sink(
    queue: seq<Item>,
    deletePrims: seq<nat>,
    totals: TotalStats,
    stage: seq<Content<C>>,
    events: seq<Event>,      // what was done to the stage, in order
    drained: seq<Item>)      // what has left the queue, in order

  predicate Writes(d: ProcessedData) { d.write && !d.ShouldDelete() }

  predicate Deletes(d: ProcessedData) { d.write && d.ShouldDelete() }

  function Measured<C>(job: Job<C>, c: Content<C>): MeshStats
  {
    match c
    case Present(content) => job.measure(content)
    case Removed => NO_MESH
  }

  function WriteTo<C>(job: Job<C>, d: ProcessedData, c: Content<C>): Content<C>
  {
    match c
    case Present(content) => Present(job.write(d, content))
    case Removed => Removed
  }

  // Pop the front of the queue, count it, and write it or mark it for deletion.
  function DrainOne<C>(job: Job<C>, sink: Sink<C>): Sink<C>
    requires sink.queue != [] && sink.queue[0].0 < |sink.stage|
  {
    var (i, d) := sink.queue[0];
    sink.(queue := sink.queue[1..],
          totals := sink.totals.Plus(d.Contribution(Measured(job, sink.stage[i]))),
          deletePrims := if Deletes(d) then sink.deletePrims + [i] else sink.deletePrims,
          stage := if Writes(d) then sink.stage[i := WriteTo(job, d, sink.stage[i])] else sink.stage,
          events := if Writes(d) then sink.events + [Wrote(i)] else sink.events,
          drained := sink.drained + [(i, d)])
  }

  function Remove<C>(stage: seq<Content<C>>, indices: seq<nat>): (r: seq<Content<C>>)
    requires forall i :: i in indices ==> i < |stage|
    ensures |r| == |stage|
    ensures forall i :: 0 <= i < |r| ==> r[i] == if i in indices then Removed else stage[i]
    decreases |indices|
  {
    if indices == [] then stage
    else
      assert indices == [indices[0]] + indices[1..];
      assert indices[0] in indices;
      assert forall i :: i in indices[1..] ==> i in indices;
      Remove(stage[indices[0] := Removed], indices[1..])
  }

  function Deletions(indices: seq<nat>): (r: seq<Event>)
    ensures |r| == |indices| && forall k :: 0 <= k < |r| ==> r[k] == Deleted(indices[k])
  {
    seq(|indices|, k requires 0 <= k < |indices| => Deleted(indices[k]))
  }

  // Delete everything marked for removal.
  function DeleteMarked<C>(sink: Sink<C>): Sink<C>
    requires forall i :: i in sink.deletePrims ==> i < |sink.stage|
  {
    sink.(stage := Remove(sink.stage, sink.deletePrims), events := sink.events + Deletions(sink.deletePrims))
  }

  // ---------- The pipeline as a step system ----------

  // A claimed prim: still with its worker, or processed and waiting for the output filter.
  datatype Token = Claimed | Ready(result: Option<ProcessedData>)

  datatype Filter =
    | Idle
    | Pushed(thread: nat)     // a result was queued by this thread
    | Draining                // the main thread is emptying the queue
    | Flushing                // the pipeline is over, the destructor is emptying the queue
    | Finished

  datatype State<C> = State(
    entered: nat,             // invocations of the first filter that have not claimed an index yet
    next: nat,                // the atomic index
    stopped: bool,
    tokens: map<nat, Token>,
    nulls: set<nat>,          // prims without a result, gone
    filter: Filter,
    sink: Sink<C>)

  datatype Step =
    | Enter
    | Fetch
    | Process(index: nat)
    | Push(thread: nat, index: nat)
    | Leave
    | BeginDrain
    | Drain
    | EndDrain
    | BeginFlush
    | EndFlush

  function Init<C>(job: Job<C>): State<C>
  {
    State(0, 0, false, map[], {}, Idle,
          Sink([], [], NOTHING, seq(|job.prims|, i requires 0 <= i < |job.prims| => Present(job.prims[i])), [], []))
  }

  predicate Enabled<C>(job: Job<C>, s: State<C>, step: Step)
  {
    match step
    case Enter => !s.stopped && s.entered + |s.tokens| < job.maxTokens && !s.filter.Flushing? && !s.filter.Finished?
    case Fetch => s.entered > 0
    case Process(i) => i in s.tokens && s.tokens[i].Claimed? && i < |s.sink.stage| && s.sink.stage[i].Present?
    case Push(_, i) => s.filter.Idle? && i in s.tokens && s.tokens[i].Ready?
    case Leave => s.filter.Pushed? && s.filter.thread != job.mainThread
    case BeginDrain => s.filter.Pushed? && s.filter.thread == job.mainThread
    case Drain => (s.filter.Draining? || s.filter.Flushing?) && s.sink.queue != [] && s.sink.queue[0].0 < |s.sink.stage|
    case EndDrain => s.filter.Draining? && s.sink.queue == []
    case BeginFlush => s.filter.Idle? && s.stopped && s.entered == 0 && s.tokens == map[]
    case EndFlush => s.filter.Flushing? && s.sink.queue == [] && forall i :: i in s.sink.deletePrims ==> i < |s.sink.stage|
  }

  function Apply<C>(job: Job<C>, s: State<C>, step: Step): State<C>
    requires Enabled(job, s, step)
  {
    match step
    case Enter => s.(entered := s.entered + 1)
    case Fetch =>
      if s.next >= |job.prims| then s.(entered := s.entered - 1, next := s.next + 1, stopped := true)
      else s.(entered := s.entered - 1, next := s.next + 1, tokens := s.tokens[s.next := Claimed])
    case Process(i) => s.(tokens := s.tokens[i := Ready(job.Process(i, s.sink.stage[i].content))])
    case Push(thread, i) => (
      match s.tokens[i].result
      case None => s.(tokens := s.tokens - {i}, nulls := s.nulls + {i})
      case Some(d) => s.(tokens := s.tokens - {i}, filter := Pushed(thread), sink := s.sink.(queue := s.sink.queue + [(i, d)]))
    )
    case Leave => s.(filter := Idle)
    case BeginDrain => s.(filter := Draining)
    case Drain => s.(sink := DrainOne(job, s.sink))
    case EndDrain => s.(filter := Idle)
    case BeginFlush => s.(filter := Flushing)
    case EndFlush => s.(filter := Finished, sink := DeleteMarked(s.sink))
  }

  // ---------- Invariant ----------

  function Indices(items: seq<Item>): (r: seq<nat>)
    ensures |r| == |items| && forall k :: 0 <= k < |r| ==> r[k] == items[k].0
  {
    seq(|items|, k requires 0 <= k < |items| => items[k].0)
  }

  // Each claimed prim is in exactly one place: in flight, without result, or handed to the output filter once.
  ghost predicate ClaimedOnce(n: nat, next: nat, inFlight: set<nat>, nulls: set<nat>, delivered: seq<nat>)
  {
    && NoDuplicates(delivered)
    && (forall i :: i in inFlight ==> i !in nulls && i !in delivered)
    && (forall i :: i in nulls ==> i !in delivered)
    && (forall i: nat :: (i < next && i < n) <==> (i in inFlight || i in nulls || i in delivered))
  }

  // Results are the sequential ones, wherever they are.
  ghost predicate TokensRight<C>(job: Job<C>, tokens: map<nat, Token>)
  {
    forall i :: i in tokens && i < |job.prims| && tokens[i].Ready? ==> tokens[i].result == job.Result(i)
  }

  ghost predicate NullsRight<C>(job: Job<C>, nulls: set<nat>)
  {
    forall i :: i in nulls && i < |job.prims| ==> job.Result(i) == None
  }

  ghost predicate ItemsRight<C>(job: Job<C>, items: seq<Item>)
  {
    forall k :: 0 <= k < |items| ==> items[k].0 < |job.prims| && job.Result(items[k].0) == Some(items[k].1)
  }

  // What the sequential program leaves of prim i before deletions.
  function Written<C>(job: Job<C>, i: nat): C
    requires i < |job.prims|
  {
    match job.Result(i)
    case Some(d) => if Writes(d) then job.write(d, job.prims[i]) else job.prims[i]
    case None => job.prims[i]
  }

  ghost predicate StageRight<C>(job: Job<C>, stage: seq<Content<C>>, drained: seq<nat>, gone: seq<nat>)
  {
    && |stage| == |job.prims|
    && forall i :: 0 <= i < |job.prims| ==>
         stage[i] == if i in gone then Removed
                     else Present(if i in drained then Written(job, i) else job.prims[i])
  }

  function Contribution<C>(job: Job<C>, i: nat): TotalStats
    requires i < |job.prims|
  {
    match job.Result(i)
    case Some(d) => d.Contribution(job.measure(job.prims[i]))
    case None => NOTHING
  }

  ghost predicate InRange(n: nat, xs: seq<nat>)
  {
    forall k :: 0 <= k < |xs| ==> xs[k] < n
  }

  ghost function SumOver<C>(job: Job<C>, xs: seq<nat>): TotalStats
    requires InRange(|job.prims|, xs)
  {
    if xs == [] then NOTHING else SumOver(job, xs[..|xs| - 1]).Plus(Contribution(job, xs[|xs| - 1]))
  }

  // The drained results that are marked for deletion, and the write events, in draining order.
  function Marked(items: seq<Item>): seq<nat>
  {
    if items == [] then []
    else Marked(items[..|items| - 1]) + if Deletes(items[|items| - 1].1) then [items[|items| - 1].0] else []
  }

  function WriteEvents(items: seq<Item>): seq<Event>
  {
    if items == [] then []
    else WriteEvents(items[..|items| - 1]) + if Writes(items[|items| - 1].1) then [Wrote(items[|items| - 1].0)] else []
  }

  // The output filter's books agree with what it has drained.
  ghost predicate BooksRight<C>(job: Job<C>, sink: Sink<C>, finished: bool)
  {
    && InRange(|job.prims|, Indices(sink.drained))
    && sink.totals == SumOver(job, Indices(sink.drained))
    && sink.deletePrims == Marked(sink.drained)
    && sink.events == WriteEvents(sink.drained) + if finished then Deletions(Marked(sink.drained)) else []
  }

  ghost predicate ControlRight<C>(job: Job<C>, s: State<C>)
  {
    && s.entered + |s.tokens| <= job.maxTokens
    && (s.stopped <==> s.next > |job.prims|)
    && (s.filter.Flushing? || s.filter.Finished? ==> s.stopped && s.entered == 0 && s.tokens == map[])
    && (s.filter.Finished? ==> s.sink.queue == [])
  }

  // Everything that has been handed to the output filter, drained first.
  function Delivered<C>(s: State<C>): seq<Item> { s.sink.drained + s.sink.queue }

  function Gone<C>(s: State<C>): seq<nat> { if s.filter.Finished? then Marked(s.sink.drained) else [] }

  ghost predicate Inv<C>(job: Job<C>, s: State<C>)
  {
    && ClaimedOnce(|job.prims|, s.next, s.tokens.Keys, s.nulls, Indices(Delivered(s)))
    && TokensRight(job, s.tokens) && NullsRight(job, s.nulls) && ItemsRight(job, Delivered(s))
    && StageRight(job, s.sink.stage, Indices(s.sink.drained), Gone(s))
    && BooksRight(job, s.sink, s.filter.Finished?)
    && ControlRight(job, s)
  }

  // ---------- Every step keeps the invariant ----------

  function Unprocessed(tokens: map<nat, Token>): set<nat>
  {
    set i | i in tokens && tokens[i].Claimed?
  }

  lemma TokenAdded(tokens: map<nat, Token>, i: nat)
    requires i !in tokens
    ensures var tokens' := tokens[i := Claimed];
            && tokens'.Keys == tokens.Keys + {i} && |tokens'| == |tokens| + 1
            && |Unprocessed(tokens')| == |Unprocessed(tokens)| + 1
  {
    assert Unprocessed(tokens[i := Claimed]) == Unprocessed(tokens) + {i};
  }

  lemma TokenTaken(tokens: map<nat, Token>, i: nat)
    requires i in tokens && tokens[i].Ready?
    ensures var tokens' := tokens - {i};
            && tokens'.Keys == tokens.Keys - {i} && |tokens'| == |tokens| - 1
            && Unprocessed(tokens') == Unprocessed(tokens)
  {
    var tokens' := tokens - {i};
    assert Unprocessed(tokens') == Unprocessed(tokens);
    assert tokens'.Keys == tokens.Keys - {i};
    assert |tokens'.Keys| == |tokens.Keys| - 1;
  }

  lemma InitInv<C>(job: Job<C>)
    ensures Inv(job, Init(job))
  {
    assert Delivered(Init(job)) == [];
  }

  lemma FetchClaims(n: nat, next: nat, inFlight: set<nat>, nulls: set<nat>, delivered: seq<nat>)
    requires ClaimedOnce(n, next, inFlight, nulls, delivered)
    ensures ClaimedOnce(n, next + 1, if next < n then inFlight + {next} else inFlight, nulls, delivered)
    ensures next !in inFlight
  {
  }

  lemma ClaimedIsRight<C>(job: Job<C>, tokens: map<nat, Token>, i: nat)
    requires TokensRight(job, tokens)
    ensures TokensRight(job, tokens[i := Claimed])
  {
    hide Job.Result;
  }

  // A ready token is taken, with its result or as a null.
  lemma TakenIsRight<C>(job: Job<C>, tokens: map<nat, Token>, nulls: set<nat>, i: nat)
    requires TokensRight(job, tokens) && NullsRight(job, nulls) && i < |job.prims| && i in tokens && tokens[i].Ready?
    ensures TokensRight(job, tokens - {i}) && job.Result(i) == tokens[i].result
    ensures tokens[i].result.None? ==> NullsRight(job, nulls + {i})
  {
    hide Job.Result;
  }

  lemma FetchKeeps<C>(job: Job<C>, s: State<C>)
    requires Inv(job, s) && Enabled(job, s, Fetch)
    ensures Inv(job, Apply(job, s, Fetch))
  {
    hide StageRight, BooksRight, ItemsRight, NullsRight, Marked, Unprocessed, TokensRight, Job.Result, Indices;
    FetchClaims(|job.prims|, s.next, s.tokens.Keys, s.nulls, Indices(Delivered(s)));
    hide ClaimedOnce;
    var s' := Apply(job, s, Fetch);
    if s.next < |job.prims| {
      TokenAdded(s.tokens, s.next);
      ClaimedIsRight(job, s.tokens, s.next);
    }
  }

  // A prim in flight still has its original content on the stage.
  lemma InFlightUntouched<C>(job: Job<C>, s: State<C>, i: nat)
    requires Inv(job, s) && i in s.tokens
    ensures i < |job.prims| && s.sink.stage[i] == Present(job.prims[i])
  {
    hide BooksRight, ItemsRight, TokensRight, NullsRight, Marked;
    assert Indices(Delivered(s)) == Indices(s.sink.drained) + Indices(s.sink.queue);
    assert !s.filter.Finished?;
    assert i in s.tokens.Keys;
  }

  lemma ProcessKeeps<C>(job: Job<C>, s: State<C>, i: nat)
    requires Inv(job, s) && Enabled(job, s, Process(i))
    ensures Inv(job, Apply(job, s, Process(i)))
  {
    InFlightUntouched(job, s, i);
    hide StageRight, BooksRight, ItemsRight, NullsRight, Marked, ClaimedOnce;
    var s' := Apply(job, s, Process(i));
    assert s'.tokens.Keys == s.tokens.Keys;
    assert |s'.tokens| == |s'.tokens.Keys|;
    assert |s.tokens| == |s.tokens.Keys|;
  }

  lemma PushedPlaces(n: nat, next: nat, inFlight: set<nat>, nulls: set<nat>, delivered: seq<nat>, i: nat)
    requires ClaimedOnce(n, next, inFlight, nulls, delivered) && i in inFlight
    ensures ClaimedOnce(n, next, inFlight - {i}, nulls + {i}, delivered)
    ensures ClaimedOnce(n, next, inFlight - {i}, nulls, delivered + [i])
    ensures i < n
  {
    assert forall j :: j in delivered + [i] <==> j in delivered || j == i;
  }

  lemma OneMoreDelivered<C>(job: Job<C>, items: seq<Item>, i: nat, d: ProcessedData)
    requires ItemsRight(job, items) && i < |job.prims| && job.Result(i) == Some(d)
    ensures ItemsRight(job, items + [(i, d)]) && Indices(items + [(i, d)]) == Indices(items) + [i]
  {
    hide Job.Result;
  }

  lemma PushKeeps<C>(job: Job<C>, s: State<C>, thread: nat, i: nat)
    requires Inv(job, s) && Enabled(job, s, Push(thread, i))
    ensures Inv(job, Apply(job, s, Push(thread, i)))
  {
    hide StageRight, Marked, SumOver, WriteEvents, Job.Result, ItemsRight;
    var s' := Apply(job, s, Push(thread, i));
    assert BooksRight(job, s'.sink, s'.filter.Finished?);
    hide BooksRight, Indices;
    assert i in s.tokens.Keys;
    PushedPlaces(|job.prims|, s.next, s.tokens.Keys, s.nulls, Indices(Delivered(s)), i);
    hide ClaimedOnce;
    TokenTaken(s.tokens, i);
    TakenIsRight(job, s.tokens, s.nulls, i);
    hide Unprocessed, TokensRight, NullsRight;
    match s.tokens[i].result {
      case None =>
      case Some(d) =>
        assert Delivered(s') == Delivered(s) + [(i, d)];
        OneMoreDelivered(job, Delivered(s), i, d);
    }
  }

  // The front of the queue is a fresh index with the sequential result and original content.
  lemma FrontIsFresh<C>(job: Job<C>, s: State<C>)
    requires Inv(job, s) && Enabled(job, s, Drain)
    ensures var (i, d) := s.sink.queue[0];
            && i < |job.prims| && i !in Indices(s.sink.drained) && job.Result(i) == Some(d)
            && s.sink.stage[i] == Present(job.prims[i])
  {
    hide BooksRight, TokensRight, NullsRight, Marked;
    var k := |s.sink.drained|;
    assert Delivered(s)[k] == s.sink.queue[0];
    forall j | 0 <= j < k ensures s.sink.drained[j].0 != s.sink.queue[0].0 {
      assert Delivered(s)[j] == s.sink.drained[j];
      assert Indices(Delivered(s))[j] != Indices(Delivered(s))[k];
    }
  }

  lemma OneMoreDrained(items: seq<Item>, item: Item)
    ensures Indices(items + [item]) == Indices(items) + [item.0]
    ensures Marked(items + [item]) == Marked(items) + if Deletes(item.1) then [item.0] else []
    ensures WriteEvents(items + [item]) == WriteEvents(items) + if Writes(item.1) then [Wrote(item.0)] else []
  {
    assert (items + [item])[..|items|] == items;
  }

  lemma OneMoreSummed<C>(job: Job<C>, xs: seq<nat>, i: nat)
    requires InRange(|job.prims|, xs) && i < |job.prims|
    ensures InRange(|job.prims|, xs + [i]) && SumOver(job, xs + [i]) == SumOver(job, xs).Plus(Contribution(job, i))
  {
    assert (xs + [i])[..|xs|] == xs;
  }

  lemma DrainKeepsBooks<C>(job: Job<C>, sink: Sink<C>)
    requires BooksRight(job, sink, false) && sink.queue != [] && sink.queue[0].0 < |sink.stage|
    requires var (i, d) := sink.queue[0];
             i < |job.prims| && job.Result(i) == Some(d) && sink.stage[i] == Present(job.prims[i])
    ensures BooksRight(job, DrainOne(job, sink), false)
  {
    var item, sink' := sink.queue[0], DrainOne(job, sink);
    assert sink'.totals == sink.totals.Plus(Contribution(job, item.0));
    hide TotalStats.Plus, ProcessedData.Contribution, Contribution, Job.Result, Measured, WriteTo;
    OneMoreDrained(sink.drained, item);
    OneMoreSummed(job, Indices(sink.drained), item.0);
    hide Marked, WriteEvents, SumOver;
  }

  lemma DrainKeepsStage<C>(job: Job<C>, sink: Sink<C>)
    requires StageRight(job, sink.stage, Indices(sink.drained), []) && sink.queue != [] && sink.queue[0].0 < |sink.stage|
    requires var (i, d) := sink.queue[0];
             i < |job.prims| && i !in Indices(sink.drained) && job.Result(i) == Some(d)
    ensures var sink' := DrainOne(job, sink); StageRight(job, sink'.stage, Indices(sink'.drained), [])
  {
    var i := sink.queue[0].0;
    assert Indices(sink.drained + [sink.queue[0]]) == Indices(sink.drained) + [i];
    assert forall j :: j in Indices(sink.drained) + [i] <==> j in Indices(sink.drained) || j == i;
  }

  lemma DrainDelivers<C>(job: Job<C>, s: State<C>)
    requires Enabled(job, s, Drain)
    ensures Delivered(Apply(job, s, Drain)) == Delivered(s)
    ensures Apply(job, s, Drain) == s.(sink := DrainOne(job, s.sink))
  {
    assert s.sink.queue == [s.sink.queue[0]] + s.sink.queue[1..];
  }

  lemma DrainKeeps<C>(job: Job<C>, s: State<C>)
    requires Inv(job, s) && Enabled(job, s, Drain)
    ensures Inv(job, Apply(job, s, Drain))
  {
    hide ClaimedOnce, TokensRight, NullsRight, ItemsRight, Marked, StageRight, BooksRight, Job.Result;
    FrontIsFresh(job, s);
    DrainKeepsBooks(job, s.sink);
    DrainKeepsStage(job, s.sink);
    DrainDelivers(job, s);
    hide DrainOne, Delivered, Apply, Indices;
  }

  lemma {:induction false} MarkedInRange(n: nat, items: seq<Item>)
    requires InRange(n, Indices(items))
    ensures forall i :: i in Marked(items) ==> i < n
  {
    if items != [] {
      var k := |items| - 1;
      assert Indices(items[..k]) == Indices(items)[..k];
      MarkedInRange(n, items[..k]);
      assert Indices(items)[k] == items[k].0;
    }
  }

  lemma EndFlushKeeps<C>(job: Job<C>, s: State<C>)
    requires Inv(job, s) && Enabled(job, s, EndFlush)
    ensures Inv(job, Apply(job, s, EndFlush))
  {
    hide ClaimedOnce, TokensRight, NullsRight, ItemsRight;
    var s' := Apply(job, s, EndFlush);
    assert s.sink.deletePrims == Marked(s.sink.drained);
    hide Marked, WriteEvents, SumOver;
    assert StageRight(job, s'.sink.stage, Indices(s'.sink.drained), Gone(s'));
    assert BooksRight(job, s'.sink, true);
  }

  lemma StepKeeps<C>(job: Job<C>, s: State<C>, step: Step)
    requires Inv(job, s) && Enabled(job, s, step)
    ensures Inv(job, Apply(job, s, step))
  {
    hide ClaimedOnce, TokensRight, NullsRight, ItemsRight, StageRight, BooksRight;
    match step
    case Fetch => FetchKeeps(job, s);
    case Process(i) => ProcessKeeps(job, s, i);
    case Push(thread, i) => PushKeeps(job, s, thread, i);
    case Drain => DrainKeeps(job, s);
    case EndFlush => EndFlushKeeps(job, s);
    case _ =>
  }

  // ---------- Runs ----------

  // The state after taking the steps one after the other, if each was possible.
  ghost function Run<C>(job: Job<C>, s: State<C>, steps: seq<Step>): Option<State<C>>
    decreases |steps|
  {
    if steps == [] then Some(s)
    else if Enabled(job, s, steps[0]) then Run(job, Apply(job, s, steps[0]), steps[1..])
    else None
  }

  lemma {:induction false} RunKeeps<C>(job: Job<C>, s: State<C>, steps: seq<Step>)
    requires Inv(job, s) && Run(job, s, steps).Some?
    ensures Inv(job, Run(job, s, steps).value)
    decreases |steps|
  {
    hide Inv, Enabled, Apply;
    if steps != [] {
      StepKeeps(job, s, steps[0]);
      RunKeeps(job, Apply(job, s, steps[0]), steps[1..]);
    }
  }

  // Who came to the output filter last.
  datatype Owner = Nobody | Thread(id: nat) | Destructor

  function NextOwner(owner: Owner, step: Step): Owner
  {
    match step
    case Push(thread, _) => Thread(thread)
    case BeginFlush => Destructor
    case _ => owner
  }

  function OwnerAfter(owner: Owner, steps: seq<Step>): Owner
    decreases |steps|
  {
    if steps == [] then owner else OwnerAfter(NextOwner(owner, steps[0]), steps[1..])
  }

  ghost predicate OwnerRight<C>(job: Job<C>, owner: Owner, s: State<C>)
  {
    match s.filter
    case Idle => true
    case Pushed(thread) => owner == Thread(thread)
    case Draining => owner == Thread(job.mainThread)
    case _ => owner == Destructor && s.stopped && s.entered == 0 && s.tokens == map[]
  }

  lemma StepKeepsOwner<C>(job: Job<C>, owner: Owner, s: State<C>, step: Step)
    requires OwnerRight(job, owner, s) && Enabled(job, s, step)
    ensures OwnerRight(job, NextOwner(owner, step), Apply(job, s, step))
  {
    hide DrainOne, DeleteMarked;
  }

  lemma {:induction false} RunKeepsOwner<C>(job: Job<C>, owner: Owner, s: State<C>, steps: seq<Step>)
    requires OwnerRight(job, owner, s) && Run(job, s, steps).Some?
    ensures OwnerRight(job, OwnerAfter(owner, steps), Run(job, s, steps).value)
    decreases |steps|
  {
    hide Enabled, Apply, OwnerRight, NextOwner;
    if steps != [] {
      StepKeepsOwner(job, owner, s, steps[0]);
      RunKeepsOwner(job, NextOwner(owner, steps[0]), Apply(job, s, steps[0]), steps[1..]);
    }
  }

  /** In every run the stage is written only on the main thread: when a step changes it, the last to come to the output
      filter was the main thread with a result of its own, or the destructor, after the pipeline has ended. */
  lemma StageWrittenOnMainThread<C>(job: Job<C>, steps: seq<Step>, step: Step)
    requires Run(job, Init(job), steps).Some? && Enabled(job, Run(job, Init(job), steps).value, step)
    ensures var s := Run(job, Init(job), steps).value;
            var s' := Apply(job, s, step);
            s'.sink.stage != s.sink.stage || s'.sink.events != s.sink.events ==>
              match OwnerAfter(Nobody, steps)
              case Nobody => false
              case Thread(id) => id == job.mainThread
              case Destructor => s.stopped && s.entered == 0 && s.tokens == map[]
  {
    RunKeepsOwner(job, Nobody, Init(job), steps);
    hide DrainOne, DeleteMarked, Run, OwnerAfter;
  }

  // ---------- The sequential program ----------

  ghost function SequentialTotals<C>(job: Job<C>, n: nat): TotalStats
    requires n <= |job.prims|
  {
    if n == 0 then NOTHING else SequentialTotals(job, n - 1).Plus(Contribution(job, n - 1))
  }

  function SequentialContent<C>(job: Job<C>, i: nat): Content<C>
    requires i < |job.prims|
  {
    match job.Result(i)
    case Some(d) => if Deletes(d) then Removed else Present(Written(job, i))
    case None => Present(job.prims[i])
  }

  // Every prim below n that has a result, once, in whatever order.
  ghost predicate Covers<C>(job: Job<C>, xs: seq<nat>, n: nat)
    requires n <= |job.prims|
  {
    && NoDuplicates(xs)
    && forall i: nat :: i in xs <==> i < n && job.Result(i).Some?
  }

  lemma PlusAssociative(a: TotalStats, b: TotalStats, c: TotalStats)
    ensures a.Plus(b).Plus(c) == a.Plus(b.Plus(c))
    ensures a.Plus(b) == b.Plus(a)
    ensures a.Plus(NOTHING) == a == NOTHING.Plus(a)
  {
  }

  lemma {:induction false} SumSplit<C>(job: Job<C>, xs: seq<nat>, ys: seq<nat>)
    requires InRange(|job.prims|, xs) && InRange(|job.prims|, ys)
    ensures InRange(|job.prims|, xs + ys)
    ensures SumOver(job, xs + ys) == SumOver(job, xs).Plus(SumOver(job, ys))
    decreases |ys|
  {
    hide Contribution, TotalStats.Plus;
    if ys == [] {
      assert xs + ys == xs;
      PlusAssociative(SumOver(job, xs), NOTHING, NOTHING);
    } else {
      var k := |ys| - 1;
      assert (xs + ys)[..|xs + ys| - 1] == xs + ys[..k];
      SumSplit(job, xs, ys[..k]);
      PlusAssociative(SumOver(job, xs), SumOver(job, ys[..k]), Contribution(job, ys[k]));
    }
  }

  // Taking one summand out of the middle.
  lemma SumWithout<C>(job: Job<C>, xs: seq<nat>, k: nat)
    requires InRange(|job.prims|, xs) && k < |xs|
    ensures InRange(|job.prims|, xs[..k] + xs[k + 1..])
    ensures SumOver(job, xs) == SumOver(job, xs[..k] + xs[k + 1..]).Plus(Contribution(job, xs[k]))
  {
    hide Contribution, TotalStats.Plus;
    assert xs == xs[..k] + [xs[k]] + xs[k + 1..];
    SumSplit(job, xs[..k], xs[k + 1..]);
    OneMoreSummed(job, xs[..k], xs[k]);
    SumSplit(job, xs[..k] + [xs[k]], xs[k + 1..]);
    hide SumOver;
    var a, b, c := SumOver(job, xs[..k]), Contribution(job, xs[k]), SumOver(job, xs[k + 1..]);
    PlusAssociative(a, b, c);
    PlusAssociative(b, c, a);
    PlusAssociative(a, c, b);
  }

  lemma FirstIsMember(xs: seq<nat>)
    requires xs != []
    ensures xs[0] in xs
  {
  }

  lemma CoverOfNothing<C>(job: Job<C>, xs: seq<nat>)
    requires Covers(job, xs, 0)
    ensures xs == []
  {
    if xs != [] {
      FirstIsMember(xs);
      assert false;
    }
  }

  lemma CoverInRange<C>(job: Job<C>, xs: seq<nat>, n: nat)
    requires n <= |job.prims| && Covers(job, xs, n)
    ensures InRange(|job.prims|, xs)
  {
    assert forall k :: 0 <= k < |xs| ==> xs[k] in xs;
  }

  // Totals do not depend on the order of draining.
  lemma {:induction false} SumIsSequential<C>(job: Job<C>, xs: seq<nat>, n: nat)
    requires n <= |job.prims| && Covers(job, xs, n)
    ensures InRange(|job.prims|, xs) && SumOver(job, xs) == SequentialTotals(job, n)
    decreases n
  {
    hide Job.Result, TotalStats.Plus, NoDuplicates;
    CoverInRange(job, xs, n);
    hide InRange;
    if n == 0 {
      CoverOfNothing(job, xs);
    } else if job.Result(n - 1).None? {
      SumIsSequential(job, xs, n - 1);
      PlusAssociative(SequentialTotals(job, n - 1), NOTHING, NOTHING);
    } else {
      assert n - 1 in xs;
      var k :| 0 <= k < |xs| && xs[k] == n - 1;
      RemovedCovers(job, xs, n, k);
      hide Covers;
      SumIsSequential(job, xs[..k] + xs[k + 1..], n - 1);
      SumWithout(job, xs, k);
    }
  }

  lemma RemovedCovers<C>(job: Job<C>, xs: seq<nat>, n: nat, k: nat)
    requires 0 < n <= |job.prims| && Covers(job, xs, n) && k < |xs| && xs[k] == n - 1
    ensures Covers(job, xs[..k] + xs[k + 1..], n - 1)
  {
    hide Job.Result;
    RemovedOne(xs, k);
    hide NoDuplicates;
  }

  lemma {:induction false} MarkedExactly(items: seq<Item>, i: nat)
    ensures i in Marked(items) <==> exists k :: 0 <= k < |items| && items[k].0 == i && Deletes(items[k].1)
  {
    hide Deletes;
    if items != [] {
      var init := items[..|items| - 1];
      MarkedExactly(init, i);
      assert forall k :: 0 <= k < |init| ==> init[k] == items[k];
      if exists k :: 0 <= k < |init| && init[k].0 == i && Deletes(init[k].1) {
        var k :| 0 <= k < |init| && init[k].0 == i && Deletes(init[k].1);
        assert items[k].0 == i && Deletes(items[k].1);
      }
    }
  }

  // Write events name exactly the written prims, and are only writes.
  lemma {:induction false} WrittenExactly(items: seq<Item>, i: nat)
    ensures Wrote(i) in WriteEvents(items) <==> exists k :: 0 <= k < |items| && items[k].0 == i && Writes(items[k].1)
    ensures forall k :: 0 <= k < |WriteEvents(items)| ==> WriteEvents(items)[k].Wrote?
  {
    hide Writes;
    if items != [] {
      var init := items[..|items| - 1];
      WrittenExactly(init, i);
      assert forall k :: 0 <= k < |init| ==> init[k] == items[k];
      if exists k :: 0 <= k < |init| && init[k].0 == i && Writes(init[k].1) {
        var k :| 0 <= k < |init| && init[k].0 == i && Writes(init[k].1);
        assert items[k].0 == i && Writes(items[k].1);
      }
    }
  }

  lemma FinishedCovers<C>(job: Job<C>, s: State<C>)
    requires Inv(job, s) && s.filter.Finished?
    ensures Covers(job, Indices(s.sink.drained), |job.prims|)
    ensures ItemsRight(job, s.sink.drained)
  {
    hide Job.Result, StageRight, BooksRight, TokensRight;
    assert Delivered(s) == s.sink.drained;
    var xs := Indices(s.sink.drained);
    forall i: nat ensures i in xs <==> i < |job.prims| && job.Result(i).Some? {
      if i in xs {
        var k :| 0 <= k < |xs| && xs[k] == i;
        assert Delivered(s)[k].0 == i;
      }
      assert i < |job.prims| ==> i in s.nulls || i in xs;
    }
  }

  // A prim is marked exactly when its sequential result says so.
  lemma MarkedIsResult<C>(job: Job<C>, items: seq<Item>, i: nat)
    requires ItemsRight(job, items) && Covers(job, Indices(items), |job.prims|) && i < |job.prims|
    ensures i in Marked(items) <==> job.Result(i).Some? && Deletes(job.Result(i).value)
    ensures Wrote(i) in WriteEvents(items) <==> job.Result(i).Some? && Writes(job.Result(i).value)
  {
    hide Job.Result, Deletes, Writes, Marked, WriteEvents;
    MarkedExactly(items, i);
    WrittenExactly(items, i);
    if job.Result(i).Some? {
      assert i in Indices(items);
      var k :| 0 <= k < |items| && Indices(items)[k] == i;
      assert items[k].0 == i && job.Result(i) == Some(items[k].1);
    }
  }

  lemma FinishedContent<C>(job: Job<C>, s: State<C>, i: nat)
    requires Inv(job, s) && s.filter.Finished? && i < |job.prims|
    ensures s.sink.stage[i] == SequentialContent(job, i)
  {
    FinishedCovers(job, s);
    MarkedIsResult(job, s.sink.drained, i);
    hide Job.Result, Marked, BooksRight, ClaimedOnce, Deletes, Writes;
  }

  /** After the flush, for every interleaving: the stage and the totals are those of the sequential program, every
      result was counted once and written, deleted or skipped once, and all deletions come after all writes. */
  lemma PipelineIsSequential<C>(job: Job<C>, steps: seq<Step>)
    requires Run(job, Init(job), steps).Some? && Run(job, Init(job), steps).value.filter.Finished?
    ensures var sink := Run(job, Init(job), steps).value.sink;
            && sink.totals == SequentialTotals(job, |job.prims|)
            && |sink.stage| == |job.prims|
            && (forall i :: 0 <= i < |job.prims| ==> sink.stage[i] == SequentialContent(job, i))
            && Covers(job, Indices(sink.drained), |job.prims|)
            && sink.events == WriteEvents(sink.drained) + Deletions(Marked(sink.drained))
  {
    InitInv(job);
    RunKeeps(job, Init(job), steps);
    var s := Run(job, Init(job), steps).value;
    hide Run, Init, SequentialContent, ClaimedOnce;
    FinishedCovers(job, s);
    SumIsSequential(job, Indices(s.sink.drained), |job.prims|);
    forall i | 0 <= i < |job.prims| ensures s.sink.stage[i] == SequentialContent(job, i) {
      FinishedContent(job, s, i);
    }
  }

  // ---------- Every run ends, and can only end finished ----------

  function FilterWeight(f: Filter): nat
  {
    match f
    case Idle => 3
    case Pushed(_) => 5
    case Draining => 4
    case Flushing => 2
    case Finished => 0
  }

  // Work left; every step takes some away.
  function WorkLeft<C>(job: Job<C>, s: State<C>): int
  {
    (if s.stopped then 0 else 14 * (|job.prims| - s.next + job.maxTokens + 1 - s.entered))
    + 7 * s.entered + 5 * |s.tokens| + |Unprocessed(s.tokens)| + |s.sink.queue| + FilterWeight(s.filter)
  }

  lemma FetchTakesWork<C>(job: Job<C>, s: State<C>)
    requires Inv(job, s) && Enabled(job, s, Fetch)
    ensures WorkLeft(job, Apply(job, s, Fetch)) < WorkLeft(job, s)
  {
    hide TokensRight, NullsRight, ItemsRight, StageRight, BooksRight, Indices, Delivered, Unprocessed;
    if s.next < |job.prims| {
      assert s.next !in s.tokens.Keys;
      TokenAdded(s.tokens, s.next);
    }
  }

  lemma ProcessTakesWork<C>(job: Job<C>, s: State<C>, i: nat)
    requires Enabled(job, s, Process(i))
    ensures WorkLeft(job, Apply(job, s, Process(i))) < WorkLeft(job, s)
  {
    var s' := Apply(job, s, Process(i));
    assert Unprocessed(s.tokens) == Unprocessed(s'.tokens) + {i} && i !in Unprocessed(s'.tokens);
    assert s'.tokens.Keys == s.tokens.Keys;
    assert |s'.tokens.Keys| == |s.tokens.Keys|;
  }

  lemma PushTakesWork<C>(job: Job<C>, s: State<C>, thread: nat, i: nat)
    requires Enabled(job, s, Push(thread, i))
    ensures WorkLeft(job, Apply(job, s, Push(thread, i))) < WorkLeft(job, s)
  {
    TokenTaken(s.tokens, i);
    hide Unprocessed;
  }

  lemma StepTakesWork<C>(job: Job<C>, s: State<C>, step: Step)
    requires Inv(job, s) && Enabled(job, s, step)
    ensures WorkLeft(job, Apply(job, s, step)) < WorkLeft(job, s)
  {
    match step
    case Fetch => FetchTakesWork(job, s);
    case Process(i) => ProcessTakesWork(job, s, i);
    case Push(thread, i) => PushTakesWork(job, s, thread, i);
    case _ => hide Inv;
  }

  /** No run is longer than the work there was at its start. */
  lemma {:induction false} RunsEnd<C>(job: Job<C>, s: State<C>, steps: seq<Step>)
    requires Inv(job, s) && Run(job, s, steps).Some?
    ensures |steps| <= WorkLeft(job, s)
    decreases |steps|
  {
    if steps == [] {
      assert WorkLeft(job, s) >= 0 by {
        hide ClaimedOnce, TokensRight, NullsRight, ItemsRight, StageRight, BooksRight;
      }
    } else {
      hide Inv, Enabled, Apply, WorkLeft;
      StepKeeps(job, s, steps[0]);
      StepTakesWork(job, s, steps[0]);
      RunsEnd(job, Apply(job, s, steps[0]), steps[1..]);
    }
  }

  /** A run that has not finished can always go on. */
  lemma NeverStuck<C>(job: Job<C>, s: State<C>)
    requires Inv(job, s) && job.maxTokens > 0 && !s.filter.Finished?
    ensures exists step :: Enabled(job, s, step)
  {
    hide TokensRight, NullsRight, SumOver, WriteEvents;
    if (s.filter.Draining? || s.filter.Flushing?) && s.sink.queue != [] {
      assert Delivered(s)[|s.sink.drained|] == s.sink.queue[0];
      assert Enabled(job, s, Drain);
    } else if s.filter.Draining? {
      assert Enabled(job, s, EndDrain);
    } else if s.filter.Flushing? {
      MarkedInRange(|job.prims|, s.sink.drained);
      assert Enabled(job, s, EndFlush);
    } else if s.filter.Pushed? {
      assert Enabled(job, s, if s.filter.thread == job.mainThread then BeginDrain else Leave);
    } else if s.entered > 0 {
      assert Enabled(job, s, Fetch);
    } else if s.tokens != map[] {
      var i :| i in s.tokens;
      InFlightUntouched(job, s, i);
      assert Enabled(job, s, if s.tokens[i].Claimed? then Process(i) else Push(job.mainThread, i));
    } else {
      assert Enabled(job, s, if s.stopped then BeginFlush else Enter);
    }
  }

  // ---------- The output filter object ----------

  function Queued<C>(sink: Sink<C>, item: Item): Sink<C>
  {
    sink.(queue := sink.queue + [item])
  }

  ghost predicate OnStage<C>(sink: Sink<C>)
  {
    forall k :: 0 <= k < |sink.queue| ==> sink.queue[k].0 < |sink.stage|
  }

  lemma DrainFront<C>(job: Job<C>, sink: Sink<C>)
    requires sink.queue != [] && forall k :: 0 <= k < |sink.queue| ==> sink.queue[k].0 < |sink.stage|
    ensures var next := DrainOne(job, sink);
            && |next.stage| == |sink.stage| && next.queue == sink.queue[1..]
            && next.drained + next.queue == sink.drained + sink.queue
            && forall k :: 0 <= k < |next.queue| ==> next.queue[k].0 < |next.stage|
  {
    hide ProcessedData.Contribution, TotalStats.Plus, Measured, WriteTo;
    assert sink.queue == [sink.queue[0]] + sink.queue[1..];
  }

  // Empty the queue from the front.
  function DrainAll<C>(job: Job<C>, sink: Sink<C>): (r: Sink<C>)
    requires forall k :: 0 <= k < |sink.queue| ==> sink.queue[k].0 < |sink.stage|
    ensures r.queue == [] && |r.stage| == |sink.stage| && r.drained == sink.drained + sink.queue
    decreases |sink.queue|
  {
    if sink.queue == [] then sink
    else
      DrainFront(job, sink);
      DrainAll(job, DrainOne(job, sink))
  }

  class OutputFilter<C> {
    const job: Job<C>
    var queue: seq<Item>
    var deletePrims: seq<nat>
    var totals: TotalStats
    var stage: seq<Content<C>>
    ghost var events: seq<Event>
    ghost var drained: seq<Item>

    ghost function Contents(): Sink<C>
      reads this
    {
      Sink(queue, deletePrims, totals, stage, events, drained)
    }

    constructor (job: Job<C>, stage: seq<Content<C>>)
      ensures Contents() == Sink([], [], NOTHING, stage, [], []) && this.job == job
    {
      this.job := job;
      queue, deletePrims, totals := [], [], NOTHING;
      this.stage := stage;
      events, drained := [], [];
    }

    // One invocation of the filter, on some thread.
    method Accept(data: Option<Item>, thread: nat)
      requires OnStage(Contents()) && (data.Some? ==> data.value.0 < |stage|)
      modifies this
      ensures data.None? ==> Contents() == old(Contents())
      ensures data.Some? && thread != job.mainThread ==> Contents() == Queued(old(Contents()), data.value)
      ensures data.Some? && thread == job.mainThread ==> Contents() == DrainAll(job, Queued(old(Contents()), data.value))
    {
      if data.Some? {
        queue := queue + [data.value];
        if thread == job.mainThread {
          WriteQueued();
        }
      }
    }

    method WriteQueued()
      requires OnStage(Contents())
      modifies this
      ensures Contents() == DrainAll(job, old(Contents()))
    {
      while queue != []
        invariant OnStage(Contents())
        invariant DrainAll(job, Contents()) == DrainAll(job, old(Contents()))
        decreases |queue|
      {
        ghost var before := Contents();
        var (i, d) := queue[0];
        queue := queue[1..];
        totals := totals.Plus(d.Contribution(Measured(job, stage[i])));
        if d.write {
          if d.ShouldDelete() {
            deletePrims := deletePrims + [i];
          } else {
            stage := stage[i := WriteTo(job, d, stage[i])];
            events := events + [Wrote(i)];
          }
        }
        drained := drained + [(i, d)];
        assert Contents() == DrainOne(job, before);
      }
    }

    // The destructor.
    method Finish()
      requires OnStage(Contents()) && forall i :: i in deletePrims ==> i < |stage|
      modifies this
      ensures forall i :: i in DrainAll(job, old(Contents())).deletePrims ==> i < |old(stage)|
      ensures Contents() == DeleteMarked(DrainAll(job, old(Contents())))
    {
      MarkedStayInRange(job, Contents());
      WriteQueued();
      if deletePrims != [] {
        events := events + Deletions(deletePrims);
        stage := Remove(stage, deletePrims);
      }
    }
  }

  lemma {:induction false} MarkedStayInRange<C>(job: Job<C>, sink: Sink<C>)
    requires OnStage(sink) && forall i :: i in sink.deletePrims ==> i < |sink.stage|
    ensures forall i :: i in DrainAll(job, sink).deletePrims ==> i < |sink.stage|
    decreases |sink.queue|
  {
    if sink.queue != [] {
      MarkedStayInRange(job, DrainOne(job, sink));
    }
  }

  /** What the object does in one go is a run of Drain steps. */
  lemma {:induction false} DrainAllIsRun<C>(job: Job<C>, s: State<C>)
    requires OnStage(s.sink) && (s.filter.Draining? || s.filter.Flushing?)
    ensures Run(job, s, seq(|s.sink.queue|, _ => Drain)) == Some(s.(sink := DrainAll(job, s.sink)))
    decreases |s.sink.queue|
  {
    var n := |s.sink.queue|;
    if n > 0 {
      DrainAllIsRun(job, Apply(job, s, Drain));
      assert seq(n, _ => Drain)[1..] == seq(n - 1, _ => Drain);
    }
  }
}
