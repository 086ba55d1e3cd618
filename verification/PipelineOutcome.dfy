/** What a finished run of the mesh pipeline leaves of each prim, and what it reports, in terms of the operation's own
    functions only. */
module PipelineOutcome {
  import opened MeshPipeline

  ghost predicate Ends<C>(job: Job<C>, steps: seq<Step>)
  {
    Run(job, Init(job), steps).Some? && Run(job, Init(job), steps).value.filter.Finished?
  }

  // The output filter at the end of the run.
  ghost function Outcome<C>(job: Job<C>, steps: seq<Step>): Sink<C>
    requires Ends(job, steps)
  {
    Run(job, Init(job), steps).value.sink
  }

  // ---------- The stage ----------

  lemma DeletedEvents(items: seq<Item>, i: nat)
    ensures Deleted(i) in WriteEvents(items) + Deletions(Marked(items)) <==> i in Marked(items)
    ensures Wrote(i) in WriteEvents(items) + Deletions(Marked(items)) <==> Wrote(i) in WriteEvents(items)
  {
    var writes, marked := WriteEvents(items), Marked(items);
    WrittenExactly(items, i);
    if i in marked {
      var k :| 0 <= k < |marked| && marked[k] == i;
      assert Deletions(marked)[k] == Deleted(i);
    }
  }

  /** After every finished run, whatever the interleaving: a prim is gone if and only if processing it gave the data of a
      mesh without vertices, to be written; any other result to be written has been written over the original prim, once;
      instance proxies, prims without a result and those not to be written are as they were. */
  lemma PrimAfterRun<C>(job: Job<C>, steps: seq<Step>, i: nat)
    requires Ends(job, steps) && i < |job.prims|
    ensures var sink := Outcome(job, steps);
            var written := !job.isProxy(i) && job.processMesh(i, job.prims[i]).Some?
                           && job.processMesh(i, job.prims[i]).value.write;
            && |sink.stage| == |job.prims|
            && (!written ==> sink.stage[i] == Present(job.prims[i])
                             && Wrote(i) !in sink.events && Deleted(i) !in sink.events)
            && (written ==>
                  var data := job.processMesh(i, job.prims[i]).value;
                  if data.HostMeshData? && data.counts.vertices == 0
                  then sink.stage[i] == Removed && Deleted(i) in sink.events && Wrote(i) !in sink.events
                  else sink.stage[i] == Present(job.write(data, job.prims[i]))
                       && Wrote(i) in sink.events && Deleted(i) !in sink.events)
  {
    PipelineIsSequential(job, steps);
    InitInv(job);
    RunKeeps(job, Init(job), steps);
    var s := Run(job, Init(job), steps).value;
    FinishedCovers(job, s);
    MarkedIsResult(job, s.sink.drained, i);
    DeletedEvents(s.sink.drained, i);
    hide Run, Init, Inv, Covers, ItemsRight, Marked, WriteEvents, Deletions, SequentialTotals, Indices;
  }

  // ---------- The totals ----------

  function Total(stats: seq<MeshStats>): MeshStats
  {
    if stats == [] then MeshStats(0, 0)
    else
      var init, last := Total(stats[..|stats| - 1]), stats[|stats| - 1];
      MeshStats(init.vertices + last.vertices, init.faces + last.faces)
  }

  predicate HasResult<C>(job: Job<C>, i: nat)
    requires i < |job.prims|
  {
    job.isProxy(i) || job.processMesh(i, job.prims[i]).Some?
  }

  // What is measured at first, and what is measured in the end, of the prims that have a result.
  function MeasuredBefore<C>(job: Job<C>): (r: seq<MeshStats>)
    ensures |r| == |job.prims|
  {
    seq(|job.prims|, i requires 0 <= i < |job.prims| =>
      if HasResult(job, i) then job.measure(job.prims[i]) else MeshStats(0, 0))
  }

  function MeasuredAfter<C>(job: Job<C>, stage: seq<Content<C>>): (r: seq<MeshStats>)
    requires |stage| == |job.prims|
    ensures |r| == |job.prims|
  {
    seq(|job.prims|, i requires 0 <= i < |job.prims| =>
      if HasResult(job, i) && stage[i].Present? then job.measure(stage[i].content) else MeshStats(0, 0))
  }

  // What a result to be written says that the prim will measure.
  function Reported<C>(job: Job<C>, data: ProcessedData, original: C): MeshStats
  {
    match data
    case HostMesh(_, counts) => counts
    case HostMeshData(_, counts) => counts
    case HostPrim(_, fitted) => if fitted then MeshStats(0, 0) else job.measure(original)
    case Unchanged(_) => MeshStats(0, 0)
  }

  function ReportedAfter<C>(job: Job<C>): (r: seq<MeshStats>)
    ensures |r| == |job.prims|
  {
    seq(|job.prims|, i requires 0 <= i < |job.prims| =>
      if !HasResult(job, i) then MeshStats(0, 0)
      else if job.isProxy(i) || !job.processMesh(i, job.prims[i]).value.write then job.measure(job.prims[i])
      else Reported(job, job.processMesh(i, job.prims[i]).value, job.prims[i]))
  }

  // Writing a result leaves what it reports, and a mesh without vertices has no faces.
  ghost predicate ReportsRight<C>(job: Job<C>)
  {
    forall i :: 0 <= i < |job.prims| && !job.isProxy(i) && job.processMesh(i, job.prims[i]).Some? ==>
      var data := job.processMesh(i, job.prims[i]).value;
      data.write ==>
        if data.HostMeshData? && data.counts.vertices == 0 then data.counts.faces == 0
        else job.measure(job.write(data, job.prims[i])) == Reported(job, data, job.prims[i])
  }

  lemma CountedOnce<C>(job: Job<C>, i: nat)
    requires i < |job.prims|
    ensures Contribution(job, i) == TotalStats(MeasuredBefore(job)[i], ReportedAfter(job)[i])
  {
  }

  lemma MeasuredAsReported<C>(job: Job<C>, stage: seq<Content<C>>)
    requires |stage| == |job.prims| && ReportsRight(job)
    requires forall i :: 0 <= i < |stage| ==> stage[i] == SequentialContent(job, i)
    ensures MeasuredAfter(job, stage) == ReportedAfter(job)
  {
  }

  lemma {:induction false} TotalsAre<C>(job: Job<C>, before: seq<MeshStats>, after: seq<MeshStats>, n: nat)
    requires |before| == |after| == |job.prims| && n <= |job.prims|
    requires forall i :: 0 <= i < n ==> Contribution(job, i) == TotalStats(before[i], after[i])
    ensures SequentialTotals(job, n) == TotalStats(Total(before[..n]), Total(after[..n]))
    decreases n
  {
    hide Contribution;
    if n > 0 {
      TotalsAre(job, before, after, n - 1);
      assert before[..n][..n - 1] == before[..n - 1];
      assert after[..n][..n - 1] == after[..n - 1];
    }
  }

  /** The totals of every finished run: before, what is measured on the original prims that have a result; after, what the
      results to be written report, and for the others what is measured. They belong to the final stage if writing a
      result leaves what it reports. */
  lemma TotalsMeasureTheStage<C>(job: Job<C>, steps: seq<Step>)
    requires Ends(job, steps)
    ensures var sink := Outcome(job, steps);
            && |sink.stage| == |job.prims|
            && sink.totals.before == Total(MeasuredBefore(job))
            && sink.totals.after == Total(ReportedAfter(job))
            && (ReportsRight(job) ==> sink.totals.after == Total(MeasuredAfter(job, sink.stage)))
  {
    PipelineIsSequential(job, steps);
    var before, after, stage := MeasuredBefore(job), ReportedAfter(job), Outcome(job, steps).stage;
    hide *;
    forall i | 0 <= i < |job.prims| ensures Contribution(job, i) == TotalStats(before[i], after[i]) {
      CountedOnce(job, i);
    }
    TotalsAre(job, before, after, |job.prims|);
    assert before[..|job.prims|] == before && after[..|job.prims|] == after;
    if ReportsRight(job) {
      MeasuredAsReported(job, stage);
    }
  }

  // ---------- Emptying the queue ----------

  /** Emptying the queue marks exactly the prims with a result to be written that is the data of a mesh without vertices;
      it writes over a prim that is queued once, and leaves the stage as it is elsewhere. */
  lemma {:induction false} QueueIsDrained<C>(job: Job<C>, sink: Sink<C>, i: nat)
    requires OnStage(sink) && i < |sink.stage|
    ensures var r := DrainAll(job, sink);
            && (i in r.deletePrims <==>
                  i in sink.deletePrims
                  || exists k :: 0 <= k < |sink.queue| && sink.queue[k].0 == i && sink.queue[k].1.write
                                 && sink.queue[k].1.HostMeshData? && sink.queue[k].1.counts.vertices == 0)
            && ((forall k :: 0 <= k < |sink.queue| ==> sink.queue[k].0 != i) ==> r.stage[i] == sink.stage[i])
            && (forall k :: 0 <= k < |sink.queue| && sink.queue[k].0 == i && sink.stage[i].Present?
                            && (forall j :: 0 <= j < |sink.queue| && j != k ==> sink.queue[j].0 != i) ==>
                  var data := sink.queue[k].1;
                  if data.write && !(data.HostMeshData? && data.counts.vertices == 0)
                  then r.stage[i] == Present(job.write(data, sink.stage[i].content))
                  else r.stage[i] == sink.stage[i])
    decreases |sink.queue|
  {
    if sink.queue != [] {
      var next := DrainOne(job, sink);
      DrainFront(job, sink);
      FrontIsDrained(job, sink, i);
      hide DrainOne;
      QueueIsDrained(job, next, i);
    }
  }

  lemma FrontIsDrained<C>(job: Job<C>, sink: Sink<C>, i: nat)
    requires sink.queue != [] && sink.queue[0].0 < |sink.stage| && i < |sink.stage|
    ensures var (j, data), next := sink.queue[0], DrainOne(job, sink);
            var deleted := data.HostMeshData? && data.counts.vertices == 0;
            && (i in next.deletePrims <==> i in sink.deletePrims || (i == j && data.write && deleted))
            && next.stage[i] == if i == j && data.write && !deleted && sink.stage[i].Present?
                                then Present(job.write(data, sink.stage[i].content)) else sink.stage[i]
  {
  }
}
