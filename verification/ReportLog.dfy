/** The report's log queue: any thread appends, one background thread writes, the destructor has it flush and exit. */
module ReportLog {

  type Message = string

  // The writer holds no message while it waits, and one after it has released the mutex to write it.
  datatype Writer = Waiting | Holding(message: Message) | Exited

  datatype Log = Log(
    queue: seq<Message>,
    shutdown: bool,
    writer: Writer,
    written: seq<Message>,
    logged: seq<Message>,     // everything passed to log, in the order of its critical sections
    afterExit: seq<Message>)  // of these, what came when the writer had gone

  datatype Step =
    | Append(message: Message)
    | Shutdown
    | Take              // the writer wakes up: it takes a message, or flushes and exits
    | Write             // it writes the message it took

  function Start(): Log { Log([], false, Waiting, [], [], []) }

  predicate Enabled(s: Log, step: Step)
  {
    match step
    case Append(_) => true
    case Shutdown => true
    case Take => s.writer.Waiting? && (s.queue != [] || s.shutdown)
    case Write => s.writer.Holding?
  }

  function Apply(s: Log, step: Step): Log
    requires Enabled(s, step)
  {
    match step
    case Append(m) =>
      s.(queue := s.queue + [m], logged := s.logged + [m],
         afterExit := if s.writer.Exited? then s.afterExit + [m] else s.afterExit)
    case Shutdown => s.(shutdown := true)
    case Take =>
      if s.shutdown then s.(written := s.written + s.queue, queue := [], writer := Exited)
      else s.(queue := s.queue[1..], writer := Holding(s.queue[0]))
    case Write => s.(written := s.written + [s.writer.message], writer := Waiting)
  }

  function InHand(w: Writer): seq<Message> { if w.Holding? then [w.message] else [] }

  ghost predicate Inv(s: Log)
  {
    && s.written + InHand(s.writer) + s.queue == s.logged
    && (s.writer.Exited? ==> s.queue == s.afterExit && s.shutdown)
    && (!s.writer.Exited? ==> s.afterExit == [])
  }

  lemma StepKeeps(s: Log, step: Step)
    requires Inv(s) && Enabled(s, step)
    ensures Inv(Apply(s, step))
  {
    match step
    case Append(m) => assert s.written + InHand(s.writer) + (s.queue + [m]) == s.logged + [m];
    case Take =>
      if s.shutdown {
        assert s.written + [] + s.queue == s.logged;
        assert s.written + s.queue + [] + [] == s.logged;
      } else {
        assert s.queue == [s.queue[0]] + s.queue[1..];
        assert s.written + [] + s.queue == s.written + [s.queue[0]] + s.queue[1..];
      }
    case _ => assert s.written + InHand(s.writer) + s.queue == s.written + InHand(s.writer) + [] + s.queue;
  }

  ghost predicate Possible(s: Log, steps: seq<Step>)
    decreases |steps|
  {
    steps == [] || (Enabled(s, steps[0]) && Possible(Apply(s, steps[0]), steps[1..]))
  }

  ghost function After(s: Log, steps: seq<Step>): Log
    requires Possible(s, steps)
    decreases |steps|
  {
    if steps == [] then s else After(Apply(s, steps[0]), steps[1..])
  }

  lemma {:induction false} RunKeeps(s: Log, steps: seq<Step>)
    requires Inv(s) && Possible(s, steps)
    ensures Inv(After(s, steps))
    decreases |steps|
  {
    hide Inv, Enabled, Apply;
    if steps != [] {
      StepKeeps(s, steps[0]);
      RunKeeps(Apply(s, steps[0]), steps[1..]);
    }
  }

  /** In every run nothing is lost, doubled or reordered: what was written, what the writer holds and what is queued
      are the log. Once the writer has gone, exactly the messages logged since then are missing. */
  lemma NothingLost(steps: seq<Step>)
    requires Possible(Start(), steps)
    ensures var s := After(Start(), steps);
            && s.written + InHand(s.writer) + s.queue == s.logged
            && (s.writer.Exited? ==> s.written + s.afterExit == s.logged)
  {
    RunKeeps(Start(), steps);
    var s := After(Start(), steps);
    assert s.written + [] == s.written;
  }

  function WriterSteps(steps: seq<Step>): nat
  {
    if steps == [] then 0 else (if steps[0].Take? || steps[0].Write? then 1 else 0) + WriterSteps(steps[1..])
  }

  // The writer's own steps until it has gone.
  function StepsLeft(w: Writer): nat
  {
    match w case Holding(_) => 2 case Waiting => 1 case Exited => 0
  }

  lemma NeverStuck(s: Log)
    requires s.shutdown && !s.writer.Exited?
    ensures Enabled(s, Take) || Enabled(s, Write)
  {
  }

  lemma ExitingStep(s: Log, step: Step)
    requires Inv(s) && s.shutdown && Enabled(s, step)
    ensures var s' := Apply(s, step);
            && s'.shutdown && s.logged <= s'.logged
            && (s.writer.Exited? ==> s'.writer.Exited? && s'.written == s.written)
            && (!s.writer.Exited? && s'.writer.Exited? ==> s'.written == s.logged)
            && StepsLeft(s'.writer) <= StepsLeft(s.writer)
            && (!s.writer.Exited? && (step.Take? || step.Write?) ==> StepsLeft(s'.writer) < StepsLeft(s.writer))
  {
    assert s.written + [] == s.written;
  }

  /** After shutdown the writer is never stuck, and in every run it has exited after at most two of its own steps, with
      everything written that had been logged. */
  lemma {:induction false} WriterExits(s: Log, steps: seq<Step>)
    requires Inv(s) && s.shutdown && Possible(s, steps) && (s.writer.Exited? ==> s.afterExit == [])
    requires WriterSteps(steps) >= StepsLeft(s.writer)
    ensures After(s, steps).writer.Exited? && s.logged <= After(s, steps).written
    decreases |steps|
  {
    hide Enabled, Apply;
    if s.writer.Exited? {
      assert s.written + [] == s.written;
      GoneStaysGone(s, steps);
    } else if steps != [] {
      var s' := Apply(s, steps[0]);
      StepKeeps(s, steps[0]);
      ExitingStep(s, steps[0]);
      if s'.writer.Exited? {
        GoneStaysGone(s', steps[1..]);
      } else {
        WriterExits(s', steps[1..]);
      }
    }
  }

  lemma {:induction false} GoneStaysGone(s: Log, steps: seq<Step>)
    requires Inv(s) && s.shutdown && Possible(s, steps) && s.writer.Exited?
    ensures After(s, steps).writer.Exited? && After(s, steps).written == s.written
    decreases |steps|
  {
    hide Inv, Enabled, Apply;
    if steps != [] {
      StepKeeps(s, steps[0]);
      ExitingStep(s, steps[0]);
      GoneStaysGone(Apply(s, steps[0]), steps[1..]);
    }
  }
}
