/** What a run of the coalescer looks like from outside: triggers, launches of the callback and waits. */
module CoalescerHistory {
  import opened Coalescing

  // ---------- Launches ----------

  lemma {:induction false} PendingHasTrigger(events: seq<Event>) returns (j: nat)
    requires Pending(events)
    ensures j < |events| && events[j].Triggered?
    ensures forall k :: j < k < |events| ==> !events[k].Launched?
  {
    if events[|events| - 1].Triggered? {
      j := |events| - 1;
    } else {
      j := PendingHasTrigger(events[..|events| - 1]);
    }
  }

  /** In every run: a launch comes at least the delay, a million ticks for each of its milliseconds, after every trigger
      before it. There is a trigger between any two launches and before the first, and no launch after a cancel. */
  lemma LaunchesAreDue(delay: nat, steps: seq<Step>, k: nat)
    requires Possible(delay, Start(), steps)
    requires k < |After(delay, Start(), steps).events| && After(delay, Start(), steps).events[k].Launched?
    ensures var events := After(delay, Start(), steps).events;
            && (forall j :: 0 <= j < k && events[j].Triggered? ==> events[j].time + delay * 1_000_000 <= events[k].time)
            && (forall j :: 0 <= j < k ==> events[j] != Cancelled)
            && (exists j :: 0 <= j < k && events[j].Triggered? && forall l :: j < l < k ==> !events[l].Launched?)
  {
    EveryRun(delay, steps);
    var events := After(delay, Start(), steps).events;
    hide After, Possible, Pending;
    assert Quiet(delay, events[..k], events[k].time);
    var j := PendingHasTrigger(events[..k]);
    assert events[j] == events[..k][j];
    forall l | j < l < k ensures !events[l].Launched? {
      assert events[..k][l] == events[l];
    }
    forall i | 0 <= i < k && events[i].Triggered? ensures events[i].time + delay * 1_000_000 <= events[k].time {
      assert events[..k][i] == events[i];
    }
    forall i | 0 <= i < k ensures events[i] != Cancelled {
      assert events[..k][i] == events[i];
    }
  }

  // ---------- Triggers ----------

  // When the triggers were made that came before a cancel, for steps that start at the given time.
  function Asked(steps: seq<Step>, now: nat, cancelled: bool): seq<nat>
    decreases |steps|
  {
    if steps == [] || cancelled then []
    else
      match steps[0]
      case Tick(elapsed) => Asked(steps[1..], now + elapsed, false)
      case Trigger => [now] + Asked(steps[1..], now, false)
      case Cancel => []
      case _ => Asked(steps[1..], now, false)
  }

  function TriggerTimes(events: seq<Event>): seq<nat>
  {
    if events == [] then []
    else
      TriggerTimes(events[..|events| - 1])
      + if events[|events| - 1].Triggered? then [events[|events| - 1].time] else []
  }

  lemma OneMoreTime(events: seq<Event>, e: Event)
    ensures TriggerTimes(events + [e]) == TriggerTimes(events) + if e.Triggered? then [e.time] else []
  {
    assert (events + [e])[..|events|] == events;
  }

  // What a step adds to the history.
  function Added(delay: nat, w: World, step: Step): seq<Event>
    requires Enabled(w, step)
  {
    match step
    case Trigger => if w.fields.cancelled then [] else [Triggered(w.now)]
    case Cancel => [Cancelled]
    case Wait(i) => if w.fields.active then [] else [Returned(i)]
    case Resume(i) => if w.fields.active then [] else [Returned(i)]
    case Wake(_, _) =>
      if !w.fields.cancelled && w.now >= w.fields.timestamp + delay * 1_000_000 then [Launched(w.now)] else []
    case _ => []
  }

  lemma StepAdds(delay: nat, w: World, step: Step)
    requires Enabled(w, step)
    ensures Apply(delay, w, step).events == w.events + Added(delay, w, step)
    ensures Apply(delay, w, step).now == w.now + (if step.Tick? then step.elapsed else 0)
    ensures Apply(delay, w, step).fields.cancelled == (w.fields.cancelled || step.Cancel?)
  {
    assert w.events + [] == w.events;
  }

  lemma AddedTime(delay: nat, w: World, step: Step)
    requires Enabled(w, step)
    ensures TriggerTimes(w.events + Added(delay, w, step))
            == TriggerTimes(w.events) + (if step.Trigger? && !w.fields.cancelled then [w.now] else [])
  {
    hide TriggerTimes, Enabled;
    var added := Added(delay, w, step);
    if added == [] {
      assert w.events + added == w.events;
    } else {
      OneMoreTime(w.events, added[0]);
      assert added == [added[0]];
    }
  }

  /** Every trigger that comes before a cancel is recorded, once, with its time, and nothing else is. */
  lemma {:induction false} TriggersAreRecorded(delay: nat, w: World, steps: seq<Step>)
    requires Possible(delay, w, steps)
    ensures TriggerTimes(After(delay, w, steps).events) == TriggerTimes(w.events) + Asked(steps, w.now, w.fields.cancelled)
    decreases |steps|
  {
    hide Enabled, Apply, TriggerTimes, Added;
    if steps == [] {
      assert TriggerTimes(w.events) + [] == TriggerTimes(w.events);
    } else {
      StepAdds(delay, w, steps[0]);
      AddedTime(delay, w, steps[0]);
      TriggersAreRecorded(delay, Apply(delay, w, steps[0]), steps[1..]);
      AskedNext(steps, w.now, w.fields.cancelled);
    }
  }

  lemma AskedNext(steps: seq<Step>, now: nat, cancelled: bool)
    requires steps != []
    ensures Asked(steps, now, cancelled)
            == (if steps[0].Trigger? && !cancelled then [now] else [])
               + Asked(steps[1..], now + (if steps[0].Tick? then steps[0].elapsed else 0), cancelled || steps[0].Cancel?)
  {
    var rest := Asked(steps[1..], now + (if steps[0].Tick? then steps[0].elapsed else 0), cancelled || steps[0].Cancel?);
    assert [] + rest == rest;
  }

  // ---------- Waits ----------

  function Waits(steps: seq<Step>, i: nat): nat
  {
    if steps == [] then 0 else (if steps[0] == Wait(i) then 1 else 0) + Waits(steps[1..], i)
  }

  // A thread that waits is blocked, or has been woken and wants to look again, and never both.
  function Waiting(w: World, i: nat): nat
  {
    (if i in w.blocked then 1 else 0) + if i in w.notified then 1 else 0
  }

  // Only four kinds of steps concern waiters.
  lemma StepMovesWaiters(delay: nat, w: World, step: Step)
    requires Enabled(w, step)
    ensures var w' := Apply(delay, w, step);
            match step
            case Wait(i) => w'.blocked == (if w.fields.active then w.blocked + {i} else w.blocked) && w'.notified == w.notified
            case Resume(i) =>
              w'.blocked == (if w.fields.active then w.blocked + {i} else w.blocked) && w'.notified == w.notified - {i}
            case Spurious(i) => w'.blocked == w.blocked - {i} && w'.notified == w.notified + {i}
            case Wake(_, i) =>
              (w'.blocked == w.blocked && w'.notified == w.notified)
              || (w'.blocked == w.blocked - {i} && w'.notified == w.notified + (w.blocked * {i}))
            case _ => w'.blocked == w.blocked && w'.notified == w.notified
  {
    hide OnTrigger, OnWake;
  }

  lemma StepKeepsPlaces(delay: nat, w: World, step: Step, i: nat)
    requires Enabled(w, step) && w.blocked !! w.notified
    ensures var w' := Apply(delay, w, step);
            && w'.blocked !! w'.notified
            && Waiting(w', i) + (if Added(delay, w, step) == [Returned(i)] then 1 else 0)
               == Waiting(w, i) + (if step == Wait(i) then 1 else 0)
  {
    StepMovesWaiters(delay, w, step);
    hide Apply;
  }

  lemma StepKeepsWaiters(delay: nat, w: World, step: Step, i: nat)
    requires Enabled(w, step) && w.blocked !! w.notified
    ensures var w' := Apply(delay, w, step);
            && w'.blocked !! w'.notified
            && multiset(w'.events)[Returned(i)] + Waiting(w', i)
               == multiset(w.events)[Returned(i)] + Waiting(w, i) + (if step == Wait(i) then 1 else 0)
  {
    StepAdds(delay, w, step);
    StepKeepsPlaces(delay, w, step, i);
    OneMoreReturned(w.events, Added(delay, w, step), i);
    hide Apply, Waiting, Enabled;
  }

  lemma OneMoreReturned(events: seq<Event>, added: seq<Event>, i: nat)
    requires |added| <= 1
    ensures multiset(events + added)[Returned(i)] == multiset(events)[Returned(i)] + if added == [Returned(i)] then 1 else 0
  {
    if added != [] {
      assert added == [added[0]];
    }
  }

  /** Nobody gets lost: every wait that was begun has returned once, or its thread is still waiting. */
  lemma {:induction false} WaitsAreKept(delay: nat, w: World, steps: seq<Step>, i: nat)
    requires Possible(delay, w, steps) && w.blocked !! w.notified
    ensures var w' := After(delay, w, steps);
            && w'.blocked !! w'.notified
            && multiset(w'.events)[Returned(i)] + Waiting(w', i)
               == multiset(w.events)[Returned(i)] + Waiting(w, i) + Waits(steps, i)
    decreases |steps|
  {
    hide Enabled, Apply, Waiting;
    if steps != [] {
      StepKeepsWaiters(delay, w, steps[0], i);
      WaitsAreKept(delay, Apply(delay, w, steps[0]), steps[1..], i);
    }
  }
}
