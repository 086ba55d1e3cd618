/** The event coalescer: a callback runs once no trigger has arrived for the configured delay. Timers are detached
    threads that sleep and then look at the shared fields again; all of it is guarded by one mutex. */
module Coalescing {

  // Clock ticks are nanoseconds, delays are milliseconds.
  const TICKS := 1_000_000

  datatype Fields = Fields(timestamp: nat, active: bool, cancelled: bool)

  // What a critical section starts before it releases the mutex.
  datatype Effect =
    | Nothing
    | Schedule(sleep: nat)   // a timer thread, sleeping this many milliseconds
    | Launch                 // a thread running the callback; the timer is over
    | Stop                   // the timer is over

  function OnTrigger(delay: nat, f: Fields, now: nat): (Fields, Effect)
  {
    if f.cancelled then (f, Nothing)
    else (Fields(now, true, false), if f.active then Nothing else Schedule(delay))
  }

  function OnWake(delay: nat, f: Fields, now: nat): (Fields, Effect)
    requires f.timestamp <= now
  {
    var delta := now - f.timestamp;
    if f.cancelled then (f.(active := false), Stop)
    else if delta >= delay * TICKS then (f.(active := false), Launch)
    else (f, Schedule(Remaining(delay, delta)))
  }

  // The delay less the elapsed time, which is first truncated to milliseconds.
  function Remaining(delay: nat, delta: nat): (ms: nat)
    requires delta < delay * TICKS
    ensures 0 < ms <= delay
    ensures delay * TICKS <= delta + ms * TICKS < (delay + 1) * TICKS
  {
    delay - delta / TICKS
  }

  // ---------- The object ----------

  class Coalescer {
    const delay: nat
    var timestamp: nat
    var timerActive: bool
    var cancelled: bool

    ghost function State(): Fields
      reads this
    {
      Fields(timestamp, timerActive, cancelled)
    }

    constructor (delay: nat)
      ensures this.delay == delay && State() == Fields(0, false, false)
    {
      this.delay := delay;
      timestamp, timerActive, cancelled := 0, false, false;
    }

    method Trigger(now: nat) returns (effect: Effect)
      modifies this
      ensures (State(), effect) == OnTrigger(delay, old(State()), now)
    {
      effect := Nothing;
      if cancelled {
        return;
      }
      timestamp := now;
      if !timerActive {
        timerActive := true;
        effect := Schedule(delay);
      }
    }

    method Cancel()
      modifies this
      ensures State() == old(State()).(cancelled := true)
    {
      cancelled := true;
    }

    method ExecuteCallback(now: nat) returns (effect: Effect)
      requires timestamp <= now
      modifies this
      ensures (State(), effect) == OnWake(delay, old(State()), now)
    {
      if cancelled {
        timerActive := false;
        return Stop;
      }
      var delta := now - timestamp;
      if delta >= delay * TICKS {
        timerActive := false;
        effect := Launch;
      } else {
        effect := Schedule(delay - delta / TICKS);
      }
    }
  }

  // ---------- All interleavings ----------

  // A timer thread, with the trigger time it was planned from.
  datatype Timer =
    | Created(since: nat, sleep: nat)   // detached, has not begun to sleep
    | Sleeping(since: nat, until: nat)

  datatype Event =
    | Triggered(time: nat)
    | Launched(time: nat)
    | Cancelled
    | Returned(waiter: nat)

  datatype World = World(
    now: nat,
    fields: Fields,
    timers: map<nat, Timer>,
    nextId: nat,
    blocked: set<nat>,     // waiters on the condition variable
    notified: set<nat>,    // waiters that have been woken and want the mutex back
    events: seq<Event>)

  datatype Step =
    | Tick(elapsed: nat)
    | Trigger
    | Cancel
    | Wait(waiter: nat)
    | StartSleep(id: nat)
    | Wake(id: nat, notify: nat)   // a timer's sleep is over; it may notify this waiter
    | Spurious(waiter: nat)
    | Resume(waiter: nat)

  function Start(): World { World(0, Fields(0, false, false), map[], 0, {}, {}, []) }

  predicate Enabled(w: World, step: Step)
  {
    match step
    case Tick(_) => true
    case Trigger => true
    case Cancel => true
    case Wait(i) => i !in w.blocked && i !in w.notified
    case StartSleep(id) => id in w.timers && w.timers[id].Created?
    case Wake(id, i) =>
      && id in w.timers && w.timers[id].Sleeping? && w.timers[id].until <= w.now
      && w.fields.timestamp <= w.now && (w.blocked == {} || i in w.blocked)
    case Spurious(i) => i in w.blocked
    case Resume(i) => i in w.notified
  }

  // Record an event and start the threads of an effect.
  function Take(w: World, fields: Fields, effect: Effect, events: seq<Event>): World
  {
    match effect
    case Schedule(sleep) =>
      w.(fields := fields, events := w.events + events,
         timers := w.timers[w.nextId := Created(fields.timestamp, sleep)], nextId := w.nextId + 1)
    case _ => w.(fields := fields, events := w.events + events)
  }

  function NotifyOne(w: World, i: nat): World
  {
    w.(blocked := w.blocked - {i}, notified := w.notified + (w.blocked * {i}))
  }

  function Apply(delay: nat, w: World, step: Step): World
    requires Enabled(w, step)
  {
    match step
    case Tick(elapsed) => w.(now := w.now + elapsed)
    case Trigger =>
      var (fields, effect) := OnTrigger(delay, w.fields, w.now);
      Take(w, fields, effect, if w.fields.cancelled then [] else [Triggered(w.now)])
    case Cancel => w.(fields := w.fields.(cancelled := true), events := w.events + [Cancelled])
    case Wait(i) =>
      if !w.fields.active then w.(events := w.events + [Returned(i)]) else w.(blocked := w.blocked + {i})
    case StartSleep(id) =>
      w.(timers := w.timers[id := Sleeping(w.timers[id].since, w.now + w.timers[id].sleep * TICKS)])
    case Wake(id, i) =>
      var (fields, effect) := OnWake(delay, w.fields, w.now);
      var w' := Take(w.(timers := w.timers - {id}), fields, effect, if effect.Launch? then [Launched(w.now)] else []);
      if effect.Schedule? then w' else NotifyOne(w', i)
    case Spurious(i) => NotifyOne(w, i)
    case Resume(i) =>
      if !w.fields.active then w.(notified := w.notified - {i}, events := w.events + [Returned(i)])
      else w.(notified := w.notified - {i}, blocked := w.blocked + {i})
  }

  // ---------- What every history looks like ----------

  // A trigger has arrived since the last launch.
  predicate Pending(events: seq<Event>)
  {
    events != [] &&
    var last := events[|events| - 1];
    if last.Triggered? then true else if last.Launched? then false else Pending(events[..|events| - 1])
  }

  // All triggers so far are at least the delay old.
  ghost predicate Quiet(delay: nat, events: seq<Event>, time: nat)
  {
    forall j :: 0 <= j < |events| && events[j].Triggered? ==> events[j].time + delay * TICKS <= time
  }

  // Every launch answers a trigger, at least the delay after the last one, and not after a cancel.
  ghost predicate LaunchesRight(delay: nat, events: seq<Event>)
  {
    forall k :: 0 <= k < |events| && events[k].Launched? ==>
      Pending(events[..k]) && Quiet(delay, events[..k], events[k].time) && Cancelled !in events[..k]
  }

  lemma OneMoreEvent(delay: nat, events: seq<Event>, e: Event)
    requires LaunchesRight(delay, events)
    requires e.Launched? ==> Pending(events) && Quiet(delay, events, e.time) && Cancelled !in events
    ensures LaunchesRight(delay, events + [e])
    ensures Pending(events + [e]) == (if e.Triggered? then true else if e.Launched? then false else Pending(events))
  {
    hide Quiet;
    var more := events + [e];
    assert more[..|events|] == events;
    forall k | 0 <= k < |more| && more[k].Launched?
      ensures Pending(more[..k]) && Quiet(delay, more[..k], more[k].time) && Cancelled !in more[..k]
    {
      assert more[..k] == events[..k];
    }
  }

  // The timer cannot wake before the delay has passed since the trigger it was planned from.
  predicate WellPlanned(delay: nat, now: nat, t: Timer)
  {
    && t.since <= now
    && (t.Created? ==> t.since + delay * TICKS <= now + t.sleep * TICKS)
    && (t.Sleeping? ==> t.since + delay * TICKS <= t.until)
  }

  ghost predicate HistoryRight(delay: nat, w: World)
  {
    && LaunchesRight(delay, w.events)
    && (forall j :: 0 <= j < |w.events| && w.events[j].Triggered? ==> w.events[j].time <= w.fields.timestamp)
    && w.fields.timestamp <= w.now
    && (w.fields.cancelled <==> Cancelled in w.events)
    && (!w.fields.cancelled ==> (w.fields.active <==> Pending(w.events)))
  }

  ghost predicate TimersRight(delay: nat, w: World)
  {
    && (w.fields.active ==> |w.timers| == 1)
    && (!w.fields.active ==> w.timers == map[])
    && (forall id :: id in w.timers ==> id < w.nextId && WellPlanned(delay, w.now, w.timers[id]))
  }

  ghost predicate Inv(delay: nat, w: World)
  {
    HistoryRight(delay, w) && TimersRight(delay, w)
  }

  // ---------- Every step keeps the invariant ----------

  lemma OnlyTimer(timers: map<nat, Timer>, id: nat)
    requires |timers| == 1 && id in timers
    ensures timers - {id} == map[]
  {
    assert timers.Keys == {id} by {
      assert |timers.Keys| == 1;
      assert |timers.Keys - {id}| == 0;
    }
  }

  lemma TriggerKeeps(delay: nat, w: World)
    requires Inv(delay, w)
    ensures Inv(delay, Apply(delay, w, Trigger))
  {
    if !w.fields.cancelled {
      OneMoreEvent(delay, w.events, Triggered(w.now));
    } else {
      assert w.events + [] == w.events;
    }
    hide LaunchesRight, Pending;
  }

  lemma WakeKeepsTimers(delay: nat, w: World, id: nat, i: nat)
    requires Inv(delay, w) && Enabled(w, Wake(id, i))
    ensures TimersRight(delay, Apply(delay, w, Wake(id, i)))
  {
    hide LaunchesRight, Pending;
    OnlyTimer(w.timers, id);
  }

  lemma WakeKeepsHistory(delay: nat, w: World, id: nat, i: nat)
    requires Inv(delay, w) && Enabled(w, Wake(id, i))
    ensures HistoryRight(delay, Apply(delay, w, Wake(id, i)))
  {
    assert w.fields.active;
    assert w.events + [] == w.events;
    if !w.fields.cancelled && w.now - w.fields.timestamp >= delay * TICKS {
      OneMoreEvent(delay, w.events, Launched(w.now));
    }
    hide LaunchesRight, Pending, TimersRight;
  }

  lemma EventKeeps(delay: nat, w: World, step: Step)
    requires Inv(delay, w) && Enabled(w, step) && (step.Cancel? || step.Wait? || step.Resume?)
    ensures Inv(delay, Apply(delay, w, step))
  {
    var e := match step case Wait(i) => Returned(i) case Resume(i) => Returned(i) case _ => Cancelled;
    OneMoreEvent(delay, w.events, e);
    hide LaunchesRight, Pending, WellPlanned;
  }

  lemma StartSleepKeeps(delay: nat, w: World, id: nat)
    requires Inv(delay, w) && Enabled(w, StartSleep(id))
    ensures Inv(delay, Apply(delay, w, StartSleep(id)))
  {
    var w' := Apply(delay, w, StartSleep(id));
    assert w'.timers.Keys == w.timers.Keys;
    assert |w'.timers| == |w.timers|;
    hide LaunchesRight, Pending;
  }

  lemma StepKeeps(delay: nat, w: World, step: Step)
    requires Inv(delay, w) && Enabled(w, step)
    ensures Inv(delay, Apply(delay, w, step))
  {
    hide LaunchesRight, Pending;
    match step
    case Trigger => TriggerKeeps(delay, w);
    case Cancel => EventKeeps(delay, w, step);
    case Wait(i) => EventKeeps(delay, w, step);
    case Resume(i) => EventKeeps(delay, w, step);
    case StartSleep(id) => StartSleepKeeps(delay, w, id);
    case Wake(id, i) =>
      WakeKeepsTimers(delay, w, id, i);
      WakeKeepsHistory(delay, w, id, i);
    case Tick(elapsed) =>
    case Spurious(i) =>
  }

  // ---------- Runs ----------

  ghost predicate Possible(delay: nat, w: World, steps: seq<Step>)
    decreases |steps|
  {
    steps == [] || (Enabled(w, steps[0]) && Possible(delay, Apply(delay, w, steps[0]), steps[1..]))
  }

  ghost function After(delay: nat, w: World, steps: seq<Step>): World
    requires Possible(delay, w, steps)
    decreases |steps|
  {
    if steps == [] then w else After(delay, Apply(delay, w, steps[0]), steps[1..])
  }

  lemma {:induction false} RunKeeps(delay: nat, w: World, steps: seq<Step>)
    requires Inv(delay, w) && Possible(delay, w, steps)
    ensures Inv(delay, After(delay, w, steps))
    decreases |steps|
  {
    hide Inv, Enabled, Apply;
    if steps != [] {
      StepKeeps(delay, w, steps[0]);
      RunKeeps(delay, Apply(delay, w, steps[0]), steps[1..]);
    }
  }

  /** In every run: the active flag holds exactly while one timer is outstanding, and none is otherwise; every launch
      answers a trigger no earlier launch answered, comes at least the delay after every trigger before it and is not
      preceded by a cancel; and unless cancelled, a trigger that has not been answered still has its timer. */
  lemma EveryRun(delay: nat, steps: seq<Step>)
    requires Possible(delay, Start(), steps)
    ensures var w := After(delay, Start(), steps);
            && (w.fields.active <==> |w.timers| == 1) && |w.timers| <= 1
            && LaunchesRight(delay, w.events)
            && (w.fields.cancelled <==> Cancelled in w.events)
            && (!w.fields.cancelled ==> (Pending(w.events) <==> |w.timers| == 1))
  {
    assert Inv(delay, Start());
    RunKeeps(delay, Start(), steps);
  }

  /** A wait ends only when no timer is outstanding. */
  lemma WaitReturnsWithoutTimers(delay: nat, w: World, step: Step, i: nat)
    requires Inv(delay, w) && Enabled(w, step)
    requires Apply(delay, w, step).events == w.events + [Returned(i)]
    ensures w.timers == map[] && Apply(delay, w, step).timers == map[]
  {
    hide LaunchesRight, Pending;
    assert (w.events + [Returned(i)])[|w.events|] == Returned(i);
  }

  /** A timer planned from the latest trigger launches the callback when it wakes: a first timer, or one rescheduled
      with the truncated delay, needs no second look if no trigger intervened. */
  lemma PlannedTimerFires(delay: nat, w: World, id: nat, i: nat)
    requires Inv(delay, w) && Enabled(w, Wake(id, i)) && !w.fields.cancelled
    requires w.timers[id].since == w.fields.timestamp
    ensures Apply(delay, w, Wake(id, i)).events == w.events + [Launched(w.now)]
    ensures Apply(delay, w, Wake(id, i)).timers == map[]
  {
    hide LaunchesRight, Pending;
    OnlyTimer(w.timers, id);
  }

  /** Otherwise the timer is replaced by one planned from the latest trigger, which cannot wake early, and is less than
      one millisecond late if it starts to sleep at once. */
  lemma OtherwiseReplanned(delay: nat, w: World, id: nat, i: nat)
    requires Inv(delay, w) && Enabled(w, Wake(id, i)) && !w.fields.cancelled
    requires Apply(delay, w, Wake(id, i)).events == w.events
    ensures var w' := Apply(delay, w, Wake(id, i));
            && w'.timers.Keys == {w.nextId} && w'.timers[w.nextId].Created?
            && w'.timers[w.nextId].since == w.fields.timestamp == w'.fields.timestamp
            && var planned := w.now + w'.timers[w.nextId].sleep * TICKS;
               w.fields.timestamp + delay * TICKS <= planned < w.fields.timestamp + (delay + 1) * TICKS
  {
    hide LaunchesRight, Pending;
    OnlyTimer(w.timers, id);
    assert (w.events + [Launched(w.now)])[|w.events|] == Launched(w.now);
  }

  // Steps of threads other than the caller of trigger and cancel.
  predicate Undisturbed(steps: seq<Step>)
  {
    forall k :: 0 <= k < |steps| ==> !steps[k].Trigger? && !steps[k].Cancel?
  }

  function Wakes(steps: seq<Step>): nat
  {
    if steps == [] then 0 else (if steps[0].Wake? then 1 else 0) + Wakes(steps[1..])
  }

  // Wakes needed before the outstanding timer launches.
  function WakesNeeded(w: World): nat
  {
    if !w.fields.active then 0
    else if exists id :: id in w.timers && w.timers[id].since == w.fields.timestamp then 1
    else 2
  }

  lemma StepNeedsFewerWakes(delay: nat, w: World, step: Step)
    requires Inv(delay, w) && Enabled(w, step) && !step.Trigger? && !step.Cancel? && !w.fields.cancelled
    ensures var w' := Apply(delay, w, step);
            && !w'.fields.cancelled
            && WakesNeeded(w') <= WakesNeeded(w) - if step.Wake? then 1 else 0
  {
    hide LaunchesRight, Pending;
    var w' := Apply(delay, w, step);
    match step
    case StartSleep(id) =>
      assert w'.timers.Keys == w.timers.Keys;
      if x :| x in w.timers && w.timers[x].since == w.fields.timestamp {
        assert x in w'.timers && w'.timers[x].since == w.fields.timestamp;
      }
    case Wake(id, i) =>
      OnlyTimer(w.timers, id);
      if x :| x in w.timers && w.timers[x].since == w.fields.timestamp {
        assert x == id || x in w.timers - {id};
        PlannedTimerFires(delay, w, id, i);
      } else if w'.fields.active {
        assert w'.timers[w.nextId].since == w'.fields.timestamp;
      }
    case _ =>
  }

  /** Once triggers stop, the second wake at the latest has launched the callback. */
  lemma {:induction false} TwoWakesFire(delay: nat, w: World, steps: seq<Step>)
    requires Inv(delay, w) && Possible(delay, w, steps) && Undisturbed(steps) && !w.fields.cancelled
    requires Wakes(steps) >= WakesNeeded(w)
    ensures var w' := After(delay, w, steps); !w'.fields.active && !Pending(w'.events)
    decreases |steps|
  {
    hide Enabled, Apply, LaunchesRight, Pending, WakesNeeded;
    if steps == [] {
      assert WakesNeeded(w) == 0;
      NoWakesNeeded(w);
    } else {
      StepKeeps(delay, w, steps[0]);
      StepNeedsFewerWakes(delay, w, steps[0]);
      TwoWakesFire(delay, Apply(delay, w, steps[0]), steps[1..]);
    }
  }

  lemma NoWakesNeeded(w: World)
    requires WakesNeeded(w) == 0
    ensures !w.fields.active
  {
  }

  // ---------- Waiting ----------

  /** After a cancel the next wake ends the last timer, and no timer is started again. */
  lemma CancelledWakeStops(delay: nat, w: World, step: Step)
    requires Inv(delay, w) && Enabled(w, step) && w.fields.cancelled
    ensures var w' := Apply(delay, w, step);
            && w'.fields.cancelled
            && (step.Wake? ==> w'.timers == map[] && !w'.fields.active)
            && (!w.fields.active ==> !w'.fields.active)
  {
    hide LaunchesRight, Pending;
    if step.Wake? {
      OnlyTimer(w.timers, step.id);
    }
  }

  // Nobody sleeps on the condition variable without a timer that will notify.
  predicate NobodyForgotten(w: World)
  {
    w.blocked == {} || w.fields.active
  }

  // A wake that ends the timer, by launching the callback or because of a cancel.
  predicate EndsTimer(delay: nat, w: World, step: Step)
  {
    step.Wake? && (w.fields.cancelled || w.now - w.fields.timestamp >= delay * TICKS)
  }

  /** Only one waiter is notified when a timer ends, so a step forgets somebody exactly when it ends one while two are
      blocked. */
  lemma NobodyForgottenIff(delay: nat, w: World, step: Step)
    requires Inv(delay, w) && Enabled(w, step) && NobodyForgotten(w)
    ensures NobodyForgotten(Apply(delay, w, step)) <==> (EndsTimer(delay, w, step) ==> |w.blocked| <= 1)
  {
    hide LaunchesRight, Pending, HistoryRight;
    if step.Wake? && w.blocked != {} {
      assert step.notify in w.blocked;
      assert |w.blocked - {step.notify}| == |w.blocked| - 1;
    }
  }

  ghost predicate NeverForgotten(delay: nat, w: World, steps: seq<Step>)
    requires Possible(delay, w, steps)
    decreases |steps|
  {
    NobodyForgotten(w) && (steps == [] || NeverForgotten(delay, Apply(delay, w, steps[0]), steps[1..]))
  }

  // No timer ends while two are blocked.
  ghost predicate TimersEndForOne(delay: nat, w: World, steps: seq<Step>)
    requires Possible(delay, w, steps)
    decreases |steps|
  {
    steps == [] ||
    ((EndsTimer(delay, w, steps[0]) ==> |w.blocked| <= 1) && TimersEndForOne(delay, Apply(delay, w, steps[0]), steps[1..]))
  }

  /** Over a whole run: nobody is ever left blocked without a timer if and only if no timer ends while two are blocked. */
  lemma {:induction false} NeverForgottenIff(delay: nat, w: World, steps: seq<Step>)
    requires Inv(delay, w) && Possible(delay, w, steps) && NobodyForgotten(w)
    ensures NeverForgotten(delay, w, steps) <==> TimersEndForOne(delay, w, steps)
    decreases |steps|
  {
    hide Inv, Enabled, Apply, NobodyForgotten, EndsTimer;
    if steps != [] {
      var w' := Apply(delay, w, steps[0]);
      StepKeeps(delay, w, steps[0]);
      NobodyForgottenIff(delay, w, steps[0]);
      if NobodyForgotten(w') {
        NeverForgottenIff(delay, w', steps[1..]);
      } else {
        assert !NeverForgotten(delay, w', steps[1..]);
      }
    }
  }

  // Of all threads only one ever waits.
  predicate OnlyWaiter(steps: seq<Step>, i: nat)
  {
    forall k :: 0 <= k < |steps| && steps[k].Wait? ==> steps[k].waiter == i
  }

  lemma OneWaiterStays(delay: nat, w: World, step: Step, i: nat)
    requires Enabled(w, step) && (step.Wait? ==> step.waiter == i) && w.blocked <= {i} && w.notified <= {i}
    ensures Apply(delay, w, step).blocked <= {i} && Apply(delay, w, step).notified <= {i}
  {
  }

  lemma {:induction false} OneWaiterRun(delay: nat, w: World, steps: seq<Step>, i: nat)
    requires Inv(delay, w) && Possible(delay, w, steps) && OnlyWaiter(steps, i)
    requires w.blocked <= {i} && w.notified <= {i}
    ensures TimersEndForOne(delay, w, steps)
    decreases |steps|
  {
    hide Inv, Enabled, Apply, EndsTimer;
    if steps != [] {
      assert |w.blocked| <= 1 by {
        assert w.blocked == {} || w.blocked == {i};
      }
      StepKeeps(delay, w, steps[0]);
      OneWaiterStays(delay, w, steps[0], i);
      OneWaiterRun(delay, Apply(delay, w, steps[0]), steps[1..], i);
    }
  }

  /** If only one thread ever waits, it is never left behind, whatever the other threads do. */
  lemma OneWaiterIsSafe(delay: nat, steps: seq<Step>, i: nat)
    requires Possible(delay, Start(), steps) && OnlyWaiter(steps, i)
    ensures NeverForgotten(delay, Start(), steps)
  {
    assert Inv(delay, Start()) && NobodyForgotten(Start());
    OneWaiterRun(delay, Start(), steps, i);
    NeverForgottenIff(delay, Start(), steps);
  }

  lemma RunStep(delay: nat, w: World, step: Step, rest: seq<Step>)
    requires Enabled(w, step) && Possible(delay, Apply(delay, w, step), rest)
    ensures Possible(delay, w, [step] + rest)
    ensures After(delay, w, [step] + rest) == After(delay, Apply(delay, w, step), rest)
  {
    assert ([step] + rest)[1..] == rest;
    hide Enabled, Apply;
  }

  // The states of a run of two waiters.
  function TwoWaiters(k: nat): World
    requires k <= 7
  {
    var one, two := Start().(fields := Fields(0, true, false), nextId := 1, events := [Triggered(0)]), {0, 1};
    match k
    case 0 => Start()
    case 1 => one.(timers := map[0 := Created(0, 0)])
    case 2 => one.(timers := map[0 := Created(0, 0)], blocked := {0})
    case 3 => one.(timers := map[0 := Created(0, 0)], blocked := two)
    case 4 => one.(timers := map[0 := Sleeping(0, 0)], blocked := two)
    case 5 => one.(fields := Fields(0, true, true), timers := map[0 := Sleeping(0, 0)], blocked := two,
                   events := [Triggered(0), Cancelled])
    case 6 => one.(fields := Fields(0, false, true), blocked := {1}, notified := {0}, events := [Triggered(0), Cancelled])
    case 7 => one.(fields := Fields(0, false, true), blocked := {1}, events := [Triggered(0), Cancelled, Returned(0)])
  }

  function TwoWaitersStep(k: nat): Step
    requires k < 7
  {
    [Trigger, Wait(0), Wait(1), StartSleep(0), Cancel, Wake(0, 0), Resume(0)][k]
  }

  lemma TwoWaitersMove(k: nat)
    requires k < 7
    ensures Enabled(TwoWaiters(k), TwoWaitersStep(k))
    ensures Apply(0, TwoWaiters(k), TwoWaitersStep(k)) == TwoWaiters(k + 1)
  {
    var w, w', want := TwoWaiters(k), Apply(0, TwoWaiters(k), TwoWaitersStep(k)), TwoWaiters(k + 1);
    assert w'.timers == want.timers;
    assert w'.blocked == want.blocked && w'.notified == want.notified;
    assert w'.events == want.events;
  }

  lemma {:induction false} TwoWaitersRun(k: nat) returns (steps: seq<Step>)
    requires k <= 7
    ensures Possible(0, TwoWaiters(k), steps) && After(0, TwoWaiters(k), steps) == TwoWaiters(7)
    decreases 7 - k
  {
    hide TwoWaiters, TwoWaitersStep;
    steps := [];
    if k < 7 {
      var rest := TwoWaitersRun(k + 1);
      TwoWaitersMove(k);
      RunStep(0, TwoWaiters(k), TwoWaitersStep(k), rest);
      steps := [TwoWaitersStep(k)] + rest;
    }
  }

  // Two threads in wait at once: the timer ends, one of them is notified, the other is never woken.
  lemma SecondWaiterIsForgotten()
    ensures exists steps :: Possible(0, Start(), steps) &&
              var w := After(0, Start(), steps);
              Returned(0) in w.events && w.blocked == {1} && w.timers == map[] && w.fields.cancelled
  {
    var steps := TwoWaitersRun(0);
    assert TwoWaiters(0) == Start();
    hide Possible, After;
    assert TwoWaiters(7).events[2] == Returned(0);
  }

  /** Once cancelled and without a timer, a blocked waiter stays blocked whatever the other threads do. */
  lemma ForgottenStaysForgotten(delay: nat, w: World, step: Step, i: nat)
    requires Inv(delay, w) && Enabled(w, step) && w.fields.cancelled && !w.fields.active && i in w.blocked
    requires step != Spurious(i)
    ensures var w' := Apply(delay, w, step);
            i in w'.blocked && w'.fields.cancelled && !w'.fields.active
  {
    hide LaunchesRight, Pending;
  }
}
