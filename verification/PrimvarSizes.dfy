/** The size reported for a primvar: each prim that has one sets it, and combining two threads keeps the last size that
    is not zero. Which schedules can change it, and when none can. */
module PrimvarSizes {
  import opened SceneCounters
  import opened SceneStats

  // ---------- Where a primvar occurs ----------

  predicate Has(f: Facts, n: string) { OwnSize(f, n).Last? }

  predicate Occurs(node: Node, n: string)
  {
    Has(node.facts, n) || exists c :: c in node.children && Occurs(c, n)
  }

  // Some prim of the tree gives it this size.
  predicate Sized(node: Node, n: string, size: nat)
  {
    OwnSize(node.facts, n) == Last(size) || exists c :: c in node.children && Sized(c, n, size)
  }

  // So does one below which it does not occur again.
  predicate Lowest(node: Node, n: string, size: nat)
  {
    || (OwnSize(node.facts, n) == Last(size) && forall c :: c in node.children ==> !Occurs(c, n))
    || exists c :: c in node.children && Lowest(c, n, size)
  }

  // The sizes a schedule can end with: those that are not zero, and those of the lowest prims that have it.
  predicate CanShow(node: Node, n: string, size: nat)
  {
    (size != 0 && Sized(node, n, size)) || Lowest(node, n, size)
  }

  ghost function Shown(nodes: seq<Node>, n: string): iset<nat>
  {
    iset node, z: nat | node in nodes && CanShow(node, n, z) :: z
  }

  // The size in the recursive count: the last one in preorder that is not zero.
  function SizeIn(node: Node, n: string): nat
  {
    NonzeroLast(SizeAfter(0, OwnSize(node.facts, n)), SizeInAll(node.children, n))
  }

  function SizeInAll(nodes: seq<Node>, n: string): nat
  {
    if nodes == [] then 0 else NonzeroLast(SizeIn(nodes[0], n), SizeInAll(nodes[1..], n))
  }

  lemma {:induction false} LowestIsSized(node: Node, n: string, size: nat)
    requires Lowest(node, n, size)
    ensures Sized(node, n, size)
  {
    if !(OwnSize(node.facts, n) == Last(size)) {
      var c :| c in node.children && Lowest(c, n, size);
      LowestIsSized(c, n, size);
      hide OwnSize;
    }
  }

  lemma {:induction false} SizedOccurs(node: Node, n: string, size: nat)
    requires Sized(node, n, size)
    ensures Occurs(node, n)
  {
    hide OwnSize;
    if !Has(node.facts, n) {
      var c :| c in node.children && Sized(c, n, size);
      SizedOccurs(c, n, size);
    }
  }

  lemma {:induction false} OccurrenceHasLowest(node: Node, n: string) returns (size: nat)
    requires Occurs(node, n)
    ensures Lowest(node, n, size)
  {
    hide OwnSize;
    if c :| c in node.children && Occurs(c, n) {
      size := OccurrenceHasLowest(c, n);
    } else {
      size := OwnSize(node.facts, n).size;
    }
  }

  // The recursive count reports a size that occurs, and none only if every size is zero.
  lemma {:induction false} SizeInOccurs(node: Node, n: string)
    ensures SizeIn(node, n) != 0 ==> Sized(node, n, SizeIn(node, n))
    ensures forall z :: z != 0 && Sized(node, n, z) ==> SizeIn(node, n) != 0
    decreases node, 1
  {
    hide OwnSize;
    SizeInAllOccurs(node.children, n);
    hide SizeInAll;
  }

  lemma {:induction false} SizeInAllOccurs(nodes: seq<Node>, n: string)
    ensures SizeInAll(nodes, n) != 0 ==> exists node :: node in nodes && Sized(node, n, SizeInAll(nodes, n))
    ensures forall node, z :: node in nodes && z != 0 && Sized(node, n, z) ==> SizeInAll(nodes, n) != 0
    decreases nodes, 0
  {
    if nodes != [] {
      SizeInOccurs(nodes[0], n);
      SizeInAllOccurs(nodes[1..], n);
      hide Sized, SizeIn;
      assert forall node :: node in nodes <==> node == nodes[0] || node in nodes[1..];
    }
  }

  // ---------- Pending tasks ----------

  ghost predicate Pends(tasks: seq<Task>, n: string)
  {
    exists t :: t in tasks && Occurs(t.node, n)
  }

  // Taking a task leaves the others and its children.
  lemma FedTasks(tasks: seq<Task>, k: nat)
    requires k < |tasks|
    ensures forall t :: t in Fed(tasks, k) ==> t in tasks || t.node in tasks[k].node.children
    ensures forall i :: 0 <= i < |tasks| && i != k ==> tasks[i] in Fed(tasks, k)
    ensures forall c :: c in tasks[k].node.children ==> exists t :: t in Fed(tasks, k) && t.node == c
  {
    var task := tasks[k];
    var a, b, below := tasks[..k], tasks[k + 1..], Tasks(task.node.children, HiddenHere(task.node.facts, task.hidden));
    hide HiddenHere;
    forall i | 0 <= i < |tasks| && i != k ensures tasks[i] in Fed(tasks, k) {
      if i < k {
        assert a[i] == tasks[i];
      } else {
        assert b[i - k - 1] == tasks[i];
      }
    }
    forall c | c in task.node.children ensures exists t :: t in Fed(tasks, k) && t.node == c {
      var i :| 0 <= i < |task.node.children| && task.node.children[i] == c;
      assert below[i] in Fed(tasks, k);
    }
    forall t | t in below ensures t.node in task.node.children {
      var i :| 0 <= i < |below| && below[i] == t;
    }
  }

  // ---------- When sizes agree ----------

  // Everything pending is among these sizes, and so is everything counted that is not zero.
  ghost predicate Fits(tasks: seq<Task>, locals: seq<StatCounters>, n: string, sizes: iset<nat>)
  {
    && (forall t, z :: t in tasks && CanShow(t.node, n, z) ==> z in sizes)
    && (forall i :: 0 <= i < |locals| ==> SizeOf(locals[i], n) == 0 || SizeOf(locals[i], n) in sizes)
  }

  ghost predicate Present(locals: seq<StatCounters>, n: string, sizes: iset<nat>)
  {
    exists i :: 0 <= i < |locals| && SizeOf(locals[i], n) in sizes
  }

  // One of the sizes is there, or still to come.
  ghost predicate Coming(tasks: seq<Task>, locals: seq<StatCounters>, n: string, sizes: iset<nat>)
  {
    Pends(tasks, n) || Present(locals, n, sizes)
  }

  lemma SeatedSizes(locals: seq<StatCounters>, t: Turn, n: string, sizes: iset<nat>)
    requires if t.joins then t.thread <= |locals| else t.thread < |locals|
    requires forall i :: 0 <= i < |locals| ==> SizeOf(locals[i], n) == 0 || SizeOf(locals[i], n) in sizes
    ensures var seated := Seated(locals, t);
            forall i :: 0 <= i < |seated| ==> SizeOf(seated[i], n) == 0 || SizeOf(seated[i], n) in sizes
    ensures Present(locals, n, sizes) ==> Present(Seated(locals, t), n, sizes)
  {
    assert SizeOf(NO_STATS, n) == 0;
    hide SizeOf;
    var seated := Seated(locals, t);
    if t.joins && Present(locals, n, sizes) {
      var i :| 0 <= i < |locals| && SizeOf(locals[i], n) in sizes;
      assert seated[if i < t.thread then i else i + 1] == locals[i];
    }
  }

  lemma ChildShows(node: Node, c: Node, n: string, z: nat)
    requires c in node.children && CanShow(c, n, z)
    ensures CanShow(node, n, z)
  {
    hide OwnSize;
  }

  lemma FedFits(tasks: seq<Task>, locals: seq<StatCounters>, k: nat, n: string, sizes: iset<nat>)
    requires Fits(tasks, locals, n, sizes) && k < |tasks|
    ensures Fits(Fed(tasks, k), locals, n, sizes)
  {
    FedTasks(tasks, k);
    hide Fed, SizeOf, CanShow;
    forall t, z | t in Fed(tasks, k) && CanShow(t.node, n, z) ensures z in sizes {
      if t !in tasks {
        assert tasks[k] in tasks;
        ChildShows(tasks[k].node, t.node, n, z);
      }
    }
  }

  // What the task's own prim sets is among the sizes, or the primvar occurs again below it.
  lemma FedPends(tasks: seq<Task>, locals: seq<StatCounters>, k: nat, n: string, sizes: iset<nat>)
    requires Fits(tasks, locals, n, sizes) && k < |tasks|
    ensures var own := OwnSize(tasks[k].node.facts, n);
            && (own.Last? ==> own.size in sizes || (own.size == 0 && Pends(Fed(tasks, k), n)))
            && (own.Missing? && Pends(tasks, n) ==> Pends(Fed(tasks, k), n))
  {
    var node := tasks[k].node;
    var own := OwnSize(node.facts, n);
    FedTasks(tasks, k);
    hide OwnSize, Fed, SizeOf;
    assert tasks[k] in tasks;
    if own.Last? && own.size !in sizes {
      assert Sized(node, n, own.size) && !CanShow(node, n, own.size);
      var c :| c in node.children && Occurs(c, n);
    }
    if own.Missing? && Pends(tasks, n) {
      var t :| t in tasks && Occurs(t.node, n);
      var i :| 0 <= i < |tasks| && tasks[i] == t;
      if i == k {
        var c :| c in node.children && Occurs(c, n);
      }
    }
  }

  lemma TurnSizes(tasks: seq<Task>, locals: seq<StatCounters>, t: Turn, locals': seq<StatCounters>, n: string)
    requires Enabled(tasks, locals, t) && Counted(tasks, locals, t, locals')
    ensures var seated := Seated(locals, t);
            && |locals'| == |seated| > t.thread
            && SizeOf(locals'[t.thread], n) == SizeAfter(SizeOf(seated[t.thread], n), OwnSize(tasks[t.task].node.facts, n))
            && forall i :: 0 <= i < |seated| && i != t.thread ==> locals'[i] == seated[i]
  {
    assert t.thread < |Seated(locals, t)|;
    hide OwnSize, SizeOf, Tallied, Counters.Plus, Own, Seated, SizeAfter;
  }

  lemma TurnFits(tasks: seq<Task>, locals: seq<StatCounters>, t: Turn, locals': seq<StatCounters>, n: string, sizes: iset<nat>)
    requires Enabled(tasks, locals, t) && Counted(tasks, locals, t, locals')
    requires Fits(tasks, locals, n, sizes) && Coming(tasks, locals, n, sizes)
    ensures Fits(Fed(tasks, t.task), locals', n, sizes) && Coming(Fed(tasks, t.task), locals', n, sizes)
  {
    hide OwnSize, SizeOf, Fed, Pends, Seated, Counted, CanShow;
    FedFits(tasks, locals, t.task, n, sizes);
    FedPends(tasks, locals, t.task, n, sizes);
    SeatedSizes(locals, t, n, sizes);
    TurnSizes(tasks, locals, t, locals', n);
    var own := OwnSize(tasks[t.task].node.facts, n);
    if !Pends(Fed(tasks, t.task), n) {
      if own.Last? {
        assert SizeOf(locals'[t.thread], n) in sizes;
      } else {
        var seated := Seated(locals, t);
        var i :| 0 <= i < |seated| && SizeOf(seated[i], n) in sizes;
        assert SizeOf(locals'[i], n) in sizes;
      }
    }
  }

  lemma {:induction false} SumHasSize(locals: seq<StatCounters>, n: string, sizes: iset<nat>)
    requires forall i :: 0 <= i < |locals| ==> SizeOf(locals[i], n) == 0 || SizeOf(locals[i], n) in sizes
    ensures SizeOf(SumStats(locals), n) == 0 || SizeOf(SumStats(locals), n) in sizes
    ensures Present(locals, n, sizes) ==> SizeOf(SumStats(locals), n) in sizes
  {
    if locals != [] {
      SumHasSize(locals[1..], n, sizes);
      PlusTallied(locals[0], SumStats(locals[1..]));
      hide SizeOf, StatCounters.Plus, Tallied;
      if i :| 0 <= i < |locals| && SizeOf(locals[i], n) in sizes {
        assert i > 0 ==> locals[1..][i - 1] == locals[i];
      }
    }
  }

  lemma {:induction false} FittingRun(tasks: seq<Task>, locals: seq<StatCounters>, turns: seq<Turn>, final: seq<StatCounters>,
      n: string, sizes: iset<nat>)
    requires Runs(tasks, locals, turns, final) && Fits(tasks, locals, n, sizes) && Coming(tasks, locals, n, sizes)
    ensures SizeOf(SumStats(final), n) in sizes
    decreases |turns|
  {
    hide SizeOf, Counted, Fed, SumStats, CanShow;
    if turns == [] {
      SumHasSize(locals, n, sizes);
    } else {
      hide Fits, Coming;
      var locals' :| Counted(tasks, locals, turns[0], locals') && Runs(Fed(tasks, turns[0].task), locals', turns[1..], final);
      TurnFits(tasks, locals, turns[0], locals', n, sizes);
      FittingRun(Fed(tasks, turns[0].task), locals', turns[1..], final, n, sizes);
    }
  }

  // ---------- Every such size is the outcome of some schedule ----------

  // The counters after a turn, taking any that count the prim.
  lemma SomeCounted(tasks: seq<Task>, locals: seq<StatCounters>, t: Turn) returns (locals': seq<StatCounters>)
    requires Enabled(tasks, locals, t)
    ensures Counted(tasks, locals, t, locals')
  {
    var seated, task := Seated(locals, t), tasks[t.task];
    var c := SomeOwn(task.node.facts, HiddenHere(task.node.facts, task.hidden), task.node.children == [], seated[t.thread]);
    locals' := seated[t.thread := c];
    hide CountsOwn, HiddenHere, Seated;
  }

  lemma RunBegins(tasks: seq<Task>, locals: seq<StatCounters>, t: Turn, locals': seq<StatCounters>, turns: seq<Turn>,
      final: seq<StatCounters>)
    requires Enabled(tasks, locals, t) && Counted(tasks, locals, t, locals') && Runs(Fed(tasks, t.task), locals', turns, final)
    ensures Runs(tasks, locals, [t] + turns, final)
  {
    assert ([t] + turns)[1..] == turns;
    hide Counted, Fed;
  }

  // All others in front: the size of the last thread stays the last one.
  lemma {:induction false} KeepLast(tasks: seq<Task>, locals: seq<StatCounters>, n: string)
    returns (turns: seq<Turn>, final: seq<StatCounters>)
    requires locals != [] && SizeOf(locals[|locals| - 1], n) != 0
    ensures Runs(tasks, locals, turns, final)
    ensures final != [] && SizeOf(final[|final| - 1], n) == SizeOf(locals[|locals| - 1], n)
    decreases Work(tasks)
  {
    hide SizeOf, Counted, Fed, Work;
    turns, final := [], locals;
    if tasks != [] {
      var t := Turn(true, 0, 0);
      var locals' := SomeCounted(tasks, locals, t);
      TurnSizes(tasks, locals, t, locals', n);
      TaskWork(tasks, 0);
      turns, final := KeepLast(Fed(tasks, 0), locals', n);
      RunBegins(tasks, locals, t, locals', turns, final);
      turns := [t] + turns;
    }
  }

  lemma {:induction false} LastSizeWins(locals: seq<StatCounters>, n: string)
    requires locals != [] && SizeOf(locals[|locals| - 1], n) != 0
    ensures SizeOf(SumStats(locals), n) == SizeOf(locals[|locals| - 1], n)
  {
    PlusTallied(locals[0], SumStats(locals[1..]));
    if |locals| > 1 {
      LastSizeWins(locals[1..], n);
    } else {
      assert SizeOf(NO_STATS, n) == 0;
    }
    hide SizeOf, StatCounters.Plus, Tallied;
  }

  // A size that is not zero: the prim that has it gets a thread whose counters come last.
  lemma {:induction false} ShowNonzero(tasks: seq<Task>, locals: seq<StatCounters>, k: nat, n: string, size: nat)
    returns (turns: seq<Turn>, final: seq<StatCounters>)
    requires size != 0 && k < |tasks| && Sized(tasks[k].node, n, size)
    ensures Runs(tasks, locals, turns, final) && SizeOf(SumStats(final), n) == size
    decreases Work(tasks)
  {
    hide SizeOf, Counted, Fed, Work, SumStats, OwnSize;
    var node := tasks[k].node;
    TaskWork(tasks, k);
    if OwnSize(node.facts, n) == Last(size) {
      var t := Turn(true, |locals|, k);
      var locals' := SomeCounted(tasks, locals, t);
      TurnSizes(tasks, locals, t, locals', n);
      turns, final := KeepLast(Fed(tasks, k), locals', n);
      LastSizeWins(final, n);
      RunBegins(tasks, locals, t, locals', turns, final);
      turns := [t] + turns;
    } else {
      var c :| c in node.children && Sized(c, n, size);
      var t := Turn(true, 0, k);
      var locals' := SomeCounted(tasks, locals, t);
      FedTasks(tasks, k);
      var task :| task in Fed(tasks, k) && task.node == c;
      var k' :| 0 <= k' < |Fed(tasks, k)| && Fed(tasks, k)[k'] == task;
      turns, final := ShowNonzero(Fed(tasks, k), locals', k', n, size);
      RunBegins(tasks, locals, t, locals', turns, final);
      turns := [t] + turns;
    }
  }

  // One thread, and nothing more to come that has the primvar.
  lemma {:induction false} StayZero(tasks: seq<Task>, locals: seq<StatCounters>, n: string)
    returns (turns: seq<Turn>, final: seq<StatCounters>)
    requires |locals| == 1 && SizeOf(locals[0], n) == 0 && !Pends(tasks, n)
    ensures Runs(tasks, locals, turns, final) && SizeOf(SumStats(final), n) == 0
    decreases Work(tasks)
  {
    hide SizeOf, Counted, Fed, Work, OwnSize, StatCounters.Plus;
    turns, final := [], locals;
    if tasks == [] {
      OnlyThread(locals, n);
    } else {
      var t := Turn(false, 0, 0);
      var locals' := SomeCounted(tasks, locals, t);
      TurnSizes(tasks, locals, t, locals', n);
      assert !Occurs(tasks[0].node, n);
      NothingPends(tasks, 0, n);
      TaskWork(tasks, 0);
      turns, final := StayZero(Fed(tasks, 0), locals', n);
      RunBegins(tasks, locals, t, locals', turns, final);
      turns := [t] + turns;
    }
  }

  lemma OnlyThread(locals: seq<StatCounters>, n: string)
    requires |locals| == 1
    ensures SizeOf(SumStats(locals), n) == SizeOf(locals[0], n)
  {
    assert locals[1..] == [];
    StatsPlus(locals[0], NO_STATS, NO_STATS);
    hide StatCounters.Plus, SizeOf;
  }

  lemma NothingPends(tasks: seq<Task>, k: nat, n: string)
    requires k < |tasks| && forall c :: c in tasks[k].node.children ==> !Occurs(c, n)
    requires forall i :: 0 <= i < |tasks| && i != k ==> !Occurs(tasks[i].node, n)
    ensures !Pends(Fed(tasks, k), n)
  {
    var a, b := tasks[..k], tasks[k + 1..];
    var task := tasks[k];
    var below := Tasks(task.node.children, HiddenHere(task.node.facts, task.hidden));
    hide Occurs, HiddenHere;
    forall t | t in Fed(tasks, k) ensures !Occurs(t.node, n) {
      assert t in a || t in b || t in below;
    }
  }

  // Size zero: a single thread comes to the lowest prim that has it after all others.
  lemma {:induction false} ShowZero(tasks: seq<Task>, locals: seq<StatCounters>, k: nat, n: string)
    returns (turns: seq<Turn>, final: seq<StatCounters>)
    requires |locals| <= 1 && k < |tasks| && Lowest(tasks[k].node, n, 0)
    ensures Runs(tasks, locals, turns, final) && SizeOf(SumStats(final), n) == 0
    decreases Work(tasks)
  {
    hide SizeOf, Counted, Fed, Work, SumStats, OwnSize, Occurs;
    var j := if |tasks| == 1 then 0 else if k == 0 then 1 else 0;
    var node := tasks[k].node;
    var t := Turn(locals == [], 0, j);
    var locals' := SomeCounted(tasks, locals, t);
    TurnSizes(tasks, locals, t, locals', n);
    TaskWork(tasks, j);
    FedTasks(tasks, j);
    if j == k && OwnSize(node.facts, n) == Last(0) && forall c :: c in node.children ==> !Occurs(c, n) {
      NothingPends(tasks, k, n);
      turns, final := StayZero(Fed(tasks, j), locals', n);
    } else {
      var next: Task;
      if j == k {
        var c :| c in node.children && Lowest(c, n, 0);
        next :| next in Fed(tasks, j) && next.node == c;
      } else {
        next := tasks[k];
      }
      var k' :| 0 <= k' < |Fed(tasks, j)| && Fed(tasks, j)[k'] == next;
      turns, final := ShowZero(Fed(tasks, j), locals', k', n);
    }
    RunBegins(tasks, locals, t, locals', turns, final);
    turns := [t] + turns;
  }

  // ---------- The outcomes ----------

  lemma RootTasks(roots: seq<Node>)
    ensures forall t :: t in Tasks(roots, false) ==> t.node in roots
    ensures forall node :: node in roots ==> Task(node, false) in Tasks(roots, false)
  {
    forall node | node in roots ensures Task(node, false) in Tasks(roots, false) {
      var i :| 0 <= i < |roots| && roots[i] == node;
      assert Tasks(roots, false)[i] == Task(node, false);
    }
  }

  ghost predicate OccursIn(roots: seq<Node>, n: string)
  {
    exists node :: node in roots && Occurs(node, n)
  }

  lemma OutcomeIsShown(roots: seq<Node>, turns: seq<Turn>, result: StatCounters, n: string)
    requires Outcome(roots, turns, result) && OccursIn(roots, n)
    ensures SizeOf(result, n) in Shown(roots, n)
  {
    hide SizeOf, Runs, SumStats, Occurs, CanShow;
    var final :| Runs(Tasks(roots, false), [], turns, final) && result == SumStats(final);
    RootTasks(roots);
    var node :| node in roots && Occurs(node, n);
    assert Task(node, false) in Tasks(roots, false) && Task(node, false).node == node;
    assert Pends(Tasks(roots, false), n);
    FittingRun(Tasks(roots, false), [], turns, final, n, Shown(roots, n));
  }

  lemma ShownIsOutcome(roots: seq<Node>, n: string, size: nat) returns (turns: seq<Turn>, result: StatCounters)
    requires size in Shown(roots, n)
    ensures Outcome(roots, turns, result) && SizeOf(result, n) == size
  {
    var node :| node in roots && CanShow(node, n, size);
    RootTasks(roots);
    var k :| 0 <= k < |Tasks(roots, false)| && Tasks(roots, false)[k] == Task(node, false);
    hide SizeOf, Runs, SumStats, Sized, Lowest;
    var final;
    if size != 0 {
      if Lowest(node, n, size) {
        LowestIsSized(node, n, size);
      }
      turns, final := ShowNonzero(Tasks(roots, false), [], k, n, size);
    } else {
      turns, final := ShowZero(Tasks(roots, false), [], k, n);
    }
    result := SumStats(final);
  }

  /** The size a statistics run reports for a primvar that occurs can be any size that is not zero, or the size of any
      lowest prim that has it, depending on the schedule, and can be nothing else. */
  lemma SizesReported(roots: seq<Node>, n: string, size: nat)
    requires OccursIn(roots, n)
    ensures size in Shown(roots, n) <==> exists turns, result :: Outcome(roots, turns, result) && SizeOf(result, n) == size
  {
    hide SizeOf, Outcome, Shown, OccursIn;
    if size in Shown(roots, n) {
      var turns, result := ShownIsOutcome(roots, n, size);
    }
    if turns, result :| Outcome(roots, turns, result) && SizeOf(result, n) == size {
      OutcomeIsShown(roots, turns, result, n);
    }
  }

  // ---------- When no schedule changes anything ----------

  // There is at most one size to report.
  ghost predicate Agreed(roots: seq<Node>, n: string)
  {
    forall y, z :: y in Shown(roots, n) && z in Shown(roots, n) ==> y == z
  }

  // What the recursive count reports is among the sizes.
  lemma SizeInIsShown(roots: seq<Node>, n: string)
    requires OccursIn(roots, n)
    ensures SizeInAll(roots, n) in Shown(roots, n)
  {
    SizeInAllOccurs(roots, n);
    var node :| node in roots && Occurs(node, n);
    hide SizeInAll, Sized, Lowest, Occurs;
    if SizeInAll(roots, n) != 0 {
      var root :| root in roots && Sized(root, n, SizeInAll(roots, n));
      assert CanShow(root, n, SizeInAll(roots, n));
    } else {
      var size := OccurrenceHasLowest(node, n);
      LowestIsSized(node, n, size);
      assert CanShow(node, n, size);
    }
  }

  lemma {:induction false} NeverSet(tasks: seq<Task>, locals: seq<StatCounters>, turns: seq<Turn>, final: seq<StatCounters>, n: string)
    requires Runs(tasks, locals, turns, final) && !Pends(tasks, n)
    requires forall i :: 0 <= i < |locals| ==> SizeOf(locals[i], n) == 0
    ensures SizeOf(SumStats(final), n) == 0
    decreases |turns|
  {
    hide SizeOf, Counted, Fed, SumStats;
    if turns == [] {
      SumHasSize(locals, n, iset{});
    } else {
      var t := turns[0];
      var locals' :| Counted(tasks, locals, t, locals') && Runs(Fed(tasks, t.task), locals', turns[1..], final);
      assert tasks[t.task] in tasks && !Occurs(tasks[t.task].node, n);
      NothingPends(tasks, t.task, n);
      SeatedSizes(locals, t, n, iset{});
      TurnSizes(tasks, locals, t, locals', n);
      hide Occurs, Pends, OwnSize;
      NeverSet(Fed(tasks, t.task), locals', turns[1..], final, n);
    }
  }

  lemma MissingIsZero(roots: seq<Node>, turns: seq<Turn>, result: StatCounters, n: string)
    requires Outcome(roots, turns, result) && !OccursIn(roots, n)
    ensures SizeOf(result, n) == 0 == SizeInAll(roots, n)
  {
    var final :| Runs(Tasks(roots, false), [], turns, final) && result == SumStats(final);
    RootTasks(roots);
    hide SizeOf, Runs, SumStats, Occurs;
    NeverSet(Tasks(roots, false), [], turns, final, n);
    SizeInAllOccurs(roots, n);
    if SizeInAll(roots, n) != 0 {
      var node :| node in roots && Sized(node, n, SizeInAll(roots, n));
      SizedOccurs(node, n, SizeInAll(roots, n));
    }
  }

  lemma SizesDiffer(roots: seq<Node>, n: string)
    requires !Agreed(roots, n)
    ensures exists turns, turns', result, result' ::
              Outcome(roots, turns, result) && Outcome(roots, turns', result') && SizeOf(result, n) != SizeOf(result', n)
  {
    hide SizeOf, Outcome, Shown;
    var y, z :| y in Shown(roots, n) && z in Shown(roots, n) && y != z;
    var turns, result := ShownIsOutcome(roots, n, y);
    var turns', result' := ShownIsOutcome(roots, n, z);
  }

  /** The size reported for a primvar is that of the recursive count under every schedule, if and only if its sizes that
      are not zero and the sizes of the lowest prims that have it are all the same. */
  lemma SizeIndependentIff(roots: seq<Node>, n: string)
    ensures Agreed(roots, n) <==>
              forall turns, result :: Outcome(roots, turns, result) ==> SizeOf(result, n) == SizeInAll(roots, n)
  {
    hide SizeOf, Outcome, Shown, SizeInAll, OccursIn;
    forall turns, result | Agreed(roots, n) && Outcome(roots, turns, result) ensures SizeOf(result, n) == SizeInAll(roots, n) {
      if OccursIn(roots, n) {
        OutcomeIsShown(roots, turns, result, n);
        SizeInIsShown(roots, n);
      } else {
        MissingIsZero(roots, turns, result, n);
      }
    }
    if !Agreed(roots, n) {
      SizesDiffer(roots, n);
    }
  }

  /** All counters are the same under every schedule, if and only if this holds for every primvar. */
  lemma StatsIndependentIff(roots: seq<Node>)
    ensures (forall n :: Agreed(roots, n)) <==>
              forall turns, turns', result, result' ::
                Outcome(roots, turns, result) && Outcome(roots, turns', result') ==> result == result'
  {
    hide SizeOf, Outcome, SizeInAll, Agreed, Tallied;
    forall n {
      SizeIndependentIff(roots, n);
    }
    forall turns, turns', result, result'
      | (forall n :: Agreed(roots, n)) && Outcome(roots, turns, result) && Outcome(roots, turns', result')
      ensures result == result' {
      OutcomeCounts(roots, turns, result);
      OutcomeCounts(roots, turns', result');
      forall n ensures SizeOf(result, n) == SizeOf(result', n) {
        SizeIndependentIff(roots, n);
      }
      TalliesAndSizes(result, result');
    }
    if n :| !Agreed(roots, n) {
      SizesDiffer(roots, n);
    }
  }

  // ---------- Two schedules that differ ----------

  function Bare(primvars: seq<Primvar>): Node
  {
    Node(Facts("Xform", true, false, true, false, false, false, true, Container, 0, primvars), [])
  }

  // The same name for a number and for a text, whose size is not known: either may be reported, though only one size is
  // not zero.
  lemma SizesCanDiffer(roots: seq<Node>)
    requires roots == [Bare([Primvar("p", 4, Constant, 1)]), Bare([Primvar("p", 0, Constant, 1)])]
    ensures exists turns, turns', result, result' ::
              && Outcome(roots, turns, result) && SizeOf(result, "p") == 4
              && Outcome(roots, turns', result') && SizeOf(result', "p") == 0
  {
    assert OwnSize(roots[0].facts, "p") == Last(4) && OwnSize(roots[1].facts, "p") == Last(0);
    hide OwnSize;
    assert CanShow(roots[0], "p", 4) && CanShow(roots[1], "p", 0);
    assert 4 in Shown(roots, "p") && 0 in Shown(roots, "p");
    hide SizeOf, Outcome, Shown;
    var turns, result := ShownIsOutcome(roots, "p", 4);
    var turns', result' := ShownIsOutcome(roots, "p", 0);
  }
}
