/** Scene statistics gathered by tasks that feed the children of each prim back into the worklist, with counters of
    their own for every thread. */
module SceneStats {
  import opened KeyedSums
  import opened SceneCounters

  datatype Node = Node(facts: Facts, children: seq<Node>)

  // ---------- The recursive count ----------

  // Invisibility is passed on through prims that are not imageable.
  function HiddenHere(f: Facts, hidden: bool): bool { hidden || (f.imageable && f.authoredInvisible) }

  function Count(n: Node, hidden: bool): Counters
  {
    Own(n.facts, HiddenHere(n.facts, hidden), n.children == []).Plus(CountAll(n.children, HiddenHere(n.facts, hidden)))
  }

  function CountAll(ns: seq<Node>, hidden: bool): Counters
  {
    if ns == [] then NO_COUNTERS else Count(ns[0], hidden).Plus(CountAll(ns[1..], hidden))
  }

  // ---------- The worklist ----------

  datatype Task = Task(node: Node, hidden: bool)

  function Pending(tasks: seq<Task>): Counters
  {
    if tasks == [] then NO_COUNTERS else Count(tasks[0].node, tasks[0].hidden).Plus(Pending(tasks[1..]))
  }

  function Sum(locals: seq<Counters>): Counters
  {
    if locals == [] then NO_COUNTERS else locals[0].Plus(Sum(locals[1..]))
  }

  function Tasks(ns: seq<Node>, hidden: bool): (r: seq<Task>)
    ensures |r| == |ns| && forall i :: 0 <= i < |r| ==> r[i] == Task(ns[i], hidden)
  {
    seq(|ns|, i requires 0 <= i < |ns| => Task(ns[i], hidden))
  }

  lemma {:induction false} TasksPending(ns: seq<Node>, hidden: bool)
    ensures Pending(Tasks(ns, hidden)) == CountAll(ns, hidden)
  {
    hide Count, Counters.Plus;
    if ns != [] {
      assert Tasks(ns, hidden)[1..] == Tasks(ns[1..], hidden);
      TasksPending(ns[1..], hidden);
    }
  }

  lemma {:induction false} PendingConcat(a: seq<Task>, b: seq<Task>)
    ensures Pending(a + b) == Pending(a).Plus(Pending(b))
  {
    hide Count, Counters.Plus;
    if a == [] {
      assert a + b == b;
      CountersPlus(Pending(b), NO_COUNTERS, NO_COUNTERS);
    } else {
      assert (a + b)[1..] == a[1..] + b;
      PendingConcat(a[1..], b);
      CountersPlus(Count(a[0].node, a[0].hidden), Pending(a[1..]), Pending(b));
    }
  }

  lemma {:induction false} SumConcat(a: seq<Counters>, b: seq<Counters>)
    ensures Sum(a + b) == Sum(a).Plus(Sum(b))
  {
    hide Counters.Plus;
    if a == [] {
      assert a + b == b;
      CountersPlus(Sum(b), NO_COUNTERS, NO_COUNTERS);
    } else {
      assert (a + b)[1..] == a[1..] + b;
      SumConcat(a[1..], b);
      CountersPlus(a[0], Sum(a[1..]), Sum(b));
    }
  }

  lemma SumUpdated(locals: seq<Counters>, k: nat, c: Counters)
    requires k < |locals|
    ensures Sum(locals[k := locals[k].Plus(c)]) == Sum(locals).Plus(c)
  {
    hide Counters.Plus;
    var a, b, x := locals[..k], locals[k + 1..], locals[k];
    assert locals == a + ([x] + b);
    assert locals[k := x.Plus(c)] == a + ([x.Plus(c)] + b);
    assert ([x] + b)[1..] == b && ([x.Plus(c)] + b)[1..] == b;
    SumConcat(a, [x] + b);
    SumConcat(a, [x.Plus(c)] + b);
    hide Sum;
    var sa, sb := Sum(a), Sum(b);
    CountersPlus(x, c, sb);
    CountersPlus(c, sb, NO_COUNTERS);
    CountersPlus(x, sb, c);
    CountersPlus(sa, x.Plus(sb), c);
  }

  lemma PendingWithout(tasks: seq<Task>, k: nat)
    requires k < |tasks|
    ensures Pending(tasks) == Count(tasks[k].node, tasks[k].hidden).Plus(Pending(tasks[..k] + tasks[k + 1..]))
  {
    hide Counters.Plus, Count;
    var a, b, t := tasks[..k], tasks[k + 1..], tasks[k];
    assert tasks == a + ([t] + b);
    assert ([t] + b)[1..] == b;
    PendingConcat(a, [t] + b);
    PendingConcat(a, b);
    hide Pending;
    var pa, pb, x := Pending(a), Pending(b), Count(t.node, t.hidden);
    CountersPlus(pa, x, pb);
    CountersPlus(x, pa, pb);
  }

  function Size(n: Node): nat { 1 + SizeAll(n.children) }

  function SizeAll(ns: seq<Node>): nat { if ns == [] then 0 else Size(ns[0]) + SizeAll(ns[1..]) }

  function Work(tasks: seq<Task>): nat { if tasks == [] then 0 else Size(tasks[0].node) + Work(tasks[1..]) }

  lemma {:induction false} WorkConcat(a: seq<Task>, b: seq<Task>)
    ensures Work(a + b) == Work(a) + Work(b)
  {
    if a == [] {
      assert a + b == b;
    } else {
      assert (a + b)[1..] == a[1..] + b;
      WorkConcat(a[1..], b);
    }
  }

  lemma {:induction false} WorkOfTasks(ns: seq<Node>, hidden: bool)
    ensures Work(Tasks(ns, hidden)) == SizeAll(ns)
  {
    if ns != [] {
      assert Tasks(ns, hidden)[1..] == Tasks(ns[1..], hidden);
      WorkOfTasks(ns[1..], hidden);
    }
  }

  // One task: its own prim is counted, its children are fed to the worklist.
  function Fed(tasks: seq<Task>, k: nat): seq<Task>
    requires k < |tasks|
  {
    tasks[..k] + tasks[k + 1..] + Tasks(tasks[k].node.children, HiddenHere(tasks[k].node.facts, tasks[k].hidden))
  }

  lemma WorkOne(t: Task)
    ensures Work([t]) == 1 + SizeAll(t.node.children)
  {
    assert [t][1..] == [];
  }

  lemma TaskWork(tasks: seq<Task>, k: nat)
    requires k < |tasks|
    ensures Work(Fed(tasks, k)) < Work(tasks)
  {
    hide Work, SizeAll, Tasks, HiddenHere;
    var a, t, b := tasks[..k], tasks[k], tasks[k + 1..];
    var below := Tasks(t.node.children, HiddenHere(t.node.facts, t.hidden));
    assert tasks == a + [t] + b;
    WorkOne(t);
    WorkOfTasks(t.node.children, HiddenHere(t.node.facts, t.hidden));
    WorkConcat(a + [t], b);
    WorkConcat(a, [t]);
    WorkConcat(a, b);
    WorkConcat(a + b, below);
  }

  lemma TaskCounted(tasks: seq<Task>, k: nat)
    requires k < |tasks|
    ensures var t := tasks[k];
            Own(t.node.facts, HiddenHere(t.node.facts, t.hidden), t.node.children == []).Plus(Pending(Fed(tasks, k)))
            == Pending(tasks)
  {
    var t := tasks[k];
    var here := HiddenHere(t.node.facts, t.hidden);
    var rest := tasks[..k] + tasks[k + 1..];
    var own := Own(t.node.facts, here, t.node.children == []);
    assert Count(t.node, t.hidden) == own.Plus(CountAll(t.node.children, here));
    hide Counters.Plus, Pending, Count, CountAll, Own, Tasks, HiddenHere;
    PendingWithout(tasks, k);
    TasksPending(t.node.children, here);
    PendingConcat(rest, Tasks(t.node.children, here));
    CountersPlus(Pending(rest), CountAll(t.node.children, here), NO_COUNTERS);
    CountersPlus(own, CountAll(t.node.children, here), Pending(rest));
  }

  // ---------- Schedules ----------

  // A task is taken by the thread with those counters, or by one that has none yet and gets them there.
  datatype Turn = Turn(joins: bool, thread: nat, task: nat)

  predicate Enabled(tasks: seq<Task>, locals: seq<StatCounters>, t: Turn)
  {
    t.task < |tasks| && (if t.joins then t.thread <= |locals| else t.thread < |locals|)
  }

  function Seated(locals: seq<StatCounters>, t: Turn): seq<StatCounters>
    requires if t.joins then t.thread <= |locals| else t.thread < |locals|
  {
    if t.joins then locals[..t.thread] + [NO_STATS] + locals[t.thread..] else locals
  }

  // The thread's counters after the turn.
  ghost predicate Counted(tasks: seq<Task>, locals: seq<StatCounters>, t: Turn, locals': seq<StatCounters>)
    requires Enabled(tasks, locals, t)
  {
    var seated, task := Seated(locals, t), tasks[t.task];
    && |locals'| == |seated| && locals' == seated[t.thread := locals'[t.thread]]
    && CountsOwn(task.node.facts, HiddenHere(task.node.facts, task.hidden), task.node.children == [],
                 seated[t.thread], locals'[t.thread])
  }

  // From these tasks and counters to no tasks and those counters.
  ghost predicate Runs(tasks: seq<Task>, locals: seq<StatCounters>, turns: seq<Turn>, final: seq<StatCounters>)
    decreases |turns|
  {
    if turns == [] then tasks == [] && final == locals
    else
      && Enabled(tasks, locals, turns[0])
      && exists locals' ::
           Counted(tasks, locals, turns[0], locals') && Runs(Fed(tasks, turns[0].task), locals', turns[1..], final)
  }

  function SumStats(locals: seq<StatCounters>): StatCounters
  {
    if locals == [] then NO_STATS else locals[0].Plus(SumStats(locals[1..]))
  }

  // What a schedule can end with: the sum of all threads' counters.
  ghost predicate Outcome(roots: seq<Node>, turns: seq<Turn>, result: StatCounters)
  {
    exists final :: Runs(Tasks(roots, false), [], turns, final) && result == SumStats(final)
  }

  // ---------- What no schedule changes ----------

  function AllTallied(locals: seq<StatCounters>): (r: seq<Counters>)
    ensures |r| == |locals| && forall i :: 0 <= i < |r| ==> r[i] == Tallied(locals[i])
  {
    seq(|locals|, i requires 0 <= i < |locals| => Tallied(locals[i]))
  }

  lemma {:induction false} SumTallied(locals: seq<StatCounters>)
    ensures Tallied(SumStats(locals)) == Sum(AllTallied(locals))
  {
    hide Tallied, StatCounters.Plus, Counters.Plus;
    if locals == [] {
      NothingTallied();
    } else {
      assert AllTallied(locals)[1..] == AllTallied(locals[1..]);
      SumTallied(locals[1..]);
      PlusTallied(locals[0], SumStats(locals[1..]));
    }
  }

  lemma NothingTallied()
    ensures Tallied(NO_STATS) == NO_COUNTERS
  {
  }

  lemma SumWithNone(a: seq<Counters>, b: seq<Counters>)
    ensures Sum(a + [NO_COUNTERS] + b) == Sum(a + b)
  {
    hide Counters.Plus;
    assert a + [NO_COUNTERS] + b == a + ([NO_COUNTERS] + b);
    assert ([NO_COUNTERS] + b)[1..] == b;
    SumConcat(a, b);
    SumConcat(a, [NO_COUNTERS] + b);
    CountersPlus(Sum(b), NO_COUNTERS, NO_COUNTERS);
  }

  lemma SeatedSum(locals: seq<StatCounters>, t: Turn)
    requires if t.joins then t.thread <= |locals| else t.thread < |locals|
    ensures Sum(AllTallied(Seated(locals, t))) == Sum(AllTallied(locals))
  {
    hide Tallied, Counters.Plus, Sum;
    if t.joins {
      var a, b := AllTallied(locals[..t.thread]), AllTallied(locals[t.thread..]);
      NothingTallied();
      SumWithNone(a, b);
      assert AllTallied(locals) == a + b;
      assert AllTallied(Seated(locals, t)) == a + [NO_COUNTERS] + b;
    }
  }

  lemma OneTallyMore(seated: seq<StatCounters>, k: nat, locals': seq<StatCounters>, own: Counters)
    requires k < |seated| == |locals'| && locals' == seated[k := locals'[k]]
    requires Tallied(locals'[k]) == Tallied(seated[k]).Plus(own)
    ensures AllTallied(locals') == AllTallied(seated)[k := AllTallied(seated)[k].Plus(own)]
  {
    hide Tallied, Counters.Plus;
  }

  // A turn moves one prim's share from the pending tasks to the counters.
  lemma TurnKeepsCount(tasks: seq<Task>, locals: seq<StatCounters>, t: Turn, locals': seq<StatCounters>)
    requires Enabled(tasks, locals, t) && Counted(tasks, locals, t, locals')
    ensures Sum(AllTallied(locals')).Plus(Pending(Fed(tasks, t.task))) == Sum(AllTallied(locals)).Plus(Pending(tasks))
  {
    var task, seated := tasks[t.task], Seated(locals, t);
    var own := Own(task.node.facts, HiddenHere(task.node.facts, task.hidden), task.node.children == []);
    SeatedSum(locals, t);
    TaskCounted(tasks, t.task);
    hide Own, Counters.Plus, Tallied, Seated, SizeAfter, OwnSize, SizeOf, HiddenHere;
    var before := AllTallied(seated);
    OneTallyMore(seated, t.thread, locals', own);
    hide Fed, Pending, Sum, AllTallied;
    SumUpdated(before, t.thread, own);
    CountersPlus(Sum(before), own, Pending(Fed(tasks, t.task)));
  }

  /** Whichever task is taken next, and whichever thread takes it: but for the sizes of primvars, the combined counters
      are the recursive count. */
  lemma {:induction false} EveryScheduleCounts(tasks: seq<Task>, locals: seq<StatCounters>, turns: seq<Turn>, final: seq<StatCounters>)
    requires Runs(tasks, locals, turns, final)
    ensures Tallied(SumStats(final)) == Sum(AllTallied(locals)).Plus(Pending(tasks))
    decreases |turns|
  {
    hide Counted, Fed, Sum, AllTallied, Counters.Plus, SumStats, Tallied;
    if turns == [] {
      SumTallied(locals);
      CountersPlus(Sum(AllTallied(locals)), NO_COUNTERS, NO_COUNTERS);
    } else {
      hide Pending;
      var locals' :| Counted(tasks, locals, turns[0], locals') && Runs(Fed(tasks, turns[0].task), locals', turns[1..], final);
      TurnKeepsCount(tasks, locals, turns[0], locals');
      EveryScheduleCounts(Fed(tasks, turns[0].task), locals', turns[1..], final);
    }
  }

  lemma OutcomeCounts(roots: seq<Node>, turns: seq<Turn>, result: StatCounters)
    requires Outcome(roots, turns, result)
    ensures Tallied(result) == CountAll(roots, false)
  {
    hide Tallied, Counters.Plus, Count, Runs;
    var final :| Runs(Tasks(roots, false), [], turns, final) && result == SumStats(final);
    EveryScheduleCounts(Tasks(roots, false), [], turns, final);
    TasksPending(roots, false);
    assert Sum(AllTallied([])) == NO_COUNTERS;
    CountersPlus(CountAll(roots, false), NO_COUNTERS, NO_COUNTERS);
  }

  // A run is continued by one more turn at its end.
  ghost predicate Reaches(tasks: seq<Task>, locals: seq<StatCounters>, turns: seq<Turn>, tasks': seq<Task>, locals': seq<StatCounters>)
    decreases |turns|
  {
    if turns == [] then tasks' == tasks && locals' == locals
    else
      && Enabled(tasks, locals, turns[0])
      && exists next ::
           Counted(tasks, locals, turns[0], next) && Reaches(Fed(tasks, turns[0].task), next, turns[1..], tasks', locals')
  }

  lemma {:induction false} OneMoreTurn(tasks: seq<Task>, locals: seq<StatCounters>, turns: seq<Turn>, tasks': seq<Task>,
      locals': seq<StatCounters>, t: Turn, next: seq<StatCounters>)
    requires Reaches(tasks, locals, turns, tasks', locals') && Enabled(tasks', locals', t) && Counted(tasks', locals', t, next)
    ensures Reaches(tasks, locals, turns + [t], Fed(tasks', t.task), next)
    decreases |turns|
  {
    hide Counted, Fed;
    if turns == [] {
      assert ([] + [t])[1..] == [] && ([] + [t])[0] == t;
      assert Reaches(Fed(tasks', t.task), next, [], Fed(tasks', t.task), next);
    } else {
      assert (turns + [t])[1..] == turns[1..] + [t];
      var mid :| Counted(tasks, locals, turns[0], mid) && Reaches(Fed(tasks, turns[0].task), mid, turns[1..], tasks', locals');
      OneMoreTurn(Fed(tasks, turns[0].task), mid, turns[1..], tasks', locals', t, next);
    }
  }

  lemma {:induction false} ReachedRuns(tasks: seq<Task>, locals: seq<StatCounters>, turns: seq<Turn>, final: seq<StatCounters>)
    requires Reaches(tasks, locals, turns, [], final)
    ensures Runs(tasks, locals, turns, final)
    decreases |turns|
  {
    hide Counted, Fed;
    if turns != [] {
      var mid :| Counted(tasks, locals, turns[0], mid) && Reaches(Fed(tasks, turns[0].task), mid, turns[1..], [], final);
      ReachedRuns(Fed(tasks, turns[0].task), mid, turns[1..], final);
    }
  }

  /** The worklist runs dry, and what comes out is the outcome of the turns taken. The schedule says, turn by turn,
      whether a new thread joins in, where its counters go, and which of the pending tasks is taken. */
  method CollectStats(roots: seq<Node>, schedule: nat -> Turn) returns (result: StatCounters)
    ensures exists turns :: Outcome(roots, turns, result)
    ensures Tallied(result) == CountAll(roots, false)
  {
    hide Counters.Plus, Tallied, CountAll, CountsOwn, SumStats, Reaches, Runs;
    var tasks := Tasks(roots, false);
    var locals: seq<StatCounters> := [];
    ghost var turns: seq<Turn> := [];
    var turn := 0;
    assert Reaches(tasks, [], [], tasks, []) by { NoTurns(tasks, []); }
    while tasks != []
      invariant Reaches(Tasks(roots, false), [], turns, tasks, locals)
      decreases Work(tasks)
    {
      hide Work, Tasks;
      var t := Allowed(schedule(turn), |tasks|, |locals|);
      ghost var before := locals;
      locals := Seated(locals, t);
      var task := tasks[t.task];
      var here := task.hidden || (task.node.facts.imageable && task.node.facts.authoredInvisible);
      var own := CountPrim(task.node.facts, here, task.node.children == [], locals[t.thread]);
      TaskWork(tasks, t.task);
      locals := locals[t.thread := own];
      assert Counted(tasks, before, t, locals);
      OneMoreTurn(Tasks(roots, false), [], turns, tasks, before, t, locals);
      tasks := tasks[..t.task] + tasks[t.task + 1..] + Tasks(task.node.children, here);
      turns := turns + [t];
      turn := turn + 1;
    }
    ReachedRuns(Tasks(roots, false), [], turns, locals);
    result := Combine(locals);
    assert Outcome(roots, turns, result);
    OutcomeCounts(roots, turns, result);
  }

  lemma NoTurns(tasks: seq<Task>, locals: seq<StatCounters>)
    ensures Reaches(tasks, locals, [], tasks, locals)
  {
  }

  // The schedule's wish, within what there is.
  function Allowed(t: Turn, tasks: nat, locals: nat): (r: Turn)
    requires tasks > 0
    ensures r.task < tasks && (if r.joins then r.thread <= locals else r.thread < locals)
  {
    if t.joins || locals == 0 then Turn(true, t.thread % (locals + 1), t.task % tasks)
    else Turn(false, t.thread % locals, t.task % tasks)
  }

  method Combine(locals: seq<StatCounters>) returns (result: StatCounters)
    ensures result == SumStats(locals)
  {
    hide StatCounters.Plus;
    result := NO_STATS;
    for i := 0 to |locals|
      invariant result == SumStats(locals[..i])
    {
      assert locals[..i + 1] == locals[..i] + [locals[i]];
      StatsConcat(locals[..i], [locals[i]]);
      StatsPlus(locals[i], NO_STATS, NO_STATS);
      assert SumStats([locals[i]]) == locals[i] by { assert [locals[i]][1..] == []; }
      result := AddStats(result, locals[i]);
    }
    assert locals[..|locals|] == locals;
  }

  lemma {:induction false} StatsConcat(a: seq<StatCounters>, b: seq<StatCounters>)
    ensures SumStats(a + b) == SumStats(a).Plus(SumStats(b))
  {
    hide StatCounters.Plus;
    if a == [] {
      assert a + b == b;
      StatsPlus(SumStats(b), NO_STATS, NO_STATS);
    } else {
      assert (a + b)[1..] == a[1..] + b;
      StatsConcat(a[1..], b);
      StatsPlus(a[0], SumStats(a[1..]), SumStats(b));
    }
  }

  // ---------- Who is invisible ----------

  // For every prim, in preorder, the facts from its root down to itself.
  function Chains(n: Node, above: seq<Facts>): seq<seq<Facts>>
  {
    [above + [n.facts]] + ChainsAll(n.children, above + [n.facts])
  }

  function ChainsAll(ns: seq<Node>, above: seq<Facts>): seq<seq<Facts>>
  {
    if ns == [] then [] else Chains(ns[0], above) + ChainsAll(ns[1..], above)
  }

  predicate HiddenBy(chain: seq<Facts>)
  {
    exists i :: 0 <= i < |chain| && chain[i].imageable && chain[i].authoredInvisible
  }

  predicate Invisible(chain: seq<Facts>)
  {
    chain != [] && chain[|chain| - 1].imageable && HiddenBy(chain)
  }

  function InvisibleIn(chains: seq<seq<Facts>>): nat
  {
    if chains == [] then 0 else One(Invisible(chains[0])) + InvisibleIn(chains[1..])
  }

  lemma {:induction false} InvisibleConcat(a: seq<seq<Facts>>, b: seq<seq<Facts>>)
    ensures InvisibleIn(a + b) == InvisibleIn(a) + InvisibleIn(b)
  {
    hide Invisible;
    if a == [] {
      assert a + b == b;
    } else {
      assert (a + b)[1..] == a[1..] + b;
      InvisibleConcat(a[1..], b);
    }
  }

  lemma HiddenMore(above: seq<Facts>, f: Facts)
    ensures HiddenBy(above + [f]) == HiddenHere(f, HiddenBy(above))
  {
    var chain := above + [f];
    if HiddenBy(above) {
      var i :| 0 <= i < |above| && above[i].imageable && above[i].authoredInvisible;
      assert chain[i] == above[i];
    }
    assert chain[|above|] == f;
  }

  /** The counters say how many prims there are, and that exactly those imageable ones are invisible that have
      themselves or some imageable prim above them authored invisible. */
  lemma {:induction false} CountIsRight(n: Node, above: seq<Facts>)
    ensures Count(n, HiddenBy(above)).totals.prims == |Chains(n, above)|
    ensures Count(n, HiddenBy(above)).totals.invisible == InvisibleIn(Chains(n, above))
    decreases n, 1
  {
    var chain := above + [n.facts];
    HiddenMore(above, n.facts);
    CountAllIsRight(n.children, chain);
    InvisibleConcat([chain], ChainsAll(n.children, chain));
    assert InvisibleIn([chain]) == One(Invisible(chain)) by { assert [chain][1..] == []; }
    hide HiddenBy, CountAll, Chains, ChainsAll, Merged, OwnTallies;
    assert Chains(n, above) == [chain] + ChainsAll(n.children, chain) by { ChainsAre(n, above); }
  }

  lemma ChainsAre(n: Node, above: seq<Facts>)
    ensures Chains(n, above) == [above + [n.facts]] + ChainsAll(n.children, above + [n.facts])
  {
  }

  lemma {:induction false} CountAllIsRight(ns: seq<Node>, above: seq<Facts>)
    ensures CountAll(ns, HiddenBy(above)).totals.prims == |ChainsAll(ns, above)|
    ensures CountAll(ns, HiddenBy(above)).totals.invisible == InvisibleIn(ChainsAll(ns, above))
    decreases ns, 0
  {
    if ns != [] {
      CountIsRight(ns[0], above);
      CountAllIsRight(ns[1..], above);
      hide HiddenBy, Count, Chains, Merged, OwnTallies;
      InvisibleConcat(Chains(ns[0], above), ChainsAll(ns[1..], above));
    }
  }
}
