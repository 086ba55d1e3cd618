/** The argument list of an operation, and the groups that are put in order after their members were added. */
module ArgumentGroups {
  import opened Sequences

  type Id = nat

  // An argument; a group or join has members.
  datatype Argument = Argument(id: Id, members: seq<Argument>)

  function Index(s: seq<Id>, x: Id): (i: nat)
    ensures i <= |s| && (i < |s| ==> s[i] == x) && (x in s <==> i < |s|)
  {
    if s == [] then 0
    else if s[0] == x then 0
    else
      assert s == [s[0]] + s[1..];
      Index(s[1..], x) + 1
  }

  // The elements from first to last, with the one at middle brought to the front.
  function Rotated(s: seq<Id>, first: nat, middle: nat, last: nat): (r: seq<Id>)
    requires first <= middle <= last <= |s|
    ensures |r| == |s|
  {
    s[..first] + s[middle..last] + s[first..middle] + s[last..]
  }

  function Positioned(s: seq<Id>, x: Id, after: Id): seq<Id>
  {
    var i, j := Index(s, x), Index(s, after);
    if i == |s| || j == |s| then s
    else if i < j then Rotated(s, i, i + 1, j + 1)
    else Rotated(s, j, i, i + 1)
  }

  function Without(s: seq<Id>, gone: seq<Id>): seq<Id>
  {
    if s == [] then []
    else
      var rest := Without(s[..|s| - 1], gone);
      if s[|s| - 1] in gone then rest else rest + [s[|s| - 1]]
  }

  lemma {:induction false} WithoutMembers(s: seq<Id>, gone: seq<Id>, x: Id)
    ensures x in Without(s, gone) <==> x in s && x !in gone
  {
    if s != [] {
      assert s == s[..|s| - 1] + [s[|s| - 1]];
      WithoutMembers(s[..|s| - 1], gone, x);
    }
  }

  // ---------- One move ----------

  lemma IndexIs(s: seq<Id>, x: Id, i: nat)
    requires NoDuplicates(s) && i < |s| && s[i] == x
    ensures Index(s, x) == i
  {
  }

  lemma RotatedAt(s: seq<Id>, first: nat, middle: nat, last: nat, k: nat)
    requires first <= middle <= last <= |s| && k < |s|
    ensures Rotated(s, first, middle, last)[k]
            == if k < first || k >= last then s[k]
               else if k < first + (last - middle) then s[k + (middle - first)]
               else s[k - (last - middle)]
  {
  }

  lemma DistinctRearranged(s: seq<Id>, r: seq<Id>, place: nat -> nat)
    requires NoDuplicates(s) && |r| == |s|
    requires forall k: nat :: k < |r| ==> place(k) < |s| && r[k] == s[place(k)]
    requires forall k: nat, l: nat :: k < l < |r| ==> place(k) != place(l)
    ensures NoDuplicates(r)
  {
    forall k, l | 0 <= k < l < |r| ensures r[k] != r[l] {
      assert place(k) != place(l);
    }
  }

  lemma MovedRight(s: seq<Id>, i: nat, j: nat)
    requires NoDuplicates(s) && i < j < |s|
    ensures var r := Rotated(s, i, i + 1, j + 1); NoDuplicates(r) && r[j] == s[i] && r[j - 1] == s[j]
  {
    var r := Rotated(s, i, i + 1, j + 1);
    var place: nat -> nat := k => if k < i || k > j then k else if k == j then i else k + 1;
    hide NoDuplicates;
    forall k: nat | k < |r| ensures r[k] == s[place(k)] {
      RotatedAt(s, i, i + 1, j + 1, k);
    }
    hide Rotated;
    DistinctRearranged(s, r, place);
  }

  lemma MovedLeft(s: seq<Id>, i: nat, j: nat)
    requires NoDuplicates(s) && j < i < |s|
    ensures var r := Rotated(s, j, i, i + 1); NoDuplicates(r) && r[j] == s[i] && r[j + 1] == s[j]
  {
    var r := Rotated(s, j, i, i + 1);
    var place: nat -> nat := k => if k < j || k > i then k else if k == j then i else k - 1;
    forall k: nat | k < |r| ensures r[k] == s[place(k)] {
      RotatedAt(s, j, i, i + 1, k);
    }
    hide Rotated, NoDuplicates;
    DistinctRearranged(s, r, place);
  }

  // The argument ends up directly after the other one exactly when it was on its left.
  lemma PositionedAfterIff(s: seq<Id>, x: Id, after: Id)
    requires NoDuplicates(s) && x in s && after in s && x != after
    ensures var r := Positioned(s, x, after);
            && NoDuplicates(r)
            && (Index(r, x) == Index(r, after) + 1 <==> Index(s, x) < Index(s, after))
            && (Index(s, x) > Index(s, after) ==> Index(r, x) + 1 == Index(r, after))
  {
    hide Index, Rotated, NoDuplicates;
    var i, j := Index(s, x), Index(s, after);
    var r := Positioned(s, x, after);
    if i < j {
      MovedRight(s, i, j);
      IndexIs(r, x, j);
      IndexIs(r, after, j - 1);
    } else {
      MovedLeft(s, i, j);
      IndexIs(r, x, j);
      IndexIs(r, after, j + 1);
    }
  }

  // When the other one is last, the argument becomes the last.
  lemma PositionedLast(s: seq<Id>, x: Id, after: Id)
    requires NoDuplicates(s + [after]) && x in s
    ensures Positioned(s + [after], x, after) == Without(s, [x]) + [after, x]
  {
    hide Without, Rotated;
    var all, i, n := s + [after], Index(s, x), |s|;
    IndexIs(all, x, i);
    IndexIs(all, after, n);
    DistinctPrefix(s, [after]);
    hide Index;
    WithoutOne(s, i);
    hide NoDuplicates;
    RotatedToEnd(s, i, after);
    assert s[..i] + s[i + 1..] + [after, s[i]] == (s[..i] + s[i + 1..]) + [after, x];
  }

  lemma RotatedToEnd(s: seq<Id>, i: nat, after: Id)
    requires i < |s|
    ensures Rotated(s + [after], i, i + 1, |s| + 1) == s[..i] + s[i + 1..] + [after, s[i]]
  {
    var all, n := s + [after], |s|;
    var r, t := Rotated(all, i, i + 1, n + 1), s[..i] + s[i + 1..] + [after, s[i]];
    forall k | 0 <= k < n + 1 ensures r[k] == t[k] {
      RotatedAt(all, i, i + 1, n + 1, k);
    }
  }

  lemma {:induction false} WithoutNone(s: seq<Id>, gone: seq<Id>)
    requires forall x :: x in s ==> x !in gone
    ensures Without(s, gone) == s
  {
    if s != [] {
      assert s[|s| - 1] in s;
      assert s == s[..|s| - 1] + [s[|s| - 1]];
      WithoutNone(s[..|s| - 1], gone);
    }
  }

  lemma {:induction false} WithoutOne(s: seq<Id>, i: nat)
    requires NoDuplicates(s) && i < |s|
    ensures Without(s, [s[i]]) == s[..i] + s[i + 1..]
  {
    var n := |s| - 1;
    if i == n {
      WithoutNone(s[..n], [s[i]]);
      assert s[..i] + s[i + 1..] == s[..n];
    } else {
      WithoutOne(s[..n], i);
      assert s[..n][..i] + s[..n][i + 1..] + [s[n]] == s[..i] + s[i + 1..];
    }
  }

  lemma WithoutPush(s: seq<Id>, y: Id, gone: seq<Id>)
    ensures Without(s + [y], gone) == if y in gone then Without(s, gone) else Without(s, gone) + [y]
  {
    assert (s + [y])[..|s|] == s;
  }

  lemma {:induction false} WithoutTwice(s: seq<Id>, a: seq<Id>, b: seq<Id>)
    ensures Without(Without(s, a), b) == Without(s, a + b)
  {
    if s != [] {
      var init, y := s[..|s| - 1], s[|s| - 1];
      assert s == init + [y];
      hide Without;
      WithoutTwice(init, a, b);
      WithoutPush(init, y, a);
      WithoutPush(init, y, a + b);
      WithoutPush(Without(init, a), y, b);
    }
  }

  // ---------- Many moves ----------

  // Each argument is positioned after the one before.
  function PositionedAll(s: seq<Id>, after: Id, moves: seq<Id>): seq<Id>
    decreases |moves|
  {
    if moves == [] then s
    else PositionedAll(Positioned(s, moves[0], after), moves[0], moves[1..])
  }

  // Every argument that is moved is there, to the left of the one it is positioned after.
  predicate MovesFromLeft(s: seq<Id>, after: Id, moves: seq<Id>)
    decreases |moves|
  {
    moves == [] ||
    (Index(s, moves[0]) < Index(s, after) < |s| && MovesFromLeft(Positioned(s, moves[0], after), moves[0], moves[1..]))
  }

  // Where the next argument goes: after the last one moved, the group itself to begin with.
  lemma {:induction false} NextFromLeft(s: seq<Id>, group: Id, moved: seq<Id>, x: Id, rest: seq<Id>)
    requires MovesFromLeft(s, group, moved + [x] + rest)
    ensures var now := PositionedAll(s, group, moved); Index(now, x) < Index(now, Anchor(group, moved)) < |now|
    decreases |moved|
  {
    hide Index, Positioned;
    if moved == [] {
      assert ([] + [x] + rest)[0] == x;
    } else {
      assert (moved + [x] + rest)[0] == moved[0] && (moved + [x] + rest)[1..] == moved[1..] + [x] + rest;
      NextFromLeft(Positioned(s, moved[0], group), moved[0], moved[1..], x, rest);
    }
  }

  lemma DistinctPrefix(s: seq<Id>, t: seq<Id>)
    requires NoDuplicates(s + t)
    ensures NoDuplicates(s) && forall x :: x in s ==> x !in t
  {
    assert forall k :: 0 <= k < |s| ==> s[k] == (s + t)[k];
    forall x | x in s ensures x !in t {
      var i :| 0 <= i < |s| && s[i] == x;
      assert forall j :: 0 <= j < |t| ==> (s + t)[|s| + j] == t[j];
    }
  }

  lemma MovedDistinct(s: seq<Id>, i: nat, t: seq<Id>)
    requires NoDuplicates(s + t) && i < |s|
    ensures NoDuplicates(s[..i] + s[i + 1..] + (t + [s[i]]))
  {
    var r, all := s[..i] + s[i + 1..] + (t + [s[i]]), s + t;
    assert forall k :: 0 <= k < |r| ==> r[k] == all[if k < i then k else if k == |r| - 1 then i else k + 1];
  }

  // One move: out of the front part, to the end.
  lemma MoveOne(s: seq<Id>, done: seq<Id>, x: Id, after: Id)
    requires NoDuplicates(s + (done + [after])) && x in s
    ensures Positioned(s + (done + [after]), x, after) == Without(s, [x]) + (done + [after] + [x])
    ensures NoDuplicates(Without(s, [x]) + (done + [after] + [x]))
  {
    var t, i := done + [after], Index(s, x);
    DistinctPrefix(s, t);
    assert x !in done by { assert x !in t; }
    MovedDistinct(s, i, t);
    WithoutOne(s, i);
    assert s + t == (s + done) + [after];
    hide Without, Index, Positioned, NoDuplicates;
    PositionedLast(s + done, x, after);
    WithoutLeft(s, done, x);
    assert Without(s, [x]) + done + [after, x] == Without(s, [x]) + (t + [x]);
  }

  lemma DistinctTail(s: seq<Id>)
    requires NoDuplicates(s) && s != []
    ensures NoDuplicates(s[1..]) && s[0] !in s[1..]
  {
  }

  lemma FirstMove(s: seq<Id>, after: Id, moves: seq<Id>)
    requires moves != []
    ensures PositionedAll(s, after, moves) == PositionedAll(Positioned(s, moves[0], after), moves[0], moves[1..])
    ensures moves == [moves[0]] + moves[1..]
  {
    hide Positioned;
  }

  // The last argument is to the right of all others.
  lemma LastIsRight(s: seq<Id>, done: seq<Id>, x: Id, after: Id)
    requires NoDuplicates(s + (done + [after])) && x in s
    ensures var all := s + (done + [after]); Index(all, x) < Index(all, after) < |all|
  {
    var all := s + (done + [after]);
    var i :| 0 <= i < |s| && s[i] == x;
    assert all[i] == x && all[|all| - 1] == after;
    IndexIs(all, x, i);
    IndexIs(all, after, |all| - 1);
    hide Index, NoDuplicates;
  }

  lemma {:induction false} MovedToEnd(s: seq<Id>, done: seq<Id>, after: Id, moves: seq<Id>)
    requires NoDuplicates(s + (done + [after])) && NoDuplicates(moves) && forall x :: x in moves ==> x in s
    ensures PositionedAll(s + (done + [after]), after, moves) == Without(s, moves) + (done + [after] + moves)
    ensures MovesFromLeft(s + (done + [after]), after, moves)
    decreases |moves|
  {
    hide Positioned, NoDuplicates, PositionedAll, Without;
    if moves == [] {
      WithoutNone(s, []);
      NothingMoved(s + (done + [after]), after);
      assert done + [after] + [] == done + [after];
    } else {
      FirstMove(s + (done + [after]), after, moves);
      var x, tail := moves[0], moves[1..];
      MoveOne(s, done, x, after);
      LastIsRight(s, done, x, after);
      DistinctTail(moves);
      forall y | y in tail ensures y in Without(s, [x]) {
        WithoutMembers(s, [x], y);
      }
      MovedToEnd(Without(s, [x]), done + [after], x, tail);
      WithoutTwice(s, [x], tail);
      assert done + [after] + [x] + tail == done + [after] + moves;
    }
  }

  lemma {:induction false} WithoutLeft(s: seq<Id>, done: seq<Id>, x: Id)
    requires x !in done
    ensures Without(s + done, [x]) == Without(s, [x]) + done
    decreases |done|
  {
    if done == [] {
      assert s + done == s;
    } else {
      var n := |done| - 1;
      assert (s + done)[..|s + done| - 1] == s + done[..n];
      WithoutLeft(s, done[..n], x);
      assert Without(s, [x]) + done[..n] + [done[n]] == Without(s, [x]) + done;
    }
  }

  // ---------- Groups ----------

  function Ids(members: seq<Argument>): (r: seq<Id>)
    ensures |r| == |members| && forall i :: 0 <= i < |r| ==> r[i] == members[i].id
  {
    seq(|members|, i requires 0 <= i < |members| => members[i].id)
  }

  // What building a group moves: its members, and the members of those that are groups themselves.
  function Moves(members: seq<Argument>): seq<Id>
  {
    if members == [] then [] else Moves(members[..|members| - 1]) + Block(members[|members| - 1])
  }

  function Block(member: Argument): seq<Id> { [member.id] + Ids(member.members) }

  // A group's members in declared order, each before its own members.
  function Preorder(members: seq<Argument>): (r: seq<Id>)
    decreases members
  {
    if members == [] then []
    else [members[0].id] + Preorder(members[0].members) + Preorder(members[1..])
  }

  // The moves from the k-th member on.
  function MovesFrom(members: seq<Argument>, k: nat): seq<Id>
    requires k <= |members|
    decreases |members| - k
  {
    if k == |members| then [] else Block(members[k]) + MovesFrom(members, k + 1)
  }

  lemma {:induction false} MovesSplit(members: seq<Argument>, k: nat)
    requires k < |members|
    ensures Moves(members) == Moves(members[..k]) + Block(members[k]) + MovesFrom(members, k + 1)
    decreases |members| - k
  {
    hide Block;
    var more := members[..k + 1];
    assert more[..k] == members[..k] && more[k] == members[k];
    assert Moves(more) == Moves(members[..k]) + Block(members[k]);
    if k + 1 < |members| {
      MovesSplit(members, k + 1);
      assert Moves(more) + (Block(members[k + 1]) + MovesFrom(members, k + 2))
             == Moves(more) + Block(members[k + 1]) + MovesFrom(members, k + 2);
    } else {
      assert more == members;
    }
  }

  lemma BlockRegrouped(moved: seq<Id>, member: Argument, later: seq<Id>)
    ensures moved + Block(member) + later == moved + [member.id] + (Ids(member.members) + later)
    ensures moved + Block(member) + later == moved + [member.id] + Ids(member.members) + later
    ensures moved + Block(member) == moved + [member.id] + Ids(member.members)
  {
  }

  lemma IdsRegrouped(moved: seq<Id>, members: seq<Argument>, m: nat, rest: seq<Id>)
    requires m < |members|
    ensures moved + Ids(members) + rest == moved + Ids(members[..m]) + [members[m].id] + (Ids(members[m + 1..]) + rest)
    ensures moved + Ids(members[..m + 1]) == moved + Ids(members[..m]) + [members[m].id]
  {
    assert Ids(members) == Ids(members[..m]) + [members[m].id] + Ids(members[m + 1..]);
    assert Ids(members[..m + 1]) == Ids(members[..m]) + [members[m].id];
  }

  class ArgumentList {
    var args: seq<Id>

    constructor ()
      ensures args == []
    {
      args := [];
    }

    method Add(x: Id)
      modifies this
      ensures args == old(args) + [x]
    {
      args := args + [x];
    }

    method Find(x: Id) returns (i: nat)
      ensures i == Index(args, x)
    {
      i := 0;
      while i < |args| && args[i] != x
        invariant i <= |args| && Index(args, x) == i + Index(args[i..], x)
      {
        assert args[i..][0] == args[i] && args[i..][1..] == args[i + 1..];
        i := i + 1;
      }
    }

    method Position(x: Id, after: Id)
      modifies this
      ensures args == Positioned(old(args), x, after)
    {
      hide Index, Rotated;
      var i := Find(x);
      var j := Find(after);
      if i < |args| && j < |args| {
        if i < j {
          args := Rotated(args, i, i + 1, j + 1);
        } else {
          args := Rotated(args, j, i, i + 1);
        }
      }
    }

    // Move one argument behind those that were moved before it. It always comes from the left.
    method MoveNext(x: Id, afterArg: Id, ghost start: seq<Id>, ghost group: Id, ghost moved: seq<Id>, ghost rest: seq<Id>)
      requires afterArg == Anchor(group, moved) && args == PositionedAll(start, group, moved)
      requires MovesFromLeft(start, group, moved + [x] + rest)
      modifies this
      ensures Index(old(args), x) < Index(old(args), afterArg) < |old(args)|
      ensures args == PositionedAll(start, group, moved + [x])
    {
      NextFromLeft(start, group, moved, x, rest);
      Position(x, afterArg);
      PositionedMore(start, group, moved, x);
    }

    method MoveMembers(members: seq<Argument>, first: Id, ghost start: seq<Id>, ghost group: Id, ghost moved: seq<Id>,
                       ghost rest: seq<Id>)
      returns (afterArg: Id)
      requires first == Anchor(group, moved) && args == PositionedAll(start, group, moved)
      requires MovesFromLeft(start, group, moved + Ids(members) + rest)
      modifies this
      ensures args == PositionedAll(start, group, moved + Ids(members)) && afterArg == Anchor(group, moved + Ids(members))
    {
      hide PositionedAll, MovesFromLeft, Ids;
      afterArg := first;
      assert members[..0] == [] && moved + Ids([]) == moved;
      for m := 0 to |members|
        invariant afterArg == Anchor(group, moved + Ids(members[..m]))
        invariant args == PositionedAll(start, group, moved + Ids(members[..m]))
      {
        ghost var later := Ids(members[m + 1..]) + rest;
        IdsRegrouped(moved, members, m, rest);
        MoveNext(members[m].id, afterArg, start, group, moved + Ids(members[..m]), later);
        afterArg := members[m].id;
      }
      assert members[..|members|] == members;
    }

    /** Whatever order the members were added in, and with whatever between them: the other arguments keep their order,
        and the group follows with its members in declared order. */
    method AddGroup(group: Id, members: seq<Argument>)
      requires NoDuplicates(args + [group]) && NoDuplicates(Moves(members))
      requires forall x :: x in Moves(members) ==> x in args
      modifies this
      ensures args == Without(old(args), Moves(members)) + ([group] + Moves(members))
      ensures MovesFromLeft(old(args) + [group], group, Moves(members))
    {
      hide PositionedAll, NoDuplicates, MovesFromLeft;
      Add(group);
      ghost var start := args;
      assert [] + [group] == [group];
      MovedToEnd(old(args), [], group, Moves(members));
      assert args == PositionedAll(start, group, []) by { NothingMoved(start, group); }
      var afterArg := group;
      for k := 0 to |members|
        invariant afterArg == Anchor(group, Moves(members[..k]))
        invariant args == PositionedAll(start, group, Moves(members[..k]))
      {
        assert members[..k + 1][..k] == members[..k];
        ghost var moved := Moves(members[..k]);
        ghost var later := MovesFrom(members, k + 1);
        MovesSplit(members, k);
        BlockRegrouped(moved, members[k], later);
        MoveNext(members[k].id, afterArg, start, group, moved, Ids(members[k].members) + later);
        afterArg := MoveMembers(members[k].members, members[k].id, start, group, moved + [members[k].id], later);
      }
      assert members[..|members|] == members;
    }
  }

  lemma NothingMoved(s: seq<Id>, after: Id)
    ensures PositionedAll(s, after, []) == s
  {
  }

  // The argument that the next one is positioned after.
  function Anchor(group: Id, moved: seq<Id>): Id
  {
    if moved == [] then group else moved[|moved| - 1]
  }

  lemma {:induction false} PositionedMore(s: seq<Id>, after: Id, moves: seq<Id>, x: Id)
    ensures PositionedAll(s, after, moves + [x])
            == Positioned(PositionedAll(s, after, moves), x, Anchor(after, moves))
    decreases |moves|
  {
    hide Positioned;
    if moves == [] {
      assert (moves + [x])[1..] == [];
    } else {
      assert (moves + [x])[1..] == moves[1..] + [x];
      PositionedMore(Positioned(s, moves[0], after), moves[0], moves[1..], x);
    }
  }

  // ---------- The declared order ----------

  ghost predicate AllLeaves(members: seq<Argument>)
  {
    forall j :: 0 <= j < |members| ==> members[j].members == []
  }

  ghost predicate Shallow(members: seq<Argument>)
  {
    forall i :: 0 <= i < |members| ==> AllLeaves(members[i].members)
  }

  lemma FirstAndRest(members: seq<Argument>)
    requires members != []
    ensures AllLeaves(members) <==> members[0].members == [] && AllLeaves(members[1..])
    ensures Shallow(members) <==> AllLeaves(members[0].members) && Shallow(members[1..])
    ensures Ids(members) == [members[0].id] + Ids(members[1..])
  {
    LeavesFront(members);
    IdsFront(members);
    ShallowFront(members);
  }

  lemma ShallowFront(members: seq<Argument>)
    requires members != []
    ensures Shallow(members) <==> AllLeaves(members[0].members) && Shallow(members[1..])
  {
    hide AllLeaves;
    var rest := members[1..];
    if AllLeaves(members[0].members) && Shallow(rest) {
      forall j | 0 <= j < |members| ensures AllLeaves(members[j].members) {
        if j > 0 {
          assert members[j] == rest[j - 1];
        }
      }
    }
    if Shallow(members) {
      forall j | 0 <= j < |rest| ensures AllLeaves(rest[j].members) {
        assert rest[j] == members[j + 1];
      }
    }
  }

  lemma LeavesFront(members: seq<Argument>)
    requires members != []
    ensures AllLeaves(members) <==> members[0].members == [] && AllLeaves(members[1..])
  {
    var rest := members[1..];
    if members[0].members == [] && AllLeaves(rest) {
      forall j | 0 <= j < |members| ensures members[j].members == [] {
        if j > 0 {
          assert members[j] == rest[j - 1];
        }
      }
    }
    if AllLeaves(members) {
      forall j | 0 <= j < |rest| ensures rest[j].members == [] {
        assert rest[j] == members[j + 1];
      }
    }
  }

  lemma IdsFront(members: seq<Argument>)
    requires members != []
    ensures Ids(members) == [members[0].id] + Ids(members[1..])
  {
  }

  lemma MovesPush(members: seq<Argument>, m: Argument)
    ensures Moves(members + [m]) == Moves(members) + Block(m)
  {
    hide Block;
    assert (members + [m])[..|members|] == members;
  }

  lemma {:induction false} MovesFront(members: seq<Argument>)
    requires members != []
    ensures Moves(members) == Block(members[0]) + Moves(members[1..])
    decreases |members|
  {
    var n := |members| - 1;
    var init, last := members[..n], members[n];
    assert members == init + [last];
    MovesPush(init, last);
    if n == 0 {
      assert init == [] && members[1..] == [];
    } else {
      hide Moves, Block;
      MovesFront(init);
      MovesPush(init[1..], last);
      assert members[1..] == init[1..] + [last];
    }
  }

  lemma {:induction false} PreorderLength(members: seq<Argument>)
    ensures |Preorder(members)| >= |members|
    ensures |Preorder(members)| == |members| <==> AllLeaves(members)
    ensures AllLeaves(members) ==> Preorder(members) == Ids(members)
    decreases members
  {
    if members != [] {
      FirstAndRest(members);
      hide AllLeaves, Ids;
      PreorderLength(members[0].members);
      PreorderLength(members[1..]);
      assert Preorder([]) == [];
    }
  }

  lemma {:induction false} MovesAreFewer(members: seq<Argument>)
    ensures |Moves(members)| <= |Preorder(members)|
    ensures |Moves(members)| == |Preorder(members)| <==> Shallow(members)
    ensures Shallow(members) ==> Moves(members) == Preorder(members)
    decreases |members|
  {
    if members != [] {
      FirstAndRest(members);
      MovesFront(members);
      hide AllLeaves, Ids, Shallow;
      PreorderLength(members[0].members);
      MovesAreFewer(members[1..]);
    }
  }

  /** The group comes out in declared preorder exactly when joins are nested at most one level inside it. */
  lemma GroupInPreorderIff(members: seq<Argument>)
    ensures Moves(members) == Preorder(members) <==> Shallow(members)
  {
    MovesAreFewer(members);
  }
}
