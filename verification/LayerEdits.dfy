/** The edits of one prim's transform attributes as they are carried out in the layer. */
module LayerEdits {
  import opened Wrappers
  import opened Affine
  import opened ChangeOfBasis
  import opened XformStack
  import opened XformConversion
  import opened UniqueNames

  // Where a single-axis rotation goes, and the value it takes along.
  datatype Remap = Remap(newName: OpName, content: Option<Value>)

  ghost predicate RemapsRight(change: Change, ops: Ops, remappings: map<OpName, Remap>)
  {
    forall n :: n in remappings ==> n in ops && remappings[n] == Remap(NewName(change, n), NewContent(change, n, ops[n]))
  }

  method RemapOf(change: Change, n: OpName, content: Option<Value>) returns (remap: Remap)
    requires IsAxis(n.kind)
    ensures remap == Remap(NewName(change, n), NewContent(change, n, content))
  {
    var axis, reversed := FindNewAxis(change, AxisOf(n.kind));
    var value := content;
    if value.Some? && value.value.Angle? && reversed {
      value := Some(Angle(value.value.c, -value.value.s));
    }
    remap := Remap(OpName(KindOf(axis), n.suffix), value);
  }

  class PrimSpec {
    var ops: Ops
    var order: seq<Token>

    ghost function Contents(): Xform
      reads this
    {
      Xform(ops, order)
    }

    constructor (x: Xform)
      ensures Contents() == x
    {
      ops, order := x.ops, x.order;
    }

    // Every op attribute that is not a single-axis rotation, one after the other.
    method ConvertOps(m: Metrics)
      modifies this
      ensures Contents() == Xform(ConvertedOps(m, old(ops)), old(order))
    {
      var todo := ops.Keys;
      while todo != {}
        invariant todo <= ops.Keys == old(ops).Keys && order == old(order)
        invariant forall n :: n in ops ==> ops[n] == if n in todo then old(ops)[n] else ConvertedOps(m, old(ops))[n]
        decreases todo
      {
        var n :| n in todo;
        if ops[n].Some? && !IsAxis(n.kind) {
          ops := ops[n := Some(ConvertedValue(m, ops[n].value))];
        }
        todo := todo - {n};
      }
      assert ops == ConvertedOps(m, old(ops));
    }

    method FindRemaps(change: Change) returns (remappings: map<OpName, Remap>)
      ensures remappings.Keys == AxisOps(Contents()) && RemapsRight(change, ops, remappings)
    {
      remappings := map[];
      for i := 0 to |order|
        invariant remappings.Keys == AxisOps(Xform(ops, order[..i])) && RemapsRight(change, ops, remappings)
      {
        assert order[..i + 1] == order[..i] + [order[i]];
        AxisOpsMore(Xform(ops, order[..i]), order[i]);
        hide AxisOps, NewName, NewContent;
        if order[i].Forward? && IsAxis(order[i].op.kind) && order[i].op in ops {
          var remap := RemapOf(change, order[i].op, ops[order[i].op]);
          remappings := remappings[order[i].op := remap];
        }
      }
      assert order[..|order|] == order;
    }

    // Create or update the attributes that rotations are renamed to.
    method WriteRemaps(change: Change, remappings: map<OpName, Remap>)
      requires RemapsRight(change, ops, remappings)
      modifies this`ops
      ensures ops == WrittenOps(change, old(ops), remappings.Keys)
    {
      hide NewName, NewValue;
      var todo := remappings.Keys;
      assert RenamedNames(change, {}) == {};
      assert ops == WrittenOps(change, old(ops), {});
      ghost var done: set<OpName> := {};
      while todo != {}
        invariant done !! todo && done + todo == remappings.Keys && ops == WrittenOps(change, old(ops), done)
        decreases todo
      {
        var n :| n in todo;
        var target := remappings[n].newName;
        var content := if remappings[n].content.Some? then remappings[n].content
                       else if target in ops then ops[target] else None;
        WrittenMore(change, old(ops), done, n);
        ops := ops[target := content];
        todo, done := todo - {n}, done + {n};
      }
    }

    // Remove the old attributes that nothing was renamed to.
    method RemoveOld(change: Change, remappings: map<OpName, Remap>, ghost before: Ops)
      requires RemapsRight(change, before, remappings)
      modifies this`ops
      ensures ops == old(ops) - (remappings.Keys - RenamedNames(change, remappings.Keys))
    {
      hide NewName, NewContent;
      var todo := remappings.Keys;
      ghost var removed: set<OpName> := {};
      while todo != {}
        invariant todo <= remappings.Keys && ops == old(ops) - removed
        invariant removed == remappings.Keys - todo - RenamedNames(change, remappings.Keys)
        decreases todo
      {
        var n :| n in todo;
        RenamedNamesAre(change, before, remappings, n);
        if forall k :: k in remappings ==> remappings[k].newName != n {
          ops := ops - {n};
          removed := removed + {n};
        }
        todo := todo - {n};
      }
    }

    // Rename the tokens of the order; drop those of attributes that were overwritten.
    method RewriteOrder(change: Change, remappings: map<OpName, Remap>, ghost before: Ops)
      requires RemapsRight(change, before, remappings)
      modifies this`order
      ensures order == RenamedOrder(change, remappings.Keys, old(order))
    {
      hide NewName, NewContent;
      var newOrder: seq<Token> := [];
      for i := 0 to |order|
        invariant order == old(order) && newOrder == RenamedOrder(change, remappings.Keys, order[..i])
      {
        assert order[..i + 1][..i] == order[..i];
        var t := order[i];
        if t.Forward? {
          RenamedNamesAre(change, before, remappings, t.op);
        }
        if t.Forward? && t.op in remappings {
          newOrder := newOrder + [Forward(remappings[t.op].newName)];
        } else if !t.Forward? || forall k :: k in remappings ==> remappings[k].newName != t.op {
          newOrder := newOrder + [t];
        }
      }
      assert order[..|order|] == order;
      order := newOrder;
    }

    method RenameRotations(change: Change)
      modifies this
      ensures Contents() == Renamed(change, old(Contents()))
    {
      if change.Keep? {
        return;
      }
      hide WrittenOps, AxisOps, RenamedOrder, RenamedNames, RemapsRight;
      var remappings := FindRemaps(change);
      if remappings.Keys == {} {
        return;
      }
      WriteRemaps(change, remappings);
      RemoveOld(change, remappings, old(ops));
      RewriteOrder(change, remappings, old(ops));
    }

    // The name of a correction op: counted up until the prim has no attribute of that name.
    method ResolveCorrectionName(kind: Kind, preferred: string) returns (n: OpName)
      ensures n == FreshOp(ops, kind, preferred)
    {
      ghost var taken := set k | k in ops && k.kind == kind :: k.suffix;
      var i, name := 0, preferred;
      assert forall s {:trigger OpName(kind, s)} :: OpName(kind, s) in ops <==> s in taken;
      while OpName(kind, name) in ops
        invariant name == Candidate(preferred, "", i) && TakenBefore(preferred, "", taken, i)
        decreases |taken| - i
      {
        TakenAreFew(preferred, "", taken, i + 1);
        i := i + 1;
        name := preferred + Decimal(i);
        assert preferred + "" == preferred;
      }
      OneFirstFree(preferred, "", taken, i, FirstFree(preferred, "", taken, 0));
      n := OpName(kind, name);
    }

    method AddUpAxisCorrection(change: Change, name: OpName)
      modifies this
      ensures Contents() == UpAxisCorrected(change, old(Contents()), name)
    {
      var (c, s) := CorrectionAngle(change);
      ops := ops[name := Some(Angle(c, s))];
      order := order + [Forward(name)];
    }

    // The local map is the one composed before any attribute is touched.
    method Collapse(m: Metrics, local: Option<Map>, requiresRotation: bool)
      modifies this
      ensures Contents() == Collapsed(m, local, requiresRotation)
    {
      hide ConvertedMap, Then, Correction, LinearMap;
      ops := map[];
      var matrix := local;
      if requiresRotation && matrix.None? {
        matrix := Some(IDENTITY);
      }
      if matrix.Some? {
        matrix := Some(ConvertedMap(m, matrix.value));
        if requiresRotation {
          matrix := Some(Then(LinearMap(Correction(m.change)), matrix.value));
        }
      }
      ops := ops[TRANSFORM := if matrix.Some? then Some(Whole(matrix.value)) else None];
      order := [Forward(TRANSFORM)];
    }

    method CorrectSkeleton(m: Metrics, scaleName: OpName, rotateName: OpName)
      modifies this
      ensures Contents() == SkeletonCorrected(m, old(Contents()), scaleName, rotateName)
    {
      var newOrder: seq<Token> := [];
      var existing := 0;
      if order != [] && order[0] == Reset {
        newOrder := [Reset];
        existing := 1;
      }
      if m.scale.Some? {
        ops := ops[scaleName := Some(Factors(Vec(m.scale.value, m.scale.value, m.scale.value)))];
        newOrder := newOrder + [Forward(scaleName)];
      }
      if !m.change.Keep? {
        var (c, s) := CorrectionAngle(m.change);
        ops := ops[rotateName := Some(Angle(c, s))];
        newOrder := newOrder + [Forward(rotateName)];
      }
      CorrectedOrder(m, Contents(), old(Contents()), scaleName, rotateName, newOrder, existing);
      order := WithRest(newOrder, order, existing);
    }
  }

  // The rest of the old order is copied behind the new one.
  method WithRest(head: seq<Token>, order: seq<Token>, start: nat) returns (newOrder: seq<Token>)
    requires start <= |order|
    ensures newOrder == head + order[start..]
  {
    newOrder := head;
    for existing := start to |order|
      invariant newOrder == head + order[start..existing]
    {
      assert order[start..existing + 1] == order[start..existing] + [order[existing]];
      newOrder := newOrder + [order[existing]];
    }
    assert order[start..|order|] == order[start..];
  }

  // The corrections, with the reset token before them, and then the rest of the old order.
  lemma CorrectedOrder(m: Metrics, now: Xform, x: Xform, scaleName: OpName, rotateName: OpName, head: seq<Token>, start: nat)
    requires start == if x.order != [] && x.order[0] == Reset then 1 else 0
    requires head == (if start == 1 then [Reset] else []) + (if m.scale.Some? then [Forward(scaleName)] else [])
                     + if m.change.Keep? then [] else [Forward(rotateName)]
    requires now.ops == SkeletonCorrected(m, x, scaleName, rotateName).ops
    ensures Xform(now.ops, head + x.order[start..]) == SkeletonCorrected(m, x, scaleName, rotateName)
  {
    hide CorrectionAngle, Factor;
  }

  lemma AxisOpsMore(x: Xform, t: Token)
    ensures AxisOps(Xform(x.ops, x.order + [t]))
            == AxisOps(x) + if t.Forward? && IsAxis(t.op.kind) && t.op in x.ops then {t.op} else {}
  {
    var more := Xform(x.ops, x.order + [t]);
    assert forall u :: u in more.order <==> u in x.order || u == t;
    forall n | n in AxisOps(more) ensures n in AxisOps(x) || (t.Forward? && n == t.op && IsAxis(n.kind) && n in x.ops) {
    }
    forall n | n in AxisOps(x) ensures n in AxisOps(more) {
    }
    if t.Forward? && IsAxis(t.op.kind) && t.op in x.ops {
      assert t in more.order;
      assert t.op in AxisOps(more);
    }
  }

  lemma RenamedNamesAre(change: Change, ops: Ops, remappings: map<OpName, Remap>, n: OpName)
    requires RemapsRight(change, ops, remappings)
    ensures n in RenamedNames(change, remappings.Keys) <==> exists k :: k in remappings && remappings[k].newName == n
  {
    hide NewName;
  }

  // What an attribute holds when the new values have been written.
  lemma WrittenAt(change: Change, ops: Ops, names: set<OpName>, k: OpName)
    requires names <= ops.Keys
    ensures var source := NewName(change, k);
            && (k in WrittenOps(change, ops, names) <==> k in ops || source in names)
            && (k in WrittenOps(change, ops, names) ==>
                  WrittenOps(change, ops, names)[k]
                  == if source in names && ops[source].Some? then NewContent(change, source, ops[source])
                     else if k in ops then ops[k] else None)
  {
    hide NewName, NewContent;
    NewNameInvolutive(change, k);
    if k in RenamedNames(change, names) {
      var n :| n in names && NewName(change, n) == k;
      NewNameInvolutive(change, n);
    }
    assert NewName(change, k) in names ==> k in RenamedNames(change, names);
  }

  lemma WrittenMore(change: Change, ops: Ops, names: set<OpName>, n: OpName)
    requires names <= ops.Keys && n in ops && n !in names
    ensures var target := NewName(change, n);
            var before := WrittenOps(change, ops, names);
            var content := if ops[n].Some? then NewContent(change, n, ops[n])
                           else if target in before then before[target] else None;
            WrittenOps(change, ops, names + {n}) == before[target := content]
  {
    hide NewName, NewContent, WrittenOps;
    var target := NewName(change, n);
    var before, after := WrittenOps(change, ops, names), WrittenOps(change, ops, names + {n});
    var content := if ops[n].Some? then NewContent(change, n, ops[n]) else if target in before then before[target] else None;
    NewNameInvolutive(change, n);
    forall k
      ensures k in after <==> k in before || k == target
      ensures k in after ==> after[k] == if k == target then content else before[k] {
      WrittenAt(change, ops, names, k);
      WrittenAt(change, ops, names + {n}, k);
      NewNameInvolutive(change, k);
    }
  }
}
