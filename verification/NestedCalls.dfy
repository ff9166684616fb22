/**
 The tracer of nested message calls: a stack of open calls over a tree of all calls, each with its
 position and its basic blocks.
 */
module NestedCalls {
  import opened Chain
  import opened CallPositions
  import opened BasicBlocks

  /** Calls are numbered in the order they are entered; `nested` are the numbers of the calls it makes. */
  datatype MsgCall = MsgCall(
    position: Position,
    compactPosition: Position,
    precompiled: bool,
    parent: Option<nat>,
    nested: seq<nat>)

  datatype Tracing = Tracing(calls: seq<MsgCall>, stack: seq<nat>, traces: seq<Data>, totalOperations: nat)

  datatype TraceEvent = CaptureState(pc: nat, op: OpCode, fault: bool) | CaptureEnter(precompiled: bool) | CaptureExit

  // ---- One event, on values ----

  predicate Open(t: Tracing) {
    && t.stack != [] && |t.traces| == |t.calls|
    && t.stack[|t.stack| - 1] < |t.calls|
  }

  function Top(t: Tracing): nat
    requires Open(t)
  {
    t.stack[|t.stack| - 1]
  }

  function CountCompact(calls: seq<MsgCall>, nested: seq<nat>): nat {
    if nested == [] then 0
    else
      var c := nested[|nested| - 1];
      CountCompact(calls, nested[..|nested| - 1]) + if c < |calls| && !calls[c].precompiled then 1 else 0
  }

  /** A precompiled contract has the compact position of its caller. */
  function GenChild(t: Tracing, precompiled: bool): MsgCall
    requires Open(t)
  {
    var c := t.calls[Top(t)];
    MsgCall(
      c.position + [|c.nested|],
      if precompiled then c.compactPosition else c.compactPosition + [CountCompact(t.calls, c.nested)],
      precompiled, Some(Top(t)), [])
  }

  function StartTracing(): Tracing {
    Tracing([MsgCall([], [], false, None, [])], [0], [NewData], 0)
  }

  function LocationOf(t: Tracing, pc: nat, op: OpCode): Location {
    Location(pc, op, t.totalOperations)
  }

  predicate CanStep(t: Tracing, e: TraceEvent) {
    && Open(t)
    && (e.CaptureState? && !e.fault ==> !Panics(t.traces[Top(t)], LocationOf(t, e.pc, e.op)))
    && (e.CaptureExit? ==> |t.stack| > 1)
  }

  function StateStep(t: Tracing, pc: nat, op: OpCode, fault: bool): Tracing
    requires CanStep(t, CaptureState(pc, op, fault))
  {
    var top, l := Top(t), LocationOf(t, pc, op);
    t.(traces := t.traces[top := if fault then FaultStep(t.traces[top], l) else ExecuteStep(t.traces[top], l)],
       totalOperations := t.totalOperations + 1)
  }

  function EnterStep(t: Tracing, precompiled: bool): Tracing
    requires Open(t)
  {
    var top, n := Top(t), |t.calls|;
    var caller := t.calls[top].(nested := t.calls[top].nested + [n]);
    Tracing(
      t.calls[top := caller] + [GenChild(t, precompiled)], t.stack + [n],
      t.traces[top := NextTrace(t.traces[top])] + [NewData], t.totalOperations)
  }

  function ExitStep(t: Tracing): Tracing
    requires |t.stack| > 1
  {
    t.(stack := t.stack[..|t.stack| - 1])
  }

  function Step(t: Tracing, e: TraceEvent): Tracing
    requires CanStep(t, e)
  {
    match e
    case CaptureState(pc, op, fault) => StateStep(t, pc, op, fault)
    case CaptureEnter(precompiled) => EnterStep(t, precompiled)
    case CaptureExit => ExitStep(t)
  }

  // ---- The tree of calls ----

  /** Every call but the root is where its position says, and was entered after its caller. */
  predicate Linked(calls: seq<MsgCall>) {
    && calls != [] && calls[0].position == [] && calls[0].parent == None
    && (forall i :: 0 < i < |calls| ==> PlacedAt(calls, i))
    && (forall p, k :: 0 <= p < |calls| && 0 <= k < |calls[p].nested| ==> ChildAt(calls, p, k))
  }

  predicate PlacedAt(calls: seq<MsgCall>, i: nat)
    requires i < |calls|
  {
    && calls[i].parent.Some? && calls[i].parent.value < i && calls[i].position != []
    && var p, k := calls[calls[i].parent.value], calls[i].position[|calls[i].position| - 1];
       k < |p.nested| && p.nested[k] == i && calls[i].position == p.position + [k]
  }

  predicate ChildAt(calls: seq<MsgCall>, p: nat, k: nat)
    requires p < |calls| && k < |calls[p].nested|
  {
    var i := calls[p].nested[k];
    p < i < |calls| && calls[i].parent == Some(p) && calls[i].position == calls[p].position + [k]
  }

  /** Each open call is the latest one its caller has entered. */
  predicate Stacked(t: Tracing) {
    && t.stack != [] && |t.traces| == |t.calls|
    && (forall j :: 0 <= j < |t.stack| ==> t.stack[j] < |t.calls|)
    && (forall i, j :: 0 <= i < j < |t.stack| ==> t.stack[i] < t.stack[j])
    && (forall j :: 0 < j < |t.stack| ==>
          var c := t.calls[t.stack[j - 1]]; c.nested != [] && c.nested[|c.nested| - 1] == t.stack[j])
  }

  function NextPosition(t: Tracing): Position
    requires Open(t)
  {
    t.calls[Top(t)].position + [|t.calls[Top(t)].nested|]
  }

  /** Positions grow with time, up to where the next call would go. */
  predicate Sorted(t: Tracing)
    requires Open(t)
  {
    && (forall i, j :: 0 <= i < j < |t.calls| ==> Order(t.calls[i].position, t.calls[j].position) < 0)
    && (forall i :: 0 <= i < |t.calls| ==> Order(t.calls[i].position, NextPosition(t)) < 0)
  }

  predicate Tree(t: Tracing) {
    Linked(t.calls) && Stacked(t) && Sorted(t)
  }

  lemma StartTree()
    ensures Tree(StartTracing())
  {
  }

  lemma StateTree(t: Tracing, pc: nat, op: OpCode, fault: bool)
    requires Tree(t) && CanStep(t, CaptureState(pc, op, fault))
    ensures Tree(StateStep(t, pc, op, fault))
  {
    var t' := StateStep(t, pc, op, fault);
    assert t'.calls == t.calls && t'.stack == t.stack && |t'.traces| == |t.traces|;
  }

  lemma ExitTree(t: Tracing)
    requires Tree(t) && |t.stack| > 1
    ensures Tree(ExitStep(t))
  {
    var t', n := ExitStep(t), |t.stack| - 1;
    var top, caller := t.stack[n], t.stack[n - 1];
    var k := |t.calls[caller].nested| - 1;
    assert ChildAt(t.calls, caller, k);
    var p := t.calls[caller].position;
    forall i | 0 <= i < |t.calls| ensures Order(t.calls[i].position, NextPosition(t')) < 0 {
      SiblingFirst(p, k, [|t.calls[top].nested|], k + 1);
      OrderTransitive(t.calls[i].position, NextPosition(t), NextPosition(t'));
    }
  }

  lemma EnterLinked(t: Tracing, precompiled: bool)
    requires Linked(t.calls) && Stacked(t)
    ensures Linked(EnterStep(t, precompiled).calls)
  {
    var t', top, n := EnterStep(t, precompiled), Top(t), |t.calls|;
    forall i | 0 < i < |t'.calls| ensures PlacedAt(t'.calls, i) {
      if i < n {
        assert PlacedAt(t.calls, i);
      }
    }
    forall p, k | 0 <= p < |t'.calls| && 0 <= k < |t'.calls[p].nested| ensures ChildAt(t'.calls, p, k) {
      if p < n && k < |t.calls[p].nested| {
        assert ChildAt(t.calls, p, k);
      }
    }
  }

  lemma EnterStacked(t: Tracing, precompiled: bool)
    requires Stacked(t)
    ensures Stacked(EnterStep(t, precompiled))
  {
    var t', m := EnterStep(t, precompiled), |t.stack|;
    forall j | 0 < j < |t'.stack|
      ensures var c := t'.calls[t'.stack[j - 1]]; c.nested != [] && c.nested[|c.nested| - 1] == t'.stack[j]
    {
      if j < m {
        assert t'.stack[j - 1] == t.stack[j - 1] && t'.stack[j] == t.stack[j];
        assert t.stack[j - 1] < t.stack[m - 1] == Top(t);
        assert t'.calls[t.stack[j - 1]] == t.calls[t.stack[j - 1]];
        var c := t.calls[t.stack[j - 1]];
        assert c.nested != [] && c.nested[|c.nested| - 1] == t.stack[j];
      } else {
        assert t'.stack[j - 1] == Top(t) && t'.stack[j] == |t.calls|;
      }
    }
  }

  lemma EnterSorted(t: Tracing, precompiled: bool)
    requires Open(t) && Sorted(t)
    ensures Sorted(EnterStep(t, precompiled))
  {
    var t', n := EnterStep(t, precompiled), |t.calls|;
    assert forall i :: 0 <= i < n ==> t'.calls[i].position == t.calls[i].position;
    assert t'.calls[n].position == NextPosition(t) && NextPosition(t') == NextPosition(t) + [0];
    PrefixFirst(NextPosition(t), [0]);
    forall i | 0 <= i < |t'.calls| ensures Order(t'.calls[i].position, NextPosition(t')) < 0 {
      if i < n {
        OrderTransitive(t.calls[i].position, NextPosition(t), NextPosition(t'));
      }
    }
  }

  lemma EnterTree(t: Tracing, precompiled: bool)
    requires Tree(t)
    ensures Tree(EnterStep(t, precompiled))
  {
    EnterLinked(t, precompiled);
    EnterStacked(t, precompiled);
    EnterSorted(t, precompiled);
  }

  // ---- Ancestors ----

  predicate CallsBefore(calls: seq<MsgCall>) {
    forall i :: 0 <= i < |calls| && calls[i].parent.Some? ==> calls[i].parent.value < i
  }

  /** Call `i` has entered call `j`, itself or through other calls. */
  predicate IsAncestor(calls: seq<MsgCall>, i: nat, j: nat)
    requires CallsBefore(calls) && j < |calls|
    decreases j
  {
    calls[j].parent.Some? && (calls[j].parent.value == i || IsAncestor(calls, i, calls[j].parent.value))
  }

  lemma LinkedBefore(calls: seq<MsgCall>)
    requires Linked(calls)
    ensures CallsBefore(calls)
  {
    forall i | 0 <= i < |calls| && calls[i].parent.Some? ensures calls[i].parent.value < i {
      assert i > 0 && PlacedAt(calls, i);
    }
  }

  lemma SamePosition(t: Tracing, i: nat, j: nat)
    requires Tree(t) && i < |t.calls| && j < |t.calls| && t.calls[i].position == t.calls[j].position
    ensures i == j
  {
    OrderZero(t.calls[i].position, t.calls[j].position);
  }

  /** One call is an ancestor of another exactly if its position is a proper prefix of the other's. */
  lemma {:induction false} AncestorsByPosition(t: Tracing, i: nat, j: nat)
    requires Tree(t) && i < |t.calls| && j < |t.calls|
    ensures CallsBefore(t.calls) && (IsAncestor(t.calls, i, j) <==> t.calls[i].position < t.calls[j].position)
    decreases j
  {
    LinkedBefore(t.calls);
    if j > 0 {
      assert PlacedAt(t.calls, j);
      var p := t.calls[j].parent.value;
      AncestorsByPosition(t, i, p);
      var q, r := t.calls[p].position, t.calls[i].position;
      if r < t.calls[j].position {
        assert r <= q;
        if r == q {
          SamePosition(t, i, p);
        }
      }
    }
  }

  // ---- Looking a call up by its position ----

  /** The child of `c` towards a call below it. */
  lemma {:induction false} ChildTowards(t: Tracing, c: nat, i: nat)
    requires Tree(t) && c < |t.calls| && i < |t.calls| && t.calls[c].position < t.calls[i].position
    ensures var k := t.calls[i].position[|t.calls[c].position|]; k < |t.calls[c].nested|
    decreases i
  {
    assert i > 0 && PlacedAt(t.calls, i);
    var p := t.calls[i].parent.value;
    if t.calls[c].position == t.calls[p].position {
      SamePosition(t, c, p);
    } else {
      ChildTowards(t, c, p);
    }
  }

  predicate Present(t: Tracing, pos: Position) {
    exists i :: 0 <= i < |t.calls| && t.calls[i].position == pos
  }

  /** What a traversal from `c` leaves in the captured variable: the call at the position, if it is there to be met. */
  predicate Found(t: Tracing, c: nat, pos: Position, before: Option<nat>, after: Option<nat>)
    requires c < |t.calls|
  {
    if t.calls[c].position <= pos && Present(t, pos)
    then after.Some? && after.value < |t.calls| && t.calls[after.value].position == pos
    else after == before
  }

  /**
   The traversal with the search as its callback. A nested traversal does not tell its caller to
   stop, so only a match among the direct children ends the loop early.
   */
  method Iterate(t: Tracing, c: nat, pos: Position, before: Option<nat>) returns (call: Option<nat>)
    requires Tree(t) && c < |t.calls|
    ensures Found(t, c, pos, before, call)
    decreases |t.calls| - c
  {
    call := before;
    var p := t.calls[c];
    var cmp := Cmp(p.position, pos);
    OrderZero(p.position, pos);
    if cmp == 0 {
      return Some(c);
    }
    var k := 0;
    while k < |p.nested|
      invariant k <= |p.nested|
      invariant if p.position < pos && pos[|p.position|] < k && Present(t, pos)
                then call.Some? && call.value < |t.calls| && t.calls[call.value].position == pos
                else call == before
    {
      assert ChildAt(t.calls, c, k);
      call := Iterate(t, p.nested[k], pos, call);
      cmp := Cmp(t.calls[p.nested[k]].position, pos);
      OrderZero(t.calls[p.nested[k]].position, pos);
      if cmp == 0 {
        return Some(p.nested[k]);
      }
      k := k + 1;
    }
    if p.position < pos && Present(t, pos) {
      var i :| 0 <= i < |t.calls| && t.calls[i].position == pos;
      ChildTowards(t, c, i);
    }
  }

  /** A call is found at a position exactly if one is there, and it is that one. */
  method FindMsgCall(t: Tracing, pos: Position) returns (call: Option<nat>)
    requires Tree(t)
    ensures call.Some? <==> Present(t, pos)
    ensures call.Some? ==> call.value < |t.calls| && t.calls[call.value].position == pos
    ensures forall i :: 0 <= i < |t.calls| && t.calls[i].position == pos ==> call == Some(i)
  {
    call := Iterate(t, 0, pos, None);
    forall i | 0 <= i < |t.calls| && t.calls[i].position == pos ensures call == Some(i) {
      SamePosition(t, i, call.value);
    }
  }
}
