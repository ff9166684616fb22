/**
 Compact positions: where a call is in the tree of calls with those to precompiled contracts left out.
 */
module CompactPositions {
  import opened Chain
  import opened CallPositions
  import BasicBlocks
  import opened NestedCalls
  import TracerRuns

  /** A call stands after as many calls as its caller has made before it, those to precompiled contracts not counted. */
  predicate CompactAt(calls: seq<MsgCall>, i: nat)
    requires i < |calls| && PlacedAt(calls, i)
  {
    var caller, k := calls[calls[i].parent.value], calls[i].position[|calls[i].position| - 1];
    calls[i].compactPosition ==
    caller.compactPosition + if calls[i].precompiled then [] else [CountCompact(calls, caller.nested[..k])]
  }

  predicate Compact(calls: seq<MsgCall>) {
    && Linked(calls) && calls[0].compactPosition == [] && !calls[0].precompiled
    && forall i :: 0 < i < |calls| ==> PlacedAt(calls, i) && CompactAt(calls, i)
  }

  lemma {:induction false} CountSame(calls: seq<MsgCall>, calls': seq<MsgCall>, ns: seq<nat>)
    requires |calls| <= |calls'| && forall i :: 0 <= i < |calls| ==> calls[i].precompiled == calls'[i].precompiled
    requires forall m :: 0 <= m < |ns| ==> ns[m] < |calls|
    ensures CountCompact(calls, ns) == CountCompact(calls', ns)
  {
    if ns != [] {
      CountSame(calls, calls', ns[..|ns| - 1]);
    }
  }

  lemma CountKept(t: Tracing, precompiled: bool, p: nat, k: nat)
    requires Stacked(t) && Linked(t.calls) && p < |t.calls| && k <= |t.calls[p].nested|
    ensures var calls' := EnterStep(t, precompiled).calls;
            && calls'[p].nested[..k] == t.calls[p].nested[..k]
            && CountCompact(calls', calls'[p].nested[..k]) == CountCompact(t.calls, t.calls[p].nested[..k])
  {
    var ns := t.calls[p].nested[..k];
    forall m | 0 <= m < |ns| ensures ns[m] < |t.calls| {
      assert ChildAt(t.calls, p, m);
    }
    CountSame(t.calls, EnterStep(t, precompiled).calls, ns);
  }

  /** Entering a call leaves the other calls where they are. */
  lemma OldCompactAt(t: Tracing, precompiled: bool, i: nat)
    requires Stacked(t) && Compact(t.calls) && 0 < i < |t.calls|
    requires Linked(EnterStep(t, precompiled).calls)
    ensures PlacedAt(EnterStep(t, precompiled).calls, i) && CompactAt(EnterStep(t, precompiled).calls, i)
  {
    var calls' := EnterStep(t, precompiled).calls;
    assert PlacedAt(t.calls, i) && CompactAt(t.calls, i);
    var p, k := t.calls[i].parent.value, t.calls[i].position[|t.calls[i].position| - 1];
    CountKept(t, precompiled, p, k);
  }

  lemma EnterCompact(t: Tracing, precompiled: bool)
    requires Stacked(t) && Compact(t.calls)
    ensures Compact(EnterStep(t, precompiled).calls)
  {
    var calls', top, n := EnterStep(t, precompiled).calls, Top(t), |t.calls|;
    EnterLinked(t, precompiled);
    forall i | 0 < i < |calls'| ensures PlacedAt(calls', i) && CompactAt(calls', i) {
      if i < n {
        OldCompactAt(t, precompiled, i);
      } else {
        var nested := t.calls[top].nested;
        assert nested[..|nested|] == nested;
        CountKept(t, precompiled, top, |nested|);
      }
    }
  }

  lemma {:induction false} RunCompact(es: seq<TraceEvent>)
    requires TracerRuns.Playable(es)
    ensures Compact(TracerRuns.RunOf(es).t.calls)
  {
    if es != [] {
      var r, e := TracerRuns.RunOf(es[..|es| - 1]), es[|es| - 1];
      RunCompact(es[..|es| - 1]);
      TracerRuns.StepReached(r, e);
      if e.CaptureEnter? {
        EnterCompact(r.t, e.precompiled);
      }
    }
  }

  /** The calls among the first `k` of a caller that are not to precompiled contracts. */
  function Counted(calls: seq<MsgCall>, caller: nat, k: nat): set<nat>
    requires caller < |calls| && k <= |calls[caller].nested|
  {
    set m: nat | m < k && calls[caller].nested[m] < |calls| && !calls[calls[caller].nested[m]].precompiled
  }

  lemma {:induction false} CountIsSize(calls: seq<MsgCall>, caller: nat, k: nat)
    requires caller < |calls| && k <= |calls[caller].nested|
    ensures CountCompact(calls, calls[caller].nested[..k]) == |Counted(calls, caller, k)|
  {
    if k > 0 {
      var ns := calls[caller].nested;
      CountIsSize(calls, caller, k - 1);
      assert ns[..k][..k - 1] == ns[..k - 1];
      var last := if ns[k - 1] < |calls| && !calls[ns[k - 1]].precompiled then {k - 1} else {};
      assert Counted(calls, caller, k) == Counted(calls, caller, k - 1) + last;
    }
  }

  /**
   In every run a call's compact position is its caller's, and if it is not to a precompiled contract, how many
   of the calls its caller has made before it were not.
   */
  lemma CompactPositionIs(es: seq<TraceEvent>, i: nat)
    requires TracerRuns.Playable(es) && 0 < i < |TracerRuns.RunOf(es).t.calls|
    ensures var calls := TracerRuns.RunOf(es).t.calls;
            && PlacedAt(calls, i) && calls[0].compactPosition == []
            && var p, k := calls[i].parent.value, calls[i].position[|calls[i].position| - 1];
               calls[i].compactPosition ==
               calls[p].compactPosition + if calls[i].precompiled then [] else [|Counted(calls, p, k)|]
  {
    RunCompact(es);
    var calls := TracerRuns.RunOf(es).t.calls;
    assert PlacedAt(calls, i) && CompactAt(calls, i);
    CountIsSize(calls, calls[i].parent.value, calls[i].position[|calls[i].position| - 1]);
  }

  // ---- When precompiled contracts make no calls ----

  predicate Leaves(calls: seq<MsgCall>) {
    forall i :: 0 <= i < |calls| && calls[i].precompiled ==> calls[i].nested == []
  }

  /** The innermost open call that counts. */
  function Counting(t: Tracing): nat
    requires Open(t)
  {
    if t.calls[Top(t)].precompiled && |t.stack| > 1 then t.stack[|t.stack| - 2] else Top(t)
  }

  /** Where the next call that counts would go. */
  function NextCompact(t: Tracing): Position
    requires Stacked(t)
  {
    var c := t.calls[Counting(t)];
    c.compactPosition + [CountCompact(t.calls, c.nested)]
  }

  /** The compact positions of the calls that count grow with time, up to the next one. */
  predicate InOrder(calls: seq<MsgCall>, next: Position) {
    && (forall i, j :: 0 <= i < j < |calls| && !calls[i].precompiled && !calls[j].precompiled ==>
          Order(calls[i].compactPosition, calls[j].compactPosition) < 0)
    && (forall i :: 0 <= i < |calls| && !calls[i].precompiled ==> Order(calls[i].compactPosition, next) < 0)
  }

  predicate Compacted(t: Tracing) {
    Tree(t) && Compact(t.calls) && Leaves(t.calls) && InOrder(t.calls, NextCompact(t))
  }

  lemma EnterNext(t: Tracing, precompiled: bool)
    requires Stacked(t) && Compact(t.calls) && !t.calls[Top(t)].precompiled
    ensures Stacked(EnterStep(t, precompiled))
    ensures NextCompact(EnterStep(t, precompiled)) == NextCompact(t) + if precompiled then [] else [0]
    ensures !precompiled ==> GenChild(t, precompiled).compactPosition == NextCompact(t)
  {
    var t', top := EnterStep(t, precompiled), Top(t);
    EnterStacked(t, precompiled);
    if precompiled {
      var nested := t.calls[top].nested;
      assert nested[..|nested|] == nested && t'.calls[top].nested[..|nested|] == nested;
      CountKept(t, precompiled, top, |nested|);
      assert Counting(t') == top;
    }
  }

  lemma InOrderMore(calls: seq<MsgCall>, next: Position, calls': seq<MsgCall>, next': Position)
    requires InOrder(calls, next) && |calls'| == |calls| + 1
    requires forall i :: 0 <= i < |calls| ==>
               calls'[i].compactPosition == calls[i].compactPosition && calls'[i].precompiled == calls[i].precompiled
    requires var c := calls'[|calls|]; if c.precompiled then next' == next else c.compactPosition == next && next' == next + [0]
    ensures InOrder(calls', next')
  {
    PrefixFirst(next, [0]);
    forall i | 0 <= i < |calls'| && !calls'[i].precompiled ensures Order(calls'[i].compactPosition, next') < 0 {
      if i < |calls| && next' != next {
        OrderTransitive(calls[i].compactPosition, next, next');
      }
    }
  }

  lemma EnterInOrder(t: Tracing, precompiled: bool)
    requires Stacked(t) && Compact(t.calls) && InOrder(t.calls, NextCompact(t)) && !t.calls[Top(t)].precompiled
    ensures var t' := EnterStep(t, precompiled); Stacked(t') && InOrder(t'.calls, NextCompact(t'))
  {
    EnterNext(t, precompiled);
    var t' := EnterStep(t, precompiled);
    assert t'.calls[|t.calls|] == GenChild(t, precompiled);
    assert NextCompact(t) + [] == NextCompact(t);
    InOrderMore(t.calls, NextCompact(t), t'.calls, NextCompact(t'));
  }

  lemma EnterCompacted(t: Tracing, precompiled: bool)
    requires Compacted(t) && !t.calls[Top(t)].precompiled
    ensures Compacted(EnterStep(t, precompiled))
  {
    EnterTree(t, precompiled);
    EnterCompact(t, precompiled);
    EnterInOrder(t, precompiled);
  }

  lemma StateCompacted(t: Tracing, pc: nat, op: BasicBlocks.OpCode, fault: bool)
    requires Compacted(t) && CanStep(t, CaptureState(pc, op, fault))
    ensures Compacted(StateStep(t, pc, op, fault))
  {
    var t' := StateStep(t, pc, op, fault);
    StateTree(t, pc, op, fault);
    assert t'.calls == t.calls && t'.stack == t.stack;
    assert NextCompact(t') == NextCompact(t);
  }

  /** The next call after leaving one comes after whatever would have come next inside it. */
  lemma ExitNext(t: Tracing)
    requires Tree(t) && Compact(t.calls) && Leaves(t.calls) && |t.stack| > 1
    ensures Stacked(ExitStep(t))
    ensures NextCompact(ExitStep(t)) == NextCompact(t) || Order(NextCompact(t), NextCompact(ExitStep(t))) < 0
  {
    var n := |t.stack| - 1;
    var top, caller := t.stack[n], t.stack[n - 1];
    ExitTree(t);
    var nested := t.calls[caller].nested;
    var k := |nested| - 1;
    assert ChildAt(t.calls, caller, k);
    if !t.calls[top].precompiled {
      assert PlacedAt(t.calls, top) && CompactAt(t.calls, top);
      SiblingFirst(t.calls[caller].compactPosition, CountCompact(t.calls, nested[..k]),
                   [CountCompact(t.calls, t.calls[top].nested)], CountCompact(t.calls, nested));
    }
  }

  lemma ExitCompacted(t: Tracing)
    requires Compacted(t) && |t.stack| > 1
    ensures Compacted(ExitStep(t))
  {
    var t' := ExitStep(t);
    ExitTree(t);
    ExitNext(t);
    forall i | 0 <= i < |t.calls| && !t.calls[i].precompiled ensures Order(t.calls[i].compactPosition, NextCompact(t')) < 0 {
      if NextCompact(t') != NextCompact(t) {
        OrderTransitive(t.calls[i].compactPosition, NextCompact(t), NextCompact(t'));
      }
    }
  }

  /** No call is entered from one to a precompiled contract. */
  predicate NoneFromPrecompiled(es: seq<TraceEvent>)
    requires TracerRuns.Playable(es)
  {
    es == [] ||
    (&& NoneFromPrecompiled(es[..|es| - 1])
     && var t := TracerRuns.RunOf(es[..|es| - 1]).t;
        es[|es| - 1].CaptureEnter? ==> !t.calls[Top(t)].precompiled)
  }

  lemma StepCompacted(t: Tracing, e: TraceEvent)
    requires Compacted(t) && CanStep(t, e) && (e.CaptureEnter? ==> !t.calls[Top(t)].precompiled)
    ensures Compacted(Step(t, e))
  {
    match e {
      case CaptureState(pc, op, fault) => StateCompacted(t, pc, op, fault);
      case CaptureEnter(precompiled) => EnterCompacted(t, precompiled);
      case CaptureExit => ExitCompacted(t);
    }
  }

  lemma {:induction false} RunCompacted(es: seq<TraceEvent>)
    requires TracerRuns.Playable(es) && NoneFromPrecompiled(es)
    ensures Compacted(TracerRuns.RunOf(es).t)
  {
    if es != [] {
      var r, e := TracerRuns.RunOf(es[..|es| - 1]), es[|es| - 1];
      RunCompacted(es[..|es| - 1]);
      TracerRuns.StepReached(r, e);
      StepCompacted(r.t, e);
    }
  }

  /** Compact positions tell the calls that count apart, and order them by the time they were entered. */
  lemma CompactByTime(es: seq<TraceEvent>, i: nat, j: nat)
    requires TracerRuns.Playable(es) && NoneFromPrecompiled(es)
    requires var calls := TracerRuns.RunOf(es).t.calls;
             i < |calls| && j < |calls| && !calls[i].precompiled && !calls[j].precompiled
    ensures var calls := TracerRuns.RunOf(es).t.calls;
            var p, q := calls[i].compactPosition, calls[j].compactPosition;
            (Order(p, q) < 0 <==> i < j) && (p == q <==> i == j)
  {
    RunCompacted(es);
    var calls := TracerRuns.RunOf(es).t.calls;
    var p, q := calls[i].compactPosition, calls[j].compactPosition;
    OrderTurns(p, q);
    OrderZero(p, q);
  }
}
