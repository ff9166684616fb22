/**
 Whole transactions through the nested call tracer: what holds of the tree of calls and of every
 call's blocks after any sequence of events, and the tracer in place.
 */
module TracerRuns {
  import opened Chain
  import opened CallPositions
  import BasicBlocks
  import opened NestedCalls

  // ---- Runs ----

  /** What one call has done, told apart from the tracer: the locations it executed, the calls it entered, and how it failed. */
  datatype Log = Log(events: seq<BasicBlocks.Event>, fault: Option<BasicBlocks.Location>)

  datatype Run = Run(t: Tracing, logs: seq<Log>)

  /** A call that has failed does nothing more; the root does not exit. */
  predicate Possible(r: Run, e: TraceEvent) {
    && Open(r.t) && |r.logs| == |r.t.calls|
    && (if e.CaptureExit? then |r.t.stack| > 1 else r.logs[Top(r.t)].fault == None)
  }

  function Logged(log: Log, e: TraceEvent, l: BasicBlocks.Location): Log {
    match e
    case CaptureState(_, _, fault) =>
      if fault then log.(fault := Some(l)) else log.(events := log.events + [BasicBlocks.Execute(l)])
    case CaptureEnter(_) => log.(events := log.events + [BasicBlocks.Enter])
    case CaptureExit => log
  }

  function LogStep(r: Run, e: TraceEvent): seq<Log>
    requires Possible(r, e)
  {
    var top := Top(r.t);
    var l := if e.CaptureState? then LocationOf(r.t, e.pc, e.op) else BasicBlocks.Location(0, BasicBlocks.STOP, 0);
    r.logs[top := Logged(r.logs[top], e, l)] + if e.CaptureEnter? then [Log([], None)] else []
  }

  /** The tracer's blocks of a call are those its own events build, closed by the failing location if there is one. */
  predicate Built(d: BasicBlocks.Data, log: Log, nested: nat) {
    && d == (if log.fault == None then BasicBlocks.Build(log.events)
             else BasicBlocks.FaultStep(BasicBlocks.Build(log.events), log.fault.value))
    && |d.paths| == nested + 1
  }

  predicate Reached(r: Run) {
    && Tree(r.t) && |r.logs| == |r.t.calls|
    && forall i :: 0 <= i < |r.t.calls| ==> Built(r.t.traces[i], r.logs[i], |r.t.calls[i].nested|)
  }

  /** Neither panic can happen: what is possible, the tracer can do. */
  lemma NeverPanics(r: Run, e: TraceEvent)
    requires Reached(r) && Possible(r, e)
    ensures CanStep(r.t, e)
  {
    if e.CaptureState? {
      assert Built(r.t.traces[Top(r.t)], r.logs[Top(r.t)], |r.t.calls[Top(r.t)].nested|);
      BasicBlocks.ExecuteBuilds(r.t.traces[Top(r.t)], LocationOf(r.t, e.pc, e.op));
    }
  }

  lemma StateBuilt(d: BasicBlocks.Data, log: Log, nested: nat, l: BasicBlocks.Location, fault: bool)
    requires Built(d, log, nested) && log.fault == None
    ensures !BasicBlocks.Panics(d, l)
    ensures Built(if fault then BasicBlocks.FaultStep(d, l) else BasicBlocks.ExecuteStep(d, l),
                  if fault then log.(fault := Some(l)) else log.(events := log.events + [BasicBlocks.Execute(l)]), nested)
  {
    BasicBlocks.BuildMore(log.events, BasicBlocks.Execute(l));
    BasicBlocks.ExecuteBuilds(d, l);
    BasicBlocks.FaultRecords(d, l);
  }

  lemma EnterBuilt(d: BasicBlocks.Data, log: Log, nested: nat)
    requires Built(d, log, nested) && log.fault == None
    ensures Built(BasicBlocks.NextTrace(d), log.(events := log.events + [BasicBlocks.Enter]), nested + 1)
  {
    BasicBlocks.BuildMore(log.events, BasicBlocks.Enter);
  }

  lemma StateReached(r: Run, pc: nat, op: BasicBlocks.OpCode, fault: bool)
    requires var e := CaptureState(pc, op, fault); Reached(r) && Possible(r, e) && CanStep(r.t, e)
    ensures var e := CaptureState(pc, op, fault); Reached(Run(Step(r.t, e), LogStep(r, e)))
  {
    var top := Top(r.t);
    assert Built(r.t.traces[top], r.logs[top], |r.t.calls[top].nested|);
    StateTree(r.t, pc, op, fault);
    StateBuilt(r.t.traces[top], r.logs[top], |r.t.calls[top].nested|, LocationOf(r.t, pc, op), fault);
  }

  lemma EnterReached(r: Run, precompiled: bool)
    requires var e := CaptureEnter(precompiled); Reached(r) && Possible(r, e)
    ensures var e := CaptureEnter(precompiled); Reached(Run(Step(r.t, e), LogStep(r, e)))
  {
    var top := Top(r.t);
    assert Built(r.t.traces[top], r.logs[top], |r.t.calls[top].nested|);
    EnterTree(r.t, precompiled);
    EnterBuilt(r.t.traces[top], r.logs[top], |r.t.calls[top].nested|);
    assert BasicBlocks.Build([]) == BasicBlocks.NewData;
  }

  /** Every event keeps the tree and the blocks. */
  lemma StepReached(r: Run, e: TraceEvent)
    requires Reached(r) && Possible(r, e)
    ensures CanStep(r.t, e) && Reached(Run(Step(r.t, e), LogStep(r, e)))
  {
    NeverPanics(r, e);
    match e {
      case CaptureState(pc, op, fault) => StateReached(r, pc, op, fault);
      case CaptureEnter(precompiled) => EnterReached(r, precompiled);
      case CaptureExit =>
        ExitTree(r.t);
        assert LogStep(r, e) == r.logs;
    }
  }

  predicate Playable(es: seq<TraceEvent>)
    decreases |es|, 0
  {
    es == [] || (Playable(es[..|es| - 1]) && Possible(RunOf(es[..|es| - 1]), es[|es| - 1]))
  }

  /** The tracer and the logs after any sequence of possible events; whatever holds of reached states holds of it. */
  function RunOf(es: seq<TraceEvent>): (r: Run)
    requires Playable(es)
    ensures Reached(r)
    decreases |es|, 1
  {
    if es == [] then (StartTree(); Run(StartTracing(), [Log([], None)]))
    else
      var r, e := RunOf(es[..|es| - 1]), es[|es| - 1];
      StepReached(r, e);
      Run(Step(r.t, e), LogStep(r, e))
  }

  // ---- What holds of every state a run reaches ----

  /** Positions tell calls apart, and order them by the time they were entered. */
  lemma PositionsByTime(r: Run, i: nat, j: nat)
    requires Reached(r) && i < |r.t.calls| && j < |r.t.calls|
    ensures var p, q := r.t.calls[i].position, r.t.calls[j].position;
            && (Order(p, q) < 0 <==> i < j) && (Order(p, q) == 0 <==> i == j) && (p == q <==> i == j)
  {
    var p, q := r.t.calls[i].position, r.t.calls[j].position;
    OrderTurns(p, q);
    OrderZero(p, q);
  }

  /** How many operations the events report. */
  function Operations(es: seq<TraceEvent>): nat {
    if es == [] then 0 else Operations(es[..|es| - 1]) + if es[|es| - 1].CaptureState? then 1 else 0
  }

  /** Operations are numbered through, over all calls, in the order they execute. */
  lemma {:induction false} OperationsNumbered(es: seq<TraceEvent>)
    requires Playable(es)
    ensures RunOf(es).t.totalOperations == Operations(es)
  {
    if es != [] {
      OperationsNumbered(es[..|es| - 1]);
      StepReached(RunOf(es[..|es| - 1]), es[|es| - 1]);
    }
  }

  /** A call without a failure has recorded, segment count and all, just what it executed; a failing one has lost its last location at most. */
  lemma CallRecords(r: Run, i: nat)
    requires Reached(r) && i < |r.t.calls|
    ensures var d, log := r.t.traces[i], r.logs[i];
            var executed := BasicBlocks.Flatten(BasicBlocks.Executed(log.events));
            && |d.paths| == |r.t.calls[i].nested| + 1
            && (log.fault == None ==> BasicBlocks.WellCut(d) && BasicBlocks.Recorded(d) == executed)
            && (log.fault.Some? ==>
                  d.blk == None && BasicBlocks.Recorded(d) ==
                  executed + if BasicBlocks.Build(log.events).blk.Some? then [log.fault.value] else [])
  {
    assert Built(r.t.traces[i], r.logs[i], |r.t.calls[i].nested|);
    BasicBlocks.BuildRecords(r.logs[i].events);
    if r.logs[i].fault.Some? {
      BasicBlocks.FaultRecords(BasicBlocks.Build(r.logs[i].events), r.logs[i].fault.value);
    }
  }

  // ---- The tracer in place ----

  class NestedCallTracer {
    var calls: seq<MsgCall>
    var msgCallStack: seq<nat>
    var inner: seq<BasicBlocks.DataWithTrace>
    var totalOperations: nat

    /** TransactionStart. */
    constructor ()
      ensures Valid() && View() == StartTracing() && fresh(inner)
    {
      var d := new BasicBlocks.DataWithTrace();
      calls := [MsgCall([], [], false, None, [])];
      msgCallStack := [0];
      inner := [d];
      totalOperations := 0;
    }

    /** Every call has its own data. */
    ghost predicate Valid()
      reads this
    {
      |inner| == |calls| && forall i, j :: 0 <= i < j < |inner| ==> inner[i] != inner[j]
    }

    ghost function View(): Tracing
      reads this, inner
    {
      Tracing(calls, msgCallStack,
              seq(|inner|, i requires 0 <= i < |inner| reads this, inner => inner[i].View()), totalOperations)
    }

    method CaptureState(pc: nat, op: BasicBlocks.OpCode, fault: bool)
      requires Valid() && CanStep(View(), TraceEvent.CaptureState(pc, op, fault)) && inner[msgCallStack[|msgCallStack| - 1]].paths != []
      modifies this`totalOperations, inner[msgCallStack[|msgCallStack| - 1]]
      ensures Valid() && View() == StateStep(old(View()), pc, op, fault)
    {
      var top := msgCallStack[|msgCallStack| - 1];
      var l := BasicBlocks.Location(pc, op, totalOperations);
      totalOperations := totalOperations + 1;
      assert View().traces[top] == inner[top].View();
      if fault {
        inner[top].CaptureFault(l);
      } else {
        inner[top].CaptureState(l);
      }
      assert View().traces == StateStep(old(View()), pc, op, fault).traces;
    }

    method GenChildPosition(precompiled: bool) returns (position: Position, compactPosition: Position)
      requires Valid() && Open(View())
      ensures position == GenChild(View(), precompiled).position
      ensures compactPosition == GenChild(View(), precompiled).compactPosition
    {
      var parent := calls[msgCallStack[|msgCallStack| - 1]];
      position := parent.position + [|parent.nested|];
      compactPosition := parent.compactPosition;
      if !precompiled {
        compactPosition := compactPosition + [CountCompact(calls, parent.nested)];
      }
    }

    method CaptureEnter(precompiled: bool)
      requires Valid() && Open(View())
      modifies this`calls, this`msgCallStack, this`inner, inner[msgCallStack[|msgCallStack| - 1]]
      ensures Valid() && View() == EnterStep(old(View()), precompiled)
      ensures |inner| == |old(inner)| + 1 && inner[..|old(inner)|] == old(inner) && fresh(inner[|old(inner)|])
    {
      var top, n := msgCallStack[|msgCallStack| - 1], |calls|;
      ghost var before := View();
      inner[top].OpenNextTrace();
      var position, compactPosition := GenChildPosition(precompiled);
      var d := new BasicBlocks.DataWithTrace();
      calls := calls[top := calls[top].(nested := calls[top].nested + [n])]
        + [MsgCall(position, compactPosition, precompiled, Some(top), [])];
      msgCallStack := msgCallStack + [n];
      inner := inner + [d];
      assert View().traces == EnterStep(before, precompiled).traces;
    }

    method CaptureExit()
      requires |msgCallStack| > 1
      modifies this`msgCallStack
      ensures View() == ExitStep(old(View())) && calls == old(calls) && inner == old(inner)
    {
      msgCallStack := msgCallStack[..|msgCallStack| - 1];
    }
  }
}
