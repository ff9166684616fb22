/**
 Cutting the locations one message call executes into basic blocks, in one segment before the first
 nested call and one after each nested call.
 */
module BasicBlocks {
  import opened Chain

  datatype OpCode =
    | JUMPDEST | JUMP | JUMPI | RETURN | STOP | INVALID | REVERT | SELFDESTRUCT
    | CREATE | CREATE2 | CALL | CALLCODE | DELEGATECALL | STATICCALL | Other(code: nat)

  datatype Location = Location(pc: nat, opcode: OpCode, index: nat)

  type Block = seq<Location>
  type Trace = seq<Block>

  predicate IsBasicBlockTail(l: Location) {
    !l.opcode.JUMPDEST? && !l.opcode.Other?
  }

  predicate IsBasicBlockHead(previous: Option<Location>, current: Location) {
    previous == None || IsBasicBlockTail(previous.value) || current.opcode == JUMPDEST
  }

  /** The last location executed, the block being built, and the finished blocks by segment. */
  datatype Data = Data(loc: Option<Location>, blk: Option<Block>, paths: seq<Trace>)

  const NewData := Data(None, None, [[]])

  function AppendBlock(d: Data, b: Block): Data {
    if d.paths == [] then d.(paths := [[b]])
    else d.(paths := d.paths[..|d.paths| - 1] + [d.paths[|d.paths| - 1] + [b]])
  }

  /** Whether the tracer would stop with "unexpected basic block tail" or "opcode outside of basic block". */
  predicate Panics(d: Data, l: Location) {
    !IsBasicBlockHead(d.loc, l) && d.blk == None
  }

  /** A location about to execute. */
  function ExecuteStep(d: Data, l: Location): Data
    requires !Panics(d, l)
  {
    if IsBasicBlockHead(d.loc, l) then
      (if d.blk.Some? then AppendBlock(d, d.blk.value) else d).(loc := Some(l), blk := Some([l]))
    else if IsBasicBlockTail(l) then
      AppendBlock(d, d.blk.value + [l]).(loc := Some(l), blk := None)
    else
      d.(loc := Some(l), blk := Some(d.blk.value + [l]))
  }

  /** A location that fails before it executes closes the block under way, whatever its opcode. */
  function FaultStep(d: Data, l: Location): Data {
    if d.blk.Some? then AppendBlock(d, d.blk.value + [l]).(blk := None) else d
  }

  function NextTrace(d: Data): Data {
    d.(paths := d.paths + [[]])
  }

  // ---- The same in place ----

  class DataWithTrace {
    var loc: Option<Location>
    var blk: Option<Block>
    var paths: seq<Trace>

    constructor ()
      ensures View() == NewData
    {
      loc, blk, paths := None, None, [[]];
    }

    function View(): Data
      reads this
    {
      Data(loc, blk, paths)
    }

    method AppendBasicBlock(b: Block)
      requires paths != []
      modifies this`paths
      ensures View() == AppendBlock(old(View()), b)
    {
      paths := paths[|paths| - 1 := paths[|paths| - 1] + [b]];
    }

    method OpenNextTrace()
      modifies this`paths
      ensures View() == NextTrace(old(View()))
    {
      paths := paths + [[]];
    }

    method CaptureFault(l: Location)
      requires paths != []
      modifies this
      ensures View() == FaultStep(old(View()), l)
    {
      if blk.Some? {
        AppendBasicBlock(blk.value + [l]);
        blk := None;
      }
    }

    method CaptureState(l: Location)
      requires paths != [] && !Panics(View(), l)
      modifies this
      ensures View() == ExecuteStep(old(View()), l)
    {
      if IsBasicBlockHead(loc, l) {
        if blk.Some? {
          AppendBasicBlock(blk.value);
        }
        blk := Some([l]);
      } else if IsBasicBlockTail(l) {
        AppendBasicBlock(blk.value + [l]);
        blk := None;
      } else {
        blk := Some(blk.value + [l]);
      }
      loc := Some(l);
    }
  }

  // ---- What is built ----

  function Flatten<T>(s: seq<seq<T>>): seq<T> {
    if s == [] then [] else Flatten(s[..|s| - 1]) + s[|s| - 1]
  }

  lemma FlattenAppend<T>(s: seq<seq<T>>, x: seq<T>)
    ensures Flatten(s + [x]) == Flatten(s) + x
  {
    assert (s + [x])[..|s|] == s;
  }

  /** Nothing jumps out of a block before its end or into it after its start. */
  predicate Straight(b: Block) {
    && b != [] && (forall i :: 0 <= i < |b| - 1 ==> !IsBasicBlockTail(b[i]))
    && (forall i :: 0 < i < |b| ==> b[i].opcode != JUMPDEST)
  }

  /** The block under way: if it may not go on, it is a tail on its own. */
  predicate WellCut(d: Data) {
    && d.paths != []
    && (forall t :: t in d.paths ==> forall b :: b in t ==> Straight(b))
    && (d.blk == None ==> d.loc == None || IsBasicBlockTail(d.loc.value))
    && (d.blk.Some? ==> Straight(d.blk.value) && d.loc == Some(d.blk.value[|d.blk.value| - 1]))
    && (d.blk.Some? && IsBasicBlockTail(d.loc.value) ==> |d.blk.value| == 1)
  }

  function Current(d: Data): Block {
    if d.blk.Some? then d.blk.value else []
  }

  function Recorded(d: Data): seq<Location> {
    Flatten(Flatten(d.paths)) + Current(d)
  }

  lemma AppendRecords(d: Data, b: Block)
    requires d.paths != []
    ensures Flatten(Flatten(AppendBlock(d, b).paths)) == Flatten(Flatten(d.paths)) + b
  {
    var n := |d.paths| - 1;
    var last := d.paths[n];
    FlattenAppend(d.paths[..n], last + [b]);
    FlattenAppend(Flatten(d.paths[..n]) + last, b);
    assert d.paths == d.paths[..n] + [last];
    assert Flatten(d.paths[..n]) + (last + [b]) == Flatten(d.paths[..n]) + last + [b];
  }

  lemma AppendCuts(d: Data, b: Block)
    requires WellCut(d) && Straight(b)
    ensures var d' := AppendBlock(d, b); d'.paths != [] && forall t :: t in d'.paths ==> forall x :: x in t ==> Straight(x)
  {
    var n := |d.paths| - 1;
    assert d.paths[n] in d.paths;
    forall t, x | t in AppendBlock(d, b).paths && x in t ensures Straight(x) {
      if t !in d.paths {
        assert x in d.paths[n] || x == b;
      }
    }
  }

  /** No location makes the tracer panic; every location executed is recorded, in order, in straight blocks. */
  lemma ExecuteBuilds(d: Data, l: Location)
    requires WellCut(d)
    ensures !Panics(d, l)
    ensures WellCut(ExecuteStep(d, l)) && Recorded(ExecuteStep(d, l)) == Recorded(d) + [l]
    ensures ExecuteStep(d, l).loc == Some(l) && |ExecuteStep(d, l).paths| == |d.paths|
  {
    ExecuteCuts(d, l);
    if IsBasicBlockHead(d.loc, l) {
      if d.blk.Some? {
        AppendRecords(d, d.blk.value);
      }
    } else if IsBasicBlockTail(l) {
      AppendRecords(d, d.blk.value + [l]);
    }
  }

  lemma ExecuteCuts(d: Data, l: Location)
    requires WellCut(d)
    ensures !Panics(d, l) && WellCut(ExecuteStep(d, l))
  {
    if IsBasicBlockHead(d.loc, l) {
      if d.blk.Some? {
        AppendCuts(d, d.blk.value);
      }
    } else if IsBasicBlockTail(l) {
      AppendCuts(d, d.blk.value + [l]);
    }
  }

  /** A location that fails is recorded exactly if a block is under way. */
  lemma FaultRecords(d: Data, l: Location)
    requires d.paths != []
    ensures FaultStep(d, l).blk == None && |FaultStep(d, l).paths| == |d.paths|
    ensures Recorded(FaultStep(d, l)) == Recorded(d) + if d.blk.Some? then [l] else []
  {
    if d.blk.Some? {
      AppendRecords(d, d.blk.value + [l]);
    }
  }

  lemma NextTraceBuilds(d: Data)
    requires WellCut(d)
    ensures WellCut(NextTrace(d)) && Recorded(NextTrace(d)) == Recorded(d) && |NextTrace(d).paths| == |d.paths| + 1
  {
    FlattenAppend(d.paths, []);
    assert Flatten(d.paths) + [] == Flatten(d.paths);
  }

  // ---- Runs of one call ----

  datatype Event = Execute(l: Location) | Enter

  /** Entering a nested call opens the next segment of the calling one. */
  function Step(d: Data, e: Event): Data
    requires e.Execute? ==> !Panics(d, e.l)
  {
    if e.Execute? then ExecuteStep(d, e.l) else NextTrace(d)
  }

  function Build(es: seq<Event>): (d: Data)
    ensures WellCut(d)
  {
    if es == [] then NewData
    else
      var d := Build(es[..|es| - 1]);
      BuildStep(d, es[|es| - 1]);
      Step(d, es[|es| - 1])
  }

  lemma BuildStep(d: Data, e: Event)
    requires WellCut(d)
    ensures (e.Execute? ==> !Panics(d, e.l)) && WellCut(Step(d, e))
  {
    if e.Execute? {
      ExecuteBuilds(d, e.l);
    } else {
      NextTraceBuilds(d);
    }
  }

  /** What was executed between the nested calls. */
  function Executed(es: seq<Event>): (segments: seq<seq<Location>>)
    ensures segments != []
  {
    if es == [] then [[]]
    else
      var s, e := Executed(es[..|es| - 1]), es[|es| - 1];
      if e.Enter? then s + [[]] else s[|s| - 1 := s[|s| - 1] + [e.l]]
  }

  lemma ExecutedStep(s: seq<seq<Location>>, l: Location)
    requires s != []
    ensures Flatten(s[|s| - 1 := s[|s| - 1] + [l]]) == Flatten(s) + [l]
  {
    var n := |s| - 1;
    assert s[n := s[n] + [l]] == s[..n] + [s[n] + [l]];
    FlattenAppend(s[..n], s[n] + [l]);
    assert s == s[..n] + [s[n]];
  }

  /**
   Over any run of a call: one segment more than nested calls, and the finished blocks with the block
   under way are exactly the locations executed.
   */
  lemma {:induction false} BuildRecords(es: seq<Event>)
    ensures var d := Build(es); |d.paths| == |Executed(es)| && Recorded(d) == Flatten(Executed(es))
  {
    if es != [] {
      var n := |es| - 1;
      BuildRecords(es[..n]);
      if es[n].Execute? {
        ExecuteBuilds(Build(es[..n]), es[n].l);
        ExecutedStep(Executed(es[..n]), es[n].l);
      } else {
        NextTraceBuilds(Build(es[..n]));
        FlattenAppend(Executed(es[..n]), []);
      }
    }
  }

  // ---- Segment by segment ----

  /** No nested call is entered with a block still under way. */
  predicate CleanEnters(es: seq<Event>) {
    es == [] || (CleanEnters(es[..|es| - 1]) && (es[|es| - 1].Enter? ==> Build(es[..|es| - 1]).blk == None))
  }

  /** The blocks of every finished segment are what was executed in it. */
  predicate SegmentsMatch(es: seq<Event>) {
    var d, s := Build(es), Executed(es);
    |d.paths| == |s| && forall k :: 0 <= k < |s| - 1 ==> Flatten(d.paths[k]) == s[k]
  }

  predicate LastMatches(es: seq<Event>) {
    var d, s := Build(es), Executed(es);
    d.paths != [] && Flatten(d.paths[|d.paths| - 1]) + Current(d) == s[|s| - 1]
  }

  lemma AppendLast(d: Data, b: Block)
    requires d.paths != []
    ensures var p := AppendBlock(d, b).paths;
            && |p| == |d.paths| && Flatten(p[|p| - 1]) == Flatten(d.paths[|d.paths| - 1]) + b
            && forall k :: 0 <= k < |p| - 1 ==> p[k] == d.paths[k]
  {
    FlattenAppend(d.paths[|d.paths| - 1], b);
  }

  lemma ExecuteLast(d: Data, l: Location)
    requires WellCut(d) && !Panics(d, l)
    ensures var d' := ExecuteStep(d, l); var n := |d.paths| - 1;
            && |d'.paths| == |d.paths| && Flatten(d'.paths[n]) + Current(d') == Flatten(d.paths[n]) + Current(d) + [l]
            && forall k :: 0 <= k < n ==> d'.paths[k] == d.paths[k]
  {
    if IsBasicBlockHead(d.loc, l) {
      if d.blk.Some? {
        AppendLast(d, d.blk.value);
      }
    } else if IsBasicBlockTail(l) {
      AppendLast(d, d.blk.value + [l]);
    }
  }

  /**
   Segments hold exactly what was executed between the nested calls if and only if no nested call is
   entered with a block under way. A calling opcode that is a block head of its own, straight after
   another tail opcode, stays under way, and goes to the segment after the call.
   */
  lemma {:induction false} SegmentsExact(es: seq<Event>)
    ensures CleanEnters(es) <==> SegmentsMatch(es)
    ensures CleanEnters(es) ==> LastMatches(es)
  {
    if es != [] {
      var n := |es| - 1;
      SegmentsExact(es[..n]);
      if es[n].Execute? {
        SegmentsAfterExecute(es);
      } else {
        SegmentsAfterEnter(es);
      }
    }
  }

  lemma SegmentsAfterExecute(es: seq<Event>)
    requires es != [] && es[|es| - 1].Execute?
    ensures SegmentsMatch(es) == SegmentsMatch(es[..|es| - 1])
    ensures LastMatches(es[..|es| - 1]) ==> LastMatches(es)
  {
    var n := |es| - 1;
    var d, s := Build(es[..n]), Executed(es[..n]);
    BuildRecords(es[..n]);
    BuildRecords(es);
    ExecuteLast(d, es[n].l);
    SegmentsGrow(d.paths, s, Build(es).paths, Executed(es));
  }

  /** Whether the finished segments match does not depend on the last one. */
  lemma SegmentsGrow(p: seq<Trace>, s: seq<seq<Location>>, p': seq<Trace>, s': seq<seq<Location>>)
    requires |p| == |s| == |p'| == |s'|
    requires forall k :: 0 <= k < |s| - 1 ==> p'[k] == p[k] && s'[k] == s[k]
    ensures (forall k :: 0 <= k < |s| - 1 ==> Flatten(p[k]) == s[k]) == (forall k :: 0 <= k < |s'| - 1 ==> Flatten(p'[k]) == s'[k])
  {
  }

  lemma EnterMatches(es: seq<Event>)
    requires es != [] && es[|es| - 1].Enter?
    ensures var n := |es| - 1; var d, s := Build(es[..n]), Executed(es[..n]);
            && |d.paths| == |s|
            && SegmentsMatch(es) == (SegmentsMatch(es[..n]) && Flatten(d.paths[|s| - 1]) == s[|s| - 1])
  {
    var n := |es| - 1;
    BuildRecords(es[..n]);
    SegmentsOneMore(Build(es[..n]).paths, Executed(es[..n]), Build(es).paths, Executed(es));
  }

  /** Entering a nested call finishes the last segment, which matches unless a block is under way. */
  lemma SegmentsAfterEnter(es: seq<Event>)
    requires es != [] && es[|es| - 1].Enter?
    ensures SegmentsMatch(es) ==> SegmentsMatch(es[..|es| - 1])
    ensures LastMatches(es[..|es| - 1]) ==>
              SegmentsMatch(es) == (SegmentsMatch(es[..|es| - 1]) && Build(es[..|es| - 1]).blk == None)
    ensures Build(es[..|es| - 1]).blk == None ==> LastMatches(es)
  {
    EnterMatches(es);
  }

  lemma SegmentsOneMore(p: seq<Trace>, s: seq<seq<Location>>, p': seq<Trace>, s': seq<seq<Location>>)
    requires |p| == |s| >= 1 && p' == p + [[]] && s' == s + [[]]
    ensures (forall k :: 0 <= k < |s'| - 1 ==> Flatten(p'[k]) == s'[k]) ==
            ((forall k :: 0 <= k < |s| - 1 ==> Flatten(p[k]) == s[k]) && Flatten(p[|s| - 1]) == s[|s| - 1])
  {
    assert forall k :: 0 <= k < |s| ==> p'[k] == p[k] && s'[k] == s[k];
    if forall k :: 0 <= k < |s'| - 1 ==> Flatten(p'[k]) == s'[k] {
      forall k | 0 <= k < |s| ensures Flatten(p[k]) == s[k] {
        assert Flatten(p'[k]) == s'[k];
      }
    }
  }

  /** When a call is entered right after its opcode, the block is under way exactly if that opcode started it. */
  lemma UnderWayAfterTail(d: Data, l: Location)
    requires WellCut(d) && IsBasicBlockTail(l)
    ensures !Panics(d, l) && (ExecuteStep(d, l).blk.Some? <==> IsBasicBlockHead(d.loc, l))
  {
  }

  /** The location executed last. */
  function LastLocation(es: seq<Event>): Option<Location> {
    if es == [] then None
    else if es[|es| - 1].Execute? then Some(es[|es| - 1].l) else LastLocation(es[..|es| - 1])
  }

  lemma {:induction false} BuildLast(es: seq<Event>)
    ensures Build(es).loc == LastLocation(es)
  {
    if es != [] {
      var n := |es| - 1;
      BuildLast(es[..n]);
      if es[n].Execute? {
        ExecuteBuilds(Build(es[..n]), es[n].l);
      }
    }
  }

  /** A nested call is entered right after a calling opcode, which is a tail. */
  predicate EnteredByTail(es: seq<Event>) {
    var n := |es| - 1;
    n >= 0 && es[n].Enter? ==> n > 0 && es[n - 1].Execute? && IsBasicBlockTail(es[n - 1].l)
  }

  predicate AllEnteredByTail(es: seq<Event>) {
    EnteredByTail(es) && (es != [] ==> AllEnteredByTail(es[..|es| - 1]))
  }

  /** The opcode that enters the nested call is a block of its own: it comes straight after a tail, or first. */
  predicate LoneCall(es: seq<Event>) {
    var n := |es| - 1;
    n > 0 && es[n].Enter? && es[n - 1].Execute? && IsBasicBlockHead(LastLocation(es[..n - 1]), es[n - 1].l)
  }

  predicate NoLoneCall(es: seq<Event>) {
    !LoneCall(es) && (es != [] ==> NoLoneCall(es[..|es| - 1]))
  }

  lemma {:induction false} CleanByOpcode(es: seq<Event>)
    requires AllEnteredByTail(es)
    ensures CleanEnters(es) <==> NoLoneCall(es)
  {
    if es != [] {
      var n := |es| - 1;
      CleanByOpcode(es[..n]);
      if es[n].Enter? {
        var before, l := es[..n - 1], es[n - 1].l;
        assert es[..n][..n - 1] == before && es[..n][n - 1] == es[n - 1];
        BuildLast(before);
        UnderWayAfterTail(Build(before), l);
      }
    }
  }

  /**
   In the terms of the opcodes: segments hold exactly what was executed between the nested calls if and
   only if no calling opcode comes straight after another tail opcode or as the first of the call.
   */
  lemma SegmentsExactByOpcode(es: seq<Event>)
    requires AllEnteredByTail(es)
    ensures SegmentsMatch(es) <==> NoLoneCall(es)
  {
    SegmentsExact(es);
    CleanByOpcode(es);
  }

  /** A run and one more event. */
  lemma BuildMore(es: seq<Event>, e: Event)
    ensures WellCut(Build(es)) && (e.Execute? ==> !Panics(Build(es), e.l))
    ensures Build(es + [e]) == Step(Build(es), e)
  {
    assert (es + [e])[..|es|] == es;
    BuildStep(Build(es), e);
  }

  lemma ExecutedMore(es: seq<Event>, e: Event)
    ensures var s := Executed(es);
            Executed(es + [e]) == if e.Enter? then s + [[]] else s[..|s| - 1] + [s[|s| - 1] + [e.l]]
  {
    assert (es + [e])[..|es|] == es;
  }

  lemma OneExecuted(a: Location)
    ensures Executed([Execute(a)]) == [[a]] && LastLocation([Execute(a)]) == Some(a)
    ensures Build([Execute(a)]) == ExecuteStep(NewData, a)
  {
    ExecutedMore([], Execute(a));
    BuildMore([], Execute(a));
    assert [] + [Execute(a)] == [Execute(a)] && [] + [a] == [a] && [[]][..0] + [[a]] == [[a]];
  }

  lemma TwoExecuted(a: Location, b: Location)
    ensures Executed([Execute(a), Execute(b)]) == [[a, b]]
    ensures WellCut(ExecuteStep(NewData, a)) && Build([Execute(a), Execute(b)]) == ExecuteStep(ExecuteStep(NewData, a), b)
  {
    OneExecuted(a);
    ExecutedMore([Execute(a)], Execute(b));
    BuildMore([Execute(a)], Execute(b));
    assert [Execute(a)] + [Execute(b)] == [Execute(a), Execute(b)] && [a] + [b] == [a, b];
  }

  /** A conditional jump, a call right after it, and the nested call: the call's location is missing from its segment. */
  lemma LoneCallMisfiled(jump: Location, call: Location)
    requires jump.opcode == JUMPI && call.opcode == CALL
    ensures var es := [Execute(jump), Execute(call), Enter];
            Executed(es) == [[jump, call], []] && !SegmentsMatch(es)
  {
    var before := [Execute(jump), Execute(call)];
    var es := [Execute(jump), Execute(call), Enter];
    OneExecuted(jump);
    TwoExecuted(jump, call);
    ExecutedMore(before, Enter);
    assert before + [Enter] == es;
    assert es[..2] == before && before[..1] == [Execute(jump)] && [Execute(jump)][..0] == [] && es[..1] == [Execute(jump)];
    assert AllEnteredByTail([Execute(jump)]) && AllEnteredByTail(before) && AllEnteredByTail(es);
    assert LoneCall(es);
    SegmentsExactByOpcode(es);
  }

  /** A location that fails right after a finished block is not recorded at all. */
  lemma FaultAfterJumpIsLost(first: Location, jump: Location, failing: Location)
    requires first.opcode.Other? && jump.opcode == JUMP
    ensures var d := Build([Execute(first), Execute(jump)]);
            Recorded(d) == [first, jump] && FaultStep(d, failing) == d
  {
    TwoExecuted(first, jump);
    BuildRecords([Execute(first), Execute(jump)]);
    assert ExecuteStep(NewData, first).loc == Some(first);
    assert Flatten([[first, jump]]) == Flatten([]) + [first, jump] by {
      FlattenAppend([], [first, jump]);
      assert [] + [[first, jump]] == [[first, jump]];
    }
  }
}
