/**
 What one traced operation does to taint: what it taints and what it leaves alone, which jumps and logs
 it reports, and which nodes the node it makes flows from.
 */
module TaintSteps {
  import opened Chain
  import opened FlowNodes
  import opened ShadowMemory
  import opened Evm
  import opened DataFlow

  // ---- What is reported ----

  /** The jump's target or condition is tainted. */
  ghost predicate TaintedJump(ins: Instr, sh: Shadow) {
    && |sh.stack| >= Needs(ins)
    && (ins.Jump? || ins.Jumpi?)
    && AnyTainted(sh, Pops(ins))
  }

  /** Tainted jumps, and no others, are passed to SinkTainted and recorded. */
  lemma TaintedJumpIsReported(shared: Shared, control: FlowNode, self: Address, ins: Instr, words: seq<Word>, sh: Shadow)
    requires WellFormed(ins) && |words| == |sh.stack| >= Needs(ins)
    requires sh.index !in sh.jumps
    ensures sh.index in ShadowStep(shared, control, self, ins, words, sh).jumps <==> TaintedJump(ins, sh)
  {
    assert ShadowStep(shared, control, self, ins, words, sh).jumps == JumpsAfter(control, ins, words, sh);
    if ins.Jump? || ins.Jumpi? {
      OperandsTainted(sh, Pops(ins));
    }
  }

  /** One of the `n` operands from the top is tainted. */
  ghost predicate AnyTainted(sh: Shadow, n: nat)
    requires n <= |sh.stack|
  {
    exists i :: 0 <= i < n && Arg(sh.stack, i) != Untainted
  }

  lemma OperandsTainted(sh: Shadow, n: nat)
    requires n <= |sh.stack|
    ensures Upstream(sh.stack[|sh.stack| - n..]) != {} <==> AnyTainted(sh, n)
  {
    var args := sh.stack[|sh.stack| - n..];
    if i :| 0 <= i < n && Arg(sh.stack, i) != Untainted {
      assert args[n - 1 - i] in Upstream(args);
    }
    if v :| v in Upstream(args) {
      var j :| 0 <= j < n && args[j] == v;
      assert Arg(sh.stack, n - 1 - j) == v;
    }
  }

  /** The log has a tainted topic, or a tainted word holds one of the bytes it logs. */
  ghost predicate TaintedLog(ins: Instr, words: seq<Word>, sh: Shadow) {
    && |words| == |sh.stack| >= Needs(ins)
    && ins.Log?
    && ((exists i :: 2 <= i < Pops(ins) && Arg(sh.stack, i) != Untainted)
        || TaintedBytes(sh.mem, Back(words, 0), Back(words, 1)))
  }

  ghost predicate TaintedBytes(m: Words, start: nat, length: nat) {
    exists b :: start <= b < start + length && At(m, Regulate(b)) != Untainted
  }

  /** Tainted logs, and no others, are passed to SinkTainted and recorded. */
  lemma TaintedLogIsReported(shared: Shared, control: FlowNode, self: Address, ins: Instr, words: seq<Word>, sh: Shadow)
    requires WellFormed(ins) && |words| == |sh.stack| >= Needs(ins)
    requires sh.index !in sh.logs
    ensures sh.index in ShadowStep(shared, control, self, ins, words, sh).logs <==> TaintedLog(ins, words, sh)
  {
    assert ShadowStep(shared, control, self, ins, words, sh).logs == LogsAfter(control, ins, words, sh);
    if ins.Log? {
      TopicsTainted(sh, Pops(ins));
      TouchedIsTaintedBytes(sh.mem, Back(words, 0), Back(words, 1));
    }
  }

  lemma TopicsTainted(sh: Shadow, n: nat)
    requires 2 <= n <= |sh.stack|
    ensures Upstream(sh.stack[|sh.stack| - n..][..n - 2]) != {} <==> exists i :: 2 <= i < n && Arg(sh.stack, i) != Untainted
  {
    var topics := sh.stack[|sh.stack| - n..][..n - 2];
    if i :| 2 <= i < n && Arg(sh.stack, i) != Untainted {
      assert topics[n - 1 - i] in Upstream(topics);
    }
    if v :| v in Upstream(topics) {
      var j :| 0 <= j < n - 2 && topics[j] == v;
      assert Arg(sh.stack, n - 1 - j) == v;
    }
  }

  /** A range touches a node exactly when the word of one of its bytes is tainted. */
  lemma TouchedIsTaintedBytes(m: Words, start: nat, length: nat)
    ensures Touched(m, start, length) != {} <==> TaintedBytes(m, start, length)
  {
    if v :| v in Touched(m, start, length) {
      var w: nat :| w in m && length > 0 && Overlaps(w, start, length) && m[w] == v && v != Untainted;
      SharedByte(w, start, length);
    }
    if b :| start <= b < start + length && At(m, Regulate(b)) != Untainted {
      LoadSeesTaint(m, {b}, start, length, b);
    }
  }

  lemma SharedByte(w: nat, start: nat, length: nat)
    requires length > 0 && Overlaps(w, start, length)
    ensures var b := if start <= w then w else start; start <= b < start + length && Regulate(b) == w
  {
  }

  // ---- Where the nodes flow from ----

  /** How many operands, from the top, the result is computed from. */
  function ValueOperands(ins: Instr): (n: nat)
    ensures n <= Pops(ins)
  {
    match ins
    case Pure(_, n) => n
    case Balance => 1
    case Mload => 1
    case Sload => 1
    case _ => 0
  }

  lemma OneTainted(n: FlowNode)
    ensures Upstream([n]) != {} <==> n != Untainted
    ensures Upstream([]) == {}
  {
    if n != Untainted {
      assert n in [n] && n in Upstream([n]);
    }
  }

  /** What flows into the result of an operation that pushes and is no DUP. */
  function Inflow(ins: Instr, words: seq<Word>, sh: Shadow): set<FlowNode>
    requires |words| == |sh.stack| >= Needs(ins)
  {
    var args := sh.stack[|sh.stack| - Pops(ins)..];
    match ins
    case Pure(_, _) => Upstream(args)
    case Balance => Upstream(args)
    case Keccak => Touched(sh.mem, Back(words, 0), Back(words, 1))
    case Mload => Touched(sh.mem, Back(words, 0), 32) + Upstream(args)
    case Sload => Upstream([StorageAt(sh.stor, Back(words, 0))]) + Upstream(args)
    case _ => {}
  }

  lemma PushedResult(shared: Shared, control: FlowNode, self: Address, ins: Instr, words: seq<Word>, sh: Shadow)
    requires WellFormed(ins) && |words| == |sh.stack| >= Needs(ins) && Pushes(ins) == 1 && !ins.Dup?
    ensures ShadowResults(shared, control, self, ins, words, sh) ==
            [ResultNode(sh.index, control, Inflow(ins, words, sh), SharedVariableLoaded(shared, self, ins, words) || control != Untainted)]
  {
    OneTainted(Untainted);
  }

  ghost predicate IsOperand(sh: Shadow, n: FlowNode, lo: nat, hi: nat)
    requires hi <= |sh.stack|
  {
    exists i :: lo <= i < hi && Arg(sh.stack, i) == n
  }

  ghost predicate HoldsBytes(m: Words, start: nat, length: nat, n: FlowNode) {
    exists b :: start <= b < start + length && At(m, Regulate(b)) == n
  }

  /** The node is of something the operation computes its result from, stores in a slot, or reports. */
  ghost predicate ReadsNode(ins: Instr, words: seq<Word>, sh: Shadow, n: FlowNode)
    requires |words| == |sh.stack| >= Needs(ins) && WellFormed(ins)
  {
    || IsOperand(sh, n, if ins.Log? then 2 else 0, if ins.Jump? || ins.Jumpi? || ins.Log? || ins.Sstore? then Pops(ins) else ValueOperands(ins))
    || (ins.Mload? && HoldsBytes(sh.mem, Back(words, 0), 32, n))
    || ((ins.Keccak? || ins.Log?) && HoldsBytes(sh.mem, Back(words, 0), Back(words, 1), n))
    || (ins.Sload? && StorageAt(sh.stor, Back(words, 0)) == n)
    || (ins.Dup? && Arg(sh.stack, ins.n - 1) == n)
  }

  lemma OperandNode(sh: Shadow, n: FlowNode, lo: nat, hi: nat)
    requires lo <= hi <= |sh.stack| && n != Untainted
    ensures n in Upstream(sh.stack[|sh.stack| - hi..][..hi - lo]) <==> IsOperand(sh, n, lo, hi)
  {
    var args := sh.stack[|sh.stack| - hi..][..hi - lo];
    if i :| lo <= i < hi && Arg(sh.stack, i) == n {
      assert args[hi - 1 - i] == n;
    }
    if n in Upstream(args) {
      var j :| 0 <= j < hi - lo && args[j] == n;
      assert Arg(sh.stack, hi - 1 - j) == n;
    }
  }

  lemma OperandNodes(sh: Shadow, n: FlowNode, hi: nat)
    requires hi <= |sh.stack| && n != Untainted
    ensures n in Upstream(sh.stack[|sh.stack| - hi..]) <==> IsOperand(sh, n, 0, hi)
  {
    OperandNode(sh, n, 0, hi);
    assert sh.stack[|sh.stack| - hi..][..hi] == sh.stack[|sh.stack| - hi..];
  }

  lemma TouchedNode(m: Words, start: nat, length: nat, n: FlowNode)
    requires n != Untainted
    ensures n in Touched(m, start, length) <==> HoldsBytes(m, start, length, n)
  {
    if n in Touched(m, start, length) {
      var w: nat :| w in m && length > 0 && Overlaps(w, start, length) && m[w] == n;
      SharedByte(w, start, length);
    }
    if b :| start <= b < start + length && At(m, Regulate(b)) == n {
      assert Overlaps(Regulate(b), start, length);
    }
  }

  lemma InflowNode(ins: Instr, words: seq<Word>, sh: Shadow, n: FlowNode)
    requires |words| == |sh.stack| >= Needs(ins) && WellFormed(ins) && Pushes(ins) == 1 && !ins.Dup? && n != Untainted
    ensures n in Inflow(ins, words, sh) <==> ReadsNode(ins, words, sh, n)
  {
    match ins
    case Pure(_, _) => OperandNodes(sh, n, Pops(ins));
    case Balance => OperandNodes(sh, n, Pops(ins));
    case Mload =>
      OperandNodes(sh, n, Pops(ins));
      TouchedNode(sh.mem, Back(words, 0), 32, n);
    case Keccak => TouchedNode(sh.mem, Back(words, 0), Back(words, 1), n);
    case Sload =>
      OperandNodes(sh, n, Pops(ins));
      InSingle(StorageAt(sh.stor, Back(words, 0)), n);
    case _ =>
  }

  lemma InSingle(m: FlowNode, n: FlowNode)
    requires n != Untainted
    ensures n in Upstream([m]) <==> m == n
  {
    assert m in [m];
  }

  /** The node is of this operation, and flows from the tainted nodes it reads and the diverging node, from all of them and no others. */
  ghost predicate FlowsFromReads(node: FlowNode, control: FlowNode, ins: Instr, words: seq<Word>, sh: Shadow)
    requires |words| == |sh.stack| >= Needs(ins) && WellFormed(ins)
  {
    && node.Node? && node.op == sh.index
    && forall n :: n in node.from <==> n != Untainted && (n == control || ReadsNode(ins, words, sh, n))
  }

  lemma NewNodeFlows(control: FlowNode, ins: Instr, words: seq<Word>, sh: Shadow, upstream: set<FlowNode>)
    requires |words| == |sh.stack| >= Needs(ins) && WellFormed(ins) && Untainted !in upstream
    requires forall n :: n != Untainted ==> (n in upstream <==> ReadsNode(ins, words, sh, n))
    ensures FlowsFromReads(NewNode(sh.index, control, upstream), control, ins, words, sh)
  {
    var node := NewNode(sh.index, control, upstream);
    forall n ensures n in node.from <==> n != Untainted && (n == control || ReadsNode(ins, words, sh, n)) {
      if n != Untainted {
        InSingle(control, n);
      }
    }
  }

  /** A tainted result that is no copy of a stack word flows from what it is computed from. */
  lemma ResultFlowsFrom(shared: Shared, control: FlowNode, self: Address, ins: Instr, words: seq<Word>, sh: Shadow)
    requires WellFormed(ins) && |words| == |sh.stack| >= Needs(ins) && Pushes(ins) == 1 && !ins.Dup?
    ensures var next := ShadowStep(shared, control, self, ins, words, sh).stack;
            next != [] && (Arg(next, 0) != Untainted ==> FlowsFromReads(Arg(next, 0), control, ins, words, sh))
  {
    PushedResult(shared, control, self, ins, words, sh);
    assert Arg(ShadowStep(shared, control, self, ins, words, sh).stack, 0) == ShadowResults(shared, control, self, ins, words, sh)[0];
    InflowTaintedNodes(ins, words, sh);
    forall n | n != Untainted ensures n in Inflow(ins, words, sh) <==> ReadsNode(ins, words, sh, n) {
      InflowNode(ins, words, sh, n);
    }
    NewNodeFlows(control, ins, words, sh, Inflow(ins, words, sh));
  }

  lemma InflowTaintedNodes(ins: Instr, words: seq<Word>, sh: Shadow)
    requires |words| == |sh.stack| >= Needs(ins)
    ensures Untainted !in Inflow(ins, words, sh)
  {
  }

  /** What a jump or a log is reported with flows from its tainted operands and, for a log, from the tainted bytes it logs. */
  lemma ReportFlowsFrom(shared: Shared, control: FlowNode, self: Address, ins: Instr, words: seq<Word>, sh: Shadow)
    requires WellFormed(ins) && |words| == |sh.stack| >= Needs(ins)
    requires sh.index !in sh.jumps && sh.index !in sh.logs
    ensures var next := ShadowStep(shared, control, self, ins, words, sh);
            && (sh.index in next.jumps ==> FlowsFromReads(next.jumps[sh.index], control, ins, words, sh))
            && (sh.index in next.logs ==> FlowsFromReads(next.logs[sh.index], control, ins, words, sh))
  {
    ReportParts(shared, control, self, ins, words, sh);
    if ins.Jump? || ins.Jumpi? {
      JumpFlows(control, ins, words, sh);
    } else if ins.Log? {
      LogFlows(control, ins, words, sh);
    }
  }

  lemma ReportParts(shared: Shared, control: FlowNode, self: Address, ins: Instr, words: seq<Word>, sh: Shadow)
    requires WellFormed(ins) && |words| == |sh.stack| >= Needs(ins)
    ensures ShadowStep(shared, control, self, ins, words, sh).jumps == JumpsAfter(control, ins, words, sh)
    ensures ShadowStep(shared, control, self, ins, words, sh).logs == LogsAfter(control, ins, words, sh)
  {
  }

  lemma JumpFlows(control: FlowNode, ins: Instr, words: seq<Word>, sh: Shadow)
    requires WellFormed(ins) && |words| == |sh.stack| >= Needs(ins) && (ins.Jump? || ins.Jumpi?)
    ensures Sunk(control, ins, words, sh) != Untainted ==> FlowsFromReads(Sunk(control, ins, words, sh), control, ins, words, sh)
  {
    var args := sh.stack[|sh.stack| - Pops(ins)..];
    forall n | n != Untainted ensures n in Upstream(args) <==> ReadsNode(ins, words, sh, n) {
      OperandNodes(sh, n, Pops(ins));
    }
    NewNodeFlows(control, ins, words, sh, Upstream(args));
  }

  lemma LogFlows(control: FlowNode, ins: Instr, words: seq<Word>, sh: Shadow)
    requires WellFormed(ins) && |words| == |sh.stack| >= Needs(ins) && ins.Log?
    ensures Sunk(control, ins, words, sh) != Untainted ==> FlowsFromReads(Sunk(control, ins, words, sh), control, ins, words, sh)
  {
    var topics := sh.stack[|sh.stack| - Pops(ins)..][..Pops(ins) - 2];
    var upstream := Touched(sh.mem, Back(words, 0), Back(words, 1)) + Upstream(topics);
    forall n | n != Untainted ensures n in upstream <==> ReadsNode(ins, words, sh, n) {
      OperandNode(sh, n, 2, Pops(ins));
      TouchedNode(sh.mem, Back(words, 0), Back(words, 1), n);
    }
    NewNodeFlows(control, ins, words, sh, upstream);
  }

  /** A tainted slot written by a step flows from the key and the value. */
  lemma SlotFlowsFrom(shared: Shared, control: FlowNode, self: Address, ins: Instr, words: seq<Word>, sh: Shadow)
    requires WellFormed(ins) && |words| == |sh.stack| >= Needs(ins) && ins.Sstore?
    ensures var node := StorageAt(ShadowStep(shared, control, self, ins, words, sh).stor, Back(words, 0));
            node != Untainted ==> FlowsFromReads(node, control, ins, words, sh)
  {
    StepParts(shared, control, self, ins, words, sh);
    var args := sh.stack[|sh.stack| - 2..];
    forall n | n != Untainted ensures n in Upstream(args) <==> ReadsNode(ins, words, sh, n) {
      OperandNodes(sh, n, 2);
    }
    NewNodeFlows(control, ins, words, sh, Upstream(args));
  }

  // ---- What a step taints, and nothing else ----

  /** Something the operation reads is tainted. */
  ghost predicate ReadsTaint(ins: Instr, words: seq<Word>, sh: Shadow)
    requires |words| == |sh.stack| >= Needs(ins) && WellFormed(ins)
  {
    exists n :: n != Untainted && ReadsNode(ins, words, sh, n)
  }

  lemma InflowTainted(ins: Instr, words: seq<Word>, sh: Shadow)
    requires |words| == |sh.stack| >= Needs(ins) && WellFormed(ins) && Pushes(ins) == 1 && !ins.Dup?
    ensures Inflow(ins, words, sh) != {} <==> ReadsTaint(ins, words, sh)
  {
    InflowTaintedNodes(ins, words, sh);
    forall n | n != Untainted ensures n in Inflow(ins, words, sh) <==> ReadsNode(ins, words, sh, n) {
      InflowNode(ins, words, sh, n);
    }
  }

  lemma DupReads(ins: Instr, words: seq<Word>, sh: Shadow)
    requires |words| == |sh.stack| >= Needs(ins) && WellFormed(ins) && ins.Dup?
    ensures ReadsTaint(ins, words, sh) <==> Arg(sh.stack, ins.n - 1) != Untainted
  {
    if Arg(sh.stack, ins.n - 1) != Untainted {
      assert ReadsNode(ins, words, sh, Arg(sh.stack, ins.n - 1));
    }
  }

  /** On the reference path a result is tainted exactly if it is computed from something tainted or from the shared variable; off it always. */
  lemma ResultTaintedExactly(shared: Shared, control: FlowNode, self: Address, ins: Instr, words: seq<Word>, sh: Shadow)
    requires WellFormed(ins) && |words| == |sh.stack| >= Needs(ins) && Pushes(ins) == 1
    ensures var next := ShadowStep(shared, control, self, ins, words, sh).stack;
            && next != []
            && (Arg(next, 0) != Untainted <==>
                ReadsTaint(ins, words, sh) || SharedVariableLoaded(shared, self, ins, words) || control != Untainted)
  {
    assert Arg(ShadowStep(shared, control, self, ins, words, sh).stack, 0) == ShadowResults(shared, control, self, ins, words, sh)[0];
    if ins.Dup? {
      DupReads(ins, words, sh);
    } else {
      PushedResult(shared, control, self, ins, words, sh);
      InflowTainted(ins, words, sh);
    }
  }

  // ---- What a step writes ----

  predicate TaintedAt(sh: Shadow, i: nat) {
    i < |sh.stack| && Arg(sh.stack, i) != Untainted
  }

  /** How many bytes the operation writes to memory. */
  function Written(ins: Instr): nat {
    if ins.Mstore? then 32 else if ins.Mstore8? then 1 else 0
  }

  predicate WritesWord(ins: Instr, words: seq<Word>, w: nat)
    requires |words| >= Pops(ins)
  {
    Written(ins) > 0 && Overlaps(w, Back(words, 0), Written(ins))
  }

  predicate OverwritesWord(ins: Instr, words: seq<Word>, w: nat)
    requires |words| >= Pops(ins)
  {
    WritesWord(ins, words, w) && Inside(w, Back(words, 0), Written(ins))
  }

  lemma WordsWritten(control: FlowNode, ins: Instr, words: seq<Word>, sh: Shadow, w: nat)
    requires |words| == |sh.stack| >= Pops(ins) && w % GRANULARITY == 0 && Written(ins) > 0
    ensures At(ShadowMemAfter(control, ins, words, sh), w) != Untainted <==>
            || (WritesWord(ins, words, w) && (TaintedAt(sh, 1) || control != Untainted))
            || (At(sh.mem, w) != Untainted && !OverwritesWord(ins, words, w))
  {
    var start: nat, length := Back(words, 0), Written(ins);
    StoredTaint(sh.mem, start, length, Arg(sh.stack, 1), w);
    StoredTaint(Stored(sh.mem, start, length, Arg(sh.stack, 1)), start, length, NewNode(sh.index, control, {}), w);
  }

  lemma SlotWritten(control: FlowNode, ins: Instr, words: seq<Word>, sh: Shadow, k: Word)
    requires |words| == |sh.stack| >= Pops(ins) && ins.Sstore?
    ensures StorageAt(ShadowStorAfter(control, ins, words, sh), k) != Untainted <==>
            if Back(words, 0) == k then TaintedAt(sh, 0) || TaintedAt(sh, 1) || control != Untainted
            else StorageAt(sh.stor, k) != Untainted
  {
    TwoTainted(sh);
  }

  /** The parts of the state after a step. */
  lemma StepParts(shared: Shared, control: FlowNode, self: Address, ins: Instr, words: seq<Word>, sh: Shadow)
    requires WellFormed(ins) && |words| == |sh.stack| >= Needs(ins)
    ensures ShadowStep(shared, control, self, ins, words, sh).mem == ShadowMemAfter(control, ins, words, sh)
    ensures ShadowStep(shared, control, self, ins, words, sh).stor == ShadowStorAfter(control, ins, words, sh)
  {
  }

  /** A word of memory is tainted after a step exactly if a tainted value or an operation off the path wrote to it, or if it was and is not overwritten. */
  lemma MemoryTaintedExactly(shared: Shared, control: FlowNode, self: Address, ins: Instr, words: seq<Word>, sh: Shadow, w: nat)
    requires WellFormed(ins) && |words| == |sh.stack| >= Needs(ins) && w % GRANULARITY == 0
    ensures At(ShadowStep(shared, control, self, ins, words, sh).mem, w) != Untainted <==>
            || (WritesWord(ins, words, w) && (TaintedAt(sh, 1) || control != Untainted))
            || (At(sh.mem, w) != Untainted && !OverwritesWord(ins, words, w))
  {
    StepParts(shared, control, self, ins, words, sh);
    if Written(ins) > 0 {
      WordsWritten(control, ins, words, sh, w);
    }
  }

  lemma StoredTaint(m: Words, start: nat, length: nat, value: FlowNode, w: nat)
    requires length > 0 && w % GRANULARITY == 0
    ensures At(Stored(m, start, length, value), w) != Untainted <==>
            if Overlaps(w, start, length) then value != Untainted || (At(m, w) != Untainted && !Inside(w, start, length))
            else At(m, w) != Untainted
  {
    StoreCarriesBoth(m, start, length, value, w);
    if Overlaps(w, start, length) && value == Untainted && At(m, w) == Untainted {
      StoredNothing(m, start, length, w);
    }
  }

  lemma StoredNothing(m: Words, start: nat, length: nat, w: nat)
    requires At(m, w) == Untainted
    ensures At(Stored(m, start, length, Untainted), w) == Untainted
  {
  }

  /** A slot is tainted after a step exactly if it was and is not written, or a tainted key or value or an operation off the path wrote it. */
  lemma StorageTaintedExactly(shared: Shared, control: FlowNode, self: Address, ins: Instr, words: seq<Word>, sh: Shadow, k: Word)
    requires WellFormed(ins) && |words| == |sh.stack| >= Needs(ins)
    ensures StorageAt(ShadowStep(shared, control, self, ins, words, sh).stor, k) != Untainted <==>
            if ins.Sstore? && Back(words, 0) == k then
              TaintedAt(sh, 0) || TaintedAt(sh, 1) || control != Untainted
            else StorageAt(sh.stor, k) != Untainted
  {
    StepParts(shared, control, self, ins, words, sh);
    if ins.Sstore? {
      SlotWritten(control, ins, words, sh, k);
    }
  }

  lemma TwoTainted(sh: Shadow)
    requires |sh.stack| >= 2
    ensures Upstream(sh.stack[|sh.stack| - 2..]) != {} <==> TaintedAt(sh, 0) || TaintedAt(sh, 1)
  {
    OperandsTainted(sh, 2);
  }
}
