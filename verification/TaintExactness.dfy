/**
 Where the conditions of taint soundness are needed: when exactly one step keeps two agreeing states
 in agreement, and runs from their very start that part ways unreported once an address is tainted.
 */
module TaintExactness {
  import opened Chain
  import opened FlowNodes
  import opened ShadowMemory
  import opened Evm
  import opened DataFlow
  import opened TaintSteps
  import opened TaintSoundness

  // ---- One step, for every instruction and every mirror stack ----

  /** One step of both states keeps them in agreement, and halts both or neither. */
  ghost predicate StepKeeps(w: World, code: Code, shared: Shared, control: FlowNode, sh: Shadow, a: State, b: State)
    requires Agrees(shared, w.self, sh, a, b) && a.pc in code && Needs(code[a.pc]) <= |sh.stack|
  {
    && (Step(w, code, a).Next? <==> Step(w, code, b).Next?)
    && (Step(w, code, a).Next? ==>
          Agrees(shared, w.self, ShadowStep(shared, control, w.self, code[a.pc], a.stack, sh),
                 Step(w, code, a).s, Step(w, code, b).s))
  }

  /** The instruction does so over this mirror stack, whatever else the world, the code and the states are. */
  ghost predicate KeepsAgreement(ins: Instr, stack: seq<FlowNode>)
    requires WellFormed(ins) && Needs(ins) <= |stack|
  {
    forall w: World, code: Code, shared: Shared, control: FlowNode, sh: Shadow, a: State, b: State ::
      sh.stack == stack && Agrees(shared, w.self, sh, a, b) && a.pc in code && code[a.pc] == ins ==>
        StepKeeps(w, code, shared, control, sh, a, b)
  }

  /** The operands that must be untainted: those that address something, and all those of a jump. */
  predicate Watched(ins: Instr, i: nat) {
    i < AddressOperands(ins) || ((ins.Jump? || ins.Jumpi?) && i < Pops(ins))
  }

  lemma UntaintedKeeps(ins: Instr, sh: Shadow)
    requires WellFormed(ins) && Needs(ins) <= |sh.stack|
    requires AddressesUntainted(ins, sh) && !TaintedJump(ins, sh)
    ensures KeepsAgreement(ins, sh.stack)
  {
    forall w: World, code: Code, shared: Shared, control: FlowNode, sh': Shadow, a: State, b: State
      | sh'.stack == sh.stack && Agrees(shared, w.self, sh', a, b) && a.pc in code && code[a.pc] == ins
      ensures StepKeeps(w, code, shared, control, sh', a, b)
    {
      StepAgrees(w, code, shared, control, sh', a, b);
    }
  }

  /** A stack of zeros but for the two topmost words. */
  function Words(n: nat, top: Word, second: Word): (r: seq<Word>)
    ensures |r| == n && (n >= 1 ==> Back(r, 0) == top) && (n >= 2 ==> Back(r, 1) == second)
  {
    seq(n, k requires 0 <= k < n => if k == n - 1 then top else if k == n - 2 then second else 0)
  }

  function Stacked(n: nat, top: Word, second: Word): State {
    State(5, Words(n, top, second), [], map[], map[])
  }

  /** Any world will do in which two blocks have different hashes. */
  function SomeWorld(): World {
    World((_, _) => 0, _ => 0, _ => 0, x => x, 0)
  }

  function CodeOf(ins: Instr): Code
    requires WellFormed(ins)
  {
    map[0 := JumpDest, 5 := ins]
  }

  /** Two states that differ in the `i`-th word from the top alone. */
  function Left(n: nat, i: nat): State {
    if i == 0 then Stacked(n, 0, 1) else Stacked(n, 0, 0)
  }

  function Right(n: nat, i: nat): State {
    if i == 0 then Stacked(n, 32, 1) else Stacked(n, 0, 1)
  }

  /** The two states agree but one step parts them. */
  ghost predicate Parts(ins: Instr, stack: seq<FlowNode>, i: nat)
    requires WellFormed(ins) && Needs(ins) <= |stack|
  {
    var sh, a, b := EmptyShadow.(stack := stack), Left(|stack|, i), Right(|stack|, i);
    && Agrees(BalanceVariable(0), 0, sh, a, b)
    && !StepKeeps(SomeWorld(), CodeOf(ins), BalanceVariable(0), Untainted, sh, a, b)
  }

  lemma PartsRefutes(ins: Instr, stack: seq<FlowNode>, i: nat)
    requires WellFormed(ins) && Needs(ins) <= |stack| && Parts(ins, stack, i)
    ensures !KeepsAgreement(ins, stack)
  {
    var sh := EmptyShadow.(stack := stack);
    assert sh.stack == stack;
  }

  lemma DifferOnlyWhereTainted(stack: seq<FlowNode>, i: nat)
    requires i < 2 && i < |stack| && Arg(stack, i) != Untainted
    ensures Agrees(BalanceVariable(0), 0, EmptyShadow.(stack := stack), Left(|stack|, i), Right(|stack|, i))
  {
  }

  lemma NextState(code: Code, s: State)
    requires s.pc in code && Step(SomeWorld(), code, s).Next?
    ensures var s' := Step(SomeWorld(), code, s).s; var ins := code[s.pc];
            && s'.pc == NextPc(code, ins, s) && |s'.mem| == |Expand(s.mem, Area(ins, s.stack))|
            && s'.stor == if ins.Sstore? then s.stor[Back(s.stack, 0) := Back(s.stack, 1)] else s.stor
  {
  }

  predicate GrowsMemory(ins: Instr) {
    ins.Mload? || ins.Mstore? || ins.Mstore8? || ins.Keccak? || ins.Log?
  }

  /** Both go on, to different places or with memories of different sizes. */
  lemma PartedBy(ins: Instr, stack: seq<FlowNode>, i: nat)
    requires WellFormed(ins) && Needs(ins) <= |stack| && i < 2 && i < |stack| && Arg(stack, i) != Untainted
    requires var a, b := Step(SomeWorld(), CodeOf(ins), Left(|stack|, i)), Step(SomeWorld(), CodeOf(ins), Right(|stack|, i));
             if a.Next? && b.Next? then a.s.pc != b.s.pc || |a.s.mem| != |b.s.mem| else a.Next? || b.Next?
    ensures Parts(ins, stack, i)
  {
    DifferOnlyWhereTainted(stack, i);
  }

  /** A tainted offset or length grows the two memories to different sizes. */
  lemma MemoryLoss(ins: Instr, stack: seq<FlowNode>, i: nat)
    requires WellFormed(ins) && Needs(ins) <= |stack| <= STACK_LIMIT && GrowsMemory(ins) && i < AddressOperands(ins)
    requires Arg(stack, i) != Untainted
    ensures Parts(ins, stack, i)
  {
    MemoriesApart(ins, |stack|, i);
    PartedBy(ins, stack, i);
  }

  lemma MemoriesApart(ins: Instr, n: nat, i: nat)
    requires WellFormed(ins) && Needs(ins) <= n <= STACK_LIMIT && GrowsMemory(ins) && i < AddressOperands(ins)
    ensures var a, b := Step(SomeWorld(), CodeOf(ins), Left(n, i)), Step(SomeWorld(), CodeOf(ins), Right(n, i));
            a.Next? && b.Next? && |a.s.mem| < |b.s.mem|
  {
    AreasApart(ins, n, i);
    NextState(CodeOf(ins), Left(n, i));
    NextState(CodeOf(ins), Right(n, i));
  }

  lemma AreasApart(ins: Instr, n: nat, i: nat)
    requires WellFormed(ins) && Needs(ins) <= n <= STACK_LIMIT && GrowsMemory(ins) && i < AddressOperands(ins)
    ensures var a, b := Left(n, i), Right(n, i);
            && Executable(ins, a) && Executable(ins, b)
            && |Expand([], Area(ins, a.stack))| < |Expand([], Area(ins, b.stack))|
  {
  }

  /** A tainted jump target or condition sends one state elsewhere, or nowhere. */
  lemma JumpLoss(ins: Instr, stack: seq<FlowNode>, i: nat)
    requires (ins.Jump? || ins.Jumpi?) && Needs(ins) <= |stack| <= STACK_LIMIT && i < Pops(ins)
    requires Arg(stack, i) != Untainted
    ensures Parts(ins, stack, i)
  {
    JumpsApart(ins, |stack|, i);
    PartedBy(ins, stack, i);
  }

  lemma JumpsApart(ins: Instr, n: nat, i: nat)
    requires (ins.Jump? || ins.Jumpi?) && Needs(ins) <= n <= STACK_LIMIT && i < Pops(ins)
    ensures var a, b := Step(SomeWorld(), CodeOf(ins), Left(n, i)), Step(SomeWorld(), CodeOf(ins), Right(n, i));
            a.Next? && (b.Next? ==> a.s.pc != b.s.pc)
  {
    var a, b := Left(n, i), Right(n, i);
    assert Executable(ins, a) && Executable(ins, b);
    assert NextPc(CodeOf(ins), ins, a) != NextPc(CodeOf(ins), ins, b);
    assert Step(SomeWorld(), CodeOf(ins), a).Next?;
    NextState(CodeOf(ins), a);
    if Step(SomeWorld(), CodeOf(ins), b).Next? {
      NextState(CodeOf(ins), b);
    }
  }

  lemma StoresApart(n: nat)
    requires 2 <= n <= STACK_LIMIT
    ensures var a, b := Step(SomeWorld(), CodeOf(Sstore), Left(n, 0)), Step(SomeWorld(), CodeOf(Sstore), Right(n, 0));
            a.Next? && b.Next? && Get(a.s.stor, 32, 0) != Get(b.s.stor, 32, 0)
  {
    assert Step(SomeWorld(), CodeOf(Sstore), Left(n, 0)).Next? && Step(SomeWorld(), CodeOf(Sstore), Right(n, 0)).Next?;
    NextState(CodeOf(Sstore), Left(n, 0));
    NextState(CodeOf(Sstore), Right(n, 0));
  }

  lemma StoreMarksOne(stack: seq<FlowNode>)
    requires 2 <= |stack|
    ensures var sh' := ShadowStep(BalanceVariable(0), Untainted, 0, Sstore, Left(|stack|, 0).stack, EmptyShadow.(stack := stack));
            StorageAt(sh'.stor, 32) == Untainted
  {
  }

  /** Two SSTOREs under different keys leave a slot different that only one of them marks. */
  lemma StoreLoss(stack: seq<FlowNode>)
    requires 2 <= |stack| <= STACK_LIMIT
    requires Arg(stack, 0) != Untainted
    ensures Parts(Sstore, stack, 0)
  {
    DifferOnlyWhereTainted(stack, 0);
    StoresApart(|stack|);
    StoreMarksOne(stack);
  }

  /** BLOCKHASH pushes an untainted value that depends on its operand. */
  lemma BlockHashLoss(stack: seq<FlowNode>)
    requires 1 <= |stack| <= STACK_LIMIT
    requires Arg(stack, 0) != Untainted
    ensures Parts(BlockHash, stack, 0)
  {
    var n := |stack| - 1;
    DifferOnlyWhereTainted(stack, 0);
    var a, b := Left(|stack|, 0), Right(|stack|, 0);
    var sh' := ShadowStep(BalanceVariable(0), Untainted, 0, BlockHash, a.stack, EmptyShadow.(stack := stack));
    var a', b' := Step(SomeWorld(), CodeOf(BlockHash), a).s, Step(SomeWorld(), CodeOf(BlockHash), b).s;
    assert sh'.stack[n] == Untainted && a'.stack[n] == 0 && b'.stack[n] == 32;
  }

  lemma TaintedParts(ins: Instr, stack: seq<FlowNode>, i: nat)
    requires WellFormed(ins) && Needs(ins) <= |stack| <= STACK_LIMIT
    requires Watched(ins, i) && Arg(stack, i) != Untainted
    ensures Parts(ins, stack, i)
  {
    match ins {
      case Sstore => StoreLoss(stack);
      case BlockHash => BlockHashLoss(stack);
      case Jump => JumpLoss(ins, stack, i);
      case Jumpi => JumpLoss(ins, stack, i);
      case _ => MemoryLoss(ins, stack, i);
    }
  }

  /**
   The exact condition. Over a mirror stack an instruction keeps every two agreeing states in
   agreement, and halts both or neither, if and only if no operand that addresses memory, storage or a
   block is tainted and it is no tainted jump.
   */
  lemma StepSoundExactly(ins: Instr, sh: Shadow)
    requires WellFormed(ins) && Needs(ins) <= |sh.stack| <= STACK_LIMIT
    ensures KeepsAgreement(ins, sh.stack) <==> AddressesUntainted(ins, sh) && !TaintedJump(ins, sh)
  {
    if AddressesUntainted(ins, sh) && !TaintedJump(ins, sh) {
      UntaintedKeeps(ins, sh);
    } else {
      var i :| 0 <= i < 2 && Watched(ins, i) && Arg(sh.stack, i) != Untainted;
      TaintedParts(ins, sh.stack, i);
      PartsRefutes(ins, sh.stack, i);
    }
  }

  // ---- Runs from the start that part ways unreported ----

  /** One step of the traced run, no tainted jump, and what the tracer makes of it. */
  ghost predicate Moves(w: World, code: Code, shared: Shared, diverging: nat -> nat, s: State, sh: Shadow, s1: State, sh1: Shadow) {
    && |s.stack| == |sh.stack| && s.pc in code && !TaintedJump(code[s.pc], sh)
    && Step(w, code, s) == Next(s1) && NextShadow(w, code, shared, diverging, s, sh) == sh1
  }

  /** In `n` steps from `s`, without a tainted jump, the traced run gets to `t` and the tracer to `sh'`. */
  ghost predicate Gets(w: World, code: Code, shared: Shared, diverging: nat -> nat, s: State, sh: Shadow, n: nat, t: State, sh': Shadow) {
    && |s.stack| == |sh.stack| && StepN(w, code, s, n) == Next(t)
    && ShadowN(w, code, shared, diverging, s, sh, n) == sh'
    && forall k :: 0 <= k < n ==> !TaintedJumpAt(w, code, shared, diverging, s, sh, k)
  }

  lemma GetsThere(w: World, code: Code, shared: Shared, diverging: nat -> nat, s: State, sh: Shadow)
    requires |s.stack| == |sh.stack|
    ensures Gets(w, code, shared, diverging, s, sh, 0, s, sh)
  {
  }

  /** As long as nothing is reported no control node comes in. */
  lemma MovesBy(w: World, code: Code, shared: Shared, diverging: nat -> nat, ins: Instr, s: State, sh: Shadow, s1: State, sh1: Shadow)
    requires s.pc in code && code[s.pc] == ins && |s.stack| == |sh.stack| >= Needs(ins) && sh.jumps == map[]
    requires !TaintedJump(ins, sh) && Step(w, code, s) == Next(s1)
    requires ShadowStep(shared, Untainted, w.self, ins, s.stack, sh) == sh1
    ensures Moves(w, code, shared, diverging, s, sh, s1, sh1)
  {
  }

  lemma GetsFurther(w: World, code: Code, shared: Shared, diverging: nat -> nat, s: State, sh: Shadow,
                    s1: State, sh1: Shadow, n: nat, t: State, sh': Shadow)
    requires Moves(w, code, shared, diverging, s, sh, s1, sh1)
    requires Gets(w, code, shared, diverging, s1, sh1, n, t, sh')
    ensures Gets(w, code, shared, diverging, s, sh, n + 1, t, sh')
  {
    TailStep(w, code, shared, diverging, s, sh, n);
    forall k | 0 <= k < n + 1 ensures !TaintedJumpAt(w, code, shared, diverging, s, sh, k) {
      if k > 0 {
        TailStep(w, code, shared, diverging, s, sh, k - 1);
        assert !TaintedJumpAt(w, code, shared, diverging, s1, sh1, k - 1);
      }
    }
  }

  /** The state after an instruction that pushes `x`, over the memory it has grown. */
  function PushedTo(s: State, ins: Instr, x: Word, mem: seq<Byte>): State
    requires Pops(ins) <= |s.stack|
  {
    State(s.pc + Width(ins), s.stack[..|s.stack| - Pops(ins)] + [x], mem, s.stor, s.bal)
  }

  /** The mirrored state after an instruction that pushes the node `r`. */
  function MirrorPushed(sh: Shadow, ins: Instr, r: FlowNode, sources: set<nat>): Shadow
    requires Pops(ins) <= |sh.stack|
  {
    sh.(stack := sh.stack[..|sh.stack| - Pops(ins)] + [r], sources := sources, index := sh.index + 1)
  }

  lemma PushSteps(w: World, code: Code, ins: Instr, s: State, x: Word, mem: seq<Byte>)
    requires s.pc in code && code[s.pc] == ins && Pushes(ins) == 1 && Needs(ins) <= |s.stack| < STACK_LIMIT
    requires Area(ins, s.stack) <= MEMORY_LIMIT && mem == Expand(s.mem, Area(ins, s.stack)) && Results(w, ins, s, mem) == [x]
    ensures Step(w, code, s) == Next(PushedTo(s, ins, x, mem))
  {
  }

  lemma PushMirrors(shared: Shared, self: Address, ins: Instr, words: seq<Word>, sh: Shadow, r: FlowNode, sources: set<nat>)
    requires WellFormed(ins) && |words| == |sh.stack| >= Needs(ins) && Pushes(ins) == 1
    requires ShadowResults(shared, Untainted, self, ins, words, sh) == [r]
    requires sources == if SharedVariableLoaded(shared, self, ins, words) then sh.sources + {sh.index} else sh.sources
    ensures ShadowStep(shared, Untainted, self, ins, words, sh) == MirrorPushed(sh, ins, r, sources)
  {
  }

  /** An instruction that pushes a value leaves the rest of both states alone. */
  lemma PushMoves(w: World, code: Code, shared: Shared, diverging: nat -> nat, ins: Instr, s: State, sh: Shadow,
                  x: Word, mem: seq<Byte>, r: FlowNode, sources: set<nat>)
    requires s.pc in code && code[s.pc] == ins && Pushes(ins) == 1 && Needs(ins) <= |s.stack| < STACK_LIMIT
    requires |s.stack| == |sh.stack| && sh.jumps == map[]
    requires Area(ins, s.stack) <= MEMORY_LIMIT && mem == Expand(s.mem, Area(ins, s.stack)) && Results(w, ins, s, mem) == [x]
    requires ShadowResults(shared, Untainted, w.self, ins, s.stack, sh) == [r]
    requires sources == if SharedVariableLoaded(shared, w.self, ins, s.stack) then sh.sources + {sh.index} else sh.sources
    ensures Moves(w, code, shared, diverging, s, sh, PushedTo(s, ins, x, mem), MirrorPushed(sh, ins, r, sources))
  {
    PushSteps(w, code, ins, s, x, mem);
    PushMirrors(shared, w.self, ins, s.stack, sh, r, sources);
    MovesBy(w, code, shared, diverging, ins, s, sh, PushedTo(s, ins, x, mem), MirrorPushed(sh, ins, r, sources));
  }

  /** A call that starts with `v` in slot 0, the shared variable. */
  function Start(v: Word): State {
    State(0, [], [], map[0 := v], map[])
  }

  function Slot0(w: World): Shared {
    StorageVariable(w.self, 0)
  }

  /** The node of the SLOAD that is the second instruction of every run below. */
  const Loaded: FlowNode := Node(AttackTaint, 1, {})

  function LoadedState(v: Word): State {
    State(3, [v], [], map[0 := v], map[])
  }

  const LoadedShadow: Shadow := Shadow([Loaded], map[], map[], {1}, map[], map[], 2)

  predicate LoadsFirst(code: Code) {
    0 in code && 2 in code && code[0] == Push(1, 0) && code[2] == Sload
  }

  function PushedState(v: Word): State {
    State(2, [0], [], map[0 := v], map[])
  }

  const PushedShadow: Shadow := Shadow([Untainted], map[], map[], {}, map[], map[], 1)

  lemma PushedMoves(w: World, code: Code, diverging: nat -> nat, v: Word)
    requires 0 in code && code[0] == Push(1, 0)
    ensures Moves(w, code, Slot0(w), diverging, Start(v), EmptyShadow, PushedState(v), PushedShadow)
  {
    PushMoves(w, code, Slot0(w), diverging, Push(1, 0), Start(v), EmptyShadow, 0, [], Untainted, {});
    assert PushedTo(Start(v), Push(1, 0), 0, []) == PushedState(v) && MirrorPushed(EmptyShadow, Push(1, 0), Untainted, {}) == PushedShadow;
  }

  lemma LoadFlows(w: World, v: Word)
    ensures ShadowResults(Slot0(w), Untainted, w.self, Sload, PushedState(v).stack, PushedShadow) == [Loaded]
  {
    assert Upstream([Untainted]) == {} && Upstream([Untainted]) + Upstream([Untainted]) == {};
  }

  lemma LoadedMoves(w: World, code: Code, diverging: nat -> nat, v: Word)
    requires 2 in code && code[2] == Sload
    ensures Moves(w, code, Slot0(w), diverging, PushedState(v), PushedShadow, LoadedState(v), LoadedShadow)
  {
    LoadFlows(w, v);
    PushMoves(w, code, Slot0(w), diverging, Sload, PushedState(v), PushedShadow, v, [], Loaded, {1});
    assert PushedTo(PushedState(v), Sload, v, []) == LoadedState(v) && MirrorPushed(PushedShadow, Sload, Loaded, {1}) == LoadedShadow;
  }

  lemma LoadsSlot(w: World, code: Code, diverging: nat -> nat, v: Word, n: nat, t: State, sh': Shadow)
    requires LoadsFirst(code) && Gets(w, code, Slot0(w), diverging, LoadedState(v), LoadedShadow, n, t, sh')
    ensures Gets(w, code, Slot0(w), diverging, Start(v), EmptyShadow, n + 2, t, sh')
  {
    LoadedMoves(w, code, diverging, v);
    GetsFurther(w, code, Slot0(w), diverging, PushedState(v), PushedShadow, LoadedState(v), LoadedShadow, n, t, sh');
    PushedMoves(w, code, diverging, v);
    GetsFurther(w, code, Slot0(w), diverging, Start(v), EmptyShadow, PushedState(v), PushedShadow, n + 1, t, sh');
  }

  /**
   From starts that differ at the shared variable only the runs come to `a` and `b` in `n` steps, and the
   tracer on the first to `sh`, without a tainted jump on the way.
   */
  ghost predicate Unreported(w: World, code: Code, diverging: nat -> nat, x: Word, y: Word, n: nat, a: State, sh: Shadow, b: State) {
    && SameStart(Slot0(w), w.self, Start(x), Start(y))
    && Gets(w, code, Slot0(w), diverging, Start(x), EmptyShadow, n, a, sh)
    && StepN(w, code, Start(y), n) == Next(b)
  }

  lemma StartsSame(w: World, x: Word, y: Word)
    ensures SameStart(Slot0(w), w.self, Start(x), Start(y))
  {
  }

  lemma BothRun(w: World, code: Code, diverging: nat -> nat, x: Word, y: Word, n: nat, a: State, sh: Shadow, b: State, sh': Shadow)
    requires Gets(w, code, Slot0(w), diverging, Start(x), EmptyShadow, n, a, sh)
    requires Gets(w, code, Slot0(w), diverging, Start(y), EmptyShadow, n, b, sh')
    ensures Unreported(w, code, diverging, x, y, n, a, sh, b)
  {
    StartsSame(w, x, y);
  }

  /** What a run comes to after one instruction on the loaded value. */
  lemma OneMore(w: World, code: Code, diverging: nat -> nat, v: Word, s: State, sh: Shadow)
    requires LoadsFirst(code) && Moves(w, code, Slot0(w), diverging, LoadedState(v), LoadedShadow, s, sh)
    ensures Gets(w, code, Slot0(w), diverging, Start(v), EmptyShadow, 3, s, sh)
  {
    GetsThere(w, code, Slot0(w), diverging, s, sh);
    GetsFurther(w, code, Slot0(w), diverging, LoadedState(v), LoadedShadow, s, sh, 0, s, sh);
    LoadsSlot(w, code, diverging, v, 1, s, sh);
  }

  lemma TwoMore(w: World, code: Code, diverging: nat -> nat, v: Word, s: State, sh: Shadow, t: State, sh': Shadow)
    requires LoadsFirst(code) && Moves(w, code, Slot0(w), diverging, LoadedState(v), LoadedShadow, s, sh)
    requires Moves(w, code, Slot0(w), diverging, s, sh, t, sh')
    ensures Gets(w, code, Slot0(w), diverging, Start(v), EmptyShadow, 4, t, sh')
  {
    GetsThere(w, code, Slot0(w), diverging, t, sh');
    GetsFurther(w, code, Slot0(w), diverging, s, sh, t, sh', 0, t, sh');
    GetsFurther(w, code, Slot0(w), diverging, LoadedState(v), LoadedShadow, s, sh, 1, t, sh');
    LoadsSlot(w, code, diverging, v, 2, t, sh');
  }

  /** The tracer after `n` instructions that have left just these nodes on the stack. */
  function StackOnly(stack: seq<FlowNode>, n: nat): Shadow {
    Shadow(stack, map[], map[], {1}, map[], map[], n)
  }

  // PUSH 0; SLOAD; BLOCKHASH

  const BlockHashCode: Code := map[0 := Push(1, 0), 2 := Sload, 3 := BlockHash]

  function BlockHashState(w: World, v: Word): State {
    State(4, [w.blockHash(v)], [], map[0 := v], map[])
  }

  lemma BlockHashMoves(w: World, code: Code, diverging: nat -> nat, v: Word)
    requires 3 in code && code[3] == BlockHash
    ensures Moves(w, code, Slot0(w), diverging, LoadedState(v), LoadedShadow, BlockHashState(w, v), StackOnly([Untainted], 3))
  {
    PushMoves(w, code, Slot0(w), diverging, BlockHash, LoadedState(v), LoadedShadow, w.blockHash(v), [], Untainted, {1});
    assert PushedTo(LoadedState(v), BlockHash, w.blockHash(v), []) == BlockHashState(w, v) && MirrorPushed(LoadedShadow, BlockHash, Untainted, {1}) == StackOnly([Untainted], 3);
  }

  /** BLOCKHASH drops its operand's taint: the run ends in an untainted value that differs. */
  lemma BlockHashLosesTaint(w: World, diverging: nat -> nat, x: Word, y: Word)
    requires w.blockHash(x) != w.blockHash(y)
    ensures Unreported(w, BlockHashCode, diverging, x, y, 3, BlockHashState(w, x), StackOnly([Untainted], 3), BlockHashState(w, y))
    ensures BlockHashState(w, x).stack[0] != BlockHashState(w, y).stack[0]
  {
    BlockHashMoves(w, BlockHashCode, diverging, x);
    OneMore(w, BlockHashCode, diverging, x, BlockHashState(w, x), StackOnly([Untainted], 3));
    BlockHashMoves(w, BlockHashCode, diverging, y);
    OneMore(w, BlockHashCode, diverging, y, BlockHashState(w, y), StackOnly([Untainted], 3));
    BothRun(w, BlockHashCode, diverging, x, y, 3, BlockHashState(w, x), StackOnly([Untainted], 3), BlockHashState(w, y), StackOnly([Untainted], 3));
  }

  // PUSH 0; SLOAD; DUP1; SSTORE

  const StoreCode: Code := map[0 := Push(1, 0), 2 := Sload, 3 := Dup(1), 4 := Sstore]

  function DoubledState(v: Word): State {
    State(4, [v, v], [], map[0 := v], map[])
  }

  function StoredState(v: Word): State {
    State(5, [], [], map[0 := v][v := v], map[])
  }

  function StoredShadow(v: Word): Shadow {
    Shadow([], map[], map[v := Node(AttackTaint, 3, {Loaded})], {1}, map[], map[], 4)
  }

  lemma DoubledMoves(w: World, code: Code, diverging: nat -> nat, v: Word)
    requires 3 in code && code[3] == Dup(1)
    ensures Moves(w, code, Slot0(w), diverging, LoadedState(v), LoadedShadow, DoubledState(v), StackOnly([Loaded, Loaded], 3))
  {
    PushMoves(w, code, Slot0(w), diverging, Dup(1), LoadedState(v), LoadedShadow, v, [], Loaded, {1});
    assert PushedTo(LoadedState(v), Dup(1), v, []) == DoubledState(v) && MirrorPushed(LoadedShadow, Dup(1), Loaded, {1}) == StackOnly([Loaded, Loaded], 3);
  }

  lemma StoredMirrors(w: World, v: Word)
    ensures ShadowStep(Slot0(w), Untainted, w.self, Sstore, DoubledState(v).stack, StackOnly([Loaded, Loaded], 3)) == StoredShadow(v)
  {
    assert Upstream([Loaded, Loaded]) == {Loaded} && {Loaded} + Upstream([Untainted]) == {Loaded};
    ShadowStepIs(Slot0(w), Untainted, w.self, Sstore, DoubledState(v).stack, StackOnly([Loaded, Loaded], 3), StoredShadow(v));
  }

  lemma StoredMoves(w: World, code: Code, diverging: nat -> nat, v: Word)
    requires 4 in code && code[4] == Sstore
    ensures Moves(w, code, Slot0(w), diverging, DoubledState(v), StackOnly([Loaded, Loaded], 3), StoredState(v), StoredShadow(v))
  {
    StoredMirrors(w, v);
    MovesBy(w, code, Slot0(w), diverging, Sstore, DoubledState(v), StackOnly([Loaded, Loaded], 3), StoredState(v), StoredShadow(v));
  }

  lemma StoreRun(w: World, diverging: nat -> nat, v: Word)
    ensures Gets(w, StoreCode, Slot0(w), diverging, Start(v), EmptyShadow, 4, StoredState(v), StoredShadow(v))
  {
    DoubledMoves(w, StoreCode, diverging, v);
    StoredMoves(w, StoreCode, diverging, v);
    TwoMore(w, StoreCode, diverging, v, DoubledState(v), StackOnly([Loaded, Loaded], 3), StoredState(v), StoredShadow(v));
  }

  /** SSTORE under a tainted key marks only the slot the traced run writes: another slot differs without a node. */
  lemma TaintedKeyLosesTaint(w: World, diverging: nat -> nat)
    ensures Unreported(w, StoreCode, diverging, 0, 1, 4, StoredState(0), StoredShadow(0), StoredState(1))
    ensures StorageAt(StoredShadow(0).stor, 1) == Untainted && Get(StoredState(0).stor, 1, 0) != Get(StoredState(1).stor, 1, 0)
  {
    StoreRun(w, diverging, 0);
    StoreRun(w, diverging, 1);
    BothRun(w, StoreCode, diverging, 0, 1, 4, StoredState(0), StoredShadow(0), StoredState(1), StoredShadow(1));
  }

  // PUSH 0; SLOAD; PUSH 0; KECCAK256

  const HashCode: Code := map[0 := Push(1, 0), 2 := Sload, 3 := Push(1, 0), 5 := Keccak]

  function Zeros(n: nat): seq<Byte> {
    seq(n, _ => 0)
  }

  function LengthState(v: Word): State {
    State(5, [v, 0], [], map[0 := v], map[])
  }

  function HashState(w: World, v: Word): State {
    State(6, [w.hash(Zeros(v))], Zeros(32 * v), map[0 := v], map[])
  }

  lemma LengthMoves(w: World, code: Code, diverging: nat -> nat, v: Word)
    requires 3 in code && code[3] == Push(1, 0)
    ensures Moves(w, code, Slot0(w), diverging, LoadedState(v), LoadedShadow, LengthState(v), StackOnly([Loaded, Untainted], 3))
  {
    PushMoves(w, code, Slot0(w), diverging, Push(1, 0), LoadedState(v), LoadedShadow, 0, [], Untainted, {1});
    assert PushedTo(LoadedState(v), Push(1, 0), 0, []) == LengthState(v) && MirrorPushed(LoadedShadow, Push(1, 0), Untainted, {1}) == StackOnly([Loaded, Untainted], 3);
  }

  lemma HashResult(w: World, v: Word)
    requires v <= 1
    ensures Expand([], Area(Keccak, LengthState(v).stack)) == Zeros(32 * v)
    ensures Results(w, Keccak, LengthState(v), Zeros(32 * v)) == [w.hash(Zeros(v))]
  {
    assert (if v == 0 then [] else Zeros(32 * v)[0..v]) == Zeros(v);
  }

  lemma HashMoves(w: World, code: Code, diverging: nat -> nat, v: Word)
    requires v <= 1 && 5 in code && code[5] == Keccak
    ensures Moves(w, code, Slot0(w), diverging, LengthState(v), StackOnly([Loaded, Untainted], 3), HashState(w, v), StackOnly([Untainted], 4))
  {
    HashResult(w, v);
    assert Touched(map[], 0, v) == {};
    PushMoves(w, code, Slot0(w), diverging, Keccak, LengthState(v), StackOnly([Loaded, Untainted], 3), w.hash(Zeros(v)), Zeros(32 * v), Untainted, {1});
    assert PushedTo(LengthState(v), Keccak, w.hash(Zeros(v)), Zeros(32 * v)) == HashState(w, v) && MirrorPushed(StackOnly([Loaded, Untainted], 3), Keccak, Untainted, {1}) == StackOnly([Untainted], 4);
  }

  lemma HashRun(w: World, diverging: nat -> nat, v: Word)
    requires v <= 1
    ensures Gets(w, HashCode, Slot0(w), diverging, Start(v), EmptyShadow, 4, HashState(w, v), StackOnly([Untainted], 4))
  {
    LengthMoves(w, HashCode, diverging, v);
    HashMoves(w, HashCode, diverging, v);
    TwoMore(w, HashCode, diverging, v, LengthState(v), StackOnly([Loaded, Untainted], 3), HashState(w, v), StackOnly([Untainted], 4));
  }

  lemma HashesDiffer(w: World)
    requires w.hash([]) != w.hash([0])
    ensures HashState(w, 0).stack[0] != HashState(w, 1).stack[0]
  {
    assert Zeros(0) == [] && Zeros(1) == [0];
  }

  /** KECCAK256 ignores the taint of its length: the run ends in an untainted value that differs. */
  lemma HashOfTaintedLengthLosesTaint(w: World, diverging: nat -> nat)
    requires w.hash([]) != w.hash([0])
    ensures Unreported(w, HashCode, diverging, 0, 1, 4, HashState(w, 0), StackOnly([Untainted], 4), HashState(w, 1))
    ensures HashState(w, 0).stack[0] != HashState(w, 1).stack[0]
  {
    HashRun(w, diverging, 0);
    HashRun(w, diverging, 1);
    HashesDiffer(w);
    BothRun(w, HashCode, diverging, 0, 1, 4, HashState(w, 0), StackOnly([Untainted], 4), HashState(w, 1), StackOnly([Untainted], 4));
  }

  // PUSH 0; SLOAD; MLOAD; MSIZE; JUMP

  const OffsetCode: Code := map[0 := Push(1, 0), 2 := Sload, 3 := Mload, 4 := Msize, 5 := Jump, 32 := JumpDest, 64 := JumpDest]

  const Read: FlowNode := Node(AttackTaint, 2, {Loaded})

  predicate WordOffset(v: Word) {
    v == 0 || v == 32
  }

  /** What MLOAD reads from fresh memory. */
  function Fresh(v: Word): Word
    requires WordOffset(v)
  {
    ToWord(Zeros(v + 32)[v..v + 32])
  }

  function ReadState(v: Word): State
    requires WordOffset(v)
  {
    State(4, [Fresh(v)], Zeros(v + 32), map[0 := v], map[])
  }

  function SizedState(v: Word): State
    requires WordOffset(v)
  {
    State(5, [Fresh(v), v + 32], Zeros(v + 32), map[0 := v], map[])
  }

  function JumpedState(v: Word): State
    requires WordOffset(v)
  {
    State(v + 32, [Fresh(v)], Zeros(v + 32), map[0 := v], map[])
  }

  lemma ReadValue(w: World, v: Word)
    requires WordOffset(v)
    ensures Expand([], Area(Mload, LoadedState(v).stack)) == Zeros(v + 32)
    ensures Results(w, Mload, LoadedState(v), Zeros(v + 32)) == [Fresh(v)]
  {
  }

  lemma ReadMoves(w: World, code: Code, diverging: nat -> nat, v: Word)
    requires WordOffset(v) && 3 in code && code[3] == Mload
    ensures Moves(w, code, Slot0(w), diverging, LoadedState(v), LoadedShadow, ReadState(v), StackOnly([Read], 3))
  {
    ReadValue(w, v);
    ReadResult(w, v);
    ReadFlows(v);
    PushMoves(w, code, Slot0(w), diverging, Mload, LoadedState(v), LoadedShadow, Fresh(v), Zeros(v + 32), Read, {1});
    assert PushedTo(LoadedState(v), Mload, Fresh(v), Zeros(v + 32)) == ReadState(v) && MirrorPushed(LoadedShadow, Mload, Read, {1}) == StackOnly([Read], 3);
  }

  lemma ReadFlows(v: Word)
    ensures Touched(map[], v, 32) + Upstream([Loaded]) == {Loaded}
    ensures ResultNode(2, Untainted, {Loaded}, false) == Read
  {
    assert {Loaded} + Upstream([Untainted]) == {Loaded};
  }

  lemma ReadResult(w: World, v: Word)
    ensures ShadowResults(Slot0(w), Untainted, w.self, Mload, LoadedState(v).stack, LoadedShadow) ==
            [ResultNode(2, Untainted, Touched(map[], v, 32) + Upstream([Loaded]), false)]
  {
    assert LoadedShadow.stack[0..] == [Loaded];
  }

  lemma SizedMoves(w: World, code: Code, diverging: nat -> nat, v: Word)
    requires WordOffset(v) && 4 in code && code[4] == Msize
    ensures Moves(w, code, Slot0(w), diverging, ReadState(v), StackOnly([Read], 3), SizedState(v), StackOnly([Read, Untainted], 4))
  {
    PushMoves(w, code, Slot0(w), diverging, Msize, ReadState(v), StackOnly([Read], 3), v + 32, Zeros(v + 32), Untainted, {1});
    assert PushedTo(ReadState(v), Msize, v + 32, Zeros(v + 32)) == SizedState(v) && MirrorPushed(StackOnly([Read], 3), Msize, Untainted, {1}) == StackOnly([Read, Untainted], 4);
  }

  lemma JumpedMirrors(w: World, v: Word)
    requires WordOffset(v)
    ensures ShadowStep(Slot0(w), Untainted, w.self, Jump, SizedState(v).stack, StackOnly([Read, Untainted], 4)) == StackOnly([Read], 5)
  {
    assert Upstream([Untainted]) == {};
    ShadowStepIs(Slot0(w), Untainted, w.self, Jump, SizedState(v).stack, StackOnly([Read, Untainted], 4), StackOnly([Read], 5));
  }

  lemma JumpedSteps(w: World, code: Code, v: Word)
    requires WordOffset(v) && 5 in code && code[5] == Jump && v + 32 in code && code[v + 32] == JumpDest
    ensures Step(w, code, SizedState(v)) == Next(JumpedState(v))
  {
  }

  lemma JumpedMoves(w: World, code: Code, diverging: nat -> nat, v: Word)
    requires WordOffset(v) && 5 in code && code[5] == Jump && v + 32 in code && code[v + 32] == JumpDest
    ensures Moves(w, code, Slot0(w), diverging, SizedState(v), StackOnly([Read, Untainted], 4), JumpedState(v), StackOnly([Read], 5))
  {
    JumpedSteps(w, code, v);
    JumpedMirrors(w, v);
    SizeUntainted();
    MovesBy(w, code, Slot0(w), diverging, Jump, SizedState(v), StackOnly([Read, Untainted], 4), JumpedState(v), StackOnly([Read], 5));
  }

  lemma SizeUntainted()
    ensures !TaintedJump(Jump, StackOnly([Read, Untainted], 4))
  {
  }

  predicate LoadsOffset(code: Code) {
    && LoadsFirst(code) && 3 in code && 4 in code && 5 in code && 32 in code && 64 in code
    && code[3] == Mload && code[4] == Msize && code[5] == Jump && code[32] == JumpDest && code[64] == JumpDest
  }

  lemma OffsetRun(w: World, code: Code, diverging: nat -> nat, v: Word)
    requires WordOffset(v) && LoadsOffset(code)
    ensures Gets(w, code, Slot0(w), diverging, Start(v), EmptyShadow, 5, JumpedState(v), StackOnly([Read], 5))
  {
    var u, sh := JumpedState(v), StackOnly([Read], 5);
    GetsThere(w, code, Slot0(w), diverging, u, sh);
    JumpedMoves(w, code, diverging, v);
    GetsFurther(w, code, Slot0(w), diverging, SizedState(v), StackOnly([Read, Untainted], 4), u, sh, 0, u, sh);
    SizedMoves(w, code, diverging, v);
    GetsFurther(w, code, Slot0(w), diverging, ReadState(v), StackOnly([Read], 3), SizedState(v), StackOnly([Read, Untainted], 4), 1, u, sh);
    ReadMoves(w, code, diverging, v);
    GetsFurther(w, code, Slot0(w), diverging, LoadedState(v), LoadedShadow, ReadState(v), StackOnly([Read], 3), 2, u, sh);
    LoadsSlot(w, code, diverging, v, 3, u, sh);
  }

  /**
   A tainted memory offset shows in MSIZE, which carries no node: the two runs come to different program
   counters, in every world, with no tainted jump to report.
   */
  lemma TaintedOffsetDivergesUnreported(w: World, diverging: nat -> nat)
    ensures Unreported(w, OffsetCode, diverging, 0, 32, 5, JumpedState(0), StackOnly([Read], 5), JumpedState(32))
    ensures JumpedState(0).pc != JumpedState(32).pc
  {
    assert LoadsOffset(OffsetCode);
    OffsetRun(w, OffsetCode, diverging, 0);
    OffsetRun(w, OffsetCode, diverging, 32);
    BothRun(w, OffsetCode, diverging, 0, 32, 5, JumpedState(0), StackOnly([Read], 5), JumpedState(32), StackOnly([Read], 5));
  }
}
