/**
 Taint soundness: two runs of the same code whose states differ only at the shared variable agree
 wherever the traced run carries no taint, and execute the same instructions, until a jump whose
 target or condition is tainted has been reported.
 */
module TaintSoundness {
  import opened Chain
  import opened FlowNodes
  import opened ShadowMemory
  import opened Evm
  import opened DataFlow
  import opened TaintSteps

  predicate ReadsShared(shared: Shared, self: Address, key: Word) {
    shared == StorageVariable(self, key)
  }

  /** Two stacks of words agree wherever the mirror stack has no node. */
  predicate WordsAgree(nodes: seq<FlowNode>, a: seq<Word>, b: seq<Word>) {
    |a| == |b| == |nodes| && forall i :: 0 <= i < |nodes| && nodes[i] == Untainted ==> a[i] == b[i]
  }

  predicate StackAgrees(sh: Shadow, a: State, b: State) {
    WordsAgree(sh.stack, a.stack, b.stack)
  }

  ghost predicate MemAgrees(m: Words, a: seq<Byte>, b: seq<Byte>) {
    && |a| == |b|
    && (forall i :: 0 <= i < |a| && At(m, Regulate(i)) == Untainted ==> a[i] == b[i])
  }

  ghost predicate StorAgrees(shared: Shared, self: Address, stor: map<Word, FlowNode>, a: State, b: State) {
    forall k: Word :: StorageAt(stor, k) == Untainted && !ReadsShared(shared, self, k) ==>
      Get(a.stor, k, 0) == Get(b.stor, k, 0)
  }

  ghost predicate BalAgrees(shared: Shared, a: State, b: State) {
    forall x: Address :: shared != BalanceVariable(x) ==> Get(a.bal, x, 0) == Get(b.bal, x, 0)
  }

  /** The two states agree on everything `sh` leaves untainted. */
  ghost predicate Agrees(shared: Shared, self: Address, sh: Shadow, a: State, b: State) {
    && a.pc == b.pc
    && StackAgrees(sh, a, b)
    && MemAgrees(sh.mem, a.mem, b.mem)
    && StorAgrees(shared, self, sh.stor, a, b)
    && BalAgrees(shared, a, b)
  }

  /** How many operands, from the top, address memory or storage or are otherwise not tracked. */
  function AddressOperands(ins: Instr): (n: nat)
    ensures n <= Pops(ins)
  {
    match ins
    case Mload => 1
    case Mstore => 1
    case Mstore8 => 1
    case Keccak => 2
    case Log(_) => 2
    case Sstore => 1
    case BlockHash => 1
    case _ => 0
  }

  /** Memory offsets and lengths, SSTORE keys and block numbers carry no taint. */
  predicate AddressesUntainted(ins: Instr, sh: Shadow) {
    |sh.stack| >= Needs(ins) ==>
      forall i :: 0 <= i < AddressOperands(ins) ==> Arg(sh.stack, i) == Untainted
  }

  // ---- One step ----

  lemma OperandAgrees(sh: Shadow, a: State, b: State, i: nat)
    requires StackAgrees(sh, a, b) && i < |sh.stack| && Arg(sh.stack, i) == Untainted
    ensures Back(a.stack, i) == Back(b.stack, i)
  {
  }

  lemma SameArea(ins: Instr, sh: Shadow, a: State, b: State)
    requires StackAgrees(sh, a, b) && |sh.stack| >= Needs(ins) && AddressesUntainted(ins, sh)
    ensures Area(ins, a.stack) == Area(ins, b.stack)
  {
    if AddressOperands(ins) >= 1 { OperandAgrees(sh, a, b, 0); }
    if AddressOperands(ins) >= 2 { OperandAgrees(sh, a, b, 1); }
  }

  lemma ExpandAgrees(m: Words, a: seq<Byte>, b: seq<Byte>, end: nat)
    requires MemAgrees(m, a, b)
    ensures MemAgrees(m, Expand(a, end), Expand(b, end))
  {
  }

  /** A memory range that touches no tainted word holds the same bytes. */
  lemma RangeAgrees(m: Words, a: seq<Byte>, b: seq<Byte>, start: nat, length: nat)
    requires MemAgrees(m, a, b) && start + length <= |a|
    requires Touched(m, start, length) == {}
    ensures a[start..start + length] == b[start..start + length]
  {
    forall i | start <= i < start + length ensures a[i] == b[i] {
      if At(m, Regulate(i)) != Untainted {
        LoadSeesTaint(m, {i}, start, length, i);
      }
    }
  }

  lemma WriteAgrees(m: Words, a: seq<Byte>, b: seq<Byte>, start: nat, x: seq<Byte>, y: seq<Byte>, value: FlowNode)
    requires MemAgrees(m, a, b) && 0 < |x| == |y| && start + |x| <= |a|
    requires value == Untainted ==> x == y
    ensures MemAgrees(Stored(m, start, |x|, value), Write(a, start, x), Write(b, start, y))
  {
    var m', a', b' := Stored(m, start, |x|, value), Write(a, start, x), Write(b, start, y);
    forall i | 0 <= i < |a'| && At(m', Regulate(i)) == Untainted ensures a'[i] == b'[i] {
      WriteAt(a, start, x, i);
      WriteAt(b, start, y, i);
      StoredUntainted(m, start, |x|, value, i);
    }
  }

  lemma WriteAt(mem: seq<Byte>, start: nat, x: seq<Byte>, i: nat)
    requires start + |x| <= |mem| && i < |mem|
    ensures Write(mem, start, x)[i] == if start <= i < start + |x| then x[i - start] else mem[i]
  {
  }

  /** Storing a tainted node over a range never untaints a word. */
  lemma StoredTaintKeeps(m: Words, start: nat, length: nat, node: FlowNode, w: nat)
    requires node != Untainted && At(m, w) != Untainted
    ensures At(Stored(m, start, length, node), w) != Untainted
  {
  }

  lemma OperandsAgree(sh: Shadow, a: State, b: State, n: nat)
    requires StackAgrees(sh, a, b) && n <= |sh.stack|
    requires Upstream(sh.stack[|sh.stack| - n..]) == {}
    ensures a.stack[|a.stack| - n..] == b.stack[|b.stack| - n..]
    ensures n > 0 ==> Back(a.stack, 0) == Back(b.stack, 0)
  {
    var args := sh.stack[|sh.stack| - n..];
    var xs, ys := a.stack[|a.stack| - n..], b.stack[|b.stack| - n..];
    forall i | 0 <= i < n ensures xs[i] == ys[i] {
      assert args[i] !in Upstream(args);
      assert args[i] == sh.stack[|sh.stack| - n + i];
    }
    assert n > 0 ==> Back(a.stack, 0) == xs[n - 1] && Back(b.stack, 0) == ys[n - 1];
  }

  lemma MemReadAgrees(ins: Instr, sh: Shadow, a: State, b: State, am: seq<Byte>, bm: seq<Byte>)
    requires ins.Keccak? || ins.Mload?
    requires |sh.stack| >= Needs(ins) && StackAgrees(sh, a, b) && AddressesUntainted(ins, sh)
    requires |am| >= Area(ins, a.stack) && |bm| >= Area(ins, b.stack) && MemAgrees(sh.mem, am, bm)
    requires Touched(sh.mem, Back(a.stack, 0), if ins.Mload? then 32 else Back(a.stack, 1)) == {}
    ensures Back(a.stack, 0) == Back(b.stack, 0) && (ins.Keccak? ==> Back(a.stack, 1) == Back(b.stack, 1))
    ensures var length := if ins.Mload? then 32 else Back(a.stack, 1);
            length > 0 ==> am[Back(a.stack, 0)..Back(a.stack, 0) + length] == bm[Back(a.stack, 0)..Back(a.stack, 0) + length]
  {
    OperandAgrees(sh, a, b, 0);
    if ins.Keccak? { OperandAgrees(sh, a, b, 1); }
    var length := if ins.Mload? then 32 else Back(a.stack, 1);
    if length > 0 {
      RangeAgrees(sh.mem, am, bm, Back(a.stack, 0), length);
    }
  }

  lemma StateReadAgrees(w: World, shared: Shared, ins: Instr, sh: Shadow, a: State, b: State)
    requires ins.Sload? || ins.Balance? || ins.SelfBalance?
    requires |sh.stack| >= Needs(ins) && Agrees(shared, w.self, sh, a, b)
    requires !SharedVariableLoaded(shared, w.self, ins, a.stack)
    requires Upstream(sh.stack[|sh.stack| - Pops(ins)..]) == {}
    requires ins.Sload? ==> StorageAt(sh.stor, Back(a.stack, 0)) == Untainted
    ensures ins.Sload? ==> Back(a.stack, 0) == Back(b.stack, 0) && Get(a.stor, Back(a.stack, 0), 0) == Get(b.stor, Back(a.stack, 0), 0)
    ensures ins.Balance? ==> (Back(a.stack, 0) == Back(b.stack, 0)
              && Get(a.bal, ToAddress(Back(a.stack, 0)), 0) == Get(b.bal, ToAddress(Back(a.stack, 0)), 0))
    ensures ins.SelfBalance? ==> Get(a.bal, w.self, 0) == Get(b.bal, w.self, 0)
  {
    OperandsAgree(sh, a, b, Pops(ins));
    assert ins.Balance? ==> shared != BalanceVariable(ToAddress(Back(a.stack, 0)));
    assert ins.SelfBalance? ==> shared != BalanceVariable(w.self);
  }

  lemma KeccakResultAgrees(w: World, shared: Shared, control: FlowNode, ins: Instr, sh: Shadow, a: State, b: State,
                          am: seq<Byte>, bm: seq<Byte>)
    requires ins.Keccak?
    requires WellFormed(ins) && |sh.stack| >= Needs(ins) && Pushes(ins) == 1
    requires Agrees(shared, w.self, sh, a, b) && AddressesUntainted(ins, sh)
    requires |am| >= Area(ins, a.stack) && |bm| >= Area(ins, b.stack) && MemAgrees(sh.mem, am, bm)
    requires ShadowResults(shared, control, w.self, ins, a.stack, sh)[0] == Untainted
    ensures Results(w, ins, a, am) == Results(w, ins, b, bm)
  {
    MemReadAgrees(ins, sh, a, b, am, bm);
  }

  lemma MloadResultAgrees(w: World, shared: Shared, control: FlowNode, ins: Instr, sh: Shadow, a: State, b: State,
                          am: seq<Byte>, bm: seq<Byte>)
    requires ins.Mload?
    requires WellFormed(ins) && |sh.stack| >= Needs(ins) && Pushes(ins) == 1
    requires Agrees(shared, w.self, sh, a, b) && AddressesUntainted(ins, sh)
    requires |am| >= Area(ins, a.stack) && |bm| >= Area(ins, b.stack) && MemAgrees(sh.mem, am, bm)
    requires ShadowResults(shared, control, w.self, ins, a.stack, sh)[0] == Untainted
    ensures Results(w, ins, a, am) == Results(w, ins, b, bm)
  {
    MemReadAgrees(ins, sh, a, b, am, bm);
  }

  lemma StateResultAgrees(w: World, shared: Shared, control: FlowNode, ins: Instr, sh: Shadow, a: State, b: State,
                          am: seq<Byte>, bm: seq<Byte>)
    requires ins.Sload? || ins.Balance? || ins.SelfBalance?
    requires WellFormed(ins) && |sh.stack| >= Needs(ins) && Pushes(ins) == 1
    requires Agrees(shared, w.self, sh, a, b) && AddressesUntainted(ins, sh)
    requires |am| >= Area(ins, a.stack) && |bm| >= Area(ins, b.stack) && MemAgrees(sh.mem, am, bm)
    requires ShadowResults(shared, control, w.self, ins, a.stack, sh)[0] == Untainted
    ensures Results(w, ins, a, am) == Results(w, ins, b, bm)
  {
    PushedResult(shared, control, w.self, ins, a.stack, sh);
    if ins.Sload? {
      OneTainted(StorageAt(sh.stor, Back(a.stack, 0)));
    }
    OneTainted(Untainted);
    StateReadAgrees(w, shared, ins, sh, a, b);
  }

  lemma OperandResultAgrees(w: World, shared: Shared, control: FlowNode, ins: Instr, sh: Shadow, a: State, b: State,
                          am: seq<Byte>, bm: seq<Byte>)
    requires ins.Pure? || ins.BlockHash? || ins.Dup?
    requires WellFormed(ins) && |sh.stack| >= Needs(ins) && Pushes(ins) == 1
    requires Agrees(shared, w.self, sh, a, b) && AddressesUntainted(ins, sh)
    requires |am| >= Area(ins, a.stack) && |bm| >= Area(ins, b.stack) && MemAgrees(sh.mem, am, bm)
    requires ShadowResults(shared, control, w.self, ins, a.stack, sh)[0] == Untainted
    ensures Results(w, ins, a, am) == Results(w, ins, b, bm)
  {
    if ins.Pure? {
      OperandsAgree(sh, a, b, ins.pops);
    } else if ins.BlockHash? {
      OperandAgrees(sh, a, b, 0);
    } else {
      OperandAgrees(sh, a, b, ins.n - 1);
    }
  }

  lemma ResultAgrees(w: World, shared: Shared, control: FlowNode, ins: Instr, sh: Shadow, a: State, b: State,
                          am: seq<Byte>, bm: seq<Byte>)
    requires WellFormed(ins) && |sh.stack| >= Needs(ins) && Pushes(ins) == 1
    requires Agrees(shared, w.self, sh, a, b) && AddressesUntainted(ins, sh)
    requires |am| >= Area(ins, a.stack) && |bm| >= Area(ins, b.stack) && MemAgrees(sh.mem, am, bm)
    requires ShadowResults(shared, control, w.self, ins, a.stack, sh)[0] == Untainted
    ensures Results(w, ins, a, am) == Results(w, ins, b, bm)
  {
    if ins.Keccak? {
      KeccakResultAgrees(w, shared, control, ins, sh, a, b, am, bm);
    } else if ins.Mload? {
      MloadResultAgrees(w, shared, control, ins, sh, a, b, am, bm);
    } else if ins.Sload? || ins.Balance? || ins.SelfBalance? {
      StateResultAgrees(w, shared, control, ins, sh, a, b, am, bm);
    } else if ins.Pure? || ins.BlockHash? || ins.Dup? {
      OperandResultAgrees(w, shared, control, ins, sh, a, b, am, bm);
    }
  }

  lemma MemAfterAgrees(control: FlowNode, ins: Instr, sh: Shadow, a: State, b: State, am: seq<Byte>, bm: seq<Byte>)
    requires |sh.stack| >= Needs(ins) && StackAgrees(sh, a, b) && AddressesUntainted(ins, sh)
    requires |am| >= Area(ins, a.stack) && |bm| >= Area(ins, b.stack) && MemAgrees(sh.mem, am, bm)
    ensures MemAgrees(ShadowMemAfter(control, ins, a.stack, sh), MemAfter(ins, a.stack, am), MemAfter(ins, b.stack, bm))
  {
    if ins.Mstore? || ins.Mstore8? {
      OperandAgrees(sh, a, b, 0);
      var start, value := Back(a.stack, 0), Arg(sh.stack, 1);
      if value == Untainted { OperandAgrees(sh, a, b, 1); }
      var x := if ins.Mstore? then WordBytes(Back(a.stack, 1)) else [Back(a.stack, 1) % 256];
      var y := if ins.Mstore? then WordBytes(Back(b.stack, 1)) else [Back(b.stack, 1) % 256];
      WriteAgrees(sh.mem, am, bm, start, x, y, value);
      if value == Untainted && control != Untainted {
        var m, node := Stored(sh.mem, start, |x|, value), NewNode(sh.index, control, {});
        forall w | At(m, w) != Untainted ensures At(Stored(m, start, |x|, node), w) != Untainted {
          StoredTaintKeeps(m, start, |x|, node, w);
        }
      }
    }
  }

  lemma StorAfterAgrees(shared: Shared, self: Address, control: FlowNode, ins: Instr, sh: Shadow,
                        a: State, b: State, a': State, b': State)
    requires |sh.stack| >= Needs(ins) && StackAgrees(sh, a, b) && AddressesUntainted(ins, sh)
    requires StorAgrees(shared, self, sh.stor, a, b)
    requires a'.stor == if ins.Sstore? then a.stor[Back(a.stack, 0) := Back(a.stack, 1)] else a.stor
    requires b'.stor == if ins.Sstore? then b.stor[Back(b.stack, 0) := Back(b.stack, 1)] else b.stor
    ensures StorAgrees(shared, self, ShadowStorAfter(control, ins, a.stack, sh), a', b')
  {
    if ins.Sstore? {
      OperandAgrees(sh, a, b, 0);
      var args := sh.stack[|sh.stack| - 2..];
      if Upstream(args) == {} {
        assert args[0] !in Upstream(args);
        OperandAgrees(sh, a, b, 1);
      }
    }
  }

  lemma PushedAgree(nodes: seq<FlowNode>, a: seq<Word>, b: seq<Word>, n: nat, results: seq<FlowNode>, ra: seq<Word>, rb: seq<Word>)
    requires WordsAgree(nodes, a, b) && n <= |nodes| && WordsAgree(results, ra, rb)
    ensures WordsAgree(nodes[..|nodes| - n] + results, a[..|a| - n] + ra, b[..|b| - n] + rb)
  {
  }

  lemma SwappedAgree(nodes: seq<FlowNode>, a: seq<Word>, b: seq<Word>, n: nat)
    requires WordsAgree(nodes, a, b) && 0 < n < |nodes|
    ensures WordsAgree(MirrorSwap(nodes, n), SwapTop(a, n), SwapTop(b, n))
  {
  }

  lemma StackAfterAgrees(shared: Shared, control: FlowNode, self: Address, ins: Instr, sh: Shadow,
                         a: State, b: State, ra: seq<Word>, rb: seq<Word>, a': State, b': State)
    requires WellFormed(ins) && |sh.stack| >= Needs(ins) && StackAgrees(sh, a, b)
    requires |ra| == |rb| == Pushes(ins) <= 1
    requires Pushes(ins) == 1 && ShadowResults(shared, control, self, ins, a.stack, sh)[0] == Untainted ==> ra == rb
    requires a'.stack == (if ins.Swap? then SwapTop(a.stack, ins.n) else a.stack[..|a.stack| - Pops(ins)]) + ra
    requires b'.stack == (if ins.Swap? then SwapTop(b.stack, ins.n) else b.stack[..|b.stack| - Pops(ins)]) + rb
    ensures StackAgrees(ShadowStep(shared, control, self, ins, a.stack, sh), a', b')
  {
    var results := ShadowResults(shared, control, self, ins, a.stack, sh);
    assert WordsAgree(results, ra, rb);
    if ins.Swap? {
      SwappedAgree(sh.stack, a.stack, b.stack, ins.n);
      PushedAgree(MirrorSwap(sh.stack, ins.n), SwapTop(a.stack, ins.n), SwapTop(b.stack, ins.n), 0, results, ra, rb);
    } else {
      PushedAgree(sh.stack, a.stack, b.stack, Pops(ins), results, ra, rb);
    }
  }

  /** With an untainted jump both runs go to the same place or stop together. */
  lemma NextPcAgrees(code: Code, ins: Instr, sh: Shadow, a: State, b: State)
    requires a.pc == b.pc && StackAgrees(sh, a, b) && |sh.stack| >= Needs(ins) && !TaintedJump(ins, sh)
    ensures NextPc(code, ins, a) == NextPc(code, ins, b)
  {
    if ins.Jump? || ins.Jumpi? {
      OperandAgrees(sh, a, b, 0);
      if ins.Jumpi? { OperandAgrees(sh, a, b, 1); }
    }
  }

  /** One step of both runs, the first one traced, that goes to the same place. */
  lemma StepTogether(w: World, code: Code, shared: Shared, control: FlowNode, sh: Shadow, a: State, b: State)
    requires Agrees(shared, w.self, sh, a, b)
    requires a.pc in code && AddressesUntainted(code[a.pc], sh)
    requires Step(w, code, a).Next? && Step(w, code, b).Next? && Step(w, code, a).s.pc == Step(w, code, b).s.pc
    ensures Agrees(shared, w.self, ShadowStep(shared, control, w.self, code[a.pc], a.stack, sh),
                   Step(w, code, a).s, Step(w, code, b).s)
  {
    var ins := code[a.pc];
    SameArea(ins, sh, a, b);
    var a', b' := Step(w, code, a).s, Step(w, code, b).s;
    var am, bm := Expand(a.mem, Area(ins, a.stack)), Expand(b.mem, Area(ins, b.stack));
    ExpandAgrees(sh.mem, a.mem, b.mem, Area(ins, a.stack));
    MemAfterAgrees(control, ins, sh, a, b, am, bm);
    StorAfterAgrees(shared, w.self, control, ins, sh, a, b, a', b');
    if Pushes(ins) == 1 && ShadowResults(shared, control, w.self, ins, a.stack, sh)[0] == Untainted {
      ResultAgrees(w, shared, control, ins, sh, a, b, am, bm);
    }
    StackAfterAgrees(shared, control, w.self, ins, sh, a, b, Results(w, ins, a, am), Results(w, ins, b, bm), a', b');
  }

  /** An untainted step halts both runs or neither, and goes to the same place. */
  lemma StepSamePlace(w: World, code: Code, sh: Shadow, a: State, b: State)
    requires a.pc == b.pc && StackAgrees(sh, a, b)
    requires a.pc in code && AddressesUntainted(code[a.pc], sh) && !TaintedJump(code[a.pc], sh)
    ensures Step(w, code, a).Next? <==> Step(w, code, b).Next?
    ensures Step(w, code, a).Next? ==> Step(w, code, a).s.pc == Step(w, code, b).s.pc
  {
    var ins := code[a.pc];
    if |sh.stack| >= Needs(ins) {
      SameArea(ins, sh, a, b);
      NextPcAgrees(code, ins, sh, a, b);
    }
  }

  /** One step of both runs, the first one traced. */
  lemma StepAgrees(w: World, code: Code, shared: Shared, control: FlowNode, sh: Shadow, a: State, b: State)
    requires Agrees(shared, w.self, sh, a, b)
    requires a.pc in code && AddressesUntainted(code[a.pc], sh) && !TaintedJump(code[a.pc], sh)
    ensures Step(w, code, a).Next? <==> Step(w, code, b).Next?
    ensures Step(w, code, a).Next? ==>
              Agrees(shared, w.self, ShadowStep(shared, control, w.self, code[a.pc], a.stack, sh),
                     Step(w, code, a).s, Step(w, code, b).s)
  {
    StepSamePlace(w, code, sh, a, b);
    if Step(w, code, a).Next? {
      StepTogether(w, code, shared, control, sh, a, b);
    }
  }

  /** The state is the same but for the shared variable. */
  ghost predicate SameButShared(shared: Shared, self: Address, s: State, t: State) {
    && s.pc == t.pc && s.stack == t.stack && s.mem == t.mem
    && (forall k: Word :: !ReadsShared(shared, self, k) ==> Get(s.stor, k, 0) == Get(t.stor, k, 0))
    && BalAgrees(shared, s, t)
  }

  /** Another value of the shared variable alone makes the operation push something else. */
  ghost predicate ResultDependsOnShared(w: World, shared: Shared, ins: Instr, s: State, mem: seq<Byte>)
    requires |s.stack| >= Needs(ins) && WellFormed(ins) && |mem| >= Area(ins, s.stack)
  {
    exists t :: SameButShared(shared, w.self, s, t) && Results(w, ins, s, mem) != Results(w, ins, t, mem)
  }

  /** Only the shared variable's own load reads it. */
  lemma OthersReadTheSame(w: World, shared: Shared, ins: Instr, s: State, t: State, mem: seq<Byte>)
    requires |s.stack| >= Needs(ins) && WellFormed(ins) && |mem| >= Area(ins, s.stack)
    requires SameButShared(shared, w.self, s, t) && !SharedVariableLoaded(shared, w.self, ins, s.stack)
    ensures Results(w, ins, s, mem) == Results(w, ins, t, mem)
  {
    if ins.Sload? {
      assert !ReadsShared(shared, w.self, Back(s.stack, 0));
    } else if ins.Balance? {
      assert shared != BalanceVariable(ToAddress(Back(s.stack, 0)));
    } else if ins.SelfBalance? {
      assert shared != BalanceVariable(w.self);
    }
  }

  /** A load of the shared variable gives whatever value it has. */
  lemma LoadReadsShared(w: World, shared: Shared, ins: Instr, s: State, mem: seq<Byte>, other: Word) returns (t: State)
    requires |s.stack| >= Needs(ins) && WellFormed(ins) && |mem| >= Area(ins, s.stack)
    requires SharedVariableLoaded(shared, w.self, ins, s.stack)
    ensures SameButShared(shared, w.self, s, t) && Results(w, ins, t, mem) == [other]
  {
    if shared.StorageVariable? {
      t := s.(stor := s.stor[shared.key := other]);
    } else {
      t := s.(bal := s.bal[shared.account := other]);
    }
  }

  lemma LoadedExactly(w: World, shared: Shared, ins: Instr, s: State, mem: seq<Byte>)
    requires |s.stack| >= Needs(ins) && WellFormed(ins) && |mem| >= Area(ins, s.stack)
    ensures SharedVariableLoaded(shared, w.self, ins, s.stack) == ResultDependsOnShared(w, shared, ins, s, mem)
  {
    if SharedVariableLoaded(shared, w.self, ins, s.stack) {
      var zero := LoadReadsShared(w, shared, ins, s, mem, 0);
      var one := LoadReadsShared(w, shared, ins, s, mem, 1);
      DifferentWords();
      assert Results(w, ins, s, mem) != Results(w, ins, zero, mem) || Results(w, ins, s, mem) != Results(w, ins, one, mem);
    } else if ResultDependsOnShared(w, shared, ins, s, mem) {
      var t :| SameButShared(shared, w.self, s, t) && Results(w, ins, s, mem) != Results(w, ins, t, mem);
      OthersReadTheSame(w, shared, ins, s, t, mem);
    }
  }

  lemma DifferentWords()
    ensures [0 as Word] != [1 as Word]
  {
    assert [0 as Word][0] == 0;
  }

  /** An operation is recorded as a source exactly when what it pushes depends on the shared variable. */
  lemma SourcesExactly(w: World, shared: Shared, control: FlowNode, ins: Instr, s: State, mem: seq<Byte>, sh: Shadow)
    requires WellFormed(ins) && |s.stack| == |sh.stack| >= Needs(ins) && |mem| >= Area(ins, s.stack)
    requires sh.index !in sh.sources
    ensures (sh.index in ShadowStep(shared, control, w.self, ins, s.stack, sh).sources) == ResultDependsOnShared(w, shared, ins, s, mem)
  {
    LoadedExactly(w, shared, ins, s, mem);
  }

  // ---- What a log writes ----

  datatype Logged = Logged(topics: seq<Word>, data: seq<Byte>)

  /** The topics, last one first, and the bytes of memory a log carries. */
  function LoggedBy(ins: Instr, s: State): Logged
    requires ins.Log? && |s.stack| >= Needs(ins)
  {
    var offset, length := Back(s.stack, 0), Back(s.stack, 1);
    Logged(s.stack[|s.stack| - Pops(ins)..][..ins.topics],
           if length == 0 then [] else Expand(s.mem, Area(ins, s.stack))[offset..offset + length])
  }

  /** When two runs that agree come to a log and log different things, the log is reported. */
  lemma LogAgreesOrReported(shared: Shared, control: FlowNode, self: Address, ins: Instr, sh: Shadow, a: State, b: State)
    requires ins.Log? && WellFormed(ins) && |sh.stack| >= Needs(ins) && sh.index !in sh.logs
    requires StackAgrees(sh, a, b) && MemAgrees(sh.mem, a.mem, b.mem) && AddressesUntainted(ins, sh)
    requires LoggedBy(ins, a) != LoggedBy(ins, b)
    ensures sh.index in ShadowStep(shared, control, self, ins, a.stack, sh).logs
  {
    TaintedLogIsReported(shared, control, self, ins, a.stack, sh);
    if !TaintedLog(ins, a.stack, sh) {
      LoggedTopicsAgree(ins, sh, a, b);
      LogAddressesUntainted(ins, sh);
      OperandAgrees(sh, a, b, 0);
      OperandAgrees(sh, a, b, 1);
      LoggedDataAgrees(ins, sh, a, b);
    }
  }

  lemma LoggedTopicsAgree(ins: Instr, sh: Shadow, a: State, b: State)
    requires ins.Log? && |sh.stack| >= Needs(ins) && StackAgrees(sh, a, b)
    requires forall i :: 2 <= i < Pops(ins) ==> Arg(sh.stack, i) == Untainted
    ensures LoggedBy(ins, a).topics == LoggedBy(ins, b).topics
  {
    forall j | 0 <= j < ins.topics ensures LoggedBy(ins, a).topics[j] == LoggedBy(ins, b).topics[j] {
      OperandAgrees(sh, a, b, Pops(ins) - 1 - j);
    }
  }

  lemma LogAddressesUntainted(ins: Instr, sh: Shadow)
    requires ins.Log? && |sh.stack| >= Needs(ins) && AddressesUntainted(ins, sh)
    ensures |sh.stack| >= 2 && Arg(sh.stack, 0) == Untainted && Arg(sh.stack, 1) == Untainted
  {
  }

  lemma LoggedDataAgrees(ins: Instr, sh: Shadow, a: State, b: State)
    requires ins.Log? && |a.stack| == |b.stack| >= Needs(ins)
    requires Back(a.stack, 0) == Back(b.stack, 0) && Back(a.stack, 1) == Back(b.stack, 1) && MemAgrees(sh.mem, a.mem, b.mem)
    requires !TaintedBytes(sh.mem, Back(a.stack, 0), Back(a.stack, 1))
    ensures LoggedBy(ins, a).data == LoggedBy(ins, b).data
  {
    if Back(a.stack, 1) > 0 {
      CleanBytesAgree(sh.mem, a.mem, b.mem, Back(a.stack, 0), Back(a.stack, 1));
    }
  }

  lemma CleanBytesAgree(m: Words, a: seq<Byte>, b: seq<Byte>, start: nat, length: nat)
    requires MemAgrees(m, a, b) && !TaintedBytes(m, start, length)
    ensures Expand(a, start + length)[start..start + length] == Expand(b, start + length)[start..start + length]
  {
    TouchedIsTaintedBytes(m, start, length);
    ExpandAgrees(m, a, b, start + length);
    RangeAgrees(m, Expand(a, start + length), Expand(b, start + length), start, length);
  }

  // ---- Whole runs ----

  /** The state after `n` steps, Done if the run ends before. */
  function StepN(w: World, code: Code, s: State, n: nat): Outcome
    decreases n
  {
    if n == 0 then Next(s)
    else match Step(w, code, s)
      case Next(s') => StepN(w, code, s', n - 1)
      case Done => Done
  }

  /** The program counters of the first `n` instructions the run comes to. */
  function Pcs(w: World, code: Code, s: State, n: nat): seq<nat>
    decreases n
  {
    if n == 0 then []
    else match Step(w, code, s)
      case Next(s') => [s.pc] + Pcs(w, code, s', n - 1)
      case Done => [s.pc]
  }

  lemma MirrorStep(w: World, code: Code, shared: Shared, control: FlowNode, s: State, sh: Shadow)
    requires |s.stack| == |sh.stack| && Step(w, code, s).Next?
    ensures |ShadowStep(shared, control, w.self, code[s.pc], s.stack, sh).stack| == |Step(w, code, s).s.stack|
  {
  }

  /**
   `diverging(i)` names the jump the path diverged at, as the analyzer sees it at operation i; it
   gives a control node only if that jump was reported. Every choice is allowed.
   */
  function Control(diverging: nat -> nat, sh: Shadow): FlowNode {
    Get(sh.jumps, diverging(sh.index), Untainted)
  }

  /** The mirrored state after the tracer has seen the instruction at `s`. */
  function NextShadow(w: World, code: Code, shared: Shared, diverging: nat -> nat, s: State, sh: Shadow): Shadow
    requires |s.stack| == |sh.stack| && s.pc in code
  {
    if |sh.stack| >= Needs(code[s.pc])
    then ShadowStep(shared, Control(diverging, sh), w.self, code[s.pc], s.stack, sh) else sh
  }

  /** The mirrored state after `n` traced steps from `s`. */
  function ShadowN(w: World, code: Code, shared: Shared, diverging: nat -> nat, s: State, sh: Shadow, n: nat): Shadow
    requires |s.stack| == |sh.stack|
    requires StepN(w, code, s, n).Next?
    decreases n
  {
    if n == 0 then sh
    else
      MirrorStep(w, code, shared, Control(diverging, sh), s, sh);
      ShadowN(w, code, shared, diverging, Step(w, code, s).s, NextShadow(w, code, shared, diverging, s, sh), n - 1)
  }

  /** Along the first `n` instructions of the traced run no address carries taint. */
  ghost predicate AddressesUntaintedFor(w: World, code: Code, shared: Shared, diverging: nat -> nat, s: State, sh: Shadow, n: nat) {
    forall k :: 0 <= k < n && |s.stack| == |sh.stack| && StepN(w, code, s, k).Next? && StepN(w, code, s, k).s.pc in code ==>
      AddressesUntainted(code[StepN(w, code, s, k).s.pc], ShadowN(w, code, shared, diverging, s, sh, k))
  }

  /** The traced run comes to a tainted jump at its `k`-th instruction. */
  ghost predicate TaintedJumpAt(w: World, code: Code, shared: Shared, diverging: nat -> nat, s: State, sh: Shadow, k: nat) {
    && |s.stack| == |sh.stack| && StepN(w, code, s, k).Next? && StepN(w, code, s, k).s.pc in code
    && TaintedJump(code[StepN(w, code, s, k).s.pc], ShadowN(w, code, shared, diverging, s, sh, k))
  }

  /** The traced run after its first step, and the same run from there. */
  lemma TailStep(w: World, code: Code, shared: Shared, diverging: nat -> nat, s: State, sh: Shadow, k: nat)
    requires |s.stack| == |sh.stack| && Step(w, code, s).Next?
    ensures var s', sh' := Step(w, code, s).s, NextShadow(w, code, shared, diverging, s, sh);
            && |s'.stack| == |sh'.stack|
            && StepN(w, code, s, k + 1) == StepN(w, code, s', k)
            && (StepN(w, code, s', k).Next? ==>
                  ShadowN(w, code, shared, diverging, s, sh, k + 1) == ShadowN(w, code, shared, diverging, s', sh', k))
  {
    MirrorStep(w, code, shared, Control(diverging, sh), s, sh);
  }

  lemma TailQuiet(w: World, code: Code, shared: Shared, diverging: nat -> nat, s: State, sh: Shadow, n: nat)
    requires n > 0 && |s.stack| == |sh.stack| && Step(w, code, s).Next?
    requires AddressesUntaintedFor(w, code, shared, diverging, s, sh, n)
    requires forall k :: 0 <= k < n ==> !TaintedJumpAt(w, code, shared, diverging, s, sh, k)
    ensures var s', sh' := Step(w, code, s).s, NextShadow(w, code, shared, diverging, s, sh);
            && AddressesUntaintedFor(w, code, shared, diverging, s', sh', n - 1)
            && forall k :: 0 <= k < n - 1 ==> !TaintedJumpAt(w, code, shared, diverging, s', sh', k)
  {
    var s', sh' := Step(w, code, s).s, NextShadow(w, code, shared, diverging, s, sh);
    forall k | 0 <= k < n - 1 ensures !TaintedJumpAt(w, code, shared, diverging, s', sh', k) {
      TailStep(w, code, shared, diverging, s, sh, k);
      assert !TaintedJumpAt(w, code, shared, diverging, s, sh, k + 1);
    }
    forall k | 0 <= k < n - 1 && |s'.stack| == |sh'.stack| && StepN(w, code, s', k).Next? && StepN(w, code, s', k).s.pc in code
      ensures AddressesUntainted(code[StepN(w, code, s', k).s.pc], ShadowN(w, code, shared, diverging, s', sh', k))
    {
      TailStep(w, code, shared, diverging, s, sh, k);
      assert StepN(w, code, s, k + 1).Next?;
    }
  }

  /** No tainted address and no tainted jump in the first `n` instructions, instruction by instruction. */
  ghost predicate Quiet(w: World, code: Code, shared: Shared, diverging: nat -> nat, s: State, sh: Shadow, n: nat)
    requires |s.stack| == |sh.stack|
    decreases n
  {
    n > 0 && s.pc in code ==>
      && AddressesUntainted(code[s.pc], sh)
      && !TaintedJump(code[s.pc], sh)
      && (Step(w, code, s).Next? ==>
            (MirrorStep(w, code, shared, Control(diverging, sh), s, sh);
             Quiet(w, code, shared, diverging, Step(w, code, s).s, NextShadow(w, code, shared, diverging, s, sh), n - 1)))
  }

  lemma {:induction false} QuietRun(w: World, code: Code, shared: Shared, diverging: nat -> nat, s: State, sh: Shadow, n: nat)
    requires |s.stack| == |sh.stack|
    requires AddressesUntaintedFor(w, code, shared, diverging, s, sh, n)
    requires forall k :: 0 <= k < n ==> !TaintedJumpAt(w, code, shared, diverging, s, sh, k)
    ensures Quiet(w, code, shared, diverging, s, sh, n)
    decreases n
  {
    if n > 0 && s.pc in code {
      assert StepN(w, code, s, 0) == Next(s) && !TaintedJumpAt(w, code, shared, diverging, s, sh, 0);
      if Step(w, code, s).Next? {
        TailQuiet(w, code, shared, diverging, s, sh, n);
        QuietRun(w, code, shared, diverging, Step(w, code, s).s, NextShadow(w, code, shared, diverging, s, sh), n - 1);
      }
    }
  }

  /** Over a quiet run of the first state the runs stay in step and agree. */
  lemma {:induction false} RunsAgree(w: World, code: Code, shared: Shared, diverging: nat -> nat,
                                     a: State, b: State, sh: Shadow, n: nat)
    requires Agrees(shared, w.self, sh, a, b)
    requires Quiet(w, code, shared, diverging, a, sh, n)
    ensures Pcs(w, code, a, n) == Pcs(w, code, b, n)
    ensures StepN(w, code, a, n).Next? <==> StepN(w, code, b, n).Next?
    ensures StepN(w, code, a, n).Next? ==>
              Agrees(shared, w.self, ShadowN(w, code, shared, diverging, a, sh, n),
                     StepN(w, code, a, n).s, StepN(w, code, b, n).s)
    decreases n
  {
    if n > 0 && a.pc in code {
      StepAgrees(w, code, shared, Control(diverging, sh), sh, a, b);
      if Step(w, code, a).Next? {
        RunsAgree(w, code, shared, diverging, Step(w, code, a).s, Step(w, code, b).s,
                  NextShadow(w, code, shared, diverging, a, sh), n - 1);
      }
    }
  }

  /** Two starts of one call that differ at most in the shared variable. */
  ghost predicate SameStart(shared: Shared, self: Address, a: State, b: State) {
    && a.pc == b.pc == 0 && a.stack == b.stack == [] && a.mem == b.mem == []
    && (forall k: Word :: !ReadsShared(shared, self, k) ==> Get(a.stor, k, 0) == Get(b.stor, k, 0))
    && BalAgrees(shared, a, b)
  }

  /**
   Taint soundness. From starts that differ only at the shared variable, with a fresh tracer on the
   first run: as long as no address is tainted and no tainted jump has been reported, both runs
   execute the same program counters and agree on all that carries no node.
   */
  lemma TaintSound(w: World, code: Code, shared: Shared, diverging: nat -> nat, a: State, b: State, n: nat)
    requires SameStart(shared, w.self, a, b)
    requires AddressesUntaintedFor(w, code, shared, diverging, a, EmptyShadow, n)
    requires forall k :: 0 <= k < n ==> !TaintedJumpAt(w, code, shared, diverging, a, EmptyShadow, k)
    ensures Pcs(w, code, a, n) == Pcs(w, code, b, n)
    ensures StepN(w, code, a, n).Next? <==> StepN(w, code, b, n).Next?
    ensures StepN(w, code, a, n).Next? ==>
              Agrees(shared, w.self, ShadowN(w, code, shared, diverging, a, EmptyShadow, n),
                     StepN(w, code, a, n).s, StepN(w, code, b, n).s)
  {
    QuietRun(w, code, shared, diverging, a, EmptyShadow, n);
    RunsAgree(w, code, shared, diverging, a, b, EmptyShadow, n);
  }

  /** So when the runs part ways, the traced run has come to a tainted jump before. */
  lemma DivergenceIsReported(w: World, code: Code, shared: Shared, diverging: nat -> nat, a: State, b: State, n: nat)
    requires SameStart(shared, w.self, a, b)
    requires AddressesUntaintedFor(w, code, shared, diverging, a, EmptyShadow, n)
    requires Pcs(w, code, a, n) != Pcs(w, code, b, n)
    ensures exists k :: 0 <= k < n && TaintedJumpAt(w, code, shared, diverging, a, EmptyShadow, k)
  {
    if forall k :: 0 <= k < n ==> !TaintedJumpAt(w, code, shared, diverging, a, EmptyShadow, k) {
      TaintSound(w, code, shared, diverging, a, b, n);
    }
  }

  // ---- Past reported jumps, as long as the runs go the same way ----

  /** Both runs take `n` steps, over the same program counters. */
  predicate Together(w: World, code: Code, a: State, b: State, n: nat)
    decreases n
  {
    a.pc == b.pc &&
    (n > 0 ==>
       && Step(w, code, a).Next? && Step(w, code, b).Next?
       && Together(w, code, Step(w, code, a).s, Step(w, code, b).s, n - 1))
  }

  lemma PcsFirst(w: World, code: Code, s: State, n: nat)
    requires n > 0
    ensures Pcs(w, code, s, n) != [] && Pcs(w, code, s, n)[0] == s.pc
    ensures Step(w, code, s).Next? ==> Pcs(w, code, s, n)[1..] == Pcs(w, code, Step(w, code, s).s, n - 1)
  {
  }

  lemma {:induction false} SamePcsTogether(w: World, code: Code, a: State, b: State, n: nat)
    requires StepN(w, code, a, n).Next? && StepN(w, code, b, n).Next?
    requires Pcs(w, code, a, n + 1) == Pcs(w, code, b, n + 1)
    ensures Together(w, code, a, b, n)
    decreases n
  {
    PcsFirst(w, code, a, n + 1);
    PcsFirst(w, code, b, n + 1);
    if n > 0 {
      SamePcsTogether(w, code, Step(w, code, a).s, Step(w, code, b).s, n - 1);
    }
  }

  lemma TailUntainted(w: World, code: Code, shared: Shared, diverging: nat -> nat, s: State, sh: Shadow, n: nat)
    requires n > 0 && |s.stack| == |sh.stack| && Step(w, code, s).Next?
    requires AddressesUntaintedFor(w, code, shared, diverging, s, sh, n)
    ensures var s', sh' := Step(w, code, s).s, NextShadow(w, code, shared, diverging, s, sh);
            AddressesUntainted(code[s.pc], sh) && AddressesUntaintedFor(w, code, shared, diverging, s', sh', n - 1)
  {
    var s', sh' := Step(w, code, s).s, NextShadow(w, code, shared, diverging, s, sh);
    assert StepN(w, code, s, 0) == Next(s);
    forall k | 0 <= k < n - 1 && |s'.stack| == |sh'.stack| && StepN(w, code, s', k).Next? && StepN(w, code, s', k).s.pc in code
      ensures AddressesUntainted(code[StepN(w, code, s', k).s.pc], ShadowN(w, code, shared, diverging, s', sh', k))
    {
      TailStep(w, code, shared, diverging, s, sh, k);
      assert StepN(w, code, s, k + 1).Next?;
    }
  }

  lemma {:induction false} TogetherAgree(w: World, code: Code, shared: Shared, diverging: nat -> nat,
                                         a: State, b: State, sh: Shadow, n: nat)
    requires Agrees(shared, w.self, sh, a, b) && Together(w, code, a, b, n)
    requires AddressesUntaintedFor(w, code, shared, diverging, a, sh, n)
    ensures StepN(w, code, a, n).Next? && StepN(w, code, b, n).Next?
    ensures Agrees(shared, w.self, ShadowN(w, code, shared, diverging, a, sh, n), StepN(w, code, a, n).s, StepN(w, code, b, n).s)
    decreases n
  {
    if n > 0 {
      TailUntainted(w, code, shared, diverging, a, sh, n);
      StepTogether(w, code, shared, Control(diverging, sh), sh, a, b);
      TogetherAgree(w, code, shared, diverging, Step(w, code, a).s, Step(w, code, b).s,
                    NextShadow(w, code, shared, diverging, a, sh), n - 1);
    }
  }

  /**
   Tainted jumps or not: as long as no address is tainted and both runs execute the same program
   counters, they agree on all that carries no node, whatever control node new nodes have got.
   */
  lemma TaintSoundTogether(w: World, code: Code, shared: Shared, diverging: nat -> nat, a: State, b: State, n: nat)
    requires SameStart(shared, w.self, a, b)
    requires AddressesUntaintedFor(w, code, shared, diverging, a, EmptyShadow, n)
    requires StepN(w, code, a, n).Next? && StepN(w, code, b, n).Next?
    requires Pcs(w, code, a, n + 1) == Pcs(w, code, b, n + 1)
    ensures Agrees(shared, w.self, ShadowN(w, code, shared, diverging, a, EmptyShadow, n),
                   StepN(w, code, a, n).s, StepN(w, code, b, n).s)
  {
    SamePcsTogether(w, code, a, b, n);
    TogetherAgree(w, code, shared, diverging, a, b, EmptyShadow, n);
  }

  // ---- Logs that differ ----

  /** Only operations already seen are reported. */
  predicate LogsSeen(sh: Shadow) {
    forall k :: k in sh.logs ==> k < sh.index
  }

  /** What has been reported stays reported. */
  lemma LogStaysReported(w: World, code: Code, shared: Shared, diverging: nat -> nat, s: State, sh: Shadow, n: nat, k: nat)
    requires |s.stack| == |sh.stack| && StepN(w, code, s, n).Next? && k in sh.logs
    ensures k in ShadowN(w, code, shared, diverging, s, sh, n).logs
  {
    var kept: Shadow -> bool := (sh: Shadow) => k in sh.logs;
    RunKeeps(kept, w, code, shared, diverging, s, sh, n);
  }

  /** Both states are at the same log, and it carries different things. */
  predicate LogDiffers(code: Code, s: State, t: State) {
    && s.pc == t.pc && s.pc in code && code[s.pc].Log?
    && |s.stack| >= Needs(code[s.pc]) && |t.stack| >= Needs(code[s.pc])
    && LoggedBy(code[s.pc], s) != LoggedBy(code[s.pc], t)
  }

  lemma LogReportedNext(w: World, code: Code, shared: Shared, diverging: nat -> nat, a: State, b: State, sh: Shadow)
    requires Agrees(shared, w.self, sh, a, b) && LogsSeen(sh)
    requires LogDiffers(code, a, b) && AddressesUntainted(code[a.pc], sh)
    ensures sh.index in NextShadow(w, code, shared, diverging, a, sh).logs
  {
    LogAgreesOrReported(shared, Control(diverging, sh), w.self, code[a.pc], sh, a, b);
  }

  lemma RunLogsSeen(w: World, code: Code, shared: Shared, diverging: nat -> nat, s: State, sh: Shadow, n: nat)
    requires |s.stack| == |sh.stack| && StepN(w, code, s, n).Next? && LogsSeen(sh)
    ensures LogsSeen(ShadowN(w, code, shared, diverging, s, sh, n))
  {
    var kept: Shadow -> bool := LogsSeen;
    RunKeeps(kept, w, code, shared, diverging, s, sh, n);
  }

  lemma {:induction false} RunIndex(w: World, code: Code, shared: Shared, diverging: nat -> nat, s: State, sh: Shadow, n: nat)
    requires |s.stack| == |sh.stack| && StepN(w, code, s, n).Next?
    ensures ShadowN(w, code, shared, diverging, s, sh, n).index == sh.index + n
    decreases n
  {
    if n > 0 {
      MirrorStep(w, code, shared, Control(diverging, sh), s, sh);
      RunIndex(w, code, shared, diverging, Step(w, code, s).s, NextShadow(w, code, shared, diverging, s, sh), n - 1);
    }
  }

  /**
   Two runs that differ only at the shared variable at the start and execute the same program counters
   come to a log as their `k`-th operation: if it carries other topics or other bytes in the second
   run, the tracer of the first one reports it.
   */
  lemma LogDifferenceIsReported(w: World, code: Code, shared: Shared, diverging: nat -> nat, a: State, b: State, k: nat)
    requires SameStart(shared, w.self, a, b)
    requires AddressesUntaintedFor(w, code, shared, diverging, a, EmptyShadow, k + 1)
    requires StepN(w, code, a, k).Next? && StepN(w, code, b, k).Next? && Pcs(w, code, a, k + 1) == Pcs(w, code, b, k + 1)
    requires LogDiffers(code, StepN(w, code, a, k).s, StepN(w, code, b, k).s)
    ensures var s, sh := StepN(w, code, a, k).s, ShadowN(w, code, shared, diverging, a, EmptyShadow, k);
            |s.stack| == |sh.stack| && sh.index == k && sh.index in NextShadow(w, code, shared, diverging, s, sh).logs
  {
    TaintSoundTogether(w, code, shared, diverging, a, b, k);
    RunLogsSeen(w, code, shared, diverging, a, EmptyShadow, k);
    RunIndex(w, code, shared, diverging, a, EmptyShadow, k);
    LogReportedNext(w, code, shared, diverging, StepN(w, code, a, k).s, StepN(w, code, b, k).s,
                    ShadowN(w, code, shared, diverging, a, EmptyShadow, k));
  }

  /** The tracer object, fed the instructions of a run, holds the mirrored state the statements above speak of. */
  method Trace(t: DataFlowTracer, w: World, code: Code, diverging: nat -> nat, s: State, n: nat)
    requires |s.stack| == |t.View().stack| && |s.stack| <= STACK_LIMIT && t.self == w.self
    modifies t, t.stack, t.memory, t.storage
    ensures |s.stack| == |old(t.View()).stack| && StepN(w, code, s, n).Next? ==>
              t.View() == ShadowN(w, code, t.shared, diverging, s, old(t.View()), n)
    decreases n
  {
    if n > 0 && s.pc in code && |s.stack| >= Needs(code[s.pc]) {
      ghost var sh := t.View();
      t.control := Control(diverging, t.View());
      t.CaptureState(code[s.pc], s.stack);
      assert t.View() == NextShadow(w, code, t.shared, diverging, s, sh);
      var next := Step(w, code, s);
      if next.Next? {
        MirrorStep(w, code, t.shared, Control(diverging, sh), s, sh);
        Trace(t, w, code, diverging, next.s, n - 1);
      }
    }
  }

  // ---- No taint without a source ----

  ghost predicate AllRooted(nodes: set<FlowNode>, sources: set<nat>) {
    forall n :: n in nodes ==> Rooted(n, sources)
  }

  /** Every node the tracer holds or has reported leads back to recorded sources only. */
  ghost predicate RootedShadow(sh: Shadow) {
    && (forall n :: n in sh.stack ==> Rooted(n, sh.sources))
    && AllRooted(sh.mem.Values, sh.sources)
    && AllRooted(sh.stor.Values, sh.sources)
    && AllRooted(sh.jumps.Values, sh.sources)
    && AllRooted(sh.logs.Values, sh.sources)
    && (forall k :: k in sh.jumps ==> sh.jumps[k] != Untainted)
    && (forall k :: k in sh.logs ==> sh.logs[k] != Untainted)
  }

  /** Everything the tracer holds or has reported. */
  function Held(sh: Shadow): set<FlowNode> {
    (set n | n in sh.stack) + sh.mem.Values + sh.stor.Values + sh.jumps.Values + sh.logs.Values
  }

  /** The same in one: all of it leads back to sources, and no report is empty. */
  ghost predicate HeldRooted(sh: Shadow) {
    AllRooted(Held(sh), sh.sources) && Untainted !in sh.jumps.Values + sh.logs.Values
  }

  lemma HeldIsShadow(sh: Shadow)
    ensures HeldRooted(sh) == RootedShadow(sh)
  {
    if HeldRooted(sh) {
      forall n | n in sh.stack || n in sh.mem.Values || n in sh.stor.Values || n in sh.jumps.Values || n in sh.logs.Values
        ensures Rooted(n, sh.sources)
      {
        assert n in Held(sh);
      }
      assert forall k :: k in sh.jumps ==> sh.jumps[k] in sh.jumps.Values;
      assert forall k :: k in sh.logs ==> sh.logs[k] in sh.logs.Values;
    }
  }

  lemma RootedResult(index: nat, control: FlowNode, upstream: set<FlowNode>, isSource: bool, sources: set<nat>)
    requires AllRooted(upstream, sources) && Untainted !in upstream && Rooted(control, sources)
    requires isSource ==> control != Untainted || index in sources
    ensures Rooted(ResultNode(index, control, upstream, isSource), sources)
  {
    var r := ResultNode(index, control, upstream, isSource);
    if r.Node? {
      if control != Untainted {
        assert control in [control] && control in r.from;
      }
    }
  }

  lemma RootedStored(m: Words, start: nat, length: nat, value: FlowNode, sources: set<nat>)
    requires AllRooted(m.Values, sources) && Rooted(value, sources)
    ensures AllRooted(Stored(m, start, length, value).Values, sources)
  {
    var after := Stored(m, start, length, value);
    forall n | n in after.Values ensures Rooted(n, sources) {
      var w :| w in after && after[w] == n;
      assert w in m ==> m[w] in m.Values;
    }
  }

  lemma AllRootedGrows(nodes: set<FlowNode>, sources: set<nat>, more: set<nat>)
    requires AllRooted(nodes, sources) && sources <= more
    ensures AllRooted(nodes, more)
  {
    forall n | n in nodes ensures Rooted(n, more) { RootedMonotone(n, sources, more); }
  }

  lemma TouchedRooted(m: Words, start: nat, length: nat, sources: set<nat>)
    requires AllRooted(m.Values, sources)
    ensures AllRooted(Touched(m, start, length), sources) && Untainted !in Touched(m, start, length)
  {
    forall n | n in Touched(m, start, length) ensures Rooted(n, sources) {
      assert n in m.Values;
    }
  }

  lemma InflowRooted(ins: Instr, words: seq<Word>, sh: Shadow, sources: set<nat>)
    requires |words| == |sh.stack| >= Needs(ins)
    requires forall n :: n in sh.stack ==> Rooted(n, sources)
    requires AllRooted(sh.mem.Values, sources) && AllRooted(sh.stor.Values, sources)
    ensures AllRooted(Inflow(ins, words, sh), sources) && Untainted !in Inflow(ins, words, sh)
  {
    UpstreamRooted(sh.stack[|sh.stack| - Pops(ins)..], sources);
    if ins.Keccak? {
      TouchedRooted(sh.mem, Back(words, 0), Back(words, 1), sources);
    } else if ins.Mload? {
      TouchedRooted(sh.mem, Back(words, 0), 32, sources);
    } else if ins.Sload? {
      assert Back(words, 0) in sh.stor ==> sh.stor[Back(words, 0)] in sh.stor.Values;
      UpstreamRooted([StorageAt(sh.stor, Back(words, 0))], sources);
    }
  }

  lemma UpstreamRooted(nodes: seq<FlowNode>, sources: set<nat>)
    requires forall n :: n in nodes ==> Rooted(n, sources)
    ensures AllRooted(Upstream(nodes), sources) && Untainted !in Upstream(nodes)
  {
  }

  lemma ResultsRooted(shared: Shared, control: FlowNode, self: Address, ins: Instr, words: seq<Word>, sh: Shadow, sources: set<nat>)
    requires WellFormed(ins) && |words| == |sh.stack| >= Needs(ins)
    requires forall n :: n in sh.stack ==> Rooted(n, sources)
    requires AllRooted(sh.mem.Values, sources) && AllRooted(sh.stor.Values, sources) && Rooted(control, sources)
    requires SharedVariableLoaded(shared, self, ins, words) ==> sh.index in sources
    ensures forall n :: n in ShadowResults(shared, control, self, ins, words, sh) ==> Rooted(n, sources)
  {
    var isSource := SharedVariableLoaded(shared, self, ins, words) || control != Untainted;
    InflowRooted(ins, words, sh, sources);
    if ins.Dup? {
      RootedResult(sh.index, control, {}, control != Untainted, sources);
    } else if Pushes(ins) == 1 {
      RootedResult(sh.index, control, Inflow(ins, words, sh), isSource, sources);
      PushedResult(shared, control, self, ins, words, sh);
    }
  }

  lemma SunkRooted(control: FlowNode, ins: Instr, words: seq<Word>, sh: Shadow, sources: set<nat>)
    requires |words| == |sh.stack| >= Pops(ins)
    requires forall n :: n in sh.stack ==> Rooted(n, sources)
    requires AllRooted(sh.mem.Values, sources) && Rooted(control, sources)
    ensures Rooted(Sunk(control, ins, words, sh), sources)
  {
    var args := sh.stack[|sh.stack| - Pops(ins)..];
    if ins.Jump? || ins.Jumpi? {
      RootedResult(sh.index, control, Upstream(args), false, sources);
    } else if ins.Log? {
      TouchedRooted(sh.mem, Back(words, 0), Back(words, 1), sources);
      RootedResult(sh.index, control,
                   Touched(sh.mem, Back(words, 0), Back(words, 1)) + Upstream(args[..|args| - 2]), false, sources);
    }
  }

  lemma WritesRooted(control: FlowNode, ins: Instr, words: seq<Word>, sh: Shadow, sources: set<nat>)
    requires |words| == |sh.stack| >= Pops(ins)
    requires forall n :: n in sh.stack ==> Rooted(n, sources)
    requires AllRooted(sh.mem.Values, sources) && AllRooted(sh.stor.Values, sources) && Rooted(control, sources)
    ensures AllRooted(ShadowMemAfter(control, ins, words, sh).Values, sources)
    ensures AllRooted(ShadowStorAfter(control, ins, words, sh).Values, sources)
  {
    if ins.Mstore? || ins.Mstore8? {
      var length := if ins.Mstore? then 32 else 1;
      var m := Stored(sh.mem, Back(words, 0), length, Arg(sh.stack, 1));
      RootedStored(sh.mem, Back(words, 0), length, Arg(sh.stack, 1), sources);
      if control != Untainted {
        RootedResult(sh.index, control, {}, true, sources);
        RootedStored(m, Back(words, 0), length, NewNode(sh.index, control, {}), sources);
      }
    } else if ins.Sstore? {
      var args := sh.stack[|sh.stack| - 2..];
      RootedResult(sh.index, control, Upstream(args), control != Untainted, sources);
    }
  }

  lemma StackRooted(shared: Shared, control: FlowNode, self: Address, ins: Instr, words: seq<Word>, sh: Shadow, sources: set<nat>)
    requires WellFormed(ins) && |words| == |sh.stack| >= Needs(ins)
    requires forall n :: n in sh.stack ==> Rooted(n, sources)
    requires forall n :: n in ShadowResults(shared, control, self, ins, words, sh) ==> Rooted(n, sources)
    ensures forall n :: n in ShadowStep(shared, control, self, ins, words, sh).stack ==> Rooted(n, sources)
  {
    var rest := if ins.Swap? then MirrorSwap(sh.stack, ins.n) else sh.stack[..|sh.stack| - Pops(ins)];
    assert forall n :: n in rest ==> n in sh.stack;
  }

  /** Each traced operation keeps the tracer's nodes rooted in the sources recorded by then. */
  lemma StepRooted(shared: Shared, control: FlowNode, self: Address, ins: Instr, words: seq<Word>, sh: Shadow)
    requires WellFormed(ins) && |words| == |sh.stack| >= Needs(ins)
    requires RootedShadow(sh) && (control == Untainted || control in sh.jumps.Values)
    ensures RootedShadow(ShadowStep(shared, control, self, ins, words, sh))
  {
    var sources := ShadowStep(shared, control, self, ins, words, sh).sources;
    forall n | n in sh.stack ensures Rooted(n, sources) { RootedMonotone(n, sh.sources, sources); }
    AllRootedGrows(sh.mem.Values, sh.sources, sources);
    AllRootedGrows(sh.stor.Values, sh.sources, sources);
    AllRootedGrows(sh.jumps.Values, sh.sources, sources);
    AllRootedGrows(sh.logs.Values, sh.sources, sources);
    ResultsRooted(shared, control, self, ins, words, sh, sources);
    StackRooted(shared, control, self, ins, words, sh, sources);
    WritesRooted(control, ins, words, sh, sources);
    ReportsRooted(control, ins, words, sh, sources);
  }

  lemma ReportsRooted(control: FlowNode, ins: Instr, words: seq<Word>, sh: Shadow, sources: set<nat>)
    requires |words| == |sh.stack| >= Pops(ins)
    requires forall n :: n in sh.stack ==> Rooted(n, sources)
    requires AllRooted(sh.mem.Values, sources) && Rooted(control, sources)
    requires AllRooted(sh.jumps.Values, sources) && AllRooted(sh.logs.Values, sources)
    ensures AllRooted(JumpsAfter(control, ins, words, sh).Values, sources)
    ensures AllRooted(LogsAfter(control, ins, words, sh).Values, sources)
  {
    SunkRooted(control, ins, words, sh, sources);
  }

  /** What a traced step keeps. */
  ghost predicate IsKept(kept: Shadow -> bool, w: World, code: Code, shared: Shared, diverging: nat -> nat) {
    forall s: State, sh: Shadow :: |s.stack| == |sh.stack| && kept(sh) && Step(w, code, s).Next? ==>
      kept(NextShadow(w, code, shared, diverging, s, sh))
  }

  /** A run keeps what its steps keep. */
  lemma {:induction false} RunKeeps(kept: Shadow -> bool, w: World, code: Code, shared: Shared, diverging: nat -> nat,
                                    s: State, sh: Shadow, n: nat)
    requires IsKept(kept, w, code, shared, diverging)
    requires |s.stack| == |sh.stack| && StepN(w, code, s, n).Next? && kept(sh)
    ensures kept(ShadowN(w, code, shared, diverging, s, sh, n))
    decreases n
  {
    if n > 0 {
      MirrorStep(w, code, shared, Control(diverging, sh), s, sh);
      RunKeeps(kept, w, code, shared, diverging, Step(w, code, s).s, NextShadow(w, code, shared, diverging, s, sh), n - 1);
    }
  }

  /** In every state of a traced run every node is rooted in recorded sources. */
  lemma RunRooted(w: World, code: Code, shared: Shared, diverging: nat -> nat, s: State, sh: Shadow, n: nat)
    requires |s.stack| == |sh.stack| && StepN(w, code, s, n).Next? && HeldRooted(sh)
    ensures HeldRooted(ShadowN(w, code, shared, diverging, s, sh, n))
  {
    var kept: Shadow -> bool := HeldRooted;
    forall s: State, sh: Shadow | |s.stack| == |sh.stack| && kept(sh) && Step(w, code, s).Next?
      ensures kept(NextShadow(w, code, shared, diverging, s, sh))
    {
      NextRooted(w, code, shared, diverging, s, sh);
    }
    RunKeeps(kept, w, code, shared, diverging, s, sh, n);
  }

  lemma NextRooted(w: World, code: Code, shared: Shared, diverging: nat -> nat, s: State, sh: Shadow)
    requires |s.stack| == |sh.stack| && HeldRooted(sh) && Step(w, code, s).Next?
    ensures HeldRooted(NextShadow(w, code, shared, diverging, s, sh))
    ensures |NextShadow(w, code, shared, diverging, s, sh).stack| == |Step(w, code, s).s.stack|
  {
    var control := Control(diverging, sh);
    assert control != Untainted ==> control in sh.jumps.Values;
    HeldIsShadow(sh);
    HeldIsShadow(NextShadow(w, code, shared, diverging, s, sh));
    StepRooted(shared, control, w.self, code[s.pc], s.stack, sh);
    MirrorStep(w, code, shared, control, s, sh);
  }

  /** So from every reported jump some chain of From edges leads back to a load of the shared variable. */
  lemma ReportedJumpReachesSource(w: World, code: Code, shared: Shared, diverging: nat -> nat, s: State, n: nat, k: nat)
    returns (path: seq<FlowNode>)
    requires s.stack == [] && StepN(w, code, s, n).Next?
    requires k in ShadowN(w, code, shared, diverging, s, EmptyShadow, n).jumps
    ensures var sh := ShadowN(w, code, shared, diverging, s, EmptyShadow, n);
            && path != [] && path[0] == sh.jumps[k] && IsFlowPath(path) && path[|path| - 1].op in sh.sources
  {
    HeldIsShadow(EmptyShadow);
    RunRooted(w, code, shared, diverging, s, EmptyShadow, n);
    var sh := ShadowN(w, code, shared, diverging, s, EmptyShadow, n);
    assert sh.jumps[k] in sh.jumps.Values && sh.jumps[k] in Held(sh);
    path := RootedReachesSource(sh.jumps[k], sh.sources);
  }
}
