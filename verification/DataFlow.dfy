/**
 The data-flow tracer: mirror stack, shadow memory and shadow storage run in lockstep with the EVM,
 with TaintAnalyzer deciding sources and sinks. ShadowStep says what one traced operation does to
 the mirrored state; DataFlowTracer does it in place, deferring the result pushes to the next event.
 */
module DataFlow {
  import opened Chain
  import opened FlowNodes
  import opened ShadowMemory
  import opened Evm

  /** The state variable both transactions share. */
  datatype Shared = StorageVariable(account: Address, key: Word) | BalanceVariable(account: Address)

  /** Mirrored state with all pushes settled, and what the analyzer has recorded so far. */
  datatype Shadow = Shadow(
    stack: seq<FlowNode>,
    mem: Words,
    stor: map<Word, FlowNode>,
    sources: set<nat>,
    jumps: map<nat, FlowNode>,
    logs: map<nat, FlowNode>,
    index: nat)

  const EmptyShadow: Shadow := Shadow([], map[], map[], {}, map[], map[], 0)

  /** TaintAnalyzer.sharedVariableLoaded, for the operations of a single frame. */
  predicate SharedVariableLoaded(shared: Shared, self: Address, ins: Instr, stack: seq<Word>)
    requires |stack| >= Pops(ins)
  {
    match shared
    case StorageVariable(account, key) => ins.Sload? && self == account && Back(stack, 0) == key
    case BalanceVariable(account) =>
      || (ins.Balance? && ToAddress(Back(stack, 0)) == account)
      || (ins.SelfBalance? && self == account)
  }

  predicate IsSink(ins: Instr) {
    ins.Jump? || ins.Jumpi? || ins.Log? || Halts(ins)
  }

  /**
   The node of operation `index`. While the path diverges, `control` is the sink it diverged at
   and every new node also flows from it.
   */
  function NewNode(index: nat, control: FlowNode, upstream: set<FlowNode>): FlowNode {
    Node(AttackTaint, index, upstream + Upstream([control]))
  }

  /** An operation's result: tainted by what flows into it, else fresh if the operation is a source. */
  function ResultNode(index: nat, control: FlowNode, upstream: set<FlowNode>, isSource: bool): FlowNode {
    if upstream != {} || isSource then NewNode(index, control, upstream) else Untainted
  }

  function Arg(args: seq<FlowNode>, i: nat): FlowNode
    requires i < |args|
  {
    args[|args| - 1 - i]
  }

  function StorageAt(stor: map<Word, FlowNode>, key: Word): FlowNode {
    Get(stor, key, Untainted)
  }

  /** What the operation pushes on the mirror stack. */
  function ShadowResults(shared: Shared, control: FlowNode, self: Address, ins: Instr, words: seq<Word>, sh: Shadow)
    : (r: seq<FlowNode>)
    requires |words| == |sh.stack| >= Needs(ins) && WellFormed(ins)
    ensures |r| == Pushes(ins)
  {
    var args := sh.stack[|sh.stack| - Pops(ins)..];
    var isSource := SharedVariableLoaded(shared, self, ins, words) || control != Untainted;
    match ins
    case Pure(_, _) => [ResultNode(sh.index, control, Upstream(args), isSource)]
    case Keccak => [ResultNode(sh.index, control, Touched(sh.mem, Back(words, 0), Back(words, 1)), isSource)]
    case Env(_) => [ResultNode(sh.index, control, {}, isSource)]
    case BlockHash => [ResultNode(sh.index, control, {}, isSource)]
    case Pc => [ResultNode(sh.index, control, {}, isSource)]
    case Msize => [ResultNode(sh.index, control, {}, isSource)]
    case Push(_, _) => [ResultNode(sh.index, control, {}, isSource)]
    case Balance => [ResultNode(sh.index, control, Upstream(args), isSource)]
    case SelfBalance => [ResultNode(sh.index, control, {}, isSource)]
    case Mload => [ResultNode(sh.index, control, Touched(sh.mem, Back(words, 0), 32) + Upstream(args), isSource)]
    case Sload => [ResultNode(sh.index, control, Upstream([StorageAt(sh.stor, Back(words, 0))]) + Upstream(args), isSource)]
    case Dup(n) =>
      var v := sh.stack[|sh.stack| - n];
      [if v == Untainted && isSource then NewNode(sh.index, control, {}) else v]
    case _ => []
  }

  function ShadowMemAfter(control: FlowNode, ins: Instr, words: seq<Word>, sh: Shadow): Words
    requires |words| == |sh.stack| >= Pops(ins)
  {
    if ins.Mstore? || ins.Mstore8? then
      var length := if ins.Mstore? then 32 else 1;
      var value := Arg(sh.stack, 1);
      var m := Stored(sh.mem, Back(words, 0), length, value);
      if value == Untainted && control != Untainted
      then Stored(m, Back(words, 0), length, NewNode(sh.index, control, {})) else m
    else sh.mem
  }

  function ShadowStorAfter(control: FlowNode, ins: Instr, words: seq<Word>, sh: Shadow): map<Word, FlowNode>
    requires |words| == |sh.stack| >= Pops(ins)
  {
    if ins.Sstore? then
      sh.stor[Back(words, 0) :=
                ResultNode(sh.index, control, Upstream(sh.stack[|sh.stack| - 2..]), control != Untainted)]
    else sh.stor
  }

  /** The node the operation passes to SinkTainted, if any. */
  function Sunk(control: FlowNode, ins: Instr, words: seq<Word>, sh: Shadow): FlowNode
    requires |words| == |sh.stack| >= Pops(ins)
  {
    var args := sh.stack[|sh.stack| - Pops(ins)..];
    if ins.Jump? || ins.Jumpi? then
      ResultNode(sh.index, control, Upstream(args), false)
    else if ins.Log? then
      ResultNode(sh.index, control,
                 Touched(sh.mem, Back(words, 0), Back(words, 1)) + Upstream(args[..|args| - 2]), false)
    else Untainted
  }

  /** SinkTainted files the node of a tainted jump under its operation. */
  function JumpsAfter(control: FlowNode, ins: Instr, words: seq<Word>, sh: Shadow): map<nat, FlowNode>
    requires |words| == |sh.stack| >= Pops(ins)
  {
    var sunk := Sunk(control, ins, words, sh);
    if sunk != Untainted && !ins.Log? then sh.jumps[sh.index := sunk] else sh.jumps
  }

  function LogsAfter(control: FlowNode, ins: Instr, words: seq<Word>, sh: Shadow): map<nat, FlowNode>
    requires |words| == |sh.stack| >= Pops(ins)
  {
    var sunk := Sunk(control, ins, words, sh);
    if sunk != Untainted && ins.Log? then sh.logs[sh.index := sunk] else sh.logs
  }

  function MirrorSwap(stack: seq<FlowNode>, n: nat): (r: seq<FlowNode>)
    requires 0 < n < |stack|
    ensures |r| == |stack|
  {
    stack[|stack| - 1 := Arg(stack, n)][|stack| - 1 - n := Arg(stack, 0)]
  }

  /** One traced operation on the mirrored state; `words` is the concrete stack before it executes. */
  function ShadowStep(shared: Shared, control: FlowNode, self: Address, ins: Instr, words: seq<Word>, sh: Shadow): Shadow
    requires |words| == |sh.stack| >= Needs(ins) && WellFormed(ins)
  {
    var rest := if ins.Swap? then MirrorSwap(sh.stack, ins.n) else sh.stack[..|sh.stack| - Pops(ins)];
    Shadow(
      rest + ShadowResults(shared, control, self, ins, words, sh),
      ShadowMemAfter(control, ins, words, sh),
      ShadowStorAfter(control, ins, words, sh),
      if SharedVariableLoaded(shared, self, ins, words) then sh.sources + {sh.index} else sh.sources,
      JumpsAfter(control, ins, words, sh),
      LogsAfter(control, ins, words, sh),
      sh.index + 1)
  }

  lemma ShadowStepIs(shared: Shared, control: FlowNode, self: Address, ins: Instr, words: seq<Word>, sh: Shadow, next: Shadow)
    requires |words| == |sh.stack| >= Needs(ins) && WellFormed(ins)
    requires next.stack == (if ins.Swap? then MirrorSwap(sh.stack, ins.n) else sh.stack[..|sh.stack| - Pops(ins)])
                           + ShadowResults(shared, control, self, ins, words, sh)
    requires next.mem == ShadowMemAfter(control, ins, words, sh) && next.stor == ShadowStorAfter(control, ins, words, sh)
    requires next.sources == if SharedVariableLoaded(shared, self, ins, words) then sh.sources + {sh.index} else sh.sources
    requires next.jumps == JumpsAfter(control, ins, words, sh) && next.logs == LogsAfter(control, ins, words, sh)
    requires next.index == sh.index + 1
    ensures next == ShadowStep(shared, control, self, ins, words, sh)
  {
  }

  // ---- The tracer, in place ----

  class Stack {
    var stack: seq<FlowNode>

    constructor ()
      ensures stack == []
    {
      stack := [];
    }

    method Push(elements: seq<FlowNode>)
      requires |stack| + |elements| <= STACK_LIMIT
      modifies this
      ensures stack == old(stack) + elements
    {
      stack := stack + elements;
    }

    method PopN(n: nat) returns (elements: seq<FlowNode>)
      requires n <= |stack|
      modifies this
      ensures stack == old(stack)[..|old(stack)| - n]
      ensures elements == old(stack)[|old(stack)| - n..]
    {
      elements := stack[|stack| - n..];
      stack := stack[..|stack| - n];
    }

    method Get(i: nat) returns (v: FlowNode)
      requires i < |stack|
      ensures v == Arg(stack, i)
    {
      v := stack[|stack| - i - 1];
    }

    method Swap(pos: nat)
      requires 0 < pos < |stack|
      modifies this
      ensures stack == MirrorSwap(old(stack), pos)
    {
      var top := stack[|stack| - 1];
      var swap := stack[|stack| - pos - 1];
      stack := stack[|stack| - 1 := swap];
      stack := stack[|stack| - pos - 1 := top];
    }
  }

  class Storage {
    var storage: map<Word, FlowNode>

    constructor ()
      ensures storage == map[]
    {
      storage := map[];
    }

    method Load(key: Word) returns (v: FlowNode)
      ensures v == StorageAt(storage, key)
    {
      v := if key in storage then storage[key] else Untainted;
    }

    method Store(key: Word, value: FlowNode)
      modifies this
      ensures storage == old(storage)[key := value]
    {
      storage := storage[key := value];
    }

    method Clear(key: Word)
      modifies this
      ensures storage == old(storage)[key := Untainted]
    {
      Store(key, Untainted);
    }
  }

  /** What the callback left by the last operation still has to push. */
  datatype Callback = NoCallback | PushResults(results: seq<FlowNode>)

  class DataFlowTracer {
    const shared: Shared
    const self: Address
    const stack: Stack
    const memory: Memory
    const storage: Storage
    var lastStateCallback: Callback
    /** The diverging node while the path diverges from the reference path, else Untainted. */
    var control: FlowNode
    var sources: set<nat>
    var jumps: map<nat, FlowNode>
    var logs: map<nat, FlowNode>
    var totalOperations: nat

    /** TransactionStart: fresh trackers for the root call. */
    constructor (shared: Shared, self: Address)
      ensures View() == EmptyShadow && control == Untainted
      ensures this.shared == shared && this.self == self
      ensures fresh(stack) && fresh(memory) && fresh(storage)
    {
      this.shared, this.self := shared, self;
      stack := new Stack();
      memory := new Memory();
      storage := new Storage();
      lastStateCallback, control := NoCallback, Untainted;
      sources, jumps, logs, totalOperations := {}, map[], map[], 0;
    }

    function Pending(): seq<FlowNode>
      reads this
    {
      if lastStateCallback.PushResults? then lastStateCallback.results else []
    }

    /** The mirrored state once the pending callback has run. */
    function View(): Shadow
      reads this, stack, memory, storage
    {
      Shadow(stack.stack + Pending(), memory.mem, storage.storage, sources, jumps, logs, totalOperations)
    }

    method CheckOperation(ins: Instr, words: seq<Word>) returns (isSource: bool, isSink: bool)
      requires |words| >= Pops(ins)
      modifies this`sources
      ensures isSource == (SharedVariableLoaded(shared, self, ins, words) || control != Untainted)
      ensures isSink == IsSink(ins)
      ensures sources == if SharedVariableLoaded(shared, self, ins, words) then old(sources) + {totalOperations} else old(sources)
    {
      isSource := SharedVariableLoaded(shared, self, ins, words);
      if isSource {
        sources := sources + {totalOperations};
      }
      isSource := isSource || control != Untainted;
      isSink := IsSink(ins);
    }

    method SinkTainted(ins: Instr, flowed: FlowNode)
      modifies this`jumps, this`logs
      ensures jumps == if ins.Jump? || ins.Jumpi? then old(jumps)[totalOperations := flowed] else old(jumps)
      ensures logs == if ins.Log? then old(logs)[totalOperations := flowed] else old(logs)
    {
      if ins.Jump? || ins.Jumpi? {
        jumps := jumps[totalOperations := flowed];
      } else if ins.Log? {
        logs := logs[totalOperations := flowed];
      }
    }

    /**
     One CaptureState event. `scope` is the concrete stack the EVM is about to execute `ins` on; the
     results computed here reach the mirror stack only when the next event runs the callback.
     */
    method CaptureState(ins: Instr, scope: seq<Word>)
      requires WellFormed(ins)
      requires |scope| == |View().stack| >= Needs(ins)
      requires |scope| <= STACK_LIMIT
      modifies this`lastStateCallback, this`sources, this`jumps, this`logs, this`totalOperations, stack, memory, storage
      ensures View() == ShadowStep(shared, control, self, ins, scope, old(View()))
    {
      ghost var sh := View();
      RunLastStateCallback();
      var stackArgs := stack.PopN(Pops(ins));
      var isSource, isSink := CheckOperation(ins, scope);
      var stackResults := Policy(ins, scope, stackArgs, isSource, isSink, sh);
      lastStateCallback := PushResults(stackResults);
      totalOperations := totalOperations + 1;
      ShadowStepIs(shared, control, self, ins, scope, sh, View());
    }

    /** The flow function of each operation (GenDefaultFlowPolicy). */
    method Policy(ins: Instr, scope: seq<Word>, stackArgs: seq<FlowNode>, isSource: bool, isSink: bool, ghost sh: Shadow)
      returns (stackResults: seq<FlowNode>)
      requires WellFormed(ins)
      requires |scope| == |sh.stack| >= Needs(ins) && Mirrors(ins, stackArgs, sh)
      requires isSource == (SharedVariableLoaded(shared, self, ins, scope) || control != Untainted)
      requires isSink == IsSink(ins)
      modifies this`jumps, this`logs, stack, memory, storage
      ensures stackResults == ShadowResults(shared, control, self, ins, scope, sh)
      ensures stack.stack == if ins.Swap? then MirrorSwap(sh.stack, ins.n) else sh.stack[..|sh.stack| - Pops(ins)]
      ensures memory.mem == ShadowMemAfter(control, ins, scope, sh)
      ensures storage.storage == ShadowStorAfter(control, ins, scope, sh)
      ensures var sunk := Sunk(control, ins, scope, sh);
              && jumps == (if sunk != Untainted && !ins.Log? then old(jumps)[totalOperations := sunk] else old(jumps))
              && logs == (if sunk != Untainted && ins.Log? then old(logs)[totalOperations := sunk] else old(logs))
    {
      stackResults := [];
      if Pushes(ins) == 1 {
        stackResults := ResultFlow(ins, scope, stackArgs, isSource, sh);
      } else if ins.Mstore? || ins.Mstore8? || ins.Sstore? {
        WriteFlow(ins, scope, stackArgs, isSource, sh);
      } else if ins.Jump? || ins.Jumpi? || ins.Log? {
        ConsequenceFlow(ins, scope, stackArgs, isSink, sh);
      } else if ins.Swap? {
        assert stack.stack == sh.stack;
        stack.Swap(ins.n);
      }
    }

    method RunLastStateCallback()
      requires |View().stack| <= STACK_LIMIT
      modifies this`lastStateCallback, stack
      ensures View() == old(View()) && stack.stack == View().stack && lastStateCallback == NoCallback
    {
      if lastStateCallback.PushResults? {
        stack.Push(lastStateCallback.results);
        lastStateCallback := NoCallback;
      }
      assert stack.stack == old(View().stack);
      assert stack.stack == stack.stack + [];
    }

    /** The trackers still hold the state before the operation, its arguments popped. */
    ghost predicate Mirrors(ins: Instr, stackArgs: seq<FlowNode>, sh: Shadow)
      requires Pops(ins) <= |sh.stack|
      reads this, stack, memory, storage
    {
      && stackArgs == sh.stack[|sh.stack| - Pops(ins)..]
      && stack.stack == sh.stack[..|sh.stack| - Pops(ins)]
      && memory.mem == sh.mem && storage.storage == sh.stor && totalOperations == sh.index
    }

    /** The flow functions of operations that push a value. */
    method ResultFlow(ins: Instr, scope: seq<Word>, stackArgs: seq<FlowNode>, isSource: bool, ghost sh: Shadow)
      returns (stackResults: seq<FlowNode>)
      requires WellFormed(ins) && Pushes(ins) == 1
      requires |scope| == |sh.stack| >= Needs(ins) && Mirrors(ins, stackArgs, sh)
      requires isSource == (SharedVariableLoaded(shared, self, ins, scope) || control != Untainted)
      ensures stackResults == ShadowResults(shared, control, self, ins, scope, sh)
    {
      assert Upstream([]) == {};
      var r: FlowNode;
      match ins {
        case Pure(_, _) => r := FlowToStack(stackArgs, isSource);
        case Keccak => r := HashOpFlow(Back(scope, 0), Back(scope, 1), isSource);
        case Balance => r := FlowToStack(stackArgs, isSource);
        case Mload => r := MloadFlow(Back(scope, 0), stackArgs, isSource);
        case Sload => r := SloadFlow(Back(scope, 0), stackArgs, isSource);
        case Dup(n) => r := DupFlow(n, isSource);
        case _ => r := FlowToStack([], isSource);
      }
      stackResults := [r];
    }

    /** hashOpFlow */
    method HashOpFlow(offset: nat, length: nat, isSource: bool) returns (r: FlowNode)
      ensures r == ResultNode(totalOperations, control, Touched(memory.mem, offset, length), isSource)
    {
      var payload := memory.Load(offset, length);
      r := FlowToStack(payload, isSource);
    }

    /** mloadFlow */
    method MloadFlow(offset: nat, stackArgs: seq<FlowNode>, isSource: bool) returns (r: FlowNode)
      ensures r == ResultNode(totalOperations, control, Touched(memory.mem, offset, 32) + Upstream(stackArgs), isSource)
    {
      var data := memory.Load(offset, 32);
      UpstreamConcat(data, stackArgs);
      r := FlowToStack(data + stackArgs, isSource);
    }

    /** sloadFlow */
    method SloadFlow(key: Word, stackArgs: seq<FlowNode>, isSource: bool) returns (r: FlowNode)
      ensures r == ResultNode(totalOperations, control, Upstream([StorageAt(storage.storage, key)]) + Upstream(stackArgs), isSource)
    {
      var value := storage.Load(key);
      UpstreamConcat([value], stackArgs);
      r := FlowToStack([value] + stackArgs, isSource);
    }

    /** dupFlow */
    method DupFlow(n: nat, isSource: bool) returns (r: FlowNode)
      requires 1 <= n <= |stack.stack|
      ensures var v := stack.stack[|stack.stack| - n];
              r == if v == Untainted && isSource then NewNode(totalOperations, control, {}) else v
    {
      r := stack.Get(n - 1);
      if isSource && r == Untainted {
        r := NewNode(totalOperations, control, {});
      }
    }

    /** The flow functions of operations that write the shadow memory or storage. */
    method WriteFlow(ins: Instr, scope: seq<Word>, stackArgs: seq<FlowNode>, isSource: bool, ghost sh: Shadow)
      requires ins.Mstore? || ins.Mstore8? || ins.Sstore?
      requires |scope| == |sh.stack| >= Needs(ins) && Mirrors(ins, stackArgs, sh)
      requires isSource == (control != Untainted)
      modifies memory, storage
      ensures memory.mem == ShadowMemAfter(control, ins, scope, sh)
      ensures storage.storage == ShadowStorAfter(control, ins, scope, sh)
    {
      match ins {
        case Mstore => StoreFlow(Back(scope, 0), 32, Arg(stackArgs, 1), isSource);
        case Mstore8 => StoreFlow(Back(scope, 0), 1, Arg(stackArgs, 1), isSource);
        case Sstore => SstoreFlow(Back(scope, 0), stackArgs, isSource);
      }
    }

    /** sstoreFlow */
    method SstoreFlow(key: Word, stackArgs: seq<FlowNode>, isSource: bool)
      modifies storage
      ensures storage.storage == old(storage.storage)[key := ResultNode(totalOperations, control, Upstream(stackArgs), isSource)]
    {
      var node := FlowToStack(stackArgs, isSource);
      if node != Untainted {
        storage.Store(key, node);
      } else {
        storage.Clear(key);
      }
    }

    /** The flow functions of the sinks. */
    method ConsequenceFlow(ins: Instr, scope: seq<Word>, stackArgs: seq<FlowNode>, isSink: bool, ghost sh: Shadow)
      requires ins.Jump? || ins.Jumpi? || ins.Log?
      requires |scope| == |sh.stack| >= Needs(ins) && Mirrors(ins, stackArgs, sh)
      requires isSink
      modifies this`jumps, this`logs
      ensures var sunk := Sunk(control, ins, scope, sh);
              && jumps == (if sunk != Untainted && !ins.Log? then old(jumps)[totalOperations := sunk] else old(jumps))
              && logs == (if sunk != Untainted && ins.Log? then old(logs)[totalOperations := sunk] else old(logs))
    {
      match ins {
        case Jump => SinkFlow(ins, stackArgs, isSink);
        case Jumpi => SinkFlow(ins, stackArgs, isSink);
        case Log(_) =>
          var data := memory.Load(Back(scope, 0), Back(scope, 1));
          UpstreamConcat(data, stackArgs[..|stackArgs| - 2]);
          SinkFlow(ins, data + stackArgs[..|stackArgs| - 2], isSink);
      }
    }

    /** pureOpFlow and its kin: taint flows from `flows`, or starts here if this is a source. */
    method FlowToStack(flows: seq<FlowNode>, isSource: bool) returns (r: FlowNode)
      ensures r == ResultNode(totalOperations, control, Upstream(flows), isSource)
    {
      assert IsTainted(flows) <==> Upstream(flows) != {} by {
        if n :| n in flows && n != Untainted {
          assert n in Upstream(flows);
        }
      }
      if IsTainted(flows) {
        r := NewNode(totalOperations, control, Upstream(flows));
      } else if isSource {
        r := NewNode(totalOperations, control, {});
      } else {
        r := Untainted;
      }
    }

    /** mstoreFlow and mstore8Flow */
    method StoreFlow(start: nat, length: nat, value: FlowNode, isSource: bool)
      modifies memory
      ensures var m := Stored(old(memory.mem), start, length, value);
              memory.mem == if isSource && value == Untainted
                            then Stored(m, start, length, NewNode(totalOperations, control, {})) else m
    {
      memory.Store(start, length, value);
      if isSource {
        if value == Untainted {
          memory.Store(start, length, NewNode(totalOperations, control, {}));
        }
      }
    }

    /** jumpFlow, jumpiFlow and logFlow */
    method SinkFlow(ins: Instr, flows: seq<FlowNode>, isSink: bool)
      requires isSink
      modifies this`jumps, this`logs
      ensures var node := ResultNode(totalOperations, control, Upstream(flows), false);
              && jumps == (if node != Untainted && (ins.Jump? || ins.Jumpi?) then old(jumps)[totalOperations := node] else old(jumps))
              && logs == (if node != Untainted && ins.Log? then old(logs)[totalOperations := node] else old(logs))
    {
      if isSink {
        var node := FlowToStack(flows, false);
        if node != Untainted {
          SinkTainted(ins, node);
        }
      }
    }
  }
}
