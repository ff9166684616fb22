/**
 A concrete single-frame EVM over decoded code, as far as the taint engine mirrors it (Ethereum
 Yellow Paper, section 9 and appendix H). Arithmetic, hashing and the environment are parameters:
 every statement about runs holds for all of them. Gas is not modelled.
 */
module Evm {
  import opened Chain

  const MODULUS: nat := 0x1_0000_0000_0000_0000_0000_0000_0000_0000_0000_0000_0000_0000_0000_0000_0000_0000
  const ADDRESS_MODULUS: nat := 0x1_0000_0000_0000_0000_0000_0000_0000_0000_0000_0000
  const STACK_LIMIT: nat := 1024
  /** Past this size go-ethereum's memory expansion always fails. */
  const MEMORY_LIMIT: nat := 0x1F_FFFF_FFE0

  type Word = x: nat | x < MODULUS
  type Byte = x: nat | x < 256

  function ToAddress(w: Word): Address {
    w % ADDRESS_MODULUS
  }

  datatype Instr =
    | Stop | Return | Revert | Invalid | SelfDestruct
    | Pure(op: nat, pops: nat)     // ADD .. SAR: `pops` operands, one result
    | Keccak
    | Env(name: nat)               // ADDRESS, CALLER, TIMESTAMP, ...: a constant of the frame
    | BlockHash
    | Balance | SelfBalance
    | Pop | Mload | Mstore | Mstore8 | Sload | Sstore
    | Jump | Jumpi | Pc | Msize | JumpDest
    | Push(size: nat, value: Word)
    | Dup(n: nat) | Swap(n: nat)
    | Log(topics: nat)

  function Width(ins: Instr): nat {
    if ins.Push? then 1 + ins.size else 1
  }

  /** GetStackEffects: DUP and SWAP are mirrored separately, so they count no pops. */
  function Pops(ins: Instr): nat {
    match ins
    case Pure(_, n) => n
    case Keccak => 2
    case BlockHash => 1
    case Balance => 1
    case Pop => 1
    case Mload => 1
    case Mstore => 2
    case Mstore8 => 2
    case Sload => 1
    case Sstore => 2
    case Jump => 1
    case Jumpi => 2
    case Log(n) => n + 2
    case Return => 2
    case Revert => 2
    case SelfDestruct => 1
    case _ => 0
  }

  function Pushes(ins: Instr): nat {
    match ins
    case Pure(_, _) => 1
    case Keccak => 1
    case Env(_) => 1
    case BlockHash => 1
    case Balance => 1
    case SelfBalance => 1
    case Mload => 1
    case Sload => 1
    case Pc => 1
    case Msize => 1
    case Push(_, _) => 1
    case Dup(_) => 1
    case _ => 0
  }

  /** How deep the stack must be; DUPn and SWAPn are numbered from 1. */
  function Needs(ins: Instr): nat {
    match ins
    case Dup(n) => n
    case Swap(n) => n + 1
    case _ => Pops(ins)
  }

  predicate Halts(ins: Instr) {
    ins.Stop? || ins.Return? || ins.Revert? || ins.Invalid? || ins.SelfDestruct?
  }

  predicate WellFormed(ins: Instr) {
    && (ins.Pure? ==> 1 <= ins.pops <= 3)
    && (ins.Dup? ==> 1 <= ins.n <= 16)
    && (ins.Swap? ==> 1 <= ins.n <= 16)
    && (ins.Push? ==> 1 <= ins.size <= 32)
    && (ins.Log? ==> ins.topics <= 4)
  }

  type Code = c: map<nat, Instr> | forall pc :: pc in c ==> WellFormed(c[pc]) witness map[]

  /** What a run is given and does not change: arithmetic, hash, environment, own address. */
  datatype World = World(
    alu: (nat, seq<Word>) -> Word,
    hash: seq<Byte> -> Word,
    env: nat -> Word,
    blockHash: Word -> Word,
    self: Address)

  /** The top of the stack is its last element. */
  datatype State = State(pc: nat, stack: seq<Word>, mem: seq<Byte>, stor: map<Word, Word>, bal: map<Address, Word>)

  datatype Outcome = Next(s: State) | Done

  function Back(stack: seq<Word>, i: nat): Word
    requires i < |stack|
  {
    stack[|stack| - 1 - i]
  }

  function BigEndian(bytes: seq<Byte>): nat {
    if bytes == [] then 0 else BigEndian(bytes[..|bytes| - 1]) * 256 + bytes[|bytes| - 1]
  }

  function ToWord(bytes: seq<Byte>): Word {
    BigEndian(bytes) % MODULUS
  }

  /** The low `size` bytes of a value, most significant first. */
  function LowBytes(value: nat, size: nat): (r: seq<Byte>)
    ensures |r| == size
    decreases size
  {
    if size == 0 then [] else LowBytes(value / 256, size - 1) + [value % 256]
  }

  function WordBytes(w: Word): (r: seq<Byte>)
    ensures |r| == 32
  {
    LowBytes(w, 32)
  }

  /** The end of the memory area an instruction needs; 0 if it needs none. */
  function Area(ins: Instr, stack: seq<Word>): nat
    requires |stack| >= Pops(ins)
  {
    match ins
    case Mload => Back(stack, 0) + 32
    case Mstore => Back(stack, 0) + 32
    case Mstore8 => Back(stack, 0) + 1
    case Keccak => if Back(stack, 1) == 0 then 0 else Back(stack, 0) + Back(stack, 1)
    case Log(_) => if Back(stack, 1) == 0 then 0 else Back(stack, 0) + Back(stack, 1)
    case _ => 0
  }

  /** Memory grown with zeros, by whole words, to hold `end` bytes. */
  function Expand(mem: seq<Byte>, end: nat): (r: seq<Byte>)
    ensures |r| >= end && |r| >= |mem|
  {
    var size := (end + 31) / 32 * 32;
    if size <= |mem| then mem else mem + seq(size - |mem|, _ => 0)
  }

  function Write(mem: seq<Byte>, at: nat, bytes: seq<Byte>): (r: seq<Byte>)
    requires at + |bytes| <= |mem|
    ensures |r| == |mem|
  {
    mem[..at] + bytes + mem[at + |bytes|..]
  }

  function Results(w: World, ins: Instr, s: State, mem: seq<Byte>): (r: seq<Word>)
    requires |s.stack| >= Needs(ins) && WellFormed(ins)
    requires |mem| >= Area(ins, s.stack)
    ensures |r| == Pushes(ins)
  {
    match ins
    case Pure(op, n) => [w.alu(op, s.stack[|s.stack| - n..])]
    case Keccak =>
      var length := Back(s.stack, 1);
      [w.hash(if length == 0 then [] else mem[Back(s.stack, 0)..Back(s.stack, 0) + length])]
    case Env(name) => [w.env(name)]
    case BlockHash => [w.blockHash(Back(s.stack, 0))]
    case Balance => [Get(s.bal, ToAddress(Back(s.stack, 0)), 0)]
    case SelfBalance => [Get(s.bal, w.self, 0)]
    case Mload => [ToWord(mem[Back(s.stack, 0)..Back(s.stack, 0) + 32])]
    case Sload => [Get(s.stor, Back(s.stack, 0), 0)]
    case Pc => [s.pc % MODULUS]
    case Msize => [|mem| % MODULUS]
    case Push(_, v) => [v]
    case Dup(n) => [Back(s.stack, n - 1)]
    case _ => []
  }

  function MemAfter(ins: Instr, stack: seq<Word>, mem: seq<Byte>): seq<Byte>
    requires |stack| >= Pops(ins)
    requires |mem| >= Area(ins, stack)
  {
    match ins
    case Mstore => Write(mem, Back(stack, 0), WordBytes(Back(stack, 1)))
    case Mstore8 => Write(mem, Back(stack, 0), [Back(stack, 1) % 256])
    case _ => mem
  }

  function SwapTop(stack: seq<Word>, n: nat): (r: seq<Word>)
    requires 0 < n < |stack|
    ensures |r| == |stack|
  {
    stack[|stack| - 1 := Back(stack, n)][|stack| - 1 - n := Back(stack, 0)]
  }

  /** None when the jump target is not a JUMPDEST. */
  function NextPc(code: Code, ins: Instr, s: State): (pc: int)
    requires |s.stack| >= Needs(ins)
    ensures pc >= -1
  {
    if ins.Jump? || (ins.Jumpi? && Back(s.stack, 1) != 0) then
      var dest := Back(s.stack, 0);
      if dest in code && code[dest] == JumpDest then dest else -1
    else s.pc + Width(ins)
  }

  /** The instruction can execute: stack deep enough, no overflow, memory within bounds. */
  predicate Executable(ins: Instr, s: State) {
    && !Halts(ins)
    && |s.stack| >= Needs(ins)
    && |s.stack| + Pushes(ins) <= STACK_LIMIT + Pops(ins)
    && Area(ins, s.stack) <= MEMORY_LIMIT
  }

  function Step(w: World, code: Code, s: State): Outcome {
    if s.pc !in code || !Executable(code[s.pc], s) then Done
    else
      var ins := code[s.pc];
      var mem := Expand(s.mem, Area(ins, s.stack));
      var pc := NextPc(code, ins, s);
      if pc == -1 then Done
      else
        var rest := if ins.Swap? then SwapTop(s.stack, ins.n) else s.stack[..|s.stack| - Pops(ins)];
        var stor := if ins.Sstore? then s.stor[Back(s.stack, 0) := Back(s.stack, 1)] else s.stor;
        Next(State(pc, rest + Results(w, ins, s, mem), MemAfter(ins, s.stack, mem), stor, s.bal))
  }
}
