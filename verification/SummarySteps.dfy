/**
 Building a transaction's call summary, event by event: what every opcode defines, uses and
 transfers goes into the current segment of the current call, and one map of all definitions so far
 tells whether a use is def-clear.
 */
module SummarySteps {
  import opened Chain
  import opened StateVars
  import opened Profits
  import opened Transfers
  import opened CallSummaries

  datatype Tx = Tx(from: Address, to: Address, value: nat)

  /**
   What the engine reports while a transaction runs, reduced to what the tracer looks at. `paid` it does
   not look at: whether the engine moves the value, which for CALLCODE it only reports.
   */
  datatype Event =
    | Sload(slot: Slot, location: nat)
    | Sstore(slot: Slot, value: Hash, location: nat)
    | ReadBalance(account: Address, location: nat)
    | ReadCode(account: Address, code: seq<nat>, codeSize: nat, codeHash: Hash, location: nat)
    | ReadCodeSize(account: Address, codeSize: nat, location: nat)
    | Log(transfers: seq<Transfer>)
    | Enter(from: Address, to: Address, value: nat, callSite: Option<nat>, paid: bool)
    | Exit(failed: bool)

  /** The open calls, root first, and every definition so far, in failed calls too. */
  datatype Tracer = Tracer(calls: seq<CallTree>, defs: map<VarID, StateVariable>)

  function SlotID(s: Slot): VarID {
    StorageID(s.addr, s.key)
  }

  function CurrentData(t: CallTree): Data {
    if t.data == [] then EmptyData else t.data[|t.data| - 1]
  }

  function WithData(t: CallTree, d: Data): CallTree {
    if t.data == [] then t.(data := [d]) else t.(data := t.data[..|t.data| - 1] + [d])
  }

  predicate Started(t: Tracer) {
    t.calls != []
  }

  function Top(t: Tracer): CallTree
    requires Started(t)
  {
    t.calls[|t.calls| - 1]
  }

  function WithTop(t: Tracer, call: CallTree): (r: Tracer)
    requires Started(t)
    ensures |r.calls| == |t.calls|
  {
    t.(calls := t.calls[..|t.calls| - 1] + [call])
  }

  function OnData(t: Tracer, d: Data): (r: Tracer)
    requires Started(t)
    ensures |r.calls| == |t.calls|
  {
    WithTop(t, WithData(Top(t), d))
  }

  function AddDef(t: Tracer, def: StateVariable): (r: Tracer)
    requires Started(t)
    ensures |r.calls| == |t.calls|
  {
    var d := CurrentData(Top(t));
    OnData(t, d.(defs := Override(d.defs, def))).(defs := t.defs[ID(def) := def])
  }

  function AddUse(t: Tracer, use: StateVariable): (r: Tracer)
    requires Started(t)
    ensures |r.calls| == |t.calls|
  {
    var d := CurrentData(Top(t));
    OnData(t, d.(uses := IfAbsent(d.uses, use)))
  }

  function AddClearUse(t: Tracer, use: StateVariable): (r: Tracer)
    requires Started(t)
    ensures |r.calls| == |t.calls|
  {
    if ID(use) in t.defs then t else AddUse(t, use)
  }

  function AddTransfer(t: Tracer, transfer: Transfer): (r: Tracer)
    requires Started(t)
    ensures |r.calls| == |t.calls|
  {
    var d := CurrentData(Top(t));
    OnData(t, d.(transfers := d.transfers + [transfer], profits := AddAll(d.profits, ProfitsFrom(transfer))))
  }

  function AddTransfers(t: Tracer, ts: seq<Transfer>): (r: Tracer)
    requires Started(t)
    ensures |r.calls| == |t.calls|
    decreases |ts|
  {
    if ts == [] then t else AddTransfers(AddTransfer(t, ts[0]), ts[1..])
  }

  function NewCall(preState: State): CallTree {
    CallTree([EmptyData], [], false, preState)
  }

  /** The balance variable of an account, with what is about to change it. */
  function BalanceAt(st: State, account: Address, change: int, location: Option<nat>): StateVariable {
    BalanceVariable(account, st.GetBalance(account) + change, location)
  }

  function Payment(from: Address, to: Address, value: nat): FungibleTransfer {
    FungibleTransfer(from, to, value)
  }

  /** An Ether transfer defines both balances. */
  function AddPayment(t: Tracer, def0: StateVariable, def1: StateVariable, f: FungibleTransfer): (r: Tracer)
    requires Started(t)
    ensures |r.calls| == |t.calls|
  {
    AddTransfer(AddDef(AddDef(t, def0), def1), EtherTransfer(f))
  }

  function OpenCall(t: Tracer, st: State): (r: Tracer)
    requires Started(t)
    ensures |r.calls| == |t.calls| + 1
  {
    var parent := Top(t).(data := Top(t).data + [EmptyData]);
    Tracer(WithTop(t, parent).calls + [NewCall(st)], t.defs)
  }

  function EnterStep(t: Tracer, st: State, from: Address, to: Address, value: nat, location: Option<nat>): (r: Tracer)
    requires Started(t)
    ensures |r.calls| == |t.calls| + 1
  {
    if value == 0 then OpenCall(t, st)
    else AddPayment(
      OpenCall(t, st),
      BalanceAt(st, to, value, location),
      BalanceAt(st, from, 0 - value, location),
      Payment(from, to, value))
  }

  /** A failed call loses what its last segment changed; its summary as a whole is ignored anyway. */
  function ClearedIf(call: CallTree, failed: bool): CallTree {
    if failed then WithData(call, CurrentData(call).(defs := [], transfers := [], profits := [])) else call
  }

  function ExitStep(t: Tracer, failed: bool): (r: Tracer)
    requires |t.calls| > 1
    ensures |r.calls| == |t.calls| - 1
  {
    var closed := ClearedIf(Top(t), failed).(failed := failed);
    var outer := t.(calls := t.calls[..|t.calls| - 1]);
    WithTop(outer, Top(outer).(nested := Top(outer).nested + [closed]))
  }

  predicate Reads(e: Event) {
    e.Sload? || e.ReadBalance? || e.ReadCode? || e.ReadCodeSize?
  }

  /** The variable an opcode reads, with the value the state holds for it. */
  function UseOf(e: Event, st: State): StateVariable
    requires Reads(e)
  {
    match e
    case Sload(s, l) => StorageVariable(s.addr, s.key, st.GetState(s), Some(l))
    case ReadBalance(a, l) => BalanceAt(st, a, 0, Some(l))
    case ReadCode(a, code, size, hash, l) => CodeVariable(a, code, size, hash, Some(l))
    case ReadCodeSize(a, size, l) => CodeVariable(a, [], size, 0, Some(l))
  }

  function DefOf(e: Event): StateVariable
    requires e.Sstore?
  {
    StorageVariable(e.slot.addr, e.slot.key, e.value, Some(e.location))
  }

  predicate CanStep(t: Tracer, e: Event) {
    Started(t) && (e.Exit? ==> |t.calls| > 1)
  }

  function TracerStep(t: Tracer, st: State, e: Event): (r: Tracer)
    requires CanStep(t, e)
    ensures |r.calls| == |t.calls| + if e.Enter? then 1 else if e.Exit? then -1 else 0
  {
    match e
    case Sstore(_, _, _) => AddDef(t, DefOf(e))
    case Sload(_, _) => AddClearUse(t, UseOf(e, st))
    case ReadBalance(_, _) => AddClearUse(t, UseOf(e, st))
    case ReadCode(_, _, _, _, _) => AddClearUse(t, UseOf(e, st))
    case ReadCodeSize(_, _, _) => AddUse(t, UseOf(e, st))
    case Log(ts) => AddTransfers(t, ts)
    case Enter(from, to, value, l, _) => EnterStep(t, st, from, to, value, l)
    case Exit(failed) => ExitStep(t, failed)
  }

  function StartTracer(st: State): (r: Tracer)
    ensures Started(r)
  {
    Tracer([NewCall(st)], map[])
  }

  function FailRoot(t: Tracer): (r: Tracer)
    requires Started(t)
    ensures |r.calls| == |t.calls|
  {
    WithTop(t, ClearedIf(Top(t), true).(failed := true))
  }

  /** What the value of a transaction uses, defines and transfers. */
  datatype Settlement = Settlement(use: StateVariable, def0: StateVariable, def1: StateVariable, f: FungibleTransfer)

  function SettlementOf(st: State, tx: Tx): Settlement {
    Settlement(
      BalanceAt(st, tx.from, 0 - tx.value, None),
      BalanceAt(st, tx.from, 0, None),
      BalanceAt(st, tx.to, 0, None),
      Payment(tx.from, tx.to, tx.value))
  }

  function Settle(t: Tracer, s: Settlement): (r: Tracer)
    requires Started(t)
    ensures |r.calls| == |t.calls|
  {
    AddPayment(AddClearUse(t, s.use), s.def0, s.def1, s.f)
  }

  /** The value of the transaction itself is filed at its end. */
  function EndTracer(t: Tracer, st: State, tx: Tx, failed: bool): (r: Tracer)
    requires Started(t)
    ensures |r.calls| == |t.calls|
  {
    if failed then FailRoot(t)
    else if tx.value == 0 then t
    else Settle(t, SettlementOf(st, tx))
  }
}
