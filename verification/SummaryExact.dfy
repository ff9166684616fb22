/**
 What the summaries say about the run they were traced from: the overall definitions are the storage
 diff, the overall uses are the reads of values from before the transaction.
 */
module SummaryExact {
  import opened Chain
  import opened StateVars
  import opened Profits
  import opened Transfers
  import opened CallSummaries
  import opened SummarySteps

  // ---- The run being traced ----

  /** What a failing call goes back to. */
  datatype Saved = Saved(state: State, written: set<Slot>, unpaid: seq<FungibleTransfer>)

  /**
   The state of the engine, with the slots written and the values reported but not paid by calls that
   have not failed, and the slots some read of which found no such write.
   */
  datatype Machine = Machine(state: State, written: set<Slot>, unpaid: seq<FungibleTransfer>, exposed: set<Slot>, saved: seq<Saved>)

  function Pay(st: State, from: Address, to: Address, value: nat): State {
    var paid := st.balances[from := st.GetBalance(from) - value];
    State(st.storage, paid[to := Get(paid, to, 0) + value])
  }

  function MachineStep(m: Machine, e: Event): Machine
    requires e.Exit? ==> m.saved != []
  {
    match e
    case Sload(s, _) => if s in m.written then m else m.(exposed := m.exposed + {s})
    case Sstore(s, v, _) => m.(state := m.state.(storage := m.state.storage[s := v]), written := m.written + {s})
    case Enter(from, to, value, _, paid) =>
      m.(state := if paid then Pay(m.state, from, to, value) else m.state,
         unpaid := if paid then m.unpaid else m.unpaid + [Payment(from, to, value)],
         saved := m.saved + [Saved(m.state, m.written, m.unpaid)])
    case Exit(failed) =>
      var last := m.saved[|m.saved| - 1];
      if failed then Machine(last.state, last.written, last.unpaid, m.exposed, m.saved[..|m.saved| - 1])
      else m.(saved := m.saved[..|m.saved| - 1])
    case _ => m
  }

  function StartMachine(pre: State, tx: Tx): Machine {
    Machine(Pay(pre, tx.from, tx.to, tx.value), {}, [], {}, [])
  }

  function Depth(es: seq<Event>): int {
    if es == [] then 1
    else
      var e := es[|es| - 1];
      Depth(es[..|es| - 1]) + if e.Enter? then 1 else if e.Exit? then -1 else 0
  }

  /** What the engine can report next: no exit from the root, and no Ether transfer in a log. */
  predicate Reportable(e: Event, depth: int) {
    (e.Exit? ==> depth > 1) && (e.Log? ==> forall t :: t in e.transfers ==> !t.EtherTransfer?)
  }

  predicate Playable(es: seq<Event>) {
    es == [] || (Playable(es[..|es| - 1]) && Reportable(es[|es| - 1], Depth(es[..|es| - 1])))
  }

  datatype Traced = Traced(t: Tracer, m: Machine)

  /** The tracer and the machine after the events of a transaction. */
  function RunOf(pre: State, tx: Tx, es: seq<Event>): (r: Traced)
    requires Playable(es)
    ensures |r.t.calls| == |r.m.saved| + 1 == Depth(es)
  {
    if es == [] then Traced(StartTracer(pre), StartMachine(pre, tx))
    else
      var r := RunOf(pre, tx, es[..|es| - 1]);
      Traced(TracerStep(r.t, r.m.state, es[|es| - 1]), MachineStep(r.m, es[|es| - 1]))
  }

  /** The summary of a whole transaction. */
  function SummaryOf(pre: State, tx: Tx, es: seq<Event>, failed: bool): CallTree
    requires Playable(es) && Depth(es) == 1
  {
    var r := RunOf(pre, tx, es);
    EndTracer(r.t, r.m.state, tx, failed).calls[0]
  }

  function PostState(pre: State, tx: Tx, es: seq<Event>, failed: bool): State
    requires Playable(es)
  {
    if failed then pre else RunOf(pre, tx, es).m.state
  }

  // ---- How events move the folds ----

  /** A call that is executing. */
  predicate Active(c: CallTree) {
    |c.data| == |c.nested| + 1 && !c.failed && Distinct(CurrentData(c).defs)
  }

  /** A call with a nested call under way: the segment to come is there, empty. */
  predicate Waiting(c: CallTree) {
    |c.data| == |c.nested| + 2 && !c.failed && CurrentData(c) == EmptyData
  }

  predicate Shaped(calls: seq<CallTree>) {
    calls != [] && Active(calls[|calls| - 1]) && forall i :: 0 <= i < |calls| - 1 ==> Waiting(calls[i])
  }

  /** The folds before the `k`-th segment do not look further. */
  lemma {:induction false} FoldsBefore(c: CallTree, d: CallTree, k: nat)
    requires k <= |c.nested| && k <= |d.nested| && c.nested[..k] == d.nested[..k]
    requires forall i :: 0 <= i < k ==> Segment(c, i) == Segment(d, i)
    ensures DefsBefore(c, k) == DefsBefore(d, k) && UsesBefore(c, k) == UsesBefore(d, k)
    ensures ProfitsBefore(c, k) == ProfitsBefore(d, k) && TransfersBefore(c, k) == TransfersBefore(d, k)
  {
    if k > 0 {
      assert c.nested[..k - 1] == c.nested[..k][..k - 1] && d.nested[..k - 1] == d.nested[..k][..k - 1];
      assert c.nested[k - 1] == c.nested[..k][k - 1] && d.nested[k - 1] == d.nested[..k][k - 1];
      FoldsBefore(c, d, k - 1);
    }
  }

  /** The folds over everything a call has done so far. */
  function DefsOf(c: CallTree): seq<StateVariable> { DefsWithin(c, |c.nested|) }
  function UsesOf(c: CallTree): seq<StateVariable> { UsesWithin(c, |c.nested|) }
  function ProfitsOfCall(c: CallTree): seq<Profit> { ProfitsWithin(c, |c.nested|) }
  function TransfersOf(c: CallTree): seq<Transfer> { TransfersWithin(c, |c.nested|) }

  lemma Recorded(c: CallTree, d: Data)
    requires Active(c)
    ensures var c' := WithData(c, d);
            && CurrentData(c') == d && |c'.data| == |c'.nested| + 1 && !c'.failed && c'.preState == c.preState
            && DefsOf(c) == OverrideAll(DefsBefore(c, |c.nested|), CurrentData(c).defs)
            && DefsOf(c') == OverrideAll(DefsBefore(c, |c.nested|), d.defs)
            && UsesOf(c) == IfAbsentAll(UsesBefore(c, |c.nested|), CurrentData(c).uses)
            && UsesOf(c') == IfAbsentAll(UsesBefore(c, |c.nested|), d.uses)
            && ProfitsOfCall(c) == AddAll(ProfitsBefore(c, |c.nested|), CurrentData(c).profits)
            && ProfitsOfCall(c') == AddAll(ProfitsBefore(c, |c.nested|), d.profits)
            && TransfersOf(c) == TransfersBefore(c, |c.nested|) + CurrentData(c).transfers
            && TransfersOf(c') == TransfersBefore(c, |c.nested|) + d.transfers
  {
    FoldsBefore(c, WithData(c, d), |c.nested|);
  }

  function Suspended(c: CallTree): CallTree {
    c.(data := c.data + [EmptyData])
  }

  lemma SuspendedFolds(c: CallTree)
    requires Active(c)
    ensures var c' := Suspended(c);
            && Waiting(c') && c'.preState == c.preState
            && DefsOf(c') == DefsOf(c) && UsesOf(c') == UsesOf(c)
            && ProfitsOfCall(c') == ProfitsOfCall(c) && TransfersOf(c') == TransfersOf(c)
  {
    FoldsBefore(c, Suspended(c), |c.nested|);
  }

  function Resumed(c: CallTree, inner: CallTree): CallTree {
    c.(nested := c.nested + [inner])
  }

  lemma ResumedFolds(c: CallTree, inner: CallTree)
    requires Waiting(c)
    ensures var c' := Resumed(c, inner);
            && Active(c') && c'.preState == c.preState
            && DefsOf(c') == OverrideAll(DefsOf(c), CallDefs(inner))
            && UsesOf(c') == IfAbsentAll(UsesOf(c), CallUses(inner))
            && ProfitsOfCall(c') == AddAll(ProfitsOfCall(c), CallProfits(inner))
            && TransfersOf(c') == TransfersOf(c) + CallTransfers(inner)
  {
    var c', n := Resumed(c, inner), |c.nested|;
    FoldsBefore(c, c', n);
    assert Segment(c', n + 1) == EmptyData && Segment(c', n) == Segment(c, n);
    assert c'.nested[n] == inner && |c'.nested| == n + 1;
    assert DefsOf(c') == OverrideAll(DefsBefore(c', n + 1), []) && DefsWithin(c', n) == DefsOf(c);
    assert UsesOf(c') == IfAbsentAll(UsesBefore(c', n + 1), []) && UsesWithin(c', n) == UsesOf(c);
    assert ProfitsOfCall(c') == AddAll(ProfitsBefore(c', n + 1), []) && ProfitsWithin(c', n) == ProfitsOfCall(c);
    assert TransfersOf(c') == TransfersBefore(c', n + 1) + [] && TransfersWithin(c', n) == TransfersOf(c);
  }

  // ---- Storage and Ether: what a call's summary makes of the state it started in ----

  /** Something of the state to follow: the value of a slot, or the balance of an account. */
  datatype Query = SlotOf(s: Slot) | EtherAt(a: Address)

  function Read(st: State, q: Query): int {
    match q
    case SlotOf(s) => st.GetState(s)
    case EtherAt(a) => st.GetBalance(a)
  }

  /** What values reported but not paid would have made of it. */
  function Owed(unpaid: seq<FungibleTransfer>, q: Query): int {
    if q.EtherAt? then Change(unpaid, q.a) else 0
  }

  /** What it would be, had those been paid. */
  function Due(st: State, unpaid: seq<FungibleTransfer>, q: Query): int {
    Read(st, q) + Owed(unpaid, q)
  }

  /** What the summary of a call makes of it so far. */
  function After(c: CallTree, q: Query): int {
    match q
    case SlotOf(s) =>
      (match Lookup(DefsOf(c), SlotID(s))
       case Some(v) => if v.StorageVariable? then v.value else 0
       case None => c.preState.GetState(s))
    case EtherAt(a) => c.preState.GetBalance(a) + Net(ProfitsOfCall(c), EtherOf(a))
  }

  lemma {:induction false} DefsDistinct(c: CallTree, k: nat)
    requires k <= |c.nested|
    ensures Distinct(DefsBefore(c, k)) && Distinct(DefsWithin(c, k))
    decreases k
  {
    if k > 0 {
      DefsDistinct(c, k - 1);
      OverrideAllLookup(DefsWithin(c, k - 1), CallDefs(c.nested[k - 1]), CodeID(0));
    }
    OverrideAllLookup(DefsBefore(c, k), Segment(c, k).defs, CodeID(0));
  }

  lemma CallDefsDistinct(c: CallTree)
    ensures Distinct(CallDefs(c))
  {
    DefsDistinct(c, |c.nested|);
  }

  function DefinedBy(def: StateVariable, q: Query, otherwise: int): int {
    if q.SlotOf? && ID(def) == SlotID(q.s) then def.value else otherwise
  }

  function WithDef(c: CallTree, def: StateVariable): CallTree {
    WithData(c, CurrentData(c).(defs := Override(CurrentData(c).defs, def)))
  }

  /** Recording a definition changes what its own variable holds. */
  lemma RecordedDef(c: CallTree, def: StateVariable, q: Query)
    requires Active(c)
    ensures var c' := WithDef(c, def);
            Active(c') && c'.preState == c.preState && After(c', q) == DefinedBy(def, q, After(c, q))
  {
    var d := CurrentData(c);
    var d' := d.(defs := Override(d.defs, def));
    Recorded(c, d');
    OverrideLookup(d.defs, def, ID(def));
    if q.SlotOf? {
      var before, id := DefsBefore(c, |c.nested|), SlotID(q.s);
      OverrideLookup(d.defs, def, id);
      DistinctLast(d.defs, id);
      DistinctLast(d'.defs, id);
      OverrideAllLookup(before, d.defs, id);
      OverrideAllLookup(before, d'.defs, id);
    }
  }

  function WithTransfer(c: CallTree, transfer: Transfer): CallTree {
    var d := CurrentData(c);
    WithData(c, d.(transfers := d.transfers + [transfer], profits := AddAll(d.profits, ProfitsFrom(transfer))))
  }

  function MovedFor(transfer: Transfer, q: Query): int {
    if q.EtherAt? then Moved(transfer, EtherOf(q.a)) else 0
  }

  /** Recording a transfer changes the balances by what it moves. */
  lemma RecordedTransfer(c: CallTree, transfer: Transfer, q: Query)
    requires Active(c)
    ensures var c' := WithTransfer(c, transfer);
            Active(c') && c'.preState == c.preState && After(c', q) == After(c, q) + MovedFor(transfer, q)
  {
    var d := CurrentData(c);
    var d' := d.(transfers := d.transfers + [transfer], profits := AddAll(d.profits, ProfitsFrom(transfer)));
    Recorded(c, d');
    if q.EtherAt? {
      var before, k := ProfitsBefore(c, |c.nested|), EtherOf(q.a);
      AddNet(before, d.profits, k);
      AddNet(before, d'.profits, k);
      AddNet(d.profits, ProfitsFrom(transfer), k);
      ProfitsAreMoved(transfer, k);
    }
  }

  lemma RecordedUses(c: CallTree, uses: seq<StateVariable>, q: Query)
    requires Active(c)
    ensures var c' := WithData(c, CurrentData(c).(uses := uses));
            Active(c') && c'.preState == c.preState && After(c', q) == After(c, q)
  {
    Recorded(c, CurrentData(c).(uses := uses));
  }

  /**
   A nested call that succeeds hands on what it makes of the state; one that fails hands on nothing.
   `k` and `inside` are what was moved before the calls started, or is owed.
   */
  lemma ResumedAfter(c: CallTree, inner: CallTree, q: Query, k: int, inside: int)
    requires Waiting(c) && Read(inner.preState, q) + inside == After(c, q) + k && (q.SlotOf? ==> k == 0 && inside == 0)
    ensures After(Resumed(c, inner), q) + k == if inner.failed then After(c, q) + k else After(inner, q) + inside
  {
    ResumedFolds(c, inner);
    match q {
      case SlotOf(s) =>
        CallDefsDistinct(inner);
        DistinctLast(CallDefs(inner), SlotID(s));
        OverrideAllLookup(DefsOf(c), CallDefs(inner), SlotID(s));
      case EtherAt(a) =>
        AddNet(ProfitsOfCall(c), CallProfits(inner), EtherOf(a));
        if !inner.failed {
          NonZeroNet(ProfitsOfCall(inner), EtherOf(a));
        }
    }
  }

  // ---- Along the stack of open calls ----

  /** What the innermost open call's summary leaves out: what was moved or owed before the call started. */
  function Base(saved: seq<Saved>, q: Query, k: int): int {
    if saved == [] then k else Owed(saved[|saved| - 1].unpaid, q)
  }

  function DueThen(s: Saved, q: Query): int {
    Due(s.state, s.unpaid, q)
  }

  /**
   Each open call's summary has got from the state it started in to the one the next call started
   in, and the innermost one to `now`. `k` is what the transaction itself has moved.
   */
  predicate Holds(calls: seq<CallTree>, saved: seq<Saved>, q: Query, now: int, pre: int, k: int)
    requires |calls| == |saved| + 1
    decreases |calls|
  {
    var n := |calls| - 1;
    && After(calls[n], q) + Base(saved, q, k) == now
    && if n == 0 then Read(calls[0].preState, q) == pre
       else Read(calls[n].preState, q) == Read(saved[n - 1].state, q)
            && Holds(calls[..n], saved[..n - 1], q, DueThen(saved[n - 1], q), pre, k)
  }

  /** Holds for the tracer, with the shape of its stack. */
  predicate Tracks(t: Tracer, saved: seq<Saved>, q: Query, now: int, pre: int, k: int) {
    |t.calls| == |saved| + 1 && Shaped(t.calls) && (q.SlotOf? ==> k == 0) && Holds(t.calls, saved, q, now, pre, k)
  }

  lemma TopHolds(calls: seq<CallTree>, saved: seq<Saved>, q: Query, now: int, pre: int, k: int)
    requires |calls| == |saved| + 1 && Holds(calls, saved, q, now, pre, k)
    ensures After(calls[|calls| - 1], q) == now - Base(saved, q, k)
  {
  }

  /** A call takes the place of the innermost one, from the same start. */
  lemma HoldsReplaced(calls: seq<CallTree>, saved: seq<Saved>, top: CallTree, q: Query, now: int, pre: int, k: int, now': int)
    requires |calls| == |saved| + 1 && Holds(calls, saved, q, now, pre, k)
    requires top.preState == calls[|calls| - 1].preState && After(top, q) + Base(saved, q, k) == now'
    ensures Holds(calls[..|calls| - 1] + [top], saved, q, now', pre, k)
  {
    var n := |calls| - 1;
    assert (calls[..n] + [top])[..n] == calls[..n];
  }

  lemma DefTracks(t: Tracer, def: StateVariable, saved: seq<Saved>, q: Query, now: int, pre: int, k: int)
    requires Tracks(t, saved, q, now, pre, k)
    ensures Tracks(AddDef(t, def), saved, q, DefinedBy(def, q, now), pre, k)
  {
    RecordedDef(Top(t), def, q);
    TopHolds(t.calls, saved, q, now, pre, k);
  }

  lemma UseTracks(t: Tracer, use: StateVariable, saved: seq<Saved>, q: Query, now: int, pre: int, k: int)
    requires Tracks(t, saved, q, now, pre, k)
    ensures Tracks(AddUse(t, use), saved, q, now, pre, k)
  {
    var d := CurrentData(Top(t));
    RecordedUses(Top(t), IfAbsent(d.uses, use), q);
  }

  lemma TransferTracks(t: Tracer, transfer: Transfer, saved: seq<Saved>, q: Query, now: int, pre: int, k: int)
    requires Tracks(t, saved, q, now, pre, k)
    ensures Tracks(AddTransfer(t, transfer), saved, q, now + MovedFor(transfer, q), pre, k)
  {
    RecordedTransfer(Top(t), transfer, q);
  }

  lemma {:induction false} TokensTrack(t: Tracer, ts: seq<Transfer>, saved: seq<Saved>, q: Query, now: int, pre: int, k: int)
    requires Tracks(t, saved, q, now, pre, k) && forall x :: x in ts ==> !x.EtherTransfer?
    ensures Tracks(AddTransfers(t, ts), saved, q, now, pre, k)
    decreases |ts|
  {
    if ts != [] {
      assert ts[0] in ts && MovedFor(ts[0], q) == 0;
      TransferTracks(t, ts[0], saved, q, now, pre, k);
      TokensTrack(AddTransfer(t, ts[0]), ts[1..], saved, q, now, pre, k);
    }
  }

  lemma PaymentTracks(t: Tracer, def0: StateVariable, def1: StateVariable, f: FungibleTransfer,
                      saved: seq<Saved>, q: Query, now: int, pre: int, k: int)
    requires Tracks(t, saved, q, now, pre, k) && def0.BalanceVariable? && def1.BalanceVariable?
    ensures Tracks(AddPayment(t, def0, def1, f), saved, q, now + MovedFor(EtherTransfer(f), q), pre, k)
  {
    DefTracks(t, def0, saved, q, now, pre, k);
    DefTracks(AddDef(t, def0), def1, saved, q, now, pre, k);
    TransferTracks(AddDef(AddDef(t, def0), def1), EtherTransfer(f), saved, q, now, pre, k);
  }

  lemma NewCallHolds(st: State, q: Query)
    ensures After(NewCall(st), q) == Read(st, q) && Active(NewCall(st))
  {
    var c := NewCall(st);
    assert CurrentData(c) == EmptyData && Segment(c, 0) == EmptyData;
    assert DefsBefore(c, 0) == [] && ProfitsBefore(c, 0) == [];
  }

  lemma HoldsPushed(calls: seq<CallTree>, saved: seq<Saved>, last: Saved, q: Query, pre: int, k: int)
    requires |calls| == |saved| + 1 && Holds(calls, saved, q, DueThen(last, q), pre, k)
    ensures Holds(calls + [NewCall(last.state)], saved + [last], q, DueThen(last, q), pre, k)
  {
    var n := |calls|;
    NewCallHolds(last.state, q);
    assert (calls + [NewCall(last.state)])[..n] == calls && (saved + [last])[..n - 1] == saved;
  }

  lemma OpenTracks(t: Tracer, last: Saved, saved: seq<Saved>, q: Query, pre: int, k: int)
    requires Tracks(t, saved, q, DueThen(last, q), pre, k)
    ensures Tracks(OpenCall(t, last.state), saved + [last], q, DueThen(last, q), pre, k)
  {
    var now := DueThen(last, q);
    var below := t.calls[..|t.calls| - 1] + [Suspended(Top(t))];
    SuspendedFolds(Top(t));
    TopHolds(t.calls, saved, q, now, pre, k);
    HoldsReplaced(t.calls, saved, Suspended(Top(t)), q, now, pre, k, now);
    HoldsPushed(below, saved, last, q, pre, k);
    NewCallHolds(last.state, q);
    assert OpenCall(t, last.state).calls == below + [NewCall(last.state)];
  }

  function Closed(t: Tracer, failed: bool): CallTree
    requires Started(t)
  {
    ClearedIf(Top(t), failed).(failed := failed)
  }

  /** The open calls but the innermost, the last of them resumed. */
  lemma ExitCalls(t: Tracer, failed: bool)
    requires |t.calls| > 1 && Shaped(t.calls)
    ensures var below := t.calls[..|t.calls| - 1]; var n := |below|;
            && Waiting(below[n - 1]) && Closed(t, failed).preState == Top(t).preState
            && ExitStep(t, failed).calls == below[..n - 1] + [Resumed(below[n - 1], Closed(t, failed))]
            && Shaped(ExitStep(t, failed).calls)
  {
    var below := t.calls[..|t.calls| - 1];
    assert below[|below| - 1] == t.calls[|t.calls| - 2];
    ResumedFolds(below[|below| - 1], Closed(t, failed));
  }

  lemma ClosedAfter(t: Tracer, failed: bool, q: Query)
    requires Started(t) && Active(Top(t))
    ensures Closed(t, failed).failed == failed && (!failed ==> Closed(t, failed) == Top(t))
  {
  }

  lemma ExitTracks(t: Tracer, failed: bool, saved: seq<Saved>, q: Query, now: int, pre: int, k: int)
    requires |t.calls| > 1 && Tracks(t, saved, q, now, pre, k)
    ensures Tracks(ExitStep(t, failed), saved[..|saved| - 1], q, if failed then DueThen(saved[|saved| - 1], q) else now, pre, k)
  {
    var n := |t.calls| - 1;
    var below, closed, last := t.calls[..n], Closed(t, failed), saved[n - 1];
    ExitCalls(t, failed);
    ClosedAfter(t, failed, q);
    assert Holds(below, saved[..n - 1], q, DueThen(last, q), pre, k);
    TopHolds(t.calls, saved, q, now, pre, k);
    ExitHolds(below, saved[..n - 1], closed, last, q, pre, k, now);
  }

  lemma ExitHolds(below: seq<CallTree>, saved: seq<Saved>, closed: CallTree, last: Saved, q: Query, pre: int, k: int, now: int)
    requires |below| == |saved| + 1 && Waiting(below[|below| - 1]) && Holds(below, saved, q, DueThen(last, q), pre, k)
    requires Read(closed.preState, q) == Read(last.state, q) && (q.SlotOf? ==> k == 0)
    requires !closed.failed ==> After(closed, q) + Owed(last.unpaid, q) == now
    ensures Holds(below[..|below| - 1] + [Resumed(below[|below| - 1], closed)], saved, q,
                  if closed.failed then DueThen(last, q) else now, pre, k)
  {
    var waiting := below[|below| - 1];
    TopHolds(below, saved, q, DueThen(last, q), pre, k);
    ResumedAfter(waiting, closed, q, Base(saved, q, k), Owed(last.unpaid, q));
    ResumedFolds(waiting, closed);
    HoldsReplaced(below, saved, Resumed(waiting, closed), q, DueThen(last, q), pre, k,
                  if closed.failed then DueThen(last, q) else now);
  }

  // ---- Over a whole run ----

  /** What the transaction itself has moved before it executes. */
  function Offset(tx: Tx, q: Query): int {
    MovedFor(EtherTransfer(Payment(tx.from, tx.to, tx.value)), q)
  }

  function DueNow(m: Machine, q: Query): int {
    Due(m.state, m.unpaid, q)
  }

  lemma PayReads(st: State, from: Address, to: Address, value: nat, q: Query)
    ensures Read(Pay(st, from, to, value), q) == Read(st, q) + MovedFor(EtherTransfer(Payment(from, to, value)), q)
  {
  }

  lemma {:induction false} ChangeAppend(ts: seq<FungibleTransfer>, t: FungibleTransfer, a: Address)
    ensures Change(ts + [t], a) == Change(ts, a) + Change([t], a)
  {
    if ts == [] {
      assert [] + [t] == [t];
    } else {
      assert (ts + [t])[1..] == ts[1..] + [t];
      ChangeAppend(ts[1..], t, a);
    }
  }

  lemma OwesMore(unpaid: seq<FungibleTransfer>, f: FungibleTransfer, q: Query)
    ensures Owed(unpaid + [f], q) == Owed(unpaid, q) + MovedFor(EtherTransfer(f), q)
  {
    if q.EtherAt? {
      ChangeAppend(unpaid, f, q.a);
      assert Change([f], q.a) == Moved(EtherTransfer(f), EtherOf(q.a)) + Change([f][1..], q.a);
    }
  }

  lemma EnterTracks(t: Tracer, last: Saved, from: Address, to: Address, value: nat, location: Option<nat>,
                    saved: seq<Saved>, q: Query, pre: int, k: int)
    requires Tracks(t, saved, q, DueThen(last, q), pre, k)
    ensures Tracks(EnterStep(t, last.state, from, to, value, location), saved + [last], q,
                   DueThen(last, q) + MovedFor(EtherTransfer(Payment(from, to, value)), q), pre, k)
  {
    OpenTracks(t, last, saved, q, pre, k);
    if value == 0 {
      assert MovedFor(EtherTransfer(Payment(from, to, value)), q) == 0;
    } else {
      var def0, def1 := BalanceAt(last.state, to, value, location), BalanceAt(last.state, from, 0 - value, location);
      PaymentTracks(OpenCall(t, last.state), def0, def1, Payment(from, to, value), saved + [last], q, DueThen(last, q), pre, k);
    }
  }

  /** Reads and logs leave the state as it is. */
  lemma QuietTracks(t: Tracer, m: Machine, e: Event, q: Query, pre: int, k: int)
    requires Tracks(t, m.saved, q, DueNow(m, q), pre, k) && Reportable(e, |t.calls|) && (Reads(e) || e.Log?)
    ensures DueNow(MachineStep(m, e), q) == DueNow(m, q) && MachineStep(m, e).saved == m.saved
    ensures Tracks(TracerStep(t, m.state, e), m.saved, q, DueNow(m, q), pre, k)
  {
    if Reads(e) {
      UseTracks(t, UseOf(e, m.state), m.saved, q, DueNow(m, q), pre, k);
    } else {
      TokensTrack(t, e.transfers, m.saved, q, DueNow(m, q), pre, k);
    }
  }

  lemma EnterDue(m: Machine, e: Event, q: Query)
    requires e.Enter?
    ensures DueNow(MachineStep(m, e), q) == DueNow(m, q) + MovedFor(EtherTransfer(Payment(e.from, e.to, e.value)), q)
  {
    PayReads(m.state, e.from, e.to, e.value, q);
    OwesMore(m.unpaid, Payment(e.from, e.to, e.value), q);
  }

  lemma EnterEventTracks(t: Tracer, m: Machine, e: Event, q: Query, pre: int, k: int)
    requires Tracks(t, m.saved, q, DueNow(m, q), pre, k) && e.Enter?
    ensures var m' := MachineStep(m, e); Tracks(TracerStep(t, m.state, e), m'.saved, q, DueNow(m', q), pre, k)
  {
    EnterDue(m, e, q);
    EnterTracks(t, Saved(m.state, m.written, m.unpaid), e.from, e.to, e.value, e.callSite, m.saved, q, pre, k);
  }

  lemma ExitEventTracks(t: Tracer, m: Machine, e: Event, q: Query, pre: int, k: int)
    requires Tracks(t, m.saved, q, DueNow(m, q), pre, k) && e.Exit? && |t.calls| > 1
    ensures var m' := MachineStep(m, e); Tracks(TracerStep(t, m.state, e), m'.saved, q, DueNow(m', q), pre, k)
  {
    ExitTracks(t, e.failed, m.saved, q, DueNow(m, q), pre, k);
  }

  /** Every event keeps the summaries in step with the state. */
  lemma StepTracks(t: Tracer, m: Machine, e: Event, q: Query, pre: int, k: int)
    requires Tracks(t, m.saved, q, DueNow(m, q), pre, k) && Reportable(e, |t.calls|)
    ensures var m' := MachineStep(m, e); Tracks(TracerStep(t, m.state, e), m'.saved, q, DueNow(m', q), pre, k)
  {
    if e.Sstore? {
      DefTracks(t, DefOf(e), m.saved, q, DueNow(m, q), pre, k);
    } else if e.Enter? {
      EnterEventTracks(t, m, e, q, pre, k);
    } else if e.Exit? {
      ExitEventTracks(t, m, e, q, pre, k);
    } else {
      QuietTracks(t, m, e, q, pre, k);
    }
  }

  lemma {:induction false} RunTracks(pre: State, tx: Tx, es: seq<Event>, q: Query)
    requires Playable(es)
    ensures var r := RunOf(pre, tx, es); Tracks(r.t, r.m.saved, q, DueNow(r.m, q), Read(pre, q), Offset(tx, q))
  {
    if es == [] {
      NewCallHolds(pre, q);
      PayReads(pre, tx.from, tx.to, tx.value, q);
    } else {
      var r := RunOf(pre, tx, es[..|es| - 1]);
      RunTracks(pre, tx, es[..|es| - 1], q);
      StepTracks(r.t, r.m, es[|es| - 1], q, Read(pre, q), Offset(tx, q));
    }
  }

  lemma SettleTracks(t: Tracer, s: Settlement, q: Query, now: int, pre: int, k: int)
    requires Tracks(t, [], q, now, pre, k) && s.def0.BalanceVariable? && s.def1.BalanceVariable?
    ensures Tracks(Settle(t, s), [], q, now + MovedFor(EtherTransfer(s.f), q), pre, k)
  {
    UseTracks(t, s.use, [], q, now, pre, k);
    PaymentTracks(AddClearUse(t, s.use), s.def0, s.def1, s.f, [], q, now, pre, k);
  }

  lemma RootTracks(t: Tracer, q: Query, now: int, pre: int, k: int)
    requires Tracks(t, [], q, now, pre, k)
    ensures |t.calls| == 1 && !t.calls[0].failed && After(t.calls[0], q) + k == now && Read(t.calls[0].preState, q) == pre
  {
  }

  lemma EndTracks(t: Tracer, st: State, tx: Tx, q: Query, now: int, pre: int)
    requires Tracks(t, [], q, now, pre, Offset(tx, q))
    ensures var root := EndTracer(t, st, tx, false).calls[0];
            After(root, q) == now && Read(root.preState, q) == pre && !root.failed
  {
    var k, s := Offset(tx, q), SettlementOf(st, tx);
    if tx.value > 0 {
      SettleTracks(t, s, q, now, pre, k);
      RootTracks(Settle(t, s), q, now + k, pre, k);
    } else {
      RootTracks(t, q, now, pre, k);
    }
  }

  /** Values reported but not paid by calls that have not failed. */
  function Unpaid(pre: State, tx: Tx, es: seq<Event>, failed: bool): seq<FungibleTransfer>
    requires Playable(es)
  {
    if failed then [] else RunOf(pre, tx, es).m.unpaid
  }

  /**
   A failed transaction exposes nothing and changes nothing; otherwise its summary gets from the state
   before to the one after, with what was not paid counted as paid.
   */
  lemma SummaryTracks(pre: State, tx: Tx, es: seq<Event>, failed: bool, q: Query)
    requires Playable(es) && Depth(es) == 1
    ensures var root := SummaryOf(pre, tx, es, failed);
            && root.failed == failed
            && (!failed ==> After(root, q) == Due(PostState(pre, tx, es, failed), Unpaid(pre, tx, es, failed), q)
                            && Read(root.preState, q) == Read(pre, q))
  {
    var r := RunOf(pre, tx, es);
    RunTracks(pre, tx, es, q);
    assert r.m.saved == [];
    if !failed {
      EndTracks(r.t, r.m.state, tx, q, DueNow(r.m, q), Read(pre, q));
    }
  }

  /**
   The overall definitions are the storage diff: for any tree of calls with any failures, a slot is
   listed with the value it has after the transaction exactly if that differs from the value before.
   */
  lemma OverallDefsExact(pre: State, tx: Tx, es: seq<Event>, failed: bool, s: Slot)
    requires Playable(es) && Depth(es) == 1
    ensures var defs := Overall(SummaryOf(pre, tx, es, failed), true);
            var before, after := pre.GetState(s), PostState(pre, tx, es, failed).GetState(s);
            && Distinct(defs) && (Lookup(defs, SlotID(s)).Some? <==> after != before)
            && (after != before ==> Lookup(defs, SlotID(s)).value.StorageVariable? && Lookup(defs, SlotID(s)).value.value == after)
  {
    var root := SummaryOf(pre, tx, es, failed);
    SummaryTracks(pre, tx, es, failed, SlotOf(s));
    CallDefsDistinct(root);
    if !failed {
      ChangedLookup(root.preState, CallDefs(root), SlotID(s));
      LookupIn(CallDefs(root), SlotID(s));
    }
  }

  /**
   The overall profits are the balance diff of Ether, account by account, and on top of it what values
   reported but not paid would have moved.
   */
  lemma OverallEtherExact(pre: State, tx: Tx, es: seq<Event>, failed: bool, a: Address)
    requires Playable(es) && Depth(es) == 1
    ensures Net(CallProfits(SummaryOf(pre, tx, es, failed)), EtherOf(a)) ==
            PostState(pre, tx, es, failed).GetBalance(a) - pre.GetBalance(a) + Change(Unpaid(pre, tx, es, failed), a)
  {
    var root := SummaryOf(pre, tx, es, failed);
    SummaryTracks(pre, tx, es, failed, EtherAt(a));
    if !failed {
      NonZeroNet(ProfitsOfCall(root), EtherOf(a));
    }
  }

  /** A run and one more event. */
  lemma OneMoreEvent(pre: State, tx: Tx, es: seq<Event>, e: Event)
    requires Playable(es) && Reportable(e, Depth(es))
    ensures Playable(es + [e]) && Depth(es + [e]) == Depth(es) + (if e.Enter? then 1 else if e.Exit? then -1 else 0)
    ensures e.Exit? ==> RunOf(pre, tx, es).m.saved != []
    ensures RunOf(pre, tx, es + [e]).m == MachineStep(RunOf(pre, tx, es).m, e)
  {
    assert (es + [e])[..|es|] == es;
  }

  lemma UnpaidCallRuns(pre: State, tx: Tx, from: Address, to: Address, value: nat)
    requires tx.value == 0
    ensures var es := [] + [Enter(from, to, value, None, false)] + [Exit(false)];
            && Playable(es) && Depth(es) == 1
            && Unpaid(pre, tx, es, false) == [Payment(from, to, value)]
            && PostState(pre, tx, es, false) == Pay(pre, tx.from, tx.to, 0)
  {
    var enter := Enter(from, to, value, None, false);
    OneMoreEvent(pre, tx, [], enter);
    OneMoreEvent(pre, tx, [] + [enter], Exit(false));
  }

  /** A CALLCODE with a value leaves the balances alone, and its caller listed with a loss. */
  lemma UnpaidShowsAsLoss(pre: State, tx: Tx, from: Address, to: Address, value: nat)
    requires from != to && tx.value == 0
    ensures var es := [] + [Enter(from, to, value, None, false)] + [Exit(false)];
            && Playable(es) && Depth(es) == 1
            && PostState(pre, tx, es, false).GetBalance(from) == pre.GetBalance(from)
            && Net(CallProfits(SummaryOf(pre, tx, es, false)), EtherOf(from)) == 0 - value
  {
    var es := [] + [Enter(from, to, value, None, false)] + [Exit(false)];
    UnpaidCallRuns(pre, tx, from, to, value);
    OverallEtherExact(pre, tx, es, false, from);
    UnpaidChange(from, to, value);
  }

  lemma UnpaidChange(from: Address, to: Address, value: nat)
    requires from != to
    ensures Change([Payment(from, to, value)], from) == 0 - value
  {
    assert [Payment(from, to, value)][1..] == [];
  }
}
