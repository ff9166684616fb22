/**
 What the overall uses of a summary are: the slots a transaction reads before it writes them.
 */
module SummaryUses {
  import opened Chain
  import opened StateVars
  import opened Profits
  import opened Transfers
  import opened CallSummaries
  import opened SummarySteps
  import opened SummaryExact

  datatype Access = Untouched | Loaded | Stored

  function FirstOf(first: Access, e: Event, s: Slot): Access {
    if first != Untouched then first
    else if e.Sload? && e.slot == s then Loaded
    else if e.Sstore? && e.slot == s then Stored
    else Untouched
  }

  /** How a run first touches a slot, in failing calls too. */
  function FirstAccess(es: seq<Event>, s: Slot): Access {
    if es == [] then Untouched else FirstOf(FirstAccess(es[..|es| - 1], s), es[|es| - 1], s)
  }

  predicate EverStored(es: seq<Event>, s: Slot) {
    exists e :: e in es && e.Sstore? && e.slot == s
  }

  predicate NoCallFails(es: seq<Event>) {
    forall e :: e in es && e.Exit? ==> !e.failed
  }

  /** What the open calls together have used, outermost first. */
  function Seen(calls: seq<CallTree>, id: VarID): Option<StateVariable> {
    if calls == [] then None else Or(Seen(calls[..|calls| - 1], id), Lookup(UsesOf(calls[|calls| - 1]), id))
  }

  lemma SeenTop(calls: seq<CallTree>, top: CallTree, id: VarID)
    ensures Seen(calls + [top], id) == Or(Seen(calls, id), Lookup(UsesOf(top), id))
  {
    assert (calls + [top])[..|calls|] == calls;
  }

  // ---- One event ----

  lemma DataSeen(t: Tracer, d: Data, id: VarID)
    requires Shaped(t.calls) && d.uses == CurrentData(Top(t)).uses && Distinct(d.defs)
    ensures Shaped(OnData(t, d).calls) && Seen(OnData(t, d).calls, id) == Seen(t.calls, id)
  {
    Recorded(Top(t), d);
  }

  lemma DefSeen(t: Tracer, def: StateVariable, id: VarID)
    requires Shaped(t.calls)
    ensures var t' := AddDef(t, def);
            Shaped(t'.calls) && Seen(t'.calls, id) == Seen(t.calls, id) && t'.defs.Keys == t.defs.Keys + {ID(def)}
  {
    var d := CurrentData(Top(t));
    OverrideLookup(d.defs, def, id);
    DataSeen(t, d.(defs := Override(d.defs, def)), id);
  }

  lemma UseSeen(t: Tracer, use: StateVariable, id: VarID)
    requires Shaped(t.calls)
    ensures var t' := AddUse(t, use);
            && Shaped(t'.calls) && t'.defs == t.defs
            && Seen(t'.calls, id) == Or(Seen(t.calls, id), if ID(use) == id then Some(use) else None)
  {
    var c, d := Top(t), CurrentData(Top(t));
    var d' := d.(uses := IfAbsent(d.uses, use));
    Recorded(c, d');
    AppendLookup(d.uses, use, id);
    LookupIn(d.uses, id);
    IfAbsentAllLookup(UsesBefore(c, |c.nested|), d.uses, id);
    IfAbsentAllLookup(UsesBefore(c, |c.nested|), d'.uses, id);
  }

  lemma TransferSeen(t: Tracer, transfer: Transfer, id: VarID)
    requires Shaped(t.calls)
    ensures var t' := AddTransfer(t, transfer);
            Shaped(t'.calls) && Seen(t'.calls, id) == Seen(t.calls, id) && t'.defs == t.defs
  {
    var d := CurrentData(Top(t));
    DataSeen(t, d.(transfers := d.transfers + [transfer], profits := AddAll(d.profits, ProfitsFrom(transfer))), id);
  }

  lemma {:induction false} TransfersSeen(t: Tracer, ts: seq<Transfer>, id: VarID)
    requires Shaped(t.calls)
    ensures var t' := AddTransfers(t, ts);
            Shaped(t'.calls) && Seen(t'.calls, id) == Seen(t.calls, id) && t'.defs == t.defs
    decreases |ts|
  {
    if ts != [] {
      TransferSeen(t, ts[0], id);
      TransfersSeen(AddTransfer(t, ts[0]), ts[1..], id);
    }
  }

  lemma PaymentSeen(t: Tracer, def0: StateVariable, def1: StateVariable, f: FungibleTransfer, id: VarID)
    requires Shaped(t.calls) && def0.BalanceVariable? && def1.BalanceVariable? && id.StorageID?
    ensures var t' := AddPayment(t, def0, def1, f);
            Shaped(t'.calls) && Seen(t'.calls, id) == Seen(t.calls, id) && (id in t'.defs <==> id in t.defs)
  {
    DefSeen(t, def0, id);
    DefSeen(AddDef(t, def0), def1, id);
    TransferSeen(AddDef(AddDef(t, def0), def1), EtherTransfer(f), id);
  }

  lemma OpenSeen(t: Tracer, st: State, id: VarID)
    requires Shaped(t.calls)
    ensures var t' := OpenCall(t, st);
            Shaped(t'.calls) && Seen(t'.calls, id) == Seen(t.calls, id) && t'.defs == t.defs
  {
    var below := t.calls[..|t.calls| - 1] + [Suspended(Top(t))];
    SuspendedFolds(Top(t));
    NewCallHolds(st, EtherAt(0));
    NewCallUses(st);
    SeenTop(below, NewCall(st), id);
    assert OpenCall(t, st).calls == below + [NewCall(st)];
  }

  lemma NewCallUses(st: State)
    ensures UsesOf(NewCall(st)) == []
  {
    assert Segment(NewCall(st), 0) == EmptyData && UsesBefore(NewCall(st), 0) == [];
  }

  /** Failing changes no uses. */
  lemma ClosedUses(t: Tracer, failed: bool)
    requires Started(t) && Active(Top(t))
    ensures CallUses(Closed(t, failed)) == UsesOf(Top(t))
  {
    var c, closed, n := Top(t), Closed(t, failed), |Top(t).nested|;
    FoldsBefore(c, closed, n);
    assert Segment(closed, n).uses == Segment(c, n).uses;
  }

  lemma ExitSeen(t: Tracer, failed: bool, id: VarID)
    requires |t.calls| > 1 && Shaped(t.calls)
    ensures var t' := ExitStep(t, failed);
            Shaped(t'.calls) && Seen(t'.calls, id) == Seen(t.calls, id) && t'.defs == t.defs
  {
    var below, closed := t.calls[..|t.calls| - 1], Closed(t, failed);
    var waiting := below[|below| - 1];
    ExitCalls(t, failed);
    ClosedUses(t, failed);
    ResumedFolds(waiting, closed);
    IfAbsentAllLookup(UsesOf(waiting), CallUses(closed), id);
    SeenTop(below, Top(t), id);
    assert below + [Top(t)] == t.calls;
  }

  /** The use an event adds: an SLOAD of a slot without a definition so far. */
  function NewUse(t: Tracer, st: State, e: Event, s: Slot): Option<StateVariable> {
    if e.Sload? && e.slot == s && SlotID(s) !in t.defs then Some(UseOf(e, st)) else None
  }

  lemma StepSeen(t: Tracer, st: State, e: Event, s: Slot)
    requires Shaped(t.calls) && Reportable(e, |t.calls|)
    ensures var t' := TracerStep(t, st, e);
            && Shaped(t'.calls) && Seen(t'.calls, SlotID(s)) == Or(Seen(t.calls, SlotID(s)), NewUse(t, st, e, s))
            && (SlotID(s) in t'.defs <==> SlotID(s) in t.defs || (e.Sstore? && e.slot == s))
  {
    var id := SlotID(s);
    if Reads(e) {
      UseSeen(t, UseOf(e, st), id);
    } else if e.Sstore? {
      DefSeen(t, DefOf(e), id);
    } else if e.Log? {
      TransfersSeen(t, e.transfers, id);
    } else if e.Exit? {
      ExitSeen(t, e.failed, id);
    } else {
      EnterSeen(t, st, e.from, e.to, e.value, e.callSite, id);
    }
  }

  lemma EnterSeen(t: Tracer, st: State, from: Address, to: Address, value: nat, location: Option<nat>, id: VarID)
    requires Shaped(t.calls) && id.StorageID?
    ensures var t' := EnterStep(t, st, from, to, value, location);
            Shaped(t'.calls) && Seen(t'.calls, id) == Seen(t.calls, id) && (id in t'.defs <==> id in t.defs)
  {
    OpenSeen(t, st, id);
    if value > 0 {
      var def0, def1 := BalanceAt(st, to, value, location), BalanceAt(st, from, 0 - value, location);
      PaymentSeen(OpenCall(t, st), def0, def1, Payment(from, to, value), id);
    }
  }

  // ---- A whole run ----

  /** What the tracer and the machine know of one slot after the events so far. */
  predicate Knows(r: Traced, pre: State, es: seq<Event>, s: Slot) {
    var seen, first := Seen(r.t.calls, SlotID(s)), FirstAccess(es, s);
    && Shaped(r.t.calls) && (SlotID(s) in r.t.defs <==> EverStored(es, s))
    && (seen.Some? <==> first == Loaded)
    && (seen.Some? ==> seen.value.StorageVariable? && seen.value.value == pre.GetState(s))
    && (first == Stored ==> EverStored(es, s)) && (EverStored(es, s) ==> first != Untouched)
  }

  /** Nothing stored is nothing changed, in any state a failing call may go back to. */
  predicate Untold(m: Machine, pre: State, s: Slot) {
    && m.state.GetState(s) == pre.GetState(s) && s !in m.written
    && forall i :: 0 <= i < |m.saved| ==> m.saved[i].state.GetState(s) == pre.GetState(s) && s !in m.saved[i].written
  }

  lemma UntoldStep(m: Machine, e: Event, pre: State, s: Slot)
    requires Untold(m, pre, s) && (e.Exit? ==> m.saved != []) && !(e.Sstore? && e.slot == s)
    ensures Untold(MachineStep(m, e), pre, s)
  {
  }

  /** A run is the run before its last event, and that event. */
  lemma MachineAfter(pre: State, tx: Tx, es: seq<Event>)
    requires Playable(es) && es != []
    ensures var m := RunOf(pre, tx, es[..|es| - 1]).m; var e := es[|es| - 1];
            (e.Exit? ==> m.saved != []) && RunOf(pre, tx, es).m == MachineStep(m, e)
  {
  }

  lemma {:induction false} UntoldUntilStored(pre: State, tx: Tx, es: seq<Event>, s: Slot)
    requires Playable(es) && !EverStored(es, s)
    ensures Untold(RunOf(pre, tx, es).m, pre, s)
  {
    if es != [] {
      var n := |es| - 1;
      EverStoredStep(es, s);
      UntoldUntilStored(pre, tx, es[..n], s);
      MachineAfter(pre, tx, es);
      UntoldStep(RunOf(pre, tx, es[..n]).m, es[n], pre, s);
    }
  }

  lemma EverStoredStep(es: seq<Event>, s: Slot)
    requires es != []
    ensures EverStored(es, s) <==> EverStored(es[..|es| - 1], s) || (es[|es| - 1].Sstore? && es[|es| - 1].slot == s)
  {
    var n := |es| - 1;
    assert es == es[..n] + [es[n]];
  }

  lemma {:induction false} RunKnows(pre: State, tx: Tx, es: seq<Event>, s: Slot)
    requires Playable(es)
    ensures Knows(RunOf(pre, tx, es), pre, es, s)
  {
    if es == [] {
      NewCallUses(pre);
      NewCallHolds(pre, EtherAt(0));
      SeenTop([], NewCall(pre), SlotID(s));
      assert [] + [NewCall(pre)] == [NewCall(pre)];
    } else {
      var n := |es| - 1;
      var r := RunOf(pre, tx, es[..n]);
      RunKnows(pre, tx, es[..n], s);
      StepSeen(r.t, r.m.state, es[n], s);
      EverStoredStep(es, s);
      if !EverStored(es[..n], s) {
        UntoldUntilStored(pre, tx, es[..n], s);
      }
    }
  }

  lemma FailSeen(t: Tracer, id: VarID)
    requires Shaped(t.calls)
    ensures Seen(FailRoot(t).calls, id) == Seen(t.calls, id)
  {
    ClosedUses(t, true);
  }

  /** Ending the transaction adds no use of a slot. */
  lemma EndSeen(t: Tracer, st: State, tx: Tx, failed: bool, s: Slot)
    requires Shaped(t.calls)
    ensures Seen(EndTracer(t, st, tx, failed).calls, SlotID(s)) == Seen(t.calls, SlotID(s))
  {
    if failed {
      FailSeen(t, SlotID(s));
    } else if tx.value > 0 {
      var x := SettlementOf(st, tx);
      UseSeen(t, x.use, SlotID(s));
      PaymentSeen(AddClearUse(t, x.use), x.def0, x.def1, x.f, SlotID(s));
    }
  }

  lemma {:induction false} UsesDistinct(c: CallTree, k: nat)
    requires k <= |c.nested|
    ensures Distinct(UsesBefore(c, k)) && Distinct(UsesWithin(c, k))
    decreases k
  {
    if k > 0 {
      UsesDistinct(c, k - 1);
      IfAbsentAllLookup(UsesWithin(c, k - 1), CallUses(c.nested[k - 1]), CodeID(0));
    }
    IfAbsentAllLookup(UsesBefore(c, k), Segment(c, k).uses, CodeID(0));
  }

  /**
   The overall uses: a slot is listed exactly if the transaction's first access to it, in any call,
   failing ones too, is an SLOAD. It is listed once, with the value from before the transaction.
   */
  lemma OverallUsesExact(pre: State, tx: Tx, es: seq<Event>, failed: bool, s: Slot)
    requires Playable(es) && Depth(es) == 1
    ensures var uses := CallUses(SummaryOf(pre, tx, es, failed)); var use := Lookup(uses, SlotID(s));
            && Distinct(uses) && (use.Some? <==> FirstAccess(es, s) == Loaded)
            && (use.Some? ==> use.value.StorageVariable? && use.value.value == pre.GetState(s))
  {
    var r, root := RunOf(pre, tx, es), SummaryOf(pre, tx, es, failed);
    RunKnows(pre, tx, es, s);
    EndSeen(r.t, r.m.state, tx, failed, s);
    SeenTop([], root, SlotID(s));
    assert EndTracer(r.t, r.m.state, tx, failed).calls == [] + [root];
    UsesDistinct(root, |root.nested|);
  }

  // ---- Uses against reads that no definition shadows ----

  /** Some SLOAD of the slot met no write by a call that has not failed. */
  predicate UpwardExposed(pre: State, tx: Tx, es: seq<Event>, s: Slot)
    requires Playable(es)
  {
    s in RunOf(pre, tx, es).m.exposed
  }

  predicate Used(pre: State, tx: Tx, es: seq<Event>, failed: bool, s: Slot)
    requires Playable(es) && Depth(es) == 1
  {
    Lookup(CallUses(SummaryOf(pre, tx, es, failed)), SlotID(s)).Some?
  }

  /** A slot no surviving call has written holds its value from before the transaction. */
  predicate Clean(st: State, written: set<Slot>, pre: State, s: Slot) {
    s !in written ==> st.GetState(s) == pre.GetState(s)
  }

  predicate AllClean(m: Machine, pre: State, s: Slot) {
    && Clean(m.state, m.written, pre, s)
    && forall i :: 0 <= i < |m.saved| ==> Clean(m.saved[i].state, m.saved[i].written, pre, s)
  }

  lemma CleanStep(m: Machine, e: Event, pre: State, s: Slot)
    requires AllClean(m, pre, s) && (e.Exit? ==> m.saved != [])
    ensures AllClean(MachineStep(m, e), pre, s)
  {
  }

  /** So what makes a slot exposed is a read of its value from before the transaction. */
  lemma {:induction false} RunClean(pre: State, tx: Tx, es: seq<Event>, s: Slot)
    requires Playable(es)
    ensures AllClean(RunOf(pre, tx, es).m, pre, s)
  {
    if es != [] {
      RunClean(pre, tx, es[..|es| - 1], s);
      MachineAfter(pre, tx, es);
      CleanStep(RunOf(pre, tx, es[..|es| - 1]).m, es[|es| - 1], pre, s);
    }
  }

  /** How the first access tells whether a slot is exposed; `surviving` if no call has failed so far. */
  predicate Exposure(m: Machine, first: Access, surviving: bool, s: Slot) {
    && (first == Loaded ==> s in m.exposed)
    && (first == Untouched ==>
          s !in m.exposed && s !in m.written && forall i :: 0 <= i < |m.saved| ==> s !in m.saved[i].written)
    && (surviving && first == Stored ==> s in m.written && s !in m.exposed)
  }

  lemma ExposureStep(m: Machine, e: Event, first: Access, surviving: bool, s: Slot)
    requires Exposure(m, first, surviving, s) && (e.Exit? ==> m.saved != [])
    ensures Exposure(MachineStep(m, e), FirstOf(first, e, s), surviving && !(e.Exit? && e.failed), s)
  {
  }

  lemma {:induction false} RunExposure(pre: State, tx: Tx, es: seq<Event>, s: Slot)
    requires Playable(es)
    ensures Exposure(RunOf(pre, tx, es).m, FirstAccess(es, s), NoCallFails(es), s)
  {
    if es != [] {
      var n := |es| - 1;
      RunExposure(pre, tx, es[..n], s);
      MachineAfter(pre, tx, es);
      ExposureStep(RunOf(pre, tx, es[..n]).m, es[n], FirstAccess(es[..n], s), NoCallFails(es[..n]), s);
      assert es == es[..n] + [es[n]];
    }
  }

  /**
   What is used is upward exposed; an upward exposed slot is used exactly if it was not first stored
   to, by a call that then failed. Without failing calls the two are the same.
   */
  lemma UsesAgainstExposed(pre: State, tx: Tx, es: seq<Event>, failed: bool, s: Slot)
    requires Playable(es) && Depth(es) == 1
    ensures Used(pre, tx, es, failed, s) ==> UpwardExposed(pre, tx, es, s)
    ensures UpwardExposed(pre, tx, es, s) ==> (Used(pre, tx, es, failed, s) <==> FirstAccess(es, s) != Stored)
    ensures NoCallFails(es) ==> (Used(pre, tx, es, failed, s) <==> UpwardExposed(pre, tx, es, s))
  {
    OverallUsesExact(pre, tx, es, failed, s);
    RunExposure(pre, tx, es, s);
  }

  lemma Extend(pre: State, tx: Tx, es: seq<Event>, e: Event, s: Slot)
    requires Playable(es) && Reportable(e, Depth(es))
    ensures Playable(es + [e]) && Depth(es + [e]) == Depth(es) + (if e.Enter? then 1 else if e.Exit? then -1 else 0)
    ensures FirstAccess(es + [e], s) == FirstOf(FirstAccess(es, s), e, s)
    ensures e.Exit? ==> RunOf(pre, tx, es).m.saved != []
    ensures RunOf(pre, tx, es + [e]).m == MachineStep(RunOf(pre, tx, es).m, e)
  {
    OneMoreEvent(pre, tx, es, e);
    assert (es + [e])[..|es|] == es;
  }

  /** A store in a call that fails hides the reads after it, though they read the value from before. */
  lemma FailedStoreHidesUse(pre: State, tx: Tx, s: Slot, other: Address)
    ensures var es := [Enter(other, other, 0, None, true), Sstore(s, 1, 0), Exit(true), Sload(s, 1)];
            Playable(es) && Depth(es) == 1 && UpwardExposed(pre, tx, es, s) && !Used(pre, tx, es, false, s)
  {
    var enter, store := Enter(other, other, 0, None, true), Sstore(s, 1, 0);
    Extend(pre, tx, [], enter, s);
    Extend(pre, tx, [] + [enter], store, s);
    Extend(pre, tx, [] + [enter] + [store], Exit(true), s);
    Extend(pre, tx, [] + [enter] + [store] + [Exit(true)], Sload(s, 1), s);
    var es := [] + [enter] + [store] + [Exit(true)] + [Sload(s, 1)];
    assert es == [enter, store, Exit(true), Sload(s, 1)];
    OverallUsesExact(pre, tx, es, false, s);
  }
}
