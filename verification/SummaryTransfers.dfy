/**
 What the overall transfers of a summary are: what the calls have transferred in the order it
 happened, rolled back with every call that failed, and the transaction's own payment at the end.
 */
module SummaryTransfers {
  import opened Chain
  import opened StateVars
  import opened Profits
  import opened Transfers
  import opened CallSummaries
  import opened SummarySteps
  import opened SummaryExact

  // ---- The log of transfers, told apart from the tracer ----

  /** The transfers so far, and those each open call started from. */
  datatype Ledger = Ledger(log: seq<Transfer>, saved: seq<seq<Transfer>>)

  function PaymentOf(from: Address, to: Address, value: nat): seq<Transfer> {
    if value == 0 then [] else [EtherTransfer(Payment(from, to, value))]
  }

  function LedgerStep(l: Ledger, e: Event): Ledger
    requires e.Exit? ==> l.saved != []
  {
    match e
    case Log(ts) => l.(log := l.log + ts)
    case Enter(from, to, value, _, _) => Ledger(l.log + PaymentOf(from, to, value), l.saved + [l.log])
    case Exit(failed) =>
      var n := |l.saved| - 1;
      Ledger(if failed then l.saved[n] else l.log, l.saved[..n])
    case _ => l
  }

  function LedgerOf(es: seq<Event>): (l: Ledger)
    requires Playable(es)
    ensures |l.saved| + 1 == Depth(es)
  {
    if es == [] then Ledger([], []) else LedgerStep(LedgerOf(es[..|es| - 1]), es[|es| - 1])
  }

  // ---- What the open calls have filed ----

  function Filed(calls: seq<CallTree>): seq<Transfer> {
    if calls == [] then [] else Filed(calls[..|calls| - 1]) + TransfersOf(calls[|calls| - 1])
  }

  /** The open calls have filed the log together, and each of them what there was when the next one started. */
  predicate Files(calls: seq<CallTree>, l: Ledger)
    decreases |calls|
  {
    var n := |calls| - 1;
    && |calls| == |l.saved| + 1 && Filed(calls) == l.log
    && (n > 0 ==> Files(calls[..n], Ledger(l.saved[n - 1], l.saved[..n - 1])))
  }

  predicate TracksLog(t: Tracer, l: Ledger) {
    Shaped(t.calls) && Files(t.calls, l)
  }

  lemma FiledMore(calls: seq<CallTree>, c: CallTree)
    ensures Filed(calls + [c]) == Filed(calls) + TransfersOf(c)
  {
    assert (calls + [c])[..|calls|] == calls;
  }

  lemma Regrouped(a: seq<Transfer>, b: seq<Transfer>, c: seq<Transfer>)
    ensures a + b + c == a + (b + c)
  {
  }

  lemma TopFiled(calls: seq<CallTree>, top: CallTree, more: seq<Transfer>)
    requires calls != [] && TransfersOf(top) == TransfersOf(calls[|calls| - 1]) + more
    ensures Filed(calls[..|calls| - 1] + [top]) == Filed(calls) + more
  {
    var n := |calls| - 1;
    FiledMore(calls[..n], top);
    Regrouped(Filed(calls[..n]), TransfersOf(calls[n]), more);
  }

  /** The innermost call has filed `more`. */
  lemma TopFiles(calls: seq<CallTree>, l: Ledger, top: CallTree, more: seq<Transfer>)
    requires calls != [] && Files(calls, l) && TransfersOf(top) == TransfersOf(calls[|calls| - 1]) + more
    ensures Files(calls[..|calls| - 1] + [top], l.(log := l.log + more))
  {
    var n := |calls| - 1;
    TopFiled(calls, top, more);
    assert (calls[..n] + [top])[..n] == calls[..n];
  }

  lemma DataFiles(t: Tracer, l: Ledger, d: Data, more: seq<Transfer>)
    requires TracksLog(t, l) && Distinct(d.defs) && d.transfers == CurrentData(Top(t)).transfers + more
    ensures TracksLog(OnData(t, d), l.(log := l.log + more))
  {
    Recorded(Top(t), d);
    TopFiles(t.calls, l, WithData(Top(t), d), more);
  }

  lemma DefFiles(t: Tracer, l: Ledger, def: StateVariable)
    requires TracksLog(t, l)
    ensures TracksLog(AddDef(t, def), l)
  {
    var d := CurrentData(Top(t));
    OverrideLookup(d.defs, def, ID(def));
    DataFiles(t, l, d.(defs := Override(d.defs, def)), []);
  }

  lemma UseFiles(t: Tracer, l: Ledger, use: StateVariable)
    requires TracksLog(t, l)
    ensures TracksLog(AddUse(t, use), l)
  {
    var d := CurrentData(Top(t));
    DataFiles(t, l, d.(uses := IfAbsent(d.uses, use)), []);
  }

  lemma TransferFiles(t: Tracer, l: Ledger, transfer: Transfer)
    requires TracksLog(t, l)
    ensures TracksLog(AddTransfer(t, transfer), l.(log := l.log + [transfer]))
  {
    var d := CurrentData(Top(t));
    DataFiles(t, l, d.(transfers := d.transfers + [transfer], profits := AddAll(d.profits, ProfitsFrom(transfer))), [transfer]);
  }

  lemma {:induction false} TransfersFile(t: Tracer, l: Ledger, ts: seq<Transfer>)
    requires TracksLog(t, l)
    ensures TracksLog(AddTransfers(t, ts), l.(log := l.log + ts))
    decreases |ts|
  {
    if ts == [] {
      assert l.log + ts == l.log;
    } else {
      TransferFiles(t, l, ts[0]);
      TransfersFile(AddTransfer(t, ts[0]), l.(log := l.log + [ts[0]]), ts[1..]);
      Regrouped(l.log, [ts[0]], ts[1..]);
      assert [ts[0]] + ts[1..] == ts;
    }
  }

  lemma PaymentFiles(t: Tracer, l: Ledger, def0: StateVariable, def1: StateVariable, f: FungibleTransfer)
    requires TracksLog(t, l)
    ensures TracksLog(AddPayment(t, def0, def1, f), l.(log := l.log + [EtherTransfer(f)]))
  {
    DefFiles(t, l, def0);
    DefFiles(AddDef(t, def0), l, def1);
    TransferFiles(AddDef(AddDef(t, def0), def1), l, EtherTransfer(f));
  }

  lemma NewCallFiles(st: State)
    ensures TransfersOf(NewCall(st)) == [] && Active(NewCall(st))
  {
    assert Segment(NewCall(st), 0) == EmptyData && TransfersBefore(NewCall(st), 0) == [];
    assert CurrentData(NewCall(st)) == EmptyData;
  }

  lemma PushedFiles(calls: seq<CallTree>, l: Ledger, st: State)
    requires Files(calls, l)
    ensures Files(calls + [NewCall(st)], Ledger(l.log, l.saved + [l.log]))
  {
    var n := |calls|;
    NewCallFiles(st);
    FiledMore(calls, NewCall(st));
    assert (calls + [NewCall(st)])[..n] == calls && (l.saved + [l.log])[..n - 1] == l.saved;
  }

  lemma OpenFiles(t: Tracer, l: Ledger, st: State)
    requires TracksLog(t, l)
    ensures TracksLog(OpenCall(t, st), Ledger(l.log, l.saved + [l.log]))
  {
    var below := t.calls[..|t.calls| - 1] + [Suspended(Top(t))];
    SuspendedFolds(Top(t));
    TopFiles(t.calls, l, Suspended(Top(t)), []);
    PushedFiles(below, l, st);
    NewCallFiles(st);
    assert OpenCall(t, st).calls == below + [NewCall(st)];
  }

  lemma EnterFiles(t: Tracer, l: Ledger, st: State, from: Address, to: Address, value: nat, location: Option<nat>)
    requires TracksLog(t, l)
    ensures TracksLog(EnterStep(t, st, from, to, value, location), Ledger(l.log + PaymentOf(from, to, value), l.saved + [l.log]))
  {
    OpenFiles(t, l, st);
    if value > 0 {
      var def0, def1 := BalanceAt(st, to, value, location), BalanceAt(st, from, 0 - value, location);
      PaymentFiles(OpenCall(t, st), Ledger(l.log, l.saved + [l.log]), def0, def1, Payment(from, to, value));
    }
  }

  /** What the closed call hands on is what the log has gained since it was entered, or nothing. */
  lemma ClosedFiled(t: Tracer, l: Ledger, failed: bool)
    requires TracksLog(t, l) && |t.calls| > 1
    ensures var before := l.saved[|l.saved| - 1];
            before + CallTransfers(Closed(t, failed)) == if failed then before else l.log
  {
    var below := t.calls[..|t.calls| - 1];
    ClosedAfter(t, failed, EtherAt(0));
    FiledMore(below, Top(t));
    assert below + [Top(t)] == t.calls;
    var before := l.saved[|l.saved| - 1];
    assert Files(below, Ledger(before, l.saved[..|l.saved| - 1]));
    assert Filed(below) == before && before + [] == before;
  }

  lemma ExitFiles(t: Tracer, l: Ledger, failed: bool)
    requires TracksLog(t, l) && |t.calls| > 1
    ensures var n := |l.saved| - 1;
            TracksLog(ExitStep(t, failed), Ledger(if failed then l.saved[n] else l.log, l.saved[..n]))
  {
    var below, closed, n := t.calls[..|t.calls| - 1], Closed(t, failed), |l.saved| - 1;
    var waiting := below[|below| - 1];
    ExitCalls(t, failed);
    ClosedAfter(t, failed, EtherAt(0));
    ResumedFolds(waiting, closed);
    TopFiles(below, Ledger(l.saved[n], l.saved[..n]), Resumed(waiting, closed), CallTransfers(closed));
    ClosedFiled(t, l, failed);
  }

  lemma StepFiles(t: Tracer, l: Ledger, st: State, e: Event)
    requires TracksLog(t, l) && (e.Exit? ==> |t.calls| > 1)
    ensures TracksLog(TracerStep(t, st, e), LedgerStep(l, e))
  {
    if Reads(e) {
      UseFiles(t, l, UseOf(e, st));
    } else if e.Sstore? {
      DefFiles(t, l, DefOf(e));
    } else if e.Log? {
      TransfersFile(t, l, e.transfers);
    } else if e.Exit? {
      ExitFiles(t, l, e.failed);
    } else {
      EnterFiles(t, l, st, e.from, e.to, e.value, e.callSite);
    }
  }

  lemma {:induction false} RunFiles(pre: State, tx: Tx, es: seq<Event>)
    requires Playable(es)
    ensures TracksLog(RunOf(pre, tx, es).t, LedgerOf(es))
  {
    if es == [] {
      NewCallFiles(pre);
      FiledMore([], NewCall(pre));
      assert [] + [NewCall(pre)] == [NewCall(pre)];
    } else {
      var r := RunOf(pre, tx, es[..|es| - 1]);
      RunFiles(pre, tx, es[..|es| - 1]);
      StepFiles(r.t, LedgerOf(es[..|es| - 1]), r.m.state, es[|es| - 1]);
    }
  }

  lemma SettleFiles(t: Tracer, l: Ledger, s: Settlement)
    requires TracksLog(t, l)
    ensures TracksLog(Settle(t, s), l.(log := l.log + [EtherTransfer(s.f)]))
  {
    UseFiles(t, l, s.use);
    PaymentFiles(AddClearUse(t, s.use), l, s.def0, s.def1, s.f);
  }

  lemma RootFiles(t: Tracer, l: Ledger)
    requires TracksLog(t, l) && |t.calls| == 1
    ensures CallTransfers(t.calls[0]) == l.log
  {
    FiledMore([], t.calls[0]);
    assert [] + [t.calls[0]] == t.calls;
  }

  /**
   The overall transfers, in order: those of a failed transaction are none; otherwise those of its calls
   as they happened, without what failing calls had transferred, and then its own payment, which in fact
   happens first.
   */
  lemma OverallTransfersExact(pre: State, tx: Tx, es: seq<Event>, failed: bool)
    requires Playable(es) && Depth(es) == 1
    ensures CallTransfers(SummaryOf(pre, tx, es, failed)) ==
            if failed then [] else LedgerOf(es).log + PaymentOf(tx.from, tx.to, tx.value)
  {
    var r, l := RunOf(pre, tx, es), LedgerOf(es);
    RunFiles(pre, tx, es);
    if !failed {
      if tx.value == 0 {
        RootFiles(r.t, l);
      } else {
        var s := SettlementOf(r.m.state, tx);
        SettleFiles(r.t, l, s);
        RootFiles(Settle(r.t, s), l.(log := l.log + [EtherTransfer(s.f)]));
      }
    }
  }
}
