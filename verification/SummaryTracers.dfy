/**
 The summary tracer in place.
 */
module SummaryTracers {
  import opened Chain
  import opened StateVars
  import opened Profits
  import opened Transfers
  import opened CallSummaries
  import opened SummarySteps

  class TxSummaryTracer {
    var calls: seq<CallTree>
    var defs: map<VarID, StateVariable>

    /** TransactionStart: `st` is the state before the transaction. */
    constructor (st: State)
      ensures View() == StartTracer(st)
    {
      calls := [CallTree([EmptyData], [], false, st)];
      defs := map[];
    }

    function View(): Tracer
      reads this
    {
      Tracer(calls, defs)
    }

    predicate Running()
      reads this
    {
      calls != []
    }

    method PutData(d: Data)
      requires Running()
      modifies this`calls
      ensures View() == OnData(old(View()), d)
    {
      calls := calls[..|calls| - 1] + [WithData(calls[|calls| - 1], d)];
    }

    method PutDef(def: StateVariable)
      requires Running()
      modifies this
      ensures View() == AddDef(old(View()), def)
    {
      var d := CurrentData(calls[|calls| - 1]);
      var list := AddWithOverride(d.defs, [def]);
      assert OverrideAll(Override(d.defs, def), [def][1..]) == Override(d.defs, def);
      PutData(d.(defs := list));
      defs := defs[ID(def) := def];
    }

    method PutUse(use: StateVariable)
      requires Running()
      modifies this`calls
      ensures View() == AddUse(old(View()), use)
    {
      var d := CurrentData(calls[|calls| - 1]);
      var list := AddIfAbsent(d.uses, [use]);
      assert IfAbsentAll(IfAbsent(d.uses, use), [use][1..]) == IfAbsent(d.uses, use);
      PutData(d.(uses := list));
    }

    method PutClearUse(use: StateVariable)
      requires Running()
      modifies this`calls
      ensures View() == AddClearUse(old(View()), use)
    {
      if ID(use) !in defs {
        PutUse(use);
      }
    }

    method PutTransfer(transfer: Transfer)
      requires Running()
      modifies this`calls
      ensures View() == AddTransfer(old(View()), transfer)
    {
      var d := CurrentData(calls[|calls| - 1]);
      var profits := Add(d.profits, ProfitsFrom(transfer));
      PutData(d.(transfers := d.transfers + [transfer], profits := profits));
    }

    method PutTransfers(ts: seq<Transfer>)
      requires Running()
      modifies this`calls
      ensures View() == AddTransfers(old(View()), ts)
    {
      assert ts[0..] == ts;
      for i := 0 to |ts|
        invariant Running() && AddTransfers(View(), ts[i..]) == AddTransfers(old(View()), ts)
        invariant defs == old(defs)
      {
        PutTransfer(ts[i]);
        assert ts[i..][0] == ts[i] && ts[i..][1..] == ts[i + 1..];
      }
    }

    method PutPayment(def0: StateVariable, def1: StateVariable, f: FungibleTransfer)
      requires Running()
      modifies this
      ensures View() == AddPayment(old(View()), def0, def1, f)
    {
      PutDef(def0);
      PutDef(def1);
      PutTransfer(EtherTransfer(f));
    }

    method CaptureState(e: Event, st: State)
      requires Running() && !e.Enter? && !e.Exit?
      modifies this
      ensures View() == TracerStep(old(View()), st, e)
    {
      match e {
        case Sstore(_, _, _) => PutDef(DefOf(e));
        case Sload(_, _) => PutClearUse(UseOf(e, st));
        case ReadBalance(_, _) => PutClearUse(UseOf(e, st));
        case ReadCode(_, _, _, _, _) => PutClearUse(UseOf(e, st));
        case ReadCodeSize(_, _, _) => PutUse(UseOf(e, st));
        case Log(ts) => PutTransfers(ts);
      }
    }

    method PushCall(st: State)
      requires Running()
      modifies this`calls
      ensures View() == OpenCall(old(View()), st)
    {
      var parent := calls[|calls| - 1];
      calls := calls[..|calls| - 1] + [parent.(data := parent.data + [EmptyData])] + [CallTree([EmptyData], [], false, st)];
    }

    method CaptureEnter(from: Address, to: Address, value: nat, location: Option<nat>, st: State)
      requires Running()
      modifies this
      ensures View() == EnterStep(old(View()), st, from, to, value, location)
    {
      PushCall(st);
      if value > 0 {
        var def0 := BalanceAt(st, to, value, location);
        var def1 := BalanceAt(st, from, 0 - value, location);
        PutPayment(def0, def1, Payment(from, to, value));
      }
    }

    method CaptureExit(failed: bool)
      requires |calls| > 1
      modifies this`calls
      ensures View() == ExitStep(old(View()), failed)
    {
      var n := |calls|;
      var call, parent := calls[n - 1], calls[n - 2];
      if failed {
        call := WithData(call, CurrentData(call).(defs := [], transfers := [], profits := []));
      }
      calls := calls[..n - 2] + [parent.(nested := parent.nested + [call.(failed := failed)])];
      assert old(calls)[..n - 1][..n - 2] == old(calls)[..n - 2];
    }

    method PutFailure()
      requires Running()
      modifies this`calls
      ensures View() == FailRoot(old(View()))
    {
      var call := calls[|calls| - 1];
      call := WithData(call, CurrentData(call).(defs := [], transfers := [], profits := []));
      calls := calls[..|calls| - 1] + [call.(failed := true)];
    }

    method PutSettlement(s: Settlement)
      requires Running()
      modifies this
      ensures View() == Settle(old(View()), s)
    {
      PutClearUse(s.use);
      PutPayment(s.def0, s.def1, s.f);
    }

    /** `st` is the state after the transaction. */
    method TransactionEnd(tx: Tx, st: State, failed: bool)
      requires Running()
      modifies this
      ensures View() == EndTracer(old(View()), st, tx, failed)
    {
      if failed {
        PutFailure();
      } else if tx.value > 0 {
        PutSettlement(SettlementOf(st, tx));
      }
    }
  }
}
