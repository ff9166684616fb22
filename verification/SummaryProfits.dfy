/**
 What the overall profits of a summary are: those of the overall transfers, which create and destroy
 no Ether.
 */
module SummaryProfits {
  import opened Chain
  import opened StateVars
  import opened Profits
  import opened Transfers
  import opened CallSummaries
  import opened SummarySteps
  import opened SummaryExact

  // ---- Profits and transfers agree ----

  /** The profits of transfers added one after the other. */
  function EarnedBy(ts: seq<Transfer>): seq<Profit> {
    if ts == [] then [] else AddAll(EarnedBy(ts[..|ts| - 1]), ProfitsFrom(ts[|ts| - 1]))
  }

  lemma {:induction false} MovedByAppend(ts: seq<Transfer>, us: seq<Transfer>, k: Key)
    ensures MovedBy(ts + us, k) == MovedBy(ts, k) + MovedBy(us, k)
  {
    if ts == [] {
      assert ts + us == us;
    } else {
      assert (ts + us)[1..] == ts[1..] + us;
      MovedByAppend(ts[1..], us, k);
    }
  }

  lemma {:induction false} EarnedIsMoved(ts: seq<Transfer>, k: Key)
    requires k != NoKey && !k.ERC721Of?
    ensures Net(EarnedBy(ts), k) == MovedBy(ts, k)
  {
    if ts != [] {
      var n := |ts| - 1;
      EarnedIsMoved(ts[..n], k);
      AddNet(EarnedBy(ts[..n]), ProfitsFrom(ts[n]), k);
      ProfitsAreMoved(ts[n], k);
      MovedByAppend(ts[..n], [ts[n]], k);
      assert ts == ts[..n] + [ts[n]] && MovedBy([ts[n]], k) == Moved(ts[n], k) + MovedBy([ts[n]][1..], k);
    }
  }

  /** Every segment's profits are those of its transfers. */
  predicate EarnedData(d: Data) {
    d.profits == EarnedBy(d.transfers)
  }

  predicate Earned(c: CallTree) {
    (forall d :: d in c.data ==> EarnedData(d)) && (forall x :: x in c.nested ==> Earned(x))
  }

  predicate AllEarned(t: Tracer) {
    Started(t) && forall c :: c in t.calls ==> Earned(c)
  }

  lemma DataEarned(t: Tracer, d: Data)
    requires AllEarned(t) && EarnedData(d)
    ensures AllEarned(OnData(t, d))
  {
    var c := Top(t);
    assert c in t.calls;
    assert forall x :: x in WithData(c, d).data ==> x in c.data || x == d;
    assert Earned(WithData(c, d));
  }

  lemma CurrentEarned(t: Tracer)
    requires AllEarned(t)
    ensures EarnedData(CurrentData(Top(t)))
  {
    assert Top(t) in t.calls;
  }

  lemma DefEarned(t: Tracer, def: StateVariable)
    requires AllEarned(t)
    ensures AllEarned(AddDef(t, def))
  {
    CurrentEarned(t);
    var d := CurrentData(Top(t));
    DataEarned(t, d.(defs := Override(d.defs, def)));
  }

  lemma UseEarned(t: Tracer, use: StateVariable)
    requires AllEarned(t)
    ensures AllEarned(AddUse(t, use))
  {
    CurrentEarned(t);
    var d := CurrentData(Top(t));
    DataEarned(t, d.(uses := IfAbsent(d.uses, use)));
  }

  lemma TransferEarned(t: Tracer, transfer: Transfer)
    requires AllEarned(t)
    ensures AllEarned(AddTransfer(t, transfer))
  {
    CurrentEarned(t);
    var d := CurrentData(Top(t));
    assert (d.transfers + [transfer])[..|d.transfers|] == d.transfers;
    DataEarned(t, d.(transfers := d.transfers + [transfer], profits := AddAll(d.profits, ProfitsFrom(transfer))));
  }

  lemma {:induction false} TransfersEarned(t: Tracer, ts: seq<Transfer>)
    requires AllEarned(t)
    ensures AllEarned(AddTransfers(t, ts))
    decreases |ts|
  {
    if ts != [] {
      TransferEarned(t, ts[0]);
      TransfersEarned(AddTransfer(t, ts[0]), ts[1..]);
    }
  }

  lemma PaymentEarned(t: Tracer, def0: StateVariable, def1: StateVariable, f: FungibleTransfer)
    requires AllEarned(t)
    ensures AllEarned(AddPayment(t, def0, def1, f))
  {
    DefEarned(t, def0);
    DefEarned(AddDef(t, def0), def1);
    TransferEarned(AddDef(AddDef(t, def0), def1), EtherTransfer(f));
  }

  lemma OpenEarned(t: Tracer, st: State)
    requires AllEarned(t)
    ensures AllEarned(OpenCall(t, st))
  {
    assert Top(t) in t.calls;
    assert forall x :: x in Suspended(Top(t)).data ==> x in Top(t).data || x == EmptyData;
    assert Earned(Suspended(Top(t))) && Earned(NewCall(st));
  }

  lemma ClearedEarned(c: CallTree, failed: bool)
    requires Earned(c)
    ensures Earned(ClearedIf(c, failed).(failed := failed))
  {
    var d := CurrentData(c).(defs := [], transfers := [], profits := []);
    assert forall x :: x in WithData(c, d).data ==> x in c.data || x == d;
  }

  lemma ExitEarned(t: Tracer, failed: bool)
    requires AllEarned(t) && |t.calls| > 1
    ensures AllEarned(ExitStep(t, failed))
  {
    var n := |t.calls|;
    var outer := t.calls[n - 2];
    assert outer in t.calls && Top(t) in t.calls;
    ClearedEarned(Top(t), failed);
    assert forall x :: x in Resumed(outer, Closed(t, failed)).nested ==> x in outer.nested || x == Closed(t, failed);
    assert Earned(Resumed(outer, Closed(t, failed)));
    assert ExitStep(t, failed).calls == t.calls[..n - 2] + [Resumed(outer, Closed(t, failed))] by {
      assert t.calls[..n - 1][..n - 2] == t.calls[..n - 2];
    }
  }

  lemma EnterEarned(t: Tracer, st: State, from: Address, to: Address, value: nat, location: Option<nat>)
    requires AllEarned(t)
    ensures AllEarned(EnterStep(t, st, from, to, value, location))
  {
    OpenEarned(t, st);
    if value > 0 {
      var def0, def1 := BalanceAt(st, to, value, location), BalanceAt(st, from, 0 - value, location);
      PaymentEarned(OpenCall(t, st), def0, def1, Payment(from, to, value));
    }
  }

  lemma StepEarned(t: Tracer, st: State, e: Event)
    requires AllEarned(t) && (e.Exit? ==> |t.calls| > 1)
    ensures AllEarned(TracerStep(t, st, e))
  {
    if Reads(e) {
      UseEarned(t, UseOf(e, st));
    } else if e.Sstore? {
      DefEarned(t, DefOf(e));
    } else if e.Log? {
      TransfersEarned(t, e.transfers);
    } else if e.Exit? {
      ExitEarned(t, e.failed);
    } else {
      EnterEarned(t, st, e.from, e.to, e.value, e.callSite);
    }
  }

  lemma {:induction false} RunEarned(pre: State, tx: Tx, es: seq<Event>)
    requires Playable(es)
    ensures AllEarned(RunOf(pre, tx, es).t)
  {
    if es == [] {
      assert Earned(NewCall(pre));
    } else {
      var r := RunOf(pre, tx, es[..|es| - 1]);
      RunEarned(pre, tx, es[..|es| - 1]);
      StepEarned(r.t, r.m.state, es[|es| - 1]);
    }
  }

  lemma FailEarned(t: Tracer)
    requires AllEarned(t)
    ensures AllEarned(FailRoot(t))
  {
    assert Top(t) in t.calls;
    ClearedEarned(Top(t), true);
  }

  lemma SettleEarned(t: Tracer, s: Settlement)
    requires AllEarned(t)
    ensures AllEarned(Settle(t, s))
  {
    UseEarned(t, s.use);
    PaymentEarned(AddClearUse(t, s.use), s.def0, s.def1, s.f);
  }

  lemma EndEarned(t: Tracer, st: State, tx: Tx, failed: bool)
    requires AllEarned(t)
    ensures AllEarned(EndTracer(t, st, tx, failed))
  {
    if failed {
      FailEarned(t);
    } else if tx.value > 0 {
      SettleEarned(t, SettlementOf(st, tx));
    }
  }

  lemma SummaryEarned(pre: State, tx: Tx, es: seq<Event>, failed: bool)
    requires Playable(es) && Depth(es) == 1
    ensures Earned(SummaryOf(pre, tx, es, failed))
  {
    var r := RunOf(pre, tx, es);
    RunEarned(pre, tx, es);
    EndEarned(r.t, r.m.state, tx, failed);
    assert SummaryOf(pre, tx, es, failed) in EndTracer(r.t, r.m.state, tx, failed).calls;
  }

  // ---- The folds over a tree ----

  lemma SegmentEarned(c: CallTree, n: nat)
    requires Earned(c)
    ensures EarnedData(Segment(c, n))
  {
    if n < |c.data| {
      assert c.data[n] in c.data;
    }
  }

  lemma {:induction false} BeforeMoved(c: CallTree, n: nat, k: Key)
    requires Earned(c) && n <= |c.nested| && k != NoKey && !k.ERC721Of?
    ensures Net(ProfitsBefore(c, n), k) == MovedBy(TransfersBefore(c, n), k)
    decreases c, n, 0
  {
    if n > 0 {
      var inner := c.nested[n - 1];
      assert inner in c.nested;
      WithinMoved(c, n - 1, k);
      CallMoved(inner, k);
      AddNet(ProfitsWithin(c, n - 1), CallProfits(inner), k);
      MovedByAppend(TransfersWithin(c, n - 1), CallTransfers(inner), k);
    }
  }

  lemma {:induction false} WithinMoved(c: CallTree, n: nat, k: Key)
    requires Earned(c) && n <= |c.nested| && k != NoKey && !k.ERC721Of?
    ensures Net(ProfitsWithin(c, n), k) == MovedBy(TransfersWithin(c, n), k)
    decreases c, n, 1
  {
    var d := Segment(c, n);
    SegmentEarned(c, n);
    BeforeMoved(c, n, k);
    EarnedIsMoved(d.transfers, k);
    AddNet(ProfitsBefore(c, n), d.profits, k);
    MovedByAppend(TransfersBefore(c, n), d.transfers, k);
  }

  lemma {:induction false} CallMoved(c: CallTree, k: Key)
    requires Earned(c) && k != NoKey && !k.ERC721Of?
    ensures Net(CallProfits(c), k) == MovedBy(CallTransfers(c), k)
    decreases c
  {
    WithinMoved(c, |c.nested|, k);
    NonZeroNet(ProfitsWithin(c, |c.nested|), k);
  }

  /** The overall profits are what the overall transfers move, fungible asset by asset and account by account. */
  lemma OverallProfitsAreTransfers(pre: State, tx: Tx, es: seq<Event>, failed: bool, k: Key)
    requires Playable(es) && Depth(es) == 1 && k != NoKey && !k.ERC721Of?
    ensures var root := SummaryOf(pre, tx, es, failed); Net(CallProfits(root), k) == MovedBy(CallTransfers(root), k)
  {
    SummaryEarned(pre, tx, es, failed);
    CallMoved(SummaryOf(pre, tx, es, failed), k);
  }

  // ---- Ether is conserved ----

  function EtherIn(p: Profit): int {
    if p.EtherProfit? then p.amount else 0
  }

  function EtherTotal(ps: seq<Profit>): int {
    if ps == [] then 0 else EtherIn(ps[0]) + EtherTotal(ps[1..])
  }

  lemma {:induction false} EtherTotalAddOne(ps: seq<Profit>, e: Profit)
    ensures EtherTotal(AddOne(ps, e)) == EtherTotal(ps) + EtherIn(e)
  {
    if ps == [] {
      assert [e][1..] == [];
    } else {
      match Profits.Merge(ps[0], e) {
        case Some(m) => assert ([m] + ps[1..])[1..] == ps[1..];
        case None =>
          EtherTotalAddOne(ps[1..], e);
          assert ([ps[0]] + AddOne(ps[1..], e))[1..] == AddOne(ps[1..], e);
      }
    }
  }

  lemma {:induction false} EtherTotalAdd(ps: seq<Profit>, es: seq<Profit>)
    ensures EtherTotal(AddAll(ps, es)) == EtherTotal(ps) + EtherTotal(es)
    decreases |es|
  {
    if es != [] {
      EtherTotalAddOne(ps, es[0]);
      EtherTotalAdd(AddOne(ps, es[0]), es[1..]);
    }
  }

  lemma {:induction false} EtherTotalNonZero(ps: seq<Profit>)
    ensures EtherTotal(NonZero(ps)) == EtherTotal(ps)
  {
    if ps != [] {
      EtherTotalNonZero(ps[1..]);
      if IsZero(ps[0]) {
        assert NonZero(ps) == NonZero(ps[1..]);
      } else {
        assert ([ps[0]] + NonZero(ps[1..]))[1..] == NonZero(ps[1..]);
      }
    }
  }

  lemma {:induction false} EarnedEtherIsZero(ts: seq<Transfer>)
    ensures EtherTotal(EarnedBy(ts)) == 0
  {
    if ts != [] {
      var n := |ts| - 1;
      var t := ts[n];
      EarnedEtherIsZero(ts[..n]);
      EtherTotalAdd(EarnedBy(ts[..n]), ProfitsFrom(t));
      var p, q := ProfitFor(t, FromOf(t), -1), ProfitFor(t, ToOf(t), 1);
      assert [p, q][1..] == [q] && [q][1..] == [] && [p][1..] == [];
      assert EtherTotal([p]) == EtherIn(p) && EtherTotal([q]) == EtherIn(q);
      assert ProfitsFrom(t) == [] || ProfitsFrom(t) == [p] || ProfitsFrom(t) == [q] || ProfitsFrom(t) == [p, q];
    }
  }

  lemma {:induction false} WithinEtherIsZero(c: CallTree, n: nat)
    requires Earned(c) && n <= |c.nested|
    ensures EtherTotal(ProfitsWithin(c, n)) == 0
    decreases c, n
  {
    if n > 0 {
      WithinEtherIsZero(c, n - 1);
      assert c.nested[n - 1] in c.nested;
      CallEtherIsZero(c.nested[n - 1]);
      EtherTotalAdd(ProfitsWithin(c, n - 1), CallProfits(c.nested[n - 1]));
    }
    SegmentEarned(c, n);
    EarnedEtherIsZero(Segment(c, n).transfers);
    EtherTotalAdd(ProfitsBefore(c, n), Segment(c, n).profits);
  }

  lemma {:induction false} CallEtherIsZero(c: CallTree)
    requires Earned(c)
    ensures EtherTotal(CallProfits(c)) == 0
    decreases c
  {
    WithinEtherIsZero(c, |c.nested|);
    EtherTotalNonZero(ProfitsWithin(c, |c.nested|));
  }

  /** Over any tree of calls with any failures, the Ether gained and lost adds up to nothing. */
  lemma EtherIsConserved(pre: State, tx: Tx, es: seq<Event>, failed: bool)
    requires Playable(es) && Depth(es) == 1
    ensures EtherTotal(CallProfits(SummaryOf(pre, tx, es, failed))) == 0
  {
    SummaryEarned(pre, tx, es, failed);
    CallEtherIsZero(SummaryOf(pre, tx, es, failed));
  }
}
