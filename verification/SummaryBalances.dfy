/**
 What a summary says of balances: when the overall definitions are the balance diff, and which balances
 it lists as used.
 */
module SummaryBalances {
  import opened Chain
  import opened StateVars
  import opened Profits
  import opened Transfers
  import opened CallSummaries
  import opened SummarySteps
  import opened SummaryExact
  import opened SummaryUses

  // ---- The balances a payment defines ----

  function CurrentDef(t: Tracer, id: VarID): Option<StateVariable>
    requires Started(t)
  {
    Lookup(CurrentData(Top(t)).defs, id)
  }

  /** The definition gives an account the balance it has in a state. */
  predicate DefinesBalance(def: Option<StateVariable>, a: Address, st: State) {
    def.Some? && def.value.BalanceVariable? && def.value.address == a && def.value.amount == st.GetBalance(a)
  }

  lemma AddedDef(t: Tracer, def: StateVariable, id: VarID)
    requires Started(t)
    ensures CurrentDef(AddDef(t, def), id) == if id == ID(def) then Some(def) else CurrentDef(t, id)
  {
    OverrideLookup(CurrentData(Top(t)).defs, def, id);
  }

  lemma AddedOthers(t: Tracer, transfer: Transfer, use: StateVariable, id: VarID)
    requires Started(t)
    ensures CurrentDef(AddTransfer(t, transfer), id) == CurrentDef(t, id) == CurrentDef(AddClearUse(t, use), id)
  {
  }

  lemma PaymentDefs(t: Tracer, def0: StateVariable, def1: StateVariable, f: FungibleTransfer, id: VarID)
    requires Started(t)
    ensures CurrentDef(AddPayment(t, def0, def1, f), id) ==
            if id == ID(def1) then Some(def1) else if id == ID(def0) then Some(def0) else CurrentDef(t, id)
  {
    AddedDef(t, def0, id);
    AddedDef(AddDef(t, def0), def1, id);
    AddedOthers(AddDef(AddDef(t, def0), def1), EtherTransfer(f), def0, id);
  }

  /**
   What a call that sends a value defines for the two accounts is the balance they have once it is entered if and
   only if the engine does pay it and not to the payer himself.
   */
  lemma PaymentDefinesExactly(t: Tracer, m: Machine, e: Event, a: Address)
    requires Started(t) && e.Enter? && e.value > 0 && a in {e.from, e.to}
    ensures var def := CurrentDef(TracerStep(t, m.state, e), BalanceID(a));
            DefinesBalance(def, a, MachineStep(m, e).state) <==> e.paid && e.from != e.to
  {
    PaymentDefs(OpenCall(t, m.state), BalanceAt(m.state, e.to, e.value, e.callSite), BalanceAt(m.state, e.from, 0 - e.value, e.callSite),
                Payment(e.from, e.to, e.value), BalanceID(a));
  }

  /** The sender and the receiver of a transaction that sends a value are defined with the balance they have after it. */
  lemma SettlementDefines(pre: State, tx: Tx, es: seq<Event>, a: Address)
    requires Playable(es) && Depth(es) == 1 && tx.value > 0 && a in {tx.from, tx.to}
    ensures DefinesBalance(Lookup(CallDefs(SummaryOf(pre, tx, es, false)), BalanceID(a)), a, PostState(pre, tx, es, false))
  {
    var r := RunOf(pre, tx, es);
    var s, q := SettlementOf(r.m.state, tx), EtherAt(a);
    RunTracks(pre, tx, es, q);
    SettleTracks(r.t, s, q, DueNow(r.m, q), Read(pre, q), Offset(tx, q));
    PaymentDefs(AddClearUse(r.t, s.use), s.def0, s.def1, s.f, BalanceID(a));
    RootDefs(SummaryOf(pre, tx, es, false), BalanceID(a));
  }

  /** What is defined in the last segment of a call is what the call defines. */
  lemma RootDefs(c: CallTree, id: VarID)
    requires Active(c)
    ensures Lookup(CurrentData(c).defs, id).Some? ==> Lookup(DefsOf(c), id) == Lookup(CurrentData(c).defs, id)
  {
    Recorded(c, CurrentData(c));
    DistinctLast(CurrentData(c).defs, id);
    OverrideAllLookup(DefsBefore(c, |c.nested|), CurrentData(c).defs, id);
  }

  // ---- The last definition of the open calls ----

  /** The definition that holds if none of the open calls fails, outermost call first. */
  function Latest(calls: seq<CallTree>, id: VarID): Option<StateVariable> {
    if calls == [] then None else Or(Lookup(DefsOf(calls[|calls| - 1]), id), Latest(calls[..|calls| - 1], id))
  }

  lemma LatestTop(calls: seq<CallTree>, top: CallTree, id: VarID)
    ensures Latest(calls + [top], id) == Or(Lookup(DefsOf(top), id), Latest(calls, id))
  {
    assert (calls + [top])[..|calls|] == calls;
  }

  /** What changes the innermost call alone. */
  predicate OnTop(t: Tracer, t': Tracer) {
    && Started(t) && |t'.calls| == |t.calls| && t'.calls[..|t.calls| - 1] == t.calls[..|t.calls| - 1]
    && Shaped(t.calls) && Shaped(t'.calls)
  }

  lemma DataLatest(t: Tracer, d: Data, id: VarID)
    requires Shaped(t.calls) && d.defs == CurrentData(Top(t)).defs
    ensures OnTop(t, OnData(t, d)) && Latest(OnData(t, d).calls, id) == Latest(t.calls, id)
  {
    Recorded(Top(t), d);
  }

  lemma DefLatest(t: Tracer, def: StateVariable, id: VarID)
    requires Shaped(t.calls)
    ensures OnTop(t, AddDef(t, def))
    ensures Latest(AddDef(t, def).calls, id) == if id == ID(def) then Some(def) else Latest(t.calls, id)
  {
    var c, d := Top(t), CurrentData(Top(t));
    var d' := d.(defs := Override(d.defs, def));
    var before := DefsBefore(c, |c.nested|);
    Recorded(c, d');
    OverrideLookup(d.defs, def, id);
    DistinctLast(d.defs, id);
    DistinctLast(d'.defs, id);
    OverrideAllLookup(before, d.defs, id);
    OverrideAllLookup(before, d'.defs, id);
  }

  lemma UseLatest(t: Tracer, use: StateVariable, id: VarID)
    requires Shaped(t.calls)
    ensures OnTop(t, AddUse(t, use)) && Latest(AddUse(t, use).calls, id) == Latest(t.calls, id)
  {
    var d := CurrentData(Top(t));
    DataLatest(t, d.(uses := IfAbsent(d.uses, use)), id);
  }

  lemma TransferLatest(t: Tracer, transfer: Transfer, id: VarID)
    requires Shaped(t.calls)
    ensures OnTop(t, AddTransfer(t, transfer)) && Latest(AddTransfer(t, transfer).calls, id) == Latest(t.calls, id)
  {
    var d := CurrentData(Top(t));
    DataLatest(t, d.(transfers := d.transfers + [transfer], profits := AddAll(d.profits, ProfitsFrom(transfer))), id);
  }

  lemma {:induction false} TransfersLatest(t: Tracer, ts: seq<Transfer>, id: VarID)
    requires Shaped(t.calls)
    ensures OnTop(t, AddTransfers(t, ts)) && Latest(AddTransfers(t, ts).calls, id) == Latest(t.calls, id)
    decreases |ts|
  {
    if ts != [] {
      TransferLatest(t, ts[0], id);
      TransfersLatest(AddTransfer(t, ts[0]), ts[1..], id);
    }
  }

  /** The payer's definition comes last. */
  lemma PaymentLatest(t: Tracer, def0: StateVariable, def1: StateVariable, f: FungibleTransfer, id: VarID)
    requires Shaped(t.calls)
    ensures OnTop(t, AddPayment(t, def0, def1, f))
    ensures Latest(AddPayment(t, def0, def1, f).calls, id) ==
            if id == ID(def1) then Some(def1) else if id == ID(def0) then Some(def0) else Latest(t.calls, id)
  {
    DefLatest(t, def0, id);
    DefLatest(AddDef(t, def0), def1, id);
    TransferLatest(AddDef(AddDef(t, def0), def1), EtherTransfer(f), id);
  }

  lemma OpenLatest(t: Tracer, st: State, id: VarID)
    requires Shaped(t.calls)
    ensures var t', n := OpenCall(t, st), |t.calls|;
            && Shaped(t'.calls) && |t'.calls| == n + 1 && t'.calls[..n][..n - 1] == t.calls[..n - 1]
            && Latest(t'.calls[..n], id) == Latest(t.calls, id) == Latest(t'.calls, id)
  {
    var below := t.calls[..|t.calls| - 1] + [Suspended(Top(t))];
    SuspendedFolds(Top(t));
    NewCallHolds(st, EtherAt(0));
    assert DefsOf(NewCall(st)) == OverrideAll(DefsBefore(NewCall(st), 0), EmptyData.defs);
    LatestTop(below, NewCall(st), id);
    LatestTop(t.calls[..|t.calls| - 1], Suspended(Top(t)), id);
    assert OpenCall(t, st).calls == below + [NewCall(st)];
  }

  lemma ResumedDefs(waiting: CallTree, inner: CallTree, id: VarID)
    requires Waiting(waiting)
    ensures Lookup(DefsOf(Resumed(waiting, inner)), id) == Or(Lookup(CallDefs(inner), id), Lookup(DefsOf(waiting), id))
  {
    ResumedFolds(waiting, inner);
    CallDefsDistinct(inner);
    DistinctLast(CallDefs(inner), id);
    OverrideAllLookup(DefsOf(waiting), CallDefs(inner), id);
  }

  lemma ClosedDefs(t: Tracer, failed: bool)
    requires Started(t) && Active(Top(t))
    ensures CallDefs(Closed(t, failed)) == if failed then [] else DefsOf(Top(t))
  {
    ClosedAfter(t, failed, EtherAt(0));
  }

  lemma ExitLatest(t: Tracer, failed: bool, id: VarID)
    requires |t.calls| > 1 && Shaped(t.calls)
    ensures var t', n := ExitStep(t, failed), |t.calls| - 1;
            && Shaped(t'.calls) && |t'.calls| == n && t'.calls[..n - 1] == t.calls[..n][..n - 1]
            && Latest(t'.calls, id) == if failed then Latest(t.calls[..n], id) else Latest(t.calls, id)
  {
    var n := |t.calls| - 1;
    var below := t.calls[..n];
    ExitCalls(t, failed);
    ClosedDefs(t, failed);
    ResumedDefs(below[n - 1], Closed(t, failed), id);
    LatestTop(below[..n - 1], Resumed(below[n - 1], Closed(t, failed)), id);
  }

  // ---- Whether it is right ----

  predicate Pays(e: Event, a: Address) {
    e.Enter? && e.value > 0 && (a == e.from || a == e.to)
  }

  function WrongStep(ws: seq<bool>, e: Event, a: Address): (r: seq<bool>)
    requires ws != [] && (e.Exit? ==> |ws| > 1)
    ensures |r| == |ws| + if e.Enter? then 1 else if e.Exit? then -1 else 0
  {
    var n := |ws| - 1;
    match e
    case Enter(from, to, _, _, paid) => ws + [if Pays(e, a) then !paid || from == to else ws[n]]
    case Exit(failed) => if failed then ws[..n] else ws[..n - 1] + [ws[n]]
    case _ => ws
  }

  /**
   For each open call, whether the last payment from or to the account, by calls that have not failed, was
   one the engine did not make or one of the account to itself.
   */
  function LastWrong(es: seq<Event>, a: Address): (r: seq<bool>)
    requires Playable(es)
    ensures |r| == Depth(es) >= 1
  {
    if es == [] then [false] else WrongStep(LastWrong(es[..|es| - 1], a), es[|es| - 1], a)
  }

  /** The definition gives the balance of a state unless it is wrong; without one the balance is as at the start. */
  predicate Stands(def: Option<StateVariable>, wrong: bool, st: State, a: Address, start: int) {
    match def
    case None => !wrong && st.GetBalance(a) == start
    case Some(v) => v.BalanceVariable? && (v.amount == st.GetBalance(a) <==> !wrong)
  }

  /** So for every open call, each in the state the next one was entered in. */
  predicate AllStand(calls: seq<CallTree>, ws: seq<bool>, saved: seq<Saved>, now: State, a: Address, start: int)
    requires |calls| == |ws| == |saved| + 1
    decreases |calls|
  {
    var n := |calls| - 1;
    && Stands(Latest(calls, BalanceID(a)), ws[n], now, a, start)
    && (n > 0 ==> AllStand(calls[..n], ws[..n], saved[..n - 1], saved[n - 1].state, a, start))
  }

  predicate RunStands(t: Tracer, m: Machine, ws: seq<bool>, a: Address, start: int) {
    Shaped(t.calls) && |t.calls| == |ws| == |m.saved| + 1 && AllStand(t.calls, ws, m.saved, m.state, a, start)
  }

  /** The innermost call is replaced, or stands in another state. */
  lemma TopStands(calls: seq<CallTree>, ws: seq<bool>, saved: seq<Saved>, now: State, a: Address, start: int,
                  calls': seq<CallTree>, w: bool, now': State)
    requires |calls| == |ws| == |saved| + 1 && AllStand(calls, ws, saved, now, a, start)
    requires |calls'| == |calls| && calls'[..|calls| - 1] == calls[..|calls| - 1]
    requires Stands(Latest(calls', BalanceID(a)), w, now', a, start)
    ensures AllStand(calls', ws[..|ws| - 1] + [w], saved, now', a, start)
  {
    var n := |ws| - 1;
    assert (ws[..n] + [w])[..n] == ws[..n];
  }

  /** Opcodes and logs define no balances and change none. */
  lemma QuietStands(t: Tracer, m: Machine, e: Event, ws: seq<bool>, a: Address, start: int)
    requires RunStands(t, m, ws, a, start) && !e.Enter? && !e.Exit?
    ensures RunStands(TracerStep(t, m.state, e), MachineStep(m, e), WrongStep(ws, e, a), a, start)
  {
    var t', m' := TracerStep(t, m.state, e), MachineStep(m, e);
    QuietLatest(t, m.state, e, a);
    TopStands(t.calls, ws, m.saved, m.state, a, start, t'.calls, ws[|ws| - 1], m'.state);
    assert ws[..|ws| - 1] + [ws[|ws| - 1]] == ws;
  }

  lemma QuietLatest(t: Tracer, st: State, e: Event, a: Address)
    requires Shaped(t.calls) && !e.Enter? && !e.Exit?
    ensures OnTop(t, TracerStep(t, st, e)) && Latest(TracerStep(t, st, e).calls, BalanceID(a)) == Latest(t.calls, BalanceID(a))
  {
    if Reads(e) {
      UseLatest(t, UseOf(e, st), BalanceID(a));
    } else if e.Sstore? {
      DefLatest(t, DefOf(e), BalanceID(a));
    } else {
      TransfersLatest(t, e.transfers, BalanceID(a));
    }
  }

  /** The definition of a balance after a payment. */
  function Filed(st: State, from: Address, to: Address, value: nat, location: Option<nat>, a: Address, before: Option<StateVariable>)
    : Option<StateVariable>
  {
    if value > 0 && a == from then Some(BalanceAt(st, a, 0 - value, location))
    else if value > 0 && a == to then Some(BalanceAt(st, a, value, location))
    else before
  }

  lemma PaidLatest(t: Tracer, st: State, from: Address, to: Address, value: nat, location: Option<nat>, a: Address)
    requires Shaped(t.calls) && value > 0
    ensures var t' := AddPayment(t, BalanceAt(st, to, value, location), BalanceAt(st, from, 0 - value, location), Payment(from, to, value));
            && OnTop(t, t')
            && Latest(t'.calls, BalanceID(a)) == Filed(st, from, to, value, location, a, Latest(t.calls, BalanceID(a)))
  {
    PaymentLatest(t, BalanceAt(st, to, value, location), BalanceAt(st, from, 0 - value, location), Payment(from, to, value), BalanceID(a));
  }

  /** A call entered on top of the others, which keep what they define. */
  predicate Entered(t: Tracer, t': Tracer, a: Address) {
    && Shaped(t.calls) && Shaped(t'.calls) && |t'.calls| == |t.calls| + 1
    && t'.calls[..|t.calls|][..|t.calls| - 1] == t.calls[..|t.calls| - 1]
    && Latest(t'.calls[..|t.calls|], BalanceID(a)) == Latest(t.calls, BalanceID(a))
  }

  lemma EnterStepLatest(t: Tracer, st: State, from: Address, to: Address, value: nat, location: Option<nat>, a: Address)
    requires Shaped(t.calls)
    ensures var t' := EnterStep(t, st, from, to, value, location);
            Entered(t, t', a) && Latest(t'.calls, BalanceID(a)) == Filed(st, from, to, value, location, a, Latest(t.calls, BalanceID(a)))
  {
    OpenLatest(t, st, BalanceID(a));
    if value > 0 {
      PaidLatest(OpenCall(t, st), st, from, to, value, location, a);
    }
  }

  lemma EnterRight(m: Machine, e: Event, a: Address, def: Option<StateVariable>, wrong: bool, start: int)
    requires e.Enter? && Stands(def, wrong, m.state, a, start)
    ensures Stands(Filed(m.state, e.from, e.to, e.value, e.callSite, a, def),
                   if Pays(e, a) then !e.paid || e.from == e.to else wrong, MachineStep(m, e).state, a, start)
  {
  }

  /** A call is opened in the state its caller has got to. */
  lemma Pushed(calls: seq<CallTree>, ws: seq<bool>, saved: seq<Saved>, now: State, a: Address, start: int,
               calls': seq<CallTree>, w: bool, last: Saved, now': State)
    requires |calls| == |ws| == |saved| + 1 && AllStand(calls, ws, saved, now, a, start)
    requires |calls'| == |calls| + 1 && last.state == now
    requires calls'[..|calls|][..|calls| - 1] == calls[..|calls| - 1]
    requires Latest(calls'[..|calls|], BalanceID(a)) == Latest(calls, BalanceID(a))
    requires Stands(Latest(calls', BalanceID(a)), w, now', a, start)
    ensures AllStand(calls', ws + [w], saved + [last], now', a, start)
  {
    var n := |calls|;
    TopStands(calls, ws, saved, now, a, start, calls'[..n], ws[n - 1], now);
    assert ws[..n - 1] + [ws[n - 1]] == ws == (ws + [w])[..n];
    assert (saved + [last])[..n - 1] == saved;
  }

  lemma EnterStepStands(t: Tracer, from: Address, to: Address, value: nat, location: Option<nat>, a: Address, start: int,
                        ws: seq<bool>, saved: seq<Saved>, last: Saved, w: bool, now': State)
    requires Shaped(t.calls) && |t.calls| == |ws| == |saved| + 1 && AllStand(t.calls, ws, saved, last.state, a, start)
    requires Stands(Filed(last.state, from, to, value, location, a, Latest(t.calls, BalanceID(a))), w, now', a, start)
    ensures var t' := EnterStep(t, last.state, from, to, value, location);
            Shaped(t'.calls) && AllStand(t'.calls, ws + [w], saved + [last], now', a, start)
  {
    var t' := EnterStep(t, last.state, from, to, value, location);
    EnterStepLatest(t, last.state, from, to, value, location, a);
    Pushed(t.calls, ws, saved, last.state, a, start, t'.calls, w, last, now');
  }

  lemma EnterStands(t: Tracer, m: Machine, e: Event, ws: seq<bool>, a: Address, start: int)
    requires RunStands(t, m, ws, a, start) && e.Enter?
    ensures RunStands(TracerStep(t, m.state, e), MachineStep(m, e), WrongStep(ws, e, a), a, start)
  {
    var w := if Pays(e, a) then !e.paid || e.from == e.to else ws[|ws| - 1];
    EnterRight(m, e, a, Latest(t.calls, BalanceID(a)), ws[|ws| - 1], start);
    EnterStepStands(t, e.from, e.to, e.value, e.callSite, a, start, ws, m.saved, Saved(m.state, m.written, m.unpaid), w, MachineStep(m, e).state);
  }

  lemma ExitStands(t: Tracer, m: Machine, e: Event, ws: seq<bool>, a: Address, start: int)
    requires RunStands(t, m, ws, a, start) && e.Exit? && |ws| > 1
    ensures RunStands(TracerStep(t, m.state, e), MachineStep(m, e), WrongStep(ws, e, a), a, start)
  {
    var t', m', n := TracerStep(t, m.state, e), MachineStep(m, e), |ws| - 1;
    ExitLatest(t, e.failed, BalanceID(a));
    var w := if e.failed then ws[n - 1] else ws[n];
    TopStands(t.calls[..n], ws[..n], m.saved[..n - 1], m.saved[n - 1].state, a, start, t'.calls, w, m'.state);
    assert ws[..n][..n - 1] + [w] == WrongStep(ws, e, a);
  }

  lemma {:induction false} EveryRunStands(pre: State, tx: Tx, es: seq<Event>, a: Address)
    requires Playable(es)
    ensures RunStands(RunOf(pre, tx, es).t, RunOf(pre, tx, es).m, LastWrong(es, a), a, Pay(pre, tx.from, tx.to, tx.value).GetBalance(a))
  {
    var start := Pay(pre, tx.from, tx.to, tx.value).GetBalance(a);
    if es == [] {
      NewCallHolds(pre, EtherAt(0));
      LatestTop([], NewCall(pre), BalanceID(a));
      assert DefsOf(NewCall(pre)) == OverrideAll(DefsBefore(NewCall(pre), 0), EmptyData.defs);
      assert [] + [NewCall(pre)] == [NewCall(pre)];
    } else {
      var r, e, ws := RunOf(pre, tx, es[..|es| - 1]), es[|es| - 1], LastWrong(es[..|es| - 1], a);
      EveryRunStands(pre, tx, es[..|es| - 1], a);
      if e.Enter? {
        EnterStands(r.t, r.m, e, ws, a, start);
      } else if e.Exit? {
        ExitStands(r.t, r.m, e, ws, a, start);
      } else {
        QuietStands(r.t, r.m, e, ws, a, start);
      }
    }
  }

  // ---- The overall definitions ----

  /** The account sends or receives the value of the transaction itself. */
  predicate Settles(tx: Tx, a: Address) {
    tx.value > 0 && a in {tx.from, tx.to}
  }

  /** The settlement of other accounts leaves the definition of a balance alone. */
  lemma OthersSettle(t: Tracer, st: State, tx: Tx, a: Address)
    requires Shaped(t.calls) && !Settles(tx, a)
    ensures Latest(EndTracer(t, st, tx, false).calls, BalanceID(a)) == Latest(t.calls, BalanceID(a))
  {
    if tx.value > 0 {
      var s := SettlementOf(st, tx);
      UseLatest(t, s.use, BalanceID(a));
      PaymentLatest(AddClearUse(t, s.use), s.def0, s.def1, s.f, BalanceID(a));
    }
  }

  /** The last definition of the balance of an account that is no party of the transaction itself. */
  lemma OthersStand(pre: State, tx: Tx, es: seq<Event>, a: Address)
    requires Playable(es) && Depth(es) == 1 && !Settles(tx, a)
    ensures Stands(Lookup(CallDefs(SummaryOf(pre, tx, es, false)), BalanceID(a)), LastWrong(es, a)[0],
                   PostState(pre, tx, es, false), a, Pay(pre, tx.from, tx.to, tx.value).GetBalance(a))
    ensures Pay(pre, tx.from, tx.to, tx.value).GetBalance(a) == pre.GetBalance(a)
  {
    var r, root := RunOf(pre, tx, es), SummaryOf(pre, tx, es, false);
    SummaryTracks(pre, tx, es, false, EtherAt(a));
    EveryRunStands(pre, tx, es, a);
    OthersSettle(r.t, r.m.state, tx, a);
    LatestTop([], root, BalanceID(a));
    assert EndTracer(r.t, r.m.state, tx, false).calls == [] + [root];
  }

  /** The last definition of a balance in a transaction that has not failed. */
  lemma RootStands(pre: State, tx: Tx, es: seq<Event>, a: Address)
    requires Playable(es) && Depth(es) == 1
    ensures Stands(Lookup(CallDefs(SummaryOf(pre, tx, es, false)), BalanceID(a)), !Settles(tx, a) && LastWrong(es, a)[0],
                   PostState(pre, tx, es, false), a, pre.GetBalance(a))
  {
    SummaryTracks(pre, tx, es, false, EtherAt(a));
    if Settles(tx, a) {
      SettlementDefines(pre, tx, es, a);
    } else {
      OthersStand(pre, tx, es, a);
    }
  }

  /** The balance a summary gives an account: what it lists, or what was there before. */
  function BalanceIn(defs: seq<StateVariable>, a: Address, before: int): int {
    match Lookup(defs, BalanceID(a))
    case Some(v) => if v.BalanceVariable? then v.amount else before
    case None => before
  }

  /**
   The overall definitions give an account the balance it has after the transaction if and only if the last
   payment from or to it that survived is one the engine made, between two accounts, or is the
   transaction's own, or there is none. What they list is never the balance from before.
   */
  lemma OverallBalancesExact(pre: State, tx: Tx, es: seq<Event>, failed: bool, a: Address)
    requires Playable(es) && Depth(es) == 1
    ensures var defs := Overall(SummaryOf(pre, tx, es, failed), true);
            var def, before, after := Lookup(defs, BalanceID(a)), pre.GetBalance(a), PostState(pre, tx, es, failed).GetBalance(a);
            && (BalanceIn(defs, a, before) == after <==> failed || Settles(tx, a) || !LastWrong(es, a)[0])
            && (def.Some? ==> def.value.BalanceVariable? && def.value.amount != before)
  {
    var root := SummaryOf(pre, tx, es, failed);
    SummaryTracks(pre, tx, es, failed, EtherAt(a));
    CallDefsDistinct(root);
    if !failed {
      RootStands(pre, tx, es, a);
      ChangedLookup(root.preState, CallDefs(root), BalanceID(a));
      LookupIn(CallDefs(root), BalanceID(a));
    }
  }

  lemma {:induction false} OneMoreWrong(es: seq<Event>, e: Event, a: Address)
    requires Playable(es) && Reportable(e, Depth(es))
    ensures Playable(es + [e]) && LastWrong(es + [e], a) == WrongStep(LastWrong(es, a), e, a)
  {
    assert (es + [e])[..|es|] == es;
  }

  /** An account that pays itself has its balance listed without the payment, though it still has it. */
  lemma PaysItself(pre: State, tx: Tx, a: Address, value: nat)
    requires tx.value == 0 && value > 0
    ensures var es := [] + [Enter(a, a, value, None, true)] + [Exit(false)];
            && Playable(es) && Depth(es) == 1
            && BalanceIn(Overall(SummaryOf(pre, tx, es, false), true), a, pre.GetBalance(a)) != PostState(pre, tx, es, false).GetBalance(a)
  {
    var enter := Enter(a, a, value, None, true);
    OneMoreEvent(pre, tx, [], enter);
    OneMoreWrong([], enter, a);
    OneMoreEvent(pre, tx, [] + [enter], Exit(false));
    OneMoreWrong([] + [enter], Exit(false), a);
    assert Pays(enter, a);
    OverallBalancesExact(pre, tx, [] + [enter] + [Exit(false)], false, a);
  }

  // ---- The overall uses ----

  function FirstTouch(first: Access, e: Event, a: Address): Access {
    if first != Untouched then first
    else if e.ReadBalance? && e.account == a then Loaded
    else if Pays(e, a) then Stored
    else Untouched
  }

  /** How a run first touches a balance, in failing calls too. */
  function FirstAccess(es: seq<Event>, a: Address): Access {
    if es == [] then Untouched else FirstTouch(FirstAccess(es[..|es| - 1], a), es[|es| - 1], a)
  }

  predicate EverPaid(es: seq<Event>, a: Address) {
    es != [] && (EverPaid(es[..|es| - 1], a) || Pays(es[|es| - 1], a))
  }

  function NewBalanceUse(t: Tracer, st: State, e: Event, a: Address): Option<StateVariable> {
    if e.ReadBalance? && e.account == a && BalanceID(a) !in t.defs then Some(UseOf(e, st)) else None
  }

  lemma PaymentUses(t: Tracer, def0: StateVariable, def1: StateVariable, f: FungibleTransfer, id: VarID)
    requires Shaped(t.calls)
    ensures var t' := AddPayment(t, def0, def1, f);
            Shaped(t'.calls) && Seen(t'.calls, id) == Seen(t.calls, id) && (id in t'.defs <==> id in t.defs || id == ID(def0) || id == ID(def1))
  {
    DefSeen(t, def0, id);
    DefSeen(AddDef(t, def0), def1, id);
    TransferSeen(AddDef(AddDef(t, def0), def1), EtherTransfer(f), id);
  }

  /** The tracer has seen the same uses, and a payment from or to the account if `paid`. */
  predicate SameUses(t: Tracer, t': Tracer, a: Address, paid: bool) {
    && Shaped(t'.calls) && Seen(t'.calls, BalanceID(a)) == Seen(t.calls, BalanceID(a))
    && (BalanceID(a) in t'.defs <==> BalanceID(a) in t.defs || paid)
  }

  lemma PaidUses(t: Tracer, st: State, from: Address, to: Address, value: nat, location: Option<nat>, a: Address)
    requires Shaped(t.calls)
    ensures SameUses(t, AddPayment(t, BalanceAt(st, to, value, location), BalanceAt(st, from, 0 - value, location), Payment(from, to, value)),
                     a, a == from || a == to)
  {
    PaymentUses(t, BalanceAt(st, to, value, location), BalanceAt(st, from, 0 - value, location), Payment(from, to, value), BalanceID(a));
  }

  lemma OpenUses(t: Tracer, st: State, a: Address)
    requires Shaped(t.calls)
    ensures SameUses(t, OpenCall(t, st), a, false)
  {
    OpenSeen(t, st, BalanceID(a));
  }

  lemma EnterUses(t: Tracer, st: State, from: Address, to: Address, value: nat, location: Option<nat>, a: Address)
    requires Shaped(t.calls)
    ensures SameUses(t, EnterStep(t, st, from, to, value, location), a, value > 0 && (a == from || a == to))
  {
    OpenUses(t, st, a);
    if value > 0 {
      PaidUses(OpenCall(t, st), st, from, to, value, location, a);
    }
  }

  /** One event's effect on the uses of a balance. */
  lemma StepUses(t: Tracer, st: State, e: Event, a: Address)
    requires Shaped(t.calls) && Reportable(e, |t.calls|)
    ensures var t' := TracerStep(t, st, e);
            && Shaped(t'.calls) && Seen(t'.calls, BalanceID(a)) == Or(Seen(t.calls, BalanceID(a)), NewBalanceUse(t, st, e, a))
            && (BalanceID(a) in t'.defs <==> BalanceID(a) in t.defs || Pays(e, a))
  {
    var id := BalanceID(a);
    if Reads(e) {
      UseSeen(t, UseOf(e, st), id);
    } else if e.Sstore? {
      DefSeen(t, DefOf(e), id);
    } else if e.Log? {
      TransfersSeen(t, e.transfers, id);
    } else if e.Exit? {
      ExitSeen(t, e.failed, id);
    } else {
      EnterUses(t, st, e.from, e.to, e.value, e.callSite, a);
    }
  }

  /** What the tracer knows of one balance after the events so far. */
  predicate KnowsBalance(t: Tracer, es: seq<Event>, a: Address, start: int) {
    var seen, first := Seen(t.calls, BalanceID(a)), FirstAccess(es, a);
    && Shaped(t.calls) && (BalanceID(a) in t.defs <==> EverPaid(es, a))
    && (seen.Some? <==> first == Loaded)
    && (seen.Some? ==> seen.value.BalanceVariable? && seen.value.amount == start)
    && (first == Stored ==> EverPaid(es, a)) && (EverPaid(es, a) ==> first != Untouched)
  }

  lemma {:induction false} RunKnowsBalance(pre: State, tx: Tx, es: seq<Event>, a: Address)
    requires Playable(es)
    ensures KnowsBalance(RunOf(pre, tx, es).t, es, a, Pay(pre, tx.from, tx.to, tx.value).GetBalance(a))
  {
    if es == [] {
      NewCallUses(pre);
      NewCallHolds(pre, EtherAt(0));
      SeenTop([], NewCall(pre), BalanceID(a));
      assert [] + [NewCall(pre)] == [NewCall(pre)];
    } else {
      var n := |es| - 1;
      var r := RunOf(pre, tx, es[..n]);
      RunKnowsBalance(pre, tx, es[..n], a);
      StepUses(r.t, r.m.state, es[n], a);
      if !EverPaid(es[..n], a) {
        RunStays(pre, tx, es[..n], a);
      }
    }
  }

  /** An account has the same balance now and in every state a failing call could go back to. */
  predicate BalanceStays(m: Machine, a: Address, balance: int) {
    m.state.GetBalance(a) == balance && forall i :: 0 <= i < |m.saved| ==> m.saved[i].state.GetBalance(a) == balance
  }

  lemma OthersPayStays(m: Machine, e: Event, a: Address, balance: int)
    requires BalanceStays(m, a, balance) && !Pays(e, a) && (e.Exit? ==> m.saved != [])
    ensures BalanceStays(MachineStep(m, e), a, balance)
  {
  }

  lemma {:induction false} RunStays(pre: State, tx: Tx, es: seq<Event>, a: Address)
    requires Playable(es) && !EverPaid(es, a)
    ensures BalanceStays(RunOf(pre, tx, es).m, a, Pay(pre, tx.from, tx.to, tx.value).GetBalance(a))
  {
    if es != [] {
      RunStays(pre, tx, es[..|es| - 1], a);
      MachineAfter(pre, tx, es);
      OthersPayStays(RunOf(pre, tx, es[..|es| - 1]).m, es[|es| - 1], a, Pay(pre, tx.from, tx.to, tx.value).GetBalance(a));
    }
  }

  /**
   The balance of the sender filed as used at the end of a transaction is not the one he had before it:
   the value is taken off once more from a balance it has left already.
   */
  lemma SettlementUseIsOff(pre: State, tx: Tx, es: seq<Event>)
    requires Playable(es) && tx.value > 0 && !EverPaid(es, tx.from)
    ensures var use := SettlementOf(RunOf(pre, tx, es).m.state, tx).use;
            use.amount == pre.GetBalance(tx.from) - (if tx.from == tx.to then 1 else 2) * tx.value < pre.GetBalance(tx.from)
  {
    RunStays(pre, tx, es, tx.from);
  }

  /** The balance of a sender nobody has read or paid before is filed as used at the end. */
  predicate UsedAtEnd(tx: Tx, es: seq<Event>, failed: bool, a: Address) {
    !failed && tx.value > 0 && a == tx.from && FirstAccess(es, a) == Untouched
  }

  lemma EndUses(t: Tracer, st: State, tx: Tx, failed: bool, a: Address)
    requires Shaped(t.calls)
    ensures Seen(EndTracer(t, st, tx, failed).calls, BalanceID(a)) ==
            Or(Seen(t.calls, BalanceID(a)),
               if !failed && tx.value > 0 && a == tx.from && BalanceID(a) !in t.defs then Some(SettlementOf(st, tx).use) else None)
  {
    if failed {
      FailSeen(t, BalanceID(a));
    } else if tx.value > 0 {
      var x := SettlementOf(st, tx);
      UseSeen(t, x.use, BalanceID(a));
      PaymentUses(AddClearUse(t, x.use), x.def0, x.def1, x.f, BalanceID(a));
    }
  }

  /**
   The overall uses list a balance exactly if the first access to it, in failing calls too, is a read, and then
   with what it was once the transaction had been paid for; or, with an amount that is not the one
   from before, if it is the untouched balance of the sender.
   */
  lemma BalanceUsesExact(pre: State, tx: Tx, es: seq<Event>, failed: bool, a: Address)
    requires Playable(es) && Depth(es) == 1
    ensures var use := Lookup(CallUses(SummaryOf(pre, tx, es, failed)), BalanceID(a));
            && (use.Some? <==> FirstAccess(es, a) == Loaded || UsedAtEnd(tx, es, failed, a))
            && (use.Some? ==> use.value.BalanceVariable?)
            && (FirstAccess(es, a) == Loaded ==> use.value.amount == Pay(pre, tx.from, tx.to, tx.value).GetBalance(a))
            && (UsedAtEnd(tx, es, failed, a) ==> use.value.amount == pre.GetBalance(a) - (if tx.from == tx.to then 1 else 2) * tx.value)
  {
    var r, root := RunOf(pre, tx, es), SummaryOf(pre, tx, es, failed);
    RunKnowsBalance(pre, tx, es, a);
    EndUses(r.t, r.m.state, tx, failed, a);
    SeenTop([], root, BalanceID(a));
    assert EndTracer(r.t, r.m.state, tx, failed).calls == [] + [root];
    if UsedAtEnd(tx, es, failed, a) {
      SettlementUseIsOff(pre, tx, es);
    }
  }
}
