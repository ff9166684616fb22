/**
 What the overall profits of a summary say of ERC721 tokens: how an account stands to every token,
 call by call, and by how much the number of tokens falls short of what the transfers move.
 */
module SummaryTokens {
  import opened Chain
  import opened StateVars
  import opened Profits
  import opened ProfitLists
  import opened Transfers
  import opened CallSummaries
  import opened SummarySteps
  import opened SummaryExact
  import opened SummaryProfits
  import opened SummaryTransfers

  // ---- No list has duplicates, or a token both received and given ----

  predicate Fine(ps: seq<Profit>) {
    Proper(ps) && AllDisjoint(ps)
  }

  /** What may be added to such a list. */
  predicate Addable(es: seq<Profit>) {
    AllDisjoint(es) && forall e :: e in es ==> !e.ZeroProfit?
  }

  lemma FineAddable(ps: seq<Profit>)
    requires Fine(ps)
    ensures Addable(ps)
  {
    forall e | e in ps ensures !e.ZeroProfit? {
      var i :| 0 <= i < |ps| && ps[i] == e;
      NetAt(ps, i);
    }
  }

  lemma {:induction false} AddFine(ps: seq<Profit>, es: seq<Profit>)
    requires Fine(ps) && Addable(es)
    ensures Fine(AddAll(ps, es))
    decreases |es|
  {
    if es != [] {
      assert es[0] in es && forall e :: e in es[1..] ==> e in es;
      AddOneProper(ps, es[0]);
      AddOneStands(ps, es[0], NoKey, 0);
      AddFine(AddOne(ps, es[0]), es[1..]);
    }
  }

  lemma {:induction false} NonZeroListed(ps: seq<Profit>)
    ensures forall p :: p in NonZero(ps) ==> p in ps
  {
    if ps != [] {
      NonZeroListed(ps[1..]);
    }
  }

  lemma NonZeroFine(ps: seq<Profit>)
    requires Fine(ps)
    ensures Fine(NonZero(ps))
  {
    NonZeroProper(ps);
    NonZeroListed(ps);
    forall i | 0 <= i < |NonZero(ps)| ensures Disjoint(NonZero(ps)[i]) {
      assert NonZero(ps)[i] in ps;
    }
  }

  lemma MadeAddable(t: Transfer)
    ensures Addable(ProfitsFrom(t))
  {
  }

  lemma {:induction false} EarnedFine(ts: seq<Transfer>)
    ensures Fine(EarnedBy(ts))
  {
    if ts != [] {
      var n := |ts| - 1;
      EarnedFine(ts[..n]);
      MadeAddable(ts[n]);
      AddFine(EarnedBy(ts[..n]), ProfitsFrom(ts[n]));
    }
  }

  lemma SegmentFine(c: CallTree, n: nat)
    requires Earned(c)
    ensures Addable(Segment(c, n).profits)
  {
    SegmentEarned(c, n);
    EarnedFine(Segment(c, n).transfers);
    FineAddable(Segment(c, n).profits);
  }

  lemma {:induction false} BeforeFine(c: CallTree, n: nat)
    requires Earned(c) && n <= |c.nested|
    ensures Fine(ProfitsBefore(c, n))
    decreases c, n, 0
  {
    if n > 0 {
      assert c.nested[n - 1] in c.nested;
      WithinFine(c, n - 1);
      CallFine(c.nested[n - 1]);
      FineAddable(CallProfits(c.nested[n - 1]));
      AddFine(ProfitsWithin(c, n - 1), CallProfits(c.nested[n - 1]));
    }
  }

  lemma {:induction false} WithinFine(c: CallTree, n: nat)
    requires Earned(c) && n <= |c.nested|
    ensures Fine(ProfitsWithin(c, n))
    decreases c, n, 1
  {
    BeforeFine(c, n);
    SegmentFine(c, n);
    AddFine(ProfitsBefore(c, n), Segment(c, n).profits);
  }

  lemma {:induction false} CallFine(c: CallTree)
    requires Earned(c)
    ensures Fine(CallProfits(c))
    decreases c
  {
    WithinFine(c, |c.nested|);
    NonZeroFine(ProfitsWithin(c, |c.nested|));
  }

  // ---- Standings over a tree of calls ----

  /** How an account stands to a token after a call's segments and nested calls up to the `n`-th, added up in turn. */
  function TokenFold(c: CallTree, n: nat, k: Key, t: TokenID): int
    requires n <= |c.nested|
    decreases n
  {
    var before := if n == 0 then 0 else StandsAfter(TokenFold(c, n - 1, k, t), CallProfits(c.nested[n - 1]), k, t);
    StandsAfter(before, Segment(c, n).profits, k, t)
  }

  lemma {:induction false} WithinStands(c: CallTree, n: nat, k: Key, t: TokenID)
    requires Earned(c) && n <= |c.nested|
    ensures Stands(ProfitsWithin(c, n), k, t) == TokenFold(c, n, k, t)
    decreases n
  {
    BeforeFine(c, n);
    SegmentFine(c, n);
    AddStands(ProfitsBefore(c, n), Segment(c, n).profits, k, t);
    if n > 0 {
      var inner := c.nested[n - 1];
      assert inner in c.nested;
      WithinStands(c, n - 1, k, t);
      WithinFine(c, n - 1);
      CallFine(inner);
      FineAddable(CallProfits(inner));
      AddStands(ProfitsWithin(c, n - 1), CallProfits(inner), k, t);
    }
  }

  /**
   For any tree of calls: a call that has not failed hands on how an account stands to a token if and
   only if it stands to none, or the numbers of tokens received and given in the call differ.
   */
  lemma CallStandsExactly(c: CallTree, k: Key, t: TokenID)
    requires Earned(c) && !c.failed
    ensures var n := |c.nested|;
            Stands(CallProfits(c), k, t) == TokenFold(c, n, k, t) <==> TokenFold(c, n, k, t) == 0 || Net(ProfitsWithin(c, n), k) != 0
  {
    WithinFine(c, |c.nested|);
    WithinStands(c, |c.nested|, k, t);
    NonZeroStands(ProfitsWithin(c, |c.nested|), k, t);
  }

  /** The same of the summary of any transaction. */
  lemma OverallStandsExactly(pre: State, tx: Tx, es: seq<Event>, k: Key, t: TokenID)
    requires SummaryExact.Playable(es) && Depth(es) == 1
    ensures var root := SummaryOf(pre, tx, es, false); var n := |root.nested|;
            Stands(CallProfits(root), k, t) == TokenFold(root, n, k, t) <==>
            TokenFold(root, n, k, t) == 0 || Net(ProfitsWithin(root, n), k) != 0
  {
    SummaryEarned(pre, tx, es, false);
    SummaryTracks(pre, tx, es, false, EtherAt(0));
    CallStandsExactly(SummaryOf(pre, tx, es, false), k, t);
  }

  // ---- Numbers of tokens ----

  /** The tokens received by the one again after the other, less those given again. */
  function Repeats(p: Profit, q: Profit): int
    requires p.ERC721CombinedProfit? && q.ERC721CombinedProfit?
  {
    |p.receiveTokens * q.receiveTokens| - |p.giveTokens * q.giveTokens|
  }

  lemma JoinedSize<T>(a: set<T>, b: set<T>)
    ensures |a + b| == |a| + |b| - |a * b|
    ensures |a - b| == |a| - |a * b|
  {
    assert a == (a - b) + (a * b);
    assert a + b == (a - b) + b;
  }

  /** Two sets that take away from each other's opposites. */
  lemma KeptSize<T>(p: set<T>, pOpposite: set<T>, q: set<T>, qOpposite: set<T>)
    requires p !! pOpposite && q !! qOpposite
    ensures |(p - qOpposite) + (q - pOpposite)| == |p| - |p * qOpposite| + |q| - |q * pOpposite| - |p * q|
  {
    JoinedSize(p, qOpposite);
    JoinedSize(q, pOpposite);
    JoinedSize(p - qOpposite, q - pOpposite);
    assert (p - qOpposite) * (q - pOpposite) == p * q;
  }

  lemma MergedQuantity(p: Profit, q: Profit)
    requires p.ERC721CombinedProfit? && q.ERC721CombinedProfit? && Disjoint(p) && Disjoint(q)
    ensures Quantity(MergeTokens(p, q)) == Quantity(p) + Quantity(q) - Repeats(p, q)
  {
    var m := MergeTokens(p, q);
    KeptSize(p.receiveTokens, p.giveTokens, q.receiveTokens, q.giveTokens);
    KeptSize(p.giveTokens, p.receiveTokens, q.giveTokens, q.receiveTokens);
    assert m.receiveTokens == (p.receiveTokens - q.giveTokens) + (q.receiveTokens - p.giveTokens);
    assert m.giveTokens == (p.giveTokens - q.receiveTokens) + (q.giveTokens - p.receiveTokens);
    assert p.receiveTokens * q.giveTokens == q.giveTokens * p.receiveTokens;
    assert p.giveTokens * q.receiveTokens == q.receiveTokens * p.giveTokens;
  }

  /** What a profit repeats of the one in the list that takes it. */
  function RepeatsOne(ps: seq<Profit>, e: Profit, k: Key): int {
    if ps == [] then 0
    else if Profits.Merge(ps[0], e).Some? then
      if ps[0].ERC721CombinedProfit? && KeyOf(e) == k then Repeats(ps[0], e) else 0
    else RepeatsOne(ps[1..], e, k)
  }

  function RepeatsAll(ps: seq<Profit>, es: seq<Profit>, k: Key): int
    decreases |es|
  {
    if es == [] then 0 else RepeatsOne(ps, es[0], k) + RepeatsAll(AddOne(ps, es[0]), es[1..], k)
  }

  lemma MergeQuantity(p: Profit, e: Profit)
    requires Disjoint(p) && Disjoint(e) && Profits.Merge(p, e).Some?
    ensures var m := Profits.Merge(p, e).value;
            && KeyOf(m) == KeyOf(e) && (p.ERC721CombinedProfit? ==> e.ERC721CombinedProfit?)
            && (!p.ZeroProfit? ==> KeyOf(p) == KeyOf(e))
            && Quantity(m) == Quantity(p) + Quantity(e) - if p.ERC721CombinedProfit? then Repeats(p, e) else 0
  {
    if p.ERC721CombinedProfit? {
      MergedQuantity(p, e);
    }
  }

  lemma {:induction false} AddOneQuantity(ps: seq<Profit>, e: Profit, k: Key)
    requires AllDisjoint(ps) && Disjoint(e)
    ensures Net(AddOne(ps, e), k) == Net(ps, k) + Net([e], k) - RepeatsOne(ps, e, k)
  {
    assert [e][1..] == [];
    if ps != [] {
      assert AllDisjoint(ps[1..]) && Disjoint(ps[0]);
      match Profits.Merge(ps[0], e) {
        case Some(m) =>
          assert ([m] + ps[1..])[1..] == ps[1..];
          MergeQuantity(ps[0], e);
        case None =>
          assert ([ps[0]] + AddOne(ps[1..], e))[1..] == AddOne(ps[1..], e);
          AddOneQuantity(ps[1..], e, k);
      }
    }
  }

  /** Adding adds net quantities, of ERC721 tokens too, less the tokens received or given again. */
  lemma {:induction false} AddQuantity(ps: seq<Profit>, es: seq<Profit>, k: Key)
    requires Fine(ps) && Addable(es)
    ensures Net(AddAll(ps, es), k) == Net(ps, k) + Net(es, k) - RepeatsAll(ps, es, k)
    decreases |es|
  {
    if es != [] {
      assert es[0] in es && forall e :: e in es[1..] ==> e in es;
      assert [es[0]][1..] == [];
      AddOneQuantity(ps, es[0], k);
      AddOneProper(ps, es[0]);
      AddOneStands(ps, es[0], NoKey, 0);
      AddQuantity(AddOne(ps, es[0]), es[1..], k);
    }
  }

  function EarnedRepeats(ts: seq<Transfer>, k: Key): int {
    if ts == [] then 0
    else EarnedRepeats(ts[..|ts| - 1], k) + RepeatsAll(EarnedBy(ts[..|ts| - 1]), ProfitsFrom(ts[|ts| - 1]), k)
  }

  lemma {:induction false} EarnedQuantity(ts: seq<Transfer>, k: Key)
    requires k != NoKey
    ensures Net(EarnedBy(ts), k) == MovedBy(ts, k) - EarnedRepeats(ts, k)
  {
    if ts != [] {
      var n := |ts| - 1;
      EarnedQuantity(ts[..n], k);
      EarnedFine(ts[..n]);
      MadeAddable(ts[n]);
      AddQuantity(EarnedBy(ts[..n]), ProfitsFrom(ts[n]), k);
      ProfitsAreMoved(ts[n], k);
      MovedByAppend(ts[..n], [ts[n]], k);
      assert ts == ts[..n] + [ts[n]] && MovedBy([ts[n]], k) == Moved(ts[n], k) + MovedBy([ts[n]][1..], k);
    }
  }

  /** The tokens received again in the calls of a tree, less those given again. */
  function RepeatsBefore(c: CallTree, n: nat, k: Key): int
    requires n <= |c.nested|
    decreases c, n, 0
  {
    if n == 0 then 0
    else RepeatsWithin(c, n - 1, k) + CallRepeats(c.nested[n - 1], k)
         + RepeatsAll(ProfitsWithin(c, n - 1), CallProfits(c.nested[n - 1]), k)
  }

  function RepeatsWithin(c: CallTree, n: nat, k: Key): int
    requires n <= |c.nested|
    decreases c, n, 1
  {
    RepeatsBefore(c, n, k) + EarnedRepeats(Segment(c, n).transfers, k)
    + RepeatsAll(ProfitsBefore(c, n), Segment(c, n).profits, k)
  }

  function CallRepeats(c: CallTree, k: Key): int
    decreases c
  {
    if c.failed then 0 else RepeatsWithin(c, |c.nested|, k)
  }

  lemma {:induction false} BeforeQuantity(c: CallTree, n: nat, k: Key)
    requires Earned(c) && n <= |c.nested| && k != NoKey
    ensures Net(ProfitsBefore(c, n), k) == MovedBy(TransfersBefore(c, n), k) - RepeatsBefore(c, n, k)
    decreases c, n, 0
  {
    if n > 0 {
      var inner := c.nested[n - 1];
      assert inner in c.nested;
      WithinQuantity(c, n - 1, k);
      CallQuantity(inner, k);
      WithinFine(c, n - 1);
      CallFine(inner);
      FineAddable(CallProfits(inner));
      AddQuantity(ProfitsWithin(c, n - 1), CallProfits(inner), k);
      MovedByAppend(TransfersWithin(c, n - 1), CallTransfers(inner), k);
    }
  }

  lemma {:induction false} WithinQuantity(c: CallTree, n: nat, k: Key)
    requires Earned(c) && n <= |c.nested| && k != NoKey
    ensures Net(ProfitsWithin(c, n), k) == MovedBy(TransfersWithin(c, n), k) - RepeatsWithin(c, n, k)
    decreases c, n, 1
  {
    var d := Segment(c, n);
    SegmentEarned(c, n);
    SegmentFine(c, n);
    BeforeFine(c, n);
    BeforeQuantity(c, n, k);
    EarnedQuantity(d.transfers, k);
    AddQuantity(ProfitsBefore(c, n), d.profits, k);
    MovedByAppend(TransfersBefore(c, n), d.transfers, k);
  }

  lemma {:induction false} CallQuantity(c: CallTree, k: Key)
    requires Earned(c) && k != NoKey
    ensures Net(CallProfits(c), k) == MovedBy(CallTransfers(c), k) - CallRepeats(c, k)
    decreases c
  {
    WithinQuantity(c, |c.nested|, k);
    NonZeroNet(ProfitsWithin(c, |c.nested|), k);
  }

  /**
   Of every asset, ERC721 tokens included, the overall profits are what the overall transfers move, less
   the tokens an account received while it counted as having received them already, plus those it gave
   so. They agree if and only if these come to the same.
   */
  lemma OverallQuantitiesExact(pre: State, tx: Tx, es: seq<Event>, failed: bool, k: Key)
    requires SummaryExact.Playable(es) && Depth(es) == 1 && k != NoKey
    ensures var root := SummaryOf(pre, tx, es, failed);
            && Net(CallProfits(root), k) == MovedBy(CallTransfers(root), k) - CallRepeats(root, k)
            && (Net(CallProfits(root), k) == MovedBy(CallTransfers(root), k) <==> CallRepeats(root, k) == 0)
  {
    SummaryEarned(pre, tx, es, failed);
    CallQuantity(SummaryOf(pre, tx, es, failed), k);
  }

  // ---- Where tokens are lost ----

  lemma {:induction false} TransfersNestNothing(t: Tracer, ts: seq<Transfer>)
    requires Started(t)
    ensures Top(AddTransfers(t, ts)).nested == Top(t).nested
    decreases |ts|
  {
    if ts != [] {
      TransfersNestNothing(AddTransfer(t, ts[0]), ts[1..]);
    }
  }

  /** A transaction that does nothing but log transfers. */
  lemma LogRuns(pre: State, tx: Tx, ts: seq<Transfer>)
    requires tx.value == 0 && forall t :: t in ts ==> !t.EtherTransfer?
    ensures var es := [Log(ts)];
            && SummaryExact.Playable(es) && Depth(es) == 1
            && SummaryOf(pre, tx, es, false).nested == [] && !SummaryOf(pre, tx, es, false).failed
            && CallTransfers(SummaryOf(pre, tx, es, false)) == ts
  {
    var es := [Log(ts)];
    assert es[..0] == [] && SummaryExact.Playable([]) && Depth([]) == 1;
    assert LedgerOf(es).log == [] + ts && ts + [] == ts;
    OverallTransfersExact(pre, tx, es, false);
    SummaryTracks(pre, tx, es, false, EtherAt(0));
    TransfersNestNothing(StartTracer(pre), ts);
    assert RunOf(pre, tx, es).t == AddTransfers(StartTracer(pre), ts);
  }

  lemma LogProfits(pre: State, tx: Tx, ts: seq<Transfer>)
    requires tx.value == 0 && forall t :: t in ts ==> !t.EtherTransfer?
    ensures var es := [Log(ts)];
            && SummaryExact.Playable(es) && Depth(es) == 1
            && CallProfits(SummaryOf(pre, tx, es, false)) == NonZero(AddAll([], EarnedBy(ts)))
  {
    LogRuns(pre, tx, ts);
    var root := SummaryOf(pre, tx, [Log(ts)], false);
    SummaryEarned(pre, tx, [Log(ts)], false);
    SegmentEarned(root, 0);
    assert TransfersBefore(root, 0) == [] && TransfersWithin(root, 0) == [] + Segment(root, 0).transfers;
    assert Segment(root, 0).transfers == ts;
    assert ProfitsBefore(root, 0) == [] && ProfitsWithin(root, 0) == AddAll([], EarnedBy(ts));
  }

  lemma AddPair(ps: seq<Profit>, p: Profit, q: Profit)
    ensures AddAll(ps, [p, q]) == AddOne(AddOne(ps, p), q)
  {
    assert [p, q][1..] == [q] && [q][1..] == [];
    assert AddAll(ps, [p, q]) == AddAll(AddOne(ps, p), [q]);
    assert AddAll(AddOne(ps, p), [q]) == AddAll(AddOne(AddOne(ps, p), q), []);
  }

  lemma EarnedMore(ts: seq<Transfer>, t: Transfer)
    ensures EarnedBy(ts + [t]) == AddAll(EarnedBy(ts), ProfitsFrom(t))
  {
    assert (ts + [t])[..|ts|] == ts;
  }

  lemma TwoProfits(t: Transfer, u: Transfer, p: Profit, q: Profit, r: Profit, s: Profit)
    requires ProfitsFrom(t) == [p, q] && ProfitsFrom(u) == [r, s]
    ensures EarnedBy([t, u]) == AddOne(AddOne(AddOne(AddOne([], p), q), r), s)
  {
    EarnedMore([], t);
    EarnedMore([t], u);
    assert [] + [t] == [t] && [t] + [u] == [t, u];
    AddPair([], p, q);
    AddPair(EarnedBy([t]), r, s);
  }

  lemma AddTwo(p: Profit, q: Profit)
    requires Profits.Merge(p, q) == None
    ensures AddAll([], [p, q]) == [p, q]
  {
    AddPair([], p, q);
    assert [p][1..] == [] && AddOne([], p) == [p] && AddOne([p], q) == [p] + AddOne([], q);
  }

  /** Two accounts that swap tokens of one contract are listed with no profit at all, though both tokens were transferred. */
  lemma SwapIsDropped(pre: State, tx: Tx, a: Address, b: Address, c: Address, t: TokenID, u: TokenID)
    requires tx.value == 0 && a != b && a != ZERO_ADDRESS && b != ZERO_ADDRESS && t != u
    ensures var ts := [ERC721Transfer(a, b, c, t), ERC721Transfer(b, a, c, u)];
            && SummaryExact.Playable([Log(ts)]) && Depth([Log(ts)]) == 1
            && CallTransfers(SummaryOf(pre, tx, [Log(ts)], false)) == ts
            && CallProfits(SummaryOf(pre, tx, [Log(ts)], false)) == []
  {
    var ts := [ERC721Transfer(a, b, c, t), ERC721Transfer(b, a, c, u)];
    LogRuns(pre, tx, ts);
    LogProfits(pre, tx, ts);
    SwapProfits(a, b, c, t, u);
  }

  /** Two profits, the first of which takes the fourth in, and the second the third. */
  lemma CrossedProfits(p: Profit, q: Profit, r: Profit, s: Profit, p': Profit, q': Profit)
    requires Profits.Merge(p, q) == None && Profits.Merge(p, r) == None
    requires Profits.Merge(q, r) == Some(q') && Profits.Merge(p, s) == Some(p')
    ensures AddOne(AddOne(AddOne(AddOne([], p), q), r), s) == [p', q']
  {
    assert [p][1..] == [] && [q][1..] == [] && [p, q][1..] == [q] && [p, q'][1..] == [q'];
    assert AddOne([p], q) == [p, q];
    assert AddOne([q], r) == [q'];
    assert AddOne([p, q], r) == [p] + AddOne([q], r);
  }

  lemma TwoZeros(p: Profit, q: Profit)
    requires IsZero(p) && IsZero(q)
    ensures NonZero([p, q]) == []
  {
    assert [p, q][1..] == [q] && [q][1..] == [];
    assert NonZero([q]) == [] + NonZero([]);
    assert NonZero([p, q]) == [] + NonZero([q]);
  }

  function Gave(account: Address, c: Address, t: TokenID): Profit {
    ERC721CombinedProfit(account, c, {}, {t})
  }

  function Got(account: Address, c: Address, t: TokenID): Profit {
    ERC721CombinedProfit(account, c, {t}, {})
  }

  lemma SwapMerges(a: Address, b: Address, c: Address, t: TokenID, u: TokenID)
    requires a != b && t != u
    ensures Profits.Merge(Gave(a, c, t), Got(b, c, t)) == None && Profits.Merge(Gave(a, c, t), Gave(b, c, u)) == None
    ensures Profits.Merge(Got(b, c, t), Gave(b, c, u)) == Some(ERC721CombinedProfit(b, c, {t}, {u}))
    ensures Profits.Merge(Gave(a, c, t), Got(a, c, u)) == Some(ERC721CombinedProfit(a, c, {u}, {t}))
  {
    var q, p := MergeTokens(Got(b, c, t), Gave(b, c, u)), MergeTokens(Gave(a, c, t), Got(a, c, u));
    assert q.receiveTokens == {t} && q.giveTokens == {u};
    assert p.receiveTokens == {u} && p.giveTokens == {t};
  }

  lemma SwapProfits(a: Address, b: Address, c: Address, t: TokenID, u: TokenID)
    requires a != b && a != ZERO_ADDRESS && b != ZERO_ADDRESS && t != u
    ensures NonZero(AddAll([], EarnedBy([ERC721Transfer(a, b, c, t), ERC721Transfer(b, a, c, u)]))) == []
  {
    var p, q := ERC721CombinedProfit(a, c, {u}, {t}), ERC721CombinedProfit(b, c, {t}, {u});
    TwoProfits(ERC721Transfer(a, b, c, t), ERC721Transfer(b, a, c, u), Gave(a, c, t), Got(b, c, t), Gave(b, c, u), Got(a, c, u));
    SwapMerges(a, b, c, t, u);
    CrossedProfits(Gave(a, c, t), Got(b, c, t), Gave(b, c, u), Got(a, c, u), p, q);
    AddTwo(p, q);
    TwoZeros(p, q);
  }

  /** Two profits, each of which takes in what changes nothing. */
  lemma RepeatedProfits(p: Profit, q: Profit)
    requires Profits.Merge(p, q) == None && Profits.Merge(p, p) == Some(p) && Profits.Merge(q, q) == Some(q)
    ensures AddOne(AddOne(AddOne(AddOne([], p), q), p), q) == [p, q]
  {
    assert [p][1..] == [] && [q][1..] == [] && [p, q][1..] == [q];
    assert AddOne([p], q) == [p, q];
    assert AddOne([p, q], p) == [p] + [p, q][1..];
    assert AddOne([p, q], q) == [p] + AddOne([q], q);
  }

  lemma TwoKept(p: Profit, q: Profit)
    requires !IsZero(p) && !IsZero(q)
    ensures NonZero([p, q]) == [p, q]
  {
    assert [p, q][1..] == [q] && [q][1..] == [];
    assert NonZero([q]) == [q] + NonZero([]);
    assert NonZero([p, q]) == [p] + NonZero([q]);
  }

  lemma AgainMerges(a: Address, b: Address, c: Address, t: TokenID)
    requires a != b
    ensures Profits.Merge(Gave(a, c, t), Got(b, c, t)) == None
    ensures Profits.Merge(Gave(a, c, t), Gave(a, c, t)) == Some(Gave(a, c, t))
    ensures Profits.Merge(Got(b, c, t), Got(b, c, t)) == Some(Got(b, c, t))
  {
    var p, q := MergeTokens(Gave(a, c, t), Gave(a, c, t)), MergeTokens(Got(b, c, t), Got(b, c, t));
    assert p.receiveTokens == {} && p.giveTokens == {t};
    assert q.receiveTokens == {t} && q.giveTokens == {};
  }

  /** A token logged as received twice in a row is one token of profit, though two were moved. */
  lemma RepeatCountsOnce(pre: State, tx: Tx, a: Address, b: Address, c: Address, t: TokenID)
    requires tx.value == 0 && a != b && a != ZERO_ADDRESS && b != ZERO_ADDRESS
    ensures var u := ERC721Transfer(a, b, c, t);
            && SummaryExact.Playable([Log([u, u])]) && Depth([Log([u, u])]) == 1
            && MovedBy(CallTransfers(SummaryOf(pre, tx, [Log([u, u])], false)), ERC721Of(b, c)) == 2
            && Net(CallProfits(SummaryOf(pre, tx, [Log([u, u])], false)), ERC721Of(b, c)) == 1
  {
    var u := ERC721Transfer(a, b, c, t);
    LogRuns(pre, tx, [u, u]);
    LogProfits(pre, tx, [u, u]);
    RepeatProfits(a, b, c, t);
    MovedByTwo(u, u, ERC721Of(b, c));
    NetOfTwo(Gave(a, c, t), Got(b, c, t), ERC721Of(b, c));
    NetOfTwo(Got(b, c, t), Gave(a, c, t), ERC721Of(b, c));
  }

  lemma RepeatProfits(a: Address, b: Address, c: Address, t: TokenID)
    requires a != b && a != ZERO_ADDRESS && b != ZERO_ADDRESS
    ensures var u := ERC721Transfer(a, b, c, t); NonZero(AddAll([], EarnedBy([u, u]))) == [Gave(a, c, t), Got(b, c, t)]
  {
    var u := ERC721Transfer(a, b, c, t);
    TwoProfits(u, u, Gave(a, c, t), Got(b, c, t), Gave(a, c, t), Got(b, c, t));
    AgainMerges(a, b, c, t);
    RepeatedProfits(Gave(a, c, t), Got(b, c, t));
    AddTwo(Gave(a, c, t), Got(b, c, t));
    TwoKept(Gave(a, c, t), Got(b, c, t));
  }
}
