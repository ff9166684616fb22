/**
 Searching a range of blocks in overlapping windows: which transactions a window holds, which pairs
 and triples of them it checks, and that over all windows none is checked twice or missed.
 */
module Windows {
  import opened Chain
  import opened TxHistories

  /** The records of a block, in order; a function of the block number, as the chain is fixed. */
  type History = nat -> seq<TxRecord>

  ghost predicate WellFormed(h: History) {
    forall b: nat, i: nat :: i < |h(b)| ==> h(b)[i].position == TxPosition(b, i)
  }

  // ---- The records of a window ----

  function BlocksFrom(h: History, from: nat, size: nat): seq<seq<TxRecord>> {
    seq(size, i requires 0 <= i < size => h(from + i))
  }

  datatype Session = Session(from: nat, blocks: seq<seq<TxRecord>>) {
    /** None stands for the out-of-range errors. */
    function TryGetTxRecord(pos: TxPosition): Option<TxRecord> {
      if pos.blockNumber < from || pos.blockNumber >= from + |blocks| then None
      else
        var block := blocks[pos.blockNumber - from];
        if pos.txIndex >= |block| then None else Some(block[pos.txIndex])
    }
  }

  predicate Held(s: Session, pos: TxPosition) {
    s.TryGetTxRecord(pos).Some?
  }

  predicate Ascending(ps: seq<TxPosition>) {
    forall i, j :: 0 <= i < j < |ps| ==> Before(ps[i], ps[j])
  }

  /** The records are those at the positions listed: all held from one position up to another, in order. */
  ghost predicate Lists(s: Session, fromPos: TxPosition, toPos: TxPosition, rs: seq<TxRecord>, at: seq<TxPosition>) {
    && |rs| == |at| && Ascending(at)
    && (forall k :: 0 <= k < |at| ==>
          !Before(at[k], fromPos) && Before(at[k], toPos) && s.TryGetTxRecord(at[k]) == Some(rs[k]))
    && (forall p :: Held(s, p) && !Before(p, fromPos) && Before(p, toPos) ==> p in at)
  }

  method SliceTxRecords(s: Session, fromPos: TxPosition, toPos: TxPosition) returns (records: seq<TxRecord>)
    ensures exists at: seq<TxPosition> :: Lists(s, fromPos, toPos, records, at)
  {
    records := [];
    ghost var at: seq<TxPosition> := [];
    var pos := fromPos;
    while CmpPositions(pos, toPos) < 0
      invariant |records| == |at| && Ascending(at) && !Before(pos, fromPos)
      invariant forall k :: 0 <= k < |at| ==>
          !Before(at[k], fromPos) && Before(at[k], toPos) && Before(at[k], pos) && s.TryGetTxRecord(at[k]) == Some(records[k])
      invariant forall p :: Held(s, p) && !Before(p, fromPos) && Before(p, toPos) && Before(p, pos) ==> p in at
      decreases toPos.blockNumber - pos.blockNumber, Longest(s) - pos.txIndex
    {
      var r := s.TryGetTxRecord(pos);
      if r.None? {
        pos := TxPosition(pos.blockNumber + 1, 0);
      } else {
        LongestIs(s, pos);
        records, at := records + [r.value], at + [pos];
        pos := pos.(txIndex := pos.txIndex + 1);
      }
    }
    assert Lists(s, fromPos, toPos, records, at);
  }

  function LongestOf(blocks: seq<seq<TxRecord>>): nat {
    if blocks == [] then 0
    else if |blocks[0]| > LongestOf(blocks[1..]) then |blocks[0]| else LongestOf(blocks[1..])
  }

  function Longest(s: Session): nat {
    LongestOf(s.blocks)
  }

  lemma {:induction false} LongestOfIs(blocks: seq<seq<TxRecord>>, i: nat)
    requires i < |blocks|
    ensures |blocks[i]| <= LongestOf(blocks)
  {
    if i > 0 {
      LongestOfIs(blocks[1..], i - 1);
    }
  }

  lemma LongestIs(s: Session, pos: TxPosition)
    requires Held(s, pos)
    ensures pos.txIndex < Longest(s)
  {
    LongestOfIs(s.blocks, pos.blockNumber - s.from);
  }

  // ---- What a window checks ----

  /** An attack and a victim, and for a triple a profit transaction, by their positions. */
  datatype Case = Pair(attack: TxPosition, victim: TxPosition) | Triple(attack: TxPosition, victim: TxPosition, profit: TxPosition)

  function LastOf(c: Case): TxPosition {
    if c.Pair? then c.victim else c.profit
  }

  predicate Increasing(rs: seq<TxRecord>) {
    forall i, j :: 0 <= i < j < |rs| ==> Before(rs[i].position, rs[j].position)
  }

  /** An ordinary record at the position, from the `lo`-th to before the `hi`-th. */
  predicate HasIn(rs: seq<TxRecord>, lo: nat, hi: nat, p: TxPosition)
    requires hi <= |rs|
  {
    exists m :: lo <= m < hi && rs[m].position == p && Ordinary(rs[m])
  }

  predicate Has(rs: seq<TxRecord>, p: TxPosition) {
    HasIn(rs, 0, |rs|, p)
  }

  /** Ordered transactions of the window, the last of them not before the pivot. */
  predicate Checks(rs: seq<TxRecord>, pivot: TxPosition, c: Case) {
    && Has(rs, c.attack) && Has(rs, c.victim) && Before(c.attack, c.victim)
    && (c.Triple? ==> Has(rs, c.profit) && Before(c.victim, c.profit))
    && !Before(LastOf(c), pivot)
  }

  // ---- The nested loops ----

  function ProfitCase(rs: seq<TxRecord>, pivot: TxPosition, i: nat, j: nat, k: nat): seq<Case>
    requires i < |rs| && j < |rs| && k < |rs|
  {
    if Ordinary(rs[k]) && !Before(rs[k].position, pivot) then [Triple(rs[i].position, rs[j].position, rs[k].position)] else []
  }

  /** The profit transactions after the victim, up to the `hi`-th record. */
  function ProfitCases(rs: seq<TxRecord>, pivot: TxPosition, i: nat, j: nat, hi: nat): seq<Case>
    requires i < j < hi <= |rs|
    decreases hi
  {
    if hi == j + 1 then [] else ProfitCases(rs, pivot, i, j, hi - 1) + ProfitCase(rs, pivot, i, j, hi - 1)
  }

  function PairCase(rs: seq<TxRecord>, pivot: TxPosition, i: nat, j: nat): seq<Case>
    requires i < j < |rs|
  {
    if Before(rs[j].position, pivot) then [] else [Pair(rs[i].position, rs[j].position)]
  }

  function VictimCase(rs: seq<TxRecord>, pivot: TxPosition, i: nat, j: nat): seq<Case>
    requires i < j < |rs|
  {
    if Ordinary(rs[j]) then PairCase(rs, pivot, i, j) + ProfitCases(rs, pivot, i, j, |rs|) else []
  }

  /** The victims after the attack. */
  function VictimCases(rs: seq<TxRecord>, pivot: TxPosition, i: nat, hi: nat): seq<Case>
    requires i < hi <= |rs|
    decreases hi
  {
    if hi == i + 1 then [] else VictimCases(rs, pivot, i, hi - 1) + VictimCase(rs, pivot, i, hi - 1)
  }

  function AttackCase(rs: seq<TxRecord>, pivot: TxPosition, i: nat): seq<Case>
    requires i < |rs|
  {
    if Ordinary(rs[i]) then VictimCases(rs, pivot, i, |rs|) else []
  }

  function AttackCases(rs: seq<TxRecord>, pivot: TxPosition, hi: nat): seq<Case>
    requires hi <= |rs|
    decreases hi
  {
    if hi == 0 then [] else AttackCases(rs, pivot, hi - 1) + AttackCase(rs, pivot, hi - 1)
  }

  method GateProfit(rs: seq<TxRecord>, pivot: TxPosition, i: nat, j: nat, k: nat) returns (checked: seq<Case>)
    requires i < |rs| && j < |rs| && k < |rs|
    ensures checked == ProfitCase(rs, pivot, i, j, k)
  {
    var pr := rs[k];
    if pr.err || pr.pseudo || CmpPositions(pr.position, pivot) < 0 {
      return [];
    }
    checked := [Triple(rs[i].position, rs[j].position, pr.position)];
  }

  /** The loop over profit transactions, which are the records from the one after the victim on. */
  method SearchProfit(rs: seq<TxRecord>, pivot: TxPosition, i: nat, j: nat) returns (checked: seq<Case>)
    requires i < j < |rs|
    ensures checked == ProfitCases(rs, pivot, i, j, |rs|)
  {
    checked := [];
    for k := j + 1 to |rs|
      invariant checked == ProfitCases(rs, pivot, i, j, k)
    {
      var triple := GateProfit(rs, pivot, i, j, k);
      checked := checked + triple;
    }
  }

  /** The body of the loop over victims. */
  method SearchVictim(rs: seq<TxRecord>, pivot: TxPosition, i: nat, j: nat) returns (checked: seq<Case>)
    requires i < j < |rs|
    ensures checked == VictimCase(rs, pivot, i, j)
  {
    var vr := rs[j];
    checked := [];
    if vr.err || vr.pseudo {
      return;
    }
    if CmpPositions(vr.position, pivot) >= 0 {
      checked := [Pair(rs[i].position, vr.position)];
    }
    var triples := SearchProfit(rs, pivot, i, j);
    checked := checked + triples;
  }

  /** The records after the attack; the source counts them from there, as `vrIndex == j - (arIndex + 1)`. */
  method SearchVictimGivenAttack(rs: seq<TxRecord>, pivot: TxPosition, arIndex: nat) returns (checked: seq<Case>)
    requires arIndex < |rs|
    ensures checked == VictimCases(rs, pivot, arIndex, |rs|)
  {
    checked := [];
    for j := arIndex + 1 to |rs|
      invariant checked == VictimCases(rs, pivot, arIndex, j)
    {
      var cases := SearchVictim(rs, pivot, arIndex, j);
      checked := checked + cases;
    }
  }

  /** Leaves out the last record as an attack, as nothing comes after it. */
  method Search(rs: seq<TxRecord>, pivot: TxPosition) returns (checked: seq<Case>)
    requires rs != []
    ensures checked == AttackCases(rs, pivot, |rs|)
  {
    checked := [];
    for i := 0 to |rs| - 1
      invariant checked == AttackCases(rs, pivot, i)
    {
      if !rs[i].err && !rs[i].pseudo {
        var cases := SearchVictimGivenAttack(rs, pivot, i);
        checked := checked + cases;
      }
    }
    assert AttackCase(rs, pivot, |rs| - 1) == [];
  }

  // ---- How often each case comes up ----

  function Times(cs: seq<Case>, c: Case): nat {
    if cs == [] then 0 else (if cs[0] == c then 1 else 0) + Times(cs[1..], c)
  }

  lemma {:induction false} TimesPlus(cs: seq<Case>, ds: seq<Case>, c: Case)
    ensures Times(cs + ds, c) == Times(cs, c) + Times(ds, c)
  {
    if cs == [] {
      assert cs + ds == ds;
    } else {
      assert (cs + ds)[1..] == cs[1..] + ds;
      TimesPlus(cs[1..], ds, c);
    }
  }

  lemma HasMore(rs: seq<TxRecord>, lo: nat, hi: nat, p: TxPosition)
    requires Increasing(rs) && lo <= hi < |rs|
    ensures HasIn(rs, lo, hi + 1, p) <==> HasIn(rs, lo, hi, p) || (rs[hi].position == p && Ordinary(rs[hi]))
    ensures HasIn(rs, lo, hi, p) ==> rs[hi].position != p
  {
    if HasIn(rs, lo, hi, p) {
      var m :| lo <= m < hi && rs[m].position == p;
      assert Before(rs[m].position, rs[hi].position);
    }
  }

  predicate ProfitChecks(rs: seq<TxRecord>, pivot: TxPosition, i: nat, j: nat, c: Case)
    requires i < |rs| && j < |rs|
  {
    c.Triple? && c.attack == rs[i].position && c.victim == rs[j].position && !Before(c.profit, pivot)
  }

  lemma {:induction false} ProfitTimes(rs: seq<TxRecord>, pivot: TxPosition, i: nat, j: nat, hi: nat, c: Case)
    requires Increasing(rs) && i < j < hi <= |rs|
    ensures Times(ProfitCases(rs, pivot, i, j, hi), c) ==
            if ProfitChecks(rs, pivot, i, j, c) && HasIn(rs, j + 1, hi, c.profit) then 1 else 0
    decreases hi
  {
    if hi > j + 1 {
      var k: nat := hi - 1;
      ProfitTimes(rs, pivot, i, j, k, c);
      TimesPlus(ProfitCases(rs, pivot, i, j, k), ProfitCase(rs, pivot, i, j, k), c);
      if c.Triple? {
        HasMore(rs, j + 1, k, c.profit);
      }
    }
  }

  predicate VictimChecks(rs: seq<TxRecord>, pivot: TxPosition, i: nat, c: Case)
    requires i < |rs|
  {
    && c.attack == rs[i].position
    && (c.Triple? ==> Has(rs, c.profit) && Before(c.victim, c.profit))
    && !Before(LastOf(c), pivot)
  }

  lemma VictimTimes(rs: seq<TxRecord>, pivot: TxPosition, i: nat, j: nat, c: Case)
    requires Increasing(rs) && i < j < |rs|
    ensures Times(VictimCase(rs, pivot, i, j), c) ==
            if VictimChecks(rs, pivot, i, c) && Ordinary(rs[j]) && c.victim == rs[j].position then 1 else 0
  {
    ProfitTimes(rs, pivot, i, j, |rs|, c);
    TimesPlus(PairCase(rs, pivot, i, j), ProfitCases(rs, pivot, i, j, |rs|), c);
  }

  lemma {:induction false} VictimsTimes(rs: seq<TxRecord>, pivot: TxPosition, i: nat, hi: nat, c: Case)
    requires Increasing(rs) && i < hi <= |rs|
    ensures Times(VictimCases(rs, pivot, i, hi), c) ==
            if VictimChecks(rs, pivot, i, c) && HasIn(rs, i + 1, hi, c.victim) then 1 else 0
    decreases hi
  {
    if hi > i + 1 {
      var j: nat := hi - 1;
      VictimsTimes(rs, pivot, i, j, c);
      VictimTimes(rs, pivot, i, j, c);
      TimesPlus(VictimCases(rs, pivot, i, j), VictimCase(rs, pivot, i, j), c);
      HasMore(rs, i + 1, j, c.victim);
    }
  }

  lemma AttackTime(rs: seq<TxRecord>, pivot: TxPosition, i: nat, c: Case)
    requires Increasing(rs) && i < |rs|
    ensures Times(AttackCase(rs, pivot, i), c) ==
            if Ordinary(rs[i]) && c.attack == rs[i].position && Checks(rs, pivot, c) then 1 else 0
  {
    VictimsTimes(rs, pivot, i, |rs|, c);
    if Ordinary(rs[i]) && c.attack == rs[i].position {
      assert Has(rs, c.attack);
    }
  }

  lemma {:induction false} AttackTimes(rs: seq<TxRecord>, pivot: TxPosition, hi: nat, c: Case)
    requires Increasing(rs) && hi <= |rs|
    ensures Times(AttackCases(rs, pivot, hi), c) == if HasIn(rs, 0, hi, c.attack) && Checks(rs, pivot, c) then 1 else 0
    decreases hi
  {
    if hi > 0 {
      var i: nat := hi - 1;
      AttackTimes(rs, pivot, i, c);
      TimesPlus(AttackCases(rs, pivot, i), AttackCase(rs, pivot, i), c);
      AttackTime(rs, pivot, i, c);
      HasMore(rs, 0, i, c.attack);
    }
  }

  /** A window checks every ordered pair and triple it holds, if it is not before the pivot, and each once. */
  lemma WindowChecksOnce(rs: seq<TxRecord>, pivot: TxPosition, c: Case)
    requires Increasing(rs)
    ensures Times(AttackCases(rs, pivot, |rs|), c) == if Checks(rs, pivot, c) then 1 else 0
  {
    AttackTimes(rs, pivot, |rs|, c);
  }

  // ---- The schedule of windows ----

  /** The blocks from `b` on; records before `pivot` have been searched as last ones already. */
  datatype Opened = Opened(b: nat, pivot: nat)

  function Schedule(b: nat, pivot: nat, end: nat, window: nat, step: nat): seq<Opened>
    requires step >= 1
    decreases end - b
  {
    if b >= end then [] else [Opened(b, pivot)] + Schedule(b + step, b + window, end, window, step)
  }

  /** Where the `k`-th window starts. */
  function StartOf(from: nat, step: nat, k: nat): nat {
    from + k * step
  }

  /** Up to where the windows before the `k`-th have searched. */
  function SearchedTo(from: nat, window: nat, step: nat, k: nat): nat {
    if k == 0 then from else StartOf(from, step, k - 1) + window
  }

  lemma {:induction false} ScheduleFrom(b: nat, pivot: nat, end: nat, window: nat, step: nat, k: nat)
    requires step >= 1
    ensures var ws := Schedule(b, pivot, end, window, step);
            && (k < |ws| <==> StartOf(b, step, k) < end)
            && (k < |ws| ==> ws[k] == Opened(StartOf(b, step, k), if k == 0 then pivot else SearchedTo(b, window, step, k)))
    decreases k
  {
    if k > 0 {
      if b < end {
        ScheduleFrom(b + step, b + window, end, window, step, k - 1);
      }
      StartsFromNext(b, step, k);
      if k > 1 {
        StartsFromNext(b, step, k - 1);
      }
    }
  }

  lemma StartsFromNext(b: nat, step: nat, k: nat)
    requires k > 0
    ensures StartOf(b, step, k) == StartOf(b + step, step, k - 1) >= b
  {
    assert k * step == (k - 1) * step + step;
  }

  lemma StartsRise(from: nat, step: nat, i: nat, j: nat)
    requires step >= 1 && i < j
    ensures StartOf(from, step, i) < StartOf(from, step, j)
    decreases j
  {
    assert j * step == (j - 1) * step + step;
    if i < j - 1 {
      StartsRise(from, step, i, j - 1);
    }
  }

  predicate Opens(ws: seq<Opened>, b: nat) {
    exists k :: 0 <= k < |ws| && ws[k].b == b
  }

  /**
   The windows opened start at `from`, `from + step` and so on below the end, each once and in order,
   and each looks past what the one before it has searched.
   */
  lemma ScheduleExactly(from: nat, end: nat, window: nat, step: nat, b: nat)
    requires step >= 1
    ensures var ws := Schedule(from, from, end, window, step);
            && (Opens(ws, b) <==> b < end && exists k: nat :: b == StartOf(from, step, k))
            && (forall k: nat :: k < |ws| ==> ws[k] == Opened(StartOf(from, step, k), SearchedTo(from, window, step, k)))
            && forall i, j :: 0 <= i < j < |ws| ==> ws[i].b < ws[j].b
  {
    var ws := Schedule(from, from, end, window, step);
    forall k: nat | k < |ws| ensures ws[k] == Opened(StartOf(from, step, k), SearchedTo(from, window, step, k)) && ws[k].b < end {
      ScheduleFrom(from, from, end, window, step, k);
    }
    if k: nat :| b < end && b == StartOf(from, step, k) {
      ScheduleFrom(from, from, end, window, step, k);
      assert ws[k].b == b;
    }
    forall i, j | 0 <= i < j < |ws| ensures ws[i].b < ws[j].b {
      StartsRise(from, step, i, j);
    }
  }

  /** The blocks of the first and the last transaction lie in the window. */
  predicate Covers(o: Opened, window: nat, first: nat, last: nat) {
    o.b <= first && last < o.b + window
  }

  predicate Shared(ws: seq<Opened>, window: nat, first: nat, last: nat) {
    exists o :: o in ws && Covers(o, window, first, last)
  }

  /** The blocks `first` and `last` both lie in the `k`-th stretch of `window` blocks, for some `k` that starts below the end. */
  ghost predicate Together(from: nat, end: nat, window: nat, step: nat, first: nat, last: nat) {
    exists k: nat :: StartOf(from, step, k) < end && StartOf(from, step, k) <= first && last < StartOf(from, step, k) + window
  }

  lemma SharedIsTogether(from: nat, end: nat, window: nat, step: nat, first: nat, last: nat)
    requires step >= 1
    ensures Shared(Schedule(from, from, end, window, step), window, first, last) == Together(from, end, window, step, first, last)
  {
    var ws := Schedule(from, from, end, window, step);
    if o :| o in ws && Covers(o, window, first, last) {
      var k: nat :| k < |ws| && ws[k] == o;
      ScheduleFrom(from, from, end, window, step, k);
    }
    if k: nat :| StartOf(from, step, k) < end && StartOf(from, step, k) <= first && last < StartOf(from, step, k) + window {
      ScheduleFrom(from, from, end, window, step, k);
      assert ws[k] in ws;
    }
  }

  function Passes(ws: seq<Opened>, window: nat, first: nat, last: nat): nat {
    if ws == [] then 0
    else (if Covers(ws[0], window, first, last) && last >= ws[0].pivot then 1 else 0) + Passes(ws[1..], window, first, last)
  }

  lemma {:induction false} NonePasses(b: nat, pivot: nat, end: nat, window: nat, step: nat, first: nat, last: nat)
    requires step >= 1 && last < pivot && last < b + window
    ensures Passes(Schedule(b, pivot, end, window, step), window, first, last) == 0
    decreases end - b
  {
    if b < end {
      NonePasses(b + step, b + window, end, window, step, first, last);
    }
  }

  lemma {:induction false} TooEarly(b: nat, pivot: nat, end: nat, window: nat, step: nat, first: nat, last: nat)
    requires step >= 1 && first < b
    ensures !Shared(Schedule(b, pivot, end, window, step), window, first, last)
    ensures Passes(Schedule(b, pivot, end, window, step), window, first, last) == 0
    decreases end - b
  {
    if b < end {
      TooEarly(b + step, b + window, end, window, step, first, last);
    }
  }

  lemma FirstCatches(b: nat, pivot: nat, end: nat, window: nat, step: nat, first: nat, last: nat)
    requires step >= 1 && b < end && pivot <= last < b + window
    ensures var ws := Schedule(b, pivot, end, window, step);
            Passes(ws, window, first, last) == if Shared(ws, window, first, last) then 1 else 0
  {
    var next: nat, pivot': nat := b + step, b + window;
    if first < b {
      TooEarly(next, pivot', end, window, step, first, last);
    } else {
      NonePasses(next, pivot', end, window, step, first, last);
      assert Covers(Opened(b, pivot), window, first, last);
    }
  }

  lemma {:induction false} SchedulePasses(b: nat, pivot: nat, end: nat, window: nat, step: nat, first: nat, last: nat)
    requires step >= 1 && last >= pivot
    ensures var ws := Schedule(b, pivot, end, window, step);
            Passes(ws, window, first, last) == if Shared(ws, window, first, last) then 1 else 0
    decreases end - b
  {
    if b < end && last < b + window {
      FirstCatches(b, pivot, end, window, step, first, last);
    } else if b < end {
      SchedulePasses(b + step, b + window, end, window, step, first, last);
    }
  }

  /**
   For every range, window size and step: transactions from `first` to `last` that lie together in
   one of the stretches `from + k * step` up to `window` blocks further pass the gate in exactly one window, and others in none.
   */
  lemma ExactlyOneWindow(from: nat, end: nat, window: nat, step: nat, first: nat, last: nat)
    requires step >= 1 && first <= last
    ensures Passes(Schedule(from, from, end, window, step), window, first, last) ==
            if Together(from, end, window, step, first, last) then 1 else 0
  {
    if last < from {
      TooEarly(from, from, end, window, step, first, last);
    } else {
      SchedulePasses(from, from, end, window, step, first, last);
    }
    SharedIsTogether(from, end, window, step, first, last);
  }

  // ---- All windows together ----

  predicate OrdinaryAt(h: History, p: TxPosition) {
    p.txIndex < |h(p.blockNumber)| && Ordinary(h(p.blockNumber)[p.txIndex])
  }

  /** A pair or triple of ordinary transactions of the chain, in order. */
  predicate Candidate(h: History, c: Case) {
    && OrdinaryAt(h, c.attack) && OrdinaryAt(h, c.victim) && Before(c.attack, c.victim)
    && (c.Triple? ==> OrdinaryAt(h, c.profit) && Before(c.victim, c.profit))
  }

  /** The records of the blocks from `b` on, in order. */
  ghost predicate RecordsOf(h: History, b: nat, window: nat, rs: seq<TxRecord>) {
    Increasing(rs) && forall p :: Has(rs, p) <==> OrdinaryAt(h, p) && b <= p.blockNumber < b + window
  }

  /** Some block of the window has a record; every block the chain reports ends in its block reward record. */
  ghost predicate Occupied(h: History, b: nat, window: nat) {
    exists i: nat :: b <= i < b + window && h(i) != []
  }

  method OpenWindow(h: History, b: nat, window: nat) returns (rs: seq<TxRecord>)
    requires WellFormed(h) && Occupied(h, b, window)
    ensures RecordsOf(h, b, window, rs) && rs != []
  {
    var s := Session(b, BlocksFrom(h, b, window));
    rs := SliceTxRecords(s, TxPosition(b, 0), TxPosition(b + window, 0));
    ghost var at :| Lists(s, TxPosition(b, 0), TxPosition(b + window, 0), rs, at);
    SliceIsWindow(h, b, window, rs, at);
  }

  lemma SliceIsWindow(h: History, b: nat, window: nat, rs: seq<TxRecord>, at: seq<TxPosition>)
    requires WellFormed(h) && Occupied(h, b, window)
    requires Lists(Session(b, BlocksFrom(h, b, window)), TxPosition(b, 0), TxPosition(b + window, 0), rs, at)
    ensures RecordsOf(h, b, window, rs) && rs != []
  {
    var s := Session(b, BlocksFrom(h, b, window));
    forall k | 0 <= k < |at| ensures rs[k].position == at[k] && b <= at[k].blockNumber < b + window && rs[k] == h(at[k].blockNumber)[at[k].txIndex] && at[k].txIndex < |h(at[k].blockNumber)| {
      assert s.TryGetTxRecord(at[k]) == Some(rs[k]);
    }
    var i: nat :| b <= i < b + window && h(i) != [];
    assert s.blocks[i - b] == h(i) && Held(s, TxPosition(i, 0)) && TxPosition(i, 0) in at;
    forall p ensures Has(rs, p) <==> OrdinaryAt(h, p) && b <= p.blockNumber < b + window {
      if OrdinaryAt(h, p) && b <= p.blockNumber < b + window {
        assert s.blocks[p.blockNumber - b] == h(p.blockNumber);
        assert Held(s, p) && p in at;
      }
    }
  }

  /** What one window has to check of a case: a candidate it covers, whose last transaction the gate lets through. */
  ghost function Share(h: History, o: Opened, window: nat, c: Case): nat {
    if Candidate(h, c) && Covers(o, window, c.attack.blockNumber, LastOf(c).blockNumber) && LastOf(c).blockNumber >= o.pivot then 1 else 0
  }

  lemma WindowTimes(h: History, o: Opened, window: nat, rs: seq<TxRecord>, c: Case)
    requires RecordsOf(h, o.b, window, rs)
    ensures Times(AttackCases(rs, TxPosition(o.pivot, 0), |rs|), c) == Share(h, o, window, c)
  {
    WindowChecksOnce(rs, TxPosition(o.pivot, 0), c);
    if Candidate(h, c) && c.Triple? {
      PositionsOrdered(c.attack, c.victim, c.profit);
    }
  }

  /** Opens one window and searches it. */
  method SearchWindow(h: History, o: Opened, window: nat, checked: seq<Case>) returns (checked': seq<Case>)
    requires WellFormed(h) && Occupied(h, o.b, window)
    ensures forall c: Case :: Times(checked', c) == Times(checked, c) + Share(h, o, window, c)
  {
    var rs := OpenWindow(h, o.b, window);
    var cases := Search(rs, TxPosition(o.pivot, 0));
    forall c: Case ensures Times(checked + cases, c) == Times(checked, c) + Share(h, o, window, c) {
      TimesPlus(checked, cases, c);
      WindowTimes(h, o, window, rs, c);
    }
    checked' := checked + cases;
  }

  ghost function Shares(h: History, ws: seq<Opened>, window: nat, c: Case): nat {
    if ws == [] then 0 else Share(h, ws[0], window, c) + Shares(h, ws[1..], window, c)
  }

  lemma {:induction false} SharesArePasses(h: History, ws: seq<Opened>, window: nat, c: Case)
    ensures Shares(h, ws, window, c) ==
            if Candidate(h, c) then Passes(ws, window, c.attack.blockNumber, LastOf(c).blockNumber) else 0
  {
    if ws != [] {
      SharesArePasses(h, ws[1..], window, c);
    }
  }

  ghost predicate CheckedOnce(h: History, from: nat, end: nat, window: nat, step: nat, c: Case) {
    Candidate(h, c) && Together(from, end, window, step, c.attack.blockNumber, LastOf(c).blockNumber)
  }

  lemma SharesOnce(h: History, from: nat, end: nat, window: nat, step: nat, c: Case)
    requires step >= 1
    ensures Shares(h, Schedule(from, from, end, window, step), window, c) == if CheckedOnce(h, from, end, window, step, c) then 1 else 0
  {
    SharesArePasses(h, Schedule(from, from, end, window, step), window, c);
    if Candidate(h, c) {
      if c.Triple? {
        PositionsOrdered(c.attack, c.victim, c.profit);
      }
      ExactlyOneWindow(from, end, window, step, c.attack.blockNumber, LastOf(c).blockNumber);
    }
  }

  /**
   The sliding windows. Whatever the window size and step, a pair or triple of transactions that lie
   together in `window` blocks from some `from + k * step` on, below the end, is checked exactly once
   over all windows, and any other never.
   */
  method Collect(h: History, from: nat, end: nat, window: nat, step: nat) returns (checked: seq<Case>)
    requires WellFormed(h) && step >= 1 && forall b: nat :: from <= b < end ==> Occupied(h, b, window)
    ensures forall c: Case :: Times(checked, c) == if CheckedOnce(h, from, end, window, step, c) then 1 else 0
  {
    checked := [];
    var b: nat, searchPivot: nat := from, from;
    ghost var ws := Schedule(from, from, end, window, step);
    ghost var rest := ws;
    while b < end
      invariant rest == Schedule(b, searchPivot, end, window, step)
      invariant forall c: Case :: Times(checked, c) + Shares(h, rest, window, c) == Shares(h, ws, window, c)
      decreases end - b
    {
      checked := SearchWindow(h, Opened(b, searchPivot), window, checked);
      rest := rest[1..];
      searchPivot := b + window;
      b := b + step;
    }
    forall c: Case ensures Times(checked, c) == if CheckedOnce(h, from, end, window, step, c) then 1 else 0 {
      SharesOnce(h, from, end, window, step, c);
    }
  }
}
