/**
 Aligning the execution paths of a transaction with and without the attack, to find where they
 diverge and where the profits start to differ.
 */
module PathAlignment {
  import opened Chain
  import opened CallPositions
  import opened Profits

  /** A basic block, as far as the alignment looks at it; `id` tells the times a block is executed apart. */
  datatype Block = Block(id: nat, codeAddr: Address, headPC: nat, position: Position, tailPosition: Position)

  predicate BlocksEqual(b1: Block, b2: Block) {
    b1.codeAddr == b2.codeAddr && b1.headPC == b2.headPC && CallPositions.Order(b1.position, b2.position) == 0
  }

  type Getter = Block -> Option<seq<Profit>>

  /** The two paths, the profits inside a block of each, and whether the call a block ends in has reverted. */
  datatype Paths = Paths(
    path1: seq<Block>, path2: seq<Block>, inside1: Getter, inside2: Getter, reverts1: Block -> bool, reverts2: Block -> bool)

  // ---- Accumulating profits ----

  /** One path's share of updateProfits: `last` is the last block with profits, -1 if there is none. */
  datatype Fed = Fed(profits: seq<Profit>, local: seq<Profit>, last: int, updated: bool)

  function FeedBlock(b: Block, k: nat, inside: Getter, reverts: Block -> bool, f: Fed): Fed {
    var f1 := if reverts(b) then f.(updated := true, profits := []) else f;
    match inside(b)
    case Some(p) => Fed(f1.profits, AddAll(f1.local, p), k, true)
    case None => f1
  }

  function FeedPath(path: seq<Block>, inside: Getter, reverts: Block -> bool, i: nat, j: nat, f: Fed): Fed
    requires i <= j <= |path|
    decreases j
  {
    if i == j then f else FeedBlock(path[j - 1], j - 1, inside, reverts, FeedPath(path, inside, reverts, i, j - 1, f))
  }

  datatype State = State(
    profits1: seq<Profit>, profits2: seq<Profit>,
    diverge1: seq<int>, diverge2: seq<int>,
    differ1: seq<int>, differ2: seq<int>)

  const Initial := State([], [], [], [], [], [])

  function Recorded(differ: seq<int>, last: int): seq<int> {
    if last >= 0 then differ + [last] else differ
  }

  /** updateProfits: the blocks of a stretch of each path. */
  function Feed(p: Paths, st: State, i1: nat, j1: nat, i2: nat, j2: nat): (State, bool)
    requires i1 <= j1 <= |p.path1| && i2 <= j2 <= |p.path2|
  {
    var f1 := FeedPath(p.path1, p.inside1, p.reverts1, i1, j1, Fed(st.profits1, [], -1, false));
    var f2 := FeedPath(p.path2, p.inside2, p.reverts2, i2, j2, Fed(st.profits2, [], -1, false));
    var summed := st.(profits1 := AddAll(f1.profits, f1.local), profits2 := AddAll(f2.profits, f2.local));
    (if Profits.Order(f2.local, f1.local) == Some(0) then summed
     else summed.(differ1 := Recorded(st.differ1, f1.last), differ2 := Recorded(st.differ2, f2.last)),
     f1.updated || f2.updated)
  }

  predicate SameProfits(st: State) {
    Profits.Order(st.profits2, st.profits1) == Some(0)
  }

  // ---- Finding where the paths merge ----

  function FirstIn(path: seq<Block>, b: Block, i: nat): Option<nat>
    requires i <= |path|
    decreases |path| - i
  {
    if i == |path| then None else if BlocksEqual(b, path[i]) then Some(i) else FirstIn(path, b, i + 1)
  }

  /** The earliest block of the first path with an equal one ahead in the second path, and the earliest such. */
  function NextMerge(p: Paths, i1: nat, i2: nat): (r: Option<(nat, nat)>)
    requires i1 <= |p.path1| && i2 <= |p.path2|
    ensures r.Some? ==> i1 <= r.value.0 < |p.path1| && i2 <= r.value.1 < |p.path2|
    ensures r.Some? ==> BlocksEqual(p.path1[r.value.0], p.path2[r.value.1])
    decreases |p.path1| - i1
  {
    if i1 == |p.path1| then None
    else
      FirstInIs(p.path2, p.path1[i1], i2);
      match FirstIn(p.path2, p.path1[i1], i2)
      case Some(j2) => Some((i1, j2))
      case None => NextMerge(p, i1 + 1, i2)
  }

  lemma {:induction false} FirstInIs(path: seq<Block>, b: Block, i: nat)
    requires i <= |path|
    ensures match FirstIn(path, b, i)
            case Some(j) => i <= j < |path| && BlocksEqual(b, path[j]) && forall k :: i <= k < j ==> !BlocksEqual(b, path[k])
            case None => forall k :: i <= k < |path| ==> !BlocksEqual(b, path[k])
    decreases |path| - i
  {
    if i < |path| && !BlocksEqual(b, path[i]) {
      FirstInIs(path, b, i + 1);
    }
  }

  /** No block before the merge point has an equal one ahead, and the merge block has none before its partner. */
  lemma {:induction false} NextMergeFirst(p: Paths, i1: nat, i2: nat)
    requires i1 <= |p.path1| && i2 <= |p.path2|
    ensures match NextMerge(p, i1, i2)
            case Some((j1, j2)) =>
              && (forall k1, k2 :: i1 <= k1 < j1 && i2 <= k2 < |p.path2| ==> !BlocksEqual(p.path1[k1], p.path2[k2]))
              && (forall k2 :: i2 <= k2 < j2 ==> !BlocksEqual(p.path1[j1], p.path2[k2]))
            case None =>
              forall k1, k2 :: i1 <= k1 < |p.path1| && i2 <= k2 < |p.path2| ==> !BlocksEqual(p.path1[k1], p.path2[k2])
    decreases |p.path1| - i1
  {
    if i1 < |p.path1| {
      FirstInIs(p.path2, p.path1[i1], i2);
      if FirstIn(p.path2, p.path1[i1], i2) == None {
        NextMergeFirst(p, i1 + 1, i2);
      }
    }
  }

  // ---- The scan ----

  /** A stretch of the scan: equal blocks, two branches up to where they merge, or two branches to the ends. */
  datatype Stretch =
    | Together(i1: nat, i2: nat)
    | Branch(i1: nat, j1: nat, i2: nat, j2: nat)
    | Apart(i1: nat, i2: nat)

  /** What the scan returns, and the stretches it went through. */
  datatype Outcome = Outcome(indices1: seq<int>, indices2: seq<int>, divergePoint: bool, stretches: seq<Stretch>)

  function Diverged(st: State, i1: nat, i2: nat): State {
    st.(diverge1 := st.diverge1 + [i1 - 1], diverge2 := st.diverge2 + [i2 - 1])
  }

  function After(s: Stretch, o: Outcome): Outcome {
    o.(stretches := [s] + o.stretches)
  }

  /** One turn of the scan: it is over, or it goes on from further ahead. */
  datatype Move = Done(o: Outcome) | Go(s: Stretch, j1: nat, j2: nat, st: State)

  function Turn(p: Paths, i1: nat, i2: nat, st: State): (m: Move)
    requires i1 <= |p.path1| && i2 <= |p.path2|
    ensures m.Go? ==> i1 <= m.j1 <= |p.path1| && i2 <= m.j2 <= |p.path2| && i1 + i2 < m.j1 + m.j2
  {
    if i1 == |p.path1| || i2 == |p.path2| then Done(Outcome(st.differ1, st.differ2, false, []))
    else if BlocksEqual(p.path1[i1], p.path2[i2]) then
      Go(Together(i1, i2), i1 + 1, i2 + 1, Feed(p, st, i1, i1 + 1, i2, i2 + 1).0)
    else match NextMerge(p, i1, i2)
      case Some((j1, j2)) =>
        var (fed, updated) := Feed(p, Diverged(st, i1, i2), i1, j1, i2, j2);
        if updated && !SameProfits(fed) then Done(Outcome(fed.diverge1, fed.diverge2, true, [Branch(i1, j1, i2, j2)]))
        else Go(Branch(i1, j1, i2, j2), j1, j2, fed)
      case None =>
        var (fed, updated) := Feed(p, Diverged(st, i1, i2), i1, |p.path1|, i2, |p.path2|);
        if updated then Done(Outcome(fed.diverge1, fed.diverge2, true, [Apart(i1, i2)]))
        else Done(Outcome(fed.differ1, fed.differ2, false, [Apart(i1, i2)]))
  }

  /** The merge point after unequal blocks is further on in one path or the other, so the scan ends. */
  function Scan(p: Paths, i1: nat, i2: nat, st: State): Outcome
    requires i1 <= |p.path1| && i2 <= |p.path2|
    decreases |p.path1| - i1 + |p.path2| - i2
  {
    match Turn(p, i1, i2, st)
    case Done(o) => o
    case Go(s, j1, j2, st') => After(s, Scan(p, j1, j2, st'))
  }

  // ---- The scan as loops ----

  method FeedLoop(path: seq<Block>, inside: Getter, reverts: Block -> bool, i: nat, j: nat, before: seq<Profit>)
    returns (f: Fed)
    requires i <= j <= |path|
    ensures f == FeedPath(path, inside, reverts, i, j, Fed(before, [], -1, false))
  {
    f := Fed(before, [], -1, false);
    for k := i to j
      invariant f == FeedPath(path, inside, reverts, i, k, Fed(before, [], -1, false))
    {
      if reverts(path[k]) {
        f := f.(updated := true, profits := []);
      }
      match inside(path[k]) {
        case Some(p) =>
          var local := Add(f.local, p);
          f := Fed(f.profits, local, k, true);
        case None =>
      }
    }
  }

  method UpdateProfits(p: Paths, st: State, i1: nat, j1: nat, i2: nat, j2: nat) returns (st': State, updated: bool)
    requires i1 <= j1 <= |p.path1| && i2 <= j2 <= |p.path2|
    ensures (st', updated) == Feed(p, st, i1, j1, i2, j2)
  {
    var f1 := FeedLoop(p.path1, p.inside1, p.reverts1, i1, j1, st.profits1);
    var f2 := FeedLoop(p.path2, p.inside2, p.reverts2, i2, j2, st.profits2);
    var sum1 := Add(f1.profits, f1.local);
    var sum2 := Add(f2.profits, f2.local);
    st', updated := st.(profits1 := sum1, profits2 := sum2), f1.updated || f2.updated;
    var cmp := Profits.Cmp(f2.local, f1.local);
    if cmp != Some(0) {
      if f1.last >= 0 {
        st' := st'.(differ1 := st'.differ1 + [f1.last]);
      }
      if f2.last >= 0 {
        st' := st'.(differ2 := st'.differ2 + [f2.last]);
      }
    }
  }

  /** The two inner loops. */
  method FindMerge(p: Paths, i1: nat, i2: nat) returns (r: Option<(nat, nat)>)
    requires i1 <= |p.path1| && i2 <= |p.path2|
    ensures r == NextMerge(p, i1, i2)
  {
    for j1 := i1 to |p.path1|
      invariant NextMerge(p, j1, i2) == NextMerge(p, i1, i2)
    {
      for j2 := i2 to |p.path2|
        invariant FirstIn(p.path2, p.path1[j1], j2) == FirstIn(p.path2, p.path1[j1], i2)
      {
        if BlocksEqual(p.path1[j1], p.path2[j2]) {
          return Some((j1, j2));
        }
      }
    }
    r := None;
  }

  function Answer(o: Outcome): (seq<int>, seq<int>, bool) {
    (o.indices1, o.indices2, o.divergePoint)
  }

  /** The part of the loop body for unequal blocks: either the scan is over, or it goes on at the merge point. */
  method Diverge(p: Paths, st: State, i1: nat, i2: nat)
    returns (st': State, next: Option<(nat, nat)>, answer: (seq<int>, seq<int>, bool))
    requires i1 < |p.path1| && i2 < |p.path2| && !BlocksEqual(p.path1[i1], p.path2[i2])
    ensures var m := Turn(p, i1, i2, st);
            if m.Done? then next == None && answer == Answer(m.o) else next == Some((m.j1, m.j2)) && st' == m.st
  {
    st' := st.(diverge1 := st.diverge1 + [i1 - 1], diverge2 := st.diverge2 + [i2 - 1]);
    next := FindMerge(p, i1, i2);
    var updated;
    match next {
      case Some((j1, j2)) =>
        st', updated := UpdateProfits(p, st', i1, j1, i2, j2);
        var cmp := Profits.Cmp(st'.profits2, st'.profits1);
        answer := (st'.diverge1, st'.diverge2, true);
        if updated && cmp != Some(0) {
          next := None;
        }
      case None =>
        st', updated := UpdateProfits(p, st', i1, |p.path1|, i2, |p.path2|);
        answer := if updated then (st'.diverge1, st'.diverge2, true) else (st'.differ1, st'.differ2, false);
    }
  }

  /** The loop body. */
  method TakeTurn(p: Paths, st: State, i1: nat, i2: nat)
    returns (st': State, next: Option<(nat, nat)>, answer: (seq<int>, seq<int>, bool))
    requires i1 < |p.path1| && i2 < |p.path2|
    ensures var m := Turn(p, i1, i2, st);
            if m.Done? then next == None && answer == Answer(m.o) else next == Some((m.j1, m.j2)) && st' == m.st
  {
    if BlocksEqual(p.path1[i1], p.path2[i2]) {
      var ignored;
      st', ignored := UpdateProfits(p, st, i1, i1 + 1, i2, i2 + 1);
      next, answer := Some((i1 + 1, i2 + 1)), ([], [], false);
    } else {
      st', next, answer := Diverge(p, st, i1, i2);
    }
  }

  /** The scan ends because the sum of its two counters grows. */
  method LocateConsequencePoint(p: Paths) returns (path1Indices: seq<int>, path2Indices: seq<int>, divergePoint: bool)
    ensures (path1Indices, path2Indices, divergePoint) == Answer(Scan(p, 0, 0, Initial))
  {
    var st := Initial;
    var i1, i2 := 0, 0;
    while i1 < |p.path1| && i2 < |p.path2|
      invariant 0 <= i1 <= |p.path1| && 0 <= i2 <= |p.path2|
      invariant Answer(Scan(p, i1, i2, st)) == Answer(Scan(p, 0, 0, Initial))
      decreases |p.path1| - i1 + |p.path2| - i2
    {
      var next, answer;
      st, next, answer := TakeTurn(p, st, i1, i2);
      if next == None {
        return answer.0, answer.1, answer.2;
      }
      i1, i2 := next.value.0, next.value.1;
    }
    return st.differ1, st.differ2, false;
  }

  // ---- What the scan does ----

  function Ends1(s: Stretch, p: Paths): int {
    match s
    case Together(i1, _) => i1 + 1
    case Branch(_, j1, _, _) => j1
    case Apart(_, _) => |p.path1|
  }

  function Ends2(s: Stretch, p: Paths): int {
    match s
    case Together(_, i2) => i2 + 1
    case Branch(_, _, _, j2) => j2
    case Apart(_, _) => |p.path2|
  }

  /** Each stretch starts where the one before it ended, in both paths, and is what its kind says. */
  predicate Contiguous(p: Paths, ss: seq<Stretch>, i1: int, i2: int) {
    ss == [] ||
    (&& ss[0].i1 == i1 && ss[0].i2 == i2
     && i1 <= Ends1(ss[0], p) <= |p.path1| && i2 <= Ends2(ss[0], p) <= |p.path2|
     && Proper(p, ss[0])
     && Contiguous(p, ss[1..], Ends1(ss[0], p), Ends2(ss[0], p)))
  }

  /** Equal blocks together; branches that start with unequal blocks and end where equal blocks follow. */
  predicate Proper(p: Paths, s: Stretch) {
    && s.i1 < |p.path1| && s.i2 < |p.path2|
    && (s.Together? <==> BlocksEqual(p.path1[s.i1], p.path2[s.i2]))
    && (s.Branch? ==> s.j1 < |p.path1| && s.j2 < |p.path2| && BlocksEqual(p.path1[s.j1], p.path2[s.j2]))
  }

  /** The stretch of a turn starts where the scan is and ends where it goes on, or with it. */
  lemma TurnIs(p: Paths, i1: nat, i2: nat, st: State)
    requires i1 <= |p.path1| && i2 <= |p.path2|
    ensures var m := Turn(p, i1, i2, st);
            if m.Done? then Contiguous(p, m.o.stretches, i1, i2)
            else m.s.i1 == i1 && m.s.i2 == i2 && Proper(p, m.s) && Ends1(m.s, p) == m.j1 && Ends2(m.s, p) == m.j2
  {
  }

  lemma {:induction false} ScanContiguous(p: Paths, i1: nat, i2: nat, st: State)
    requires i1 <= |p.path1| && i2 <= |p.path2|
    ensures Contiguous(p, Scan(p, i1, i2, st).stretches, i1, i2)
    decreases |p.path1| - i1 + |p.path2| - i2
  {
    TurnIs(p, i1, i2, st);
    match Turn(p, i1, i2, st) {
      case Done(_) =>
      case Go(s, j1, j2, st') =>
        ScanContiguous(p, j1, j2, st');
        assert Scan(p, i1, i2, st).stretches[1..] == Scan(p, j1, j2, st').stretches;
    }
  }

  // ---- Every block is fed once ----

  /** How often the stretches feed the `k`-th block of the first path. */
  function Times1(p: Paths, ss: seq<Stretch>, k: int): nat {
    if ss == [] then 0 else (if ss[0].i1 <= k < Ends1(ss[0], p) then 1 else 0) + Times1(p, ss[1..], k)
  }

  function Times2(p: Paths, ss: seq<Stretch>, k: int): nat {
    if ss == [] then 0 else (if ss[0].i2 <= k < Ends2(ss[0], p) then 1 else 0) + Times2(p, ss[1..], k)
  }

  function End1(p: Paths, ss: seq<Stretch>, i1: int): int {
    if ss == [] then i1 else Ends1(ss[|ss| - 1], p)
  }

  function End2(p: Paths, ss: seq<Stretch>, i2: int): int {
    if ss == [] then i2 else Ends2(ss[|ss| - 1], p)
  }

  lemma {:induction false} ContiguousFeedsOnce(p: Paths, ss: seq<Stretch>, i1: int, i2: int, k: int)
    requires Contiguous(p, ss, i1, i2)
    ensures Times1(p, ss, k) == if i1 <= k < End1(p, ss, i1) then 1 else 0
    ensures Times2(p, ss, k) == if i2 <= k < End2(p, ss, i2) then 1 else 0
    ensures i1 <= End1(p, ss, i1) && i2 <= End2(p, ss, i2)
  {
    if ss != [] {
      ContiguousFeedsOnce(p, ss[1..], Ends1(ss[0], p), Ends2(ss[0], p), k);
    }
  }

  /** The profits of every block before the end of the scan are counted once, and of no block after it. */
  lemma ScanFeedsOnce(p: Paths, k: int)
    ensures var ss := Scan(p, 0, 0, Initial).stretches;
            && Times1(p, ss, k) == (if 0 <= k < End1(p, ss, 0) then 1 else 0)
            && Times2(p, ss, k) == (if 0 <= k < End2(p, ss, 0) then 1 else 0)
  {
    ScanContiguous(p, 0, 0, Initial);
    ContiguousFeedsOnce(p, Scan(p, 0, 0, Initial).stretches, 0, 0, k);
  }

  // ---- The matched blocks ----

  function Matched(ss: seq<Stretch>): seq<(int, int)> {
    if ss == [] then []
    else (if ss[0].Together? then [(ss[0].i1, ss[0].i2)] else []) + Matched(ss[1..])
  }

  /** Pairs from `i1` and `i2` on, each further on in both paths than the one before. */
  predicate Rising(ps: seq<(int, int)>, i1: int, i2: int) {
    && (forall k :: 0 <= k < |ps| ==> i1 <= ps[k].0 && i2 <= ps[k].1)
    && (forall k, m :: 0 <= k < m < |ps| ==> ps[k].0 < ps[m].0 && ps[k].1 < ps[m].1)
  }

  predicate AllEqual(p: Paths, ps: seq<(int, int)>) {
    forall k :: 0 <= k < |ps| ==>
      0 <= ps[k].0 < |p.path1| && 0 <= ps[k].1 < |p.path2| && BlocksEqual(p.path1[ps[k].0], p.path2[ps[k].1])
  }

  lemma {:induction false} ContiguousMatches(p: Paths, ss: seq<Stretch>, i1: int, i2: int)
    requires Contiguous(p, ss, i1, i2)
    ensures Rising(Matched(ss), i1, i2) && AllEqual(p, Matched(ss))
  {
    if ss != [] {
      ContiguousMatches(p, ss[1..], Ends1(ss[0], p), Ends2(ss[0], p));
    }
  }

  /** The blocks taken as equal are a common subsequence of the two paths. */
  lemma ScanMatches(p: Paths)
    ensures var ps := Matched(Scan(p, 0, 0, Initial).stretches); Rising(ps, 0, 0) && AllEqual(p, ps)
  {
    ScanContiguous(p, 0, 0, Initial);
    ContiguousMatches(p, Scan(p, 0, 0, Initial).stretches, 0, 0);
  }

  // ---- The divergence points ----

  /** The blocks before the branches. */
  function Diverges1(ss: seq<Stretch>): seq<int> {
    if ss == [] then [] else (if ss[0].Together? then [] else [ss[0].i1 - 1]) + Diverges1(ss[1..])
  }

  function Diverges2(ss: seq<Stretch>): seq<int> {
    if ss == [] then [] else (if ss[0].Together? then [] else [ss[0].i2 - 1]) + Diverges2(ss[1..])
  }

  /** What a stretch adds to the divergences. */
  function DivergeOf(s: Stretch, i: nat): seq<int> {
    if s.Together? then [] else [i - 1]
  }

  lemma DivergesOfOne(s: Stretch)
    ensures Diverges1([s]) == DivergeOf(s, s.i1) && Diverges2([s]) == DivergeOf(s, s.i2)
  {
    assert [s][1..] == [];
  }

  lemma TurnReports(p: Paths, i1: nat, i2: nat, st: State)
    requires i1 < |p.path1| && i2 < |p.path2|
    ensures var m := Turn(p, i1, i2, st);
            if m.Go? then m.st.diverge1 == st.diverge1 + DivergeOf(m.s, i1) && m.st.diverge2 == st.diverge2 + DivergeOf(m.s, i2)
            else
              && |m.o.stretches| == 1 && !m.o.stretches[0].Together?
              && m.o.stretches[0].i1 == i1 && m.o.stretches[0].i2 == i2
              && (m.o.divergePoint ==> m.o.indices1 == st.diverge1 + [i1 - 1] && m.o.indices2 == st.diverge2 + [i2 - 1])
  {
  }

  /** An outcome that reports, on top of `d1` and `d2`, all the divergences of its stretches. */
  predicate Reports(o: Outcome, d1: seq<int>, d2: seq<int>) {
    o.divergePoint ==> o.indices1 == d1 + Diverges1(o.stretches) && o.indices2 == d2 + Diverges2(o.stretches)
  }

  lemma Joined(a: seq<int>, b: seq<int>, c: seq<int>)
    ensures (a + b) + c == a + (b + c)
  {
  }

  lemma AfterReports(s: Stretch, o: Outcome, d1: seq<int>, d2: seq<int>)
    requires Reports(o, d1 + DivergeOf(s, s.i1), d2 + DivergeOf(s, s.i2))
    ensures Reports(After(s, o), d1, d2)
  {
    assert ([s] + o.stretches)[1..] == o.stretches;
    Joined(d1, DivergeOf(s, s.i1), Diverges1(o.stretches));
    Joined(d2, DivergeOf(s, s.i2), Diverges2(o.stretches));
  }

  lemma DoneReports(p: Paths, i1: nat, i2: nat, st: State)
    requires i1 <= |p.path1| && i2 <= |p.path2| && Turn(p, i1, i2, st).Done?
    ensures Reports(Turn(p, i1, i2, st).o, st.diverge1, st.diverge2)
  {
    if i1 < |p.path1| && i2 < |p.path2| {
      TurnReports(p, i1, i2, st);
      var o := Turn(p, i1, i2, st).o;
      DivergesOfOne(o.stretches[0]);
      assert o.stretches == [o.stretches[0]];
    }
  }

  /** A scan that reports a divergence point reports all the divergences it went through. */
  lemma {:induction false} ScanReports(p: Paths, i1: nat, i2: nat, st: State)
    requires i1 <= |p.path1| && i2 <= |p.path2|
    ensures Reports(Scan(p, i1, i2, st), st.diverge1, st.diverge2)
    decreases |p.path1| - i1 + |p.path2| - i2
  {
    var m := Turn(p, i1, i2, st);
    if m.Done? {
      DoneReports(p, i1, i2, st);
    } else {
      TurnReports(p, i1, i2, st);
      TurnIs(p, i1, i2, st);
      ScanReports(p, m.j1, m.j2, m.st);
      AfterReports(m.s, Scan(p, m.j1, m.j2, m.st), st.diverge1, st.diverge2);
    }
  }

  predicate EqualAt(p: Paths, k1: int, k2: int) {
    0 <= k1 < |p.path1| && 0 <= k2 < |p.path2| && BlocksEqual(p.path1[k1], p.path2[k2])
  }

  /** Equal blocks whose successors are there and differ. */
  predicate DivergeAt(p: Paths, k1: int, k2: int) {
    && EqualAt(p, k1, k2) && k1 + 1 < |p.path1| && k2 + 1 < |p.path2|
    && !BlocksEqual(p.path1[k1 + 1], p.path2[k2 + 1])
  }

  predicate AllDiverge(p: Paths, d1: seq<int>, d2: seq<int>) {
    && |d1| == |d2|
    && (d1 == [] || (DivergeAt(p, d1[0], d2[0]) && AllDiverge(p, d1[1..], d2[1..])))
  }

  /** From `i1` and `i2` on, each pair further on in both paths than the one before. */
  predicate Rises(d1: seq<int>, d2: seq<int>, i1: int, i2: int) {
    && |d1| == |d2|
    && (d1 == [] || (i1 <= d1[0] && i2 <= d2[0] && Rises(d1[1..], d2[1..], d1[0] + 1, d2[0] + 1)))
  }

  /** The scan ends with a stretch that runs to both ends: nothing equal could follow it. */
  lemma ApartIsLast(p: Paths, ss: seq<Stretch>, i1: int, i2: int)
    requires Contiguous(p, ss, i1, i2) && ss != [] && ss[0].Apart?
    ensures ss[1..] == []
  {
  }

  lemma DivergesOfFirst(ss: seq<Stretch>)
    requires ss != []
    ensures if ss[0].Together? then Diverges1(ss) == Diverges1(ss[1..]) && Diverges2(ss) == Diverges2(ss[1..])
            else
              && Diverges1(ss) != [] && Diverges1(ss)[0] == ss[0].i1 - 1 && Diverges1(ss)[1..] == Diverges1(ss[1..])
              && Diverges2(ss) != [] && Diverges2(ss)[0] == ss[0].i2 - 1 && Diverges2(ss)[1..] == Diverges2(ss[1..])
  {
  }

  /** A diverging stretch starts right after equal blocks, if the scan started at or after such. */
  lemma {:induction false} StretchesDiverge(p: Paths, ss: seq<Stretch>, i1: int, i2: int)
    requires Contiguous(p, ss, i1, i2) && (EqualAt(p, i1, i2) || EqualAt(p, i1 - 1, i2 - 1))
    ensures AllDiverge(p, Diverges1(ss), Diverges2(ss))
  {
    if ss != [] {
      var e1, e2 := Ends1(ss[0], p), Ends2(ss[0], p);
      if ss[0].Apart? {
        ApartIsLast(p, ss, i1, i2);
      } else {
        StretchesDiverge(p, ss[1..], e1, e2);
      }
      DivergesOfFirst(ss);
    }
  }

  lemma {:induction false} StretchesRise(p: Paths, ss: seq<Stretch>, i1: int, i2: int)
    requires Contiguous(p, ss, i1, i2)
    ensures var d := if EqualAt(p, i1, i2) then 0 else 1; Rises(Diverges1(ss), Diverges2(ss), i1 - d, i2 - d)
  {
    if ss != [] {
      var e1, e2 := Ends1(ss[0], p), Ends2(ss[0], p);
      if ss[0].Apart? {
        ApartIsLast(p, ss, i1, i2);
      } else {
        StretchesRise(p, ss[1..], e1, e2);
      }
      DivergesOfFirst(ss);
    }
  }

  /**
   When the paths start with equal blocks, every divergence reported is a pair of equal blocks with
   unequal successors, each further on in both paths than the one before.
   */
  lemma DivergencesReported(p: Paths)
    requires EqualAt(p, 0, 0) && Scan(p, 0, 0, Initial).divergePoint
    ensures var o := Scan(p, 0, 0, Initial);
            Rises(o.indices1, o.indices2, 0, 0) && AllDiverge(p, o.indices1, o.indices2)
  {
    var o := Scan(p, 0, 0, Initial);
    ScanReports(p, 0, 0, Initial);
    assert [] + Diverges1(o.stretches) == Diverges1(o.stretches) && [] + Diverges2(o.stretches) == Diverges2(o.stretches);
    ScanContiguous(p, 0, 0, Initial);
    StretchesDiverge(p, o.stretches, 0, 0);
    StretchesRise(p, o.stretches, 0, 0);
  }

  // ---- What the profits come to, and what is made of them ----

  /** No block lists a ZeroProfit, as transfers make none. */
  ghost predicate Plain(inside: Getter) {
    forall b: Block :: inside(b).Some? ==> forall q :: q in inside(b).value ==> !q.ZeroProfit?
  }

  ghost predicate AllPlain(p: Paths) {
    Plain(p.inside1) && Plain(p.inside2)
  }

  /** What the blocks of a stretch earn of an asset. */
  function Earned(path: seq<Block>, inside: Getter, i: nat, j: nat, k: Key): int
    requires i <= j <= |path|
    decreases j
  {
    if i == j then 0
    else Earned(path, inside, i, j - 1, k) +
         match inside(path[j - 1]) case Some(ps) => Net(ps, k) case None => 0
  }

  predicate AnyReverts(path: seq<Block>, reverts: Block -> bool, i: nat, j: nat)
    requires i <= j <= |path|
  {
    exists m :: i <= m < j && reverts(path[m])
  }

  /** Reverting forgets what came before the stretch, not what the stretch itself has earned by then. */
  lemma {:induction false} FedNet(path: seq<Block>, inside: Getter, reverts: Block -> bool, i: nat, j: nat, f: Fed, k: Key)
    requires i <= j <= |path| && !k.ERC721Of?
    ensures var g := FeedPath(path, inside, reverts, i, j, f);
            && Net(g.local, k) == Net(f.local, k) + Earned(path, inside, i, j, k)
            && Net(g.profits, k) == if AnyReverts(path, reverts, i, j) then 0 else Net(f.profits, k)
    decreases j
  {
    if i < j {
      FedNet(path, inside, reverts, i, j - 1, f, k);
      var g := FeedPath(path, inside, reverts, i, j - 1, f);
      match inside(path[j - 1]) {
        case Some(ps) => AddNet(g.local, ps, k);
        case None =>
      }
      if m :| i <= m < j && reverts(path[m]) && m != j - 1 {
        assert i <= m < j - 1;
      }
    }
  }

  /** After a stretch each path's profits are those before it, unless it reverts, and what its blocks earn. */
  lemma FeedNet(p: Paths, st: State, i1: nat, j1: nat, i2: nat, j2: nat, k: Key)
    requires i1 <= j1 <= |p.path1| && i2 <= j2 <= |p.path2| && !k.ERC721Of?
    ensures var fed := Feed(p, st, i1, j1, i2, j2).0;
            && Net(fed.profits1, k) ==
               (if AnyReverts(p.path1, p.reverts1, i1, j1) then 0 else Net(st.profits1, k)) + Earned(p.path1, p.inside1, i1, j1, k)
            && Net(fed.profits2, k) ==
               (if AnyReverts(p.path2, p.reverts2, i2, j2) then 0 else Net(st.profits2, k)) + Earned(p.path2, p.inside2, i2, j2, k)
  {
    var before1, before2 := Fed(st.profits1, [], -1, false), Fed(st.profits2, [], -1, false);
    FedNet(p.path1, p.inside1, p.reverts1, i1, j1, before1, k);
    FedNet(p.path2, p.inside2, p.reverts2, i2, j2, before2, k);
    var f1 := FeedPath(p.path1, p.inside1, p.reverts1, i1, j1, before1);
    var f2 := FeedPath(p.path2, p.inside2, p.reverts2, i2, j2, before2);
    AddNet(f1.profits, f1.local, k);
    AddNet(f2.profits, f2.local, k);
  }

  /** No asset is listed twice in what has been accumulated. */
  predicate ProperState(st: State) {
    Profits.Proper(st.profits1) && Profits.Proper(st.profits2)
  }

  lemma {:induction false} FedProper(path: seq<Block>, inside: Getter, reverts: Block -> bool, i: nat, j: nat, f: Fed)
    requires i <= j <= |path| && Plain(inside) && Profits.Proper(f.profits) && Profits.Proper(f.local)
    ensures var g := FeedPath(path, inside, reverts, i, j, f); Profits.Proper(g.profits) && Profits.Proper(g.local)
    decreases j
  {
    if i < j {
      FedProper(path, inside, reverts, i, j - 1, f);
      match inside(path[j - 1]) {
        case Some(ps) => AddProper(FeedPath(path, inside, reverts, i, j - 1, f).local, ps);
        case None =>
      }
    }
  }

  lemma SumProper(ps: seq<Profit>, es: seq<Profit>)
    requires Profits.Proper(ps) && Profits.Proper(es)
    ensures Profits.Proper(AddAll(ps, es))
  {
    forall e | e in es ensures !e.ZeroProfit? {
      var i :| 0 <= i < |es| && es[i] == e;
      NetAt(es, i);
    }
    AddProper(ps, es);
  }

  lemma FeedProper(p: Paths, st: State, i1: nat, j1: nat, i2: nat, j2: nat)
    requires i1 <= j1 <= |p.path1| && i2 <= j2 <= |p.path2| && AllPlain(p) && ProperState(st)
    ensures ProperState(Feed(p, st, i1, j1, i2, j2).0)
  {
    var before1, before2 := Fed(st.profits1, [], -1, false), Fed(st.profits2, [], -1, false);
    FedProper(p.path1, p.inside1, p.reverts1, i1, j1, before1);
    FedProper(p.path2, p.inside2, p.reverts2, i2, j2, before2);
    var f1 := FeedPath(p.path1, p.inside1, p.reverts1, i1, j1, before1);
    var f2 := FeedPath(p.path2, p.inside2, p.reverts2, i2, j2, before2);
    SumProper(f1.profits, f1.local);
    SumProper(f2.profits, f2.local);
  }

  /** The lists come to different quantities of some asset of some account. */
  ghost predicate NetsDiffer(a: seq<Profit>, b: seq<Profit>) {
    exists k :: Net(a, k) != Net(b, k)
  }

  /** Some account has profited differently of some asset. */
  ghost predicate ProfitsDiffer(st: State) {
    NetsDiffer(st.profits1, st.profits2)
  }

  /** Lists without duplicates compare as equal exactly when they come to the same of every asset. */
  lemma ComparesEqual(a: seq<Profit>, b: seq<Profit>)
    requires Profits.Proper(a) && Profits.Proper(b)
    ensures (Profits.Order(b, a) == Some(0)) == !NetsDiffer(a, b)
  {
    OrderMeans(b, a, 0);
    if Uniform(b, a, 0) {
      forall k ensures Net(a, k) == Net(b, k) {
        assert Sign(Net(b, k) - Net(a, k)) in {0, 0};
      }
    }
  }

  lemma SameProfitsMeans(st: State)
    requires ProperState(st)
    ensures SameProfits(st) <==> !ProfitsDiffer(st)
  {
    ComparesEqual(st.profits1, st.profits2);
  }

  function StretchFed(p: Paths, st: State, s: Stretch, i1: nat, i2: nat): (State, bool)
    requires s.i1 == i1 && s.i2 == i2 && i1 <= Ends1(s, p) <= |p.path1| && i2 <= Ends2(s, p) <= |p.path2|
  {
    Feed(p, if s.Together? then st else Diverged(st, i1, i2), i1, Ends1(s, p), i2, Ends2(s, p))
  }

  /** What has been accumulated before the `n`-th of the stretches, from `st` on. */
  function StateAt(p: Paths, ss: seq<Stretch>, i1: nat, i2: nat, st: State, n: nat): State
    requires Contiguous(p, ss, i1, i2) && n <= |ss|
    decreases n
  {
    if n == 0 then st
    else StateAt(p, ss[1..], Ends1(ss[0], p), Ends2(ss[0], p), StretchFed(p, st, ss[0], i1, i2).0, n - 1)
  }

  /** The scan stops after the `n`-th stretch to report a divergence. */
  predicate StopsAt(o: Outcome, n: nat) {
    o.divergePoint && n + 1 == |o.stretches|
  }

  predicate Stirs(b: Block, inside: Getter, reverts: Block -> bool) {
    reverts(b) || inside(b).Some?
  }

  predicate AnyStirs(path: seq<Block>, inside: Getter, reverts: Block -> bool, i: int, j: int)
    requires 0 <= i <= j <= |path|
  {
    exists m :: i <= m < j && Stirs(path[m], inside, reverts)
  }

  lemma {:induction false} FedUpdated(path: seq<Block>, inside: Getter, reverts: Block -> bool, i: nat, j: nat, f: Fed)
    requires i <= j <= |path|
    ensures FeedPath(path, inside, reverts, i, j, f).updated <==> f.updated || AnyStirs(path, inside, reverts, i, j)
    decreases j
  {
    if i < j {
      FedUpdated(path, inside, reverts, i, j - 1, f);
      if m :| i <= m < j && Stirs(path[m], inside, reverts) && m != j - 1 {
        assert i <= m < j - 1;
      }
    }
  }

  /** Some block of the stretch, in either path, has profits or reverts. */
  predicate Active(p: Paths, s: Stretch)
    requires 0 <= s.i1 <= Ends1(s, p) <= |p.path1| && 0 <= s.i2 <= Ends2(s, p) <= |p.path2|
  {
    || AnyStirs(p.path1, p.inside1, p.reverts1, s.i1, Ends1(s, p))
    || AnyStirs(p.path2, p.inside2, p.reverts2, s.i2, Ends2(s, p))
  }

  lemma {:induction false} StretchWithin(p: Paths, ss: seq<Stretch>, i1: nat, i2: nat, n: nat)
    requires Contiguous(p, ss, i1, i2) && n < |ss|
    ensures 0 <= ss[n].i1 <= Ends1(ss[n], p) <= |p.path1| && 0 <= ss[n].i2 <= Ends2(ss[n], p) <= |p.path2|
    decreases n
  {
    if n > 0 {
      StretchWithin(p, ss[1..], Ends1(ss[0], p), Ends2(ss[0], p), n - 1);
    }
  }

  /** What makes the scan stop after a stretch: branches whose profits differ, or that never merge and have any. */
  ghost predicate Decisive(p: Paths, ss: seq<Stretch>, i1: nat, i2: nat, st: State, n: nat)
    requires Contiguous(p, ss, i1, i2) && n < |ss|
  {
    StretchWithin(p, ss, i1, i2, n);
    && !ss[n].Together? && Active(p, ss[n])
    && (ss[n].Branch? ==> ProfitsDiffer(StateAt(p, ss, i1, i2, st, n + 1)))
  }

  lemma DecisiveFirst(p: Paths, ss: seq<Stretch>, i1: nat, i2: nat, st: State)
    requires Contiguous(p, ss, i1, i2) && ss != []
    ensures var s := ss[0];
            Decisive(p, ss, i1, i2, st, 0) <==>
            !s.Together? && Active(p, s) && (s.Branch? ==> ProfitsDiffer(StretchFed(p, st, s, i1, i2).0))
  {
    assert StateAt(p, ss, i1, i2, st, 1) == StretchFed(p, st, ss[0], i1, i2).0;
  }

  lemma DecisiveNext(p: Paths, ss: seq<Stretch>, i1: nat, i2: nat, st: State, n: nat)
    requires Contiguous(p, ss, i1, i2) && 0 < n < |ss|
    ensures Decisive(p, ss, i1, i2, st, n) <==>
            Decisive(p, ss[1..], Ends1(ss[0], p), Ends2(ss[0], p), StretchFed(p, st, ss[0], i1, i2).0, n - 1)
  {
  }

  lemma FedProperly(p: Paths, st: State, s: Stretch, i1: nat, i2: nat)
    requires s.i1 == i1 && s.i2 == i2 && i1 <= Ends1(s, p) <= |p.path1| && i2 <= Ends2(s, p) <= |p.path2|
    requires AllPlain(p) && ProperState(st)
    ensures var (fed, updated) := StretchFed(p, st, s, i1, i2);
            ProperState(fed) && (SameProfits(fed) <==> !ProfitsDiffer(fed)) && (updated <==> Active(p, s))
  {
    FedUpdated(p.path1, p.inside1, p.reverts1, i1, Ends1(s, p), Fed(st.profits1, [], -1, false));
    FedUpdated(p.path2, p.inside2, p.reverts2, i2, Ends2(s, p), Fed(st.profits2, [], -1, false));
    FeedProper(p, if s.Together? then st else Diverged(st, i1, i2), i1, Ends1(s, p), i2, Ends2(s, p));
    SameProfitsMeans(StretchFed(p, st, s, i1, i2).0);
  }

  lemma GoIs(p: Paths, i1: nat, i2: nat, st: State)
    requires i1 <= |p.path1| && i2 <= |p.path2| && Turn(p, i1, i2, st).Go?
    ensures var m := Turn(p, i1, i2, st);
            && m.s.i1 == i1 && m.s.i2 == i2 && Ends1(m.s, p) == m.j1 && Ends2(m.s, p) == m.j2 && !m.s.Apart?
            && var (fed, updated) := StretchFed(p, st, m.s, i1, i2);
               m.st == fed && (m.s.Branch? && updated ==> SameProfits(fed))
  {
  }

  /** A turn after which the scan goes on. */
  lemma GoDecides(p: Paths, i1: nat, i2: nat, st: State)
    requires i1 <= |p.path1| && i2 <= |p.path2| && AllPlain(p) && ProperState(st) && Turn(p, i1, i2, st).Go?
    ensures var m := Turn(p, i1, i2, st);
            && m.s.i1 == i1 && m.s.i2 == i2 && Ends1(m.s, p) == m.j1 && Ends2(m.s, p) == m.j2
            && ProperState(m.st) && m.st == StretchFed(p, st, m.s, i1, i2).0
            && !m.s.Apart? && (m.s.Branch? && Active(p, m.s) ==> !ProfitsDiffer(m.st))
  {
    GoIs(p, i1, i2, st);
    FedProperly(p, st, Turn(p, i1, i2, st).s, i1, i2);
  }

  /** A turn after which it is over, because a path has ended or at a stretch of its own. */
  lemma DoneDecides(p: Paths, i1: nat, i2: nat, st: State)
    requires i1 <= |p.path1| && i2 <= |p.path2| && AllPlain(p) && ProperState(st) && Turn(p, i1, i2, st).Done?
    ensures var o := Turn(p, i1, i2, st).o;
            && Contiguous(p, o.stretches, i1, i2) && |o.stretches| <= 1
            && (o.stretches != [] ==>
                  var s := o.stretches[0];
                  o.divergePoint <==>
                  !s.Together? && Active(p, s) && (s.Branch? ==> ProfitsDiffer(StretchFed(p, st, s, i1, i2).0)))
  {
    TurnIs(p, i1, i2, st);
    var o := Turn(p, i1, i2, st).o;
    if o.stretches != [] {
      FedProperly(p, st, o.stretches[0], i1, i2);
    }
  }

  /**
   The scan stops with a divergence point exactly at the first stretch where two branches that merge
   again leave some account with different profits, or two that never merge have any profit or revert.
   */
  lemma {:induction false} ScanDecides(p: Paths, i1: nat, i2: nat, st: State, n: nat)
    requires i1 <= |p.path1| && i2 <= |p.path2| && AllPlain(p) && ProperState(st)
    requires n < |Scan(p, i1, i2, st).stretches|
    ensures var o := Scan(p, i1, i2, st);
            Contiguous(p, o.stretches, i1, i2) && (StopsAt(o, n) <==> Decisive(p, o.stretches, i1, i2, st, n))
    decreases |p.path1| - i1 + |p.path2| - i2
  {
    var m, o := Turn(p, i1, i2, st), Scan(p, i1, i2, st);
    ScanContiguous(p, i1, i2, st);
    if n == 0 {
      DecisiveFirst(p, o.stretches, i1, i2, st);
    } else {
      DecisiveNext(p, o.stretches, i1, i2, st, n);
    }
    if m.Done? {
      DoneDecides(p, i1, i2, st);
    } else {
      GoDecides(p, i1, i2, st);
      var rest := Scan(p, m.j1, m.j2, m.st);
      assert o.stretches[1..] == rest.stretches;
      if n > 0 {
        ScanDecides(p, m.j1, m.j2, m.st, n - 1);
      } else if rest.stretches == [] {
        EmptyScan(p, m.j1, m.j2, m.st);
      }
    }
  }

  lemma EmptyScan(p: Paths, i1: nat, i2: nat, st: State)
    requires i1 <= |p.path1| && i2 <= |p.path2| && Scan(p, i1, i2, st).stretches == []
    ensures !Scan(p, i1, i2, st).divergePoint
  {
  }

  // ---- Where the profits differ on the same path ----

  /** What the blocks of a stretch earn, added up in order; reverts do not count against it. */
  function Haul(path: seq<Block>, inside: Getter, i: nat, j: nat): seq<Profit>
    requires i <= j <= |path|
    decreases j
  {
    if i == j then []
    else match inside(path[j - 1])
      case Some(ps) => AddAll(Haul(path, inside, i, j - 1), ps)
      case None => Haul(path, inside, i, j - 1)
  }

  /** The last block of a stretch that has profits, if there is one. */
  function LastEarner(path: seq<Block>, inside: Getter, i: nat, j: nat): seq<int>
    requires i <= j <= |path|
    decreases j
  {
    if i == j then [] else if inside(path[j - 1]).Some? then [j - 1] else LastEarner(path, inside, i, j - 1)
  }

  lemma {:induction false} LastEarnerIs(path: seq<Block>, inside: Getter, i: nat, j: nat)
    requires i <= j <= |path|
    ensures var d := LastEarner(path, inside, i, j);
            if d == [] then forall m :: i <= m < j ==> inside(path[m]).None?
            else
              && |d| == 1 && i <= d[0] < j && inside(path[d[0]]).Some?
              && forall m :: d[0] < m < j ==> inside(path[m]).None?
    decreases j
  {
    if i < j {
      LastEarnerIs(path, inside, i, j - 1);
    }
  }

  lemma {:induction false} FedLocal(path: seq<Block>, inside: Getter, reverts: Block -> bool, i: nat, j: nat, before: seq<Profit>)
    requires i <= j <= |path|
    ensures var f := FeedPath(path, inside, reverts, i, j, Fed(before, [], -1, false));
            && f.local == Haul(path, inside, i, j)
            && (if f.last >= 0 then [f.last] else []) == LastEarner(path, inside, i, j)
    decreases j
  {
    if i < j {
      FedLocal(path, inside, reverts, i, j - 1, before);
    }
  }

  predicate Fits(p: Paths, s: Stretch) {
    0 <= s.i1 <= Ends1(s, p) <= |p.path1| && 0 <= s.i2 <= Ends2(s, p) <= |p.path2|
  }

  /** What the blocks of the stretch earn in the two paths does not compare as equal. */
  predicate EarnsDifferently(p: Paths, s: Stretch)
    requires Fits(p, s)
  {
    Profits.Order(Haul(p.path2, p.inside2, s.i2, Ends2(s, p)), Haul(p.path1, p.inside1, s.i1, Ends1(s, p))) != Some(0)
  }

  lemma {:induction false} HaulProper(path: seq<Block>, inside: Getter, i: nat, j: nat)
    requires i <= j <= |path| && Plain(inside)
    ensures Profits.Proper(Haul(path, inside, i, j))
    decreases j
  {
    if i < j {
      HaulProper(path, inside, i, j - 1);
      match inside(path[j - 1]) {
        case Some(ps) => AddProper(Haul(path, inside, i, j - 1), ps);
        case None =>
      }
    }
  }

  lemma {:induction false} HaulNet(path: seq<Block>, inside: Getter, i: nat, j: nat, k: Key)
    requires i <= j <= |path| && !k.ERC721Of?
    ensures Net(Haul(path, inside, i, j), k) == Earned(path, inside, i, j, k)
    decreases j
  {
    if i < j {
      HaulNet(path, inside, i, j - 1, k);
      match inside(path[j - 1]) {
        case Some(ps) => AddNet(Haul(path, inside, i, j - 1), ps, k);
        case None =>
      }
    }
  }

  /** That is so exactly when they come to different quantities of some asset; of a fungible one, the sums of what the blocks earn. */
  lemma EarnsDifferentlyMeans(p: Paths, s: Stretch, k: Key)
    requires Fits(p, s) && AllPlain(p)
    ensures var h1, h2 := Haul(p.path1, p.inside1, s.i1, Ends1(s, p)), Haul(p.path2, p.inside2, s.i2, Ends2(s, p));
            && EarnsDifferently(p, s) == NetsDiffer(h1, h2)
            && (!k.ERC721Of? ==>
                  && Net(h1, k) == Earned(p.path1, p.inside1, s.i1, Ends1(s, p), k)
                  && Net(h2, k) == Earned(p.path2, p.inside2, s.i2, Ends2(s, p), k))
  {
    var h1, h2 := Haul(p.path1, p.inside1, s.i1, Ends1(s, p)), Haul(p.path2, p.inside2, s.i2, Ends2(s, p));
    HaulProper(p.path1, p.inside1, s.i1, Ends1(s, p));
    HaulProper(p.path2, p.inside2, s.i2, Ends2(s, p));
    ComparesEqual(h1, h2);
    if !k.ERC721Of? {
      HaulNet(p.path1, p.inside1, s.i1, Ends1(s, p), k);
      HaulNet(p.path2, p.inside2, s.i2, Ends2(s, p), k);
    }
  }

  /** What a stretch adds to the indices: the last block with profits in each path, if it earns differently. */
  function Differs1(p: Paths, s: Stretch): seq<int>
    requires Fits(p, s)
  {
    if EarnsDifferently(p, s) then LastEarner(p.path1, p.inside1, s.i1, Ends1(s, p)) else []
  }

  function Differs2(p: Paths, s: Stretch): seq<int>
    requires Fits(p, s)
  {
    if EarnsDifferently(p, s) then LastEarner(p.path2, p.inside2, s.i2, Ends2(s, p)) else []
  }

  function AllDiffers1(p: Paths, ss: seq<Stretch>): seq<int>
    requires forall s :: s in ss ==> Fits(p, s)
  {
    if ss == [] then [] else Differs1(p, ss[0]) + AllDiffers1(p, ss[1..])
  }

  function AllDiffers2(p: Paths, ss: seq<Stretch>): seq<int>
    requires forall s :: s in ss ==> Fits(p, s)
  {
    if ss == [] then [] else Differs2(p, ss[0]) + AllDiffers2(p, ss[1..])
  }

  lemma {:induction false} ContiguousFits(p: Paths, ss: seq<Stretch>, i1: nat, i2: nat)
    requires Contiguous(p, ss, i1, i2)
    ensures forall s :: s in ss ==> Fits(p, s)
  {
    if ss != [] {
      ContiguousFits(p, ss[1..], Ends1(ss[0], p), Ends2(ss[0], p));
    }
  }

  /** Feeding a stretch records where it earns differently, and nothing else. */
  lemma FeedDiffers(p: Paths, st: State, s: Stretch)
    requires Fits(p, s)
    ensures var fed := Feed(p, st, s.i1, Ends1(s, p), s.i2, Ends2(s, p)).0;
            fed.differ1 == st.differ1 + Differs1(p, s) && fed.differ2 == st.differ2 + Differs2(p, s)
  {
    FedLocal(p.path1, p.inside1, p.reverts1, s.i1, Ends1(s, p), st.profits1);
    FedLocal(p.path2, p.inside2, p.reverts2, s.i2, Ends2(s, p), st.profits2);
  }

  /** An outcome without a divergence point has, on top of `d1` and `d2`, where its stretches earn differently. */
  ghost predicate Differs(p: Paths, o: Outcome, d1: seq<int>, d2: seq<int>) {
    && (forall s :: s in o.stretches ==> Fits(p, s))
    && (!o.divergePoint ==>
          o.indices1 == d1 + AllDiffers1(p, o.stretches) && o.indices2 == d2 + AllDiffers2(p, o.stretches))
  }

  lemma DiffersOfFirst(p: Paths, s: Stretch, ss: seq<Stretch>)
    requires Fits(p, s) && forall s' :: s' in ss ==> Fits(p, s')
    ensures forall s' :: s' in [s] + ss ==> Fits(p, s')
    ensures AllDiffers1(p, [s] + ss) == Differs1(p, s) + AllDiffers1(p, ss)
    ensures AllDiffers2(p, [s] + ss) == Differs2(p, s) + AllDiffers2(p, ss)
  {
    assert ([s] + ss)[1..] == ss;
  }

  lemma AfterDiffers(p: Paths, s: Stretch, o: Outcome, d1: seq<int>, d2: seq<int>)
    requires Fits(p, s) && Differs(p, o, d1 + Differs1(p, s), d2 + Differs2(p, s))
    ensures Differs(p, After(s, o), d1, d2)
  {
    DiffersOfFirst(p, s, o.stretches);
    Joined(d1, Differs1(p, s), AllDiffers1(p, o.stretches));
    Joined(d2, Differs2(p, s), AllDiffers2(p, o.stretches));
  }

  lemma DoneDiffers(p: Paths, i1: nat, i2: nat, st: State)
    requires i1 <= |p.path1| && i2 <= |p.path2| && Turn(p, i1, i2, st).Done?
    ensures Differs(p, Turn(p, i1, i2, st).o, st.differ1, st.differ2)
  {
    var o := Turn(p, i1, i2, st).o;
    if i1 < |p.path1| && i2 < |p.path2| {
      var s := o.stretches[0];
      FeedDiffers(p, Diverged(st, i1, i2), s);
      assert o.stretches == [s] && [s][1..] == [];
      assert AllDiffers1(p, [s]) == Differs1(p, s) + [] && AllDiffers2(p, [s]) == Differs2(p, s) + [];
    }
  }

  lemma {:induction false} ScanDiffersFrom(p: Paths, i1: nat, i2: nat, st: State)
    requires i1 <= |p.path1| && i2 <= |p.path2|
    ensures Differs(p, Scan(p, i1, i2, st), st.differ1, st.differ2)
    decreases |p.path1| - i1 + |p.path2| - i2
  {
    var m := Turn(p, i1, i2, st);
    if m.Done? {
      DoneDiffers(p, i1, i2, st);
    } else {
      GoIs(p, i1, i2, st);
      FeedDiffers(p, if m.s.Together? then st else Diverged(st, i1, i2), m.s);
      ScanDiffersFrom(p, m.j1, m.j2, m.st);
      AfterDiffers(p, m.s, Scan(p, m.j1, m.j2, m.st), st.differ1, st.differ2);
    }
  }

  predicate RisingFrom(d: seq<int>, from: int, to: int) {
    (forall k :: 0 <= k < |d| ==> from <= d[k] < to) && forall k, m :: 0 <= k < m < |d| ==> d[k] < d[m]
  }

  lemma StretchRises(p: Paths, s: Stretch)
    requires Fits(p, s)
    ensures RisingFrom(Differs1(p, s), s.i1, Ends1(s, p)) && RisingFrom(Differs2(p, s), s.i2, Ends2(s, p))
  {
    LastEarnerIs(p.path1, p.inside1, s.i1, Ends1(s, p));
    LastEarnerIs(p.path2, p.inside2, s.i2, Ends2(s, p));
  }

  lemma {:induction false} DiffersRise(p: Paths, ss: seq<Stretch>, i1: nat, i2: nat)
    requires Contiguous(p, ss, i1, i2) && (forall s :: s in ss ==> Fits(p, s))
    ensures RisingFrom(AllDiffers1(p, ss), i1, |p.path1|) && RisingFrom(AllDiffers2(p, ss), i2, |p.path2|)
  {
    if ss != [] {
      var s := ss[0];
      DiffersRise(p, ss[1..], Ends1(s, p), Ends2(s, p));
      StretchRises(p, s);
      RiseOn(Differs1(p, s), AllDiffers1(p, ss[1..]), i1, Ends1(s, p), |p.path1|);
      RiseOn(Differs2(p, s), AllDiffers2(p, ss[1..]), i2, Ends2(s, p), |p.path2|);
    }
  }

  lemma RiseOn(d: seq<int>, rest: seq<int>, from: int, mid: int, to: int)
    requires RisingFrom(d, from, mid) && RisingFrom(rest, mid, to) && from <= mid <= to
    ensures RisingFrom(d + rest, from, to)
  {
  }

  /**
   A scan that reports no divergence point returns, for exactly the stretches whose blocks earn
   differently in the two paths, the last block with profits of each path, in order.
   */
  lemma ScanDiffers(p: Paths)
    requires !Scan(p, 0, 0, Initial).divergePoint
    ensures var o := Scan(p, 0, 0, Initial);
            && (forall s :: s in o.stretches ==> Fits(p, s))
            && o.indices1 == AllDiffers1(p, o.stretches) && RisingFrom(o.indices1, 0, |p.path1|)
            && o.indices2 == AllDiffers2(p, o.stretches) && RisingFrom(o.indices2, 0, |p.path2|)
  {
    var o := Scan(p, 0, 0, Initial);
    ScanDiffersFrom(p, 0, 0, Initial);
    ScanContiguous(p, 0, 0, Initial);
    DiffersRise(p, o.stretches, 0, 0);
    assert [] + AllDiffers1(p, o.stretches) == AllDiffers1(p, o.stretches) && [] + AllDiffers2(p, o.stretches) == AllDiffers2(p, o.stretches);
  }
}
