/**
 The transactions of a range of blocks: their order, the happens-before graph between transactions of
 the same sender, and the slices a search needs.
 */
module TxHistories {
  import opened Chain

  datatype TxPosition = TxPosition(blockNumber: nat, txIndex: nat)

  const ZeroTxPosition := TxPosition(0, 0)

  function CmpPositions(p: TxPosition, other: TxPosition): int {
    if p.blockNumber < other.blockNumber then -1
    else if p.blockNumber > other.blockNumber then 1
    else if p.txIndex < other.txIndex then -1
    else if p.txIndex > other.txIndex then 1
    else 0
  }

  predicate Before(p: TxPosition, q: TxPosition) {
    CmpPositions(p, q) < 0
  }

  lemma PositionsOrdered(p: TxPosition, q: TxPosition, r: TxPosition)
    ensures CmpPositions(p, q) == -CmpPositions(q, p) && (CmpPositions(p, q) == 0 <==> p == q)
    ensures Before(p, q) && Before(q, r) ==> Before(p, r)
  {
  }

  datatype TxRecord = TxRecord(position: TxPosition, sender: Address, nonce: nat, pseudo: bool, err: bool)

  predicate Ordinary(r: TxRecord) {
    !r.err && !r.pseudo
  }

  /** Tells records apart as long as no block has more than ten thousand. */
  function ID(r: TxRecord): nat {
    r.position.blockNumber * 10000 + r.position.txIndex
  }

  lemma IDTellsApart(r: TxRecord, s: TxRecord)
    requires r.position.txIndex < 10000 && s.position.txIndex < 10000 && ID(r) == ID(s)
    ensures r.position == s.position
  {
  }

  // ---- The happens-before graph ----

  /** From the ID of a record to the one its sender made just before. */
  datatype Graph = Graph(edges: map<nat, TxRecord>, senderLastRecord: map<Address, TxRecord>)

  const EmptyGraph := Graph(map[], map[])

  function Link(g: Graph, r: TxRecord): Graph {
    if !Ordinary(r) then g
    else Graph(if r.sender in g.senderLastRecord then g.edges[ID(r) := g.senderLastRecord[r.sender]] else g.edges,
               g.senderLastRecord[r.sender := r])
  }

  function GraphOf(rs: seq<TxRecord>): Graph {
    if rs == [] then EmptyGraph else Link(GraphOf(rs[..|rs| - 1]), rs[|rs| - 1])
  }

  /** Records in the order of their positions, with the indices their IDs allow for. */
  predicate Sorted(rs: seq<TxRecord>) {
    && (forall i :: 0 <= i < |rs| ==> rs[i].position.txIndex < 10000)
    && forall i, j :: 0 <= i < j < |rs| ==> Before(rs[i].position, rs[j].position)
  }

  predicate IsOwn(r: TxRecord, sender: Address) {
    Ordinary(r) && r.sender == sender
  }

  /** The sender's last record before `hi`. */
  predicate IsLastBefore(rs: seq<TxRecord>, p: TxRecord, sender: Address, hi: TxPosition) {
    && p in rs && IsOwn(p, sender) && Before(p.position, hi)
    && forall r :: r in rs && IsOwn(r, sender) && Before(r.position, hi) ==> !Before(p.position, r.position)
  }

  predicate NoneBefore(rs: seq<TxRecord>, sender: Address, hi: TxPosition) {
    forall r :: r in rs && IsOwn(r, sender) ==> !Before(r.position, hi)
  }

  predicate EdgeRight(rs: seq<TxRecord>, g: Graph, r: TxRecord) {
    if ID(r) in g.edges then IsLastBefore(rs, g.edges[ID(r)], r.sender, r.position) else NoneBefore(rs, r.sender, r.position)
  }

  predicate LastRight(rs: seq<TxRecord>, g: Graph, sender: Address) {
    if sender in g.senderLastRecord then
      var p := g.senderLastRecord[sender];
      p in rs && IsOwn(p, sender) && forall r :: r in rs && IsOwn(r, sender) ==> !Before(p.position, r.position)
    else forall r :: r in rs ==> !IsOwn(r, sender)
  }

  lemma SortedPrefix(rs: seq<TxRecord>)
    requires Sorted(rs) && rs != []
    ensures Sorted(rs[..|rs| - 1])
    ensures forall r :: r in rs[..|rs| - 1] ==> Before(r.position, rs[|rs| - 1].position) && r.position.txIndex < 10000
    ensures forall r :: r in rs <==> r in rs[..|rs| - 1] || r == rs[|rs| - 1]
  {
    assert rs == rs[..|rs| - 1] + [rs[|rs| - 1]];
  }

  lemma {:induction false} LastRecords(rs: seq<TxRecord>, sender: Address)
    requires Sorted(rs)
    ensures LastRight(rs, GraphOf(rs), sender)
  {
    if rs != [] {
      SortedPrefix(rs);
      LastRecords(rs[..|rs| - 1], sender);
    }
  }

  /** The graph links every record to its sender's previous one, if there is one. */
  lemma {:induction false} GraphLinks(rs: seq<TxRecord>, r: TxRecord)
    requires Sorted(rs) && r in rs && Ordinary(r)
    ensures EdgeRight(rs, GraphOf(rs), r)
  {
    var n := |rs| - 1;
    var x, g := rs[n], GraphOf(rs[..n]);
    SortedPrefix(rs);
    if r == x {
      LastRecords(rs[..n], r.sender);
      GraphKeys(rs[..n], ID(r));
      assert ID(r) !in g.edges by {
        if q :| q in rs[..n] && ID(q) == ID(r) {
          IDTellsApart(q, r);
        }
      }
    } else {
      GraphLinks(rs[..n], r);
      if ID(r) == ID(x) {
        IDTellsApart(r, x);
      }
    }
  }

  lemma {:induction false} GraphKeys(rs: seq<TxRecord>, id: nat)
    ensures id in GraphOf(rs).edges ==> exists q :: q in rs && ID(q) == id
  {
    if rs != [] {
      var n := |rs| - 1;
      GraphKeys(rs[..n], id);
      if id in GraphOf(rs).edges && id !in GraphOf(rs[..n]).edges {
        assert rs[n] in rs && ID(rs[n]) == id;
      } else if id in GraphOf(rs).edges {
        var q :| q in rs[..n] && ID(q) == id;
        assert q in rs;
      }
    }
  }

  // ---- Prerequisites ----

  /** The sender's records at or after `lo` and before `hi`. */
  function Own(rs: seq<TxRecord>, sender: Address, lo: TxPosition, hi: TxPosition): seq<TxRecord> {
    if rs == [] then []
    else
      (if IsOwn(rs[0], sender) && !Before(rs[0].position, lo) && Before(rs[0].position, hi) then [rs[0]] else [])
      + Own(rs[1..], sender, lo, hi)
  }

  lemma {:induction false} OwnSame(rs: seq<TxRecord>, sender: Address, lo: TxPosition, lo': TxPosition, hi: TxPosition)
    requires forall r :: r in rs && IsOwn(r, sender) && Before(r.position, hi) ==> (Before(r.position, lo) <==> Before(r.position, lo'))
    ensures Own(rs, sender, lo, hi) == Own(rs, sender, lo', hi)
  {
    if rs != [] {
      assert rs[0] in rs;
      OwnSame(rs[1..], sender, lo, lo', hi);
    }
  }

  lemma {:induction false} OwnEmpty(rs: seq<TxRecord>, sender: Address, lo: TxPosition)
    ensures Own(rs, sender, lo, lo) == []
  {
    if rs != [] {
      OwnEmpty(rs[1..], sender, lo);
    }
  }

  /** Going back to the sender's previous record adds just that one, in front. */
  lemma {:induction false} OwnBack(rs: seq<TxRecord>, sender: Address, p: TxRecord, lo: TxPosition, hi: TxPosition)
    requires Sorted(rs) && IsLastBefore(rs, p, sender, lo) && !Before(hi, lo)
    ensures Own(rs, sender, p.position, hi) == [p] + Own(rs, sender, lo, hi)
  {
    assert forall i :: 0 < i < |rs| ==> rs[i] == rs[1..][i - 1];
    PositionsOrdered(p.position, lo, hi);
    if rs[0] == p {
      forall r | r in rs[1..] && IsOwn(r, sender) && Before(r.position, hi)
        ensures Before(r.position, p.position) <==> Before(r.position, lo)
      {
        assert Before(p.position, r.position) && r in rs;
        PositionsOrdered(p.position, r.position, lo);
      }
      OwnSame(rs[1..], sender, p.position, lo, hi);
    } else {
      var i :| 0 < i < |rs| && rs[i] == p;
      assert rs[1..][i - 1] == p && Before(rs[0].position, p.position);
      PositionsOrdered(rs[0].position, p.position, lo);
      assert forall r :: r in rs[1..] ==> r in rs;
      OwnBack(rs[1..], sender, p, lo, hi);
    }
  }

  function Insert(slice: seq<TxRecord>, r: TxRecord): seq<TxRecord> {
    if slice == [] || Before(r.position, slice[0].position) then [r] + slice else [slice[0]] + Insert(slice[1..], r)
  }

  /** Strictly after `bound`; from the start if the bound is not before the dependant. */
  function Bound(dependant: TxRecord, backBound: TxRecord): TxPosition {
    if CmpPositions(dependant.position, backBound.position) > 0 then backBound.position else ZeroTxPosition
  }

  function Next(p: TxPosition): TxPosition {
    p.(txIndex := p.txIndex + 1)
  }

  lemma {:induction false} OwnFrom(rs: seq<TxRecord>, sender: Address, lo: TxPosition, hi: TxPosition)
    ensures forall r :: r in Own(rs, sender, lo, hi) ==> !Before(r.position, lo)
  {
    if rs != [] {
      OwnFrom(rs[1..], sender, lo, hi);
    }
  }

  // ---- Sessions ----

  /** The nonces of a sender grow; the session panics otherwise. */
  predicate NoncesGrow(rs: seq<TxRecord>) {
    forall i, j :: 0 <= i < j < |rs| && Ordinary(rs[i]) && IsOwn(rs[j], rs[i].sender) ==> rs[i].nonce < rs[j].nonce
  }

  /** The loop over the records of all blocks, seen as one list. */
  method BuildGraph(rs: seq<TxRecord>) returns (hbGraph: map<nat, TxRecord>)
    requires Sorted(rs) && NoncesGrow(rs)
    ensures hbGraph == GraphOf(rs).edges
  {
    hbGraph := map[];
    var senderLastRecord: map<Address, TxRecord> := map[];
    assert rs[..0] == [];
    for i := 0 to |rs|
      invariant Graph(hbGraph, senderLastRecord) == GraphOf(rs[..i])
    {
      var r := rs[i];
      assert rs[..i + 1][..i] == rs[..i];
      if r.err || r.pseudo {
        continue;
      }
      if r.sender in senderLastRecord {
        var last := senderLastRecord[r.sender];
        NoncesDoNotPanic(rs, i);
        assert last.nonce < r.nonce && last.sender == r.sender;
        hbGraph := hbGraph[ID(r) := last];
      }
      senderLastRecord := senderLastRecord[r.sender := r];
    }
    assert rs[..|rs|] == rs;
  }

  lemma NoncesDoNotPanic(rs: seq<TxRecord>, i: nat)
    requires Sorted(rs) && NoncesGrow(rs) && i < |rs| && Ordinary(rs[i])
    requires rs[i].sender in GraphOf(rs[..i]).senderLastRecord
    ensures var last := GraphOf(rs[..i]).senderLastRecord[rs[i].sender]; last.nonce < rs[i].nonce && last.sender == rs[i].sender
  {
    LastRecords(rs[..i], rs[i].sender);
    var last := GraphOf(rs[..i]).senderLastRecord[rs[i].sender];
    var j :| 0 <= j < i && rs[..i][j] == last;
    assert rs[j] == last && IsOwn(rs[i], rs[j].sender);
  }

  /** The earlier records of the dependant's sender, strictly after the bound. */
  function Prerequisites(rs: seq<TxRecord>, dependant: TxRecord, backBound: TxRecord): seq<TxRecord> {
    Own(rs, dependant.sender, Next(Bound(dependant, backBound)), dependant.position)
  }

  /** No record of the session has the dependant's ID. */
  predicate Foreign(rs: seq<TxRecord>, dependant: TxRecord) {
    forall r :: r in rs ==> ID(r) != ID(dependant)
  }

  /** The chain reaches no further back than the bound, because what is left is at or before it. */
  lemma ChainEnds(rs: seq<TxRecord>, dependant: TxRecord, cur: TxRecord, bound: TxPosition)
    requires Before(bound, cur.position) || (cur == dependant && bound == ZeroTxPosition)
    requires forall r :: r in rs && IsOwn(r, dependant.sender) && Before(r.position, cur.position) ==> !Before(bound, r.position)
    ensures Own(rs, dependant.sender, cur.position, dependant.position) == Own(rs, dependant.sender, Next(bound), dependant.position)
  {
    forall r | r in rs && IsOwn(r, dependant.sender) && Before(r.position, dependant.position)
      ensures Before(r.position, cur.position) <==> Before(r.position, Next(bound))
    {
      PositionsOrdered(r.position, bound, cur.position);
    }
    OwnSame(rs, dependant.sender, cur.position, Next(bound), dependant.position);
  }

  lemma InsertFirst(slice: seq<TxRecord>, r: TxRecord)
    requires forall q :: q in slice ==> Before(r.position, q.position)
    ensures Insert(slice, r) == [r] + slice
  {
  }

  /**
   The traversal of the happens-before graph from the dependant. It returns exactly the ordinary
   records of the same sender between the bound and the dependant, in order and each once; for a
   dependant from outside the session there is nothing to follow.
   */
  method SlicePrerequisites(ghost rs: seq<TxRecord>, hbGraph: map<nat, TxRecord>, dependant: TxRecord, backBound: TxRecord)
    returns (slice: seq<TxRecord>)
    requires Sorted(rs) && hbGraph == GraphOf(rs).edges && !dependant.err
    requires dependant in rs || Foreign(rs, dependant)
    ensures slice == if dependant.pseudo || dependant !in rs then [] else Prerequisites(rs, dependant, backBound)
  {
    slice := [];
    if dependant.pseudo {
      return;
    }
    var bound := if CmpPositions(dependant.position, backBound.position) > 0 then backBound.position else ZeroTxPosition;
    var spanningQueue := [dependant];
    ghost var cur := dependant;
    ghost var k: nat :| dependant in rs ==> k < |rs| && rs[k] == dependant;
    OwnEmpty(rs, dependant.sender, dependant.position);
    while spanningQueue != []
      invariant dependant !in rs ==> slice == [] && spanningQueue in {[], [dependant]}
      invariant dependant in rs && spanningQueue == [] ==> slice == Prerequisites(rs, dependant, backBound)
      invariant dependant in rs && spanningQueue != [] ==>
          && spanningQueue == [cur] && k < |rs| && rs[k] == cur && IsOwn(cur, dependant.sender)
          && !Before(dependant.position, cur.position) && (Before(bound, cur.position) || (cur == dependant && bound == ZeroTxPosition))
          && slice == Own(rs, dependant.sender, cur.position, dependant.position)
      decreases |spanningQueue|, k
    {
      var record := spanningQueue[0];
      spanningQueue := spanningQueue[1..];
      if dependant in rs {
        GraphLinks(rs, record);
      } else {
        GraphKeys(rs, ID(record));
      }
      if ID(record) in hbGraph {
        var dep := hbGraph[ID(record)];
        if CmpPositions(dep.position, bound) > 0 {
          OwnBack(rs, dependant.sender, dep, cur.position, dependant.position);
          OwnFrom(rs, dependant.sender, cur.position, dependant.position);
          InsertFirst(slice, dep);
          slice := Insert(slice, dep);
          spanningQueue := spanningQueue + [dep];
          ghost var j: nat :| j < |rs| && rs[j] == dep;
          k, cur := j, dep;
        } else {
          ChainEnds(rs, dependant, cur, bound);
        }
      } else if dependant in rs {
        ChainEnds(rs, dependant, cur, bound);
      }
    }
  }

  /** Prerequisites are sorted and each listed once, and exactly the records they should be. */
  lemma {:induction false} OwnIs(rs: seq<TxRecord>, sender: Address, lo: TxPosition, hi: TxPosition)
    requires Sorted(rs)
    ensures Sorted(Own(rs, sender, lo, hi))
    ensures forall r :: r in Own(rs, sender, lo, hi) <==>
              r in rs && IsOwn(r, sender) && !Before(r.position, lo) && Before(r.position, hi)
  {
    if rs != [] {
      assert forall i :: 0 < i < |rs| ==> rs[i] == rs[1..][i - 1];
      OwnIs(rs[1..], sender, lo, hi);
    }
  }

  /**
   What SlicePrerequisites returns, in the terms of its documentation: an ascending list of just the
   sender's earlier ordinary records strictly after the bound.
   */
  lemma PrerequisitesExact(rs: seq<TxRecord>, dependant: TxRecord, backBound: TxRecord, r: TxRecord)
    requires Sorted(rs)
    ensures Sorted(Prerequisites(rs, dependant, backBound))
    ensures r in Prerequisites(rs, dependant, backBound) <==>
              && r in rs && IsOwn(r, dependant.sender) && Before(r.position, dependant.position)
              && Before(Bound(dependant, backBound), r.position)
  {
    OwnIs(rs, dependant.sender, Next(Bound(dependant, backBound)), dependant.position);
  }
}
