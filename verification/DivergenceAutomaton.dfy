/**
 Following a reference path while tracing: at the tail of every basic block the analyzer compares the
 block to come with the next one of the reference path, and while the two diverge, new flow nodes
 get a control edge from the tainted branch that caused it.
 */
module DivergenceAutomaton {
  import opened Chain

  type NodeID = nat

  /** What tells blocks of the reference path apart here. */
  datatype Head = Head(codeAddr: Address, pc: nat)

  datatype Follower = Follower(
    currentBlockIndex: nat,
    isDiverging: bool,
    divergingNode: Option<NodeID>,
    potentialMergeBlock: map<Head, nat>,
    controlFrom: map<NodeID, set<NodeID>>)

  const NewFollower := Follower(0, false, None, map[], map[])

  /** The blocks from `i` on by their heads; of two with the same head the later one stays. */
  function MergeBlocks(refPath: seq<Head>, i: nat): map<Head, nat>
    requires i <= |refPath|
    decreases |refPath| - i
  {
    if i == |refPath| then map[] else map[refPath[i] := i] + MergeBlocks(refPath, i + 1)
  }

  /** The tail hook: `next` is the head of the block to come, `sink` the node of this tail if it is tainted. */
  function TailStep(refPath: seq<Head>, f: Follower, next: Head, sink: Option<NodeID>): Follower {
    if f.isDiverging then
      if next in f.potentialMergeBlock then Follower(f.potentialMergeBlock[next], false, None, map[], f.controlFrom)
      else f
    else if f.currentBlockIndex >= |refPath| - 1 then
      f.(isDiverging := true, potentialMergeBlock := map[])
    else if refPath[f.currentBlockIndex + 1] == next then
      f.(currentBlockIndex := f.currentBlockIndex + 1)
    else
      Follower(f.currentBlockIndex, true, if sink.Some? then sink else f.divergingNode,
               MergeBlocks(refPath, f.currentBlockIndex + 1), f.controlFrom)
  }

  /** An operation has one node, whenever it is asked for. */
  function NodeStep(f: Follower, node: NodeID): Follower {
    if node in f.controlFrom then f
    else f.(controlFrom := f.controlFrom[node := if f.isDiverging && f.divergingNode.Some? then {f.divergingNode.value} else {}])
  }

  // ---- The same in place ----

  class TaintAnalyzer {
    const refPath: seq<Head>
    var currentBlockIndex: nat
    var isDiverging: bool
    var divergingNode: Option<NodeID>
    var potentialMergeBlock: map<Head, nat>
    var controlFrom: map<NodeID, set<NodeID>>

    constructor (refPath: seq<Head>)
      ensures this.refPath == refPath && View() == NewFollower
    {
      this.refPath := refPath;
      currentBlockIndex, isDiverging, divergingNode, potentialMergeBlock, controlFrom := 0, false, None, map[], map[];
    }

    function View(): Follower
      reads this
    {
      Follower(currentBlockIndex, isDiverging, divergingNode, potentialMergeBlock, controlFrom)
    }

    method NewFlowNode(node: NodeID)
      modifies this`controlFrom
      ensures View() == NodeStep(old(View()), node)
    {
      if node !in controlFrom {
        var from := {};
        if isDiverging && divergingNode.Some? {
          from := {divergingNode.value};
        }
        controlFrom := controlFrom[node := from];
      }
    }

    /** Fills the map of blocks the paths may merge in, in the order of the path. */
    method CollectMergeBlocks(from: nat) returns (blocks: map<Head, nat>)
      requires from <= |refPath|
      ensures blocks == MergeBlocks(refPath, from)
    {
      blocks := map[];
      for i := from to |refPath|
        invariant blocks + MergeBlocks(refPath, i) == MergeBlocks(refPath, from)
      {
        assert blocks[refPath[i] := i] + MergeBlocks(refPath, i + 1) == blocks + MergeBlocks(refPath, i);
        blocks := blocks[refPath[i] := i];
      }
    }

    method BasicBlockTail(next: Head, lastTaintedSink: Option<NodeID>)
      modifies this
      ensures View() == TailStep(refPath, old(View()), next, lastTaintedSink)
    {
      if isDiverging {
        if next in potentialMergeBlock {
          currentBlockIndex := potentialMergeBlock[next];
          isDiverging := false;
          divergingNode := None;
          potentialMergeBlock := map[];
        }
      } else if currentBlockIndex >= |refPath| - 1 {
        isDiverging := true;
        potentialMergeBlock := map[];
      } else {
        var expectedNext := refPath[currentBlockIndex + 1];
        if expectedNext == next {
          currentBlockIndex := currentBlockIndex + 1;
        } else {
          isDiverging := true;
          if lastTaintedSink.Some? {
            divergingNode := lastTaintedSink;
          }
          potentialMergeBlock := CollectMergeBlocks(currentBlockIndex + 1);
        }
      }
    }
  }

  // ---- Runs ----

  datatype Event = Tail(next: Head, sink: Option<NodeID>) | NewNode(node: NodeID)

  function Step(refPath: seq<Head>, f: Follower, e: Event): Follower {
    match e
    case Tail(next, sink) => TailStep(refPath, f, next, sink)
    case NewNode(node) => NodeStep(f, node)
  }

  function RunOf(refPath: seq<Head>, es: seq<Event>): Follower {
    if es == [] then NewFollower else Step(refPath, RunOf(refPath, es[..|es| - 1]), es[|es| - 1])
  }

  /** A tail after which the run is on the reference path, further than before. */
  predicate Synchronises(refPath: seq<Head>, f: Follower, e: Event) {
    e.Tail? && !TailStep(refPath, f, e.next, e.sink).isDiverging
  }

  /** The merge blocks are those ahead on the reference path, the last of each head. */
  predicate MergesAhead(refPath: seq<Head>, i: nat, blocks: map<Head, nat>) {
    forall h :: h in blocks ==>
      && i < blocks[h] < |refPath| && refPath[blocks[h]] == h
      && forall k :: blocks[h] < k < |refPath| ==> refPath[k] != h
  }

  lemma {:induction false} MergeBlocksAhead(refPath: seq<Head>, i: nat)
    requires i < |refPath|
    ensures MergesAhead(refPath, i, MergeBlocks(refPath, i + 1))
    ensures forall k :: i < k < |refPath| ==> refPath[k] in MergeBlocks(refPath, i + 1)
    decreases |refPath| - i
  {
    if i + 1 < |refPath| {
      MergeBlocksAhead(refPath, i + 1);
    }
  }

  /**
   The index stays in the path; the diverging node and the merge blocks are there only while diverging,
   and the merge blocks are all ahead, and missing only at the end of the path.
   */
  predicate Consistent(refPath: seq<Head>, f: Follower) {
    && (refPath != [] ==> f.currentBlockIndex < |refPath|)
    && (refPath == [] ==> f.currentBlockIndex == 0)
    && (!f.isDiverging ==> f.divergingNode == None && f.potentialMergeBlock == map[])
    && (f.isDiverging ==> (f.potentialMergeBlock == map[] <==> f.currentBlockIndex + 1 >= |refPath|))
    && MergesAhead(refPath, f.currentBlockIndex, f.potentialMergeBlock)
  }

  /** The index has not fallen, and has risen exactly if the run synchronises, to a block with the head to come. */
  predicate Advances(refPath: seq<Head>, f: Follower, next: Head, f': Follower) {
    && Consistent(refPath, f') && f'.currentBlockIndex >= f.currentBlockIndex
    && (f'.currentBlockIndex > f.currentBlockIndex <==> !f'.isDiverging)
    && (!f'.isDiverging ==> f'.currentBlockIndex < |refPath| && refPath[f'.currentBlockIndex] == next)
    && (f'.divergingNode.Some? ==> f'.isDiverging)
  }

  lemma DivergingAdvances(refPath: seq<Head>, f: Follower, next: Head, sink: Option<NodeID>)
    requires Consistent(refPath, f) && f.isDiverging
    ensures Advances(refPath, f, next, TailStep(refPath, f, next, sink))
  {
  }

  lemma FollowingAdvances(refPath: seq<Head>, f: Follower, next: Head, sink: Option<NodeID>)
    requires Consistent(refPath, f) && !f.isDiverging
    ensures Advances(refPath, f, next, TailStep(refPath, f, next, sink))
  {
    if f.currentBlockIndex < |refPath| - 1 {
      MergeBlocksAhead(refPath, f.currentBlockIndex);
    }
  }

  /** One tail: the index never falls, and rises exactly when the run synchronises, to a block with the head to come. */
  lemma TailAdvances(refPath: seq<Head>, f: Follower, next: Head, sink: Option<NodeID>)
    requires Consistent(refPath, f)
    ensures Advances(refPath, f, next, TailStep(refPath, f, next, sink))
  {
    if f.isDiverging {
      DivergingAdvances(refPath, f, next, sink);
    } else {
      FollowingAdvances(refPath, f, next, sink);
    }
  }

  lemma {:induction false} RunConsistent(refPath: seq<Head>, es: seq<Event>)
    ensures Consistent(refPath, RunOf(refPath, es))
  {
    if es != [] {
      var n := |es| - 1;
      RunConsistent(refPath, es[..n]);
      if es[n].Tail? {
        TailAdvances(refPath, RunOf(refPath, es[..n]), es[n].next, es[n].sink);
      }
    }
  }

  /** The blocks of the reference path the run has synchronised in, with the tails that led to them. */
  function Synced(refPath: seq<Head>, es: seq<Event>): seq<(nat, nat)> {
    if es == [] then []
    else
      var n := |es| - 1;
      Synced(refPath, es[..n]) +
      if Synchronises(refPath, RunOf(refPath, es[..n]), es[n]) then [(n, RunOf(refPath, es).currentBlockIndex)] else []
  }

  predicate Matches(refPath: seq<Head>, es: seq<Event>, at: (nat, nat)) {
    at.0 < |es| && at.1 < |refPath| && es[at.0].Tail? && es[at.0].next == refPath[at.1]
  }

  /** Pairs of a tail and the block of the path it leads to, both rising, up to the block `index`. */
  predicate CommonSubsequence(refPath: seq<Head>, es: seq<Event>, s: seq<(nat, nat)>, index: nat) {
    && (forall k :: 0 <= k < |s| ==> Matches(refPath, es, s[k]) && 0 < s[k].1 <= index)
    && (forall k, m :: 0 <= k < m < |s| ==> s[k].0 < s[m].0 && s[k].1 < s[m].1)
    && index == if s == [] then 0 else s[|s| - 1].1
  }

  lemma SubsequenceKept(refPath: seq<Head>, es: seq<Event>, s: seq<(nat, nat)>, index: nat)
    requires es != [] && CommonSubsequence(refPath, es[..|es| - 1], s, index)
    ensures CommonSubsequence(refPath, es, s, index)
  {
    forall k | 0 <= k < |s| ensures Matches(refPath, es, s[k]) {
      assert Matches(refPath, es[..|es| - 1], s[k]);
    }
  }

  lemma SubsequenceExtended(refPath: seq<Head>, es: seq<Event>, s: seq<(nat, nat)>, index: nat, next: nat)
    requires es != [] && CommonSubsequence(refPath, es[..|es| - 1], s, index)
    requires index < next && Matches(refPath, es, (|es| - 1, next))
    ensures CommonSubsequence(refPath, es, s + [(|es| - 1, next)], next)
  {
    SubsequenceKept(refPath, es, s, index);
    forall k | 0 <= k < |s| ensures s[k].0 < |es| - 1 {
      assert Matches(refPath, es[..|es| - 1], s[k]);
    }
  }

  /** The last event moves the index exactly if the run synchronises at it. */
  lemma LastEvent(refPath: seq<Head>, es: seq<Event>)
    requires es != []
    ensures var n := |es| - 1; var f, f' := RunOf(refPath, es[..n]), RunOf(refPath, es);
            if Synchronises(refPath, f, es[n])
            then f.currentBlockIndex < f'.currentBlockIndex && Matches(refPath, es, (n, f'.currentBlockIndex))
            else f.currentBlockIndex == f'.currentBlockIndex
  {
    var n := |es| - 1;
    RunConsistent(refPath, es[..n]);
    if es[n].Tail? {
      TailAdvances(refPath, RunOf(refPath, es[..n]), es[n].next, es[n].sink);
    }
  }

  /**
   The blocks a run synchronises in are a common subsequence of the blocks it comes to and of the
   reference path, ending at the current index.
   */
  lemma {:induction false} SyncedIsSubsequence(refPath: seq<Head>, es: seq<Event>)
    ensures CommonSubsequence(refPath, es, Synced(refPath, es), RunOf(refPath, es).currentBlockIndex)
  {
    if es != [] {
      var n := |es| - 1;
      var f, s := RunOf(refPath, es[..n]), Synced(refPath, es[..n]);
      SyncedIsSubsequence(refPath, es[..n]);
      LastEvent(refPath, es);
      if Synchronises(refPath, f, es[n]) {
        SubsequenceExtended(refPath, es, s, f.currentBlockIndex, RunOf(refPath, es).currentBlockIndex);
      } else {
        SubsequenceKept(refPath, es, s, f.currentBlockIndex);
      }
    }
  }

  /** Control edges come only from a node a divergence is blamed on, and only to nodes made while diverging. */
  lemma ControlOnlyWhileDiverging(refPath: seq<Head>, es: seq<Event>, node: NodeID)
    requires node !in RunOf(refPath, es).controlFrom
    ensures var f := RunOf(refPath, es); var from := NodeStep(f, node).controlFrom[node];
            && (!f.isDiverging ==> from == {})
            && (from != {} <==> f.divergingNode.Some?) && (from != {} ==> from == {f.divergingNode.value})
  {
    RunConsistent(refPath, es);
  }

  // ---- What a divergence is blamed on ----

  /** Whether the run diverges after `k` of the events. */
  predicate DivergesAfter(refPath: seq<Head>, es: seq<Event>, k: nat)
    requires k <= |es|
  {
    RunOf(refPath, es[..k]).isDiverging
  }

  /** The run has been diverging ever since its `b`-th event, and not before it. */
  predicate DivergesSince(refPath: seq<Head>, es: seq<Event>, b: nat) {
    && b < |es| && !DivergesAfter(refPath, es, b)
    && forall k :: b < k <= |es| ==> DivergesAfter(refPath, es, k)
  }

  /** A diverging run has been diverging since some event. */
  lemma {:induction false} DivergesSinceSome(refPath: seq<Head>, es: seq<Event>)
    ensures RunOf(refPath, es).isDiverging == exists b: nat :: DivergesSince(refPath, es, b)
  {
    assert es[..|es|] == es;
    assert DivergesAfter(refPath, es, |es|) == RunOf(refPath, es).isDiverging;
    if RunOf(refPath, es).isDiverging {
      var n := |es| - 1;
      DivergesSinceSome(refPath, es[..n]);
      if RunOf(refPath, es[..n]).isDiverging {
        var b: nat :| DivergesSince(refPath, es[..n], b);
        SinceLonger(refPath, es, b);
      } else {
        assert DivergesSince(refPath, es, n);
      }
    }
  }

  lemma SinceLonger(refPath: seq<Head>, es: seq<Event>, b: nat)
    requires b + 1 < |es|
    ensures DivergesSince(refPath, es, b) == (DivergesAfter(refPath, es, |es|) && DivergesSince(refPath, es[..|es| - 1], b))
  {
    var n := |es| - 1;
    forall k: nat | k <= n ensures DivergesAfter(refPath, es[..n], k) == DivergesAfter(refPath, es, k) {
      assert es[..n][..k] == es[..k];
    }
  }

  /** The sink of the tail `b`, if there was more of the reference path to follow at that time. */
  function BlameAt(refPath: seq<Head>, es: seq<Event>, b: nat): Option<NodeID>
    requires b < |es| && es[b].Tail?
  {
    if RunOf(refPath, es[..b]).currentBlockIndex + 1 < |refPath| then es[b].sink else None
  }

  lemma BlameAtBeginning(refPath: seq<Head>, es: seq<Event>)
    requires es != [] && !RunOf(refPath, es[..|es| - 1]).isDiverging && RunOf(refPath, es).isDiverging
    ensures es[|es| - 1].Tail? && RunOf(refPath, es).divergingNode == BlameAt(refPath, es, |es| - 1)
  {
    RunConsistent(refPath, es[..|es| - 1]);
  }

  lemma BlameStays(refPath: seq<Head>, es: seq<Event>)
    requires es != [] && RunOf(refPath, es[..|es| - 1]).isDiverging && RunOf(refPath, es).isDiverging
    ensures RunOf(refPath, es).divergingNode == RunOf(refPath, es[..|es| - 1]).divergingNode
  {
  }

  /**
   While a run diverges, the diverging node is the tainted sink of the tail this divergence began at;
   there is none if that tail had none, or if it left the last block of the reference path.
   */
  lemma {:induction false} BlamedExactly(refPath: seq<Head>, es: seq<Event>, b: nat)
    requires DivergesSince(refPath, es, b)
    ensures es[b].Tail? && RunOf(refPath, es).divergingNode == BlameAt(refPath, es, b)
  {
    assert es[..|es|] == es && DivergesAfter(refPath, es, |es|);
    if b + 1 == |es| {
      BlameAtBeginning(refPath, es);
    } else {
      var n := |es| - 1;
      SinceLonger(refPath, es, b);
      BlamedExactly(refPath, es[..n], b);
      assert es[..n][..n] == es[..n] && DivergesAfter(refPath, es[..n], n);
      BlameStays(refPath, es);
      assert es[..n][..b] == es[..b];
    }
  }

  /** A node gets its control edges when it is first asked for, and keeps them. */
  lemma {:induction false} NodeMadeOnce(refPath: seq<Head>, es: seq<Event>, i: nat, node: NodeID)
    requires i < |es| && es[i] == NewNode(node) && NewNode(node) !in es[..i]
    ensures node !in RunOf(refPath, es[..i]).controlFrom && node in RunOf(refPath, es).controlFrom
    ensures RunOf(refPath, es).controlFrom[node] == NodeStep(RunOf(refPath, es[..i]), node).controlFrom[node]
    decreases |es|
  {
    var n := |es| - 1;
    if i == n {
      NotMadeBefore(refPath, es[..n], node);
    } else {
      assert es[..n][..i] == es[..i];
      NodeMadeOnce(refPath, es[..n], i, node);
    }
  }

  lemma {:induction false} NotMadeBefore(refPath: seq<Head>, es: seq<Event>, node: NodeID)
    requires NewNode(node) !in es
    ensures node !in RunOf(refPath, es).controlFrom
  {
    if es != [] {
      NotMadeBefore(refPath, es[..|es| - 1], node);
    }
  }

  /**
   A node made on the reference path has no control edge, one made while the run diverges has exactly
   the edge from the sink of the tail that divergence began at, if there is one to blame.
   */
  lemma ControlEdgesExactly(refPath: seq<Head>, es: seq<Event>, i: nat, node: NodeID)
    requires i < |es| && es[i] == NewNode(node) && NewNode(node) !in es[..i]
    ensures node in RunOf(refPath, es).controlFrom
    ensures !RunOf(refPath, es[..i]).isDiverging ==> RunOf(refPath, es).controlFrom[node] == {}
    ensures forall b: nat :: DivergesSince(refPath, es[..i], b) ==>
              && es[b].Tail?
              && RunOf(refPath, es).controlFrom[node] == Edges(BlameAt(refPath, es[..i], b))
  {
    NodeMadeOnce(refPath, es, i, node);
    DivergesSinceSome(refPath, es[..i]);
    forall b: nat | DivergesSince(refPath, es[..i], b)
      ensures es[b].Tail? && RunOf(refPath, es).controlFrom[node] == Edges(BlameAt(refPath, es[..i], b))
    {
      BlamedExactly(refPath, es[..i], b);
    }
  }

  function Edges(blamed: Option<NodeID>): set<NodeID> {
    if blamed.Some? then {blamed.value} else {}
  }

  // ---- Staying on the path ----

  /** The run comes to exactly the next blocks of the reference path. */
  predicate Follows(refPath: seq<Head>, es: seq<Event>) {
    if es == [] then true
    else if es[|es| - 1].NewNode? then Follows(refPath, es[..|es| - 1])
    else
      var k := Tails(es);
      k < |refPath| && es[|es| - 1].next == refPath[k] && Follows(refPath, es[..|es| - 1])
  }

  function Tails(es: seq<Event>): nat {
    if es == [] then 0 else Tails(es[..|es| - 1]) + if es[|es| - 1].Tail? then 1 else 0
  }

  /** A run that follows the reference path from its first block never diverges. */
  lemma {:induction false} FollowingNeverDiverges(refPath: seq<Head>, es: seq<Event>)
    requires Follows(refPath, es)
    ensures !RunOf(refPath, es).isDiverging && RunOf(refPath, es).currentBlockIndex == Tails(es)
  {
    if es != [] {
      FollowingNeverDiverges(refPath, es[..|es| - 1]);
    }
  }

  /** The run diverges at no time. */
  predicate NeverDiverges(refPath: seq<Head>, es: seq<Event>) {
    !RunOf(refPath, es).isDiverging && (es != [] ==> NeverDiverges(refPath, es[..|es| - 1]))
  }

  /** A run never diverges if and only if its tails lead to exactly the next blocks of the reference path. */
  lemma {:induction false} NeverDivergesExactly(refPath: seq<Head>, es: seq<Event>)
    ensures NeverDiverges(refPath, es) <==> Follows(refPath, es)
  {
    if es != [] {
      var n := |es| - 1;
      NeverDivergesExactly(refPath, es[..n]);
      if Follows(refPath, es[..n]) {
        FollowingNeverDiverges(refPath, es[..n]);
        RunConsistent(refPath, es[..n]);
      }
    }
  }

  // ---- Blocks that fall through ----

  /** The run through the blocks of the path up to the `n`-th, in which block k ends in a tail opcode if tails[k]. */
  function PathRun(refPath: seq<Head>, tails: seq<bool>, sinks: nat -> Option<NodeID>, n: nat): seq<Event>
    requires n <= |tails| < |refPath|
  {
    if n == 0 then []
    else PathRun(refPath, tails, sinks, n - 1) + if tails[n - 1] then [Tail(refPath[n], sinks(n))] else []
  }

  /** No block falls through before one that ends in a tail opcode. */
  predicate TailsFirst(tails: seq<bool>, n: nat)
    requires n <= |tails|
  {
    forall j, k :: 0 <= j < k < n && tails[k] ==> tails[j]
  }

  predicate DistinctHeads(refPath: seq<Head>) {
    forall i, j :: 0 <= i < j < |refPath| ==> refPath[i] != refPath[j]
  }

  /** The last block of a run on the path calls the hook, or not. */
  lemma PathRunTails(refPath: seq<Head>, tails: seq<bool>, sinks: nat -> Option<NodeID>, n: nat)
    requires 0 < n <= |tails| < |refPath|
    ensures Tails(PathRun(refPath, tails, sinks, n)) == Tails(PathRun(refPath, tails, sinks, n - 1)) + if tails[n - 1] then 1 else 0
  {
    var es := PathRun(refPath, tails, sinks, n - 1);
    if tails[n - 1] {
      assert (es + [Tail(refPath[n], sinks(n))])[..|es|] == es;
    } else {
      assert es + [] == es;
    }
  }

  function Hooks(tails: seq<bool>, n: nat): nat
    requires n <= |tails|
  {
    if n == 0 then 0 else Hooks(tails, n - 1) + if tails[n - 1] then 1 else 0
  }

  lemma {:induction false} HooksCalled(refPath: seq<Head>, tails: seq<bool>, sinks: nat -> Option<NodeID>, n: nat)
    requires n <= |tails| < |refPath|
    ensures Tails(PathRun(refPath, tails, sinks, n)) == Hooks(tails, n)
  {
    if n > 0 {
      HooksCalled(refPath, tails, sinks, n - 1);
      PathRunTails(refPath, tails, sinks, n);
    }
  }

  /** There are as many hooks as blocks if and only if every block calls one. */
  lemma {:induction false} AllHooks(tails: seq<bool>, n: nat)
    requires n <= |tails|
    ensures Hooks(tails, n) <= n && (Hooks(tails, n) == n <==> forall k :: 0 <= k < n ==> tails[k])
  {
    if n > 0 {
      AllHooks(tails, n - 1);
    }
  }

  lemma FollowsTail(refPath: seq<Head>, es: seq<Event>, next: Head, sink: Option<NodeID>)
    ensures Follows(refPath, es + [Tail(next, sink)]) ==
            (Tails(es) + 1 < |refPath| && next == refPath[Tails(es) + 1] && Follows(refPath, es))
  {
    assert (es + [Tail(next, sink)])[..|es|] == es;
  }

  lemma {:induction false} PathRunFollows(refPath: seq<Head>, tails: seq<bool>, sinks: nat -> Option<NodeID>, n: nat)
    requires n <= |tails| < |refPath| && DistinctHeads(refPath)
    ensures Follows(refPath, PathRun(refPath, tails, sinks, n)) == TailsFirst(tails, n)
  {
    if n > 0 {
      PathRunFollows(refPath, tails, sinks, n - 1);
      HooksCalled(refPath, tails, sinks, n - 1);
      AllHooks(tails, n - 1);
      var es := PathRun(refPath, tails, sinks, n - 1);
      if tails[n - 1] {
        FollowsTail(refPath, es, refPath[n], sinks(n));
      } else {
        assert es + [] == es;
      }
    }
  }

  /**
   A run through exactly the blocks of a path whose heads differ never diverges if and only if no block
   that falls through comes before one that ends in a tail opcode.
   */
  lemma FallThroughExactly(refPath: seq<Head>, tails: seq<bool>, sinks: nat -> Option<NodeID>, n: nat)
    requires n <= |tails| < |refPath| && DistinctHeads(refPath)
    ensures NeverDiverges(refPath, PathRun(refPath, tails, sinks, n)) <==> TailsFirst(tails, n)
  {
    NeverDivergesExactly(refPath, PathRun(refPath, tails, sinks, n));
    PathRunFollows(refPath, tails, sinks, n);
  }

  /** So a run that stays on a path of three blocks diverges if the first of them falls through and the second does not. */
  lemma FallThroughDiverges(a: Head, b: Head, c: Head, sinks: nat -> Option<NodeID>)
    requires a != b && b != c && a != c
    ensures !NeverDiverges([a, b, c], PathRun([a, b, c], [false, true], sinks, 2))
  {
    FallThroughExactly([a, b, c], [false, true], sinks, 2);
    assert [false, true][1] && ![false, true][0];
  }

  // ---- Whether a diverging run can come back ----

  /** A diverging run merges at some next block if and only if the reference path has a block ahead. */
  lemma MergesAgainExactly(refPath: seq<Head>, es: seq<Event>)
    requires RunOf(refPath, es).isDiverging
    ensures var f := RunOf(refPath, es);
            (exists next: Head :: !TailStep(refPath, f, next, None).isDiverging) <==> f.currentBlockIndex + 1 < |refPath|
  {
    RunConsistent(refPath, es);
    var f := RunOf(refPath, es);
    if f.potentialMergeBlock != map[] {
      var next :| next in f.potentialMergeBlock;
      assert !TailStep(refPath, f, next, None).isDiverging;
    }
  }

  /** A run that diverges at the end of the reference path stays diverged, and synchronises nowhere any more. */
  lemma {:induction false} PastTheEnd(refPath: seq<Head>, es: seq<Event>, more: seq<Event>)
    requires RunOf(refPath, es).isDiverging && RunOf(refPath, es).currentBlockIndex + 1 >= |refPath|
    ensures RunOf(refPath, es + more).isDiverging
    ensures RunOf(refPath, es + more).currentBlockIndex == RunOf(refPath, es).currentBlockIndex
    ensures Synced(refPath, es + more) == Synced(refPath, es)
    decreases |more|
  {
    if more == [] {
      assert es + more == es;
    } else {
      var n := |more| - 1;
      PastTheEnd(refPath, es, more[..n]);
      RunConsistent(refPath, es + more[..n]);
      assert (es + more)[..|es| + n] == es + more[..n];
    }
  }
}
