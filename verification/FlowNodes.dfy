/**
 Flow nodes: the values the taint engine mirrors on its shadow stack, memory and storage.
 A Go nil node is Untainted; a real node remembers the operation it was made for and the nodes
 its value flows from, data edges and control edges together.
 */
module FlowNodes {

  datatype Label = AttackTaint | MemoryMerge

  datatype FlowNode =
    | Untainted
    | Node(tag: Label, op: nat, from: set<FlowNode>)

  /** FlowNodeList.IsTainted */
  predicate IsTainted(nodes: seq<FlowNode>) {
    exists n :: n in nodes && n != Untainted
  }

  /** What AddUpstream keeps of a list: nil entries are dropped. */
  function Upstream(nodes: seq<FlowNode>): set<FlowNode> {
    set n | n in nodes && n != Untainted
  }

  lemma UpstreamConcat(a: seq<FlowNode>, b: seq<FlowNode>)
    ensures Upstream(a + b) == Upstream(a) + Upstream(b)
  {
  }

  /** Following From edges from a node only ever ends at operations in `sources`. */
  ghost predicate Rooted(n: FlowNode, sources: set<nat>)
    decreases n
  {
    n.Node? ==>
      && (n.from == {} ==> n.op in sources)
      && (forall m :: m in n.from ==> m.Node? && Rooted(m, sources))
  }

  lemma {:induction false} RootedMonotone(n: FlowNode, sources: set<nat>, more: set<nat>)
    requires Rooted(n, sources) && sources <= more
    ensures Rooted(n, more)
    decreases n
  {
    if n.Node? {
      forall m | m in n.from ensures m.Node? && Rooted(m, more) {
        RootedMonotone(m, sources, more);
      }
    }
  }

  /** `path` follows From edges: each node flows from the next one. */
  ghost predicate IsFlowPath(path: seq<FlowNode>) {
    && (forall i :: 0 <= i < |path| ==> path[i].Node?)
    && (forall i :: 0 <= i < |path| - 1 ==> path[i + 1] in path[i].from)
  }

  /** From any rooted node some chain of From edges reaches a source. */
  lemma {:induction false} RootedReachesSource(n: FlowNode, sources: set<nat>) returns (path: seq<FlowNode>)
    requires n.Node? && Rooted(n, sources)
    ensures path != [] && path[0] == n && IsFlowPath(path)
    ensures path[|path| - 1].op in sources
    decreases n
  {
    if n.from == {} {
      path := [n];
    } else {
      var m :| m in n.from;
      var rest := RootedReachesSource(m, sources);
      path := [n] + rest;
      assert forall i :: 0 < i < |path| ==> path[i] == rest[i - 1];
    }
  }
}
