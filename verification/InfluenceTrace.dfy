/**
 The search back from a tainted sink to a source: which node it started from and through which
 operations it went. The graph may have cycles, control dependencies being edges too.
 */
module InfluenceTrace {
  import opened Chain
  import opened CallPositions

  type Node = nat

  /** The nodes a node takes its value from, what is a source, and the call each node's operation ran in. */
  datatype Graph = Graph(from: map<Node, seq<Node>>, source: set<Node>, callOf: Node -> Position) {
    predicate Closed() {
      forall n :: n in from ==> forall m :: m in from[n] ==> m in from
    }
  }

  // ---- Paths ----

  predicate IsPath(g: Graph, p: seq<Node>)
    requires g.Closed()
  {
    p != [] && (forall n :: n in p ==> n in g.from) && forall i :: 0 <= i < |p| - 1 ==> p[i + 1] in g.from[p[i]]
  }

  /** Every node but the last is not a source, and none comes twice. */
  predicate IsSearchPath(g: Graph, p: seq<Node>)
    requires g.Closed()
  {
    IsPath(g, p) && Distinct(p) && forall i :: 0 <= i < |p| - 1 ==> p[i] !in g.source
  }

  /** The `i`-th operation of a trace feeds the next one. */
  predicate FeedsNext(g: Graph, trace: seq<Node>, i: nat)
    requires i + 1 < |trace|
  {
    trace[i + 1] in g.from && trace[i] in g.from[trace[i + 1]]
  }

  predicate Distinct(p: seq<Node>) {
    forall i, j :: 0 <= i < j < |p| ==> p[i] != p[j]
  }

  ghost predicate SourceReachable(g: Graph, sink: Node)
    requires g.Closed()
  {
    exists p: seq<Node> :: IsPath(g, p) && p[0] == sink && p[|p| - 1] in g.source
  }

  // ---- The trace of calls ----

  function Reverse<T>(s: seq<T>): seq<T> {
    if s == [] then [] else Reverse(s[1..]) + [s[0]]
  }

  /** A call is added when a node runs in another one than the node before. */
  function Entered(cTrace: seq<Position>, call: Position): seq<Position> {
    if cTrace == [] || Order(call, cTrace[|cTrace| - 1]) != 0 then cTrace + [call] else cTrace
  }

  /** The calls along a path, after those in `before`. */
  function CallsAlong(g: Graph, before: seq<Position>, p: seq<Node>): seq<Position> {
    if p == [] then before else Entered(CallsAlong(g, before, p[..|p| - 1]), g.callOf(p[|p| - 1]))
  }

  method Reversed<T>(s: seq<T>) returns (r: seq<T>)
    ensures r == Reverse(s)
  {
    r := [];
    assert s[0..] == s;
    for i := 0 to |s|
      invariant Reverse(s[i..]) + r == Reverse(s)
    {
      assert s[i..][0] == s[i] && s[i..][1..] == s[i + 1..];
      r := [s[i]] + r;
    }
  }

  // ---- The search ----

  datatype Found = Found(source: Node, trace: seq<Node>, callTrace: seq<Position>)

  /** What a search leaves behind when it finds nothing: nothing it has newly visited leads anywhere else. */
  predicate Explored(g: Graph, before: set<Node>, after: set<Node>)
    requires g.Closed()
  {
    && before <= after <= g.from.Keys
    && forall n :: n in after - before ==> n !in g.source && forall m :: m in g.from[n] ==> m in after
  }

  /** What a search returns for the path `p` it found, first to last. */
  predicate AnswersBy(g: Graph, start: Node, calls: seq<Position>, f: Found, p: seq<Node>)
    requires g.Closed()
  {
    && IsSearchPath(g, p) && p[0] == start && p[|p| - 1] == f.source && f.source in g.source
    && f.trace == Reverse(p) && f.callTrace == Reverse(CallsAlong(g, calls, p))
  }

  ghost predicate Answers(g: Graph, start: Node, calls: seq<Position>, f: Found)
    requires g.Closed()
  {
    exists p: seq<Node> :: AnswersBy(g, start, calls, f, p)
  }

  /** Extends a search path by one edge; the nodes on it have all been visited. */
  predicate OnTrace(g: Graph, trace: seq<Node>, node: Node, visited: set<Node>)
    requires g.Closed()
  {
    && node in g.from && Distinct(trace)
    && (forall n :: n in trace ==> n in visited && n in g.from && n !in g.source)
    && (forall i :: 0 <= i < |trace| - 1 ==> trace[i + 1] in g.from[trace[i]])
    && (trace != [] ==> node in g.from[trace[|trace| - 1]])
  }

  method SourceFound(g: Graph, calls: seq<Position>, trace: seq<Node>, cTrace: seq<Position>) returns (f: Found)
    requires g.Closed() && IsSearchPath(g, trace) && trace[|trace| - 1] in g.source && cTrace == CallsAlong(g, calls, trace)
    ensures Answers(g, trace[0], calls, f)
  {
    var oTrace := Reversed(trace);
    var callTrace := Reversed(cTrace);
    f := Found(trace[|trace| - 1], oTrace, callTrace);
    assert AnswersBy(g, trace[0], calls, f, trace);
  }

  /** innerFind, with the visited nodes that its calls share. */
  method InnerFind(g: Graph, calls: seq<Position>, trace: seq<Node>, cTrace: seq<Position>, node: Node, dupNode: set<Node>)
    returns (f: Option<Found>, dupNode': set<Node>)
    requires g.Closed() && dupNode <= g.from.Keys && OnTrace(g, trace, node, dupNode)
    requires cTrace == CallsAlong(g, calls, trace)
    ensures f.Some? ==> Answers(g, (trace + [node])[0], calls, f.value)
    ensures f == None ==> Explored(g, dupNode, dupNode') && node in dupNode'
    decreases |g.from.Keys - dupNode|, 0
  {
    if node in dupNode {
      return None, dupNode;
    }
    dupNode' := dupNode + {node};
    var trace' := trace + [node];
    var cTrace' := if |cTrace| == 0 || Order(g.callOf(node), cTrace[|cTrace| - 1]) != 0 then cTrace + [g.callOf(node)] else cTrace;
    TraceExtended(g, trace, node, dupNode);
    CallsExtended(g, calls, trace, node);
    if node in g.source {
      var found := SourceFound(g, calls, trace', cTrace');
      f := Some(found);
    } else {
      SmallerSet(g.from.Keys - dupNode', g.from.Keys - dupNode, node);
      f, dupNode' := FindFrom(g, calls, trace', cTrace', g.from[node], dupNode');
      if f == None {
        ExploredNode(g, node, dupNode, dupNode');
      }
    }
  }

  lemma ExploredNode(g: Graph, node: Node, before: set<Node>, after: set<Node>)
    requires g.Closed() && node in g.from && node !in g.source && Explored(g, before + {node}, after)
    requires forall m :: m in g.from[node] ==> m in after
    ensures Explored(g, before, after) && node in after
  {
    forall n | n in after - before ensures n !in g.source && forall m :: m in g.from[n] ==> m in after {
      if n != node {
        assert n in after - (before + {node});
      }
    }
  }

  lemma CallsExtended(g: Graph, calls: seq<Position>, trace: seq<Node>, node: Node)
    ensures CallsAlong(g, calls, trace + [node]) == Entered(CallsAlong(g, calls, trace), g.callOf(node))
  {
    assert (trace + [node])[..|trace|] == trace;
  }

  lemma TraceExtended(g: Graph, trace: seq<Node>, node: Node, visited: set<Node>)
    requires g.Closed() && OnTrace(g, trace, node, visited) && node !in visited
    ensures var trace' := trace + [node];
            && IsSearchPath(g, trace')
            && (node !in g.source ==> forall m :: m in g.from[node] ==> OnTrace(g, trace', m, visited + {node}))
  {
  }

  /** The loop over the upstream nodes of the last node of the trace. */
  method FindFrom(g: Graph, calls: seq<Position>, trace: seq<Node>, cTrace: seq<Position>, fromNodes: seq<Node>, dupNode: set<Node>)
    returns (f: Option<Found>, dupNode': set<Node>)
    requires g.Closed() && dupNode <= g.from.Keys && trace != []
    requires forall m :: m in fromNodes ==> OnTrace(g, trace, m, dupNode)
    requires cTrace == CallsAlong(g, calls, trace)
    ensures f.Some? ==> Answers(g, trace[0], calls, f.value)
    ensures f == None ==> Explored(g, dupNode, dupNode') && forall m :: m in fromNodes ==> m in dupNode'
    decreases |g.from.Keys - dupNode|, 1
  {
    dupNode' := dupNode;
    for i := 0 to |fromNodes|
      invariant Explored(g, dupNode, dupNode') && forall m :: m in fromNodes[..i] ==> m in dupNode'
    {
      assert OnTrace(g, trace, fromNodes[i], dupNode);
      NoLargerSet(g.from.Keys - dupNode', g.from.Keys - dupNode);
      f, dupNode' := InnerFind(g, calls, trace, cTrace, fromNodes[i], dupNode');
      if f.Some? {
        return;
      }
    }
    f := None;
  }

  lemma NoLargerSet<T>(a: set<T>, b: set<T>)
    requires a <= b
    ensures |a| <= |b|
  {
    assert b == a + (b - a);
  }

  lemma SmallerSet<T>(a: set<T>, b: set<T>, x: T)
    requires a <= b && x in b && x !in a
    ensures |a| < |b|
  {
    NoLargerSet(a, b - {x});
  }

  // ---- What the search finds ----

  /** Nothing leaves an explored set, so nothing outside it is reachable. */
  lemma {:induction false} ExploredClosed(g: Graph, visited: set<Node>, p: seq<Node>)
    requires g.Closed() && Explored(g, {}, visited) && IsPath(g, p) && p[0] in visited
    ensures p[|p| - 1] in visited
  {
    if |p| > 1 {
      assert p[1] in g.from[p[0]];
      forall i | 0 <= i < |p[1..]| - 1 ensures p[1..][i + 1] in g.from[p[1..][i]] {
        assert p[i + 2] in g.from[p[i + 1]];
      }
      ExploredClosed(g, visited, p[1..]);
    }
  }

  /**
   The search ends on every graph, cyclic ones too. It finds a source exactly if one is reachable
   upstream from the sink; its trace is then a path of distinct nodes from that source, the only one
   on it, down to the sink. `calls` is the child call of a sink that transfers Ether.
   */
  method LocateVarReadAndInfluenceTrace(g: Graph, sink: Node, calls: seq<Position>) returns (f: Option<Found>)
    requires g.Closed() && sink in g.from
    ensures f.Some? <==> SourceReachable(g, sink)
    ensures f.Some? ==> Answers(g, sink, calls, f.value)
  {
    var visited;
    f, visited := InnerFind(g, calls, [], calls, sink, {});
    if f.Some? {
      var p :| AnswersBy(g, sink, calls, f.value, p);
      assert IsPath(g, p);
    } else {
      forall p | IsPath(g, p) && p[0] == sink ensures p[|p| - 1] !in g.source {
        ExploredClosed(g, visited, p);
      }
    }
  }

  lemma {:induction false} ReverseIs<T>(s: seq<T>)
    ensures |Reverse(s)| == |s| && forall i :: 0 <= i < |s| ==> Reverse(s)[i] == s[|s| - 1 - i]
  {
    if s != [] {
      ReverseIs(s[1..]);
    }
  }

  lemma TraceOfPath(g: Graph, sink: Node, calls: seq<Position>, f: Found, p: seq<Node>)
    requires g.Closed() && AnswersBy(g, sink, calls, f, p)
    ensures f.trace != [] && f.trace[0] == f.source && f.source in g.source && f.trace[|f.trace| - 1] == sink && Distinct(f.trace)
    ensures forall i :: 0 <= i < |f.trace| - 1 ==> FeedsNext(g, f.trace, i)
  {
    ReverseIs(p);
    forall i | 0 <= i < |f.trace| - 1 ensures FeedsNext(g, f.trace, i) {
      var j := |p| - 2 - i;
      assert p[j] in p;
      assert p[j + 1] in g.from[p[j]];
    }
  }

  /** The operation trace starts at the source, ends at the sink, and repeats nothing. */
  lemma TraceRunsFromSource(g: Graph, sink: Node, calls: seq<Position>, f: Found)
    requires g.Closed() && Answers(g, sink, calls, f)
    ensures f.trace != [] && f.trace[0] == f.source && f.source in g.source && f.trace[|f.trace| - 1] == sink && Distinct(f.trace)
    ensures forall i :: 0 <= i < |f.trace| - 1 ==> FeedsNext(g, f.trace, i)
  {
    var p :| AnswersBy(g, sink, calls, f, p);
    TraceOfPath(g, sink, calls, f, p);
  }

  // ---- What the trace of calls is ----

  predicate NeighboursDiffer(calls: seq<Position>) {
    forall i :: 0 <= i < |calls| - 1 ==> calls[i] != calls[i + 1]
  }

  /** The `i`-th operation runs in the call `at[i]`; the next one runs in the next call if it runs in another one. */
  predicate RunsIn(g: Graph, p: seq<Node>, calls: seq<Position>, at: seq<nat>) {
    && |at| == |p|
    && (forall i :: 0 <= i < |p| ==> at[i] < |calls| && calls[at[i]] == g.callOf(p[i]))
    && (forall i {:trigger p[i]} :: 0 <= i < |p| - 1 ==> Advances(g, p, at, i))
  }

  predicate Advances(g: Graph, p: seq<Node>, at: seq<nat>, i: nat)
    requires i + 1 < |p| == |at|
  {
    at[i + 1] == if g.callOf(p[i]) == g.callOf(p[i + 1]) then at[i] else at[i] + 1
  }

  /** How many calls come before the one the first node of a path runs in. */
  function Ahead(g: Graph, before: seq<Position>, node: Node): nat {
    if before == [] || before[|before| - 1] == g.callOf(node) then 0 else 1
  }

  lemma EnteredIs(cTrace: seq<Position>, call: Position)
    requires NeighboursDiffer(cTrace)
    ensures var c := Entered(cTrace, call);
            && NeighboursDiffer(c) && cTrace <= c && c != [] && c[|c| - 1] == call
            && |c| == if cTrace == [] || cTrace[|cTrace| - 1] != call then |cTrace| + 1 else |cTrace|
  {
    if cTrace != [] {
      OrderZero(call, cTrace[|cTrace| - 1]);
    }
  }

  /** What `at` says of the calls along a path, after those in `before`. */
  predicate Along(g: Graph, before: seq<Position>, p: seq<Node>, c: seq<Position>, at: seq<nat>)
    requires p != []
  {
    && NeighboursDiffer(c) && before <= c && RunsIn(g, p, c, at)
    && at[0] == Ahead(g, before, p[0]) && at[|p| - 1] == |c| - 1
  }

  lemma AlongOne(g: Graph, before: seq<Position>, p: seq<Node>) returns (at: seq<nat>)
    requires |before| <= 1 && |p| == 1
    ensures Along(g, before, p, CallsAlong(g, before, p), at)
  {
    EnteredIs(before, g.callOf(p[0]));
    assert p[..0] == [];
    assert CallsAlong(g, before, p) == Entered(before, g.callOf(p[0]));
    at := [|Entered(before, g.callOf(p[0]))| - 1];
  }

  lemma {:induction false} CallsAlongIs(g: Graph, before: seq<Position>, p: seq<Node>) returns (at: seq<nat>)
    requires |before| <= 1 && p != []
    ensures Along(g, before, p, CallsAlong(g, before, p), at)
  {
    if |p| == 1 {
      at := AlongOne(g, before, p);
    } else {
      var n := |p| - 1;
      var rest := CallsAlongIs(g, before, p[..n]);
      var c := CallsAlong(g, before, p[..n]);
      EnteredIs(c, g.callOf(p[n]));
      at := rest + [|CallsAlong(g, before, p)| - 1];
      RunsInOneMore(g, p, c, rest, CallsAlong(g, before, p), at);
    }
  }

  lemma RunsInOneMore(g: Graph, p: seq<Node>, c: seq<Position>, at: seq<nat>, c': seq<Position>, at': seq<nat>)
    requires |p| > 1 && RunsIn(g, p[..|p| - 1], c, at) && at[|p| - 2] == |c| - 1
    requires c' == Entered(c, g.callOf(p[|p| - 1])) && NeighboursDiffer(c) && at' == at + [|c'| - 1]
    ensures RunsIn(g, p, c', at')
  {
    var n := |p| - 1;
    EnteredIs(c, g.callOf(p[n]));
    assert p[..n][n - 1] == p[n - 1];
    forall i | 0 <= i < n ensures Advances(g, p, at', i) {
      if i < n - 1 {
        assert Advances(g, p[..n], at, i);
      }
    }
    forall i | 0 <= i < |p| ensures at'[i] < |c'| && c'[at'[i]] == g.callOf(p[i]) {
      if i < n {
        assert p[..n][i] == p[i];
      }
    }
  }

  lemma NeighboursReversed(calls: seq<Position>)
    requires NeighboursDiffer(calls)
    ensures NeighboursDiffer(Reverse(calls))
  {
    ReverseIs(calls);
    forall i | 0 <= i < |calls| - 1 ensures Reverse(calls)[i] != Reverse(calls)[i + 1] {
      var j := |calls| - 2 - i;
      assert calls[j] != calls[j + 1];
    }
  }

  /** The same seen from the other end. */
  lemma RunsInReversed(g: Graph, p: seq<Node>, calls: seq<Position>, at: seq<nat>, q: seq<Node>, r: seq<Position>, at': seq<nat>)
    requires RunsIn(g, p, calls, at) && |q| == |p| == |at'| && |r| == |calls|
    requires forall i :: 0 <= i < |p| ==> q[i] == p[|p| - 1 - i] && at'[i] == |calls| - 1 - at[|p| - 1 - i]
    requires forall i :: 0 <= i < |calls| ==> r[i] == calls[|calls| - 1 - i]
    ensures RunsIn(g, q, r, at')
  {
    forall i | 0 <= i < |q| - 1 ensures Advances(g, q, at', i) {
      var j := |p| - 2 - i;
      assert p[j] in p && Advances(g, p, at, j);
    }
    forall i | 0 <= i < |q| ensures at'[i] < |r| && r[at'[i]] == g.callOf(q[i]) {
      var j := |p| - 1 - i;
      assert calls[at[j]] == g.callOf(p[j]);
    }
  }

  /** The indices counted from the other end. */
  function Mirrored(at: seq<nat>, n: nat): (r: seq<nat>)
    requires forall i :: 0 <= i < |at| ==> at[i] < n
    ensures |r| == |at| && forall i :: 0 <= i < |at| ==> r[i] == n - 1 - at[|at| - 1 - i]
  {
    if at == [] then [] else [n - 1 - at[|at| - 1]] + Mirrored(at[..|at| - 1], n)
  }

  /** Of a path from the sink up: the calls along it, from the other end. */
  lemma CallsReversed(g: Graph, calls: seq<Position>, p: seq<Node>) returns (at: seq<nat>)
    requires |calls| <= 1 && p != []
    ensures var c := Reverse(CallsAlong(g, calls, p));
            && NeighboursDiffer(c) && RunsIn(g, Reverse(p), c, at) && |at| == |p|
            && c != [] && at[0] == 0 && at[|p| - 1] == |c| - 1 - Ahead(g, calls, p[0])
            && (calls != [] ==> c[|c| - 1] == calls[0])
  {
    var along := CallsAlongIs(g, calls, p);
    var c := CallsAlong(g, calls, p);
    at := Mirrored(along, |c|);
    ReverseIs(p);
    ReverseIs(c);
    NeighboursReversed(c);
    RunsInReversed(g, p, c, along, Reverse(p), Reverse(c), at);
  }

  /**
   The trace of calls is the calls of the operation trace with repeats joined: neighbours differ, it
   starts with the call of the source, and the operations run through it one after the other. It ends
   with the sink's call, or with the given child call, which stays last and comes after the sink's call
   unless that is the same.
   */
  lemma CallTraceJoins(g: Graph, sink: Node, calls: seq<Position>, f: Found) returns (at: seq<nat>)
    requires g.Closed() && Answers(g, sink, calls, f) && |calls| <= 1
    ensures f.callTrace != [] && NeighboursDiffer(f.callTrace)
    ensures RunsIn(g, f.trace, f.callTrace, at) && at != [] && at[0] == 0
    ensures var last := |f.callTrace| - 1;
            && (calls == [] ==> at[|at| - 1] == last)
            && (calls != [] ==> f.callTrace[last] == calls[0] && at[|at| - 1] == if calls[0] == g.callOf(sink) then last else last - 1)
  {
    var p: seq<Node> :| AnswersBy(g, sink, calls, f, p);
    at := CallsReversed(g, calls, p);
  }
}
