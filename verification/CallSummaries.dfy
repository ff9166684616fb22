/**
 Call summaries: what each message call defines, uses, transfers and earns, in segments that the
 nested calls interleave, and the overall views folded from them.
 */
module CallSummaries {
  import opened Chain
  import opened StateVars
  import opened Profits
  import opened Transfers

  /** Storage and balances; what is not there is zero. */
  datatype State = State(storage: map<Slot, Hash>, balances: map<Address, int>) {
    function GetState(s: Slot): Hash {
      Get(storage, s, 0)
    }

    function GetBalance(a: Address): int {
      Get(balances, a, 0)
    }
  }

  datatype Data = Data(defs: seq<StateVariable>, uses: seq<StateVariable>, transfers: seq<Transfer>, profits: seq<Profit>)

  const EmptyData := Data([], [], [], [])

  /** A call with its segments and its nested calls: segment 0, call 0, segment 1, call 1, and so on. */
  datatype CallTree = CallTree(data: seq<Data>, nested: seq<CallTree>, failed: bool, preState: State)

  // ---- The folds: up to the `k`-th nested call, first without its segment and then with it ----

  function Segment(t: CallTree, k: nat): Data {
    if k < |t.data| then t.data[k] else EmptyData
  }

  function DefsBefore(t: CallTree, k: nat): seq<StateVariable>
    requires k <= |t.nested|
    decreases t, k, 0
  {
    if k == 0 then [] else OverrideAll(DefsWithin(t, k - 1), CallDefs(t.nested[k - 1]))
  }

  function DefsWithin(t: CallTree, k: nat): seq<StateVariable>
    requires k <= |t.nested|
    decreases t, k, 1
  {
    OverrideAll(DefsBefore(t, k), Segment(t, k).defs)
  }

  /** What a call defines for its caller: nothing if it failed. */
  function CallDefs(t: CallTree): seq<StateVariable>
    decreases t
  {
    if t.failed then [] else DefsWithin(t, |t.nested|)
  }

  function UsesBefore(t: CallTree, k: nat): seq<StateVariable>
    requires k <= |t.nested|
    decreases t, k, 0
  {
    if k == 0 then [] else IfAbsentAll(UsesWithin(t, k - 1), CallUses(t.nested[k - 1]))
  }

  function UsesWithin(t: CallTree, k: nat): seq<StateVariable>
    requires k <= |t.nested|
    decreases t, k, 1
  {
    IfAbsentAll(UsesBefore(t, k), Segment(t, k).uses)
  }

  /** Failing does not undo uses. */
  function CallUses(t: CallTree): seq<StateVariable>
    decreases t
  {
    UsesWithin(t, |t.nested|)
  }

  function ProfitsBefore(t: CallTree, k: nat): seq<Profit>
    requires k <= |t.nested|
    decreases t, k, 0
  {
    if k == 0 then [] else AddAll(ProfitsWithin(t, k - 1), CallProfits(t.nested[k - 1]))
  }

  function ProfitsWithin(t: CallTree, k: nat): seq<Profit>
    requires k <= |t.nested|
    decreases t, k, 1
  {
    AddAll(ProfitsBefore(t, k), Segment(t, k).profits)
  }

  /** Profits that come to zero are dropped call by call. */
  function CallProfits(t: CallTree): seq<Profit>
    decreases t
  {
    if t.failed then [] else NonZero(ProfitsWithin(t, |t.nested|))
  }

  function TransfersBefore(t: CallTree, k: nat): seq<Transfer>
    requires k <= |t.nested|
    decreases t, k, 0
  {
    if k == 0 then [] else TransfersWithin(t, k - 1) + CallTransfers(t.nested[k - 1])
  }

  function TransfersWithin(t: CallTree, k: nat): seq<Transfer>
    requires k <= |t.nested|
    decreases t, k, 1
  {
    TransfersBefore(t, k) + Segment(t, k).transfers
  }

  /** Transfers in the order they happened. */
  function CallTransfers(t: CallTree): seq<Transfer>
    decreases t
  {
    if t.failed then [] else TransfersWithin(t, |t.nested|)
  }

  /** Whether a definition differs from the state before the transaction; code definitions always stay. */
  predicate Changes(pre: State, def: StateVariable) {
    match def
    case StorageVariable(a, key, value, _) => pre.GetState(Slot(a, key)) != value
    case BalanceVariable(a, amount, _) => pre.GetBalance(a) != amount
    case CodeVariable(_, _, _, _, _) => true
  }

  function Changed(pre: State, defs: seq<StateVariable>): seq<StateVariable> {
    if defs == [] then [] else (if Changes(pre, defs[0]) then [defs[0]] else []) + Changed(pre, defs[1..])
  }

  /** Only the root drops definitions that change nothing. */
  function Overall(t: CallTree, isRoot: bool): seq<StateVariable> {
    if isRoot && !t.failed then Changed(t.preState, CallDefs(t)) else CallDefs(t)
  }

  method ClearUnchanged(pre: State, defs: seq<StateVariable>) returns (cp: seq<StateVariable>)
    ensures cp == Changed(pre, defs)
  {
    cp := [];
    assert defs[0..] == defs;
    for i := 0 to |defs|
      invariant cp + Changed(pre, defs[i..]) == Changed(pre, defs)
    {
      if Changes(pre, defs[i]) {
        cp := cp + [defs[i]];
      }
      assert defs[i..][1..] == defs[i + 1..];
    }
  }

  lemma {:induction false} ChangedLookup(pre: State, defs: seq<StateVariable>, id: VarID)
    requires Distinct(defs)
    ensures Lookup(Changed(pre, defs), id) ==
            if Lookup(defs, id).Some? && Changes(pre, Lookup(defs, id).value) then Lookup(defs, id) else None
    ensures Distinct(Changed(pre, defs)) && IDs(Changed(pre, defs)) <= IDs(defs)
  {
    if defs != [] {
      ChangedLookup(pre, defs[1..], id);
      LookupIn(defs[1..], id);
      LookupIn(Changed(pre, defs[1..]), id);
      if Changes(pre, defs[0]) {
        assert ([defs[0]] + Changed(pre, defs[1..]))[1..] == Changed(pre, defs[1..]);
      } else {
        assert Changed(pre, defs) == Changed(pre, defs[1..]);
      }
    }
  }

  // ---- The same in place, with the results kept ----

  /** A finished call summary. The four caches are filled the first time each view is asked for. */
  class CallSummary {
    const data: seq<Data>
    const nested: seq<CallSummary>
    const failed: bool
    const isRoot: bool
    const preState: State
    ghost const tree: CallTree
    ghost const repr: set<CallSummary>
    var overallDefs: Option<seq<StateVariable>>
    var overallUses: Option<seq<StateVariable>>
    var overallProfits: Option<seq<Profit>>
    var overallTransfers: Option<seq<Transfer>>

    /** `below` holds every summary under the nested ones. */
    constructor (data: seq<Data>, nested: seq<CallSummary>, failed: bool, isRoot: bool, preState: State,
                 ghost trees: seq<CallTree>, ghost below: set<CallSummary>)
      requires |data| == |nested| + 1 && |trees| == |nested| && Cached(below)
      requires forall i :: 0 <= i < |nested| ==>
                 nested[i].Shape() && !nested[i].isRoot && nested[i].tree == trees[i] && nested[i].repr <= below
      ensures Shape() && this.isRoot == isRoot && repr == {this} + below && Cached(repr)
      ensures tree == CallTree(data, trees, failed, preState)
    {
      this.data, this.nested, this.failed, this.isRoot, this.preState := data, nested, failed, isRoot, preState;
      overallDefs, overallUses, overallProfits, overallTransfers := None, None, None, None;
      tree := CallTree(data, trees, failed, preState);
      repr := {this} + below;
    }

    /** The nested summaries are smaller, so this one is not among them. */
    ghost predicate Shape()
      decreases tree
    {
      && this in repr && |data| == |nested| + 1
      && |tree.nested| == |nested| && tree.data == data && tree.failed == failed && tree.preState == preState
      && (forall i :: 0 <= i < |nested| ==>
            && nested[i].tree == tree.nested[i] && !nested[i].isRoot && nested[i].Shape()
            && nested[i].repr <= repr && this !in nested[i].repr)
    }

    /** What is kept is what the folds give. */
    ghost predicate Kept()
      reads this
    {
      && (overallDefs.Some? ==> overallDefs.value == Overall(tree, isRoot))
      && (overallUses.Some? ==> overallUses.value == CallUses(tree))
      && (overallProfits.Some? ==> overallProfits.value == CallProfits(tree))
      && (overallTransfers.Some? ==> overallTransfers.value == CallTransfers(tree))
    }

    static ghost predicate Cached(summaries: set<CallSummary>)
      reads summaries
    {
      forall x :: x in summaries ==> x.Kept()
    }

    method NestedDefs(k: nat) returns (inner: seq<StateVariable>)
      requires Shape() && Cached(repr) && k < |nested|
      modifies repr`overallDefs
      ensures Cached(repr) && inner == CallDefs(tree.nested[k])
      decreases tree, 0
    {
      inner := nested[k].OverallDefs();
    }

    /** The loop over segments and nested calls in turn. */
    method FoldDefs() returns (defs: seq<StateVariable>)
      requires Shape() && Cached(repr)
      modifies repr`overallDefs
      ensures Cached(repr) && defs == DefsWithin(tree, |nested|)
      decreases tree, 1
    {
      defs := [];
      for i := 0 to |data| + |nested|
        invariant Cached(repr) && defs == if i % 2 == 0 then DefsBefore(tree, i / 2) else DefsWithin(tree, i / 2)
      {
        if i % 2 == 0 {
          defs := AddWithOverride(defs, data[i / 2].defs);
        } else {
          var inner := NestedDefs(i / 2);
          defs := AddWithOverride(defs, inner);
        }
      }
    }

    method OverallDefs() returns (defs: seq<StateVariable>)
      requires Shape() && Cached(repr)
      modifies repr`overallDefs
      ensures Cached(repr) && defs == Overall(tree, isRoot)
      decreases tree, 2
    {
      if overallDefs.Some? {
        return overallDefs.value;
      }
      defs := [];
      if !failed {
        defs := FoldDefs();
        if isRoot {
          defs := ClearUnchanged(preState, defs);
        }
      }
      overallDefs := Some(defs);
    }

    method NestedUses(k: nat) returns (inner: seq<StateVariable>)
      requires Shape() && Cached(repr) && k < |nested|
      modifies repr`overallUses
      ensures Cached(repr) && inner == CallUses(tree.nested[k])
      decreases tree, 0
    {
      inner := nested[k].OverallUses();
    }

    /** The loop over segments and nested calls in turn. */
    method FoldUses() returns (uses: seq<StateVariable>)
      requires Shape() && Cached(repr)
      modifies repr`overallUses
      ensures Cached(repr) && uses == UsesWithin(tree, |nested|)
      decreases tree, 1
    {
      uses := [];
      for i := 0 to |data| + |nested|
        invariant Cached(repr) && uses == if i % 2 == 0 then UsesBefore(tree, i / 2) else UsesWithin(tree, i / 2)
      {
        if i % 2 == 0 {
          uses := AddIfAbsent(uses, data[i / 2].uses);
        } else {
          var inner := NestedUses(i / 2);
          uses := AddIfAbsent(uses, inner);
        }
      }
    }

    method OverallUses() returns (uses: seq<StateVariable>)
      requires Shape() && Cached(repr)
      modifies repr`overallUses
      ensures Cached(repr) && uses == CallUses(tree)
      decreases tree, 2
    {
      if overallUses.Some? {
        return overallUses.value;
      }
      uses := [];
      uses := FoldUses();
      overallUses := Some(uses);
    }

    method NestedProfits(k: nat) returns (inner: seq<Profit>)
      requires Shape() && Cached(repr) && k < |nested|
      modifies repr`overallProfits
      ensures Cached(repr) && inner == CallProfits(tree.nested[k])
      decreases tree, 0
    {
      inner := nested[k].OverallProfits();
    }

    /** The loop over segments and nested calls in turn. */
    method FoldProfits() returns (profits: seq<Profit>)
      requires Shape() && Cached(repr)
      modifies repr`overallProfits
      ensures Cached(repr) && profits == ProfitsWithin(tree, |nested|)
      decreases tree, 1
    {
      profits := [];
      for i := 0 to |data| + |nested|
        invariant Cached(repr) && profits == if i % 2 == 0 then ProfitsBefore(tree, i / 2) else ProfitsWithin(tree, i / 2)
      {
        if i % 2 == 0 {
          profits := Add(profits, data[i / 2].profits);
        } else {
          var inner := NestedProfits(i / 2);
          profits := Add(profits, inner);
        }
      }
    }

    method OverallProfits() returns (profits: seq<Profit>)
      requires Shape() && Cached(repr)
      modifies repr`overallProfits
      ensures Cached(repr) && profits == CallProfits(tree)
      decreases tree, 2
    {
      if overallProfits.Some? {
        return overallProfits.value;
      }
      profits := [];
      if !failed {
        profits := FoldProfits();
        profits := Compact(profits);
      }
      overallProfits := Some(profits);
    }

    method NestedTransfers(k: nat) returns (inner: seq<Transfer>)
      requires Shape() && Cached(repr) && k < |nested|
      modifies repr`overallTransfers
      ensures Cached(repr) && inner == CallTransfers(tree.nested[k])
      decreases tree, 0
    {
      inner := nested[k].OverallTransfers();
    }

    /** The loop over segments and nested calls in turn. */
    method FoldTransfers() returns (transfers: seq<Transfer>)
      requires Shape() && Cached(repr)
      modifies repr`overallTransfers
      ensures Cached(repr) && transfers == TransfersWithin(tree, |nested|)
      decreases tree, 1
    {
      transfers := [];
      for i := 0 to |data| + |nested|
        invariant Cached(repr) && transfers == if i % 2 == 0 then TransfersBefore(tree, i / 2) else TransfersWithin(tree, i / 2)
      {
        if i % 2 == 0 {
          transfers := transfers + data[i / 2].transfers;
        } else {
          var inner := NestedTransfers(i / 2);
          transfers := transfers + inner;
        }
      }
    }

    method OverallTransfers() returns (transfers: seq<Transfer>)
      requires Shape() && Cached(repr)
      modifies repr`overallTransfers
      ensures Cached(repr) && transfers == CallTransfers(tree)
      decreases tree, 2
    {
      if overallTransfers.Some? {
        return overallTransfers.value;
      }
      transfers := [];
      if !failed {
        transfers := FoldTransfers();
      }
      overallTransfers := Some(transfers);
    }
  }
}
