/**
 Whole runs of the forked state: any interleaving refines the eager machine, a snapshot is
 restored whatever happened in between, and a copy and its original stay apart as long as neither
 reverts to a snapshot both share (SharedRevertShowsInCopy shows what happens when one does).
 */
module ForkRuns {
  import opened LazyFork
  import opened ForkedStates

  function SavedAfter(saved: nat, op: Op): nat {
    match op
    case Snapshot => saved + 1
    case RevertToSnapshot(id) => id
    case _ => saved
  }

  /** Every revert names a snapshot that is still there. */
  predicate AllPermitted(saved: nat, ops: seq<Op>)
    decreases |ops|
  {
    ops == [] || (Permitted(saved, ops[0]) && AllPermitted(SavedAfter(saved, ops[0]), ops[1..]))
  }

  /** No revert names a snapshot below `base`. */
  predicate RevertsFrom(base: nat, ops: seq<Op>) {
    forall op :: op in ops && op.RevertToSnapshot? ==> op.id >= base
  }

  ghost predicate TotalEager(e: Eager) {
    Total(e.world) && forall w :: w in e.saved ==> Total(w)
  }

  lemma StepTotal(e: Eager, op: Op)
    requires TotalEager(e) && Permitted(|e.saved|, op)
    ensures TotalEager(EagerStep(e, op)) && |EagerStep(e, op).saved| == SavedAfter(|e.saved|, op)
  {
  }

  ghost function EagerRun(e: Eager, ops: seq<Op>): (r: Eager)
    requires TotalEager(e) && AllPermitted(|e.saved|, ops)
    ensures TotalEager(r)
    decreases |ops|
  {
    if ops == [] then e else (StepTotal(e, ops[0]); EagerRun(EagerStep(e, ops[0]), ops[1..]))
  }

  /** What the operations of a run answer. */
  ghost function Answers(e: Eager, ops: seq<Op>): seq<Obs>
    requires TotalEager(e) && AllPermitted(|e.saved|, ops)
    decreases |ops|
  {
    if ops == [] then []
    else (StepTotal(e, ops[0]); [EagerObs(e, ops[0])] + Answers(EagerStep(e, ops[0]), ops[1..]))
  }

  // ---- The eager machine: snapshots restore ----

  /** Operations that revert to no snapshot at or below `kept` leave those saved worlds alone. */
  lemma {:induction false} SavedKept(e: Eager, ops: seq<Op>, kept: nat)
    requires TotalEager(e) && kept <= |e.saved| && AllPermitted(|e.saved|, ops) && RevertsFrom(kept, ops)
    ensures var e' := EagerRun(e, ops); kept <= |e'.saved| && e'.saved[..kept] == e.saved[..kept]
    decreases |ops|
  {
    if ops != [] {
      StepTotal(e, ops[0]);
      var e1 := EagerStep(e, ops[0]);
      assert ops[0] in ops && forall op :: op in ops[1..] ==> op in ops;
      assert e1.saved[..kept] == e.saved[..kept];
      SavedKept(e1, ops[1..], kept);
    }
  }

  /**
   Reverting to the id a snapshot returned restores every account, slot and committed value held
   then, and the earlier snapshots, after any operations in between that did not drop it.
   */
  lemma RevertRestores(e: Eager, between: seq<Op>)
    requires TotalEager(e)
    requires AllPermitted(|e.saved| + 1, between) && RevertsFrom(|e.saved| + 1, between)
    ensures var later := EagerRun(Eager(e.world, e.saved + [e.world]), between);
            |later.saved| > |e.saved| && EagerStep(later, RevertToSnapshot(|e.saved|)) == e
  {
    var taken := EagerStep(e, Snapshot);
    SavedKept(taken, between, |e.saved| + 1);
    var later := EagerRun(taken, between);
    assert later.saved[..|e.saved| + 1] == e.saved + [e.world];
    assert later.saved[..|e.saved|] == later.saved[..|e.saved| + 1][..|e.saved|] == e.saved;
  }

  // ---- The lazy state over whole runs ----

  lemma MeaningTotal(remote: Remote, i: Image)
    ensures TotalEager(Meaning(remote, i))
  {
  }

  /** One operation, whatever it is, moves the state as it moves an eager copy. */
  method Perform(s: ForkedState, op: Op, ghost e: Eager) returns (obs: Obs)
    requires s.Valid() && AllCoherent(s.stateProvider, s.Whole()) && Permitted(|s.snapshots|, op)
    requires e == s.Abstract()
    modifies s, s.store
    ensures s.Valid() && s.stateProvider == old(s.stateProvider) && AllCoherent(s.stateProvider, s.Whole())
    ensures s.Abstract() == EagerStep(e, op) && obs == EagerObs(e, op)
    ensures fresh(s.Own(0) - old(s.Own(0)))
  {
    LazyRefinesEager(s.stateProvider, s.Whole(), op);
    obs := s.Apply(op, 0);
  }

  /**
   Any interleaving of reads, writes, snapshots, reverts and Finalise answers exactly as an eager
   copy of the remote state would.
   */
  method Run(s: ForkedState, ops: seq<Op>) returns (out: seq<Obs>)
    requires s.Valid() && AllCoherent(s.stateProvider, s.Whole()) && AllPermitted(|s.snapshots|, ops)
    modifies s, s.Own(0)
    ensures s.Valid() && AllCoherent(s.stateProvider, s.Whole())
    ensures TotalEager(old(s.Abstract())) && s.Abstract() == EagerRun(old(s.Abstract()), ops)
    ensures out == Answers(old(s.Abstract()), ops)
    decreases |ops|
  {
    MeaningTotal(s.stateProvider, s.Whole());
    out := [];
    if ops != [] {
      StepTotal(s.Abstract(), ops[0]);
      assert s.store == s.Stores()[0..][|s.snapshots|] && s.store in s.Own(0);
      var obs := Perform(s, ops[0], s.Abstract());
      out := Run(s, ops[1..]);
      out := [obs] + out;
    }
  }

  lemma {:induction false} RunThen(e: Eager, ops: seq<Op>, op: Op)
    requires TotalEager(e) && AllPermitted(|e.saved|, ops) && Permitted(|EagerRun(e, ops).saved|, op)
    ensures AllPermitted(|e.saved|, ops + [op])
    ensures EagerRun(e, ops + [op]) == EagerStep(EagerRun(e, ops), op)
    decreases |ops|
  {
    if ops == [] {
      StepTotal(e, op);
      assert [] + [op] == [op] && [op][1..] == [];
    } else {
      StepTotal(e, ops[0]);
      assert (ops + [op])[1..] == ops[1..] + [op];
      RunThen(EagerStep(e, ops[0]), ops[1..], op);
    }
  }

  /** Snapshot, anything in between, and the revert, as one run. */
  function RoundTrip(id: nat, between: seq<Op>): seq<Op> {
    [Snapshot] + between + [RevertToSnapshot(id)]
  }

  lemma RoundTripRestores(e: Eager, between: seq<Op>)
    requires TotalEager(e)
    requires AllPermitted(|e.saved| + 1, between) && RevertsFrom(|e.saved| + 1, between)
    ensures AllPermitted(|e.saved|, RoundTrip(|e.saved|, between)) && EagerRun(e, RoundTrip(|e.saved|, between)) == e
  {
    var taken := EagerStep(e, Snapshot);
    RevertRestores(e, between);
    RunThen(taken, between, RevertToSnapshot(|e.saved|));
    var ops := RoundTrip(|e.saved|, between);
    assert ops[0] == Snapshot && ops[1..] == between + [RevertToSnapshot(|e.saved|)];
  }

  /**
   The same of the forked state itself: after Snapshot, any operations that do not drop it, and
   RevertToSnapshot, every getter answers as before, and every earlier snapshot restores what it did.
   */
  method SnapshotAndRevert(s: ForkedState, between: seq<Op>)
    requires s.Valid() && AllCoherent(s.stateProvider, s.Whole())
    requires AllPermitted(|s.snapshots| + 1, between) && RevertsFrom(|s.snapshots| + 1, between)
    modifies s, s.Own(0)
    ensures s.Valid() && AllCoherent(s.stateProvider, s.Whole())
    ensures s.Abstract() == old(s.Abstract())
  {
    MeaningTotal(s.stateProvider, s.Whole());
    RoundTripRestores(s.Abstract(), between);
    var _ := Run(s, RoundTrip(|s.snapshots|, between));
  }

  // ---- A state and its copy, side by side ----

  /** One operation of an interleaving, on the first state or on the second. */
  datatype Turn = Turn(first: bool, op: Op)

  function Of(script: seq<Turn>, first: bool): seq<Op> {
    if script == [] then []
    else (if script[0].first == first then [script[0].op] else []) + Of(script[1..], first)
  }

  /** One operation on `s`, which `t` does not notice. */
  method PerformApart(s: ForkedState, t: ForkedState, ghost base: nat, op: Op) returns (obs: Obs)
    requires s.Valid() && t.Valid() && s.Apart(t, base) && AllCoherent(s.stateProvider, s.Whole())
    requires AllCoherent(t.stateProvider, t.Whole())
    requires Permitted(|s.snapshots|, op) && (op.RevertToSnapshot? ==> op.id >= base)
    modifies s, s.store
    ensures s.Valid() && AllCoherent(s.stateProvider, s.Whole())
    ensures s.Abstract() == EagerStep(old(s.Abstract()), op) && obs == EagerObs(old(s.Abstract()), op)
    ensures unchanged(t) && t.Valid() && AllCoherent(t.stateProvider, t.Whole()) && t.Abstract() == old(t.Abstract())
    ensures t.Stores() == old(t.Stores()) && s.Apart(t, base) && fresh(s.Own(base) - old(s.Own(base)))
  {
    LazyRefinesEager(s.stateProvider, s.Whole(), op);
    obs := s.ApplyApart(t, base, op);
  }

  /** The state a turn leaves: the one it belongs to takes its operation, the other one stays. */
  ghost function After(e: Eager, turn: Turn, first: bool): Eager
    requires Total(e.world) && (turn.first == first ==> Permitted(|e.saved|, turn.op))
  {
    if turn.first == first then EagerStep(e, turn.op) else e
  }

  ghost predicate Playable(e: Eager, base: nat, ops: seq<Op>) {
    TotalEager(e) && AllPermitted(|e.saved|, ops) && RevertsFrom(base, ops)
  }

  lemma PlayTurn(e: Eager, base: nat, script: seq<Turn>, first: bool)
    requires script != [] && Playable(e, base, Of(script, first))
    ensures script[0].first == first ==>
              Permitted(|e.saved|, script[0].op) && (script[0].op.RevertToSnapshot? ==> script[0].op.id >= base)
    ensures Playable(After(e, script[0], first), base, Of(script[1..], first))
    ensures EagerRun(e, Of(script, first)) == EagerRun(After(e, script[0], first), Of(script[1..], first))
    ensures Answers(e, Of(script, first)) ==
            (if script[0].first == first then [EagerObs(e, script[0].op)] else [])
            + Answers(After(e, script[0], first), Of(script[1..], first))
  {
    if script[0].first == first {
      var op := script[0].op;
      assert Of(script, first)[0] == op && Of(script, first)[1..] == Of(script[1..], first);
      StepTotal(e, op);
    } else {
      assert Of(script, first) == Of(script[1..], first);
    }
  }

  method TakeTurn(s: ForkedState, t: ForkedState, ghost base: nat, turn: Turn) returns (obs: Obs)
    requires s.Valid() && t.Valid() && s.Apart(t, base)
    requires AllCoherent(s.stateProvider, s.Whole()) && AllCoherent(t.stateProvider, t.Whole())
    requires Permitted(if turn.first then |s.snapshots| else |t.snapshots|, turn.op)
    requires turn.op.RevertToSnapshot? ==> turn.op.id >= base
    modifies s, t, s.store, t.store
    ensures s.Valid() && t.Valid() && s.Apart(t, base)
    ensures AllCoherent(s.stateProvider, s.Whole()) && AllCoherent(t.stateProvider, t.Whole())
    ensures s.Abstract() == After(old(s.Abstract()), turn, true)
    ensures t.Abstract() == After(old(t.Abstract()), turn, false)
    ensures obs == EagerObs(if turn.first then old(s.Abstract()) else old(t.Abstract()), turn.op)
    ensures fresh(s.Own(base) - old(s.Own(base))) && fresh(t.Own(base) - old(t.Own(base)))
  {
    if turn.first {
      obs := PerformApart(s, t, base, turn.op);
    } else {
      obs := PerformApart(t, s, base, turn.op);
    }
  }

  /**
   Two states apart, as a copy and its original are: run side by side in any interleaving, each answers
   and ends as if the other had never run, provided neither reverts to a snapshot below `base`, the ones shared.
   */
  method RunBoth(s: ForkedState, t: ForkedState, ghost base: nat, script: seq<Turn>) returns (outS: seq<Obs>, outT: seq<Obs>)
    requires s.Valid() && t.Valid() && s.Apart(t, base)
    requires AllCoherent(s.stateProvider, s.Whole()) && AllCoherent(t.stateProvider, t.Whole())
    requires Playable(s.Abstract(), base, Of(script, true)) && Playable(t.Abstract(), base, Of(script, false))
    modifies s, t, s.Own(base), t.Own(base)
    ensures s.Abstract() == EagerRun(old(s.Abstract()), Of(script, true))
    ensures t.Abstract() == EagerRun(old(t.Abstract()), Of(script, false))
    ensures outS == Answers(old(s.Abstract()), Of(script, true)) && outT == Answers(old(t.Abstract()), Of(script, false))
    decreases |script|
  {
    outS, outT := [], [];
    if script != [] {
      PlayTurn(s.Abstract(), base, script, true);
      PlayTurn(t.Abstract(), base, script, false);
      s.OwnStorage(t, base);
      t.OwnStorage(s, base);
      var obs := TakeTurn(s, t, base, script[0]);
      outS, outT := RunBoth(s, t, base, script[1..]);
      if script[0].first {
        outS := [obs] + outS;
      } else {
        outT := [obs] + outT;
      }
    }
  }
}
