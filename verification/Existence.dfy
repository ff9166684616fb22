/**
 Which accounts a lazily forked state says exist. Exist looks at the objects of the StateDB, and
 reading a slot may make one, so it agrees with an eager copy only up to such reads.
 */
module Existence {
  import opened Chain
  import opened LazyFork
  import opened ForkRuns

  // ---- Existence in an eager copy ----

  /** The accounts that exist, and those of the saved copies, oldest first. */
  datatype Known = Known(live: iset<Address>, saved: seq<iset<Address>>)

  ghost predicate ExistsRemotely(remote: Remote, a: Address) {
    remote.AccountOn(a) != NoAccount
  }

  ghost function RemoteKnown(remote: Remote): Known {
    Known(iset a: Address | ExistsRemotely(remote, a), [])
  }

  /** The account an operation writes to, and so makes exist; reads make none. */
  ghost function Written(op: Op): iset<Address> {
    match op
    case AddBalance(a, _) => iset{a}
    case SubBalance(a, _) => iset{a}
    case SetNonce(a, _) => iset{a}
    case SetCode(a, _) => iset{a}
    case SetState(s, _) => iset{s.addr}
    case _ => iset{}
  }

  ghost function KnownStep(k: Known, op: Op): Known
    requires Permitted(|k.saved|, op)
  {
    match op
    case Snapshot => Known(k.live, k.saved + [k.live])
    case RevertToSnapshot(id) => Known(k.saved[id], k.saved[..id])
    case _ => Known(k.live + Written(op), k.saved)
  }

  // ---- Existence in the lazy state ----

  /** Some non-zero slot of the account has been pulled in. */
  ghost predicate ReadThrough(remote: Remote, l: Lazy, a: Address) {
    exists s: Slot :: s.addr == a && Flag(l.maps.storageInherited, s) && remote.StorageOn(s) != 0
  }

  ghost predicate KnownAt(remote: Remote, l: Lazy, live: iset<Address>, a: Address) {
    if a in l.maps.stateInherited then l.db.Exist(a) <==> a in live || ReadThrough(remote, l, a)
    else a in live <==> ExistsRemotely(remote, a)
  }

  ghost predicate KnownRight(remote: Remote, l: Lazy, live: iset<Address>) {
    forall a: Address :: KnownAt(remote, l, live, a)
  }

  lemma NotReadThrough(remote: Remote, l: Lazy, a: Address)
    requires Coherent(remote, l) && a !in l.maps.stateInherited
    ensures !ReadThrough(remote, l, a) && !l.db.Exist(a)
  {
    forall s: Slot | s.addr == a ensures !Flag(l.maps.storageInherited, s) {
      assert SlotCoherent(remote, l, s);
    }
  }

  lemma SameReads(remote: Remote, l: Lazy, l': Lazy, a: Address)
    requires forall s: Slot :: s.addr == a ==> Flag(l'.maps.storageInherited, s) == Flag(l.maps.storageInherited, s)
    ensures ReadThrough(remote, l', a) == ReadThrough(remote, l, a)
  {
    if ReadThrough(remote, l, a) {
      var s: Slot :| s.addr == a && Flag(l.maps.storageInherited, s) && remote.StorageOn(s) != 0;
      assert Flag(l'.maps.storageInherited, s);
    }
  }

  lemma InheritAccountKnown(remote: Remote, l: Lazy, live: iset<Address>, addr: Address)
    requires Coherent(remote, l) && KnownRight(remote, l, live)
    ensures KnownRight(remote, InheritAccount(remote, l, addr), live)
    ensures ReadThrough(remote, InheritAccount(remote, l, addr), addr) == ReadThrough(remote, l, addr)
  {
    var l' := InheritAccount(remote, l, addr);
    if l' != l {
      NotReadThrough(remote, l, addr);
      forall a: Address ensures ReadThrough(remote, l', a) == ReadThrough(remote, l, a) {
        forall s: Slot | s.addr == a ensures Flag(l'.maps.storageInherited, s) == Flag(l.maps.storageInherited, s) {
          assert SlotCoherent(remote, l, s);
        }
        SameReads(remote, l, l', a);
      }
      forall a: Address ensures KnownAt(remote, l', live, a) {
        assert KnownAt(remote, l, live, a);
      }
    }
  }

  lemma InheritSlotKnown(remote: Remote, l: Lazy, live: iset<Address>, s: Slot)
    requires KnownRight(remote, l, live) && s.addr in l.maps.stateInherited
    ensures KnownRight(remote, InheritSlot(remote, l, s), live)
  {
    var l' := InheritSlot(remote, l, s);
    forall a: Address ensures KnownAt(remote, l', live, a) {
      assert KnownAt(remote, l, live, a);
      if a != s.addr || l' == l {
        SameReads(remote, l, l', a);
      } else if remote.StorageOn(s) != 0 {
        assert Flag(l'.maps.storageInherited, s);
      } else {
        ZeroSlotUnread(remote, l, s);
      }
    }
  }

  lemma ZeroSlotUnread(remote: Remote, l: Lazy, s: Slot)
    requires remote.StorageOn(s) == 0
    ensures ReadThrough(remote, InheritSlot(remote, l, s), s.addr) == ReadThrough(remote, l, s.addr)
  {
    var l' := InheritSlot(remote, l, s);
    if t: Slot :| t.addr == s.addr && Flag(l.maps.storageInherited, t) && remote.StorageOn(t) != 0 {
      assert Flag(l'.maps.storageInherited, t);
    }
    if t: Slot :| t.addr == s.addr && Flag(l'.maps.storageInherited, t) && remote.StorageOn(t) != 0 {
      assert Flag(l.maps.storageInherited, t);
    }
  }

  /** A write makes its account exist and pulls in nothing. */
  lemma WriteKnown(remote: Remote, l: Lazy, l': Lazy, live: iset<Address>, addr: Address)
    requires KnownRight(remote, l, live) && addr in l.maps.stateInherited
    requires l'.maps.stateInherited == l.maps.stateInherited && l'.maps.storageInherited == l.maps.storageInherited
    requires forall a: Address :: l'.db.Exist(a) <==> a == addr || l.db.Exist(a)
    ensures KnownRight(remote, l', live + iset{addr})
  {
    forall a: Address ensures KnownAt(remote, l', live + iset{addr}, a) {
      assert KnownAt(remote, l, live, a);
      SameReads(remote, l, l', a);
    }
  }

  lemma TouchKnown(remote: Remote, l: Lazy, live: iset<Address>, s: Slot)
    requires Coherent(remote, l) && KnownRight(remote, l, live)
    ensures KnownRight(remote, Touch(remote, l, s), live) && s.addr in Touch(remote, l, s).maps.stateInherited
  {
    InheritAccountKnown(remote, l, live, s.addr);
    InheritAccountUnseen(remote, l, s.addr);
    InheritSlotKnown(remote, InheritAccount(remote, l, s.addr), live, s);
  }

  lemma AccountWriteKnown(remote: Remote, l: Lazy, live: iset<Address>, op: Op)
    requires Coherent(remote, l) && KnownRight(remote, l, live) && WritesAccount(op)
    ensures KnownRight(remote, LazyUpdate(remote, l, op), live + iset{op.addr})
  {
    InheritAccountKnown(remote, l, live, op.addr);
    InheritAccountUnseen(remote, l, op.addr);
    LazyUpdateRewrites(remote, l, op);
    WriteKnown(remote, InheritAccount(remote, l, op.addr), LazyUpdate(remote, l, op), live, op.addr);
  }

  lemma SlotWriteKnown(remote: Remote, l: Lazy, live: iset<Address>, op: Op)
    requires Coherent(remote, l) && KnownRight(remote, l, live) && op.SetState?
    ensures KnownRight(remote, LazyUpdate(remote, l, op), live + iset{op.slot.addr})
  {
    TouchKnown(remote, l, live, op.slot);
    var l1 := Touch(remote, l, op.slot);
    assert LazyUpdate(remote, l, op) == WriteSlot(l1, op.slot, op.value);
    WriteKnown(remote, l1, WriteSlot(l1, op.slot, op.value), live, op.slot.addr);
  }

  lemma UpdateKnown(remote: Remote, l: Lazy, live: iset<Address>, op: Op)
    requires Coherent(remote, l) && KnownRight(remote, l, live) && !op.Snapshot? && !op.RevertToSnapshot?
    ensures KnownRight(remote, LazyUpdate(remote, l, op), live + Written(op))
  {
    if WritesAccount(op) {
      AccountWriteKnown(remote, l, live, op);
    } else if op.SetState? {
      SlotWriteKnown(remote, l, live, op);
    } else {
      assert live + Written(op) == live;
      if op.GetState? || op.GetCommittedState? {
        TouchKnown(remote, l, live, op.slot);
      } else if op.Finalise? {
        FinaliseKnown(remote, l, live);
      } else {
        InheritAccountKnown(remote, l, live, op.addr);
      }
    }
  }

  lemma FinaliseKnown(remote: Remote, l: Lazy, live: iset<Address>)
    requires KnownRight(remote, l, live)
    ensures KnownRight(remote, FinaliseLazy(l), live)
  {
    forall a: Address ensures KnownAt(remote, FinaliseLazy(l), live, a) {
      assert KnownAt(remote, l, live, a);
      SameReads(remote, l, FinaliseLazy(l), a);
    }
  }

  // ---- Runs ----

  ghost predicate AllKnown(remote: Remote, i: Image, k: Known) {
    && |i.saved| == |k.saved| && KnownRight(remote, i.live, k.live)
    && forall n :: 0 <= n < |i.saved| ==> KnownRight(remote, i.saved[n], k.saved[n])
  }

  lemma StepKnown(remote: Remote, i: Image, k: Known, op: Op)
    requires AllCoherent(remote, i) && AllKnown(remote, i, k) && Permitted(|i.saved|, op)
    ensures AllKnown(remote, LazyStep(remote, i, op), KnownStep(k, op))
  {
    if !op.Snapshot? && !op.RevertToSnapshot? {
      UpdateKnown(remote, i.live, k.live, op);
    }
  }

  function LazyRun(remote: Remote, i: Image, ops: seq<Op>): Image
    requires AllPermitted(|i.saved|, ops)
    decreases |ops|
  {
    if ops == [] then i else LazyRun(remote, LazyStep(remote, i, ops[0]), ops[1..])
  }

  ghost function KnownRun(k: Known, ops: seq<Op>): Known
    requires AllPermitted(|k.saved|, ops)
    decreases |ops|
  {
    if ops == [] then k else KnownRun(KnownStep(k, ops[0]), ops[1..])
  }

  lemma {:induction false} RunKnown(remote: Remote, i: Image, k: Known, ops: seq<Op>)
    requires AllCoherent(remote, i) && AllKnown(remote, i, k) && AllPermitted(|i.saved|, ops)
    ensures AllCoherent(remote, LazyRun(remote, i, ops)) && AllKnown(remote, LazyRun(remote, i, ops), KnownRun(k, ops))
    decreases |ops|
  {
    if ops != [] {
      LazyRefinesEager(remote, i, ops[0]);
      StepKnown(remote, i, k, ops[0]);
      RunKnown(remote, LazyStep(remote, i, ops[0]), KnownStep(k, ops[0]), ops[1..]);
    }
  }

  /** What Exist answers: the objects there are once the account has been inherited. */
  function ExistAnswer(remote: Remote, l: Lazy, a: Address): bool {
    InheritAccount(remote, l, a).db.Exist(a)
  }

  lemma StartKnown(remote: Remote)
    ensures AllKnown(remote, Image(EmptyLazy, []), RemoteKnown(remote)) && AllCoherent(remote, Image(EmptyLazy, []))
  {
    EmptyMeansRemote(remote);
  }

  /**
   After any interleaving of reads, writes, snapshots, reverts and Finalise, Exist says that an account
   exists if it does in the eager copy, or some non-zero slot of it has been read. So it agrees with the
   eager copy unless the account does not exist there and such a slot has been read.
   */
  lemma ExistExactly(remote: Remote, ops: seq<Op>, a: Address)
    requires AllPermitted(0, ops)
    ensures var l, live := LazyRun(remote, Image(EmptyLazy, []), ops).live, KnownRun(RemoteKnown(remote), ops).live;
            && (ExistAnswer(remote, l, a) <==> a in live || ReadThrough(remote, l, a))
            && ((ExistAnswer(remote, l, a) <==> a in live) <==> a in live || !ReadThrough(remote, l, a))
  {
    StartKnown(remote);
    RunKnown(remote, Image(EmptyLazy, []), RemoteKnown(remote), ops);
    var l, live := LazyRun(remote, Image(EmptyLazy, []), ops).live, KnownRun(RemoteKnown(remote), ops).live;
    InheritAccountKnown(remote, l, live, a);
    InheritAccountUnseen(remote, l, a);
    assert KnownAt(remote, InheritAccount(remote, l, a), live, a);
  }

  /** Reading a non-zero slot of an account that is empty remotely makes it exist. */
  lemma ReadMakesExist(remote: Remote, s: Slot)
    requires !ExistsRemotely(remote, s.addr) && remote.StorageOn(s) != 0
    ensures !ExistAnswer(remote, EmptyLazy, s.addr)
    ensures ExistAnswer(remote, LazyUpdate(remote, EmptyLazy, GetState(s)), s.addr)
  {
  }
}
