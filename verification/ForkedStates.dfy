/**
 ForkedState in place: its storage and snapshots as heap objects. A snapshot is a whole copy that
 shares the snapshots taken before it, and reverting adopts the snapshot's own objects.
 */
module ForkedStates {
  import opened Chain
  import opened LazyFork

  /**
   The StateDB of a ForkedState and its bookkeeping maps, as one heap object: RevertToSnapshot adopts
   all of them together and by reference, Copy copies all of them together.
   */
  class Store {
    var objects: map<Address, Account>
    var dirty: map<Slot, Hash>
    var pending: map<Slot, Hash>
    var maps: Maps

    constructor (l: Lazy)
      ensures Held() == l
    {
      objects, dirty, pending, maps := l.db.objects, l.db.dirty, l.db.pending, l.maps;
    }

    function State(): DbState
      reads this
    {
      DbState(objects, dirty, pending)
    }

    function Held(): Lazy
      reads this
    {
      Lazy(State(), maps)
    }

    method SetAccount(addr: Address, account: Account)
      modifies this`objects
      ensures State() == old(State()).SetAccount(addr, account)
    {
      objects := objects[addr := account];
    }

    method SetState(s: Slot, value: Hash)
      modifies this`objects, this`dirty
      ensures State() == old(State()).SetState(s, value)
    {
      var previous := State().GetState(s);
      objects := objects[s.addr := Get(objects, s.addr, NoAccount)];
      if previous != value {
        dirty := dirty[s := value];
      }
    }

    method Finalise()
      modifies this`dirty, this`pending
      ensures State() == old(State()).Finalise()
    {
      pending, dirty := pending + dirty, map[];
    }
  }

  /** The map loop of ForkedState.Finalise, whatever order it takes the entries in. */
  method CommitCleared(before: Flags, dirty: Flags) returns (committed: Flags)
    ensures committed == ClearedAfter(before, dirty)
  {
    committed := before;
    var todo := dirty.Keys;
    assert dirty - todo == map[];
    while todo != {}
      invariant todo <= dirty.Keys && committed == ClearedAfter(before, dirty - todo)
      decreases |todo|
    {
      var s :| s in todo;
      ClearedStep(before, dirty, todo, s);
      todo := todo - {s};
      if dirty[s] {
        committed := committed[s := true];
      } else {
        committed := committed - {s};
      }
    }
    assert dirty - todo == dirty;
  }

  class ForkedState {
    var store: Store
    var stateProvider: Remote
    var snapshots: seq<ForkedState>

    constructor (remote: Remote)
      ensures Valid() && fresh(store) && AllCoherent(remote, Whole())
      ensures snapshots == [] && stateProvider == remote
      ensures Abstract() == Eager(RemoteWorld(remote), [])
    {
      store := new Store(EmptyLazy);
      stateProvider := remote;
      snapshots := [];
      new;
      EmptyMeansRemote(remote);
    }

    /** The stores of the snapshots, oldest first, and the live one last. */
    ghost function Stores(): seq<Store>
      reads this, snapshots
    {
      seq<Store>(|snapshots|, i requires 0 <= i < |snapshots| reads this, snapshots => snapshots[i].store) + [store]
    }

    /** The stores this state may still write: those of the snapshots from the `base`-th on, and the live one. */
    ghost function Own(base: nat): set<Store>
      requires base <= |snapshots|
      reads this, snapshots
    {
      set x | x in Stores()[base..]
    }

    ghost function Whole(): Image
      reads this, store, snapshots, (set x | x in snapshots :: x.store)
    {
      Image(
        store.Held(),
        seq(|snapshots|, i requires 0 <= i < |snapshots| reads this, snapshots, (set x | x in snapshots :: x.store)
                         => snapshots[i].store.Held()))
    }

    /** Snapshots own separate stores, and the i-th shares exactly the snapshots before it. */
    ghost predicate Valid()
      reads this, snapshots
    {
      && this !in snapshots
      && (forall i :: 0 <= i < |snapshots| ==>
            && snapshots[i].stateProvider == stateProvider
            && snapshots[i].snapshots == snapshots[..i]
            && snapshots[i].store != store)
      && (forall i, j :: 0 <= i < j < |snapshots| ==> snapshots[i].store != snapshots[j].store)
    }

    /** The eager state this one stands for. */
    ghost function Abstract(): Eager
      reads this, store, snapshots, (set x | x in snapshots :: x.store)
    {
      Meaning(stateProvider, Whole())
    }

    method InheritAccountState(addr: Address)
      modifies store
      ensures store.Held() == InheritAccount(stateProvider, old(store.Held()), addr)
    {
      if addr !in store.maps.stateInherited && addr !in store.objects {
        var account := stateProvider.AccountOn(addr);
        if account.balance > 0 || |account.code| > 0 || account.nonce > 0 {
          store.SetAccount(addr, account);
        }
        var m := store.maps;
        store.maps := m.(storageInherited := ClearRow(m.storageInherited, addr),
                         dirtyRows := m.dirtyRows + {addr},
                         dirtyClearedStorage := ClearRow(m.dirtyClearedStorage, addr));
        store.maps := store.maps.(stateInherited := store.maps.stateInherited + {addr});
      }
    }

    method InheritAccountStorage(s: Slot)
      modifies store
      ensures store.Held() == InheritSlot(stateProvider, old(store.Held()), s)
    {
      if !Flag(store.maps.storageInherited, s) {
        var value := stateProvider.StorageOn(s);
        if value != 0 {
          store.SetState(s, value);
        }
        store.maps := store.maps.(storageInherited := store.maps.storageInherited[s := true]);
      }
    }

    method GetBalance(addr: Address) returns (balance: int)
      modifies store
      ensures store.Held() == LazyUpdate(stateProvider, old(store.Held()), Op.GetBalance(addr))
      ensures balance == store.State().GetAccount(addr).balance
    {
      InheritAccountState(addr);
      balance := store.State().GetAccount(addr).balance;
    }

    method GetNonce(addr: Address) returns (nonce: nat)
      modifies store
      ensures store.Held() == LazyUpdate(stateProvider, old(store.Held()), Op.GetNonce(addr))
      ensures nonce == store.State().GetAccount(addr).nonce
    {
      InheritAccountState(addr);
      nonce := store.State().GetAccount(addr).nonce;
    }

    method GetCode(addr: Address) returns (code: seq<nat>)
      modifies store
      ensures store.Held() == LazyUpdate(stateProvider, old(store.Held()), Op.GetCode(addr))
      ensures code == store.State().GetAccount(addr).code
    {
      InheritAccountState(addr);
      code := store.State().GetAccount(addr).code;
    }

    method Empty(addr: Address) returns (empty: bool)
      modifies store
      ensures store.Held() == LazyUpdate(stateProvider, old(store.Held()), Op.Empty(addr))
      ensures empty == (store.State().GetAccount(addr) == NoAccount)
    {
      InheritAccountState(addr);
      var account := store.State().GetAccount(addr);
      empty := account.balance == 0 && account.nonce == 0 && account.code == [];
    }

    /** Answers by the objects there are, so reading may change the answer. */
    method Exist(addr: Address) returns (exists': bool)
      modifies store
      ensures store.Held() == InheritAccount(stateProvider, old(store.Held()), addr)
      ensures exists' == store.State().Exist(addr)
    {
      InheritAccountState(addr);
      exists' := addr in store.objects;
    }

    method GetState(s: Slot) returns (value: Hash)
      modifies store
      ensures store.Held() == LazyUpdate(stateProvider, old(store.Held()), Op.GetState(s))
      ensures value == store.State().GetState(s)
    {
      InheritAccountState(s.addr);
      InheritAccountStorage(s);
      value := store.State().GetState(s);
    }

    method GetCommittedState(s: Slot) returns (value: Hash)
      modifies store
      ensures store.Held() == LazyUpdate(stateProvider, old(store.Held()), Op.GetCommittedState(s))
      ensures value == CommittedOf(stateProvider, store.Held(), s)
    {
      InheritAccountState(s.addr);
      InheritAccountStorage(s);
      value := store.State().GetCommittedState(s);
      if value == 0 {
        if Flag(store.maps.committedClearedStorage, s) {
          return;
        }
        value := stateProvider.StorageOn(s);
      }
    }

    method AddBalance(addr: Address, amount: int)
      modifies store
      ensures store.Held() == LazyUpdate(stateProvider, old(store.Held()), Op.AddBalance(addr, amount))
    {
      InheritAccountState(addr);
      var account := store.State().GetAccount(addr);
      store.SetAccount(addr, account.(balance := account.balance + amount));
    }

    method SubBalance(addr: Address, amount: int)
      modifies store
      ensures store.Held() == LazyUpdate(stateProvider, old(store.Held()), Op.SubBalance(addr, amount))
    {
      InheritAccountState(addr);
      var account := store.State().GetAccount(addr);
      store.SetAccount(addr, account.(balance := account.balance - amount));
    }

    method SetNonce(addr: Address, nonce: nat)
      modifies store
      ensures store.Held() == LazyUpdate(stateProvider, old(store.Held()), Op.SetNonce(addr, nonce))
    {
      InheritAccountState(addr);
      store.SetAccount(addr, store.State().GetAccount(addr).(nonce := nonce));
    }

    method SetCode(addr: Address, code: seq<nat>)
      modifies store
      ensures store.Held() == LazyUpdate(stateProvider, old(store.Held()), Op.SetCode(addr, code))
    {
      InheritAccountState(addr);
      store.SetAccount(addr, store.State().GetAccount(addr).(code := code));
    }

    method SetState(s: Slot, value: Hash)
      requires Coherent(stateProvider, store.Held())
      modifies store
      ensures store.Held() == LazyUpdate(stateProvider, old(store.Held()), Op.SetState(s, value))
    {
      InheritAccountUnseen(stateProvider, store.Held(), s.addr);
      InheritAccountState(s.addr);
      InheritAccountStorage(s);
      store.SetState(s, value);
      MarkCleared(s, value == 0);
    }

    /** Assigns to the inner map of the address, which must have been made. */
    method MarkCleared(s: Slot, cleared: bool)
      requires s.addr in store.maps.dirtyRows
      modifies store`maps
      ensures store.maps == old(store.maps).(dirtyClearedStorage := old(store.maps).dirtyClearedStorage[s := cleared])
    {
      var m := store.maps;
      store.maps := m.(dirtyClearedStorage := m.dirtyClearedStorage[s := cleared]);
    }

    method Finalise()
      modifies store
      ensures store.Held() == LazyUpdate(stateProvider, old(store.Held()), Op.Finalise)
    {
      store.Finalise();
      var committed := CommitCleared(store.maps.committedClearedStorage, store.maps.dirtyClearedStorage);
      store.maps := store.maps.(committedClearedStorage := committed);
    }

    /** Everything is copied except the snapshots, which are shared. */
    method Copy() returns (cp: ForkedState)
      requires Valid()
      ensures fresh(cp) && fresh(cp.store)
      ensures cp.snapshots == snapshots && cp.stateProvider == stateProvider
      ensures cp.Valid() && cp.Whole() == Whole()
    {
      cp := new ForkedState(stateProvider);
      cp.store := new Store(store.Held());
      cp.snapshots := snapshots;
      assert cp.Whole().saved == Whole().saved;
    }

    method Snapshot() returns (id: nat)
      requires Valid()
      modifies this`snapshots
      ensures Valid() && id == |old(snapshots)|
      ensures Whole() == LazyStep(stateProvider, old(Whole()), Op.Snapshot)
      ensures |snapshots| == id + 1 && snapshots[..id] == old(snapshots)
      ensures fresh(snapshots[id]) && fresh(snapshots[id].store)
      ensures Stores() == old(Stores())[..id] + [snapshots[id].store, old(store)] && store == old(store)
    {
      var snapshot := Copy();
      id := |snapshots|;
      snapshots := snapshots + [snapshot];
      forall i | 0 <= i < id
        ensures snapshots[i] == old(snapshots)[i] && snapshots[..i] == old(snapshots)[..i]
      {
      }
      assert Whole().saved == old(Whole()).saved + [old(Whole()).live];
    }

    /** Adopts the objects of the snapshot, not copies of them. */
    method RevertToSnapshot(id: nat)
      requires Valid() && id < |snapshots|
      modifies this
      ensures Valid() && Whole() == LazyStep(stateProvider, old(Whole()), Op.RevertToSnapshot(id))
      ensures store == old(snapshots[id]).store
      ensures stateProvider == old(stateProvider) && snapshots == old(snapshots)[..id]
      ensures Stores() == old(Stores())[..id + 1]
    {
      var snapshot := snapshots[id];
      store := snapshot.store;
      stateProvider := snapshot.stateProvider;
      snapshots := snapshot.snapshots;
      assert Whole().saved == old(Whole()).saved[..id];
    }

    /** The operations that touch only the live storage. */
    method Access(op: Op) returns (obs: Obs)
      requires Coherent(stateProvider, store.Held()) && !op.Snapshot? && !op.RevertToSnapshot?
      modifies store
      ensures store.Held() == LazyUpdate(stateProvider, old(store.Held()), op)
      ensures obs == LiveObs(stateProvider, old(store.Held()), op)
    {
      obs := Nothing;
      match op {
        case GetBalance(a) =>
          var n := GetBalance(a);
          obs := Number(n);
        case GetNonce(a) =>
          var n := GetNonce(a);
          obs := Number(n);
        case GetCode(a) =>
          var c := GetCode(a);
          obs := Code(c);
        case Empty(a) =>
          var e := Empty(a);
          obs := Truth(e);
        case GetState(s) =>
          var v := GetState(s);
          obs := Number(v);
        case GetCommittedState(s) =>
          var v := GetCommittedState(s);
          obs := Number(v);
        case AddBalance(a, x) => AddBalance(a, x);
        case SubBalance(a, x) => SubBalance(a, x);
        case SetNonce(a, n) => SetNonce(a, n);
        case SetCode(a, c) => SetCode(a, c);
        case SetState(s, v) => SetState(s, v);
        case Finalise => Finalise();
      }
    }

    /**
     Any operation: this state does what the lazy machine does and answers the same. It brings in no
     storage but its own, from the `base`-th snapshot on, and new.
     */
    method Apply(op: Op, ghost base: nat) returns (obs: Obs)
      requires Valid() && Coherent(stateProvider, store.Held())
      requires Permitted(|snapshots|, op) && (op.RevertToSnapshot? ==> op.id >= base) && base <= |snapshots|
      modifies this, store
      ensures Valid() && stateProvider == old(stateProvider) && base <= |snapshots|
      ensures Whole() == LazyStep(stateProvider, old(Whole()), op) && obs == LazyObs(stateProvider, old(Whole()), op)
      ensures forall x :: x in snapshots ==> x in old(snapshots) || fresh(x)
      ensures forall x :: x in Stores() ==> x in old(Stores()) || fresh(x)
      ensures forall x :: x in Stores()[base..] ==> x in old(Stores())[base..] || fresh(x)
    {
      if op.Snapshot? {
        var id := Snapshot();
        obs := Number(id);
        assert snapshots == snapshots[..id] + [snapshots[id]];
        assert old(Stores())[id] == store;
      } else if op.RevertToSnapshot? {
        RevertToSnapshot(op.id);
        obs := Nothing;
      } else {
        obs := Access(op);
        assert Stores() == old(Stores());
        assert Whole().saved == old(Whole()).saved;
      }
    }

    /** Neither state can write what the other one, or its snapshots, read. */
    ghost predicate Apart(t: ForkedState, base: nat)
      reads this, snapshots, t, t.snapshots
    {
      && this != t && this !in t.snapshots && t !in snapshots
      && base <= |snapshots| && base <= |t.snapshots|
      && (forall x :: x in Stores()[base..] ==> x !in t.Stores())
      && (forall x :: x in t.Stores()[base..] ==> x !in Stores())
    }

    /** The live storage is none of what `t` or its snapshots use. */
    lemma OwnStorage(t: ForkedState, base: nat)
      requires Apart(t, base)
      ensures t.store != store && store in Own(base)
      ensures forall x :: x in t.snapshots ==> x != this && x.store != store
    {
      var n := |snapshots|;
      assert Stores()[base..][n - base] == store && store in Stores()[base..];
      assert t.Stores()[|t.snapshots|] == t.store && t.store in t.Stores();
      forall i | 0 <= i < |t.snapshots| ensures t.snapshots[i].store != store {
        assert t.Stores()[i] == t.snapshots[i].store && t.Stores()[i] in t.Stores();
      }
    }

    /** What one of two states apart does the other does not notice, as long as it reverts only to its own snapshots. */
    method ApplyApart(t: ForkedState, ghost base: nat, op: Op) returns (obs: Obs)
      requires Valid() && t.Valid() && Apart(t, base) && Coherent(stateProvider, store.Held())
      requires Permitted(|snapshots|, op) && (op.RevertToSnapshot? ==> op.id >= base)
      modifies this, store
      ensures Valid() && stateProvider == old(stateProvider)
      ensures Whole() == LazyStep(stateProvider, old(Whole()), op) && obs == LazyObs(stateProvider, old(Whole()), op)
      ensures unchanged(t) && t.Valid() && t.Whole() == old(t.Whole()) && t.Stores() == old(t.Stores())
      ensures Apart(t, base)
      ensures fresh(Own(base) - old(Own(base)))
    {
      OwnStorage(t, base);
      obs := Apply(op, base);
      forall i | 0 <= i < |t.snapshots|
        ensures t.snapshots[i].store == old(t.snapshots[i].store)
        ensures t.snapshots[i].store.Held() == old(t.snapshots[i].store.Held())
      {
        assert t.snapshots[i] in t.snapshots;
      }
      assert t.Stores() == old(t.Stores());
      assert t.Whole().saved == old(t.Whole()).saved;
    }

    /** A fresh copy is apart from its original; both share all the snapshots taken so far. */
    method CopyApart() returns (cp: ForkedState)
      requires Valid()
      ensures fresh(cp) && fresh(cp.store) && cp.Valid() && cp.Whole() == Whole() && cp.stateProvider == stateProvider
      ensures cp.snapshots == snapshots && Apart(cp, |snapshots|)
    {
      cp := Copy();
      var n := |snapshots|;
      assert Stores()[n..] == [store] && cp.Stores()[n..] == [cp.store];
    }

    /**
     A revert to a shared snapshot does get through to the copy, whatever snapshots either has taken
     since: the original goes on writing the very storage the copy's snapshot is made of.
     */
    method SharedRevertShowsInCopy(cp: ForkedState, id: nat, addr: Address)
      requires Valid() && cp.Valid() && this != cp && cp !in snapshots && this !in cp.snapshots
      requires id < |snapshots| && id < |cp.snapshots| && cp.snapshots[id] == snapshots[id] && Coherent(stateProvider, snapshots[id].store.Held())
      modifies this, snapshots[id].store
      ensures cp.snapshots == old(cp.snapshots) && id < |cp.Abstract().saved|
      ensures cp.Abstract().saved[id] != old(cp.Abstract().saved[id])
    {
      var shared := snapshots[id];
      assert cp.Whole().saved[id] == shared.store.Held();
      AddingShows(stateProvider, shared.store.Held(), addr);
      RevertToSnapshot(id);
      AddBalance(addr, 1);
      assert cp.snapshots[id] == shared && cp.Whole().saved[id] == store.Held();
    }
  }
}
