/**
 The lazily forked state: an in-memory StateDB that pulls accounts and storage slots from a remote
 chain the first time they are used, with snapshots that are whole copies sharing their own
 snapshots. World is what an eager copy of the remote state would hold.
 */
module LazyFork {
  import opened Chain

  datatype Account = Account(balance: int, nonce: nat, code: seq<nat>)

  const NoAccount: Account := Account(0, 0, [])

  /** An account as the remote chain reports it: its balance is never negative. */
  datatype RemoteAccount = RemoteAccount(balance: nat, nonce: nat, code: seq<nat>)

  /** The remote chain at the fork block, as a fixed total reader. */
  datatype Remote = Remote(accountAt: Address -> RemoteAccount, storageAt: Slot -> Hash) {
    function AccountOn(addr: Address): Account {
      var a := accountAt(addr);
      Account(a.balance, a.nonce, a.code)
    }

    function StorageOn(s: Slot): Hash {
      storageAt(s)
    }
  }

  /** Account fields, current storage, and storage as of the last Finalise. */
  datatype World = World(
    accounts: imap<Address, Account>,
    storage: imap<Slot, Hash>,
    committed: imap<Slot, Hash>)

  ghost predicate Total(w: World) {
    (forall a: Address :: a in w.accounts) && (forall s: Slot :: s in w.storage && s in w.committed)
  }

  ghost function RemoteWorld(remote: Remote): World {
    World(imap a: Address :: remote.AccountOn(a), imap s: Slot :: remote.StorageOn(s), imap s: Slot :: remote.StorageOn(s))
  }

  /** A Go map of maps of bools, its cells keyed by address and key together. */
  type Flags = map<Slot, bool>

  function Flag(m: Flags, s: Slot): bool {
    s in m && m[s]
  }

  /** m[addr] = make(map[Hash]bool) */
  function ClearRow(m: Flags, addr: Address): Flags {
    map s | s in m && s.addr != addr :: m[s]
  }

  // ---- The underlying StateDB and the bookkeeping, as values ----

  /** go-ethereum's StateDB without journal and tries: accounts, dirty and pending storage. */
  datatype DbState = DbState(objects: map<Address, Account>, dirty: map<Slot, Hash>, pending: map<Slot, Hash>) {
    predicate Exist(addr: Address) {
      addr in objects
    }

    function GetAccount(addr: Address): Account {
      Get(objects, addr, NoAccount)
    }

    function GetCommittedState(s: Slot): Hash {
      Get(pending, s, 0)
    }

    function GetState(s: Slot): Hash {
      if s in dirty then dirty[s] else GetCommittedState(s)
    }

    function SetAccount(addr: Address, account: Account): DbState {
      this.(objects := objects[addr := account])
    }

    /** Writing the value a slot already has leaves no dirty entry. */
    function SetState(s: Slot, value: Hash): DbState {
      DbState(objects[s.addr := GetAccount(s.addr)], if GetState(s) == value then dirty else dirty[s := value], pending)
    }

    function Finalise(): DbState {
      DbState(objects, map[], pending + dirty)
    }
  }

  /**
   The four bookkeeping maps of a ForkedState; `dirtyRows` are the addresses whose inner map of
   dirtyClearedStorage has been made, so that an entry can be assigned.
   */
  datatype Maps = Maps(
    stateInherited: set<Address>,
    storageInherited: Flags,
    dirtyRows: set<Address>,
    dirtyClearedStorage: Flags,
    committedClearedStorage: Flags)

  datatype Lazy = Lazy(db: DbState, maps: Maps)

  const EmptyLazy: Lazy := Lazy(DbState(map[], map[], map[]), Maps({}, map[], {}, map[], map[]))

  // ---- What they mean over a remote chain ----

  ghost function AccountOf(remote: Remote, l: Lazy, addr: Address): Account {
    if addr in l.maps.stateInherited then l.db.GetAccount(addr) else remote.AccountOn(addr)
  }

  ghost function StorageOf(remote: Remote, l: Lazy, s: Slot): Hash {
    if Flag(l.maps.storageInherited, s) then l.db.GetState(s) else remote.StorageOn(s)
  }

  /** Zero may mean not inherited, or cleared by an earlier transaction. */
  function CommittedOf(remote: Remote, l: Lazy, s: Slot): Hash {
    if l.db.GetCommittedState(s) != 0 then l.db.GetCommittedState(s)
    else if Flag(l.maps.committedClearedStorage, s) then 0
    else remote.StorageOn(s)
  }

  ghost function WorldOf(remote: Remote, l: Lazy): World {
    World(imap a: Address :: AccountOf(remote, l, a),
          imap s: Slot :: StorageOf(remote, l, s),
          imap s: Slot :: CommittedOf(remote, l, s))
  }

  /** A slot not yet inherited has left no trace; an inherited one that reads zero was cleared, or is zero remotely. */
  ghost predicate SlotCoherent(remote: Remote, l: Lazy, s: Slot) {
    if Flag(l.maps.storageInherited, s) then
      && s.addr in l.maps.stateInherited
      && (Flag(l.maps.dirtyClearedStorage, s) ==> l.db.GetState(s) == 0)
      && (l.db.GetState(s) == 0 ==> Flag(l.maps.dirtyClearedStorage, s) || remote.StorageOn(s) == 0)
    else
      && s !in l.db.dirty && s !in l.db.pending
      && !Flag(l.maps.dirtyClearedStorage, s) && !Flag(l.maps.committedClearedStorage, s)
  }

  ghost predicate Coherent(remote: Remote, l: Lazy) {
    && (forall a :: l.db.Exist(a) ==> a in l.maps.stateInherited)
    && l.maps.stateInherited <= l.maps.dirtyRows
    && (forall s :: SlotCoherent(remote, l, s))
  }

  /** A world is read off pointwise. */
  lemma WorldIs(remote: Remote, l: Lazy, w: World)
    requires Total(w)
    requires forall a: Address :: AccountOf(remote, l, a) == w.accounts[a]
    requires forall s: Slot :: StorageOf(remote, l, s) == w.storage[s] && CommittedOf(remote, l, s) == w.committed[s]
    ensures WorldOf(remote, l) == w
  {
    var v := WorldOf(remote, l);
    assert v.accounts == w.accounts;
    assert v.storage == w.storage;
    assert v.committed == w.committed;
  }

  lemma EmptyMeansRemote(remote: Remote)
    ensures Coherent(remote, EmptyLazy) && WorldOf(remote, EmptyLazy) == RemoteWorld(remote)
  {
    WorldIs(remote, EmptyLazy, RemoteWorld(remote));
  }

  // ---- What inheriting does, and that nobody can see it ----

  /** inheritAccountState: first use of an address copies balance, code and nonce unless all are empty. */
  function InheritAccount(remote: Remote, l: Lazy, addr: Address): Lazy {
    if addr in l.maps.stateInherited || l.db.Exist(addr) then l
    else
      var account := remote.AccountOn(addr);
      Lazy(if account.balance > 0 || |account.code| > 0 || account.nonce > 0
           then l.db.SetAccount(addr, account) else l.db,
           l.maps.(stateInherited := l.maps.stateInherited + {addr},
                   storageInherited := ClearRow(l.maps.storageInherited, addr),
                   dirtyRows := l.maps.dirtyRows + {addr},
                   dirtyClearedStorage := ClearRow(l.maps.dirtyClearedStorage, addr)))
  }

  /** inheritAccountStorage: first use of a slot copies its remote value unless that is zero. */
  function InheritSlot(remote: Remote, l: Lazy, s: Slot): Lazy {
    if Flag(l.maps.storageInherited, s) then l
    else Lazy(if remote.StorageOn(s) != 0 then l.db.SetState(s, remote.StorageOn(s)) else l.db,
              l.maps.(storageInherited := l.maps.storageInherited[s := true]))
  }

  lemma InheritAccountAt(remote: Remote, l: Lazy, addr: Address, s: Slot)
    requires SlotCoherent(remote, l, s)
    ensures var l' := InheritAccount(remote, l, addr);
            && SlotCoherent(remote, l', s)
            && StorageOf(remote, l', s) == StorageOf(remote, l, s) && CommittedOf(remote, l', s) == CommittedOf(remote, l, s)
  {
  }

  /** Inheriting an account changes no account, slot or committed value. */
  lemma InheritAccountUnseen(remote: Remote, l: Lazy, addr: Address)
    requires Coherent(remote, l)
    ensures var l' := InheritAccount(remote, l, addr);
            && Coherent(remote, l') && WorldOf(remote, l') == WorldOf(remote, l)
            && addr in l'.maps.stateInherited && l'.db.GetAccount(addr) == AccountOf(remote, l, addr)
  {
    var l' := InheritAccount(remote, l, addr);
    forall s: Slot
      ensures SlotCoherent(remote, l', s) && StorageOf(remote, l', s) == StorageOf(remote, l, s)
      ensures CommittedOf(remote, l', s) == CommittedOf(remote, l, s)
    {
      assert SlotCoherent(remote, l, s);
      InheritAccountAt(remote, l, addr, s);
    }
    forall a: Address ensures AccountOf(remote, l', a) == AccountOf(remote, l, a) {
      assert l.db.Exist(a) ==> a in l.maps.stateInherited;
    }
    WorldIs(remote, l', WorldOf(remote, l));
  }

  lemma InheritSlotAt(remote: Remote, l: Lazy, s: Slot, t: Slot)
    requires SlotCoherent(remote, l, t) && s.addr in l.maps.stateInherited
    ensures var l' := InheritSlot(remote, l, s);
            && SlotCoherent(remote, l', t)
            && StorageOf(remote, l', t) == StorageOf(remote, l, t) && CommittedOf(remote, l', t) == CommittedOf(remote, l, t)
  {
  }

  /** Inheriting a slot changes no account, slot or committed value. */
  lemma InheritSlotUnseen(remote: Remote, l: Lazy, s: Slot)
    requires Coherent(remote, l) && s.addr in l.maps.stateInherited
    ensures var l' := InheritSlot(remote, l, s);
            && Coherent(remote, l') && WorldOf(remote, l') == WorldOf(remote, l)
            && Flag(l'.maps.storageInherited, s) && l'.db.GetState(s) == StorageOf(remote, l, s)
            && s.addr in l'.maps.stateInherited
  {
    var l' := InheritSlot(remote, l, s);
    forall t: Slot
      ensures SlotCoherent(remote, l', t) && StorageOf(remote, l', t) == StorageOf(remote, l, t)
      ensures CommittedOf(remote, l', t) == CommittedOf(remote, l, t)
    {
      assert SlotCoherent(remote, l, t);
      InheritSlotAt(remote, l, s, t);
    }
    assert forall a: Address :: AccountOf(remote, l', a) == AccountOf(remote, l, a);
    WorldIs(remote, l', WorldOf(remote, l));
  }

  // ---- Writes ----

  function WriteAccount(l: Lazy, addr: Address, account: Account): Lazy {
    l.(db := l.db.SetAccount(addr, account))
  }

  /** SetState after inheriting: the StateDB is written and the cleared flag says whether the value is zero. */
  function WriteSlot(l: Lazy, s: Slot, value: Hash): Lazy {
    Lazy(l.db.SetState(s, value),
         l.maps.(dirtyClearedStorage := l.maps.dirtyClearedStorage[s := value == 0]))
  }

  lemma WriteAccountIsUpdate(remote: Remote, l: Lazy, addr: Address, account: Account)
    requires Coherent(remote, l) && addr in l.maps.stateInherited
    ensures var l', w := WriteAccount(l, addr, account), WorldOf(remote, l);
            Coherent(remote, l') && WorldOf(remote, l') == w.(accounts := w.accounts[addr := account])
  {
    var l', w := WriteAccount(l, addr, account), WorldOf(remote, l);
    forall s: Slot
      ensures SlotCoherent(remote, l', s) && StorageOf(remote, l', s) == StorageOf(remote, l, s)
      ensures CommittedOf(remote, l', s) == CommittedOf(remote, l, s)
    {
      assert SlotCoherent(remote, l, s);
    }
    WorldIs(remote, l', w.(accounts := w.accounts[addr := account]));
  }

  lemma WriteSlotAt(remote: Remote, l: Lazy, s: Slot, value: Hash, t: Slot)
    requires SlotCoherent(remote, l, t) && Flag(l.maps.storageInherited, s)
    ensures var l' := WriteSlot(l, s, value);
            && SlotCoherent(remote, l', t)
            && StorageOf(remote, l', t) == (if t == s then value else StorageOf(remote, l, t))
            && CommittedOf(remote, l', t) == CommittedOf(remote, l, t)
  {
  }

  lemma WriteSlotIsUpdate(remote: Remote, l: Lazy, s: Slot, value: Hash)
    requires Coherent(remote, l) && Flag(l.maps.storageInherited, s)
    ensures var l', w := WriteSlot(l, s, value), WorldOf(remote, l);
            Coherent(remote, l') && WorldOf(remote, l') == w.(storage := w.storage[s := value])
  {
    var l', w := WriteSlot(l, s, value), WorldOf(remote, l);
    assert SlotCoherent(remote, l, s);
    forall t: Slot
      ensures SlotCoherent(remote, l', t)
      ensures StorageOf(remote, l', t) == if t == s then value else StorageOf(remote, l, t)
      ensures CommittedOf(remote, l', t) == CommittedOf(remote, l, t)
    {
      assert SlotCoherent(remote, l, t);
      WriteSlotAt(remote, l, s, value, t);
    }
    assert forall a: Address :: AccountOf(remote, l', a) == AccountOf(remote, l, a);
    WorldIs(remote, l', w.(storage := w.storage[s := value]));
  }

  /** The committed-cleared flags after Finalise: every dirty flag is applied, set or deleted. */
  function ClearedAfter(committed: Flags, dirty: Flags): Flags {
    map s | s in committed.Keys + dirty.Keys && (s in dirty ==> dirty[s]) :: s in dirty || committed[s]
  }

  lemma ClearedStep(committed: Flags, dirty: Flags, todo: set<Slot>, s: Slot)
    requires s in todo && todo <= dirty.Keys
    ensures var before := ClearedAfter(committed, dirty - todo);
            ClearedAfter(committed, dirty - (todo - {s})) == if dirty[s] then before[s := true] else before - {s}
  {
  }

  function FinaliseLazy(l: Lazy): Lazy {
    Lazy(l.db.Finalise(),
         l.maps.(committedClearedStorage := ClearedAfter(l.maps.committedClearedStorage, l.maps.dirtyClearedStorage)))
  }

  lemma FinaliseAt(remote: Remote, l: Lazy, s: Slot)
    requires SlotCoherent(remote, l, s)
    ensures var l' := FinaliseLazy(l);
            && SlotCoherent(remote, l', s)
            && StorageOf(remote, l', s) == StorageOf(remote, l, s) && CommittedOf(remote, l', s) == StorageOf(remote, l, s)
  {
  }

  /** Finalise makes the committed storage what the current storage is. */
  lemma FinaliseCommits(remote: Remote, l: Lazy)
    requires Coherent(remote, l)
    ensures var l', w := FinaliseLazy(l), WorldOf(remote, l);
            Coherent(remote, l') && WorldOf(remote, l') == w.(committed := w.storage)
  {
    var l', w := FinaliseLazy(l), WorldOf(remote, l);
    forall s: Slot
      ensures SlotCoherent(remote, l', s) && StorageOf(remote, l', s) == StorageOf(remote, l, s)
      ensures CommittedOf(remote, l', s) == StorageOf(remote, l, s)
    {
      assert SlotCoherent(remote, l, s);
      FinaliseAt(remote, l, s);
    }
    assert forall a: Address :: AccountOf(remote, l', a) == AccountOf(remote, l, a);
    WorldIs(remote, l', w.(committed := w.storage));
  }

  // ---- The eager machine ----

  /** An eagerly copied state with its stack of whole saved copies. */
  datatype Eager = Eager(world: World, saved: seq<World>)

  datatype Op =
    | GetBalance(addr: Address) | GetNonce(addr: Address) | GetCode(addr: Address) | Empty(addr: Address)
    | GetState(slot: Slot) | GetCommittedState(slot: Slot)
    | AddBalance(addr: Address, amount: int) | SubBalance(addr: Address, amount: int)
    | SetNonce(addr: Address, nonce: nat) | SetCode(addr: Address, code: seq<nat>)
    | SetState(slot: Slot, value: Hash)
    | Snapshot | RevertToSnapshot(id: nat) | Finalise

  datatype Obs = Nothing | Number(n: int) | Code(code: seq<nat>) | Truth(b: bool)

  predicate Permitted(saved: nat, op: Op) {
    op.RevertToSnapshot? ==> op.id < saved
  }

  ghost function Update(w: World, op: Op): World
    requires Total(w)
  {
    match op
    case AddBalance(a, x) => w.(accounts := w.accounts[a := w.accounts[a].(balance := w.accounts[a].balance + x)])
    case SubBalance(a, x) => w.(accounts := w.accounts[a := w.accounts[a].(balance := w.accounts[a].balance - x)])
    case SetNonce(a, n) => w.(accounts := w.accounts[a := w.accounts[a].(nonce := n)])
    case SetCode(a, c) => w.(accounts := w.accounts[a := w.accounts[a].(code := c)])
    case SetState(s, v) => w.(storage := w.storage[s := v])
    case Finalise => w.(committed := w.storage)
    case _ => w
  }

  ghost function EagerStep(e: Eager, op: Op): Eager
    requires Total(e.world) && Permitted(|e.saved|, op)
  {
    match op
    case Snapshot => Eager(e.world, e.saved + [e.world])
    case RevertToSnapshot(id) => Eager(e.saved[id], e.saved[..id])
    case _ => Eager(Update(e.world, op), e.saved)
  }

  ghost function WorldObs(w: World, op: Op): Obs
    requires Total(w)
  {
    match op
    case GetBalance(a) => Number(w.accounts[a].balance)
    case GetNonce(a) => Number(w.accounts[a].nonce)
    case GetCode(a) => Code(w.accounts[a].code)
    case Empty(a) => Truth(w.accounts[a] == NoAccount)
    case GetState(s) => Number(w.storage[s])
    case GetCommittedState(s) => Number(w.committed[s])
    case _ => Nothing
  }

  ghost function EagerObs(e: Eager, op: Op): Obs
    requires Total(e.world)
  {
    if op.Snapshot? then Number(|e.saved|) else WorldObs(e.world, op)
  }

  // ---- The lazy machine and its refinement ----

  /** The live store and the stores of the snapshots, oldest first. */
  datatype Image = Image(live: Lazy, saved: seq<Lazy>)

  function Touch(remote: Remote, l: Lazy, s: Slot): Lazy {
    InheritSlot(remote, InheritAccount(remote, l, s.addr), s)
  }

  /** What an operation makes of the live store, reads included. */
  function LazyUpdate(remote: Remote, l: Lazy, op: Op): Lazy {
    match op
    case GetBalance(a) => InheritAccount(remote, l, a)
    case GetNonce(a) => InheritAccount(remote, l, a)
    case GetCode(a) => InheritAccount(remote, l, a)
    case Empty(a) => InheritAccount(remote, l, a)
    case GetState(s) => Touch(remote, l, s)
    case GetCommittedState(s) => Touch(remote, l, s)
    case AddBalance(a, x) =>
      var l1 := InheritAccount(remote, l, a);
      WriteAccount(l1, a, l1.db.GetAccount(a).(balance := l1.db.GetAccount(a).balance + x))
    case SubBalance(a, x) =>
      var l1 := InheritAccount(remote, l, a);
      WriteAccount(l1, a, l1.db.GetAccount(a).(balance := l1.db.GetAccount(a).balance - x))
    case SetNonce(a, n) =>
      var l1 := InheritAccount(remote, l, a);
      WriteAccount(l1, a, l1.db.GetAccount(a).(nonce := n))
    case SetCode(a, c) =>
      var l1 := InheritAccount(remote, l, a);
      WriteAccount(l1, a, l1.db.GetAccount(a).(code := c))
    case SetState(s, v) => WriteSlot(Touch(remote, l, s), s, v)
    case Finalise => FinaliseLazy(l)
    case _ => l
  }

  function LazyStep(remote: Remote, i: Image, op: Op): Image
    requires Permitted(|i.saved|, op)
  {
    match op
    case Snapshot => Image(i.live, i.saved + [i.live])
    case RevertToSnapshot(id) => Image(i.saved[id], i.saved[..id])
    case _ => Image(LazyUpdate(remote, i.live, op), i.saved)
  }

  /** What an operation on the live store answers. */
  function LiveObs(remote: Remote, l: Lazy, op: Op): Obs {
    match op
    case GetBalance(a) => Number(LazyUpdate(remote, l, op).db.GetAccount(a).balance)
    case GetNonce(a) => Number(LazyUpdate(remote, l, op).db.GetAccount(a).nonce)
    case GetCode(a) => Code(LazyUpdate(remote, l, op).db.GetAccount(a).code)
    case Empty(a) => Truth(LazyUpdate(remote, l, op).db.GetAccount(a) == NoAccount)
    case GetState(s) => Number(LazyUpdate(remote, l, op).db.GetState(s))
    case GetCommittedState(s) => Number(CommittedOf(remote, LazyUpdate(remote, l, op), s))
    case _ => Nothing
  }

  function LazyObs(remote: Remote, i: Image, op: Op): Obs {
    if op.Snapshot? then Number(|i.saved|) else LiveObs(remote, i.live, op)
  }

  ghost predicate AllCoherent(remote: Remote, i: Image) {
    Coherent(remote, i.live) && forall k :: 0 <= k < |i.saved| ==> Coherent(remote, i.saved[k])
  }

  ghost function Meaning(remote: Remote, i: Image): Eager {
    Eager(WorldOf(remote, i.live), seq(|i.saved|, k requires 0 <= k < |i.saved| => WorldOf(remote, i.saved[k])))
  }

  /** The live store after an operation means what the eager world is after it. */
  lemma UpdateRefines(remote: Remote, l: Lazy, op: Op)
    requires Coherent(remote, l)
    ensures Coherent(remote, LazyUpdate(remote, l, op))
    ensures WorldOf(remote, LazyUpdate(remote, l, op)) == Update(WorldOf(remote, l), op)
  {
    if op.GetState? || op.GetCommittedState? || op.SetState? {
      var s := op.slot;
      InheritAccountUnseen(remote, l, s.addr);
      InheritSlotUnseen(remote, InheritAccount(remote, l, s.addr), s);
      if op.SetState? {
        WriteSlotIsUpdate(remote, Touch(remote, l, s), s, op.value);
      }
    } else if op.Finalise? {
      FinaliseCommits(remote, l);
    } else if op.GetBalance? || op.GetNonce? || op.GetCode? || op.Empty? {
      InheritAccountUnseen(remote, l, op.addr);
    } else if !op.Snapshot? && !op.RevertToSnapshot? {
      AccountWriteRefines(remote, l, op);
    }
  }

  /** The account an operation writes, given the one it reads. */
  function Rewritten(account: Account, op: Op): Account {
    match op
    case AddBalance(_, x) => account.(balance := account.balance + x)
    case SubBalance(_, x) => account.(balance := account.balance - x)
    case SetNonce(_, n) => account.(nonce := n)
    case SetCode(_, c) => account.(code := c)
    case _ => account
  }

  predicate WritesAccount(op: Op) {
    op.AddBalance? || op.SubBalance? || op.SetNonce? || op.SetCode?
  }

  lemma UpdateRewrites(w: World, op: Op)
    requires Total(w) && WritesAccount(op)
    ensures Update(w, op) == w.(accounts := w.accounts[op.addr := Rewritten(w.accounts[op.addr], op)])
  {
  }

  lemma LazyUpdateRewrites(remote: Remote, l: Lazy, op: Op)
    requires WritesAccount(op)
    ensures var l1 := InheritAccount(remote, l, op.addr);
            LazyUpdate(remote, l, op) == WriteAccount(l1, op.addr, Rewritten(l1.db.GetAccount(op.addr), op))
  {
  }

  lemma AccountWriteRefines(remote: Remote, l: Lazy, op: Op)
    requires Coherent(remote, l) && WritesAccount(op)
    ensures Coherent(remote, LazyUpdate(remote, l, op))
    ensures WorldOf(remote, LazyUpdate(remote, l, op)) == Update(WorldOf(remote, l), op)
  {
    InheritAccountUnseen(remote, l, op.addr);
    var l1 := InheritAccount(remote, l, op.addr);
    LazyUpdateRewrites(remote, l, op);
    UpdateRewrites(WorldOf(remote, l), op);
    WriteAccountIsUpdate(remote, l1, op.addr, Rewritten(l1.db.GetAccount(op.addr), op));
  }

  /** A getter of the lazy state answers as the eager world does. */
  lemma ObsRefines(remote: Remote, l: Lazy, op: Op)
    requires Coherent(remote, l)
    ensures LiveObs(remote, l, op) == WorldObs(WorldOf(remote, l), op)
  {
    var w := WorldOf(remote, l);
    if op.GetState? || op.GetCommittedState? {
      var s := op.slot;
      InheritAccountUnseen(remote, l, s.addr);
      InheritSlotUnseen(remote, InheritAccount(remote, l, s.addr), s);
      assert CommittedOf(remote, Touch(remote, l, s), s) == WorldOf(remote, Touch(remote, l, s)).committed[s];
      assert StorageOf(remote, l, s) == w.storage[s];
      assert WorldOf(remote, InheritAccount(remote, l, s.addr)).storage[s] == w.storage[s];
    } else if op.GetBalance? || op.GetNonce? || op.GetCode? || op.Empty? {
      InheritAccountUnseen(remote, l, op.addr);
      assert w.accounts[op.addr] == AccountOf(remote, l, op.addr);
    }
  }

  lemma AddingShows(remote: Remote, l: Lazy, addr: Address)
    requires Coherent(remote, l)
    ensures WorldOf(remote, LazyUpdate(remote, l, Op.AddBalance(addr, 1))) != WorldOf(remote, l)
  {
    var w := WorldOf(remote, l);
    UpdateRefines(remote, l, Op.AddBalance(addr, 1));
    assert Update(w, Op.AddBalance(addr, 1)).accounts[addr].balance == w.accounts[addr].balance + 1;
  }

  lemma LiveStep(remote: Remote, i: Image, op: Op)
    requires AllCoherent(remote, i) && !op.Snapshot? && !op.RevertToSnapshot?
    ensures AllCoherent(remote, LazyStep(remote, i, op))
    ensures Meaning(remote, LazyStep(remote, i, op)) == EagerStep(Meaning(remote, i), op)
  {
    UpdateRefines(remote, i.live, op);
    assert Meaning(remote, LazyStep(remote, i, op)).saved == Meaning(remote, i).saved;
  }

  lemma SnapshotStep(remote: Remote, i: Image)
    requires AllCoherent(remote, i)
    ensures AllCoherent(remote, LazyStep(remote, i, Op.Snapshot))
    ensures Meaning(remote, LazyStep(remote, i, Op.Snapshot)) == EagerStep(Meaning(remote, i), Op.Snapshot)
  {
    var saved := LazyStep(remote, i, Op.Snapshot).saved;
    assert forall k :: 0 <= k < |i.saved| ==> saved[k] == i.saved[k];
    assert Meaning(remote, LazyStep(remote, i, Op.Snapshot)).saved == EagerStep(Meaning(remote, i), Op.Snapshot).saved;
  }

  lemma RevertStep(remote: Remote, i: Image, id: nat)
    requires AllCoherent(remote, i) && id < |i.saved|
    ensures AllCoherent(remote, LazyStep(remote, i, Op.RevertToSnapshot(id)))
    ensures Meaning(remote, LazyStep(remote, i, Op.RevertToSnapshot(id))) == EagerStep(Meaning(remote, i), Op.RevertToSnapshot(id))
  {
    var i' := Image(i.saved[id], i.saved[..id]);
    assert LazyStep(remote, i, Op.RevertToSnapshot(id)) == i';
    assert Meaning(remote, i').saved == Meaning(remote, i).saved[..id];
  }

  /**
   The lazy fork refines the eager copy, one operation at a time: coherence is kept, the meaning moves
   as the eager machine does, and every getter answers the same.
   */
  lemma LazyRefinesEager(remote: Remote, i: Image, op: Op)
    requires AllCoherent(remote, i) && Permitted(|i.saved|, op)
    ensures AllCoherent(remote, LazyStep(remote, i, op))
    ensures Meaning(remote, LazyStep(remote, i, op)) == EagerStep(Meaning(remote, i), op)
    ensures LazyObs(remote, i, op) == EagerObs(Meaning(remote, i), op)
  {
    ObsRefines(remote, i.live, op);
    match op {
      case Snapshot => SnapshotStep(remote, i);
      case RevertToSnapshot(id) => RevertStep(remote, i, id);
      case _ => LiveStep(remote, i, op);
    }
  }
}
