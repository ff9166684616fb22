/**
 Asset transfers: what profits a transfer makes, and merging two of them into fewer or shorter ones.
 */
module Transfers {
  import opened Chain
  import opened Profits

  const ZERO_ADDRESS: Address := 0

  datatype FungibleTransfer = FungibleTransfer(fromAccount: Address, toAccount: Address, amount: nat)

  datatype Transfer =
    | EtherTransfer(f: FungibleTransfer)
    | ERC20Transfer(f: FungibleTransfer, contract: Address)
    | ERC777Transfer(f: FungibleTransfer, contract: Address)
    | ERC1155Transfer(f: FungibleTransfer, contract: Address, tokenID: TokenID)
    | ERC721Transfer(fromAccount: Address, toAccount: Address, contract: Address, tokenID: TokenID)

  // ---- Merging fungible transfers ----

  predicate IsZeroTransfer(f: FungibleTransfer) {
    f.amount == 0 || f.fromAccount == f.toAccount
  }

  /** None stands for the merge-not-possible error. */
  function MergeFungible(f: FungibleTransfer, other: FungibleTransfer): (r: Option<seq<FungibleTransfer>>)
    decreases f.fromAccount != other.toAccount
  {
    if f.fromAccount == other.toAccount && f.toAccount == other.fromAccount then
      if f.amount == other.amount then Some([])
      else if f.amount > other.amount then
        Some([FungibleTransfer(f.fromAccount, other.fromAccount, f.amount - other.amount)])
      else
        Some([FungibleTransfer(other.fromAccount, f.fromAccount, other.amount - f.amount)])
    else if f.fromAccount == other.fromAccount && f.toAccount == other.toAccount then
      Some([FungibleTransfer(f.fromAccount, f.toAccount, f.amount + other.amount)])
    else if f.fromAccount == other.toAccount then
      if f.amount == other.amount then
        Some([FungibleTransfer(other.fromAccount, f.toAccount, f.amount)])
      else if f.amount > other.amount then
        Some([FungibleTransfer(other.fromAccount, f.toAccount, other.amount),
              FungibleTransfer(f.fromAccount, f.toAccount, f.amount - other.amount)])
      else
        Some([FungibleTransfer(other.fromAccount, f.toAccount, f.amount),
              FungibleTransfer(other.fromAccount, f.fromAccount, other.amount - f.amount)])
    else if f.toAccount == other.fromAccount then
      MergeFungible(other, f)
    else
      None
  }

  /** What a list of transfers changes the balance of an account by. */
  function Change(ts: seq<FungibleTransfer>, a: Address): int {
    if ts == [] then 0
    else (if ts[0].toAccount == a then ts[0].amount else 0) - (if ts[0].fromAccount == a then ts[0].amount else 0)
         + Change(ts[1..], a)
  }

  function Volume(ts: seq<FungibleTransfer>): nat {
    if ts == [] then 0 else ts[0].amount + Volume(ts[1..])
  }

  lemma TwoTransfers(f: FungibleTransfer, g: FungibleTransfer)
    ensures [f, g][1..] == [g] && [g][1..] == [] && Volume([f, g]) == f.amount + g.amount
    ensures forall a :: Change([f, g], a) == Change([f], a) + Change([g], a)
  {
    assert Volume([f, g]) == f.amount + Volume([f, g][1..]);
    assert forall a :: Change([f, g], a) == Change([f], a) + Change([f, g][1..], a);
  }

  /**
   Merging two transfers, whichever accounts coincide: every balance ends up the same, no more is
   moved, at most two transfers come out, and none is void unless one that went in was.
   */
  lemma {:induction false} MergeKeepsBalances(f: FungibleTransfer, g: FungibleTransfer, a: Address)
    requires MergeFungible(f, g).Some?
    ensures var ts := MergeFungible(f, g).value;
            && Change(ts, a) == Change([f, g], a)
            && Volume(ts) <= Volume([f, g]) && |ts| <= 2
            && (!IsZeroTransfer(f) && !IsZeroTransfer(g) ==> forall t :: t in ts ==> !IsZeroTransfer(t))
    decreases f.fromAccount != g.toAccount
  {
    TwoTransfers(f, g);
    TwoTransfers(g, f);
    var ts := MergeFungible(f, g).value;
    if |ts| == 2 {
      TwoTransfers(ts[0], ts[1]);
      assert ts == [ts[0], ts[1]];
    } else if |ts| == 1 {
      assert ts == [ts[0]];
    }
    if f.fromAccount != g.toAccount && !(f.fromAccount == g.fromAccount && f.toAccount == g.toAccount) {
      MergeKeepsBalances(g, f, a);
    }
  }

  /** Merging works exactly when one transfer starts where the other ends, or both run the same way; the order does not matter. */
  lemma MergePossible(f: FungibleTransfer, g: FungibleTransfer)
    ensures MergeFungible(f, g).Some? <==>
            || f.fromAccount == g.toAccount || f.toAccount == g.fromAccount
            || (f.fromAccount == g.fromAccount && f.toAccount == g.toAccount)
    ensures MergeFungible(f, g).Some? <==> MergeFungible(g, f).Some?
  {
  }

  // ---- Transfers of any kind ----

  function FromOf(t: Transfer): Address {
    if t.ERC721Transfer? then t.fromAccount else t.f.fromAccount
  }

  function ToOf(t: Transfer): Address {
    if t.ERC721Transfer? then t.toAccount else t.f.toAccount
  }

  predicate IsVoid(t: Transfer) {
    !t.ERC721Transfer? && IsZeroTransfer(t.f)
  }

  predicate Mint(t: Transfer) {
    !t.EtherTransfer? && FromOf(t) == ZERO_ADDRESS
  }

  predicate Burn(t: Transfer) {
    !t.EtherTransfer? && ToOf(t) == ZERO_ADDRESS
  }

  /** The profit of `account` from giving (`sign` -1) or receiving (`sign` 1) what the transfer moves. */
  function ProfitFor(t: Transfer, account: Address, sign: int): Profit
    requires sign == 1 || sign == -1
  {
    match t
    case EtherTransfer(f) => EtherProfit(account, sign * f.amount)
    case ERC20Transfer(f, c) => ERC20Profit(account, c, sign * f.amount)
    case ERC777Transfer(f, c) => ERC777Profit(account, c, sign * f.amount)
    case ERC1155Transfer(f, c, id) => ERC1155Profit(account, c, id, sign * f.amount)
    case ERC721Transfer(_, _, c, id) =>
      ERC721CombinedProfit(account, c, if sign == 1 then {id} else {}, if sign == 1 then {} else {id})
  }

  function ProfitsFrom(t: Transfer): seq<Profit> {
    if IsVoid(t) then []
    else (if Mint(t) then [] else [ProfitFor(t, FromOf(t), -1)]) + (if Burn(t) then [] else [ProfitFor(t, ToOf(t), 1)])
  }

  /** The asset a transfer moves, as held by an account; tokens at the zero address are held by nobody. */
  function Held(t: Transfer, account: Address): Key {
    if !t.EtherTransfer? && account == ZERO_ADDRESS then NoKey else KeyOf(ProfitFor(t, account, 1))
  }

  /** What a transfer changes a holding by. */
  function Moved(t: Transfer, k: Key): int {
    var n := if t.ERC721Transfer? then 1 else t.f.amount;
    (if Held(t, ToOf(t)) == k then n else 0) - (if Held(t, FromOf(t)) == k then n else 0)
  }

  lemma NetOfTwo(p: Profit, q: Profit, k: Key)
    ensures Net([p], k) == (if KeyOf(p) == k then Quantity(p) else 0)
    ensures Net([p, q], k) == Net([p], k) + Net([q], k)
  {
    assert Net([p], k) == (if KeyOf(p) == k then Quantity(p) else 0) + Net([p][1..], k);
    assert [p, q][1..] == [q];
  }

  /** The profits of a transfer are what it moves, holding by holding: given by one side, received by the other. */
  lemma ProfitsAreMoved(t: Transfer, k: Key)
    requires k != NoKey
    ensures Net(ProfitsFrom(t), k) == Moved(t, k)
    ensures forall p :: p in ProfitsFrom(t) ==> !p.ZeroProfit?
  {
    var p, q := ProfitFor(t, FromOf(t), -1), ProfitFor(t, ToOf(t), 1);
    assert Quantity(p) == -Quantity(q) && KeyOf(p) == KeyOf(ProfitFor(t, FromOf(t), 1));
    NetOfTwo(p, q, k);
    NetOfTwo(q, p, k);
    assert ProfitsFrom(t) == [] || ProfitsFrom(t) == [p] || ProfitsFrom(t) == [q] || ProfitsFrom(t) == [p, q];
  }

  function MovedBy(ts: seq<Transfer>, k: Key): int {
    if ts == [] then 0 else Moved(ts[0], k) + MovedBy(ts[1..], k)
  }

  /** Puts a merged fungible transfer back into the kind of `t`. */
  function Rewrap(t: Transfer, f: FungibleTransfer): Transfer
    requires !t.ERC721Transfer?
  {
    match t
    case EtherTransfer(_) => EtherTransfer(f)
    case ERC20Transfer(_, c) => ERC20Transfer(f, c)
    case ERC777Transfer(_, c) => ERC777Transfer(f, c)
    case ERC1155Transfer(_, c, id) => ERC1155Transfer(f, c, id)
  }

  /** Whether the two move the same asset. */
  predicate SameAsset(t: Transfer, u: Transfer) {
    KeyOf(ProfitFor(t, 0, 1)) == KeyOf(ProfitFor(u, 0, 1)) && (t.ERC721Transfer? ==> t.tokenID == u.tokenID)
  }

  function RewrapAll(t: Transfer, fs: seq<FungibleTransfer>): seq<Transfer>
    requires !t.ERC721Transfer?
  {
    seq(|fs|, i requires 0 <= i < |fs| => Rewrap(t, fs[i]))
  }

  function MergeTransfers(t: Transfer, u: Transfer): Option<seq<Transfer>> {
    if !SameAsset(t, u) then None
    else if t.ERC721Transfer? then
      if t.fromAccount == u.toAccount && t.toAccount == u.fromAccount then Some([])
      else if t.fromAccount == u.toAccount then Some([t.(fromAccount := u.fromAccount)])
      else if t.toAccount == u.fromAccount then Some([t.(toAccount := u.toAccount)])
      else None
    else match MergeFungible(t.f, u.f)
      case None => None
      case Some(fs) => Some(RewrapAll(t, fs))
  }

  lemma {:induction false} RewrappedMove(t: Transfer, fs: seq<FungibleTransfer>, a: Address, k: Key)
    requires !t.ERC721Transfer? && k == Held(t, a) && k != NoKey
    ensures MovedBy(RewrapAll(t, fs), k) == Change(fs, a)
  {
    if fs != [] {
      assert RewrapAll(t, fs)[1..] == RewrapAll(t, fs[1..]);
      RewrappedMove(t, fs[1..], a, k);
    }
  }

  lemma {:induction false} OthersDoNotMove(t: Transfer, ts: seq<Transfer>, k: Key)
    requires k != NoKey && (forall a :: Held(t, a) != k) && forall i :: 0 <= i < |ts| ==> SameAsset(t, ts[i])
    ensures MovedBy(ts, k) == 0
  {
    if ts != [] {
      assert Held(ts[0], ToOf(ts[0])) == Held(t, ToOf(ts[0])) && Held(ts[0], FromOf(ts[0])) == Held(t, FromOf(ts[0]));
      OthersDoNotMove(t, ts[1..], k);
    }
  }

  lemma MergeKeepsTokens(t: Transfer, u: Transfer, k: Key)
    requires MergeTransfers(t, u).Some? && k != NoKey && t.ERC721Transfer?
    ensures MovedBy(MergeTransfers(t, u).value, k) == Moved(t, k) + Moved(u, k)
  {
    var ts := MergeTransfers(t, u).value;
    assert Held(t, FromOf(t)) == Held(u, FromOf(t)) && Held(t, ToOf(t)) == Held(u, ToOf(t));
    if ts != [] {
      assert ts == [ts[0]] && MovedBy(ts, k) == Moved(ts[0], k) + MovedBy(ts[1..], k);
    }
  }

  lemma MovedByTwo(t: Transfer, u: Transfer, k: Key)
    ensures MovedBy([t, u], k) == Moved(t, k) + Moved(u, k)
  {
    assert [t, u][1..] == [u] && [u][1..] == [];
    assert MovedBy([u], k) == Moved(u, k) + MovedBy([u][1..], k);
  }

  lemma MergeKeepsFungible(t: Transfer, u: Transfer, k: Key)
    requires SameAsset(t, u) && k != NoKey && !t.ERC721Transfer? && MergeFungible(t.f, u.f).Some?
    ensures MovedBy(RewrapAll(t, MergeFungible(t.f, u.f).value), k) == MovedBy([t, u], k)
  {
    var fs := MergeFungible(t.f, u.f).value;
    if a :| Held(t, a) == k {
      MergeKeepsBalances(t.f, u.f, a);
      RewrappedMove(t, fs, a, k);
      RewrappedMove(t, [t.f, u.f], a, k);
      assert RewrapAll(t, [t.f, u.f]) == [t, u];
    } else {
      OthersDoNotMove(t, RewrapAll(t, fs), k);
      OthersDoNotMove(t, [t, u], k);
    }
  }

  /**
   Merging two transfers of any kind changes no holding of anybody: the profits of what comes out are
   those of what went in.
   */
  lemma MergeKeepsHoldings(t: Transfer, u: Transfer, k: Key)
    requires MergeTransfers(t, u).Some? && k != NoKey
    ensures MovedBy(MergeTransfers(t, u).value, k) == Moved(t, k) + Moved(u, k)
  {
    if t.ERC721Transfer? {
      MergeKeepsTokens(t, u, k);
    } else {
      MovedByTwo(t, u, k);
      MergeKeepsFungible(t, u, k);
    }
  }

  method Merge(t: Transfer, u: Transfer) returns (r: Option<seq<Transfer>>)
    ensures r == MergeTransfers(t, u)
  {
    if !SameAsset(t, u) {
      return None;
    }
    if t.ERC721Transfer? {
      if t.fromAccount == u.toAccount && t.toAccount == u.fromAccount {
        return Some([]);
      } else if t.fromAccount == u.toAccount {
        return Some([t.(fromAccount := u.fromAccount)]);
      } else if t.toAccount == u.fromAccount {
        return Some([t.(toAccount := u.toAccount)]);
      }
      return None;
    }
    var merged := MergeFungible(t.f, u.f);
    if merged.None? {
      return None;
    }
    var transfers := [];
    for i := 0 to |merged.value|
      invariant transfers == RewrapAll(t, merged.value)[..i]
    {
      transfers := transfers + [Rewrap(t, merged.value[i])];
    }
    assert transfers == RewrapAll(t, merged.value);
    r := Some(transfers);
  }
}
