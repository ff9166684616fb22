/**
 Profits per account and asset: merging lists of them and comparing two lists.
 */
module Profits {
  import opened Chain

  type TokenID = nat

  /** ZeroProfit belongs to no asset; an ERC721 profit counts tokens received less tokens given. */
  datatype Profit =
    | ZeroProfit
    | EtherProfit(account: Address, amount: int)
    | ERC20Profit(account: Address, contract: Address, amount: int)
    | ERC777Profit(account: Address, contract: Address, amount: int)
    | ERC1155Profit(account: Address, contract: Address, tokenID: TokenID, amount: int)
    | ERC721CombinedProfit(account: Address, contract: Address, receiveTokens: set<TokenID>, giveTokens: set<TokenID>)

  /** What two profits must share to be comparable. */
  datatype Key =
    | NoKey
    | EtherOf(account: Address)
    | ERC20Of(account: Address, contract: Address)
    | ERC777Of(account: Address, contract: Address)
    | ERC1155Of(account: Address, contract: Address, tokenID: TokenID)
    | ERC721Of(account: Address, contract: Address)

  function KeyOf(p: Profit): Key {
    match p
    case ZeroProfit => NoKey
    case EtherProfit(a, _) => EtherOf(a)
    case ERC20Profit(a, c, _) => ERC20Of(a, c)
    case ERC777Profit(a, c, _) => ERC777Of(a, c)
    case ERC1155Profit(a, c, t, _) => ERC1155Of(a, c, t)
    case ERC721CombinedProfit(a, c, _, _) => ERC721Of(a, c)
  }

  function Quantity(p: Profit): int {
    match p
    case ZeroProfit => 0
    case ERC721CombinedProfit(_, _, receive, give) => |receive| - |give|
    case _ => p.amount
  }

  predicate IsZero(p: Profit) { Quantity(p) == 0 }

  function Sign(n: int): int {
    if n > 0 then 1 else if n < 0 then -1 else 0
  }

  /** None stands for the not-comparable error. ZeroProfit compares with everything, nothing else with it. */
  function Compare(p: Profit, q: Profit): Option<int> {
    if p.ZeroProfit? then Some(-Sign(Quantity(q)))
    else if KeyOf(p) == KeyOf(q) then Some(Sign(Quantity(p) - Quantity(q)))
    else None
  }

  /** A token received cancels one given, and the other way round; receiving or giving it again changes nothing. */
  function MergeTokens(p: Profit, q: Profit): Profit
    requires p.ERC721CombinedProfit? && q.ERC721CombinedProfit?
  {
    var give := p.giveTokens - q.receiveTokens;
    var receive := p.receiveTokens + (q.receiveTokens - p.giveTokens);
    p.(receiveTokens := receive - q.giveTokens, giveTokens := give + (q.giveTokens - receive))
  }

  /** Takes in tokens one by one: each cancels one held the other way, or joins `have` if it is new there. */
  method TakeTokens(have: set<TokenID>, opposite: set<TokenID>, incoming: set<TokenID>)
    returns (have': set<TokenID>, opposite': set<TokenID>)
    ensures have' == have + (incoming - opposite) && opposite' == opposite - incoming
  {
    have', opposite' := have, opposite;
    var todo := incoming;
    while todo != {}
      invariant todo <= incoming
      invariant have' == have + ((incoming - todo) - opposite) && opposite' == opposite - (incoming - todo)
      decreases |todo|
    {
      var t :| t in todo;
      todo := todo - {t};
      if t in opposite' {
        opposite' := opposite' - {t};
      } else if t !in have' {
        have' := have' + {t};
      }
    }
  }

  method MergeERC721(p: Profit, q: Profit) returns (merged: Profit)
    requires p.ERC721CombinedProfit? && q.ERC721CombinedProfit?
    ensures merged == MergeTokens(p, q)
  {
    var receive, give := TakeTokens(p.receiveTokens, p.giveTokens, q.receiveTokens);
    give, receive := TakeTokens(give, receive, q.giveTokens);
    merged := ERC721CombinedProfit(p.account, p.contract, receive, give);
  }

  /** How a combined profit stands to one token: received, given, or neither. */
  function Standing(p: Profit, t: TokenID): int
    requires p.ERC721CombinedProfit?
  {
    (if t in p.receiveTokens then 1 else 0) - (if t in p.giveTokens then 1 else 0)
  }

  /** Merging adds up the standing to every token, stopping at received or given once. */
  lemma MergeTokensAddsStandings(p: Profit, q: Profit, t: TokenID)
    requires p.ERC721CombinedProfit? && q.ERC721CombinedProfit?
    requires p.receiveTokens !! p.giveTokens && q.receiveTokens !! q.giveTokens
    ensures MergeTokens(p, q).receiveTokens !! MergeTokens(p, q).giveTokens
    ensures Standing(MergeTokens(p, q), t) == Sign(Standing(p, t) + Standing(q, t))
  {
  }

  /** None stands for the merge-not-possible error. */
  function Merge(p: Profit, q: Profit): Option<Profit> {
    if p.ZeroProfit? then Some(q)
    else if KeyOf(p) != KeyOf(q) then None
    else match p
      case EtherProfit(a, x) => Some(EtherProfit(a, x + q.amount))
      case ERC20Profit(a, c, x) => Some(ERC20Profit(a, c, x + q.amount))
      case ERC777Profit(a, c, x) => Some(ERC777Profit(a, c, x + q.amount))
      case ERC1155Profit(a, c, t, x) => Some(ERC1155Profit(a, c, t, x + q.amount))
      case ERC721CombinedProfit(_, _, _, _) => Some(MergeTokens(p, q))
  }

  // ---- Add ----

  /** Merges into the first profit that takes it, or appends. */
  function AddOne(ps: seq<Profit>, e: Profit): seq<Profit> {
    if ps == [] then [e]
    else match Merge(ps[0], e)
      case Some(m) => [m] + ps[1..]
      case None => [ps[0]] + AddOne(ps[1..], e)
  }

  function AddAll(ps: seq<Profit>, es: seq<Profit>): seq<Profit>
    decreases |es|
  {
    if es == [] then ps else AddAll(AddOne(ps, es[0]), es[1..])
  }

  lemma {:induction false} AddOneAt(ps: seq<Profit>, e: Profit, i: nat)
    requires i <= |ps| && forall j :: 0 <= j < i ==> Merge(ps[j], e) == None
    ensures i == |ps| ==> AddOne(ps, e) == ps + [e]
    ensures i < |ps| && Merge(ps[i], e).Some? ==> AddOne(ps, e) == ps[i := Merge(ps[i], e).value]
  {
    if i > 0 {
      forall j | 0 <= j < i - 1 ensures Merge(ps[1..][j], e) == None {
        assert ps[1..][j] == ps[j + 1];
      }
      AddOneAt(ps[1..], e, i - 1);
      assert ps == [ps[0]] + ps[1..];
    }
  }

  method Add(ps: seq<Profit>, elems: seq<Profit>) returns (slice: seq<Profit>)
    ensures slice == AddAll(ps, elems)
  {
    slice := ps;
    assert elems[0..] == elems;
    for n := 0 to |elems|
      invariant AddAll(slice, elems[n..]) == AddAll(ps, elems)
    {
      var elem, i, merged := elems[n], 0, false;
      ghost var before := slice;
      while i < |slice| && !merged
        invariant i <= |slice| && (merged ==> slice == AddOne(before, elem))
        invariant !merged ==> slice == before && forall j :: 0 <= j < i ==> Merge(slice[j], elem) == None
        decreases |slice| - i, !merged
      {
        match Merge(slice[i], elem) {
          case Some(m) =>
            AddOneAt(slice, elem, i);
            slice, merged := slice[i := m], true;
          case None => i := i + 1;
        }
      }
      if !merged {
        AddOneAt(slice, elem, i);
        slice := slice + [elem];
      }
      assert elems[n..][0] == elem && elems[n..][1..] == elems[n + 1..];
    }
  }

  // ---- What Add keeps ----

  /** The net quantity of an asset in a list. */
  function Net(ps: seq<Profit>, k: Key): int {
    if ps == [] then 0 else (if KeyOf(ps[0]) == k then Quantity(ps[0]) else 0) + Net(ps[1..], k)
  }

  function Keys(ps: seq<Profit>): set<Key> {
    if ps == [] then {} else {KeyOf(ps[0])} + Keys(ps[1..])
  }

  /** No asset twice, and no ZeroProfit. */
  predicate Proper(ps: seq<Profit>) {
    ps == [] || (!ps[0].ZeroProfit? && KeyOf(ps[0]) !in Keys(ps[1..]) && Proper(ps[1..]))
  }

  lemma {:induction false} KeyAt(ps: seq<Profit>, k: Key) returns (i: nat)
    requires k in Keys(ps)
    ensures i < |ps| && KeyOf(ps[i]) == k
  {
    if KeyOf(ps[0]) == k {
      i := 0;
    } else {
      i := KeyAt(ps[1..], k);
      i := i + 1;
    }
  }

  lemma {:induction false} KeyListed(ps: seq<Profit>, i: nat)
    requires i < |ps|
    ensures KeyOf(ps[i]) in Keys(ps)
  {
    if i > 0 {
      KeyListed(ps[1..], i - 1);
    }
  }

  lemma {:induction false} AddOneNet(ps: seq<Profit>, e: Profit, k: Key)
    requires !k.ERC721Of?
    ensures Net(AddOne(ps, e), k) == Net(ps, k) + Net([e], k)
  {
    if ps != [] {
      match Merge(ps[0], e) {
        case Some(m) =>
          assert ([m] + ps[1..])[1..] == ps[1..];
        case None =>
          assert ([ps[0]] + AddOne(ps[1..], e))[1..] == AddOne(ps[1..], e);
          AddOneNet(ps[1..], e, k);
      }
    }
  }

  /** Adding profits adds their net quantities, fungible asset by fungible asset. */
  lemma {:induction false} AddNet(ps: seq<Profit>, es: seq<Profit>, k: Key)
    requires !k.ERC721Of?
    ensures Net(AddAll(ps, es), k) == Net(ps, k) + Net(es, k)
    decreases |es|
  {
    if es != [] {
      AddOneNet(ps, es[0], k);
      AddNet(AddOne(ps, es[0]), es[1..], k);
    }
  }

  lemma {:induction false} AddOneProper(ps: seq<Profit>, e: Profit)
    requires Proper(ps) && !e.ZeroProfit?
    ensures Proper(AddOne(ps, e)) && Keys(AddOne(ps, e)) == Keys(ps) + {KeyOf(e)}
  {
    if ps == [] {
      assert [e][1..] == [];
    } else {
      match Merge(ps[0], e) {
        case Some(m) =>
          assert ([m] + ps[1..])[1..] == ps[1..];
        case None =>
          AddOneProper(ps[1..], e);
          assert ([ps[0]] + AddOne(ps[1..], e))[1..] == AddOne(ps[1..], e);
      }
    }
  }

  /** Adding to a list without duplicates makes none. */
  lemma {:induction false} AddProper(ps: seq<Profit>, es: seq<Profit>)
    requires Proper(ps) && forall e :: e in es ==> !e.ZeroProfit?
    ensures Proper(AddAll(ps, es))
    decreases |es|
  {
    if es != [] {
      AddOneProper(ps, es[0]);
      AddProper(AddOne(ps, es[0]), es[1..]);
    }
  }

  // ---- Compact and ProfitsOf ----

  function NonZero(ps: seq<Profit>): seq<Profit> {
    if ps == [] then [] else (if IsZero(ps[0]) then [] else [ps[0]]) + NonZero(ps[1..])
  }

  /** Drops what is zero. What it merges along the way it throws away, so duplicates stay. */
  method Compact(ps: seq<Profit>) returns (rr: seq<Profit>)
    ensures rr == NonZero(ps)
  {
    var _ := Add([], ps);
    rr := [];
    assert ps[0..] == ps;
    for i := 0 to |ps|
      invariant rr + NonZero(ps[i..]) == NonZero(ps)
    {
      if !IsZero(ps[i]) {
        rr := rr + [ps[i]];
      }
      assert ps[i..][1..] == ps[i + 1..];
    }
  }

  lemma {:induction false} NonZeroNet(ps: seq<Profit>, k: Key)
    ensures Net(NonZero(ps), k) == Net(ps, k)
  {
    if ps != [] {
      NonZeroNet(ps[1..], k);
      if !IsZero(ps[0]) {
        assert ([ps[0]] + NonZero(ps[1..]))[1..] == NonZero(ps[1..]);
      } else {
        assert NonZero(ps) == NonZero(ps[1..]);
      }
    }
  }

  /** The account a profit goes to; the zero address for ZeroProfit. */
  function Beneficiary(p: Profit): Address {
    if p.ZeroProfit? then 0 else p.account
  }

  predicate KeyBelongsTo(k: Key, account: Address) {
    k != NoKey && k.account == account
  }

  function Belonging(ps: seq<Profit>, account: Address): seq<Profit> {
    if ps == [] then []
    else (if Beneficiary(ps[0]) == account then [ps[0]] else []) + Belonging(ps[1..], account)
  }

  method ProfitsOf(ps: seq<Profit>, account: Address) returns (r: seq<Profit>)
    ensures r == AddAll([], Belonging(ps, account))
  {
    r := [];
    assert ps[0..] == ps;
    for i := 0 to |ps|
      invariant AddAll(r, Belonging(ps[i..], account)) == AddAll([], Belonging(ps, account))
    {
      assert ps[i..][1..] == ps[i + 1..];
      if Beneficiary(ps[i]) == account {
        assert Belonging(ps[i..], account) == [ps[i]] + Belonging(ps[i + 1..], account);
        assert AddAll(r, [ps[i]]) == AddAll(AddOne(r, ps[i]), [ps[i]][1..]) == AddOne(r, ps[i]);
        r := Add(r, [ps[i]]);
      } else {
        assert Belonging(ps[i..], account) == Belonging(ps[i + 1..], account);
      }
    }
  }

  lemma {:induction false} BelongingNet(ps: seq<Profit>, account: Address, k: Key)
    ensures Net(Belonging(ps, account), k) == if KeyBelongsTo(k, account) then Net(ps, k) else 0
  {
    if ps != [] {
      BelongingNet(ps[1..], account, k);
      if Beneficiary(ps[0]) == account {
        assert ([ps[0]] + Belonging(ps[1..], account))[1..] == Belonging(ps[1..], account);
      } else {
        assert Belonging(ps, account) == Belonging(ps[1..], account);
      }
    }
  }

  /** ProfitsOf keeps the account's net quantity of every fungible asset and nobody else's. */
  lemma ProfitsOfIsShare(ps: seq<Profit>, account: Address, k: Key)
    requires !k.ERC721Of?
    ensures Net(AddAll([], Belonging(ps, account)), k) == if KeyBelongsTo(k, account) then Net(ps, k) else 0
  {
    AddNet([], Belonging(ps, account), k);
    BelongingNet(ps, account, k);
  }

  method EtherProfitOf(ps: seq<Profit>, account: Address) returns (p: Profit)
    ensures p == EtherProfit(account, Net(ps, EtherOf(account)))
  {
    p := EtherProfit(account, 0);
    assert ps[0..] == ps;
    for i := 0 to |ps|
      invariant p.EtherProfit? && p.account == account
      invariant p.amount + Net(ps[i..], EtherOf(account)) == Net(ps, EtherOf(account))
    {
      match Merge(p, ps[i]) {
        case Some(merged) => p := merged;
        case None =>
      }
      assert ps[i..][1..] == ps[i + 1..];
    }
  }

  // ---- Cmp ----

  /** How a profit stands against the first comparable one in a list, or against nothing. */
  function Against(p: Profit, o: seq<Profit>): int {
    if o == [] then Sign(Quantity(p))
    else match Compare(p, o[0])
      case Some(c) => c
      case None => Against(p, o[1..])
  }

  /** Folds the comparisons of one list's profits: zeros are neutral, opposite signs clash. */
  function CmpAll(t: seq<Profit>, o: seq<Profit>, acc: int): Option<int> {
    if t == [] then Some(acc)
    else
      var c := Against(t[0], o);
      if acc == 0 then CmpAll(t[1..], o, c)
      else if c != 0 && c != acc then None
      else CmpAll(t[1..], o, acc)
  }

  function Padded(ps: seq<Profit>): seq<Profit> {
    if NonZero(ps) == [] then [ZeroProfit] else NonZero(ps)
  }

  function Order(ps: seq<Profit>, other: seq<Profit>): Option<int> {
    var there, back := CmpAll(Padded(ps), Padded(other), 0), CmpAll(Padded(other), Padded(ps), 0);
    if there.Some? && back.Some? && there.value == -back.value then there else None
  }

  method CompareWith(p: Profit, o: seq<Profit>) returns (cmp: int)
    ensures cmp == Against(p, o)
  {
    assert o[0..] == o;
    for j := 0 to |o|
      invariant Against(p, o[j..]) == Against(p, o)
    {
      match Compare(p, o[j]) {
        case Some(c) => return c;
        case None =>
      }
      assert o[j..][1..] == o[j + 1..];
    }
    cmp := Sign(Quantity(p));
  }

  method InnerCmp(t: seq<Profit>, o: seq<Profit>) returns (r: Option<int>)
    ensures r == CmpAll(t, o, 0)
  {
    var tmpResult := 0;
    assert t[0..] == t;
    for i := 0 to |t|
      invariant CmpAll(t[i..], o, tmpResult) == CmpAll(t, o, 0)
    {
      var cmp := CompareWith(t[i], o);
      assert t[i..][0] == t[i] && t[i..][1..] == t[i + 1..];
      if tmpResult == 0 {
        tmpResult := cmp;
      } else if cmp != 0 && tmpResult != cmp {
        return None;
      }
    }
    r := Some(tmpResult);
  }

  method Cmp(ps: seq<Profit>, other: seq<Profit>) returns (r: Option<int>)
    ensures r == Order(ps, other)
  {
    var this_ := Compact(ps);
    var other_ := Compact(other);
    if |this_| == 0 {
      assert AddAll([], [ZeroProfit]) == AddAll(AddOne([], ZeroProfit), [ZeroProfit][1..]) == [ZeroProfit];
      this_ := Add(this_, [ZeroProfit]);
    }
    if |other_| == 0 {
      assert AddAll([], [ZeroProfit]) == AddAll(AddOne([], ZeroProfit), [ZeroProfit][1..]) == [ZeroProfit];
      other_ := Add(other_, [ZeroProfit]);
    }
    var result := InnerCmp(this_, other_);
    if result.None? {
      return None;
    }
    var reverseResult := InnerCmp(other_, this_);
    if reverseResult.None? {
      return None;
    }
    r := if result.value == -reverseResult.value then result else None;
  }

  // ---- What the comparison means ----

  /** Swapping the lists turns the answer round, errors included. */
  lemma OrderAntisymmetric(a: seq<Profit>, b: seq<Profit>, r: int)
    ensures Order(a, b) == Some(r) <==> Order(b, a) == Some(-r)
  {
  }

  lemma {:induction false} CmpAllIs(t: seq<Profit>, o: seq<Profit>, acc: int, r: int)
    requires acc in {0, r}
    ensures CmpAll(t, o, acc) == Some(r) <==>
            && (forall i :: 0 <= i < |t| ==> Against(t[i], o) in {0, r})
            && (r == 0 || acc == r || exists i :: 0 <= i < |t| && Against(t[i], o) == r)
  {
    if t != [] {
      var c := Against(t[0], o);
      if c in {0, r} {
        CmpAllIs(t[1..], o, if acc == 0 then c else acc, r);
        assert forall i :: 0 <= i < |t| ==> t[i] == if i == 0 then t[0] else t[1..][i - 1];
        if exists i :: 0 <= i < |t[1..]| && Against(t[1..][i], o) == r {
          var i :| 0 <= i < |t[1..]| && Against(t[1..][i], o) == r;
          assert t[i + 1] == t[1..][i];
        }
      } else if acc == 0 {
        CmpAllStuck(t[1..], o, c, r);
      }
    }
  }

  lemma {:induction false} CmpAllStuck(t: seq<Profit>, o: seq<Profit>, acc: int, r: int)
    requires acc != 0 && acc != r
    ensures CmpAll(t, o, acc) != Some(r)
  {
    if t != [] {
      CmpAllStuck(t[1..], o, acc, r);
    }
  }

  lemma {:induction false} NetAt(ps: seq<Profit>, i: nat)
    requires Proper(ps) && i < |ps|
    ensures Net(ps, KeyOf(ps[i])) == Quantity(ps[i]) && !ps[i].ZeroProfit?
  {
    if i == 0 {
      NetAbsent(ps[1..], KeyOf(ps[0]));
    } else {
      NetAt(ps[1..], i - 1);
      KeyListed(ps[1..], i - 1);
    }
  }

  lemma {:induction false} NetAbsent(ps: seq<Profit>, k: Key)
    requires k !in Keys(ps)
    ensures Net(ps, k) == 0
  {
    if ps != [] {
      NetAbsent(ps[1..], k);
    }
  }

  lemma {:induction false} NonZeroProper(ps: seq<Profit>)
    requires Proper(ps)
    ensures Proper(NonZero(ps)) && Keys(NonZero(ps)) <= Keys(ps)
    ensures forall p :: p in NonZero(ps) ==> !IsZero(p)
  {
    if ps != [] {
      NonZeroProper(ps[1..]);
      if !IsZero(ps[0]) {
        assert ([ps[0]] + NonZero(ps[1..]))[1..] == NonZero(ps[1..]);
      } else {
        assert NonZero(ps) == NonZero(ps[1..]);
      }
    }
  }

  /** Against a list without duplicates, a profit stands as its quantity to the list's. */
  lemma {:induction false} AgainstIs(p: Profit, o: seq<Profit>)
    requires Proper(o) && !p.ZeroProfit?
    ensures Against(p, o) == Sign(Quantity(p) - Net(o, KeyOf(p)))
  {
    if o != [] {
      if KeyOf(o[0]) == KeyOf(p) {
        NetAt(o, 0);
      } else {
        AgainstIs(p, o[1..]);
      }
    }
  }

  /** Quantities of `a` against those of `b`, asset by asset, are all zero or of sign `r`. */
  ghost predicate Uniform(a: seq<Profit>, b: seq<Profit>, r: int) {
    forall k :: Sign(Net(a, k) - Net(b, k)) in {0, r}
  }

  /** Some asset that `a` holds makes the difference, unless `a` holds nothing. */
  ghost predicate Shown(a: seq<Profit>, b: seq<Profit>, r: int) {
    r == 0 || NonZero(a) == [] || exists k :: Net(a, k) != 0 && Sign(Net(a, k) - Net(b, k)) == r
  }

  /** The half of Uniform that the profits of `a` can see. */
  ghost predicate UniformOn(a: seq<Profit>, b: seq<Profit>, r: int) {
    forall k :: Net(a, k) != 0 ==> Sign(Net(a, k) - Net(b, k)) in {0, r}
  }

  lemma AgainstPadded(p: Profit, b: seq<Profit>)
    requires Proper(b) && !p.ZeroProfit?
    ensures Against(p, Padded(b)) == Sign(Quantity(p) - Net(b, KeyOf(p)))
  {
    NonZeroNet(b, KeyOf(p));
    if NonZero(b) != [] {
      NonZeroProper(b);
      AgainstIs(p, NonZero(b));
    } else {
      assert Padded(b) == [ZeroProfit] && Compare(p, ZeroProfit) == None;
      assert Against(p, [ZeroProfit]) == Against(p, [ZeroProfit][1..]);
    }
  }

  lemma HeldNet(a: seq<Profit>, i: nat)
    requires Proper(a) && i < |NonZero(a)|
    ensures var p := NonZero(a)[i]; !p.ZeroProfit? && Net(a, KeyOf(p)) == Quantity(p) != 0
  {
    NonZeroProper(a);
    NetAt(NonZero(a), i);
    NonZeroNet(a, KeyOf(NonZero(a)[i]));
    assert NonZero(a)[i] in NonZero(a);
  }

  lemma HeldAt(a: seq<Profit>, k: Key) returns (i: nat)
    requires Proper(a) && Net(a, k) != 0
    ensures i < |NonZero(a)| && KeyOf(NonZero(a)[i]) == k
  {
    NonZeroNet(a, k);
    if k !in Keys(NonZero(a)) {
      NetAbsent(NonZero(a), k);
    }
    i := KeyAt(NonZero(a), k);
  }

  lemma HeldTerms(a: seq<Profit>, b: seq<Profit>)
    requires Proper(a) && Proper(b)
    ensures forall i :: 0 <= i < |NonZero(a)| ==>
              var k := KeyOf(NonZero(a)[i]);
              Net(a, k) != 0 && Against(NonZero(a)[i], Padded(b)) == Sign(Net(a, k) - Net(b, k))
  {
    forall i | 0 <= i < |NonZero(a)|
      ensures var k := KeyOf(NonZero(a)[i]);
              Net(a, k) != 0 && Against(NonZero(a)[i], Padded(b)) == Sign(Net(a, k) - Net(b, k))
    {
      HeldNet(a, i);
      AgainstPadded(NonZero(a)[i], b);
    }
  }

  lemma HalfMeans(a: seq<Profit>, b: seq<Profit>, r: int)
    requires Proper(a) && Proper(b) && NonZero(a) != []
    ensures CmpAll(Padded(a), Padded(b), 0) == Some(r) <==> UniformOn(a, b, r) && Shown(a, b, r)
  {
    var t := NonZero(a);
    CmpAllIs(t, Padded(b), 0, r);
    HeldTerms(a, b);
    if CmpAll(t, Padded(b), 0) == Some(r) {
      forall k | Net(a, k) != 0 ensures Sign(Net(a, k) - Net(b, k)) in {0, r} {
        var i := HeldAt(a, k);
      }
      if r != 0 {
        var i :| 0 <= i < |t| && Against(t[i], Padded(b)) == r;
        assert Net(a, KeyOf(t[i])) != 0;
      }
    } else if UniformOn(a, b, r) && Shown(a, b, r) && r != 0 {
      var k :| Net(a, k) != 0 && Sign(Net(a, k) - Net(b, k)) == r;
      var i := HeldAt(a, k);
    }
  }

  lemma NothingHeld(a: seq<Profit>)
    requires NonZero(a) == []
    ensures forall k :: Net(a, k) == 0
  {
    forall k ensures Net(a, k) == 0 {
      NonZeroNet(a, k);
    }
  }

  /** A list that holds nothing is only held against the first profit of the other. */
  lemma EmptyHalf(a: seq<Profit>, b: seq<Profit>)
    requires NonZero(a) == []
    ensures CmpAll(Padded(a), Padded(b), 0) == Some(-Sign(Quantity(Padded(b)[0])))
  {
    var c := -Sign(Quantity(Padded(b)[0]));
    assert Padded(a) == [ZeroProfit] && Against(ZeroProfit, Padded(b)) == c;
    assert CmpAll([ZeroProfit], Padded(b), 0) == CmpAll([ZeroProfit][1..], Padded(b), c);
  }

  lemma OrderOfEmpty(a: seq<Profit>, b: seq<Profit>, r: int)
    requires Proper(a) && Proper(b) && NonZero(a) == [] && NonZero(b) != []
    ensures Order(a, b) == Some(r) <==> UniformOn(b, a, -r) && Shown(b, a, -r)
  {
    EmptyHalf(a, b);
    NothingHeld(a);
    HalfMeans(b, a, -r);
    HeldNet(b, 0);
  }

  /**
   On lists without duplicates the comparison answers `r` exactly when no asset differs the other
   way and each list that holds anything holds an asset that shows the difference. So the answer is
   sound, and one list may be ahead without Cmp saying so.
   */
  lemma OrderMeans(a: seq<Profit>, b: seq<Profit>, r: int)
    requires Proper(a) && Proper(b)
    ensures Order(a, b) == Some(r) <==>
            && Uniform(a, b, r) && Shown(a, b, r) && Shown(b, a, -r)
            && (NonZero(a) == [] && NonZero(b) == [] ==> r == 0)
  {
    if NonZero(a) != [] && NonZero(b) != [] {
      HalfMeans(a, b, r);
      HalfMeans(b, a, -r);
    } else if NonZero(b) != [] {
      NothingHeld(a);
      OrderOfEmpty(a, b, r);
    } else if NonZero(a) != [] {
      NothingHeld(b);
      OrderOfEmpty(b, a, -r);
      OrderAntisymmetric(a, b, r);
    } else {
      NothingHeld(a);
      NothingHeld(b);
      EmptyHalf(a, b);
      EmptyHalf(b, a);
    }
  }

  /** An account that gained a token and is otherwise level is reported as not comparable. */
  lemma AheadButNotComparable(a: Address, c: Address)
    ensures var more, less := [EtherProfit(a, 1), ERC20Profit(a, c, 1)], [EtherProfit(a, 1)];
            && Proper(more) && Proper(less) && Uniform(more, less, 1)
            && Net(more, ERC20Of(a, c)) > Net(less, ERC20Of(a, c)) && Order(more, less) == None
  {
    var token := [ERC20Profit(a, c, 1)];
    var more, less := [EtherProfit(a, 1)] + token, [EtherProfit(a, 1)];
    assert more == [EtherProfit(a, 1), ERC20Profit(a, c, 1)];
    assert token[1..] == [] && less[1..] == [] && more[1..] == token;
    assert Keys(token) == {ERC20Of(a, c)} && Proper(token) && Proper(more) && Proper(less);
    assert forall k :: Net(token, k) == (if k == ERC20Of(a, c) then 1 else 0) + Net(token[1..], k);
    assert forall k :: Net(more, k) == Net(less, k) + Net(token, k);
    assert Sign(Net(more, ERC20Of(a, c)) - Net(less, ERC20Of(a, c))) == 1;
    forall r | Order(more, less) == Some(r) ensures false {
      OrderMeans(more, less, r);
    }
  }
}
