/**
 What Add and Compact make of whole lists of profits: assets listed more than once, and how an
 account stands to every ERC721 token.
 */
module ProfitLists {
  import opened Chain
  import opened Profits

  // ---- Assets listed more than once ----

  /** How often a list has an asset. */
  function Count(ps: seq<Profit>, k: Key): nat {
    if ps == [] then 0 else (if KeyOf(ps[0]) == k then 1 else 0) + Count(ps[1..], k)
  }

  /** A ZeroProfit comes before any profit of the asset. */
  predicate ZeroAhead(ps: seq<Profit>, k: Key) {
    ps != [] && (ps[0].ZeroProfit? || (KeyOf(ps[0]) != k && ZeroAhead(ps[1..], k)))
  }

  /** Add lists an asset once more exactly when it was not listed, or when a ZeroProfit ahead takes the profit in. */
  lemma {:induction false} AddOneCounts(ps: seq<Profit>, e: Profit, k: Key)
    requires k != NoKey
    ensures Count(AddOne(ps, e), k) ==
            Count(ps, k) + if k == KeyOf(e) && (Count(ps, k) == 0 || ZeroAhead(ps, k)) then 1 else 0
  {
    if ps == [] {
      assert [e][1..] == [];
    } else {
      match Merge(ps[0], e) {
        case Some(m) => assert ([m] + ps[1..])[1..] == ps[1..];
        case None =>
          AddOneCounts(ps[1..], e, k);
          assert ([ps[0]] + AddOne(ps[1..], e))[1..] == AddOne(ps[1..], e);
      }
    }
  }

  predicate ListedTwice(ps: seq<Profit>, k: Key) {
    Count(ps, k) >= 2
  }

  /**
   For any list and profit: afterwards an asset is listed more than once if and only if it was before,
   or it is the profit's own and is listed behind a ZeroProfit.
   */
  lemma AddOneListsTwice(ps: seq<Profit>, e: Profit, k: Key)
    requires k != NoKey
    ensures ListedTwice(AddOne(ps, e), k) <==>
            ListedTwice(ps, k) || (k == KeyOf(e) && Count(ps, k) == 1 && ZeroAhead(ps, k))
  {
    AddOneCounts(ps, e, k);
  }

  // ---- ERC721 tokens ----

  /** How the first profit of an ERC721 contract in a list stands to a token. */
  function Stands(ps: seq<Profit>, k: Key, t: TokenID): int {
    if ps == [] then 0
    else if ps[0].ERC721CombinedProfit? && KeyOf(ps[0]) == k then Standing(ps[0], t)
    else Stands(ps[1..], k, t)
  }

  /** Standings added up one profit after another, stopping at received or given once. */
  function StandsAfter(n: int, es: seq<Profit>, k: Key, t: TokenID): int
    decreases |es|
  {
    if es == [] then n
    else StandsAfter(if es[0].ERC721CombinedProfit? && KeyOf(es[0]) == k then Sign(n + Standing(es[0], t)) else n, es[1..], k, t)
  }

  /** No token both received and given. */
  predicate Disjoint(p: Profit) {
    p.ERC721CombinedProfit? ==> p.receiveTokens !! p.giveTokens
  }

  predicate AllDisjoint(ps: seq<Profit>) {
    forall i :: 0 <= i < |ps| ==> Disjoint(ps[i])
  }

  lemma {:induction false} AddOneStands(ps: seq<Profit>, e: Profit, k: Key, t: TokenID)
    requires Proper(ps) && AllDisjoint(ps) && Disjoint(e)
    ensures AllDisjoint(AddOne(ps, e))
    ensures Stands(AddOne(ps, e), k, t) == StandsAfter(Stands(ps, k, t), [e], k, t)
  {
    assert [e][1..] == [];
    if ps != [] {
      match Merge(ps[0], e) {
        case Some(m) =>
          assert ([m] + ps[1..])[1..] == ps[1..];
          if e.ERC721CombinedProfit? {
            MergeTokensAddsStandings(ps[0], e, t);
          }
        case None =>
          AddOneStands(ps[1..], e, k, t);
          assert ([ps[0]] + AddOne(ps[1..], e))[1..] == AddOne(ps[1..], e);
      }
    }
  }

  /** Adding profits adds up the standing to every token, one profit after another. */
  lemma {:induction false} AddStands(ps: seq<Profit>, es: seq<Profit>, k: Key, t: TokenID)
    requires Proper(ps) && AllDisjoint(ps) && AllDisjoint(es) && forall e :: e in es ==> !e.ZeroProfit?
    ensures Stands(AddAll(ps, es), k, t) == StandsAfter(Stands(ps, k, t), es, k, t)
    decreases |es|
  {
    if es != [] {
      assert [es[0]][1..] == [];
      AddOneProper(ps, es[0]);
      AddOneStands(ps, es[0], k, t);
      AddStands(AddOne(ps, es[0]), es[1..], k, t);
    }
  }

  /** An account that received as many tokens of a contract as it gave loses all it stood to them. */
  lemma {:induction false} NonZeroStands(ps: seq<Profit>, k: Key, t: TokenID)
    requires Proper(ps)
    ensures Stands(NonZero(ps), k, t) == if Net(ps, k) == 0 then 0 else Stands(ps, k, t)
  {
    if ps != [] {
      NonZeroStands(ps[1..], k, t);
      NetAt(ps, 0);
      if KeyOf(ps[0]) == k {
        StandsAbsent(ps[1..], k, t);
      }
      if !IsZero(ps[0]) {
        assert ([ps[0]] + NonZero(ps[1..]))[1..] == NonZero(ps[1..]);
      } else {
        assert NonZero(ps) == NonZero(ps[1..]);
      }
    }
  }

  lemma {:induction false} StandsAbsent(ps: seq<Profit>, k: Key, t: TokenID)
    requires k !in Keys(ps)
    ensures Stands(ps, k, t) == 0
  {
    if ps != [] {
      StandsAbsent(ps[1..], k, t);
    }
  }
}
