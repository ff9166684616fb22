/**
 Positions of message calls: the path of child indices from the root, compared like words in a
 dictionary.
 */
module CallPositions {

  type Position = seq<nat>

  /** Negative if the first position comes earlier: a call comes before its nested calls, and those in turn. */
  function Order(p: Position, q: Position): int {
    if p == [] then if q == [] then 0 else -1
    else if q == [] then 1
    else if p[0] < q[0] then -1
    else if p[0] > q[0] then 1
    else Order(p[1..], q[1..])
  }

  lemma {:induction false} OrderFrom(p: Position, q: Position, i: nat)
    requires i <= |p| && i <= |q| && p[..i] == q[..i]
    ensures Order(p, q) == Order(p[i..], q[i..])
  {
    if i > 0 {
      assert p[0] == p[..i][0] == q[..i][0] == q[0];
      assert p[1..][..i - 1] == p[..i][1..] && q[1..][..i - 1] == q[..i][1..];
      OrderFrom(p[1..], q[1..], i - 1);
      assert p[1..][i - 1..] == p[i..] && q[1..][i - 1..] == q[i..];
    } else {
      assert p[0..] == p && q[0..] == q;
    }
  }

  /** Its documentation has the signs the other way round. */
  method Cmp(p: Position, other: Position) returns (r: int)
    ensures r == Order(p, other)
  {
    var i := 0;
    while true
      invariant i <= |p| && i <= |other| && p[..i] == other[..i]
      decreases |p| - i
    {
      OrderFrom(p, other, i);
      if i >= |p| {
        if i >= |other| {
          return 0;
        }
        return -1;
      }
      if i >= |other| {
        return 1;
      }
      if p[i] < other[i] {
        return -1;
      }
      if p[i] > other[i] {
        return 1;
      }
      i := i + 1;
    }
  }

  method AncestorOf(p: Position, descendant: Position) returns (r: bool)
    ensures r <==> p < descendant
  {
    if |descendant| <= |p| {
      return false;
    }
    var prefix := descendant[..|p|];
    var c := Cmp(p, prefix);
    OrderZero(p, prefix);
    r := c == 0 && |descendant| > |p|;
  }

  method ParentOf(p: Position, child: Position) returns (r: bool)
    ensures r <==> exists k :: child == p + [k]
  {
    if |child| <= |p| {
      return false;
    }
    var prefix := child[..|p|];
    var c := Cmp(p, prefix);
    OrderZero(p, prefix);
    r := c == 0 && |child| == |p| + 1;
    if r {
      assert child == p + [child[|p|]];
    }
  }

  /** Only equal positions compare as equal. */
  lemma {:induction false} OrderZero(p: Position, q: Position)
    ensures Order(p, q) == 0 <==> p == q
  {
    if p != [] && q != [] {
      OrderZero(p[1..], q[1..]);
      assert p == [p[0]] + p[1..] && q == [q[0]] + q[1..];
    }
  }

  lemma {:induction false} OrderTurns(p: Position, q: Position)
    ensures Order(p, q) == -Order(q, p)
  {
    if p != [] && q != [] {
      OrderTurns(p[1..], q[1..]);
    }
  }

  lemma {:induction false} OrderTransitive(p: Position, q: Position, r: Position)
    requires Order(p, q) < 0 && Order(q, r) < 0
    ensures Order(p, r) < 0
  {
    if p != [] && q != [] && r != [] && p[0] == q[0] == r[0] {
      OrderTransitive(p[1..], q[1..], r[1..]);
    }
  }

  /** A call comes before all calls nested in it. */
  lemma {:induction false} PrefixFirst(p: Position, q: Position)
    requires q != []
    ensures Order(p, p + q) < 0
  {
    if p == [] {
      assert p + q == q;
    } else {
      assert (p + q)[1..] == p[1..] + q;
      PrefixFirst(p[1..], q);
    }
  }

  /** All of an earlier child comes before a later child. */
  lemma {:induction false} SiblingFirst(p: Position, j: nat, q: Position, k: nat)
    requires j < k
    ensures Order(p + [j] + q, p + [k]) < 0
  {
    if p == [] {
      assert p + [j] + q == [j] + q && p + [k] == [k];
    } else {
      assert (p + [j] + q)[1..] == p[1..] + [j] + q && (p + [k])[1..] == p[1..] + [k];
      SiblingFirst(p[1..], j, q, k);
    }
  }
}
