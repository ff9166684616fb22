/**
 State variables a transaction defines and uses, and the two ways of collecting them in a list.
 */
module StateVars {
  import opened Chain

  /** `location` is where the trace defines or uses the variable; None if the transaction itself does. */
  datatype StateVariable =
    | StorageVariable(address: Address, storage: Hash, value: Hash, location: Option<nat>)
    | BalanceVariable(address: Address, amount: int, location: Option<nat>)
    | CodeVariable(address: Address, code: seq<nat>, codeSize: nat, codeHash: Hash, location: Option<nat>)

  datatype VarID = StorageID(address: Address, storage: Hash) | BalanceID(address: Address) | CodeID(address: Address)

  function ID(v: StateVariable): VarID {
    match v
    case StorageVariable(a, s, _, _) => StorageID(a, s)
    case BalanceVariable(a, _, _) => BalanceID(a)
    case CodeVariable(a, _, _, _, _) => CodeID(a)
  }

  predicate Same(v: StateVariable, w: StateVariable) {
    match v
    case StorageVariable(a, s, _, _) => w.StorageVariable? && a == w.address && s == w.storage
    case BalanceVariable(a, _, _) => w.BalanceVariable? && a == w.address
    case CodeVariable(a, _, _, _, _) => w.CodeVariable? && a == w.address
  }

  /** The first variable of a list with an identity. */
  function Lookup(vs: seq<StateVariable>, id: VarID): Option<StateVariable> {
    if vs == [] then None else if ID(vs[0]) == id then Some(vs[0]) else Lookup(vs[1..], id)
  }

  function Or(first: Option<StateVariable>, second: Option<StateVariable>): Option<StateVariable> {
    if first.Some? then first else second
  }

  function IDs(vs: seq<StateVariable>): set<VarID> {
    if vs == [] then {} else {ID(vs[0])} + IDs(vs[1..])
  }

  predicate Distinct(vs: seq<StateVariable>) {
    vs == [] || (ID(vs[0]) !in IDs(vs[1..]) && Distinct(vs[1..]))
  }

  lemma {:induction false} LookupIn(vs: seq<StateVariable>, id: VarID)
    ensures Lookup(vs, id).Some? <==> id in IDs(vs)
    ensures Lookup(vs, id).Some? ==> Lookup(vs, id).value in vs && ID(Lookup(vs, id).value) == id
  {
    if vs != [] {
      LookupIn(vs[1..], id);
    }
  }

  // ---- AddWithOverride and AddIfAbsent ----

  function Override(vs: seq<StateVariable>, e: StateVariable): seq<StateVariable> {
    if vs == [] then [e] else if Same(vs[0], e) then [e] + vs[1..] else [vs[0]] + Override(vs[1..], e)
  }

  function OverrideAll(vs: seq<StateVariable>, es: seq<StateVariable>): seq<StateVariable>
    decreases |es|
  {
    if es == [] then vs else OverrideAll(Override(vs, es[0]), es[1..])
  }

  function IfAbsent(vs: seq<StateVariable>, e: StateVariable): seq<StateVariable> {
    if ID(e) in IDs(vs) then vs else vs + [e]
  }

  function IfAbsentAll(vs: seq<StateVariable>, es: seq<StateVariable>): seq<StateVariable>
    decreases |es|
  {
    if es == [] then vs else IfAbsentAll(IfAbsent(vs, es[0]), es[1..])
  }

  lemma {:induction false} OverrideAt(vs: seq<StateVariable>, e: StateVariable, i: nat)
    requires i <= |vs| && forall j :: 0 <= j < i ==> !Same(vs[j], e)
    ensures i == |vs| ==> Override(vs, e) == vs + [e]
    ensures i < |vs| && Same(vs[i], e) ==> Override(vs, e) == vs[i := e]
  {
    if i > 0 {
      forall j | 0 <= j < i - 1 ensures !Same(vs[1..][j], e) {
        assert vs[1..][j] == vs[j + 1];
      }
      OverrideAt(vs[1..], e, i - 1);
      assert vs == [vs[0]] + vs[1..];
    }
  }

  lemma {:induction false} IDListed(vs: seq<StateVariable>, id: VarID)
    ensures id in IDs(vs) <==> exists i :: 0 <= i < |vs| && ID(vs[i]) == id
  {
    if vs != [] {
      IDListed(vs[1..], id);
      if id in IDs(vs[1..]) {
        var i :| 0 <= i < |vs[1..]| && ID(vs[1..][i]) == id;
        assert ID(vs[i + 1]) == id;
      }
      if i :| 0 < i < |vs| && ID(vs[i]) == id {
        assert vs[1..][i - 1] == vs[i];
      }
    }
  }

  method AddWithOverride(vs: seq<StateVariable>, elems: seq<StateVariable>) returns (slice: seq<StateVariable>)
    ensures slice == OverrideAll(vs, elems)
  {
    slice := vs;
    assert elems[0..] == elems;
    for n := 0 to |elems|
      invariant OverrideAll(slice, elems[n..]) == OverrideAll(vs, elems)
    {
      var elem, i, found := elems[n], 0, false;
      ghost var before := slice;
      while i < |slice| && !found
        invariant i <= |slice| && (found ==> slice == Override(before, elem))
        invariant !found ==> slice == before && forall j :: 0 <= j < i ==> !Same(slice[j], elem)
        decreases |slice| - i, !found
      {
        if Same(slice[i], elem) {
          OverrideAt(slice, elem, i);
          slice, found := slice[i := elem], true;
        } else {
          i := i + 1;
        }
      }
      if !found {
        OverrideAt(slice, elem, i);
        slice := slice + [elem];
      }
      assert elems[n..][0] == elem && elems[n..][1..] == elems[n + 1..];
    }
  }

  method AddIfAbsent(vs: seq<StateVariable>, elems: seq<StateVariable>) returns (slice: seq<StateVariable>)
    ensures slice == IfAbsentAll(vs, elems)
  {
    slice := vs;
    assert elems[0..] == elems;
    for n := 0 to |elems|
      invariant IfAbsentAll(slice, elems[n..]) == IfAbsentAll(vs, elems)
    {
      var elem, i, found := elems[n], 0, false;
      while i < |slice| && !found
        invariant i <= |slice| && (found ==> i < |slice| && Same(slice[i], elem))
        invariant !found ==> forall j :: 0 <= j < i ==> !Same(slice[j], elem)
        decreases |slice| - i, !found
      {
        SameIsSameID(slice[i], elem);
        if Same(slice[i], elem) {
          found := true;
        } else {
          i := i + 1;
        }
      }
      IDListed(slice, ID(elem));
      if !found {
        slice := slice + [elem];
      }
      assert elems[n..][0] == elem && elems[n..][1..] == elems[n + 1..];
    }
  }

  /** Pairs of variables that are the same, in the order of the two nested loops. */
  method IntersectWith(vs: seq<StateVariable>, other: seq<StateVariable>)
    returns (r: seq<StateVariable>, ro: seq<StateVariable>)
    ensures |r| == |ro| && forall k :: 0 <= k < |r| ==> r[k] in vs && ro[k] in other && Same(r[k], ro[k])
    ensures forall v, w :: v in vs && w in other && Same(v, w) ==> exists k :: 0 <= k < |r| && r[k] == v && ro[k] == w
  {
    r, ro := [], [];
    for i := 0 to |vs|
      invariant |r| == |ro| && forall k :: 0 <= k < |r| ==> r[k] in vs && ro[k] in other && Same(r[k], ro[k])
      invariant forall v, w :: v in vs[..i] && w in other && Same(v, w) ==> exists k :: 0 <= k < |r| && r[k] == v && ro[k] == w
    {
      for j := 0 to |other|
        invariant |r| == |ro| && forall k :: 0 <= k < |r| ==> r[k] in vs && ro[k] in other && Same(r[k], ro[k])
        invariant forall v, w :: v in vs[..i] && w in other && Same(v, w) ==> exists k :: 0 <= k < |r| && r[k] == v && ro[k] == w
        invariant forall w :: w in other[..j] && Same(vs[i], w) ==> exists k :: 0 <= k < |r| && r[k] == vs[i] && ro[k] == w
      {
        if Same(vs[i], other[j]) {
          ghost var r0, ro0 := r, ro;
          r, ro := r + [vs[i]], ro + [other[j]];
          assert r[|r0|] == vs[i] && ro[|r0|] == other[j];
          assert forall k :: 0 <= k < |r0| ==> r[k] == r0[k] && ro[k] == ro0[k];
        }
      }
    }
  }

  // ---- What they mean: the last definition wins, the first use stays ----

  lemma {:induction false} OverrideLookup(vs: seq<StateVariable>, e: StateVariable, id: VarID)
    ensures Lookup(Override(vs, e), id) == if id == ID(e) then Some(e) else Lookup(vs, id)
    ensures IDs(Override(vs, e)) == IDs(vs) + {ID(e)}
    ensures Distinct(vs) ==> Distinct(Override(vs, e))
  {
    if vs == [] {
      assert [e][1..] == [];
    } else if Same(vs[0], e) {
      assert ([e] + vs[1..])[1..] == vs[1..];
    } else {
      OverrideLookup(vs[1..], e, id);
      assert ([vs[0]] + Override(vs[1..], e))[1..] == Override(vs[1..], e);
    }
  }

  /** The last variable of a list with an identity. */
  function Last(es: seq<StateVariable>, id: VarID): Option<StateVariable> {
    if es == [] then None
    else Or(Last(es[1..], id), if ID(es[0]) == id then Some(es[0]) else None)
  }

  lemma {:induction false} OverrideAllLookup(vs: seq<StateVariable>, es: seq<StateVariable>, id: VarID)
    ensures Lookup(OverrideAll(vs, es), id) == Or(Last(es, id), Lookup(vs, id))
    ensures Distinct(vs) ==> Distinct(OverrideAll(vs, es))
    decreases |es|
  {
    if es != [] {
      OverrideLookup(vs, es[0], id);
      OverrideAllLookup(Override(vs, es[0]), es[1..], id);
    }
  }

  lemma {:induction false} DistinctLast(vs: seq<StateVariable>, id: VarID)
    requires Distinct(vs)
    ensures Last(vs, id) == Lookup(vs, id)
  {
    if vs != [] {
      DistinctLast(vs[1..], id);
      LookupIn(vs[1..], id);
    }
  }

  lemma {:induction false} AppendLookup(vs: seq<StateVariable>, e: StateVariable, id: VarID)
    ensures Lookup(vs + [e], id) == Or(Lookup(vs, id), if ID(e) == id then Some(e) else None)
    ensures IDs(vs + [e]) == IDs(vs) + {ID(e)}
    ensures Distinct(vs) && ID(e) !in IDs(vs) ==> Distinct(vs + [e])
  {
    if vs == [] {
      assert vs + [e] == [e] && [e][1..] == [];
    } else {
      AppendLookup(vs[1..], e, id);
      assert (vs + [e])[1..] == vs[1..] + [e];
    }
  }

  lemma {:induction false} IfAbsentAllLookup(vs: seq<StateVariable>, es: seq<StateVariable>, id: VarID)
    ensures Lookup(IfAbsentAll(vs, es), id) == Or(Lookup(vs, id), Lookup(es, id))
    ensures Distinct(vs) ==> Distinct(IfAbsentAll(vs, es))
    decreases |es|
  {
    if es != [] {
      AppendLookup(vs, es[0], id);
      LookupIn(vs, id);
      IfAbsentAllLookup(IfAbsent(vs, es[0]), es[1..], id);
    }
  }

  lemma SameIsSameID(v: StateVariable, w: StateVariable)
    ensures Same(v, w) <==> ID(v) == ID(w)
  {
  }
}
