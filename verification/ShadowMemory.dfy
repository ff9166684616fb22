/**
 The word-granular shadow memory and the shadow call data and return data of a message call.
 One node stands for a 32-byte word. The concrete meaning is given by sets of tainted bytes,
 and the module proves when the words cover those bytes.
 */
module ShadowMemory {
  import opened FlowNodes

  const GRANULARITY: nat := 32

  /** Word offset -> node; an absent word is untainted, as in a Go map of interfaces. */
  type Words = map<nat, FlowNode>

  function Regulate(index: nat): nat {
    index - index % GRANULARITY
  }

  function At(m: Words, w: nat): FlowNode {
    if w in m then m[w] else Untainted
  }

  /** Word `w` has a byte in [start, start + length). */
  predicate Overlaps(w: nat, start: nat, length: nat) {
    w % GRANULARITY == 0 && start < w + GRANULARITY && w < start + length
  }

  /** Word `w` lies inside [start, start + length). */
  predicate Inside(w: nat, start: nat, length: nat) {
    start <= w && w + GRANULARITY <= start + length
  }

  /** The tainted nodes an access of a non-empty range touches. */
  function Touched(m: Words, start: nat, length: nat): set<FlowNode> {
    set w | w in m && length > 0 && Overlaps(w, start, length) && m[w] != Untainted :: m[w]
  }

  function Merge(value: FlowNode, held: FlowNode): FlowNode
    requires value.Node?
  {
    Node(MemoryMerge, value.op, {value, held})
  }

  /** What writing `value` leaves in a word that held `before`. */
  function Blend(before: FlowNode, value: FlowNode, whole: bool): FlowNode {
    if whole || before == Untainted then value
    else if value == Untainted then before
    else Merge(value, before)
  }

  /** The aligned words in [lo, hi). */
  function WordsBetween(lo: nat, hi: nat): set<nat> {
    set w: nat | lo <= w < hi && w % GRANULARITY == 0
  }

  /** The words below `hi` are those below the next word boundary. */
  lemma SameWords(lo: nat, hi: nat, next: nat)
    requires next % GRANULARITY == 0 && hi <= next < hi + GRANULARITY
    ensures WordsBetween(lo, next) == WordsBetween(lo, hi)
  {
    forall w | w in WordsBetween(lo, next) ensures w in WordsBetween(lo, hi) {
      assert w <= next - GRANULARITY;
    }
  }

  /** Memory after one node is written over [start, start + length), for the words below `hi`. */
  function StoredBelow(m: Words, start: nat, length: nat, value: FlowNode, hi: nat): Words {
    map w | w in m.Keys + WordsBetween(Regulate(start), hi) ::
      if w in WordsBetween(Regulate(start), hi) then Blend(At(m, w), value, Inside(w, start, length)) else At(m, w)
  }

  function Stored(m: Words, start: nat, length: nat, value: FlowNode): Words {
    if length == 0 then m else StoredBelow(m, start, length, value, start + length)
  }

  /** One turn of the write loop: word `i` is blended, every other word is left. */
  lemma StoredBelowNext(m: Words, start: nat, length: nat, value: FlowNode, i: nat)
    requires i % GRANULARITY == 0 && Regulate(start) <= i
    ensures At(StoredBelow(m, start, length, value, i), i) == At(m, i)
    ensures StoredBelow(m, start, length, value, i + GRANULARITY)
         == StoredBelow(m, start, length, value, i)[i := Blend(At(m, i), value, Inside(i, start, length))]
  {
    assert WordsBetween(Regulate(start), i + GRANULARITY) == WordsBetween(Regulate(start), i) + {i};
  }

  lemma StoredBelowEnd(m: Words, start: nat, length: nat, value: FlowNode, i: nat)
    requires length > 0 && i % GRANULARITY == 0 && start + length <= i < start + length + GRANULARITY
    ensures StoredBelow(m, start, length, value, i) == Stored(m, start, length, value)
  {
    SameWords(Regulate(start), start + length, i);
  }

  /** The source word the copy loop reads when it writes destination word `w`. */
  function SourceWord(w: nat, dest: nat, offset: nat): nat
    requires Regulate(dest) <= w
  {
    Regulate(offset) + (w - Regulate(dest))
  }

  /** First destination word the copy loop does not reach: it counts source words, not destination words. */
  function CopyEnd(dest: nat, offset: nat, length: nat): nat {
    Regulate(dest) + offset % GRANULARITY + length
  }

  function CopiedBelow(m: Words, src: Words, dest: nat, offset: nat, length: nat, hi: nat): Words {
    map w | w in m.Keys + WordsBetween(Regulate(dest), hi) ::
      if w in WordsBetween(Regulate(dest), hi)
      then Blend(At(m, w), At(src, SourceWord(w, dest, offset)), Inside(w, dest, length)) else At(m, w)
  }

  /** Memory after call data or return data `src` is copied in. */
  function CopiedIn(m: Words, src: Words, dest: nat, offset: nat, length: nat): Words {
    CopiedBelow(m, src, dest, offset, length, CopyEnd(dest, offset, length))
  }

  lemma NextWord(w: nat)
    requires w % GRANULARITY == 0
    ensures (w + GRANULARITY) % GRANULARITY == 0
  {
  }

  /** The copy loop goes on exactly as long as there are destination words to reach. */
  lemma CopyAdvances(dest: nat, offset: nat, length: nat, w: nat)
    requires w % GRANULARITY == 0 && Regulate(dest) <= w
    requires SourceWord(w, dest, offset) < offset + length
    ensures (w + GRANULARITY) % GRANULARITY == 0 && Regulate(dest) <= w + GRANULARITY < CopyEnd(dest, offset, length) + GRANULARITY
    ensures SourceWord(w + GRANULARITY, dest, offset) == SourceWord(w, dest, offset) + GRANULARITY
  {
    NextWord(w);
  }

  lemma CopyEnds(dest: nat, offset: nat, length: nat, w: nat)
    requires Regulate(dest) <= w && SourceWord(w, dest, offset) >= offset + length
    ensures CopyEnd(dest, offset, length) <= w
  {
  }

  /** One turn of the copy loop, from the memory `held` it has reached. */
  lemma CopyTurn(m: Words, src: Words, dest: nat, offset: nat, length: nat, w: nat, held: Words)
    requires w % GRANULARITY == 0 && Regulate(dest) <= w
    requires held == CopiedBelow(m, src, dest, offset, length, w)
    ensures held[w := Blend(At(held, w), At(src, SourceWord(w, dest, offset)), Inside(w, dest, length))]
         == CopiedBelow(m, src, dest, offset, length, w + GRANULARITY)
  {
    assert WordsBetween(Regulate(dest), w + GRANULARITY) == WordsBetween(Regulate(dest), w) + {w};
    assert At(held, w) == At(m, w);
  }

  lemma CopiedBelowEnd(m: Words, src: Words, dest: nat, offset: nat, length: nat, w: nat)
    requires w % GRANULARITY == 0
    requires CopyEnd(dest, offset, length) <= w < CopyEnd(dest, offset, length) + GRANULARITY
    ensures CopiedBelow(m, src, dest, offset, length, w) == CopiedIn(m, src, dest, offset, length)
  {
    SameWords(Regulate(dest), CopyEnd(dest, offset, length), w);
  }

  function TakenBelow(data: Words, m: Words, offset: nat, hi: nat): Words {
    map i | i in data.Keys + WordsBetween(0, hi) ::
      if i in WordsBetween(0, hi) then At(m, Regulate(offset) + i) else At(data, i)
  }

  /** Call data (or return data) after the memory words of a range are recorded in it from word 0 on. */
  function Taken(data: Words, m: Words, offset: nat, length: nat): Words {
    if length == 0 then data else TakenBelow(data, m, offset, offset % GRANULARITY + length)
  }

  lemma TakenBelowNext(data: Words, m: Words, offset: nat, i: nat)
    requires i % GRANULARITY == 0
    ensures TakenBelow(data, m, offset, i + GRANULARITY)
         == TakenBelow(data, m, offset, i)[i := At(m, Regulate(offset) + i)]
  {
    assert WordsBetween(0, i + GRANULARITY) == WordsBetween(0, i) + {i};
  }

  lemma TakenBelowStart(data: Words, m: Words, offset: nat)
    ensures TakenBelow(data, m, offset, 0) == data
  {
    assert WordsBetween(0, 0) == {};
  }

  lemma TakenBelowEnd(data: Words, m: Words, offset: nat, length: nat, i: nat)
    requires length > 0 && i % GRANULARITY == 0
    requires offset % GRANULARITY + length <= i < offset % GRANULARITY + length + GRANULARITY
    ensures TakenBelow(data, m, offset, i) == Taken(data, m, offset, length)
  {
    SameWords(0, offset % GRANULARITY + length, i);
  }

  /** The nodes a read of call data yields: what it touches, else the call's own source. */
  function Received(data: Words, source: FlowNode, start: nat, length: nat): set<FlowNode> {
    if length == 0 then {}
    else if Touched(data, start, length) != {} || source == Untainted then Touched(data, start, length)
    else {source}
  }

  class Memory {
    var mem: Words

    constructor ()
      ensures mem == map[]
    {
      mem := map[];
    }

    /** The tainted nodes in the words of a range, in order. */
    method Load(start: nat, length: nat) returns (values: seq<FlowNode>)
      ensures Upstream(values) == Touched(mem, start, length)
      ensures Untainted !in values
    {
      values := [];
      if length == 0 {
        return;
      }
      var i := Regulate(start);
      while i < start + length
        invariant i % GRANULARITY == 0 && Regulate(start) <= i
        invariant Untainted !in values
        invariant forall w :: w in mem && Regulate(start) <= w < i && w % GRANULARITY == 0 && mem[w] != Untainted ==> mem[w] in values
        invariant forall v :: v in values ==> v in Touched(mem, start, length)
        decreases start + length - i
      {
        var v := At(mem, i);
        if v != Untainted {
          values := values + [v];
        }
        i := i + GRANULARITY;
      }
    }

    method Store(start: nat, length: nat, value: FlowNode)
      modifies this
      ensures mem == Stored(old(mem), start, length, value)
    {
      if length == 0 {
        return;
      }
      var i := Regulate(start);
      while i < start + length
        invariant i % GRANULARITY == 0 && Regulate(start) <= i < start + length + GRANULARITY
        invariant mem == StoredBelow(old(mem), start, length, value, i)
        decreases start + length - i
      {
        StoredBelowNext(old(mem), start, length, value, i);
        var before := At(mem, i);
        if (i < start || i + GRANULARITY > start + length) && before != Untainted {
          if value == Untainted {
            mem := mem[i := before];
          } else {
            mem := mem[i := Merge(value, before)];
          }
        } else {
          mem := mem[i := value];
        }
        i := i + GRANULARITY;
      }
      StoredBelowEnd(old(mem), start, length, value, i);
    }

    method Clear(start: nat, length: nat)
      modifies this
      ensures mem == Stored(old(mem), start, length, Untainted)
    {
      Store(start, length, Untainted);
    }

    method StoreCallData(call: Call, destOffset: nat, offset: nat, length: nat)
      modifies this
      ensures mem == CopiedIn(old(mem), call.data, destOffset, offset, length)
    {
      CopyIn(call.data, destOffset, offset, length);
    }

    method StoreCallReturnData(call: Call, destOffset: nat, offset: nat, length: nat)
      modifies this
      ensures mem == CopiedIn(old(mem), call.returnData, destOffset, offset, length)
    {
      CopyIn(call.returnData, destOffset, offset, length);
    }

    method CopyWord(index: nat, data: FlowNode, destOffset: nat, length: nat)
      modifies this
      ensures mem == old(mem)[index := Blend(At(old(mem), index), data, Inside(index, destOffset, length))]
    {
      var before := At(mem, index);
      if (index < destOffset || index + GRANULARITY > destOffset + length) && before != Untainted {
        if data == Untainted {
          mem := mem[index := before];
        } else {
          mem := mem[index := Merge(data, before)];
        }
      } else {
        mem := mem[index := data];
      }
    }

    /** The loop both copies share; it advances one destination word per source word. */
    method CopyIn(src: Words, destOffset: nat, offset: nat, length: nat)
      modifies this
      ensures mem == CopiedIn(old(mem), src, destOffset, offset, length)
    {
      var index := Regulate(destOffset);
      var i := Regulate(offset);
      while i < offset + length
        invariant index % GRANULARITY == 0
        invariant Regulate(destOffset) <= index && i == SourceWord(index, destOffset, offset)
        invariant index < CopyEnd(destOffset, offset, length) + GRANULARITY
        invariant mem == CopiedBelow(old(mem), src, destOffset, offset, length, index)
        decreases offset + length - i
      {
        CopyTurn(old(mem), src, destOffset, offset, length, index, mem);
        CopyAdvances(destOffset, offset, length, index);
        CopyWord(index, At(src, i), destOffset, length);
        index := index + GRANULARITY;
        i := i + GRANULARITY;
      }
      CopyEnds(destOffset, offset, length, index);
      CopiedBelowEnd(old(mem), src, destOffset, offset, length, index);
    }
  }

  /** The shadow data of one message call. */
  class Call {
    var data: Words
    var returnData: Words
    var source: FlowNode

    constructor ()
      ensures data == map[] && returnData == map[] && source == Untainted
    {
      data, returnData, source := map[], map[], Untainted;
    }

    method StoreData(memory: Memory, offset: nat, length: nat)
      modifies this`data
      ensures data == Taken(old(data), memory.mem, offset, length)
    {
      data := Take(data, memory, offset, length);
    }

    method StoreReturnData(memory: Memory, offset: nat, length: nat)
      modifies this`returnData
      ensures returnData == Taken(old(returnData), memory.mem, offset, length)
    {
      returnData := Take(returnData, memory, offset, length);
    }

    static method Take(held: Words, memory: Memory, offset: nat, length: nat) returns (taken: Words)
      ensures taken == Taken(held, memory.mem, offset, length)
    {
      taken := held;
      if length == 0 {
        return;
      }
      var start := Regulate(offset);
      var i := 0;
      TakenBelowStart(held, memory.mem, offset);
      while start + i < offset + length
        invariant i % GRANULARITY == 0 && i < offset % GRANULARITY + length + GRANULARITY
        invariant taken == TakenBelow(held, memory.mem, offset, i)
        decreases offset + length - i
      {
        TakenBelowNext(held, memory.mem, offset, i);
        taken := taken[i := At(memory.mem, start + i)];
        i := i + GRANULARITY;
      }
      TakenBelowEnd(held, memory.mem, offset, length, i);
    }

    method GetData(start: nat, length: nat) returns (values: seq<FlowNode>)
      ensures Upstream(values) == Received(data, source, start, length)
    {
      values := Receive(data, source, start, length);
    }

    method GetReturnData(start: nat, length: nat) returns (values: seq<FlowNode>)
      ensures Upstream(values) == Received(returnData, source, start, length)
    {
      values := Receive(returnData, source, start, length);
    }

    static method Receive(words: Words, source: FlowNode, start: nat, length: nat) returns (values: seq<FlowNode>)
      ensures Upstream(values) == Received(words, source, start, length)
    {
      var m := new Memory();
      m.mem := words;
      values := m.Load(start, length);
      if |values| == 0 && length > 0 && source != Untainted {
        values := values + [source];
      } else {
        assert values != [] ==> values[0] in Upstream(values);
      }
    }
  }

  // ---- Byte-level meaning ----

  /** Every tainted byte lies in a tainted word. */
  ghost predicate Covers(m: Words, bytes: set<nat>) {
    forall b :: b in bytes ==> At(m, Regulate(b)) != Untainted
  }

  /** A byte is tainted exactly when its word is. */
  ghost predicate Exact(m: Words, bytes: set<nat>) {
    forall b: nat :: b in bytes <==> At(m, Regulate(b)) != Untainted
  }

  predicate Within(b: nat, start: nat, length: nat) {
    start <= b < start + length
  }

  function Bytes(start: nat, length: nat): set<nat> {
    set b: nat {:trigger Within(b, start, length)} | start <= b < start + length && Within(b, start, length)
  }

  function BytesStored(bytes: set<nat>, start: nat, length: nat, tainted: bool): set<nat> {
    if tainted then bytes + Bytes(start, length) else bytes - Bytes(start, length)
  }

  /** Tainted bytes after the first `min(length, available)` bytes of the source overwrite the destination. */
  function BytesCopied(bytes: set<nat>, src: set<nat>, dest: nat, offset: nat, length: nat, available: nat): set<nat> {
    var n := if available < length then available else length;
    (bytes - Bytes(dest, n)) + (set b | b in src && Within(b, offset, n) :: b - offset + dest)
  }

  /** A byte whose word is untainted after a store was overwritten with nothing, or was untainted before. */
  lemma StoredUntainted(m: Words, start: nat, length: nat, value: FlowNode, i: nat)
    requires length > 0 && At(Stored(m, start, length, value), Regulate(i)) == Untainted
    ensures if start <= i < start + length then value == Untainted else At(m, Regulate(i)) == Untainted
  {
    var w := Regulate(i);
    assert w <= i < w + GRANULARITY;
    if start <= i < start + length {
      assert w in WordsBetween(Regulate(start), start + length);
    } else if w in WordsBetween(Regulate(start), start + length) {
      assert !Inside(w, start, length);
    }
  }

  lemma StoreCovers(m: Words, bytes: set<nat>, start: nat, length: nat, value: FlowNode)
    requires Covers(m, bytes)
    ensures Covers(Stored(m, start, length, value), BytesStored(bytes, start, length, value != Untainted))
  {
    forall b | b in BytesStored(bytes, start, length, value != Untainted)
      ensures At(Stored(m, start, length, value), Regulate(b)) != Untainted
    {
      if length > 0 && At(Stored(m, start, length, value), Regulate(b)) == Untainted {
        StoredUntainted(m, start, length, value, b);
      }
    }
  }

  lemma StoreExact(m: Words, bytes: set<nat>, start: nat, length: nat, value: FlowNode)
    requires Exact(m, bytes)
    requires start % GRANULARITY == 0 && length % GRANULARITY == 0
    ensures Exact(Stored(m, start, length, value), BytesStored(bytes, start, length, value != Untainted))
  {
    var after, bytesAfter := Stored(m, start, length, value), BytesStored(bytes, start, length, value != Untainted);
    forall b: nat ensures b in bytesAfter <==> At(after, Regulate(b)) != Untainted {
      var held := b in bytes;
      assert held <==> At(m, Regulate(b)) != Untainted;
      StoreExactAt(m, start, length, value, b, held);
    }
  }

  lemma StoreExactAt(m: Words, start: nat, length: nat, value: FlowNode, b: nat, held: bool)
    requires start % GRANULARITY == 0 && length % GRANULARITY == 0
    requires held <==> At(m, Regulate(b)) != Untainted
    ensures (if b in Bytes(start, length) then value != Untainted else held)
       <==> At(Stored(m, start, length, value), Regulate(b)) != Untainted
  {
    AlignedWithin(start, length, b);
  }

  lemma AlignedWithin(start: nat, length: nat, b: nat)
    requires start % GRANULARITY == 0 && length % GRANULARITY == 0
    ensures Within(b, start, length) <==> start <= Regulate(b) < start + length
    ensures Within(b, start, length) <==> b in Bytes(start, length)
  {
  }

  /** The node is the other one, or was merged from it. */
  predicate Carries(n: FlowNode, other: FlowNode) {
    n == other || (n.Node? && n.tag == MemoryMerge && other in n.from)
  }

  /**
   A word a store touches carries the stored node, and carries what it held before as well unless
   every byte of it is overwritten; the words it does not touch are as before.
   */
  lemma StoreCarriesBoth(m: Words, start: nat, length: nat, value: FlowNode, w: nat)
    requires w % GRANULARITY == 0
    ensures var before, after := At(m, w), At(Stored(m, start, length, value), w);
            if length == 0 || !Overlaps(w, start, length) then after == before
            else
              && (value != Untainted ==> Carries(after, value))
              && (before != Untainted && !Inside(w, start, length) ==> Carries(after, before))
              && (Inside(w, start, length) ==> after == value)
  {
    if w in WordsBetween(Regulate(start), start + length) {
      assert w > start - GRANULARITY;
    }
  }

  /** A read that touches a tainted byte is tainted. */
  lemma LoadSeesTaint(m: Words, bytes: set<nat>, start: nat, length: nat, b: nat)
    requires Covers(m, bytes) && b in bytes && start <= b < start + length
    ensures Touched(m, start, length) != {}
  {
    var w := Regulate(b);
    assert w in m && Overlaps(w, start, length) && m[w] in Touched(m, start, length);
  }

  lemma LoadExact(m: Words, bytes: set<nat>, start: nat, length: nat)
    requires Exact(m, bytes)
    requires start % GRANULARITY == 0 && length % GRANULARITY == 0
    ensures Touched(m, start, length) != {} <==> exists b :: b in bytes && start <= b < start + length
  {
    if v :| v in Touched(m, start, length) {
      var w :| w in m && Overlaps(w, start, length) && m[w] == v && v != Untainted;
      AlignedOverlap(w, start, length);
      assert w in bytes;
    }
    if b :| b in bytes && start <= b < start + length {
      assert Covers(m, {b});
      LoadSeesTaint(m, {b}, start, length, b);
    }
  }

  lemma AlignedOverlap(w: nat, start: nat, length: nat)
    requires start % GRANULARITY == 0 && Overlaps(w, start, length)
    ensures Regulate(w) == w && start <= w < start + length
  {
  }

  /** When the copy loop pairs every copied byte with the word that holds it and clears no byte it does not overwrite. */
  predicate CopyOk(dest: nat, offset: nat, length: nat, available: nat) {
    var n := if available < length then available else length;
    var d, o := dest % GRANULARITY, offset % GRANULARITY;
    && (o == d || (o + n <= GRANULARITY && d + n <= GRANULARITY))
    && (forall w {:trigger Inside(w, dest, length)} ::
          Regulate(dest) <= w < CopyEnd(dest, offset, length) && w % GRANULARITY == 0 && Inside(w, dest, length)
          ==> w + GRANULARITY <= dest + available)
  }

  ghost predicate CopySound(dest: nat, offset: nat, length: nat, available: nat) {
    forall m, bytes, src, srcBytes :: Covers(m, bytes) && Covers(src, srcBytes) ==>
      Covers(CopiedIn(m, src, dest, offset, length), BytesCopied(bytes, srcBytes, dest, offset, length, available))
  }

  lemma CopyCovers(m: Words, bytes: set<nat>, src: Words, srcBytes: set<nat>,
                   dest: nat, offset: nat, length: nat, available: nat)
    requires Covers(m, bytes) && Covers(src, srcBytes)
    requires CopyOk(dest, offset, length, available)
    ensures Covers(CopiedIn(m, src, dest, offset, length), BytesCopied(bytes, srcBytes, dest, offset, length, available))
  {
    var n := if available < length then available else length;
    forall b | b in BytesCopied(bytes, srcBytes, dest, offset, length, available)
      ensures At(CopiedIn(m, src, dest, offset, length), Regulate(b)) != Untainted
    {
      if b in bytes && !Within(b, dest, n) {
        KeptByteCovered(m, src, dest, offset, length, available, b);
      } else {
        var c :| c in srcBytes && Within(c, offset, n) && b == c - offset + dest;
        CopiedByteCovered(m, src, dest, offset, length, available, c - offset);
      }
    }
  }

  /** A tainted byte the copy does not overwrite keeps its taint. */
  lemma KeptByteCovered(m: Words, src: Words, dest: nat, offset: nat, length: nat, available: nat, b: nat)
    requires CopyOk(dest, offset, length, available)
    requires At(m, Regulate(b)) != Untainted
    requires !Within(b, dest, if available < length then available else length)
    ensures At(CopiedIn(m, src, dest, offset, length), Regulate(b)) != Untainted
  {
    var w := Regulate(b);
    assert w <= b < w + GRANULARITY;
    if w in WordsBetween(Regulate(dest), CopyEnd(dest, offset, length)) {
      assert !Inside(w, dest, length);
    }
  }

  lemma RegulateSplit(index: nat, k: nat)
    ensures Regulate(index + k) == Regulate(index) + Regulate(index % GRANULARITY + k)
    ensures Regulate(index) % GRANULARITY == 0
  {
  }

  /** The word of a copied byte is written from the word that byte comes from. */
  lemma CopiedPairing(dest: nat, offset: nat, length: nat, available: nat, k: nat)
    requires CopyOk(dest, offset, length, available) && k < length && k < available
    ensures var w := Regulate(dest + k);
            && w % GRANULARITY == 0 && Regulate(dest) <= w < CopyEnd(dest, offset, length)
            && SourceWord(w, dest, offset) == Regulate(offset + k)
  {
    RegulateSplit(dest, k);
    RegulateSplit(offset, k);
    RegulateSplit(dest + k, 0);
  }

  /** A tainted byte of the source taints the byte it is copied to. */
  lemma CopiedByteCovered(m: Words, src: Words, dest: nat, offset: nat, length: nat, available: nat, k: nat)
    requires CopyOk(dest, offset, length, available)
    requires k < length && k < available
    requires At(src, Regulate(offset + k)) != Untainted
    ensures At(CopiedIn(m, src, dest, offset, length), Regulate(dest + k)) != Untainted
  {
    var w := Regulate(dest + k);
    CopiedPairing(dest, offset, length, available, k);
    assert w in WordsBetween(Regulate(dest), CopyEnd(dest, offset, length));
  }

  const SomeNode: FlowNode := Node(AttackTaint, 0, {})

  /** Clearing a whole word the copy does not fully overwrite drops the taint of its last byte. */
  lemma ShortCopyLosesTaint(dest: nat, offset: nat, length: nat, available: nat, w: nat)
    requires Regulate(dest) <= w < CopyEnd(dest, offset, length) && w % GRANULARITY == 0
    requires Inside(w, dest, length) && w + GRANULARITY > dest + available
    ensures !CopySound(dest, offset, length, available)
  {
    var b := w + GRANULARITY - 1;
    assert Regulate(b) == w;
    var m, bytes := map[w := SomeNode], {b};
    assert Covers(m, bytes) && Covers(map[], {});
    assert b in BytesCopied(bytes, {}, dest, offset, length, available);
    assert At(CopiedIn(m, map[], dest, offset, length), w) == Untainted;
  }

  /** With areas out of step the first byte past a word boundary is paired with the wrong word. */
  lemma MisalignedCopyLosesTaint(dest: nat, offset: nat, length: nat, available: nat, k: nat)
    requires dest % GRANULARITY != offset % GRANULARITY
    requires k < length && k < available
    requires k == GRANULARITY - (if offset % GRANULARITY < dest % GRANULARITY then dest else offset) % GRANULARITY
    ensures !CopySound(dest, offset, length, available)
  {
    var n := if available < length then available else length;
    var src, srcBytes := map[Regulate(offset + k) := SomeNode], {offset + k};
    assert Covers(map[], {}) && Covers(src, srcBytes);
    assert Within(offset + k, offset, n);
    assert dest + k in BytesCopied({}, srcBytes, dest, offset, length, available);
    MisalignedPairing(dest, offset, k);
    assert At(CopiedIn(map[], src, dest, offset, length), Regulate(dest + k)) == Untainted;
  }

  lemma RegulatePlus(index: nat, k: nat)
    requires k < GRANULARITY
    ensures Regulate(index + k) == if index % GRANULARITY + k < GRANULARITY then Regulate(index) else Regulate(index) + GRANULARITY
  {
  }

  lemma MisalignedPairing(dest: nat, offset: nat, k: nat)
    requires dest % GRANULARITY != offset % GRANULARITY
    requires k == GRANULARITY - (if offset % GRANULARITY < dest % GRANULARITY then dest else offset) % GRANULARITY
    ensures Regulate(dest + k) >= Regulate(dest)
    ensures SourceWord(Regulate(dest + k), dest, offset) != Regulate(offset + k)
  {
    RegulatePlus(dest, k);
    RegulatePlus(offset, k);
  }

  /** The word copy loses no byte taint, whatever the memory and the data, if and only if CopyOk holds. */
  lemma CopySoundExactly(dest: nat, offset: nat, length: nat, available: nat)
    ensures CopySound(dest, offset, length, available) <==> CopyOk(dest, offset, length, available)
  {
    if CopyOk(dest, offset, length, available) {
      forall m, bytes, src, srcBytes | Covers(m, bytes) && Covers(src, srcBytes)
        ensures Covers(CopiedIn(m, src, dest, offset, length), BytesCopied(bytes, srcBytes, dest, offset, length, available))
      {
        CopyCovers(m, bytes, src, srcBytes, dest, offset, length, available);
      }
    } else {
      if w :| Regulate(dest) <= w < CopyEnd(dest, offset, length) && w % GRANULARITY == 0
              && Inside(w, dest, length) && w + GRANULARITY > dest + available {
        ShortCopyLosesTaint(dest, offset, length, available, w);
      } else {
        var d, o := dest % GRANULARITY, offset % GRANULARITY;
        MisalignedCopyLosesTaint(dest, offset, length, available, if o < d then GRANULARITY - d else GRANULARITY - o);
      }
    }
  }

  /** Byte k of the callee's data is byte offset + k of the caller's memory. */
  function BytesTaken(bytes: set<nat>, offset: nat, length: nat): set<nat> {
    set b | b in bytes && Within(b, offset, length) :: b - offset
  }

  ghost predicate TakeSound(offset: nat, length: nat) {
    forall m, bytes :: Covers(m, bytes) ==> Covers(Taken(map[], m, offset, length), BytesTaken(bytes, offset, length))
  }

  predicate TakeOk(offset: nat, length: nat) {
    offset % GRANULARITY == 0 || offset % GRANULARITY + length <= GRANULARITY
  }

  lemma TakenByteCovered(m: Words, offset: nat, length: nat, k: nat)
    requires TakeOk(offset, length) && k < length
    requires At(m, Regulate(offset + k)) != Untainted
    ensures At(Taken(map[], m, offset, length), Regulate(k)) != Untainted
  {
    assert Regulate(offset + k) == Regulate(offset) + Regulate(k);
    assert Regulate(k) in WordsBetween(0, offset % GRANULARITY + length);
  }

  lemma MisalignedTakeLosesTaint(offset: nat, length: nat)
    requires !TakeOk(offset, length)
    ensures !TakeSound(offset, length)
  {
    var k := GRANULARITY - offset % GRANULARITY;
    assert Regulate(k) == 0 && Regulate(offset + k) == Regulate(offset) + GRANULARITY;
    var m, bytes := map[Regulate(offset + k) := SomeNode], {offset + k};
    assert Covers(m, bytes);
    assert Within(offset + k, offset, length);
    assert k in BytesTaken(bytes, offset, length);
    assert At(Taken(map[], m, offset, length), Regulate(k)) == Untainted;
  }

  /** Recording an argument area as call data loses no byte taint if and only if it is aligned or fits one word. */
  lemma TakeSoundExactly(offset: nat, length: nat)
    ensures TakeSound(offset, length) <==> TakeOk(offset, length)
  {
    if TakeOk(offset, length) {
      forall m, bytes | Covers(m, bytes)
        ensures Covers(Taken(map[], m, offset, length), BytesTaken(bytes, offset, length))
      {
        forall k | k in BytesTaken(bytes, offset, length)
          ensures At(Taken(map[], m, offset, length), Regulate(k)) != Untainted
        {
          var b :| b in bytes && Within(b, offset, length) && k == b - offset;
          TakenByteCovered(m, offset, length, k);
        }
      }
    } else {
      MisalignedTakeLosesTaint(offset, length);
    }
  }

  // ---- From the caller's memory to the callee ----

  lemma TakenCovers(m: Words, bytes: set<nat>, offset: nat, length: nat)
    requires Covers(m, bytes) && TakeOk(offset, length)
    ensures Covers(Taken(map[], m, offset, length), BytesTaken(bytes, offset, length))
  {
    TakeSoundExactly(offset, length);
  }

  /** A CALLDATALOAD that touches a byte the caller had tainted is tainted, wherever the argument area lies. */
  lemma ArgumentReachesLoad(m: Words, bytes: set<nat>, offset: nat, length: nat, b: nat, source: FlowNode, start: nat, size: nat)
    requires Covers(m, bytes) && TakeOk(offset, length) && b in bytes && Within(b, offset, length)
    requires start <= b - offset < start + size
    ensures Received(Taken(map[], m, offset, length), source, start, size) != {}
  {
    TakenCovers(m, bytes, offset, length);
    LoadSeesTaint(Taken(map[], m, offset, length), BytesTaken(bytes, offset, length), start, size, b - offset);
  }

  /** After a CALLDATACOPY the callee's shadow memory covers every byte that was tainted in the caller's memory. */
  lemma ArgumentReachesMemory(m: Words, bytes: set<nat>, offset: nat, length: nat,
                              callee: Words, calleeBytes: set<nat>, dest: nat, dataOffset: nat, size: nat)
    requires Covers(m, bytes) && TakeOk(offset, length)
    requires Covers(callee, calleeBytes) && CopyOk(dest, dataOffset, size, size)
    ensures Covers(CopiedIn(callee, Taken(map[], m, offset, length), dest, dataOffset, size),
                   BytesCopied(calleeBytes, BytesTaken(bytes, offset, length), dest, dataOffset, size, size))
  {
    TakenCovers(m, bytes, offset, length);
    CopyCovers(callee, calleeBytes, Taken(map[], m, offset, length), BytesTaken(bytes, offset, length), dest, dataOffset, size, size);
  }

  // ---- Whole histories ----

  datatype MemoryOp =
    | StoreNode(start: nat, size: nat, value: FlowNode)
    | CopyData(src: Words, srcBytes: set<nat>, dest: nat, offset: nat, size: nat, available: nat)

  /** A copy in the history brings data whose words cover its bytes, with areas the copy loop handles. */
  ghost predicate OpOk(op: MemoryOp) {
    op.CopyData? ==> Covers(op.src, op.srcBytes) && CopyOk(op.dest, op.offset, op.size, op.available)
  }

  function WordsAfter(ops: seq<MemoryOp>): Words {
    if ops == [] then map[]
    else
      var m, op := WordsAfter(ops[..|ops| - 1]), ops[|ops| - 1];
      match op
      case StoreNode(start, size, value) => Stored(m, start, size, value)
      case CopyData(src, _, dest, offset, size, _) => CopiedIn(m, src, dest, offset, size)
  }

  function BytesAfter(ops: seq<MemoryOp>): set<nat> {
    if ops == [] then {}
    else
      var bytes, op := BytesAfter(ops[..|ops| - 1]), ops[|ops| - 1];
      match op
      case StoreNode(start, size, value) => BytesStored(bytes, start, size, value != Untainted)
      case CopyData(_, src, dest, offset, size, available) => BytesCopied(bytes, src, dest, offset, size, available)
  }

  /** After any history of stores, clears and copies, a read that touches a tainted byte sees taint. */
  lemma {:induction false} HistoryCovers(ops: seq<MemoryOp>)
    requires forall op :: op in ops ==> OpOk(op)
    ensures Covers(WordsAfter(ops), BytesAfter(ops))
  {
    if ops != [] {
      var before, op := ops[..|ops| - 1], ops[|ops| - 1];
      HistoryCovers(before);
      match op
      case StoreNode(start, size, value) =>
        StoreCovers(WordsAfter(before), BytesAfter(before), start, size, value);
      case CopyData(src, srcBytes, dest, offset, size, available) =>
        assert OpOk(op);
        CopyCovers(WordsAfter(before), BytesAfter(before), src, srcBytes, dest, offset, size, available);
    }
  }
}
