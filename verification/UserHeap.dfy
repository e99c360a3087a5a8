/**
 The user-space allocator: a doubly linked list of chunks, threaded through the
 headers that stand in front of them, over pages obtained from sbrk.

 Memory is a map from header addresses to headers; address 0 is NULL. Sizes and
 addresses stay below 2^32 because the heap lies in user space.
 */
module UserHeap {

  const HEADER: nat := 16
  const PAGE: nat := 4096

  datatype Header = Header(prev: nat, next: nat, size: nat, free: bool)

  /** The headers, the global `head` (its next and prev), and the address the next sbrk returns. */
  datatype Heap = Heap(mem: map<nat, Header>, first: nat, last: nat, brk: nat) {
    function At(a: nat): Header { if a in mem then mem[a] else Header(0, 0, 0, false) }
    function Put(a: nat, x: Header): Heap { Heap(mem[a := x], first, last, brk) }
    function Relink(a: nat, prev: nat): Heap { Put(a, At(a).(prev := prev)) }
  }

  // ---- ufree and umorecore ----

  /** The header at `a` swallows its successor if that is free. */
  function MergeNext(h: Heap, a: nat): Heap {
    var x := h.At(a);
    if x.next != 0 && h.At(x.next).free then
      var y := h.At(x.next);
      var g := h.Put(a, x.(size := x.size + HEADER + y.size, next := y.next));
      if y.next != 0 then g.Relink(y.next, a) else g.(last := a)
    else h
  }

  /** The predecessor of the header at `a`, if free, swallows it. */
  function MergePrev(h: Heap, a: nat): Heap {
    var x := h.At(a);
    if x.prev != 0 && h.At(x.prev).free then
      var y := h.At(x.prev);
      var g := h.Put(x.prev, y.(size := y.size + HEADER + x.size, next := x.next));
      if x.next != 0 then g.Relink(x.next, x.prev) else g.(last := x.prev)
    else h
  }

  /** ufree, given the address of the chunk's header. */
  function Freed(h: Heap, a: nat): Heap { MergePrev(MergeNext(h.Put(a, h.At(a).(free := true)), a), a) }

  /** The new page as the last chunk of the list. */
  function Appended(h: Heap): Heap {
    var p := h.brk;
    var g := Heap(h.mem[p := Header(if h.first != 0 then h.last else 0, 0, PAGE - HEADER, true)], h.first, h.last, p + PAGE);
    if h.first != 0 then g.Put(h.last, g.At(h.last).(next := p)).(last := p) else g.(first := p, last := p)
  }

  /** umorecore. */
  function Grown(h: Heap): Heap { Freed(Appended(h), h.brk) }

  // ---- umalloc ----

  /** The request rounded up to words, and what a chunk must have for a split, in 32-bit arithmetic. */
  function Aligned(bytes: nat): nat
    requires 0 < bytes
  {
    (((bytes - 1) / 4 + 1) * 4) % 0x1_0000_0000
  }

  function Required(bytes: nat): nat
    requires 0 < bytes
  {
    (Aligned(bytes) + HEADER + 4) % 0x1_0000_0000
  }

  predicate Fits(x: Header, bytes: nat)
    requires 0 < bytes
  {
    x.free && (x.size == Aligned(bytes) || x.size >= Required(bytes))
  }

  /** The chunk at `a`, which fits, is handed out whole, or its front is and the rest becomes a new chunk. */
  function Taken(h: Heap, a: nat, n: nat): Heap {
    var x := h.At(a);
    if x.size == n then h.Put(a, x.(free := false))
    else
      var b := a + HEADER + n;
      var g := h.Put(b, Header(a, x.next, if x.size >= n + HEADER then x.size - n - HEADER else 0, true));
      g.Put(a, Header(x.prev, b, n, false))
  }

  // ---- the list ----

  /** `chain` lists the headers reachable from head.next. */
  ghost predicate Chained(h: Heap, chain: seq<nat>) {
    && h.first == (if chain == [] then 0 else chain[0])
    && forall i :: 0 <= i < |chain| ==> Step(h, chain, i)
  }

  ghost predicate Step(h: Heap, chain: seq<nat>, i: nat) {
    && i < |chain| && chain[i] in h.mem && chain[i] != 0
    && h.mem[chain[i]].next == if i + 1 < |chain| then chain[i + 1] else 0
  }

  /** Chunk `i` links back to its predecessor and ends where its successor, or the unclaimed memory, begins. */
  ghost predicate Node(h: Heap, chain: seq<nat>, i: nat) {
    && Step(h, chain, i)
    && h.mem[chain[i]].prev == (if i > 0 then chain[i - 1] else 0)
    && chain[i] + HEADER + h.mem[chain[i]].size == if i + 1 < |chain| then chain[i + 1] else h.brk
  }

  /** Mutual links, head.prev as the last chunk, and chunks tiling the heap from `base` to the break. */
  ghost predicate Tiled(h: Heap, chain: seq<nat>, base: nat) {
    && 0 < base <= h.brk
    && h.first == (if chain == [] then 0 else chain[0]) && h.last == (if chain == [] then 0 else chain[|chain| - 1])
    && (if chain == [] then h.brk == base else chain[0] == base)
    && forall i :: 0 <= i < |chain| ==> Node(h, chain, i)
  }

  ghost predicate Apart(h: Heap, chain: seq<nat>, i: nat) {
    i + 1 < |chain| && !(h.At(chain[i]).free && h.At(chain[i + 1]).free)
  }

  /** No two neighbours are free, except where `except` is one of them. */
  ghost predicate Coalesced(h: Heap, chain: seq<nat>, except: int) {
    forall i :: 0 <= i < |chain| - 1 && i != except && i + 1 != except ==> Apart(h, chain, i)
  }

  /** A list in order. */
  ghost predicate Sound(h: Heap, chain: seq<nat>, base: nat) {
    Tiled(h, chain, base) && Coalesced(h, chain, -1)
  }

  /** The chunks in use. */
  function Used(h: Heap, chain: seq<nat>): set<nat> {
    set i | 0 <= i < |chain| && !h.At(chain[i]).free :: chain[i]
  }

  /** Sizes and headers of all chunks. */
  function Total(h: Heap, chain: seq<nat>): nat {
    if chain == [] then 0 else HEADER + h.At(chain[0]).size + Total(h, chain[1..])
  }

  lemma {:induction false} Ascending(h: Heap, chain: seq<nat>, base: nat, i: nat, j: nat)
    requires Tiled(h, chain, base) && i < j < |chain|
    ensures chain[i] + HEADER + h.At(chain[i]).size <= chain[j]
    decreases j
  {
    assert Node(h, chain, j - 1);
    if i < j - 1 { Ascending(h, chain, base, i, j - 1); }
  }

  lemma AllAscending(h: Heap, chain: seq<nat>, base: nat)
    requires Tiled(h, chain, base)
    ensures forall i, j :: 0 <= i < j < |chain| ==> chain[i] < chain[j]
    ensures forall i :: 0 <= i < |chain| ==> chain[i] + HEADER <= h.brk
  {
    forall i, j | 0 <= i < j < |chain| ensures chain[i] < chain[j] { Ascending(h, chain, base, i, j); }
    forall i | 0 <= i < |chain| ensures chain[i] + HEADER <= h.brk {
      assert Node(h, chain, |chain| - 1);
      if i < |chain| - 1 { Ascending(h, chain, base, i, |chain| - 1); }
    }
  }

  /** The chunks and their headers are all of the heap. */
  lemma {:induction false} TotalIsSpan(h: Heap, chain: seq<nat>, k: nat)
    requires k <= |chain| && forall i :: 0 <= i < |chain| ==> Node(h, chain, i)
    ensures Total(h, chain[k..]) == if k < |chain| then h.brk - chain[k] else 0
    ensures k < |chain| ==> chain[k] <= h.brk
    decreases |chain| - k
  {
    if k < |chain| {
      assert Node(h, chain, k);
      assert chain[k..][1..] == chain[k + 1..];
      TotalIsSpan(h, chain, k + 1);
    }
  }

  function Without(chain: seq<nat>, i: nat): seq<nat>
    requires i < |chain|
  {
    chain[..i] + chain[i + 1..]
  }

  /** What joining chunk `i + 1` to chunk `i` does, whoever of the two was the one freed. */
  ghost predicate Joined(h: Heap, g: Heap, chain: seq<nat>, i: nat) {
    && i + 1 < |chain| && g.first == h.first && g.brk == h.brk
    && g.last == (if i + 2 < |chain| then h.last else chain[i])
    && g.mem.Keys == h.mem.Keys
    && var x, y := h.At(chain[i]), h.At(chain[i + 1]);
    && g.At(chain[i]) == Header(x.prev, y.next, x.size + HEADER + y.size, x.free)
    && forall a :: a in h.mem && a != chain[i] ==>
         g.At(a) == if i + 2 < |chain| && a == chain[i + 2] then h.At(a).(prev := chain[i]) else h.At(a)
  }

  lemma JoinTiles(h: Heap, g: Heap, chain: seq<nat>, base: nat, i: nat)
    requires Tiled(h, chain, base) && Joined(h, g, chain, i)
    ensures Tiled(g, Without(chain, i + 1), base)
  {
    AllAscending(h, chain, base);
    var c := Without(chain, i + 1);
    assert Node(h, chain, i) && Node(h, chain, i + 1);
    forall k | 0 <= k < |c| ensures Node(g, c, k) {
      assert Node(h, chain, if k <= i then k else k + 1);
    }
  }

  lemma MergeNextJoins(h: Heap, chain: seq<nat>, base: nat, i: nat)
    requires Tiled(h, chain, base) && i < |chain|
    ensures i + 1 < |chain| && h.At(chain[i + 1]).free ==> Joined(h, MergeNext(h, chain[i]), chain, i)
    ensures !(i + 1 < |chain| && h.At(chain[i + 1]).free) ==> MergeNext(h, chain[i]) == h
  {
    AllAscending(h, chain, base);
    assert Node(h, chain, i);
    if i + 1 < |chain| {
      assert Node(h, chain, i + 1);
      if i + 2 < |chain| { assert Node(h, chain, i + 2); }
    }
  }

  lemma MergePrevJoins(h: Heap, chain: seq<nat>, base: nat, i: nat)
    requires Tiled(h, chain, base) && i < |chain|
    ensures i > 0 && h.At(chain[i - 1]).free ==> Joined(h, MergePrev(h, chain[i]), chain, i - 1)
    ensures !(i > 0 && h.At(chain[i - 1]).free) ==> MergePrev(h, chain[i]) == h
  {
    AllAscending(h, chain, base);
    assert Node(h, chain, i);
    if i > 0 { assert Node(h, chain, i - 1); }
    if i + 1 < |chain| { assert Node(h, chain, i + 1); }
  }

  /** Joining two free chunks keeps every chunk in use, and its size. */
  lemma JoinKeepsUsed(h: Heap, g: Heap, chain: seq<nat>, base: nat, i: nat)
    requires Tiled(h, chain, base) && Joined(h, g, chain, i) && h.At(chain[i]).free && h.At(chain[i + 1]).free
    ensures Used(g, Without(chain, i + 1)) == Used(h, chain)
    ensures forall a :: a in Used(h, chain) ==> g.At(a).size == h.At(a).size
  {
    AllAscending(h, chain, base);
    var c := Without(chain, i + 1);
    forall k | 0 <= k < |chain| ensures chain[k] in h.mem && (g.At(chain[k]).free <==> h.At(chain[k]).free) {
      assert Node(h, chain, k);
    }
    hide Tiled, Joined;
    WithoutFree(h, g, chain, i);
    forall a | a in Used(h, chain) ensures g.At(a).size == h.At(a).size {
      var k :| 0 <= k < |chain| && !h.At(chain[k]).free && chain[k] == a;
    }
  }

  lemma WithoutFree(h: Heap, g: Heap, chain: seq<nat>, i: nat)
    requires i + 1 < |chain| && h.At(chain[i + 1]).free
    requires forall k :: 0 <= k < |chain| ==> (g.At(chain[k]).free <==> h.At(chain[k]).free)
    ensures Used(g, Without(chain, i + 1)) == Used(h, chain)
  {
    var c := Without(chain, i + 1);
    forall a | a in Used(h, chain) ensures a in Used(g, c) {
      var k :| 0 <= k < |chain| && !h.At(chain[k]).free && chain[k] == a;
      assert c[if k <= i then k else k - 1] == a;
    }
    forall a | a in Used(g, c) ensures a in Used(h, chain) {
      var k :| 0 <= k < |c| && !g.At(c[k]).free && c[k] == a;
      assert chain[if k <= i then k else k + 1] == a;
    }
  }

  lemma JoinCoalesced(h: Heap, g: Heap, chain: seq<nat>, base: nat, i: nat, except: nat)
    requires Tiled(h, chain, base) && Joined(h, g, chain, i) && Coalesced(h, chain, except)
    requires h.At(chain[i]).free && h.At(chain[i + 1]).free && (except == i || except == i + 1)
    ensures Coalesced(g, Without(chain, i + 1), i)
  {
    AllAscending(h, chain, base);
    var c := Without(chain, i + 1);
    forall k | 0 <= k < |chain| ensures chain[k] in h.mem { assert Node(h, chain, k); }
    forall k | 0 <= k < |c| - 1 && k != i && k + 1 != i ensures Apart(g, c, k) {
      assert Apart(h, chain, if k < i then k else k + 1);
    }
  }

  /** After joining a chunk to its free predecessor nobody is left free beside it. */
  lemma NoneLeft(h: Heap, chain: seq<nat>, except: nat)
    requires Coalesced(h, chain, except) && except < |chain|
    requires except > 0 ==> !h.At(chain[except - 1]).free
    requires except + 1 < |chain| ==> !h.At(chain[except + 1]).free
    ensures Coalesced(h, chain, -1)
  {
    forall k | 0 <= k < |chain| - 1 ensures Apart(h, chain, k) {
      if k != except && k + 1 != except { assert Apart(h, chain, k); }
    }
  }

  lemma MarkFree(h: Heap, chain: seq<nat>, base: nat, i: nat)
    requires Tiled(h, chain, base) && i < |chain| && Coalesced(h, chain, i)
    ensures var g := h.Put(chain[i], h.At(chain[i]).(free := true));
      && Tiled(g, chain, base) && Coalesced(g, chain, i) && Used(g, chain) == Used(h, chain) - {chain[i]}
      && forall a :: g.At(a).size == h.At(a).size
  {
    AllAscending(h, chain, base);
    var g := h.Put(chain[i], h.At(chain[i]).(free := true));
    forall k | 0 <= k < |chain| ensures Node(g, chain, k) { assert Node(h, chain, k); }
    forall k | 0 <= k < |chain| - 1 && k != i && k + 1 != i ensures Apart(g, chain, k) { assert Apart(h, chain, k); }
    assert Node(h, chain, i);
    forall a | a in Used(h, chain) - {chain[i]} ensures a in Used(g, chain) {
      var k :| 0 <= k < |chain| && !h.At(chain[k]).free && chain[k] == a;
      assert !g.At(chain[k]).free;
    }
  }

  /** ufree keeps the list in order, frees exactly the chunk it is given, and loses no byte. */
  lemma FreeSound(h: Heap, chain: seq<nat>, base: nat, i: nat) returns (c: seq<nat>)
    requires Tiled(h, chain, base) && i < |chain| && Coalesced(h, chain, i)
    ensures var g := Freed(h, chain[i]);
      && Sound(g, c, base) && g.brk == h.brk && Total(g, c) == Total(h, chain)
      && Used(g, c) == Used(h, chain) - {chain[i]}
      && forall a :: a in Used(g, c) ==> g.At(a).size == h.At(a).size
  {
    hide Tiled, Coalesced, Used, MergeNext, MergePrev, Total;
    MarkFree(h, chain, base, i);
    var h1 := h.Put(chain[i], h.At(chain[i]).(free := true));
    MergeNextJoins(h1, chain, base, i);
    var h2 := MergeNext(h1, chain[i]);
    var c2 := chain;
    if i + 1 < |chain| && h1.At(chain[i + 1]).free {
      c2 := Without(chain, i + 1);
      JoinTiles(h1, h2, chain, base, i);
      JoinKeepsUsed(h1, h2, chain, base, i);
      JoinCoalesced(h1, h2, chain, base, i, i);
      AfterJoin(h1, h2, chain, base, i);
    }
    MergePrevJoins(h2, c2, base, i);
    var h3 := MergePrev(h2, c2[i]);
    c := c2;
    if i > 0 && h2.At(c2[i - 1]).free {
      c := Without(c2, i);
      JoinTiles(h2, h3, c2, base, i - 1);
      JoinKeepsUsed(h2, h3, c2, base, i - 1);
      BeforeJoin(h2, h3, c2, base, i);
    } else {
      NoneLeft(h2, c2, i);
    }
    TotalOf(h, chain, base);
    TotalOf(h3, c, base);
  }

  /** Behind the joined chunk there is no second free one. */
  lemma AfterJoin(h: Heap, g: Heap, chain: seq<nat>, base: nat, i: nat)
    requires Tiled(h, chain, base) && Coalesced(h, chain, i) && Joined(h, g, chain, i)
    requires h.At(chain[i]).free && h.At(chain[i + 1]).free
    ensures var c := Without(chain, i + 1);
      && i < |c| && c[i] == chain[i] && g.At(c[i]).free && (i + 1 < |c| ==> !g.At(c[i + 1]).free)
  {
    AllAscending(h, chain, base);
    if i + 2 < |chain| {
      assert Apart(h, chain, i + 1);
      assert Node(h, chain, i + 2);
    }
  }

  lemma BeforeJoin(h: Heap, g: Heap, chain: seq<nat>, base: nat, i: nat)
    requires Tiled(h, chain, base) && 0 < i < |chain| && Coalesced(h, chain, i) && Joined(h, g, chain, i - 1)
    requires h.At(chain[i - 1]).free && h.At(chain[i]).free && (i + 1 < |chain| ==> !h.At(chain[i + 1]).free)
    ensures Coalesced(g, Without(chain, i), -1)
  {
    JoinCoalesced(h, g, chain, base, i - 1, i);
    AllAscending(h, chain, base);
    var c := Without(chain, i);
    if i > 1 {
      assert Apart(h, chain, i - 2);
      assert Node(h, chain, i - 2);
    }
    if i + 1 < |chain| { assert Node(h, chain, i + 1); }
    NoneLeft(g, c, i - 1);
  }

  lemma TotalOf(h: Heap, chain: seq<nat>, base: nat)
    requires Tiled(h, chain, base)
    ensures Total(h, chain) == h.brk - base
  {
    TotalIsSpan(h, chain, 0);
    assert chain[0..] == chain;
  }

  // ---- umorecore ----

  lemma AppendTiles(h: Heap, chain: seq<nat>, base: nat)
    requires Sound(h, chain, base)
    ensures var g, c := Appended(h), chain + [h.brk];
      && Tiled(g, c, base) && Coalesced(g, c, |chain|) && Used(g, c) == Used(h, chain) && g.brk == h.brk + PAGE
      && forall a :: a in Used(h, chain) ==> g.At(a).size == h.At(a).size
  {
    AllAscending(h, chain, base);
    var g, c := Appended(h), chain + [h.brk];
    forall k | 0 <= k < |c| ensures Node(g, c, k) {
      if k < |chain| { assert Node(h, chain, k); }
    }
    forall k | 0 <= k < |chain|
      ensures chain[k] in h.mem && g.At(chain[k]).free == h.At(chain[k]).free &&
        g.At(chain[k]).size == h.At(chain[k]).size {
      assert Node(h, chain, k);
    }
    forall k | 0 <= k < |c| - 1 && k + 1 != |chain| ensures Apart(g, c, k) { assert Apart(h, chain, k); }
    forall a | a in Used(h, chain) ensures a in Used(g, c) {
      var k :| 0 <= k < |chain| && !h.At(chain[k]).free && chain[k] == a;
      assert c[k] == a;
    }
  }

  /** umorecore keeps the list in order, adds exactly a page of free memory, and touches no chunk in use. */
  lemma GrowSound(h: Heap, chain: seq<nat>, base: nat) returns (c: seq<nat>)
    requires Sound(h, chain, base)
    ensures var g := Grown(h);
      && Sound(g, c, base) && g.brk == h.brk + PAGE && Total(g, c) == Total(h, chain) + PAGE
      && Used(g, c) == Used(h, chain)
      && forall a :: a in Used(g, c) ==> g.At(a).size == h.At(a).size
  {
    hide Tiled, Coalesced, Used, MergeNext, MergePrev, Total, Freed;
    AppendTiles(h, chain, base);
    AllAscending(h, chain, base);
    var all := chain + [h.brk];
    c := FreeSound(Appended(h), all, base, |chain|);
    assert h.brk !in Used(h, chain) by { UsedBelow(h, chain); }
    TotalOf(h, chain, base);
    TotalOf(Grown(h), c, base);
  }

  lemma UsedBelow(h: Heap, chain: seq<nat>)
    requires forall i :: 0 <= i < |chain| ==> chain[i] + HEADER <= h.brk
    ensures h.brk !in Used(h, chain)
  {
  }

  // ---- umalloc's split ----

  /** The list after chunk `i` has been split at `b`. */
  function SplitAt(chain: seq<nat>, i: nat, b: nat): seq<nat>
    requires i < |chain|
  {
    chain[..i + 1] + [b] + chain[i + 1..]
  }

  lemma {:induction false} SameChain(h: Heap, c: seq<nat>, d: seq<nat>, k: nat)
    requires Chained(h, c) && Chained(h, d) && k < |c|
    ensures k < |d| && d[k] == c[k]
  {
    assert Step(h, c, k);
    if k > 0 {
      SameChain(h, c, d, k - 1);
      assert Step(h, c, k - 1) && Step(h, d, k - 1);
    } else if |d| > 0 {
      assert Step(h, d, 0);
    }
  }

  /** There is only one list that follows the links. */
  lemma ChainUnique(h: Heap, c: seq<nat>, d: seq<nat>)
    requires Chained(h, c) && Chained(h, d)
    ensures c == d
  {
    forall k | 0 <= k < |c| ensures k < |d| && d[k] == c[k] { SameChain(h, c, d, k); }
    if |c| < |d| { SameChain(h, d, c, |c|); }
    if |d| < |c| { SameChain(h, c, d, |d|); }
  }

  lemma TiledChained(h: Heap, chain: seq<nat>, base: nat)
    requires Tiled(h, chain, base)
    ensures Chained(h, chain)
  {
    forall i | 0 <= i < |chain| ensures Step(h, chain, i) { assert Node(h, chain, i); }
  }

  lemma SplitChained(h: Heap, chain: seq<nat>, base: nat, i: nat, n: nat)
    requires Tiled(h, chain, base) && i < |chain| && h.At(chain[i]).size >= n + HEADER
    ensures Chained(Taken(h, chain[i], n), SplitAt(chain, i, chain[i] + HEADER + n))
  {
    AllAscending(h, chain, base);
    var b := chain[i] + HEADER + n;
    var g, c := Taken(h, chain[i], n), SplitAt(chain, i, b);
    assert Node(h, chain, i);
    forall k | 0 <= k < |chain| ensures chain[k] != b {
      if k > i { Ascending(h, chain, base, i, k); }
    }
    forall k | 0 <= k < |c| ensures Step(g, c, k) {
      if k != i + 1 { assert Node(h, chain, if k <= i then k else k - 1); }
    }
  }

  lemma SplitNotTiled(h: Heap, chain: seq<nat>, base: nat, i: nat, n: nat)
    requires Tiled(h, chain, base) && i < |chain| && h.At(chain[i]).size >= n + HEADER
    ensures !Tiled(Taken(h, chain[i], n), SplitAt(chain, i, chain[i] + HEADER + n), base)
  {
    AllAscending(h, chain, base);
    var b := chain[i] + HEADER + n;
    var g, c := Taken(h, chain[i], n), SplitAt(chain, i, b);
    assert Node(h, chain, i);
    if i + 1 < |chain| {
      assert Node(h, chain, i + 1) && c[i + 2] == chain[i + 1] && c[i + 1] == b;
      assert g.At(c[i + 2]).prev == chain[i];
      assert !Node(g, c, i + 2);
    } else {
      assert c[|c| - 1] == b && g.last == chain[i];
    }
  }

  /** umalloc's split does not relink: whatever list one takes, it is out of order afterwards. */
  lemma SplitBreaks(h: Heap, chain: seq<nat>, base: nat, i: nat, n: nat, d: seq<nat>)
    requires Tiled(h, chain, base) && i < |chain| && h.At(chain[i]).size >= n + HEADER
    ensures !Tiled(Taken(h, chain[i], n), d, base)
  {
    hide Tiled, Chained, Taken, SplitAt;
    var g, c := Taken(h, chain[i], n), SplitAt(chain, i, chain[i] + HEADER + n);
    SplitChained(h, chain, base, i, n);
    SplitNotTiled(h, chain, base, i, n);
    if Tiled(g, d, base) {
      TiledChained(g, d, base);
      ChainUnique(g, c, d);
    }
  }

  /** Handing out a whole chunk. */
  lemma WholeSound(h: Heap, chain: seq<nat>, base: nat, i: nat)
    requires Sound(h, chain, base) && i < |chain|
    ensures var g := h.Put(chain[i], h.At(chain[i]).(free := false));
      && Sound(g, chain, base) && Used(g, chain) == Used(h, chain) + {chain[i]}
      && forall a :: g.At(a).size == h.At(a).size
  {
    AllAscending(h, chain, base);
    var g := h.Put(chain[i], h.At(chain[i]).(free := false));
    forall k | 0 <= k < |chain| ensures Node(g, chain, k) { assert Node(h, chain, k); }
    forall k | 0 <= k < |chain| - 1 ensures Apart(g, chain, k) { assert Apart(h, chain, k); }
    assert Node(h, chain, i);
    forall a | a in Used(h, chain) + {chain[i]} ensures a in Used(g, chain) {
      if a != chain[i] {
        var k :| 0 <= k < |chain| && !h.At(chain[k]).free && chain[k] == a;
        assert !g.At(chain[k]).free;
      } else {
        assert !g.At(chain[i]).free;
      }
    }
  }

  /** Exactly when umalloc keeps the list in order: when it hands out a chunk of just the right size. */
  lemma TakeSoundIff(h: Heap, chain: seq<nat>, base: nat, i: nat, n: nat)
    requires Sound(h, chain, base) && i < |chain| && (h.At(chain[i]).size == n || h.At(chain[i]).size >= n + HEADER)
    ensures (exists d :: Sound(Taken(h, chain[i], n), d, base)) <==> h.At(chain[i]).size == n
  {
    if h.At(chain[i]).size == n {
      WholeSound(h, chain, base, i);
      assert Sound(Taken(h, chain[i], n), chain, base);
    } else {
      forall d ensures !Sound(Taken(h, chain[i], n), d, base) { SplitBreaks(h, chain, base, i, n, d); }
    }
  }

  lemma FirstPage(base: nat)
    requires 0 < base
    ensures Grown(Heap(map[], 0, 0, base)) ==
      Heap(map[base := Header(0, 0, PAGE - HEADER, true)], base, base, base + PAGE)
    ensures Sound(Grown(Heap(map[], 0, 0, base)), [base], base)
  {
    var h, x := Heap(map[], 0, 0, base), Header(0, 0, PAGE - HEADER, true);
    EmptySound(base);
    assert Appended(h) == Heap(map[base := x], base, base, base + PAGE);
    assert Appended(h).Put(base, x) == Appended(h);
    var c := GrowSound(h, [], base);
    ChainUnique(Grown(h), c, [base]) by { TiledChained(Grown(h), c, base); }
  }

  /** It happens at the first call: whatever a program asks for first, unless that takes up the whole page, leaves a list
      that is out of order. */
  lemma FirstSplitBreaks(base: nat, n: nat, d: seq<nat>)
    requires 0 < base && n + HEADER <= PAGE - HEADER
    ensures !Sound(Taken(Grown(Heap(map[], 0, 0, base)), base, n), d, base)
  {
    hide Tiled, Grown, Taken;
    FirstPage(base);
    SplitBreaks(Grown(Heap(map[], 0, 0, base)), [base], base, 0, n, d);
  }

  // ---- a CHANGED split, which relinks the way ufree does ----

  /** Not the program's split: the old successor, or head.prev, is told about the new chunk. */
  function TakenRelinked(h: Heap, a: nat, n: nat): Heap {
    var x := h.At(a);
    if x.size == n then Taken(h, a, n)
    else
      var b, g := a + HEADER + n, Taken(h, a, n);
      if x.next != 0 then g.Relink(x.next, b) else g.(last := b)
  }

  lemma RelinkedTiles(h: Heap, chain: seq<nat>, base: nat, i: nat, n: nat)
    requires Tiled(h, chain, base) && i < |chain| && h.At(chain[i]).size >= n + HEADER && h.At(chain[i]).size != n
    ensures var b := chain[i] + HEADER + n;
      var g := TakenRelinked(h, chain[i], n);
      && Tiled(g, SplitAt(chain, i, b), base) && g.brk == h.brk
      && (forall k :: 0 <= k < |chain| ==> chain[k] != b && chain[k] in h.mem)
      && (forall k :: 0 <= k < |chain| && k != i ==> g.At(chain[k]).free == h.At(chain[k]).free && g.At(chain[k]).size == h.At(chain[k]).size)
      && !g.At(chain[i]).free && g.At(chain[i]).size == n && g.At(b).free
  {
    hide SplitAt;
    AllAscending(h, chain, base);
    var b := chain[i] + HEADER + n;
    var g, c := TakenRelinked(h, chain[i], n), SplitAt(chain, i, b);
    forall k | 0 <= k < |chain| ensures chain[k] != b && chain[k] in h.mem {
      assert Node(h, chain, k);
      if k > i { Ascending(h, chain, base, i, k); }
    }
    assert Node(h, chain, i);
    RelinkedFacts(h, chain, i, n);
    hide TakenRelinked;
    RelinkedNodes(h, chain, base, i, n, g, c, b);
    RelinkedEnds(chain, i, b);
  }

  lemma RelinkedEnds(chain: seq<nat>, i: nat, b: nat)
    requires i < |chain|
    ensures var c := SplitAt(chain, i, b);
      c != [] && c[0] == chain[0] && c[|c| - 1] == if i + 1 < |chain| then chain[|chain| - 1] else b
  {
  }

  lemma RelinkedFacts(h: Heap, chain: seq<nat>, i: nat, n: nat)
    requires i < |chain| && Node(h, chain, i) && h.At(chain[i]).size >= n + HEADER && h.At(chain[i]).size != n
    requires forall k, l :: 0 <= k < l < |chain| ==> chain[k] != chain[l]
    requires forall k :: 0 <= k < |chain| ==> chain[k] != chain[i] + HEADER + n && chain[k] in h.mem
    ensures var b := chain[i] + HEADER + n;
      var g := TakenRelinked(h, chain[i], n);
      && g.brk == h.brk && g.first == h.first && g.last == (if i + 1 < |chain| then h.last else b)
      && b in g.mem && g.mem[b] == Header(chain[i], h.At(chain[i]).next, h.At(chain[i]).size - n - HEADER, true)
      && chain[i] in g.mem && g.mem[chain[i]] == Header(h.At(chain[i]).prev, b, n, false)
      && forall k :: 0 <= k < |chain| && k != i ==>
           chain[k] in g.mem && g.mem[chain[k]] == if k == i + 1 then h.At(chain[k]).(prev := b) else h.At(chain[k])
  {
  }

  lemma RelinkedNodes(h: Heap, chain: seq<nat>, base: nat, i: nat, n: nat, g: Heap, c: seq<nat>, b: nat)
    requires Tiled(h, chain, base) && i < |chain| && Node(h, chain, i) && h.At(chain[i]).size >= n + HEADER
    requires forall k, l :: 0 <= k < l < |chain| ==> chain[k] != chain[l]
    requires forall k :: 0 <= k < |chain| ==> chain[k] != b && chain[k] in h.mem
    requires b == chain[i] + HEADER + n && c == SplitAt(chain, i, b) && g.brk == h.brk
    requires b in g.mem && g.mem[b] == Header(chain[i], h.At(chain[i]).next, h.At(chain[i]).size - n - HEADER, true)
    requires chain[i] in g.mem && g.mem[chain[i]] == Header(h.At(chain[i]).prev, b, n, false)
    requires forall k :: 0 <= k < |chain| && k != i ==>
      chain[k] in g.mem && g.mem[chain[k]] == if k == i + 1 then h.At(chain[k]).(prev := b) else h.At(chain[k])
    ensures forall k :: 0 <= k < |c| ==> Node(g, c, k)
  {
    forall k | 0 <= k < |c| ensures Node(g, c, k) {
      if k != i + 1 { assert Node(h, chain, if k <= i then k else k - 1); }
    }
  }

  /** With that change a split keeps the list in order, uses exactly one more chunk, and loses no byte. */
  lemma RelinkedSplitSound(h: Heap, chain: seq<nat>, base: nat, i: nat, n: nat)
    requires Sound(h, chain, base) && i < |chain| && h.At(chain[i]).free && h.At(chain[i]).size >= n + HEADER
    requires h.At(chain[i]).size != n
    ensures var g, c := TakenRelinked(h, chain[i], n), SplitAt(chain, i, chain[i] + HEADER + n);
      && Sound(g, c, base) && g.brk == h.brk && Used(g, c) == Used(h, chain) + {chain[i]} && g.At(chain[i]).size == n
      && (forall a :: a in Used(h, chain) ==> g.At(a).size == h.At(a).size)
      && Total(g, c) == Total(h, chain)
  {
    hide Tiled, Coalesced, TakenRelinked, SplitAt, Total;
    AllAscending(h, chain, base);
    var b := chain[i] + HEADER + n;
    var g, c := TakenRelinked(h, chain[i], n), SplitAt(chain, i, b);
    RelinkedTiles(h, chain, base, i, n);
    SplitUsed(h, chain, g, c, i, b);
    TotalOf(h, chain, base);
    TotalOf(g, c, base);
  }

  lemma {:induction false} TotalSame(h: Heap, g: Heap, c: seq<nat>)
    requires forall k :: 0 <= k < |c| ==> h.At(c[k]).size == g.At(c[k]).size
    ensures Total(h, c) == Total(g, c)
    decreases |c|
  {
    if c != [] { TotalSame(h, g, c[1..]); }
  }

  /** The program's own split leaves the list out of order, but it loses no byte either: the chunks on it still add up to all
      of the heap, exactly the one taken is in use on top of those before, and the rest of it is free. */
  lemma SplitKeepsBytes(h: Heap, chain: seq<nat>, base: nat, i: nat, n: nat)
    requires Sound(h, chain, base) && i < |chain| && h.At(chain[i]).free && h.At(chain[i]).size >= n + HEADER
    requires h.At(chain[i]).size != n
    ensures var g, c := Taken(h, chain[i], n), SplitAt(chain, i, chain[i] + HEADER + n);
      && Chained(g, c) && Total(g, c) == Total(h, chain)
      && Used(g, c) == Used(h, chain) + {chain[i]} && g.At(chain[i]).size == n
      && forall a :: a in Used(h, chain) ==> g.At(a).size == h.At(a).size
  {
    hide Tiled, Coalesced, SplitAt, Total, Chained;
    var b := chain[i] + HEADER + n;
    var g, c := Taken(h, chain[i], n), SplitAt(chain, i, b);
    SplitChained(h, chain, base, i, n);
    RelinkedSplitSound(h, chain, base, i, n);
    var f := TakenRelinked(h, chain[i], n);
    assert forall a :: f.At(a).size == g.At(a).size && f.At(a).free == g.At(a).free;
    TotalSame(g, f, c);
    assert Used(g, c) == Used(f, c);
  }

  lemma SplitUsed(h: Heap, chain: seq<nat>, g: Heap, c: seq<nat>, i: nat, b: nat)
    requires i < |chain| && c == SplitAt(chain, i, b) && Coalesced(h, chain, -1) && h.At(chain[i]).free
    requires forall k :: 0 <= k < |chain| ==> chain[k] != b
    requires forall k, l :: 0 <= k < l < |chain| ==> chain[k] != chain[l]
    requires forall k :: 0 <= k < |chain| && k != i ==> g.At(chain[k]).free == h.At(chain[k]).free
    requires !g.At(chain[i]).free && g.At(b).free
    ensures Coalesced(g, c, -1) && Used(g, c) == Used(h, chain) + {chain[i]}
  {
    forall k | 0 <= k < |c| - 1 ensures Apart(g, c, k) {
      if k < i - 1 {
        assert Apart(h, chain, k);
      } else if k > i + 1 {
        assert Apart(h, chain, k - 1);
      } else if k == i + 1 {
        assert Apart(h, chain, i);
      }
    }
    forall a | a in Used(h, chain) + {chain[i]} ensures a in Used(g, c) {
      if a != chain[i] {
        var k :| 0 <= k < |chain| && !h.At(chain[k]).free && chain[k] == a;
        assert c[if k <= i then k else k + 1] == a;
      } else {
        assert c[i] == a;
      }
    }
    forall a | a in Used(g, c) ensures a in Used(h, chain) + {chain[i]} {
      var k :| 0 <= k < |c| && !g.At(c[k]).free && c[k] == a;
      assert k != i + 1 && chain[if k <= i then k else k - 1] == a;
    }
  }

  /** Operations of a program on the changed allocator: a free of a chunk in use, an allocation from a free chunk that is
      large enough, a page from sbrk. */
  datatype Op = Give(a: nat) | Take(a: nat, n: nat) | More

  function Apply(h: Heap, op: Op): Heap {
    match op
    case Give(a) => Freed(h, a)
    case Take(a, n) => TakenRelinked(h, a, n)
    case More => Grown(h)
  }

  ghost predicate OpOk(h: Heap, chain: seq<nat>, op: Op) {
    match op
    case Give(a) => a in Used(h, chain)
    case Take(a, n) => a in chain && h.At(a).free && (h.At(a).size == n || h.At(a).size >= n + HEADER + 4)
    case More => true
  }

  lemma OpSound(h: Heap, chain: seq<nat>, base: nat, op: Op) returns (c: seq<nat>)
    requires Sound(h, chain, base) && OpOk(h, chain, op)
    ensures var g := Apply(h, op);
      && Sound(g, c, base)
      && Total(g, c) == Total(h, chain) + (if op.More? then PAGE else 0)
      && Used(g, c) == (if op.Give? then Used(h, chain) - {op.a} else if op.Take? then Used(h, chain) + {op.a} else Used(h, chain))
      && forall a :: a in Used(h, chain) * Used(g, c) ==> g.At(a).size == h.At(a).size
  {
    hide Tiled, Used, Total, Freed, Grown, TakenRelinked;
    match op
    case More => c := GrowSound(h, chain, base);
    case Give(a) =>
      var i := PlaceOfUsed(h, chain, a);
      StillCoalesced(h, chain, i);
      c := FreeSound(h, chain, base, i);
    case Take(a, n) =>
      var i :| 0 <= i < |chain| && chain[i] == a;
      if h.At(a).size == n {
        WholeSound(h, chain, base, i);
        c := chain;
        WholeIsTaken(h, a, n);
        TotalOf(h, chain, base);
        TotalOf(TakenRelinked(h, a, n), c, base);
      } else {
        RelinkedSplitSound(h, chain, base, i, n);
        c := SplitAt(chain, i, chain[i] + HEADER + n);
      }
  }

  lemma PlaceOfUsed(h: Heap, chain: seq<nat>, a: nat) returns (i: nat)
    requires a in Used(h, chain)
    ensures i < |chain| && chain[i] == a
  {
    var k :| 0 <= k < |chain| && !h.At(chain[k]).free && chain[k] == a;
    i := k;
  }

  lemma StillCoalesced(h: Heap, chain: seq<nat>, i: nat)
    requires Coalesced(h, chain, -1)
    ensures Coalesced(h, chain, i)
  {
  }

  lemma WholeIsTaken(h: Heap, a: nat, n: nat)
    requires h.At(a).size == n
    ensures TakenRelinked(h, a, n) == h.Put(a, h.At(a).(free := false)) && TakenRelinked(h, a, n).brk == h.brk
  {
  }

  function ApplyAll(h: Heap, ops: seq<Op>): Heap
    decreases |ops|
  {
    if ops == [] then h else ApplyAll(Apply(h, ops[0]), ops[1..])
  }

  ghost predicate OpsOk(h: Heap, base: nat, ops: seq<Op>)
    decreases |ops|
  {
    ops != [] ==>
      && (forall chain :: Sound(h, chain, base) ==> OpOk(h, chain, ops[0]))
      && OpsOk(Apply(h, ops[0]), base, ops[1..])
  }

  /** Before the first call the list is empty and in order. */
  lemma EmptySound(base: nat)
    requires 0 < base
    ensures Sound(Heap(map[], 0, 0, base), [], base) && Total(Heap(map[], 0, 0, base), []) == 0
  {
  }

  /** With the changed split the list stays in order over every run that mixes allocations and frees. */
  lemma {:induction false} MixedRunSound(h: Heap, chain: seq<nat>, base: nat, ops: seq<Op>) returns (c: seq<nat>)
    requires Sound(h, chain, base) && OpsOk(h, base, ops)
    ensures Sound(ApplyAll(h, ops), c, base)
    decreases |ops|
  {
    hide Sound, OpOk, Apply;
    if ops == [] {
      c := chain;
    } else {
      var d := OpSound(h, chain, base, ops[0]);
      c := MixedRunSound(Apply(h, ops[0]), d, base, ops[1..]);
    }
  }
}
