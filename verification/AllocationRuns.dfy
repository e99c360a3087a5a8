/**
 Programs that allocate and never free: every block umalloc ever returned stays
 disjoint from every other, although chunks behind head.prev drop off the list.
 The class at the end is umalloc.c as it runs.
 */
module AllocationRuns {
  import opened UserHeap

  /** A block handed to the program: its address, the bytes it has, and the bytes that were asked for. */
  datatype Block = Block(at: nat, size: nat, asked: nat)

  /** A heap with its list, the place of head.prev in the list, and all blocks returned so far. */
  datatype Arena = Arena(h: Heap, chain: seq<nat>, t: nat, blocks: seq<Block>, base: nat)

  /** Chunk `i` follows the link, is aligned, and ends before its successor begins. */
  ghost predicate Link(s: Arena, i: nat) {
    && Step(s.h, s.chain, i)
    && s.base <= s.chain[i] && s.chain[i] % 4 == 0 && s.h.At(s.chain[i]).size % 4 == 0
    && s.chain[i] + HEADER + s.h.At(s.chain[i]).size <= if i + 1 < |s.chain| then s.chain[i + 1] else s.h.brk
  }

  /** The block lies inside obtained pages, is aligned and at least as large as asked. */
  ghost predicate BlockOk(s: Arena, i: nat) {
    && i < |s.blocks| && s.base + HEADER <= s.blocks[i].at && s.blocks[i].at + s.blocks[i].size <= s.h.brk
    && s.blocks[i].at % 4 == 0 && s.blocks[i].size >= s.blocks[i].asked
  }

  /** Two blocks, headers included, have no byte in common. */
  ghost predicate Disjoint(b: Block, c: Block) {
    b.at + b.size <= c.at - HEADER || c.at + c.size <= b.at - HEADER
  }

  ghost predicate BlocksApart(s: Arena, i: nat, j: nat) {
    i < |s.blocks| && j < |s.blocks| && Disjoint(s.blocks[i], s.blocks[j])
  }

  /** A free chunk of the list shares no byte with a block. */
  ghost predicate FreeApart(s: Arena, i: nat, k: nat) {
    i < |s.blocks| && k < |s.chain| &&
    (s.blocks[i].at + s.blocks[i].size <= s.chain[k] || s.chain[k] + HEADER + s.h.At(s.chain[k]).size <= s.blocks[i].at - HEADER)
  }

  ghost predicate ListGood(s: Arena) {
    && 0 < s.base <= s.h.brk && s.h.brk % 4 == 0
    && (if s.chain == [] then s.h.first == 0
        else s.h.first == s.chain[0] && s.t < |s.chain| && s.h.last == s.chain[s.t])
    && (forall i :: 0 <= i < |s.chain| ==> Link(s, i))
    && (s.chain != [] && s.h.At(s.chain[s.t]).free ==>
        s.t == |s.chain| - 1 && s.chain[s.t] + HEADER + s.h.At(s.chain[s.t]).size == s.h.brk)
  }

  ghost predicate BlocksGood(s: Arena) {
    && (forall i :: 0 <= i < |s.blocks| ==> BlockOk(s, i))
    && (forall i, j :: 0 <= i < j < |s.blocks| ==> BlocksApart(s, i, j))
    && forall i, k :: 0 <= i < |s.blocks| && 0 <= k < |s.chain| && s.h.At(s.chain[k]).free ==> FreeApart(s, i, k)
  }

  ghost predicate Good(s: Arena) { ListGood(s) && BlocksGood(s) }

  lemma {:induction false} LinkOrder(s: Arena, i: nat, j: nat)
    requires ListGood(s) && i < j < |s.chain|
    ensures s.chain[i] + HEADER + s.h.At(s.chain[i]).size <= s.chain[j]
    decreases j
  {
    assert Link(s, j - 1);
    if i < j - 1 { LinkOrder(s, i, j - 1); }
  }

  lemma AllOrdered(s: Arena)
    requires ListGood(s)
    ensures forall i, j :: 0 <= i < j < |s.chain| ==> s.chain[i] < s.chain[j]
    ensures forall i :: 0 <= i < |s.chain| ==>
      s.chain[i] + HEADER <= s.h.brk && s.chain[i] in s.h.mem && s.chain[i] != 0
  {
    forall i, j | 0 <= i < j < |s.chain| ensures s.chain[i] < s.chain[j] { LinkOrder(s, i, j); }
    forall i | 0 <= i < |s.chain| ensures s.chain[i] + HEADER <= s.h.brk && s.chain[i] in s.h.mem && s.chain[i] != 0 {
      assert Link(s, i) && Link(s, |s.chain| - 1);
      if i < |s.chain| - 1 { LinkOrder(s, i, |s.chain| - 1); }
    }
  }

  // ---- a new page ----

  /** umorecore: a free tail grows by the page; otherwise the page goes behind head.prev, and what was there is lost. */
  function WithPage(s: Arena): Arena {
    var g := Grown(s.h);
    if s.chain == [] then Arena(g, [s.h.brk], 0, s.blocks, s.base)
    else if s.t < |s.chain| && s.h.At(s.chain[s.t]).free then Arena(g, s.chain, s.t, s.blocks, s.base)
    else if s.t < |s.chain| then Arena(g, s.chain[..s.t + 1] + [s.h.brk], s.t + 1, s.blocks, s.base)
    else s
  }

  lemma GrownFacts(h: Heap)
    requires h.brk > 0 && (h.first != 0 ==> h.last in h.mem && h.last != 0 && h.last < h.brk)
    ensures Grown(h) ==
      if h.first == 0 then Heap(h.mem[h.brk := Header(0, 0, PAGE - HEADER, true)], h.brk, h.brk, h.brk + PAGE)
      else if h.At(h.last).free then
        Heap(h.mem[h.brk := Header(h.last, 0, PAGE - HEADER, true)]
                  [h.last := h.At(h.last).(size := h.At(h.last).size + PAGE, next := 0)], h.first, h.last, h.brk + PAGE)
      else
        Heap(h.mem[h.brk := Header(h.last, 0, PAGE - HEADER, true)][h.last := h.At(h.last).(next := h.brk)],
             h.first, h.brk, h.brk + PAGE)
  {
    hide MergePrev;
    var g, p := Appended(h), h.brk;
    assert g.At(p) == Header(if h.first != 0 then h.last else 0, 0, PAGE - HEADER, true);
    assert g.Put(p, g.At(p).(free := true)) == g;
    assert MergeNext(g, p) == g;
    assert Grown(h) == MergePrev(g, p);
    PrevFacts(h, g);
  }

  lemma PrevFacts(h: Heap, g: Heap)
    requires h.brk > 0 && g == Appended(h) && (h.first != 0 ==> h.last in h.mem && h.last != 0 && h.last < h.brk)
    ensures h.first == 0 || !h.At(h.last).free ==> MergePrev(g, h.brk) == g
    ensures h.first != 0 && h.At(h.last).free ==>
      MergePrev(g, h.brk) ==
        Heap(h.mem[h.brk := Header(h.last, 0, PAGE - HEADER, true)]
                  [h.last := h.At(h.last).(size := h.At(h.last).size + PAGE, next := 0)], h.first, h.last, h.brk + PAGE)
  {
    if h.first != 0 && h.At(h.last).free {
      var r := MergePrev(g, h.brk);
      assert r.mem == h.mem[h.brk := Header(h.last, 0, PAGE - HEADER, true)][h.last := h.At(h.last).(size := h.At(h.last).size + PAGE, next := 0)];
    }
  }

  lemma WithPageGood(s: Arena)
    requires Good(s)
    ensures Good(WithPage(s)) && WithPage(s).blocks == s.blocks && WithPage(s).base == s.base && WithPage(s).chain != []
    ensures WithPage(s).h == Grown(s.h)
    ensures var u := WithPage(s);
      && u.h.At(u.chain[u.t]).free
      && u.h.At(u.chain[u.t]).size ==
         if s.chain != [] && s.h.At(s.chain[s.t]).free then s.h.At(s.chain[s.t]).size + PAGE else PAGE - HEADER
  {
    hide Grown;
    AllOrdered(s);
    GrownFacts(s.h);
    var u := WithPage(s);
    forall i | 0 <= i < |u.chain| ensures Link(u, i) {
      if i < |s.chain| { assert Link(s, i); }
    }
    WithPageBlocks(s, u);
  }

  lemma WithPageBlocks(s: Arena, u: Arena)
    requires Good(s) && u.blocks == s.blocks && u.base == s.base && u.h.brk == s.h.brk + PAGE
    requires forall i :: 0 <= i < |u.chain| ==>
      (if i < |s.chain| then u.chain[i] == s.chain[i] && u.h.At(u.chain[i]).free == s.h.At(s.chain[i]).free
          && (u.h.At(u.chain[i]).size == s.h.At(s.chain[i]).size || s.chain[i] + HEADER + s.h.At(s.chain[i]).size == s.h.brk)
       else u.chain[i] == s.h.brk) || u.chain[i] == s.h.brk
    ensures BlocksGood(u)
  {
    forall i | 0 <= i < |u.blocks| ensures BlockOk(u, i) { assert BlockOk(s, i); }
    forall i, j | 0 <= i < j < |u.blocks| ensures BlocksApart(u, i, j) { assert BlocksApart(s, i, j); }
    forall i, k | 0 <= i < |u.blocks| && 0 <= k < |u.chain| && u.h.At(u.chain[k]).free ensures FreeApart(u, i, k) {
      assert BlockOk(s, i);
      if k < |s.chain| && u.chain[k] == s.chain[k] && s.h.At(s.chain[k]).free { assert FreeApart(s, i, k); }
    }
  }

  // ---- an allocation ----

  /** The first chunk from `k` on that fits, or the length of the list. */
  function FirstFit(h: Heap, chain: seq<nat>, k: nat, bytes: nat): (f: nat)
    requires 0 < bytes && k <= |chain|
    ensures k <= f <= |chain| && (f < |chain| ==> Fits(h.At(chain[f]), bytes))
    ensures forall i :: k <= i < f ==> !Fits(h.At(chain[i]), bytes)
    decreases |chain| - k
  {
    if k == |chain| || Fits(h.At(chain[k]), bytes) then k else FirstFit(h, chain, k + 1, bytes)
  }

  /** The request and its rounding do not wrap around. */
  predicate Modest(bytes: nat) { 0 < bytes <= 0xFFFF_FFE8 }

  /** Exactly the requests for which the chunk sizes mean what they should. */
  lemma ModestIff(bytes: nat)
    requires 0 < bytes < 0x1_0000_0000
    ensures Modest(bytes) <==> Aligned(bytes) >= bytes && Required(bytes) == Aligned(bytes) + HEADER + 4
    ensures Modest(bytes) ==> Aligned(bytes) % 4 == 0 && Aligned(bytes) < bytes + 4
  {
  }

  /** Where the split puts the new header, in 32-bit arithmetic. */
  function SplitAddress(a: nat, bytes: nat): nat
    requires 0 < bytes
  {
    (a + HEADER + Aligned(bytes)) % 0x1_0000_0000
  }

  /** umalloc(bytes) with the chunk `x` at `a`: the block is as large as was asked, and behind it there is either the end of
      the chunk or room for the header of the rest. */
  predicate Serves(a: nat, x: Header, bytes: nat)
    requires 0 < bytes
  {
    && Aligned(bytes) >= bytes
    && (x.size == Aligned(bytes) ||
        (a + HEADER + bytes <= SplitAddress(a, bytes) && SplitAddress(a, bytes) + HEADER <= a + HEADER + x.size))
  }

  /** Exactly which requests umalloc serves: for all others the chunk it picks becomes a block of no bytes, or the header of
      the rest is stored over the chunk's own header. */
  lemma ServedIff(a: nat, x: Header, bytes: nat)
    requires 0 < bytes < 0x1_0000_0000 && Fits(x, bytes) && PAGE <= a && a + HEADER + x.size <= 0x1_0000_0000
    ensures Serves(a, x, bytes) <==> Modest(bytes)
    ensures Modest(bytes) && x.size != Aligned(bytes) ==> SplitAddress(a, bytes) == a + HEADER + Aligned(bytes)
    ensures bytes > 0xFFFF_FFFC ==> Aligned(bytes) == 0
    ensures 0xFFFF_FFE8 < bytes <= 0xFFFF_FFFC ==>
      x.size != Aligned(bytes) && a < SplitAddress(a, bytes) + HEADER && SplitAddress(a, bytes) < a + HEADER
  {
  }

  /** The first page has a chunk that umalloc picks for every request that is not modest. */
  lemma HugeRequestFits(base: nat, bytes: nat)
    requires PAGE <= base && base + PAGE <= 0x1_0000_0000 && 0xFFFF_FFE8 < bytes < 0x1_0000_0000
    ensures var h := Grown(Heap(map[], 0, 0, base));
      Sound(h, [base], base) && FirstFit(h, [base], 0, bytes) == 0 && !Serves(base, h.At(base), bytes)
  {
    hide Sound, Grown;
    FirstPage(base);
    ServedIff(base, Header(0, 0, PAGE - HEADER, true), bytes);
  }

  // ---- mixing allocations and frees ----

  /** umalloc(bytes) on the list `chain` picks the chunk at `a` and gives it `n` bytes. */
  ghost predicate Picks(h: Heap, chain: seq<nat>, bytes: nat, a: nat, n: nat) {
    && Chained(h, chain) && 0 < bytes && Modest(bytes) && Aligned(bytes) == n
    && var k := FirstFit(h, chain, 0, bytes);
    k < |chain| && chain[k] == a
  }

  lemma {:induction false} FirstFitIs(h: Heap, chain: seq<nat>, k: nat, i: nat, bytes: nat)
    requires 0 < bytes && k <= i < |chain| && Fits(h.At(chain[i]), bytes)
    requires forall j :: k <= j < i ==> !Fits(h.At(chain[j]), bytes)
    ensures FirstFit(h, chain, k, bytes) == i
    decreases i - k
  {
    if k < i { FirstFitIs(h, chain, k + 1, i, bytes); }
  }

  lemma TwoTaken(base: nat) returns (h1: Heap, h2: Heap, h3: Heap)
    requires 0 < base
    ensures h1 == Grown(Heap(map[], 0, 0, base)) && h2 == Taken(h1, base, 100) && h3 == Taken(h2, base + 116, 100)
    ensures Picks(h1, [base], 100, base, 100) && Picks(h2, [base, base + 116], 100, base + 116, 100)
    ensures h3.first == base && h3.mem.Keys == {base, base + 116, base + 232} &&
      h3.At(base) == Header(0, base + 116, 100, false)
    ensures h3.At(base + 116) == Header(base, base + 232, 100, false)
    ensures h3.At(base + 232) == Header(base + 116, 0, 3848, true)
  {
    FirstPage(base);
    h1 := Grown(Heap(map[], 0, 0, base));
    hide Grown, FirstFit;
    h2 := Taken(h1, base, 100);
    h3 := Taken(h2, base + 116, 100);
    FirstFitIs(h1, [base], 0, 0, 100);
    FirstFitIs(h2, [base, base + 116], 0, 1, 100);
  }

  lemma MixedSplit(h3: Heap, base: nat) returns (h4: Heap, h5: Heap, h6: Heap)
    requires 0 < base && h3.first == base && h3.mem.Keys == {base, base + 116, base + 232}
    requires h3.At(base) == Header(0, base + 116, 100, false) &&
      h3.At(base + 116) == Header(base, base + 232, 100, false)
    requires h3.At(base + 232) == Header(base + 116, 0, 3848, true)
    ensures h4 == Freed(h3, base) && h5 == Taken(h4, base, 60) && h6 == Taken(h5, base + 76, 24)
    ensures Picks(h4, [base, base + 116, base + 232], 60, base, 60)
    ensures Picks(h5, [base, base + 76, base + 116, base + 232], 24, base + 76, 24)
    ensures h6.first == base && h6.mem.Keys == {base, base + 76, base + 116, base + 232}
    ensures h6.At(base) == Header(0, base + 76, 60, false) && h6.At(base + 76) == Header(base, base + 116, 24, false)
    ensures h6.At(base + 116) == Header(base, base + 232, 100, false)
    ensures h6.At(base + 232) == Header(base + 116, 0, 3848, true)
  {
    hide Grown, FirstFit, Taken;
    h4 := Freed(h3, base);
    assert h4 == h3.Put(base, Header(0, base + 116, 100, true));
    hide Freed, MergeNext, MergePrev;
    FirstFitIs(h4, [base, base + 116, base + 232], 0, 0, 60);
    h5 := Split60(h4, base);
    FirstFitIs(h5, [base, base + 76, base + 116, base + 232], 0, 1, 24);
    h6 := Taken(h5, base + 76, 24);
    WholeTaken(h5, base + 76);
  }

  lemma WholeTaken(h: Heap, a: nat)
    ensures Taken(h, a, h.At(a).size) == h.Put(a, h.At(a).(free := false))
  {
  }

  lemma Split60(h: Heap, base: nat) returns (g: Heap)
    requires 0 < base && h.At(base) == Header(0, base + 116, 100, true)
    ensures g == Taken(h, base, 60)
    ensures g == h.Put(base + 76, Header(base, base + 116, 24, true)).Put(base, Header(0, base + 76, 60, false))
  {
    g := Taken(h, base, 60);
  }

  lemma BothFreed(h6: Heap, base: nat) returns (h8: Heap)
    requires 0 < base && h6.first == base && h6.mem.Keys == {base, base + 76, base + 116, base + 232}
    requires h6.At(base) == Header(0, base + 76, 60, false) && h6.At(base + 76) == Header(base, base + 116, 24, false)
    requires h6.At(base + 116) == Header(base, base + 232, 100, false)
    requires h6.At(base + 232) == Header(base + 116, 0, 3848, true)
    ensures h8 == Freed(Freed(h6, base), base + 116) && h8.first == base && base in h8.mem
    ensures h8.At(base) == Header(0, 0, 4040, true) && h8.At(base + 76) == h6.At(base + 76)
  {
    var h7 := Freed(h6, base);
    assert h7 == h6.Put(base, Header(0, base + 76, 60, true));
    h8 := Freed(h7, base + 116);
  }

  /** Mixed runs hand out overlapping blocks. Allocating 100 and 100 bytes, freeing the first, allocating 60 and 24 bytes,
      freeing the 60, and freeing the second 100 leads ufree along a stale prev link: it merges across the 24 bytes, which
      are still in use. The next block of 100 bytes contains them, header and all. Each chunk is the first that fits. */
  lemma MixedRunOverlaps(base: nat)
    returns (h1: Heap, h2: Heap, h3: Heap, h4: Heap, h5: Heap, h6: Heap, h8: Heap)
    requires 0 < base
    ensures h1 == Grown(Heap(map[], 0, 0, base))
    ensures Picks(h1, [base], 100, base, 100) && h2 == Taken(h1, base, 100)
    ensures Picks(h2, [base, base + 116], 100, base + 116, 100) && h3 == Taken(h2, base + 116, 100)
    ensures h4 == Freed(h3, base)
    ensures Picks(h4, [base, base + 116, base + 232], 60, base, 60) && h5 == Taken(h4, base, 60)
    ensures Picks(h5, [base, base + 76, base + 116, base + 232], 24, base + 76, 24) && h6 == Taken(h5, base + 76, 24)
    ensures h8 == Freed(Freed(h6, base), base + 116)
    ensures h8.At(base + 76).size == 24 && !h8.At(base + 76).free
    ensures Picks(h8, [base], 100, base, 100) && base + 76 + HEADER + 24 <= base + HEADER + 100
  {
    h1, h2, h3 := TwoTaken(base);
    h4, h5, h6 := MixedSplit(h3, base);
    h8 := BothFreed(h6, base);
    hide Freed, Taken, Grown;
    FirstFitIs(h8, [base], 0, 0, 100);
  }

  /** The arena after chunk `k` has been used for the request. */
  function Given(s: Arena, k: nat, bytes: nat): Arena
    requires k < |s.chain| && 0 < bytes
  {
    var a, n := s.chain[k], Aligned(bytes);
    Arena(Taken(s.h, a, n),
          if s.h.At(a).size == n then s.chain else SplitAt(s.chain, k, a + HEADER + n),
          if s.h.At(a).size != n && k < s.t then s.t + 1 else s.t,
          s.blocks + [Block(a + HEADER, n, bytes)], s.base)
  }

  lemma GivenList(s: Arena, k: nat, bytes: nat)
    requires ListGood(s) && k < |s.chain| && Modest(bytes) && Fits(s.h.At(s.chain[k]), bytes)
    ensures ListGood(Given(s, k, bytes))
  {
    ModestIff(bytes);
    AllOrdered(s);
    var u, a, n := Given(s, k, bytes), s.chain[k], Aligned(bytes);
    assert Link(s, k);
    if s.h.At(a).size == n {
      forall i | 0 <= i < |u.chain| ensures Link(u, i) { assert Link(s, i); }
    } else {
      var b := a + HEADER + n;
      forall i | 0 <= i < |s.chain| ensures s.chain[i] != b {
        if i > k { LinkOrder(s, k, i); }
      }
      hide Aligned, Required, Fits, Modest;
      SplitLinks(s, k, n, b, u);
    }
  }

  lemma SplitLinks(s: Arena, k: nat, n: nat, b: nat, u: Arena)
    requires ListGood(s) && k < |s.chain| && n % 4 == 0 && b == s.chain[k] + HEADER + n
    requires s.h.At(s.chain[k]).size >= n + HEADER && s.h.At(s.chain[k]).size % 4 == 0 && s.h.At(s.chain[k]).size != n
    requires forall i :: 0 <= i < |s.chain| ==> s.chain[i] != b && s.chain[i] in s.h.mem
    requires forall i, j :: 0 <= i < j < |s.chain| ==> s.chain[i] < s.chain[j]
    requires u.h == Taken(s.h, s.chain[k], n) && u.chain == SplitAt(s.chain, k, b) && u.base == s.base
    requires u.t == if k < s.t then s.t + 1 else s.t
    ensures ListGood(u)
  {
    hide SplitAt;
    assert Link(s, k);
    SplitShape(s.chain, k, b, s.t);
    forall l {:trigger u.chain[l]} | 0 <= l < |u.chain|
      ensures u.chain[l] == if l <= k then s.chain[l] else if l == k + 1 then b else s.chain[l - 1] {
      assert u.chain[l] == SplitAt(s.chain, k, b)[l];
    }
    forall i | 0 <= i < |s.chain| && i != k
      ensures s.chain[i] in u.h.mem && u.h.mem[s.chain[i]] == s.h.At(s.chain[i]) {
      assert s.chain[i] != s.chain[k];
    }
    assert u.h.first == s.h.first && u.h.last == s.h.last && u.h.brk == s.h.brk;
    assert u.h.At(s.chain[k]) == Header(s.h.At(s.chain[k]).prev, b, n, false);
    assert u.h.At(b) == Header(s.chain[k], s.h.At(s.chain[k]).next, s.h.At(s.chain[k]).size - n - HEADER, true);
    assert b in u.h.mem && s.chain[k] in u.h.mem;
    hide Taken;
    forall i | 0 <= i < |u.chain| ensures Link(u, i) { SplitLink(s, k, n, b, u, i); }
  }

  lemma SplitShape(chain: seq<nat>, k: nat, b: nat, t: nat)
    requires k < |chain|
    ensures var c := SplitAt(chain, k, b);
      && |c| == |chain| + 1 && c[0] == chain[0]
      && (forall i :: 0 <= i < |c| ==> c[i] == if i <= k then chain[i] else if i == k + 1 then b else chain[i - 1])
      && (t < |chain| ==> c[if k < t then t + 1 else t] == chain[t])
  {
  }

  lemma SplitLink(s: Arena, k: nat, n: nat, b: nat, u: Arena, i: nat)
    requires ListGood(s) && k < |s.chain| && n % 4 == 0 && b == s.chain[k] + HEADER + n && i < |u.chain|
    requires s.h.At(s.chain[k]).size >= n + HEADER && s.h.At(s.chain[k]).size % 4 == 0 && Link(s, k)
    requires |u.chain| == |s.chain| + 1 && u.base == s.base && u.h.brk == s.h.brk
    requires forall l {:trigger u.chain[l]} :: 0 <= l < |u.chain| ==>
      u.chain[l] == if l <= k then s.chain[l] else if l == k + 1 then b else s.chain[l - 1]
    requires forall l :: 0 <= l < |s.chain| && l != k ==>
      s.chain[l] in u.h.mem && u.h.mem[s.chain[l]] == s.h.At(s.chain[l])
    requires s.chain[k] in u.h.mem && u.h.mem[s.chain[k]] == Header(s.h.At(s.chain[k]).prev, b, n, false)
    requires b in u.h.mem &&
      u.h.mem[b] == Header(s.chain[k], s.h.At(s.chain[k]).next, s.h.At(s.chain[k]).size - n - HEADER, true)
    ensures Link(u, i)
  {
    if i != k + 1 {
      var m := if i <= k then i else i - 1;
      assert Link(s, m) && u.chain[i] == s.chain[m];
      assert i + 1 < |u.chain| ==> u.chain[i + 1] == if i < k then s.chain[i + 1] else if i == k then b else s.chain[i];
      if i != k { assert u.h.At(u.chain[i]) == s.h.At(s.chain[m]); } else { assert u.h.At(u.chain[i]).next == b; }
    } else {
      assert i + 1 < |u.chain| ==> u.chain[i + 1] == s.chain[k + 1];
    }
  }

  lemma GivenBlocks(s: Arena, k: nat, bytes: nat)
    requires Good(s) && k < |s.chain| && Modest(bytes) && Fits(s.h.At(s.chain[k]), bytes)
    ensures BlocksGood(Given(s, k, bytes))
  {
    ModestIff(bytes);
    AllOrdered(s);
    var u, a, n, b := Given(s, k, bytes), s.chain[k], Aligned(bytes), s.chain[k] + HEADER + Aligned(bytes);
    assert Link(s, k);
    forall i | 0 <= i < |s.chain| ensures s.h.At(a).size != n ==> s.chain[i] != b {
      if i > k { LinkOrder(s, k, i); }
    }
    if k < |s.chain| - 1 { LinkOrder(s, k, |s.chain| - 1); }
    assert Link(s, |s.chain| - 1);
    forall i | 0 <= i < |u.blocks| ensures BlockOk(u, i) {
      if i < |s.blocks| { assert BlockOk(s, i); }
    }
    forall i, j | 0 <= i < j < |u.blocks| ensures BlocksApart(u, i, j) {
      assert BlockOk(s, i);
      if j < |s.blocks| { assert BlocksApart(s, i, j); } else { assert FreeApart(s, i, k); }
    }
    forall i, l | 0 <= i < |u.blocks| && 0 <= l < |u.chain| && u.h.At(u.chain[l]).free ensures FreeApart(u, i, l) {
      GivenFree(s, k, bytes, i, l);
    }
  }

  lemma GivenFree(s: Arena, k: nat, bytes: nat, i: nat, l: nat)
    requires Good(s) && k < |s.chain| && Modest(bytes) && Fits(s.h.At(s.chain[k]), bytes)
    requires var u := Given(s, k, bytes); i < |u.blocks| && l < |u.chain| && u.h.At(u.chain[l]).free
    ensures FreeApart(Given(s, k, bytes), i, l)
  {
    ModestIff(bytes);
    AllOrdered(s);
    var u, a, n, b := Given(s, k, bytes), s.chain[k], Aligned(bytes), s.chain[k] + HEADER + Aligned(bytes);
    var whole := s.h.At(a).size == n;
    assert Link(s, k);
    if !whole && l == k + 1 {
      if i < |s.blocks| { assert FreeApart(s, i, k) && BlockOk(s, i); }
    } else {
      var m := if whole || l <= k then l else l - 1;
      assert u.chain[l] == s.chain[m] && m != k;
      assert Link(s, m);
      if m > k { LinkOrder(s, k, m); } else { LinkOrder(s, m, k); }
      assert s.chain[m] != b || whole;
      if i < |s.blocks| { assert FreeApart(s, i, m); }
    }
  }

  lemma GivenGood(s: Arena, k: nat, bytes: nat)
    requires Good(s) && k < |s.chain| && Modest(bytes) && Fits(s.h.At(s.chain[k]), bytes)
    ensures Good(Given(s, k, bytes))
  {
    GivenList(s, k, bytes);
    GivenBlocks(s, k, bytes);
  }

  // ---- a call of umalloc ----

  /** What the tail still lacks: each new page brings the search closer to success. */
  function Need(s: Arena, bytes: nat): nat
    requires 0 < bytes
  {
    if s.chain != [] && s.t < |s.chain| && s.h.At(s.chain[s.t]).free then
      (if s.h.At(s.chain[s.t]).size >= Required(bytes) then 0 else Required(bytes) - s.h.At(s.chain[s.t]).size)
    else Required(bytes) + 1
  }

  /** umalloc: search, and get a page, until a chunk fits; also the address returned. */
  function Malloc(s: Arena, bytes: nat): (r: (Arena, nat))
    requires Good(s) && Modest(bytes)
    ensures Good(r.0) && r.0.base == s.base
    ensures |r.0.blocks| == |s.blocks| + 1 && r.0.blocks[..|s.blocks|] == s.blocks
    ensures r.0.blocks[|s.blocks|].at == r.1 && r.0.blocks[|s.blocks|].asked == bytes
    decreases Need(s, bytes)
  {
    var k := FirstFit(s.h, s.chain, 0, bytes);
    if k < |s.chain| then
      GivenGood(s, k, bytes);
      (Given(s, k, bytes), s.chain[k] + HEADER)
    else
      WithPageGood(s);
      NeedShrinks(s, bytes);
      Malloc(WithPage(s), bytes)
  }

  lemma NeedShrinks(s: Arena, bytes: nat)
    requires Good(s) && Modest(bytes) && FirstFit(s.h, s.chain, 0, bytes) == |s.chain|
    ensures Need(WithPage(s), bytes) < Need(s, bytes)
  {
    WithPageGood(s);
    ModestIff(bytes);
    hide Good, WithPage;
    TailThere(s);
    if s.chain != [] && s.h.At(s.chain[s.t]).free { assert !Fits(s.h.At(s.chain[s.t]), bytes); }
    TailThere(WithPage(s));
  }

  lemma TailThere(s: Arena)
    requires Good(s)
    ensures s.chain != [] ==> s.t < |s.chain|
  {
  }

  // ---- runs ----

  function Served(s: Arena, requests: seq<nat>): (r: Arena)
    requires Good(s) && forall i :: 0 <= i < |requests| ==> Modest(requests[i])
    ensures Good(r) && r.base == s.base
    ensures |r.blocks| == |s.blocks| + |requests| && r.blocks[..|s.blocks|] == s.blocks
    ensures forall i :: 0 <= i < |requests| ==> r.blocks[|s.blocks| + i].asked == requests[i]
    decreases |requests|
  {
    if requests == [] then s else Served(Malloc(s, requests[0]).0, requests[1..])
  }

  /** Any run of allocations from an empty heap: every request was served by a block of at least its size, aligned to four
      bytes and inside the pages obtained, and no two blocks overlap. */
  lemma RunOfAllocations(base: nat, requests: seq<nat>, i: nat, j: nat)
    requires 0 < base && base % 4 == 0 && i < |requests| && j < |requests|
    requires forall k :: 0 <= k < |requests| ==> Modest(requests[k])
    ensures var s := Arena(Heap(map[], 0, 0, base), [], 0, [], base);
      && Good(s)
      && var r := Served(s, requests);
      && |r.blocks| == |requests|
      && base < r.blocks[i].at && r.blocks[i].at + r.blocks[i].size <= r.h.brk
      && r.blocks[i].at % 4 == 0 && r.blocks[i].size >= requests[i]
      && (i != j ==> r.blocks[i].at + r.blocks[i].size <= r.blocks[j].at || r.blocks[j].at + r.blocks[j].size <= r.blocks[i].at)
  {
    var s := Arena(Heap(map[], 0, 0, base), [], 0, [], base);
    var r := Served(s, requests);
    hide ListGood, Served;
    assert BlockOk(r, i) && BlockOk(r, j);
    assert r.blocks[0 + i].asked == requests[i];
    if i < j { assert BlocksApart(r, i, j); } else if j < i { assert BlocksApart(r, j, i); }
  }

  // ---- umalloc.c ----

  class Allocator {
    var mem: map<nat, Header>
    var first: nat
    var last: nat
    var brk: nat

    ghost function Now(): Heap
      reads this
    {
      Heap(mem, first, last, brk)
    }

    constructor (base: nat)
      ensures Now() == Heap(map[], 0, 0, base)
    {
      mem, first, last, brk := map[], 0, 0, base;
    }

    /** The headers that ufree looks at are there. */
    ghost predicate Reaches(a: nat)
      reads this
    {
      && a in mem
      && (mem[a].next != 0 ==> mem[a].next in mem && (mem[mem[a].next].next != 0 ==> mem[mem[a].next].next in mem))
      && (mem[a].prev != 0 ==> mem[a].prev in mem)
    }

    /** ufree of the chunk whose header is at `hdr`. */
    method Ufree(hdr: nat)
      requires Reaches(hdr)
      modifies this
      ensures Now() == Freed(old(Now()), hdr)
    {
      mem := mem[hdr := mem[hdr].(free := true)];
      ghost var h1 := Now();
      var next := mem[hdr].next;
      if next != 0 && mem[next].free {
        mem := mem[hdr := mem[hdr].(size := mem[hdr].size + HEADER + mem[next].size, next := mem[next].next)];
        if mem[hdr].next != 0 {
          mem := mem[mem[hdr].next := mem[mem[hdr].next].(prev := hdr)];
        }
        if mem[hdr].next == 0 { last := hdr; }
      }
      assert Now() == MergeNext(h1, hdr);
      ghost var h2 := Now();
      var prev := mem[hdr].prev;
      if prev != 0 && mem[prev].free {
        mem := mem[prev := mem[prev].(size := mem[prev].size + HEADER + mem[hdr].size, next := mem[hdr].next)];
        if mem[hdr].next != 0 {
          mem := mem[mem[hdr].next := mem[mem[hdr].next].(prev := prev)];
        }
        if mem[prev].next == 0 { last := prev; }
      }
      assert Now() == MergePrev(h2, hdr);
    }

    /** umorecore; sbrk hands out the page at the break. */
    method Umorecore()
      requires 0 < brk && (first != 0 ==> last in mem && last != 0 && last < brk)
      modifies this
      ensures Now() == Grown(old(Now()))
    {
      hide Freed;
      ghost var h := Now();
      var page := brk;
      brk := brk + PAGE;
      mem := mem[page := Header(0, 0, PAGE - HEADER, true)];
      if first != 0 {
        mem := mem[last := mem[last].(next := page)];
        mem := mem[page := mem[page].(prev := last)];
        last := page;
      } else {
        first, last := page, page;
      }
      assert mem == Appended(h).mem;
      Ufree(page);
    }

    /** The chunk at `curr` is cut: its front is taken, the rest gets a header of its own. */
    method Split(curr: nat, aligned: nat)
      requires curr in mem && mem[curr].free && mem[curr].size != aligned && mem[curr].size >= aligned + HEADER
      modifies this
      ensures Now() == Taken(old(Now()), curr, aligned)
    {
      ghost var h := Now();
      mem := mem[curr := mem[curr].(free := false)];
      var rest := curr + HEADER + aligned;
      mem := mem[rest := Header(curr, mem[curr].next, mem[curr].size - aligned - HEADER, true)];
      mem := mem[curr := mem[curr].(size := aligned)];
      mem := mem[curr := mem[curr].(next := rest)];
      assert mem == Taken(h, curr, aligned).mem;
    }

    /** umalloc: first fit over the list, with a new page whenever nothing fits. */
    method Umalloc(ghost s: Arena, bytes: nat) returns (p: nat)
      requires Good(s) && s.h == Now() && (bytes == 0 || Modest(bytes))
      modifies this
      ensures bytes == 0 ==> p == 0 && Now() == old(Now())
      ensures bytes > 0 ==> Now() == Malloc(s, bytes).0.h && p == Malloc(s, bytes).1
    {
      hide ListGood, BlocksGood, Grown, Taken, WithPage, Aligned, Required;
      if bytes == 0 { return 0; }
      var aligned, required := Aligned(bytes), Required(bytes);
      ghost var u := s;
      while true
        invariant Good(u) && u.h == Now() && Malloc(u, bytes) == Malloc(s, bytes)
        decreases Need(u, bytes)
      {
        AllOrdered(u);
        ListEnds(u);
        var curr := first;
        ghost var k := 0;
        while curr != 0
          invariant Now() == u.h && k <= |u.chain| && curr == if k < |u.chain| then u.chain[k] else 0
          invariant FirstFit(u.h, u.chain, 0, bytes) == FirstFit(u.h, u.chain, k, bytes)
          decreases |u.chain| - k
        {
          NextLink(u, k);
          if mem[curr].free {
            if mem[curr].size == aligned {
              TakeWhole(u.h, curr, aligned);
              mem := mem[curr := mem[curr].(free := false)];
              return curr + HEADER;
            } else if mem[curr].size >= required {
              SplitFits(u, k, bytes);
              Split(curr, aligned);
              return curr + HEADER;
            }
          }
          curr := mem[curr].next;
          k := k + 1;
        }
        NeedShrinks(u, bytes);
        WithPageGood(u);
        Umorecore();
        u := WithPage(u);
      }
    }
  }

  lemma TakeWhole(h: Heap, a: nat, n: nat)
    requires h.At(a).size == n
    ensures Taken(h, a, n) == h.Put(a, h.At(a).(free := false))
  {
  }

  lemma ListEnds(s: Arena)
    requires ListGood(s)
    ensures s.h.brk > 0 && s.h.first == (if s.chain == [] then 0 else s.chain[0])
    ensures s.h.first != 0 ==> s.h.last in s.h.mem && s.h.last != 0 && s.h.last < s.h.brk
  {
    AllOrdered(s);
  }

  lemma NextLink(s: Arena, k: nat)
    requires ListGood(s) && k < |s.chain|
    ensures s.chain[k] in s.h.mem && s.h.mem[s.chain[k]].next == if k + 1 < |s.chain| then s.chain[k + 1] else 0
  {
    assert Link(s, k);
  }

  lemma SplitFits(s: Arena, k: nat, bytes: nat)
    requires ListGood(s) && k < |s.chain| && Modest(bytes) && s.h.At(s.chain[k]).size >= Required(bytes)
    ensures s.h.At(s.chain[k]).size >= Aligned(bytes) + HEADER
  {
    ModestIff(bytes);
  }
}
