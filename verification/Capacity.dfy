/**
 How much memory the kernel needs: the exact price of the identity map and of a
 process image.
 */
module Capacity {
  import opened Sv32
  import opened Bytes
  import opened Pages
  import opened PageTables
  import opened Spaces
  import opened Images
  import opened Processes
  import opened Building
  import Traps

  /** Second-level tables for `n` pages. */
  function Tables(n: nat): nat { (n + 1023) / 1024 }

  /** Exactly the first `r` entries of the root are valid. */
  ghost predicate Rows(m: Memory, root: nat, r: nat) {
    root < |m| && forall i :: 0 <= i < 1024 ==> (Valid(m[root][i]) <==> i < r)
  }

  /** Mapping a page touches at most one entry of the root, and leaves it valid. */
  lemma MapPageRoot(x: Phys, roots: map<nat, nat>, o: nat, i: nat, j: nat, p: nat, flags: nat)
    requires PhysOk(x, roots) && o in roots && i < 1024 && j < 1024 && flags < 1024
    requires MapPage(x, o, roots[o], i, j, p, flags).Go?
    ensures var y := MapPage(x, o, roots[o], i, j, p, flags).value;
      && roots[o] < |x.mem| == |y.mem| && Valid(y.mem[roots[o]][i])
      && forall r :: 0 <= r < 1024 && r != i ==> y.mem[roots[o]][r] == x.mem[roots[o]][r]
  {
    hide PhysOk, Leaf, Grows, SameLeaves, WithLevel0, PageOf, FlagsOf, Valid, LeafOk;
    Traps.RootRole(x, roots, o);
    ShapeIs(x, roots);
    WithLevel0Ok(x, roots, o, i);
    var y := WithLevel0(x, o, roots[o], i).value;
    LeafFacts(y, roots, o, i, j);
    Traps.RootRole(y, roots, o);
    RootNotFirst(x, roots, o);
    RowKept(x, o, roots[o], i);
  }

  lemma RootNotFirst(x: Phys, roots: map<nat, nat>, o: nat)
    requires PhysOk(x, roots) && o in roots
    ensures x.free != [] ==> x.free[0] != roots[o]
  {
    Traps.RootRole(x, roots, o);
    hide TableOk;
    if x.free != [] { assert LinkedAt(x, 0); }
  }

  lemma RowKept(x: Phys, o: nat, root: nat, i: nat)
    requires i < 1024 && root < |x.mem| && WithLevel0(x, o, root, i).Go?
    requires Valid(x.mem[root][i]) || x.free == [] || x.free[0] != root
    ensures var y := WithLevel0(x, o, root, i).value;
      |y.mem| == |x.mem| && forall r :: 0 <= r < 1024 && r != i ==> y.mem[root][r] == x.mem[root][r]
  {
  }

  // ---- the identity map ----

  lemma KernelRow(x: Phys, roots: map<nat, nat>, o: nat, k: nat)
    requires PhysOk(x, roots) && o in roots && k < |x.mem| <= 0xC_0000 && Rows(x.mem, roots[o], Tables(k))
    requires MapPage(x, o, roots[o], k / 1024, k % 1024, k, RWX).Go?
    ensures Rows(MapPage(x, o, roots[o], k / 1024, k % 1024, k, RWX).value.mem, roots[o], Tables(k + 1))
  {
    hide PhysOk, MapPage, Valid;
    MapPageRoot(x, roots, o, k / 1024, k % 1024, k, RWX);
    NextRow(k);
  }

  lemma NextRow(k: nat)
    ensures Tables(k + 1) == k / 1024 + 1
    ensures Tables(k) == if k % 1024 == 0 then k / 1024 else k / 1024 + 1
  {
  }

  /** The identity map of a fresh table costs one page per 1024 pages of memory, to the page. */
  lemma {:induction false} MapKernelCost(x: Phys, roots: map<nat, nat>, o: nat, k: nat)
    requires PhysOk(x, roots) && o in roots && k <= |x.mem| && |x.mem| <= 0xC_0000
    requires IdentityBelow(x.mem, roots[o], k) && SpaceOf(x.mem, roots[o]) == map[]
    requires Rows(x.mem, roots[o], Tables(k))
    ensures var r, n := MapKernel(x, o, roots[o], k), Tables(|x.mem|) - Tables(k);
      && (r.Halt? <==> |x.free| < n) && r != Fault && n >= 0
      && (r.Go? ==> |r.value.free| == |x.free| - n && Rows(r.value.mem, roots[o], Tables(|x.mem|)))
    decreases |x.mem| - k
  {
    hide PhysOk, MapPage, SpaceOf, IdentityBelow, Rows, Tables, Leaf;
    if k < |x.mem| {
      ShapeIs(x, roots);
      MapKernelStep(x, roots, o, k);
      PageCost(x, roots, o, k);
      NextRow(k);
      var q := MapPage(x, o, roots[o], k / 1024, k % 1024, k, RWX);
      if q.Go? {
        KernelRow(x, roots, o, k);
        MapKernelCost(q.value, roots, o, k + 1);
      } else {
        TablesGrow(k + 1, |x.mem|);
      }
    }
  }

  lemma TablesGrow(k: nat, n: nat)
    requires k <= n
    ensures Tables(k) <= Tables(n)
  {
  }

  lemma PageCost(x: Phys, roots: map<nat, nat>, o: nat, k: nat)
    requires PhysOk(x, roots) && o in roots && k < |x.mem| <= 0xC_0000 && Rows(x.mem, roots[o], Tables(k))
    ensures var r, n := MapPage(x, o, roots[o], k / 1024, k % 1024, k, RWX), Tables(k + 1) - Tables(k);
      && r != Fault && (r.Halt? <==> |x.free| < n) && (r.Go? ==> |r.value.free| == |x.free| - n)
  {
    hide FreeOk, TableOk, Leaf, LeafOk, UserMode, MapPage, Valid;
    NextRow(k);
    KernelEntryOk(x.role, o, k / 1024, k % 1024, k, RWX);
    MapPageOk(x, roots, o, k / 1024, k % 1024, k, RWX);
  }

  // ---- an image ----

  /** The entries of the root that lead to second-level tables. */
  ghost function RowsOf(m: Memory, root: nat): set<nat> { set i | 0 <= i < 1024 && root < |m| && Valid(m[root][i]) }

  /** The root entries that pages `k` and on of a segment need. */
  function SegmentRows(g: Segment, k: nat): set<nat>
    decreases PageCount(g) - k
  {
    if k >= PageCount(g) then {} else {PageNumber(g, k) / 1024} + SegmentRows(g, k + 1)
  }

  /** Those that the segments from header `h` on need. */
  function ImageRows(file: seq<Byte>, h: nat): set<nat>
    decreases SegmentCount(file) - h
  {
    if h >= SegmentCount(file) then {} else SegmentRows(SegmentAt(file, h), 0) + ImageRows(file, h + 1)
  }

  /** What it costs to need the rows `i` on top of the rows there are, besides `n` pages. */
  ghost predicate Costs(x: Phys, r: Outcome<Phys>, root: nat, n: nat, i: set<nat>) {
    var rows := RowsOf(x.mem, root);
    && (r.Halt? <==> |x.free| < n + |rows + i| - |rows|)
    && (r.Go? ==> |r.value.free| == |x.free| - (n + |rows + i| - |rows|) && RowsOf(r.value.mem, root) == rows + i)
  }

  function Memories<T>(r: Outcome<(Phys, T)>): Outcome<Phys> { match r case Go((y, _)) => Go(y) case Halt => Halt case Fault => Fault }

  lemma MoreRows(a: set<nat>, i: set<nat>, j: set<nat>)
    ensures |a| <= |a + i| <= |a + (i + j)| && a + (i + j) == (a + i) + j
  {
    SubsetCard(a, a + i);
    SubsetCard(a + i, a + (i + j));
  }

  lemma OneRow(a: set<nat>, k: nat)
    ensures |a + {k}| == |a| + if k in a then 0 else 1
  {
    if k in a { assert a + {k} == a; }
  }

  lemma {:induction false} SubsetCard(a: set<nat>, b: set<nat>)
    requires a <= b
    ensures |a| <= |b|
  {
    assert b == a + (b - a);
  }

  /** One page and then more. */
  lemma CostsThen(x: Phys, y: Phys, r: Outcome<Phys>, root: nat, n: nat, i: set<nat>, m: nat, j: set<nat>)
    requires Costs(x, Go(y), root, n, i) && Costs(y, r, root, m, j)
    ensures Costs(x, r, root, n + m, i + j)
  {
    MoreRows(RowsOf(x.mem, root), i, j);
    hide RowsOf;
  }

  lemma CostsHalt(x: Phys, root: nat, n: nat, i: set<nat>, m: nat, j: set<nat>)
    requires Costs(x, Halt, root, n, i)
    ensures Costs(x, Halt, root, n + m, i + j)
  {
    MoreRows(RowsOf(x.mem, root), i, j);
    hide RowsOf;
  }

  lemma RowSet(m: Memory, m': Memory, root: nat, i: nat)
    requires root < |m| == |m'| && i < 1024 && Valid(m'[root][i])
    requires forall r :: 0 <= r < 1024 && r != i ==> m'[root][r] == m[root][r]
    ensures RowsOf(m', root) == RowsOf(m, root) + {i}
    ensures i in RowsOf(m, root) <==> Valid(m[root][i])
  {
    hide Valid;
  }

  /** A mapping costs a page exactly if there is no second-level table yet. */
  lemma MapCost(x: Phys, roots: map<nat, nat>, o: nat, i: nat, j: nat, p: nat, flags: nat)
    requires PhysOk(x, roots) && o in roots && i < 1024 && j < 1024 && p < |x.mem| && flags < 1024
    requires Valid(Entry(p, flags)) && LeafOk(x.role, o, i, j, Entry(p, flags))
    requires x.role[p] == Free ==> !UserMode(Entry(p, flags))
    ensures Costs(x, MapPage(x, o, roots[o], i, j, p, flags), roots[o], 0, {i})
  {
    hide PhysOk, MapPage, LeafOk, Valid, UserMode, Grows, OneLeafSet, SameLeaves, RowsOf, Leaf;
    MapPageOk(x, roots, o, i, j, p, flags);
    OneRow(RowsOf(x.mem, roots[o]), i);
    InRange(x, roots, o);
    RowThere(x.mem, roots[o], i);
    var r := MapPage(x, o, roots[o], i, j, p, flags);
    if r.Go? {
      MapPageRoot(x, roots, o, i, j, p, flags);
      RowSet(x.mem, r.value.mem, roots[o], i);
    }
  }

  lemma RowThere(m: Memory, root: nat, i: nat)
    requires root < |m| && i < 1024
    ensures i in RowsOf(m, root) <==> Valid(m[root][i])
  {
    hide Valid;
  }

  /** A page taken from the list costs one, and its new contents are nobody's root entries. */
  lemma AllocCost(x: Phys, y: Phys, z: Phys, roots: map<nat, nat>, o: nat, r: Role, p: nat)
    requires PhysOk(x, roots) && o in roots && r != Free && Alloc(x, r) == Go((y, p))
    requires z.free == y.free && |z.mem| == |y.mem| && forall q :: 0 <= q < |y.mem| && q != p ==> z.mem[q] == y.mem[q]
    ensures Costs(x, Go(z), roots[o], 1, {})
  {
    hide PhysOk;
    InRange(x, roots, o);
    RootNotFirst(x, roots, o);
    assert z.mem[roots[o]] == x.mem[roots[o]];
    var rows := RowsOf(x.mem, roots[o]);
    assert RowsOf(z.mem, roots[o]) == rows == rows + {};
  }

  lemma NoneCost(x: Phys, root: nat)
    requires x.free == []
    ensures Costs(x, Halt, root, 1, {})
  {
    assert RowsOf(x.mem, root) + {} == RowsOf(x.mem, root);
    hide RowsOf;
  }

  /** LoadPage step by step. */
  lemma LoadPageStages(x: Phys, root: nat, o: nat, file: seq<Byte>, g: Segment, k: nat)
    ensures var v := PageNumber(g, k);
      && (Alloc(x, User(o, v / 1024, v % 1024)).Halt? ==> LoadPage(x, o, root, file, g, k) == Halt)
      && (Alloc(x, User(o, v / 1024, v % 1024)).Go? ==>
           var (y, p) := Alloc(x, User(o, v / 1024, v % 1024)).value;
           p < |y.mem| ==>
             var z := Phys(y.mem[p := PageImage(file, g, k)], y.free, y.role, y.satp);
             Memories(LoadPage(x, o, root, file, g, k)) == MapPage(z, o, root, v / 1024, v % 1024, p, RWXU))
  {
    hide Alloc, MapPage, PageImage, PageNumber;
  }

  lemma LoadPageCost(x: Phys, roots: map<nat, nat>, o: nat, file: seq<Byte>, g: Segment, k: nat)
    requires PhysOk(x, roots) && o in roots && InUserSpace(g) && 4096 * k < g.memsz
    ensures Costs(x, Memories(LoadPage(x, o, roots[o], file, g, k)), roots[o], 1, {PageNumber(g, k) / 1024})
  {
    hide PhysOk, PageImage, PageNumber, InUserSpace, Leaf, MapPage, SameLeaves, LeafOk, Valid, UserMode, Grows, Costs,
         RowsOf, LoadPage, Alloc;
    LoadPageStages(x, roots[o], o, file, g, k);
    ShapeIs(x, roots);
    var v := PageNumber(g, k);
    var i, j := v / 1024, v % 1024;
    PageIndices(g, k);
    AllocOk(x, roots, User(o, i, j), o);
    if x.free == [] {
      NoneCost(x, roots[o]);
      CostsHalt(x, roots[o], 1, {}, 0, {i});
    } else {
      var (y, p) := Alloc(x, User(o, i, j)).value;
      var f := PageImage(file, g, k);
      FillUserPage(y, roots, p, f);
      var z := Phys(y.mem[p := f], y.free, y.role, y.satp);
      ShapeIs(z, roots);
      UserEntryOk(z.role, o, i, j, p, RWXU);
      AllocCost(x, y, z, roots, o, User(o, i, j), p);
      MapCost(z, roots, o, i, j, p, RWXU);
      CostsThen(x, z, MapPage(z, o, roots[o], i, j, p, RWXU), roots[o], 1, {}, 0, {i});
    }
    assert {} + {i} == {i};
  }

  /** The pages of a segment: each costs one, and each second-level table that is not there yet another. */
  lemma {:induction false} LoadPagesCost(x: Phys, roots: map<nat, nat>, o: nat, file: seq<Byte>, g: Segment, k: nat)
    requires PhysOk(x, roots) && o in roots && InUserSpace(g) && k <= PageCount(g)
    ensures Costs(x, Memories(LoadPages(x, o, roots[o], file, g, k)), roots[o], PageCount(g) - k, SegmentRows(g, k))
    decreases PageCount(g) - k
  {
    hide PhysOk, Gained, SpaceOf, LoadPage, InUserSpace, PageCount, PageNumber, PageImage, Costs;
    if k < PageCount(g) {
      PageCountBound(g, k);
      LoadPageOk(x, roots, o, file, g, k);
      LoadPageCost(x, roots, o, file, g, k);
      var q := LoadPage(x, o, roots[o], file, g, k);
      if q.Go? {
        LoadPagesCost(q.value.0, roots, o, file, g, k + 1);
        CostsThen(x, q.value.0, Memories(LoadPages(q.value.0, o, roots[o], file, g, k + 1)), roots[o],
                  1, {PageNumber(g, k) / 1024}, PageCount(g) - k - 1, SegmentRows(g, k + 1));
      } else {
        CostsHalt(x, roots[o], 1, {PageNumber(g, k) / 1024}, PageCount(g) - k - 1, SegmentRows(g, k + 1));
      }
    } else {
      NothingCosts(x, roots[o]);
    }
  }

  lemma NothingCosts(x: Phys, root: nat)
    ensures Costs(x, Go(x), root, 0, {})
  {
    assert RowsOf(x.mem, root) + {} == RowsOf(x.mem, root);
    hide RowsOf;
  }

  lemma {:induction false} LoadSegmentsCost(x: Phys, roots: map<nat, nat>, o: nat, file: seq<Byte>, h: nat)
    requires PhysOk(x, roots) && o in roots && ImageOk(file)
    ensures Costs(x, Memories(LoadSegments(x, o, roots[o], file, h)), roots[o], ImagePages(file, h), ImageRows(file, h))
    decreases SegmentCount(file) - h
  {
    hide PhysOk, Gained, SpaceOf, LoadPages, SegmentAt, SegmentCount, PageCount, InUserSpace, Costs, SegmentRows;
    if h < SegmentCount(file) {
      var g := SegmentAt(file, h);
      LoadPagesOk(x, roots, o, file, g, 0);
      LoadPagesCost(x, roots, o, file, g, 0);
      var q := LoadPages(x, o, roots[o], file, g, 0);
      if q.Go? {
        LoadSegmentsCost(q.value.0, roots, o, file, h + 1);
        CostsThen(x, q.value.0, Memories(LoadSegments(q.value.0, o, roots[o], file, h + 1)), roots[o],
                  PageCount(g), SegmentRows(g, 0), ImagePages(file, h + 1), ImageRows(file, h + 1));
      } else {
        CostsHalt(x, roots[o], PageCount(g), SegmentRows(g, 0), ImagePages(file, h + 1), ImageRows(file, h + 1));
      }
    } else {
      NothingCosts(x, roots[o]);
    }
  }

  // ---- a process ----

  /** Root, trap frame and identity map. */
  lemma BuildStartCost(x: Phys, roots: map<nat, nat>, o: nat, kstack: Word)
    requires PhysOk(x, roots) && o !in roots && |x.mem| <= 0xC_0000
    ensures var r, n := BuildStart(x, o, kstack), 2 + Tables(|x.mem|);
      && (r.Go? <==> |x.free| >= n)
      && (r.Go? ==> |r.value.0.free| == |x.free| - n && Rows(r.value.0.mem, r.value.1, Tables(|x.mem|)))
  {
    hide PhysOk, SpaceOf, IdentityBelow, Tables, Leaf, Grows, SameLeaves, Valid, MapKernel;
    AllocOk(x, roots, Root(o), o);
    if x.free != [] {
      var x1, root, all := NewTable(x, roots, o);
      EmptySpace(x1.mem, root);
      AllocOk(x1, all, TrapFrame(o), o);
      if x1.free != [] {
        var x4, tf := StartFrame(x1, all, o, kstack);
        FrameElsewhere(x1, x4, all, o, tf, kstack);
        Unfilled(x4.mem, root);
        MapKernelCost(x4, all, o, 0);
      }
    }
  }

  lemma Unfilled(m: Memory, root: nat)
    requires root < |m| && forall k :: 0 <= k < 1024 ==> !Valid(m[root][k])
    ensures Rows(m, root, Tables(0)) && IdentityBelow(m, root, 0) && Tables(0) == 0
  {
    hide Valid;
  }

  lemma FrameElsewhere(x1: Phys, x4: Phys, all: map<nat, nat>, o: nat, tf: nat, kstack: Word)
    requires PhysOk(x1, all) && o in all && Alloc(x1, TrapFrame(o)).Go? && Alloc(x1, TrapFrame(o)).value.1 == tf
    requires Poke(Alloc(x1, TrapFrame(o)).value.0, tf, TF_SP, kstack).Go?
    requires Poke(Poke(Alloc(x1, TrapFrame(o)).value.0, tf, TF_SP, kstack).value, tf, TF_HANDLER, USER_TRAP) == Go(x4)
    requires tf < |x1.mem| && x1.role[tf] == Free
    ensures |x4.mem| == |x1.mem| && all[o] < |x1.mem| && x4.mem[all[o]] == x1.mem[all[o]]
    ensures |x4.free| == |x1.free| - 1
  {
    Traps.RootRole(x1, all, o);
    hide PhysOk;
  }

  lemma LoadCost(x: Phys, y: Phys, all: map<nat, nat>, o: nat, tf: nat, file: seq<Byte>)
    requires Started(x, y, all, o, tf) && ImageOk(file)
    ensures Costs(y, Memories(BuildLoad(y, o, all[o], tf, file)), all[o], ImagePages(file, 0), ImageRows(file, 0) + {1023})
  {
    hide PhysOk, SpaceOf, Leaf, LoadSegments, MapPage, ImagePages, Started, Grows, UpperOnly, LeafOk, Valid, UserMode,
         ImageOk, Costs, ImageRows;
    StartedPoke(x, y, all, o, tf, TF_EPC, EntryPoint(file));
    var x6 := Poke(y, tf, TF_EPC, EntryPoint(file)).value;
    StartedPhys(x, x6, all, o, tf);
    LoadSegmentsOk(x6, all, o, file, 0);
    LoadSegmentsCost(x6, all, o, file, 0);
    RootStays(x, y, all, o, tf, TF_EPC, EntryPoint(file));
    var q := LoadSegments(x6, o, all[o], file, 0);
    if q.Go? {
      var x7 := q.value.0;
      StartedGrow(x, x6, x7, all, o, tf) by { GainedUpper(x6, x7, all, o, q.value.1); }
      StartedPhys(x, x7, all, o, tf);
      FrameRole(x, x7, all, o, tf);
      KernelEntryOk(x7.role, o, 1023, 1023, tf, RW);
      MapCost(x7, all, o, 1023, 1023, tf, RW);
      CostsThen(x6, x7, MapPage(x7, o, all[o], 1023, 1023, tf, RW), all[o], ImagePages(file, 0), ImageRows(file, 0), 0, {1023});
    } else {
      CostsHalt(x6, all[o], ImagePages(file, 0), ImageRows(file, 0), 0, {1023});
    }
    CostsSame(y, x6, Memories(BuildLoad(y, o, all[o], tf, file)), all[o], ImagePages(file, 0), ImageRows(file, 0) + {1023});
  }

  lemma FrameRole(x: Phys, y: Phys, all: map<nat, nat>, o: nat, tf: nat)
    requires Started(x, y, all, o, tf)
    ensures tf < |y.role| && y.role[tf].TrapFrame?
  {
    hide PhysOk, Leaf, IdentityOk, OthersSame;
  }

  lemma CostsSame(x: Phys, y: Phys, r: Outcome<Phys>, root: nat, n: nat, i: set<nat>)
    requires x.free == y.free && RowsOf(x.mem, root) == RowsOf(y.mem, root) && Costs(y, r, root, n, i)
    ensures Costs(x, r, root, n, i)
  {
    hide RowsOf;
  }

  /** A store to the trap frame is not one to the root. */
  lemma RootStays(x: Phys, y: Phys, all: map<nat, nat>, o: nat, tf: nat, k: nat, w: Word)
    requires Started(x, y, all, o, tf) && k < 1024
    ensures var z := Poke(y, tf, k, w);
      z.Go? && z.value.free == y.free && RowsOf(z.value.mem, all[o]) == RowsOf(y.mem, all[o])
  {
    hide SpaceOf, Leaf, IdentityOk, OthersSame, Grows;
    StartedPoke(x, y, all, o, tf, k, w);
    Traps.RootRole(y, all, o);
    hide PhysOk;
  }

  lemma GainedUpper(x: Phys, y: Phys, roots: map<nat, nat>, o: nat, s: set<nat>)
    requires Gained(x, y, roots, o, s)
    ensures PhysOk(y, roots) && ShapeOk(x) && Grows(x, y, o) && UpperOnly(x.mem, y.mem, roots, o)
  {
    hide PhysOk, Leaf;
  }

  /** The stack page; the second-level table is there since VA_TRAPFRAME was mapped. */
  lemma StackCost(x: Phys, z: Phys, all: map<nat, nat>, o: nat, tf: nat)
    requires Started(x, z, all, o, tf)
    ensures Costs(z, Memories(BuildStack(z, o, all[o], tf)), all[o], 1, {1023})
  {
    hide PhysOk, SpaceOf, Leaf, MapPage, Started, Grows, LeafOk, Valid, UserMode, SameLeaves, Costs;
    StartedPhys(x, z, all, o, tf);
    AllocOk(z, all, User(o, 1023, 1022), o);
    if z.free == [] {
      NoneCost(z, all[o]);
      CostsHalt(z, all[o], 1, {}, 0, {1023});
    } else {
      var (x9, stack) := Alloc(z, User(o, 1023, 1022)).value;
      FrameStays(x, z, x9, all, o, tf);
      var f := x9.mem[tf][TF_REGS + SP := STACK_TOP];
      var x10 := Poke(x9, tf, TF_REGS + SP, STACK_TOP).value;
      FillUserPage(x9, all, tf, f);
      ShapeIs(x10, all);
      UserEntryOk(x10.role, o, 1023, 1022, stack, RWXU);
      MapCost(x10, all, o, 1023, 1022, stack, RWXU);
      AllocCost(z, x9, x9, all, o, User(o, 1023, 1022), stack);
      SameRoot(x9, x10, all, o, tf);
      CostsSame(x9, x10, MapPage(x10, o, all[o], 1023, 1022, stack, RWXU), all[o], 0, {1023});
      CostsThen(z, x9, MapPage(x10, o, all[o], 1023, 1022, stack, RWXU), all[o], 1, {}, 0, {1023});
    }
    assert {} + {1023} == {1023};
  }

  lemma SameRoot(x: Phys, y: Phys, all: map<nat, nat>, o: nat, tf: nat)
    requires PhysOk(x, all) && o in all && tf < |x.mem| && tf < |x.role| && x.role[tf].TrapFrame?
    requires |y.mem| == |x.mem| && forall q :: 0 <= q < |x.mem| && q != tf ==> y.mem[q] == x.mem[q]
    ensures RowsOf(x.mem, all[o]) == RowsOf(y.mem, all[o])
  {
    InRange(x, all, o);
    Traps.RootRole(x, all, o);
    hide PhysOk;
  }

  lemma FrameStays(x: Phys, z: Phys, x9: Phys, all: map<nat, nat>, o: nat, tf: nat)
    requires Started(x, z, all, o, tf) && ShapeOk(z) && Grows(z, x9, o)
    ensures tf < |x9.mem| && tf < |x9.role| && x9.role[tf].TrapFrame?
  {
    hide PhysOk, Leaf, IdentityOk, OthersSame;
  }

  /** The price of a process with this image, in a machine of `n` pages: root and trap frame, the tables of the identity map,
      the image and the stack page, and the second-level tables above. */
  function Price(n: nat, file: seq<Byte>): nat {
    2 + Tables(n) + ImagePages(file, 0) + 1 + |ImageRows(file, 0) + {1023}|
  }

  lemma {:induction false} SegmentRowsHigh(g: Segment, k: nat)
    requires InUserSpace(g)
    ensures forall i :: i in SegmentRows(g, k) ==> 768 <= i < 1024
    decreases PageCount(g) - k
  {
    hide PageNumber, InUserSpace, PageCount;
    if k < PageCount(g) {
      PageCountBound(g, k);
      PageIndices(g, k);
      SegmentRowsHigh(g, k + 1);
    }
  }

  lemma {:induction false} ImageRowsHigh(file: seq<Byte>, h: nat)
    requires ImageOk(file)
    ensures forall i :: i in ImageRows(file, h) ==> 768 <= i < 1024
    decreases SegmentCount(file) - h
  {
    hide SegmentAt, SegmentCount, SegmentRows, InUserSpace;
    if h < SegmentCount(file) {
      SegmentRowsHigh(SegmentAt(file, h), 0);
      ImageRowsHigh(file, h + 1);
    }
  }

  /** The identity map's rows are none of the image's. */
  lemma PriceOfRows(x: Phys, root: nat, file: seq<Byte>)
    requires ImageOk(file) && |x.mem| <= 0xC_0000 && Rows(x.mem, root, Tables(|x.mem|))
    ensures var rows, i := RowsOf(x.mem, root), ImageRows(file, 0) + {1023}; |rows + i| == |rows| + |i|
  {
    hide ImageOk, ImageRows, Valid;
    ImageRowsHigh(file, 0);
    assert RowsOf(x.mem, root) !! ImageRows(file, 0) + {1023};
  }

  /** Building a process image halts exactly when there are fewer free pages than its price, and takes just that many. */
  lemma BuildImageCost(x: Phys, roots: map<nat, nat>, o: nat, kstack: Word, file: seq<Byte>)
    requires PhysOk(x, roots) && o !in roots && ImageOk(file)
    ensures var r := BuildImage(x, o, kstack, file);
      && r != Fault && (r.Halt? <==> |x.free| < Price(|x.mem|, file))
      && (r.Go? ==> |r.value.x.free| == |x.free| - Price(|x.mem|, file))
  {
    hide PhysOk, Started, BuildStart, BuildLoad, BuildStack, BuildImage, ImagePages, ImageOk, Tables, RowsOf, ImageRows,
         Rows, SpaceOf, Leaf, Grows;
    ShapeIs(x, roots);
    BuildStages(x, o, kstack, file);
    BuildStartOk(x, roots, o, kstack);
    BuildStartCost(x, roots, o, kstack);
    if BuildStart(x, o, kstack).Go? {
      var (y, root, tf) := BuildStart(x, o, kstack).value;
      var all: map<nat, nat> := roots[o := root];
      StartedPhys(x, y, all, o, tf);
      assert |y.mem| == |x.mem| by { GrowsSize(x, y, o); }
      RestCost(x, y, all, o, tf, file);
    }
  }

  lemma GrowsSize(x: Phys, y: Phys, o: nat)
    requires ShapeOk(x) && Grows(x, y, o)
    ensures |y.mem| == |x.mem|
  {
  }

  lemma RestCost(x: Phys, y: Phys, all: map<nat, nat>, o: nat, tf: nat, file: seq<Byte>)
    requires Started(x, y, all, o, tf) && ImageOk(file) && |y.mem| <= 0xC_0000 && Rows(y.mem, all[o], Tables(|y.mem|))
    ensures var n := ImagePages(file, 0) + 1 + |ImageRows(file, 0) + {1023}|;
      var r := BuildLoad(y, o, all[o], tf, file);
      && r != Fault && (r.Halt? ==> |y.free| < n)
      && (r.Go? ==>
        var q := BuildStack(r.value.0, o, all[o], tf);
        && q != Fault && (q.Halt? <==> |y.free| < n) && (q.Go? ==> |q.value.0.free| == |y.free| - n))
  {
    hide PhysOk, Started, BuildLoad, BuildStack, ImagePages, ImageOk, Tables, RowsOf, ImageRows, Rows, SpaceOf, Leaf,
         Grows;
    StartedPhys(x, y, all, o, tf);
    LoadCost(x, y, all, o, tf, file);
    BuildLoadOk(x, y, all, o, tf, file);
    PriceOfRows(y, all[o], file);
    var rows, i := RowsOf(y.mem, all[o]), ImageRows(file, 0) + {1023};
    var r := BuildLoad(y, o, all[o], tf, file);
    if r.Go? {
      var z := r.value.0;
      StackCost(x, z, all, o, tf);
      BuildStackOk(x, z, all, o, tf);
      assert (rows + i) + {1023} == rows + i;
    }
  }
}
