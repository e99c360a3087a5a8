/**
 sbrk: one zeroed page at the heap break, which can reach neither the stack nor
 the trap frame because every page below it has been paid for.
 */
module Growing {
  import opened Sv32
  import opened Pages
  import opened PageTables
  import opened Spaces
  import opened Images
  import opened Processes
  import opened Building
  import opened Machine
  import opened AbstractOs
  import opened Invariant
  import opened Traps

  /** The heap break of every slot stays clear of the stack page while a page is left to give out. */
  lemma BreakInRange(s: State, o: nat)
    requires Core(s) && o < 8
    ensures s.procs[o].heap % 4096 == 0 && USER_BASE <= s.procs[o].heap
    ensures s.procs[o].heap / 4096 + |s.x.free| <= STACK_PAGE
    ensures HeapPages(s.procs[o]) == s.procs[o].heap / 4096 - USER_BASE / 4096
  {
    hide TableOk, SlotsOk, HeapSum;
    assert FreeOk(s.x) by { FreeView(s.x, View(s)); }
    HeapBound(s.x, s.ramBegin, s.procs, s.burned);
    HeapSumBound(s.procs, o, 0);
  }

  lemma FreeView(x: Phys, y: Phys)
    requires FreeOk(y) && x.mem == y.mem && x.free == y.free && x.role == y.role
    ensures FreeOk(x)
  {
    forall k | 0 <= k < |x.free| ensures LinkedAt(x, k) { assert LinkedAt(y, k); }
    forall p | 0 <= p < |x.role| && x.role[p] == Free ensures Listed(x.free, p) { assert Listed(y.free, p); }
  }

  lemma HeapGrow(x: Phys, y: Phys, ramBegin: nat, procs: ProcTable, burned: set<nat>, o: nat, q: Proc, page: nat)
    requires HeapOk(x, ramBegin, procs, burned) && o < 8 && Live(procs, o) && q == procs[o].(heap := q.heap)
    requires q.heap == procs[o].heap + 4096
    requires |y.role| == |y.mem| == |x.mem|
    requires forall p :: 0 <= p < |x.role| && x.role[p] != Free ==> y.role[p] == x.role[p]
    requires page < |x.role| && x.role[page] == Free && y.role[page].User?
    requires forall b :: 0 <= b < 8 && Live(procs, b) ==> procs[b].userStack != page
    ensures HeapOk(y, ramBegin, procs[o := q], burned + {page})
  {
    hide HeapSum, HeapPages;
    HeapSumUpdate(procs, o, q, 0);
    OnePageMore(procs[o], q);
    forall p | p in burned ensures Burned(y, p) && p != page { assert Burned(x, p); }
    assert Burned(y, page);
    var t := procs[o := q];
    assert forall b :: 0 <= b < 8 ==> t[b].heap >= USER_BASE && t[b].heap % 4096 == 0;
    assert |burned + {page}| == |burned| + 1;
  }

  lemma OnePageMore(p: Proc, q: Proc)
    requires USER_BASE <= p.heap && q.heap == p.heap + 4096
    ensures HeapPages(q) == HeapPages(p) + 1
  {
  }

  /** The page lands at the heap break and nowhere else. */
  lemma AddPageMemory(x: Phys, roots: map<nat, nat>, o: nat, p: Proc, i: nat, j: nat)
    requires PhysOk(x, roots) && o in roots && roots[o] == p.pagetable && SlotOk(x, p, o)
    requires 768 <= i < 1024 && j < 1024 && (i, j) != (1023, 1022) && (i, j) != (1023, 1023) && x.free != []
    ensures Alloc(x, User(o, i, j)).Go?
    ensures var (x1, page) := Alloc(x, User(o, i, j)).value;
      var q := MapPage(x1, o, p.pagetable, i, j, page, RWU);
      && q != Fault && ShapeOk(x)
      && (q.Go? ==>
        && PhysOk(q.value, roots) && Grows(x, q.value, o) && SlotOk(q.value, p, o)
        && page < |x.role| && x.role[page] == Free && q.value.role[page].User?
        && FrameAt(q.value.mem, p.trapframe) == FrameAt(x.mem, p.trapframe)
        && SpaceOf(q.value.mem, p.pagetable) == SpaceOf(x.mem, p.pagetable)[1024 * i + j := Page(RWU, Zero())])
  {
    hide FreeOk, TableOk, Leaf, SpaceOf, LeafOk, Valid, UserMode, MapPage, IdentityOk, SameLeaves, OneLeafSet, SlotOk,
         Alloc;
    AllocOk(x, roots, User(o, i, j), o);
    var (x1, page) := Alloc(x, User(o, i, j)).value;
    UserEntryOk(x1.role, o, i, j, page, RWU);
    MapPageOk(x1, roots, o, i, j, page, RWU);
    var q := MapPage(x1, o, p.pagetable, i, j, page, RWU);
    if q.Go? { AddedPage(x, x1, q.value, roots, o, p, i, j, page); }
  }

  lemma AddedPage(x: Phys, x1: Phys, y: Phys, roots: map<nat, nat>, o: nat, p: Proc, i: nat, j: nat, page: nat)
    requires PhysOk(x, roots) && o in roots && roots[o] == p.pagetable && SlotOk(x, p, o)
    requires 768 <= i < 1024 && j < 1024 && (i, j) != (1023, 1022) && (i, j) != (1023, 1023)
    requires page < |x.mem| == |x.role| == |x1.role| && x.role[page] == Free && x1.role[page] == User(o, i, j)
    requires PhysOk(x1, roots) && Grows(x, x1, o) && SameLeaves(x.mem, x1.mem, roots) && x1.mem == x.mem[page := Zero()]
    requires PhysOk(y, roots) && Grows(x1, y, o) && OneLeafSet(x1.mem, y.mem, roots, o, i, j, Entry(page, RWU))
    ensures ShapeOk(x) && Grows(x, y, o) && SlotOk(y, p, o) && y.role[page].User?
    ensures FrameAt(y.mem, p.trapframe) == FrameAt(x.mem, p.trapframe)
    ensures SpaceOf(y.mem, p.pagetable) == SpaceOf(x.mem, p.pagetable)[1024 * i + j := Page(RWU, Zero())]
  {
    hide FreeOk, TableOk, Leaf, SpaceOf, SlotOk;
    GrowsTrans(x, x1, y, o);
    SpaceFrame(x, x1.mem, roots, o);
    SpaceMapUser(x1, y, roots, o, i, j, Entry(page, RWU));
    SlotOtherLeaf(x, x1, y, roots, o, p, i, j, Entry(page, RWU));
  }

  lemma SlotOtherLeaf(x: Phys, x1: Phys, y: Phys, roots: map<nat, nat>, o: nat, p: Proc, i: nat, j: nat, e: Word)
    requires SlotOk(x, p, o) && o in roots && roots[o] == p.pagetable && ShapeOk(x) && Grows(x, y, o)
    requires 768 <= i < 1024 && j < 1024 && (i, j) != (1023, 1022) && (i, j) != (1023, 1023)
    requires SameLeaves(x.mem, x1.mem, roots) && OneLeafSet(x1.mem, y.mem, roots, o, i, j, e)
    ensures SlotOk(y, p, o) && FrameAt(y.mem, p.trapframe) == FrameAt(x.mem, p.trapframe)
  {
    hide Leaf;
  }

  lemma AddPageOk(s: State)
    requires KernelInv(s)
    ensures AddPage(s) != Fault && Abs(s).Runs()
    ensures AddPage(s).Go? ==>
      KernelInv(AddPage(s).value) && Abs(AddPage(s).value) == AGrow(Abs(s)) && s.cur < 8 &&
        s.procs[s.cur].heap + 4096 < 0x1_0000_0000
  {
    hide TableOk, FreeOk, IdentityOk, Leaf, SpaceOf, PhysOk, SlotOk, SlotsOk, HeapOk, MapPage, Alloc, Resumable, AGrow;
    RunningFacts(s);
    BreakInRange(s, s.cur);
    var p := s.procs[s.cur];
    var roots := Roots(s.procs, s.kroot);
    var i, j := p.heap / 0x40_0000, (p.heap / 4096) % 1024;
    if s.x.free == [] {
      AllocOk(s.x, roots, User(s.cur, i, j), s.cur);
    } else {
      BreakIndex(p.heap);
      AddPageMemory(s.x, roots, s.cur, p, i, j);
      if AddPage(s).Go? { AddPageStep(s, AddPage(s).value); }
    }
  }

  lemma BreakIndex(h: Word)
    requires USER_BASE <= h && h / 4096 < STACK_PAGE && h % 4096 == 0
    ensures 768 <= h / 0x40_0000 < 1024 && 1024 * (h / 0x40_0000) + (h / 4096) % 1024 == h / 4096
    ensures (h / 0x40_0000, (h / 4096) % 1024) != (1023, 1022) && (h / 0x40_0000, (h / 4096) % 1024) != (1023, 1023)
    ensures h + 4096 < 0x1_0000_0000
  {
  }

  lemma AddPageStep(s: State, t: State)
    requires KernelInv(s) && s.cur < 8 && AddPage(s) == Go(t)
    requires s.procs[s.cur].heap + 4096 < 0x1_0000_0000
    requires var p := s.procs[s.cur];
      && PhysOk(t.x, Roots(s.procs, s.kroot)) && ShapeOk(s.x) && Grows(s.x, t.x, s.cur) && SlotOk(t.x, p, s.cur)
      && FrameAt(t.x.mem, p.trapframe) == FrameAt(s.x.mem, p.trapframe)
      && SpaceOf(t.x.mem, p.pagetable) == SpaceOf(s.x.mem, p.pagetable)[p.heap / 4096 := Page(RWU, Zero())]
    requires exists page ::
      (t.burned == s.burned + {page} && page < |s.x.role| && s.x.role[page] == Free && t.x.role[page].User?)
    ensures KernelInv(t) && Abs(s).Runs() && Abs(t) == AGrow(Abs(s))
  {
    hide TableOk, FreeOk, IdentityOk, Leaf, SpaceOf, HeapSum, PhysOk, MapPage, Alloc, SlotOk, HeapOk, SlotsOk,
         Resumable;
    RunningFacts(s);
    var p := s.procs[s.cur];
    var q := p.(heap := (p.heap + 4096) % 0x1_0000_0000);
    var page :| t.burned == s.burned + {page} && page < |s.x.role| && s.x.role[page] == Free && t.x.role[page].User?;
    assert t.procs == s.procs[s.cur := q];
    RootsSame(s.procs, s.kroot, s.cur, q);
    forall b | 0 <= b < 8 && Live(s.procs, b) ensures s.procs[b].userStack != page { StackRole(s, b); }
    HeapGrow(s.x, t.x, s.ramBegin, s.procs, s.burned, s.cur, q, page);
    OwnGrow(s, t);
    SlotHeap(t.x, p, q, s.cur);
    OwnStep(s, t);
  }

  lemma SlotHeap(x: Phys, p: Proc, q: Proc, o: nat)
    requires SlotOk(x, p, o) && q == p.(heap := q.heap)
    ensures SlotOk(x, q, o)
  {
    hide IdentityOk, Leaf;
  }

  lemma OwnGrow(s: State, t: State)
    requires ShapeOk(s.x) && Grows(s.x, t.x, s.cur)
    ensures KeepsOthers(s.x, t.x, s.cur)
  {
    forall b | 0 <= b < 8 && b != s.cur ensures Keeps(s.x, t.x, b) { GrowsKeeps(s.x, t.x, s.cur, b); }
  }

  lemma StackRole(s: State, b: nat)
    requires Core(s) && b < 8 && Live(s.procs, b)
    ensures s.procs[b].userStack < |s.x.role| && s.x.role[s.procs[b].userStack] != Free
  {
    hide PhysOk, HeapOk, IdentityOk, Leaf;
  }

  lemma RootsSame(procs: ProcTable, kroot: nat, o: nat, q: Proc)
    requires o < 8 && q.state == procs[o].state && q.pagetable == procs[o].pagetable
    ensures Roots(procs[o := q], kroot) == Roots(procs, kroot)
  {
  }
}
