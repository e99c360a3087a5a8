/**
 fork gives the child the parent's address space, registers and pc, and leaves
 the parent and everybody else as they were.
 */
module Forking {
  import opened Sv32
  import opened Pages
  import opened PageTables
  import opened TableCopy
  import opened Spaces
  import opened Images
  import opened Processes
  import opened Building
  import opened Machine
  import opened AbstractOs
  import opened Invariant
  import opened Traps

  /** The child's table and frame: everything a slot needs, from pages that were free. */
  ghost predicate SpaceCopiedTo(x: Phys, y: Phys, all: map<nat, nat>, o: nat, tf: nat, parentRoot: nat) {
    && PhysOk(y, all) && o in all && ShapeOk(x) && Grows(x, y, o) && ShapeOk(y)
    && tf < |x.role| && x.role[tf] == Free && y.role[tf] == TrapFrame(o)
    && Leaf(y.mem, all[o], 1023, 1023) == Some(Entry(tf, RW))
    && SpaceOf(y.mem, all[o]) == SpaceOf(x.mem, parentRoot)
    && IdentityOk(y.mem, all[o])
    && GetPage(y.mem, all[o], 1023, 1022).Some?
    && var stack := GetPage(y.mem, all[o], 1023, 1022).value;
    && stack < |x.role| && x.role[stack] == Free && y.role[stack] == User(o, 1023, 1022)
    && Leaf(y.mem, all[o], 1023, 1022) == Some(Entry(stack, RWXU))
  }

  /** The kernel mappings of the copy are those of the original. */
  lemma IdentityCopied(m: Memory, s: nat, d: nat)
    requires IdentityOk(m, s)
    requires forall k, l :: 0 <= k < 1024 && 0 <= l < 1024 ==> CopiedAt(m, s, d, k, l)
    ensures IdentityOk(m, d)
  {
    forall i, j | 0 <= i < 1024 && 0 <= j < 1024 && 1024 * i + j < |m|
      ensures Leaf(m, d, i, j) == Some(Entry(1024 * i + j, RWX))
    {
      assert CopiedAt(m, s, d, i, j);
      KernelEntryOk(seq<Role>(|m|, _ => Free), 0, i, j, 1024 * i + j, RWX);
      hide Leaf, UserMode, LeafOk, Valid, PageOf, FlagsOf;
    }
  }

  lemma SameIdentity(x: Phys, y: Phys, roots: map<nat, nat>, o: nat)
    requires o in roots && SameLeaves(x.mem, y.mem, roots) && |y.mem| == |x.mem| && IdentityOk(x.mem, roots[o])
    ensures IdentityOk(y.mem, roots[o])
  {
    hide Leaf;
  }

  lemma UpperIdentity(x: Phys, y: Phys, roots: map<nat, nat>, o: nat)
    requires o in roots && UpperOnly(x.mem, y.mem, roots, o) && |y.mem| == |x.mem| && IdentityOk(x.mem, roots[o])
    ensures IdentityOk(y.mem, roots[o])
  {
    hide Leaf;
  }

  /** The copied stack leaf leads to a fresh stack page of the child's own. */
  lemma StackCopied(x: Phys, y: Phys, roots: map<nat, nat>, b: nat, o: nat, stack: nat)
    requires PhysOk(y, roots) && b in roots && o in roots && stack < 0xC_0000
    requires Leaf(y.mem, roots[b], 1023, 1022) == Some(Entry(stack, RWXU))
    requires CopiedAt(y.mem, roots[b], roots[o], 1023, 1022) && FreshAt(x, y.mem, roots[o], 1023, 1022)
    ensures Leaf(y.mem, roots[o], 1023, 1022).Some?
    ensures var f := Leaf(y.mem, roots[o], 1023, 1022).value;
      && PageOf(f) < |x.role| && x.role[PageOf(f)] == Free && PageOf(f) < |y.role| &&
        y.role[PageOf(f)] == User(o, 1023, 1022)
      && |y.role| <= 0xC_0000 && f == Entry(PageOf(f), RWXU)
  {
    hide Leaf, FreeOk, TableOk, PageOf, FlagsOf, UserMode, Valid, Readable;
    LeafFacts(y, roots, o, 1023, 1022);
    FlagsTwice();
    var f := Leaf(y.mem, roots[o], 1023, 1022).value;
    EntryParts(f);
  }

  lemma FlagsTwice()
    ensures forall e: Word :: FlagsOf(e) == RWXU ==> UserMode(e)
  {
  }

  lemma CopySpaceOk(x: Phys, roots: map<nat, nat>, b: nat, o: nat, p: Proc)
    requires PhysOk(x, roots) && b in roots && o !in roots && roots[b] == p.pagetable && SlotOk(x, p, b)
    ensures CopySpace(x, o, p.pagetable) != Fault
    ensures CopySpace(x, o, p.pagetable).Go? ==>
      var (y, root, tf) := CopySpace(x, o, p.pagetable).value;
      SpaceCopiedTo(x, y, roots[o := root], o, tf, p.pagetable)
  {
    hide FreeOk, TableOk, Leaf, SpaceOf, TableCount, IdentityOk, CopiedAt, FreshAt, Valid, UserMode, LeafOk;
    CopyTableOk(x, roots, b, o);
    var q := CopyTable(x, o, roots[b]);
    if q.Go? {
      var (x1, root) := q.value;
      var all: map<nat, nat> := roots[o := root];
      assert all[b] == roots[b];
      CopiedFacts(x, x1, roots, all, b, o, p);
      AllocOk(x1, all, TrapFrame(o), o);
      var q2 := Alloc(x1, TrapFrame(o));
      if q2.Go? {
        var (x2, tf) := q2.value;
        GrowsTrans(x, x1, x2, o);
        SameIdentity(x1, x2, all, o);
        SpaceFrame(x1, x2.mem, all, o);
        FrameForChild(x, x2, all, o, tf, p.pagetable);
      }
    }
  }

  /** What the copied table has in common with the original. */
  ghost predicate TableCopied(x: Phys, y: Phys, all: map<nat, nat>, o: nat, parentRoot: nat) {
    && PhysOk(y, all) && o in all && ShapeOk(x) && Grows(x, y, o) && ShapeOk(y)
    && SpaceOf(y.mem, all[o]) == SpaceOf(x.mem, parentRoot) && TRAPFRAME_PAGE !in SpaceOf(x.mem, parentRoot)
    && IdentityOk(y.mem, all[o])
    && Leaf(y.mem, all[o], 1023, 1022).Some?
    && var f := Leaf(y.mem, all[o], 1023, 1022).value;
    && PageOf(f) < |x.role| && x.role[PageOf(f)] == Free && y.role[PageOf(f)] == User(o, 1023, 1022)
    && f == Entry(PageOf(f), RWXU)
  }

  lemma CopiedFacts(x: Phys, x1: Phys, roots: map<nat, nat>, all: map<nat, nat>, b: nat, o: nat, p: Proc)
    requires PhysOk(x, roots) && b in roots && o !in roots && roots[b] == p.pagetable && SlotOk(x, p, b)
    requires o in all && b in all && all[b] == p.pagetable && PhysOk(x1, all) && Grows(x, x1, o) &&
      SameLeaves(x.mem, x1.mem, roots)
    requires forall k, l :: 0 <= k < 1024 && 0 <= l < 1024 ==>
      CopiedAt(x1.mem, roots[b], all[o], k, l) && FreshAt(x, x1.mem, all[o], k, l)
    ensures TableCopied(x, x1, all, o, p.pagetable)
  {
    hide FreeOk, TableOk, Leaf, SpaceOf, CopiedAt, FreshAt, Valid, UserMode, LeafOk, PageOf, FlagsOf, IdentityBelow;
    SpaceCopied(x1.mem, p.pagetable, all[o]);
    SpaceFrame(x, x1.mem, roots, b);
    SameIdentity(x, x1, roots, b);
    IdentityCopied(x1.mem, p.pagetable, all[o]);
    StackCopied(x, x1, all, b, o, p.userStack);
    NoTrapFrameInSpace(x, p);
  }

  lemma NoTrapFrameInSpace(x: Phys, p: Proc)
    requires p.trapframe < 0x10_0000 && Leaf(x.mem, p.pagetable, 1023, 1023) == Some(Entry(p.trapframe, RW))
    ensures TRAPFRAME_PAGE !in SpaceOf(x.mem, p.pagetable)
  {
    hide Leaf, PageOf;
    assert !UserMode(Entry(p.trapframe, RW));
  }

  /** The child's own frame behind VA_TRAPFRAME. */
  lemma FrameForChild(x: Phys, x2: Phys, all: map<nat, nat>, o: nat, tf: nat, parentRoot: nat)
    requires TableCopied(x, x2, all, o, parentRoot)
    requires tf < |x.role| && x.role[tf] == Free && x2.role[tf] == TrapFrame(o)
    ensures var q := MapPage(x2, o, all[o], 1023, 1023, tf, RW);
      q != Fault && (q.Go? ==> SpaceCopiedTo(x, q.value, all, o, tf, parentRoot))
  {
    hide FreeOk, TableOk, Leaf, SpaceOf, IdentityBelow, Valid, UserMode, LeafOk, MapPage;
    KernelEntryOk(x2.role, o, 1023, 1023, tf, RW);
    MapPageOk(x2, all, o, 1023, 1023, tf, RW);
    var q := MapPage(x2, o, all[o], 1023, 1023, tf, RW);
    if q.Go? {
      var y := q.value;
      SpaceMapKernel(x2, y, all, o, 1023, 1023, Entry(tf, RW));
      OneIsUpper(x2.mem, y.mem, all, o, 1023, 1023, Entry(tf, RW));
      UpperIdentity(x2, y, all, o);
      GrowsTrans(x, x2, y, o);
      WalkAgrees(y, all, o, 1023, 1022);
    }
  }

  // ---- the whole call ----

  function ChildFrame(f: Frame, kstack: Word): Frame {
    f[TF_SP := kstack][TF_HANDLER := USER_TRAP][TF_REGS + A0 := 0]
  }

  lemma ChildFrameRegs(f: Frame, kstack: Word)
    ensures FrameRegs(ChildFrame(f, kstack)) == FrameRegs(f)[A0 := 0] && ChildFrame(f, kstack)[TF_EPC] == f[TF_EPC]
  {
    FrameWord(f, TF_SP, kstack);
    FrameWord(f[TF_SP := kstack], TF_HANDLER, USER_TRAP);
    FrameWord(f[TF_SP := kstack][TF_HANDLER := USER_TRAP], TF_REGS + A0, 0);
  }

  lemma CopyFrameOk(y: Phys, all: map<nat, nat>, tf: nat, ptf: nat, kstack: Word, pid: Word)
    requires PhysOk(y, all) && tf < |y.role| && ptf < |y.role| && tf != ptf
    requires y.role[tf].TrapFrame? && y.role[ptf].TrapFrame?
    ensures CopyFrame(y, tf, ptf, kstack, pid).Go?
    ensures var z := CopyFrame(y, tf, ptf, kstack, pid).value;
      && FramesOnly(y, z) && PhysOk(z, all) && SameLeaves(y.mem, z.mem, all)
      && z.mem[tf] == ChildFrame(y.mem[ptf], kstack) && z.mem[ptf] == y.mem[ptf][TF_REGS + A0 := pid]
      && forall p :: 0 <= p < |y.mem| && p != tf && p != ptf ==> z.mem[p] == y.mem[p]
  {
    hide FreeOk, TableOk, Leaf;
    var z := CopyFrame(y, tf, ptf, kstack, pid).value;
    FramesOnlyOk(y, z, all);
  }

  lemma {:induction false} FirstFreeSame(s: State, i: nat)
    ensures AFirstFree(Abs(s).procs, i) == FirstUnused(s.procs, i)
    decreases 8 - i
  {
    hide AbsProc;
    if i < 8 { FirstFreeSame(s, i + 1); }
  }

  lemma RootsExtend(procs: ProcTable, kroot: nat, c: nat, p: Proc)
    requires c < 8 && procs[c].state == Unused && p.state == Runnable
    ensures c !in Roots(procs, kroot)
    ensures Roots(procs[c := p], kroot) == Roots(procs, kroot)[c := p.pagetable]
  {
  }

  /** A new slot paid for with free pages keeps the heap accounts. */
  lemma HeapNewSlot(x: Phys, y: Phys, ramBegin: nat, procs: ProcTable, burned: set<nat>, c: nat, p: Proc)
    requires HeapOk(x, ramBegin, procs, burned) && c < 8 && p.heap == procs[c].heap
    requires |y.role| == |y.mem| == |x.mem|
    requires forall q :: 0 <= q < |x.role| && x.role[q] != Free ==> y.role[q] == x.role[q]
    requires p.userStack < |x.role| && x.role[p.userStack] == Free
    ensures HeapOk(y, ramBegin, procs[c := p], burned)
  {
    HeapSumSame(procs, procs[c := p], 0);
    forall q | q in burned ensures Burned(y, q) && q != p.userStack { assert Burned(x, q); }
  }

  lemma ForkOk(s: State)
    requires KernelInv(s)
    ensures Fork(s) != Fault && Abs(s).Runs()
    ensures Fork(s).Go? ==> KernelInv(Fork(s).value) && AFork(Abs(s)) == Some(Abs(Fork(s).value))
  {
    hide FreeOk, TableOk, Leaf, SpaceOf, IdentityOk, SlotsOk, HeapOk, Resumable, SlotOk, PhysOk, CopySpace, CopyFrame;
    RunningFacts(s);
    FirstFreeSame(s, 0);
    var c := FirstUnused(s.procs, 0);
    if c < 8 {
      var parent := s.procs[s.cur];
      var roots := Roots(s.procs, s.kroot);
      RootsExtend(s.procs, s.kroot, c, parent);
      CopySpaceOk(s.x, roots, s.cur, c, parent);
      var q := CopySpace(s.x, c, parent.pagetable);
      if q.Go? {
        var (y, root, tf) := q.value;
        ForkStep(s, c, y, root, tf);
      }
    }
  }

  /** The state after the fork, spelled out: the copied space `y`, with the two trap frames filled in. */
  ghost predicate Forked(s: State, y: Phys, z: Phys, all: map<nat, nat>, c: nat, child: Proc, parent: Proc) {
    && KernelInv(s) && c < 8 && s.procs[c].state == Unused && s.cur < 8 && parent == s.procs[s.cur]
    && child.state == Runnable && child.resume == ToUser && child.sp == child.kstack && child.pid == c + 1
    && all == Roots(s.procs, s.kroot)[c := child.pagetable]
    && SpaceCopiedTo(s.x, y, all, c, child.trapframe, parent.pagetable)
    && GetPage(y.mem, child.pagetable, 1023, 1022) == Some(child.userStack)
    && SlotOk(s.x, parent, s.cur)
    && FramesOnly(y, z) && parent.trapframe < |y.mem| && child.trapframe < |y.mem|
    && z.mem[child.trapframe] == ChildFrame(y.mem[parent.trapframe], child.kstack)
    && z.mem[parent.trapframe] == y.mem[parent.trapframe][TF_REGS + A0 := c + 1]
    && forall p :: 0 <= p < |y.mem| && p != child.trapframe && p != parent.trapframe ==> z.mem[p] == y.mem[p]
  }

  lemma ForkChild(s: State, y: Phys, z: Phys, all: map<nat, nat>, c: nat, child: Proc, parent: Proc)
    requires Forked(s, y, z, all, c, child, parent)
    ensures SlotOk(z, child, c)
    ensures var t := s.WithPhys(z).WithProc(c, child); AbsProc(t, c) == Returned(AbsProc(s, s.cur), 0)
  {
    hide FreeOk, TableOk, Leaf, SpaceOf, IdentityOk, Core, Resumable, PhysOk, GetPage, SameLeaves, ChildFrame;
    assert all[c] == child.pagetable;
    FramesOnlyOk(y, z, all);
    SpaceFrameTf(y, z, all, c);
    ChildSlot(y, z, all, c, child);
    assert y.mem[parent.trapframe] == s.x.mem[parent.trapframe];
    ChildFrameRegs(y.mem[parent.trapframe], child.kstack);
  }

  lemma ChildSlot(y: Phys, z: Phys, all: map<nat, nat>, c: nat, child: Proc)
    requires c in all && all[c] == child.pagetable && c < 8 && child.pid == c + 1 && FramesOnly(y, z) &&
      SameLeaves(y.mem, z.mem, all)
    requires ShapeOk(y) && child.trapframe < |y.role| && y.role[child.trapframe] == TrapFrame(c)
    requires Leaf(y.mem, all[c], 1023, 1023) == Some(Entry(child.trapframe, RW))
    requires IdentityOk(y.mem, all[c])
    requires child.userStack < |y.role| && y.role[child.userStack] == User(c, 1023, 1022)
    requires Leaf(y.mem, all[c], 1023, 1022) == Some(Entry(child.userStack, RWXU))
    ensures SlotOk(z, child, c)
  {
    hide Leaf;
  }

  lemma ForkParent(s: State, y: Phys, z: Phys, all: map<nat, nat>, c: nat, child: Proc, parent: Proc)
    requires Forked(s, y, z, all, c, child, parent)
    ensures SlotOk(z, parent, s.cur)
    ensures var t := s.WithPhys(z).WithProc(c, child); AbsProc(t, s.cur) == Returned(AbsProc(s, s.cur), c + 1)
  {
    var roots := Roots(s.procs, s.kroot);
    hide FreeOk, TableOk, Leaf, SpaceOf, IdentityOk, Core, Resumable, PhysOk, GetPage, SameLeaves, SlotOk, ChildFrame;
    RunningFacts(s);
    assert all[s.cur] == roots[s.cur] == parent.pagetable;
    ParentSlot(s.x, y, z, roots, all, c, s.cur, parent);
    FrameWord(y.mem[parent.trapframe], TF_REGS + A0, c + 1);
  }

  lemma ParentSlot(x: Phys, y: Phys, z: Phys, roots: map<nat, nat>, all: map<nat, nat>, c: nat, o: nat, parent: Proc)
    requires PhysOk(x, roots) && o in roots && roots[o] == parent.pagetable && SlotOk(x, parent, o)
    requires ShapeOk(x) && Grows(x, y, c) && o != c && PhysOk(y, all) && o in all && all[o] == parent.pagetable &&
      FramesOnly(y, z)
    ensures SlotOk(z, parent, o) && SpaceOf(z.mem, parent.pagetable) == SpaceOf(x.mem, parent.pagetable)
    ensures parent.trapframe < |x.mem| && parent.trapframe < |y.mem| &&
      y.mem[parent.trapframe] == x.mem[parent.trapframe]
  {
    hide FreeOk, TableOk, Leaf, SpaceOf, IdentityOk, SameLeaves;
    GrowsKeeps(x, y, c, o);
    SlotFrame(x, y, roots, parent, o);
    FramesOnlyOk(y, z, all);
    SlotTrapFrame(y, z, all, parent, o);
    SpaceFrameTf(y, z, all, o);
  }

  lemma ForkOther(s: State, y: Phys, z: Phys, all: map<nat, nat>, c: nat, child: Proc, parent: Proc, b: nat)
    requires Forked(s, y, z, all, c, child, parent) && b < 8 && b != c && b != s.cur && Live(s.procs, b)
    ensures SlotOk(z, s.procs[b], b)
    ensures var t := s.WithPhys(z).WithProc(c, child); AbsSlot(t, b) == AbsSlot(s, b)
  {
    hide FreeOk, TableOk, Leaf, SpaceOf, IdentityOk, Core, Resumable, PhysOk, GetPage, SlotOk, AbsProc, ChildFrame;
    var t := s.WithPhys(z).WithProc(c, child);
    assert s.x.role[parent.trapframe] == TrapFrame(s.cur) by { SlotTf(s.x, parent, s.cur); }
    assert Keeps(s.x, z, b);
    SlotSame(s, t, b);
  }

  lemma SlotTf(x: Phys, p: Proc, o: nat)
    requires SlotOk(x, p, o)
    ensures p.trapframe < |x.role| && x.role[p.trapframe] == TrapFrame(o)
  {
    hide IdentityOk, Leaf;
  }

  lemma ForkAbs(s: State, y: Phys, z: Phys, all: map<nat, nat>, c: nat, child: Proc, parent: Proc)
    requires Forked(s, y, z, all, c, child, parent) && c == FirstUnused(s.procs, 0) < 8 && child.heap == s.procs[c].heap
    ensures var t := s.WithPhys(z).WithProc(c, child);
      SlotsOk(z, t.procs) && Resumable(t) && Abs(s).Runs() && AFork(Abs(s)) == Some(Abs(t))
  {
    hide SpaceOf, Core, SlotOk, AbsProc, Forked;
    var t := s.WithPhys(z).WithProc(c, child);
    ForkedFacts(s, y, z, all, c, child, parent);
    FirstFreeSame(s, 0);
    ForkChild(s, y, z, all, c, child, parent);
    ForkParent(s, y, z, all, c, child, parent);
    var a := AFork(Abs(s)).value;
    forall b | 0 <= b < 8
      ensures Live(t.procs, b) ==> SlotOk(z, t.procs[b], b)
      ensures AbsSlot(t, b) == a.procs[b]
    {
      if b != c && b != s.cur && Live(s.procs, b) { ForkOther(s, y, z, all, c, child, parent, b); }
    }
    AbsIs(t, a);
  }

  lemma ForkedFacts(s: State, y: Phys, z: Phys, all: map<nat, nat>, c: nat, child: Proc, parent: Proc)
    requires Forked(s, y, z, all, c, child, parent)
    ensures Live(s.procs, s.cur) && s.cur < 8 && s.mode == InKernel && s.procs[c].state == Unused && c < 8
    ensures child.state == Runnable && Returns(child) && Resumable(s) && parent == s.procs[s.cur]
  {
    hide Core, SpaceCopiedTo, PhysOk, SlotOk, FramesOnly;
  }

  lemma ForkForked(s: State, c: nat, y: Phys, root: nat, tf: nat) returns (z: Phys, child: Proc, all: map<nat, nat>)
    requires KernelInv(s) && c == FirstUnused(s.procs, 0) < 8 && s.cur < 8
    requires CopySpace(s.x, c, s.procs[s.cur].pagetable) == Go((y, root, tf))
    requires SpaceCopiedTo(s.x, y, Roots(s.procs, s.kroot)[c := root], c, tf, s.procs[s.cur].pagetable)
    ensures Forked(s, y, z, all, c, child, s.procs[s.cur]) && Fork(s) == Go(s.WithPhys(z).WithProc(c, child))
    ensures PhysOk(z, all) && |z.role| == |z.mem| == |s.x.mem| && child.heap == s.procs[c].heap
    ensures forall q :: 0 <= q < |s.x.role| && s.x.role[q] != Free ==> z.role[q] == s.x.role[q]
    ensures child.userStack < |s.x.role| && s.x.role[child.userStack] == Free
  {
    hide FreeOk, TableOk, Leaf, SpaceOf, IdentityOk, SlotsOk, HeapOk, Resumable, PhysOk, CopySpace, CopyFrame,
         ChildFrame, SameLeaves, Fork, GetPage;
    var p, parent := s.procs[c], s.procs[s.cur];
    all := Roots(s.procs, s.kroot)[c := root];
    RunningFacts(s);
    SlotTf(s.x, parent, s.cur);
    CopyFrameOk(y, all, tf, parent.trapframe, p.kstack, c + 1);
    z := CopyFrame(y, tf, parent.trapframe, p.kstack, c + 1).value;
    child := Proc(c + 1, Runnable, ToUser, p.kstack, tf, root, GetPage(y.mem, root, 1023, 1022).value, p.heap, p.kstack);
    ForkIs(s, c, y, root, tf, z);
  }

  lemma ForkIs(s: State, c: nat, y: Phys, root: nat, tf: nat, z: Phys)
    requires c == FirstUnused(s.procs, 0) < 8 && s.cur < 8 &&
      CopySpace(s.x, c, s.procs[s.cur].pagetable) == Go((y, root, tf))
    requires CopyFrame(y, tf, s.procs[s.cur].trapframe, s.procs[c].kstack, c + 1) == Go(z) &&
      GetPage(y.mem, root, 1023, 1022).Some?
    ensures Fork(s) == Go(s.WithPhys(z).WithProc(c,
      Proc(c + 1, Runnable, ToUser, s.procs[c].kstack, tf, root, GetPage(y.mem, root, 1023, 1022).value,
           s.procs[c].heap, s.procs[c].kstack)))
  {
    hide CopySpace, CopyFrame, GetPage;
  }

  lemma ForkStep(s: State, c: nat, y: Phys, root: nat, tf: nat)
    requires KernelInv(s) && c == FirstUnused(s.procs, 0) < 8 && s.cur < 8
    requires CopySpace(s.x, c, s.procs[s.cur].pagetable) == Go((y, root, tf))
    requires SpaceCopiedTo(s.x, y, Roots(s.procs, s.kroot)[c := root], c, tf, s.procs[s.cur].pagetable)
    ensures Fork(s).Go? && KernelInv(Fork(s).value) && Abs(s).Runs() && AFork(Abs(s)) == Some(Abs(Fork(s).value))
  {
    hide SpaceOf, SlotsOk, HeapOk, Resumable, PhysOk, CopySpace, AFork, SpaceCopiedTo, Abs, Fork;
    var z, child, all := ForkForked(s, c, y, root, tf);
    RootsExtend(s.procs, s.kroot, c, child);
    HeapNewSlot(s.x, z, s.ramBegin, s.procs, s.burned, c, child);
    ForkAbs(s, y, z, all, c, child, s.procs[s.cur]);
  }
}
