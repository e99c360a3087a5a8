/**
 exec: the running process becomes the program in the file, with its arguments
 on a fresh stack, and no other process is affected.
 */
module Executing {
  import opened Sv32
  import opened Bytes
  import opened Pages
  import opened PageTables
  import opened Spaces
  import opened Images
  import opened Arguments
  import opened Processes
  import opened Building
  import opened Machine
  import opened AbstractOs
  import opened Invariant
  import opened Traps
  import opened Ending
  import opened Growing

  lemma StackInSpace(x: Phys, root: nat, stack: nat)
    requires stack < |x.mem| <= 0xC_0000 && Leaf(x.mem, root, 1023, 1022) == Some(Entry(stack, RWXU))
    ensures UserLeaf(x.mem, root, STACK_PAGE) && UserPageAt(x.mem, root, STACK_PAGE) == Page(RWXU, x.mem[stack])
    ensures PageOf(Leaf(x.mem, root, STACK_PAGE / 1024, STACK_PAGE % 1024).value) == stack
  {
    hide Leaf, PageOf;
    assert UserMode(Entry(stack, RWXU));
  }

  /** argv and the argument registers: only the stack page and the trap frame change. */
  lemma PassArgumentsOk(x: Phys, all: map<nat, nat>, o: nat, tf: nat, stack: nat, args: seq<seq<Byte>>)
    requires PhysOk(x, all) && o in all && |x.mem| == |x.role| <= 0xC_0000
    requires tf < |x.mem| && x.role[tf] == TrapFrame(o)
    requires stack < |x.mem| && x.role[stack] == User(o, 1023, 1022) && x.mem[stack] == Zero()
    requires Leaf(x.mem, all[o], 1023, 1022) == Some(Entry(stack, RWXU)) && PushArguments(Zero(), args).Go?
    ensures PassArguments(x, tf, stack, args).Go?
    ensures var y := PassArguments(x, tf, stack, args).value;
      var (f, at) := PushArguments(Zero(), args).value;
      var sp := STACK_TOP - (4096 - at);
      && PhysOk(y, all) && SameLeaves(x.mem, y.mem, all) && y.role == x.role && y.satp == x.satp && |y.mem| == |x.mem|
      && y.mem[tf] == x.mem[tf][TF_REGS + SP := sp][TF_REGS + A0 := |args|][TF_REGS + A1 := sp]
      && (forall p :: 0 <= p < |x.mem| && p != tf && p != stack ==> y.mem[p] == x.mem[p])
      && SpaceOf(y.mem, all[o]) == SpaceOf(x.mem, all[o])[STACK_PAGE := Page(RWXU, f)]
  {
    hide FreeOk, TableOk, SpaceOf, PushArguments, Leaf, UserLeaf, UserPageAt, PageOf;
    var (f, at) := PushArguments(Zero(), args).value;
    StackInSpace(x, all[o], stack);
    SpaceWrite(x, all, o, STACK_PAGE, f);
    var x1 := Phys(x.mem[stack := f], x.free, x.role, x.satp);
    var y := PassArguments(x, tf, stack, args).value;
    assert FramesOnly(x1, y);
    FramesOnlyOk(x1, y, all);
    SpaceFrameTf(x1, y, all, o);
    SameLeavesTrans(x.mem, x1.mem, y.mem, all);
  }

  lemma FreshRegs(kstack: Word, entry: Word, sp: Word, argc: Word)
    ensures var f := Zero()[TF_SP := kstack][TF_HANDLER := USER_TRAP][TF_EPC := entry][TF_REGS + SP := STACK_TOP]
                     [TF_REGS + SP := sp][TF_REGS + A0 := argc][TF_REGS + A1 := sp];
      FrameRegs(f) == seq<Word>(31, _ => 0)[SP := sp][A0 := argc][A1 := sp] && f[TF_EPC] == entry
  {
  }

  /** The heap break moves by the image's pages, each of which is accounted for. */
  lemma HeapImage(x: Phys, y: Phys, ramBegin: nat, procs: ProcTable, burned: set<nat>, o: nat, q: Proc, pages: set<nat>)
    requires HeapOk(x, ramBegin, procs, burned) && o < 8 && Live(procs, o)
    requires |y.role| == |y.mem| == |x.mem|
    requires forall p :: 0 <= p < |x.role| && x.role[p] != Free && !Owns(o, x.role[p]) ==> y.role[p] == x.role[p]
    requires forall p :: 0 <= p < |x.role| && Owns(o, x.role[p]) ==> y.role[p] == Leaked
    requires forall p :: p in pages ==> p < |x.role| && x.role[p] == Free && y.role[p].User?
    requires q.heap == (procs[o].heap + 4096 * |pages|) % 0x1_0000_0000
    requires q.userStack < |x.role| && x.role[q.userStack] == Free && q.userStack !in pages
    requires forall b :: 0 <= b < 8 && Live(procs, b) ==>
      procs[b].userStack < |x.role| && x.role[procs[b].userStack] != Free
    ensures HeapOk(y, ramBegin, procs[o := q], burned + pages)
    ensures q.heap == procs[o].heap + 4096 * |pages|
  {
    hide HeapSum, HeapPages;
    forall p | p in burned
      ensures Burned(y, p) && p !in pages && p != q.userStack && ramBegin <= p < |x.mem| { assert Burned(x, p); }
    assert burned !! pages && |burned + pages| == |burned| + |pages|;
    RangeCard(ramBegin, |x.mem|, burned + pages);
    HeapSumBound(procs, o, 0);
    MorePages(procs[o], q, |pages|);
    HeapSumUpdate(procs, o, q, 0);
    forall p | p in pages ensures Burned(y, p) {}
    var t := procs[o := q];
    assert forall b :: 0 <= b < 8 ==> t[b].heap >= USER_BASE && t[b].heap % 4096 == 0;
  }

  lemma MorePages(p: Proc, q: Proc, n: nat)
    requires USER_BASE <= p.heap && p.heap % 4096 == 0 && HeapPages(p) + n <= 0x3_FFFE
    requires q.heap == (p.heap + 4096 * n) % 0x1_0000_0000
    ensures q.heap == p.heap + 4096 * n && HeapPages(q) == HeapPages(p) + n && q.heap % 4096 == 0
  {
  }

  /** Everything the image is built from lies outside the other processes' pages. */
  lemma ExecKeeps(x: Phys, x0: Phys, y: Phys, z: Phys, o: nat, tf: nat, stack: nat)
    requires |x.role| == |x.mem| && ShapeOk(x0) && x0 == Disown(x, o) && Grows(x0, y, o)
    requires z.role == y.role && |z.mem| == |y.mem| && tf < |x0.role| && stack < |x0.role|
    requires x0.role[tf] == Free && x0.role[stack] == Free
    requires forall p :: 0 <= p < |y.mem| && p != tf && p != stack ==> z.mem[p] == y.mem[p]
    ensures KeepsOthers(x, z, o)
  {
    forall b | 0 <= b < 8 && b != o ensures Keeps(x, z, b) {}
  }

  lemma DisownFacts(x: Phys, roots: map<nat, nat>, o: nat)
    requires PhysOk(x, roots)
    ensures ShapeOk(x) && PhysOk(Disown(x, o), roots - {o}) && (roots - {o}) == roots - {o}
  {
    hide TableOk, FreeOk, Disown;
    PhysDrop(x, roots, roots - {o});
    DisownOk(x, roots - {o}, o);
  }

  lemma RootsReplace(procs: ProcTable, kroot: nat, o: nat, q: Proc)
    requires o < 8 && Live(procs, o) && q.state == Runnable
    ensures Roots(procs[o := q], kroot) == (Roots(procs, kroot) - {o})[o := q.pagetable]
  {
  }

  /** The new slot of an exec'd process, once image and arguments are in place. */
  lemma ExecSlot(x0: Phys, im: Image, y: Phys, all: map<nat, nat>, o: nat, kstack: Word, file: seq<Byte>, q: Proc)
    requires ImageBuilt(x0, im, all, o, kstack, file) && o in all
    requires y.role == im.x.role && |y.mem| == |im.x.mem| && SameLeaves(im.x.mem, y.mem, all)
    requires o < 8 && q.pid == o + 1 && q.trapframe == im.trapframe && q.pagetable == im.root && q.userStack == im.stack
    ensures SlotOk(y, q, o)
  {
    hide FreeOk, TableOk, Leaf, SpaceOf, ImageSpace, ImagePages;
  }

  lemma ImageFacts(x0: Phys, im: Image, all: map<nat, nat>, o: nat, kstack: Word, file: seq<Byte>)
    requires ImageBuilt(x0, im, all, o, kstack, file)
    ensures PhysOk(im.x, all) && o in all && all[o] == im.root && |im.x.mem| == |im.x.role| <= 0xC_0000
    ensures im.trapframe < |im.x.mem| && im.x.role[im.trapframe] == TrapFrame(o)
    ensures im.stack < |im.x.mem| && im.x.role[im.stack] == User(o, 1023, 1022) && im.x.mem[im.stack] == Zero()
    ensures Leaf(im.x.mem, all[o], 1023, 1022) == Some(Entry(im.stack, RWXU))
  {
    hide FreeOk, TableOk, Leaf, SpaceOf, ImageSpace, ImagePages, IdentityOk;
  }

  /** What PassArguments did, as a fact about two states. */
  ghost predicate Passed(x: Phys, y: Phys, all: map<nat, nat>, o: nat, tf: nat, stack: nat, args: seq<seq<Byte>>) {
    && PushArguments(Zero(), args).Go? && o in all && tf < |x.mem|
    && var (f, at) := PushArguments(Zero(), args).value;
      var sp := STACK_TOP - (4096 - at);
      && PhysOk(y, all) && SameLeaves(x.mem, y.mem, all) && y.role == x.role && |y.mem| == |x.mem|
      && y.mem[tf] == x.mem[tf][TF_REGS + SP := sp][TF_REGS + A0 := |args|][TF_REGS + A1 := sp]
      && (forall p :: 0 <= p < |x.mem| && p != tf && p != stack ==> y.mem[p] == x.mem[p])
      && SpaceOf(y.mem, all[o]) == SpaceOf(x.mem, all[o])[STACK_PAGE := Page(RWXU, f)]
  }

  /** The situation after a successful exec. */
  ghost predicate Executed(s: State, im: Image, all: map<nat, nat>, y: Phys, file: seq<Byte>, args: seq<seq<Byte>>, q: Proc) {
    && KernelInv(s) && s.cur < 8
    && all == (Roots(s.procs, s.kroot) - {s.cur})[s.cur := im.root]
    && ImageBuilt(Disown(s.x, s.cur), im, all, s.cur, s.procs[s.cur].kstack, file)
    && Passed(im.x, y, all, s.cur, im.trapframe, im.stack, args)
    && q == Reloaded(s.procs[s.cur], im, file)
  }

  lemma ExecutedFacts(s: State, im: Image, all: map<nat, nat>, y: Phys, file: seq<Byte>, args: seq<seq<Byte>>, q: Proc)
    requires Executed(s, im, all, y, file, args, q)
    ensures KernelInv(s) && s.cur < 8 && Live(s.procs, s.cur)
    ensures ShapeOk(s.x) && ShapeOk(Disown(s.x, s.cur)) && Grows(Disown(s.x, s.cur), im.x, s.cur)
    ensures PhysOk(y, all) && y.role == im.x.role && |y.mem| == |im.x.mem| == |s.x.mem| == |y.role| &&
      SameLeaves(im.x.mem, y.mem, all)
    ensures im.trapframe < |s.x.role| && Disown(s.x, s.cur).role[im.trapframe] == Free
    ensures im.stack < |s.x.role| && Disown(s.x, s.cur).role[im.stack] == Free && im.stack !in im.pages
    ensures forall p :: 0 <= p < |y.mem| && p != im.trapframe && p != im.stack ==> y.mem[p] == im.x.mem[p]
    ensures |im.pages| == ImagePages(file, 0)
    ensures forall p :: p in im.pages ==> p < |s.x.role| && Disown(s.x, s.cur).role[p] == Free && y.role[p].User?
    ensures im.root < |s.x.role|
  {
    hide FreeOk, TableOk, Leaf, SpaceOf, ImageSpace, ImagePages, PushArguments, SlotsOk, IdentityOk, HeapOk, Resumable;
    RunningFacts(s);
    assert ShapeOk(s.x) by { DisownFacts(s.x, Roots(s.procs, s.kroot), s.cur); }
  }

  /** Roles across an exec: other owners keep their pages, and the slot's old pages have lost their owner. */
  lemma ExecRoles(s: State, im: Image, all: map<nat, nat>, y: Phys, file: seq<Byte>, args: seq<seq<Byte>>, q: Proc)
    requires Executed(s, im, all, y, file, args, q)
    ensures |s.x.role| == |s.x.mem| == |y.mem| == |y.role|
    ensures forall p :: 0 <= p < |s.x.role| && s.x.role[p] != Free && !Owns(s.cur, s.x.role[p]) ==>
      y.role[p] == s.x.role[p]
    ensures forall p :: 0 <= p < |s.x.role| && Owns(s.cur, s.x.role[p]) ==> y.role[p] == Leaked
    ensures forall p :: 0 <= p < |s.x.role| && Disown(s.x, s.cur).role[p] == Free ==> s.x.role[p] == Free
  {
    hide FreeOk, TableOk, PhysOk, ImagePages, SameLeaves, Executed, KernelInv;
    ExecutedFacts(s, im, all, y, file, args, q);
    var x0 := Disown(s.x, s.cur);
    forall p | 0 <= p < |s.x.role| && s.x.role[p] != Free && !Owns(s.cur, s.x.role[p])
      ensures y.role[p] == s.x.role[p] {
      assert x0.role[p] == s.x.role[p];
    }
    forall p | 0 <= p < |s.x.role| && Owns(s.cur, s.x.role[p]) ensures y.role[p] == Leaked {
      assert x0.role[p] == Leaked;
    }
  }

  lemma StackRoles(s: State)
    requires Core(s)
    ensures forall b :: 0 <= b < 8 && Live(s.procs, b) ==>
      s.procs[b].userStack < |s.x.role| && s.x.role[s.procs[b].userStack] != Free
  {
    hide Core;
    forall b | 0 <= b < 8 && Live(s.procs, b)
      ensures s.procs[b].userStack < |s.x.role| && s.x.role[s.procs[b].userStack] != Free
    {
      StackRole(s, b);
    }
  }

  lemma ExecutedCore(s: State, im: Image, all: map<nat, nat>, y: Phys, file: seq<Byte>, args: seq<seq<Byte>>, q: Proc)
    requires Executed(s, im, all, y, file, args, q)
    ensures Core(s) && HeapOk(s.x, s.ramBegin, s.procs, s.burned) && s.cur < 8
    ensures q.userStack == im.stack && q.heap == (s.procs[s.cur].heap + 4096 * ImagePages(file, 0)) % 0x1_0000_0000
  {
    hide PhysOk, SlotsOk, HeapOk, Resumable, ImageBuilt, Passed, ImagePages;
  }

  lemma ExecHeap(s: State, im: Image, all: map<nat, nat>, y: Phys, file: seq<Byte>, args: seq<seq<Byte>>, q: Proc, procs: ProcTable)
    requires s.cur < 8 && procs == s.procs[s.cur := q]
    requires Executed(s, im, all, y, file, args, q)
    ensures HeapOk(y, s.ramBegin, procs, s.burned + im.pages)
    ensures q.heap == s.procs[s.cur].heap + 4096 * ImagePages(file, 0)
  {
    hide FreeOk, TableOk, PhysOk, ImagePages, SameLeaves, SlotsOk, Resumable, HeapOk, Core, KernelInv, Executed, Grows,
         Disown, Owns;
    ExecutedFacts(s, im, all, y, file, args, q);
    ExecutedCore(s, im, all, y, file, args, q);
    ExecRoles(s, im, all, y, file, args, q);
    StackRoles(s);
    HeapImage(s.x, y, s.ramBegin, s.procs, s.burned, s.cur, q, im.pages);
  }

  lemma ExecMemory(s: State, im: Image, all: map<nat, nat>, y: Phys, file: seq<Byte>, args: seq<seq<Byte>>, q: Proc)
    requires Executed(s, im, all, y, file, args, q)
    ensures SlotOk(y, q, s.cur) && |s.x.role| == |s.x.mem| && KeepsOthers(s.x, y, s.cur)
  {
    hide FreeOk, TableOk, PhysOk, ImagePages, SameLeaves, Core, Resumable, IdentityOk, ImageBuilt, Passed, Grows;
    ExecutedFacts(s, im, all, y, file, args, q);
    PidIs(s, s.cur);
    ExecSlot(Disown(s.x, s.cur), im, y, all, s.cur, s.procs[s.cur].kstack, file, q);
    ExecKeeps(s.x, Disown(s.x, s.cur), im.x, y, s.cur, im.trapframe, im.stack);
  }

  lemma ExecProc(s: State, im: Image, all: map<nat, nat>, y: Phys, file: seq<Byte>, args: seq<seq<Byte>>, q: Proc, t: State)
    requires Executed(s, im, all, y, file, args, q) && s.cur == t.cur < 8 && t.x == y &&
      t.procs == s.procs[t.cur := q] && t.mode == InKernel
    ensures PushArguments(Zero(), args).Go? && AbsProc(t, t.cur) == FreshProc(file, args)
  {
    hide FreeOk, TableOk, PhysOk, ImagePages, ImageSpace, SameLeaves, Core, Resumable, IdentityOk, Leaf, SpaceOf,
         PushArguments, FrameRegs, Grows;
    var (f, at) := PushArguments(Zero(), args).value;
    var sp := STACK_TOP - (4096 - at);
    FreshRegs(s.procs[s.cur].kstack, EntryPoint(file), sp, |args|);
    ExecutedFacts(s, im, all, y, file, args, q);
    assert all[s.cur] == im.root;
    var i := ImageSpace(map[], file, 0) - {TRAPFRAME_PAGE};
    assert i[STACK_PAGE := Page(RWXU, Zero())][STACK_PAGE := Page(RWXU, f)] == i[STACK_PAGE := Page(RWXU, f)];
  }

  lemma ExecStep(s: State, file: seq<Byte>, args: seq<seq<Byte>>, im: Image, all: map<nat, nat>, y: Phys, q: Proc)
    requires s.cur < 8
    requires Exec(s, file, args) ==
      Go(State(y, s.ramBegin, s.kroot, s.procs[s.cur := q], s.cur, s.next, s.mode, s.regs, s.pc, s.burned + im.pages, s.io))
    requires Executed(s, im, all, y, file, args, q)
    ensures Abs(s).Runs() && KernelInv(Exec(s, file, args).value)
    ensures AExec(Abs(s), file, args) == Some(Abs(Exec(s, file, args).value))
  {
    hide FreeOk, TableOk, Leaf, SpaceOf, ImageSpace, ImagePages, PushArguments, Disown, PhysOk, IdentityOk, SlotOk,
         SlotsOk, HeapOk, Resumable, ImageBuilt, Passed, Exec, KeepsOthers, AbsProc, Grows, SameLeaves;
    var t := State(y, s.ramBegin, s.kroot, s.procs[s.cur := q], s.cur, s.next, s.mode, s.regs, s.pc, s.burned + im.pages, s.io);
    ExecutedFacts(s, im, all, y, file, args, q);
    RunningFacts(s);
    RootsReplace(s.procs, s.kroot, s.cur, q);
    ExecHeap(s, im, all, y, file, args, q, t.procs);
    ExecMemory(s, im, all, y, file, args, q);
    OwnStep(s, t);
    ExecProc(s, im, all, y, file, args, q, t);
  }

  lemma ExecOk(s: State, file: seq<Byte>, args: seq<seq<Byte>>)
    requires KernelInv(s) && ImageOk(file) && PushArguments(Zero(), args).Go?
    ensures Exec(s, file, args) != Fault && Abs(s).Runs()
    ensures Exec(s, file, args).Go? ==>
      KernelInv(Exec(s, file, args).value) && AExec(Abs(s), file, args) == Some(Abs(Exec(s, file, args).value))
  {
    hide FreeOk, TableOk, Leaf, SpaceOf, ImageSpace, ImagePages, ImageOk, PushArguments, PassArguments, BuildImage,
         Disown, PhysOk, IdentityOk, SlotOk, SlotsOk, HeapOk, Resumable, ImageBuilt, AExec, SameLeaves;
    RunningFacts(s);
    var o, p := s.cur, s.procs[s.cur];
    var roots := Roots(s.procs, s.kroot);
    DisownFacts(s.x, roots, o);
    var x0 := Disown(s.x, o);
    BuildImageOk(x0, roots - {o}, o, p.kstack, file);
    var r := BuildImage(x0, o, p.kstack, file);
    if r.Go? {
      var im := r.value;
      var all: map<nat, nat> := (roots - {o})[o := im.root];
      ImageFacts(x0, im, all, o, p.kstack, file);
      PassArgumentsOk(im.x, all, o, im.trapframe, im.stack, args);
      var y := PassArguments(im.x, im.trapframe, im.stack, args).value;
      var q := Reloaded(p, im, file);
      assert Passed(im.x, y, all, o, im.trapframe, im.stack, args);
      ExecStep(s, file, args, im, all, y, q);
    }
  }
}
