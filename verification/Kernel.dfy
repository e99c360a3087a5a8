/**
 kproc.c and ktrap.c as they run: the process table, the current process and the
 machine registers are updated in place. Every method is proved against the
 function that specifies it, so all that is proved of those holds here.
 */
module KernelImpl {
  import opened Sv32
  import opened Bytes
  import opened Pages
  import opened PageTables
  import opened TableCopy
  import opened Spaces
  import opened Images
  import opened Arguments
  import opened Processes
  import opened Building
  import opened Machine
  import opened Devices
  import opened AbstractOs
  import opened Invariant
  import opened Traps
  import opened Forking
  import opened Ending
  import opened Growing
  import opened Executing
  import opened UserMemory
  import opened Steps
  import opened Refinement
  import opened Halting
  import opened RamImpl
  import Boot
  import Ustar
  import OpenFiles
  import Tty
  import FileSystemImpl

  class Kernel {
    const ram: Ram
    const ramBegin: nat
    const kroot: nat
    var procs: ProcTable
    var cur: nat
    var next: nat
    var mode: Mode
    var regs: Regs
    var pc: Word
    ghost var burned: set<nat>
    /** Files, descriptors and terminal; the classes FileSystem and Terminal update them in place. */
    var io: Io

    constructor (r: Ram, begin: nat, kernelRoot: nat, kstacks: seq<Word>, files: Ustar.FileTable)
      requires |kstacks| == 8
      ensures ram == r && ramBegin == begin && kroot == kernelRoot
      ensures Now() == State(r.X(), begin, kernelRoot, Boot.EmptySlots(kstacks), 0, 0, InScheduler, seq<Word>(31, _ => 0), 0, {},
                               FreshIo(files))
    {
      ram, ramBegin, kroot := r, begin, kernelRoot;
      procs := Boot.EmptySlots(kstacks);
      cur, next, mode, regs, pc := 0, 0, InScheduler, seq<Word>(31, _ => 0), 0;
      burned := {};
      io := FreshIo(files);
    }

    ghost function Now(): State
      reads this, ram
    {
      State(ram.X(), ramBegin, kroot, procs, cur, next, mode, regs, pc, burned, io)
    }

    /** The method that ran did what `r` says; not ok means the kernel panicked. */
    ghost predicate Did(r: Outcome<State>, ok: bool)
      reads this, ram
    {
      r != Fault && (ok <==> r.Go?) && (ok ==> r == Go(Now()))
    }

    /** The search loop for a free slot in kproc_create and kproc_fork. */
    method FindSlot() returns (i: nat)
      ensures i == FirstUnused(procs, 0)
    {
      i := 0;
      while i < 8
        invariant i <= 8 && FirstUnused(procs, i) == FirstUnused(procs, 0)
      {
        if procs[i].state == Unused { return; }
        i := i + 1;
      }
    }

    /** A word of a page in use stored in place. */
    method StoreWord(p: nat, k: nat, w: Word)
      requires ram.Valid() && p < |ram.mem| && ram.role[p] != Free && k < 1024
      modifies ram
      ensures ram.Valid() && ram.satp == old(ram.satp)
      ensures Poke(old(ram.X()), p, k, w) == Go(ram.X())
    {
      ghost var x := ram.X();
      ram.mem := ram.mem[p := ram.mem[p][k := w]];
      FreeFrame(x, ram.X());
    }

    // ---- process images ----

    /** Table, trap frame and kernel mappings of a process to be. */
    method StartImage(ghost roots: map<nat, nat>, ghost o: nat, kstack: Word) returns (ok: bool, root: nat, tf: nat)
      requires ram.Valid() && PhysOk(ram.X(), roots) && o !in roots
      modifies ram
      ensures ram.Valid() && ram.satp == old(ram.satp)
      ensures var r := BuildStart(old(ram.X()), o, kstack);
        && r != Fault && (ok <==> r.Go?)
        && (ok ==> r == Go((ram.X(), root, tf)) && Started(old(ram.X()), ram.X(), roots[o := root], o, tf))
    {
      hide PhysOk, FreeOk, TableOk, Leaf, SpaceOf, Processes.MapKernel, Pages.Alloc, Grows, SameLeaves, Started, Poke;
      ghost var x := ram.X();
      root, tf := 0, 0;
      BuildStartOk(x, roots, o, kstack);
      ReadyAlloc(x, roots);
      ok, root := ram.Alloc(Root(o));
      if !ok { return; }
      HasPages(x, Root(o));
      ghost var x1, rt, all := NewTable(x, roots, o);
      EmptySpace(x1.mem, root);
      ReadyAlloc(x1, all);
      ok, tf := ram.Alloc(TrapFrame(o));
      if !ok { return; }
      HasPages(x1, TrapFrame(o));
      ghost var x4, frame := StartFrame(x1, all, o, kstack);
      TakenPage(x1, TrapFrame(o));
      PokeRole(ram.X(), tf, TF_SP, kstack);
      StoreWord(tf, TF_SP, kstack);
      StoreWord(tf, TF_HANDLER, USER_TRAP);
      StartMapped(x, x1, x4, roots, all, o, root, tf);
      ok := ram.MapKernel(all, o, root);
    }

    /** Entry point, image and the trap-frame mapping. */
    method LoadImage(ghost x: Phys, ghost all: map<nat, nat>, ghost o: nat, root: nat, tf: nat, file: seq<Byte>)
      returns (ok: bool, n: nat, ghost pages: set<nat>)
      requires ram.Valid() && Started(x, ram.X(), all, o, tf) && all[o] == root && ImageOk(file)
      modifies ram
      ensures ram.Valid() && ram.satp == old(ram.satp)
      ensures var r := BuildLoad(old(ram.X()), o, root, tf, file);
        && r != Fault && (ok <==> r.Go?)
        && (ok ==> r == Go((ram.X(), pages)) && Started(x, ram.X(), all, o, tf) && n == ImagePages(file, 0))
    {
      hide PhysOk, FreeOk, TableOk, Leaf, SpaceOf, Images.LoadSegments, PageTables.MapPage, Grows, ImageSpace,
           ImagePages, Started, Gained, UpperOnly;
      ghost var y := ram.X();
      BuildLoadOk(x, y, all, o, tf, file);
      StartedPoke(x, y, all, o, tf, TF_EPC, EntryPoint(file));
      StartedFrame(x, y, all, o, tf);
      StoreWord(tf, TF_EPC, EntryPoint(file));
      ghost var x6 := ram.X();
      StartedFrame(x, x6, all, o, tf);
      LoadSegmentsOk(x6, all, o, file, 0);
      ok, n, pages := LoadSegments(all, o, root, file);
      if !ok { return; }
      StartedGains(x, x6, ram.X(), all, o, tf, pages);
      ok := MapFrame(x, all, o, root, tf);
    }

    /** The page behind VA_TRAPFRAME. */
    method MapFrame(ghost x: Phys, ghost all: map<nat, nat>, ghost o: nat, root: nat, tf: nat) returns (ok: bool)
      requires ram.Valid() && Started(x, ram.X(), all, o, tf) && all[o] == root
      modifies ram
      ensures ram.Valid() && ram.satp == old(ram.satp)
      ensures var r := PageTables.MapPage(old(ram.X()), o, root, 1023, 1023, tf, RW);
        && r != Fault && (ok <==> r.Go?) && (ok ==> r == Go(ram.X()) && Started(x, ram.X(), all, o, tf))
    {
      hide PhysOk, FreeOk, TableOk, Leaf, SpaceOf, PageTables.MapPage, Grows, Started;
      StartedFrame(x, ram.X(), all, o, tf);
      MapTrapFrame(x, ram.X(), all, o, tf);
      KernelEntryOk(ram.role, o, 1023, 1023, tf, RW);
      ok := ram.MapPage(all, o, root, 0xFFFF_F000, 4096 * tf, RW);
    }

    /** The stack page. */
    method AddStack(ghost x: Phys, ghost all: map<nat, nat>, ghost o: nat, root: nat, tf: nat) returns (ok: bool, stack: nat)
      requires ram.Valid() && Started(x, ram.X(), all, o, tf) && all[o] == root
      modifies ram
      ensures ram.Valid() && ram.satp == old(ram.satp)
      ensures var r := BuildStack(old(ram.X()), o, root, tf);
        && r != Fault && (ok <==> r.Go?)
        && (ok ==> r == Go((ram.X(), stack)) && Started(x, ram.X(), all, o, tf))
    {
      hide PhysOk, FreeOk, TableOk, Leaf, SpaceOf, PageTables.MapPage, Pages.Alloc, Grows, Poke, SameLeaves, Started;
      ghost var z := ram.X();
      BuildStackOk(x, z, all, o, tf);
      StartedFrame(x, z, all, o, tf);
      ReadyAlloc(z, all);
      AllocOk(z, all, User(o, 1023, 1022), o);
      ok, stack := ram.Alloc(User(o, 1023, 1022));
      if !ok { return; }
      ghost var x9 := ram.X();
      SameIsUpper(z.mem, x9.mem, all, o);
      StartedGrow(x, z, x9, all, o, tf);
      StartedFrame(x, x9, all, o, tf);
      StartedPoke(x, x9, all, o, tf, TF_REGS + SP, STACK_TOP);
      StoreWord(tf, TF_REGS + SP, STACK_TOP);
      StartedFrame(x, ram.X(), all, o, tf);
      UserEntryOk(ram.role, o, 1023, 1022, stack, RWXU);
      ok := ram.MapPage(all, o, root, 0xFFFF_E000, 4096 * stack, RWXU);
    }

    /** The part of process creation that kproc_create and kproc_exec share. */
    method Build(ghost roots: map<nat, nat>, ghost o: nat, kstack: Word, file: seq<Byte>)
      returns (ok: bool, root: nat, tf: nat, stack: nat, n: nat, ghost pages: set<nat>)
      requires ram.Valid() && PhysOk(ram.X(), roots) && o !in roots && ImageOk(file)
      modifies ram
      ensures ram.Valid() && ram.satp == old(ram.satp)
      ensures var r := BuildImage(old(ram.X()), o, kstack, file);
        && r != Fault && (ok <==> r.Go?)
        && (ok ==> r == Go(Image(ram.X(), root, tf, stack, pages)) && n == ImagePages(file, 0))
      ensures ok ==> ImageBuilt(old(ram.X()), Image(ram.X(), root, tf, stack, pages), roots[o := root], o, kstack, file)
    {
      hide PhysOk, Started, BuildStart, BuildLoad, BuildStack, BuildImage, ImagePages, ImageBuilt;
      ghost var x := ram.X();
      stack, n, pages := 0, 0, {};
      BuildStages(x, o, kstack, file);
      BuildImageOk(x, roots, o, kstack, file);
      ok, root, tf := StartImage(roots, o, kstack);
      if !ok { return; }
      ghost var all: map<nat, nat> := roots[o := root];
      ok, n, pages := LoadImage(x, all, o, root, tf, file);
      if !ok { return; }
      ok, stack := AddStack(x, all, o, root, tf);
    }

    /** All loadable segments of an ELF file, in header order. */
    method LoadSegments(ghost roots: map<nat, nat>, ghost o: nat, root: nat, file: seq<Byte>)
      returns (ok: bool, n: nat, ghost taken: set<nat>)
      requires ram.Valid() && PhysOk(ram.X(), roots) && o in roots && roots[o] == root && ImageOk(file)
      modifies ram
      ensures ram.Valid() && ram.satp == old(ram.satp)
      ensures var r := Images.LoadSegments(old(ram.X()), o, root, file, 0);
        && r != Fault && (ok <==> r.Go?) &&
          (ok ==> r == Go((ram.X(), taken)) && PhysOk(ram.X(), roots) && n == ImagePages(file, 0))
    {
      hide PhysOk, FreeOk, TableOk, Leaf, LoadPages, SpaceOf, InUserSpace, SegmentAt, SegmentCount;
      ghost var spec := Images.LoadSegments(ram.X(), o, root, file, 0);
      LoadSegmentsOk(ram.X(), roots, o, file, 0);
      AddNone(spec);
      taken := {};
      n := 0;
      var h := 0;
      while h < SegmentCount(file)
        invariant ram.Valid() && ram.satp == old(ram.satp) && 0 <= h <= SegmentCount(file) && PhysOk(ram.X(), roots)
        invariant spec == AddPages(taken, Images.LoadSegments(ram.X(), o, root, file, h))
        invariant n + ImagePages(file, h) == ImagePages(file, 0)
      {
        SegmentsUnfold(ram.X(), o, root, file, h, taken);
        var pages;
        ghost var s;
        ok, pages, s := ram.LoadSegment(roots, o, root, file, SegmentAt(file, h));
        if !ok { return; }
        taken := taken + s;
        n := n + pages;
        h := h + 1;
      }
      ok := true;
    }

    // ---- kproc.c ----

    /** kproc_create. */
    method Create(file: seq<Byte>) returns (ok: bool)
      requires ram.Valid() && Idle(Now()) && ram.satp == kroot && ImageOk(file)
      modifies this, ram
      ensures ram.Valid() && Did(Processes.Create(old(Now()), file), ok)
    {
      hide PhysOk, SlotsOk, HeapOk, Resumable, BuildImage, ImageOk, ImageBuilt, ImagePages;
      ghost var s := Now();
      Boot.CreateOk(s, file);
      assert View(s) == s.x;
      var i := FindSlot();
      if i == 8 { return false; }
      LiveRoot(s, i);
      var root, tf, stack, n;
      ghost var pages;
      ok, root, tf, stack, n, pages := Build(Roots(procs, kroot), i, procs[i].kstack, file);
      if !ok { return; }
      procs := procs[i := Proc(i + 1, Runnable, ToUser, procs[i].kstack, tf, root, stack, procs[i].heap, procs[i].kstack)];
    }

    /** The table, the trap frame and the mapping of VA_TRAPFRAME of a child. */
    method CopyParent(ghost roots: map<nat, nat>, ghost b: nat, ghost c: nat, ghost p: Proc, src: nat)
      returns (ok: bool, root: nat, tf: nat)
      requires ram.Valid() && PhysOk(ram.X(), roots) && b in roots && c !in roots && roots[b] == src
      requires p.pagetable == src && SlotOk(ram.X(), p, b)
      modifies ram
      ensures ram.Valid() && ram.satp == old(ram.satp)
      ensures var r := CopySpace(old(ram.X()), c, src);
        && r != Fault && (ok <==> r.Go?)
        && (ok ==> r == Go((ram.X(), root, tf)) && SpaceCopiedTo(old(ram.X()), ram.X(), roots[c := root], c, tf, src))
    {
      hide PhysOk, FreeOk, TableOk, Leaf, SpaceOf, SlotOk, CopyTable, Pages.Alloc, PageTables.MapPage, Grows,
           SameLeaves, SpaceCopiedTo, TableCount, CopiedAt, FreshAt;
      ghost var x := ram.X();
      tf := 0;
      CopySpaceOk(x, roots, b, c, p);
      ok, root := ram.CopyPagetable(roots, b, c, src);
      if !ok { return; }
      ghost var all: map<nat, nat> := roots[c := root];
      ghost var x1 := ram.X();
      ReadyAlloc(x1, all);
      AllocOk(x1, all, TrapFrame(c), c);
      ok, tf := ram.Alloc(TrapFrame(c));
      if !ok { return; }
      TakenPage(x1, TrapFrame(c));
      ReadyAlloc(ram.X(), all);
      KernelEntryOk(ram.role, c, 1023, 1023, tf, RW);
      ok := ram.MapPage(all, c, root, 0xFFFF_F000, 4096 * tf, RW);
    }

    /** The child's trap frame is a copy of the parent's; both learn the outcome of the call in a0. */
    method FillFrame(ghost all: map<nat, nat>, c: nat, root: nat, tf: nat, ptf: nat, kstack: Word) returns (stack: nat)
      requires ram.Valid() && PhysOk(ram.X(), all) && c in all && all[c] == root && c < 8 && tf != ptf
      requires tf < |ram.mem| && ptf < |ram.mem| && ram.role[tf].TrapFrame? && ram.role[ptf].TrapFrame?
      requires GetPage(ram.mem, root, 1023, 1022).Some?
      modifies ram
      ensures ram.Valid() && ram.satp == old(ram.satp)
      ensures CopyFrame(old(ram.X()), tf, ptf, kstack, c + 1) == Go(ram.X())
      ensures GetPage(old(ram.mem), root, 1023, 1022) == Some(stack)
    {
      hide PhysOk, FreeOk, TableOk, Leaf, SameLeaves, GetPage;
      ghost var y := ram.X();
      ram.mem := ram.mem[tf := ram.mem[ptf]];
      FillUserPage(y, all, tf, y.mem[ptf]);
      ReadyAlloc(ram.X(), all);
      var found;
      found, stack := ram.GetPa(all, c, root, 0xFFFF_E000);
      GetSame(y, ram.X(), all, c, 1023, 1022);
      StoreWord(tf, TF_SP, kstack);
      StoreWord(tf, TF_HANDLER, USER_TRAP);
      StoreWord(ptf, TF_REGS + A0, c + 1);
      StoreWord(tf, TF_REGS + A0, 0);
    }

    /** kproc_fork. */
    method Fork() returns (ok: bool)
      requires ram.Valid() && KernelInv(Now())
      modifies this, ram
      ensures ram.Valid() && Did(Processes.Fork(old(Now())), ok)
    {
      hide PhysOk, FreeOk, TableOk, Leaf, SpaceOf, SlotOk, SlotsOk, HeapOk, Resumable, CopySpace, Grows, SameLeaves,
           IdentityOk, AFork, SpaceCopiedTo, CopyFrame, GetPage, Abs;
      ghost var s := Now();
      ForkOk(s);
      RunningFacts(s);
      var i := FindSlot();
      if i == 8 { return false; }
      var parent := procs[cur];
      ghost var roots := Roots(procs, kroot);
      RootsExtend(procs, kroot, i, parent);
      var root, tf;
      ok, root, tf := CopyParent(roots, cur, i, parent, parent.pagetable);
      if !ok { return; }
      ghost var y, all := ram.X(), roots[i := root];
      SlotTf(s.x, parent, cur);
      CopyKeeps(s.x, y, all, i, tf, parent);
      var stack := FillFrame(all, i, root, tf, parent.trapframe, procs[i].kstack);
      procs := procs[i := Proc(i + 1, Runnable, ToUser, procs[i].kstack, tf, root, stack, procs[i].heap, procs[i].kstack)];
    }

    /** The three calls of kmem_free that end a process. */
    method ReleasePages(p: Proc, ghost o: nat)
      requires ram.Valid() && OwnPages(ram.X(), p, o)
      modifies ram
      ensures ram.Valid() && ram.satp == old(ram.satp)
      ensures ReleaseProc(old(ram.X()), p) == Go(ram.X())
    {
      ghost var x := ram.X();
      ram.Release(p.trapframe);
      ReleaseRole(x, p.trapframe);
      ghost var x1 := ram.X();
      ram.Release(p.pagetable);
      ReleaseRole(x1, p.pagetable);
      ram.Release(p.userStack);
    }

    /** Slot `o` has no process any more; pages it does not give back have no owner. */
    method Forget(ghost o: nat)
      requires ram.Valid()
      modifies ram
      ensures ram.Valid() && ram.satp == old(ram.satp)
      ensures ram.X() == Disown(old(ram.X()), o)
    {
      ghost var x := ram.X();
      DisownFree(x, o);
      ram.role := Disown(x, o).role;
    }

    /** kproc_free up to the switch to the scheduler. */
    method Exit()
      requires ram.Valid() && KernelInv(Now())
      modifies this, ram
      ensures ram.Valid() && Processes.Exit(old(Now())) == Go(Now())
    {
      hide PhysOk, SlotsOk, Resumable, ReleaseProc, Disown, SlotOk, HeapOk;
      ghost var s := Now();
      SlotPages(s, cur);
      procs := procs[cur := procs[cur].(state := Unused)];
      ReleasePages(procs[cur], cur);
      Forget(cur);
      ReleaseSame(s.x, s.procs[s.cur], procs[cur]);
      procs := procs[cur := procs[cur].(resume := AfterFree, sp := Below(procs[cur].kstack, FREE_DEPTH))];
      assert procs == s.procs[s.cur :=
        s.procs[s.cur].(state := Unused, resume := AfterFree, sp := Below(s.procs[s.cur].kstack, FREE_DEPTH))];
      mode := InScheduler;
    }

    /** The loop of kproc_kill. */
    method KillOthers(pid: Word)
      requires ram.Valid() && KernelInv(Now()) && cur < 8 && ram.satp == procs[cur].pagetable && procs[cur].pid != pid
      modifies this, ram
      ensures ram.Valid() && KillFrom(old(Now()), pid, 0) == Go(Now())
    {
      hide KernelInv, ReleaseProc, Disown, OwnPages, Abs;
      ghost var s := Now();
      KillFromOk(s, pid, 0);
      var i := 0;
      while i < 8
        invariant i <= 8 && ram.Valid() && KernelInv(Now()) && cur == s.cur < 8 && procs[cur] == s.procs[cur]
        invariant ram.satp == procs[cur].pagetable
        invariant KillFrom(Now(), pid, i) == KillFrom(s, pid, 0)
      {
        ghost var u := Now();
        KillUnfold(u, pid, i);
        if procs[i].state != Unused && procs[i].pid == pid {
          KillOneOk(u, i);
          SlotPages(u, i);
          ReleasePages(procs[i], i);
          Forget(i);
          procs := procs[i := procs[i].(state := Unused)];
        }
        i := i + 1;
      }
      KillEnd(Now(), pid);
    }

    /** kproc_add_page; also the address of the new page. */
    method AddPage() returns (ok: bool, va: Word)
      requires ram.Valid() && KernelInv(Now())
      modifies this, ram
      ensures ram.Valid() && Did(Processes.AddPage(old(Now())), ok)
      ensures ok ==> old(cur) < 8 && va == old(procs)[old(cur)].heap
    {
      hide PhysOk, SlotsOk, Resumable, SlotOk, HeapOk, Pages.Alloc, PageTables.MapPage, AGrow, Abs;
      ghost var s := Now();
      AddPageOk(s);
      RunningFacts(s);
      BreakInRange(s, cur);
      va := procs[cur].heap;
      ghost var i, j, roots := va / 0x40_0000, (va / 4096) % 1024, Roots(procs, kroot);
      ReadyAlloc(s.x, roots);
      AllocOk(s.x, roots, User(cur, i, j), cur);
      var page;
      ok, page := ram.Alloc(User(cur, i, j));
      if !ok { return; }
      HasPages(s.x, User(cur, i, j));
      BreakIndex(va);
      UserEntryOk(ram.role, cur, i, j, page, RWU);
      ok := ram.MapPage(roots, cur, procs[cur].pagetable, va, 4096 * page, RWU);
      if !ok { return; }
      procs := procs[cur := procs[cur].(heap := (va + 4096) % 0x1_0000_0000)];
      burned := burned + {page};
    }

    /** memcpy of `bs` into a page in use. */
    method CopyIn(p: nat, at: nat, bs: seq<Byte>)
      requires ram.Valid() && p < |ram.mem| && ram.role[p] != Free && at + |bs| <= 4096
      modifies ram
      ensures ram.Valid() && ram.satp == old(ram.satp)
      ensures ram.X() == WithFrame(old(ram.X()), p, WriteBytes(old(ram.mem[p]), at, bs))
    {
      ghost var x := ram.X();
      ram.mem := ram.mem[p := WriteBytes(ram.mem[p], at, bs)];
      FreeFrame(x, ram.X());
    }

    /** The strings and pointers of argv onto the new stack page, while sp in the trap frame follows; then a0 and a1. */
    method PassArguments(tf: nat, stack: nat, args: seq<seq<Byte>>)
      requires ram.Valid() && tf < |ram.mem| && stack < |ram.mem| && tf != stack
      requires ram.role[tf].TrapFrame? && ram.role[stack].User?
      requires ram.mem[tf][TF_REGS + SP] == STACK_TOP && PushArguments(ram.mem[stack], args).Go?
      modifies ram
      ensures ram.Valid() && ram.satp == old(ram.satp)
      ensures Processes.PassArguments(old(ram.X()), tf, stack, args) == Go(ram.X())
    {
      hide FreeOk, WriteBytes, WordBytes, PushStrings, Staged, AddPointers;
      ghost var x := ram.X();
      ghost var spec := PushStrings(x.mem[stack], args, 0, 4096);
      var physical: nat, pointers: seq<Word>, i := 4096, [], 0;
      StagedStart(x, tf, stack);
      AddNoPointers(spec);
      while i < |args|
        invariant ram.Valid() && ram.satp == old(ram.satp) && i <= |args| && physical <= 4096 && |pointers| == i
        invariant |ram.mem| == |x.mem| && ram.X() == Staged(x, tf, stack, ram.mem[stack], STACK_TOP - (4096 - physical))
        invariant spec == AddPointers(pointers, PushStrings(ram.mem[stack], args, i, physical))
      {
        PushUnfold(ram.mem[stack], args, i, physical, pointers);
        ghost var f, sp0 := ram.mem[stack], STACK_TOP - (4096 - physical);
        var argLen := |args[i]| + 1;
        physical := physical - argLen;
        StagedSp(x, tf, stack, f, sp0, sp0 - argLen);
        StoreWord(tf, TF_REGS + SP, ram.mem[tf][TF_REGS + SP] - argLen);
        pointers := pointers + [ram.mem[tf][TF_REGS + SP]];
        StagedFrame(x, tf, stack, f, sp0 - argLen, WriteBytes(f, physical, args[i] + [0]));
        CopyIn(stack, physical, args[i] + [0]);
        i := i + 1;
      }
      PushEnd(ram.mem[stack], args, physical, pointers);
      ghost var f, sp0 := ram.mem[stack], STACK_TOP - (4096 - physical);
      physical := physical - 4 * |args|;
      StagedFrame(x, tf, stack, f, sp0, WriteBytes(f, physical, WordBytes(pointers)));
      CopyIn(stack, physical, WordBytes(pointers));
      StagedSp(x, tf, stack, ram.mem[stack], sp0, sp0 - 4 * |args|);
      StoreWord(tf, TF_REGS + SP, ram.mem[tf][TF_REGS + SP] - 4 * |args|);
      StagedPoke(x, tf, stack, ram.mem[stack], sp0 - 4 * |args|);
      StoreWord(tf, TF_REGS + A0, |args|);
      StoreWord(tf, TF_REGS + A1, ram.mem[tf][TF_REGS + SP]);
    }

    /** kproc_exec, once the file has been found. */
    method Exec(file: seq<Byte>, args: seq<seq<Byte>>) returns (ok: bool)
      requires ram.Valid() && KernelInv(Now()) && ImageOk(file) && PushArguments(Zero(), args).Go?
      modifies this, ram
      ensures ram.Valid() && Did(Processes.Exec(old(Now()), file, args), ok)
    {
      hide PhysOk, SlotsOk, Resumable, HeapOk, SlotOk, BuildImage, ImageBuilt, ImageOk, ImagePages, PushArguments,
           Processes.PassArguments, Disown, AExec, Abs;
      ghost var s := Now();
      ExecOk(s, file, args);
      RunningFacts(s);
      ghost var rest := Roots(procs, kroot) - {cur};
      DisownFacts(s.x, Roots(procs, kroot), cur);
      Forget(cur);
      ghost var x0 := ram.X();
      var root, tf, stack, n;
      ghost var pages;
      ok, root, tf, stack, n, pages := Build(rest, cur, procs[cur].kstack, file);
      if !ok { return; }
      FreshStack(x0, Image(ram.X(), root, tf, stack, pages), rest[cur := root], cur, procs[cur].kstack, file);
      PassArguments(tf, stack, args);
      procs := procs[cur := Proc(procs[cur].pid, Runnable, ToUser, procs[cur].kstack, tf, root, stack,
                                 (procs[cur].heap + 4096 * n) % 0x1_0000_0000, procs[cur].kstack)];
      burned := burned + pages;
    }

    // ---- ktrap.c and uservec.S ----

    /** What the MMU finds at an address, through the table satp points to. */
    method Translate(va: Word) returns (found: bool, page: nat, flags: Word)
      ensures Mmu(ram.X(), va) == if found then Some((page, flags)) else None
    {
      found, page, flags := false, 0, 0;
      match Walk(ram.mem, ram.satp, va / 0x40_0000, (va / 4096) % 1024)
      case None =>
      case Some((p, f)) => if p < |ram.mem| { found, page, flags := true, p, f; }
    }

    /** The running process's trap frame is there, and can be written. */
    ghost predicate HasFrame()
      reads this, ram
    {
      && ram.Valid() && cur < 8 && procs[cur].trapframe < |ram.mem|
      && procs[cur].trapframe < |ram.role| && ram.role[procs[cur].trapframe].TrapFrame?
    }

    /** A store to the running process's trap frame. */
    method SetTf(k: nat, w: Word)
      requires HasFrame() && k < 1024
      modifies ram
      ensures HasFrame() && ram.satp == old(ram.satp)
      ensures Machine.SetTf(old(Now()), k, w) == Go(Now())
    {
      hide FreeOk;
      PokeRole(ram.X(), procs[cur].trapframe, k, w);
      StoreWord(procs[cur].trapframe, k, w);
    }

    /** uservec and the start of ktrap_from_user_handler. */
    method TrapEntry()
      requires ram.Valid() && UserInv(Now())
      modifies this, ram
      ensures HasFrame() && Machine.TrapEntry(old(Now())) == Go(Now()) && ram.satp == old(ram.satp)
    {
      hide UserInv, KernelInv, PhysOk, FreeOk, Mmu, Abs, SlotOk, WithRegs;
      ghost var s := Now();
      FrameHere(s);
      TrapEntryOk(s);
      TrapFrameMapped(s.x, Roots(procs, kroot), procs[cur], cur);
      var found, p, flags := Translate(0xFFFF_F000);
      ram.mem := ram.mem[p := WithRegs(ram.mem[p], regs)];
      FreeFrame(s.x, ram.X());
      StoreWord(procs[cur].trapframe, TF_EPC, pc);
      mode := InKernel;
    }

    /** ktrap_to_user and enter_user_process. */
    method EnterUser()
      requires HasFrame() && Machine.EnterUser(Now()).Go?
      modifies this, ram
      ensures ram.Valid() && Machine.EnterUser(old(Now())) == Go(Now())
    {
      hide FreeOk, Mmu;
      ghost var s := Now();
      PokeRole(ram.X(), procs[cur].trapframe, TF_SP, procs[cur].kstack);
      StoreWord(procs[cur].trapframe, TF_SP, procs[cur].kstack);
      PokeRole(ram.X(), procs[cur].trapframe, TF_HANDLER, USER_TRAP);
      StoreWord(procs[cur].trapframe, TF_HANDLER, USER_TRAP);
      var epc := ram.mem[procs[cur].trapframe][TF_EPC];
      ghost var x2 := ram.X();
      ram.satp := procs[cur].pagetable;
      FreeView(ram.X(), x2);
      var found, f, flags := Translate(0xFFFF_F000);
      regs := FrameRegs(ram.mem[f]);
      pc := epc;
      mode := InUser;
    }

    /** A value for a0, and back to user mode. */
    method ReturnWord(w: Word)
      requires HasFrame() && Machine.ReturnWord(Now(), w).Go?
      modifies this, ram
      ensures ram.Valid() && Machine.ReturnWord(old(Now()), w) == Go(Now())
    {
      hide Machine.EnterUser, Machine.SetTf, FreeOk;
      SetTf(TF_REGS + A0, w);
      EnterUser();
    }

    method ForkCall() returns (ok: bool)
      requires ram.Valid() && KernelInv(Now())
      modifies this, ram
      ensures ram.Valid() && Did((var t :- Processes.Fork(old(Now())); Machine.EnterUser(t)), ok)
    {
      hide Machine.EnterUser, Processes.Fork, AFork, Core, Resumable, Abs;
      ghost var s := Now();
      ForkOk(s);
      ok := Fork();
      if !ok { return; }
      FrameHere(Now());
      EnterUserOk(Now());
      EnterUser();
    }

    method ExecCall(file: seq<Byte>, args: seq<seq<Byte>>) returns (ok: bool)
      requires ram.Valid() && KernelInv(Now()) && ImageOk(file) && PushArguments(Zero(), args).Go?
      modifies this, ram
      ensures ram.Valid() && Did((var t :- Processes.Exec(old(Now()), file, args); Machine.EnterUser(t)), ok)
    {
      hide Machine.EnterUser, Processes.Exec, AExec, Core, Resumable, Abs, ImageOk, PushArguments;
      ghost var s := Now();
      ExecOk(s, file, args);
      ok := Exec(file, args);
      if !ok { return; }
      FrameHere(Now());
      EnterUserOk(Now());
      EnterUser();
    }

    /** A buffer copied to user memory by the kernel, through the caller's page table. */
    method CopyOut(ghost roots: map<nat, nat>, va: Word, data: seq<Byte>)
      requires ram.Valid() && PhysOk(ram.X(), roots) && cur in roots && ram.satp == roots[cur]
      requires AStoreBytes(SpaceOf(ram.mem, ram.satp), va, data).Some?
      modifies ram
      ensures ram.Valid() && StoreBytes(old(ram.X()), va, data) == Go(ram.X())
      ensures OwnPagesOnly(old(ram.X()), ram.X(), roots, cur)
    {
      hide PhysOk, FreeOk, SpaceOf, AStore, Mmu, SameLeaves, StoreVia, Link;
      ghost var x := ram.X();
      assert |x.mem| == |x.role|;
      StoreBytesOk(x, roots, cur, va, data);
      var at: Word, i := va, 0;
      assert data[0..] == data;
      while i < |data|
        invariant ram.Valid() && i <= |data| && PhysOk(ram.X(), roots) && ram.satp == x.satp
        invariant AStoreBytes(SpaceOf(ram.mem, ram.satp), at, data[i..]).Some?
        invariant StoreBytes(ram.X(), at, data[i..]) == StoreBytes(x, va, data)
      {
        assert data[i..][0] == data[i] && data[i..][1..] == data[i + 1..];
        StoreByte(roots, at, data[i]);
        at := (at as int + 1) % 0x1_0000_0000;
        i := i + 1;
      }
      assert data[i..] == [];
    }

    /** One byte of it. */
    method StoreByte(ghost roots: map<nat, nat>, va: Word, b: Byte)
      requires ram.Valid() && PhysOk(ram.X(), roots) && cur in roots && ram.satp == roots[cur]
      requires AStore(SpaceOf(ram.mem, ram.satp), va, b).Some?
      modifies ram
      ensures ram.Valid() && PhysOk(ram.X(), roots) && ram.satp == old(ram.satp)
      ensures StoreVia(old(ram.X()), va, b, false) == Go(ram.X())
      ensures SpaceOf(ram.mem, ram.satp) == AStore(SpaceOf(old(ram.mem), ram.satp), va, b).value
    {
      hide PhysOk, FreeOk, SpaceOf, AStore, Mmu, SameLeaves;
      ghost var x := ram.X();
      StoreOk(x, roots, cur, va, b, false);
      var found, p, flags := Translate(va);
      ram.mem := ram.mem[p := SetByte(ram.mem[p], va % 4096, b)];
      ReadyAlloc(ram.X(), roots);
    }

    /** The bytes read and their number, for the caller. */
    method DeliverCall(data: seq<Byte>) returns (ok: bool)
      requires ram.Valid() && KernelInv(Now()) && cur < 8 && ram.satp == procs[cur].pagetable && Abs(Now()).Runs()
      requires AStoreBytes(Abs(Now()).Cur().space, Abs(Now()).Cur().regs[A1], data).Some? && |data| < 0x1_0000_0000
      modifies this, ram
      ensures ram.Valid() && Did(Machine.Deliver(old(Now()), data), ok)
    {
      hide KernelInv, PhysOk, FreeOk, SpaceOf, AStoreBytes, StoreBytes, Machine.SetTf, Machine.EnterUser,
           OwnPagesOnly, Abs, SlotOk;
      ghost var s := Now();
      FrameHere(s);
      TfIsReg(s, A1);
      SpaceHere(s);
      CopyOut(Roots(procs, kroot), ram.mem[procs[cur].trapframe][TF_REGS + A1], data);
      OwnPagesStep(s, ram.X());
      FrameHere(Now());
      SetA0Ok(Now(), |data|);
      SetTf(TF_REGS + A0, |data|);
      EnterUserOk(Now());
      EnterUser();
      ok := true;
    }

    /** ksys_read and the copy to the caller's buffer. */
    method ReadCall() returns (ok: bool)
      requires ram.Valid() && KernelInv(Now()) && cur < 8 && ram.satp == procs[cur].pagetable && Abs(Now()).Runs()
      requires var p := Abs(Now()).Cur();
        && CanRead(io, cur, p.regs[A0])
        && var r := ReadFd(io, cur, p.regs[A0], p.regs[A2]);
        r.Go? ==> AStoreBytes(p.space, p.regs[A1], r.value.1).Some?
      modifies this, ram
      ensures ram.Valid() && Did(Machine.Read(old(Now())), ok)
    {
      hide KernelInv, Abs, AStoreBytes, Machine.Deliver, IoOk, CanRead, ReadFd, SlotOk, PhysOk, IdentityOk;
      ghost var s := Now();
      KernelIo(s);
      FrameHere(s);
      TfIsReg(s, A0);
      TfIsReg(s, A2);
      var tf := ram.mem[procs[cur].trapframe];
      ReadFdOk(io, cur, tf[TF_REGS + A0], tf[TF_REGS + A2]);
      var r := ReadFd(io, cur, tf[TF_REGS + A0], tf[TF_REGS + A2]);
      ReadLength(io, cur, tf[TF_REGS + A0], tf[TF_REGS + A2]);
      IoStep(s, r.value.0);
      io := r.value.0;
      ok := DeliverCall(r.value.1);
    }

    /** ksys_open. */
    method OpenCall(path: seq<Byte>)
      requires ram.Valid() && KernelInv(Now()) && cur < 8
      modifies this, ram
      ensures ram.Valid() && Machine.Open(old(Now()), path) == Go(Now())
    {
      hide KernelInv, Abs, IoOk, OpenPath, Machine.ReturnWord;
      ghost var s := Now();
      KernelIo(s);
      OpenPathOk(io, cur, path);
      var (d, fd) := OpenPath(io, cur, path);
      IoStep(s, d);
      io := d;
      Return(fd);
    }

    /** ksys_close. */
    method CloseCall()
      requires ram.Valid() && KernelInv(Now()) && cur < 8 && Abs(Now()).Runs()
      requires Abs(Now()).Cur().regs[A0] < OpenFiles.MAX_OPEN
      modifies this, ram
      ensures ram.Valid() && Machine.Close(old(Now())) == Go(Now())
    {
      hide KernelInv, Abs, IoOk, CloseFd, Machine.ReturnWord, SlotOk, PhysOk, IdentityOk;
      ghost var s := Now();
      KernelIo(s);
      FrameHere(s);
      TfIsReg(s, A0);
      var fd := ram.mem[procs[cur].trapframe][TF_REGS + A0];
      CloseFdOk(io, cur, fd);
      var r := CloseFd(io, cur, fd);
      IoStep(s, r.value.0);
      io := r.value.0;
      Return(r.value.1);
    }

    /** ksys_exec: nothing happens if there is no such file. */
    method ExecPathCall(env: Env) returns (ok: bool)
      requires ram.Valid() && KernelInv(Now())
      requires Found(io, env.path).Some? ==> ImageOk(Found(io, env.path).value) && PushArguments(Zero(), env.args).Go?
      modifies this, ram
      ensures ram.Valid() && Did(Machine.ExecPath(old(Now()), env), ok)
    {
      hide KernelInv, Abs, Found, ImageOk, PushArguments, Processes.Exec, Machine.EnterUser;
      ok := true;
      match Found(io, env.path) {
        case None => Resume();
        case Some(file) => ok := ExecCall(file, env.args);
      }
    }

    /** kproc_kill and the return to user mode. */
    method KillCall(pid: Word)
      requires ram.Valid() && KernelInv(Now()) && cur < 8 && ram.satp == procs[cur].pagetable
      modifies this, ram
      ensures ram.Valid() && Machine.Kill(old(Now()), pid) == Go(Now())
    {
      hide Core, Resumable, Abs, Processes.Exit, KillFrom, Machine.SetTf, Machine.EnterUser;
      ghost var s := Now();
      if procs[cur].pid == pid {
        Exit();
      } else {
        KillFromOk(s, pid, 0);
        KillOthers(pid);
        FrameHere(Now());
        SetA0Ok(Now(), 0xFFFF_FFFF);
        SetTf(TF_REGS + A0, 0xFFFF_FFFF);
        EnterUserOk(Now());
        EnterUser();
      }
    }

    method SbrkCall() returns (ok: bool)
      requires ram.Valid() && KernelInv(Now())
      modifies this, ram
      ensures ram.Valid() && Did(Machine.Sbrk(old(Now())), ok)
    {
      hide KernelInv, Abs, Processes.AddPage, Machine.SetTf, Machine.EnterUser, AGrow, SlotOk, PhysOk;
      ghost var s := Now();
      FrameHere(s);
      AddPageOk(s);
      var va;
      ok, va := AddPage();
      if !ok { return; }
      FrameHere(Now());
      SetA0Ok(Now(), va);
      SetTf(TF_REGS + A0, va);
      EnterUserOk(Now());
      EnterUser();
    }

    /** The yield of sleep. */
    method SleepCall()
      requires ram.Valid() && KernelInv(Now()) && cur < 8
      modifies this
      ensures Machine.Sleep(old(Now())) == Go(Now())
    {
      procs := procs[cur := procs[cur].(resume := AfterSleep, sp := Below(procs[cur].kstack, SLEEP_DEPTH))];
      mode := InScheduler;
    }

    /** The system-call switch of ktrap_from_user_handler. */
    method Syscall(env: Env) returns (ok: bool)
      requires ram.Valid() && KernelInv(Now()) && cur < 8 && ram.satp == procs[cur].pagetable
      requires Abs(Now()).Runs() && CallOk(io, cur, Abs(Now()).Cur(), env)
      modifies this, ram
      ensures ram.Valid() && Did(Machine.Syscall(old(Now()), env), ok)
    {
      hide KernelInv, PhysOk, SlotOk, Abs, Machine.EnterUser, Machine.ReturnWord, Machine.Read, Machine.Open,
           Machine.Close, Machine.Kill, Machine.ExecPath, Machine.Sbrk, Machine.Sleep, Processes.Fork, Processes.Exit,
           AStoreBytes, IsArgv, ImageOk, PushArguments, ReadFd, CanRead, StringAt, Buffer, Found;
      ghost var s := Now();
      FrameHere(s);
      TfIsReg(s, A7);
      TfIsReg(s, A0);
      ok := true;
      var tf := procs[cur].trapframe;
      match ram.mem[tf][TF_REGS + A7]
      case 1 => ok := ForkCall();
      case 2 => Exit();
      case 5 => ok := ReadCall();
      case 6 => KillCall(ram.mem[tf][TF_REGS + A0]);
      case 7 => ok := ExecPathCall(env);
      case 11 => Return(procs[cur].pid);
      case 12 => ok := SbrkCall();
      case 13 => SleepCall();
      case 15 => OpenCall(env.path);
      case 16 => Resume();
      case 21 => CloseCall();
      case _ => ok := false;
    }

    /** Back to user mode from a system call. */
    method Resume()
      requires ram.Valid() && KernelInv(Now())
      modifies this, ram
      ensures ram.Valid() && Machine.EnterUser(old(Now())) == Go(Now())
    {
      hide KernelInv, PhysOk, SlotOk, Abs, Machine.EnterUser;
      FrameHere(Now());
      EnterUserOk(Now());
      EnterUser();
    }

    method Return(w: Word)
      requires ram.Valid() && KernelInv(Now())
      modifies this, ram
      ensures ram.Valid() && Machine.ReturnWord(old(Now()), w) == Go(Now())
    {
      hide KernelInv, PhysOk, SlotOk, Abs, Machine.EnterUser, Machine.SetTf;
      FrameHere(Now());
      SetA0Ok(Now(), w);
      SetTf(TF_REGS + A0, w);
      Resume();
    }

    /** An ecall: entry, pc past the instruction, dispatch. */
    method Trap(env: Env) returns (ok: bool)
      requires ram.Valid() && UserInv(Now()) && Abs(Now()).Runs() && cur < 8 && CallOk(io, cur, Abs(Now()).Cur(), env)
      modifies this, ram
      ensures ram.Valid() && Did(Machine.Trap(old(Now()), env), ok)
    {
      hide UserInv, KernelInv, PhysOk, SlotOk, Machine.TrapEntry, Machine.SetTf, Machine.Syscall, CallOk, AbsProc;
      ghost var s := Now();
      var next := (pc as int + 4) % 0x1_0000_0000;
      TrapEntryOk(s);
      UserPc(s);
      TrapEntry();
      SetEpcOk(Now(), next);
      SetTf(TF_EPC, next);
      CallMoved(s.io, s.cur, Abs(s).Cur(), next, env);
      ok := Syscall(env);
    }

    /** The search of kproc_scheduler, at most once around the table. */
    method FindNext() returns (found: bool, i: nat)
      ensures Scan(procs, next % 8, 8) == if found then Some(i) else None
      ensures found ==> i < 8
    {
      i := next % 8;
      var n := 8;
      while n > 0 && procs[i].state != Runnable
        invariant 0 <= i < 8 && 0 <= n <= 8 && Scan(procs, i, n) == Scan(procs, next % 8, 8)
      {
        i, n := (i + 1) % 8, n - 1;
      }
      found := n > 0;
    }

    /** kproc_scheduler's switch to the next process; no process, no switch. */
    method Dispatch()
      requires ram.Valid() && SchedulerInv(Now())
      modifies this, ram
      ensures ram.Valid() && DispatchNext(old(Now())) == Go(Now())
    {
      hide Idle, SatpInv, KernelInv, Abs, Machine.EnterUser, Machine.ReturnWord, Scan;
      ghost var s := Now();
      var found, i := FindNext();
      if found {
        ScanSame(s, next % 8, 8);
        cur, next, mode := i, i + 1, InKernel;
        SwitchGo(s, i);
        SchedulerFrame(s, i);
        if procs[i].resume == AfterSleep { ReturnWord(0); } else { EnterUser(); }
      }
    }

    /** One step of the machine. */
    method Step(e: Event) returns (ok: bool)
      requires ram.Valid() && Inv(Now()) && EventOk(Abs(Now()), e)
      modifies this, ram
      ensures ram.Valid() && Did(Next(old(Now()), e), ok) && (ok <==> !Stops(old(Now()), e))
      ensures ok ==> Inv(Now()) && AStep(old(Abs(Now())), e) == Some(Abs(Now()))
    {
      hide UserInv, SchedulerInv, Abs, Machine.Trap, DispatchNext, Machine.TrapEntry, Machine.EnterUser, Mmu,
           StoreVia, FdOk, MemoryOk, AStep, Typed, Stops;
      ghost var s := Now();
      NextOk(s, e);
      ok := true;
      match mode
      case InKernel =>
      case InScheduler => if e.Dispatch? { SchedulerMode(s); Dispatch(); }
      case InUser =>
        UserModeInv(s);
        match e {
          case Compute(r, p) => regs, pc := r, p;
          case Load(va, rd) => ok := LoadByte(va, rd);
          case Store(va, b) => ok := UserStore(va, b);
          case Ecall(env) => ok := Trap(env);
          case UartInterrupt(keys) => Interrupt(keys);
          case Dispatch =>
        }
    }

    /** A UART interrupt: every character received goes to the terminal. */
    method Interrupt(keys: seq<Byte>)
      requires ram.Valid() && UserInv(Now())
      modifies this, ram
      ensures ram.Valid() && Next(old(Now()), UartInterrupt(keys)) == Go(Now())
    {
      hide UserInv, KernelInv, Machine.TrapEntry, Machine.EnterUser, Abs, Typed, IoOk;
      ghost var s := Now();
      UserModeOnly(s);
      TrapEntryOk(s);
      TrapEntry();
      ghost var u := Now();
      TypedIo(u, keys);
      IoStep(u, Typed(u.io, keys));
      UartInterruptHandle(keys);
      Resume();
    }

    /** The loop of UartInterruptHandle. */
    method UartInterruptHandle(keys: seq<Byte>)
      modifies this`io
      ensures io == Typed(old(io), keys)
    {
      var i := 0;
      assert keys[0..] == keys;
      while i < |keys|
        invariant i <= |keys| && Typed(io, keys[i..]) == Typed(old(io), keys)
      {
        assert keys[i..][0] == keys[i] && keys[i..][1..] == keys[i + 1..];
        io := Io(io.files, Tty.Step(io.tty, Tty.Key(keys[i])).0);
        i := i + 1;
      }
      assert keys[i..] == [];
    }

    /** A load instruction of the running process. */
    method LoadByte(va: Word, rd: Reg) returns (ok: bool)
      requires ram.Valid() && mode == InUser
      modifies this
      ensures Did(Next(old(Now()), Load(va, rd)), ok)
    {
      hide Mmu;
      var found, p, flags := Translate(va);
      ok := found && p < |ram.mem| && Readable(flags) && UserMode(flags);
      if ok { regs := regs[rd := ByteOf(ram.mem[p], va % 4096)]; }
    }

    /** A store instruction of the running process. */
    method UserStore(va: Word, b: Byte) returns (ok: bool)
      requires ram.Valid() && UserInv(Now())
      modifies ram
      ensures ram.Valid() && Did(Next(old(Now()), Store(va, b)), ok)
    {
      hide Mmu, PhysOk, FreeOk, SpaceOf, AStore, SlotOk, SameLeaves, Link;
      ghost var s := Now();
      FrameHere(s);
      StoreOk(s.x, Roots(procs, kroot), cur, va, b, true);
      var found, p, flags := Translate(va);
      ok := found && p < |ram.mem| && Writable(flags) && UserMode(flags);
      if ok {
        ram.mem := ram.mem[p := SetByte(ram.mem[p], va % 4096, b)];
        ReadyAlloc(ram.X(), Roots(procs, kroot));
      }
    }
  }

  lemma CallMoved(io: Io, o: nat, p: AProc, pc: Word, env: Env)
    requires o < 8 && CallOk(io, o, p, env)
    ensures CallOk(io, o, AProc(p.regs, pc, p.space), env)
  {
    hide AStoreBytes, IsArgv, ImageOk, PushArguments, ReadFd, CanRead, StringAt, Buffer, Found;
  }

  lemma SchedulerFrame(s: State, o: nat)
    requires Idle(s) && o < 8 && Live(s.procs, o)
    ensures s.procs[o].trapframe < |s.x.mem| && s.procs[o].trapframe < |s.x.role| &&
      s.x.role[s.procs[o].trapframe].TrapFrame?
  {
    hide PhysOk, HeapOk, IdentityOk, Leaf;
  }

  lemma UserModeOnly(s: State)
    requires UserInv(s)
    ensures s.mode == InUser
  {
    hide Core, Resumable;
  }

  lemma SchedulerMode(s: State)
    requires Inv(s) && s.mode == InScheduler
    ensures SchedulerInv(s)
  {
    hide Core, Resumable, SatpInv;
  }

  lemma UserModeInv(s: State)
    requires Inv(s) && s.mode == InUser
    ensures UserInv(s) && Abs(s).Runs() && Abs(s).mode == InUser && s.cur < 8 && Abs(s).cur == s.cur &&
      Abs(s).io == s.io
  {
    hide Core, Resumable, SpaceOf;
    RunningFacts(s);
  }

  lemma SpaceHere(s: State)
    requires KernelInv(s)
    ensures s.cur < 8 && Abs(s).Runs() && Abs(s).Cur().space == SpaceOf(s.x.mem, s.procs[s.cur].pagetable)
  {
    hide Core, Resumable, SpaceOf, IdentityOk, SlotOk;
    RunningFacts(s);
  }

  lemma FrameHere(s: State)
    requires KernelInv(s) || UserInv(s)
    ensures s.cur < 8 && s.procs[s.cur].trapframe < |s.x.mem| == |s.x.role| <= 0xC_0000
    ensures s.x.role[s.procs[s.cur].trapframe] == TrapFrame(s.cur)
    ensures SlotOk(s.x, s.procs[s.cur], s.cur) && PhysOk(s.x, Roots(s.procs, s.kroot))
    ensures s.cur in Roots(s.procs, s.kroot) && Roots(s.procs, s.kroot)[s.cur] == s.procs[s.cur].pagetable
  {
    hide FreeOk, TableOk, HeapOk, IdentityOk, Leaf;
    RunningFacts(s);
  }

  lemma FreshStack(x: Phys, im: Image, all: map<nat, nat>, o: nat, kstack: Word, file: seq<Byte>)
    requires ImageBuilt(x, im, all, o, kstack, file)
    ensures im.trapframe < |im.x.mem| && im.stack < |im.x.mem| && |im.x.role| == |im.x.mem| && im.trapframe != im.stack
    ensures im.x.role[im.trapframe].TrapFrame? && im.x.role[im.stack].User?
    ensures im.x.mem[im.stack] == Zero() && im.x.mem[im.trapframe][TF_REGS + SP] == STACK_TOP
  {
    hide PhysOk, Leaf, SpaceOf, ImageSpace, ImagePages, IdentityOk;
    ImageFacts(x, im, all, o, kstack, file);
  }

  function WithFrame(x: Phys, p: nat, f: Frame): Phys
    requires p < |x.mem|
  {
    Phys(x.mem[p := f], x.free, x.role, x.satp)
  }

  /** Half-way through the arguments: the stack page is `f` and the saved stack pointer `sp`. */
  ghost function Staged(x: Phys, tf: nat, stack: nat, f: Frame, sp: Word): Phys
    requires tf < |x.mem| && stack < |x.mem|
  {
    WithFrame(WithFrame(x, stack, f), tf, x.mem[tf][TF_REGS + SP := sp])
  }

  lemma StagedStart(x: Phys, tf: nat, stack: nat)
    requires tf < |x.mem| && stack < |x.mem| && tf != stack && x.mem[tf][TF_REGS + SP] == STACK_TOP
    ensures x == Staged(x, tf, stack, x.mem[stack], STACK_TOP)
  {
    assert x.mem[tf][TF_REGS + SP := STACK_TOP] == x.mem[tf];
  }

  lemma StagedSp(x: Phys, tf: nat, stack: nat, f: Frame, sp: Word, sp': Word)
    requires tf < |x.mem| && stack < |x.mem| && tf != stack
    ensures Poke(Staged(x, tf, stack, f, sp), tf, TF_REGS + SP, sp') == Go(Staged(x, tf, stack, f, sp'))
    ensures Staged(x, tf, stack, f, sp).mem[tf][TF_REGS + SP] == sp
    ensures Staged(x, tf, stack, f, sp').role == x.role && |Staged(x, tf, stack, f, sp').mem| == |x.mem|
    ensures Staged(x, tf, stack, f, sp').mem[stack] == f
  {
    assert x.mem[tf][TF_REGS + SP := sp][TF_REGS + SP := sp'] == x.mem[tf][TF_REGS + SP := sp'];
    var m := x.mem[stack := f];
    var g := x.mem[tf][TF_REGS + SP := sp'];
    assert m[tf := x.mem[tf][TF_REGS + SP := sp]][tf := g] == m[tf := g];
  }

  lemma StagedFrame(x: Phys, tf: nat, stack: nat, f: Frame, sp: Word, g: Frame)
    requires tf < |x.mem| && stack < |x.mem| && tf != stack
    ensures WithFrame(Staged(x, tf, stack, f, sp), stack, g) == Staged(x, tf, stack, g, sp)
    ensures Staged(x, tf, stack, f, sp).mem[stack] == f && Staged(x, tf, stack, g, sp).mem[stack] == g
    ensures Staged(x, tf, stack, g, sp).role == x.role && |Staged(x, tf, stack, g, sp).mem| == |x.mem|
  {
    var t := x.mem[tf][TF_REGS + SP := sp];
    assert x.mem[stack := f][tf := t][stack := g] == x.mem[stack := g][tf := t];
  }

  lemma StagedPoke(x: Phys, tf: nat, stack: nat, f: Frame, sp: Word)
    requires tf < |x.mem| && stack < |x.mem| && tf != stack
    ensures Poke(WithFrame(x, stack, f), tf, TF_REGS + SP, sp) == Go(Staged(x, tf, stack, f, sp))
  {
  }

  function AddPointers(ps: seq<Word>, r: Outcome<(Frame, nat, seq<Word>)>): Outcome<(Frame, nat, seq<Word>)> {
    match r
    case Halt => Halt
    case Fault => Fault
    case Go((f, at, qs)) => Go((f, at, ps + qs))
  }

  lemma AddNoPointers(r: Outcome<(Frame, nat, seq<Word>)>)
    ensures AddPointers([], r) == r
  {
    match r case Halt => case Fault => case Go((f, at, qs)) => assert [] + qs == qs;
  }

  lemma PushUnfold(f: Frame, args: seq<seq<Byte>>, i: nat, at: nat, ps: seq<Word>)
    requires i < |args| && at <= 4096 && AddPointers(ps, PushStrings(f, args, i, at)).Go?
    ensures |args[i]| + 1 <= at
    ensures var low := at - (|args[i]| + 1);
      AddPointers(ps, PushStrings(f, args, i, at)) ==
      AddPointers(ps + [STACK_BASE + low], PushStrings(WriteBytes(f, low, args[i] + [0]), args, i + 1, low))
  {
    hide WriteBytes;
    var low := at - (|args[i]| + 1);
    var r := PushStrings(WriteBytes(f, low, args[i] + [0]), args, i + 1, low);
    if r.Go? { assert ps + ([STACK_BASE + low] + r.value.2) == ps + [STACK_BASE + low] + r.value.2; }
  }

  lemma PushEnd(f: Frame, args: seq<seq<Byte>>, at: nat, ps: seq<Word>)
    requires at <= 4096
    ensures AddPointers(ps, PushStrings(f, args, |args|, at)) == Go((f, at, ps))
  {
    assert ps + [] == ps;
  }

  /** The three pages a process gives back: its own, in use, and none of them page 0. */
  ghost predicate OwnPages(x: Phys, p: Proc, o: nat) {
    && |x.role| == |x.mem|
    && 0 < p.trapframe < |x.role| && x.role[p.trapframe] == TrapFrame(o)
    && 0 < p.pagetable < |x.role| && x.role[p.pagetable] == Root(o)
    && 0 < p.userStack < |x.role| && x.role[p.userStack].User?
  }

  lemma SlotPages(s: State, o: nat)
    requires KernelInv(s) && o < 8 && Live(s.procs, o)
    ensures OwnPages(s.x, s.procs[o], o) && s.cur < 8
  {
    hide FreeOk, TableOk, IdentityOk, Leaf, HeapSum, Resumable;
    LiveRoot(s, o);
    RootRole(s.x, Roots(s.procs, s.kroot), o);
  }

  lemma ReleaseRole(x: Phys, p: nat)
    requires Pages.Release(x, p).Go?
    ensures var y := Pages.Release(x, p).value; |y.mem| == |x.mem| && y.role == x.role[p := Free] && p < |x.role|
  {
  }

  lemma ReleaseSame(x: Phys, p: Proc, q: Proc)
    requires q.trapframe == p.trapframe && q.pagetable == p.pagetable && q.userStack == p.userStack
    ensures ReleaseProc(x, p) == ReleaseProc(x, q)
  {
  }

  lemma DisownFree(x: Phys, o: nat)
    requires FreeOk(x) && ShapeOk(x)
    ensures FreeOk(Disown(x, o)) && |Disown(x, o).role| == |x.role|
  {
    var y := Disown(x, o);
    forall k | 0 <= k < |y.free| ensures LinkedAt(y, k) { assert LinkedAt(x, k); }
    forall p | 0 <= p < |y.role| && y.role[p] == Free ensures Listed(y.free, p) { assert Listed(x.free, p); }
  }

  lemma KillUnfold(s: State, pid: Word, i: nat)
    requires i < 8
    ensures !(s.procs[i].state != Unused && s.procs[i].pid == pid) ==> KillFrom(s, pid, i) == KillFrom(s, pid, i + 1)
    ensures s.procs[i].state != Unused && s.procs[i].pid == pid && ReleaseProc(s.x, s.procs[i]).Go? ==>
      KillFrom(s, pid, i) ==
      KillFrom(s.WithPhys(Disown(ReleaseProc(s.x, s.procs[i]).value, i)).WithProc(i, s.procs[i].(state := Unused)), pid, i + 1)
  {
    hide ReleaseProc, Disown;
  }

  lemma KillEnd(s: State, pid: Word)
    ensures KillFrom(s, pid, 8) == Go(s)
  {
  }

  lemma CopyKeeps(x: Phys, y: Phys, all: map<nat, nat>, c: nat, tf: nat, p: Proc)
    requires SpaceCopiedTo(x, y, all, c, tf, p.pagetable) && p.trapframe < |x.role| && x.role[p.trapframe] != Free
    ensures ShapeOk(y) && PhysOk(y, all) && c in all && p.trapframe < |y.role| &&
      y.role[p.trapframe] == x.role[p.trapframe]
    ensures tf < |y.role| && y.role[tf] == TrapFrame(c) && GetPage(y.mem, all[c], 1023, 1022).Some? && tf != p.trapframe
  {
    hide PhysOk, SpaceOf, IdentityOk, Leaf, GetPage;
  }

  lemma GetSame(x: Phys, y: Phys, roots: map<nat, nat>, o: nat, i: nat, j: nat)
    requires PhysOk(x, roots) && PhysOk(y, roots) && o in roots && SameLeaves(x.mem, y.mem, roots) && i < 1024 &&
      j < 1024
    ensures GetPage(y.mem, roots[o], i, j) == GetPage(x.mem, roots[o], i, j)
  {
    hide PhysOk, Leaf, GetPage, Walk;
    WalkAgrees(x, roots, o, i, j);
    WalkAgrees(y, roots, o, i, j);
  }

  // ---- kernel_main ----

  /** kmem_init, kvmem_init_kernel, kvmem_init_hart, and the three pages of the disk driver. */
  method BootRam(mem: Memory, ramBegin: nat) returns (ok: bool, ram: Ram, kroot: nat)
    requires Boot.RamOk(mem, ramBegin)
    ensures fresh(ram) && ram.Valid()
    ensures var r := Boot.BootMemory(mem, ramBegin);
      && r != Fault && (ok <==> r.Go?) && (ok ==> r == Go((ram.X(), kroot)))
      && (ok ==> Boot.Booted(ram.X(), kroot, ramBegin, |mem|))
  {
    hide PhysOk, FreeOk, Boot.FreeRam, Processes.MapKernel, Pages.Alloc, Leaf, SpaceOf, Boot.Untouched;
    Boot.BootMemoryOk(mem, ramBegin);
    ram := new Ram(mem, ramBegin);
    kroot := 0;
    UntouchedMem(mem, ramBegin);
    ram.Init(ramBegin);
    ghost var x0 := ram.X();
    ReadyAlloc(x0, map[]);
    ok, kroot := ram.Alloc(Root(KERNEL_TABLE));
    if !ok { return; }
    HasPages(x0, Root(KERNEL_TABLE));
    ghost var x1, kr, all := NewTable(x0, map[], KERNEL_TABLE);
    assert all == map[KERNEL_TABLE := kroot];
    EmptySpace(x1.mem, kroot);
    ok := ram.MapKernel(all, KERNEL_TABLE, kroot);
    if !ok { return; }
    ghost var x2 := ram.X();
    ram.satp := kroot;
    ReadyAlloc(x2, all);
    FreeView(ram.X(), x2);
    Boot.KernelTableOk(x0, ramBegin);
    Boot.LoadSatp(x2, kroot, ramBegin);
    ok := TakePage(ram, kroot, ramBegin);
    if !ok { return; }
    ok := TakePage(ram, kroot, ramBegin);
    if !ok { return; }
    ok := TakePage(ram, kroot, ramBegin);
  }

  method TakePage(ram: Ram, ghost kroot: nat, ghost lo: nat) returns (ok: bool)
    requires ram.Valid() && Boot.Booted(ram.X(), kroot, lo, |ram.mem|)
    modifies ram
    ensures ram.Valid() && |ram.mem| == old(|ram.mem|)
    ensures var r := Pages.Alloc(old(ram.X()), Role.Boot);
      && r != Fault && (ok <==> r.Go?) && (ok ==> r.value.0 == ram.X() && Boot.Booted(ram.X(), kroot, lo, |ram.mem|))
  {
    hide PhysOk, FreeOk, Pages.Alloc;
    Boot.BootAlloc(ram.X(), kroot, lo);
    ReadyAlloc(ram.X(), map[KERNEL_TABLE := kroot]);
    var page;
    AllocSize(ram.X(), Role.Boot);
    ok, page := ram.Alloc(Role.Boot);
  }

  lemma AllocSize(x: Phys, r: Role)
    ensures Pages.Alloc(x, r).Go? ==> |Pages.Alloc(x, r).value.0.mem| == |x.mem|
  {
  }

  lemma UntouchedMem(mem: Memory, ramBegin: nat)
    ensures Boot.Untouched(mem, ramBegin).mem == mem && Boot.Untouched(mem, ramBegin).satp == 0
  {
  }

  /** From power-on to the scheduler: memory, the files on the disk, and the shell as the first process. */
  method PowerUp(mem: Memory, ramBegin: nat, kstacks: seq<Word>, disk: seq<Ustar.Sector>) returns (ok: bool, k: Kernel)
    requires Boot.RamOk(mem, ramBegin) && |kstacks| == 8 && ImageOk(Boot.Shell(disk))
    ensures k.Did(Boot.BootState(mem, ramBegin, kstacks, disk), ok) && (ok <==> !Boot.BootStops(mem, ramBegin, disk))
    ensures fresh(k) && fresh(k.ram) && (ok ==> k.ram.Valid() && Inv(k.Now()) && Abs(k.Now()) == Boot.ABoot(disk))
  {
    hide PhysOk, Boot.BootMemory, Processes.Create, ImageOk, Boot.ABoot, Boot.BootStops, Abs, Ustar.Load, FreshIo,
         IdentityOk;
    Boot.BootOk(mem, ramBegin, kstacks, disk);
    Boot.BootHaltsIff(mem, ramBegin, kstacks, disk);
    var ram, kroot;
    ok, ram, kroot := BootRam(mem, ramBegin);
    var fs := new FileSystemImpl.FileSystem(disk);
    var loaded := false;
    if ok { loaded := fs.Init(); }
    k := new Kernel(ram, ramBegin, kroot, kstacks, fs.files);
    if !loaded { return false, k; }
    Boot.FirstState(ram.X(), ramBegin, kroot, kstacks, disk);
    ok := k.Create(fs.files[Boot.SHELL].data);
  }

  lemma SegmentsUnfold(x: Phys, o: nat, root: nat, file: seq<Byte>, h: nat, taken: set<nat>)
    requires h < SegmentCount(file)
    ensures AddPages(taken, Images.LoadSegments(x, o, root, file, h)) ==
      match LoadPages(x, o, root, file, SegmentAt(file, h), 0)
      case Halt => Halt
      case Fault => Fault
      case Go((y, s)) => AddPages(taken + s, Images.LoadSegments(y, o, root, file, h + 1))
  {
    hide LoadPages, SegmentAt, SegmentCount;
    match LoadPages(x, o, root, file, SegmentAt(file, h), 0)
    case Halt =>
    case Fault =>
    case Go((y, s)) =>
      match Images.LoadSegments(y, o, root, file, h + 1)
      case Halt =>
      case Fault =>
      case Go((z, t)) => assert taken + (s + t) == taken + s + t;
  }

  lemma TakenPage(x: Phys, r: Role)
    requires Pages.Alloc(x, r).Go?
    ensures var (y, p) := Pages.Alloc(x, r).value; p < |y.mem| && p < |y.role| && y.role[p] == r
  {
  }

  lemma PokeRole(x: Phys, p: nat, k: nat, w: Word)
    requires k < 1024 && p < |x.mem|
    ensures Poke(x, p, k, w).Go? && Poke(x, p, k, w).value.role == x.role && |Poke(x, p, k, w).value.mem| == |x.mem|
  {
  }

  lemma StartedFrame(x: Phys, y: Phys, all: map<nat, nat>, o: nat, tf: nat)
    requires Started(x, y, all, o, tf)
    ensures tf < |y.mem| == |y.role| <= 0xC_0000 && y.role[tf] == TrapFrame(o) && PhysOk(y, all) && o in all
  {
    hide TableOk, FreeOk, Leaf, IdentityOk;
  }

  lemma StartedGains(x: Phys, y: Phys, z: Phys, all: map<nat, nat>, o: nat, tf: nat, pages: set<nat>)
    requires Started(x, y, all, o, tf) && Gained(y, z, all, o, pages)
    ensures Started(x, z, all, o, tf)
  {
    hide PhysOk, Leaf;
    StartedGrow(x, y, z, all, o, tf);
  }
}
