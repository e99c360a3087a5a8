/**
 Boot: all of free RAM goes onto the free list, the kernel gets its table, the
 disk driver its three pages, and the first process is created.
 */
module Boot {
  import opened Sv32
  import opened Bytes
  import opened Pages
  import opened PageTables
  import opened Spaces
  import opened Images
  import opened Processes
  import opened Building
  import opened Machine
  import opened AbstractOs
  import opened Devices
  import Ustar
  import OpenFiles
  import opened Invariant
  import opened Traps
  import opened Forking
  import opened Executing
  import opened Refinement
  import opened Capacity

  /** kmem_init: every page from `k` to the end of RAM is freed. */
  function FreeRam(x: Phys, k: nat): Outcome<Phys>
    decreases |x.mem| - k
  {
    if k >= |x.mem| then Go(x)
    else
      var y :- Release(x, k);
      if |y.mem| != |x.mem| then Fault else FreeRam(y, k + 1)
  }

  /** Physical memory before any allocation. */
  function Untouched(mem: Memory, ramBegin: nat): Phys {
    Phys(mem, [], seq<Role>(|mem|, p => if p < ramBegin then Role.Kernel else Role.Boot), 0)
  }

  function EmptySlots(kstacks: seq<Word>): ProcTable
    requires |kstacks| == 8
  {
    seq<Proc>(8, i requires 0 <= i < 8 => Proc(0, Unused, Nowhere, 0, 0, 0, 0, USER_BASE, kstacks[i]))
  }

  /** Memory with the allocator, the kernel's table loaded in satp, and the driver's pages taken. */
  function BootMemory(mem: Memory, ramBegin: nat): Outcome<(Phys, nat)> {
    var x0 :- FreeRam(Untouched(mem, ramBegin), ramBegin);
    var (x1, kroot) :- Alloc(x0, Root(KERNEL_TABLE));
    var x2 :- MapKernel(x1, KERNEL_TABLE, kroot, 0);
    var x3 := Phys(x2.mem, x2.free, x2.role, kroot);
    var (x4, _) :- Alloc(x3, Role.Boot);
    var (x5, _) :- Alloc(x4, Role.Boot);
    var (x6, _) :- Alloc(x5, Role.Boot);
    Go((x6, kroot))
  }

  // ---- the files ----

  /** The file that becomes the first process. */
  const SHELL: nat := 2

  /** filesystem_init: the archive on the disk becomes the file table. */
  function LoadDisk(disk: seq<Ustar.Sector>): Outcome<Ustar.FileTable> {
    Ustar.Load(disk, Ustar.NoFiles(), seq<Byte>(Ustar.SECTOR, _ => 0), 0, 0)
  }

  /** The files that boot finds, if it gets through the disk. */
  function Files(disk: seq<Ustar.Sector>): Ustar.FileTable {
    if LoadDisk(disk).Go? then LoadDisk(disk).value else Ustar.NoFiles()
  }

  function Shell(disk: seq<Ustar.Sector>): seq<Byte> { Files(disk)[SHELL].data }

  lemma FilesOk(disk: seq<Ustar.Sector>)
    ensures LoadDisk(disk) != Fault && IoOk(FreshIo(Files(disk)))
  {
    hide Ustar.Load;
    Ustar.LoadSafe(disk, Ustar.NoFiles(), seq<Byte>(Ustar.SECTOR, _ => 0), 0, 0);
    OpenFiles.FreshValid(Files(disk));
  }

  /** Everything before the first process. */
  function Start(x: Phys, ramBegin: nat, kroot: nat, kstacks: seq<Word>, disk: seq<Ustar.Sector>): State
    requires |kstacks| == 8
  {
    State(x, ramBegin, kroot, EmptySlots(kstacks), 0, 0, InScheduler, seq<Word>(31, _ => 0), 0, {}, FreshIo(Files(disk)))
  }

  function BootState(mem: Memory, ramBegin: nat, kstacks: seq<Word>, disk: seq<Ustar.Sector>): Outcome<State>
    requires |kstacks| == 8
  {
    var (x, kroot) :- BootMemory(mem, ramBegin);
    var _ :- LoadDisk(disk);
    Create(Start(x, ramBegin, kroot, kstacks, disk), Shell(disk))
  }

  /** What the machine and the linker script provide: free RAM below user space, and not too much of it. */
  ghost predicate RamOk(mem: Memory, ramBegin: nat) {
    0 < ramBegin <= |mem| <= 0xC_0000 && |mem| - ramBegin <= 0x3_FFFE
  }

  /** The free list lists RAM backwards, last page first. */
  ghost predicate FreedFrom(x: Phys, lo: nat, k: nat) {
    && PhysOk(x, map[]) && |x.free| == k - lo && x.satp == 0
    && (forall j :: 0 <= j < |x.free| ==> x.free[j] == k - 1 - j)
    && (forall p {:trigger x.role[p]} :: 0 <= p < |x.role| ==>
         x.role[p] == if p < lo then Role.Kernel else if p < k then Free else Role.Boot)
  }

  lemma {:induction false} FreeRamOk(x: Phys, lo: nat, k: nat)
    requires 0 < lo <= k <= |x.mem| && FreedFrom(x, lo, k)
    ensures FreeRam(x, k).Go? && |FreeRam(x, k).value.mem| == |x.mem|
    ensures FreedFrom(FreeRam(x, k).value, lo, |x.mem|)
    decreases |x.mem| - k
  {
    if k < |x.mem| {
      ReleaseOk(x, map[], k);
      hide TableOk, FreeOk;
      var y := Release(x, k).value;
      assert y.role[k] == Free;
      FreeRamOk(y, lo, k + 1);
    }
  }

  lemma StartRam(mem: Memory, ramBegin: nat)
    requires RamOk(mem, ramBegin)
    ensures FreedFrom(Untouched(mem, ramBegin), ramBegin, ramBegin)
  {
  }

  lemma KernelTableOk(x0: Phys, lo: nat)
    requires 0 < lo <= |x0.mem| <= 0xC_0000 && FreedFrom(x0, lo, |x0.mem|) && x0.free != []
    ensures Alloc(x0, Root(KERNEL_TABLE)).Go?
    ensures var (x1, kroot) := Alloc(x0, Root(KERNEL_TABLE)).value;
      var r := MapKernel(x1, KERNEL_TABLE, kroot, 0);
      && r != Fault
      && (r.Go? ==>
        && PhysOk(r.value, map[KERNEL_TABLE := kroot]) && |r.value.mem| == |x0.mem| && kroot !in r.value.free
        && IdentityOk(r.value.mem, kroot)
        && forall p :: 0 <= p < lo ==> r.value.role[p] == Role.Kernel)
  {
    var x1, kroot, all := NewTable(x0, map[], KERNEL_TABLE);
    assert all == map[KERNEL_TABLE := kroot];
    EmptySpace(x1.mem, kroot);
    MapKernelOk(x1, all, KERNEL_TABLE, 0);
    var r := MapKernel(x1, KERNEL_TABLE, kroot, 0);
    if r.Go? {
      assert all[KERNEL_TABLE] == kroot;
      RootRole(r.value, all, KERNEL_TABLE);
      RootNotFree(r.value, kroot);
    }
    hide PhysOk, FreeOk, TableOk, Leaf, SpaceOf, MapKernel;
  }

  lemma RootNotFree(x: Phys, p: nat)
    requires ShapeOk(x) && FreeOk(x) && p < |x.role| && x.role[p] != Free
    ensures p !in x.free
  {
    forall k | 0 <= k < |x.free| ensures x.free[k] != p { assert LinkedAt(x, k); }
  }

  /** What boot has set up before the first process. */
  ghost predicate Booted(x: Phys, kroot: nat, lo: nat, n: nat) {
    && PhysOk(x, map[KERNEL_TABLE := kroot]) && x.satp == kroot && |x.mem| == n && IdentityOk(x.mem, kroot)
    && forall p :: 0 <= p < lo && p < |x.role| ==> x.role[p] == Role.Kernel
  }

  lemma BootAlloc(x: Phys, kroot: nat, lo: nat)
    requires Booted(x, kroot, lo, |x.mem|)
    ensures Alloc(x, Role.Boot) != Fault
    ensures Alloc(x, Role.Boot).Go? ==> Booted(Alloc(x, Role.Boot).value.0, kroot, lo, |x.mem|)
  {
    hide TableOk, FreeOk, Leaf;
    var roots := map[KERNEL_TABLE := kroot];
    AllocOk(x, roots, Role.Boot, KERNEL_TABLE);
    if Alloc(x, Role.Boot).Go? {
      assert roots[KERNEL_TABLE] == kroot;
      SameIdentity(x, Alloc(x, Role.Boot).value.0, roots, KERNEL_TABLE);
    }
  }

  lemma BootMemoryOk(mem: Memory, ramBegin: nat)
    requires RamOk(mem, ramBegin)
    ensures BootMemory(mem, ramBegin) != Fault
    ensures BootMemory(mem, ramBegin).Go? ==>
      Booted(BootMemory(mem, ramBegin).value.0, BootMemory(mem, ramBegin).value.1, ramBegin, |mem|)
  {
    hide PhysOk, MapKernel, FreeRam, Alloc, Leaf;
    StartRam(mem, ramBegin);
    FreeRamOk(Untouched(mem, ramBegin), ramBegin, ramBegin);
    var x0 := FreeRam(Untouched(mem, ramBegin), ramBegin).value;
    if x0.free == [] {
      assert Alloc(x0, Root(KERNEL_TABLE)).Halt? by { NoPages(x0); }
    } else {
      KernelTableOk(x0, ramBegin);
      var (x1, kroot) := Alloc(x0, Root(KERNEL_TABLE)).value;
      var r := MapKernel(x1, KERNEL_TABLE, kroot, 0);
      if r.Go? {
        var x3 := Phys(r.value.mem, r.value.free, r.value.role, kroot);
        LoadSatp(r.value, kroot, ramBegin);
        BootAlloc(x3, kroot, ramBegin);
        if Alloc(x3, Role.Boot).Go? {
          var x4 := Alloc(x3, Role.Boot).value.0;
          BootAlloc(x4, kroot, ramBegin);
          if Alloc(x4, Role.Boot).Go? { BootAlloc(Alloc(x4, Role.Boot).value.0, kroot, ramBegin); }
        }
      }
    }
  }

  lemma NoPages(x: Phys)
    requires x.free == []
    ensures forall r :: Alloc(x, r).Halt?
  {
  }

  lemma LoadSatp(x: Phys, kroot: nat, lo: nat)
    requires PhysOk(x, map[KERNEL_TABLE := kroot]) && IdentityOk(x.mem, kroot)
    requires forall p :: 0 <= p < lo && p < |x.role| ==> x.role[p] == Role.Kernel
    ensures Booted(Phys(x.mem, x.free, x.role, kroot), kroot, lo, |x.mem|)
  {
    hide Leaf;
    PhysSatp(x, map[KERNEL_TABLE := kroot], KERNEL_TABLE);
    hide PhysOk;
  }

  // ---- kproc_create ----

  /** The new process: zeroed registers but for sp, the image, and an empty stack. */
  function NewProcess(file: seq<Byte>): AProc {
    AProc(seq<Word>(31, _ => 0)[SP := STACK_TOP], EntryPoint(file),
          (ImageSpace(map[], file, 0) - {TRAPFRAME_PAGE})[STACK_PAGE := Page(RWXU, Zero())])
  }

  lemma NewRegs(kstack: Word, entry: Word)
    ensures var f := Zero()[TF_SP := kstack][TF_HANDLER := USER_TRAP][TF_EPC := entry][TF_REGS + SP := STACK_TOP];
      FrameRegs(f) == seq<Word>(31, _ => 0)[SP := STACK_TOP] && f[TF_EPC] == entry
  {
  }

  /** Slot `c` got a fresh process, and nothing else changed. */
  ghost predicate Created(s: State, t: State, c: nat, file: seq<Byte>) {
    && c < 8 && Idle(t) && Live(t.procs, c) && t.x.satp == t.kroot && t.cur == s.cur
    && (IdentityOk(s.x.mem, s.kroot) ==> IdentityOk(t.x.mem, t.kroot))
    && Abs(t) == AState(Abs(s).procs[c := Some(NewProcess(file))], Abs(s).heap, s.cur, s.next, InScheduler, s.io)
  }

  /** kproc_create fills the first free slot with a fresh process and leaves all others alone. */
  lemma CreateOk(s: State, file: seq<Byte>)
    requires Idle(s) && s.x.satp == s.kroot && ImageOk(file)
    ensures Create(s, file) != Fault
    ensures Create(s, file).Go? ==> Created(s, Create(s, file).value, FirstUnused(s.procs, 0), file)
  {
    hide FreeOk, TableOk, Leaf, SpaceOf, IdentityOk, SlotsOk, HeapOk, Resumable, BuildImage, ImageOk, PhysOk,
         ImageBuilt;
    var c := FirstUnused(s.procs, 0);
    if c < 8 {
      var roots := Roots(s.procs, s.kroot);
      assert View(s) == s.x;
      LiveRoot(s, c);
      BuildImageOk(s.x, roots, c, s.procs[c].kstack, file);
      var r := BuildImage(s.x, c, s.procs[c].kstack, file);
      if r.Go? { CreateStep(s, file, c, r.value); }
    }
  }

  lemma CreateStep(s: State, file: seq<Byte>, c: nat, im: Image)
    requires Idle(s) && s.x.satp == s.kroot && c == FirstUnused(s.procs, 0) < 8
    requires BuildImage(s.x, c, s.procs[c].kstack, file) == Go(im)
    requires ImageBuilt(s.x, im, Roots(s.procs, s.kroot)[c := im.root], c, s.procs[c].kstack, file)
    ensures Create(s, file).Go?
    ensures Created(s, Create(s, file).value, c, file)
  {
    hide FreeOk, TableOk, Leaf, SpaceOf, IdentityOk, SlotsOk, HeapOk, Resumable, BuildImage, PhysOk, ImageSpace,
         ImagePages, SlotOk, AbsProc, SameLeaves;
    var p := s.procs[c];
    var q := Proc(c + 1, Runnable, ToUser, p.kstack, im.trapframe, im.root, im.stack, p.heap, p.kstack);
    var all: map<nat, nat> := Roots(s.procs, s.kroot)[c := im.root];
    var t := s.WithPhys(im.x).WithProc(c, q);
    assert Create(s, file) == Go(t);
    RootsExtend(s.procs, s.kroot, c, q);
    ExecSlot(s.x, im, im.x, all, c, p.kstack, file, q) by { SameRefl(im.x.mem, all); }
    HeapNewSlot(s.x, im.x, s.ramBegin, s.procs, s.burned, c, q);
    CreateView(s, im, all, file, c, q, t);
    if IdentityOk(s.x.mem, s.kroot) { KernelIdentity(s.x, im, all, c, p.kstack, file, s.kroot); }
  }

  /** The kernel's own table does not change. */
  lemma KernelIdentity(x: Phys, im: Image, all: map<nat, nat>, c: nat, kstack: Word, file: seq<Byte>, kroot: nat)
    requires ImageBuilt(x, im, all, c, kstack, file) && c < 8 && KERNEL_TABLE in all && all[KERNEL_TABLE] == kroot
    requires IdentityOk(x.mem, kroot)
    ensures IdentityOk(im.x.mem, kroot)
  {
    hide PhysOk, Leaf, SpaceOf, ImageSpace, ImagePages;
  }

  lemma SameRefl(m: Memory, roots: map<nat, nat>)
    ensures SameLeaves(m, m, roots)
  {
  }

  lemma CreateView(s: State, im: Image, all: map<nat, nat>, file: seq<Byte>, c: nat, q: Proc, t: State)
    requires Idle(s) && c < 8 && s.procs[c].state == Unused && s.x.satp == s.kroot
    requires ImageBuilt(s.x, im, all, c, q.kstack, file) && SlotOk(im.x, q, c)
    requires q.state == Runnable && Returns(q) && q.resume == ToUser && q.trapframe == im.trapframe &&
      q.pagetable == im.root &&
      q.heap == s.procs[c].heap
    requires t == s.WithPhys(im.x).WithProc(c, q)
    ensures SlotsOk(t.x, t.procs) && Resumable(t) && t.x.satp == s.kroot
    ensures Abs(t) == AState(Abs(s).procs[c := Some(NewProcess(file))], Abs(s).heap, s.cur, s.next, InScheduler, s.io)
  {
    hide FreeOk, TableOk, Leaf, SpaceOf, IdentityOk, HeapOk, PhysOk, ImageSpace, ImagePages, SlotOk, SameLeaves,
         FrameRegs;
    var a := AState(Abs(s).procs[c := Some(NewProcess(file))], Abs(s).heap, s.cur, s.next, InScheduler, s.io);
    NewRegs(q.kstack, EntryPoint(file));
    assert AbsProc(t, c) == NewProcess(file);
    hide AbsProc;
    forall b | 0 <= b < 8
      ensures Live(t.procs, b) ==> SlotOk(t.x, t.procs[b], b)
      ensures AbsSlot(t, b) == a.procs[b]
    {
      if b != c && Live(s.procs, b) {
        GrowsKeeps(s.x, im.x, c, b);
        OtherSlot(s, t, b);
      }
    }
    AbsIs(t, a);
  }

  lemma OtherSlot(s: State, t: State, b: nat)
    requires Core(s) && b < 8 && Live(s.procs, b) && t.procs[b] == s.procs[b] && Keeps(s.x, t.x, b)
    requires t.cur == s.cur && s.mode == InScheduler && t.mode == InScheduler
    ensures SlotOk(t.x, t.procs[b], b) && AbsSlot(t, b) == AbsSlot(s, b)
  {
    hide SpaceOf, FreeOk, TableOk, Leaf, IdentityOk;
    LiveRoot(s, b);
    SlotFrame(View(s), t.x, Roots(s.procs, s.kroot), s.procs[b], b);
  }

  // ---- the whole of boot ----

  /** The abstract system after boot: the shell alone, nothing running yet, no file open and nothing typed. */
  ghost function ABoot(disk: seq<Ustar.Sector>): AState { Alone(NewProcess(Shell(disk)), FreshIo(Files(disk))) }

  /** One process that has not run yet. */
  function Alone(p: AProc, io: Io): AState {
    AState(seq<Option<AProc>>(8, i => if i == 0 then Some(p) else None), seq<Word>(8, _ => USER_BASE), 0, 0, InScheduler, io)
  }

  lemma {:induction false} NoHeapYet(procs: ProcTable, i: nat)
    requires forall o :: 0 <= o < 8 ==> procs[o].heap == USER_BASE
    ensures HeapSum(procs, i) == 0
    decreases 8 - i
  {
    if i < 8 { NoHeapYet(procs, i + 1); }
  }

  /** The scheduler's state before the first process. */
  lemma FirstState(x: Phys, ramBegin: nat, kroot: nat, kstacks: seq<Word>, disk: seq<Ustar.Sector>)
    requires |kstacks| == 8 && 0 < ramBegin <= |x.mem| && |x.mem| - ramBegin <= 0x3_FFFE &&
      Booted(x, kroot, ramBegin, |x.mem|)
    ensures Idle(Start(x, ramBegin, kroot, kstacks, disk)) && IdentityOk(x.mem, kroot) && x.satp == kroot
  {
    hide PhysOk, Files, IoOk, FreshIo, Leaf;
    var procs := EmptySlots(kstacks);
    assert Roots(procs, kroot) == map[KERNEL_TABLE := kroot];
    NoHeapYet(procs, 0);
    ShapeIs(x, map[KERNEL_TABLE := kroot]);
    FilesOk(disk);
  }

  /** With the kernel's table loaded and a process in slot 0 the scheduler can start. */
  lemma CanSchedule(s: State)
    requires Idle(s) && s.x.satp == s.kroot && IdentityOk(s.x.mem, s.kroot) && s.cur == 0 && Live(s.procs, 0)
    ensures SchedulerInv(s)
  {
    hide PhysOk, SlotsOk, HeapOk, Resumable, IoOk, Leaf, KernelMapped, IdentityOk;
    assert View(s) == s.x;
    LiveRoot(s, 0);
    TableMaps(s.x, Roots(s.procs, s.kroot), KERNEL_TABLE);
    assert Phys(s.x.mem, s.x.free, s.x.role, s.x.satp) == s.x;
  }

  /** Boot ends in a state that satisfies the invariant, or the machine has too little memory or too large a file and
      halts. */
  lemma BootOk(mem: Memory, ramBegin: nat, kstacks: seq<Word>, disk: seq<Ustar.Sector>)
    requires RamOk(mem, ramBegin) && |kstacks| == 8 && ImageOk(Shell(disk))
    ensures BootState(mem, ramBegin, kstacks, disk) != Fault
    ensures BootState(mem, ramBegin, kstacks, disk).Go? ==>
      Inv(BootState(mem, ramBegin, kstacks, disk).value) &&
        Abs(BootState(mem, ramBegin, kstacks, disk).value) == ABoot(disk)
  {
    hide PhysOk, BootMemory, Create, ImageOk, NewProcess, AbsProc, LoadDisk, Files, Shell, Idle, IdentityOk, FreshIo,
         IoOk;
    BootMemoryOk(mem, ramBegin);
    FilesOk(disk);
    var r := BootMemory(mem, ramBegin);
    if r.Go? {
      var (x, kroot) := r.value;
      var s := Start(x, ramBegin, kroot, kstacks, disk);
      FirstState(x, ramBegin, kroot, kstacks, disk);
      CreateOk(s, Shell(disk));
      FirstSlot(kstacks);
      if Create(s, Shell(disk)).Go? {
        CanSchedule(Create(s, Shell(disk)).value);
        assert Abs(Create(s, Shell(disk)).value).procs == ABoot(disk).procs;
        assert Abs(Create(s, Shell(disk)).value).heap == ABoot(disk).heap;
      }
    }
  }

  lemma FirstSlot(kstacks: seq<Word>)
    requires |kstacks| == 8
    ensures FirstUnused(EmptySlots(kstacks), 0) == 0 && EmptySlots(kstacks)[0].kstack == kstacks[0]
  {
  }

  // ---- how much memory boot needs ----

  /** The kernel's root and identity map, and the driver's pages. */
  function KernelPrice(n: nat): nat { 1 + Tables(n) + 3 }

  lemma BootedFacts(x: Phys, kroot: nat, lo: nat, n: nat)
    requires Booted(x, kroot, lo, n)
    ensures PhysOk(x, map[KERNEL_TABLE := kroot]) && |x.mem| == n
  {
    hide PhysOk;
  }

  lemma BootMemoryCost(mem: Memory, ramBegin: nat)
    requires RamOk(mem, ramBegin)
    ensures BootMemory(mem, ramBegin).Halt? <==> |mem| - ramBegin < KernelPrice(|mem|)
    ensures BootMemory(mem, ramBegin).Go? ==>
      |BootMemory(mem, ramBegin).value.0.free| == |mem| - ramBegin - KernelPrice(|mem|)
  {
    hide PhysOk, MapKernel, FreeRam, SpaceOf, IdentityBelow, Tables, Valid, SameLeaves, Leaf, Alloc, Untouched, Rows;
    StartRam(mem, ramBegin);
    UntouchedSize(mem, ramBegin);
    FreeRamOk(Untouched(mem, ramBegin), ramBegin, ramBegin);
    var x0 := FreeRam(Untouched(mem, ramBegin), ramBegin).value;
    ShapeIs(x0, map[]);
    if x0.free == [] {
      NoPages(x0);
    } else {
      var x1, kroot, all := NewTable(x0, map[], KERNEL_TABLE);
      EmptySpace(x1.mem, kroot);
      Unfilled(x1.mem, kroot);
      assert all[KERNEL_TABLE] == kroot && |x1.mem| == |mem|;
      MapKernelCost(x1, all, KERNEL_TABLE, 0);
      KernelTableOk(x0, ramBegin);
      if MapKernel(x1, KERNEL_TABLE, kroot, 0).Go? {
        var x2 := MapKernel(x1, KERNEL_TABLE, kroot, 0).value;
        LoadSatp(x2, kroot, ramBegin);
        DriverPages(Phys(x2.mem, x2.free, x2.role, kroot), kroot);
      }
    }
  }

  /** The driver's three pages. */
  lemma DriverPages(x: Phys, kroot: nat)
    requires PhysOk(x, map[KERNEL_TABLE := kroot])
    ensures var r := (var (x4, _) :- Alloc(x, Role.Boot); var (x5, _) :- Alloc(x4, Role.Boot); Alloc(x5, Role.Boot));
      && r != Fault && (r.Halt? <==> |x.free| < 3) && (r.Go? ==> |r.value.0.free| == |x.free| - 3)
  {
    hide PhysOk, Alloc;
    TakeOne(x, kroot);
    if Alloc(x, Role.Boot).Go? {
      var x4 := Alloc(x, Role.Boot).value.0;
      TakeOne(x4, kroot);
      if Alloc(x4, Role.Boot).Go? { TakeOne(Alloc(x4, Role.Boot).value.0, kroot); }
    }
  }

  lemma UntouchedSize(mem: Memory, ramBegin: nat)
    ensures |Untouched(mem, ramBegin).mem| == |mem|
  {
  }

  lemma TakeOne(x: Phys, kroot: nat)
    requires PhysOk(x, map[KERNEL_TABLE := kroot])
    ensures Alloc(x, Role.Boot) != Fault && (Alloc(x, Role.Boot).Halt? <==> x.free == [])
    ensures Alloc(x, Role.Boot).Go? ==>
      var y := Alloc(x, Role.Boot).value.0; PhysOk(y, map[KERNEL_TABLE := kroot]) && |y.free| == |x.free| - 1
  {
    hide PhysOk;
    AllocOk(x, map[KERNEL_TABLE := kroot], Role.Boot, KERNEL_TABLE);
  }

  /** Too large a file, or fewer pages of RAM than the kernel and the shell need. */
  predicate BootStops(mem: Memory, ramBegin: nat, disk: seq<Ustar.Sector>) {
    LoadDisk(disk).Halt? || |mem| - ramBegin < KernelPrice(|mem|) + Price(|mem|, Shell(disk))
  }

  /** Exactly when boot halts. */
  lemma BootHaltsIff(mem: Memory, ramBegin: nat, kstacks: seq<Word>, disk: seq<Ustar.Sector>)
    requires RamOk(mem, ramBegin) && |kstacks| == 8 && ImageOk(Shell(disk))
    ensures BootState(mem, ramBegin, kstacks, disk).Halt? <==> BootStops(mem, ramBegin, disk)
  {
    hide PhysOk, BootMemory, BuildImage, ImageOk, Tables, Price, Inv, Abs, ABoot, Booted, EmptySlots, LoadDisk, Shell,
         IoOk, FreshIo;
    FilesOk(disk);
    BootMemoryCost(mem, ramBegin);
    BootMemoryOk(mem, ramBegin);
    if BootMemory(mem, ramBegin).Go? {
      var (x, kroot) := BootMemory(mem, ramBegin).value;
      BootedFacts(x, kroot, ramBegin, |mem|);
      BuildImageCost(x, map[KERNEL_TABLE := kroot], 0, kstacks[0], Shell(disk));
      FirstSlot(kstacks);
    }
  }

  /** Boot and a run. */
  function PowerOn(mem: Memory, ramBegin: nat, kstacks: seq<Word>, disk: seq<Ustar.Sector>, es: seq<Event>): Outcome<State>
    requires |kstacks| == 8
  {
    var s :- BootState(mem, ramBegin, kstacks, disk);
    Run(s, es)
  }

  /** From power-on: every run of proper system calls implements the abstract system and never faults. It halts exactly if
      boot does, or one of its steps ends in kpanic. */
  lemma SystemRefines(mem: Memory, ramBegin: nat, kstacks: seq<Word>, disk: seq<Ustar.Sector>, es: seq<Event>)
    requires RamOk(mem, ramBegin) && |kstacks| == 8 && ImageOk(Shell(disk)) && RunOk(ABoot(disk), es)
    ensures PowerOn(mem, ramBegin, kstacks, disk, es) != Fault
    ensures PowerOn(mem, ramBegin, kstacks, disk, es).Halt? <==>
      || BootStops(mem, ramBegin, disk)
      || (BootState(mem, ramBegin, kstacks, disk).Go? && RunStops(BootState(mem, ramBegin, kstacks, disk).value, es))
    ensures PowerOn(mem, ramBegin, kstacks, disk, es).Go? ==>
      var t := PowerOn(mem, ramBegin, kstacks, disk, es).value;
      Inv(t) && ARun(ABoot(disk), es) == Some(Abs(t))
  {
    hide Inv, Abs, Run, ARun, RunOk, BootState, ABoot, BootStops, RunStops;
    BootOk(mem, ramBegin, kstacks, disk);
    BootHaltsIff(mem, ramBegin, kstacks, disk);
    var b := BootState(mem, ramBegin, kstacks, disk);
    if b.Go? { RunRefines(b.value, es); }
  }
}
