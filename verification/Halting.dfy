/**
 When the kernel panics: which accesses and system calls stop the machine, said
 of the state before them.
 */
module Halting {
  import opened Sv32
  import opened Bytes
  import opened Pages
  import opened PageTables
  import opened TableCopy
  import opened Spaces
  import opened Images
  import opened Arguments
  import opened Processes
  import opened Devices
  import opened Building
  import opened Machine
  import opened AbstractOs
  import opened Invariant
  import opened Traps
  import opened UserMemory
  import opened ForkedTables
  import opened Growing
  import opened Executing
  import opened Capacity

  predicate NoSlot(procs: ProcTable) { forall o :: 0 <= o < 8 ==> procs[o].state != Unused }

  /** The table at `root` lets user mode load from `va`. */
  predicate CanLoad(m: Memory, root: nat, va: Word) {
    var e := Leaf(m, root, va / 0x40_0000, (va / 4096) % 1024);
    e.Some? && UserMode(e.value) && Readable(e.value)
  }

  /** It lets user mode store there. */
  predicate CanStore(m: Memory, root: nat, va: Word) {
    var e := Leaf(m, root, va / 0x40_0000, (va / 4096) % 1024);
    e.Some? && UserMode(e.value) && Writable(e.value)
  }

  /** Second-level tables that are missing for a page at `va`. */
  function MissingTable(m: Memory, root: nat, va: Word): nat {
    if root < |m| && Valid(m[root][va / 0x40_0000]) then 0 else 1
  }

  /** The system call in the registers `r` ends in kpanic: a fork without a slot or without a page for the root, the trap
      frame, each second-level table and each user page; an exec without the pages of its image; an sbrk without a page,
      or without one more for a second-level table that is missing; and a number that is no system call. */
  predicate CallStops(s: State, r: Regs, env: Env)
    requires s.cur < 8
  {
    var p := s.procs[s.cur];
    match r[A7]
    case 1 => NoSlot(s.procs) || |s.x.free| < 2 + TableCount(s.x.mem, p.pagetable, 0)
    case 7 => Found(s.io, env.path).Some? && |s.x.free| < Price(|s.x.mem|, Found(s.io, env.path).value)
    case 12 => |s.x.free| < 1 + MissingTable(s.x.mem, p.pagetable, p.heap)
    case n => n !in {2, 5, 6, 11, 13, 15, 16, 21}
  }

  /** The step ends in kpanic. */
  predicate Stops(s: State, e: Event) {
    && s.mode == InUser && s.cur < 8
    && match e
       case Load(va, _) => !CanLoad(s.x.mem, s.procs[s.cur].pagetable, va)
       case Store(va, _) => !CanStore(s.x.mem, s.procs[s.cur].pagetable, va)
       case Ecall(env) => CallStops(s, s.regs, env)
       case _ => false
  }

  // ---- accesses ----

  /** The page table and the address space agree on what user mode may do. */
  lemma AccessIs(x: Phys, roots: map<nat, nat>, o: nat, va: Word, b: Byte)
    requires PhysOk(x, roots) && o in roots
    ensures var sp := SpaceOf(x.mem, roots[o]);
      && (CanLoad(x.mem, roots[o], va) <==> va / 4096 in sp && Readable(sp[va / 4096].flags))
      && (CanStore(x.mem, roots[o], va) <==> AStore(sp, va, b).Some?)
  {
    hide Leaf, PageOf, UserMode, Writable, Readable, FreeOk, TableOk;
    assert va / 0x40_0000 == va / 4096 / 1024;
    LeafFacts(x, roots, o, va / 0x40_0000, (va / 4096) % 1024);
    var e := Leaf(x.mem, roots[o], va / 0x40_0000, (va / 4096) % 1024);
    if e.Some? { UserMemory.FlagsTwice(e.value); }
    hide FlagsOf;
  }

  // ---- fork, exec and sbrk ----

  lemma SlotsFull(procs: ProcTable)
    ensures FirstUnused(procs, 0) == 8 <==> NoSlot(procs)
  {
  }

  lemma ForkHalts(s: State)
    requires KernelInv(s)
    ensures s.cur < 8
    ensures Fork(s).Halt? <==>
      NoSlot(s.procs) || |s.x.free| < 2 + TableCount(s.x.mem, s.procs[s.cur].pagetable, 0)
  {
    hide KernelInv, Fork, TableCount, LeafForked, NoSlot, FirstUnused;
    ForkCopies(s, 0, 0);
    SlotsFull(s.procs);
  }

  lemma ExecHalts(s: State, file: seq<Byte>, args: seq<seq<Byte>>)
    requires KernelInv(s) && ImageOk(file) && PushArguments(Zero(), args).Go?
    ensures Exec(s, file, args).Halt? <==> |s.x.free| < Price(|s.x.mem|, file)
  {
    hide FreeOk, TableOk, Leaf, SpaceOf, ImageSpace, ImagePages, ImageOk, PushArguments, PassArguments, BuildImage,
         PhysOk, IdentityOk, SlotOk, SlotsOk, HeapOk, Resumable, ImageBuilt, SameLeaves, Price;
    RunningFacts(s);
    var o, p := s.cur, s.procs[s.cur];
    var roots := Roots(s.procs, s.kroot);
    DisownFacts(s.x, roots, o);
    var x0 := Disown(s.x, o);
    BuildImageOk(x0, roots - {o}, o, p.kstack, file);
    BuildImageCost(x0, roots - {o}, o, p.kstack, file);
    var r := BuildImage(x0, o, p.kstack, file);
    if r.Go? {
      var im := r.value;
      var all: map<nat, nat> := (roots - {o})[o := im.root];
      ImageFacts(x0, im, all, o, p.kstack, file);
      PassArgumentsOk(im.x, all, o, im.trapframe, im.stack, args);
    }
  }

  lemma AddPageHalts(s: State)
    requires KernelInv(s)
    ensures s.cur < 8
    ensures AddPage(s).Halt? <==>
      |s.x.free| < 1 + MissingTable(s.x.mem, s.procs[s.cur].pagetable, s.procs[s.cur].heap)
  {
    hide TableOk, FreeOk, IdentityOk, Leaf, SpaceOf, SlotOk, SlotsOk, HeapOk, MapPage, Resumable, Grows, SameLeaves,
         OneLeafSet, LeafOk, UserMode, Valid, PhysOk;
    RunningFacts(s);
    BreakInRange(s, s.cur);
    var p, roots := s.procs[s.cur], Roots(s.procs, s.kroot);
    var i, j := p.heap / 0x40_0000, (p.heap / 4096) % 1024;
    AllocOk(s.x, roots, User(s.cur, i, j), s.cur);
    InRange(s.x, roots, s.cur);
    if s.x.free != [] {
      BreakIndex(p.heap);
      RootNotFirst(s.x, roots, s.cur);
      var (x1, page) := Alloc(s.x, User(s.cur, i, j)).value;
      ShapeIs(x1, roots);
      UserEntryOk(x1.role, s.cur, i, j, page, RWU);
      MapPageOk(x1, roots, s.cur, i, j, page, RWU);
      assert x1.mem[p.pagetable] == s.x.mem[p.pagetable];
    }
  }

  // ---- what does not change the answer ----

  /** Stores to trap frames do not change when a call stops. */
  lemma CallStopsFrame(s: State, u: State, r: Regs, env: Env)
    requires UserInv(s) && FramesOnly(s.x, u.x) && u.procs == s.procs && u.cur == s.cur < 8 && u.io == s.io
    ensures CallStops(u, r, env) == CallStops(s, r, env)
  {
    hide FreeOk, TableOk, IdentityOk, Leaf, SpaceOf, SlotOk, SlotsOk, HeapOk, Resumable, Found, Price, TableCount;
    RunningFacts(s);
    var root, roots := s.procs[s.cur].pagetable, Roots(s.procs, s.kroot);
    RootRole(s.x, roots, s.cur);
    forall k | 0 <= k < 1024 && Valid(s.x.mem[root][k]) && PageOf(s.x.mem[root][k]) < |s.x.mem|
      ensures u.x.mem[PageOf(s.x.mem[root][k])] == s.x.mem[PageOf(s.x.mem[root][k])]
    {
      LeafFacts(s.x, roots, s.cur, k, 0);
    }
    TableCountFrame(s.x.mem, u.x.mem, root, 0);
  }
}
