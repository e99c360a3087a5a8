/**
 Loads and stores through the MMU: user mode sees and changes its own address
 space, byte for byte, and no other process's.
 */
module UserMemory {
  import opened Sv32
  import opened Bytes
  import opened Pages
  import opened PageTables
  import opened Spaces
  import opened Images
  import opened Processes
  import opened Building
  import opened Machine
  import opened AbstractOs
  import opened Invariant
  import opened Traps

  lemma FlagsTwice(e: Word)
    ensures UserMode(FlagsOf(e)) == UserMode(e) && Writable(FlagsOf(e)) == Writable(e) &&
      Readable(FlagsOf(e)) == Readable(e)
  {
    assert FlagsOf(FlagsOf(e)) == FlagsOf(e);
    hide FlagsOf;
  }

  /** The MMU finds a user page exactly where the address space has one. */
  lemma MmuSpace(x: Phys, roots: map<nat, nat>, o: nat, va: Word)
    requires PhysOk(x, roots) && o in roots && x.satp == roots[o]
    ensures var v := va / 4096;
      var sp := SpaceOf(x.mem, roots[o]);
      && (v in sp ==>
          && UserLeaf(x.mem, roots[o], v)
          && Mmu(x, va) == Some((PageOf(Leaf(x.mem, roots[o], v / 1024, v % 1024).value), sp[v].flags))
          && UserMode(sp[v].flags) && sp[v] == UserPageAt(x.mem, roots[o], v))
      && (v !in sp ==> Mmu(x, va) == None || !UserMode(Mmu(x, va).value.1))
  {
    hide TableOk, FreeOk, Walk, FlagsOf, PageOf, Valid, Readable;
    var v := va / 4096;
    assert va / 0x40_0000 == v / 1024;
    WalkAgrees(x, roots, o, v / 1024, v % 1024);
    if Leaf(x.mem, roots[o], v / 1024, v % 1024).Some? {
      FlagsTwice(Leaf(x.mem, roots[o], v / 1024, v % 1024).value);
    }
    hide UserMode;
  }

  /** Only the contents of `o`'s user pages changed. */
  ghost predicate OwnPagesOnly(x: Phys, y: Phys, roots: map<nat, nat>, o: nat) {
    && PhysOk(y, roots) && SameLeaves(x.mem, y.mem, roots)
    && y.satp == x.satp && y.role == x.role && y.free == x.free && |y.mem| == |x.mem| == |x.role|
    && forall p :: 0 <= p < |x.mem| && !(x.role[p].User? && x.role[p].o == o) ==> y.mem[p] == x.mem[p]
  }

  /** A byte stored by user mode, or by the kernel into a user page, is a store to the address space. */
  lemma StoreOk(x: Phys, roots: map<nat, nat>, o: nat, va: Word, b: Byte, user: bool)
    requires PhysOk(x, roots) && o in roots && x.satp == roots[o]
    ensures var sp := SpaceOf(x.mem, roots[o]);
      && (AStore(sp, va, b).Some? ==>
        && StoreVia(x, va, b, user).Go?
        && var y := StoreVia(x, va, b, user).value;
        OwnPagesOnly(x, y, roots, o) && SpaceOf(y.mem, roots[o]) == AStore(sp, va, b).value)
      && (AStore(sp, va, b) == None && user ==> StoreVia(x, va, b, user).Halt?)
  {
    hide PhysOk, Leaf, SpaceOf, Mmu, PageOf, UserMode, Writable, SameLeaves;
    MmuSpace(x, roots, o, va);
    ShapeIs(x, roots);
    var v := va / 4096;
    var sp := SpaceOf(x.mem, roots[o]);
    if v in sp {
      var p := PageOf(Leaf(x.mem, roots[o], v / 1024, v % 1024).value);
      SpaceWrite(x, roots, o, v, SetByte(x.mem[p], va % 4096, b));
    }
  }

  lemma OwnPagesTrans(x: Phys, y: Phys, z: Phys, roots: map<nat, nat>, o: nat)
    requires OwnPagesOnly(x, y, roots, o) && OwnPagesOnly(y, z, roots, o)
    ensures OwnPagesOnly(x, z, roots, o)
  {
    hide PhysOk, Leaf;
  }

  /** A buffer copied out by the kernel arrives in the caller's address space. */
  lemma {:induction false} StoreBytesOk(x: Phys, roots: map<nat, nat>, o: nat, va: Word, bs: seq<Byte>)
    requires PhysOk(x, roots) && o in roots && x.satp == roots[o] && |x.mem| == |x.role|
    requires AStoreBytes(SpaceOf(x.mem, roots[o]), va, bs).Some?
    ensures StoreBytes(x, va, bs).Go?
    ensures var y := StoreBytes(x, va, bs).value;
      OwnPagesOnly(x, y, roots, o) && SpaceOf(y.mem, roots[o]) == AStoreBytes(SpaceOf(x.mem, roots[o]), va, bs).value
    decreases |bs|
  {
    hide PhysOk, SpaceOf, StoreVia, AStore, Leaf;
    if bs != [] {
      StoreOk(x, roots, o, va, bs[0], false);
      var y := StoreVia(x, va, bs[0], false).value;
      StoreBytesOk(y, roots, o, (va + 1) % 0x1_0000_0000, bs[1..]);
      OwnPagesTrans(x, y, StoreBytes(y, (va + 1) % 0x1_0000_0000, bs[1..]).value, roots, o);
    }
  }

  /** At the level of the whole system: only the running process's address space changed. */
  lemma OwnPagesStep(s: State, y: Phys)
    requires KernelInv(s) || UserInv(s)
    requires OwnPagesOnly(s.x, y, Roots(s.procs, s.kroot), s.cur) && s.cur < 8
    ensures var t := s.WithPhys(y);
      && (KernelInv(s) ==> KernelInv(t)) && (UserInv(s) ==> UserInv(t)) && Abs(s).Runs()
      && Abs(t) == Abs(s).With(AProc(Abs(s).Cur().regs, Abs(s).Cur().pc, SpaceOf(y.mem, s.procs[s.cur].pagetable)))
  {
    hide SpaceOf, FreeOk, TableOk, Leaf, IdentityOk, SlotsOk, SameLeaves, PhysOk;
    RunningFacts(s);
    var t := s.WithPhys(y);
    SlotTrapFrame(s.x, y, Roots(s.procs, s.kroot), s.procs[s.cur], s.cur);
    assert y.mem[s.procs[s.cur].trapframe] == s.x.mem[s.procs[s.cur].trapframe];
    OwnStep(s, t);
  }

  lemma LoadOk(s: State, va: Word)
    requires UserInv(s)
    ensures Abs(s).Runs()
    ensures var sp := Abs(s).Cur().space;
      && (va / 4096 in sp ==>
          && Mmu(s.x, va).Some? && UserMode(Mmu(s.x, va).value.1) && Mmu(s.x, va).value.0 < |s.x.mem|
          && sp[va / 4096] == Page(Mmu(s.x, va).value.1, s.x.mem[Mmu(s.x, va).value.0]))
      && (va / 4096 !in sp ==> Mmu(s.x, va) == None || !UserMode(Mmu(s.x, va).value.1))
  {
    RunningFacts(s);
    MmuSpace(s.x, Roots(s.procs, s.kroot), s.cur, va);
    hide PhysOk, Leaf, Mmu, SlotsOk, IdentityOk, SlotOk, UserMode;
  }
}
