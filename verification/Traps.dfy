/**
 Entering and leaving the kernel: the registers of the running process travel
 through the page its own table maps at VA_TRAPFRAME, and nothing else does.
 */
module Traps {
  import opened Sv32
  import opened Pages
  import opened PageTables
  import opened Spaces
  import opened Images
  import opened Processes
  import opened Building
  import opened Machine
  import opened AbstractOs
  import opened Invariant

  function WithTrapFrame(s: State, f: Frame): State
    requires s.cur < 8 && s.procs[s.cur].trapframe < |s.x.mem|
  {
    s.WithPhys(Phys(s.x.mem[s.procs[s.cur].trapframe := f], s.x.free, s.x.role, s.x.satp))
  }

  lemma RunningFacts(s: State)
    requires KernelInv(s) || UserInv(s)
    ensures s.cur < 8 && SlotOk(s.x, s.procs[s.cur], s.cur) && PhysOk(s.x, Roots(s.procs, s.kroot))
    ensures s.cur in Roots(s.procs, s.kroot) && Roots(s.procs, s.kroot)[s.cur] == s.procs[s.cur].pagetable
    ensures s.procs[s.cur].trapframe < |s.x.mem| && Abs(s).Runs()
  {
    hide PhysOk, HeapOk, IdentityOk, SpaceOf;
    LiveRoot(s, s.cur);
  }

  /** A slot keeps its properties when only trap-frame contents change. */
  lemma SlotTrapFrame(x: Phys, x': Phys, roots: map<nat, nat>, p: Proc, o: nat)
    requires SlotOk(x, p, o) && o in roots && roots[o] == p.pagetable && |x'.mem| == |x.mem| && x'.role == x.role
    requires SameLeaves(x.mem, x'.mem, roots)
    ensures SlotOk(x', p, o)
  {
    hide Leaf;
  }

  /** Storing to the running process's trap frame changes what that process resumes with, and nothing else. */
  lemma TrapFrameWrite(s: State, f: Frame)
    requires KernelInv(s) && s.cur < 8 && s.procs[s.cur].trapframe < |s.x.mem|
    ensures var t := WithTrapFrame(s, f);
      && KernelInv(t) && Abs(s).Runs()
      && Abs(t) == Abs(s).With(AProc(FrameRegs(f), f[TF_EPC], Abs(s).Cur().space))
  {
    hide SlotsOk, IdentityOk, SpaceOf, FreeOk, TableOk, Leaf;
    RunningFacts(s);
    var t := WithTrapFrame(s, f);
    var roots, o, p := Roots(s.procs, s.kroot), s.cur, s.procs[s.cur];
    FillUserPage(s.x, roots, p.trapframe, f);
    SlotTrapFrame(s.x, t.x, roots, p, o);
    SpaceFrameTf(s.x, t.x, roots, o);
    OwnStep(s, t);
  }

  lemma FrameWord(f: Frame, k: nat, w: Word)
    requires k < 1024
    ensures TF_REGS <= k < 36 ==> FrameRegs(f[k := w]) == FrameRegs(f)[k - TF_REGS := w]
    ensures !(TF_REGS <= k < 36) ==> FrameRegs(f[k := w]) == FrameRegs(f)
  {
  }

  /** The kernel's store to a0 of the running process. */
  lemma SetA0Ok(s: State, w: Word)
    requires KernelInv(s)
    ensures SetTf(s, TF_REGS + A0, w).Go? && Abs(s).Runs()
    ensures var t := SetTf(s, TF_REGS + A0, w).value;
      && KernelInv(t) && t.procs == s.procs && Abs(t) == Abs(s).With(Returned(Abs(s).Cur(), w))
  {
    hide Core, Resumable, SpaceOf, IdentityOk, SlotOk;
    var f := SetFrame(s, TF_REGS + A0, w);
  }

  lemma SetEpcOk(s: State, w: Word)
    requires KernelInv(s)
    ensures SetTf(s, TF_EPC, w).Go? && Abs(s).Runs()
    ensures var t := SetTf(s, TF_EPC, w).value;
      && KernelInv(t) && t.procs == s.procs && t.x.satp == s.x.satp
      && Abs(t) == Abs(s).With(AProc(Abs(s).Cur().regs, w, Abs(s).Cur().space))
  {
    hide Core, Resumable, SpaceOf, IdentityOk, SlotOk;
    var f := SetFrame(s, TF_EPC, w);
  }

  lemma SetFrame(s: State, k: nat, w: Word) returns (f: Frame)
    requires KernelInv(s) && k < 1024
    ensures s.cur < 8 && s.procs[s.cur].trapframe < |s.x.mem| && Abs(s).Runs()
    ensures f == s.x.mem[s.procs[s.cur].trapframe][k := w]
    ensures SetTf(s, k, w) == Go(WithTrapFrame(s, f)) && KernelInv(WithTrapFrame(s, f))
    ensures Abs(WithTrapFrame(s, f)) == Abs(s).With(AProc(FrameRegs(f), f[TF_EPC], Abs(s).Cur().space))
    ensures Abs(s).Cur().regs == FrameRegs(s.x.mem[s.procs[s.cur].trapframe])
    ensures Abs(s).Cur().pc == s.x.mem[s.procs[s.cur].trapframe][TF_EPC]
    ensures TF_REGS <= k < 36 ==> FrameRegs(f) == Abs(s).Cur().regs[k - TF_REGS := w]
    ensures !(TF_REGS <= k < 36) ==> FrameRegs(f) == Abs(s).Cur().regs
  {
    hide Core, Resumable, SpaceOf, IdentityOk, SlotOk;
    RunningFacts(s);
    f := s.x.mem[s.procs[s.cur].trapframe][k := w];
    TrapFrameWrite(s, f);
    FrameWord(s.x.mem[s.procs[s.cur].trapframe], k, w);
  }

  /** VA_TRAPFRAME leads to the running process's own trap frame, which the kernel may read and write. */
  lemma TrapFrameMapped(x: Phys, roots: map<nat, nat>, p: Proc, o: nat)
    requires PhysOk(x, roots) && o in roots && roots[o] == p.pagetable && SlotOk(x, p, o) && x.satp == p.pagetable
    ensures Mmu(x, 0xFFFF_F000) == Some((p.trapframe, RW))
    ensures Readable(RW) && Writable(RW)
  {
    hide TableOk, FreeOk, IdentityOk, Leaf, Walk, PageOf, FlagsOf, Readable, Writable;
    WalkAgrees(x, roots, o, 1023, 1023);
    ReadWrite();
  }

  lemma ReadWrite()
    ensures Readable(RW) && Writable(RW)
  {
  }

  lemma SlotOkPhys(x: Phys, y: Phys, p: Proc, o: nat)
    requires SlotOk(x, p, o) && y.mem == x.mem && y.role == x.role
    ensures SlotOk(y, p, o)
  {
    hide IdentityOk, Leaf;
  }

  lemma RegsRoundTrip(f: Frame, r: Regs)
    ensures FrameRegs(WithRegs(f, r)) == r
    ensures WithRegs(f, r)[TF_SP] == f[TF_SP] && WithRegs(f, r)[TF_HANDLER] == f[TF_HANDLER]
  {
  }

  lemma KernelView(s: State)
    requires UserInv(s)
    ensures KernelInv(s.WithMode(InKernel)) && s.cur < 8 && Abs(s).Runs() && Abs(s.WithMode(InKernel)).Runs()
    ensures Abs(s.WithMode(InKernel)) == Abs(s).In(InKernel).With(AbsProc(s.WithMode(InKernel), s.cur))
    ensures AbsProc(s.WithMode(InKernel), s.cur).space == Abs(s).Cur().space
  {
    hide Core, SpaceOf;
    var t := s.WithMode(InKernel);
    assert Core(t) by { CoreMode(s); }
    AbsIs(t, Abs(s).In(InKernel).With(AbsProc(t, s.cur)));
  }

  lemma CoreMode(s: State)
    requires Core(s) && s.mode != InScheduler
    ensures Core(s.WithMode(InKernel)) && Core(s.WithMode(InUser))
  {
    hide PhysOk, SlotsOk, HeapOk;
  }

  /** A trap saves the process's registers and pc in its own frame and enters the handler on its own kernel stack. */
  lemma TrapEntryOk(s: State)
    requires UserInv(s)
    ensures TrapEntry(s).Go?
    ensures var t := TrapEntry(s).value;
      && KernelInv(t) && t.procs == s.procs && s.cur < 8 && t.cur == s.cur && t.x.satp == t.procs[t.cur].pagetable
      && Abs(t) == Abs(s).In(InKernel)
  {
    hide Core, Resumable, SpaceOf, IdentityOk, SlotOk, Mmu, Leaf;
    RunningFacts(s);
    var p := s.procs[s.cur];
    TrapFrameMapped(s.x, Roots(s.procs, s.kroot), p, s.cur);
    KernelView(s);
    var k := s.WithMode(InKernel);
    var f := WithRegs(s.x.mem[p.trapframe], s.regs);
    RegsRoundTrip(s.x.mem[p.trapframe], s.regs);
    FrameWord(f, TF_EPC, s.pc);
    TrapFrameWrite(k, f[TF_EPC := s.pc]);
    assert TrapEntry(s).value.x.mem == WithTrapFrame(k, f[TF_EPC := s.pc]).x.mem;
    assert Abs(s).In(InKernel).With(Abs(s).Cur()).procs == Abs(s).procs;
  }

  lemma PhysSatp(x: Phys, roots: map<nat, nat>, o: nat)
    requires PhysOk(x, roots) && o in roots
    ensures PhysOk(Phys(x.mem, x.free, x.role, roots[o]), roots)
  {
    hide TableOk;
    var y := Phys(x.mem, x.free, x.role, roots[o]);
    assert y.role[roots[o]] == Root(o) by { RootRole(x, roots, o); }
    forall k | 0 <= k < |y.free| ensures LinkedAt(y, k) && y.free[k] != roots[o] { assert LinkedAt(x, k); }
  }

  lemma RootRole(x: Phys, roots: map<nat, nat>, o: nat)
    requires PhysOk(x, roots) && o in roots
    ensures roots[o] < |x.role| && x.role[roots[o]] == Root(o)
  {
  }

  /** A table in use maps the kernel through second-level tables of its own. */
  lemma TableMaps(x: Phys, roots: map<nat, nat>, o: nat)
    requires PhysOk(x, roots) && o in roots && IdentityOk(x.mem, roots[o])
    ensures KernelMapped(Phys(x.mem, x.free, x.role, roots[o]))
  {
    hide Leaf, PageOf;
    RootRole(x, roots, o);
    var y := Phys(x.mem, x.free, x.role, roots[o]);
    assert y.satp < |y.mem| == |y.role| by { ShapeIs(x, roots); }
    forall i, j | 1 <= i < 1024 && 0 <= j < 1024 && 1024 * i + j < |y.mem| ensures MappedAt(y, i, j) {
      LeafFacts(x, roots, o, i, j);
      hide PhysOk;
    }
  }

  /** ktrap_to_user: satp gets the process's root, and it resumes with exactly its own registers and pc. */
  lemma EnterUserOk(s: State)
    requires KernelInv(s)
    ensures EnterUser(s).Go?
    ensures var t := EnterUser(s).value; UserInv(t) && Abs(t) == Abs(s).In(InUser)
  {
    hide Core, Resumable, SpaceOf, IdentityOk, SlotOk, Mmu, Leaf;
    RunningFacts(s);
    var p := s.procs[s.cur];
    var g := s.x.mem[p.trapframe];
    var f := g[TF_SP := p.kstack][TF_HANDLER := USER_TRAP];
    FrameWord(g, TF_SP, p.kstack);
    FrameWord(g[TF_SP := p.kstack], TF_HANDLER, USER_TRAP);
    TrapFrameWrite(s, f);
    var u := WithTrapFrame(s, f);
    RunningFacts(u);
    PhysSatp(u.x, Roots(u.procs, u.kroot), u.cur);
    var y := Phys(u.x.mem, u.x.free, u.x.role, p.pagetable);
    SlotOkPhys(u.x, y, p, u.cur);
    TrapFrameMapped(y, Roots(u.procs, u.kroot), p, u.cur);
    var t := State(y, s.ramBegin, s.kroot, s.procs, s.cur, s.next, InUser, FrameRegs(f), f[TF_EPC], s.burned, s.io);
    var m := s.x.mem[p.trapframe := g[TF_SP := p.kstack]];
    assert m[p.trapframe := m[p.trapframe][TF_HANDLER := USER_TRAP]] == y.mem;
    assert EnterUser(s) == Go(t);
    UserView(u, t, f);
  }

  lemma UserView(u: State, t: State, f: Frame)
    requires KernelInv(u) && u.cur < 8 && u.procs[u.cur].trapframe < |u.x.mem|
    requires f == u.x.mem[u.procs[u.cur].trapframe]
    requires PhysOk(t.x, Roots(u.procs, u.kroot))
    requires t == State(Phys(u.x.mem, u.x.free, u.x.role, u.procs[u.cur].pagetable), u.ramBegin, u.kroot,
                        u.procs, u.cur, u.next, InUser, FrameRegs(f), f[TF_EPC], u.burned, u.io)
    ensures Core(t) && Resumable(t) && Abs(t) == Abs(u).In(InUser)
  {
    hide PhysOk, SpaceOf, IdentityOk, Leaf;
    AbsIs(t, Abs(u).In(InUser));
  }
}
