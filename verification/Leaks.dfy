/**
 What never comes back: RAM keeps its size over every run, and a page that has
 lost its owner without being freed is never handed out again.
 */
module Leaks {
  import opened Sv32
  import opened Bytes
  import opened Pages
  import opened PageTables
  import opened Spaces
  import opened Images
  import opened Arguments
  import opened Processes
  import opened Building
  import opened Machine
  import opened AbstractOs
  import opened Invariant
  import opened Traps
  import opened UserMemory
  import opened Forking
  import opened Ending
  import opened Growing
  import opened Executing
  import opened Steps
  import opened Refinement
  import opened Boot
  import opened Devices
  import Ustar
  import opened Ownership

  /** No page appears or disappears, and leaked pages stay leaked. */
  ghost predicate Lasts(x: Phys, y: Phys) {
    && |y.mem| == |x.mem| == |x.role| == |y.role|
    && forall p :: 0 <= p < |x.role| && x.role[p] == Leaked ==> y.role[p] == Leaked
  }

  ghost predicate Lasting(s: State, t: State) {
    Lasts(s.x, t.x) && t.ramBegin == s.ramBegin && t.kroot == s.kroot
  }

  lemma LastingTrans(s: State, t: State, u: State)
    requires Lasting(s, t) && Lasting(t, u)
    ensures Lasting(s, u)
  {
  }

  lemma GrowsLasts(x: Phys, y: Phys, o: nat)
    requires ShapeOk(x) && Grows(x, y, o)
    ensures Lasts(x, y)
  {
  }

  lemma ForkLasting(s: State)
    requires KernelInv(s) && Fork(s).Go?
    ensures Lasting(s, Fork(s).value)
  {
    hide PhysOk, FreeOk, TableOk, Leaf, SpaceOf, IdentityOk, SlotsOk, HeapOk, Resumable, SlotOk, CopySpace, CopyFrame,
         GetPage;
    RunningFacts(s);
    var c := FirstUnused(s.procs, 0);
    var parent, roots := s.procs[s.cur], Roots(s.procs, s.kroot);
    RootsExtend(s.procs, s.kroot, c, parent);
    CopySpaceOk(s.x, roots, s.cur, c, parent);
    var (y, root, tf) := CopySpace(s.x, c, parent.pagetable).value;
    GrowsLasts(s.x, y, c);
    SlotTf(s.x, parent, s.cur);
    CopyFrameOk(y, roots[c := root], tf, parent.trapframe, s.procs[c].kstack, c + 1);
  }

  lemma DisownLasts(x: Phys, o: nat)
    requires ShapeOk(x)
    ensures Lasts(x, Disown(x, o))
  {
  }

  lemma ExecLasting(s: State, file: seq<Byte>, args: seq<seq<Byte>>)
    requires KernelInv(s) && ImageOk(file) && PushArguments(Zero(), args).Go? && Exec(s, file, args).Go?
    ensures Lasting(s, Exec(s, file, args).value)
  {
    hide PhysOk, FreeOk, TableOk, Leaf, SpaceOf, ImageSpace, ImagePages, ImageOk, PushArguments, PassArguments,
         BuildImage, Disown, IdentityOk, SlotOk, SlotsOk, HeapOk, Resumable, ImageBuilt, SameLeaves;
    RunningFacts(s);
    var o, p := s.cur, s.procs[s.cur];
    var roots := Roots(s.procs, s.kroot);
    DisownFacts(s.x, roots, o);
    DisownLasts(s.x, o);
    var x0 := Disown(s.x, o);
    BuildImageOk(x0, roots - {o}, o, p.kstack, file);
    var im := BuildImage(x0, o, p.kstack, file).value;
    var all: map<nat, nat> := (roots - {o})[o := im.root];
    ImageFacts(x0, im, all, o, p.kstack, file);
    ImageLasts(x0, im, all, o, p.kstack, file);
    PassArgumentsOk(im.x, all, o, im.trapframe, im.stack, args);
  }

  lemma ImageLasts(x: Phys, im: Image, all: map<nat, nat>, o: nat, kstack: Word, file: seq<Byte>)
    requires ImageBuilt(x, im, all, o, kstack, file)
    ensures Lasts(x, im.x)
  {
    hide PhysOk, Leaf, SpaceOf, ImageSpace, ImagePages, IdentityOk, OthersSame;
    GrowsLasts(x, im.x, o);
  }

  lemma ReleaseLasts(x: Phys, p: Proc)
    requires |x.mem| == |x.role| && ReleaseProc(x, p).Go?
    requires forall q :: q in {p.trapframe, p.pagetable, p.userStack} && q < |x.role| ==> x.role[q] != Leaked
    ensures Lasts(x, ReleaseProc(x, p).value)
  {
    hide Link;
  }

  lemma EndLasts(s: State, o: nat)
    requires KernelInv(s) && o < 8 && Live(s.procs, o) && ReleaseProc(s.x, s.procs[o]).Go?
    ensures Lasts(s.x, Disown(ReleaseProc(s.x, s.procs[o]).value, o))
  {
    hide HeapOk, IdentityOk, FreeOk, TableOk, Leaf, ReleaseProc, Disown, Resumable;
    LiveRoot(s, o);
    RootRole(s.x, Roots(s.procs, s.kroot), o);
    ReleaseLasts(s.x, s.procs[o]);
    DisownLasts(ReleaseProc(s.x, s.procs[o]).value, o);
  }

  lemma ExitLasting(s: State)
    requires KernelInv(s) && Exit(s).Go?
    ensures Lasting(s, Exit(s).value)
  {
    hide Core, Resumable, ReleaseProc, Disown;
    EndLasts(s, s.cur);
  }

  lemma {:induction false} KillFromLasting(s: State, pid: Word, i: nat)
    requires KernelInv(s) && s.cur < 8 && s.x.satp == s.procs[s.cur].pagetable && s.procs[s.cur].pid != pid
    ensures KillFrom(s, pid, i).Go? && Lasting(s, KillFrom(s, pid, i).value)
    decreases 8 - i
  {
    hide Core, Resumable, AbsProc, ReleaseProc, Disown, Lasts;
    KillFromOk(s, pid, i);
    if i < 8 {
      PidIs(s, i);
      if Live(s.procs, i) && s.procs[i].pid == pid {
        KillOneOk(s, i);
        var t := s.WithPhys(Disown(ReleaseProc(s.x, s.procs[i]).value, i)).WithProc(i, s.procs[i].(state := Unused));
        EndLasts(s, i);
        KillFromLasting(t, pid, i + 1);
        LastingTrans(s, t, KillFrom(t, pid, i + 1).value);
      } else {
        KillFromLasting(s, pid, i + 1);
      }
    } else {
      LastingRefl(s);
    }
  }

  lemma LastingRefl(s: State)
    requires KernelInv(s) || Inv(s)
    ensures Lasting(s, s)
  {
    hide FreeOk, TableOk, SlotsOk, HeapOk, Resumable;
  }

  lemma AddPageLasting(s: State)
    requires KernelInv(s) && AddPage(s).Go?
    ensures Lasting(s, AddPage(s).value)
  {
    hide TableOk, FreeOk, IdentityOk, Leaf, SpaceOf, PhysOk, SlotOk, SlotsOk, HeapOk, MapPage, Alloc, Resumable;
    RunningFacts(s);
    BreakInRange(s, s.cur);
    var p := s.procs[s.cur];
    var roots := Roots(s.procs, s.kroot);
    var i, j := p.heap / 0x40_0000, (p.heap / 4096) % 1024;
    AllocOk(s.x, roots, User(s.cur, i, j), s.cur);
    BreakIndex(p.heap);
    AddPageMemory(s.x, roots, s.cur, p, i, j);
    GrowsLasts(s.x, AddPage(s).value.x, s.cur);
  }

  // ---- the steps that change no role ----

  ghost predicate RolesKept(s: State, t: State) {
    t.x.role == s.x.role && |t.x.mem| == |s.x.mem| && t.ramBegin == s.ramBegin && t.kroot == s.kroot
  }

  lemma EntryKeeps(s: State)
    ensures TrapEntry(s).Go? ==> RolesKept(s, TrapEntry(s).value)
    ensures EnterUser(s).Go? ==> RolesKept(s, EnterUser(s).value)
    ensures forall k: nat, w: Word :: k < 1024 && SetTf(s, k, w).Go? ==> RolesKept(s, SetTf(s, k, w).value)
  {
    hide Mmu, WithRegs, FrameRegs;
  }

  lemma ReturnKeeps(s: State, w: Word)
    ensures ReturnWord(s, w).Go? ==> RolesKept(s, ReturnWord(s, w).value)
  {
    hide SetTf, EnterUser;
    EntryKeeps(s);
    if SetTf(s, TF_REGS + A0, w).Go? { EntryKeeps(SetTf(s, TF_REGS + A0, w).value); }
  }

  lemma {:induction false} StoreBytesKeep(x: Phys, va: Word, bs: seq<Byte>)
    ensures StoreBytes(x, va, bs).Go? ==>
      StoreBytes(x, va, bs).value.role == x.role && |StoreBytes(x, va, bs).value.mem| == |x.mem|
    decreases |bs|
  {
    hide Mmu;
    if bs != [] && StoreVia(x, va, bs[0], false).Go? {
      StoreBytesKeep(StoreVia(x, va, bs[0], false).value, (va + 1) % 0x1_0000_0000, bs[1..]);
    }
  }

  lemma DeliverKeeps(s: State, data: seq<Byte>)
    ensures Deliver(s, data).Go? ==> RolesKept(s, Deliver(s, data).value)
  {
    hide SetTf, EnterUser, StoreBytes;
    var va := TfWord(s, TF_REGS + A1);
    StoreBytesKeep(s.x, va, data);
    if StoreBytes(s.x, va, data).Go? && |data| < 0x1_0000_0000 {
      ReturnKeeps(s.WithPhys(StoreBytes(s.x, va, data).value), |data|);
      hide RolesKept;
      DeliverUnfold(s, data);
    }
  }

  lemma DeliverUnfold(s: State, data: seq<Byte>)
    requires StoreBytes(s.x, TfWord(s, TF_REGS + A1), data).Go? && |data| < 0x1_0000_0000
    ensures Deliver(s, data) == ReturnWord(s.WithPhys(StoreBytes(s.x, TfWord(s, TF_REGS + A1), data).value), |data|)
  {
    hide SetTf, EnterUser, StoreBytes;
  }

  lemma IoKeeps(s: State, env: Env)
    ensures Read(s).Go? ==> RolesKept(s, Read(s).value)
    ensures Open(s, env.path).Go? ==> RolesKept(s, Open(s, env.path).value)
    ensures Close(s).Go? ==> RolesKept(s, Close(s).value)
  {
    hide Deliver, ReturnWord, ReadFd, OpenPath, CloseFd, TfWord;
    if s.cur < 8 {
      var r := ReadFd(s.io, s.cur, TfWord(s, TF_REGS + A0), TfWord(s, TF_REGS + A2));
      if r.Go? { DeliverKeeps(s.WithIo(r.value.0), r.value.1); }
      var (io, w) := OpenPath(s.io, s.cur, env.path);
      ReturnKeeps(s.WithIo(io), w);
      var c := CloseFd(s.io, s.cur, TfWord(s, TF_REGS + A0));
      if c.Go? { ReturnKeeps(s.WithIo(c.value.0), c.value.1); }
    }
  }

  lemma ExecPathLasting(s: State, env: Env)
    requires KernelInv(s) && ExecPath(s, env).Go?
    requires Found(s.io, env.path).Some? ==> ImageOk(Found(s.io, env.path).value) && PushArguments(Zero(), env.args).Go?
    ensures Lasting(s, ExecPath(s, env).value)
  {
    hide KernelInv, Found, ImageOk, PushArguments, Exec, EnterUser, Lasting;
    LastingRefl(s);
    match Found(s.io, env.path)
    case None =>
      EntryKeeps(s);
      KeptLasting(s, s, ExecPath(s, env).value);
    case Some(file) =>
      ExecLasting(s, file, env.args);
      EntryKeeps(Exec(s, file, env.args).value);
      KeptLasting(s, Exec(s, file, env.args).value, ExecPath(s, env).value);
  }

  lemma KeptLasting(s: State, t: State, u: State)
    requires Lasting(s, t) && RolesKept(t, u)
    ensures Lasting(s, u)
  {
  }

  lemma KillLasting(s: State, pid: Word)
    requires KernelInv(s) && s.cur < 8 && s.x.satp == s.procs[s.cur].pagetable && Kill(s, pid).Go?
    ensures Lasting(s, Kill(s, pid).value)
  {
    hide KernelInv, Exit, KillFrom, SetTf, EnterUser, Lasting;
    if s.procs[s.cur].pid == pid {
      ExitLasting(s);
    } else {
      KillFromLasting(s, pid, 0);
      var t := KillFrom(s, pid, 0).value;
      ReturnKeeps(t, 0xFFFF_FFFF);
      KeptLasting(s, t, Kill(s, pid).value);
    }
  }

  lemma SbrkLasting(s: State)
    requires KernelInv(s) && Sbrk(s).Go?
    ensures Lasting(s, Sbrk(s).value)
  {
    hide KernelInv, AddPage, SetTf, EnterUser, Lasting;
    AddPageLasting(s);
    var t := AddPage(s).value;
    ReturnKeeps(t, s.procs[s.cur].heap);
    KeptLasting(s, t, Sbrk(s).value);
  }

  lemma SyscallLasting(s: State, env: Env)
    requires KernelInv(s) && s.cur < 8 && s.x.satp == s.procs[s.cur].pagetable
    requires Abs(s).Runs() && CallOk(s.io, s.cur, Abs(s).Cur(), env) && Syscall(s, env).Go?
    ensures Lasting(s, Syscall(s, env).value)
  {
    hide KernelInv, Abs, Fork, Exit, Read, Open, Close, Kill, ExecPath, Sbrk, ReturnWord, EnterUser, Lasting,
         AStoreBytes, IsArgv, ImageOk, PushArguments, ReadFd, CanRead, StringAt, Buffer, Found;
    TfIsReg(s, A7);
    TfIsReg(s, A0);
    LastingRefl(s);
    var u := Syscall(s, env).value;
    match TfWord(s, TF_REGS + A7)
    case 1 =>
      ForkLasting(s);
      EntryKeeps(Fork(s).value);
      KeptLasting(s, Fork(s).value, u);
    case 2 => ExitLasting(s);
    case 5 =>
      IoKeeps(s, env);
      KeptLasting(s, s, u);
    case 6 => KillLasting(s, TfWord(s, TF_REGS + A0));
    case 7 => ExecPathLasting(s, env);
    case 11 =>
      ReturnKeeps(s, s.procs[s.cur].pid);
      KeptLasting(s, s, u);
    case 12 => SbrkLasting(s);
    case 13 =>
      assert RolesKept(s, u);
      KeptLasting(s, s, u);
    case 15 =>
      IoKeeps(s, env);
      KeptLasting(s, s, u);
    case 16 =>
      EntryKeeps(s);
      KeptLasting(s, s, u);
    case 21 =>
      IoKeeps(s, env);
      KeptLasting(s, s, u);
    case _ =>
  }

  lemma TrapLasting(s: State, env: Env)
    requires UserInv(s) && Abs(s).Runs() && s.cur < 8 && CallOk(s.io, s.cur, Abs(s).Cur(), env) && Trap(s, env).Go?
    ensures Lasting(s, Trap(s, env).value)
  {
    hide Core, Resumable, AbsProc, TrapEntry, SetTf, Syscall, AStoreBytes, IsArgv, Lasts, ReadFd,
         CanRead, StringAt, Buffer, Found, ImageOk, PushArguments;
    LastingRefl(s);
    TrapEntryOk(s);
    EntryKeeps(s);
    var t := TrapEntry(s).value;
    var pc := (s.pc + 4) % 0x1_0000_0000;
    SetEpcOk(t, pc);
    EntryKeeps(t);
    var u := SetTf(t, TF_EPC, pc).value;
    UserPc(s);
    SyscallLasting(u, env);
    KeptLasting(s, s, t);
    KeptLasting(s, t, u);
    LastingTrans(s, u, Syscall(u, env).value);
  }

  lemma DispatchLasting(s: State)
    requires DispatchNext(s).Go?
    ensures RolesKept(s, DispatchNext(s).value)
  {
    hide EnterUser, ReturnWord, Scan;
    match Scan(s.procs, s.next % 8, 8)
    case None =>
    case Some(o) =>
      var t := Switched(s, o, s.x.satp);
      EntryKeeps(t);
      ReturnKeeps(t, 0);
  }

  lemma NextLasting(s: State, e: Event)
    requires Inv(s) && EventOk(Abs(s), e) && Next(s, e).Go?
    ensures Lasting(s, Next(s, e).value)
  {
    hide Core, Resumable, AbsProc, Trap, DispatchNext, Mmu, TrapEntry, EnterUser, FdOk, MemoryOk, Lasts, Typed,
         SatpInv;
    LastingRefl(s);
    var u := Next(s, e).value;
    if s.mode == InScheduler {
      if e.Dispatch? { DispatchLasting(s); }
      KeptLasting(s, s, u);
    } else {
      RunningFacts(s);
      match e
      case Ecall(env) => TrapLasting(s, env);
      case UartInterrupt(keys) =>
        EntryKeeps(s);
        EntryKeeps(TrapEntry(s).value.WithIo(Typed(TrapEntry(s).value.io, keys)));
        KeptLasting(s, s, TrapEntry(s).value);
        KeptLasting(s, TrapEntry(s).value, u);
      case _ => KeptLasting(s, s, u);
    }
  }

  /** Over every run RAM keeps its size and a leaked page stays leaked: it is not free, and no live process has it. */
  lemma {:induction false} RunLasting(s: State, es: seq<Event>)
    requires Inv(s) && RunOk(Abs(s), es) && Run(s, es).Go?
    ensures Lasting(s, Run(s, es).value)
    decreases |es|
  {
    hide Inv, Abs, Next, AStep, EventOk, Lasting;
    LastingRefl(s);
    if es != [] {
      NextOk(s, es[0]);
      NextLasting(s, es[0]);
      var t := Next(s, es[0]).value;
      RunLasting(t, es[1..]);
      LastingTrans(s, t, Run(t, es[1..]).value);
    }
  }

  lemma LeakedForever(s: State, es: seq<Event>, p: nat, o: nat, at: Place)
    requires Inv(s) && RunOk(Abs(s), es) && Run(s, es).Go? && p < |s.x.role| && s.x.role[p] == Leaked && o < 8
    ensures var t := Run(s, es).value;
      && p !in t.x.free && (Live(t.procs, o) ==> PageAt(t, o, at) != Some(p))
  {
    hide Core, Resumable, Run, RunOk, PageAt, Abs;
    RunLasting(s, es);
    RunRefines(s, es);
    var t := Run(s, es).value;
    FreeRoles(t);
    if Live(t.procs, o) && PageAt(t, o, at).Some? { PageRole(t, o, at); }
  }

  // ---- the heap accounts, from power-on ----

  lemma CreateSize(s: State, file: seq<Byte>)
    requires Idle(s) && s.x.satp == s.kroot && ImageOk(file) && Create(s, file).Go?
    ensures var t := Create(s, file).value; |t.x.mem| == |s.x.mem| && t.ramBegin == s.ramBegin
  {
    hide FreeOk, TableOk, Leaf, SpaceOf, IdentityOk, SlotsOk, HeapOk, Resumable, BuildImage, ImageOk, PhysOk,
         ImageBuilt;
    var c, roots := FirstUnused(s.procs, 0), Roots(s.procs, s.kroot);
    assert View(s) == s.x;
    LiveRoot(s, c);
    BuildImageOk(s.x, roots, c, s.procs[c].kstack, file);
    var im := BuildImage(s.x, c, s.procs[c].kstack, file).value;
    ImageLasts(s.x, im, roots[c := im.root], c, s.procs[c].kstack, file);
  }

  lemma BootSize(mem: Memory, ramBegin: nat, kstacks: seq<Word>, disk: seq<Ustar.Sector>)
    requires RamOk(mem, ramBegin) && |kstacks| == 8 && ImageOk(Shell(disk)) &&
      BootState(mem, ramBegin, kstacks, disk).Go?
    ensures var s := BootState(mem, ramBegin, kstacks, disk).value; |s.x.mem| == |mem| && s.ramBegin == ramBegin
  {
    hide PhysOk, BootMemory, Create, ImageOk, Idle, Files, Shell, LoadDisk, FreshIo, IdentityOk;
    BootMemoryOk(mem, ramBegin);
    var (x, kroot) := BootMemory(mem, ramBegin).value;
    FirstState(x, ramBegin, kroot, kstacks, disk);
    var s := Start(x, ramBegin, kroot, kstacks, disk);
    CreateSize(s, Shell(disk));
  }

  /** Over every run from power-on: the pages under all heap breaks and the free pages together never exceed the pages
      RAM had in the beginning; so every break stays at or below the stack page. */
  lemma RunAccounts(mem: Memory, ramBegin: nat, kstacks: seq<Word>, disk: seq<Ustar.Sector>, es: seq<Event>, o: nat)
    requires RamOk(mem, ramBegin) && |kstacks| == 8 && ImageOk(Shell(disk)) && RunOk(ABoot(disk), es) && o < 8
    requires PowerOn(mem, ramBegin, kstacks, disk, es).Go?
    ensures var t := PowerOn(mem, ramBegin, kstacks, disk, es).value;
      && HeapSum(t.procs, 0) + |t.x.free| <= |mem| - ramBegin
      && USER_BASE <= t.procs[o].heap <= 0xFFFF_E000 && t.procs[o].heap % 4096 == 0
  {
    hide Inv, Abs, Run, RunOk, BootState, HeapSum, ABoot, ImageOk;
    BootOk(mem, ramBegin, kstacks, disk);
    BootSize(mem, ramBegin, kstacks, disk);
    var s := BootState(mem, ramBegin, kstacks, disk).value;
    RunRefines(s, es);
    RunLasting(s, es);
    HeapAccounts(Run(s, es).value, o);
  }
}
