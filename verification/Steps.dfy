/**
 Every step of the kernel is a step of the abstract system, and keeps the invariant.
 */
module Steps {
  import opened Sv32
  import opened Bytes
  import opened Pages
  import opened PageTables
  import opened Spaces
  import opened Images
  import opened Arguments
  import opened Processes
  import opened Building
  import opened Machine
  import opened AbstractOs
  import opened Devices
  import OpenFiles
  import opened Invariant
  import opened Traps
  import opened UserMemory
  import opened Forking
  import opened Ending
  import opened Growing
  import opened Executing
  import opened TableCopy
  import opened Capacity
  import opened Halting

  /** The kernel's outcome `r` where the abstract system comes to `b`: kpanic exactly if `stops`, and no fault. */
  ghost predicate Implements(r: Outcome<State>, b: Option<AState>, stops: bool) {
    r != Fault && (r.Halt? <==> stops) && (r.Go? ==> Inv(r.value) && b == Some(Abs(r.value)))
  }

  lemma TfIsReg(s: State, r: nat)
    requires KernelInv(s) && r < 31
    ensures Abs(s).Runs() && TfWord(s, TF_REGS + r) == Abs(s).Cur().regs[r]
  {
    hide Core, Resumable, SpaceOf, IdentityOk, SlotOk;
    RunningFacts(s);
  }

  lemma ReturnOk(s: State, w: Word)
    requires KernelInv(s)
    ensures Abs(s).Runs() &&
      Implements(ReturnWord(s, w), Some(Abs(s).With(Returned(Abs(s).Cur(), w)).In(InUser)), false)
  {
    hide KernelInv, UserInv, Abs, EnterUser, SetTf;
    SetA0Ok(s, w);
    EnterUserOk(SetTf(s, TF_REGS + A0, w).value);
  }

  lemma ForkCallOk(s: State)
    requires KernelInv(s)
    ensures Abs(s).Runs()
    ensures s.cur < 8 && Implements((var t :- Fork(s); EnterUser(t)),
      (match AFork(Abs(s)) case None => None case Some(b) => Some(b.In(InUser))),
      NoSlot(s.procs) || |s.x.free| < 2 + TableCount(s.x.mem, s.procs[s.cur].pagetable, 0))
  {
    hide KernelInv, UserInv, Abs, EnterUser, Fork, AFork, NoSlot, TableCount;
    ForkOk(s);
    ForkHalts(s);
    if Fork(s).Go? { EnterUserOk(Fork(s).value); }
  }

  lemma ExecCallOk(s: State, file: seq<Byte>, args: seq<seq<Byte>>)
    requires KernelInv(s) && ImageOk(file) && PushArguments(Zero(), args).Go?
    ensures Abs(s).Runs()
    ensures Implements((var t :- Exec(s, file, args); EnterUser(t)),
                       (match AExec(Abs(s), file, args) case None => None case Some(b) => Some(b.In(InUser))),
                       |s.x.free| < Price(|s.x.mem|, file))
  {
    hide KernelInv, UserInv, Abs, EnterUser, Exec, AExec, ImageOk, PushArguments, Price;
    ExecOk(s, file, args);
    ExecHalts(s, file, args);
    if Exec(s, file, args).Go? { EnterUserOk(Exec(s, file, args).value); }
  }

  lemma WithTwice(a: AState, p: AProc, q: AProc)
    requires a.cur < 8
    ensures a.With(p).With(q) == a.With(q)
  {
    assert a.procs[a.cur := Some(p)][a.cur := Some(q)] == a.procs[a.cur := Some(q)];
  }

  /** Bytes read for a process go to its own buffer, and their number to a0. */
  lemma DeliverOk(s: State, data: seq<Byte>)
    requires KernelInv(s) && s.cur < 8 && s.x.satp == s.procs[s.cur].pagetable && Abs(s).Runs()
    requires AStoreBytes(Abs(s).Cur().space, Abs(s).Cur().regs[A1], data).Some? && |data| < 0x1_0000_0000
    ensures Implements(Deliver(s, data), ADeliver(Abs(s), data), false)
  {
    hide Core, Resumable, SpaceOf, IdentityOk, SlotOk, PhysOk, StoreBytes, AStoreBytes, EnterUser, SetTf, OwnPagesOnly;
    RunningFacts(s);
    TfIsReg(s, A1);
    var va := TfWord(s, TF_REGS + A1);
    assert |s.x.mem| == |s.x.role| by { ShapeIs(s.x, Roots(s.procs, s.kroot)); }
    StoreBytesOk(s.x, Roots(s.procs, s.kroot), s.cur, va, data);
    var y := StoreBytes(s.x, va, data).value;
    OwnPagesStep(s, y);
    SetA0Ok(s.WithPhys(y), |data|);
    var p := Abs(s).Cur();
    var sp := AStoreBytes(p.space, p.regs[A1], data).value;
    WithTwice(Abs(s), AProc(p.regs, p.pc, sp), AProc(p.regs[A0 := |data|], p.pc, sp));
    EnterUserOk(SetTf(s.WithPhys(y), TF_REGS + A0, |data|).value);
  }

  /** Files and terminal are nobody's memory. */
  lemma IoStep(s: State, io: Io)
    requires KernelInv(s) && IoOk(io)
    ensures Abs(s).Runs() && KernelInv(s.WithIo(io)) && Abs(s.WithIo(io)) == Abs(s).WithIo(io)
    ensures forall k :: 0 <= k < 1024 ==> TfWord(s.WithIo(io), k) == TfWord(s, k)
  {
    hide PhysOk, SlotsOk, HeapOk, AbsSlot, IoOk;
    RunningFacts(s);
    var t := s.WithIo(io);
    forall o | 0 <= o < 8 ensures AbsSlot(t, o) == AbsSlot(s, o) { SlotIo(s, io, o); }
    AbsIs(t, Abs(s).WithIo(io));
  }

  lemma SlotIo(s: State, io: Io, o: nat)
    requires o < 8
    ensures AbsSlot(s.WithIo(io), o) == AbsSlot(s, o)
  {
    hide SpaceOf;
  }

  lemma KernelIo(s: State)
    requires KernelInv(s)
    ensures IoOk(s.io) && s.cur < 8 && Abs(s).io == s.io && Abs(s).cur == s.cur
  {
    hide PhysOk, SlotsOk, HeapOk, AbsSlot, IoOk, Resumable;
  }

  /** read: for a descriptor the file calls can handle, what the file or the terminal gives; for any other, a fault. */
  lemma ReadOk(s: State)
    requires KernelInv(s) && s.cur < 8 && s.x.satp == s.procs[s.cur].pagetable && Abs(s).Runs()
    requires var p := Abs(s).Cur();
      match ReadFd(s.io, s.cur, p.regs[A0], p.regs[A2])
      case Go((_, data)) => AStoreBytes(p.space, p.regs[A1], data).Some?
      case _ => true
    ensures CanRead(s.io, s.cur, Abs(s).Cur().regs[A0]) ==> Implements(Read(s), ARead(Abs(s)), false)
    ensures !CanRead(s.io, s.cur, Abs(s).Cur().regs[A0]) ==> Read(s) == Fault
  {
    hide KernelInv, Abs, AStoreBytes, Deliver, IoOk, CanRead, ReadFd, ADeliver, Implements;
    TfIsReg(s, A0);
    TfIsReg(s, A2);
    KernelIo(s);
    var p := Abs(s).Cur();
    ReadFdOk(s.io, s.cur, p.regs[A0], p.regs[A2]);
    if CanRead(s.io, s.cur, p.regs[A0]) {
      var (io, data) := ReadFd(s.io, s.cur, p.regs[A0], p.regs[A2]).value;
      assert |data| < 0x1_0000_0000 by { ReadLength(s.io, s.cur, p.regs[A0], p.regs[A2]); }
      IoStep(s, io);
      DeliverOk(s.WithIo(io), data);
    }
  }

  lemma ReadLength(io: Io, p: nat, fd: Word, n: Word)
    requires p < 8 && ReadFd(io, p, fd, n).Go?
    ensures |ReadFd(io, p, fd, n).value.1| <= n
  {
    hide ReadFd;
  }

  lemma OpenOk(s: State, path: seq<Byte>)
    requires KernelInv(s) && s.cur < 8
    ensures Abs(s).Runs() && Implements(Open(s, path), Some(AOpen(Abs(s), path)), false)
  {
    hide KernelInv, Abs, ReturnWord, IoOk, OpenPath, Implements;
    KernelIo(s);
    OpenPathOk(s.io, s.cur, path);
    var (io, w) := OpenPath(s.io, s.cur, path);
    IoStep(s, io);
    ReturnOk(s.WithIo(io), w);
  }

  lemma CloseOk(s: State)
    requires KernelInv(s) && s.cur < 8
    ensures Abs(s).Runs()
    ensures Abs(s).Cur().regs[A0] < OpenFiles.MAX_OPEN ==> Implements(Close(s), AClose(Abs(s)), false)
    ensures Abs(s).Cur().regs[A0] >= OpenFiles.MAX_OPEN ==> Close(s) == Fault
  {
    hide KernelInv, Abs, ReturnWord, IoOk, CloseFd, Implements;
    KernelIo(s);
    TfIsReg(s, A0);
    var fd := Abs(s).Cur().regs[A0];
    CloseFdOk(s.io, s.cur, fd);
    if fd < OpenFiles.MAX_OPEN {
      var (io, w) := CloseFd(s.io, s.cur, fd).value;
      IoStep(s, io);
      ReturnOk(s.WithIo(io), w);
    }
  }

  lemma ExecPathOk(s: State, env: Env)
    requires KernelInv(s)
    requires Found(s.io, env.path).Some? ==> ImageOk(Found(s.io, env.path).value) && PushArguments(Zero(), env.args).Go?
    ensures Abs(s).Runs() && Implements(ExecPath(s, env), AExecPath(Abs(s), env),
      Found(s.io, env.path).Some? && |s.x.free| < Price(|s.x.mem|, Found(s.io, env.path).value))
  {
    hide KernelInv, Inv, Abs, EnterUser, Exec, AExec, ImageOk, PushArguments, Found, IoOk, Price;
    KernelIo(s);
    match Found(s.io, env.path)
    case None => ResumeOk(s);
    case Some(file) => ExecCallOk(s, file, env.args);
  }

  lemma ResumeOk(s: State)
    requires KernelInv(s)
    ensures Abs(s).Runs() && Implements(EnterUser(s), Some(Abs(s).In(InUser)), false)
  {
    hide KernelInv, UserInv, Abs, EnterUser;
    RunsHere(s);
    EnterUserOk(s);
  }

  lemma RunsHere(s: State)
    requires KernelInv(s)
    ensures Abs(s).Runs()
  {
    hide Core, Resumable, SpaceOf;
    RunningFacts(s);
  }

  lemma KillCallOk(s: State, pid: Word)
    requires KernelInv(s) && s.cur < 8 && s.x.satp == s.procs[s.cur].pagetable
    ensures Abs(s).Runs()
    ensures Implements(Kill(s, pid),
      if pid == s.cur + 1 then Some(AExit(Abs(s)))
      else Some(AState(AKillFrom(Abs(s).procs, pid, 0), Abs(s).heap, s.cur, s.next, InUser, s.io).With(Returned(Abs(s).Cur(), 0xFFFF_FFFF))), false)
  {
    hide Core, Resumable, AbsProc, Exit, KillFrom, SetTf, EnterUser, AKillFrom;
    RunningFacts(s);
    PidIs(s, s.cur);
    if pid == s.cur + 1 {
      ExitOk(s);
    } else {
      KillFromOk(s, pid, 0);
      KillSparesOthers(Abs(s).procs, pid, 0, s.cur);
      var t := KillFrom(s, pid, 0).value;
      SetA0Ok(t, 0xFFFF_FFFF);
      EnterUserOk(SetTf(t, TF_REGS + A0, 0xFFFF_FFFF).value);
    }
  }

  lemma SbrkOk(s: State)
    requires KernelInv(s)
    ensures Abs(s).Runs() && s.cur < 8 && Implements(Sbrk(s), Some(ASbrk(Abs(s)).In(InUser)),
      |s.x.free| < 1 + MissingTable(s.x.mem, s.procs[s.cur].pagetable, s.procs[s.cur].heap))
  {
    hide Core, Resumable, AbsProc, AddPage, SetTf, EnterUser, MissingTable;
    RunningFacts(s);
    AddPageHalts(s);
    AddPageOk(s);
    if AddPage(s).Go? {
      var t := AddPage(s).value;
      SetA0Ok(t, s.procs[s.cur].heap);
      EnterUserOk(SetTf(t, TF_REGS + A0, s.procs[s.cur].heap).value);
    }
  }

  /** A process that sleeps is the same process, about to find 0 in a0. */
  lemma SleepOk(s: State)
    requires KernelInv(s) && s.cur < 8 && s.x.satp == s.procs[s.cur].pagetable
    ensures Abs(s).Runs() && Implements(Sleep(s), Some(Abs(s).With(Returned(Abs(s).Cur(), 0)).In(InScheduler)), false)
  {
    hide PhysOk, SlotOk, SpaceOf, HeapOk, AbsProc, SlotsOk, IoOk, KernelMapped;
    RunningFacts(s);
    var o := s.cur;
    var q := s.procs[o].(resume := AfterSleep, sp := Below(s.procs[o].kstack, SLEEP_DEPTH));
    var t := s.WithProc(o, q).WithMode(InScheduler);
    RootsSame(s.procs, s.kroot, o, q);
    LiveRoot(s, o);
    PhysSatp(s.x, Roots(s.procs, s.kroot), KERNEL_TABLE);
    HeapResume(s.x, s.ramBegin, s.procs, s.burned, o, q);
    SleepSlots(s, t);
    SleepView(s, t);
    SleepMapped(s);
  }

  /** The sleeper's table stays loaded. */
  lemma SleepMapped(s: State)
    requires KernelInv(s) && s.cur < 8 && s.x.satp == s.procs[s.cur].pagetable
    ensures KernelMapped(s.x)
  {
    hide FreeOk, TableOk, HeapOk, Resumable, SpaceOf, Leaf;
    RunningFacts(s);
    TableMaps(s.x, Roots(s.procs, s.kroot), s.cur);
    assert Phys(s.x.mem, s.x.free, s.x.role, s.x.satp) == s.x;
  }

  lemma SleepSlots(s: State, t: State)
    requires SlotsOk(s.x, s.procs) && Live(s.procs, s.cur) && s.cur < 8 && t.x == s.x
    requires t.procs == s.procs[s.cur := s.procs[s.cur].(resume := AfterSleep, sp := Below(s.procs[s.cur].kstack, SLEEP_DEPTH))]
    ensures SlotsOk(t.x, t.procs)
  {
    hide SlotOk;
    forall b | 0 <= b < 8 && Live(t.procs, b) ensures SlotOk(t.x, t.procs[b], b) {
      assert Live(s.procs, b);
      if b == s.cur { SlotResume(s.x, s.procs[b], t.procs[b], b); }
    }
  }

  lemma SleepView(s: State, t: State)
    requires KernelInv(s) && s.cur < 8 &&
      t == s.WithProc(s.cur, s.procs[s.cur].(resume := AfterSleep, sp := Below(s.procs[s.cur].kstack, SLEEP_DEPTH)))
             .WithMode(InScheduler)
    ensures Abs(s).Runs() && Abs(t) == Abs(s).With(Returned(Abs(s).Cur(), 0)).In(InScheduler)
  {
    hide Core, SpaceOf;
    AbsIs(t, Abs(s).With(Returned(Abs(s).Cur(), 0)).In(InScheduler));
  }

  lemma SlotResume(x: Phys, p: Proc, q: Proc, o: nat)
    requires SlotOk(x, p, o) && q == p.(resume := q.resume, sp := q.sp)
    ensures SlotOk(x, q, o)
  {
    hide IdentityOk, Leaf;
  }

  lemma HeapResume(x: Phys, ramBegin: nat, procs: ProcTable, burned: set<nat>, o: nat, q: Proc)
    requires HeapOk(x, ramBegin, procs, burned) && o < 8 && q == procs[o].(resume := q.resume, sp := q.sp)
    ensures HeapOk(x, ramBegin, procs[o := q], burned)
  {
    hide HeapSum, HeapPages, Burned;
    HeapSumSame(procs, procs[o := q], 0);
    var t := procs[o := q];
    assert forall b :: 0 <= b < 8 ==>
      t[b].heap == procs[b].heap && t[b].userStack == procs[b].userStack && t[b].state == procs[b].state;
  }

  /** Every system call that keeps to the rules does what the abstract system says, unless it is one of those that end in
      kpanic. One whose descriptor the file calls cannot handle goes wrong. */
  lemma SyscallOk(s: State, env: Env)
    requires KernelInv(s) && s.cur < 8 && s.x.satp == s.procs[s.cur].pagetable
    requires Abs(s).Runs() && MemoryOk(s.io, s.cur, Abs(s).Cur(), env)
    ensures FdOk(s.io, s.cur, Abs(s).Cur()) ==> 
      Implements(Syscall(s, env), ASyscall(Abs(s), env), CallStops(s, Abs(s).Cur().regs, env))
    ensures !FdOk(s.io, s.cur, Abs(s).Cur()) ==> Syscall(s, env) == Fault
  {
    hide Core, Resumable, AbsProc, Fork, Exit, Read, Open, Close, Kill, ExecPath, Sbrk, Sleep, ReturnWord, EnterUser,
         UserInv, SchedulerInv, AFork, ARead, AOpen, AClose, AExecPath, AExit, ASbrk, AKillFrom, AStoreBytes, IsArgv,
         ImageOk, PushArguments, StringAt, Buffer, CanRead, ReadFd, Found, NoSlot, TableCount, Price, MissingTable;
    TfIsReg(s, A7);
    TfIsReg(s, A0);
    KernelIo(s);
    match TfWord(s, TF_REGS + A7)
    case 1 => ForkCallOk(s);
    case 2 => ExitOk(s);
    case 5 => ReadOk(s);
    case 6 => KillCallOk(s, TfWord(s, TF_REGS + A0));
    case 7 => ExecPathOk(s, env);
    case 11 =>
      PidIs(s, s.cur);
      ReturnOk(s, s.procs[s.cur].pid);
    case 12 => SbrkOk(s);
    case 13 => SleepOk(s);
    case 15 => OpenOk(s, env.path);
    case 16 => EnterUserOk(s);
    case 21 => CloseOk(s);
    case _ =>
  }
}
