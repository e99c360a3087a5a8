/**
 The main theorem: over every run the kernel implements the abstract system,
 keeps its invariant, and never reaches a fault.
 */
module Refinement {
  import opened Sv32
  import opened Bytes
  import opened Pages
  import opened Spaces
  import opened Processes
  import opened Machine
  import opened AbstractOs
  import opened Devices
  import OpenFiles
  import opened Images
  import opened Arguments
  import opened Invariant
  import opened Traps
  import opened UserMemory
  import opened PageTables
  import opened Building
  import opened Steps
  import opened Halting

  lemma {:induction false} ScanSame(s: State, i: nat, n: nat)
    requires i < 8
    ensures AScan(Abs(s).procs, i, n) == Scan(s.procs, i, n)
    ensures Scan(s.procs, i, n).Some? ==> Live(s.procs, Scan(s.procs, i, n).value)
    decreases n
  {
    hide AbsProc;
    if n > 0 { ScanSame(s, (i + 1) % 8, n - 1); }
  }

  /** The state in which the scheduler hands over to slot `o`, with satp still unchecked. */
  function Switched(s: State, o: nat, satp: nat): State {
    State(Phys(s.x.mem, s.x.free, s.x.role, satp), s.ramBegin, s.kroot, s.procs, o, o + 1, InKernel, s.regs, s.pc, s.burned, s.io)
  }

  /** The kernel does not depend on satp until it loads it. */
  lemma SatpUnused(s: State, o: nat, satp: nat)
    requires o < 8
    ensures EnterUser(Switched(s, o, satp)) == EnterUser(Switched(s, o, s.kroot))
    ensures ReturnWord(Switched(s, o, satp), 0) == ReturnWord(Switched(s, o, s.kroot), 0)
  {
  }

  lemma SwitchedOk(s: State, o: nat)
    requires Idle(s) && o < 8 && Live(s.procs, o)
    ensures var t := Switched(s, o, s.kroot);
      && KernelInv(t) && Abs(t).Runs() && Returns(s.procs[o])
      && (s.procs[o].resume == ToUser ==> Abs(t) == AState(Abs(s).procs, Abs(s).heap, o, o + 1, InKernel, s.io))
      && (s.procs[o].resume == AfterSleep ==>
          Abs(t).With(Returned(Abs(t).Cur(), 0)) == AState(Abs(s).procs, Abs(s).heap, o, o + 1, InKernel, s.io))
  {
    hide PhysOk, SpaceOf, SlotOk, HeapOk;
    var t := Switched(s, o, s.kroot);
    HeapSatp(s, t);
    forall b | 0 <= b < 8 && Live(t.procs, b)
      ensures SlotOk(t.x, t.procs[b], b) { SlotOkPhys(s.x, t.x, s.procs[b], b); }
    assert Abs(t).procs[o] == Some(AProc(FrameRegs(FrameAt(s.x.mem, s.procs[o].trapframe)),
      FrameAt(s.x.mem, s.procs[o].trapframe)[TF_EPC], SpaceOf(s.x.mem, s.procs[o].pagetable)));
    if s.procs[o].resume == ToUser {
      assert Abs(t).procs == Abs(s).procs;
      assert Abs(t).heap == Abs(s).heap;
    } else {
      assert Abs(t).With(Returned(Abs(t).Cur(), 0)).procs == Abs(s).procs;
      assert Abs(t).heap == Abs(s).heap;
    }
  }

  lemma SwitchGo(s: State, o: nat)
    requires Idle(s) && o < 8 && Live(s.procs, o)
    ensures Returns(s.procs[o])
    ensures var t := Switched(s, o, s.x.satp); EnterUser(t).Go? && ReturnWord(t, 0).Go?
  {
    hide Idle, KernelInv, Abs, EnterUser, SetTf;
    SwitchedOk(s, o);
    SatpUnused(s, o, s.x.satp);
    var t := Switched(s, o, s.kroot);
    EnterUserOk(t);
    SetA0Ok(t, 0);
    EnterUserOk(SetTf(t, TF_REGS + A0, 0).value);
  }

  lemma HeapSatp(s: State, t: State)
    requires HeapOk(s.x, s.ramBegin, s.procs, s.burned) && t == Switched(s, t.cur, t.x.satp)
    ensures HeapOk(t.x, t.ramBegin, t.procs, t.burned)
  {
    forall p | p in s.burned ensures Burned(t.x, p) { assert Burned(s.x, p); }
  }

  lemma SchedulerView(s: State)
    requires SchedulerInv(s)
    ensures s.mode == InScheduler && Abs(s).next == s.next && Abs(s).mode == InScheduler && Abs(s).io == s.io
  {
    hide Core, Resumable, SatpInv, AbsSlot;
  }

  /** Dispatch resumes the next process of the cyclic scan with what it had saved; a freed slot is never entered. */
  lemma DispatchOk(s: State)
    requires SchedulerInv(s)
    ensures Implements(DispatchNext(s), AStep(Abs(s), Dispatch), false)
  {
    hide Idle, SatpInv, AbsProc, EnterUser, ReturnWord, KernelInv, UserInv, Scan, AScan, Below;
    SchedulerView(s);
    ScanSame(s, s.next % 8, 8);
    match Scan(s.procs, s.next % 8, 8)
    case None =>
    case Some(o) =>
      SwitchedOk(s, o);
      SatpUnused(s, o, s.x.satp);
      var t := Switched(s, o, s.kroot);
      if s.procs[o].resume == ToUser { EnterUserOk(t); } else { ReturnOk(t, 0); }
  }

  lemma TrapOk(s: State, env: Env)
    requires UserInv(s) && Abs(s).Runs() && s.cur < 8 && MemoryOk(s.io, s.cur, Abs(s).Cur(), env)
    ensures FdOk(s.io, s.cur, Abs(s).Cur()) ==>
      Implements(Trap(s, env), AStep(Abs(s), Ecall(env)), CallStops(s, s.regs, env))
    ensures !FdOk(s.io, s.cur, Abs(s).Cur()) ==> Trap(s, env) == Fault
  {
    hide Core, Resumable, AbsProc, TrapEntry, SetTf, Syscall, ASyscall, AStoreBytes, IsArgv, ReadFd, CanRead, StringAt,
         Buffer, Found, ImageOk, PushArguments, CallStops;
    TrapEntryOk(s);
    var t := TrapEntry(s).value;
    var pc := (s.pc + 4) % 0x1_0000_0000;
    SetEpcOk(t, pc);
    var u := SetTf(t, TF_EPC, pc).value;
    UserPc(s);
    SyscallOk(u, env);
    EntryFrames(s, u);
    CallStopsFrame(s, u, s.regs, env);
    var p := Abs(s).Cur();
    SyscallMode(Abs(s).With(AProc(p.regs, pc, p.space)), env);
  }

  /** On the way into the kernel only trap frames are written. */
  lemma EntryFrames(s: State, u: State)
    requires UserInv(s) && TrapEntry(s).Go?
    requires SetTf(TrapEntry(s).value, TF_EPC, (s.pc + 4) % 0x1_0000_0000) == Go(u)
    ensures FramesOnly(s.x, u.x) && u.procs == s.procs && u.cur == s.cur < 8 && u.io == s.io
  {
    hide FreeOk, TableOk, IdentityOk, Leaf, SpaceOf, HeapOk, Resumable, Mmu, WithRegs, PhysOk, SlotsOk;
    RunningFacts(s);
    TrapFrameMapped(s.x, Roots(s.procs, s.kroot), s.procs[s.cur], s.cur);
    ShapeIs(s.x, Roots(s.procs, s.kroot));
  }

  lemma UserPc(s: State)
    requires UserInv(s)
    ensures Abs(s).Runs() && Abs(s).Cur().pc == s.pc && Abs(s).Cur().regs == s.regs
  {
    hide Core, Resumable, SpaceOf;
  }

  lemma SyscallMode(a: AState, env: Env)
    requires a.Runs()
    ensures a.In(InKernel).Runs() && ASyscall(a.In(InKernel), env) == ASyscall(a, env)
  {
    hide AStoreBytes, AKillFrom, FreshProc, ReadFd, OpenPath, CloseFd, Found, PushArguments;
  }

  /** An interrupt: the keys reach the terminal, and the process does not notice. */
  lemma InterruptOk(s: State, keys: seq<Byte>)
    requires UserInv(s)
    ensures Implements(Next(s, UartInterrupt(keys)), AStep(Abs(s), UartInterrupt(keys)), false)
  {
    hide Core, Resumable, AbsProc, TrapEntry, EnterUser, Typed, IoOk;
    TrapEntryOk(s);
    var t := TrapEntry(s).value;
    TypedIo(t, keys);
    IoStep(t, Typed(t.io, keys));
    EnterUserOk(t.WithIo(Typed(t.io, keys)));
  }

  lemma TypedIo(s: State, keys: seq<Byte>)
    requires KernelInv(s)
    ensures IoOk(Typed(s.io, keys))
  {
    hide Typed, PhysOk, SlotsOk, HeapOk, Resumable, OpenFiles.Valid;
    TypedOk(s.io, keys);
  }

  lemma ComputeOk(s: State, r: Regs, pc: Word)
    requires UserInv(s)
    ensures Implements(Next(s, Compute(r, pc)), AStep(Abs(s), Compute(r, pc)), false)
  {
    hide PhysOk, SlotsOk, HeapOk, SpaceOf;
    RunningFacts(s);
    var t := Next(s, Compute(r, pc)).value;
    AbsIs(t, Abs(s).With(AProc(r, pc, Abs(s).Cur().space)));
  }

  lemma LoadStepOk(s: State, va: Word, rd: Reg)
    requires UserInv(s)
    ensures s.cur < 8 && Implements(Next(s, Load(va, rd)), AStep(Abs(s), Load(va, rd)),
                                    !CanLoad(s.x.mem, s.procs[s.cur].pagetable, va))
  {
    hide PhysOk, SlotsOk, HeapOk, SpaceOf, Mmu, CanLoad, CanStore;
    RunningFacts(s);
    AccessIs(s.x, Roots(s.procs, s.kroot), s.cur, va, 0);
    LoadOk(s, va);
    UserPc(s);
    var r := Next(s, Load(va, rd));
    if r.Go? { AbsIs(r.value, AStep(Abs(s), Load(va, rd)).value); }
  }

  lemma StoreStepOk(s: State, va: Word, b: Byte)
    requires UserInv(s)
    ensures s.cur < 8 && Implements(Next(s, Store(va, b)), AStep(Abs(s), Store(va, b)),
                                    !CanStore(s.x.mem, s.procs[s.cur].pagetable, va))
  {
    hide Core, Resumable, SpaceOf, StoreVia, AStore, PhysOk, OwnPagesOnly, CanLoad, CanStore;
    RunningFacts(s);
    AccessIs(s.x, Roots(s.procs, s.kroot), s.cur, va, b);
    StoreOk(s.x, Roots(s.procs, s.kroot), s.cur, va, b, true);
    if AStore(Abs(s).Cur().space, va, b).Some? { OwnPagesStep(s, StoreVia(s.x, va, b, true).value); }
  }

  /** One step: the invariant is kept, no fault is possible, and the abstract system takes the same step, unless it is one
      of the steps that end in kpanic. */
  lemma NextOk(s: State, e: Event)
    requires Inv(s) && EventOk(Abs(s), e)
    ensures Abs(s).mode == InUser ==> Abs(s).Runs()
    ensures Implements(Next(s, e), AStep(Abs(s), e), Stops(s, e))
  {
    hide Core, Resumable, SatpInv, AbsProc, Trap, DispatchNext, Mmu, StoreVia, TrapEntry, EnterUser, ASyscall, Typed,
         FdOk, MemoryOk, CallStops, CanLoad, CanStore;
    if s.mode == InScheduler {
      if e.Dispatch? { DispatchOk(s); }
    } else {
      RunningFacts(s);
      match e
      case Compute(r, pc) => ComputeOk(s, r, pc);
      case Load(va, rd) => LoadStepOk(s, va, rd);
      case Store(va, b) => StoreStepOk(s, va, b);
      case Ecall(env) => TrapOk(s, env);
      case UartInterrupt(keys) => InterruptOk(s, keys);
      case Dispatch =>
    }
  }

  // ---- the descriptors nobody checks ----

  /** Exactly which system calls go wrong, among those whose buffers and strings are in order: a read through a descriptor
      that is closed or behind the array, and a close of one behind the array. */
  lemma FaultsIff(s: State, env: Env)
    requires UserInv(s) && s.cur < 8 && Abs(s).Runs() && MemoryOk(s.io, s.cur, Abs(s).Cur(), env)
    ensures Next(s, Ecall(env)) == Fault <==>
      (s.regs[A7] == 5 && 3 <= s.regs[A0] && (s.regs[A0] >= 8 || s.io.files.fds[s.cur][s.regs[A0]] == OpenFiles.None))
        || (s.regs[A7] == 21 && s.regs[A0] >= 8)
  {
    hide Core, Resumable, AbsProc, Trap, MemoryOk, AStep;
    TrapOk(s, env);
    UserPc(s);
  }

  /** Any process can do it at any time: close(8). */
  lemma CloseEight(s: State, env: Env)
    requires UserInv(s) && s.regs[A7] == 21 && s.regs[A0] == 8
    ensures Next(s, Ecall(env)) == Fault
  {
    hide Core, Resumable, AbsProc, Trap, AStep, AStoreBytes, IsArgv, ReadFd, StringAt, Buffer, Found, ImageOk,
         PushArguments;
    RunningFacts(s);
    UserPc(s);
    FaultsIff(s, env);
  }

  // ---- runs ----

  function Run(s: State, es: seq<Event>): Outcome<State>
    decreases |es|
  {
    if es == [] then Go(s)
    else
      var t :- Next(s, es[0]);
      Run(t, es[1..])
  }

  /** Some step of the run ends in kpanic. */
  predicate RunStops(s: State, es: seq<Event>)
    decreases |es|
  {
    es != [] && (Stops(s, es[0]) || (Next(s, es[0]).Go? && RunStops(Next(s, es[0]).value, es[1..])))
  }

  ghost predicate Proper(a: AState) { a.mode == InUser ==> a.Runs() }

  /** The run of the abstract system, as long as its processes behave. */
  ghost function ARun(a: AState, es: seq<Event>): Option<AState>
    decreases |es|
  {
    if es == [] then Some(a)
    else if !Proper(a) then None
    else
      match AStep(a, es[0])
      case None => None
      case Some(b) => ARun(b, es[1..])
  }

  /** Every system call of the run is one the kernel's guarantees cover. */
  ghost predicate RunOk(a: AState, es: seq<Event>)
    decreases |es|
  {
    es != [] ==>
      && Proper(a) && EventOk(a, es[0])
      && (AStep(a, es[0]).Some? ==> RunOk(AStep(a, es[0]).value, es[1..]))
  }

  /** Over every run from a good state: no fault is ever reached, the invariant holds at the end, and what the
      processes see is what the abstract system computes. */
  lemma {:induction false} RunRefines(s: State, es: seq<Event>)
    requires Inv(s) && RunOk(Abs(s), es)
    ensures Run(s, es) != Fault && (Run(s, es).Halt? <==> RunStops(s, es))
    ensures Run(s, es).Go? ==> Inv(Run(s, es).value) && ARun(Abs(s), es) == Some(Abs(Run(s, es).value))
    decreases |es|
  {
    hide Inv, Abs, Next, AStep, EventOk, Stops;
    if es != [] {
      NextOk(s, es[0]);
      if Next(s, es[0]).Go? { RunRefines(Next(s, es[0]).value, es[1..]); }
    }
  }
}
