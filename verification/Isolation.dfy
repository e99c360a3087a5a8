/**
 What one process can do to another: nothing, except kill it.
 */
module Isolation {
  import opened Sv32
  import opened Bytes
  import opened Pages
  import opened Spaces
  import opened Processes
  import opened Machine
  import opened AbstractOs
  import opened Invariant
  import opened Ending
  import opened Refinement

  /** In `a`, the event `e` is an instruction of process `o`, or a kill that names it. */
  predicate Concerns(a: AState, e: Event, o: nat) {
    a.mode == InUser && a.Runs() && !e.Dispatch? &&
    (a.cur == o || (e.Ecall? && a.Cur().regs[A7] == 6 && a.Cur().regs[A0] == o + 1))
  }

  lemma ForkSlot(a: AState, i: nat, o: nat)
    requires o < 8 && a.procs[o].Some?
    ensures AFirstFree(a.procs, i) != o
    decreases 8 - i
  {
    if i < 8 { ForkSlot(a, i + 1, o); }
  }

  lemma SyscallIsolates(b: AState, env: Env, o: nat)
    requires b.Runs() && o < 8 && b.cur != o && b.procs[o].Some? && ASyscall(b, env).Some?
    requires !(b.Cur().regs[A7] == 6 && b.Cur().regs[A0] == o + 1)
    ensures ASyscall(b, env).value.procs[o] == b.procs[o]
  {
    hide AStoreBytes, FreshProc, AKillFrom, AFirstFree;
    match b.Cur().regs[A7]
    case 1 => ForkSlot(b, 0, o);
    case 6 => KillSparesOthers(b.procs, b.Cur().regs[A0], 0, o);
    case _ =>
  }

  /** A step that does not concern `o` leaves its registers, pc and memory alone. */
  lemma StepIsolates(a: AState, e: Event, o: nat)
    requires Proper(a) && o < 8 && a.procs[o].Some? && !Concerns(a, e, o) && AStep(a, e).Some?
    ensures AStep(a, e).value.procs[o] == a.procs[o]
  {
    hide AStore, AScan, ASyscall;
    if a.mode == InUser && e.Ecall? {
      var p := a.Cur();
      SyscallIsolates(a.With(AProc(p.regs, (p.pc + 4) % 0x1_0000_0000, p.space)), e.env, o);
    }
  }

  /** No step of the run concerns `o`. */
  ghost predicate LeftAlone(a: AState, es: seq<Event>, o: nat)
    decreases |es|
  {
    es != [] && Proper(a) ==>
      && !Concerns(a, es[0], o)
      && (AStep(a, es[0]).Some? ==> LeftAlone(AStep(a, es[0]).value, es[1..], o))
  }

  lemma {:induction false} RunIsolates(a: AState, es: seq<Event>, o: nat)
    requires o < 8 && a.procs[o].Some? && LeftAlone(a, es, o) && ARun(a, es).Some?
    ensures ARun(a, es).value.procs[o] == a.procs[o]
    decreases |es|
  {
    hide AStep, Concerns;
    if es != [] {
      StepIsolates(a, es[0], o);
      RunIsolates(AStep(a, es[0]).value, es[1..], o);
    }
  }

  /** Whatever other processes do in between, a process resumes in user mode with exactly the registers, the pc and
      the memory it had when it last gave up the processor (a0 being 0 after a sleep). */
  lemma ResumesUnchanged(s: State, es: seq<Event>, o: nat)
    requires Inv(s) && RunOk(Abs(s), es) && o < 8 && Live(s.procs, o) && LeftAlone(Abs(s), es, o) && Run(s, es).Go?
    ensures var t := Run(s, es).value;
      && Live(t.procs, o) && AbsProc(t, o) == AbsProc(s, o)
      && (t.mode == InUser && t.cur == o ==>
          && t.regs == AbsProc(s, o).regs && t.pc == AbsProc(s, o).pc
          && t.x.satp == t.procs[o].pagetable && SpaceOf(t.x.mem, t.x.satp) == AbsProc(s, o).space)
  {
    hide Core, Resumable, SpaceOf, Run, ARun, RunOk, LeftAlone;
    RunRefines(s, es);
    RunIsolates(Abs(s), es, o);
    assert Abs(Run(s, es).value).procs[o] == Some(AbsProc(s, o));
  }

  /** Two processes never see each other's stores: the memory behind one address space is nobody else's. */
  lemma StoreIsPrivate(s: State, va: Word, b: Byte, o: nat)
    requires UserInv(s) && o < 8 && o != s.cur && Live(s.procs, o) && Next(s, Store(va, b)).Go?
    ensures var t := Next(s, Store(va, b)).value;
      Live(t.procs, o) && AbsProc(t, o) == AbsProc(s, o)
  {
    hide Core, Resumable, SpaceOf, AStore, StoreVia, AbsProc;
    NextOk(s, Store(va, b));
    StepIsolates(Abs(s), Store(va, b), o);
    assert Abs(s).procs[o] == Some(AbsProc(s, o));
  }
}
