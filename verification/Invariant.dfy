/**
 The invariant of the running system and the abstraction of a machine state to
 the processes' own view of it.
 */
module Invariant {
  import opened Sv32
  import opened Pages
  import opened PageTables
  import opened Spaces
  import opened Images
  import opened Processes
  import opened Building
  import opened Machine
  import opened AbstractOs
  import opened Devices

  predicate Live(procs: ProcTable, o: nat) { o < 8 && procs[o].state == Runnable }

  /** The roots of all page tables in use. */
  ghost function Roots(procs: ProcTable, kroot: nat): map<nat, nat> {
    map o: nat | o <= 8 &&
      (Live(procs, o) || o == KERNEL_TABLE) :: if o == KERNEL_TABLE then kroot else procs[o].pagetable
  }

  /** In the scheduler satp may still hold the root of a process that has just exited, so nothing is said about it. */
  ghost function View(s: State): Phys {
    if s.mode == InScheduler then Phys(s.x.mem, s.x.free, s.x.role, s.kroot) else s.x
  }

  /** What a live slot owns: its pid, its trap frame mapped at VA_TRAPFRAME, its stack page, the kernel identity map. */
  ghost predicate SlotOk(x: Phys, p: Proc, o: nat) {
    && o < 8 && p.pid == o + 1
    && p.trapframe < |x.mem| && p.trapframe < |x.role| && x.role[p.trapframe] == TrapFrame(o) && |x.mem| <= 0xC_0000
    && Leaf(x.mem, p.pagetable, 1023, 1023) == Some(Entry(p.trapframe, RW))
    && p.userStack < |x.role| && p.userStack < |x.mem| && x.role[p.userStack] == User(o, 1023, 1022)
    && Leaf(x.mem, p.pagetable, 1023, 1022) == Some(Entry(p.userStack, RWXU))
    && IdentityOk(x.mem, p.pagetable)
  }

  ghost predicate SlotsOk(x: Phys, procs: ProcTable) {
    forall o :: 0 <= o < 8 && Live(procs, o) ==> SlotOk(x, procs[o], o)
  }

  function HeapPages(p: Proc): nat { if p.heap < USER_BASE then 0 else (p.heap - USER_BASE) / 4096 }

  function HeapSum(procs: ProcTable, i: nat): nat
    decreases 8 - i
  {
    if i >= 8 then 0 else HeapPages(procs[i]) + HeapSum(procs, i + 1)
  }

  ghost predicate Burned(x: Phys, p: nat) {
    p < |x.role| && (x.role[p].User? || x.role[p] == Leaked)
  }

  /** The heap breaks are paid for: each page they moved was allocated once and is never freed. */
  ghost predicate HeapOk(x: Phys, ramBegin: nat, procs: ProcTable, burned: set<nat>) {
    && |x.role| == |x.mem|
    && 0 < ramBegin <= |x.mem| && |x.mem| - ramBegin <= 0x3_FFFE
    && (forall p {:trigger x.role[p]} :: 0 <= p < ramBegin ==> x.role[p] == Kernel)
    && (forall o :: 0 <= o < 8 ==> procs[o].heap >= USER_BASE && procs[o].heap % 4096 == 0)
    && |burned| == HeapSum(procs, 0)
    && (forall p :: p in burned ==> Burned(x, p))
    && (forall o :: 0 <= o < 8 && Live(procs, o) ==> procs[o].userStack !in burned)
  }

  ghost predicate Core(s: State) {
    && PhysOk(View(s), Roots(s.procs, s.kroot))
    && SlotsOk(s.x, s.procs)
    && HeapOk(s.x, s.ramBegin, s.procs, s.burned)
    && s.next <= 8 && IoOk(s.io)
  }

  /** A process that is not running: its saved context leads back to user mode. */
  predicate Parked(s: State, o: nat) { o != s.cur || s.mode == InScheduler }

  /** The saved context is the one creation, fork and exec set up, on top of the own kernel stack, or that of a sleep. */
  predicate Returns(p: Proc) {
    || (p.resume == ToUser && p.sp == p.kstack)
    || (p.resume == AfterSleep && p.sp == Below(p.kstack, SLEEP_DEPTH))
  }

  ghost predicate Resumable(s: State) {
    forall o :: 0 <= o < 8 && Live(s.procs, o) && Parked(s, o) ==> Returns(s.procs[o])
  }

  /** While the kernel works for a process. */
  ghost predicate KernelInv(s: State) {
    Core(s) && Resumable(s) && s.mode == InKernel && Live(s.procs, s.cur)
  }

  ghost predicate UserInv(s: State) {
    && Core(s) && Resumable(s) && s.mode == InUser && Live(s.procs, s.cur)
    && s.x.satp == s.procs[s.cur].pagetable
    && s.x.mem[s.procs[s.cur].trapframe][TF_SP] == s.procs[s.cur].kstack
    && s.x.mem[s.procs[s.cur].trapframe][TF_HANDLER] == USER_TRAP
  }

  /** The table in satp maps the kernel, from 4 MiB upwards, through second-level tables that are nobody's trap frame. */
  ghost predicate KernelMapped(x: Phys) {
    && x.satp < |x.mem| == |x.role| && !x.role[x.satp].TrapFrame?
    && forall i, j :: 1 <= i < 1024 && 0 <= j < 1024 && 1024 * i + j < |x.mem| ==> MappedAt(x, i, j)
  }

  ghost predicate MappedAt(x: Phys, i: nat, j: nat)
    requires x.satp < |x.mem| == |x.role|
  {
    && i < 1024 && j < 1024 && Leaf(x.mem, x.satp, i, j) == Some(Entry(1024 * i + j, RWX))
    && var q := PageOf(x.mem[x.satp][i]);
    q < |x.role| && !x.role[q].TrapFrame?
  }

  /** What satp holds while the scheduler runs: the root of the process that yielded, or what was the root of one that has
      just exited, and is free now. Before the first dispatch it is the kernel's own. */
  ghost predicate SatpInv(s: State) {
    && s.cur < 8 && KernelMapped(s.x)
    && if Live(s.procs, s.cur) then s.x.satp in {s.procs[s.cur].pagetable, s.kroot}
       else s.x.role[s.x.satp] == Free
  }

  /** The scheduler, whatever table is loaded. */
  ghost predicate Idle(s: State) {
    Core(s) && Resumable(s) && s.mode == InScheduler
  }

  ghost predicate SchedulerInv(s: State) { Idle(s) && SatpInv(s) }

  ghost predicate Inv(s: State) { UserInv(s) || SchedulerInv(s) }

  // ---- abstraction ----

  function FrameAt(m: Memory, p: nat): Frame { if p < |m| then m[p] else Zero() }

  /** The registers in a trap frame; a process that sleeps will find 0 in a0. */
  function SavedRegs(f: Frame, asleep: bool): Regs { if asleep then FrameRegs(f)[A0 := 0] else FrameRegs(f) }

  ghost function AbsProc(s: State, o: nat): AProc
    requires o < 8
  {
    var p := s.procs[o];
    var f := FrameAt(s.x.mem, p.trapframe);
    if o == s.cur && s.mode == InUser then AProc(s.regs, s.pc, SpaceOf(s.x.mem, p.pagetable))
    else AProc(SavedRegs(f, Parked(s, o) && p.resume == AfterSleep), f[TF_EPC], SpaceOf(s.x.mem, p.pagetable))
  }

  ghost function AbsSlot(s: State, o: nat): Option<AProc>
    requires o < 8
  {
    if Live(s.procs, o) then Some(AbsProc(s, o)) else None
  }

  ghost function Abs(s: State): AState {
    AState(seq<Option<AProc>>(8, o requires 0 <= o < 8 => AbsSlot(s, o)),
           seq<Word>(8, o requires 0 <= o < 8 => s.procs[o].heap), s.cur, s.next, s.mode, s.io)
  }

  /** Two abstract states agree when they agree slot by slot. */
  lemma AbsIs(s: State, a: AState)
    requires forall o :: 0 <= o < 8 ==> AbsSlot(s, o) == a.procs[o] && s.procs[o].heap == a.heap[o]
    requires s.cur == a.cur && s.next == a.next && s.mode == a.mode && s.io == a.io
    ensures Abs(s) == a
  {
    hide AbsSlot;
    assert Abs(s).procs == a.procs;
    assert Abs(s).heap == a.heap;
  }

  // ---- what an operation leaves alone ----

  /** Owner `b`'s pages are the same and still its own. */
  ghost predicate Keeps(x: Phys, x': Phys, b: nat)
    requires |x.role| == |x.mem|
  {
    && |x'.mem| == |x.mem| && |x'.role| == |x.role|
    && forall p :: 0 <= p < |x.mem| && Owns(b, x.role[p]) ==> x'.mem[p] == x.mem[p] && x'.role[p] == x.role[p]
  }

  lemma SlotFrame(x: Phys, x': Phys, roots: map<nat, nat>, p: Proc, o: nat)
    requires PhysOk(x, roots) && o in roots && roots[o] == p.pagetable && SlotOk(x, p, o) && Keeps(x, x', o)
    ensures SlotOk(x', p, o)
    ensures SpaceOf(x'.mem, p.pagetable) == SpaceOf(x.mem, p.pagetable)
    ensures FrameAt(x'.mem, p.trapframe) == FrameAt(x.mem, p.trapframe)
  {
    TableFrame(x.mem, x.role, x'.mem, x'.role, o, p.pagetable);
    SpaceFrame(x, x'.mem, roots, o);
    hide TableOk, FreeOk, SpaceOf, Leaf;
  }

  lemma GrowsKeeps(x: Phys, x': Phys, o: nat, b: nat)
    requires ShapeOk(x) && Grows(x, x', o) && b != o
    ensures Keeps(x, x', b)
  {
  }

  lemma LiveRoot(s: State, o: nat)
    requires o < 8
    ensures Live(s.procs, o) <==> o in Roots(s.procs, s.kroot)
    ensures Live(s.procs, o) ==> Roots(s.procs, s.kroot)[o] == s.procs[o].pagetable
    ensures KERNEL_TABLE in Roots(s.procs, s.kroot) && Roots(s.procs, s.kroot)[KERNEL_TABLE] == s.kroot
  {
  }

  /** A slot whose record and pages are the same looks the same. */
  lemma SlotSame(s: State, s': State, o: nat)
    requires Core(s) && o < 8 && Live(s.procs, o) && s'.procs[o] == s.procs[o] && Keeps(s.x, s'.x, o)
    requires s'.cur == s.cur && (o != s.cur || (s.mode == InKernel && s'.mode == InKernel))
    ensures SlotOk(s'.x, s'.procs[o], o) && AbsSlot(s', o) == AbsSlot(s, o)
  {
    hide SpaceOf, FreeOk, TableOk, Leaf, IdentityOk;
    LiveRoot(s, o);
    SlotFrame(View(s), s'.x, Roots(s.procs, s.kroot), s.procs[o], o);
  }

  ghost predicate KeepsOthers(x: Phys, x': Phys, o: nat)
    requires |x.role| == |x.mem|
  {
    forall b :: 0 <= b < 8 && b != o ==> Keeps(x, x', b)
  }

  /** Work for the running process that touches only its own slot: the other slots, and how they look, stay. */
  lemma OwnStep(s: State, t: State)
    requires (KernelInv(s) || UserInv(s)) && |s.x.role| == |s.x.mem| && s.cur < 8 && KeepsOthers(s.x, t.x, s.cur)
    requires t.cur == s.cur && t.next == s.next && t.mode == s.mode && t.io == s.io
    requires t.procs == s.procs[s.cur := t.procs[s.cur]] && Live(t.procs, s.cur)
    requires SlotOk(t.x, t.procs[s.cur], s.cur)
    ensures SlotsOk(t.x, t.procs) && Resumable(t)
    ensures Abs(t) == AState(Abs(s).procs[s.cur := Some(AbsProc(t, s.cur))], Abs(s).heap[s.cur := t.procs[s.cur].heap],
                             s.cur, s.next, s.mode, s.io)
  {
    hide SlotOk, Keeps, AbsProc, PhysOk, HeapOk;
    var a := AState(Abs(s).procs[s.cur := Some(AbsProc(t, s.cur))], Abs(s).heap[s.cur := t.procs[s.cur].heap],
                    s.cur, s.next, s.mode, s.io);
    forall b | 0 <= b < 8
      ensures Live(t.procs, b) ==> SlotOk(t.x, t.procs[b], b)
      ensures AbsSlot(t, b) == a.procs[b]
    {
      if b != s.cur && Live(s.procs, b) { SlotSame(s, t, b); }
    }
    AbsIs(t, a);
  }

  lemma {:induction false} HeapSumSame(procs: ProcTable, procs': ProcTable, i: nat)
    requires forall o :: i <= o < 8 ==> procs'[o].heap == procs[o].heap
    ensures HeapSum(procs', i) == HeapSum(procs, i)
    decreases 8 - i
  {
    if i < 8 { HeapSumSame(procs, procs', i + 1); }
  }

  lemma {:induction false} HeapSumUpdate(procs: ProcTable, o: nat, p: Proc, i: nat)
    requires o < 8
    ensures HeapSum(procs[o := p], i) == HeapSum(procs, i) + if i <= o then HeapPages(p) - HeapPages(procs[o]) else 0
    decreases 8 - i
  {
    if i < 8 { HeapSumUpdate(procs, o, p, i + 1); }
  }

  lemma {:induction false} HeapSumBound(procs: ProcTable, o: nat, i: nat)
    requires i <= o < 8
    ensures HeapPages(procs[o]) <= HeapSum(procs, i)
    decreases 8 - i
  {
    if i < o { HeapSumBound(procs, o, i + 1); }
  }

  // ---- counting pages ----

  lemma {:induction false} RangeCard(lo: nat, hi: nat, s: set<nat>)
    requires forall p :: p in s ==> lo <= p < hi
    ensures |s| <= if lo <= hi then hi - lo else 0
    decreases hi - lo
  {
    if lo < hi {
      RangeCard(lo + 1, hi, s - {lo});
      if lo in s { assert s == (s - {lo}) + {lo}; } else { assert s - {lo} == s; }
    } else {
      assert s == {};
    }
  }

  lemma {:induction false} ListCard(free: seq<nat>, n: nat)
    requires n <= |free| && forall k, l :: 0 <= k < l < |free| ==> Apart(free, k, l)
    ensures |set k | 0 <= k < n :: free[k]| == n
  {
    if n > 0 {
      ListCard(free, n - 1);
      var a, b := set k | 0 <= k < n - 1 :: free[k], set k | 0 <= k < n :: free[k];
      assert b == a + {free[n - 1]};
      forall k | 0 <= k < n - 1 ensures free[k] != free[n - 1] { assert Apart(free, k, n - 1); }
    }
  }

  /** Heap pages and free pages are different pages of free RAM: their numbers never add up to more. */
  lemma HeapBound(x: Phys, ramBegin: nat, procs: ProcTable, burned: set<nat>)
    requires HeapOk(x, ramBegin, procs, burned) && FreeOk(x)
    ensures HeapSum(procs, 0) + |x.free| <= |x.mem| - ramBegin
  {
    hide HeapSum;
    var f := set k | 0 <= k < |x.free| :: x.free[k];
    ListCard(x.free, |x.free|);
    forall p | p in f ensures ramBegin <= p < |x.mem| && x.role[p] == Free {
      var k :| 0 <= k < |x.free| && x.free[k] == p;
      assert LinkedAt(x, k);
    }
    forall p | p in burned ensures ramBegin <= p < |x.mem| && x.role[p] != Free { assert Burned(x, p); }
    assert burned !! f && |burned + f| == |burned| + |f|;
    RangeCard(ramBegin, |x.mem|, burned + f);
  }
}
