/**
 Process control blocks and the operations of kproc.c as functions on the
 machine state: creation, fork, exec, exit, kill, sbrk, yield and dispatch.
 */
module Processes {
  import opened Sv32
  import opened Bytes
  import opened Pages
  import opened PageTables
  import opened TableCopy
  import opened Images
  import opened Arguments
  import opened Devices

  const NUM_PROCESSES: nat := 8
  /** The owner of the kernel's own page table. */
  const KERNEL_TABLE: nat := 8
  const STACK_TOP: Word := 0xFFFF_F000
  /** Address of the handler that uservec jumps to; any fixed word will do. */
  const USER_TRAP: Word := 0x8000_0000

  // Word indices of the trap frame.
  const TF_SP: nat := 1
  const TF_HANDLER: nat := 2
  const TF_EPC: nat := 3
  const TF_REGS: nat := 5
  // Register x(k+1) is number k.
  const SP: nat := 1
  const A0: nat := 9
  const A1: nat := 10
  const A7: nat := 16

  type Regs = r: seq<Word> | |r| == 31 witness seq(31, _ => 0)

  datatype ProcState = Unused | Runnable

  /** Where the saved context of a process returns to: nowhere yet, ktrap_to_user, behind the yield
      of sleep, or behind the yield of kproc_free, where the kernel panics. */
  datatype Resume = Nowhere | ToUser | AfterSleep | AfterFree

  /** `resume` and `sp` are ra and sp of the saved context. */
  datatype Proc = Proc(
    pid: Word, state: ProcState, resume: Resume, sp: Word,
    trapframe: nat, pagetable: nat, userStack: nat, heap: Word, kstack: Word)

  /** How far below the top of its kernel stack a process yields in sleep and in exit; any fixed numbers will do. */
  const SLEEP_DEPTH: Word := 112
  const FREE_DEPTH: Word := 96

  function Below(top: Word, n: Word): Word { (top as int - n + 0x1_0000_0000) % 0x1_0000_0000 }

  type ProcTable = t: seq<Proc> | |t| == 8 witness seq(8, _ => Proc(0, Unused, Nowhere, 0, 0, 0, 0, 0, 0))

  datatype Mode = InUser | InKernel | InScheduler

  /** The machine: memory with its allocator, the process table, the running process, the scheduler's loop
      index, and the registers. `burned` collects the frames that image pages and sbrk pages were given. */
  datatype State = State(
    x: Phys, ramBegin: nat, kroot: nat,
    procs: ProcTable, cur: nat, next: nat, mode: Mode, regs: Regs, pc: Word,
    burned: set<nat>, io: Io)
  {
    function WithPhys(y: Phys): State {
      State(y, ramBegin, kroot, procs, cur, next, mode, regs, pc, burned, io)
    }
    function WithMode(m: Mode): State {
      State(x, ramBegin, kroot, procs, cur, next, m, regs, pc, burned, io)
    }
    function WithIo(d: Io): State {
      State(x, ramBegin, kroot, procs, cur, next, mode, regs, pc, burned, d)
    }
    function WithProc(o: nat, p: Proc): State
      requires o < 8
    {
      State(x, ramBegin, kroot, procs[o := p], cur, next, mode, regs, pc, burned, io)
    }
  }

  // ---- trap frames ----

  function FrameRegs(f: Frame): Regs { f[5..36] }

  function WithRegs(f: Frame, r: Regs): Frame { f[..5] + r + f[36..] }

  /** One word of a page stored in place. */
  function Poke(x: Phys, p: nat, k: nat, w: Word): Outcome<Phys>
    requires k < 1024
  {
    if p >= |x.mem| then Fault else Go(Put(x, p, k, w))
  }

  // ---- building an address space ----

  /** Maps the physical pages from `k` on at their own addresses. */
  function MapKernel(x: Phys, o: nat, root: nat, k: nat): Outcome<Phys>
    decreases |x.mem| - k
  {
    if k >= |x.mem| then Go(x)
    else if k / 1024 >= 1024 then Fault
    else
      var y :- MapPage(x, o, root, k / 1024, k % 1024, k, RWX);
      if |y.mem| != |x.mem| then Fault else MapKernel(y, o, root, k + 1)
  }

  datatype Image = Image(x: Phys, root: nat, trapframe: nat, stack: nat, pages: set<nat>)

  /** The part of process creation that kproc_create and kproc_exec share. */
  function BuildImage(x: Phys, o: nat, kstack: Word, file: seq<Byte>): Outcome<Image> {
    var (x1, root) :- Alloc(x, Root(o));
    var (x2, tf) :- Alloc(x1, TrapFrame(o));
    var x3 :- Poke(x2, tf, TF_SP, kstack);
    var x4 :- Poke(x3, tf, TF_HANDLER, USER_TRAP);
    var x5 :- MapKernel(x4, o, root, 0);
    var x6 :- Poke(x5, tf, TF_EPC, EntryPoint(file));
    var (x7, pages) :- LoadSegments(x6, o, root, file, 0);
    var x8 :- MapPage(x7, o, root, 1023, 1023, tf, RW);
    var (x9, stack) :- Alloc(x8, User(o, 1023, 1022));
    var x10 :- Poke(x9, tf, TF_REGS + SP, STACK_TOP);
    var x11 :- MapPage(x10, o, root, 1023, 1022, stack, RWXU);
    Go(Image(x11, root, tf, stack, pages))
  }

  // ---- process table ----

  /** The first free slot from `i` on, or 8. */
  function FirstUnused(procs: ProcTable, i: nat): (c: nat)
    ensures c <= 8 && (c < 8 ==> procs[c].state == Unused)
    ensures forall k :: i <= k < c ==> procs[k].state != Unused
    decreases 8 - i
  {
    if i >= 8 then 8 else if procs[i].state == Unused then i else FirstUnused(procs, i + 1)
  }

  function Create(s: State, file: seq<Byte>): Outcome<State> {
    var c := FirstUnused(s.procs, 0);
    if c >= 8 then Halt
    else
      var p := s.procs[c];
      var im :- BuildImage(s.x, c, p.kstack, file);
      Go(s.WithPhys(im.x).WithProc(c, Proc(c + 1, Runnable, ToUser, p.kstack, im.trapframe, im.root, im.stack, p.heap, p.kstack)))
  }

  /** A copy of the table at `src`, with a trap frame of its own behind VA_TRAPFRAME. */
  function CopySpace(x: Phys, c: nat, src: nat): Outcome<(Phys, nat, nat)> {
    var (x1, root) :- CopyTable(x, c, src);
    var (x2, tf) :- Alloc(x1, TrapFrame(c));
    var x3 :- MapPage(x2, c, root, 1023, 1023, tf, RW);
    Go((x3, root, tf))
  }

  /** The child's trap frame starts as a copy of the parent's; both learn the outcome of the call in a0. */
  function CopyFrame(x: Phys, tf: nat, parentTf: nat, kstack: Word, pid: Word): Outcome<Phys> {
    if parentTf >= |x.mem| || tf >= |x.mem| then Fault
    else
      var x4 := Phys(x.mem[tf := x.mem[parentTf]], x.free, x.role, x.satp);
      var x5 :- Poke(x4, tf, TF_SP, kstack);
      var x6 :- Poke(x5, tf, TF_HANDLER, USER_TRAP);
      var x7 :- Poke(x6, parentTf, TF_REGS + A0, pid);
      Poke(x7, tf, TF_REGS + A0, 0)
  }

  function Fork(s: State): Outcome<State> {
    var c := FirstUnused(s.procs, 0);
    if c >= 8 then Halt
    else if s.cur >= 8 then Fault
    else
      var p, parent := s.procs[c], s.procs[s.cur];
      var (x3, root, tf) :- CopySpace(s.x, c, parent.pagetable);
      var x8 :- CopyFrame(x3, tf, parent.trapframe, p.kstack, c + 1);
      var stack := GetPage(x3.mem, root, 1023, 1022);
      if stack == None then Fault
      else Go(s.WithPhys(x8).WithProc(c, Proc(c + 1, Runnable, ToUser, p.kstack, tf, root, stack.value, p.heap, p.kstack)))
  }

  /** Every page of owner `o` that is still recorded under it has no owner any more. */
  function Disown(x: Phys, o: nat): Phys {
    Phys(x.mem, x.free, seq<Role>(|x.role|, p requires 0 <= p < |x.role| => if Owns(o, x.role[p]) then Leaked else x.role[p]), x.satp)
  }

  /** argv onto the stack page, and sp, a0 and a1 into the trap frame. */
  function PassArguments(x: Phys, tf: nat, stack: nat, args: seq<seq<Byte>>): Outcome<Phys> {
    if stack >= |x.mem| then Fault
    else
      var (f, at) :- PushArguments(x.mem[stack], args);
      var sp := STACK_TOP - (4096 - at);
      var x1 :- Poke(Phys(x.mem[stack := f], x.free, x.role, x.satp), tf, TF_REGS + SP, sp);
      var x2 :- Poke(x1, tf, TF_REGS + A0, |args|);
      Poke(x2, tf, TF_REGS + A1, sp)
  }

  /** The process record of a program that has just been loaded over `p`. */
  function Reloaded(p: Proc, im: Image, file: seq<Byte>): Proc {
    Proc(p.pid, Runnable, ToUser, p.kstack, im.trapframe, im.root, im.stack,
         (p.heap + 4096 * ImagePages(file, 0)) % 0x1_0000_0000, p.kstack)
  }

  /** exec: a new table, trap frame, image and stack for the running process; the old pages are dropped. */
  function Exec(s: State, file: seq<Byte>, args: seq<seq<Byte>>): Outcome<State> {
    if s.cur >= 8 then Fault
    else
      var p := s.procs[s.cur];
      var im :- BuildImage(Disown(s.x, s.cur), s.cur, p.kstack, file);
      var y :- PassArguments(im.x, im.trapframe, im.stack, args);
      var q := Reloaded(p, im, file);
      Go(State(y, s.ramBegin, s.kroot, s.procs[s.cur := q], s.cur, s.next, s.mode, s.regs, s.pc, s.burned + im.pages, s.io))
  }

  function ReleaseProc(x: Phys, p: Proc): Outcome<Phys> {
    var x1 :- Release(x, p.trapframe);
    var x2 :- Release(x1, p.pagetable);
    Release(x2, p.userStack)
  }

  /** kproc_free: the running process gives up its slot and yields for good. */
  function Exit(s: State): Outcome<State> {
    if s.cur >= 8 then Fault
    else
      var p := s.procs[s.cur];
      var x1 :- ReleaseProc(s.x, p);
      Go(s.WithPhys(Disown(x1, s.cur)).WithProc(s.cur, p.(state := Unused, resume := AfterFree, sp := Below(p.kstack, FREE_DEPTH))).WithMode(InScheduler))
  }

  function KillFrom(s: State, pid: Word, i: nat): Outcome<State>
    decreases 8 - i
  {
    if i >= 8 then Go(s)
    else if s.procs[i].state != Unused && s.procs[i].pid == pid then
      var x1 :- ReleaseProc(s.x, s.procs[i]);
      var t := s.WithPhys(Disown(x1, i)).WithProc(i, s.procs[i].(state := Unused));
      KillFrom(t, pid, i + 1)
    else KillFrom(s, pid, i + 1)
  }

  function AddPage(s: State): Outcome<State> {
    if s.cur >= 8 then Fault
    else
      var p := s.procs[s.cur];
      if p.heap >= 0x1_0000_0000 then Fault
      else
        var i, j := p.heap / 0x40_0000, (p.heap / 4096) % 1024;
        var (x1, page) :- Alloc(s.x, User(s.cur, i, j));
        var x2 :- MapPage(x1, s.cur, p.pagetable, i, j, page, RWU);
        Go(State(x2, s.ramBegin, s.kroot, s.procs[s.cur := p.(heap := (p.heap + 4096) % 0x1_0000_0000)],
                 s.cur, s.next, s.mode, s.regs, s.pc, s.burned + {page}, s.io))
  }
}
