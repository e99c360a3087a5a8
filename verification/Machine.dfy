/**
 The kernel as a transition system: user instructions through the MMU, trap
 entry and exit, system-call dispatch and the scheduler.
 */
module Machine {
  import opened Sv32
  import opened Bytes
  import opened Pages
  import opened Processes
  import opened Devices

  const A2: nat := 11

  /** The C strings a system call finds in user memory: the path of an open or an exec, and argv. */
  datatype Env = Env(path: seq<Byte>, args: seq<seq<Byte>>)

  /** The number of a register that can be loaded into. */
  type Reg = k: nat | k < 31

  datatype Event =
    | Compute(regs: Regs, pc: Word)
    | Load(va: Word, rd: Reg)
    | Store(va: Word, b: Byte)
    | Ecall(env: Env)
    | UartInterrupt(keys: seq<Byte>)
    | Dispatch

  // ---- memory accesses through satp ----

  /** The frame and flags behind an address, as the MMU finds them. */
  function Mmu(x: Phys, va: Word): Option<(nat, Word)> {
    match Walk(x.mem, x.satp, va / 0x40_0000, (va / 4096) % 1024)
    case None => None
    case Some(t) => if t.0 < |x.mem| then Some(t) else None
  }

  function StoreVia(x: Phys, va: Word, b: Byte, user: bool): Outcome<Phys> {
    match Mmu(x, va)
    case None => Halt
    case Some((p, flags)) =>
      if p >= |x.mem| || !Writable(flags) || (user && !UserMode(flags)) then Halt
      else Go(Phys(x.mem[p := SetByte(x.mem[p], va % 4096, b)], x.free, x.role, x.satp))
  }

  /** A copy to user memory by the kernel, which may access user pages. */
  function StoreBytes(x: Phys, va: Word, bs: seq<Byte>): Outcome<Phys>
    decreases |bs|
  {
    if bs == [] then Go(x)
    else
      var y :- StoreVia(x, va, bs[0], false);
      StoreBytes(y, (va + 1) % 0x1_0000_0000, bs[1..])
  }

  // ---- traps ----

  /** uservec and the start of ktrap_from_user_handler: the registers go to the page mapped at
      VA_TRAPFRAME, and the kernel continues on the stack and in the handler found there. */
  function TrapEntry(s: State): Outcome<State> {
    if s.cur >= 8 then Fault
    else
      match Mmu(s.x, 0xFFFF_F000)
      case None => Fault
      case Some((p, flags)) =>
        if p >= |s.x.mem| || !Readable(flags) || !Writable(flags) then Fault
        else
          var f := WithRegs(s.x.mem[p], s.regs);
          if f[TF_SP] != s.procs[s.cur].kstack || f[TF_HANDLER] != USER_TRAP then Fault
          else
            var y :- Poke(Phys(s.x.mem[p := f], s.x.free, s.x.role, s.x.satp), s.procs[s.cur].trapframe, TF_EPC, s.pc);
            Go(s.WithPhys(y).WithMode(InKernel))
  }

  /** ktrap_to_user and enter_user_process. */
  function EnterUser(s: State): Outcome<State> {
    if s.cur >= 8 then Fault
    else
      var p := s.procs[s.cur];
      var x1 :- Poke(s.x, p.trapframe, TF_SP, p.kstack);
      var x2 :- Poke(x1, p.trapframe, TF_HANDLER, USER_TRAP);
      if p.trapframe >= |x2.mem| then Fault
      else
        var x3 := Phys(x2.mem, x2.free, x2.role, p.pagetable);
        match Mmu(x3, 0xFFFF_F000)
        case None => Fault
        case Some((f, flags)) =>
          if f >= |x3.mem| || !Readable(flags) then Fault
          else Go(State(x3, s.ramBegin, s.kroot, s.procs, s.cur, s.next, InUser,
                        FrameRegs(x3.mem[f]), x3.mem[p.trapframe][TF_EPC], s.burned, s.io))
  }

  /** A word of the running process's trap frame, read and written by the kernel. */
  function TfWord(s: State, k: nat): Word
    requires k < 1024
  {
    if s.cur < 8 && s.procs[s.cur].trapframe < |s.x.mem| then s.x.mem[s.procs[s.cur].trapframe][k] else 0
  }

  function SetTf(s: State, k: nat, w: Word): Outcome<State>
    requires k < 1024
  {
    if s.cur >= 8 then Fault
    else
      var y :- Poke(s.x, s.procs[s.cur].trapframe, k, w);
      Go(s.WithPhys(y))
  }

  // ---- system calls ----

  function Kill(s: State, pid: Word): Outcome<State> {
    if s.cur >= 8 then Fault
    else if s.procs[s.cur].pid == pid then Exit(s)
    else
      var t :- KillFrom(s, pid, 0);
      var u :- SetTf(t, TF_REGS + A0, 0xFFFF_FFFF);
      EnterUser(u)
  }

  function Sbrk(s: State): Outcome<State> {
    if s.cur >= 8 then Fault
    else
      var t :- AddPage(s);
      var u :- SetTf(t, TF_REGS + A0, s.procs[s.cur].heap);
      EnterUser(u)
  }

  function Sleep(s: State): Outcome<State> {
    if s.cur >= 8 then Fault
    else Go(s.WithProc(s.cur, s.procs[s.cur].(resume := AfterSleep, sp := Below(s.procs[s.cur].kstack, SLEEP_DEPTH))).WithMode(InScheduler))
  }

  /** A read that got `data`: the bytes go to the caller's buffer, their number to a0. */
  function Deliver(s: State, data: seq<Byte>): Outcome<State> {
    var y :- StoreBytes(s.x, TfWord(s, TF_REGS + A1), data);
    if |data| >= 0x1_0000_0000 then Fault
    else
      var u :- SetTf(s.WithPhys(y), TF_REGS + A0, |data|);
      EnterUser(u)
  }

  function ReturnWord(s: State, w: Word): Outcome<State> {
    var u :- SetTf(s, TF_REGS + A0, w);
    EnterUser(u)
  }

  function Read(s: State): Outcome<State> {
    if s.cur >= 8 then Fault
    else
      var (io, data) :- ReadFd(s.io, s.cur, TfWord(s, TF_REGS + A0), TfWord(s, TF_REGS + A2));
      Deliver(s.WithIo(io), data)
  }

  function Open(s: State, path: seq<Byte>): Outcome<State> {
    if s.cur >= 8 then Fault
    else
      var (io, w) := OpenPath(s.io, s.cur, path);
      ReturnWord(s.WithIo(io), w)
  }

  function Close(s: State): Outcome<State> {
    if s.cur >= 8 then Fault
    else
      var (io, w) :- CloseFd(s.io, s.cur, TfWord(s, TF_REGS + A0));
      ReturnWord(s.WithIo(io), w)
  }

  /** exec of a path that leads to no file changes nothing, not even a0. */
  function ExecPath(s: State, env: Env): Outcome<State> {
    match Found(s.io, env.path)
    case None => EnterUser(s)
    case Some(file) => (var t :- Exec(s, file, env.args); EnterUser(t))
  }

  function Syscall(s: State, env: Env): Outcome<State> {
    if s.cur >= 8 then Fault
    else
      match TfWord(s, TF_REGS + A7)
      case 1 => (var t :- Fork(s); EnterUser(t))
      case 2 => Exit(s)
      case 5 => Read(s)
      case 6 => Kill(s, TfWord(s, TF_REGS + A0))
      case 7 => ExecPath(s, env)
      case 11 => ReturnWord(s, s.procs[s.cur].pid)
      case 12 => Sbrk(s)
      case 13 => Sleep(s)
      case 15 => Open(s, env.path)
      case 16 => EnterUser(s)
      case 21 => Close(s)
      case _ => Halt
  }

  function Trap(s: State, env: Env): Outcome<State> {
    var t :- TrapEntry(s);
    var u :- SetTf(t, TF_EPC, (s.pc + 4) % 0x1_0000_0000);
    Syscall(u, env)
  }

  // ---- the scheduler ----

  predicate CanRun(procs: ProcTable, o: nat) { o < 8 && procs[o].state == Runnable }

  /** The next runnable slot of the cyclic scan that goes on at `i`, at most `n` slots further. */
  function Scan(procs: ProcTable, i: nat, n: nat): Option<nat>
    requires i < 8
    decreases n
  {
    if n == 0 then None
    else if CanRun(procs, i) then Some(i)
    else Scan(procs, (i + 1) % 8, n - 1)
  }

  function DispatchNext(s: State): Outcome<State> {
    match Scan(s.procs, s.next % 8, 8)
    case None => Go(s)
    case Some(o) =>
      var t := State(s.x, s.ramBegin, s.kroot, s.procs, o, o + 1, InKernel, s.regs, s.pc, s.burned, s.io);
      if o >= 8 then Fault
      else
        match s.procs[o].resume
        case ToUser => if s.procs[o].sp != s.procs[o].kstack then Fault else EnterUser(t)
        case AfterSleep => if s.procs[o].sp != Below(s.procs[o].kstack, SLEEP_DEPTH) then Fault else ReturnWord(t, 0)
        case AfterFree => Fault
        case Nowhere => Fault
  }

  /** One step. An event that does not fit the mode does nothing. */
  function Next(s: State, e: Event): Outcome<State> {
    match s.mode
    case InScheduler => if e.Dispatch? then DispatchNext(s) else Go(s)
    case InKernel => Go(s)
    case InUser =>
      match e
      case Compute(r, pc) => Go(State(s.x, s.ramBegin, s.kroot, s.procs, s.cur, s.next, s.mode, r, pc, s.burned, s.io))
      case Load(va, rd) =>
        (match Mmu(s.x, va)
         case None => Halt
         case Some((p, flags)) =>
           if p >= |s.x.mem| || !Readable(flags) || !UserMode(flags) then Halt
           else Go(State(s.x, s.ramBegin, s.kroot, s.procs, s.cur, s.next, s.mode,
                         s.regs[rd := ByteOf(s.x.mem[p], va % 4096)], s.pc, s.burned, s.io)))
      case Store(va, b) => (var y :- StoreVia(s.x, va, b, true); Go(s.WithPhys(y)))
      case Ecall(env) => Trap(s, env)
      case UartInterrupt(keys) => (var t :- TrapEntry(s); EnterUser(t.WithIo(Typed(t.io, keys))))
      case Dispatch => Go(s)
  }
}
