/**
 The operating system as its processes see it: every process has registers, a
 program counter and an address space of its own. There are no page tables, no
 trap frames and no shared register file here.
 */
module AbstractOs {
  import opened Sv32
  import opened Bytes
  import opened Pages
  import opened Spaces
  import opened Images
  import opened Arguments
  import opened Processes
  import opened Machine
  import opened Devices
  import OpenFiles

  datatype AProc = AProc(regs: Regs, pc: Word, space: Space)

  type ATable = t: seq<Option<AProc>> | |t| == 8 witness seq(8, _ => None)
  type AHeap = t: seq<Word> | |t| == 8 witness seq(8, _ => 0)

  /** `heap` is the next page sbrk gives out; it belongs to the slot and survives its process. */
  datatype AState = AState(procs: ATable, heap: AHeap, cur: nat, next: nat, mode: Mode, io: Io) {
    predicate Runs() { cur < 8 && procs[cur].Some? }
    function Cur(): AProc
      requires Runs()
    {
      procs[cur].value
    }
    function With(p: AProc): AState
      requires cur < 8
    {
      AState(procs[cur := Some(p)], heap, cur, next, mode, io)
    }
    function In(m: Mode): AState { AState(procs, heap, cur, next, m, io) }
    function WithIo(d: Io): AState { AState(procs, heap, cur, next, mode, d) }
  }

  function AFirstFree(procs: ATable, i: nat): (c: nat)
    ensures c <= 8 && (c < 8 ==> procs[c] == None)
    ensures forall k :: i <= k < c ==> procs[k] != None
    decreases 8 - i
  {
    if i >= 8 then 8 else if procs[i] == None then i else AFirstFree(procs, i + 1)
  }

  function Returned(p: AProc, w: Word): AProc { AProc(p.regs[A0 := w], p.pc, p.space) }

  /** The child is the parent, but for a0. */
  function AFork(a: AState): Option<AState>
    requires a.Runs()
  {
    var c := AFirstFree(a.procs, 0);
    if c >= 8 then None
    else
      var b := a.With(Returned(a.Cur(), c + 1));
      Some(AState(b.procs[c := Some(Returned(a.Cur(), 0))], b.heap, b.cur, b.next, b.mode, b.io))
  }

  /** A new program: zeroed registers but for sp, a0 and a1, the image, and a stack page that holds the arguments. */
  function FreshProc(file: seq<Byte>, args: seq<seq<Byte>>): AProc
    requires PushArguments(Zero(), args).Go?
  {
    var (f, at) := PushArguments(Zero(), args).value;
    var sp := STACK_TOP - (4096 - at);
    AProc(seq<Word>(31, _ => 0)[SP := sp][A0 := |args|][A1 := sp], EntryPoint(file),
          (ImageSpace(map[], file, 0) - {TRAPFRAME_PAGE})[STACK_PAGE := Page(RWXU, f)])
  }

  function AExec(a: AState, file: seq<Byte>, args: seq<seq<Byte>>): Option<AState>
    requires a.Runs()
  {
    if !PushArguments(Zero(), args).Go? then None
    else
      var b := a.With(FreshProc(file, args));
      Some(AState(b.procs, b.heap[b.cur := (b.heap[b.cur] + 4096 * ImagePages(file, 0)) % 0x1_0000_0000], b.cur, b.next, b.mode, b.io))
  }

  function AExit(a: AState): AState
    requires a.cur < 8
  {
    AState(a.procs[a.cur := None], a.heap, a.cur, a.next, InScheduler, a.io)
  }

  function AKillFrom(procs: ATable, pid: Word, i: nat): ATable
    decreases 8 - i
  {
    if i >= 8 then procs
    else if procs[i].Some? && i + 1 == pid then AKillFrom(procs[i := None], pid, i + 1)
    else AKillFrom(procs, pid, i + 1)
  }

  /** A zeroed page at the slot's heap break, which moves up by a page. */
  function AGrow(a: AState): AState
    requires a.Runs()
  {
    var p, h: Word := a.Cur(), a.heap[a.cur];
    var b := a.With(AProc(p.regs, p.pc, p.space[h / 4096 := Page(RWU, Zero())]));
    AState(b.procs, b.heap[b.cur := (h + 4096) % 0x1_0000_0000], b.cur, b.next, b.mode, b.io)
  }

  /** sbrk returns the address of the new page. */
  function ASbrk(a: AState): AState
    requires a.Runs()
  {
    var b := AGrow(a);
    b.With(Returned(b.Cur(), a.heap[a.cur]))
  }

  function AStore(sp: Space, va: Word, b: Byte): Option<Space> {
    if va / 4096 in sp && Writable(sp[va / 4096].flags) then
      Some(sp[va / 4096 := Page(sp[va / 4096].flags, SetByte(sp[va / 4096].frame, va % 4096, b))])
    else None
  }

  function AStoreBytes(sp: Space, va: Word, bs: seq<Byte>): Option<Space>
    decreases |bs|
  {
    if bs == [] then Some(sp)
    else
      match AStore(sp, va, bs[0])
      case None => None
      case Some(t) => AStoreBytes(t, (va + 1) % 0x1_0000_0000, bs[1..])
  }

  /** The process gets `data` in its buffer, and their number in a0. */
  function ADeliver(a: AState, data: seq<Byte>): Option<AState>
    requires a.Runs()
  {
    var p := a.Cur();
    match AStoreBytes(p.space, p.regs[A1], data)
    case None => None
    case Some(sp) =>
      if |data| >= 0x1_0000_0000 then None else Some(a.With(AProc(p.regs[A0 := |data|], p.pc, sp)).In(InUser))
  }

  function ARead(a: AState): Option<AState>
    requires a.Runs()
  {
    match ReadFd(a.io, a.cur, a.Cur().regs[A0], a.Cur().regs[A2])
    case Go((io, data)) => ADeliver(a.WithIo(io), data)
    case _ => None
  }

  function AOpen(a: AState, path: seq<Byte>): AState
    requires a.Runs()
  {
    var (io, w) := OpenPath(a.io, a.cur, path);
    a.WithIo(io).With(Returned(a.Cur(), w)).In(InUser)
  }

  function AClose(a: AState): Option<AState>
    requires a.Runs()
  {
    match CloseFd(a.io, a.cur, a.Cur().regs[A0])
    case Go((io, w)) => Some(a.WithIo(io).With(Returned(a.Cur(), w)).In(InUser))
    case _ => None
  }

  function AExecPath(a: AState, env: Env): Option<AState>
    requires a.Runs()
  {
    match Found(a.io, env.path)
    case None => Some(a.In(InUser))
    case Some(file) => (match AExec(a, file, env.args) case None => None case Some(b) => Some(b.In(InUser)))
  }

  /** A call that returns to the process has it run on. */
  function ASyscall(a: AState, env: Env): Option<AState>
    requires a.Runs()
  {
    var p := a.Cur();
    match p.regs[A7]
    case 1 => (match AFork(a) case None => None case Some(b) => Some(b.In(InUser)))
    case 2 => Some(AExit(a))
    case 5 => ARead(a)
    case 6 =>
      if p.regs[A0] == a.cur + 1 then Some(AExit(a))
      else
        var k := AState(AKillFrom(a.procs, p.regs[A0], 0), a.heap, a.cur, a.next, InUser, a.io);
        Some(k.With(Returned(p, 0xFFFF_FFFF)))
    case 7 => AExecPath(a, env)
    case 11 => Some(a.With(Returned(p, a.cur + 1)).In(InUser))
    case 12 => Some(ASbrk(a).In(InUser))
    case 13 => Some(a.With(Returned(p, 0)).In(InScheduler))
    case 15 => Some(AOpen(a, env.path))
    case 16 => Some(a.In(InUser))
    case 21 => AClose(a)
    case _ => None
  }

  function AScan(procs: ATable, i: nat, n: nat): Option<nat>
    requires i < 8
    decreases n
  {
    if n == 0 then None
    else if procs[i].Some? then Some(i)
    else AScan(procs, (i + 1) % 8, n - 1)
  }

  /** One step of the abstract system; None when the process does something fatal or a resource runs out. */
  function AStep(a: AState, e: Event): Option<AState>
    requires a.mode == InUser ==> a.Runs()
  {
    match a.mode
    case InKernel => Some(a)
    case InScheduler =>
      if !e.Dispatch? then Some(a)
      else
        (match AScan(a.procs, a.next % 8, 8)
         case None => Some(a)
         case Some(o) => Some(AState(a.procs, a.heap, o, o + 1, InUser, a.io)))
    case InUser =>
      var p := a.Cur();
      match e
      case Compute(r, pc) => Some(a.With(AProc(r, pc, p.space)))
      case Load(va, rd) =>
        if va / 4096 in p.space && Readable(p.space[va / 4096].flags) then
          Some(a.With(AProc(p.regs[rd := ByteOf(p.space[va / 4096].frame, va % 4096)], p.pc, p.space)))
        else None
      case Store(va, b) =>
        (match AStore(p.space, va, b)
         case None => None
         case Some(sp) => Some(a.With(AProc(p.regs, p.pc, sp))))
      case Ecall(env) => ASyscall(a.With(AProc(p.regs, (p.pc + 4) % 0x1_0000_0000, p.space)), env)
      case UartInterrupt(keys) => Some(a.WithIo(Typed(a.io, keys)))
      case Dispatch => Some(a)
  }

  // ---- which system calls the refinement speaks about ----

  /** The byte user mode finds at an address. */
  function Peek(sp: Space, va: int): Option<Byte> {
    if 0 <= va < 0x1_0000_0000 && va / 4096 in sp then Some(ByteOf(sp[va / 4096].frame, va % 4096)) else None
  }

  /** The NUL-terminated string `str` starts at `va`. */
  ghost predicate StringAt(sp: Space, va: int, str: seq<Byte>) {
    && (forall k :: 0 <= k < |str| ==> Peek(sp, va + k) == Some(str[k]))
    && Peek(sp, va + |str|) == Some(0)
  }

  /** `n` bytes from `va` on can be read. */
  ghost predicate Buffer(sp: Space, va: Word, n: Word) {
    forall at :: va <= at < va + n ==> Peek(sp, at).Some?
  }

  ghost predicate PointerAt(sp: Space, va: int, w: Word) {
    && Peek(sp, va) == Some(Digit(w, 0)) && Peek(sp, va + 1) == Some(Digit(w, 1))
    && Peek(sp, va + 2) == Some(Digit(w, 2)) && Peek(sp, va + 3) == Some(Digit(w, 3))
  }

  /** At `at` there is a pointer to the C string `str`. */
  ghost predicate ArgAt(sp: Space, at: int, str: seq<Byte>) {
    && 0 !in str
    && exists w: Word :: w != 0 && PointerAt(sp, at, w) && StringAt(sp, w, str)
  }

  /** `argv` is a NULL-terminated vector of pointers to the strings `args`, or NULL when there are none. */
  ghost predicate IsArgv(sp: Space, argv: Word, args: seq<seq<Byte>>) {
    if argv == 0 then args == []
    else
      && (forall k :: 0 <= k < |args| ==> ArgAt(sp, argv + 4 * k, args[k]))
      && PointerAt(sp, argv + 4 * |args|, 0)
  }

  /** The descriptor of a read or a close is one the file calls can handle. Nothing in the kernel checks that. */
  predicate FdOk(io: Io, o: nat, p: AProc)
    requires o < 8
  {
    && (p.regs[A7] == 5 ==> CanRead(io, o, p.regs[A0]))
    && (p.regs[A7] == 21 ==> p.regs[A0] < OpenFiles.MAX_OPEN)
  }

  /** What a call leads the kernel to in user memory is there: the buffer it reads into is in the caller's writable pages,
      what it writes and the strings it passes are in its pages, and an executable it names stays in user space and has
      room for the arguments. */
  ghost predicate MemoryOk(io: Io, o: nat, p: AProc, env: Env)
    requires o < 8
  {
    && (p.regs[A7] == 5 ==>
        match ReadFd(io, o, p.regs[A0], p.regs[A2])
        case Go((_, data)) => AStoreBytes(p.space, p.regs[A1], data).Some?
        case _ => true)
    && (p.regs[A7] == 16 && p.regs[A0] == 1 ==> Buffer(p.space, p.regs[A1], p.regs[A2]))
    && (p.regs[A7] == 15 ==> 0 !in env.path && StringAt(p.space, p.regs[A0], env.path))
    && (p.regs[A7] == 7 ==>
        && 0 !in env.path && StringAt(p.space, p.regs[A0], env.path) && IsArgv(p.space, p.regs[A1], env.args)
        && (Found(io, env.path).Some? ==> ImageOk(Found(io, env.path).value) && PushArguments(Zero(), env.args).Go?))
  }

  /** The system calls of a program that keeps to these rules. */
  ghost predicate CallOk(io: Io, o: nat, p: AProc, env: Env)
    requires o < 8
  {
    FdOk(io, o, p) && MemoryOk(io, o, p, env)
  }

  ghost predicate EventOk(a: AState, e: Event) {
    a.mode == InUser && a.Runs() && e.Ecall? ==> CallOk(a.io, a.cur, a.Cur(), e.env)
  }
}
