/**
 Files and terminal in the running system: over every run they go through exactly
 the opens, reads, closes and key presses of its processes and interrupts, so all
 that is proved of those sequences holds of the system.
 */
module SystemFiles {
  import opened Sv32
  import opened Bytes
  import opened Pages
  import opened Spaces
  import opened Processes
  import opened Machine
  import opened Devices
  import opened AbstractOs
  import opened Refinement
  import opened Steps
  import opened Isolation
  import OpenFiles
  import Tty
  import Ustar

  // ---- the events of a run ----

  /** What a step does to files and descriptors. */
  function FileEvents(a: AState, e: Event): seq<OpenFiles.Event>
    requires Proper(a)
  {
    if a.mode != InUser || !e.Ecall? then []
    else
      var regs := a.Cur().regs;
      match regs[A7]
      case 5 => if regs[A0] == 0 then [] else [OpenFiles.ReadFile(a.cur, regs[A0], regs[A2])]
      case 15 => [OpenFiles.OpenFile(a.cur, e.env.path)]
      case 21 => [OpenFiles.CloseFile(a.cur, regs[A0])]
      case _ => []
  }

  function Presses(keys: seq<Byte>): seq<Tty.Event> { seq<Tty.Event>(|keys|, i requires 0 <= i < |keys| => Tty.Key(keys[i])) }

  /** What it does to the terminal. */
  function TtyEvents(a: AState, e: Event): seq<Tty.Event>
    requires Proper(a)
  {
    if a.mode != InUser then []
    else if e.UartInterrupt? then Presses(e.keys)
    else if e.Ecall? && a.Cur().regs[A7] == 5 && a.Cur().regs[A0] == 0 then [Tty.Ask(a.Cur().regs[A2])]
    else []
  }

  ghost function AllFileEvents(a: AState, es: seq<Event>): seq<OpenFiles.Event>
    decreases |es|
  {
    if es == [] || !Proper(a) || AStep(a, es[0]) == None then []
    else FileEvents(a, es[0]) + AllFileEvents(AStep(a, es[0]).value, es[1..])
  }

  ghost function AllTtyEvents(a: AState, es: seq<Event>): seq<Tty.Event>
    decreases |es|
  {
    if es == [] || !Proper(a) || AStep(a, es[0]) == None then []
    else TtyEvents(a, es[0]) + AllTtyEvents(AStep(a, es[0]).value, es[1..])
  }

  // ---- one step ----

  lemma OneEvent(s: OpenFiles.System, e: OpenFiles.Event)
    ensures OpenFiles.Run(s, [e]) == OpenFiles.Step(s, e)
  {
    hide OpenFiles.Step;
    assert [e][1..] == [];
    if OpenFiles.Step(s, e).Go? { assert OpenFiles.Run(OpenFiles.Step(s, e).value, []).Go?; }
  }

  lemma SyscallFollows(b: AState, env: Env)
    requires b.Runs() && ASyscall(b, env).Some?
    ensures var regs, c := b.Cur().regs, ASyscall(b, env).value;
      match regs[A7]
      case 5 =>
        if regs[A0] == 0 then c.io == Io(b.io.files, Tty.ReadStep(b.io.tty, regs[A2]))
        else
          && c.io.tty == b.io.tty
          && OpenFiles.Step(b.io.files, OpenFiles.ReadFile(b.cur, regs[A0], regs[A2])) == Go(c.io.files)
      case 15 => c.io.tty == b.io.tty &&
        OpenFiles.Step(b.io.files, OpenFiles.OpenFile(b.cur, env.path)) == Go(c.io.files)
      case 21 => c.io.tty == b.io.tty &&
        OpenFiles.Step(b.io.files, OpenFiles.CloseFile(b.cur, regs[A0])) == Go(c.io.files)
      case _ => c.io == b.io
  {
    hide AStoreBytes, FreshProc, AKillFrom, AFirstFree, Found, OpenFiles.Read, OpenFiles.Open, OpenFiles.Close,
         Tty.Read;
  }

  lemma {:induction false} TypedFollows(io: Io, keys: seq<Byte>)
    ensures Typed(io, keys).files == io.files && Tty.Run(io.tty, Presses(keys)) == Typed(io, keys).tty
    decreases |keys|
  {
    hide Tty.Step;
    if keys != [] {
      var next := Io(io.files, Tty.Step(io.tty, Tty.Key(keys[0])).0);
      assert Presses(keys)[1..] == Presses(keys[1..]);
      TypedFollows(next, keys[1..]);
    }
  }

  lemma StepFollows(a: AState, e: Event)
    requires Proper(a) && AStep(a, e).Some?
    ensures var b := AStep(a, e).value;
      && OpenFiles.Run(a.io.files, FileEvents(a, e)) == Go(b.io.files)
      && Tty.Run(a.io.tty, TtyEvents(a, e)) == b.io.tty
  {
    hide AStore, AScan, ASyscall, OpenFiles.Step, Typed, Tty.Read;
    if a.mode == InUser && e.UartInterrupt? {
      TypedFollows(a.io, e.keys);
    } else if a.mode == InUser && e.Ecall? {
      var p := a.Cur();
      var b := a.With(AProc(p.regs, (p.pc + 4) % 0x1_0000_0000, p.space));
      SyscallFollows(b, e.env);
      match p.regs[A7]
      case 5 =>
        if p.regs[A0] == 0 {
          assert [Tty.Ask(p.regs[A2])][1..] == [];
        } else {
          OneEvent(a.io.files, OpenFiles.ReadFile(a.cur, p.regs[A0], p.regs[A2]));
        }
      case 15 => OneEvent(a.io.files, OpenFiles.OpenFile(a.cur, e.env.path));
      case 21 => OneEvent(a.io.files, OpenFiles.CloseFile(a.cur, p.regs[A0]));
      case _ =>
    }
  }

  // ---- runs ----

  lemma {:induction false} FileConcat(s: OpenFiles.System, es: seq<OpenFiles.Event>, fs: seq<OpenFiles.Event>)
    requires OpenFiles.Run(s, es).Go?
    ensures OpenFiles.Run(s, es + fs) == OpenFiles.Run(OpenFiles.Run(s, es).value, fs)
    decreases |es|
  {
    hide OpenFiles.Step;
    if es == [] {
      assert [] + fs == fs;
    } else {
      assert (es + fs)[1..] == es[1..] + fs;
      FileConcat(OpenFiles.Step(s, es[0]).value, es[1..], fs);
    }
  }

  /** Over every run of the system: its files go through the run of its file events, without a fault, and its terminal
      through that of its keys and reads. */
  lemma {:induction false} RunFollows(a: AState, es: seq<Event>)
    requires ARun(a, es).Some?
    ensures OpenFiles.Run(a.io.files, AllFileEvents(a, es)) == Go(ARun(a, es).value.io.files)
    ensures Tty.Run(a.io.tty, AllTtyEvents(a, es)) == ARun(a, es).value.io.tty
    decreases |es|
  {
    hide AStep, FileEvents, TtyEvents, OpenFiles.Step, Tty.Step;
    if es != [] {
      var b := AStep(a, es[0]).value;
      StepFollows(a, es[0]);
      RunFollows(b, es[1..]);
      FileConcat(a.io.files, FileEvents(a, es[0]), AllFileEvents(b, es[1..]));
      Tty.RunConcat(a.io.tty, TtyEvents(a, es[0]), AllTtyEvents(b, es[1..]));
    }
  }

  /** While a process keeps a descriptor open, all it reads through it, over every run of the system, is the next stretch
      of the file, as long as it asked for in all or up to the end, and the descriptor stands behind it. */
  lemma SystemReads(a: AState, es: seq<Event>, p: nat, fd: nat) returns (end: nat)
    requires IoOk(a.io) && ARun(a, es).Some? && OpenFiles.Opened(a.io.files, p, fd)
    requires OpenFiles.CloseFile(p, fd) !in AllFileEvents(a, es)
    ensures var s, t := a.io.files, ARun(a, es).value.io.files;
      && OpenFiles.Handle(s, p, fd).rwpos <= end <= Ustar.MAX_FILESIZE
      && end == OpenFiles.Least(OpenFiles.Handle(s, p, fd).rwpos + OpenFiles.Asked(s, AllFileEvents(a, es), p, fd),
                                s.files[OpenFiles.Handle(s, p, fd).file].size)
      && OpenFiles.ReadBy(s, AllFileEvents(a, es), p, fd) ==
         OpenFiles.Stretch(s, p, fd, OpenFiles.Handle(s, p, fd).rwpos, end)
      && OpenFiles.Opened(t, p, fd) && OpenFiles.Handle(t, p, fd).rwpos == end
      && OpenFiles.Handle(t, p, fd).file == OpenFiles.Handle(s, p, fd).file
  {
    hide OpenFiles.Valid, OpenFiles.Run, OpenFiles.ReadBy, OpenFiles.Asked, ARun, AllFileEvents, OpenFiles.Stretch;
    RunFollows(a, es);
    end := OpenFiles.ReadsConcatenate(a.io.files, AllFileEvents(a, es), p, fd);
  }

  /** A process with no room for another descriptor that opens a file takes an OsFile out of service, for every run. */
  lemma SystemLoses(a: AState, env: Env, es: seq<Event>)
    requires IoOk(a.io) && a.Runs() && OpenFiles.OpensInVain(a.io.files, a.cur, env.path)
    requires ARun(AOpen(a, env.path), es).Some?
    ensures var k, t := OpenFiles.FreeFile(a.io.files.os, 0), ARun(AOpen(a, env.path), es).value.io.files;
      t.os[k].inUse && !OpenFiles.Reached(t, k)
  {
    hide ARun, AllFileEvents, OpenFiles.Valid, OpenFiles.Locate, OpenFiles.FreeFile, OpenFiles.FreeFd,
         OpenFiles.Reached, OpenFiles.Run;
    var b := AOpen(a, env.path);
    OpenFiles.OpenLoses(a.io.files, a.cur, env.path);
    OpenFiles.OpenValid(a.io.files, a.cur, env.path);
    RunFollows(b, es);
    OpenFiles.LostForever(b.io.files, AllFileEvents(b, es), OpenFiles.FreeFile(a.io.files.os, 0));
  }

  // ---- whose descriptors ----

  /** The descriptors of slot `o` and the OsFiles behind them are the same. */
  ghost predicate SameFiles(s: OpenFiles.System, t: OpenFiles.System, o: nat)
    requires o < OpenFiles.SLOTS
  {
    && t.files == s.files && t.fds[o] == s.fds[o]
    && forall fd :: 0 <= fd < OpenFiles.MAX_OPEN ==> SameHandle(s, t, o, fd)
  }

  ghost predicate SameHandle(s: OpenFiles.System, t: OpenFiles.System, o: nat, fd: nat)
    requires o < OpenFiles.SLOTS && fd < OpenFiles.MAX_OPEN
  {
    s.fds[o][fd].At? && s.fds[o][fd].k < OpenFiles.MAX_OS_FILES ==> t.os[s.fds[o][fd].k] == s.os[s.fds[o][fd].k]
  }

  lemma EventPrivate(s: OpenFiles.System, e: OpenFiles.Event, o: nat)
    requires OpenFiles.Valid(s) && o < OpenFiles.SLOTS && e.p != o && OpenFiles.Step(s, e).Go?
    ensures SameFiles(s, OpenFiles.Step(s, e).value, o)
  {
    hide OpenFiles.Locate, OpenFiles.FreeFile, OpenFiles.FreeFd, OpenFiles.ReadFrom;
    var t := OpenFiles.Step(s, e).value;
    forall fd | 0 <= fd < OpenFiles.MAX_OPEN ensures SameHandle(s, t, o, fd) {
      assert OpenFiles.EntryOk(s, o, fd);
      if !e.OpenFile? && 3 <= e.fd < OpenFiles.MAX_OPEN { assert OpenFiles.Unshared(s, o, fd, e.p, e.fd); }
    }
  }

  /** No step but the process's own reads, opens and closes touches its descriptors or their positions. Not even its end:
      the next process in the slot finds them as they are. */
  lemma StepKeepsFiles(a: AState, e: Event, o: nat)
    requires Proper(a) && IoOk(a.io) && o < 8 && AStep(a, e).Some?
    requires a.cur != o || FileEvents(a, e) == []
    ensures IoOk(AStep(a, e).value.io) && SameFiles(a.io.files, AStep(a, e).value.io.files, o)
  {
    hide AStep, OpenFiles.Valid, OpenFiles.Step, SameFiles;
    StepFollows(a, e);
    if FileEvents(a, e) == [] {
      SameRefl(a.io.files, o);
    } else {
      var f := FileEvents(a, e)[0];
      assert FileEvents(a, e) == [f] && f.p == a.cur;
      OneEvent(a.io.files, f);
      OpenFiles.StepValid(a.io.files, f);
      EventPrivate(a.io.files, f, o);
    }
  }

  lemma SameRefl(s: OpenFiles.System, o: nat)
    requires o < OpenFiles.SLOTS
    ensures SameFiles(s, s, o)
  {
  }

  lemma SameTrans(s: OpenFiles.System, t: OpenFiles.System, u: OpenFiles.System, o: nat)
    requires o < OpenFiles.SLOTS && SameFiles(s, t, o) && SameFiles(t, u, o)
    ensures SameFiles(s, u, o)
  {
    forall fd | 0 <= fd < OpenFiles.MAX_OPEN ensures SameHandle(s, u, o, fd) {
      assert SameHandle(s, t, o, fd) && SameHandle(t, u, o, fd);
    }
  }

  /** A process that is left alone finds its files, and its place in each, as it left them. */
  lemma {:induction false} RunKeepsFiles(a: AState, es: seq<Event>, o: nat)
    requires IoOk(a.io) && o < 8 && LeftAlone(a, es, o) && ARun(a, es).Some?
    ensures SameFiles(a.io.files, ARun(a, es).value.io.files, o)
    decreases |es|
  {
    hide AStep, SameFiles, OpenFiles.Valid;
    if es == [] {
      SameRefl(a.io.files, o);
    } else {
      var b := AStep(a, es[0]).value;
      StepKeepsFiles(a, es[0], o);
      RunKeepsFiles(b, es[1..], o);
      SameTrans(a.io.files, b.io.files, ARun(b, es[1..]).value.io.files, o);
    }
  }

  // ---- what arrives in the buffer ----

  lemma PeekStore(sp: Space, va: Word, b: Byte, at: int)
    requires AStore(sp, va, b).Some?
    ensures Peek(AStore(sp, va, b).value, at) == if at == va then Some(b) else Peek(sp, at)
  {
    hide ByteOf, SetByte;
    SetByteOk(sp[va / 4096].frame, va % 4096, b, if at >= 0 then at % 4096 else 0);
  }

  lemma {:induction false} PeekStoreBytes(sp: Space, va: Word, bs: seq<Byte>, at: int)
    requires AStoreBytes(sp, va, bs).Some? && va + |bs| <= 0x1_0000_0000
    ensures Peek(AStoreBytes(sp, va, bs).value, at) == if va <= at < va + |bs| then Some(bs[at - va]) else Peek(sp, at)
    decreases |bs|
  {
    hide AStore, Peek;
    if bs != [] {
      PeekStore(sp, va, bs[0], at);
      if |bs| > 1 { PeekStoreBytes(AStore(sp, va, bs[0]).value, va + 1, bs[1..], at); } else { LastByte(sp, va, bs); }
    }
  }

  lemma LastByte(sp: Space, va: Word, bs: seq<Byte>)
    requires |bs| == 1 && AStoreBytes(sp, va, bs).Some?
    ensures AStoreBytes(sp, va, bs) == AStore(sp, va, bs[0])
  {
    hide AStore;
    assert bs[1..] == [];
  }

  /** What a read has to bring, for a terminal that holds the line `q` or is stuck: of the terminal, the front of the
      finished lines; of descriptors 1 and 2 nothing; of a file, the stretch from the position on. A read of the terminal
      that is not proper brings nothing. */
  function Arriving(a: AState, q: Tty.Line): seq<Byte>
    requires a.Runs()
  {
    var fd, n := a.Cur().regs[A0], a.Cur().regs[A2];
    if fd == 0 then (if Tty.Stuck(a.io.tty) || !Tty.Proper(a.io.tty, n) then [] else Tty.Take(q.committed, n))
    else if fd < 3 || !OpenFiles.Opened(a.io.files, a.cur, fd) then []
    else
      var o := OpenFiles.Handle(a.io.files, a.cur, fd);
      var f := a.io.files.files[o.file];
      if o.rwpos <= f.size then f.data[o.rwpos..o.rwpos + OpenFiles.Least(n, f.size - o.rwpos)] else []
  }

  /** What such a read leaves: a file's position moved by as much, or the terminal without these bytes; nothing else changed. */
  ghost predicate Advanced(a: AState, q: Tty.Line, io: Io)
    requires a.Runs()
  {
    var fd, n := a.Cur().regs[A0], |Arriving(a, q)|;
    if fd == 0 then
      && io.files == a.io.files
      && if Tty.Stuck(a.io.tty) || !Tty.Proper(a.io.tty, a.Cur().regs[A2]) then Tty.Stuck(io.tty)
         else n <= |q.committed| && Tty.Rings(io.tty, Tty.Line(q.committed[n..], q.pending))
    else if fd < 3 then io == a.io
    else
      && OpenFiles.Opened(a.io.files, a.cur, fd)
      && var k, o := a.io.files.fds[a.cur][fd].k, OpenFiles.Handle(a.io.files, a.cur, fd);
      io == Io(a.io.files.(os := a.io.files.os[k := o.(rwpos := o.rwpos + n)]), a.io.tty)
  }

  lemma ReadArrives(a: AState, q: Tty.Line)
    requires a.Runs() && IoOk(a.io) && CanRead(a.io, a.cur, a.Cur().regs[A0])
    requires a.Cur().regs[A0] == 0 ==> Tty.Rings(a.io.tty, q) || Tty.Stuck(a.io.tty)
    ensures a.Cur().regs[A0] >= 3 ==> OpenFiles.Opened(a.io.files, a.cur, a.Cur().regs[A0])
    ensures var r := ReadFd(a.io, a.cur, a.Cur().regs[A0], a.Cur().regs[A2]);
      r.Go? && r.value.1 == Arriving(a, q) && Advanced(a, q, r.value.0)
  {
    hide Tty.Rings, OpenFiles.Read, Tty.Read, Tty.Take;
    var fd, n := a.Cur().regs[A0], a.Cur().regs[A2];
    if fd == 0 {
      if Tty.Stuck(a.io.tty) {
        StuckRead(a.io.tty, n);
      } else {
        Tty.ProperIsExact(a.io.tty, q, n);
      }
      if !Tty.Stuck(a.io.tty) && Tty.Proper(a.io.tty, n) { Tty.ReadRefines(a.io.tty, q, n); }
    } else if fd < 3 {
      OpenFiles.ReadNothing(a.io.files, a.cur, fd, n);
    } else {
      CanReadOpened(a.io, a.cur, fd);
      OpenFiles.ReadIs(a.io.files, a.cur, fd, n);
    }
  }

  lemma StuckRead(t: Tty.Ring, n: nat)
    requires Tty.Stuck(t)
    ensures Tty.Read(t, n) == (t, [])
  {
  }

  lemma CanReadOpened(io: Io, p: nat, fd: Word)
    requires IoOk(io) && p < OpenFiles.SLOTS && CanRead(io, p, fd) && fd >= 3
    ensures OpenFiles.Opened(io.files, p, fd)
  {
    assert OpenFiles.EntryOk(io.files, p, fd);
  }

  /** A read through any descriptor that can be read has put just these bytes in the caller's buffer and their number in a0,
      and changed no other byte of any process. */
  lemma ReadFillsBuffer(a: AState, q: Tty.Line, at: int)
    requires a.Runs() && IoOk(a.io) && CanRead(a.io, a.cur, a.Cur().regs[A0])
    requires a.Cur().regs[A0] == 0 ==> Tty.Rings(a.io.tty, q) || Tty.Stuck(a.io.tty)
    requires AStoreBytes(a.Cur().space, a.Cur().regs[A1], Arriving(a, q)).Some?
    ensures a.Cur().regs[A0] >= 3 ==> OpenFiles.Opened(a.io.files, a.cur, a.Cur().regs[A0])
    ensures ARead(a).Some?
    ensures var p, b, bs := a.Cur(), ARead(a).value, Arriving(a, q);
      && b.Runs() && b.cur == a.cur && b.procs == a.procs[a.cur := Some(b.Cur())]
      && |bs| <= p.regs[A2] && b.Cur().regs == p.regs[A0 := |bs|] && b.Cur().pc == p.pc && Advanced(a, q, b.io)
      && (p.regs[A1] + |bs| <= 0x1_0000_0000 ==>
           Peek(b.Cur().space, at) ==
             if p.regs[A1] <= at < p.regs[A1] + |bs| then Some(bs[at - p.regs[A1]]) else Peek(p.space, at))
  {
    hide AStoreBytes, ReadFd, Tty.Rings, Arriving, Advanced, Peek, IoOk, CanRead;
    var p := a.Cur();
    ReadArrives(a, q);
    ReadLength(a.io, a.cur, p.regs[A0], p.regs[A2]);
    if p.regs[A1] + |Arriving(a, q)| <= 0x1_0000_0000 { PeekStoreBytes(p.space, p.regs[A1], Arriving(a, q), at); }
  }

  // ---- closing ----

  /** close of an open descriptor: it is NULL, its OsFile is free again, every other descriptor of every slot stands where it
      stood, and a0 is 0. */
  lemma CloseCloses(a: AState)
    requires a.Runs() && IoOk(a.io) && 3 <= a.Cur().regs[A0] < OpenFiles.MAX_OPEN
    requires a.io.files.fds[a.cur][a.Cur().regs[A0]] != OpenFiles.None
    ensures AClose(a).Some? && AClose(a).value.Runs() &&
      a.io.files.fds[a.cur][a.Cur().regs[A0]].k < OpenFiles.MAX_OS_FILES
    ensures var s, fd, b := a.io.files, a.Cur().regs[A0], AClose(a).value;
      var t, k := b.io.files, s.fds[a.cur][fd].k;
      && t.fds[a.cur][fd] == OpenFiles.None && !t.os[k].inUse && OpenFiles.DifferAt(s, t, a.cur, fd, k)
      && b.Cur() == Returned(a.Cur(), 0) && b.io.tty == a.io.tty && !CanRead(b.io, a.cur, fd)
  {
    hide OpenFiles.Valid, OpenFiles.Open, OpenFiles.NameIs;
    OpenFiles.CloseIs(a.io.files, a.cur, a.Cur().regs[A0], 0, []);
  }
}
