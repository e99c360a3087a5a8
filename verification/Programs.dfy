/**
 From the disk to a running program: exec of a name starts the archive's file of
 that name at its entry point, with its segments in place, after any run.
 */
module Programs {
  import opened Sv32
  import opened Bytes
  import opened Images
  import opened Arguments
  import opened Processes
  import opened Machine
  import opened Devices
  import opened AbstractOs
  import opened Refinement
  import opened Boot
  import opened ImageBytes
  import opened ElfLayout
  import opened SystemFiles
  import Ustar
  import OpenFiles
  import Tty

  // ---- exec by name ----

  /** The disk is an archive of `entries`, with different names that leave room for their terminator. */
  ghost predicate Catalogue(disk: seq<Ustar.Sector>, entries: seq<Ustar.Entry>) {
    && Ustar.Archive(disk, 0, entries) && |entries| <= Ustar.MAX_FILES && |disk| < 0x1_0000_0000
    && (forall j :: 0 <= j < |entries| ==> 1 <= |entries[j].name| < 100 && 0 !in entries[j].name)
    && forall i, j :: 0 <= i < j < |entries| ==> entries[i].name != entries[j].name
  }

  /** Boot gets through such a disk, and the table holds the archive's files in order and no other. */
  lemma CatalogueLoaded(disk: seq<Ustar.Sector>, entries: seq<Ustar.Entry>)
    requires Catalogue(disk, entries)
    ensures LoadDisk(disk).Go?
    ensures forall j :: 0 <= j < |entries| ==> Ustar.Holds(Files(disk)[j], entries[j])
    ensures forall j :: |entries| <= j < Ustar.MAX_FILES ==> Files(disk)[j].name[0] == 0
  {
    hide Ustar.Load, Ustar.Holds, Ustar.Archive, Ustar.NoFiles;
    Ustar.LoadInverts(disk, Ustar.NoFiles(), seq<Byte>(Ustar.SECTOR, _ => 0), 0, 0, entries);
    forall j | 0 <= j < |entries| ensures Ustar.Holds(Files(disk)[j], entries[j]) {
      assert Ustar.Holds(Files(disk)[0 + j], entries[j]);
    }
  }

  lemma {:induction false} CStringEnds(bs: seq<Byte>, n: nat)
    requires n < |bs| && bs[n] == 0 && 0 !in bs[..n]
    ensures OpenFiles.CString(bs) == bs[..n]
    decreases n
  {
    if n > 0 {
      assert bs[0] == bs[..n][0] && bs[0] in bs[..n];
      assert bs[1..][..n - 1] == bs[..n][1..];
      CStringEnds(bs[1..], n - 1);
      assert bs[..n] == [bs[0]] + bs[1..][..n - 1];
    }
  }

  lemma HeldName(f: Ustar.File, e: Ustar.Entry)
    requires Ustar.Holds(f, e) && |e.name| < 100 && 0 !in e.name
    ensures OpenFiles.CString(f.name + f.data) == e.name
  {
    var bs := f.name + f.data;
    assert bs[..|e.name|] == e.name;
    assert bs[|e.name|] == f.name[|e.name|] == 0;
    CStringEnds(bs, |e.name|);
  }

  lemma EmptyName(f: Ustar.File)
    requires f.Shape() && f.name[0] == 0
    ensures OpenFiles.CString(f.name + f.data) == []
  {
    assert (f.name + f.data)[0] == 0;
  }

  /** The names of the table, entry by entry. */
  lemma TableNames(disk: seq<Ustar.Sector>, entries: seq<Ustar.Entry>, path: seq<Byte>, i: nat)
    requires Catalogue(disk, entries) && i < Ustar.MAX_FILES && OpenFiles.CString(path) != []
    ensures OpenFiles.NameIs(Files(disk)[i], path) <==> i < |entries| && entries[i].name == OpenFiles.CString(path)
  {
    hide OpenFiles.CString, Files, Ustar.Holds, Ustar.Archive;
    CatalogueLoaded(disk, entries);
    if i < |entries| { HeldName(Files(disk)[i], entries[i]); } else { EmptyName(Files(disk)[i]); }
  }

  /** The lookup of exec finds exactly the named file of the archive, and nothing for any other name. */
  lemma FoundIs(disk: seq<Ustar.Sector>, entries: seq<Ustar.Entry>, io: Io, path: seq<Byte>)
    requires Catalogue(disk, entries) && io.files.files == Files(disk) && OpenFiles.CString(path) != []
    ensures forall j :: 0 <= j < |entries| && entries[j].name == OpenFiles.CString(path) ==>
      Found(io, path).Some? && entries[j].data <= Found(io, path).value
    ensures (forall j :: 0 <= j < |entries| ==> entries[j].name != OpenFiles.CString(path)) ==> Found(io, path) == None
  {
    hide OpenFiles.CString, OpenFiles.NameIs, Files, Ustar.Holds, Ustar.Archive;
    CatalogueLoaded(disk, entries);
    var r := OpenFiles.Locate(io.files.files, path, 0);
    if r != OpenFiles.FAILED { TableNames(disk, entries, path, r); }
    forall j | 0 <= j < |entries| && entries[j].name == OpenFiles.CString(path)
      ensures Found(io, path).Some? && entries[j].data <= Found(io, path).value
    {
      TableNames(disk, entries, path, j);
      assert r == j;
      HeldData(Files(disk)[j], entries[j]);
    }
  }

  lemma HeldData(f: Ustar.File, e: Ustar.Entry)
    requires Ustar.Holds(f, e)
    ensures e.data <= f.data
  {
  }

  // ---- files over runs ----

  lemma {:induction false} RunKeepsTable(s: OpenFiles.System, es: seq<OpenFiles.Event>)
    requires OpenFiles.Run(s, es).Go?
    ensures OpenFiles.Run(s, es).value.files == s.files
    decreases |es|
  {
    hide OpenFiles.Step;
    if es != [] {
      StepKeepsTable(s, es[0]);
      RunKeepsTable(OpenFiles.Step(s, es[0]).value, es[1..]);
    }
  }

  lemma StepKeepsTable(s: OpenFiles.System, e: OpenFiles.Event)
    requires OpenFiles.Step(s, e).Go?
    ensures OpenFiles.Step(s, e).value.files == s.files
  {
    hide OpenFiles.Locate, OpenFiles.FreeFile, OpenFiles.FreeFd, OpenFiles.ReadFrom;
  }

  /** No run of the system changes a file: name, size and data of all of them are as boot found them. */
  lemma FilesStay(disk: seq<Ustar.Sector>, es: seq<Event>)
    requires ARun(ABoot(disk), es).Some?
    ensures ARun(ABoot(disk), es).value.io.files.files == Files(disk)
  {
    hide ARun, AllFileEvents, OpenFiles.Run, Files, NewProcess, Shell;
    RunFollows(ABoot(disk), es);
    RunKeepsTable(ABoot(disk).io.files, AllFileEvents(ABoot(disk), es));
  }

  // ---- executables ----

  function PagesOf(p: ProgramHeader): nat { (p.memsz + 4095) / 4096 }

  /** The segments lie in user space below the stack page, page-aligned, and no two share a page. */
  ghost predicate ElfLaidOut(e: Elf) {
    && (forall h :: 0 <= h < |e.headers| ==>
         var p := e.headers[h];
         USER_BASE <= p.vaddr && p.vaddr % 4096 == 0 && p.vaddr / 4096 + PagesOf(p) <= STACK_PAGE)
    && forall h, t :: 0 <= h < t < |e.headers| ==> Separate(e.headers[h], e.headers[t])
  }

  predicate Separate(p: ProgramHeader, q: ProgramHeader) {
    p.vaddr / 4096 + PagesOf(p) <= q.vaddr / 4096 || q.vaddr / 4096 + PagesOf(q) <= p.vaddr / 4096
  }

  lemma LaidOutElf(file: seq<Byte>, e: Elf)
    requires IsElf(file, e) && ElfLaidOut(e)
    ensures LaidOut(file)
  {
    hide IsElf, SegmentAt, SegmentCount;
    forall h | 0 <= h < |e.headers|
      ensures SegmentAt(file, h) == Segment(e.headers[h].offset, e.headers[h].vaddr, e.headers[h].memsz) &&
        SegmentCount(file) == |e.headers|
    {
      ParsesBack(file, e, h);
    }
    ParsesBack(file, e, 0);
    forall h, t, v | 0 <= h < t < SegmentCount(file) && 0 <= v < 0x10_0000
      ensures !(Covers(SegmentAt(file, h), v) && Covers(SegmentAt(file, t), v)) {
      assert Separate(e.headers[h], e.headers[t]);
    }
  }

  /** Byte `k` of segment `h` is in place: the file's byte, where the file has one, and zero behind the segment. */
  predicate InPlace(p: AProc, file: seq<Byte>, e: Elf, h: nat, k: nat)
    requires h < |e.headers|
  {
    var g := e.headers[h];
    && Peek(p.space, g.vaddr + k).Some?
    && (k < g.memsz && g.offset + k < |file| ==> Peek(p.space, g.vaddr + k) == Some(file[g.offset + k]))
    && (k >= g.memsz ==> Peek(p.space, g.vaddr + k) == Some(0))
  }

  /** The program that exec makes of an executable starts at its entry point, with every segment in place. */
  lemma ElfExecuted(file: seq<Byte>, e: Elf, args: seq<seq<Byte>>, h: nat, k: nat)
    requires IsElf(file, e) && PushArguments(Zero(), args).Go?
    ensures FreshProc(file, args).pc == e.entry
    ensures ElfLaidOut(e) && h < |e.headers| && k < 4096 * PagesOf(e.headers[h]) ==>
      InPlace(FreshProc(file, args), file, e, h, k)
  {
    hide IsElf, SegmentAt, SegmentCount, EntryPoint, PushArguments, ImageSpace, Peek, ElfLaidOut, LaidOut;
    ParsesBack(file, e, h);
    if ElfLaidOut(e) && h < |e.headers| && k < 4096 * PagesOf(e.headers[h]) {
      LaidOutElf(file, e);
      ExecImageBytes(file, args, h, k);
    }
  }

  /** The same of kproc_create. */
  lemma ElfCreated(file: seq<Byte>, e: Elf, h: nat, k: nat)
    requires IsElf(file, e)
    ensures NewProcess(file).pc == e.entry
    ensures ElfLaidOut(e) && h < |e.headers| && k < 4096 * PagesOf(e.headers[h]) ==>
      InPlace(NewProcess(file), file, e, h, k)
  {
    hide IsElf, SegmentAt, SegmentCount, EntryPoint, ImageSpace, Peek, ElfLaidOut, LaidOut;
    ParsesBack(file, e, h);
    if ElfLaidOut(e) && h < |e.headers| && k < 4096 * PagesOf(e.headers[h]) {
      LaidOutElf(file, e);
      CreateImageBytes(file, h, k);
    }
  }

  lemma InPlaceShorter(p: AProc, file: seq<Byte>, longer: seq<Byte>, e: Elf, h: nat, k: nat)
    requires h < |e.headers| && InPlace(p, longer, e, h, k) && file <= longer
    ensures InPlace(p, file, e, h, k)
  {
    hide Peek;
  }

  // ---- the terminal ----

  /** Over every run from power-on in which the reads of the terminal are proper: what has been read of it, followed by the
      finished lines, is the edited text of the keys it took, and the pending line its unfinished rest. */
  lemma SystemEdits(disk: seq<Ustar.Sector>, es: seq<Event>) returns (q: Tty.Line)
    requires ARun(ABoot(disk), es).Some? && Tty.AllProper(ABoot(disk).io.tty, AllTtyEvents(ABoot(disk), es))
    ensures var t, ts := ABoot(disk).io.tty, AllTtyEvents(ABoot(disk), es);
      && Tty.Rings(ARun(ABoot(disk), es).value.io.tty, q)
      && Tty.Output(t, ts) + q.committed == Tty.Edited([], Tty.Keys(t, ts)).committed
      && q.pending == Tty.Edited([], Tty.Keys(t, ts)).pending
  {
    hide ARun, AllTtyEvents, Tty.Run, Tty.Rings, Tty.Output, Tty.Edited, Tty.Keys, Tty.AllProper, Files, NewProcess,
         Shell, OpenFiles.Fresh;
    RunFollows(ABoot(disk), es);
    q := Tty.TerminalEdits(seq<Byte>(Tty.SIZE, _ => 0), AllTtyEvents(ABoot(disk), es));
  }

  /** In every state reached from power-on the terminal holds a line or is stuck. */
  lemma SystemLine(disk: seq<Ustar.Sector>, es: seq<Event>) returns (q: Tty.Line)
    requires ARun(ABoot(disk), es).Some?
    ensures Tty.Rings(ARun(ABoot(disk), es).value.io.tty, q) || Tty.Stuck(ARun(ABoot(disk), es).value.io.tty)
  {
    hide ARun, AllTtyEvents, Tty.Run, Files, NewProcess, Shell, OpenFiles.Fresh;
    RunFollows(ABoot(disk), es);
    q := Tty.LineOrStuck(ABoot(disk).io.tty, Tty.Line([], []), AllTtyEvents(ABoot(disk), es));
  }

  // ---- the whole way ----

  /** After any run from power-on: exec of the name of an archive's executable makes the caller that program, at its entry
      point, with its segments in place and its arguments counted in a0. */
  lemma ExecRunsProgram(disk: seq<Ustar.Sector>, entries: seq<Ustar.Entry>, es: seq<Event>, a: AState, env: Env, j: nat,
                        e: Elf, h: nat, k: nat)
    requires Catalogue(disk, entries) && ARun(ABoot(disk), es) == Some(a) && a.Runs()
    requires j < |entries| && OpenFiles.CString(env.path) == entries[j].name && IsElf(entries[j].data, e)
    requires PushArguments(Zero(), env.args).Go?
    ensures AExecPath(a, env).Some? && AExecPath(a, env).value.Runs()
    ensures var p := AExecPath(a, env).value.Cur();
      && p.pc == e.entry && p.regs[A0] == |env.args|
      && (ElfLaidOut(e) && h < |e.headers| && k < 4096 * PagesOf(e.headers[h]) ==> InPlace(p, entries[j].data, e, h, k))
  {
    hide ARun, Catalogue, Found, IsElf, PushArguments, FreshProc, ImagePages, InPlace, ElfLaidOut, OpenFiles.CString,
         Files, ABoot;
    FilesStay(disk, es);
    assert entries[j].name != [] by { NameThere(disk, entries, j); }
    FoundIs(disk, entries, a.io, env.path);
    var file := Found(a.io, env.path).value;
    LongerElf(entries[j].data, file, e);
    ElfExecuted(file, e, env.args, h, k);
    CountInA0(file, env.args);
    if ElfLaidOut(e) && h < |e.headers| && k < 4096 * PagesOf(e.headers[h]) {
      InPlaceShorter(FreshProc(file, env.args), entries[j].data, file, e, h, k);
    }
  }

  lemma NameThere(disk: seq<Ustar.Sector>, entries: seq<Ustar.Entry>, j: nat)
    requires Catalogue(disk, entries) && j < |entries|
    ensures entries[j].name != []
  {
    hide Ustar.Archive;
  }

  lemma CountInA0(file: seq<Byte>, args: seq<seq<Byte>>)
    requires PushArguments(Zero(), args).Go?
    ensures FreshProc(file, args).regs[A0] == |args|
  {
    hide ImageSpace, PushArguments, EntryPoint;
  }

  /** exec of any other name, but the empty one, changes nothing and returns to the caller. */
  lemma ExecOfNoProgram(disk: seq<Ustar.Sector>, entries: seq<Ustar.Entry>, es: seq<Event>, a: AState, env: Env)
    requires Catalogue(disk, entries) && ARun(ABoot(disk), es) == Some(a) && a.Runs()
    requires OpenFiles.CString(env.path) != []
    requires forall j :: 0 <= j < |entries| ==> entries[j].name != OpenFiles.CString(env.path)
    ensures AExecPath(a, env) == Some(a.In(InUser))
  {
    hide ARun, Catalogue, Found, FreshProc, ImagePages, OpenFiles.CString, Files, ABoot;
    FilesStay(disk, es);
    FoundIs(disk, entries, a.io, env.path);
  }

  /** At power-on the third file of the archive becomes the first process, at its entry point, with its segments in place. */
  lemma ShellRuns(disk: seq<Ustar.Sector>, entries: seq<Ustar.Entry>, e: Elf, h: nat, k: nat)
    requires Catalogue(disk, entries) && |entries| > 2 && IsElf(entries[2].data, e)
    ensures ABoot(disk).procs[0].Some?
    ensures var p := ABoot(disk).procs[0].value;
      && p.pc == e.entry
      && (ElfLaidOut(e) && h < |e.headers| && k < 4096 * PagesOf(e.headers[h]) ==> InPlace(p, entries[2].data, e, h, k))
  {
    hide Catalogue, IsElf, NewProcess, InPlace, ElfLaidOut, Files, Ustar.Holds;
    CatalogueLoaded(disk, entries);
    HeldData(Files(disk)[2], entries[2]);
    var file := Shell(disk);
    LongerElf(entries[2].data, file, e);
    ElfCreated(file, e, h, k);
    if ElfLaidOut(e) && h < |e.headers| && k < 4096 * PagesOf(e.headers[h]) {
      InPlaceShorter(NewProcess(file), entries[2].data, file, e, h, k);
    }
  }
}
