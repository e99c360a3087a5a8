/**
 The open-file table and the processes' descriptors: filesystem_file_open, _read
 and _close, with kproc_file_add, _remove and _get.
 */
module OpenFiles {
  import opened Bytes
  import opened Pages
  import opened Ustar

  const MAX_OS_FILES: nat := 100
  const MAX_OPEN: nat := 8
  const SLOTS: nat := 8
  /** What the calls return for -1. */
  const FAILED: nat := 0xFFFF_FFFF

  /** One opening of a file: which file, and how far it has been read. */
  datatype OsFile = OsFile(inUse: bool, rwpos: nat, file: nat)

  type OsTable = t: seq<OsFile> | |t| == MAX_OS_FILES witness seq(MAX_OS_FILES, _ => OsFile(false, 0, 0))

  /** An entry is the index of an OsFile; None is NULL. */
  datatype Entry = None | At(k: nat)
  type Fds = d: seq<Entry> | |d| == MAX_OPEN witness seq(MAX_OPEN, _ => None)
  type FdTable = t: seq<Fds> | |t| == SLOTS witness seq(SLOTS, _ => seq(MAX_OPEN, _ => None))

  datatype System = System(files: FileTable, os: OsTable, fds: FdTable)

  // ---- names ----

  /** The bytes up to the first NUL. */
  function CString(bs: seq<Byte>): (s: seq<Byte>)
    ensures 0 !in s && s <= bs
  {
    if bs == [] || bs[0] == 0 then [] else [bs[0]] + CString(bs[1..])
  }

  /** strcmp(path, name) == 0. The name field is followed by the data, where a name of 100 bytes would run on. */
  predicate NameIs(f: File, path: seq<Byte>) { CString(f.name + f.data) == CString(path) }

  /** filesystem_locate_file from index `i` on; FAILED if there is no such file. */
  function Locate(files: FileTable, path: seq<Byte>, i: nat): (r: nat)
    ensures r < MAX_FILES || r == FAILED
    ensures r != FAILED ==> i <= r && NameIs(files[r], path)
    ensures forall j :: i <= j < MAX_FILES && j < r ==> !NameIs(files[j], path)
    decreases MAX_FILES - i
  {
    if i >= MAX_FILES then FAILED else if NameIs(files[i], path) then i else Locate(files, path, i + 1)
  }

  /** The first unused OsFile, or MAX_OS_FILES. */
  function FreeFile(os: OsTable, k: nat): (r: nat)
    requires k <= MAX_OS_FILES
    ensures k <= r <= MAX_OS_FILES && (r < MAX_OS_FILES ==> !os[r].inUse)
    ensures forall j :: k <= j < r ==> os[j].inUse
    decreases MAX_OS_FILES - k
  {
    if k == MAX_OS_FILES || !os[k].inUse then k else FreeFile(os, k + 1)
  }

  /** The first unused descriptor from `fd` on, or MAX_OPEN. */
  function FreeFd(d: Fds, fd: nat): (r: nat)
    requires fd <= MAX_OPEN
    ensures fd <= r <= MAX_OPEN && (r < MAX_OPEN ==> d[r] == None)
    ensures forall j :: fd <= j < r ==> d[j] != None
    decreases MAX_OPEN - fd
  {
    if fd == MAX_OPEN || d[fd] == None then fd else FreeFd(d, fd + 1)
  }

  // ---- the calls ----

  /** filesystem_file_open for the process in slot `p`. When the process has no descriptor left, the OsFile stays in use. */
  function Open(s: System, p: nat, path: seq<Byte>): (System, nat)
    requires p < SLOTS
  {
    var f, k := Locate(s.files, path, 0), FreeFile(s.os, 0);
    if f == FAILED || k == MAX_OS_FILES then (s, FAILED)
    else
      var t := s.(os := s.os[k := OsFile(true, 0, f)]);
      var fd := FreeFd(s.fds[p], 3);
      if fd == MAX_OPEN then (t, FAILED)
      else (t.(fds := s.fds[p := s.fds[p][fd := At(k)]]), fd)
  }

  /** The loop of filesystem_file_read: up to `n` bytes from `pos` on. */
  function ReadFrom(f: File, pos: nat, n: nat): (r: seq<Byte>)
    requires f.Shape() && f.size <= MAX_FILESIZE
    ensures |r| <= n
    decreases n
  {
    if n == 0 || pos >= f.size then [] else [f.data[pos]] + ReadFrom(f, pos + 1, n - 1)
  }

  /** ksys_read for a descriptor of files; 1 and 2 deliver nothing, and 0 is the terminal. Nothing checks the descriptor:
      behind the array of the process lies its next field, and a closed descriptor is NULL. */
  function Read(s: System, p: nat, fd: nat, n: nat): Outcome<(System, seq<Byte>)>
    requires p < SLOTS
  {
    if fd < 3 then Go((s, []))
    else if fd >= MAX_OPEN then Fault
    else
      match s.fds[p][fd]
      case None => Fault
      case At(k) =>
        if k >= MAX_OS_FILES || s.os[k].file >= MAX_FILES || s.files[s.os[k].file].size > MAX_FILESIZE then Fault
        else
          var o := s.os[k];
          var bs := ReadFrom(s.files[o.file], o.rwpos, n);
          Go((s.(os := s.os[k := o.(rwpos := o.rwpos + |bs|)]), bs))
  }

  /** filesystem_file_close, with the same unchecked index. */
  function Close(s: System, p: nat, fd: nat): Outcome<(System, nat)>
    requires p < SLOTS
  {
    if fd < 3 then Go((s, 0))
    else if fd >= MAX_OPEN then Fault
    else
      match s.fds[p][fd]
      case None => Go((s, FAILED))
      case At(k) =>
        if k >= MAX_OS_FILES then Fault
        else Go((s.(fds := s.fds[p := s.fds[p][fd := None]], os := s.os[k := OsFile(false, 0, FAILED)]), 0))
  }

  /** A descriptor through which a file can be read. */
  predicate Opened(s: System, p: nat, fd: nat) {
    && p < SLOTS && 3 <= fd < MAX_OPEN && s.fds[p][fd].At? && s.fds[p][fd].k < MAX_OS_FILES
    && var o := s.os[s.fds[p][fd].k];
    o.file < MAX_FILES && s.files[o.file].size <= MAX_FILESIZE
  }

  function Handle(s: System, p: nat, fd: nat): OsFile
    requires Opened(s, p, fd)
  {
    s.os[s.fds[p][fd].k]
  }

  // ---- what every run keeps ----

  ghost predicate EntryOk(s: System, p: nat, fd: nat) {
    && p < SLOTS && fd < MAX_OPEN
    && (s.fds[p][fd].At? ==>
        && 3 <= fd && s.fds[p][fd].k < MAX_OS_FILES
        && var o := s.os[s.fds[p][fd].k];
        && o.inUse && o.file < MAX_FILES && o.rwpos <= s.files[o.file].size)
  }

  ghost predicate Unshared(s: System, p: nat, fd: nat, q: nat, gd: nat) {
    && p < SLOTS && fd < MAX_OPEN && q < SLOTS && gd < MAX_OPEN
    && (s.fds[p][fd].At? && s.fds[q][gd].At? && s.fds[p][fd].k == s.fds[q][gd].k ==> p == q && fd == gd)
  }

  /** Descriptors lead to OsFiles in use, no two to the same, and no position lies behind the end of its file. */
  ghost predicate Valid(s: System) {
    && SizesOk(s.files)
    && (forall p, fd :: 0 <= p < SLOTS && 0 <= fd < MAX_OPEN ==> EntryOk(s, p, fd))
    && forall p, fd, q, gd :: 0 <= p < SLOTS && 0 <= fd < MAX_OPEN && 0 <= q < SLOTS && 0 <= gd < MAX_OPEN ==>
      Unshared(s, p, fd, q, gd)
  }

  lemma OpenValid(s: System, p: nat, path: seq<Byte>)
    requires Valid(s) && p < SLOTS
    ensures Valid(Open(s, p, path).0)
  {
    hide NameIs, Locate, FreeFile, FreeFd;
    var t := Open(s, p, path).0;
    forall q, fd | 0 <= q < SLOTS && 0 <= fd < MAX_OPEN ensures EntryOk(t, q, fd) { assert EntryOk(s, q, fd); }
    forall q, fd, r, gd | 0 <= q < SLOTS && 0 <= fd < MAX_OPEN && 0 <= r < SLOTS && 0 <= gd < MAX_OPEN
      ensures Unshared(t, q, fd, r, gd) {
      assert EntryOk(s, q, fd) && EntryOk(s, r, gd) && Unshared(s, q, fd, r, gd);
    }
  }

  /** What a read returns is the stretch of the file from the position on: as long as asked for, if the file is. */
  lemma {:induction false} ReadFromIs(f: File, pos: nat, n: nat)
    requires f.Shape() && pos <= f.size <= MAX_FILESIZE
    ensures var r := ReadFrom(f, pos, n);
      && pos + |r| <= f.size && r == f.data[pos..pos + |r|] && |r| == if pos + n <= f.size then n else f.size - pos
    decreases n
  {
    if n > 0 && pos < f.size {
      ReadFromIs(f, pos + 1, n - 1);
      var r := ReadFrom(f, pos + 1, n - 1);
      assert [f.data[pos]] + f.data[pos + 1..pos + 1 + |r|] == f.data[pos..pos + 1 + |r|];
    }
  }

  /** A read goes wrong exactly for a descriptor behind the array or a closed one. */
  lemma ReadValid(s: System, p: nat, fd: nat, n: nat)
    requires Valid(s) && p < SLOTS
    ensures !Read(s, p, fd, n).Halt?
    ensures Read(s, p, fd, n).Fault? <==> fd >= MAX_OPEN || (fd >= 3 && s.fds[p][fd] == None)
    ensures Read(s, p, fd, n).Go? ==> Valid(Read(s, p, fd, n).value.0) && |Read(s, p, fd, n).value.1| <= n
  {
    hide ReadFrom;
    if 3 <= fd < MAX_OPEN {
      assert EntryOk(s, p, fd);
      if s.fds[p][fd].At? {
        var t, o := Read(s, p, fd, n).value.0, Handle(s, p, fd);
        ReadFromIs(s.files[o.file], o.rwpos, n);
        forall q, gd | 0 <= q < SLOTS && 0 <= gd < MAX_OPEN ensures EntryOk(t, q, gd) { assert EntryOk(s, q, gd); }
        forall q, gd, r, hd | 0 <= q < SLOTS && 0 <= gd < MAX_OPEN && 0 <= r < SLOTS && 0 <= hd < MAX_OPEN
          ensures Unshared(t, q, gd, r, hd)
        {
          assert Unshared(s, q, gd, r, hd);
        }
      }
    }
  }

  /** A close goes wrong exactly for a descriptor behind the array. */
  lemma CloseValid(s: System, p: nat, fd: nat)
    requires Valid(s) && p < SLOTS
    ensures !Close(s, p, fd).Halt?
    ensures Close(s, p, fd).Fault? <==> fd >= MAX_OPEN
    ensures Close(s, p, fd).Go? ==> Valid(Close(s, p, fd).value.0)
  {
    if 3 <= fd < MAX_OPEN {
      assert EntryOk(s, p, fd);
      var t := Close(s, p, fd).value.0;
      forall q, gd | 0 <= q < SLOTS && 0 <= gd < MAX_OPEN ensures EntryOk(t, q, gd) {
        assert EntryOk(s, q, gd) && Unshared(s, p, fd, q, gd);
      }
      forall q, gd, r, hd | 0 <= q < SLOTS && 0 <= gd < MAX_OPEN && 0 <= r < SLOTS && 0 <= hd < MAX_OPEN
        ensures Unshared(t, q, gd, r, hd)
      {
        assert Unshared(s, q, gd, r, hd);
      }
    }
  }

  // ---- what each call does ----

  function Least(a: nat, b: nat): nat { if a <= b then a else b }

  /** A read through an open descriptor delivers the file's bytes from its position on, as many as asked for or as there
      are, and moves the position by that number; nothing else changes. */
  lemma ReadIs(s: System, p: nat, fd: nat, n: nat)
    requires Valid(s) && Opened(s, p, fd)
    ensures var o := Handle(s, p, fd);
      var f := s.files[o.file];
      && o.rwpos <= f.size <= |f.data|
      && var m := Least(n, f.size - o.rwpos);
      Read(s, p, fd, n) ==
        Go((s.(os := s.os[s.fds[p][fd].k := o.(rwpos := o.rwpos + m)]), f.data[o.rwpos..o.rwpos + m]))
  {
    assert EntryOk(s, p, fd);
    var o := Handle(s, p, fd);
    ReadFromIs(s.files[o.file], o.rwpos, n);
  }

  /** Through 1 and 2 nothing is read. */
  lemma ReadNothing(s: System, p: nat, fd: nat, n: nat)
    requires p < SLOTS && fd < 3
    ensures Read(s, p, fd, n) == Go((s, []))
  {
    hide ReadFrom;
  }

  /** Of two systems that differ in nothing but descriptor `fd` of slot `p` and OsFile `k`. */
  ghost predicate DifferAt(s: System, t: System, p: nat, fd: nat, k: nat) {
    && t.files == s.files
    && (forall q, gd :: 0 <= q < SLOTS && 0 <= gd < MAX_OPEN && (q, gd) != (p, fd) ==> t.fds[q][gd] == s.fds[q][gd])
    && forall l :: 0 <= l < MAX_OS_FILES && l != k ==> t.os[l] == s.os[l]
  }

  /** Closing an open descriptor clears it, gives its OsFile back, leaves all else alone, and returns 0. Reading it is then
      an error, and the next open of a file succeeds. */
  lemma CloseIs(s: System, p: nat, fd: nat, n: nat, path: seq<Byte>)
    requires Valid(s) && p < SLOTS && 3 <= fd < MAX_OPEN && s.fds[p][fd] != None
    ensures Close(s, p, fd).Go? && s.fds[p][fd].k < MAX_OS_FILES
    ensures var (t, r) := Close(s, p, fd).value;
      && r == 0 && t.fds[p][fd] == None && !t.os[s.fds[p][fd].k].inUse && DifferAt(s, t, p, fd, s.fds[p][fd].k)
      && Read(t, p, fd, n) == Fault
      && ((exists i :: 0 <= i < MAX_FILES && NameIs(t.files[i], path)) ==> 3 <= Open(t, p, path).1 <= fd)
  {
    hide NameIs;
    assert EntryOk(s, p, fd);
  }

  /** Closing a closed descriptor changes nothing and returns -1; closing one below 3 changes nothing and returns 0. */
  lemma CloseNothing(s: System, p: nat, fd: nat)
    requires p < SLOTS && fd < MAX_OPEN && (fd < 3 || s.fds[p][fd] == None)
    ensures Close(s, p, fd) == Go((s, if fd < 3 then 0 else 0xFFFF_FFFF))
  {
  }

  /** Exactly when an open fails: there is no such file, or all OsFiles are in use, or all descriptors from 3 on are. */
  lemma OpenFailsIff(s: System, p: nat, path: seq<Byte>)
    requires p < SLOTS
    ensures Open(s, p, path).1 == FAILED <==>
      || (forall i :: 0 <= i < MAX_FILES ==> !NameIs(s.files[i], path))
      || (forall k :: 0 <= k < MAX_OS_FILES ==> s.os[k].inUse)
      || (forall fd :: 3 <= fd < MAX_OPEN ==> s.fds[p][fd] != None)
  {
    hide NameIs;
  }

  /** Otherwise the lowest free descriptor from 3 on stands at the beginning of the first file of that name, with an OsFile
      that was not in use, and nothing else changed. */
  lemma OpenIs(s: System, p: nat, path: seq<Byte>)
    requires p < SLOTS && Open(s, p, path).1 != FAILED
    ensures var (t, fd) := Open(s, p, path);
      && 3 <= fd < MAX_OPEN && s.fds[p][fd] == None && (forall gd :: 3 <= gd < fd ==> s.fds[p][gd] != None)
      && t.fds[p][fd].At? && t.fds[p][fd].k < MAX_OS_FILES
      && var k := t.fds[p][fd].k;
      && !s.os[k].inUse && DifferAt(s, t, p, fd, k)
      && t.os[k].inUse && t.os[k].rwpos == 0 && t.os[k].file < MAX_FILES && NameIs(s.files[t.os[k].file], path)
      && forall i :: 0 <= i < t.os[k].file ==> !NameIs(s.files[i], path)
  {
    hide NameIs;
  }

  // ---- runs ----

  type Slot = p: nat | p < SLOTS

  datatype Event = OpenFile(p: Slot, path: seq<Byte>) | ReadFile(p: Slot, fd: nat, n: nat) | CloseFile(p: Slot, fd: nat)

  function Step(s: System, e: Event): Outcome<System> {
    match e
    case OpenFile(p, path) => Go(Open(s, p, path).0)
    case ReadFile(p, fd, n) => (var r :- Read(s, p, fd, n); Go(r.0))
    case CloseFile(p, fd) => (var r :- Close(s, p, fd); Go(r.0))
  }

  /** A descriptor behind the array, or a closed one that is read. */
  predicate BadFd(s: System, e: Event) {
    match e
    case OpenFile(p, path) => false
    case ReadFile(p, fd, n) => fd >= MAX_OPEN || (fd >= 3 && s.fds[p][fd] == None)
    case CloseFile(p, fd) => fd >= MAX_OPEN
  }

  lemma StepValid(s: System, e: Event)
    requires Valid(s)
    ensures !Step(s, e).Halt? && (Step(s, e).Fault? <==> BadFd(s, e))
    ensures Step(s, e).Go? ==> Valid(Step(s, e).value)
  {
    hide Valid, Open, Read, Close;
    match e
    case OpenFile(p, path) => OpenValid(s, p, path);
    case ReadFile(p, fd, n) => ReadValid(s, p, fd, n);
    case CloseFile(p, fd) => CloseValid(s, p, fd);
  }

  function Run(s: System, es: seq<Event>): Outcome<System>
    decreases |es|
  {
    if es == [] then Go(s)
    else
      var t :- Step(s, es[0]);
      Run(t, es[1..])
  }

  /** Some event of the run, before anything has gone wrong, has a bad descriptor. */
  predicate RunsBad(s: System, es: seq<Event>)
    decreases |es|
  {
    es != [] && (BadFd(s, es[0]) || (Step(s, es[0]).Go? && RunsBad(Step(s, es[0]).value, es[1..])))
  }

  /** Over every run of opens, reads and closes by any processes and with any descriptors: the run goes wrong exactly when
      it meets a bad descriptor, and up to there the descriptors of all slots lead to pairwise different OsFiles in use,
      whose positions lie within their files. */
  lemma {:induction false} RunValid(s: System, es: seq<Event>)
    requires Valid(s)
    ensures !Run(s, es).Halt? && (Run(s, es).Fault? <==> RunsBad(s, es))
    ensures Run(s, es).Go? ==> Valid(Run(s, es).value)
    decreases |es|
  {
    hide Valid, Step, BadFd;
    if es != [] {
      StepValid(s, es[0]);
      if Step(s, es[0]).Go? { RunValid(Step(s, es[0]).value, es[1..]); }
    }
  }

  /** All that a run reads through descriptor `fd` of slot `p`, up to the end or to where it goes wrong. */
  function ReadBy(s: System, es: seq<Event>, p: Slot, fd: nat): seq<Byte>
    decreases |es|
  {
    if es == [] || !Step(s, es[0]).Go? then []
    else Delivered(s, es[0], p, fd) + ReadBy(Step(s, es[0]).value, es[1..], p, fd)
  }

  /** What one event reads through it. */
  function Delivered(s: System, e: Event, p: Slot, fd: nat): seq<Byte> {
    if e.ReadFile? && e.p == p && e.fd == fd && Read(s, p, fd, e.n).Go? then Read(s, p, fd, e.n).value.1 else []
  }

  lemma StepKeepsHandle(s: System, e: Event, p: Slot, fd: nat)
    requires Valid(s) && Step(s, e).Go? && Opened(s, p, fd) && e != CloseFile(p, fd)
    ensures var t := Step(s, e).value;
      && t.files == s.files && Opened(t, p, fd) && Handle(t, p, fd).file == Handle(s, p, fd).file
      && Handle(t, p, fd).rwpos == Handle(s, p, fd).rwpos + |Delivered(s, e, p, fd)|
  {
    hide NameIs, Locate, FreeFile, FreeFd, ReadFrom;
    assert EntryOk(s, p, fd);
    if !e.OpenFile? && 3 <= e.fd < MAX_OPEN { assert Unshared(s, p, fd, e.p, e.fd); }
  }

  /** From position `a` to position `b` of the file that `fd` of slot `p` stands in. */
  function Stretch(s: System, p: Slot, fd: nat, a: nat, b: nat): seq<Byte>
    requires Opened(s, p, fd) && a <= b <= MAX_FILESIZE
  {
    s.files[Handle(s, p, fd).file].data[a..b]
  }

  /** How many bytes the run asks for through `fd` of slot `p`, up to the end or to where it goes wrong. */
  function Asked(s: System, es: seq<Event>, p: Slot, fd: nat): nat
    decreases |es|
  {
    if es == [] || !Step(s, es[0]).Go? then 0
    else (if es[0].ReadFile? && es[0].p == p && es[0].fd == fd then es[0].n else 0) + Asked(Step(s, es[0]).value, es[1..], p, fd)
  }

  /** While a descriptor stays open, whatever other processes and other descriptors do, what is read through it is the
      next stretch of its file: as many bytes as were asked for in all, or up to the end of the file. */
  lemma {:induction false} ReadsConcatenate(s: System, es: seq<Event>, p: Slot, fd: nat) returns (end: nat)
    requires Valid(s) && Opened(s, p, fd) && CloseFile(p, fd) !in es
    ensures Handle(s, p, fd).rwpos <= end <= s.files[Handle(s, p, fd).file].size <= MAX_FILESIZE
    ensures end == Least(Handle(s, p, fd).rwpos + Asked(s, es, p, fd), s.files[Handle(s, p, fd).file].size)
    ensures ReadBy(s, es, p, fd) == Stretch(s, p, fd, Handle(s, p, fd).rwpos, end)
    ensures Run(s, es).Go? ==>
      var t := Run(s, es).value;
      Opened(t, p, fd) && Handle(t, p, fd).file == Handle(s, p, fd).file && Handle(t, p, fd).rwpos == end
    decreases |es|
  {
    hide Valid, Step, Read, ReadFrom;
    PositionOk(s, p, fd);
    end := Handle(s, p, fd).rwpos;
    if es != [] && Step(s, es[0]).Go? {
      var e, t := es[0], Step(s, es[0]).value;
      StepValid(s, e);
      StepKeepsHandle(s, e, p, fd);
      end := ReadsConcatenate(t, es[1..], p, fd);
      PositionOk(t, p, fd);
      var a, m := Handle(s, p, fd).rwpos, Handle(t, p, fd).rwpos;
      DeliveredIs(s, e, p, fd);
      var data := s.files[Handle(s, p, fd).file].data;
      assert data[a..m] + data[m..end] == data[a..end];
    }
  }

  /** A run that asks for enough reads the whole rest of the file. */
  lemma ReadsToTheEnd(s: System, es: seq<Event>, p: Slot, fd: nat)
    requires Valid(s) && Opened(s, p, fd) && CloseFile(p, fd) !in es
    requires Handle(s, p, fd).rwpos + Asked(s, es, p, fd) >= s.files[Handle(s, p, fd).file].size
    ensures var o := Handle(s, p, fd);
      var f := s.files[o.file];
      o.rwpos <= f.size <= |f.data| && ReadBy(s, es, p, fd) == f.data[o.rwpos..f.size]
  {
    hide Valid, ReadBy, Asked, Run;
    PositionOk(s, p, fd);
    var end := ReadsConcatenate(s, es, p, fd);
  }

  lemma PositionOk(s: System, p: Slot, fd: nat)
    requires Valid(s) && Opened(s, p, fd)
    ensures var o := Handle(s, p, fd); o.rwpos <= s.files[o.file].size <= MAX_FILESIZE == |s.files[o.file].data|
  {
    assert EntryOk(s, p, fd);
  }

  lemma DeliveredIs(s: System, e: Event, p: Slot, fd: nat)
    requires Valid(s) && Opened(s, p, fd)
    ensures var o, bs := Handle(s, p, fd), Delivered(s, e, p, fd);
      && o.rwpos <= s.files[o.file].size <= |s.files[o.file].data|
      && |bs| == Least(if e.ReadFile? && e.p == p && e.fd == fd then e.n else 0, s.files[o.file].size - o.rwpos)
      && bs == s.files[o.file].data[o.rwpos..o.rwpos + |bs|]
  {
    hide Valid, Read;
    PositionOk(s, p, fd);
    if e.ReadFile? { ReadIs(s, p, fd, e.n); }
  }

  /** A descriptor just opened stands at the beginning of the file of that name. */
  lemma OpenedAtStart(s: System, p: Slot, path: seq<Byte>)
    requires Valid(s) && Open(s, p, path).1 != FAILED
    ensures var (t, fd) := Open(s, p, path);
      && Opened(t, p, fd) && Handle(t, p, fd).rwpos == 0 && s.fds[p][fd] == None
      && NameIs(s.files[Handle(t, p, fd).file], path) && t.files == s.files
  {
    hide NameIs;
  }

  /** Opening a file and reading it: a prefix of its bytes, as long as was asked for in all, or the whole file. */
  lemma ReadsArePrefix(s: System, p: Slot, path: seq<Byte>, es: seq<Event>)
    requires Valid(s) && Open(s, p, path).1 != FAILED && CloseFile(p, Open(s, p, path).1) !in es
    ensures var (t, fd) := Open(s, p, path);
      exists f :: 0 <= f < MAX_FILES && NameIs(s.files[f], path) && s.files[f].size <= |s.files[f].data|
        && ReadBy(t, es, p, fd) == s.files[f].data[..Least(Asked(t, es, p, fd), s.files[f].size)]
  {
    hide NameIs, Valid;
    OpenValid(s, p, path);
    OpenedAtStart(s, p, path);
    var (t, fd) := Open(s, p, path);
    hide Open;
    var end := ReadsConcatenate(t, es, p, fd);
    var f := Handle(t, p, fd).file;
    var d := s.files[f].data;
    assert d[0..end] == d[..end];
  }

  // ---- the empty path ----

  /** What loading leaves: a file is present exactly when its name is not empty. */
  ghost predicate Named(files: FileTable) {
    forall i :: 0 <= i < MAX_FILES ==> NamedAt(files[i])
  }

  predicate NamedAt(f: File)
    requires f.Shape()
  {
    f.present <==> f.name[0] != 0
  }

  lemma {:induction false} LoadNames(disk: seq<Sector>, files: FileTable, buffer: Sector, i: nat, s: nat)
    requires Named(files) && Load(disk, files, buffer, i, s).Go?
    ensures Named(Load(disk, files, buffer, i, s).value)
    decreases MAX_FILES - i
  {
    hide LoadData, Oct2Int;
    if i < MAX_FILES && s < |disk| {
      var header := ReadSector(disk, buffer, s);
      if header[0] != 0 {
        var (f, next) := LoadFile(disk, files[i], header, s).value;
        LoadNames(disk, files[i := f], header, i + 1, next);
      }
    }
  }

  lemma LoadedNames(disk: seq<Sector>, buffer: Sector)
    requires Load(disk, NoFiles(), buffer, 0, 0).Go?
    ensures Named(Load(disk, NoFiles(), buffer, 0, 0).value)
  {
    hide Load;
    LoadNames(disk, NoFiles(), buffer, 0, 0);
  }

  lemma {:induction false} LocateFirst(files: FileTable, path: seq<Byte>, k: nat, i: nat)
    requires k <= i < MAX_FILES && NameIs(files[i], path)
    ensures Locate(files, path, k) <= i
    decreases i - k
  {
    hide NameIs;
    if k < i && !NameIs(files[k], path) { LocateFirst(files, path, k + 1, i); }
  }

  lemma NameEmpty(f: File)
    requires f.Shape()
    ensures CString(f.name + f.data) == [] <==> f.name[0] == 0
  {
    assert (f.name + f.data)[0] == f.name[0];
  }

  /** Exactly when a file that does not exist is found: for the empty path, while a slot of the table is empty. */
  lemma AbsentFoundIff(files: FileTable, path: seq<Byte>)
    requires Named(files)
    ensures (Locate(files, path, 0) != FAILED && !files[Locate(files, path, 0)].present) <==>
      CString(path) == [] && exists i :: 0 <= i < MAX_FILES && !files[i].present
  {
    hide CString, Locate;
    var r := Locate(files, path, 0);
    if r != FAILED {
      assert NamedAt(files[r]);
      NameEmpty(files[r]);
    }
    if CString(path) == [] && exists i :: 0 <= i < MAX_FILES && !files[i].present {
      var i :| 0 <= i < MAX_FILES && !files[i].present;
      assert NamedAt(files[i]);
      NameEmpty(files[i]);
      LocateFirst(files, path, 0, i);
    }
  }

  // ---- OsFiles that are lost ----

  ghost predicate Reached(s: System, k: nat) {
    exists p, fd :: 0 <= p < SLOTS && 0 <= fd < MAX_OPEN && s.fds[p][fd] == At(k)
  }

  /** Every OsFile in use belongs to a descriptor. */
  ghost predicate NoneLost(s: System) {
    forall k :: 0 <= k < MAX_OS_FILES && s.os[k].inUse ==> Reached(s, k)
  }

  /** An open that gets an OsFile but no descriptor. */
  predicate OpensInVain(s: System, p: nat, path: seq<Byte>)
    requires p < SLOTS
  {
    Locate(s.files, path, 0) != FAILED && FreeFile(s.os, 0) < MAX_OS_FILES && FreeFd(s.fds[p], 3) == MAX_OPEN
  }

  lemma ReachedBy(s: System, p: nat, fd: nat, k: nat)
    requires p < SLOTS && fd < MAX_OPEN && s.fds[p][fd] == At(k)
    ensures Reached(s, k)
  {
  }

  /** The first OsFile of an open in vain is lost: in use, and no descriptor leads to it. */
  lemma OpenLoses(s: System, p: nat, path: seq<Byte>)
    requires Valid(s) && p < SLOTS && OpensInVain(s, p, path)
    ensures var k, t := FreeFile(s.os, 0), Open(s, p, path).0;
      Open(s, p, path).1 == FAILED && t.os[k].inUse && !Reached(t, k)
  {
    hide NameIs, Locate, FreeFile, FreeFd;
    var k := FreeFile(s.os, 0);
    forall q, fd | 0 <= q < SLOTS && 0 <= fd < MAX_OPEN ensures s.fds[q][fd] != At(k) { assert EntryOk(s, q, fd); }
  }

  /** Exactly which steps lose an OsFile: an open for which there is a file and an OsFile but no descriptor. */
  lemma StepLosesIff(s: System, e: Event)
    requires Valid(s) && NoneLost(s) && Step(s, e).Go?
    ensures NoneLost(Step(s, e).value) <==> !(e.OpenFile? && OpensInVain(s, e.p, e.path))
  {
    hide NameIs, Locate, FreeFile, FreeFd, ReadFrom;
    var t := Step(s, e).value;
    if e.OpenFile? && OpensInVain(s, e.p, e.path) {
      OpenLoses(s, e.p, e.path);
    } else {
      forall k | 0 <= k < MAX_OS_FILES && t.os[k].inUse ensures Reached(t, k) {
        if s.os[k].inUse {
          var p, fd :| 0 <= p < SLOTS && 0 <= fd < MAX_OPEN && s.fds[p][fd] == At(k);
          ReachedBy(t, p, fd, k);
        } else {
          ReachedBy(t, e.p, FreeFd(s.fds[e.p], 3), k);
        }
      }
    }
  }

  lemma StepKeepsLost(s: System, e: Event, k: nat)
    requires Valid(s) && Step(s, e).Go? && k < MAX_OS_FILES && s.os[k].inUse && !Reached(s, k)
    ensures Step(s, e).value.os[k].inUse && !Reached(Step(s, e).value, k)
  {
    hide NameIs, Locate, FreeFile, FreeFd, ReadFrom;
    var t := Step(s, e).value;
    assert forall p, fd :: 0 <= p < SLOTS && 0 <= fd < MAX_OPEN ==> s.fds[p][fd] != At(k);
  }

  /** An OsFile once lost stays in use, and without a descriptor, over every run. */
  lemma {:induction false} LostForever(s: System, es: seq<Event>, k: nat)
    requires Valid(s) && k < MAX_OS_FILES && s.os[k].inUse && !Reached(s, k) && Run(s, es).Go?
    ensures Run(s, es).value.os[k].inUse && !Reached(Run(s, es).value, k)
    decreases |es|
  {
    hide Valid, Step, Reached;
    if es != [] {
      StepValid(s, es[0]);
      StepKeepsLost(s, es[0], k);
      LostForever(Step(s, es[0]).value, es[1..], k);
    }
  }

  /** The tables at boot, once the files have been loaded. */
  function Fresh(files: FileTable): System {
    System(files, seq<OsFile>(MAX_OS_FILES, _ => OsFile(false, 0, 0)), seq<Fds>(SLOTS, _ => seq<Entry>(MAX_OPEN, _ => None)))
  }

  lemma FreshValid(files: FileTable)
    requires SizesOk(files)
    ensures Valid(Fresh(files)) && NoneLost(Fresh(files))
  {
  }
}
