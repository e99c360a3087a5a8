/**
 What system calls reach besides memory and processes: the files with the
 descriptors of all slots, and the terminal.
 */
module Devices {
  import opened Sv32
  import opened Bytes
  import opened Pages
  import Ustar
  import OpenFiles
  import Tty

  type TtyRing = r: Tty.Ring | r.Shape() witness Tty.Ring(seq<Byte>(Tty.SIZE, _ => 0), 0, 0, 0, true, false)

  datatype Io = Io(files: OpenFiles.System, tty: TtyRing)

  /** Nothing open yet, and nothing typed. */
  function FreshIo(files: Ustar.FileTable): Io {
    Io(OpenFiles.Fresh(files), Tty.Ring(seq<Byte>(Tty.SIZE, _ => 0), 0, 0, 0, true, false))
  }

  /** ksys_read for the process in slot `p`: descriptor 0 is the terminal. */
  function ReadFd(io: Io, p: nat, fd: Word, n: Word): (r: Outcome<(Io, seq<Byte>)>)
    requires p < OpenFiles.SLOTS
    ensures r.Go? ==> |r.value.1| <= n
  {
    Tty.ReadShape(io.tty, n, 0);
    if fd == 0 then Go((Io(io.files, Tty.ReadStep(io.tty, n)), Tty.Read(io.tty, n).1))
    else
      var (files, bs) :- OpenFiles.Read(io.files, p, fd, n);
      Go((Io(files, io.tty), bs))
  }

  /** ksys_open. */
  function OpenPath(io: Io, p: nat, path: seq<Byte>): (Io, Word)
    requires p < OpenFiles.SLOTS
  {
    var (files, fd) := OpenFiles.Open(io.files, p, path);
    (Io(files, io.tty), fd)
  }

  /** ksys_close. */
  function CloseFd(io: Io, p: nat, fd: Word): Outcome<(Io, Word)>
    requires p < OpenFiles.SLOTS
  {
    var (files, w) :- OpenFiles.Close(io.files, p, fd);
    Go((Io(files, io.tty), w))
  }

  /** filesystem_get_filedata: the data array of the first file of that name. */
  function Found(io: Io, path: seq<Byte>): Option<seq<Byte>> {
    var i := OpenFiles.Locate(io.files.files, path, 0);
    if i == OpenFiles.FAILED then None else Some(io.files.files[i].data)
  }

  /** UartInterruptHandle: all characters received go to the terminal, in order. */
  function Typed(io: Io, keys: seq<Byte>): Io
    decreases |keys|
  {
    if keys == [] then io else Typed(Io(io.files, Tty.Step(io.tty, Tty.Key(keys[0])).0), keys[1..])
  }

  ghost predicate IoOk(io: Io) { OpenFiles.Valid(io.files) }

  /** A descriptor the file calls can handle: within the array of the process and, to be read from, open. */
  predicate CanRead(io: Io, p: nat, fd: Word)
    requires p < OpenFiles.SLOTS
  {
    fd < 3 || (fd < OpenFiles.MAX_OPEN && io.files.fds[p][fd] != OpenFiles.None)
  }

  /** A read goes wrong exactly if the descriptor cannot be handled. */
  lemma ReadFdOk(io: Io, p: nat, fd: Word, n: Word)
    requires IoOk(io) && p < OpenFiles.SLOTS
    ensures !ReadFd(io, p, fd, n).Halt? && (ReadFd(io, p, fd, n).Fault? <==> !CanRead(io, p, fd))
    ensures ReadFd(io, p, fd, n).Go? ==> IoOk(ReadFd(io, p, fd, n).value.0)
  {
    hide OpenFiles.Valid, OpenFiles.Read;
    OpenFiles.ReadValid(io.files, p, fd, n);
  }

  lemma OpenPathOk(io: Io, p: nat, path: seq<Byte>)
    requires IoOk(io) && p < OpenFiles.SLOTS
    ensures IoOk(OpenPath(io, p, path).0)
  {
    hide OpenFiles.Valid, OpenFiles.Open;
    OpenFiles.OpenValid(io.files, p, path);
  }

  /** A close goes wrong exactly for a descriptor behind the array. */
  lemma CloseFdOk(io: Io, p: nat, fd: Word)
    requires IoOk(io) && p < OpenFiles.SLOTS
    ensures !CloseFd(io, p, fd).Halt? && (CloseFd(io, p, fd).Fault? <==> fd >= OpenFiles.MAX_OPEN)
    ensures CloseFd(io, p, fd).Go? ==> IoOk(CloseFd(io, p, fd).value.0)
  {
    hide OpenFiles.Valid;
    OpenFiles.CloseValid(io.files, p, fd);
  }

  lemma {:induction false} TypedOk(io: Io, keys: seq<Byte>)
    ensures Typed(io, keys).files == io.files
    decreases |keys|
  {
    hide Tty.Step;
    if keys != [] { TypedOk(Io(io.files, Tty.Step(io.tty, Tty.Key(keys[0])).0), keys[1..]); }
  }
}
