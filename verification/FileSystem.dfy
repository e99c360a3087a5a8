/**
 filesystem.c and the descriptor functions of kproc.c as they run, with the file
 table, the open files and the descriptors updated in place. Every method is
 proved against the function that specifies it.
 */
module FileSystemImpl {
  import opened Bytes
  import opened Pages
  import opened Ustar
  import opened OpenFiles

  class FileSystem {
    const disk: seq<Sector>
    var buffer: Sector
    var files: FileTable
    var os: OsTable
    var fds: FdTable

    constructor (disk: seq<Sector>)
      ensures this.disk == disk && files == NoFiles() && buffer == seq<Byte>(SECTOR, _ => 0) && Valid(Now()) &&
        fresh(this)
    {
      this.disk := disk;
      buffer := seq<Byte>(SECTOR, _ => 0);
      files := NoFiles();
      os := seq<OsFile>(MAX_OS_FILES, _ => OsFile(false, 0, 0));
      fds := seq<Fds>(SLOTS, _ => seq<OpenFiles.Entry>(MAX_OPEN, _ => None));
    }

    ghost function Now(): System
      reads this
    {
      System(files, os, fds)
    }

    /** oct2int. */
    static method OctToInt(oct: seq<Byte>, len: nat) returns (result: nat)
      requires len <= |oct|
      ensures result == Oct2Int(oct, len)
    {
      result := 0;
      for i := 0 to len
        invariant result == Oct2Int(oct, i)
      {
        result := (result * 8 + oct[i] - 48) % 0x1_0000_0000;
      }
    }

    /** filesystem_init; not ok is the panic for a file that is too big. */
    method Init() returns (ok: bool)
      requires SizesOk(files)
      modifies this
      ensures os == old(os) && fds == old(fds)
      ensures var r := Load(disk, old(files), old(buffer), 0, 0);
        && r != Fault && (ok <==> r.Go?) && (ok ==> r == Go(files) && SizesOk(files))
    {
      hide LoadFile, SizesOk;
      ghost var spec := Load(disk, files, buffer, 0, 0);
      LoadSafe(disk, files, buffer, 0, 0);
      var sector: nat, i := 0, 0;
      while i < MAX_FILES && sector < |disk|
        invariant i <= MAX_FILES && SizesOk(files) && os == old(os) && fds == old(fds)
        invariant Load(disk, files, buffer, i, sector) == spec
        decreases MAX_FILES - i
      {
        LoadSafe(disk, files, buffer, i, sector);
        var header := ReadSector(disk, buffer, sector);
        if header[0] == 0 {
          buffer := header;
          break;
        }
        ghost var f := files[i];
        var next;
        ok, next := LoadOne(i, header, sector);
        if !ok { return; }
        buffer := header;
        LoadSizes(disk, f, header, sector);
        sector := next;
        i := i + 1;
      }
      ok := true;
    }

    /** One file of the archive: the fields of its header, then its data sector by sector. */
    method LoadOne(i: nat, header: Sector, sector: nat) returns (ok: bool, next: nat)
      requires i < MAX_FILES && SizesOk(files)
      modifies this`files
      ensures var r := LoadFile(disk, old(files[i]), header, sector);
        && r != Fault && (ok <==> r.Go?)
        && (ok ==> files == old(files)[i := r.value.0] && next == r.value.1 && SizesOk(files))
    {
      hide Oct2Int, DataSector;
      var size := OctToInt(header[SIZE_AT..], SIZE_DIGITS);
      var slot := files[i];
      next := sector;
      DataSafe(disk, slot.data, size, sector + 1, 0);
      ghost var spec := LoadData(disk, slot.data, size, sector + 1, 0);
      var data := slot.data;
      var copiedData, copiedSectors := 0, 0;
      next := next + 1;
      while copiedData < size
        invariant copiedData == SECTOR * copiedSectors && next == sector + 1 + copiedSectors && |data| == MAX_FILESIZE
        invariant copiedSectors <= SECTORS_PER_FILE && (copiedSectors == SECTORS_PER_FILE ==> size <= MAX_FILESIZE)
        invariant LoadData(disk, data, size, next, copiedSectors) == spec
        decreases SECTORS_PER_FILE - copiedSectors
      {
        data := DataSector(disk, data, copiedSectors, next);
        next := next + 1;
        copiedSectors := copiedSectors + 1;
        copiedData := copiedData + SECTOR;
        if copiedSectors == SECTORS_PER_FILE && copiedData < size { return false, next; }
      }
      files := files[i := File(true, header[..NAME], data, size)];
      ok := true;
    }

    /** filesystem_locate_file. */
    method LocateFile(path: seq<Byte>) returns (r: nat)
      ensures r == Locate(files, path, 0)
    {
      hide NameIs;
      var i := 0;
      while i < MAX_FILES
        invariant i <= MAX_FILES && Locate(files, path, i) == Locate(files, path, 0)
      {
        if NameIs(files[i], path) { return i; }
        i := i + 1;
      }
      r := FAILED;
    }

    /** kproc_file_add for the process in slot `p`. */
    method FileAdd(p: nat, k: nat) returns (r: nat)
      requires p < SLOTS
      modifies this`fds
      ensures var fd := FreeFd(old(fds)[p], 3);
        && r == (if fd == MAX_OPEN then FAILED else fd)
        && fds == if fd == MAX_OPEN then old(fds) else old(fds)[p := old(fds)[p][fd := At(k)]]
    {
      var fd := 3;
      while fd < MAX_OPEN
        invariant 3 <= fd <= MAX_OPEN && fds == old(fds) && FreeFd(fds[p], fd) == FreeFd(fds[p], 3)
      {
        if fds[p][fd] == None {
          fds := fds[p := fds[p][fd := At(k)]];
          return fd;
        }
        fd := fd + 1;
      }
      r := FAILED;
    }

    /** filesystem_file_open. */
    method FileOpen(p: nat, path: seq<Byte>) returns (fd: nat)
      requires p < SLOTS
      modifies this
      ensures (Now(), fd) == Open(old(Now()), p, path) && buffer == old(buffer)
    {
      hide NameIs, Locate;
      var file := LocateFile(path);
      if file == FAILED { return FAILED; }
      var k := 0;
      while k < MAX_OS_FILES && os[k].inUse
        invariant k <= MAX_OS_FILES && FreeFile(os, k) == FreeFile(os, 0)
      {
        k := k + 1;
      }
      if k >= MAX_OS_FILES { return FAILED; }
      os := os[k := OsFile(true, 0, file)];
      fd := FileAdd(p, k);
    }

    /** ksys_read for anything but the terminal. The caller answers for the descriptor, which nothing checks. */
    method FileRead(p: nat, fd: nat, size: nat) returns (buf: seq<Byte>)
      requires Valid(Now()) && p < SLOTS && (fd < 3 || (fd < MAX_OPEN && fds[p][fd] != None))
      modifies this
      ensures Read(old(Now()), p, fd, size) == Go((Now(), buf)) && Valid(Now()) && buffer == old(buffer)
    {
      hide ReadFrom, Valid;
      ReadValid(Now(), p, fd, size);
      if fd < 3 { return []; }
      var k := fds[p][fd].k;
      var f := files[os[k].file];
      var cursor := os[k].rwpos;
      ghost var pos := cursor;
      buf := [];
      assert [] + ReadFrom(f, pos, size) == ReadFrom(f, pos, size);
      while |buf| < size && cursor < f.size
        invariant |buf| <= size && cursor == pos + |buf| && Now() == old(Now()) && buffer == old(buffer)
        invariant buf + ReadFrom(f, cursor, size - |buf|) == ReadFrom(f, pos, size)
        decreases size - |buf|
      {
        ReadUnfold(f, cursor, size - |buf|, buf);
        buf := buf + [f.data[cursor]];
        cursor := cursor + 1;
      }
      ReadEnd(f, cursor, size - |buf|);
      assert buf + [] == buf;
      os := os[k := os[k].(rwpos := cursor)];
    }

    /** kproc_file_remove. */
    method FileRemove(p: nat, fd: nat) returns (ok: bool)
      requires p < SLOTS && fd < MAX_OPEN
      modifies this`fds
      ensures ok <==> old(fds)[p][fd] != None
      ensures fds == if ok then old(fds)[p := old(fds)[p][fd := None]] else old(fds)
    {
      if fds[p][fd] == None { return false; }
      fds := fds[p := fds[p][fd := None]];
      ok := true;
    }

    /** filesystem_file_close. */
    method FileClose(p: nat, fd: nat) returns (r: nat)
      requires Valid(Now()) && p < SLOTS && fd < MAX_OPEN
      modifies this
      ensures Close(old(Now()), p, fd) == Go((Now(), r)) && Valid(Now()) && buffer == old(buffer)
    {
      hide Valid;
      ghost var s := Now();
      CloseValid(s, p, fd);
      if fd < 3 { return 0; }
      EntryInTable(Now(), p, fd);
      var handle := fds[p][fd];
      var ok := FileRemove(p, fd);
      if !ok { return FAILED; }
      os := os[handle.k := OsFile(false, 0, FAILED)];
      assert Now() == Close(s, p, fd).value.0;
      r := 0;
    }
  }

  lemma EntryInTable(s: System, p: nat, fd: nat)
    requires Valid(s) && p < SLOTS && fd < MAX_OPEN
    ensures s.fds[p][fd].At? ==> s.fds[p][fd].k < MAX_OS_FILES
  {
    assert OpenFiles.EntryOk(s, p, fd);
  }

  lemma LoadSizes(disk: seq<Sector>, f: File, header: Sector, s: nat)
    requires f.Shape() && LoadFile(disk, f, header, s).Go?
    ensures LoadFile(disk, f, header, s).value.0.Shape()
  {
    DataSafe(disk, f.data, Oct2Int(header[SIZE_AT..], SIZE_DIGITS), s + 1, 0);
    hide LoadData, Oct2Int;
  }

  lemma ReadUnfold(f: File, pos: nat, n: nat, done: seq<Byte>)
    requires f.Shape() && f.size <= MAX_FILESIZE && n > 0 && pos < f.size
    ensures done + ReadFrom(f, pos, n) == done + [f.data[pos]] + ReadFrom(f, pos + 1, n - 1)
  {
    assert done + ([f.data[pos]] + ReadFrom(f, pos + 1, n - 1)) == done + [f.data[pos]] + ReadFrom(f, pos + 1, n - 1);
  }

  lemma ReadEnd(f: File, pos: nat, n: nat)
    requires f.Shape() && f.size <= MAX_FILESIZE && (n == 0 || pos >= f.size)
    ensures ReadFrom(f, pos, n) == []
  {
  }
}
