/**
 The loader of filesystem.c: it reads a ustar archive from the disk into a table
 of at most twelve files. Section "ustar Interchange Format" of the pax utility,
 POSIX.1.
 */
module Ustar {
  import opened Bytes
  import opened Pages

  const SECTOR: nat := 512
  const MAX_FILES: nat := 12
  const MAX_FILESIZE: nat := 4096 * 1024
  const SECTORS_PER_FILE: nat := MAX_FILESIZE / SECTOR
  const NAME: nat := 100
  // Where a header holds the size, and how many digits are read.
  const SIZE_AT: nat := 124
  const SIZE_DIGITS: nat := 11

  type Sector = s: seq<Byte> | |s| == 512 witness seq(512, _ => 0)

  datatype File = File(present: bool, name: seq<Byte>, data: seq<Byte>, size: nat) {
    predicate Shape() { |name| == NAME && |data| == MAX_FILESIZE }
  }

  type FileTable = t: seq<File> | |t| == MAX_FILES && forall i :: 0 <= i < |t| ==> t[i].Shape() witness NoFiles()

  /** The table before anything is loaded. */
  function NoFiles(): (t: seq<File>)
    ensures |t| == MAX_FILES && forall i :: 0 <= i < |t| ==>
      t[i].Shape() && !t[i].present && t[i].size == 0 && t[i].name[0] == 0
  {
    seq<File>(MAX_FILES, _ => File(false, seq<Byte>(NAME, _ => 0), seq<Byte>(MAX_FILESIZE, _ => 0), 0))
  }

  /** oct2int with the wrap-around of 32-bit arithmetic. */
  function Oct2Int(oct: seq<Byte>, n: nat): (v: nat)
    requires n <= |oct|
    ensures v < 0x1_0000_0000
  {
    if n == 0 then 0 else (Oct2Int(oct, n - 1) * 8 + oct[n - 1] - 48) % 0x1_0000_0000
  }

  /** A sector of the disk into a buffer; out of range nothing arrives. Sector numbers are 32-bit words. */
  function ReadSector(disk: seq<Sector>, buffer: Sector, s: nat): Sector {
    if s % 0x1_0000_0000 < |disk| then disk[s % 0x1_0000_0000] else buffer
  }

  /** The sector stored at its place in the file's data. */
  function WriteAt(data: seq<Byte>, k: nat, s: Sector): (r: seq<Byte>)
    requires SECTOR * k + SECTOR <= |data|
    ensures |r| == |data|
  {
    data[..SECTOR * k] + s + data[SECTOR * k + SECTOR..]
  }

  function DataSector(disk: seq<Sector>, data: seq<Byte>, k: nat, s: nat): (r: seq<Byte>)
    requires SECTOR * k + SECTOR <= |data|
    ensures |r| == |data|
  {
    WriteAt(data, k, ReadSector(disk, data[SECTOR * k..SECTOR * k + SECTOR], s))
  }

  /** The data of one file, from its `k`-th sector on; a store behind the array is a fault. */
  function LoadData(disk: seq<Sector>, data: seq<Byte>, size: nat, s: nat, k: nat): Outcome<(seq<Byte>, nat)>
    decreases |data| - SECTOR * k
  {
    if SECTOR * k >= size then Go((data, s))
    else if SECTOR * k + SECTOR > |data| then Fault
    else if k + 1 == SECTORS_PER_FILE && SECTOR * (k + 1) < size then Halt
    else LoadData(disk, DataSector(disk, data, k, s), size, s + 1, k + 1)
  }

  /** The header in the buffer and the data behind it become file `i`. */
  function LoadFile(disk: seq<Sector>, slot: File, header: Sector, s: nat): Outcome<(File, nat)> {
    var size := Oct2Int(header[SIZE_AT..], SIZE_DIGITS);
    var (data, next) :- LoadData(disk, slot.data, size, s + 1, 0);
    Go((File(true, header[..NAME], data, size), next))
  }

  /** The loop of filesystem_init from file `i` and sector `s` on. */
  function Load(disk: seq<Sector>, files: FileTable, buffer: Sector, i: nat, s: nat): Outcome<FileTable>
    decreases MAX_FILES - i
  {
    if i >= MAX_FILES || s >= |disk| then Go(files)
    else
      var header := ReadSector(disk, buffer, s);
      if header[0] == 0 then Go(files)
      else
        var (f, next) :- LoadFile(disk, files[i], header, s);
        if !f.Shape() then Fault else Load(disk, files[i := f], header, i + 1, next)
  }

  // ---- safety, for any disk ----

  lemma {:induction false} DataSafe(disk: seq<Sector>, data: seq<Byte>, size: nat, s: nat, k: nat)
    requires |data| == MAX_FILESIZE && k <= SECTORS_PER_FILE && (k == SECTORS_PER_FILE ==> size <= MAX_FILESIZE)
    ensures LoadData(disk, data, size, s, k) != Fault
    ensures LoadData(disk, data, size, s, k).Go? ==>
      |LoadData(disk, data, size, s, k).value.0| == MAX_FILESIZE && size <= MAX_FILESIZE
    decreases SECTORS_PER_FILE - k
  {
    hide DataSector;
    if SECTOR * k < size && !(k + 1 == SECTORS_PER_FILE && SECTOR * (k + 1) < size) {
      DataSafe(disk, DataSector(disk, data, k, s), size, s + 1, k + 1);
    }
  }

  /** Every file of the table is no longer than its array. */
  ghost predicate SizesOk(files: FileTable) {
    forall i :: 0 <= i < MAX_FILES ==> files[i].size <= MAX_FILESIZE
  }

  /** Whatever is on the disk, loading halts or stays inside every array, and leaves no size that is too large. */
  lemma {:induction false} LoadSafe(disk: seq<Sector>, files: FileTable, buffer: Sector, i: nat, s: nat)
    requires SizesOk(files)
    ensures Load(disk, files, buffer, i, s) != Fault
    ensures Load(disk, files, buffer, i, s).Go? ==> SizesOk(Load(disk, files, buffer, i, s).value)
    decreases MAX_FILES - i
  {
    hide LoadData, Oct2Int;
    if i < MAX_FILES && s < |disk| {
      var header := ReadSector(disk, buffer, s);
      if header[0] != 0 {
        var size := Oct2Int(header[SIZE_AT..], SIZE_DIGITS);
        DataSafe(disk, files[i].data, size, s + 1, 0);
        if LoadFile(disk, files[i], header, s).Go? {
          var (f, next) := LoadFile(disk, files[i], header, s).value;
          LoadSafe(disk, files[i := f], header, i + 1, next);
        }
      }
    }
  }

  /** Exactly when a size is refused: when it is larger than the array. */
  lemma {:induction false} DataHalts(disk: seq<Sector>, data: seq<Byte>, size: nat, s: nat, k: nat)
    requires |data| == MAX_FILESIZE && k < SECTORS_PER_FILE
    ensures LoadData(disk, data, size, s, k).Halt? <==> size > MAX_FILESIZE
    decreases SECTORS_PER_FILE - k
  {
    hide DataSector;
    if SECTOR * k < size &&
      k + 1 < SECTORS_PER_FILE { DataHalts(disk, DataSector(disk, data, k, s), size, s + 1, k + 1); }
  }

  // ---- archives ----

  /** A file as the archive's author sees it. */
  datatype Entry = Entry(name: seq<Byte>, data: seq<Byte>)

  predicate EntryOk(e: Entry) {
    1 <= |e.name| <= NAME && 0 !in e.name && |e.data| <= MAX_FILESIZE
  }

  /** `n` octal digits. */
  function Octal(v: nat, n: nat): (s: seq<Byte>)
    ensures |s| == n
  {
    if n == 0 then [] else Octal(v / 8, n - 1) + [48 + v % 8]
  }

  function Sectors(size: nat): nat { (size + SECTOR - 1) / SECTOR }

  function Padded(bs: seq<Byte>, n: nat): (p: seq<Byte>)
    ensures |p| == n && forall k :: 0 <= k < n ==> p[k] == Get(bs, k)
  {
    seq<Byte>(n, k requires 0 <= k < n => Get(bs, k))
  }

  /** A header sector that says what `e` is; what it says besides does not matter. */
  predicate IsHeader(s: Sector, e: Entry) {
    s[..NAME] == Padded(e.name, NAME) && s[SIZE_AT..SIZE_AT + SIZE_DIGITS] == Octal(|e.data|, SIZE_DIGITS)
  }

  ghost predicate ByteAt(disk: seq<Sector>, s: nat, k: nat, b: Byte) {
    s + k / SECTOR < |disk| && disk[s + k / SECTOR][k % SECTOR] == b
  }

  /** From sector `s` on the disk is an archive of `entries`: for each a header and its data, padded to whole sectors;
      then a sector that begins with a zero byte, or the end of the disk. */
  ghost predicate Archive(disk: seq<Sector>, s: nat, entries: seq<Entry>)
    decreases |entries|
  {
    if entries == [] then s >= |disk| || disk[s][0] == 0
    else
      && EntryOk(entries[0]) && s + Sectors(|entries[0].data|) < |disk| < 0x1_0000_0000
      && IsHeader(disk[s], entries[0])
      && (forall k :: 0 <= k < |entries[0].data| ==> ByteAt(disk, s + 1, k, entries[0].data[k]))
      && Archive(disk, s + 1 + Sectors(|entries[0].data|), entries[1..])
  }

  lemma {:induction false} OctalValue(v: nat, n: nat, oct: seq<Byte>)
    requires n <= |oct| && oct[..n] == Octal(v, n) && v < 0x1_0000_0000 && v < Power8(n)
    ensures Oct2Int(oct, n) == v
  {
    if n > 0 {
      assert oct[..n - 1] == Octal(v / 8, n - 1) && oct[n - 1] == 48 + v % 8 by {
        assert oct[..n][..n - 1] == oct[..n - 1];
        assert oct[n - 1] == oct[..n][n - 1];
      }
      OctalValue(v / 8, n - 1, oct);
    }
  }

  function Power8(n: nat): nat { if n == 0 then 1 else 8 * Power8(n - 1) }

  lemma SizeField(e: Entry, s: Sector)
    requires EntryOk(e) && IsHeader(s, e)
    ensures Oct2Int(s[SIZE_AT..], SIZE_DIGITS) == |e.data|
  {
    hide Octal, Oct2Int;
    assert s[SIZE_AT..][..SIZE_DIGITS] == s[SIZE_AT..SIZE_AT + SIZE_DIGITS];
    Power8Eleven();
    OctalValue(|e.data|, SIZE_DIGITS, s[SIZE_AT..]);
  }

  lemma Power8Eleven()
    ensures Power8(11) >= 0x1_0000_0000
  {
    assert Power8(5) == 32768;
    assert Power8(11) == 8 * (8 * (8 * (8 * (8 * (8 * Power8(5))))));
  }

  /** The data so far agrees with the file up to byte `n`. */
  ghost predicate Agrees(data: seq<Byte>, e: Entry, n: nat) {
    |data| == MAX_FILESIZE && forall j :: 0 <= j < n && j < |e.data| && j < |data| ==> data[j] == e.data[j]
  }

  lemma SectorAgrees(disk: seq<Sector>, data: seq<Byte>, e: Entry, s: nat, k: nat)
    requires EntryOk(e) && SECTOR * k < |e.data| && Agrees(data, e, SECTOR * k)
    requires s + Sectors(|e.data|) <= |disk| < 0x1_0000_0000
    requires forall j :: 0 <= j < |e.data| ==> ByteAt(disk, s, j, e.data[j])
    ensures Agrees(DataSector(disk, data, k, s + k), e, SECTOR * (k + 1))
    ensures s + k < |disk|
  {
    var d := DataSector(disk, data, k, s + k);
    forall j | 0 <= j < SECTOR * (k + 1) && j < |e.data| ensures d[j] == e.data[j] {
      if j >= SECTOR * k {
        assert ByteAt(disk, s, j, e.data[j]);
        assert j / SECTOR == k && j % SECTOR == j - SECTOR * k;
      }
    }
  }

  lemma {:induction false} DataLoaded(disk: seq<Sector>, data: seq<Byte>, e: Entry, s: nat, k: nat)
    requires EntryOk(e) && k <= Sectors(|e.data|) && Agrees(data, e, SECTOR * k)
    requires s + Sectors(|e.data|) <= |disk| < 0x1_0000_0000
    requires forall j :: 0 <= j < |e.data| ==> ByteAt(disk, s, j, e.data[j])
    ensures var r := LoadData(disk, data, |e.data|, s + k, k);
      && r.Go? && r.value.1 == s + Sectors(|e.data|) && Agrees(r.value.0, e, |e.data|)
    decreases Sectors(|e.data|) - k
  {
    hide DataSector, ByteAt, Agrees;
    if SECTOR * k < |e.data| {
      SectorAgrees(disk, data, e, s, k);
      assert |data| == MAX_FILESIZE by { AgreesSize(data, e, SECTOR * k); }
      DataLoaded(disk, DataSector(disk, data, k, s + k), e, s, k + 1);
    } else {
      AgreesAll(data, e, SECTOR * k);
    }
  }

  lemma AgreesSize(data: seq<Byte>, e: Entry, n: nat)
    requires Agrees(data, e, n)
    ensures |data| == MAX_FILESIZE
  {
  }

  lemma AgreesAll(data: seq<Byte>, e: Entry, n: nat)
    requires Agrees(data, e, n) && n >= |e.data|
    ensures Agrees(data, e, |e.data|)
  {
  }

  /** The table's file is the archive's: name, size and every byte. */
  ghost predicate Holds(f: File, e: Entry) {
    && f.Shape() && f.present && f.size == |e.data| <= MAX_FILESIZE && f.name == Padded(e.name, NAME)
    && f.data[..f.size] == e.data
  }

  lemma FileLoaded(disk: seq<Sector>, slot: File, e: Entry, s: nat)
    requires slot.Shape() && EntryOk(e) && s + Sectors(|e.data|) < |disk| < 0x1_0000_0000 && IsHeader(disk[s], e)
    requires forall j :: 0 <= j < |e.data| ==> ByteAt(disk, s + 1, j, e.data[j])
    ensures LoadFile(disk, slot, disk[s], s).Go?
    ensures var (f, next) := LoadFile(disk, slot, disk[s], s).value; Holds(f, e) && next == s + 1 + Sectors(|e.data|)
    ensures disk[s][0] != 0
  {
    hide LoadData, Oct2Int, Octal, ByteAt;
    SizeField(e, disk[s]);
    DataLoaded(disk, slot.data, e, s + 1, 0);
    assert disk[s][0] == disk[s][..NAME][0] == e.name[0];
    assert e.name[0] in e.name;
    var d := LoadData(disk, slot.data, |e.data|, s + 1, 0).value.0;
    assert d[..|e.data|] == e.data;
  }

  /** Loading inverts the layout: the table holds exactly the archive's files, in order, and nothing else changed. */
  lemma {:induction false} LoadInverts(disk: seq<Sector>, files: FileTable, buffer: Sector, i: nat, s: nat, entries: seq<Entry>)
    requires Archive(disk, s, entries) && i + |entries| <= MAX_FILES && |disk| < 0x1_0000_0000
    ensures Load(disk, files, buffer, i, s).Go?
    ensures var t := Load(disk, files, buffer, i, s).value;
      && (forall j :: 0 <= j < |entries| ==> Holds(t[i + j], entries[j]))
      && forall j :: 0 <= j < MAX_FILES && !(i <= j < i + |entries|) ==> t[j] == files[j]
    decreases |entries|
  {
    hide LoadFile, Holds, Archive, IsHeader;
    ArchiveStep(disk, s, entries);
    if entries != [] {
      var e := entries[0];
      FileLoaded(disk, files[i], e, s);
      var (f, next) := LoadFile(disk, files[i], disk[s], s).value;
      assert f.Shape() by { HoldsShape(f, e); }
      LoadInverts(disk, files[i := f], disk[s], i + 1, next, entries[1..]);
      var t := Load(disk, files, buffer, i, s).value;
      forall j | 0 <= j < |entries| ensures Holds(t[i + j], entries[j]) {
        if j > 0 { assert Holds(t[i + 1 + (j - 1)], entries[1..][j - 1]); }
      }
    }
  }

  lemma HoldsShape(f: File, e: Entry)
    requires Holds(f, e)
    ensures f.Shape()
  {
  }

  lemma ArchiveStep(disk: seq<Sector>, s: nat, entries: seq<Entry>)
    requires Archive(disk, s, entries)
    ensures entries == [] ==> s >= |disk| || disk[s][0] == 0
    ensures entries != [] ==>
      && EntryOk(entries[0]) && s + Sectors(|entries[0].data|) < |disk| < 0x1_0000_0000 && IsHeader(disk[s], entries[0])
      && (forall k :: 0 <= k < |entries[0].data| ==> ByteAt(disk, s + 1, k, entries[0].data[k]))
      && Archive(disk, s + 1 + Sectors(|entries[0].data|), entries[1..])
  {
  }

  // ---- the layout as a function ----

  /** The fields in front of the size, of whatever contents: mode, uid and gid. */
  const MODE: nat := 8
  const UID: nat := 8
  const GID: nat := 8

  /** A header field by field: name, mode, uid, gid, size with its terminator, and the rest of the sector. */
  function HeaderOf(e: Entry): Sector {
    Padded(e.name, 100) + Padded([], MODE) + Padded([], UID) + Padded([], GID) + (Octal(|e.data|, 11) + [0])
    + Padded([], 512 - (100 + MODE + UID + GID + 12))
  }

  function DataOf(data: seq<Byte>): (r: seq<Sector>)
    ensures |r| == Sectors(|data|)
  {
    seq<Sector>(Sectors(|data|), k requires 0 <= k < Sectors(|data|) => Chunk(data, SECTOR * k, SECTOR))
  }

  function Layout(entries: seq<Entry>): seq<Sector> {
    if entries == [] then [] else [HeaderOf(entries[0])] + DataOf(entries[0].data) + Layout(entries[1..])
  }

  /** A laid-out list of files, behind anything and followed by a zero sector or nothing, is an archive of them. */
  lemma {:induction false} LayoutIsArchive(front: seq<Sector>, entries: seq<Entry>, tail: seq<Sector>)
    requires forall j :: 0 <= j < |entries| ==> EntryOk(entries[j])
    requires tail == [] || tail[0][0] == 0
    requires |front + Layout(entries) + tail| < 0x1_0000_0000
    ensures Archive(front + Layout(entries) + tail, |front|, entries)
    decreases |entries|
  {
    hide HeaderOf, DataOf, IsHeader, EntryOk;
    var disk := front + Layout(entries) + tail;
    if entries != [] {
      var e := entries[0];
      var next := front + [HeaderOf(e)] + DataOf(e.data);
      assert disk == next + Layout(entries[1..]) + tail;
      LayoutIsArchive(next, entries[1..], tail);
      HeaderIs(e);
      forall k | 0 <= k < |e.data| ensures ByteAt(disk, |front| + 1, k, e.data[k]) {
        DataIs(e.data, k);
        assert disk[|front| + 1 + k / SECTOR] == DataOf(e.data)[k / SECTOR];
      }
    }
  }

  lemma HeaderIs(e: Entry)
    ensures IsHeader(HeaderOf(e), e)
  {
    hide Octal;
    var h := HeaderOf(e);
    assert h[..NAME] == Padded(e.name, NAME);
    assert h[SIZE_AT..SIZE_AT + SIZE_DIGITS] == Octal(|e.data|, SIZE_DIGITS);
  }

  lemma DataIs(data: seq<Byte>, k: nat)
    requires k < |data|
    ensures k / SECTOR < |DataOf(data)| && DataOf(data)[k / SECTOR][k % SECTOR] == data[k]
  {
  }

  /** filesystem_init recovers any list of at most twelve files from its ustar layout. */
  lemma RoundTrip(entries: seq<Entry>, tail: seq<Sector>, buffer: Sector)
    requires |entries| <= MAX_FILES && forall j :: 0 <= j < |entries| ==> EntryOk(entries[j])
    requires tail == [] || tail[0][0] == 0
    requires |Layout(entries) + tail| < 0x1_0000_0000
    ensures var r := Load(Layout(entries) + tail, NoFiles(), buffer, 0, 0);
      && r.Go?
      && (forall j :: 0 <= j < |entries| ==> Holds(r.value[j], entries[j]))
      && forall j :: |entries| <= j < MAX_FILES ==> !r.value[j].present
  {
    hide Load, Layout, Archive, Holds, NoFiles;
    var disk := Layout(entries) + tail;
    assert disk == [] + Layout(entries) + tail;
    LayoutIsArchive([], entries, tail);
    LoadInverts(disk, NoFiles(), buffer, 0, 0, entries);
    forall j | 0 <= j < |entries| ensures Holds(Load(disk, NoFiles(), buffer, 0, 0).value[j], entries[j]) {
      assert Holds(Load(disk, NoFiles(), buffer, 0, 0).value[0 + j], entries[j]);
    }
  }
}
