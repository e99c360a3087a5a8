/**
 The ELF32 layout, field by field, and what the loader reads of it: parsing
 inverts the layout. Chapter "Object Files" of the System V ABI.
 */
module ElfLayout {
  import opened Sv32
  import opened Bytes
  import opened Images

  /** One entry of the program header table. */
  datatype ProgramHeader = ProgramHeader(
    kind: Word, offset: Word, vaddr: Word, paddr: Word, filesz: Word, memsz: Word, flags: Word, align: Word)

  type Half = h: nat | h < 0x1_0000
  type Ident = i: seq<Byte> | |i| == 16 witness seq<Byte>(16, _ => 0)

  /** An executable's headers. */
  datatype Elf = Elf(
    ident: Ident, kind: Half, machine: Half, version: Word, entry: Word, phoff: Word, shoff: Word, flags: Word,
    ehsize: Half, shentsize: Half, shnum: Half, shstrndx: Half, headers: seq<ProgramHeader>)

  /** `n` bytes, the lowest first. */
  function Little(w: nat, n: nat): (bs: seq<Byte>)
    ensures |bs| == n
  {
    if n == 0 then [] else [w % 256] + Little(w / 256, n - 1)
  }

  function ElfHeader(e: Elf): (bs: seq<Byte>)
    ensures |bs| == 52
  {
    e.ident + Little(e.kind, 2) + Little(e.machine, 2) + Little(e.version, 4)
    + Little(e.entry, 4) + Little(e.phoff, 4) + Little(e.shoff, 4) + Little(e.flags, 4)
    + Little(e.ehsize, 2) + Little(32, 2) + Little(|e.headers|, 2)
    + Little(e.shentsize, 2) + Little(e.shnum, 2) + Little(e.shstrndx, 2)
  }

  function HeaderBytes(p: ProgramHeader): (bs: seq<Byte>)
    ensures |bs| == 32
  {
    Little(p.kind, 4) + Little(p.offset, 4) + Little(p.vaddr, 4) + Little(p.paddr, 4)
    + Little(p.filesz, 4) + Little(p.memsz, 4) + Little(p.flags, 4) + Little(p.align, 4)
  }

  function TableBytes(ps: seq<ProgramHeader>): (bs: seq<Byte>)
    ensures |bs| == 32 * |ps|
  {
    if ps == [] then [] else HeaderBytes(ps[0]) + TableBytes(ps[1..])
  }

  /** The file begins with the header of `e`, and has its program headers where the header says. */
  ghost predicate IsElf(file: seq<Byte>, e: Elf) {
    && |e.headers| < 0x1_0000 && ElfHeader(e) <= file
    && e.phoff + 32 * |e.headers| <= |file| && file[e.phoff..e.phoff + 32 * |e.headers|] == TableBytes(e.headers)
  }

  /** At `at` the file has the `n` lowest bytes of `w`. */
  ghost predicate Has(file: seq<Byte>, at: nat, w: nat, n: nat) { at + n <= |file| && file[at..at + n] == Little(w, n) }

  lemma ReadWord(file: seq<Byte>, at: nat, w: Word)
    requires Has(file, at, w, 4)
    ensures U32(file, at) == w
  {
    hide Digit;
    LittleWord(w);
    Digits(w);
    assert file[at] == file[at..at + 4][0] && file[at + 1] == file[at..at + 4][1];
    assert file[at + 2] == file[at..at + 4][2] && file[at + 3] == file[at..at + 4][3];
  }

  lemma Digits(w: Word)
    ensures w % 256 + 0x100 * (w / 0x100 % 256) + 0x1_0000 * (w / 0x1_0000 % 256) + 0x100_0000 * (w / 0x100_0000 % 256) == w
  {
    assert w / 0x1_0000 == w / 0x100 / 256 && w / 0x100_0000 == w / 0x1_0000 / 256;
  }

  lemma LittleWord(w: Word)
    ensures Little(w, 4) == [w % 256, w / 0x100 % 256, w / 0x1_0000 % 256, w / 0x100_0000 % 256]
  {
    Quotients(w);
    LittleFour(w, w / 256, w / 256 / 256, w / 256 / 256 / 256);
  }

  lemma Quotients(w: Word)
    ensures w / 256 / 256 == w / 0x1_0000 && w / 256 / 256 / 256 == w / 0x100_0000
  {
  }

  lemma LittleFour(a: nat, b: nat, c: nat, d: nat)
    requires b == a / 256 && c == b / 256 && d == c / 256
    ensures Little(a, 4) == [a % 256, b % 256, c % 256, d % 256]
  {
    assert Little(d, 1) == [d % 256] + Little(d / 256, 0) == [d % 256];
    assert Little(c, 2) == [c % 256] + Little(d, 1) == [c % 256, d % 256];
    assert Little(b, 3) == [b % 256] + Little(c, 2) == [b % 256, c % 256, d % 256];
    assert Little(a, 4) == [a % 256] + Little(b, 3);
  }

  lemma ReadHalf(file: seq<Byte>, at: nat, w: Half)
    requires Has(file, at, w, 2)
    ensures U16(file, at) == w
  {
    assert Little(w, 2) == [w % 256] + Little(w / 256, 1);
    assert Little(w / 256, 1) == [w / 256 % 256] + [];
    forall k | 0 <= k < 2 ensures file[at + k] == Little(w, 2)[k] { assert file[at..at + 2][k] == file[at + k]; }
  }

  lemma SliceOfSlice(s: seq<Byte>, a: nat, b: nat, c: nat, d: nat)
    requires a <= b <= |s| && c <= d <= b - a
    ensures a + d <= |s| && s[a..b][c..d] == s[a + c..a + d]
  {
    var u, v := s[a..b][c..d], s[a + c..a + d];
    assert |u| == |v|;
    forall k | 0 <= k < |u| ensures u[k] == v[k] {
      assert u[k] == s[a..b][c + k] == s[a + (c + k)];
      assert v[k] == s[(a + c) + k];
    }
  }

  /** A part of a part. */
  lemma Part(file: seq<Byte>, at: nat, n: nat, front: seq<Byte>, w: nat, k: nat, rest: seq<Byte>)
    requires at + n <= |file| && file[at..at + n] == front + Little(w, k) + rest
    ensures Has(file, at + |front|, w, k)
  {
    var bs := file[at..at + n];
    assert bs[|front|..|front| + k] == Little(w, k);
    SliceOfSlice(file, at, at + n, |front|, |front| + k);
  }

  lemma HeaderFields(file: seq<Byte>, e: Elf)
    requires IsElf(file, e)
    ensures U32(file, 24) == e.entry && U32(file, 28) == e.phoff && U16(file, 44) == |e.headers|
  {
    hide Little, U32, U16, TableBytes;
    assert file[0..0 + 52] == ElfHeader(e);
    var a := e.ident + Little(e.kind, 2) + Little(e.machine, 2) + Little(e.version, 4);
    var z := Little(e.shentsize, 2) + Little(e.shnum, 2) + Little(e.shstrndx, 2);
    var y := Little(e.ehsize, 2) + Little(32, 2);
    var x := Little(e.shoff, 4) + Little(e.flags, 4);
    var h := Little(|e.headers|, 2);
    assert ElfHeader(e) == a + Little(e.entry, 4) + (Little(e.phoff, 4) + x + y + h + z);
    Part(file, 0, 52, a, e.entry, 4, Little(e.phoff, 4) + x + y + h + z);
    ReadWord(file, 24, e.entry);
    assert ElfHeader(e) == (a + Little(e.entry, 4)) + Little(e.phoff, 4) + (x + y + h + z);
    Part(file, 0, 52, a + Little(e.entry, 4), e.phoff, 4, x + y + h + z);
    ReadWord(file, 28, e.phoff);
    var front := a + Little(e.entry, 4) + Little(e.phoff, 4) + x + y;
    assert ElfHeader(e) == front + h + z;
    Part(file, 0, 52, front, |e.headers|, 2, z);
    ReadHalf(file, 44, |e.headers|);
  }

  lemma {:induction false} TableAt(ps: seq<ProgramHeader>, h: nat)
    requires h < |ps|
    ensures TableBytes(ps)[32 * h..32 * h + 32] == HeaderBytes(ps[h])
  {
    hide HeaderBytes;
    var rest := TableBytes(ps[1..]);
    if h > 0 {
      TableAt(ps[1..], h - 1);
      SliceOfSlice(TableBytes(ps), 32, 32 + |rest|, 32 * (h - 1), 32 * (h - 1) + 32);
      assert TableBytes(ps)[32..32 + |rest|] == rest;
    }
  }

  lemma SegmentFields(file: seq<Byte>, at: nat, p: ProgramHeader)
    requires at + 32 <= |file| && file[at..at + 32] == HeaderBytes(p)
    ensures U32(file, at + 4) == p.offset && U32(file, at + 8) == p.vaddr && U32(file, at + 20) == p.memsz
  {
    hide Little, U32;
    var a, b := Little(p.kind, 4), Little(p.offset, 4);
    var c, d := Little(p.vaddr, 4), Little(p.paddr, 4) + Little(p.filesz, 4);
    var m, z := Little(p.memsz, 4), Little(p.flags, 4) + Little(p.align, 4);
    assert HeaderBytes(p) == a + b + (c + d + m + z);
    Part(file, at, 32, a, p.offset, 4, c + d + m + z);
    ReadWord(file, at + 4, p.offset);
    assert HeaderBytes(p) == (a + b) + c + (d + m + z);
    Part(file, at, 32, a + b, p.vaddr, 4, d + m + z);
    ReadWord(file, at + 8, p.vaddr);
    assert HeaderBytes(p) == (a + b + c + d) + m + z;
    Part(file, at, 32, a + b + c + d, p.memsz, 4, z);
    ReadWord(file, at + 20, p.memsz);
  }

  /** Parsing inverts the layout: entry point, number of segments, and the fields of each. */
  lemma ParsesBack(file: seq<Byte>, e: Elf, h: nat)
    requires IsElf(file, e)
    ensures EntryPoint(file) == e.entry && SegmentCount(file) == |e.headers|
    ensures h < |e.headers| ==>
      SegmentAt(file, h) == Segment(e.headers[h].offset, e.headers[h].vaddr, e.headers[h].memsz)
  {
    hide U32, U16, TableBytes, HeaderBytes, ElfHeader;
    HeaderFields(file, e);
    if h < |e.headers| {
      TableAt(e.headers, h);
      var at, n := e.phoff + 32 * h, 32 * |e.headers|;
      SliceOfSlice(file, e.phoff, e.phoff + n, 32 * h, 32 * h + 32);
      SegmentFields(file, at, e.headers[h]);
    }
  }

  /** What stands behind a file changes nothing. */
  lemma LongerElf(file: seq<Byte>, longer: seq<Byte>, e: Elf)
    requires IsElf(file, e) && file <= longer
    ensures IsElf(longer, e)
  {
    hide TableBytes, ElfHeader;
    assert longer[e.phoff..e.phoff + 32 * |e.headers|] == file[e.phoff..e.phoff + 32 * |e.headers|];
  }

  /** Headers and table one after the other, followed by anything, are such a file. */
  lemma BuiltElf(e: Elf, rest: seq<Byte>)
    requires |e.headers| < 0x1_0000 && e.phoff == 52
    ensures IsElf(ElfHeader(e) + TableBytes(e.headers) + rest, e)
  {
    hide TableBytes, ElfHeader;
    var file := ElfHeader(e) + TableBytes(e.headers) + rest;
    assert file[..52] == ElfHeader(e);
    assert file[52..52 + 32 * |e.headers|] == TableBytes(e.headers);
  }
}
