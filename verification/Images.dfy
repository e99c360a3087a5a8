/**
 Loading an ELF image: the parsing of the headers, the page-by-page copy into
 fresh frames, and the address space that results.
 */
module Images {
  import opened Sv32
  import opened Bytes
  import opened Pages
  import opened PageTables
  import opened Spaces

  const USER_BASE: int := 0xC000_0000
  const STACK_PAGE: int := 0xF_FFFE
  const TRAPFRAME_PAGE: int := 0xF_FFFF

  /** The fields of an ELF32 program header that the loader reads. */
  datatype Segment = Segment(offset: Word, vaddr: Word, memsz: Word)

  function EntryPoint(file: seq<Byte>): Word { U32(file, 24) }

  function SegmentCount(file: seq<Byte>): nat { U16(file, 44) }

  function SegmentAt(file: seq<Byte>, h: nat): Segment {
    var at := U32(file, 28) + 32 * h;
    Segment(U32(file, at + 4), U32(file, at + 8), U32(file, at + 20))
  }

  /** Bytes of page `k` of a segment. */
  function PageLen(g: Segment, k: nat): nat {
    if g.memsz <= 4096 * k then 0 else if g.memsz - 4096 * k >= 4096 then 4096 else g.memsz - 4096 * k
  }

  function PageImage(file: seq<Byte>, g: Segment, k: nat): Frame {
    PackPage(Chunk(file, g.offset + 4096 * k, PageLen(g, k)))
  }

  /** The virtual page number of page `k` of a segment, in 32-bit arithmetic. */
  function PageNumber(g: Segment, k: nat): (v: nat)
    ensures v < 0x10_0000
  {
    ((g.vaddr + 4096 * k) % 0x1_0000_0000) / 4096
  }

  /** The segment lies in user space and its addresses do not wrap. */
  predicate InUserSpace(g: Segment) {
    USER_BASE <= g.vaddr && g.vaddr + g.memsz <= 0x1_0000_0000
  }

  predicate ImageOk(file: seq<Byte>) {
    forall h :: 0 <= h < SegmentCount(file) ==> InUserSpace(SegmentAt(file, h))
  }

  function PageCount(g: Segment): nat { (g.memsz + 4095) / 4096 }

  /** Pages of all segments from header `h` on. */
  function ImagePages(file: seq<Byte>, h: nat): nat
    decreases SegmentCount(file) - h
  {
    if h >= SegmentCount(file) then 0 else PageCount(SegmentAt(file, h)) + ImagePages(file, h + 1)
  }

  // ---- what the loader does to the machine ----

  function LoadPage(x: Phys, o: nat, root: nat, file: seq<Byte>, g: Segment, k: nat): Outcome<(Phys, nat)> {
    var v := PageNumber(g, k);
    var (y, p) :- Alloc(x, User(o, v / 1024, v % 1024));
    if p >= |y.mem| then Fault
    else
      var z :- MapPage(Phys(y.mem[p := PageImage(file, g, k)], y.free, y.role, y.satp), o, root, v / 1024, v % 1024, p, RWXU);
      Go((z, p))
  }

  /** The pages of one segment from index `k`; also the frames taken for them. */
  function LoadPages(x: Phys, o: nat, root: nat, file: seq<Byte>, g: Segment, k: nat): Outcome<(Phys, set<nat>)>
    decreases PageCount(g) - k
  {
    if k >= PageCount(g) then Go((x, {}))
    else
      var (y, p) :- LoadPage(x, o, root, file, g, k);
      var (z, s) :- LoadPages(y, o, root, file, g, k + 1);
      Go((z, {p} + s))
  }

  function LoadSegments(x: Phys, o: nat, root: nat, file: seq<Byte>, h: nat): Outcome<(Phys, set<nat>)>
    decreases SegmentCount(file) - h
  {
    if h >= SegmentCount(file) then Go((x, {}))
    else
      var (y, s) :- LoadPages(x, o, root, file, SegmentAt(file, h), 0);
      var (z, t) :- LoadSegments(y, o, root, file, h + 1);
      Go((z, s + t))
  }

  // ---- what it does to the address space ----

  function SegmentSpace(sp: Space, file: seq<Byte>, g: Segment, k: nat): Space
    decreases PageCount(g) - k
  {
    if k >= PageCount(g) then sp
    else SegmentSpace(sp[PageNumber(g, k) := Page(RWXU, PageImage(file, g, k))], file, g, k + 1)
  }

  function ImageSpace(sp: Space, file: seq<Byte>, h: nat): Space
    decreases SegmentCount(file) - h
  {
    if h >= SegmentCount(file) then sp else ImageSpace(SegmentSpace(sp, file, SegmentAt(file, h), 0), file, h + 1)
  }

  /** Every leaf is the same but those of owner `o` in user space. */
  ghost predicate UpperOnly(m: Memory, m': Memory, roots: map<nat, nat>, o: nat) {
    forall b, k, l :: b in roots && 0 <= k < 1024 && 0 <= l < 1024 && (b != o || k < 768) ==>
      Leaf(m', roots[b], k, l) == Leaf(m, roots[b], k, l)
  }

  /** From `x` to `y` owner `o` gained the user pages in the frames `s`, all of them free before. */
  ghost predicate Gained(x: Phys, y: Phys, roots: map<nat, nat>, o: nat, s: set<nat>)
  {
    && ShapeOk(x) && PhysOk(y, roots) && Grows(x, y, o) && UpperOnly(x.mem, y.mem, roots, o)
    && forall p :: p in s ==> p < |x.role| && x.role[p] == Free && y.role[p].User?
  }

  lemma GainedRefl(x: Phys, roots: map<nat, nat>, o: nat)
    requires PhysOk(x, roots)
    ensures Gained(x, x, roots, o, {})
  {
  }

  lemma GainedTrans(x: Phys, y: Phys, z: Phys, roots: map<nat, nat>, o: nat, s: set<nat>, t: set<nat>)
    requires Gained(x, y, roots, o, s) && Gained(y, z, roots, o, t)
    ensures Gained(x, z, roots, o, s + t) && |s + t| == |s| + |t|
  {
    hide PhysOk, FreeOk, Leaf;
    GrowsTrans(x, y, z, o);
    assert s !! t;
  }

  lemma LoadPageOk(x: Phys, roots: map<nat, nat>, o: nat, file: seq<Byte>, g: Segment, k: nat)
    requires PhysOk(x, roots) && o in roots && InUserSpace(g) && 4096 * k < g.memsz
    ensures LoadPage(x, o, roots[o], file, g, k) != Fault
    ensures LoadPage(x, o, roots[o], file, g, k).Go? ==>
      var (y, p) := LoadPage(x, o, roots[o], file, g, k).value;
      && Gained(x, y, roots, o, {p}) && PhysOk(y, roots)
      && SpaceOf(y.mem, roots[o]) == SpaceOf(x.mem, roots[o])[PageNumber(g, k) := Page(RWXU, PageImage(file, g, k))]
  {
    hide PhysOk, PageImage, PageNumber, InUserSpace, FreeOk, TableOk, Leaf, MapPage, SameLeaves, LeafOk, Valid,
         UserMode, Gained, Grows, OneLeafSet, SpaceOf;
    var v := PageNumber(g, k);
    var i, j := v / 1024, v % 1024;
    PageIndices(g, k);
    assert ShapeOk(x) by { ShapeIs(x, roots); }
    AllocOk(x, roots, User(o, i, j), o);
    if x.free != [] {
      var (y, p) := Alloc(x, User(o, i, j)).value;
      var f := PageImage(file, g, k);
      FillUserPage(y, roots, p, f);
      var z := Phys(y.mem[p := f], y.free, y.role, y.satp);
      UserEntryOk(z.role, o, i, j, p, RWXU);
      MapPageOk(z, roots, o, i, j, p, RWXU);
      var r := MapPage(z, o, roots[o], i, j, p, RWXU);
      if r.Go? { LoadPageStep(x, y, z, r.value, roots, o, i, j, p, f); }
    }
  }

  lemma PageIndices(g: Segment, k: nat)
    requires InUserSpace(g) && 4096 * k < g.memsz
    ensures var v := PageNumber(g, k); 768 <= v / 1024 < 1024 && v == 1024 * (v / 1024) + v % 1024
  {
  }

  lemma LoadPageStep(x: Phys, y: Phys, z: Phys, w: Phys, roots: map<nat, nat>, o: nat, i: nat, j: nat, p: nat, f: Frame)
    requires PhysOk(x, roots) && PhysOk(z, roots) && PhysOk(w, roots) && o in roots && 768 <= i < 1024 && j < 1024
    requires p < |x.mem| && x.role[p] == Free && y.mem == x.mem[p := Zero()] && y.role == x.role[p := User(o, i, j)]
    requires Grows(x, y, o) && SameLeaves(x.mem, y.mem, roots)
    requires z == Phys(y.mem[p := f], y.free, y.role, y.satp) && SameLeaves(y.mem, z.mem, roots)
    requires Grows(z, w, o) && OneLeafSet(z.mem, w.mem, roots, o, i, j, Entry(p, RWXU))
    ensures Gained(x, w, roots, o, {p})
    ensures SpaceOf(w.mem, roots[o]) == SpaceOf(x.mem, roots[o])[1024 * i + j := Page(RWXU, f)]
  {
    hide PhysOk, Leaf, SpaceOf, TableOk, FreeOk;
    ShapeIs(x, roots);
    assert Grows(x, z, o);
    GrowsTrans(x, z, w, o);
    SpaceMapUser(z, w, roots, o, i, j, Entry(p, RWXU));
    SpaceFrame(x, z.mem, roots, o);
  }

  lemma PageCountBound(g: Segment, k: nat)
    ensures k < PageCount(g) <==> 4096 * k < g.memsz
  {
  }

  lemma {:induction false} LoadPagesOk(x: Phys, roots: map<nat, nat>, o: nat, file: seq<Byte>, g: Segment, k: nat)
    requires PhysOk(x, roots) && o in roots && InUserSpace(g) && k <= PageCount(g)
    ensures LoadPages(x, o, roots[o], file, g, k) != Fault
    ensures LoadPages(x, o, roots[o], file, g, k).Go? ==>
      var (y, s) := LoadPages(x, o, roots[o], file, g, k).value;
      && Gained(x, y, roots, o, s) && PhysOk(y, roots) && |s| == PageCount(g) - k
      && SpaceOf(y.mem, roots[o]) == SegmentSpace(SpaceOf(x.mem, roots[o]), file, g, k)
    decreases PageCount(g) - k
  {
    hide PhysOk, Gained, Leaf, SpaceOf, LoadPage, PageImage, PageNumber, PageCount, InUserSpace;
    if k >= PageCount(g) {
      GainedRefl(x, roots, o);
    } else {
      PageCountBound(g, k);
      LoadPageOk(x, roots, o, file, g, k);
      var q := LoadPage(x, o, roots[o], file, g, k);
      if q.Go? {
        var (y, p) := q.value;
        LoadPagesOk(y, roots, o, file, g, k + 1);
        var r := LoadPages(y, o, roots[o], file, g, k + 1);
        if r.Go? {
          var (z, s) := r.value;
          GainedTrans(x, y, z, roots, o, {p}, s);
          assert LoadPages(x, o, roots[o], file, g, k) == Go((z, {p} + s));
        }
      }
    }
  }

  lemma {:induction false} LoadSegmentsOk(x: Phys, roots: map<nat, nat>, o: nat, file: seq<Byte>, h: nat)
    requires PhysOk(x, roots) && o in roots && ImageOk(file)
    ensures LoadSegments(x, o, roots[o], file, h) != Fault
    ensures LoadSegments(x, o, roots[o], file, h).Go? ==>
      var (y, s) := LoadSegments(x, o, roots[o], file, h).value;
      && Gained(x, y, roots, o, s) && PhysOk(y, roots) && |s| == ImagePages(file, h)
      && SpaceOf(y.mem, roots[o]) == ImageSpace(SpaceOf(x.mem, roots[o]), file, h)
    decreases SegmentCount(file) - h
  {
    hide PhysOk, Gained, Leaf, SpaceOf, LoadPages, SegmentAt, SegmentCount, PageCount, InUserSpace;
    if h >= SegmentCount(file) {
      GainedRefl(x, roots, o);
    } else {
      var g := SegmentAt(file, h);
      LoadPagesOk(x, roots, o, file, g, 0);
      var q := LoadPages(x, o, roots[o], file, g, 0);
      if q.Go? {
        var (y, s) := q.value;
        LoadSegmentsOk(y, roots, o, file, h + 1);
        var r := LoadSegments(y, o, roots[o], file, h + 1);
        if r.Go? { GainedTrans(x, y, r.value.0, roots, o, s, r.value.1); }
      }
    }
  }
}
