/**
 The image in memory is the image in the file, byte for byte, and sbrk extends it
 upwards without touching it.
 */
module ImageBytes {
  import opened Sv32
  import opened Bytes
  import opened Pages
  import opened Spaces
  import opened Images
  import opened Arguments
  import opened Processes
  import opened Machine
  import opened AbstractOs
  import opened Boot

  predicate Covers(g: Segment, v: nat) {
    g.vaddr / 4096 <= v < g.vaddr / 4096 + PageCount(g)
  }

  /** Page-aligned segments in user space, below the stack page, no two of which share a page. */
  predicate LaidOut(file: seq<Byte>) {
    && ImageOk(file)
    && (forall h :: 0 <= h < SegmentCount(file) ==>
         var g := SegmentAt(file, h);
         g.vaddr % 4096 == 0 && g.vaddr / 4096 + PageCount(g) <= STACK_PAGE)
    && forall h, t, v :: 0 <= h < t < SegmentCount(file) && 0 <= v < 0x10_0000 ==>
         !(Covers(SegmentAt(file, h), v) && Covers(SegmentAt(file, t), v))
  }

  lemma PageNumberIs(g: Segment, k: nat)
    requires InUserSpace(g) && k < PageCount(g)
    ensures PageNumber(g, k) == g.vaddr / 4096 + k
  {
  }

  /** One segment puts its pages where it says and leaves the rest. */
  lemma {:induction false} SegmentSpaceAt(sp: Space, file: seq<Byte>, g: Segment, k: nat, v: nat)
    requires InUserSpace(g) && k <= PageCount(g)
    ensures var t := SegmentSpace(sp, file, g, k);
      if g.vaddr / 4096 + k <= v < g.vaddr / 4096 + PageCount(g)
      then v in t && t[v] == Page(RWXU, PageImage(file, g, v - g.vaddr / 4096))
      else (v in t <==> v in sp) && (v in sp ==> t[v] == sp[v])
    decreases PageCount(g) - k
  {
    hide PageImage, PageNumber, InUserSpace;
    if k < PageCount(g) {
      PageNumberIs(g, k);
      SegmentSpaceAt(sp[PageNumber(g, k) := Page(RWXU, PageImage(file, g, k))], file, g, k + 1, v);
    }
  }

  lemma {:induction false} ImageUncovered(sp: Space, file: seq<Byte>, h: nat, v: nat)
    requires ImageOk(file) && forall t :: h <= t < SegmentCount(file) ==> !Covers(SegmentAt(file, t), v)
    ensures var t := ImageSpace(sp, file, h); (v in t <==> v in sp) && (v in sp ==> t[v] == sp[v])
    decreases SegmentCount(file) - h
  {
    hide SegmentAt, SegmentCount, SegmentSpace, InUserSpace;
    if h < SegmentCount(file) {
      var g := SegmentAt(file, h);
      SegmentSpaceAt(sp, file, g, 0, v);
      ImageUncovered(SegmentSpace(sp, file, g, 0), file, h + 1, v);
    }
  }

  lemma {:induction false} ImageCovered(sp: Space, file: seq<Byte>, h: nat, t: nat, v: nat)
    requires LaidOut(file) && h <= t < SegmentCount(file) && v < 0x10_0000 && Covers(SegmentAt(file, t), v)
    ensures var r, g := ImageSpace(sp, file, h), SegmentAt(file, t);
      v in r && r[v] == Page(RWXU, PageImage(file, g, v - g.vaddr / 4096))
    decreases t - h
  {
    hide SegmentAt, SegmentCount, SegmentSpace, InUserSpace, PageImage;
    var g := SegmentAt(file, h);
    SegmentSpaceAt(sp, file, g, 0, v);
    if h == t {
      ImageUncovered(SegmentSpace(sp, file, g, 0), file, h + 1, v);
    } else {
      ImageCovered(SegmentSpace(sp, file, g, 0), file, h + 1, t, v);
    }
  }

  lemma PageImageByte(file: seq<Byte>, g: Segment, k: nat, r: nat)
    requires r < 4096
    ensures ByteOf(PageImage(file, g, k), r) == if r < PageLen(g, k) then Get(file, g.offset + 4096 * k + r) else 0
  {
    hide ByteOf;
    PackPageByte(Chunk(file, g.offset + 4096 * k, PageLen(g, k)), r);
  }

  /** Byte `k` of the pages of segment `g`, as the model computes it. */
  function SegmentByte(file: seq<Byte>, g: Segment, k: nat): Byte {
    if k < g.memsz then Get(file, g.offset + k) else 0
  }

  /** The address space `sp` shows byte `k` of segment `g`: the file's byte at the segment's offset, where the file has one,
      and zero behind the segment. */
  predicate Shows(sp: Space, file: seq<Byte>, g: Segment, k: nat) {
    && Peek(sp, g.vaddr + k).Some?
    && (k < g.memsz && g.offset + k < |file| ==> Peek(sp, g.vaddr + k) == Some(file[g.offset + k]))
    && (k >= g.memsz ==> Peek(sp, g.vaddr + k) == Some(0))
  }

  lemma ShowsByte(sp: Space, file: seq<Byte>, g: Segment, k: nat)
    requires Peek(sp, g.vaddr + k) == Some(SegmentByte(file, g, k))
    ensures Shows(sp, file, g, k)
  {
    hide ByteOf;
  }

  lemma SpaceByte(sp: Space, file: seq<Byte>, h: nat, k: nat)
    requires LaidOut(file) && h < SegmentCount(file) && k < 4096 * PageCount(SegmentAt(file, h))
    requires sp.Keys >= (ImageSpace(map[], file, 0) - {TRAPFRAME_PAGE, STACK_PAGE}).Keys
    requires forall v :: v in ImageSpace(map[], file, 0) && v != TRAPFRAME_PAGE && v != STACK_PAGE ==>
      v in sp && sp[v] == ImageSpace(map[], file, 0)[v]
    ensures var g := SegmentAt(file, h); Peek(sp, g.vaddr + k) == Some(SegmentByte(file, g, k))
  {
    hide SegmentAt, SegmentCount, ImageSpace, PageImage, ByteOf;
    var g := SegmentAt(file, h);
    var v := (g.vaddr + k) / 4096;
    assert v == g.vaddr / 4096 + k / 4096 && (g.vaddr + k) % 4096 == k % 4096;
    ImageCovered(map[], file, 0, h, v);
    PageImageByte(file, g, k / 4096, k % 4096);
    hide Digit;
  }

  /** exec: every byte of every segment, seen through the new address space. */
  lemma ExecImageBytes(file: seq<Byte>, args: seq<seq<Byte>>, h: nat, k: nat)
    requires LaidOut(file) && PushArguments(Zero(), args).Go? && h < SegmentCount(file) &&
      k < 4096 * PageCount(SegmentAt(file, h))
    ensures Shows(FreshProc(file, args).space, file, SegmentAt(file, h), k)
  {
    hide SegmentAt, SegmentCount, ImageSpace, PushArguments, Shows, SegmentByte;
    SpaceByte(FreshProc(file, args).space, file, h, k);
    ShowsByte(FreshProc(file, args).space, file, SegmentAt(file, h), k);
  }

  /** The same for a process made by kproc_create. */
  lemma CreateImageBytes(file: seq<Byte>, h: nat, k: nat)
    requires LaidOut(file) && h < SegmentCount(file) && k < 4096 * PageCount(SegmentAt(file, h))
    ensures Shows(NewProcess(file).space, file, SegmentAt(file, h), k)
  {
    hide SegmentAt, SegmentCount, ImageSpace, Shows, SegmentByte;
    SpaceByte(NewProcess(file).space, file, h, k);
    ShowsByte(NewProcess(file).space, file, SegmentAt(file, h), k);
  }

  /** Every page of the image can be read, written and executed. */
  lemma ImageAccess(file: seq<Byte>, args: seq<seq<Byte>>, h: nat, k: nat)
    requires LaidOut(file) && PushArguments(Zero(), args).Go? && h < SegmentCount(file) &&
      k < 4096 * PageCount(SegmentAt(file, h))
    ensures var v := (SegmentAt(file, h).vaddr + k) / 4096;
      && v in FreshProc(file, args).space && v in NewProcess(file).space
      && var f, g := FreshProc(file, args).space[v].flags, NewProcess(file).space[v].flags;
      && Readable(f) && Writable(f) && Executable(f) && Readable(g) && Writable(g) && Executable(g)
  {
    hide SegmentAt, SegmentCount, ImageSpace, PageImage, PushArguments, Readable, Writable, Executable, EntryPoint;
    var g := SegmentAt(file, h);
    var v := PageBelowStack(file, h, k);
    ImageCovered(map[], file, 0, h, v);
    AllAllowed();
  }

  lemma PageBelowStack(file: seq<Byte>, h: nat, k: nat) returns (v: nat)
    requires LaidOut(file) && h < SegmentCount(file) && k < 4096 * PageCount(SegmentAt(file, h))
    ensures v == (SegmentAt(file, h).vaddr + k) / 4096 && v < STACK_PAGE && Covers(SegmentAt(file, h), v)
  {
    hide SegmentAt, SegmentCount;
    v := SegmentAt(file, h).vaddr / 4096 + k / 4096;
  }

  lemma AllAllowed()
    ensures Readable(RWXU) && Writable(RWXU) && Executable(RWXU)
  {
  }

  /** A store anywhere on the stack page of a new program succeeds, and so does one on a page that sbrk has just returned. */
  lemma StackWritable(file: seq<Byte>, args: seq<seq<Byte>>, k: nat, b: Byte)
    requires PushArguments(Zero(), args).Go? && k < 4096
    ensures AStore(FreshProc(file, args).space, STACK_TOP - 4096 + k, b).Some?
    ensures AStore(NewProcess(file).space, STACK_TOP - 4096 + k, b).Some?
  {
    hide ImageSpace, PushArguments, SetByte, AStore, EntryPoint;
    var sp := ImageSpace(map[], file, 0) - {TRAPFRAME_PAGE};
    StackPageWritable(sp, PushArguments(Zero(), args).value.0, k, b);
    StackPageWritable(sp, Zero(), k, b);
  }

  lemma StackPageWritable(sp: Space, f: Frame, k: nat, b: Byte)
    requires k < 4096
    ensures AStore(sp[STACK_PAGE := Page(RWXU, f)], STACK_TOP - 4096 + k, b).Some?
  {
    hide SetByte;
  }

  lemma SbrkWritable(a: AState, k: nat, b: Byte)
    requires a.Runs() && a.heap[a.cur] % 4096 == 0 && k < 4096
    ensures ASbrk(a).Runs() && ASbrk(a).Cur().regs[A0] == a.heap[a.cur]
    ensures a.heap[a.cur] + k < 0x1_0000_0000 && AStore(ASbrk(a).Cur().space, ASbrk(a).Cur().regs[A0] + k, b).Some?
  {
    hide SetByte;
  }

  // ---- sbrk after exec ----

  /** `n` calls of sbrk, as far as memory goes. */
  function GrownBy(a: AState, n: nat): AState
    requires a.Runs()
    ensures GrownBy(a, n).Runs() && GrownBy(a, n).cur == a.cur
  {
    if n == 0 then a else AGrow(GrownBy(a, n - 1))
  }

  /** The pages of `n` calls are consecutive and zeroed, and every page below the old break is as before. */
  lemma {:induction false} SbrkConsecutive(a: AState, n: nat, v: nat)
    requires a.Runs() && a.heap[a.cur] % 4096 == 0 && a.heap[a.cur] / 4096 + n < 0x10_0000
    ensures GrownBy(a, n).heap[a.cur] == a.heap[a.cur] + 4096 * n
    ensures var h, sp := a.heap[a.cur] / 4096, GrownBy(a, n).Cur().space;
      && (h <= v < h + n ==> v in sp && sp[v] == Page(RWU, Zero()))
      && (!(h <= v < h + n) ==> (v in sp <==> v in a.Cur().space) && (v in sp ==> sp[v] == a.Cur().space[v]))
  {
    if n > 0 {
      SbrkConsecutive(a, n - 1, v);
      var b := GrownBy(a, n - 1);
      assert b.heap[b.cur] / 4096 == a.heap[a.cur] / 4096 + n - 1;
    }
  }

  /** The segments fill the pages from the user base upwards without a gap. */
  predicate Packed(file: seq<Byte>) {
    forall h :: 0 <= h < SegmentCount(file) ==>
      SegmentAt(file, h).vaddr / 4096 + PageCount(SegmentAt(file, h)) <= USER_BASE / 4096 + ImagePages(file, 0)
  }

  /** A packed image, whatever the slot's break was: the break moves by the image's pages, sbrk gives out the pages above
      it, and after any number of calls the image is still the file's. */
  lemma ExecThenSbrk(a: AState, file: seq<Byte>, args: seq<seq<Byte>>, n: nat, h: nat, k: nat)
    requires a.Runs() && USER_BASE <= a.heap[a.cur] && a.heap[a.cur] % 4096 == 0
    requires a.heap[a.cur] / 4096 + ImagePages(file, 0) + n < STACK_PAGE
    requires LaidOut(file) && Packed(file) && PushArguments(Zero(), args).Go?
    requires h < SegmentCount(file) && k < 4096 * PageCount(SegmentAt(file, h))
    ensures AExec(a, file, args).Some?
    ensures var b := AExec(a, file, args).value;
      && b.Runs() && b.heap[b.cur] == a.heap[a.cur] + 4096 * ImagePages(file, 0)
      && Shows(GrownBy(b, n).Cur().space, file, SegmentAt(file, h), k)
  {
    hide SegmentAt, SegmentCount, FreshProc, PushArguments, ImagePages, GrownBy, AGrow, ByteOf;
    var b := AExec(a, file, args).value;
    var g := SegmentAt(file, h);
    var v := (g.vaddr + k) / 4096;
    assert v == g.vaddr / 4096 + k / 4096;
    ExecImageBytes(file, args, h, k);
    SbrkConsecutive(b, n, v);
  }

  /** In a slot that has never moved its break, sbrk starts right above the image. */
  lemma FirstExecThenSbrk(a: AState, file: seq<Byte>, args: seq<seq<Byte>>)
    requires a.Runs() && a.heap[a.cur] == USER_BASE && ImagePages(file, 0) + 1 < 0x3_FFFE
    requires LaidOut(file) && Packed(file) && PushArguments(Zero(), args).Go?
    ensures AExec(a, file, args).Some? && AExec(a, file, args).value.Runs()
    ensures var b := AExec(a, file, args).value;
      && b.heap[b.cur] == USER_BASE + 4096 * ImagePages(file, 0)
      && (forall h :: 0 <= h < SegmentCount(file) ==>
           4096 * (SegmentAt(file, h).vaddr / 4096 + PageCount(SegmentAt(file, h))) <= b.heap[b.cur])
      && ASbrk(b).Runs() && ASbrk(b).Cur().regs[A0] == b.heap[b.cur]
  {
    hide SegmentAt, SegmentCount, FreshProc, PushArguments, ImagePages, InUserSpace;
  }
}
