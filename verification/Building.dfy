/**
 What building a process image establishes: its own tables and frames, the
 kernel identity map, and exactly the address space the ELF file describes.
 */
module Building {
  import opened Sv32
  import opened Bytes
  import opened Pages
  import opened PageTables
  import opened Spaces
  import opened Images
  import opened Processes

  /** Every physical page is mapped at its own address for the kernel. */
  ghost predicate IdentityOk(m: Memory, root: nat) {
    |m| <= 0xC_0000 && IdentityBelow(m, root, |m|)
  }

  ghost predicate IdentityBelow(m: Memory, root: nat, n: nat)
    requires n <= 0xC_0000
  {
    forall i, j :: 0 <= i < 1024 && 0 <= j < 1024 && 1024 * i + j < n ==>
      Leaf(m, root, i, j) == Some(Entry(1024 * i + j, RWX))
  }

  /** No leaf of any other owner changed. */
  ghost predicate OthersSame(m: Memory, m': Memory, roots: map<nat, nat>, o: nat) {
    forall b, k, l :: b in roots && b != o && 0 <= k < 1024 && 0 <= l < 1024 ==>
      Leaf(m', roots[b], k, l) == Leaf(m, roots[b], k, l)
  }

  lemma KernelEntryOk(role: seq<Role>, o: nat, i: nat, j: nat, p: nat, flags: nat)
    requires p < |role| <= 0xC_0000 && (flags == RWX || flags == RW)
    ensures Valid(Entry(p, flags)) && !UserMode(Entry(p, flags)) && LeafOk(role, o, i, j, Entry(p, flags))
  {
  }

  lemma IdentityStep(m: Memory, m': Memory, roots: map<nat, nat>, o: nat, k: nat)
    requires o in roots && k < 0xC_0000 && IdentityBelow(m, roots[o], k)
    requires OneLeafSet(m, m', roots, o, k / 1024, k % 1024, Entry(k, RWX))
    ensures IdentityBelow(m', roots[o], k + 1)
  {
    hide Leaf;
    forall i, j | 0 <= i < 1024 && 0 <= j < 1024 && 1024 * i + j < k + 1
      ensures Leaf(m', roots[o], i, j) == Some(Entry(1024 * i + j, RWX))
    {
      PageIndex(i, j, k);
    }
  }

  lemma {:induction false} MapKernelOk(x: Phys, roots: map<nat, nat>, o: nat, k: nat)
    requires PhysOk(x, roots) && o in roots && k <= |x.mem| && |x.mem| <= 0xC_0000
    requires IdentityBelow(x.mem, roots[o], k) && SpaceOf(x.mem, roots[o]) == map[]
    ensures MapKernel(x, o, roots[o], k) != Fault
    ensures MapKernel(x, o, roots[o], k).Go? ==>
      var y := MapKernel(x, o, roots[o], k).value;
      && PhysOk(y, roots) && Grows(x, y, o) && OthersSame(x.mem, y.mem, roots, o)
      && IdentityOk(y.mem, roots[o]) && SpaceOf(y.mem, roots[o]) == map[]
    decreases |x.mem| - k
  {
    hide PhysOk, MapPage, SpaceOf, Leaf, IdentityBelow;
    if k == |x.mem| {
      GainedRefl(x, roots, o);
    } else {
      MapKernelStep(x, roots, o, k);
      var q := MapPage(x, o, roots[o], k / 1024, k % 1024, k, RWX);
      if q.Go? {
        MapKernelOk(q.value, roots, o, k + 1);
        var r := MapKernel(q.value, o, roots[o], k + 1);
        if r.Go? { GrowsTrans(x, q.value, r.value, o); }
      }
    }
  }

  lemma MapKernelStep(x: Phys, roots: map<nat, nat>, o: nat, k: nat)
    requires PhysOk(x, roots) && o in roots && k < |x.mem| <= 0xC_0000
    requires IdentityBelow(x.mem, roots[o], k) && SpaceOf(x.mem, roots[o]) == map[]
    ensures var q := MapPage(x, o, roots[o], k / 1024, k % 1024, k, RWX);
      && ShapeOk(x) && q != Fault
      && (q.Go? ==>
        && PhysOk(q.value, roots) && Grows(x, q.value, o) && |q.value.mem| == |x.mem|
        && OthersSame(x.mem, q.value.mem, roots, o)
        && IdentityBelow(q.value.mem, roots[o], k + 1) && SpaceOf(q.value.mem, roots[o]) == map[])
  {
    hide Leaf, FreeOk, TableOk, LeafOk, UserMode, Valid, MapPage, SpaceOf, IdentityBelow;
    KernelEntryOk(x.role, o, k / 1024, k % 1024, k, RWX);
    MapPageOk(x, roots, o, k / 1024, k % 1024, k, RWX);
    var q := MapPage(x, o, roots[o], k / 1024, k % 1024, k, RWX);
    if q.Go? {
      IdentityStep(x.mem, q.value.mem, roots, o, k);
      SpaceMapKernel(x, q.value, roots, o, k / 1024, k % 1024, Entry(k, RWX));
    }
  }

  // ---- a process under construction ----

  /** Since `x` the owner `o` got its table, the identity map and its trap frame `tf`; nobody else changed. */
  ghost predicate Started(x: Phys, y: Phys, roots: map<nat, nat>, o: nat, tf: nat) {
    && PhysOk(y, roots) && o in roots && ShapeOk(x) && Grows(x, y, o)
    && OthersSame(x.mem, y.mem, roots, o) && IdentityOk(y.mem, roots[o])
    && tf < |x.mem| && x.role[tf] == Free && y.role[tf] == TrapFrame(o)
  }

  lemma StartedPoke(x: Phys, y: Phys, roots: map<nat, nat>, o: nat, tf: nat, k: nat, w: Word)
    requires Started(x, y, roots, o, tf) && k < 1024
    ensures var r := Poke(y, tf, k, w);
      && r.Go? && Started(x, r.value, roots, o, tf)
      && SpaceOf(r.value.mem, roots[o]) == SpaceOf(y.mem, roots[o])
      && r.value.mem == y.mem[tf := y.mem[tf][k := w]] && r.value.role == y.role && r.value.free == y.free
  {
    FillUserPage(y, roots, tf, y.mem[tf][k := w]);
    var z := Poke(y, tf, k, w).value;
    SpaceFrameTf(y, z, roots, o);
    hide PhysOk, Leaf, SpaceOf;
  }

  /** Only the contents of trap frames changed. */
  ghost predicate FramesOnly(y: Phys, z: Phys) {
    && z.role == y.role && z.free == y.free && z.satp == y.satp && |z.mem| == |y.mem| == |y.role|
    && forall p :: 0 <= p < |y.mem| && !y.role[p].TrapFrame? ==> z.mem[p] == y.mem[p]
  }

  lemma FramesOnlyOk(y: Phys, z: Phys, roots: map<nat, nat>)
    requires PhysOk(y, roots) && FramesOnly(y, z)
    ensures PhysOk(z, roots) && SameLeaves(y.mem, z.mem, roots)
  {
    FreeFrame(y, z);
    TablesFrame(y, z, roots);
  }

  lemma SpaceFrameTf(y: Phys, z: Phys, roots: map<nat, nat>, o: nat)
    requires PhysOk(y, roots) && o in roots && FramesOnly(y, z)
    ensures SpaceOf(z.mem, roots[o]) == SpaceOf(y.mem, roots[o])
  {
    TableFrame(y.mem, y.role, z.mem, y.role, o, roots[o]);
    forall v | 0 <= v < 0x10_0000
      ensures UserLeaf(z.mem, roots[o], v) == UserLeaf(y.mem, roots[o], v)
      ensures UserLeaf(y.mem, roots[o], v) ==> UserPageAt(z.mem, roots[o], v) == UserPageAt(y.mem, roots[o], v)
    {
      LeafFacts(y, roots, o, v / 1024, v % 1024);
      hide Leaf, PageOf, FlagsOf, FreeOk, TableOk;
    }
    SpaceSame(y.mem, roots[o], z.mem, roots[o]);
  }

  lemma StartedGrow(x: Phys, y: Phys, z: Phys, roots: map<nat, nat>, o: nat, tf: nat)
    requires Started(x, y, roots, o, tf)
    requires PhysOk(z, roots) && Grows(y, z, o) && UpperOnly(y.mem, z.mem, roots, o)
    ensures Started(x, z, roots, o, tf) && z.mem[tf] == y.mem[tf]
  {
    hide PhysOk, Leaf;
    GrowsTrans(x, y, z, o);
  }

  lemma OneIsUpper(m: Memory, m': Memory, roots: map<nat, nat>, o: nat, i: nat, j: nat, e: Word)
    requires o in roots && 768 <= i < 1024 && j < 1024 && OneLeafSet(m, m', roots, o, i, j, e)
    ensures UpperOnly(m, m', roots, o)
  {
    hide Leaf;
  }

  /** The table, the trap frame and the kernel mappings. */
  function BuildStart(x: Phys, o: nat, kstack: Word): Outcome<(Phys, nat, nat)> {
    var (x1, root) :- Alloc(x, Root(o));
    var (x2, tf) :- Alloc(x1, TrapFrame(o));
    var x3 :- Poke(x2, tf, TF_SP, kstack);
    var x4 :- Poke(x3, tf, TF_HANDLER, USER_TRAP);
    var x5 :- MapKernel(x4, o, root, 0);
    Go((x5, root, tf))
  }

  /** Entry point, image and the trap-frame mapping. */
  function BuildLoad(x: Phys, o: nat, root: nat, tf: nat, file: seq<Byte>): Outcome<(Phys, set<nat>)> {
    var x6 :- Poke(x, tf, TF_EPC, EntryPoint(file));
    var (x7, pages) :- LoadSegments(x6, o, root, file, 0);
    var x8 :- MapPage(x7, o, root, 1023, 1023, tf, RW);
    Go((x8, pages))
  }

  /** The stack page. */
  function BuildStack(x: Phys, o: nat, root: nat, tf: nat): Outcome<(Phys, nat)> {
    var (x9, stack) :- Alloc(x, User(o, 1023, 1022));
    var x10 :- Poke(x9, tf, TF_REGS + SP, STACK_TOP);
    var x11 :- MapPage(x10, o, root, 1023, 1022, stack, RWXU);
    Go((x11, stack))
  }

  lemma BuildStages(x: Phys, o: nat, kstack: Word, file: seq<Byte>)
    ensures BuildImage(x, o, kstack, file) ==
      match BuildStart(x, o, kstack)
      case Halt => Halt
      case Fault => Fault
      case Go((y, root, tf)) =>
        match BuildLoad(y, o, root, tf, file)
        case Halt => Halt
        case Fault => Fault
        case Go((z, pages)) =>
          match BuildStack(z, o, root, tf)
          case Halt => Halt
          case Fault => Fault
          case Go((w, stack)) => Go(Image(w, root, tf, stack, pages))
  {
    hide Alloc, Poke, MapKernel, LoadSegments, MapPage;
  }

  lemma EmptySpace(m: Memory, root: nat)
    requires root < |m| && forall k :: 0 <= k < 1024 ==> !Valid(m[root][k])
    ensures SpaceOf(m, root) == map[]
  {
    forall v | 0 <= v < 0x10_0000 ensures !UserLeaf(m, root, v) {
      assert !Valid(m[root][v / 1024]);
    }
  }

  lemma SameIsOthers(m: Memory, m': Memory, roots: map<nat, nat>, o: nat, root: nat)
    requires o !in roots && SameLeaves(m, m', roots)
    ensures OthersSame(m, m', roots[o := root], o)
  {
    hide Leaf;
    var all: map<nat, nat> := roots[o := root];
    forall b: nat, k, l | b in all && b != o && 0 <= k < 1024 && 0 <= l < 1024
      ensures Leaf(m', all[b], k, l) == Leaf(m, all[b], k, l)
    {
      assert b in roots && all[b] == roots[b];
    }
  }

  lemma OthersTrans(m: Memory, n: Memory, k: Memory, roots: map<nat, nat>, o: nat)
    requires OthersSame(m, n, roots, o) && OthersSame(n, k, roots, o)
    ensures OthersSame(m, k, roots, o)
  {
    hide Leaf;
  }

  /** The trap frame is taken from the free list and its first words are set. */
  lemma StartFrame(x1: Phys, all: map<nat, nat>, o: nat, kstack: Word) returns (x4: Phys, tf: nat)
    requires PhysOk(x1, all) && o in all && x1.free != []
    ensures Alloc(x1, TrapFrame(o)).Go? && Alloc(x1, TrapFrame(o)).value.1 == tf
    ensures Poke(Alloc(x1, TrapFrame(o)).value.0, tf, TF_SP, kstack).Go?
    ensures Poke(Poke(Alloc(x1, TrapFrame(o)).value.0, tf, TF_SP, kstack).value, tf, TF_HANDLER, USER_TRAP) == Go(x4)
    ensures PhysOk(x4, all) && Grows(x1, x4, o) && SameLeaves(x1.mem, x4.mem, all)
    ensures tf < |x1.mem| && x1.role[tf] == Free && x4.role[tf] == TrapFrame(o)
    ensures x4.mem[tf] == Zero()[TF_SP := kstack][TF_HANDLER := USER_TRAP]
    ensures SpaceOf(x4.mem, all[o]) == SpaceOf(x1.mem, all[o])
  {
    hide Leaf, FreeOk, TableOk, SpaceOf;
    AllocOk(x1, all, TrapFrame(o), o);
    var x2 := Alloc(x1, TrapFrame(o)).value.0;
    tf := Alloc(x1, TrapFrame(o)).value.1;
    var f := Zero()[TF_SP := kstack][TF_HANDLER := USER_TRAP];
    FillUserPage(x2, all, tf, f);
    x4 := Phys(x2.mem[tf := f], x2.free, x2.role, x2.satp);
    assert Poke(Poke(x2, tf, TF_SP, kstack).value, tf, TF_HANDLER, USER_TRAP).value.mem == x4.mem;
    SpaceFrame(x1, x2.mem, all, o);
    SpaceFrameTf(x2, x4, all, o);
    SameLeavesTrans(x1.mem, x2.mem, x4.mem, all);
  }

  lemma BuildStartOk(x: Phys, roots: map<nat, nat>, o: nat, kstack: Word)
    requires PhysOk(x, roots) && o !in roots
    ensures BuildStart(x, o, kstack) != Fault
    ensures BuildStart(x, o, kstack).Go? ==>
      var (y, root, tf) := BuildStart(x, o, kstack).value;
      && Started(x, y, roots[o := root], o, tf) && y.mem[tf] == Zero()[TF_SP := kstack][TF_HANDLER := USER_TRAP]
      && SpaceOf(y.mem, root) == map[]
      && root < |x.mem| && x.role[root] == Free
  {
    if x.free != [] {
      var x1, root, all := NewTable(x, roots, o);
      EmptySpace(x1.mem, root);
      if x1.free != [] {
        var x4, tf := StartFrame(x1, all, o, kstack);
        StartMapped(x, x1, x4, roots, all, o, root, tf);
        hide PhysOk, MapKernel, Alloc, SpaceOf, Leaf, Grows;
      }
    }
  }

  lemma StartMapped(x: Phys, x1: Phys, x4: Phys, roots: map<nat, nat>, all: map<nat, nat>, o: nat, root: nat, tf: nat)
    requires PhysOk(x, roots) && o !in roots && all == roots[o := root]
    requires PhysOk(x1, all) && Grows(x, x1, o) && SameLeaves(x.mem, x1.mem, roots)
    requires PhysOk(x4, all) && Grows(x1, x4, o) && SameLeaves(x1.mem, x4.mem, all)
    requires tf < |x1.mem| && x1.role[tf] == Free && x4.role[tf] == TrapFrame(o)
    requires SpaceOf(x4.mem, root) == map[]
    ensures MapKernel(x4, o, root, 0) != Fault
    ensures MapKernel(x4, o, root, 0).Go? ==>
      var y := MapKernel(x4, o, root, 0).value;
      && Started(x, y, all, o, tf) && y.mem[tf] == x4.mem[tf] && SpaceOf(y.mem, root) == map[]
  {
    hide FreeOk, TableOk, Leaf, SpaceOf, MapKernel;
    assert all[o] == root;
    MapKernelOk(x4, all, o, 0);
    var q := MapKernel(x4, o, root, 0);
    if q.Go? {
      var y := q.value;
      GrowsTrans(x, x1, x4, o);
      GrowsTrans(x, x4, y, o);
      SameIsOthers(x.mem, x1.mem, roots, o, root);
      OthersTrans(x.mem, x1.mem, x4.mem, all, o);
      OthersTrans(x.mem, x4.mem, y.mem, all, o);
    }
  }

  lemma BuildLoadOk(x: Phys, y: Phys, roots: map<nat, nat>, o: nat, tf: nat, file: seq<Byte>)
    requires Started(x, y, roots, o, tf) && ImageOk(file)
    ensures BuildLoad(y, o, roots[o], tf, file) != Fault
    ensures BuildLoad(y, o, roots[o], tf, file).Go? ==>
      var (z, pages) := BuildLoad(y, o, roots[o], tf, file).value;
      && Started(x, z, roots, o, tf) && z.mem[tf] == y.mem[tf][TF_EPC := EntryPoint(file)]
      && SpaceOf(z.mem, roots[o]) == ImageSpace(SpaceOf(y.mem, roots[o]), file, 0) - {TRAPFRAME_PAGE}
      && Leaf(z.mem, roots[o], 1023, 1023) == Some(Entry(tf, RW))
      && |pages| == ImagePages(file, 0)
      && forall p :: p in pages ==> p < |x.role| && x.role[p] == Free && z.role[p].User?
  {
    hide SpaceOf, Leaf, PhysOk, FreeOk, TableOk, LoadSegments, MapPage, ImageSpace, ImagePages, Started, Grows,
         UpperOnly, EntryPoint;
    StartedPoke(x, y, roots, o, tf, TF_EPC, EntryPoint(file));
    StartedPhys(x, Poke(y, tf, TF_EPC, EntryPoint(file)).value, roots, o, tf);
    var x6 := Poke(y, tf, TF_EPC, EntryPoint(file)).value;
    LoadSegmentsOk(x6, roots, o, file, 0);
    var q := LoadSegments(x6, o, roots[o], file, 0);
    if q.Go? {
      var (x7, pages) := q.value;
      StartedGrow(x, x6, x7, roots, o, tf);
      StartedPhys(x, x7, roots, o, tf);
      MapTrapFrame(x, x7, roots, o, tf);
      var r := MapPage(x7, o, roots[o], 1023, 1023, tf, RW);
      if r.Go? { PagesStay(x, y, x6, x7, r.value, roots, o, tf, pages); }
    }
  }

  lemma StartedPhys(x: Phys, y: Phys, roots: map<nat, nat>, o: nat, tf: nat)
    requires Started(x, y, roots, o, tf)
    ensures PhysOk(y, roots) && ShapeOk(y) && ShapeOk(x) && Grows(x, y, o) && o in roots && tf < |y.mem|
  {
    hide TableOk, FreeOk, Leaf;
  }

  /** Pages free before the image was loaded were free before the process was started, and are in use ever after. */
  lemma PagesStay(x: Phys, y: Phys, x6: Phys, x7: Phys, z: Phys, roots: map<nat, nat>, o: nat, tf: nat, pages: set<nat>)
    requires Started(x, y, roots, o, tf) && Started(x, x7, roots, o, tf) && x6.role == y.role && Grows(x7, z, o)
    requires forall p :: p in pages ==> p < |x6.role| && x6.role[p] == Free && x7.role[p].User?
    ensures forall p :: p in pages ==> p < |x.role| && x.role[p] == Free && z.role[p].User?
  {
    hide TableOk, FreeOk, Leaf, IdentityOk, OthersSame;
  }

  lemma MapTrapFrame(x: Phys, x7: Phys, roots: map<nat, nat>, o: nat, tf: nat)
    requires Started(x, x7, roots, o, tf)
    ensures var q := MapPage(x7, o, roots[o], 1023, 1023, tf, RW);
      && q != Fault
      && (q.Go? ==>
        && Started(x, q.value, roots, o, tf) && q.value.mem[tf] == x7.mem[tf] && Grows(x7, q.value, o)
        && SpaceOf(q.value.mem, roots[o]) == SpaceOf(x7.mem, roots[o]) - {TRAPFRAME_PAGE}
        && Leaf(q.value.mem, roots[o], 1023, 1023) == Some(Entry(tf, RW)))
  {
    hide SpaceOf, Leaf, FreeOk, TableOk, MapPage, LeafOk, Valid, UserMode;
    KernelEntryOk(x7.role, o, 1023, 1023, tf, RW);
    MapPageOk(x7, roots, o, 1023, 1023, tf, RW);
    var q := MapPage(x7, o, roots[o], 1023, 1023, tf, RW);
    if q.Go? {
      OneIsUpper(x7.mem, q.value.mem, roots, o, 1023, 1023, Entry(tf, RW));
      StartedGrow(x, x7, q.value, roots, o, tf);
      SpaceMapKernel(x7, q.value, roots, o, 1023, 1023, Entry(tf, RW));
    }
  }

  lemma BuildStackOk(x: Phys, z: Phys, roots: map<nat, nat>, o: nat, tf: nat)
    requires Started(x, z, roots, o, tf)
    ensures BuildStack(z, o, roots[o], tf) != Fault
    ensures BuildStack(z, o, roots[o], tf).Go? ==>
      var (w, stack) := BuildStack(z, o, roots[o], tf).value;
      && Started(x, w, roots, o, tf) && w.mem[tf] == z.mem[tf][TF_REGS + SP := STACK_TOP]
      && SpaceOf(w.mem, roots[o]) == SpaceOf(z.mem, roots[o])[STACK_PAGE := Page(RWXU, Zero())]
      && Leaf(w.mem, roots[o], 1023, 1023) == Leaf(z.mem, roots[o], 1023, 1023)
      && Leaf(w.mem, roots[o], 1023, 1022) == Some(Entry(stack, RWXU))
      && stack < |x.mem| && z.role[stack] == Free && x.role[stack] == Free
      && w.role[stack] == User(o, 1023, 1022) && w.mem[stack] == Zero()
      && (forall p :: 0 <= p < |z.mem| && z.role[p] != Free ==> w.role[p] == z.role[p])
  {
    hide SpaceOf, Leaf, FreeOk, TableOk, MapPage, LeafOk, Valid, UserMode, Alloc, Poke;
    AllocOk(z, roots, User(o, 1023, 1022), o);
    var q := Alloc(z, User(o, 1023, 1022));
    if q.Go? {
      var (x9, stack) := q.value;
      SameIsUpper(z.mem, x9.mem, roots, o);
      StartedGrow(x, z, x9, roots, o, tf);
      SpaceFrame(z, x9.mem, roots, o);
      StartedPoke(x, x9, roots, o, tf, TF_REGS + SP, STACK_TOP);
      var x10 := Poke(x9, tf, TF_REGS + SP, STACK_TOP).value;
      assert Leaf(x10.mem, roots[o], 1023, 1023) ==
        Leaf(x9.mem, roots[o], 1023, 1023) by { PokeLeaves(x9, roots, o, tf, TF_REGS + SP, STACK_TOP); }
      MapStack(x, x10, roots, o, tf, stack);
    }
  }

  lemma SameIsUpper(m: Memory, m': Memory, roots: map<nat, nat>, o: nat)
    requires SameLeaves(m, m', roots)
    ensures UpperOnly(m, m', roots, o)
  {
    hide Leaf;
  }

  lemma PokeLeaves(y: Phys, roots: map<nat, nat>, o: nat, tf: nat, k: nat, w: Word)
    requires PhysOk(y, roots) && o in roots && tf < |y.mem| && tf < |y.role| && y.role[tf].TrapFrame? && k < 1024
    ensures Poke(y, tf, k, w).Go? && PhysOk(Poke(y, tf, k, w).value, roots)
    ensures SameLeaves(y.mem, Poke(y, tf, k, w).value.mem, roots)
  {
    FillUserPage(y, roots, tf, y.mem[tf][k := w]);
  }

  lemma MapStack(x: Phys, x10: Phys, roots: map<nat, nat>, o: nat, tf: nat, stack: nat)
    requires Started(x, x10, roots, o, tf) && stack < |x10.mem| && x10.role[stack] == User(o, 1023, 1022)
    ensures var q := MapPage(x10, o, roots[o], 1023, 1022, stack, RWXU);
      && q != Fault
      && (q.Go? ==>
        && Started(x, q.value, roots, o, tf) && q.value.mem[tf] == x10.mem[tf] && Grows(x10, q.value, o)
        && q.value.mem[stack] == x10.mem[stack]
        && SpaceOf(q.value.mem, roots[o]) == SpaceOf(x10.mem, roots[o])[STACK_PAGE := Page(RWXU, x10.mem[stack])]
        && Leaf(q.value.mem, roots[o], 1023, 1023) == Leaf(x10.mem, roots[o], 1023, 1023)
        && Leaf(q.value.mem, roots[o], 1023, 1022) == Some(Entry(stack, RWXU)))
  {
    hide SpaceOf, Leaf, FreeOk, TableOk, MapPage, LeafOk, Valid, UserMode;
    UserEntryOk(x10.role, o, 1023, 1022, stack, RWXU);
    MapPageOk(x10, roots, o, 1023, 1022, stack, RWXU);
    var q := MapPage(x10, o, roots[o], 1023, 1022, stack, RWXU);
    if q.Go? {
      OneIsUpper(x10.mem, q.value.mem, roots, o, 1023, 1022, Entry(stack, RWXU));
      StartedGrow(x, x10, q.value, roots, o, tf);
      SpaceMapUser(x10, q.value, roots, o, 1023, 1022, Entry(stack, RWXU));
    }
  }

  /** A complete image: everything a process needs before it can run, all of it taken from free pages. */
  ghost predicate ImageBuilt(x: Phys, im: Image, roots: map<nat, nat>, o: nat, kstack: Word, file: seq<Byte>) {
    && Started(x, im.x, roots, o, im.trapframe) && roots[o] == im.root
    && im.root < |x.role| && x.role[im.root] == Free
    && Leaf(im.x.mem, im.root, 1023, 1023) == Some(Entry(im.trapframe, RW))
    && im.stack < |x.role| && x.role[im.stack] == Free && im.x.role[im.stack] == User(o, 1023, 1022)
    && Leaf(im.x.mem, im.root, 1023, 1022) == Some(Entry(im.stack, RWXU)) && im.x.mem[im.stack] == Zero()
    && im.x.mem[im.trapframe] ==
       Zero()[TF_SP := kstack][TF_HANDLER := USER_TRAP][TF_EPC := EntryPoint(file)][TF_REGS + SP := STACK_TOP]
    && SpaceOf(im.x.mem, im.root) ==
       (ImageSpace(map[], file, 0) - {TRAPFRAME_PAGE})[STACK_PAGE := Page(RWXU, Zero())]
    && im.stack !in im.pages && |im.pages| == ImagePages(file, 0)
    && forall p :: p in im.pages ==> p < |x.role| && x.role[p] == Free && im.x.role[p].User?
  }

  lemma BuildImageOk(x: Phys, roots: map<nat, nat>, o: nat, kstack: Word, file: seq<Byte>)
    requires PhysOk(x, roots) && o !in roots && ImageOk(file)
    ensures BuildImage(x, o, kstack, file) != Fault
    ensures BuildImage(x, o, kstack, file).Go? ==>
      var im := BuildImage(x, o, kstack, file).value;
      ImageBuilt(x, im, roots[o := im.root], o, kstack, file)
  {
    hide SpaceOf, Leaf, FreeOk, TableOk, BuildImage, BuildStart, BuildLoad, BuildStack, ImageSpace, ImagePages,
         ImageOk, PhysOk;
    BuildStages(x, o, kstack, file);
    BuildStartOk(x, roots, o, kstack);
    var q := BuildStart(x, o, kstack);
    if q.Go? {
      var (y, root, tf) := q.value;
      var all: map<nat, nat> := roots[o := root];
      BuildLoadOk(x, y, all, o, tf, file);
      var q2 := BuildLoad(y, o, root, tf, file);
      if q2.Go? {
        BuildStackOk(x, q2.value.0, all, o, tf);
      }
    }
  }
}
