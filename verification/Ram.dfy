/**
 kmem.c and kvmem.c as they run: one memory updated in place, a free list whose
 links are words of the free pages, and loops over table entries. Every method is
 proved against the function that specifies it.

 A page pointer is a frame number; link words and table entries hold addresses.
 */
module RamImpl {
  import opened Sv32
  import opened Bytes
  import opened Pages
  import opened PageTables
  import opened TableCopy
  import opened Spaces
  import opened Images
  import opened Processes
  import opened Building
  import opened Boot

  class Ram {
    var mem: Memory
    var head: Word
    var satp: nat
    ghost var free: seq<nat>
    ghost var role: seq<Role>

    ghost function X(): Phys
      reads this
    {
      Phys(mem, free, role, satp)
    }

    /** The head pointer is the address of the first free page, or NULL. */
    ghost predicate Valid()
      reads this
    {
      && |role| == |mem| <= 0xC_0000
      && head == Link(free, 0)
      && FreeOk(X())
      && forall p :: p in free ==> 0 < p
    }

    /** Memory before any page has been freed. */
    constructor (memory: Memory, ramBegin: nat)
      requires 0 < ramBegin <= |memory| <= 0xC_0000
      ensures Valid() && X() == Untouched(memory, ramBegin)
    {
      mem, head, satp := memory, 0, 0;
      free := [];
      role := Untouched(memory, ramBegin).role;
    }

    /** kmem_alloc; not ok is the panic for lack of memory. */
    method Alloc(ghost r: Role) returns (ok: bool, page: nat)
      requires Valid() && satp !in free && r != Free
      modifies this
      ensures Valid() && satp == old(satp)
      ensures ok <==> Pages.Alloc(old(X()), r).Go?
      ensures ok ==> Pages.Alloc(old(X()), r) == Go((X(), page))
      ensures !ok ==> X() == old(X())
    {
      ghost var x := X();
      page := 0;
      assert free != [] ==> free[0] in free;
      if head != 0 {
        assert LinkedAt(x, 0);
        AllocFree(x, r);
        page := head / 4096;
        head := mem[page][0];
        mem := mem[page := Zero()];
        free := free[1..];
        role := role[page := r];
        assert head == Link(x.free, 1) == Link(free, 0);
        forall p | p in free ensures 0 < p { assert p in x.free; }
        ok := true;
      } else {
        assert free == [];
        ok := false;
      }
    }

    /** kmem_free: the page becomes the head of the list and its first word the link. */
    method Release(page: nat)
      requires Valid() && 0 < page < |mem| && role[page] != Free
      modifies this
      ensures Valid() && satp == old(satp)
      ensures Pages.Release(old(X()), page) == Go(X())
    {
      ReleaseFree(X(), page);
      mem := mem[page := mem[page][0 := head]];
      head := 4096 * page;
      free := [page] + free;
      role := role[page := Free];
    }

    /** kmem_init. */
    method Init(ramBegin: nat)
      requires Valid() && X() == Untouched(mem, ramBegin) && RamOk(mem, ramBegin)
      modifies this
      ensures Valid() && FreeRam(old(X()), ramBegin) == Go(X())
      ensures FreedFrom(X(), ramBegin, |mem|)
    {
      StartRam(mem, ramBegin);
      var k := ramBegin;
      while k < |mem|
        invariant Valid() && |mem| == old(|mem|) && ramBegin <= k <= |mem|
        invariant FreedFrom(X(), ramBegin, k)
        invariant FreeRam(X(), k) == FreeRam(old(X()), ramBegin)
      {
        ghost var x := X();
        ReleaseOk(x, map[], k);
        FreedStep(x, ramBegin, k);
        Release(k);
        k := k + 1;
      }
    }

    /** kvmem_map_page. */
    method MapPage(ghost roots: map<nat, nat>, ghost o: nat, root: nat, va: Word, pa: Word, flags: nat) returns (ok: bool)
      requires Valid() && PhysOk(X(), roots) && o in roots && roots[o] == root && pa / 4096 < |mem| && flags < 1024
      requires var i, j, p := va / 0x40_0000, (va / 4096) % 1024, pa / 4096;
        && Sv32.Valid(Entry(p, flags)) && LeafOk(role, o, i, j, Entry(p, flags))
        && (role[p] == Free ==> !UserMode(Entry(p, flags)))
      modifies this
      ensures Valid() && satp == old(satp)
      ensures var r := PageTables.MapPage(old(X()), o, root, va / 0x40_0000, (va / 4096) % 1024, pa / 4096, flags);
        && r != Fault && (ok <==> r.Go?) && (ok ==> r == Go(X()) && PhysOk(X(), roots))
    {
      hide FreeOk, TableOk, Leaf, FlagsOf, Grows, SameLeaves, OneLeafSet;
      ghost var x := X();
      var vpn1, vpn0 := va / 0x40_0000, (va / 4096) % 1024;
      MapPageOk(x, roots, o, vpn1, vpn0, pa / 4096, flags);
      WithLevel0Ok(x, roots, o, vpn1);
      InRange(x, roots, o);
      if !Sv32.Valid(mem[root][vpn1]) {
        var page;
        ok, page := Alloc(Level0(o, vpn1));
        if !ok { return; }
        InsideRam(x, Level0(o, vpn1));
        mem := mem[root := mem[root][vpn1 := Entry(page, NEXT_LEVEL)]];
      }
      assert WithLevel0(x, o, root, vpn1) == Go(X());
      LeafFacts(X(), roots, o, vpn1, vpn0);
      var table0 := PageOf(mem[root][vpn1]);
      mem := mem[table0 := mem[table0][vpn0 := Entry(pa / 4096, flags)]];
      assert PageTables.MapPage(x, o, root, vpn1, vpn0, pa / 4096, flags) == Go(X());
      ok := true;
    }

    /** kvmem_get_pa. */
    method GetPa(ghost roots: map<nat, nat>, ghost o: nat, root: nat, va: Word) returns (found: bool, page: nat)
      requires PhysOk(X(), roots) && o in roots && roots[o] == root
      ensures GetPage(mem, root, va / 0x40_0000, (va / 4096) % 1024) == if found then Some(page) else None
    {
      var vpn1, vpn0 := va / 0x40_0000, (va / 4096) % 1024;
      found, page := false, 0;
      InRange(X(), roots, o);
      LeafFacts(X(), roots, o, vpn1, vpn0);
      if Sv32.Valid(mem[root][vpn1]) {
        var table0 := PageOf(mem[root][vpn1]);
        if Sv32.Valid(mem[table0][vpn0]) {
          found, page := true, PageOf(mem[table0][vpn0]);
        }
      }
    }

    /** The identity-mapping loop of process creation and kvmem_init_kernel. */
    method MapKernel(ghost roots: map<nat, nat>, ghost o: nat, root: nat) returns (ok: bool)
      requires Valid() && PhysOk(X(), roots) && o in roots && roots[o] == root && SpaceOf(mem, root) == map[]
      modifies this
      ensures Valid() && satp == old(satp)
      ensures var r := Processes.MapKernel(old(X()), o, root, 0);
        && r != Fault && (ok <==> r.Go?) && (ok ==> r == Go(X()) && PhysOk(X(), roots))
    {
      hide PhysOk, FreeOk, SpaceOf, IdentityBelow, Leaf, PageTables.MapPage, Processes.MapKernel, Grows, OthersSame;
      ghost var spec := Processes.MapKernel(X(), o, root, 0);
      EmptyIdentity(mem, root);
      MapKernelOk(X(), roots, o, 0);
      var pa := 0;
      while pa < 4096 * |mem|
        invariant Valid() && satp == old(satp) && 0 <= pa <= 4096 * |mem| && pa % 4096 == 0
        invariant PhysOk(X(), roots) && SpaceOf(mem, root) == map[] && IdentityBelow(mem, root, pa / 4096)
        invariant Processes.MapKernel(X(), o, root, pa / 4096) == spec
        invariant spec != Fault
        decreases 4096 * |mem| - pa
      {
        ghost var x, k := X(), pa / 4096;
        PageAddress(pa);
        MapKernelStep(x, roots, o, k);
        MapKernelOk(x, roots, o, k);
        KernelUnfold(x, o, root, k);
        KernelEntryOk(role, o, k / 1024, k % 1024, k, RWX);
        ok := MapPage(roots, o, root, pa, pa, RWX);
        if !ok { return; }
        pa := pa + 4096;
      }
      KernelDone(X(), o, root);
      ok := true;
    }

    /** One turn of the outer loop of kvmem_copy_pagetable: a second-level table is copied entry by entry. */
    method CopyLevel(ghost all: map<nat, nat>, ghost b: nat, ghost o: nat, src: nat, dest: nat, i: nat) returns (ok: bool)
      requires Valid() && Level1Ready(X(), all, b, o, i) && i < 1024 && all[b] == src && all[o] == dest &&
        Sv32.Valid(mem[src][i])
      modifies this
      ensures Valid() && satp == old(satp)
      ensures var r := CopySlot(old(X()), o, src, dest, i);
        && r != Fault && (ok <==> r.Go?) && (ok ==> r == Go(X()) && Level1Ready(X(), all, b, o, i + 1))
    {
      hide PhysOk, FreeOk, TableOk, CopyLevel0, CopyLevel1, Level1Copied, Level0Copied, Leaf, CopyEntry, UserCount,
           TableCount, Pages.Alloc, SameLeaves, Grows, Level0Ready;
      ghost var x := X();
      Level1Step(x, all, b, o, i);
      ReadyAlloc(x, all);
      var base := PageOf(mem[src][i]);
      var dst0;
      ok, dst0 := Alloc(Level0(o, i));
      if !ok { SlotHalts(x, o, src, dest, i); return; }
      HasPages(x, Level0(o, i));
      ghost var w := NewSlot(x, all, b, o, i);
      mem := mem[dest := mem[dest][i := Entry(dst0, NEXT_LEVEL)]];
      assert X() == w;
      ReadyAlloc(w, all) by { SlotReady(w, all, b, o, i); }
      ok := CopyEntries(all, b, o, src, dest, i, base, dst0);
    }

    /** The inner loop: every entry of a second-level table, into the new one. */
    method CopyEntries(ghost all: map<nat, nat>, ghost b: nat, ghost o: nat, ghost src: nat, ghost dest: nat, ghost i: nat,
                       base: nat, dst0: nat) returns (ok: bool)
      requires Valid() && Level0Ready(X(), all, b, o, i, 0) && all[b] == src && all[o] == dest && i < 1024
      requires PageOf(mem[src][i]) == base && PageOf(mem[dest][i]) == dst0
      modifies this
      ensures Valid() && satp == old(satp)
      ensures var r := CopyLevel0(old(X()), o, i, base, dst0, 0); r != Fault && (ok <==> r.Go?) && (ok ==> r == Go(X()))
    {
      hide PhysOk, FreeOk, TableOk, CopyLevel0, Level0Copied, Leaf, CopyEntry, UserCount, Pages.Alloc, SameLeaves, Grows,
           FlagsOf;
      ghost var spec := CopyLevel0(X(), o, i, base, dst0, 0);
      CopyLevel0Ok(X(), all, b, o, i, 0);
      LeafHere(X(), all, b, o, i, 0);
      var j := 0;
      while j < 1024
        invariant Valid() && satp == old(satp) && j <= 1024 && Level0Ready(X(), all, b, o, i, j)
        invariant PageOf(mem[src][i]) == base < |mem| && PageOf(mem[dest][i]) == dst0 < |mem|
        invariant CopyLevel0(X(), o, i, base, dst0, j) == spec
      {
        Level0Unfold(X(), o, i, base, dst0, j);
        if Sv32.Valid(mem[base][j]) {
          ghost var y := X();
          LeafHere(y, all, b, o, i, j);
          Level0Step(y, all, b, o, i, j);
          TablesHere(y, all, b, o, i, j);
          ok := CopyOne(all, b, o, i, base, dst0, j);
          if !ok { return; }
          TablesHere(X(), all, b, o, i, j + 1);
        }
        j := j + 1;
      }
      Level0End(X(), o, i, base, dst0);
      ok := true;
    }

    /** The inner loop body: the entry is stored, and a user page is then replaced by a copy of its own. */
    method CopyOne(ghost all: map<nat, nat>, ghost b: nat, ghost o: nat, ghost i: nat, base: nat, dst0: nat, j: nat) returns (ok: bool)
      requires Valid() && Level0Ready(X(), all, b, o, i, j) && j < 1024
      requires base == PageOf(mem[all[b]][i]) && dst0 == PageOf(mem[all[o]][i]) && base < |mem| && dst0 < |mem|
      requires Sv32.Valid(mem[base][j]) && PageOf(mem[base][j]) < |mem| && base != dst0
      requires CopyEntry(X(), o, i, base, dst0, j) != Fault && role[dst0] == Level0(o, i) && role[base] != Free
      requires CopyEntry(X(), o, i, base, dst0, j).Go? ==>
        Level0Ready(CopyEntry(X(), o, i, base, dst0, j).value, all, b, o, i, j + 1)
      modifies this
      ensures Valid() && satp == old(satp)
      ensures var r := CopyEntry(old(X()), o, i, base, dst0, j); (ok <==> r.Go?) && (ok ==> r == Go(X()))
    {
      hide PhysOk, TableOk, Leaf, Pages.Alloc, FreeOk;
      ghost var x := X();
      ReadyAlloc(x, all);
      ok := true;
      var pte := mem[base][j];
      mem := mem[dst0 := mem[dst0][j := pte]];
      TableWrite(x, X(), dst0);
      if UserMode(pte) {
        var page;
        AllocAfterWrite(x, dst0, j, pte, User(o, i, j));
        ok, page := Alloc(User(o, i, j));
        if !ok { return; }
        mem := mem[dst0 := mem[dst0][j := Entry(page, FlagsOf(mem[dst0][j]))]];
        mem := mem[page := mem[PageOf(mem[base][j])]];
        CopiedState(x, X(), o, i, base, dst0, j, page);
        ReadyAlloc(X(), all);
      }
    }

    /** kvmem_copy_pagetable. */
    method CopyPagetable(ghost roots: map<nat, nat>, ghost b: nat, ghost o: nat, src: nat) returns (ok: bool, dest: nat)
      requires Valid() && PhysOk(X(), roots) && b in roots && o !in roots && roots[b] == src
      modifies this
      ensures Valid() && satp == old(satp)
      ensures var r := CopyTable(old(X()), o, src);
        && r != Fault && (ok <==> r.Go?) && (ok ==> r == Go((X(), dest)) && PhysOk(X(), roots[o := dest]))
    {
      hide PhysOk, FreeOk, TableOk, CopyLevel1, Level1Copied, Pages.Alloc, Leaf, TableCount, SameLeaves, CopySlot,
           CopiedAt, FreshAt;
      ghost var x := X();
      CopyTableOk(x, roots, b, o);
      ReadyAlloc(x, roots);
      ok, dest := Alloc(Root(o));
      if !ok { return; }
      HasPages(x, Root(o));
      ghost var y, d, all := NewRoot(x, roots, b, o);
      assert X() == y && d == dest && all[b] == src && all[o] == dest;
      ghost var spec := CopyLevel1(y, o, src, dest, 0);
      CopyLevel1Ok(y, all, b, o, 0);
      var i := 0;
      while i < 1024
        invariant Valid() && satp == old(satp) && i <= 1024 && Level1Ready(X(), all, b, o, i)
        invariant CopyLevel1(X(), o, src, dest, i) == spec
      {
        Level1Unfold(X(), o, src, dest, i);
        if Sv32.Valid(mem[src][i]) {
          ok := CopyLevel(all, b, o, src, dest, i);
          if !ok { return; }
        }
        i := i + 1;
      }
      Level1End(X(), o, src, dest);
      ok := true;
    }

    /** One page of a segment: a fresh page, the bytes copied into it, and the mapping for user mode. */
    method LoadPage(ghost roots: map<nat, nat>, ghost o: nat, root: nat, file: seq<Byte>, g: Segment, k: nat, len: nat)
      returns (ok: bool, page: nat)
      requires Valid() && PhysOk(X(), roots) && o in roots && roots[o] == root && InUserSpace(g) && 4096 * k < g.memsz
      requires len == PageLen(g, k)
      modifies this
      ensures Valid() && satp == old(satp)
      ensures var r := Images.LoadPage(old(X()), o, root, file, g, k);
        && r != Fault && (ok <==> r.Go?) && (ok ==> r == Go((X(), page)) && PhysOk(X(), roots))
    {
      hide PhysOk, FreeOk, TableOk, Leaf, PageTables.MapPage, PackPage, Chunk, SpaceOf, SameLeaves, Gained, Grows,
           LeafOk, UserMode, PageLen, Images.LoadPage, PageNumber, InUserSpace;
      ghost var x := X();
      LoadPageStages(x, o, root, file, g, k);
      var va := (g.vaddr + 4096 * k) % 0x1_0000_0000;
      ghost var i, j := va / 0x40_0000, (va / 4096) % 1024;
      UserIndex(g, k);
      LoadPageOk(x, roots, o, file, g, k);
      ReadyAlloc(x, roots);
      AllocOk(x, roots, User(o, i, j), o);
      ok, page := Alloc(User(o, i, j));
      if !ok { return; }
      FillUserPage(X(), roots, page, PackPage(Chunk(file, g.offset + 4096 * k, len)));
      mem := mem[page := PackPage(Chunk(file, g.offset + 4096 * k, len))];
      ReadyAlloc(X(), roots);
      UserEntryOk(role, o, i, j, page, RWXU);
      ok := MapPage(roots, o, root, va, 4096 * page, RWXU);
    }

    /** The full pages of a segment in a loop, then the remainder; `n` counts pages for the heap break. */
    method LoadSegment(ghost roots: map<nat, nat>, ghost o: nat, root: nat, file: seq<Byte>, g: Segment)
      returns (ok: bool, n: nat, ghost taken: set<nat>)
      requires Valid() && PhysOk(X(), roots) && o in roots && roots[o] == root && InUserSpace(g)
      modifies this
      ensures Valid() && satp == old(satp)
      ensures var r := LoadPages(old(X()), o, root, file, g, 0);
        && r != Fault && (ok <==> r.Go?) && (ok ==> r == Go((X(), taken)) && PhysOk(X(), roots) && n == PageCount(g))
    {
      hide PhysOk, FreeOk, TableOk, Leaf, Images.LoadPage, SpaceOf, InUserSpace;
      ghost var spec := LoadPages(X(), o, root, file, g, 0);
      LoadPagesOk(X(), roots, o, file, g, 0);
      taken := {};
      var fullPages, lastSize := g.memsz / 4096, g.memsz % 4096;
      SegmentSizes(g);
      AddNone(spec);
      n := 0;
      while n < fullPages
        invariant Valid() && satp == old(satp) && n <= fullPages && PhysOk(X(), roots)
        invariant spec == AddPages(taken, LoadPages(X(), o, root, file, g, n))
      {
        PageSizes(g, n);
        LoadUnfold(X(), o, root, file, g, n, taken);
        var page;
        ok, page := LoadPage(roots, o, root, file, g, n, 4096);
        if !ok { return; }
        taken := taken + {page};
        n := n + 1;
      }
      if lastSize > 0 {
        PageSizes(g, n);
        LoadUnfold(X(), o, root, file, g, n, taken);
        var page;
        ok, page := LoadPage(roots, o, root, file, g, n, lastSize);
        if !ok { return; }
        taken := taken + {page};
        n := n + 1;
      }
      LoadEnd(X(), o, root, file, g, n);
      ok := true;
    }
  }

  function AddPages(s: set<nat>, r: Outcome<(Phys, set<nat>)>): Outcome<(Phys, set<nat>)> {
    match r
    case Halt => Halt
    case Fault => Fault
    case Go((z, t)) => Go((z, s + t))
  }

  lemma AddNone(r: Outcome<(Phys, set<nat>)>)
    ensures AddPages({}, r) == r
  {
    match r case Halt => case Fault => case Go((z, t)) => assert {} + t == t;
  }

  lemma SegmentSizes(g: Segment)
    ensures PageCount(g) == g.memsz / 4096 + if g.memsz % 4096 > 0 then 1 else 0
  {
  }

  lemma PageSizes(g: Segment, k: nat)
    requires k < g.memsz / 4096 || (k == g.memsz / 4096 && g.memsz % 4096 > 0)
    ensures 4096 * k < g.memsz && k < PageCount(g)
    ensures PageLen(g, k) == if k < g.memsz / 4096 then 4096 else g.memsz % 4096
  {
  }

  lemma SameIndex(va: Word)
    ensures va / 0x40_0000 == (va / 4096) / 1024
  {
  }

  lemma LoadUnfold(x: Phys, o: nat, root: nat, file: seq<Byte>, g: Segment, k: nat, taken: set<nat>)
    requires k < PageCount(g)
    ensures AddPages(taken, LoadPages(x, o, root, file, g, k)) ==
      match Images.LoadPage(x, o, root, file, g, k)
      case Halt => Halt
      case Fault => Fault
      case Go((y, p)) => AddPages(taken + {p}, LoadPages(y, o, root, file, g, k + 1))
  {
    hide Images.LoadPage, PageCount;
    match Images.LoadPage(x, o, root, file, g, k)
    case Halt =>
    case Fault =>
    case Go((y, p)) =>
      match LoadPages(y, o, root, file, g, k + 1)
      case Halt =>
      case Fault =>
      case Go((z, s)) => assert taken + ({p} + s) == taken + {p} + s;
  }

  lemma LoadEnd(x: Phys, o: nat, root: nat, file: seq<Byte>, g: Segment, k: nat)
    requires k >= PageCount(g)
    ensures LoadPages(x, o, root, file, g, k) == Go((x, {}))
  {
  }

  lemma ReadyAlloc(x: Phys, roots: map<nat, nat>)
    requires PhysOk(x, roots)
    ensures x.satp !in x.free && ShapeOk(x) && FreeOk(x)
    ensures forall r :: r != Free ==> Pages.Alloc(x, r) != Fault
  {
    forall r | r != Free ensures Pages.Alloc(x, r) != Fault { AllocOk(x, roots, r, 0); }
  }

  lemma HasPages(x: Phys, r: Role)
    requires Pages.Alloc(x, r).Go?
    ensures x.free != []
  {
  }

  lemma SlotHalts(x: Phys, o: nat, src: nat, dest: nat, i: nat)
    requires i < 1024 && src < |x.mem| && Pages.Alloc(x, Level0(o, i)).Halt?
    ensures CopySlot(x, o, src, dest, i).Halt?
  {
  }

  lemma Level0Unfold(x: Phys, o: nat, i: nat, src: nat, dst: nat, j: nat)
    requires i < 1024 && j < 1024 && src < |x.mem|
    ensures !Sv32.Valid(x.mem[src][j]) ==> CopyLevel0(x, o, i, src, dst, j) == CopyLevel0(x, o, i, src, dst, j + 1)
    ensures Sv32.Valid(x.mem[src][j]) ==>
      CopyLevel0(x, o, i, src, dst, j) ==
        match CopyEntry(x, o, i, src, dst, j) case Halt => Halt case Fault => Fault case Go(y) => CopyLevel0(y, o, i, src, dst, j + 1)
  {
    hide CopyEntry;
  }

  lemma Level0End(x: Phys, o: nat, i: nat, src: nat, dst: nat)
    ensures CopyLevel0(x, o, i, src, dst, 1024) == Go(x)
  {
  }

  lemma Level1Unfold(x: Phys, o: nat, src: nat, dst: nat, i: nat)
    requires i < 1024 && src < |x.mem|
    ensures !Sv32.Valid(x.mem[src][i]) ==> CopyLevel1(x, o, src, dst, i) == CopyLevel1(x, o, src, dst, i + 1)
    ensures Sv32.Valid(x.mem[src][i]) ==>
      CopyLevel1(x, o, src, dst, i) ==
        match CopySlot(x, o, src, dst, i) case Halt => Halt case Fault => Fault case Go(y) => CopyLevel1(y, o, src, dst, i + 1)
  {
    hide CopySlot;
  }

  lemma Level1End(x: Phys, o: nat, src: nat, dst: nat)
    ensures CopyLevel1(x, o, src, dst, 1024) == Go(x)
  {
  }

  lemma LeafHere(y: Phys, all: map<nat, nat>, b: nat, o: nat, i: nat, j: nat)
    requires Level0Ready(y, all, b, o, i, j) && j < 1024
    ensures var base := PageOf(y.mem[all[b]][i]);
      && (Sv32.Valid(y.mem[base][j]) ==> Leaf(y.mem, all[b], i, j) == Some(y.mem[base][j]) && PageOf(y.mem[base][j]) < |y.mem|)
      && PageOf(y.mem[all[o]][i]) < |y.mem| == |y.role| && y.role[PageOf(y.mem[all[o]][i])] == Level0(o, i)
  {
    hide FreeOk, TableOk;
    LeafFacts(y, all, b, i, j);
    TablesHere(y, all, b, o, i, j);
  }

  lemma SlotReady(w: Phys, all: map<nat, nat>, b: nat, o: nat, i: nat)
    requires Level0Ready(w, all, b, o, i, 0)
    ensures PhysOk(w, all)
  {
    hide PhysOk, Leaf;
  }

  lemma TablesHere(y: Phys, all: map<nat, nat>, b: nat, o: nat, i: nat, j: nat)
    requires Level0Ready(y, all, b, o, i, j)
    ensures var base, dst := PageOf(y.mem[all[b]][i]), PageOf(y.mem[all[o]][i]);
      && base < |y.mem| == |y.role| && dst < |y.role|
      && y.role[base] == Level0(b, i) && y.role[dst] == Level0(o, i)
  {
    hide FreeOk, TableOk;
    LeafFacts(y, all, b, i, 0);
    LeafFacts(y, all, o, i, 0);
  }

  /** Writing to a table page leaves the free list linked. */
  lemma TableWrite(x: Phys, y: Phys, q: nat)
    requires ShapeOk(x) && FreeOk(x) && q < |x.role| && x.role[q] != Free
    requires y.free == x.free && y.role == x.role && |y.mem| == |x.mem|
    requires forall p :: 0 <= p < |x.mem| && p != q ==> y.mem[p] == x.mem[p]
    ensures FreeOk(y)
  {
    FreeFrame(x, y);
  }

  lemma AllocAfterWrite(x: Phys, q: nat, j: nat, e: Word, r: Role)
    requires ShapeOk(x) && FreeOk(x) && q < |x.mem| && x.role[q] != Free && j < 1024
    ensures var y := Pages.Alloc(x, r);
      && (y.Go? ==>
        && y.value.1 != q && y.value.1 < |x.mem| && x.role[y.value.1] == Free
        && y.value.0.mem == x.mem[y.value.1 := Zero()]
        && Pages.Alloc(Put(x, q, j, e), r) == Go((Put(y.value.0, q, j, e), y.value.1)))
      && (y.Halt? ==> Pages.Alloc(Put(x, q, j, e), r).Halt?)
  {
    if x.free != [] {
      assert LinkedAt(x, 0);
      var p := x.free[0];
      assert x.mem[q := x.mem[q][j := e]][p := Zero()] == x.mem[p := Zero()][q := x.mem[q][j := e]];
    }
  }

  lemma CopiedState(x: Phys, z: Phys, o: nat, i: nat, src: nat, dst: nat, j: nat, p: nat)
    requires j < 1024 && src < |x.mem| && dst < |x.mem| && src != dst && CopyEntry(x, o, i, src, dst, j) != Fault
    requires UserMode(x.mem[src][j]) && Pages.Alloc(x, User(o, i, j)).Go? && p == Pages.Alloc(x, User(o, i, j)).value.1
    requires p != dst && p < |x.mem| && p < 0x10_0000 && p != src && PageOf(x.mem[src][j]) < |x.mem|
    requires var e, y := x.mem[src][j], Pages.Alloc(x, User(o, i, j)).value.0;
      && |y.mem| == |x.mem| && z.free == y.free && z.role == y.role && z.satp == y.satp
      && z.mem == y.mem[dst := y.mem[dst][j := e][j := Entry(p, FlagsOf(e))]][p := y.mem[dst := y.mem[dst][j := e][j := Entry(p, FlagsOf(e))]][PageOf(e)]]
    ensures CopyEntry(x, o, i, src, dst, j) == Go(z)
  {
    var e, y := x.mem[src][j], Pages.Alloc(x, User(o, i, j)).value.0;
    assert y.mem[dst][j := e][j := Entry(p, FlagsOf(e))] == y.mem[dst][j := Entry(p, FlagsOf(e))];
    hide Pages.Alloc;
  }

  lemma FreedStep(x: Phys, lo: nat, k: nat)
    requires 0 < lo <= k < |x.mem| && FreedFrom(x, lo, k) && Pages.Release(x, k).Go? &&
      PhysOk(Pages.Release(x, k).value, map[])
    ensures FreedFrom(Pages.Release(x, k).value, lo, k + 1)
  {
    hide TableOk, FreeOk;
  }

  lemma InsideRam(x: Phys, r: Role)
    requires Pages.Alloc(x, r).Go?
    ensures Pages.Alloc(x, r).value.1 < |x.mem|
  {
  }

  lemma KernelUnfold(x: Phys, o: nat, root: nat, k: nat)
    requires k < |x.mem| <= 0xC_0000
    ensures var r := PageTables.MapPage(x, o, root, k / 1024, k % 1024, k, RWX);
      && (!r.Go? ==> Processes.MapKernel(x, o, root, k) == r)
      && (r.Go? && |r.value.mem| == |x.mem| ==> Processes.MapKernel(x, o, root, k) == Processes.MapKernel(r.value, o, root, k + 1))
  {
    hide PageTables.MapPage;
  }

  lemma KernelDone(x: Phys, o: nat, root: nat)
    ensures Processes.MapKernel(x, o, root, |x.mem|) == Go(x)
  {
  }

  lemma EmptyIdentity(m: Memory, root: nat)
    ensures IdentityBelow(m, root, 0)
  {
  }

  lemma PageAddress(pa: nat)
    requires pa % 4096 == 0
    ensures pa / 0x40_0000 == (pa / 4096) / 1024 && (pa + 4096) / 4096 == pa / 4096 + 1
  {
  }

  lemma UserIndex(g: Segment, k: nat)
    requires InUserSpace(g) && 4096 * k < g.memsz
    ensures var va := (g.vaddr + 4096 * k) % 0x1_0000_0000;
      768 <= va / 0x40_0000 < 1024 && (va / 4096) % 1024 < 1024
  {
  }

  /** LoadPage step by step. */
  lemma LoadPageStages(x: Phys, o: nat, root: nat, file: seq<Byte>, g: Segment, k: nat)
    ensures var va := (g.vaddr + 4096 * k) % 0x1_0000_0000;
      var i, j := va / 0x40_0000, (va / 4096) % 1024;
      && (Pages.Alloc(x, User(o, i, j)).Halt? ==> Images.LoadPage(x, o, root, file, g, k) == Halt)
      && (Pages.Alloc(x, User(o, i, j)).Go? ==>
           var (y, p) := Pages.Alloc(x, User(o, i, j)).value;
           p < |y.mem| ==>
             var z := Phys(y.mem[p := PackPage(Chunk(file, g.offset + 4096 * k, PageLen(g, k)))], y.free, y.role, y.satp);
             Images.LoadPage(x, o, root, file, g, k) ==
               match PageTables.MapPage(z, o, root, i, j, p, RWXU)
               case Halt => Halt
               case Fault => Fault
               case Go(w) => Go((w, p)))
  {
    hide Pages.Alloc, PageTables.MapPage, PackPage, Chunk, PageLen;
    SameIndex((g.vaddr + 4096 * k) % 0x1_0000_0000);
  }
}
