/**
 fork page by page: what every virtual page of the child is, what the parent
 keeps, and exactly how many pages the call costs.
 */
module ForkedTables {
  import opened Sv32
  import opened Pages
  import opened PageTables
  import opened TableCopy
  import opened Spaces
  import opened Images
  import opened Processes
  import opened Building
  import opened Machine
  import opened AbstractOs
  import opened Invariant
  import opened Traps
  import opened Forking

  /** The virtual page (i, j) of the table at `d` in `y` against that of the table at `s` in `x`: mapped alike and with
      the same flags; the same frame when not a user page, otherwise a frame free in `x` with the same contents. */
  ghost predicate LeafForked(x: Phys, y: Phys, s: nat, d: nat, i: nat, j: nat)
    requires i < 1024 && j < 1024
  {
    match Leaf(x.mem, s, i, j)
    case None => Leaf(y.mem, d, i, j) == None
    case Some(e) =>
      && Leaf(y.mem, d, i, j).Some?
      && var f := Leaf(y.mem, d, i, j).value;
      if UserMode(e) then
        && FlagsOf(f) == FlagsOf(e) && PageOf(e) < |x.mem| && PageOf(f) < |y.mem| &&
          y.mem[PageOf(f)] == x.mem[PageOf(e)]
        && PageOf(f) < |x.role| && x.role[PageOf(f)] == Free
      else f == e
  }

  /** From a copy within one memory to a copy across the two states. */
  lemma FromCopied(x: Phys, y: Phys, roots: map<nat, nat>, b: nat, o: nat, d: nat, i: nat, j: nat)
    requires PhysOk(x, roots) && b in roots && b != o && Grows(x, y, o) && SameLeaves(x.mem, y.mem, roots) &&
      i < 1024 && j < 1024
    requires CopiedAt(y.mem, roots[b], d, i, j) && FreshAt(x, y.mem, d, i, j)
    ensures LeafForked(x, y, roots[b], d, i, j)
  {
    LeafFacts(x, roots, b, i, j);
    assert Leaf(y.mem, roots[b], i, j) == Leaf(x.mem, roots[b], i, j);
    hide FreeOk, TableOk, Leaf, PageOf;
    if Leaf(x.mem, roots[b], i, j).Some? { FlagsDecide(Leaf(x.mem, roots[b], i, j).value, Leaf(y.mem, d, i, j).value); }
  }

  lemma FlagsDecide(e: Word, f: Word)
    ensures FlagsOf(e) == FlagsOf(f) ==> UserMode(e) == UserMode(f)
  {
  }

  /** A copied page stays copied while its leaf and its frame stay. */
  lemma ForkedStays(x: Phys, y: Phys, z: Phys, all: map<nat, nat>, o: nat, s: nat, i: nat, j: nat)
    requires PhysOk(y, all) && o in all && i < 1024 && j < 1024 && LeafForked(x, y, s, all[o], i, j)
    requires Leaf(z.mem, all[o], i, j) == Leaf(y.mem, all[o], i, j) && |z.mem| == |y.mem|
    requires forall p :: 0 <= p < |y.role| && y.role[p].User? ==> z.mem[p] == y.mem[p]
    ensures LeafForked(x, z, s, all[o], i, j)
  {
    LeafFacts(y, all, o, i, j);
    hide FreeOk, TableOk, Leaf, PageOf;
    if Leaf(x.mem, s, i, j).Some? { FlagsDecide(Leaf(x.mem, s, i, j).value, Leaf(y.mem, all[o], i, j).value); }
  }

  /** The table handed to the child: page for page the parent's, but for VA_TRAPFRAME; and its price. */
  lemma CopySpaceLeaves(x: Phys, roots: map<nat, nat>, b: nat, o: nat, p: Proc)
    requires PhysOk(x, roots) && b in roots && o !in roots && roots[b] == p.pagetable && SlotOk(x, p, b)
    ensures var r, n := CopySpace(x, o, p.pagetable), 2 + TableCount(x.mem, p.pagetable, 0);
      && r != Fault && (r.Halt? <==> |x.free| < n)
      && (r.Go? ==>
        var (y, root, tf) := r.value;
        && |y.free| == |x.free| - n
        && forall i, j :: 0 <= i < 1024 && 0 <= j < 1024 && (i, j) != (1023, 1023) ==>
          LeafForked(x, y, p.pagetable, root, i, j))
  {
    hide FreeOk, TableOk, Leaf, SpaceOf, TableCount, IdentityOk, CopiedAt, FreshAt, Valid, UserMode, LeafOk,
         LeafForked, Grows, SameLeaves;
    CopyTableOk(x, roots, b, o);
    var q := CopyTable(x, o, roots[b]);
    if q.Go? {
      var (x1, root) := q.value;
      var all: map<nat, nat> := roots[o := root];
      forall i, j | 0 <= i < 1024 && 0 <= j < 1024 ensures LeafForked(x, x1, p.pagetable, root, i, j) {
        assert CopiedAt(x1.mem, roots[b], root, i, j) && FreshAt(x, x1.mem, root, i, j);
        FromCopied(x, x1, roots, b, o, root, i, j);
      }
      LevelThere(x, x1, roots, all, b, o, p);
      FrameMapped(x, x1, all, o, p.pagetable);
    }
  }

  /** The parent maps VA_TRAPFRAME, so the child's copy has a second-level table there already. */
  lemma LevelThere(x: Phys, x1: Phys, roots: map<nat, nat>, all: map<nat, nat>, b: nat, o: nat, p: Proc)
    requires b in roots && roots[b] == p.pagetable && o in all && SlotOk(x, p, b) && PhysOk(x1, all)
    requires LeafForked(x, x1, p.pagetable, all[o], 1023, 1023)
    ensures all[o] < |x1.mem| && Valid(x1.mem[all[o]][1023])
  {
    hide FreeOk, TableOk, IdentityOk, PageOf;
  }

  lemma FrameMapped(x: Phys, x1: Phys, all: map<nat, nat>, o: nat, s: nat)
    requires PhysOk(x1, all) && o in all && all[o] < |x1.mem| && Valid(x1.mem[all[o]][1023])
    requires forall i, j :: 0 <= i < 1024 && 0 <= j < 1024 ==> LeafForked(x, x1, s, all[o], i, j)
    ensures Alloc(x1, TrapFrame(o)) != Fault && (Alloc(x1, TrapFrame(o)).Halt? <==> x1.free == [])
    ensures Alloc(x1, TrapFrame(o)).Go? ==>
      var (x2, tf) := Alloc(x1, TrapFrame(o)).value;
      var r := MapPage(x2, o, all[o], 1023, 1023, tf, RW);
      && r.Go? && |r.value.free| == |x1.free| - 1
      && forall i, j :: 0 <= i < 1024 && 0 <= j < 1024 && (i, j) != (1023, 1023) ==>
        LeafForked(x, r.value, s, all[o], i, j)
  {
    hide PhysOk, FreeOk, TableOk, Leaf, LeafForked, Valid, UserMode, LeafOk, MapPage, Grows;
    assert ShapeOk(x1) by { ShapeIs(x1, all); }
    AllocOk(x1, all, TrapFrame(o), o);
    if x1.free != [] {
      var (x2, tf) := Alloc(x1, TrapFrame(o)).value;
      AllocKeeps(x1, x2, all, o, tf);
      KernelEntryOk(x2.role, o, 1023, 1023, tf, RW);
      MapPageOk(x2, all, o, 1023, 1023, tf, RW);
      var y := MapPage(x2, o, all[o], 1023, 1023, tf, RW).value;
      ShapeIs(x2, all);
      GrowsUsers(x1, x2, o);
      GrowsUsers(x2, y, o);
      forall i, j | 0 <= i < 1024 && 0 <= j < 1024 && (i, j) != (1023, 1023) ensures LeafForked(x, y, s, all[o], i, j) {
        ForkedStays(x, x1, x2, all, o, s, i, j);
        ForkedStays(x, x2, y, all, o, s, i, j);
      }
    }
  }

  lemma GrowsUsers(x: Phys, y: Phys, o: nat)
    requires ShapeOk(x) && Grows(x, y, o)
    ensures |y.mem| == |x.mem| && forall p :: 0 <= p < |x.role| && x.role[p].User? ==> y.mem[p] == x.mem[p]
  {
  }

  lemma AllocKeeps(x1: Phys, x2: Phys, all: map<nat, nat>, o: nat, tf: nat)
    requires PhysOk(x1, all) && Alloc(x1, TrapFrame(o)) == Go((x2, tf)) && o in all && x1.role[tf] == Free &&
      all[o] < |x1.mem|
    ensures x2.mem[all[o]] == x1.mem[all[o]]
  {
    RootRole(x1, all, o);
  }

  /** fork, page by page. The child maps every virtual page the parent maps, and no other; a user page has a frame of its
      own with the parent's bytes, any other page the parent's frame, except that VA_TRAPFRAME leads to the child's frame.
      The parent's translations and user pages are as before, and the call takes two pages, one per second-level table
      and one per user page; it halts exactly when a slot or these pages are missing. */
  lemma ForkCopies(s: State, i: nat, j: nat)
    requires KernelInv(s) && i < 1024 && j < 1024
    ensures s.cur < 8
    ensures var c, n := FirstUnused(s.procs, 0), 2 + TableCount(s.x.mem, s.procs[s.cur].pagetable, 0);
      && Fork(s) != Fault && (Fork(s).Halt? <==> c == 8 || |s.x.free| < n)
      && (Fork(s).Go? ==>
        var t := Fork(s).value;
        && c < 8 && |t.x.free| == |s.x.free| - n
        && (if (i, j) == (1023, 1023) then t.procs[c].trapframe < 0x10_0000 && Leaf(t.x.mem, t.procs[c].pagetable, i, j) == Some(Entry(t.procs[c].trapframe, RW))
            else LeafForked(s.x, t.x, s.procs[s.cur].pagetable, t.procs[c].pagetable, i, j)))
  {
    hide FreeOk, TableOk, Leaf, SpaceOf, IdentityOk, SlotsOk, HeapOk, Resumable, SlotOk, CopySpace, CopyFrame,
         TableCount, LeafForked, GetPage, PhysOk;
    RunningFacts(s);
    var c := FirstUnused(s.procs, 0);
    if c < 8 {
      var parent, roots := s.procs[s.cur], Roots(s.procs, s.kroot);
      RootsExtend(s.procs, s.kroot, c, parent);
      CopySpaceOk(s.x, roots, s.cur, c, parent);
      CopySpaceLeaves(s.x, roots, s.cur, c, parent);
      var q := CopySpace(s.x, c, parent.pagetable);
      if q.Go? {
        var (y, root, tf) := q.value;
        var all: map<nat, nat> := roots[c := root];
        SlotTf(s.x, parent, s.cur);
        CopyDone(s.x, y, all, c, tf, parent, s.procs[c].kstack, i, j);
      }
    }
  }

  lemma CopyDone(x: Phys, y: Phys, all: map<nat, nat>, c: nat, tf: nat, parent: Proc, kstack: Word, i: nat, j: nat)
    requires SpaceCopiedTo(x, y, all, c, tf, parent.pagetable) && c < 8 && i < 1024 && j < 1024
    requires parent.trapframe < |x.role| && x.role[parent.trapframe].TrapFrame?
    requires (i, j) != (1023, 1023) ==> LeafForked(x, y, parent.pagetable, all[c], i, j)
    ensures GetPage(y.mem, all[c], 1023, 1022).Some?
    ensures CopyFrame(y, tf, parent.trapframe, kstack, c + 1).Go?
    ensures var z := CopyFrame(y, tf, parent.trapframe, kstack, c + 1).value;
      && z.free == y.free && tf < 0x10_0000
      && (if (i, j) == (1023, 1023) then Leaf(z.mem, all[c], i, j) == Some(Entry(tf, RW))
          else LeafForked(x, z, parent.pagetable, all[c], i, j))
  {
    hide FreeOk, TableOk, Leaf, SpaceOf, IdentityOk, LeafForked, CopyFrame, GetPage;
    CopyFrameOk(y, all, tf, parent.trapframe, kstack, c + 1);
    var z := CopyFrame(y, tf, parent.trapframe, kstack, c + 1).value;
    if (i, j) != (1023, 1023) { ForkedStays(x, y, z, all, c, parent.pagetable, i, j); }
  }

  /** What fork leaves of the parent: every translation, and the contents of every user page. */
  lemma ForkKeepsParent(s: State, i: nat, j: nat)
    requires KernelInv(s) && Fork(s).Go? && i < 1024 && j < 1024
    ensures s.cur < 8
    ensures var t, root := Fork(s).value, s.procs[s.cur].pagetable;
      && t.procs[s.cur] == s.procs[s.cur] && Leaf(t.x.mem, root, i, j) == Leaf(s.x.mem, root, i, j)
      && (Leaf(s.x.mem, root, i, j).Some? && UserMode(Leaf(s.x.mem, root, i, j).value) ==>
          var p := PageOf(Leaf(s.x.mem, root, i, j).value);
          p < |s.x.mem| && p < |t.x.mem| && t.x.mem[p] == s.x.mem[p])
  {
    hide FreeOk, TableOk, SpaceOf, IdentityOk, SlotsOk, HeapOk, Resumable, SlotOk, CopySpace, CopyFrame, GetPage,
         PhysOk, Leaf, SpaceCopiedTo;
    RunningFacts(s);
    var c := FirstUnused(s.procs, 0);
    var parent, roots := s.procs[s.cur], Roots(s.procs, s.kroot);
    RootsExtend(s.procs, s.kroot, c, parent);
    CopySpaceOk(s.x, roots, s.cur, c, parent);
    var (y, root, tf) := CopySpace(s.x, c, parent.pagetable).value;
    SlotTf(s.x, parent, s.cur);
    ParentKept(s.x, y, roots, roots[c := root], s.cur, c, tf, parent, s.procs[c].kstack, i, j);
  }

  lemma ParentKept(x: Phys, y: Phys, roots: map<nat, nat>, all: map<nat, nat>, b: nat, c: nat, tf: nat, parent: Proc, kstack: Word, i: nat, j: nat)
    requires PhysOk(x, roots) && b in roots && roots[b] == parent.pagetable && b != c && c < 8
    requires SpaceCopiedTo(x, y, all, c, tf, parent.pagetable) && i < 1024 && j < 1024
    requires parent.trapframe < |x.role| && x.role[parent.trapframe] == TrapFrame(b)
    requires CopyFrame(y, tf, parent.trapframe, kstack, c + 1).Go?
    ensures var z, root := CopyFrame(y, tf, parent.trapframe, kstack, c + 1).value, parent.pagetable;
      && Leaf(z.mem, root, i, j) == Leaf(x.mem, root, i, j)
      && (Leaf(x.mem, root, i, j).Some? && UserMode(Leaf(x.mem, root, i, j).value) ==>
          var p := PageOf(Leaf(x.mem, root, i, j).value);
          p < |x.mem| && p < |z.mem| && z.mem[p] == x.mem[p])
  {
    hide CopyFrame, SpaceOf, IdentityOk, GetPage, Leaf, FreeOk, TableOk, UserMode, SameLeaves, PageOf, FlagsOf,
         Readable;
    CopyFrameOk(y, all, tf, parent.trapframe, kstack, c + 1);
    var z := CopyFrame(y, tf, parent.trapframe, kstack, c + 1).value;
    LeafFacts(x, roots, b, i, j);
    TableFrame(x.mem, x.role, z.mem, y.role, b, parent.pagetable);
  }
}
