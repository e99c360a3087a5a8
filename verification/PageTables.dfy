/**
 Building and copying page tables: kvmem_map_page and kvmem_copy_pagetable as
 functions on physical memory, and what they do to every translation.
 */
module PageTables {
  import opened Sv32
  import opened Pages

  /** One word stored in place. */
  function Put(x: Phys, p: nat, k: nat, w: Word): Phys
    requires p < |x.mem| && k < 1024
  {
    Phys(x.mem[p := x.mem[p][k := w]], x.free, x.role, x.satp)
  }

  function WithLevel0(x: Phys, o: nat, root: nat, i: nat): Outcome<Phys>
    requires i < 1024
  {
    if root >= |x.mem| then Fault
    else if Valid(x.mem[root][i]) then Go(x)
    else
      var (y, q) :- Alloc(x, Level0(o, i));
      if root >= |y.mem| || q >= 0x10_0000 then Fault else Go(Put(y, root, i, Entry(q, NEXT_LEVEL)))
  }

  /** Maps the virtual page (i, j) of the table at `root` to the frame `p`. */
  function MapPage(x: Phys, o: nat, root: nat, i: nat, j: nat, p: nat, flags: nat): Outcome<Phys>
    requires i < 1024 && j < 1024 && flags < 1024
  {
    var y :- WithLevel0(x, o, root, i);
    if root >= |y.mem| || PageOf(y.mem[root][i]) >= |y.mem| || p >= 0x10_0000 then Fault
    else Go(Put(y, PageOf(y.mem[root][i]), j, Entry(p, flags)))
  }

  /** Every leaf is the same but for the one at (i, j) of owner `o`, which is now `e`. */
  ghost predicate OneLeafSet(m: Memory, m': Memory, roots: map<nat, nat>, o: nat, i: nat, j: nat, e: Word)
    requires o in roots && i < 1024 && j < 1024
  {
    && Leaf(m', roots[o], i, j) == Some(e)
    && forall b, k, l :: b in roots && 0 <= k < 1024 && 0 <= l < 1024 && (b, k, l) != (o, i, j) ==>
         Leaf(m', roots[b], k, l) == Leaf(m, roots[b], k, l)
  }

  lemma RootWrite(x: Phys, roots: map<nat, nat>, o: nat, i: nat, q: nat)
    requires PhysOk(x, roots) && o in roots && i < 1024 && q < |x.mem|
    requires !Valid(x.mem[roots[o]][i]) && x.role[q] == Level0(o, i) && x.mem[q] == Zero()
    ensures var x' := Put(x, roots[o], i, Entry(q, NEXT_LEVEL));
      PhysOk(x', roots) && Grows(x, x', o) && SameLeaves(x.mem, x'.mem, roots)
  {
    var x' := Put(x, roots[o], i, Entry(q, NEXT_LEVEL));
    FreeFrame(x, x');
    var others := roots - {o};
    TablesFrame(x, x', others);
    RootWriteTable(x, x', o, roots[o], i, q);
    forall b | b in roots ensures TableOk(x'.mem, x'.role, b, roots[b]) {
      if b != o { assert others[b] == roots[b]; }
    }
    forall b, k, l | b in roots && 0 <= k < 1024 && 0 <= l < 1024
      ensures Leaf(x'.mem, roots[b], k, l) == Leaf(x.mem, roots[b], k, l)
    {
      if b != o { assert others[b] == roots[b]; }
    }
  }

  lemma RootWriteTable(x: Phys, x': Phys, o: nat, root: nat, i: nat, q: nat)
    requires ShapeOk(x) && TableOk(x.mem, x.role, o, root) && i < 1024 && q < |x.mem|
    requires !Valid(x.mem[root][i]) && x.role[q] == Level0(o, i) && x.mem[q] == Zero()
    requires x' == Put(x, root, i, Entry(q, NEXT_LEVEL))
    ensures TableOk(x'.mem, x'.role, o, root)
    ensures forall k, l :: 0 <= k < 1024 && 0 <= l < 1024 ==> Leaf(x'.mem, root, k, l) == Leaf(x.mem, root, k, l)
  {
    forall k | 0 <= k < 1024 && Valid(x'.mem[root][k])
      ensures Level0Ok(x'.mem, x'.role, o, k, PageOf(x'.mem[root][k]))
    {
      if k != i { assert Level0Ok(x.mem, x.role, o, k, PageOf(x.mem[root][k])); }
    }
  }

  lemma FreeFrame(x: Phys, x': Phys)
    requires ShapeOk(x) && FreeOk(x) && ShapeOk(x') && x'.free == x.free && x'.role == x.role
    requires forall p :: 0 <= p < |x.mem| && x.role[p] == Free ==> x'.mem[p] == x.mem[p]
    ensures FreeOk(x')
  {
    forall k | 0 <= k < |x.free| ensures LinkedAt(x', k) {
      assert LinkedAt(x, k);
    }
  }

  lemma LeafWriteTable(x: Phys, x': Phys, o: nat, root: nat, i: nat, j: nat, e: Word)
    requires ShapeOk(x) && TableOk(x.mem, x.role, o, root) && i < 1024 && j < 1024
    requires Valid(x.mem[root][i]) && Valid(e) && LeafOk(x.role, o, i, j, e)
    requires PageOf(x.mem[root][i]) < |x.mem| && x' == Put(x, PageOf(x.mem[root][i]), j, e)
    ensures TableOk(x'.mem, x'.role, o, root)
    ensures Leaf(x'.mem, root, i, j) == Some(e)
    ensures forall k, l :: 0 <= k < 1024 && 0 <= l < 1024 && (k, l) != (i, j) ==>
      Leaf(x'.mem, root, k, l) == Leaf(x.mem, root, k, l)
  {
    assert Level0Ok(x.mem, x.role, o, i, PageOf(x.mem[root][i]));
    forall k | 0 <= k < 1024 && Valid(x'.mem[root][k])
      ensures Level0Ok(x'.mem, x'.role, o, k, PageOf(x'.mem[root][k]))
    {
      assert Level0Ok(x.mem, x.role, o, k, PageOf(x.mem[root][k]));
    }
  }

  lemma LeafWrite(x: Phys, roots: map<nat, nat>, o: nat, i: nat, j: nat, e: Word)
    requires PhysOk(x, roots) && o in roots && i < 1024 && j < 1024
    requires Valid(x.mem[roots[o]][i]) && Valid(e) && LeafOk(x.role, o, i, j, e)
    ensures PageOf(x.mem[roots[o]][i]) < |x.mem|
    ensures var x' := Put(x, PageOf(x.mem[roots[o]][i]), j, e);
      PhysOk(x', roots) && Grows(x, x', o) && OneLeafSet(x.mem, x'.mem, roots, o, i, j, e)
  {
    var q := PageOf(x.mem[roots[o]][i]);
    assert Level0Ok(x.mem, x.role, o, i, q);
    var x' := Put(x, q, j, e);
    FreeFrame(x, x');
    var others := roots - {o};
    TablesFrame(x, x', others);
    LeafWriteTable(x, x', o, roots[o], i, j, e);
    forall b | b in roots ensures TableOk(x'.mem, x'.role, b, roots[b]) {
      if b != o { assert others[b] == roots[b]; }
    }
    forall b, k, l | b in roots && 0 <= k < 1024 && 0 <= l < 1024 && (b, k, l) != (o, i, j)
      ensures Leaf(x'.mem, roots[b], k, l) == Leaf(x.mem, roots[b], k, l)
    {
      if b != o { assert others[b] == roots[b]; }
    }
  }

  lemma SameLeavesTrans(m: Memory, n: Memory, k: Memory, roots: map<nat, nat>)
    requires SameLeaves(m, n, roots) && SameLeaves(n, k, roots)
    ensures SameLeaves(m, k, roots)
  {
  }

  /** A first-level entry that was invalid: one page is taken for the new second-level table. */
  lemma NewLevel0(x: Phys, roots: map<nat, nat>, o: nat, i: nat) returns (x': Phys)
    requires PhysOk(x, roots) && o in roots && i < 1024 && x.free != [] && !Valid(x.mem[roots[o]][i])
    ensures WithLevel0(x, o, roots[o], i) == Go(x')
    ensures PhysOk(x', roots) && Grows(x, x', o) && SameLeaves(x.mem, x'.mem, roots)
    ensures Valid(x'.mem[roots[o]][i]) && |x'.free| == |x.free| - 1
  {
    hide PageOf, FlagsOf, Leaf, FreeOk, Level0Ok, SameLeaves, Grows;
    var root := roots[o];
    assert TableOk(x.mem, x.role, o, root);
    AllocOk(x, roots, Level0(o, i), o);
    var (y, q) := Alloc(x, Level0(o, i)).value;
    assert y.mem[root] == x.mem[root] && y.mem[q] == Zero();
    RootWrite(y, roots, o, i, q);
    x' := Put(y, root, i, Entry(q, NEXT_LEVEL));
    assert x'.mem[root][i] == Entry(q, NEXT_LEVEL);
    GrowsTrans(x, y, x', o);
    SameLeavesTrans(x.mem, y.mem, x'.mem, roots);
  }

  lemma WithLevel0Ok(x: Phys, roots: map<nat, nat>, o: nat, i: nat)
    requires PhysOk(x, roots) && o in roots && i < 1024
    ensures WithLevel0(x, o, roots[o], i) != Fault
    ensures WithLevel0(x, o, roots[o], i).Halt? <==> !Valid(x.mem[roots[o]][i]) && x.free == []
    ensures WithLevel0(x, o, roots[o], i).Go? ==>
      var x' := WithLevel0(x, o, roots[o], i).value;
      && PhysOk(x', roots) && Grows(x, x', o) && SameLeaves(x.mem, x'.mem, roots) && Valid(x'.mem[roots[o]][i])
      && |x'.free| == |x.free| - (if Valid(x.mem[roots[o]][i]) then 0 else 1)
  {
    if !Valid(x.mem[roots[o]][i]) && x.free != [] {
      var _ := NewLevel0(x, roots, o, i);
    }
  }

  /** The entry for one of `o`'s own frames is a proper user leaf. */
  lemma UserEntryOk(role: seq<Role>, o: nat, i: nat, j: nat, p: nat, flags: nat)
    requires p < |role| <= 0xC_0000 && role[p] == User(o, i, j) && (flags == RWU || flags == RWXU)
    ensures Valid(Entry(p, flags)) && UserMode(Entry(p, flags)) && LeafOk(role, o, i, j, Entry(p, flags))
  {
  }

  lemma LeafOkGrows(x: Phys, y: Phys, roots: map<nat, nat>, o: nat, i: nat, j: nat, e: Word)
    requires PhysOk(x, roots) && PhysOk(y, roots) && ShapeOk(x) && Grows(x, y, o) && o in roots
    requires LeafOk(x.role, o, i, j, e) && (x.role[PageOf(e)] == Free ==> !UserMode(e))
    ensures LeafOk(y.role, o, i, j, e) && roots[o] < |y.mem|
  {
  }

  lemma ShapeIs(x: Phys, roots: map<nat, nat>)
    requires PhysOk(x, roots)
    ensures ShapeOk(x) && |x.mem| == |x.role|
  {
  }

  /** kvmem_map_page refines the update of a finite map: `(o, i, j)` now translates to `p` with `flags`,
      and no other virtual page of any table changed. */
  lemma MapPageOk(x: Phys, roots: map<nat, nat>, o: nat, i: nat, j: nat, p: nat, flags: nat)
    requires PhysOk(x, roots) && o in roots && i < 1024 && j < 1024 && p < |x.mem| && flags < 1024
    requires Valid(Entry(p, flags)) && LeafOk(x.role, o, i, j, Entry(p, flags))
    requires x.role[p] == Free ==> !UserMode(Entry(p, flags))
    ensures MapPage(x, o, roots[o], i, j, p, flags) != Fault
    ensures MapPage(x, o, roots[o], i, j, p, flags).Halt? <==> !Valid(x.mem[roots[o]][i]) && x.free == []
    ensures MapPage(x, o, roots[o], i, j, p, flags).Go? ==>
      var x' := MapPage(x, o, roots[o], i, j, p, flags).value;
      && PhysOk(x', roots) && Grows(x, x', o)
      && OneLeafSet(x.mem, x'.mem, roots, o, i, j, Entry(p, flags))
      && |x'.free| == |x.free| - (if Valid(x.mem[roots[o]][i]) then 0 else 1)
  {
    hide PhysOk, TableOk, FreeOk, Leaf, LeafOk, Level0Ok, WithLevel0, PageOf, FlagsOf, Valid, Grows;
    ShapeIs(x, roots);
    WithLevel0Ok(x, roots, o, i);
    if WithLevel0(x, o, roots[o], i).Go? {
      var y := WithLevel0(x, o, roots[o], i).value;
      LeafOkGrows(x, y, roots, o, i, j, Entry(p, flags));
      LeafWrite(y, roots, o, i, j, Entry(p, flags));
      var x' := MapPage(x, o, roots[o], i, j, p, flags).value;
      GrowsTrans(x, y, x', o);
    }
  }

  lemma LeafFacts(x: Phys, roots: map<nat, nat>, o: nat, i: nat, j: nat)
    requires PhysOk(x, roots) && o in roots && i < 1024 && j < 1024
    ensures Valid(x.mem[roots[o]][i]) ==>
      && PageOf(x.mem[roots[o]][i]) < |x.mem|
      && x.role[PageOf(x.mem[roots[o]][i])] == Level0(o, i)
      && var e := x.mem[PageOf(x.mem[roots[o]][i])][j];
      Leaf(x.mem, roots[o], i, j) == (if Valid(e) then Some(e) else None)
    ensures Leaf(x.mem, roots[o], i, j).Some? ==>
      && Valid(x.mem[roots[o]][i])
      && LeafOk(x.role, o, i, j, Leaf(x.mem, roots[o], i, j).value)
  {
    if Valid(x.mem[roots[o]][i]) {
      assert Level0Ok(x.mem, x.role, o, i, PageOf(x.mem[roots[o]][i]));
    }
  }

  /** Writing the contents of a user page touches no table and no free page. */
  lemma FillUserPage(z: Phys, roots: map<nat, nat>, p: nat, f: Frame)
    requires PhysOk(z, roots) && p < |z.mem| && (z.role[p].User? || z.role[p].TrapFrame?)
    ensures var w := Phys(z.mem[p := f], z.free, z.role, z.satp);
      PhysOk(w, roots) && SameLeaves(z.mem, w.mem, roots)
  {
    var w := Phys(z.mem[p := f], z.free, z.role, z.satp);
    FreeFrame(z, w);
    TablesFrame(z, w, roots);
  }

  /** kvmem_get_pa: the frame a virtual page is mapped to, when it is mapped. */
  function GetPage(m: Memory, root: nat, i: nat, j: nat): Option<nat>
    requires i < 1024 && j < 1024
  {
    if root >= |m| || !Valid(m[root][i]) || PageOf(m[root][i]) >= |m| || !Valid(m[PageOf(m[root][i])][j]) then None
    else Some(PageOf(m[PageOf(m[root][i])][j]))
  }

  /** On every table the kernel builds, the hardware walk and the kernel's own lookup agree. */
  lemma WalkAgrees(x: Phys, roots: map<nat, nat>, o: nat, i: nat, j: nat)
    requires PhysOk(x, roots) && o in roots && i < 1024 && j < 1024
    ensures Walk(x.mem, roots[o], i, j) ==
      match Leaf(x.mem, roots[o], i, j) case None => None case Some(e) => Some((PageOf(e), FlagsOf(e)))
    ensures GetPage(x.mem, roots[o], i, j) ==
      match Walk(x.mem, roots[o], i, j) case None => None case Some(t) => Some(t.0)
  {
    hide FreeOk;
    LeafFacts(x, roots, o, i, j);
    var e := x.mem[roots[o]][i];
    if Valid(e) {
      assert FlagsOf(e) == NEXT_LEVEL && e / 1024 == PageOf(e);
    }
  }

  /** A page fresh from the free list is an empty table. */
  lemma EmptyTable(m: Memory, role: seq<Role>, o: nat, root: nat)
    requires root < |m| && root < |role| && role[root] == Root(o) && m[root] == Zero()
    ensures TableOk(m, role, o, root)
    ensures forall k :: 0 <= k < 1024 ==> !Valid(m[root][k])
  {
    hide Level0Ok, FlagsOf, PageOf, Valid;
  }

  lemma PhysExtend(y: Phys, roots: map<nat, nat>, o: nat, dst: nat)
    requires PhysOk(y, roots) && TableOk(y.mem, y.role, o, dst)
    ensures PhysOk(y, roots[o := dst])
  {
    hide TableOk, FreeOk;
  }

  lemma InRange(x: Phys, roots: map<nat, nat>, b: nat)
    requires PhysOk(x, roots) && b in roots
    ensures roots[b] < |x.mem|
  {
  }

  /** An empty table for a new owner. */
  lemma NewTable(x: Phys, roots: map<nat, nat>, o: nat) returns (y: Phys, root: nat, all: map<nat, nat>)
    requires PhysOk(x, roots) && o !in roots && x.free != []
    ensures Alloc(x, Root(o)) == Go((y, root)) && all == roots[o := root]
    ensures PhysOk(y, all) && Grows(x, y, o) && SameLeaves(x.mem, y.mem, roots) && PhysOk(y, roots)
    ensures root < |x.mem| && root < |x.role| && x.role[root] == Free && |y.free| == |x.free| - 1
    ensures root < |y.mem| && forall k :: 0 <= k < 1024 ==> !Valid(y.mem[root][k])
  {
    hide TableOk, FreeOk, SameLeaves, Alloc, Valid;
    AllocOk(x, roots, Root(o), o);
    y, root := Alloc(x, Root(o)).value.0, Alloc(x, Root(o)).value.1;
    all := roots[o := root];
    EmptyTable(y.mem, y.role, o, root);
    PhysExtend(y, roots, o, root);
  }
}
