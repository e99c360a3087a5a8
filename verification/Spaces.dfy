/**
 User address spaces as values: what a table lets user mode see, and how the
 page-table operations change it.
 */
module Spaces {
  import opened Sv32
  import opened Pages
  import opened PageTables
  import opened TableCopy

  datatype Page = Page(flags: Word, frame: Frame)

  /** Virtual page numbers below 2^20, mapped to what user mode finds there. */
  type Space = map<nat, Page>

  predicate UserLeaf(m: Memory, root: nat, v: nat) {
    && v < 0x10_0000
    && Leaf(m, root, v / 1024, v % 1024).Some?
    && UserMode(Leaf(m, root, v / 1024, v % 1024).value)
    && PageOf(Leaf(m, root, v / 1024, v % 1024).value) < |m|
  }

  function UserPageAt(m: Memory, root: nat, v: nat): Page
    requires UserLeaf(m, root, v)
  {
    var e := Leaf(m, root, v / 1024, v % 1024).value;
    Page(FlagsOf(e), m[PageOf(e)])
  }

  function SpaceOf(m: Memory, root: nat): Space {
    map v: nat | v < 0x10_0000 && UserLeaf(m, root, v) :: UserPageAt(m, root, v)
  }

  /** Two tables with the same user leaves onto equal frames give the same space. */
  lemma SpaceSame(m: Memory, root: nat, m': Memory, root': nat)
    requires forall v {:trigger UserLeaf(m', root', v)} :: 0 <= v < 0x10_0000 ==>
      UserLeaf(m', root', v) == UserLeaf(m, root, v)
    requires forall v {:trigger UserLeaf(m', root', v)} :: 0 <= v < 0x10_0000 && UserLeaf(m, root, v) ==>
      UserPageAt(m', root', v) == UserPageAt(m, root, v)
    ensures SpaceOf(m', root') == SpaceOf(m, root)
  {
    hide UserLeaf, UserPageAt;
  }

  /** An address space depends only on its owner's pages. */
  lemma SpaceFrame(x: Phys, m': Memory, roots: map<nat, nat>, o: nat)
    requires PhysOk(x, roots) && o in roots && |m'| == |x.mem|
    requires forall p :: 0 <= p < |x.mem| && Owns(o, x.role[p]) ==> m'[p] == x.mem[p]
    ensures SpaceOf(m', roots[o]) == SpaceOf(x.mem, roots[o])
  {
    TableFrame(x.mem, x.role, m', x.role, o, roots[o]);
    forall v | 0 <= v < 0x10_0000
      ensures UserLeaf(m', roots[o], v) == UserLeaf(x.mem, roots[o], v)
      ensures UserLeaf(x.mem, roots[o], v) ==> UserPageAt(m', roots[o], v) == UserPageAt(x.mem, roots[o], v)
    {
      LeafFacts(x, roots, o, v / 1024, v % 1024);
      hide Leaf, PageOf, FlagsOf, FreeOk, TableOk;
    }
    SpaceSame(x.mem, roots[o], m', roots[o]);
  }

  /** The tables of the copy show user mode the same space. */
  lemma SpaceCopied(m: Memory, s: nat, d: nat)
    requires forall k, l :: 0 <= k < 1024 && 0 <= l < 1024 ==> CopiedAt(m, s, d, k, l)
    ensures SpaceOf(m, d) == SpaceOf(m, s)
  {
    forall v | 0 <= v < 0x10_0000
      ensures UserLeaf(m, d, v) == UserLeaf(m, s, v)
      ensures UserLeaf(m, s, v) ==> UserPageAt(m, d, v) == UserPageAt(m, s, v)
    {
      assert CopiedAt(m, s, d, v / 1024, v % 1024);
      hide Leaf, PageOf, FlagsOf;
    }
    SpaceSame(m, s, m, d);
  }

  lemma PageIndex(i: nat, j: nat, v: nat)
    requires i < 1024 && j < 1024
    ensures (v / 1024, v % 1024) == (i, j) <==> v == 1024 * i + j
  {
  }

  /** What a table write leaves of every other user page. */
  lemma OtherPages(x: Phys, x': Phys, roots: map<nat, nat>, o: nat, v: nat)
    requires PhysOk(x, roots) && Grows(x, x', o) && o in roots && v < 0x10_0000
    requires Leaf(x'.mem, roots[o], v / 1024, v % 1024) == Leaf(x.mem, roots[o], v / 1024, v % 1024)
    ensures UserLeaf(x'.mem, roots[o], v) == UserLeaf(x.mem, roots[o], v)
    ensures UserLeaf(x.mem, roots[o], v) ==> UserPageAt(x'.mem, roots[o], v) == UserPageAt(x.mem, roots[o], v)
  {
    LeafFacts(x, roots, o, v / 1024, v % 1024);
    hide Leaf, PageOf, FlagsOf, FreeOk, TableOk;
  }

  lemma LeafIsUser(m: Memory, root: nat, i: nat, j: nat, e: Word)
    requires i < 1024 && j < 1024 && Leaf(m, root, i, j) == Some(e) && UserMode(e) && PageOf(e) < |m|
    ensures UserLeaf(m, root, 1024 * i + j) && UserPageAt(m, root, 1024 * i + j) == Page(FlagsOf(e), m[PageOf(e)])
  {
    hide Leaf, PageOf, FlagsOf, UserMode;
    PageIndex(i, j, 1024 * i + j);
  }

  /** Mapping a user page is an update of the space. */
  lemma SpaceMapUser(x: Phys, x': Phys, roots: map<nat, nat>, o: nat, i: nat, j: nat, e: Word)
    requires PhysOk(x, roots) && Grows(x, x', o) && o in roots && i < 1024 && j < 1024
    requires OneLeafSet(x.mem, x'.mem, roots, o, i, j, e) && UserMode(e) && PageOf(e) < |x'.mem|
    ensures SpaceOf(x'.mem, roots[o]) == SpaceOf(x.mem, roots[o])[1024 * i + j := Page(FlagsOf(e), x'.mem[PageOf(e)])]
  {
    hide PhysOk, Leaf, PageOf, FlagsOf, UserMode, UserLeaf, UserPageAt, Grows, SpaceOf;
    var w := 1024 * i + j;
    var a, b := SpaceOf(x.mem, roots[o]), SpaceOf(x'.mem, roots[o]);
    LeafIsUser(x'.mem, roots[o], i, j, e);
    forall v | 0 <= v < 0x10_0000 && v != w
      ensures UserLeaf(x'.mem, roots[o], v) == UserLeaf(x.mem, roots[o], v)
      ensures UserLeaf(x.mem, roots[o], v) ==> UserPageAt(x'.mem, roots[o], v) == UserPageAt(x.mem, roots[o], v)
    {
      PageIndex(i, j, v);
      OtherPages(x, x', roots, o, v);
    }
    SpaceUpdated(a, b, w, Page(FlagsOf(e), x'.mem[PageOf(e)]), x.mem, x'.mem, roots[o]);
  }

  lemma SpaceUpdated(a: Space, b: Space, w: nat, pg: Page, m: Memory, m': Memory, root: nat)
    requires a == SpaceOf(m, root) && b == SpaceOf(m', root) && w < 0x10_0000
    requires UserLeaf(m', root, w) && UserPageAt(m', root, w) == pg
    requires forall v {:trigger UserLeaf(m', root, v)} :: 0 <= v < 0x10_0000 && v != w ==>
      UserLeaf(m', root, v) == UserLeaf(m, root, v)
    requires forall v {:trigger UserLeaf(m', root, v)} :: 0 <= v < 0x10_0000 && v != w && UserLeaf(m, root, v) ==>
      UserPageAt(m', root, v) == UserPageAt(m, root, v)
    ensures b == a[w := pg]
  {
    hide UserLeaf, UserPageAt;
  }

  /** Mapping a kernel page takes the virtual page out of the space. */
  lemma SpaceMapKernel(x: Phys, x': Phys, roots: map<nat, nat>, o: nat, i: nat, j: nat, e: Word)
    requires PhysOk(x, roots) && Grows(x, x', o) && o in roots && i < 1024 && j < 1024
    requires OneLeafSet(x.mem, x'.mem, roots, o, i, j, e) && !UserMode(e)
    ensures SpaceOf(x'.mem, roots[o]) == SpaceOf(x.mem, roots[o]) - {1024 * i + j}
  {
    var w := 1024 * i + j;
    PageIndex(i, j, w);
    assert !UserLeaf(x'.mem, roots[o], w);
    forall v | 0 <= v < 0x10_0000 && v != w
      ensures UserLeaf(x'.mem, roots[o], v) == UserLeaf(x.mem, roots[o], v)
      ensures UserLeaf(x.mem, roots[o], v) ==> UserPageAt(x'.mem, roots[o], v) == UserPageAt(x.mem, roots[o], v)
    {
      PageIndex(i, j, v);
      OtherPages(x, x', roots, o, v);
    }
    SpaceRemoved(x.mem, x'.mem, roots[o], w);
  }

  lemma SpaceRemoved(m: Memory, m': Memory, root: nat, w: nat)
    requires w < 0x10_0000 && !UserLeaf(m', root, w)
    requires forall v {:trigger UserLeaf(m', root, v)} :: 0 <= v < 0x10_0000 && v != w ==>
      UserLeaf(m', root, v) == UserLeaf(m, root, v)
    requires forall v {:trigger UserLeaf(m', root, v)} :: 0 <= v < 0x10_0000 && v != w && UserLeaf(m, root, v) ==>
      UserPageAt(m', root, v) == UserPageAt(m, root, v)
    ensures SpaceOf(m', root) == SpaceOf(m, root) - {w}
  {
    hide UserLeaf, UserPageAt;
  }

  /** Writing to the frame behind one user page updates just that page: no other user page shares it. */
  lemma SpaceWrite(x: Phys, roots: map<nat, nat>, o: nat, v: nat, f: Frame)
    requires PhysOk(x, roots) && o in roots && UserLeaf(x.mem, roots[o], v)
    ensures var p := PageOf(Leaf(x.mem, roots[o], v / 1024, v % 1024).value);
      var x' := Phys(x.mem[p := f], x.free, x.role, x.satp);
      && p < |x.mem| && x.role[p] == User(o, v / 1024, v % 1024)
      && PhysOk(x', roots) && SameLeaves(x.mem, x'.mem, roots)
      && SpaceOf(x'.mem, roots[o]) == SpaceOf(x.mem, roots[o])[v := Page(UserPageAt(x.mem, roots[o], v).flags, f)]
  {
    LeafFacts(x, roots, o, v / 1024, v % 1024);
    var p := PageOf(Leaf(x.mem, roots[o], v / 1024, v % 1024).value);
    FillUserPage(x, roots, p, f);
    var x' := Phys(x.mem[p := f], x.free, x.role, x.satp);
    forall w | 0 <= w < 0x10_0000 && w != v
      ensures UserLeaf(x'.mem, roots[o], w) == UserLeaf(x.mem, roots[o], w)
      ensures UserLeaf(x.mem, roots[o], w) ==> UserPageAt(x'.mem, roots[o], w) == UserPageAt(x.mem, roots[o], w)
    {
      LeafFacts(x, roots, o, w / 1024, w % 1024);
      PageIndex(v / 1024, v % 1024, w);
      hide Leaf, PageOf, FlagsOf, FreeOk, TableOk;
    }
    assert UserLeaf(x'.mem, roots[o], v);
    SpaceUpdated(SpaceOf(x.mem, roots[o]), SpaceOf(x'.mem, roots[o]), v,
                 Page(UserPageAt(x.mem, roots[o], v).flags, f), x.mem, x'.mem, roots[o]);
  }
}
