/**
 Physical pages: the free list threaded through the pages themselves, who owns
 each page, and the two primitive operations of the page allocator.
 */
module Pages {
  import opened Sv32

  /** What a run of kernel code comes to. `Halt` is kpanic; `Fault` is an access or a
      jump the code was never meant to make. */
  datatype Outcome<+T> = Go(value: T) | Halt | Fault {
    predicate IsFailure() { !Go? }
    function PropagateFailure<U>(): Outcome<U> requires !Go? {
      if Halt? then Halt else Fault
    }
    function Extract(): T requires Go? { value }
  }

  /** The one owner of a page frame: `o` is a process slot, or the kernel's own table. */
  datatype Role =
    | Kernel
    | Boot
    | Free
    | Leaked
    | Root(o: nat)
    | Level0(o: nat, i: nat)
    | TrapFrame(o: nat)
    | User(o: nat, i: nat, j: nat)

  predicate Owns(o: nat, r: Role) {
    (r.Root? || r.Level0? || r.TrapFrame? || r.User?) && r.o == o
  }

  predicate IsTable(o: nat, r: Role) {
    (r.Root? || r.Level0?) && r.o == o
  }

  datatype Phys = Phys(mem: Memory, free: seq<nat>, role: seq<Role>, satp: nat)

  /** The link word stored in the page before position `k` of the free list. */
  function Link(free: seq<nat>, k: nat): nat {
    if k < |free| then 4096 * free[k] else 0
  }

  function Alloc(x: Phys, r: Role): Outcome<(Phys, nat)> {
    if x.free == [] then Halt
    else
      var p := x.free[0];
      if x.satp in x.free || p >= |x.mem| || p >= |x.role| then Fault
      else Go((Phys(x.mem[p := Zero()], x.free[1..], x.role[p := r], x.satp), p))
  }

  function Release(x: Phys, p: nat): Outcome<Phys> {
    if p >= |x.mem| || p >= |x.role| || Link(x.free, 0) >= 0x1_0000_0000 then Fault
    else Go(Phys(x.mem[p := x.mem[p][0 := Link(x.free, 0)]], [p] + x.free, x.role[p := Free], x.satp))
  }

  ghost predicate ShapeOk(x: Phys) {
    |x.role| == |x.mem| <= 0xC_0000
  }

  /** Position `k` of the free list holds a free page, which stores the address of the next one, or 0. */
  ghost predicate LinkedAt(x: Phys, k: nat) {
    && k < |x.free| && x.free[k] < |x.mem| && x.free[k] < |x.role|
    && x.role[x.free[k]] == Free && x.mem[x.free[k]][0] == Link(x.free, k + 1)
  }

  ghost predicate Apart(free: seq<nat>, k: nat, l: nat) {
    k < |free| && l < |free| && free[k] != free[l]
  }

  ghost predicate Listed(free: seq<nat>, p: nat) { p in free }

  /** The free list is linked through its pages, duplicate-free, and holds exactly the free pages. */
  ghost predicate FreeOk(x: Phys) {
    && (forall k :: 0 <= k < |x.free| ==> LinkedAt(x, k))
    && (forall k, l :: 0 <= k < l < |x.free| ==> Apart(x.free, k, l))
    && (forall p {:trigger Listed(x.free, p)} :: 0 <= p < |x.role| && x.role[p] == Free ==> Listed(x.free, p))
  }

  /** A leaf entry of owner `o` at (i, j): readable, in range, and its page is `o`'s own when U is set. */
  ghost predicate LeafOk(role: seq<Role>, o: nat, i: nat, j: nat, e: Word) {
    && Readable(e) && e < 0x4000_0000 && PageOf(e) < |role|
    && (UserMode(e) ==> role[PageOf(e)] == User(o, i, j))
  }

  ghost predicate Level0Ok(m: Memory, role: seq<Role>, o: nat, i: nat, q: nat) {
    && q < |m| && q < |role| && role[q] == Level0(o, i)
    && forall j :: 0 <= j < 1024 && Valid(m[q][j]) ==> LeafOk(role, o, i, j, m[q][j])
  }

  /** Owner `o`'s two-level table: pointer-only first level, every page recorded under `o`. */
  ghost predicate TableOk(m: Memory, role: seq<Role>, o: nat, root: nat) {
    && root < |m| && root < |role| && role[root] == Root(o)
    && forall i :: 0 <= i < 1024 && Valid(m[root][i]) ==>
         FlagsOf(m[root][i]) == NEXT_LEVEL && m[root][i] < 0x4000_0000 && Level0Ok(m, role, o, i, PageOf(m[root][i]))
  }

  ghost predicate PhysOk(x: Phys, roots: map<nat, nat>) {
    && ShapeOk(x) && FreeOk(x) && x.satp !in x.free
    && forall o :: o in roots ==> TableOk(x.mem, x.role, o, roots[o])
  }

  /** From `x` to `x'` only free pages and `o`'s tables changed, and pages left the free list in order. */
  ghost predicate Grows(x: Phys, x': Phys, o: nat)
    requires ShapeOk(x)
  {
    && ShapeOk(x') && |x'.mem| == |x.mem| && x'.satp == x.satp
    && |x'.free| <= |x.free| && x'.free == x.free[|x.free| - |x'.free|..]
    && (forall p :: 0 <= p < |x.mem| && x.role[p] != Free ==> x'.role[p] == x.role[p])
    && (forall p :: 0 <= p < |x.mem| && x.role[p] != Free && !IsTable(o, x.role[p]) ==> x'.mem[p] == x.mem[p])
  }

  lemma GrowsTrans(x: Phys, y: Phys, z: Phys, o: nat)
    requires ShapeOk(x) && Grows(x, y, o) && Grows(y, z, o)
    ensures Grows(x, z, o)
  {
  }

  /** A table depends only on its own pages and on the roles of its owner's pages. */
  lemma TableFrame(m: Memory, role: seq<Role>, m': Memory, role': seq<Role>, o: nat, root: nat)
    requires TableOk(m, role, o, root)
    requires |m'| == |m| == |role'| == |role|
    requires forall p :: 0 <= p < |m| && IsTable(o, role[p]) ==> m'[p] == m[p]
    requires forall p :: 0 <= p < |m| && Owns(o, role[p]) ==> role'[p] == role[p]
    ensures TableOk(m', role', o, root)
    ensures forall i, j :: 0 <= i < 1024 && 0 <= j < 1024 ==> Leaf(m', root, i, j) == Leaf(m, root, i, j)
  {
    forall i | 0 <= i < 1024 && Valid(m[root][i])
      ensures Level0Ok(m', role', o, i, PageOf(m[root][i]))
    {
      var q := PageOf(m[root][i]);
      assert Level0Ok(m, role, o, i, q);
      assert m'[q] == m[q];
    }
  }

  lemma AllocFree(x: Phys, r: Role)
    requires ShapeOk(x) && FreeOk(x) && x.satp !in x.free && x.free != [] && r != Free
    ensures Alloc(x, r).Go? && LinkedAt(x, 0)
    ensures var (x', p) := Alloc(x, r).value; ShapeOk(x') && FreeOk(x') && x'.satp !in x'.free
  {
    assert LinkedAt(x, 0);
    var p := x.free[0];
    var x' := Phys(x.mem[p := Zero()], x.free[1..], x.role[p := r], x.satp);
    forall q | 0 <= q < |x'.role| && x'.role[q] == Free ensures Listed(x'.free, q) {
      assert Listed(x.free, q);
      var k :| 0 <= k < |x.free| && x.free[k] == q;
      assert x'.free[k - 1] == q;
    }
    forall k | 0 <= k < |x'.free| ensures LinkedAt(x', k) {
      assert LinkedAt(x, k + 1) && Apart(x.free, 0, k + 1);
    }
    forall k, l | 0 <= k < l < |x'.free| ensures Apart(x'.free, k, l) {
      assert Apart(x.free, k + 1, l + 1);
    }
  }

  lemma AllocGrows(x: Phys, r: Role, o: nat)
    requires ShapeOk(x) && Alloc(x, r).Go? && LinkedAt(x, 0)
    ensures Grows(x, Alloc(x, r).value.0, o)
  {
  }

  lemma AllocOk(x: Phys, roots: map<nat, nat>, r: Role, o: nat)
    requires PhysOk(x, roots) && r != Free
    ensures Alloc(x, r) != Fault
    ensures Alloc(x, r).Halt? <==> x.free == []
    ensures Alloc(x, r).Go? ==>
      var (x', p) := Alloc(x, r).value;
      && PhysOk(x', roots) && Grows(x, x', o)
      && SameLeaves(x.mem, x'.mem, roots)
      && p < |x.mem| && x.role[p] == Free && |x'.free| == |x.free| - 1
      && x'.mem == x.mem[p := Zero()] && x'.role == x.role[p := r]
  {
    if x.free != [] {
      AllocFree(x, r);
      AllocGrows(x, r, o);
      TablesFrame(x, Alloc(x, r).value.0, roots);
    }
  }

  /** Every leaf entry of every table is the same. */
  ghost predicate SameLeaves(m: Memory, m': Memory, roots: map<nat, nat>) {
    forall o, i, j :: o in roots && 0 <= i < 1024 && 0 <= j < 1024 ==>
      Leaf(m', roots[o], i, j) == Leaf(m, roots[o], i, j)
  }

  lemma TablesFrame(x: Phys, x': Phys, roots: map<nat, nat>)
    requires forall o :: o in roots ==> TableOk(x.mem, x.role, o, roots[o])
    requires ShapeOk(x) && ShapeOk(x') && |x'.mem| == |x.mem|
    requires forall o, p :: o in roots && 0 <= p < |x.mem| && Owns(o, x.role[p]) ==>
      x'.role[p] == x.role[p] && (IsTable(o, x.role[p]) ==> x'.mem[p] == x.mem[p])
    ensures forall o :: o in roots ==> TableOk(x'.mem, x'.role, o, roots[o])
    ensures SameLeaves(x.mem, x'.mem, roots)
  {
    forall o | o in roots
      ensures TableOk(x'.mem, x'.role, o, roots[o])
      ensures forall i, j :: 0 <= i < 1024 && 0 <= j < 1024 ==>
        Leaf(x'.mem, roots[o], i, j) == Leaf(x.mem, roots[o], i, j)
    {
      TableFrame(x.mem, x.role, x'.mem, x'.role, o, roots[o]);
    }
  }

  lemma ReleaseFree(x: Phys, p: nat)
    requires ShapeOk(x) && FreeOk(x) && p < |x.mem| && x.role[p] != Free
    ensures Release(x, p).Go? && ShapeOk(Release(x, p).value) && FreeOk(Release(x, p).value)
  {
    assert x.free != [] ==> LinkedAt(x, 0);
    var x' := Phys(x.mem[p := x.mem[p][0 := Link(x.free, 0)]], [p] + x.free, x.role[p := Free], x.satp);
    forall q | 0 <= q < |x'.role| && x'.role[q] == Free ensures Listed(x'.free, q) {
      assert q != p ==> Listed(x.free, q);
    }
    forall k | 0 <= k < |x'.free| ensures LinkedAt(x', k) {
      assert k > 0 ==> LinkedAt(x, k - 1);
    }
    forall k, l | 0 <= k < l < |x'.free| ensures Apart(x'.free, k, l) {
      assert LinkedAt(x, l - 1);
      assert k > 0 ==> Apart(x.free, k - 1, l - 1);
    }
  }

  lemma ReleaseOk(x: Phys, roots: map<nat, nat>, p: nat)
    requires PhysOk(x, roots) && p < |x.mem| && x.role[p] != Free && p != x.satp
    requires forall o :: o in roots ==> !Owns(o, x.role[p])
    ensures Release(x, p).Go? && PhysOk(Release(x, p).value, roots)
    ensures SameLeaves(x.mem, Release(x, p).value.mem, roots)
  {
    ReleaseFree(x, p);
    TablesFrame(x, Release(x, p).value, roots);
  }
}
