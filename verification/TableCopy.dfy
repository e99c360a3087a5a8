/**
 kvmem_copy_pagetable: the deep copy of an address space that fork makes.
 */
module TableCopy {
  import opened Sv32
  import opened Pages
  import opened PageTables

  /** One valid leaf: a user page is duplicated into a fresh frame, any other entry is shared. */
  function CopyEntry(x: Phys, o: nat, i: nat, src: nat, dst: nat, j: nat): Outcome<Phys>
    requires j < 1024
  {
    if src >= |x.mem| || dst >= |x.mem| then Fault
    else
      var e := x.mem[src][j];
      if !UserMode(e) then Go(Put(x, dst, j, e))
      else
        var (y, p) :- Alloc(x, User(o, i, j));
        if dst >= |y.mem| || p >= |y.mem| || p >= 0x10_0000 || PageOf(e) >= |y.mem| then Fault
        else
          var z := Put(y, dst, j, Entry(p, FlagsOf(e)));
          Go(Phys(z.mem[p := z.mem[PageOf(e)]], z.free, z.role, z.satp))
  }

  function CopyLevel0(x: Phys, o: nat, i: nat, src: nat, dst: nat, j: nat): Outcome<Phys>
    requires j <= 1024
    decreases 1024 - j
  {
    if j == 1024 then Go(x)
    else if src >= |x.mem| then Fault
    else
      var y :- if Valid(x.mem[src][j]) then CopyEntry(x, o, i, src, dst, j) else Go(x);
      CopyLevel0(y, o, i, src, dst, j + 1)
  }

  function CopyLevel1(x: Phys, o: nat, src: nat, dst: nat, i: nat): Outcome<Phys>
    requires i <= 1024
    decreases 1024 - i
  {
    if i == 1024 then Go(x)
    else if src >= |x.mem| then Fault
    else
      var y :- if Valid(x.mem[src][i]) then CopySlot(x, o, src, dst, i) else Go(x);
      CopyLevel1(y, o, src, dst, i + 1)
  }

  function CopySlot(x: Phys, o: nat, src: nat, dst: nat, i: nat): Outcome<Phys>
    requires i < 1024 && src < |x.mem|
  {
    var (y, q) :- Alloc(x, Level0(o, i));
    if dst >= |y.mem| || q >= 0x10_0000 then Fault
    else CopyLevel0(Put(y, dst, i, Entry(q, NEXT_LEVEL)), o, i, PageOf(x.mem[src][i]), q, 0)
  }

  function CopyTable(x: Phys, o: nat, src: nat): Outcome<(Phys, nat)> {
    var (y, dst) :- Alloc(x, Root(o));
    var z :- CopyLevel1(y, o, src, dst, 0);
    Go((z, dst))
  }

  /** User leaves of a second-level table from index `j` on. */
  function UserCount(f: Frame, j: nat): nat
    requires j <= 1024
    decreases 1024 - j
  {
    if j == 1024 then 0
    else (if Valid(f[j]) && UserMode(f[j]) then 1 else 0) + UserCount(f, j + 1)
  }

  /** Second-level tables plus user leaves of the table at `root` from first-level index `i` on. */
  function TableCount(m: Memory, root: nat, i: nat): nat
    requires i <= 1024
    decreases 1024 - i
  {
    if i == 1024 || root >= |m| then 0
    else
      (if Valid(m[root][i]) && PageOf(m[root][i]) < |m| then 1 + UserCount(m[PageOf(m[root][i])], 0) else 0)
      + TableCount(m, root, i + 1)
  }

  /** The leaf (i, j) of the table at `d` is a copy of the one at `s`: mapped alike with the same flags,
      the same frame when not a user page, otherwise a frame with the same contents. */
  ghost predicate CopiedAt(m: Memory, s: nat, d: nat, i: nat, j: nat)
    requires i < 1024 && j < 1024
  {
    match Leaf(m, s, i, j)
    case None => Leaf(m, d, i, j) == None
    case Some(e) =>
      && Leaf(m, d, i, j).Some?
      && var f := Leaf(m, d, i, j).value;
      if UserMode(e) then
        && FlagsOf(f) == FlagsOf(e) && PageOf(e) < |m| && PageOf(f) < |m| && m[PageOf(f)] == m[PageOf(e)]
      else f == e
  }

  /** ... and the copy of a user page was a free page of `x`. */
  ghost predicate FreshAt(x: Phys, m: Memory, d: nat, i: nat, j: nat)
    requires i < 1024 && j < 1024
  {
    Leaf(m, d, i, j).Some? && UserMode(Leaf(m, d, i, j).value) ==>
      PageOf(Leaf(m, d, i, j).value) < |x.role| && x.role[PageOf(Leaf(m, d, i, j).value)] == Free
  }

  /** A copied leaf stays copied while only free pages and `o`'s tables change elsewhere. */
  lemma CopiedStays(y: Phys, z: Phys, roots: map<nat, nat>, b: nat, o: nat, i: nat, j: nat)
    requires PhysOk(y, roots) && Grows(y, z, o) && b in roots && o in roots && i < 1024 && j < 1024
    requires Leaf(z.mem, roots[b], i, j) == Leaf(y.mem, roots[b], i, j)
    requires Leaf(z.mem, roots[o], i, j) == Leaf(y.mem, roots[o], i, j)
    requires CopiedAt(y.mem, roots[b], roots[o], i, j)
    ensures CopiedAt(z.mem, roots[b], roots[o], i, j)
  {
    LeafFacts(y, roots, b, i, j);
    LeafFacts(y, roots, o, i, j);
  }

  /** Every leaf is the same but those of owner `o` in second-level table `i` from index `j` on. */
  ghost predicate TailOnly(m: Memory, m': Memory, roots: map<nat, nat>, o: nat, i: nat, j: nat) {
    forall b, k, l :: b in roots && 0 <= k < 1024 && 0 <= l < 1024 && (b != o || k < i || (k == i && l < j)) ==>
      Leaf(m', roots[b], k, l) == Leaf(m, roots[b], k, l)
  }

  /** What one valid source leaf does. */
  lemma CopyEntryOk(x: Phys, roots: map<nat, nat>, b: nat, o: nat, i: nat, j: nat)
    requires PhysOk(x, roots) && b in roots && o in roots && b != o && i < 1024 && j < 1024
    requires Valid(x.mem[roots[b]][i]) && Valid(x.mem[roots[o]][i])
    requires Leaf(x.mem, roots[b], i, j).Some?
    ensures var e := Leaf(x.mem, roots[b], i, j).value;
      var r := CopyEntry(x, o, i, PageOf(x.mem[roots[b]][i]), PageOf(x.mem[roots[o]][i]), j);
      && r != Fault && (r.Halt? <==> UserMode(e) && x.free == [])
      && (r.Go? ==>
        && PhysOk(r.value, roots) && Grows(x, r.value, o)
        && r.value.mem[roots[o]] == x.mem[roots[o]] && r.value.mem[roots[b]] == x.mem[roots[b]]
        && |r.value.free| == |x.free| - (if UserMode(e) then 1 else 0)
        && CopiedAt(r.value.mem, roots[b], roots[o], i, j) && FreshAt(x, r.value.mem, roots[o], i, j)
        && exists f :: OneLeafSet(x.mem, r.value.mem, roots, o, i, j, f))
  {
    LeafFacts(x, roots, b, i, j);
    LeafFacts(x, roots, o, i, j);
    var e := Leaf(x.mem, roots[b], i, j).value;
    if !UserMode(e) {
      CopySharedEntry(x, roots, b, o, i, j);
    } else if x.free != [] {
      CopyUserPage(x, roots, b, o, i, j);
    }
  }

  lemma CopySharedEntry(x: Phys, roots: map<nat, nat>, b: nat, o: nat, i: nat, j: nat)
    requires PhysOk(x, roots) && b in roots && o in roots && b != o && i < 1024 && j < 1024
    requires Valid(x.mem[roots[b]][i]) && Valid(x.mem[roots[o]][i])
    requires Leaf(x.mem, roots[b], i, j).Some? && !UserMode(Leaf(x.mem, roots[b], i, j).value)
    ensures var r := CopyEntry(x, o, i, PageOf(x.mem[roots[b]][i]), PageOf(x.mem[roots[o]][i]), j);
      && r.Go? && PhysOk(r.value, roots) && Grows(x, r.value, o)
      && r.value.mem[roots[o]] == x.mem[roots[o]] && r.value.mem[roots[b]] == x.mem[roots[b]]
      && |r.value.free| == |x.free|
      && CopiedAt(r.value.mem, roots[b], roots[o], i, j) && FreshAt(x, r.value.mem, roots[o], i, j)
      && exists f :: OneLeafSet(x.mem, r.value.mem, roots, o, i, j, f)
  {
    LeafFacts(x, roots, b, i, j);
    LeafFacts(x, roots, o, i, j);
    LeafWrite(x, roots, o, i, j, Leaf(x.mem, roots[b], i, j).value);
  }

  lemma CopyUserPage(x: Phys, roots: map<nat, nat>, b: nat, o: nat, i: nat, j: nat)
    requires PhysOk(x, roots) && b in roots && o in roots && b != o && i < 1024 && j < 1024
    requires Valid(x.mem[roots[b]][i]) && Valid(x.mem[roots[o]][i])
    requires Leaf(x.mem, roots[b], i, j).Some? && UserMode(Leaf(x.mem, roots[b], i, j).value) && x.free != []
    ensures var r := CopyEntry(x, o, i, PageOf(x.mem[roots[b]][i]), PageOf(x.mem[roots[o]][i]), j);
      && r.Go? && PhysOk(r.value, roots) && Grows(x, r.value, o)
      && r.value.mem[roots[o]] == x.mem[roots[o]] && r.value.mem[roots[b]] == x.mem[roots[b]]
      && |r.value.free| == |x.free| - 1
      && CopiedAt(r.value.mem, roots[b], roots[o], i, j) && FreshAt(x, r.value.mem, roots[o], i, j)
      && exists f :: OneLeafSet(x.mem, r.value.mem, roots, o, i, j, f)
  {
    hide PhysOk, Leaf, PageOf, FlagsOf, Valid, UserMode, Readable, SameLeaves, OneLeafSet, CopiedAt, FreshAt, Grows,
         Level0Ok;
    ShapeIs(x, roots);
    LeafFacts(x, roots, b, i, j);
    LeafFacts(x, roots, o, i, j);
    RootAt(x, roots, b);
    RootAt(x, roots, o);
    var e := Leaf(x.mem, roots[b], i, j).value;
    AllocOk(x, roots, User(o, i, j), o);
    var (y, p) := Alloc(x, User(o, i, j)).value;
    SameFlags(e, p);
    var f := Entry(p, FlagsOf(e));
    LeafWrite(y, roots, o, i, j, f);
    var z := Put(y, PageOf(x.mem[roots[o]][i]), j, f);
    var w := Phys(z.mem[p := z.mem[PageOf(e)]], z.free, z.role, z.satp);
    FillUserPage(z, roots, p, z.mem[PageOf(e)]);
    GrowsTrans(x, y, z, o);
    GrowsFill(x, z, o, p, z.mem[PageOf(e)]);
    OneLeafAround(x.mem, y.mem, z.mem, w.mem, roots, o, i, j, f);
    assert PageOf(x.mem[roots[o]][i]) != PageOf(e);
    UserCopied(x, w, roots, b, o, i, j, e, p);
  }

  lemma RootAt(x: Phys, roots: map<nat, nat>, b: nat)
    requires PhysOk(x, roots) && b in roots
    ensures roots[b] < |x.role| && x.role[roots[b]] == Root(b)
  {
  }

  lemma SameFlags(e: Word, p: nat)
    requires p < 0x10_0000
    ensures FlagsOf(e) < 1024
    ensures var f := Entry(p, FlagsOf(e));
      Valid(f) == Valid(e) && UserMode(f) == UserMode(e) && Readable(f) == Readable(e)
  {
    assert FlagsOf(Entry(p, FlagsOf(e))) == FlagsOf(e);
    hide FlagsOf;
  }

  lemma GrowsFill(x: Phys, z: Phys, o: nat, p: nat, f: Frame)
    requires ShapeOk(x) && Grows(x, z, o) && p < |x.role| && x.role[p] == Free
    ensures p < |z.mem| && Grows(x, Phys(z.mem[p := f], z.free, z.role, z.satp), o)
  {
  }

  lemma OneLeafAround(m: Memory, n: Memory, n': Memory, m': Memory, roots: map<nat, nat>, o: nat, i: nat, j: nat, f: Word)
    requires o in roots && i < 1024 && j < 1024
    requires SameLeaves(m, n, roots) && OneLeafSet(n, n', roots, o, i, j, f) && SameLeaves(n', m', roots)
    ensures OneLeafSet(m, m', roots, o, i, j, f)
  {
    hide Leaf;
  }

  lemma UserCopied(x: Phys, w: Phys, roots: map<nat, nat>, b: nat, o: nat, i: nat, j: nat, e: Word, p: nat)
    requires b in roots && o in roots && b != o && i < 1024 && j < 1024 && p < 0x10_0000
    requires Leaf(x.mem, roots[b], i, j) == Some(e) && UserMode(e)
    requires OneLeafSet(x.mem, w.mem, roots, o, i, j, Entry(p, FlagsOf(e)))
    requires PageOf(e) < |w.mem| && p < |w.mem| && w.mem[p] == w.mem[PageOf(e)] && p < |x.role| && x.role[p] == Free
    ensures CopiedAt(w.mem, roots[b], roots[o], i, j) && FreshAt(x, w.mem, roots[o], i, j)
  {
    hide Leaf, UserMode;
  }

  /** From `x` to `z` the leaves (i, j..) of `b`'s table have been copied into `o`'s, and nothing else mapped. */
  ghost predicate Level0Copied(x: Phys, z: Phys, roots: map<nat, nat>, b: nat, o: nat, i: nat, j: nat)
    requires ShapeOk(x) && b in roots && o in roots && i < 1024 && roots[o] < |x.mem|
  {
    && PhysOk(z, roots) && Grows(x, z, o)
    && z.mem[roots[o]] == x.mem[roots[o]]
    && TailOnly(x.mem, z.mem, roots, o, i, j)
    && forall l :: j <= l < 1024 ==>
         CopiedAt(z.mem, roots[b], roots[o], i, l) && FreshAt(x, z.mem, roots[o], i, l)
  }

  lemma FreshStays(x: Phys, y: Phys, m: Memory, o: nat, d: nat, i: nat, j: nat)
    requires ShapeOk(x) && Grows(x, y, o) && i < 1024 && j < 1024 && FreshAt(y, m, d, i, j)
    ensures FreshAt(x, m, d, i, j)
  {
    hide Leaf, PageOf, FlagsOf;
  }

  lemma TailAfter(m: Memory, n: Memory, k: Memory, roots: map<nat, nat>, o: nat, i: nat, j: nat, f: Word)
    requires o in roots && i < 1024 && j < 1024 && OneLeafSet(m, n, roots, o, i, j, f) &&
      TailOnly(n, k, roots, o, i, j + 1)
    ensures TailOnly(m, k, roots, o, i, j) && Leaf(k, roots[o], i, j) == Leaf(n, roots[o], i, j)
  {
    hide Leaf;
  }

  lemma FreshKept(x: Phys, m: Memory, n: Memory, d: nat, i: nat, j: nat)
    requires i < 1024 && j < 1024 && FreshAt(x, m, d, i, j) && Leaf(n, d, i, j) == Leaf(m, d, i, j)
    ensures FreshAt(x, n, d, i, j)
  {
    hide Leaf;
  }

  lemma Level0Chain(x: Phys, y: Phys, z: Phys, roots: map<nat, nat>, b: nat, o: nat, i: nat, j: nat, f: Word)
    requires ShapeOk(x) && PhysOk(y, roots) && b in roots && o in roots && b != o && i < 1024 && j < 1024
    requires roots[o] < |x.mem| && Grows(x, y, o) && y.mem[roots[o]] == x.mem[roots[o]]
    requires OneLeafSet(x.mem, y.mem, roots, o, i, j, f)
    requires CopiedAt(y.mem, roots[b], roots[o], i, j) && FreshAt(x, y.mem, roots[o], i, j)
    requires Level0Copied(y, z, roots, b, o, i, j + 1)
    ensures Level0Copied(x, z, roots, b, o, i, j)
  {
    hide Leaf, PhysOk, PageOf, FlagsOf, CopiedAt, OneLeafSet, FreshAt;
    ShapeIs(y, roots);
    CopiedStays(y, z, roots, b, o, i, j);
    GrowsTrans(x, y, z, o);
    TailAfter(x.mem, y.mem, z.mem, roots, o, i, j, f);
    FreshKept(x, y.mem, z.mem, roots[o], i, j);
    forall l | j <= l < 1024
      ensures CopiedAt(z.mem, roots[b], roots[o], i, l) && FreshAt(x, z.mem, roots[o], i, l)
    {
      if l > j { FreshStays(x, y, z.mem, o, roots[o], i, l); }
    }
  }

  /** Copying may go on at (i, j): both tables have a second level there and the rest of the copy is still empty. */
  ghost predicate Level0Ready(x: Phys, roots: map<nat, nat>, b: nat, o: nat, i: nat, j: nat) {
    && PhysOk(x, roots) && b in roots && o in roots && b != o && i < 1024 && j <= 1024
    && roots[b] < |x.mem| && roots[o] < |x.mem|
    && Valid(x.mem[roots[b]][i]) && Valid(x.mem[roots[o]][i])
    && PageOf(x.mem[roots[b]][i]) < |x.mem|
    && forall l :: j <= l < 1024 ==> Leaf(x.mem, roots[o], i, l) == None
  }

  /** One valid entry copied: everything the rest of the copy needs still holds. */
  lemma Level0Step(x: Phys, roots: map<nat, nat>, b: nat, o: nat, i: nat, j: nat)
    requires Level0Ready(x, roots, b, o, i, j) && j < 1024 && Leaf(x.mem, roots[b], i, j).Some?
    ensures var e := Leaf(x.mem, roots[b], i, j).value;
      var src := PageOf(x.mem[roots[b]][i]);
      var r := CopyEntry(x, o, i, src, PageOf(x.mem[roots[o]][i]), j);
      && r != Fault && (r.Halt? <==> UserMode(e) && x.free == [])
      && (r.Go? ==>
        && Level0Ready(r.value, roots, b, o, i, j + 1)
        && r.value.mem[roots[o]] == x.mem[roots[o]] && r.value.mem[roots[b]] == x.mem[roots[b]]
        && r.value.mem[src] == x.mem[src]
        && |r.value.free| == |x.free| - (if UserMode(e) then 1 else 0)
        && forall z :: Level0Copied(r.value, z, roots, b, o, i, j + 1) ==> Level0Copied(x, z, roots, b, o, i, j))
  {
    hide PhysOk, Leaf, CopyEntry, CopiedAt, FreshAt, Grows, OneLeafSet, Level0Ready, Level0Copied, PageOf, FlagsOf;
    ReadyFacts(x, roots, b, o, i, j);
    CopyEntryOk(x, roots, b, o, i, j);
    var r := CopyEntry(x, o, i, PageOf(x.mem[roots[b]][i]), PageOf(x.mem[roots[o]][i]), j);
    if r.Go? {
      var y := r.value;
      var f :| OneLeafSet(x.mem, y.mem, roots, o, i, j, f);
      ReadyNext(x, y, roots, b, o, i, j, f);
      forall z | Level0Copied(y, z, roots, b, o, i, j + 1) ensures Level0Copied(x, z, roots, b, o, i, j) {
        Level0Chain(x, y, z, roots, b, o, i, j, f);
      }
    }
  }

  lemma ReadyFacts(x: Phys, roots: map<nat, nat>, b: nat, o: nat, i: nat, j: nat)
    requires Level0Ready(x, roots, b, o, i, j)
    ensures PhysOk(x, roots) && ShapeOk(x) && b in roots && o in roots && b != o && i < 1024
    ensures roots[b] < |x.mem| && roots[o] < |x.mem| && Valid(x.mem[roots[b]][i]) && Valid(x.mem[roots[o]][i])
    ensures PageOf(x.mem[roots[b]][i]) < |x.mem|
  {
    hide TableOk, FreeOk, Leaf;
  }

  /** After the entry at `j` the copy may go on at `j + 1`. */
  lemma ReadyNext(x: Phys, y: Phys, roots: map<nat, nat>, b: nat, o: nat, i: nat, j: nat, f: Word)
    requires Level0Ready(x, roots, b, o, i, j) && j < 1024 && PhysOk(y, roots) && ShapeOk(x) && Grows(x, y, o)
    requires roots[b] < |y.mem| && roots[o] < |y.mem|
    requires y.mem[roots[o]] == x.mem[roots[o]] && y.mem[roots[b]] == x.mem[roots[b]]
    requires OneLeafSet(x.mem, y.mem, roots, o, i, j, f)
    ensures Level0Ready(y, roots, b, o, i, j + 1)
    ensures PageOf(x.mem[roots[b]][i]) < |y.mem| &&
      y.mem[PageOf(x.mem[roots[b]][i])] == x.mem[PageOf(x.mem[roots[b]][i])]
  {
    LeafFacts(x, roots, b, i, j);
    hide PhysOk, Leaf;
  }

  /** A second-level table, copied entry by entry from index `j`. */
  lemma {:induction false} CopyLevel0Ok(x: Phys, roots: map<nat, nat>, b: nat, o: nat, i: nat, j: nat)
    requires Level0Ready(x, roots, b, o, i, j)
    ensures var r := CopyLevel0(x, o, i, PageOf(x.mem[roots[b]][i]), PageOf(x.mem[roots[o]][i]), j);
      var n := UserCount(x.mem[PageOf(x.mem[roots[b]][i])], j);
      && r != Fault && (r.Halt? <==> |x.free| < n)
      && (r.Go? ==> Level0Copied(x, r.value, roots, b, o, i, j) && |r.value.free| == |x.free| - n)
    decreases 1024 - j
  {
    var src, dst := PageOf(x.mem[roots[b]][i]), PageOf(x.mem[roots[o]][i]);
    if j < 1024 {
      LeafFacts(x, roots, b, i, j);
      LeafFacts(x, roots, o, i, j);
      if Leaf(x.mem, roots[b], i, j) == None {
        hide Leaf, Level0Copied, PageOf, PhysOk, CopyEntry;
        CopyLevel0Ok(x, roots, b, o, i, j + 1);
        var r := CopyLevel0(x, o, i, src, dst, j + 1);
        if r.Go? { Level0Skip(x, r.value, roots, b, o, i, j); }
      } else {
        Level0Step(x, roots, b, o, i, j);
        hide Leaf, Level0Copied, PageOf, PhysOk, CopyEntry;
        var q := CopyEntry(x, o, i, src, dst, j);
        if q.Go? { CopyLevel0Ok(q.value, roots, b, o, i, j + 1); }
      }
    }
  }

  lemma Level0Skip(x: Phys, z: Phys, roots: map<nat, nat>, b: nat, o: nat, i: nat, j: nat)
    requires PhysOk(x, roots) && b in roots && o in roots && b != o && i < 1024 && j < 1024
    requires Leaf(x.mem, roots[b], i, j) == None && Leaf(x.mem, roots[o], i, j) == None
    requires Level0Copied(x, z, roots, b, o, i, j + 1)
    ensures Level0Copied(x, z, roots, b, o, i, j)
  {
    hide Leaf;
  }

  // ---- the first level ----

  /** From `x` to `z` the leaves (i.., *) of `b`'s table have been copied into `o`'s, and nothing else mapped. */
  ghost predicate Level1Copied(x: Phys, z: Phys, roots: map<nat, nat>, b: nat, o: nat, i: nat)
    requires ShapeOk(x) && b in roots && o in roots
  {
    && PhysOk(z, roots) && Grows(x, z, o)
    && TailOnly(x.mem, z.mem, roots, o, i, 0)
    && forall k, l :: i <= k < 1024 && 0 <= l < 1024 ==>
         CopiedAt(z.mem, roots[b], roots[o], k, l) && FreshAt(x, z.mem, roots[o], k, l)
  }

  ghost predicate Level1Ready(x: Phys, roots: map<nat, nat>, b: nat, o: nat, i: nat) {
    && PhysOk(x, roots) && b in roots && o in roots && b != o && i <= 1024
    && roots[b] < |x.mem| && roots[o] < |x.mem|
    && forall k :: i <= k < 1024 ==> !Valid(x.mem[roots[o]][k])
  }

  lemma {:induction false} TableCountFrame(m: Memory, m': Memory, root: nat, i: nat)
    requires |m'| == |m| && root < |m| && i <= 1024 && m'[root] == m[root]
    requires forall k :: 0 <= k < 1024 && Valid(m[root][k]) && PageOf(m[root][k]) < |m| ==>
      m'[PageOf(m[root][k])] == m[PageOf(m[root][k])]
    ensures TableCount(m', root, i) == TableCount(m, root, i)
    decreases 1024 - i
  {
    hide PageOf, FlagsOf;
    if i < 1024 { TableCountFrame(m, m', root, i + 1); }
  }

  /** Growing `o`'s table leaves the size of every other owner's table alone. */
  lemma TableCountStays(x: Phys, y: Phys, roots: map<nat, nat>, b: nat, o: nat, i: nat)
    requires PhysOk(x, roots) && Grows(x, y, o) && b in roots && b != o && i <= 1024
    ensures TableCount(y.mem, roots[b], i) == TableCount(x.mem, roots[b], i)
  {
    var root := roots[b];
    forall k | 0 <= k < 1024 && Valid(x.mem[root][k]) && PageOf(x.mem[root][k]) < |x.mem|
      ensures y.mem[PageOf(x.mem[root][k])] == x.mem[PageOf(x.mem[root][k])]
    {
      LeafFacts(x, roots, b, k, 0);
    }
    TableCountFrame(x.mem, y.mem, root, i);
  }

  /** The new, still empty second-level table that a valid first-level entry asks for. */
  lemma NewSlot(x: Phys, roots: map<nat, nat>, b: nat, o: nat, i: nat) returns (w: Phys)
    requires Level1Ready(x, roots, b, o, i) && i < 1024 && Valid(x.mem[roots[b]][i]) && x.free != []
    ensures Alloc(x, Level0(o, i)).Go?
    ensures var (y, q) := Alloc(x, Level0(o, i)).value;
      roots[o] < |y.mem| && q < 0x10_0000 && w == Put(y, roots[o], i, Entry(q, NEXT_LEVEL)) &&
        PageOf(w.mem[roots[o]][i]) == q
    ensures Level0Ready(w, roots, b, o, i, 0)
    ensures CopySlot(x, o, roots[b], roots[o], i) ==
      CopyLevel0(w, o, i, PageOf(w.mem[roots[b]][i]), PageOf(w.mem[roots[o]][i]), 0)
    ensures w.mem[roots[b]] == x.mem[roots[b]] && |w.mem| == |x.mem|
    ensures PageOf(x.mem[roots[b]][i]) < |x.mem| &&
      w.mem[PageOf(x.mem[roots[b]][i])] == x.mem[PageOf(x.mem[roots[b]][i])]
    ensures Grows(x, w, o) && SameLeaves(x.mem, w.mem, roots) && |w.free| == |x.free| - 1
    ensures forall k :: i < k < 1024 ==> w.mem[roots[o]][k] == x.mem[roots[o]][k]
  {
    LeafFacts(x, roots, b, i, 0);
    AllocOk(x, roots, Level0(o, i), o);
    var (y, q) := Alloc(x, Level0(o, i)).value;
    RootWrite(y, roots, o, i, q);
    w := Put(y, roots[o], i, Entry(q, NEXT_LEVEL));
    hide PhysOk, Alloc, CopyLevel0;
    GrowsTrans(x, y, w, o);
    SameLeavesTrans(x.mem, y.mem, w.mem, roots);
    assert FlagsOf(w.mem[roots[o]][i]) == NEXT_LEVEL;
    forall l | 0 <= l < 1024 ensures Leaf(w.mem, roots[o], i, l) == None {
      assert Leaf(x.mem, roots[o], i, l) == None;
    }
  }

  lemma Level1Chain(x: Phys, w: Phys, y: Phys, z: Phys, roots: map<nat, nat>, b: nat, o: nat, i: nat)
    requires ShapeOk(x) && ShapeOk(w) && b in roots && o in roots && b != o && i < 1024 && roots[o] < |w.mem|
    requires Grows(x, w, o) && SameLeaves(x.mem, w.mem, roots)
    requires Level0Copied(w, y, roots, b, o, i, 0) && Level1Copied(y, z, roots, b, o, i + 1)
    ensures Level1Copied(x, z, roots, b, o, i)
  {
    GrowsTrans(x, w, y, o);
    GrowsTrans(x, y, z, o);
    forall k, l | i <= k < 1024 && 0 <= l < 1024
      ensures CopiedAt(z.mem, roots[b], roots[o], k, l) && FreshAt(x, z.mem, roots[o], k, l)
    {
      if k == i {
        CopiedStays(y, z, roots, b, o, i, l);
        assert Leaf(z.mem, roots[o], i, l) == Leaf(y.mem, roots[o], i, l);
        FreshStays(x, w, y.mem, o, roots[o], i, l);
        assert FreshAt(x, z.mem, roots[o], i, l);
      } else {
        FreshStays(x, y, z.mem, o, roots[o], k, l);
      }
    }
    hide CopiedAt, FreshAt, PhysOk, Leaf;
  }

  lemma Level1Skip(x: Phys, z: Phys, roots: map<nat, nat>, b: nat, o: nat, i: nat)
    requires Level1Ready(x, roots, b, o, i) && i < 1024 && !Valid(x.mem[roots[b]][i])
    requires Level1Copied(x, z, roots, b, o, i + 1)
    ensures Level1Copied(x, z, roots, b, o, i)
  {
    forall l | 0 <= l < 1024
      ensures CopiedAt(z.mem, roots[b], roots[o], i, l) && FreshAt(x, z.mem, roots[o], i, l)
    {
      assert Leaf(x.mem, roots[b], i, l) == None && Leaf(x.mem, roots[o], i, l) == None;
    }
  }

  /** One valid first-level entry: a new second level, filled. */
  lemma Level1Step(x: Phys, roots: map<nat, nat>, b: nat, o: nat, i: nat)
    requires Level1Ready(x, roots, b, o, i) && i < 1024 && Valid(x.mem[roots[b]][i])
    ensures PageOf(x.mem[roots[b]][i]) < |x.mem|
    ensures var n := 1 + UserCount(x.mem[PageOf(x.mem[roots[b]][i])], 0);
      var r := CopySlot(x, o, roots[b], roots[o], i);
      && r != Fault && (r.Halt? <==> |x.free| < n)
      && (r.Go? ==>
        && Level1Ready(r.value, roots, b, o, i + 1) && Grows(x, r.value, o) && |r.value.free| == |x.free| - n
        && TableCount(r.value.mem, roots[b], i + 1) == TableCount(x.mem, roots[b], i + 1)
        && forall z :: Level1Copied(r.value, z, roots, b, o, i + 1) ==> Level1Copied(x, z, roots, b, o, i))
  {
    LeafFacts(x, roots, b, i, 0);
    if x.free != [] {
      var w := NewSlot(x, roots, b, o, i);
      CopyLevel0Ok(w, roots, b, o, i, 0);
      var r := CopySlot(x, o, roots[b], roots[o], i);
      if r.Go? {
        var y := r.value;
        GrowsTrans(x, w, y, o);
        TableCountStays(x, y, roots, b, o, i + 1);
        forall z | Level1Copied(y, z, roots, b, o, i + 1) ensures Level1Copied(x, z, roots, b, o, i) {
          Level1Chain(x, w, y, z, roots, b, o, i);
        }
      }
    }
  }

  lemma {:induction false} CopyLevel1Ok(x: Phys, roots: map<nat, nat>, b: nat, o: nat, i: nat)
    requires Level1Ready(x, roots, b, o, i)
    ensures var r := CopyLevel1(x, o, roots[b], roots[o], i);
      var n := TableCount(x.mem, roots[b], i);
      && r != Fault && (r.Halt? <==> |x.free| < n)
      && (r.Go? ==> Level1Copied(x, r.value, roots, b, o, i) && |r.value.free| == |x.free| - n)
    decreases 1024 - i
  {
    hide CopySlot, Level1Copied, PhysOk, Grows, PageOf, Valid, UserCount, Leaf;
    if i == 1024 {
      Level1Refl(x, roots, b, o);
    } else if Valid(x.mem[roots[b]][i]) {
      Level1Step(x, roots, b, o, i);
      var q := CopySlot(x, o, roots[b], roots[o], i);
      if q.Go? { CopyLevel1Ok(q.value, roots, b, o, i + 1); }
    } else {
      CopyLevel1Ok(x, roots, b, o, i + 1);
      var r := CopyLevel1(x, o, roots[b], roots[o], i + 1);
      if r.Go? { Level1Skip(x, r.value, roots, b, o, i); }
    }
  }

  lemma Level1Refl(x: Phys, roots: map<nat, nat>, b: nat, o: nat)
    requires Level1Ready(x, roots, b, o, 1024)
    ensures ShapeOk(x) && Level1Copied(x, x, roots, b, o, 1024)
  {
    hide TableOk, FreeOk, Leaf;
  }

  /** The empty root of the copy, registered under its new owner. */
  lemma NewRoot(x: Phys, roots: map<nat, nat>, b: nat, o: nat) returns (y: Phys, dst: nat, all: map<nat, nat>)
    requires PhysOk(x, roots) && b in roots && o !in roots && x.free != []
    ensures Alloc(x, Root(o)) == Go((y, dst)) && all == roots[o := dst]
    ensures Level1Ready(y, all, b, o, 0) && Grows(x, y, o) && SameLeaves(x.mem, y.mem, roots)
    ensures dst < |x.role| && x.role[dst] == Free && |y.free| == |x.free| - 1
    ensures TableCount(y.mem, roots[b], 0) == TableCount(x.mem, roots[b], 0)
  {
    hide TableOk, FreeOk, SameLeaves, Alloc, TableCount, Valid;
    y, dst, all := NewTable(x, roots, o);
    TableCountStays(x, y, roots, b, o, 0);
    assert roots[b] < |y.mem| by { InRange(y, roots, b); }
    assert all[b] == roots[b];
  }

  lemma TailSameLeaves(m: Memory, m': Memory, roots: map<nat, nat>, o: nat, dst: nat)
    requires o !in roots && TailOnly(m, m', roots[o := dst], o, 0, 0)
    ensures SameLeaves(m, m', roots)
  {
    hide Leaf;
    var all: map<nat, nat> := roots[o := dst];
    forall c: nat, k, l | c in roots && 0 <= k < 1024 && 0 <= l < 1024
      ensures Leaf(m', roots[c], k, l) == Leaf(m, roots[c], k, l)
    {
      assert c in all && all[c] == roots[c];
    }
  }

  lemma ReadyRoots(y: Phys, all: map<nat, nat>, b: nat, o: nat)
    requires Level1Ready(y, all, b, o, 0)
    ensures PhysOk(y, all) && ShapeOk(y) && b in all && o in all && b != o
  {
    hide TableOk, FreeOk;
  }

  /** kvmem_copy_pagetable for the new owner `o`: every leaf of `b`'s table is copied, no other table changes,
      and exactly one page per table and per user leaf is taken from the free list. */
  lemma CopyTableOk(x: Phys, roots: map<nat, nat>, b: nat, o: nat)
    requires PhysOk(x, roots) && b in roots && o !in roots
    ensures var r := CopyTable(x, o, roots[b]);
      var n := 1 + TableCount(x.mem, roots[b], 0);
      && r != Fault && (r.Halt? <==> |x.free| < n)
      && (r.Go? ==>
        var (z, dst) := r.value;
        && PhysOk(z, roots[o := dst]) && Grows(x, z, o) && |z.free| == |x.free| - n
        && SameLeaves(x.mem, z.mem, roots)
        && dst < |x.role| && x.role[dst] == Free
        && forall k, l :: 0 <= k < 1024 && 0 <= l < 1024 ==>
             CopiedAt(z.mem, roots[b], dst, k, l) && FreshAt(x, z.mem, dst, k, l))
  {
    hide PhysOk, Alloc, Leaf, PageOf, FlagsOf, CopiedAt, FreshAt, UserCount, TableCount, CopyLevel1, Grows, SameLeaves,
         TailOnly, Level1Ready;
    ShapeIs(x, roots);
    AllocOk(x, roots, Root(o), o);
    if x.free != [] {
      var y, dst, all := NewRoot(x, roots, b, o);
      ReadyRoots(y, all, b, o);
      CopyLevel1Ok(y, all, b, o, 0);
      var r := CopyLevel1(y, o, roots[b], dst, 0);
      if r.Go? {
        var z := r.value;
        GrowsTrans(x, y, z, o);
        TailSameLeaves(y.mem, z.mem, roots, o, dst);
        SameLeavesTrans(x.mem, y.mem, z.mem, roots);
        forall k, l | 0 <= k < 1024 && 0 <= l < 1024
          ensures CopiedAt(z.mem, roots[b], dst, k, l) && FreshAt(x, z.mem, dst, k, l)
        {
          FreshStays(x, y, z.mem, o, dst, k, l);
        }
      }
    }
  }
}
