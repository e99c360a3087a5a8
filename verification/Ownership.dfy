/**
 What the invariant says about pages: every page a live process uses is its own,
 in one place, and not on the free list; and the heap never outgrows what was paid.
 */
module Ownership {
  import opened Sv32
  import opened Pages
  import opened PageTables
  import opened Spaces
  import opened Images
  import opened Processes
  import opened Building
  import opened Machine
  import opened AbstractOs
  import opened Invariant
  import opened Devices
  import opened Traps
  import opened Ending
  import opened Growing
  import opened Refinement
  import opened Boot
  import Ustar

  /** The places in a process where a page frame can be. */
  datatype Place = AsRoot | AsLevel0(i: nat) | AsTrapFrame | AsUserPage(i: nat, j: nat)

  /** The frame a live slot has in a place, read off memory and the process record. */
  function PageAt(s: State, o: nat, at: Place): Option<nat>
    requires o < 8
  {
    var p := s.procs[o];
    match at
    case AsRoot => Some(p.pagetable)
    case AsTrapFrame => Some(p.trapframe)
    case AsLevel0(i) =>
      if i < 1024 && p.pagetable < |s.x.mem| &&
        Valid(s.x.mem[p.pagetable][i]) then Some(PageOf(s.x.mem[p.pagetable][i])) else None
    case AsUserPage(i, j) =>
      if i < 1024 && j < 1024 && Leaf(s.x.mem, p.pagetable, i, j).Some? &&
        UserMode(Leaf(s.x.mem, p.pagetable, i, j).value)
      then Some(PageOf(Leaf(s.x.mem, p.pagetable, i, j).value)) else None
  }

  function RoleAt(o: nat, at: Place): Role {
    match at
    case AsRoot => Root(o)
    case AsTrapFrame => TrapFrame(o)
    case AsLevel0(i) => Level0(o, i)
    case AsUserPage(i, j) => User(o, i, j)
  }

  /** Every page in use is recorded under the one place it is used in. */
  lemma PageRole(s: State, o: nat, at: Place)
    requires Inv(s) && o < 8 && Live(s.procs, o) && PageAt(s, o, at).Some?
    ensures PageAt(s, o, at).value < |s.x.role| && s.x.role[PageAt(s, o, at).value] == RoleAt(o, at)
  {
    hide HeapOk, IdentityOk;
    LiveRoot(s, o);
    var v, roots := View(s), Roots(s.procs, s.kroot);
    RootRole(v, roots, o);
    match at
    case AsRoot =>
    case AsTrapFrame =>
    case AsLevel0(i) => LeafFacts(v, roots, o, i, 0);
    case AsUserPage(i, j) => LeafFacts(v, roots, o, i, j);
  }

  /** The free list: linked through the pages themselves, without repetition, all of it RAM, none of it in use. */
  lemma FreeListOk(s: State, k: nat, l: nat)
    requires Inv(s) && k < |s.x.free| && l < |s.x.free|
    ensures s.x.free[k] < |s.x.mem| && s.x.mem[s.x.free[k]][0] == Link(s.x.free, k + 1)
    ensures s.ramBegin <= s.x.free[k] && s.x.role[s.x.free[k]] == Free
    ensures k != l ==> s.x.free[k] != s.x.free[l]
  {
    hide TableOk, SlotsOk, HeapSum;
    assert FreeOk(s.x) by { FreeView(s.x, View(s)); }
    assert LinkedAt(s.x, k) && LinkedAt(s.x, l);
    if k < l { assert Apart(s.x.free, k, l); } else if l < k { assert Apart(s.x.free, l, k); }
  }

  /** In every good state: roots, second-level tables, trap frames and user pages of all live processes are pairwise
      different frames, and none of them is on the free list. */
  lemma PagesDisjoint(s: State, o: nat, at: Place, b: nat, bt: Place)
    requires Inv(s) && o < 8 && b < 8 && Live(s.procs, o) && Live(s.procs, b)
    requires PageAt(s, o, at).Some? && PageAt(s, b, bt).Some?
    ensures PageAt(s, o, at) == PageAt(s, b, bt) ==> o == b && at == bt
    ensures PageAt(s, o, at).value !in s.x.free && s.ramBegin <= PageAt(s, o, at).value < |s.x.mem|
  {
    PageRole(s, o, at);
    PageRole(s, b, bt);
    assert |s.x.mem| == |s.x.role| && forall q {:trigger s.x.role[q]} :: 0 <= q < s.ramBegin ==>
      s.x.role[q] == Role.Kernel by { RamRoles(s); }
    hide Inv, PageAt;
    var p := PageAt(s, o, at).value;
    assert RoleAt(o, at) != Free && RoleAt(o, at) != Role.Kernel;
    assert p !in s.x.free by { FreeRoles(s); }
  }

  lemma RamRoles(s: State)
    requires Inv(s)
    ensures |s.x.mem| == |s.x.role| && s.ramBegin <= |s.x.role|
    ensures forall q {:trigger s.x.role[q]} :: 0 <= q < s.ramBegin ==> s.x.role[q] == Role.Kernel
  {
    hide PhysOk, SlotsOk, Resumable, HeapSum;
  }

  lemma FreeRoles(s: State)
    requires Inv(s)
    ensures forall q :: q in s.x.free ==> q < |s.x.role| && s.x.role[q] == Free
  {
    hide TableOk, SlotsOk, HeapOk;
    assert FreeOk(s.x) by { FreeView(s.x, View(s)); }
    forall q | q in s.x.free ensures q < |s.x.role| && s.x.role[q] == Free {
      var k :| 0 <= k < |s.x.free| && s.x.free[k] == q;
      assert LinkedAt(s.x, k);
    }
  }

  /** The pages under all heap breaks plus the free pages never exceed free RAM, so no break can reach the stack page
      or wrap, whatever happened in the slot before. */
  lemma HeapAccounts(s: State, o: nat)
    requires Inv(s) && o < 8
    ensures HeapSum(s.procs, 0) + |s.x.free| <= |s.x.mem| - s.ramBegin
    ensures s.procs[o].heap % 4096 == 0 && USER_BASE <= s.procs[o].heap
    ensures s.procs[o].heap / 4096 + |s.x.free| <= STACK_PAGE
  {
    BreakInRange(s, o);
    hide TableOk, SlotsOk, HeapSum, Resumable;
    assert FreeOk(s.x) by { FreeView(s.x, View(s)); }
    HeapBound(s.x, s.ramBegin, s.procs, s.burned);
  }

  /** Pages apart and free list linked, over every run from power-on, whatever the processes forked, executed, killed and grew. */
  lemma RunsKeepPagesApart(mem: Memory, ramBegin: nat, kstacks: seq<Word>, disk: seq<Ustar.Sector>, es: seq<Event>,
                           o: nat, at: Place, b: nat, bt: Place)
    requires RamOk(mem, ramBegin) && |kstacks| == 8 && ImageOk(Shell(disk)) && RunOk(ABoot(disk), es) && o < 8 && b < 8
    requires PowerOn(mem, ramBegin, kstacks, disk, es).Go?
    ensures var t := PowerOn(mem, ramBegin, kstacks, disk, es).value;
      Live(t.procs, o) && Live(t.procs, b) && PageAt(t, o, at).Some? && PageAt(t, b, bt).Some? ==>
        && (PageAt(t, o, at) == PageAt(t, b, bt) ==> o == b && at == bt)
        && PageAt(t, o, at).value !in t.x.free
    ensures var t := PowerOn(mem, ramBegin, kstacks, disk, es).value;
      && (forall k :: 0 <= k < |t.x.free| ==> Linked(t, k))
      && forall k, l :: 0 <= k < |t.x.free| && 0 <= l < |t.x.free| && k != l ==> t.x.free[k] != t.x.free[l]
  {
    hide Inv, PowerOn, RunOk, PageAt, ABoot, ImageOk, Shell;
    SystemRefines(mem, ramBegin, kstacks, disk, es);
    var t := PowerOn(mem, ramBegin, kstacks, disk, es).value;
    if Live(t.procs, o) && Live(t.procs, b) && PageAt(t, o, at).Some? && PageAt(t, b, bt).Some? {
      PagesDisjoint(t, o, at, b, bt);
    }
    forall k | 0 <= k < |t.x.free| ensures Linked(t, k) { FreeListOk(t, k, k); }
    forall k, l | 0 <= k < |t.x.free| && 0 <= l < |t.x.free| && k != l ensures t.x.free[k] != t.x.free[l] {
      FreeListOk(t, k, l);
    }
  }

  /** Page `k` of the free list lies in RAM and holds the address of the next one. */
  ghost predicate Linked(s: State, k: nat)
    requires k < |s.x.free|
  {
    s.ramBegin <= s.x.free[k] < |s.x.mem| && s.x.mem[s.x.free[k]][0] == Link(s.x.free, k + 1)
  }

  // ---- satp ----

  /** While user code or a system call runs, the loaded root is not free, maps all of physical memory for the kernel,
      and leads VA_TRAPFRAME to the running process's frame. */
  lemma SatpOk(s: State)
    requires UserInv(s)
    ensures s.x.satp !in s.x.free && IdentityOk(s.x.mem, s.x.satp)
    ensures Mmu(s.x, 0xFFFF_F000) == Some((s.procs[s.cur].trapframe, RW))
  {
    hide FreeOk, TableOk, IdentityBelow, Mmu;
    RunningFacts(s);
    TrapFrameMapped(s.x, Roots(s.procs, s.kroot), s.procs[s.cur], s.cur);
  }

  /** After exit the loaded root is a free page, whose first word is now a link. */
  lemma ExitFreesLoadedRoot(s: State)
    requires KernelInv(s) && s.cur < 8 && s.x.satp == s.procs[s.cur].pagetable
    ensures Exit(s).Go? && Exit(s).value.x.satp == s.x.satp && s.x.satp in Exit(s).value.x.free
  {
    hide Core, Resumable, SpaceOf;
    ExitOk(s);
  }

  /** ... but above the first 4 MiB it still translates as before. */
  lemma ExitKeepsKernelMapped(s: State, i: nat, j: nat)
    requires KernelInv(s) && s.cur < 8 && s.x.satp == s.procs[s.cur].pagetable
    requires 1 <= i < 1024 && j < 1024 && 1024 * i + j < |s.x.mem|
    ensures Exit(s).Go? && Leaf(Exit(s).value.x.mem, s.x.satp, i, j) == Some(Entry(1024 * i + j, RWX))
  {
    hide Core, Resumable, SpaceOf, Leaf;
    ExitOk(s);
    assert MappedAt(Exit(s).value.x, i, j);
  }

  /** Exactly when the loaded root is a free page: while the scheduler runs behind the exit of the process it last
      switched to. After a sleep, and during every process, it is in use. */
  lemma LoadedRootFreeIff(s: State)
    requires Inv(s)
    ensures s.cur < 8 && (s.x.satp in s.x.free <==> s.mode == InScheduler && s.procs[s.cur].state == Unused)
  {
    RootsInUse(s);
    FreeRoles(s);
    hide TableOk, SlotsOk, HeapOk, KernelMapped, Resumable, IoOk;
    if s.mode == InScheduler && s.procs[s.cur].state == Unused {
      assert FreeOk(s.x) by { FreeView(s.x, View(s)); }
      assert Listed(s.x.free, s.x.satp);
    }
  }

  lemma RootsInUse(s: State)
    requires Inv(s)
    ensures s.kroot < |s.x.role| && s.x.role[s.kroot] != Free && s.cur < 8
    ensures Live(s.procs, s.cur) ==>
      s.procs[s.cur].pagetable < |s.x.role| && s.x.role[s.procs[s.cur].pagetable] != Free
  {
    hide FreeOk, TableOk, SlotsOk, HeapOk, KernelMapped, IoOk;
    LiveRoot(s, KERNEL_TABLE - 1);
    RootRole(View(s), Roots(s.procs, s.kroot), KERNEL_TABLE);
    assert s.cur < 8 by { CurInRange(s); }
    LiveRoot(s, s.cur);
    if Live(s.procs, s.cur) { RootRole(View(s), Roots(s.procs, s.kroot), s.cur); }
  }

  lemma CurInRange(s: State)
    requires Inv(s)
    ensures s.cur < 8
  {
    hide Core, Resumable, KernelMapped;
  }

  /** In every good state the loaded table maps the kernel: also the one of a process that has exited. */
  lemma KernelStaysMapped(s: State)
    requires Inv(s)
    ensures KernelMapped(s.x)
  {
    hide FreeOk, TableOk, HeapOk, Resumable, IoOk, Leaf;
    if UserInv(s) {
      RunningFacts(s);
      TableMaps(s.x, Roots(s.procs, s.kroot), s.cur);
      assert Phys(s.x.mem, s.x.free, s.x.role, s.x.satp) == s.x;
    }
  }

  /** Both in every state reachable from power-on. */
  lemma RunsKeepKernelMapped(mem: Memory, ramBegin: nat, kstacks: seq<Word>, disk: seq<Ustar.Sector>, es: seq<Event>)
    requires RamOk(mem, ramBegin) && |kstacks| == 8 && ImageOk(Shell(disk)) && RunOk(ABoot(disk), es)
    requires PowerOn(mem, ramBegin, kstacks, disk, es).Go?
    ensures var t := PowerOn(mem, ramBegin, kstacks, disk, es).value;
      && KernelMapped(t.x) && t.cur < 8
      && (t.x.satp in t.x.free <==> t.mode == InScheduler && t.procs[t.cur].state == Unused)
  {
    hide Inv, PowerOn, RunOk, ABoot, ImageOk, Shell, KernelMapped;
    SystemRefines(mem, ramBegin, kstacks, disk, es);
    KernelStaysMapped(PowerOn(mem, ramBegin, kstacks, disk, es).value);
    LoadedRootFreeIff(PowerOn(mem, ramBegin, kstacks, disk, es).value);
  }

  /** It still does after every store the dispatch makes before it loads the next root: all of them go to the trap frame of
      the process about to be entered. */
  lemma DispatchStaysMapped(s: State, o: nat, f: Frame)
    requires SchedulerInv(s) && o < 8 && Live(s.procs, o)
    ensures s.procs[o].trapframe < |s.x.mem|
    ensures KernelMapped(Phys(s.x.mem[s.procs[o].trapframe := f], s.x.free, s.x.role, s.x.satp))
  {
    hide PhysOk, HeapOk, Resumable, IoOk, IdentityOk, PageOf, Leaf;
    var tf := s.procs[o].trapframe;
    assert SlotOk(s.x, s.procs[o], o);
    var y := Phys(s.x.mem[tf := f], s.x.free, s.x.role, s.x.satp);
    forall i, j | 1 <= i < 1024 && 0 <= j < 1024 && 1024 * i + j < |y.mem| ensures MappedAt(y, i, j) {
      assert MappedAt(s.x, i, j);
      SameEntry(s.x.mem, y.mem, s.x.satp, i, j);
    }
  }

  lemma DispatchStores(s: State) returns (o: nat, f: Frame)
    requires SchedulerInv(s) && Scan(s.procs, s.next % 8, 8).Some?
    ensures o < 8 && Live(s.procs, o) && s.procs[o].trapframe < |s.x.mem|
    ensures DispatchNext(s).Go? && DispatchNext(s).value.x.mem == s.x.mem[s.procs[o].trapframe := f]
    ensures DispatchNext(s).value.x.satp == s.procs[o].pagetable
  {
    hide SatpInv, Core, Scan, Resumable, EnterUser, ReturnWord, Abs, AStep;
    ScanSame(s, s.next % 8, 8);
    o := Scan(s.procs, s.next % 8, 8).value;
    f := DispatchFrame(s, o);
    var t := Switched(s, o, s.x.satp);
    SwitchGo(s, o);
    DispatchStaysMapped(s, o, f);
    if s.procs[o].resume == AfterSleep { ReturnStores(t); } else { EnterStores(t); }
  }

  /** ktrap_to_user stores to the trap frame alone. */
  lemma EnterStores(s: State)
    requires EnterUser(s).Go?
    ensures s.cur < 8 && s.procs[s.cur].trapframe < |s.x.mem|
    ensures var p, t := s.procs[s.cur], EnterUser(s).value;
      && t.x.mem == s.x.mem[p.trapframe := s.x.mem[p.trapframe][TF_SP := p.kstack][TF_HANDLER := USER_TRAP]]
      && t.x.satp == p.pagetable
  {
    hide Mmu, FrameRegs;
  }

  lemma ReturnStores(s: State)
    requires ReturnWord(s, 0).Go?
    ensures s.cur < 8 && s.procs[s.cur].trapframe < |s.x.mem|
    ensures var p, t := s.procs[s.cur], ReturnWord(s, 0).value;
      && t.x.mem == s.x.mem[p.trapframe :=
           s.x.mem[p.trapframe][TF_REGS + A0 := 0][TF_SP := p.kstack][TF_HANDLER := USER_TRAP]]
      && t.x.satp == p.pagetable
  {
    hide EnterUser;
    EnterStores(SetTf(s, TF_REGS + A0, 0).value);
  }

  /** The trap frame of the process in slot `o` once the dispatch is through with it. */
  function DispatchFrame(s: State, o: nat): Frame
    requires o < 8
  {
    var tf := s.procs[o].trapframe;
    if tf >= |s.x.mem| then Zero()
    else
      var f := if s.procs[o].resume == AfterSleep then s.x.mem[tf][TF_REGS + A0 := 0] else s.x.mem[tf];
      f[TF_SP := s.procs[o].kstack][TF_HANDLER := USER_TRAP]
  }
}
