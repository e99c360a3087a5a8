/**
 exit and kill: the three pages that come back, the slot that disappears, and
 the processes that do not notice.
 */
module Ending {
  import opened Sv32
  import opened Pages
  import opened PageTables
  import opened Spaces
  import opened Images
  import opened Processes
  import opened Building
  import opened Machine
  import opened AbstractOs
  import opened Invariant
  import opened Traps

  lemma PhysDrop(x: Phys, roots: map<nat, nat>, fewer: map<nat, nat>)
    requires PhysOk(x, roots) && forall b :: b in fewer ==> b in roots && roots[b] == fewer[b]
    ensures PhysOk(x, fewer)
  {
    hide TableOk, FreeOk;
  }

  lemma DisownOk(x: Phys, roots: map<nat, nat>, o: nat)
    requires PhysOk(x, roots) && o !in roots
    ensures PhysOk(Disown(x, o), roots) && SameLeaves(x.mem, Disown(x, o).mem, roots)
  {
    var y := Disown(x, o);
    forall k | 0 <= k < |y.free| ensures LinkedAt(y, k) { assert LinkedAt(x, k); }
    forall p | 0 <= p < |y.role| && y.role[p] == Free ensures Listed(y.free, p) { assert Listed(x.free, p); }
    TablesFrame(x, y, roots);
  }

  /** The pages of `p`, a process in slot `o`, can be given back. */
  ghost predicate Releasable(x: Phys, p: Proc, o: nat) {
    && |x.role| == |x.mem|
    && p.trapframe < |x.role| && x.role[p.trapframe] == TrapFrame(o)
    && p.pagetable < |x.role| && x.role[p.pagetable] == Root(o)
    && p.userStack < |x.role| && x.role[p.userStack].User? && x.role[p.userStack].o == o
    && x.satp < |x.role| && x.role[x.satp].Root? && x.role[x.satp].o != o
  }

  /** Exactly the three pages changed, and they are free now. */
  ghost predicate Released(x: Phys, y: Phys, p: Proc) {
    && |x.role| == |x.mem| == |y.mem| == |y.role| && y.satp == x.satp
    && p.trapframe < |y.role| && p.pagetable < |y.role| && p.userStack < |y.role|
    && y.role[p.trapframe] == y.role[p.pagetable] == y.role[p.userStack] == Free
    && forall q :: 0 <= q < |x.mem| && q != p.trapframe && q != p.pagetable && q != p.userStack ==>
         y.mem[q] == x.mem[q] && y.role[q] == x.role[q]
  }

  lemma ReleaseProcOk(x: Phys, roots: map<nat, nat>, p: Proc, o: nat)
    requires PhysOk(x, roots) && o !in roots && Releasable(x, p, o)
    ensures ReleaseProc(x, p).Go?
    ensures PhysOk(ReleaseProc(x, p).value, roots) && Released(x, ReleaseProc(x, p).value, p)
  {
    hide TableOk, FreeOk, SameLeaves, Link;
    ReleaseOk(x, roots, p.trapframe);
    var x1 := Release(x, p.trapframe).value;
    ReleaseOk(x1, roots, p.pagetable);
    var x2 := Release(x1, p.pagetable).value;
    ReleaseOk(x2, roots, p.userStack);
  }

  lemma ReleaseSatp(x: Phys, p: Proc, satp: nat)
    ensures var r := ReleaseProc(Phys(x.mem, x.free, x.role, satp), p);
      ReleaseProc(x, p) ==
        match r case Halt => Halt case Fault => Fault case Go(y) => Go(Phys(y.mem, y.free, y.role, x.satp))
  {
  }

  lemma HeapRelease(x: Phys, y: Phys, ramBegin: nat, procs: ProcTable, burned: set<nat>, o: nat, q: Proc)
    requires HeapOk(x, ramBegin, procs, burned) && o < 8 && Live(procs, o)
    requires q.heap == procs[o].heap && q.state == Unused
    requires Releasable(x, procs[o], o) && Released(x, y, procs[o])
    ensures HeapOk(Disown(y, o), ramBegin, procs[o := q], burned)
  {
    HeapSumSame(procs, procs[o := q], 0);
    forall p | p in burned ensures Burned(Disown(y, o), p) { assert Burned(x, p); }
  }

  lemma RootsShrink(procs: ProcTable, kroot: nat, o: nat, q: Proc)
    requires o < 8 && q.state == Unused
    ensures o !in Roots(procs[o := q], kroot)
    ensures forall b :: b in Roots(procs[o := q], kroot) ==>
      b in Roots(procs, kroot) && Roots(procs, kroot)[b] == Roots(procs[o := q], kroot)[b]
  {
  }

  /** Taking a process out of slot `o`: its pages go, the accounts and everybody else's pages stay. */
  lemma RemoveOk(x: Phys, ramBegin: nat, kroot: nat, procs: ProcTable, burned: set<nat>, o: nat, q: Proc)
    requires PhysOk(x, Roots(procs, kroot)) && o < 8 && Live(procs, o) && Releasable(x, procs[o], o)
    requires HeapOk(x, ramBegin, procs, burned) && q.heap == procs[o].heap && q.state == Unused
    ensures ReleaseProc(x, procs[o]).Go?
    ensures var y := Disown(ReleaseProc(x, procs[o]).value, o);
      && PhysOk(y, Roots(procs[o := q], kroot)) && HeapOk(y, ramBegin, procs[o := q], burned)
      && y.satp == x.satp && forall b :: 0 <= b < 8 && b != o ==> Keeps(x, y, b)
  {
    hide TableOk, FreeOk, HeapSum, SameLeaves, HeapOk;
    var fewer := Roots(procs[o := q], kroot);
    RootsShrink(procs, kroot, o, q);
    PhysDrop(x, Roots(procs, kroot), fewer);
    ReleaseProcOk(x, fewer, procs[o], o);
    var y := ReleaseProc(x, procs[o]).value;
    DisownOk(y, fewer, o);
    HeapRelease(x, y, ramBegin, procs, burned, o, q);
  }

  lemma SlotReleasable(x: Phys, roots: map<nat, nat>, p: Proc, o: nat, satp: nat, b: nat)
    requires PhysOk(x, roots) && o in roots && roots[o] == p.pagetable && SlotOk(x, p, o)
    requires b in roots && roots[b] == satp && b != o
    ensures Releasable(Phys(x.mem, x.free, x.role, satp), p, o)
  {
    RootRole(x, roots, o);
    RootRole(x, roots, b);
    hide TableOk, FreeOk, IdentityOk, Leaf;
  }

  /** exit: the running process disappears and its three pages, no more, become free; nobody else's registers or memory
      change. The table that stays loaded until the next process is entered is one of the three, and still maps the
      kernel. */
  lemma ExitOk(s: State)
    requires KernelInv(s) && s.cur < 8 && s.x.satp == s.procs[s.cur].pagetable
    ensures Exit(s).Go? && SchedulerInv(Exit(s).value) && Abs(Exit(s).value) == AExit(Abs(s))
    ensures var p, t := s.procs[s.cur], Exit(s).value;
      && t.x.free == [p.userStack, p.pagetable, p.trapframe] + s.x.free
      && |t.x.mem| == |s.x.mem| && t.x.satp == s.x.satp && t.x.role[t.x.satp] == Free
  {
    hide TableOk, FreeOk, SlotsOk, IdentityOk, Leaf, SpaceOf, HeapOk, ReleaseProc, Disown, PhysOk;
    RunningFacts(s);
    var o, p := s.cur, s.procs[s.cur];
    var q := p.(state := Unused, resume := AfterFree, sp := Below(p.kstack, FREE_DEPTH));
    var roots := Roots(s.procs, s.kroot);
    LiveRoot(s, o);
    var v := Phys(s.x.mem, s.x.free, s.x.role, s.kroot);
    PhysSatp(s.x, roots, KERNEL_TABLE);
    SlotReleasable(s.x, roots, p, o, s.kroot, KERNEL_TABLE);
    HeapSatp(s.x, v, s.ramBegin, s.procs, s.burned);
    RemoveOk(v, s.ramBegin, s.kroot, s.procs, s.burned, o, q);
    ReleaseSatp(s.x, p, s.kroot);
    var y := Disown(ReleaseProc(v, p).value, o);
    var z := Disown(ReleaseProc(s.x, p).value, o);
    DisownSatp(ReleaseProc(v, p).value, s.x.satp, o);
    var t := s.WithPhys(z).WithProc(o, q).WithMode(InScheduler);
    assert Exit(s) == Go(t);
    HeapSatp(y, z, s.ramBegin, t.procs, s.burned);
    forall b | 0 <= b < 8 && b != o ensures Keeps(s.x, t.x, b) { assert Keeps(v, y, b); }
    ExitAbs(s, t);
    ExitMapped(s, t);
  }

  /** The pages that come back, and the table that stays loaded. */
  lemma ExitMapped(s: State, t: State)
    requires KernelInv(s) && s.cur < 8 && s.x.satp == s.procs[s.cur].pagetable && Exit(s) == Go(t)
    ensures |t.x.mem| == |s.x.mem| && t.x.satp == s.x.satp && KernelMapped(t.x) && t.x.role[t.x.satp] == Free
    ensures var p := s.procs[s.cur]; t.x.free == [p.userStack, p.pagetable, p.trapframe] + s.x.free
  {
    hide FreeOk, TableOk, IdentityOk, SpaceOf, HeapOk, Link, Resumable, Leaf, PageOf, FrameRegs;
    RunningFacts(s);
    var p, roots := s.procs[s.cur], Roots(s.procs, s.kroot);
    RootRole(s.x, roots, s.cur);
    ShapeIs(s.x, roots);
    ExitPages(s, t);
    forall i, j | 1 <= i < 1024 && 0 <= j < 1024 && 1024 * i + j < |t.x.mem| ensures MappedAt(t.x, i, j) {
      TableMaps(s.x, roots, s.cur);
      assert MappedAt(s.x, i, j);
      LeafFacts(s.x, roots, s.cur, i, j);
      SameEntry(s.x.mem, t.x.mem, s.x.satp, i, j);
    }
  }

  /** What exit does to the pages: only the first words of its three pages change. */
  lemma ExitPages(s: State, t: State)
    requires s.cur < 8 && Exit(s) == Go(t) && |s.x.mem| == |s.x.role|
    requires var p := s.procs[s.cur];
      p.trapframe != p.pagetable && p.pagetable != p.userStack && p.trapframe != p.userStack
    ensures var p := s.procs[s.cur];
      && p.trapframe < |s.x.mem| && p.pagetable < |s.x.mem| && p.userStack < |s.x.mem|
      && |t.x.mem| == |s.x.mem| == |t.x.role| && t.x.satp == s.x.satp
      && t.x.free == [p.userStack, p.pagetable, p.trapframe] + s.x.free
      && (forall q :: 0 <= q < |s.x.mem| && q != p.trapframe && q != p.pagetable && q != p.userStack ==>
           t.x.mem[q] == s.x.mem[q])
      && (forall i :: 1 <= i < 1024 ==> t.x.mem[p.pagetable][i] == s.x.mem[p.pagetable][i])
      && t.x.role[p.pagetable] == Free
      && forall q :: 0 <= q < |s.x.role| && s.x.role[q].Level0? ==> !t.x.role[q].TrapFrame?
  {
    hide Link;
  }

  /** Above the first entry of the root the translation is the same. */
  lemma SameEntry(m: Memory, m': Memory, root: nat, i: nat, j: nat)
    requires root < |m| == |m'| && 1 <= i < 1024 && j < 1024 && m'[root][i] == m[root][i]
    requires PageOf(m[root][i]) < |m| && m'[PageOf(m[root][i])] == m[PageOf(m[root][i])]
    ensures Leaf(m', root, i, j) == Leaf(m, root, i, j)
  {
  }

  lemma HeapSatp(x: Phys, y: Phys, ramBegin: nat, procs: ProcTable, burned: set<nat>)
    requires HeapOk(x, ramBegin, procs, burned) && y.mem == x.mem && y.role == x.role
    ensures HeapOk(y, ramBegin, procs, burned) && |x.role| == |x.mem|
  {
    forall p | p in burned ensures Burned(y, p) { assert Burned(x, p); }
  }

  lemma DisownSatp(x: Phys, satp: nat, o: nat)
    ensures Disown(Phys(x.mem, x.free, x.role, satp), o) ==
      Phys(Disown(x, o).mem, Disown(x, o).free, Disown(x, o).role, satp)
  {
  }

  lemma ExitAbs(s: State, t: State)
    requires KernelInv(s) && s.cur < 8 && t.cur == s.cur && t.next == s.next && t.mode == InScheduler && t.io == s.io
    requires t.procs == s.procs[s.cur := t.procs[s.cur]] && t.procs[s.cur].state == Unused
    requires t.procs[s.cur].heap == s.procs[s.cur].heap
    requires |s.x.role| == |s.x.mem| && forall b :: 0 <= b < 8 && b != s.cur ==> Keeps(s.x, t.x, b)
    ensures SlotsOk(t.x, t.procs) && Resumable(t) && Abs(t) == AExit(Abs(s))
  {
    hide SlotOk, Keeps, AbsProc, PhysOk, HeapOk;
    var a := AExit(Abs(s));
    forall b | 0 <= b < 8
      ensures Live(t.procs, b) ==> SlotOk(t.x, t.procs[b], b)
      ensures AbsSlot(t, b) == a.procs[b]
    {
      if b != s.cur && Live(s.procs, b) { SlotSame(s, t, b); }
    }
    AbsIs(t, a);
  }

  /** Killing another process: it disappears, the killer and everybody else stay. */
  lemma KillOneOk(s: State, o: nat)
    requires KernelInv(s) && s.cur < 8 && s.x.satp == s.procs[s.cur].pagetable
    requires o < 8 && o != s.cur && Live(s.procs, o)
    ensures ReleaseProc(s.x, s.procs[o]).Go?
    ensures var t := s.WithPhys(Disown(ReleaseProc(s.x, s.procs[o]).value, o)).WithProc(o, s.procs[o].(state := Unused));
      && KernelInv(t) && t.x.satp == s.x.satp
      && Abs(t) == AState(Abs(s).procs[o := None], Abs(s).heap, s.cur, s.next, InKernel, s.io)
  {
    hide TableOk, FreeOk, IdentityOk, Leaf, SpaceOf, HeapOk, ReleaseProc, Disown, PhysOk, AbsProc, SlotOk;
    RunningFacts(s);
    LiveRoot(s, o);
    var roots, q := Roots(s.procs, s.kroot), s.procs[o].(state := Unused);
    SlotReleasable(s.x, roots, s.procs[o], o, s.x.satp, s.cur);
    assert Phys(s.x.mem, s.x.free, s.x.role, s.x.satp) == s.x;
    RemoveOk(s.x, s.ramBegin, s.kroot, s.procs, s.burned, o, q);
    HeapSatp(s.x, s.x, s.ramBegin, s.procs, s.burned);
    var t := s.WithPhys(Disown(ReleaseProc(s.x, s.procs[o]).value, o)).WithProc(o, q);
    var a := AState(Abs(s).procs[o := None], Abs(s).heap, s.cur, s.next, InKernel, s.io);
    forall b | 0 <= b < 8
      ensures Live(t.procs, b) ==> SlotOk(t.x, t.procs[b], b)
      ensures AbsSlot(t, b) == a.procs[b]
    {
      if b != o && Live(s.procs, b) { SlotSame(s, t, b); }
    }
    AbsIs(t, a);
  }

  lemma PidIs(s: State, o: nat)
    requires KernelInv(s) && o < 8
    ensures Live(s.procs, o) ==> s.procs[o].pid == o + 1
  {
    hide PhysOk, HeapOk, IdentityOk, Leaf;
  }

  lemma {:induction false} KillFromOk(s: State, pid: Word, i: nat)
    requires KernelInv(s) && s.cur < 8 && s.x.satp == s.procs[s.cur].pagetable && s.procs[s.cur].pid != pid
    ensures KillFrom(s, pid, i).Go?
    ensures var t := KillFrom(s, pid, i).value;
      && KernelInv(t) && t.cur == s.cur && t.procs[s.cur] == s.procs[s.cur]
      && Abs(t) == AState(AKillFrom(Abs(s).procs, pid, i), Abs(s).heap, s.cur, s.next, InKernel, s.io)
    decreases 8 - i
  {
    hide Core, Resumable, AbsProc, ReleaseProc, Disown;
    if i < 8 {
      PidIs(s, i);
      if Live(s.procs, i) && s.procs[i].pid == pid {
        KillOneOk(s, i);
        var t := s.WithPhys(Disown(ReleaseProc(s.x, s.procs[i]).value, i)).WithProc(i, s.procs[i].(state := Unused));
        KillFromOk(t, pid, i + 1);
      } else {
        KillFromOk(s, pid, i + 1);
      }
    }
  }

  /** What kill gives back: stack page, root and trap frame of the process it names, if there is one, and nothing else. */
  lemma {:induction false} KillFrees(s: State, pid: Word, i: nat)
    requires KernelInv(s) && s.cur < 8 && s.x.satp == s.procs[s.cur].pagetable && s.procs[s.cur].pid != pid
    ensures KillFrom(s, pid, i).Go?
    ensures KillFrom(s, pid, i).value.x.free ==
      if i + 1 <= pid <= 8 && Live(s.procs, pid - 1)
      then [s.procs[pid - 1].userStack, s.procs[pid - 1].pagetable, s.procs[pid - 1].trapframe] + s.x.free
      else s.x.free
    decreases 8 - i
  {
    hide Core, Resumable, AbsProc, ReleaseProc, Disown;
    KillFromOk(s, pid, i);
    if i < 8 {
      PidIs(s, i);
      if Live(s.procs, i) && s.procs[i].pid == pid {
        KillOneOk(s, i);
        var t := s.WithPhys(Disown(ReleaseProc(s.x, s.procs[i]).value, i)).WithProc(i, s.procs[i].(state := Unused));
        ReleasedPages(s.x, s.procs[i], i);
        KillFrees(t, pid, i + 1);
      } else {
        KillFrees(s, pid, i + 1);
      }
    }
  }

  lemma ReleasedPages(x: Phys, p: Proc, o: nat)
    requires ReleaseProc(x, p).Go?
    ensures Disown(ReleaseProc(x, p).value, o).free == [p.userStack, p.pagetable, p.trapframe] + x.free
  {
    hide Link;
  }

  /** kill never touches the running process unless it names it. */
  lemma {:induction false} KillSparesOthers(procs: ATable, pid: Word, i: nat, o: nat)
    requires o < 8
    ensures AKillFrom(procs, pid, i)[o] == if i <= o && o + 1 == pid then None else procs[o]
    decreases 8 - i
  {
    if i < 8 {
      KillSparesOthers(if procs[i].Some? && i + 1 == pid then procs[i := None] else procs, pid, i + 1, o);
    }
  }
}
