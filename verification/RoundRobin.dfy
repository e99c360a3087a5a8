/**
 The scheduler's fairness: a runnable process waits for at most seven others, and
 two runnable processes take turns.
 */
module RoundRobin {
  import opened Sv32
  import opened Pages
  import opened Processes
  import opened Machine
  import opened Devices
  import opened AbstractOs
  import opened Refinement

  /** Steps of the cyclic scan from `i` to slot `o`. */
  function Dist(i: nat, o: nat): nat { if o >= i % 8 then o - i % 8 else o + 8 - i % 8 }

  lemma DistStart(i: nat, o: nat)
    requires o < 8
    ensures Dist(i, o) < 8 && Dist(i % 8, o) == Dist(i, o)
    ensures i < 8 && o != i ==> Dist(i, o) == Dist((i + 1) % 8, o) + 1
    ensures i < 8 ==> Dist(i, i) == 0
  {
  }

  /** After `o` has been taken, the others keep their order and `o` comes last. */
  lemma DistAfter(i: nat, o: nat, p: nat)
    requires o < 8 && p < 8 && Dist(i, o) <= Dist(i, p)
    ensures Dist(o + 1, p) == if p == o then 7 else Dist(i, p) - Dist(i, o) - 1
    ensures Dist(i, o) == Dist(i, p) ==> o == p
  {
  }

  /** The scan stops at the nearest process. */
  lemma {:induction false} ScanNearest(procs: ATable, i: nat, n: nat)
    requires i < 8 && n <= 8
    ensures AScan(procs, i, n).Some? ==>
      var o := AScan(procs, i, n).value;
      && o < 8 && procs[o].Some? && Dist(i, o) < n
      && forall p :: 0 <= p < 8 && procs[p].Some? ==> Dist(i, o) <= Dist(i, p)
    ensures AScan(procs, i, n) == None ==> forall p :: 0 <= p < 8 && procs[p].Some? ==> Dist(i, p) >= n
    decreases n
  {
    hide Dist;
    DistStart(i, i);
    forall p | 0 <= p < 8 ensures p != i ==> Dist(i, p) == Dist((i + 1) % 8, p) + 1 { DistStart(i, p); }
    if n > 0 && procs[i] == None { ScanNearest(procs, (i + 1) % 8, n - 1); }
  }

  /** The slots dispatched when the process tables at the successive dispatches are `tables`. */
  function Dispatched(next: nat, tables: seq<ATable>): seq<nat>
    decreases |tables|
  {
    if tables == [] then []
    else
      match AScan(tables[0], next % 8, 8)
      case None => Dispatched(next, tables[1..])
      case Some(o) => [o] + Dispatched(o + 1, tables[1..])
  }

  ghost predicate AlwaysReady(tables: seq<ATable>, p: nat) {
    p < 8 && forall t :: 0 <= t < |tables| ==> tables[t][p].Some?
  }

  lemma ReadyTail(tables: seq<ATable>, p: nat)
    requires AlwaysReady(tables, p) && tables != []
    ensures AlwaysReady(tables[1..], p) && tables[0][p].Some?
  {
  }

  lemma FirstChoice(next: nat, tables: seq<ATable>, p: nat)
    requires AlwaysReady(tables, p) && tables != []
    ensures AScan(tables[0], next % 8, 8).Some?
    ensures var o := AScan(tables[0], next % 8, 8).value;
      && o < 8 && Dist(next, o) <= Dist(next, p) < 8
      && Dist(o + 1, p) == if p == o then 7 else Dist(next, p) - Dist(next, o) - 1
  {
    hide Dist;
    ReadyTail(tables, p);
    ScanNearest(tables[0], next % 8, 8);
    DistStart(next, p);
    if AScan(tables[0], next % 8, 8).Some? {
      var o := AScan(tables[0], next % 8, 8).value;
      DistStart(next, o);
      DistAfter(next, o, p);
    }
  }

  /** A process that stays runnable is among the next Dist + 1, hence among the next eight, dispatches. */
  lemma {:induction false} BoundedWait(next: nat, tables: seq<ATable>, p: nat)
    requires AlwaysReady(tables, p) && |tables| > Dist(next, p)
    ensures exists t :: 0 <= t <= Dist(next, p) && t < |Dispatched(next, tables)| && Dispatched(next, tables)[t] == p
    ensures Dist(next, p) < 8
    decreases |tables|
  {
    hide Dist, AScan;
    FirstChoice(next, tables, p);
    ReadyTail(tables, p);
    var o := AScan(tables[0], next % 8, 8).value;
    var d := Dispatched(next, tables);
    if o == p {
      assert d[0] == p;
    } else {
      BoundedWait(o + 1, tables[1..], p);
      var e := Dispatched(o + 1, tables[1..]);
      var t :| 0 <= t <= Dist(o + 1, p) && t < |e| && e[t] == p;
      assert d[t + 1] == p;
    }
  }

  /** `x` and `y` take turns in `d`, `x` first. */
  predicate Alternate(d: seq<nat>, x: nat, y: nat) {
    d == [] ||
    (if d[0] == x then Alternate(d[1..], y, x) else d[0] != y && Alternate(d[1..], x, y))
  }

  /** Two processes that stay runnable are dispatched alternately, the nearer one first. */
  lemma {:induction false} TakeTurns(next: nat, tables: seq<ATable>, x: nat, y: nat)
    requires AlwaysReady(tables, x) && AlwaysReady(tables, y) && x != y && Dist(next, x) < Dist(next, y)
    ensures Alternate(Dispatched(next, tables), x, y)
    decreases |tables|
  {
    hide Dist, AScan;
    if tables != [] {
      FirstChoice(next, tables, x);
      FirstChoice(next, tables, y);
      ReadyTail(tables, x);
      ReadyTail(tables, y);
      var o := AScan(tables[0], next % 8, 8).value;
      var e := Dispatched(o + 1, tables[1..]);
      assert Dispatched(next, tables) == [o] + e;
      if o == x { TakeTurns(o + 1, tables[1..], y, x); } else { TakeTurns(o + 1, tables[1..], x, y); }
    }
  }

  function Count(d: seq<nat>, x: nat): nat {
    if d == [] then 0 else (if d[0] == x then 1 else 0) + Count(d[1..], x)
  }

  lemma {:induction false} AlternateDrop(d: seq<nat>, x: nat, y: nat, n: nat)
    requires Alternate(d, x, y) && n <= |d|
    ensures Alternate(d[n..], x, y) || Alternate(d[n..], y, x)
    decreases n
  {
    if n > 0 {
      assert d[n..] == d[1..][n - 1..];
      if d[0] == x { AlternateDrop(d[1..], y, x, n - 1); } else { AlternateDrop(d[1..], x, y, n - 1); }
    } else {
      assert d[0..] == d;
    }
  }

  lemma {:induction false} AlternateCount(d: seq<nat>, x: nat, y: nat, n: nat)
    requires Alternate(d, x, y) && x != y && n <= |d|
    ensures Count(d[..n], y) <= Count(d[..n], x) <= Count(d[..n], y) + 1
    decreases n
  {
    if n > 0 {
      assert d[..n] == [d[0]] + d[1..][..n - 1];
      if d[0] == x { AlternateCount(d[1..], y, x, n - 1); } else { AlternateCount(d[1..], x, y, n - 1); }
    }
  }

  /** In every stretch of dispatches the two differ by at most one turn. */
  lemma WindowFair(d: seq<nat>, x: nat, y: nat, a: nat, b: nat)
    requires (Alternate(d, x, y) || Alternate(d, y, x)) && x != y && a <= b <= |d|
    ensures Count(d[a..b], x) <= Count(d[a..b], y) + 1 && Count(d[a..b], y) <= Count(d[a..b], x) + 1
  {
    if Alternate(d, x, y) { AlternateDrop(d, x, y, a); } else { AlternateDrop(d, y, x, a); }
    var e := d[a..];
    assert e[..b - a] == d[a..b];
    if Alternate(e, x, y) { AlternateCount(e, x, y, b - a); } else { AlternateCount(e, y, x, b - a); }
  }

  lemma {:induction false} CountNone(d: seq<nat>, x: nat)
    requires forall t :: 0 <= t < |d| ==> d[t] != x
    ensures Count(d, x) == 0
  {
    if d != [] { CountNone(d[1..], x); }
  }

  lemma {:induction false} CountAppend(d: seq<nat>, e: seq<nat>, x: nat)
    ensures Count(d + e, x) == Count(d, x) + Count(e, x)
  {
    if d == [] {
      assert d + e == e;
    } else {
      assert (d + e)[1..] == d[1..] + e;
      CountAppend(d[1..], e, x);
    }
  }

  /** Between two consecutive dispatches of `q`, another process `p` is dispatched exactly once, both staying runnable. */
  lemma ExactlyOnceBetween(next: nat, tables: seq<ATable>, p: nat, q: nat, a: nat, b: nat)
    requires AlwaysReady(tables, p) && AlwaysReady(tables, q) && p != q
    requires a < b < |Dispatched(next, tables)|
    requires Dispatched(next, tables)[a] == q && Dispatched(next, tables)[b] == q
    requires forall t :: a < t < b ==> Dispatched(next, tables)[t] != q
    ensures Count(Dispatched(next, tables)[a + 1..b], p) == 1
  {
    hide Dispatched, Alternate, Dist, Count;
    var d := Dispatched(next, tables);
    EitherFirst(next, tables, p, q);
    var w := d[a + 1..b];
    WindowFair(d, p, q, a + 1, b);
    WindowFair(d, p, q, a, b + 1);
    CountNone(w, q);
    assert d[a..b + 1] == [q] + w + [q];
    CountBetween(w, q, p);
    CountBetween(w, q, q);
  }

  lemma EitherFirst(next: nat, tables: seq<ATable>, p: nat, q: nat)
    requires AlwaysReady(tables, p) && AlwaysReady(tables, q) && p != q
    ensures Alternate(Dispatched(next, tables), p, q) || Alternate(Dispatched(next, tables), q, p)
  {
    if Dist(next, p) < Dist(next, q) { TakeTurns(next, tables, p, q); } else { TakeTurns(next, tables, q, p); }
  }

  lemma CountBetween(w: seq<nat>, q: nat, x: nat)
    ensures Count([q] + w + [q], x) == Count(w, x) + if x == q then 2 else 0
  {
    CountAppend([q] + w, [q], x);
    CountAppend([q], w, x);
  }

  // ---- the dispatches of a run ----

  /** The process tables at the dispatches of a run, and the slots dispatched. */
  ghost function TablesOf(a: AState, es: seq<Event>): seq<ATable>
    decreases |es|
  {
    if es == [] || !Proper(a) || AStep(a, es[0]) == None then []
    else
      (if a.mode == InScheduler && es[0].Dispatch? then [a.procs] else []) + TablesOf(AStep(a, es[0]).value, es[1..])
  }

  ghost function DispatchLog(a: AState, es: seq<Event>): seq<nat>
    decreases |es|
  {
    if es == [] || !Proper(a) || AStep(a, es[0]) == None then []
    else
      var b := AStep(a, es[0]).value;
      (if a.mode == InScheduler && es[0].Dispatch? && b.mode == InUser then [b.cur] else []) + DispatchLog(b, es[1..])
  }

  lemma CallKept(a: AState, env: Env)
    requires a.Runs() && ASyscall(a, env).Some?
    ensures ASyscall(a, env).value.next == a.next
  {
    hide AStoreBytes, AKillFrom, FreshProc, AFirstFree, ReadFd, OpenPath, CloseFd, Found;
  }

  lemma NextKept(a: AState, e: Event)
    requires Proper(a) && AStep(a, e).Some? && !(a.mode == InScheduler && e.Dispatch?)
    ensures AStep(a, e).value.next == a.next
  {
    hide AStore, AScan, ASyscall, Typed;
    if a.mode == InUser && e.Ecall? {
      var p := a.Cur();
      CallKept(a.With(AProc(p.regs, (p.pc + 4) % 0x1_0000_0000, p.space)), e.env);
    }
  }

  lemma DispatchKept(a: AState)
    requires a.mode == InScheduler
    ensures AStep(a, Dispatch).Some?
    ensures var b := AStep(a, Dispatch).value;
      match AScan(a.procs, a.next % 8, 8)
      case None => b == a
      case Some(o) => b.mode == InUser && b.cur == o && b.next == o + 1
  {
    hide AScan;
  }

  /** What a run dispatches is what the scan yields on its tables, so the bounds above hold of every run. */
  lemma {:induction false} LogIsDispatched(a: AState, es: seq<Event>)
    ensures DispatchLog(a, es) == Dispatched(a.next, TablesOf(a, es))
    decreases |es|
  {
    hide AStep, AScan;
    if es != [] && Proper(a) && AStep(a, es[0]).Some? {
      var b := AStep(a, es[0]).value;
      LogIsDispatched(b, es[1..]);
      if a.mode == InScheduler && es[0].Dispatch? {
        DispatchKept(a);
        var rest := TablesOf(b, es[1..]);
        assert ([a.procs] + rest)[1..] == rest;
      } else {
        NextKept(a, es[0]);
        assert [] + TablesOf(b, es[1..]) == TablesOf(b, es[1..]);
      }
    }
  }
}
