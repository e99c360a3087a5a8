/**
 The argument vector a new program finds is the one its predecessor passed.
 */
module ArgumentVector {
  import opened Sv32
  import opened Bytes
  import opened Pages
  import opened Spaces
  import opened Images
  import opened Arguments
  import opened Processes
  import opened AbstractOs

  lemma {:induction false} WriteBytesAt(f: Frame, at: nat, bs: seq<Byte>, k: nat)
    requires at + |bs| <= 4096 && k < 4096
    ensures ByteOf(WriteBytes(f, at, bs), k) == if at <= k < at + |bs| then bs[k - at] else ByteOf(f, k)
    decreases |bs|
  {
    hide ByteOf, SetByte;
    if bs != [] {
      SetByteOk(f, at, bs[0], k);
      WriteBytesAt(SetByte(f, at, bs[0]), at + 1, bs[1..], k);
    }
  }

  /** Bytes the strings from `i` on need, terminators included. */
  function Room(args: seq<seq<Byte>>, i: nat): nat
    decreases |args| - i
  {
    if i >= |args| then 0 else |args[i]| + 1 + Room(args, i + 1)
  }

  /** Offset in the stack page of string `j`: each string ends where its predecessor begins. */
  function Offset(args: seq<seq<Byte>>, j: nat): int { 4096 - Room(args, 0) + Room(args, j + 1) }

  predicate HasByte(f: Frame, k: int, b: Byte) { 0 <= k < 4096 && ByteOf(f, k) == b }

  ghost predicate StringIn(f: Frame, lo: int, str: seq<Byte>) {
    (forall k :: 0 <= k < |str| ==> HasByte(f, lo + k, str[k])) && HasByte(f, lo + |str|, 0)
  }

  ghost predicate WordIn(f: Frame, at: int, w: Word) {
    && HasByte(f, at, Digit(w, 0)) && HasByte(f, at + 1, Digit(w, 1))
    && HasByte(f, at + 2, Digit(w, 2)) && HasByte(f, at + 3, Digit(w, 3))
  }

  /** Outside [lo, hi) the two pages agree. */
  ghost predicate Agree(f: Frame, g: Frame, lo: int, hi: int) {
    forall k :: 0 <= k < 4096 && (k < lo || hi <= k) ==> ByteOf(g, k) == ByteOf(f, k)
  }

  /** Pushed down from `at`, string `j` of those from `i` on is whole, right below its predecessor, and pointed to. */
  ghost predicate PlacedAt(g: Frame, args: seq<seq<Byte>>, i: nat, at: nat, ptrs: seq<Word>, j: nat)
    requires i <= j < |args| && |ptrs| == |args| - i
  {
    var lo := at - Room(args, i) + Room(args, j + 1);
    0 <= lo && ptrs[j - i] == STACK_BASE + lo && StringIn(g, lo, args[j])
  }

  /** The strings from `i` on, pushed down from `at`, and nothing else written. */
  ghost predicate Pushed(f: Frame, args: seq<seq<Byte>>, i: nat, at: nat, g: Frame, end: nat, ptrs: seq<Word>) {
    && at <= 4096 && Room(args, i) <= at && end == at - Room(args, i) && i <= |args| && |ptrs| == |args| - i
    && Agree(f, g, end, at)
    && forall j :: i <= j < |args| ==> PlacedAt(g, args, i, at, ptrs, j)
  }

  lemma {:induction false} RoomMonotone(args: seq<seq<Byte>>, i: nat, j: nat)
    requires i <= j
    ensures Room(args, j) <= Room(args, i)
    decreases j - i
  {
    if i < j { RoomMonotone(args, i, j - 1); }
  }

  lemma {:induction false} PushStringsOk(f: Frame, args: seq<seq<Byte>>, i: nat, at: nat)
    requires at <= 4096 && i <= |args|
    ensures PushStrings(f, args, i, at).Go? <==> Room(args, i) <= at
    ensures !PushStrings(f, args, i, at).Halt?
    ensures PushStrings(f, args, i, at).Go? ==>
      var (g, end, ptrs) := PushStrings(f, args, i, at).value; Pushed(f, args, i, at, g, end, ptrs)
    decreases |args| - i
  {
    hide ByteOf, WriteBytes;
    if i < |args| && |args[i]| + 1 <= at {
      var low := at - (|args[i]| + 1);
      var w := WriteBytes(f, low, args[i] + [0]);
      PushStringsOk(w, args, i + 1, low);
      var r := PushStrings(w, args, i + 1, low);
      if r.Go? {
        var (g, end, ptrs) := r.value;
        PushOne(f, args, i, at, w, g, end, ptrs);
      }
    }
  }

  /** The bytes of `str` and a terminator, written at `low`. */
  lemma WriteString(f: Frame, low: nat, str: seq<Byte>)
    requires low + |str| + 1 <= 4096
    ensures var w := WriteBytes(f, low, str + [0]);
      StringIn(w, low, str) && Agree(f, w, low, low + |str| + 1)
  {
    hide ByteOf, WriteBytes;
    var w := WriteBytes(f, low, str + [0]);
    forall k | 0 <= k < 4096
      ensures ByteOf(w, k) == if low <= k < low + |str| + 1 then (str + [0])[k - low] else ByteOf(f, k)
    {
      WriteBytesAt(f, low, str + [0], k);
    }
  }

  lemma StringStays(f: Frame, g: Frame, lo: int, hi: int, at: int, str: seq<Byte>)
    requires StringIn(f, at, str) && Agree(f, g, lo, hi) && (at + |str| < lo || hi <= at)
    ensures StringIn(g, at, str)
  {
    hide ByteOf;
  }

  lemma PushOne(f: Frame, args: seq<seq<Byte>>, i: nat, at: nat, w: Frame, g: Frame, end: nat, ptrs: seq<Word>)
    requires i < |args| && |args[i]| + 1 <= at <= 4096
    requires w == WriteBytes(f, at - (|args[i]| + 1), args[i] + [0])
    requires Pushed(w, args, i + 1, at - (|args[i]| + 1), g, end, ptrs)
    ensures Pushed(f, args, i, at, g, end, [STACK_BASE + at - (|args[i]| + 1)] + ptrs)
  {
    hide ByteOf, WriteBytes, StringIn;
    var low := at - (|args[i]| + 1);
    WriteString(f, low, args[i]);
    StringStays(w, g, end, low, low, args[i]);
    assert Room(args, i) == |args[i]| + 1 + Room(args, i + 1);
    hide Room, Agree;
    AgreeMore(f, w, g, end, low, at);
    var all := [STACK_BASE + low] + ptrs;
    forall j | i <= j < |args| ensures PlacedAt(g, args, i, at, all, j) {
      if j > i {
        assert PlacedAt(g, args, i + 1, low, ptrs, j);
        assert all[j - i] == ptrs[j - (i + 1)];
      }
    }
  }

  lemma AgreeMore(f: Frame, w: Frame, g: Frame, end: int, low: int, at: int)
    requires Agree(f, w, low, at) && Agree(w, g, end, low) && end <= low <= at
    ensures Agree(f, g, end, at)
  {
    hide ByteOf;
  }

  lemma {:induction false} WordBytesAt(ws: seq<Word>, k: nat, r: nat)
    requires k < |ws| && r < 4
    ensures WordBytes(ws)[4 * k + r] == Digit(ws[k], r)
    decreases |ws|
  {
    hide Digit;
    if k > 0 {
      WordBytesAt(ws[1..], k - 1, r);
      var head := [Digit(ws[0], 0), Digit(ws[0], 1), Digit(ws[0], 2), Digit(ws[0], 3)];
      assert WordBytes(ws) == head + WordBytes(ws[1..]);
      assert (head + WordBytes(ws[1..]))[4 * k + r] == WordBytes(ws[1..])[4 * (k - 1) + r];
    }
  }

  /** Arguments can be passed exactly when strings and pointers fit one page; otherwise the copy runs off it. */
  lemma ArgumentsFit(f: Frame, args: seq<seq<Byte>>)
    ensures PushArguments(f, args).Go? <==> Room(args, 0) + 4 * |args| <= 4096
    ensures !PushArguments(f, args).Halt?
  {
    hide ByteOf, WriteBytes, Pushed;
    PushStringsOk(f, args, 0, 4096);
    if PushStrings(f, args, 0, 4096).Go? {
      var (g, end, ptrs) := PushStrings(f, args, 0, 4096).value;
      assert end == 4096 - Room(args, 0) && |ptrs| == |args| by { PushedSizes(f, args, g, end, ptrs); }
    }
  }

  lemma PushedSizes(f: Frame, args: seq<seq<Byte>>, g: Frame, end: nat, ptrs: seq<Word>)
    requires Pushed(f, args, 0, 4096, g, end, ptrs)
    ensures end == 4096 - Room(args, 0) && |ptrs| == |args|
  {
  }

  lemma WriteWords(g: Frame, at: nat, ws: seq<Word>, j: nat)
    requires at + 4 * |ws| <= 4096 && j < |ws|
    ensures WordIn(WriteBytes(g, at, WordBytes(ws)), at + 4 * j, ws[j])
  {
    hide ByteOf, WriteBytes, Digit;
    WordBytesAt(ws, j, 0);
    WordBytesAt(ws, j, 1);
    WordBytesAt(ws, j, 2);
    WordBytesAt(ws, j, 3);
    WriteBytesAt(g, at, WordBytes(ws), at + 4 * j);
    WriteBytesAt(g, at, WordBytes(ws), at + 4 * j + 1);
    WriteBytesAt(g, at, WordBytes(ws), at + 4 * j + 2);
    WriteBytesAt(g, at, WordBytes(ws), at + 4 * j + 3);
  }

  lemma WriteAgrees(g: Frame, at: nat, bs: seq<Byte>)
    requires at + |bs| <= 4096
    ensures Agree(g, WriteBytes(g, at, bs), at, at + |bs|)
  {
    hide ByteOf, WriteBytes;
    forall k | 0 <= k < 4096 && (k < at || at + |bs| <= k) ensures ByteOf(WriteBytes(g, at, bs), k) == ByteOf(g, k) {
      WriteBytesAt(g, at, bs, k);
    }
  }

  /** The finished stack page: string `j` whole at its offset, and pointer `j` to it in the array at the end. */
  lemma ArgumentsPlaced(args: seq<seq<Byte>>, j: nat)
    requires PushArguments(Zero(), args).Go? && j < |args|
    ensures var (f, at) := PushArguments(Zero(), args).value;
      && at == 4096 - Room(args, 0) - 4 * |args|
      && at + 4 * |args| <= Offset(args, j) < 4096
      && StringIn(f, Offset(args, j), args[j])
      && WordIn(f, at + 4 * j, STACK_BASE + Offset(args, j))
  {
    hide ByteOf, WriteBytes, Digit, StringIn, Agree, WordIn, Room, PushArguments, WordBytes, Offset;
    var g, end, ptrs, at := StringsPlaced(args, j);
    OffsetBounds(args, j);
    WriteWords(g, at, ptrs, j);
    WriteAgrees(g, at, WordBytes(ptrs));
    StringStays(g, WriteBytes(g, at, WordBytes(ptrs)), at, end, Offset(args, j), args[j]);
  }

  /** The page after the strings, before the pointers. */
  lemma StringsPlaced(args: seq<seq<Byte>>, j: nat) returns (g: Frame, end: nat, ptrs: seq<Word>, at: nat)
    requires PushArguments(Zero(), args).Go? && j < |args|
    ensures end == 4096 - Room(args, 0) && |ptrs| == |args| && at == end - 4 * |ptrs| && at + 4 * |ptrs| <= 4096
    ensures PushArguments(Zero(), args) == Go((WriteBytes(g, at, WordBytes(ptrs)), at))
    ensures ptrs[j] == STACK_BASE + Offset(args, j) && StringIn(g, Offset(args, j), args[j])
  {
    hide ByteOf, WriteBytes, StringIn, Agree, Room, PushStrings, WordBytes;
    ArgumentsFit(Zero(), args);
    PushStringsOk(Zero(), args, 0, 4096);
    var (page, low, pointers) := PushStrings(Zero(), args, 0, 4096).value;
    g, end, ptrs := page, low, pointers;
    at := end - 4 * |ptrs|;
    assert PlacedAt(g, args, 0, 4096, ptrs, j);
  }

  lemma OffsetBounds(args: seq<seq<Byte>>, j: nat)
    requires j < |args|
    ensures 4096 - Room(args, 0) <= Offset(args, j) && Offset(args, j) + |args[j]| + 1 <= 4096
  {
    RoomMonotone(args, 0, j);
    assert Room(args, j) == |args[j]| + 1 + Room(args, j + 1);
  }

  lemma StackPeek(sp: Space, f: Frame, k: int, b: Byte)
    requires STACK_PAGE in sp && sp[STACK_PAGE] == Page(RWXU, f) && HasByte(f, k, b)
    ensures Peek(sp, STACK_BASE + k) == Some(b)
  {
    hide ByteOf;
    assert (STACK_BASE + k) / 4096 == STACK_PAGE && (STACK_BASE + k) % 4096 == k;
  }

  /** After exec a0 counts the arguments, and the pointers at a1, followed through the new address space, lead to
      exactly the strings that were passed. */
  lemma ArgumentsDelivered(file: seq<Byte>, args: seq<seq<Byte>>, j: nat)
    requires PushArguments(Zero(), args).Go? && j < |args|
    ensures var p := FreshProc(file, args);
      && p.regs[A0] == |args| && p.regs[A1] == p.regs[SP]
      && 0 <= Offset(args, j) && STACK_BASE + Offset(args, j) < 0x1_0000_0000
      && PointerAt(p.space, p.regs[A1] + 4 * j, STACK_BASE + Offset(args, j))
      && StringAt(p.space, STACK_BASE + Offset(args, j), args[j])
  {
    hide PushArguments, ImageSpace, ByteOf, Digit, Peek, Room, HasByte, FreshProc, EntryPoint;
    ArgumentsPlaced(args, j);
    FreshFacts(file, args);
    var p := FreshProc(file, args);
    var (f, at) := PushArguments(Zero(), args).value;
    var lo := Offset(args, j);
    var w: Word := STACK_BASE + lo;
    assert p.regs[A1] == STACK_BASE + at;
    StackPeek(p.space, f, at + 4 * j, Digit(w, 0));
    StackPeek(p.space, f, at + 4 * j + 1, Digit(w, 1));
    StackPeek(p.space, f, at + 4 * j + 2, Digit(w, 2));
    StackPeek(p.space, f, at + 4 * j + 3, Digit(w, 3));
    forall k | 0 <= k < |args[j]| ensures Peek(p.space, STACK_BASE + lo + k) == Some(args[j][k]) {
      StackPeek(p.space, f, lo + k, args[j][k]);
    }
    StackPeek(p.space, f, lo + |args[j]|, 0);
  }

  lemma FreshFacts(file: seq<Byte>, args: seq<seq<Byte>>)
    requires PushArguments(Zero(), args).Go?
    ensures var p := FreshProc(file, args);
      var (f, at) := PushArguments(Zero(), args).value;
      && at <= 4096 && p.regs[A0] == |args| && p.regs[A1] == p.regs[SP] == STACK_BASE + at
      && STACK_PAGE in p.space && p.space[STACK_PAGE] == Page(RWXU, f)
  {
    hide PushArguments, ImageSpace, EntryPoint;
  }

  // ---- the vector in the caller's memory is unambiguous ----

  lemma DigitsDetermine(v: Word, w: Word)
    requires Digit(v, 0) == Digit(w, 0) && Digit(v, 1) == Digit(w, 1) && Digit(v, 2) == Digit(w, 2) &&
      Digit(v, 3) == Digit(w, 3)
    ensures v == w
  {
    hide Digit;
    DigitsSum(v);
    DigitsSum(w);
  }

  lemma DigitsSum(u: Word)
    ensures u == Digit(u, 0) + 0x100 * Digit(u, 1) + 0x1_0000 * Digit(u, 2) + 0x100_0000 * Digit(u, 3)
  {
    assert u / 0x1_0000 == (u / 0x100) / 0x100;
    assert u / 0x100_0000 == (u / 0x1_0000) / 0x100;
  }

  /** A string is no longer than another one that starts at the same address. */
  lemma StringNoLonger(sp: Space, va: int, a: seq<Byte>, b: seq<Byte>)
    requires StringAt(sp, va, a) && StringAt(sp, va, b) && 0 !in b
    ensures |a| >= |b|
  {
    hide Peek;
    if |a| < |b| { NoEndInside(sp, va, a, b, |a|); }
  }

  lemma NoEndInside(sp: Space, va: int, a: seq<Byte>, b: seq<Byte>, k: nat)
    requires StringAt(sp, va, a) && StringAt(sp, va, b) && 0 !in b && k < |b|
    ensures k != |a|
  {
    hide Peek;
    assert b[k] in b && Peek(sp, va + k) == Some(b[k]);
  }

  lemma StringUnique(sp: Space, va: int, a: seq<Byte>, b: seq<Byte>)
    requires StringAt(sp, va, a) && StringAt(sp, va, b) && 0 !in a && 0 !in b
    ensures a == b
  {
    hide Peek;
    StringNoLonger(sp, va, a, b);
    StringNoLonger(sp, va, b, a);
    forall k | 0 <= k < |a| ensures a[k] == b[k] {
      assert Peek(sp, va + k) == Some(a[k]);
    }
  }

  lemma PointerUnique(sp: Space, at: int, v: Word, w: Word)
    requires PointerAt(sp, at, v) && PointerAt(sp, at, w)
    ensures v == w
  {
    hide Peek, Digit;
    DigitsDetermine(v, w);
  }

  /** A caller's memory holds at most one argument vector at an address, so exec's argument list is determined by it. */
  lemma ArgvUnique(sp: Space, argv: Word, a: seq<seq<Byte>>, b: seq<seq<Byte>>)
    requires IsArgv(sp, argv, a) && IsArgv(sp, argv, b)
    ensures a == b
  {
    hide PointerAt, StringAt;
    if argv != 0 {
      if |a| < |b| { ShorterArgv(sp, argv, a, b); }
      if |b| < |a| { ShorterArgv(sp, argv, b, a); }
      forall k | 0 <= k < |a| && k < |b| ensures a[k] == b[k] {
        assert ArgAt(sp, argv + 4 * k, a[k]) && ArgAt(sp, argv + 4 * k, b[k]);
        var v: Word :| v != 0 && PointerAt(sp, argv + 4 * k, v) && StringAt(sp, v, a[k]);
        var w: Word :| w != 0 && PointerAt(sp, argv + 4 * k, w) && StringAt(sp, w, b[k]);
        PointerUnique(sp, argv + 4 * k, v, w);
        StringUnique(sp, v, a[k], b[k]);
      }
    }
  }

  lemma ShorterArgv(sp: Space, argv: Word, a: seq<seq<Byte>>, b: seq<seq<Byte>>)
    requires argv != 0 && IsArgv(sp, argv, a) && IsArgv(sp, argv, b)
    ensures |a| >= |b|
  {
    hide PointerAt, StringAt;
    if |a| < |b| {
      var at := argv + 4 * |a|;
      assert ArgAt(sp, at, b[|a|]);
      var w: Word :| w != 0 && PointerAt(sp, at, w) && StringAt(sp, w, b[|a|]);
      PointerUnique(sp, at, w, 0);
    }
  }
}
