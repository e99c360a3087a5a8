/**
 The terminal's line discipline: a ring of 1024 bytes with three cursors and two
 flags, and the line editor it is meant to be.
 */
module Tty {
  import opened Bytes

  const SIZE: nat := 1024
  const BACKSPACE: Byte := 127
  const CR: Byte := 13
  const LF: Byte := 10

  // ---- the ring of tty.c ----

  datatype Ring = Ring(buffer: seq<Byte>, r: nat, w: nat, insert: nat, isEmpty: bool, isFull: bool) {
    predicate Shape() { |buffer| == SIZE && r < SIZE && w < SIZE && insert < SIZE }
  }

  function NewLine(c: Byte): Byte { if c == CR then LF else c }

  /** TtyBufferInsert: the new ring, and whether the character was taken. */
  function Insert(t: Ring, c: Byte): (Ring, bool)
    requires t.Shape()
  {
    if t.isFull then (t, false)
    else if c == BACKSPACE then
      var prev := (t.insert + SIZE - 1) % SIZE;
      if !t.isEmpty && t.buffer[prev] != LF then (t.(insert := prev, isEmpty := prev == t.r), true) else (t, true)
    else
      var d, next := NewLine(c), (t.insert + 1) % SIZE;
      (Ring(t.buffer[t.insert := d], t.r, if d == LF then next else t.w, next, false, next == t.r), true)
  }

  /** The loop of TtyRead from the `i`-th byte on. */
  function ReadLoop(t: Ring, n: nat, i: nat): (Ring, seq<Byte>)
    requires t.Shape() && i <= n
    decreases n - i
  {
    if i < n && !t.isEmpty && t.r != t.w then
      var b, u := t.buffer[t.r], t.(isFull := false, r := (t.r + 1) % SIZE);
      if b == LF then (u, [b])
      else
        var (v, bs) := ReadLoop(u, n, i + 1);
        (v, [b] + bs)
    else (t, [])
  }

  function ReadDone(t: Ring): Ring { if t.r == t.insert then t.(isEmpty := true) else t }

  /** TtyRead: the new ring, and the bytes handed to the reader. */
  function Read(t: Ring, n: nat): (Ring, seq<Byte>)
    requires t.Shape()
  {
    if t.isEmpty then (t, []) else (ReadDone(ReadLoop(t, n, 0).0), ReadLoop(t, n, 0).1)
  }

  // ---- the line editor ----

  /** Finished lines nobody has read yet, and the line being typed. */
  datatype Line = Line(committed: seq<Byte>, pending: seq<Byte>) {
    function Unread(): seq<Byte> { committed + pending }
  }

  function Type(q: Line, c: Byte): Line {
    if c == BACKSPACE then (if q.pending == [] then q else Line(q.committed, q.pending[..|q.pending| - 1]))
    else if NewLine(c) == LF then Line(q.committed + q.pending + [LF], [])
    else Line(q.committed, q.pending + [c])
  }

  /** At most `n` bytes, and none behind a newline. */
  function Take(s: seq<Byte>, n: nat): (p: seq<Byte>)
    ensures p <= s && |p| <= n
    ensures forall k :: 0 <= k < |p| - 1 ==> p[k] != LF
  {
    if n == 0 || s == [] then []
    else if s[0] == LF then [LF]
    else [s[0]] + Take(s[1..], n - 1)
  }

  // ---- the ring holds a line ----

  /** The ring position `k` behind `r`, for `r` in the ring and `k` at most its size. */
  function Slot(r: nat, k: nat): (s: nat)
    ensures s < SIZE
  {
    if r + k < SIZE then r + k else if r + k < 2 * SIZE then r + k - SIZE else 0
  }

  lemma SlotNext(r: nat, k: nat)
    requires r < SIZE && k <= SIZE
    ensures k < SIZE ==> (Slot(r, k) + 1) % SIZE == Slot(r, k + 1) == Slot((r + 1) % SIZE, k)
    ensures k > 0 ==> (Slot(r, k) + SIZE - 1) % SIZE == Slot(r, k - 1)
  {
  }

  lemma SlotApart(r: nat, k: nat, l: nat)
    requires r < SIZE && k <= l <= SIZE
    ensures l - k < SIZE ==> (Slot(r, k) == Slot(r, l) <==> k == l)
    ensures Slot(r, 0) == Slot(r, SIZE) == r
  {
  }

  ghost predicate Holds(t: Ring, q: Line, k: nat)
    requires t.Shape()
  {
    k < |q.Unread()| && t.buffer[Slot(t.r, k)] == q.Unread()[k]
  }

  /** The ring `t` holds `q`, apart from its isEmpty flag. */
  ghost predicate Carries(t: Ring, q: Line) {
    && t.Shape() && |q.Unread()| <= SIZE
    && (forall k :: 0 <= k < |q.Unread()| ==> Holds(t, q, k))
    && t.w == Slot(t.r, |q.committed|) && t.insert == Slot(t.r, |q.Unread()|)
    && (t.isFull <==> |q.Unread()| == SIZE)
    && LF !in q.pending && (q.committed != [] ==> q.committed[|q.committed| - 1] == LF)
  }

  ghost predicate Rings(t: Ring, q: Line) {
    Carries(t, q) && (t.isEmpty <==> q.Unread() == [])
  }

  lemma TypeKey(t: Ring, q: Line, c: Byte)
    requires Rings(t, q) && !t.isFull && c != BACKSPACE
    ensures Rings(Insert(t, c).0, Type(q, c)) && Insert(t, c).1
  {
    hide Slot;
    var u, p, n := Insert(t, c).0, Type(q, c), |q.Unread()|;
    assert p.Unread() == q.Unread() + [NewLine(c)];
    SlotNext(t.r, n);
    SlotApart(t.r, 0, n + 1);
    forall k | 0 <= k < |p.Unread()| ensures Holds(u, p, k) {
      SlotApart(t.r, k, n);
      if k < n { assert Holds(t, q, k); }
    }
  }

  lemma EraseKey(t: Ring, q: Line)
    requires Rings(t, q) && !t.isFull
    ensures Rings(Insert(t, BACKSPACE).0, Type(q, BACKSPACE)) && Insert(t, BACKSPACE).1
  {
    hide Slot;
    var u, p, n := Insert(t, BACKSPACE).0, Type(q, BACKSPACE), |q.Unread()|;
    if n > 0 {
      SlotNext(t.r, n);
      SlotApart(t.r, 0, n - 1);
      assert Holds(t, q, n - 1);
      if q.pending != [] {
        assert q.Unread()[n - 1] == q.pending[|q.pending| - 1] && q.pending[|q.pending| - 1] in q.pending;
        assert p.Unread() == q.Unread()[..n - 1];
        forall k | 0 <= k < n - 1 ensures Holds(u, p, k) { assert Holds(t, q, k); }
      } else {
        assert q.Unread() == q.committed;
      }
    }
  }

  /** A key press edits the line: a character is refused only when the ring is full. */
  lemma InsertRefines(t: Ring, q: Line, c: Byte)
    requires Rings(t, q)
    ensures Insert(t, c).1 <==> !t.isFull
    ensures Rings(Insert(t, c).0, if t.isFull then q else Type(q, c))
  {
    if !t.isFull {
      if c == BACKSPACE { EraseKey(t, q); } else { TypeKey(t, q, c); }
    }
  }

  lemma CursorsMeet(t: Ring, q: Line)
    requires Carries(t, q)
    ensures t.Shape()
    ensures t.r == t.w <==> q.committed == [] || |q.committed| == SIZE
    ensures t.r == t.insert <==> q.Unread() == [] || t.isFull
    ensures t.isFull && t.r != t.w ==> q.committed != [] && q.pending != []
  {
    hide Slot;
    assert |q.Unread()| == |q.committed| + |q.pending|;
    SlotApart(t.r, 0, |q.committed|);
    SlotApart(t.r, 0, |q.Unread()|);
  }

  /** One byte leaves the ring. */
  lemma TakeOne(t: Ring, q: Line)
    requires Carries(t, q) && t.r != t.w
    ensures q.committed != [] && t.buffer[t.r] == q.committed[0]
    ensures Carries(t.(isFull := false, r := (t.r + 1) % SIZE), Line(q.committed[1..], q.pending))
  {
    hide Slot;
    CursorsMeet(t, q);
    var u, p := t.(isFull := false, r := (t.r + 1) % SIZE), Line(q.committed[1..], q.pending);
    assert q.Unread() == [q.committed[0]] + p.Unread();
    SlotApart(t.r, 0, 0);
    assert Holds(t, q, 0);
    SlotNext(t.r, |p.committed|);
    SlotNext(t.r, |p.Unread()|);
    forall k | 0 <= k < |p.Unread()| ensures Holds(u, p, k) {
      SlotNext(t.r, k);
      assert Holds(t, q, k + 1);
    }
  }

  lemma {:induction false} ReadLoopOk(t: Ring, q: Line, n: nat, i: nat)
    requires Carries(t, q) && !t.isEmpty && i <= n && (t.isFull ==> t.r != t.w && i < n)
    ensures var (u, bs) := ReadLoop(t, n, i);
      && bs == Take(q.committed, n - i) && !u.isEmpty && !u.isFull
      && Carries(u, Line(q.committed[|bs|..], q.pending))
    decreases n - i
  {
    hide Carries;
    CursorsMeet(t, q);
    ShapeOf(t, q);
    if i < n && t.r != t.w {
      TakeOne(t, q);
      var u, p := t.(isFull := false, r := (t.r + 1) % SIZE), Line(q.committed[1..], q.pending);
      if t.buffer[t.r] != LF {
        ReadLoopOk(u, p, n, i + 1);
        var bs := ReadLoop(u, n, i + 1).1;
        assert q.committed[1..][|bs|..] == q.committed[|bs| + 1..];
      }
    } else {
      assert q.committed[0..] == q.committed && Line(q.committed, q.pending) == q;
    }
  }

  lemma ShapeOf(t: Ring, q: Line)
    requires Carries(t, q)
    ensures t.Shape() && (|q.committed| == SIZE ==> t.isFull)
  {
  }

  /** A read is one the ring supports: unless it is full with nothing to deliver, or asked for nothing. */
  predicate Proper(t: Ring, n: nat) { t.isFull ==> t.r != t.w && n > 0 }

  /** A proper read delivers the front of the committed bytes, up to `n` and up to a newline. */
  lemma ReadRefines(t: Ring, q: Line, n: nat)
    requires Rings(t, q) && Proper(t, n)
    ensures Read(t, n).1 == Take(q.committed, n)
    ensures Rings(Read(t, n).0, Line(q.committed[|Take(q.committed, n)|..], q.pending))
  {
    hide Carries, Take;
    ShapeOf(t, q);
    CursorsMeet(t, q);
    if t.isEmpty {
      assert q.committed[0..] == q.committed && Line(q.committed, q.pending) == q;
    } else {
      ReadLoopOk(t, q, n, 0);
      var u, p := ReadLoop(t, n, 0).0, Line(q.committed[|Take(q.committed, n)|..], q.pending);
      CursorsMeet(u, p);
      CarriesFlag(u, p, ReadDone(u).isEmpty);
    }
  }

  lemma CarriesFlag(t: Ring, q: Line, empty: bool)
    requires Carries(t, q)
    ensures Carries(t.(isEmpty := empty), q)
  {
    var u := t.(isEmpty := empty);
    forall k | 0 <= k < |q.Unread()| ensures Holds(u, q, k) { assert Holds(t, q, k); }
  }

  // ---- when the ring is full ----

  /** Full and, for its flags, empty: nothing goes in or comes out any more. */
  predicate Stuck(t: Ring) { t.Shape() && t.isEmpty && t.isFull }

  /** The restriction is exact: after a read of a ring that holds `q`, the ring holds a line again if and only if the
      read was proper; after any other read, which delivers nothing, the terminal is stuck. */
  lemma ProperIsExact(t: Ring, q: Line, n: nat)
    requires Rings(t, q)
    ensures Proper(t, n) <==> exists p :: Rings(Read(t, n).0, p)
    ensures !Proper(t, n) ==> Read(t, n).1 == [] && Stuck(Read(t, n).0)
  {
    CursorsMeet(t, q);
    if Proper(t, n) {
      ReadRefines(t, q, n);
    } else {
      var u := Read(t, n).0;
      forall p ensures !Rings(u, p) {}
    }
  }

  // ---- runs ----

  datatype Event = Key(c: Byte) | Ask(n: nat)

  function Step(t: Ring, e: Event): (Ring, seq<Byte>)
    requires t.Shape()
    ensures Step(t, e).0.Shape()
  {
    match e
    case Key(c) => (Insert(t, c).0, [])
    case Ask(n) => (ReadStep(t, n), Read(t, n).1)
  }

  function ReadStep(t: Ring, n: nat): (u: Ring)
    requires t.Shape()
    ensures u.Shape() && u == Read(t, n).0
  {
    ReadShape(t, n, 0);
    Read(t, n).0
  }

  lemma {:induction false} ReadShape(t: Ring, n: nat, i: nat)
    requires t.Shape() && i <= n
    ensures ReadLoop(t, n, i).0.Shape() && |ReadLoop(t, n, i).1| <= n - i
    decreases n - i
  {
    if i < n && !t.isEmpty && t.r != t.w && t.buffer[t.r] != LF {
      ReadShape(t.(isFull := false, r := (t.r + 1) % SIZE), n, i + 1);
    }
  }

  function Run(t: Ring, es: seq<Event>): Ring
    requires t.Shape()
    decreases |es|
  {
    if es == [] then t else Run(Step(t, es[0]).0, es[1..])
  }

  /** Everything a run hands to its readers. */
  function Output(t: Ring, es: seq<Event>): seq<Byte>
    requires t.Shape()
    decreases |es|
  {
    if es == [] then [] else Step(t, es[0]).1 + Output(Step(t, es[0]).0, es[1..])
  }

  /** The keys a run takes, that is, those pressed while the ring was not full. */
  function Keys(t: Ring, es: seq<Event>): seq<Byte>
    requires t.Shape()
    decreases |es|
  {
    if es == [] then []
    else (if es[0].Key? && !t.isFull then [es[0].c] else []) + Keys(Step(t, es[0]).0, es[1..])
  }

  predicate AllProper(t: Ring, es: seq<Event>)
    requires t.Shape()
    decreases |es|
  {
    es != [] ==> (es[0].Ask? ==> Proper(t, es[0].n)) && AllProper(Step(t, es[0]).0, es[1..])
  }

  /** What typing `input` behind the unfinished line `pending` amounts to, with no queue involved: the text of all
      finished lines, and the line left unfinished. A line ends with a carriage return or a line feed, which both become a
      line feed; the delete key reaches back to the last of them at most. */
  function Edited(pending: seq<Byte>, input: seq<Byte>): Line
    decreases |input|
  {
    if input == [] then Line([], pending)
    else if input[0] == 127 then
      Edited(if pending == [] then [] else pending[..|pending| - 1], input[1..])
    else if input[0] == 10 || input[0] == 13 then
      var rest := Edited([], input[1..]);
      Line(pending + [10] + rest.committed, rest.pending)
    else Edited(pending + [input[0]], input[1..])
  }

  /** The terminal is a line editor. Over every interleaving of key presses and proper reads: what has been read,
      followed by what is committed, is the edited text of all keys taken, and what is pending is its unfinished line. */
  lemma {:induction false} RunEdits(t: Ring, q: Line, es: seq<Event>) returns (p: Line)
    requires Rings(t, q) && AllProper(t, es)
    ensures Rings(Run(t, es), p)
    ensures Output(t, es) + p.committed == q.committed + Edited(q.pending, Keys(t, es)).committed
    ensures p.pending == Edited(q.pending, Keys(t, es)).pending
    decreases |es|
  {
    hide Carries, Insert, Read, Edited, Take, Type, Proper;
    ShapeOf(t, q);
    if es == [] {
      p := q;
      RunEnd(t, q);
    } else {
      var u, rest := Step(t, es[0]).0, es[1..];
      match es[0]
      case Key(c) =>
        InsertRefines(t, q, c);
        p := RunEdits(u, if t.isFull then q else Type(q, c), rest);
        assert Output(t, es) == Output(u, rest);
        if t.isFull { assert Keys(t, es) == Keys(u, rest); } else { TypeEdits(q, c, Keys(u, rest)); }
      case Ask(n) =>
        ReadRefines(t, q, n);
        var bs := Take(q.committed, n);
        p := RunEdits(u, Line(q.committed[|bs|..], q.pending), rest);
        assert Keys(t, es) == Keys(u, rest);
        var text := Edited(q.pending, Keys(u, rest)).committed;
        Join(bs, Output(u, rest), p.committed, q.committed, text);
    }
  }

  lemma Join(front: seq<Byte>, out: seq<Byte>, left: seq<Byte>, all: seq<Byte>, text: seq<Byte>)
    requires front <= all && out + left == all[|front|..] + text
    ensures front + out + left == all + text
  {
    assert front + out + left == front + (out + left);
    assert all == front + all[|front|..];
  }

  lemma RunEnd(t: Ring, q: Line)
    requires t.Shape()
    ensures Output(t, []) + q.committed == q.committed + Edited(q.pending, Keys(t, [])).committed
    ensures q.pending == Edited(q.pending, Keys(t, [])).pending
  {
    assert [] + q.committed == q.committed + [];
  }

  lemma TypeEdits(q: Line, c: Byte, rest: seq<Byte>)
    ensures var v := Type(q, c);
      && q.committed + Edited(q.pending, [c] + rest).committed == v.committed + Edited(v.pending, rest).committed
      && Edited(q.pending, [c] + rest).pending == Edited(v.pending, rest).pending
  {
    assert ([c] + rest)[1..] == rest;
    if c != BACKSPACE && NewLine(c) == LF {
      var text := Edited([], rest).committed;
      assert q.committed + (q.pending + [LF] + text) == (q.committed + q.pending + [LF]) + text;
    }
  }

  /** The same from an empty terminal. */
  lemma TerminalEdits(buffer: seq<Byte>, es: seq<Event>) returns (p: Line)
    requires |buffer| == SIZE && AllProper(Ring(buffer, 0, 0, 0, true, false), es)
    ensures var t := Ring(buffer, 0, 0, 0, true, false);
      && Rings(Run(t, es), p)
      && Output(t, es) + p.committed == Edited([], Keys(t, es)).committed
      && p.pending == Edited([], Keys(t, es)).pending
  {
    p := RunEdits(Ring(buffer, 0, 0, 0, true, false), Line([], []), es);
    assert [] + Edited([], Keys(Ring(buffer, 0, 0, 0, true, false), es)).committed ==
      Edited([], Keys(Ring(buffer, 0, 0, 0, true, false), es)).committed;
  }

  /** The unread bytes stay below the buffer size. */
  predicate NeverFull(t: Ring, es: seq<Event>)
    requires t.Shape()
    decreases |es|
  {
    !t.isFull && (es != [] ==> NeverFull(Step(t, es[0]).0, es[1..]))
  }

  function Pressed(es: seq<Event>): seq<Byte> {
    if es == [] then [] else (if es[0].Key? then [es[0].c] else []) + Pressed(es[1..])
  }

  /** Then every read is proper and every key is taken, so the text read is the edited text of all keys pressed. */
  lemma {:induction false} NeverFullIsProper(t: Ring, es: seq<Event>)
    requires t.Shape() && NeverFull(t, es)
    ensures AllProper(t, es) && Keys(t, es) == Pressed(es)
    decreases |es|
  {
    hide Insert, Read;
    if es != [] { NeverFullIsProper(Step(t, es[0]).0, es[1..]); }
  }

  /** A stuck terminal takes no key and delivers no byte, whatever happens. */
  lemma {:induction false} StuckForever(t: Ring, es: seq<Event>)
    requires Stuck(t)
    ensures Run(t, es) == t && Output(t, es) == [] && Keys(t, es) == []
    decreases |es|
  {
    if es != [] { StuckForever(t, es[1..]); }
  }

  /** Whatever keys and reads come, the ring holds a line or is stuck. */
  lemma {:induction false} LineOrStuck(t: Ring, q: Line, es: seq<Event>) returns (p: Line)
    requires t.Shape() && (Rings(t, q) || Stuck(t))
    ensures Rings(Run(t, es), p) || Stuck(Run(t, es))
    decreases |es|
  {
    hide Carries, Insert, Read, Take, Type, Proper;
    p := q;
    if Stuck(t) {
      StuckForever(t, es);
    } else if es != [] {
      var u := Step(t, es[0]).0;
      match es[0]
      case Key(c) =>
        InsertRefines(t, q, c);
        p := LineOrStuck(u, if t.isFull then q else Type(q, c), es[1..]);
      case Ask(n) =>
        ProperIsExact(t, q, n);
        if Proper(t, n) {
          ReadRefines(t, q, n);
          p := LineOrStuck(u, Line(q.committed[|Take(q.committed, n)|..], q.pending), es[1..]);
        } else {
          p := LineOrStuck(u, q, es[1..]);
        }
    }
  }

  lemma {:induction false} RunConcat(t: Ring, es: seq<Event>, fs: seq<Event>)
    requires t.Shape()
    ensures Run(t, es).Shape()
    ensures Run(t, es + fs) == Run(Run(t, es), fs) && Output(t, es + fs) == Output(t, es) + Output(Run(t, es), fs)
    decreases |es|
  {
    hide Insert, Read;
    if es == [] {
      assert [] + fs == fs;
      assert [] + Output(t, fs) == Output(t, fs);
    } else {
      assert (es + fs)[1..] == es[1..] + fs;
      var u := Step(t, es[0]).0;
      RunConcat(u, es[1..], fs);
      assert Step(t, es[0]).1 + (Output(u, es[1..]) + Output(Run(u, es[1..]), fs)) ==
        Step(t, es[0]).1 + Output(u, es[1..]) + Output(Run(u, es[1..]), fs);
    }
  }

  function Presses(c: Byte, k: nat): seq<Event> { seq<Event>(k, _ => Key(c)) }

  /** A line that goes on and on fills the ring. */
  lemma {:induction false} TypedOn(t: Ring, q: Line, c: Byte, k: nat)
    requires Rings(t, q) && c != BACKSPACE && NewLine(c) != LF && |q.Unread()| + k <= SIZE
    ensures Output(t, Presses(c, k)) == [] && Run(t, Presses(c, k)).Shape()
    ensures Rings(Run(t, Presses(c, k)), Line(q.committed, q.pending + seq<Byte>(k, _ => c)))
    decreases k
  {
    hide Carries, Insert, Type;
    ShapeOf(t, q);
    if k == 0 {
      assert q.pending + seq<Byte>(0, _ => c) == q.pending;
    } else {
      RoomLeft(t, q);
      InsertRefines(t, q, c);
      var u, p := Step(t, Key(c)).0, Line(q.committed, q.pending + [c]);
      assert Type(q, c) == p by { TypePlain(q, c); }
      assert Presses(c, k)[1..] == Presses(c, k - 1);
      TypedOn(u, p, c, k - 1);
      assert q.pending + seq<Byte>(k, _ => c) == p.pending + seq<Byte>(k - 1, _ => c);
    }
  }

  lemma RoomLeft(t: Ring, q: Line)
    requires Rings(t, q) && |q.Unread()| < SIZE
    ensures !t.isFull
  {
  }

  lemma TypePlain(q: Line, c: Byte)
    requires c != BACKSPACE && NewLine(c) != LF
    ensures Type(q, c) == Line(q.committed, q.pending + [c])
  {
  }

  /** A line as long as the buffer locks the terminal: once such a key has been pressed 1024 times, the first read, of
      whatever length, delivers nothing and leaves the terminal stuck for good. */
  lemma LongLineSticks(buffer: seq<Byte>, c: Byte, n: nat, es: seq<Event>)
    requires |buffer| == SIZE && c != BACKSPACE && NewLine(c) != LF
    ensures var t := Ring(buffer, 0, 0, 0, true, false);
      && !Proper(Run(t, Presses(c, SIZE)), n)
      && Stuck(Run(t, Presses(c, SIZE) + ([Ask(n)] + es))) && Output(t, Presses(c, SIZE) + ([Ask(n)] + es)) == []
  {
    var t := Ring(buffer, 0, 0, 0, true, false);
    TypedOn(t, Line([], []), c, SIZE);
    var u, q := Run(t, Presses(c, SIZE)), Line([], [] + seq<Byte>(SIZE, _ => c));
    hide Insert, Read, Run, Output, Presses;
    CursorsMeet(u, q);
    ProperIsExact(u, q, n);
    RunConcat(t, Presses(c, SIZE), [Ask(n)] + es);
    StuckForever(ReadStep(u, n), es);
    AskFirst(u, n, es);
  }

  lemma AskFirst(t: Ring, n: nat, es: seq<Event>)
    requires t.Shape()
    ensures Run(t, [Ask(n)] + es) == Run(ReadStep(t, n), es)
    ensures Output(t, [Ask(n)] + es) == Read(t, n).1 + Output(ReadStep(t, n), es)
  {
    assert ([Ask(n)] + es)[1..] == es;
  }

  /** No read delivers anything behind a newline. */
  lemma {:induction false} OneLine(t: Ring, n: nat, i: nat, k: nat)
    requires t.Shape() && i <= n && k < |ReadLoop(t, n, i).1| - 1
    ensures ReadLoop(t, n, i).1[k] != LF
    decreases n - i
  {
    var u := t.(isFull := false, r := (t.r + 1) % SIZE);
    if t.buffer[t.r] != LF && k > 0 { OneLine(u, n, i + 1, k - 1); }
  }

  /** `spec` is what the loop has delivered, `done`, and what it is still going to do. */
  ghost predicate Resumed(spec: (Ring, seq<Byte>), done: seq<Byte>, t: Ring, n: nat, i: nat)
    requires t.Shape() && i <= n
  {
    spec == (ReadLoop(t, n, i).0, done + ReadLoop(t, n, i).1)
  }

  lemma ResumeStart(t: Ring, n: nat)
    requires t.Shape()
    ensures Resumed(ReadLoop(t, n, 0), [], t, n, 0)
  {
    assert [] + ReadLoop(t, n, 0).1 == ReadLoop(t, n, 0).1;
  }

  lemma ResumeStep(spec: (Ring, seq<Byte>), done: seq<Byte>, t: Ring, n: nat, i: nat)
    requires t.Shape() && i < n && Resumed(spec, done, t, n, i) && !t.isEmpty && t.r != t.w
    ensures var b, u := t.buffer[t.r], t.(isFull := false, r := (t.r + 1) % SIZE);
      if b == LF then spec == (u, done + [b]) else Resumed(spec, done + [b], u, n, i + 1)
  {
    var b, u := t.buffer[t.r], t.(isFull := false, r := (t.r + 1) % SIZE);
    assert done + ([b] + ReadLoop(u, n, i + 1).1) == done + [b] + ReadLoop(u, n, i + 1).1;
  }

  lemma ResumeEnd(spec: (Ring, seq<Byte>), done: seq<Byte>, t: Ring, n: nat, i: nat)
    requires t.Shape() && i <= n && Resumed(spec, done, t, n, i) && !(i < n && !t.isEmpty && t.r != t.w)
    ensures spec == (t, done)
  {
    assert done + [] == done;
  }

  // ---- tty.c ----

  class Terminal {
    const buffer: array<Byte>
    var r: nat
    var w: nat
    var insert: nat
    var isEmpty: bool
    var isFull: bool

    ghost function Now(): Ring
      reads this, buffer
    {
      Ring(buffer[..], r, w, insert, isEmpty, isFull)
    }

    constructor ()
      ensures Now() == Ring(Now().buffer, 0, 0, 0, true, false) && Now().Shape() && fresh(buffer)
    {
      buffer := new Byte[SIZE](_ => 0);
      r, w, insert, isEmpty, isFull := 0, 0, 0, true, false;
    }

    /** TtyBufferInsert without the echo. */
    method TtyBufferInsert(key: Byte) returns (ok: bool)
      requires Now().Shape()
      modifies this, buffer
      ensures (Now(), ok) == Insert(old(Now()), key)
    {
      if isFull { return false; }
      var c := key;
      if c == CR { c := LF; }
      if c == BACKSPACE {
        var prev := (insert + SIZE - 1) % SIZE;
        if !isEmpty && buffer[prev] != LF {
          insert := prev;
          if insert == r { isEmpty := true; }
        }
        return true;
      }
      buffer[insert] := c;
      insert := insert + 1;
      insert := insert % SIZE;
      isEmpty := false;
      if c == LF { w := insert; }
      if insert == r { isFull := true; }
      return true;
    }

    /** TtyRead. */
    method TtyRead(dest: array<Byte>, n: nat) returns (i: nat)
      requires Now().Shape() && n <= dest.Length && dest != buffer
      modifies this, dest
      ensures i <= n && (Now(), dest[..i]) == Read(old(Now()), n)
      ensures dest[i..] == old(dest[i..])
    {
      hide ReadLoop, Resumed;
      i := 0;
      if isEmpty { return; }
      ghost var spec, ended := ReadLoop(Now(), n, 0), false;
      ResumeStart(Now(), n);
      assert dest[..0] == [];
      while i < n && !isEmpty && r != w
        invariant i <= n && Now().Shape() && !isEmpty && forall k :: i <= k < dest.Length ==> dest[k] == old(dest[k])
        invariant buffer[..] == old(buffer[..]) && w == old(w) && insert == old(insert)
        invariant !ended && Resumed(spec, dest[..i], Now(), n, i)
      {
        ghost var t, before := Now(), dest[..i];
        ResumeStep(spec, before, t, n, i);
        isFull := false;
        dest[i] := buffer[r];
        i := i + 1;
        r := r + 1;
        r := r % SIZE;
        assert dest[..i] == before + [t.buffer[t.r]];
        assert Now() == t.(isFull := false, r := (t.r + 1) % SIZE);
        if dest[i - 1] == LF {
          ended := true;
          break;
        }
      }
      if !ended { ResumeEnd(spec, dest[..i], Now(), n, i); }
      if r == insert { isEmpty := true; }
    }
  }
}
