/**
 Laying out argv on the stack page of a process that is about to start.
 */
module Arguments {
  import opened Sv32
  import opened Bytes
  import opened Pages

  const STACK_BASE: int := 0xFFFF_E000

  /** memcpy of `bs` to offset `at` of a page. */
  function WriteBytes(f: Frame, at: nat, bs: seq<Byte>): Frame
    requires at + |bs| <= 4096
    decreases |bs|
  {
    if bs == [] then f else WriteBytes(SetByte(f, at, bs[0]), at + 1, bs[1..])
  }

  /** The strings from `args[i]` on, each NUL-terminated, downwards from offset `at`; also the address of each. */
  function PushStrings(f: Frame, args: seq<seq<Byte>>, i: nat, at: nat): (r: Outcome<(Frame, nat, seq<Word>)>)
    requires at <= 4096
    ensures r.Go? && i <= |args| ==> r.value.1 <= at && |r.value.2| == |args| - i
    decreases |args| - i
  {
    if i >= |args| then Go((f, at, []))
    else if |args[i]| + 1 > at then Fault
    else
      var low := at - (|args[i]| + 1);
      var (g, end, ptrs) :- PushStrings(WriteBytes(f, low, args[i] + [0]), args, i + 1, low);
      Go((g, end, [STACK_BASE + low] + ptrs))
  }

  function WordBytes(ws: seq<Word>): (bs: seq<Byte>)
    ensures |bs| == 4 * |ws|
  {
    if ws == [] then [] else [Digit(ws[0], 0), Digit(ws[0], 1), Digit(ws[0], 2), Digit(ws[0], 3)] + WordBytes(ws[1..])
  }

  /** The strings and, below them, the array of pointers to them. A write below the page is a fault. */
  function PushArguments(f: Frame, args: seq<seq<Byte>>): (r: Outcome<(Frame, nat)>)
    ensures r.Go? ==> r.value.1 <= 4096 && |args| <= 1024
  {
    var (g, at, ptrs) :- PushStrings(f, args, 0, 4096);
    if 4 * |ptrs| > at then Fault
    else Go((WriteBytes(g, at - 4 * |ptrs|, WordBytes(ptrs)), at - 4 * |ptrs|))
  }
}
