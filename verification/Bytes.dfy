/**
 Bytes of words and of page frames, little-endian.
 */
module Bytes {
  import opened Sv32

  type Byte = b: int | 0 <= b < 256

  function Get(bs: seq<Byte>, k: nat): Byte { if k < |bs| then bs[k] else 0 }

  function Digit(w: Word, r: nat): Byte {
    if r == 0 then w % 256
    else if r == 1 then (w / 0x100) % 256
    else if r == 2 then (w / 0x1_0000) % 256
    else w / 0x100_0000
  }

  function Pack4(a: Byte, b: Byte, c: Byte, d: Byte): (w: Word)
    ensures Digit(w, 0) == a && Digit(w, 1) == b && Digit(w, 2) == c && Digit(w, 3) == d
  {
    var w := a + 0x100 * b + 0x1_0000 * c + 0x100_0000 * d;
    assert w / 0x100 == b + 0x100 * c + 0x1_0000 * d;
    assert w / 0x1_0000 == c + 0x100 * d;
    w
  }

  function WithDigit(w: Word, r: nat, b: Byte): (v: Word)
    requires r < 4
    ensures forall q :: 0 <= q < 4 ==> Digit(v, q) == if q == r then b else Digit(w, q)
  {
    Pack4(if r == 0 then b else Digit(w, 0), if r == 1 then b else Digit(w, 1),
          if r == 2 then b else Digit(w, 2), if r == 3 then b else Digit(w, 3))
  }

  /** The byte at offset `k` of a page. */
  function ByteOf(f: Frame, k: nat): Byte
    requires k < 4096
  {
    Digit(f[k / 4], k % 4)
  }

  /** A byte stored in a page. */
  function SetByte(f: Frame, k: nat, b: Byte): (g: Frame)
    requires k < 4096
  {
    f[k / 4 := WithDigit(f[k / 4], k % 4, b)]
  }

  lemma SetByteOk(f: Frame, k: nat, b: Byte, l: nat)
    requires k < 4096 && l < 4096
    ensures ByteOf(SetByte(f, k, b), l) == if l == k then b else ByteOf(f, l)
  {
    hide Digit, WithDigit;
  }

  function PackWord(bs: seq<Byte>, i: nat): Word {
    Pack4(Get(bs, 4 * i), Get(bs, 4 * i + 1), Get(bs, 4 * i + 2), Get(bs, 4 * i + 3))
  }

  /** memcpy of `bs` to the start of a zeroed page. */
  function PackPage(bs: seq<Byte>): (f: Frame) {
    seq<Word>(1024, i requires 0 <= i < 1024 => PackWord(bs, i))
  }

  lemma PackPageByte(bs: seq<Byte>, k: nat)
    requires k < 4096
    ensures ByteOf(PackPage(bs), k) == Get(bs, k)
  {
    hide Digit;
    assert PackPage(bs)[k / 4] == PackWord(bs, k / 4);
    assert k == 4 * (k / 4) + k % 4;
  }

  function U16(bs: seq<Byte>, k: nat): nat { Get(bs, k) + 0x100 * Get(bs, k + 1) }

  function U32(bs: seq<Byte>, k: nat): Word { Pack4(Get(bs, k), Get(bs, k + 1), Get(bs, k + 2), Get(bs, k + 3)) }

  /** `n` bytes of `bs` from `start`. */
  function Chunk(bs: seq<Byte>, start: nat, n: nat): (c: seq<Byte>)
    ensures |c| == n && forall k :: 0 <= k < n ==> c[k] == Get(bs, start + k)
  {
    seq<Byte>(n, k requires 0 <= k < n => Get(bs, start + k))
  }
}
