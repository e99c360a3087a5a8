/**
 The bit operations of kvmem.c on 32-bit words, and the arithmetic that the rest
 of this project uses in their place.
 */
module PteBits {
  import opened Sv32

  /** Bit `k` of a word has weight 2^k. */
  type Bits = b: seq<bool> | |b| == 32 witness seq(32, _ => false)

  function Pow2(n: nat): (p: nat)
    ensures p > 0
  {
    if n == 0 then 1 else 2 * Pow2(n - 1)
  }

  function Value(b: seq<bool>): nat {
    if b == [] then 0 else (if b[0] then 1 else 0) + 2 * Value(b[1..])
  }

  function Low(w: nat, n: nat): (b: seq<bool>)
    ensures |b| == n
  {
    if n == 0 then [] else [w % 2 == 1] + Low(w / 2, n - 1)
  }

  function BitsOf(w: Word): Bits { Low(w, 32) }

  function All(b: bool, n: nat): seq<bool> { seq(n, _ => b) }

  function And(a: Bits, b: Bits): Bits { seq(32, k requires 0 <= k < 32 => a[k] && b[k]) }

  function Or(a: Bits, b: Bits): Bits { seq(32, k requires 0 <= k < 32 => a[k] || b[k]) }

  function Shr(a: Bits, n: nat): Bits
    requires n <= 32
  {
    a[n..] + All(false, n)
  }

  function Shl(a: Bits, n: nat): Bits
    requires n <= 32
  {
    All(false, n) + a[..32 - n]
  }

  // ---- bits and values ----

  lemma {:induction false} LowValue(b: seq<bool>)
    ensures Low(Value(b), |b|) == b && Value(b) < Pow2(|b|)
  {
    if b != [] {
      LowValue(b[1..]);
      assert Value(b) / 2 == Value(b[1..]);
    }
  }

  lemma {:induction false} ValueLow(w: nat, n: nat)
    requires w < Pow2(n)
    ensures Value(Low(w, n)) == w
  {
    if n > 0 { ValueLow(w / 2, n - 1); }
  }

  /** `v` times 2^n. */
  function Scaled(v: nat, n: nat): nat { if n == 0 then v else 2 * Scaled(v, n - 1) }

  lemma {:induction false} ValueAppend(a: seq<bool>, b: seq<bool>)
    ensures Value(a + b) == Value(a) + Scaled(Value(b), |a|)
  {
    if a == [] {
      assert a + b == b;
    } else {
      assert (a + b)[1..] == a[1..] + b;
      ValueAppend(a[1..], b);
    }
  }

  lemma {:induction false} AllValue(n: nat)
    ensures Value(All(false, n)) == 0 && Value(All(true, n)) == Pow2(n) - 1
  {
    if n > 0 {
      AllValue(n - 1);
      assert All(false, n)[1..] == All(false, n - 1) && All(true, n)[1..] == All(true, n - 1);
    }
  }

  lemma {:induction false} ScaledSum(v: nat, m: nat, n: nat)
    ensures Scaled(v, m + n) == Scaled(Scaled(v, m), n)
  {
    if n > 0 { ScaledSum(v, m, n - 1); }
  }

  lemma ScaledTwo(v: nat)
    ensures Scaled(v, 0) == v && Scaled(v, 2) == 4 * v
  {
  }

  lemma ScaledTen(v: nat)
    ensures Scaled(v, 10) == 1024 * v
  {
    hide Scaled;
    ScaledTwo(v);
    ScaledTwo(4 * v);
    ScaledSum(v, 2, 2);
    ScaledTwo(16 * v);
    ScaledSum(v, 4, 2);
    ScaledTwo(64 * v);
    ScaledSum(v, 6, 2);
    ScaledTwo(256 * v);
    ScaledSum(v, 8, 2);
  }

  lemma Scales(v: nat)
    ensures Scaled(v, 0) == v && Scaled(v, 2) == 4 * v && Scaled(v, 10) == 1024 * v && Scaled(v, 12) == 4096 * v
    ensures Scaled(v, 20) == 0x10_0000 * v && Scaled(v, 22) == 0x40_0000 * v
  {
    hide Scaled;
    ScaledTwo(v);
    ScaledTen(v);
    ScaledTwo(1024 * v);
    ScaledSum(v, 10, 2);
    ScaledTen(1024 * v);
    ScaledSum(v, 10, 10);
    ScaledTwo(0x10_0000 * v);
    ScaledSum(v, 20, 2);
  }

  lemma {:induction false} PowerIsScale(n: nat)
    ensures Pow2(n) == Scaled(1, n)
  {
    if n > 0 { PowerIsScale(n - 1); }
  }

  lemma Powers()
    ensures Pow2(0) == 1 && Pow2(1) == 2 && Pow2(10) == 1024 && Pow2(12) == 4096 && Pow2(20) == 0x10_0000 &&
      Pow2(22) == 0x40_0000
    ensures Pow2(32) == 0x1_0000_0000
  {
    hide Pow2, Scaled;
    PowerIsScale(0);
    PowerIsScale(10);
    PowerIsScale(12);
    PowerIsScale(20);
    PowerIsScale(22);
    PowerIsScale(32);
    Scales(1);
    ScaledSum(1, 22, 10);
    Scales(0x40_0000);
    PowerOne();
  }

  lemma PowerOne()
    ensures Pow2(1) == 2
  {
  }

  lemma WordBits(w: Word)
    ensures Value(BitsOf(w)) == w
  {
    hide Pow2, Value, Low;
    Powers();
    ValueLow(w, 32);
  }

  /** The bits from `n` on and those below. */
  lemma SplitValue(b: seq<bool>, n: nat)
    requires n <= |b|
    ensures Value(b) == Value(b[..n]) + Scaled(Value(b[n..]), n)
    ensures Value(b[..n]) < Pow2(n) && Value(b[n..]) < Pow2(|b| - n)
  {
    assert b[..n] + b[n..] == b;
    ValueAppend(b[..n], b[n..]);
    LowValue(b[..n]);
    LowValue(b[n..]);
  }

  /** A mask of `ones` bits from `lo` on. */
  lemma MaskBits(lo: nat, ones: nat, w: Word)
    requires lo + ones <= 32 && w == Scaled(Pow2(ones) - 1, lo)
    ensures BitsOf(w) == All(false, lo) + All(true, ones) + All(false, 32 - lo - ones)
  {
    hide Pow2, Value, Low, Scaled;
    var high := All(true, ones) + All(false, 32 - lo - ones);
    var b := All(false, lo) + high;
    AllValue(lo);
    AllValue(ones);
    AllValue(32 - lo - ones);
    ValueAppend(All(true, ones), All(false, 32 - lo - ones));
    ScaledZero(ones);
    ValueAppend(All(false, lo), high);
    LowValue(b);
    assert b == All(false, lo) + All(true, ones) + All(false, 32 - lo - ones);
  }

  lemma {:induction false} ScaledZero(n: nat)
    ensures Scaled(0, n) == 0
  {
    if n > 0 { ScaledZero(n - 1); }
  }

  const PAGE_MASK: Word := 0xFFFF_F000
  const PPN_MASK: Word := 0xFFFF_FC00
  const FLAG_MASK: Word := 0x3FF
  const PTE_V: Word := 1

  lemma Masks()
    ensures BitsOf(PAGE_MASK) == All(false, 12) + All(true, 20) && BitsOf(PPN_MASK) == All(false, 10) + All(true, 22)
    ensures BitsOf(FLAG_MASK) == All(true, 10) + All(false, 22) && BitsOf(PTE_V) == All(true, 1) + All(false, 31)
    ensures BitsOf(0) == All(false, 32)
  {
    hide Pow2, Value, Low, Scaled, BitsOf;
    Powers();
    Scales(Pow2(20) - 1);
    Scales(Pow2(22) - 1);
    Scales(Pow2(10) - 1);
    Scales(Pow2(1) - 1);
    Scales(Pow2(0) - 1);
    MaskBits(12, 20, PAGE_MASK);
    MaskBits(10, 22, PPN_MASK);
    MaskBits(0, 10, FLAG_MASK);
    MaskBits(0, 1, PTE_V);
    MaskBits(0, 0, 0);
    assert All(false, 12) + All(true, 20) + All(false, 0) == All(false, 12) + All(true, 20);
    assert All(false, 10) + All(true, 22) + All(false, 0) == All(false, 10) + All(true, 22);
    assert All(false, 0) + All(true, 10) + All(false, 22) == All(true, 10) + All(false, 22);
    assert All(false, 0) + All(true, 1) + All(false, 31) == All(true, 1) + All(false, 31);
    assert All(false, 0) + All(true, 0) + All(false, 32) == All(false, 32);
  }

  /** A word and its fields: flags, page number, and the two bits above it. */
  lemma Fields(w: Word)
    ensures var b := BitsOf(w);
      && Value(b[..10]) == w % 1024 && Value(b[10..30]) == (w / 1024) % 0x10_0000
      && Value(b[12..]) == w / 4096 && Value(b[12..22]) == (w / 4096) % 1024 && Value(b[22..]) == w / 0x40_0000
  {
    hide Pow2, Value, Low, Scaled, BitsOf;
    var b := BitsOf(w);
    WordBits(w);
    Powers();
    SplitValue(b, 10);
    Scales(Value(b[10..]));
    SplitValue(b[10..], 20);
    Scales(Value(b[10..][20..]));
    assert b[10..][..20] == b[10..30];
    SplitValue(b, 12);
    Scales(Value(b[12..]));
    SplitValue(b[12..], 10);
    Scales(Value(b[12..][10..]));
    assert b[12..][..10] == b[12..22];
    SplitValue(b, 22);
    Scales(Value(b[22..]));
  }

  /** A small word has no high bits. */
  lemma SmallBits(w: Word)
    requires w < 1024
    ensures forall k :: 10 <= k < 32 ==> !BitsOf(w)[k]
  {
    hide Pow2, Value, Low, Scaled;
    Powers();
    var b := Low(w, 10) + All(false, 22);
    ValueLow(w, 10);
    AllValue(22);
    ValueAppend(Low(w, 10), All(false, 22));
    ScaledZero(10);
    LowValue(b);
    assert BitsOf(w) == b;
  }

  // ---- the expressions of kvmem.c ----

  /** `((pa & 0xFFFFF000) >> 2) | flags | PTE_V` */
  function EntryBits(pa: Word, flags: Word): Bits {
    Or(Or(Shr(And(BitsOf(pa), BitsOf(PAGE_MASK)), 2), BitsOf(flags)), BitsOf(PTE_V))
  }

  /** `(e & 0xFFFFFC00) << 2` */
  function AddressBits(e: Word): Bits { Shl(And(BitsOf(e), BitsOf(PPN_MASK)), 2) }

  /** `(e & 0x3FF) | ((np & 0xFFFFF000) >> 2)` */
  function RetargetBits(e: Word, np: Word): Bits {
    Or(And(BitsOf(e), BitsOf(FLAG_MASK)), Shr(And(BitsOf(np), BitsOf(PAGE_MASK)), 2))
  }

  /** Flags below a page number. */
  lemma EntryValue(low: seq<bool>, high: seq<bool>)
    requires |low| == 10 && |high| == 20
    ensures Value(low) < 1024 && Value(high) < 0x10_0000
    ensures Value(low + high + All(false, 2)) == Entry(Value(high), Value(low))
  {
    hide Pow2, Value, Scaled;
    Powers();
    LowValue(low);
    LowValue(high);
    AllValue(2);
    ValueAppend(high, All(false, 2));
    ScaledZero(20);
    ValueAppend(low, high + All(false, 2));
    Scales(Value(high));
    assert low + (high + All(false, 2)) == low + high + All(false, 2);
  }

  lemma EntryLayout(pa: Word, flags: Word)
    requires flags < 1024
    ensures EntryBits(pa, flags) == [true] + BitsOf(flags)[1..10] + BitsOf(pa)[12..] + All(false, 2)
  {
    hide BitsOf;
    Masks();
    SmallBits(flags);
  }

  /** The entry that the bit operations build is the page number above the flags. */
  lemma EncodeIs(pa: Word, flags: Word)
    requires flags < 1024
    ensures Value(EntryBits(pa, flags)) == Entry(pa / 4096, if flags % 2 == 1 then flags else flags + 1)
  {
    hide BitsOf, EntryBits, Value, All;
    EntryLayout(pa, flags);
    Fields(pa);
    Fields(flags);
    var old10, low := BitsOf(flags)[..10], [true] + BitsOf(flags)[1..10];
    EntryValue(low, BitsOf(pa)[12..]);
    assert low == [true] + old10[1..];
    SetFirst(old10, low);
    assert Value(old10) == flags;
  }

  lemma SetFirst(b: seq<bool>, c: seq<bool>)
    requires b != [] && c == [true] + b[1..]
    ensures Value(c) == if Value(b) % 2 == 1 then Value(b) else Value(b) + 1
  {
    assert c[1..] == b[1..];
  }

  lemma AddressLayout(e: Word)
    ensures AddressBits(e) == All(false, 12) + BitsOf(e)[10..30]
    ensures And(BitsOf(e), BitsOf(PTE_V)) == BitsOf(0) <==> !BitsOf(e)[0]
  {
    hide BitsOf;
    Masks();
    var a := And(BitsOf(e), BitsOf(PTE_V));
    if !BitsOf(e)[0] { assert a == All(false, 32); } else { assert a[0] && !All(false, 32)[0]; }
  }

  /** The address in an entry is that of its page, and the lowest bit says whether it is valid. */
  lemma DecodeIs(e: Word)
    ensures Value(AddressBits(e)) == 4096 * PageOf(e)
    ensures And(BitsOf(e), BitsOf(PTE_V)) != BitsOf(0) <==> Valid(e)
  {
    hide BitsOf, AddressBits, And, Scaled;
    AddressLayout(e);
    Fields(e);
    var b := BitsOf(e)[10..30];
    ValueAppend(All(false, 12), b);
    AllValue(12);
    Scales(Value(b));
    FirstBit(BitsOf(e)[..10]);
    hide Value;
  }

  lemma FirstBit(b: seq<bool>)
    requires b != []
    ensures b[0] <==> Value(b) % 2 == 1
  {
  }

  lemma RetargetLayout(e: Word, np: Word)
    ensures RetargetBits(e, np) == BitsOf(e)[..10] + BitsOf(np)[12..] + All(false, 2)
  {
    hide BitsOf;
    Masks();
  }

  /** fork's rewriting of an entry keeps the flags and replaces the page. */
  lemma RetargetIs(e: Word, np: Word)
    ensures Value(RetargetBits(e, np)) == Entry(np / 4096, FlagsOf(e))
  {
    hide BitsOf, RetargetBits, Value;
    RetargetLayout(e, np);
    Fields(e);
    Fields(np);
    EntryValue(BitsOf(e)[..10], BitsOf(np)[12..]);
  }

  lemma IndexLayout(va: Word)
    ensures And(Shr(BitsOf(va), 22), BitsOf(FLAG_MASK)) == BitsOf(va)[22..] + All(false, 22)
    ensures And(Shr(BitsOf(va), 12), BitsOf(FLAG_MASK)) == BitsOf(va)[12..22] + All(false, 22)
  {
    hide BitsOf;
    Masks();
  }

  /** `(va >> 22) & 0x3FF` and `(va >> 12) & 0x3FF` are the two table indices. */
  lemma IndicesAre(va: Word)
    ensures Value(And(Shr(BitsOf(va), 22), BitsOf(FLAG_MASK))) == va / 0x40_0000
    ensures Value(And(Shr(BitsOf(va), 12), BitsOf(FLAG_MASK))) == (va / 4096) % 1024
  {
    hide BitsOf, And, Value, Scaled;
    IndexLayout(va);
    Fields(va);
    AllValue(22);
    ScaledZero(10);
    ValueAppend(BitsOf(va)[22..], All(false, 22));
    ValueAppend(BitsOf(va)[12..22], All(false, 22));
  }
}
