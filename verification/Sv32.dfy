/**
 Sv32 page tables as the kernel builds them and as the hardware walks them.

 Physical memory is a sequence of page frames of 1024 words, indexed by frame
 number; frame `p` is the page at physical address `4096 * p`.
 */
module Sv32 {

  type Word = w: int | 0 <= w < 0x1_0000_0000
  type Frame = f: seq<Word> | |f| == 1024 witness seq(1024, _ => 0)
  type Memory = seq<Frame>

  /** The page that kmem_alloc hands out: all zero, so no entry of it is valid. */
  function Zero(): (f: Frame)
    ensures forall k :: 0 <= k < 1024 ==> f[k] == 0 && !Valid(f[k])
  {
    seq(1024, _ => 0)
  }

  datatype Option<+T> = None | Some(value: T)

  // Entry flags; every constant already contains PTE_V.
  const NEXT_LEVEL: nat := 1
  const RW: nat := 7
  const RWX: nat := 15
  const RWU: nat := 23
  const RWXU: nat := 31

  predicate Valid(e: Word) { FlagsOf(e) % 2 == 1 }
  predicate Readable(e: Word) { (FlagsOf(e) / 2) % 2 == 1 }
  predicate Writable(e: Word) { (FlagsOf(e) / 4) % 2 == 1 }
  predicate Executable(e: Word) { (FlagsOf(e) / 8) % 2 == 1 }
  predicate UserMode(e: Word) { (FlagsOf(e) / 16) % 2 == 1 }

  /** `(e & 0xFFFFFC00) << 2` in 32 bits, as a frame number. */
  function PageOf(e: Word): nat { (e / 1024) % 0x10_0000 }

  function FlagsOf(e: Word): Word { e % 1024 }

  /** `((pa & 0xFFFFF000) >> 2) | flags | PTE_V` for the page `p`. */
  function Entry(p: nat, flags: nat): (e: Word)
    requires p < 0x10_0000 && flags < 1024
    ensures PageOf(e) == p && FlagsOf(e) == flags
    ensures e < 0x4000_0000
  {
    p * 1024 + flags
  }

  /** An entry of at most 30 bits is put together from its page and its flags. */
  lemma EntryParts(e: Word)
    requires e < 0x4000_0000
    ensures PageOf(e) < 0x10_0000 && e == Entry(PageOf(e), FlagsOf(e))
  {
  }

  /** The kernel's own two-level lookup: the leaf entry, when both levels are valid. */
  function Leaf(m: Memory, root: nat, i: nat, j: nat): Option<Word>
    requires i < 1024 && j < 1024
  {
    if root >= |m| || !Valid(m[root][i]) || PageOf(m[root][i]) >= |m| then None
    else
      var e := m[PageOf(m[root][i])][j];
      if Valid(e) then Some(e) else None
  }

  /** The address translation of section 4.3.2 of the RISC-V Privileged Architecture, from the table at
      frame `root`: the frame and the flags of the page (i, j), or None for a page fault. */
  function Walk(m: Memory, root: nat, i: nat, j: nat): Option<(nat, Word)>
    requires i < 1024 && j < 1024
  {
    if root >= |m| then None
    else
      var e := m[root][i];
      if !Valid(e) || (!Readable(e) && Writable(e)) then None
      else if Readable(e) || Executable(e) then
        if (e / 1024) % 1024 != 0 then None else Some((e / 1024 + j, FlagsOf(e)))
      else if e / 1024 >= |m| then None
      else
        var f := m[e / 1024][j];
        if !Valid(f) || (!Readable(f) && Writable(f)) || !(Readable(f) || Executable(f)) then None
        else Some((f / 1024, FlagsOf(f)))
  }
}
