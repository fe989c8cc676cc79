/** The 64-bit page-table entry: what the kernel's masks and ORs do to its fields. */
module Pte {

  const PRESENT: bv64 := 0x1
  const WRITABLE: bv64 := 0x2
  const USER: bv64 := 0x4
  const LARGE: bv64 := 0x80
  const ADDR_MASK: bv64 := 0x000F_FFFF_FFFF_F000

  /** The bits of an entry that the kernel reads or sets. */
  datatype Flags = Flags(present: bool, writable: bool, user: bool, large: bool)

  datatype Entry = Entry(frame: nat, flags: Flags)

  function FlagsOf(w: bv64): Flags {
    Flags(w & PRESENT != 0, w & WRITABLE != 0, w & USER != 0, w & LARGE != 0)
  }

  function Bit0(w: bv64): nat { if w & 1 != 0 then 1 else 0 }

  function Half(w: bv64): bv64 { w >> 1 }

  /** The value of the low `k` bits. */
  function Low(w: bv64, k: nat): nat {
    if k == 0 then 0 else Bit0(w) + 2 * Low(Half(w), k - 1)
  }

  /** The value of an address word. */
  function AddressOf(w: bv64): nat {
    Low(w, 64)
  }

  function FrameOf(w: bv64): nat {
    Low((w & ADDR_MASK) >> 12, 40)
  }

  /** The fields of an entry word. */
  function Decode(w: bv64): Entry {
    Entry(FrameOf(w), FlagsOf(w))
  }

  /** The all-zero word. */
  const NONE: Entry := Entry(0, Flags(false, false, false, false))

  /** Flags given to a table that links to another table. */
  function LinkFlags(user: bool): Flags {
    Flags(true, true, user, false)
  }

  function OrUser(e: Entry, user: bool): Entry {
    e.(flags := e.flags.(user := e.flags.user || user))
  }

  lemma SameFrame(w: bv64, x: bv64)
    requires w & ADDR_MASK == x & ADDR_MASK
    ensures FrameOf(w) == FrameOf(x)
  {
  }

  lemma OutsideMask(phys: bv64, flags: bv64, bits: bv64)
    requires bits & ADDR_MASK == 0
    ensures ((phys & ADDR_MASK) | flags) & bits == flags & bits
  {
  }

  lemma MapBits(phys: bv64, flags: bv64)
    requires flags & ADDR_MASK == 0
    ensures ((phys & ADDR_MASK) | flags) & ADDR_MASK == phys & ADDR_MASK
    ensures FlagsOf((phys & ADDR_MASK) | flags) == FlagsOf(flags)
  {
    OutsideMask(phys, flags, PRESENT);
    OutsideMask(phys, flags, WRITABLE);
    OutsideMask(phys, flags, USER);
    OutsideMask(phys, flags, LARGE);
  }

  /** `(phys & MASK) | flags` keeps the frame of `phys` and takes its other bits from `flags`. */
  lemma MapWord(phys: bv64, flags: bv64)
    requires flags & ADDR_MASK == 0
    ensures Decode((phys & ADDR_MASK) | flags) == Entry(FrameOf(phys), FlagsOf(flags))
  {
    hide FrameOf, FlagsOf;
    MapBits(phys, flags);
    SameFrame((phys & ADDR_MASK) | flags, phys);
  }

  lemma LinkBits(table: bv64, flags: bv64)
    requires table & !ADDR_MASK == 0
    ensures (table | PRESENT | WRITABLE | (flags & USER)) & ADDR_MASK == table & ADDR_MASK
    ensures FlagsOf(table | PRESENT | WRITABLE | (flags & USER)) == LinkFlags(flags & USER != 0)
  {
  }

  /** `table | PRESENT | WRITABLE | (flags & USER)` links to a page-aligned table. */
  lemma LinkWord(table: bv64, flags: bv64)
    requires table & !ADDR_MASK == 0
    ensures Decode(table | PRESENT | WRITABLE | (flags & USER))
         == Entry(FrameOf(table), LinkFlags(flags & USER != 0))
  {
    hide FrameOf, FlagsOf, LinkFlags;
    LinkBits(table, flags);
    SameFrame(table | PRESENT | WRITABLE | (flags & USER), table);
  }

  lemma OrUserElsewhere(w: bv64, flags: bv64, bits: bv64)
    requires bits & USER == 0
    ensures (w | (flags & USER)) & bits == w & bits
  {
  }

  lemma OrUserHere(w: bv64, flags: bv64)
    ensures (w | (flags & USER)) & USER != 0 <==> w & USER != 0 || flags & USER != 0
  {
  }

  lemma OrUserBits(w: bv64, flags: bv64)
    ensures (w | (flags & USER)) & ADDR_MASK == w & ADDR_MASK
    ensures FlagsOf(w | (flags & USER)) == FlagsOf(w).(user := FlagsOf(w).user || flags & USER != 0)
  {
    OrUserElsewhere(w, flags, ADDR_MASK);
    OrUserElsewhere(w, flags, PRESENT);
    OrUserElsewhere(w, flags, WRITABLE);
    OrUserElsewhere(w, flags, LARGE);
    OrUserHere(w, flags);
  }

  /** `entry |= flags & USER` touches the user bit only. */
  lemma OrUserWord(w: bv64, flags: bv64)
    ensures Decode(w | (flags & USER)) == OrUser(Decode(w), flags & USER != 0)
  {
    hide FrameOf, FlagsOf;
    OrUserBits(w, flags);
    SameFrame(w | (flags & USER), w);
  }

  // ---- Frames and addresses as numbers ---------------------------------------------------

  function Pow2(k: nat): (p: nat)
    ensures p > 0
  {
    if k == 0 then 1 else 2 * Pow2(k - 1)
  }

  /** `w` shifted right by `k`. */
  function Shr(w: bv64, k: nat): bv64 {
    if k == 0 then w else Shr(Half(w), k - 1)
  }

  lemma {:induction false} LowBelow(w: bv64, k: nat)
    ensures Low(w, k) < Pow2(k)
    decreases k
  {
    hide Half;
    if k > 0 {
      LowBelow(Half(w), k - 1);
    }
  }

  lemma {:induction false} LowSplit(w: bv64, j: nat, k: nat)
    ensures Low(w, j + k) == Low(w, j) + Pow2(j) * Low(Shr(w, j), k)
    decreases j
  {
    hide Half, Bit0;
    if j > 0 {
      LowSplit(Half(w), j - 1, k);
      Twice(Pow2(j - 1), Low(Shr(w, j), k));
    }
  }

  lemma Twice(p: nat, x: nat)
    ensures 2 * (p * x) == (2 * p) * x
  {
  }

  /** The low `k` bits of `m` are all set. */
  predicate Ones(m: bv64, k: nat) {
    k == 0 || (m & 1 != 0 && Ones(Half(m), k - 1))
  }

  lemma MaskBit(x: bv64, m: bv64)
    ensures Half(x & m) == Half(x) & Half(m)
    ensures m & 1 != 0 ==> Bit0(x & m) == Bit0(x)
  {
  }

  lemma {:induction false} LowMasked(x: bv64, m: bv64, k: nat)
    requires Ones(m, k)
    ensures Low(x & m, k) == Low(x, k)
    decreases k
  {
    hide Half, Bit0;
    if k > 0 {
      MaskBit(x, m);
      LowMasked(Half(x), Half(m), k - 1);
    }
  }

  lemma FourOnes(m: bv64, k: nat)
    requires m & 0xF == 0xF && Ones(m >> 4, k)
    ensures Ones(m, k + 4)
  {
    var a, b, c := Half(m), Half(Half(m)), Half(Half(Half(m)));
    assert Half(c) == m >> 4 && a & 1 != 0 && b & 1 != 0 && c & 1 != 0;
    assert Ones(c, k + 1);
    assert Ones(b, k + 2);
    assert Ones(a, k + 3);
  }

  lemma FortyOnes()
    ensures Ones(0xFF_FFFF_FFFF, 40)
  {
    hide Ones;
    assert Ones(0, 0) by {
      NoOnes(0);
    }
    FourOnes(0xF, 0);
    FourOnes(0xFF, 4);
    FourOnes(0xFFF, 8);
    FourOnes(0xFFFF, 12);
    FourOnes(0xF_FFFF, 16);
    FourOnes(0xFF_FFFF, 20);
    FourOnes(0xFFF_FFFF, 24);
    FourOnes(0xFFFF_FFFF, 28);
    FourOnes(0xF_FFFF_FFFF, 32);
    FourOnes(0xFF_FFFF_FFFF, 36);
  }

  lemma NoOnes(m: bv64)
    ensures Ones(m, 0)
  {
  }

  function Nibble(w: bv64): bv64 { w >> 4 }

  lemma ShrFour(w: bv64, k: nat)
    ensures Shr(w, k + 4) == Shr(Nibble(w), k)
  {
    var a, b, c := Half(w), Half(Half(w)), Half(Half(Half(w)));
    assert Half(c) == w >> 4;
    assert Shr(w, k + 4) == Shr(a, k + 3) == Shr(b, k + 2) == Shr(c, k + 1);
  }

  lemma ShrTwelve(w: bv64)
    ensures Shr(w, 12) == w >> 12
  {
    hide Shr, Nibble;
    ShrFour(w, 8);
    ShrFour(Nibble(w), 4);
    ShrFour(Nibble(Nibble(w)), 0);
    ShrNone(Nibble(Nibble(Nibble(w))));
    ThreeNibbles(w);
  }

  lemma ThreeNibbles(w: bv64)
    ensures Nibble(Nibble(Nibble(w))) == w >> 12
  {
  }

  lemma ShrNone(w: bv64)
    ensures Shr(w, 0) == w
  {
  }

  lemma MaskThenShift(w: bv64)
    ensures (w & ADDR_MASK) >> 12 == (w >> 12) & 0xFF_FFFF_FFFF
  {
  }

  lemma Powers()
    ensures Pow2(12) == 4096 && Pow2(40) == 0x100_0000_0000
  {
    hide Pow2;
    PowFour(0);
    PowFour(4);
    PowFour(8);
    PowFour(12);
    PowFour(16);
    PowFour(20);
    PowFour(24);
    PowFour(28);
    PowFour(32);
    PowFour(36);
  }

  lemma PowFour(k: nat)
    ensures Pow2(0) == 1 && Pow2(k + 4) == 16 * Pow2(k)
  {
    assert Pow2(k + 1) == 2 * Pow2(k);
    assert Pow2(k + 2) == 4 * Pow2(k);
    assert Pow2(k + 3) == 8 * Pow2(k);
  }

  /** The frame of a word is the page number of its address, modulo 2^40. */
  lemma FrameIsPage(w: bv64)
    ensures FrameOf(w) == AddressOf(w) / 4096 % 0x100_0000_0000
  {
    hide Low, Shr, Ones, Pow2;
    var x := w >> 12;
    MaskThenShift(w);
    FortyOnes();
    LowMasked(x, 0xFF_FFFF_FFFF, 40);
    ShrTwelve(w);
    LowSplit(w, 12, 52);
    LowBelow(w, 12);
    LowSplit(x, 40, 12);
    LowBelow(x, 40);
    Powers();
    PageNumber(Low(w, 12), Low(x, 40), Low(Shr(x, 40), 12));
  }

  lemma PageNumber(offset: nat, frame: nat, rest: nat)
    requires offset < 4096 && frame < 0x100_0000_0000
    ensures (offset + 4096 * (frame + 0x100_0000_0000 * rest)) / 4096 % 0x100_0000_0000 == frame
  {
  }

  /** The word `vmm_map_page` stores is the entry that the address and the flags stand for. */
  lemma MapWordIsEntry(phys: bv64, flags: bv64)
    requires flags & ADDR_MASK == 0
    ensures Decode((phys & ADDR_MASK) | flags) == Entry(AddressOf(phys) / 4096 % 0x100_0000_0000, FlagsOf(flags))
  {
    hide FrameOf, FlagsOf, AddressOf;
    MapWord(phys, flags);
    FrameIsPage(phys);
  }
}
