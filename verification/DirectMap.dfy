/** The window through which the kernel reaches physical frames: frame `f` at `hhdm + f * PAGE`. Every
    table and page is written there, so the page tables must keep showing it. */
module DirectMap {
  import opened Pte
  import opened PageTables
  import opened Vmm
  import opened Elf
  import Pmm

  /** Frame `f` holds a byte of this entry of the memory map. */
  predicate Spans(e: Pmm.Entry, f: nat) {
    e.base / PAGE <= f < (e.base + e.length + PAGE - 1) / PAGE
  }

  predicate InMap(memmap: seq<Pmm.Entry>, f: nat) {
    exists i :: 0 <= i < |memmap| && Spans(memmap[i], f)
  }

  /** The place of frame `f` lies in the kernel half of the 48-bit address space. */
  predicate High(hhdm: nat, f: nat) {
    hhdm % PAGE == 0 && SPAN / 2 <= hhdm % SPAN && hhdm % SPAN + (f + 1) * PAGE <= SPAN
  }

  /** The direct map of the whole memory map fits into the kernel half. */
  ghost predicate HighWindow(hhdm: nat, memmap: seq<Pmm.Entry>) {
    hhdm % PAGE == 0 && forall f: nat | InMap(memmap, f) :: High(hhdm, f)
  }

  // ---- Addresses of the window -----------------------------------------------------------

  lemma Residue(hhdm: nat, f: nat)
    requires High(hhdm, f)
    ensures (hhdm + f * PAGE) % SPAN == hhdm % SPAN + f * PAGE
    ensures f < 0x8_0000_0000 && f < MAX_FRAME
  {
    var q, r := hhdm / SPAN, hhdm % SPAN;
    assert hhdm + f * PAGE == SPAN * q + (r + f * PAGE);
  }

  lemma UpperResidue(v: nat)
    requires v % SPAN >= SPAN / 2
    ensures !LowerHalf(v)
  {
    var q, r := v / SPAN, v % SPAN;
    assert v == SPAN * q + r;
    assert v / 0x80_0000_0000 == 512 * q + r / 0x80_0000_0000;
  }

  lemma HighIsUpper(hhdm: nat, f: nat)
    requires High(hhdm, f)
    ensures !LowerHalf(hhdm + f * PAGE)
  {
    hide LowerHalf;
    Residue(hhdm, f);
    UpperResidue(hhdm + f * PAGE);
  }

  lemma PageOfResidue(v: nat)
    ensures Page(v) == v % SPAN / PAGE
  {
    var q, r := v / SPAN, v % SPAN;
    assert v == SPAN * q + r;
    assert v / 0x1000 == 0x10_0000_0000 * q + r / 0x1000;
  }

  /** Different frames have different places. */
  lemma PlacesDiffer(hhdm: nat, f: nat, g: nat)
    requires High(hhdm, f) && High(hhdm, g) && f != g
    ensures Page(hhdm + f * PAGE) != Page(hhdm + g * PAGE)
  {
    hide Page;
    Residue(hhdm, f);
    Residue(hhdm, g);
    PageOfResidue(hhdm + f * PAGE);
    PageOfResidue(hhdm + g * PAGE);
    PlusPages(hhdm % SPAN, f);
    PlusPages(hhdm % SPAN, g);
  }

  lemma PlusPages(r: nat, f: nat)
    ensures (r + f * PAGE) / PAGE == r / PAGE + f
  {
  }

  // ---- Setting it up ---------------------------------------------------------------------

  /** Mapping the place of one frame keeps the places of the others. */
  lemma PlaceKept(own: Owners, mem: Memory, mem': Memory, root: nat, hhdm: nat, f: nat, g: nat)
    requires OnlyPage(own, mem, mem', root, hhdm + f * PAGE, Entry(f, Flags(true, true, false, false)))
    requires High(hhdm, f) && High(hhdm, g) && (g == f || DirectMapped(mem, root, hhdm, g))
    ensures DirectMapped(mem', root, hhdm, g)
  {
    hide Leaf, Page, Shares, High, LowerHalf;
    SharesSelf(mem, root, hhdm + f * PAGE);
    if g != f {
      PlacesDiffer(hhdm, f, g);
    }
  }

  /** Every frame below `f` of entry `i`, and every frame of the entries before it, is in place. */
  ghost predicate PlacedUpTo(mem: Memory, root: nat, hhdm: nat, memmap: seq<Pmm.Entry>, i: nat, f: nat) {
    forall g: nat | InPart(memmap, i, f, g) :: DirectMapped(mem, root, hhdm, g)
  }

  ghost predicate InPart(memmap: seq<Pmm.Entry>, i: nat, f: nat, g: nat) {
    exists k :: 0 <= k <= i && k < |memmap| && Spans(memmap[k], g) && (k == i ==> g < f)
  }

  /** What setting up the window leaves of the rest. */
  twostate predicate Extended(m: Machine)
    reads m, m.pmm, m.pmm.bitmap
  {
    && old(m.Valid()) && m.Valid() && Private(m.mem, m.own) && Extends(old(m.own), m.own)
    && (forall t | t in m.own && t !in old(m.own) :: m.own[t].Table? && t in old(m.pmm.Free()))
    && m.pmm.Free() <= old(m.pmm.Free())
  }

  /** The second step of `vmm_init`: every page of every entry at its place; false when the frames for
      tables run out, where the source halts. */
  method MapWindow(m: Machine, memmap: seq<Pmm.Entry>) returns (ok: bool)
    requires m.Valid() && Private(m.mem, m.own) && m.current != 0 && HighWindow(m.hhdm, memmap)
    modifies m`mem, m`own, m.pmm`freeMemory, m.pmm.bitmap
    ensures Extended(m)
    ensures !ok ==> m.pmm.Free() == {}
    ensures ok ==> forall f: nat | InMap(memmap, f) :: DirectMapped(m.mem, m.current, m.hhdm, f)
  {
    hide WellFormed, Private, DirectMapped, Leaf, High, Spans, OnlyPage, SameShares, StillOpen, LowerHalf, PlacedUpTo, Pmm.Allocator.Free, Pmm.Allocator.Valid;
    NothingPlaced(m.mem, m.current, m.hhdm, memmap);
    for i := 0 to |memmap|
      invariant Extended(m) && PlacedUpTo(m.mem, m.current, m.hhdm, memmap, i, 0)
    {
      var e := memmap[i];
      var f := e.base / PAGE;
      var end := (e.base + e.length + PAGE - 1) / PAGE;
      NothingOfEntry(m.mem, m.current, m.hhdm, memmap, i);
      while f < end
        invariant f >= e.base / PAGE && Extended(m) && PlacedUpTo(m.mem, m.current, m.hhdm, memmap, i, f)
        decreases end - f
      {
        FrameSpanned(memmap, i, f);
        HighIsUpper(m.hhdm, f);
        Residue(m.hhdm, f);
        FrameOfAddress(f);
        ghost var own0, mem0 := m.own, m.mem;
        var o := m.MapPage(m.hhdm + f * PAGE, f * PAGE, Flags(true, true, false, false));
        if o.Halted? {
          return false;
        }
        OneMore(own0, mem0, m.mem, m.current, m.hhdm, memmap, i, f);
        f := f + 1;
      }
      EntryDone(m.mem, m.current, m.hhdm, memmap, i, f);
    }
    AllPlaced(m.mem, m.current, m.hhdm, memmap);
    return true;
  }

  lemma NothingPlaced(mem: Memory, root: nat, hhdm: nat, memmap: seq<Pmm.Entry>)
    ensures PlacedUpTo(mem, root, hhdm, memmap, 0, 0)
  {
    hide DirectMapped, Spans;
  }

  lemma NothingOfEntry(mem: Memory, root: nat, hhdm: nat, memmap: seq<Pmm.Entry>, i: nat)
    requires i < |memmap| && PlacedUpTo(mem, root, hhdm, memmap, i, 0)
    ensures PlacedUpTo(mem, root, hhdm, memmap, i, memmap[i].base / PAGE)
  {
    hide DirectMapped;
    forall g: nat | InPart(memmap, i, memmap[i].base / PAGE, g) ensures DirectMapped(mem, root, hhdm, g) {
      assert InPart(memmap, i, 0, g);
    }
  }

  lemma FrameSpanned(memmap: seq<Pmm.Entry>, i: nat, f: nat)
    requires i < |memmap| && memmap[i].base / PAGE <= f < (memmap[i].base + memmap[i].length + PAGE - 1) / PAGE
    ensures Spans(memmap[i], f) && InMap(memmap, f)
  {
  }

  lemma OneMore(own: Owners, mem: Memory, mem': Memory, root: nat, hhdm: nat, memmap: seq<Pmm.Entry>, i: nat, f: nat)
    requires OnlyPage(own, mem, mem', root, hhdm + f * PAGE, Entry(f, Flags(true, true, false, false)))
    requires i < |memmap| && Spans(memmap[i], f) && HighWindow(hhdm, memmap) && PlacedUpTo(mem, root, hhdm, memmap, i, f)
    ensures PlacedUpTo(mem', root, hhdm, memmap, i, f + 1)
  {
    hide DirectMapped, Spans, High, OnlyPage;
    assert InMap(memmap, f);
    forall g: nat | InPart(memmap, i, f + 1, g) ensures DirectMapped(mem', root, hhdm, g) {
      assert InMap(memmap, g);
      if g != f {
        assert InPart(memmap, i, f, g);
      }
      PlaceKept(own, mem, mem', root, hhdm, f, g);
    }
  }

  lemma EntryDone(mem: Memory, root: nat, hhdm: nat, memmap: seq<Pmm.Entry>, i: nat, f: nat)
    requires i < |memmap| && f >= (memmap[i].base + memmap[i].length + PAGE - 1) / PAGE
    requires PlacedUpTo(mem, root, hhdm, memmap, i, f)
    ensures PlacedUpTo(mem, root, hhdm, memmap, i + 1, 0)
  {
    hide DirectMapped;
    forall g: nat | InPart(memmap, i + 1, 0, g) ensures DirectMapped(mem, root, hhdm, g) {
      assert InPart(memmap, i, f, g);
    }
  }

  lemma AllPlaced(mem: Memory, root: nat, hhdm: nat, memmap: seq<Pmm.Entry>)
    requires PlacedUpTo(mem, root, hhdm, memmap, |memmap|, 0)
    ensures forall f: nat | InMap(memmap, f) :: DirectMapped(mem, root, hhdm, f)
  {
    hide DirectMapped, Spans;
    forall f: nat | InMap(memmap, f) ensures DirectMapped(mem, root, hhdm, f) {
      assert InPart(memmap, |memmap|, 0, f);
    }
  }

  // ---- Keeping it ------------------------------------------------------------------------

  /** Every root shows the window, and every frame the kernel works with has its place there. */
  ghost predicate Shown(mem: Memory, own: Owners, free: set<nat>, hhdm: nat, memmap: seq<Pmm.Entry>) {
    && HighWindow(hhdm, memmap)
    && (forall f | f in own || f in free :: InMap(memmap, f))
    && (forall r, f: nat | r in own && own[r].Root? && InMap(memmap, f) :: DirectMapped(mem, r, hhdm, f))
  }

  /** The pages the kernel itself lives by: the window, and its own text and data in `[lo, hi)`. */
  ghost predicate Reserved(hhdm: nat, memmap: seq<Pmm.Entry>, lo: nat, hi: nat, w: nat) {
    (exists f: nat :: InMap(memmap, f) && Page(hhdm + f * PAGE) == Page(w)) || Touched(lo, hi, w)
  }

  /** No segment page is one of them. */
  ghost predicate Clear(phdrs: seq<Phdr>, hhdm: nat, memmap: seq<Pmm.Entry>, lo: nat, hi: nat) {
    forall w: nat | TouchedBy(phdrs, |phdrs|, w) :: !Reserved(hhdm, memmap, lo, hi, w)
  }

  /** The translations of the reserved pages are the same in both memories. */
  ghost predicate ReservedKept(own: Owners, mem: Memory, mem': Memory, hhdm: nat, memmap: seq<Pmm.Entry>, lo: nat, hi: nat) {
    forall r, w: nat | r in own && own[r].Root? && Reserved(hhdm, memmap, lo, hi, w) :: Leaf(mem', r, w) == Leaf(mem, r, w)
  }

  lemma ClearLoadKeepsReserved(own: Owners, mem: Memory, mem': Memory, phdrs: seq<Phdr>, hhdm: nat, memmap: seq<Pmm.Entry>, lo: nat, hi: nat)
    requires UntouchedSame(own, mem, mem', phdrs) && Clear(phdrs, hhdm, memmap, lo, hi)
    ensures ReservedKept(own, mem, mem', hhdm, memmap, lo, hi)
  {
    hide Leaf, TouchedBy, Reserved;
  }

  lemma PlaceIsReserved(hhdm: nat, memmap: seq<Pmm.Entry>, lo: nat, hi: nat, f: nat)
    requires InMap(memmap, f)
    ensures Reserved(hhdm, memmap, lo, hi, hhdm + f * PAGE)
  {
    hide Page, InMap, Touched;
  }

  /** A step that keeps the reserved pages and adds no root keeps the window. */
  lemma ShownKept(own: Owners, free: set<nat>, mem: Memory, own': Owners, free': set<nat>, mem': Memory,
                  hhdm: nat, memmap: seq<Pmm.Entry>, lo: nat, hi: nat)
    requires Shown(mem, own, free, hhdm, memmap) && Extends(own, own') && free' <= free
    requires forall t | t in own' && t !in own :: !own'[t].Root? && t in free
    requires ReservedKept(own, mem, mem', hhdm, memmap, lo, hi)
    ensures Shown(mem', own', free', hhdm, memmap)
  {
    hide Leaf, InMap, HighWindow, Reserved;
    forall r, f: nat | r in own' && own'[r].Root? && InMap(memmap, f) ensures DirectMapped(mem', r, hhdm, f) {
      PlaceIsReserved(hhdm, memmap, lo, hi, f);
      assert DirectMapped(mem, r, hhdm, f);
    }
  }

  lemma ShownSame(own: Owners, free: set<nat>, mem: Memory, mem': Memory, hhdm: nat, memmap: seq<Pmm.Entry>)
    requires SameLeaves(own, mem, mem')
    ensures Shown(mem, own, free, hhdm, memmap) ==> Shown(mem', own, free, hhdm, memmap)
  {
    hide Leaf, InMap, HighWindow;
    if Shown(mem, own, free, hhdm, memmap) {
      forall r, f: nat | r in own && own[r].Root? && InMap(memmap, f) ensures DirectMapped(mem', r, hhdm, f) {
        assert DirectMapped(mem, r, hhdm, f);
      }
    }
  }

  /** So does a new root that shows the kernel half of an old one. */
  lemma ShownGrows(own: Owners, free: set<nat>, mem: Memory, own': Owners, free': set<nat>, mem': Memory,
                   hhdm: nat, memmap: seq<Pmm.Entry>, kernel: nat, root: nat)
    requires Shown(mem, own, free, hhdm, memmap) && Extends(own, own') && free' <= free
    requires forall t | t in own' && t !in own :: t in free && (own'[t].Root? ==> t == root)
    requires SameLeaves(own, mem, mem') && kernel in own && own[kernel].Root?
    requires root in own' ==> forall v: nat | !LowerHalf(v) :: Leaf(mem', root, v) == Leaf(mem, kernel, v)
    ensures Shown(mem', own', free', hhdm, memmap)
  {
    hide Leaf, InMap, High, LowerHalf;
    forall r, f: nat | r in own' && own'[r].Root? && InMap(memmap, f) ensures DirectMapped(mem', r, hhdm, f) {
      HighIsUpper(hhdm, f);
      assert DirectMapped(mem, kernel, hhdm, f);
      if r in own {
        assert DirectMapped(mem, r, hhdm, f);
      }
    }
  }
}
