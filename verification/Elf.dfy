/** Loading an ELF image into an address space, page by page. */
module Elf {
  import opened Pte
  import opened PageTables
  import opened Vmm
  import Pmm

  const PT_LOAD: nat := 1
  const MAGIC: nat := 0x464C_457F
  const HEADER_SIZE: nat := 64
  const PHDR_SIZE: nat := 56
  const WORD: nat := 0x1_0000_0000_0000_0000
  /** The page tables tell addresses apart modulo 2^48. */
  const SPAN: nat := 0x1_0000_0000_0000

  datatype Header = Header(magic: nat, class64: nat, machine: nat)

  /** The fields of a program header that the loader reads. */
  datatype Phdr = Phdr(ptype: nat, offset: nat, vaddr: nat, filesz: nat, memsz: nat) {
    function Start(): nat { vaddr / PAGE * PAGE }
    function End(): nat { (vaddr + memsz + PAGE - 1) / PAGE * PAGE }
    /** Nothing wraps around. */
    predicate Sane() {
      vaddr + memsz + PAGE - 1 < WORD && vaddr + filesz < WORD && offset + filesz < WORD
    }
  }

  datatype Result = Done(rc: int) | KernelHalted

  /** The byte that address `w` of the segment must show. */
  function Expected(ph: Phdr, data: seq<bv8>, w: nat): bv8
    requires ph.offset + ph.filesz <= |data|
  {
    if ph.vaddr <= w < ph.vaddr + ph.filesz then data[ph.offset + (w - ph.vaddr)] else 0
  }

  /** A load through the page tables of `root` at address `w` yields `b`. */
  ghost predicate Reads(mem: Memory, own: Owners, bytes: map<nat, seq<bv8>>, root: nat, w: nat, b: bv8) {
    var e := Leaf(mem, root, w);
    && e.flags.present && e.frame in own && e.frame in bytes
    && |bytes[e.frame]| == PAGE && bytes[e.frame][PageOffset(w)] == b
  }

  /** Every byte from the start of the segment's first page up to `upto` is in place. */
  ghost predicate LoadedUpTo(mem: Memory, own: Owners, bytes: map<nat, seq<bv8>>, root: nat,
                             ph: Phdr, data: seq<bv8>, upto: nat)
    requires ph.offset + ph.filesz <= |data|
  {
    forall w: nat | ph.Start() <= w < upto :: Reads(mem, own, bytes, root, w, Expected(ph, data, w))
  }

  /** Address `w` of `root` maps to a user page of `root`, open to user mode, in a frame that had no role
      in `own0`. */
  ghost predicate NewPage(own0: Owners, mem: Memory, own: Owners, root: nat, w: nat) {
    var e := Leaf(mem, root, w);
    && e.flags == Flags(true, true, true, false) && PathOpen(mem, root, w)
    && e.frame !in own0 && e.frame in own && own[e.frame] == Data(root)
  }

  /** Address `w` lies, modulo 2^48, in a page of `[lo, hi)`. */
  ghost predicate Touched(lo: nat, hi: nat, w: nat) {
    exists x: nat :: lo <= x < hi && Page(x) == Page(w)
  }

  /** No page of `root` outside `[lo, hi)` changes its translation. */
  ghost predicate OutsideSame(mem: Memory, mem': Memory, root: nat, lo: nat, hi: nat) {
    forall w: nat | !Touched(lo, hi, w) :: Leaf(mem', root, w) == Leaf(mem, root, w)
  }

  /** Another address space shows what `root` shows where it shares the kernel tables of `root`, and
      what it showed before everywhere else. */
  ghost predicate Follows(own: Owners, mem: Memory, mem': Memory, root: nat) {
    forall r, w: nat | r in own && own[r].Root? && r != root ::
      Leaf(mem', r, w) == if Shares(mem, r, root, w) then Leaf(mem', root, w) else Leaf(mem, r, w)
  }

  /** No other address space changes any translation. */
  ghost predicate OthersSame(own: Owners, mem: Memory, mem': Memory, root: nat) {
    forall r, w: nat | r in own && own[r].Root? && r != root :: Leaf(mem', r, w) == Leaf(mem, r, w)
  }

  /** No other address space changes any translation in its lower half. */
  ghost predicate OthersLower(own: Owners, mem: Memory, mem': Memory, root: nat) {
    forall r, w: nat | r in own && own[r].Root? && r != root && LowerHalf(w) :: Leaf(mem', r, w) == Leaf(mem, r, w)
  }

  /** Contents of frames that already had a role are untouched. */
  ghost predicate BytesKept(own: Owners, bytes: map<nat, seq<bv8>>, bytes': map<nat, seq<bv8>>) {
    forall f | f in own && f in bytes :: f in bytes' && bytes'[f] == bytes[f]
  }

  lemma SamePage(cur: nat, w: nat)
    requires cur % PAGE == 0 && cur <= w < cur + PAGE
    ensures Page(w) == Page(cur) && PageOffset(w) == w - cur
  {
    assert w / PAGE == cur / PAGE;
  }

  /** Distinct pages less than 2^48 bytes apart are distinct for the page tables. */
  lemma OtherPage(w: nat, cur: nat)
    requires cur % PAGE == 0 && w < cur && cur + PAGE <= w - w % PAGE + SPAN
    ensures Page(w) != Page(cur)
  {
    var a, b := w / PAGE, cur / PAGE;
    assert cur == PAGE * b && w == PAGE * a + w % PAGE;
    assert a < b < a + 0x10_0000_0000;
    ModApart(a, b);
  }

  lemma ModApart(a: nat, b: nat)
    requires a < b < a + 0x10_0000_0000
    ensures a % 0x10_0000_0000 != b % 0x10_0000_0000
  {
    var p, q := a / 0x10_0000_0000, b / 0x10_0000_0000;
    assert a == 0x10_0000_0000 * p + a % 0x10_0000_0000;
    assert b == 0x10_0000_0000 * q + b % 0x10_0000_0000;
    assert q == p || q == p + 1;
  }

  lemma TouchedSelf(lo: nat, hi: nat, w: nat)
    requires lo <= w < hi
    ensures Touched(lo, hi, w)
  {
    hide Page;
    var p := Page(w);
    assert exists x: nat :: lo <= x < hi && Page(x) == p;
  }

  lemma TouchedPage(cur: nat, w: nat)
    requires cur % PAGE == 0
    ensures Touched(cur, cur + PAGE, w) <==> Page(w) == Page(cur)
  {
    hide Page;
    forall x: nat | cur <= x < cur + PAGE ensures Page(x) == Page(cur) {
      SamePage(cur, x);
    }
    if Page(w) == Page(cur) {
      assert cur <= cur < cur + PAGE && Page(cur) == Page(w);
    }
  }

  /** A loaded byte stays readable when another page is mapped and other frames are filled. */
  lemma ReadsKept(mem: Memory, own: Owners, bytes: map<nat, seq<bv8>>,
                  mem': Memory, own': Owners, bytes': map<nat, seq<bv8>>, root: nat, w: nat, b: bv8)
    requires Reads(mem, own, bytes, root, w, b)
    requires Leaf(mem', root, w) == Leaf(mem, root, w) && Extends(own, own') && BytesKept(own, bytes, bytes')
    ensures Reads(mem', own', bytes', root, w, b)
  {
    hide Leaf;
  }

  method FillPage(ph: Phdr, data: seq<bv8>, cur: nat) returns (page: seq<bv8>)
    requires ph.offset + ph.filesz <= |data|
    ensures |page| == PAGE
    ensures forall j | 0 <= j < PAGE :: page[j] == Expected(ph, data, cur + j)
  {
    var buf := new bv8[PAGE](_ => 0);
    for j := 0 to PAGE
      invariant forall k | 0 <= k < j :: buf[k] == Expected(ph, data, cur + k)
      invariant forall k | j <= k < PAGE :: buf[k] == 0
    {
      var at := cur + j;
      if at >= ph.vaddr && at < ph.vaddr + ph.filesz {
        buf[j] := data[ph.offset + (at - ph.vaddr)];
      }
    }
    page := buf[..];
  }

  /** Takes a frame for a user page and fills it; 0 when the allocator runs dry. */
  method TakePage(m: Machine, ph: Phdr, data: seq<bv8>, cur: nat) returns (f: nat)
    requires m.Valid() && Private(m.mem, m.own)
    requires ph.offset + ph.filesz <= |data|
    modifies m`own, m`bytes, m.pmm`freeMemory, m.pmm.bitmap
    ensures m.Valid() && Private(m.mem, m.own)
    ensures m.pmm.Free() <= old(m.pmm.Free())
    ensures f == 0 ==> old(m.pmm.Free()) == {} && m.own == old(m.own) && m.bytes == old(m.bytes)
    ensures f != 0 ==> f in old(m.pmm.Free()) && f < MAX_FRAME && f !in old(m.own) && m.own == old(m.own)[f := Data(m.current)]
    ensures f != 0 ==> f in m.bytes && |m.bytes[f]| == PAGE && m.bytes == old(m.bytes)[f := m.bytes[f]]
    ensures f != 0 ==> forall j | 0 <= j < PAGE :: m.bytes[f][j] == Expected(ph, data, cur + j)
  {
    hide WellFormed, Expected, Private, Pmm.Allocator.Free, Pmm.Allocator.Valid;
    f := m.TakeFrame(Data(m.current));
    if f != 0 {
      PrivateGrows(m.mem, old(m.own), m.own);
      var page := FillPage(ph, data, cur);
      m.bytes := m.bytes[f := page];
    }
  }

  /** Allocates, fills and maps one page of the segment in the active address space. */
  method LoadPage(m: Machine, ph: Phdr, data: seq<bv8>, cur: nat) returns (r: Result)
    requires m.Valid() && Private(m.mem, m.own) && m.current != 0
    requires ph.offset + ph.filesz <= |data| && cur % PAGE == 0
    modifies m`mem, m`own, m`bytes, m.pmm`freeMemory, m.pmm.bitmap
    ensures m.Valid() && Private(m.mem, m.own) && Extends(old(m.own), m.own)
    ensures forall t | t in m.own && t !in old(m.own) :: !m.own[t].Root? && t in old(m.pmm.Free())
    ensures m.pmm.Free() <= old(m.pmm.Free())
    ensures BytesKept(old(m.own), old(m.bytes), m.bytes)
    ensures Moved(old(m.own), old(m.mem), m.mem, m.current, cur, cur + PAGE)
    ensures r == Done(0) || r == Done(-6) || r == KernelHalted
    ensures r != Done(0) ==> m.pmm.Free() == {}
    ensures r == Done(0) ==>
              forall w: nat | cur <= w < cur + PAGE :: Reads(m.mem, m.own, m.bytes, m.current, w, Expected(ph, data, w))
    ensures r == Done(0) ==>
              forall w: nat | Touched(cur, cur + PAGE, w) :: NewPage(old(m.own), m.mem, m.own, m.current, w)
  {
    hide Leaf, Page, PageOffset, WellFormed, Expected, Private, LowerHalf, OnlyPage, SameLeaves, SameShares, StillOpen, PathOpen, Moved, Reads, NewPage, Touched, Pmm.Allocator.Free, Pmm.Allocator.Valid;
    ghost var own0, mem0 := m.own, m.mem;
    var f := TakePage(m, ph, data, cur);
    NothingMoved(own0, mem0, m.current, cur, cur + PAGE);
    if f == 0 {
      return Done(-6);
    }
    ghost var own1 := m.own;
    FrameOfAddress(f);
    var o := m.MapPage(cur, f * PAGE, Flags(true, true, true, false));
    if o.Halted? {
      HaltedPage(own0, own1, mem0, m.mem, m.current, cur);
      return KernelHalted;
    }
    MappedPage(own0, own1, m.own, mem0, m.mem, m.bytes, m.current, cur, f, ph, data);
    return Done(0);
  }

  lemma FrameOfAddress(f: nat)
    requires f < MAX_FRAME
    ensures f * PAGE / PAGE % MAX_FRAME == f
  {
  }

  /** The translations that a step confined to the pages of `[lo, hi)` of `root` may change. */
  ghost predicate Moved(own: Owners, mem: Memory, mem': Memory, root: nat, lo: nat, hi: nat) {
    && OutsideSame(mem, mem', root, lo, hi)
    && Follows(own, mem, mem', root)
    && SameShares(own, mem, mem') && StillOpen(own, mem, mem')
  }

  /** Address spaces that share tables show the same. */
  lemma SharedLeaf(mem: Memory, r: nat, root: nat, w: nat)
    requires Shares(mem, r, root, w)
    ensures Leaf(mem, r, w) == Leaf(mem, root, w)
  {
    hide Walk, Last, Indices, SharesPath;
    SharedLast(mem, r, root, Indices(w));
  }

  lemma NothingMoved(own: Owners, mem: Memory, root: nat, lo: nat, hi: nat)
    ensures Moved(own, mem, mem, root, lo, hi)
  {
    hide Leaf, Shares, Touched;
    forall r, w: nat | Shares(mem, r, root, w) ensures Leaf(mem, r, w) == Leaf(mem, root, w) {
      SharedLeaf(mem, r, root, w);
    }
  }

  /** Two steps that each keep to their own pages of `root` keep to the pages of both. */
  lemma MovedTwice(own0: Owners, mem0: Memory, own1: Owners, mem1: Memory, mem2: Memory,
                   root: nat, lo: nat, mid: nat, hi: nat)
    requires lo <= mid <= hi && Extends(own0, own1) && root in own0 && own0[root].Root?
    requires Moved(own0, mem0, mem1, root, lo, mid) && Moved(own1, mem1, mem2, root, mid, hi)
    ensures Moved(own0, mem0, mem2, root, lo, hi)
  {
    hide Leaf, Shares, Page, Touched, PathOpen;
    TouchedMore(lo, mid, lo, hi);
    TouchedMore(mid, hi, lo, hi);
  }

  lemma TouchedMore(lo: nat, hi: nat, lo': nat, hi': nat)
    requires lo' <= lo && (hi <= hi' || hi <= lo)
    ensures forall w: nat | Touched(lo, hi, w) :: Touched(lo', hi', w)
  {
    hide Page;
    forall w: nat | Touched(lo, hi, w) ensures Touched(lo', hi', w) {
      var x: nat :| lo <= x < hi && Page(x) == Page(w);
      assert lo' <= x < hi' && Page(x) == Page(w);
    }
  }

  lemma HaltedPage(own0: Owners, own1: Owners, mem: Memory, mem': Memory, root: nat, cur: nat)
    requires Extends(own0, own1) && SameLeaves(own1, mem, mem') && SameShares(own1, mem, mem') && StillOpen(own1, mem, mem')
    requires root in own1 && own1[root].Root?
    ensures Moved(own0, mem, mem', root, cur, cur + PAGE)
  {
    hide Leaf, Shares, Touched;
    forall r, w: nat | Shares(mem, r, root, w) ensures Leaf(mem, r, w) == Leaf(mem, root, w) {
      SharedLeaf(mem, r, root, w);
    }
  }

  /** Mapping a page moves that page of `root`, and with it that of the spaces that share it. */
  lemma OnlyPageMoves(own0: Owners, own1: Owners, mem: Memory, mem': Memory, root: nat, cur: nat, e: Entry)
    requires Extends(own0, own1) && cur % PAGE == 0
    requires OnlyPage(own1, mem, mem', root, cur, e) && SameShares(own1, mem, mem') && StillOpen(own1, mem, mem')
    ensures Moved(own0, mem, mem', root, cur, cur + PAGE)
  {
    hide Leaf, Page, Shares, Touched, LowerHalf;
    forall w: nat ensures Touched(cur, cur + PAGE, w) <==> Page(w) == Page(cur) {
      TouchedPage(cur, w);
    }
    SharesSelf(mem, root, cur);
    forall r, w: nat | r in own0 && own0[r].Root? && r != root
      ensures Leaf(mem', r, w) == if Shares(mem, r, root, w) then Leaf(mem', root, w) else Leaf(mem, r, w)
    {
      if Page(w) == Page(cur) {
        SharesByPage(mem, r, root, w, cur);
      }
      if Shares(mem, r, root, w) {
        SharedLeaf(mem, r, root, w);
      }
    }
  }

  lemma SharesSelf(mem: Memory, root: nat, v: nat)
    ensures Shares(mem, root, root, v)
  {
  }

  lemma OpenByPage(mem: Memory, root: nat, v: nat, w: nat)
    requires Page(v) == Page(w) && PathOpen(mem, root, v)
    ensures PathOpen(mem, root, w)
  {
    hide Indices, Page, Passes;
    IndicesIffPage(v, w);
  }

  lemma SharesByPage(mem: Memory, r: nat, root: nat, v: nat, w: nat)
    requires Page(v) == Page(w)
    ensures Shares(mem, r, root, v) == Shares(mem, r, root, w) && LowerHalf(v) == LowerHalf(w)
  {
    hide Indices, Page;
    IndicesIffPage(v, w);
  }

  /** Mapping a filled frame at page `cur` puts the segment's bytes there and moves nothing else. */
  lemma MappedPage(own0: Owners, own1: Owners, own2: Owners, mem: Memory, mem': Memory, bytes: map<nat, seq<bv8>>,
                   root: nat, cur: nat, f: nat, ph: Phdr, data: seq<bv8>)
    requires Extends(own0, own1) && Extends(own1, own2) && f in own1
    requires cur % PAGE == 0 && ph.offset + ph.filesz <= |data|
    requires f in bytes && |bytes[f]| == PAGE
    requires forall j | 0 <= j < PAGE :: bytes[f][j] == Expected(ph, data, cur + j)
    requires OnlyPage(own1, mem, mem', root, cur, Entry(f, Flags(true, true, true, false))) && SameShares(own1, mem, mem')
    requires StillOpen(own1, mem, mem') && PathOpen(mem', root, cur)
    requires f !in own0 && own1[f] == Data(root)
    ensures Moved(own0, mem, mem', root, cur, cur + PAGE)
    ensures forall w: nat | cur <= w < cur + PAGE :: Reads(mem', own2, bytes, root, w, Expected(ph, data, w))
    ensures forall w: nat | Touched(cur, cur + PAGE, w) :: NewPage(own0, mem', own2, root, w)
  {
    hide Leaf, Page, PageOffset, Expected, LowerHalf, Shares, SameShares, StillOpen, PathOpen, Moved, Touched;
    forall w: nat ensures Touched(cur, cur + PAGE, w) <==> Page(w) == Page(cur) {
      TouchedPage(cur, w);
    }
    forall w: nat | Page(w) == Page(cur) ensures PathOpen(mem', root, w) {
      OpenByPage(mem', root, cur, w);
    }
    OnlyPageMoves(own0, own1, mem, mem', root, cur, Entry(f, Flags(true, true, true, false)));
    SharesSelf(mem, root, cur);
    forall w: nat | cur <= w < cur + PAGE
      ensures Reads(mem', own2, bytes, root, w, Expected(ph, data, w))
    {
      SamePage(cur, w);
      assert bytes[f][w - cur] == Expected(ph, data, cur + (w - cur));
    }
  }

  lemma PrivateGrows(mem: Memory, own: Owners, own': Owners)
    requires Private(mem, own) && Extends(own, own')
    requires forall t | t in own' && t !in own :: own'[t].Data?
    ensures Private(mem, own')
  {
    forall t, i | t in own' && own'[t].Table? && own'[t].space.User? && |own'[t].path| == 3 && 0 <= i < ENTRIES
               && At(mem, t, i).flags.present
      ensures LeafOk(mem, own', t, i)
    {
      assert LeafOk(mem, own, t, i);
    }
  }

  /** What loading may change, whatever its outcome. */
  twostate predicate Confined(m: Machine, root: nat)
    reads m, m.pmm, m.pmm.bitmap
  {
    && old(m.Valid()) && m.Valid() && Private(m.mem, m.own) && Extends(old(m.own), m.own)
    && (forall t | t in m.own && t !in old(m.own) :: !m.own[t].Root? && t in old(m.pmm.Free()))
    && m.pmm.Free() <= old(m.pmm.Free())
    && BytesKept(old(m.own), old(m.bytes), m.bytes)
    && Follows(old(m.own), old(m.mem), m.mem, root)
    && SameShares(old(m.own), old(m.mem), m.mem) && StillOpen(old(m.own), old(m.mem), m.mem)
  }

  /** Loads one segment into the active address space. */
  method LoadSegment(m: Machine, ph: Phdr, data: seq<bv8>) returns (r: Result)
    requires m.Valid() && Private(m.mem, m.own) && m.current != 0
    requires ph.offset + ph.filesz <= |data|
    modifies m`mem, m`own, m`bytes, m.pmm`freeMemory, m.pmm.bitmap
    ensures Confined(m, m.current)
    ensures OutsideSame(old(m.mem), m.mem, m.current, ph.Start(), ph.End())
    ensures r == Done(0) || r == Done(-6) || r == KernelHalted
    ensures r != Done(0) ==> m.pmm.Free() == {}
    ensures r == Done(0) ==>
              forall w: nat | Touched(ph.Start(), ph.End(), w) :: NewPage(old(m.own), m.mem, m.own, m.current, w)
    ensures r == Done(0) && ph.End() <= ph.Start() + SPAN ==>
              LoadedUpTo(m.mem, m.own, m.bytes, m.current, ph, data, ph.End())
  {
    hide Leaf, Page, PageOffset, WellFormed, Expected, Private, LowerHalf, OnlyPage, SameLeaves, SameShares, StillOpen, PathOpen, Follows, OutsideSame, Reads, NewPage, Touched, Phdr.Start, Phdr.End, Pmm.Allocator.Free, Pmm.Allocator.Valid;
    PageBounds(ph);
    var cur := ph.Start();
    NothingMoved(m.own, m.mem, m.current, ph.Start(), ph.End());
    NothingMoved(m.own, m.mem, m.current, ph.Start(), cur);
    NoneNew(ph.Start());
    while cur < ph.End()
      invariant cur % PAGE == 0 && ph.Start() <= cur && (cur <= ph.End() || cur == ph.Start())
      invariant Confined(m, m.current)
      invariant OutsideSame(old(m.mem), m.mem, m.current, ph.Start(), cur)
      invariant forall w: nat | Touched(ph.Start(), cur, w) :: NewPage(old(m.own), m.mem, m.own, m.current, w)
      invariant ph.End() <= ph.Start() + SPAN ==> LoadedUpTo(m.mem, m.own, m.bytes, m.current, ph, data, cur)
      decreases ph.End() - cur
    {
      NextPage(cur, ph.End());
      ghost var own0, mem0, bytes0 := m.own, m.mem, m.bytes;
      r := LoadPage(m, ph, data, cur);
      MovedTwice(old(m.own), old(m.mem), own0, mem0, m.mem, m.current, ph.Start(), cur, cur + PAGE);
      if r != Done(0) {
        Widen(old(m.mem), m.mem, m.current, ph.Start(), cur + PAGE, ph.End());
        return r;
      }
      if ph.End() <= ph.Start() + SPAN {
        LoadedExtends(own0, mem0, bytes0, m.own, m.mem, m.bytes, m.current, ph, data, cur);
      }
      NewPagesGrow(old(m.own), own0, mem0, m.own, m.mem, m.current, ph.Start(), cur, cur + PAGE);
      cur := cur + PAGE;
    }
    Widen(old(m.mem), m.mem, m.current, ph.Start(), cur, ph.End());
    TouchedMore(ph.Start(), ph.End(), ph.Start(), cur);
    return Done(0);
  }

  lemma NoneNew(lo: nat)
    ensures forall w: nat :: !Touched(lo, lo, w)
  {
  }

  lemma NewPageKept(own0: Owners, own1: Owners, mem1: Memory, own2: Owners, mem2: Memory, root: nat, w: nat)
    requires Extends(own1, own2) && Leaf(mem2, root, w) == Leaf(mem1, root, w)
    requires root in own1 && own1[root].Root? && StillOpen(own1, mem1, mem2)
    ensures NewPage(own0, mem1, own1, root, w) ==> NewPage(own0, mem2, own2, root, w)
  {
    hide Leaf, PathOpen;
  }

  lemma NewPageOlder(own0: Owners, own1: Owners, mem: Memory, own: Owners, root: nat, w: nat)
    requires Extends(own0, own1) && NewPage(own1, mem, own, root, w)
    ensures NewPage(own0, mem, own, root, w)
  {
    hide Leaf;
  }

  /** Pages mapped in two steps are new with respect to the state before the first. */
  lemma NewPagesGrow(own0: Owners, own1: Owners, mem1: Memory, own2: Owners, mem2: Memory, root: nat, lo: nat, mid: nat, hi: nat)
    requires Extends(own0, own1) && Extends(own1, own2) && lo <= mid <= hi
    requires OutsideSame(mem1, mem2, root, mid, hi) && root in own1 && own1[root].Root? && StillOpen(own1, mem1, mem2)
    requires forall w: nat | Touched(lo, mid, w) :: NewPage(own0, mem1, own1, root, w)
    requires forall w: nat | Touched(mid, hi, w) :: NewPage(own1, mem2, own2, root, w)
    ensures forall w: nat | Touched(lo, hi, w) :: NewPage(own0, mem2, own2, root, w)
  {
    hide Leaf, NewPage, Touched, PathOpen;
    forall w: nat | Touched(lo, hi, w) ensures NewPage(own0, mem2, own2, root, w) {
      if Touched(mid, hi, w) {
        NewPageOlder(own0, own1, mem2, own2, root, w);
      } else {
        TouchedParts(lo, mid, hi, w);
        NewPageKept(own0, own1, mem1, own2, mem2, root, w);
      }
    }
  }

  lemma TouchedParts(lo: nat, mid: nat, hi: nat, w: nat)
    requires Touched(lo, hi, w) && !Touched(mid, hi, w)
    ensures Touched(lo, mid, w)
  {
    hide Page;
    var x: nat :| lo <= x < hi && Page(x) == Page(w);
    assert x < mid;
  }

  lemma PageBounds(ph: Phdr)
    ensures ph.Start() % PAGE == 0 && ph.End() % PAGE == 0 && ph.Start() <= ph.vaddr
  {
  }

  lemma NextPage(cur: nat, end: nat)
    requires cur % PAGE == 0 && end % PAGE == 0 && cur < end
    ensures cur + PAGE <= end && (cur + PAGE) % PAGE == 0
  {
  }

  lemma Widen(mem: Memory, mem': Memory, root: nat, lo: nat, mid: nat, hi: nat)
    requires OutsideSame(mem, mem', root, lo, mid) && (mid <= hi || mid == lo)
    ensures OutsideSame(mem, mem', root, lo, hi)
  {
    hide Leaf, Touched;
    TouchedMore(lo, mid, lo, hi);
  }

  lemma LoadedExtends(own: Owners, mem: Memory, bytes: map<nat, seq<bv8>>,
                      own': Owners, mem': Memory, bytes': map<nat, seq<bv8>>,
                      root: nat, ph: Phdr, data: seq<bv8>, cur: nat)
    requires ph.offset + ph.filesz <= |data| && cur % PAGE == 0 && cur + PAGE <= ph.Start() + SPAN
    requires LoadedUpTo(mem, own, bytes, root, ph, data, cur)
    requires Extends(own, own') && BytesKept(own, bytes, bytes') && OutsideSame(mem, mem', root, cur, cur + PAGE)
    requires forall w: nat | cur <= w < cur + PAGE :: Reads(mem', own', bytes', root, w, Expected(ph, data, w))
    ensures LoadedUpTo(mem', own', bytes', root, ph, data, cur + PAGE)
  {
    hide Leaf, Expected, Reads, BytesKept, Extends, Phdr.Start, Page, Touched;
    PageBounds(ph);
    forall w: nat | ph.Start() <= w < cur + PAGE ensures Reads(mem', own', bytes', root, w, Expected(ph, data, w)) {
      if w < cur {
        PageStart(ph.Start(), w);
        OtherPage(w, cur);
        TouchedPage(cur, w);
        ReadsKept(mem, own, bytes, mem', own', bytes', root, w, Expected(ph, data, w));
      }
    }
  }

  lemma PageStart(start: nat, w: nat)
    requires start % PAGE == 0 && start <= w
    ensures start <= w - w % PAGE
  {
  }

  // ---- Whole images ----------------------------------------------------------------------

  predicate Covers(ph: Phdr, w: nat) { ph.Start() <= w < ph.End() }

  /** The pages of two segments differ modulo 2^48. */
  ghost predicate Apart(a: Phdr, b: Phdr) {
    forall w: nat, x: nat | Covers(a, w) && Covers(b, x) :: Page(w) != Page(x)
  }

  /** No two pages of the first `n` loadable segments are the same modulo 2^48. */
  ghost predicate PageDisjoint(phdrs: seq<Phdr>, n: nat)
    requires n <= |phdrs|
  {
    && (forall i | 0 <= i < n && phdrs[i].ptype == PT_LOAD :: phdrs[i].End() <= phdrs[i].Start() + SPAN)
    && (forall i, j | 0 <= i < j < n && phdrs[i].ptype == PT_LOAD && phdrs[j].ptype == PT_LOAD :: Apart(phdrs[i], phdrs[j]))
  }

  /** Segments `0..n` are in place, byte for byte. */
  ghost predicate Placed(mem: Memory, own: Owners, bytes: map<nat, seq<bv8>>, root: nat,
                         phdrs: seq<Phdr>, data: seq<bv8>, n: nat)
    requires n <= |phdrs|
  {
    forall i | 0 <= i < n && phdrs[i].ptype == PT_LOAD ::
      && phdrs[i].offset + phdrs[i].filesz <= |data|
      && LoadedUpTo(mem, own, bytes, root, phdrs[i], data, phdrs[i].End())
  }

  /** Address `w` lies, modulo 2^48, in a page of one of the first `n` loadable segments. */
  ghost predicate TouchedBy(phdrs: seq<Phdr>, n: nat, w: nat)
    requires n <= |phdrs|
  {
    exists i :: 0 <= i < n && phdrs[i].ptype == PT_LOAD && Touched(phdrs[i].Start(), phdrs[i].End(), w)
  }

  /** Pages outside the segments keep their translations. */
  ghost predicate RestSame(mem: Memory, mem': Memory, root: nat, phdrs: seq<Phdr>, n: nat)
    requires n <= |phdrs|
  {
    forall w: nat | !TouchedBy(phdrs, n, w) :: Leaf(mem', root, w) == Leaf(mem, root, w)
  }

  /** Every page of the first `n` loadable segments is newly mapped. */
  ghost predicate AllNew(own0: Owners, mem: Memory, own: Owners, root: nat, phdrs: seq<Phdr>, n: nat)
    requires n <= |phdrs|
  {
    forall w: nat | TouchedBy(phdrs, n, w) :: NewPage(own0, mem, own, root, w)
  }

  /** The file holds the bytes of every loadable segment. */
  predicate Inside(phdrs: seq<Phdr>, data: seq<bv8>) {
    forall i | 0 <= i < |phdrs| && phdrs[i].ptype == PT_LOAD :: phdrs[i].offset + phdrs[i].filesz <= |data|
  }

  lemma AllNewGrows(own0: Owners, own1: Owners, mem1: Memory, own2: Owners, mem2: Memory, root: nat, phdrs: seq<Phdr>, n: nat)
    requires Extends(own0, own1) && Extends(own1, own2) && n < |phdrs| && AllNew(own0, mem1, own1, root, phdrs, n)
    requires root in own1 && own1[root].Root? && (phdrs[n].ptype == PT_LOAD ==> StillOpen(own1, mem1, mem2))
    requires phdrs[n].ptype == PT_LOAD ==>
               && OutsideSame(mem1, mem2, root, phdrs[n].Start(), phdrs[n].End())
               && forall w: nat | Touched(phdrs[n].Start(), phdrs[n].End(), w) :: NewPage(own1, mem2, own2, root, w)
    requires phdrs[n].ptype != PT_LOAD ==> mem2 == mem1 && own2 == own1
    ensures AllNew(own0, mem2, own2, root, phdrs, n + 1)
  {
    hide Leaf, NewPage, Touched, PathOpen, Phdr.Start, Phdr.End;
    forall w: nat | TouchedBy(phdrs, n + 1, w) ensures NewPage(own0, mem2, own2, root, w) {
      if phdrs[n].ptype == PT_LOAD && Touched(phdrs[n].Start(), phdrs[n].End(), w) {
        NewPageOlder(own0, own1, mem2, own2, root, w);
      } else {
        assert TouchedBy(phdrs, n, w);
        if phdrs[n].ptype == PT_LOAD {
          NewPageKept(own0, own1, mem1, own2, mem2, root, w);
        }
      }
    }
  }

  /** Every page of every loadable segment lies in the lower half. */
  ghost predicate AllLower(phdrs: seq<Phdr>) {
    forall i, w: nat | 0 <= i < |phdrs| && phdrs[i].ptype == PT_LOAD && Covers(phdrs[i], w) :: LowerHalf(w)
  }

  lemma LoadedKept(own: Owners, mem: Memory, bytes: map<nat, seq<bv8>>,
                   own': Owners, mem': Memory, bytes': map<nat, seq<bv8>>,
                   root: nat, ph: Phdr, data: seq<bv8>, next: Phdr)
    requires ph.offset + ph.filesz <= |data|
    requires LoadedUpTo(mem, own, bytes, root, ph, data, ph.End())
    requires Extends(own, own') && BytesKept(own, bytes, bytes') && OutsideSame(mem, mem', root, next.Start(), next.End())
    requires Apart(ph, next)
    ensures LoadedUpTo(mem', own', bytes', root, ph, data, ph.End())
  {
    hide Leaf, Expected, Reads, BytesKept, Extends, Phdr.Start, Phdr.End, Page;
    forall w: nat | ph.Start() <= w < ph.End() ensures Reads(mem', own', bytes', root, w, Expected(ph, data, w)) {
      assert Covers(ph, w);
      assert forall x: nat | Covers(next, x) :: Page(w) != Page(x);
      assert !Touched(next.Start(), next.End(), w);
      ReadsKept(mem, own, bytes, mem', own', bytes', root, w, Expected(ph, data, w));
    }
  }

  /** Segments already in place survive the loading of one more, if it uses other pages. */
  lemma PlacedKept(own: Owners, mem: Memory, bytes: map<nat, seq<bv8>>,
                   own': Owners, mem': Memory, bytes': map<nat, seq<bv8>>,
                   root: nat, phdrs: seq<Phdr>, data: seq<bv8>, n: nat)
    requires n < |phdrs| && phdrs[n].ptype == PT_LOAD && PageDisjoint(phdrs, n + 1)
    requires Placed(mem, own, bytes, root, phdrs, data, n)
    requires Extends(own, own') && BytesKept(own, bytes, bytes')
    requires OutsideSame(mem, mem', root, phdrs[n].Start(), phdrs[n].End())
    requires phdrs[n].offset + phdrs[n].filesz <= |data|
    requires LoadedUpTo(mem', own', bytes', root, phdrs[n], data, phdrs[n].End())
    ensures Placed(mem', own', bytes', root, phdrs, data, n + 1)
  {
    hide LoadedUpTo, OutsideSame, BytesKept, Extends, Apart, Phdr.Start, Phdr.End;
    forall i | 0 <= i < n && phdrs[i].ptype == PT_LOAD
      ensures LoadedUpTo(mem', own', bytes', root, phdrs[i], data, phdrs[i].End())
    {
      LoadedKept(own, mem, bytes, own', mem', bytes', root, phdrs[i], data, phdrs[n]);
    }
  }

  lemma RestKept(mem0: Memory, mem1: Memory, mem2: Memory, root: nat, phdrs: seq<Phdr>, n: nat)
    requires n < |phdrs| && RestSame(mem0, mem1, root, phdrs, n)
    requires if phdrs[n].ptype == PT_LOAD then OutsideSame(mem1, mem2, root, phdrs[n].Start(), phdrs[n].End()) else mem2 == mem1
    ensures RestSame(mem0, mem2, root, phdrs, n + 1)
  {
    hide Leaf, Touched, Phdr.Start, Phdr.End;
    forall w: nat | !TouchedBy(phdrs, n + 1, w) ensures Leaf(mem2, root, w) == Leaf(mem0, root, w) {
      assert phdrs[n].ptype == PT_LOAD ==> !Touched(phdrs[n].Start(), phdrs[n].End(), w);
      assert !TouchedBy(phdrs, n, w);
    }
  }

  lemma RestMore(mem: Memory, mem': Memory, root: nat, phdrs: seq<Phdr>, n: nat)
    requires n <= |phdrs| && RestSame(mem, mem', root, phdrs, n)
    ensures RestSame(mem, mem', root, phdrs, |phdrs|)
  {
    hide Leaf, Touched;
    forall w: nat | !TouchedBy(phdrs, |phdrs|, w) ensures !TouchedBy(phdrs, n, w) {
    }
  }

  lemma FollowsTwice(own0: Owners, mem0: Memory, own1: Owners, mem1: Memory, mem2: Memory, root: nat)
    requires Extends(own0, own1) && root in own0 && own0[root].Root?
    requires Follows(own0, mem0, mem1, root) && SameShares(own0, mem0, mem1) && StillOpen(own0, mem0, mem1)
    requires Follows(own1, mem1, mem2, root) && SameShares(own1, mem1, mem2) && StillOpen(own1, mem1, mem2)
    ensures Follows(own0, mem0, mem2, root) && SameShares(own0, mem0, mem2) && StillOpen(own0, mem0, mem2)
  {
    hide Leaf, Shares, PathOpen;
  }

  /** Loads the segments one after the other into the active address space. */
  method LoadSegments(m: Machine, phdrs: seq<Phdr>, data: seq<bv8>) returns (r: Result)
    requires m.Valid() && Private(m.mem, m.own) && m.current != 0
    modifies m`mem, m`own, m`bytes, m.pmm`freeMemory, m.pmm.bitmap
    ensures Confined(m, m.current) && RestSame(old(m.mem), m.mem, m.current, phdrs, |phdrs|)
    ensures r == Done(0) || r == Done(-5) || r == Done(-6) || r == KernelHalted
    ensures r == Done(-6) || r == KernelHalted ==> m.pmm.Free() == {}
    ensures r == Done(0) ==> Inside(phdrs, data) && AllNew(old(m.own), m.mem, m.own, m.current, phdrs, |phdrs|)
    ensures r == Done(-5) ==> !Inside(phdrs, data)
    ensures r == Done(0) && PageDisjoint(phdrs, |phdrs|) ==>
              Placed(m.mem, m.own, m.bytes, m.current, phdrs, data, |phdrs|)
  {
    hide Leaf, WellFormed, Private, Reads, LoadedUpTo, OutsideSame, RestSame, AllNew, NewPage, Touched, Follows, SameShares, StillOpen, Apart, Phdr.Start, Phdr.End, Pmm.Allocator.Free, Pmm.Allocator.Valid;
    NoneTouched(m.own, m.mem, m.current, phdrs);
    for i := 0 to |phdrs|
      invariant Confined(m, m.current) && RestSame(old(m.mem), m.mem, m.current, phdrs, i)
      invariant AllNew(old(m.own), m.mem, m.own, m.current, phdrs, i)
      invariant forall k | 0 <= k < i && phdrs[k].ptype == PT_LOAD :: phdrs[k].offset + phdrs[k].filesz <= |data|
      invariant PageDisjoint(phdrs, i) ==> Placed(m.mem, m.own, m.bytes, m.current, phdrs, data, i)
    {
      ghost var own1, mem1, bytes1 := m.own, m.mem, m.bytes;
      if phdrs[i].ptype == PT_LOAD {
        if phdrs[i].offset + phdrs[i].filesz > |data| {
          RestMore(old(m.mem), m.mem, m.current, phdrs, i);
          return Done(-5);
        }
        r := LoadSegment(m, phdrs[i], data);
        FollowsTwice(old(m.own), old(m.mem), own1, mem1, m.mem, m.current);
      }
      RestKept(old(m.mem), mem1, m.mem, m.current, phdrs, i);
      if phdrs[i].ptype == PT_LOAD {
        if r != Done(0) {
          RestMore(old(m.mem), m.mem, m.current, phdrs, i + 1);
          return;
        }
      }
      AllNewGrows(old(m.own), own1, mem1, m.own, m.mem, m.current, phdrs, i);
      if phdrs[i].ptype == PT_LOAD {
        if PageDisjoint(phdrs, i + 1) {
          PlacedKept(own1, mem1, bytes1, m.own, m.mem, m.bytes, m.current, phdrs, data, i);
        }
      }
    }
    return Done(0);
  }

  lemma NoneTouched(own: Owners, mem: Memory, root: nat, phdrs: seq<Phdr>)
    ensures Follows(own, mem, mem, root) && SameShares(own, mem, mem) && StillOpen(own, mem, mem)
    ensures RestSame(mem, mem, root, phdrs, 0)
    ensures AllNew(own, mem, own, root, phdrs, 0)
  {
    hide Leaf, Shares, Touched;
    NothingMoved(own, mem, root, 0, 0);
  }

  // ---- What other address spaces notice --------------------------------------------------

  /** The lower halves of other address spaces never change. */
  lemma OthersKeepLower(own: Owners, mem: Memory, mem': Memory, root: nat)
    requires WellFormed(mem, own) && root in own && own[root].Root? && Follows(own, mem, mem', root)
    ensures OthersLower(own, mem, mem', root)
  {
    hide Leaf, Shares, WellFormed, LowerHalf;
    forall r, w: nat | r in own && own[r].Root? && r != root && LowerHalf(w)
      ensures Leaf(mem', r, w) == Leaf(mem, r, w)
    {
      LowerUnshared(mem, own, root, w);
    }
  }

  /** Other address spaces are left alone exactly when no shared kernel page of `root` changes. */
  lemma OthersSameIff(own: Owners, mem: Memory, mem': Memory, root: nat)
    requires Follows(own, mem, mem', root)
    ensures OthersSame(own, mem, mem', root)
       <==> forall r, w: nat | r in own && own[r].Root? && r != root && Shares(mem, r, root, w) ::
              Leaf(mem', root, w) == Leaf(mem, root, w)
  {
    hide Leaf, Shares;
    forall r, w: nat | Shares(mem, r, root, w) ensures Leaf(mem, r, w) == Leaf(mem, root, w) {
      SharedLeaf(mem, r, root, w);
    }
  }

  /** An image whose pages all lie in the lower half leaves other address spaces alone. */
  lemma LowerImageIsPrivate(own: Owners, mem: Memory, mem': Memory, root: nat, phdrs: seq<Phdr>)
    requires WellFormed(mem, own) && root in own && own[root].Root? && Follows(own, mem, mem', root)
    requires RestSame(mem, mem', root, phdrs, |phdrs|) && AllLower(phdrs)
    ensures OthersSame(own, mem, mem', root)
  {
    hide Leaf, Shares, WellFormed, LowerHalf, Page, Phdr.Start, Phdr.End;
    forall r, w: nat | r in own && own[r].Root? && r != root
      ensures Leaf(mem', r, w) == Leaf(mem, r, w)
    {
      LowerUnshared(mem, own, root, w);
      if Shares(mem, r, root, w) {
        SharedLeaf(mem, r, root, w);
        if TouchedBy(phdrs, |phdrs|, w) {
          var i :| 0 <= i < |phdrs| && phdrs[i].ptype == PT_LOAD && Touched(phdrs[i].Start(), phdrs[i].End(), w);
          var x: nat :| phdrs[i].Start() <= x < phdrs[i].End() && Page(x) == Page(w);
          assert Covers(phdrs[i], x);
          SharesByPage(mem, r, root, x, w);
          assert false;
        }
      }
    }
  }

  /** Where another address space shares the tables, it reads the bytes of the loaded image. */
  lemma SeenByOthers(own: Owners, mem: Memory, mem': Memory, own': Owners, bytes: map<nat, seq<bv8>>,
                     root: nat, r: nat, w: nat, b: bv8)
    requires Follows(own, mem, mem', root) && r in own && own[r].Root? && r != root
    requires Shares(mem, r, root, w) && Reads(mem', own', bytes, root, w, b)
    ensures Reads(mem', own', bytes, r, w, b)
  {
    hide Leaf, Shares;
  }

  /** A user program there gets at them exactly when its PML4 entry lets user mode through. */
  lemma OpenToOthers(mem': Memory, own0: Owners, own': Owners, root: nat, r: nat, w: nat)
    requires WellFormed(mem', own') && r in own' && own'[r].Root? && Shares(mem', r, root, w) && NewPage(own0, mem', own', root, w)
    ensures Leaf(mem', r, w).flags.user && (PathOpen(mem', r, w) <==> At(mem', r, Indices(w)[0]).flags.user)
  {
    hide Leaf, Shares, PathOpen, WellFormed, Indices;
    SharedLeaf(mem', r, root, w);
    SharedOpen(mem', own', r, root, w);
  }

  /** No page of a loadable segment was open to user programs before. */
  ghost predicate NotUser(mem: Memory, root: nat, phdrs: seq<Phdr>) {
    forall w: nat | TouchedBy(phdrs, |phdrs|, w) :: !Leaf(mem, root, w).flags.user
  }

  /** Another address space shares the tables of a segment page. */
  ghost predicate SharedSegment(own: Owners, mem: Memory, root: nat, phdrs: seq<Phdr>) {
    exists r, w: nat :: r in own && own[r].Root? && r != root && TouchedBy(phdrs, |phdrs|, w) && Shares(mem, r, root, w)
  }

  /** After a complete load, other address spaces are as they were exactly when none of them shares
      the tables of a segment page. Both sides of the condition can be read off before the load. */
  lemma OthersSameExactly(own: Owners, mem: Memory, mem': Memory, own': Owners, root: nat, phdrs: seq<Phdr>)
    requires Follows(own, mem, mem', root) && RestSame(mem, mem', root, phdrs, |phdrs|)
    requires AllNew(own, mem', own', root, phdrs, |phdrs|) && NotUser(mem, root, phdrs)
    ensures OthersSame(own, mem, mem', root) <==> !SharedSegment(own, mem, root, phdrs)
  {
    hide Leaf, Shares, TouchedBy;
    if SharedSegment(own, mem, root, phdrs) {
      var r, w: nat :| r in own && own[r].Root? && r != root && TouchedBy(phdrs, |phdrs|, w) && Shares(mem, r, root, w);
      SharedLeaf(mem, r, root, w);
      assert NewPage(own, mem', own', root, w);
      assert Leaf(mem', r, w) != Leaf(mem, r, w);
    } else {
      forall r, w: nat | r in own && own[r].Root? && r != root ensures Leaf(mem', r, w) == Leaf(mem, r, w) {
        if Shares(mem, r, root, w) {
          SharedLeaf(mem, r, root, w);
          assert !TouchedBy(phdrs, |phdrs|, w);
        }
      }
    }
  }

  /** Addresses outside the segments keep their translations in every address space. */
  ghost predicate UntouchedSame(own: Owners, mem: Memory, mem': Memory, phdrs: seq<Phdr>) {
    forall r, w: nat | r in own && own[r].Root? && !TouchedBy(phdrs, |phdrs|, w) :: Leaf(mem', r, w) == Leaf(mem, r, w)
  }

  lemma RestIsUntouched(own: Owners, mem: Memory, mem': Memory, root: nat, phdrs: seq<Phdr>)
    requires Follows(own, mem, mem', root) && RestSame(mem, mem', root, phdrs, |phdrs|)
    ensures UntouchedSame(own, mem, mem', phdrs)
  {
    hide Leaf, Shares, TouchedBy;
    forall r, w: nat | r in own && own[r].Root? && !TouchedBy(phdrs, |phdrs|, w)
      ensures Leaf(mem', r, w) == Leaf(mem, r, w)
    {
      if r != root && Shares(mem, r, root, w) {
        SharedLeaf(mem, r, root, w);
      }
    }
  }

  // ---- The direct map --------------------------------------------------------------------

  /** The kernel, and no user program, reaches frame `f` at its place in the direct map, in the address
      space of `r`. */
  ghost predicate DirectMapped(mem: Memory, r: nat, hhdm: nat, f: nat) {
    Leaf(mem, r, hhdm + f * PAGE) == Entry(f, Flags(true, true, false, false))
  }

  /** A complete load leaves a frame where the kernel reaches it exactly when no segment page lies
      there. */
  lemma WindowKeptIff(own: Owners, mem: Memory, mem': Memory, own': Owners, root: nat, phdrs: seq<Phdr>, hhdm: nat, f: nat)
    requires RestSame(mem, mem', root, phdrs, |phdrs|) && AllNew(own, mem', own', root, phdrs, |phdrs|)
    requires DirectMapped(mem, root, hhdm, f)
    ensures DirectMapped(mem', root, hhdm, f) <==> !TouchedBy(phdrs, |phdrs|, hhdm + f * PAGE)
  {
    hide Leaf, TouchedBy;
    var w := hhdm + f * PAGE;
    if TouchedBy(phdrs, |phdrs|, w) {
      assert NewPage(own, mem', own', root, w);
    }
  }

  /** In the address spaces that share the tables the frame is lost as well. */
  lemma WindowLostByOthers(own: Owners, mem: Memory, mem': Memory, own': Owners, root: nat, hhdm: nat, f: nat, r: nat)
    requires Follows(own, mem, mem', root) && r in own && own[r].Root?
    requires Shares(mem, r, root, hhdm + f * PAGE) && NewPage(own, mem', own', root, hhdm + f * PAGE)
    ensures !DirectMapped(mem', r, hhdm, f)
  {
    hide Leaf, Shares;
  }

  /** Validates the image and loads its segments into the address space of `root`. On success
      with page-disjoint segments every byte of every segment page reads as the image says. */
  method Load(m: Machine, root: nat, signed: bool, header: Header, phdrs: seq<Phdr>, data: seq<bv8>) returns (r: Result)
    requires m.Valid() && Private(m.mem, m.own)
    requires root in m.own && m.own[root].Root?
    requires forall i | 0 <= i < |phdrs| && phdrs[i].ptype == PT_LOAD :: phdrs[i].Sane()
    modifies m`mem, m`own, m`bytes, m`current, m.pmm`freeMemory, m.pmm.bitmap
    ensures Confined(m, root) && RestSame(old(m.mem), m.mem, root, phdrs, |phdrs|)
    ensures OthersLower(old(m.own), old(m.mem), m.mem, root)
    ensures AllLower(phdrs) ==> OthersSame(old(m.own), old(m.mem), m.mem, root)
    ensures UntouchedSame(old(m.own), old(m.mem), m.mem, phdrs)
    ensures r != KernelHalted ==> m.current == old(m.current)
    ensures r == KernelHalted ==> m.pmm.Free() == {}
    ensures !signed ==> r == Done(-6)
    ensures signed && |data| < HEADER_SIZE ==> r == Done(-1)
    ensures signed && |data| >= HEADER_SIZE && header.magic != MAGIC ==> r == Done(-2)
    ensures signed && |data| >= HEADER_SIZE && header.magic == MAGIC && header.class64 != 2 ==> r == Done(-3)
    ensures signed && |data| >= HEADER_SIZE && header.magic == MAGIC && header.class64 == 2 && header.machine != 62 ==> r == Done(-4)
    ensures r == Done(0) ==>
              && signed && |data| >= HEADER_SIZE && header == Header(MAGIC, 2, 62)
              && Inside(phdrs, data) && AllNew(old(m.own), m.mem, m.own, root, phdrs, |phdrs|)
    ensures signed && |data| >= HEADER_SIZE && header == Header(MAGIC, 2, 62) && Inside(phdrs, data) ==>
              r == Done(0) || m.pmm.Free() == {}
    ensures r == Done(-5) ==> !Inside(phdrs, data)
    ensures r == Done(0) && NotUser(old(m.mem), root, phdrs) ==>
              (OthersSame(old(m.own), old(m.mem), m.mem, root) <==> !SharedSegment(old(m.own), old(m.mem), root, phdrs))
    ensures r == Done(0) && PageDisjoint(phdrs, |phdrs|) ==>
              Placed(m.mem, m.own, m.bytes, root, phdrs, data, |phdrs|)
  {
    hide Leaf, WellFormed, Private, Placed, PageDisjoint, RestSame, Follows, SameShares, StillOpen, OthersLower, OthersSame, AllLower, AllNew, NotUser, SharedSegment, UntouchedSame, Inside, Phdr.Sane, Pmm.Allocator.Free, Pmm.Allocator.Valid;
    ghost var own0, mem0 := m.own, m.mem;
    Untouched(own0, mem0, root, phdrs);
    r := Validate(signed, header, data);
    if r != Done(0) {
      return;
    }
    RootNonZero(m);
    var saved := m.current;
    m.SetRoot(root);
    r := LoadSegments(m, phdrs, data);
    OthersKeepLower(own0, mem0, m.mem, root);
    RestIsUntouched(own0, mem0, m.mem, root, phdrs);
    if r == Done(0) && NotUser(mem0, root, phdrs) {
      OthersSameExactly(own0, mem0, m.mem, m.own, root, phdrs);
    }
    if AllLower(phdrs) {
      LowerImageIsPrivate(own0, mem0, m.mem, root, phdrs);
    }
    if r != KernelHalted {
      m.SetRoot(saved);
    }
  }

  lemma Untouched(own: Owners, mem: Memory, root: nat, phdrs: seq<Phdr>)
    ensures Follows(own, mem, mem, root) && SameShares(own, mem, mem) && StillOpen(own, mem, mem)
    ensures RestSame(mem, mem, root, phdrs, |phdrs|)
    ensures OthersLower(own, mem, mem, root) && OthersSame(own, mem, mem, root) && UntouchedSame(own, mem, mem, phdrs)
  {
    hide Leaf, Shares;
    NothingMoved(own, mem, root, 0, 0);
  }

  /** The refusals that precede any mapping, in their order. */
  method Validate(signed: bool, header: Header, data: seq<bv8>) returns (r: Result)
    ensures r == Done(0) <==> signed && |data| >= HEADER_SIZE && header == Header(MAGIC, 2, 62)
    ensures !signed ==> r == Done(-6)
    ensures signed && |data| < HEADER_SIZE ==> r == Done(-1)
    ensures signed && |data| >= HEADER_SIZE && header.magic != MAGIC ==> r == Done(-2)
    ensures signed && |data| >= HEADER_SIZE && header.magic == MAGIC && header.class64 != 2 ==> r == Done(-3)
    ensures signed && |data| >= HEADER_SIZE && header.magic == MAGIC && header.class64 == 2 && header.machine != 62 ==> r == Done(-4)
  {
    if !signed {
      return Done(-6);
    }
    if |data| < HEADER_SIZE {
      return Done(-1);
    }
    if header.magic != MAGIC {
      return Done(-2);
    }
    if header.class64 != 2 {
      return Done(-3);
    }
    if header.machine != 62 {
      return Done(-4);
    }
    return Done(0);
  }

  lemma RootNonZero(m: Machine)
    requires m.Valid()
    ensures forall t | t in m.own :: t != 0
  {
  }

  // ---- The image as bytes ----------------------------------------------------------------

  /** `k` bytes from `at` on as a little-endian number. */
  function Le(data: seq<bv8>, at: nat, k: nat): nat
    requires at + k <= |data|
    decreases k
  {
    if k == 0 then 0 else (data[at] as nat) + 256 * Le(data, at + 1, k - 1)
  }

  function HeaderOf(data: seq<bv8>): Header
    requires |data| >= HEADER_SIZE
  {
    Header(Le(data, 0, 4), data[4] as nat, Le(data, 18, 2))
  }

  /** The program header at offset `at`. */
  function PhdrAt(data: seq<bv8>, at: nat): Phdr
    requires at + PHDR_SIZE <= |data|
  {
    Phdr(Le(data, at, 4), Le(data, at + 8, 8), Le(data, at + 16, 8), Le(data, at + 32, 8), Le(data, at + 40, 8))
  }

  /** The table of program headers lies within the image; the loader takes this for granted. */
  predicate TableInside(data: seq<bv8>)
    requires |data| >= HEADER_SIZE
  {
    Le(data, 32, 8) + PHDR_SIZE * Le(data, 56, 2) <= |data|
  }

  function Phdrs(data: seq<bv8>): seq<Phdr>
    requires |data| >= HEADER_SIZE && TableInside(data)
  {
    seq(Le(data, 56, 2), i requires 0 <= i < Le(data, 56, 2) => PhdrAt(data, Le(data, 32, 8) + PHDR_SIZE * i))
  }

  /** The image passes the checks that precede the segments. */
  predicate Accepted(signed: bool, data: seq<bv8>) {
    signed && |data| >= HEADER_SIZE && HeaderOf(data) == Header(MAGIC, 2, 62)
  }

  /** What the loader takes for granted of an accepted image: the table inside it, and no segment
      that wraps around. */
  predicate Readable(data: seq<bv8>)
    requires |data| >= HEADER_SIZE
  {
    TableInside(data) && forall i | 0 <= i < |Phdrs(data)| && Phdrs(data)[i].ptype == PT_LOAD :: Phdrs(data)[i].Sane()
  }

  /** The program headers the loader goes through. */
  function Segments(signed: bool, data: seq<bv8>): seq<Phdr>
    requires Accepted(signed, data) ==> Readable(data)
  {
    if Accepted(signed, data) then Phdrs(data) else []
  }

  /** `elf_load` on the bytes of an image. */
  method LoadImage(m: Machine, root: nat, signed: bool, data: seq<bv8>) returns (r: Result)
    requires m.Valid() && Private(m.mem, m.own)
    requires root in m.own && m.own[root].Root?
    requires Accepted(signed, data) ==> Readable(data)
    modifies m`mem, m`own, m`bytes, m`current, m.pmm`freeMemory, m.pmm.bitmap
    ensures Confined(m, root)
    ensures var phdrs := Segments(signed, data); RestSame(old(m.mem), m.mem, root, phdrs, |phdrs|)
    ensures OthersLower(old(m.own), old(m.mem), m.mem, root)
    ensures AllLower(Segments(signed, data)) ==> OthersSame(old(m.own), old(m.mem), m.mem, root)
    ensures UntouchedSame(old(m.own), old(m.mem), m.mem, Segments(signed, data))
    ensures r != KernelHalted ==> m.current == old(m.current)
    ensures r == KernelHalted ==> m.pmm.Free() == {}
    ensures !signed ==> r == Done(-6)
    ensures signed && |data| < HEADER_SIZE ==> r == Done(-1)
    ensures signed && |data| >= HEADER_SIZE && HeaderOf(data).magic != MAGIC ==> r == Done(-2)
    ensures signed && |data| >= HEADER_SIZE && HeaderOf(data).magic == MAGIC && HeaderOf(data).class64 != 2 ==> r == Done(-3)
    ensures signed && |data| >= HEADER_SIZE && HeaderOf(data).magic == MAGIC && HeaderOf(data).class64 == 2 && HeaderOf(data).machine != 62 ==> r == Done(-4)
    ensures var phdrs := Segments(signed, data);
            r == Done(0) ==>
              Accepted(signed, data) && Inside(phdrs, data) && AllNew(old(m.own), m.mem, m.own, root, phdrs, |phdrs|)
    ensures Accepted(signed, data) && Inside(Segments(signed, data), data) ==> r == Done(0) || m.pmm.Free() == {}
    ensures r == Done(-5) ==> !Inside(Segments(signed, data), data)
    ensures var phdrs := Segments(signed, data);
            r == Done(0) && NotUser(old(m.mem), root, phdrs) ==>
              (OthersSame(old(m.own), old(m.mem), m.mem, root) <==> !SharedSegment(old(m.own), old(m.mem), root, phdrs))
    ensures var phdrs := Segments(signed, data);
            r == Done(0) && PageDisjoint(phdrs, |phdrs|) ==> Placed(m.mem, m.own, m.bytes, root, phdrs, data, |phdrs|)
  {
    hide Leaf, WellFormed, Private, Placed, PageDisjoint, RestSame, Follows, SameShares, StillOpen, OthersLower, OthersSame, AllLower,
      AllNew, NotUser, SharedSegment, UntouchedSame, Inside, Le,
      Phdr.Sane, Pmm.Allocator.Free, Pmm.Allocator.Valid;
    var header := if |data| >= HEADER_SIZE then HeaderOf(data) else Header(0, 0, 0);
    r := Load(m, root, signed, header, Segments(signed, data), data);
  }

  // ---- A segment in the kernel half ------------------------------------------------------

  const UPPER: nat := 0xFFFF_8000_0000_0000

  /** Two PML4s, 1 and 2, with one kernel table in common, and a page, 6, of the first. The common table
      starts a direct map at `UPPER`: it shows frame 2, the second PML4, two pages up. */
  function TwoSpaces(): Memory {
    var link := LinkFlags(false);
    map[1 := Zeros()[256 := Entry(3, link)], 2 := Zeros()[256 := Entry(3, link)],
        3 := Zeros()[0 := Entry(4, link)], 4 := Zeros()[0 := Entry(5, link)], 5 := Zeros()[2 := Entry(2, link)]]
  }

  function TwoOwners(): Owners {
    map[1 := Root, 2 := Root, 3 := Table(Kernel(3), [256]), 4 := Table(Kernel(3), [256, 0]),
        5 := Table(Kernel(3), [256, 0, 0]), 6 := Data(1)]
  }

  lemma TwoSpacesWellFormed()
    ensures WellFormed(TwoSpaces(), TwoOwners()) && Private(TwoSpaces(), TwoOwners())
  {
    hide At, TwoSpaces;
    var mem, own := TwoSpaces(), TwoOwners();
    forall t | t in own && !own[t].Data? ensures t in mem && |mem[t]| == ENTRIES {
      TwoSpacesEntry(t, 0);
    }
    forall t, i | t in own && !own[t].Data? && 0 <= i < ENTRIES && Depth(own, t) < 3 && At(mem, t, i).flags.present
      ensures LinkOk(mem, own, t, i)
    {
      TwoSpacesEntry(t, i);
    }
  }

  lemma TwoSpacesEntry(t: nat, i: nat)
    requires 1 <= t <= 5 && i < ENTRIES
    ensures t in TwoSpaces() && |TwoSpaces()[t]| == ENTRIES
    ensures At(TwoSpaces(), t, i)
         == if t <= 2 && i == 256 then Entry(3, LinkFlags(false))
            else if t == 3 && i == 0 then Entry(4, LinkFlags(false))
            else if t == 4 && i == 0 then Entry(5, LinkFlags(false))
            else if t == 5 && i == 2 then Entry(2, LinkFlags(false))
            else NONE
  {
  }

  lemma UpperIndices()
    ensures Indices(UPPER) == [256, 0, 0, 0] && !LowerHalf(UPPER)
  {
  }

  /** Mapping a user page in the kernel half of one address space makes it appear in the other. */
  lemma UpperPageIsSeen()
    ensures var mem, own, e := TwoSpaces(), TwoOwners(), Entry(6, Flags(true, true, true, false));
            var mem' := Put(mem, 5, 0, e);
            && WellFormed(mem, own) && OnlyPage(own, mem, mem', 1, UPPER, e)
            && Leaf(mem, 2, UPPER) == NONE && Leaf(mem', 2, UPPER) == e
            && !OthersSame(own, mem, mem', 1)
  {
    hide Indices, LowerHalf, WellFormed, Private, Page;
    var mem, own, e := TwoSpaces(), TwoOwners(), Entry(6, Flags(true, true, true, false));
    TwoSpacesWellFormed();
    UpperIndices();
    LastOfFour(mem, 1, 3, 4, 5, Indices(UPPER));
    LastOfFour(mem, 2, 3, 4, 5, Indices(UPPER));
    WalkLast(mem, 2, Indices(UPPER));
    LeafWriteOnlyPage(mem, own, 1, UPPER, e);
    assert Shares(mem, 2, 1, UPPER);
  }

  /** So a loaded segment of one page in the kernel half is read through the other address space,
      which mapped nothing there before. */
  lemma UpperSegmentIsSeen(mem': Memory, own': Owners, bytes: map<nat, seq<bv8>>, data: seq<bv8>)
    requires data != [] && Follows(TwoOwners(), TwoSpaces(), mem', 1)
    requires var ph := Phdr(PT_LOAD, 0, UPPER, 1, 1); LoadedUpTo(mem', own', bytes, 1, ph, data, ph.End())
    ensures Leaf(TwoSpaces(), 2, UPPER) == NONE && Reads(mem', own', bytes, 2, UPPER, data[0])
    ensures !OthersSame(TwoOwners(), TwoSpaces(), mem', 1)
  {
    hide Leaf, Reads, Shares, TwoSpaces;
    var ph := Phdr(PT_LOAD, 0, UPPER, 1, 1);
    assert ph.Start() <= UPPER < ph.End() && Expected(ph, data, UPPER) == data[0];
    assert Reads(mem', own', bytes, 1, UPPER, data[0]);
    TwoSpacesShare();
    SeenByOthers(TwoOwners(), TwoSpaces(), mem', own', bytes, 1, 2, UPPER, data[0]);
    ReadsPresent(mem', own', bytes, 2, UPPER, data[0]);
  }

  lemma TwoSpacesShare()
    ensures Shares(TwoSpaces(), 2, 1, UPPER) && Leaf(TwoSpaces(), 2, UPPER) == NONE
  {
    hide Indices, LowerHalf;
    UpperIndices();
    LastOfFour(TwoSpaces(), 2, 3, 4, 5, Indices(UPPER));
    WalkLast(TwoSpaces(), 2, Indices(UPPER));
  }

  lemma ReadsPresent(mem: Memory, own: Owners, bytes: map<nat, seq<bv8>>, root: nat, w: nat, b: bv8)
    requires Reads(mem, own, bytes, root, w, b)
    ensures Leaf(mem, root, w).flags.present
  {
  }

  lemma SecondUp()
    ensures Indices(UPPER + 2 * PAGE) == [256, 0, 0, 2]
  {
  }

  lemma SecondShown()
    ensures DirectMapped(TwoSpaces(), 1, UPPER, 2) && DirectMapped(TwoSpaces(), 2, UPPER, 2)
    ensures Shares(TwoSpaces(), 2, 1, UPPER + 2 * PAGE)
  {
    hide Indices;
    SecondUp();
    LastOfFour(TwoSpaces(), 1, 3, 4, 5, Indices(UPPER + 2 * PAGE));
    LastOfFour(TwoSpaces(), 2, 3, 4, 5, Indices(UPPER + 2 * PAGE));
    WalkLast(TwoSpaces(), 1, Indices(UPPER + 2 * PAGE));
    WalkLast(TwoSpaces(), 2, Indices(UPPER + 2 * PAGE));
  }

  /** A segment of the first address space placed over the direct map of the second PML4: afterwards
      neither address space shows that PML4 there, but the loaded page. */
  lemma SegmentOverWindow(mem': Memory, own': Owners)
    requires Follows(TwoOwners(), TwoSpaces(), mem', 1)
    requires var phdrs := [Phdr(PT_LOAD, 0, UPPER + 2 * PAGE, 8, 8)];
             RestSame(TwoSpaces(), mem', 1, phdrs, 1) && AllNew(TwoOwners(), mem', own', 1, phdrs, 1)
    ensures DirectMapped(TwoSpaces(), 1, UPPER, 2) && DirectMapped(TwoSpaces(), 2, UPPER, 2)
    ensures !DirectMapped(mem', 1, UPPER, 2) && !DirectMapped(mem', 2, UPPER, 2)
  {
    hide Leaf, Shares, TwoSpaces, DirectMapped, NewPage;
    var phdrs := [Phdr(PT_LOAD, 0, UPPER + 2 * PAGE, 8, 8)];
    var w := UPPER + 2 * PAGE;
    SecondShown();
    TouchedSelf(phdrs[0].Start(), phdrs[0].End(), w);
    assert TouchedBy(phdrs, 1, w);
    WindowKeptIff(TwoOwners(), TwoSpaces(), mem', own', 1, phdrs, UPPER, 2);
    WindowLostByOthers(TwoOwners(), TwoSpaces(), mem', own', 1, UPPER, 2, 2);
  }
}
