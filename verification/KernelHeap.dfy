/** The kernel heap in memory: linked block headers that are split, merged and relinked in
    place. Each operation is proved against HeapSpec. */
module KernelHeap {
  import opened HeapSpec

  const MAGIC_FREE: nat := 0xDEAD_F8EE
  const MAGIC_USED: nat := 0xC0FF_EE42

  /** A block header as it lies in memory; `next` is an address, 0 at the end of the list. */
  datatype Header = Header(magic: nat, free: bool, size: nat, next: nat)

  function NextOf(bs: seq<Block>, i: nat): nat
    requires i < |bs|
  {
    if i + 1 < |bs| then bs[i + 1].addr else 0
  }

  function HeaderOf(bs: seq<Block>, i: nat): Header
    requires i < |bs|
  {
    Header(if bs[i].free then MAGIC_FREE else MAGIC_USED, bs[i].free, bs[i].size, NextOf(bs, i))
  }

  ghost predicate LaidAt(hdr: map<nat, Header>, bs: seq<Block>, i: nat)
    requires i < |bs|
  {
    bs[i].addr in hdr && hdr[bs[i].addr] == HeaderOf(bs, i)
  }

  /** Memory holds the headers of the list, and nothing else that looks like a used block. */
  ghost predicate Laid(hdr: map<nat, Header>, bs: seq<Block>) {
    && (forall i | 0 <= i < |bs| :: LaidAt(hdr, bs, i))
    && (forall a | a in hdr && hdr[a].magic == MAGIC_USED :: exists i :: 0 <= i < |bs| && bs[i].addr == a)
  }

  ghost predicate Ascending(bs: seq<Block>) {
    forall i, j | 0 <= i < j < |bs| :: bs[i].addr < bs[j].addr
  }

  lemma TilesAscend(bs: seq<Block>, base: nat, end: nat)
    requires Tiles(bs, base, end)
    ensures Ascending(bs) && forall i | 0 <= i < |bs| :: base <= bs[i].addr < end
  {
    forall i, j | 0 <= i < j < |bs| ensures bs[i].addr < bs[j].addr {
      TilesOrder(bs, base, end, i, j);
    }
    forall i | 0 <= i < |bs| ensures base <= bs[i].addr < end {
      TilesInside(bs, base, end, i);
    }
  }

  /** The list in which blocks `i..j` are replaced by `mid`. */
  ghost function Spliced(bs: seq<Block>, i: nat, j: nat, mid: seq<Block>): seq<Block>
    requires i <= j <= |bs|
  {
    bs[..i] + mid + bs[j..]
  }

  ghost predicate Absent(mid: seq<Block>, a: nat) {
    forall k | 0 <= k < |mid| :: mid[k].addr != a
  }

  /** Block `k` of `mid` has its header in memory, the last one linked to `after`. */
  ghost predicate LinkedAt(hdr: map<nat, Header>, mid: seq<Block>, k: nat, after: nat)
    requires k < |mid|
  {
    && mid[k].addr in hdr
    && hdr[mid[k].addr] == HeaderOf(mid, k).(next := if k + 1 < |mid| then mid[k + 1].addr else after)
  }

  /** `hdr'` is `hdr` with the headers of `mid` written, the last one linked to `after`. */
  ghost predicate Rewritten(hdr: map<nat, Header>, hdr': map<nat, Header>, mid: seq<Block>, after: nat) {
    && (forall k | 0 <= k < |mid| :: LinkedAt(hdr', mid, k, after))
    && (forall a | a in hdr && Absent(mid, a) :: a in hdr' && hdr'[a] == hdr[a])
    && (forall a | a in hdr' && Absent(mid, a) :: a in hdr)
  }

  lemma SplicedAt(bs: seq<Block>, i: nat, j: nat, mid: seq<Block>)
    requires i <= j <= |bs|
    ensures |Spliced(bs, i, j, mid)| == i + |mid| + |bs| - j
    ensures forall k | 0 <= k < i :: Spliced(bs, i, j, mid)[k] == bs[k]
    ensures forall k | i <= k < i + |mid| :: Spliced(bs, i, j, mid)[k] == mid[k - i]
    ensures forall k | i + |mid| <= k < |Spliced(bs, i, j, mid)| :: Spliced(bs, i, j, mid)[k] == bs[k - i - |mid| + j]
  {
  }

  /** Blocks outside the replaced stretch do not share an address with the new blocks. */
  lemma SplicedAbsent(bs: seq<Block>, i: nat, j: nat, mid: seq<Block>, x: nat)
    requires i <= j <= |bs| && Ascending(Spliced(bs, i, j, mid))
    requires x < |Spliced(bs, i, j, mid)| && !(i <= x < i + |mid|)
    ensures Absent(mid, Spliced(bs, i, j, mid)[x].addr)
  {
    hide Spliced;
    SplicedAt(bs, i, j, mid);
    var bs' := Spliced(bs, i, j, mid);
    forall k | 0 <= k < |mid| ensures mid[k].addr != bs'[x].addr {
      assert bs'[i + k] == mid[k];
    }
  }

  lemma SplicedHeader(hdr: map<nat, Header>, hdr': map<nat, Header>, bs: seq<Block>, i: nat, j: nat, mid: seq<Block>, x: nat)
    requires Laid(hdr, bs) && i < j <= |bs| && mid != [] && mid[0].addr == bs[i].addr
    requires Ascending(Spliced(bs, i, j, mid)) && Rewritten(hdr, hdr', mid, NextOf(bs, j - 1))
    requires x < |Spliced(bs, i, j, mid)|
    ensures LaidAt(hdr', Spliced(bs, i, j, mid), x)
  {
    hide Spliced, Ascending, Absent;
    var bs' := Spliced(bs, i, j, mid);
    SplicedAt(bs, i, j, mid);
    if x < i {
      SplicedAbsent(bs, i, j, mid, x);
      assert LaidAt(hdr, bs, x);
      assert NextOf(bs', x) == NextOf(bs, x);
    } else if x < i + |mid| {
      assert bs'[x] == mid[x - i];
      assert LinkedAt(hdr', mid, x - i, NextOf(bs, j - 1));
      if x + 1 < i + |mid| {
        assert bs'[x + 1] == mid[x - i + 1];
      } else {
        assert NextOf(bs', x) == NextOf(bs, j - 1);
      }
    } else {
      SplicedAbsent(bs, i, j, mid, x);
      assert LaidAt(hdr, bs, x - i - |mid| + j);
      assert NextOf(bs', x) == NextOf(bs, x - i - |mid| + j);
    }
  }

  lemma SplicedUsed(hdr: map<nat, Header>, hdr': map<nat, Header>, bs: seq<Block>, i: nat, j: nat, mid: seq<Block>, a: nat)
    requires Laid(hdr, bs) && i < j <= |bs| && mid != [] && mid[0].addr == bs[i].addr
    requires Rewritten(hdr, hdr', mid, NextOf(bs, j - 1)) && forall k | i < k < j :: bs[k].free
    requires a in hdr' && hdr'[a].magic == MAGIC_USED
    ensures exists x :: 0 <= x < |Spliced(bs, i, j, mid)| && Spliced(bs, i, j, mid)[x].addr == a
  {
    hide Spliced;
    SplicedAt(bs, i, j, mid);
    var bs' := Spliced(bs, i, j, mid);
    if !Absent(mid, a) {
      var k :| 0 <= k < |mid| && mid[k].addr == a;
      assert bs'[i + k].addr == a;
    } else {
      var k :| 0 <= k < |bs| && bs[k].addr == a;
      assert LaidAt(hdr, bs, k);
      if k < i {
        assert bs'[k].addr == a;
      } else {
        assert k >= j;
        assert bs'[k - j + |mid| + i].addr == a;
      }
    }
  }

  /** Rewriting a stretch of the list whose dropped blocks are free lays out the new list. */
  lemma SpliceLaid(hdr: map<nat, Header>, hdr': map<nat, Header>, bs: seq<Block>, i: nat, j: nat, mid: seq<Block>)
    requires Laid(hdr, bs) && i < j <= |bs| && mid != [] && mid[0].addr == bs[i].addr
    requires Ascending(Spliced(bs, i, j, mid)) && Rewritten(hdr, hdr', mid, NextOf(bs, j - 1))
    requires forall k | i < k < j :: bs[k].free
    ensures Laid(hdr', Spliced(bs, i, j, mid))
  {
    hide Spliced, Rewritten, Ascending, HeaderOf;
    var bs' := Spliced(bs, i, j, mid);
    forall x | 0 <= x < |bs'| ensures LaidAt(hdr', bs', x) {
      SplicedHeader(hdr, hdr', bs, i, j, mid, x);
    }
    forall a | a in hdr' && hdr'[a].magic == MAGIC_USED ensures exists x :: 0 <= x < |bs'| && bs'[x].addr == a {
      SplicedUsed(hdr, hdr', bs, i, j, mid, a);
    }
  }

  function HeaderFor(b: Block, next: nat): Header {
    Header(if b.free then MAGIC_FREE else MAGIC_USED, b.free, b.size, next)
  }

  lemma RewriteOne(hdr: map<nat, Header>, b: Block, after: nat)
    ensures Rewritten(hdr, hdr[b.addr := HeaderFor(b, after)], [b], after)
  {
    var mid := [b];
    forall a | Absent(mid, a) ensures a != b.addr {
      assert mid[0].addr != a;
    }
  }

  lemma RewriteTwo(hdr: map<nat, Header>, b: Block, c: Block, after: nat)
    requires b.addr != c.addr
    ensures Rewritten(hdr, hdr[c.addr := HeaderFor(c, after)][b.addr := HeaderFor(b, c.addr)], [b, c], after)
  {
    var mid := [b, c];
    forall a | Absent(mid, a) ensures a != b.addr && a != c.addr {
      assert mid[0].addr != a && mid[1].addr != a;
    }
  }

  lemma LaidHere(hdr: map<nat, Header>, bs: seq<Block>, i: nat)
    requires Laid(hdr, bs) && i < |bs|
    ensures LaidAt(hdr, bs, i)
  {
  }

  /** Marking a block free, merged with its free successor if any, lays out the new list. */
  lemma FreeLaid(hdr: map<nat, Header>, hdr': map<nat, Header>, bs: seq<Block>, i: nat)
    requires Laid(hdr, bs) && i < |bs| && Ascending(FreeAt(bs, i))
    requires hdr' == if Merges(bs, i)
                     then hdr[bs[i].addr := Header(MAGIC_FREE, true, bs[i].size + HEADER + bs[i + 1].size, NextOf(bs, i + 1))]
                     else hdr[bs[i].addr := Header(MAGIC_FREE, true, bs[i].size, NextOf(bs, i))]
    ensures Laid(hdr', FreeAt(bs, i))
  {
    hide Laid, Rewritten, Ascending;
    if Merges(bs, i) {
      var m := Block(bs[i].addr, bs[i].size + HEADER + bs[i + 1].size, true);
      RewriteOne(hdr, m, NextOf(bs, i + 1));
      SpliceLaid(hdr, hdr', bs, i, i + 2, [m]);
    } else {
      var m := bs[i].(free := true);
      RewriteOne(hdr, m, NextOf(bs, i));
      SpliceLaid(hdr, hdr', bs, i, i + 1, [m]);
    }
  }

  /** A used header sits in front of `ptr` exactly when `ptr` is a live allocation. */
  lemma UsedIff(hdr: map<nat, Header>, bs: seq<Block>, ptr: nat)
    requires Laid(hdr, bs) && ptr >= HEADER
    ensures ptr - HEADER in hdr && hdr[ptr - HEADER].magic == MAGIC_USED
       <==> BlockOf(bs, ptr) < |bs| && !bs[BlockOf(bs, ptr)].free
  {
    var i := BlockOf(bs, ptr);
    var blk := ptr - HEADER;
    if i < |bs| {
      assert LaidAt(hdr, bs, i);
    }
    if blk in hdr && hdr[blk].magic == MAGIC_USED {
      var k :| 0 <= k < |bs| && bs[k].addr == blk;
      assert bs[k].Payload() == ptr;
    }
  }

  lemma SmallAddress(h: HeapSpec.Heap, ptr: nat)
    requires ptr < HEADER
    ensures FreeHeap(h, ptr) == h
  {
  }

  /** Block addresses are positive and lie before the end of the heap. */
  lemma BlocksPositive(h: HeapSpec.Heap)
    requires h.Valid()
    ensures forall i | 0 <= i < |h.bs| :: 0 < h.bs[i].addr < h.end
    ensures Ascending(h.bs)
  {
    TilesAscend(h.bs, h.base, h.end);
  }

  /** Appending the new block and linking the old tail to it lays out the grown list. */
  lemma LinkLaid(hdr: map<nat, Header>, hdr': map<nat, Header>, h: HeapSpec.Heap, n: nat)
    requires h.Valid() && h.bs != [] && Laid(hdr, h.bs)
    requires h.end + GrowPages(n) * PAGE <= h.ceiling
    requires var tail := h.bs[|h.bs| - 1].addr;
             && tail in hdr
             && hdr' == hdr[h.end := Header(MAGIC_FREE, true, GrowPages(n) * PAGE - HEADER, 0)][tail := hdr[tail].(next := h.end)]
    ensures Laid(hdr', Grown(h.bs, h.end, n))
    ensures h.(bs := Grown(h.bs, h.end, n), end := h.end + GrowPages(n) * PAGE).Valid()
  {
    hide Tiles, GrowPages, Laid;
    var k := |h.bs| - 1;
    LaidHere(hdr, h.bs, k);
    TilesAscend(h.bs, h.base, h.end);
    GrowKeepsTiles(h.bs, n, h.base, h.end);
    var g := Grown(h.bs, h.end, n);
    TilesAscend(g, h.base, h.end + GrowPages(n) * PAGE);
    var mid := [h.bs[k], g[k + 1]];
    RewriteTwo(hdr, mid[0], mid[1], 0);
    assert g == Spliced(h.bs, k, k + 1, mid);
    SpliceLaid(hdr, hdr', h.bs, k, k + 1, mid);
  }

  class Allocator {
    var hdr: map<nat, Header>
    var head: nat
    const base: nat
    var end: nat
    const ceiling: nat
    ghost var bs: seq<Block>

    ghost function View(): HeapSpec.Heap
      reads this
    {
      HeapSpec.Heap(bs, base, end, ceiling)
    }

    ghost predicate Valid()
      reads this
    {
      && View().Valid() && bs != [] && head == bs[0].addr
      && Laid(hdr, bs)
    }

    /** Maps the initial pages and lays one free block over them; the kernel halts (`granted`
        too small) before this point otherwise. */
    constructor (base: nat, maxSize: nat, initPages: nat)
      requires 0 < base && base % ALIGN == 0 && 0 < initPages && initPages * PAGE <= maxSize
      ensures Valid()
      ensures View() == HeapSpec.Heap([Block(base, initPages * PAGE - HEADER, true)], base, base + initPages * PAGE, base + maxSize)
    {
      this.base := base;
      ceiling := base + maxSize;
      head := base;
      end := base + initPages * PAGE;
      hdr := map[base := Header(MAGIC_FREE, true, initPages * PAGE - HEADER, 0)];
      bs := [Block(base, initPages * PAGE - HEADER, true)];
      new;
      assert LaidAt(hdr, bs, 0);
    }

    /** First-fit walk along the list: the first free block of at least `n` bytes, or 0 together
        with the last block. */
    method Search(n: nat) returns (corrupt: bool, blk: nat, prev: nat)
      requires Valid()
      ensures !corrupt
      ensures var i := FirstFit(bs, n);
              if i < |bs| then blk == bs[i].addr else blk == 0 && prev == bs[|bs| - 1].addr
    {
      hide Tiles;
      TilesAscend(bs, base, end);
      blk, prev := head, 0;
      ghost var i := 0;
      while blk != 0
        invariant i <= |bs| && (if i < |bs| then blk == bs[i].addr else blk == 0)
        invariant i > 0 ==> prev == bs[i - 1].addr
        invariant forall k | 0 <= k < i :: !Fits(bs[k], n)
        decreases |bs| - i
      {
        assert LaidAt(hdr, bs, i);
        var h := hdr[blk];
        if h.magic != MAGIC_FREE && h.magic != MAGIC_USED {
          return true, blk, prev;
        }
        if h.free && h.size >= n {
          return false, blk, prev;
        }
        prev := blk;
        blk := h.next;
        i := i + 1;
      }
      return false, blk, prev;
    }

    /** Splits the block if the rest is large enough, then marks it used. */
    method Take(blk: nat, n: nat, ghost i: nat)
      requires Valid() && i < |bs| && bs[i].addr == blk && Fits(bs[i], n) && n % ALIGN == 0
      modifies this`hdr, this`bs
      ensures Valid() && bs == AllocAt(old(bs), i, n)
    {
      hide Tiles, Laid, Ascending, Rewritten;
      AllocKeepsTiles(bs, i, n, base, end);
      TilesAscend(AllocAt(bs, i, n), base, end);
      LaidHere(hdr, bs, i);
      ghost var hdr0, bs0 := hdr, bs;
      var h := hdr[blk];
      var remainder := h.size - n;
      if remainder > HEADER + ALIGN {
        var split := blk + HEADER + n;
        hdr := hdr[split := Header(MAGIC_FREE, true, remainder - HEADER, h.next)];
        h := Header(h.magic, h.free, n, split);
      }
      hdr := hdr[blk := Header(MAGIC_USED, false, h.size, h.next)];
      ghost var c := Carve(bs0[i], n);
      if |c| == 2 {
        RewriteTwo(hdr0, c[0], c[1], NextOf(bs0, i));
      } else {
        RewriteOne(hdr0, c[0], NextOf(bs0, i));
      }
      bs := AllocAt(bs, i, n);
      assert bs == Spliced(bs0, i, i + 1, Carve(bs0[i], n));
      SpliceLaid(hdr0, hdr, bs0, i, i + 1, Carve(bs0[i], n));
    }

    /** Maps new pages behind the heap and turns them into one free block; fails at the ceiling
        or when fewer than the needed pages are granted. */
    method Grow(n: nat, granted: nat) returns (blk: nat)
      requires Valid()
      modifies this`hdr, this`end
      ensures blk == 0 <==> !CanGrow(old(View()), n, granted)
      ensures blk == 0 ==> Valid() && hdr == old(hdr) && end == old(end)
      ensures blk != 0 ==>
                && blk == old(end) && end == old(end) + GrowPages(n) * PAGE
                && hdr == old(hdr)[blk := Header(MAGIC_FREE, true, GrowPages(n) * PAGE - HEADER, 0)]
    {
      var total := HEADER + n;
      var pages := (total + PAGE - 1) / PAGE;
      var bytes := pages * PAGE;
      EndPositive();
      if end + bytes > ceiling {
        return 0;
      }
      for k := 0 to pages
        invariant k <= granted
      {
        if k >= granted {
          return 0;
        }
      }
      blk := end;
      hdr := hdr[blk := Header(MAGIC_FREE, true, bytes - HEADER, 0)];
      end := end + bytes;
    }

    lemma EndPositive()
      requires Valid()
      ensures end > 0
    {
      TilesInside(bs, base, end, 0);
    }

    /** First fit, else grow once and retry: the retry always succeeds, so it is the last. */
    method Kmalloc(size: nat, granted: nat) returns (ptr: nat)
      requires Valid()
      modifies this`hdr, this`bs, this`end, this`head
      ensures Valid()
      ensures ptr == MallocPtr(old(View()), size, granted)
      ensures View() == MallocHeap(old(View()), size, granted)
      decreases if FirstFit(bs, AlignUp(size)) < |bs| then 0 else 1
    {
      hide Tiles, Laid, Ascending, Carve, GrowPages, AlignUp, Live;
      ptr := 0;
      if size == 0 {
        return;
      }
      var n := AlignUp(size);
      var corrupt, blk, prev := Search(n);
      if corrupt {
        return;
      }
      ghost var i := FirstFit(bs, n);
      if blk != 0 {
        BlocksPositive(View());
        Take(blk, n, i);
        return blk + HEADER;
      }
      BlocksPositive(View());
      ghost var h0 := View();
      var added := Grow(n, granted);
      if added == 0 {
        return 0;
      }
      ghost var hdr1 := hdr;
      GrowThenFits(bs, h0.end, n);
      LaidHere(old(hdr), bs, |bs| - 1);
      hdr := hdr[prev := hdr[prev].(next := added)];
      LinkLaid(old(hdr), hdr, h0, n);
      bs := Grown(bs, h0.end, n);
      ptr := Kmalloc(size, granted);
    }

    /** Frees a live allocation and merges it with a free successor. A null address, double frees
        and addresses without a used header are left alone. */
    method Kfree(ptr: nat)
      requires Valid()
      modifies this`hdr, this`bs
      ensures Valid() && View() == FreeHeap(old(View()), ptr)
    {
      hide Tiles, Ascending, Live, Laid;
      if ptr < HEADER {
        SmallAddress(View(), ptr);
        return;
      }
      var blk := ptr - HEADER;
      ghost var i := BlockOf(bs, ptr);
      UsedIff(hdr, bs, ptr);
      if blk !in hdr || hdr[blk].magic != MAGIC_USED {
        return;
      }
      Release(blk, i);
    }

    /** Marks block `i` free and merges it with its successor if that is free. */
    method Release(blk: nat, ghost i: nat)
      requires Valid() && i < |bs| && bs[i].addr == blk
      modifies this`hdr, this`bs
      ensures Valid() && bs == FreeAt(old(bs), i)
    {
      hide Tiles, Ascending, Live, Laid, BlockOf;
      ghost var hdr0, bs0 := hdr, bs;
      LaidHere(hdr, bs, i);
      FreeKeepsTiles(bs, i, base, end);
      TilesAscend(FreeAt(bs, i), base, end);
      BlocksPositive(View());
      var h := hdr[blk];
      var size, next := h.size, h.next;
      if i + 1 < |bs| {
        LaidHere(hdr, bs, i + 1);
      }
      if next != 0 && hdr[next].free && hdr[next].magic == MAGIC_FREE {
        size := size + HEADER + hdr[next].size;
        next := hdr[next].next;
      }
      hdr := hdr[blk := Header(MAGIC_FREE, true, size, next)];
      FreeLaid(hdr0, hdr, bs0, i);
      bs := FreeAt(bs, i);
    }
  }
}
