/** The physical frame allocator: a bitmap that refines a set of free frames. */
module Pmm {
  import opened Bitmap
  import opened Sets

  const PAGE: nat := 4096

  /** One entry of the boot loader's memory map. */
  datatype Entry = Entry(base: nat, length: nat, usable: bool)

  /** No address computed from the memory map wraps around 64 bits. */
  predicate NoWrap(memmap: seq<Entry>) {
    forall i | 0 <= i < |memmap| :: memmap[i].base + memmap[i].length + PAGE - 1 < 0x1_0000_0000_0000_0000
  }

  /** Frame `f` lies wholly inside a usable entry. */
  predicate Inside(e: Entry, f: nat) {
    e.usable && e.base <= f * PAGE && (f + 1) * PAGE <= e.base + e.length
  }

  /** Frame `f` lies wholly inside one of the first `k` entries. */
  predicate Covered(memmap: seq<Entry>, k: nat, f: nat)
    requires k <= |memmap|
  {
    k > 0 && (Covered(memmap, k - 1, f) || Inside(memmap[k - 1], f))
  }

  lemma {:induction false} CoveredIff(memmap: seq<Entry>, k: nat, f: nat)
    requires k <= |memmap|
    ensures Covered(memmap, k, f) <==> exists i :: 0 <= i < k && Inside(memmap[i], f)
    decreases k
  {
    if k > 0 {
      CoveredIff(memmap, k - 1, f);
    }
  }

  /** The highest end of a usable entry among the first `k`. */
  function UsableEnd(memmap: seq<Entry>, k: nat): nat
    requires k <= |memmap|
  {
    if k == 0 then 0
    else
      var e := memmap[k - 1];
      var rest := UsableEnd(memmap, k - 1);
      if e.usable && e.base + e.length > rest then e.base + e.length else rest
  }

  lemma {:induction false} UsableEndBounds(memmap: seq<Entry>, k: nat, i: nat)
    requires i < k <= |memmap| && memmap[i].usable
    ensures memmap[i].base + memmap[i].length <= UsableEnd(memmap, k)
    decreases k
  {
    if i < k - 1 {
      UsableEndBounds(memmap, k - 1, i);
    }
  }

  /** Subtraction that stops at zero. */
  function Monus(a: nat, b: nat): nat {
    if a >= b then a - b else 0
  }

  function AlignUp(a: nat): nat {
    (a + PAGE - 1) / PAGE * PAGE
  }

  /** The bitmap fits into this entry from its first page boundary on. */
  predicate Holds(e: Entry, size: nat) {
    e.usable && AlignUp(e.base) + size <= e.base + e.length
  }

  /** Frame `f` shares a byte with the region `[at, at + size)`. */
  predicate Overlaps(f: nat, at: nat, size: nat) {
    f * PAGE < at + size && at < (f + 1) * PAGE
  }

  /** A byte of all ones holds no free frame. */
  lemma ByteRange(bm: seq<bv8>, n: nat, i: nat)
    requires n <= 8 * |bm| && i < |bm| && bm[i] == 0xFF
    ensures forall f | f in FreeFrames(bm, n) && f >= 8 * i :: f >= 8 * (i + 1)
  {
    ClearBitExists(bm[i]);
    forall f | f in FreeFrames(bm, n) && f >= 8 * i ensures f >= 8 * (i + 1) {
      assert IsFree(bm, f);
    }
  }

  class Allocator {
    const bitmap: array<bv8>
    const totalFrames: nat
    const bitmapAddr: nat
    var freeMemory: nat

    ghost function Free(): set<nat>
      requires bitmap.Length == Bytes(totalFrames)
      reads this, bitmap
    {
      FreeFrames(bitmap[..], totalFrames)
    }

    ghost predicate Valid()
      reads this, bitmap
    {
      && bitmap.Length == Bytes(totalFrames)
      && 0 !in Free()
      && freeMemory == PAGE * |Free()|
    }

    constructor (bitmap: array<bv8>, totalFrames: nat, bitmapAddr: nat, freeMemory: nat)
      ensures this.bitmap == bitmap && this.totalFrames == totalFrames
      ensures this.bitmapAddr == bitmapAddr && this.freeMemory == freeMemory
    {
      this.bitmap := bitmap;
      this.totalFrames := totalFrames;
      this.bitmapAddr := bitmapAddr;
      this.freeMemory := freeMemory;
    }

    method TakeFrame(f: nat)
      requires Valid() && f in Free()
      modifies this`freeMemory, bitmap
      ensures Valid() && Free() == old(Free()) - {f} && freeMemory == old(freeMemory) - PAGE
    {
      hide Mask, Test;
      ghost var before := Free();
      MarkUsed(bitmap, f);
      assert Free() == before - {f};
      freeMemory := Monus(freeMemory, PAGE);
    }

    /** Scans the bitmap byte by byte for the least free frame; -1 means that none is free. */
    method LeastFree() returns (r: int)
      requires Valid()
      ensures r == -1 <==> Free() == {}
      ensures r != -1 ==> r in Free() && forall f | f in Free() :: r <= f
    {
      hide Mask, Range;
      for i := 0 to bitmap.Length
        invariant forall f | f in Free() :: f >= 8 * i
      {
        if bitmap[i] == 0xFF {
          ByteRange(bitmap[..], totalFrames, i);
        } else {
          for bit := 0 to 8
            invariant forall f | f in Free() :: f >= 8 * i + bit
          {
            var f := i * 8 + bit;
            if f >= totalFrames {
              return -1;
            }
            if bitmap[i] & Mask(bit) == 0 {
              assert IsFree(bitmap[..], f);
              return f;
            }
            assert !IsFree(bitmap[..], f);
          }
        }
      }
      return -1;
    }

    /** Hands out the least free frame; address 0 means that none is free. */
    method AllocFrame() returns (addr: nat)
      requires Valid()
      modifies this`freeMemory, bitmap
      ensures Valid()
      ensures addr == 0 <==> old(Free()) == {}
      ensures addr == 0 ==> Free() == {} && freeMemory == old(freeMemory)
      ensures addr != 0 ==>
                && addr % PAGE == 0 && 0 < addr / PAGE < totalFrames && addr / PAGE in old(Free())
                && (forall f | f in old(Free()) :: addr / PAGE <= f)
                && Free() == old(Free()) - {addr / PAGE}
                && freeMemory == old(freeMemory) - PAGE
    {
      var f := LeastFree();
      if f == -1 {
        return 0;
      }
      TakeFrame(f);
      addr := f * PAGE;
      assert addr / PAGE == f && addr % PAGE == 0;
    }

    /** Gives a frame back; refuses (the kernel halts) unless the address is the start of a
        tracked frame that is in use. */
    method FreeFrame(addr: nat) returns (ok: bool)
      requires Valid()
      modifies this`freeMemory, bitmap
      ensures ok <==> addr % PAGE == 0 && addr / PAGE < totalFrames && addr / PAGE !in old(Free())
      ensures !ok ==> Valid() && Free() == old(Free()) && freeMemory == old(freeMemory)
      ensures ok ==> Free() == old(Free()) + {addr / PAGE} && freeMemory == old(freeMemory) + PAGE
      ensures Valid() <==> addr != 0 || !ok
    {
      hide Free;
      if addr % PAGE != 0 {
        return false;
      }
      var f := addr / PAGE;
      if f >= totalFrames {
        return false;
      }
      var free := IsClear(f);
      if free {
        return false;
      }
      GiveFrame(f);
      return true;
    }

    /** Whether the bit of frame `f` is clear. */
    method IsClear(f: nat) returns (free: bool)
      requires Valid() && f < totalFrames
      ensures free <==> f in Free()
    {
      free := bitmap[f / 8] & Mask(f % 8) == 0;
      assert free <==> IsFree(bitmap[..], f);
    }

    method GiveFrame(f: nat)
      requires Valid() && f < totalFrames && f !in Free()
      modifies this`freeMemory, bitmap
      ensures Free() == old(Free()) + {f} && freeMemory == old(freeMemory) + PAGE
      ensures Valid() <==> f != 0
    {
      hide Mask, Test;
      ghost var before := Free();
      MarkFree(bitmap, f);
      assert Free() == before + {f};
      freeMemory := freeMemory + PAGE;
    }
  }

  /** Freeing address 0 is accepted by every allocator that tracks a frame, and makes allocatable the
      frame whose address stands for failure. */
  method FreeZero(a: Allocator) returns (ok: bool)
    requires a.Valid()
    modifies a`freeMemory, a.bitmap
    ensures ok <==> a.totalFrames > 0
    ensures ok ==> !a.Valid() && 0 in a.Free()
    ensures !ok ==> a.Valid()
  {
    ok := a.FreeFrame(0);
  }

  method FindEnd(memmap: seq<Entry>) returns (end: nat)
    ensures end == UsableEnd(memmap, |memmap|)
  {
    end := 0;
    for i := 0 to |memmap|
      invariant end == UsableEnd(memmap, i)
    {
      if memmap[i].usable && memmap[i].base + memmap[i].length > end {
        end := memmap[i].base + memmap[i].length;
      }
    }
  }

  /** The first usable entry that can hold the bitmap. */
  method PlaceBitmap(memmap: seq<Entry>, size: nat) returns (placed: bool, at: nat)
    ensures placed <==> exists i :: 0 <= i < |memmap| && Holds(memmap[i], size)
    ensures placed ==> at % PAGE == 0 && exists i :: 0 <= i < |memmap| && Holds(memmap[i], size) && at == AlignUp(memmap[i].base)
  {
    for i := 0 to |memmap|
      invariant forall k | 0 <= k < i :: !Holds(memmap[k], size)
    {
      var e := memmap[i];
      if e.usable {
        var aligned := AlignUp(e.base);
        if e.base + e.length >= aligned && e.base + e.length - aligned >= size {
          assert Holds(memmap[i], size);
          return true, aligned;
        }
      }
    }
    return false, 0;
  }

  lemma AllUsed(bm: seq<bv8>, n: nat)
    requires n <= 8 * |bm| && forall i | 0 <= i < |bm| :: bm[i] == 0xFF
    ensures forall f: nat | f < n :: !IsFree(bm, f)
  {
  }

  /** Clears the bit of every frame that lies wholly inside a usable entry. */
  method MarkUsable(memmap: seq<Entry>, a: array<bv8>, total: nat)
    requires a.Length == Bytes(total)
    requires forall f: nat | f < total :: !IsFree(a[..], f)
    modifies a
    ensures forall f: nat | f < total :: IsFree(a[..], f) <==> Covered(memmap, |memmap|, f)
  {
    for i := 0 to |memmap|
      invariant forall f: nat | f < total :: IsFree(a[..], f) <==> Covered(memmap, i, f)
    {
      var e := memmap[i];
      if e.usable {
        var first := (e.base + PAGE - 1) / PAGE;
        var last := (e.base + e.length) / PAGE;
        var f := first;
        while f < last
          invariant first <= f && (f <= last || f == first)
          invariant forall h: nat | h < total ::
                      IsFree(a[..], h) <==> Covered(memmap, i, h) || (Inside(e, h) && h < f)
          decreases last - f
        {
          if f < total {
            MarkFree(a, f);
          }
          f := f + 1;
        }
        assert forall h: nat :: Inside(e, h) ==> h < last;
      }
      assert forall h: nat :: Covered(memmap, i + 1, h) <==> Covered(memmap, i, h) || Inside(e, h);
    }
  }

  method MarkRegionUsed(a: array<bv8>, total: nat, at: nat, size: nat)
    requires a.Length == Bytes(total) && at % PAGE == 0
    modifies a
    ensures forall f: nat | f < total ::
              IsFree(a[..], f) <==> old(IsFree(a[..], f)) && !Overlaps(f, at, size)
  {
    var first := at / PAGE;
    var last := (at + size + PAGE - 1) / PAGE;
    for f := first to last
      invariant forall h: nat | h < total ::
                  IsFree(a[..], h) <==> old(IsFree(a[..], h)) && !(first <= h < f)
    {
      if f < total {
        MarkUsed(a, f);
      }
    }
    assert forall h: nat :: Overlaps(h, at, size) <==> first <= h < last && size > 0;
    assert size == 0 ==> first == last;
  }

  lemma CountStep(bm: seq<bv8>, f: nat)
    requires f < 8 * |bm|
    ensures |FreeFrames(bm, f + 1)| == |FreeFrames(bm, f)| + (if IsFree(bm, f) then 1 else 0)
  {
    hide IsFree, Range;
    if IsFree(bm, f) {
      assert FreeFrames(bm, f + 1) == FreeFrames(bm, f) + {f};
    } else {
      assert FreeFrames(bm, f + 1) == FreeFrames(bm, f);
    }
  }

  method CountFree(a: array<bv8>, total: nat) returns (n: nat)
    requires a.Length == Bytes(total)
    ensures n == |FreeFrames(a[..], total)|
  {
    hide Mask, Range, FreeFrames;
    n := 0;
    assert FreeFrames(a[..], 0) == {};
    for f := 0 to total
      invariant n == |FreeFrames(a[..], f)|
    {
      CountStep(a[..], f);
      if a[f / 8] & Mask(f % 8) == 0 {
        n := n + 1;
      }
    }
  }

  /** Builds the allocator from the memory map; `null` stands for the two kernel panics. */
  method Init(memmap: seq<Entry>) returns (p: Allocator?)
    requires NoWrap(memmap)
    requires UsableEnd(memmap, |memmap|) == 0 || UsableEnd(memmap, |memmap|) >= PAGE
    ensures p == null <==>
              var end := UsableEnd(memmap, |memmap|);
              end == 0 || !exists i :: 0 <= i < |memmap| && Holds(memmap[i], Bytes(end / PAGE))
    ensures p != null ==> fresh(p) && fresh(p.bitmap) && p.Valid()
    ensures p != null ==> p.totalFrames == UsableEnd(memmap, |memmap|) / PAGE
    ensures p != null ==>
              exists i :: 0 <= i < |memmap| && Holds(memmap[i], p.bitmap.Length) && p.bitmapAddr == AlignUp(memmap[i].base)
    ensures p != null ==>
              forall f: nat :: f in p.Free() <==>
                && f != 0
                && (exists i :: 0 <= i < |memmap| && Inside(memmap[i], f))
                && !Overlaps(f, p.bitmapAddr, p.bitmap.Length)
  {
    hide Covered, UsableEnd, Inside, Holds, Overlaps, Mask, NoWrap, AlignUp, Range;
    var end := FindEnd(memmap);
    if end == 0 {
      return null;
    }
    var total := end / PAGE;
    var size := Bytes(total);
    var placed, at := PlaceBitmap(memmap, size);
    if !placed {
      return null;
    }
    var bitmap := new bv8[size](_ => 0xFF);
    AllUsed(bitmap[..], total);
    MarkUsable(memmap, bitmap, total);
    MarkRegionUsed(bitmap, total, at, size);
    MarkUsed(bitmap, 0);
    var n := CountFree(bitmap, total);
    p := new Allocator(bitmap, total, at, n * PAGE);
    CoveredFrames(memmap);
    forall f: nat
      ensures f in p.Free() <==> f != 0 && Covered(memmap, |memmap|, f) && !Overlaps(f, at, size)
    {
      if f < total {
        assert IsFree(bitmap[..], f) <==> f != 0 && Covered(memmap, |memmap|, f) && !Overlaps(f, at, size);
      }
    }
  }

  /** The covered frames, without the recursion, and all below the highest usable address. */
  lemma CoveredFrames(memmap: seq<Entry>)
    ensures forall f: nat :: Covered(memmap, |memmap|, f) <==> exists i :: 0 <= i < |memmap| && Inside(memmap[i], f)
    ensures forall f: nat | Covered(memmap, |memmap|, f) :: f < UsableEnd(memmap, |memmap|) / PAGE
  {
    forall f: nat
      ensures Covered(memmap, |memmap|, f) <==> exists i :: 0 <= i < |memmap| && Inside(memmap[i], f)
      ensures Covered(memmap, |memmap|, f) ==> f < UsableEnd(memmap, |memmap|) / PAGE
    {
      CoveredIff(memmap, |memmap|, f);
      if Covered(memmap, |memmap|, f) {
        var i :| 0 <= i < |memmap| && Inside(memmap[i], f);
        UsableEndBounds(memmap, |memmap|, i);
      }
    }
  }
}
