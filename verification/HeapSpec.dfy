/** The kernel heap over values: a list of blocks that tiles the mapped region, first-fit
    allocation with splitting, freeing with forward coalescing, and growth by whole pages. */
module HeapSpec {

  const HEADER: nat := 32
  const ALIGN: nat := 16
  const PAGE: nat := 4096

  /** A block: its header sits at `addr` and `size` usable bytes follow it. */
  datatype Block = Block(addr: nat, size: nat, free: bool) {
    function End(): nat { addr + HEADER + size }
    function Payload(): nat { addr + HEADER }
  }

  function AlignUp(n: nat): (r: nat)
    ensures r % ALIGN == 0 && n <= r < n + ALIGN
  {
    (n + ALIGN - 1) / ALIGN * ALIGN
  }

  /** Consecutive blocks touch, sizes are multiples of 16, and together they fill `[base, end)`. */
  ghost predicate Tiles(bs: seq<Block>, base: nat, end: nat) {
    if bs == [] then base == end
    else bs[0].addr == base && bs[0].size % ALIGN == 0 && Tiles(bs[1..], bs[0].End(), end)
  }

  lemma {:induction false} TilesAppend(bs: seq<Block>, cs: seq<Block>, base: nat, mid: nat, end: nat)
    requires Tiles(bs, base, mid) && Tiles(cs, mid, end)
    ensures Tiles(bs + cs, base, end)
  {
    if bs == [] {
      assert bs + cs == cs;
    } else {
      TilesAppend(bs[1..], cs, bs[0].End(), mid, end);
      assert (bs + cs)[1..] == bs[1..] + cs;
    }
  }

  /** The address where block `i` must start. */
  ghost function CutAt(bs: seq<Block>, base: nat, i: nat): nat
    requires i <= |bs|
  {
    if i == 0 then base else bs[i - 1].End()
  }

  lemma {:induction false} TilesSplit(bs: seq<Block>, i: nat, base: nat, end: nat)
    requires Tiles(bs, base, end) && i <= |bs|
    ensures Tiles(bs[..i], base, CutAt(bs, base, i)) && Tiles(bs[i..], CutAt(bs, base, i), end)
    ensures i < |bs| ==> bs[i].addr == CutAt(bs, base, i) && bs[i].size % ALIGN == 0
  {
    if i == 0 {
      assert bs[0..] == bs;
    } else {
      TilesSplit(bs[1..], i - 1, bs[0].End(), end);
      assert bs[..i][1..] == bs[1..][..i - 1];
      assert bs[1..][i - 1..] == bs[i..];
    }
  }

  /** Replacing one block by blocks that fill the same space keeps the tiling. */
  lemma TilesReplace(bs: seq<Block>, i: nat, n: nat, mid: seq<Block>, base: nat, end: nat)
    requires Tiles(bs, base, end) && i < n <= |bs|
    requires Tiles(mid, bs[i].addr, bs[n - 1].End())
    ensures Tiles(bs[..i] + mid + bs[n..], base, end)
  {
    hide Tiles;
    TilesSplit(bs, i, base, end);
    TilesSplit(bs, n, base, end);
    TilesAppend(bs[..i], mid, base, bs[i].addr, bs[n - 1].End());
    TilesAppend(bs[..i] + mid, bs[n..], base, bs[n - 1].End(), end);
  }

  /** In a tiling, an earlier block ends at or before the start of any later one, everything is
      16-aligned and lies inside the region. */
  lemma {:induction false} TilesOrder(bs: seq<Block>, base: nat, end: nat, i: nat, j: nat)
    requires Tiles(bs, base, end) && i < j < |bs|
    ensures base <= bs[i].addr && bs[i].End() <= bs[j].addr && bs[j].End() <= end
  {
    if i == 0 {
      TilesInside(bs[1..], bs[0].End(), end, j - 1);
    } else {
      TilesOrder(bs[1..], bs[0].End(), end, i - 1, j - 1);
    }
  }

  lemma {:induction false} TilesInside(bs: seq<Block>, base: nat, end: nat, i: nat)
    requires Tiles(bs, base, end) && i < |bs|
    ensures base <= bs[i].addr && bs[i].End() <= end && bs[i].size % ALIGN == 0
    ensures base % ALIGN == 0 ==> bs[i].addr % ALIGN == 0 && bs[i].Payload() % ALIGN == 0
  {
    if i > 0 {
      TilesInside(bs[1..], bs[0].End(), end, i - 1);
    } else if |bs| > 1 {
      TilesInside(bs[1..], bs[0].End(), end, 0);
    }
  }

  /** Total bytes of headers and payloads. */
  ghost function Total(bs: seq<Block>): nat {
    if bs == [] then 0 else HEADER + bs[0].size + Total(bs[1..])
  }

  /** Headers and payloads sum to the mapped size. */
  lemma {:induction false} Conservation(bs: seq<Block>, base: nat, end: nat)
    requires Tiles(bs, base, end)
    ensures base + Total(bs) == end
  {
    if bs != [] {
      Conservation(bs[1..], bs[0].End(), end);
    }
  }

  // ---- Operations ------------------------------------------------------------------------

  predicate Fits(b: Block, n: nat) {
    b.free && b.size >= n
  }

  /** Index of the lowest-address free block of at least `n` bytes, or `|bs|`. */
  function FirstFit(bs: seq<Block>, n: nat): (i: nat)
    ensures i <= |bs|
    ensures i < |bs| ==> Fits(bs[i], n)
    ensures forall k | 0 <= k < i :: !Fits(bs[k], n)
  {
    if bs == [] then 0
    else if Fits(bs[0], n) then 0
    else 1 + FirstFit(bs[1..], n)
  }

  /** A block cut for `n` bytes: split when the rest can hold a header and more than 16 bytes. */
  function Carve(b: Block, n: nat): seq<Block>
    requires b.size >= n
  {
    if b.size - n > HEADER + ALIGN then
      [Block(b.addr, n, false), Block(b.addr + HEADER + n, b.size - n - HEADER, true)]
    else
      [b.(free := false)]
  }

  function AllocAt(bs: seq<Block>, i: nat, n: nat): seq<Block>
    requires i < |bs| && bs[i].size >= n
  {
    bs[..i] + Carve(bs[i], n) + bs[i + 1..]
  }

  predicate Merges(bs: seq<Block>, i: nat) {
    i + 1 < |bs| && bs[i + 1].free
  }

  function FreeAt(bs: seq<Block>, i: nat): seq<Block>
    requires i < |bs|
  {
    if Merges(bs, i) then
      bs[..i] + [Block(bs[i].addr, bs[i].size + HEADER + bs[i + 1].size, true)] + bs[i + 2..]
    else
      bs[..i] + [bs[i].(free := true)] + bs[i + 1..]
  }

  /** Pages needed for a new block of `n` usable bytes. */
  function GrowPages(n: nat): nat {
    (HEADER + n + PAGE - 1) / PAGE
  }

  function Grown(bs: seq<Block>, end: nat, n: nat): seq<Block> {
    bs + [Block(end, GrowPages(n) * PAGE - HEADER, true)]
  }

  // ---- Every operation keeps the tiling --------------------------------------------------

  lemma AllocKeepsTiles(bs: seq<Block>, i: nat, n: nat, base: nat, end: nat)
    requires Tiles(bs, base, end) && i < |bs| && bs[i].size >= n && n % ALIGN == 0
    ensures Tiles(AllocAt(bs, i, n), base, end)
  {
    TilesInside(bs, base, end, i);
    var mid := Carve(bs[i], n);
    assert Tiles(mid, bs[i].addr, bs[i].End()) by {
      if |mid| == 2 {
        assert mid[1..] == [mid[1]];
        assert Tiles(mid[1..], mid[1].addr, mid[1].End());
      }
    }
    TilesReplace(bs, i, i + 1, mid, base, end);
  }

  lemma MergeKeepsTiles(bs: seq<Block>, i: nat, base: nat, end: nat)
    requires Tiles(bs, base, end) && i + 1 < |bs|
    ensures Tiles(bs[..i] + [Block(bs[i].addr, bs[i].size + HEADER + bs[i + 1].size, true)] + bs[i + 2..], base, end)
  {
    hide Tiles;
    TilesInside(bs, base, end, i);
    TilesInside(bs, base, end, i + 1);
    TilesMeet(bs, i, base, end);
    var m := Block(bs[i].addr, bs[i].size + HEADER + bs[i + 1].size, true);
    SumAligned(bs[i].size, bs[i + 1].size);
    TilesOne(m);
    TilesReplace(bs, i, i + 2, [m], base, end);
  }

  lemma TilesOne(b: Block)
    requires b.size % ALIGN == 0
    ensures Tiles([b], b.addr, b.End())
  {
  }

  lemma SumAligned(a: nat, b: nat)
    requires a % ALIGN == 0 && b % ALIGN == 0
    ensures (a + HEADER + b) % ALIGN == 0
  {
  }

  /** Neighbours in the list are neighbours in memory. */
  lemma TilesMeet(bs: seq<Block>, i: nat, base: nat, end: nat)
    requires Tiles(bs, base, end) && i + 1 < |bs|
    ensures bs[i + 1].addr == bs[i].End()
  {
    hide Tiles;
    TilesSplit(bs, i + 1, base, end);
  }

  lemma FreeKeepsTiles(bs: seq<Block>, i: nat, base: nat, end: nat)
    requires Tiles(bs, base, end) && i < |bs|
    ensures Tiles(FreeAt(bs, i), base, end)
  {
    hide Tiles;
    TilesInside(bs, base, end, i);
    if Merges(bs, i) {
      MergeKeepsTiles(bs, i, base, end);
    } else {
      var m := bs[i].(free := true);
      TilesOne(m);
      TilesReplace(bs, i, i + 1, [m], base, end);
    }
  }

  lemma GrowKeepsTiles(bs: seq<Block>, n: nat, base: nat, end: nat)
    requires Tiles(bs, base, end)
    ensures GrowPages(n) * PAGE >= HEADER + n
    ensures Tiles(Grown(bs, end, n), base, end + GrowPages(n) * PAGE)
  {
    var b := Block(end, GrowPages(n) * PAGE - HEADER, true);
    assert Tiles([b], end, end + GrowPages(n) * PAGE);
    TilesAppend(bs, [b], base, end, end + GrowPages(n) * PAGE);
  }

  /** After growing for a request that fitted nowhere, first fit finds exactly the new block. */
  lemma {:induction false} GrowThenFits(bs: seq<Block>, end: nat, n: nat)
    requires FirstFit(bs, n) == |bs|
    ensures FirstFit(Grown(bs, end, n), n) == |bs|
  {
    var g := Grown(bs, end, n);
    assert Fits(g[|bs|], n);
    forall k | 0 <= k < |bs| ensures !Fits(g[k], n) {
      assert g[k] == bs[k];
    }
  }

  // ---- Live allocations ------------------------------------------------------------------

  /** The live allocations, as the blocks that hold them. */
  ghost function Live(bs: seq<Block>): set<Block> {
    set i | 0 <= i < |bs| && !bs[i].free :: bs[i]
  }

  lemma InLive(bs: seq<Block>, i: nat)
    requires i < |bs|
    ensures !bs[i].free ==> bs[i] in Live(bs)
  {
  }

  lemma LiveAppend(bs: seq<Block>, cs: seq<Block>)
    ensures Live(bs + cs) == Live(bs) + Live(cs)
  {
    forall b | b in Live(bs) ensures b in Live(bs + cs) {
      var i :| 0 <= i < |bs| && bs[i] == b;
      assert (bs + cs)[i] == b;
    }
    forall b | b in Live(cs) ensures b in Live(bs + cs) {
      var i :| 0 <= i < |cs| && cs[i] == b;
      assert (bs + cs)[|bs| + i] == b;
    }
  }

  lemma LiveThree(bs: seq<Block>, mid: seq<Block>, cs: seq<Block>)
    ensures Live(bs + mid + cs) == Live(bs) + Live(mid) + Live(cs)
  {
    LiveAppend(bs + mid, cs);
    LiveAppend(bs, mid);
  }

  /** Allocation adds one live block, of at least `n` and at most `n + 48` bytes, and touches no
      other. */
  lemma AllocLive(bs: seq<Block>, i: nat, n: nat)
    requires i < |bs| && Fits(bs[i], n)
    ensures AllocAt(bs, i, n)[i].addr == bs[i].addr && !AllocAt(bs, i, n)[i].free
    ensures n <= AllocAt(bs, i, n)[i].size <= n + HEADER + ALIGN
    ensures AllocAt(bs, i, n)[i].size == if bs[i].size - n > 48 then n else bs[i].size
    ensures Live(AllocAt(bs, i, n)) == Live(bs) + {AllocAt(bs, i, n)[i]}
  {
    var mid := Carve(bs[i], n);
    LiveThree(bs[..i], mid, bs[i + 1..]);
    LiveThree(bs[..i], [bs[i]], bs[i + 1..]);
    assert bs == bs[..i] + [bs[i]] + bs[i + 1..];
    assert Live([bs[i]]) == {};
    assert Live(mid) == {mid[0]};
  }

  /** Freeing removes exactly one live block. */
  lemma FreeLive(bs: seq<Block>, i: nat, base: nat, end: nat)
    requires Tiles(bs, base, end) && i < |bs| && !bs[i].free
    ensures Live(FreeAt(bs, i)) == Live(bs) - {bs[i]}
  {
    hide Tiles;
    LiveThree(bs[..i], [bs[i]], bs[i + 1..]);
    assert bs == bs[..i] + [bs[i]] + bs[i + 1..];
    assert Live([bs[i]]) == {bs[i]};
    forall k | 0 <= k < |bs| && k != i ensures bs[k] != bs[i] {
      if k < i { TilesOrder(bs, base, end, k, i); } else { TilesOrder(bs, base, end, i, k); }
    }
    if Merges(bs, i) {
      var m := Block(bs[i].addr, bs[i].size + HEADER + bs[i + 1].size, true);
      LiveThree(bs[..i], [m], bs[i + 2..]);
      assert bs[i + 1..] == [bs[i + 1]] + bs[i + 2..];
      LiveAppend([bs[i + 1]], bs[i + 2..]);
      assert Live([m]) == {} && Live([bs[i + 1]]) == {};
    } else {
      LiveThree(bs[..i], [bs[i].(free := true)], bs[i + 1..]);
      assert Live([bs[i].(free := true)]) == {};
    }
  }

  /** Live allocations are 16-aligned, inside the heap and pairwise disjoint, headers included. */
  lemma LiveDisjoint(bs: seq<Block>, base: nat, end: nat, b: Block, c: Block)
    requires Tiles(bs, base, end) && base % ALIGN == 0 && b in Live(bs) && c in Live(bs)
    ensures b.Payload() % ALIGN == 0 && base <= b.addr && b.End() <= end
    ensures b != c ==> b.End() <= c.addr || c.End() <= b.addr
  {
    var i :| 0 <= i < |bs| && bs[i] == b;
    var j :| 0 <= j < |bs| && bs[j] == c;
    TilesInside(bs, base, end, i);
    if i < j {
      TilesOrder(bs, base, end, i, j);
    } else if j < i {
      TilesOrder(bs, base, end, j, i);
    }
  }

  // ---- Runs ------------------------------------------------------------------------------

  /** The list and the mapped region `[base, end)` below `ceiling`. */
  datatype Heap = Heap(bs: seq<Block>, base: nat, end: nat, ceiling: nat) {
    ghost predicate Valid() {
      Tiles(bs, base, end) && base % ALIGN == 0 && 0 < base && end <= ceiling
    }
  }

  /** A request; `granted` is the number of pages the page allocator can supply at that moment. */
  datatype Op = Malloc(size: nat, granted: nat) | Free(ptr: nat)

  /** Growth is refused at the ceiling or when the page allocator runs dry. */
  predicate CanGrow(h: Heap, n: nat, granted: nat) {
    h.end + GrowPages(n) * PAGE <= h.ceiling && GrowPages(n) <= granted
  }

  function MallocHeap(h: Heap, size: nat, granted: nat): Heap {
    var n := AlignUp(size);
    if size == 0 then h
    else if FirstFit(h.bs, n) < |h.bs| then h.(bs := AllocAt(h.bs, FirstFit(h.bs, n), n))
    else if CanGrow(h, n, granted) then
      h.(bs := AllocAt(Grown(h.bs, h.end, n), |h.bs|, n), end := h.end + GrowPages(n) * PAGE)
    else h
  }

  function MallocPtr(h: Heap, size: nat, granted: nat): nat {
    var n := AlignUp(size);
    if size == 0 then 0
    else if FirstFit(h.bs, n) < |h.bs| then h.bs[FirstFit(h.bs, n)].Payload()
    else if CanGrow(h, n, granted) then h.end + HEADER
    else 0
  }

  /** Index of the block whose payload starts at `ptr`, or `|bs|`. */
  function BlockOf(bs: seq<Block>, ptr: nat): (i: nat)
    ensures i <= |bs|
    ensures i < |bs| ==> bs[i].Payload() == ptr
    ensures forall k | 0 <= k < i :: bs[k].Payload() != ptr
  {
    if bs == [] then 0
    else if bs[0].Payload() == ptr then 0
    else 1 + BlockOf(bs[1..], ptr)
  }

  /** A null address, a double free and an address that is no block's are ignored. */
  function FreeHeap(h: Heap, ptr: nat): Heap {
    var i := BlockOf(h.bs, ptr);
    if ptr != 0 && i < |h.bs| && !h.bs[i].free then h.(bs := FreeAt(h.bs, i)) else h
  }

  function Step(h: Heap, op: Op): Heap {
    match op
    case Malloc(size, granted) => MallocHeap(h, size, granted)
    case Free(ptr) => FreeHeap(h, ptr)
  }

  /** One allocation: NULL exactly when nothing fits and growth is refused; otherwise one new
      live block at the returned address, large enough, with at most 48 bytes of slack. */
  lemma MallocStep(h: Heap, size: nat, granted: nat)
    requires h.Valid() && size > 0
    ensures MallocHeap(h, size, granted).Valid()
    ensures var p := MallocPtr(h, size, granted); var n := AlignUp(size); var h' := MallocHeap(h, size, granted);
            && (p == 0 <==> FirstFit(h.bs, n) == |h.bs| && !CanGrow(h, n, granted))
            && (p == 0 ==> h' == h)
            && (p != 0 ==> exists b: Block :: b.Payload() == p && n <= b.size <= n + 48 && !b.free
                             && b !in Live(h.bs) && Live(h'.bs) == Live(h.bs) + {b})
  {
    hide Tiles, Carve, AllocAt, Live, Grown, GrowPages;
    var n := AlignUp(size);
    var i := FirstFit(h.bs, n);
    if i < |h.bs| {
      AllocStep(h, i, n);
    } else if CanGrow(h, n, granted) {
      GrowStep(h, n);
    }
  }

  lemma AllocStep(h: Heap, i: nat, n: nat)
    requires h.Valid() && i < |h.bs| && Fits(h.bs[i], n) && n % ALIGN == 0
    ensures h.(bs := AllocAt(h.bs, i, n)).Valid()
    ensures exists b: Block :: b.Payload() == h.bs[i].Payload() && n <= b.size <= n + 48 && !b.free
              && b !in Live(h.bs) && Live(AllocAt(h.bs, i, n)) == Live(h.bs) + {b}
  {
    AllocKeepsTiles(h.bs, i, n, h.base, h.end);
    AllocLive(h.bs, i, n);
    var b := AllocAt(h.bs, i, n)[i];
    assert b.Payload() == h.bs[i].Payload();
    forall k | 0 <= k < |h.bs| && !h.bs[k].free ensures h.bs[k] != b {
      if k < i { TilesOrder(h.bs, h.base, h.end, k, i); } else { TilesOrder(h.bs, h.base, h.end, i, k); }
    }
  }

  lemma GrowStep(h: Heap, n: nat)
    requires h.Valid() && FirstFit(h.bs, n) == |h.bs| && n % ALIGN == 0
    requires h.end + GrowPages(n) * PAGE <= h.ceiling
    ensures GrowPages(n) * PAGE >= HEADER + n
    ensures var g := h.(bs := Grown(h.bs, h.end, n), end := h.end + GrowPages(n) * PAGE);
            && h.(bs := AllocAt(Grown(h.bs, h.end, n), |h.bs|, n), end := h.end + GrowPages(n) * PAGE).Valid()
            && exists b: Block :: b.Payload() == h.end + HEADER && n <= b.size <= n + 48 && !b.free
                 && b !in Live(h.bs) && Live(AllocAt(g.bs, |h.bs|, n)) == Live(h.bs) + {b}
  {
    GrowKeepsTiles(h.bs, n, h.base, h.end);
    GrowThenFits(h.bs, h.end, n);
    var g := h.(bs := Grown(h.bs, h.end, n), end := h.end + GrowPages(n) * PAGE);
    AllocStep(g, |h.bs|, n);
    LiveAppend(h.bs, [g.bs[|h.bs|]]);
    assert Live([g.bs[|h.bs|]]) == {};
    assert g.bs[|h.bs|].Payload() == h.end + HEADER;
  }

  /** One free: a live address loses exactly its block, anything else changes nothing. */
  lemma FreeStep(h: Heap, ptr: nat)
    requires h.Valid()
    ensures FreeHeap(h, ptr).Valid()
    ensures (exists b: Block :: b in Live(h.bs) && b.Payload() == ptr) ==>
              exists b: Block :: b in Live(h.bs) && b.Payload() == ptr && Live(FreeHeap(h, ptr).bs) == Live(h.bs) - {b}
    ensures !(exists b: Block :: b in Live(h.bs) && b.Payload() == ptr) ==> FreeHeap(h, ptr) == h
  {
    var i := BlockOf(h.bs, ptr);
    if exists b: Block :: b in Live(h.bs) && b.Payload() == ptr {
      var b: Block :| b in Live(h.bs) && b.Payload() == ptr;
      var k :| 0 <= k < |h.bs| && h.bs[k] == b;
      if i < k {
        TilesOrder(h.bs, h.base, h.end, i, k);
      }
      assert i == k;
      FreeLive(h.bs, i, h.base, h.end);
      FreeKeepsTiles(h.bs, i, h.base, h.end);
      assert h.bs[i] in Live(h.bs);
    } else if i < |h.bs| {
      InLive(h.bs, i);
    }
  }

  function Run(h: Heap, ops: seq<Op>): Heap
    decreases ops
  {
    if ops == [] then h else Run(Step(h, ops[0]), ops[1..])
  }

  /** Whatever is requested and freed, the blocks tile the mapped region, so headers and payloads
      sum to its size. */
  lemma {:induction false} RunTiles(h: Heap, ops: seq<Op>)
    requires h.Valid()
    ensures Run(h, ops).Valid()
    ensures Run(h, ops).base == h.base && h.base + Total(Run(h, ops).bs) == Run(h, ops).end
    decreases ops
  {
    hide Tiles, MallocHeap, FreeHeap;
    if ops == [] {
      Conservation(h.bs, h.base, h.end);
    } else {
      StepValid(h, ops[0]);
      RunTiles(Step(h, ops[0]), ops[1..]);
    }
  }

  lemma StepValid(h: Heap, op: Op)
    requires h.Valid()
    ensures Step(h, op).Valid() && Step(h, op).base == h.base
  {
    match op
    case Malloc(size, granted) =>
      if size > 0 {
        MallocStep(h, size, granted);
      }
    case Free(ptr) => FreeStep(h, ptr);
  }

  /** The allocation that a run returned for a request that has not been freed since is still
      there, unchanged: a live block survives every operation that does not free it. */
  lemma {:induction false} LiveSurvives(h: Heap, ops: seq<Op>, b: Block)
    requires h.Valid() && b in Live(h.bs)
    requires forall k | 0 <= k < |ops| :: ops[k] != Free(b.Payload())
    ensures b in Live(Run(h, ops).bs)
    decreases ops
  {
    hide Tiles, MallocHeap, FreeHeap, Live;
    if ops != [] {
      StepValid(h, ops[0]);
      StepKeeps(h, ops[0], b);
      LiveSurvives(Step(h, ops[0]), ops[1..], b);
    }
  }

  lemma StepKeeps(h: Heap, op: Op, b: Block)
    requires h.Valid() && b in Live(h.bs) && op != Free(b.Payload())
    ensures b in Live(Step(h, op).bs)
  {
    hide Tiles, Live;
    match op
    case Malloc(size, granted) =>
      if size > 0 {
        MallocStep(h, size, granted);
      }
    case Free(ptr) => FreeStep(h, ptr);
  }

  // ---- What freeing makes available ------------------------------------------------------

  /** The usable bytes at block `i` once it is freed: its own, and those of a free successor with its
      header. */
  function Room(bs: seq<Block>, i: nat): nat
    requires i < |bs|
  {
    bs[i].size + if i + 1 < |bs| && bs[i + 1].free then 32 + bs[i + 1].size else 0
  }

  /** A freed block is one free block of all the room there is, with everything in front of it as it
      was. */
  lemma FreedBlock(bs: seq<Block>, i: nat)
    requires i < |bs|
    ensures i < |FreeAt(bs, i)| && FreeAt(bs, i)[i] == Block(bs[i].addr, Room(bs, i), true)
    ensures FreeAt(bs, i)[..i] == bs[..i]
  {
  }

  /** A payload address belongs to one block. */
  lemma BlockAt(h: Heap, i: nat)
    requires h.Valid() && i < |h.bs|
    ensures BlockOf(h.bs, h.bs[i].Payload()) == i && h.bs[i].Payload() > 0
  {
    hide Tiles;
    var k := BlockOf(h.bs, h.bs[i].Payload());
    if k < i {
      TilesOrder(h.bs, h.base, h.end, k, i);
    }
  }

  /** After block `i` at `p` is freed, a request is served at `p` exactly when it fits the room there and
      nothing lower down; a request that fits the room is served at `p` or lower, and without growth. */
  lemma FreeServes(h: Heap, i: nat, size: nat, granted: nat)
    requires h.Valid() && i < |h.bs| && !h.bs[i].free && size > 0
    ensures var p := h.bs[i].Payload(); var q := MallocPtr(FreeHeap(h, p), size, granted);
            && (q == p <==> AlignUp(size) <= Room(h.bs, i) && forall k | 0 <= k < i :: !Fits(h.bs[k], AlignUp(size)))
            && (AlignUp(size) <= Room(h.bs, i) ==> 0 < q <= p && MallocHeap(FreeHeap(h, p), size, granted).end == h.end)
  {
    hide Tiles, FreeAt, AllocAt, AlignUp, GrowPages;
    var p, n := h.bs[i].Payload(), AlignUp(size);
    var g := FreeHeap(h, p);
    BlockAt(h, i);
    FreedBlock(h.bs, i);
    FreeKeepsTiles(h.bs, i, h.base, h.end);
    BlockAt(g, i);
    var k := FirstFit(g.bs, n);
    assert forall j | 0 <= j < i :: g.bs[..i][j] == g.bs[j] && h.bs[..i][j] == h.bs[j];
    if k < i {
      TilesOrder(g.bs, g.base, g.end, k, i);
    } else if i < k < |g.bs| {
      TilesOrder(g.bs, g.base, g.end, i, k);
    }
    if k < |g.bs| {
      BlockAt(g, k);
    }
    TilesInside(g.bs, g.base, g.end, i);
  }

  /** What an allocation from block `i` leaves when it is freed at once: the block it came from, made
      larger by a free successor when it was not split. */
  lemma FreedAlloc(bs: seq<Block>, i: nat, n: nat)
    requires i < |bs| && Fits(bs[i], n)
    ensures i < |AllocAt(bs, i, n)|
    ensures FreeAt(AllocAt(bs, i, n), i) == if bs[i].size - n > 48 then bs else FreeAt(bs, i)
  {
    var cs := AllocAt(bs, i, n);
    if bs[i].size - n > 48 {
      assert cs[i + 2..] == bs[i + 1..];
      assert FreeAt(cs, i) == bs;
    } else {
      assert cs[i + 1..] == bs[i + 1..] && cs[..i] == bs[..i];
      if Merges(bs, i) {
        assert cs[i + 2..] == bs[i + 2..];
      }
    }
  }

  /** Freeing what was just allocated gives the heap back exactly when the block was split or has no
      free successor. */
  lemma FreeUndoesMallocIff(h: Heap, size: nat, granted: nat)
    requires h.Valid() && size > 0 && FirstFit(h.bs, AlignUp(size)) < |h.bs|
    ensures var n := AlignUp(size); var i := FirstFit(h.bs, n);
            FreeHeap(MallocHeap(h, size, granted), MallocPtr(h, size, granted)) == h
            <==> h.bs[i].size - n > 48 || !(i + 1 < |h.bs| && h.bs[i + 1].free)
  {
    hide Tiles, AlignUp, AllocAt, FreeAt;
    var n := AlignUp(size);
    var i := FirstFit(h.bs, n);
    AfterMalloc(h, size, granted);
    FreedAlloc(h.bs, i, n);
    FreedBlock(h.bs, i);
    if !(i + 1 < |h.bs| && h.bs[i + 1].free) {
      FreedAlone(h.bs, i);
    }
  }

  lemma FreedAlone(bs: seq<Block>, i: nat)
    requires i < |bs| && bs[i].free && !(i + 1 < |bs| && bs[i + 1].free)
    ensures FreeAt(bs, i) == bs
  {
    assert bs == bs[..i] + [bs[i]] + bs[i + 1..];
  }

  /** The heap after an allocation from a block that fits: block `i` is taken and is what the returned
      address belongs to. */
  lemma AfterMalloc(h: Heap, size: nat, granted: nat)
    requires h.Valid() && size > 0 && FirstFit(h.bs, AlignUp(size)) < |h.bs|
    ensures var n := AlignUp(size); var i := FirstFit(h.bs, n);
            var h', p := MallocHeap(h, size, granted), MallocPtr(h, size, granted);
            && h'.Valid() && i < |h'.bs| && !h'.bs[i].free && h'.bs[i].Payload() == p
            && FreeHeap(h', p) == h.(bs := FreeAt(AllocAt(h.bs, i, n), i))
  {
    hide Tiles, AlignUp, FreeAt;
    var n := AlignUp(size);
    AlignedUp(size);
    var i := FirstFit(h.bs, n);
    AllocKeepsTiles(h.bs, i, n, h.base, h.end);
    AllocLive(h.bs, i, n);
    BlockAt(MallocHeap(h, size, granted), i);
  }

  lemma AlignedUp(size: nat)
    ensures AlignUp(size) % ALIGN == 0 && AlignUp(size) >= size
    ensures size % ALIGN == 0 ==> AlignUp(size) == size
  {
  }

  /** The block an allocation was cut from can be allocated whole, at the same address and without
      growth, once the allocation is freed. */
  lemma WholeAgain(h: Heap, size: nat, granted: nat)
    requires h.Valid() && size > 0 && FirstFit(h.bs, AlignUp(size)) < |h.bs|
    ensures var i := FirstFit(h.bs, AlignUp(size)); var p := MallocPtr(h, size, granted);
            MallocPtr(FreeHeap(MallocHeap(h, size, granted), p), h.bs[i].size, 0) == p
  {
    hide Tiles, AlignUp, AllocAt, FreeAt;
    var n := AlignUp(size);
    var i := FirstFit(h.bs, n);
    var h', whole := MallocHeap(h, size, granted), h.bs[i].size;
    AlignedUp(size);
    AlignedUp(whole);
    AfterMalloc(h, size, granted);
    TilesInside(h.bs, h.base, h.end, i);
    AllocRoom(h.bs, i, n);
    FreeServes(h', i, whole, 0);
  }

  lemma AllocRoom(bs: seq<Block>, i: nat, n: nat)
    requires i < |bs| && Fits(bs[i], n)
    ensures i < |AllocAt(bs, i, n)| && bs[i].size <= Room(AllocAt(bs, i, n), i)
    ensures forall k | 0 <= k < i :: AllocAt(bs, i, n)[k] == bs[k]
  {
  }

  /** Growth takes the fewest pages that hold the header and the request. */
  lemma GrowPagesLeast(n: nat, pages: nat)
    ensures GrowPages(n) <= pages <==> pages * 4096 >= 32 + n
  {
    var x := HEADER + n + PAGE - 1;
    assert x == PAGE * (x / PAGE) + x % PAGE;
  }

  /** So many pages hold a header and `n` bytes, are granted, and end at or below the ceiling. */
  predicate Obtainable(h: Heap, n: nat, granted: nat, pages: nat) {
    pages <= granted && 32 + n <= pages * 4096 && h.end + pages * 4096 <= h.ceiling
  }

  /** An allocation is refused exactly when it asks for nothing, or no free block is large enough and
      no number of pages that would do can be had. */
  lemma NullIff(h: Heap, size: nat, granted: nat)
    requires h.Valid()
    ensures MallocPtr(h, size, granted) == 0 <==>
              size == 0 ||
              ((forall k | 0 <= k < |h.bs| :: !(h.bs[k].free && h.bs[k].size >= AlignUp(size))) &&
               (forall pages: nat :: !Obtainable(h, AlignUp(size), granted, pages)))
  {
    hide Tiles, AlignUp, GrowPages;
    var n := AlignUp(size);
    var i := FirstFit(h.bs, n);
    if i < |h.bs| {
      assert h.bs[i].free && h.bs[i].size >= n;
    } else {
      assert forall k | 0 <= k < |h.bs| :: Fits(h.bs[k], n) <==> h.bs[k].free && h.bs[k].size >= n;
      GrowPagesLeast(n, GrowPages(n));
      assert CanGrow(h, n, granted) ==> Obtainable(h, n, granted, GrowPages(n));
      forall pages: nat | Obtainable(h, n, granted, pages) ensures CanGrow(h, n, granted) {
        GrowPagesLeast(n, pages);
      }
    }
  }
}
