/** An image packed field by field, in the order and widths of the ELF64 structures, and what the
    loader reads back from it. */
module ElfImage {
  import opened Elf
  import opened BigEndian
  import opened PageTables
  import opened Vmm
  import Pmm

  // ---- Little-endian fields --------------------------------------------------------------

  /** The low `k` bytes of `n`, the least significant first. */
  function LeBytes(n: nat, k: nat): (r: seq<bv8>)
    ensures |r| == k
  {
    if k == 0 then [] else [LowByte(n)] + LeBytes(n / 256, k - 1)
  }

  /** `d` holds `b` from `at` on. */
  predicate Holds(d: seq<bv8>, at: nat, b: seq<bv8>) {
    at + |b| <= |d| && d[at..at + |b|] == b
  }

  lemma HoldsByte(d: seq<bv8>, at: nat, b: seq<bv8>, i: nat)
    requires Holds(d, at, b) && i < |b|
    ensures d[at + i] == b[i]
  {
    assert d[at..at + |b|][i] == b[i];
  }

  /** A part of a part. */
  lemma HoldsInside(d: seq<bv8>, at: nat, b: seq<bv8>, i: nat, c: seq<bv8>)
    requires Holds(d, at, b) && Holds(b, i, c)
    ensures Holds(d, at + i, c)
  {
    forall k | 0 <= k < |c| ensures d[at + i..at + i + |c|][k] == c[k] {
      HoldsByte(d, at, b, i + k);
      HoldsByte(b, i, c, k);
    }
  }

  /** Reading a packed field gives the number back. */
  lemma {:induction false} LeOf(d: seq<bv8>, at: nat, n: nat, k: nat)
    requires Holds(d, at, LeBytes(n, k)) && n < Pow256(k)
    ensures Le(d, at, k) == n
    decreases k
  {
    hide LowByte;
    if k > 0 {
      var b := LeBytes(n, k);
      HoldsByte(d, at, b, 0);
      LowByteValue(n);
      assert Holds(b, 1, LeBytes(n / 256, k - 1));
      HoldsInside(d, at, b, 1, LeBytes(n / 256, k - 1));
      LeOf(d, at + 1, n / 256, k - 1);
    }
  }

  // ---- The file header -------------------------------------------------------------------

  /** The fields of `elf64_header_t`. */
  datatype FileHeader = FileHeader(magic: nat, class64: nat, ident: seq<bv8>, etype: nat, machine: nat, version: nat, entry: nat,
                                   phoff: nat, shoff: nat, flags: nat, ehsize: nat, phentsize: nat, phnum: nat,
                                   shentsize: nat, shnum: nat, shstrndx: nat)
  {
    /** The fields fit their widths. */
    predicate Fits() {
      && magic < Pow256(4) && class64 < 256 && |ident| == 11 && machine < Pow256(2)
      && phoff < Pow256(8) && phnum < Pow256(2)
    }
  }

  /** Bytes 0 to 15. */
  function PackIdent(h: FileHeader): seq<bv8> { LeBytes(h.magic, 4) + ([LowByte(h.class64)] + h.ident) }

  /** Bytes 16 to 31. */
  function PackKind(h: FileHeader): seq<bv8> {
    LeBytes(h.etype, 2) + LeBytes(h.machine, 2) + (LeBytes(h.version, 4) + LeBytes(h.entry, 8))
  }

  /** Bytes 32 to 51. */
  function PackTables(h: FileHeader): seq<bv8> { LeBytes(h.phoff, 8) + (LeBytes(h.shoff, 8) + LeBytes(h.flags, 4)) }

  /** Bytes 52 to 63. */
  function PackCounts(h: FileHeader): seq<bv8> {
    LeBytes(h.ehsize, 2) + LeBytes(h.phentsize, 2) + (LeBytes(h.phnum, 2) + (LeBytes(h.shentsize, 2) + LeBytes(h.shnum, 2) + LeBytes(h.shstrndx, 2)))
  }

  function PackHeader(h: FileHeader): seq<bv8> { PackIdent(h) + PackKind(h) + (PackTables(h) + PackCounts(h)) }

  lemma JoinedHolds(a: seq<bv8>, b: seq<bv8>)
    ensures Holds(a + b, 0, a) && Holds(a + b, |a|, b)
  {
  }

  lemma HeaderParts(h: FileHeader)
    requires |h.ident| == 11
    ensures |PackHeader(h)| == 64
    ensures Holds(PackHeader(h), 0, PackIdent(h)) && Holds(PackHeader(h), 16, PackKind(h))
    ensures Holds(PackHeader(h), 32, PackTables(h)) && Holds(PackHeader(h), 52, PackCounts(h))
  {
    hide Holds, LeBytes;
    var front, back := PackIdent(h) + PackKind(h), PackTables(h) + PackCounts(h);
    JoinedHolds(front, back);
    JoinedHolds(PackIdent(h), PackKind(h));
    JoinedHolds(PackTables(h), PackCounts(h));
    HoldsInside(front + back, 0, front, 0, PackIdent(h));
    HoldsInside(front + back, 0, front, 16, PackKind(h));
    HoldsInside(front + back, 32, back, 0, PackTables(h));
    HoldsInside(front + back, 32, back, 20, PackCounts(h));
  }

  lemma HeaderFields(h: FileHeader)
    requires |h.ident| == 11
    ensures Holds(PackHeader(h), 0, LeBytes(h.magic, 4)) && Holds(PackHeader(h), 4, [LowByte(h.class64)])
    ensures Holds(PackHeader(h), 18, LeBytes(h.machine, 2))
    ensures Holds(PackHeader(h), 32, LeBytes(h.phoff, 8)) && Holds(PackHeader(h), 56, LeBytes(h.phnum, 2))
  {
    hide LeBytes, LowByte, PackHeader;
    HeaderParts(h);
    var d := PackHeader(h);
    HoldsInside(d, 0, PackIdent(h), 0, LeBytes(h.magic, 4));
    HoldsInside(d, 0, PackIdent(h), 4, [LowByte(h.class64)]);
    HoldsInside(d, 16, PackKind(h), 2, LeBytes(h.machine, 2));
    HoldsInside(d, 32, PackTables(h), 0, LeBytes(h.phoff, 8));
    HoldsInside(d, 52, PackCounts(h), 4, LeBytes(h.phnum, 2));
  }

  // ---- Program headers -------------------------------------------------------------------

  /** The fields of `elf64_phdr_t`. */
  datatype ProgramHeader = ProgramHeader(ptype: nat, flags: nat, offset: nat, vaddr: nat, paddr: nat, filesz: nat, memsz: nat, align: nat)
  {
    predicate Fits() {
      ptype < Pow256(4) && offset < Pow256(8) && vaddr < Pow256(8) && filesz < Pow256(8) && memsz < Pow256(8)
    }

    /** What the loader uses of it. */
    function Used(): Phdr { Phdr(ptype, offset, vaddr, filesz, memsz) }
  }

  function PackFront(p: ProgramHeader): seq<bv8> {
    LeBytes(p.ptype, 4) + LeBytes(p.flags, 4) + (LeBytes(p.offset, 8) + LeBytes(p.vaddr, 8))
  }

  function PackBack(p: ProgramHeader): seq<bv8> {
    LeBytes(p.paddr, 8) + LeBytes(p.filesz, 8) + (LeBytes(p.memsz, 8) + LeBytes(p.align, 8))
  }

  function PackPhdr(p: ProgramHeader): (r: seq<bv8>)
    ensures |r| == PHDR_SIZE
  {
    PackFront(p) + PackBack(p)
  }

  lemma PhdrFields(p: ProgramHeader)
    ensures Holds(PackPhdr(p), 0, LeBytes(p.ptype, 4))
    ensures Holds(PackPhdr(p), 8, LeBytes(p.offset, 8)) && Holds(PackPhdr(p), 16, LeBytes(p.vaddr, 8))
    ensures Holds(PackPhdr(p), 32, LeBytes(p.filesz, 8)) && Holds(PackPhdr(p), 40, LeBytes(p.memsz, 8))
  {
    hide LeBytes;
    var d := PackPhdr(p);
    JoinedHolds(PackFront(p), PackBack(p));
    HoldsInside(d, 0, PackFront(p), 0, LeBytes(p.ptype, 4));
    HoldsInside(d, 0, PackFront(p), 8, LeBytes(p.offset, 8));
    HoldsInside(d, 0, PackFront(p), 16, LeBytes(p.vaddr, 8));
    HoldsInside(d, 24, PackBack(p), 8, LeBytes(p.filesz, 8));
    HoldsInside(d, 24, PackBack(p), 16, LeBytes(p.memsz, 8));
  }

  /** The loader reads the fields where they were packed. */
  lemma PhdrReadBack(d: seq<bv8>, at: nat, p: ProgramHeader)
    requires Holds(d, at, PackPhdr(p)) && p.Fits()
    ensures PhdrAt(d, at) == p.Used()
  {
    hide LeBytes, Holds, PackPhdr, Le, Pow256;
    HoldsLength(d, at, PackPhdr(p));
    PhdrFields(p);
    HoldsInside(d, at, PackPhdr(p), 0, LeBytes(p.ptype, 4));
    HoldsInside(d, at, PackPhdr(p), 8, LeBytes(p.offset, 8));
    HoldsInside(d, at, PackPhdr(p), 16, LeBytes(p.vaddr, 8));
    HoldsInside(d, at, PackPhdr(p), 32, LeBytes(p.filesz, 8));
    HoldsInside(d, at, PackPhdr(p), 40, LeBytes(p.memsz, 8));
    LeOf(d, at, p.ptype, 4);
    LeOf(d, at + 8, p.offset, 8);
    LeOf(d, at + 16, p.vaddr, 8);
    LeOf(d, at + 32, p.filesz, 8);
    LeOf(d, at + 40, p.memsz, 8);
  }

  lemma HoldsLength(d: seq<bv8>, at: nat, b: seq<bv8>)
    requires Holds(d, at, b)
    ensures at + |b| <= |d|
  {
  }

  function PackTable(ps: seq<ProgramHeader>): (r: seq<bv8>)
    ensures |r| == PHDR_SIZE * |ps|
  {
    if ps == [] then [] else PackTable(ps[..|ps| - 1]) + PackPhdr(ps[|ps| - 1])
  }

  lemma {:induction false} TableHolds(ps: seq<ProgramHeader>, i: nat)
    requires i < |ps|
    ensures Holds(PackTable(ps), PHDR_SIZE * i, PackPhdr(ps[i]))
    decreases ps
  {
    hide PackPhdr;
    var front := PackTable(ps[..|ps| - 1]);
    JoinedHolds(front, PackPhdr(ps[|ps| - 1]));
    if i < |ps| - 1 {
      TableHolds(ps[..|ps| - 1], i);
      HoldsInside(PackTable(ps), 0, front, PHDR_SIZE * i, PackPhdr(ps[i]));
    }
  }

  // ---- Images ----------------------------------------------------------------------------

  /** A header, anything up to the table of program headers, the table, and the rest of the file. */
  function PackImage(h: FileHeader, gap: seq<bv8>, ps: seq<ProgramHeader>, rest: seq<bv8>): seq<bv8> {
    PackHeader(h) + (gap + (PackTable(ps) + rest))
  }

  predicate Packable(h: FileHeader, gap: seq<bv8>, ps: seq<ProgramHeader>) {
    && h.Fits() && h.phoff == HEADER_SIZE + |gap| && h.phnum == |ps|
    && forall i | 0 <= i < |ps| :: ps[i].Fits()
  }

  function UsedOf(ps: seq<ProgramHeader>): seq<Phdr> { seq(|ps|, i requires 0 <= i < |ps| => ps[i].Used()) }

  lemma ImageParts(h: FileHeader, gap: seq<bv8>, ps: seq<ProgramHeader>, rest: seq<bv8>)
    requires |h.ident| == 11
    ensures |PackImage(h, gap, ps, rest)| == 64 + |gap| + PHDR_SIZE * |ps| + |rest|
    ensures Holds(PackImage(h, gap, ps, rest), 0, PackHeader(h))
    ensures Holds(PackImage(h, gap, ps, rest), 64 + |gap|, PackTable(ps))
  {
    hide PackHeader, PackTable, Holds;
    HeaderParts(h);
    var d, tail, table := PackImage(h, gap, ps, rest), gap + (PackTable(ps) + rest), PackTable(ps) + rest;
    JoinedHolds(PackHeader(h), tail);
    JoinedHolds(gap, table);
    JoinedHolds(PackTable(ps), rest);
    HoldsInside(d, 64, tail, |gap|, table);
    HoldsInside(d, 64 + |gap|, table, 0, PackTable(ps));
  }

  lemma HeaderReadBack(d: seq<bv8>, h: FileHeader)
    requires Holds(d, 0, PackHeader(h)) && h.Fits()
    ensures |d| >= HEADER_SIZE && HeaderOf(d) == Header(h.magic, h.class64, h.machine)
    ensures Le(d, 32, 8) == h.phoff && Le(d, 56, 2) == h.phnum
  {
    hide LeBytes, Holds, PackHeader, Le, Pow256, LowByte;
    HeaderParts(h);
    HoldsLength(d, 0, PackHeader(h));
    HeaderFields(h);
    HoldsInside(d, 0, PackHeader(h), 0, LeBytes(h.magic, 4));
    HoldsInside(d, 0, PackHeader(h), 4, [LowByte(h.class64)]);
    HoldsInside(d, 0, PackHeader(h), 18, LeBytes(h.machine, 2));
    HoldsInside(d, 0, PackHeader(h), 32, LeBytes(h.phoff, 8));
    HoldsInside(d, 0, PackHeader(h), 56, LeBytes(h.phnum, 2));
    LeOf(d, 0, h.magic, 4);
    HoldsByte(d, 4, [LowByte(h.class64)], 0);
    LowByteValue(h.class64);
    LeOf(d, 18, h.machine, 2);
    LeOf(d, 32, h.phoff, 8);
    LeOf(d, 56, h.phnum, 2);
  }

  /** The loader reads from a packed image the header and the list of program headers it was packed
      from, whatever the list. */
  lemma PackedReadBack(h: FileHeader, gap: seq<bv8>, ps: seq<ProgramHeader>, rest: seq<bv8>)
    requires Packable(h, gap, ps)
    ensures var d := PackImage(h, gap, ps, rest);
            && |d| >= HEADER_SIZE && HeaderOf(d) == Header(h.magic, h.class64, h.machine)
            && TableInside(d) && Phdrs(d) == UsedOf(ps)
  {
    hide PackImage, PackHeader, PackTable, Holds, Le, HeaderOf, PhdrAt;
    var d := PackImage(h, gap, ps, rest);
    ImageParts(h, gap, ps, rest);
    HeaderReadBack(d, h);
    forall i | 0 <= i < |ps| ensures PHDR_SIZE * i + PHDR_SIZE <= PHDR_SIZE * |ps| && PhdrAt(d, h.phoff + PHDR_SIZE * i) == ps[i].Used() {
      TableHolds(ps, i);
      HoldsInside(d, h.phoff, PackTable(ps), PHDR_SIZE * i, PackPhdr(ps[i]));
      PhdrReadBack(d, h.phoff + PHDR_SIZE * i, ps[i]);
    }
  }

  // ---- Loading a packed image ------------------------------------------------------------

  /** The page that `w` lies in has a part of the segment's memory in it, or its address inside. */
  predicate Meets(p: ProgramHeader, w: nat) {
    var page := w - w % PAGE;
    page < p.vaddr + p.memsz && p.vaddr < page + PAGE
  }

  /** The pages the loader goes through are those the segment has a part in. */
  lemma CoversIff(p: ProgramHeader, w: nat)
    ensures Covers(p.Used(), w) <==> Meets(p, w)
  {
    var x, q := p.vaddr + p.memsz + PAGE - 1, w / PAGE;
    assert x == PAGE * (x / PAGE) + x % PAGE && w == PAGE * q + w % PAGE;
    assert p.vaddr == PAGE * (p.vaddr / PAGE) + p.vaddr % PAGE;
    assert w - w % PAGE == PAGE * q;
    assert w < p.Used().End() <==> q < x / PAGE;
    assert q < x / PAGE <==> PAGE * q < p.vaddr + p.memsz;
    assert p.Used().Start() <= w <==> p.vaddr / PAGE <= q;
  }

  /** Byte `j` of the file part, when its page is loaded, is byte `p_offset + j` of the file. */
  ghost predicate FileByte(mem: Memory, own: Owners, bytes: map<nat, seq<bv8>>, root: nat, p: ProgramHeader, data: seq<bv8>, j: nat)
    requires j < p.filesz && p.offset + p.filesz <= |data|
  {
    Meets(p, p.vaddr + j) ==> Reads(mem, own, bytes, root, p.vaddr + j, data[p.offset + j])
  }

  /** Each byte of the file part reads as it stands in the file, and every other byte of the pages
      the segment has a part in reads zero. */
  ghost predicate InMemory(mem: Memory, own: Owners, bytes: map<nat, seq<bv8>>, root: nat, p: ProgramHeader, data: seq<bv8>)
    requires p.offset + p.filesz <= |data|
  {
    && (forall j: nat | j < p.filesz :: FileByte(mem, own, bytes, root, p, data, j))
    && (forall w: nat | Meets(p, w) && !(p.vaddr <= w < p.vaddr + p.filesz) :: Reads(mem, own, bytes, root, w, 0))
  }

  lemma LoadedIsInMemory(mem: Memory, own: Owners, bytes: map<nat, seq<bv8>>, root: nat, p: ProgramHeader, data: seq<bv8>)
    requires p.offset + p.filesz <= |data|
    requires LoadedUpTo(mem, own, bytes, root, p.Used(), data, p.Used().End())
    ensures InMemory(mem, own, bytes, root, p, data)
  {
    hide Reads, Meets, Phdr.Start, Phdr.End;
    forall w: nat | Meets(p, w) ensures Reads(mem, own, bytes, root, w, Expected(p.Used(), data, w)) {
      CoversIff(p, w);
    }
    forall j: nat | j < p.filesz ensures FileByte(mem, own, bytes, root, p, data, j) {
      assert Expected(p.Used(), data, p.vaddr + j) == data[p.offset + j];
    }
  }

  /** The file part of every loadable segment lies inside a file of `size` bytes. */
  predicate FileHolds(ps: seq<ProgramHeader>, size: nat) {
    forall i | 0 <= i < |ps| && ps[i].ptype == 1 :: ps[i].offset + ps[i].filesz <= size
  }

  lemma PlacedIsInMemory(mem: Memory, own: Owners, bytes: map<nat, seq<bv8>>, root: nat, ps: seq<ProgramHeader>, data: seq<bv8>)
    requires FileHolds(ps, |data|) && Placed(mem, own, bytes, root, UsedOf(ps), data, |ps|)
    ensures forall i | 0 <= i < |ps| && ps[i].ptype == 1 :: InMemory(mem, own, bytes, root, ps[i], data)
  {
    hide InMemory, LoadedUpTo, FileByte;
    forall i | 0 <= i < |ps| && ps[i].ptype == 1 ensures InMemory(mem, own, bytes, root, ps[i], data) {
      assert UsedOf(ps)[i] == ps[i].Used();
      LoadedIsInMemory(mem, own, bytes, root, ps[i], data);
    }
  }

  lemma MetIsNew(own0: Owners, mem: Memory, own: Owners, root: nat, ps: seq<ProgramHeader>)
    requires AllNew(own0, mem, own, root, UsedOf(ps), |ps|)
    ensures forall i, w: nat | 0 <= i < |ps| && ps[i].ptype == 1 && Meets(ps[i], w) :: NewPage(own0, mem, own, root, w)
  {
    hide NewPage, Meets, Touched, Phdr.Start, Phdr.End;
    forall i, w: nat | 0 <= i < |ps| && ps[i].ptype == 1 && Meets(ps[i], w) ensures NewPage(own0, mem, own, root, w) {
      var ph := UsedOf(ps)[i];
      assert ph == ps[i].Used();
      CoversIff(ps[i], w);
      TouchedSelf(ph.Start(), ph.End(), w);
      assert TouchedBy(UsedOf(ps), |ps|, w);
    }
  }

  lemma InsideIffHolds(ps: seq<ProgramHeader>, data: seq<bv8>)
    ensures Inside(UsedOf(ps), data) <==> FileHolds(ps, |data|)
  {
    var phdrs := UsedOf(ps);
    assert forall i | 0 <= i < |ps| :: phdrs[i] == ps[i].Used();
  }

  /** The conditions under which the loader goes on to the segments. */
  predicate Identified(h: FileHeader) { h.magic == 0x464C_457F && h.class64 == 2 && h.machine == 62 }

  /** The signature, identification and file sizes of a packed image decide whether it is loaded, and a
      loaded image is in memory as its program headers say. */
  method LoadPacked(m: Machine, root: nat, signed: bool, h: FileHeader, gap: seq<bv8>, ps: seq<ProgramHeader>, rest: seq<bv8>)
    returns (r: Result)
    requires m.Valid() && Private(m.mem, m.own)
    requires root in m.own && m.own[root].Root?
    requires Packable(h, gap, ps) && forall i | 0 <= i < |ps| && ps[i].ptype == 1 :: ps[i].Used().Sane()
    modifies m`mem, m`own, m`bytes, m`current, m.pmm`freeMemory, m.pmm.bitmap
    ensures Confined(m, root)
    ensures !signed ==> r == Done(-6)
    ensures signed && h.magic != 0x464C_457F ==> r == Done(-2)
    ensures signed && h.magic == 0x464C_457F && h.class64 != 2 ==> r == Done(-3)
    ensures signed && h.magic == 0x464C_457F && h.class64 == 2 && h.machine != 62 ==> r == Done(-4)
    ensures var size := |PackImage(h, gap, ps, rest)|;
            signed && Identified(h) && FileHolds(ps, size) ==> r == Done(0) || m.pmm.Free() == {}
    ensures var data := PackImage(h, gap, ps, rest);
            r == Done(0) ==>
              && signed && Identified(h) && FileHolds(ps, |data|)
              && (forall i, w: nat | 0 <= i < |ps| && ps[i].ptype == 1 && Meets(ps[i], w) :: NewPage(old(m.own), m.mem, m.own, root, w))
              && (PageDisjoint(UsedOf(ps), |ps|) ==>
                    forall i | 0 <= i < |ps| && ps[i].ptype == 1 :: InMemory(m.mem, m.own, m.bytes, root, ps[i], data))
    ensures RestSame(old(m.mem), m.mem, root, if signed && Identified(h) then UsedOf(ps) else [], if signed && Identified(h) then |ps| else 0)
  {
    hide PackImage, HeaderOf, Leaf, WellFormed, Private, Placed, PageDisjoint, RestSame, Confined, Meets, NewPage, InMemory,
      AllNew, Inside, FileHolds, TableInside, Phdrs, Le, Phdr.Sane, Pmm.Allocator.Free, Pmm.Allocator.Valid;
    var data := PackImage(h, gap, ps, rest);
    PackedReadBack(h, gap, ps, rest);
    InsideIffHolds(ps, data);
    r := LoadImage(m, root, signed, data);
    if r == Done(0) {
      MetIsNew(old(m.own), m.mem, m.own, root, ps);
      if PageDisjoint(UsedOf(ps), |ps|) {
        PlacedIsInMemory(m.mem, m.own, m.bytes, root, ps, data);
      }
    }
  }
}
