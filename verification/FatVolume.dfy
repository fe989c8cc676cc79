/**
 * Any FAT32 volume: files and directories along any chain of clusters, however scattered, for every
 * cluster size and every size and number of tables.
 */
module FatVolume {
  import opened FatLayout
  import opened Fat32Spec
  import opened FatRoundTrip

  /** What a boot sector says of its volume. */
  datatype Geometry = Geometry(spc: nat, reserved: nat, fats: nat, fatSectors: nat, root: nat) {
    /** The sector where cluster 2 starts: behind the reserved sectors and all tables. */
    function Data(): nat { reserved + fats * fatSectors }

    /** The first sector of cluster `c`. */
    function First(c: nat): nat
      requires c >= 2
    {
      Data() + (c - 2) * spc
    }
  }

  /** The fields of the boot sector, at the offsets of the FAT specification. */
  predicate Described(disk: seq<byte>, g: Geometry) {
    && |disk| >= 512 && |disk| % 512 == 0
    && U16(disk, 11) == 512 && disk[13] == g.spc && U16(disk, 14) == g.reserved && disk[16] == g.fats
    && U32(disk, 36) == g.fatSectors && U32(disk, 44) == g.root
    && 0 < g.spc && 0 < g.fatSectors && g.Data() < Word
  }

  /** Cluster `c` holds `part`. */
  predicate Holds(disk: seq<byte>, g: Geometry, c: nat, part: seq<byte>) {
    && 2 <= c < 0x0FFF_FFF8 && |part| == 512 * g.spc
    && g.First(c) + g.spc <= Word && HasAt(disk, 512 * g.First(c), part)
  }

  /** The entry of cluster `c` in the first table, of which the upper four bits do not count. */
  predicate Links(disk: seq<byte>, g: Geometry, c: nat, next: nat) {
    && 512 * g.reserved + 4 * c + 4 <= |disk|
    && U32(disk, 512 * g.reserved + 4 * c) % 0x1000_0000 == next
  }

  /** The clusters `cs` follow one another in the table, and the last is marked as such. */
  predicate Chained(disk: seq<byte>, g: Geometry, cs: seq<nat>)
    decreases cs
  {
    if cs == [] then false
    else if |cs| == 1 then exists mark :: 0x0FFF_FFF8 <= mark < 0x1000_0000 && Links(disk, g, cs[0], mark)
    else Links(disk, g, cs[0], cs[1]) && Chained(disk, g, cs[1..])
  }

  predicate Stored(disk: seq<byte>, g: Geometry, cs: seq<nat>, parts: seq<seq<byte>>) {
    |cs| == |parts| && forall i | 0 <= i < |cs| :: Holds(disk, g, cs[i], parts[i])
  }

  /** The parts one after another. */
  function Flat(parts: seq<seq<byte>>): seq<byte> { if parts == [] then [] else parts[0] + Flat(parts[1..]) }

  // ---- Where things are ------------------------------------------------------------------

  function MountFor(g: Geometry): Mount { Mount(g.spc, g.reserved, g.root, g.Data()) }

  lemma VolumeMounts(disk: seq<byte>, g: Geometry)
    requires Described(disk, g)
    ensures MountOf(disk) == Some(MountFor(g))
  {
    hide U16, U32, SectorAt;
    SectorIsPart(disk, 0);
    var b := SectorAt(disk, 0);
    FieldsMove(disk, 0, b, 11);
    FieldsMove(disk, 0, b, 13);
    FieldsMove(disk, 0, b, 14);
    FieldsMove(disk, 0, b, 16);
    FieldsMove(disk, 0, b, 36);
    FieldsMove(disk, 0, b, 44);
  }

  lemma LbaIsFirst(g: Geometry, c: nat)
    requires 2 <= c < Word && g.First(c) < Word
    ensures Lba(MountFor(g), c) == g.First(c)
  {
    assert (c - 2) % Word == c - 2;
  }

  /** The reader looks for the entry of a cluster where the table has it. */
  lemma EntryAt(g: Geometry, c: nat)
    requires c < 0x1000_0000 && g.reserved < 0x1_0000
    ensures TableLba(MountFor(g), c) == g.reserved + c / 128
    ensures 512 * (g.reserved + c / 128) + TableOffset(c) == 512 * g.reserved + 4 * c
  {
    var q, r := c / 128, c % 128;
    assert c == 128 * q + r;
    assert 4 * c % Word == 512 * q + 4 * r;
    assert 4 * c % Word / 512 == q;
  }

  lemma NextIsLink(disk: seq<byte>, g: Geometry, c: nat, next: nat)
    requires Described(disk, g) && c < 0x0FFF_FFF8 && Links(disk, g, c, next)
    ensures Next(disk, MountFor(g), c) == next
  {
    hide U32, SectorAt, TableLba, TableOffset, HasAt;
    ReservedSmall(disk, g);
    EntryAt(g, c);
    var lba := g.reserved + c / 128;
    WholeSector(|disk|, g.reserved, c);
    SectorIsPart(disk, lba);
    FieldsMove(disk, 512 * lba, SectorAt(disk, lba), TableOffset(c));
  }

  lemma ReservedSmall(disk: seq<byte>, g: Geometry)
    requires Described(disk, g)
    ensures g.reserved < 0x1_0000
  {
  }

  lemma WholeSector(size: nat, reserved: nat, c: nat)
    requires size % 512 == 0 && 512 * reserved + 4 * c + 4 <= size
    ensures 512 * (reserved + c / 128) + 512 <= size
  {
    var q, r, n := c / 128, c % 128, size / 512;
    assert c == 128 * q + r && size == 512 * n;
  }

  // ---- Reading ---------------------------------------------------------------------------

  /** Sector `s` of a cluster that holds `part`. */
  lemma SectorOf(disk: seq<byte>, g: Geometry, c: nat, part: seq<byte>, s: nat)
    requires Holds(disk, g, c, part) && s < g.spc
    ensures (g.First(c) + s) % Word == g.First(c) + s && Readable(disk, g.First(c) + s)
    ensures 512 * s + 512 <= |part| && SectorAt(disk, g.First(c) + s) == part[512 * s..512 * s + 512]
  {
    hide HasAt, Geometry.First;
    SliceOfSlice(disk, 512 * g.First(c), part, 512 * s, 512);
  }

  lemma {:induction false} ClusterReads(disk: seq<byte>, g: Geometry, c: nat, part: seq<byte>, s: nat, len: nat)
    requires Holds(disk, g, c, part) && s <= g.spc
    ensures var got := FromSectors(disk, MountFor(g), g.First(c), s, len);
            got.ok && got.bytes == part[512 * s..512 * s + Min(len, |part| - 512 * s)]
    decreases g.spc - s
  {
    hide HasAt, SectorAt, Readable, FromSectors, Geometry.First, Geometry.Data;
    var lba := g.First(c);
    SectorsStep(disk, MountFor(g), lba, s, len);
    if s < g.spc && len > 0 {
      SectorOf(disk, g, c, part, s);
      var chunk := Min(512, len);
      assert part[512 * s..512 * s + 512][..chunk] == part[512 * s..512 * s + chunk];
      ClusterReads(disk, g, c, part, s + 1, len - chunk);
      var end := 512 * s + Min(len, |part| - 512 * s);
      SliceJoins(part, 512 * s, 512 * s + chunk, end);
    }
  }

  lemma HoldsFacts(disk: seq<byte>, g: Geometry, c: nat, part: seq<byte>)
    requires Holds(disk, g, c, part) && g.spc > 0
    ensures 2 <= c < 0x0FFF_FFF8 && |part| == 512 * g.spc > 0 && Lba(MountFor(g), c) == g.First(c)
  {
    hide HasAt;
    LbaIsFirst(g, c);
  }

  lemma DescribedFacts(disk: seq<byte>, g: Geometry)
    requires Described(disk, g)
    ensures g.spc > 0
  {
  }

  /** The cluster that the reader goes on to. */
  lemma ChainNext(disk: seq<byte>, g: Geometry, cs: seq<nat>)
    requires Described(disk, g) && Chained(disk, g, cs) && cs[0] < 0x0FFF_FFF8
    ensures |cs| == 1 ==> IsEof(Next(disk, MountFor(g), cs[0]))
    ensures |cs| > 1 ==> Next(disk, MountFor(g), cs[0]) == cs[1] && Chained(disk, g, cs[1..])
  {
    hide Described, Links, Next;
    if |cs| == 1 {
      var mark :| 0x0FFF_FFF8 <= mark < 0x1000_0000 && Links(disk, g, cs[0], mark);
      NextIsLink(disk, g, cs[0], mark);
    } else {
      NextIsLink(disk, g, cs[0], cs[1]);
    }
  }

  lemma StoredRest(disk: seq<byte>, g: Geometry, cs: seq<nat>, parts: seq<seq<byte>>)
    requires Stored(disk, g, cs, parts) && cs != []
    ensures Holds(disk, g, cs[0], parts[0]) && Stored(disk, g, cs[1..], parts[1..])
  {
    hide Holds;
  }

  lemma ClusterPrefix(disk: seq<byte>, g: Geometry, c: nat, part: seq<byte>, len: nat)
    requires Holds(disk, g, c, part) && g.spc > 0
    ensures FromSectors(disk, MountFor(g), Lba(MountFor(g), c), 0, len) == Got(part[..Min(len, |part|)], true)
  {
    hide FromSectors, Lba, Geometry.First, Geometry.Data;
    HoldsFacts(disk, g, c, part);
    ClusterReads(disk, g, c, part, 0, len);
    assert part[512 * 0..512 * 0 + Min(len, |part|)] == part[..Min(len, |part|)];
  }

  lemma TakeJoined(part: seq<byte>, rest: seq<byte>, len: nat)
    ensures var n := Min(len, |part|);
            (part + rest)[..Min(len, |part + rest|)] == part[..n] + rest[..Min(len - n, |rest|)]
  {
  }

  /** The chain of a file reads as its parts one after another, up to the length asked for. */
  lemma {:induction false} ChainReads(disk: seq<byte>, g: Geometry, cs: seq<nat>, parts: seq<seq<byte>>, len: nat)
    requires Described(disk, g) && Chained(disk, g, cs) && Stored(disk, g, cs, parts)
    ensures MountFor(g).spc > 0 && FromChain(disk, MountFor(g), cs[0], len) == Flat(parts)[..Min(len, |Flat(parts)|)]
    decreases cs
  {
    hide Described, Chained, Stored, Holds, FromSectors, FromChain, Next, Lba, Geometry.First, Geometry.Data;
    var m := MountFor(g);
    ChainedFacts(disk, g, cs, parts);
    StoredRest(disk, g, cs, parts);
    var c, part := cs[0], parts[0];
    DescribedFacts(disk, g);
    HoldsFacts(disk, g, c, part);
    ChainStep(disk, m, c, len);
    if len > 0 {
      ClusterPrefix(disk, g, c, part, len);
      ChainNext(disk, g, cs);
      TakeJoined(part, Flat(parts[1..]), len);
      var left := len - Min(len, |part|);
      if |cs| == 1 {
        ChainStep(disk, m, Next(disk, m, c), left);
        assert Flat(parts[1..]) == [];
      } else {
        ChainReads(disk, g, cs[1..], parts[1..], left);
      }
    }
  }

  lemma ChainedFacts(disk: seq<byte>, g: Geometry, cs: seq<nat>, parts: seq<seq<byte>>)
    requires Chained(disk, g, cs) && Stored(disk, g, cs, parts)
    ensures |cs| == |parts| > 0
  {
  }

  lemma OneFlat(parts: seq<seq<byte>>)
    requires |parts| == 1
    ensures Flat(parts) == parts[0]
  {
    assert Flat(parts[1..]) == [];
  }

  // ---- Searching a directory -------------------------------------------------------------

  /** Entry `e` of a directory is in use, is no part of a long name and no volume label, and carries the name. */
  predicate Wanted(dir: seq<byte>, e: nat, target: seq<byte>)
    requires 32 * e + 32 <= |dir|
  {
    && dir[32 * e] != 0 && dir[32 * e] != 0xE5 && dir[32 * e + 11] != 0x0F && dir[32 * e + 11] / 8 % 2 == 0
    && dir[32 * e..32 * e + 11] == target
  }

  /** No end mark and no wanted entry among the first `n`. */
  predicate Clear(dir: seq<byte>, target: seq<byte>, n: nat)
    requires 32 * n <= |dir|
  {
    forall e | 0 <= e < n :: dir[32 * e] != 0 && !Wanted(dir, e, target)
  }

  /** What a search of the directory `dir` must say: the first wanted entry in front of any end mark, with its
      cluster and size; or that there is none, at an end mark or at the end of the directory. */
  ghost predicate Answers(dir: seq<byte>, target: seq<byte>, r: Scan)
    requires |dir| % 32 == 0
  {
    match r
    case Match(cluster, size) => exists e: nat :: FoundAt(dir, target, e, cluster, size)
    case Stop => exists e: nat :: EndsAt(dir, target, e)
    case More => Clear(dir, target, |dir| / 32)
  }

  predicate FoundAt(dir: seq<byte>, target: seq<byte>, e: nat, cluster: nat, size: nat) {
    && 32 * e + 32 <= |dir| && Clear(dir, target, e) && Wanted(dir, e, target)
    && cluster == 0x1_0000 * U16(dir, 32 * e + 20) + U16(dir, 32 * e + 26) && size == U32(dir, 32 * e + 28)
  }

  predicate EndsAt(dir: seq<byte>, target: seq<byte>, e: nat) {
    32 * e + 32 <= |dir| && Clear(dir, target, e) && dir[32 * e] == 0
  }

  lemma LiveIsWanted(sec: seq<byte>, target: seq<byte>, e: nat)
    requires |sec| == 512 && e < 16
    ensures Live(sec, e, target) <==> Wanted(sec, e, target)
  {
  }

  lemma {:induction false} SectorAnswers(sec: seq<byte>, target: seq<byte>, e: nat)
    requires |sec| == 512 && e <= 16 && Clear(sec, target, e)
    ensures Answers(sec, target, ScanFrom(sec, target, e))
    decreases 16 - e
  {
    hide U16, U32, Wanted;
    if e < 16 {
      LiveIsWanted(sec, target, e);
      if sec[32 * e] == 0 {
        assert EndsAt(sec, target, e);
      } else if Live(sec, e, target) {
        var r := ScanFrom(sec, target, e);
        assert FoundAt(sec, target, e, r.cluster, r.size);
      } else {
        SectorAnswers(sec, target, e + 1);
      }
    }
  }

  lemma SameEntry(s: seq<byte>, at: nat, t: seq<byte>, from: nat)
    requires at + 32 <= |s| && from + 32 <= |t| && s[at..at + 32] == t[from..from + 32]
    ensures s[at] == t[from] && s[at + 11] == t[from + 11] && s[at..at + 11] == t[from..from + 11]
    ensures U16(s, at + 20) == U16(t, from + 20) && U16(s, at + 26) == U16(t, from + 26) && U32(s, at + 28) == U32(t, from + 28)
  {
    hide U16, U32;
    var d := s[at..at + 32];
    assert HasAt(s, at, d) && HasAt(t, from, d);
    FieldsMove(s, at, d, 0);
    FieldsMove(t, from, d, 0);
    FieldsMove(s, at, d, 11);
    FieldsMove(t, from, d, 11);
    FieldsMove(s, at, d, 20);
    FieldsMove(t, from, d, 20);
    FieldsMove(s, at, d, 26);
    FieldsMove(t, from, d, 26);
    FieldsMove(s, at, d, 28);
    FieldsMove(t, from, d, 28);
    assert s[at..at + 11] == d[..11] && t[from..from + 11] == d[..11];
  }

  /** Entry `e` of the second part is entry `n + e` of the whole. */
  lemma EntryMoves(a: seq<byte>, b: seq<byte>, target: seq<byte>, n: nat, e: nat)
    requires |a| == 32 * n && 32 * e + 32 <= |b|
    ensures (a + b)[32 * (n + e)] == b[32 * e] && (Wanted(a + b, n + e, target) <==> Wanted(b, e, target))
    ensures U16(a + b, 32 * (n + e) + 20) == U16(b, 32 * e + 20) && U16(a + b, 32 * (n + e) + 26) == U16(b, 32 * e + 26)
    ensures U32(a + b, 32 * (n + e) + 28) == U32(b, 32 * e + 28)
  {
    var at := 32 * (n + e);
    assert (a + b)[at..at + 32] == b[32 * e..32 * e + 32];
    SameEntry(a + b, at, b, 32 * e);
  }

  /** An entry of the first part is an entry of the whole. */
  lemma EntryStays(a: seq<byte>, b: seq<byte>, target: seq<byte>, e: nat)
    requires 32 * e + 32 <= |a|
    ensures (a + b)[32 * e] == a[32 * e] && (Wanted(a + b, e, target) <==> Wanted(a, e, target))
    ensures U16(a + b, 32 * e + 20) == U16(a, 32 * e + 20) && U16(a + b, 32 * e + 26) == U16(a, 32 * e + 26)
    ensures U32(a + b, 32 * e + 28) == U32(a, 32 * e + 28)
  {
    assert (a + b)[32 * e..32 * e + 11] == a[32 * e..32 * e + 11];
  }

  lemma ClearStays(a: seq<byte>, b: seq<byte>, target: seq<byte>, e: nat)
    requires 32 * e <= |a| && Clear(a, target, e)
    ensures Clear(a + b, target, e)
  {
    hide Wanted;
    forall k | 0 <= k < e ensures (a + b)[32 * k] != 0 && !Wanted(a + b, k, target) {
      EntryStays(a, b, target, k);
    }
  }

  lemma ClearMoves(a: seq<byte>, b: seq<byte>, target: seq<byte>, n: nat, e: nat)
    requires |a| == 32 * n && Clear(a, target, n) && 32 * e <= |b| && Clear(b, target, e)
    ensures Clear(a + b, target, n + e)
  {
    hide Wanted;
    forall k | 0 <= k < n + e ensures (a + b)[32 * k] != 0 && !Wanted(a + b, k, target) {
      if k < n {
        EntryStays(a, b, target, k);
      } else {
        EntryMoves(a, b, target, n, k - n);
      }
    }
  }

  /** An answer about the first part is one about the whole. */
  lemma AnswerStays(a: seq<byte>, b: seq<byte>, target: seq<byte>, r: Scan)
    requires |a| % 32 == 0 && |b| % 32 == 0 && Answers(a, target, r) && r != More
    ensures |a + b| % 32 == 0 && Answers(a + b, target, r)
  {
    hide Wanted, Clear, U16, U32;
    match r
    case Match(cluster, size) =>
      var e: nat :| FoundAt(a, target, e, cluster, size);
      EntryStays(a, b, target, e);
      ClearStays(a, b, target, e);
      assert FoundAt(a + b, target, e, cluster, size);
    case Stop =>
      var e: nat :| EndsAt(a, target, e);
      EntryStays(a, b, target, e);
      ClearStays(a, b, target, e);
      assert EndsAt(a + b, target, e);
  }

  /** When the first part settles nothing, an answer about the second is one about the whole. */
  lemma AnswerMoves(a: seq<byte>, b: seq<byte>, target: seq<byte>, r: Scan)
    requires |a| % 32 == 0 && |b| % 32 == 0 && Answers(a, target, More) && Answers(b, target, r)
    ensures |a + b| % 32 == 0 && Answers(a + b, target, r)
  {
    hide Wanted, Clear, U16, U32;
    var n := |a| / 32;
    match r
    case Match(cluster, size) =>
      var e: nat :| FoundAt(b, target, e, cluster, size);
      EntryMoves(a, b, target, n, e);
      ClearMoves(a, b, target, n, e);
      assert FoundAt(a + b, target, n + e, cluster, size);
    case Stop =>
      var e: nat :| EndsAt(b, target, e);
      EntryMoves(a, b, target, n, e);
      ClearMoves(a, b, target, n, e);
      assert EndsAt(a + b, target, n + e);
    case More =>
      ClearMoves(a, b, target, n, |b| / 32);
      assert |a + b| / 32 == n + |b| / 32;
  }

  lemma {:induction false} ClusterAnswers(disk: seq<byte>, g: Geometry, c: nat, part: seq<byte>, target: seq<byte>, s: nat)
    requires Holds(disk, g, c, part) && s <= g.spc
    ensures |part[512 * s..]| % 32 == 0
    ensures Answers(part[512 * s..], target, ScanSectors(disk, MountFor(g), target, g.First(c), s))
    decreases g.spc - s
  {
    hide HasAt, SectorAt, Readable, ScanFrom, Answers, Geometry.First, Geometry.Data;
    SizeOfRest(g.spc, s);
    if s == g.spc {
      NothingLeft(part[512 * s..], target);
    } else {
      SectorOf(disk, g, c, part, s);
      var sec, rest := part[512 * s..512 * s + 512], part[512 * (s + 1)..];
      assert part[512 * s..] == sec + rest;
      SectorAnswers(sec, target, 0);
      ClusterAnswers(disk, g, c, part, target, s + 1);
      if ScanFrom(sec, target, 0) == More {
        AnswerMoves(sec, rest, target, ScanSectors(disk, MountFor(g), target, g.First(c), s + 1));
      } else {
        AnswerStays(sec, rest, target, ScanFrom(sec, target, 0));
      }
    }
  }

  lemma SizeOfRest(spc: nat, s: nat)
    requires s <= spc
    ensures (512 * spc - 512 * s) % 32 == 0
  {
    assert 512 * spc - 512 * s == 32 * (16 * (spc - s));
  }

  lemma NothingLeft(dir: seq<byte>, target: seq<byte>)
    requires |dir| == 0
    ensures Answers(dir, target, More)
  {
  }

  /** The search of a whole directory settles, and says of all its entries what it must. */
  lemma {:induction false} DirectoryAnswers(disk: seq<byte>, g: Geometry, cs: seq<nat>, parts: seq<seq<byte>>, target: seq<byte>)
    requires Described(disk, g) && Chained(disk, g, cs) && Stored(disk, g, cs, parts)
    ensures Settles(disk, MountFor(g), target, cs[0], |cs|) && |Flat(parts)| % 32 == 0
    ensures var r := Find(disk, MountFor(g), target, cs[0], |cs|);
            Answers(Flat(parts), target, r) || (r == Stop && Answers(Flat(parts), target, More))
    decreases cs
  {
    hide Described, Chained, Stored, Holds, ScanSectors, Next, Lba, Answers, Geometry.First, Geometry.Data;
    var m := MountFor(g);
    ChainedFacts(disk, g, cs, parts);
    StoredRest(disk, g, cs, parts);
    var c, part, rest := cs[0], parts[0], Flat(parts[1..]);
    DescribedFacts(disk, g);
    HoldsFacts(disk, g, c, part);
    ClusterAnswers(disk, g, c, part, target, 0);
    assert part[512 * 0..] == part;
    ChainNext(disk, g, cs);
    var r := ScanCluster(disk, m, target, c);
    if |cs| == 1 {
      OneFlat(parts);
    } else {
      DirectoryAnswers(disk, g, cs[1..], parts[1..], target);
      if r == More {
        var q := Find(disk, m, target, cs[1], |cs| - 1);
        if Answers(rest, target, q) {
          AnswerMoves(part, rest, target, q);
        } else {
          AnswerMoves(part, rest, target, More);
        }
      } else {
        AnswerStays(part, rest, target, r);
      }
    }
  }

  /** Opening and reading a file of any volume: when the first wanted entry of the root directory names the chain
      `cs` and a size that its clusters hold, the reader finds that entry and reads the first `size` bytes of the
      clusters one after another. */
  lemma OpenThenRead(disk: seq<byte>, g: Geometry, root: seq<nat>, dir: seq<seq<byte>>, target: seq<byte>,
                     e: nat, cs: seq<nat>, parts: seq<seq<byte>>, size: nat)
    requires Described(disk, g) && Chained(disk, g, root) && Stored(disk, g, root, dir) && root[0] == g.root
    requires Chained(disk, g, cs) && Stored(disk, g, cs, parts) && size <= |Flat(parts)|
    requires FoundAt(Flat(dir), target, e, cs[0], size)
    ensures var m := MountFor(g);
            && MountOf(disk) == Some(m) && m.spc > 0 && Settles(disk, m, target, m.root, |root|)
            && Find(disk, m, target, m.root, |root|) == Match(cs[0], size)
            && FromChain(disk, m, cs[0], size) == Flat(parts)[..size]
  {
    hide Described, Chained, Stored, Flat, FromChain, Find, Settles, MountOf, Geometry.Data;
    VolumeMounts(disk, g);
    ChainedFacts(disk, g, root, dir);
    ChainedFacts(disk, g, cs, parts);
    DirectoryAnswers(disk, g, root, dir, target);
    ChainReads(disk, g, cs, parts, size);
    OnlyAnswer(Flat(dir), target, e, cs[0], size, Find(disk, MountFor(g), target, g.root, |root|));
  }

  /** A directory that has a wanted entry in front of any end mark has one answer. */
  lemma OnlyAnswer(dir: seq<byte>, target: seq<byte>, e: nat, cluster: nat, size: nat, r: Scan)
    requires |dir| % 32 == 0 && FoundAt(dir, target, e, cluster, size)
    requires Answers(dir, target, r) || (r == Stop && Answers(dir, target, More))
    requires r != More
    ensures r == Match(cluster, size)
  {
    hide FoundAt, EndsAt, Clear;
    NotClear(dir, target, e, cluster, size);
    forall f: nat ensures !EndsAt(dir, target, f) {
      NoEnd(dir, target, e, cluster, size, f);
    }
    var f: nat :| FoundAt(dir, target, f, r.cluster, r.size);
    SamePlace(dir, target, e, cluster, size, f, r.cluster, r.size);
  }

  lemma NotClear(dir: seq<byte>, target: seq<byte>, e: nat, cluster: nat, size: nat)
    requires |dir| % 32 == 0 && FoundAt(dir, target, e, cluster, size)
    ensures !Clear(dir, target, |dir| / 32)
  {
    hide Wanted, U16, U32;
    assert e < |dir| / 32;
  }

  lemma NoEnd(dir: seq<byte>, target: seq<byte>, e: nat, cluster: nat, size: nat, f: nat)
    requires FoundAt(dir, target, e, cluster, size)
    ensures !EndsAt(dir, target, f)
  {
    hide U16, U32;
  }

  lemma SamePlace(dir: seq<byte>, target: seq<byte>, e: nat, cluster: nat, size: nat, f: nat, cluster': nat, size': nat)
    requires FoundAt(dir, target, e, cluster, size) && FoundAt(dir, target, f, cluster', size')
    ensures e == f && cluster == cluster' && size == size'
  {
    hide U16, U32, Wanted;
  }
}
