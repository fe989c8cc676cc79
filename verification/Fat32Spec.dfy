/**
 * What the FAT32 reader computes from a disk: the mounted parameters, the chain of clusters, the
 * bytes along it and the search of the root directory.
 */
module Fat32Spec {
  import opened FatLayout

  datatype Mount = Mount(spc: nat, fatStart: nat, root: nat, dataStart: nat)

  datatype Option<T> = Some(value: T) | None

  // ---- Sectors ---------------------------------------------------------------------------

  predicate Readable(disk: seq<byte>, lba: nat) { 512 * lba + 512 <= |disk| }

  function SectorAt(disk: seq<byte>, lba: nat): (r: seq<byte>)
    requires Readable(disk, lba)
    ensures |r| == 512
  {
    disk[512 * lba..512 * lba + 512]
  }

  /** The parameters in the boot sector `b`, when it is one of this kind. */
  function Parse(b: seq<byte>): Option<Mount>
    requires |b| == 512
  {
    if U16(b, 11) != 512 || U32(b, 36) == 0 then None
    else Some(Mount(b[13], U16(b, 14), U32(b, 44), (U16(b, 14) + (b[16] as int) * U32(b, 36)) % Word))
  }

  function MountOf(disk: seq<byte>): Option<Mount> {
    if Readable(disk, 0) then Parse(SectorAt(disk, 0)) else None
  }

  // ---- The chain -------------------------------------------------------------------------

  predicate IsEof(c: nat) { c >= 0x0FFF_FFF8 }

  /** The first sector of a cluster, in 32-bit arithmetic. */
  function Lba(m: Mount, c: nat): nat { (m.dataStart + (c - 2) % Word * m.spc) % Word }

  /** The sector of the table that holds the entry of cluster `c`. */
  function TableLba(m: Mount, c: nat): nat { (m.fatStart + 4 * c % Word / 512) % Word }

  function TableOffset(c: nat): (r: nat)
    ensures r + 4 <= 512
  {
    4 * (c % 128)
  }

  /** The cluster after `c`; a table sector that cannot be read ends the chain. */
  function Next(disk: seq<byte>, m: Mount, c: nat): nat {
    if Readable(disk, TableLba(m, c)) then U32(SectorAt(disk, TableLba(m, c)), TableOffset(c)) % 0x1000_0000
    else EndMark
  }

  // ---- Reading ---------------------------------------------------------------------------

  /** Bytes read, and whether no sector failed. */
  datatype Got = Got(bytes: seq<byte>, ok: bool)

  function Min(a: nat, b: nat): nat { if a < b then a else b }

  /** At most `len` bytes from sector `s` of the cluster at `lba` on. */
  function FromSectors(disk: seq<byte>, m: Mount, lba: nat, s: nat, len: nat): (g: Got)
    ensures |g.bytes| <= len
    ensures g.ok && s < m.spc && len > 0 ==> |g.bytes| > 0
    decreases m.spc - s
  {
    var at := (lba + s) % Word;
    if s >= m.spc || len == 0 then Got([], true)
    else if !Readable(disk, at) then Got([], false)
    else
      var chunk := Min(512, len);
      var rest := FromSectors(disk, m, lba, s + 1, len - chunk);
      Got(SectorAt(disk, at)[..chunk] + rest.bytes, rest.ok)
  }

  lemma SectorsStep(disk: seq<byte>, m: Mount, lba: nat, s: nat, len: nat)
    ensures s >= m.spc || len == 0 ==> FromSectors(disk, m, lba, s, len) == Got([], true)
    ensures s < m.spc && len > 0 ==>
      var at := (lba + s) % Word;
      if Readable(disk, at) then
        var rest := FromSectors(disk, m, lba, s + 1, len - Min(512, len));
        FromSectors(disk, m, lba, s, len) == Got(SectorAt(disk, at)[..Min(512, len)] + rest.bytes, rest.ok)
      else
        FromSectors(disk, m, lba, s, len) == Got([], false)
  {
  }

  lemma JoinTwice(a: seq<byte>, b: seq<byte>, c: seq<byte>)
    ensures a + (b + c) == a + b + c
  {
  }

  /** At most `len` bytes along the chain from cluster `c` on. */
  function FromChain(disk: seq<byte>, m: Mount, c: nat, len: nat): (r: seq<byte>)
    requires m.spc > 0
    ensures |r| <= len
    decreases len
  {
    if IsEof(c) || len == 0 then []
    else
      var g := FromSectors(disk, m, Lba(m, c), 0, len);
      if g.ok then g.bytes + FromChain(disk, m, Next(disk, m, c), len - |g.bytes|) else g.bytes
  }

  lemma ChainStep(disk: seq<byte>, m: Mount, c: nat, len: nat)
    requires m.spc > 0
    ensures IsEof(c) || len == 0 ==> FromChain(disk, m, c, len) == []
    ensures !IsEof(c) && len > 0 ==>
      var g := FromSectors(disk, m, Lba(m, c), 0, len);
      FromChain(disk, m, c, len)
      == if g.ok then g.bytes + FromChain(disk, m, Next(disk, m, c), len - |g.bytes|) else g.bytes
  {
  }

  // ---- Names -----------------------------------------------------------------------------

  function Upper(c: byte): byte { if 97 <= c <= 122 then c - 32 else c }

  /** A path without its leading slash. */
  function Strip(path: seq<byte>): seq<byte> { if |path| > 0 && path[0] == 0x2F then path[1..] else path }

  /** The length of the base name, from position `j` on: up to a dot, the end, or eight bytes. */
  function BaseLength(p: seq<byte>, j: nat): (n: nat)
    requires j <= |p| && j <= 8
    ensures j <= n <= 8 && n <= |p|
    ensures forall i :: j <= i < n ==> p[i] != 0x2E
    ensures n == 8 || n == |p| || p[n] == 0x2E
    decreases 8 - j
  {
    if j < 8 && j < |p| && p[j] != 0x2E then BaseLength(p, j + 1) else j
  }

  /** Byte `i` of the directory form of a stripped path with an `n`-byte base name. */
  function NameByte(p: seq<byte>, n: nat, i: nat): byte
    requires n <= |p|
  {
    if i < 8 then (if i < n then Upper(p[i]) else 0x20)
    else if n < |p| && p[n] == 0x2E && n + i - 7 < |p| then Upper(p[n + i - 7])
    else 0x20
  }

  /** The eleven bytes a path is looked up by. */
  function To83(path: seq<byte>): (r: seq<byte>)
    ensures |r| == 11
  {
    var p := Strip(path);
    var n := BaseLength(p, 0);
    seq(11, i requires 0 <= i < 11 => NameByte(p, n, i))
  }

  // ---- The directory ---------------------------------------------------------------------

  datatype Scan = Match(cluster: nat, size: nat) | Stop | More

  /** Deleted entries, long names and volume labels. */
  predicate Skipped(sec: seq<byte>, e: nat)
    requires |sec| == 512 && e < 16
  {
    sec[32 * e] == 0xE5 || sec[32 * e + 11] == 0x0F || sec[32 * e + 11] / 8 % 2 == 1
  }

  predicate Named(sec: seq<byte>, e: nat, target: seq<byte>)
    requires |sec| == 512 && e < 16
  {
    sec[32 * e..32 * e + 11] == target
  }

  /** The search from entry `e` of one sector on. */
  function ScanFrom(sec: seq<byte>, target: seq<byte>, e: nat): Scan
    requires |sec| == 512 && e <= 16
    decreases 16 - e
  {
    if e == 16 then More
    else if sec[32 * e] == 0 then Stop
    else if Skipped(sec, e) || !Named(sec, e, target) then ScanFrom(sec, target, e + 1)
    else Match(0x1_0000 * U16(sec, 32 * e + 20) + U16(sec, 32 * e + 26), U32(sec, 32 * e + 28))
  }

  /** The search from sector `s` of one cluster on. */
  function ScanSectors(disk: seq<byte>, m: Mount, target: seq<byte>, lba: nat, s: nat): Scan
    decreases m.spc - s
  {
    var at := (lba + s) % Word;
    if s >= m.spc then More
    else if !Readable(disk, at) then Stop
    else if ScanFrom(SectorAt(disk, at), target, 0) == More then ScanSectors(disk, m, target, lba, s + 1)
    else ScanFrom(SectorAt(disk, at), target, 0)
  }

  function ScanCluster(disk: seq<byte>, m: Mount, target: seq<byte>, c: nat): Scan {
    ScanSectors(disk, m, target, Lba(m, c), 0)
  }

  /** The search from cluster `c` on comes to an end within `k` clusters. */
  predicate Settles(disk: seq<byte>, m: Mount, target: seq<byte>, c: nat, k: nat)
    decreases k
  {
    IsEof(c) || ScanCluster(disk, m, target, c) != More || (k > 0 && Settles(disk, m, target, Next(disk, m, c), k - 1))
  }

  /** Its result. */
  function Find(disk: seq<byte>, m: Mount, target: seq<byte>, c: nat, k: nat): (r: Scan)
    requires Settles(disk, m, target, c, k)
    ensures r != More
    decreases k
  {
    if IsEof(c) then Stop
    else if ScanCluster(disk, m, target, c) != More then ScanCluster(disk, m, target, c)
    else Find(disk, m, target, Next(disk, m, c), k - 1)
  }

  // ---- What the search finds -------------------------------------------------------------

  /** Entry `e` is in use and carries the name. */
  predicate Live(sec: seq<byte>, e: nat, target: seq<byte>)
    requires |sec| == 512 && e < 16
  {
    sec[32 * e] != 0 && !Skipped(sec, e) && Named(sec, e, target)
  }

  /** A match is the first live entry of that name, with no end mark before it. */
  lemma {:induction false} ScanMatches(sec: seq<byte>, target: seq<byte>, e: nat) returns (f: nat)
    requires |sec| == 512 && e <= 16 && ScanFrom(sec, target, e).Match?
    ensures e <= f < 16 && Live(sec, f, target)
    ensures forall g :: e <= g < f ==> sec[32 * g] != 0 && !Live(sec, g, target)
    ensures ScanFrom(sec, target, e) == Match(0x1_0000 * U16(sec, 32 * f + 20) + U16(sec, 32 * f + 26), U32(sec, 32 * f + 28))
    decreases 16 - e
  {
    hide U16, U32;
    if Skipped(sec, e) || !Named(sec, e, target) {
      f := ScanMatches(sec, target, e + 1);
    } else {
      f := e;
    }
  }

  /** And a live entry with no end mark before it is found. */
  lemma {:induction false} ScanCompletes(sec: seq<byte>, target: seq<byte>, e: nat, f: nat)
    requires |sec| == 512 && e <= f < 16 && Live(sec, f, target)
    requires forall g :: e <= g < f ==> sec[32 * g] != 0
    ensures ScanFrom(sec, target, e).Match?
    decreases 16 - e
  {
    hide U16, U32;
    if e < f {
      ScanCompletes(sec, target, e + 1, f);
    }
  }

  // ---- Names agree -----------------------------------------------------------------------

  predicate Plain(s: seq<byte>) { forall i :: 0 <= i < |s| ==> s[i] != 0x2E && s[i] != 0x2F }

  function UpperAll(s: seq<byte>): seq<byte> { seq(|s|, i requires 0 <= i < |s| => Upper(s[i])) }

  function Spaces(n: nat): seq<byte> { seq(n, _ => 0x20) }

  lemma BaseOf(name: seq<byte>, ext: seq<byte>)
    requires |name| <= 8 && Plain(name)
    ensures BaseLength(name + [0x2E] + ext, 0) == |name|
  {
    var p := name + [0x2E] + ext;
    assert p[|name|] == 0x2E;
    assert forall i :: 0 <= i < |name| ==> p[i] == name[i];
  }

  lemma NameByteOf(name: seq<byte>, ext: seq<byte>, i: nat)
    requires |name| <= 8 && |ext| <= 3 && i < 11
    ensures NameByte(name + [0x2E] + ext, |name|, i)
         == if i < |name| then Upper(name[i]) else if 8 <= i && i - 8 < |ext| then Upper(ext[i - 8]) else 0x20
  {
    hide Upper;
    var p := name + [0x2E] + ext;
    assert p[|name|] == 0x2E;
    if 8 <= i && i - 8 < |ext| {
      assert p[|name| + i - 7] == ext[i - 8];
    }
  }

  /** The path of a file in the root directory is looked up by the bytes its directory entry has. */
  lemma PathMatchesEntry(name: seq<byte>, ext: seq<byte>)
    requires |name| <= 8 && |ext| <= 3 && Plain(name) && Plain(ext)
    ensures To83([0x2F] + name + [0x2E] + ext)
         == UpperAll(name) + Spaces(8 - |name|) + (UpperAll(ext) + Spaces(3 - |ext|))
  {
    hide BaseLength, NameByte, Upper, Plain;
    var path := [0x2F] + name + [0x2E] + ext;
    assert Strip(path) == name + [0x2E] + ext;
    BaseOf(name, ext);
    var want := UpperAll(name) + Spaces(8 - |name|) + (UpperAll(ext) + Spaces(3 - |ext|));
    forall i | 0 <= i < 11
      ensures To83(path)[i] == want[i]
    {
      NameByteOf(name, ext, i);
    }
  }
}
