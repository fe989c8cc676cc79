/** The image builder: byte arrays filled field by field. */
module UsbImage {
  import opened FatLayout

  // ---- Layout ----------------------------------------------------------------------------

  function CeilDiv(a: nat, b: nat): nat
    requires b > 0
  {
    (a + b - 1) / b
  }

  /** The loop that sizes the table settles: 128 sectors hold an entry for every cluster there
      is room for, and no fewer would. */
  method FatSize() returns (fatSize: nat, dataStart: nat, dataClusters: nat)
    ensures fatSize == FatSectors && dataStart == DataStart == 32 + 2 * fatSize
    ensures dataClusters == (TotalSectors - dataStart) / 8 == Capacity / ClusterSize + 1
    ensures fatSize == CeilDiv((dataClusters + 2) * 4, 512)
  {
    fatSize := CeilDiv(TotalSectors * 4, 512);
    dataStart, dataClusters := 0, 0;
    for i := 0 to 4
      invariant i == 0 ==> fatSize == 1024
      invariant i == 1 ==> fatSize == 126
      invariant i >= 2 ==> fatSize == 128
    {
      dataStart := 32 + 2 * fatSize;
      dataClusters := (TotalSectors - dataStart) / 8;
      fatSize := CeilDiv((dataClusters + 2) * 4, 512);
    }
    dataStart := 32 + 2 * fatSize;
    dataClusters := (TotalSectors - dataStart) / 8;
  }

  // ---- Packing ---------------------------------------------------------------------------

  method Pack16(b: array<byte>, at: nat, v: nat)
    requires at + 2 <= b.Length && v < 0x1_0000
    modifies b
    ensures U16(b[..], at) == v
    ensures forall i :: 0 <= i < b.Length && !(at <= i < at + 2) ==> b[i] == old(b[i])
  {
    b[at] := v % 0x100;
    b[at + 1] := v / 0x100;
  }

  lemma FourBytes(v: nat)
    requires v < Word
    ensures v / 0x100_0000 < 0x100
    ensures v % 0x100 + 0x100 * (v / 0x100 % 0x100) + 0x1_0000 * (v / 0x1_0000 % 0x100) + 0x100_0000 * (v / 0x100_0000) == v
  {
    var a, b := v / 0x100, v / 0x1_0000;
    assert b == a / 0x100 && v / 0x100_0000 == b / 0x100;
    assert a == 0x100 * b + a % 0x100 && b == 0x100 * (b / 0x100) + b % 0x100;
  }

  method Pack32(b: array<byte>, at: nat, v: nat)
    requires at + 4 <= b.Length && v < Word
    modifies b
    ensures U32(b[..], at) == v
    ensures forall i :: 0 <= i < b.Length && !(at <= i < at + 4) ==> b[i] == old(b[i])
  {
    FourBytes(v);
    b[at] := v % 0x100;
    b[at + 1] := v / 0x100 % 0x100;
    b[at + 2] := v / 0x1_0000 % 0x100;
    b[at + 3] := v / 0x100_0000;
  }

  /** Writes `s` over the bytes from `at` on. */
  method Put(b: array<byte>, at: nat, s: seq<byte>)
    requires at + |s| <= b.Length
    modifies b
    ensures HasAt(b[..], at, s)
    ensures forall i :: 0 <= i < b.Length && !(at <= i < at + |s|) ==> b[i] == old(b[i])
  {
    for k := 0 to |s|
      invariant forall i :: 0 <= i < k ==> b[at + i] == s[i]
      invariant forall i :: 0 <= i < b.Length && !(at <= i < at + k) ==> b[i] == old(b[i])
    {
      b[at + k] := s[k];
    }
  }

  method StartBpb(b: array<byte>)
    requires b.Length == 512
    modifies b
    ensures BpbStart(b[..])
    ensures forall i :: 16 <= i < 512 ==> b[i] == old(b[i])
  {
    Put(b, 0, [0xEB, 0x58, 0x90]);
    ghost var s := b[..3];
    Put(b, 3, [0x4D, 0x53, 0x44, 0x4F, 0x53, 0x35, 0x2E, 0x30]);
    assert b[..11] == s + b[3..11];
    ghost var t := b[..11];
    Pack16(b, 11, 512);
    b[13] := 8;
    Pack16(b, 14, 32);
    assert b[..11] == t;
  }

  method MiddleBpb(b: array<byte>)
    requires b.Length == 512
    modifies b
    ensures BpbMiddle(b[..])
    ensures forall i :: 0 <= i < 16 || 32 <= i < 512 ==> b[i] == old(b[i])
  {
    b[16] := 2;
    Pack16(b, 17, 0);
    Pack16(b, 19, 0);
    b[21] := 0xF8;
    Pack16(b, 22, 0);
    Pack16(b, 24, 63);
    Pack16(b, 26, 255);
    Pack32(b, 28, 0);
  }

  method LargeBpb(b: array<byte>, totalSectors: nat, fatSize: nat)
    requires b.Length == 512 && totalSectors == TotalSectors && fatSize == FatSectors
    modifies b
    ensures BpbLarge(b[..])
    ensures forall i :: 0 <= i < 32 || 52 <= i < 512 ==> b[i] == old(b[i])
  {
    Pack32(b, 32, totalSectors);
    Pack32(b, 36, fatSize);
    Pack16(b, 40, 0);
    Pack16(b, 42, 0);
    Pack32(b, 44, 2);
    Pack16(b, 48, 1);
    Pack16(b, 50, 6);
  }

  method EndBpb(b: array<byte>)
    requires b.Length == 512
    modifies b
    ensures BpbEnd(b[..])
    ensures forall i :: 0 <= i < 52 ==> b[i] == old(b[i])
  {
    b[64] := 0x80;
    b[66] := 0x29;
    Pack32(b, 67, 0x5A5A_0001);
    Put(b, 71, [0x53, 0x54, 0x59, 0x58, 0x42, 0x4F, 0x4F, 0x54, 0x20, 0x20, 0x20]);
    ghost var s := b[71..82];
    Put(b, 82, [0x46, 0x41, 0x54, 0x33, 0x32, 0x20, 0x20, 0x20]);
    ghost var t := b[82..90];
    b[510] := 0x55;
    b[511] := 0xAA;
    assert b[71..82] == s && b[82..90] == t;
  }

  /** `make_bpb`. */
  method MakeBpb(totalSectors: nat, fatSize: nat) returns (b: array<byte>)
    requires totalSectors == TotalSectors && fatSize == FatSectors
    ensures fresh(b) && b.Length == 512 && IsBpb(b[..])
  {
    b := new byte[512](_ => 0);
    StartBpb(b);
    ghost var s := b[..11];
    MiddleBpb(b);
    LargeBpb(b, totalSectors, fatSize);
    EndBpb(b);
    assert b[..11] == s;
  }

  // ---- The table -------------------------------------------------------------------------

  /** Entries other than `c` survive a write to `c`. */
  lemma OtherEntry(was: seq<byte>, now: seq<byte>, c: nat, d: nat, v: nat)
    requires |was| == |now| && c != d && EntryIs(was, d, v)
    requires forall i :: 0 <= i < |was| && !(4 * c <= i < 4 * c + 4) ==> now[i] == was[i]
    ensures EntryIs(now, d, v)
  {
  }

  /** `put` in `build_fat`. */
  method PutEntry(fat: array<byte>, c: nat, v: nat)
    requires 4 * c + 4 <= fat.Length && v < Word
    modifies fat
    ensures EntryIs(fat[..], c, v)
    ensures forall d, u :: d != c && EntryIs(old(fat[..]), d, u) ==> EntryIs(fat[..], d, u)
  {
    ghost var was := fat[..];
    Pack32(fat, c * 4, v);
    forall d, u | d != c && EntryIs(was, d, u)
      ensures EntryIs(fat[..], d, u)
    {
      OtherEntry(was, fat[..], c, d, u);
    }
  }

  /** `build_fat`. */
  method BuildFat(fatSize: nat, clustersNeeded: nat) returns (fat: array<byte>)
    requires fatSize == FatSectors && 1 <= clustersNeeded <= 16381
    ensures fresh(fat) && fat.Length == FatSectors * SectorSize && IsFat(fat[..], clustersNeeded)
  {
    hide EntryIs;
    fat := new byte[fatSize * 512](_ => 0);
    ZeroEntries(fat[..]);
    PutEntry(fat, 0, 0x0FFF_FFF8);
    PutEntry(fat, 1, EndMark);
    PutEntry(fat, 2, EndMark);
    for i := 0 to clustersNeeded
      invariant fat.Length == FatSectors * SectorSize
      invariant forall c :: 0 <= c < 16384 ==> EntryIs(fat[..], c, if c < 3 + i then FatEntry(clustersNeeded, c) else 0)
    {
      PutEntry(fat, 3 + i, if i < clustersNeeded - 1 then 3 + i + 1 else EndMark);
    }
  }

  lemma ZeroEntries(fat: seq<byte>)
    requires |fat| == FatSectors * SectorSize && forall i :: 0 <= i < |fat| ==> fat[i] == 0
    ensures forall c :: 0 <= c < 16384 ==> EntryIs(fat, c, 0)
  {
  }

  // ---- The directory entry and the image -------------------------------------------------

  /** A name in upper-case bytes, filled with spaces. */
  method Justify(d: array<byte>, at: nat, name: seq<byte>, width: nat)
    requires |name| <= width && at + width <= d.Length
    modifies d
    ensures d[at..at + width] == name + seq(width - |name|, _ => 0x20)
    ensures forall i :: 0 <= i < d.Length && !(at <= i < at + width) ==> d[i] == old(d[i])
  {
    Put(d, at, name + seq(width - |name|, _ => 0x20));
  }

  /** `make_dirent`. */
  method MakeDirent(name8: seq<byte>, ext3: seq<byte>, startCluster: nat, fileSize: nat) returns (d: array<byte>)
    requires |name8| <= 8 && |ext3| <= 3 && startCluster < Word && fileSize < Word
    ensures fresh(d) && d.Length == 32
    ensures IsDirent(d[..], name8 + seq(8 - |name8|, _ => 0x20) + (ext3 + seq(3 - |ext3|, _ => 0x20)), startCluster, fileSize)
  {
    d := new byte[32](_ => 0);
    Justify(d, 0, name8, 8);
    ghost var n := d[0..8];
    Justify(d, 8, ext3, 3);
    assert d[0..8] == n;
    ghost var e := d[..11];
    assert e == n + d[8..11];
    d[11] := 0x20;
    Pack16(d, 20, startCluster / 0x1_0000);
    Pack16(d, 22, 0x5A00);
    Pack16(d, 24, 0x5A93);
    Pack16(d, 26, startCluster % 0x1_0000);
    Pack32(d, 28, fileSize);
    assert d[..11] == e;
  }

  /** A part survives a write that does not touch it. */
  lemma Survives(was: seq<byte>, now: seq<byte>, at: nat, t: seq<byte>, low: nat, high: nat)
    requires |was| == |now| && HasAt(was, at, t)
    requires forall i :: 0 <= i < |was| && !(low <= i < high) ==> now[i] == was[i]
    requires at + |t| <= low || high <= at
    ensures HasAt(now, at, t)
  {
    assert now[at..at + |t|] == was[at..at + |t|];
  }

  /** `main`: the whole image, for every file that fits the data area. */
  method BuildImage(elf: seq<byte>) returns (img: array<byte>)
    requires |elf| <= Capacity
    ensures fresh(img) && IsImage(img[..], elf)
  {
    hide IsBpb, IsFat, IsDirent;
    var fatSize, dataStart, dataClusters := FatSize();
    var clustersNeeded := CeilDiv(|elf|, 8 * 512);
    if clustersNeeded < 1 {
      clustersNeeded := 1;
    }
    img := new byte[TotalSectors * 512](_ => 0);
    var bpb := MakeBpb(TotalSectors, fatSize);
    var fat := BuildFat(fatSize, clustersNeeded);
    var dirent := MakeDirent([0x49, 0x4E, 0x49, 0x54], [0x45, 0x4C, 0x46], 3, |elf|);
    assert [0x49, 0x4E, 0x49, 0x54] + seq(4, _ => 0x20) + ([0x45, 0x4C, 0x46] + seq(0, _ => 0x20)) == InitName;
    FillImage(img, bpb[..], fat[..], dirent[..], elf);
    ghost var s := img[..];
    assert s[..512] == s[0..512] == bpb[..];
  }

  /** The five slice assignments of `main`. */
  method FillImage(img: array<byte>, bpb: seq<byte>, fat: seq<byte>, dirent: seq<byte>, elf: seq<byte>)
    requires img.Length == TotalSectors * SectorSize && |elf| <= Capacity
    requires |bpb| == 512 && |fat| == FatSectors * SectorSize && |dirent| == 32
    requires forall i :: 0 <= i < img.Length ==> img[i] == 0
    modifies img
    ensures HasAt(img[..], 0, bpb) && HasAt(img[..], 32 * 512, fat) && HasAt(img[..], 160 * 512, fat)
    ensures HasAt(img[..], 288 * 512, dirent) && HasAt(img[..], 296 * 512, elf)
    ensures forall i :: 288 * 512 + 32 <= i < 296 * 512 ==> img[i] == 0
  {
    hide HasAt;
    Put(img, 0, bpb);
    ghost var a := img[..];
    Put(img, 32 * 512, fat);
    ghost var b := img[..];
    Survives(a, b, 0, bpb, 32 * 512, 160 * 512);
    Put(img, 32 * 512 + |fat|, fat);
    ghost var c := img[..];
    Survives(b, c, 0, bpb, 160 * 512, 288 * 512);
    Survives(b, c, 32 * 512, fat, 160 * 512, 288 * 512);
    Put(img, DataStart * 512, dirent);
    ghost var d := img[..];
    Survives(c, d, 0, bpb, 288 * 512, 288 * 512 + 32);
    Survives(c, d, 32 * 512, fat, 288 * 512, 288 * 512 + 32);
    Survives(c, d, 160 * 512, fat, 288 * 512, 288 * 512 + 32);
    Put(img, (DataStart + 8) * 512, elf);
    ghost var e := img[..];
    Survives(d, e, 0, bpb, 296 * 512, 296 * 512 + |elf|);
    Survives(d, e, 32 * 512, fat, 296 * 512, 296 * 512 + |elf|);
    Survives(d, e, 160 * 512, fat, 296 * 512, 296 * 512 + |elf|);
    Survives(d, e, 288 * 512, dirent, 296 * 512, 296 * 512 + |elf|);
  }
}
