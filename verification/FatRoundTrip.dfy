/** What the image builder writes, the reader gives back. */
module FatRoundTrip {
  import opened FatLayout
  import opened Fat32Spec
  import opened Fat32
  import UsbImage

  /** The parameters of every image. */
  function ImageMount(): Mount { Mount(8, 32, 2, DataStart) }

  lemma ImageMounts(img: seq<byte>, elf: seq<byte>)
    requires IsImage(img, elf)
    ensures MountOf(img) == Some(ImageMount())
  {
    hide IsFat, IsDirent, HasAt, U16, U32;
    assert SectorAt(img, 0) == img[..512];
  }

  // ---- The chain of the file -------------------------------------------------------------

  lemma EntryPlace(c: nat)
    requires c < 16384
    ensures TableLba(ImageMount(), c) == 32 + c / 128 && c / 128 < 128
    ensures 512 * (32 + c / 128) + 4 * (c % 128) == 32 * 512 + 4 * c
  {
    var q, r := c / 128, c % 128;
    assert c == 128 * q + r;
    assert 4 * c % Word == 512 * q + 4 * r;
    assert 4 * c % Word / 512 == q;
  }

  lemma SectorIsPart(img: seq<byte>, lba: nat)
    requires Readable(img, lba)
    ensures HasAt(img, 512 * lba, SectorAt(img, lba))
  {
  }

  lemma TableIsPart(img: seq<byte>, fat: seq<byte>)
    requires |img| >= 160 * 512 && fat == img[32 * 512..160 * 512]
    ensures HasAt(img, 32 * 512, fat)
  {
  }

  /** Entry `c` of the first table of an image is where the reader looks for it. */
  lemma EntryInImage(img: seq<byte>, fat: seq<byte>, c: nat)
    requires |img| == TotalSectors * SectorSize && fat == img[32 * 512..160 * 512] && c < 16384
    ensures TableLba(ImageMount(), c) == 32 + c / 128 && Readable(img, 32 + c / 128)
    ensures U32(SectorAt(img, 32 + c / 128), TableOffset(c)) == U32(fat, 4 * c)
  {
    hide U32, HasAt, SectorAt;
    var q, r := c / 128, c % 128;
    EntryPlace(c);
    SectorIsPart(img, 32 + q);
    FieldsMove(img, 512 * (32 + q), SectorAt(img, 32 + q), 4 * r);
    TableIsPart(img, fat);
    FieldsMove(img, 32 * 512, fat, 4 * c);
  }

  lemma NextInImage(img: seq<byte>, elf: seq<byte>, c: nat)
    requires IsImage(img, elf) && c < 16384
    ensures Next(img, ImageMount(), c) == FatEntry(Clusters(|elf|), c)
  {
    hide U32, TableLba, TableOffset, IsBpb, IsDirent, HasAt, SectorAt;
    var fat := img[32 * 512..160 * 512];
    EntryInImage(img, fat, c);
    assert EntryIs(fat, c, FatEntry(Clusters(|elf|), c));
  }

  // ---- The bytes of the file -------------------------------------------------------------

  /** A piece of a part of a string is a piece of the string. */
  lemma SliceOfSlice(s: seq<byte>, at: nat, t: seq<byte>, from: nat, n: nat)
    requires HasAt(s, at, t) && from + n <= |t|
    ensures at + from + n <= |s| && s[at + from..at + from + n] == t[from..from + n]
  {
    var a, b := s[at + from..at + from + n], t[from..from + n];
    forall k | 0 <= k < n
      ensures a[k] == b[k]
    {
      assert s[at..at + |t|][from + k] == t[from + k];
    }
  }

  lemma SectorStart(img: seq<byte>, lba: nat, n: nat)
    requires Readable(img, lba) && n <= 512
    ensures 512 * lba + n <= |img| && SectorAt(img, lba)[..n] == img[512 * lba..512 * lba + n]
  {
  }

  lemma FileSectorFits(j: nat, s: nat, size: nat)
    requires s < 8 && 4096 * j + 512 * s < size <= Capacity
    ensures 512 * (296 + 8 * j + s) + 512 <= TotalSectors * SectorSize
    ensures (296 + 8 * j + s) % Word == 296 + 8 * j + s
  {
  }

  lemma ImageParts(img: seq<byte>, elf: seq<byte>)
    requires IsImage(img, elf)
    ensures |img| == TotalSectors * SectorSize && HasAt(img, 296 * 512, elf)
  {
  }

  /** The first `n` bytes of sector `s` of the file's cluster `j`. */
  lemma FileSector(img: seq<byte>, elf: seq<byte>, j: nat, s: nat, n: nat)
    requires IsImage(img, elf) && |elf| <= Capacity && s < 8 && 0 < n <= 512 && 4096 * j + 512 * s + n <= |elf|
    ensures (296 + 8 * j + s) % Word == 296 + 8 * j + s && Readable(img, 296 + 8 * j + s)
    ensures SectorAt(img, 296 + 8 * j + s)[..n] == elf[4096 * j + 512 * s..4096 * j + 512 * s + n]
  {
    hide IsImage, HasAt, SectorAt;
    ImageParts(img, elf);
    FileSectorFits(j, s, |elf|);
    SectorStart(img, 296 + 8 * j + s, n);
    SliceOfSlice(img, 296 * 512, elf, 4096 * j + 512 * s, n);
  }

  lemma {:induction false} ClusterBytes(img: seq<byte>, elf: seq<byte>, j: nat, s: nat, len: nat)
    requires IsImage(img, elf) && |elf| <= Capacity && s <= 8 && 4096 * j + 512 * s + len <= |elf|
    ensures var g := FromSectors(img, ImageMount(), 296 + 8 * j, s, len);
            g.ok && g.bytes == elf[4096 * j + 512 * s..4096 * j + 512 * s + Min(len, 4096 - 512 * s)]
    decreases 8 - s
  {
    hide IsImage, SectorAt, Readable, FromSectors;
    var from := 4096 * j + 512 * s;
    SectorsStep(img, ImageMount(), 296 + 8 * j, s, len);
    if s < 8 && len > 0 {
      FileSector(img, elf, j, s, Min(512, len));
      if len > 512 {
        ClusterBytes(img, elf, j, s + 1, len - 512);
        SliceJoins(elf, from, from + 512, from + Min(len, 4096 - 512 * s));
      } else {
        SectorsStep(img, ImageMount(), 296 + 8 * j, s + 1, 0);
      }
    }
  }

  lemma SliceJoins(s: seq<byte>, a: nat, b: nat, c: nat)
    requires a <= b <= c <= |s|
    ensures s[a..c] == s[a..b] + s[b..c]
  {
  }

  lemma FileLba(j: nat)
    requires j < 16347
    ensures Lba(ImageMount(), 3 + j) == 296 + 8 * j
  {
  }

  /** The chain from the file's cluster `j` on reads as the file from there on. */
  lemma {:induction false} ChainBytes(img: seq<byte>, elf: seq<byte>, j: nat, len: nat)
    requires IsImage(img, elf) && |elf| <= Capacity && j < Clusters(|elf|) && 4096 * j + len <= |elf|
    ensures FromChain(img, ImageMount(), 3 + j, len) == elf[4096 * j..4096 * j + len]
    decreases len
  {
    hide IsImage, FromSectors, Next, Lba;
    if len > 0 {
      FileLba(j);
      ClusterBytes(img, elf, j, 0, len);
      NextInImage(img, elf, 3 + j);
      if len > 4096 {
        ChainBytes(img, elf, j + 1, len - 4096);
        assert elf[4096 * j..4096 * j + len] == elf[4096 * j..4096 * j + 4096] + elf[4096 * (j + 1)..4096 * j + len];
      }
    }
  }

  // ---- The directory of the image --------------------------------------------------------

  /** The directory sector: one live entry, then the end mark. */
  lemma RootSector(img: seq<byte>, elf: seq<byte>)
    requires IsImage(img, elf)
    ensures Readable(img, 288)
    ensures var sec := SectorAt(img, 288);
            && sec[..11] == InitName && sec[11] == 0x20 && sec[32] == 0
            && U16(sec, 20) == 0 && U16(sec, 26) == 3 && U32(sec, 28) == |elf|
  {
    hide IsBpb, IsFat, IsDirent;
    var sec := SectorAt(img, 288);
    var d := img[288 * 512..288 * 512 + 32];
    assert HasAt(img, 288 * 512, d) && HasAt(img, 512 * 288, sec);
    DirentFields(d, |elf|);
    DirentMoves(img, sec, d);
    FieldsMove(img, 512 * 288, sec, 32);
  }

  lemma DirentFields(d: seq<byte>, size: nat)
    requires IsDirent(d, InitName, 3, size)
    ensures |d| == 32 && d[..11] == InitName && d[11] == 0x20 && U16(d, 20) == 0 && U16(d, 26) == 3 && U32(d, 28) == size
  {
    hide U16, U32;
  }

  lemma DirentMoves(img: seq<byte>, sec: seq<byte>, d: seq<byte>)
    requires |sec| == 512 && |d| == 32 && HasAt(img, 288 * 512, d) && HasAt(img, 512 * 288, sec)
    ensures sec[..11] == d[..11] && sec[11] == d[11]
    ensures U16(sec, 20) == U16(d, 20) && U16(sec, 26) == U16(d, 26) && U32(sec, 28) == U32(d, 28)
  {
    hide HasAt, U16, U32;
    SliceOfSlice(img, 512 * 288, sec, 0, 11);
    SliceOfSlice(img, 288 * 512, d, 0, 11);
    FieldsMove(img, 512 * 288, sec, 11);
    FieldsMove(img, 288 * 512, d, 11);
    FieldsMove(img, 512 * 288, sec, 20);
    FieldsMove(img, 288 * 512, d, 20);
    FieldsMove(img, 512 * 288, sec, 26);
    FieldsMove(img, 288 * 512, d, 26);
    FieldsMove(img, 512 * 288, sec, 28);
    FieldsMove(img, 288 * 512, d, 28);
  }

  lemma RootScan(sec: seq<byte>, size: nat, target: seq<byte>)
    requires |sec| == 512 && |target| == 11
    requires sec[..11] == InitName && sec[11] == 0x20 && sec[32] == 0
    requires U16(sec, 20) == 0 && U16(sec, 26) == 3 && U32(sec, 28) == size
    ensures ScanFrom(sec, target, 0) == if target == InitName then Match(3, size) else Stop
  {
    hide U16, U32;
    assert sec[0] == sec[..11][0];
    assert sec[32 * 0..32 * 0 + 11] == sec[..11];
    assert ScanFrom(sec, target, 1) == Stop;
  }

  lemma RootLba()
    ensures Lba(ImageMount(), 2) == 288 && (288 + 0) % Word == 288 && !IsEof(2)
  {
  }

  /** Every name other than the file's is reported as missing. */
  lemma ImageFinds(img: seq<byte>, elf: seq<byte>, target: seq<byte>)
    requires IsImage(img, elf) && |target| == 11
    ensures Settles(img, ImageMount(), target, 2, 0)
    ensures Find(img, ImageMount(), target, 2, 0) == if target == InitName then Match(3, |elf|) else Stop
  {
    hide IsImage, Readable, SectorAt, U16, U32, ScanFrom, Lba;
    RootSector(img, elf);
    RootScan(SectorAt(img, 288), |elf|, target);
    RootLba();
    assert ScanCluster(img, ImageMount(), target, 2) == ScanFrom(SectorAt(img, 288), target, 0);
  }

  /** "/init.elf". */
  const InitPath: seq<byte> := [0x2F, 0x69, 0x6E, 0x69, 0x74, 0x2E, 0x65, 0x6C, 0x66]

  lemma InitPathIsInitName()
    ensures To83(InitPath) == InitName
  {
    hide To83;
    PathMatchesEntry([0x69, 0x6E, 0x69, 0x74], [0x65, 0x6C, 0x66]);
    assert [0x2F] + [0x69, 0x6E, 0x69, 0x74] + [0x2E] + [0x65, 0x6C, 0x66] == InitPath;
    assert UpperAll([0x69, 0x6E, 0x69, 0x74]) == [0x49, 0x4E, 0x49, 0x54];
    assert UpperAll([0x65, 0x6C, 0x66]) == [0x45, 0x4C, 0x46];
  }

  // ---- The round trip --------------------------------------------------------------------

  /**
   * Building an image, mounting it, opening a path and reading up to `len` bytes: the file is found
   * exactly under the paths that stand for INIT.ELF, at cluster 3, with its length, and what is read
   * is its beginning.
   */
  method BuildMountRead(elf: seq<byte>, path: seq<byte>, len: nat) returns (found: bool, node: Node, bytes: seq<byte>)
    requires |elf| <= Capacity
    ensures found <==> To83(path) == InitName
    ensures path == InitPath ==> found
    ensures found ==> node == Node(3, |elf|, true) && bytes == elf[..Min(len, |elf|)]
    ensures !found ==> bytes == []
  {
    hide IsImage, MountOf, Settles, Find, FromChain, To83;
    var img := UsbImage.BuildImage(elf);
    InitPathIsInitName();
    ImageMounts(img[..], elf);
    ImageFinds(img[..], elf, To83(path));
    var volume := new Volume(img[..]);
    var fs := new FileSystem(volume);
    fs.Init();
    found, node := fs.Open(path, 0);
    var buf := new byte[len];
    var done := fs.Read(node, buf, len);
    bytes := buf[..done];
    if found {
      ChainBytes(img[..], elf, 0, Min(len, |elf|));
    }
  }
}
