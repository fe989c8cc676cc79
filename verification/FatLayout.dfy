/** Little-endian fields of a disk image, and the layout both sides of the FAT32 image agree on. */
module FatLayout {
  type byte = x: int | 0 <= x < 256

  const Word: nat := 0x1_0000_0000

  /** The end-of-chain mark. */
  const EndMark: nat := 0x0FFF_FFFF

  function U16(s: seq<byte>, at: nat): (r: nat)
    requires at + 2 <= |s|
    ensures r < 0x1_0000
  {
    (s[at] as int) + 0x100 * (s[at + 1] as int)
  }

  function U32(s: seq<byte>, at: nat): (r: nat)
    requires at + 4 <= |s|
    ensures r < Word
  {
    (s[at] as int) + 0x100 * (s[at + 1] as int) + 0x1_0000 * (s[at + 2] as int) + 0x100_0000 * (s[at + 3] as int)
  }

  /** `s` continues with `t` at position `at`. */
  predicate HasAt(s: seq<byte>, at: nat, t: seq<byte>) {
    at + |t| <= |s| && s[at..at + |t|] == t
  }

  /** Fields inside a copied part read the same. */
  lemma FieldsMove(s: seq<byte>, at: nat, t: seq<byte>, k: nat)
    requires HasAt(s, at, t)
    ensures k < |t| ==> s[at + k] == t[k]
    ensures k + 2 <= |t| ==> U16(s, at + k) == U16(t, k)
    ensures k + 4 <= |t| ==> U32(s, at + k) == U32(t, k)
  {
    if k < |t| {
      assert s[at..at + |t|][k] == t[k];
    }
    if k + 2 <= |t| {
      assert s[at..at + |t|][k + 1] == t[k + 1];
    }
    if k + 4 <= |t| {
      assert s[at..at + |t|][k + 2] == t[k + 2];
      assert s[at..at + |t|][k + 3] == t[k + 3];
    }
  }

  // ---- The image -------------------------------------------------------------------------

  const SectorSize: nat := 512
  const ClusterSize: nat := 4096
  const TotalSectors: nat := 131072
  const FatSectors: nat := 128
  const DataStart: nat := 288
  /** The largest file the data area takes after the root directory. */
  const Capacity: nat := 16347 * ClusterSize

  /** How many clusters a file of `n` bytes takes: at least one. */
  function Clusters(n: nat): nat { if n == 0 then 1 else (n + 4095) / 4096 }

  /** The table entry of cluster `c` for one file of `k` clusters from cluster 3 on. */
  function FatEntry(k: nat, c: nat): nat {
    if c == 0 then 0x0FFF_FFF8
    else if c <= 2 then EndMark
    else if c < 2 + k then c + 1
    else if c == 2 + k then EndMark
    else 0
  }

  /** Bytes 0 to 15 of the boot sector. */
  predicate BpbStart(b: seq<byte>)
    requires |b| == 512
  {
    && b[..11] == [0xEB, 0x58, 0x90, 0x4D, 0x53, 0x44, 0x4F, 0x53, 0x35, 0x2E, 0x30]
    && U16(b, 11) == 512 && b[13] == 8 && U16(b, 14) == 32
  }

  /** Bytes 16 to 31. */
  predicate BpbMiddle(b: seq<byte>)
    requires |b| == 512
  {
    && b[16] == 2 && U16(b, 17) == 0 && U16(b, 19) == 0 && b[21] == 0xF8 && U16(b, 22) == 0
    && U16(b, 24) == 63 && U16(b, 26) == 255 && U32(b, 28) == 0
  }

  /** Bytes 32 to 51. */
  predicate BpbLarge(b: seq<byte>)
    requires |b| == 512
  {
    && U32(b, 32) == TotalSectors && U32(b, 36) == FatSectors && U16(b, 40) == 0 && U16(b, 42) == 0
    && U32(b, 44) == 2 && U16(b, 48) == 1 && U16(b, 50) == 6
  }

  /** Bytes 52 to the end. */
  predicate BpbEnd(b: seq<byte>)
    requires |b| == 512
  {
    && b[64] == 0x80 && b[66] == 0x29 && U32(b, 67) == 0x5A5A_0001
    && HasAt(b, 71, [0x53, 0x54, 0x59, 0x58, 0x42, 0x4F, 0x4F, 0x54, 0x20, 0x20, 0x20])
    && HasAt(b, 82, [0x46, 0x41, 0x54, 0x33, 0x32, 0x20, 0x20, 0x20])
    && b[510] == 0x55 && b[511] == 0xAA
  }

  /** The boot sector, field by field. */
  predicate IsBpb(b: seq<byte>) { |b| == 512 && BpbStart(b) && BpbMiddle(b) && BpbLarge(b) && BpbEnd(b) }

  /** A file allocation table for one file of `k` clusters. */
  predicate IsFat(fat: seq<byte>, k: nat) {
    && |fat| == FatSectors * SectorSize
    && forall c :: 0 <= c < 16384 ==> EntryIs(fat, c, FatEntry(k, c))
  }

  predicate EntryIs(fat: seq<byte>, c: nat, v: nat) {
    4 * c + 4 <= |fat| && U32(fat, 4 * c) == v
  }

  /** "INIT    ELF". */
  const InitName: seq<byte> := [0x49, 0x4E, 0x49, 0x54, 0x20, 0x20, 0x20, 0x20, 0x45, 0x4C, 0x46]

  /** A directory entry. */
  predicate IsDirent(d: seq<byte>, name: seq<byte>, cluster: nat, size: nat)
    requires |name| == 11
  {
    && |d| == 32 && d[..11] == name && d[11] == 0x20
    && U16(d, 20) == cluster / 0x1_0000 && U16(d, 26) == cluster % 0x1_0000 && U32(d, 28) == size
  }

  /** The image of one file. */
  predicate IsImage(img: seq<byte>, elf: seq<byte>) {
    && |img| == TotalSectors * SectorSize
    && IsBpb(img[..512])
    && IsFat(img[32 * 512..160 * 512], Clusters(|elf|))
    && IsFat(img[160 * 512..288 * 512], Clusters(|elf|))
    && IsDirent(img[288 * 512..288 * 512 + 32], InitName, 3, |elf|)
    && (forall i :: 288 * 512 + 32 <= i < 296 * 512 ==> img[i] == 0)
    && HasAt(img, 296 * 512, elf)
  }
}
