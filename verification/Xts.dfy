/**
 * Sector encryption as the kernel computes it: the tweak is a pair of 64-bit words overlaid on
 * sixteen little-endian bytes.
 */
module Xts {
  import opened AesBytes
  import opened AesSpec
  import opened XtsSpec
  import opened Aes

  // ---- Words over bytes ------------------------------------------------------------------

  function Low(w: bv64): bv8 { (w & 0xFF) as bv8 }

  function Shr(w: bv64, k: nat): bv64
    requires k < 8
  {
    if k == 0 then w else if k == 1 then w >> 8 else if k == 2 then w >> 16 else if k == 3 then w >> 24
    else if k == 4 then w >> 32 else if k == 5 then w >> 40 else if k == 6 then w >> 48 else w >> 56
  }

  /** Byte `k` of a little-endian word. */
  function LeByte(w: bv64, k: nat): bv8
    requires k < 8
  {
    Low(Shr(w, k))
  }

  function Join(a: bv8, b: bv8, c: bv8, d: bv8, e: bv8, f: bv8, g: bv8, h: bv8): bv64 {
    (a as bv64) | ((b as bv64) << 8) | ((c as bv64) << 16) | ((d as bv64) << 24)
    | ((e as bv64) << 32) | ((f as bv64) << 40) | ((g as bv64) << 48) | ((h as bv64) << 56)
  }

  function PairByte(lo: bv64, hi: bv64, k: nat): bv8
    requires k < 16
  {
    if k < 8 then LeByte(lo, k) else LeByte(hi, k - 8)
  }

  /** Two words as the sixteen bytes they occupy. */
  function Bytes(lo: bv64, hi: bv64): Block { seq(16, k requires 0 <= k < 16 => PairByte(lo, hi, k)) }

  lemma JoinBytes(a: bv8, b: bv8, c: bv8, d: bv8, e: bv8, f: bv8, g: bv8, h: bv8)
    ensures var w := Join(a, b, c, d, e, f, g, h);
            LeByte(w, 0) == a && LeByte(w, 1) == b && LeByte(w, 2) == c && LeByte(w, 3) == d
            && LeByte(w, 4) == e && LeByte(w, 5) == f && LeByte(w, 6) == g && LeByte(w, 7) == h
  {
  }

  function Xor64(a: bv64, b: bv64): bv64 { a ^ b }

  lemma ShrXor0(a: bv64, b: bv64)
    ensures Shr(Xor64(a, b), 0) == Xor64(Shr(a, 0), Shr(b, 0))
  {
  }

  lemma ShrXor1(a: bv64, b: bv64)
    ensures Shr(Xor64(a, b), 1) == Xor64(Shr(a, 1), Shr(b, 1))
  {
  }

  lemma ShrXor2(a: bv64, b: bv64)
    ensures Shr(Xor64(a, b), 2) == Xor64(Shr(a, 2), Shr(b, 2))
  {
  }

  lemma ShrXor3(a: bv64, b: bv64)
    ensures Shr(Xor64(a, b), 3) == Xor64(Shr(a, 3), Shr(b, 3))
  {
  }

  lemma ShrXor4(a: bv64, b: bv64)
    ensures Shr(Xor64(a, b), 4) == Xor64(Shr(a, 4), Shr(b, 4))
  {
  }

  lemma ShrXor5(a: bv64, b: bv64)
    ensures Shr(Xor64(a, b), 5) == Xor64(Shr(a, 5), Shr(b, 5))
  {
  }

  lemma ShrXor6(a: bv64, b: bv64)
    ensures Shr(Xor64(a, b), 6) == Xor64(Shr(a, 6), Shr(b, 6))
  {
  }

  lemma ShrXor7(a: bv64, b: bv64)
    ensures Shr(Xor64(a, b), 7) == Xor64(Shr(a, 7), Shr(b, 7))
  {
  }

  lemma ShrXor(a: bv64, b: bv64, k: nat)
    requires k < 8
    ensures Shr(Xor64(a, b), k) == Xor64(Shr(a, k), Shr(b, k))
  {
    hide Shr, Xor64;
    ShrXor0(a, b);
    ShrXor1(a, b);
    ShrXor2(a, b);
    ShrXor3(a, b);
    ShrXor4(a, b);
    ShrXor5(a, b);
    ShrXor6(a, b);
    ShrXor7(a, b);
    assert k == 0 || k == 1 || k == 2 || k == 3 || k == 4 || k == 5 || k == 6 || k == 7;
  }

  lemma LowXor(a: bv64, b: bv64)
    ensures Low(Xor64(a, b)) == Xor(Low(a), Low(b))
  {
  }

  lemma LeByteXor(a: bv64, b: bv64, k: nat)
    requires k < 8
    ensures LeByte(Xor64(a, b), k) == Xor(LeByte(a, k), LeByte(b, k))
  {
    hide Low, Xor, Xor64, Shr;
    ShrXor(a, b, k);
    LowXor(Shr(a, k), Shr(b, k));
  }

  lemma BytesXor(a: bv64, b: bv64, c: bv64, d: bv64)
    ensures Bytes(Xor64(a, c), Xor64(b, d)) == XorBlock(Bytes(a, b), Bytes(c, d))
  {
    hide LeByte, Xor, Xor64;
    forall k | 0 <= k < 16
      ensures Bytes(Xor64(a, c), Xor64(b, d))[k] == XorBlock(Bytes(a, b), Bytes(c, d))[k]
    {
      if k < 8 {
        LeByteXor(a, c, k);
      } else {
        LeByteXor(b, d, k - 8);
      }
    }
  }

  // ---- Multiplication by alpha -----------------------------------------------------------

  function Shl1(w: bv64): bv64 { w << 1 }

  function Top(w: bv64): bv64 { w >> 63 }

  function Reduce(carry: bv64): bv64 { if carry != 0 then 0x87 else 0 }

  function Or64(a: bv64, b: bv64): bv64 { a | b }

  function AlphaLo(lo: bv64, hi: bv64): bv64 { Xor64(Shl1(lo), Reduce(Top(hi))) }

  function AlphaHi(lo: bv64, hi: bv64): bv64 { Or64(Shl1(hi), Top(lo)) }

  lemma DoubledLowByte(w: bv64, k: nat)
    requires k < 4
    ensures k == 0 ==> LeByte(Shl1(w), 0) == LeByte(w, 0) << 1
    ensures k > 0 ==> LeByte(Shl1(w), k) == (LeByte(w, k) << 1) | (LeByte(w, k - 1) >> 7)
  {
  }

  lemma DoubledHighByte(w: bv64, k: nat)
    requires 4 <= k < 8
    ensures LeByte(Shl1(w), k) == (LeByte(w, k) << 1) | (LeByte(w, k - 1) >> 7)
  {
  }

  lemma DoubledByte(w: bv64, k: nat)
    requires k < 8
    ensures k == 0 ==> LeByte(Shl1(w), 0) == LeByte(w, 0) << 1
    ensures k > 0 ==> LeByte(Shl1(w), k) == (LeByte(w, k) << 1) | (LeByte(w, k - 1) >> 7)
  {
    hide LeByte, Shl1;
    if k < 4 {
      DoubledLowByte(w, k);
    } else {
      DoubledHighByte(w, k);
    }
  }

  lemma ReduceByte(hi: bv64, k: nat)
    requires k < 8
    ensures k == 0 ==> LeByte(Reduce(Top(hi)), 0) == if LeByte(hi, 7) & 0x80 != 0 then 0x87 else 0
    ensures k > 0 ==> LeByte(Reduce(Top(hi)), k) == 0
  {
  }

  lemma TopByte(lo: bv64, k: nat)
    requires k < 8
    ensures k == 0 ==> LeByte(Top(lo), 0) == LeByte(lo, 7) >> 7
    ensures k > 0 ==> LeByte(Top(lo), k) == 0
  {
  }

  lemma OrIsXor(lo: bv64, hi: bv64)
    ensures Or64(Shl1(hi), Top(lo)) == Xor64(Shl1(hi), Top(lo))
  {
  }

  lemma OrIsXorByte(a: bv8, b: bv8)
    ensures Xor(a << 1, b >> 7) == (a << 1) | (b >> 7)
  {
  }

  lemma AlphaLoByte(lo: bv64, hi: bv64, k: nat)
    requires k < 8
    ensures k == 0 ==> LeByte(AlphaLo(lo, hi), 0) == Xor(LeByte(lo, 0) << 1, if LeByte(hi, 7) & 0x80 != 0 then 0x87 else 0)
    ensures k > 0 ==> LeByte(AlphaLo(lo, hi), k) == (LeByte(lo, k) << 1) | (LeByte(lo, k - 1) >> 7)
  {
    hide Xor, Xor64, LeByte, Reduce, Top, Shl1;
    LeByteXor(Shl1(lo), Reduce(Top(hi)), k);
    DoubledByte(lo, k);
    ReduceByte(hi, k);
    XorZero(LeByte(Shl1(lo), k));
  }

  lemma AlphaHiByte(lo: bv64, hi: bv64, k: nat)
    requires k < 8
    ensures k == 0 ==> LeByte(AlphaHi(lo, hi), 0) == (LeByte(hi, 0) << 1) | (LeByte(lo, 7) >> 7)
    ensures k > 0 ==> LeByte(AlphaHi(lo, hi), k) == (LeByte(hi, k) << 1) | (LeByte(hi, k - 1) >> 7)
  {
    hide Xor, Xor64, Or64, LeByte, Top, Shl1;
    OrIsXor(lo, hi);
    LeByteXor(Shl1(hi), Top(lo), k);
    DoubledByte(hi, k);
    TopByte(lo, k);
    XorZero(LeByte(Shl1(hi), k));
    OrIsXorByte(LeByte(hi, 0), LeByte(lo, 7));
  }

  /** The word arithmetic doubles the sixteen bytes as the standard asks. */
  lemma AlphaDoubles(lo: bv64, hi: bv64)
    ensures Bytes(AlphaLo(lo, hi), AlphaHi(lo, hi)) == Double(Bytes(lo, hi))
  {
    hide LeByte, AlphaLo, AlphaHi;
    forall k | 0 <= k < 16
      ensures Bytes(AlphaLo(lo, hi), AlphaHi(lo, hi))[k] == Double(Bytes(lo, hi))[k]
    {
      if k < 8 {
        AlphaLoByte(lo, hi, k);
      } else {
        AlphaHiByte(lo, hi, k - 8);
      }
    }
  }

  /** `gf_mul_alpha`. */
  method GfMulAlpha(tweak: array<bv64>)
    requires tweak.Length == 2
    modifies tweak
    ensures Bytes(tweak[0], tweak[1]) == Double(old(Bytes(tweak[0], tweak[1])))
  {
    hide Bytes, Double, Shl1, Top, Reduce, Xor64, Or64;
    AlphaDoubles(tweak[0], tweak[1]);
    var carry := Top(tweak[1]);
    tweak[1] := Or64(Shl1(tweak[1]), Top(tweak[0]));
    tweak[0] := Xor64(Shl1(tweak[0]), Reduce(carry));
  }

  // ---- The overlay -----------------------------------------------------------------------

  /** Copies sixteen bytes from `from` on into two words. */
  method LoadWords(src: array<bv8>, from: nat, words: array<bv64>)
    requires from + 16 <= src.Length && words.Length == 2
    modifies words
    ensures Bytes(words[0], words[1]) == src[from..from + 16]
  {
    hide Join, LeByte;
    words[0] := Join(src[from], src[from + 1], src[from + 2], src[from + 3],
                     src[from + 4], src[from + 5], src[from + 6], src[from + 7]);
    words[1] := Join(src[from + 8], src[from + 9], src[from + 10], src[from + 11],
                     src[from + 12], src[from + 13], src[from + 14], src[from + 15]);
    JoinBytes(src[from], src[from + 1], src[from + 2], src[from + 3], src[from + 4], src[from + 5], src[from + 6], src[from + 7]);
    JoinBytes(src[from + 8], src[from + 9], src[from + 10], src[from + 11],
              src[from + 12], src[from + 13], src[from + 14], src[from + 15]);
    assert Bytes(words[0], words[1]) == src[from..from + 16];
  }

  /** Copies two words over the sixteen bytes from `to` on. */
  method StoreWords(words: array<bv64>, dst: array<bv8>, to: nat)
    requires to + 16 <= dst.Length && words.Length == 2
    modifies dst
    ensures dst[..] == old(dst[..])[..to] + Bytes(words[0], words[1]) + old(dst[..])[to + 16..]
  {
    hide PairByte;
    for k := 0 to 16
      invariant forall i :: 0 <= i < dst.Length && !(to <= i < to + k) ==> dst[i] == old(dst[i])
      invariant forall i :: to <= i < to + k ==> dst[i] == Bytes(words[0], words[1])[i - to]
    {
      dst[to + k] := PairByte(words[0], words[1], k);
    }
  }

  /** `aes256_encrypt_block` on a pair of words, possibly in place. */
  method EncryptWords(w: array<bv32>, src: array<bv64>, dst: array<bv64>)
    requires w.Length == 60 && src.Length == 2 && dst.Length == 2
    modifies dst
    ensures Bytes(dst[0], dst[1]) == Encrypt(w[..], old(Bytes(src[0], src[1])))
  {
    hide Encrypt, Bytes;
    var b := new bv8[16];
    StoreWords(src, b, 0);
    assert b[..] == Bytes(src[0], src[1]);
    EncryptBlock(w, b, b);
    LoadWords(b, 0, dst);
    assert b[..16] == b[..];
  }

  /** `aes256_decrypt_block` on a pair of words, possibly in place. */
  method DecryptWords(w: array<bv32>, src: array<bv64>, dst: array<bv64>)
    requires w.Length == 60 && src.Length == 2 && dst.Length == 2
    modifies dst
    ensures Bytes(dst[0], dst[1]) == Decrypt(w[..], old(Bytes(src[0], src[1])))
  {
    hide Decrypt, Bytes;
    var b := new bv8[16];
    StoreWords(src, b, 0);
    assert b[..] == Bytes(src[0], src[1]);
    DecryptBlock(w, b, b);
    LoadWords(b, 0, dst);
    assert b[..16] == b[..];
  }

  method XorWords(a: array<bv64>, b: array<bv64>)
    requires a.Length == 2 && b.Length == 2 && a != b
    modifies a
    ensures Bytes(a[0], a[1]) == XorBlock(old(Bytes(a[0], a[1])), Bytes(b[0], b[1]))
  {
    hide Bytes, Xor64;
    BytesXor(a[0], a[1], b[0], b[1]);
    a[0] := Xor64(a[0], b[0]);
    a[1] := Xor64(a[1], b[1]);
  }

  // ---- Sectors ---------------------------------------------------------------------------

  /** `aes256_xts_init`. */
  method Init(w1: array<bv32>, w2: array<bv32>, key: seq<bv8>)
    requires w1.Length == 60 && w2.Length == 60 && w1 != w2 && |key| == 64
    modifies w1, w2
    ensures w1[..] == Expand(key[..32]) && w2[..] == Expand(key[32..])
  {
    ExpandKey(w1, key[..32]);
    ExpandKey(w2, key[32..]);
  }

  lemma NumberedBytes(lba: bv32)
    ensures Bytes(lba as bv64, 0) == Numbered(lba)
  {
    hide Low, ByteOf;
    NumberedByte(lba);
  }

  lemma NumberedByte(lba: bv32)
    ensures Low(0) == 0
    ensures forall k :: 0 <= k < 8 ==> LeByte(0, k) == 0
    ensures LeByte(lba as bv64, 0) == ByteOf(lba, 3) && LeByte(lba as bv64, 1) == ByteOf(lba, 2)
    ensures LeByte(lba as bv64, 2) == ByteOf(lba, 1) && LeByte(lba as bv64, 3) == ByteOf(lba, 0)
    ensures var w := lba as bv64; forall k :: 4 <= k < 8 ==> LeByte(w, k) == 0
  {
  }

  /** What replacing block `j` of a buffer leaves before and after it. */
  lemma Advance(was: seq<bv8>, now: seq<bv8>, j: nat, part: Block)
    requires |was| == 512 && j < 32
    requires now == was[..16 * j] + part + was[16 * j + 16..]
    ensures |now| == 512
    ensures now[..16 * (j + 1)] == was[..16 * j] + part
    ensures now[16 * (j + 1)..] == was[16 * (j + 1)..]
  {
  }

  lemma NextPart(now: seq<bv8>, s: Sector, j: nat)
    requires |now| == 512 && j < 32
    requires now[16 * j..] == s[16 * j..]
    ensures Part(now, j) == Part(s, j)
    ensures now[16 * (j + 1)..] == s[16 * (j + 1)..]
  {
    assert now[16 * j..][..16] == Part(now, j) && s[16 * j..][..16] == Part(s, j);
    assert now[16 * j..][16..] == now[16 * (j + 1)..] && s[16 * j..][16..] == s[16 * (j + 1)..];
  }

  /** One turn of the loop of `aes256_xts_encrypt_sector`: block `j` from `src` to `dst`, and the next tweak. */
  method EncipherPart(w1: array<bv32>, tweak: array<bv64>, src: array<bv8>, dst: array<bv8>, j: nat)
    requires w1.Length == 60 && tweak.Length == 2 && src.Length == 512 && dst.Length == 512 && j < 32
    modifies dst, tweak
    ensures dst[..] == old(dst[..])[..16 * j] + EncryptPart(w1[..], old(Bytes(tweak[0], tweak[1])), old(Part(src[..], j))) + old(dst[..])[16 * j + 16..]
    ensures Bytes(tweak[0], tweak[1]) == Double(old(Bytes(tweak[0], tweak[1])))
  {
    hide Bytes, Encrypt, Double, XorBlock;
    var blockIn, blockOut := new bv64[2], new bv64[2];
    LoadWords(src, j * 16, blockIn);
    assert src[..][16 * j..16 * j + 16] == src[j * 16..j * 16 + 16];
    XorWords(blockIn, tweak);
    EncryptWords(w1, blockIn, blockOut);
    XorWords(blockOut, tweak);
    StoreWords(blockOut, dst, j * 16);
    GfMulAlpha(tweak);
  }

  /** `aes256_xts_encrypt_sector`; the two buffers may be the same. */
  method Encipher(w1: array<bv32>, w2: array<bv32>, lba: bv32, src: array<bv8>, dst: array<bv8>)
    requires w1.Length == 60 && w2.Length == 60 && src.Length == 512 && dst.Length == 512
    modifies dst
    ensures dst[..] == EncryptSector(w1[..], w2[..], lba, old(src[..]))
  {
    hide Bytes, Encrypt, Double, EncryptPart, Numbered;
    var tweak := new bv64[2];
    tweak[0] := lba as bv64;
    tweak[1] := 0;
    NumberedBytes(lba);
    EncryptWords(w2, tweak, tweak);
    ghost var s := src[..];
    for block := 0 to 32
      invariant fresh(tweak) && Bytes(tweak[0], tweak[1]) == Tweak(w2[..], lba, block)
      invariant dst[..][..16 * block] == EncryptParts(w1[..], w2[..], lba, s, block)
      invariant src[..][16 * block..] == s[16 * block..]
    {
      ghost var was := dst[..];
      NextPart(src[..], s, block);
      EncipherPart(w1, tweak, src, dst, block);
      Advance(was, dst[..], block, EncryptPart(w1[..], Tweak(w2[..], lba, block), Part(s, block)));
    }
    assert dst[..][..512] == dst[..];
  }

  /** One turn of the loop of `aes256_xts_decrypt_sector`: block `j` from `src` to `dst`, and the next tweak. */
  method DecipherPart(w1: array<bv32>, tweak: array<bv64>, src: array<bv8>, dst: array<bv8>, j: nat)
    requires w1.Length == 60 && tweak.Length == 2 && src.Length == 512 && dst.Length == 512 && j < 32
    modifies dst, tweak
    ensures dst[..] == old(dst[..])[..16 * j] + DecryptPart(w1[..], old(Bytes(tweak[0], tweak[1])), old(Part(src[..], j))) + old(dst[..])[16 * j + 16..]
    ensures Bytes(tweak[0], tweak[1]) == Double(old(Bytes(tweak[0], tweak[1])))
  {
    hide Bytes, Decrypt, Double, XorBlock;
    var blockIn, blockOut := new bv64[2], new bv64[2];
    LoadWords(src, j * 16, blockIn);
    assert src[..][16 * j..16 * j + 16] == src[j * 16..j * 16 + 16];
    XorWords(blockIn, tweak);
    DecryptWords(w1, blockIn, blockOut);
    XorWords(blockOut, tweak);
    StoreWords(blockOut, dst, j * 16);
    GfMulAlpha(tweak);
  }

  /** `aes256_xts_decrypt_sector`; the two buffers may be the same. */
  method Decipher(w1: array<bv32>, w2: array<bv32>, lba: bv32, src: array<bv8>, dst: array<bv8>)
    requires w1.Length == 60 && w2.Length == 60 && src.Length == 512 && dst.Length == 512
    modifies dst
    ensures dst[..] == DecryptSector(w1[..], w2[..], lba, old(src[..]))
  {
    hide Bytes, Encrypt, Decrypt, Double, DecryptPart, Numbered;
    var tweak := new bv64[2];
    tweak[0] := lba as bv64;
    tweak[1] := 0;
    NumberedBytes(lba);
    EncryptWords(w2, tweak, tweak);
    ghost var s := src[..];
    for block := 0 to 32
      invariant fresh(tweak) && Bytes(tweak[0], tweak[1]) == Tweak(w2[..], lba, block)
      invariant dst[..][..16 * block] == DecryptParts(w1[..], w2[..], lba, s, block)
      invariant src[..][16 * block..] == s[16 * block..]
    {
      ghost var was := dst[..];
      NextPart(src[..], s, block);
      DecipherPart(w1, tweak, src, dst, block);
      Advance(was, dst[..], block, DecryptPart(w1[..], Tweak(w2[..], lba, block), Part(s, block)));
    }
    assert dst[..][..512] == dst[..];
  }

  /** Enciphering a buffer in place and deciphering it in place leaves it as it was. */
  method InPlace(key: seq<bv8>, lba: bv32, buffer: array<bv8>)
    requires |key| == 64 && buffer.Length == 512
    modifies buffer
    ensures buffer[..] == old(buffer[..])
  {
    hide EncryptSector, DecryptSector, Expand;
    var w1, w2 := new bv32[60], new bv32[60];
    Init(w1, w2, key);
    Encipher(w1, w2, lba, buffer, buffer);
    Decipher(w1, w2, lba, buffer, buffer);
    SectorRoundTrip(key, lba, old(buffer[..]));
  }
}
