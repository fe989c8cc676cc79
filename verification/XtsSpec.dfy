/**
 * XTS-AES over 512-byte sectors, as IEEE 1619 describes it on bytes, and the round trip of a
 * sector.
 */
module XtsSpec {
  import opened AesBytes
  import opened AesSpec

  type Sector = s: seq<bv8> | |s| == 512 witness seq(512, _ => 0)

  /** Byte `k` of the tweak times alpha: each byte doubled with the carry of the one before, the
      last carry reduced into the first byte. */
  function DoubleByte(t: Block, k: nat): bv8
    requires k < 16
  {
    if k == 0 then (t[0] << 1) ^ (if t[15] & 0x80 != 0 then 0x87 else 0) else (t[k] << 1) | (t[k - 1] >> 7)
  }

  function Double(t: Block): Block { seq(16, k requires 0 <= k < 16 => DoubleByte(t, k)) }

  /** A sector number as a little-endian block. */
  function Numbered(lba: bv32): Block {
    [ByteOf(lba, 3), ByteOf(lba, 2), ByteOf(lba, 1), ByteOf(lba, 0), 0, 0, 0, 0, 0, 0, 0, 0, 0, 0, 0, 0]
  }

  /** The tweak of block `j` of a sector. */
  function Tweak(w2: Schedule, lba: bv32, j: nat): Block {
    if j == 0 then Encrypt(w2, Numbered(lba)) else Double(Tweak(w2, lba, j - 1))
  }

  function Part(s: seq<bv8>, j: nat): Block
    requires 16 * j + 16 <= |s|
  {
    s[16 * j..16 * j + 16]
  }

  function EncryptPart(w1: Schedule, t: Block, p: Block): Block { XorBlock(Encrypt(w1, XorBlock(p, t)), t) }

  function DecryptPart(w1: Schedule, t: Block, c: Block): Block { XorBlock(Decrypt(w1, XorBlock(c, t)), t) }

  /** The first `n` blocks encrypted. */
  function EncryptParts(w1: Schedule, w2: Schedule, lba: bv32, s: Sector, n: nat): (r: seq<bv8>)
    requires n <= 32
    ensures |r| == 16 * n
  {
    if n == 0 then [] else EncryptParts(w1, w2, lba, s, n - 1) + EncryptPart(w1, Tweak(w2, lba, n - 1), Part(s, n - 1))
  }

  /** The first `n` blocks decrypted. */
  function DecryptParts(w1: Schedule, w2: Schedule, lba: bv32, s: Sector, n: nat): (r: seq<bv8>)
    requires n <= 32
    ensures |r| == 16 * n
  {
    if n == 0 then [] else DecryptParts(w1, w2, lba, s, n - 1) + DecryptPart(w1, Tweak(w2, lba, n - 1), Part(s, n - 1))
  }

  function EncryptSector(w1: Schedule, w2: Schedule, lba: bv32, s: Sector): Sector { EncryptParts(w1, w2, lba, s, 32) }

  function DecryptSector(w1: Schedule, w2: Schedule, lba: bv32, s: Sector): Sector { DecryptParts(w1, w2, lba, s, 32) }

  // ---- Round trip ------------------------------------------------------------------------

  lemma XorBlockTwice(a: Block, b: Block)
    ensures XorBlock(XorBlock(a, b), b) == a
  {
    hide Xor;
    forall i | 0 <= i < 16
      ensures XorBlock(XorBlock(a, b), b)[i] == a[i]
    {
      XorTwice(a[i], b[i]);
    }
  }

  lemma PartUndone(w1: Schedule, t: Block, p: Block)
    ensures DecryptPart(w1, t, EncryptPart(w1, t, p)) == p
  {
    hide Encrypt, Decrypt, XorBlock;
    XorBlockTwice(Encrypt(w1, XorBlock(p, t)), t);
    DecryptUndoesEncrypt(w1, XorBlock(p, t));
    XorBlockTwice(p, t);
  }

  lemma {:induction false} EncryptedPart(w1: Schedule, w2: Schedule, lba: bv32, s: Sector, n: nat, j: nat)
    requires j < n <= 32
    ensures Part(EncryptParts(w1, w2, lba, s, n), j) == EncryptPart(w1, Tweak(w2, lba, j), Part(s, j))
  {
    hide EncryptPart, Tweak;
    var before := EncryptParts(w1, w2, lba, s, n - 1);
    var last := EncryptPart(w1, Tweak(w2, lba, n - 1), Part(s, n - 1));
    if j < n - 1 {
      EncryptedPart(w1, w2, lba, s, n - 1, j);
      assert Part(before + last, j) == Part(before, j);
    } else {
      assert Part(before + last, j) == last;
    }
  }

  lemma {:induction false} PartsUndone(w1: Schedule, w2: Schedule, lba: bv32, s: Sector, n: nat)
    requires n <= 32
    ensures DecryptParts(w1, w2, lba, EncryptSector(w1, w2, lba, s), n) == s[..16 * n]
  {
    hide EncryptPart, DecryptPart, Tweak, EncryptParts;
    if n > 0 {
      PartsUndone(w1, w2, lba, s, n - 1);
      EncryptedPart(w1, w2, lba, s, 32, n - 1);
      PartUndone(w1, Tweak(w2, lba, n - 1), Part(s, n - 1));
      assert s[..16 * n] == s[..16 * (n - 1)] + Part(s, n - 1);
    }
  }

  /** Decrypting an encrypted sector gives the sector back, for every key and sector number. */
  lemma SectorRoundTrip(key: seq<bv8>, lba: bv32, s: Sector)
    requires |key| == 64
    ensures var w1, w2 := Expand(key[..32]), Expand(key[32..]);
            DecryptSector(w1, w2, lba, EncryptSector(w1, w2, lba, s)) == s
  {
    hide EncryptParts, DecryptParts, Expand;
    PartsUndone(Expand(key[..32]), Expand(key[32..]), lba, s, 32);
    assert s[..512] == s;
  }

  // ---- The other way round ---------------------------------------------------------------

  lemma PartRestored(w1: Schedule, t: Block, c: Block)
    ensures EncryptPart(w1, t, DecryptPart(w1, t, c)) == c
  {
    hide Encrypt, Decrypt, XorBlock;
    XorBlockTwice(Decrypt(w1, XorBlock(c, t)), t);
    EncryptUndoesDecrypt(w1, XorBlock(c, t));
    XorBlockTwice(c, t);
  }

  lemma {:induction false} DecryptedPart(w1: Schedule, w2: Schedule, lba: bv32, s: Sector, n: nat, j: nat)
    requires j < n <= 32
    ensures Part(DecryptParts(w1, w2, lba, s, n), j) == DecryptPart(w1, Tweak(w2, lba, j), Part(s, j))
  {
    hide DecryptPart, Tweak;
    var before := DecryptParts(w1, w2, lba, s, n - 1);
    var last := DecryptPart(w1, Tweak(w2, lba, n - 1), Part(s, n - 1));
    if j < n - 1 {
      DecryptedPart(w1, w2, lba, s, n - 1, j);
      assert Part(before + last, j) == Part(before, j);
    } else {
      assert Part(before + last, j) == last;
    }
  }

  lemma {:induction false} PartsRestored(w1: Schedule, w2: Schedule, lba: bv32, s: Sector, n: nat)
    requires n <= 32
    ensures EncryptParts(w1, w2, lba, DecryptSector(w1, w2, lba, s), n) == s[..16 * n]
  {
    hide EncryptPart, DecryptPart, Tweak, DecryptParts;
    if n > 0 {
      PartsRestored(w1, w2, lba, s, n - 1);
      DecryptedPart(w1, w2, lba, s, 32, n - 1);
      PartRestored(w1, Tweak(w2, lba, n - 1), Part(s, n - 1));
      assert s[..16 * n] == s[..16 * (n - 1)] + Part(s, n - 1);
    }
  }

  /** Encrypting a decrypted sector gives it back: sector encryption is a permutation. */
  lemma SectorRestored(key: seq<bv8>, lba: bv32, s: Sector)
    requires |key| == 64
    ensures var w1, w2 := Expand(key[..32]), Expand(key[32..]);
            EncryptSector(w1, w2, lba, DecryptSector(w1, w2, lba, s)) == s
  {
    hide EncryptParts, DecryptParts, Expand;
    PartsRestored(Expand(key[..32]), Expand(key[32..]), lba, s, 32);
    assert s[..512] == s;
  }

  // ---- In the terms of the standard ------------------------------------------------------

  /** Bit `n` of a byte, the least significant first. */
  predicate BitOf(b: bv8, n: nat)
    requires n < 8
  {
    b & (if n == 0 then 1 else if n == 1 then 2 else if n == 2 then 4 else if n == 3 then 8
         else if n == 4 then 0x10 else if n == 5 then 0x20 else if n == 6 then 0x40 else 0x80) != 0
  }

  /** The coefficient of x^n. */
  predicate Coefficient(t: Block, n: nat)
    requires n < 128
  {
    BitOf(t[n / 8], n % 8)
  }

  function ShiftIn(a: bv8, b: bv8): bv8 { (a << 1) | (b >> 7) }

  function Reduce(a: bv8, c: bool): bv8 { (a << 1) ^ (if c then 0x87 else 0) }

  lemma ShiftedBits(a: bv8, b: bv8)
    ensures BitOf(ShiftIn(a, b), 0) == BitOf(b, 7) && BitOf(ShiftIn(a, b), 1) == BitOf(a, 0)
    ensures BitOf(ShiftIn(a, b), 2) == BitOf(a, 1) && BitOf(ShiftIn(a, b), 3) == BitOf(a, 2)
    ensures BitOf(ShiftIn(a, b), 4) == BitOf(a, 3) && BitOf(ShiftIn(a, b), 5) == BitOf(a, 4)
    ensures BitOf(ShiftIn(a, b), 6) == BitOf(a, 5) && BitOf(ShiftIn(a, b), 7) == BitOf(a, 6)
  {
  }

  lemma ReducedBits(a: bv8, c: bool)
    ensures BitOf(Reduce(a, c), 0) == c && BitOf(Reduce(a, c), 1) == (BitOf(a, 0) != c)
    ensures BitOf(Reduce(a, c), 2) == (BitOf(a, 1) != c) && BitOf(Reduce(a, c), 3) == BitOf(a, 2)
    ensures BitOf(Reduce(a, c), 4) == BitOf(a, 3) && BitOf(Reduce(a, c), 5) == BitOf(a, 4)
    ensures BitOf(Reduce(a, c), 6) == BitOf(a, 5) && BitOf(Reduce(a, c), 7) == (BitOf(a, 6) != c)
  {
  }

  lemma DoubleByteIs(t: Block, k: nat)
    requires k < 16
    ensures DoubleByte(t, k) == if k == 0 then Reduce(t[0], BitOf(t[15], 7)) else ShiftIn(t[k], t[k - 1])
  {
    hide BitOf;
    TopBit(t[15]);
  }

  lemma DoubledBit(t: Block, k: nat, j: nat)
    requires k < 16 && j < 8
    ensures BitOf(Double(t)[k], j)
         == ((if j > 0 then BitOf(t[k], j - 1) else k > 0 && BitOf(t[k - 1], 7))
             != (k == 0 && BitOf(t[15], 7) && (j == 0 || j == 1 || j == 2 || j == 7)))
  {
    hide BitOf, ShiftIn, Reduce, DoubleByte;
    DoubleByteIs(t, k);
    assert j == 0 || j == 1 || j == 2 || j == 3 || j == 4 || j == 5 || j == 6 || j == 7;
    if k == 0 {
      ReducedBits(t[0], BitOf(t[15], 7));
    } else {
      ShiftedBits(t[k], t[k - 1]);
    }
  }

  /** Doubling a tweak multiplies it by x modulo x^128 + x^7 + x^2 + x + 1. */
  lemma DoubleIsTimesX(t: Block, n: nat)
    requires n < 128
    ensures Coefficient(Double(t), n)
         == ((n > 0 && Coefficient(t, n - 1)) != (Coefficient(t, 127) && (n == 0 || n == 1 || n == 2 || n == 7)))
  {
    hide BitOf, Double;
    var k, j := n / 8, n % 8;
    assert n == 8 * k + j;
    DoubledBit(t, k, j);
    if j > 0 {
      assert (n - 1) / 8 == k && (n - 1) % 8 == j - 1;
    } else if k > 0 {
      assert (n - 1) / 8 == k - 1 && (n - 1) % 8 == 7;
    }
  }

  lemma TopBit(b: bv8)
    ensures BitOf(b, 7) == (b & 0x80 != 0)
  {
  }

  /** Sector encryption as IEEE 1619 has it: the first tweak is the sector number enciphered under the second half of
      the key, each further tweak is the one before doubled, and each block is enciphered under the first
      half of the key between two additions of its tweak. */
  lemma SectorIsStandard(key: seq<bv8>, lba: bv32, s: Sector) returns (t: seq<Block>, number: Block)
    requires |key| == 64
    ensures Pack(number[3], number[2], number[1], number[0]) == lba && forall k | 4 <= k < 16 :: number[k] == 0
    ensures |t| == 32 && t[0] == Encrypt(Expand(key[32..]), number) && forall j | 1 <= j < 32 :: t[j] == Double(t[j - 1])
    ensures forall j | 0 <= j < 32 ::
              Part(EncryptSector(Expand(key[..32]), Expand(key[32..]), lba, s), j)
              == XorBlock(Encrypt(Expand(key[..32]), XorBlock(Part(s, j), t[j])), t[j])
  {
    hide Encrypt, Expand, Double, EncryptParts, Pack, ByteOf, XorBlock;
    var w1, w2 := Expand(key[..32]), Expand(key[32..]);
    number := Numbered(lba);
    PackBytes(lba);
    t := seq(32, j requires 0 <= j < 32 => Tweak(w2, lba, j));
    forall j | 0 <= j < 32 ensures Part(EncryptSector(w1, w2, lba, s), j) == XorBlock(Encrypt(w1, XorBlock(Part(s, j), t[j])), t[j]) {
      EncryptedPart(w1, w2, lba, s, 32, j);
    }
  }
}
