/**
 * Authenticated encryption as the kernel computes it, byte by byte in place.
 */
module Gcm {
  import opened AesSpec
  import opened GcmSpec
  import opened BigEndian
  import Byte = AesBytes
  import Field = GhashField
  import Aes

  // ---- ghash_multiply --------------------------------------------------------------------

  /** Adds `v` to `z` byte by byte. */
  method XorInto(z: array<bv8>, v: array<bv8>)
    requires z.Length == 16 && v.Length == 16 && z != v
    modifies z
    ensures z[..] == XorBlock(old(z[..]), v[..])
  {
    hide Byte.Xor;
    for j := 0 to 16
      invariant forall i :: 0 <= i < j ==> z[i] == Byte.Xor(old(z[i]), v[i])
      invariant forall i :: j <= i < 16 ==> z[i] == old(z[i])
    {
      z[j] := Byte.Xor(z[j], v[j]);
    }
  }

  /** A byte shifted right with `carry` moved in at the top. */
  function ShiftIn(b: bv8, carry: bv8): bv8 { (b >> 1) | (carry << 7) }

  function Last(b: bv8): bv8 { b & 1 }

  lemma ShiftInBit(b: bv8, c: bv8, j: nat)
    requires j < 8
    ensures Bit(ShiftIn(b, Last(c)), j) == if j == 0 then Bit(c, 7) else Bit(b, j - 1)
    ensures Last(c) != 0 <==> Bit(c, 7)
    ensures Bit(ShiftIn(b, 0), j) == (j > 0 && Bit(b, j - 1))
  {
  }

  /** Byte `k` of a block shifted right by one bit. */
  function ShiftedByte(b: Block, k: nat): bv8
    requires k < 16
  {
    ShiftIn(b[k], if k == 0 then 0 else Last(b[k - 1]))
  }

  lemma ShiftedBits(b: Block, r: Block)
    requires forall k :: 0 <= k < 16 ==> r[k] == ShiftedByte(b, k)
    ensures Bits(r) == Field.ShiftRight(Bits(b))
  {
    hide Bit, ShiftIn, Last;
    forall i | 0 <= i < 128
      ensures Bits(r)[i] == Field.ShiftRight(Bits(b))[i]
    {
      var k, j := i / 8, i % 8;
      assert i == 8 * k + j;
      ShiftInBit(b[k], if k == 0 then 0 else b[k - 1], j);
      if i > 0 {
        if j == 0 {
          BitsAt(b, k - 1, 7);
        } else {
          BitsAt(b, k, j - 1);
        }
      }
    }
  }

  lemma ReductionByte(j: nat)
    requires j < 8
    ensures Bit(0xE1, j) == (j == 0 || j == 1 || j == 2 || j == 7)
    ensures !Bit(0, j)
  {
  }

  lemma ReducedBits(b: Block, r: Block)
    requires r == b[0 := Byte.Xor(b[0], 0xE1)]
    ensures Bits(r) == Field.Xor(Bits(b), Field.R())
  {
    hide Bit, Byte.Xor;
    forall i | 0 <= i < 128
      ensures Bits(r)[i] == Field.Xor(Bits(b), Field.R())[i]
    {
      if i < 8 {
        BitXor(b[0], 0xE1, i);
        ReductionByte(i);
      }
    }
  }

  /** The second half of the loop body of `ghash_multiply`. */
  method StepV(v: array<bv8>)
    requires v.Length == 16
    modifies v
    ensures Bits(v[..]) == Field.Next(old(Bits(v[..])))
  {
    hide ShiftIn, Last, Bits, Byte.Xor, Field.Xor, Field.ShiftRight, Field.R, Field.Zero;
    var carry: bv8 := 0;
    for j := 0 to 16
      invariant forall i :: 0 <= i < j ==> v[i] == ShiftedByte(old(v[..]), i)
      invariant forall i :: j <= i < 16 ==> v[i] == old(v[i])
      invariant carry == if j == 0 then 0 else Last(old(v[..])[j - 1])
    {
      var nextCarry := Last(v[j]);
      v[j] := ShiftIn(v[j], carry);
      carry := nextCarry;
    }
    ghost var b := old(v[..]);
    ShiftedBits(b, v[..]);
    LastBit(b);
    Field.XorZero(Bits(v[..]));
    if carry != 0 {
      ghost var r := v[..];
      v[0] := Byte.Xor(v[0], 0xE1);
      ReducedBits(r, v[..]);
    }
  }

  lemma LastBit(b: Block)
    ensures Bits(b)[127] <==> Last(b[15]) != 0
  {
    hide Bit, Last;
    BitsAt(b, 15, 7);
    ShiftInBit(0, b[15], 0);
  }

  lemma BitOfBlock(b: Block, i: nat)
    requires i < 128
    ensures Bits(b)[i] == Has(b[i / 8], Mask(i % 8))
  {
    hide Has;
  }

  lemma ZeroBits()
    ensures Bits(ZeroBlock()) == Field.Zero()
  {
    hide Bit;
    forall i | 0 <= i < 128
      ensures Bits(ZeroBlock())[i] == Field.Zero()[i]
    {
      ReductionByte(i % 8);
    }
  }

  /** `ghash_multiply`: the byte loops compute the product of the two blocks as bit strings. */
  method GhashMultiply(x: array<bv8>, y: array<bv8>)
    requires x.Length == 16 && y.Length == 16
    modifies x
    ensures x[..] == Times(old(x[..]), old(y[..]))
  {
    hide Bits, Bytes, Has, Mask, XorBlock, Field.Next, Field.Zero, Field.Xor;
    ghost var a, b := Bits(x[..]), Bits(y[..]);
    var z := new bv8[16](_ => 0);
    var v := new bv8[16](i requires 0 <= i < 16 reads y => y[i]);
    assert z[..] == ZeroBlock() && v[..] == y[..];
    ZeroBits();
    for i := 0 to 128
      invariant Bits(z[..]) == Field.Z(a, b, i)
      invariant Bits(v[..]) == Field.V(b, i)
      invariant x[..] == old(x[..])
    {
      BitOfBlock(x[..], i);
      BitsOfXor(z[..], v[..]);
      Field.XorZero(Bits(z[..]));
      if Has(x[i / 8], Mask(i % 8)) {
        XorInto(z, v);
      }
      StepV(v);
    }
    BytesOfBits(z[..]);
    forall i | 0 <= i < 16 {
      x[i] := z[i];
    }
    assert x[..] == z[..];
  }

  // ---- ghash -----------------------------------------------------------------------------

  lemma GhashGrows(h: Block, s: seq<Block>, b: Block)
    ensures Ghash(h, s + [b]) == Times(XorBlock(Ghash(h, s), b), h)
  {
    hide Times, XorBlock;
    assert (s + [b])[..|s|] == s;
  }

  /** Adds one block to the running hash. */
  method AbsorbBlock(x: array<bv8>, h: array<bv8>, block: array<bv8>, ghost s: seq<Block>)
    requires x.Length == 16 && h.Length == 16 && block.Length == 16 && x != block && x != h
    requires x[..] == Ghash(h[..], s)
    modifies x
    ensures x[..] == Ghash(h[..], s + [block[..]])
  {
    hide Times, XorBlock, Ghash;
    XorInto(x, block);
    GhashMultiply(x, h);
    GhashGrows(h[..], s, block[..]);
  }

  /** The chunk from `i` on, filled up with zeros. */
  method PaddedChunk(data: array<bv8>, i: nat, ghost q: nat) returns (block: array<bv8>)
    requires i < data.Length && i == 16 * q
    ensures fresh(block) && block.Length == 16 && block[..] == Chunk(data[..], q)
  {
    var chunkLen := if data.Length - i >= 16 then 16 else data.Length - i;
    block := new bv8[16](_ => 0);
    for j := 0 to chunkLen
      invariant forall k :: 0 <= k < j ==> block[k] == data[i + k]
      invariant forall k :: j <= k < 16 ==> block[k] == 0
    {
      block[j] := data[i + j];
    }
  }

  /** One of the two data loops of `ghash`. */
  method Absorb(x: array<bv8>, h: array<bv8>, data: array<bv8>, ghost s: seq<Block>)
    requires x.Length == 16 && h.Length == 16 && x != h && x != data
    requires x[..] == Ghash(h[..], s)
    modifies x
    ensures x[..] == Ghash(h[..], s + Chunks(data[..]))
  {
    hide Ghash, Chunk;
    ghost var p := Chunks(data[..]);
    var i := 0;
    ghost var q := 0;
    assert s + p[..0] == s;
    while i < data.Length
      invariant i == 16 * q && 0 <= q <= |p|
      invariant x[..] == Ghash(h[..], s + p[..q])
    {
      var block := PaddedChunk(data, i, q);
      AbsorbBlock(x, h, block, s + p[..q]);
      assert s + p[..q] + [p[q]] == s + p[..q + 1];
      i := i + 16;
      q := q + 1;
    }
    assert p[..q] == p;
  }

  /** The last block `ghash` takes in. */
  method LengthBlock(aadLen: nat, ctLen: nat) returns (lenBlock: array<bv8>)
    ensures fresh(lenBlock) && lenBlock.Length == 16
    ensures lenBlock[..] == BitLength(aadLen) + BitLength(ctLen)
  {
    hide LowByte, Drop;
    var aadBits := aadLen * 8 % 0x1_0000_0000_0000_0000;
    var ctBits := ctLen * 8 % 0x1_0000_0000_0000_0000;
    lenBlock := new bv8[16];
    for j := 0 to 8
      invariant forall k :: 0 <= k < j ==> lenBlock[k] == BitLength(aadLen)[k] && lenBlock[k + 8] == BitLength(ctLen)[k]
    {
      lenBlock[j] := LowByte(Drop(aadBits, 7 - j));
      lenBlock[j + 8] := LowByte(Drop(ctBits, 7 - j));
    }
  }

  /** `ghash`: the hash of the padded data, the padded text and the two bit lengths. */
  method GhashOf(h: array<bv8>, aad: array<bv8>, ct: array<bv8>, outTag: array<bv8>)
    requires h.Length == 16 && outTag.Length == 16
    modifies outTag
    ensures outTag[..] == Ghash(old(h[..]), Hashed(old(aad[..]), old(ct[..])))
  {
    hide Ghash, Chunks, BitLength;
    var x := new bv8[16](_ => 0);
    assert x[..] == ZeroBlock();
    GhashEmpty(h[..]);
    Absorb(x, h, aad, []);
    assert [] + Chunks(aad[..]) == Chunks(aad[..]);
    Absorb(x, h, ct, Chunks(aad[..]));
    var lenBlock := LengthBlock(aad.Length, ct.Length);
    AbsorbBlock(x, h, lenBlock, Chunks(aad[..]) + Chunks(ct[..]));
    forall i | 0 <= i < 16 {
      outTag[i] := x[i];
    }
    assert outTag[..] == x[..];
  }

  lemma GhashEmpty(h: Block)
    ensures Ghash(h, []) == ZeroBlock()
  {
  }

  // ---- inc_counter -----------------------------------------------------------------------

  lemma IncBytes(a: bv8, b: bv8, c: bv8, d: bv8)
    ensures var w := Add32(Pack(a, b, c, d), 1);
            && ByteOf(w, 3) == d + 1
            && ByteOf(w, 2) == (if d == 0xFF then c + 1 else c)
            && ByteOf(w, 1) == (if d == 0xFF && c == 0xFF then b + 1 else b)
            && ByteOf(w, 0) == (if d == 0xFF && c == 0xFF && b == 0xFF then a + 1 else a)
  {
  }

  /** `inc_counter`: the bytewise carry adds one to the last 32 bits. */
  method IncCounter(y: array<bv8>)
    requires y.Length == 16
    modifies y
    ensures y[..] == Inc(old(y[..]))
  {
    hide Add32, Pack, ByteOf;
    IncBytes(y[12], y[13], y[14], y[15]);
    var i := 15;
    while i >= 12
      invariant 11 <= i <= 15
      invariant forall k :: 0 <= k <= i ==> y[k] == old(y[k])
      invariant forall k :: i < k <= 15 ==> y[k] == 0 && old(y[k]) == 0xFF
    {
      y[i] := y[i] + 1;
      if y[i] != 0 {
        break;
      }
      i := i - 1;
    }
    assert y[..] == Inc(old(y[..]));
  }

  // ---- The counter loop ------------------------------------------------------------------

  lemma StreamAt(w: Schedule, iv: seq<bv8>, q: nat, j: nat)
    requires |iv| == 12 && j < 16
    ensures Stream(w, iv, 16 * q + j) == Encrypt(w, Counter(J0(iv), q + 1))[j]
  {
    hide Encrypt, Counter;
    assert (16 * q + j) / 16 == q && (16 * q + j) % 16 == j;
  }

  /** The bytes before `n` are those of `done`, the others still those of `todo`. */
  ghost predicate Upto(a: array<bv8>, n: nat, done: seq<bv8>, todo: seq<bv8>)
    requires |done| == |todo| == a.Length
    reads a
  {
    forall i :: 0 <= i < a.Length ==> a[i] == if i < n then done[i] else todo[i]
  }

  /** The inner loop: chunk `q` of the text with its key stream. */
  method XorChunk(w: array<bv32>, src: array<bv8>, dst: array<bv8>, stream: array<bv8>, q: nat,
                  ghost iv: seq<bv8>, ghost s: seq<bv8>, ghost d: seq<bv8>)
    requires w.Length == 60 && src.Length == dst.Length && stream.Length == 16 && stream != dst && 16 * q < src.Length
    requires |iv| == 12 && |s| == |d| == src.Length
    requires stream[..] == Encrypt(w[..], Counter(J0(iv), q + 1))
    requires Upto(dst, 16 * q, Ctr(w[..], iv, s), d)
    requires forall i :: 16 * q <= i < src.Length ==> src[i] == s[i]
    modifies dst
    ensures Upto(dst, 16 * q + 16, Ctr(w[..], iv, s), d)
    ensures forall i :: 16 * q + 16 <= i < src.Length ==> src[i] == s[i]
  {
    hide Byte.Xor, Stream, Encrypt, Counter;
    var chunkLen := if src.Length - 16 * q >= 16 then 16 else src.Length - 16 * q;
    for j := 0 to chunkLen
      invariant Upto(dst, 16 * q + j, Ctr(w[..], iv, s), d)
      invariant forall i :: 16 * q + j <= i < src.Length ==> src[i] == s[i]
      invariant stream[..] == old(stream[..])
    {
      StreamAt(w[..], iv, q, j);
      assert stream[j] == stream[..][j];
      dst[16 * q + j] := Byte.Xor(src[16 * q + j], stream[j]);
    }
  }

  /** The loop that encryption and decryption share; `src` and `dst` may be the same. */
  method CounterLoop(w: array<bv32>, y: array<bv8>, src: array<bv8>, dst: array<bv8>, ghost iv: seq<bv8>)
    requires w.Length == 60 && y.Length == 16 && y != dst && y != src && src.Length == dst.Length
    requires |iv| == 12 && y[..] == J0(iv)
    modifies y, dst
    ensures dst[..] == Ctr(w[..], iv, old(src[..]))
  {
    hide Encrypt, Inc, Ctr;
    ghost var s, d := src[..], dst[..];
    var i, q := 0, 0;
    while i < src.Length
      invariant i == 16 * q
      invariant y[..] == Counter(J0(iv), q)
      invariant Upto(dst, 16 * q, Ctr(w[..], iv, s), d)
      invariant forall k :: 16 * q <= k < src.Length ==> src[k] == s[k]
    {
      IncCounter(y);
      var stream := new bv8[16];
      Aes.EncryptBlock(w, y, stream);
      XorChunk(w, src, dst, stream, q, iv, s, d);
      i, q := i + 16, q + 1;
    }
    assert dst[..] == Ctr(w[..], iv, s);
  }

  // ---- The public operations -------------------------------------------------------------

  /** The first counter block. */
  method FirstCounter(iv: seq<bv8>) returns (y: array<bv8>)
    requires |iv| == 12
    ensures fresh(y) && y.Length == 16 && y[..] == J0(iv)
  {
    y := new bv8[16](_ => 0);
    for i := 0 to 12
      invariant forall k :: 0 <= k < i ==> y[k] == iv[k]
      invariant forall k :: i <= k < 16 ==> y[k] == 0
    {
      y[i] := iv[i];
    }
    y[15] := 1;
  }

  /** `aes_gcm_init`. */
  method Init(w: array<bv32>, h: array<bv8>, key: seq<bv8>)
    requires w.Length == 60 && h.Length == 16 && |key| == 32
    modifies w, h
    ensures w[..] == Expand(key) && h[..] == HashKey(Expand(key))
  {
    hide Expand, Encrypt;
    Aes.ExpandKey(w, key);
    var zero := new bv8[16](_ => 0);
    assert zero[..] == ZeroBlock();
    Aes.EncryptBlock(w, zero, h);
  }

  /** `aes_gcm_encrypt`; the text may be encrypted in place. */
  method Seal(w: array<bv32>, h: array<bv8>, iv: seq<bv8>, aad: array<bv8>, pt: array<bv8>, ct: array<bv8>, tag: array<bv8>)
    requires w.Length == 60 && h.Length == 16 && |iv| == 12 && tag.Length == 16 && ct.Length == pt.Length
    requires ct != h && ct != aad && ct != tag
    modifies ct, tag
    ensures ct[..] == Ctr(w[..], iv, old(pt[..]))
    ensures tag[..] == Tag(w[..], old(h[..]), iv, old(aad[..]), ct[..])
  {
    hide Encrypt, Ghash, Ctr, Hashed, XorBlock, J0;
    var y := FirstCounter(iv);
    var mask := new bv8[16];
    Aes.EncryptBlock(w, y, mask);
    CounterLoop(w, y, pt, ct, iv);
    var out := new bv8[16];
    GhashOf(h, aad, ct, out);
    XorInto(out, mask);
    ghost var c := ct[..];
    forall j | 0 <= j < 16 {
      tag[j] := out[j];
    }
    assert tag[..] == out[..] && ct[..] == c && w[..] == old(w[..]);
  }

  /** Whether two blocks hold the same bytes. */
  method SameBytes(a: array<bv8>, b: array<bv8>) returns (same: bool)
    requires a.Length == 16 && b.Length == 16
    ensures same <==> a[..] == b[..]
  {
    var i := 0;
    while i < 16
      invariant 0 <= i <= 16 && a[..i] == b[..i]
    {
      if a[i] != b[i] {
        assert a[..][i] != b[..][i];
        return false;
      }
      i := i + 1;
    }
    assert a[..16] == a[..] && b[..16] == b[..];
    return true;
  }

  /**
   * `aes_gcm_decrypt`.  The plaintext is written whatever the tag.  The tag is checked against the
   * ciphertext buffer as it is after that: decrypting in place therefore checks the plaintext.
   */
  method Unseal(w: array<bv32>, h: array<bv8>, iv: seq<bv8>, aad: array<bv8>, ct: array<bv8>, tag: array<bv8>, pt: array<bv8>)
    returns (status: int)
    requires w.Length == 60 && h.Length == 16 && |iv| == 12 && tag.Length == 16 && pt.Length == ct.Length
    requires pt != h && pt != aad && pt != tag
    modifies pt
    ensures status == 0 || status == -1
    ensures pt[..] == Ctr(w[..], iv, old(ct[..]))
    ensures status == 0 <==> tag[..] == Tag(w[..], h[..], iv, aad[..], ct[..])
    ensures pt != ct ==> (status == 0 <==> Open(w[..], h[..], iv, aad[..], ct[..], tag[..]) == Accepted(pt[..]))
  {
    hide Encrypt, Ghash, Ctr, Hashed, XorBlock, J0;
    var y := FirstCounter(iv);
    var mask := new bv8[16];
    Aes.EncryptBlock(w, y, mask);
    CounterLoop(w, y, ct, pt, iv);
    var out := new bv8[16];
    GhashOf(h, aad, ct, out);
    XorInto(out, mask);
    var same := SameBytes(out, tag);
    status := if same then 0 else -1;
  }

  /** What was sealed under a key is accepted and comes back, for every nonce, data and text. */
  method SealThenUnseal(key: seq<bv8>, iv: seq<bv8>, aad: array<bv8>, pt: array<bv8>) returns (status: int, back: array<bv8>)
    requires |key| == 32 && |iv| == 12
    ensures status == 0 && back[..] == pt[..]
  {
    hide Ctr, Tag, Open, HashKey, Expand;
    var w, h := new bv32[60], new bv8[16];
    Init(w, h, key);
    var ct, tag := new bv8[pt.Length], new bv8[16];
    Seal(w, h, iv, aad, pt, ct, tag);
    back := new bv8[pt.Length];
    status := Unseal(w, h, iv, aad, ct, tag, back);
    CtrUndone(w[..], iv, pt[..]);
  }

  /** Sealing and unsealing one buffer in place brings the text back, and the tag is accepted exactly
      when the difference of ciphertext and plaintext hashes to zero. */
  method SealThenUnsealInPlace(key: seq<bv8>, iv: seq<bv8>, aad: array<bv8>, text: array<bv8>) returns (status: int)
    requires |key| == 32 && |iv| == 12 && aad != text
    modifies text
    ensures text[..] == old(text[..])
    ensures var w := Expand(key);
            status == 0 <==> Ghash(HashKey(w), Difference(w, iv, aad[..], text[..])) == ZeroBlock()
  {
    hide Ctr, Tag, Open, HashKey, Expand, Ghash, Difference, ZeroBlock;
    var w, h := new bv32[60], new bv8[16];
    Init(w, h, key);
    var tag := new bv8[16];
    Seal(w, h, iv, aad, text, text, tag);
    ghost var c := text[..];
    status := Unseal(w, h, iv, aad, text, tag, text);
    CtrUndone(w[..], iv, old(text[..]));
    TagOfPlaintext(w[..], h[..], iv, aad[..], old(text[..]));
  }
}
