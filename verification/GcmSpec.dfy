/**
 * AES-256-GCM with a 96-bit nonce, as sections 6.4 to 7.2 of NIST SP 800-38D describe it on bytes.
 */
module GcmSpec {
  import opened AesSpec
  import opened BigEndian
  import Byte = AesBytes
  import Field = GhashField

  // ---- Bit strings and bytes -------------------------------------------------------------

  /** Whether `b` has the bit of the mask `m`. */
  predicate Has(b: bv8, m: bv8) { b & m != 0 }

  function Mask(j: nat): bv8
    requires j < 8
  {
    if j == 0 then 0x80 else if j == 1 then 0x40 else if j == 2 then 0x20 else if j == 3 then 0x10
    else if j == 4 then 8 else if j == 5 then 4 else if j == 6 then 2 else 1
  }

  /** Bit `j` of a byte, the most significant first. */
  predicate Bit(b: bv8, j: nat)
    requires j < 8
  {
    Has(b, Mask(j))
  }

  function MakeByte(a: bool, b: bool, c: bool, d: bool, e: bool, f: bool, g: bool, h: bool): bv8 {
    (if a then 0x80 else 0) | (if b then 0x40 else 0) | (if c then 0x20 else 0) | (if d then 0x10 else 0)
    | (if e then 8 else 0) | (if f then 4 else 0) | (if g then 2 else 0) | (if h then 1 else 0)
  }

  /** A block as a bit string. */
  function Bits(b: Block): Field.Bits { seq(128, i requires 0 <= i < 128 => Bit(b[i / 8], i % 8)) }

  function ByteAt(s: Field.Bits, k: nat): bv8
    requires k < 16
  {
    MakeByte(s[8 * k], s[8 * k + 1], s[8 * k + 2], s[8 * k + 3], s[8 * k + 4], s[8 * k + 5], s[8 * k + 6], s[8 * k + 7])
  }

  /** A bit string as a block. */
  function Bytes(s: Field.Bits): Block { seq(16, k requires 0 <= k < 16 => ByteAt(s, k)) }

  lemma MakeByteOfBits(b: bv8)
    ensures MakeByte(Bit(b, 0), Bit(b, 1), Bit(b, 2), Bit(b, 3), Bit(b, 4), Bit(b, 5), Bit(b, 6), Bit(b, 7)) == b
  {
  }

  lemma BitsAt(b: Block, k: nat, j: nat)
    requires k < 16 && j < 8
    ensures Bits(b)[8 * k + j] == Bit(b[k], j)
  {
    hide Bit;
    assert (8 * k + j) / 8 == k && (8 * k + j) % 8 == j;
  }

  lemma BytesOfBits(b: Block)
    ensures Bytes(Bits(b)) == b
  {
    hide Bits, Bit, MakeByte;
    forall k | 0 <= k < 16
      ensures Bytes(Bits(b))[k] == b[k]
    {
      BitsAt(b, k, 0);
      BitsAt(b, k, 1);
      BitsAt(b, k, 2);
      BitsAt(b, k, 3);
      BitsAt(b, k, 4);
      BitsAt(b, k, 5);
      BitsAt(b, k, 6);
      BitsAt(b, k, 7);
      MakeByteOfBits(b[k]);
    }
  }

  lemma BitXor(a: bv8, b: bv8, j: nat)
    requires j < 8
    ensures Bit(Byte.Xor(a, b), j) == (Bit(a, j) != Bit(b, j))
  {
    hide Has, Byte.Xor;
    HasXor(a, b, Mask(j));
  }

  lemma HasXor(a: bv8, b: bv8, m: bv8)
    requires m == 0x80 || m == 0x40 || m == 0x20 || m == 0x10 || m == 8 || m == 4 || m == 2 || m == 1
    ensures Has(Byte.Xor(a, b), m) == (Has(a, m) != Has(b, m))
  {
  }

  lemma BitsOfXor(a: Block, b: Block)
    ensures Bits(XorBlock(a, b)) == Field.Xor(Bits(a), Bits(b))
  {
    hide Bit, Byte.Xor;
    forall i | 0 <= i < 128
      ensures Bits(XorBlock(a, b))[i] == Field.Xor(Bits(a), Bits(b))[i]
    {
      BitXor(a[i / 8], b[i / 8], i % 8);
    }
  }

  /** The product of two blocks. */
  function Times(x: Block, y: Block): Block { Bytes(Field.Product(Bits(x), Bits(y))) }

  // ---- GHASH -----------------------------------------------------------------------------

  function ZeroBlock(): Block { seq(16, _ => 0) }

  /** Block `q` of `s`, filled up with zeros. */
  function Chunk(s: seq<bv8>, q: nat): Block {
    seq(16, j requires 0 <= j < 16 => if 16 * q + j < |s| then s[16 * q + j] else 0)
  }

  /** `s` cut into blocks. */
  function Chunks(s: seq<bv8>): seq<Block> { seq((|s| + 15) / 16, q requires q >= 0 => Chunk(s, q)) }

  /** GHASH of a string of blocks under the hash key `h` (section 6.4). */
  function Ghash(h: Block, s: seq<Block>): Block {
    if s == [] then ZeroBlock() else Times(XorBlock(Ghash(h, s[..|s| - 1]), s[|s| - 1]), h)
  }

  /** The bit length of `n` bytes as eight big-endian bytes, in 64-bit arithmetic. */
  function BitLength(n: nat): (r: seq<bv8>)
    ensures |r| == 8
  {
    Digits(8 * n % 0x1_0000_0000_0000_0000, 8)
  }

  /** What is hashed for additional data `a` and ciphertext `c`. */
  function Hashed(a: seq<bv8>, c: seq<bv8>): seq<Block> {
    Chunks(a) + Chunks(c) + [BitLength(|a|) + BitLength(|c|)]
  }

  // ---- Counter mode ----------------------------------------------------------------------

  function Add32(a: bv32, b: bv32): bv32 { a + b }

  /** The last four bytes as a big-endian word. */
  function Count(y: Block): bv32 { Pack(y[12], y[13], y[14], y[15]) }

  /** inc32 of section 6.2: one more in the last 32 bits, modulo 2^32. */
  function Inc(y: Block): Block {
    var w := Add32(Count(y), 1);
    y[..12] + [ByteOf(w, 0), ByteOf(w, 1), ByteOf(w, 2), ByteOf(w, 3)]
  }

  function Counter(j0: Block, n: nat): Block { if n == 0 then j0 else Inc(Counter(j0, n - 1)) }

  function J0(iv: seq<bv8>): Block
    requires |iv| == 12
  {
    iv + [0, 0, 0, 1]
  }

  /** The hash key of a schedule. */
  function HashKey(w: Schedule): Block { Encrypt(w, ZeroBlock()) }

  /** Byte `i` of the key stream. */
  function Stream(w: Schedule, iv: seq<bv8>, i: nat): bv8
    requires |iv| == 12
  {
    Encrypt(w, Counter(J0(iv), i / 16 + 1))[i % 16]
  }

  /** Counter mode, its own inverse. */
  function Ctr(w: Schedule, iv: seq<bv8>, s: seq<bv8>): (r: seq<bv8>)
    requires |iv| == 12
    ensures |r| == |s|
  {
    seq(|s|, i requires 0 <= i < |s| => Byte.Xor(s[i], Stream(w, iv, i)))
  }

  /** The tag of section 7.1. */
  function Tag(w: Schedule, h: Block, iv: seq<bv8>, a: seq<bv8>, c: seq<bv8>): Block
    requires |iv| == 12
  {
    XorBlock(Ghash(h, Hashed(a, c)), Encrypt(w, J0(iv)))
  }

  /** Authenticated decryption: the plaintext, or nothing when the tag is wrong. */
  datatype Opened = Accepted(plaintext: seq<bv8>) | Rejected

  function Open(w: Schedule, h: Block, iv: seq<bv8>, a: seq<bv8>, c: seq<bv8>, t: Block): Opened
    requires |iv| == 12
  {
    if t == Tag(w, h, iv, a, c) then Accepted(Ctr(w, iv, c)) else Rejected
  }

  // ---- Properties ------------------------------------------------------------------------

  lemma CtrUndone(w: Schedule, iv: seq<bv8>, s: seq<bv8>)
    requires |iv| == 12
    ensures Ctr(w, iv, Ctr(w, iv, s)) == s
  {
    hide Byte.Xor, Stream;
    forall i | 0 <= i < |s|
      ensures Ctr(w, iv, Ctr(w, iv, s))[i] == s[i]
    {
      XorTwice(s[i], Stream(w, iv, i));
    }
  }

  /** What was sealed opens to the plaintext, and with that tag alone. */
  lemma OpenUndoesSeal(w: Schedule, h: Block, iv: seq<bv8>, a: seq<bv8>, p: seq<bv8>, t: Block)
    requires |iv| == 12
    ensures var c := Ctr(w, iv, p); Open(w, h, iv, a, c, t) == if t == Tag(w, h, iv, a, c) then Accepted(p) else Rejected
  {
    hide Ctr, Tag;
    CtrUndone(w, iv, p);
  }

  // ---- The hash is linear ----------------------------------------------------------------

  lemma BitsOfMadeByte(a: bool, b: bool, c: bool, d: bool, e: bool, f: bool, g: bool, h: bool)
    ensures var m := MakeByte(a, b, c, d, e, f, g, h);
            Bit(m, 0) == a && Bit(m, 1) == b && Bit(m, 2) == c && Bit(m, 3) == d
            && Bit(m, 4) == e && Bit(m, 5) == f && Bit(m, 6) == g && Bit(m, 7) == h
  {
  }

  lemma BitsOfByteAt(s: Field.Bits, k: nat, j: nat)
    requires k < 16 && j < 8
    ensures Bit(ByteAt(s, k), j) == s[8 * k + j]
  {
    hide Bit, MakeByte;
    BitsOfMadeByte(s[8 * k], s[8 * k + 1], s[8 * k + 2], s[8 * k + 3], s[8 * k + 4], s[8 * k + 5], s[8 * k + 6], s[8 * k + 7]);
    assert j == 0 || j == 1 || j == 2 || j == 3 || j == 4 || j == 5 || j == 6 || j == 7;
  }

  lemma BitsOfBytes(s: Field.Bits)
    ensures Bits(Bytes(s)) == s
  {
    hide Bit, ByteAt;
    forall i | 0 <= i < 128
      ensures Bits(Bytes(s))[i] == s[i]
    {
      BitsOfByteAt(s, i / 8, i % 8);
    }
  }

  lemma BytesOfXor(p: Field.Bits, q: Field.Bits)
    ensures Bytes(Field.Xor(p, q)) == XorBlock(Bytes(p), Bytes(q))
  {
    hide Bytes, Bits, Field.Xor, XorBlock;
    BitsOfBytes(p);
    BitsOfBytes(q);
    BitsOfXor(Bytes(p), Bytes(q));
    BytesOfBits(XorBlock(Bytes(p), Bytes(q)));
  }

  lemma TimesXor(a: Block, b: Block, y: Block)
    ensures Times(XorBlock(a, b), y) == XorBlock(Times(a, y), Times(b, y))
  {
    hide Bytes, Bits, Field.Xor, Field.Product, XorBlock;
    BitsOfXor(a, b);
    Field.ProductXorLeft(Bits(a), Bits(b), Bits(y));
    BytesOfXor(Field.Product(Bits(a), Bits(y)), Field.Product(Bits(b), Bits(y)));
  }

  lemma BlockXorSwap(a: Block, b: Block, c: Block, d: Block)
    ensures XorBlock(XorBlock(a, b), XorBlock(c, d)) == XorBlock(XorBlock(a, c), XorBlock(b, d))
  {
    hide Byte.Xor;
    forall i | 0 <= i < 16
      ensures XorBlock(XorBlock(a, b), XorBlock(c, d))[i] == XorBlock(XorBlock(a, c), XorBlock(b, d))[i]
    {
      Byte.XorSwap(a[i], b[i], c[i], d[i]);
    }
  }

  /** Two strings added block by block. */
  function XorBlocks(s: seq<Block>, t: seq<Block>): seq<Block>
    requires |s| == |t|
  {
    seq(|s|, i requires 0 <= i < |s| => XorBlock(s[i], t[i]))
  }

  lemma ZeroBlocks()
    ensures XorBlock(ZeroBlock(), ZeroBlock()) == ZeroBlock()
  {
  }

  /** The hash of a sum is the sum of the hashes. */
  lemma {:induction false} GhashXor(h: Block, s: seq<Block>, t: seq<Block>)
    requires |s| == |t|
    ensures Ghash(h, XorBlocks(s, t)) == XorBlock(Ghash(h, s), Ghash(h, t))
    decreases |s|
  {
    hide Times, XorBlock, ZeroBlock;
    if |s| == 0 {
      ZeroBlocks();
    } else {
      var n := |s| - 1;
      GhashXor(h, s[..n], t[..n]);
      assert XorBlocks(s, t)[..n] == XorBlocks(s[..n], t[..n]);
      BlockXorSwap(Ghash(h, s[..n]), Ghash(h, t[..n]), s[n], t[n]);
      TimesXor(XorBlock(Ghash(h, s[..n]), s[n]), XorBlock(Ghash(h, t[..n]), t[n]), h);
    }
  }

  lemma MaskCancels(a: Block, b: Block, m: Block)
    ensures XorBlock(XorBlock(a, m), XorBlock(b, m)) == XorBlock(a, b)
  {
    hide Byte.Xor;
    forall i | 0 <= i < 16
      ensures XorBlock(XorBlock(a, m), XorBlock(b, m))[i] == XorBlock(a, b)[i]
    {
      Byte.XorSwap(a[i], m[i], b[i], m[i]);
      Byte.XorSelf(m[i]);
      Byte.XorZero(Byte.Xor(a[i], b[i]));
    }
  }

  /** Two tags under one nonce differ by the hash of the difference of what they authenticate: the
      cipher drops out, which is why a nonce may serve once only. */
  lemma TagsDifferByHash(w: Schedule, h: Block, iv: seq<bv8>, a: seq<bv8>, c: seq<bv8>, b: seq<bv8>, d: seq<bv8>)
    requires |iv| == 12 && |Hashed(a, c)| == |Hashed(b, d)|
    ensures XorBlock(Tag(w, h, iv, a, c), Tag(w, h, iv, b, d)) == Ghash(h, XorBlocks(Hashed(a, c), Hashed(b, d)))
  {
    hide XorBlock, Ghash, Hashed, Encrypt, XorBlocks;
    GhashXor(h, Hashed(a, c), Hashed(b, d));
    MaskCancels(Ghash(h, Hashed(a, c)), Ghash(h, Hashed(b, d)), Encrypt(w, J0(iv)));
  }

  // ---- Decryption in place ---------------------------------------------------------------

  lemma XorIsZero(a: Block, b: Block)
    ensures XorBlock(a, b) == ZeroBlock() <==> a == b
  {
    hide Byte.Xor;
    if XorBlock(a, b) == ZeroBlock() {
      forall i | 0 <= i < 16 ensures a[i] == b[i] {
        assert XorBlock(a, b)[i] == 0;
        ByteXorIsZero(a[i], b[i]);
      }
    }
    if a == b {
      forall i | 0 <= i < 16 ensures XorBlock(a, b)[i] == 0 {
        Byte.XorSelf(a[i]);
      }
      assert XorBlock(a, b) == ZeroBlock();
    }
  }

  lemma ByteXorIsZero(x: bv8, y: bv8)
    ensures Byte.Xor(x, y) == 0 <==> x == y
  {
  }

  /** What the tags of a plaintext and its ciphertext hash apart. */
  function Difference(w: Schedule, iv: seq<bv8>, a: seq<bv8>, p: seq<bv8>): seq<Block>
    requires |iv| == 12
  {
    XorBlocks(Hashed(a, Ctr(w, iv, p)), Hashed(a, p))
  }

  /** The tag of the ciphertext fits the plaintext exactly when their difference hashes to zero. */
  lemma TagOfPlaintext(w: Schedule, h: Block, iv: seq<bv8>, a: seq<bv8>, p: seq<bv8>)
    requires |iv| == 12
    ensures Tag(w, h, iv, a, Ctr(w, iv, p)) == Tag(w, h, iv, a, p) <==> Ghash(h, Difference(w, iv, a, p)) == ZeroBlock()
  {
    hide Tag, Ghash, XorBlocks, Ctr, ZeroBlock;
    var c := Ctr(w, iv, p);
    TagsDifferByHash(w, h, iv, a, c, a, p);
    XorIsZero(Tag(w, h, iv, a, c), Tag(w, h, iv, a, p));
  }

  /** The block that is the unit of the product. */
  function OneBlock(): Block { Bytes(Field.One()) }

  lemma TimesOne(x: Block)
    ensures Times(x, OneBlock()) == x
  {
    hide Bits, Bytes, Field.Product, Field.One;
    BitsOfBytes(Field.One());
    Field.ProductOne(Bits(x));
    BytesOfBits(x);
  }

  lemma XorZeroBlock(x: Block)
    ensures XorBlock(ZeroBlock(), x) == x == XorBlock(x, ZeroBlock())
  {
    hide Byte.Xor;
    forall i | 0 <= i < 16 ensures XorBlock(ZeroBlock(), x)[i] == x[i] == XorBlock(x, ZeroBlock())[i] {
      Byte.XorZero(x[i]);
    }
  }

  lemma TimesAssociates(x: Block, y: Block, z: Block)
    ensures Times(Times(x, y), z) == Times(x, Times(y, z))
  {
    hide Bits, Bytes, Field.Product;
    BitsOfBytes(Field.Product(Bits(x), Bits(y)));
    BitsOfBytes(Field.Product(Bits(y), Bits(z)));
    Field.ProductAssociates(Bits(x), Bits(y), Bits(z));
  }

  lemma ZeroTimes(y: Block)
    ensures Times(ZeroBlock(), y) == ZeroBlock()
  {
    hide Times, XorBlock, ZeroBlock;
    var z := Times(ZeroBlock(), y);
    XorZeroBlock(ZeroBlock());
    TimesXor(ZeroBlock(), ZeroBlock(), y);
    XorIsZero(z, z);
  }

  /** A hash key with an inverse sends no block but zero to zero. */
  lemma InvertibleHasNoZero(x: Block, h: Block, k: Block)
    requires Times(h, k) == OneBlock()
    ensures Times(x, h) == ZeroBlock() <==> x == ZeroBlock()
  {
    hide Times, ZeroBlock, OneBlock;
    ZeroTimes(h);
    ZeroTimes(k);
    TimesAssociates(x, h, k);
    TimesOne(x);
  }

  /** Under a hash key with an inverse, the tag of one block fits in place exactly when the cipher leaves
      the block as it is. */
  lemma InPlaceOneBlock(w: Schedule, h: Block, k: Block, iv: seq<bv8>, p: Block)
    requires |iv| == 12 && Times(h, k) == OneBlock()
    ensures Tag(w, h, iv, [], Ctr(w, iv, p)) == Tag(w, h, iv, [], p) <==> Ctr(w, iv, p) == p
  {
    hide Tag, Times, XorBlock, ZeroBlock, OneBlock, Ctr, BitLength;
    var c: Block := Ctr(w, iv, p);
    var len := BitLength(0) + BitLength(16);
    OneChunk(c);
    OneChunk(p);
    XorIsZero(len, len);
    var d := XorBlock(c, p);
    assert Difference(w, iv, [], p) == [d, ZeroBlock()];
    GhashTwo(h, d, ZeroBlock());
    XorZeroBlock(d);
    XorZeroBlock(Times(d, h));
    InvertibleHasNoZero(Times(d, h), h, k);
    InvertibleHasNoZero(d, h, k);
    XorIsZero(c, p);
    TagOfPlaintext(w, h, iv, [], p);
  }

  /** The first block of key stream. */
  function FirstStream(w: Schedule, iv: seq<bv8>): Block
    requires |iv| == 12
  {
    Encrypt(w, Inc(J0(iv)))
  }

  /** Only a key stream of zeros leaves a block as it is. */
  lemma UnchangedBlock(w: Schedule, iv: seq<bv8>, p: Block)
    requires |iv| == 12 && Ctr(w, iv, p) == p
    ensures FirstStream(w, iv) == ZeroBlock()
  {
    hide Byte.Xor, Encrypt, Inc;
    forall i | 0 <= i < 16 ensures FirstStream(w, iv)[i] == 0 {
      assert Counter(J0(iv), 1) == Inc(Counter(J0(iv), 0));
      assert Stream(w, iv, i) == FirstStream(w, iv)[i];
      assert Byte.Xor(p[i], Stream(w, iv, i)) == p[i];
      ByteXorFixed(p[i], Stream(w, iv, i));
    }
  }

  lemma ByteXorFixed(x: bv8, y: bv8)
    ensures Byte.Xor(x, y) == x <==> y == 0
  {
  }

  /** Two nonces have different key streams, as encryption can be undone. */
  lemma StreamsDiffer(w: Schedule, iv: seq<bv8>, other: seq<bv8>)
    requires |iv| == 12 && |other| == 12 && iv != other
    ensures FirstStream(w, iv) != FirstStream(w, other)
  {
    hide Encrypt, Decrypt, Add32, ByteOf, Count;
    assert Inc(J0(iv))[..12] == iv && Inc(J0(other))[..12] == other;
    DecryptUndoesEncrypt(w, Inc(J0(iv)));
    DecryptUndoesEncrypt(w, Inc(J0(other)));
  }

  /** So with every key whose hash key has an inverse, every block is refused in place under one at
      least of any two nonces. */
  lemma InPlaceFails(key: seq<bv8>, k: Block, iv: seq<bv8>, other: seq<bv8>, p: Block)
    requires |key| == 32 && Times(HashKey(Expand(key)), k) == OneBlock()
    requires |iv| == 12 && |other| == 12 && iv != other
    ensures var w := Expand(key);
            var h := HashKey(w);
            || Tag(w, h, iv, [], Ctr(w, iv, p)) != Tag(w, h, iv, [], p)
            || Tag(w, h, other, [], Ctr(w, other, p)) != Tag(w, h, other, [], p)
  {
    hide Tag, Times, OneBlock, Ctr, FirstStream, ZeroBlock, HashKey, Expand;
    var w := Expand(key);
    InPlaceOneBlock(w, HashKey(w), k, iv, p);
    InPlaceOneBlock(w, HashKey(w), k, other, p);
    StreamsDiffer(w, iv, other);
    if Ctr(w, iv, p) == p {
      UnchangedBlock(w, iv, p);
    }
    if Ctr(w, other, p) == p {
      UnchangedBlock(w, other, p);
    }
  }

  lemma OneChunk(b: Block)
    ensures Hashed([], b) == [b, BitLength(0) + BitLength(16)]
  {
    hide BitLength;
    assert Chunk(b, 0) == b;
    assert Chunks(b) == [b] && Chunks([]) == [];
  }

  lemma GhashTwo(h: Block, x: Block, y: Block)
    ensures Ghash(h, [x, y]) == Times(XorBlock(Times(XorBlock(ZeroBlock(), x), h), y), h)
  {
    hide Times, XorBlock, ZeroBlock;
    assert [x][..0] == [];
    assert Ghash(h, [x]) == Times(XorBlock(ZeroBlock(), x), h);
    assert [x, y][..1] == [x];
  }

  // ---- In the terms of the standard ------------------------------------------------------

  function Power(h: Block, n: nat): Block { if n == 0 then OneBlock() else Times(Power(h, n - 1), h) }

  /** The sum of s[i] times h to the power |s| - i. */
  function Polynomial(h: Block, s: seq<Block>): Block {
    if s == [] then ZeroBlock() else XorBlock(Times(s[0], Power(h, |s|)), Polynomial(h, s[1..]))
  }

  lemma BlockXorAssociates(a: Block, b: Block, c: Block)
    ensures XorBlock(XorBlock(a, b), c) == XorBlock(a, XorBlock(b, c))
  {
    hide Byte.Xor;
    forall i | 0 <= i < 16 ensures XorBlock(XorBlock(a, b), c)[i] == XorBlock(a, XorBlock(b, c))[i] {
      Byte.XorAssoc(a[i], b[i], c[i]);
    }
  }

  lemma OneTimes(x: Block)
    ensures Times(OneBlock(), x) == x
  {
    hide Bits, Bytes, Field.Product, Field.One;
    BitsOfBytes(Field.One());
    Field.ProductCommutes(Field.One(), Bits(x));
    Field.ProductOne(Bits(x));
    BytesOfBits(x);
  }

  /** A block in front adds its own term. */
  lemma {:induction false} GhashFront(h: Block, x: Block, t: seq<Block>)
    ensures Ghash(h, [x] + t) == XorBlock(Times(x, Power(h, |t| + 1)), Ghash(h, t))
    decreases |t|
  {
    hide Times, XorBlock, ZeroBlock, OneBlock;
    var s := [x] + t;
    if t == [] {
      assert s[..|s| - 1] == [];
      assert Power(h, 0) == OneBlock();
      OneTimes(h);
      XorZeroBlock(x);
      XorZeroBlock(Times(x, h));
    } else {
      var n := |t| - 1;
      assert s[..|s| - 1] == [x] + t[..n];
      GhashFront(h, x, t[..n]);
      var first, rest := Times(x, Power(h, |t|)), Ghash(h, t[..n]);
      BlockXorAssociates(first, rest, t[n]);
      TimesXor(first, XorBlock(rest, t[n]), h);
      TimesAssociates(x, Power(h, |t|), h);
    }
  }

  /** GHASH is the polynomial in the hash key with the blocks as coefficients. */
  lemma {:induction false} GhashIsPolynomial(h: Block, s: seq<Block>)
    ensures Ghash(h, s) == Polynomial(h, s)
    decreases |s|
  {
    hide Times, XorBlock, ZeroBlock, Power;
    if s != [] {
      GhashIsPolynomial(h, s[1..]);
      GhashFront(h, s[0], s[1..]);
      assert [s[0]] + s[1..] == s;
    }
  }

  /** Blocks one after another. */
  function Joined(s: seq<Block>): seq<bv8> { if s == [] then [] else Joined(s[..|s| - 1]) + s[|s| - 1] }

  /** So many zero bytes bring `n` bytes to whole blocks, and fewer do not. */
  predicate Fills(n: nat, z: nat) { z < 16 && (n + z) % 16 == 0 }

  function Zeros(n: nat): seq<bv8> { seq(n, _ => 0) }

  lemma {:induction false} JoinedAppend(s: seq<Block>, t: seq<Block>)
    ensures Joined(s + t) == Joined(s) + Joined(t)
    decreases |t|
  {
    if t == [] {
      assert s + t == s;
    } else {
      JoinedAppend(s, t[..|t| - 1]);
      assert (s + t)[..|s + t| - 1] == s + t[..|t| - 1];
    }
  }

  lemma {:induction false} ChunksUpTo(s: seq<bv8>, n: nat)
    requires n <= (|s| + 15) / 16
    ensures var z := 16 * n - |s|;
            Joined(Chunks(s)[..n]) == if z <= 0 then s[..16 * n] else s + Zeros(z)
  {
    if n > 0 {
      ChunksUpTo(s, n - 1);
      assert Chunks(s)[..n][..n - 1] == Chunks(s)[..n - 1];
    }
  }

  lemma ChunksJoined(s: seq<bv8>, z: nat)
    requires Fills(|s|, z)
    ensures Joined(Chunks(s)) == s + Zeros(z)
  {
    hide Chunks;
    var n := (|s| + 15) / 16;
    assert 16 * n == |s| + z;
    ChunksUpTo(s, n);
    WholeChunks(s);
  }

  lemma WholeChunks(s: seq<bv8>)
    ensures |Chunks(s)| == (|s| + 15) / 16 && Chunks(s)[..|Chunks(s)|] == Chunks(s)
  {
  }

  lemma JoinedOne(b: Block)
    ensures Joined([b]) == b
  {
    assert Joined([]) == [];
  }

  /** Step 5 of section 7.1 of NIST SP 800-38D: additional data and ciphertext, each filled up with zeros to whole
      blocks, and their bit lengths in 64 bits each. */
  lemma HashedIsStandard(a: seq<bv8>, c: seq<bv8>, v: nat, u: nat)
    requires Fills(|a|, v) && Fills(|c|, u)
    ensures Joined(Hashed(a, c)) == a + Zeros(v) + (c + Zeros(u)) + (BitLength(|a|) + BitLength(|c|))
  {
    hide Joined, Chunks, Zeros, BitLength;
    var lengths: Block := BitLength(|a|) + BitLength(|c|);
    JoinedAppend(Chunks(a) + Chunks(c), [lengths]);
    JoinedAppend(Chunks(a), Chunks(c));
    ChunksJoined(a, v);
    ChunksJoined(c, u);
    JoinedOne(lengths);
  }

  lemma PackedBytes(w: bv32)
    ensures Pack(ByteOf(w, 0), ByteOf(w, 1), ByteOf(w, 2), ByteOf(w, 3)) == w
  {
    PackBytes(w);
  }

  lemma FirstCounter(iv: seq<bv8>)
    requires |iv| == 12
    ensures Counter(J0(iv), 1) == iv + [0, 0, 0, 2]
  {
    hide Pack, ByteOf, Add32;
    Two();
    assert Counter(J0(iv), 0) == J0(iv);
    assert J0(iv)[..12] == iv;
  }

  lemma Two()
    ensures Add32(Pack(0, 0, 0, 1), 1) == 2
    ensures ByteOf(2, 0) == 0 && ByteOf(2, 1) == 0 && ByteOf(2, 2) == 0 && ByteOf(2, 3) == 2
  {
  }

  lemma {:induction false} CounterKeepsIv(iv: seq<bv8>, n: nat)
    requires |iv| == 12
    ensures Counter(J0(iv), n)[..12] == iv
  {
    hide Pack, ByteOf, Add32;
    if n > 0 {
      CounterKeepsIv(iv, n - 1);
    }
  }

  /** Counter mode of sections 6.5 and 7.1: the counter blocks are the nonce with 2, 3, 4 and so on, modulo 2^32,
      and each byte of text is added to a byte of an enciphered counter block. */
  lemma CtrIsStandard(w: Schedule, iv: seq<bv8>, s: seq<bv8>) returns (y: seq<Block>)
    requires |iv| == 12
    ensures |y| == (|s| + 15) / 16 && (y != [] ==> y[0] == iv + [0, 0, 0, 2])
    ensures forall q | 0 <= q < |y| :: y[q][..12] == iv
    ensures forall q | 1 <= q < |y| :: Count(y[q]) == Count(y[q - 1]) + 1
    ensures forall i | 0 <= i < |s| :: Ctr(w, iv, s)[i] == s[i] ^ Encrypt(w, y[i / 16])[i % 16]
  {
    hide Pack, ByteOf, Encrypt, Count, Inc, J0;
    y := seq((|s| + 15) / 16, q requires 0 <= q < (|s| + 15) / 16 => Counter(J0(iv), q + 1));
    FirstCounter(iv);
    forall q | 0 <= q < |y| ensures y[q][..12] == iv {
      CounterKeepsIv(iv, q + 1);
    }
    forall q | 1 <= q < |y| ensures Count(y[q]) == Count(y[q - 1]) + 1 {
      IncCounts(y[q - 1]);
    }
  }

  lemma IncCounts(y: Block)
    ensures Count(Inc(y)) == Count(y) + 1
  {
    hide Pack, ByteOf;
    PackedBytes(Add32(Count(y), 1));
  }

  /** The tag of section 7.1: the hash, added to the enciphered nonce with 1. */
  lemma TagIsStandard(w: Schedule, h: Block, iv: seq<bv8>, a: seq<bv8>, c: seq<bv8>, i: nat)
    requires |iv| == 12 && i < 16
    ensures Tag(w, h, iv, a, c)[i] == Polynomial(h, Hashed(a, c))[i] ^ Encrypt(w, iv + [0, 0, 0, 1])[i]
  {
    hide Encrypt, Hashed, Ghash, Polynomial;
    GhashIsPolynomial(h, Hashed(a, c));
  }
}
