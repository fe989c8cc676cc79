/**
 * AES-256 as sections 5.1 and 5.3 of FIPS 197 describe it, on blocks of sixteen bytes.  Byte `i` is
 * row `i % 4` of column `i / 4`.
 */
module AesSpec {
  import opened AesBytes

  type Block = s: seq<bv8> | |s| == 16 witness seq(16, _ => 0)

  /** Two blocks added byte by byte. */
  function XorBlock(a: Block, b: Block): Block { seq(16, i requires 0 <= i < 16 => Xor(a[i], b[i])) }

  /** The sixty words of an expanded key. */
  type Schedule = w: seq<bv32> | |w| == 60 witness seq(60, _ => 0)

  // ---- The four transformations and their inverses ---------------------------------------

  function SubBytes(s: Block): Block { seq(16, i requires 0 <= i < 16 => Sbox(s[i])) }

  function InvSubBytes(s: Block): Block { seq(16, i requires 0 <= i < 16 => InvSbox(s[i])) }

  function Wrap(n: nat): nat { if n < 4 then n else n - 4 }

  /** Row `i % 4` of the column that many places to the right. */
  function Right(i: nat): (j: nat)
    ensures i < 16 ==> j < 16
  {
    4 * Wrap(i / 4 + i % 4) + i % 4
  }

  /** Row `i % 4` of the column that many places to the left. */
  function Left(i: nat): (j: nat)
    ensures i < 16 ==> j < 16
  {
    4 * Wrap(i / 4 + (4 - i % 4)) + i % 4
  }

  /** Row `r` moves left by `r` columns. */
  function ShiftRows(s: Block): Block { seq(16, i requires 0 <= i < 16 => s[Right(i)]) }

  /** Row `r` moves right by `r` columns. */
  function InvShiftRows(s: Block): Block { seq(16, i requires 0 <= i < 16 => s[Left(i)]) }

  function MixRow(a: bv8, b: bv8, c: bv8, d: bv8): bv8 { Xor4(Mul(a, 2), Mul(b, 3), c, d) }

  function InvMixRow(a: bv8, b: bv8, c: bv8, d: bv8): bv8 { Xor4(Mul(a, 14), Mul(b, 11), Mul(c, 13), Mul(d, 9)) }

  /** The index `k` places further round the column of byte `i`. */
  function Down(i: nat, k: nat): (j: nat)
    requires k < 4
    ensures i < 16 ==> j < 16
  {
    4 * (i / 4) + Wrap(i % 4 + k)
  }

  function MixColumns(s: Block): Block {
    seq(16, i requires 0 <= i < 16 => MixRow(s[i], s[Down(i, 1)], s[Down(i, 2)], s[Down(i, 3)]))
  }

  function InvMixColumns(s: Block): Block {
    seq(16, i requires 0 <= i < 16 => InvMixRow(s[i], s[Down(i, 1)], s[Down(i, 2)], s[Down(i, 3)]))
  }

  /** Byte `r` of a word, the most significant first. */
  function ByteOf(w: bv32, r: nat): bv8
    requires r < 4
  {
    if r == 0 then ((w >> 24) & 0xFF) as bv8
    else if r == 1 then ((w >> 16) & 0xFF) as bv8
    else if r == 2 then ((w >> 8) & 0xFF) as bv8
    else (w & 0xFF) as bv8
  }

  function AddRoundKey(s: Block, w: Schedule, round: nat): Block
    requires round <= 14
  {
    seq(16, i requires 0 <= i < 16 => Xor(s[i], ByteOf(w[4 * round + i / 4], i % 4)))
  }

  // ---- The key schedule ------------------------------------------------------------------

  /** Four bytes as a word, the most significant first. */
  function Pack(a: bv8, b: bv8, c: bv8, d: bv8): bv32 {
    ((a as bv32) << 24) | ((b as bv32) << 16) | ((c as bv32) << 8) | (d as bv32)
  }

  function SubWord(w: bv32): bv32 {
    Pack(Sbox(ByteOf(w, 0)), Sbox(ByteOf(w, 1)), Sbox(ByteOf(w, 2)), Sbox(ByteOf(w, 3)))
  }

  function RotWord(w: bv32): bv32 { (w << 8) | (w >> 24) }

  /** The powers of x that serve as round constants. */
  function Power(n: nat): bv8 { if n == 0 then 1 else XTime(Power(n - 1)) }

  function Xor32(a: bv32, b: bv32): bv32 { a ^ b }

  /** What is added to the word eight places back. */
  function Fed(t: bv32, i: nat): bv32
    requires i >= 8
  {
    if i % 8 == 0 then Xor32(SubWord(RotWord(t)), Pack(Power(i / 8 - 1), 0, 0, 0))
    else if i % 8 == 4 then SubWord(t)
    else t
  }

  /** Word `i` of the key expansion of section 5.2 of FIPS 197. */
  function KeyWord(key: seq<bv8>, i: nat): bv32
    requires |key| == 32
  {
    if i < 8 then Pack(key[4 * i], key[4 * i + 1], key[4 * i + 2], key[4 * i + 3])
    else Xor32(KeyWord(key, i - 8), Fed(KeyWord(key, i - 1), i))
  }

  /** The schedule a key expands to. */
  function Expand(key: seq<bv8>): Schedule
    requires |key| == 32
  {
    seq(60, i requires 0 <= i < 60 => KeyWord(key, i))
  }

  /** Byte `r` of what section 5.2 of FIPS 197 adds to the word eight places back, from the bytes of the
      word before: rotated by one place, substituted and with the round constant in front at every
      eighth word, substituted half way between, unchanged elsewhere. */
  function AddedByte(t: bv32, i: nat, r: nat): bv8
    requires i >= 8 && r < 4
  {
    if i % 8 == 0 then Xor(Sbox(ByteOf(t, (r + 1) % 4)), if r == 0 then Power(i / 8 - 1) else 0)
    else if i % 8 == 4 then Sbox(ByteOf(t, r))
    else ByteOf(t, r)
  }

  /** Byte `r` of word `i`: a byte of the key, or the sum the standard asks for. */
  predicate ByteRight(w: Schedule, key: seq<bv8>, i: nat, r: nat)
    requires |key| == 32 && i < 60 && r < 4
  {
    ByteOf(w[i], r) == if i < 8 then key[4 * i + r] else Xor(ByteOf(w[i - 8], r), AddedByte(w[i - 1], i, r))
  }

  /** The schedule section 5.2 of FIPS 197 describes, byte by byte. */
  ghost predicate Standard(w: Schedule, key: seq<bv8>)
    requires |key| == 32
  {
    forall i, r :: 0 <= i < 60 && 0 <= r < 4 ==> ByteRight(w, key, i, r)
  }

  lemma ByteOfPack(a: bv8, b: bv8, c: bv8, d: bv8)
    ensures ByteOf(Pack(a, b, c, d), 0) == a && ByteOf(Pack(a, b, c, d), 1) == b
    ensures ByteOf(Pack(a, b, c, d), 2) == c && ByteOf(Pack(a, b, c, d), 3) == d
  {
  }

  lemma ByteOfXor0(a: bv32, b: bv32)
    ensures ByteOf(Xor32(a, b), 0) == Xor(ByteOf(a, 0), ByteOf(b, 0))
  {
  }

  lemma ByteOfXor1(a: bv32, b: bv32)
    ensures ByteOf(Xor32(a, b), 1) == Xor(ByteOf(a, 1), ByteOf(b, 1))
  {
  }

  lemma ByteOfXor2(a: bv32, b: bv32)
    ensures ByteOf(Xor32(a, b), 2) == Xor(ByteOf(a, 2), ByteOf(b, 2))
  {
  }

  lemma ByteOfXor3(a: bv32, b: bv32)
    ensures ByteOf(Xor32(a, b), 3) == Xor(ByteOf(a, 3), ByteOf(b, 3))
  {
  }

  lemma ByteOfXor(a: bv32, b: bv32, r: nat)
    requires r < 4
    ensures ByteOf(Xor32(a, b), r) == Xor(ByteOf(a, r), ByteOf(b, r))
  {
    hide ByteOf, Xor32, Xor;
    ByteOfXor0(a, b);
    ByteOfXor1(a, b);
    ByteOfXor2(a, b);
    ByteOfXor3(a, b);
  }

  lemma ByteOfRot(t: bv32)
    ensures ByteOf(RotWord(t), 0) == ByteOf(t, 1) && ByteOf(RotWord(t), 1) == ByteOf(t, 2)
    ensures ByteOf(RotWord(t), 2) == ByteOf(t, 3) && ByteOf(RotWord(t), 3) == ByteOf(t, 0)
  {
  }

  /** Four bytes determine a word. */
  lemma SameBytes(a: bv32, b: bv32)
    requires forall r :: 0 <= r < 4 ==> ByteOf(a, r) == ByteOf(b, r)
    ensures a == b
  {
    assert ByteOf(a, 0) == ByteOf(b, 0) && ByteOf(a, 1) == ByteOf(b, 1) && ByteOf(a, 2) == ByteOf(b, 2) && ByteOf(a, 3) == ByteOf(b, 3);
    PackBytes(a);
    PackBytes(b);
  }

  lemma PackBytes(a: bv32)
    ensures a == Pack(ByteOf(a, 0), ByteOf(a, 1), ByteOf(a, 2), ByteOf(a, 3))
  {
  }

  lemma ByteOfFed(t: bv32, i: nat, r: nat)
    requires i >= 8 && r < 4
    ensures ByteOf(Fed(t, i), r) == AddedByte(t, i, r)
  {
    hide ByteOf, Pack, RotWord, Sbox, Power, Xor32, Xor;
    ByteOfRot(t);
    var rot := RotWord(t);
    ByteOfPack(Sbox(ByteOf(rot, 0)), Sbox(ByteOf(rot, 1)), Sbox(ByteOf(rot, 2)), Sbox(ByteOf(rot, 3)));
    ByteOfPack(Sbox(ByteOf(t, 0)), Sbox(ByteOf(t, 1)), Sbox(ByteOf(t, 2)), Sbox(ByteOf(t, 3)));
    ByteOfPack(Power(i / 8 - 1), 0, 0, 0);
    ByteOfXor(SubWord(rot), Pack(Power(i / 8 - 1), 0, 0, 0), r);
    assert r == 0 || r == 1 || r == 2 || r == 3;
  }

  lemma ExpandByte(key: seq<bv8>, i: nat, r: nat)
    requires |key| == 32 && i < 60 && r < 4
    ensures ByteRight(Expand(key), key, i, r)
  {
    hide ByteOf, Pack, Fed, Xor32, Xor, AddedByte;
    if i < 8 {
      ByteOfPack(key[4 * i], key[4 * i + 1], key[4 * i + 2], key[4 * i + 3]);
      assert r == 0 || r == 1 || r == 2 || r == 3;
    } else {
      ByteOfXor(KeyWord(key, i - 8), Fed(KeyWord(key, i - 1), i), r);
      ByteOfFed(KeyWord(key, i - 1), i, r);
    }
  }

  lemma {:induction false} StandardWord(w: Schedule, key: seq<bv8>, i: nat)
    requires |key| == 32 && Standard(w, key) && i < 60
    ensures w[i] == KeyWord(key, i)
  {
    hide ByteOf, Xor, AddedByte, KeyWord;
    if i >= 8 {
      StandardWord(w, key, i - 8);
      StandardWord(w, key, i - 1);
    }
    forall r | 0 <= r < 4 ensures ByteOf(w[i], r) == ByteOf(KeyWord(key, i), r) {
      ExpandByte(key, i, r);
      assert ByteRight(w, key, i, r);
    }
    SameBytes(w[i], KeyWord(key, i));
  }

  /** The expansion is the schedule of the standard, and the only one. */
  lemma ExpandIsStandard(w: Schedule, key: seq<bv8>)
    requires |key| == 32
    ensures Standard(w, key) <==> w == Expand(key)
  {
    hide ByteRight, KeyWord;
    if Standard(w, key) {
      forall i | 0 <= i < 60 ensures w[i] == Expand(key)[i] {
        StandardWord(w, key, i);
      }
    }
    if w == Expand(key) {
      forall i, r | 0 <= i < 60 && 0 <= r < 4 ensures ByteRight(w, key, i, r) {
        ExpandByte(key, i, r);
      }
    }
  }

  // ---- The cipher ------------------------------------------------------------------------

  /** The state after the initial key and `n` full rounds. */
  function Rounds(w: Schedule, s: Block, n: nat): Block
    requires n <= 13
  {
    if n == 0 then AddRoundKey(s, w, 0) else AddRoundKey(MixColumns(ShiftRows(SubBytes(Rounds(w, s, n - 1)))), w, n)
  }

  function Encrypt(w: Schedule, s: Block): Block {
    AddRoundKey(ShiftRows(SubBytes(Rounds(w, s, 13))), w, 14)
  }

  /** The state after the last key and the inverse rounds 13 down to `n`. */
  function InvRounds(w: Schedule, s: Block, n: nat): Block
    requires 1 <= n <= 14
    decreases 14 - n
  {
    if n == 14 then AddRoundKey(s, w, 14)
    else InvMixColumns(AddRoundKey(InvSubBytes(InvShiftRows(InvRounds(w, s, n + 1))), w, n))
  }

  function Decrypt(w: Schedule, s: Block): Block {
    AddRoundKey(InvSubBytes(InvShiftRows(InvRounds(w, s, 1))), w, 0)
  }

  // ---- Each transformation is undone -----------------------------------------------------

  lemma SubBytesUndone(s: Block)
    ensures InvSubBytes(SubBytes(s)) == s
  {
    hide Sbox, InvSbox;
    forall i | 0 <= i < 16
      ensures InvSubBytes(SubBytes(s))[i] == s[i]
    {
      SboxInverse(s[i]);
    }
  }

  lemma Place(q: nat, r: nat)
    requires r < 4
    ensures (4 * q + r) / 4 == q && (4 * q + r) % 4 == r
  {
  }

  lemma RightOfLeft(i: nat)
    requires i < 16
    ensures Right(Left(i)) == i
  {
    Place(Wrap(i / 4 + (4 - i % 4)), i % 4);
  }

  lemma ShiftRowsUndone(s: Block)
    ensures InvShiftRows(ShiftRows(s)) == s
  {
    hide Left, Right;
    forall i | 0 <= i < 16
      ensures InvShiftRows(ShiftRows(s))[i] == s[i]
    {
      RightOfLeft(i);
    }
  }

  lemma XorTwice(a: bv8, k: bv8)
    ensures Xor(Xor(a, k), k) == a
  {
  }

  lemma AddRoundKeyUndone(s: Block, w: Schedule, round: nat)
    requires round <= 14
    ensures AddRoundKey(AddRoundKey(s, w, round), w, round) == s
  {
    hide Xor, ByteOf;
    forall i | 0 <= i < 16
      ensures AddRoundKey(AddRoundKey(s, w, round), w, round)[i] == s[i]
    {
      XorTwice(s[i], ByteOf(w[4 * round + i / 4], i % 4));
    }
  }

  // The matrix of InvMixColumns times that of MixColumns is the identity, one coefficient at a time.

  /** The products the two matrices use, by doublings. */
  lemma Products(a: bv8)
    ensures Mul(a, 2) == XTime(a) && Mul(a, 3) == XTime(a) ^ a
    ensures Mul(a, 9) == X3(a) ^ a && Mul(a, 11) == X3(a) ^ XTime(a) ^ a
    ensures Mul(a, 13) == X3(a) ^ X2(a) ^ a && Mul(a, 14) == X3(a) ^ X2(a) ^ XTime(a)
  {
    hide Mul;
    MulIsFlat(a, 2);
    MulIsFlat(a, 3);
    MulIsFlat(a, 9);
    MulIsFlat(a, 11);
    MulIsFlat(a, 13);
    MulIsFlat(a, 14);
  }

  lemma Coefficient0(x: bv8)
    ensures Xor4(Mul(Mul(x, 2), 14), Mul(x, 11), Mul(x, 13), Mul(Mul(x, 3), 9)) == x
  {
    hide Mul;
    Products(x);
    Products(Mul(x, 2));
    Products(Mul(x, 3));
  }

  lemma Coefficient1(x: bv8)
    ensures Xor4(Mul(Mul(x, 3), 14), Mul(Mul(x, 2), 11), Mul(x, 13), Mul(x, 9)) == 0
  {
    hide Mul;
    Products(x);
    Products(Mul(x, 3));
    Products(Mul(x, 2));
  }

  lemma Coefficient2(x: bv8)
    ensures Xor4(Mul(x, 14), Mul(Mul(x, 3), 11), Mul(Mul(x, 2), 13), Mul(x, 9)) == 0
  {
    hide Mul;
    Products(x);
    Products(Mul(x, 3));
    Products(Mul(x, 2));
  }

  lemma Coefficient3(x: bv8)
    ensures Xor4(Mul(x, 14), Mul(x, 11), Mul(Mul(x, 3), 13), Mul(Mul(x, 2), 9)) == 0
  {
    hide Mul;
    Products(x);
    Products(Mul(x, 3));
    Products(Mul(x, 2));
  }

  lemma Xor4Rotates(a: bv8, b: bv8, c: bv8, d: bv8)
    ensures Xor4(a, b, c, d) == Xor4(d, a, b, c)
  {
  }

  lemma OnlyFirst(a: bv8)
    ensures Xor4(a, 0, 0, 0) == a
  {
  }

  lemma MixRowUndone(a: bv8, b: bv8, c: bv8, d: bv8)
    ensures InvMixRow(MixRow(a, b, c, d), MixRow(b, c, d, a), MixRow(c, d, a, b), MixRow(d, a, b, c)) == a
  {
    hide Mul, Xor4;
    MulXor4(Mul(a, 2), Mul(b, 3), c, d, 14);
    MulXor4(Mul(b, 2), Mul(c, 3), d, a, 11);
    MulXor4(Mul(c, 2), Mul(d, 3), a, b, 13);
    MulXor4(Mul(d, 2), Mul(a, 3), b, c, 9);
    Xor4Rotates(Mul(Mul(b, 2), 11), Mul(Mul(c, 3), 11), Mul(d, 11), Mul(a, 11));
    Xor4Rotates(Mul(Mul(c, 2), 13), Mul(Mul(d, 3), 13), Mul(a, 13), Mul(b, 13));
    Xor4Rotates(Mul(b, 13), Mul(Mul(c, 2), 13), Mul(Mul(d, 3), 13), Mul(a, 13));
    Xor4Rotates(Mul(Mul(a, 3), 9), Mul(b, 9), Mul(c, 9), Mul(Mul(d, 2), 9));
    SumByColumns(Mul(Mul(a, 2), 14), Mul(Mul(b, 3), 14), Mul(c, 14), Mul(d, 14),
                 Mul(a, 11), Mul(Mul(b, 2), 11), Mul(Mul(c, 3), 11), Mul(d, 11),
                 Mul(a, 13), Mul(b, 13), Mul(Mul(c, 2), 13), Mul(Mul(d, 3), 13),
                 Mul(Mul(a, 3), 9), Mul(b, 9), Mul(c, 9), Mul(Mul(d, 2), 9));
    Coefficient0(a);
    Coefficient1(b);
    Coefficient2(c);
    Coefficient3(d);
    OnlyFirst(a);
  }

  /** Byte `p` and the three that follow it round the column, as they follow each other. */
  predicate Cycle(p: nat, q: nat, r: nat, s: nat) {
    Down(p, 1) == q && Down(p, 2) == r && Down(p, 3) == s
  }

  lemma DownFrom(c: nat, r: nat, k: nat)
    requires r < 4 && k < 4
    ensures Down(4 * c + r, k) == 4 * c + Wrap(r + k)
  {
    Place(c, r);
  }

  lemma Around(i: nat)
    requires i < 16
    ensures var p, q, r := Down(i, 1), Down(i, 2), Down(i, 3);
            Cycle(p, q, r, i) && Cycle(q, r, i, p) && Cycle(r, i, p, q)
  {
    hide Down;
    var c, t := i / 4, i % 4;
    assert i == 4 * c + t;
    CycleFrom(c, t);
    CycleFrom(c, Wrap(t + 1));
    CycleFrom(c, Wrap(t + 2));
    CycleFrom(c, Wrap(t + 3));
  }

  lemma CycleFrom(c: nat, t: nat)
    requires t < 4
    ensures Down(4 * c + t, 1) == 4 * c + Wrap(t + 1) && Down(4 * c + t, 2) == 4 * c + Wrap(t + 2)
    ensures Down(4 * c + t, 3) == 4 * c + Wrap(t + 3)
  {
    hide Down;
    DownFrom(c, t, 1);
    DownFrom(c, t, 2);
    DownFrom(c, t, 3);
  }

  lemma MixColumnsUndone(s: Block)
    ensures InvMixColumns(MixColumns(s)) == s
  {
    hide MixRow, InvMixRow, Down;
    var m := MixColumns(s);
    forall i | 0 <= i < 16
      ensures InvMixColumns(m)[i] == s[i]
    {
      var p, q, r := Down(i, 1), Down(i, 2), Down(i, 3);
      Around(i);
      MixRowUndone(s[i], s[p], s[q], s[r]);
    }
  }

  // ---- The cipher is undone --------------------------------------------------------------

  /** Decryption meets, round by round, the states encryption went through. */
  lemma {:induction false} InvRoundsRetrace(w: Schedule, s: Block, n: nat)
    requires 1 <= n <= 14
    ensures InvRounds(w, Encrypt(w, s), n) == ShiftRows(SubBytes(Rounds(w, s, n - 1)))
    decreases 14 - n
  {
    hide SubBytes, InvSubBytes, ShiftRows, InvShiftRows, MixColumns, InvMixColumns, AddRoundKey;
    if n == 14 {
      AddRoundKeyUndone(ShiftRows(SubBytes(Rounds(w, s, 13))), w, 14);
    } else {
      InvRoundsRetrace(w, s, n + 1);
      var t := ShiftRows(SubBytes(Rounds(w, s, n - 1)));
      ShiftRowsUndone(SubBytes(Rounds(w, s, n)));
      SubBytesUndone(Rounds(w, s, n));
      AddRoundKeyUndone(MixColumns(t), w, n);
      MixColumnsUndone(t);
    }
  }

  /** Decryption undoes encryption under every expanded key, hence under every key. */
  lemma DecryptUndoesEncrypt(w: Schedule, s: Block)
    ensures Decrypt(w, Encrypt(w, s)) == s
  {
    hide SubBytes, InvSubBytes, ShiftRows, InvShiftRows, MixColumns, InvMixColumns, AddRoundKey, InvRounds;
    InvRoundsRetrace(w, s, 1);
    ShiftRowsUndone(SubBytes(Rounds(w, s, 0)));
    SubBytesUndone(Rounds(w, s, 0));
    AddRoundKeyUndone(s, w, 0);
  }

  // ---- The round constants ---------------------------------------------------------------

  /** The table `rcon`. */
  function Rcon(): (t: seq<bv32>)
    ensures |t| == 10
  {
    [0x0100_0000, 0x0200_0000, 0x0400_0000, 0x0800_0000, 0x1000_0000,
     0x2000_0000, 0x4000_0000, 0x8000_0000, 0x1B00_0000, 0x3600_0000]
  }

  lemma PowerStep(n: nat)
    ensures n == 0 ==> Power(n) == 1
    ensures n > 0 ==> Power(n) == XTime(Power(n - 1))
  {
  }

  lemma Powers()
    ensures Power(0) == 1 && Power(1) == 2 && Power(2) == 4 && Power(3) == 8 && Power(4) == 0x10
    ensures Power(5) == 0x20 && Power(6) == 0x40 && Power(7) == 0x80 && Power(8) == 0x1B && Power(9) == 0x36
  {
    hide Power;
    PowerStep(0);
    PowerStep(1);
    PowerStep(2);
    PowerStep(3);
    PowerStep(4);
    PowerStep(5);
    PowerStep(6);
    PowerStep(7);
    PowerStep(8);
    PowerStep(9);
  }

  /** Each table entry is the corresponding power of x in the top byte. */
  lemma RconIsPower(n: nat)
    requires n < 10
    ensures Rcon()[n] == Pack(Power(n), 0, 0, 0)
  {
    hide Power;
    Powers();
  }

  // ---- The other way round ---------------------------------------------------------------

  lemma InvSubBytesUndone(s: Block)
    ensures SubBytes(InvSubBytes(s)) == s
  {
    hide Sbox, InvSbox;
    forall i | 0 <= i < 16
      ensures SubBytes(InvSubBytes(s))[i] == s[i]
    {
      InvSboxInverse(s[i]);
    }
  }

  lemma LeftOfRight(i: nat)
    requires i < 16
    ensures Left(Right(i)) == i
  {
    Place(Wrap(i / 4 + i % 4), i % 4);
  }

  lemma InvShiftRowsUndone(s: Block)
    ensures ShiftRows(InvShiftRows(s)) == s
  {
    hide Left, Right;
    forall i | 0 <= i < 16
      ensures ShiftRows(InvShiftRows(s))[i] == s[i]
    {
      LeftOfRight(i);
    }
  }

  lemma InvCoefficient0(x: bv8)
    ensures Xor4(Mul(Mul(x, 14), 2), Mul(Mul(x, 9), 3), Mul(x, 13), Mul(x, 11)) == x
  {
    hide Mul;
    Products(x);
    Products(Mul(x, 14));
    Products(Mul(x, 9));
  }

  lemma InvCoefficient1(x: bv8)
    ensures Xor4(Mul(Mul(x, 11), 2), Mul(Mul(x, 14), 3), Mul(x, 9), Mul(x, 13)) == 0
  {
    hide Mul;
    Products(x);
    Products(Mul(x, 11));
    Products(Mul(x, 14));
  }

  lemma InvCoefficient2(x: bv8)
    ensures Xor4(Mul(Mul(x, 13), 2), Mul(Mul(x, 11), 3), Mul(x, 14), Mul(x, 9)) == 0
  {
    hide Mul;
    Products(x);
    Products(Mul(x, 13));
    Products(Mul(x, 11));
  }

  lemma InvCoefficient3(x: bv8)
    ensures Xor4(Mul(Mul(x, 9), 2), Mul(Mul(x, 13), 3), Mul(x, 11), Mul(x, 14)) == 0
  {
    hide Mul;
    Products(x);
    Products(Mul(x, 9));
    Products(Mul(x, 13));
  }

  lemma InvMixRowUndone(a: bv8, b: bv8, c: bv8, d: bv8)
    ensures MixRow(InvMixRow(a, b, c, d), InvMixRow(b, c, d, a), InvMixRow(c, d, a, b), InvMixRow(d, a, b, c)) == a
  {
    hide Mul, Xor4;
    MulXor4(Mul(a, 14), Mul(b, 11), Mul(c, 13), Mul(d, 9), 2);
    MulXor4(Mul(b, 14), Mul(c, 11), Mul(d, 13), Mul(a, 9), 3);
    Xor4Rotates(Mul(Mul(b, 14), 3), Mul(Mul(c, 11), 3), Mul(Mul(d, 13), 3), Mul(Mul(a, 9), 3));
    Xor4Rotates(Mul(c, 14), Mul(d, 11), Mul(a, 13), Mul(b, 9));
    Xor4Rotates(Mul(b, 9), Mul(c, 14), Mul(d, 11), Mul(a, 13));
    Xor4Rotates(Mul(a, 11), Mul(b, 13), Mul(c, 9), Mul(d, 14));
    SumByColumns(Mul(Mul(a, 14), 2), Mul(Mul(b, 11), 2), Mul(Mul(c, 13), 2), Mul(Mul(d, 9), 2),
                 Mul(Mul(a, 9), 3), Mul(Mul(b, 14), 3), Mul(Mul(c, 11), 3), Mul(Mul(d, 13), 3),
                 Mul(a, 13), Mul(b, 9), Mul(c, 14), Mul(d, 11),
                 Mul(a, 11), Mul(b, 13), Mul(c, 9), Mul(d, 14));
    InvCoefficient0(a);
    InvCoefficient1(b);
    InvCoefficient2(c);
    InvCoefficient3(d);
    OnlyFirst(a);
  }

  lemma InvMixColumnsUndone(s: Block)
    ensures MixColumns(InvMixColumns(s)) == s
  {
    hide MixRow, InvMixRow, Down;
    var m := InvMixColumns(s);
    forall i | 0 <= i < 16
      ensures MixColumns(m)[i] == s[i]
    {
      Around(i);
      InvMixRowUndone(s[i], s[Down(i, 1)], s[Down(i, 2)], s[Down(i, 3)]);
    }
  }

  /** Encryption meets, round by round, the states decryption went through. */
  lemma {:induction false} RoundsRetrace(w: Schedule, s: Block, n: nat)
    requires n <= 13
    ensures Rounds(w, Decrypt(w, s), n) == InvSubBytes(InvShiftRows(InvRounds(w, s, n + 1)))
  {
    hide SubBytes, InvSubBytes, ShiftRows, InvShiftRows, MixColumns, InvMixColumns, AddRoundKey;
    if n == 0 {
      AddRoundKeyUndone(InvSubBytes(InvShiftRows(InvRounds(w, s, 1))), w, 0);
    } else {
      RoundsRetrace(w, s, n - 1);
      var t := InvRounds(w, s, n);
      InvSubBytesUndone(InvShiftRows(t));
      InvShiftRowsUndone(t);
      var u := AddRoundKey(InvSubBytes(InvShiftRows(InvRounds(w, s, n + 1))), w, n);
      assert t == InvMixColumns(u);
      InvMixColumnsUndone(u);
      AddRoundKeyUndone(InvSubBytes(InvShiftRows(InvRounds(w, s, n + 1))), w, n);
    }
  }

  /** Encryption undoes decryption: under every expanded key both are permutations of the blocks. */
  lemma EncryptUndoesDecrypt(w: Schedule, s: Block)
    ensures Encrypt(w, Decrypt(w, s)) == s
  {
    hide SubBytes, InvSubBytes, ShiftRows, InvShiftRows, MixColumns, InvMixColumns, AddRoundKey, Rounds;
    RoundsRetrace(w, s, 13);
    var t := InvRounds(w, s, 14);
    InvSubBytesUndone(InvShiftRows(t));
    InvShiftRowsUndone(t);
    AddRoundKeyUndone(s, w, 14);
  }
}
