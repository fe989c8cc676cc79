/** The byte substitution tables of AES and the arithmetic of GF(2^8) behind them. */
module AesBytes {

  /** Entry number `x mod 16` of sixteen bytes. */
  function Pick(x: bv8, b0: bv8, b1: bv8, b2: bv8, b3: bv8, b4: bv8, b5: bv8, b6: bv8, b7: bv8,
                b8: bv8, b9: bv8, b10: bv8, b11: bv8, b12: bv8, b13: bv8, b14: bv8, b15: bv8): bv8
  {
    if x & 8 == 0 then
      if x & 4 == 0 then
        if x & 2 == 0 then (if x & 1 == 0 then b0 else b1) else (if x & 1 == 0 then b2 else b3)
      else
        if x & 2 == 0 then (if x & 1 == 0 then b4 else b5) else (if x & 1 == 0 then b6 else b7)
    else
      if x & 4 == 0 then
        if x & 2 == 0 then (if x & 1 == 0 then b8 else b9) else (if x & 1 == 0 then b10 else b11)
      else
        if x & 2 == 0 then (if x & 1 == 0 then b12 else b13) else (if x & 1 == 0 then b14 else b15)
  }

  /** The substitution table, sixteen entries to a row; the row is chosen by the upper four bits. */
  function Sbox(x: bv8): bv8 {
    if x & 0x80 == 0 then
      if x & 0x40 == 0 then
        if x & 0x20 == 0 then
          if x & 0x10 == 0 then
            Pick(x, 0x63, 0x7c, 0x77, 0x7b, 0xf2, 0x6b, 0x6f, 0xc5, 0x30, 0x01, 0x67, 0x2b, 0xfe, 0xd7, 0xab, 0x76)
          else
            Pick(x, 0xca, 0x82, 0xc9, 0x7d, 0xfa, 0x59, 0x47, 0xf0, 0xad, 0xd4, 0xa2, 0xaf, 0x9c, 0xa4, 0x72, 0xc0)
        else
          if x & 0x10 == 0 then
            Pick(x, 0xb7, 0xfd, 0x93, 0x26, 0x36, 0x3f, 0xf7, 0xcc, 0x34, 0xa5, 0xe5, 0xf1, 0x71, 0xd8, 0x31, 0x15)
          else
            Pick(x, 0x04, 0xc7, 0x23, 0xc3, 0x18, 0x96, 0x05, 0x9a, 0x07, 0x12, 0x80, 0xe2, 0xeb, 0x27, 0xb2, 0x75)
      else
        if x & 0x20 == 0 then
          if x & 0x10 == 0 then
            Pick(x, 0x09, 0x83, 0x2c, 0x1a, 0x1b, 0x6e, 0x5a, 0xa0, 0x52, 0x3b, 0xd6, 0xb3, 0x29, 0xe3, 0x2f, 0x84)
          else
            Pick(x, 0x53, 0xd1, 0x00, 0xed, 0x20, 0xfc, 0xb1, 0x5b, 0x6a, 0xcb, 0xbe, 0x39, 0x4a, 0x4c, 0x58, 0xcf)
        else
          if x & 0x10 == 0 then
            Pick(x, 0xd0, 0xef, 0xaa, 0xfb, 0x43, 0x4d, 0x33, 0x85, 0x45, 0xf9, 0x02, 0x7f, 0x50, 0x3c, 0x9f, 0xa8)
          else
            Pick(x, 0x51, 0xa3, 0x40, 0x8f, 0x92, 0x9d, 0x38, 0xf5, 0xbc, 0xb6, 0xda, 0x21, 0x10, 0xff, 0xf3, 0xd2)
    else
      if x & 0x40 == 0 then
        if x & 0x20 == 0 then
          if x & 0x10 == 0 then
            Pick(x, 0xcd, 0x0c, 0x13, 0xec, 0x5f, 0x97, 0x44, 0x17, 0xc4, 0xa7, 0x7e, 0x3d, 0x64, 0x5d, 0x19, 0x73)
          else
            Pick(x, 0x60, 0x81, 0x4f, 0xdc, 0x22, 0x2a, 0x90, 0x88, 0x46, 0xee, 0xb8, 0x14, 0xde, 0x5e, 0x0b, 0xdb)
        else
          if x & 0x10 == 0 then
            Pick(x, 0xe0, 0x32, 0x3a, 0x0a, 0x49, 0x06, 0x24, 0x5c, 0xc2, 0xd3, 0xac, 0x62, 0x91, 0x95, 0xe4, 0x79)
          else
            Pick(x, 0xe7, 0xc8, 0x37, 0x6d, 0x8d, 0xd5, 0x4e, 0xa9, 0x6c, 0x56, 0xf4, 0xea, 0x65, 0x7a, 0xae, 0x08)
      else
        if x & 0x20 == 0 then
          if x & 0x10 == 0 then
            Pick(x, 0xba, 0x78, 0x25, 0x2e, 0x1c, 0xa6, 0xb4, 0xc6, 0xe8, 0xdd, 0x74, 0x1f, 0x4b, 0xbd, 0x8b, 0x8a)
          else
            Pick(x, 0x70, 0x3e, 0xb5, 0x66, 0x48, 0x03, 0xf6, 0x0e, 0x61, 0x35, 0x57, 0xb9, 0x86, 0xc1, 0x1d, 0x9e)
        else
          if x & 0x10 == 0 then
            Pick(x, 0xe1, 0xf8, 0x98, 0x11, 0x69, 0xd9, 0x8e, 0x94, 0x9b, 0x1e, 0x87, 0xe9, 0xce, 0x55, 0x28, 0xdf)
          else
            Pick(x, 0x8c, 0xa1, 0x89, 0x0d, 0xbf, 0xe6, 0x42, 0x68, 0x41, 0x99, 0x2d, 0x0f, 0xb0, 0x54, 0xbb, 0x16)
  }

  /** The inverse substitution table. */
  function InvSbox(x: bv8): bv8 {
    if x & 0x80 == 0 then
      if x & 0x40 == 0 then
        if x & 0x20 == 0 then
          if x & 0x10 == 0 then
            Pick(x, 0x52, 0x09, 0x6a, 0xd5, 0x30, 0x36, 0xa5, 0x38, 0xbf, 0x40, 0xa3, 0x9e, 0x81, 0xf3, 0xd7, 0xfb)
          else
            Pick(x, 0x7c, 0xe3, 0x39, 0x82, 0x9b, 0x2f, 0xff, 0x87, 0x34, 0x8e, 0x43, 0x44, 0xc4, 0xde, 0xe9, 0xcb)
        else
          if x & 0x10 == 0 then
            Pick(x, 0x54, 0x7b, 0x94, 0x32, 0xa6, 0xc2, 0x23, 0x3d, 0xee, 0x4c, 0x95, 0x0b, 0x42, 0xfa, 0xc3, 0x4e)
          else
            Pick(x, 0x08, 0x2e, 0xa1, 0x66, 0x28, 0xd9, 0x24, 0xb2, 0x76, 0x5b, 0xa2, 0x49, 0x6d, 0x8b, 0xd1, 0x25)
      else
        if x & 0x20 == 0 then
          if x & 0x10 == 0 then
            Pick(x, 0x72, 0xf8, 0xf6, 0x64, 0x86, 0x68, 0x98, 0x16, 0xd4, 0xa4, 0x5c, 0xcc, 0x5d, 0x65, 0xb6, 0x92)
          else
            Pick(x, 0x6c, 0x70, 0x48, 0x50, 0xfd, 0xed, 0xb9, 0xda, 0x5e, 0x15, 0x46, 0x57, 0xa7, 0x8d, 0x9d, 0x84)
        else
          if x & 0x10 == 0 then
            Pick(x, 0x90, 0xd8, 0xab, 0x00, 0x8c, 0xbc, 0xd3, 0x0a, 0xf7, 0xe4, 0x58, 0x05, 0xb8, 0xb3, 0x45, 0x06)
          else
            Pick(x, 0xd0, 0x2c, 0x1e, 0x8f, 0xca, 0x3f, 0x0f, 0x02, 0xc1, 0xaf, 0xbd, 0x03, 0x01, 0x13, 0x8a, 0x6b)
    else
      if x & 0x40 == 0 then
        if x & 0x20 == 0 then
          if x & 0x10 == 0 then
            Pick(x, 0x3a, 0x91, 0x11, 0x41, 0x4f, 0x67, 0xdc, 0xea, 0x97, 0xf2, 0xcf, 0xce, 0xf0, 0xb4, 0xe6, 0x73)
          else
            Pick(x, 0x96, 0xac, 0x74, 0x22, 0xe7, 0xad, 0x35, 0x85, 0xe2, 0xf9, 0x37, 0xe8, 0x1c, 0x75, 0xdf, 0x6e)
        else
          if x & 0x10 == 0 then
            Pick(x, 0x47, 0xf1, 0x1a, 0x71, 0x1d, 0x29, 0xc5, 0x89, 0x6f, 0xb7, 0x62, 0x0e, 0xaa, 0x18, 0xbe, 0x1b)
          else
            Pick(x, 0xfc, 0x56, 0x3e, 0x4b, 0xc6, 0xd2, 0x79, 0x20, 0x9a, 0xdb, 0xc0, 0xfe, 0x78, 0xcd, 0x5a, 0xf4)
      else
        if x & 0x20 == 0 then
          if x & 0x10 == 0 then
            Pick(x, 0x1f, 0xdd, 0xa8, 0x33, 0x88, 0x07, 0xc7, 0x31, 0xb1, 0x12, 0x10, 0x59, 0x27, 0x80, 0xec, 0x5f)
          else
            Pick(x, 0x60, 0x51, 0x7f, 0xa9, 0x19, 0xb5, 0x4a, 0x0d, 0x2d, 0xe5, 0x7a, 0x9f, 0x93, 0xc9, 0x9c, 0xef)
        else
          if x & 0x10 == 0 then
            Pick(x, 0xa0, 0xe0, 0x3b, 0x4d, 0xae, 0x2a, 0xf5, 0xb0, 0xc8, 0xeb, 0xbb, 0x3c, 0x83, 0x53, 0x99, 0x61)
          else
            Pick(x, 0x17, 0x2b, 0x04, 0x7e, 0xba, 0x77, 0xd6, 0x26, 0xe1, 0x69, 0x14, 0x63, 0x55, 0x21, 0x0c, 0x7d)
  }

  lemma SboxInverse0(x: bv8)
    requires x <= 0x3F
    ensures InvSbox(Sbox(x)) == x
  {
  }

  lemma SboxInverse1(x: bv8)
    requires 0x40 <= x <= 0x7F
    ensures InvSbox(Sbox(x)) == x
  {
  }

  lemma SboxInverse2(x: bv8)
    requires 0x80 <= x <= 0xBF
    ensures InvSbox(Sbox(x)) == x
  {
  }

  lemma SboxInverse3(x: bv8)
    requires 0xC0 <= x
    ensures InvSbox(Sbox(x)) == x
  {
  }

  /** The inverse table undoes the table. */
  lemma SboxInverse(x: bv8)
    ensures InvSbox(Sbox(x)) == x
  {
    hide Sbox, InvSbox;
    if x <= 0x3F {
      SboxInverse0(x);
    } else if x <= 0x7F {
      SboxInverse1(x);
    } else if x <= 0xBF {
      SboxInverse2(x);
    } else {
      SboxInverse3(x);
    }
  }

  lemma InvSboxInverse0(x: bv8)
    requires x <= 0x3F
    ensures Sbox(InvSbox(x)) == x
  {
  }

  lemma InvSboxInverse1(x: bv8)
    requires 0x40 <= x <= 0x7F
    ensures Sbox(InvSbox(x)) == x
  {
  }

  lemma InvSboxInverse2(x: bv8)
    requires 0x80 <= x <= 0xBF
    ensures Sbox(InvSbox(x)) == x
  {
  }

  lemma InvSboxInverse3(x: bv8)
    requires 0xC0 <= x
    ensures Sbox(InvSbox(x)) == x
  {
  }

  /** And the table undoes the inverse table. */
  lemma InvSboxInverse(x: bv8)
    ensures Sbox(InvSbox(x)) == x
  {
    hide Sbox, InvSbox;
    if x <= 0x3F {
      InvSboxInverse0(x);
    } else if x <= 0x7F {
      InvSboxInverse1(x);
    } else if x <= 0xBF {
      InvSboxInverse2(x);
    } else {
      InvSboxInverse3(x);
    }
  }

  // ---- Multiplication --------------------------------------------------------------------

  function Xor(a: bv8, b: bv8): bv8 { a ^ b }

  function Xor4(a: bv8, b: bv8, c: bv8, d: bv8): bv8 { a ^ b ^ c ^ d }

  function Half(b: bv8): bv8 { b >> 1 }

  /** A byte doubled in GF(2^8). */
  function XTime(a: bv8): bv8 {
    (a << 1) ^ (if a & 0x80 != 0 then 0x1B else 0)
  }

  /** `a` when `b` is odd, else zero. */
  function IfOdd(a: bv8, b: bv8): bv8 { if b & 1 != 0 then a else 0 }

  /** Shift-and-add product of `a` with the low `k` bits of `b`. */
  function MulBits(a: bv8, b: bv8, k: nat): bv8
    decreases k
  {
    if k == 0 then 0 else Xor(IfOdd(a, b), MulBits(XTime(a), Half(b), k - 1))
  }

  /** The product in GF(2^8) modulo x^8 + x^4 + x^3 + x + 1. */
  function Mul(a: bv8, b: bv8): bv8 {
    MulBits(a, b, 8)
  }

  /** The product accumulated onto `p`, one bit of `b` at a time. */
  function MulOnto(p: bv8, a: bv8, b: bv8, k: nat): bv8
    decreases k
  {
    if k == 0 then p else MulOnto(Xor(p, IfOdd(a, b)), XTime(a), Half(b), k - 1)
  }

  lemma XorAssoc(p: bv8, q: bv8, r: bv8)
    ensures Xor(Xor(p, q), r) == Xor(p, Xor(q, r))
  {
  }

  lemma XorCommutes(p: bv8, q: bv8)
    ensures Xor(p, q) == Xor(q, p)
  {
  }

  lemma XorSelf(p: bv8)
    ensures Xor(p, p) == 0
  {
  }

  lemma XorZero(p: bv8)
    ensures Xor(p, 0) == p == Xor(0, p)
  {
  }

  lemma {:induction false} MulOntoIsXor(p: bv8, a: bv8, b: bv8, k: nat)
    ensures MulOnto(p, a, b, k) == Xor(p, MulBits(a, b, k))
    decreases k
  {
    hide XTime, Xor, IfOdd, Half;
    if k == 0 {
      XorZero(p);
    } else {
      MulOntoIsXor(Xor(p, IfOdd(a, b)), XTime(a), Half(b), k - 1);
      XorAssoc(p, IfOdd(a, b), MulBits(XTime(a), Half(b), k - 1));
    }
  }

  lemma MulOntoStep(p: bv8, a: bv8, b: bv8, k: nat)
    ensures k == 0 ==> MulOnto(p, a, b, k) == p
    ensures k > 0 ==> MulOnto(p, a, b, k) == MulOnto(Xor(p, IfOdd(a, b)), XTime(a), Half(b), k - 1)
  {
  }

  /** The loop of `galois_mul`. */
  method GaloisMul(a0: bv8, b0: bv8) returns (p: bv8)
    ensures p == Mul(a0, b0)
  {
    hide MulOnto, MulBits;
    p := 0;
    var a, b := a0, b0;
    for counter := 0 to 8
      invariant MulOnto(p, a, b, 8 - counter) == MulOnto(0, a0, b0, 8)
    {
      MulOntoStep(p, a, b, 8 - counter);
      if b & 1 != 0 {
        p := p ^ a;
      }
      var carry := a & 0x80;
      a := a << 1;
      if carry != 0 {
        a := a ^ 0x1B;
      }
      b := b >> 1;
    }
    MulOntoStep(p, a, b, 0);
    MulOntoIsXor(0, a0, b0, 8);
    XorZero(MulBits(a0, b0, 8));
  }

  // ---- The product is linear -------------------------------------------------------------

  lemma ShiftLeftXor(a: bv8, b: bv8)
    ensures (a ^ b) << 1 == (a << 1) ^ (b << 1)
  {
  }

  lemma TopBitXor(a: bv8, b: bv8)
    ensures (a ^ b) & 0x80 != 0 <==> (a & 0x80 != 0) != (b & 0x80 != 0)
  {
  }

  lemma ReduceXor(p: bv8, q: bv8, s: bool, t: bool)
    ensures (p ^ q) ^ (if s != t then 0x1B else 0) == (p ^ (if s then 0x1B else 0)) ^ (q ^ (if t then 0x1B else 0))
  {
  }

  /** Doubling is linear. */
  lemma XTimeXor(a: bv8, b: bv8)
    ensures XTime(Xor(a, b)) == Xor(XTime(a), XTime(b))
  {
    ShiftLeftXor(a, b);
    TopBitXor(a, b);
    ReduceXor(a << 1, b << 1, a & 0x80 != 0, b & 0x80 != 0);
  }

  lemma IfOddXor(a: bv8, c: bv8, b: bv8)
    ensures IfOdd(Xor(a, c), b) == Xor(IfOdd(a, b), IfOdd(c, b))
  {
  }

  lemma XorSwap(p: bv8, q: bv8, r: bv8, s: bv8)
    ensures Xor(Xor(p, q), Xor(r, s)) == Xor(Xor(p, r), Xor(q, s))
  {
    hide Xor;
    XorAssoc(p, q, Xor(r, s));
    XorAssoc(q, r, s);
    XorCommutes(q, r);
    XorAssoc(r, q, s);
    XorAssoc(p, r, Xor(q, s));
  }

  lemma {:induction false} MulBitsXor(a: bv8, c: bv8, b: bv8, k: nat)
    ensures MulBits(Xor(a, c), b, k) == Xor(MulBits(a, b, k), MulBits(c, b, k))
    decreases k
  {
    hide Xor, XTime, IfOdd, Half;
    if k == 0 {
      XorZero(0);
    } else {
      XTimeXor(a, c);
      MulBitsXor(XTime(a), XTime(c), Half(b), k - 1);
      IfOddXor(a, c, b);
      XorSwap(IfOdd(a, b), IfOdd(c, b), MulBits(XTime(a), Half(b), k - 1), MulBits(XTime(c), Half(b), k - 1));
    }
  }

  lemma Xor4Folds(a: bv8, b: bv8, c: bv8, d: bv8)
    ensures Xor4(a, b, c, d) == Xor(Xor(Xor(a, b), c), d)
  {
  }

  /** The product distributes over a sum of four terms. */
  lemma MulXor4(p: bv8, q: bv8, r: bv8, s: bv8, k: bv8)
    ensures Mul(Xor4(p, q, r, s), k) == Xor4(Mul(p, k), Mul(q, k), Mul(r, k), Mul(s, k))
  {
    hide Xor, Xor4, MulBits;
    Xor4Folds(p, q, r, s);
    MulBitsXor(Xor(Xor(p, q), r), s, k, 8);
    MulBitsXor(Xor(p, q), r, k, 8);
    MulBitsXor(p, q, k, 8);
    Xor4Folds(Mul(p, k), Mul(q, k), Mul(r, k), Mul(s, k));
  }

  lemma Xor4Pairs(a: bv8, b: bv8, c: bv8, d: bv8)
    ensures Xor4(a, b, c, d) == Xor(Xor(a, b), Xor(c, d))
  {
    hide Xor, Xor4;
    Xor4Folds(a, b, c, d);
    XorAssoc(Xor(a, b), c, d);
  }

  lemma SumOfTwoRows(a0: bv8, a1: bv8, a2: bv8, a3: bv8, b0: bv8, b1: bv8, b2: bv8, b3: bv8)
    ensures Xor(Xor4(a0, a1, a2, a3), Xor4(b0, b1, b2, b3)) == Xor4(Xor(a0, b0), Xor(a1, b1), Xor(a2, b2), Xor(a3, b3))
  {
    hide Xor, Xor4;
    Xor4Pairs(a0, a1, a2, a3);
    Xor4Pairs(b0, b1, b2, b3);
    XorSwap(Xor(a0, a1), Xor(a2, a3), Xor(b0, b1), Xor(b2, b3));
    XorSwap(a0, a1, b0, b1);
    XorSwap(a2, a3, b2, b3);
    Xor4Pairs(Xor(a0, b0), Xor(a1, b1), Xor(a2, b2), Xor(a3, b3));
  }

  /** A four by four array of terms sums the same by rows and by columns. */
  lemma SumByColumns(a0: bv8, a1: bv8, a2: bv8, a3: bv8, b0: bv8, b1: bv8, b2: bv8, b3: bv8,
                     c0: bv8, c1: bv8, c2: bv8, c3: bv8, d0: bv8, d1: bv8, d2: bv8, d3: bv8)
    ensures Xor4(Xor4(a0, a1, a2, a3), Xor4(b0, b1, b2, b3), Xor4(c0, c1, c2, c3), Xor4(d0, d1, d2, d3))
         == Xor4(Xor4(a0, b0, c0, d0), Xor4(a1, b1, c1, d1), Xor4(a2, b2, c2, d2), Xor4(a3, b3, c3, d3))
  {
    hide Xor, Xor4;
    Xor4Pairs(Xor4(a0, a1, a2, a3), Xor4(b0, b1, b2, b3), Xor4(c0, c1, c2, c3), Xor4(d0, d1, d2, d3));
    SumOfTwoRows(a0, a1, a2, a3, b0, b1, b2, b3);
    SumOfTwoRows(c0, c1, c2, c3, d0, d1, d2, d3);
    SumOfTwoRows(Xor(a0, b0), Xor(a1, b1), Xor(a2, b2), Xor(a3, b3), Xor(c0, d0), Xor(c1, d1), Xor(c2, d2), Xor(c3, d3));
    Xor4Pairs(a0, b0, c0, d0);
    Xor4Pairs(a1, b1, c1, d1);
    Xor4Pairs(a2, b2, c2, d2);
    Xor4Pairs(a3, b3, c3, d3);
  }

  // ---- The product without recursion -----------------------------------------------------

  function X2(a: bv8): bv8 { XTime(XTime(a)) }

  function X3(a: bv8): bv8 { XTime(X2(a)) }

  /** The contribution of the low four bits of `b`. */
  function Nibble(a: bv8, b: bv8): bv8 {
    Xor4(IfOdd(a, b), IfOdd(XTime(a), Half(b)), IfOdd(X2(a), Half(Half(b))), IfOdd(X3(a), Half(Half(Half(b)))))
  }

  /** All eight doublings at once. */
  function MulFlat(a: bv8, b: bv8): bv8 {
    Nibble(a, b) ^ Nibble(XTime(X3(a)), b >> 4)
  }

  lemma MulBitsStep(a: bv8, b: bv8, k: nat)
    ensures k == 0 ==> MulBits(a, b, k) == 0
    ensures k > 0 ==> MulBits(a, b, k) == Xor(IfOdd(a, b), MulBits(XTime(a), Half(b), k - 1))
  {
  }

  function High(b: bv8): bv8 { b >> 4 }

  lemma HalfFour(b: bv8)
    ensures Half(Half(Half(Half(b)))) == High(b)
  {
  }

  lemma Xor4Onto(p: bv8, q: bv8, r: bv8, s: bv8, t: bv8)
    ensures Xor(p, Xor(q, Xor(r, Xor(s, t)))) == Xor(Xor4(p, q, r, s), t)
  {
    hide Xor, Xor4;
    Xor4Folds(p, q, r, s);
    XorAssoc(Xor(Xor(p, q), r), s, t);
    XorAssoc(Xor(p, q), r, Xor(s, t));
    XorAssoc(p, q, Xor(r, Xor(s, t)));
  }

  /** Four steps of the product at once. */
  lemma MulFour(a: bv8, b: bv8, k: nat)
    requires k >= 4
    ensures MulBits(a, b, k) == Xor(Nibble(a, b), MulBits(XTime(X3(a)), High(b), k - 4))
  {
    hide Xor, Xor4, MulBits, XTime, IfOdd, Half, High;
    MulBitsStep(a, b, k);
    MulBitsStep(XTime(a), Half(b), k - 1);
    MulBitsStep(X2(a), Half(Half(b)), k - 2);
    MulBitsStep(X3(a), Half(Half(Half(b))), k - 3);
    HalfFour(b);
    Xor4Onto(IfOdd(a, b), IfOdd(XTime(a), Half(b)), IfOdd(X2(a), Half(Half(b))), IfOdd(X3(a), Half(Half(Half(b)))),
             MulBits(XTime(X3(a)), High(b), k - 4));
  }

  lemma MulIsFlat(a: bv8, b: bv8)
    ensures Mul(a, b) == MulFlat(a, b)
  {
    hide MulBits, XTime, Nibble, X2, X3;
    var a4 := XTime(X3(a));
    MulFour(a, b, 8);
    MulFour(a4, High(b), 4);
    MulBitsStep(XTime(X3(a4)), High(High(b)), 0);
  }

  // ---- The table from first principles ---------------------------------------------------

  function Rotate(x: bv8): bv8 { (x << 1) | (x >> 7) }

  /** The affine map of section 5.1.1 of FIPS 197: bit i is the sum of bits i, i + 4, i + 5, i + 6 and
      i + 7, modulo 8, and of bit i of 0x63. */
  function Affine(b: bv8): bv8 {
    var r1 := Rotate(b);
    var r2 := Rotate(r1);
    var r3 := Rotate(r2);
    b ^ r1 ^ r2 ^ r3 ^ Rotate(r3) ^ 0x63
  }

  /** Its inverse. */
  function Unaffine(y: bv8): bv8 {
    var r1 := Rotate(y ^ 0x63);
    var r3 := Rotate(Rotate(r1));
    r1 ^ r3 ^ Rotate(Rotate(Rotate(r3)))
  }

  lemma UnaffineUndoes(b: bv8)
    ensures Unaffine(Affine(b)) == b && Affine(Unaffine(b)) == b
  {
  }

  lemma SboxAlgebra0(x: bv8)
    requires 0 < x <= 0x3F
    ensures MulFlat(x, Unaffine(Sbox(x))) == 1
  {
  }

  lemma SboxAlgebra1(x: bv8)
    requires 0x40 <= x <= 0x7F
    ensures MulFlat(x, Unaffine(Sbox(x))) == 1
  {
  }

  lemma SboxAlgebra2(x: bv8)
    requires 0x80 <= x <= 0xBF
    ensures MulFlat(x, Unaffine(Sbox(x))) == 1
  {
  }

  lemma SboxAlgebra3(x: bv8)
    requires 0xC0 <= x
    ensures MulFlat(x, Unaffine(Sbox(x))) == 1
  {
  }

  /** The table is the one of section 5.1.1 of FIPS 197: the affine map of the multiplicative
      inverse, with zero mapped like zero. */
  lemma SboxIsAffineInverse(x: bv8) returns (inverse: bv8)
    ensures Sbox(x) == Affine(inverse)
    ensures x != 0 ==> Mul(x, inverse) == 1
    ensures x == 0 ==> inverse == 0
  {
    hide Sbox, Affine, Unaffine, Mul, MulFlat;
    inverse := Unaffine(Sbox(x));
    UnaffineUndoes(Sbox(x));
    if x == 0 {
      SboxZero();
    } else {
      MulIsFlat(x, Unaffine(Sbox(x)));
      if x <= 0x3F {
        SboxAlgebra0(x);
      } else if x <= 0x7F {
        SboxAlgebra1(x);
      } else if x <= 0xBF {
        SboxAlgebra2(x);
      } else {
        SboxAlgebra3(x);
      }
    }
  }

  lemma SboxZero()
    ensures Unaffine(Sbox(0)) == 0
  {
    assert Sbox(0) == 0x63;
  }
}
