/**
 * SHA-512 as sections 4 to 6 of FIPS 180-4 describe it, and what a stream of bytes has been
 * compressed to so far.
 */
module Sha512Spec {
  import opened BigEndian

  type Hash = h: seq<bv64> | |h| == 8 witness seq(8, _ => 0)

  type Block = b: seq<bv8> | |b| == 128 witness seq(128, _ => 0)

  // ---- The compression function ----------------------------------------------------------

  function Add(a: bv64, b: bv64): bv64 { a + b }

  function Ch(x: bv64, y: bv64, z: bv64): bv64 { (x & y) ^ (!x & z) }

  function Maj(x: bv64, y: bv64, z: bv64): bv64 { (x & y) ^ (x & z) ^ (y & z) }

  function BigSigma0(x: bv64): bv64 {
    ((x >> 28) | (x << 36)) ^ ((x >> 34) | (x << 30)) ^ ((x >> 39) | (x << 25))
  }

  function BigSigma1(x: bv64): bv64 {
    ((x >> 14) | (x << 50)) ^ ((x >> 18) | (x << 46)) ^ ((x >> 41) | (x << 23))
  }

  function SmallSigma0(x: bv64): bv64 {
    ((x >> 1) | (x << 63)) ^ ((x >> 8) | (x << 56)) ^ (x >> 7)
  }

  function SmallSigma1(x: bv64): bv64 {
    ((x >> 19) | (x << 45)) ^ ((x >> 61) | (x << 3)) ^ (x >> 6)
  }

  /** The eighty constants, in rows of eight. */
  function KRow(g: nat): (t: seq<bv64>)
    ensures |t| == 8
  {
    if g == 0 then
      [0x428A_2F98_D728_AE22, 0x7137_4491_23EF_65CD, 0xB5C0_FBCF_EC4D_3B2F, 0xE9B5_DBA5_8189_DBBC,
       0x3956_C25B_F348_B538, 0x59F1_11F1_B605_D019, 0x923F_82A4_AF19_4F9B, 0xAB1C_5ED5_DA6D_8118]
    else if g == 1 then
      [0xD807_AA98_A303_0242, 0x1283_5B01_4570_6FBE, 0x2431_85BE_4EE4_B28C, 0x550C_7DC3_D5FF_B4E2,
       0x72BE_5D74_F27B_896F, 0x80DE_B1FE_3B16_96B1, 0x9BDC_06A7_25C7_1235, 0xC19B_F174_CF69_2694]
    else if g == 2 then
      [0xE49B_69C1_9EF1_4AD2, 0xEFBE_4786_384F_25E3, 0x0FC1_9DC6_8B8C_D5B5, 0x240C_A1CC_77AC_9C65,
       0x2DE9_2C6F_592B_0275, 0x4A74_84AA_6EA6_E483, 0x5CB0_A9DC_BD41_FBD4, 0x76F9_88DA_8311_53B5]
    else if g == 3 then
      [0x983E_5152_EE66_DFAB, 0xA831_C66D_2DB4_3210, 0xB003_27C8_98FB_213F, 0xBF59_7FC7_BEEF_0EE4,
       0xC6E0_0BF3_3DA8_8FC2, 0xD5A7_9147_930A_A725, 0x06CA_6351_E003_826F, 0x1429_2967_0A0E_6E70]
    else if g == 4 then
      [0x27B7_0A85_46D2_2FFC, 0x2E1B_2138_5C26_C926, 0x4D2C_6DFC_5AC4_2AED, 0x5338_0D13_9D95_B3DF,
       0x650A_7354_8BAF_63DE, 0x766A_0ABB_3C77_B2A8, 0x81C2_C92E_47ED_AEE6, 0x9272_2C85_1482_353B]
    else if g == 5 then
      [0xA2BF_E8A1_4CF1_0364, 0xA81A_664B_BC42_3001, 0xC24B_8B70_D0F8_9791, 0xC76C_51A3_0654_BE30,
       0xD192_E819_D6EF_5218, 0xD699_0624_5565_A910, 0xF40E_3585_5771_202A, 0x106A_A070_32BB_D1B8]
    else if g == 6 then
      [0x19A4_C116_B8D2_D0C8, 0x1E37_6C08_5141_AB53, 0x2748_774C_DF8E_EB99, 0x34B0_BCB5_E19B_48A8,
       0x391C_0CB3_C5C9_5A63, 0x4ED8_AA4A_E341_8ACB, 0x5B9C_CA4F_7763_E373, 0x682E_6FF3_D6B2_B8A3]
    else if g == 7 then
      [0x748F_82EE_5DEF_B2FC, 0x78A5_636F_4317_2F60, 0x84C8_7814_A1F0_AB72, 0x8CC7_0208_1A64_39EC,
       0x90BE_FFFA_2363_1E28, 0xA450_6CEB_DE82_BDE9, 0xBEF9_A3F7_B2C6_7915, 0xC671_78F2_E372_532B]
    else if g == 8 then
      [0xCA27_3ECE_EA26_619C, 0xD186_B8C7_21C0_C207, 0xEADA_7DD6_CDE0_EB1E, 0xF57D_4F7F_EE6E_D178,
       0x06F0_67AA_7217_6FBA, 0x0A63_7DC5_A2C8_98A6, 0x113F_9804_BEF9_0DAE, 0x1B71_0B35_131C_471B]
    else
      [0x28DB_77F5_2304_7D84, 0x32CA_AB7B_40C7_2493, 0x3C9E_BE0A_15C9_BEBC, 0x431D_67C4_9C10_0D4C,
       0x4CC5_D4BE_CB3E_42B6, 0x597F_299C_FC65_7E2A, 0x5FCB_6FAB_3AD6_FAEC, 0x6C44_198C_4A47_5817]
  }

  function K(): (t: seq<bv64>)
    ensures |t| == 80
  {
    seq(80, i requires 0 <= i < 80 => KRow(i / 8)[i % 8])
  }

  function Initial(): Hash {
    [0x6A09_E667_F3BC_C908, 0xBB67_AE85_84CA_A73B, 0x3C6E_F372_FE94_F82B, 0xA54F_F53A_5F1D_36F1,
     0x510E_527F_ADE6_82D1, 0x9B05_688C_2B3E_6C1F, 0x1F83_D9AB_FB41_BD6B, 0x5BE0_CD19_137E_2179]
  }

  /** Eight bytes as a big-endian word. */
  function Join(a: bv8, b: bv8, c: bv8, d: bv8, e: bv8, f: bv8, g: bv8, h: bv8): bv64 {
    ((a as bv64) << 56) | ((b as bv64) << 48) | ((c as bv64) << 40) | ((d as bv64) << 32)
    | ((e as bv64) << 24) | ((f as bv64) << 16) | ((g as bv64) << 8) | (h as bv64)
  }

  /** Word `i` of the message schedule. */
  function Scheduled(b: Block, i: nat): bv64 {
    if i < 16 then
      Join(b[8 * i], b[8 * i + 1], b[8 * i + 2], b[8 * i + 3], b[8 * i + 4], b[8 * i + 5], b[8 * i + 6], b[8 * i + 7])
    else
      Add(Add(Add(SmallSigma1(Scheduled(b, i - 2)), Scheduled(b, i - 7)), SmallSigma0(Scheduled(b, i - 15))), Scheduled(b, i - 16))
  }

  datatype Work = Work(a: bv64, b: bv64, c: bv64, d: bv64, e: bv64, f: bv64, g: bv64, h: bv64)

  function T1(w: Work, k: bv64, m: bv64): bv64 {
    Add(Add(Add(Add(w.h, BigSigma1(w.e)), Ch(w.e, w.f, w.g)), k), m)
  }

  function T2(w: Work): bv64 { Add(BigSigma0(w.a), Maj(w.a, w.b, w.c)) }

  function Round(w: Work, k: bv64, m: bv64): Work {
    Work(Add(T1(w, k, m), T2(w)), w.a, w.b, w.c, Add(w.d, T1(w, k, m)), w.e, w.f, w.g)
  }

  /** The working variables after `n` rounds with the constants `ks`. */
  function Rounds(ks: seq<bv64>, h: Hash, b: Block, n: nat): Work
    requires n <= |ks|
  {
    if n == 0 then Work(h[0], h[1], h[2], h[3], h[4], h[5], h[6], h[7])
    else Round(Rounds(ks, h, b, n - 1), ks[n - 1], Scheduled(b, n - 1))
  }

  function AddUp(h: Hash, w: Work): Hash {
    [Add(h[0], w.a), Add(h[1], w.b), Add(h[2], w.c), Add(h[3], w.d), Add(h[4], w.e), Add(h[5], w.f), Add(h[6], w.g), Add(h[7], w.h)]
  }

  function Compress(h: Hash, b: Block): Hash { AddUp(h, Rounds(K(), h, b, 80)) }

  // ---- Strings ---------------------------------------------------------------------------

  /** The first `n` blocks of `s` compressed one after the other. */
  function Fold(s: seq<bv8>, n: nat): Hash
    requires 128 * n <= |s|
  {
    if n == 0 then Initial() else Compress(Fold(s, n - 1), s[128 * (n - 1)..128 * n])
  }

  function Zeros(k: nat): (r: seq<bv8>)
    ensures |r| == k
  {
    seq(k, _ => 0)
  }

  /** How many zero bytes the padding of an `n`-byte message has. */
  function Gap(n: nat): nat { if n % 128 < 112 then 111 - n % 128 else 239 - n % 128 }

  /** The padding as the kernel writes it: the bit length in 64-bit arithmetic. */
  function Padded(m: seq<bv8>): (p: seq<bv8>)
    ensures |p| == |m| + 17 + Gap(|m|) && |p| % 128 == 0
  {
    m + [0x80] + Zeros(Gap(|m|)) + Zeros(8) + Digits(8 * |m| % 0x1_0000_0000_0000_0000, 8)
  }

  /** The padding of section 5.1.2 of FIPS 180-4: the bit length in 128 bits. */
  function FipsPadded(m: seq<bv8>): seq<bv8> {
    m + [0x80] + Zeros(Gap(|m|)) + Digits(8 * |m|, 16)
  }

  /** Byte `r` of a word, the most significant first. */
  function BeByte(w: bv64, r: nat): bv8
    requires r < 8
  {
    if r == 0 then ((w >> 56) & 0xFF) as bv8
    else if r == 1 then ((w >> 48) & 0xFF) as bv8
    else if r == 2 then ((w >> 40) & 0xFF) as bv8
    else if r == 3 then ((w >> 32) & 0xFF) as bv8
    else if r == 4 then ((w >> 24) & 0xFF) as bv8
    else if r == 5 then ((w >> 16) & 0xFF) as bv8
    else if r == 6 then ((w >> 8) & 0xFF) as bv8
    else (w & 0xFF) as bv8
  }

  /** A hash value as sixty-four bytes. */
  function Bytes(h: Hash): (r: seq<bv8>)
    ensures |r| == 64
  {
    seq(64, i requires 0 <= i < 64 => BeByte(h[i / 8], i % 8))
  }

  /** The digest of a message. */
  function Digest(m: seq<bv8>): (r: seq<bv8>)
    ensures |r| == 64
  {
    var p := Padded(m);
    Bytes(Fold(p, |p| / 128))
  }

  // ---- Properties ------------------------------------------------------------------------

  /** The number of zeros is the least that brings the padded length to whole blocks. */
  lemma GapIsLeast(n: nat, k: nat)
    requires (n + 17 + k) % 128 == 0
    ensures Gap(n) <= k
  {
  }

  /** The padding is that of the standard exactly for messages under 2^61 bytes. */
  lemma PaddingIsStandard(m: seq<bv8>)
    requires 8 * |m| < Pow256(16)
    ensures Padded(m) == FipsPadded(m) <==> |m| < 0x2000_0000_0000_0000
  {
    hide Digits, Pow256, Gap;
    var n := 8 * |m|;
    var low := n % 0x1_0000_0000_0000_0000;
    var head := m + [0x80] + Zeros(Gap(|m|));
    Pow256Of8();
    WideDigits(n, 8, 16);
    LowDigits(n, 8, 16);
    if |m| < 0x2000_0000_0000_0000 {
      assert low == n;
      assert Digits(n, 16) == Zeros(8) + Digits(n, 8);
    }
    if Padded(m) == FipsPadded(m) {
      assert Padded(m) == head + (Zeros(8) + Digits(low, 8)) && FipsPadded(m) == head + Digits(n, 16);
      assert Padded(m)[|head|..] == FipsPadded(m)[|head|..];
      assert Zeros(8) + Digits(low, 8) == Digits(n, 16);
      forall j | 0 <= j < 8
        ensures Digits(n, 16)[j] == 0
      {
        assert (Zeros(8) + Digits(low, 8))[j] == 0;
      }
    }
  }

  lemma Pow256Of8()
    ensures Pow256(8) == 0x1_0000_0000_0000_0000
  {
    assert Pow256(4) == 0x1_0000_0000;
  }

  /** What has been compressed does not depend on what follows. */
  lemma {:induction false} FoldPrefix(s: seq<bv8>, t: seq<bv8>, n: nat)
    requires 128 * n <= |s|
    ensures Fold(s + t, n) == Fold(s, n)
  {
    hide Compress;
    if n > 0 {
      FoldPrefix(s, t, n - 1);
      assert (s + t)[128 * (n - 1)..128 * n] == s[128 * (n - 1)..128 * n];
    }
  }
}
