/**
 * The example of appendix C.3 of FIPS 197: its key expanded word by word and its plaintext enciphered
 * round by round.
 */
module AesExample {
  import opened AesBytes
  import opened AesSpec
  import opened Aes

  /** The key 00 01 02 ... 1f. */
  function Key(): (k: seq<bv8>)
    ensures |k| == 32
  {
    [0x00, 0x01, 0x02, 0x03, 0x04, 0x05, 0x06, 0x07, 0x08, 0x09, 0x0a, 0x0b, 0x0c, 0x0d, 0x0e, 0x0f,
     0x10, 0x11, 0x12, 0x13, 0x14, 0x15, 0x16, 0x17, 0x18, 0x19, 0x1a, 0x1b, 0x1c, 0x1d, 0x1e, 0x1f]
  }

  /** The plaintext 00 11 22 ... ff. */
  function Plain(): Block { [0x00, 0x11, 0x22, 0x33, 0x44, 0x55, 0x66, 0x77, 0x88, 0x99, 0xaa, 0xbb, 0xcc, 0xdd, 0xee, 0xff] }

  /** The ciphertext of the standard. */
  function Cipher(): Block { [0x8e, 0xa2, 0xb7, 0xca, 0x51, 0x67, 0x45, 0xbf, 0xea, 0xfc, 0x49, 0x90, 0x4b, 0x49, 0x60, 0x89] }

  // ---- The key schedule ------------------------------------------------------------------

  ghost predicate Made(w: Schedule) { w == Expand(Key()) }

  lemma FirstWord(w: Schedule, i: nat)
    requires Made(w) && i < 8
    ensures w[i] == Pack(Key()[4 * i], Key()[4 * i + 1], Key()[4 * i + 2], Key()[4 * i + 3])
  {
    hide Pack;
  }

  lemma NextWord(w: Schedule, i: nat)
    requires Made(w) && 8 <= i < 60
    ensures w[i] == Xor32(w[i - 8], Fed(w[i - 1], i))
  {
    hide Xor32, Fed;
  }

  /** The word at a multiple of eight and the three after it. */
  lemma RotatedFour(w: Schedule, k: nat)
    requires Made(w) && 1 <= k <= 7
    ensures w[8 * k] == Xor32(w[8 * k - 8], Xor32(SubWord(RotWord(w[8 * k - 1])), Pack(Power(k - 1), 0, 0, 0)))
    ensures w[8 * k + 1] == Xor32(w[8 * k - 7], w[8 * k]) && w[8 * k + 2] == Xor32(w[8 * k - 6], w[8 * k + 1])
    ensures w[8 * k + 3] == Xor32(w[8 * k - 5], w[8 * k + 2])
  {
    hide Made, Xor32, SubWord, RotWord, Pack, Power;
    NextWord(w, 8 * k);
    NextWord(w, 8 * k + 1);
    NextWord(w, 8 * k + 2);
    NextWord(w, 8 * k + 3);
  }

  /** The word half way to the next multiple and the three after it. */
  lemma PlainFour(w: Schedule, k: nat)
    requires Made(w) && 1 <= k <= 6
    ensures w[8 * k + 4] == Xor32(w[8 * k - 4], SubWord(w[8 * k + 3]))
    ensures w[8 * k + 5] == Xor32(w[8 * k - 3], w[8 * k + 4]) && w[8 * k + 6] == Xor32(w[8 * k - 2], w[8 * k + 5])
    ensures w[8 * k + 7] == Xor32(w[8 * k - 1], w[8 * k + 6])
  {
    hide Made, Xor32, SubWord, RotWord, Pack, Power;
    NextWord(w, 8 * k + 4);
    NextWord(w, 8 * k + 5);
    NextWord(w, 8 * k + 6);
    NextWord(w, 8 * k + 7);
  }

  lemma SubWordOf(a: bv8, b: bv8, c: bv8, d: bv8)
    ensures SubWord(Pack(a, b, c, d)) == Pack(Sbox(a), Sbox(b), Sbox(c), Sbox(d))
  {
    hide Pack, Sbox, ByteOf;
    ByteOfPack(a, b, c, d);
  }

  lemma Sums0()
    ensures Pack(0x00, 0x01, 0x02, 0x03) == 0x0001_0203 && Pack(0x04, 0x05, 0x06, 0x07) == 0x0405_0607
    ensures Pack(0x08, 0x09, 0x0a, 0x0b) == 0x0809_0a0b && Pack(0x0c, 0x0d, 0x0e, 0x0f) == 0x0c0d_0e0f
    ensures Pack(0x10, 0x11, 0x12, 0x13) == 0x1011_1213 && Pack(0x14, 0x15, 0x16, 0x17) == 0x1415_1617
    ensures Pack(0x18, 0x19, 0x1a, 0x1b) == 0x1819_1a1b && Pack(0x1c, 0x1d, 0x1e, 0x1f) == 0x1c1d_1e1f
  {
  }

  lemma Words0(w: Schedule)
    requires Made(w)
    ensures w[0] == 0x0001_0203 && w[1] == 0x0405_0607 && w[2] == 0x0809_0a0b && w[3] == 0x0c0d_0e0f
    ensures w[4] == 0x1011_1213 && w[5] == 0x1415_1617 && w[6] == 0x1819_1a1b && w[7] == 0x1c1d_1e1f
  {
    hide Made, Pack;
    Sums0();
    FirstWord(w, 0);
    FirstWord(w, 1);
    FirstWord(w, 2);
    FirstWord(w, 3);
    FirstWord(w, 4);
    FirstWord(w, 5);
    FirstWord(w, 6);
    FirstWord(w, 7);
  }

  lemma Sums8()
    ensures RotWord(0x1c1d_1e1f) == 0x1d1e_1f1c && Pack(0x1d, 0x1e, 0x1f, 0x1c) == 0x1d1e_1f1c
    ensures Sbox(0x1d) == 0xa4 && Sbox(0x1e) == 0x72 && Sbox(0x1f) == 0xc0 && Sbox(0x1c) == 0x9c
    ensures Pack(0xa4, 0x72, 0xc0, 0x9c) == 0xa472_c09c && Pack(0x01, 0, 0, 0) == 0x0100_0000
    ensures Xor32(0xa472_c09c, 0x0100_0000) == 0xa572_c09c && Xor32(0x0001_0203, 0xa572_c09c) == 0xa573_c29f
    ensures Xor32(0x0405_0607, 0xa573_c29f) == 0xa176_c498 && Xor32(0x0809_0a0b, 0xa176_c498) == 0xa97f_ce93
    ensures Xor32(0x0c0d_0e0f, 0xa97f_ce93) == 0xa572_c09c
    ensures Pack(0xa5, 0x72, 0xc0, 0x9c) == 0xa572_c09c && Pack(0x06, 0x40, 0xba, 0xde) == 0x0640_bade
    ensures Sbox(0xa5) == 0x06 && Sbox(0x72) == 0x40 && Sbox(0xc0) == 0xba && Sbox(0x9c) == 0xde
    ensures Xor32(0x1011_1213, 0x0640_bade) == 0x1651_a8cd && Xor32(0x1415_1617, 0x1651_a8cd) == 0x0244_beda
    ensures Xor32(0x1819_1a1b, 0x0244_beda) == 0x1a5d_a4c1 && Xor32(0x1c1d_1e1f, 0x1a5d_a4c1) == 0x0640_bade
  {
  }

  lemma Words8(w: Schedule)
    requires Made(w)
    ensures w[8] == 0xa573_c29f && w[9] == 0xa176_c498 && w[10] == 0xa97f_ce93 && w[11] == 0xa572_c09c
    ensures w[12] == 0x1651_a8cd && w[13] == 0x0244_beda && w[14] == 0x1a5d_a4c1 && w[15] == 0x0640_bade
  {
    hide Made, Pack, Xor32, SubWord, RotWord, Power, Sbox;
    Words0(w);
    Powers();
    Sums8();
    SubWordOf(0x1d, 0x1e, 0x1f, 0x1c);
    RotatedFour(w, 1);
    SubWordOf(0xa5, 0x72, 0xc0, 0x9c);
    PlainFour(w, 1);
  }

  lemma Sums16()
    ensures RotWord(0x0640_bade) == 0x40ba_de06 && Pack(0x40, 0xba, 0xde, 0x06) == 0x40ba_de06
    ensures Sbox(0x40) == 0x09 && Sbox(0xba) == 0xf4 && Sbox(0xde) == 0x1d && Sbox(0x06) == 0x6f
    ensures Pack(0x09, 0xf4, 0x1d, 0x6f) == 0x09f4_1d6f && Pack(0x02, 0, 0, 0) == 0x0200_0000
    ensures Xor32(0x09f4_1d6f, 0x0200_0000) == 0x0bf4_1d6f && Xor32(0xa573_c29f, 0x0bf4_1d6f) == 0xae87_dff0
    ensures Xor32(0xa176_c498, 0xae87_dff0) == 0x0ff1_1b68 && Xor32(0xa97f_ce93, 0x0ff1_1b68) == 0xa68e_d5fb
    ensures Xor32(0xa572_c09c, 0xa68e_d5fb) == 0x03fc_1567
    ensures Pack(0x03, 0xfc, 0x15, 0x67) == 0x03fc_1567 && Pack(0x7b, 0xb0, 0x59, 0x85) == 0x7bb0_5985
    ensures Sbox(0x03) == 0x7b && Sbox(0xfc) == 0xb0 && Sbox(0x15) == 0x59 && Sbox(0x67) == 0x85
    ensures Xor32(0x1651_a8cd, 0x7bb0_5985) == 0x6de1_f148 && Xor32(0x0244_beda, 0x6de1_f148) == 0x6fa5_4f92
    ensures Xor32(0x1a5d_a4c1, 0x6fa5_4f92) == 0x75f8_eb53 && Xor32(0x0640_bade, 0x75f8_eb53) == 0x73b8_518d
  {
  }

  lemma Words16(w: Schedule)
    requires Made(w)
    ensures w[16] == 0xae87_dff0 && w[17] == 0x0ff1_1b68 && w[18] == 0xa68e_d5fb && w[19] == 0x03fc_1567
    ensures w[20] == 0x6de1_f148 && w[21] == 0x6fa5_4f92 && w[22] == 0x75f8_eb53 && w[23] == 0x73b8_518d
  {
    hide Made, Pack, Xor32, SubWord, RotWord, Power, Sbox;
    Words8(w);
    Powers();
    Sums16();
    SubWordOf(0x40, 0xba, 0xde, 0x06);
    RotatedFour(w, 2);
    SubWordOf(0x03, 0xfc, 0x15, 0x67);
    PlainFour(w, 2);
  }

  lemma Sums24()
    ensures RotWord(0x73b8_518d) == 0xb851_8d73 && Pack(0xb8, 0x51, 0x8d, 0x73) == 0xb851_8d73
    ensures Sbox(0xb8) == 0x6c && Sbox(0x51) == 0xd1 && Sbox(0x8d) == 0x5d && Sbox(0x73) == 0x8f
    ensures Pack(0x6c, 0xd1, 0x5d, 0x8f) == 0x6cd1_5d8f && Pack(0x04, 0, 0, 0) == 0x0400_0000
    ensures Xor32(0x6cd1_5d8f, 0x0400_0000) == 0x68d1_5d8f && Xor32(0xae87_dff0, 0x68d1_5d8f) == 0xc656_827f
    ensures Xor32(0x0ff1_1b68, 0xc656_827f) == 0xc9a7_9917 && Xor32(0xa68e_d5fb, 0xc9a7_9917) == 0x6f29_4cec
    ensures Xor32(0x03fc_1567, 0x6f29_4cec) == 0x6cd5_598b
    ensures Pack(0x6c, 0xd5, 0x59, 0x8b) == 0x6cd5_598b && Pack(0x50, 0x03, 0xcb, 0x3d) == 0x5003_cb3d
    ensures Sbox(0x6c) == 0x50 && Sbox(0xd5) == 0x03 && Sbox(0x59) == 0xcb && Sbox(0x8b) == 0x3d
    ensures Xor32(0x6de1_f148, 0x5003_cb3d) == 0x3de2_3a75 && Xor32(0x6fa5_4f92, 0x3de2_3a75) == 0x5247_75e7
    ensures Xor32(0x75f8_eb53, 0x5247_75e7) == 0x27bf_9eb4 && Xor32(0x73b8_518d, 0x27bf_9eb4) == 0x5407_cf39
  {
  }

  lemma Words24(w: Schedule)
    requires Made(w)
    ensures w[24] == 0xc656_827f && w[25] == 0xc9a7_9917 && w[26] == 0x6f29_4cec && w[27] == 0x6cd5_598b
    ensures w[28] == 0x3de2_3a75 && w[29] == 0x5247_75e7 && w[30] == 0x27bf_9eb4 && w[31] == 0x5407_cf39
  {
    hide Made, Pack, Xor32, SubWord, RotWord, Power, Sbox;
    Words16(w);
    Powers();
    Sums24();
    SubWordOf(0xb8, 0x51, 0x8d, 0x73);
    RotatedFour(w, 3);
    SubWordOf(0x6c, 0xd5, 0x59, 0x8b);
    PlainFour(w, 3);
  }

  lemma Sums32()
    ensures RotWord(0x5407_cf39) == 0x07cf_3954 && Pack(0x07, 0xcf, 0x39, 0x54) == 0x07cf_3954
    ensures Sbox(0x07) == 0xc5 && Sbox(0xcf) == 0x8a && Sbox(0x39) == 0x12 && Sbox(0x54) == 0x20
    ensures Pack(0xc5, 0x8a, 0x12, 0x20) == 0xc58a_1220 && Pack(0x08, 0, 0, 0) == 0x0800_0000
    ensures Xor32(0xc58a_1220, 0x0800_0000) == 0xcd8a_1220 && Xor32(0xc656_827f, 0xcd8a_1220) == 0x0bdc_905f
    ensures Xor32(0xc9a7_9917, 0x0bdc_905f) == 0xc27b_0948 && Xor32(0x6f29_4cec, 0xc27b_0948) == 0xad52_45a4
    ensures Xor32(0x6cd5_598b, 0xad52_45a4) == 0xc187_1c2f
    ensures Pack(0xc1, 0x87, 0x1c, 0x2f) == 0xc187_1c2f && Pack(0x78, 0x17, 0x9c, 0x15) == 0x7817_9c15
    ensures Sbox(0xc1) == 0x78 && Sbox(0x87) == 0x17 && Sbox(0x1c) == 0x9c && Sbox(0x2f) == 0x15
    ensures Xor32(0x3de2_3a75, 0x7817_9c15) == 0x45f5_a660 && Xor32(0x5247_75e7, 0x45f5_a660) == 0x17b2_d387
    ensures Xor32(0x27bf_9eb4, 0x17b2_d387) == 0x300d_4d33 && Xor32(0x5407_cf39, 0x300d_4d33) == 0x640a_820a
  {
  }

  lemma Words32(w: Schedule)
    requires Made(w)
    ensures w[32] == 0x0bdc_905f && w[33] == 0xc27b_0948 && w[34] == 0xad52_45a4 && w[35] == 0xc187_1c2f
    ensures w[36] == 0x45f5_a660 && w[37] == 0x17b2_d387 && w[38] == 0x300d_4d33 && w[39] == 0x640a_820a
  {
    hide Made, Pack, Xor32, SubWord, RotWord, Power, Sbox;
    Words24(w);
    Powers();
    Sums32();
    SubWordOf(0x07, 0xcf, 0x39, 0x54);
    RotatedFour(w, 4);
    SubWordOf(0xc1, 0x87, 0x1c, 0x2f);
    PlainFour(w, 4);
  }

  lemma Sums40()
    ensures RotWord(0x640a_820a) == 0x0a82_0a64 && Pack(0x0a, 0x82, 0x0a, 0x64) == 0x0a82_0a64
    ensures Sbox(0x0a) == 0x67 && Sbox(0x82) == 0x13 && Sbox(0x0a) == 0x67 && Sbox(0x64) == 0x43
    ensures Pack(0x67, 0x13, 0x67, 0x43) == 0x6713_6743 && Pack(0x10, 0, 0, 0) == 0x1000_0000
    ensures Xor32(0x6713_6743, 0x1000_0000) == 0x7713_6743 && Xor32(0x0bdc_905f, 0x7713_6743) == 0x7ccf_f71c
    ensures Xor32(0xc27b_0948, 0x7ccf_f71c) == 0xbeb4_fe54 && Xor32(0xad52_45a4, 0xbeb4_fe54) == 0x13e6_bbf0
    ensures Xor32(0xc187_1c2f, 0x13e6_bbf0) == 0xd261_a7df
    ensures Pack(0xd2, 0x61, 0xa7, 0xdf) == 0xd261_a7df && Pack(0xb5, 0xef, 0x5c, 0x9e) == 0xb5ef_5c9e
    ensures Sbox(0xd2) == 0xb5 && Sbox(0x61) == 0xef && Sbox(0xa7) == 0x5c && Sbox(0xdf) == 0x9e
    ensures Xor32(0x45f5_a660, 0xb5ef_5c9e) == 0xf01a_fafe && Xor32(0x17b2_d387, 0xf01a_fafe) == 0xe7a8_2979
    ensures Xor32(0x300d_4d33, 0xe7a8_2979) == 0xd7a5_644a && Xor32(0x640a_820a, 0xd7a5_644a) == 0xb3af_e640
  {
  }

  lemma Words40(w: Schedule)
    requires Made(w)
    ensures w[40] == 0x7ccf_f71c && w[41] == 0xbeb4_fe54 && w[42] == 0x13e6_bbf0 && w[43] == 0xd261_a7df
    ensures w[44] == 0xf01a_fafe && w[45] == 0xe7a8_2979 && w[46] == 0xd7a5_644a && w[47] == 0xb3af_e640
  {
    hide Made, Pack, Xor32, SubWord, RotWord, Power, Sbox;
    Words32(w);
    Powers();
    Sums40();
    SubWordOf(0x0a, 0x82, 0x0a, 0x64);
    RotatedFour(w, 5);
    SubWordOf(0xd2, 0x61, 0xa7, 0xdf);
    PlainFour(w, 5);
  }

  lemma Sums48()
    ensures RotWord(0xb3af_e640) == 0xafe6_40b3 && Pack(0xaf, 0xe6, 0x40, 0xb3) == 0xafe6_40b3
    ensures Sbox(0xaf) == 0x79 && Sbox(0xe6) == 0x8e && Sbox(0x40) == 0x09 && Sbox(0xb3) == 0x6d
    ensures Pack(0x79, 0x8e, 0x09, 0x6d) == 0x798e_096d && Pack(0x20, 0, 0, 0) == 0x2000_0000
    ensures Xor32(0x798e_096d, 0x2000_0000) == 0x598e_096d && Xor32(0x7ccf_f71c, 0x598e_096d) == 0x2541_fe71
    ensures Xor32(0xbeb4_fe54, 0x2541_fe71) == 0x9bf5_0025 && Xor32(0x13e6_bbf0, 0x9bf5_0025) == 0x8813_bbd5
    ensures Xor32(0xd261_a7df, 0x8813_bbd5) == 0x5a72_1c0a
    ensures Pack(0x5a, 0x72, 0x1c, 0x0a) == 0x5a72_1c0a && Pack(0xbe, 0x40, 0x9c, 0x67) == 0xbe40_9c67
    ensures Sbox(0x5a) == 0xbe && Sbox(0x72) == 0x40 && Sbox(0x1c) == 0x9c && Sbox(0x0a) == 0x67
    ensures Xor32(0xf01a_fafe, 0xbe40_9c67) == 0x4e5a_6699 && Xor32(0xe7a8_2979, 0x4e5a_6699) == 0xa9f2_4fe0
    ensures Xor32(0xd7a5_644a, 0xa9f2_4fe0) == 0x7e57_2baa && Xor32(0xb3af_e640, 0x7e57_2baa) == 0xcdf8_cdea
  {
  }

  lemma Words48(w: Schedule)
    requires Made(w)
    ensures w[48] == 0x2541_fe71 && w[49] == 0x9bf5_0025 && w[50] == 0x8813_bbd5 && w[51] == 0x5a72_1c0a
    ensures w[52] == 0x4e5a_6699 && w[53] == 0xa9f2_4fe0 && w[54] == 0x7e57_2baa && w[55] == 0xcdf8_cdea
  {
    hide Made, Pack, Xor32, SubWord, RotWord, Power, Sbox;
    Words40(w);
    Powers();
    Sums48();
    SubWordOf(0xaf, 0xe6, 0x40, 0xb3);
    RotatedFour(w, 6);
    SubWordOf(0x5a, 0x72, 0x1c, 0x0a);
    PlainFour(w, 6);
  }

  lemma Sums56()
    ensures RotWord(0xcdf8_cdea) == 0xf8cd_eacd && Pack(0xf8, 0xcd, 0xea, 0xcd) == 0xf8cd_eacd
    ensures Sbox(0xf8) == 0x41 && Sbox(0xcd) == 0xbd && Sbox(0xea) == 0x87 && Sbox(0xcd) == 0xbd
    ensures Pack(0x41, 0xbd, 0x87, 0xbd) == 0x41bd_87bd && Pack(0x40, 0, 0, 0) == 0x4000_0000
    ensures Xor32(0x41bd_87bd, 0x4000_0000) == 0x01bd_87bd && Xor32(0x2541_fe71, 0x01bd_87bd) == 0x24fc_79cc
    ensures Xor32(0x9bf5_0025, 0x24fc_79cc) == 0xbf09_79e9 && Xor32(0x8813_bbd5, 0xbf09_79e9) == 0x371a_c23c
    ensures Xor32(0x5a72_1c0a, 0x371a_c23c) == 0x6d68_de36
  {
  }

  lemma Words56(w: Schedule)
    requires Made(w)
    ensures w[56] == 0x24fc_79cc && w[57] == 0xbf09_79e9 && w[58] == 0x371a_c23c && w[59] == 0x6d68_de36
  {
    hide Made, Pack, Xor32, SubWord, RotWord, Power, Sbox;
    Words48(w);
    Powers();
    Sums56();
    SubWordOf(0xf8, 0xcd, 0xea, 0xcd);
    RotatedFour(w, 7);
  }

  // ---- The rounds ------------------------------------------------------------------------

  /** An entry of a mixed column, by doublings, and a byte of the round key. */
  function Mixed(a: bv8, b: bv8, c: bv8, d: bv8, k: bv8): bv8 { XTime(a) ^ XTime(b) ^ b ^ c ^ d ^ k }

  lemma MixedIs(a: bv8, b: bv8, c: bv8, d: bv8, k: bv8)
    ensures Xor(MixRow(a, b, c, d), k) == Mixed(a, b, c, d, k)
  {
    hide Mul;
    Products(a);
    Products(b);
  }

  lemma SubList(s: Block)
    ensures SubBytes(s) == [Sbox(s[0]), Sbox(s[1]), Sbox(s[2]), Sbox(s[3]), Sbox(s[4]), Sbox(s[5]), Sbox(s[6]), Sbox(s[7]),
                            Sbox(s[8]), Sbox(s[9]), Sbox(s[10]), Sbox(s[11]), Sbox(s[12]), Sbox(s[13]), Sbox(s[14]), Sbox(s[15])]
  {
    hide Sbox;
  }

  /** Column `c` of a mixed block with the round key added. */
  lemma MixedColumn(b: Block, w: Schedule, n: nat, c: nat)
    requires n <= 14 && c < 4
    ensures var m := AddRoundKey(MixColumns(b), w, n); var k := w[4 * n + c];
            var s0, s1, s2, s3 := b[4 * c], b[4 * c + 1], b[4 * c + 2], b[4 * c + 3];
            && m[4 * c] == Mixed(s0, s1, s2, s3, ByteOf(k, 0)) && m[4 * c + 1] == Mixed(s1, s2, s3, s0, ByteOf(k, 1))
            && m[4 * c + 2] == Mixed(s2, s3, s0, s1, ByteOf(k, 2)) && m[4 * c + 3] == Mixed(s3, s0, s1, s2, ByteOf(k, 3))
  {
    hide MixColumns, InvMixColumns, AddRoundKey, MixRow, InvMixRow, Mixed, Xor, ByteOf;
    var k := w[4 * n + c];
    var s0, s1, s2, s3 := b[4 * c], b[4 * c + 1], b[4 * c + 2], b[4 * c + 3];
    WholeColumn(b, c, s0, s1, s2, s3);
    KeyedColumn(MixColumns(b), w, n, c, 0);
    KeyedColumn(MixColumns(b), w, n, c, 1);
    KeyedColumn(MixColumns(b), w, n, c, 2);
    KeyedColumn(MixColumns(b), w, n, c, 3);
    MixedIs(s0, s1, s2, s3, ByteOf(k, 0));
    MixedIs(s1, s2, s3, s0, ByteOf(k, 1));
    MixedIs(s2, s3, s0, s1, ByteOf(k, 2));
    MixedIs(s3, s0, s1, s2, ByteOf(k, 3));
  }

  function Round(w: Schedule, n: nat, s: Block): Block
    requires n <= 14
  {
    AddRoundKey(MixColumns(ShiftRows(SubBytes(s))), w, n)
  }

  lemma ListOf(m: Block, s0: bv8, s1: bv8, s2: bv8, s3: bv8, s4: bv8, s5: bv8, s6: bv8, s7: bv8, s8: bv8, s9: bv8, s10: bv8, s11: bv8, s12: bv8, s13: bv8, s14: bv8, s15: bv8)
    requires m[0] == s0 && m[1] == s1 && m[2] == s2 && m[3] == s3 && m[4] == s4 && m[5] == s5 && m[6] == s6 && m[7] == s7
    requires m[8] == s8 && m[9] == s9 && m[10] == s10 && m[11] == s11 && m[12] == s12 && m[13] == s13 && m[14] == s14 && m[15] == s15
    ensures m == [s0, s1, s2, s3, s4, s5, s6, s7, s8, s9, s10, s11, s12, s13, s14, s15]
  {
  }

  /** A round from the substituted bytes `s0` to `s15`. */
  lemma RoundOf(w: Schedule, n: nat, s: Block, s0: bv8, s1: bv8, s2: bv8, s3: bv8, s4: bv8, s5: bv8, s6: bv8, s7: bv8, s8: bv8, s9: bv8, s10: bv8, s11: bv8, s12: bv8, s13: bv8, s14: bv8, s15: bv8)
    requires n <= 14 && SubBytes(s) == [s0, s1, s2, s3, s4, s5, s6, s7, s8, s9, s10, s11, s12, s13, s14, s15]
    ensures var k0, k1, k2, k3 := w[4 * n], w[4 * n + 1], w[4 * n + 2], w[4 * n + 3];
            Round(w, n, s) ==
            [Mixed(s0, s5, s10, s15, ByteOf(k0, 0)), Mixed(s5, s10, s15, s0, ByteOf(k0, 1)), Mixed(s10, s15, s0, s5, ByteOf(k0, 2)), Mixed(s15, s0, s5, s10, ByteOf(k0, 3)),
             Mixed(s4, s9, s14, s3, ByteOf(k1, 0)), Mixed(s9, s14, s3, s4, ByteOf(k1, 1)), Mixed(s14, s3, s4, s9, ByteOf(k1, 2)), Mixed(s3, s4, s9, s14, ByteOf(k1, 3)),
             Mixed(s8, s13, s2, s7, ByteOf(k2, 0)), Mixed(s13, s2, s7, s8, ByteOf(k2, 1)), Mixed(s2, s7, s8, s13, ByteOf(k2, 2)), Mixed(s7, s8, s13, s2, ByteOf(k2, 3)),
             Mixed(s12, s1, s6, s11, ByteOf(k3, 0)), Mixed(s1, s6, s11, s12, ByteOf(k3, 1)), Mixed(s6, s11, s12, s1, ByteOf(k3, 2)), Mixed(s11, s12, s1, s6, ByteOf(k3, 3))]
  {
    hide SubBytes, ShiftRows, MixColumns, AddRoundKey, Mixed, ByteOf;
    var b := ShiftRows(SubBytes(s));
    ShiftRowsList(SubBytes(s));
    MixedColumn(b, w, n, 0);
    MixedColumn(b, w, n, 1);
    MixedColumn(b, w, n, 2);
    MixedColumn(b, w, n, 3);
    var k0, k1, k2, k3 := w[4 * n], w[4 * n + 1], w[4 * n + 2], w[4 * n + 3];
    ListOf(Round(w, n, s),
           Mixed(s0, s5, s10, s15, ByteOf(k0, 0)), Mixed(s5, s10, s15, s0, ByteOf(k0, 1)), Mixed(s10, s15, s0, s5, ByteOf(k0, 2)), Mixed(s15, s0, s5, s10, ByteOf(k0, 3)),
           Mixed(s4, s9, s14, s3, ByteOf(k1, 0)), Mixed(s9, s14, s3, s4, ByteOf(k1, 1)), Mixed(s14, s3, s4, s9, ByteOf(k1, 2)), Mixed(s3, s4, s9, s14, ByteOf(k1, 3)),
           Mixed(s8, s13, s2, s7, ByteOf(k2, 0)), Mixed(s13, s2, s7, s8, ByteOf(k2, 1)), Mixed(s2, s7, s8, s13, ByteOf(k2, 2)), Mixed(s7, s8, s13, s2, ByteOf(k2, 3)),
           Mixed(s12, s1, s6, s11, ByteOf(k3, 0)), Mixed(s1, s6, s11, s12, ByteOf(k3, 1)), Mixed(s6, s11, s12, s1, ByteOf(k3, 2)), Mixed(s11, s12, s1, s6, ByteOf(k3, 3)));
  }

  /** Column `c` of a block with the round key added. */
  lemma KeyColumn(b: Block, w: Schedule, n: nat, c: nat)
    requires n <= 14 && c < 4
    ensures var m := AddRoundKey(b, w, n); var k := w[4 * n + c];
            && m[4 * c] == Xor(b[4 * c], ByteOf(k, 0)) && m[4 * c + 1] == Xor(b[4 * c + 1], ByteOf(k, 1))
            && m[4 * c + 2] == Xor(b[4 * c + 2], ByteOf(k, 2)) && m[4 * c + 3] == Xor(b[4 * c + 3], ByteOf(k, 3))
  {
    hide AddRoundKey, Xor, ByteOf;
    KeyedColumn(b, w, n, c, 0);
    KeyedColumn(b, w, n, c, 1);
    KeyedColumn(b, w, n, c, 2);
    KeyedColumn(b, w, n, c, 3);
  }

  lemma KeyList(b: Block, w: Schedule, n: nat, s0: bv8, s1: bv8, s2: bv8, s3: bv8, s4: bv8, s5: bv8, s6: bv8, s7: bv8, s8: bv8, s9: bv8, s10: bv8, s11: bv8, s12: bv8, s13: bv8, s14: bv8, s15: bv8)
    requires n <= 14 && b == [s0, s1, s2, s3, s4, s5, s6, s7, s8, s9, s10, s11, s12, s13, s14, s15]
    ensures var k0, k1, k2, k3 := w[4 * n], w[4 * n + 1], w[4 * n + 2], w[4 * n + 3];
            AddRoundKey(b, w, n) ==
            [Xor(s0, ByteOf(k0, 0)), Xor(s1, ByteOf(k0, 1)), Xor(s2, ByteOf(k0, 2)), Xor(s3, ByteOf(k0, 3)),
             Xor(s4, ByteOf(k1, 0)), Xor(s5, ByteOf(k1, 1)), Xor(s6, ByteOf(k1, 2)), Xor(s7, ByteOf(k1, 3)),
             Xor(s8, ByteOf(k2, 0)), Xor(s9, ByteOf(k2, 1)), Xor(s10, ByteOf(k2, 2)), Xor(s11, ByteOf(k2, 3)),
             Xor(s12, ByteOf(k3, 0)), Xor(s13, ByteOf(k3, 1)), Xor(s14, ByteOf(k3, 2)), Xor(s15, ByteOf(k3, 3))]
  {
    hide AddRoundKey, Xor, ByteOf;
    KeyColumn(b, w, n, 0);
    KeyColumn(b, w, n, 1);
    KeyColumn(b, w, n, 2);
    KeyColumn(b, w, n, 3);
    var k0, k1, k2, k3 := w[4 * n], w[4 * n + 1], w[4 * n + 2], w[4 * n + 3];
    ListOf(AddRoundKey(b, w, n),
           Xor(s0, ByteOf(k0, 0)), Xor(s1, ByteOf(k0, 1)), Xor(s2, ByteOf(k0, 2)), Xor(s3, ByteOf(k0, 3)),
           Xor(s4, ByteOf(k1, 0)), Xor(s5, ByteOf(k1, 1)), Xor(s6, ByteOf(k1, 2)), Xor(s7, ByteOf(k1, 3)),
           Xor(s8, ByteOf(k2, 0)), Xor(s9, ByteOf(k2, 1)), Xor(s10, ByteOf(k2, 2)), Xor(s11, ByteOf(k2, 3)),
           Xor(s12, ByteOf(k3, 0)), Xor(s13, ByteOf(k3, 1)), Xor(s14, ByteOf(k3, 2)), Xor(s15, ByteOf(k3, 3)));
  }

  lemma RoundsStep(w: Schedule, n: nat)
    requires 1 <= n <= 13
    ensures Rounds(w, Plain(), n) == Round(w, n, Rounds(w, Plain(), n - 1))
  {
    hide AddRoundKey, MixColumns, ShiftRows, SubBytes, Plain;
  }

  lemma Key0()
    ensures Xor(0x00, ByteOf(0x0001_0203, 0)) == 0x00 && Xor(0x11, ByteOf(0x0001_0203, 1)) == 0x10 && Xor(0x22, ByteOf(0x0001_0203, 2)) == 0x20 && Xor(0x33, ByteOf(0x0001_0203, 3)) == 0x30
    ensures Xor(0x44, ByteOf(0x0405_0607, 0)) == 0x40 && Xor(0x55, ByteOf(0x0405_0607, 1)) == 0x50 && Xor(0x66, ByteOf(0x0405_0607, 2)) == 0x60 && Xor(0x77, ByteOf(0x0405_0607, 3)) == 0x70
    ensures Xor(0x88, ByteOf(0x0809_0a0b, 0)) == 0x80 && Xor(0x99, ByteOf(0x0809_0a0b, 1)) == 0x90 && Xor(0xaa, ByteOf(0x0809_0a0b, 2)) == 0xa0 && Xor(0xbb, ByteOf(0x0809_0a0b, 3)) == 0xb0
    ensures Xor(0xcc, ByteOf(0x0c0d_0e0f, 0)) == 0xc0 && Xor(0xdd, ByteOf(0x0c0d_0e0f, 1)) == 0xd0 && Xor(0xee, ByteOf(0x0c0d_0e0f, 2)) == 0xe0 && Xor(0xff, ByteOf(0x0c0d_0e0f, 3)) == 0xf0
  {
  }

  lemma Round0(w: Schedule)
    requires Made(w)
    ensures Rounds(w, Plain(), 0) == [0x00, 0x10, 0x20, 0x30, 0x40, 0x50, 0x60, 0x70, 0x80, 0x90, 0xa0, 0xb0, 0xc0, 0xd0, 0xe0, 0xf0]
  {
    hide Made, Xor, ByteOf, AddRoundKey;
    Words0(w);
    KeyList(Plain(), w, 0, 0x00, 0x11, 0x22, 0x33, 0x44, 0x55, 0x66, 0x77, 0x88, 0x99, 0xaa, 0xbb, 0xcc, 0xdd, 0xee, 0xff);
    Key0();
  }

  lemma Bytes1()
    ensures Sbox(0x00) == 0x63 && Sbox(0x10) == 0xca && Sbox(0x20) == 0xb7 && Sbox(0x30) == 0x04
    ensures Sbox(0x40) == 0x09 && Sbox(0x50) == 0x53 && Sbox(0x60) == 0xd0 && Sbox(0x70) == 0x51
    ensures Sbox(0x80) == 0xcd && Sbox(0x90) == 0x60 && Sbox(0xa0) == 0xe0 && Sbox(0xb0) == 0xe7
    ensures Sbox(0xc0) == 0xba && Sbox(0xd0) == 0x70 && Sbox(0xe0) == 0xe1 && Sbox(0xf0) == 0x8c
    ensures Mixed(0x63, 0x53, 0xe0, 0x8c, ByteOf(0x1011_1213, 0)) == 0x4f && Mixed(0x53, 0xe0, 0x8c, 0x63, ByteOf(0x1011_1213, 1)) == 0x63
    ensures Mixed(0xe0, 0x8c, 0x63, 0x53, ByteOf(0x1011_1213, 2)) == 0x76 && Mixed(0x8c, 0x63, 0x53, 0xe0, ByteOf(0x1011_1213, 3)) == 0x06
    ensures Mixed(0x09, 0x60, 0xe1, 0x04, ByteOf(0x1415_1617, 0)) == 0x43 && Mixed(0x60, 0xe1, 0x04, 0x09, ByteOf(0x1415_1617, 1)) == 0xe0
    ensures Mixed(0xe1, 0x04, 0x09, 0x60, ByteOf(0x1415_1617, 2)) == 0xaa && Mixed(0x04, 0x09, 0x60, 0xe1, ByteOf(0x1415_1617, 3)) == 0x85
    ensures Mixed(0xcd, 0x70, 0xb7, 0x51, ByteOf(0x1819_1a1b, 0)) == 0xef && Mixed(0x70, 0xb7, 0x51, 0xcd, ByteOf(0x1819_1a1b, 1)) == 0xa7
    ensures Mixed(0xb7, 0x51, 0xcd, 0x70, ByteOf(0x1819_1a1b, 2)) == 0x21 && Mixed(0x51, 0xcd, 0x70, 0xb7, ByteOf(0x1819_1a1b, 3)) == 0x32
    ensures Mixed(0xba, 0xca, 0xd0, 0xe7, ByteOf(0x1c1d_1e1f, 0)) == 0x01 && Mixed(0xca, 0xd0, 0xe7, 0xba, ByteOf(0x1c1d_1e1f, 1)) == 0xa4
    ensures Mixed(0xd0, 0xe7, 0xba, 0xca, ByteOf(0x1c1d_1e1f, 2)) == 0xe7 && Mixed(0xe7, 0xba, 0xca, 0xd0, ByteOf(0x1c1d_1e1f, 3)) == 0x05
  {
  }

  lemma Round1(w: Schedule)
    requires Made(w)
    ensures Rounds(w, Plain(), 1) == [0x4f, 0x63, 0x76, 0x06, 0x43, 0xe0, 0xaa, 0x85, 0xef, 0xa7, 0x21, 0x32, 0x01, 0xa4, 0xe7, 0x05]
  {
    hide Made, Mixed, ByteOf, Sbox, SubBytes, Round, Rounds, Plain;
    Round0(w);
    RoundsStep(w, 1);
    Words0(w);
    var s: Block := [0x00, 0x10, 0x20, 0x30, 0x40, 0x50, 0x60, 0x70, 0x80, 0x90, 0xa0, 0xb0, 0xc0, 0xd0, 0xe0, 0xf0];
    SubList(s);
    Bytes1();
    RoundOf(w, 1, s, 0x63, 0xca, 0xb7, 0x04, 0x09, 0x53, 0xd0, 0x51, 0xcd, 0x60, 0xe0, 0xe7, 0xba, 0x70, 0xe1, 0x8c);
  }

  lemma Bytes2()
    ensures Sbox(0x4f) == 0x84 && Sbox(0x63) == 0xfb && Sbox(0x76) == 0x38 && Sbox(0x06) == 0x6f
    ensures Sbox(0x43) == 0x1a && Sbox(0xe0) == 0xe1 && Sbox(0xaa) == 0xac && Sbox(0x85) == 0x97
    ensures Sbox(0xef) == 0xdf && Sbox(0xa7) == 0x5c && Sbox(0x21) == 0xfd && Sbox(0x32) == 0x23
    ensures Sbox(0x01) == 0x7c && Sbox(0xa4) == 0x49 && Sbox(0xe7) == 0x94 && Sbox(0x05) == 0x6b
    ensures Mixed(0x84, 0xe1, 0xfd, 0x6b, ByteOf(0xa573_c29f, 0)) == 0x18 && Mixed(0xe1, 0xfd, 0x6b, 0x84, ByteOf(0xa573_c29f, 1)) == 0x59
    ensures Mixed(0xfd, 0x6b, 0x84, 0xe1, ByteOf(0xa573_c29f, 2)) == 0xfb && Mixed(0x6b, 0x84, 0xe1, 0xfd, ByteOf(0xa573_c29f, 3)) == 0xc2
    ensures Mixed(0x1a, 0x5c, 0x94, 0x6f, ByteOf(0xa176_c498, 0)) == 0x8a && Mixed(0x5c, 0x94, 0x6f, 0x1a, ByteOf(0xa176_c498, 1)) == 0x1c
    ensures Mixed(0x94, 0x6f, 0x1a, 0x5c, ByteOf(0xa176_c498, 2)) == 0x00 && Mixed(0x6f, 0x1a, 0x5c, 0x94, ByteOf(0xa176_c498, 3)) == 0xa0
    ensures Mixed(0xdf, 0x49, 0x38, 0x97, ByteOf(0xa97f_ce93, 0)) == 0x78 && Mixed(0x49, 0x38, 0x97, 0xdf, ByteOf(0xa97f_ce93, 1)) == 0xed
    ensures Mixed(0x38, 0x97, 0xdf, 0x49, ByteOf(0xa97f_ce93, 2)) == 0x8a && Mixed(0x97, 0xdf, 0x49, 0x38, ByteOf(0xa97f_ce93, 3)) == 0xad
    ensures Mixed(0x7c, 0xfb, 0xac, 0x23, ByteOf(0xa572_c09c, 0)) == 0xc4 && Mixed(0xfb, 0xac, 0x23, 0x7c, ByteOf(0xa572_c09c, 1)) == 0x2f
    ensures Mixed(0xac, 0x23, 0x7c, 0xfb, ByteOf(0xa572_c09c, 2)) == 0x61 && Mixed(0x23, 0x7c, 0xfb, 0xac, ByteOf(0xa572_c09c, 3)) == 0x09
  {
  }

  lemma Round2(w: Schedule)
    requires Made(w)
    ensures Rounds(w, Plain(), 2) == [0x18, 0x59, 0xfb, 0xc2, 0x8a, 0x1c, 0x00, 0xa0, 0x78, 0xed, 0x8a, 0xad, 0xc4, 0x2f, 0x61, 0x09]
  {
    hide Made, Mixed, ByteOf, Sbox, SubBytes, Round, Rounds, Plain;
    Round1(w);
    RoundsStep(w, 2);
    Words8(w);
    var s: Block := [0x4f, 0x63, 0x76, 0x06, 0x43, 0xe0, 0xaa, 0x85, 0xef, 0xa7, 0x21, 0x32, 0x01, 0xa4, 0xe7, 0x05];
    SubList(s);
    Bytes2();
    RoundOf(w, 2, s, 0x84, 0xfb, 0x38, 0x6f, 0x1a, 0xe1, 0xac, 0x97, 0xdf, 0x5c, 0xfd, 0x23, 0x7c, 0x49, 0x94, 0x6b);
  }

  lemma Bytes3()
    ensures Sbox(0x18) == 0xad && Sbox(0x59) == 0xcb && Sbox(0xfb) == 0x0f && Sbox(0xc2) == 0x25
    ensures Sbox(0x8a) == 0x7e && Sbox(0x1c) == 0x9c && Sbox(0x00) == 0x63 && Sbox(0xa0) == 0xe0
    ensures Sbox(0x78) == 0xbc && Sbox(0xed) == 0x55 && Sbox(0x8a) == 0x7e && Sbox(0xad) == 0x95
    ensures Sbox(0xc4) == 0x1c && Sbox(0x2f) == 0x15 && Sbox(0x61) == 0xef && Sbox(0x09) == 0x01
    ensures Mixed(0xad, 0x9c, 0x7e, 0x01, ByteOf(0x1651_a8cd, 0)) == 0x97 && Mixed(0x9c, 0x7e, 0x01, 0xad, ByteOf(0x1651_a8cd, 1)) == 0x5c
    ensures Mixed(0x7e, 0x01, 0xad, 0x9c, ByteOf(0x1651_a8cd, 2)) == 0x66 && Mixed(0x01, 0xad, 0x9c, 0x7e, ByteOf(0x1651_a8cd, 3)) == 0xc1
    ensures Mixed(0x7e, 0x55, 0xef, 0x25, ByteOf(0x0244_beda, 0)) == 0xcb && Mixed(0x55, 0xef, 0x25, 0x7e, ByteOf(0x0244_beda, 1)) == 0x9f
    ensures Mixed(0xef, 0x25, 0x7e, 0x55, ByteOf(0x0244_beda, 2)) == 0x3f && Mixed(0x25, 0x7e, 0x55, 0xef, ByteOf(0x0244_beda, 3)) == 0xa8
    ensures Mixed(0xbc, 0x15, 0x0f, 0xe0, ByteOf(0x1a5d_a4c1, 0)) == 0xa9 && Mixed(0x15, 0x0f, 0xe0, 0xbc, ByteOf(0x1a5d_a4c1, 1)) == 0x3a
    ensures Mixed(0x0f, 0xe0, 0xbc, 0x15, ByteOf(0x1a5d_a4c1, 2)) == 0x28 && Mixed(0xe0, 0xbc, 0x15, 0x0f, ByteOf(0x1a5d_a4c1, 3)) == 0xdf
    ensures Mixed(0x1c, 0xcb, 0x63, 0x95, ByteOf(0x0640_bade, 0)) == 0x8e && Mixed(0xcb, 0x63, 0x95, 0x1c, ByteOf(0x0640_bade, 1)) == 0xe1
    ensures Mixed(0x63, 0x95, 0x1c, 0xcb, ByteOf(0x0640_bade, 2)) == 0x0f && Mixed(0x95, 0x1c, 0xcb, 0x63, ByteOf(0x0640_bade, 3)) == 0x63
  {
  }

  lemma Round3(w: Schedule)
    requires Made(w)
    ensures Rounds(w, Plain(), 3) == [0x97, 0x5c, 0x66, 0xc1, 0xcb, 0x9f, 0x3f, 0xa8, 0xa9, 0x3a, 0x28, 0xdf, 0x8e, 0xe1, 0x0f, 0x63]
  {
    hide Made, Mixed, ByteOf, Sbox, SubBytes, Round, Rounds, Plain;
    Round2(w);
    RoundsStep(w, 3);
    Words8(w);
    var s: Block := [0x18, 0x59, 0xfb, 0xc2, 0x8a, 0x1c, 0x00, 0xa0, 0x78, 0xed, 0x8a, 0xad, 0xc4, 0x2f, 0x61, 0x09];
    SubList(s);
    Bytes3();
    RoundOf(w, 3, s, 0xad, 0xcb, 0x0f, 0x25, 0x7e, 0x9c, 0x63, 0xe0, 0xbc, 0x55, 0x7e, 0x95, 0x1c, 0x15, 0xef, 0x01);
  }

  lemma Bytes4()
    ensures Sbox(0x97) == 0x88 && Sbox(0x5c) == 0x4a && Sbox(0x66) == 0x33 && Sbox(0xc1) == 0x78
    ensures Sbox(0xcb) == 0x1f && Sbox(0x9f) == 0xdb && Sbox(0x3f) == 0x75 && Sbox(0xa8) == 0xc2
    ensures Sbox(0xa9) == 0xd3 && Sbox(0x3a) == 0x80 && Sbox(0x28) == 0x34 && Sbox(0xdf) == 0x9e
    ensures Sbox(0x8e) == 0x19 && Sbox(0xe1) == 0xf8 && Sbox(0x0f) == 0x76 && Sbox(0x63) == 0xfb
    ensures Mixed(0x88, 0xdb, 0x34, 0xfb, ByteOf(0xae87_dff0, 0)) == 0x1c && Mixed(0xdb, 0x34, 0xfb, 0x88, ByteOf(0xae87_dff0, 1)) == 0x05
    ensures Mixed(0x34, 0xfb, 0x88, 0xdb, ByteOf(0xae87_dff0, 2)) == 0xf2 && Mixed(0xfb, 0x88, 0xdb, 0x34, ByteOf(0xae87_dff0, 3)) == 0x71
    ensures Mixed(0x1f, 0x80, 0x76, 0x78, ByteOf(0x0ff1_1b68, 0)) == 0xa4 && Mixed(0x80, 0x76, 0x78, 0x1f, ByteOf(0x0ff1_1b68, 1)) == 0x17
    ensures Mixed(0x76, 0x78, 0x1f, 0x80, ByteOf(0x0ff1_1b68, 2)) == 0xe0 && Mixed(0x78, 0x1f, 0x80, 0x76, ByteOf(0x0ff1_1b68, 3)) == 0x4f
    ensures Mixed(0xd3, 0xf8, 0x33, 0xc2, ByteOf(0xa68e_d5fb, 0)) == 0xf9 && Mixed(0xf8, 0x33, 0xc2, 0xd3, ByteOf(0xa68e_d5fb, 1)) == 0x21
    ensures Mixed(0x33, 0xc2, 0xd3, 0xf8, ByteOf(0xa68e_d5fb, 2)) == 0xc5 && Mixed(0xc2, 0xd3, 0xf8, 0x33, ByteOf(0xa68e_d5fb, 3)) == 0xc1
    ensures Mixed(0x19, 0x4a, 0x75, 0x9e, ByteOf(0x03fc_1567, 0)) == 0x04 && Mixed(0x4a, 0x75, 0x9e, 0x19, ByteOf(0x03fc_1567, 1)) == 0x70
    ensures Mixed(0x75, 0x9e, 0x19, 0x4a, ByteOf(0x03fc_1567, 2)) == 0x15 && Mixed(0x9e, 0x19, 0x4a, 0x75, ByteOf(0x03fc_1567, 3)) == 0x54
  {
  }

  lemma Round4(w: Schedule)
    requires Made(w)
    ensures Rounds(w, Plain(), 4) == [0x1c, 0x05, 0xf2, 0x71, 0xa4, 0x17, 0xe0, 0x4f, 0xf9, 0x21, 0xc5, 0xc1, 0x04, 0x70, 0x15, 0x54]
  {
    hide Made, Mixed, ByteOf, Sbox, SubBytes, Round, Rounds, Plain;
    Round3(w);
    RoundsStep(w, 4);
    Words16(w);
    var s: Block := [0x97, 0x5c, 0x66, 0xc1, 0xcb, 0x9f, 0x3f, 0xa8, 0xa9, 0x3a, 0x28, 0xdf, 0x8e, 0xe1, 0x0f, 0x63];
    SubList(s);
    Bytes4();
    RoundOf(w, 4, s, 0x88, 0x4a, 0x33, 0x78, 0x1f, 0xdb, 0x75, 0xc2, 0xd3, 0x80, 0x34, 0x9e, 0x19, 0xf8, 0x76, 0xfb);
  }

  lemma Bytes5()
    ensures Sbox(0x1c) == 0x9c && Sbox(0x05) == 0x6b && Sbox(0xf2) == 0x89 && Sbox(0x71) == 0xa3
    ensures Sbox(0xa4) == 0x49 && Sbox(0x17) == 0xf0 && Sbox(0xe0) == 0xe1 && Sbox(0x4f) == 0x84
    ensures Sbox(0xf9) == 0x99 && Sbox(0x21) == 0xfd && Sbox(0xc5) == 0xa6 && Sbox(0xc1) == 0x78
    ensures Sbox(0x04) == 0xf2 && Sbox(0x70) == 0x51 && Sbox(0x15) == 0x59 && Sbox(0x54) == 0x20
    ensures Mixed(0x9c, 0xf0, 0xa6, 0x20, ByteOf(0x6de1_f148, 0)) == 0xc3 && Mixed(0xf0, 0xa6, 0x20, 0x9c, ByteOf(0x6de1_f148, 1)) == 0x57
    ensures Mixed(0xa6, 0x20, 0x9c, 0xf0, ByteOf(0x6de1_f148, 2)) == 0xaa && Mixed(0x20, 0x9c, 0xf0, 0xa6, ByteOf(0x6de1_f148, 3)) == 0xe1
    ensures Mixed(0x49, 0xfd, 0x59, 0xa3, ByteOf(0x6fa5_4f92, 0)) == 0x1b && Mixed(0xfd, 0x59, 0xa3, 0x49, ByteOf(0x6fa5_4f92, 1)) == 0x45
    ensures Mixed(0x59, 0xa3, 0x49, 0xfd, ByteOf(0x6fa5_4f92, 2)) == 0xb7 && Mixed(0xa3, 0x49, 0xfd, 0x59, ByteOf(0x6fa5_4f92, 3)) == 0xb0
    ensures Mixed(0x99, 0x51, 0x89, 0x84, ByteOf(0x75f8_eb53, 0)) == 0xa2 && Mixed(0x51, 0x89, 0x84, 0x99, ByteOf(0x75f8_eb53, 1)) == 0xc7
    ensures Mixed(0x89, 0x84, 0x99, 0x51, ByteOf(0x75f8_eb53, 2)) == 0xbd && Mixed(0x84, 0x99, 0x51, 0x89, ByteOf(0x75f8_eb53, 3)) == 0x28
    ensures Mixed(0xf2, 0x6b, 0xe1, 0x78, ByteOf(0x73b8_518d, 0)) == 0xa8 && Mixed(0x6b, 0xe1, 0x78, 0xf2, ByteOf(0x73b8_518d, 1)) == 0xdc
    ensures Mixed(0xe1, 0x78, 0xf2, 0x6b, ByteOf(0x73b8_518d, 2)) == 0x99 && Mixed(0x78, 0xf2, 0x6b, 0xe1, ByteOf(0x73b8_518d, 3)) == 0xfa
  {
  }

  lemma Round5(w: Schedule)
    requires Made(w)
    ensures Rounds(w, Plain(), 5) == [0xc3, 0x57, 0xaa, 0xe1, 0x1b, 0x45, 0xb7, 0xb0, 0xa2, 0xc7, 0xbd, 0x28, 0xa8, 0xdc, 0x99, 0xfa]
  {
    hide Made, Mixed, ByteOf, Sbox, SubBytes, Round, Rounds, Plain;
    Round4(w);
    RoundsStep(w, 5);
    Words16(w);
    var s: Block := [0x1c, 0x05, 0xf2, 0x71, 0xa4, 0x17, 0xe0, 0x4f, 0xf9, 0x21, 0xc5, 0xc1, 0x04, 0x70, 0x15, 0x54];
    SubList(s);
    Bytes5();
    RoundOf(w, 5, s, 0x9c, 0x6b, 0x89, 0xa3, 0x49, 0xf0, 0xe1, 0x84, 0x99, 0xfd, 0xa6, 0x78, 0xf2, 0x51, 0x59, 0x20);
  }

  lemma Bytes6()
    ensures Sbox(0xc3) == 0x2e && Sbox(0x57) == 0x5b && Sbox(0xaa) == 0xac && Sbox(0xe1) == 0xf8
    ensures Sbox(0x1b) == 0xaf && Sbox(0x45) == 0x6e && Sbox(0xb7) == 0xa9 && Sbox(0xb0) == 0xe7
    ensures Sbox(0xa2) == 0x3a && Sbox(0xc7) == 0xc6 && Sbox(0xbd) == 0x7a && Sbox(0x28) == 0x34
    ensures Sbox(0xa8) == 0xc2 && Sbox(0xdc) == 0x86 && Sbox(0x99) == 0xee && Sbox(0xfa) == 0x2d
    ensures Mixed(0x2e, 0x6e, 0x7a, 0x2d, ByteOf(0xc656_827f, 0)) == 0x7f && Mixed(0x6e, 0x7a, 0x2d, 0x2e, ByteOf(0xc656_827f, 1)) == 0x07
    ensures Mixed(0x7a, 0x2d, 0x2e, 0x6e, ByteOf(0xc656_827f, 2)) == 0x41 && Mixed(0x2d, 0x2e, 0x6e, 0x7a, ByteOf(0xc656_827f, 3)) == 0x43
    ensures Mixed(0xaf, 0xc6, 0xee, 0xf8, ByteOf(0xc9a7_9917, 0)) == 0xcb && Mixed(0xc6, 0xee, 0xf8, 0xaf, ByteOf(0xc9a7_9917, 1)) == 0x4e
    ensures Mixed(0xee, 0xf8, 0xaf, 0xc6, ByteOf(0xc9a7_9917, 2)) == 0x24 && Mixed(0xf8, 0xaf, 0xc6, 0xee, ByteOf(0xc9a7_9917, 3)) == 0x3e
    ensures Mixed(0x3a, 0x86, 0xac, 0xe7, ByteOf(0x6f29_4cec, 0)) == 0xc1 && Mixed(0x86, 0xac, 0xe7, 0x3a, ByteOf(0x6f29_4cec, 1)) == 0x0c
    ensures Mixed(0xac, 0xe7, 0x3a, 0x86, ByteOf(0x6f29_4cec, 2)) == 0x81 && Mixed(0xe7, 0x3a, 0x86, 0xac, ByteOf(0x6f29_4cec, 3)) == 0x5d
    ensures Mixed(0xc2, 0x5b, 0xa9, 0x34, ByteOf(0x6cd5_598b, 0)) == 0x83 && Mixed(0x5b, 0xa9, 0x34, 0xc2, ByteOf(0x6cd5_598b, 1)) == 0x75
    ensures Mixed(0xa9, 0x34, 0xc2, 0x5b, ByteOf(0x6cd5_598b, 2)) == 0xd5 && Mixed(0x34, 0xc2, 0x5b, 0xa9, ByteOf(0x6cd5_598b, 3)) == 0x4c
  {
  }

  lemma Round6(w: Schedule)
    requires Made(w)
    ensures Rounds(w, Plain(), 6) == [0x7f, 0x07, 0x41, 0x43, 0xcb, 0x4e, 0x24, 0x3e, 0xc1, 0x0c, 0x81, 0x5d, 0x83, 0x75, 0xd5, 0x4c]
  {
    hide Made, Mixed, ByteOf, Sbox, SubBytes, Round, Rounds, Plain;
    Round5(w);
    RoundsStep(w, 6);
    Words24(w);
    var s: Block := [0xc3, 0x57, 0xaa, 0xe1, 0x1b, 0x45, 0xb7, 0xb0, 0xa2, 0xc7, 0xbd, 0x28, 0xa8, 0xdc, 0x99, 0xfa];
    SubList(s);
    Bytes6();
    RoundOf(w, 6, s, 0x2e, 0x5b, 0xac, 0xf8, 0xaf, 0x6e, 0xa9, 0xe7, 0x3a, 0xc6, 0x7a, 0x34, 0xc2, 0x86, 0xee, 0x2d);
  }

  lemma Bytes7()
    ensures Sbox(0x7f) == 0xd2 && Sbox(0x07) == 0xc5 && Sbox(0x41) == 0x83 && Sbox(0x43) == 0x1a
    ensures Sbox(0xcb) == 0x1f && Sbox(0x4e) == 0x2f && Sbox(0x24) == 0x36 && Sbox(0x3e) == 0xb2
    ensures Sbox(0xc1) == 0x78 && Sbox(0x0c) == 0xfe && Sbox(0x81) == 0x0c && Sbox(0x5d) == 0x4c
    ensures Sbox(0x83) == 0xec && Sbox(0x75) == 0x9d && Sbox(0xd5) == 0x03 && Sbox(0x4c) == 0x29
    ensures Mixed(0xd2, 0x2f, 0x0c, 0x29, ByteOf(0x3de2_3a75, 0)) == 0xd6 && Mixed(0x2f, 0x0c, 0x29, 0xd2, ByteOf(0x3de2_3a75, 1)) == 0x53
    ensures Mixed(0x0c, 0x29, 0xd2, 0x2f, ByteOf(0x3de2_3a75, 2)) == 0xa4 && Mixed(0x29, 0xd2, 0x2f, 0x0c, ByteOf(0x3de2_3a75, 3)) == 0x69
    ensures Mixed(0x1f, 0xfe, 0x03, 0x1a, ByteOf(0x5247_75e7, 0)) == 0x6c && Mixed(0xfe, 0x03, 0x1a, 0x1f, ByteOf(0x5247_75e7, 1)) == 0xa0
    ensures Mixed(0x03, 0x1a, 0x1f, 0xfe, ByteOf(0x5247_75e7, 2)) == 0xbc && Mixed(0x1a, 0x1f, 0xfe, 0x03, ByteOf(0x5247_75e7, 3)) == 0x0f
    ensures Mixed(0x78, 0x9d, 0x83, 0xb2, ByteOf(0x27bf_9eb4, 0)) == 0x5a && Mixed(0x9d, 0x83, 0xb2, 0x78, ByteOf(0x27bf_9eb4, 1)) == 0xca
    ensures Mixed(0x83, 0xb2, 0x78, 0x9d, ByteOf(0x27bf_9eb4, 2)) == 0xab && Mixed(0xb2, 0x78, 0x9d, 0x83, ByteOf(0x27bf_9eb4, 3)) == 0x5d
    ensures Mixed(0xec, 0xc5, 0x36, 0x4c, ByteOf(0x5407_cf39, 0)) == 0xb9 && Mixed(0xc5, 0x36, 0x4c, 0xec, ByteOf(0x5407_cf39, 1)) == 0x6c
    ensures Mixed(0x36, 0x4c, 0xec, 0xc5, ByteOf(0x5407_cf39, 2)) == 0x5e && Mixed(0x4c, 0xec, 0xc5, 0x36, ByteOf(0x5407_cf39, 3)) == 0x7d
  {
  }

  lemma Round7(w: Schedule)
    requires Made(w)
    ensures Rounds(w, Plain(), 7) == [0xd6, 0x53, 0xa4, 0x69, 0x6c, 0xa0, 0xbc, 0x0f, 0x5a, 0xca, 0xab, 0x5d, 0xb9, 0x6c, 0x5e, 0x7d]
  {
    hide Made, Mixed, ByteOf, Sbox, SubBytes, Round, Rounds, Plain;
    Round6(w);
    RoundsStep(w, 7);
    Words24(w);
    var s: Block := [0x7f, 0x07, 0x41, 0x43, 0xcb, 0x4e, 0x24, 0x3e, 0xc1, 0x0c, 0x81, 0x5d, 0x83, 0x75, 0xd5, 0x4c];
    SubList(s);
    Bytes7();
    RoundOf(w, 7, s, 0xd2, 0xc5, 0x83, 0x1a, 0x1f, 0x2f, 0x36, 0xb2, 0x78, 0xfe, 0x0c, 0x4c, 0xec, 0x9d, 0x03, 0x29);
  }

  lemma Bytes8()
    ensures Sbox(0xd6) == 0xf6 && Sbox(0x53) == 0xed && Sbox(0xa4) == 0x49 && Sbox(0x69) == 0xf9
    ensures Sbox(0x6c) == 0x50 && Sbox(0xa0) == 0xe0 && Sbox(0xbc) == 0x65 && Sbox(0x0f) == 0x76
    ensures Sbox(0x5a) == 0xbe && Sbox(0xca) == 0x74 && Sbox(0xab) == 0x62 && Sbox(0x5d) == 0x4c
    ensures Sbox(0xb9) == 0x56 && Sbox(0x6c) == 0x50 && Sbox(0x5e) == 0x58 && Sbox(0x7d) == 0xff
    ensures Mixed(0xf6, 0xe0, 0x62, 0xff, ByteOf(0x0bdc_905f, 0)) == 0x5a && Mixed(0xe0, 0x62, 0xff, 0xf6, ByteOf(0x0bdc_905f, 1)) == 0xa8
    ensures Mixed(0x62, 0xff, 0xf6, 0xe0, ByteOf(0x0bdc_905f, 2)) == 0x58 && Mixed(0xff, 0xf6, 0xe0, 0x62, ByteOf(0x0bdc_905f, 3)) == 0x39
    ensures Mixed(0x50, 0x74, 0x58, 0xf9, ByteOf(0xc27b_0948, 0)) == 0x5f && Mixed(0x74, 0x58, 0xf9, 0x50, ByteOf(0xc27b_0948, 1)) == 0xd2
    ensures Mixed(0x58, 0xf9, 0x50, 0x74, ByteOf(0xc27b_0948, 2)) == 0x8d && Mixed(0xf9, 0x50, 0x74, 0x58, ByteOf(0xc27b_0948, 3)) == 0x7d
    ensures Mixed(0xbe, 0x50, 0x49, 0x76, ByteOf(0xad52_45a4, 0)) == 0x05 && Mixed(0x50, 0x49, 0x76, 0xbe, ByteOf(0xad52_45a4, 1)) == 0xe1
    ensures Mixed(0x49, 0x76, 0xbe, 0x50, ByteOf(0xad52_45a4, 2)) == 0xa3 && Mixed(0x76, 0xbe, 0x50, 0x49, ByteOf(0xad52_45a4, 3)) == 0x88
    ensures Mixed(0x56, 0xed, 0x65, 0x4c, ByteOf(0xc187_1c2f, 0)) == 0x68 && Mixed(0xed, 0x65, 0x4c, 0x56, ByteOf(0xc187_1c2f, 1)) == 0xf3
    ensures Mixed(0x65, 0x4c, 0x56, 0xed, ByteOf(0xc187_1c2f, 2)) == 0xb9 && Mixed(0x4c, 0x56, 0xed, 0x65, ByteOf(0xc187_1c2f, 3)) == 0xc5
  {
  }

  lemma Round8(w: Schedule)
    requires Made(w)
    ensures Rounds(w, Plain(), 8) == [0x5a, 0xa8, 0x58, 0x39, 0x5f, 0xd2, 0x8d, 0x7d, 0x05, 0xe1, 0xa3, 0x88, 0x68, 0xf3, 0xb9, 0xc5]
  {
    hide Made, Mixed, ByteOf, Sbox, SubBytes, Round, Rounds, Plain;
    Round7(w);
    RoundsStep(w, 8);
    Words32(w);
    var s: Block := [0xd6, 0x53, 0xa4, 0x69, 0x6c, 0xa0, 0xbc, 0x0f, 0x5a, 0xca, 0xab, 0x5d, 0xb9, 0x6c, 0x5e, 0x7d];
    SubList(s);
    Bytes8();
    RoundOf(w, 8, s, 0xf6, 0xed, 0x49, 0xf9, 0x50, 0xe0, 0x65, 0x76, 0xbe, 0x74, 0x62, 0x4c, 0x56, 0x50, 0x58, 0xff);
  }

  lemma Bytes9()
    ensures Sbox(0x5a) == 0xbe && Sbox(0xa8) == 0xc2 && Sbox(0x58) == 0x6a && Sbox(0x39) == 0x12
    ensures Sbox(0x5f) == 0xcf && Sbox(0xd2) == 0xb5 && Sbox(0x8d) == 0x5d && Sbox(0x7d) == 0xff
    ensures Sbox(0x05) == 0x6b && Sbox(0xe1) == 0xf8 && Sbox(0xa3) == 0x0a && Sbox(0x88) == 0xc4
    ensures Sbox(0x68) == 0x45 && Sbox(0xf3) == 0x0d && Sbox(0xb9) == 0x56 && Sbox(0xc5) == 0xa6
    ensures Mixed(0xbe, 0xb5, 0x0a, 0xa6, ByteOf(0x45f5_a660, 0)) == 0x4a && Mixed(0xb5, 0x0a, 0xa6, 0xbe, ByteOf(0x45f5_a660, 1)) == 0x82
    ensures Mixed(0x0a, 0xa6, 0xbe, 0xb5, ByteOf(0x45f5_a660, 2)) == 0x48 && Mixed(0xa6, 0xbe, 0xb5, 0x0a, ByteOf(0x45f5_a660, 3)) == 0x51
    ensures Mixed(0xcf, 0xf8, 0x56, 0x12, ByteOf(0x17b2_d387, 0)) == 0xc5 && Mixed(0xf8, 0x56, 0x12, 0xcf, ByteOf(0x17b2_d387, 1)) == 0x7e
    ensures Mixed(0x56, 0x12, 0xcf, 0xf8, ByteOf(0x17b2_d387, 2)) == 0x7e && Mixed(0x12, 0xcf, 0xf8, 0x56, ByteOf(0x17b2_d387, 3)) == 0x47
    ensures Mixed(0x6b, 0x0d, 0x6a, 0xff, ByteOf(0x300d_4d33, 0)) == 0x64 && Mixed(0x0d, 0x6a, 0xff, 0x6b, ByteOf(0x300d_4d33, 1)) == 0x3d
    ensures Mixed(0x6a, 0xff, 0x6b, 0x0d, ByteOf(0x300d_4d33, 2)) == 0xe5 && Mixed(0xff, 0x6b, 0x0d, 0x6a, ByteOf(0x300d_4d33, 3)) == 0x0c
    ensures Mixed(0x45, 0xc2, 0x5d, 0xc4, ByteOf(0x640a_820a, 0)) == 0x2a && Mixed(0xc2, 0x5d, 0xc4, 0x45, ByteOf(0x640a_820a, 1)) == 0xf3
    ensures Mixed(0x5d, 0xc4, 0x45, 0xc2, ByteOf(0x640a_820a, 2)) == 0xe8 && Mixed(0xc4, 0x45, 0xc2, 0x5d, ByteOf(0x640a_820a, 3)) == 0xc9
  {
  }

  lemma Round9(w: Schedule)
    requires Made(w)
    ensures Rounds(w, Plain(), 9) == [0x4a, 0x82, 0x48, 0x51, 0xc5, 0x7e, 0x7e, 0x47, 0x64, 0x3d, 0xe5, 0x0c, 0x2a, 0xf3, 0xe8, 0xc9]
  {
    hide Made, Mixed, ByteOf, Sbox, SubBytes, Round, Rounds, Plain;
    Round8(w);
    RoundsStep(w, 9);
    Words32(w);
    var s: Block := [0x5a, 0xa8, 0x58, 0x39, 0x5f, 0xd2, 0x8d, 0x7d, 0x05, 0xe1, 0xa3, 0x88, 0x68, 0xf3, 0xb9, 0xc5];
    SubList(s);
    Bytes9();
    RoundOf(w, 9, s, 0xbe, 0xc2, 0x6a, 0x12, 0xcf, 0xb5, 0x5d, 0xff, 0x6b, 0xf8, 0x0a, 0xc4, 0x45, 0x0d, 0x56, 0xa6);
  }

  lemma Bytes10()
    ensures Sbox(0x4a) == 0xd6 && Sbox(0x82) == 0x13 && Sbox(0x48) == 0x52 && Sbox(0x51) == 0xd1
    ensures Sbox(0xc5) == 0xa6 && Sbox(0x7e) == 0xf3 && Sbox(0x7e) == 0xf3 && Sbox(0x47) == 0xa0
    ensures Sbox(0x64) == 0x43 && Sbox(0x3d) == 0x27 && Sbox(0xe5) == 0xd9 && Sbox(0x0c) == 0xfe
    ensures Sbox(0x2a) == 0xe5 && Sbox(0xf3) == 0x0d && Sbox(0xe8) == 0x9b && Sbox(0xc9) == 0xdd
    ensures Mixed(0xd6, 0xf3, 0xd9, 0xdd, ByteOf(0x7ccf_f71c, 0)) == 0xc1 && Mixed(0xf3, 0xd9, 0xdd, 0xd6, ByteOf(0x7ccf_f71c, 1)) == 0x49
    ensures Mixed(0xd9, 0xdd, 0xd6, 0xf3, ByteOf(0x7ccf_f71c, 2)) == 0x07 && Mixed(0xdd, 0xd6, 0xf3, 0xd9, ByteOf(0x7ccf_f71c, 3)) == 0xf6
    ensures Mixed(0xa6, 0x27, 0x9b, 0xd1, ByteOf(0xbeb4_fe54, 0)) == 0xca && Mixed(0x27, 0x9b, 0xd1, 0xa6, ByteOf(0xbeb4_fe54, 1)) == 0x3b
    ensures Mixed(0x9b, 0xd1, 0xa6, 0x27, ByteOf(0xbeb4_fe54, 2)) == 0x3a && Mixed(0xd1, 0xa6, 0x27, 0x9b, ByteOf(0xbeb4_fe54, 3)) == 0xa0
    ensures Mixed(0x43, 0x0d, 0x52, 0xa0, ByteOf(0x13e6_bbf0, 0)) == 0x70 && Mixed(0x0d, 0x52, 0xa0, 0x43, ByteOf(0x13e6_bbf0, 1)) == 0xe9
    ensures Mixed(0x52, 0xa0, 0x43, 0x0d, ByteOf(0x13e6_bbf0, 2)) == 0xaa && Mixed(0xa0, 0x43, 0x0d, 0x52, ByteOf(0x13e6_bbf0, 3)) == 0x31
    ensures Mixed(0xe5, 0x13, 0xf3, 0xfe, ByteOf(0xd261_a7df, 0)) == 0x3b && Mixed(0x13, 0xf3, 0xfe, 0xe5, ByteOf(0xd261_a7df, 1)) == 0x52
    ensures Mixed(0xf3, 0xfe, 0xe5, 0x13, ByteOf(0xd261_a7df, 2)) == 0xb5 && Mixed(0xfe, 0xe5, 0x13, 0xf3, ByteOf(0xd261_a7df, 3)) == 0xec
  {
  }

  lemma Round10(w: Schedule)
    requires Made(w)
    ensures Rounds(w, Plain(), 10) == [0xc1, 0x49, 0x07, 0xf6, 0xca, 0x3b, 0x3a, 0xa0, 0x70, 0xe9, 0xaa, 0x31, 0x3b, 0x52, 0xb5, 0xec]
  {
    hide Made, Mixed, ByteOf, Sbox, SubBytes, Round, Rounds, Plain;
    Round9(w);
    RoundsStep(w, 10);
    Words40(w);
    var s: Block := [0x4a, 0x82, 0x48, 0x51, 0xc5, 0x7e, 0x7e, 0x47, 0x64, 0x3d, 0xe5, 0x0c, 0x2a, 0xf3, 0xe8, 0xc9];
    SubList(s);
    Bytes10();
    RoundOf(w, 10, s, 0xd6, 0x13, 0x52, 0xd1, 0xa6, 0xf3, 0xf3, 0xa0, 0x43, 0x27, 0xd9, 0xfe, 0xe5, 0x0d, 0x9b, 0xdd);
  }

  lemma Bytes11()
    ensures Sbox(0xc1) == 0x78 && Sbox(0x49) == 0x3b && Sbox(0x07) == 0xc5 && Sbox(0xf6) == 0x42
    ensures Sbox(0xca) == 0x74 && Sbox(0x3b) == 0xe2 && Sbox(0x3a) == 0x80 && Sbox(0xa0) == 0xe0
    ensures Sbox(0x70) == 0x51 && Sbox(0xe9) == 0x1e && Sbox(0xaa) == 0xac && Sbox(0x31) == 0xc7
    ensures Sbox(0x3b) == 0xe2 && Sbox(0x52) == 0x00 && Sbox(0xb5) == 0xd5 && Sbox(0xec) == 0xce
    ensures Mixed(0x78, 0xe2, 0xac, 0xce, ByteOf(0xf01a_fafe, 0)) == 0x5f && Mixed(0xe2, 0xac, 0xce, 0x78, ByteOf(0xf01a_fafe, 1)) == 0x9c
    ensures Mixed(0xac, 0xce, 0x78, 0xe2, ByteOf(0xf01a_fafe, 2)) == 0x6a && Mixed(0xce, 0x78, 0xe2, 0xac, ByteOf(0xf01a_fafe, 3)) == 0xbf
    ensures Mixed(0x74, 0x1e, 0xd5, 0x42, ByteOf(0xe7a8_2979, 0)) == 0xba && Mixed(0x1e, 0xd5, 0x42, 0x74, ByteOf(0xe7a8_2979, 1)) == 0xc6
    ensures Mixed(0xd5, 0x42, 0x74, 0x1e, ByteOf(0xe7a8_2979, 2)) == 0x34 && Mixed(0x42, 0x74, 0x1e, 0xd5, ByteOf(0xe7a8_2979, 3)) == 0xaa
    ensures Mixed(0x51, 0x00, 0xc5, 0xe0, ByteOf(0xd7a5_644a, 0)) == 0x50 && Mixed(0x00, 0xc5, 0xe0, 0x51, ByteOf(0xd7a5_644a, 1)) == 0x40
    ensures Mixed(0xc5, 0xe0, 0x51, 0x00, ByteOf(0xd7a5_644a, 2)) == 0x9f && Mixed(0xe0, 0x51, 0x00, 0xc5, ByteOf(0xd7a5_644a, 3)) == 0xa7
    ensures Mixed(0xe2, 0x3b, 0x80, 0xc7, ByteOf(0xb3af_e640, 0)) == 0x66 && Mixed(0x3b, 0x80, 0xc7, 0xe2, ByteOf(0xb3af_e640, 1)) == 0x67
    ensures Mixed(0x80, 0xc7, 0xe2, 0x3b, ByteOf(0xb3af_e640, 2)) == 0x76 && Mixed(0xc7, 0xe2, 0x3b, 0x80, ByteOf(0xb3af_e640, 3)) == 0x53
  {
  }

  lemma Round11(w: Schedule)
    requires Made(w)
    ensures Rounds(w, Plain(), 11) == [0x5f, 0x9c, 0x6a, 0xbf, 0xba, 0xc6, 0x34, 0xaa, 0x50, 0x40, 0x9f, 0xa7, 0x66, 0x67, 0x76, 0x53]
  {
    hide Made, Mixed, ByteOf, Sbox, SubBytes, Round, Rounds, Plain;
    Round10(w);
    RoundsStep(w, 11);
    Words40(w);
    var s: Block := [0xc1, 0x49, 0x07, 0xf6, 0xca, 0x3b, 0x3a, 0xa0, 0x70, 0xe9, 0xaa, 0x31, 0x3b, 0x52, 0xb5, 0xec];
    SubList(s);
    Bytes11();
    RoundOf(w, 11, s, 0x78, 0x3b, 0xc5, 0x42, 0x74, 0xe2, 0x80, 0xe0, 0x51, 0x1e, 0xac, 0xc7, 0xe2, 0x00, 0xd5, 0xce);
  }

  lemma Bytes12()
    ensures Sbox(0x5f) == 0xcf && Sbox(0x9c) == 0xde && Sbox(0x6a) == 0x02 && Sbox(0xbf) == 0x08
    ensures Sbox(0xba) == 0xf4 && Sbox(0xc6) == 0xb4 && Sbox(0x34) == 0x18 && Sbox(0xaa) == 0xac
    ensures Sbox(0x50) == 0x53 && Sbox(0x40) == 0x09 && Sbox(0x9f) == 0xdb && Sbox(0xa7) == 0x5c
    ensures Sbox(0x66) == 0x33 && Sbox(0x67) == 0x85 && Sbox(0x76) == 0x38 && Sbox(0x53) == 0xed
    ensures Mixed(0xcf, 0xb4, 0xdb, 0xed, ByteOf(0x2541_fe71, 0)) == 0x51 && Mixed(0xb4, 0xdb, 0xed, 0xcf, ByteOf(0x2541_fe71, 1)) == 0x66
    ensures Mixed(0xdb, 0xed, 0xcf, 0xb4, ByteOf(0x2541_fe71, 2)) == 0x04 && Mixed(0xed, 0xcf, 0xb4, 0xdb, ByteOf(0x2541_fe71, 3)) == 0x95
    ensures Mixed(0xf4, 0x09, 0x38, 0x08, ByteOf(0x9bf5_0025, 0)) == 0x43 && Mixed(0x09, 0x38, 0x08, 0xf4, ByteOf(0x9bf5_0025, 1)) == 0x53
    ensures Mixed(0x38, 0x08, 0xf4, 0x09, ByteOf(0x9bf5_0025, 2)) == 0x95 && Mixed(0x08, 0xf4, 0x09, 0x38, ByteOf(0x9bf5_0025, 3)) == 0x03
    ensures Mixed(0x53, 0x85, 0x02, 0xac, ByteOf(0x8813_bbd5, 0)) == 0x14 && Mixed(0x85, 0x02, 0xac, 0x53, ByteOf(0x8813_bbd5, 1)) == 0xfb
    ensures Mixed(0x02, 0xac, 0x53, 0x85, ByteOf(0x8813_bbd5, 2)) == 0x86 && Mixed(0xac, 0x53, 0x85, 0x02, ByteOf(0x8813_bbd5, 3)) == 0xe4
    ensures Mixed(0x33, 0xde, 0x18, 0x5c, ByteOf(0x5a72_1c0a, 0)) == 0x01 && Mixed(0xde, 0x18, 0x5c, 0x33, ByteOf(0x5a72_1c0a, 1)) == 0x92
    ensures Mixed(0x18, 0x5c, 0x33, 0xde, ByteOf(0x5a72_1c0a, 2)) == 0x25 && Mixed(0x5c, 0x33, 0xde, 0x18, ByteOf(0x5a72_1c0a, 3)) == 0x21
  {
  }

  lemma Round12(w: Schedule)
    requires Made(w)
    ensures Rounds(w, Plain(), 12) == [0x51, 0x66, 0x04, 0x95, 0x43, 0x53, 0x95, 0x03, 0x14, 0xfb, 0x86, 0xe4, 0x01, 0x92, 0x25, 0x21]
  {
    hide Made, Mixed, ByteOf, Sbox, SubBytes, Round, Rounds, Plain;
    Round11(w);
    RoundsStep(w, 12);
    Words48(w);
    var s: Block := [0x5f, 0x9c, 0x6a, 0xbf, 0xba, 0xc6, 0x34, 0xaa, 0x50, 0x40, 0x9f, 0xa7, 0x66, 0x67, 0x76, 0x53];
    SubList(s);
    Bytes12();
    RoundOf(w, 12, s, 0xcf, 0xde, 0x02, 0x08, 0xf4, 0xb4, 0x18, 0xac, 0x53, 0x09, 0xdb, 0x5c, 0x33, 0x85, 0x38, 0xed);
  }

  lemma Bytes13()
    ensures Sbox(0x51) == 0xd1 && Sbox(0x66) == 0x33 && Sbox(0x04) == 0xf2 && Sbox(0x95) == 0x2a
    ensures Sbox(0x43) == 0x1a && Sbox(0x53) == 0xed && Sbox(0x95) == 0x2a && Sbox(0x03) == 0x7b
    ensures Sbox(0x14) == 0xfa && Sbox(0xfb) == 0x0f && Sbox(0x86) == 0x44 && Sbox(0xe4) == 0x69
    ensures Sbox(0x01) == 0x7c && Sbox(0x92) == 0x4f && Sbox(0x25) == 0x3f && Sbox(0x21) == 0xfd
    ensures Mixed(0xd1, 0xed, 0x44, 0xfd, ByteOf(0x4e5a_6699, 0)) == 0x62 && Mixed(0xed, 0x44, 0xfd, 0xd1, ByteOf(0x4e5a_6699, 1)) == 0x7b
    ensures Mixed(0x44, 0xfd, 0xd1, 0xed, ByteOf(0x4e5a_6699, 2)) == 0xce && Mixed(0xfd, 0xd1, 0xed, 0x44, ByteOf(0x4e5a_6699, 3)) == 0xb9
    ensures Mixed(0x1a, 0x0f, 0x3f, 0x2a, ByteOf(0xa9f2_4fe0, 0)) == 0x99 && Mixed(0x0f, 0x3f, 0x2a, 0x1a, ByteOf(0xa9f2_4fe0, 1)) == 0x9d
    ensures Mixed(0x3f, 0x2a, 0x1a, 0x0f, ByteOf(0xa9f2_4fe0, 2)) == 0x5a && Mixed(0x2a, 0x1a, 0x0f, 0x3f, ByteOf(0xa9f2_4fe0, 3)) == 0xaa
    ensures Mixed(0xfa, 0x4f, 0xf2, 0x7b, ByteOf(0x7e57_2baa, 0)) == 0xc9 && Mixed(0x4f, 0xf2, 0x7b, 0xfa, ByteOf(0x7e57_2baa, 1)) == 0x45
    ensures Mixed(0xf2, 0x7b, 0xfa, 0x4f, ByteOf(0x7e57_2baa, 2)) == 0xec && Mixed(0x7b, 0xfa, 0x4f, 0xf2, ByteOf(0x7e57_2baa, 3)) == 0xf4
    ensures Mixed(0x7c, 0x33, 0x2a, 0x69, ByteOf(0xcdf8_cdea, 0)) == 0x23 && Mixed(0x33, 0x2a, 0x69, 0x7c, ByteOf(0xcdf8_cdea, 1)) == 0xf5
    ensures Mixed(0x2a, 0x69, 0x7c, 0x33, ByteOf(0xcdf8_cdea, 2)) == 0x6d && Mixed(0x69, 0x7c, 0x33, 0x2a, ByteOf(0xcdf8_cdea, 3)) == 0xa5
  {
  }

  lemma Round13(w: Schedule)
    requires Made(w)
    ensures Rounds(w, Plain(), 13) == [0x62, 0x7b, 0xce, 0xb9, 0x99, 0x9d, 0x5a, 0xaa, 0xc9, 0x45, 0xec, 0xf4, 0x23, 0xf5, 0x6d, 0xa5]
  {
    hide Made, Mixed, ByteOf, Sbox, SubBytes, Round, Rounds, Plain;
    Round12(w);
    RoundsStep(w, 13);
    Words48(w);
    var s: Block := [0x51, 0x66, 0x04, 0x95, 0x43, 0x53, 0x95, 0x03, 0x14, 0xfb, 0x86, 0xe4, 0x01, 0x92, 0x25, 0x21];
    SubList(s);
    Bytes13();
    RoundOf(w, 13, s, 0xd1, 0x33, 0xf2, 0x2a, 0x1a, 0xed, 0x2a, 0x7b, 0xfa, 0x0f, 0x44, 0x69, 0x7c, 0x4f, 0x3f, 0xfd);
  }

  lemma Bytes14()
    ensures Sbox(0x62) == 0xaa && Sbox(0x7b) == 0x21 && Sbox(0xce) == 0x8b && Sbox(0xb9) == 0x56
    ensures Sbox(0x99) == 0xee && Sbox(0x9d) == 0x5e && Sbox(0x5a) == 0xbe && Sbox(0xaa) == 0xac
    ensures Sbox(0xc9) == 0xdd && Sbox(0x45) == 0x6e && Sbox(0xec) == 0xce && Sbox(0xf4) == 0xbf
    ensures Sbox(0x23) == 0x26 && Sbox(0xf5) == 0xe6 && Sbox(0x6d) == 0x3c && Sbox(0xa5) == 0x06
    ensures Xor(0xaa, ByteOf(0x24fc_79cc, 0)) == 0x8e && Xor(0x5e, ByteOf(0x24fc_79cc, 1)) == 0xa2 && Xor(0xce, ByteOf(0x24fc_79cc, 2)) == 0xb7 && Xor(0x06, ByteOf(0x24fc_79cc, 3)) == 0xca
    ensures Xor(0xee, ByteOf(0xbf09_79e9, 0)) == 0x51 && Xor(0x6e, ByteOf(0xbf09_79e9, 1)) == 0x67 && Xor(0x3c, ByteOf(0xbf09_79e9, 2)) == 0x45 && Xor(0x56, ByteOf(0xbf09_79e9, 3)) == 0xbf
    ensures Xor(0xdd, ByteOf(0x371a_c23c, 0)) == 0xea && Xor(0xe6, ByteOf(0x371a_c23c, 1)) == 0xfc && Xor(0x8b, ByteOf(0x371a_c23c, 2)) == 0x49 && Xor(0xac, ByteOf(0x371a_c23c, 3)) == 0x90
    ensures Xor(0x26, ByteOf(0x6d68_de36, 0)) == 0x4b && Xor(0x21, ByteOf(0x6d68_de36, 1)) == 0x49 && Xor(0xbe, ByteOf(0x6d68_de36, 2)) == 0x60 && Xor(0xbf, ByteOf(0x6d68_de36, 3)) == 0x89
  {
  }

  /** The key and plaintext of the standard give its ciphertext, which decrypts to the plaintext. */
  lemma Example()
    ensures Encrypt(Expand(Key()), Plain()) == Cipher() && Decrypt(Expand(Key()), Cipher()) == Plain()
  {
    hide Made, Xor, ByteOf, Sbox, SubBytes, ShiftRows, AddRoundKey, Expand, Rounds, Decrypt, Plain;
    var w := Expand(Key());
    IsMade();
    Round13(w);
    Words56(w);
    var s: Block := [0x62, 0x7b, 0xce, 0xb9, 0x99, 0x9d, 0x5a, 0xaa, 0xc9, 0x45, 0xec, 0xf4, 0x23, 0xf5, 0x6d, 0xa5];
    SubList(s);
    Bytes14();
    ShiftRowsList(SubBytes(s));
    KeyList(ShiftRows(SubBytes(s)), w, 14, 0xaa, 0x5e, 0xce, 0x06, 0xee, 0x6e, 0x3c, 0x56, 0xdd, 0xe6, 0x8b, 0xac, 0x26, 0x21, 0xbe, 0xbf);
    DecryptUndoesEncrypt(w, Plain());
  }

  lemma IsMade()
    ensures Made(Expand(Key()))
  {
  }
}
