/** The digest of "abc", the example of one block for SHA-512, word by word and round by round. */
module Sha512Example {
  import opened BigEndian
  import opened Sha512Spec

  function Abc(): seq<bv8> { [0x61, 0x62, 0x63] }

  // ---- The block -------------------------------------------------------------------------

  /** A block that holds "abc" and its padding. */
  predicate IsAbc(b: Block) {
    b[0] == 0x61 && b[1] == 0x62 && b[2] == 0x63 && b[3] == 0x80 && b[127] == 24 && forall i | 4 <= i < 127 :: b[i] == 0
  }

  lemma LengthByte(j: nat)
    requires j < 8
    ensures Digits(24, 8)[j] == if j == 7 then 24 else 0
  {
    hide LowByte;
    if j < 7 {
      assert Drop(24, 1) == 0;
      DropMore(24, 1, 7 - j);
      LowByteIsZero(0);
    } else {
      assert Drop(24, 0) == 24;
      TwentyFour();
    }
  }

  lemma TwentyFour()
    ensures LowByte(24) == 24
  {
  }

  lemma PaddedIsAbc()
    ensures |Padded(Abc())| == 128 && IsAbc(Padded(Abc()))
  {
    hide Digits;
    var p := Padded(Abc());
    assert Gap(3) == 108;
    forall j: nat | j < 8 ensures Digits(24, 8)[j] == if j == 7 then 24 else 0 {
      LengthByte(j);
    }
  }

  // ---- The message schedule --------------------------------------------------------------

  /** Word `i` of the schedule of `b`. */
  function Word(b: Block, i: nat): bv64 { Scheduled(b, i) }

  function Next(a: bv64, b: bv64, c: bv64, d: bv64): bv64 { Add(Add(Add(SmallSigma1(a), b), SmallSigma0(c)), d) }

  lemma FirstWord(b: Block, i: nat)
    requires i < 16
    ensures Word(b, i) == Join(b[8 * i], b[8 * i + 1], b[8 * i + 2], b[8 * i + 3], b[8 * i + 4], b[8 * i + 5], b[8 * i + 6], b[8 * i + 7])
  {
    hide Join;
  }

  lemma NextWord(b: Block, i: nat)
    requires i >= 16
    ensures Word(b, i) == Next(Word(b, i - 2), Word(b, i - 7), Word(b, i - 15), Word(b, i - 16))
  {
    hide Add, SmallSigma0, SmallSigma1, Join;
  }

  lemma Joined()
    ensures Join(0x61, 0x62, 0x63, 0x80, 0, 0, 0, 0) == 0x6162_6380_0000_0000
    ensures Join(0, 0, 0, 0, 0, 0, 0, 0) == 0 && Join(0, 0, 0, 0, 0, 0, 0, 24) == 0x0000_0000_0000_0018
  {
  }

  lemma Words0(b: Block)
    requires IsAbc(b)
    ensures Word(b, 0) == 0x6162_6380_0000_0000 && Word(b, 15) == 0x0000_0000_0000_0018
    ensures forall i | 1 <= i < 15 :: Word(b, i) == 0
  {
    hide Word, Join;
    Joined();
    FirstWord(b, 0);
    FirstWord(b, 15);
    forall i | 1 <= i < 15 ensures Word(b, i) == 0 {
      FirstWord(b, i);
    }
  }

  lemma Sums16()
    ensures Next(0x0000_0000_0000_0000, 0x0000_0000_0000_0000, 0x0000_0000_0000_0000, 0x6162_6380_0000_0000) == 0x6162_6380_0000_0000
    ensures Next(0x0000_0000_0000_0018, 0x0000_0000_0000_0000, 0x0000_0000_0000_0000, 0x0000_0000_0000_0000) == 0x0003_0000_0000_00c0
    ensures Next(0x6162_6380_0000_0000, 0x0000_0000_0000_0000, 0x0000_0000_0000_0000, 0x0000_0000_0000_0000) == 0x0a96_99a2_4c70_0003
    ensures Next(0x0003_0000_0000_00c0, 0x0000_0000_0000_0000, 0x0000_0000_0000_0000, 0x0000_0000_0000_0000) == 0x0000_0c00_6000_0603
    ensures Next(0x0a96_99a2_4c70_0003, 0x0000_0000_0000_0000, 0x0000_0000_0000_0000, 0x0000_0000_0000_0000) == 0x549e_f626_3985_8996
    ensures Next(0x0000_0c00_6000_0603, 0x0000_0000_0000_0000, 0x0000_0000_0000_0000, 0x0000_0000_0000_0000) == 0x00c0_0033_0000_3c00
    ensures Next(0x549e_f626_3985_8996, 0x0000_0000_0000_0018, 0x0000_0000_0000_0000, 0x0000_0000_0000_0000) == 0x1497_007a_8a0e_9dbc
    ensures Next(0x00c0_0033_0000_3c00, 0x6162_6380_0000_0000, 0x0000_0000_0000_0000, 0x0000_0000_0000_0000) == 0x62e5_6500_cc07_80f0
  {
  }

  lemma Words16(b: Block)
    requires IsAbc(b)
    ensures Word(b, 16) == 0x6162_6380_0000_0000 && Word(b, 17) == 0x0003_0000_0000_00c0
    ensures Word(b, 18) == 0x0a96_99a2_4c70_0003 && Word(b, 19) == 0x0000_0c00_6000_0603
    ensures Word(b, 20) == 0x549e_f626_3985_8996 && Word(b, 21) == 0x00c0_0033_0000_3c00
    ensures Word(b, 22) == 0x1497_007a_8a0e_9dbc && Word(b, 23) == 0x62e5_6500_cc07_80f0
  {
    hide Word, Next, IsAbc;
    Words0(b);
    Sums16();
    NextWord(b, 16);
    NextWord(b, 17);
    NextWord(b, 18);
    NextWord(b, 19);
    NextWord(b, 20);
    NextWord(b, 21);
    NextWord(b, 22);
    NextWord(b, 23);
  }

  lemma Sums24()
    ensures Next(0x1497_007a_8a0e_9dbc, 0x0003_0000_0000_00c0, 0x0000_0000_0000_0000, 0x0000_0000_0000_0000) == 0x7760_dd47_5a53_8797
    ensures Next(0x62e5_6500_cc07_80f0, 0x0a96_99a2_4c70_0003, 0x0000_0000_0000_0000, 0x0000_0000_0000_0000) == 0xf155_4b71_1c1c_0003
    ensures Next(0x7760_dd47_5a53_8797, 0x0000_0c00_6000_0603, 0x0000_0000_0000_0000, 0x0000_0000_0000_0000) == 0xca29_93a4_345d_9ff2
    ensures Next(0xf155_4b71_1c1c_0003, 0x549e_f626_3985_8996, 0x0000_0000_0000_0000, 0x0000_0000_0000_0000) == 0x5e0e_66b5_c783_dd32
    ensures Next(0xca29_93a4_345d_9ff2, 0x00c0_0033_0000_3c00, 0x0000_0000_0000_0000, 0x0000_0000_0000_0000) == 0xe25a_625d_0049_4b62
    ensures Next(0x5e0e_66b5_c783_dd32, 0x1497_007a_8a0e_9dbc, 0x0000_0000_0000_0000, 0x0000_0000_0000_0000) == 0x9f44_486f_b1e4_fbd2
    ensures Next(0xe25a_625d_0049_4b62, 0x62e5_6500_cc07_80f0, 0x0000_0000_0000_0018, 0x0000_0000_0000_0000) == 0xb31b_8c2b_0608_5f2f
    ensures Next(0x9f44_486f_b1e4_fbd2, 0x7760_dd47_5a53_8797, 0x6162_6380_0000_0000, 0x0000_0000_0000_0018) == 0x0e98_7660_9341_42f6
  {
  }

  lemma Words24(b: Block)
    requires IsAbc(b)
    ensures Word(b, 24) == 0x7760_dd47_5a53_8797 && Word(b, 25) == 0xf155_4b71_1c1c_0003
    ensures Word(b, 26) == 0xca29_93a4_345d_9ff2 && Word(b, 27) == 0x5e0e_66b5_c783_dd32
    ensures Word(b, 28) == 0xe25a_625d_0049_4b62 && Word(b, 29) == 0x9f44_486f_b1e4_fbd2
    ensures Word(b, 30) == 0xb31b_8c2b_0608_5f2f && Word(b, 31) == 0x0e98_7660_9341_42f6
  {
    hide Word, Next, IsAbc;
    Words0(b);
    Words16(b);
    Sums24();
    NextWord(b, 24);
    NextWord(b, 25);
    NextWord(b, 26);
    NextWord(b, 27);
    NextWord(b, 28);
    NextWord(b, 29);
    NextWord(b, 30);
    NextWord(b, 31);
  }

  lemma Sums32()
    ensures Next(0xb31b_8c2b_0608_5f2f, 0xf155_4b71_1c1c_0003, 0x0003_0000_0000_00c0, 0x6162_6380_0000_0000) == 0xa4af_2cfd_09fb_b924
    ensures Next(0x0e98_7660_9341_42f6, 0xca29_93a4_345d_9ff2, 0x0a96_99a2_4c70_0003, 0x0003_0000_0000_00c0) == 0xad28_9e2e_0bd5_3186
    ensures Next(0xa4af_2cfd_09fb_b924, 0x5e0e_66b5_c783_dd32, 0x0000_0c00_6000_0603, 0x0a96_99a2_4c70_0003) == 0x3c74_563a_a2f9_673e
    ensures Next(0xad28_9e2e_0bd5_3186, 0xe25a_625d_0049_4b62, 0x549e_f626_3985_8996, 0x0000_0c00_6000_0603) == 0x6ccd_cd14_cc14_b53f
    ensures Next(0x3c74_563a_a2f9_673e, 0x9f44_486f_b1e4_fbd2, 0x00c0_0033_0000_3c00, 0x549e_f626_3985_8996) == 0xc3f9_25b3_37f2_2bde
    ensures Next(0x6ccd_cd14_cc14_b53f, 0xb31b_8c2b_0608_5f2f, 0x1497_007a_8a0e_9dbc, 0x00c0_0033_0000_3c00) == 0x5bcc_77a7_5ad9_5b54
    ensures Next(0xc3f9_25b3_37f2_2bde, 0x0e98_7660_9341_42f6, 0x62e5_6500_cc07_80f0, 0x1497_007a_8a0e_9dbc) == 0x3ec2_257a_dca0_9a52
    ensures Next(0x5bcc_77a7_5ad9_5b54, 0xa4af_2cfd_09fb_b924, 0x7760_dd47_5a53_8797, 0x62e5_6500_cc07_80f0) == 0x2824_6960_001f_c5eb
  {
  }

  lemma Words32(b: Block)
    requires IsAbc(b)
    ensures Word(b, 32) == 0xa4af_2cfd_09fb_b924 && Word(b, 33) == 0xad28_9e2e_0bd5_3186
    ensures Word(b, 34) == 0x3c74_563a_a2f9_673e && Word(b, 35) == 0x6ccd_cd14_cc14_b53f
    ensures Word(b, 36) == 0xc3f9_25b3_37f2_2bde && Word(b, 37) == 0x5bcc_77a7_5ad9_5b54
    ensures Word(b, 38) == 0x3ec2_257a_dca0_9a52 && Word(b, 39) == 0x2824_6960_001f_c5eb
  {
    hide Word, Next, IsAbc;
    Words16(b);
    Words24(b);
    Sums32();
    NextWord(b, 32);
    NextWord(b, 33);
    NextWord(b, 34);
    NextWord(b, 35);
    NextWord(b, 36);
    NextWord(b, 37);
    NextWord(b, 38);
    NextWord(b, 39);
  }

  lemma Sums40()
    ensures Next(0x3ec2_257a_dca0_9a52, 0xad28_9e2e_0bd5_3186, 0xf155_4b71_1c1c_0003, 0x7760_dd47_5a53_8797) == 0x04e3_3a75_ce2b_e88a
    ensures Next(0x2824_6960_001f_c5eb, 0x3c74_563a_a2f9_673e, 0xca29_93a4_345d_9ff2, 0xf155_4b71_1c1c_0003) == 0x7d53_14b3_c359_e0e7
    ensures Next(0x04e3_3a75_ce2b_e88a, 0x6ccd_cd14_cc14_b53f, 0x5e0e_66b5_c783_dd32, 0xca29_93a4_345d_9ff2) == 0xaef7_a285_ff25_1266
    ensures Next(0x7d53_14b3_c359_e0e7, 0xc3f9_25b3_37f2_2bde, 0xe25a_625d_0049_4b62, 0x5e0e_66b5_c783_dd32) == 0x0b84_7258_1dee_a04f
    ensures Next(0xaef7_a285_ff25_1266, 0x5bcc_77a7_5ad9_5b54, 0x9f44_486f_b1e4_fbd2, 0xe25a_625d_0049_4b62) == 0xb174_e26e_ddc7_b033
    ensures Next(0x0b84_7258_1dee_a04f, 0x3ec2_257a_dca0_9a52, 0xb31b_8c2b_0608_5f2f, 0x9f44_486f_b1e4_fbd2) == 0x5d63_bae5_8ddd_88de
    ensures Next(0xb174_e26e_ddc7_b033, 0x2824_6960_001f_c5eb, 0x0e98_7660_9341_42f6, 0xb31b_8c2b_0608_5f2f) == 0x4c04_4007_b744_ccbb
    ensures Next(0x5d63_bae5_8ddd_88de, 0x04e3_3a75_ce2b_e88a, 0xa4af_2cfd_09fb_b924, 0x0e98_7660_9341_42f6) == 0xe6a9_aa4d_74dc_7d43
  {
  }

  lemma Words40(b: Block)
    requires IsAbc(b)
    ensures Word(b, 40) == 0x04e3_3a75_ce2b_e88a && Word(b, 41) == 0x7d53_14b3_c359_e0e7
    ensures Word(b, 42) == 0xaef7_a285_ff25_1266 && Word(b, 43) == 0x0b84_7258_1dee_a04f
    ensures Word(b, 44) == 0xb174_e26e_ddc7_b033 && Word(b, 45) == 0x5d63_bae5_8ddd_88de
    ensures Word(b, 46) == 0x4c04_4007_b744_ccbb && Word(b, 47) == 0xe6a9_aa4d_74dc_7d43
  {
    hide Word, Next, IsAbc;
    Words24(b);
    Words32(b);
    Sums40();
    NextWord(b, 40);
    NextWord(b, 41);
    NextWord(b, 42);
    NextWord(b, 43);
    NextWord(b, 44);
    NextWord(b, 45);
    NextWord(b, 46);
    NextWord(b, 47);
  }

  lemma Sums48()
    ensures Next(0x4c04_4007_b744_ccbb, 0x7d53_14b3_c359_e0e7, 0xad28_9e2e_0bd5_3186, 0xa4af_2cfd_09fb_b924) == 0xebea_f123_7248_019c
    ensures Next(0xe6a9_aa4d_74dc_7d43, 0xaef7_a285_ff25_1266, 0x3c74_563a_a2f9_673e, 0xad28_9e2e_0bd5_3186) == 0x361e_80b2_d00f_3193
    ensures Next(0xebea_f123_7248_019c, 0x0b84_7258_1dee_a04f, 0x6ccd_cd14_cc14_b53f, 0x3c74_563a_a2f9_673e) == 0x2e98_3912_5df3_b175
    ensures Next(0x361e_80b2_d00f_3193, 0xb174_e26e_ddc7_b033, 0xc3f9_25b3_37f2_2bde, 0x6ccd_cd14_cc14_b53f) == 0x3319_6292_93ad_5363
    ensures Next(0x2e98_3912_5df3_b175, 0x5d63_bae5_8ddd_88de, 0x5bcc_77a7_5ad9_5b54, 0xc3f9_25b3_37f2_2bde) == 0x9cbc_5d89_ac1b_89d5
    ensures Next(0x3319_6292_93ad_5363, 0x4c04_4007_b744_ccbb, 0x3ec2_257a_dca0_9a52, 0x5bcc_77a7_5ad9_5b54) == 0x275e_23ff_eeca_50b7
    ensures Next(0x9cbc_5d89_ac1b_89d5, 0xe6a9_aa4d_74dc_7d43, 0x2824_6960_001f_c5eb, 0x3ec2_257a_dca0_9a52) == 0x3b80_d680_bf69_ef58
    ensures Next(0x275e_23ff_eeca_50b7, 0xebea_f123_7248_019c, 0x04e3_3a75_ce2b_e88a, 0x2824_6960_001f_c5eb) == 0x0d06_9693_3945_a125
  {
  }

  lemma Words48(b: Block)
    requires IsAbc(b)
    ensures Word(b, 48) == 0xebea_f123_7248_019c && Word(b, 49) == 0x361e_80b2_d00f_3193
    ensures Word(b, 50) == 0x2e98_3912_5df3_b175 && Word(b, 51) == 0x3319_6292_93ad_5363
    ensures Word(b, 52) == 0x9cbc_5d89_ac1b_89d5 && Word(b, 53) == 0x275e_23ff_eeca_50b7
    ensures Word(b, 54) == 0x3b80_d680_bf69_ef58 && Word(b, 55) == 0x0d06_9693_3945_a125
  {
    hide Word, Next, IsAbc;
    Words32(b);
    Words40(b);
    Sums48();
    NextWord(b, 48);
    NextWord(b, 49);
    NextWord(b, 50);
    NextWord(b, 51);
    NextWord(b, 52);
    NextWord(b, 53);
    NextWord(b, 54);
    NextWord(b, 55);
  }

  lemma Sums56()
    ensures Next(0x3b80_d680_bf69_ef58, 0x361e_80b2_d00f_3193, 0x7d53_14b3_c359_e0e7, 0x04e3_3a75_ce2b_e88a) == 0x7533_eabc_b786_ff00
    ensures Next(0x0d06_9693_3945_a125, 0x2e98_3912_5df3_b175, 0xaef7_a285_ff25_1266, 0x7d53_14b3_c359_e0e7) == 0xb898_26ce_e6fb_f0e5
    ensures Next(0x7533_eabc_b786_ff00, 0x3319_6292_93ad_5363, 0x0b84_7258_1dee_a04f, 0xaef7_a285_ff25_1266) == 0x249b_4fbc_ad62_3e9f
    ensures Next(0xb898_26ce_e6fb_f0e5, 0x9cbc_5d89_ac1b_89d5, 0xb174_e26e_ddc7_b033, 0x0b84_7258_1dee_a04f) == 0x4aea_9df2_b02d_6f1e
    ensures Next(0x249b_4fbc_ad62_3e9f, 0x275e_23ff_eeca_50b7, 0x5d63_bae5_8ddd_88de, 0xb174_e26e_ddc7_b033) == 0x2cc5_7475_a55e_8d8f
    ensures Next(0x4aea_9df2_b02d_6f1e, 0x3b80_d680_bf69_ef58, 0x4c04_4007_b744_ccbb, 0x5d63_bae5_8ddd_88de) == 0xb257_4ae9_38d8_be89
    ensures Next(0x2cc5_7475_a55e_8d8f, 0x0d06_9693_3945_a125, 0xe6a9_aa4d_74dc_7d43, 0x4c04_4007_b744_ccbb) == 0xc1b3_5a57_b16d_6aea
    ensures Next(0xb257_4ae9_38d8_be89, 0x7533_eabc_b786_ff00, 0xebea_f123_7248_019c, 0xe6a9_aa4d_74dc_7d43) == 0xcc49_18b5_9492_06bb
  {
  }

  lemma Words56(b: Block)
    requires IsAbc(b)
    ensures Word(b, 56) == 0x7533_eabc_b786_ff00 && Word(b, 57) == 0xb898_26ce_e6fb_f0e5
    ensures Word(b, 58) == 0x249b_4fbc_ad62_3e9f && Word(b, 59) == 0x4aea_9df2_b02d_6f1e
    ensures Word(b, 60) == 0x2cc5_7475_a55e_8d8f && Word(b, 61) == 0xb257_4ae9_38d8_be89
    ensures Word(b, 62) == 0xc1b3_5a57_b16d_6aea && Word(b, 63) == 0xcc49_18b5_9492_06bb
  {
    hide Word, Next, IsAbc;
    Words40(b);
    Words48(b);
    Sums56();
    NextWord(b, 56);
    NextWord(b, 57);
    NextWord(b, 58);
    NextWord(b, 59);
    NextWord(b, 60);
    NextWord(b, 61);
    NextWord(b, 62);
    NextWord(b, 63);
  }

  lemma Sums64()
    ensures Next(0xc1b3_5a57_b16d_6aea, 0xb898_26ce_e6fb_f0e5, 0x361e_80b2_d00f_3193, 0xebea_f123_7248_019c) == 0x5099_c3ad_d79f_90ec
    ensures Next(0xcc49_18b5_9492_06bb, 0x249b_4fbc_ad62_3e9f, 0x2e98_3912_5df3_b175, 0x361e_80b2_d00f_3193) == 0x5ea8_1d78_e766_0bf1
    ensures Next(0x5099_c3ad_d79f_90ec, 0x4aea_9df2_b02d_6f1e, 0x3319_6292_93ad_5363, 0x2e98_3912_5df3_b175) == 0xebee_6267_405a_c2a9
    ensures Next(0x5ea8_1d78_e766_0bf1, 0x2cc5_7475_a55e_8d8f, 0x9cbc_5d89_ac1b_89d5, 0x3319_6292_93ad_5363) == 0xb01f_2192_6108_a4ab
    ensures Next(0xebee_6267_405a_c2a9, 0xb257_4ae9_38d8_be89, 0x275e_23ff_eeca_50b7, 0x9cbc_5d89_ac1b_89d5) == 0x7864_33dd_2fe6_5556
    ensures Next(0xb01f_2192_6108_a4ab, 0xc1b3_5a57_b16d_6aea, 0x3b80_d680_bf69_ef58, 0x275e_23ff_eeca_50b7) == 0xc54a_6eaa_24a0_552c
    ensures Next(0x7864_33dd_2fe6_5556, 0xcc49_18b5_9492_06bb, 0x0d06_9693_3945_a125, 0x3b80_d680_bf69_ef58) == 0xb3c8_f153_0bdb_aa9e
    ensures Next(0xc54a_6eaa_24a0_552c, 0x5099_c3ad_d79f_90ec, 0x7533_eabc_b786_ff00, 0x0d06_9693_3945_a125) == 0xbb8a_bfe5_6f46_9338
  {
  }

  lemma Words64(b: Block)
    requires IsAbc(b)
    ensures Word(b, 64) == 0x5099_c3ad_d79f_90ec && Word(b, 65) == 0x5ea8_1d78_e766_0bf1
    ensures Word(b, 66) == 0xebee_6267_405a_c2a9 && Word(b, 67) == 0xb01f_2192_6108_a4ab
    ensures Word(b, 68) == 0x7864_33dd_2fe6_5556 && Word(b, 69) == 0xc54a_6eaa_24a0_552c
    ensures Word(b, 70) == 0xb3c8_f153_0bdb_aa9e && Word(b, 71) == 0xbb8a_bfe5_6f46_9338
  {
    hide Word, Next, IsAbc;
    Words48(b);
    Words56(b);
    Sums64();
    NextWord(b, 64);
    NextWord(b, 65);
    NextWord(b, 66);
    NextWord(b, 67);
    NextWord(b, 68);
    NextWord(b, 69);
    NextWord(b, 70);
    NextWord(b, 71);
  }

  lemma Sums72()
    ensures Next(0xb3c8_f153_0bdb_aa9e, 0x5ea8_1d78_e766_0bf1, 0xb898_26ce_e6fb_f0e5, 0x7533_eabc_b786_ff00) == 0xf63d_4265_cc1c_5a78
    ensures Next(0xbb8a_bfe5_6f46_9338, 0xebee_6267_405a_c2a9, 0x249b_4fbc_ad62_3e9f, 0xb898_26ce_e6fb_f0e5) == 0xbe83_55ea_7312_9afb
    ensures Next(0xf63d_4265_cc1c_5a78, 0xb01f_2192_6108_a4ab, 0x4aea_9df2_b02d_6f1e, 0x249b_4fbc_ad62_3e9f) == 0x49e2_db8e_bdcf_beb5
    ensures Next(0xbe83_55ea_7312_9afb, 0x7864_33dd_2fe6_5556, 0x2cc5_7475_a55e_8d8f, 0x4aea_9df2_b02d_6f1e) == 0x8226_9d4a_883a_3d99
    ensures Next(0x49e2_db8e_bdcf_beb5, 0xc54a_6eaa_24a0_552c, 0xb257_4ae9_38d8_be89, 0x2cc5_7475_a55e_8d8f) == 0xfdf5_3df3_011f_362b
    ensures Next(0x8226_9d4a_883a_3d99, 0xb3c8_f153_0bdb_aa9e, 0xc1b3_5a57_b16d_6aea, 0xb257_4ae9_38d8_be89) == 0x464a_f567_1d71_c12e
    ensures Next(0xfdf5_3df3_011f_362b, 0xbb8a_bfe5_6f46_9338, 0xcc49_18b5_9492_06bb, 0xc1b3_5a57_b16d_6aea) == 0xe449_b681_98ec_611c
    ensures Next(0x464a_f567_1d71_c12e, 0xf63d_4265_cc1c_5a78, 0x5099_c3ad_d79f_90ec, 0xcc49_18b5_9492_06bb) == 0x92ae_eed1_a7bc_f7d2
  {
  }

  lemma Words72(b: Block)
    requires IsAbc(b)
    ensures Word(b, 72) == 0xf63d_4265_cc1c_5a78 && Word(b, 73) == 0xbe83_55ea_7312_9afb
    ensures Word(b, 74) == 0x49e2_db8e_bdcf_beb5 && Word(b, 75) == 0x8226_9d4a_883a_3d99
    ensures Word(b, 76) == 0xfdf5_3df3_011f_362b && Word(b, 77) == 0x464a_f567_1d71_c12e
    ensures Word(b, 78) == 0xe449_b681_98ec_611c && Word(b, 79) == 0x92ae_eed1_a7bc_f7d2
  {
    hide Word, Next, IsAbc;
    Words56(b);
    Words64(b);
    Sums72();
    NextWord(b, 72);
    NextWord(b, 73);
    NextWord(b, 74);
    NextWord(b, 75);
    NextWord(b, 76);
    NextWord(b, 77);
    NextWord(b, 78);
    NextWord(b, 79);
  }

  // ---- The rounds ------------------------------------------------------------------------

  function First(h: bv64, e: bv64, f: bv64, g: bv64, k: bv64, m: bv64): bv64 { Add(Add(Add(Add(h, BigSigma1(e)), Ch(e, f, g)), k), m) }

  function Second(a: bv64, b: bv64, c: bv64): bv64 { Add(BigSigma0(a), Maj(a, b, c)) }

  /** The working variables of the block after `n` rounds. */
  function After(b: Block, n: nat): Work
    requires n <= 80
  {
    Rounds(K(), Initial(), b, n)
  }

  lemma Begin(b: Block)
    ensures After(b, 0) == Work(0x6a09_e667_f3bc_c908, 0xbb67_ae85_84ca_a73b, 0x3c6e_f372_fe94_f82b, 0xa54f_f53a_5f1d_36f1,
                                0x510e_527f_ade6_82d1, 0x9b05_688c_2b3e_6c1f, 0x1f83_d9ab_fb41_bd6b, 0x5be0_cd19_137e_2179)
  {
    hide K;
  }

  lemma ConstantRow(g: nat)
    requires g < 10
    ensures K()[8 * g] == KRow(g)[0] && K()[8 * g + 1] == KRow(g)[1] && K()[8 * g + 2] == KRow(g)[2] && K()[8 * g + 3] == KRow(g)[3]
    ensures K()[8 * g + 4] == KRow(g)[4] && K()[8 * g + 5] == KRow(g)[5] && K()[8 * g + 6] == KRow(g)[6] && K()[8 * g + 7] == KRow(g)[7]
  {
    hide KRow;
  }

  /** One round, by its two sums. */
  lemma Turn(b: Block, n: nat)
    requires n < 80
    ensures var w := After(b, n); var t1 := First(w.h, w.e, w.f, w.g, K()[n], Word(b, n));
            After(b, n + 1) == Work(Add(t1, Second(w.a, w.b, w.c)), w.a, w.b, w.c, Add(w.d, t1), w.e, w.f, w.g)
  {
    hide K, Add, BigSigma0, BigSigma1, Ch, Maj, Scheduled, Initial;
  }

  lemma Turns0()
    ensures First(0x5be0_cd19_137e_2179, 0x510e_527f_ade6_82d1, 0x9b05_688c_2b3e_6c1f, 0x1f83_d9ab_fb41_bd6b, 0x428a_2f98_d728_ae22, 0x6162_6380_0000_0000) == 0xb37b_0cfa_1b97_e8a0
    ensures Second(0x6a09_e667_f3bc_c908, 0xbb67_ae85_84ca_a73b, 0x3c6e_f372_fe94_f82b) == 0x4334_c1be_a164_f555 && Add(0xb37b_0cfa_1b97_e8a0, 0x4334_c1be_a164_f555) == 0xf6af_ceb8_bcfc_ddf5 && Add(0xa54f_f53a_5f1d_36f1, 0xb37b_0cfa_1b97_e8a0) == 0x58cb_0234_7ab5_1f91
    ensures First(0x1f83_d9ab_fb41_bd6b, 0x58cb_0234_7ab5_1f91, 0x510e_527f_ade6_82d1, 0x9b05_688c_2b3e_6c1f, 0x7137_4491_23ef_65cd, 0x0000_0000_0000_0000) == 0x8765_f88a_49d0_17cf
    ensures Second(0xf6af_ceb8_bcfc_ddf5, 0x6a09_e667_f3bc_c908, 0xbb67_ae85_84ca_a73b) == 0x8bbb_003f_b1b7_14f1 && Add(0x8765_f88a_49d0_17cf, 0x8bbb_003f_b1b7_14f1) == 0x1320_f8c9_fb87_2cc0 && Add(0x3c6e_f372_fe94_f82b, 0x8765_f88a_49d0_17cf) == 0xc3d4_ebfd_4865_0ffa
    ensures First(0x9b05_688c_2b3e_6c1f, 0xc3d4_ebfd_4865_0ffa, 0x58cb_0234_7ab5_1f91, 0x510e_527f_ade6_82d1, 0xb5c0_fbcf_ec4d_3b2f, 0x0000_0000_0000_0000) == 0x2442_03b4_6d9e_d0d7
    ensures Second(0x1320_f8c9_fb87_2cc0, 0xf6af_ceb8_bcfc_ddf5, 0x6a09_e667_f3bc_c908) == 0xc78d_f852_b29e_c11c && Add(0x2442_03b4_6d9e_d0d7, 0xc78d_f852_b29e_c11c) == 0xebcf_fc07_203d_91f3 && Add(0xbb67_ae85_84ca_a73b, 0x2442_03b4_6d9e_d0d7) == 0xdfa9_b239_f269_7812
    ensures First(0x510e_527f_ade6_82d1, 0xdfa9_b239_f269_7812, 0xc3d4_ebfd_4865_0ffa, 0x58cb_0234_7ab5_1f91, 0xe9b5_dba5_8189_dbbc, 0x0000_0000_0000_0000) == 0xa13d_ce53_256b_d006
    ensures Second(0xebcf_fc07_203d_91f3, 0x1320_f8c9_fb87_2cc0, 0xf6af_ceb8_bcfc_ddf5) == 0xb945_fceb_5a99_3e7c && Add(0xa13d_ce53_256b_d006, 0xb945_fceb_5a99_3e7c) == 0x5a83_cb3e_8005_0e82 && Add(0x6a09_e667_f3bc_c908, 0xa13d_ce53_256b_d006) == 0x0b47_b4bb_1928_990e
    ensures First(0x58cb_0234_7ab5_1f91, 0x0b47_b4bb_1928_990e, 0xdfa9_b239_f269_7812, 0xc3d4_ebfd_4865_0ffa, 0x3956_c25b_f348_b538, 0x0000_0000_0000_0000) == 0x7daa_fb91_7731_f4ed
    ensures Second(0x5a83_cb3e_8005_0e82, 0xebcf_fc07_203d_91f3, 0x1320_f8c9_fb87_2cc0) == 0x38d5_99a7_da2e_5373 && Add(0x7daa_fb91_7731_f4ed, 0x38d5_99a7_da2e_5373) == 0xb680_9539_5160_4860 && Add(0xf6af_ceb8_bcfc_ddf5, 0x7daa_fb91_7731_f4ed) == 0x745a_ca4a_342e_d2e2
    ensures First(0xc3d4_ebfd_4865_0ffa, 0x745a_ca4a_342e_d2e2, 0x0b47_b4bb_1928_990e, 0xdfa9_b239_f269_7812, 0x59f1_11f1_b605_d019, 0x0000_0000_0000_0000) == 0x83d5_093f_bb55_08fa
    ensures Second(0xb680_9539_5160_4860, 0x5a83_cb3e_8005_0e82, 0xebcf_fc07_203d_91f3) == 0x2b82_31c2_84e9_80d3 && Add(0x83d5_093f_bb55_08fa, 0x2b82_31c2_84e9_80d3) == 0xaf57_3b02_403e_89cd && Add(0x1320_f8c9_fb87_2cc0, 0x83d5_093f_bb55_08fa) == 0x96f6_0209_b6dc_35ba
    ensures First(0xdfa9_b239_f269_7812, 0x96f6_0209_b6dc_35ba, 0x745a_ca4a_342e_d2e2, 0x0b47_b4bb_1928_990e, 0x923f_82a4_af19_4f9b, 0x0000_0000_0000_0000) == 0x6e9c_7c18_349f_2e19
    ensures Second(0xaf57_3b02_403e_89cd, 0xb680_9539_5160_4860, 0x5a83_cb3e_8005_0e82) == 0x55ea_def4_461c_d952 && Add(0x6e9c_7c18_349f_2e19, 0x55ea_def4_461c_d952) == 0xc487_5b0c_7abc_076b && Add(0xebcf_fc07_203d_91f3, 0x6e9c_7c18_349f_2e19) == 0x5a6c_781f_54dc_c00c
    ensures First(0x0b47_b4bb_1928_990e, 0x5a6c_781f_54dc_c00c, 0x96f6_0209_b6dc_35ba, 0x745a_ca4a_342e_d2e2, 0xab1c_5ed5_da6d_8118, 0x0000_0000_0000_0000) == 0x2c72_a725_20eb_dd88
    ensures Second(0xc487_5b0c_7abc_076b, 0xaf57_3b02_403e_89cd, 0xb680_9539_5160_4860) == 0x5421_2a70_bf19_721b && Add(0x2c72_a725_20eb_dd88, 0x5421_2a70_bf19_721b) == 0x8093_d195_e005_4fa3 && Add(0x5a83_cb3e_8005_0e82, 0x2c72_a725_20eb_dd88) == 0x86f6_7263_a0f0_ec0a
  {
  }

  lemma Constants0()
    ensures K()[0] == 0x428a_2f98_d728_ae22 && K()[1] == 0x7137_4491_23ef_65cd
    ensures K()[2] == 0xb5c0_fbcf_ec4d_3b2f && K()[3] == 0xe9b5_dba5_8189_dbbc
    ensures K()[4] == 0x3956_c25b_f348_b538 && K()[5] == 0x59f1_11f1_b605_d019
    ensures K()[6] == 0x923f_82a4_af19_4f9b && K()[7] == 0xab1c_5ed5_da6d_8118
  {
    hide K;
    ConstantRow(0);
  }

  lemma After8(b: Block)
    requires IsAbc(b)
    ensures After(b, 8) == Work(0x8093_d195_e005_4fa3, 0xc487_5b0c_7abc_076b, 0xaf57_3b02_403e_89cd, 0xb680_9539_5160_4860,
                                 0x86f6_7263_a0f0_ec0a, 0x5a6c_781f_54dc_c00c, 0x96f6_0209_b6dc_35ba, 0x745a_ca4a_342e_d2e2)
  {
    hide IsAbc, Word, After, First, Second, Add, K;
    Begin(b);
    Words0(b);
    Constants0();
    Turns0();
    Turn(b, 0);
    Turn(b, 1);
    Turn(b, 2);
    Turn(b, 3);
    Turn(b, 4);
    Turn(b, 5);
    Turn(b, 6);
    Turn(b, 7);
  }

  lemma Turns8()
    ensures First(0x745a_ca4a_342e_d2e2, 0x86f6_7263_a0f0_ec0a, 0x5a6c_781f_54dc_c00c, 0x96f6_0209_b6dc_35ba, 0xd807_aa98_a303_0242, 0x0000_0000_0000_0000) == 0x19bf_a700_3e63_b7a2
    ensures Second(0x8093_d195_e005_4fa3, 0xc487_5b0c_7abc_076b, 0xaf57_3b02_403e_89cd) == 0xd82c_fe54_0e54_da83 && Add(0x19bf_a700_3e63_b7a2, 0xd82c_fe54_0e54_da83) == 0xf1ec_a554_4cb8_9225 && Add(0xb680_9539_5160_4860, 0x19bf_a700_3e63_b7a2) == 0xd040_3c39_8fc4_0002
    ensures First(0x96f6_0209_b6dc_35ba, 0xd040_3c39_8fc4_0002, 0x86f6_7263_a0f0_ec0a, 0x5a6c_781f_54dc_c00c, 0x1283_5b01_4570_6fbe, 0x0000_0000_0000_0000) == 0x50b1_e443_cba5_e285
    ensures Second(0xf1ec_a554_4cb8_9225, 0x8093_d195_e005_4fa3, 0xc487_5b0c_7abc_076b) == 0x30c6_4906_920e_ac7e && Add(0x50b1_e443_cba5_e285, 0x30c6_4906_920e_ac7e) == 0x8178_2d4a_5db4_8f03 && Add(0xaf57_3b02_403e_89cd, 0x50b1_e443_cba5_e285) == 0x0009_1f46_0be4_6c52
    ensures First(0x5a6c_781f_54dc_c00c, 0x0009_1f46_0be4_6c52, 0xd040_3c39_8fc4_0002, 0x86f6_7263_a0f0_ec0a, 0x2431_85be_4ee4_b28c, 0x0000_0000_0000_0000) == 0x0eed_ec0f_635f_9c89
    ensures Second(0x8178_2d4a_5db4_8f03, 0xf1ec_a554_4cb8_9225, 0x8093_d195_e005_4fa3) == 0x5a97_603b_3d92_bed0 && Add(0x0eed_ec0f_635f_9c89, 0x5a97_603b_3d92_bed0) == 0x6985_4c4a_a0f2_5b59 && Add(0xc487_5b0c_7abc_076b, 0x0eed_ec0f_635f_9c89) == 0xd375_471b_de1b_a3f4
    ensures First(0x86f6_7263_a0f0_ec0a, 0xd375_471b_de1b_a3f4, 0x0009_1f46_0be4_6c52, 0xd040_3c39_8fc4_0002, 0x550c_7dc3_d5ff_b4e2, 0x0000_0000_0000_0000) == 0xc6c5_a423_3a74_f689
    ensures Second(0x6985_4c4a_a0f2_5b59, 0x8178_2d4a_5db4_8f03, 0xf1ec_a554_4cb8_9225) == 0x1444_f540_bd97_3821 && Add(0xc6c5_a423_3a74_f689, 0x1444_f540_bd97_3821) == 0xdb0a_9963_f80c_2eaa && Add(0x8093_d195_e005_4fa3, 0xc6c5_a423_3a74_f689) == 0x4759_75b9_1a7a_462c
    ensures First(0xd040_3c39_8fc4_0002, 0x4759_75b9_1a7a_462c, 0xd375_471b_de1b_a3f4, 0x0009_1f46_0be4_6c52, 0x72be_5d74_f27b_896f, 0x0000_0000_0000_0000) == 0xdc07_1a9e_3b87_37b4
    ensures Second(0xdb0a_9963_f80c_2eaa, 0x6985_4c4a_a0f2_5b59, 0x8178_2d4a_5db4_8f03) == 0x823a_06a5_4c91_3460 && Add(0xdc07_1a9e_3b87_37b4, 0x823a_06a5_4c91_3460) == 0x5e41_2143_8818_6c14 && Add(0xf1ec_a554_4cb8_9225, 0xdc07_1a9e_3b87_37b4) == 0xcdf3_bff2_883f_c9d9
    ensures First(0x0009_1f46_0be4_6c52, 0xcdf3_bff2_883f_c9d9, 0x4759_75b9_1a7a_462c, 0xd375_471b_de1b_a3f4, 0x80de_b1fe_3b16_96b1, 0x0000_0000_0000_0000) == 0x0492_a254_a205_e05e
    ensures Second(0x5e41_2143_8818_6c14, 0xdb0a_9963_f80c_2eaa, 0x6985_4c4a_a0f2_5b59) == 0x3f91_f3dc_8357_4c42 && Add(0x0492_a254_a205_e05e, 0x3f91_f3dc_8357_4c42) == 0x4424_9631_255d_2ca0 && Add(0x8178_2d4a_5db4_8f03, 0x0492_a254_a205_e05e) == 0x860a_cf9e_ffba_6f61
    ensures First(0xd375_471b_de1b_a3f4, 0x860a_cf9e_ffba_6f61, 0xcdf3_bff2_883f_c9d9, 0x4759_75b9_1a7a_462c, 0x9bdc_06a7_25c7_1235, 0x0000_0000_0000_0000) == 0x1dc6_b214_c9bc_43d6
    ensures Second(0x4424_9631_255d_2ca0, 0x5e41_2143_8818_6c14, 0xdb0a_9963_f80c_2eaa) == 0xdccf_ccd8_bbe4_3c52 && Add(0x1dc6_b214_c9bc_43d6, 0xdccf_ccd8_bbe4_3c52) == 0xfa96_7eed_85a0_8028 && Add(0x6985_4c4a_a0f2_5b59, 0x1dc6_b214_c9bc_43d6) == 0x874b_fe5f_6aae_9f2f
    ensures First(0x4759_75b9_1a7a_462c, 0x874b_fe5f_6aae_9f2f, 0x860a_cf9e_ffba_6f61, 0xcdf3_bff2_883f_c9d9, 0xc19b_f174_cf69_2694, 0x0000_0000_0000_0018) == 0xcc70_e29f_65c8_92b7
    ensures Second(0xfa96_7eed_85a0_8028, 0x4424_9631_255d_2ca0, 0x5e41_2143_8818_6c14) == 0x3e6f_99e7_4b4f_89be && Add(0xcc70_e29f_65c8_92b7, 0x3e6f_99e7_4b4f_89be) == 0x0ae0_7c86_b118_1c75 && Add(0xdb0a_9963_f80c_2eaa, 0xcc70_e29f_65c8_92b7) == 0xa77b_7c03_5dd4_c161
  {
  }

  lemma Constants8()
    ensures K()[8] == 0xd807_aa98_a303_0242 && K()[9] == 0x1283_5b01_4570_6fbe
    ensures K()[10] == 0x2431_85be_4ee4_b28c && K()[11] == 0x550c_7dc3_d5ff_b4e2
    ensures K()[12] == 0x72be_5d74_f27b_896f && K()[13] == 0x80de_b1fe_3b16_96b1
    ensures K()[14] == 0x9bdc_06a7_25c7_1235 && K()[15] == 0xc19b_f174_cf69_2694
  {
    hide K;
    ConstantRow(1);
  }

  lemma After16(b: Block)
    requires IsAbc(b)
    ensures After(b, 16) == Work(0x0ae0_7c86_b118_1c75, 0xfa96_7eed_85a0_8028, 0x4424_9631_255d_2ca0, 0x5e41_2143_8818_6c14,
                                 0xa77b_7c03_5dd4_c161, 0x874b_fe5f_6aae_9f2f, 0x860a_cf9e_ffba_6f61, 0xcdf3_bff2_883f_c9d9)
  {
    hide IsAbc, Word, After, First, Second, Add, K;
    After8(b);
    Words0(b);
    Constants8();
    Turns8();
    Turn(b, 8);
    Turn(b, 9);
    Turn(b, 10);
    Turn(b, 11);
    Turn(b, 12);
    Turn(b, 13);
    Turn(b, 14);
    Turn(b, 15);
  }

  lemma Turns16()
    ensures First(0xcdf3_bff2_883f_c9d9, 0xa77b_7c03_5dd4_c161, 0x874b_fe5f_6aae_9f2f, 0x860a_cf9e_ffba_6f61, 0xe49b_69c1_9ef1_4ad2, 0x6162_6380_0000_0000) == 0xcfad_ab27_b1bd_e164
    ensures Second(0x0ae0_7c86_b118_1c75, 0xfa96_7eed_85a0_8028, 0x4424_9631_255d_2ca0) == 0xfb4a_6f1a_abc2_23d3 && Add(0xcfad_ab27_b1bd_e164, 0xfb4a_6f1a_abc2_23d3) == 0xcaf8_1a42_5d80_0537 && Add(0x5e41_2143_8818_6c14, 0xcfad_ab27_b1bd_e164) == 0x2dee_cc6b_39d6_4d78
    ensures First(0x860a_cf9e_ffba_6f61, 0x2dee_cc6b_39d6_4d78, 0xa77b_7c03_5dd4_c161, 0x874b_fe5f_6aae_9f2f, 0xefbe_4786_384f_25e3, 0x0003_0000_0000_00c0) == 0xb059_ed22_d2a7_47b5
    ensures Second(0xcaf8_1a42_5d80_0537, 0x0ae0_7c86_b118_1c75, 0xfa96_7eed_85a0_8028) == 0x96cb_d101_c82a_56b6 && Add(0xb059_ed22_d2a7_47b5, 0x96cb_d101_c82a_56b6) == 0x4725_be24_9ad1_9e6b && Add(0x4424_9631_255d_2ca0, 0xb059_ed22_d2a7_47b5) == 0xf47e_8353_f804_7455
    ensures First(0x874b_fe5f_6aae_9f2f, 0xf47e_8353_f804_7455, 0x2dee_cc6b_39d6_4d78, 0xa77b_7c03_5dd4_c161, 0x0fc1_9dc6_8b8c_d5b5, 0x0a96_99a2_4c70_0003) == 0x2ed2_e0eb_07e1_5ba8
    ensures Second(0x4725_be24_9ad1_9e6b, 0xcaf8_1a42_5d80_0537, 0x0ae0_7c86_b118_1c75) == 0x0d78_6019_0eac_e333 && Add(0x2ed2_e0eb_07e1_5ba8, 0x0d78_6019_0eac_e333) == 0x3c4b_4104_168e_3edb && Add(0xfa96_7eed_85a0_8028, 0x2ed2_e0eb_07e1_5ba8) == 0x2969_5fd8_8d81_dbd0
    ensures First(0xa77b_7c03_5dd4_c161, 0x2969_5fd8_8d81_dbd0, 0xf47e_8353_f804_7455, 0x2dee_cc6b_39d6_4d78, 0x240c_a1cc_77ac_9c65, 0x0000_0c00_6000_0603) == 0xe669_1c56_ae58_5a09
    ensures Second(0x3c4b_4104_168e_3edb, 0x4725_be24_9ad1_9e6b, 0xcaf8_1a42_5d80_0537) == 0xb3d6_987c_dc5e_74fd && Add(0xe669_1c56_ae58_5a09, 0xb3d6_987c_dc5e_74fd) == 0x9a3f_b4d3_8ab6_cf06 && Add(0x0ae0_7c86_b118_1c75, 0xe669_1c56_ae58_5a09) == 0xf149_98dd_5f70_767e
    ensures First(0x2dee_cc6b_39d6_4d78, 0xf149_98dd_5f70_767e, 0x2969_5fd8_8d81_dbd0, 0xf47e_8353_f804_7455, 0x2de9_2c6f_592b_0275, 0x549e_f626_3985_8996) == 0x80c1_cc2a_b3c5_baa5
    ensures Second(0x9a3f_b4d3_8ab6_cf06, 0x3c4b_4104_168e_3edb, 0x4725_be24_9ad1_9e6b) == 0x0d03_e23a_a2d7_7db0 && Add(0x80c1_cc2a_b3c5_baa5, 0x0d03_e23a_a2d7_7db0) == 0x8dc5_ae65_569d_3855 && Add(0xcaf8_1a42_5d80_0537, 0x80c1_cc2a_b3c5_baa5) == 0x4bb9_e66d_1145_bfdc
    ensures First(0xf47e_8353_f804_7455, 0x4bb9_e66d_1145_bfdc, 0xf149_98dd_5f70_767e, 0x2969_5fd8_8d81_dbd0, 0x4a74_84aa_6ea6_e483, 0x00c0_0033_0000_3c00) == 0x470b_40e5_1276_e8e8
    ensures Second(0x8dc5_ae65_569d_3855, 0x9a3f_b4d3_8ab6_cf06, 0x3c4b_4104_168e_3edb) == 0x9329_9582_2ace_44e7 && Add(0x470b_40e5_1276_e8e8, 0x9329_9582_2ace_44e7) == 0xda34_d667_3d45_2dcf && Add(0x4725_be24_9ad1_9e6b, 0x470b_40e5_1276_e8e8) == 0x8e30_ff09_ad48_8753
    ensures First(0x2969_5fd8_8d81_dbd0, 0x8e30_ff09_ad48_8753, 0x4bb9_e66d_1145_bfdc, 0xf149_98dd_5f70_767e, 0x5cb0_a9dc_bd41_fbd4, 0x1497_007a_8a0e_9dbc) == 0xce77_7019_9267_32eb
    ensures Second(0xda34_d667_3d45_2dcf, 0x8dc5_ae65_569d_3855, 0x9a3f_b4d3_8ab6_cf06) == 0x6fae_d43c_e909_678d && Add(0xce77_7019_9267_32eb, 0x6fae_d43c_e909_678d) == 0x3e26_4456_7b70_9a78 && Add(0x3c4b_4104_168e_3edb, 0xce77_7019_9267_32eb) == 0x0ac2_b11d_a8f5_71c6
    ensures First(0xf149_98dd_5f70_767e, 0x0ac2_b11d_a8f5_71c6, 0x8e30_ff09_ad48_8753, 0x4bb9_e66d_1145_bfdc, 0x76f9_88da_8311_53b5, 0x62e5_6500_cc07_80f0) == 0x2c20_5124_f2fe_832d
    ensures Second(0x3e26_4456_7b70_9a78, 0xda34_d667_3d45_2dcf, 0x8dc5_ae65_569d_3855) == 0x2348_2690_9ce6_d157 && Add(0x2c20_5124_f2fe_832d, 0x2348_2690_9ce6_d157) == 0x4f68_77b5_8fe5_5484 && Add(0x9a3f_b4d3_8ab6_cf06, 0x2c20_5124_f2fe_832d) == 0xc660_05f8_7db5_5233
  {
  }

  lemma Constants16()
    ensures K()[16] == 0xe49b_69c1_9ef1_4ad2 && K()[17] == 0xefbe_4786_384f_25e3
    ensures K()[18] == 0x0fc1_9dc6_8b8c_d5b5 && K()[19] == 0x240c_a1cc_77ac_9c65
    ensures K()[20] == 0x2de9_2c6f_592b_0275 && K()[21] == 0x4a74_84aa_6ea6_e483
    ensures K()[22] == 0x5cb0_a9dc_bd41_fbd4 && K()[23] == 0x76f9_88da_8311_53b5
  {
    hide K;
    ConstantRow(2);
  }

  lemma After24(b: Block)
    requires IsAbc(b)
    ensures After(b, 24) == Work(0x4f68_77b5_8fe5_5484, 0x3e26_4456_7b70_9a78, 0xda34_d667_3d45_2dcf, 0x8dc5_ae65_569d_3855,
                                 0xc660_05f8_7db5_5233, 0x0ac2_b11d_a8f5_71c6, 0x8e30_ff09_ad48_8753, 0x4bb9_e66d_1145_bfdc)
  {
    hide IsAbc, Word, After, First, Second, Add, K;
    After16(b);
    Words16(b);
    Constants16();
    Turns16();
    Turn(b, 16);
    Turn(b, 17);
    Turn(b, 18);
    Turn(b, 19);
    Turn(b, 20);
    Turn(b, 21);
    Turn(b, 22);
    Turn(b, 23);
  }

  lemma Turns24()
    ensures First(0x4bb9_e66d_1145_bfdc, 0xc660_05f8_7db5_5233, 0x0ac2_b11d_a8f5_71c6, 0x8e30_ff09_ad48_8753, 0x983e_5152_ee66_dfab, 0x7760_dd47_5a53_8797) == 0x4627_42d2_127a_d61a
    ensures Second(0x4f68_77b5_8fe5_5484, 0x3e26_4456_7b70_9a78, 0xda34_d667_3d45_2dcf) == 0x54d8_2e44_2d28_d326 && Add(0x4627_42d2_127a_d61a, 0x54d8_2e44_2d28_d326) == 0x9aff_7116_3fa3_a940 && Add(0x8dc5_ae65_569d_3855, 0x4627_42d2_127a_d61a) == 0xd3ec_f137_6918_0e6f
    ensures First(0x8e30_ff09_ad48_8753, 0xd3ec_f137_6918_0e6f, 0xc660_05f8_7db5_5233, 0x0ac2_b11d_a8f5_71c6, 0xa831_c66d_2db4_3210, 0xf155_4b71_1c1c_0003) == 0x93aa_4970_b087_b567
    ensures Second(0x9aff_7116_3fa3_a940, 0x4f68_77b5_8fe5_5484, 0x3e26_4456_7b70_9a78) == 0x781b_ae21_485e_cc04 && Add(0x93aa_4970_b087_b567, 0x781b_ae21_485e_cc04) == 0x0bc5_f791_f8e6_816b && Add(0xda34_d667_3d45_2dcf, 0x93aa_4970_b087_b567) == 0x6ddf_1fd7_edcc_e336
    ensures First(0x0ac2_b11d_a8f5_71c6, 0x6ddf_1fd7_edcc_e336, 0xd3ec_f137_6918_0e6f, 0xc660_05f8_7db5_5233, 0xb003_27c8_98fb_213f, 0xca29_93a4_345d_9ff2) == 0xa8be_4844_1323_e8ed
    ensures Second(0x0bc5_f791_f8e6_816b, 0x9aff_7116_3fa3_a940, 0x4f68_77b5_8fe5_5484) == 0xdf8d_f37e_68a1_1054 && Add(0xa8be_4844_1323_e8ed, 0xdf8d_f37e_68a1_1054) == 0x884c_3bc2_7bc4_f941 && Add(0x3e26_4456_7b70_9a78, 0xa8be_4844_1323_e8ed) == 0xe6e4_8c9a_8e94_8365
    ensures First(0xc660_05f8_7db5_5233, 0xe6e4_8c9a_8e94_8365, 0x6ddf_1fd7_edcc_e336, 0xd3ec_f137_6918_0e6f, 0xbf59_7fc7_beef_0ee4, 0x5e0e_66b5_c783_dd32) == 0xb99e_1298_9574_b928
    ensures Second(0x884c_3bc2_7bc4_f941, 0x0bc5_f791_f8e6_816b, 0x9aff_7116_3fa3_a940) == 0x3116_974c_e1a6_d3e1 && Add(0xb99e_1298_9574_b928, 0x3116_974c_e1a6_d3e1) == 0xeab4_a9e5_771b_8d09 && Add(0x4f68_77b5_8fe5_5484, 0xb99e_1298_9574_b928) == 0x0906_8a4e_255a_0dac
    ensures First(0xd3ec_f137_6918_0e6f, 0x0906_8a4e_255a_0dac, 0xe6e4_8c9a_8e94_8365, 0x6ddf_1fd7_edcc_e336, 0xc6e0_0bf3_3da8_8fc2, 0xe25a_625d_0049_4b62) == 0x74ce_8880_d14e_6c44
    ensures Second(0xeab4_a9e5_771b_8d09, 0x884c_3bc2_7bc4_f941, 0x0bc5_f791_f8e6_816b) == 0x7154_c088_3df9_66c6 && Add(0x74ce_8880_d14e_6c44, 0x7154_c088_3df9_66c6) == 0xe623_4909_0f47_d30a && Add(0x9aff_7116_3fa3_a940, 0x74ce_8880_d14e_6c44) == 0x0fcd_f997_10f2_1584
    ensures First(0x6ddf_1fd7_edcc_e336, 0x0fcd_f997_10f2_1584, 0x0906_8a4e_255a_0dac, 0xe6e4_8c9a_8e94_8365, 0xd5a7_9147_930a_a725, 0x9f44_486f_b1e4_fbd2) == 0xe4e8_cb6c_1b51_6f1a
    ensures Second(0xe623_4909_0f47_d30a, 0xeab4_a9e5_771b_8d09, 0x884c_3bc2_7bc4_f941) == 0x8fd6_758c_4db7_dd49 && Add(0xe4e8_cb6c_1b51_6f1a, 0x8fd6_758c_4db7_dd49) == 0x74bf_40f8_6909_4c63 && Add(0x0bc5_f791_f8e6_816b, 0xe4e8_cb6c_1b51_6f1a) == 0xf0ae_c2fe_1437_f085
    ensures First(0xe6e4_8c9a_8e94_8365, 0xf0ae_c2fe_1437_f085, 0x0fcd_f997_10f2_1584, 0x0906_8a4e_255a_0dac, 0x06ca_6351_e003_826f, 0xb31b_8c2b_0608_5f2f) == 0xeb93_ea16_9fda_0562
    ensures Second(0x74bf_40f8_6909_4c63, 0xe623_4909_0f47_d30a, 0xeab4_a9e5_771b_8d09) == 0x60bb_d1a0_bf3e_6e44 && Add(0xeb93_ea16_9fda_0562, 0x60bb_d1a0_bf3e_6e44) == 0x4c4f_bbb7_5f18_73a6 && Add(0x884c_3bc2_7bc4_f941, 0xeb93_ea16_9fda_0562) == 0x73e0_25d9_1b9e_fea3
    ensures First(0x0906_8a4e_255a_0dac, 0x73e0_25d9_1b9e_fea3, 0xf0ae_c2fe_1437_f085, 0x0fcd_f997_10f2_1584, 0x1429_2967_0a0e_6e70, 0x0e98_7660_9341_42f6) == 0x521e_defb_a2cc_8925
    ensures Second(0x4c4f_bbb7_5f18_73a6, 0x74bf_40f8_6909_4c63, 0xe623_4909_0f47_d30a) == 0xad2e_6023_6a7a_1e11 && Add(0x521e_defb_a2cc_8925, 0xad2e_6023_6a7a_1e11) == 0xff4d_3f1f_0d46_a736 && Add(0xeab4_a9e5_771b_8d09, 0x521e_defb_a2cc_8925) == 0x3cd3_88e1_19e8_162e
  {
  }

  lemma Constants24()
    ensures K()[24] == 0x983e_5152_ee66_dfab && K()[25] == 0xa831_c66d_2db4_3210
    ensures K()[26] == 0xb003_27c8_98fb_213f && K()[27] == 0xbf59_7fc7_beef_0ee4
    ensures K()[28] == 0xc6e0_0bf3_3da8_8fc2 && K()[29] == 0xd5a7_9147_930a_a725
    ensures K()[30] == 0x06ca_6351_e003_826f && K()[31] == 0x1429_2967_0a0e_6e70
  {
    hide K;
    ConstantRow(3);
  }

  lemma After32(b: Block)
    requires IsAbc(b)
    ensures After(b, 32) == Work(0xff4d_3f1f_0d46_a736, 0x4c4f_bbb7_5f18_73a6, 0x74bf_40f8_6909_4c63, 0xe623_4909_0f47_d30a,
                                 0x3cd3_88e1_19e8_162e, 0x73e0_25d9_1b9e_fea3, 0xf0ae_c2fe_1437_f085, 0x0fcd_f997_10f2_1584)
  {
    hide IsAbc, Word, After, First, Second, Add, K;
    After24(b);
    Words24(b);
    Constants24();
    Turns24();
    Turn(b, 24);
    Turn(b, 25);
    Turn(b, 26);
    Turn(b, 27);
    Turn(b, 28);
    Turn(b, 29);
    Turn(b, 30);
    Turn(b, 31);
  }

  lemma Turns32()
    ensures First(0x0fcd_f997_10f2_1584, 0x3cd3_88e1_19e8_162e, 0x73e0_25d9_1b9e_fea3, 0xf0ae_c2fe_1437_f085, 0x27b7_0a85_46d2_2ffc, 0xa4af_2cfd_09fb_b924) == 0xfadf_fc6a_5602_3d65
    ensures Second(0xff4d_3f1f_0d46_a736, 0x4c4f_bbb7_5f18_73a6, 0x74bf_40f8_6909_4c63) == 0xa570_93ab_7406_8b6f && Add(0xfadf_fc6a_5602_3d65, 0xa570_93ab_7406_8b6f) == 0xa050_9015_ca08_c8d4 && Add(0xe623_4909_0f47_d30a, 0xfadf_fc6a_5602_3d65) == 0xe103_4573_654a_106f
    ensures First(0xf0ae_c2fe_1437_f085, 0xe103_4573_654a_106f, 0x3cd3_88e1_19e8_162e, 0x73e0_25d9_1b9e_fea3, 0x2e1b_2138_5c26_c926, 0xad28_9e2e_0bd5_3186) == 0x7aec_7c93_8b72_b7b7
    ensures Second(0xa050_9015_ca08_c8d4, 0xff4d_3f1f_0d46_a736, 0x4c4f_bbb7_5f18_73a6) == 0xe5e8_6a05_d366_682f && Add(0x7aec_7c93_8b72_b7b7, 0xe5e8_6a05_d366_682f) == 0x60d4_e699_5ed9_1fe6 && Add(0x74bf_40f8_6909_4c63, 0x7aec_7c93_8b72_b7b7) == 0xefab_bd8b_f47c_041a
    ensures First(0x73e0_25d9_1b9e_fea3, 0xefab_bd8b_f47c_041a, 0xe103_4573_654a_106f, 0x3cd3_88e1_19e8_162e, 0x4d2c_6dfc_5ac4_2aed, 0x3c74_563a_a2f9_673e) == 0xc36b_2ab9_9b5f_9c2d
    ensures Second(0x60d4_e699_5ed9_1fe6, 0xa050_9015_ca08_c8d4, 0xff4d_3f1f_0d46_a736) == 0x68ee_c1bd_a803_89f4 && Add(0xc36b_2ab9_9b5f_9c2d, 0x68ee_c1bd_a803_89f4) == 0x2c59_ec77_4363_2621 && Add(0x4c4f_bbb7_5f18_73a6, 0xc36b_2ab9_9b5f_9c2d) == 0x0fba_e670_fa78_0fd3
    ensures First(0x3cd3_88e1_19e8_162e, 0x0fba_e670_fa78_0fd3, 0xefab_bd8b_f47c_041a, 0xe103_4573_654a_106f, 0x5338_0d13_9d95_b3df, 0x6ccd_cd14_cc14_b53f) == 0xf14a_c910_42e4_9d97
    ensures Second(0x2c59_ec77_4363_2621, 0x60d4_e699_5ed9_1fe6, 0xa050_9015_ca08_c8d4) == 0x28bd_51ec_1719_1e95 && Add(0xf14a_c910_42e4_9d97, 0x28bd_51ec_1719_1e95) == 0x1a08_1afc_59fd_bc2c && Add(0xff4d_3f1f_0d46_a736, 0xf14a_c910_42e4_9d97) == 0xf098_082f_502b_44cd
    ensures First(0xe103_4573_654a_106f, 0xf098_082f_502b_44cd, 0x0fba_e670_fa78_0fd3, 0xefab_bd8b_f47c_041a, 0x650a_7354_8baf_63de, 0xc3f9_25b3_37f2_2bde) == 0xef6f_4000_61b6_7da1
    ensures Second(0x1a08_1afc_59fd_bc2c, 0x2c59_ec77_4363_2621, 0x60d4_e699_5ed9_1fe6) == 0x9970_45b0_5a30_f773 && Add(0xef6f_4000_61b6_7da1, 0x9970_45b0_5a30_f773) == 0x88df_85b0_bbe7_7514 && Add(0xa050_9015_ca08_c8d4, 0xef6f_4000_61b6_7da1) == 0x8fbf_d016_2bbf_4675
    ensures First(0xefab_bd8b_f47c_041a, 0x8fbf_d016_2bbf_4675, 0xf098_082f_502b_44cd, 0x0fba_e670_fa78_0fd3, 0x766a_0abb_3c77_b2a8, 0x5bcc_77a7_5ad9_5b54) == 0x05d8_e908_ead3_5bd7
    ensures Second(0x88df_85b0_bbe7_7514, 0x1a08_1afc_59fd_bc2c, 0x2c59_ec77_4363_2621) == 0xfa52_cfdb_e2c5_3990 && Add(0x05d8_e908_ead3_5bd7, 0xfa52_cfdb_e2c5_3990) == 0x002b_b8e4_cd98_9567 && Add(0x60d4_e699_5ed9_1fe6, 0x05d8_e908_ead3_5bd7) == 0x66ad_cfa2_49ac_7bbd
    ensures First(0x0fba_e670_fa78_0fd3, 0x66ad_cfa2_49ac_7bbd, 0x8fbf_d016_2bbf_4675, 0xf098_082f_502b_44cd, 0x81c2_c92e_47ed_aee6, 0x3ec2_257a_dca0_9a52) == 0x883b_aa4a_cc88_81bd
    ensures Second(0x002b_b8e4_cd98_9567, 0x88df_85b0_bbe7_7514, 0x1a08_1afc_59fd_bc2c) == 0x2b7f_daf7_e6ae_ec28 && Add(0x883b_aa4a_cc88_81bd, 0x2b7f_daf7_e6ae_ec28) == 0xb3bb_8542_b337_6de5 && Add(0x2c59_ec77_4363_2621, 0x883b_aa4a_cc88_81bd) == 0xb495_96c2_0feb_a7de
    ensures First(0xf098_082f_502b_44cd, 0xb495_96c2_0feb_a7de, 0x66ad_cfa2_49ac_7bbd, 0x8fbf_d016_2bbf_4675, 0x9272_2c85_1482_353b, 0x2824_6960_001f_c5eb) == 0xf268_ef4b_606c_9a4f
    ensures Second(0xb3bb_8542_b337_6de5, 0x002b_b8e4_cd98_9567, 0x88df_85b0_bbe7_7514) == 0x9b98_f1da_57e9_37d6 && Add(0xf268_ef4b_606c_9a4f, 0x9b98_f1da_57e9_37d6) == 0x8e01_e125_b855_d225 && Add(0x1a08_1afc_59fd_bc2c, 0xf268_ef4b_606c_9a4f) == 0x0c71_0a47_ba6a_567b
  {
  }

  lemma Constants32()
    ensures K()[32] == 0x27b7_0a85_46d2_2ffc && K()[33] == 0x2e1b_2138_5c26_c926
    ensures K()[34] == 0x4d2c_6dfc_5ac4_2aed && K()[35] == 0x5338_0d13_9d95_b3df
    ensures K()[36] == 0x650a_7354_8baf_63de && K()[37] == 0x766a_0abb_3c77_b2a8
    ensures K()[38] == 0x81c2_c92e_47ed_aee6 && K()[39] == 0x9272_2c85_1482_353b
  {
    hide K;
    ConstantRow(4);
  }

  lemma After40(b: Block)
    requires IsAbc(b)
    ensures After(b, 40) == Work(0x8e01_e125_b855_d225, 0xb3bb_8542_b337_6de5, 0x002b_b8e4_cd98_9567, 0x88df_85b0_bbe7_7514,
                                 0x0c71_0a47_ba6a_567b, 0xb495_96c2_0feb_a7de, 0x66ad_cfa2_49ac_7bbd, 0x8fbf_d016_2bbf_4675)
  {
    hide IsAbc, Word, After, First, Second, Add, K;
    After32(b);
    Words32(b);
    Constants32();
    Turns32();
    Turn(b, 32);
    Turn(b, 33);
    Turn(b, 34);
    Turn(b, 35);
    Turn(b, 36);
    Turn(b, 37);
    Turn(b, 38);
    Turn(b, 39);
  }

  lemma Turns40()
    ensures First(0x8fbf_d016_2bbf_4675, 0x0c71_0a47_ba6a_567b, 0xb495_96c2_0feb_a7de, 0x66ad_cfa2_49ac_7bbd, 0xa2bf_e8a1_4cf1_0364, 0x04e3_3a75_ce2b_e88a) == 0x8db0_8302_e8d3_a1f7
    ensures Second(0x8e01_e125_b855_d225, 0xb3bb_8542_b337_6de5, 0x002b_b8e4_cd98_9567) == 0x2264_9eda_8198_3f35 && Add(0x8db0_8302_e8d3_a1f7, 0x2264_9eda_8198_3f35) == 0xb015_21dd_6a6b_e12c && Add(0x88df_85b0_bbe7_7514, 0x8db0_8302_e8d3_a1f7) == 0x1690_08b3_a4bb_170b
    ensures First(0x66ad_cfa2_49ac_7bbd, 0x1690_08b3_a4bb_170b, 0x0c71_0a47_ba6a_567b, 0xb495_96c2_0feb_a7de, 0xa81a_664b_bc42_3001, 0x7d53_14b3_c359_e0e7) == 0xf06d_ab55_1a1c_774a
    ensures Second(0xb015_21dd_6a6b_e12c, 0x8e01_e125_b855_d225, 0xb3bb_8542_b337_6de5) == 0xf901_de88_2eaf_6107 && Add(0xf06d_ab55_1a1c_774a, 0xf901_de88_2eaf_6107) == 0xe96f_89dd_48cb_d851 && Add(0x002b_b8e4_cd98_9567, 0xf06d_ab55_1a1c_774a) == 0xf099_6439_e7b5_0cb1
    ensures First(0xb495_96c2_0feb_a7de, 0xf099_6439_e7b5_0cb1, 0x1690_08b3_a4bb_170b, 0x0c71_0a47_ba6a_567b, 0xc24b_8b70_d0f8_9791, 0xaef7_a285_ff25_1266) == 0xafe1_33f6_2e16_53ab
    ensures Second(0xe96f_89dd_48cb_d851, 0xb015_21dd_6a6b_e12c, 0x8e01_e125_b855_d225) == 0x0c24_8697_b7bd_70d5 && Add(0xafe1_33f6_2e16_53ab, 0x0c24_8697_b7bd_70d5) == 0xbc05_ba8d_e5d3_c480 && Add(0xb3bb_8542_b337_6de5, 0xafe1_33f6_2e16_53ab) == 0x639c_b938_e14d_c190
    ensures First(0x0c71_0a47_ba6a_567b, 0x639c_b938_e14d_c190, 0xf099_6439_e7b5_0cb1, 0x1690_08b3_a4bb_170b, 0xc76c_51a3_0654_be30, 0x0b84_7258_1dee_a04f) == 0x3e4f_1f73_c701_3ecd
    ensures Second(0xbc05_ba8d_e5d3_c480, 0xe96f_89dd_48cb_d851, 0xb015_21dd_6a6b_e12c) == 0xf788_c880_56ee_8d08 && Add(0x3e4f_1f73_c701_3ecd, 0xf788_c880_56ee_8d08) == 0x35d7_e7f4_1def_cbd5 && Add(0x8e01_e125_b855_d225, 0x3e4f_1f73_c701_3ecd) == 0xcc51_0099_7f57_10f2
    ensures First(0x1690_08b3_a4bb_170b, 0xcc51_0099_7f57_10f2, 0x639c_b938_e14d_c190, 0xf099_6439_e7b5_0cb1, 0xd192_e819_d6ef_5218, 0xb174_e26e_ddc7_b033) == 0xd578_614d_767c_aff0
    ensures Second(0x35d7_e7f4_1def_cbd5, 0xbc05_ba8d_e5d3_c480, 0xe96f_89dd_48cb_d851) == 0xef04_3c0f_082b_f244 && Add(0xd578_614d_767c_aff0, 0xef04_3c0f_082b_f244) == 0xc47c_9d5c_7ea8_a234 && Add(0xb015_21dd_6a6b_e12c, 0xd578_614d_767c_aff0) == 0x858d_832a_e0e8_911c
    ensures First(0xf099_6439_e7b5_0cb1, 0x858d_832a_e0e8_911c, 0xcc51_0099_7f57_10f2, 0x639c_b938_e14d_c190, 0xd699_0624_5565_a910, 0x5d63_bae5_8ddd_88de) == 0xffec_a07a_0e61_8c88
    ensures Second(0xc47c_9d5c_7ea8_a234, 0x35d7_e7f4_1def_cbd5, 0xbc05_ba8d_e5d3_c480) == 0x0233_1a61_9d49_ce3e && Add(0xffec_a07a_0e61_8c88, 0x0233_1a61_9d49_ce3e) == 0x021f_badb_abab_5ac6 && Add(0xe96f_89dd_48cb_d851, 0xffec_a07a_0e61_8c88) == 0xe95c_2a57_572d_64d9
    ensures First(0x639c_b938_e14d_c190, 0xe95c_2a57_572d_64d9, 0x858d_832a_e0e8_911c, 0xcc51_0099_7f57_10f2, 0xf40e_3585_5771_202a, 0x4c04_4007_b744_ccbb) == 0x0ab6_7ae6_27b9_e61a
    ensures Second(0x021f_badb_abab_5ac6, 0xc47c_9d5c_7ea8_a234, 0x35d7_e7f4_1def_cbd5) == 0xeb67_ec40_6d24_474d && Add(0x0ab6_7ae6_27b9_e61a, 0xeb67_ec40_6d24_474d) == 0xf61e_6726_94de_2d67 && Add(0xbc05_ba8d_e5d3_c480, 0x0ab6_7ae6_27b9_e61a) == 0xc6bc_3574_0d8d_aa9a
    ensures First(0xcc51_0099_7f57_10f2, 0xc6bc_3574_0d8d_aa9a, 0xe95c_2a57_572d_64d9, 0x858d_832a_e0e8_911c, 0x106a_a070_32bb_d1b8, 0xe6a9_aa4d_74dc_7d43) == 0xff4e_5b40_a24a_fcd8
    ensures Second(0xf61e_6726_94de_2d67, 0x021f_badb_abab_5ac6, 0xc47c_9d5c_7ea8_a234) == 0x6c1b_a0db_1238_01d4 && Add(0xff4e_5b40_a24a_fcd8, 0x6c1b_a0db_1238_01d4) == 0x6b69_fc1b_b482_feac && Add(0x35d7_e7f4_1def_cbd5, 0xff4e_5b40_a24a_fcd8) == 0x3526_4334_c03a_c8ad
  {
  }

  lemma Constants40()
    ensures K()[40] == 0xa2bf_e8a1_4cf1_0364 && K()[41] == 0xa81a_664b_bc42_3001
    ensures K()[42] == 0xc24b_8b70_d0f8_9791 && K()[43] == 0xc76c_51a3_0654_be30
    ensures K()[44] == 0xd192_e819_d6ef_5218 && K()[45] == 0xd699_0624_5565_a910
    ensures K()[46] == 0xf40e_3585_5771_202a && K()[47] == 0x106a_a070_32bb_d1b8
  {
    hide K;
    ConstantRow(5);
  }

  lemma After48(b: Block)
    requires IsAbc(b)
    ensures After(b, 48) == Work(0x6b69_fc1b_b482_feac, 0xf61e_6726_94de_2d67, 0x021f_badb_abab_5ac6, 0xc47c_9d5c_7ea8_a234,
                                 0x3526_4334_c03a_c8ad, 0xc6bc_3574_0d8d_aa9a, 0xe95c_2a57_572d_64d9, 0x858d_832a_e0e8_911c)
  {
    hide IsAbc, Word, After, First, Second, Add, K;
    After40(b);
    Words40(b);
    Constants40();
    Turns40();
    Turn(b, 40);
    Turn(b, 41);
    Turn(b, 42);
    Turn(b, 43);
    Turn(b, 44);
    Turn(b, 45);
    Turn(b, 46);
    Turn(b, 47);
  }

  lemma Turns48()
    ensures First(0x858d_832a_e0e8_911c, 0x3526_4334_c03a_c8ad, 0xc6bc_3574_0d8d_aa9a, 0xe95c_2a57_572d_64d9, 0x19a4_c116_b8d2_d0c8, 0xebea_f123_7248_019c) == 0x6298_e390_ed95_b41c
    ensures Second(0x6b69_fc1b_b482_feac, 0xf61e_6726_94de_2d67, 0x021f_badb_abab_5ac6) == 0xf486_4eac_a91d_ec2b && Add(0x6298_e390_ed95_b41c, 0xf486_4eac_a91d_ec2b) == 0x571f_323d_96b3_a047 && Add(0xc47c_9d5c_7ea8_a234, 0x6298_e390_ed95_b41c) == 0x2715_80ed_6c3e_5650
    ensures First(0xe95c_2a57_572d_64d9, 0x2715_80ed_6c3e_5650, 0x3526_4334_c03a_c8ad, 0xc6bc_3574_0d8d_aa9a, 0x1e37_6c08_5141_ab53, 0x361e_80b2_d00f_3193) == 0xddc0_d6ff_05d7_8b7f
    ensures Second(0x571f_323d_96b3_a047, 0x6b69_fc1b_b482_feac, 0xf61e_6726_94de_2d67) == 0xecdb_0163_bf2d_7d99 && Add(0xddc0_d6ff_05d7_8b7f, 0xecdb_0163_bf2d_7d99) == 0xca9b_d862_c505_0918 && Add(0x021f_badb_abab_5ac6, 0xddc0_d6ff_05d7_8b7f) == 0xdfe0_91da_b182_e645
    ensures First(0xc6bc_3574_0d8d_aa9a, 0xdfe0_91da_b182_e645, 0x2715_80ed_6c3e_5650, 0x3526_4334_c03a_c8ad, 0x2748_774c_df8e_eb99, 0x2e98_3912_5df3_b175) == 0x1182_71c8_ed3e_30b3
    ensures Second(0xca9b_d862_c505_0918, 0x571f_323d_96b3_a047, 0x6b69_fc1b_b482_feac) == 0x6fb7_d214_3f11_ef90 && Add(0x1182_71c8_ed3e_30b3, 0x6fb7_d214_3f11_ef90) == 0x813a_43dd_2c50_2043 && Add(0xf61e_6726_94de_2d67, 0x1182_71c8_ed3e_30b3) == 0x07a0_d8ef_821c_5e1a
    ensures First(0x3526_4334_c03a_c8ad, 0x07a0_d8ef_821c_5e1a, 0xdfe0_91da_b182_e645, 0x2715_80ed_6c3e_5650, 0x34b0_bcb5_e19b_48a8, 0x3319_6292_93ad_5363) == 0xdcd5_848c_7a2b_e392
    ensures Second(0x813a_43dd_2c50_2043, 0xca9b_d862_c505_0918, 0x571f_323d_96b3_a047) == 0xf769_fee5_f8f9_f9e5 && Add(0xdcd5_848c_7a2b_e392, 0xf769_fee5_f8f9_f9e5) == 0xd43f_8372_7325_dd77 && Add(0x6b69_fc1b_b482_feac, 0xdcd5_848c_7a2b_e392) == 0x483f_80a8_2eae_e23e
    ensures First(0x2715_80ed_6c3e_5650, 0x483f_80a8_2eae_e23e, 0x07a0_d8ef_821c_5e1a, 0xdfe0_91da_b182_e645, 0x391c_0cb3_c5c9_5a63, 0x9cbc_5d89_ac1b_89d5) == 0xf930_62a6_6ede_2fb3
    ensures Second(0xd43f_8372_7325_dd77, 0x813a_43dd_2c50_2043, 0xca9b_d862_c505_0918) == 0x0aae_af0c_be64_b250 && Add(0xf930_62a6_6ede_2fb3, 0x0aae_af0c_be64_b250) == 0x03df_11b3_2d42_e203 && Add(0x571f_323d_96b3_a047, 0xf930_62a6_6ede_2fb3) == 0x504f_94e4_0591_cffa
    ensures First(0xdfe0_91da_b182_e645, 0x504f_94e4_0591_cffa, 0x483f_80a8_2eae_e23e, 0x07a0_d8ef_821c_5e1a, 0x4ed8_aa4a_e341_8acb, 0x275e_23ff_eeca_50b7) == 0xdbdc_469b_559c_c4ea
    ensures Second(0x03df_11b3_2d42_e203, 0xd43f_8372_7325_dd77, 0x813a_43dd_2c50_2043) == 0xfa63_2168_2842_41c0 && Add(0xdbdc_469b_559c_c4ea, 0xfa63_2168_2842_41c0) == 0xd63f_6803_7ddf_06aa && Add(0xca9b_d862_c505_0918, 0xdbdc_469b_559c_c4ea) == 0xa678_1efe_1aa1_ce02
    ensures First(0x07a0_d8ef_821c_5e1a, 0xa678_1efe_1aa1_ce02, 0x504f_94e4_0591_cffa, 0x483f_80a8_2eae_e23e, 0x5b9c_ca4f_7763_e373, 0x3b80_d680_bf69_ef58) == 0x1b95_6f3d_5a8e_ef43
    ensures Second(0xd63f_6803_7ddf_06aa, 0x03df_11b3_2d42_e203, 0xd43f_8372_7325_dd77) == 0xdabb_163e_011c_eb0a && Add(0x1b95_6f3d_5a8e_ef43, 0xdabb_163e_011c_eb0a) == 0xf650_857b_5bab_da4d && Add(0x813a_43dd_2c50_2043, 0x1b95_6f3d_5a8e_ef43) == 0x9ccf_b31a_86df_0f86
    ensures First(0x483f_80a8_2eae_e23e, 0x9ccf_b31a_86df_0f86, 0xa678_1efe_1aa1_ce02, 0x504f_94e4_0591_cffa, 0x682e_6ff3_d6b2_b8a3, 0x0d06_9693_3945_a125) == 0xf275_59b8_260b_e792
    ensures Second(0xf650_857b_5bab_da4d, 0xd63f_6803_7ddf_06aa, 0x03df_11b3_2d42_e203) == 0x713f_072c_013c_99ec && Add(0xf275_59b8_260b_e792, 0x713f_072c_013c_99ec) == 0x63b4_60e4_2748_817e && Add(0xd43f_8372_7325_dd77, 0xf275_59b8_260b_e792) == 0xc6b4_dd2a_9931_c509
  {
  }

  lemma Constants48()
    ensures K()[48] == 0x19a4_c116_b8d2_d0c8 && K()[49] == 0x1e37_6c08_5141_ab53
    ensures K()[50] == 0x2748_774c_df8e_eb99 && K()[51] == 0x34b0_bcb5_e19b_48a8
    ensures K()[52] == 0x391c_0cb3_c5c9_5a63 && K()[53] == 0x4ed8_aa4a_e341_8acb
    ensures K()[54] == 0x5b9c_ca4f_7763_e373 && K()[55] == 0x682e_6ff3_d6b2_b8a3
  {
    hide K;
    ConstantRow(6);
  }

  lemma After56(b: Block)
    requires IsAbc(b)
    ensures After(b, 56) == Work(0x63b4_60e4_2748_817e, 0xf650_857b_5bab_da4d, 0xd63f_6803_7ddf_06aa, 0x03df_11b3_2d42_e203,
                                 0xc6b4_dd2a_9931_c509, 0x9ccf_b31a_86df_0f86, 0xa678_1efe_1aa1_ce02, 0x504f_94e4_0591_cffa)
  {
    hide IsAbc, Word, After, First, Second, Add, K;
    After48(b);
    Words48(b);
    Constants48();
    Turns48();
    Turn(b, 48);
    Turn(b, 49);
    Turn(b, 50);
    Turn(b, 51);
    Turn(b, 52);
    Turn(b, 53);
    Turn(b, 54);
    Turn(b, 55);
  }

  lemma Turns56()
    ensures First(0x504f_94e4_0591_cffa, 0xc6b4_dd2a_9931_c509, 0x9ccf_b31a_86df_0f86, 0xa678_1efe_1aa1_ce02, 0x748f_82ee_5def_b2fc, 0x7533_eabc_b786_ff00) == 0xcf09_8a0a_649d_29dd
    ensures Second(0x63b4_60e4_2748_817e, 0xf650_857b_5bab_da4d, 0xd63f_6803_7ddf_06aa) == 0xab49_071e_df38_0128 && Add(0xcf09_8a0a_649d_29dd, 0xab49_071e_df38_0128) == 0x7a52_9129_43d5_2b05 && Add(0x03df_11b3_2d42_e203, 0xcf09_8a0a_649d_29dd) == 0xd2e8_9bbd_91e0_0be0
    ensures First(0xa678_1efe_1aa1_ce02, 0xd2e8_9bbd_91e0_0be0, 0xc6b4_dd2a_9931_c509, 0x9ccf_b31a_86df_0f86, 0x78a5_636f_4317_2f60, 0xb898_26ce_e6fb_f0e5) == 0x9a10_f184_9464_4b02
    ensures Second(0x7a52_9129_43d5_2b05, 0x63b4_60e4_2748_817e, 0xf650_857b_5bab_da4d) == 0xb170_d22a_3512_9f49 && Add(0x9a10_f184_9464_4b02, 0xb170_d22a_3512_9f49) == 0x4b81_c3ae_c976_ea4b && Add(0xd63f_6803_7ddf_06aa, 0x9a10_f184_9464_4b02) == 0x7050_5988_1243_51ac
    ensures First(0x9ccf_b31a_86df_0f86, 0x7050_5988_1243_51ac, 0xd2e8_9bbd_91e0_0be0, 0xc6b4_dd2a_9931_c509, 0x84c8_7814_a1f0_ab72, 0x249b_4fbc_ad62_3e9f) == 0x73ec_1594_161c_e4e9
    ensures Second(0x4b81_c3ae_c976_ea4b, 0x7a52_9129_43d5_2b05, 0x63b4_60e4_2748_817e) == 0xe432_b59f_3fbf_f4cf && Add(0x73ec_1594_161c_e4e9, 0xe432_b59f_3fbf_f4cf) == 0x581e_cb33_55dc_d9b8 && Add(0xf650_857b_5bab_da4d, 0x73ec_1594_161c_e4e9) == 0x6a3c_9b0f_71c8_bf36
    ensures First(0xc6b4_dd2a_9931_c509, 0x6a3c_9b0f_71c8_bf36, 0x7050_5988_1243_51ac, 0xd2e8_9bbd_91e0_0be0, 0x8cc7_0208_1a64_39ec, 0x4aea_9df2_b02d_6f1e) == 0xe3e3_6d00_c5ee_8514
    ensures Second(0x581e_cb33_55dc_d9b8, 0x4b81_c3ae_c976_ea4b, 0x7a52_9129_43d5_2b05) == 0x4823_d784_2930_2778 && Add(0xe3e3_6d00_c5ee_8514, 0x4823_d784_2930_2778) == 0x2c07_4484_ef1e_ac8c && Add(0x63b4_60e4_2748_817e, 0xe3e3_6d00_c5ee_8514) == 0x4797_cde4_ed37_0692
    ensures First(0xd2e8_9bbd_91e0_0be0, 0x4797_cde4_ed37_0692, 0x6a3c_9b0f_71c8_bf36, 0x7050_5988_1243_51ac, 0x90be_fffa_2363_1e28, 0x2cc5_7475_a55e_8d8f) == 0x2c5c_bd73_5bab_534c
    ensures Second(0x2c07_4484_ef1e_ac8c, 0x581e_cb33_55dc_d9b8, 0x4b81_c3ae_c976_ea4b) == 0x0bfb_225f_a08c_806e && Add(0x2c5c_bd73_5bab_534c, 0x0bfb_225f_a08c_806e) == 0x3857_dfd2_fc37_d3ba && Add(0x7a52_9129_43d5_2b05, 0x2c5c_bd73_5bab_534c) == 0xa6af_4e9c_9f80_7e51
    ensures First(0x7050_5988_1243_51ac, 0xa6af_4e9c_9f80_7e51, 0x4797_cde4_ed37_0692, 0x6a3c_9b0f_71c8_bf36, 0xa450_6ceb_de82_bde9, 0xb257_4ae9_38d8_be89) == 0xbe2d_220e_d7ed_639a
    ensures Second(0x3857_dfd2_fc37_d3ba, 0x2c07_4484_ef1e_ac8c, 0x581e_cb33_55dc_d9b8) == 0x11a0_707d_7c37_7f1c && Add(0xbe2d_220e_d7ed_639a, 0x11a0_707d_7c37_7f1c) == 0xcfcd_928c_5424_e2b6 && Add(0x4b81_c3ae_c976_ea4b, 0xbe2d_220e_d7ed_639a) == 0x09ae_e5bd_a164_4de5
    ensures First(0x6a3c_9b0f_71c8_bf36, 0x09ae_e5bd_a164_4de5, 0xa6af_4e9c_9f80_7e51, 0x4797_cde4_ed37_0692, 0xbef9_a3f7_b2c6_7915, 0xc1b3_5a57_b16d_6aea) == 0x2be6_bd32_802d_2c42
    ensures Second(0xcfcd_928c_5424_e2b6, 0x3857_dfd2_fc37_d3ba, 0x2c07_4484_ef1e_ac8c) == 0x7c37_3089_1eec_ba01 && Add(0x2be6_bd32_802d_2c42, 0x7c37_3089_1eec_ba01) == 0xa81d_edbb_9f19_e643 && Add(0x581e_cb33_55dc_d9b8, 0x2be6_bd32_802d_2c42) == 0x8405_8865_d60a_05fa
    ensures First(0x4797_cde4_ed37_0692, 0x8405_8865_d60a_05fa, 0x09ae_e5bd_a164_4de5, 0xa6af_4e9c_9f80_7e51, 0xc671_78f2_e372_532b, 0xcc49_18b5_9492_06bb) == 0xa180_da60_ad88_0fc7
    ensures Second(0xa81d_edbb_9f19_e643, 0xcfcd_928c_5424_e2b6, 0x3857_dfd2_fc37_d3ba) == 0x09c4_0e01_c8bf_7dbe && Add(0xa180_da60_ad88_0fc7, 0x09c4_0e01_c8bf_7dbe) == 0xab44_e862_7647_8d85 && Add(0x2c07_4484_ef1e_ac8c, 0xa180_da60_ad88_0fc7) == 0xcd88_1ee5_9ca6_bc53
  {
  }

  lemma Constants56()
    ensures K()[56] == 0x748f_82ee_5def_b2fc && K()[57] == 0x78a5_636f_4317_2f60
    ensures K()[58] == 0x84c8_7814_a1f0_ab72 && K()[59] == 0x8cc7_0208_1a64_39ec
    ensures K()[60] == 0x90be_fffa_2363_1e28 && K()[61] == 0xa450_6ceb_de82_bde9
    ensures K()[62] == 0xbef9_a3f7_b2c6_7915 && K()[63] == 0xc671_78f2_e372_532b
  {
    hide K;
    ConstantRow(7);
  }

  lemma After64(b: Block)
    requires IsAbc(b)
    ensures After(b, 64) == Work(0xab44_e862_7647_8d85, 0xa81d_edbb_9f19_e643, 0xcfcd_928c_5424_e2b6, 0x3857_dfd2_fc37_d3ba,
                                 0xcd88_1ee5_9ca6_bc53, 0x8405_8865_d60a_05fa, 0x09ae_e5bd_a164_4de5, 0xa6af_4e9c_9f80_7e51)
  {
    hide IsAbc, Word, After, First, Second, Add, K;
    After56(b);
    Words56(b);
    Constants56();
    Turns56();
    Turn(b, 56);
    Turn(b, 57);
    Turn(b, 58);
    Turn(b, 59);
    Turn(b, 60);
    Turn(b, 61);
    Turn(b, 62);
    Turn(b, 63);
  }

  lemma Turns64()
    ensures First(0xa6af_4e9c_9f80_7e51, 0xcd88_1ee5_9ca6_bc53, 0x8405_8865_d60a_05fa, 0x09ae_e5bd_a164_4de5, 0xca27_3ece_ea26_619c, 0x5099_c3ad_d79f_90ec) == 0x722c_d0b3_6c52_888b
    ensures Second(0xab44_e862_7647_8d85, 0xa81d_edbb_9f19_e643, 0xcfcd_928c_5424_e2b6) == 0xe853_9ccb_2bcf_1c76 && Add(0x722c_d0b3_6c52_888b, 0xe853_9ccb_2bcf_1c76) == 0x5a80_6d7e_9821_a501 && Add(0x3857_dfd2_fc37_d3ba, 0x722c_d0b3_6c52_888b) == 0xaa84_b086_688a_5c45
    ensures First(0x09ae_e5bd_a164_4de5, 0xaa84_b086_688a_5c45, 0xcd88_1ee5_9ca6_bc53, 0x8405_8865_d60a_05fa, 0xd186_b8c7_21c0_c207, 0x5ea8_1d78_e766_0bf1) == 0x6b92_5a81_15fa_b42b
    ensures Second(0x5a80_6d7e_9821_a501, 0xab44_e862_7647_8d85, 0xa81d_edbb_9f19_e643) == 0x8327_679a_9a15_716d && Add(0x6b92_5a81_15fa_b42b, 0x8327_679a_9a15_716d) == 0xeeb9_c21b_b010_2598 && Add(0xcfcd_928c_5424_e2b6, 0x6b92_5a81_15fa_b42b) == 0x3b5f_ed0d_6a1f_96e1
    ensures First(0x8405_8865_d60a_05fa, 0x3b5f_ed0d_6a1f_96e1, 0xaa84_b086_688a_5c45, 0xcd88_1ee5_9ca6_bc53, 0xeada_7dd6_cde0_eb1e, 0xebee_6267_405a_c2a9) == 0x81dc_c7ec_20db_4d23
    ensures Second(0xeeb9_c21b_b010_2598, 0x5a80_6d7e_9821_a501, 0xab44_e862_7647_8d85) == 0xc4e7_591e_91f0_c83a && Add(0x81dc_c7ec_20db_4d23, 0xc4e7_591e_91f0_c83a) == 0x46c4_210a_b2cc_155d && Add(0xa81d_edbb_9f19_e643, 0x81dc_c7ec_20db_4d23) == 0x29fa_b5a7_bff5_3366
    ensures First(0xcd88_1ee5_9ca6_bc53, 0x29fa_b5a7_bff5_3366, 0x3b5f_ed0d_6a1f_96e1, 0xaa84_b086_688a_5c45, 0xf57d_4f7f_ee6e_d178, 0xb01f_2192_6108_a4ab) == 0x7122_0c0b_1f21_7e4a
    ensures Second(0x46c4_210a_b2cc_155d, 0xeeb9_c21b_b010_2598, 0x5a80_6d7e_9821_a501) == 0xe398_29c4_377e_b5c4 && Add(0x7122_0c0b_1f21_7e4a, 0xe398_29c4_377e_b5c4) == 0x54ba_35cf_56a0_340e && Add(0xab44_e862_7647_8d85, 0x7122_0c0b_1f21_7e4a) == 0x1c66_f46d_9569_0bcf
    ensures First(0xaa84_b086_688a_5c45, 0x1c66_f46d_9569_0bcf, 0x29fa_b5a7_bff5_3366, 0x3b5f_ed0d_6a1f_96e1, 0x06f0_67aa_7217_6fba, 0x7864_33dd_2fe6_5556) == 0xb05a_0b3b_9522_bc3f
    ensures Second(0x54ba_35cf_56a0_340e, 0x46c4_210a_b2cc_155d, 0xeeb9_c21b_b010_2598) == 0x67be_2e9a_74a4_db09 && Add(0xb05a_0b3b_9522_bc3f, 0x67be_2e9a_74a4_db09) == 0x1818_39d6_09c7_9748 && Add(0x5a80_6d7e_9821_a501, 0xb05a_0b3b_9522_bc3f) == 0x0ada_78ba_2d44_6140
    ensures First(0x3b5f_ed0d_6a1f_96e1, 0x0ada_78ba_2d44_6140, 0x1c66_f46d_9569_0bcf, 0x29fa_b5a7_bff5_3366, 0x0a63_7dc5_a2c8_98a6, 0xc54a_6eaa_24a0_552c) == 0xf4b7_5a9a_a63c_eb95
    ensures Second(0x1818_39d6_09c7_9748, 0x54ba_35cf_56a0_340e, 0x46c4_210a_b2cc_155d) == 0x06b3_504b_2a79_b8b2 && Add(0xf4b7_5a9a_a63c_eb95, 0x06b3_504b_2a79_b8b2) == 0xfb6a_aae5_d0b6_a447 && Add(0xeeb9_c21b_b010_2598, 0xf4b7_5a9a_a63c_eb95) == 0xe371_1cb6_564d_112d
    ensures First(0x29fa_b5a7_bff5_3366, 0xe371_1cb6_564d_112d, 0x0ada_78ba_2d44_6140, 0x1c66_f46d_9569_0bcf, 0x113f_9804_bef9_0dae, 0xb3c8_f153_0bdb_aa9e) == 0x6932_0b8b_b333_6b9d
    ensures Second(0xfb6a_aae5_d0b6_a447, 0x1818_39d6_09c7_9748, 0x54ba_35cf_56a0_340e) == 0x0d20_b9ee_182d_85ff && Add(0x6932_0b8b_b333_6b9d, 0x0d20_b9ee_182d_85ff) == 0x7652_c579_cb60_f19c && Add(0x46c4_210a_b2cc_155d, 0x6932_0b8b_b333_6b9d) == 0xaff6_2c96_65ff_80fa
    ensures First(0x1c66_f46d_9569_0bcf, 0xaff6_2c96_65ff_80fa, 0xe371_1cb6_564d_112d, 0x0ada_78ba_2d44_6140, 0x1b71_0b35_131c_471b, 0xbb8a_bfe5_6f46_9338) == 0x3fc2_082b_a845_3ce1
    ensures Second(0x7652_c579_cb60_f19c, 0xfb6a_aae5_d0b6_a447, 0x1818_39d6_09c7_9748) == 0xb19c_8e39_0a3a_f894 && Add(0x3fc2_082b_a845_3ce1, 0xb19c_8e39_0a3a_f894) == 0xf15e_9664_b280_3575 && Add(0x54ba_35cf_56a0_340e, 0x3fc2_082b_a845_3ce1) == 0x947c_3dfa_fee5_70ef
  {
  }

  lemma Constants64()
    ensures K()[64] == 0xca27_3ece_ea26_619c && K()[65] == 0xd186_b8c7_21c0_c207
    ensures K()[66] == 0xeada_7dd6_cde0_eb1e && K()[67] == 0xf57d_4f7f_ee6e_d178
    ensures K()[68] == 0x06f0_67aa_7217_6fba && K()[69] == 0x0a63_7dc5_a2c8_98a6
    ensures K()[70] == 0x113f_9804_bef9_0dae && K()[71] == 0x1b71_0b35_131c_471b
  {
    hide K;
    ConstantRow(8);
  }

  lemma After72(b: Block)
    requires IsAbc(b)
    ensures After(b, 72) == Work(0xf15e_9664_b280_3575, 0x7652_c579_cb60_f19c, 0xfb6a_aae5_d0b6_a447, 0x1818_39d6_09c7_9748,
                                 0x947c_3dfa_fee5_70ef, 0xaff6_2c96_65ff_80fa, 0xe371_1cb6_564d_112d, 0x0ada_78ba_2d44_6140)
  {
    hide IsAbc, Word, After, First, Second, Add, K;
    After64(b);
    Words64(b);
    Constants64();
    Turns64();
    Turn(b, 64);
    Turn(b, 65);
    Turn(b, 66);
    Turn(b, 67);
    Turn(b, 68);
    Turn(b, 69);
    Turn(b, 70);
    Turn(b, 71);
  }

  lemma Turns72()
    ensures First(0x0ada_78ba_2d44_6140, 0x947c_3dfa_fee5_70ef, 0xaff6_2c96_65ff_80fa, 0xe371_1cb6_564d_112d, 0x28db_77f5_2304_7d84, 0xf63d_4265_cc1c_5a78) == 0x7463_2603_10b1_b558
    ensures Second(0xf15e_9664_b280_3575, 0x7652_c579_cb60_f19c, 0xfb6a_aae5_d0b6_a447) == 0xc120_e0ce_54fd_3453 && Add(0x7463_2603_10b1_b558, 0xc120_e0ce_54fd_3453) == 0x3584_06d1_65ae_e9ab && Add(0x1818_39d6_09c7_9748, 0x7463_2603_10b1_b558) == 0x8c7b_5fd9_1a79_4ca0
    ensures First(0xe371_1cb6_564d_112d, 0x8c7b_5fd9_1a79_4ca0, 0x947c_3dfa_fee5_70ef, 0xaff6_2c96_65ff_80fa, 0x32ca_ab7b_40c7_2493, 0xbe83_55ea_7312_9afb) == 0x09e2_8a50_82e2_a489
    ensures Second(0x3584_06d1_65ae_e9ab, 0xf15e_9664_b280_3575, 0x7652_c579_cb60_f19c) == 0x16a5_037c_a6eb_566c && Add(0x09e2_8a50_82e2_a489, 0x16a5_037c_a6eb_566c) == 0x2087_8dcd_29cd_faf5 && Add(0xfb6a_aae5_d0b6_a447, 0x09e2_8a50_82e2_a489) == 0x054d_3536_5399_48d0
    ensures First(0xaff6_2c96_65ff_80fa, 0x054d_3536_5399_48d0, 0x8c7b_5fd9_1a79_4ca0, 0x947c_3dfa_fee5_70ef, 0x3c9e_be0a_15c9_bebc, 0x49e2_db8e_bdcf_beb5) == 0xb54e_bccb_e9ac_f333
    ensures Second(0x2087_8dcd_29cd_faf5, 0x3584_06d1_65ae_e9ab, 0xf15e_9664_b280_3575) == 0x7e85_d0df_cba5_2aaf && Add(0xb54e_bccb_e9ac_f333, 0x7e85_d0df_cba5_2aaf) == 0x33d4_8dab_b552_1de2 && Add(0x7652_c579_cb60_f19c, 0xb54e_bccb_e9ac_f333) == 0x2ba1_8245_b50d_e4cf
    ensures First(0x947c_3dfa_fee5_70ef, 0x2ba1_8245_b50d_e4cf, 0x054d_3536_5399_48d0, 0x8c7b_5fd9_1a79_4ca0, 0x431d_67c4_9c10_0d4c, 0x8226_9d4a_883a_3d99) == 0xa7f1_8342_4cbb_6e69
    ensures Second(0x33d4_8dab_b552_1de2, 0x2087_8dcd_29cd_faf5, 0x3584_06d1_65ae_e9ab) == 0x20a4_8b29_9ba9_4aad && Add(0xa7f1_8342_4cbb_6e69, 0x20a4_8b29_9ba9_4aad) == 0xc896_0e6b_e864_b916 && Add(0xf15e_9664_b280_3575, 0xa7f1_8342_4cbb_6e69) == 0x9950_19a6_ff3b_a3de
    ensures First(0x8c7b_5fd9_1a79_4ca0, 0x9950_19a6_ff3b_a3de, 0x2ba1_8245_b50d_e4cf, 0x054d_3536_5399_48d0, 0x4cc5_d4be_cb3e_42b6, 0xfdf5_3df3_011f_362b) == 0x9935_f565_2c1f_997b
    ensures Second(0xc896_0e6b_e864_b916, 0x33d4_8dab_b552_1de2, 0x2087_8dcd_29cd_faf5) == 0xcc19_0446_c019_032e && Add(0x9935_f565_2c1f_997b, 0xcc19_0446_c019_032e) == 0x654e_f9ab_ec38_9ca9 && Add(0x3584_06d1_65ae_e9ab, 0x9935_f565_2c1f_997b) == 0xceb9_fc36_91ce_8326
    ensures First(0x054d_3536_5399_48d0, 0xceb9_fc36_91ce_8326, 0x9950_19a6_ff3b_a3de, 0x2ba1_8245_b50d_e4cf, 0x597f_299c_fc65_7e2a, 0x464a_f567_1d71_c12e) == 0x0541_dcaa_3f2d_2fae
    ensures Second(0x654e_f9ab_ec38_9ca9, 0xc896_0e6b_e864_b916, 0x33d4_8dab_b552_1de2) == 0xd136_2a31_4be7_56c9 && Add(0x0541_dcaa_3f2d_2fae, 0xd136_2a31_4be7_56c9) == 0xd678_06db_8b14_8677 && Add(0x2087_8dcd_29cd_faf5, 0x0541_dcaa_3f2d_2fae) == 0x25c9_6a77_68fb_2aa3
    ensures First(0x2ba1_8245_b50d_e4cf, 0x25c9_6a77_68fb_2aa3, 0xceb9_fc36_91ce_8326, 0x9950_19a6_ff3b_a3de, 0x5fcb_6fab_3ad6_faec, 0xe449_b681_98ec_611c) == 0x67e0_45eb_c36e_61bc
    ensures Second(0xd678_06db_8b14_8677, 0x654e_f9ab_ec38_9ca9, 0xc896_0e6b_e864_b916) == 0xa8f9_7ed8_65e7_383a && Add(0x67e0_45eb_c36e_61bc, 0xa8f9_7ed8_65e7_383a) == 0x10d9_c4c4_2955_99f6 && Add(0x33d4_8dab_b552_1de2, 0x67e0_45eb_c36e_61bc) == 0x9bb4_d397_78c0_7f9e
    ensures First(0x9950_19a6_ff3b_a3de, 0x9bb4_d397_78c0_7f9e, 0x25c9_6a77_68fb_2aa3, 0xceb9_fc36_91ce_8326, 0x6c44_198c_4a47_5817, 0x92ae_eed1_a7bc_f7d2) == 0x07ee_383e_9104_85c1
    ensures Second(0x10d9_c4c4_2955_99f6, 0xd678_06db_8b14_8677, 0x654e_f9ab_ec38_9ca9) == 0x6bb7_16fb_0ea0_2bf1 && Add(0x07ee_383e_9104_85c1, 0x6bb7_16fb_0ea0_2bf1) == 0x73a5_4f39_9fa4_b1b2 && Add(0xc896_0e6b_e864_b916, 0x07ee_383e_9104_85c1) == 0xd084_46aa_7969_3ed7
  {
  }

  lemma Constants72()
    ensures K()[72] == 0x28db_77f5_2304_7d84 && K()[73] == 0x32ca_ab7b_40c7_2493
    ensures K()[74] == 0x3c9e_be0a_15c9_bebc && K()[75] == 0x431d_67c4_9c10_0d4c
    ensures K()[76] == 0x4cc5_d4be_cb3e_42b6 && K()[77] == 0x597f_299c_fc65_7e2a
    ensures K()[78] == 0x5fcb_6fab_3ad6_faec && K()[79] == 0x6c44_198c_4a47_5817
  {
    hide K;
    ConstantRow(9);
  }

  lemma After80(b: Block)
    requires IsAbc(b)
    ensures After(b, 80) == Work(0x73a5_4f39_9fa4_b1b2, 0x10d9_c4c4_2955_99f6, 0xd678_06db_8b14_8677, 0x654e_f9ab_ec38_9ca9,
                                 0xd084_46aa_7969_3ed7, 0x9bb4_d397_78c0_7f9e, 0x25c9_6a77_68fb_2aa3, 0xceb9_fc36_91ce_8326)
  {
    hide IsAbc, Word, After, First, Second, Add, K;
    After72(b);
    Words72(b);
    Constants72();
    Turns72();
    Turn(b, 72);
    Turn(b, 73);
    Turn(b, 74);
    Turn(b, 75);
    Turn(b, 76);
    Turn(b, 77);
    Turn(b, 78);
    Turn(b, 79);
  }

  lemma Total()
    ensures Add(0x6a09_e667_f3bc_c908, 0x73a5_4f39_9fa4_b1b2) == 0xddaf_35a1_9361_7aba && Add(0xbb67_ae85_84ca_a73b, 0x10d9_c4c4_2955_99f6) == 0xcc41_7349_ae20_4131
    ensures Add(0x3c6e_f372_fe94_f82b, 0xd678_06db_8b14_8677) == 0x12e6_fa4e_89a9_7ea2 && Add(0xa54f_f53a_5f1d_36f1, 0x654e_f9ab_ec38_9ca9) == 0x0a9e_eee6_4b55_d39a
    ensures Add(0x510e_527f_ade6_82d1, 0xd084_46aa_7969_3ed7) == 0x2192_992a_274f_c1a8 && Add(0x9b05_688c_2b3e_6c1f, 0x9bb4_d397_78c0_7f9e) == 0x36ba_3c23_a3fe_ebbd
    ensures Add(0x1f83_d9ab_fb41_bd6b, 0x25c9_6a77_68fb_2aa3) == 0x454d_4423_643c_e80e && Add(0x5be0_cd19_137e_2179, 0xceb9_fc36_91ce_8326) == 0x2a9a_c94f_a54c_a49f
  {
  }

  lemma Compressed(b: Block)
    requires IsAbc(b)
    ensures Compress(Initial(), b) == [0xddaf_35a1_9361_7aba, 0xcc41_7349_ae20_4131, 0x12e6_fa4e_89a9_7ea2, 0x0a9e_eee6_4b55_d39a,
                                       0x2192_992a_274f_c1a8, 0x36ba_3c23_a3fe_ebbd, 0x454d_4423_643c_e80e, 0x2a9a_c94f_a54c_a49f]
  {
    hide IsAbc, Rounds, K, Add;
    After80(b);
    Total();
  }

  lemma Bytes0()
    ensures BeByte(0xddaf_35a1_9361_7aba, 0) == 0xdd && BeByte(0xddaf_35a1_9361_7aba, 1) == 0xaf && BeByte(0xddaf_35a1_9361_7aba, 2) == 0x35 && BeByte(0xddaf_35a1_9361_7aba, 3) == 0xa1
    ensures BeByte(0xddaf_35a1_9361_7aba, 4) == 0x93 && BeByte(0xddaf_35a1_9361_7aba, 5) == 0x61 && BeByte(0xddaf_35a1_9361_7aba, 6) == 0x7a && BeByte(0xddaf_35a1_9361_7aba, 7) == 0xba
  {
  }

  lemma Bytes1()
    ensures BeByte(0xcc41_7349_ae20_4131, 0) == 0xcc && BeByte(0xcc41_7349_ae20_4131, 1) == 0x41 && BeByte(0xcc41_7349_ae20_4131, 2) == 0x73 && BeByte(0xcc41_7349_ae20_4131, 3) == 0x49
    ensures BeByte(0xcc41_7349_ae20_4131, 4) == 0xae && BeByte(0xcc41_7349_ae20_4131, 5) == 0x20 && BeByte(0xcc41_7349_ae20_4131, 6) == 0x41 && BeByte(0xcc41_7349_ae20_4131, 7) == 0x31
  {
  }

  lemma Bytes2()
    ensures BeByte(0x12e6_fa4e_89a9_7ea2, 0) == 0x12 && BeByte(0x12e6_fa4e_89a9_7ea2, 1) == 0xe6 && BeByte(0x12e6_fa4e_89a9_7ea2, 2) == 0xfa && BeByte(0x12e6_fa4e_89a9_7ea2, 3) == 0x4e
    ensures BeByte(0x12e6_fa4e_89a9_7ea2, 4) == 0x89 && BeByte(0x12e6_fa4e_89a9_7ea2, 5) == 0xa9 && BeByte(0x12e6_fa4e_89a9_7ea2, 6) == 0x7e && BeByte(0x12e6_fa4e_89a9_7ea2, 7) == 0xa2
  {
  }

  lemma Bytes3()
    ensures BeByte(0x0a9e_eee6_4b55_d39a, 0) == 0x0a && BeByte(0x0a9e_eee6_4b55_d39a, 1) == 0x9e && BeByte(0x0a9e_eee6_4b55_d39a, 2) == 0xee && BeByte(0x0a9e_eee6_4b55_d39a, 3) == 0xe6
    ensures BeByte(0x0a9e_eee6_4b55_d39a, 4) == 0x4b && BeByte(0x0a9e_eee6_4b55_d39a, 5) == 0x55 && BeByte(0x0a9e_eee6_4b55_d39a, 6) == 0xd3 && BeByte(0x0a9e_eee6_4b55_d39a, 7) == 0x9a
  {
  }

  lemma Bytes4()
    ensures BeByte(0x2192_992a_274f_c1a8, 0) == 0x21 && BeByte(0x2192_992a_274f_c1a8, 1) == 0x92 && BeByte(0x2192_992a_274f_c1a8, 2) == 0x99 && BeByte(0x2192_992a_274f_c1a8, 3) == 0x2a
    ensures BeByte(0x2192_992a_274f_c1a8, 4) == 0x27 && BeByte(0x2192_992a_274f_c1a8, 5) == 0x4f && BeByte(0x2192_992a_274f_c1a8, 6) == 0xc1 && BeByte(0x2192_992a_274f_c1a8, 7) == 0xa8
  {
  }

  lemma Bytes5()
    ensures BeByte(0x36ba_3c23_a3fe_ebbd, 0) == 0x36 && BeByte(0x36ba_3c23_a3fe_ebbd, 1) == 0xba && BeByte(0x36ba_3c23_a3fe_ebbd, 2) == 0x3c && BeByte(0x36ba_3c23_a3fe_ebbd, 3) == 0x23
    ensures BeByte(0x36ba_3c23_a3fe_ebbd, 4) == 0xa3 && BeByte(0x36ba_3c23_a3fe_ebbd, 5) == 0xfe && BeByte(0x36ba_3c23_a3fe_ebbd, 6) == 0xeb && BeByte(0x36ba_3c23_a3fe_ebbd, 7) == 0xbd
  {
  }

  lemma Bytes6()
    ensures BeByte(0x454d_4423_643c_e80e, 0) == 0x45 && BeByte(0x454d_4423_643c_e80e, 1) == 0x4d && BeByte(0x454d_4423_643c_e80e, 2) == 0x44 && BeByte(0x454d_4423_643c_e80e, 3) == 0x23
    ensures BeByte(0x454d_4423_643c_e80e, 4) == 0x64 && BeByte(0x454d_4423_643c_e80e, 5) == 0x3c && BeByte(0x454d_4423_643c_e80e, 6) == 0xe8 && BeByte(0x454d_4423_643c_e80e, 7) == 0x0e
  {
  }

  lemma Bytes7()
    ensures BeByte(0x2a9a_c94f_a54c_a49f, 0) == 0x2a && BeByte(0x2a9a_c94f_a54c_a49f, 1) == 0x9a && BeByte(0x2a9a_c94f_a54c_a49f, 2) == 0xc9 && BeByte(0x2a9a_c94f_a54c_a49f, 3) == 0x4f
    ensures BeByte(0x2a9a_c94f_a54c_a49f, 4) == 0xa5 && BeByte(0x2a9a_c94f_a54c_a49f, 5) == 0x4c && BeByte(0x2a9a_c94f_a54c_a49f, 6) == 0xa4 && BeByte(0x2a9a_c94f_a54c_a49f, 7) == 0x9f
  {
  }

  lemma OneBlock(p: seq<bv8>)
    requires |p| == 128
    ensures Fold(p, 1) == Compress(Initial(), p)
  {
    hide Compress, Initial;
    assert p[0..128] == p;
    assert Fold(p, 0) == Initial();
  }

  lemma DigestByte(h: Hash, i: nat, r: nat)
    requires i < 8 && r < 8
    ensures Bytes(h)[8 * i + r] == BeByte(h[i], r)
  {
    hide BeByte;
  }

  lemma DigestRow(h: Hash, i: nat)
    requires i < 8
    ensures Bytes(h)[8 * i..8 * i + 8] == [BeByte(h[i], 0), BeByte(h[i], 1), BeByte(h[i], 2), BeByte(h[i], 3),
                                           BeByte(h[i], 4), BeByte(h[i], 5), BeByte(h[i], 6), BeByte(h[i], 7)]
  {
    hide BeByte, Bytes;
    forall r | 0 <= r < 8 ensures Bytes(h)[8 * i..8 * i + 8][r] == BeByte(h[i], r) {
      DigestByte(h, i, r);
    }
  }

  lemma EightRows(s: seq<bv8>)
    requires |s| == 64
    ensures s == s[0..8] + s[8..16] + s[16..24] + s[24..32] + s[32..40] + s[40..48] + s[48..56] + s[56..64]
  {
  }

  /** The digest of "abc", row by row. */
  lemma AbcDigest()
    ensures Digest(Abc()) ==
            [0xdd, 0xaf, 0x35, 0xa1, 0x93, 0x61, 0x7a, 0xba] +
            [0xcc, 0x41, 0x73, 0x49, 0xae, 0x20, 0x41, 0x31] +
            [0x12, 0xe6, 0xfa, 0x4e, 0x89, 0xa9, 0x7e, 0xa2] +
            [0x0a, 0x9e, 0xee, 0xe6, 0x4b, 0x55, 0xd3, 0x9a] +
            [0x21, 0x92, 0x99, 0x2a, 0x27, 0x4f, 0xc1, 0xa8] +
            [0x36, 0xba, 0x3c, 0x23, 0xa3, 0xfe, 0xeb, 0xbd] +
            [0x45, 0x4d, 0x44, 0x23, 0x64, 0x3c, 0xe8, 0x0e] +
            [0x2a, 0x9a, 0xc9, 0x4f, 0xa5, 0x4c, 0xa4, 0x9f]
  {
    hide Compress, BeByte, Bytes, Initial, Fold, Padded, IsAbc;
    PaddedIsAbc();
    var p := Padded(Abc());
    OneBlock(p);
    Compressed(p);
    var h := Fold(p, 1);
    EightRows(Bytes(h));
    DigestRow(h, 0);
    Bytes0();
    DigestRow(h, 1);
    Bytes1();
    DigestRow(h, 2);
    Bytes2();
    DigestRow(h, 3);
    Bytes3();
    DigestRow(h, 4);
    Bytes4();
    DigestRow(h, 5);
    Bytes5();
    DigestRow(h, 6);
    Bytes6();
    DigestRow(h, 7);
    Bytes7();
  }
}
