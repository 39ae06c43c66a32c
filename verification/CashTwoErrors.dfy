/** Two wrong groups in a cashaddr (src/btcswap.cpp, `CashPolyMod`).  What one wrong group
    leaves in the state is, step by step, a sum of five words picked by its bits.  The
    words of sixty steps are tabulated; no sum of them is ever a single group again, so no
    second wrong group can hide the first. */
module CashTwoErrors {
  import opened CashChecksum

  datatype Words = Words(a: Poly, b: Poly, c: Poly, e: Poly, f: Poly)

  /** The words that the bits of `d` pick, added up. */
  function Mix(d: Poly, w: Words): Poly {
    Xor(Xor(Xor(Xor(Tap(d, 0x01, w.a), Tap(d, 0x02, w.b)), Tap(d, 0x04, w.c)), Tap(d, 0x08, w.e)), Tap(d, 0x10, w.f))
  }

  /** The difference that a wrong group makes. */
  predicate Wrong(d: Poly) { Tiny(d) && d != 0 }

  /** `x`, with a word fed back when its bit is set. */
  function Feed(x: Poly, c0: Poly, bit: Poly, word: Poly): Poly { if c0 & bit != 0 then x ^ word else x }

  /** The step on a zero group, as the code writes it. */
  function Roll(s: Poly): Poly {
    var c0 := s >> 35;
    Feed(Feed(Feed(Feed(Feed((s & 0x07_ffff_ffff) << 5,
      c0, 0x01, 0x98_f2bc_8e61),
      c0, 0x02, 0x79_b76d_99e2),
      c0, 0x04, 0xf3_3e5f_b3c4),
      c0, 0x08, 0xae_2eab_e2a8),
      c0, 0x10, 0x1e_4f43_e470)
  }

  lemma FeedIs(x: Poly, c0: Poly, bit: Poly, word: Poly)
    ensures Feed(x, c0, bit, word) == Xor(x, Tap(c0, bit, word))
  {
    XorNone(x);
  }

  lemma RollIs(s: Poly)
    ensures Roll(s) == Step(s, 0)
  {
    hide Feed, Xor, Tap;
    var c0, x := Top(s), Shl(s);
    XorNone(x);
    FeedIs(x, c0, 0x01, 0x98_f2bc_8e61);
    x := Feed(x, c0, 0x01, 0x98_f2bc_8e61);
    FeedIs(x, c0, 0x02, 0x79_b76d_99e2);
    x := Feed(x, c0, 0x02, 0x79_b76d_99e2);
    FeedIs(x, c0, 0x04, 0xf3_3e5f_b3c4);
    x := Feed(x, c0, 0x04, 0xf3_3e5f_b3c4);
    FeedIs(x, c0, 0x08, 0xae_2eab_e2a8);
    x := Feed(x, c0, 0x08, 0xae_2eab_e2a8);
    FeedIs(x, c0, 0x10, 0x1e_4f43_e470);
  }

  function Rolled(s: Poly, k: nat): Poly { if k == 0 then s else Roll(Rolled(s, k - 1)) }

  function RollAll(w: Words): Words { Words(Roll(w.a), Roll(w.b), Roll(w.c), Roll(w.e), Roll(w.f)) }

  // ---- rolling is linear ------------------------------------------------------------

  lemma RollXor(x: Poly, y: Poly)
    ensures Roll(Xor(x, y)) == Xor(Roll(x), Roll(y))
  {
    hide Roll, Step, Xor;
    RollIs(x);
    RollIs(y);
    RollIs(Xor(x, y));
    XorNone(0);
    StepLinear(x, y, 0, 0);
  }

  lemma RollTap(d: Poly, bit: Poly, w: Poly)
    ensures Roll(Tap(d, bit, w)) == Tap(d, bit, Roll(w))
  {
    hide Roll, Step;
    RollIs(0);
    NoFeedbackAtZero(0);
  }

  lemma RollMix(d: Poly, w: Words)
    ensures Roll(Mix(d, w)) == Mix(d, RollAll(w))
  {
    hide Roll, Xor, Tap;
    var a, b, c, e, f := Tap(d, 0x01, w.a), Tap(d, 0x02, w.b), Tap(d, 0x04, w.c), Tap(d, 0x08, w.e), Tap(d, 0x10, w.f);
    RollXor(Xor(Xor(Xor(a, b), c), e), f);
    RollXor(Xor(Xor(a, b), c), e);
    RollXor(Xor(a, b), c);
    RollXor(a, b);
    RollTap(d, 0x01, w.a);
    RollTap(d, 0x02, w.b);
    RollTap(d, 0x04, w.c);
    RollTap(d, 0x08, w.e);
    RollTap(d, 0x10, w.f);
  }

  lemma {:induction false} RolledOn(s: Poly, j: nat, k: nat)
    ensures Rolled(Rolled(s, j), k) == Rolled(s, j + k)
    decreases k
  {
    hide Roll;
    if k > 0 {
      RolledOn(s, j, k - 1);
    }
  }

  // ---- the words of sixty steps ---------------------------------------------------------

  function W0(): Words { Words(0x00_0000_0001, 0x00_0000_0002, 0x00_0000_0004, 0x00_0000_0008, 0x00_0000_0010) }
  function W1(): Words { Words(0x00_0000_0020, 0x00_0000_0040, 0x00_0000_0080, 0x00_0000_0100, 0x00_0000_0200) }
  function W2(): Words { Words(0x00_0000_0400, 0x00_0000_0800, 0x00_0000_1000, 0x00_0000_2000, 0x00_0000_4000) }
  function W3(): Words { Words(0x00_0000_8000, 0x00_0001_0000, 0x00_0002_0000, 0x00_0004_0000, 0x00_0008_0000) }
  function W4(): Words { Words(0x00_0010_0000, 0x00_0020_0000, 0x00_0040_0000, 0x00_0080_0000, 0x00_0100_0000) }
  function W5(): Words { Words(0x00_0200_0000, 0x00_0400_0000, 0x00_0800_0000, 0x00_1000_0000, 0x00_2000_0000) }
  function W6(): Words { Words(0x00_4000_0000, 0x00_8000_0000, 0x01_0000_0000, 0x02_0000_0000, 0x04_0000_0000) }
  function W7(): Words { Words(0x08_0000_0000, 0x10_0000_0000, 0x20_0000_0000, 0x40_0000_0000, 0x80_0000_0000) }
  function W8(): Words { Words(0x98_f2bc_8e61, 0x79_b76d_99e2, 0xf3_3e5f_b3c4, 0xae_2eab_e2a8, 0x1e_4f43_e470) }
  function W9(): Words { Words(0xe1_5d03_3fd3, 0x8a_b896_7aaf, 0x5d_232c_547e, 0xb0_56dc_8cd5, 0x28_adad_9983) }
  function W10(): Words { Words(0x68_ffd0_4f7c, 0xd1_af30_3ff1, 0xeb_0ef0_7aeb, 0x9e_1de0_54f6, 0x7e_7950_0dc5) }
  function W11(): Words { Words(0xda_1841_308d, 0xfc_3082_611a, 0xba_7304_661d, 0x3c_b698_6d33, 0x73_7f24_fe4f) }
  function W12(): Words { Words(0x12_2c1f_00fb, 0x24_0a2a_81df, 0x42_5441_8397, 0x84_a883_0227, 0x4b_4306_016e) }
  function W13(): Words { Words(0x3c_348d_8682, 0x72_7b0f_8824, 0xe4_a69b_9048, 0x8b_5f23_a090, 0x5e_bcd7_4109) }
  function W14(): Words { Words(0x94_ea3e_7407, 0x6b_c668_cc0e, 0xd7_8cc5_bc1c, 0xed_598b_7811, 0x98_f192_d40b) }
  function W15(): Words { Words(0xfa_bfe0_fd72, 0xbd_2f51_5ecd, 0x38_4e32_1cba, 0x70_9c64_395d, 0xe1_38c8_7293) }
  function W16(): Words { Words(0xf5_e679_0cdf, 0xa9_dee6_9997, 0x1b_bdcd_3307, 0x37_2b1e_e32e, 0x64_46b9_e77c) }
  function W17(): Words { Words(0x86_27fb_b71e, 0x4e_5f73_eb35, 0x96_fc77_7763, 0x6f_eaee_4fe6, 0xd5_c7c8_beec) }
  function W18(): Words { Words(0xda_b035_07b0, 0xfd_326a_0a69, 0xb8_76c0_91f2, 0x38_bf81_23cd, 0x71_2f92_42ba) }
  function W19(): Words { Words(0x07_2299_e75b, 0x04_5727_efbf, 0x02_ecdf_7e77, 0x05_8baa_dde7, 0x01_55d1_9fce) }
  function W20(): Words { Words(0xe4_533c_eb60, 0x8a_e4fd_f7e0, 0x5d_9bef_cee0, 0xb1_755b_bce0, 0x2a_ba33_f9c0) }
  function W21(): Words { Words(0xc9_382a_d91c, 0xda_2241_9611, 0xfc_1683_292b, 0xba_6d06_5256, 0x3c_8a9c_05a5) }
  function W22(): Words { Words(0x0f_960f_ab39, 0x15_6c0b_d37b, 0x20_ca03_87ff, 0x41_9407_0af7, 0x83_280e_10e7) }
  function W23(): Words { Words(0x6a_3349_e941, 0xd4_3617_f682, 0xea_7e2f_4c24, 0x9c_ae4a_bc48, 0x7b_4e81_f890) }
  function W24(): Words { Words(0x83_8b75_f72d, 0x4f_147b_4f7a, 0x94_68e2_bffd, 0x6a_c3c5_7af3, 0xd5_851a_54ef) }
  function W25(): Words { Words(0x6f_21fd_01d0, 0xd4_537e_8389, 0xea_e479_8232, 0x9d_9ae7_816d, 0x79_75cf_02da) }
  function W26(): Words { Words(0x21_dde8_e50d, 0x43_b955_ee1a, 0x87_223b_7d3d, 0x4c_5662_de53, 0x92_ecc5_1daf) }
  function W27(): Words { Words(0xc8_8343_1264, 0xd9_0416_21e8, 0xfa_082c_43d0, 0xbc_104c_a6a9, 0x3a_608d_c872) }
  function W28(): Words { Words(0x38_fb36_c439, 0x71_a6fd_2c5b, 0xe3_1fee_d89f, 0x8e_3d59_9517, 0x5e_6a37_aa07) }
  function W29(): Words { Words(0x0d_1d56_2367, 0x10_783c_43ee, 0x20_a26c_a6fc, 0x41_16cd_c8f1, 0x82_2d8f_b5cb) }
  function W30(): Words { Words(0x3b_5878_e281, 0x76_b0e5_e422, 0xe7_73cb_6c44, 0x8c_f712_fc88, 0x5b_feb5_5d10) }
  function W31(): Words { Words(0x79_7492_f467, 0xf2_bb25_4cce, 0xad_26da_3d9c, 0x18_5fa0_fb11, 0x30_bdd1_572b) }
  function W32(): Words { Words(0x92_c77b_ca0f, 0x6d_8c73_b53e, 0xd1_58e7_6a55, 0xea_b1ce_75a3, 0x9d_3318_cf46) }
  function W33(): Words { Words(0x3f_1757_3c72, 0x74_6c3e_78cd, 0xe2_ca68_d59a, 0x8d_94c5_8f1d, 0x59_698b_1b33) }
  function W34(): Words { Words(0xf0_9169_2a07, 0xa9_2056_d12e, 0x1a_12ad_065c, 0x34_254e_89b1, 0x62_5a19_934b) }
  function W35(): Words { Words(0x28_c5ff_6c1e, 0x51_897a_fc15, 0xa3_1071_dc03, 0x0e_20e3_1c06, 0x16_53c6_380c) }
  function W36(): Words { Words(0x73_730e_be65, 0xe6_b699_f9ea, 0x8f_7f27_d7d4, 0x5c_eedf_0ea1, 0xb3_cfaa_9862) }
  function W37(): Words { Words(0x4a_c64e_042e, 0x95_8c88_885c, 0x69_5905_9091, 0xd2_b09b_210b, 0xed_3322_c216) }
  function W38(): Words { Words(0x6e_15d7_e909, 0xd6_693f_7612, 0xee_c2fa_cd2d, 0x9f_c5e1_be5a, 0x7d_c953_79bd) }
  function W39(): Words { Words(0x07_58b5_fe2d, 0x04_f16b_5d7a, 0x03_f252_9edd, 0x07_b6a5_38b3, 0x05_7f4a_714f) }
  function W40(): Words { Words(0xeb_16bf_c5a0, 0x9e_2d6b_af40, 0x7e_4a53_dba0, 0xf6_d4a7_1660, 0xaf_e94e_29e0) }
  function W41(): Words { Words(0xb9_7af3_8f7d, 0x3a_a7e7_1bf3, 0x75_1f5e_32ef, 0xe0_7c38_e0fe, 0x88_aa65_e5d5) }
  function W42(): Words { Words(0x23_6abc_af97, 0x46_876d_da27, 0x87_4c5f_956e, 0x4c_d8ab_aadc, 0x93_f143_d0b1) }
  function W43(): Words { Words(0x9e_69ca_4124, 0x7e_c310_a648, 0xf7_c4b1_49b0, 0xad_c962_3749, 0x19_d054_6bb2) }
  function W44(): Words { Words(0x32_33da_d773, 0x64_3731_8fef, 0xc2_7ef3_1afe, 0xcc_afe6_30f5, 0xdb_4f5c_61c3) }
  function W45(): Words { Words(0xcc_f268_c446, 0xdb_f6c5_ac8c, 0xff_bf8b_5918, 0xbd_6f92_9619, 0x38_cfb5_293b) }
  function W46(): Words { Words(0xb6_de4c_0079, 0x2f_fc8c_80db, 0x55_eb0d_819f, 0xa1_c69f_8317, 0x0b_8d2b_8327) }
  function W47(): Words { Words(0x4f_0ff1_c176, 0x94_5d73_26c5, 0x6a_f876_48aa, 0xd5_a2ec_3554, 0xe9_57cc_ea81) }
  function W48(): Words { Words(0xd7_222f_4209, 0xec_564a_a532, 0x9a_ec81_ca4d, 0x7d_8b03_35ba, 0xf1_5496_6b5d) }
  function W49(): Words { Words(0x2d_936d_de1a, 0x51_645f_9d3d, 0xa2_9aab_ba53, 0x0d_3543_f1af, 0x10_7a17_475e) }
  function W50(): Words { Words(0xd9_a158_fee5, 0xfb_1235_dcea, 0xbe_246b_1dd4, 0x3e_5ac2_bb81, 0x76_f585_7222) }
  function W51(): Words { Words(0x65_0f26_cdfb, 0xc0_5cdd_3fdf, 0xc8_b9ae_fab7, 0xd9_23d9_d467, 0xfa_1737_8cce) }
  function W52(): Words { Words(0xfc_f42d_ee0c, 0xbb_fa4f_fd38, 0x3f_a68b_de59, 0x75_5f03_9dbb, 0xe0_fc97_3b5f) }
  function W53(): Words { Words(0x3c_9fdb_631f, 0x73_7d32_e737, 0xe6_aaf5_6f67, 0x8f_47ea_7fee, 0x5c_cd50_defc) }
  function W54(): Words { Words(0x81_80e2_c7a7, 0x4b_01c5_2e6e, 0x96_011a_59fc, 0x6e_40b0_97d1, 0xd6_c161_2aab) }
  function W55(): Words { Words(0x2e_531b_1090, 0x56_e4b2_a109, 0xa7_db65_4212, 0x0d_f45a_252d, 0x11_faa0_ca5a) }
  function W56(): Words { Words(0xa1_af81_2fa5, 0x0b_0f92_5a6a, 0x16_1db4_15f4, 0x26_79f8_2bc1, 0x46_e374_d2a2) }
  function W57(): Words { Words(0xd8_8139_a314, 0xf9_00f7_c321, 0xba_01ef_2762, 0x3c_015a_cbe4, 0x72_4031_b6e8) }
  function W58(): Words { Words(0x41_030d_73db, 0x82_049e_c6bf, 0x4c_0929_ac77, 0x92_50d7_d8c7, 0x6c_a1af_158e) }
  function W59(): Words { Words(0x8e_4f05_99c8, 0x5e_dc9b_3390, 0xb7_f922_e229, 0x2d_e2d5_6572, 0x51_d7aa_6ecd) }
  function W60(): Words { Words(0x4f_5d4c_5311, 0x94_f81c_872b, 0x6b_e22d_8b76, 0xd7_964f_93e5, 0xed_6c8b_a2ea) }

  /** Every fourth row. */
  function Fourth(q: nat): Words {
    match q
    case 0 => W0() case 1 => W4() case 2 => W8() case 3 => W12()
    case 4 => W16() case 5 => W20() case 6 => W24() case 7 => W28()
    case 8 => W32() case 9 => W36() case 10 => W40() case 11 => W44()
    case 12 => W48() case 13 => W52() case 14 => W56() case _ => W60()
  }

  /** The next row is the table's, and no sum of it is a single group. */
  predicate Good(d: Poly, a: Words, b: Words) { RollAll(a) == b && !Tiny(Mix(d, b)) }

  lemma Rows0(d: Poly)
    requires Wrong(d)
    ensures Good(d, W0(), W1()) && Good(d, W1(), W2())
    ensures Good(d, W2(), W3()) && Good(d, W3(), W4())
  {
  }

  lemma Rows4(d: Poly)
    requires Wrong(d)
    ensures Good(d, W4(), W5()) && Good(d, W5(), W6())
    ensures Good(d, W6(), W7()) && Good(d, W7(), W8())
  {
  }

  lemma Rows8(d: Poly)
    requires Wrong(d)
    ensures Good(d, W8(), W9()) && Good(d, W9(), W10())
    ensures Good(d, W10(), W11()) && Good(d, W11(), W12())
  {
  }

  lemma Rows12(d: Poly)
    requires Wrong(d)
    ensures Good(d, W12(), W13()) && Good(d, W13(), W14())
    ensures Good(d, W14(), W15()) && Good(d, W15(), W16())
  {
  }

  lemma Rows16(d: Poly)
    requires Wrong(d)
    ensures Good(d, W16(), W17()) && Good(d, W17(), W18())
    ensures Good(d, W18(), W19()) && Good(d, W19(), W20())
  {
  }

  lemma Rows20(d: Poly)
    requires Wrong(d)
    ensures Good(d, W20(), W21()) && Good(d, W21(), W22())
    ensures Good(d, W22(), W23()) && Good(d, W23(), W24())
  {
  }

  lemma Rows24(d: Poly)
    requires Wrong(d)
    ensures Good(d, W24(), W25()) && Good(d, W25(), W26())
    ensures Good(d, W26(), W27()) && Good(d, W27(), W28())
  {
  }

  lemma Rows28(d: Poly)
    requires Wrong(d)
    ensures Good(d, W28(), W29()) && Good(d, W29(), W30())
    ensures Good(d, W30(), W31()) && Good(d, W31(), W32())
  {
  }

  lemma Rows32(d: Poly)
    requires Wrong(d)
    ensures Good(d, W32(), W33()) && Good(d, W33(), W34())
    ensures Good(d, W34(), W35()) && Good(d, W35(), W36())
  {
  }

  lemma Rows36(d: Poly)
    requires Wrong(d)
    ensures Good(d, W36(), W37()) && Good(d, W37(), W38())
    ensures Good(d, W38(), W39()) && Good(d, W39(), W40())
  {
  }

  lemma Rows40(d: Poly)
    requires Wrong(d)
    ensures Good(d, W40(), W41()) && Good(d, W41(), W42())
    ensures Good(d, W42(), W43()) && Good(d, W43(), W44())
  {
  }

  lemma Rows44(d: Poly)
    requires Wrong(d)
    ensures Good(d, W44(), W45()) && Good(d, W45(), W46())
    ensures Good(d, W46(), W47()) && Good(d, W47(), W48())
  {
  }

  lemma Rows48(d: Poly)
    requires Wrong(d)
    ensures Good(d, W48(), W49()) && Good(d, W49(), W50())
    ensures Good(d, W50(), W51()) && Good(d, W51(), W52())
  {
  }

  lemma Rows52(d: Poly)
    requires Wrong(d)
    ensures Good(d, W52(), W53()) && Good(d, W53(), W54())
    ensures Good(d, W54(), W55()) && Good(d, W55(), W56())
  {
  }

  lemma Rows56(d: Poly)
    requires Wrong(d)
    ensures Good(d, W56(), W57()) && Good(d, W57(), W58())
    ensures Good(d, W58(), W59()) && Good(d, W59(), W60())
  {
  }

  /** Four steps on from `s`, none of them at a single group. */
  ghost predicate Clear(s: Poly) { forall k: nat :: 1 <= k <= 4 ==> !Tiny(Rolled(s, k)) }

  lemma Follow(d: Poly, s: Poly, w0: Words, w1: Words, w2: Words, w3: Words, w4: Words)
    requires s == Mix(d, w0) && Good(d, w0, w1) && Good(d, w1, w2) && Good(d, w2, w3) && Good(d, w3, w4)
    ensures Clear(s) && Rolled(s, 4) == Mix(d, w4)
  {
    hide Roll, RollAll, Mix, Tiny;
    RollMix(d, w0);
    RollMix(d, w1);
    RollMix(d, w2);
    RollMix(d, w3);
    assert Rolled(s, 1) == Mix(d, w1);
    assert Rolled(s, 2) == Mix(d, w2);
    assert Rolled(s, 3) == Mix(d, w3);
    assert Rolled(s, 4) == Mix(d, w4);
  }

  lemma FourRows(d: Poly, q: nat, s: Poly)
    requires Wrong(d) && q < 15 && s == Mix(d, Fourth(q))
    ensures Clear(s) && Rolled(s, 4) == Mix(d, Fourth(q + 1))
  {
    hide *;
    FourthIs();
    match q {
      case 0 =>
        Rows0(d);
        Follow(d, s, W0(), W1(), W2(), W3(), W4());
      case 1 =>
        Rows4(d);
        Follow(d, s, W4(), W5(), W6(), W7(), W8());
      case 2 =>
        Rows8(d);
        Follow(d, s, W8(), W9(), W10(), W11(), W12());
      case 3 =>
        Rows12(d);
        Follow(d, s, W12(), W13(), W14(), W15(), W16());
      case 4 =>
        Rows16(d);
        Follow(d, s, W16(), W17(), W18(), W19(), W20());
      case 5 =>
        Rows20(d);
        Follow(d, s, W20(), W21(), W22(), W23(), W24());
      case 6 =>
        Rows24(d);
        Follow(d, s, W24(), W25(), W26(), W27(), W28());
      case 7 =>
        Rows28(d);
        Follow(d, s, W28(), W29(), W30(), W31(), W32());
      case 8 =>
        Rows32(d);
        Follow(d, s, W32(), W33(), W34(), W35(), W36());
      case 9 =>
        Rows36(d);
        Follow(d, s, W36(), W37(), W38(), W39(), W40());
      case 10 =>
        Rows40(d);
        Follow(d, s, W40(), W41(), W42(), W43(), W44());
      case 11 =>
        Rows44(d);
        Follow(d, s, W44(), W45(), W46(), W47(), W48());
      case 12 =>
        Rows48(d);
        Follow(d, s, W48(), W49(), W50(), W51(), W52());
      case 13 =>
        Rows52(d);
        Follow(d, s, W52(), W53(), W54(), W55(), W56());
      case _ =>
        Rows56(d);
        Follow(d, s, W56(), W57(), W58(), W59(), W60());
    }
  }

  /** What a wrong group leaves is the sum of the table's words that its bits pick. */
  lemma {:induction false} Past(d: Poly, q: nat)
    requires Wrong(d) && q < 15
    ensures Clear(Rolled(d, 4 * q)) && Rolled(d, 4 * q + 4) == Mix(d, Fourth(q + 1))
    decreases q
  {
    hide *;
    if q == 0 {
      Start(d);
    } else {
      Past(d, q - 1);
    }
    FourRows(d, q, Rolled(d, 4 * q));
    RolledOn(d, 4 * q, 4);
  }

  lemma FourthIs()
    ensures Fourth(0) == W0() && Fourth(1) == W4() && Fourth(2) == W8() && Fourth(3) == W12()
    ensures Fourth(4) == W16() && Fourth(5) == W20() && Fourth(6) == W24() && Fourth(7) == W28()
    ensures Fourth(8) == W32() && Fourth(9) == W36() && Fourth(10) == W40() && Fourth(11) == W44()
    ensures Fourth(12) == W48() && Fourth(13) == W52() && Fourth(14) == W56() && Fourth(15) == W60()
  {
  }

  lemma Start(d: Poly)
    requires Wrong(d)
    ensures Rolled(d, 0) == Mix(d, Fourth(0))
  {
    hide Roll;
  }

  /** Followed over sixty steps, a wrong group never looks like a single group. */
  lemma SixtySteps(d: Poly, k: nat)
    requires Wrong(d) && 1 <= k <= 60
    ensures !Tiny(Rolled(d, k))
  {
    hide *;
    var q := (k - 1) / 4;
    Past(d, q);
    ClearAt(Rolled(d, 4 * q), k - 4 * q);
    RolledOn(d, 4 * q, k - 4 * q);
  }

  lemma ClearAt(s: Poly, k: nat)
    requires Clear(s) && 1 <= k <= 4
    ensures !Tiny(Rolled(s, k))
  {
  }

  // ---- the checksum ------------------------------------------------------------------------

  lemma {:induction false} RolledZeros(s: Poly, k: nat)
    ensures PolyFrom(s, Zeros(k)) == Rolled(s, k)
    decreases k
  {
    hide Step, Roll;
    if k > 0 {
      RollIs(s);
      RolledZeros(Roll(s), k - 1);
      RolledOn(s, 1, k - 1);
      BvZero();
      assert Zeros(k)[0] == 0 && Zeros(k)[1..] == Zeros(k - 1);
      assert Rolled(s, 1) == Roll(Rolled(s, 0));
    }
  }

  lemma BvZero()
    ensures Bv(0) == 0
  {
  }

  /** Two wrong groups, up to sixty apart, are always noticed. */
  lemma TwoErrorsNoticed(v: seq<Group>, i: nat, j: nat, g: Group, h: Group)
    requires i < j < |v| && j - i <= 60 && g != v[i] && h != v[j] && PolyMod(v) == 0
    ensures PolyMod(v[i := g][j := h]) != 0
  {
    hide PolyFrom, Step, Xor, Bv, Wrong, Tiny, Rolled;
    var w := v[i := g][j := h];
    var mid, tail := v[i + 1..j], v[j + 1..];
    var c := PolyFrom(1, v[..i]);
    var x, y := Along(c, v[i], mid, v[j], tail), Along(c, g, mid, h, tail);
    assert v == v[..i] + [v[i]] + mid + [v[j]] + tail;
    assert w == v[..i] + [g] + mid + [h] + tail;
    AlongIs(1, v[..i], v[i], mid, v[j], tail);
    AlongIs(1, v[..i], g, mid, h, tail);
    XorZero(PolyFrom(1, v), 1);
    XorZero(PolyFrom(1, w), 1);
    if PolyMod(w) == 0 {
      assert x == y;
      TwoApart(c, v[i], g, mid, v[j], h, tail);
    }
  }

  /** The state after one group, a stretch, another group and the rest. */
  function Along(c: Poly, a: Group, mid: seq<Group>, b: Group, tail: seq<Group>): Poly {
    PolyFrom(Step(PolyFrom(Step(c, Bv(a)), mid), Bv(b)), tail)
  }

  lemma AlongIs(s: Poly, front: seq<Group>, a: Group, mid: seq<Group>, b: Group, tail: seq<Group>)
    ensures PolyFrom(s, front + [a] + mid + [b] + tail) == Along(PolyFrom(s, front), a, mid, b, tail)
  {
    hide PolyFrom, Step;
    PolyConcat(s, front + [a] + mid + [b], tail);
    PolyLast(s, front + [a] + mid, b);
    PolyConcat(s, front + [a], mid);
    PolyLast(s, front, a);
  }

  lemma TwoApart(c: Poly, a: Group, g: Group, mid: seq<Group>, b: Group, h: Group, tail: seq<Group>)
    requires a != g && |mid| < 60
    ensures Along(c, a, mid, b, tail) != Along(c, g, mid, h, tail)
  {
    hide PolyFrom, Step, Xor, Bv, Wrong, Tiny, Rolled;
    var d, e := Xor(Bv(a), Bv(g)), Xor(Bv(b), Bv(h));
    var x, y := Step(c, Bv(a)), Step(c, Bv(g));
    Differ(a, g);
    Differ(b, h);
    OneStep(c, Bv(a), Bv(g));
    var p, q := PolyFrom(x, mid), PolyFrom(y, mid);
    XorBack(x, y);
    PolySplit(d, y, mid);
    RolledZeros(d, |mid|);
    assert p == Xor(Rolled(d, |mid|), q);
    XorBack(Rolled(d, |mid|), q);
    StepLinear(p, q, Bv(b), Bv(h));
    if Along(c, a, mid, b, tail) == Along(c, g, mid, h, tail) {
      PolyInjective(Step(p, Bv(b)), Step(q, Bv(h)), tail);
      XorZero(Step(p, Bv(b)), Step(q, Bv(h)));
      LandsTiny(Rolled(d, |mid|), e);
      RolledStep(d, |mid|);
      SixtySteps(d, |mid| + 1);
    }
  }

  lemma RolledStep(d: Poly, k: nat)
    ensures Rolled(d, k + 1) == Step(Rolled(d, k), 0)
  {
    hide Step, Roll;
    RollIs(Rolled(d, k));
  }

  /** A step that a tiny input cancels lands on that input. */
  lemma LandsTiny(s: Poly, e: Poly)
    requires Step(s, e) == 0 && Tiny(e)
    ensures Tiny(Step(s, 0))
  {
    hide Step, Xor, Tiny;
    XorNone(s);
    XorNone(e);
    StepLinear(s, 0, 0, e);
    NoFeedbackAtZero(e);
    XorZero(Step(s, 0), e);
  }

  lemma OneStep(c: Poly, a: Poly, g: Poly)
    ensures Xor(Step(c, a), Step(c, g)) == Xor(a, g)
  {
    hide Step, Xor;
    StepLinear(c, c, a, g);
    XorSelf(c);
    NoFeedbackAtZero(Xor(a, g));
  }

  lemma Differ(a: Group, g: Group)
    ensures Tiny(Xor(Bv(a), Bv(g))) && (a != g ==> Wrong(Xor(Bv(a), Bv(g))))
  {
    hide Xor, Bv, Tiny;
    GroupRoundTrip(a);
    GroupRoundTrip(g);
    TinyXor(Bv(a), Bv(g));
    XorZero(Bv(a), Bv(g));
  }

  lemma TinyXor(x: Poly, y: Poly)
    requires Tiny(x) && Tiny(y)
    ensures Tiny(Xor(x, y))
  {
  }
}
