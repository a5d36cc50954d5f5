/**
 Published values of the Salsa20 core: the quarter rounds given with the definition of
 Salsa20 and the test vector of section 8 of RFC 7914, round by round.
 */
module ScryptVectors {
  import opened Scrypt

  lemma QuarterVectors()
    ensures Quarter((1, 0, 0, 0)) == (0x0800_8145, 0x0000_0080, 0x0001_0200, 0x2050_0000)
    ensures Quarter((0, 1, 0, 0)) == (0x8800_0100, 0x0000_0001, 0x0000_0200, 0x0040_2000)
    ensures Quarter((0, 0, 1, 0)) == (0x8004_0000, 0x0000_0000, 0x0000_0001, 0x0000_2000)
    ensures Quarter((0, 0, 0, 1)) == (0x0004_8044, 0x0000_0080, 0x0001_0000, 0x2010_0001)
    ensures Quarter((0xe7e8_c006, 0xc4f9_417d, 0x6479_b4b2, 0x68c6_7137))
      == (0xe876_d72b, 0x9361_dfd5, 0xf146_0244, 0x9485_41a3)
    ensures Quarter((0xd391_7c5b, 0x55f1_c407, 0x52a5_8a7a, 0x8f88_7a3b))
      == (0x3e2f_308c, 0xd90a_8f36, 0x6ab2_a923, 0x2883_524c)
  {
  }

  /** The input of the vector as little-endian words, and the matrix after each of its rounds. */
  const AFTER0: Words :=
    [0x219a_877e, 0x86c9_3e4f, 0xe640_a97c, 0x268f_7141,
     0x5b55_eeba, 0xb5c1_618c, 0x1146_f80d, 0x1d3b_cd6d,
     0x19f3_24ee, 0x853d_9bdf, 0x4b1e_1214, 0x32aa_c55a,
     0x291d_0276, 0x2948_c709, 0x8dc6_ebed, 0x5ec2_b8b8]
  const AFTER1: Words :=
    [0x0885_7f83, 0xbc4d_ffa4, 0x225a_0768, 0x9030_7809,
     0x0091_149f, 0xc3e5_4d59, 0xd113_843e, 0xfb5a_4eb0,
     0x4ecb_1eaa, 0xc072_7641, 0x6585_dfa2, 0x6a7d_f42b,
     0xaf74_2b9d, 0x4ee7_5de5, 0xbf43_fb43, 0x55af_2fd9]
  const AFTER2: Words :=
    [0x4826_65b1, 0xe6b6_39e8, 0x5528_d0b6, 0x7163_bf72,
     0x9358_0e01, 0x0c50_b5fd, 0xea23_785c, 0xead1_25ec,
     0xf701_a95d, 0xd590_a7ea, 0x209a_edeb, 0x9657_05b9,
     0xd6e1_a597, 0x6f4d_bdbc, 0x5329_9386, 0x10a4_2604]
  const AFTER3: Words :=
    [0xb4cf_7248, 0xb8e7_9720, 0x3e13_0cef, 0x0cf6_61a1,
     0x175d_aa0e, 0xde3b_d4f1, 0x5dbd_3119, 0xdfde_6fd7,
     0xff1e_d7e2, 0x56e7_5513, 0xd8b8_82ab, 0x0c78_1823,
     0x46df_a758, 0x1f5b_9d7a, 0x0c1a_b003, 0x0f4f_975e]
  const AFTER4: Words :=
    [0xe9e6_7835, 0x5a0e_63c0, 0x85bf_1cf2, 0xbce0_3a58,
     0x95e0_2c9d, 0x10a3_3116, 0x9102_4ee3, 0xa399_c709,
     0x678d_68da, 0x70e6_9077, 0x3dff_e364, 0xc393_c734,
     0xf3fc_17d5, 0x8805_fb7c, 0x4e70_9f83, 0x64b0_ce84]
  const AFTER5: Words :=
    [0xfbef_1227, 0x12c7_89d1, 0x5680_8ce8, 0x9eaa_e64c,
     0x64a8_29f3, 0x43db_dd85, 0xd82b_ca5e, 0x14f0_670f,
     0x7ac9_3847, 0x282c_fb42, 0x60e7_59d5, 0xaa38_b147,
     0xdfbb_4c3b, 0x285d_4b0d, 0xcf69_bc64, 0x05ea_3220]
  const AFTER6: Words :=
    [0x28f2_a180, 0x5e3b_b01c, 0x0304_0a5c, 0x69e5_ea6b,
     0x997f_9f3c, 0x1c65_0ad9, 0x9a28_760a, 0x1c57_78b3,
     0x89e1_8946, 0x5055_ce7c, 0x3fec_3108, 0x2012_3a83,
     0x764c_0e51, 0x44dd_a9f5, 0xf861_6b01, 0x5632_c6dc]
  const AFTER7: Words :=
    [0xb0e9_8b83, 0x346a_63e9, 0x3d22_e238, 0x4b65_45d0,
     0x0628_77f3, 0x1abe_5aed, 0x22bc_f3e0, 0x2c4e_21f0,
     0xbfd3_6f18, 0x0008_b4c1, 0x678d_4e77, 0x4cea_3475,
     0x0aad_76ee, 0x9fa2_9dcd, 0xf232_e26c, 0x0fa7_223d]
  const AFTER8: Words :=
    [0x7aea_9826, 0x1302_ca17, 0xe589_d7bf, 0xdf5f_9ac1,
     0x25cb_5c4a, 0xc772_9c16, 0x51d5_83f0, 0x0bf3_9b29,
     0x4e3e_14c6, 0x37a9_2e04, 0x6ca7_59ea, 0x87eb_a846,
     0xe7af_226e, 0x332b_ca23, 0xafa0_c137, 0x22cc_a90f]

  const OUTPUT_WORDS: Words :=
    [0x9c85_1fa4, 0x99cc_0866, 0xcbca_813b, 0x05ef_0c02,
     0x8121_4b04, 0x7d33_fda2, 0x631c_7bfd, 0x292f_6896,
     0x6831_39b4, 0xbce6_c9e3, 0xb7c5_6bfe, 0xba96_6da0,
     0x10cc_24e4, 0x5c74_912c, 0x3d67_ad24, 0x818f_61c7]

  const INPUT0: Bytes :=
    [0x7e, 0x87, 0x9a, 0x21, 0x4f, 0x3e, 0xc9, 0x86, 0x7c, 0xa9, 0x40, 0xe6, 0x41, 0x71, 0x8f, 0x26]
  const INPUT1: Bytes :=
    [0xba, 0xee, 0x55, 0x5b, 0x8c, 0x61, 0xc1, 0xb5, 0x0d, 0xf8, 0x46, 0x11, 0x6d, 0xcd, 0x3b, 0x1d]
  const INPUT2: Bytes :=
    [0xee, 0x24, 0xf3, 0x19, 0xdf, 0x9b, 0x3d, 0x85, 0x14, 0x12, 0x1e, 0x4b, 0x5a, 0xc5, 0xaa, 0x32]
  const INPUT3: Bytes :=
    [0x76, 0x02, 0x1d, 0x29, 0x09, 0xc7, 0x48, 0x29, 0xed, 0xeb, 0xc6, 0x8d, 0xb8, 0xb8, 0xc2, 0x5e]
  const INPUT: Bytes := (INPUT0 + INPUT1) + (INPUT2 + INPUT3)

  const OUTPUT0: Bytes :=
    [0xa4, 0x1f, 0x85, 0x9c, 0x66, 0x08, 0xcc, 0x99, 0x3b, 0x81, 0xca, 0xcb, 0x02, 0x0c, 0xef, 0x05]
  const OUTPUT1: Bytes :=
    [0x04, 0x4b, 0x21, 0x81, 0xa2, 0xfd, 0x33, 0x7d, 0xfd, 0x7b, 0x1c, 0x63, 0x96, 0x68, 0x2f, 0x29]
  const OUTPUT2: Bytes :=
    [0xb4, 0x39, 0x31, 0x68, 0xe3, 0xc9, 0xe6, 0xbc, 0xfe, 0x6b, 0xc5, 0xb7, 0xa0, 0x6d, 0x96, 0xba]
  const OUTPUT3: Bytes :=
    [0xe4, 0x24, 0xcc, 0x10, 0x2c, 0x91, 0x74, 0x5c, 0x24, 0xad, 0x67, 0x3d, 0xc7, 0x61, 0x8f, 0x81]
  const OUTPUT: Bytes := (OUTPUT0 + OUTPUT1) + (OUTPUT2 + OUTPUT3)

  lemma Round1()
    ensures ColumnRound(AFTER0) == AFTER1
  {
  }

  lemma Round2()
    ensures RowRound(AFTER1) == AFTER2
  {
  }

  lemma Round3()
    ensures ColumnRound(AFTER2) == AFTER3
  {
  }

  lemma Round4()
    ensures RowRound(AFTER3) == AFTER4
  {
  }

  lemma Round5()
    ensures ColumnRound(AFTER4) == AFTER5
  {
  }

  lemma Round6()
    ensures RowRound(AFTER5) == AFTER6
  {
  }

  lemma Round7()
    ensures ColumnRound(AFTER6) == AFTER7
  {
  }

  lemma Round8()
    ensures RowRound(AFTER7) == AFTER8
  {
  }

  lemma SameSixteen(x: Words, y: Words)
    requires |x| == 16 && |y| == 16
    requires x[0] == y[0] && x[1] == y[1] && x[2] == y[2] && x[3] == y[3]
    requires x[4] == y[4] && x[5] == y[5] && x[6] == y[6] && x[7] == y[7]
    requires x[8] == y[8] && x[9] == y[9] && x[10] == y[10] && x[11] == y[11]
    requires x[12] == y[12] && x[13] == y[13] && x[14] == y[14] && x[15] == y[15]
    ensures x == y
  {
  }

  lemma RowOfWords(b: Bytes)
    requires |b| == 16
    ensures WordsOf(b) == [WordFrom(b[0], b[1], b[2], b[3]), WordFrom(b[4], b[5], b[6], b[7]),
      WordFrom(b[8], b[9], b[10], b[11]), WordFrom(b[12], b[13], b[14], b[15])]
  {
    hide WordFrom;
  }

  lemma WordsJoin(a: Bytes, b: Bytes)
    requires |a| % 4 == 0
    ensures WordsOf(a + b) == WordsOf(a) + WordsOf(b)
  {
    hide WordFrom;
  }

  lemma FourRows(a: Bytes, b: Bytes, c: Bytes, d: Bytes)
    requires |a| == |b| == |c| == |d| == 16
    ensures WordsOf((a + b) + (c + d)) == (WordsOf(a) + WordsOf(b)) + (WordsOf(c) + WordsOf(d))
  {
    WordsJoin(a, b);
    WordsJoin(c, d);
    WordsJoin(a + b, c + d);
    hide WordsOf;
  }

  lemma InputRow0()
    ensures WordsOf(INPUT0) == [0x219a_877e, 0x86c9_3e4f, 0xe640_a97c, 0x268f_7141]
  {
    RowOfWords(INPUT0);
    hide WordsOf;
  }

  lemma InputRow1()
    ensures WordsOf(INPUT1) == [0x5b55_eeba, 0xb5c1_618c, 0x1146_f80d, 0x1d3b_cd6d]
  {
    RowOfWords(INPUT1);
    hide WordsOf;
  }

  lemma InputRow2()
    ensures WordsOf(INPUT2) == [0x19f3_24ee, 0x853d_9bdf, 0x4b1e_1214, 0x32aa_c55a]
  {
    RowOfWords(INPUT2);
    hide WordsOf;
  }

  lemma InputRow3()
    ensures WordsOf(INPUT3) == [0x291d_0276, 0x2948_c709, 0x8dc6_ebed, 0x5ec2_b8b8]
  {
    RowOfWords(INPUT3);
    hide WordsOf;
  }

  lemma OutputRow0()
    ensures WordsOf(OUTPUT0) == [0x9c85_1fa4, 0x99cc_0866, 0xcbca_813b, 0x05ef_0c02]
  {
    RowOfWords(OUTPUT0);
    hide WordsOf;
  }

  lemma OutputRow1()
    ensures WordsOf(OUTPUT1) == [0x8121_4b04, 0x7d33_fda2, 0x631c_7bfd, 0x292f_6896]
  {
    RowOfWords(OUTPUT1);
    hide WordsOf;
  }

  lemma OutputRow2()
    ensures WordsOf(OUTPUT2) == [0x6831_39b4, 0xbce6_c9e3, 0xb7c5_6bfe, 0xba96_6da0]
  {
    RowOfWords(OUTPUT2);
    hide WordsOf;
  }

  lemma OutputRow3()
    ensures WordsOf(OUTPUT3) == [0x10cc_24e4, 0x5c74_912c, 0x3d67_ad24, 0x818f_61c7]
  {
    RowOfWords(OUTPUT3);
    hide WordsOf;
  }

  lemma InputWords()
    ensures WordsOf(INPUT) == AFTER0
  {
    FourRows(INPUT0, INPUT1, INPUT2, INPUT3);
    InputRow0();
    InputRow1();
    InputRow2();
    InputRow3();
    SameSixteen(WordsOf(INPUT), AFTER0);
    hide WordsOf;
  }

  lemma OutputWords()
    ensures WordsOf(OUTPUT) == OUTPUT_WORDS
  {
    FourRows(OUTPUT0, OUTPUT1, OUTPUT2, OUTPUT3);
    OutputRow0();
    OutputRow1();
    OutputRow2();
    OutputRow3();
    SameSixteen(WordsOf(OUTPUT), OUTPUT_WORDS);
    hide WordsOf;
  }

  lemma Added()
    ensures AddWords(AFTER0, AFTER8) == OUTPUT_WORDS
  {
    SameSixteen(AddWords(AFTER0, AFTER8), OUTPUT_WORDS);
  }

  lemma Doubled()
    ensures DoubleRounds(AFTER0, 4) == AFTER8
  {
    Round1();
    Round2();
    Round3();
    Round4();
    Round5();
    Round6();
    Round7();
    Round8();
    FourDoubleRounds(AFTER0, AFTER2, AFTER4, AFTER6, AFTER8);
    hide ColumnRound, RowRound, DoubleRounds;
  }

  lemma FourDoubleRounds(x: Words, a: Words, b: Words, c: Words, d: Words)
    requires |x| == |a| == |b| == |c| == |d| == 16
    requires a == RowRound(ColumnRound(x)) && b == RowRound(ColumnRound(a))
    requires c == RowRound(ColumnRound(b)) && d == RowRound(ColumnRound(c))
    ensures DoubleRounds(x, 4) == d
  {
    hide *;
    RoundsStart(x);
    RoundsNext(x, 0);
    RoundsNext(x, 1);
    RoundsNext(x, 2);
    RoundsNext(x, 3);
  }

  lemma FourOctets(b0: bv8, b1: bv8, b2: bv8, b3: bv8)
    ensures BytesOfWord(WordFrom(b0, b1, b2, b3)) == [b0, b1, b2, b3]
  {
  }

  lemma WordsOfFront(b: Bytes)
    requires |b| > 0 && |b| % 4 == 0
    ensures |WordsOf(b)| > 0 && WordsOf(b)[..|b| / 4 - 1] == WordsOf(b[..|b| - 4])
    ensures WordsOf(b)[|b| / 4 - 1] == WordFrom(b[|b| - 4], b[|b| - 3], b[|b| - 2], b[|b| - 1])
  {
    hide WordFrom;
  }

  /** Octets read as words and written out are the same octets. */
  lemma {:induction false} OctetsRoundTrip(b: Bytes)
    requires |b| % 4 == 0
    ensures BytesOf(WordsOf(b)) == b
  {
    if |b| > 0 {
      WordsOfFront(b);
      FourOctets(b[|b| - 4], b[|b| - 3], b[|b| - 2], b[|b| - 1]);
      hide WordsOf, WordFrom, BytesOfWord;
      OctetsRoundTrip(b[..|b| - 4]);
      assert b == b[..|b| - 4] + [b[|b| - 4], b[|b| - 3], b[|b| - 2], b[|b| - 1]];
    }
  }

  /** The 64 octets of the vector, read, put through Salsa20/8 and written. */
  lemma SalsaVector()
    ensures BytesOf(Salsa(WordsOf(INPUT))) == OUTPUT
  {
    hide Salsa, WordsOf, BytesOf, AddWords, DoubleRounds;
    InputWords();
    OutputWords();
    Doubled();
    Added();
    SalsaIs(AFTER0);
    ReadMixWrite(INPUT, OUTPUT, AFTER0, OUTPUT_WORDS);
  }

  lemma ReadMixWrite(a: Bytes, b: Bytes, x: Words, y: Words)
    requires WordsOf(a) == x && WordsOf(b) == y && |x| == 16 && |b| % 4 == 0 && Salsa(x) == y
    ensures BytesOf(Salsa(WordsOf(a))) == b
  {
    hide *;
    OctetsRoundTrip(b);
  }

  // ---------------------------------------------------------------- the order of blocks

  /** Four blocks mixed: each output is fed to the next, and the even ones come out first. */
  lemma MixOfFour(s: Words)
    requires |s| == 64
    ensures var y0 := Salsa(XorWords(s[48..], s[..16]));
      var y1 := Salsa(XorWords(y0, s[16..32]));
      var y2 := Salsa(XorWords(y1, s[32..48]));
      var y3 := Salsa(XorWords(y2, s[48..]));
      BlockMix(s, 2) == (y0 + y2) + (y1 + y3)
  {
    hide *;
    ChainOfFour(s);
    MixIs(s);
    TwoOf(s, 0);
    TwoOf(s, 1);
  }

  lemma ChainOfFour(s: Words)
    requires |s| == 64
    ensures var y0 := Salsa(XorWords(s[48..], s[..16]));
      var y1 := Salsa(XorWords(y0, s[16..32]));
      var y2 := Salsa(XorWords(y1, s[32..48]));
      var y3 := Salsa(XorWords(y2, s[48..]));
      Chain(s, 2, 1) == y0 && Chain(s, 2, 2) == y1 && Chain(s, 2, 3) == y2 && Chain(s, 2, 4) == y3
  {
    FourBlocks(s);
    hide *;
    ChainStarts(s);
    ChainNext(s, 0);
    ChainNext(s, 1);
    ChainNext(s, 2);
    ChainNext(s, 3);
  }

  lemma MixIs(s: Words)
    requires |s| == 64
    ensures BlockMix(s, 2) == EveryOther(s, 2, 0, 2) + EveryOther(s, 2, 1, 2)
  {
    hide EveryOther;
  }

  lemma FourBlocks(s: Words)
    requires |s| == 64
    ensures Block(s, 0) == s[..16] && Block(s, 1) == s[16..32] && Block(s, 2) == s[32..48] && Block(s, 3) == s[48..]
  {
  }

  lemma ChainStarts(s: Words)
    requires |s| == 64
    ensures Chain(s, 2, 0) == Block(s, 3)
  {
  }

  lemma ChainNext(s: Words, i: nat)
    requires |s| == 64 && i < 4
    ensures Chain(s, 2, i + 1) == Salsa(XorWords(Chain(s, 2, i), Block(s, i)))
  {
  }

  lemma TwoOf(s: Words, first: nat)
    requires |s| == 64 && first <= 1
    ensures EveryOther(s, 2, first, 2) == Chain(s, 2, first + 1) + Chain(s, 2, first + 3)
  {
    hide Chain;
  }
}
