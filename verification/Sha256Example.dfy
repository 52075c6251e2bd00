/** The example of FIPS 180-4 worked through: the digest of the three bytes "abc". The states and the
    schedule are those of the published example; every line is one round or one word. */
module Sha256Example {
  import opened Words
  import opened Sha256Spec
  import opened Sha256
  import opened Sha256Machine

  // ----- The padded message is one block -----

  const MESSAGE: seq<Byte> := [0x61, 0x62, 0x63]

  /** The words of the block: the three bytes with the stop bit, zeros, and the length. */
  ghost predicate IsBlock(block: seq<Byte>) {
    && |block| == 64 && W(block, 0) == Num(0x6162_6380) && W(block, 15) == Num(0x18)
    && forall t :: 1 <= t < 15 ==> W(block, t) == Num(0)
  }

  lemma LengthBytes()
    ensures BitLength(3) == 24 && BigEndian(24, 8) == [0, 0, 0, 0, 0, 0, 0, 24]
  {
    assert BigEndian(0, 3) == [0, 0, 0];
    assert BigEndian(0, 5) == BigEndian(0, 3) + [0, 0];
    assert BigEndian(0, 7) == BigEndian(0, 5) + [0, 0];
  }

  lemma OneBlock()
    ensures |Padded(MESSAGE)| == 64 && BlockCount(3) == 1
    ensures Padded(MESSAGE)[..4] == [0x61, 0x62, 0x63, 0x80] && Padded(MESSAGE)[63] == 24
    ensures forall i :: 4 <= i < 63 ==> Padded(MESSAGE)[i] == 0
  {
    hide BigEndian;
    LengthBytes();
  }

  lemma WordAt(block: seq<Byte>, t: nat)
    requires |block| == 64 && t < 16
    ensures W(block, t) == block[4 * t] as int * 0x100_0000 + block[4 * t + 1] as int * 0x1_0000
                         + block[4 * t + 2] as int * 0x100 + block[4 * t + 3] as int
  {
    hide BlockWord, LoadWord;
    LoadIsBlockWord(block, t);
    LoadIsBigEndian(block[4 * t], block[4 * t + 1], block[4 * t + 2], block[4 * t + 3]);
  }

  lemma FirstWords()
    ensures Shown(0x6162_6380) == 0x6162_6380 && Shown(0x18) == 0x18 && Shown(0) == 0
  {
  }

  lemma MessageIsBlock()
    ensures |Padded(MESSAGE)| == 64 && BlockCount(3) == 1 && IsBlock(Padded(MESSAGE))
  {
    hide *;
    OneBlock();
    FirstWords();
    BlockOf(Padded(MESSAGE));
  }

  lemma BlockOf(block: seq<Byte>)
    requires |block| == 64 && block[..4] == [0x61, 0x62, 0x63, 0x80] && block[63] == 24
    requires forall i :: 4 <= i < 63 ==> block[i] == 0
    requires Shown(0x6162_6380) == 0x6162_6380 && Shown(0x18) == 0x18 && Shown(0) == 0
    ensures IsBlock(block)
  {
    hide W, Num, Shown;
    NumIsShown(0x6162_6380);
    NumIsShown(0x18);
    NumIsShown(0);
    WordAt(block, 0);
    WordAt(block, 15);
    assert block[0] == block[..4][0] && block[1] == block[..4][1] && block[2] == block[..4][2] && block[3] == block[..4][3];
    forall t: nat | 1 <= t < 15
      ensures W(block, t) == Num(0)
    {
      WordAt(block, t);
    }
  }

  // ----- The schedule -----

  /** The schedule of the example. */
  function Word(t: nat): Register {
    if t == 0 then 0x6162_6380
    else if t < 15 then 0
    else if t == 15 then 0x18
    else Scheduled(Word(t - 2), Word(t - 7), Word(t - 15), Word(t - 16))
  }

  lemma {:induction false} Schedule(block: seq<Byte>, t: nat)
    requires IsBlock(block) && t < 64
    ensures W(block, t) == Num(Word(t))
  {
    hide W, Num, Scheduled;
    if t >= 16 {
      Schedule(block, t - 2);
      Schedule(block, t - 7);
      Schedule(block, t - 15);
      Schedule(block, t - 16);
      ScheduleIsMachine(block, t, Word(t - 2), Word(t - 7), Word(t - 15), Word(t - 16));
    }
  }

  lemma WordDef(t: nat)
    requires t >= 16
    ensures Word(t) == Scheduled(Word(t - 2), Word(t - 7), Word(t - 15), Word(t - 16))
  {
    hide Scheduled;
  }

  lemma Words0()
    ensures Word(0) == 0x6162_6380 && Word(15) == 0x18
    ensures Word(1) == 0 && Word(2) == 0 && Word(3) == 0 && Word(4) == 0 && Word(5) == 0 && Word(6) == 0 && Word(7) == 0
    ensures Word(8) == 0 && Word(9) == 0 && Word(10) == 0 && Word(11) == 0 && Word(12) == 0 && Word(13) == 0 && Word(14) == 0
  {
    hide Scheduled;
  }

  lemma Words16()
    ensures Word(16) == 0x6162_6380 && Word(17) == 0x000f_0000
    ensures Word(18) == 0x7da8_6405 && Word(19) == 0x6000_03c6
    ensures Word(20) == 0x3e9d_7b78 && Word(21) == 0x0183_fc00
    ensures Word(22) == 0x12dc_bfdb && Word(23) == 0xe2e2_c38e
  {
    hide Word;
    Words0();
    WordDef(16);
    WordDef(17);
    WordDef(18);
    WordDef(19);
    WordDef(20);
    WordDef(21);
    WordDef(22);
    WordDef(23);
  }

  lemma Words24()
    ensures Word(24) == 0xc821_5c1a && Word(25) == 0xb736_79a2
    ensures Word(26) == 0xe5bc_3909 && Word(27) == 0x3266_3c5b
    ensures Word(28) == 0x9d20_9d67 && Word(29) == 0xec87_26cb
    ensures Word(30) == 0x7021_38a4 && Word(31) == 0xd3b7_973b
  {
    hide Word;
    Words0();
    Words16();
    WordDef(24);
    WordDef(25);
    WordDef(26);
    WordDef(27);
    WordDef(28);
    WordDef(29);
    WordDef(30);
    WordDef(31);
  }

  lemma Words32()
    ensures Word(32) == 0x93f5_997f && Word(33) == 0x3b68_ba73
    ensures Word(34) == 0xaff4_ffc1 && Word(35) == 0xf10a_5c62
    ensures Word(36) == 0x0a8b_3996 && Word(37) == 0x72af_830a
    ensures Word(38) == 0x9409_e33e && Word(39) == 0x2464_1522
  {
    hide Word;
    Words16();
    Words24();
    WordDef(32);
    WordDef(33);
    WordDef(34);
    WordDef(35);
    WordDef(36);
    WordDef(37);
    WordDef(38);
    WordDef(39);
  }

  lemma Words40()
    ensures Word(40) == 0x9f47_bf94 && Word(41) == 0xf0a6_4f5a
    ensures Word(42) == 0x3e24_6a79 && Word(43) == 0x2733_3ba3
    ensures Word(44) == 0x0c47_63f2 && Word(45) == 0x840a_bf27
    ensures Word(46) == 0x7a29_0d5d && Word(47) == 0x065c_43da
  {
    hide Word;
    Words24();
    Words32();
    WordDef(40);
    WordDef(41);
    WordDef(42);
    WordDef(43);
    WordDef(44);
    WordDef(45);
    WordDef(46);
    WordDef(47);
  }

  lemma Words48()
    ensures Word(48) == 0xfb3e_89cb && Word(49) == 0xcc76_17db
    ensures Word(50) == 0xb9e6_6c34 && Word(51) == 0xa999_3667
    ensures Word(52) == 0x84ba_dedd && Word(53) == 0xc214_62bc
    ensures Word(54) == 0x1487_472c && Word(55) == 0xb20f_7a99
  {
    hide Word;
    Words32();
    Words40();
    WordDef(48);
    WordDef(49);
    WordDef(50);
    WordDef(51);
    WordDef(52);
    WordDef(53);
    WordDef(54);
    WordDef(55);
  }

  lemma Words56()
    ensures Word(56) == 0xef57_b9cd && Word(57) == 0xebe6_b238
    ensures Word(58) == 0x9fe3_095e && Word(59) == 0x78bc_8d4b
    ensures Word(60) == 0xa43f_cf15 && Word(61) == 0x668b_2ff8
    ensures Word(62) == 0xeeab_a2cc && Word(63) == 0x12b1_edeb
  {
    hide Word;
    Words40();
    Words48();
    WordDef(56);
    WordDef(57);
    WordDef(58);
    WordDef(59);
    WordDef(60);
    WordDef(61);
    WordDef(62);
    WordDef(63);
  }

  // ----- The rounds -----

  /** The working variables after t rounds. */
  ghost predicate After(block: seq<Byte>, t: nat, r: File) {
    |block| == 64 && t <= 64 && Rounds(ToVars(H0), block, t) == Numbers(r)
  }

  lemma Turn(block: seq<Byte>, t: nat, r: File, k: Register) returns (next: File)
    requires t < 64 && IsBlock(block) && After(block, t, r) && RoundConstant(t) == Num(k)
    ensures next == Turned(r, k, Word(t)) && After(block, t + 1, next)
  {
    hide Round, Turned, W, Num, RoundConstant, Word, IsBlock;
    Schedule(block, t);
    RoundIsMachine(r, k, Word(t));
    next := Turned(r, k, Word(t));
  }

  lemma Constants0()
    ensures RoundConstant(0) == Num(0x428a_2f98) && RoundConstant(1) == Num(0x7137_4491)
    ensures RoundConstant(2) == Num(0xb5c0_fbcf) && RoundConstant(3) == Num(0xe9b5_dba5)
  {
    hide Num;
    NumIsShown(0x428a_2f98);
    NumIsShown(0x7137_4491);
    NumIsShown(0xb5c0_fbcf);
    NumIsShown(0xe9b5_dba5);
  }

  lemma Constants4()
    ensures RoundConstant(4) == Num(0x3956_c25b) && RoundConstant(5) == Num(0x59f1_11f1)
    ensures RoundConstant(6) == Num(0x923f_82a4) && RoundConstant(7) == Num(0xab1c_5ed5)
  {
    hide Num;
    NumIsShown(0x3956_c25b);
    NumIsShown(0x59f1_11f1);
    NumIsShown(0x923f_82a4);
    NumIsShown(0xab1c_5ed5);
  }

  lemma Constants8()
    ensures RoundConstant(8) == Num(0xd807_aa98) && RoundConstant(9) == Num(0x1283_5b01)
    ensures RoundConstant(10) == Num(0x2431_85be) && RoundConstant(11) == Num(0x550c_7dc3)
  {
    hide Num;
    NumIsShown(0xd807_aa98);
    NumIsShown(0x1283_5b01);
    NumIsShown(0x2431_85be);
    NumIsShown(0x550c_7dc3);
  }

  lemma Constants12()
    ensures RoundConstant(12) == Num(0x72be_5d74) && RoundConstant(13) == Num(0x80de_b1fe)
    ensures RoundConstant(14) == Num(0x9bdc_06a7) && RoundConstant(15) == Num(0xc19b_f174)
  {
    hide Num;
    NumIsShown(0x72be_5d74);
    NumIsShown(0x80de_b1fe);
    NumIsShown(0x9bdc_06a7);
    NumIsShown(0xc19b_f174);
  }

  lemma Constants16()
    ensures RoundConstant(16) == Num(0xe49b_69c1) && RoundConstant(17) == Num(0xefbe_4786)
    ensures RoundConstant(18) == Num(0x0fc1_9dc6) && RoundConstant(19) == Num(0x240c_a1cc)
  {
    hide Num;
    NumIsShown(0xe49b_69c1);
    NumIsShown(0xefbe_4786);
    NumIsShown(0x0fc1_9dc6);
    NumIsShown(0x240c_a1cc);
  }

  lemma Constants20()
    ensures RoundConstant(20) == Num(0x2de9_2c6f) && RoundConstant(21) == Num(0x4a74_84aa)
    ensures RoundConstant(22) == Num(0x5cb0_a9dc) && RoundConstant(23) == Num(0x76f9_88da)
  {
    hide Num;
    NumIsShown(0x2de9_2c6f);
    NumIsShown(0x4a74_84aa);
    NumIsShown(0x5cb0_a9dc);
    NumIsShown(0x76f9_88da);
  }

  lemma Constants24()
    ensures RoundConstant(24) == Num(0x983e_5152) && RoundConstant(25) == Num(0xa831_c66d)
    ensures RoundConstant(26) == Num(0xb003_27c8) && RoundConstant(27) == Num(0xbf59_7fc7)
  {
    hide Num;
    NumIsShown(0x983e_5152);
    NumIsShown(0xa831_c66d);
    NumIsShown(0xb003_27c8);
    NumIsShown(0xbf59_7fc7);
  }

  lemma Constants28()
    ensures RoundConstant(28) == Num(0xc6e0_0bf3) && RoundConstant(29) == Num(0xd5a7_9147)
    ensures RoundConstant(30) == Num(0x06ca_6351) && RoundConstant(31) == Num(0x1429_2967)
  {
    hide Num;
    NumIsShown(0xc6e0_0bf3);
    NumIsShown(0xd5a7_9147);
    NumIsShown(0x06ca_6351);
    NumIsShown(0x1429_2967);
  }

  lemma Constants32()
    ensures RoundConstant(32) == Num(0x27b7_0a85) && RoundConstant(33) == Num(0x2e1b_2138)
    ensures RoundConstant(34) == Num(0x4d2c_6dfc) && RoundConstant(35) == Num(0x5338_0d13)
  {
    hide Num;
    NumIsShown(0x27b7_0a85);
    NumIsShown(0x2e1b_2138);
    NumIsShown(0x4d2c_6dfc);
    NumIsShown(0x5338_0d13);
  }

  lemma Constants36()
    ensures RoundConstant(36) == Num(0x650a_7354) && RoundConstant(37) == Num(0x766a_0abb)
    ensures RoundConstant(38) == Num(0x81c2_c92e) && RoundConstant(39) == Num(0x9272_2c85)
  {
    hide Num;
    NumIsShown(0x650a_7354);
    NumIsShown(0x766a_0abb);
    NumIsShown(0x81c2_c92e);
    NumIsShown(0x9272_2c85);
  }

  lemma Constants40()
    ensures RoundConstant(40) == Num(0xa2bf_e8a1) && RoundConstant(41) == Num(0xa81a_664b)
    ensures RoundConstant(42) == Num(0xc24b_8b70) && RoundConstant(43) == Num(0xc76c_51a3)
  {
    hide Num;
    NumIsShown(0xa2bf_e8a1);
    NumIsShown(0xa81a_664b);
    NumIsShown(0xc24b_8b70);
    NumIsShown(0xc76c_51a3);
  }

  lemma Constants44()
    ensures RoundConstant(44) == Num(0xd192_e819) && RoundConstant(45) == Num(0xd699_0624)
    ensures RoundConstant(46) == Num(0xf40e_3585) && RoundConstant(47) == Num(0x106a_a070)
  {
    hide Num;
    NumIsShown(0xd192_e819);
    NumIsShown(0xd699_0624);
    NumIsShown(0xf40e_3585);
    NumIsShown(0x106a_a070);
  }

  lemma Constants48()
    ensures RoundConstant(48) == Num(0x19a4_c116) && RoundConstant(49) == Num(0x1e37_6c08)
    ensures RoundConstant(50) == Num(0x2748_774c) && RoundConstant(51) == Num(0x34b0_bcb5)
  {
    hide Num;
    NumIsShown(0x19a4_c116);
    NumIsShown(0x1e37_6c08);
    NumIsShown(0x2748_774c);
    NumIsShown(0x34b0_bcb5);
  }

  lemma Constants52()
    ensures RoundConstant(52) == Num(0x391c_0cb3) && RoundConstant(53) == Num(0x4ed8_aa4a)
    ensures RoundConstant(54) == Num(0x5b9c_ca4f) && RoundConstant(55) == Num(0x682e_6ff3)
  {
    hide Num;
    NumIsShown(0x391c_0cb3);
    NumIsShown(0x4ed8_aa4a);
    NumIsShown(0x5b9c_ca4f);
    NumIsShown(0x682e_6ff3);
  }

  lemma Constants56()
    ensures RoundConstant(56) == Num(0x748f_82ee) && RoundConstant(57) == Num(0x78a5_636f)
    ensures RoundConstant(58) == Num(0x84c8_7814) && RoundConstant(59) == Num(0x8cc7_0208)
  {
    hide Num;
    NumIsShown(0x748f_82ee);
    NumIsShown(0x78a5_636f);
    NumIsShown(0x84c8_7814);
    NumIsShown(0x8cc7_0208);
  }

  lemma Constants60()
    ensures RoundConstant(60) == Num(0x90be_fffa) && RoundConstant(61) == Num(0xa450_6ceb)
    ensures RoundConstant(62) == Num(0xbef9_a3f7) && RoundConstant(63) == Num(0xc671_78f2)
  {
    hide Num;
    NumIsShown(0x90be_fffa);
    NumIsShown(0xa450_6ceb);
    NumIsShown(0xbef9_a3f7);
    NumIsShown(0xc671_78f2);
  }

  lemma Rounds0(block: seq<Byte>, start: File) returns (r: File)
    requires IsBlock(block) && After(block, 0, start)
    requires start == File(0x6a09_e667, 0xbb67_ae85, 0x3c6e_f372, 0xa54f_f53a,
               0x510e_527f, 0x9b05_688c, 0x1f83_d9ab, 0x5be0_cd19)
    ensures After(block, 8, r)
    ensures r == File(0x85a0_7b5f, 0xe503_0380, 0x2b42_09f5, 0x0440_9a6a,
               0x0c65_7a79, 0x9b27_a401, 0x7142_60ad, 0x43ad_a245)
  {
    hide After, IsBlock, Word, Num, RoundConstant;
    Constants0();
    Constants4();
    Words0();
    r := start;
    r := Turn(block, 0, r, 0x428a_2f98);
    assert r.a == 0x5d6a_ebcd && r.e == 0xfa2a_4622;
    r := Turn(block, 1, r, 0x7137_4491);
    assert r.a == 0x5a6a_d9ad && r.e == 0x78ce_7989;
    r := Turn(block, 2, r, 0xb5c0_fbcf);
    assert r.a == 0xc8c3_47a7 && r.e == 0xf929_39eb;
    r := Turn(block, 3, r, 0xe9b5_dba5);
    assert r.a == 0xd550_f666 && r.e == 0x24e0_0850;
    r := Turn(block, 4, r, 0x3956_c25b);
    assert r.a == 0x0440_9a6a && r.e == 0x43ad_a245;
    r := Turn(block, 5, r, 0x59f1_11f1);
    assert r.a == 0x2b42_09f5 && r.e == 0x7142_60ad;
    r := Turn(block, 6, r, 0x923f_82a4);
    assert r.a == 0xe503_0380 && r.e == 0x9b27_a401;
    r := Turn(block, 7, r, 0xab1c_5ed5);
    assert r.a == 0x85a0_7b5f && r.e == 0x0c65_7a79;
  }

  lemma Rounds8(block: seq<Byte>, start: File) returns (r: File)
    requires IsBlock(block) && After(block, 8, start)
    requires start == File(0x85a0_7b5f, 0xe503_0380, 0x2b42_09f5, 0x0440_9a6a,
               0x0c65_7a79, 0x9b27_a401, 0x7142_60ad, 0x43ad_a245)
    ensures After(block, 16, r)
    ensures r == File(0xb0fa_238e, 0xc064_5fde, 0xd932_eb16, 0x8791_2990,
               0x0759_0dcd, 0x0b92_f20c, 0x745a_48de, 0x1e57_8218)
  {
    hide After, IsBlock, Word, Num, RoundConstant;
    Constants8();
    Constants12();
    Words0();
    r := start;
    r := Turn(block, 8, r, 0xd807_aa98);
    assert r.a == 0x8e04_ecb9 && r.e == 0x32ca_2d8c;
    r := Turn(block, 9, r, 0x1283_5b01);
    assert r.a == 0x8c87_346b && r.e == 0x1cc9_2596;
    r := Turn(block, 10, r, 0x2431_85be);
    assert r.a == 0x4798_a3f4 && r.e == 0x436b_23e8;
    r := Turn(block, 11, r, 0x550c_7dc3);
    assert r.a == 0xf71f_c5a9 && r.e == 0x816f_d6e9;
    r := Turn(block, 12, r, 0x72be_5d74);
    assert r.a == 0x8791_2990 && r.e == 0x1e57_8218;
    r := Turn(block, 13, r, 0x80de_b1fe);
    assert r.a == 0xd932_eb16 && r.e == 0x745a_48de;
    r := Turn(block, 14, r, 0x9bdc_06a7);
    assert r.a == 0xc064_5fde && r.e == 0x0b92_f20c;
    r := Turn(block, 15, r, 0xc19b_f174);
    assert r.a == 0xb0fa_238e && r.e == 0x0759_0dcd;
  }

  lemma Rounds16(block: seq<Byte>, start: File) returns (r: File)
    requires IsBlock(block) && After(block, 16, start)
    requires start == File(0xb0fa_238e, 0xc064_5fde, 0xd932_eb16, 0x8791_2990,
               0x0759_0dcd, 0x0b92_f20c, 0x745a_48de, 0x1e57_8218)
    ensures After(block, 24, r)
    ensures r == File(0xc5d5_3d8d, 0xa7a3_623f, 0xc260_6d6d, 0x9dc6_8b63,
               0xaa47_c347, 0x49f5_114a, 0xe125_7970, 0x8ada_8930)
  {
    hide After, IsBlock, Word, Num, RoundConstant;
    Constants16();
    Constants20();
    Words16();
    r := start;
    r := Turn(block, 16, r, 0xe49b_69c1);
    assert r.a == 0x21da_9a9b && r.e == 0x8034_229c;
    r := Turn(block, 17, r, 0xefbe_4786);
    assert r.a == 0xc2fb_d9d1 && r.e == 0x846e_e454;
    r := Turn(block, 18, r, 0x0fc1_9dc6);
    assert r.a == 0xfe77_7bbf && r.e == 0xcc89_9961;
    r := Turn(block, 19, r, 0x240c_a1cc);
    assert r.a == 0xe1f2_0c33 && r.e == 0xb063_8179;
    r := Turn(block, 20, r, 0x2de9_2c6f);
    assert r.a == 0x9dc6_8b63 && r.e == 0x8ada_8930;
    r := Turn(block, 21, r, 0x4a74_84aa);
    assert r.a == 0xc260_6d6d && r.e == 0xe125_7970;
    r := Turn(block, 22, r, 0x5cb0_a9dc);
    assert r.a == 0xa7a3_623f && r.e == 0x49f5_114a;
    r := Turn(block, 23, r, 0x76f9_88da);
    assert r.a == 0xc5d5_3d8d && r.e == 0xaa47_c347;
  }

  lemma Rounds24(block: seq<Byte>, start: File) returns (r: File)
    requires IsBlock(block) && After(block, 24, start)
    requires start == File(0xc5d5_3d8d, 0xa7a3_623f, 0xc260_6d6d, 0x9dc6_8b63,
               0xaa47_c347, 0x49f5_114a, 0xe125_7970, 0x8ada_8930)
    ensures After(block, 32, r)
    ensures r == File(0x73b3_3bf5, 0xea99_2a22, 0xa006_0b30, 0x3634_82c9,
               0xba59_1112, 0x0109_ab3a, 0xade7_9437, 0x6112_a3b7)
  {
    hide After, IsBlock, Word, Num, RoundConstant;
    Constants24();
    Constants28();
    Words24();
    r := start;
    r := Turn(block, 24, r, 0x983e_5152);
    assert r.a == 0x1c2c_2838 && r.e == 0x2823_ef91;
    r := Turn(block, 25, r, 0xa831_c66d);
    assert r.a == 0xcde8_037d && r.e == 0x1438_3d8e;
    r := Turn(block, 26, r, 0xb003_27c8);
    assert r.a == 0xb62e_c4bc && r.e == 0xc74c_6516;
    r := Turn(block, 27, r, 0xbf59_7fc7);
    assert r.a == 0x77d3_7528 && r.e == 0xedff_bff8;
    r := Turn(block, 28, r, 0xc6e0_0bf3);
    assert r.a == 0x3634_82c9 && r.e == 0x6112_a3b7;
    r := Turn(block, 29, r, 0xd5a7_9147);
    assert r.a == 0xa006_0b30 && r.e == 0xade7_9437;
    r := Turn(block, 30, r, 0x06ca_6351);
    assert r.a == 0xea99_2a22 && r.e == 0x0109_ab3a;
    r := Turn(block, 31, r, 0x1429_2967);
    assert r.a == 0x73b3_3bf5 && r.e == 0xba59_1112;
  }

  lemma Rounds32(block: seq<Byte>, start: File) returns (r: File)
    requires IsBlock(block) && After(block, 32, start)
    requires start == File(0x73b3_3bf5, 0xea99_2a22, 0xa006_0b30, 0x3634_82c9,
               0xba59_1112, 0x0109_ab3a, 0xade7_9437, 0x6112_a3b7)
    ensures After(block, 40, r)
    ensures r == File(0x79ea_687a, 0x6dc5_7a8a, 0x34df_1604, 0x41a6_5cb1,
               0x1efb_c0a0, 0xf078_1bc8, 0xa507_a53d, 0x0772_a26b)
  {
    hide After, IsBlock, Word, Num, RoundConstant;
    Constants32();
    Constants36();
    Words32();
    r := start;
    r := Turn(block, 32, r, 0x27b7_0a85);
    assert r.a == 0x98e1_2507 && r.e == 0x9cd9_f5f6;
    r := Turn(block, 33, r, 0x2e1b_2138);
    assert r.a == 0xfe60_4df5 && r.e == 0x5924_9dd3;
    r := Turn(block, 34, r, 0x4d2c_6dfc);
    assert r.a == 0xa9a7_738c && r.e == 0x085f_3833;
    r := Turn(block, 35, r, 0x5338_0d13);
    assert r.a == 0x65a0_cfe4 && r.e == 0xf4b0_02d6;
    r := Turn(block, 36, r, 0x650a_7354);
    assert r.a == 0x41a6_5cb1 && r.e == 0x0772_a26b;
    r := Turn(block, 37, r, 0x766a_0abb);
    assert r.a == 0x34df_1604 && r.e == 0xa507_a53d;
    r := Turn(block, 38, r, 0x81c2_c92e);
    assert r.a == 0x6dc5_7a8a && r.e == 0xf078_1bc8;
    r := Turn(block, 39, r, 0x9272_2c85);
    assert r.a == 0x79ea_687a && r.e == 0x1efb_c0a0;
  }

  lemma Rounds40(block: seq<Byte>, start: File) returns (r: File)
    requires IsBlock(block) && After(block, 40, start)
    requires start == File(0x79ea_687a, 0x6dc5_7a8a, 0x34df_1604, 0x41a6_5cb1,
               0x1efb_c0a0, 0xf078_1bc8, 0xa507_a53d, 0x0772_a26b)
    ensures After(block, 48, r)
    ensures r == File(0x4172_328d, 0xa14c_14b0, 0x72ab_4b91, 0x2662_8815,
               0xfecf_0bc6, 0xd57b_94a9, 0xb775_5da1, 0xa80f_11f0)
  {
    hide After, IsBlock, Word, Num, RoundConstant;
    Constants40();
    Constants44();
    Words40();
    r := start;
    r := Turn(block, 40, r, 0xa2bf_e8a1);
    assert r.a == 0xd667_0766 && r.e == 0x2635_2d63;
    r := Turn(block, 41, r, 0xa81a_664b);
    assert r.a == 0xdf46_652f && r.e == 0x838b_2711;
    r := Turn(block, 42, r, 0xc24b_8b70);
    assert r.a == 0x17aa_0dfe && r.e == 0xdecd_4715;
    r := Turn(block, 43, r, 0xc76c_51a3);
    assert r.a == 0x9d4b_af93 && r.e == 0xfda2_4c2e;
    r := Turn(block, 44, r, 0xd192_e819);
    assert r.a == 0x2662_8815 && r.e == 0xa80f_11f0;
    r := Turn(block, 45, r, 0xd699_0624);
    assert r.a == 0x72ab_4b91 && r.e == 0xb775_5da1;
    r := Turn(block, 46, r, 0xf40e_3585);
    assert r.a == 0xa14c_14b0 && r.e == 0xd57b_94a9;
    r := Turn(block, 47, r, 0x106a_a070);
    assert r.a == 0x4172_328d && r.e == 0xfecf_0bc6;
  }

  lemma Rounds48(block: seq<Byte>, start: File) returns (r: File)
    requires IsBlock(block) && After(block, 48, start)
    requires start == File(0x4172_328d, 0xa14c_14b0, 0x72ab_4b91, 0x2662_8815,
               0xfecf_0bc6, 0xd57b_94a9, 0xb775_5da1, 0xa80f_11f0)
    ensures After(block, 56, r)
    ensures r == File(0x38cc_9913, 0x3ec4_5cdb, 0xf570_2fdb, 0x101f_d28f,
               0x54cb_266b, 0xe50e_1b4f, 0x9f47_87c3, 0x529e_7d00)
  {
    hide After, IsBlock, Word, Num, RoundConstant;
    Constants48();
    Constants52();
    Words48();
    r := start;
    r := Turn(block, 48, r, 0x19a4_c116);
    assert r.a == 0x0575_7ceb && r.e == 0xbd71_4038;
    r := Turn(block, 49, r, 0x1e37_6c08);
    assert r.a == 0xf11b_faa8 && r.e == 0x6e5c_390c;
    r := Turn(block, 50, r, 0x2748_774c);
    assert r.a == 0x7a05_08a1 && r.e == 0x52f1_ccf7;
    r := Turn(block, 51, r, 0x34b0_bcb5);
    assert r.a == 0x886e_7a22 && r.e == 0x4923_1c1e;
    r := Turn(block, 52, r, 0x391c_0cb3);
    assert r.a == 0x101f_d28f && r.e == 0x529e_7d00;
    r := Turn(block, 53, r, 0x4ed8_aa4a);
    assert r.a == 0xf570_2fdb && r.e == 0x9f47_87c3;
    r := Turn(block, 54, r, 0x5b9c_ca4f);
    assert r.a == 0x3ec4_5cdb && r.e == 0xe50e_1b4f;
    r := Turn(block, 55, r, 0x682e_6ff3);
    assert r.a == 0x38cc_9913 && r.e == 0x54cb_266b;
  }

  lemma Rounds56(block: seq<Byte>, start: File) returns (r: File)
    requires IsBlock(block) && After(block, 56, start)
    requires start == File(0x38cc_9913, 0x3ec4_5cdb, 0xf570_2fdb, 0x101f_d28f,
               0x54cb_266b, 0xe50e_1b4f, 0x9f47_87c3, 0x529e_7d00)
    ensures After(block, 64, r)
    ensures r == File(0x506e_3058, 0xd39a_2165, 0x04d2_4d6c, 0xb85e_2ce9,
               0x5ef5_0f24, 0xfb12_1210, 0x948d_25b6, 0x961f_4894)
  {
    hide After, IsBlock, Word, Num, RoundConstant;
    Constants56();
    Constants60();
    Words56();
    r := start;
    r := Turn(block, 56, r, 0x748f_82ee);
    assert r.a == 0xfcd1_887b && r.e == 0x9b5e_906c;
    r := Turn(block, 57, r, 0x78a5_636f);
    assert r.a == 0xc062_d46f && r.e == 0x7e44_008e;
    r := Turn(block, 58, r, 0x84c8_7814);
    assert r.a == 0xffb7_0472 && r.e == 0x6d83_bfc6;
    r := Turn(block, 59, r, 0x8cc7_0208);
    assert r.a == 0xb6ae_8fff && r.e == 0xb21b_ad3d;
    r := Turn(block, 60, r, 0x90be_fffa);
    assert r.a == 0xb85e_2ce9 && r.e == 0x961f_4894;
    r := Turn(block, 61, r, 0xa450_6ceb);
    assert r.a == 0x04d2_4d6c && r.e == 0x948d_25b6;
    r := Turn(block, 62, r, 0xbef9_a3f7);
    assert r.a == 0xd39a_2165 && r.e == 0xfb12_1210;
    r := Turn(block, 63, r, 0xc671_78f2);
    assert r.a == 0x506e_3058 && r.e == 0x5ef5_0f24;
  }

  // ----- The digest -----

  lemma FirstNumbers()
    ensures Shown(0x6a09_e667) == 0x6a09_e667 && Shown(0xbb67_ae85) == 0xbb67_ae85
    ensures Shown(0x3c6e_f372) == 0x3c6e_f372 && Shown(0xa54f_f53a) == 0xa54f_f53a
  {
  }

  lemma OtherNumbers()
    ensures Shown(0x510e_527f) == 0x510e_527f && Shown(0x9b05_688c) == 0x9b05_688c
    ensures Shown(0x1f83_d9ab) == 0x1f83_d9ab && Shown(0x5be0_cd19) == 0x5be0_cd19
  {
  }

  lemma InitialFile()
    ensures Numbers(File(0x6a09_e667, 0xbb67_ae85, 0x3c6e_f372, 0xa54f_f53a,
               0x510e_527f, 0x9b05_688c, 0x1f83_d9ab, 0x5be0_cd19)) == ToVars(H0)
  {
    hide Num, Shown;
    FirstNumbers();
    OtherNumbers();
    NumIsShown(0x6a09_e667);
    NumIsShown(0xbb67_ae85);
    NumIsShown(0x3c6e_f372);
    NumIsShown(0xa54f_f53a);
    NumIsShown(0x510e_527f);
    NumIsShown(0x9b05_688c);
    NumIsShown(0x1f83_d9ab);
    NumIsShown(0x5be0_cd19);
  }

  lemma AllRounds(block: seq<Byte>) returns (r: File)
    requires IsBlock(block)
    ensures After(block, 64, r)
    ensures r == File(0x506e_3058, 0xd39a_2165, 0x04d2_4d6c, 0xb85e_2ce9,
               0x5ef5_0f24, 0xfb12_1210, 0x948d_25b6, 0x961f_4894)
  {
    hide W, Numbers, Num;
    InitialFile();
    r := File(0x6a09_e667, 0xbb67_ae85, 0x3c6e_f372, 0xa54f_f53a,
               0x510e_527f, 0x9b05_688c, 0x1f83_d9ab, 0x5be0_cd19);
    r := Rounds0(block, r);
    r := Rounds8(block, r);
    r := Rounds16(block, r);
    r := Rounds24(block, r);
    r := Rounds32(block, r);
    r := Rounds40(block, r);
    r := Rounds48(block, r);
    r := Rounds56(block, r);
  }

  // The eight last additions.

  lemma Hash0()
    ensures HexWord(Add(Num(0x6a09_e667), Num(0x506e_3058))) == "ba7816bf"
  {
    hide Num, Add;
    SumIsMachine(0x6a09_e667, 0x506e_3058);
    assert Plus(0x6a09_e667, 0x506e_3058) == 0xba78_16bf;
    NumIsShown(0xba78_16bf);
    assert Shown(0xba78_16bf) == 0xba78_16bf;
  }

  lemma Hash1()
    ensures HexWord(Add(Num(0xbb67_ae85), Num(0xd39a_2165))) == "8f01cfea"
  {
    hide Num, Add;
    SumIsMachine(0xbb67_ae85, 0xd39a_2165);
    assert Plus(0xbb67_ae85, 0xd39a_2165) == 0x8f01_cfea;
    NumIsShown(0x8f01_cfea);
    assert Shown(0x8f01_cfea) == 0x8f01_cfea;
  }

  lemma Hash2()
    ensures HexWord(Add(Num(0x3c6e_f372), Num(0x04d2_4d6c))) == "414140de"
  {
    hide Num, Add;
    SumIsMachine(0x3c6e_f372, 0x04d2_4d6c);
    assert Plus(0x3c6e_f372, 0x04d2_4d6c) == 0x4141_40de;
    NumIsShown(0x4141_40de);
    assert Shown(0x4141_40de) == 0x4141_40de;
  }

  lemma Hash3()
    ensures HexWord(Add(Num(0xa54f_f53a), Num(0xb85e_2ce9))) == "5dae2223"
  {
    hide Num, Add;
    SumIsMachine(0xa54f_f53a, 0xb85e_2ce9);
    assert Plus(0xa54f_f53a, 0xb85e_2ce9) == 0x5dae_2223;
    NumIsShown(0x5dae_2223);
    assert Shown(0x5dae_2223) == 0x5dae_2223;
  }

  lemma Hash4()
    ensures HexWord(Add(Num(0x510e_527f), Num(0x5ef5_0f24))) == "b00361a3"
  {
    hide Num, Add;
    SumIsMachine(0x510e_527f, 0x5ef5_0f24);
    assert Plus(0x510e_527f, 0x5ef5_0f24) == 0xb003_61a3;
    NumIsShown(0xb003_61a3);
    assert Shown(0xb003_61a3) == 0xb003_61a3;
  }

  lemma Hash5()
    ensures HexWord(Add(Num(0x9b05_688c), Num(0xfb12_1210))) == "96177a9c"
  {
    hide Num, Add;
    SumIsMachine(0x9b05_688c, 0xfb12_1210);
    assert Plus(0x9b05_688c, 0xfb12_1210) == 0x9617_7a9c;
    NumIsShown(0x9617_7a9c);
    assert Shown(0x9617_7a9c) == 0x9617_7a9c;
  }

  lemma Hash6()
    ensures HexWord(Add(Num(0x1f83_d9ab), Num(0x948d_25b6))) == "b410ff61"
  {
    hide Num, Add;
    SumIsMachine(0x1f83_d9ab, 0x948d_25b6);
    assert Plus(0x1f83_d9ab, 0x948d_25b6) == 0xb410_ff61;
    NumIsShown(0xb410_ff61);
    assert Shown(0xb410_ff61) == 0xb410_ff61;
  }

  lemma Hash7()
    ensures HexWord(Add(Num(0x5be0_cd19), Num(0x961f_4894))) == "f20015ad"
  {
    hide Num, Add;
    SumIsMachine(0x5be0_cd19, 0x961f_4894);
    assert Plus(0x5be0_cd19, 0x961f_4894) == 0xf200_15ad;
    NumIsShown(0xf200_15ad);
    assert Shown(0xf200_15ad) == 0xf200_15ad;
  }

  lemma CompressIs(block: seq<Byte>, r: File)
    requires |block| == 64 && After(block, 64, r)
    requires ToVars(H0) == Numbers(File(0x6a09_e667, 0xbb67_ae85, 0x3c6e_f372, 0xa54f_f53a,
               0x510e_527f, 0x9b05_688c, 0x1f83_d9ab, 0x5be0_cd19))
    ensures Compress(H0, block) ==
            [Add(Num(0x6a09_e667), Num(r.a)), Add(Num(0xbb67_ae85), Num(r.b)),
             Add(Num(0x3c6e_f372), Num(r.c)), Add(Num(0xa54f_f53a), Num(r.d)),
             Add(Num(0x510e_527f), Num(r.e)), Add(Num(0x9b05_688c), Num(r.f)),
             Add(Num(0x1f83_d9ab), Num(r.g)), Add(Num(0x5be0_cd19), Num(r.h))]
  {
    hide Rounds, Num, Add;
  }

  lemma HashWords(block: seq<Byte>)
    requires IsBlock(block)
    ensures var h := Compress(H0, block);
            && HexWord(h[0]) == "ba7816bf" && HexWord(h[1]) == "8f01cfea" && HexWord(h[2]) == "414140de"
            && HexWord(h[3]) == "5dae2223" && HexWord(h[4]) == "b00361a3" && HexWord(h[5]) == "96177a9c"
            && HexWord(h[6]) == "b410ff61" && HexWord(h[7]) == "f20015ad"
  {
    hide IsBlock, Rounds, Num, Add, HexWord;
    var r := AllRounds(block);
    InitialFile();
    CompressIs(block, r);
    Hash0();
    Hash1();
    Hash2();
    Hash3();
    Hash4();
    Hash5();
    Hash6();
    Hash7();
  }

  lemma OneStep()
    requires |Padded(MESSAGE)| == 64
    ensures |MESSAGE| == 3 && MESSAGE == [0x61, 0x62, 0x63]
    ensures HashBlocks(Padded(MESSAGE), 1) == Compress(H0, Padded(MESSAGE))
  {
    hide Padded, Compress;
    assert Padded(MESSAGE)[64 * 0..64 * 1] == Padded(MESSAGE);
    assert HashBlocks(Padded(MESSAGE), 0) == H0;
  }

  /** The digest of "abc" is the one that the standard publishes. */
  lemma DigestOfAbc()
    ensures Digest([0x61, 0x62, 0x63]) == "ba7816bf" + "8f01cfea" + "414140de" + "5dae2223" +
                                          "b00361a3" + "96177a9c" + "b410ff61" + "f20015ad"
  {
    hide *;
    MessageIsBlock();
    HashWords(Padded(MESSAGE));
    OneStep();
    DigestText(MESSAGE);
  }
}
