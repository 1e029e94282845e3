/** The digest of one message, worked out step by step. */
module Sha256Example {
  import opened Arithmetic
  import opened ByteStrings
  import opened Sha256

  /** The message schedule of its one block. */
  function ScheduleWord(t: nat): Word
    requires t < 64
  {
    if t < 8 then Pick(t, 0x61626380, 0x00000000, 0x00000000, 0x00000000,
           0x00000000, 0x00000000, 0x00000000, 0x00000000)
    else if t < 16 then Pick(t - 8, 0x00000000, 0x00000000, 0x00000000, 0x00000000,
           0x00000000, 0x00000000, 0x00000000, 0x00000018)
    else if t < 24 then Pick(t - 16, 0x61626380, 0x000f0000, 0x7da86405, 0x600003c6,
           0x3e9d7b78, 0x0183fc00, 0x12dcbfdb, 0xe2e2c38e)
    else if t < 32 then Pick(t - 24, 0xc8215c1a, 0xb73679a2, 0xe5bc3909, 0x32663c5b,
           0x9d209d67, 0xec8726cb, 0x702138a4, 0xd3b7973b)
    else if t < 40 then Pick(t - 32, 0x93f5997f, 0x3b68ba73, 0xaff4ffc1, 0xf10a5c62,
           0x0a8b3996, 0x72af830a, 0x9409e33e, 0x24641522)
    else if t < 48 then Pick(t - 40, 0x9f47bf94, 0xf0a64f5a, 0x3e246a79, 0x27333ba3,
           0x0c4763f2, 0x840abf27, 0x7a290d5d, 0x065c43da)
    else if t < 56 then Pick(t - 48, 0xfb3e89cb, 0xcc7617db, 0xb9e66c34, 0xa9993667,
           0x84badedd, 0xc21462bc, 0x1487472c, 0xb20f7a99)
    else Pick(t - 56, 0xef57b9cd, 0xebe6b238, 0x9fe3095e, 0x78bc8d4b,
           0xa43fcf15, 0x668b2ff8, 0xeeaba2cc, 0x12b1edeb)
  }

  predicate ScheduleNext(t: nat)
    requires 16 <= t < 64
  {
    ScheduleWord(t) == Plus(Plus(Plus(SmallSigma1(ScheduleWord(t - 2)), ScheduleWord(t - 7)),
                                 SmallSigma0(ScheduleWord(t - 15))), ScheduleWord(t - 16))
  }

  lemma ScheduleRow4(t: nat)
    requires 16 <= t < 20
    ensures ScheduleNext(t)
  {
    assert t == 16 || t == 17 || t == 18 || t == 19;
  }

  lemma ScheduleRow5(t: nat)
    requires 20 <= t < 24
    ensures ScheduleNext(t)
  {
    assert t == 20 || t == 21 || t == 22 || t == 23;
  }

  lemma ScheduleRow6(t: nat)
    requires 24 <= t < 28
    ensures ScheduleNext(t)
  {
    assert t == 24 || t == 25 || t == 26 || t == 27;
  }

  lemma ScheduleRow7(t: nat)
    requires 28 <= t < 32
    ensures ScheduleNext(t)
  {
    assert t == 28 || t == 29 || t == 30 || t == 31;
  }

  lemma ScheduleRow8(t: nat)
    requires 32 <= t < 36
    ensures ScheduleNext(t)
  {
    assert t == 32 || t == 33 || t == 34 || t == 35;
  }

  lemma ScheduleRow9(t: nat)
    requires 36 <= t < 40
    ensures ScheduleNext(t)
  {
    assert t == 36 || t == 37 || t == 38 || t == 39;
  }

  lemma ScheduleRow10(t: nat)
    requires 40 <= t < 44
    ensures ScheduleNext(t)
  {
    assert t == 40 || t == 41 || t == 42 || t == 43;
  }

  lemma ScheduleRow11(t: nat)
    requires 44 <= t < 48
    ensures ScheduleNext(t)
  {
    assert t == 44 || t == 45 || t == 46 || t == 47;
  }

  lemma ScheduleRow12(t: nat)
    requires 48 <= t < 52
    ensures ScheduleNext(t)
  {
    assert t == 48 || t == 49 || t == 50 || t == 51;
  }

  lemma ScheduleRow13(t: nat)
    requires 52 <= t < 56
    ensures ScheduleNext(t)
  {
    assert t == 52 || t == 53 || t == 54 || t == 55;
  }

  lemma ScheduleRow14(t: nat)
    requires 56 <= t < 60
    ensures ScheduleNext(t)
  {
    assert t == 56 || t == 57 || t == 58 || t == 59;
  }

  lemma ScheduleRow15(t: nat)
    requires 60 <= t < 64
    ensures ScheduleNext(t)
  {
    assert t == 60 || t == 61 || t == 62 || t == 63;
  }

  /** The first working variable before each round, from three rounds before the first on. */
  function WorkA(t: nat): Word
    requires t < 68
  {
    if t < 8 then Pick(t, 0xa54ff53a, 0x3c6ef372, 0xbb67ae85, 0x6a09e667,
           0x5d6aebcd, 0x5a6ad9ad, 0xc8c347a7, 0xd550f666)
    else if t < 16 then Pick(t - 8, 0x04409a6a, 0x2b4209f5, 0xe5030380, 0x85a07b5f,
           0x8e04ecb9, 0x8c87346b, 0x4798a3f4, 0xf71fc5a9)
    else if t < 24 then Pick(t - 16, 0x87912990, 0xd932eb16, 0xc0645fde, 0xb0fa238e,
           0x21da9a9b, 0xc2fbd9d1, 0xfe777bbf, 0xe1f20c33)
    else if t < 32 then Pick(t - 24, 0x9dc68b63, 0xc2606d6d, 0xa7a3623f, 0xc5d53d8d,
           0x1c2c2838, 0xcde8037d, 0xb62ec4bc, 0x77d37528)
    else if t < 40 then Pick(t - 32, 0x363482c9, 0xa0060b30, 0xea992a22, 0x73b33bf5,
           0x98e12507, 0xfe604df5, 0xa9a7738c, 0x65a0cfe4)
    else if t < 48 then Pick(t - 40, 0x41a65cb1, 0x34df1604, 0x6dc57a8a, 0x79ea687a,
           0xd6670766, 0xdf46652f, 0x17aa0dfe, 0x9d4baf93)
    else if t < 56 then Pick(t - 48, 0x26628815, 0x72ab4b91, 0xa14c14b0, 0x4172328d,
           0x05757ceb, 0xf11bfaa8, 0x7a0508a1, 0x886e7a22)
    else if t < 64 then Pick(t - 56, 0x101fd28f, 0xf5702fdb, 0x3ec45cdb, 0x38cc9913,
           0xfcd1887b, 0xc062d46f, 0xffb70472, 0xb6ae8fff)
    else Pick(t - 64, 0xb85e2ce9, 0x04d24d6c, 0xd39a2165, 0x506e3058,
           0x00000000, 0x00000000, 0x00000000, 0x00000000)
  }

  /** The fifth working variable, likewise. */
  function WorkE(t: nat): Word
    requires t < 68
  {
    if t < 8 then Pick(t, 0x5be0cd19, 0x1f83d9ab, 0x9b05688c, 0x510e527f,
           0xfa2a4622, 0x78ce7989, 0xf92939eb, 0x24e00850)
    else if t < 16 then Pick(t - 8, 0x43ada245, 0x714260ad, 0x9b27a401, 0x0c657a79,
           0x32ca2d8c, 0x1cc92596, 0x436b23e8, 0x816fd6e9)
    else if t < 24 then Pick(t - 16, 0x1e578218, 0x745a48de, 0x0b92f20c, 0x07590dcd,
           0x8034229c, 0x846ee454, 0xcc899961, 0xb0638179)
    else if t < 32 then Pick(t - 24, 0x8ada8930, 0xe1257970, 0x49f5114a, 0xaa47c347,
           0x2823ef91, 0x14383d8e, 0xc74c6516, 0xedffbff8)
    else if t < 40 then Pick(t - 32, 0x6112a3b7, 0xade79437, 0x0109ab3a, 0xba591112,
           0x9cd9f5f6, 0x59249dd3, 0x085f3833, 0xf4b002d6)
    else if t < 48 then Pick(t - 40, 0x0772a26b, 0xa507a53d, 0xf0781bc8, 0x1efbc0a0,
           0x26352d63, 0x838b2711, 0xdecd4715, 0xfda24c2e)
    else if t < 56 then Pick(t - 48, 0xa80f11f0, 0xb7755da1, 0xd57b94a9, 0xfecf0bc6,
           0xbd714038, 0x6e5c390c, 0x52f1ccf7, 0x49231c1e)
    else if t < 64 then Pick(t - 56, 0x529e7d00, 0x9f4787c3, 0xe50e1b4f, 0x54cb266b,
           0x9b5e906c, 0x7e44008e, 0x6d83bfc6, 0xb21bad3d)
    else Pick(t - 64, 0x961f4894, 0x948d25b6, 0xfb121210, 0x5ef50f24,
           0x00000000, 0x00000000, 0x00000000, 0x00000000)
  }

  function Work(t: nat): Eight
    requires t <= 64
  {
    Eight(WorkA(t + 3), WorkA(t + 2), WorkA(t + 1), WorkA(t), WorkE(t + 3), WorkE(t + 2), WorkE(t + 1), WorkE(t))
  }

  predicate RoundNext(t: nat)
    requires t < 64
  {
    Work(t + 1) == Round(Work(t), K(t), ScheduleWord(t))
  }

  lemma RoundRow0(t: nat)
    requires 0 <= t < 4
    ensures RoundNext(t)
  {
    assert t == 0 || t == 1 || t == 2 || t == 3;
  }

  lemma RoundRow1(t: nat)
    requires 4 <= t < 8
    ensures RoundNext(t)
  {
    assert t == 4 || t == 5 || t == 6 || t == 7;
  }

  lemma RoundRow2(t: nat)
    requires 8 <= t < 12
    ensures RoundNext(t)
  {
    assert t == 8 || t == 9 || t == 10 || t == 11;
  }

  lemma RoundRow3(t: nat)
    requires 12 <= t < 16
    ensures RoundNext(t)
  {
    assert t == 12 || t == 13 || t == 14 || t == 15;
  }

  lemma RoundRow4(t: nat)
    requires 16 <= t < 20
    ensures RoundNext(t)
  {
    assert t == 16 || t == 17 || t == 18 || t == 19;
  }

  lemma RoundRow5(t: nat)
    requires 20 <= t < 24
    ensures RoundNext(t)
  {
    assert t == 20 || t == 21 || t == 22 || t == 23;
  }

  lemma RoundRow6(t: nat)
    requires 24 <= t < 28
    ensures RoundNext(t)
  {
    assert t == 24 || t == 25 || t == 26 || t == 27;
  }

  lemma RoundRow7(t: nat)
    requires 28 <= t < 32
    ensures RoundNext(t)
  {
    assert t == 28 || t == 29 || t == 30 || t == 31;
  }

  lemma RoundRow8(t: nat)
    requires 32 <= t < 36
    ensures RoundNext(t)
  {
    assert t == 32 || t == 33 || t == 34 || t == 35;
  }

  lemma RoundRow9(t: nat)
    requires 36 <= t < 40
    ensures RoundNext(t)
  {
    assert t == 36 || t == 37 || t == 38 || t == 39;
  }

  lemma RoundRow10(t: nat)
    requires 40 <= t < 44
    ensures RoundNext(t)
  {
    assert t == 40 || t == 41 || t == 42 || t == 43;
  }

  lemma RoundRow11(t: nat)
    requires 44 <= t < 48
    ensures RoundNext(t)
  {
    assert t == 44 || t == 45 || t == 46 || t == 47;
  }

  lemma RoundRow12(t: nat)
    requires 48 <= t < 52
    ensures RoundNext(t)
  {
    assert t == 48 || t == 49 || t == 50 || t == 51;
  }

  lemma RoundRow13(t: nat)
    requires 52 <= t < 56
    ensures RoundNext(t)
  {
    assert t == 52 || t == 53 || t == 54 || t == 55;
  }

  lemma RoundRow14(t: nat)
    requires 56 <= t < 60
    ensures RoundNext(t)
  {
    assert t == 56 || t == 57 || t == 58 || t == 59;
  }

  lemma RoundRow15(t: nat)
    requires 60 <= t < 64
    ensures RoundNext(t)
  {
    assert t == 60 || t == 61 || t == 62 || t == 63;
  }

  /** The one block of the padded message. */
  lemma Block(msg: Bytes)
    requires msg == [0x61, 0x62, 0x63]
    ensures Pad(msg) == [0x61, 0x62, 0x63, 0x80] + Zeros(52) + [0, 0, 0, 0, 0, 0, 0, 24] && |Pad(msg)| == 64
  {
    Length();
    assert PadZeros(3) == 52;
    assert msg + [0x80] == [0x61, 0x62, 0x63, 0x80];
    hide BigEndian;
  }

  lemma Length()
    ensures BigEndian(24, 8) == [0, 0, 0, 0, 0, 0, 0, 24]
  {
    assert BigEndian(0, 4) == [0, 0, 0, 0];
    assert BigEndian(0, 7) == [0, 0, 0, 0, 0, 0, 0];
  }

  lemma ZeroWord(block: Bytes, t: nat)
    requires |block| == 64 && t < 16 && forall i :: 4 * t <= i < 4 * t + 4 ==> block[i] == 0
    ensures WordAt(block, t) == 0
  {}

  lemma FirstWord(block: Bytes)
    requires |block| == 64
    requires block[0] == 0x61 && block[1] == 0x62 && block[2] == 0x63 && block[3] == 0x80
    ensures WordAt(block, 0) == 0x61626380
  {
    IsByte(block[0], 0x61);
    IsByte(block[1], 0x62);
    IsByte(block[2], 0x63);
    IsByte(block[3], 0x80);
  }

  lemma IsByte(b: byte, x: Word)
    requires b == x as int
    ensures b as bv32 == x
  {}

  lemma LastWord(block: Bytes)
    requires |block| == 64
    requires block[60] == 0 && block[61] == 0 && block[62] == 0 && block[63] == 24
    ensures WordAt(block, 15) == 0x18
  {}

  lemma BlockBytes(msg: Bytes)
    requires msg == [0x61, 0x62, 0x63]
    ensures var b := Pad(msg);
      && |b| == 64 && b[0] == 0x61 && b[1] == 0x62 && b[2] == 0x63 && b[3] == 0x80 && b[63] == 24
      && forall i :: 4 <= i < 63 ==> b[i] == 0
  {
    Block(msg);
    hide Pad;
  }

  lemma BlockWord(msg: Bytes, t: nat)
    requires msg == [0x61, 0x62, 0x63] && t < 16
    ensures |Pad(msg)| == 64 && WordAt(Pad(msg), t) == ScheduleWord(t)
  {
    BlockBytes(msg);
    hide Pad, WordAt;
    var b := Pad(msg);
    if t == 0 { FirstWord(b); } else if t < 15 { ZeroWord(b, t); } else { LastWord(b); }
  }

  lemma {:induction false} ScheduleIs(msg: Bytes, t: nat)
    requires msg == [0x61, 0x62, 0x63] && t < 64
    ensures |Pad(msg)| == 64 && forall s :: 0 <= s <= t ==> Schedule(Pad(msg), s) == ScheduleWord(s)
  {
    hide Pad, ScheduleWord, SmallSigma0, SmallSigma1, WordAt;
    if t > 0 { ScheduleIs(msg, t - 1); }
    if t < 16 { BlockWord(msg, t); } else { NextWord(t); }
    ScheduleStep(Pad(msg), t);
  }

  lemma NextWord(t: nat)
    requires 16 <= t < 64
    ensures ScheduleNext(t)
  {
    hide ScheduleNext;
    if t < 20 { ScheduleRow4(t); } else if t < 24 { ScheduleRow5(t); } else if t < 28 { ScheduleRow6(t); }
    else if t < 32 { ScheduleRow7(t); } else if t < 36 { ScheduleRow8(t); } else if t < 40 { ScheduleRow9(t); }
    else if t < 44 { ScheduleRow10(t); } else if t < 48 { ScheduleRow11(t); } else if t < 52 { ScheduleRow12(t); }
    else if t < 56 { ScheduleRow13(t); } else if t < 60 { ScheduleRow14(t); } else { ScheduleRow15(t); }
  }

  lemma NextRound(t: nat)
    requires t < 64
    ensures RoundNext(t)
  {
    hide RoundNext;
    if t < 4 { RoundRow0(t); } else if t < 8 { RoundRow1(t); } else if t < 12 { RoundRow2(t); }
    else if t < 16 { RoundRow3(t); } else if t < 20 { RoundRow4(t); } else if t < 24 { RoundRow5(t); }
    else if t < 28 { RoundRow6(t); } else if t < 32 { RoundRow7(t); } else if t < 36 { RoundRow8(t); }
    else if t < 40 { RoundRow9(t); } else if t < 44 { RoundRow10(t); } else if t < 48 { RoundRow11(t); }
    else if t < 52 { RoundRow12(t); } else if t < 56 { RoundRow13(t); } else if t < 60 { RoundRow14(t); }
    else { RoundRow15(t); }
  }

  lemma {:induction false} RoundsAre(msg: Bytes, t: nat)
    requires msg == [0x61, 0x62, 0x63] && t <= 64 && |Pad(msg)| == 64
    ensures Rounds(Start(), Pad(msg), t) == Work(t)
  {
    if t == 0 {
      hide Pad;
    } else {
      hide Pad, Work, Round, K, ScheduleWord, Start;
      RoundsAre(msg, t - 1);
      ScheduleIs(msg, t - 1);
      NextRound(t - 1);
      RoundStep(Start(), Pad(msg), t - 1);
    }
  }

  /** The hash value of "abc". */
  lemma {:induction false} HashValue(msg: Bytes)
    requires msg == [0x61, 0x62, 0x63]
    ensures |Pad(msg)| % 64 == 0
    ensures HashBlocks(Pad(msg)) == AddEight(Start(), Work(64))
  {
    Block(msg);
    RoundsAre(msg, 64);
    hide Pad, Rounds, AddEight, Start, Work;
    var b := Pad(msg);
    assert b[..0] == [] && b[0..] == b;
  }

  lemma LastSum()
    ensures AddEight(Start(), Work(64)) == Eight(0xba7816bf, 0x8f01cfea, 0x414140de, 0x5dae2223,
                                              0xb00361a3, 0x96177a9c, 0xb410ff61, 0xf20015ad)
  {}

  /** The digest of "abc", as it is published with the standard. */
  lemma {:induction false} DigestOfAbc(msg: Bytes)
    requires msg == [0x61, 0x62, 0x63]
    ensures Hash(msg)
      == [0xba, 0x78, 0x16, 0xbf]
       + [0x8f, 0x01, 0xcf, 0xea]
       + [0x41, 0x41, 0x40, 0xde]
       + [0x5d, 0xae, 0x22, 0x23]
       + [0xb0, 0x03, 0x61, 0xa3]
       + [0x96, 0x17, 0x7a, 0x9c]
       + [0xb4, 0x10, 0xff, 0x61]
       + [0xf2, 0x00, 0x15, 0xad]
  {
    hide WordBytes, Pad, HashBlocks, AddEight, Start, Work;
    HashValue(msg);
    LastSum();
    FirstWords();
    LastWords();
  }

  lemma FirstWords()
    ensures WordBytes(0xba7816bf) == [0xba, 0x78, 0x16, 0xbf]
    ensures WordBytes(0x8f01cfea) == [0x8f, 0x01, 0xcf, 0xea]
    ensures WordBytes(0x414140de) == [0x41, 0x41, 0x40, 0xde]
    ensures WordBytes(0x5dae2223) == [0x5d, 0xae, 0x22, 0x23]
  {}

  lemma LastWords()
    ensures WordBytes(0xb00361a3) == [0xb0, 0x03, 0x61, 0xa3]
    ensures WordBytes(0x96177a9c) == [0x96, 0x17, 0x7a, 0x9c]
    ensures WordBytes(0xb410ff61) == [0xb4, 0x10, 0xff, 0x61]
    ensures WordBytes(0xf20015ad) == [0xf2, 0x00, 0x15, 0xad]
  {}
}
