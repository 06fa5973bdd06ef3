/** The digest of the message abc, computed round by round from the standard's formulas: the
    example of FIPS 180-4. */
module Sha256Example {
  import opened WordFormulas
  import opened Streaming
  import opened Sha256
  import opened Sha256Stream

  const ABC: seq<Byte> := [0x61, 0x62, 0x63]

  /** The message schedule, eight words to a row. */
  function WordRow(i: nat): (r: seq<Word>)
    requires i < 8
    ensures |r| == 8
  {
    if i == 0 then [0x61626380, 0x00000000, 0x00000000, 0x00000000, 0x00000000, 0x00000000, 0x00000000, 0x00000000]
    else if i == 1 then [0x00000000, 0x00000000, 0x00000000, 0x00000000, 0x00000000, 0x00000000, 0x00000000, 0x00000018]
    else if i == 2 then [0x61626380, 0x000f0000, 0x7da86405, 0x600003c6, 0x3e9d7b78, 0x0183fc00, 0x12dcbfdb, 0xe2e2c38e]
    else if i == 3 then [0xc8215c1a, 0xb73679a2, 0xe5bc3909, 0x32663c5b, 0x9d209d67, 0xec8726cb, 0x702138a4, 0xd3b7973b]
    else if i == 4 then [0x93f5997f, 0x3b68ba73, 0xaff4ffc1, 0xf10a5c62, 0x0a8b3996, 0x72af830a, 0x9409e33e, 0x24641522]
    else if i == 5 then [0x9f47bf94, 0xf0a64f5a, 0x3e246a79, 0x27333ba3, 0x0c4763f2, 0x840abf27, 0x7a290d5d, 0x065c43da]
    else if i == 6 then [0xfb3e89cb, 0xcc7617db, 0xb9e66c34, 0xa9993667, 0x84badedd, 0xc21462bc, 0x1487472c, 0xb20f7a99]
    else [0xef57b9cd, 0xebe6b238, 0x9fe3095e, 0x78bc8d4b, 0xa43fcf15, 0x668b2ff8, 0xeeaba2cc, 0x12b1edeb]
  }

  ghost predicate Row(block: seq<Byte>, i: nat) {
    |block| == 64 && i < 8 && forall j :: 0 <= j < 8 ==> Schedule(block, 8 * i + j) == WordRow(i)[j]
  }

  lemma FirstRows(block: seq<Byte>)
    requires block == ABC + [0x80] + Zeros(52) + BigEndian64(24)
    ensures Row(block, 0) && Row(block, 1)
  {
    LengthBytes();
    assert block[..4] == [0x61, 0x62, 0x63, 0x80] && block[60..] == [0, 0, 0, 0x18];
    assert forall i :: 4 <= i < 60 ==> block[i] == 0;
    FirstWord(block);
    LastWord(block);
    forall t | 1 <= t < 15
      ensures Schedule(block, t) == 0
    {
      NoughtWord(block, t);
    }
  }

  lemma LengthBytes()
    ensures BigEndian64(24) == [0, 0, 0, 0, 0, 0, 0, 0x18]
  {
    hide ByteOf;
    ByteAbove(24, 0x100_0000_0000_0000);
    ByteAbove(24, 0x1_0000_0000_0000);
    ByteAbove(24, 0x100_0000_0000);
    ByteAbove(24, 0x1_0000_0000);
    ByteAbove(24, 0x100_0000);
    ByteAbove(24, 0x1_0000);
    ByteAbove(24, 0x100);
    LowByte();
  }

  lemma LowByte()
    ensures ByteOf(24, 1) == 0x18
  {}

  lemma FirstWord(block: seq<Byte>)
    requires |block| == 64 && block[..4] == [0x61, 0x62, 0x63, 0x80]
    ensures Schedule(block, 0) == 0x61626380
  {
    assert block[0] == 0x61 && block[1] == 0x62 && block[2] == 0x63 && block[3] == 0x80 by {
      assert block[0] == block[..4][0] && block[1] == block[..4][1] && block[2] == block[..4][2]
          && block[3] == block[..4][3];
    }
  }

  lemma LastWord(block: seq<Byte>)
    requires |block| == 64 && block[60..] == [0, 0, 0, 0x18]
    ensures Schedule(block, 15) == 0x18
  {
    assert block[60] == 0 && block[61] == 0 && block[62] == 0 && block[63] == 0x18 by {
      assert block[60] == block[60..][0] && block[61] == block[60..][1] && block[62] == block[60..][2]
          && block[63] == block[60..][3];
    }
  }

  lemma NoughtWord(block: seq<Byte>, t: nat)
    requires |block| == 64 && t < 16
    requires block[4 * t] == 0 && block[4 * t + 1] == 0 && block[4 * t + 2] == 0 && block[4 * t + 3] == 0
    ensures Schedule(block, t) == 0
  {}

  lemma Word(block: seq<Byte>, t: nat, w: Word)
    requires |block| == 64 && 16 <= t < 64
    requires Expand(Schedule(block, t - 2), Schedule(block, t - 7), Schedule(block, t - 15), Schedule(block, t - 16))
          == w
    ensures Schedule(block, t) == w
  {
    hide Expand;
  }

  lemma Known(block: seq<Byte>, i: nat)
    requires Row(block, i)
    ensures Schedule(block, 8 * i) == WordRow(i)[0] && Schedule(block, 8 * i + 1) == WordRow(i)[1]
    ensures Schedule(block, 8 * i + 2) == WordRow(i)[2] && Schedule(block, 8 * i + 3) == WordRow(i)[3]
    ensures Schedule(block, 8 * i + 4) == WordRow(i)[4] && Schedule(block, 8 * i + 5) == WordRow(i)[5]
    ensures Schedule(block, 8 * i + 6) == WordRow(i)[6] && Schedule(block, 8 * i + 7) == WordRow(i)[7]
  {
    hide Schedule;
    assert forall j :: 0 <= j < 8 ==> Schedule(block, 8 * i + j) == WordRow(i)[j];
  }

  lemma Row2(block: seq<Byte>)
    requires Row(block, 0) && Row(block, 1)
    ensures Row(block, 2)
  {
    hide Schedule;
    Known(block, 0);
    Known(block, 1);
    Word(block, 16, 0x61626380);
    Word(block, 17, 0x000f0000);
    Word(block, 18, 0x7da86405);
    Word(block, 19, 0x600003c6);
    Word(block, 20, 0x3e9d7b78);
    Word(block, 21, 0x0183fc00);
    Word(block, 22, 0x12dcbfdb);
    Word(block, 23, 0xe2e2c38e);
  }

  lemma Row3(block: seq<Byte>)
    requires Row(block, 1) && Row(block, 2)
    ensures Row(block, 3)
  {
    hide Schedule;
    Known(block, 1);
    Known(block, 2);
    Word(block, 24, 0xc8215c1a);
    Word(block, 25, 0xb73679a2);
    Word(block, 26, 0xe5bc3909);
    Word(block, 27, 0x32663c5b);
    Word(block, 28, 0x9d209d67);
    Word(block, 29, 0xec8726cb);
    Word(block, 30, 0x702138a4);
    Word(block, 31, 0xd3b7973b);
  }

  lemma Row4(block: seq<Byte>)
    requires Row(block, 2) && Row(block, 3)
    ensures Row(block, 4)
  {
    hide Schedule;
    Known(block, 2);
    Known(block, 3);
    Word(block, 32, 0x93f5997f);
    Word(block, 33, 0x3b68ba73);
    Word(block, 34, 0xaff4ffc1);
    Word(block, 35, 0xf10a5c62);
    Word(block, 36, 0x0a8b3996);
    Word(block, 37, 0x72af830a);
    Word(block, 38, 0x9409e33e);
    Word(block, 39, 0x24641522);
  }

  lemma Row5(block: seq<Byte>)
    requires Row(block, 3) && Row(block, 4)
    ensures Row(block, 5)
  {
    hide Schedule;
    Known(block, 3);
    Known(block, 4);
    Word(block, 40, 0x9f47bf94);
    Word(block, 41, 0xf0a64f5a);
    Word(block, 42, 0x3e246a79);
    Word(block, 43, 0x27333ba3);
    Word(block, 44, 0x0c4763f2);
    Word(block, 45, 0x840abf27);
    Word(block, 46, 0x7a290d5d);
    Word(block, 47, 0x065c43da);
  }

  lemma Row6(block: seq<Byte>)
    requires Row(block, 4) && Row(block, 5)
    ensures Row(block, 6)
  {
    hide Schedule;
    Known(block, 4);
    Known(block, 5);
    Word(block, 48, 0xfb3e89cb);
    Word(block, 49, 0xcc7617db);
    Word(block, 50, 0xb9e66c34);
    Word(block, 51, 0xa9993667);
    Word(block, 52, 0x84badedd);
    Word(block, 53, 0xc21462bc);
    Word(block, 54, 0x1487472c);
    Word(block, 55, 0xb20f7a99);
  }

  lemma Row7(block: seq<Byte>)
    requires Row(block, 5) && Row(block, 6)
    ensures Row(block, 7)
  {
    hide Schedule;
    Known(block, 5);
    Known(block, 6);
    Word(block, 56, 0xef57b9cd);
    Word(block, 57, 0xebe6b238);
    Word(block, 58, 0x9fe3095e);
    Word(block, 59, 0x78bc8d4b);
    Word(block, 60, 0xa43fcf15);
    Word(block, 61, 0x668b2ff8);
    Word(block, 62, 0xeeaba2cc);
    Word(block, 63, 0x12b1edeb);
  }

  lemma Next(block: seq<Byte>, t: nat, r: Regs, a: Word, e: Word) returns (r2: Regs)
    requires |block| == 64 && t < 64 && Rounds(INITIAL, block, t) == r
    requires Round(r, K(t), Schedule(block, t)) == Regs(a, r.a, r.b, r.c, e, r.e, r.f, r.g)
    ensures r2 == Regs(a, r.a, r.b, r.c, e, r.e, r.f, r.g) && Rounds(INITIAL, block, t + 1) == r2
  {
    r2 := Regs(a, r.a, r.b, r.c, e, r.e, r.f, r.g);
    RoundsStep(INITIAL, block, t);
  }

  lemma Rounds16(block: seq<Byte>)
    requires Row(block, 0) && Row(block, 1)
    ensures Rounds(INITIAL, block, 16)
         == Regs(0xb0fa238e, 0xc0645fde, 0xd932eb16, 0x87912990, 0x07590dcd, 0x0b92f20c, 0x745a48de, 0x1e578218)
  {
    hide Schedule, Rounds;
    Known(block, 0);
    Known(block, 1);
    Before(block);
    var r := Rounds(INITIAL, block, 0);
    r := Next(block, 0, r, 0x5d6aebcd, 0xfa2a4622);
    r := Next(block, 1, r, 0x5a6ad9ad, 0x78ce7989);
    r := Next(block, 2, r, 0xc8c347a7, 0xf92939eb);
    r := Next(block, 3, r, 0xd550f666, 0x24e00850);
    r := Next(block, 4, r, 0x04409a6a, 0x43ada245);
    r := Next(block, 5, r, 0x2b4209f5, 0x714260ad);
    r := Next(block, 6, r, 0xe5030380, 0x9b27a401);
    r := Next(block, 7, r, 0x85a07b5f, 0x0c657a79);
    r := Next(block, 8, r, 0x8e04ecb9, 0x32ca2d8c);
    r := Next(block, 9, r, 0x8c87346b, 0x1cc92596);
    r := Next(block, 10, r, 0x4798a3f4, 0x436b23e8);
    r := Next(block, 11, r, 0xf71fc5a9, 0x816fd6e9);
    r := Next(block, 12, r, 0x87912990, 0x1e578218);
    r := Next(block, 13, r, 0xd932eb16, 0x745a48de);
    r := Next(block, 14, r, 0xc0645fde, 0x0b92f20c);
    r := Next(block, 15, r, 0xb0fa238e, 0x07590dcd);
  }

  lemma Rounds32(block: seq<Byte>)
    requires Row(block, 2) && Row(block, 3)
    requires Rounds(INITIAL, block, 16)
          == Regs(0xb0fa238e, 0xc0645fde, 0xd932eb16, 0x87912990, 0x07590dcd, 0x0b92f20c, 0x745a48de, 0x1e578218)
    ensures Rounds(INITIAL, block, 32)
         == Regs(0x73b33bf5, 0xea992a22, 0xa0060b30, 0x363482c9, 0xba591112, 0x0109ab3a, 0xade79437, 0x6112a3b7)
  {
    hide Schedule, Rounds;
    Known(block, 2);
    Known(block, 3);
    var r := Rounds(INITIAL, block, 16);
    r := Next(block, 16, r, 0x21da9a9b, 0x8034229c);
    r := Next(block, 17, r, 0xc2fbd9d1, 0x846ee454);
    r := Next(block, 18, r, 0xfe777bbf, 0xcc899961);
    r := Next(block, 19, r, 0xe1f20c33, 0xb0638179);
    r := Next(block, 20, r, 0x9dc68b63, 0x8ada8930);
    r := Next(block, 21, r, 0xc2606d6d, 0xe1257970);
    r := Next(block, 22, r, 0xa7a3623f, 0x49f5114a);
    r := Next(block, 23, r, 0xc5d53d8d, 0xaa47c347);
    r := Next(block, 24, r, 0x1c2c2838, 0x2823ef91);
    r := Next(block, 25, r, 0xcde8037d, 0x14383d8e);
    r := Next(block, 26, r, 0xb62ec4bc, 0xc74c6516);
    r := Next(block, 27, r, 0x77d37528, 0xedffbff8);
    r := Next(block, 28, r, 0x363482c9, 0x6112a3b7);
    r := Next(block, 29, r, 0xa0060b30, 0xade79437);
    r := Next(block, 30, r, 0xea992a22, 0x0109ab3a);
    r := Next(block, 31, r, 0x73b33bf5, 0xba591112);
  }

  lemma Rounds48(block: seq<Byte>)
    requires Row(block, 4) && Row(block, 5)
    requires Rounds(INITIAL, block, 32)
          == Regs(0x73b33bf5, 0xea992a22, 0xa0060b30, 0x363482c9, 0xba591112, 0x0109ab3a, 0xade79437, 0x6112a3b7)
    ensures Rounds(INITIAL, block, 48)
         == Regs(0x4172328d, 0xa14c14b0, 0x72ab4b91, 0x26628815, 0xfecf0bc6, 0xd57b94a9, 0xb7755da1, 0xa80f11f0)
  {
    hide Schedule, Rounds;
    Known(block, 4);
    Known(block, 5);
    var r := Rounds(INITIAL, block, 32);
    r := Next(block, 32, r, 0x98e12507, 0x9cd9f5f6);
    r := Next(block, 33, r, 0xfe604df5, 0x59249dd3);
    r := Next(block, 34, r, 0xa9a7738c, 0x085f3833);
    r := Next(block, 35, r, 0x65a0cfe4, 0xf4b002d6);
    r := Next(block, 36, r, 0x41a65cb1, 0x0772a26b);
    r := Next(block, 37, r, 0x34df1604, 0xa507a53d);
    r := Next(block, 38, r, 0x6dc57a8a, 0xf0781bc8);
    r := Next(block, 39, r, 0x79ea687a, 0x1efbc0a0);
    r := Next(block, 40, r, 0xd6670766, 0x26352d63);
    r := Next(block, 41, r, 0xdf46652f, 0x838b2711);
    r := Next(block, 42, r, 0x17aa0dfe, 0xdecd4715);
    r := Next(block, 43, r, 0x9d4baf93, 0xfda24c2e);
    r := Next(block, 44, r, 0x26628815, 0xa80f11f0);
    r := Next(block, 45, r, 0x72ab4b91, 0xb7755da1);
    r := Next(block, 46, r, 0xa14c14b0, 0xd57b94a9);
    r := Next(block, 47, r, 0x4172328d, 0xfecf0bc6);
  }

  lemma Rounds64(block: seq<Byte>)
    requires Row(block, 6) && Row(block, 7)
    requires Rounds(INITIAL, block, 48)
          == Regs(0x4172328d, 0xa14c14b0, 0x72ab4b91, 0x26628815, 0xfecf0bc6, 0xd57b94a9, 0xb7755da1, 0xa80f11f0)
    ensures Rounds(INITIAL, block, 64)
         == Regs(0x506e3058, 0xd39a2165, 0x04d24d6c, 0xb85e2ce9, 0x5ef50f24, 0xfb121210, 0x948d25b6, 0x961f4894)
  {
    hide Schedule, Rounds;
    Known(block, 6);
    Known(block, 7);
    var r := Rounds(INITIAL, block, 48);
    r := Next(block, 48, r, 0x05757ceb, 0xbd714038);
    r := Next(block, 49, r, 0xf11bfaa8, 0x6e5c390c);
    r := Next(block, 50, r, 0x7a0508a1, 0x52f1ccf7);
    r := Next(block, 51, r, 0x886e7a22, 0x49231c1e);
    r := Next(block, 52, r, 0x101fd28f, 0x529e7d00);
    r := Next(block, 53, r, 0xf5702fdb, 0x9f4787c3);
    r := Next(block, 54, r, 0x3ec45cdb, 0xe50e1b4f);
    r := Next(block, 55, r, 0x38cc9913, 0x54cb266b);
    r := Next(block, 56, r, 0xfcd1887b, 0x9b5e906c);
    r := Next(block, 57, r, 0xc062d46f, 0x7e44008e);
    r := Next(block, 58, r, 0xffb70472, 0x6d83bfc6);
    r := Next(block, 59, r, 0xb6ae8fff, 0xb21bad3d);
    r := Next(block, 60, r, 0xb85e2ce9, 0x961f4894);
    r := Next(block, 61, r, 0x04d24d6c, 0x948d25b6);
    r := Next(block, 62, r, 0xd39a2165, 0xfb121210);
    r := Next(block, 63, r, 0x506e3058, 0x5ef50f24);
  }

  lemma Before(block: seq<Byte>)
    requires |block| == 64
    ensures Rounds(INITIAL, block, 0) == INITIAL
  {}

  lemma Compressed(block: seq<Byte>)
    requires block == ABC + [0x80] + Zeros(52) + BigEndian64(24)
    ensures Compress(INITIAL, block)
         == Regs(0xba7816bf, 0x8f01cfea, 0x414140de, 0x5dae2223, 0xb00361a3, 0x96177a9c, 0xb410ff61, 0xf20015ad)
  {
    hide Schedule, Rounds, WordRow, Row;
    FirstRows(block);
    Row2(block);
    Row3(block);
    Row4(block);
    Row5(block);
    Row6(block);
    Row7(block);
    Rounds16(block);
    Rounds32(block);
    Rounds48(block);
    Rounds64(block);
  }

  /** SHA-256 of abc. */
  lemma DigestOfAbc()
    ensures Digest(ABC)
         == [0xba, 0x78, 0x16, 0xbf, 0x8f, 0x01, 0xcf, 0xea, 0x41, 0x41, 0x40, 0xde, 0x5d, 0xae, 0x22, 0x23,
             0xb0, 0x03, 0x61, 0xa3, 0x96, 0x17, 0x7a, 0x9c, 0xb4, 0x10, 0xff, 0x61, 0xf2, 0x00, 0x15, 0xad]
  {
    hide *;
    OneBlock();
    Compressed(ABC + [0x80] + Zeros(52) + BigEndian64(24));
    Written();
  }

  lemma OneBlock()
    ensures Digest(ABC) == Encode(Compress(INITIAL, ABC + [0x80] + Zeros(52) + BigEndian64(24)))
  {
    hide Compress, Encode, Zeros, BigEndian64;
    var length := BigEndian64(24);
    var block := ABC + [0x80] + Zeros(52) + length;
    assert 8 * |ABC| % TWO64 == 24 && ZeroCount(|ABC|) == 52;
    assert Padded(ABC, length) == block;
    assert block[..64] == block && block[64..] == [];
    assert Blocks(Compress, INITIAL, block) == Blocks(Compress, Compress(INITIAL, block), []);
  }

  lemma Written()
    ensures Encode(Regs(0xba7816bf, 0x8f01cfea, 0x414140de, 0x5dae2223, 0xb00361a3, 0x96177a9c, 0xb410ff61, 0xf20015ad))
         == [0xba, 0x78, 0x16, 0xbf, 0x8f, 0x01, 0xcf, 0xea, 0x41, 0x41, 0x40, 0xde, 0x5d, 0xae, 0x22, 0x23,
             0xb0, 0x03, 0x61, 0xa3, 0x96, 0x17, 0x7a, 0x9c, 0xb4, 0x10, 0xff, 0x61, 0xf2, 0x00, 0x15, 0xad]
  {
    assert Bytes(0xba7816bf) == [0xba, 0x78, 0x16, 0xbf];
    assert Bytes(0x8f01cfea) == [0x8f, 0x01, 0xcf, 0xea];
    assert Bytes(0x414140de) == [0x41, 0x41, 0x40, 0xde];
    assert Bytes(0x5dae2223) == [0x5d, 0xae, 0x22, 0x23];
    assert Bytes(0xb00361a3) == [0xb0, 0x03, 0x61, 0xa3];
    assert Bytes(0x96177a9c) == [0x96, 0x17, 0x7a, 0x9c];
    assert Bytes(0xb410ff61) == [0xb4, 0x10, 0xff, 0x61];
    assert Bytes(0xf20015ad) == [0xf2, 0x00, 0x15, 0xad];
  }
}
