/** The digest of the message abc, computed step by step from the standard's formulas: an
    example of appendix A.5 of RFC 1321. */
module Md5Example {
  import opened Streaming
  import opened Md5
  import opened Md5Stream

  const ABC: seq<Byte> := [0x61, 0x62, 0x63]

  ghost predicate Words(block: seq<Byte>) {
    && |block| == 64
    && forall k :: 0 <= k < 16 ==> BlockWord(block, k) == if k == 0 then 0x80636261 else if k == 14 then 0x18 else 0
  }

  lemma BlockWords(block: seq<Byte>)
    requires block == ABC + [0x80] + Zeros(52) + LittleEndian64(24)
    ensures Words(block)
  {
    LengthBytes();
    assert block[0] == 0x61 && block[1] == 0x62 && block[2] == 0x63 && block[3] == 0x80 && block[56] == 0x18;
    assert forall i :: 4 <= i < 64 && i != 56 ==> block[i] == 0;
    forall k | 0 <= k < 16
      ensures BlockWord(block, k) == if k == 0 then 0x80636261 else if k == 14 then 0x18 else 0
    {
      OneWord(block, k);
    }
  }

  lemma OneWord(block: seq<Byte>, k: nat)
    requires |block| == 64 && k < 16
    requires block[0] == 0x61 && block[1] == 0x62 && block[2] == 0x63 && block[3] == 0x80 && block[56] == 0x18
    requires forall i :: 4 <= i < 64 && i != 56 ==> block[i] == 0
    ensures BlockWord(block, k) == if k == 0 then 0x80636261 else if k == 14 then 0x18 else 0
  {}

  lemma LengthBytes()
    ensures LittleEndian64(24) == [0x18, 0, 0, 0, 0, 0, 0, 0]
  {
    hide ByteOf;
    ByteAbove(24, 0x100_0000_0000_0000);
    ByteAbove(24, 0x1_0000_0000_0000);
    ByteAbove(24, 0x100_0000_0000);
    ByteAbove(24, 0x1_0000_0000);
    ByteAbove(24, 0x100_0000);
    ByteAbove(24, 0x1_0000);
    ByteAbove(24, 0x100);
    LowByte();
  }

  lemma LowByte()
    ensures ByteOf(24, 1) == 0x18
  {}

  lemma Next(block: seq<Byte>, i: nat, r: Regs, b: Word) returns (r2: Regs)
    requires Words(block) && i < 64 && Steps(INITIAL, block, i) == r
    requires var x := if WordIndex(i) == 0 then 0x80636261 else if WordIndex(i) == 14 then 0x18 else 0;
             Add(Rotate(Sum4(r.a, Mixer(i / 16, r.b, r.c, r.d), x, T(i)), Shift(i)), r.b) == b
    ensures r2 == Regs(r.d, b, r.b, r.c) && Steps(INITIAL, block, i + 1) == r2
  {
    hide T, Rotate, Mixer, Sum4, Add, BlockWord, Shift;
    r2 := Regs(r.d, b, r.b, r.c);
  }

  lemma Steps8(block: seq<Byte>)
    requires |block| == 64 && Words(block)
    ensures Steps(INITIAL, block, 8) == Regs(0xc73741ef, 0x928d99f6, 0x207dc67b, 0x8bac3051)
  {
    hide Steps, Words;
    Before(block);
    var r := Steps(INITIAL, block, 0);
    r := Next(block, 0, r, 0xd6d117b4);
    r := Next(block, 1, r, 0x344a8432);
    r := Next(block, 2, r, 0x2f6fbd72);
    r := Next(block, 3, r, 0x7ad956f2);
    r := Next(block, 4, r, 0xc73741ef);
    r := Next(block, 5, r, 0x8bac3051);
    r := Next(block, 6, r, 0x207dc67b);
    r := Next(block, 7, r, 0x928d99f6);
  }

  lemma Steps16(block: seq<Byte>)
    requires |block| == 64 && Words(block)
    requires Steps(INITIAL, block, 8) == Regs(0xc73741ef, 0x928d99f6, 0x207dc67b, 0x8bac3051)
    ensures Steps(INITIAL, block, 16) == Regs(0xdda9b9a6, 0x72aff2e0, 0xe396856b, 0xa1051895)
  {
    hide Steps, Words;
    var r := Steps(INITIAL, block, 8);
    r := Next(block, 8, r, 0x854b3712);
    r := Next(block, 9, r, 0x74e2f284);
    r := Next(block, 10, r, 0x3020401c);
    r := Next(block, 11, r, 0x5ed49596);
    r := Next(block, 12, r, 0xdda9b9a6);
    r := Next(block, 13, r, 0xa1051895);
    r := Next(block, 14, r, 0xe396856b);
    r := Next(block, 15, r, 0x72aff2e0);
  }

  lemma Steps24(block: seq<Byte>)
    requires |block| == 64 && Words(block)
    requires Steps(INITIAL, block, 16) == Regs(0xdda9b9a6, 0x72aff2e0, 0xe396856b, 0xa1051895)
    ensures Steps(INITIAL, block, 24) == Regs(0x59a8ffda, 0x47092c07, 0xabfc7920, 0x6d002f1e)
  {
    hide Steps, Words;
    var r := Steps(INITIAL, block, 16);
    r := Next(block, 16, r, 0x3e9e9126);
    r := Next(block, 17, r, 0x4a1d804e);
    r := Next(block, 18, r, 0xe25e1652);
    r := Next(block, 19, r, 0xb5b204e4);
    r := Next(block, 20, r, 0x59a8ffda);
    r := Next(block, 21, r, 0x6d002f1e);
    r := Next(block, 22, r, 0xabfc7920);
    r := Next(block, 23, r, 0x47092c07);
  }

  lemma Steps32(block: seq<Byte>)
    requires |block| == 64 && Words(block)
    requires Steps(INITIAL, block, 24) == Regs(0x59a8ffda, 0x47092c07, 0xabfc7920, 0x6d002f1e)
    ensures Steps(INITIAL, block, 32) == Regs(0x790a77fb, 0x726342d3, 0xa62884aa, 0x9f47e4f8)
  {
    hide Steps, Words;
    var r := Steps(INITIAL, block, 24);
    r := Next(block, 24, r, 0xb7f268cf);
    r := Next(block, 25, r, 0x09388eff);
    r := Next(block, 26, r, 0xfe1623b1);
    r := Next(block, 27, r, 0x786acb8f);
    r := Next(block, 28, r, 0x790a77fb);
    r := Next(block, 29, r, 0x9f47e4f8);
    r := Next(block, 30, r, 0xa62884aa);
    r := Next(block, 31, r, 0x726342d3);
  }

  lemma Steps40(block: seq<Byte>)
    requires |block| == 64 && Words(block)
    requires Steps(INITIAL, block, 32) == Regs(0x790a77fb, 0x726342d3, 0xa62884aa, 0x9f47e4f8)
    ensures Steps(INITIAL, block, 40) == Regs(0x21b117b9, 0x5a2f5ea5, 0x3575227e, 0x6e7429d5)
  {
    hide Steps, Words;
    var r := Steps(INITIAL, block, 32);
    r := Next(block, 32, r, 0xb3707ebf);
    r := Next(block, 33, r, 0x60127b2e);
    r := Next(block, 34, r, 0x8d212ff5);
    r := Next(block, 35, r, 0x3b0875c7);
    r := Next(block, 36, r, 0x21b117b9);
    r := Next(block, 37, r, 0x6e7429d5);
    r := Next(block, 38, r, 0x3575227e);
    r := Next(block, 39, r, 0x5a2f5ea5);
  }

  lemma Steps48(block: seq<Byte>)
    requires |block| == 64 && Words(block)
    requires Steps(INITIAL, block, 40) == Regs(0x21b117b9, 0x5a2f5ea5, 0x3575227e, 0x6e7429d5)
    ensures Steps(INITIAL, block, 48) == Regs(0x7f2e507b, 0x7beb9700, 0x8fae6399, 0x99d9679d)
  {
    hide Steps, Words;
    var r := Steps(INITIAL, block, 40);
    r := Next(block, 40, r, 0x11de1779);
    r := Next(block, 41, r, 0xfadcaa38);
    r := Next(block, 42, r, 0x31c465ca);
    r := Next(block, 43, r, 0x4c6124f4);
    r := Next(block, 44, r, 0x7f2e507b);
    r := Next(block, 45, r, 0x99d9679d);
    r := Next(block, 46, r, 0x8fae6399);
    r := Next(block, 47, r, 0x7beb9700);
  }

  lemma Steps56(block: seq<Byte>)
    requires |block| == 64 && Words(block)
    requires Steps(INITIAL, block, 48) == Regs(0x7f2e507b, 0x7beb9700, 0x8fae6399, 0x99d9679d)
    ensures Steps(INITIAL, block, 56) == Regs(0x06cc5e8a, 0x3bfa2c27, 0x7d632dd0, 0x5b0d97aa)
  {
    hide Steps, Words;
    var r := Steps(INITIAL, block, 48);
    r := Next(block, 48, r, 0x7b201df8);
    r := Next(block, 49, r, 0xf4e8e96e);
    r := Next(block, 50, r, 0xb298cefd);
    r := Next(block, 51, r, 0x8bf025c4);
    r := Next(block, 52, r, 0x06cc5e8a);
    r := Next(block, 53, r, 0x5b0d97aa);
    r := Next(block, 54, r, 0x7d632dd0);
    r := Next(block, 55, r, 0x3bfa2c27);
  }

  lemma Steps64(block: seq<Byte>)
    requires |block| == 64 && Words(block)
    requires Steps(INITIAL, block, 56) == Regs(0x06cc5e8a, 0x3bfa2c27, 0x7d632dd0, 0x5b0d97aa)
    ensures Steps(INITIAL, block, 64) == Regs(0x310ade8f, 0xc08226b3, 0xe484b9d8, 0x624d8cb2)
  {
    hide Steps, Words;
    var r := Steps(INITIAL, block, 56);
    r := Next(block, 56, r, 0x7f81cc35);
    r := Next(block, 57, r, 0x094454ab);
    r := Next(block, 58, r, 0x4f9dbe3f);
    r := Next(block, 59, r, 0x7327d604);
    r := Next(block, 60, r, 0x310ade8f);
    r := Next(block, 61, r, 0x624d8cb2);
    r := Next(block, 62, r, 0xe484b9d8);
    r := Next(block, 63, r, 0xc08226b3);
  }

  lemma Before(block: seq<Byte>)
    requires |block| == 64
    ensures Steps(INITIAL, block, 0) == INITIAL
  {}

  lemma Compressed(block: seq<Byte>)
    requires block == ABC + [0x80] + Zeros(52) + LittleEndian64(24)
    ensures Compress(INITIAL, block) == Regs(0x98500190, 0xb04fd23c, 0x7d3f96d6, 0x727fe128)
  {
    hide Steps;
    BlockWords(block);
    Steps8(block);
    Steps16(block);
    Steps24(block);
    Steps32(block);
    Steps40(block);
    Steps48(block);
    Steps56(block);
    Steps64(block);
  }

  /** MD5 of abc. */
  lemma DigestOfAbc()
    ensures Digest(ABC)
         == [0x90, 0x01, 0x50, 0x98, 0x3c, 0xd2, 0x4f, 0xb0, 0xd6, 0x96, 0x3f, 0x7d, 0x28, 0xe1, 0x7f, 0x72]
  {
    hide *;
    OneBlock();
    Compressed(ABC + [0x80] + Zeros(52) + LittleEndian64(24));
    Written();
  }

  lemma OneBlock()
    ensures Digest(ABC) == Encode(Compress(INITIAL, ABC + [0x80] + Zeros(52) + LittleEndian64(24)))
  {
    hide Compress, Encode, Zeros, LittleEndian64;
    var length := LittleEndian64(24);
    var block := ABC + [0x80] + Zeros(52) + length;
    assert 8 * |ABC| % TWO64 == 24 && ZeroCount(|ABC|) == 52;
    assert Padded(ABC, length) == block;
    assert block[..64] == block && block[64..] == [];
    assert Blocks(Compress, INITIAL, block) == Blocks(Compress, Compress(INITIAL, block), []);
  }

  lemma Written()
    ensures Encode(Regs(0x98500190, 0xb04fd23c, 0x7d3f96d6, 0x727fe128))
         == [0x90, 0x01, 0x50, 0x98, 0x3c, 0xd2, 0x4f, 0xb0, 0xd6, 0x96, 0x3f, 0x7d, 0x28, 0xe1, 0x7f, 0x72]
  {
    assert Bytes(0x98500190) == [0x90, 0x01, 0x50, 0x98];
    assert Bytes(0xb04fd23c) == [0x3c, 0xd2, 0x4f, 0xb0];
    assert Bytes(0x7d3f96d6) == [0xd6, 0x96, 0x3f, 0x7d];
    assert Bytes(0x727fe128) == [0x28, 0xe1, 0x7f, 0x72];
  }
}
