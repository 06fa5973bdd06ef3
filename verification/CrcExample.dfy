/** The check value of CRC-32: the remainder for the digits 1 to 9. */
module CrcExample {
  import opened Streaming
  import opened Crc32
  import opened CameoTag

  const DIGITS: seq<Byte> := [0x31, 0x32, 0x33, 0x34, 0x35, 0x36, 0x37, 0x38, 0x39]

  function FourShifts(c: Word): Word { Shift(Shift(Shift(Shift(c)))) }

  lemma Next(c: Word, b: Byte, rest: seq<Byte>, d: Word)
    requires FourShifts(FourShifts(Xor(c, b as Word))) == d
    ensures Serial(c, [b] + rest) == Serial(d, rest)
  {
    hide Bits, Shift, Serial, Low, Xor;
    SerialOne(c, b, rest);
    ByteIsByte(b);
    ByteFits(b as Word);
    BitsAtOnce(c, b as Word, 8);
    EightOnce(Xor(c, b as Word));
  }

  lemma EightOnce(c: Word)
    ensures Shifts(c, 8) == FourShifts(FourShifts(c))
  {
    hide Shift;
    var d := FourShifts(c);
    assert Shifts(c, 8) == Shifts(d, 4) by {
      assert Shifts(c, 8) == Shifts(Shift(Shift(c)), 6);
    }
    assert Shifts(d, 4) == Shifts(Shift(Shift(d)), 2);
  }

  lemma CheckValue()
    ensures Zlib(DIGITS) == 0xcbf43926
  {
    hide Serial;
    var s := DIGITS;
    forall i | 0 <= i < 9
      ensures s[i..] == [s[i]] + s[i + 1..]
    {
    }
    Next(ONES, 0x31, s[1..], 0x7c231048);
    Next(0x7c231048, 0x32, s[2..], 0xb0acbb32);
    Next(0xb0acbb32, 0x33, s[3..], 0x77b79c2d);
    Next(0x77b79c2d, 0x34, s[4..], 0x641c1f5c);
    Next(0x641c1f5c, 0x35, s[5..], 0x340ac5e3);
    Next(0x340ac5e3, 0x36, s[6..], 0xf68d2c9e);
    Next(0xf68d2c9e, 0x37, s[7..], 0xaffc9660);
    Next(0xaffc9660, 0x38, s[8..], 0x651f2550);
    Next(0x651f2550, 0x39, s[9..], 0x340bc6d9);
    assert s[0..] == s && s[9..] == [];
    SerialNothing(0x340bc6d9);
  }
}
