/** The CRC-32 of the partition tags, one table entry per byte, against the division of
    the message's bits by the generator polynomial. */
module Crc32 {
  import opened Streaming

  type Word = bv32

  const POLYNOMIAL: Word := 0xEDB88320

  function Xor(x: Word, y: Word): Word { x ^ y }

  function Shr1(x: Word): Word { x >> 1 }

  function Shl1(x: Word): Word { x << 1 }

  function Shr8(x: Word): Word { x >> 8 }

  function Low(x: Word): Word { x & 0xff }

  function High(x: Word): Word { x & 0xffffff00 }

  function Bit0(x: Word): Word { x & 1 }

  // ----- bit by bit -----

  /** One step of the division: the lowest bit leaves, and if it is set the generator is
      subtracted. */
  function Shift(c: Word): Word { if Bit0(c) == 1 then Xor(Shr1(c), POLYNOMIAL) else Shr1(c) }

  /** Takes in the lowest k bits of b, lowest first. */
  function Bits(c: Word, b: Word, k: nat): Word
    decreases k
  {
    if k == 0 then c else Bits(Shift(Xor(c, Bit0(b))), Shr1(b), k - 1)
  }

  /** The register after a message, bit by bit. */
  function Serial(c: Word, m: seq<Byte>): Word
    decreases |m|
  {
    if m == [] then c else Serial(Bits(c, m[0] as Word, 8), m[1..])
  }

  lemma {:induction false} SerialAppend(c: Word, a: seq<Byte>, b: seq<Byte>)
    ensures Serial(c, a + b) == Serial(Serial(c, a), b)
    decreases |a|
  {
    hide Bits;
    if a == [] {
      assert a + b == b;
    } else {
      assert (a + b)[1..] == a[1..] + b;
      SerialAppend(Bits(c, a[0] as Word, 8), a[1..], b);
    }
  }

  // ----- byte by byte -----

  function Shifts(c: Word, k: nat): Word
    decreases k
  {
    if k == 0 then c else Shifts(Shift(c), k - 1)
  }

  /** b has at most k bits. */
  predicate Fits(b: Word, k: nat) { if k == 0 then b == 0 else Fits(Shr1(b), k - 1) }

  lemma SplitBits(c: Word, b: Word)
    ensures (c ^ b) & 1 == (c ^ (b & 1)) & 1
    ensures (c ^ b) >> 1 == ((c ^ (b & 1)) >> 1) ^ (b >> 1)
  {}

  lemma ShiftSplit(c: Word, b: Word)
    ensures Shift(Xor(c, b)) == Xor(Shift(Xor(c, Bit0(b))), Shr1(b))
  {
    SplitBits(c, b);
    var x := Xor(c, Bit0(b));
    assert Bit0(Xor(c, b)) == Bit0(x) && Shr1(Xor(c, b)) == Xor(Shr1(x), Shr1(b));
    hide Xor, Shr1, Bit0;
    XorLaws(Shr1(x), Shr1(b), POLYNOMIAL);
  }

  lemma XorZero(c: Word)
    ensures Xor(c, 0) == c && Xor(0, c) == c
  {}

  /** Adding the bits one by one is adding them all and then shifting. */
  lemma {:induction false} BitsAtOnce(c: Word, b: Word, k: nat)
    requires Fits(b, k)
    ensures Bits(c, b, k) == Shifts(Xor(c, b), k)
    decreases k
  {
    hide Shift, Xor, Bit0, Shr1;
    if k == 0 {
      XorZero(c);
    } else {
      ShiftSplit(c, b);
      BitsAtOnce(Shift(Xor(c, Bit0(b))), Shr1(b), k - 1);
    }
  }

  lemma ByteBound(w: Word)
    requires Low(w) == w
    ensures Shr1(Shr1(Shr1(Shr1(Shr1(Shr1(Shr1(Shr1(w)))))))) == 0
  {}

  lemma ByteFits(w: Word)
    requires Low(w) == w
    ensures Fits(w, 8)
  {
    hide Shr1, Low;
    ByteBound(w);
    var w1 := Shr1(w);
    var w2 := Shr1(w1);
    var w3 := Shr1(w2);
    var w4 := Shr1(w3);
    var w5 := Shr1(w4);
    var w6 := Shr1(w5);
    assert Fits(w6, 2) by { assert Fits(Shr1(w6), 1); }
    assert Fits(w5, 3);
    assert Fits(w4, 4);
    assert Fits(w3, 5);
    assert Fits(w2, 6);
  }

  lemma {:induction false} ShiftsLinear(x: Word, y: Word, k: nat)
    ensures Shifts(Xor(x, y), k) == Xor(Shifts(x, k), Shifts(y, k))
    decreases k
  {
    hide Shift, Xor;
    if k > 0 {
      ShiftLinear(x, y);
      ShiftsLinear(Shift(x), Shift(y), k - 1);
    }
  }

  lemma ShiftLinear(x: Word, y: Word)
    ensures Shift(Xor(x, y)) == Xor(Shift(x), Shift(y))
  {
    hide Xor, Shr1, Bit0;
    LowBits(x, y);
    XorShr(x, y);
    XorLaws(Shr1(x), Shr1(y), POLYNOMIAL);
  }

  lemma LowBits(x: Word, y: Word)
    ensures Bit0(x) == 0 || Bit0(x) == 1
    ensures Bit0(y) == 0 || Bit0(y) == 1
    ensures Bit0(Xor(x, y)) == if Bit0(x) == Bit0(y) then 0 else 1
  {}

  lemma XorShr(x: Word, y: Word)
    ensures Shr1(Xor(x, y)) == Xor(Shr1(x), Shr1(y))
  {}

  lemma XorLaws(x: Word, y: Word, p: Word)
    ensures Xor(Xor(x, p), Xor(y, p)) == Xor(x, y)
    ensures Xor(Xor(x, p), y) == Xor(Xor(x, y), p) == Xor(x, Xor(y, p))
  {
    hide Xor;
    XorAssoc(x, p, y);
    XorCommutes(p, y);
    XorAssoc(x, y, p);
    XorAssoc(Xor(x, p), y, p);
    XorAssoc(Xor(x, y), p, p);
    XorSelf(p);
    XorZero(Xor(x, y));
  }

  lemma XorAssoc(x: Word, y: Word, p: Word)
    ensures Xor(Xor(x, y), p) == Xor(x, Xor(y, p))
  {}

  lemma XorCommutes(x: Word, y: Word)
    ensures Xor(x, y) == Xor(y, x)
  {}

  lemma XorSelf(x: Word)
    ensures Xor(x, x) == 0
  {}

  /** The low k bits are clear. */
  predicate Clear(y: Word, k: nat) { k == 0 || (Bit0(y) == 0 && Clear(Shr1(y), k - 1)) }

  function Right(y: Word, k: nat): Word
    decreases k
  {
    if k == 0 then y else Right(Shr1(y), k - 1)
  }

  lemma {:induction false} ShiftsClear(y: Word, k: nat)
    requires Clear(y, k)
    ensures Shifts(y, k) == Right(y, k)
    decreases k
  {
    hide Shr1, Bit0, Xor;
    if k > 0 {
      ShiftsClear(Shr1(y), k - 1);
    }
  }

  lemma Halves(x: Word)
    ensures Xor(High(x), Low(x)) == x
  {}

  function Shr4(x: Word): Word { x >> 4 }

  predicate NibbleClear(x: Word) { x & 0xf == 0 }

  lemma LowNibble(y: Word)
    requires NibbleClear(y)
    ensures Bit0(y) == 0 && Bit0(Shr1(y)) == 0 && Bit0(Shr1(Shr1(y))) == 0 && Bit0(Shr1(Shr1(Shr1(y)))) == 0
    ensures Shr1(Shr1(Shr1(Shr1(y)))) == Shr4(y)
  {
    hide Bit0, Shr1, Shr4, NibbleClear;
    FirstBits(y);
    LaterBits(y);
    FourShifts(y);
  }

  lemma FirstBits(y: Word)
    requires NibbleClear(y)
    ensures Bit0(y) == 0 && Bit0(Shr1(y)) == 0
  {}

  lemma LaterBits(y: Word)
    requires NibbleClear(y)
    ensures Bit0(Shr1(Shr1(y))) == 0 && Bit0(Shr1(Shr1(Shr1(y)))) == 0
  {}

  lemma FourShifts(y: Word)
    ensures Shr1(Shr1(Shr1(Shr1(y)))) == Shr4(y)
  {}

  lemma Nibbles(x: Word)
    ensures NibbleClear(High(x)) && NibbleClear(Shr4(High(x))) && Shr4(Shr4(High(x))) == Shr8(x)
  {}

  lemma HighByte(x: Word)
    ensures Clear(High(x), 8) && Right(High(x), 8) == Shr8(x)
  {
    hide Shr1, Shr4, Shr8, Bit0, High, NibbleClear;
    Nibbles(x);
    LowNibble(High(x));
    LowNibble(Shr4(High(x)));
    var y := High(x);
    var y1 := Shr1(y);
    var y2 := Shr1(y1);
    var y3 := Shr1(y2);
    var y4 := Shr1(y3);
    var y5 := Shr1(y4);
    var y6 := Shr1(y5);
    var y7 := Shr1(y6);
    assert Clear(y7, 1) && Right(y7, 1) == Shr8(x);
    assert Clear(y6, 2) && Right(y6, 2) == Shr8(x);
    assert Clear(y5, 3) && Right(y5, 3) == Shr8(x);
    assert Clear(y4, 4) && Right(y4, 4) == Shr8(x);
    assert Clear(y3, 5) && Right(y3, 5) == Shr8(x);
    assert Clear(y2, 6) && Right(y2, 6) == Shr8(x);
    assert Clear(y1, 7) && Right(y1, 7) == Shr8(x);
  }

  /** Eight steps move the upper bytes down and add what the lowest byte gives. */
  lemma EightSteps(x: Word)
    ensures Shifts(x, 8) == Xor(Shr8(x), Shifts(Low(x), 8))
  {
    hide Shifts, Clear, Right, Xor, High, Low, Shr8, Bit0, Shr1;
    Halves(x);
    HighByte(x);
    ShiftsLinear(High(x), Low(x), 8);
    ShiftsClear(High(x), 8);
  }

  // ----- the table -----

  function Row(k: nat): (r: seq<Word>)
    ensures |r| == 16
  {
    if k == 0 then
      [0x00000000, 0x77073096, 0xEE0E612C, 0x990951BA, 0x076DC419, 0x706AF48F, 0xE963A535, 0x9E6495A3,
       0x0EDB8832, 0x79DCB8A4, 0xE0D5E91E, 0x97D2D988, 0x09B64C2B, 0x7EB17CBD, 0xE7B82D07, 0x90BF1D91]
    else if k == 1 then
      [0x1DB71064, 0x6AB020F2, 0xF3B97148, 0x84BE41DE, 0x1ADAD47D, 0x6DDDE4EB, 0xF4D4B551, 0x83D385C7,
       0x136C9856, 0x646BA8C0, 0xFD62F97A, 0x8A65C9EC, 0x14015C4F, 0x63066CD9, 0xFA0F3D63, 0x8D080DF5]
    else if k == 2 then
      [0x3B6E20C8, 0x4C69105E, 0xD56041E4, 0xA2677172, 0x3C03E4D1, 0x4B04D447, 0xD20D85FD, 0xA50AB56B,
       0x35B5A8FA, 0x42B2986C, 0xDBBBC9D6, 0xACBCF940, 0x32D86CE3, 0x45DF5C75, 0xDCD60DCF, 0xABD13D59]
    else if k == 3 then
      [0x26D930AC, 0x51DE003A, 0xC8D75180, 0xBFD06116, 0x21B4F4B5, 0x56B3C423, 0xCFBA9599, 0xB8BDA50F,
       0x2802B89E, 0x5F058808, 0xC60CD9B2, 0xB10BE924, 0x2F6F7C87, 0x58684C11, 0xC1611DAB, 0xB6662D3D]
    else if k == 4 then
      [0x76DC4190, 0x01DB7106, 0x98D220BC, 0xEFD5102A, 0x71B18589, 0x06B6B51F, 0x9FBFE4A5, 0xE8B8D433,
       0x7807C9A2, 0x0F00F934, 0x9609A88E, 0xE10E9818, 0x7F6A0DBB, 0x086D3D2D, 0x91646C97, 0xE6635C01]
    else if k == 5 then
      [0x6B6B51F4, 0x1C6C6162, 0x856530D8, 0xF262004E, 0x6C0695ED, 0x1B01A57B, 0x8208F4C1, 0xF50FC457,
       0x65B0D9C6, 0x12B7E950, 0x8BBEB8EA, 0xFCB9887C, 0x62DD1DDF, 0x15DA2D49, 0x8CD37CF3, 0xFBD44C65]
    else if k == 6 then
      [0x4DB26158, 0x3AB551CE, 0xA3BC0074, 0xD4BB30E2, 0x4ADFA541, 0x3DD895D7, 0xA4D1C46D, 0xD3D6F4FB,
       0x4369E96A, 0x346ED9FC, 0xAD678846, 0xDA60B8D0, 0x44042D73, 0x33031DE5, 0xAA0A4C5F, 0xDD0D7CC9]
    else if k == 7 then
      [0x5005713C, 0x270241AA, 0xBE0B1010, 0xC90C2086, 0x5768B525, 0x206F85B3, 0xB966D409, 0xCE61E49F,
       0x5EDEF90E, 0x29D9C998, 0xB0D09822, 0xC7D7A8B4, 0x59B33D17, 0x2EB40D81, 0xB7BD5C3B, 0xC0BA6CAD]
    else if k == 8 then
      [0xEDB88320, 0x9ABFB3B6, 0x03B6E20C, 0x74B1D29A, 0xEAD54739, 0x9DD277AF, 0x04DB2615, 0x73DC1683,
       0xE3630B12, 0x94643B84, 0x0D6D6A3E, 0x7A6A5AA8, 0xE40ECF0B, 0x9309FF9D, 0x0A00AE27, 0x7D079EB1]
    else if k == 9 then
      [0xF00F9344, 0x8708A3D2, 0x1E01F268, 0x6906C2FE, 0xF762575D, 0x806567CB, 0x196C3671, 0x6E6B06E7,
       0xFED41B76, 0x89D32BE0, 0x10DA7A5A, 0x67DD4ACC, 0xF9B9DF6F, 0x8EBEEFF9, 0x17B7BE43, 0x60B08ED5]
    else if k == 10 then
      [0xD6D6A3E8, 0xA1D1937E, 0x38D8C2C4, 0x4FDFF252, 0xD1BB67F1, 0xA6BC5767, 0x3FB506DD, 0x48B2364B,
       0xD80D2BDA, 0xAF0A1B4C, 0x36034AF6, 0x41047A60, 0xDF60EFC3, 0xA867DF55, 0x316E8EEF, 0x4669BE79]
    else if k == 11 then
      [0xCB61B38C, 0xBC66831A, 0x256FD2A0, 0x5268E236, 0xCC0C7795, 0xBB0B4703, 0x220216B9, 0x5505262F,
       0xC5BA3BBE, 0xB2BD0B28, 0x2BB45A92, 0x5CB36A04, 0xC2D7FFA7, 0xB5D0CF31, 0x2CD99E8B, 0x5BDEAE1D]
    else if k == 12 then
      [0x9B64C2B0, 0xEC63F226, 0x756AA39C, 0x026D930A, 0x9C0906A9, 0xEB0E363F, 0x72076785, 0x05005713,
       0x95BF4A82, 0xE2B87A14, 0x7BB12BAE, 0x0CB61B38, 0x92D28E9B, 0xE5D5BE0D, 0x7CDCEFB7, 0x0BDBDF21]
    else if k == 13 then
      [0x86D3D2D4, 0xF1D4E242, 0x68DDB3F8, 0x1FDA836E, 0x81BE16CD, 0xF6B9265B, 0x6FB077E1, 0x18B74777,
       0x88085AE6, 0xFF0F6A70, 0x66063BCA, 0x11010B5C, 0x8F659EFF, 0xF862AE69, 0x616BFFD3, 0x166CCF45]
    else if k == 14 then
      [0xA00AE278, 0xD70DD2EE, 0x4E048354, 0x3903B3C2, 0xA7672661, 0xD06016F7, 0x4969474D, 0x3E6E77DB,
       0xAED16A4A, 0xD9D65ADC, 0x40DF0B66, 0x37D83BF0, 0xA9BCAE53, 0xDEBB9EC5, 0x47B2CF7F, 0x30B5FFE9]
    else
      [0xBDBDF21C, 0xCABAC28A, 0x53B39330, 0x24B4A3A6, 0xBAD03605, 0xCDD70693, 0x54DE5729, 0x23D967BF,
       0xB3667A2E, 0xC4614AB8, 0x5D681B02, 0x2A6F2B94, 0xB40BBE37, 0xC30C8EA1, 0x5A05DF1B, 0x2D02EF8D]
  }

  function Table(i: nat): Word
    requires i < 256
  {
    Row(i / 16)[i % 16]
  }

  /** Undoes a step: the generator's top bit tells whether it was subtracted. */
  function Unshift(v: Word): Word { if v & 0x80000000 != 0 then Xor(Shl1(Xor(v, POLYNOMIAL)), 1) else Shl1(v) }

  /** Entries 2i and 2i + 1, from entry i. */
  predicate Next(x: Word, even: Word, odd: Word) { even == Unshift(x) && odd == Xor(even, 0x77073096) }

  function Half(h: nat): (r: seq<Word>)
    requires h < 16
    ensures |r| == 8
  {
    if h % 2 == 0 then Row(h / 2)[..8] else Row(h / 2)[8..]
  }

  predicate Follows(a: seq<Word>, b: seq<Word>) {
    && |a| == 8 && |b| == 16
    && Next(a[0], b[0], b[1]) && Next(a[1], b[2], b[3]) && Next(a[2], b[4], b[5]) && Next(a[3], b[6], b[7])
    && Next(a[4], b[8], b[9]) && Next(a[5], b[10], b[11]) && Next(a[6], b[12], b[13]) && Next(a[7], b[14], b[15])
  }

  lemma Row0()
    ensures Follows(Half(0), Row(0))
  {}

  lemma Row1()
    ensures Follows(Half(1), Row(1))
  {}

  lemma Row2()
    ensures Follows(Half(2), Row(2))
  {}

  lemma Row3()
    ensures Follows(Half(3), Row(3))
  {}

  lemma Row4()
    ensures Follows(Half(4), Row(4))
  {}

  lemma Row5()
    ensures Follows(Half(5), Row(5))
  {}

  lemma Row6()
    ensures Follows(Half(6), Row(6))
  {}

  lemma Row7()
    ensures Follows(Half(7), Row(7))
  {}

  lemma Row8()
    ensures Follows(Half(8), Row(8))
  {}

  lemma Row9()
    ensures Follows(Half(9), Row(9))
  {}

  lemma Row10()
    ensures Follows(Half(10), Row(10))
  {}

  lemma Row11()
    ensures Follows(Half(11), Row(11))
  {}

  lemma Row12()
    ensures Follows(Half(12), Row(12))
  {}

  lemma Row13()
    ensures Follows(Half(13), Row(13))
  {}

  lemma Row14()
    ensures Follows(Half(14), Row(14))
  {}

  lemma Row15()
    ensures Follows(Half(15), Row(15))
  {}

  lemma RowFollows(h: nat)
    requires h < 16
    ensures Follows(Half(h), Row(h))
  {
    hide Follows, Half, Row;
    if h < 4 {
      Row0(); Row1(); Row2(); Row3();
    } else if h < 8 {
      Row4(); Row5(); Row6(); Row7();
    } else if h < 12 {
      Row8(); Row9(); Row10(); Row11();
    } else {
      Row12(); Row13(); Row14(); Row15();
    }
  }

  lemma FollowsAt(a: seq<Word>, b: seq<Word>, j: nat)
    requires Follows(a, b) && j < 8
    ensures Next(a[j], b[2 * j], b[2 * j + 1])
  {
    hide Next;
  }

  lemma TableNext(i: nat)
    requires i < 128
    ensures Next(Table(i), Table(2 * i), Table(2 * i + 1))
  {
    hide Follows, Row, Next;
    var h, j := i / 8, i % 8;
    RowFollows(h);
    FollowsAt(Half(h), Row(h), j);
    assert 2 * i == 16 * h + 2 * j && i / 16 == h / 2;
    assert i % 16 == if h % 2 == 0 then j else 8 + j;
  }

  lemma TableStart()
    ensures Table(0) == 0 && Table(1) == 0x77073096
  {}

  /** The number the lowest k bits stand for. */
  function Number(x: Word, k: nat): nat
    decreases k
  {
    if k == 0 then 0 else (if Bit0(x) == 1 then 1 else 0) + 2 * Number(Shr1(x), k - 1)
  }

  function Pow2(k: nat): nat { if k == 0 then 1 else 2 * Pow2(k - 1) }

  lemma {:induction false} NumberBound(x: Word, k: nat)
    requires k <= 8
    ensures Number(x, k) < Pow2(k) <= 256 && (k < 8 ==> Pow2(k) <= 128)
    decreases k
  {
    hide Shr1, Bit0;
    if k > 0 {
      NumberBound(Shr1(x), k - 1);
    }
    Pow2Small(k);
  }

  lemma {:induction false} Pow2Small(k: nat)
    requires k <= 8
    ensures Pow2(k) <= 256 && (k < 8 ==> 2 * Pow2(k) <= 256)
    decreases 8 - k
  {
    if k < 8 {
      Pow2Small(k + 1);
    } else {
      assert Pow2(8) == 4 * Pow2(6) && Pow2(6) == 4 * Pow2(4) && Pow2(4) == 4 * Pow2(2) && Pow2(2) == 4;
    }
  }

  lemma UnshiftShift(v: Word)
    ensures Unshift(Shift(v)) == v
  {}

  lemma {:induction false} ShiftsOut(x: Word, k: nat)
    ensures Shifts(x, k + 1) == Shift(Shifts(x, k))
    decreases k
  {
    hide Shift;
    if k > 0 {
      ShiftsOut(Shift(x), k - 1);
    }
  }

  lemma Recompose(x: Word)
    ensures x == if Bit0(x) == 1 then Xor(Shl1(Shr1(x)), 1) else Shl1(Shr1(x))
    ensures Shift(Shl1(Shr1(x))) == Shr1(x)
  {}

  /** Eight steps from 2y, given eight steps from y. */
  lemma StepsDoubled(y: Word)
    requires Shift(Shl1(y)) == y
    ensures Shifts(Shl1(y), 8) == Unshift(Shifts(y, 8))
  {
    hide Unshift, Shift, Shl1;
    ShiftsOut(y, 7);
    UnshiftShift(Shifts(y, 7));
  }

  lemma StepsOne()
    ensures Shifts(1, 8) == 0x77073096 && Shifts(0, 8) == 0
  {
    FirstSteps();
    hide Shift;
    assert Shifts(0, 8) == Shifts(0, 7) == Shifts(0, 6) == Shifts(0, 5) == Shifts(0, 4) == Shifts(0, 3)
        == Shifts(0, 2) == Shifts(0, 1);
    assert Shifts(1, 8) == Shifts(0xEDB88320, 7) == Shifts(0x76DC4190, 6) == Shifts(0x3B6E20C8, 5)
        == Shifts(0x1DB71064, 4);
    assert Shifts(0x1DB71064, 4) == Shifts(0x0EDB8832, 3) == Shifts(0x076DC419, 2) == Shifts(0xEE0E612C, 1)
        == Shifts(0x77073096, 0);
  }

  lemma FirstSteps()
    ensures Shift(0) == 0
    ensures Shift(1) == 0xEDB88320 && Shift(0xEDB88320) == 0x76DC4190 && Shift(0x76DC4190) == 0x3B6E20C8
    ensures Shift(0x3B6E20C8) == 0x1DB71064 && Shift(0x1DB71064) == 0x0EDB8832 && Shift(0x0EDB8832) == 0x076DC419
    ensures Shift(0x076DC419) == 0xEE0E612C && Shift(0xEE0E612C) == 0x77073096
  {}

  /** Every entry of the table is the result of eight steps from its own number. */
  lemma {:induction false} TableRight(x: Word, k: nat)
    requires Fits(x, k) && k <= 8
    ensures Number(x, k) < 256 && Table(Number(x, k)) == Shifts(x, 8)
    decreases k
  {
    hide Table, Shifts, Unshift, Shift, Xor, Shl1, Shr1, Bit0;
    TableStart();
    StepsOne();
    if k > 0 {
      var y := Shr1(x);
      TableRight(y, k - 1);
      NumberBound(y, k - 1);
      TableNext(Number(y, k - 1));
      Recompose(x);
      StepsDoubled(y);
      ShiftsLinear(Shl1(y), 1, 8);
    }
  }

  // ----- one byte with the table -----

  function ByteStep(c: Word, b: Byte): Word {
    NumberBound(Low(Xor(c, b as Word)), 8);
    Xor(Shr8(c), Table(Number(Low(Xor(c, b as Word)), 8)))
  }

  lemma ByteMasks(c: Word, b: Word)
    requires Low(b) == b
    ensures Shr8(Xor(c, b)) == Shr8(c) && Low(Low(Xor(c, b))) == Low(Xor(c, b))
  {}

  lemma ByteIsByte(b: Byte)
    ensures Low(b as Word) == b as Word
  {}

  /** A look-up does the work of eight steps. */
  lemma ByteStepRight(c: Word, b: Byte)
    ensures ByteStep(c, b) == Bits(c, b as Word, 8)
  {
    hide Table, Shifts, Bits, Fits, Number, Xor, Low, Shr8;
    var w := b as Word;
    ByteIsByte(b);
    ByteFits(w);
    BitsAtOnce(c, w, 8);
    EightSteps(Xor(c, w));
    ByteMasks(c, w);
    ByteFits(Low(Xor(c, w)));
    TableRight(Low(Xor(c, w)), 8);
  }

  /** The table-driven loop gives the remainder of the bit-by-bit division, for every
      message and every starting value. */
  method Crc(bytes: seq<Byte>, size: nat, init: Word) returns (crc: Word)
    requires size <= |bytes|
    ensures crc == Serial(init, bytes[..size])
  {
    hide ByteStep, Bits;
    crc := init;
    var i := 0;
    while i < size
      invariant 0 <= i <= size && crc == Serial(init, bytes[..i])
    {
      ByteStepRight(crc, bytes[i]);
      assert bytes[..i + 1] == bytes[..i] + [bytes[i]];
      SerialAppend(init, bytes[..i], [bytes[i]]);
      assert [bytes[i]][1..] == [];
      crc := ByteStep(crc, bytes[i]);
      i := i + 1;
    }
  }
}
