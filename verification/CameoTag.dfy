/** The image header that carries a CRC and a sum of its bytes, each covering the other. */
module CameoTag {
  import opened Streaming
  import opened Crc32

  // ----- a message that ends with its own register -----

  const ONES: Word := 0xffffffff

  /** CRC-32 as the zlib library gives it: all ones at the start, inverted at the end. */
  function Zlib(m: seq<Byte>): Word { Xor(Serial(ONES, m), ONES) }

  function LowByte(c: Word): Byte { (c & 0xff) as Byte }

  function Little(c: Word): (s: seq<Byte>)
    ensures |s| == 4
  {
    [LowByte(c), LowByte(Shr8(c)), LowByte(Shr8(Shr8(c))), LowByte(Shr8(Shr8(Shr8(c))))]
  }

  lemma LowByteWord(c: Word)
    ensures LowByte(c) as Word == Low(c)
  {}

  lemma LowSelf(c: Word)
    ensures Low(Xor(c, Low(c))) == 0
  {}

  lemma LowLow(c: Word)
    ensures Low(Low(c)) == Low(c)
  {}

  /** Taking in its own lowest byte only moves the register down. */
  lemma OwnByte(c: Word)
    ensures Bits(c, LowByte(c) as Word, 8) == Shr8(c)
  {
    hide Bits, Shifts, Fits, Low, Xor, Shr8, LowByte;
    LowByteWord(c);
    var b := Low(c);
    LowLow(c);
    ByteFits(b);
    BitsAtOnce(c, b, 8);
    EightSteps(Xor(c, b));
    ByteMasks(c, b);
    LowSelf(c);
    StepsOne();
    XorZero(Shr8(c));
  }

  lemma ShiftedOut(c: Word)
    ensures Shr8(Shr8(Shr8(Shr8(c)))) == 0
  {}

  lemma SerialOne(c: Word, b: Byte, rest: seq<Byte>)
    ensures Serial(c, [b] + rest) == Serial(Bits(c, b as Word, 8), rest)
  {
    hide Bits;
    assert ([b] + rest)[1..] == rest;
  }

  lemma OwnByteFirst(c: Word, rest: seq<Byte>)
    ensures Serial(c, [LowByte(c)] + rest) == Serial(Shr8(c), rest)
  {
    hide Bits, Shr8, LowByte, Serial;
    OwnByte(c);
    SerialOne(c, LowByte(c), rest);
  }

  /** Taking in its own four bytes empties the register. */
  lemma OwnBytes(c: Word)
    ensures Serial(c, Little(c)) == 0
  {
    hide Shr8, LowByte, Serial;
    var c1, c2, c3 := Shr8(c), Shr8(Shr8(c)), Shr8(Shr8(Shr8(c)));
    var m1 := [LowByte(c1)] + ([LowByte(c2)] + ([LowByte(c3)] + []));
    assert Little(c) == [LowByte(c)] + m1;
    OwnByteFirst(c, m1);
    OwnByteFirst(c1, [LowByte(c2)] + ([LowByte(c3)] + []));
    OwnByteFirst(c2, [LowByte(c3)] + []);
    OwnByteFirst(c3, []);
    ShiftedOut(c);
    SerialNothing(0);
  }

  lemma SerialNothing(c: Word)
    ensures Serial(c, []) == c
  {}

  function InvertCrc(m: seq<Byte>): (s: seq<Byte>)
    ensures |s| == 4
  {
    Little(Xor(Zlib(m), ONES))
  }

  /** Whatever the data, with its inverted CRC appended it has the CRC 0xffffffff. */
  lemma FixedCrc(m: seq<Byte>)
    ensures Zlib(m + InvertCrc(m)) == ONES
  {
    hide Serial, Little, Xor;
    var r := Serial(ONES, m);
    XorAssoc(r, ONES, ONES);
    XorSelf(ONES);
    XorZero(r);
    SerialAppend(ONES, m, Little(r));
    OwnBytes(r);
    XorZero(ONES);
  }

  // ----- the sum of bytes -----

  function Total(m: seq<Byte>): nat { if m == [] then 0 else Total(m[..|m| - 1]) + m[|m| - 1] as nat }

  function Big(n: nat): (s: seq<Byte>)
    ensures |s| == 4
  {
    [ByteOf(n, 0x100_0000), ByteOf(n, 0x1_0000), ByteOf(n, 0x100), ByteOf(n, 1)]
  }

  function CameoSum(m: seq<Byte>): (s: seq<Byte>)
    ensures |s| == 4
  {
    Big(Total(m) % 0x1_0000_0000)
  }

  method SumOf(m: seq<Byte>) returns (s: seq<Byte>)
    ensures s == CameoSum(m)
  {
    var total: nat := 0;
    for i := 0 to |m|
      invariant total == Total(m[..i])
    {
      assert m[..i + 1][..i] == m[..i];
      total := total + m[i] as nat;
    }
    assert m[..|m|] == m;
    s := Big(total % 0x1_0000_0000);
  }

  /** The sum of a joined message is the sum of the parts, and that of one byte the byte. */
  lemma {:induction false} TotalAppend(a: seq<Byte>, b: seq<Byte>, x: Byte)
    ensures Total(a + b) == Total(a) + Total(b) && Total([x]) == x as nat
    decreases |b|
  {
    assert [x][..0] == [];
    if b == [] {
      assert a + b == a;
    } else {
      var n := |b| - 1;
      assert (a + b)[..|a + b| - 1] == a + b[..n];
      TotalAppend(a, b[..n], x);
    }
  }

  /** The field holds the sum modulo 2^32, most significant byte first. */
  lemma SumField(m: seq<Byte>)
    ensures var s := CameoSum(m);
            0x100_0000 * (s[0] as nat) + 0x1_0000 * (s[1] as nat) + 0x100 * (s[2] as nat) + (s[3] as nat)
            == Total(m) % 0x1_0000_0000
  {
    hide Total;
    BigDigits(Total(m) % 0x1_0000_0000);
  }

  lemma BigDigits(n: nat)
    requires n < 0x1_0000_0000
    ensures var s := Big(n);
            0x100_0000 * (s[0] as nat) + 0x1_0000 * (s[1] as nat) + 0x100 * (s[2] as nat) + (s[3] as nat) == n
  {
    ByteValue(n, 0x100_0000);
    ByteValue(n, 0x1_0000);
    ByteValue(n, 0x100);
    ByteValue(n, 1);
    hide ByteOf;
    Places(n);
  }

  lemma Places(n: nat)
    requires n < 0x1_0000_0000
    ensures 0x100_0000 * (n / 0x100_0000 % 256) + 0x1_0000 * (n / 0x1_0000 % 256) + 0x100 * (n / 0x100 % 256) + n % 256
         == n
  {
    var a := n / 0x100;
    var b := a / 0x100;
    assert n / 0x1_0000 == b && n / 0x100_0000 == b / 0x100;
  }

  lemma ByteValue(n: nat, shift: nat)
    requires shift > 0
    ensures ByteOf(n, shift) as nat == n / shift % 256
  {
    SmallValue(n / shift % 256);
  }

  lemma SmallValue(v: nat)
    requires v < 256
    ensures (v as Byte) as nat == v
  {
    var b := ByteFor(v);
    assert (b as nat) as Byte == b;
  }

  lemma {:induction false} ByteFor(v: nat) returns (b: Byte)
    requires v < 256
    ensures b as nat == v
  {
    b := 0;
    if v > 0 {
      var a := ByteFor(v - 1);
      Successor(a);
      b := a + 1;
    }
  }

  lemma Successor(b: Byte)
    ensures b as nat == 255 <==> b == 0xff
    ensures b != 0xff ==> (b + 1) as nat == b as nat + 1
  {}

  // ----- the header -----

  const TAG: seq<Byte> := [0x43, 0x41, 0x4d, 0x45, 0x4f, 0x54, 0x41, 0x47, 0x00, 0x00, 0x00, 0x01]
  const NAME: seq<Byte> := [0x4f, 0x70, 0x65, 0x6e, 0x57, 0x72, 0x74, 0x00, 0x00, 0x00, 0x00, 0x00]
  const CRC_00: seq<Byte> := [0x00, 0x00, 0x00, 0x00]
  const CRC_FF: seq<Byte> := [0xff, 0xff, 0xff, 0xff]

  function WithCrcField(h: seq<Byte>, field: seq<Byte>): seq<Byte>
    requires |h| >= 8
  {
    h[..4] + field + h[8..]
  }

  /** The boot loader's check of the header: the CRC of the header with its CRC field
      zeroed is the number in that field. */
  ghost predicate CrcMatches(h: seq<Byte>) {
    |h| == 64 && h[4..8] == CRC_FF && Zlib(WithCrcField(h, CRC_00)) == ONES
  }

  /** The vendor's check: behind the tag stands the sum of all bytes up to there. */
  ghost predicate SumMatches(h: seq<Byte>) {
    |h| == 64 && h[44..56] == TAG && h[56..60] == CameoSum(h[..56])
  }

  /** The header before the two last fields are filled in. */
  function Prepared(h: seq<Byte>): (r: seq<Byte>)
    requires |h| == 64
    ensures |r| == 64
  {
    h[..4] + CRC_FF + h[8..32] + NAME + TAG + h[56..]
  }

  function Tagged(h: seq<Byte>): (r: seq<Byte>)
    requires |h| == 64
    ensures |r| == 64
  {
    var p := Prepared(h)[..56];
    var q := p + CameoSum(p);
    q + InvertCrc(WithCrcField(q, CRC_00))
  }

  /** Both checks hold at once, for every header; the rest of it is kept. */
  lemma TaggedChecks(h: seq<Byte>)
    requires |h| == 64
    ensures CrcMatches(Tagged(h)) && SumMatches(Tagged(h))
    ensures Tagged(h)[..4] == h[..4] && Tagged(h)[8..32] == h[8..32] && Tagged(h)[32..44] == NAME
  {
    hide Zlib, InvertCrc, CameoSum;
    var r, p := Tagged(h), Prepared(h)[..56];
    var q := p + CameoSum(p);
    var z := WithCrcField(q, CRC_00);
    assert |q| == 60 && |z| == 60;
    FixedCrc(z);
    assert WithCrcField(r, CRC_00) == z + InvertCrc(z);
    assert r[..56] == p && r[56..60] == CameoSum(p);
    assert r[4..8] == Prepared(h)[4..8] == CRC_FF;
    assert r[44..56] == Prepared(h)[44..56] == TAG;
    assert r[32..44] == Prepared(h)[32..44] == NAME;
  }

  /** A buffer after a copy, part by part. */
  function Copied(h: seq<Byte>, at: nat, src: seq<Byte>): seq<Byte>
    requires at + |src| <= |h|
  {
    h[..at] + src + h[at + |src|..]
  }

  lemma NamesCopied(h: seq<Byte>)
    requires |h| == 64
    ensures Copied(Copied(h, 32, NAME + TAG), 4, CRC_FF) == Prepared(h)
  {}

  lemma FieldsCopied(p: seq<Byte>, sum: seq<Byte>, inverted: seq<Byte>)
    requires |p| == 64 && p[4..8] == CRC_FF && |sum| == |inverted| == 4
    ensures var q, s := p[..56] + sum, Copied(Copied(p, 56, sum), 4, CRC_00);
            s[..60] == WithCrcField(q, CRC_00) && Copied(Copied(s, 60, inverted), 4, CRC_FF) == q + inverted
  {}

  /** Fills in the header in place, field by field. */
  method ChecksumHeader(buf: array<Byte>)
    requires buf.Length == 64
    modifies buf
    ensures buf[..] == Tagged(old(buf[..]))
    ensures CrcMatches(buf[..]) && SumMatches(buf[..])
  {
    hide Zlib, InvertCrc, CameoSum, CrcMatches, SumMatches, Prepared;
    ghost var h, p := buf[..], Prepared(buf[..]);
    TaggedChecks(h);
    NamesCopied(h);
    Put(buf, 32, NAME + TAG);
    Put(buf, 4, CRC_FF);
    var sum := SumOf(buf[..56]);
    Put(buf, 56, sum);
    Put(buf, 4, CRC_00);
    var inverted := InvertCrc(buf[..60]);
    PreparedCrc(h);
    FieldsCopied(p, sum, inverted);
    assert buf[..60] == buf[..][..60] && p[..56] == Prepared(h)[..56];
    Put(buf, 60, inverted);
    Put(buf, 4, CRC_FF);
  }

  lemma PreparedCrc(h: seq<Byte>)
    requires |h| == 64
    ensures Prepared(h)[4..8] == CRC_FF
  {}

  method Put(buf: array<Byte>, at: nat, src: seq<Byte>)
    requires at + |src| <= buf.Length
    modifies buf
    ensures buf[..] == Copied(old(buf[..]), at, src)
  {
    ghost var h := buf[..];
    Copy(buf, at, src);
    assert h[..at] == old(buf[..at]) && h[at + |src|..] == old(buf[at + |src|..]);
  }
}
