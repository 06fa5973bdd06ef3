/** MD5 (RFC 1321): the block function with its four registers updated in place, and
    the context with its split length counter. */
module Md5 {
  import opened Division
  import opened Streaming

  type Word = bv32

  // ----- the standard -----

  function F(x: Word, y: Word, z: Word): Word { (x & y) | (!x & z) }

  function G(x: Word, y: Word, z: Word): Word { (x & z) | (y & !z) }

  function H(x: Word, y: Word, z: Word): Word { x ^ y ^ z }

  function I(x: Word, y: Word, z: Word): Word { y ^ (x | !z) }

  function Mixer(round: nat, x: Word, y: Word, z: Word): Word {
    if round == 0 then F(x, y, z) else if round == 1 then G(x, y, z) else if round == 2 then H(x, y, z) else I(x, y, z)
  }

  /** The word of the block used in step i. */
  function WordIndex(i: nat): (k: nat)
    requires i < 64
    ensures k < 16
  {
    if i < 16 then i else if i < 32 then (5 * i + 1) % 16 else if i < 48 then (3 * i + 5) % 16 else 7 * i % 16
  }

  /** The table of section 3.4, four to a row. */
  function TRow(g: nat): (r: seq<Word>)
    requires g < 16
    ensures |r| == 4
  {
    if g == 0 then [0xd76aa478, 0xe8c7b756, 0x242070db, 0xc1bdceee]
    else if g == 1 then [0xf57c0faf, 0x4787c62a, 0xa8304613, 0xfd469501]
    else if g == 2 then [0x698098d8, 0x8b44f7af, 0xffff5bb1, 0x895cd7be]
    else if g == 3 then [0x6b901122, 0xfd987193, 0xa679438e, 0x49b40821]
    else if g == 4 then [0xf61e2562, 0xc040b340, 0x265e5a51, 0xe9b6c7aa]
    else if g == 5 then [0xd62f105d, 0x02441453, 0xd8a1e681, 0xe7d3fbc8]
    else if g == 6 then [0x21e1cde6, 0xc33707d6, 0xf4d50d87, 0x455a14ed]
    else if g == 7 then [0xa9e3e905, 0xfcefa3f8, 0x676f02d9, 0x8d2a4c8a]
    else if g == 8 then [0xfffa3942, 0x8771f681, 0x6d9d6122, 0xfde5380c]
    else if g == 9 then [0xa4beea44, 0x4bdecfa9, 0xf6bb4b60, 0xbebfbc70]
    else if g == 10 then [0x289b7ec6, 0xeaa127fa, 0xd4ef3085, 0x04881d05]
    else if g == 11 then [0xd9d4d039, 0xe6db99e5, 0x1fa27cf8, 0xc4ac5665]
    else if g == 12 then [0xf4292244, 0x432aff97, 0xab9423a7, 0xfc93a039]
    else if g == 13 then [0x655b59c3, 0x8f0ccc92, 0xffeff47d, 0x85845dd1]
    else if g == 14 then [0x6fa87e4f, 0xfe2ce6e0, 0xa3014314, 0x4e0811a1]
    else [0xf7537e82, 0xbd3af235, 0x2ad7d2bb, 0xeb86d391]
  }

  function T(i: nat): Word
    requires i < 64
  {
    TRow(i / 4)[i % 4]
  }

  /** The four rotation amounts of each round. */
  function Shift(i: nat): nat {
    var round, j := i / 16, i % 4;
    if round == 0 then (if j == 0 then 7 else if j == 1 then 12 else if j == 2 then 17 else 22)
    else if round == 1 then (if j == 0 then 5 else if j == 1 then 9 else if j == 2 then 14 else 20)
    else if round == 2 then (if j == 0 then 4 else if j == 1 then 11 else if j == 2 then 16 else 23)
    else (if j == 0 then 6 else if j == 1 then 10 else if j == 2 then 15 else 21)
  }

  /** Rotation by one of these amounts. */
  function Rotate(w: Word, s: nat): Word {
    if s == 4 then w.RotateLeft(4)
    else if s == 5 then w.RotateLeft(5)
    else if s == 6 then w.RotateLeft(6)
    else if s == 7 then w.RotateLeft(7)
    else if s == 9 then w.RotateLeft(9)
    else if s == 10 then w.RotateLeft(10)
    else if s == 11 then w.RotateLeft(11)
    else if s == 12 then w.RotateLeft(12)
    else if s == 14 then w.RotateLeft(14)
    else if s == 15 then w.RotateLeft(15)
    else if s == 16 then w.RotateLeft(16)
    else if s == 17 then w.RotateLeft(17)
    else if s == 20 then w.RotateLeft(20)
    else if s == 21 then w.RotateLeft(21)
    else if s == 22 then w.RotateLeft(22)
    else w.RotateLeft(23)
  }

  /** Little-endian word number k of a block. */
  function BlockWord(block: seq<Byte>, k: nat): Word
    requires 4 * k + 4 <= |block|
  {
    (block[4 * k] as Word) | ((block[4 * k + 1] as Word) << 8)
    | ((block[4 * k + 2] as Word) << 16) | ((block[4 * k + 3] as Word) << 24)
  }

  datatype Regs = Regs(a: Word, b: Word, c: Word, d: Word)

  function Add(x: Word, y: Word): Word { x + y }

  function Sum4(a: Word, f: Word, x: Word, t: Word): Word { a + f + x + t }

  /** a = b + ((a + f(b,c,d) + X[k] + T[i]) <<< s), then the registers move on. */
  function Step(r: Regs, block: seq<Byte>, i: nat): Regs
    requires |block| == 64 && i < 64
  {
    var sum := Sum4(r.a, Mixer(i / 16, r.b, r.c, r.d), BlockWord(block, WordIndex(i)), T(i));
    Regs(r.d, Add(Rotate(sum, Shift(i)), r.b), r.b, r.c)
  }

  function Steps(r: Regs, block: seq<Byte>, n: nat): Regs
    requires |block| == 64 && n <= 64
  {
    if n == 0 then r else Step(Steps(r, block, n - 1), block, n - 1)
  }

  function AddRegs(x: Regs, y: Regs): Regs { Regs(Add(x.a, y.a), Add(x.b, y.b), Add(x.c, y.c), Add(x.d, y.d)) }

  function Compress(h: Regs, block: seq<Byte>): Regs {
    if |block| == 64 then AddRegs(Steps(h, block, 64), h) else h
  }

  // ----- the program's formulas -----

  function FFast(x: Word, y: Word, z: Word): Word { z ^ (x & (y ^ z)) }

  function GFast(x: Word, y: Word, z: Word): Word { y ^ (z & (x ^ y)) }

  function H2(x: Word, y: Word, z: Word): Word { x ^ (y ^ z) }

  datatype Formula = UseF | UseG | UseH | UseH2 | UseI

  function MixerFast(f: Formula, x: Word, y: Word, z: Word): Word {
    match f
    case UseF => FFast(x, y, z)
    case UseG => GFast(x, y, z)
    case UseH => H(x, y, z)
    case UseH2 => H2(x, y, z)
    case UseI => I(x, y, z)
  }

  lemma FBits(x: Word, y: Word, z: Word)
    ensures z ^ (x & (y ^ z)) == (x & y) | (!x & z)
  {}

  lemma GBits(x: Word, y: Word, z: Word)
    ensures y ^ (z & (x ^ y)) == (x & z) | (y & !z)
  {}

  lemma HBits(x: Word, y: Word, z: Word)
    ensures x ^ (y ^ z) == x ^ y ^ z
  {}

  lemma FSame(x: Word, y: Word, z: Word)
    ensures FFast(x, y, z) == F(x, y, z)
  {
    FBits(x, y, z);
  }

  lemma GSame(x: Word, y: Word, z: Word)
    ensures GFast(x, y, z) == G(x, y, z)
  {
    GBits(x, y, z);
  }

  lemma HSame(x: Word, y: Word, z: Word)
    ensures H2(x, y, z) == H(x, y, z)
  {
    HBits(x, y, z);
  }

  /** The formula of the program for step i. */
  function FormulaOf(i: nat): Formula {
    if i < 16 then UseF else if i < 32 then UseG else if i < 48 then (if i % 2 == 0 then UseH else UseH2) else UseI
  }

  lemma MixerSame(i: nat, x: Word, y: Word, z: Word)
    requires i < 64
    ensures MixerFast(FormulaOf(i), x, y, z) == Mixer(i / 16, x, y, z)
  {
    hide F, G, H, I, FFast, GFast, H2;
    if i < 16 {
      FSame(x, y, z);
    } else if i < 32 {
      GSame(x, y, z);
    } else if i < 48 {
      HSame(x, y, z);
    }
  }

  function RotateFast(w: Word, s: nat): Word {
    if s == 4 then (w << 4) | (w >> 28)
    else if s == 5 then (w << 5) | (w >> 27)
    else if s == 6 then (w << 6) | (w >> 26)
    else if s == 7 then (w << 7) | (w >> 25)
    else if s == 9 then (w << 9) | (w >> 23)
    else if s == 10 then (w << 10) | (w >> 22)
    else if s == 11 then (w << 11) | (w >> 21)
    else if s == 12 then (w << 12) | (w >> 20)
    else if s == 14 then (w << 14) | (w >> 18)
    else if s == 15 then (w << 15) | (w >> 17)
    else if s == 16 then (w << 16) | (w >> 16)
    else if s == 17 then (w << 17) | (w >> 15)
    else if s == 20 then (w << 20) | (w >> 12)
    else if s == 21 then (w << 21) | (w >> 11)
    else if s == 22 then (w << 22) | (w >> 10)
    else (w << 23) | (w >> 9)
  }

  lemma RotateSame(w: Word, s: nat)
    ensures RotateFast(w, s) == Rotate(w, s)
  {}

  // ----- the program's list of steps -----

  /** A step as listed: formula, word of the block, addend and rotation. */
  datatype Line = Line(formula: Formula, word: nat, addend: Word, shift: nat)

  function LineRow(g: nat): (r: seq<Line>)
    requires g < 16
    ensures |r| == 4
  {
    if g == 0 then
      [Line(UseF, 0, 0xd76aa478, 7), Line(UseF, 1, 0xe8c7b756, 12),
       Line(UseF, 2, 0x242070db, 17), Line(UseF, 3, 0xc1bdceee, 22)]
    else if g == 1 then
      [Line(UseF, 4, 0xf57c0faf, 7), Line(UseF, 5, 0x4787c62a, 12),
       Line(UseF, 6, 0xa8304613, 17), Line(UseF, 7, 0xfd469501, 22)]
    else if g == 2 then
      [Line(UseF, 8, 0x698098d8, 7), Line(UseF, 9, 0x8b44f7af, 12),
       Line(UseF, 10, 0xffff5bb1, 17), Line(UseF, 11, 0x895cd7be, 22)]
    else if g == 3 then
      [Line(UseF, 12, 0x6b901122, 7), Line(UseF, 13, 0xfd987193, 12),
       Line(UseF, 14, 0xa679438e, 17), Line(UseF, 15, 0x49b40821, 22)]
    else if g == 4 then
      [Line(UseG, 1, 0xf61e2562, 5), Line(UseG, 6, 0xc040b340, 9),
       Line(UseG, 11, 0x265e5a51, 14), Line(UseG, 0, 0xe9b6c7aa, 20)]
    else if g == 5 then
      [Line(UseG, 5, 0xd62f105d, 5), Line(UseG, 10, 0x02441453, 9),
       Line(UseG, 15, 0xd8a1e681, 14), Line(UseG, 4, 0xe7d3fbc8, 20)]
    else if g == 6 then
      [Line(UseG, 9, 0x21e1cde6, 5), Line(UseG, 14, 0xc33707d6, 9),
       Line(UseG, 3, 0xf4d50d87, 14), Line(UseG, 8, 0x455a14ed, 20)]
    else if g == 7 then
      [Line(UseG, 13, 0xa9e3e905, 5), Line(UseG, 2, 0xfcefa3f8, 9),
       Line(UseG, 7, 0x676f02d9, 14), Line(UseG, 12, 0x8d2a4c8a, 20)]
    else if g == 8 then
      [Line(UseH, 5, 0xfffa3942, 4), Line(UseH2, 8, 0x8771f681, 11),
       Line(UseH, 11, 0x6d9d6122, 16), Line(UseH2, 14, 0xfde5380c, 23)]
    else if g == 9 then
      [Line(UseH, 1, 0xa4beea44, 4), Line(UseH2, 4, 0x4bdecfa9, 11),
       Line(UseH, 7, 0xf6bb4b60, 16), Line(UseH2, 10, 0xbebfbc70, 23)]
    else if g == 10 then
      [Line(UseH, 13, 0x289b7ec6, 4), Line(UseH2, 0, 0xeaa127fa, 11),
       Line(UseH, 3, 0xd4ef3085, 16), Line(UseH2, 6, 0x04881d05, 23)]
    else if g == 11 then
      [Line(UseH, 9, 0xd9d4d039, 4), Line(UseH2, 12, 0xe6db99e5, 11),
       Line(UseH, 15, 0x1fa27cf8, 16), Line(UseH2, 2, 0xc4ac5665, 23)]
    else if g == 12 then
      [Line(UseI, 0, 0xf4292244, 6), Line(UseI, 7, 0x432aff97, 10),
       Line(UseI, 14, 0xab9423a7, 15), Line(UseI, 5, 0xfc93a039, 21)]
    else if g == 13 then
      [Line(UseI, 12, 0x655b59c3, 6), Line(UseI, 3, 0x8f0ccc92, 10),
       Line(UseI, 10, 0xffeff47d, 15), Line(UseI, 1, 0x85845dd1, 21)]
    else if g == 14 then
      [Line(UseI, 8, 0x6fa87e4f, 6), Line(UseI, 15, 0xfe2ce6e0, 10),
       Line(UseI, 6, 0xa3014314, 15), Line(UseI, 13, 0x4e0811a1, 21)]
    else
      [Line(UseI, 4, 0xf7537e82, 6), Line(UseI, 11, 0xbd3af235, 10),
       Line(UseI, 2, 0x2ad7d2bb, 15), Line(UseI, 9, 0xeb86d391, 21)]
  }

  function Listed(i: nat): Line
    requires i < 64
  {
    LineRow(i / 4)[i % 4]
  }

  ghost predicate Right(l: Line, i: nat)
    requires i < 64
  {
    l == Line(FormulaOf(i), WordIndex(i), T(i), Shift(i))
  }

  ghost predicate RowRight(g: nat)
    requires g < 16
  {
    var r := LineRow(g);
    Right(r[0], 4 * g) && Right(r[1], 4 * g + 1) && Right(r[2], 4 * g + 2) && Right(r[3], 4 * g + 3)
  }

  lemma Row0() ensures RowRight(0) {}

  lemma Row1() ensures RowRight(1) {}

  lemma Row2() ensures RowRight(2) {}

  lemma Row3() ensures RowRight(3) {}

  lemma Row4() ensures RowRight(4) {}

  lemma Row5() ensures RowRight(5) {}

  lemma Row6() ensures RowRight(6) {}

  lemma Row7() ensures RowRight(7) {}

  lemma Row8() ensures RowRight(8) {}

  lemma Row9() ensures RowRight(9) {}

  lemma Row10() ensures RowRight(10) {}

  lemma Row11() ensures RowRight(11) {}

  lemma Row12() ensures RowRight(12) {}

  lemma Row13() ensures RowRight(13) {}

  lemma Row14() ensures RowRight(14) {}

  lemma Row15() ensures RowRight(15) {}

  /** Every line has the formula, word, addend and rotation of the standard's step. */
  lemma ListedRight(i: nat)
    requires i < 64
    ensures Right(Listed(i), i)
  {
    hide LineRow, Right;
    var g := i / 4;
    if g < 4 { Row0(); Row1(); Row2(); Row3(); }
    else if g < 8 { Row4(); Row5(); Row6(); Row7(); }
    else if g < 12 { Row8(); Row9(); Row10(); Row11(); }
    else { Row12(); Row13(); Row14(); Row15(); }
    assert RowRight(g);
    assert i == 4 * g || i == 4 * g + 1 || i == 4 * g + 2 || i == 4 * g + 3;
  }

  // ----- four registers in place -----

  function View(s: seq<Word>, o: nat): Regs
    requires |s| == 4 && o < 4
  {
    Regs(s[o], s[(o + 1) % 4], s[(o + 2) % 4], s[(o + 3) % 4])
  }

  lemma Rotated<U>(s: seq<U>, o: nat, v: U)
    requires |s| == 4 && o < 4
    ensures var s', p := s[o := v], (o + 3) % 4;
            && s'[p] == s[(o + 3) % 4] && s'[(p + 1) % 4] == v
            && s'[(p + 2) % 4] == s[(o + 1) % 4] && s'[(p + 3) % 4] == s[(o + 2) % 4]
  {}

  /** One step in place: only the place of a changes, and the next step finds its a
      one place earlier. */
  method StepInPlace(s: array<Word>, o: nat, block: seq<Byte>, l: Line, ghost i: nat)
    requires s.Length == 4 && o < 4 && |block| == 64 && i < 64 && Right(l, i)
    modifies s
    ensures View(s[..], (o + 3) % 4) == Step(View(old(s[..]), o), block, i)
  {
    hide Mixer, MixerFast, Rotate, RotateFast, T, BlockWord, Sum4, Add, WordIndex, Shift, FormulaOf;
    ghost var s0 := s[..];
    var a, b, c, d := s[o], s[(o + 1) % 4], s[(o + 2) % 4], s[(o + 3) % 4];
    MixerSame(i, b, c, d);
    a := Sum4(a, MixerFast(l.formula, b, c, d), BlockWord(block, l.word), l.addend);
    RotateSame(a, l.shift);
    a := RotateFast(a, l.shift);
    a := Add(a, b);
    s[o] := a;
    assert s[..] == s0[o := a];
    Rotated(s0, o, a);
  }

  /** One block, registers in place. */
  method BodyBlock(s: array<Word>, block: seq<Byte>)
    requires s.Length == 4 && |block| == 64
    modifies s
    ensures View(s[..], 0) == Compress(View(old(s[..]), 0), block)
  {
    hide Step, Add, View, Right, Listed;
    ghost var r := View(s[..], 0);
    var sa, sb, sc, sd := s[0], s[1], s[2], s[3];
    ghost var s0 := s[..];
    for i := 0 to 64
      invariant View(s[..], (64 - i) % 4) == Steps(r, block, i)
    {
      assert ((64 - i) % 4 + 3) % 4 == (64 - (i + 1)) % 4;
      ListedRight(i);
      StepInPlace(s, (64 - i) % 4, block, Listed(i), i);
    }
    ghost var s1 := s[..];
    s[0], s[1], s[2], s[3] := Add(s[0], sa), Add(s[1], sb), Add(s[2], sc), Add(s[3], sd);
    ViewAdd(s0, s1, s[..]);
  }

  lemma ViewAdd(s0: seq<Word>, s1: seq<Word>, s2: seq<Word>)
    requires |s0| == |s1| == |s2| == 4 && forall j :: 0 <= j < 4 ==> s2[j] == Add(s1[j], s0[j])
    ensures View(s2, 0) == AddRegs(View(s1, 0), View(s0, 0))
  {
    hide Add;
  }

  // ----- the length counter -----

  const TWO29 := 0x2000_0000
  const TWO32 := 0x1_0000_0000
  const TWO61 := 0x2000_0000_0000_0000
  const TWO64 := 0x1_0000_0000_0000_0000

  /** lo holds 29 bits of the byte count and hi the next 32. */
  ghost predicate Counts(lo: nat, hi: nat, n: nat) { lo < TWO29 && hi < TWO32 && hi * TWO29 + lo == n % TWO61 }

  /** A carry out of lo shows as lo having become smaller. */
  lemma CarryCorrect(lo: nat, hi: nat, n: nat, size: nat)
    requires Counts(lo, hi, n)
    ensures var lo' := (lo + size) % TWO29;
            var hi' := ((if lo' < lo then hi + 1 else hi) + size / TWO29) % TWO32;
            Counts(lo', hi', n + size)
  {
    var q, r := size / TWO29, size % TWO29;
    var lo' := (lo + size) % TWO29;
    assert size == q * TWO29 + r;
    DivShift(q, lo + r, TWO29);
    var carry := if lo' < lo then 1 else 0;
    assert lo + r == carry * TWO29 + lo' by {
      assert lo + r < 2 * TWO29;
    }
    var h := hi + carry + q;
    assert h * TWO29 + lo' == hi * TWO29 + lo + size;
    ModScale(h, TWO29, TWO32);
    SplitMod(h, lo');
    SumMod(n, size);
  }

  lemma SplitMod(h: nat, lo: nat)
    requires lo < TWO29
    ensures (h * TWO29 + lo) % TWO61 == (h % TWO32) * TWO29 + lo
  {
    var q, r := h / TWO32, h % TWO32;
    assert h * TWO29 + lo == q * TWO61 + (r * TWO29 + lo);
    DivisionUnique(h * TWO29 + lo, TWO61, q, r * TWO29 + lo);
  }

  lemma SumMod(n: nat, size: nat)
    ensures (n % TWO61 + size) % TWO61 == (n + size) % TWO61
  {
    DivShift(n / TWO61, n % TWO61 + size, TWO61);
  }
}
