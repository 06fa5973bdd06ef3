/** Identities between the word formulas of the SHA-256 and MD5 standards and the
    cheaper ones the program uses. */
module WordFormulas {
  // ----- functions of section 4.1.2 -----

  function Ch(x: bv32, y: bv32, z: bv32): bv32 { (x & y) ^ (!x & z) }

  function Maj(x: bv32, y: bv32, z: bv32): bv32 { (x & y) ^ (x & z) ^ (y & z) }

  function BigSigma0(x: bv32): bv32 { x.RotateRight(2) ^ x.RotateRight(13) ^ x.RotateRight(22) }

  function BigSigma1(x: bv32): bv32 { x.RotateRight(6) ^ x.RotateRight(11) ^ x.RotateRight(25) }

  function Sigma0(x: bv32): bv32 { x.RotateRight(7) ^ x.RotateRight(18) ^ (x >> 3) }

  function Sigma1(x: bv32): bv32 { x.RotateRight(17) ^ x.RotateRight(19) ^ (x >> 10) }

  // ----- the program's formulas -----

  function ChFast(x: bv32, y: bv32, z: bv32): bv32 { (x & (y ^ z)) ^ z }

  function MajFast(x: bv32, y: bv32, z: bv32): bv32 { (x & (y | z)) | (y & z) }

  function S0(x: bv32): bv32 { ((x >> 2) | (x << 30)) ^ ((x >> 13) | (x << 19)) ^ ((x >> 22) | (x << 10)) }

  function S1(x: bv32): bv32 { ((x >> 6) | (x << 26)) ^ ((x >> 11) | (x << 21)) ^ ((x >> 25) | (x << 7)) }

  function Small0(x: bv32): bv32 { ((x >> 7) | (x << 25)) ^ ((x >> 18) | (x << 14)) ^ (x >> 3) }

  function Small1(x: bv32): bv32 { ((x >> 17) | (x << 15)) ^ ((x >> 19) | (x << 13)) ^ (x >> 10) }

  lemma ChBits(x: bv32, y: bv32, z: bv32)
    ensures (x & (y ^ z)) ^ z == (x & y) ^ (!x & z)
  {}

  lemma MajBits(x: bv32, y: bv32, z: bv32)
    ensures (x & (y | z)) | (y & z) == (x & y) ^ (x & z) ^ (y & z)
  {}

  lemma ChSame(x: bv32, y: bv32, z: bv32)
    ensures ChFast(x, y, z) == Ch(x, y, z)
  {
    ChBits(x, y, z);
  }

  lemma MajSame(x: bv32, y: bv32, z: bv32)
    ensures MajFast(x, y, z) == Maj(x, y, z)
  {
    MajBits(x, y, z);
  }

  lemma BigSigmaSame(x: bv32)
    ensures S0(x) == BigSigma0(x)
    ensures S1(x) == BigSigma1(x)
  {}

  lemma SmallSigmaSame(x: bv32)
    ensures Small0(x) == Sigma0(x)
    ensures Small1(x) == Sigma1(x)
  {}

  // ----- one round -----

  function Add(x: bv32, y: bv32): bv32 { x + y }

  function Sum(h: bv32, s: bv32, c: bv32, k: bv32, w: bv32): bv32 { h + s + c + k + w }

  function SumFast(h: bv32, s: bv32, c: bv32, kw: bv32): bv32 { h + (s + c + kw) }

  function T1(e: bv32, f: bv32, g: bv32, h: bv32, k: bv32, w: bv32): bv32 { Sum(h, BigSigma1(e), Ch(e, f, g), k, w) }

  function T2(a: bv32, b: bv32, c: bv32): bv32 { Add(BigSigma0(a), Maj(a, b, c)) }

  function T1Fast(e: bv32, f: bv32, g: bv32, h: bv32, kw: bv32): bv32 { SumFast(h, S1(e), ChFast(e, f, g), kw) }

  function T2Fast(a: bv32, b: bv32, c: bv32): bv32 { Add(S0(a), MajFast(a, b, c)) }

  lemma SumSame(h: bv32, s: bv32, c: bv32, k: bv32, w: bv32)
    ensures SumFast(h, s, c, w + k) == Sum(h, s, c, k, w)
  {}

  lemma T1Same(e: bv32, f: bv32, g: bv32, h: bv32, k: bv32, w: bv32)
    ensures T1Fast(e, f, g, h, w + k) == T1(e, f, g, h, k, w)
  {
    hide BigSigma1, S1, Ch, ChFast, Sum, SumFast;
    BigSigmaSame(e);
    ChSame(e, f, g);
    SumSame(h, S1(e), ChFast(e, f, g), k, w);
  }

  lemma T2Same(a: bv32, b: bv32, c: bv32)
    ensures T2Fast(a, b, c) == T2(a, b, c)
  {
    hide BigSigma0, S0, Maj, MajFast, Add;
    BigSigmaSame(a);
    MajSame(a, b, c);
  }

  // ----- the message schedule -----

  function Sum4(a: bv32, b: bv32, c: bv32, d: bv32): bv32 { a + b + c + d }

  function Expand(w14: bv32, w9: bv32, w1: bv32, w0: bv32): bv32 { Sum4(Sigma1(w14), w9, Sigma0(w1), w0) }

  function ExpandFast(w14: bv32, w9: bv32, w1: bv32, w0: bv32): bv32 { Sum4(Small1(w14), w9, Small0(w1), w0) }

  lemma ExpandSame(w14: bv32, w9: bv32, w1: bv32, w0: bv32)
    ensures ExpandFast(w14, w9, w1, w0) == Expand(w14, w9, w1, w0)
  {
    hide Sigma0, Sigma1, Small0, Small1, Sum4;
    SmallSigmaSame(w14);
    SmallSigmaSame(w1);
  }

  // ----- rotating registers -----

  /** Writing places 3 and 7 of eight, counted from o, moves the rest on by one. */
  lemma Rotated<T>(s: seq<T>, o: nat, d: T, h: T)
    requires |s| == 8 && o < 8
    ensures var s', p := s[(o + 7) % 8 := h][(o + 3) % 8 := d], (o + 7) % 8;
            && s'[p] == h && s'[(p + 1) % 8] == s[o] && s'[(p + 2) % 8] == s[(o + 1) % 8]
            && s'[(p + 3) % 8] == s[(o + 2) % 8] && s'[(p + 4) % 8] == d && s'[(p + 5) % 8] == s[(o + 4) % 8]
            && s'[(p + 6) % 8] == s[(o + 5) % 8] && s'[(p + 7) % 8] == s[(o + 6) % 8]
  {}
}

/** The SHA-256 block compression: the program's version with rotating register
    indices and an interleaved message schedule, against section 6.2.2 of
    FIPS 180-4. */
module Sha256 {
  import opened WordFormulas

  type Word = bv32
  type Byte = bv8

  /** The round constants, eight to a row. */
  function KRow(i: nat): (r: seq<Word>)
    requires i < 8
    ensures |r| == 8
  {
    if i == 0 then [0x428a2f98, 0x71374491, 0xb5c0fbcf, 0xe9b5dba5, 0x3956c25b, 0x59f111f1, 0x923f82a4, 0xab1c5ed5]
    else if i == 1 then [0xd807aa98, 0x12835b01, 0x243185be, 0x550c7dc3, 0x72be5d74, 0x80deb1fe, 0x9bdc06a7, 0xc19bf174]
    else if i == 2 then [0xe49b69c1, 0xefbe4786, 0x0fc19dc6, 0x240ca1cc, 0x2de92c6f, 0x4a7484aa, 0x5cb0a9dc, 0x76f988da]
    else if i == 3 then [0x983e5152, 0xa831c66d, 0xb00327c8, 0xbf597fc7, 0xc6e00bf3, 0xd5a79147, 0x06ca6351, 0x14292967]
    else if i == 4 then [0x27b70a85, 0x2e1b2138, 0x4d2c6dfc, 0x53380d13, 0x650a7354, 0x766a0abb, 0x81c2c92e, 0x92722c85]
    else if i == 5 then [0xa2bfe8a1, 0xa81a664b, 0xc24b8b70, 0xc76c51a3, 0xd192e819, 0xd6990624, 0xf40e3585, 0x106aa070]
    else if i == 6 then [0x19a4c116, 0x1e376c08, 0x2748774c, 0x34b0bcb5, 0x391c0cb3, 0x4ed8aa4a, 0x5b9cca4f, 0x682e6ff3]
    else [0x748f82ee, 0x78a5636f, 0x84c87814, 0x8cc70208, 0x90befffa, 0xa4506ceb, 0xbef9a3f7, 0xc67178f2]
  }

  function K(t: nat): Word
    requires t < 64
  {
    KRow(t / 8)[t % 8]
  }

  // ----- the compression of section 6.2.2 -----

  /** Big-endian word number i of a block. */
  function BlockWord(block: seq<Byte>, i: nat): Word
    requires 4 * i + 4 <= |block|
  {
    ((block[4 * i] as Word) << 24) | ((block[4 * i + 1] as Word) << 16) | ((block[4 * i + 2] as Word) << 8)
        | (block[4 * i + 3] as Word)
  }

  function Schedule(block: seq<Byte>, t: nat): Word
    requires |block| == 64 && t < 64
  {
    if t < 16 then BlockWord(block, t)
    else
      Expand(Schedule(block, t - 2), Schedule(block, t - 7), Schedule(block, t - 15), Schedule(block, t - 16))
  }

  datatype Regs = Regs(a: Word, b: Word, c: Word, d: Word, e: Word, f: Word, g: Word, h: Word)

  function Round(r: Regs, k: Word, w: Word): Regs {
    var t1 := T1(r.e, r.f, r.g, r.h, k, w);
    Regs(Add(t1, T2(r.a, r.b, r.c)), r.a, r.b, r.c, Add(r.d, t1), r.e, r.f, r.g)
  }

  function Rounds(r: Regs, block: seq<Byte>, t: nat): Regs
    requires |block| == 64 && t <= 64
  {
    if t == 0 then r
    else
      Round(Rounds(r, block, t - 1), K(t - 1), Schedule(block, t - 1))
  }

  function ToRegs(s: seq<Word>): Regs
    requires |s| == 8
  {
    Regs(s[0], s[1], s[2], s[3], s[4], s[5], s[6], s[7])
  }

  function AddRegs(x: Regs, y: Regs): Regs {
    Regs(Add(x.a, y.a), Add(x.b, y.b), Add(x.c, y.c), Add(x.d, y.d),
         Add(x.e, y.e), Add(x.f, y.f), Add(x.g, y.g), Add(x.h, y.h))
  }

  /** The next hash value. */
  function Compress(h: Regs, block: seq<Byte>): Regs {
    if |block| == 64 then AddRegs(h, Rounds(h, block, 64)) else h
  }

  // ----- rotating registers -----

  /** The registers a..h when a is held at index o. */
  function View(s: seq<Word>, o: nat): Regs
    requires |s| == 8 && o < 8
  {
    Regs(s[o], s[(o + 1) % 8], s[(o + 2) % 8], s[(o + 3) % 8], s[(o + 4) % 8], s[(o + 5) % 8], s[(o + 6) % 8],
        s[(o + 7) % 8])
  }

  /** Writing the places of d and h moves the registers on by one. */
  lemma ViewStep(s: seq<Word>, o: nat, d: Word, h: Word)
    requires |s| == 8 && o < 8
    ensures var v := View(s, o);
            View(s[(o + 7) % 8 := h][(o + 3) % 8 := d], (o + 7) % 8) == Regs(h, v.a, v.b, v.c, d, v.e, v.f, v.g)
  {
    Rotated(s, o, d, h);
  }

  /** One round in place; a is at index o before and one place earlier after. */
  method RoundInPlace(s: array<Word>, o: nat, k: Word, w: Word)
    requires s.Length == 8 && o < 8
    modifies s
    ensures View(s[..], (o + 7) % 8) == Round(View(old(s[..]), o), k, w)
  {
    hide T1, T2, T1Fast, T2Fast, Add;
    ghost var s0 := s[..];
    var a, b, c, d := s[o], s[(o + 1) % 8], s[(o + 2) % 8], s[(o + 3) % 8];
    var e, f, g, h := s[(o + 4) % 8], s[(o + 5) % 8], s[(o + 6) % 8], s[(o + 7) % 8];
    T1Same(e, f, g, h, k, w);
    T2Same(a, b, c);
    h := T1Fast(e, f, g, h, w + k);
    d := Add(d, h);
    h := Add(h, T2Fast(a, b, c));
    s[(o + 7) % 8] := h;
    s[(o + 3) % 8] := d;
    assert s[..] == s0[(o + 7) % 8 := h][(o + 3) % 8 := d];
    ViewStep(s0, o, d, h);
  }

  /** Sixteen rounds, from a multiple of sixteen on. */
  method SixteenRounds(s: array<Word>, w: array<Word>, ii: nat, ghost r: Regs, block: seq<Byte>)
    requires s.Length == 8 && w.Length == 64 && s != w && |block| == 64 && ii + 16 <= 64
    requires forall t :: 0 <= t < ii + 16 ==> w[t] == Schedule(block, t)
    requires View(s[..], 0) == Rounds(r, block, ii)
    modifies s
    ensures View(s[..], 0) == Rounds(r, block, ii + 16)
  {
    hide K, Schedule, Round, View, Rounds;
    for i := 0 to 16
      invariant View(s[..], (64 - i) % 8) == Rounds(r, block, ii + i)
    {
      assert ((64 - i) % 8 + 7) % 8 == (64 - (i + 1)) % 8;
      RoundInPlace(s, (64 - i) % 8, K(ii + i), w[ii + i]);
      RoundsStep(r, block, ii + i);
    }
  }

  lemma RoundsStart(s: seq<Word>, block: seq<Byte>)
    requires |s| == 8 && |block| == 64
    ensures View(s, 0) == Rounds(ToRegs(s), block, 0)
  {}

  lemma RoundsStep(r: Regs, block: seq<Byte>, t: nat)
    requires |block| == 64 && t < 64
    ensures Rounds(r, block, t + 1) == Round(Rounds(r, block, t), K(t), Schedule(block, t))
  {
    hide K, Schedule, Round;
  }

  /** Sixteen more words of the message schedule. */
  method SixteenWords(w: array<Word>, ii: nat, block: seq<Byte>)
    requires w.Length == 64 && |block| == 64 && ii + 32 <= 64
    requires forall t :: 0 <= t < ii + 16 ==> w[t] == Schedule(block, t)
    modifies w
    ensures forall t :: 0 <= t < ii + 32 ==> w[t] == Schedule(block, t)
  {
    hide Expand, ExpandFast, BlockWord;
    for i := 0 to 16
      invariant forall t :: 0 <= t < ii + i + 16 ==> w[t] == Schedule(block, t)
    {
      ExpandSame(w[i + ii + 14], w[i + ii + 9], w[i + ii + 1], w[i + ii]);
      w[i + ii + 16] := ExpandFast(w[i + ii + 14], w[i + ii + 9], w[i + ii + 1], w[i + ii]);
    }
  }

  /** The compression in place computes the standard's next hash value. */
  method Transform(state: array<Word>, block: seq<Byte>)
    requires state.Length == 8 && |block| == 64
    modifies state
    ensures ToRegs(state[..]) == Compress(ToRegs(old(state[..])), block)
  {
    hide K, Schedule, Round, BlockWord, Compress, View, Rounds, ToRegs;
    ghost var state0 := state[..];
    var w := new Word[64];
    DecodeBlock(w, block);
    var s := new Word[8](i requires 0 <= i < 8 reads state => state[i]);
    assert s[..] == state[..];
    ghost var r := ToRegs(state[..]);
    RoundsStart(s[..], block);
    var i := 0;
    while true
      invariant 0 <= i <= 48 && i % 16 == 0
      invariant forall t :: 0 <= t < i + 16 ==> w[t] == Schedule(block, t)
      invariant View(s[..], 0) == Rounds(r, block, i)
      invariant state[..] == state0
      decreases 64 - i
    {
      SixteenRounds(s, w, i, r, block);
      if i == 48 {
        break;
      }
      SixteenWords(w, i, block);
      i := i + 16;
    }
    AddBack(state, s, r, block);
  }

  /** The first sixteen words of the schedule are those of the block. */
  method DecodeBlock(w: array<Word>, block: seq<Byte>)
    requires w.Length == 64 && |block| == 64
    modifies w
    ensures forall t :: 0 <= t < 16 ==> w[t] == Schedule(block, t)
  {
    hide BlockWord, Schedule;
    for i := 0 to 16
      invariant forall t :: 0 <= t < i ==> w[t] == Schedule(block, t)
    {
      ScheduleStart(block, i);
      w[i] := BlockWord(block, i);
    }
  }

  lemma ScheduleStart(block: seq<Byte>, t: nat)
    requires |block| == 64 && t < 16
    ensures Schedule(block, t) == BlockWord(block, t)
  {}

  method AddBack(state: array<Word>, s: array<Word>, ghost r: Regs, ghost block: seq<Byte>)
    requires state.Length == 8 && s.Length == 8 && state != s && |block| == 64
    requires r == ToRegs(state[..]) && View(s[..], 0) == Rounds(r, block, 64)
    modifies state
    ensures ToRegs(state[..]) == Compress(ToRegs(old(state[..])), block)
  {
    hide Rounds, Add;
    for i := 0 to 8
      invariant forall j :: 0 <= j < i ==> state[j] == Add(old(state[j]), s[j])
      invariant forall j :: i <= j < 8 ==> state[j] == old(state[j])
    {
      state[i] := Add(state[i], s[i]);
    }
  }
}
