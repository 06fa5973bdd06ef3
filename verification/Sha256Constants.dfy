/** Where the constants of SHA-256 come from: sections 4.2.2 and 5.3.3 of FIPS 180-4. */
module Sha256Constants {
  import opened Sha256
  import opened Sha256Stream

  const TWO32: nat := 0x1_0000_0000

  /** The first 64 primes, eight to a row. */
  function PrimeRow(i: nat): (r: seq<nat>)
    requires i < 8
    ensures |r| == 8
  {
    if i == 0 then [2, 3, 5, 7, 11, 13, 17, 19]
    else if i == 1 then [23, 29, 31, 37, 41, 43, 47, 53]
    else if i == 2 then [59, 61, 67, 71, 73, 79, 83, 89]
    else if i == 3 then [97, 101, 103, 107, 109, 113, 127, 131]
    else if i == 4 then [137, 139, 149, 151, 157, 163, 167, 173]
    else if i == 5 then [179, 181, 191, 193, 197, 199, 211, 223]
    else if i == 6 then [227, 229, 233, 239, 241, 251, 257, 263]
    else [269, 271, 277, 281, 283, 293, 307, 311]
  }

  function Prime(t: nat): nat
    requires t < 64
  {
    PrimeRow(t / 8)[t % 8]
  }

  /** a + k / 2^32 is the cube root of p, rounded down to 32 bits after the point. */
  predicate CubeRoot(p: nat, a: nat, k: Word) {
    var x := a * TWO32 + k as nat;
    x * x * x <= p * TWO32 * TWO32 * TWO32 < (x + 1) * (x + 1) * (x + 1)
  }

  predicate SquareRoot(p: nat, a: nat, k: Word) {
    var x := a * TWO32 + k as nat;
    x * x <= p * TWO32 * TWO32 < (x + 1) * (x + 1)
  }

  /** k is the first 32 bits of the fractional part of the cube root of p. */
  ghost predicate RootBits(p: nat, k: Word) { exists a :: CubeRoot(p, a, k) }

  ghost predicate RowRoots(p: seq<nat>, k: seq<Word>) {
    && |p| == |k| == 8
    && RootBits(p[0], k[0]) && RootBits(p[1], k[1]) && RootBits(p[2], k[2]) && RootBits(p[3], k[3])
    && RootBits(p[4], k[4]) && RootBits(p[5], k[5]) && RootBits(p[6], k[6]) && RootBits(p[7], k[7])
  }

  lemma Roots0()
    ensures RowRoots(PrimeRow(0), KRow(0))
  {
    assert CubeRoot(2, 1, 0x428a2f98) && CubeRoot(3, 1, 0x71374491);
    assert CubeRoot(5, 1, 0xb5c0fbcf) && CubeRoot(7, 1, 0xe9b5dba5);
    assert CubeRoot(11, 2, 0x3956c25b) && CubeRoot(13, 2, 0x59f111f1);
    assert CubeRoot(17, 2, 0x923f82a4) && CubeRoot(19, 2, 0xab1c5ed5);
  }

  lemma Roots1()
    ensures RowRoots(PrimeRow(1), KRow(1))
  {
    assert CubeRoot(23, 2, 0xd807aa98) && CubeRoot(29, 3, 0x12835b01);
    assert CubeRoot(31, 3, 0x243185be) && CubeRoot(37, 3, 0x550c7dc3);
    assert CubeRoot(41, 3, 0x72be5d74) && CubeRoot(43, 3, 0x80deb1fe);
    assert CubeRoot(47, 3, 0x9bdc06a7) && CubeRoot(53, 3, 0xc19bf174);
  }

  lemma Roots2()
    ensures RowRoots(PrimeRow(2), KRow(2))
  {
    assert CubeRoot(59, 3, 0xe49b69c1) && CubeRoot(61, 3, 0xefbe4786);
    assert CubeRoot(67, 4, 0x0fc19dc6) && CubeRoot(71, 4, 0x240ca1cc);
    assert CubeRoot(73, 4, 0x2de92c6f) && CubeRoot(79, 4, 0x4a7484aa);
    assert CubeRoot(83, 4, 0x5cb0a9dc) && CubeRoot(89, 4, 0x76f988da);
  }

  lemma Roots3()
    ensures RowRoots(PrimeRow(3), KRow(3))
  {
    assert CubeRoot(97, 4, 0x983e5152) && CubeRoot(101, 4, 0xa831c66d);
    assert CubeRoot(103, 4, 0xb00327c8) && CubeRoot(107, 4, 0xbf597fc7);
    assert CubeRoot(109, 4, 0xc6e00bf3) && CubeRoot(113, 4, 0xd5a79147);
    assert CubeRoot(127, 5, 0x06ca6351) && CubeRoot(131, 5, 0x14292967);
  }

  lemma Roots4()
    ensures RowRoots(PrimeRow(4), KRow(4))
  {
    assert CubeRoot(137, 5, 0x27b70a85) && CubeRoot(139, 5, 0x2e1b2138);
    assert CubeRoot(149, 5, 0x4d2c6dfc) && CubeRoot(151, 5, 0x53380d13);
    assert CubeRoot(157, 5, 0x650a7354) && CubeRoot(163, 5, 0x766a0abb);
    assert CubeRoot(167, 5, 0x81c2c92e) && CubeRoot(173, 5, 0x92722c85);
  }

  lemma Roots5()
    ensures RowRoots(PrimeRow(5), KRow(5))
  {
    assert CubeRoot(179, 5, 0xa2bfe8a1) && CubeRoot(181, 5, 0xa81a664b);
    assert CubeRoot(191, 5, 0xc24b8b70) && CubeRoot(193, 5, 0xc76c51a3);
    assert CubeRoot(197, 5, 0xd192e819) && CubeRoot(199, 5, 0xd6990624);
    assert CubeRoot(211, 5, 0xf40e3585) && CubeRoot(223, 6, 0x106aa070);
  }

  lemma Roots6()
    ensures RowRoots(PrimeRow(6), KRow(6))
  {
    assert CubeRoot(227, 6, 0x19a4c116) && CubeRoot(229, 6, 0x1e376c08);
    assert CubeRoot(233, 6, 0x2748774c) && CubeRoot(239, 6, 0x34b0bcb5);
    assert CubeRoot(241, 6, 0x391c0cb3) && CubeRoot(251, 6, 0x4ed8aa4a);
    assert CubeRoot(257, 6, 0x5b9cca4f) && CubeRoot(263, 6, 0x682e6ff3);
  }

  lemma Roots7()
    ensures RowRoots(PrimeRow(7), KRow(7))
  {
    assert CubeRoot(269, 6, 0x748f82ee) && CubeRoot(271, 6, 0x78a5636f);
    assert CubeRoot(277, 6, 0x84c87814) && CubeRoot(281, 6, 0x8cc70208);
    assert CubeRoot(283, 6, 0x90befffa) && CubeRoot(293, 6, 0xa4506ceb);
    assert CubeRoot(307, 6, 0xbef9a3f7) && CubeRoot(311, 6, 0xc67178f2);
  }

  /** Each round constant is the first 32 bits of the fractional part of the cube root
      of a prime. */
  lemma RoundConstants(t: nat)
    requires t < 64
    ensures RootBits(Prime(t), K(t))
  {
    hide RootBits, KRow, PrimeRow;
    Roots0(); Roots1(); Roots2(); Roots3(); Roots4(); Roots5(); Roots6(); Roots7();
    var i, j := t / 8, t % 8;
    assert RowRoots(PrimeRow(i), KRow(i));
    assert j == 0 || j == 1 || j == 2 || j == 3 || j == 4 || j == 5 || j == 6 || j == 7;
  }

  /** The initial hash value: the same for the square roots of the first eight. */
  lemma InitialValue()
    ensures var h := INITIAL;
            && (exists a :: SquareRoot(2, a, h.a)) && (exists a :: SquareRoot(3, a, h.b))
            && (exists a :: SquareRoot(5, a, h.c)) && (exists a :: SquareRoot(7, a, h.d))
            && (exists a :: SquareRoot(11, a, h.e)) && (exists a :: SquareRoot(13, a, h.f))
            && (exists a :: SquareRoot(17, a, h.g)) && (exists a :: SquareRoot(19, a, h.h))
  {
    var h := INITIAL;
    assert SquareRoot(2, 1, h.a) && SquareRoot(3, 1, h.b);
    assert SquareRoot(5, 2, h.c) && SquareRoot(7, 2, h.d);
    assert SquareRoot(11, 3, h.e) && SquareRoot(13, 3, h.f);
    assert SquareRoot(17, 4, h.g) && SquareRoot(19, 4, h.h);
  }
}
