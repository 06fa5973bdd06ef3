/** Block hashes fed piece by piece: a buffer for the last, incomplete block of 64
    bytes, and padding. `f` is the compression, `h` the initial value. */
module Streaming {
  type Byte = bv8

  /** All complete blocks of m absorbed in turn. */
  function Blocks<S>(f: (S, seq<Byte>) -> S, h: S, m: seq<Byte>): S
    decreases |m|
  {
    if |m| < 64 then h else Blocks(f, f(h, m[..64]), m[64..])
  }

  function Zeros(n: nat): (z: seq<Byte>)
    ensures |z| == n && forall i :: 0 <= i < n ==> z[i] == 0
  {
    seq(n, _ => 0)
  }

  /** The least number of zero bytes after the marker byte that leaves room for
      exactly the length in the last block. */
  function ZeroCount(n: nat): (k: nat)
    ensures k < 64 && (n + 1 + k) % 64 == 56
  {
    (55 - n % 64) % 64
  }

  /** The padded message: a marker byte, zeros and the length, to full blocks. */
  function Padded(m: seq<Byte>, length: seq<Byte>): seq<Byte> { m + [0x80] + Zeros(ZeroCount(|m|)) + length }

  function ByteOf(n: nat, shift: nat): Byte
    requires shift > 0
  {
    ((n / shift) % 256) as Byte
  }

  lemma ByteAbove(n: nat, shift: nat)
    requires shift > n
    ensures ByteOf(n, shift) == 0
  {
    assert n / shift == 0;
  }

  function Joined(pieces: seq<seq<Byte>>): seq<Byte> {
    if pieces == [] then [] else Joined(pieces[..|pieces| - 1]) + pieces[|pieces| - 1]
  }

  /** Where the last, incomplete block of a message starts. */
  function Whole(n: nat): (k: nat)
    ensures k <= n && k % 64 == 0 && n - k == n % 64
  {
    n - n % 64
  }

  lemma {:induction false} BlocksAppend<S>(f: (S, seq<Byte>) -> S, h: S, a: seq<Byte>, b: seq<Byte>)
    requires |a| % 64 == 0
    ensures Blocks(f, h, a + b) == Blocks(f, Blocks(f, h, a), b)
    decreases |a|
  {
    if a == [] {
      assert a + b == b;
    } else {
      assert (a + b)[..64] == a[..64] && (a + b)[64..] == a[64..] + b;
      BlocksAppend(f, f(h, a[..64]), a[64..], b);
    }
  }

  lemma NextBlock<S>(f: (S, seq<Byte>) -> S, h: S, a: seq<Byte>, block: seq<Byte>)
    requires |a| % 64 == 0 && |block| == 64
    ensures Blocks(f, h, a + block) == f(Blocks(f, h, a), block)
  {
    BlocksAppend(f, h, a, block);
    assert block[..64] == block && block[64..] == [];
  }

  // ----- what a context holds -----

  /** The hash value covers all complete blocks of m, the buffer the rest. */
  ghost predicate Absorbed<S>(f: (S, seq<Byte>) -> S, h: S, state: S, buf: seq<Byte>, m: seq<Byte>) {
    && |buf| == 64
    && state == Blocks(f, h, m[..Whole(|m|)])
    && buf[..|m| % 64] == m[Whole(|m|)..]
  }

  /** Up to position pos of src, which completes a block, all is absorbed. */
  ghost predicate Absorbing<S>(f: (S, seq<Byte>) -> S, h: S, state: S, m: seq<Byte>, src: seq<Byte>, pos: nat) {
    && pos <= |src| && (|m| + pos) % 64 == 0
    && state == Blocks(f, h, m + src[..pos])
  }

  lemma Empty<S>(f: (S, seq<Byte>) -> S, h: S, buf: seq<Byte>)
    requires |buf| == 64
    ensures Absorbed(f, h, h, buf, [])
  {}

  lemma ShortAppend<S>(f: (S, seq<Byte>) -> S, h: S, state: S, buf: seq<Byte>, buf': seq<Byte>, m: seq<Byte>,
                       src: seq<Byte>)
    requires Absorbed(f, h, state, buf, m) && |src| < 64 - |m| % 64
    requires |buf'| == 64 && buf'[..|m| % 64 + |src|] == buf[..|m| % 64] + src
    ensures Absorbed(f, h, state, buf', m + src)
  {
    hide Blocks;
    assert Whole(|m + src|) == Whole(|m|);
    assert (m + src)[..Whole(|m|)] == m[..Whole(|m|)];
    assert (m + src)[Whole(|m|)..] == m[Whole(|m|)..] + src;
  }

  lemma FirstBlock<S>(f: (S, seq<Byte>) -> S, h: S, state: S, buf: seq<Byte>, block: seq<Byte>, m: seq<Byte>,
                      src: seq<Byte>)
    requires Absorbed(f, h, state, buf, m) && |src| >= 64 - |m| % 64
    requires block == buf[..|m| % 64] + src[..64 - |m| % 64]
    ensures |block| == 64 && Absorbing(f, h, f(state, block), m, src, 64 - |m| % 64)
  {
    hide Blocks;
    var k, pos := Whole(|m|), 64 - |m| % 64;
    NextBlock(f, h, m[..k], block);
    assert m[..k] + block == m + src[..pos];
  }

  lemma NoFirstBlock<S>(f: (S, seq<Byte>) -> S, h: S, state: S, buf: seq<Byte>, m: seq<Byte>, src: seq<Byte>)
    requires Absorbed(f, h, state, buf, m) && |m| % 64 == 0
    ensures Absorbing(f, h, state, m, src, 0)
  {
    assert m[..|m|] == m == m + src[..0];
  }

  lemma MoreBlocks<S>(f: (S, seq<Byte>) -> S, h: S, state: S, m: seq<Byte>, src: seq<Byte>, pos: nat)
    requires Absorbing(f, h, state, m, src, pos) && |src| - pos >= 64
    ensures Absorbing(f, h, f(state, src[pos..pos + 64]), m, src, pos + 64)
  {
    hide Blocks;
    NextBlock(f, h, m + src[..pos], src[pos..pos + 64]);
    assert (m + src[..pos]) + src[pos..pos + 64] == m + src[..pos + 64];
  }

  lemma LastBlock<S>(f: (S, seq<Byte>) -> S, h: S, state: S, buf: seq<Byte>, m: seq<Byte>, src: seq<Byte>, pos: nat)
    requires Absorbing(f, h, state, m, src, pos) && |src| - pos < 64
    requires |buf| == 64 && buf[..|src| - pos] == src[pos..]
    ensures Absorbed(f, h, state, buf, m + src)
  {
    hide Blocks;
    assert Whole(|m + src|) == |m| + pos;
    assert (m + src)[..|m| + pos] == m + src[..pos];
    assert (m + src)[|m| + pos..] == src[pos..];
  }

  lemma PaddedShort<S>(f: (S, seq<Byte>) -> S, h: S, state: S, buf: seq<Byte>, block: seq<Byte>, m: seq<Byte>,
                       length: seq<Byte>)
    requires Absorbed(f, h, state, buf, m) && |m| % 64 < 56 && |length| == 8
    requires block == buf[..|m| % 64] + [0x80] + Zeros(55 - |m| % 64) + length
    ensures |block| == 64 && f(state, block) == Blocks(f, h, Padded(m, length))
  {
    hide Blocks;
    var k, r := Whole(|m|), |m| % 64;
    NextBlock(f, h, m[..k], block);
    assert ZeroCount(|m|) == 55 - r;
    assert m[..k] + block == Padded(m, length);
  }

  lemma PaddedLong<S>(f: (S, seq<Byte>) -> S, h: S, state: S, buf: seq<Byte>, block1: seq<Byte>, block2: seq<Byte>,
                      m: seq<Byte>, length: seq<Byte>)
    requires Absorbed(f, h, state, buf, m) && |m| % 64 >= 56 && |length| == 8
    requires block1 == buf[..|m| % 64] + [0x80] + Zeros(63 - |m| % 64)
    requires block2 == Zeros(56) + length
    ensures |block1| == |block2| == 64 && f(f(state, block1), block2) == Blocks(f, h, Padded(m, length))
  {
    hide Blocks;
    var k, r := Whole(|m|), |m| % 64;
    NextBlock(f, h, m[..k], block1);
    NextBlock(f, h, m[..k] + block1, block2);
    assert ZeroCount(|m|) == 119 - r;
    assert Zeros(63 - r) + Zeros(56) == Zeros(119 - r);
    assert m[..k] + block1 == m + [0x80] + Zeros(63 - r);
    assert m[..k] + block1 + block2 == Padded(m, length);
  }

  /** Copies bytes into a buffer at a position. */
  method Copy(dst: array<Byte>, at: nat, src: seq<Byte>)
    requires at + |src| <= dst.Length
    modifies dst
    ensures dst[..] == old(dst[..at]) + src + old(dst[at + |src|..])
  {
    for i := 0 to |src|
      invariant dst[..at] == old(dst[..at])
      invariant dst[at..at + i] == src[..i]
      invariant dst[at + i..] == old(dst[at + i..])
    {
      dst[at + i] := src[i];
      assert dst[at..at + i + 1] == dst[at..at + i] + [src[i]];
    }
    assert dst[..] == dst[..at] + dst[at..at + |src|] + dst[at + |src|..];
  }
}
