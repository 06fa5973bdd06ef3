/** SHA-256 of a message given piece by piece. */
module Sha256Stream {
  import opened Division
  import opened Streaming
  import opened Sha256

  const TWO64 := 0x1_0000_0000_0000_0000
  const TWO61 := 0x2000_0000_0000_0000

  // ----- the standard -----

  const INITIAL := Regs(0x6A09E667, 0xBB67AE85, 0x3C6EF372, 0xA54FF53A, 0x510E527F, 0x9B05688C, 0x1F83D9AB, 0x5BE0CD19)

  /** A number below 2^64 as eight bytes, most significant first. */
  function BigEndian64(n: nat): (s: seq<Byte>)
    ensures |s| == 8
  {
    [ByteOf(n, 0x100_0000_0000_0000), ByteOf(n, 0x1_0000_0000_0000), ByteOf(n, 0x100_0000_0000),
        ByteOf(n, 0x1_0000_0000),
     ByteOf(n, 0x100_0000), ByteOf(n, 0x1_0000), ByteOf(n, 0x100), ByteOf(n, 1)]
  }

  function Bytes(w: Word): seq<Byte> {
    [(w >> 24) as Byte, ((w >> 16) & 0xff) as Byte, ((w >> 8) & 0xff) as Byte, (w & 0xff) as Byte]
  }

  function Encode(h: Regs): seq<Byte> {
    Bytes(h.a) + Bytes(h.b) + Bytes(h.c) + Bytes(h.d) + Bytes(h.e) + Bytes(h.f) + Bytes(h.g) + Bytes(h.h)
  }

  /** Sections 5.1.1 and 6.2 of FIPS 180-4; the appended length is in bits. */
  function Digest(m: seq<Byte>): seq<Byte> {
    Encode(Blocks(Compress, INITIAL, Padded(m, BigEndian64(8 * |m| % TWO64))))
  }

  // ----- the bit counter -----

  /** The bit counter modulo 2^64 gives the fill of the buffer. */
  lemma Fill(n: nat)
    ensures (8 * n % TWO64) / 8 % 64 == n % 64
  {
    ModScale(n, 8, TWO61);
    assert (8 * n % TWO64) / 8 == n % TWO61;
    ModMod(n, 64, TWO61 / 64);
  }

  lemma CountAdd(n: nat, k: nat)
    ensures (8 * n % TWO64 + k * 8 % TWO64) % TWO64 == 8 * (n + k) % TWO64
  {
    var a, b := 8 * n, k * 8;
    DivShift(a / TWO64 + b / TWO64, a % TWO64 + b % TWO64, TWO64);
  }

  /** The length as two big-endian halves. */
  function Be32Enc(u: nat): seq<Byte> { [ByteOf(u, 0x100_0000), ByteOf(u, 0x1_0000), ByteOf(u, 0x100), ByteOf(u, 1)] }

  function Be64Enc(u: nat): (s: seq<Byte>)
    ensures s == BigEndian64(u)
  {
    HalfBytes(u);
    Be32Enc(u / 0x1_0000_0000) + Be32Enc(u % 0x1_0000_0000)
  }

  lemma HalfByte(u: nat, shift: nat)
    requires shift == 0x100_0000 || shift == 0x1_0000 || shift == 0x100 || shift == 1
    ensures ByteOf(u / 0x1_0000_0000, shift) == ByteOf(u, 0x1_0000_0000 * shift)
    ensures ByteOf(u % 0x1_0000_0000, shift) == ByteOf(u, shift)
  {
    HalfValue(u, shift);
  }

  lemma HalfValue(u: nat, shift: nat)
    requires shift == 0x100_0000 || shift == 0x1_0000 || shift == 0x100 || shift == 1
    ensures u / 0x1_0000_0000 / shift % 256 == u / (0x1_0000_0000 * shift) % 256
    ensures (u % 0x1_0000_0000) / shift % 256 == u / shift % 256
  {
    DivDiv(u, 0x1_0000_0000, shift);
    LowByte(u, shift, if shift == 0x100_0000 then 1 else if shift == 0x1_0000 then 0x100
                      else if shift == 0x100 then 0x1_0000 else 0x100_0000);
  }

  lemma HalfBytes(u: nat)
    ensures Be32Enc(u / 0x1_0000_0000) + Be32Enc(u % 0x1_0000_0000) == BigEndian64(u)
  {
    hide ByteOf;
    HalfByte(u, 0x100_0000);
    HalfByte(u, 0x1_0000);
    HalfByte(u, 0x100);
    HalfByte(u, 1);
  }

  // ----- the context -----

  class Context {
    const state: array<Word>
    var count: nat
    const buf: array<Byte>
    ghost var message: seq<Byte>

    ghost predicate Valid()
      reads this, state, buf
    {
      && state.Length == 8
      && buf.Length == 64
      && count == 8 * |message| % TWO64
      && Absorbed(Compress, INITIAL, ToRegs(state[..]), buf[..], message)
    }

    constructor ()
      ensures Valid() && message == [] && fresh(state) && fresh(buf)
    {
      hide Absorbed, Compress;
      state := new Word[] [0x6A09E667, 0xBB67AE85, 0x3C6EF372, 0xA54FF53A,
                           0x510E527F, 0x9B05688C, 0x1F83D9AB, 0x5BE0CD19];
      buf := new Byte[64];
      count := 0;
      message := [];
      new;
      Empty(Compress, INITIAL, buf[..]);
    }

    /** Absorbs a further piece of the message, of any length. */
    method Update(src: seq<Byte>)
      requires Valid() && |src| < TWO64
      modifies this, state, buf
      ensures Valid() && message == old(message) + src
    {
      hide Absorbed, Absorbing, Compress, ToRegs;
      ghost var m, before := message, buf[..];
      Fill(|m|);
      CountAdd(|m|, |src|);
      var r := count / 8 % 64;
      var bitlen := |src| * 8 % TWO64;
      count := (count + bitlen) % TWO64;
      message := message + src;
      if |src| < 64 - r {
        Copy(buf, r, src);
        assert buf[..r + |src|] == before[..r] + src;
        ShortAppend(Compress, INITIAL, ToRegs(state[..]), before, buf[..], m, src);
        return;
      }
      Copy(buf, r, src[..64 - r]);
      assert buf[..] == before[..r] + src[..64 - r];
      FirstBlock(Compress, INITIAL, ToRegs(state[..]), before, buf[..], m, src);
      Transform(state, buf[..]);
      var pos := 64 - r;
      while |src| - pos >= 64
        invariant Absorbing(Compress, INITIAL, ToRegs(state[..]), m, src, pos) && 0 <= pos <= |src|
        invariant count == 8 * |m + src| % TWO64 && message == m + src
      {
        MoreBlocks(Compress, INITIAL, ToRegs(state[..]), m, src, pos);
        Transform(state, src[pos..pos + 64]);
        pos := pos + 64;
      }
      Copy(buf, 0, src[pos..]);
      assert buf[..|src| - pos] == src[pos..];
      LastBlock(Compress, INITIAL, ToRegs(state[..]), buf[..], m, src, pos);
    }

    /** Completes the last block or the last two with padding and length. */
    method Pad()
      requires Valid()
      modifies state, buf
      ensures state.Length == 8
      ensures ToRegs(state[..]) == Blocks(Compress, INITIAL, Padded(message, BigEndian64(8 * |message| % TWO64)))
    {
      hide Blocks, Absorbed, Compress, Padded, BigEndian64, ToRegs;
      ghost var m, before, h := message, buf[..], ToRegs(state[..]);
      Fill(|m|);
      var r := count / 8 % 64;
      var pad := [0x80] + Zeros(63);
      if r < 56 {
        Copy(buf, r, pad[..56 - r]);
      } else {
        Copy(buf, r, pad[..64 - r]);
        assert buf[..] == before[..r] + [0x80] + Zeros(63 - r);
        Transform(state, buf[..]);
        Copy(buf, 0, Zeros(56));
      }
      ghost var head := buf[..56];
      var length := Be64Enc(count);
      Copy(buf, 56, length);
      assert buf[..] == head + length;
      if r < 56 {
        assert head == before[..r] + [0x80] + Zeros(55 - r);
        PaddedShort(Compress, INITIAL, h, before, buf[..], m, length);
      } else {
        assert head == Zeros(56);
        PaddedLong(Compress, INITIAL, h, before, before[..r] + [0x80] + Zeros(63 - r), buf[..], m, length);
      }
      Transform(state, buf[..]);
    }

    /** The digest of everything absorbed. */
    method Final() returns (digest: seq<Byte>)
      requires Valid()
      modifies state, buf
      ensures digest == Digest(message)
    {
      hide Blocks, Padded, Bytes, Compress, BigEndian64;
      Pad();
      digest := Bytes(state[0]) + Bytes(state[1]) + Bytes(state[2]) + Bytes(state[3])
                + Bytes(state[4]) + Bytes(state[5]) + Bytes(state[6]) + Bytes(state[7]);
    }
  }

  /** However a message is cut into pieces, the digest is that of the message. */
  method HashPieces(pieces: seq<seq<Byte>>) returns (digest: seq<Byte>)
    requires forall p :: p in pieces ==> |p| < TWO64
    ensures digest == Digest(Joined(pieces))
  {
    hide Digest, Absorbed;
    var ctx := new Context();
    for i := 0 to |pieces|
      invariant ctx.Valid() && ctx.message == Joined(pieces[..i])
      invariant fresh(ctx) && fresh(ctx.state) && fresh(ctx.buf)
    {
      assert pieces[i] in pieces;
      ctx.Update(pieces[i]);
      assert pieces[..i + 1][..i] == pieces[..i];
    }
    assert pieces[..|pieces|] == pieces;
    digest := ctx.Final();
  }
}
