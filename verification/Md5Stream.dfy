/** MD5 of a message given piece by piece. */
module Md5Stream {
  import opened Division
  import opened Streaming
  import opened Md5

  // ----- the standard -----

  const INITIAL := Regs(0x67452301, 0xefcdab89, 0x98badcfe, 0x10325476)

  /** A number below 2^64 as eight bytes, least significant first. */
  function LittleEndian64(n: nat): (s: seq<Byte>)
    ensures |s| == 8
  {
    [ByteOf(n, 1), ByteOf(n, 0x100), ByteOf(n, 0x1_0000), ByteOf(n, 0x100_0000), ByteOf(n, 0x1_0000_0000),
     ByteOf(n, 0x100_0000_0000), ByteOf(n, 0x1_0000_0000_0000), ByteOf(n, 0x100_0000_0000_0000)]
  }

  function Bytes(w: Word): seq<Byte> {
    [(w & 0xff) as Byte, ((w >> 8) & 0xff) as Byte, ((w >> 16) & 0xff) as Byte, (w >> 24) as Byte]
  }

  function Encode(h: Regs): seq<Byte> { Bytes(h.a) + Bytes(h.b) + Bytes(h.c) + Bytes(h.d) }

  /** Sections 3.1 to 3.5 of RFC 1321; the appended length is in bits. */
  function Digest(m: seq<Byte>): seq<Byte> {
    Encode(Blocks(Compress, INITIAL, Padded(m, LittleEndian64(8 * |m| % TWO64))))
  }

  // ----- the length from the split counter -----

  function Le32Enc(u: nat): seq<Byte> { [ByteOf(u, 1), ByteOf(u, 0x100), ByteOf(u, 0x1_0000), ByteOf(u, 0x100_0000)] }

  lemma HalfValue(lo: nat, hi: nat, shift: nat)
    requires lo < TWO32
    requires shift == 0x100_0000 || shift == 0x1_0000 || shift == 0x100 || shift == 1
    ensures (hi * TWO32 + lo) / shift % 256 == lo / shift % 256
    ensures (hi * TWO32 + lo) / (TWO32 * shift) % 256 == hi / shift % 256
  {
    var u := hi * TWO32 + lo;
    DivisionUnique(u, TWO32, hi, lo);
    DivDiv(u, TWO32, shift);
    LowByte(u, shift, if shift == 0x100_0000 then 1 else if shift == 0x1_0000 then 0x100
                      else if shift == 0x100 then 0x1_0000 else 0x100_0000);
  }

  lemma HalfByte(lo: nat, hi: nat, shift: nat)
    requires lo < TWO32
    requires shift == 0x100_0000 || shift == 0x1_0000 || shift == 0x100 || shift == 1
    ensures ByteOf(hi * TWO32 + lo, shift) == ByteOf(lo, shift)
    ensures ByteOf(hi * TWO32 + lo, TWO32 * shift) == ByteOf(hi, shift)
  {
    HalfValue(lo, hi, shift);
  }

  lemma Halves(lo: nat, hi: nat)
    requires lo < TWO32
    ensures Le32Enc(lo) + Le32Enc(hi) == LittleEndian64(hi * TWO32 + lo)
  {
    hide ByteOf;
    HalfByte(lo, hi, 1);
    HalfByte(lo, hi, 0x100);
    HalfByte(lo, hi, 0x1_0000);
    HalfByte(lo, hi, 0x100_0000);
  }

  /** The 29-bit part shifted by three and the upper part are the two halves of the
      message's length in bits. */
  lemma LengthBytes(lo: nat, hi: nat, n: nat)
    requires Counts(lo, hi, n)
    ensures Le32Enc(lo * 8 % TWO32) + Le32Enc(hi) == LittleEndian64(8 * n % TWO64)
  {
    hide LittleEndian64, Le32Enc;
    ModScale(n, 8, TWO61);
    assert lo * 8 % TWO32 == lo * 8;
    Halves(lo * 8, hi);
  }

  lemma Fill(lo: nat, hi: nat, n: nat)
    requires Counts(lo, hi, n)
    ensures lo % 64 == n % 64
  {
    ModMod(n, 64, TWO61 / 64);
    assert (hi * TWO29 + lo) % 64 == lo % 64;
  }

  lemma CarryFirst(hi: nat, q: nat)
    ensures ((hi + 1) % TWO32 + q) % TWO32 == (hi + 1 + q) % TWO32
  {
    DivShift((hi + 1) / TWO32, (hi + 1) % TWO32 + q, TWO32);
  }

  // ----- the context -----

  /** One or more whole blocks. */
  method Body(state: array<Word>, data: seq<Byte>)
    requires state.Length == 4 && |data| >= 64 && |data| % 64 == 0
    modifies state
    ensures View(state[..], 0) == Blocks(Compress, View(old(state[..]), 0), data)
  {
    hide Compress, View;
    ghost var h := View(state[..], 0);
    var ptr := 0;
    while ptr != |data|
      invariant 0 <= ptr <= |data| && ptr % 64 == 0
      invariant View(state[..], 0) == Blocks(Compress, h, data[..ptr])
      decreases |data| - ptr
    {
      NextBlock(Compress, h, data[..ptr], data[ptr..ptr + 64]);
      assert data[..ptr] + data[ptr..ptr + 64] == data[..ptr + 64];
      BodyBlock(state, data[ptr..ptr + 64]);
      ptr := ptr + 64;
    }
    assert data[..ptr] == data;
  }

  class Context {
    const state: array<Word>
    var lo: nat
    var hi: nat
    const buffer: array<Byte>
    ghost var message: seq<Byte>

    ghost predicate Valid()
      reads this, state, buffer
    {
      && state.Length == 4
      && buffer.Length == 64
      && Counts(lo, hi, |message|)
      && Absorbed(Compress, INITIAL, View(state[..], 0), buffer[..], message)
    }

    constructor ()
      ensures Valid() && message == [] && fresh(state) && fresh(buffer)
    {
      hide Absorbed, Compress;
      state := new Word[] [0x67452301, 0xefcdab89, 0x98badcfe, 0x10325476];
      buffer := new Byte[64];
      lo, hi := 0, 0;
      message := [];
      new;
      Empty(Compress, INITIAL, buffer[..]);
    }

    /** Advances the counter; a carry shows as a smaller low part. */
    method Count(size: nat)
      requires Counts(lo, hi, |message|)
      modifies this`lo, this`hi
      ensures Counts(lo, hi, |message| + size)
    {
      hide Counts;
      CarryCorrect(lo, hi, |message|, size);
      CarryFirst(hi, size / TWO29);
      var saved := lo;
      lo := (saved + size) % TWO29;
      if lo < saved {
        hi := (hi + 1) % TWO32;
      }
      hi := (hi + size / TWO29) % TWO32;
    }

    /** From position pos on: whole blocks straight from the data, then the tail. */
    method Rest(ghost m: seq<Byte>, data: seq<Byte>, pos: nat)
      requires state.Length == 4 && buffer.Length == 64
      requires Absorbing(Compress, INITIAL, View(state[..], 0), m, data, pos)
      modifies state, buffer
      ensures Absorbed(Compress, INITIAL, View(state[..], 0), buffer[..], m + data)
    {
      hide Absorbed, Compress, View, Blocks;
      var whole := (|data| - pos) - (|data| - pos) % 64;
      var at := pos;
      if |data| - pos >= 64 {
        ManyBlocks(View(state[..], 0), m, data, pos, whole);
        Body(state, data[pos..pos + whole]);
        at := pos + whole;
      }
      Copy(buffer, 0, data[at..]);
      assert buffer[..|data| - at] == data[at..];
      LastBlock(Compress, INITIAL, View(state[..], 0), buffer[..], m, data, at);
    }

    /** Absorbs a further piece of the message, of any length. */
    method Hash(data: seq<Byte>)
      requires Valid() && |data| < TWO64
      modifies this, state, buffer
      ensures Valid() && message == old(message) + data
    {
      hide Absorbed, Absorbing, Compress, View, Counts, Blocks;
      ghost var m, before := message, buffer[..];
      Fill(lo, hi, |m|);
      var used := lo % 64;
      Count(|data|);
      message := message + data;
      var pos := 0;
      if used != 0 {
        var available := 64 - used;
        if |data| < available {
          Copy(buffer, used, data);
          assert buffer[..used + |data|] == before[..used] + data;
          ShortAppend(Compress, INITIAL, View(state[..], 0), before, buffer[..], m, data);
          return;
        }
        Copy(buffer, used, data[..available]);
        assert buffer[..] == before[..used] + data[..available];
        FirstBlock(Compress, INITIAL, View(state[..], 0), before, buffer[..], m, data);
        BodyBlock(state, buffer[..]);
        pos := available;
      } else {
        NoFirstBlock(Compress, INITIAL, View(state[..], 0), before, m, data);
      }
      Rest(m, data, pos);
    }

    /** Completes the last block or the last two with padding and length. */
    method Pad()
      requires Valid()
      modifies this`lo, state, buffer
      ensures state.Length == 4
      ensures View(state[..], 0) == Blocks(Compress, INITIAL, Padded(message, LittleEndian64(8 * |message| % TWO64)))
    {
      hide Blocks, Absorbed, Compress, Padded, LittleEndian64, View, Le32Enc, Counts;
      ghost var m, before, h := message, buffer[..], View(state[..], 0);
      Fill(lo, hi, |m|);
      LengthBytes(lo, hi, |m|);
      var r := lo % 64;
      buffer[r] := 0x80;
      assert buffer[..] == before[..r] + [0x80] + before[r + 1..];
      var used := r + 1;
      if 64 - used < 8 {
        Copy(buffer, used, Zeros(64 - used));
        assert buffer[..] == before[..r] + [0x80] + Zeros(63 - r);
        BodyBlock(state, buffer[..]);
        used := 0;
      }
      Copy(buffer, used, Zeros(64 - used - 8));
      ghost var head := buffer[..56];
      lo := lo * 8 % TWO32;
      var length := Le32Enc(lo) + Le32Enc(hi);
      Copy(buffer, 56, length);
      assert buffer[..] == head + length;
      if r < 56 {
        assert head == before[..r] + [0x80] + Zeros(55 - r);
        PaddedShort(Compress, INITIAL, h, before, buffer[..], m, length);
      } else {
        assert head == Zeros(56);
        PaddedLong(Compress, INITIAL, h, before, before[..r] + [0x80] + Zeros(63 - r), buffer[..], m, length);
      }
      BodyBlock(state, buffer[..]);
    }

    /** The digest of everything absorbed. */
    method End() returns (digest: seq<Byte>)
      requires Valid()
      modifies this`lo, state, buffer
      ensures digest == Digest(message)
    {
      hide Blocks, Padded, Bytes, Compress, LittleEndian64;
      Pad();
      digest := Bytes(state[0]) + Bytes(state[1]) + Bytes(state[2]) + Bytes(state[3]);
    }
  }

  lemma ManyBlocks(state: Regs, m: seq<Byte>, data: seq<Byte>, pos: nat, size: nat)
    requires Absorbing(Compress, INITIAL, state, m, data, pos) && pos + size <= |data| && size % 64 == 0
    ensures Absorbing(Compress, INITIAL, Blocks(Compress, state, data[pos..pos + size]), m, data, pos + size)
  {
    hide Blocks, Compress;
    BlocksAppend(Compress, INITIAL, m + data[..pos], data[pos..pos + size]);
    assert (m + data[..pos]) + data[pos..pos + size] == m + data[..pos + size];
  }

  /** However a message is cut into pieces, the digest is that of the message. */
  method HashPieces(pieces: seq<seq<Byte>>) returns (digest: seq<Byte>)
    requires forall p :: p in pieces ==> |p| < TWO64
    ensures digest == Digest(Joined(pieces))
  {
    hide Digest, Absorbed, Counts;
    var ctx := new Context();
    for i := 0 to |pieces|
      invariant ctx.Valid() && ctx.message == Joined(pieces[..i])
      invariant fresh(ctx) && fresh(ctx.state) && fresh(ctx.buffer)
    {
      assert pieces[i] in pieces;
      ctx.Hash(pieces[i]);
      assert pieces[..i + 1][..i] == pieces[..i];
    }
    assert pieces[..|pieces|] == pieces;
    digest := ctx.End();
  }
}
