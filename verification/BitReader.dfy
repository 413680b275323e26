/** The LSB-first bit reader of the DEFLATE decoder (inflate.cpp, BitReader and get_bits). */
module BitReaders {
  import opened Words
  import opened Arith
  import opened Bits

  /** Buffers shorter than this leave room for the longest step of a position, 65535 bytes,
      below 2^32. */
  const MAX_BUFFER: int := 0xffff_0001

  /** The bounds tests add a position and a length in 32 bits. They decide by the true sum
      for all positions and lengths exactly in buffers shorter than MAX_BUFFER. */
  lemma BoundsTestIff(size: u32)
    ensures size < MAX_BUFFER <==>
            forall pos: u32, len: u16 :: pos <= size ==> (InBounds(pos, len, size) <==> pos as int + len <= size)
  {
    if size >= MAX_BUFFER {
      var len: u16 := M32 - size;
      assert !(InBounds(size, len, size) <==> size as int + len <= size);
    }
  }

  lemma InBoundsIs(pos: u32, len: u16, size: u32)
    requires size < MAX_BUFFER && pos <= size
    ensures InBounds(pos, len, size) <==> pos as int + len <= size
  {}

  /** The bounds test as the source computes it. */
  predicate InBounds(pos: u32, len: u32, size: u32) {
    W(pos as int + len) <= size
  }

  class BitReader {
    const src: seq<u8>
    var pos: u32
    var bitbuf: u32
    var bitcnt: u32

    ghost predicate Valid()
      reads this
    {
      && |src| < MAX_BUFFER && pos <= |src| && bitcnt <= 7 && bitcnt <= 8 * pos
      && bitbuf == Lsb(Stream(src)[At()..8 * pos])
    }

    /** The number of bits consumed so far. */
    ghost function At(): (p: nat)
      requires bitcnt <= 8 * pos
      reads this
    {
      8 * pos - bitcnt
    }

    ghost function Left(): nat
      requires bitcnt <= 8 * pos && pos <= |src|
      reads this
    {
      8 * |src| - At()
    }

    constructor (src: seq<u8>)
      requires |src| < MAX_BUFFER
      ensures Valid() && this.src == src && At() == 0
    {
      this.src := src;
      pos := 0;
      bitbuf := 0;
      bitcnt := 0;
    }

    /** Pulls `need` bits as a number, least significant first; fails exactly when the
        buffer does not hold them (the reader is then no longer usable). */
    method GetBits(need: u32) returns (r: Option<u32>)
      requires Valid() && need <= 24
      modifies this
      ensures r.Some? <==> old(At()) + need <= 8 * |src|
      ensures r.Some? ==>
        && Valid() && At() == old(At()) + need
        && r.value == Lsb(Stream(src)[old(At())..At()]) && r.value < Pow2(need)
    {
      hide Stream, Lsb, Pow2;
      var val := Refill(need);
      if val.None? {
        return None;
      }
      r := Take(need, val.value, old(At()));
    }

    /** The loop: loads bytes until `need` bits are buffered; `bitbuf` is not written. */
    method Refill(need: u32) returns (r: Option<u32>)
      requires Valid() && need <= 24
      modifies this`pos, this`bitcnt
      ensures r.Some? <==> old(At()) + need <= 8 * |src|
      ensures r.Some? ==>
        && pos <= |src| && bitcnt == 8 * pos - old(At()) && need <= bitcnt < need + 8
        && r.value == Lsb(Stream(src)[old(At())..8 * pos])
    {
      hide Stream, Lsb, Pow2;
      ghost var at := At();
      var val := bitbuf;
      while bitcnt < need
        invariant pos <= |src| && bitcnt == 8 * pos - at && (bitcnt <= 7 || bitcnt < need + 8)
        invariant val == Lsb(Stream(src)[at..8 * pos])
        decreases |src| - pos
      {
        if pos >= |src| {
          return None;
        }
        AppendByte(src, at, pos);
        val := Load(val, src[pos], bitcnt);
        pos := pos + 1;
        bitcnt := bitcnt + 8;
      }
      r := Some(val);
    }

    method Take(need: u32, val: u32, ghost at: nat) returns (r: Option<u32>)
      requires |src| < MAX_BUFFER && pos <= |src| && need <= 24
      requires at <= 8 * pos && bitcnt == 8 * pos - at && need <= bitcnt
      requires bitcnt < need + 8
      requires val == Lsb(Stream(src)[at..8 * pos])
      modifies this`bitbuf, this`bitcnt
      ensures Valid() && At() == at + need && r.Some?
      ensures r.value == Lsb(Stream(src)[at..at + need]) && r.value < Pow2(need)
    {
      hide Stream, Lsb, Pow2;
      SplitBits(Stream(src), at, need, 8 * pos, val);
      var low: u32, high: u32 := val % Pow2(need), val / Pow2(need);
      r := Some(low);
      bitbuf := high;
      bitcnt := bitcnt - need;
    }
  }

  /** val | byte << bitcnt, for a value of `bitcnt` bits: the operands share no bit. */
  function Load(val: u32, byte: u8, bitcnt: u32): u32
    requires val + byte * Pow2(bitcnt) < 0x1_0000_0000
  {
    val + byte * Pow2(bitcnt)
  }

  lemma NextByteBits(bits: seq<bit>, at: nat, p: nat)
    requires at <= p && p + 8 <= |bits|
    ensures bits[at..p + 8] == bits[at..p] + bits[p..p + 8]
  {}

  /** A byte loaded above the buffered bits extends their number. */
  lemma AppendByte(src: seq<u8>, at: nat, pos: nat)
    requires pos < |src| && at <= 8 * pos && 8 * pos - at <= 23
    ensures Lsb(Stream(src)[at..8 * pos]) + src[pos] * Pow2(8 * pos - at) == Lsb(Stream(src)[at..8 * (pos + 1)])
    ensures Lsb(Stream(src)[at..8 * (pos + 1)]) < 0x1_0000_0000
  {
    hide Stream, Lsb, Pow2;
    var bits := Stream(src);
    var a, b := bits[at..8 * pos], bits[8 * pos..8 * pos + 8];
    NextByteBits(bits, at, 8 * pos);
    LsbConcat(a, b);
    ByteOfStream(src, pos);
    LsbBound(a + b);
    Pow2Monotone(|a + b|, 31);
    Pow2At32();
  }

  /** Taking the low `need` bits and shifting them out. */
  lemma SplitBits(bits: seq<bit>, at: nat, need: nat, end: nat, v: u32)
    requires at + need <= end <= |bits| && v == Lsb(bits[at..end])
    ensures v % Pow2(need) == Lsb(bits[at..at + need])
    ensures v / Pow2(need) == Lsb(bits[at + need..end])
    ensures Lsb(bits[at..at + need]) < Pow2(need) && Lsb(bits[at..at + need]) <= v
    ensures Lsb(bits[at + need..end]) <= v
  {
    hide Lsb, Pow2;
    var a, b := bits[at..at + need], bits[at + need..end];
    assert bits[at..end] == a + b;
    LsbConcat(a, b);
    LsbBound(a);
    DivModUnique(Lsb(a + b), Pow2(need), Lsb(b), Lsb(a));
    ProductAtLeast(Lsb(b), Pow2(need));
  }

  lemma ProductAtLeast(x: nat, p: nat)
    requires p >= 1
    ensures x <= p * x
  {}
}
