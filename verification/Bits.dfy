/** Bit strings: the values they stand for in each bit order, and where they occur in a
    source buffer read least significant bit first (RFC 1951, section 3.1.1). */
module Bits {
  import opened Words
  import opened Arith

  type bit = x: int | 0 <= x <= 1

  /** The number whose least significant bit comes first. */
  function Lsb(w: seq<bit>): nat {
    if w == [] then 0 else w[0] + 2 * Lsb(w[1..])
  }

  /** The number whose most significant bit comes first (Huffman codes). */
  function Msb(w: seq<bit>): nat {
    if w == [] then 0 else 2 * Msb(w[..|w| - 1]) + w[|w| - 1]
  }

  function LsbBits(v: nat, n: nat): (w: seq<bit>)
    ensures |w| == n
  {
    if n == 0 then [] else [v % 2] + LsbBits(v / 2, n - 1)
  }

  function MsbBits(v: nat, n: nat): (w: seq<bit>)
    ensures |w| == n
  {
    if n == 0 then [] else MsbBits(v / 2, n - 1) + [v % 2]
  }

  lemma {:induction false} LsbBound(w: seq<bit>)
    ensures Lsb(w) < Pow2(|w|)
  {
    if w != [] {
      LsbBound(w[1..]);
    }
  }

  lemma {:induction false} MsbBound(w: seq<bit>)
    ensures Msb(w) < Pow2(|w|)
  {
    if w != [] {
      MsbBound(w[..|w| - 1]);
    }
  }

  /** In either order, n bits and the numbers below 2^n correspond one to one. */
  lemma {:induction false} LsbUnique(w: seq<bit>, v: nat)
    requires v < Pow2(|w|)
    ensures Lsb(w) == v <==> w == LsbBits(v, |w|)
  {
    if w != [] {
      LsbUnique(w[1..], v / 2);
      assert w == [w[0]] + w[1..];
      assert LsbBits(v, |w|)[1..] == LsbBits(v / 2, |w| - 1);
    }
  }

  lemma {:induction false} MsbUnique(w: seq<bit>, v: nat)
    requires v < Pow2(|w|)
    ensures Msb(w) == v <==> w == MsbBits(v, |w|)
  {
    if w != [] {
      var n := |w| - 1;
      MsbUnique(w[..n], v / 2);
      assert w == w[..n] + [w[n]];
      assert MsbBits(v, |w|)[..n] == MsbBits(v / 2, n);
    }
  }

  lemma {:induction false} LsbConcat(a: seq<bit>, b: seq<bit>)
    ensures Lsb(a + b) == Lsb(a) + Pow2(|a|) * Lsb(b)
  {
    if a == [] {
      assert a + b == b;
    } else {
      LsbConcat(a[1..], b);
      assert (a + b)[1..] == a[1..] + b;
      assert 2 * (Pow2(|a| - 1) * Lsb(b)) == (2 * Pow2(|a| - 1)) * Lsb(b);
    }
  }

  // ----- the bits of a byte buffer

  function BitOf(b: u8, i: nat): bit { b / Pow2(i) % 2 }

  /** All the bits of the buffer, in the order they are read. */
  ghost function Stream(src: seq<u8>): (bits: seq<bit>)
    ensures |bits| == 8 * |src|
  {
    seq(8 * |src|, k requires 0 <= k < 8 * |src| => BitOf(src[k / 8], k % 8))
  }

  /** Byte i is the number its eight bits stand for. */
  lemma ByteOfStream(src: seq<u8>, i: nat)
    requires i < |src|
    ensures Lsb(Stream(src)[8 * i..8 * i + 8]) == src[i]
  {
    var w := Stream(src)[8 * i..8 * i + 8];
    forall k: nat | k < 8
      ensures w[k] == BitOf(src[i], k)
    {
      assert (8 * i + k) / 8 == i && (8 * i + k) % 8 == k;
    }
    ByteBits(src[i], w, 0);
    assert w[0..] == w && Pow2(0) == 1;
  }

  lemma {:induction false} ByteBits(b: u8, w: seq<bit>, k: nat)
    requires |w| == 8 && k <= 8 && forall j: nat :: j < 8 ==> w[j] == BitOf(b, j)
    ensures Lsb(w[k..]) == b / Pow2(k)
    decreases 8 - k
  {
    if k == 8 {
      assert Pow2(8) == 0x100;
    } else {
      ByteBits(b, w, k + 1);
      assert w[k..][1..] == w[k + 1..];
      Halve(b, Pow2(k));
    }
  }

  // ----- occurrences

  /** The string `w` stands at position `p`. */
  predicate At(bits: seq<bit>, p: nat, w: seq<bit>) {
    p + |w| <= |bits| && bits[p..p + |w|] == w
  }

  lemma AtConcat(bits: seq<bit>, p: nat, a: seq<bit>, b: seq<bit>)
    ensures At(bits, p, a + b) <==> At(bits, p, a) && At(bits, p + |a|, b)
  {
    if p + |a| + |b| <= |bits| {
      var whole := bits[p..p + |a + b|];
      assert whole[..|a|] == bits[p..p + |a|] && whole[|a|..] == bits[p + |a|..p + |a| + |b|];
      assert (a + b)[..|a|] == a && (a + b)[|a|..] == b;
      assert whole == whole[..|a|] + whole[|a|..];
    }
  }
}
