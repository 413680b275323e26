/** Streaming SHA-256 (sha256.cpp; sections 5.1.1, 5.2.1 and 6.2 of FIPS 180-4), for any
    compression function. */
module Sha {
  import opened Words
  import opened Arith

  const ZEROS: seq<u32> := [0, 0, 0, 0, 0, 0, 0, 0]
  type HashState = s: seq<u32> | |s| == 8 witness ZEROS

  const BLOCK := 64

  const INITIAL: HashState :=
    [0x6a09e667, 0xbb67ae85, 0x3c6ef372, 0xa54ff53a, 0x510e527f, 0x9b05688c, 0x1f83d9ab, 0x5be0cd19]

  const PRIMES: seq<nat> := [2, 3, 5, 7, 11, 13, 17, 19]
  const ROOTS: seq<nat> := [1, 1, 2, 2, 3, 3, 4, 4]

  /** Section 5.3.3: the words are the first 32 bits of the fractional parts of the square
      roots of the first eight primes. */
  lemma InitialWords(i: nat)
    requires i < 8
    ensures ROOTS[i] * ROOTS[i] <= PRIMES[i] < (ROOTS[i] + 1) * (ROOTS[i] + 1)
    ensures var r := ROOTS[i] * M32 + INITIAL[i]; r * r <= PRIMES[i] * (M32 * M32) < (r + 1) * (r + 1)
  {}

  type Compress = (HashState, seq<u8>) -> HashState

  // ----- the standard

  /** The hash state after the blocks of m. */
  function Fold(f: Compress, m: seq<u8>): HashState
    requires |m| % BLOCK == 0
    decreases |m|
  {
    if m == [] then INITIAL else f(Fold(f, m[..|m| - BLOCK]), m[|m| - BLOCK..])
  }

  lemma FoldNext(f: Compress, m: seq<u8>, b: seq<u8>)
    requires |m| % BLOCK == 0 && |b| == BLOCK
    ensures |m + b| % BLOCK == 0 && Fold(f, m + b) == f(Fold(f, m), b)
  {
    assert (m + b)[..|m + b| - BLOCK] == m;
    assert (m + b)[|m + b| - BLOCK..] == b;
  }

  /** Byte i of x, the lowest first. */
  function ByteOf(x: nat, i: nat): u8 {
    if i == 0 then x % 0x100 else ByteOf(x / 0x100, i - 1)
  }

  /** The n low bytes of x, big-endian. */
  function BigEndian(x: nat, n: nat): seq<u8> {
    seq(n, i requires 0 <= i < n => ByteOf(x, n - 1 - i))
  }

  /** They are the number x has modulo 256^n. */
  lemma {:induction false} BigEndianValue(x: nat, n: nat)
    ensures BeVal(BigEndian(x, n)) == x % Pow2(8 * n)
  {
    if n > 0 {
      hide Pow2, BeVal;
      BigEndianValue(x / 0x100, n - 1);
      BigEndianNext(x, n - 1);
      BeValNext(BigEndian(x / 0x100, n - 1), x % 0x100);
      Pow2Add(8, 8 * n - 8);
      Pow2At8();
      LowDigit(x, Pow2(8 * n - 8));
    } else {
      Pow2At8();
    }
  }

  lemma BigEndianNext(x: nat, n: nat)
    ensures BigEndian(x, n + 1) == BigEndian(x / 0x100, n) + [x % 0x100]
  {
    var s, t := BigEndian(x, n + 1), BigEndian(x / 0x100, n) + [x % 0x100];
    forall i: nat | i <= n
      ensures s[i] == t[i]
    {
      if i < n {
        assert ByteOf(x, n - i) == ByteOf(x / 0x100, n - 1 - i);
      }
    }
  }

  function Zeros(n: nat): seq<u8> { seq(n, i => 0) }

  /** The number of zero bytes of padding: the smallest that fills the last block. */
  function ZeroCount(n: nat): (k: nat)
    ensures k < BLOCK && (n + 1 + k + 8) % BLOCK == 0
  {
    (BLOCK - 9 - n) % BLOCK
  }

  lemma ZeroCountIsSmallest(n: nat, k: nat)
    requires (n + 1 + k + 8) % BLOCK == 0
    ensures ZeroCount(n) <= k
  {}

  function Padded(m: seq<u8>): (p: seq<u8>)
    ensures |p| % BLOCK == 0
  {
    m + [0x80] + Zeros(ZeroCount(|m|)) + BigEndian(8 * |m| % M64, 8)
  }

  lemma BigEndianSize(x: nat, n: nat)
    ensures |BigEndian(x, n)| == n
  {}

  lemma LengthValue(x: u64)
    ensures BeVal(BigEndian(x, 8)) == x
  {
    hide Pow2, BeVal, BigEndian;
    BigEndianValue(x, 8);
    Pow2Add(32, 32);
    Pow2At32();
  }

  /** Section 5.1.1: the message, one bit, zeros, and the length in bits as a 64-bit number,
      in whole blocks and as few as possible. */
  lemma PaddedBytes(m: seq<u8>)
    ensures var p := Padded(m);
            && |p| % 64 == 0 && |m| + 9 <= |p| < |m| + 73 && p[..|m|] == m && p[|m|] == 128
            && (forall i :: |m| < i < |p| - 8 ==> p[i] == 0)
            && BeVal(p[|p| - 8..]) == 8 * |m| % 0x1_0000_0000_0000_0000
  {
    hide Pow2, BeVal, BigEndian;
    var p, tail := Padded(m), BigEndian(8 * |m| % M64, 8);
    BigEndianSize(8 * |m| % M64, 8);
    assert p[|p| - 8..] == tail;
    LengthValue(8 * |m| % M64);
  }

  function DigestOf(w: HashState): seq<u8> {
    seq(32, i requires 0 <= i < 32 => ByteOf(w[i / 4], 3 - i % 4))
  }

  /** Every word of the state, most significant byte first. */
  lemma DigestWords(w: HashState, k: nat)
    requires k < 8
    ensures BeVal(DigestOf(w)[4 * k..4 * k + 4]) == w[k]
  {
    var d := DigestOf(w)[4 * k..4 * k + 4];
    assert d == BigEndian(w[k], 4) by {
      hide ByteOf;
      assert (4 * k) / 4 == k && (4 * k + 1) / 4 == k && (4 * k + 2) / 4 == k && (4 * k + 3) / 4 == k;
    }
    BigEndianValue(w[k], 4);
    Pow2At32();
  }

  function Digest(f: Compress, m: seq<u8>): seq<u8> { DigestOf(Fold(f, Padded(m))) }

  // ----- the code

  class Sha256 {
    const compress: Compress
    const buf: array<u8>
    var state: HashState
    var used: nat
    var total: u64
    ghost var msg: seq<u8>

    /** Between calls less than a block is buffered, and the state covers all the rest. */
    ghost predicate Valid()
      reads this, buf
    {
      Covers() && total == |msg| % M64
    }

    ghost predicate Covers()
      reads this`used, this`msg, this`state, buf
    {
      && buf.Length == BLOCK && used < BLOCK && used <= |msg| && (|msg| - used) % BLOCK == 0
      && buf[..used] == msg[|msg| - used..] && state == Fold(compress, msg[..|msg| - used])
    }

    constructor (f: Compress)
      ensures Valid() && fresh(buf) && compress == f && msg == []
    {
      compress := f;
      buf := new u8[BLOCK](i => 0);
      state := INITIAL;
      used := 0;
      total := 0;
      msg := [];
    }

    method Copy(at: nat, src: seq<u8>)
      requires buf.Length == BLOCK && at + |src| <= BLOCK
      modifies buf
      ensures buf[..at] == old(buf[..at]) && buf[at..at + |src|] == src
      ensures buf[at + |src|..] == old(buf[at + |src|..])
    {
      for i := 0 to |src|
        invariant buf[..at] == old(buf[..at]) && buf[at..at + i] == src[..i]
        invariant buf[at + i..] == old(buf[at + i..])
      {
        buf[at + i] := src[i];
      }
    }

    method Update(data: seq<u8>)
      requires Valid()
      modifies this`state, this`used, this`total, this`msg, buf
      ensures Valid() && msg == old(msg) + data
    {
      hide Covers;
      TotalNext(|msg|, |data|);
      total := (total + |data|) % M64;
      var rest := data;
      if used != 0 {
        rest := FillBuffer(data);
        if used != 0 {
          assert msg + [] == msg;
          return;
        }
      }
      rest := FoldBlocks(rest);
      Keep(rest);
    }

    /** Completes the buffered block as far as the data goes. */
    method FillBuffer(data: seq<u8>) returns (rest: seq<u8>)
      requires Covers() && used != 0
      modifies this`state, this`used, this`msg, buf
      ensures Covers() && msg + rest == old(msg) + data && (used == 0 || rest == [])
    {
      hide Fold;
      var take := if |data| < BLOCK - used then |data| else BLOCK - used;
      ghost var n := |msg| - used;
      Append(data[..take]);
      rest := data[take..];
      assert msg + rest == old(msg) + (data[..take] + data[take..]);
      assert data[..take] + data[take..] == data;
      if used == BLOCK {
        Compress(n);
      }
    }

    /** Puts the part behind what is buffered. */
    method Append(part: seq<u8>)
      requires Covers() && used + |part| <= BLOCK
      modifies this`used, this`msg, buf
      ensures buf.Length == BLOCK && used == old(used) + |part| && msg == old(msg) + part && used <= |msg|
      ensures |msg| - used == old(|msg| - used) && buf[..used] == msg[|msg| - used..]
      ensures state == Fold(compress, msg[..|msg| - used])
    {
      hide Fold;
      ghost var n := |msg| - used;
      Copy(used, part);
      assert buf[..used + |part|] == buf[..used] + buf[used..used + |part|];
      Longer(msg, n, part);
      msg := msg + part;
      used := used + |part|;
    }

    /** Compresses the full buffer. */
    method Compress(ghost n: nat)
      requires buf.Length == BLOCK == used && |msg| == n + BLOCK && n % BLOCK == 0
      requires buf[..used] == msg[n..] && state == Fold(compress, msg[..n])
      modifies this`state, this`used
      ensures Covers() && used == 0
    {
      hide Fold;
      FoldNext(compress, msg[..n], buf[..]);
      assert buf[..used] == buf[..];
      assert msg[..n] + msg[n..] == msg && msg[..|msg|] == msg;
      state := compress(state, buf[..]);
      used := 0;
    }

    /** Compresses whole blocks straight from the data. */
    method FoldBlocks(data: seq<u8>) returns (rest: seq<u8>)
      requires Covers() && used == 0
      modifies this`state, this`msg
      ensures Covers() && used == 0 && |rest| < BLOCK && msg + rest == old(msg) + data
    {
      hide Fold;
      rest := data;
      assert msg[..|msg|] == msg;
      while |rest| >= BLOCK
        invariant |msg| % BLOCK == 0 && state == Fold(compress, msg)
        invariant msg + rest == old(msg) + data
        decreases |rest|
      {
        FoldNext(compress, msg, rest[..BLOCK]);
        assert rest[..BLOCK] + rest[BLOCK..] == rest;
        assert (msg + rest[..BLOCK]) + rest[BLOCK..] == msg + rest;
        state := compress(state, rest[..BLOCK]);
        msg := msg + rest[..BLOCK];
        rest := rest[BLOCK..];
      }
      assert msg[..|msg|] == msg;
    }

    /** Buffers what is left. */
    method Keep(rest: seq<u8>)
      requires Covers() && used == 0 && |rest| < BLOCK
      modifies this`used, this`msg, buf
      ensures Covers() && msg == old(msg) + rest
    {
      hide Fold;
      if |rest| != 0 {
        Copy(0, rest);
        used := |rest|;
      }
      assert msg[..|msg|] == msg;
      msg := msg + rest;
      assert msg[..|msg| - used] == old(msg) && msg[|msg| - used..] == rest;
    }

    /** Sets buf[from..to] to zero. */
    method Clear(from: nat, to: nat)
      requires from <= to <= BLOCK == buf.Length
      modifies buf
      ensures buf[..from] == old(buf[..from]) && buf[from..to] == Zeros(to - from) && buf[to..] == old(buf[to..])
    {
      for i := from to to
        invariant buf[..from] == old(buf[..from]) && buf[to..] == old(buf[to..])
        invariant buf[from..i] == Zeros(i - from)
      {
        buf[i] := 0;
      }
    }

    /** Pads with one or two blocks and returns the digest of everything that was updated. */
    method Finish() returns (digest: seq<u8>)
      requires Valid()
      modifies this`state, this`used, buf
      ensures digest == Digest(compress, msg)
      ensures |digest| == 32 && state == Fold(compress, Padded(msg))
      ensures forall k :: 0 <= k < 8 ==> BeVal(digest[4 * k..4 * k + 4]) == state[k]
    {
      hide Fold, BigEndian, ByteOf, DigestOf, Padded, Zeros, BeVal;
      TotalBits(|msg|);
      var bits: u64 := total * 8 % M64;
      ghost var done, z := Terminate();
      ghost var head := buf[..used];
      Clear(used, BLOCK - 8);
      PutLength(bits);
      ghost var block := buf[..];
      assert block[..used] == buf[..used] == head;
      InThree(block, used, BLOCK - 8);
      assert block == head + buf[used..BLOCK - 8] + buf[BLOCK - 8..];
      PaddedBy(msg, done, head, z, bits);
      FoldNext(compress, done, buf[..]);
      state := compress(state, buf[..]);
      digest := [];
      for i := 0 to 8
        invariant |digest| == 4 * i && forall k :: 0 <= k < 4 * i ==> digest[k] == ByteOf(state[k / 4], 3 - k % 4)
      {
        digest := digest + [ByteOf(state[i], 3), ByteOf(state[i], 2), ByteOf(state[i], 1), ByteOf(state[i], 0)];
      }
      DigestIs(state, digest);
      forall k | 0 <= k < 8
        ensures BeVal(digest[4 * k..4 * k + 4]) == state[k]
      {
        DigestWords(state, k);
      }
    }

    /** Appends the terminating bit; when the length no longer fits, the rest of the block is
        zeroed and the block compressed. */
    method Terminate() returns (ghost done: seq<u8>, ghost z: nat)
      requires Covers()
      modifies this`state, this`used, buf
      ensures buf.Length == BLOCK && used <= BLOCK - 8 && |done| % BLOCK == 0 && state == Fold(compress, done)
      ensures done + buf[..used] == msg + [0x80] + Zeros(z) && z + (BLOCK - 8 - used) < BLOCK
    {
      hide Fold, Zeros;
      ghost var n := |msg| - used;
      done, z := msg[..n], 0;
      NoZeros();
      ghost var head := buf[..used];
      buf[used] := 0x80;
      used := used + 1;
      ghost var tail := buf[..used];
      assert tail == head + [0x80];
      assert done + head == msg;
      assert done + tail == msg + [0x80];
      if used > BLOCK - 8 {
        z := BLOCK - used;
        Clear(used, BLOCK);
        assert buf[..] == buf[..used] + buf[used..BLOCK];
        assert buf[..] == tail + Zeros(z);
        FoldNext(compress, done, buf[..]);
        state := compress(state, buf[..]);
        assert done + (tail + Zeros(z)) == (done + tail) + Zeros(z);
        done := done + buf[..];
        used := 0;
        assert done + buf[..0] == done;
      } else {
        assert msg + [0x80] + [] == msg + [0x80];
      }
    }

    method PutLength(bits: u64)
      requires buf.Length == BLOCK
      modifies buf
      ensures buf[..BLOCK - 8] == old(buf[..BLOCK - 8]) && buf[BLOCK - 8..] == BigEndian(bits, 8)
    {
      hide ByteOf;
      for i := 0 to 8
        invariant buf[..BLOCK - 8] == old(buf[..BLOCK - 8])
        invariant forall k :: BLOCK - i <= k < BLOCK ==> buf[k] == ByteOf(bits, BLOCK - 1 - k)
      {
        buf[BLOCK - 1 - i] := ByteOf(bits, i);
      }
    }
  }

  lemma Longer(m: seq<u8>, n: nat, part: seq<u8>)
    requires n <= |m|
    ensures (m + part)[..n] == m[..n] && (m + part)[n..] == m[n..] + part
  {}

  lemma InThree(s: seq<u8>, i: nat, j: nat)
    requires i <= j <= |s|
    ensures s == s[..i] + s[i..j] + s[j..]
  {}

  lemma NoZeros()
    ensures Zeros(0) == []
  {}

  lemma DigestIs(w: HashState, d: seq<u8>)
    requires |d| == 32 && forall k :: 0 <= k < 32 ==> d[k] == ByteOf(w[k / 4], 3 - k % 4)
    ensures d == DigestOf(w)
  {}

  /** The blocks that were compressed are the padded message. */
  lemma PaddedBy(m: seq<u8>, done: seq<u8>, head: seq<u8>, z: nat, bits: nat)
    requires |done| % BLOCK == 0 && |head| <= BLOCK - 8 && done + head == m + [0x80] + Zeros(z)
    requires z + (BLOCK - 8 - |head|) < BLOCK && bits == 8 * |m| % M64
    ensures done + (head + Zeros(BLOCK - 8 - |head|) + BigEndian(bits, 8)) == Padded(m)
  {
    hide BigEndian, Zeros, ZeroCount, Padded;
    var k, zb := z + (BLOCK - 8 - |head|), Zeros(BLOCK - 8 - |head|);
    Lengths(m, done, head, z);
    assert |m| + 1 + k + 8 == |done| + BLOCK;
    CountIs(|m|, k);
    ZerosAdd(z, BLOCK - 8 - |head|);
    PaddedIs(m);
    Regroup(done, head, zb, BigEndian(bits, 8));
    Regroup(m, [0x80], Zeros(z), zb);
  }

  lemma ZerosAdd(a: nat, b: nat)
    ensures Zeros(a) + Zeros(b) == Zeros(a + b)
  {}

  lemma PaddedIs(m: seq<u8>)
    ensures Padded(m) == m + [0x80] + Zeros(ZeroCount(|m|)) + BigEndian(8 * |m| % M64, 8)
  {}

  lemma Lengths(m: seq<u8>, done: seq<u8>, head: seq<u8>, z: nat)
    requires done + head == m + [0x80] + Zeros(z)
    ensures |done| + |head| == |m| + 1 + z
  {
    assert |done + head| == |m + [0x80] + Zeros(z)|;
  }

  lemma Regroup(a: seq<u8>, b: seq<u8>, c: seq<u8>, d: seq<u8>)
    ensures a + (b + c + d) == (a + b) + c + d
    ensures (a + b + c) + d == a + b + (c + d)
  {}

  lemma CountIs(n: nat, k: nat)
    requires k < BLOCK && (n + 1 + k + 8) % BLOCK == 0
    ensures k == ZeroCount(n)
  {}

  /** Below 2^61 bytes the length field is the length in bits. */
  lemma LengthIff(n: nat)
    ensures 8 * n % M64 == 8 * n <==> n < 0x2000_0000_0000_0000
  {}

  /** The digest does not depend on how the message was split. */
  method HashParts(f: Compress, parts: seq<seq<u8>>) returns (digest: seq<u8>)
    ensures digest == Digest(f, Concat(parts))
  {
    hide Digest;
    var ctx := new Sha256(f);
    for i := 0 to |parts|
      invariant ctx.Valid() && fresh(ctx) && fresh(ctx.buf) && ctx.compress == f && ctx.msg == Concat(parts[..i])
    {
      assert parts[..i + 1][..i] == parts[..i];
      ctx.Update(parts[i]);
    }
    assert parts[..|parts|] == parts;
    digest := ctx.Finish();
  }

  function Concat(parts: seq<seq<u8>>): seq<u8> {
    if parts == [] then [] else Concat(parts[..|parts| - 1]) + parts[|parts| - 1]
  }

  lemma TotalBits(n: nat)
    ensures n % M64 * 8 % M64 == 8 * n % M64
  {}

  lemma TotalNext(a: nat, b: nat)
    ensures (a % M64 + b) % M64 == (a + b) % M64
  {}
}
