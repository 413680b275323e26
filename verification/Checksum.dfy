/** The Internet checksum (ip.cpp, RFC 1071) and what TCP and UDP do with it (udp.cpp,
    tcp.cpp). */
module Checksum {
  import opened Words
  import opened Arith

  const M16 := 0xffff

  /** A segment as long as its 16-bit length field allows. */
  const MAX_LENGTH := 0xffff

  // ----- sums

  function Word(hi: u8, lo: u8): u16 { 0x100 * (hi as int) + lo as int }

  /** The sum of the 16-bit words, an odd last byte padded with zero. */
  function WordSum(data: seq<u8>): nat {
    if data == [] then 0
    else if |data| == 1 then Word(data[0], 0)
    else Word(data[0], data[1]) + WordSum(data[2..])
  }

  lemma {:induction false} WordSumBound(data: seq<u8>)
    ensures WordSum(data) <= 0xffff * ((|data| + 1) / 2)
  {
    if |data| >= 2 {
      WordSumBound(data[2..]);
    }
  }

  lemma {:induction false} WordSumNext(data: seq<u8>, i: nat)
    requires 2 * i < |data|
    ensures WordSum(data[..if 2 * i + 2 <= |data| then 2 * i + 2 else |data|]) ==
            WordSum(data[..2 * i]) + Word(data[2 * i], if 2 * i + 1 < |data| then data[2 * i + 1] else 0)
  {
    var k := if 2 * i + 2 <= |data| then 2 * i + 2 else |data|;
    if i > 0 {
      WordSumNext(data[2..], i - 1);
      assert data[..k][2..] == data[2..][..k - 2];
      assert data[..2 * i][2..] == data[2..][..2 * i - 2];
    }
  }

  /** Replacing one word replaces it in the sum. */
  lemma {:induction false} WordSumUpdate(data: seq<u8>, k: nat, hi: u8, lo: u8)
    requires k % 2 == 0 && k + 1 < |data|
    ensures WordSum(data[k := hi][k + 1 := lo]) + Word(data[k], data[k + 1]) == WordSum(data) + Word(hi, lo)
  {
    var d := data[k := hi][k + 1 := lo];
    if k == 0 {
      assert d[2..] == data[2..];
    } else {
      WordSumUpdate(data[2..], k - 2, hi, lo);
      assert d[2..] == data[2..][k - 2 := hi][k - 1 := lo];
    }
  }

  /** The data with an odd last byte padded with zero. */
  function Even(data: seq<u8>): seq<u8> { if |data| % 2 == 0 then data else data + [0] }

  /** The words are big-endian digits to the base 2^16, which is one modulo 2^16 - 1: their
      sum is the whole data, read as one number. */
  lemma {:induction false} WordSumValue(data: seq<u8>)
    ensures WordSum(data) % 0xffff == BeVal(Even(data)) % 0xffff
  {
    if data != [] {
      var n := if |data| % 2 == 0 then |data| - 2 else |data| - 1;
      hide BeVal, WordSum;
      WordSumValue(data[..n]);
      LastWord(data, n);
      BaseIsOne(BeVal(data[..n]), WordSum(data[..n]), Word(data[n], if n + 1 < |data| then data[n + 1] else 0));
    }
  }

  lemma LastWord(data: seq<u8>, n: nat)
    requires n % 2 == 0 && n < |data| <= n + 2
    ensures var lo := if n + 1 < |data| then data[n + 1] else 0;
            && WordSum(data) == WordSum(data[..n]) + Word(data[n], lo)
            && Even(data[..n]) == data[..n] && BeVal(Even(data)) == BeVal(data[..n]) * 0x1_0000 + Word(data[n], lo)
  {
    hide BeVal, WordSum;
    var front, hi, lo := data[..n], data[n], if n + 1 < |data| then data[n + 1] else 0;
    WordSumNext(data, n / 2);
    assert data[..|data|] == data;
    BeValNext(front, hi);
    BeValNext(front + [hi], lo);
    assert Even(data) == front + [hi] + [lo];
  }

  lemma BaseIsOne(x: nat, y: nat, w: nat)
    requires x % 0xffff == y % 0xffff
    ensures (x * 0x1_0000 + w) % 0xffff == (y + w) % 0xffff
  {
    var d := x / 0xffff - y / 0xffff;
    assert x - y == 0xffff * d;
    Shifted(y + w, x + d);
  }

  method SumWords(sum: u32, data: seq<u8>) returns (r: u32)
    requires sum + WordSum(data) < M32
    ensures r == sum + WordSum(data)
  {
    r := sum;
    var i := 0;
    assert data[..0] == [];
    while i < |data|
      invariant 0 <= i && i % 2 == 0 && r == sum + WordSum(data[..if i <= |data| then i else |data|])
      invariant r <= sum + WordSum(data)
      decreases |data| - i
    {
      WordSumNext(data, i / 2);
      WordSumPrefix(data, if i + 2 <= |data| then i + 2 else |data|);
      var hi: u32 := data[i];
      var lo: u32 := if i + 1 < |data| then data[i + 1] else 0;
      r := r + (hi * 0x100 + lo);
      i := i + 2;
    }
    assert data[..|data|] == data;
  }

  lemma {:induction false} WordSumPrefix(data: seq<u8>, k: nat)
    requires k <= |data| && (k % 2 == 0 || k == |data|)
    ensures WordSum(data[..k]) <= WordSum(data)
  {
    if k == |data| {
      assert data[..k] == data;
    } else if k >= 2 {
      WordSumPrefix(data[2..], k - 2);
      assert data[..k][2..] == data[2..][..k - 2];
    }
  }

  /** The one's complement value of a sum: zero only for zero, else in 1..0xffff and equal
      modulo 0xffff. */
  function Folded(sum: nat): u16 {
    if sum == 0 then 0 else 1 + (sum - 1) % M16
  }

  /** The fold keeps the value modulo 0xffff, and is zero only for zero. */
  lemma FoldedValue(sum: nat)
    ensures Folded(sum) % 0xffff == sum % 0xffff && (Folded(sum) == 0 <==> sum == 0)
  {}

  lemma FoldStep(sum: nat)
    requires sum >= 0x1_0000
    ensures Folded(sum % 0x1_0000 + sum / 0x1_0000) == Folded(sum)
    ensures sum % 0x1_0000 + sum / 0x1_0000 < sum
  {
    var lo, hi := sum % 0x1_0000, sum / 0x1_0000;
    assert sum - 1 == M16 * hi + (lo + hi - 1);
    Shifted(lo + hi - 1, hi);
  }

  lemma Shifted(x: nat, k: int)
    ensures (M16 * k + x) % M16 == x % M16
  {}

  lemma FoldEnd(sum: nat)
    requires sum < 0x1_0000
    ensures Folded(sum) == sum
  {}

  /** Folds the carries back until none is left, and complements. */
  method Fold(sum0: u32) returns (r: u16)
    ensures r == 0xffff - Folded(sum0)
  {
    var sum := sum0;
    while sum / 0x1_0000 != 0
      invariant Folded(sum) == Folded(sum0)
      decreases sum
    {
      FoldStep(sum);
      sum := sum % 0x1_0000 + sum / 0x1_0000;
    }
    FoldEnd(sum);
    r := 0xffff - sum;
  }

  // ----- checksums

  function Pseudo(src: seq<u8>, dst: seq<u8>, proto: u8, length: u16): seq<u8> {
    src + dst + [0, proto, length / 0x100, length % 0x100]
  }

  /** The pseudo-header of section 3.1 of RFC 793: both addresses, the protocol, the length. */
  lemma PseudoSum(src: seq<u8>, dst: seq<u8>, proto: u8, length: u16)
    requires |src| == 4 && |dst| == 4
    ensures WordSum(Pseudo(src, dst, proto, length)) ==
            0x100 * (src[0] as int + src[2] as int + dst[0] as int + dst[2] as int)
            + src[1] as int + src[3] as int + dst[1] as int + dst[3] as int + proto as int + length as int
  {
    var tail: seq<u8> := [0, proto] + [length / 0x100, length % 0x100];
    TwoMore(length / 0x100, length % 0x100, []);
    TwoMore(0, proto, [length / 0x100, length % 0x100]);
    TwoMore(dst[2], dst[3], tail);
    TwoMore(dst[0], dst[1], [dst[2], dst[3]] + tail);
    TwoMore(src[2], src[3], dst + tail);
    TwoMore(src[0], src[1], [src[2], src[3]] + (dst + tail));
    assert dst + tail == [dst[0], dst[1]] + ([dst[2], dst[3]] + tail);
    assert Pseudo(src, dst, proto, length) == [src[0], src[1]] + ([src[2], src[3]] + (dst + tail));
    assert [length / 0x100, length % 0x100] + [] == [length / 0x100, length % 0x100];
    hide WordSum;
  }

  lemma TwoMore(hi: u8, lo: u8, rest: seq<u8>)
    ensures WordSum([hi, lo] + rest) == Word(hi, lo) + WordSum(rest)
  {
    assert ([hi, lo] + rest)[2..] == rest;
  }

  function L4Sum(src: seq<u8>, dst: seq<u8>, proto: u8, segment: seq<u8>): nat {
    WordSum(Pseudo(src, dst, proto, |segment| % 0x1_0000)) + WordSum(segment)
  }

  function L4(src: seq<u8>, dst: seq<u8>, proto: u8, segment: seq<u8>): u16 {
    0xffff - Folded(L4Sum(src, dst, proto, segment))
  }

  method ChecksumOf(data: seq<u8>) returns (r: u16)
    requires |data| <= MAX_LENGTH
    ensures r == 0xffff - Folded(WordSum(data))
  {
    WordSumBound(data);
    var sum := SumWords(0, data);
    r := Fold(sum);
  }

  /** No sum overflows for any segment of up to 65535 bytes. */
  method L4Checksum(src: seq<u8>, dst: seq<u8>, proto: u8, segment: seq<u8>) returns (r: u16)
    requires |src| == 4 && |dst| == 4 && |segment| <= MAX_LENGTH
    ensures r == L4(src, dst, proto, segment)
  {
    var pseudo := Pseudo(src, dst, proto, |segment| % 0x1_0000);
    WordSumBound(pseudo);
    WordSumBound(segment);
    var sum := SumWords(0, pseudo);
    sum := SumWords(sum, segment);
    r := Fold(sum);
  }

  /** The segment with `sum` in the checksum field at offset k. */
  function WithSum(segment: seq<u8>, k: nat, sum: u16): seq<u8>
    requires k + 1 < |segment|
  {
    segment[k := sum / 0x100][k + 1 := sum % 0x100]
  }

  /** A receiver's sum over the pseudo-header and the segment is zero exactly when the
      one's complement sum of all words is. */
  lemma VerifiesIff(src: seq<u8>, dst: seq<u8>, proto: u8, segment: seq<u8>)
    ensures L4(src, dst, proto, segment) == 0 <==>
            L4Sum(src, dst, proto, segment) > 0 && L4Sum(src, dst, proto, segment) % M16 == 0
  {
    FoldedFull(L4Sum(src, dst, proto, segment));
  }

  lemma FoldedFull(sum: nat)
    ensures Folded(sum) == M16 <==> sum > 0 && sum % M16 == 0
  {}

  /** The checksum computed over a zero field verifies once it is in the field; so does
      0xffff in place of zero. */
  lemma ChecksumVerifies(src: seq<u8>, dst: seq<u8>, proto: u8, segment: seq<u8>, k: nat)
    requires k % 2 == 0 && k + 1 < |segment| && segment[k] == 0 && segment[k + 1] == 0
    ensures var c := L4(src, dst, proto, segment);
            && L4(src, dst, proto, WithSum(segment, k, c)) == 0
            && L4(src, dst, proto, WithSum(segment, k, if c != 0 then c else 0xffff)) == 0
  {
    var c, s := L4(src, dst, proto, segment), L4Sum(src, dst, proto, segment);
    WordSumUpdate(segment, k, c / 0x100, c % 0x100);
    Completed(s);
    if c == 0 {
      WordSumUpdate(segment, k, 0xff, 0xff);
    }
  }

  lemma Completed(s: nat)
    ensures Folded(s + (0xffff - Folded(s))) == 0xffff
    ensures Folded(s) == 0xffff ==> Folded(s + 0xffff) == 0xffff
  {
    if s > 0 {
      var q, r := (s - 1) / M16, (s - 1) % M16;
      assert s + (0xffff - Folded(s)) == M16 * (q + 1);
    }
  }

  /** Changing one word of a segment that verifies makes it fail, unless the change is
      between 0 and 0xffff, the two zeros of one's complement. */
  lemma WordErrorIff(src: seq<u8>, dst: seq<u8>, proto: u8, segment: seq<u8>, k: nat, w: u16)
    requires |src| == 4 && |dst| == 4 && k % 2 == 0 && k + 1 < |segment|
    requires L4(src, dst, proto, segment) == 0 && proto != 0
    ensures var was := Word(segment[k], segment[k + 1]);
            L4(src, dst, proto, WithSum(segment, k, w)) == 0 <==> was % M16 == w % M16
  {
    var was := Word(segment[k], segment[k + 1]);
    WordSumUpdate(segment, k, w / 0x100, w % 0x100);
    var changed := WithSum(segment, k, w);
    VerifiesIff(src, dst, proto, segment);
    VerifiesIff(src, dst, proto, changed);
    PseudoPositive(src, dst, proto, |segment| % 0x1_0000);
    SameRest(L4Sum(src, dst, proto, segment), L4Sum(src, dst, proto, changed), was, w);
  }

  lemma PseudoPositive(src: seq<u8>, dst: seq<u8>, proto: u8, length: u16)
    requires |src| == 4 && |dst| == 4 && proto != 0
    ensures WordSum(Pseudo(src, dst, proto, length)) > 0
  {
    var p := Pseudo(src, dst, proto, length);
    WordSumPrefix(p, 10);
    WordSumNext(p, 4);
  }

  lemma SameRest(s: nat, t: nat, was: nat, w: nat)
    requires s % M16 == 0 && t + was == s + w && was < 0x1_0000 && w < 0x1_0000
    ensures t % M16 == 0 <==> was % M16 == w % M16
  {}

  // ----- UDP

  const UDP: u8 := 17
  const HEADER := 8

  /** The packet that send() hands to IP, unless the length field cannot hold its length. */
  function UdpSend(src: seq<u8>, dst: seq<u8>, srcPort: u16, dstPort: u16, payload: seq<u8>): Option<seq<u8>> {
    var n := HEADER + |payload|;
    if n > MAX_LENGTH then None
    else
      var raw := [srcPort / 0x100, srcPort % 0x100, dstPort / 0x100, dstPort % 0x100, n / 0x100, n % 0x100, 0, 0] + payload;
      var sum := L4(src, dst, UDP, raw);
      Some(WithSum(raw, 6, if sum != 0 then sum else 0xffff))
  }

  datatype Datagram = Datagram(srcPort: u16, dstPort: u16, payload: seq<u8>)

  /** What input() delivers from a packet: nothing when it is cut short or fails its checksum.
      A checksum field of zero means that there is none. */
  function UdpInput(src: seq<u8>, dst: seq<u8>, packet: seq<u8>): Option<Datagram> {
    if |packet| < HEADER then None
    else
      var n := Word(packet[4], packet[5]);
      if n < HEADER || n > |packet| then None
      else if Word(packet[6], packet[7]) != 0 && L4(src, dst, UDP, packet[..n]) != 0 then None
      else Some(Datagram(Word(packet[0], packet[1]), Word(packet[2], packet[3]), packet[HEADER..n]))
  }

  /** The header of RFC 768: both ports, the length, and the checksum of protocol 17. */
  lemma UdpLayout(src: seq<u8>, dst: seq<u8>, srcPort: u16, dstPort: u16, payload: seq<u8>)
    requires UdpSend(src, dst, srcPort, dstPort, payload).Some?
    ensures var p := UdpSend(src, dst, srcPort, dstPort, payload).value;
            && |p| == 8 + |payload| && p[8..] == payload
            && BeVal(p[0..2]) == srcPort && BeVal(p[2..4]) == dstPort && BeVal(p[4..6]) == |p|
            && var c := L4(src, dst, 17, p[6 := 0][7 := 0]); BeVal(p[6..8]) == if c == 0 then 0xffff else c
  {
    hide L4;
    var n := 8 + |payload|;
    var p := UdpSend(src, dst, srcPort, dstPort, payload).value;
    var raw: seq<u8> :=
      [srcPort / 0x100, srcPort % 0x100, dstPort / 0x100, dstPort % 0x100, n / 0x100, n % 0x100, 0, 0] + payload;
    assert p[6 := 0][7 := 0] == raw;
    WordValue(p, 0);
    WordValue(p, 2);
    WordValue(p, 4);
    WordValue(p, 6);
  }

  lemma WordValue(p: seq<u8>, k: nat)
    requires k + 2 <= |p|
    ensures BeVal(p[k..k + 2]) == 0x100 * p[k] as int + p[k + 1] as int
  {
    BeValNext([], p[k]);
    BeValNext([p[k]], p[k + 1]);
    assert p[k..k + 2] == [p[k]] + [p[k + 1]] && [] + [p[k]] == [p[k]];
  }

  /** A sent datagram always carries a checksum that verifies, and arrives as it was sent,
      whatever padding follows it. */
  lemma UdpRoundTrip(src: seq<u8>, dst: seq<u8>, srcPort: u16, dstPort: u16, payload: seq<u8>, padding: seq<u8>)
    ensures UdpSend(src, dst, srcPort, dstPort, payload).Some? <==> HEADER + |payload| <= MAX_LENGTH
    ensures var sent := UdpSend(src, dst, srcPort, dstPort, payload);
            sent.Some? ==>
              && |sent.value| == HEADER + |payload|
              && Word(sent.value[6], sent.value[7]) != 0 && L4(src, dst, UDP, sent.value) == 0
              && UdpInput(src, dst, sent.value + padding) == Some(Datagram(srcPort, dstPort, payload))
  {
    hide L4;
    var n := HEADER + |payload|;
    if n <= MAX_LENGTH {
      var raw: seq<u8> :=
        [srcPort / 0x100, srcPort % 0x100, dstPort / 0x100, dstPort % 0x100, n / 0x100, n % 0x100, 0, 0] + payload;
      ChecksumVerifies(src, dst, UDP, raw, 6);
      var sent := UdpSend(src, dst, srcPort, dstPort, payload).value;
      assert (sent + padding)[..n] == sent;
      assert sent[HEADER..n] == payload;
    }
  }
}
