/** Canonical Huffman codes (RFC 1951, section 3.2.2) and the decoder's tables
    (inflate.cpp, build and decode). */
module Huffman {
  import opened Words
  import opened Arith
  import opened Bits
  import opened BitReaders

  const MAX_BITS: int := 15

  type i32 = x: int | -0x8000_0000 <= x < 0x8000_0000

  // ----- the code assignment of the standard

  /** How many of the first n symbols have code length len. */
  function CountTo(lengths: seq<u8>, len: nat, n: nat): (c: nat)
    requires n <= |lengths|
    ensures c <= n
  {
    if n == 0 then 0 else CountTo(lengths, len, n - 1) + (if lengths[n - 1] == len then 1 else 0)
  }

  /** The number of symbols with code length len. */
  function Count(lengths: seq<u8>, len: nat): nat { CountTo(lengths, len, |lengths|) }

  /** The smallest code of length len (0 is not a code length). */
  function FirstCode(lengths: seq<u8>, len: nat): nat {
    if len <= 1 then 0 else 2 * (FirstCode(lengths, len - 1) + Count(lengths, len - 1))
  }

  /** Codes of one length go to symbols in increasing order. */
  function Code(lengths: seq<u8>, sym: nat): nat
    requires sym < |lengths|
  {
    FirstCode(lengths, lengths[sym]) + CountTo(lengths, lengths[sym], sym)
  }

  /** The symbol that is number k among those of length len. */
  function NthFrom(lengths: seq<u8>, len: nat, k: nat, n: nat): (s: nat)
    requires n <= |lengths| && k < CountTo(lengths, len, n)
    ensures s < n && lengths[s] == len && CountTo(lengths, len, s) == k
  {
    if lengths[n - 1] == len && CountTo(lengths, len, n - 1) == k then n - 1
    else NthFrom(lengths, len, k, n - 1)
  }

  function Nth(lengths: seq<u8>, len: nat, k: nat): (s: nat)
    requires k < Count(lengths, len)
    ensures s < |lengths| && lengths[s] == len && CountTo(lengths, len, s) == k
  {
    NthFrom(lengths, len, k, |lengths|)
  }

  lemma {:induction false} CountMonotone(lengths: seq<u8>, len: nat, a: nat, b: nat)
    requires a <= b <= |lengths|
    ensures CountTo(lengths, len, a) <= CountTo(lengths, len, b)
    ensures a < b && lengths[a] == len ==> CountTo(lengths, len, a) < CountTo(lengths, len, b)
  {
    if a < b {
      CountMonotone(lengths, len, a, b - 1);
    }
  }

  /** Rank and length determine the symbol. */
  lemma NthUnique(lengths: seq<u8>, sym: nat)
    requires sym < |lengths|
    ensures CountTo(lengths, lengths[sym], sym) < Count(lengths, lengths[sym])
    ensures Nth(lengths, lengths[sym], CountTo(lengths, lengths[sym], sym)) == sym
  {
    var len := lengths[sym];
    CountMonotone(lengths, len, sym, |lengths|);
    var s := Nth(lengths, len, CountTo(lengths, len, sym));
    if s < sym {
      CountMonotone(lengths, len, s, sym);
    } else if s > sym {
      CountMonotone(lengths, len, sym, s);
    }
  }

  // ----- the decoder as a function on the bit stream

  datatype Decoded = Decoded(sym: nat, end: nat)

  /** Reads one more bit at a time until the code is below the next length's range. */
  function DecodeFrom(bits: seq<bit>, p: nat, lengths: seq<u8>, len: nat): (r: Option<Decoded>)
    requires 1 <= len <= MAX_BITS + 1
    ensures r.Some? ==> p < r.value.end <= |bits| && r.value.sym < |lengths|
    decreases MAX_BITS + 1 - len
  {
    if len > MAX_BITS || p + len > |bits| then None
    else
      var code := Msb(bits[p..p + len]);
      if code - Count(lengths, len) < FirstCode(lengths, len) then
        if code >= FirstCode(lengths, len) then
          Some(Decoded(Nth(lengths, len, code - FirstCode(lengths, len)), p + len))
        else None
      else DecodeFrom(bits, p, lengths, len + 1)
  }

  function Decode(bits: seq<bit>, p: nat, lengths: seq<u8>): (r: Option<Decoded>)
    ensures r.Some? ==> p < r.value.end <= |bits| && r.value.sym < |lengths|
  {
    DecodeFrom(bits, p, lengths, 1)
  }

  /** `sym` has a code, and it stands at position p. */
  predicate CodeAt(bits: seq<bit>, p: nat, lengths: seq<u8>, sym: nat) {
    && sym < |lengths| && 1 <= lengths[sym] <= MAX_BITS
    && p + lengths[sym] <= |bits|
    && Msb(bits[p..p + lengths[sym]]) == Code(lengths, sym)
  }

  lemma MsbExtend(bits: seq<bit>, p: nat, len: nat)
    requires p + len + 1 <= |bits|
    ensures Msb(bits[p..p + len + 1]) == 2 * Msb(bits[p..p + len]) + bits[p + len]
  {
    assert bits[p..p + len + 1][..len] == bits[p..p + len];
  }

  /** Past all codes of the shorter lengths, the walk can only end at or after `len`. */
  ghost predicate Passed(bits: seq<bit>, p: nat, lengths: seq<u8>, len: nat) {
    1 <= len && p + len <= |bits| && Msb(bits[p..p + len]) >= FirstCode(lengths, len)
  }

  lemma PassedNext(bits: seq<bit>, p: nat, lengths: seq<u8>, len: nat)
    requires Passed(bits, p, lengths, len) && p + len + 1 <= |bits|
    requires Msb(bits[p..p + len]) >= FirstCode(lengths, len) + Count(lengths, len)
    ensures Passed(bits, p, lengths, len + 1)
  {
    MsbExtend(bits, p, len);
  }

  lemma PassedFirst(bits: seq<bit>, p: nat, lengths: seq<u8>)
    requires p + 1 <= |bits|
    ensures Passed(bits, p, lengths, 1)
  {}

  /** A code that stands here is longer than every length whose codes are all behind it. */
  lemma {:induction false} PrefixBeyond(bits: seq<bit>, p: nat, lengths: seq<u8>, len: nat, longer: nat)
    requires 1 <= len < longer && p + longer <= |bits|
    requires Msb(bits[p..p + longer]) >= FirstCode(lengths, longer)
    ensures Msb(bits[p..p + len]) >= FirstCode(lengths, len) + Count(lengths, len)
    decreases longer - len
  {
    MsbExtend(bits, p, longer - 1);
    if longer > len + 1 {
      PrefixBeyond(bits, p, lengths, len, longer - 1);
    }
  }

  lemma {:induction false} DecodeFromIsCode(bits: seq<bit>, p: nat, lengths: seq<u8>, len: nat, sym: nat)
    requires 1 <= len <= MAX_BITS && (p + len <= |bits| ==> Passed(bits, p, lengths, len))
    ensures CodeAt(bits, p, lengths, sym) && lengths[sym] >= len ==>
      DecodeFrom(bits, p, lengths, len) == Some(Decoded(sym, p + lengths[sym]))
    ensures DecodeFrom(bits, p, lengths, len).Some? ==>
      var d := DecodeFrom(bits, p, lengths, len).value;
      CodeAt(bits, p, lengths, d.sym) && d.end == p + lengths[d.sym]
    decreases MAX_BITS - len
  {
    if p + len <= |bits| {
      var code := Msb(bits[p..p + len]);
      if code < FirstCode(lengths, len) + Count(lengths, len) {
        if CodeAt(bits, p, lengths, sym) && lengths[sym] >= len {
          if lengths[sym] > len {
            PrefixBeyond(bits, p, lengths, len, lengths[sym]);
            assert false;
          }
          NthUnique(lengths, sym);
        }
      } else {
        if CodeAt(bits, p, lengths, sym) && lengths[sym] == len {
          NthUnique(lengths, sym);
          assert false;
        }
        if len < MAX_BITS {
          if p + len + 1 <= |bits| {
            PassedNext(bits, p, lengths, len);
          }
          DecodeFromIsCode(bits, p, lengths, len + 1, sym);
        }
      }
    }
  }

  /** Decoding inverts the canonical assignment, for every vector of code lengths: a symbol
      is returned exactly when its code stands here, and exactly its bits are consumed. */
  lemma DecodeIffCode(bits: seq<bit>, p: nat, lengths: seq<u8>, d: Decoded)
    ensures Decode(bits, p, lengths) == Some(d) <==>
              CodeAt(bits, p, lengths, d.sym) && d.end == p + lengths[d.sym]
  {
    if p + 1 <= |bits| {
      PassedFirst(bits, p, lengths);
    }
    DecodeFromIsCode(bits, p, lengths, 1, d.sym);
  }

  // ----- when every symbol has a code of its own length

  /** The Kraft sum of the first n symbols, in units of 2^-15. */
  function Kraft(lengths: seq<u8>, n: nat): nat
    requires n <= |lengths|
  {
    if n == 0 then 0
    else Kraft(lengths, n - 1) + (if 1 <= lengths[n - 1] <= MAX_BITS then Pow2(MAX_BITS - lengths[n - 1]) else 0)
  }

  /** The same sum, length by length up to `top`. */
  function Weighted(lengths: seq<u8>, n: nat, top: nat): nat
    requires n <= |lengths| && top <= MAX_BITS
  {
    if top == 0 then 0 else Weighted(lengths, n, top - 1) + CountTo(lengths, top, n) * Pow2(MAX_BITS - top)
  }

  lemma {:induction false} WeightedStep(lengths: seq<u8>, n: nat, top: nat)
    requires n < |lengths| && top <= MAX_BITS
    ensures Weighted(lengths, n + 1, top)
            == Weighted(lengths, n, top) + (if 1 <= lengths[n] <= top then Pow2(MAX_BITS - lengths[n]) else 0)
  {
    if top > 0 {
      WeightedAt(lengths, n, top);
      WeightedAt(lengths, n + 1, top);
      CountStep(lengths, top, n);
      hide Weighted, Pow2, CountTo;
      WeightedStep(lengths, n, top - 1);
      OneMore(CountTo(lengths, top, n), Pow2(MAX_BITS - top));
    } else {
      WeightedZero(lengths, n);
      WeightedZero(lengths, n + 1);
    }
  }

  lemma WeightedZero(lengths: seq<u8>, n: nat)
    requires n <= |lengths|
    ensures Weighted(lengths, n, 0) == 0
  {}

  lemma WeightedAt(lengths: seq<u8>, n: nat, top: nat)
    requires n <= |lengths| && 0 < top <= MAX_BITS
    ensures Weighted(lengths, n, top) == Weighted(lengths, n, top - 1) + CountTo(lengths, top, n) * Pow2(MAX_BITS - top)
    ensures Weighted(lengths, n, top) >= Weighted(lengths, n, top - 1)
  {
    hide Pow2, CountTo;
    NotNegative(CountTo(lengths, top, n), Pow2(MAX_BITS - top));
  }

  lemma NotNegative(x: nat, y: nat)
    ensures x * y >= 0
  {}

  lemma CountStep(lengths: seq<u8>, len: nat, n: nat)
    requires n < |lengths|
    ensures CountTo(lengths, len, n + 1) == CountTo(lengths, len, n) + if lengths[n] == len then 1 else 0
  {}

  lemma OneMore(c: int, p: int)
    ensures (c + 1) * p == c * p + p
  {}

  lemma {:induction false} WeightedNone(lengths: seq<u8>, top: nat)
    requires top <= MAX_BITS
    ensures Weighted(lengths, 0, top) == 0
  {
    if top > 0 {
      WeightedNone(lengths, top - 1);
    }
  }

  lemma {:induction false} KraftByLength(lengths: seq<u8>, n: nat)
    requires n <= |lengths|
    ensures Kraft(lengths, n) == Weighted(lengths, n, MAX_BITS)
  {
    if n == 0 {
      WeightedNone(lengths, MAX_BITS);
    } else {
      KraftByLength(lengths, n - 1);
      WeightedStep(lengths, n - 1, MAX_BITS);
    }
  }

  /** The end of the codes of length `top`, scaled, is the Kraft sum up to that length. */
  lemma {:induction false} CodesEnd(lengths: seq<u8>, top: nat)
    requires 1 <= top <= MAX_BITS
    ensures (FirstCode(lengths, top) + Count(lengths, top)) * Pow2(MAX_BITS - top)
            == Weighted(lengths, |lengths|, top)
  {
    var p, c := Pow2(MAX_BITS - top), Count(lengths, top);
    CodesEndStep(lengths, top);
    hide Weighted, Pow2, FirstCode, Count;
    if top > 1 {
      CodesEnd(lengths, top - 1);
      var e := FirstCode(lengths, top - 1) + Count(lengths, top - 1);
      ScaleStep(e, c, p);
    }
  }

  lemma CodesEndStep(lengths: seq<u8>, top: nat)
    requires 1 <= top <= MAX_BITS
    ensures Weighted(lengths, |lengths|, top)
            == Weighted(lengths, |lengths|, top - 1) + Count(lengths, top) * Pow2(MAX_BITS - top)
    ensures top == 1 ==> FirstCode(lengths, top) == 0 && Weighted(lengths, |lengths|, 0) == 0
    ensures top > 1 ==>
      && FirstCode(lengths, top) == 2 * (FirstCode(lengths, top - 1) + Count(lengths, top - 1))
      && Pow2(MAX_BITS - (top - 1)) == 2 * Pow2(MAX_BITS - top)
  {}

  lemma ScaleStep(e: int, c: int, p: int)
    ensures (2 * e + c) * p == e * (2 * p) + c * p
  {}

  lemma {:induction false} WeightedMonotone(lengths: seq<u8>, top: nat, more: nat)
    requires top <= more <= MAX_BITS
    ensures Weighted(lengths, |lengths|, top) <= Weighted(lengths, |lengths|, more)
  {
    if top < more {
      WeightedAt(lengths, |lengths|, more);
      hide Weighted, Pow2, CountTo;
      WeightedMonotone(lengths, top, more - 1);
    }
  }

  /** Every code fits its length. */
  ghost predicate AllFit(lengths: seq<u8>) {
    forall sym :: 0 <= sym < |lengths| && lengths[sym] != 0 ==> Code(lengths, sym) < Pow2(lengths[sym])
  }

  ghost predicate LengthsOk(lengths: seq<u8>) {
    forall i :: 0 <= i < |lengths| ==> lengths[i] <= MAX_BITS
  }

  /** The codes of every length end within the range of that length. */
  lemma {:induction false} FitEnds(lengths: seq<u8>, len: nat)
    requires AllFit(lengths) && 1 <= len <= MAX_BITS
    ensures FirstCode(lengths, len) + Count(lengths, len) <= Pow2(len)
  {
    if Count(lengths, len) > 0 {
      var last := Nth(lengths, len, Count(lengths, len) - 1);
      assert Code(lengths, last) < Pow2(len);
    } else if len > 1 {
      FitEnds(lengths, len - 1);
    }
  }

  /** Every symbol of a non-zero length is reachable if and only if the Kraft sum of the
      lengths is at most one. */
  lemma AllFitIffKraft(lengths: seq<u8>)
    requires LengthsOk(lengths)
    ensures AllFit(lengths) <==> Kraft(lengths, |lengths|) <= Pow2(MAX_BITS)
  {
    hide Weighted, Kraft, Pow2, Code;
    KraftByLength(lengths, |lengths|);
    if Kraft(lengths, |lengths|) <= Pow2(MAX_BITS) {
      forall sym | 0 <= sym < |lengths| && lengths[sym] != 0
        ensures Code(lengths, sym) < Pow2(lengths[sym])
      {
        KraftFits(lengths, sym);
      }
    }
    if AllFit(lengths) {
      FitSum(lengths);
    }
  }

  lemma FitSum(lengths: seq<u8>)
    requires AllFit(lengths)
    ensures Weighted(lengths, |lengths|, MAX_BITS) <= Pow2(MAX_BITS)
  {
    assert Pow2(MAX_BITS - MAX_BITS) == 1;
    hide Weighted, Pow2, AllFit;
    FitEnds(lengths, MAX_BITS);
    CodesEnd(lengths, MAX_BITS);
  }

  lemma KraftFits(lengths: seq<u8>, sym: nat)
    requires Weighted(lengths, |lengths|, MAX_BITS) <= Pow2(MAX_BITS)
    requires sym < |lengths| && 1 <= lengths[sym] <= MAX_BITS
    ensures Code(lengths, sym) < Pow2(lengths[sym])
  {
    hide Weighted, Pow2, FirstCode, CountTo;
    var len := lengths[sym];
    CodesEnd(lengths, len);
    WeightedMonotone(lengths, len, MAX_BITS);
    Pow2Add(len, MAX_BITS - len);
    NthUnique(lengths, sym);
    Cancel(FirstCode(lengths, len) + Count(lengths, len), Pow2(len), Pow2(MAX_BITS - len));
  }

  lemma Cancel(e: nat, f: nat, p: nat)
    requires p >= 1 && e * p <= f * p
    ensures e <= f
  {
    MulAway(e - f, p);
    assert (e - f) * p == e * p - f * p;
  }

  // ----- the decode table

  /** Where the symbols of length len start in the table. */
  function Offset(lengths: seq<u8>, len: nat): nat {
    if len <= 1 then 0 else Offset(lengths, len - 1) + Count(lengths, len - 1)
  }

  lemma OffsetStep(lengths: seq<u8>, len: nat)
    ensures Offset(lengths, 1) == 0
    ensures len >= 1 ==> Offset(lengths, len + 1) == Offset(lengths, len) + Count(lengths, len)
  {}

  /** The slot of a symbol: by length, then by symbol. */
  function Slot(lengths: seq<u8>, sym: nat): nat
    requires sym < |lengths|
  {
    Offset(lengths, lengths[sym]) + CountTo(lengths, lengths[sym], sym)
  }

  /** Symbols of the lengths 1 .. len - 1 among the first n. */
  function ShorterTo(lengths: seq<u8>, len: nat, n: nat): nat
    requires n <= |lengths|
  {
    if len <= 1 then 0 else ShorterTo(lengths, len - 1, n) + CountTo(lengths, len - 1, n)
  }

  lemma {:induction false} ShorterStep(lengths: seq<u8>, len: nat, n: nat)
    requires n < |lengths|
    ensures ShorterTo(lengths, len, n + 1) == ShorterTo(lengths, len, n) + (if 1 <= lengths[n] < len then 1 else 0)
  {
    if len > 1 {
      ShorterStep(lengths, len - 1, n);
    }
  }

  lemma {:induction false} ShorterBound(lengths: seq<u8>, len: nat, n: nat)
    requires n <= |lengths|
    ensures ShorterTo(lengths, len, n) <= n
  {
    if n == 0 {
      ShorterNone(lengths, len);
    } else {
      ShorterBound(lengths, len, n - 1);
      ShorterStep(lengths, len, n - 1);
    }
  }

  lemma {:induction false} ShorterNone(lengths: seq<u8>, len: nat)
    ensures ShorterTo(lengths, len, 0) == 0
  {
    if len > 1 {
      ShorterNone(lengths, len - 1);
    }
  }

  lemma {:induction false} OffsetBound(lengths: seq<u8>, len: nat)
    ensures Offset(lengths, len) == ShorterTo(lengths, len, |lengths|) <= |lengths|
  {
    if len > 1 {
      OffsetBound(lengths, len - 1);
    }
    ShorterBound(lengths, len, |lengths|);
  }

  lemma {:induction false} OffsetMonotone(lengths: seq<u8>, a: nat, b: nat)
    requires 1 <= a < b
    ensures Offset(lengths, a) + Count(lengths, a) <= Offset(lengths, b)
  {
    if a + 1 < b {
      OffsetMonotone(lengths, a, b - 1);
    }
  }

  lemma SlotBound(lengths: seq<u8>, sym: nat)
    requires sym < |lengths|
    ensures lengths[sym] >= 1 ==> Slot(lengths, sym) < |lengths|
    ensures CountTo(lengths, lengths[sym], sym) < Count(lengths, lengths[sym])
  {
    NthUnique(lengths, sym);
    OffsetBound(lengths, lengths[sym] as nat + 1);
  }

  lemma SlotsDistinct(lengths: seq<u8>, a: nat, b: nat)
    requires a < b < |lengths| && lengths[a] >= 1 && lengths[b] >= 1
    ensures Slot(lengths, a) != Slot(lengths, b)
  {
    SlotBound(lengths, a);
    SlotBound(lengths, b);
    if lengths[a] == lengths[b] {
      CountMonotone(lengths, lengths[a], a, b);
    } else if lengths[a] < lengths[b] {
      OffsetMonotone(lengths, lengths[a], lengths[b]);
    } else {
      OffsetMonotone(lengths, lengths[b], lengths[a]);
    }
  }

  /** Counts per length, and the symbols sorted by (length, symbol). */
  datatype Table = Table(count: array<u16>, symbol: array<u16>)

  ghost predicate CountsOk(count: seq<u16>, lengths: seq<u8>, n: nat)
    requires |count| == MAX_BITS + 1 && n <= |lengths|
  {
    forall len :: 0 <= len <= MAX_BITS ==> count[len] == CountTo(lengths, len, n)
  }

  ghost predicate Placed(symbol: seq<u16>, lengths: seq<u8>, n: nat)
    requires n <= |lengths| <= |symbol|
  {
    forall s {:trigger Slot(lengths, s)} :: 0 <= s < n && lengths[s] != 0 ==>
      Slot(lengths, s) < |symbol| && symbol[Slot(lengths, s)] == s
  }

  /** What decode relies on. */
  ghost predicate TableOk(h: Table, lengths: seq<u8>)
    reads h.count, h.symbol
  {
    && h.count.Length == MAX_BITS + 1 && |lengths| <= h.symbol.Length && |lengths| <= 0xffff && LengthsOk(lengths)
    && CountsOk(h.count[..], lengths, |lengths|)
    && Placed(h.symbol[..], lengths, |lengths|)
  }

  method CountLengths(h: Table, lengths: seq<u8>)
    requires h.count.Length == MAX_BITS + 1 && LengthsOk(lengths) && |lengths| <= 0xffff
    modifies h.count
    ensures CountsOk(h.count[..], lengths, |lengths|)
  {
    for len := 0 to MAX_BITS + 1
      invariant forall k :: 0 <= k < len ==> h.count[k] == 0
    {
      h.count[len] := 0;
    }
    for sym := 0 to |lengths|
      invariant forall k :: 0 <= k <= MAX_BITS ==> h.count[k] == CountTo(lengths, k, sym)
    {
      h.count[lengths[sym]] := h.count[lengths[sym]] + 1;
    }
  }

  lemma CountsAt(count: seq<u16>, lengths: seq<u8>, len: nat)
    requires |count| == MAX_BITS + 1 && CountsOk(count, lengths, |lengths|) && len <= MAX_BITS
    ensures count[len] == Count(lengths, len)
  {}

  method StartOffsets(count: array<u16>, lengths: seq<u8>) returns (offsets: array<u16>)
    requires count.Length == MAX_BITS + 1 && CountsOk(count[..], lengths, |lengths|) && |lengths| <= 0xffff
    ensures fresh(offsets) && offsets.Length == MAX_BITS + 1
    ensures forall len :: 1 <= len <= MAX_BITS ==> offsets[len] == Offset(lengths, len)
  {
    offsets := new u16[MAX_BITS + 1](_ => 0);
    offsets[1] := 0;
    OffsetStep(lengths, 0);
    hide Offset, CountTo, CountsOk, Count;
    ghost var was := count[..];
    for len := 1 to MAX_BITS
      invariant count[..] == was
      invariant forall k :: 1 <= k <= len ==> offsets[k] == Offset(lengths, k)
    {
      OffsetBound(lengths, len + 1);
      OffsetStep(lengths, len);
      CountsAt(was, lengths, len);
      offsets[len + 1] := offsets[len] + count[len];
    }
  }

  /** Fills the tables by a counting sort. */
  method Build(h: Table, lengths: seq<u8>)
    requires h.count.Length == MAX_BITS + 1 && |lengths| <= h.symbol.Length && h.count != h.symbol
    requires LengthsOk(lengths) && |lengths| <= 0xffff
    modifies h.count, h.symbol
    ensures TableOk(h, lengths)
  {
    hide CountTo, Offset, Slot, Placed;
    CountLengths(h, lengths);
    var offsets := StartOffsets(h.count, lengths);
    ghost var counts := h.count[..];
    NothingPlaced(h.symbol[..], lengths);
    for sym := 0 to |lengths|
      invariant h.count[..] == counts && OffsetsOk(offsets[..], lengths, sym)
      invariant Placed(h.symbol[..], lengths, sym)
    {
      if lengths[sym] != 0 {
        var len, at := lengths[sym], offsets[lengths[sym]];
        assert at == offsets[..][len];
        PlaceNext(h.symbol[..], offsets[..], lengths, sym);
        h.symbol[at] := sym;
        offsets[len] := at + 1;
      } else {
        PlaceNone(h.symbol[..], offsets[..], lengths, sym);
      }
    }
  }

  /** The next free slot of each length. */
  ghost predicate OffsetsOk(offsets: seq<u16>, lengths: seq<u8>, n: nat) {
    && |offsets| == MAX_BITS + 1 && n <= |lengths|
    && forall k :: 1 <= k <= MAX_BITS ==> offsets[k] == Offset(lengths, k) + CountTo(lengths, k, n)
  }

  lemma NothingPlaced(symbol: seq<u16>, lengths: seq<u8>)
    requires |lengths| <= |symbol|
    ensures Placed(symbol, lengths, 0)
    ensures forall k :: 1 <= k <= MAX_BITS ==> CountTo(lengths, k, 0) == 0
  {}

  lemma PlaceNext(symbol: seq<u16>, offsets: seq<u16>, lengths: seq<u8>, sym: u16)
    requires sym < |lengths| <= |symbol| && |lengths| <= 0xffff && 1 <= lengths[sym] <= MAX_BITS
    requires Placed(symbol, lengths, sym) && OffsetsOk(offsets, lengths, sym)
    ensures var at := offsets[lengths[sym]];
            && at < |symbol| && at < 0xffff
            && Placed(symbol[at := sym], lengths, sym + 1)
            && OffsetsOk(offsets[lengths[sym] := at + 1], lengths, sym as nat + 1)
  {
    SlotBound(lengths, sym);
    assert offsets[lengths[sym]] == Slot(lengths, sym);
    forall s | 0 <= s < sym && lengths[s] != 0
      ensures Slot(lengths, s) != Slot(lengths, sym)
    {
      SlotsDistinct(lengths, s, sym);
    }
  }

  lemma PlaceNone(symbol: seq<u16>, offsets: seq<u16>, lengths: seq<u8>, sym: nat)
    requires sym < |lengths| <= |symbol| && lengths[sym] == 0
    requires Placed(symbol, lengths, sym) && OffsetsOk(offsets, lengths, sym)
    ensures Placed(symbol, lengths, sym + 1) && OffsetsOk(offsets, lengths, sym + 1)
  {}

  /** One symbol, walking the code bit by bit. */
  method DecodeSymbol(r: BitReader, h: Table, ghost lengths: seq<u8>) returns (sym: Option<u32>)
    requires r.Valid() && TableOk(h, lengths)
    modifies r
    ensures sym.Some? <==> Decode(Stream(r.src), old(r.At()), lengths).Some?
    ensures sym.Some? ==>
      && r.Valid()
      && Decode(Stream(r.src), old(r.At()), lengths) == Some(Decoded(sym.value, r.At()))
  {
    hide Stream, Lsb, Msb, Pow2, Code, CountTo, Offset, FirstCode, Nth, Slot, Walking, Placed, DecodeFrom, LengthsOk;
    ghost var bits, p := Stream(r.src), r.At();
    WalkStart(bits, p, lengths);
    var code: i32, first: i32, index: i32 := 0, 0, 0;
    for len := 1 to MAX_BITS + 1
      invariant r.Valid() && r.At() == p + len - 1 <= |bits| && TableOk(h, lengths)
      invariant Walking(bits, p, lengths, len, code, first, index)
      invariant DecodeFrom(bits, p, lengths, len) == Decode(bits, p, lengths)
    {
      var bit := r.GetBits(1);
      if bit.None? {
        WalkShort(bits, p, lengths, len);
        return None;
      }
      WalkBit(bits, p, lengths, len, code, first, index, bit.value);
      code := code + bit.value;
      var count := h.count[len];
      assert count == h.count[..][len] == Count(lengths, len);
      if code - count < first {
        WalkEnd(h.symbol[..], bits, p, lengths, len, code, first, index);
        assert h.symbol[..][index + (code - first)] == h.symbol[index + (code - first)];
        return Some(h.symbol[index + (code - first)]);
      }
      WalkOn(bits, p, lengths, len, code, first, index);
      index := index + count;
      first := 2 * (first + count);
      code := 2 * code;
    }
    WalkShort(bits, p, lengths, MAX_BITS + 1);
    return None;
  }

  lemma WalkShort(bits: seq<bit>, p: nat, lengths: seq<u8>, len: nat)
    requires 1 <= len <= MAX_BITS + 1 && (len > MAX_BITS || p + len > |bits|)
    ensures DecodeFrom(bits, p, lengths, len).None?
  {}

  /** The loop's variables before bit number len is read. */
  ghost predicate Walking(bits: seq<bit>, p: nat, lengths: seq<u8>, len: nat, code: int, first: int, index: int) {
    && 1 <= len && p + len - 1 <= |bits|
    && code == 2 * Msb(bits[p..p + len - 1])
    && first == FirstCode(lengths, len) <= code
    && index == Offset(lengths, len)
  }

  lemma WalkStart(bits: seq<bit>, p: nat, lengths: seq<u8>)
    requires p <= |bits|
    ensures Walking(bits, p, lengths, 1, 0, 0, 0)
  {}

  /** The next bit read completes the code of length len. */
  lemma WalkBit(bits: seq<bit>, p: nat, lengths: seq<u8>, len: nat, code: int, first: int, index: int, b: nat)
    requires Walking(bits, p, lengths, len, code, first, index) && p + len <= |bits| && len <= MAX_BITS
    requires b == Lsb(bits[p + len - 1..p + len])
    ensures code + b == Msb(bits[p..p + len])
    ensures first == FirstCode(lengths, len) <= code + b < 0x8000 && index == Offset(lengths, len)
  {
    MsbBound(bits[p..p + len]);
    Pow2Monotone(len, MAX_BITS);
    assert Pow2(MAX_BITS) == 0x8000 by { Pow2Add(7, 8); assert Pow2(8) == 0x100 && Pow2(7) == 0x80; }
    MsbExtend(bits, p, len - 1);
    var w := bits[p + len - 1..p + len];
    assert w == [bits[p + len - 1]] && Lsb(w[1..]) == 0;
  }

  lemma WalkEnd(symbol: seq<u16>, bits: seq<bit>, p: nat, lengths: seq<u8>, len: nat, code: int, first: int, index: int)
    requires 1 <= len <= MAX_BITS && p + len <= |bits| && code == Msb(bits[p..p + len])
    requires first == FirstCode(lengths, len) <= code && index == Offset(lengths, len)
    requires code - Count(lengths, len) < first
    requires |lengths| <= |symbol| && Placed(symbol, lengths, |lengths|)
    ensures index + (code - first) < |symbol|
    ensures DecodeFrom(bits, p, lengths, len) == Some(Decoded(symbol[index + (code - first)], p + len))
  {
    var s := Nth(lengths, len, code - first);
    assert Slot(lengths, s) == index + (code - first);
  }

  lemma WalkOn(bits: seq<bit>, p: nat, lengths: seq<u8>, len: nat, code: int, first: int, index: int)
    requires 1 <= len <= MAX_BITS && p + len <= |bits| && code == Msb(bits[p..p + len])
    requires first == FirstCode(lengths, len) && index == Offset(lengths, len)
    requires code - Count(lengths, len) >= first
    ensures Walking(bits, p, lengths, len + 1, 2 * code, 2 * (first + Count(lengths, len)), index + Count(lengths, len))
    ensures DecodeFrom(bits, p, lengths, len) == DecodeFrom(bits, p, lengths, len + 1)
    ensures index + Count(lengths, len) <= |lengths|
  {
    OffsetBound(lengths, len + 1);
  }
}
