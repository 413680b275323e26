/** The DEFLATE decoder in place (inflate.cpp), proved equal to `InflateSpec`. */
module Inflate {
  import opened Words
  import opened Arith
  import opened Bits
  import opened BitReaders
  import opened Huffman
  import opened InflateSpec

  class State {
    const r: BitReader
    const dst: array<u8>
    var dstPos: u32

    ghost predicate Valid()
      reads this, r
    {
      r.Valid() && dst.Length < MAX_BUFFER && dstPos <= dst.Length
    }

    ghost function Out(): seq<u8>
      requires dstPos <= dst.Length
      reads this, dst
    {
      dst[..dstPos]
    }

    constructor (src: seq<u8>, dst: array<u8>)
      requires |src| < MAX_BUFFER && dst.Length < MAX_BUFFER
      ensures Valid() && fresh(r) && r.src == src && r.At() == 0 && this.dst == dst && dstPos == 0
    {
      r := new BitReader(src);
      this.dst := dst;
      dstPos := 0;
    }

    method PutByte(b: u8)
      requires Valid() && dstPos < dst.Length
      modifies this, dst
      ensures Valid() && Out() == old(Out()) + [b]
      ensures unchanged(r)
    {
      dst[dstPos] := b;
      dstPos := dstPos + 1;
    }

    /** The copy loop of a length/distance pair. */
    method Copy(distance: u32, length: u32)
      requires Valid() && 1 <= distance <= dstPos && dstPos + length <= dst.Length
      modifies this, dst
      ensures Valid() && Out() == CopyBack(old(Out()), distance, length)
      ensures unchanged(r)
    {
      hide Stream, Lsb, CopyBack;
      ghost var out := Out();
      for i := 0 to length
        invariant Valid() && dstPos == |out| + i && unchanged(r)
        invariant CopyBack(Out(), distance, length - i) == CopyBack(out, distance, length)
      {
        CopyStep(Out(), distance, length - i);
        assert dst[dstPos - distance] == Out()[|Out()| - distance];
        PutByte(dst[dstPos - distance]);
      }
      CopyNone(Out(), distance);
    }

    /** Length extra bits, distance symbol, distance extra bits. */
    method ReadPair(lsym: u32, dist: Table, ghost distLengths: seq<u8>) returns (c: Option<(u32, u32)>)
      requires Valid() && TableOk(dist, distLengths)
      modifies r
      ensures c.Some? <==> LengthAndDistance(Stream(r.src), old(r.At()), lsym, distLengths).Some?
      ensures c.Some? ==>
        && Valid()
        && LengthAndDistance(Stream(r.src), old(r.At()), lsym, distLengths) == Some(Pair(c.value.0, c.value.1, r.At()))
        && c.value.0 <= 0xffff && 1 <= c.value.1 <= 0xffff
    {
      SmallPowers();
      hide Stream, Lsb, Pow2, Decode, TableOk, LenExtra, LenBase, DistExtra, DistBase;
      if lsym >= 29 {
        return None;
      }
      var extra := r.GetBits(LenExtra(lsym));
      if extra.None? { return None; }
      var dsym := DecodeSymbol(r, dist, distLengths);
      if dsym.None? || dsym.value >= MAX_DCODES { return None; }
      var dextra := r.GetBits(DistExtra(dsym.value));
      if dextra.None? { return None; }
      return Some((LenBase(lsym) + extra.value, DistBase(dsym.value) + dextra.value));
    }
  }

  lemma CopyStep(out: seq<u8>, distance: nat, n: nat)
    requires 1 <= distance <= |out| && n > 0
    ensures CopyBack(out, distance, n) == CopyBack(out + [out[|out| - distance]], distance, n - 1)
  {}

  lemma CopyNone(out: seq<u8>, distance: nat)
    requires 1 <= distance <= |out|
    ensures CopyBack(out, distance, 0) == out
  {}

  /** The extra-bit fields stay small. */
  lemma SmallPowers()
    ensures forall n :: 0 <= n <= 13 ==> Pow2(n) <= 0x2000
  {
    forall n | 0 <= n <= 13
      ensures Pow2(n) <= 0x2000
    {
      Pow2Monotone(n, 13);
      Pow2Add(8, 5);
      assert Pow2(8) == 0x100 && Pow2(5) == 0x20;
    }
  }

  /** Expands one compressed block with the given codes. */
  method InflateCodes(s: State, lit: Table, dist: Table, ghost litLengths: seq<u8>, ghost distLengths: seq<u8>)
    returns (ok: bool)
    requires s.Valid() && TableOk(lit, litLengths) && TableOk(dist, distLengths)
    requires Apart(s, lit) && Apart(s, dist)
    modifies s, s.r, s.dst
    ensures ok <==> Codes(Stream(s.r.src), old(s.r.At()), litLengths, distLengths, old(s.Out()), s.dst.Length).Some?
    ensures ok ==>
      && s.Valid()
      && Codes(Stream(s.r.src), old(s.r.At()), litLengths, distLengths, old(s.Out()), s.dst.Length)
         == Some(Progress(s.Out(), s.r.At()))
  {
    hide Stream, Lsb, Pow2, Decode, TableOk, LengthAndDistance;
    ghost var bits, cap := Stream(s.r.src), s.dst.Length;
    ghost var whole := Codes(bits, s.r.At(), litLengths, distLengths, s.Out(), cap);
    while true
      invariant s.Valid() && TableOk(lit, litLengths) && TableOk(dist, distLengths)
      invariant Codes(bits, s.r.At(), litLengths, distLengths, s.Out(), cap) == whole
      decreases s.r.Left()
    {
      ok := false;
      var done := Symbol(s, lit, dist, litLengths, distLengths);
      match done {
        case None => return false;
        case Some(b) => if b { return true; }
      }
    }
  }

  /** The tables share no memory with the output. */
  ghost predicate Apart(s: State, h: Table) {
    h.count as object != s.dst && h.symbol as object != s.dst
  }

  /** One turn of the symbol loop: None on an error, Some(true) at the end of the block. */
  method Symbol(s: State, lit: Table, dist: Table, ghost litLengths: seq<u8>, ghost distLengths: seq<u8>)
    returns (done: Option<bool>)
    requires s.Valid() && TableOk(lit, litLengths) && TableOk(dist, distLengths)
    requires Apart(s, lit) && Apart(s, dist)
    modifies s, s.r, s.dst
    ensures var c := Codes(Stream(s.r.src), old(s.r.At()), litLengths, distLengths, old(s.Out()), s.dst.Length);
            match done
            case None => c.None?
            case Some(true) => s.Valid() && c == Some(Progress(s.Out(), s.r.At()))
            case Some(false) =>
              && s.Valid() && TableOk(lit, litLengths) && TableOk(dist, distLengths) && s.r.Left() < old(s.r.Left())
              && c == Codes(Stream(s.r.src), s.r.At(), litLengths, distLengths, s.Out(), s.dst.Length)
  {
    hide Stream, Lsb, Pow2, Decode, TableOk, LengthAndDistance, InBounds;
    var sym := DecodeSymbol(s.r, lit, litLengths);
    if sym.None? { return None; }
    if sym.value == END_OF_BLOCK { return Some(true); }
    if sym.value < END_OF_BLOCK {
      if s.dstPos >= s.dst.Length { return None; }
      s.PutByte(sym.value);
      return Some(false);
    }
    var c := s.ReadPair(sym.value - 257, dist, distLengths);
    if c.None? { return None; }
    var (length, distance) := c.value;
    InBoundsIs(s.dstPos, length, s.dst.Length);
    if !(distance <= s.dstPos && InBounds(s.dstPos, length, s.dst.Length)) { return None; }
    s.Copy(distance, length);
    return Some(false);
  }

  method NewTable(symbols: nat, lengths: seq<u8>) returns (h: Table)
    requires LengthsOk(lengths) && |lengths| <= symbols && |lengths| <= 0xffff
    ensures fresh(h.count) && fresh(h.symbol) && TableOk(h, lengths)
  {
    hide LengthsOk, CountsOk, Placed;
    var count := new u16[MAX_BITS + 1](_ => 0);
    var symbol := new u16[symbols](_ => 0);
    h := Table(count, symbol);
    Build(h, lengths);
  }

  method FixedLitLengths() returns (lengths: array<u8>)
    ensures fresh(lengths) && lengths.Length == 288 && lengths[..] == FixedLit() && LengthsOk(lengths[..])
  {
    lengths := new u8[288](_ => 0);
    for sym := 0 to 144
      invariant forall k :: 0 <= k < sym ==> lengths[k] == 8
    {
      lengths[sym] := 8;
    }
    for sym := 144 to 256
      invariant forall k :: 0 <= k < sym ==> lengths[k] == if k < 144 then 8 else 9
    {
      lengths[sym] := 9;
    }
    for sym := 256 to 280
      invariant forall k :: 0 <= k < sym ==> lengths[k] == if k < 144 then 8 else if k < 256 then 9 else 7
    {
      lengths[sym] := 7;
    }
    for sym := 280 to 288
      invariant forall k :: 0 <= k < sym ==>
        lengths[k] == if k < 144 then 8 else if k < 256 then 9 else if k < 280 then 7 else 8
    {
      lengths[sym] := 8;
    }
  }

  method FixedDistLengths() returns (lengths: array<u8>)
    ensures fresh(lengths) && lengths.Length == MAX_DCODES && lengths[..] == FixedDist() && LengthsOk(lengths[..])
  {
    lengths := new u8[MAX_DCODES](_ => 0);
    for sym := 0 to MAX_DCODES
      invariant forall k :: 0 <= k < sym ==> lengths[k] == 5
    {
      lengths[sym] := 5;
    }
  }

  /** A block with the fixed codes. */
  method InflateFixed(s: State) returns (ok: bool)
    requires s.Valid()
    modifies s, s.r, s.dst
    ensures ok <==> Codes(Stream(s.r.src), old(s.r.At()), FixedLit(), FixedDist(), old(s.Out()), s.dst.Length).Some?
    ensures ok ==>
      && s.Valid()
      && Codes(Stream(s.r.src), old(s.r.At()), FixedLit(), FixedDist(), old(s.Out()), s.dst.Length)
         == Some(Progress(s.Out(), s.r.At()))
  {
    hide Stream, Lsb, Pow2, Codes, TableOk, LengthsOk, FixedLit, FixedDist;
    var lengths := FixedLitLengths();
    var distLengths := FixedDistLengths();
    var lit := NewTable(288, lengths[..]);
    var dist := NewTable(MAX_DCODES, distLengths[..]);
    ok := InflateCodes(s, lit, dist, lengths[..], distLengths[..]);
  }

  /** The lengths of the code-length code, three bits each, in the standard's order. */
  method ReadClLengths(r: BitReader, ncode: u32) returns (cl: Option<seq<u8>>)
    requires r.Valid() && ncode <= 19
    modifies r
    ensures var c := ClLengths(Stream(r.src), old(r.At()), 0, ncode, Repeated(0, 19));
            match cl
            case None => c.None?
            case Some(v) => r.Valid() && c == Some(Progress(v, r.At())) && LengthsOk(v) && |v| == 19
  {
    hide Stream, Lsb, Pow2, Order;
    ghost var bits := Stream(r.src);
    var lengths := new u8[19](_ => 0);
    assert lengths[..] == Repeated(0, 19);
    ghost var whole := ClLengths(bits, r.At(), 0, ncode, lengths[..]);
    for i := 0 to ncode
      invariant r.Valid() && LengthsOk(lengths[..])
      invariant ClLengths(bits, r.At(), i, ncode, lengths[..]) == whole
    {
      var v := r.GetBits(3);
      if v.None? { return None; }
      assert v.value < 8 by { ThreeBits(v.value); }
      lengths[Order(i)] := v.value;
    }
    return Some(lengths[..]);
  }

  lemma ThreeBits(v: nat)
    requires v < Pow2(3)
    ensures v < 8
  {}

  /** One run of code lengths, as the source's three-way branch. */
  method ReadRun(r: BitReader, cl: Table, ghost clLengths: seq<u8>, lengths: array<u8>, idx: nat)
    returns (run: Option<(u8, u32)>)
    requires r.Valid() && TableOk(cl, clLengths) && |clLengths| == 19 && idx <= lengths.Length
    modifies r
    ensures var c := NextRun(Stream(r.src), old(r.At()), clLengths, lengths[..idx]);
            match run
            case None => c.None?
            case Some(v) => r.Valid() && c == Some(Run(v.0, v.1, r.At())) && v.1 <= 138
  {
    hide Stream, Lsb, Pow2, Decode, TableOk;
    var sym := DecodeSymbol(r, cl, clLengths);
    if sym.None? { return None; }
    if sym.value < 16 { return Some((sym.value, 1)); }
    if sym.value == 16 {
      if idx == 0 { return None; }
      var value := lengths[idx - 1];
      var n := r.GetBits(2);
      if n.None? { return None; }
      RunBits(n.value, 2);
      return Some((value, 3 + n.value));
    } else if sym.value == 17 {
      var n := r.GetBits(3);
      if n.None? { return None; }
      RunBits(n.value, 3);
      return Some((0, 3 + n.value));
    } else {
      var n := r.GetBits(7);
      if n.None? { return None; }
      RunBits(n.value, 7);
      return Some((0, 11 + n.value));
    }
  }

  lemma RunBits(v: nat, n: nat)
    requires v < Pow2(n) && n <= 7
    ensures v < 128
  {
    Pow2Monotone(n, 7);
    assert Pow2(7) == 128;
  }

  /** The run-length coded list of all code lengths. */
  method ReadRuns(r: BitReader, cl: Table, ghost clLengths: seq<u8>, total: u32) returns (l: Option<seq<u8>>)
    requires r.Valid() && TableOk(cl, clLengths) && |clLengths| == 19 && total <= MAX_LCODES + MAX_DCODES
    modifies r
    ensures var c := Runs(Stream(r.src), old(r.At()), clLengths, [], total);
            match l
            case None => c.None?
            case Some(v) => r.Valid() && c == Some(Progress(v, r.At())) && LengthsOk(v) && |v| == total
  {
    hide Stream, Lsb, Pow2, Decode, TableOk, NextRun, LengthsOk;
    ghost var bits := Stream(r.src);
    var lengths := new u8[MAX_LCODES + MAX_DCODES](_ => 0);
    var idx: nat := 0;
    ghost var whole := Runs(bits, r.At(), clLengths, [], total);
    assert lengths[..0] == [];
    while idx < total
      invariant idx <= total && r.Valid() && TableOk(cl, clLengths)
      invariant Runs(bits, r.At(), clLengths, lengths[..idx], total) == whole
      decreases total - idx
    {
      var run := ReadRun(r, cl, clLengths, lengths, idx);
      if run.None? { return None; }
      var (value, repeat) := run.value;
      if idx + repeat > total { return None; }
      idx := FillRun(lengths, idx, value, repeat);
    }
    NoLengths();
    return Some(lengths[..idx]);
  }

  lemma NoLengths()
    ensures LengthsOk([])
  {}

  method FillRun(lengths: array<u8>, idx: nat, value: u8, repeat: u32) returns (end: nat)
    requires idx + repeat <= lengths.Length
    modifies lengths
    ensures end == idx + repeat && lengths[..end] == old(lengths[..idx]) + Repeated(value, repeat)
  {
    ghost var front := lengths[..idx];
    for i := 0 to repeat
      invariant lengths[..idx] == front
      invariant forall k :: idx <= k < idx + i ==> lengths[k] == value
    {
      lengths[idx + i] := value;
    }
    end := idx + repeat;
    assert lengths[..end] == lengths[..idx] + lengths[idx..end];
  }

  /** The header of a dynamic block: both lists of code lengths. */
  method ReadHeader(r: BitReader) returns (h: Option<Codebook>)
    requires r.Valid()
    modifies r
    ensures var c := DynamicHeader(Stream(r.src), old(r.At()));
            match h
            case None => c.None?
            case Some(v) => r.Valid() && c == Some(Progress(v, r.At()))
  {
    hide Stream, Lsb, Pow2, Decode, TableOk, LengthsOk, Runs, ClLengths;
    var hlit := r.GetBits(5);
    if hlit.None? { return None; }
    var hdist := r.GetBits(5);
    if hdist.None? { return None; }
    var hclen := r.GetBits(4);
    if hclen.None? { return None; }
    HeaderBits(hlit.value, hdist.value, hclen.value);
    var nlit, ndist, ncode := hlit.value + 257, hdist.value + 1, hclen.value + 4;
    if !(nlit <= MAX_LCODES && ndist <= MAX_DCODES) { return None; }
    var cl := ReadClLengths(r, ncode);
    if cl.None? { return None; }
    var table := NewTable(19, cl.value);
    var l := ReadRuns(r, table, cl.value, nlit + ndist);
    if l.None? { return None; }
    return Some(Codebook(l.value[..nlit], l.value[nlit..]));
  }

  lemma HeaderBits(a: nat, b: nat, c: nat)
    requires a < Pow2(5) && b < Pow2(5) && c < Pow2(4)
    ensures a < 32 && b < 32 && c < 16
  {}

  /** A block with codes of its own. */
  method InflateDynamic(s: State) returns (ok: bool)
    requires s.Valid()
    modifies s, s.r, s.dst
    ensures ok <==> Block(Stream(s.r.src), old(s.r.At()), 2, old(s.Out()), s.dst.Length).Some?
    ensures ok ==>
      && s.Valid()
      && Block(Stream(s.r.src), old(s.r.At()), 2, old(s.Out()), s.dst.Length) == Some(Progress(s.Out(), s.r.At()))
  {
    hide Stream, Lsb, Pow2, Codes, TableOk, LengthsOk, DynamicHeader, FixedLit, FixedDist, Stored;
    var h := ReadHeader(s.r);
    if h.None? { return false; }
    var lit := NewTable(MAX_LCODES, h.value.lit);
    var dist := NewTable(MAX_DCODES, h.value.dist);
    ok := InflateCodes(s, lit, dist, h.value.lit, h.value.dist);
  }

  /** The next number of a stored block's header or data is the byte under the reader. */
  lemma AlignedByte(src: seq<u8>, i: nat)
    requires i < |src|
    ensures 8 * i + 8 <= |Stream(src)| && ByteAt(Stream(src), 8 * i) == src[i]
  {
    ByteOfStream(src, i);
  }

  lemma TwoBytes(src: seq<u8>, i: nat)
    requires i + 2 <= |src|
    ensures Lsb(Stream(src)[8 * i..8 * i + 16]) == src[i] as int + 0x100 * (src[i + 1] as int)
  {
    var bits := Stream(src);
    var a, b := bits[8 * i..8 * i + 8], bits[8 * i + 8..8 * i + 16];
    assert bits[8 * i..8 * i + 16] == a + b;
    LsbConcat(a, b);
    ByteOfStream(src, i);
    ByteOfStream(src, i + 1);
    assert Pow2(8) == 0x100;
  }

  lemma StoredBytes(src: seq<u8>, i: nat, n: nat)
    requires i + n <= |src|
    ensures BytesAt(Stream(src), 8 * i, n) == src[i..i + n]
  {
    hide Stream;
    forall k: nat | k < n
      ensures BytesAt(Stream(src), 8 * i, n)[k] == src[i + k]
    {
      AlignedByte(src, i + k);
    }
  }

  /** A stored block: drop the buffered bits, skip the complement, copy. */
  method InflateStored(s: State) returns (ok: bool)
    requires s.Valid()
    modifies s, s.r, s.dst
    ensures ok <==> Stored(Stream(s.r.src), old(s.r.At()), old(s.Out()), s.dst.Length).Some?
    ensures ok ==>
      && s.Valid()
      && Stored(Stream(s.r.src), old(s.r.At()), old(s.Out()), s.dst.Length) == Some(Progress(s.Out(), s.r.At()))
  {
    hide Stream, Lsb, Pow2, BytesAt, InBounds;
    ghost var src, out := s.r.src, s.Out();
    s.r.bitbuf := 0;
    s.r.bitcnt := 0;
    ghost var start := s.r.pos;
    AlignedPos(old(s.r.At()), start);
    InBoundsIs(s.r.pos, 4, |s.r.src|);
    if !InBounds(s.r.pos, 4, |s.r.src|) { return false; }
    TwoBytes(src, start);
    var len: u32 := s.r.src[s.r.pos] as int + (s.r.src[s.r.pos + 1] as int) * 0x100;
    s.r.pos := s.r.pos + 4;
    InBoundsIs(s.r.pos, len, |s.r.src|);
    InBoundsIs(s.dstPos, len, s.dst.Length);
    if !InBounds(s.r.pos, len, |s.r.src|) || !InBounds(s.dstPos, len, s.dst.Length) { return false; }
    StoredBytes(src, start + 4, len);
    CopyStored(s, len);
    return true;
  }

  lemma AlignedPos(at: nat, pos: nat)
    requires 8 * pos - 7 <= at <= 8 * pos
    ensures Aligned(at) == 8 * pos
  {}

  method CopyStored(s: State, len: u32)
    requires s.r.bitcnt == 0 && s.r.bitbuf == 0 && |s.r.src| < MAX_BUFFER && s.dst.Length < MAX_BUFFER
    requires s.r.pos + len <= |s.r.src| && s.dstPos + len <= s.dst.Length
    modifies s, s.r, s.dst
    ensures s.Valid() && s.r.At() == 8 * (old(s.r.pos) + len)
    ensures s.Out() == old(s.Out()) + s.r.src[old(s.r.pos)..old(s.r.pos) + len]
  {
    hide Stream;
    ghost var out, start := s.Out(), s.r.pos;
    for i := 0 to len
      invariant s.r.pos == start + i && s.dstPos == |out| + i && s.r.bitcnt == 0 && s.r.bitbuf == 0
      invariant s.dst[..s.dstPos] == out + s.r.src[start..start + i]
    {
      s.dst[s.dstPos] := s.r.src[s.r.pos];
      s.dstPos := s.dstPos + 1;
      s.r.pos := s.r.pos + 1;
    }
  }

  /** The whole decoder: true exactly when the stream is one this decoder accepts and its
      expansion has the size of `dst`, and then `dst` holds that expansion. */
  method Inflate(src: seq<u8>, dst: array<u8>) returns (ok: bool)
    requires |src| < MAX_BUFFER && dst.Length < MAX_BUFFER
    modifies dst
    ensures ok <==> Inflated(src, dst.Length).Some?
    ensures ok ==> Inflated(src, dst.Length) == Some(dst[..])
  {
    hide Stream, Lsb, Pow2, Block;
    var s := new State(src, dst);
    ghost var bits, cap := Stream(src), dst.Length;
    assert s.Out() == [];
    while true
      invariant s.Valid() && s.dst == dst && s.r.src == src && fresh(s) && fresh(s.r)
      invariant Blocks(bits, s.r.At(), s.Out(), cap) == Blocks(bits, 0, [], cap)
      decreases s.r.Left()
    {
      var last := s.r.GetBits(1);
      if last.None? { return false; }
      OneBit(bits, s.r.At() - 1);
      var kind := s.r.GetBits(2);
      if kind.None? { return false; }
      ok := InflateBlock(s, kind.value);
      if !ok { return false; }
      if last.value != 0 { break; }
    }
    assert dst[..dst.Length] == dst[..];
    return s.dstPos == dst.Length;
  }

  lemma OneBit(bits: seq<bit>, p: nat)
    requires p < |bits|
    ensures Lsb(bits[p..p + 1]) == bits[p]
  {
    assert bits[p..p + 1] == [bits[p]] && Lsb([]) == 0;
    assert [bits[p]][1..] == [];
  }

  method InflateBlock(s: State, kind: u32) returns (ok: bool)
    requires s.Valid()
    modifies s, s.r, s.dst
    ensures ok <==> Block(Stream(s.r.src), old(s.r.At()), kind, old(s.Out()), s.dst.Length).Some?
    ensures ok ==>
      && s.Valid()
      && Block(Stream(s.r.src), old(s.r.At()), kind, old(s.Out()), s.dst.Length) == Some(Progress(s.Out(), s.r.At()))
  {
    hide Stream, Lsb, Codes, Stored, DynamicHeader, FixedLit, FixedDist;
    match kind {
      case 0 => ok := InflateStored(s);
      case 1 => ok := InflateFixed(s);
      case 2 => ok := InflateDynamic(s);
      case _ => ok := false;
    }
  }
}
