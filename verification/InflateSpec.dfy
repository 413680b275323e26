/** What a raw DEFLATE stream means to this decoder (inflate.cpp), as functions from a
    position in the bit stream to the output so far and the position after. */
module InflateSpec {
  import opened Words
  import opened Arith
  import opened Bits
  import opened Huffman

  const MAX_LCODES: int := 286
  const MAX_DCODES: int := 30
  const END_OF_BLOCK: int := 256

  // The tables of section 3.2.5, and the order of section 3.2.7.

  function LenBase(i: nat): (v: u16)
    requires i < 29
    ensures 3 <= v <= 258
  {
    [3, 4, 5, 6, 7, 8, 9, 10, 11, 13, 15, 17, 19, 23, 27, 31, 35, 43, 51, 59, 67, 83, 99, 115, 131, 163, 195, 227, 258][i]
  }

  function LenExtra(i: nat): (v: u8)
    requires i < 29
    ensures v <= 5
  {
    [0, 0, 0, 0, 0, 0, 0, 0, 1, 1, 1, 1, 2, 2, 2, 2, 3, 3, 3, 3, 4, 4, 4, 4, 5, 5, 5, 5, 0][i]
  }

  function DistBase(i: nat): (v: u16)
    requires i < 30
    ensures 1 <= v <= 24577
  {
    [1, 2, 3, 4, 5, 7, 9, 13, 17, 25, 33, 49, 65, 97, 129, 193, 257, 385, 513, 769, 1025, 1537, 2049, 3073, 4097, 6145,
     8193, 12289, 16385, 24577][i]
  }

  function DistExtra(i: nat): (v: u8)
    requires i < 30
    ensures v <= 13
  {
    [0, 0, 0, 0, 1, 1, 2, 2, 3, 3, 4, 4, 5, 5, 6, 6, 7, 7, 8, 8, 9, 9, 10, 10, 11, 11, 12, 12, 13, 13][i]
  }

  /** Which code-length symbol's length is sent i-th. */
  function Order(i: nat): (v: u8)
    requires i < 19
    ensures v < 19
  {
    [16, 17, 18, 0, 8, 7, 9, 6, 10, 5, 11, 4, 12, 3, 13, 2, 14, 1, 15][i]
  }

  /** The lengths of section 3.2.5: 3 to 10 one each, then four symbols for each number of
      extra bits, every range beginning where the one before ends; 258 has its own symbol. */
  lemma LengthTable(i: nat)
    requires i < 29
    ensures LenExtra(i) as int == (if i < 8 || i == 28 then 0 else (i - 4) / 4)
    ensures LenBase(0) == 3 && LenBase(28) == 258
    ensures i < 27 ==> LenBase(i + 1) as int == LenBase(i) as int + Pow2(LenExtra(i))
    ensures i == 27 ==> LenBase(i) as int + Pow2(LenExtra(i)) == 259
  {
    LengthExtra(i);
    ExtraPowers();
    hide LenExtra, Pow2;
  }

  lemma LengthExtra(i: nat)
    requires i < 29
    ensures LenExtra(i) as int == if i < 8 || i == 28 then 0 else (i - 4) / 4
  {}

  /** The distances of section 3.2.5: 1 to 4 one each, then two symbols for each number of
      extra bits, up to 32768. */
  lemma DistanceTable(i: nat)
    requires i < 30
    ensures DistExtra(i) as int == if i < 4 then 0 else (i - 2) / 2
    ensures DistBase(0) == 1
    ensures DistBase(i) as int + Pow2(DistExtra(i)) == if i < 29 then DistBase(i + 1) as int else 32769
  {
    DistanceExtra(i);
    hide DistExtra, Pow2;
    if i < 16 {
      LowDistances(i);
    } else {
      HighDistances(i);
    }
  }

  lemma DistanceExtra(i: nat)
    requires i < 30
    ensures DistExtra(i) as int == if i < 4 then 0 else (i - 2) / 2
  {}

  lemma LowDistances(i: nat)
    requires i < 16
    ensures DistBase(i) as int + Pow2(if i < 4 then 0 else (i - 2) / 2) == DistBase(i + 1) as int
  {
    ExtraPowers();
    hide Pow2;
  }

  lemma HighDistances(i: nat)
    requires 16 <= i < 30
    ensures DistBase(i) as int + Pow2((i - 2) / 2) == if i < 29 then DistBase(i + 1) as int else 32769
  {
    ExtraPowers();
    hide Pow2;
  }

  lemma ExtraPowers()
    ensures Pow2(0) == 1 && Pow2(1) == 2 && Pow2(2) == 4 && Pow2(3) == 8 && Pow2(4) == 16 && Pow2(5) == 32 && Pow2(6) == 64
    ensures Pow2(7) == 128 && Pow2(8) == 256 && Pow2(9) == 512 && Pow2(10) == 1024 && Pow2(11) == 2048
    ensures Pow2(12) == 4096 && Pow2(13) == 8192
  {
    Pow2At8();
    Pow2Next(8);
    Pow2Next(9);
    Pow2Next(10);
    Pow2Next(11);
    Pow2Next(12);
    assert Pow2(3) == 8;
    Pow2Next(3);
    Pow2Next(4);
    Pow2Next(5);
  }

  /** Length symbol i with extra bits e stands for n. */
  predicate LengthIs(i: nat, e: nat, n: nat) { i < 29 && e < Pow2(LenExtra(i)) && LenBase(i) as int + e == n }

  predicate DistanceIs(i: nat, e: nat, d: nat) { i < 30 && e < Pow2(DistExtra(i)) && DistBase(i) as int + e == d }

  /** Every distance up to 32768 has exactly one symbol and extra bits, and no other has any. */
  lemma DistanceCodes(d: nat)
    ensures 1 <= d <= 32768 <==> exists i, e :: DistanceIs(i, e, d)
    ensures forall i, e, j, f :: DistanceIs(i, e, d) && DistanceIs(j, f, d) ==> i == j && e == f
  {
    hide Pow2, DistBase, DistExtra;
    DistanceTable(0);
    DistanceTable(29);
    if 1 <= d <= 32768 {
      var i, e := DistanceSymbol(d, 29);
    }
    forall i, e, j, f | DistanceIs(i, e, d) && DistanceIs(j, f, d)
      ensures i == j
    {
      DistancesApart(i, j);
      DistancesApart(j, i);
    }
    forall i, e | DistanceIs(i, e, d)
      ensures 1 <= d <= 32768
    {
      DistancesApart(0, i);
      DistancesApart(i, 29);
    }
  }

  lemma {:induction false} DistanceSymbol(d: nat, n: nat) returns (i: nat, e: nat)
    requires n < 30 && 1 <= d < DistBase(n) as int + Pow2(DistExtra(n))
    ensures DistanceIs(i, e, d)
  {
    hide Pow2, DistBase, DistExtra;
    if d >= DistBase(n) as int {
      i, e := n, d - DistBase(n) as int;
    } else {
      DistanceTable(0);
      DistanceTable(n - 1);
      i, e := DistanceSymbol(d, n - 1);
    }
  }

  lemma {:induction false} DistancesApart(i: nat, j: nat)
    requires i < 30 && j < 30
    ensures i < j ==> DistBase(i) as int + Pow2(DistExtra(i)) <= DistBase(j) as int
    ensures i <= j ==> DistBase(i) <= DistBase(j)
    decreases j
  {
    hide Pow2, DistBase, DistExtra;
    if i < j {
      DistanceTable(j - 1);
      DistancesApart(i, j - 1);
    }
  }

  /** Every length from 3 to 258 has symbol and extra bits; below 258 only one. */
  lemma LengthCodes(n: nat)
    ensures 3 <= n <= 258 <==> exists i, e :: LengthIs(i, e, n)
    ensures n < 258 ==> forall i, e, j, f :: LengthIs(i, e, n) && LengthIs(j, f, n) ==> i == j && e == f
    ensures forall i, e :: LengthIs(i, e, 258) <==> (i == 28 && e == 0) || (i == 27 && e == 31)
  {
    hide Pow2, LenBase, LenExtra;
    ExtraPowers();
    LengthTable(0);
    LengthTable(27);
    LengthTable(28);
    if 3 <= n <= 258 {
      var i, e := LengthSymbol(n, 27);
    }
    forall i, e | LengthIs(i, e, n)
      ensures 3 <= n <= 258 && (i == 28 ==> n == 258)
    {
      LengthsApart(0, i);
      LengthsApart(i, 27);
    }
    forall i, e, j, f | LengthIs(i, e, n) && LengthIs(j, f, n) && i < 28 && j < 28
      ensures i == j
    {
      LengthsApart(i, j);
      LengthsApart(j, i);
    }
    forall i, e
      ensures LengthIs(i, e, 258) <==> (i == 28 && e == 0) || (i == 27 && e == 31)
    {
      LengthsApart(i, 27);
    }
  }

  lemma {:induction false} LengthSymbol(n: nat, k: nat) returns (i: nat, e: nat)
    requires k < 28 && 3 <= n < LenBase(k) as int + Pow2(LenExtra(k))
    ensures LengthIs(i, e, n)
  {
    hide Pow2, LenBase, LenExtra;
    if n >= LenBase(k) as int {
      i, e := k, n - LenBase(k) as int;
    } else {
      LengthTable(0);
      LengthTable(k - 1);
      i, e := LengthSymbol(n, k - 1);
    }
  }

  lemma {:induction false} LengthsApart(i: nat, j: nat)
    ensures i < j < 28 ==> LenBase(i) as int + Pow2(LenExtra(i)) <= LenBase(j) as int
    ensures i <= j < 28 ==> LenBase(i) <= LenBase(j)
    decreases j
  {
    hide Pow2, LenBase, LenExtra;
    if i < j < 28 {
      LengthTable(j - 1);
      LengthsApart(i, j - 1);
    }
  }

  /** Section 3.2.7: the three repeat codes, zero, then outwards from eight. */
  lemma OrderTable(i: nat)
    requires i < 19
    ensures Order(i) as int ==
            if i < 3 then 16 + i else if i == 3 then 0 else if i == 18 then 15
            else if i % 2 == 0 then 8 + (i - 4) / 2 else 7 - (i - 5) / 2
    ensures forall j: nat :: j < 19 && Order(j) == Order(i) ==> j == i
  {}

  /** A number of n bits, least significant first. */
  function Number(bits: seq<bit>, p: nat, n: nat): (r: Option<nat>) {
    if p + n <= |bits| then Some(Lsb(bits[p..p + n])) else None
  }

  datatype Progress<T> = Progress(value: T, end: nat)

  /** Appends n bytes copied from `distance` back, one at a time, so that the copy may
      overlap what it produces. */
  function CopyBack(out: seq<u8>, distance: nat, n: nat): (r: seq<u8>)
    requires 1 <= distance <= |out|
    ensures |r| == |out| + n && out <= r
    decreases n
  {
    if n == 0 then out else CopyBack(out + [out[|out| - distance]], distance, n - 1)
  }

  /** What went before stays, and every byte copied is the one `distance` before it. */
  lemma {:induction false} CopyBackAt(out: seq<u8>, distance: nat, n: nat, k: nat)
    requires 1 <= distance <= |out| && k < |out| + n
    ensures var r := CopyBack(out, distance, n); r[k] == if k < |out| then out[k] else r[k - distance]
    decreases n
  {
    if n > 0 {
      var o := out + [out[|out| - distance]];
      CopyBackAt(o, distance, n - 1, k);
      CopyBackAt(o, distance, n - 1, |out| - distance);
    }
  }

  /** A length code and a distance code with their extra bits. */
  datatype Pair = Pair(length: nat, distance: nat, end: nat)

  function LengthAndDistance(bits: seq<bit>, p: nat, lsym: nat, dist: seq<u8>): (r: Option<Pair>)
    ensures r.Some? ==> p < r.value.end <= |bits| && 1 <= r.value.distance
  {
    if lsym >= 29 then None
    else match Number(bits, p, LenExtra(lsym))
      case None => None
      case Some(extra) =>
        var q := p + LenExtra(lsym) as nat;
        match Decode(bits, q, dist)
        case None => None
        case Some(d) =>
          if d.sym >= MAX_DCODES then None
          else match Number(bits, d.end, DistExtra(d.sym))
            case None => None
            case Some(dextra) =>
              Some(Pair(LenBase(lsym) as nat + extra, DistBase(d.sym) as nat + dextra,
                        d.end + DistExtra(d.sym) as nat))
  }

  /** The symbols of one compressed block up to its end marker. */
  function Codes(bits: seq<bit>, p: nat, lit: seq<u8>, dist: seq<u8>, out: seq<u8>, cap: nat): (r: Option<Progress<seq<u8>>>)
    ensures r.Some? ==> p < r.value.end <= |bits| && (|out| <= cap ==> |r.value.value| <= cap)
    decreases |bits| - p
  {
    match Decode(bits, p, lit)
    case None => None
    case Some(d) =>
      if d.sym == END_OF_BLOCK then Some(Progress(out, d.end))
      else if d.sym < END_OF_BLOCK then
        if |out| < cap then Codes(bits, d.end, lit, dist, out + [d.sym as u8], cap) else None
      else match LengthAndDistance(bits, d.end, d.sym - 257, dist)
        case None => None
        case Some(c) =>
          if c.distance <= |out| && |out| + c.length <= cap then
            Codes(bits, c.end, lit, dist, CopyBack(out, c.distance, c.length), cap)
          else None
  }

  ghost function FixedLit(): seq<u8> {
    seq(288, i => if i < 144 then 8 else if i < 256 then 9 else if i < 280 then 7 else 8)
  }

  ghost function FixedDist(): seq<u8> { seq(30, i => 5) }

  lemma {:induction false} FixedCounts(n: nat, len: nat)
    requires n <= 288
    ensures CountTo(FixedLit(), len, n) ==
            if len == 7 then (if n <= 256 then 0 else if n <= 280 then n - 256 else 24)
            else if len == 8 then (if n <= 144 then n else if n <= 280 then 144 else n - 136)
            else if len == 9 then (if n <= 144 then 0 else if n <= 256 then n - 144 else 112)
            else 0
  {
    if n > 0 {
      FixedCounts(n - 1, len);
    }
  }

  /** The codes that section 3.2.6 lists: eight bits from 00110000, nine from 110010000, seven
      from 0000000, eight from 11000000. */
  lemma FixedCodes(sym: nat)
    requires sym < 288
    ensures |FixedLit()| == 288
    ensures sym <= 143 ==> FixedLit()[sym] == 8 && Code(FixedLit(), sym) == 0x30 + sym
    ensures 144 <= sym <= 255 ==> FixedLit()[sym] == 9 && Code(FixedLit(), sym) == 0x190 + (sym - 144)
    ensures 256 <= sym <= 279 ==> FixedLit()[sym] == 7 && Code(FixedLit(), sym) == sym - 256
    ensures 280 <= sym ==> FixedLit()[sym] == 8 && Code(FixedLit(), sym) == 0xc0 + (sym - 280)
  {
    FixedFirst();
    FixedCounts(sym, FixedLit()[sym] as nat);
    hide FirstCode, CountTo;
  }

  lemma FixedFirst()
    ensures var l := FixedLit(); FirstCode(l, 7) == 0 && FirstCode(l, 8) == 0x30 && FirstCode(l, 9) == 0x190
  {
    var l := FixedLit();
    FixedCounts(288, 1);
    FixedCounts(288, 2);
    FixedCounts(288, 3);
    FixedCounts(288, 4);
    FixedCounts(288, 5);
    FixedCounts(288, 6);
    FixedCounts(288, 7);
    FixedCounts(288, 8);
    hide CountTo, FixedLit;
    assert FirstCode(l, 3) == 0;
    assert FirstCode(l, 5) == 0;
    assert FirstCode(l, 7) == 0;
  }

  /** Distance codes are the five-bit numbers 0 to 29. */
  lemma FixedDistances(sym: nat)
    requires sym < 30
    ensures |FixedDist()| == 30 && FixedDist()[sym] == 5 && Code(FixedDist(), sym) == sym
  {
    var l := FixedDist();
    FixedDistCounts(30, 1);
    FixedDistCounts(30, 2);
    FixedDistCounts(30, 3);
    FixedDistCounts(30, 4);
    FixedDistCounts(sym, 5);
    hide CountTo;
    assert FirstCode(l, 3) == 0;
    assert FirstCode(l, 5) == 0;
  }

  lemma {:induction false} FixedDistCounts(n: nat, len: nat)
    requires n <= 30
    ensures CountTo(FixedDist(), len, n) == if len == 5 then n else 0
  {
    if n > 0 {
      FixedDistCounts(n - 1, len);
    }
  }

  /** The code lengths of the code-length code, entry i on. */
  function ClLengths(bits: seq<bit>, p: nat, i: nat, n: nat, cl: seq<u8>): (r: Option<Progress<seq<u8>>>)
    requires |cl| == 19 && i <= n <= 19 && p <= |bits|
    ensures r.Some? ==> |r.value.value| == 19 && r.value.end == p + 3 * (n - i) <= |bits|
    decreases n - i
  {
    if i == n then Some(Progress(cl, p))
    else match Number(bits, p, 3)
      case None => None
      case Some(v) =>
        LsbBound(bits[p..p + 3]);
        ClLengths(bits, p + 3, i + 1, n, cl[Order(i) := v])
  }

  /** One run-length operation: the value repeated, how often, and the position after. */
  datatype Run = Run(value: u8, count: nat, end: nat)

  function NextRun(bits: seq<bit>, p: nat, cl: seq<u8>, acc: seq<u8>): (r: Option<Run>)
    requires |cl| == 19
    ensures r.Some? ==> p < r.value.end <= |bits| && r.value.count >= 1
    ensures r.Some? && LengthsOk(acc) ==> r.value.value <= MAX_BITS
  {
    match Decode(bits, p, cl)
    case None => None
    case Some(d) =>
      if d.sym < 16 then Some(Run(d.sym, 1, d.end))
      else if d.sym == 16 then
        if acc == [] then None
        else match Number(bits, d.end, 2)
          case None => None
          case Some(n) => Some(Run(acc[|acc| - 1], 3 + n, d.end + 2))
      else if d.sym == 17 then
        match Number(bits, d.end, 3)
        case None => None
        case Some(n) => Some(Run(0, 3 + n, d.end + 3))
      else
        match Number(bits, d.end, 7)
        case None => None
        case Some(n) => Some(Run(0, 11 + n, d.end + 7))
  }

  function Repeated(v: u8, n: nat): (s: seq<u8>)
    ensures |s| == n
  {
    seq(n, i => v)
  }

  /** The literal/length and distance code lengths, run-length coded. */
  function Runs(bits: seq<bit>, p: nat, cl: seq<u8>, acc: seq<u8>, total: nat): (r: Option<Progress<seq<u8>>>)
    requires |cl| == 19 && |acc| <= total && p <= |bits|
    ensures r.Some? ==> |r.value.value| == total && p <= r.value.end <= |bits|
    ensures r.Some? && LengthsOk(acc) ==> LengthsOk(r.value.value)
    decreases |bits| - p
  {
    if |acc| == total then Some(Progress(acc, p))
    else match NextRun(bits, p, cl, acc)
      case None => None
      case Some(run) =>
        if |acc| + run.count > total then None
        else Runs(bits, run.end, cl, acc + Repeated(run.value, run.count), total)
  }

  datatype Codebook = Codebook(lit: seq<u8>, dist: seq<u8>)

  /** The header of a dynamic block. */
  function DynamicHeader(bits: seq<bit>, p: nat): (r: Option<Progress<Codebook>>)
    ensures r.Some? ==> p < r.value.end <= |bits|
    ensures r.Some? ==> 257 <= |r.value.value.lit| <= MAX_LCODES && 1 <= |r.value.value.dist| <= MAX_DCODES
    ensures r.Some? ==> LengthsOk(r.value.value.lit) && LengthsOk(r.value.value.dist)
  {
    if p + 14 > |bits| then None
    else
      var nlit := Lsb(bits[p..p + 5]) + 257;
      var ndist := Lsb(bits[p + 5..p + 10]) + 1;
      var ncode := Lsb(bits[p + 10..p + 14]) + 4;
      LsbBound(bits[p + 10..p + 14]);
      assert Pow2(4) == 16;
      if nlit > MAX_LCODES || ndist > MAX_DCODES then None
      else match ClLengths(bits, p + 14, 0, ncode, Repeated(0, 19))
        case None => None
        case Some(cl) =>
          match Runs(bits, cl.end, cl.value, [], nlit + ndist)
          case None => None
          case Some(l) => Some(Progress(Codebook(l.value[..nlit], l.value[nlit..]), l.end))
  }

  /** The next byte boundary at or after p. */
  function Aligned(p: nat): (q: nat)
    ensures p <= q < p + 8 && q % 8 == 0
  {
    (p + 7) / 8 * 8
  }

  function BytesAt(bits: seq<bit>, q: nat, n: nat): (s: seq<u8>)
    requires q + 8 * n <= |bits|
    ensures |s| == n
  {
    seq(n, i requires 0 <= i < n => ByteAt(bits, q + 8 * i))
  }

  function ByteAt(bits: seq<bit>, q: nat): u8
    requires q + 8 <= |bits|
  {
    LsbBound(bits[q..q + 8]);
    assert Pow2(8) == 0x100;
    Lsb(bits[q..q + 8])
  }

  /** A stored block: its length after alignment (the complement is skipped), its bytes. */
  function Stored(bits: seq<bit>, p: nat, out: seq<u8>, cap: nat): (r: Option<Progress<seq<u8>>>)
    ensures r.Some? ==> p < r.value.end <= |bits| && |r.value.value| <= cap
  {
    var q := Aligned(p);
    if q + 32 > |bits| then None
    else
      var n := Lsb(bits[q..q + 16]);
      if q + 32 + 8 * n > |bits| || |out| + n > cap then None
      else Some(Progress(out + BytesAt(bits, q + 32, n), q + 32 + 8 * n))
  }

  ghost function Block(bits: seq<bit>, p: nat, kind: nat, out: seq<u8>, cap: nat): (r: Option<Progress<seq<u8>>>)
    requires |out| <= cap
    ensures r.Some? ==> p < r.value.end <= |bits| && |r.value.value| <= cap
  {
    if kind == 0 then Stored(bits, p, out, cap)
    else if kind == 1 then Codes(bits, p, FixedLit(), FixedDist(), out, cap)
    else if kind == 2 then
      match DynamicHeader(bits, p)
      case None => None
      case Some(h) => Codes(bits, h.end, h.value.lit, h.value.dist, out, cap)
    else None
  }

  /** Blocks up to the one marked last. */
  ghost function Blocks(bits: seq<bit>, p: nat, out: seq<u8>, cap: nat): (r: Option<seq<u8>>)
    requires |out| <= cap
    ensures r.Some? ==> |r.value| <= cap
    decreases |bits| - p
  {
    if p + 3 > |bits| then None
    else match Block(bits, p + 3, Lsb(bits[p + 1..p + 3]), out, cap)
      case None => None
      case Some(b) => if bits[p] == 1 then Some(b.value) else Blocks(bits, b.end, b.value, cap)
  }

  /** The whole decoder: the output must fill the destination exactly. */
  ghost function Inflated(src: seq<u8>, cap: nat): Option<seq<u8>> {
    match Blocks(Stream(src), 0, [], cap)
    case None => None
    case Some(out) => if |out| == cap then Some(out) else None
  }
}
