/** An encoder for the DEFLATE format (RFC 1951, sections 3.2.2 to 3.2.7), and the proof
    that the decoder accepts exactly the encoder's streams and returns their meaning. */
module InflateCodec {
  import opened Words
  import opened Arith
  import opened Bits
  import opened Huffman
  import opened InflateSpec

  // ----- codes and numbers as bit strings

  predicate HasCode(lengths: seq<u8>, sym: nat) {
    sym < |lengths| && 1 <= lengths[sym] <= 15 && Code(lengths, sym) < Pow2(lengths[sym])
  }

  function CodeBits(lengths: seq<u8>, sym: nat): (w: seq<bit>)
    requires HasCode(lengths, sym)
    ensures |w| == lengths[sym] as nat
  {
    MsbBits(Code(lengths, sym), lengths[sym] as nat)
  }

  lemma CodeBitsAt(bits: seq<bit>, p: nat, lengths: seq<u8>, sym: nat)
    ensures CodeAt(bits, p, lengths, sym) <==> HasCode(lengths, sym) && At(bits, p, CodeBits(lengths, sym))
  {
    hide Msb, Code, Pow2, MsbBits;
    if sym < |lengths| && 1 <= lengths[sym] <= MAX_BITS && p + lengths[sym] <= |bits| {
      var w := bits[p..p + lengths[sym]];
      MsbBound(w);
      if Code(lengths, sym) < Pow2(lengths[sym]) {
        MsbUnique(w, Code(lengths, sym));
      }
    }
  }

  /** Decoding at p yields `sym` exactly when its code stands there. */
  lemma DecodeAt(bits: seq<bit>, p: nat, lengths: seq<u8>, sym: nat)
    requires HasCode(lengths, sym) && At(bits, p, CodeBits(lengths, sym))
    ensures Decode(bits, p, lengths) == Some(Decoded(sym, p + |CodeBits(lengths, sym)|))
  {
    hide Code, Decode, CodeAt;
    CodeBitsAt(bits, p, lengths, sym);
    DecodeIffCode(bits, p, lengths, Decoded(sym, p + lengths[sym] as nat));
  }

  lemma AtDecoded(bits: seq<bit>, p: nat, lengths: seq<u8>)
    requires Decode(bits, p, lengths).Some?
    ensures var d := Decode(bits, p, lengths).value;
            HasCode(lengths, d.sym) && At(bits, p, CodeBits(lengths, d.sym))
            && d.end == p + |CodeBits(lengths, d.sym)|
  {
    hide Code, Decode;
    var d := Decode(bits, p, lengths).value;
    DecodeIffCode(bits, p, lengths, d);
    CodeBitsAt(bits, p, lengths, d.sym);
  }

  lemma NumberAt(bits: seq<bit>, p: nat, v: nat, n: nat)
    requires v < Pow2(n)
    ensures Number(bits, p, n) == Some(v) <==> At(bits, p, LsbBits(v, n))
  {
    hide Lsb, LsbBits, Pow2;
    if p + n <= |bits| {
      LsbUnique(bits[p..p + n], v);
    }
  }

  lemma AtNumber(bits: seq<bit>, p: nat, n: nat)
    requires Number(bits, p, n).Some?
    ensures var v := Number(bits, p, n).value; v < Pow2(n) && At(bits, p, LsbBits(v, n))
  {
    hide Lsb, LsbBits, Pow2;
    LsbBound(bits[p..p + n]);
    NumberAt(bits, p, Lsb(bits[p..p + n]), n);
  }

  // ----- tokens

  datatype Token =
    | Lit(byte: u8)
    | Ref(lsym: nat, lextra: nat, dsym: nat, dextra: nat)

  predicate TokenOk(t: Token, lit: seq<u8>, dist: seq<u8>) {
    match t
    case Lit(b) => HasCode(lit, b)
    case Ref(l, le, d, de) =>
      && l < 29 && d < 30 && HasCode(lit, 257 + l) && HasCode(dist, d)
      && le < Pow2(LenExtra(l)) && de < Pow2(DistExtra(d))
  }

  function PairBits(l: nat, le: nat, d: nat, de: nat, dist: seq<u8>): seq<bit>
    requires l < 29 && d < 30 && HasCode(dist, d)
  {
    LsbBits(le, LenExtra(l) as nat) + (CodeBits(dist, d) + LsbBits(de, DistExtra(d) as nat))
  }

  function TokenBits(t: Token, lit: seq<u8>, dist: seq<u8>): seq<bit>
    requires TokenOk(t, lit, dist)
  {
    match t
    case Lit(b) => CodeBits(lit, b)
    case Ref(l, le, d, de) => CodeBits(lit, 257 + l) + PairBits(l, le, d, de, dist)
  }

  predicate TokensOk(ts: seq<Token>, lit: seq<u8>, dist: seq<u8>) {
    HasCode(lit, 256) && forall i :: 0 <= i < |ts| ==> TokenOk(ts[i], lit, dist)
  }

  function TokensBits(ts: seq<Token>, lit: seq<u8>, dist: seq<u8>): seq<bit>
    requires TokensOk(ts, lit, dist)
  {
    if ts == [] then CodeBits(lit, 256)
    else TokenBits(ts[0], lit, dist) + TokensBits(ts[1..], lit, dist)
  }

  function ExpandToken(t: Token, out: seq<u8>): (r: Option<seq<u8>>)
    ensures r.Some? ==> out <= r.value
  {
    match t
    case Lit(b) => Some(out + [b])
    case Ref(l, le, d, de) =>
      if l < 29 && d < 30 && DistBase(d) as nat + de <= |out| then
        Some(CopyBack(out, DistBase(d) as nat + de, LenBase(l) as nat + le))
      else None
  }

  /** What a list of tokens appends to the output. */
  function Expand(ts: seq<Token>, out: seq<u8>): (r: Option<seq<u8>>)
    ensures r.Some? ==> |out| <= |r.value|
  {
    if ts == [] then Some(out)
    else match ExpandToken(ts[0], out)
      case None => None
      case Some(o) => Expand(ts[1..], o)
  }

  lemma PairAt(bits: seq<bit>, p: nat, l: nat, le: nat, d: nat, de: nat, dist: seq<u8>)
    requires l < 29 && d < 30 && HasCode(dist, d) && le < Pow2(LenExtra(l)) && de < Pow2(DistExtra(d))
    requires At(bits, p, PairBits(l, le, d, de, dist))
    ensures LengthAndDistance(bits, p, l, dist)
            == Some(Pair(LenBase(l) as nat + le, DistBase(d) as nat + de, p + |PairBits(l, le, d, de, dist)|))
  {
    hide LsbBits, CodeBits, HasCode, Decode, Number, At, LenBase, LenExtra, DistBase, DistExtra, Pow2;
    var a, b, c := LsbBits(le, LenExtra(l) as nat), CodeBits(dist, d), LsbBits(de, DistExtra(d) as nat);
    AtConcat(bits, p, a, b + c);
    AtConcat(bits, p + |a|, b, c);
    NumberAt(bits, p, le, LenExtra(l) as nat);
    DecodeAt(bits, p + |a|, dist, d);
    NumberAt(bits, p + |a| + |b|, de, DistExtra(d) as nat);
  }

  lemma AtPair(bits: seq<bit>, p: nat, l: nat, dist: seq<u8>) returns (le: nat, d: nat, de: nat)
    requires LengthAndDistance(bits, p, l, dist).Some?
    ensures l < 29 && d < 30 && HasCode(dist, d) && le < Pow2(LenExtra(l)) && de < Pow2(DistExtra(d))
    ensures At(bits, p, PairBits(l, le, d, de, dist))
    ensures LengthAndDistance(bits, p, l, dist)
            == Some(Pair(LenBase(l) as nat + le, DistBase(d) as nat + de, p + |PairBits(l, le, d, de, dist)|))
  {
    hide LsbBits, CodeBits, HasCode, Decode, Number, At, LenBase, LenExtra, DistBase, DistExtra, Pow2;
    le := Number(bits, p, LenExtra(l) as nat).value;
    AtNumber(bits, p, LenExtra(l) as nat);
    var q := p + LenExtra(l) as nat;
    d := Decode(bits, q, dist).value.sym;
    AtDecoded(bits, q, dist);
    var q2 := Decode(bits, q, dist).value.end;
    de := Number(bits, q2, DistExtra(d) as nat).value;
    AtNumber(bits, q2, DistExtra(d) as nat);
    var a, b, c := LsbBits(le, LenExtra(l) as nat), CodeBits(dist, d), LsbBits(de, DistExtra(d) as nat);
    AtConcat(bits, q, b, c);
    AtConcat(bits, p, a, b + c);
  }

  /** One more token in front. */
  lemma ConsToken(t: Token, rest: seq<Token>, lit: seq<u8>, dist: seq<u8>, out: seq<u8>)
    requires TokensOk(rest, lit, dist) && TokenOk(t, lit, dist)
    ensures TokensOk([t] + rest, lit, dist)
    ensures TokensBits([t] + rest, lit, dist) == TokenBits(t, lit, dist) + TokensBits(rest, lit, dist)
    ensures Expand([t] + rest, out)
            == match ExpandToken(t, out) case None => None case Some(o) => Expand(rest, o)
  {
    hide HasCode, CodeBits, PairBits, ExpandToken, TokenOk, TokenBits;
    var ts := [t] + rest;
    assert ts[0] == t && ts[1..] == rest;
  }

  /** One step of the decoder, when a literal's or a pair's code stands at p. */
  lemma TokenStep(bits: seq<bit>, p: nat, lit: seq<u8>, dist: seq<u8>, out: seq<u8>, cap: nat, t: Token)
    requires TokenOk(t, lit, dist) && At(bits, p, TokenBits(t, lit, dist))
    requires ExpandToken(t, out).Some? && |ExpandToken(t, out).value| <= cap
    ensures Codes(bits, p, lit, dist, out, cap)
            == Codes(bits, p + |TokenBits(t, lit, dist)|, lit, dist, ExpandToken(t, out).value, cap)
  {
    hide CodeBits, HasCode, Decode, At, LengthAndDistance, PairBits, LenBase, DistBase, CopyBack;
    match t
    case Lit(b) =>
      DecodeAt(bits, p, lit, b);
    case Ref(l, le, d, de) =>
      var head := CodeBits(lit, 257 + l);
      AtConcat(bits, p, head, PairBits(l, le, d, de, dist));
      DecodeAt(bits, p, lit, 257 + l);
      PairAt(bits, p + |head|, l, le, d, de, dist);
  }

  lemma EndStep(bits: seq<bit>, p: nat, lit: seq<u8>, dist: seq<u8>, out: seq<u8>, cap: nat)
    requires HasCode(lit, END_OF_BLOCK) && At(bits, p, CodeBits(lit, END_OF_BLOCK))
    ensures Codes(bits, p, lit, dist, out, cap) == Some(Progress(out, p + |CodeBits(lit, END_OF_BLOCK)|))
  {
    hide CodeBits, HasCode, Decode, At;
    DecodeAt(bits, p, lit, END_OF_BLOCK);
  }

  /** Whatever tokens stand at p, the decoder expands them. */
  lemma {:induction false} CodesComplete(
    bits: seq<bit>, p: nat, lit: seq<u8>, dist: seq<u8>, out: seq<u8>, cap: nat, ts: seq<Token>)
    requires TokensOk(ts, lit, dist) && At(bits, p, TokensBits(ts, lit, dist))
    requires Expand(ts, out).Some? && |Expand(ts, out).value| <= cap
    ensures Codes(bits, p, lit, dist, out, cap)
            == Some(Progress(Expand(ts, out).value, p + |TokensBits(ts, lit, dist)|))
    decreases |ts|
  {
    hide CodeBits, HasCode, At, Codes, TokenOk, TokenBits, ExpandToken;
    if ts == [] {
      EndStep(bits, p, lit, dist, out, cap);
    } else {
      var t, rest := ts[0], ts[1..];
      AtConcat(bits, p, TokenBits(t, lit, dist), TokensBits(rest, lit, dist));
      TokenStep(bits, p, lit, dist, out, cap, t);
      CodesComplete(bits, p + |TokenBits(t, lit, dist)|, lit, dist, ExpandToken(t, out).value, cap, rest);
    }
  }

  /** The token the decoder reads at p, unless it reads the end of the block. */
  lemma AtToken(bits: seq<bit>, p: nat, lit: seq<u8>, dist: seq<u8>, out: seq<u8>, cap: nat) returns (t: Token)
    requires Codes(bits, p, lit, dist, out, cap).Some? && Decode(bits, p, lit).Some?
    requires Decode(bits, p, lit).value.sym != END_OF_BLOCK
    ensures TokenOk(t, lit, dist) && At(bits, p, TokenBits(t, lit, dist)) && |TokenBits(t, lit, dist)| > 0
    ensures ExpandToken(t, out).Some? && |ExpandToken(t, out).value| <= cap
  {
    hide CodeBits, HasCode, Decode, At, LengthAndDistance, PairBits, LenBase, DistBase, CopyBack;
    AtDecoded(bits, p, lit);
    var d := Decode(bits, p, lit).value;
    if d.sym < END_OF_BLOCK {
      t := Lit(d.sym as u8);
    } else {
      var l := d.sym - 257;
      var le, dsym, de := AtPair(bits, d.end, l, dist);
      t := Ref(l, le, dsym, de);
      AtConcat(bits, p, CodeBits(lit, d.sym), PairBits(l, le, dsym, de, dist));
    }
  }

  /** Whatever the decoder expands, it was the encoding of some tokens. */
  lemma {:induction false} CodesSound(bits: seq<bit>, p: nat, lit: seq<u8>, dist: seq<u8>, out: seq<u8>, cap: nat)
    returns (ts: seq<Token>)
    requires Codes(bits, p, lit, dist, out, cap).Some?
    ensures TokensOk(ts, lit, dist) && At(bits, p, TokensBits(ts, lit, dist))
    ensures Expand(ts, out).Some?
    ensures Codes(bits, p, lit, dist, out, cap)
            == Some(Progress(Expand(ts, out).value, p + |TokensBits(ts, lit, dist)|))
    decreases |bits| - p
  {
    hide CodeBits, HasCode, Decode, At, Codes, TokenOk, TokenBits, ExpandToken, TokensOk, TokensBits, Expand;
    CodesDecodes(bits, p, lit, dist, out, cap);
    AtDecoded(bits, p, lit);
    if Decode(bits, p, lit).value.sym == END_OF_BLOCK {
      ts := [];
      NoTokens(lit, dist, out);
      EndStep(bits, p, lit, dist, out, cap);
    } else {
      var t := AtToken(bits, p, lit, dist, out, cap);
      TokenStep(bits, p, lit, dist, out, cap, t);
      AtInside(bits, p, TokenBits(t, lit, dist));
      var rest := CodesSound(bits, p + |TokenBits(t, lit, dist)|, lit, dist, ExpandToken(t, out).value, cap);
      ts := [t] + rest;
      ConsToken(t, rest, lit, dist, out);
      AtConcat(bits, p, TokenBits(t, lit, dist), TokensBits(rest, lit, dist));
    }
  }

  lemma NoTokens(lit: seq<u8>, dist: seq<u8>, out: seq<u8>)
    requires HasCode(lit, END_OF_BLOCK)
    ensures TokensOk([], lit, dist) && TokensBits([], lit, dist) == CodeBits(lit, END_OF_BLOCK)
    ensures Expand([], out) == Some(out)
  {
    hide HasCode, CodeBits;
  }

  lemma CodesDecodes(bits: seq<bit>, p: nat, lit: seq<u8>, dist: seq<u8>, out: seq<u8>, cap: nat)
    requires Codes(bits, p, lit, dist, out, cap).Some?
    ensures Decode(bits, p, lit).Some?
  {
    hide Decode;
  }

  lemma AtInside(bits: seq<bit>, p: nat, w: seq<bit>)
    requires At(bits, p, w)
    ensures p + |w| <= |bits|
  {}

  // ----- run-length coded code lengths

  datatype Op =
    | Length(v: nat)
    | RepeatLast(n: nat)
    | Zeros(n: nat)
    | ManyZeros(n: nat)

  function OpSymbol(op: Op): nat {
    match op
    case Length(v) => v
    case RepeatLast(_) => 16
    case Zeros(_) => 17
    case ManyZeros(_) => 18
  }

  function OpExtra(op: Op): seq<bit> {
    match op
    case Length(v) => []
    case RepeatLast(n) => LsbBits(n, 2)
    case Zeros(n) => LsbBits(n, 3)
    case ManyZeros(n) => LsbBits(n, 7)
  }

  predicate OpOk(op: Op, cl: seq<u8>) {
    && HasCode(cl, OpSymbol(op))
    && match op
       case Length(v) => v < 16
       case RepeatLast(n) => n < Pow2(2)
       case Zeros(n) => n < Pow2(3)
       case ManyZeros(n) => n < Pow2(7)
  }

  function OpBits(op: Op, cl: seq<u8>): seq<bit>
    requires OpOk(op, cl)
  {
    CodeBits(cl, OpSymbol(op)) + OpExtra(op)
  }

  /** The value an operation repeats and how often. */
  function OpRun(op: Op, acc: seq<u8>): Option<(u8, nat)> {
    match op
    case Length(v) => if v < 16 then Some((v as u8, 1)) else None
    case RepeatLast(n) => if acc == [] then None else Some((acc[|acc| - 1], 3 + n))
    case Zeros(n) => Some((0, 3 + n))
    case ManyZeros(n) => Some((0, 11 + n))
  }

  predicate OpsOk(ops: seq<Op>, cl: seq<u8>) { forall i :: 0 <= i < |ops| ==> OpOk(ops[i], cl) }

  function OpsBits(ops: seq<Op>, cl: seq<u8>): seq<bit>
    requires OpsOk(ops, cl)
  {
    if ops == [] then [] else OpBits(ops[0], cl) + OpsBits(ops[1..], cl)
  }

  /** The code lengths a list of operations spells out; it must end at exactly `total`. */
  function Spell(ops: seq<Op>, acc: seq<u8>, total: nat): Option<seq<u8>> {
    if |acc| == total then if ops == [] then Some(acc) else None
    else if ops == [] then None
    else match OpRun(ops[0], acc)
      case None => None
      case Some((v, n)) => if |acc| + n > total then None else Spell(ops[1..], acc + Repeated(v, n), total)
  }

  lemma RunAt(bits: seq<bit>, p: nat, cl: seq<u8>, acc: seq<u8>, op: Op)
    requires |cl| == 19 && OpOk(op, cl) && At(bits, p, OpBits(op, cl)) && OpRun(op, acc).Some?
    ensures var (v, n) := OpRun(op, acc).value;
            NextRun(bits, p, cl, acc) == Some(Run(v, n, p + |OpBits(op, cl)|))
  {
    hide CodeBits, HasCode, Decode, At, LsbBits, Number, Pow2;
    var head := CodeBits(cl, OpSymbol(op));
    AtConcat(bits, p, head, OpExtra(op));
    DecodeAt(bits, p, cl, OpSymbol(op));
    match op
    case Length(v) =>
    case RepeatLast(n) => NumberAt(bits, p + |head|, n, 2);
    case Zeros(n) => NumberAt(bits, p + |head|, n, 3);
    case ManyZeros(n) => NumberAt(bits, p + |head|, n, 7);
  }

  lemma AtRun(bits: seq<bit>, p: nat, cl: seq<u8>, acc: seq<u8>) returns (op: Op)
    requires |cl| == 19 && NextRun(bits, p, cl, acc).Some?
    ensures OpOk(op, cl) && At(bits, p, OpBits(op, cl)) && OpRun(op, acc).Some?
    ensures var (v, n) := OpRun(op, acc).value;
            NextRun(bits, p, cl, acc) == Some(Run(v, n, p + |OpBits(op, cl)|))
  {
    hide CodeBits, HasCode, Decode, At, LsbBits, Number, Pow2;
    AtDecoded(bits, p, cl);
    var d := Decode(bits, p, cl).value;
    if d.sym < 16 {
      op := Length(d.sym);
      AtEmpty(bits, d.end);
    } else if d.sym == 16 {
      op := RepeatLast(Number(bits, d.end, 2).value);
      AtNumber(bits, d.end, 2);
    } else if d.sym == 17 {
      op := Zeros(Number(bits, d.end, 3).value);
      AtNumber(bits, d.end, 3);
    } else {
      op := ManyZeros(Number(bits, d.end, 7).value);
      AtNumber(bits, d.end, 7);
    }
    AtConcat(bits, p, CodeBits(cl, OpSymbol(op)), OpExtra(op));
  }

  lemma AtEmpty(bits: seq<bit>, p: nat)
    requires p <= |bits|
    ensures At(bits, p, [])
  {}

  lemma {:induction false} RunsComplete(bits: seq<bit>, p: nat, cl: seq<u8>, acc: seq<u8>, total: nat, ops: seq<Op>)
    requires |cl| == 19 && |acc| <= total && p <= |bits|
    requires OpsOk(ops, cl) && At(bits, p, OpsBits(ops, cl)) && Spell(ops, acc, total).Some?
    ensures Runs(bits, p, cl, acc, total) == Some(Progress(Spell(ops, acc, total).value, p + |OpsBits(ops, cl)|))
    decreases |ops|
  {
    hide OpBits, OpOk, At, NextRun, OpRun, Repeated;
    if |acc| < total {
      var rest := ops[1..];
      AtConcat(bits, p, OpBits(ops[0], cl), OpsBits(rest, cl));
      RunAt(bits, p, cl, acc, ops[0]);
      var (v, n) := OpRun(ops[0], acc).value;
      AtInside(bits, p, OpBits(ops[0], cl));
      RunsComplete(bits, p + |OpBits(ops[0], cl)|, cl, acc + Repeated(v, n), total, rest);
    }
  }

  lemma ConsOp(op: Op, rest: seq<Op>, cl: seq<u8>, acc: seq<u8>, total: nat)
    requires OpOk(op, cl) && OpsOk(rest, cl) && |acc| < total && OpRun(op, acc).Some?
    requires |acc| + OpRun(op, acc).value.1 <= total
    ensures OpsOk([op] + rest, cl) && OpsBits([op] + rest, cl) == OpBits(op, cl) + OpsBits(rest, cl)
    ensures var (v, n) := OpRun(op, acc).value;
            Spell([op] + rest, acc, total) == Spell(rest, acc + Repeated(v, n), total)
  {
    hide OpOk, OpBits, OpRun, Repeated;
    var ops := [op] + rest;
    assert ops[0] == op && ops[1..] == rest;
  }

  lemma {:induction false} RunsSound(bits: seq<bit>, p: nat, cl: seq<u8>, acc: seq<u8>, total: nat) returns (ops: seq<Op>)
    requires |cl| == 19 && |acc| <= total && p <= |bits| && Runs(bits, p, cl, acc, total).Some?
    ensures OpsOk(ops, cl) && At(bits, p, OpsBits(ops, cl)) && Spell(ops, acc, total).Some?
    ensures Runs(bits, p, cl, acc, total) == Some(Progress(Spell(ops, acc, total).value, p + |OpsBits(ops, cl)|))
    decreases |bits| - p
  {
    hide OpBits, OpOk, At, NextRun, OpRun, Repeated;
    if |acc| == total {
      ops := [];
      AtEmpty(bits, p);
    } else {
      var op := AtRun(bits, p, cl, acc);
      var (v, n) := OpRun(op, acc).value;
      AtInside(bits, p, OpBits(op, cl));
      var rest := RunsSound(bits, p + |OpBits(op, cl)|, cl, acc + Repeated(v, n), total);
      ops := [op] + rest;
      ConsOp(op, rest, cl, acc, total);
      AtConcat(bits, p, OpBits(op, cl), OpsBits(rest, cl));
    }
  }

  // ----- the header of a dynamic block

  datatype Header = Header(hlit: nat, hdist: nat, cl: seq<u8>, ops: seq<Op>)

  /** The code-length code's lengths, placed in the standard's order. */
  function ClPlaced(cl: seq<u8>, i: nat, v: seq<u8>): (r: seq<u8>)
    requires i <= |cl| <= 19 && |v| == 19
    ensures |r| == 19
    decreases |cl| - i
  {
    if i == |cl| then v else ClPlaced(cl, i + 1, v[Order(i) as nat := cl[i]])
  }

  function ClCode(cl: seq<u8>): (r: seq<u8>)
    requires |cl| <= 19
    ensures |r| == 19
  {
    ClPlaced(cl, 0, Repeated(0, 19))
  }

  function ClBits(cl: seq<u8>, i: nat): seq<bit>
    requires i <= |cl|
    decreases |cl| - i
  {
    if i == |cl| then [] else LsbBits(cl[i] as nat, 3) + ClBits(cl, i + 1)
  }

  predicate ThreeBitValues(cl: seq<u8>) { forall i :: 0 <= i < |cl| ==> cl[i] as nat < Pow2(3) }

  lemma {:induction false} ClComplete(bits: seq<bit>, p: nat, cl: seq<u8>, i: nat, v: seq<u8>)
    requires i <= |cl| <= 19 && |v| == 19 && p <= |bits| && ThreeBitValues(cl) && At(bits, p, ClBits(cl, i))
    ensures ClLengths(bits, p, i, |cl|, v) == Some(Progress(ClPlaced(cl, i, v), p + |ClBits(cl, i)|))
    decreases |cl| - i
  {
    hide LsbBits, At, Number, Pow2, Order;
    if i < |cl| {
      var b := LsbBits(cl[i] as nat, 3);
      AtConcat(bits, p, b, ClBits(cl, i + 1));
      NumberAt(bits, p, cl[i] as nat, 3);
      AtInside(bits, p, b);
      ClComplete(bits, p + 3, cl, i + 1, v[Order(i) as nat := cl[i]]);
    }
  }

  /** The values read so far, `cl[..i]`, extended by those still to be read. */
  lemma {:induction false} ClSound(bits: seq<bit>, p: nat, front: seq<u8>, n: nat, v: seq<u8>) returns (cl: seq<u8>)
    requires |front| <= n <= 19 && |v| == 19 && p <= |bits| && ThreeBitValues(front)
    requires ClLengths(bits, p, |front|, n, v).Some?
    ensures |cl| == n && front <= cl && ThreeBitValues(cl) && At(bits, p, ClBits(cl, |front|))
    ensures ClLengths(bits, p, |front|, n, v) == Some(Progress(ClPlaced(cl, |front|, v), p + |ClBits(cl, |front|)|))
    decreases n - |front|
  {
    hide LsbBits, At, Number, Pow2, Order;
    var i := |front|;
    if i == n {
      cl := front;
      AtEmpty(bits, p);
    } else {
      var x := Number(bits, p, 3).value;
      AtNumber(bits, p, 3);
      ThreeBitsByte(x);
      cl := ClSound(bits, p + 3, front + [x as u8], n, v[Order(i) as nat := x as u8]);
      assert cl[i] == (front + [x as u8])[i];
      AtConcat(bits, p, LsbBits(x, 3), ClBits(cl, i + 1));
    }
  }

  lemma ThreeBitsByte(x: nat)
    requires x < Pow2(3)
    ensures x < 8
  {}

  predicate HeaderOk(h: Header) {
    && h.hlit <= 29 && h.hdist <= 29 && 4 <= |h.cl| <= 19 && ThreeBitValues(h.cl)
    && OpsOk(h.ops, ClCode(h.cl)) && Spell(h.ops, [], h.hlit + 257 + (h.hdist + 1)).Some?
  }

  function HeaderBits(h: Header): seq<bit>
    requires HeaderOk(h)
  {
    LsbBits(h.hlit, 5) + (LsbBits(h.hdist, 5) + (LsbBits(|h.cl| - 4, 4) + (ClBits(h.cl, 0) + OpsBits(h.ops, ClCode(h.cl)))))
  }

  lemma {:induction false} SpellLength(ops: seq<Op>, acc: seq<u8>, total: nat)
    requires Spell(ops, acc, total).Some?
    ensures |Spell(ops, acc, total).value| == total
    decreases |ops|
  {
    if |acc| != total {
      var (v, n) := OpRun(ops[0], acc).value;
      SpellLength(ops[1..], acc + Repeated(v, n), total);
    }
  }

  /** The two code-length vectors a header stands for. */
  function HeaderCodes(h: Header): Codebook
    requires HeaderOk(h)
  {
    SpellLength(h.ops, [], h.hlit + 257 + (h.hdist + 1));
    var l := Spell(h.ops, [], h.hlit + 257 + (h.hdist + 1)).value;
    Codebook(l[..h.hlit + 257], l[h.hlit + 257..])
  }

  lemma FieldLimits()
    ensures Pow2(5) == 32 && Pow2(4) == 16
  {}

  lemma HeaderComplete(bits: seq<bit>, p: nat, h: Header)
    requires HeaderOk(h) && At(bits, p, HeaderBits(h))
    ensures DynamicHeader(bits, p) == Some(Progress(HeaderCodes(h), p + |HeaderBits(h)|))
  {
    hide LsbBits, At, Pow2, ClLengths, Runs, Spell, OpsOk, OpsBits, ClBits, ClCode, ThreeBitValues, Lsb;
    FieldLimits();
    var a, b, c := LsbBits(h.hlit, 5), LsbBits(h.hdist, 5), LsbBits(|h.cl| - 4, 4);
    var d, e := ClBits(h.cl, 0), OpsBits(h.ops, ClCode(h.cl));
    AtConcat(bits, p, a, b + (c + (d + e)));
    AtConcat(bits, p + 5, b, c + (d + e));
    AtConcat(bits, p + 10, c, d + e);
    AtConcat(bits, p + 14, d, e);
    NumberAt(bits, p, h.hlit, 5);
    NumberAt(bits, p + 5, h.hdist, 5);
    NumberAt(bits, p + 10, |h.cl| - 4, 4);
    AtInside(bits, p + 10, c);
    ClCodeAt(bits, p + 14, h.cl);
    AtInside(bits, p + 14, d);
    RunsComplete(bits, p + 14 + |d|, ClCode(h.cl), [], h.hlit + 257 + (h.hdist + 1), h.ops);
  }

  lemma ClCodeAt(bits: seq<bit>, p: nat, cl: seq<u8>)
    requires 4 <= |cl| <= 19 && p <= |bits| && ThreeBitValues(cl) && At(bits, p, ClBits(cl, 0))
    ensures ClLengths(bits, p, 0, |cl|, Repeated(0, 19)) == Some(Progress(ClCode(cl), p + |ClBits(cl, 0)|))
  {
    ClComplete(bits, p, cl, 0, Repeated(0, 19));
  }

  lemma HeaderSound(bits: seq<bit>, p: nat) returns (h: Header)
    requires DynamicHeader(bits, p).Some?
    ensures HeaderOk(h) && At(bits, p, HeaderBits(h))
    ensures DynamicHeader(bits, p) == Some(Progress(HeaderCodes(h), p + |HeaderBits(h)|))
  {
    hide LsbBits, At, Pow2, ClLengths, Runs, Spell, OpsOk, OpsBits, ClBits, ClPlaced, Lsb, ThreeBitValues, Repeated;
    FieldLimits();
    AtNumber(bits, p, 5);
    AtNumber(bits, p + 5, 5);
    AtNumber(bits, p + 10, 4);
    var hlit, hdist, hclen := Number(bits, p, 5).value, Number(bits, p + 5, 5).value, Number(bits, p + 10, 4).value;
    NoThreeBitValues();
    var cl := ClSound(bits, p + 14, [], hclen + 4, Repeated(0, 19));
    var q := p + 14 + |ClBits(cl, 0)|;
    var ops := RunsSound(bits, q, ClCode(cl), [], hlit + 257 + (hdist + 1));
    h := Header(hlit, hdist, cl, ops);
    var a, b, c := LsbBits(hlit, 5), LsbBits(hdist, 5), LsbBits(hclen, 4);
    var d, e := ClBits(cl, 0), OpsBits(ops, ClCode(cl));
    AtConcat(bits, p + 14, d, e);
    AtConcat(bits, p + 10, c, d + e);
    AtConcat(bits, p + 5, b, c + (d + e));
    AtConcat(bits, p, a, b + (c + (d + e)));
  }

  lemma NoThreeBitValues()
    ensures ThreeBitValues([])
  {}

  // ----- blocks

  /** `pad` and `nlen` are the bits the decoder skips: up to the byte boundary, and the
      complement of the length, which it does not check. */
  datatype Block =
    | StoredBlock(pad: seq<bit>, nlen: seq<bit>, bytes: seq<u8>)
    | FixedBlock(ts: seq<Token>)
    | DynamicBlock(h: Header, ts: seq<Token>)

  function Kind(b: Block): nat {
    match b
    case StoredBlock(_, _, _) => 0
    case FixedBlock(_) => 1
    case DynamicBlock(_, _) => 2
  }

  function BytesBits(bytes: seq<u8>): (w: seq<bit>)
    ensures |w| == 8 * |bytes|
  {
    if bytes == [] then [] else LsbBits(bytes[0] as nat, 8) + BytesBits(bytes[1..])
  }

  /** The block is well formed when it starts at bit p. */
  ghost predicate BlockOk(b: Block, p: nat) {
    match b
    case StoredBlock(pad, nlen, bytes) => |pad| == Aligned(p) - p && |nlen| == 16 && |bytes| < Pow2(16)
    case FixedBlock(ts) => TokensOk(ts, FixedLit(), FixedDist())
    case DynamicBlock(h, ts) => HeaderOk(h) && TokensOk(ts, HeaderCodes(h).lit, HeaderCodes(h).dist)
  }

  ghost function BlockBits(b: Block, p: nat): seq<bit>
    requires BlockOk(b, p)
  {
    match b
    case StoredBlock(pad, nlen, bytes) => pad + (LsbBits(|bytes|, 16) + (nlen + BytesBits(bytes)))
    case FixedBlock(ts) => TokensBits(ts, FixedLit(), FixedDist())
    case DynamicBlock(h, ts) => HeaderBits(h) + TokensBits(ts, HeaderCodes(h).lit, HeaderCodes(h).dist)
  }

  function ExpandBlock(b: Block, out: seq<u8>): (r: Option<seq<u8>>)
    ensures r.Some? ==> |out| <= |r.value|
  {
    match b
    case StoredBlock(_, _, bytes) => Some(out + bytes)
    case FixedBlock(ts) => Expand(ts, out)
    case DynamicBlock(_, ts) => Expand(ts, out)
  }

  lemma ByteNumber(bits: seq<bit>, q: nat, b: u8)
    requires q + 8 <= |bits|
    ensures ByteAt(bits, q) == b <==> At(bits, q, LsbBits(b as nat, 8))
  {
    assert Pow2(8) == 0x100;
    hide Lsb, LsbBits, Pow2;
    NumberAt(bits, q, b as nat, 8);
  }

  lemma {:induction false} BytesAtIff(bits: seq<bit>, q: nat, bytes: seq<u8>)
    requires q + 8 * |bytes| <= |bits|
    ensures BytesAt(bits, q, |bytes|) == bytes <==> At(bits, q, BytesBits(bytes))
    decreases |bytes|
  {
    hide Lsb, LsbBits, Pow2, ByteAt, At;
    if bytes == [] {
      AtEmpty(bits, q);
    } else {
      var rest := bytes[1..];
      BytesAtIff(bits, q + 8, rest);
      ByteNumber(bits, q, bytes[0]);
      AtConcat(bits, q, LsbBits(bytes[0] as nat, 8), BytesBits(rest));
      BytesAtStep(bits, q, |bytes|);
      assert bytes == [bytes[0]] + rest;
    }
  }

  lemma BytesAtStep(bits: seq<bit>, q: nat, n: nat)
    requires n > 0 && q + 8 * n <= |bits|
    ensures BytesAt(bits, q, n) == [ByteAt(bits, q)] + BytesAt(bits, q + 8, n - 1)
  {
    hide ByteAt;
    forall k: nat | k < n
      ensures BytesAt(bits, q, n)[k] == ([ByteAt(bits, q)] + BytesAt(bits, q + 8, n - 1))[k]
    {
      if k > 0 {
        assert q + 8 * k == (q + 8) + 8 * (k - 1);
      }
    }
  }

  lemma StoredComplete(bits: seq<bit>, p: nat, b: Block, out: seq<u8>, cap: nat)
    requires b.StoredBlock? && BlockOk(b, p) && At(bits, p, BlockBits(b, p)) && |out| + |b.bytes| <= cap
    ensures Stored(bits, p, out, cap) == Some(Progress(out + b.bytes, p + |BlockBits(b, p)|))
  {
    hide At, LsbBits, BytesBits, BytesAt, Aligned, Lsb, Pow2;
    var q := Aligned(p);
    var len, data := LsbBits(|b.bytes|, 16), BytesBits(b.bytes);
    AtConcat(bits, p, b.pad, len + (b.nlen + data));
    AtConcat(bits, q, len, b.nlen + data);
    AtConcat(bits, q + 16, b.nlen, data);
    NumberAt(bits, q, |b.bytes|, 16);
    AtInside(bits, q + 32, data);
    BytesAtIff(bits, q + 32, b.bytes);
  }

  lemma StoredSound(bits: seq<bit>, p: nat, out: seq<u8>, cap: nat) returns (b: Block)
    requires Stored(bits, p, out, cap).Some?
    ensures b.StoredBlock? && BlockOk(b, p) && At(bits, p, BlockBits(b, p))
    ensures Stored(bits, p, out, cap) == Some(Progress(out + b.bytes, p + |BlockBits(b, p)|))
  {
    hide At, LsbBits, BytesBits, BytesAt, Aligned, Lsb, Pow2;
    var q := Aligned(p);
    var n := Lsb(bits[q..q + 16]);
    AtNumber(bits, q, 16);
    b := StoredBlock(bits[p..q], bits[q + 16..q + 32], BytesAt(bits, q + 32, n));
    BytesAtIff(bits, q + 32, b.bytes);
    AtSelf(bits, p, q);
    AtSelf(bits, q + 16, q + 32);
    AtConcat(bits, q + 16, b.nlen, BytesBits(b.bytes));
    AtConcat(bits, q, LsbBits(n, 16), b.nlen + BytesBits(b.bytes));
    AtConcat(bits, p, b.pad, LsbBits(n, 16) + (b.nlen + BytesBits(b.bytes)));
  }

  lemma AtSelf(bits: seq<bit>, p: nat, q: nat)
    requires p <= q <= |bits|
    ensures At(bits, p, bits[p..q])
  {}

  lemma BlockComplete(bits: seq<bit>, p: nat, b: Block, out: seq<u8>, cap: nat)
    requires |out| <= cap && BlockOk(b, p) && At(bits, p, BlockBits(b, p))
    requires ExpandBlock(b, out).Some? && |ExpandBlock(b, out).value| <= cap
    ensures InflateSpec.Block(bits, p, Kind(b), out, cap)
            == Some(Progress(ExpandBlock(b, out).value, p + |BlockBits(b, p)|))
  {
    hide At, TokensOk, TokensBits, Codes, DynamicHeader, Stored, HeaderOk, HeaderBits, HeaderCodes;
    hide FixedLit, FixedDist, Expand, LsbBits, BytesBits, Aligned;
    match b
    case StoredBlock(_, _, _) => StoredComplete(bits, p, b, out, cap);
    case FixedBlock(ts) => CodesComplete(bits, p, FixedLit(), FixedDist(), out, cap, ts);
    case DynamicBlock(h, ts) =>
      var c := HeaderCodes(h);
      AtConcat(bits, p, HeaderBits(h), TokensBits(ts, c.lit, c.dist));
      HeaderComplete(bits, p, h);
      CodesComplete(bits, p + |HeaderBits(h)|, c.lit, c.dist, out, cap, ts);
  }

  lemma BlockSound(bits: seq<bit>, p: nat, kind: nat, out: seq<u8>, cap: nat) returns (b: Block)
    requires |out| <= cap && InflateSpec.Block(bits, p, kind, out, cap).Some?
    ensures Kind(b) == kind && BlockOk(b, p) && At(bits, p, BlockBits(b, p)) && ExpandBlock(b, out).Some?
    ensures InflateSpec.Block(bits, p, kind, out, cap)
            == Some(Progress(ExpandBlock(b, out).value, p + |BlockBits(b, p)|))
  {
    hide At, TokensOk, TokensBits, Codes, DynamicHeader, Stored, HeaderOk, HeaderBits, HeaderCodes;
    hide FixedLit, FixedDist, Expand, LsbBits, BytesBits, Aligned;
    if kind == 0 {
      b := StoredSound(bits, p, out, cap);
    } else if kind == 1 {
      var ts := CodesSound(bits, p, FixedLit(), FixedDist(), out, cap);
      b := FixedBlock(ts);
    } else {
      var h := HeaderSound(bits, p);
      var c := HeaderCodes(h);
      var ts := CodesSound(bits, p + |HeaderBits(h)|, c.lit, c.dist, out, cap);
      b := DynamicBlock(h, ts);
      AtConcat(bits, p, HeaderBits(h), TokensBits(ts, c.lit, c.dist));
    }
  }

  // ----- whole streams

  /** The position after block `b` whose three header bits start at p. */
  ghost function After(b: Block, p: nat): nat
    requires BlockOk(b, p + 3)
  {
    p + 3 + |BlockBits(b, p + 3)|
  }

  ghost predicate StreamOk(bs: seq<Block>, p: nat)
    decreases |bs|
  {
    && bs != [] && BlockOk(bs[0], p + 3)
    && (|bs| > 1 ==> StreamOk(bs[1..], After(bs[0], p)))
  }

  ghost function LastMark(bs: seq<Block>): seq<bit> { [if |bs| == 1 then 1 else 0] }

  /** The encoding of a list of blocks; only the last one is marked last. */
  ghost function StreamBits(bs: seq<Block>, p: nat): seq<bit>
    requires StreamOk(bs, p)
    decreases |bs|
  {
    LastMark(bs) + (LsbBits(Kind(bs[0]), 2) + (BlockBits(bs[0], p + 3) + RestBits(bs, p)))
  }

  ghost function RestBits(bs: seq<Block>, p: nat): seq<bit>
    requires StreamOk(bs, p)
    decreases |bs|, 0
  {
    if |bs| == 1 then [] else StreamBits(bs[1..], After(bs[0], p))
  }

  function ExpandBlocks(bs: seq<Block>, out: seq<u8>): (r: Option<seq<u8>>)
    ensures r.Some? ==> |out| <= |r.value|
  {
    if bs == [] then Some(out)
    else match ExpandBlock(bs[0], out)
      case None => None
      case Some(o) => ExpandBlocks(bs[1..], o)
  }

  lemma KindBits(b: Block)
    ensures Kind(b) < Pow2(2)
  {}

  /** One block of the decoder, with its marks. */
  lemma BlocksStep(bits: seq<bit>, p: nat, b: Block, last: bit, out: seq<u8>, cap: nat)
    requires |out| <= cap && BlockOk(b, p + 3)
    requires At(bits, p, [last]) && At(bits, p + 1, LsbBits(Kind(b), 2)) && At(bits, p + 3, BlockBits(b, p + 3))
    requires ExpandBlock(b, out).Some? && |ExpandBlock(b, out).value| <= cap
    ensures Blocks(bits, p, out, cap)
            == if last == 1 then Some(ExpandBlock(b, out).value)
               else Blocks(bits, After(b, p), ExpandBlock(b, out).value, cap)
  {
    hide At, LsbBits, BlockOk, BlockBits, ExpandBlock, InflateSpec.Block, Lsb, Pow2, Kind;
    MarkAt(bits, p, last);
    KindBits(b);
    NumberAt(bits, p + 1, Kind(b), 2);
    BlockComplete(bits, p + 3, b, out, cap);
    AtInside(bits, p + 1, LsbBits(Kind(b), 2));
  }

  lemma MarkAt(bits: seq<bit>, p: nat, last: bit)
    requires At(bits, p, [last])
    ensures p < |bits| && bits[p] == last
  {
    assert bits[p..p + 1][0] == bits[p];
  }

  lemma SplitStream(bits: seq<bit>, bs: seq<Block>, p: nat)
    requires StreamOk(bs, p)
    ensures At(bits, p, StreamBits(bs, p)) <==>
      && At(bits, p, LastMark(bs)) && At(bits, p + 1, LsbBits(Kind(bs[0]), 2))
      && At(bits, p + 3, BlockBits(bs[0], p + 3)) && At(bits, After(bs[0], p), RestBits(bs, p))
  {
    hide At, LsbBits, BlockOk, BlockBits, RestBits;
    var a, b, c, d := LastMark(bs), LsbBits(Kind(bs[0]), 2), BlockBits(bs[0], p + 3), RestBits(bs, p);
    AtConcat(bits, p, a, b + (c + d));
    AtConcat(bits, p + 1, b, c + d);
    AtConcat(bits, p + 3, c, d);
  }

  lemma {:induction false} BlocksComplete(bits: seq<bit>, p: nat, bs: seq<Block>, out: seq<u8>, cap: nat)
    requires |out| <= cap && StreamOk(bs, p) && At(bits, p, StreamBits(bs, p))
    requires ExpandBlocks(bs, out).Some? && |ExpandBlocks(bs, out).value| <= cap
    ensures Blocks(bits, p, out, cap) == ExpandBlocks(bs, out)
    decreases |bs|
  {
    hide At, LsbBits, BlockOk, BlockBits, ExpandBlock, Blocks;
    SplitStream(bits, bs, p);
    BlocksStep(bits, p, bs[0], LastMark(bs)[0], out, cap);
    if |bs| > 1 {
      BlocksComplete(bits, After(bs[0], p), bs[1..], ExpandBlock(bs[0], out).value, cap);
    } else {
      assert bs[1..] == [];
    }
  }

  /** The first block the decoder reads. */
  lemma FirstBlock(bits: seq<bit>, p: nat, out: seq<u8>, cap: nat) returns (b: Block)
    requires |out| <= cap && Blocks(bits, p, out, cap).Some?
    ensures p < |bits| && BlockOk(b, p + 3) && At(bits, p, [bits[p]]) && At(bits, p + 1, LsbBits(Kind(b), 2))
    ensures At(bits, p + 3, BlockBits(b, p + 3)) && After(b, p) <= |bits|
    ensures ExpandBlock(b, out).Some? && |ExpandBlock(b, out).value| <= cap
  {
    hide At, LsbBits, BlockOk, BlockBits, ExpandBlock, InflateSpec.Block, Lsb, Pow2;
    b := BlockSound(bits, p + 3, Lsb(bits[p + 1..p + 3]), out, cap);
    AtNumber(bits, p + 1, 2);
    assert bits[p..p + 1] == [bits[p]];
    AtSelf(bits, p, p + 1);
    AtInside(bits, p + 3, BlockBits(b, p + 3));
  }

  lemma {:induction false} BlocksSound(bits: seq<bit>, p: nat, out: seq<u8>, cap: nat) returns (bs: seq<Block>)
    requires |out| <= cap && Blocks(bits, p, out, cap).Some?
    ensures StreamOk(bs, p) && At(bits, p, StreamBits(bs, p))
    ensures ExpandBlocks(bs, out) == Blocks(bits, p, out, cap)
    decreases |bits| - p
  {
    hide At, LsbBits, BlockOk, BlockBits, ExpandBlock, Blocks, StreamBits;
    var b := FirstBlock(bits, p, out, cap);
    BlocksStep(bits, p, b, bits[p], out, cap);
    if bits[p] == 1 {
      bs := [b];
      assert bs[1..] == [];
      AtEmpty(bits, After(b, p));
    } else {
      var rest := BlocksSound(bits, After(b, p), ExpandBlock(b, out).value, cap);
      bs := [b] + rest;
      assert bs[1..] == rest;
    }
    SplitStream(bits, bs, p);
  }

  /** Some well-formed blocks, encoded, begin the source, and expand to `out`. */
  ghost predicate Encodes(src: seq<u8>, bs: seq<Block>, out: seq<u8>) {
    StreamOk(bs, 0) && At(Stream(src), 0, StreamBits(bs, 0)) && ExpandBlocks(bs, []) == Some(out)
  }

  /** The decoder accepts exactly the encodings of block lists whose expansion fills the
      destination, and returns that expansion. */
  lemma InflatedIffEncodes(src: seq<u8>, cap: nat, out: seq<u8>)
    ensures Inflated(src, cap) == Some(out) <==> |out| == cap && exists bs :: Encodes(src, bs, out)
  {
    hide Stream, StreamBits, StreamOk, ExpandBlocks, Blocks, At;
    var bits := Stream(src);
    if Inflated(src, cap) == Some(out) {
      var bs := BlocksSound(bits, 0, [], cap);
      assert Encodes(src, bs, out);
    }
    if |out| == cap && exists bs :: Encodes(src, bs, out) {
      var bs :| Encodes(src, bs, out);
      BlocksComplete(bits, 0, bs, [], cap);
    }
  }

  // ----- from blocks to bytes and back

  /** Packs bits into bytes, padding the last one with zeros. */
  ghost function Pack(w: seq<bit>): seq<u8> {
    if w == [] then []
    else if |w| <= 8 then [PackByte(w)]
    else [PackByte(w[..8])] + Pack(w[8..])
  }

  ghost function PackByte(w: seq<bit>): u8
    requires |w| <= 8
  {
    LsbBound(w);
    Pow2Monotone(|w|, 8);
    assert Pow2(8) == 0x100;
    Lsb(w)
  }

  lemma {:induction false} PackedBit(w: seq<bit>, k: nat)
    requires |w| <= 8 && k < |w|
    ensures BitOf(PackByte(w), k) == w[k]
  {
    LsbHalf(w);
    assert PackByte(w) == Lsb(w) && PackByte(w[1..]) == Lsb(w[1..]);
    if k == 0 {
      assert Pow2(0) == 1;
    } else {
      assert Pow2(k) == 2 * Pow2(k - 1);
      hide Lsb, Pow2, PackByte;
      PackedBit(w[1..], k - 1);
      ShiftDivide(Lsb(w), Pow2(k - 1));
    }
  }

  lemma LsbHalf(w: seq<bit>)
    requires w != []
    ensures Lsb(w) / 2 == Lsb(w[1..]) && Lsb(w) % 2 == w[0]
  {}

  lemma ShiftDivide(x: nat, p: nat)
    requires p > 0
    ensures x / (2 * p) == x / 2 / p
  {
    var y := x / 2;
    var q, r := y / p, y % p;
    assert x == 2 * (q * p + r) + x % 2;
    assert 2 * (q * p) == q * (2 * p);
    DivModUnique(x, 2 * p, q, 2 * r + x % 2);
  }

  lemma {:induction false} PackedStream(w: seq<bit>, k: nat)
    requires k < |w|
    ensures k < |Stream(Pack(w))| && Stream(Pack(w))[k] == w[k]
    decreases |w|
  {
    hide Pow2, Lsb;
    var src := Pack(w);
    if |w| <= 8 {
      PackedBit(w, k);
    } else if k < 8 {
      PackedBit(w[..8], k);
    } else {
      PackedStream(w[8..], k - 8);
      assert src[1..] == Pack(w[8..]);
      assert (k - 8) / 8 == k / 8 - 1 && (k - 8) % 8 == k % 8;
      assert src[k / 8] == src[1..][k / 8 - 1];
    }
  }

  /** Encoding any well-formed blocks and inflating the bytes gives the blocks' meaning. */
  lemma RoundTrip(bs: seq<Block>, out: seq<u8>)
    requires StreamOk(bs, 0) && ExpandBlocks(bs, []) == Some(out)
    ensures Inflated(Pack(StreamBits(bs, 0)), |out|) == Some(out)
  {
    hide Stream, StreamBits, StreamOk, ExpandBlocks, Pack, Inflated;
    var w := StreamBits(bs, 0);
    var src := Pack(w);
    if w != [] {
      PackedStream(w, |w| - 1);
    }
    forall k | 0 <= k < |w|
      ensures Stream(src)[k] == w[k]
    {
      PackedStream(w, k);
    }
    PrefixAt(Stream(src), w);
    assert Encodes(src, bs, out);
    InflatedIffEncodes(src, |out|, out);
  }

  lemma PrefixAt(bits: seq<bit>, w: seq<bit>)
    requires |w| <= |bits| && forall k :: 0 <= k < |w| ==> bits[k] == w[k]
    ensures At(bits, 0, w)
  {
    assert bits[0..|w|] == w;
  }
}
