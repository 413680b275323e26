/** 256-bit integers in eight 32-bit limbs, least significant first (re-crypto, bn.hpp):
    addition, subtraction, masked selection, modular addition and subtraction, shifting,
    comparison, and reduction of octet strings. */
module Bignum {
  import opened Words
  import opened Arith
  import opened ModArith

  const LIMBS: int := 8
  /** 2^256. */
  const R: int := Pow(8)
  const ONES: u32 := 0xffff_ffff

  /** The integer a little-endian limb sequence stands for. */
  ghost function Val(s: seq<u32>): (v: nat)
  {
    if s == [] then 0 else Val(s[..|s| - 1]) + s[|s| - 1] * Pow(|s| - 1)
  }

  lemma ValSnoc(s: seq<u32>, i: nat)
    requires i < |s|
    ensures Val(s[..i + 1]) == Val(s[..i]) + s[i] * Pow(i)
  {
    assert s[..i + 1][..i] == s[..i];
  }

  lemma {:induction false} ValBound(s: seq<u32>)
    ensures 0 <= Val(s) < Pow(|s|)
  {
    if s != [] {
      var n := |s| - 1;
      ValBound(s[..n]);
      MulBound(s[n], B - 1, Pow(n));
    }
  }

  lemma MulBound(x: int, y: int, p: nat)
    requires 0 <= x <= y
    ensures 0 <= x * p <= y * p
  {}

  lemma ValAppend(low: seq<u32>, limb: u32)
    ensures Val(low + [limb]) == Val(low) + limb * Pow(|low|)
  {
    assert (low + [limb])[..|low|] == low;
  }

  /** One limb of a carry chain: low limbs plus carry make `v`, and `v + w * Pow` continues. */
  lemma ChainStep(low: seq<u32>, limb: u32, carryIn: int, carryOut: int, v: int, w: int)
    requires Val(low) + carryIn * Pow(|low|) == v
    requires w + carryIn == limb + carryOut * B
    ensures Val(low + [limb]) + carryOut * Pow(|low| + 1) == v + w * Pow(|low|)
  {
    ValAppend(low, limb);
    var p := Pow(|low|);
    assert Pow(|low| + 1) == B * p;
    hide Val, Pow;
    ChainAlgebra(limb, carryIn, carryOut, w, p);
  }

  lemma ChainAlgebra(limb: int, carryIn: int, carryOut: int, w: int, p: int)
    requires w + carryIn == limb + carryOut * B
    ensures limb * p + carryOut * (B * p) == w * p + carryIn * p
  {
    assert (limb + carryOut * B) * p == limb * p + carryOut * (B * p);
    assert (w + carryIn) * p == w * p + carryIn * p;
  }

  /** r = a + b, returns the carry; `r` may be one of the operands. */
  method Add(r: array<u32>, a: array<u32>, b: array<u32>) returns (carry: u32)
    requires r.Length == a.Length == b.Length == LIMBS
    modifies r
    ensures carry <= 1 && Val(r[..]) + carry * R == Val(old(a[..])) + Val(old(b[..]))
  {
    hide Val, Pow;
    ghost var x, y := a[..], b[..];
    NoLimbs(r[..0], x[..0], y[..0]);
    carry := 0;
    for i := 0 to LIMBS
      invariant carry <= 1
      invariant Val(r[..i]) + carry * Pow(i) == Val(x[..i]) + Val(y[..i])
      invariant a[i..] == x[i..] && b[i..] == y[i..]
    {
      ghost var low, c := r[..i], carry;
      assert a[i] == x[i..][0] && b[i] == y[i..][0];
      var v: u64 := a[i] + b[i] + carry;
      var limb: u32 := v % B;
      r[i] := limb;
      carry := v / B;
      AddStep(x, y, i, low, limb, c, carry);
      assert r[..i + 1] == low + [limb];
      assert a[i + 1..] == x[i..][1..] && b[i + 1..] == y[i..][1..];
    }
    assert x[..LIMBS] == x && y[..LIMBS] == y && r[..LIMBS] == r[..];
  }

  lemma NoLimbs(r: seq<u32>, x: seq<u32>, y: seq<u32>)
    requires |r| == |x| == |y| == 0
    ensures Val(r) == Val(x) == Val(y) == 0
  {}

  lemma AddStep(x: seq<u32>, y: seq<u32>, i: nat, low: seq<u32>, limb: u32, c: int, carry: int)
    requires i < |x| == |y| && |low| == i
    requires Val(low) + c * Pow(i) == Val(x[..i]) + Val(y[..i])
    requires x[i] + y[i] + c == limb + carry * B
    ensures Val(low + [limb]) + carry * Pow(i + 1) == Val(x[..i + 1]) + Val(y[..i + 1])
  {
    hide Val;
    ChainStep(low, limb, c, carry, Val(x[..i]) + Val(y[..i]), x[i] as int + y[i] as int);
    ValSnoc(x, i);
    ValSnoc(y, i);
    MulSub(x[i], -(y[i] as int), Pow(i));
  }

  /** r = a - b, returns the borrow; the 64-bit subtraction wraps. */
  method Sub(r: array<u32>, a: array<u32>, b: array<u32>) returns (borrow: u32)
    requires r.Length == a.Length == b.Length == LIMBS
    modifies r
    ensures borrow <= 1 && Val(r[..]) == Val(old(a[..])) - Val(old(b[..])) + borrow * R
  {
    hide Val, Pow;
    ghost var x, y := a[..], b[..];
    NoLimbs(r[..0], x[..0], y[..0]);
    borrow := 0;
    for i := 0 to LIMBS
      invariant borrow <= 1
      invariant Val(r[..i]) == Val(x[..i]) - Val(y[..i]) + borrow * Pow(i)
      invariant a[i..] == x[i..] && b[i..] == y[i..]
    {
      ghost var low, c := r[..i], borrow;
      assert a[i] == x[i..][0] && b[i] == y[i..][0];
      var v: u64 := (a[i] - b[i] - borrow) % 0x1_0000_0000_0000_0000;
      var limb: u32 := v % B;
      r[i] := limb;
      borrow := (v / B) % 2;
      WrapBorrow(x[i], y[i], c);
      SubStep(x, y, i, low, limb, c, borrow);
      assert r[..i + 1] == low + [limb];
      assert a[i + 1..] == x[i..][1..] && b[i + 1..] == y[i..][1..];
    }
    assert x[..LIMBS] == x && y[..LIMBS] == y && r[..LIMBS] == r[..];
  }

  lemma SubStep(x: seq<u32>, y: seq<u32>, i: nat, low: seq<u32>, limb: u32, c: int, borrow: int)
    requires i < |x| == |y| && |low| == i
    requires Val(low) == Val(x[..i]) - Val(y[..i]) + c * Pow(i)
    requires x[i] - y[i] - c == limb - borrow * B
    ensures Val(low + [limb]) == Val(x[..i + 1]) - Val(y[..i + 1]) + borrow * Pow(i + 1)
  {
    hide Val;
    ChainStep(low, limb, -c, -borrow, Val(x[..i]) - Val(y[..i]), x[i] as int - y[i] as int);
    ValSnoc(x, i);
    ValSnoc(y, i);
    MulSub(x[i], y[i], Pow(i));
  }

  lemma MulSub(x: int, y: int, p: int)
    ensures (x - y) * p == x * p - y * p
  {}

  lemma WrapBorrow(x: u32, y: u32, c: int)
    requires 0 <= c <= 1
    ensures var v := (x - y - c) % 0x1_0000_0000_0000_0000;
            var b := (v / B) % 2;
            b <= 1 && x - y - c == v % B - b * B
  {
    var d := x - y - c;
    if d >= 0 {
      assert d % 0x1_0000_0000_0000_0000 == d;
    } else {
      assert d % 0x1_0000_0000_0000_0000 == d + 0x1_0000_0000_0000_0000;
      assert (d + 0x1_0000_0000_0000_0000) / B == 0xffff_ffff;
    }
  }

  /** Bitwise and. */
  function And(x: nat, y: nat): nat
    decreases x
  {
    if x == 0 || y == 0 then 0 else 2 * And(x / 2, y / 2) + if x % 2 == 1 && y % 2 == 1 then 1 else 0
  }

  /** Bitwise or. */
  function Or(x: nat, y: nat): nat
    decreases x
  {
    if x == 0 then y
    else if y == 0 then x
    else 2 * Or(x / 2, y / 2) + if x % 2 == 1 || y % 2 == 1 then 1 else 0
  }

  /** Bit by bit: both bits, or at least one of them. */
  lemma {:induction false} BitwiseBits(x: nat, y: nat, i: nat)
    ensures And(x, y) / Pow2(i) % 2 == if x / Pow2(i) % 2 == 1 && y / Pow2(i) % 2 == 1 then 1 else 0
    ensures Or(x, y) / Pow2(i) % 2 == if x / Pow2(i) % 2 == 1 || y / Pow2(i) % 2 == 1 then 1 else 0
    decreases i
  {
    var a, o := And(x, y), Or(x, y);
    BitwiseHalves(x, y);
    if i > 0 {
      BitwiseBits(x / 2, y / 2, i - 1);
      Pow2Next(i - 1);
      hide Pow2, And, Or;
      HalfFirst(x, Pow2(i - 1));
      HalfFirst(y, Pow2(i - 1));
      HalfFirst(a, Pow2(i - 1));
      HalfFirst(o, Pow2(i - 1));
    }
  }

  lemma BitwiseHalves(x: nat, y: nat)
    ensures And(x, y) / 2 == And(x / 2, y / 2) && Or(x, y) / 2 == Or(x / 2, y / 2)
    ensures And(x, y) % 2 == (if x % 2 == 1 && y % 2 == 1 then 1 else 0)
    ensures Or(x, y) % 2 == (if x % 2 == 1 || y % 2 == 1 then 1 else 0)
  {
    AndStep(x, y);
    OrStep(x, y);
    hide And, Or;
  }

  lemma AndStep(x: nat, y: nat)
    ensures And(x, y) == 2 * And(x / 2, y / 2) + if x % 2 == 1 && y % 2 == 1 then 1 else 0
  {
    if x == 0 || y == 0 {
      assert And(x / 2, y / 2) == 0;
    }
  }

  lemma OrStep(x: nat, y: nat)
    ensures Or(x, y) == 2 * Or(x / 2, y / 2) + if x % 2 == 1 || y % 2 == 1 then 1 else 0
  {
    if x == 0 || y == 0 {
      assert Or(x / 2, y / 2) == if x == 0 then y / 2 else x / 2;
    }
  }

  lemma HalfFirst(x: nat, m: nat)
    requires m > 0
    ensures x / (2 * m) == x / 2 / m
  {
    var q, r := x / 2 / m, x / 2 % m;
    assert x == q * (2 * m) + (2 * r + x % 2);
    DivModUnique(x, 2 * m, q, 2 * r + x % 2);
  }

  lemma {:induction false} AndOnes(x: nat, n: nat)
    requires x < Pow2(n)
    ensures And(x, Pow2(n) - 1) == x
  {
    if n > 0 && x > 0 {
      Pow2Next(n - 1);
      hide Pow2;
      var y := Pow2(n) - 1;
      assert y / 2 == Pow2(n - 1) - 1 && y % 2 == 1;
      AndOnes(x / 2, n - 1);
      assert x == 2 * (x / 2) + x % 2;
    } else {
      assert n == 0 ==> Pow2(n) == 1;
    }
  }

  /** (r & ~mask) | (v & mask) on one limb. */
  function Select(r: u32, v: u32, mask: u32): nat {
    Or(And(r, ONES - mask), And(v, mask))
  }

  lemma SelectMasks(r: u32, v: u32)
    ensures Select(r, v, ONES) == v && Select(r, v, 0) == r
  {
    Pow2At32();
    hide Pow2;
    AndOnes(r, 32);
    AndOnes(v, 32);
  }

  /** 0 - (carry | (borrow ^ 1)) on 32 bits, for a carry and borrow bit. */
  function SubtractMask(carry: u32, borrow: u32): u32
    requires carry <= 1 && borrow <= 1
  {
    if carry == 1 || borrow == 0 then ONES else 0
  }

  method CondAssign(r: array<u32>, v: array<u32>, mask: u32)
    requires r.Length == v.Length == LIMBS && (mask == 0 || mask == ONES)
    modifies r
    ensures r[..] == if mask == ONES then old(v[..]) else old(r[..])
  {
    hide Select;
    for i := 0 to LIMBS
      invariant forall k :: 0 <= k < i ==> r[k] == if mask == ONES then old(v[k]) else old(r[k])
      invariant forall k :: i <= k < LIMBS ==> r[k] == old(r[k]) && v[k] == old(v[k])
    {
      SelectMasks(r[i], v[i]);
      r[i] := Select(r[i], v[i], mask);
    }
  }

  /** The sum of two residues, reduced by at most one subtraction of m. */
  lemma ReduceOnce(v: int, carry: int, x: int, borrow: int, s: int, m: int)
    requires m > 0 && 0 <= v < R && 0 <= s < R && m < R
    requires 0 <= carry <= 1 && 0 <= borrow <= 1
    requires v + carry * R == x && 0 <= x < 2 * m
    requires s == v - m + borrow * R
    ensures (if carry == 1 || borrow == 0 then s else v) == x % m
  {
    if x >= m {
      DivModUnique(x, m, 1, x - m);
    } else {
      DivModUnique(x, m, 0, x);
    }
  }

  /** (a + b) mod m for residues a and b. */
  method ModAdd(a: array<u32>, b: array<u32>, m: array<u32>) returns (r: array<u32>)
    requires a.Length == b.Length == m.Length == LIMBS
    requires Val(a[..]) < Val(m[..]) && Val(b[..]) < Val(m[..])
    ensures fresh(r) && r.Length == LIMBS
    ensures Val(r[..]) == (Val(a[..]) + Val(b[..])) % Val(m[..])
  {
    hide Val, Pow;
    r := new u32[LIMBS](_ => 0);
    var carry := Add(r, a, b);
    ghost var v := r[..];
    var s := new u32[LIMBS](_ => 0);
    var borrow := Sub(s, r, m);
    ValBound(r[..]);
    ValBound(s[..]);
    ValBound(m[..]);
    ReduceOnce(Val(v), carry, Val(a[..]) + Val(b[..]), borrow, Val(s[..]), Val(m[..]));
    CondAssign(r, s, SubtractMask(carry, borrow));
  }

  lemma BorrowOnce(a: int, b: int, m: int, borrow: int, v: int, carry: int, s: int)
    requires 0 <= a < m && 0 <= b < m && m < R
    requires 0 <= borrow <= 1 && 0 <= carry <= 1 && 0 <= v < R && 0 <= s < R
    requires v == a - b + borrow * R && s + carry * R == v + m
    ensures (if borrow == 1 then s else v) == (a - b) % m
  {
    if borrow == 1 {
      DivModUnique(a - b, m, -1, a - b + m);
    } else {
      DivModUnique(a - b, m, 0, a - b);
    }
  }

  /** (a - b) mod m for residues a and b. */
  method ModSub(a: array<u32>, b: array<u32>, m: array<u32>) returns (r: array<u32>)
    requires a.Length == b.Length == m.Length == LIMBS
    requires Val(a[..]) < Val(m[..]) && Val(b[..]) < Val(m[..])
    ensures fresh(r) && r.Length == LIMBS
    ensures Val(r[..]) == (Val(a[..]) - Val(b[..])) % Val(m[..])
  {
    hide Val, Pow;
    r := new u32[LIMBS](_ => 0);
    var borrow := Sub(r, a, b);
    ghost var v := r[..];
    var s := new u32[LIMBS](_ => 0);
    var carry := Add(s, r, m);
    ValBound(v);
    ValBound(s[..]);
    ValBound(m[..]);
    BorrowOnce(Val(a[..]), Val(b[..]), Val(m[..]), borrow, Val(v), carry, Val(s[..]));
    CondAssign(r, s, if borrow == 1 then ONES else 0);
  }

  /** -1, 0 or 1 as a is below, equal to or above b. */
  method Cmp(a: array<u32>, b: array<u32>) returns (c: int)
    requires a.Length == b.Length == LIMBS
    ensures c == if Val(a[..]) < Val(b[..]) then -1 else if Val(a[..]) > Val(b[..]) then 1 else 0
    ensures c == 0 <==> a[..] == b[..]
  {
    var i := LIMBS;
    while i > 0
      invariant 0 <= i <= LIMBS
      invariant a[i..] == b[i..]
    {
      if a[i - 1] != b[i - 1] {
        if a[i - 1] < b[i - 1] {
          TopLimbDecides(a[..], b[..], i - 1);
          return -1;
        } else {
          TopLimbDecides(b[..], a[..], i - 1);
          return 1;
        }
      }
      i := i - 1;
    }
    return 0;
  }

  /** The highest differing limb decides the order. */
  lemma {:induction false} TopLimbDecides(x: seq<u32>, y: seq<u32>, i: nat)
    requires i < |x| == |y| && x[i] < y[i] && x[i + 1..] == y[i + 1..]
    ensures Val(x) < Val(y)
  {
    var n := |x| - 1;
    ValLast(x);
    ValLast(y);
    hide Val, Pow;
    if i == n {
      ValBound(x[..n]);
      MulBound(x[n] + 1, y[n], Pow(n));
      MulSub(x[n], -1, Pow(n));
    } else {
      assert x[n] == x[i + 1..][n - i - 1] && y[n] == y[i + 1..][n - i - 1];
      assert x[..n][i + 1..] == x[i + 1..][..n - i - 1] && y[..n][i + 1..] == y[i + 1..][..n - i - 1];
      TopLimbDecides(x[..n], y[..n], i);
    }
  }

  lemma ValLast(s: seq<u32>)
    requires s != []
    ensures Val(s) == Val(s[..|s| - 1]) + s[|s| - 1] * Pow(|s| - 1)
  {}

  /** Doubles the number in place and puts the lowest bit of `bit` at the bottom; the carry
      is the bit that leaves at the top. */
  method Shl1(r: array<u32>, bit: u32) returns (carry: u32)
    requires r.Length == LIMBS
    modifies r
    ensures carry <= 1 && Val(r[..]) + carry * R == 2 * Val(old(r[..])) + bit % 2
  {
    hide Val, Pow, ShiftedLimb;
    ghost var w := r[..];
    var low := bit % 2;
    carry := r[7] / 0x8000_0000;
    var i := 7;
    while i > 0
      invariant 0 <= i <= 7
      invariant forall k :: 0 <= k <= i ==> r[k] == w[k]
      invariant forall k :: i < k < LIMBS ==> r[k] == ShiftedLimb(w, low, k)
    {
      LimbIs(w, low, i);
      r[i] := (2 * r[i]) % B + r[i - 1] / 0x8000_0000;
      i := i - 1;
    }
    LimbIs(w, low, 0);
    r[0] := (2 * r[0]) % B + low;
    ShiftValue(w, r[..], low, LIMBS);
    assert ShiftOut(w, low, LIMBS) == carry;
    assert w[..LIMBS] == w && r[..][..LIMBS] == r[..];
  }

  /** Limb k of the sequence shifted left by one bit. */
  function ShiftedLimb(w: seq<u32>, bit: u32, k: nat): u32
    requires k < |w| && bit <= 1
  {
    (2 * w[k]) % B + (if k == 0 then bit else w[k - 1] / 0x8000_0000)
  }

  lemma LimbIs(w: seq<u32>, bit: u32, k: nat)
    requires k < |w| && bit <= 1
    ensures ShiftedLimb(w, bit, k) as int == (2 * w[k]) % B + (if k == 0 then bit else w[k - 1] / 0x8000_0000)
  {}

  lemma {:induction false} ShiftValue(w: seq<u32>, r: seq<u32>, bit: u32, n: nat)
    requires n <= |w| == |r| && bit <= 1
    requires forall k :: 0 <= k < |w| ==> r[k] == ShiftedLimb(w, bit, k)
    ensures Val(r[..n]) + ShiftOut(w, bit, n) * Pow(n) == 2 * Val(w[..n]) + bit
  {
    if n > 0 {
      ShiftValue(w, r, bit, n - 1);
      var i := n - 1;
      ShiftLimb(w[i]);
      hide Val, Pow;
      assert r[..n] == r[..i] + [r[i]];
      ChainStep(r[..i], r[i], ShiftOut(w, bit, i), ShiftOut(w, bit, n), 2 * Val(w[..i]) + bit, 2 * w[i] as int);
      ValSnoc(w, i);
      MulTwice(w[i], Pow(i));
    }
  }

  /** The bit that limbs below n shift into limb n. */
  function ShiftOut(w: seq<u32>, bit: u32, n: nat): u32
    requires n <= |w|
  {
    if n == 0 then bit else w[n - 1] / 0x8000_0000
  }

  lemma ShiftLimb(x: u32)
    ensures 2 * x == (2 * x) % B + (x / 0x8000_0000) * B
  {}

  lemma MulTwice(x: int, p: int)
    ensures 2 * x * p == 2 * (x * p)
  {}

  /** Bit i of the string, counted from the most significant. */
  function BeBit(be: seq<u8>, i: nat): (b: u32)
    requires i < 8 * |be|
    ensures b <= 1
  {
    be[i / 8] / Pow2(7 - i % 8) % 2
  }

  /** The value of the first n bits. */
  ghost function BitsVal(be: seq<u8>, n: nat): nat
    requires n <= 8 * |be|
  {
    if n == 0 then 0 else 2 * BitsVal(be, n - 1) + BeBit(be, n - 1)
  }

  /** After q bytes and s more bits, the bits read are the bytes followed by the top bits. */
  ghost predicate BitsMatch(be: seq<u8>, q: nat, s: nat)
    requires s <= 8 && 8 * q + s <= 8 * |be|
  {
    BitsVal(be, 8 * q + s) == BeVal(be[..q]) * Pow2(s) + TopBits(be, q, s)
  }

  lemma TopBitsStep(be: seq<u8>, q: nat, s: nat)
    requires 0 < s <= 8 && q < |be|
    ensures TopBits(be, q, s) == 2 * TopBits(be, q, s - 1) + BeBit(be, 8 * q + (s - 1))
    ensures Pow2(s) == 2 * Pow2(s - 1)
  {
    BitOfByte(be, q, s - 1);
    ByteSplit(be[q], s);
  }

  lemma BitsInByte(be: seq<u8>, q: nat, s: nat)
    requires 0 < s <= 8 && q < |be| && BitsMatch(be, q, s - 1)
    ensures BitsMatch(be, q, s)
  {
    TopBitsStep(be, q, s);
    NextBitVal(be, 8 * q + (s - 1));
    hide BeVal, Pow2, BeBit, BitsVal, TopBits;
    MulDouble(BeVal(be[..q]), Pow2(s - 1), Pow2(s));
  }

  lemma MulDouble(v: int, p: int, p2: int)
    requires p2 == 2 * p
    ensures v * p2 == 2 * (v * p)
  {}

  lemma BitsNextByte(be: seq<u8>, q: nat)
    requires 0 < q <= |be| && BitsMatch(be, q - 1, 8)
    ensures BitsMatch(be, q, 0)
  {
    Pow2At8();
    hide Pow2, BitsVal;
    assert be[..q][..q - 1] == be[..q - 1];
    assert 8 * (q - 1) + 8 == 8 * q + 0;
  }

  lemma {:induction false} BitsAreBytes(be: seq<u8>, q: nat, s: nat)
    requires s <= 8 && 8 * q + s <= 8 * |be|
    ensures BitsMatch(be, q, s)
    decreases q, s
  {
    hide BitsMatch;
    if s > 0 {
      BitsAreBytes(be, q, s - 1);
      BitsInByte(be, q, s);
    } else if q > 0 {
      BitsAreBytes(be, q - 1, 8);
      BitsNextByte(be, q);
    } else {
      BitsMatchNone(be);
    }
  }

  lemma BitsMatchNone(be: seq<u8>)
    ensures BitsMatch(be, 0, 0)
  {}

  lemma NextBitVal(be: seq<u8>, n: nat)
    requires n < 8 * |be|
    ensures BitsVal(be, n + 1) == 2 * BitsVal(be, n) + BeBit(be, n)
  {}

  lemma BitOfByte(be: seq<u8>, q: nat, s: nat)
    requires s < 8 && q < |be|
    ensures BeBit(be, 8 * q + s) == be[q] / Pow2(7 - s) % 2
  {
    assert (8 * q + s) / 8 == q && (8 * q + s) % 8 == s;
  }

  function Quotient(x: nat, y: nat): nat
    requires y > 0
  {
    x / y
  }

  function TopBits(be: seq<u8>, q: nat, s: nat): nat
    requires s <= 8 && 8 * q + s <= 8 * |be|
  {
    if s == 0 then 0 else Quotient(be[q], Pow2(8 - s))
  }

  lemma ByteSplit(b: u8, s: nat)
    requires 1 <= s <= 8
    ensures Pow2(s) == 2 * Pow2(s - 1)
    ensures b / Pow2(8 - s) == 2 * (if s == 1 then 0 else b / Pow2(8 - (s - 1))) + b / Pow2(7 - (s - 1)) % 2
  {
    Pow2At8();
    hide Pow2;
    Pow2Next(s - 1);
    Pow2Next(8 - s);
    Halve(b, Pow2(8 - s));
  }


  /** One step of long division: shift a bit in, subtract m if it fits. */
  method DivisionStep(r: array<u32>, bit: u32, m: array<u32>)
    requires r.Length == m.Length == LIMBS && r != m && bit <= 1
    requires Val(r[..]) < Val(m[..])
    modifies r
    ensures Val(r[..]) == (2 * Val(old(r[..])) + bit) % Val(m[..])
  {
    hide Val, Pow;
    var carry := Shl1(r, bit);
    ghost var v := r[..];
    var s := new u32[LIMBS](_ => 0);
    var borrow := Sub(s, r, m);
    ValBound(v);
    ValBound(s[..]);
    ValBound(m[..]);
    ReduceOnce(Val(v), carry, 2 * Val(old(r[..])) + bit, borrow, Val(s[..]), Val(m[..]));
    CondAssign(r, s, SubtractMask(carry, borrow));
  }

  /** The residue of a big-endian number, taken in bit by bit. The number of bits is counted
      in 32 bits, so of 2^29 bytes or more only the first |be| % 2^29 are taken in. */
  method ModBytes(be: seq<u8>, m: array<u32>) returns (r: array<u32>)
    requires m.Length == LIMBS && Val(m[..]) > 0
    ensures fresh(r) && r.Length == LIMBS
    ensures Val(r[..]) == BeVal(Counted(be)) % Val(m[..])
  {
    hide Val, Pow, BitsVal, BeVal, BeBit, Pow2, Counted;
    r := new u32[LIMBS](_ => 0);
    ghost var mv := Val(m[..]);
    DivisionStart(r[..], be, mv);
    CountedBits(be);
    for i := 0 to W(|be| * 8)
      invariant fresh(r) && r.Length == LIMBS && Val(m[..]) == mv
      invariant Val(r[..]) == BitsVal(be, i) % mv
    {
      var bit := BeBit(be, i);
      NextBit(be, i, Val(r[..]), bit, mv);
      DivisionStep(r, bit, m);
    }
  }

  /** The bytes whose bits a 32-bit count of bits reaches. */
  function Counted(be: seq<u8>): seq<u8> { be[..|be| % 0x2000_0000] }

  /** That is the whole string exactly below 2^29 bytes. */
  lemma CountedIff(be: seq<u8>)
    ensures Counted(be) == be <==> |be| < 0x2000_0000
  {
    if |be| < 0x2000_0000 {
      assert be[..|be|] == be;
    } else {
      assert |Counted(be)| < |be|;
    }
  }

  lemma DivisionStart(r: seq<u32>, be: seq<u8>, m: int)
    requires (forall k :: 0 <= k < |r| ==> r[k] == 0) && m > 0
    ensures Val(r) == BitsVal(be, 0) % m
  {
    ZeroVal(r);
    DivModUnique(0, m, 0, 0);
  }

  /** The bits counted are the value of the bytes they make up. */
  lemma CountedBits(be: seq<u8>)
    ensures W(|be| * 8) <= |be| * 8
    ensures BitsVal(be, W(|be| * 8)) == BeVal(Counted(be))
  {
    hide BitsVal, BeVal;
    var n := |be| % 0x2000_0000;
    DivModUnique(|be| * 8, M32, |be| / 0x2000_0000, 8 * n);
    BitsAreBytes(be, n, 0);
    Pow2At8();
  }

  lemma NextBit(be: seq<u8>, i: nat, before: nat, bit: u32, m: int)
    requires i < 8 * |be| && m > 0 && before == BitsVal(be, i) % m && bit == BeBit(be, i)
    ensures (2 * before + bit) % m == BitsVal(be, i + 1) % m
  {
    CongMod(BitsVal(be, i), m);
    CongMul(before, BitsVal(be, i), 2, m);
    CongAdd(2 * before, 2 * BitsVal(be, i), bit, m);
  }

  lemma {:induction false} ZeroVal(s: seq<u32>)
    requires forall k :: 0 <= k < |s| ==> s[k] == 0
    ensures Val(s) == 0
  {
    if s != [] {
      ZeroVal(s[..|s| - 1]);
    }
  }
}
