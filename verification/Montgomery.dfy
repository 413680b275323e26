/** The `Field` of re-crypto: its Newton inverse, its products limb by limb, and powers. */
module Montgomery {
  import opened Words
  import opened Arith
  import opened ModArith
  import opened Bignum

  /** The inverse of 2^256 modulo an odd m: (m + 1) / 2 halves. */
  ghost function RInv(m: int): int
    requires m > 0
  {
    Power((m + 1) / 2, 256) % m
  }

  /** What Montgomery multiplication computes: x * y / 2^256 mod m. */
  ghost function Mont(x: int, y: int, m: int): int
    requires m > 0
  {
    (x * y * RInv(m)) % m
  }

  lemma {:induction false} HalvesCancel(m: int, n: nat)
    requires m > 0 && m % 2 == 1
    ensures Cong(Power((m + 1) / 2, n) * Pow2(n), 1, m)
  {
    if n > 0 {
      HalvesCancel(m, n - 1);
      var h := (m + 1) / 2;
      PowersNext(h, n - 1);
      hide Power, Pow2, Cong;
      var p, q := Power(h, n - 1), Pow2(n - 1);
      HalfTimesTwo(h, p, q, m);
      CongStep(Power(h, n) * Pow2(n), p * q, p * q, m);
      CongTrans(Power(h, n) * Pow2(n), p * q, 1, m);
    }
  }

  lemma PowersNext(h: int, n: nat)
    ensures Power(h, n + 1) == h * Power(h, n) && Pow2(n + 1) == 2 * Pow2(n)
  {}

  lemma HalfTimesTwo(h: int, p: int, q: int, m: int)
    requires 2 * h == 1 + m
    ensures (h * p) * (2 * q) == p * q + (p * q) * m
  {
    assert (h * p) * (2 * q) == (p * q) * (2 * h);
    assert (p * q) * (1 + m) == p * q + (p * q) * m;
  }

  lemma RIsPow2()
    ensures R == Pow2(256)
  {
    PowIsPow2(8);
  }

  lemma RInvCancels(m: int)
    requires m > 0 && m % 2 == 1
    ensures Cong(RInv(m) * R, 1, m)
  {
    hide Pow, Pow2, Power, Cong;
    HalvesCancel(m, 256);
    RIsPow2();
    var h := Power((m + 1) / 2, 256);
    CongMod(h, m);
    CongMul(RInv(m), h, R, m);
    CongTrans(RInv(m) * R, h * R, 1, m);
  }

  /** r is the Montgomery product exactly when it is reduced and r * 2^256 = x * y mod m. */
  lemma MontUnique(r: int, x: int, y: int, m: int)
    requires m > 0 && m % 2 == 1
    ensures r == Mont(x, y, m) <==> 0 <= r < m && Cong(r * R, x * y, m)
  {
    hide RInv, Pow, Cong;
    if 0 <= r < m && Cong(r * R, x * y, m) {
      MontOnly(r, x, y, m);
    }
    MontIs(x, y, m);
  }

  lemma MontOnly(r: int, x: int, y: int, m: int)
    requires m > 0 && m % 2 == 1 && 0 <= r < m && Cong(r * R, x * y, m)
    ensures r == Mont(x, y, m)
  {
    hide RInv, Pow;
    RInvCancels(m);
    var i := RInv(m);
    CongMul(r * R, x * y, i, m);
    assert (r * R) * i == r * (i * R);
    CongMul(i * R, 1, r, m);
    CongSmall(r, x * y * i, m);
  }

  lemma MontIs(x: int, y: int, m: int)
    requires m > 0 && m % 2 == 1
    ensures var r := Mont(x, y, m); 0 <= r < m && Cong(r * R, x * y, m)
  {
    hide RInv, Pow;
    RInvCancels(m);
    var i := RInv(m);
    CongMod(x * y * i, m);
    CongMul(Mont(x, y, m), x * y * i, R, m);
    assert (x * y * i) * R == (x * y) * (i * R);
    CongMul(i * R, 1, x * y, m);
  }

  // ----- one row of the interleaved multiplication

  lemma ProductFits(x: u32, y: u32, z: u32, c: int)
    requires 0 <= c < B
    ensures 0 <= x * y && x * y + z + c < B * B
  {
    MulBound(y, B - 1, x);
    MulBound(x, B - 1, B - 1);
  }

  /** t += a * bi over ten limbs; the top limb of `t` is written, not read. */
  method MulRow(t: array<u32>, a: array<u32>, bi: u32)
    requires t.Length == 10 && a.Length == LIMBS && t != a
    modifies t
    ensures t[9] <= 1 && Val(t[..]) == Val(old(t[..])[..9]) + Val(a[..]) * bi
  {
    ghost var o, x := t[..], a[..];
    hide Val, Pow;
    ValNone(t[..0]);
    ValNone(o[..0]);
    ValNone(x[..0]);
    var carry: u64 := 0;
    for j := 0 to LIMBS
      invariant carry < B && a[..] == x
      invariant Val(t[..j]) + carry * Pow(j) == Val(o[..j]) + Val(x[..j]) * bi
      invariant t[j..] == o[j..]
    {
      ghost var low, c := t[..j], carry;
      assert t[j] == t[j..][0] == o[j..][0] == o[j];
      ProductFits(a[j], bi, t[j], carry);
      var v: u64 := a[j] * bi + t[j] + carry;
      var limb: u32 := v % B;
      t[j] := limb;
      carry := v / B;
      MulRowStep(o, x, bi, j, low, limb, c, carry);
      assert t[..j + 1] == low + [limb];
      assert t[j + 1..] == o[j..][1..];
    }
    ghost var low := t[..8];
    assert t[8] == t[8..][0] == o[8..][0] == o[8];
    var v: u64 := t[8] + carry;
    t[8] := v % B;
    t[9] := v / B;
    assert t[..] == low + [t[8], t[9]];
    MulRowTop(o, x, bi, low, carry, v);
  }

  lemma MulRowTop(o: seq<u32>, x: seq<u32>, bi: u32, low: seq<u32>, carry: int, v: int)
    requires |o| == 10 && |x| == 8 && |low| == 8 && 0 <= carry < B && v == o[8] + carry
    requires Val(low) + carry * Pow(8) == Val(o[..8]) + Val(x[..8]) * bi
    ensures Val(low + [v % B, v / B]) == Val(o[..9]) + Val(x) * bi
  {
    hide Val, Pow;
    var limb: u32, top: u32 := v % B, v / B;
    TwoLimbs(low, limb, top);
    ValSnoc(o, 8);
    assert x[..8] == x;
    MulSub(o[8], -carry, Pow(8));
  }

  lemma ValNone(s: seq<u32>)
    requires s == []
    ensures Val(s) == 0 && Pow(0) == 1
  {}

  lemma TwoLimbs(low: seq<u32>, u: u32, w: u32)
    ensures Val(low + [u, w]) == Val(low) + (u + w * B) * Pow(|low|)
  {
    assert low + [u, w] == (low + [u]) + [w];
    ValAppend(low, u);
    ValAppend(low + [u], w);
    CarryWeight(u, w, Pow(|low|));
  }

  lemma CarryWeight(u: int, w: int, p: int)
    ensures u * p + w * (B * p) == (u + w * B) * p
  {}

  lemma MulRowStep(o: seq<u32>, x: seq<u32>, bi: u32, j: nat, low: seq<u32>, limb: u32, c: int, carry: int)
    requires j < |x| <= |o| && |low| == j
    requires Val(low) + c * Pow(j) == Val(o[..j]) + Val(x[..j]) * bi
    requires x[j] * bi + o[j] + c == limb + carry * B
    ensures Val(low + [limb]) + carry * Pow(j + 1) == Val(o[..j + 1]) + Val(x[..j + 1]) * bi
  {
    hide Val, Pow;
    ChainStep(low, limb, c, carry, Val(o[..j]) + Val(x[..j]) * bi, x[j] as int * bi as int + o[j] as int);
    ValSnoc(o, j);
    ValSnoc(x, j);
    RowAlgebra(Val(x[..j]), x[j], bi, o[j], Pow(j));
  }

  lemma RowAlgebra(vx: int, x: int, b: int, o: int, p: int)
    ensures (vx + x * p) * b == vx * b + x * p * b
    ensures (x * b + o) * p == x * p * b + o * p
  {}

  /** t = (t + m * mfac) / 2^32, where mfac makes the lowest limb vanish. */
  method ReduceRow(t: array<u32>, m: array<u32>, n0: u32) returns (ghost mfac: u32)
    requires t.Length == 10 && m.Length == LIMBS && t != m
    requires (m[0] * n0 + 1) % B == 0
    requires Val(t[..]) + B * Val(m[..]) < B * (2 * R) + Val(m[..])
    modifies t
    ensures B * Val(t[..9]) == Val(old(t[..])) + mfac * Val(m[..])
    ensures t[8] <= 1
  {
    ghost var o, x := t[..], m[..];
    hide Val, Pow;
    ValNone(t[..0]);
    var f: u32 := LowProduct(t[0], n0);
    mfac := f;
    LowLimbVanishes(t[0], n0, m[0]);
    ProductFits(f, m[0], t[0], 0);
    var carry: u64 := (f * m[0] + t[0]) / B;
    FirstLimb(o, x, f, carry);
    for j := 1 to LIMBS
      invariant carry < B && m[..] == x
      invariant B * Val(t[..j - 1]) + carry * Pow(j) == Val(o[..j]) + f * Val(x[..j])
      invariant t[j..] == o[j..]
    {
      ghost var low, c := t[..j - 1], carry;
      assert t[j] == t[j..][0] == o[j..][0] == o[j];
      ProductFits(f, m[j], t[j], carry);
      var v: u64 := f * m[j] + t[j] + carry;
      var limb: u32 := v % B;
      t[j - 1] := limb;
      carry := v / B;
      ReduceStep(o, x, f, j, low, limb, c, carry);
      assert t[..j] == low + [limb];
      assert t[j + 1..] == o[j..][1..];
    }
    assert t[8] == t[8..][0] == o[8..][0] == o[8];
    assert t[9] == t[8..][1] == o[8..][1] == o[9];
    ghost var low := t[..7];
    var v: u64 := t[8] + carry;
    var top := t[9] + v / B;
    ReduceTop(o, x, f, low, carry, v, top);
    t[7] := v % B;
    t[8] := top;
    assert t[..9] == low + [t[7], t[8]];
  }

  /** The low 32 bits of a product. */
  function LowProduct(x: u32, y: u32): u32 { (x * y) % B }

  lemma LowLimbVanishes(t0: u32, n0: u32, m0: u32)
    requires (m0 * n0 + 1) % B == 0
    ensures (LowProduct(t0, n0) * m0 + t0) % B == 0
  {
    var f := LowProduct(t0, n0);
    CongMod(t0 * n0, B);
    CongMul(f, t0 * n0, m0, B);
    CongAdd(f * m0, (t0 * n0) * m0, t0, B);
    var k := (m0 * n0 + 1) / B;
    assert (t0 * n0) * m0 + t0 == t0 * (m0 * n0 + 1);
    assert t0 * (m0 * n0 + 1) == 0 + (t0 * k) * B;
    CongStep((t0 * n0) * m0 + t0, 0, t0 * k, B);
  }

  lemma FirstLimb(o: seq<u32>, x: seq<u32>, f: u32, carry: int)
    requires |o| >= 1 && |x| >= 1 && f * x[0] + o[0] == carry * B
    ensures carry * Pow(1) == Val(o[..1]) + f * Val(x[..1])
  {
    assert o[..1] == [] + [o[0]] && x[..1] == [] + [x[0]];
    ValAppend([], o[0]);
    ValAppend([], x[0]);
    assert Pow(1) == B * Pow(0);
  }

  lemma ReduceStep(o: seq<u32>, x: seq<u32>, f: u32, j: nat, low: seq<u32>, limb: u32, c: int, carry: int)
    requires 1 <= j < |x| <= |o| && |low| == j - 1
    requires B * Val(low) + c * Pow(j) == Val(o[..j]) + f * Val(x[..j])
    requires f * x[j] + o[j] + c == limb + carry * B
    ensures B * Val(low + [limb]) + carry * Pow(j + 1) == Val(o[..j + 1]) + f * Val(x[..j + 1])
  {
    ValAppend(low, limb);
    ValSnoc(o, j);
    ValSnoc(x, j);
    var p := Pow(j - 1);
    assert Pow(j) == B * p && Pow(j + 1) == B * Pow(j);
    hide Val, Pow;
    ReduceAlgebra(limb, carry, c, f, x[j], o[j], Val(x[..j]), p);
  }

  lemma ReduceAlgebra(limb: int, carry: int, c: int, f: int, x: int, o: int, vx: int, p: int)
    requires f * x + o + c == limb + carry * B
    ensures B * (limb * p) + carry * (B * (B * p)) == f * (x * (B * p)) + o * (B * p) + c * (B * p)
    ensures f * (vx + x * (B * p)) == f * vx + f * (x * (B * p))
  {
    var q := B * p;
    assert B * (limb * p) == limb * q;
    assert carry * (B * q) == (carry * B) * q;
    assert (limb + carry * B) * q == limb * q + (carry * B) * q;
    assert (f * x + o + c) * q == f * x * q + o * q + c * q;
  }

  lemma ReduceTop(o: seq<u32>, x: seq<u32>, f: u32, low: seq<u32>, carry: int, v: int, top: int)
    requires |o| == 10 && |x| == 8 && |low| == 7 && 0 <= carry < B && v == o[8] + carry && top == o[9] + v / B
    requires B * Val(low) + carry * Pow(8) == Val(o[..8]) + f * Val(x[..8])
    requires Val(o) + B * Val(x) < B * (2 * R) + Val(x)
    ensures 0 <= top <= 1
    ensures B * Val(low + [v % B, top]) == Val(o) + f * Val(x)
  {
    hide Pow, Val;
    PowTop();
    var limb: u32 := v % B;
    var p := Pow(7);
    assert x[..8] == x;
    TenLimbs(o);
    TopInteger(Val(low), Val(o[..8]), Val(o), o[8], o[9], carry, v, f, Val(x), p);
    TwoLimbs(low, limb, top);
  }

  lemma TenLimbs(o: seq<u32>)
    requires |o| == 10
    ensures Val(o) == Val(o[..8]) + (o[8] as int + o[9] as int * B) * Pow(8)
  {
    hide Pow, Val;
    assert o == o[..8] + [o[8], o[9]];
    TwoLimbs(o[..8], o[8], o[9]);
  }

  lemma PowTop()
    ensures R == Pow(8) == B * Pow(7) && Pow(7) >= 1
  {}

  lemma TopInteger(low: nat, o: int, whole: int, o8: u32, o9: u32, carry: int, v: int, f: u32, x: nat, p: nat)
    requires p >= 1 && R == B * p && 0 <= carry < B && v == o8 + carry
    requires B * low + carry * (B * p) == o + f * x
    requires whole == o + (o8 + o9 * B) * (B * p) && whole + B * x < B * (2 * R) + x
    ensures var top := o9 + v / B;
            0 <= top <= 1 && B * (low + (v % B + top * B) * p) == whole + f * x
  {
    hide Pow;
    var top, limb := o9 + v / B, v % B;
    TopAlgebra(limb, top, o8, o9, carry, v, p);
    MulBound(f, B - 1, x);
    MulSub(B, 1, x);
    TopBound(low, limb, top, p, whole + f * x);
  }

  lemma TopAlgebra(limb: int, top: int, o8: int, o9: int, carry: int, v: int, p: int)
    requires v == o8 + carry && limb == v % B && top == o9 + v / B
    ensures (o8 + o9 * B) * (B * p) + carry * (B * p) == B * ((limb + top * B) * p)
  {
    assert o8 + o9 * B + carry == limb + top * B;
    assert (o8 + o9 * B) * (B * p) + carry * (B * p) == (o8 + o9 * B + carry) * (B * p);
    assert (limb + top * B) * (B * p) == B * ((limb + top * B) * p);
  }

  lemma TopBound(low: int, limb: int, top: int, p: int, whole: int)
    requires low >= 0 && limb >= 0 && top >= 0 && p >= 1 && R == B * p
    requires whole == B * (low + (limb + top * B) * p) && whole < B * (2 * R)
    ensures top <= 1
  {
    assert (limb + top * B) * p == limb * p + top * (B * p);
    MulBound(0, limb, p);
    if top >= 2 {
      MulBound(2, top, B * p);
    }
  }

  // ----- the whole product

  /** After i rows the accumulator times 2^(32i) is a times the low limbs of b, plus m times
      something below 2^(32i); and it stays below a + m. */
  ghost predicate RowsDone(t: int, i: nat, a: int, bLow: int, m: int, k: int) {
    t * Pow(i) == a * bLow + m * k && 0 <= k < Pow(i) && 0 <= t < a + m
  }

  lemma NextRow(t: int, t': int, i: nat, a: int, bLow: int, bi: u32, m: int, k: int, f: u32)
    requires RowsDone(t, i, a, bLow, m, k) && m > 0 && a >= 0
    requires B * t' == (t + a * bi) + f * m
    ensures RowsDone(t', i + 1, a, bLow + bi * Pow(i), m, k + f * Pow(i))
  {
    var p := Pow(i);
    assert Pow(i + 1) == B * p;
    hide Pow;
    calc {
      t' * (B * p);
      (B * t') * p;
      (t + a * bi + f * m) * p;
      { RowExpand(t, a * bi, f * m, p); }
      t * p + a * bi * p + f * m * p;
      a * bLow + m * k + a * bi * p + f * m * p;
      { Regroup(a, bLow, bi, m, k, f, p); }
      a * (bLow + bi * p) + m * (k + f * p);
    }
    MulBound(f, B - 1, p);
    MulBound(f, B - 1, m);
    MulBound(bi, B - 1, a);
    MulSub(B, 1, p);
    Commute(a, bi);
    RowBound(t, t', a, m, a * bi, f * m);
  }

  lemma RowExpand(x: int, y: int, z: int, p: int)
    ensures (x + y + z) * p == x * p + y * p + z * p
  {}

  lemma Commute(x: int, y: int)
    ensures x * y == y * x
  {}

  lemma Regroup(a: int, bLow: int, bi: int, m: int, k: int, f: int, p: int)
    ensures a * bLow + m * k + a * bi * p + f * m * p == a * (bLow + bi * p) + m * (k + f * p)
  {
    assert a * (bLow + bi * p) == a * bLow + a * bi * p;
    assert m * (k + f * p) == m * k + f * m * p;
  }

  lemma RowBound(t: int, t': int, a: int, m: int, x: int, y: int)
    requires 0 <= t < a + m && 0 <= x <= (B - 1) * a && 0 <= y <= (B - 1) * m
    requires B * t' == t + x + y
    ensures 0 <= t' < a + m
  {}

  /** The final accumulator is below 2m when one operand is reduced, and represents
      a * b / 2^256. */
  lemma RowsAreProduct(t: int, a: int, b: int, m: int, k: int)
    requires RowsDone(t, 8, a, b, m, k) && m > 0 && 0 <= a < R && 0 <= b < R && (a < m || b < m)
    ensures 0 <= t < 2 * m && Cong(t * R, a * b, m)
  {
    hide Pow;
    assert t * R == a * b + m * k;
    if a < m {
      MulBound(a, m, b);
      Commute(m, b);
      MulBound(b, R, m);
      assert t < 2 * m;
    } else {
      Commute(a, b);
      MulBound(b, m, a);
      Commute(m, a);
      MulBound(a, R, m);
      if t >= 2 * m {
        MulBound(2 * m, t, R);
        MulBound(k, R - 1, m);
        StrictProduct(a, b, m);
      }
    }
    CongStep(t * R, a * b, k, m);
  }

  lemma StrictProduct(a: int, b: int, m: int)
    requires 0 <= a < R && 0 <= b < m
    ensures a * b < R * m
  {
    hide Pow;
    MulBound(a, R, b);
    assert R * b < R * m;
  }

  // ----- the field

  /** What x is the inverse modulo, after i steps. */
  function Precision(i: nat): (p: int)
    ensures p > 0
  {
    if i == 0 then 8 else if i == 1 then 64 else if i == 2 then 0x1000 else if i == 3 then 0x100_0000 else B
  }

  lemma PrecisionNext(i: nat)
    ensures var p, q := Precision(i), Precision(i + 1); (p * p) % q == 0 && B % q == 0
  {}

  /** Newton iteration: five steps from three bits of precision, then the sign. */
  method NegativeInverse(m0: u32) returns (n: u32)
    requires m0 % 2 == 1
    ensures (m0 * n + 1) % B == 0
  {
    var x: u32 := m0;
    OddSquare(x);
    hide Cong, LowProduct, TwoMinus;
    for i := 0 to 5
      invariant Cong(m0 * x, 1, Precision(i))
    {
      PrecisionNext(i);
      NewtonStep(m0, x, Precision(i), Precision(i + 1));
      x := LowProduct(x, TwoMinus(LowProduct(m0, x)));
    }
    n := (0 - x as int) % B;
    NegatedInverse(m0, x, n);
  }

  /** 256 modular doublings. */
  method Doublings(t0: array<u32>, modulus: array<u32>, ghost from: nat) returns (t: array<u32>)
    requires t0.Length == modulus.Length == LIMBS && Val(modulus[..]) > 1
    requires Val(t0[..]) == Pow2(from) % Val(modulus[..])
    ensures fresh(t) && t.Length == LIMBS && Val(t[..]) == Pow2(from + 256) % Val(modulus[..])
  {
    hide Val, Pow, Pow2;
    ghost var mv := Val(modulus[..]);
    DoublePower(Val(t0[..]), from, mv);
    t := ModAdd(t0, t0, modulus);
    for i := 1 to 256
      invariant fresh(t) && t.Length == LIMBS && Val(modulus[..]) == mv
      invariant Val(t[..]) == Pow2(from + i) % mv
    {
      DoublePower(Val(t[..]), from + i, mv);
      t := ModAdd(t, t, modulus);
    }
  }

  /** `n0` is -m^-1 mod 2^32, `oneM` is 2^256 mod m and `rr` is 2^512 mod m. */
  class Field {
    const m: array<u32>
    const n0: u32
    const rr: array<u32>
    const oneM: array<u32>

    ghost function Modulus(): nat
      reads m
    {
      Val(m[..])
    }

    ghost predicate Valid()
      reads m, rr, oneM
    {
      && m.Length == rr.Length == oneM.Length == LIMBS
      && Modulus() > 1 && Modulus() % 2 == 1
      && (m[0] * n0 + 1) % B == 0
      && Val(oneM[..]) == R % Modulus()
      && Val(rr[..]) == (R * R) % Modulus()
    }

    /** make(): Newton iteration for n0, then 512 modular doublings of one. */
    constructor (modulus: array<u32>)
      requires modulus.Length == LIMBS && Val(modulus[..]) > 1 && Val(modulus[..]) % 2 == 1
      ensures Valid() && m == modulus && fresh(rr) && fresh(oneM)
    {
      hide Val, Pow, Pow2;
      LowLimb(modulus[..]);
      var n := NegativeInverse(modulus[0]);
      var t := One();
      PowersStart(Val(modulus[..]));
      t := Doublings(t, modulus, 0);
      var one := t;
      t := Doublings(t, modulus, 256);
      RIsPow2();
      Pow2Add(256, 256);
      m, n0, rr, oneM := modulus, n, t, one;
    }

    /** Montgomery multiplication: a * b / 2^256 mod m, reduced, if one operand is. */
    method Mul(a: array<u32>, b: array<u32>) returns (r: array<u32>)
      requires Valid() && a.Length == b.Length == LIMBS
      requires Val(a[..]) < Modulus() || Val(b[..]) < Modulus()
      ensures fresh(r) && r.Length == LIMBS
      ensures Val(r[..]) == Mont(Val(a[..]), Val(b[..]), Modulus()) && Val(r[..]) < Modulus()
    {
      hide Val, Pow, Mont, RInv, Cong;
      ghost var av, bv, mv := Val(a[..]), Val(b[..]), Modulus();
      ValBound(a[..]);
      ValBound(b[..]);
      ValBound(m[..]);
      var t := new u32[10](_ => 0);
      ghost var k := 0;
      RowsStart(t[..], b[..], av, mv);
      for i := 0 to LIMBS
        invariant t.Length == 10 && fresh(t) && t[8] <= 1
        invariant Modulus() == mv && Val(a[..]) == av && Val(b[..]) == bv
        invariant RowsDone(Val(t[..9]), i, av, Val(b[..i]), mv, k)
      {
        k := Row(t, a, b, i, k);
      }
      assert b[..LIMBS] == b[..];
      RowsAreProduct(Val(t[..9]), av, bv, mv, k);
      r := Final(t, av, bv);
    }

    method ToMont(a: array<u32>) returns (r: array<u32>)
      requires Valid() && a.Length == LIMBS
      ensures fresh(r) && r.Length == LIMBS
      ensures Val(r[..]) == InDomain(Val(a[..]), Modulus())
    {
      CongMod(R * R, Modulus());
      ToMontValue(Val(a[..]), Modulus());
      r := Mul(a, rr);
    }

    method FromMont(a: array<u32>) returns (r: array<u32>)
      requires Valid() && a.Length == LIMBS
      ensures fresh(r) && r.Length == LIMBS
      ensures Val(r[..]) == Mont(Val(a[..]), 1, Modulus()) && Val(r[..]) < Modulus()
    {
      var one := One();
      r := Mul(a, one);
    }

    /** Square and always multiply, from the top bit of `e` down. */
    method Exp(a: array<u32>, e: array<u32>) returns (r: array<u32>)
      requires Valid() && a.Length == e.Length == LIMBS
      ensures fresh(r) && r.Length == LIMBS
      ensures Val(r[..]) == InDomain(Power(Val(a[..]) * RInv(Modulus()), Val(e[..])), Modulus())
    {
      hide Val, Pow, Mont, RInv, InDomain, Power, BitAt;
      ghost var x, mv := Val(a[..]) * RInv(Modulus()), Modulus();
      r := new u32[LIMBS](_ => 0);
      for j := 0 to LIMBS
        invariant forall k :: 0 <= k < j ==> r[k] == oneM[k]
      {
        r[j] := oneM[j];
      }
      assert r[..] == oneM[..];
      ExpStart(x, e[..], mv);
      var i := 256;
      while i > 0
        invariant 0 <= i <= 256 && fresh(r) && r.Length == LIMBS
        invariant Modulus() == mv && x == Val(a[..]) * RInv(mv) && e[..] == old(e[..])
        invariant Val(r[..]) == InDomain(Power(x, HighBits(e[..], i)), mv)
      {
        DomainReduced(Power(x, HighBits(e[..], i)), mv);
        SquareInDomain(x, HighBits(e[..], i), mv);
        r := Mul(r, r);
        TimesInDomain(Val(a[..]), 2 * HighBits(e[..], i), mv);
        var t := Mul(r, a);
        HighBitsStep(e[..], i - 1);
        var bit := BitAt(e[..], i - 1);
        CondAssign(r, t, if bit == 1 then ONES else 0);
        i := i - 1;
      }
      HighBitsAll(e[..]);
    }

    /** The boundary conversions cancel: the result is a^e mod m, for all a and e. */
    method PowMod(a: array<u32>, e: array<u32>) returns (r: array<u32>)
      requires Valid() && a.Length == e.Length == LIMBS
      ensures fresh(r) && r.Length == LIMBS
      ensures Val(r[..]) == Power(Val(a[..]), Val(e[..])) % Modulus()
    {
      hide Val, Pow, Mont, RInv, InDomain, Power;
      ghost var av, ev, mv := Val(a[..]), Val(e[..]), Modulus();
      var x := ToMont(a);
      assert Val(e[..]) == ev && Modulus() == mv;
      var y := Exp(x, e);
      assert Modulus() == mv;
      r := FromMont(y);
      RoundTrip(av, ev, mv);
    }

    /** One turn of the outer loop: add a * b[i], then add m * mfac and drop a limb. */
    method Row(t: array<u32>, a: array<u32>, b: array<u32>, i: nat, ghost k: int) returns (ghost k': int)
      requires Valid() && a.Length == b.Length == LIMBS && t.Length == 10 && i < LIMBS
      requires t != a && t != b && t != m && t != rr && t != oneM && t[8] <= 1
      requires RowsDone(Val(t[..9]), i, Val(a[..]), Val(b[..i]), Modulus(), k)
      modifies t
      ensures t[8] <= 1
      ensures RowsDone(Val(t[..9]), i + 1, Val(a[..]), Val(b[..i + 1]), Modulus(), k')
    {
      hide Val, Pow, RowsDone;
      ghost var t0, av, mv := Val(t[..9]), Val(a[..]), Modulus();
      assert m[..] == old(m[..]) && b[..] == old(b[..]);
      ValBound(a[..]);
      MulRow(t, a, b[i]);
      RowFits(t0, av, b[i], mv, Val(t[..]), i, Val(b[..i]), k);
      ghost var f := ReduceRow(t, m, n0);
      NextRow(t0, Val(t[..9]), i, av, Val(b[..i]), b[i], mv, k, f);
      ValSnoc(b[..], i);
      assert b[..][..i + 1] == b[..i + 1] && b[..][..i] == b[..i];
      k' := k + f * Pow(i);
    }

    lemma RowFits(t0: int, a: int, bi: u32, mv: int, t1: int, i: nat, bLow: int, k: int)
      requires Valid() && mv == Modulus() && 0 <= a < R
      requires RowsDone(t0, i, a, bLow, mv, k) && t1 == t0 + a * bi
      ensures t1 + B * mv < B * (2 * R) + mv
    {
      hide Val, Pow;
      ValBound(m[..]);
      MulBound(bi, B - 1, a);
      Commute(a, bi);
      MulSub(B, 1, a);
      MulSub(B, 1, mv);
    }

    /** The conditional subtraction that ends the product. */
    method Final(t: array<u32>, ghost a: int, ghost b: int) returns (r: array<u32>)
      requires Valid() && t.Length == 10 && t != m && t[8] <= 1
      requires 0 <= Val(t[..9]) < 2 * Modulus() && Cong(Val(t[..9]) * R, a * b, Modulus())
      ensures fresh(r) && r.Length == LIMBS
      ensures Val(r[..]) == Mont(a, b, Modulus()) && Val(r[..]) < Modulus()
    {
      hide Val, Pow, Mont, RInv;
      r := new u32[LIMBS](_ => 0);
      for i := 0 to LIMBS
        invariant forall j :: 0 <= j < i ==> r[j] == t[j]
      {
        r[i] := t[i];
      }
      assert r[..] == t[..8];
      ValSnoc(t[..], 8);
      assert t[..][..9] == t[..9] && t[..][..8] == t[..8];
      ghost var x, mv := Val(t[..9]), Modulus();
      ghost var v := r[..];
      var s := new u32[LIMBS](_ => 0);
      var borrow := Sub(s, r, m);
      ValBound(v);
      ValBound(s[..]);
      ValBound(m[..]);
      ReduceOnce(Val(v), t[8], x, borrow, Val(s[..]), mv);
      FinalIsMont(x, a, b, mv);
      CondAssign(r, s, SubtractMask(t[8], borrow));
    }
  }

  lemma FinalIsMont(x: int, a: int, b: int, m: int)
    requires m > 0 && m % 2 == 1 && Cong(x * R, a * b, m)
    ensures x % m == Mont(a, b, m) && 0 <= x % m < m
  {
    hide Mont, Pow, RInv;
    CongMod(x, m);
    CongMul(x % m, x, R, m);
    MontUnique(x % m, a, b, m);
  }

  lemma RowsStart(t: seq<u32>, b: seq<u32>, a: nat, m: nat)
    requires |t| == 10 && |b| == LIMBS && m > 0 && forall j :: 0 <= j < |t| ==> t[j] == 0
    ensures RowsDone(Val(t[..9]), 0, a, Val(b[..0]), m, 0)
  {
    ZeroVal(t[..9]);
  }

  method One() returns (t: array<u32>)
    ensures fresh(t) && t.Length == LIMBS && Val(t[..]) == 1
  {
    t := new u32[LIMBS](_ => 0);
    t[0] := 1;
    OneVal(t[..], LIMBS);
    assert t[..][..LIMBS] == t[..];
  }

  lemma {:induction false} OneVal(s: seq<u32>, n: nat)
    requires 1 <= n <= |s| && s[0] == 1 && forall k :: 1 <= k < |s| ==> s[k] == 0
    ensures Val(s[..n]) == 1
  {
    ValSnoc(s, n - 1);
    if n > 1 {
      OneVal(s, n - 1);
    }
  }

  /** 2 - v in 32-bit arithmetic. */
  function TwoMinus(v: u32): u32 { (2 - v as int) % B }

  lemma OddSquare(x: u32)
    requires x % 2 == 1
    ensures Cong(x * x, 1, 8)
  {
    var h := x / 2;
    assert x * x == 4 * (h * (h + 1)) + 1;
    Consecutive(h);
    CongStep(x * x, 1, (h * (h + 1)) / 2, 8);
  }

  lemma Consecutive(h: nat)
    ensures (h * (h + 1)) % 2 == 0
  {
    var g := h / 2;
    if h == 2 * g {
      EvenProduct(g, h + 1);
    } else {
      EvenProduct(g + 1, h);
      Commute(2 * (g + 1), h);
    }
  }

  lemma EvenProduct(g: int, x: int)
    ensures (2 * g * x) % 2 == 0
  {
    MulTwice(g, x);
  }

  /** A Newton step squares the precision, up to 2^32. */
  lemma NewtonStep(m0: u32, x: u32, p: int, q: int)
    requires p > 0 && q > 0 && Cong(m0 * x, 1, p)
    requires (p * p) % q == 0 && B % q == 0
    ensures Cong(m0 * LowProduct(x, TwoMinus(LowProduct(m0, x))), 1, q)
  {
    var y := TwoMinus(LowProduct(m0, x));
    var z := m0 * x;
    hide LowProduct, TwoMinus, Cong;
    CongToB(m0, x, y, q);
    LowProductCong(x, y, q);
    CongMul(LowProduct(x, y), x * y, m0, q);
    assert m0 * (x * y) == z * y;
    CongMul(y, 2 - z, z, q);
    PrecisionSquared(z, p, q);
    CongTrans(m0 * LowProduct(x, y), z * y, z * (2 - z), q);
    CongTrans(m0 * LowProduct(x, y), z * (2 - z), 1, q);
  }

  lemma CongTrans(a: int, b: int, c: int, m: int)
    requires m > 0 && Cong(a, b, m) && Cong(b, c, m)
    ensures Cong(a, c, m)
  {}

  lemma LowProductCong(x: u32, y: u32, q: int)
    requires q > 0 && B % q == 0
    ensures Cong(LowProduct(x, y), x * y, q)
  {
    CongMod(x * y, B);
    BToQ(LowProduct(x, y), x * y, q);
  }

  lemma SquareGap(d: int)
    ensures (1 + d) * (2 - (1 + d)) == 1 - d * d
  {}

  lemma PrecisionSquared(z: int, p: int, q: int)
    requires p > 0 && q > 0 && Cong(z, 1, p) && (p * p) % q == 0
    ensures Cong(z * (2 - z), 1, q)
  {
    var k, c := z / p - 1 / p, (p * p) / q;
    assert z == 1 + k * p;
    SquareGap(k * p);
    assert (k * p) * (k * p) == (k * k) * (p * p);
    assert (k * k) * (c * q) == (k * k * c) * q;
    CongStep(z * (2 - z), 1, -(k * k * c), q);
  }

  lemma CongToB(m0: u32, x: u32, y: u32, q: int)
    requires q > 0 && B % q == 0 && y == TwoMinus(LowProduct(m0, x))
    ensures Cong(y, 2 - m0 * x, q)
  {
    var v := LowProduct(m0, x);
    var a, b := (m0 * x) / B, (2 - v as int) / B;
    assert y == 2 - m0 * x + (a - b) * B;
    CongStep(y, 2 - m0 * x, a - b, B);
    BToQ(y, 2 - m0 * x, q);
  }

  lemma BToQ(a: int, b: int, q: int)
    requires q > 0 && B % q == 0 && Cong(a, b, B)
    ensures Cong(a, b, q)
  {
    var k := a / B - b / B;
    assert a == b + k * B;
    assert k * B == (k * (B / q)) * q;
    CongStep(a, b, k * (B / q), q);
  }

  lemma NegatedInverse(m0: u32, x: u32, n: u32)
    requires Cong(m0 * x, 1, B) && n == (0 - x as int) % B
    ensures (m0 * n + 1) % B == 0
  {
    CongMod(0 - x as int, B);
    CongMul(n, 0 - x as int, m0, B);
    CongAdd(m0 * n, m0 * (0 - x as int), 1, B);
    var k := (m0 * x) / B;
    assert m0 * x == 1 + k * B;
    CongStep(m0 * (0 - x as int) + 1, 0, -k, B);
  }

  lemma LowLimb(s: seq<u32>)
    requires |s| >= 1
    ensures Val(s) % 2 == s[0] % 2
  {
    LowLimbOf(s, |s|);
    assert s[..|s|] == s;
  }

  lemma {:induction false} LowLimbOf(s: seq<u32>, n: nat)
    requires 1 <= n <= |s|
    ensures Val(s[..n]) % 2 == s[0] % 2
  {
    hide Val, Pow;
    ValSnoc(s, n - 1);
    if n > 1 {
      LowLimbOf(s, n - 1);
      EvenWeight(s[n - 1], n - 1);
      SumEven(Val(s[..n - 1]), s[n - 1] * Pow(n - 1));
    } else {
      OneLimb(s);
    }
  }

  lemma SumEven(a: int, b: int)
    requires b % 2 == 0
    ensures (a + b) % 2 == a % 2
  {}

  lemma OneLimb(s: seq<u32>)
    requires |s| >= 1
    ensures Val(s[..1]) == s[0]
  {
    ValSnoc(s, 0);
  }

  lemma EvenWeight(x: u32, i: nat)
    requires i >= 1
    ensures (x * Pow(i)) % 2 == 0
  {
    var p := Pow(i - 1);
    assert Pow(i) == B * p;
    hide Pow;
    WeightOut(x, p);
    var y := x * p;
    CongStep(y * B, 0, y * 0x8000_0000, 2);
  }

  lemma WeightOut(x: int, p: int)
    ensures x * (B * p) == (x * p) * B
  {}

  lemma PowersStart(m: int)
    requires m > 1
    ensures Pow2(0) % m == 1
  {
    DivModUnique(1, m, 0, 1);
  }

  lemma DoublePower(t: int, i: nat, m: int)
    requires m > 1 && t == Pow2(i) % m
    ensures 0 <= t < m && (t + t) % m == Pow2(i + 1) % m
  {
    CongMod(Pow2(i), m);
    CongMul(t, Pow2(i), 2, m);
  }

  // ----- the Montgomery domain

  /** x in the Montgomery domain. */
  ghost function InDomain(x: int, m: int): int
    requires m > 0
  {
    (x * R) % m
  }

  lemma DomainReduced(x: int, m: int)
    requires m > 0
    ensures 0 <= InDomain(x, m) < m
  {
    hide Pow;
    CongMod(x * R, m);
  }

  /** Multiplication in the domain is multiplication: the two factors 2^256 become one. */
  lemma MontOfDomain(a: int, x: int, b: int, y: int, m: int)
    requires m > 0 && m % 2 == 1 && Cong(a, x * R, m) && Cong(b, y * R, m)
    ensures Mont(a, b, m) == InDomain(x * y, m)
  {
    hide Pow, RInv;
    var i := RInv(m);
    RInvCancels(m);
    CongMul(a, x * R, b, m);
    CongMul(b, y * R, x * R, m);
    CongTrans(a * b, (x * R) * b, (x * R) * (y * R), m);
    CongMul(a * b, (x * R) * (y * R), i, m);
    assert ((x * R) * (y * R)) * i == (x * y * R) * (i * R) by { DomainAlgebra(x, y, i, R); }
    CongMul(i * R, 1, x * y * R, m);
  }

  lemma DomainAlgebra(x: int, y: int, i: int, r: int)
    ensures ((x * r) * (y * r)) * i == (x * y * r) * (i * r)
  {
    assert (x * r) * (y * r) == (x * y * r) * r;
  }

  lemma ToMontValue(a: nat, m: int)
    requires m > 0 && m % 2 == 1
    ensures 0 <= (R * R) % m < m
    ensures Mont(a, (R * R) % m, m) == InDomain(a, m)
  {
    hide Pow, RInv, Mont;
    CongMod(R * R, m);
    var i := RInv(m);
    RInvCancels(m);
    // a is its own double de-scaling: a = (a * i) * R.
    CongMul(i * R, 1, a, m);
    assert a * (i * R) == (a * i) * R;
    MontOfDomain(a, a * i, (R * R) % m, R, m);
    CongMul(a * i * R, a, 1, m);
    assert InDomain((a * i) * R, m) == InDomain(a, m) by {
      CongMul((a * i) * R, a, R, m);
    }
  }

  lemma SquareInDomain(x: int, n: nat, m: int)
    requires m > 0 && m % 2 == 1
    ensures Mont(InDomain(Power(x, n), m), InDomain(Power(x, n), m), m) == InDomain(Power(x, 2 * n), m)
  {
    hide Pow, Mont, Power;
    var p := Power(x, n);
    CongMod(p * R, m);
    MontOfDomain(InDomain(p, m), p, InDomain(p, m), p, m);
    PowerAdd(x, n, n);
  }

  lemma TimesInDomain(a: nat, n: nat, m: int)
    requires m > 0 && m % 2 == 1
    ensures var x := a * RInv(m);
            Mont(InDomain(Power(x, n), m), a, m) == InDomain(Power(x, n + 1), m)
  {
    hide Pow, Mont, RInv;
    var x := a * RInv(m);
    var p := Power(x, n);
    RInvCancels(m);
    CongMul(RInv(m) * R, 1, a, m);
    assert a * (RInv(m) * R) == x * R;
    CongMod(p * R, m);
    MontOfDomain(InDomain(p, m), p, a, x, m);
    Commute(p, x);
  }

  lemma ExpStart(x: int, e: seq<u32>, m: int)
    requires m > 0 && |e| == LIMBS
    ensures R % m == InDomain(Power(x, HighBits(e, 256)), m)
  {
    hide Pow;
  }

  lemma Rotate(a: int, r: int, i: int)
    ensures (a * r) * i == a * (i * r)
  {}

  /** from_mont after to_mont and exp. */
  lemma RoundTrip(a: nat, e: nat, m: int)
    requires m > 0 && m % 2 == 1
    ensures Mont(InDomain(Power(InDomain(a, m) * RInv(m), e), m), 1, m) == Power(a, e) % m
  {
    hide Pow, RInv, Power, Cong;
    var i := RInv(m);
    RInvCancels(m);
    var x := InDomain(a, m) * i;
    CongMod(a * R, m);
    CongMul(InDomain(a, m), a * R, i, m);
    Rotate(a, R, i);
    CongMul(i * R, 1, a, m);
    CongTrans(x, a * (i * R), a, m);
    PowerCong(x, a, e, m);
    var p := Power(x, e);
    CongMod(p * R, m);
    CongMul(InDomain(p, m), p * R, i, m);
    Rotate(p, R, i);
    CongMul(i * R, 1, p, m);
    CongTrans(InDomain(p, m) * i, p * (i * R), p, m);
    CongTrans(InDomain(p, m) * i, p, Power(a, e), m);
    CongRefl(InDomain(p, m) * 1 * i, Power(a, e), m);
  }

  lemma CongRefl(a: int, b: int, m: int)
    requires m > 0 && Cong(a, b, m)
    ensures a % m == b % m
  {}

  // ----- the bits of the exponent

  /** Bit i of a limb sequence. */
  function BitAt(w: seq<u32>, i: nat): (b: u32)
    requires i < 32 * |w|
    ensures b <= 1
  {
    w[i / 32] / Pow2(i % 32) % 2
  }

  /** The value of bit i and everything above it. */
  ghost function HighBits(w: seq<u32>, i: nat): nat
    requires i <= 32 * |w|
    decreases 32 * |w| - i
  {
    if i == 32 * |w| then 0 else 2 * HighBits(w, i + 1) + BitAt(w, i)
  }

  lemma HighBitsStep(w: seq<u32>, i: nat)
    requires i < 32 * |w|
    ensures HighBits(w, i) == 2 * HighBits(w, i + 1) + BitAt(w, i)
  {}

  lemma BitOfLimb(w: seq<u32>, q: nat, s: nat)
    requires q < |w| && s < 32
    ensures BitAt(w, 32 * q + s) == w[q] / Pow2(s) % 2
  {
    assert (32 * q + s) / 32 == q && (32 * q + s) % 32 == s;
  }


  lemma LimbExhausted(x: u32)
    ensures x / Pow2(32) == 0 && Pow2(0) == 1
  {
    Pow2At32();
  }

  /** Bits s and up of limb q, with the limbs above. */
  lemma {:induction false} HighBitsOfLimb(w: seq<u32>, q: nat, s: nat)
    requires q < |w| && s <= 32
    ensures HighBits(w, 32 * q + s) == HighBits(w, 32 * (q + 1)) * Pow2(32 - s) + w[q] / Pow2(s)
    decreases 32 - s
  {
    hide HighBits, BitAt, Pow2;
    LimbExhausted(w[q]);
    if s == 32 {
      assert 32 * q + 32 == 32 * (q + 1);
    } else {
      HighBitsOfLimb(w, q, s + 1);
      BitOfLimb(w, q, s);
      HighBitsStep(w, 32 * q + s);
      Halve(w[q], Pow2(s));
      Pow2Next(s);
      Pow2Next(31 - s);
      MulDouble(HighBits(w, 32 * (q + 1)), Pow2(31 - s), Pow2(32 - s));
    }
  }

  lemma {:induction false} HighBitsOfLimbs(w: seq<u32>, q: nat)
    requires q <= |w|
    ensures Val(w) == Val(w[..q]) + HighBits(w, 32 * q) * Pow(q)
    decreases |w| - q
  {
    hide HighBits, Val, Pow, Pow2;
    if q == |w| {
      NoHighBits(w);
      assert w[..q] == w;
    } else {
      LimbWeights(q);
      HighBitsOfLimbs(w, q + 1);
      LimbHighBits(w, q);
      ValSnoc(w, q);
      LimbAlgebra(HighBits(w, 32 * (q + 1)), w[q], Pow(q));
    }
  }

  lemma NoHighBits(w: seq<u32>)
    ensures HighBits(w, 32 * |w|) == 0
  {}

  /** All the bits of limb q, with the limbs above. */
  lemma LimbHighBits(w: seq<u32>, q: nat)
    requires q < |w|
    ensures HighBits(w, 32 * q) == HighBits(w, 32 * (q + 1)) * B + w[q]
  {
    hide HighBits, Pow2, Pow;
    LimbWeights(q);
    HighBitsOfLimb(w, q, 0);
  }

  lemma LimbWeights(q: nat)
    ensures Pow2(32) == B && Pow2(0) == 1 && Pow(q + 1) == B * Pow(q)
  {
    Pow2At32();
  }

  lemma LimbAlgebra(h: int, x: int, p: int)
    ensures (h * B + x) * p == h * (B * p) + x * p
  {}

  lemma HighBitsAll(w: seq<u32>)
    ensures HighBits(w, 0) == Val(w)
  {
    HighBitsOfLimbs(w, 0);
  }
}
