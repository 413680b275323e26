/** Modular arithmetic over the integers, for the proofs about Montgomery multiplication. */
module ModArith {
  import opened Words
  import opened Arith

  /** The base of the limbs. */
  const B: int := M32

  /** The weight of limb n: 2^(32n). */
  function Pow(n: nat): (r: nat)
    ensures r >= 1
  {
    if n == 0 then 1 else B * Pow(n - 1)
  }

  function Power(a: int, e: nat): int {
    if e == 0 then 1 else a * Power(a, e - 1)
  }

  ghost predicate Cong(a: int, b: int, m: int)
    requires m > 0
  {
    a % m == b % m
  }

  lemma CongStep(a: int, b: int, k: int, m: int)
    requires m > 0 && a == b + k * m
    ensures Cong(a, b, m)
  {
    assert a == (b / m + k) * m + b % m;
    DivModUnique(a, m, b / m + k, b % m);
  }

  lemma CongMod(a: int, m: int)
    requires m > 0
    ensures Cong(a % m, a, m) && 0 <= a % m < m
  {
    assert a == a % m + (a / m) * m;
    CongStep(a, a % m, a / m, m);
  }

  lemma CongMul(a: int, b: int, c: int, m: int)
    requires m > 0 && Cong(a, b, m)
    ensures Cong(a * c, b * c, m) && Cong(c * a, c * b, m)
  {
    var k := a / m - b / m;
    assert a == b + k * m;
    assert a * c == b * c + (k * c) * m;
    CongStep(a * c, b * c, k * c, m);
  }

  lemma CongAdd(a: int, b: int, c: int, m: int)
    requires m > 0 && Cong(a, b, m)
    ensures Cong(a + c, b + c, m)
  {
    var k := a / m - b / m;
    assert a == b + k * m;
    CongStep(a + c, b + c, k, m);
  }

  lemma CongSmall(a: int, b: int, m: int)
    requires m > 0 && Cong(a, b, m) && 0 <= a < m
    ensures a == b % m
  {
    DivModUnique(a, m, 0, a);
  }

  lemma {:induction false} PowIsPow2(n: nat)
    ensures Pow(n) == Pow2(32 * n)
  {
    if n > 0 {
      PowIsPow2(n - 1);
      Pow2Add(32, 32 * (n - 1));
      assert Pow2(32) == B by { Pow2At32(); }
    }
  }

  lemma {:induction false} PowAdd(a: nat, b: nat)
    ensures Pow(a + b) == Pow(a) * Pow(b)
  {
    if a > 0 {
      PowAdd(a - 1, b);
      PowNext(a - 1);
      PowNext(a - 1 + b);
      hide Pow;
      Regrouped(B, Pow(a - 1), Pow(b));
    }
  }

  lemma PowNext(n: nat)
    ensures Pow(n + 1) == B * Pow(n)
  {}

  lemma Regrouped(x: int, y: int, z: int)
    ensures x * (y * z) == (x * y) * z
  {}

  lemma {:induction false} PowerAdd(a: int, x: nat, y: nat)
    ensures Power(a, x + y) == Power(a, x) * Power(a, y)
  {
    if x > 0 {
      PowerAdd(a, x - 1, y);
      assert a * (Power(a, x - 1) * Power(a, y)) == (a * Power(a, x - 1)) * Power(a, y);
    }
  }

  lemma {:induction false} PowerCong(a: int, b: int, e: nat, m: int)
    requires m > 0 && Cong(a, b, m)
    ensures Cong(Power(a, e), Power(b, e), m)
  {
    if e > 0 {
      PowerCong(a, b, e - 1, m);
      CongMul(Power(a, e - 1), Power(b, e - 1), a, m);
      CongMul(a, b, Power(b, e - 1), m);
    }
  }
}
