/** Machine words and optional results. */
module Words {
  type u8 = x: int | 0 <= x < 0x100
  type u16 = x: int | 0 <= x < 0x1_0000
  type u32 = x: int | 0 <= x < 0x1_0000_0000
  type u64 = x: int | 0 <= x < 0x1_0000_0000_0000_0000

  const M32: int := 0x1_0000_0000
  const M64: int := 0x1_0000_0000_0000_0000

  /** Truncation to 32 bits. */
  function W(x: int): u32 { x % M32 }

  datatype Option<+T> = None | Some(value: T)
}

/** Powers of two, and quotients and remainders by what defines them. */
module Arith {
  import opened Words

  function Pow2(n: nat): (r: nat)
    ensures r >= 1
  {
    if n == 0 then 1 else 2 * Pow2(n - 1)
  }

  lemma {:induction false} Pow2Add(a: nat, b: nat)
    ensures Pow2(a + b) == Pow2(a) * Pow2(b)
  {
    if a > 0 {
      Pow2Add(a - 1, b);
      Pow2Next(a - 1);
      Pow2Next(a - 1 + b);
      hide Pow2;
      assert 2 * (Pow2(a - 1) * Pow2(b)) == (2 * Pow2(a - 1)) * Pow2(b);
    }
  }

  lemma Pow2Next(n: nat)
    ensures Pow2(n + 1) == 2 * Pow2(n)
  {}

  lemma {:induction false} Pow2Monotone(a: nat, b: nat)
    requires a <= b
    ensures Pow2(a) <= Pow2(b)
  {
    if a < b {
      Pow2Monotone(a, b - 1);
    }
  }

  /** The value of a big-endian octet string. */
  ghost function BeVal(be: seq<u8>): nat {
    if be == [] then 0 else BeVal(be[..|be| - 1]) * 0x100 + be[|be| - 1]
  }

  lemma BeValNext(be: seq<u8>, b: u8)
    ensures BeVal(be + [b]) == BeVal(be) * 0x100 + b
  {
    assert (be + [b])[..|be|] == be;
  }

  lemma DivModUnique(x: int, m: int, q: int, r: int)
    requires m > 0 && x == q * m + r && 0 <= r < m
    ensures x / m == q && x % m == r
  {
    var d := q - x / m;
    assert d * m == x % m - r;
    MulAway(d, m);
  }

  lemma LowDigit(x: nat, m: nat)
    requires m > 0
    ensures (x / 0x100 % m) * 0x100 + x % 0x100 == x % (0x100 * m)
  {
    var y := x / 0x100;
    var q, r := y / m, (y % m) * 0x100 + x % 0x100;
    assert y % m + 1 <= m;
    assert (q * m) * 0x100 == q * (0x100 * m);
    DivModUnique(x, 0x100 * m, q, r);
  }

  lemma MulAway(d: int, m: int)
    requires m > 0
    ensures d >= 1 ==> d * m >= m
    ensures d <= -1 ==> d * m <= -m
  {}

  lemma Pow2At32()
    ensures Pow2(32) == M32 && Pow2(31) == 0x8000_0000
  {
    Pow2At8();
    hide Pow2;
    Pow2Add(8, 8);
    Pow2Add(16, 8);
    Pow2Add(24, 8);
    Pow2Add(24, 7);
  }

  lemma Pow2At8()
    ensures Pow2(0) == 1 && Pow2(7) == 0x80 && Pow2(8) == 0x100
  {
    assert Pow2(4) == 0x10;
  }

  /** The bits of a quotient by p are those of the quotient by 2p and one more. */
  lemma Halve(x: nat, p: nat)
    requires p > 0
    ensures x / p == 2 * (x / (2 * p)) + x / p % 2
  {
    var a := x / p;
    var h, b := a / 2, a % 2;
    Distribute(h, b, p);
    BelowTwice(b, p, x % p);
    DivModUnique(x, 2 * p, h, b * p + x % p);
  }

  lemma Distribute(h: int, b: int, p: int)
    ensures (2 * h + b) * p == h * (2 * p) + b * p
  {}

  lemma BelowTwice(b: int, p: int, r: int)
    requires 0 <= b <= 1 && 0 <= r < p
    ensures 0 <= b * p + r < 2 * p
  {}
}
