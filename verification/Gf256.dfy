/** Bytes as table indices. */
module Octets {
  function Index(b: bv8): (i: int)
    ensures 0 <= i < 256
  {
    b as int
  }

  /** The byte that is i, by counting. */
  function Byte(i: int): bv8
    requires 0 <= i < 256
  {
    if i == 0 then 0 else Byte(i - 1) + 1
  }

  lemma Next(b: bv8)
    requires Index(b) != 255
    ensures Index(b + 1) == Index(b) + 1
  {
    assert b != 255;
  }

  lemma {:induction false} ByteIndex(i: int)
    requires 0 <= i < 256
    ensures Index(Byte(i)) == i
  {
    hide Index;
    if i == 0 {
      First();
    } else {
      ByteIndex(i - 1);
      Next(Byte(i - 1));
    }
  }

  lemma First()
    ensures Index(0) == 0
  {}

  /** Different bytes have different indices. */
  lemma IndexByte(b: bv8)
    ensures Byte(Index(b)) == b
  {
    ByteIndex(Index(b));
    Injective(Byte(Index(b)), b);
  }

  lemma Injective(b: bv8, c: bv8)
    requires Index(b) == Index(c)
    ensures b == c
  {
    assert (b as int) as bv8 == b && (c as int) as bv8 == c;
  }
}

/** Arithmetic in GF(2^8) and the S-box (aes.cpp; sections 4.2 and 5.1.1 of FIPS 197). */
module Gf256 {
  /** The sum in GF(2^8). */
  function Add(a: bv8, b: bv8): bv8 { a ^ b }

  function Shl(a: bv8): bv8 { a << 1 }

  function Shr(a: bv8): bv8 { a >> 1 }

  predicate High(a: bv8) { a & 0x80 != 0 }

  predicate Odd(a: bv8) { a & 1 != 0 }

  /** Multiplication by x modulo x^8 + x^4 + x^3 + x + 1. */
  function Xtime(a: bv8): bv8 {
    if High(a) then Add(Shl(a), 0x1b) else Shl(a)
  }

  /** Adds to r the multiples x^k * a for the low n bits k of b. */
  function Rounds(r: bv8, a: bv8, b: bv8, n: nat): bv8
    decreases n
  {
    if n == 0 then r
    else Rounds(if Odd(b) then Add(r, a) else r, Xtime(a), Shr(b), n - 1)
  }

  function Mul(a: bv8, b: bv8): bv8 { Rounds(0, a, b, 8) }

  method GfMul(a0: bv8, b0: bv8) returns (r: bv8)
    ensures r == Mul(a0, b0)
  {
    r := 0;
    var a, b := a0, b0;
    for i := 0 to 8
      invariant Rounds(r, a, b, 8 - i) == Mul(a0, b0)
    {
      if b & 1 != 0 {
        r := r ^ a;
      }
      var hi := a & 0x80;
      a := a << 1;
      if hi != 0 {
        a := a ^ 0x1b;
      }
      b := b >> 1;
    }
  }

  // ----- the ring laws

  lemma AddLaws(a: bv8, b: bv8, c: bv8)
    ensures Add(a, b) == Add(b, a)
    ensures Add(Add(a, b), c) == Add(a, Add(b, c))
    ensures Add(a, 0) == a && Add(0, a) == a && Add(a, a) == 0
  {}

  /** The two middle terms change places. */
  lemma Exchange(p: bv8, q: bv8, r: bv8, s: bv8)
    ensures Add(Add(p, q), Add(r, s)) == Add(Add(p, r), Add(q, s))
  {
    hide Add;
    AddLaws(p, q, Add(r, s));
    AddLaws(q, r, s);
    AddLaws(r, q, s);
    AddLaws(p, r, Add(q, s));
  }

  lemma ShlSum(a: bv8, c: bv8)
    ensures Shl(Add(a, c)) == Add(Shl(a), Shl(c))
    ensures High(Add(a, c)) == (High(a) != High(c))
  {}

  lemma XtimeSum(a: bv8, c: bv8)
    ensures Xtime(Add(a, c)) == Add(Xtime(a), Xtime(c))
  {
    hide Add, Shl, High;
    ShlSum(a, c);
    var p: bv8, q: bv8 := if High(a) then 0x1b else 0, if High(c) then 0x1b else 0;
    AddLaws(Shl(a), 0, 0);
    AddLaws(Shl(c), 0, 0);
    AddLaws(p, q, 0);
    AddLaws(q, 0, 0);
    AddLaws(Add(Shl(a), Shl(c)), 0, 0);
    Exchange(Shl(a), p, Shl(c), q);
  }

  lemma {:induction false} RoundsSum(r: bv8, s: bv8, a: bv8, c: bv8, b: bv8, n: nat)
    ensures Rounds(Add(r, s), Add(a, c), b, n) == Add(Rounds(r, a, b, n), Rounds(s, c, b, n))
    decreases n
  {
    hide Add, Xtime, Odd, Shr;
    if n > 0 {
      XtimeSum(a, c);
      Exchange(r, s, a, c);
      RoundsSum(if Odd(b) then Add(r, a) else r, if Odd(b) then Add(s, c) else s, Xtime(a), Xtime(c), Shr(b), n - 1);
    }
  }

  lemma {:induction false} RoundsXtime(r: bv8, a: bv8, b: bv8, n: nat)
    ensures Rounds(Xtime(r), Xtime(a), b, n) == Xtime(Rounds(r, a, b, n))
    decreases n
  {
    hide Add, Xtime, Odd, Shr;
    if n > 0 {
      XtimeSum(r, a);
      RoundsXtime(if Odd(b) then Add(r, a) else r, Xtime(a), Shr(b), n - 1);
    }
  }

  lemma XtimeZero()
    ensures Xtime(0) == 0
  {}

  lemma {:induction false} RoundsConst(r: bv8, b: bv8, n: nat)
    ensures Rounds(r, 0, b, n) == r
    decreases n
  {
    hide Add, Xtime, Odd, Shr;
    XtimeZero();
    AddLaws(r, 0, 0);
    if n > 0 {
      RoundsConst(r, Shr(b), n - 1);
    }
  }

  lemma MulZero(a: bv8)
    ensures Mul(0, a) == 0
  {
    RoundsConst(0, a, 8);
  }

  lemma MulSum(a: bv8, c: bv8, b: bv8)
    ensures Mul(Add(a, c), b) == Add(Mul(a, b), Mul(c, b))
  {
    hide Add, Rounds;
    AddLaws(0, 0, 0);
    RoundsSum(0, 0, a, c, b, 8);
  }

  lemma MulXtime(a: bv8, b: bv8)
    ensures Mul(Xtime(a), b) == Xtime(Mul(a, b))
  {
    hide Xtime, Rounds;
    XtimeZero();
    RoundsXtime(0, a, b, 8);
  }

  function Bit(b: bv8, k: bv8, c: bv8): bv8 {
    if b & k != 0 then c else 0
  }

  /** The first four rounds of a multiplication. */
  function Half(r: bv8, a: bv8, b: bv8): (bv8, bv8, bv8) {
    var r1 := Add(r, Bit(b, 1, a));
    var a1 := Xtime(a);
    var r2 := Add(r1, Bit(b, 2, a1));
    var a2 := Xtime(a1);
    var r3 := Add(r2, Bit(b, 4, a2));
    var a3 := Xtime(a2);
    (Add(r3, Bit(b, 8, a3)), Xtime(a3), b >> 4)
  }

  lemma RoundsNext(r: bv8, a: bv8, b: bv8, n: nat)
    ensures Rounds(r, a, b, n + 1) == Rounds(Add(r, Bit(b, 1, a)), Xtime(a), Shr(b), n)
  {
    hide Add, Xtime, Shr;
    AddLaws(r, 0, 0);
  }

  lemma ShiftedBits(b: bv8, x: bv8)
    ensures Bit(Shr(b), 1, x) == Bit(b, 2, x)
    ensures Bit(Shr(Shr(b)), 1, x) == Bit(b, 4, x)
    ensures Bit(Shr(Shr(Shr(b))), 1, x) == Bit(b, 8, x)
    ensures Shr(Shr(Shr(Shr(b)))) == b >> 4
  {}

  lemma HalfIs(r: bv8, a: bv8, b: bv8, n: nat)
    ensures var h := Half(r, a, b); Rounds(r, a, b, n + 4) == Rounds(h.0, h.1, h.2, n)
  {
    hide Xtime, Rounds, Add, Bit, Shr;
    var a1 := Xtime(a);
    var a2 := Xtime(a1);
    ShiftedBits(b, a1);
    ShiftedBits(b, a2);
    ShiftedBits(b, Xtime(a2));
    var r1 := Add(r, Bit(b, 1, a));
    var r2 := Add(r1, Bit(b, 2, a1));
    RoundsNext(r, a, b, n + 3);
    RoundsNext(r1, a1, Shr(b), n + 2);
    RoundsNext(r2, a2, Shr(Shr(b)), n + 1);
    RoundsNext(Add(r2, Bit(b, 4, a2)), Xtime(a2), Shr(Shr(Shr(b))), n);
  }

  lemma Halves(a: bv8, b: bv8)
    ensures var h := Half(0, a, b); Mul(a, b) == Half(h.0, h.1, h.2).0
  {
    hide Half, Rounds;
    HalfIs(0, a, b, 4);
    var h := Half(0, a, b);
    HalfIs(h.0, h.1, h.2, 0);
    var g := Half(h.0, h.1, h.2);
    NoRounds(g.0, g.1, g.2);
  }

  lemma NoRounds(r: bv8, a: bv8, b: bv8)
    ensures Rounds(r, a, b, 0) == r
  {}

  lemma MulOne(a: bv8)
    ensures Mul(1, a) == a
  {
    hide Half, Mul;
    Halves(1, a);
    OneHalves(a);
  }

  lemma OneHalves(a: bv8)
    ensures var h := Half(0, 1, a); Half(h.0, h.1, h.2).0 == a
  {}

  /** b is its lowest bit plus x times its other bits. */
  lemma BitStep(b: bv8, n: nat)
    requires 0 < n <= 8 && b >> n == 0
    ensures Shr(b) >> (n - 1) == 0
    ensures b == Add(if Odd(b) then 1 else 0, Xtime(Shr(b)))
  {}

  lemma {:induction false} RoundsCommute(a: bv8, b: bv8, n: nat)
    requires n <= 8 && b >> n == 0
    ensures Rounds(0, a, b, n) == Mul(b, a)
    decreases n
  {
    if n == 0 {
      assert b == 0;
      MulZero(a);
    } else {
      BitStep(b, n);
      RoundsCommute(a, Shr(b), n - 1);
      CommuteStep(a, b, n);
    }
  }

  lemma CommuteStep(a: bv8, b: bv8, n: nat)
    requires n > 0 && b == Add(if Odd(b) then 1 else 0, Xtime(Shr(b)))
    requires Rounds(0, a, Shr(b), n - 1) == Mul(Shr(b), a)
    ensures Rounds(0, a, b, n) == Mul(b, a)
  {
    var bit: bv8, low: bv8 := if Odd(b) then 1 else 0, if Odd(b) then a else 0;
    AddLaws(a, 0, 0);
    assert Rounds(0, a, b, n) == Rounds(low, Xtime(a), Shr(b), n - 1);
    hide Add, Xtime, Odd, Shr, Rounds;
    MulZero(a);
    MulOne(a);
    AddLaws(low, 0, 0);
    AddLaws(Xtime(a), 0, 0);
    XtimeZero();
    RoundsSum(low, 0, 0, Xtime(a), Shr(b), n - 1);
    RoundsConst(low, Shr(b), n - 1);
    RoundsXtime(0, a, Shr(b), n - 1);
    MulXtime(Shr(b), a);
    hide Mul;
    MulSum(bit, Xtime(Shr(b)), a);
  }

  lemma Commute(a: bv8, b: bv8)
    ensures Mul(a, b) == Mul(b, a)
  {
    assert b >> 8 == 0;
    RoundsCommute(a, b, 8);
  }

  /** Multiplying the loop's operands by c multiplies its result. */
  lemma {:induction false} RoundsScale(c: bv8, r: bv8, a: bv8, b: bv8, n: nat)
    ensures Rounds(Mul(r, c), Mul(a, c), b, n) == Mul(Rounds(r, a, b, n), c)
    decreases n
  {
    hide Add, Xtime, Odd, Shr, Mul;
    if n > 0 {
      MulSum(r, a, c);
      MulXtime(a, c);
      RoundsScale(c, if Odd(b) then Add(r, a) else r, Xtime(a), Shr(b), n - 1);
    }
  }

  lemma Swap(a: bv8, b: bv8, c: bv8)
    ensures Mul(Mul(a, c), b) == Mul(Mul(a, b), c)
  {
    MulZero(c);
    RoundsScale(c, 0, a, b, 8);
  }

  lemma Associate(a: bv8, b: bv8, c: bv8)
    ensures Mul(Mul(a, b), c) == Mul(a, Mul(b, c))
  {
    hide Mul;
    Commute(a, b);
    Swap(b, a, c);
    Commute(Mul(b, c), a);
  }

  // ----- the inverse

  /** The square, bit by bit: squaring is linear. */
  function Square(a: bv8): bv8 {
    Bit(a, 1, 1) ^ Bit(a, 2, 4) ^ Bit(a, 4, 0x10) ^ Bit(a, 8, 0x40)
    ^ Bit(a, 16, 0x1b) ^ Bit(a, 32, 0x6c) ^ Bit(a, 64, 0xab) ^ Bit(a, 128, 0x9a)
  }

  lemma Idempotent(n: bv8)
    requires Square(n) == n
    ensures n == 0 || n == 1
  {}

  lemma SquareIs(a: bv8)
    ensures Square(a) == Mul(a, a)
  {
    var lo, hi := a & 0x0f, a & 0xf0;
    NibbleSum(a);
    LowSquare(lo);
    HighSquare(hi);
    hide Half, Mul, Square, Add;
    Halves(lo, lo);
    Halves(hi, hi);
    SquareOfSum(lo, hi);
  }

  /** Squaring is linear, here on the two halves of a byte. */
  lemma NibbleSum(a: bv8)
    ensures var lo, hi := a & 0x0f, a & 0xf0;
            a == Add(lo, hi) && Square(a) == Add(Square(lo), Square(hi)) && lo & 0xf0 == 0 && hi & 0x0f == 0
  {}

  lemma LowSquare(a: bv8)
    requires a & 0xf0 == 0
    ensures var h := Half(0, a, a); Half(h.0, h.1, h.2).0 == Square(a)
  {}

  lemma HighSquare(a: bv8)
    requires a & 0x0f == 0
    ensures var h := Half(0, a, a); Half(h.0, h.1, h.2).0 == Square(a)
  {}

  /** The mixed terms of a square cancel. */
  lemma SquareOfSum(a: bv8, b: bv8)
    ensures Mul(Add(a, b), Add(a, b)) == Add(Mul(a, a), Mul(b, b))
  {
    hide Mul, Add;
    var c := Add(a, b);
    MulSum(a, b, c);
    Commute(a, c);
    MulSum(a, b, a);
    Commute(b, c);
    MulSum(a, b, b);
    Commute(a, b);
    AddLaws(Mul(a, a), Mul(b, a), Add(Mul(b, a), Mul(b, b)));
    AddLaws(Mul(b, a), Mul(b, a), Mul(b, b));
    AddLaws(Mul(b, a), 0, 0);
    AddLaws(Mul(b, b), 0, 0);
  }

  /** a^254 as the source's loop computes it: the product of a^2, a^4, ..., a^128. */
  function Inverse(a: bv8): bv8 { Powers(1, a, 254) }

  /** The rest of the square-and-multiply loop. */
  function Powers(r: bv8, p: bv8, e: nat): bv8
    decreases e
  {
    if e == 0 then r else Powers(if e % 2 == 1 then Mul(r, p) else r, Mul(p, p), e / 2)
  }

  method GfInv(a: bv8) returns (r: bv8)
    ensures r == Inverse(a)
  {
    r := 1;
    var p := a;
    var e := 254;
    while e != 0
      invariant e >= 0 && Powers(r, p, e) == Inverse(a)
    {
      if e % 2 == 1 {
        r := GfMul(r, p);
      }
      p := GfMul(p, p);
      e := e / 2;
    }
  }

  /** n squarings. */
  function Squares(a: bv8, n: nat): bv8 {
    if n == 0 then a else Square(Squares(a, n - 1))
  }

  lemma SquareSum(a: bv8, b: bv8)
    ensures Square(Add(a, b)) == Add(Square(a), Square(b))
  {
    hide Square, Mul, Add;
    SquareIs(a);
    SquareIs(b);
    SquareIs(Add(a, b));
    SquareOfSum(a, b);
  }

  lemma SquareProduct(a: bv8, b: bv8)
    ensures Square(Mul(a, b)) == Mul(Square(a), Square(b))
  {
    hide Square, Mul;
    SquareIs(a);
    SquareIs(b);
    SquareIs(Mul(a, b));
    Associate(Mul(a, b), a, b);
    Swap(a, b, a);
    Associate(Mul(a, a), b, b);
  }

  lemma {:induction false} SquaresSum(a: bv8, b: bv8, n: nat)
    ensures Squares(Add(a, b), n) == Add(Squares(a, n), Squares(b, n))
  {
    hide Square, Add;
    if n > 0 {
      SquaresSum(a, b, n - 1);
      SquareSum(Squares(a, n - 1), Squares(b, n - 1));
    }
  }

  lemma {:induction false} SquaresProduct(a: bv8, b: bv8, n: nat)
    ensures Squares(Mul(a, b), n) == Mul(Squares(a, n), Squares(b, n))
  {
    hide Square, Mul;
    if n > 0 {
      SquaresProduct(a, b, n - 1);
      SquareProduct(Squares(a, n - 1), Squares(b, n - 1));
    }
  }

  /** Eight squarings leave 0, 1 and x as they are. */
  lemma EightOfX()
    ensures Squares(0, 8) == 0 && Squares(1, 8) == 1 && Squares(2, 8) == 2
  {
    SquareTable();
    hide Square;
    assert Squares(0, 4) == 0 && Squares(1, 4) == 1;
    assert Squares(2, 4) == 0x5e;
  }

  lemma SquareTable()
    ensures Square(0) == 0 && Square(1) == 1
    ensures Square(0x02) == 0x04 && Square(0x04) == 0x10 && Square(0x10) == 0x1b && Square(0x1b) == 0x5e
    ensures Square(0x5e) == 0xe4 && Square(0xe4) == 0x4d && Square(0x4d) == 0xfa && Square(0xfa) == 0x02
  {}

  /** Eight squarings are the identity: they respect sums and products and keep x. */
  lemma {:induction false} EightSquares(b: bv8, n: nat)
    requires n <= 8 && b >> n == 0
    ensures Squares(b, 8) == b
    decreases n
  {
    EightOfX();
    if n == 0 {
      assert b == 0;
    } else {
      BitStep(b, n);
      EightSquares(Shr(b), n - 1);
      assert Xtime(1) == 2;
      hide Add, Xtime, Shr, Odd, Mul, Squares;
      MulXtime(1, Shr(b));
      MulOne(Shr(b));
      SquaresProduct(2, Shr(b), 8);
      SquaresSum(if Odd(b) then 1 else 0, Xtime(Shr(b)), 8);
    }
  }

  lemma SquaresUnrolled(a: bv8)
    ensures Squares(a, 8) == Square(Square(Square(Square(Square(Square(Square(Square(a))))))))
  {
    hide Square, Squares;
    SquaresNone(a);
    SquaresNext(a, 0);
    SquaresNext(a, 1);
    SquaresNext(a, 2);
    SquaresNext(a, 3);
    SquaresNext(a, 4);
    SquaresNext(a, 5);
    SquaresNext(a, 6);
    SquaresNext(a, 7);
  }

  lemma SquaresNone(a: bv8)
    ensures Squares(a, 0) == a
  {}

  lemma SquaresNext(a: bv8, n: nat)
    ensures Squares(a, n + 1) == Square(Squares(a, n))
  {}

  /** One turn of the loop: if q * a^2 is the current power, so it is afterwards. */
  lemma PowersStep(q: bv8, p: bv8, a: bv8, e: nat)
    requires Mul(q, Mul(a, a)) == p && e % 2 == 1
    ensures Powers(q, p, e) == Powers(Mul(q, p), Square(p), e / 2)
    ensures Mul(Mul(q, p), Mul(a, a)) == Square(p)
  {
    hide Mul, Square;
    SquareIs(p);
    Swap(q, Mul(a, a), p);
  }

  /** The inverse times a^2 is a. */
  lemma InverseTimesSquare(a: bv8)
    ensures Mul(Inverse(a), Mul(a, a)) == a
  {
    hide Mul, Square, Powers;
    assert a >> 8 == 0;
    EightSquares(a, 8);
    SquaresUnrolled(a);
    SquareIs(a);
    PowersStart(a);
    var p := Square(a);
    SquareIs(p);
    var q := p;
    PowersStep(q, Square(p), a, 63);
    q, p := Mul(q, Square(p)), Square(p);
    PowersStep(q, Square(p), a, 31);
    q, p := Mul(q, Square(p)), Square(p);
    PowersStep(q, Square(p), a, 15);
    q, p := Mul(q, Square(p)), Square(p);
    PowersStep(q, Square(p), a, 7);
    q, p := Mul(q, Square(p)), Square(p);
    PowersStep(q, Square(p), a, 3);
    q, p := Mul(q, Square(p)), Square(p);
    PowersStep(q, Square(p), a, 1);
    q, p := Mul(q, Square(p)), Square(p);
    PowersEnd(q, Square(p));
  }

  lemma PowersStart(a: bv8)
    ensures Inverse(a) == Powers(Square(a), Square(Square(a)), 63)
  {
    hide Mul, Square, Powers;
    SquareIs(a);
    SquareIs(Square(a));
    MulOne(Square(a));
    PowersNext(1, a, 254);
    PowersNext(1, Square(a), 127);
  }

  lemma PowersNext(r: bv8, p: bv8, e: nat)
    requires e > 0
    ensures Powers(r, p, e) == Powers(if e % 2 == 1 then Mul(r, p) else r, Mul(p, p), e / 2)
  {
    hide Mul;
  }

  lemma PowersEnd(r: bv8, p: bv8)
    ensures Powers(r, p, 0) == r
  {}

  /** Every nonzero element times its inverse is one. */
  lemma InverseIs(a: bv8)
    ensures a != 0 ==> Mul(Inverse(a), a) == 1
    ensures Inverse(0) == 0
  {
    hide Mul, Square, Inverse;
    var i := Inverse(a);
    var n := Mul(i, a);
    InverseTimesSquare(a);
    Associate(i, a, a);
    Associate(n, i, a);
    Swap(n, a, i);
    Swap(i, a, a);
    Commute(a, i);
    SquareIs(n);
    Idempotent(n);
    MulZero(a);
    InverseZero();
  }

  lemma InverseZero()
    ensures Inverse(0) == 0
  {
    hide Mul, Square;
    assert Square(0) == 0 by { SquareZero(); }
    SquareIs(0);
    MulZero(0);
    PowersStart(0);
    PowersZero(63);
  }

  lemma SquareZero()
    ensures Square(0) == 0
  {}

  lemma {:induction false} PowersZero(e: nat)
    ensures Powers(0, 0, e) == 0
    decreases e
  {
    hide Mul;
    MulZero(0);
    if e != 0 {
      PowersZero(e / 2);
    }
  }

  lemma InverseTwice(a: bv8)
    ensures Inverse(Inverse(a)) == a
  {
    hide Mul, Inverse;
    var b := Inverse(a);
    InverseIs(a);
    if a != 0 {
      MulZero(a);
      InverseIs(b);
      var c := Inverse(b);
      Associate(c, b, a);
      MulOne(a);
      Commute(c, 1);
      MulOne(c);
    }
  }

  /** The inverse is the only one. */
  lemma InverseUnique(a: bv8, b: bv8)
    requires Mul(a, b) == 1
    ensures b == Inverse(a)
  {
    hide Mul, Inverse;
    var c := Inverse(a);
    InverseIs(a);
    MulZero(b);
    if a != 0 {
      Associate(c, a, b);
      MulOne(b);
      Commute(c, 1);
      MulOne(c);
    } else {
      NotOne();
    }
  }

  lemma NotOne()
    ensures (0 as bv8) != 1
  {}

  // ----- the S-box

  function Rotl(v: bv8, n: nat): bv8
    requires n <= 8
  {
    (v << n) | (v >> (8 - n))
  }

  function Affine(b: bv8): bv8 {
    b ^ Rotl(b, 1) ^ Rotl(b, 2) ^ Rotl(b, 3) ^ Rotl(b, 4) ^ 0x63
  }

  function UnAffine(y: bv8): bv8 {
    Rotl(y, 1) ^ Rotl(y, 3) ^ Rotl(y, 6) ^ 0x05
  }

  /** Section 5.1.1, bit by bit: the sum of five bits of b and one of 01100011. */
  lemma AffineBits(b: bv8)
    ensures (Affine(b) >> 0) & 1 == ((b >> 0) ^ (b >> 4) ^ (b >> 5) ^ (b >> 6) ^ (b >> 7) ^ (0x63 >> 0)) & 1
    ensures (Affine(b) >> 1) & 1 == ((b >> 1) ^ (b >> 5) ^ (b >> 6) ^ (b >> 7) ^ (b >> 0) ^ (0x63 >> 1)) & 1
    ensures (Affine(b) >> 2) & 1 == ((b >> 2) ^ (b >> 6) ^ (b >> 7) ^ (b >> 0) ^ (b >> 1) ^ (0x63 >> 2)) & 1
    ensures (Affine(b) >> 3) & 1 == ((b >> 3) ^ (b >> 7) ^ (b >> 0) ^ (b >> 1) ^ (b >> 2) ^ (0x63 >> 3)) & 1
    ensures (Affine(b) >> 4) & 1 == ((b >> 4) ^ (b >> 0) ^ (b >> 1) ^ (b >> 2) ^ (b >> 3) ^ (0x63 >> 4)) & 1
    ensures (Affine(b) >> 5) & 1 == ((b >> 5) ^ (b >> 1) ^ (b >> 2) ^ (b >> 3) ^ (b >> 4) ^ (0x63 >> 5)) & 1
    ensures (Affine(b) >> 6) & 1 == ((b >> 6) ^ (b >> 2) ^ (b >> 3) ^ (b >> 4) ^ (b >> 5) ^ (0x63 >> 6)) & 1
    ensures (Affine(b) >> 7) & 1 == ((b >> 7) ^ (b >> 3) ^ (b >> 4) ^ (b >> 5) ^ (b >> 6) ^ (0x63 >> 7)) & 1
  {}

  lemma AffineInverse(b: bv8)
    ensures UnAffine(Affine(b)) == b && Affine(UnAffine(b)) == b
  {
    hide Affine, UnAffine;
    AffineUndone(b);
    UnAffineUndone(b);
  }

  lemma AffineUndone(b: bv8)
    ensures UnAffine(Affine(b)) == b
  {}

  lemma UnAffineUndone(b: bv8)
    ensures Affine(UnAffine(b)) == b
  {}

  function SubByte(b: bv8): bv8 { Affine(Inverse(b)) }

  function UnSubByte(y: bv8): bv8 { Inverse(UnAffine(y)) }

  /** The S-box is a bijection. */
  lemma SubByteInverse(b: bv8)
    ensures UnSubByte(SubByte(b)) == b && SubByte(UnSubByte(b)) == b
  {
    hide Affine, UnAffine, Inverse;
    AffineInverse(Inverse(b));
    AffineInverse(b);
    InverseTwice(b);
    InverseTwice(UnAffine(b));
  }

  /** The entries that the source checks when it is compiled. */
  lemma SboxSpots()
    ensures SubByte(0x00) == 0x63 && SubByte(0x01) == 0x7c && SubByte(0x53) == 0xed && SubByte(0xff) == 0x16
    ensures UnSubByte(0x63) == 0x00 && UnSubByte(0xed) == 0x53
  {
    Halves(0x53, 0xca);
    Halves(0xff, 0x1c);
    hide Mul, Inverse;
    MulOne(1);
    InverseIs(0);
    InverseUnique(1, 1);
    InverseUnique(0x53, 0xca);
    InverseUnique(0xff, 0x1c);
    SubByteInverse(0x00);
    SubByteInverse(0x53);
  }
}
