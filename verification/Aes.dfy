/** The AES-128 block transformation and its inverse (aes.cpp; sections 5.1 and 5.3 of
    FIPS 197), for any eleven round keys. */
module Aes {
  import opened Octets
  import opened Gf256

  const ROUNDS := 10

  // ----- columns

  datatype Column = Column(x0: bv8, x1: bv8, x2: bv8, x3: bv8)

  /** The sum of a's entries times k's. */
  function Dot(a: Column, k: Column): bv8 {
    Add(Add(Add(Mul(a.x0, k.x0), Mul(a.x1, k.x1)), Mul(a.x2, k.x2)), Mul(a.x3, k.x3))
  }

  function Scale(k: Column, c: bv8): Column {
    Column(Mul(k.x0, c), Mul(k.x1, c), Mul(k.x2, c), Mul(k.x3, c))
  }

  function Plus(k: Column, l: Column): Column {
    Column(Add(k.x0, l.x0), Add(k.x1, l.x1), Add(k.x2, l.x2), Add(k.x3, l.x3))
  }

  lemma DotScale(a: Column, k: Column, c: bv8)
    ensures Mul(Dot(a, k), c) == Dot(a, Scale(k, c))
  {
    hide Mul, Add;
    MulSum(Add(Add(Mul(a.x0, k.x0), Mul(a.x1, k.x1)), Mul(a.x2, k.x2)), Mul(a.x3, k.x3), c);
    MulSum(Add(Mul(a.x0, k.x0), Mul(a.x1, k.x1)), Mul(a.x2, k.x2), c);
    MulSum(Mul(a.x0, k.x0), Mul(a.x1, k.x1), c);
    Associate(a.x0, k.x0, c);
    Associate(a.x1, k.x1, c);
    Associate(a.x2, k.x2, c);
    Associate(a.x3, k.x3, c);
  }

  lemma MulPlus(a: bv8, k: bv8, l: bv8)
    ensures Mul(a, Add(k, l)) == Add(Mul(a, k), Mul(a, l))
  {
    hide Mul, Add;
    Commute(a, Add(k, l));
    MulSum(k, l, a);
    Commute(a, k);
    Commute(a, l);
  }

  lemma DotPlus(a: Column, k: Column, l: Column)
    ensures Add(Dot(a, k), Dot(a, l)) == Dot(a, Plus(k, l))
  {
    hide Mul, Add;
    MulPlus(a.x0, k.x0, l.x0);
    MulPlus(a.x1, k.x1, l.x1);
    MulPlus(a.x2, k.x2, l.x2);
    MulPlus(a.x3, k.x3, l.x3);
    var p, q := Add(Mul(a.x0, k.x0), Mul(a.x1, k.x1)), Add(Mul(a.x0, l.x0), Mul(a.x1, l.x1));
    Exchange(Add(p, Mul(a.x2, k.x2)), Mul(a.x3, k.x3), Add(q, Mul(a.x2, l.x2)), Mul(a.x3, l.x3));
    Exchange(p, Mul(a.x2, k.x2), q, Mul(a.x2, l.x2));
    Exchange(Mul(a.x0, k.x0), Mul(a.x1, k.x1), Mul(a.x0, l.x0), Mul(a.x1, l.x1));
  }

  /** A matrix, by rows. */
  datatype Matrix = Matrix(r0: Column, r1: Column, r2: Column, r3: Column)

  const MIX := Matrix(Column(2, 3, 1, 1), Column(1, 2, 3, 1), Column(1, 1, 2, 3), Column(3, 1, 1, 2))
  const UNMIX := Matrix(Column(14, 11, 13, 9), Column(9, 14, 11, 13), Column(13, 9, 14, 11), Column(11, 13, 9, 14))
  const UNIT := Matrix(Column(1, 0, 0, 0), Column(0, 1, 0, 0), Column(0, 0, 1, 0), Column(0, 0, 0, 1))

  function Apply(m: Matrix, a: Column): Column {
    Column(Dot(a, m.r0), Dot(a, m.r1), Dot(a, m.r2), Dot(a, m.r3))
  }

  /** The row k of the product k * m. */
  function RowTimes(k: Column, m: Matrix): Column {
    Plus(Plus(Plus(Scale(m.r0, k.x0), Scale(m.r1, k.x1)), Scale(m.r2, k.x2)), Scale(m.r3, k.x3))
  }

  function Times(n: Matrix, m: Matrix): Matrix {
    Matrix(RowTimes(n.r0, m), RowTimes(n.r1, m), RowTimes(n.r2, m), RowTimes(n.r3, m))
  }

  lemma DotApply(k: Column, m: Matrix, a: Column)
    ensures Dot(Apply(m, a), k) == Dot(a, RowTimes(k, m))
  {
    hide Mul, Add, Scale, Plus;
    DotScale(a, m.r0, k.x0);
    DotScale(a, m.r1, k.x1);
    DotScale(a, m.r2, k.x2);
    DotScale(a, m.r3, k.x3);
    DotApplied(k, m, a);
    var s0, s1, s2, s3 := Scale(m.r0, k.x0), Scale(m.r1, k.x1), Scale(m.r2, k.x2), Scale(m.r3, k.x3);
    hide Dot;
    DotPlus(a, s0, s1);
    DotPlus(a, Plus(s0, s1), s2);
    DotPlus(a, Plus(Plus(s0, s1), s2), s3);
  }

  lemma DotApplied(k: Column, m: Matrix, a: Column)
    ensures Dot(Apply(m, a), k) ==
            Add(Add(Add(Mul(Dot(a, m.r0), k.x0), Mul(Dot(a, m.r1), k.x1)), Mul(Dot(a, m.r2), k.x2)), Mul(Dot(a, m.r3), k.x3))
  {
    hide Mul, Add;
  }

  lemma ApplyTwice(n: Matrix, m: Matrix, a: Column)
    ensures Apply(n, Apply(m, a)) == Apply(Times(n, m), a)
  {
    hide Dot, RowTimes;
    DotApply(n.r0, m, a);
    DotApply(n.r1, m, a);
    DotApply(n.r2, m, a);
    DotApply(n.r3, m, a);
  }

  lemma ApplyUnit(a: Column)
    ensures Apply(UNIT, a) == a
  {
    hide Mul, Add;
    UnitTerm(a.x0);
    UnitTerm(a.x1);
    UnitTerm(a.x2);
    UnitTerm(a.x3);
  }

  lemma UnitTerm(x: bv8)
    ensures Mul(x, 0) == 0 && Mul(x, 1) == x
    ensures Add(x, 0) == x && Add(0, x) == x && Add(0, 0) == 0
  {
    hide Mul;
    Commute(x, 0);
    MulZero(x);
    Commute(x, 1);
    MulOne(x);
  }

  lemma Small(k: bv8)
    ensures Mul(1, k) == k && Mul(2, k) == Xtime(k) && Mul(3, k) == Add(Xtime(k), k)
    ensures Mul(k, 1) == k && Mul(k, 2) == Xtime(k) && Mul(k, 3) == Add(Xtime(k), k)
  {
    assert Xtime(1) == 2 && Add(2, 1) == 3;
    hide Mul, Xtime, Add;
    MulOne(k);
    MulXtime(1, k);
    MulSum(2, 1, k);
    Commute(1, k);
    Commute(2, k);
    Commute(3, k);
  }

  lemma MixProducts()
    ensures Times(UNMIX, MIX) == UNIT && Times(MIX, UNMIX) == UNIT
  {
    Small(14);
    Small(11);
    Small(13);
    Small(9);
    hide Mul;
    assert RowTimes(UNMIX.r0, MIX) == UNIT.r0;
    assert RowTimes(UNMIX.r1, MIX) == UNIT.r1;
    assert RowTimes(UNMIX.r2, MIX) == UNIT.r2;
    assert RowTimes(UNMIX.r3, MIX) == UNIT.r3;
    assert RowTimes(MIX.r0, UNMIX) == UNIT.r0;
    assert RowTimes(MIX.r1, UNMIX) == UNIT.r1;
    assert RowTimes(MIX.r2, UNMIX) == UNIT.r2;
    assert RowTimes(MIX.r3, UNMIX) == UNIT.r3;
  }

  /** InvMixColumns undoes MixColumns on every column, and the other way round. */
  lemma MixInverse(a: Column)
    ensures Apply(UNMIX, Apply(MIX, a)) == a && Apply(MIX, Apply(UNMIX, a)) == a
  {
    hide Apply, Times;
    MixProducts();
    ApplyTwice(UNMIX, MIX, a);
    ApplyTwice(MIX, UNMIX, a);
    ApplyUnit(a);
  }

  // ----- blocks

  /** Sixteen bytes, row r of column c at r + 4 * c. */
  type Block = s: seq<bv8> | |s| == 16 witness seq(16, i => 0 as bv8)

  const ZERO: Block := seq(16, i => 0 as bv8)

  function ColumnOf(s: Block, c: nat): Column
    requires c < 4
  {
    Column(s[4 * c], s[4 * c + 1], s[4 * c + 2], s[4 * c + 3])
  }

  function Columns(a: Column, b: Column, c: Column, d: Column): Block {
    [a.x0, a.x1, a.x2, a.x3, b.x0, b.x1, b.x2, b.x3, c.x0, c.x1, c.x2, c.x3, d.x0, d.x1, d.x2, d.x3]
  }

  lemma ColumnsOf(a: Column, b: Column, c: Column, d: Column)
    ensures var s := Columns(a, b, c, d);
            ColumnOf(s, 0) == a && ColumnOf(s, 1) == b && ColumnOf(s, 2) == c && ColumnOf(s, 3) == d
  {}

  lemma WholeBlock(s: Block)
    ensures Columns(ColumnOf(s, 0), ColumnOf(s, 1), ColumnOf(s, 2), ColumnOf(s, 3)) == s
  {}

  function MixWith(m: Matrix, s: Block): Block {
    Columns(Apply(m, ColumnOf(s, 0)), Apply(m, ColumnOf(s, 1)), Apply(m, ColumnOf(s, 2)), Apply(m, ColumnOf(s, 3)))
  }

  /** Section 5.1.3: every column is multiplied by the rotations of 2, 3, 1, 1. */
  lemma MixColumnsAt(s: Block, c: nat, a: Column)
    requires c < 4 && a == ColumnOf(s, c)
    ensures ColumnOf(MixWith(MIX, s), c) == Column(
      Add(Add(Add(Mul(a.x0, 2), Mul(a.x1, 3)), a.x2), a.x3),
      Add(Add(Add(a.x0, Mul(a.x1, 2)), Mul(a.x2, 3)), a.x3),
      Add(Add(Add(a.x0, a.x1), Mul(a.x2, 2)), Mul(a.x3, 3)),
      Add(Add(Add(Mul(a.x0, 3), a.x1), a.x2), Mul(a.x3, 2)))
  {
    hide Mul, Apply, MixWith, ColumnOf, Add;
    MixedColumn(a);
    MixWithAt(s, c);
  }

  lemma MixWithAt(s: Block, c: nat)
    requires c < 4
    ensures ColumnOf(MixWith(MIX, s), c) == Apply(MIX, ColumnOf(s, c))
  {
    hide Apply, Columns, ColumnOf;
    ColumnsOf(Apply(MIX, ColumnOf(s, 0)), Apply(MIX, ColumnOf(s, 1)), Apply(MIX, ColumnOf(s, 2)), Apply(MIX, ColumnOf(s, 3)));
  }

  lemma MixColumnsInverse(s: Block)
    ensures MixWith(UNMIX, MixWith(MIX, s)) == s && MixWith(MIX, MixWith(UNMIX, s)) == s
  {
    hide Apply, ColumnOf, Columns;
    ColumnsOf(Apply(MIX, ColumnOf(s, 0)), Apply(MIX, ColumnOf(s, 1)), Apply(MIX, ColumnOf(s, 2)), Apply(MIX, ColumnOf(s, 3)));
    ColumnsOf(Apply(UNMIX, ColumnOf(s, 0)), Apply(UNMIX, ColumnOf(s, 1)), Apply(UNMIX, ColumnOf(s, 2)), Apply(UNMIX, ColumnOf(s, 3)));
    WholeBlock(s);
    MixInverse(ColumnOf(s, 0));
    MixInverse(ColumnOf(s, 1));
    MixInverse(ColumnOf(s, 2));
    MixInverse(ColumnOf(s, 3));
  }

  /** The byte that moves to i when row r turns left, or right, by r columns. */
  function Left(i: nat): nat { (i + 4 * (i % 4)) % 16 }

  function Right(i: nat): nat { (i + 12 * (i % 4)) % 16 }

  /** Row r is rotated left by r columns. */
  function ShiftRows(s: Block): Block { seq(16, i requires 0 <= i < 16 => s[Left(i)]) }

  /** Row r is rotated right by r columns. */
  function UnShiftRows(s: Block): Block { seq(16, i requires 0 <= i < 16 => s[Right(i)]) }

  /** Section 5.1.2: in row r of column c stands what was r columns to the right. */
  lemma ShiftRowsAt(s: Block, r: nat, c: nat)
    requires r < 4 && c < 4
    ensures ShiftRows(s)[r + 4 * c] == s[r + 4 * ((c + r) % 4)]
  {}

  lemma ShiftRowsInverse(s: Block)
    ensures UnShiftRows(ShiftRows(s)) == s && ShiftRows(UnShiftRows(s)) == s
  {
    forall i | 0 <= i < 16
      ensures UnShiftRows(ShiftRows(s))[i] == s[i] && ShiftRows(UnShiftRows(s))[i] == s[i]
    {
      TurnBack(i);
    }
  }

  lemma TurnBack(i: nat)
    requires i < 16
    ensures Left(Right(i)) == i && Right(Left(i)) == i
  {
    hide Left, Right;
    var r, c := i % 4, i / 4;
    assert i == 4 * c + r;
    Turned(c, r);
    Turned((c + 3 * r) % 4, r);
    Turned((c + r) % 4, r);
    Around(c, r);
  }

  lemma Turned(c: nat, r: nat)
    requires r < 4
    ensures Left(4 * c + r) == 4 * ((c + r) % 4) + r && Right(4 * c + r) == 4 * ((c + 3 * r) % 4) + r
  {
    Turn(c, r, r);
    Turn(c, r, 3 * r);
  }

  lemma Around(c: nat, r: nat)
    requires c < 4 && r < 4
    ensures ((c + 3 * r) % 4 + r) % 4 == c && ((c + r) % 4 + 3 * r) % 4 == c
  {}

  /** Moving k columns on. */
  lemma Turn(c: nat, r: nat, k: nat)
    requires r < 4
    ensures (4 * c + r + 4 * k) % 16 == 4 * ((c + k) % 4) + r && (4 * c + r) % 4 == r
  {
    var q, d := (c + k) / 4, (c + k) % 4;
    Rest(q, d, r);
    assert 4 * c + r + 4 * k == 16 * q + (4 * d + r);
  }

  lemma Rest(q: nat, d: nat, r: nat)
    requires d < 4 && r < 4
    ensures (16 * q + (4 * d + r)) % 16 == 4 * d + r
  {
  }

  lemma Shifted(s: Block, t: Block)
    requires t[0] == s[0] && t[1] == s[5] && t[2] == s[10] && t[3] == s[15]
    requires t[4] == s[4] && t[5] == s[9] && t[6] == s[14] && t[7] == s[3]
    requires t[8] == s[8] && t[9] == s[13] && t[10] == s[2] && t[11] == s[7]
    requires t[12] == s[12] && t[13] == s[1] && t[14] == s[6] && t[15] == s[11]
    ensures t == ShiftRows(s)
  {}

  lemma UnShifted(s: Block, t: Block)
    requires t[0] == s[0] && t[1] == s[13] && t[2] == s[10] && t[3] == s[7]
    requires t[4] == s[4] && t[5] == s[1] && t[6] == s[14] && t[7] == s[11]
    requires t[8] == s[8] && t[9] == s[5] && t[10] == s[2] && t[11] == s[15]
    requires t[12] == s[12] && t[13] == s[9] && t[14] == s[6] && t[15] == s[3]
    ensures t == UnShiftRows(s)
  {}

  function SubBytes(s: Block): Block { seq(16, i requires 0 <= i < 16 => SubByte(s[i])) }

  function UnSubBytes(s: Block): Block { seq(16, i requires 0 <= i < 16 => UnSubByte(s[i])) }

  lemma SubBytesInverse(s: Block)
    ensures UnSubBytes(SubBytes(s)) == s && SubBytes(UnSubBytes(s)) == s
  {
    hide SubByte, UnSubByte;
    forall i | 0 <= i < 16
      ensures UnSubByte(SubByte(s[i])) == s[i] && SubByte(UnSubByte(s[i])) == s[i]
    {
      SubByteInverse(s[i]);
    }
  }

  function AddKey(s: Block, k: Block): Block { seq(16, i requires 0 <= i < 16 => Add(s[i], k[i])) }

  lemma AddKeyTwice(s: Block, k: Block)
    ensures AddKey(AddKey(s, k), k) == s
  {
    hide Add;
    forall i | 0 <= i < 16
      ensures Add(Add(s[i], k[i]), k[i]) == s[i]
    {
      AddLaws(s[i], k[i], k[i]);
      AddLaws(k[i], 0, 0);
      AddLaws(s[i], 0, 0);
    }
  }

  // ----- the cipher

  type Keys = k: seq<Block> | |k| == ROUNDS + 1 witness seq(ROUNDS + 1, i => ZERO)

  /** The state after the first n rounds. */
  function Encrypting(keys: Keys, s: Block, n: nat): Block
    requires n < ROUNDS
  {
    if n == 0 then AddKey(s, keys[0])
    else AddKey(MixWith(MIX, ShiftRows(SubBytes(Encrypting(keys, s, n - 1)))), keys[n])
  }

  function Encrypt(keys: Keys, s: Block): Block {
    AddKey(ShiftRows(SubBytes(Encrypting(keys, s, ROUNDS - 1))), keys[ROUNDS])
  }

  /** The state of the inverse cipher before round n is undone. */
  function Decrypting(keys: Keys, s: Block, n: nat): Block
    requires n < ROUNDS
    decreases ROUNDS - n
  {
    if n == ROUNDS - 1 then AddKey(s, keys[ROUNDS])
    else MixWith(UNMIX, AddKey(UnSubBytes(UnShiftRows(Decrypting(keys, s, n + 1))), keys[n + 1]))
  }

  function Decrypt(keys: Keys, s: Block): Block {
    AddKey(UnSubBytes(UnShiftRows(Decrypting(keys, s, 0))), keys[0])
  }

  /** Before round n is undone, the inverse cipher is in the state round n left, shifted and
      substituted. */
  lemma {:induction false} DecryptsBack(keys: Keys, s: Block, n: nat)
    requires n < ROUNDS
    ensures Decrypting(keys, Encrypt(keys, s), n) == ShiftRows(SubBytes(Encrypting(keys, s, n)))
    decreases ROUNDS - n
  {
    hide MixWith, ShiftRows, UnShiftRows, SubBytes, UnSubBytes, AddKey;
    if n == ROUNDS - 1 {
      AddKeyTwice(ShiftRows(SubBytes(Encrypting(keys, s, n))), keys[ROUNDS]);
    } else {
      DecryptsBack(keys, s, n + 1);
      var e := Encrypting(keys, s, n + 1);
      var mixed := ShiftRows(SubBytes(Encrypting(keys, s, n)));
      ShiftRowsInverse(SubBytes(e));
      SubBytesInverse(e);
      AddKeyTwice(MixWith(MIX, mixed), keys[n + 1]);
      MixColumnsInverse(mixed);
    }
  }

  lemma {:induction false} EncryptsBack(keys: Keys, s: Block, n: nat)
    requires n < ROUNDS
    ensures Encrypting(keys, Decrypt(keys, s), n) == UnSubBytes(UnShiftRows(Decrypting(keys, s, n)))
  {
    hide MixWith, ShiftRows, UnShiftRows, SubBytes, UnSubBytes, AddKey;
    if n == 0 {
      AddKeyTwice(UnSubBytes(UnShiftRows(Decrypting(keys, s, 0))), keys[0]);
    } else {
      EncryptsBack(keys, s, n - 1);
      var d := Decrypting(keys, s, n - 1);
      var added := AddKey(UnSubBytes(UnShiftRows(Decrypting(keys, s, n))), keys[n]);
      SubBytesInverse(UnShiftRows(d));
      ShiftRowsInverse(d);
      MixColumnsInverse(added);
      AddKeyTwice(UnSubBytes(UnShiftRows(Decrypting(keys, s, n))), keys[n]);
    }
  }

  /** Encryption and decryption are mutual inverses, for all round keys and all blocks. */
  lemma CipherInverse(keys: Keys, s: Block)
    ensures Decrypt(keys, Encrypt(keys, s)) == s && Encrypt(keys, Decrypt(keys, s)) == s
  {
    hide MixWith, ShiftRows, UnShiftRows, SubBytes, UnSubBytes, AddKey;
    var e, d := Encrypting(keys, s, 0), Decrypting(keys, s, ROUNDS - 1);
    DecryptsBack(keys, s, 0);
    ShiftRowsInverse(SubBytes(e));
    SubBytesInverse(e);
    AddKeyTwice(s, keys[0]);
    EncryptsBack(keys, s, ROUNDS - 1);
    SubBytesInverse(UnShiftRows(d));
    ShiftRowsInverse(d);
    AddKeyTwice(s, keys[ROUNDS]);
  }

  /** The block with k added, bit by bit. */
  function Xored(s: Block, k: Block): Block { seq(16, i requires 0 <= i < 16 => s[i] ^ k[i]) }

  /** Section 5.1.4: the round key of round n is added to the state that round leaves, and no
      round before it has seen it. */
  lemma {:induction false} RoundKeyEnters(keys: Keys, s: Block, n: nat, k: Block, m: nat)
    requires n < ROUNDS && m <= n
    ensures m < n ==> Encrypting(keys[n := k], s, m) == Encrypting(keys, s, m)
    ensures m == n ==> Encrypting(keys[n := k], s, n) == Xored(Encrypting(keys, s, n), Xored(keys[n], k))
  {
    hide MixWith, ShiftRows, SubBytes, AddKey, Xored;
    if m > 0 {
      RoundKeyEnters(keys, s, n, k, m - 1);
    }
    if m == n {
      AnotherKey(if n == 0 then s else MixWith(MIX, ShiftRows(SubBytes(Encrypting(keys, s, n - 1)))), keys[n], k);
    }
  }

  lemma AnotherKey(s: Block, j: Block, k: Block)
    ensures AddKey(s, k) == Xored(AddKey(s, j), Xored(j, k))
  {
    forall i | 0 <= i < 16
      ensures s[i] ^ k[i] == (s[i] ^ j[i]) ^ (j[i] ^ k[i])
    {
      SameBits(s[i], j[i], k[i]);
    }
  }

  lemma SameBits(x: bv8, y: bv8, z: bv8)
    ensures x ^ z == (x ^ y) ^ (y ^ z)
  {}

  /** Another last round key changes exactly the bits in which it differs. */
  lemma LastKey(keys: Keys, s: Block, k: Block, i: nat)
    requires i < 16
    ensures Encrypt(keys[10 := k], s)[i] == Encrypt(keys, s)[i] ^ (keys[10][i] ^ k[i])
  {
    hide MixWith, ShiftRows, SubBytes;
    SameRounds(keys, s, k, ROUNDS - 1);
    var e := ShiftRows(SubBytes(Encrypting(keys, s, ROUNDS - 1)));
    SameBits(e[i], keys[10][i], k[i]);
  }

  lemma {:induction false} SameRounds(keys: Keys, s: Block, k: Block, n: nat)
    requires n < ROUNDS
    ensures Encrypting(keys[10 := k], s, n) == Encrypting(keys, s, n)
  {
    hide MixWith, ShiftRows, SubBytes, AddKey;
    if n > 0 {
      SameRounds(keys, s, k, n - 1);
    }
  }

  /** Another first round key is the same as those bits of the input changed. */
  lemma FirstKey(keys: Keys, s: Block, k: Block)
    ensures Encrypt(keys[0 := k], s) == Encrypt(keys, Xored(s, Xored(keys[0], k)))
  {
    hide MixWith, ShiftRows, SubBytes, AddKey, Xored;
    OtherStart(keys, s, k, ROUNDS - 1);
  }

  lemma {:induction false} OtherStart(keys: Keys, s: Block, k: Block, n: nat)
    requires n < ROUNDS
    ensures Encrypting(keys[0 := k], s, n) == Encrypting(keys, Xored(s, Xored(keys[0], k)), n)
  {
    hide MixWith, ShiftRows, SubBytes;
    if n > 0 {
      OtherStart(keys, s, k, n - 1);
    } else {
      forall i | 0 <= i < 16
        ensures s[i] ^ k[i] == (s[i] ^ (keys[0][i] ^ k[i])) ^ keys[0][i]
      {
        MovedBits(s[i], keys[0][i], k[i]);
      }
    }
  }

  lemma MovedBits(x: bv8, y: bv8, z: bv8)
    ensures x ^ z == (x ^ (y ^ z)) ^ y
  {}

  // ----- the code

  /** The table holds f. */
  ghost predicate IsTable(t: seq<bv8>, f: bv8 -> bv8) {
    |t| == 256 && forall b: bv8 :: t[Index(b)] == f(b)
  }

  lemma TableOf(t: seq<bv8>, f: bv8 -> bv8)
    requires |t| == 256 && forall i :: 0 <= i < 256 ==> t[i] == f(Byte(i))
    ensures IsTable(t, f)
  {
    hide Index, Byte;
    forall b: bv8
      ensures t[Index(b)] == f(b)
    {
      IndexByte(b);
    }
  }

  lemma TableAt(t: seq<bv8>, f: bv8 -> bv8, b: bv8)
    requires IsTable(t, f)
    ensures |t| == 256 && t[Index(b)] == f(b)
  {}

  method MakeSbox() returns (t: array<bv8>)
    ensures fresh(t) && IsTable(t[..], SubByte)
  {
    hide Index, Byte, Inverse, Affine;
    t := new bv8[256];
    for i := 0 to 256
      invariant forall k :: 0 <= k < i ==> t[k] == SubByte(Byte(k))
    {
      var b := GfInv(Byte(i));
      t[i] := Affine(b);
    }
    TableOf(t[..], SubByte);
  }

  /** Different indices are entered at different places. */
  lemma SubByteApart(k: nat, i: nat)
    requires k < i < 256
    ensures Index(SubByte(Byte(k))) != Index(SubByte(Byte(i)))
  {
    hide Index, Byte, SubByte, UnSubByte;
    ByteIndex(k);
    ByteIndex(i);
    IndexByte(SubByte(Byte(k)));
    IndexByte(SubByte(Byte(i)));
    SubByteInverse(Byte(k));
    SubByteInverse(Byte(i));
  }

  method MakeInvSbox(sbox: seq<bv8>) returns (t: array<bv8>)
    requires IsTable(sbox, SubByte)
    ensures fresh(t) && IsTable(t[..], UnSubByte)
  {
    hide Index, Byte, SubByte, UnSubByte;
    t := new bv8[256];
    for i := 0 to 256
      invariant forall k :: 0 <= k < i ==> t[Index(SubByte(Byte(k)))] == Byte(k)
    {
      ByteIndex(i);
      forall k | 0 <= k < i
        ensures Index(SubByte(Byte(k))) != Index(SubByte(Byte(i)))
      {
        SubByteApart(k, i);
      }
      assert sbox[Index(Byte(i))] == SubByte(Byte(i));
      t[Index(sbox[i])] := Byte(i);
    }
    forall y: bv8
      ensures t[..][Index(y)] == UnSubByte(y)
    {
      SubByteInverse(y);
      IndexByte(UnSubByte(y));
      assert t[Index(SubByte(Byte(Index(UnSubByte(y)))))] == Byte(Index(UnSubByte(y)));
    }
  }

  class Aes128 {
    const sbox: seq<bv8>
    const invSbox: seq<bv8>
    const roundKeys: Keys

    ghost predicate Valid() {
      IsTable(sbox, SubByte) && IsTable(invSbox, UnSubByte)
    }

    /** The key schedule is not modelled: any eleven round keys. */
    constructor (keys: Keys)
      ensures Valid() && roundKeys == keys
    {
      hide IsTable;
      roundKeys := keys;
      var t := MakeSbox();
      sbox := t[..];
      var u := MakeInvSbox(t[..]);
      invSbox := u[..];
    }

    method AddRoundKey(s: array<bv8>, key: Block)
      requires s.Length == 16
      modifies s
      ensures s[..] == AddKey(old(s[..]), key)
      ensures forall i :: 0 <= i < 16 ==> s[i] == old(s[i]) ^ key[i]
    {
      for i := 0 to 16
        invariant forall k :: 0 <= k < i ==> s[k] == Add(old(s[k]), key[k])
        invariant forall k :: i <= k < 16 ==> s[k] == old(s[k])
      {
        s[i] := Add(s[i], key[i]);
      }
    }

    method SubstituteBytes(s: array<bv8>)
      requires Valid() && s.Length == 16
      modifies s
      ensures s[..] == SubBytes(old(s[..]))
    {
      hide Index, SubByte, IsTable;
      for i := 0 to 16
        invariant forall k :: 0 <= k < i ==> s[k] == SubByte(old(s[k]))
        invariant forall k :: i <= k < 16 ==> s[k] == old(s[k])
      {
        TableAt(sbox, SubByte, s[i]);
        s[i] := sbox[Index(s[i])];
      }
    }

    method InvSubstituteBytes(s: array<bv8>)
      requires Valid() && s.Length == 16
      modifies s
      ensures s[..] == UnSubBytes(old(s[..]))
    {
      hide Index, UnSubByte, IsTable;
      for i := 0 to 16
        invariant forall k :: 0 <= k < i ==> s[k] == UnSubByte(old(s[k]))
        invariant forall k :: i <= k < 16 ==> s[k] == old(s[k])
      {
        TableAt(invSbox, UnSubByte, s[i]);
        s[i] := invSbox[Index(s[i])];
      }
    }

    /** Moves the bytes at i, j, k, l one place down this list, the first to the end. */
    method RotateBytes(s: array<bv8>, i: nat, j: nat, k: nat, l: nat)
      requires s.Length == 16 && i < 16 && j < 16 && k < 16 && l < 16
      requires i != j && i != k && i != l && j != k && j != l && k != l
      modifies s
      ensures s[i] == old(s[j]) && s[j] == old(s[k]) && s[k] == old(s[l]) && s[l] == old(s[i])
      ensures forall n :: 0 <= n < 16 && n != i && n != j && n != k && n != l ==> s[n] == old(s[n])
    {
      var t := s[i];
      s[i] := s[j];
      s[j] := s[k];
      s[k] := s[l];
      s[l] := t;
    }

    method SwapBytes(s: array<bv8>, i: nat, j: nat)
      requires s.Length == 16 && i < 16 && j < 16
      modifies s
      ensures s[i] == old(s[j]) && s[j] == old(s[i])
      ensures forall n :: 0 <= n < 16 && n != i && n != j ==> s[n] == old(s[n])
    {
      var t := s[i];
      s[i] := s[j];
      s[j] := t;
    }

    method ShiftTheRows(s: array<bv8>)
      requires s.Length == 16
      modifies s
      ensures s[..] == ShiftRows(old(s[..]))
    {
      hide ShiftRows;
      RotateBytes(s, 1, 5, 9, 13);
      SwapBytes(s, 2, 10);
      SwapBytes(s, 6, 14);
      RotateBytes(s, 3, 15, 11, 7);
      Shifted(old(s[..]), s[..]);
    }

    method InvShiftTheRows(s: array<bv8>)
      requires s.Length == 16
      modifies s
      ensures s[..] == UnShiftRows(old(s[..]))
    {
      hide UnShiftRows;
      RotateBytes(s, 13, 9, 5, 1);
      SwapBytes(s, 2, 10);
      SwapBytes(s, 6, 14);
      RotateBytes(s, 7, 11, 15, 3);
      UnShifted(old(s[..]), s[..]);
    }

    method MixColumns(s: array<bv8>)
      requires s.Length == 16
      modifies s
      ensures s[..] == MixWith(MIX, old(s[..]))
    {
      hide Mul, Apply;
      for c := 0 to 4
        invariant forall d :: 0 <= d < 4 ==>
          ColumnOf(s[..], d) == if d < c then Apply(MIX, ColumnOf(old(s[..]), d)) else ColumnOf(old(s[..]), d)
      {
        MixColumn(s, c);
      }
      WholeBlock(s[..]);
    }

    method MixColumn(s: array<bv8>, c: nat)
      requires s.Length == 16 && c < 4
      modifies s
      ensures forall d :: 0 <= d < 4 ==>
        ColumnOf(s[..], d) == if d == c then Apply(MIX, ColumnOf(old(s[..]), d)) else ColumnOf(old(s[..]), d)
    {
      hide Apply;
      var i := c * 4;
      var b := MixEntries(Column(s[i], s[i + 1], s[i + 2], s[i + 3]));
      s[i] := b.x0;
      s[i + 1] := b.x1;
      s[i + 2] := b.x2;
      s[i + 3] := b.x3;
    }

    method MixEntries(a: Column) returns (b: Column)
      ensures b == Apply(MIX, a)
    {
      hide Mul, Add, Apply;
      MixedColumn(a);
      var p2 := GfMul(a.x0, 2);
      var p3 := GfMul(a.x0, 3);
      var q2 := GfMul(a.x1, 2);
      var q3 := GfMul(a.x1, 3);
      var r2 := GfMul(a.x2, 2);
      var r3 := GfMul(a.x2, 3);
      var t2 := GfMul(a.x3, 2);
      var t3 := GfMul(a.x3, 3);
      b := Column(
        Add(Add(Add(p2, q3), a.x2), a.x3),
        Add(Add(Add(a.x0, q2), r3), a.x3),
        Add(Add(Add(a.x0, a.x1), r2), t3),
        Add(Add(Add(p3, a.x1), a.x2), t2));
    }

    method InvMixColumns(s: array<bv8>)
      requires s.Length == 16
      modifies s
      ensures s[..] == MixWith(UNMIX, old(s[..]))
    {
      hide Mul, Apply;
      for c := 0 to 4
        invariant forall d :: 0 <= d < 4 ==>
          ColumnOf(s[..], d) == if d < c then Apply(UNMIX, ColumnOf(old(s[..]), d)) else ColumnOf(old(s[..]), d)
      {
        InvMixColumn(s, c);
      }
      WholeBlock(s[..]);
    }

    method InvMixColumn(s: array<bv8>, c: nat)
      requires s.Length == 16 && c < 4
      modifies s
      ensures forall d :: 0 <= d < 4 ==>
        ColumnOf(s[..], d) == if d == c then Apply(UNMIX, ColumnOf(old(s[..]), d)) else ColumnOf(old(s[..]), d)
    {
      hide Mul, Dot, Add;
      var i := c * 4;
      var a := Column(s[i], s[i + 1], s[i + 2], s[i + 3]);
      var b0 := Sum(a, UNMIX.r0);
      var b1 := Sum(a, UNMIX.r1);
      var b2 := Sum(a, UNMIX.r2);
      var b3 := Sum(a, UNMIX.r3);
      s[i] := b0;
      s[i + 1] := b1;
      s[i + 2] := b2;
      s[i + 3] := b3;
    }

    /** One entry of the inverse mixing. */
    method Sum(a: Column, k: Column) returns (r: bv8)
      ensures r == Dot(a, k)
    {
      hide Mul, Add;
      var p0 := GfMul(a.x0, k.x0);
      var p1 := GfMul(a.x1, k.x1);
      var p2 := GfMul(a.x2, k.x2);
      var p3 := GfMul(a.x3, k.x3);
      r := Add(Add(Add(p0, p1), p2), p3);
    }

    method EncryptBlock(input: Block) returns (out: array<bv8>)
      requires Valid()
      ensures fresh(out) && out.Length == 16 && out[..] == Encrypt(roundKeys, input)
    {
      hide IsTable, SubBytes, ShiftRows, MixWith, AddKey;
      var s := new bv8[16](i requires 0 <= i < 16 => input[i]);
      assert s[..] == input;
      AddRoundKey(s, roundKeys[0]);
      for round := 1 to ROUNDS
        invariant s[..] == Encrypting(roundKeys, input, round - 1)
      {
        SubstituteBytes(s);
        ShiftTheRows(s);
        MixColumns(s);
        AddRoundKey(s, roundKeys[round]);
      }
      SubstituteBytes(s);
      ShiftTheRows(s);
      AddRoundKey(s, roundKeys[ROUNDS]);
      out := s;
    }

    method DecryptBlock(input: Block) returns (out: array<bv8>)
      requires Valid()
      ensures fresh(out) && out.Length == 16 && out[..] == Decrypt(roundKeys, input)
    {
      hide IsTable, UnSubBytes, UnShiftRows, MixWith, AddKey;
      var s := new bv8[16](i requires 0 <= i < 16 => input[i]);
      assert s[..] == input;
      AddRoundKey(s, roundKeys[ROUNDS]);
      for round := ROUNDS - 1 downto 0
        invariant 0 <= round <= ROUNDS - 1 && s[..] == Decrypting(roundKeys, input, round)
      {
        InvShiftTheRows(s);
        InvSubstituteBytes(s);
        AddRoundKey(s, roundKeys[round + 1]);
        InvMixColumns(s);
      }
      InvShiftTheRows(s);
      InvSubstituteBytes(s);
      AddRoundKey(s, roundKeys[0]);
      out := s;
    }
  }

  lemma MixedColumn(a: Column)
    ensures Apply(MIX, a) == Column(
      Add(Add(Add(Mul(a.x0, 2), Mul(a.x1, 3)), a.x2), a.x3),
      Add(Add(Add(a.x0, Mul(a.x1, 2)), Mul(a.x2, 3)), a.x3),
      Add(Add(Add(a.x0, a.x1), Mul(a.x2, 2)), Mul(a.x3, 3)),
      Add(Add(Add(Mul(a.x0, 3), a.x1), a.x2), Mul(a.x3, 2)))
  {
    hide Mul, Add;
    UnitTerm(a.x0);
    UnitTerm(a.x1);
    UnitTerm(a.x2);
    UnitTerm(a.x3);
  }
}
