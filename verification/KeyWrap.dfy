/** AES key wrap (aes-keywrap.cpp; section 2.2 of RFC 3394). */
module KeyWrap {
  import opened Words
  import opened Arith
  import opened Octets
  import opened Gf256
  import opened Aes

  const INITIAL_VALUE: seq<bv8> := [0xa6, 0xa6, 0xa6, 0xa6, 0xa6, 0xa6, 0xa6, 0xa6]

  /** Section 2.2.3.1. */
  lemma InitialBytes()
    ensures |INITIAL_VALUE| == 8 && forall i :: 0 <= i < 8 ==> INITIAL_VALUE[i] == 166
  {}

  /** Byte i of the 64-bit counter, the lowest first. */
  function CounterByte(t: nat, i: nat): bv8 {
    if i == 0 then Byte(t % 256) else CounterByte(t / 256, i - 1)
  }

  /** The first n bytes of the counter, most significant first. */
  function CounterBytes(t: nat, n: nat): seq<u8> {
    seq(n, i requires 0 <= i < n => Index(CounterByte(t, n - 1 - i)))
  }

  /** They are the number t has modulo 256^n. */
  lemma {:induction false} CounterValue(t: nat, n: nat)
    ensures BeVal(CounterBytes(t, n)) == t % Pow2(8 * n)
  {
    if n > 0 {
      hide Pow2, BeVal, CounterBytes, CounterByte, Byte, Index, Mul, Add, Encrypt, Decrypt;
      CounterValue(t / 0x100, n - 1);
      CounterNext(t, n - 1);
      BeValNext(CounterBytes(t / 0x100, n - 1), t % 0x100);
      Pow2Add(8, 8 * n - 8);
      Pow2At8();
      LowDigit(t, Pow2(8 * n - 8));
    } else {
      Pow2At8();
    }
  }

  lemma CounterNext(t: nat, n: nat)
    ensures CounterBytes(t, n + 1) == CounterBytes(t / 0x100, n) + [t % 0x100]
  {
    ByteIndex(t % 0x100);
    hide Byte, Index;
    var r, s := CounterBytes(t, n + 1), CounterBytes(t / 0x100, n) + [t % 0x100];
    forall i: nat | i <= n
      ensures r[i] == s[i]
    {
      if i < n {
        assert CounterByte(t, n - i) == CounterByte(t / 0x100, n - 1 - i);
      }
    }
  }

  /** The register a with the counter added, big-endian. */
  function XorCounter(a: seq<bv8>, t: nat): seq<bv8>
    requires |a| == 8
  {
    seq(8, i requires 0 <= i < 8 => Add(a[i], CounterByte(t, 7 - i)))
  }

  lemma XorCounterTwice(a: seq<bv8>, t: nat)
    requires |a| == 8
    ensures XorCounter(XorCounter(a, t), t) == a
  {
    hide Add, CounterByte;
    forall i | 0 <= i < 8
      ensures Add(Add(a[i], CounterByte(t, 7 - i)), CounterByte(t, 7 - i)) == a[i]
    {
      AddLaws(a[i], CounterByte(t, 7 - i), CounterByte(t, 7 - i));
      AddLaws(CounterByte(t, 7 - i), 0, 0);
      AddLaws(a[i], 0, 0);
    }
  }

  // ----- steps: the register followed by n blocks of eight bytes

  /** Block i with the register in front. */
  function Joined(s: seq<bv8>, i: nat): Block
    requires 16 + 8 * i <= |s|
  {
    s[..8] + s[8 + 8 * i..16 + 8 * i]
  }

  /** The state with the register and block i replaced by the halves of b. */
  function Replaced(s: seq<bv8>, i: nat, b: Block): (r: seq<bv8>)
    requires 16 + 8 * i <= |s|
    ensures |r| == |s|
  {
    b[..8] + s[8..8 + 8 * i] + b[8..] + s[16 + 8 * i..]
  }

  lemma ReplacedJoined(s: seq<bv8>, i: nat, b: Block)
    requires 16 + 8 * i <= |s|
    ensures |Replaced(s, i, b)| == |s| && Joined(Replaced(s, i, b), i) == b
  {}

  lemma ReplacedTwice(s: seq<bv8>, i: nat, b: Block, c: Block)
    requires 16 + 8 * i <= |s|
    ensures |Replaced(s, i, b)| == |s| && Replaced(Replaced(s, i, b), i, c) == Replaced(s, i, c)
  {
    var r := Replaced(s, i, b);
    assert r[8..8 + 8 * i] == s[8..8 + 8 * i];
    assert r[16 + 8 * i..] == s[16 + 8 * i..];
  }

  lemma ReplacedSame(s: seq<bv8>, i: nat)
    requires 16 + 8 * i <= |s|
    ensures Replaced(s, i, Joined(s, i)) == s
  {}

  /** Adds the counter to the first half. */
  function Counted(b: Block, t: nat): Block { XorCounter(b[..8], t) + b[8..] }

  lemma CountedTwice(b: Block, t: nat)
    ensures Counted(Counted(b, t), t) == b
  {
    hide XorCounter;
    var c := Counted(b, t);
    assert c[..8] == XorCounter(b[..8], t) && c[8..] == b[8..];
    XorCounterTwice(b[..8], t);
    assert b[..8] + b[8..] == b;
  }

  function WrapStep(keys: Keys, s: seq<bv8>, i: nat, t: nat): (r: seq<bv8>)
    requires 16 + 8 * i <= |s|
    ensures |r| == |s|
  {
    Replaced(s, i, Counted(Encrypt(keys, Joined(s, i)), t))
  }

  function UnwrapStep(keys: Keys, s: seq<bv8>, i: nat, t: nat): (r: seq<bv8>)
    requires 16 + 8 * i <= |s|
    ensures |r| == |s|
  {
    Replaced(s, i, Decrypt(keys, Counted(Joined(s, i), t)))
  }

  /** Section 2.2.1: with b the cipher of register and block i, the first half of b and the
      counter go into the register, the second half into block i, and the rest stays. */
  lemma WrapStepBytes(keys: Keys, s: seq<bv8>, i: nat, t: nat)
    requires 16 + 8 * i <= |s|
    ensures var b, r := Encrypt(keys, s[..8] + s[8 + 8 * i..16 + 8 * i]), WrapStep(keys, s, i, t);
            && |r| == |s| && (forall j :: 0 <= j < 8 ==> r[j] == b[j] ^ CounterByte(t, 7 - j))
            && r[8..8 + 8 * i] == s[8..8 + 8 * i] && r[8 + 8 * i..16 + 8 * i] == b[8..]
            && r[16 + 8 * i..] == s[16 + 8 * i..]
  {
    hide Encrypt, CounterByte;
  }

  /** A wrap step and the unwrap step with the same counter undo each other. */
  lemma StepInverse(keys: Keys, s: seq<bv8>, i: nat, t: nat)
    requires 16 + 8 * i <= |s|
    ensures |WrapStep(keys, s, i, t)| == |s| && UnwrapStep(keys, WrapStep(keys, s, i, t), i, t) == s
    ensures |UnwrapStep(keys, s, i, t)| == |s| && WrapStep(keys, UnwrapStep(keys, s, i, t), i, t) == s
  {
    hide Encrypt, Decrypt, Counted, Joined, Replaced;
    var b := Joined(s, i);
    var e, d := Counted(Encrypt(keys, b), t), Decrypt(keys, Counted(b, t));
    ReplacedSame(s, i);
    ReplacedJoined(s, i, e);
    CountedTwice(Encrypt(keys, b), t);
    CipherInverse(keys, b);
    ReplacedTwice(s, i, e, b);
    ReplacedJoined(s, i, d);
    CipherInverse(keys, Counted(b, t));
    CountedTwice(b, t);
    ReplacedTwice(s, i, d, b);
  }

  // ----- the six passes

  /** The block that step k + 1 works on. */
  function BlockOf(n: nat, k: nat): (i: nat)
    requires n > 0
    ensures i < n
  {
    k % n
  }

  /** The state after the first k wrap steps over n blocks. */
  function Wrapping(keys: Keys, s: seq<bv8>, n: nat, k: nat): (r: seq<bv8>)
    requires n > 0 && |s| == 8 + 8 * n
    ensures |r| == |s|
  {
    if k == 0 then s
    else WrapStep(keys, Wrapping(keys, s, n, k - 1), BlockOf(n, k - 1), k)
  }

  /** The state when unwrapping has come back to the first k steps. */
  function Unwrapping(keys: Keys, s: seq<bv8>, n: nat, k: nat): (r: seq<bv8>)
    requires n > 0 && |s| == 8 + 8 * n && k <= 6 * n
    ensures |r| == |s|
    decreases 6 * n - k
  {
    if k == 6 * n then s
    else UnwrapStep(keys, Unwrapping(keys, s, n, k + 1), BlockOf(n, k), k + 1)
  }

  function Wrap(keys: Keys, data: seq<bv8>): Option<seq<bv8>> {
    if |data| % 8 != 0 || |data| < 16 then None
    else Some(Wrapping(keys, INITIAL_VALUE + data, |data| / 8, 6 * (|data| / 8)))
  }

  function Unwrap(keys: Keys, wrapped: seq<bv8>): Option<seq<bv8>> {
    if |wrapped| % 8 != 0 || |wrapped| < 24 then None
    else
      var s := Unwrapping(keys, wrapped, |wrapped| / 8 - 1, 0);
      if s[..8] == INITIAL_VALUE then Some(s[8..]) else None
  }

  lemma {:induction false} UnwrapsBack(keys: Keys, s: seq<bv8>, n: nat, k: nat)
    requires n > 0 && |s| == 8 + 8 * n && k <= 6 * n
    ensures Unwrapping(keys, Wrapping(keys, s, n, 6 * n), n, k) == Wrapping(keys, s, n, k)
    decreases 6 * n - k
  {
    hide WrapStep, UnwrapStep;
    if k < 6 * n {
      UnwrapsBack(keys, s, n, k + 1);
      StepInverse(keys, Wrapping(keys, s, n, k), BlockOf(n, k), k + 1);
    }
  }

  lemma {:induction false} WrapsBack(keys: Keys, w: seq<bv8>, n: nat, k: nat)
    requires n > 0 && |w| == 8 + 8 * n && k <= 6 * n
    ensures Wrapping(keys, Unwrapping(keys, w, n, 0), n, k) == Unwrapping(keys, w, n, k)
  {
    hide WrapStep, UnwrapStep;
    if k > 0 {
      WrapsBack(keys, w, n, k - 1);
      StepInverse(keys, Unwrapping(keys, w, n, k), BlockOf(n, k - 1), k);
    }
  }

  /** Unwrapping succeeds with d exactly on what wrapping d yields. */
  lemma UnwrapIffWrap(keys: Keys, w: seq<bv8>, d: seq<bv8>)
    ensures Unwrap(keys, w) == Some(d) <==> Wrap(keys, d) == Some(w)
  {
    hide Wrapping, Unwrapping;
    if Wrap(keys, d) == Some(w) {
      var n := |d| / 8;
      UnwrapsBack(keys, INITIAL_VALUE + d, n, 0);
      WrappingStart(keys, INITIAL_VALUE + d, n);
    }
    if Unwrap(keys, w) == Some(d) {
      var n := |w| / 8 - 1;
      var s := Unwrapping(keys, w, n, 0);
      assert s == s[..8] + s[8..];
      WrapsBack(keys, w, n, 6 * n);
      UnwrappingStart(keys, w, n);
    }
  }

  lemma WrappingStart(keys: Keys, s: seq<bv8>, n: nat)
    requires n > 0 && |s| == 8 + 8 * n
    ensures Wrapping(keys, s, n, 0) == s
  {}

  lemma UnwrappingStart(keys: Keys, s: seq<bv8>, n: nat)
    requires n > 0 && |s| == 8 + 8 * n
    ensures Unwrapping(keys, s, n, 6 * n) == s
  {}

  /** For every whole number of blocks, at least two, wrapping succeeds and unwraps to the
      data. */
  lemma RoundTrip(keys: Keys, d: seq<bv8>)
    requires |d| % 8 == 0 && |d| >= 16
    ensures Wrap(keys, d).Some? && |Wrap(keys, d).value| == |d| + 8
    ensures Unwrap(keys, Wrap(keys, d).value) == Some(d)
  {
    hide Wrapping, Unwrap;
    UnwrapIffWrap(keys, Wrap(keys, d).value, d);
  }

  /** Section 2.2.1: step n * j + i + 1 works on block i with that number as its counter. */
  lemma WrapOrder(keys: Keys, s: seq<bv8>, n: nat, j: nat, i: nat)
    requires i < n && |s| == 8 + 8 * n
    ensures Wrapping(keys, s, n, n * j + i + 1) == WrapStep(keys, Wrapping(keys, s, n, n * j + i), i, n * j + i + 1)
  {
    hide WrapStep;
    assert n * j + i == j * n + i;
    DivModUnique(n * j + i, n, j, i);
  }

  // ----- the code

  lemma BlockAt(n: nat, j: nat, i: nat)
    requires i < n
    ensures BlockOf(n, Product(n, j) + i) == i
  {
    assert n * j + i == j * n + i;
    DivModUnique(n * j + i, n, j, i);
  }

  /** a[7 - i] ^= byte i of the counter. */
  method XorInto(a: array<bv8>, t: nat)
    requires a.Length >= 8
    modifies a
    ensures a[..8] == XorCounter(old(a[..8]), t) && a[8..] == old(a[8..])
    ensures forall k :: 0 <= k < 8 ==> a[k] == old(a[k]) ^ CounterByte(t, 7 - k)
  {
    hide CounterByte;
    for i := 0 to 8
      invariant forall k :: 8 - i <= k < 8 ==> a[k] == Add(old(a[k]), CounterByte(t, 7 - k))
      invariant forall k :: 0 <= k < 8 - i ==> a[k] == old(a[k])
      invariant a[8..] == old(a[8..])
    {
      a[7 - i] := Add(a[7 - i], CounterByte(t, i));
    }
  }

  /** memcpy */
  method Copy(dst: array<bv8>, at: nat, src: seq<bv8>)
    requires at + |src| <= dst.Length
    modifies dst
    ensures dst[..] == old(dst[..at]) + src + old(dst[at + |src|..])
  {
    for i := 0 to |src|
      invariant dst[..at] == old(dst[..at])
      invariant dst[at..at + i] == src[..i]
      invariant dst[at + i..] == old(dst[at + i..])
    {
      dst[at + i] := src[i];
    }
    assert dst[..] == dst[..at] + dst[at..at + |src|] + dst[at + |src|..];
  }

  method WrapBlock(kek: Aes128, wrapped: array<bv8>, i: nat, t: nat)
    requires kek.Valid() && 16 + 8 * i <= wrapped.Length
    modifies wrapped
    ensures wrapped[..] == WrapStep(kek.roundKeys, old(wrapped[..]), i, t)
  {
    hide IsTable, Encrypt, XorCounter;
    var b := kek.EncryptBlock(wrapped[..8] + wrapped[8 + 8 * i..16 + 8 * i]);
    ghost var s, e := wrapped[..], b[..];
    assert wrapped[..8] + wrapped[8 + 8 * i..16 + 8 * i] == Joined(s, i);
    Copy(wrapped, 0, b[..8]);
    assert wrapped[..8] == e[..8] && wrapped[8..] == s[8..];
    XorInto(wrapped, t);
    assert wrapped[..] == wrapped[..8] + wrapped[8..];
    Copy(wrapped, 8 + 8 * i, b[8..]);
    Halves8(s, i, e, XorCounter(e[..8], t));
  }

  /** Writing the register and block i in two steps. */
  lemma Halves8(s: seq<bv8>, i: nat, e: Block, x: seq<bv8>)
    requires 16 + 8 * i <= |s| && |x| == 8
    ensures var m := x + s[8..]; m[..8 + 8 * i] + e[8..] + m[16 + 8 * i..] == Replaced(s, i, x + e[8..])
  {}

  method AesKeyWrap(kek: Aes128, data: seq<bv8>, wrapped: array<bv8>) returns (ok: bool)
    requires kek.Valid() && wrapped.Length == 8 + |data|
    modifies wrapped
    ensures ok == Wrap(kek.roundKeys, data).Some?
    ensures ok ==> wrapped[..] == Wrap(kek.roundKeys, data).value
  {
    hide IsTable, WrapStep, Wrapping, BlockOf, Product;
    if !(|data| % 8 == 0 && |data| >= 16) {
      return false;
    }
    var n := |data| / 8;
    Copy(wrapped, 0, INITIAL_VALUE);
    Copy(wrapped, 8, data);
    ghost var s := INITIAL_VALUE + data;
    assert wrapped[..] == s;
    WrappingStart(kek.roundKeys, s, n);
    ProductNext(n, 0);
    ghost var k := 0;
    for j := 0 to 6
      invariant k == Product(n, j) && wrapped[..] == Wrapping(kek.roundKeys, s, n, k)
    {
      k := WrapPass(kek, wrapped, n, j, s);
    }
    return true;
  }

  /** n * j, kept apart from the solver's arithmetic. */
  function Product(n: nat, j: nat): nat { n * j }

  lemma ProductNext(n: nat, j: nat)
    ensures Product(n, j + 1) == Product(n, j) + n && Product(n, 0) == 0 && Product(n, 6) == 6 * n
  {}

  /** One pass over all blocks. */
  method WrapPass(kek: Aes128, wrapped: array<bv8>, n: nat, j: nat, ghost s: seq<bv8>) returns (ghost k: nat)
    requires kek.Valid() && n > 0 && wrapped.Length == 8 + 8 * n == |s|
    requires wrapped[..] == Wrapping(kek.roundKeys, s, n, Product(n, j))
    modifies wrapped
    ensures k == Product(n, j + 1) && wrapped[..] == Wrapping(kek.roundKeys, s, n, k)
  {
    hide IsTable, WrapStep, Wrapping, BlockOf, Product;
    k := Product(n, j);
    ProductNext(n, j);
    for i := 0 to n
      invariant k == Product(n, j) + i && wrapped[..] == Wrapping(kek.roundKeys, s, n, k)
    {
      BlockAt(n, j, i);
      WrappingNext(kek.roundKeys, s, n, k);
      WrapBlock(kek, wrapped, i, Product(n, j) + i + 1);
      k := k + 1;
    }
  }

  lemma WrappingNext(keys: Keys, s: seq<bv8>, n: nat, k: nat)
    requires n > 0 && |s| == 8 + 8 * n
    ensures 16 + 8 * BlockOf(n, k) <= |s|
    ensures Wrapping(keys, s, n, k + 1) == WrapStep(keys, Wrapping(keys, s, n, k), BlockOf(n, k), k + 1)
  {
    hide WrapStep;
  }

  method UnwrapBlock(kek: Aes128, a: array<bv8>, data: array<bv8>, i: nat, t: nat)
    requires kek.Valid() && a.Length == 8 && 8 + 8 * i <= data.Length && a != data
    modifies a, data
    ensures a[..] + data[..] == UnwrapStep(kek.roundKeys, old(a[..] + data[..]), i, t)
  {
    hide IsTable, Decrypt, XorCounter, Replaced, Counted, Joined;
    ghost var s, d := a[..] + data[..], data[..];
    assert a[..8] == s[..8];
    XorInto(a, t);
    assert a[..] == XorCounter(s[..8], t);
    assert data[8 * i..8 + 8 * i] == s[8 + 8 * i..16 + 8 * i];
    ReplacedParts(old(a[..]), d, i);
    CountedParts(s, i, t);
    var b := kek.DecryptBlock(a[..] + data[8 * i..8 + 8 * i]);
    ghost var e := b[..];
    Copy(a, 0, b[..8]);
    Copy(data, 8 * i, b[8..]);
    assert a[..] == e[..8] && data[..] == d[..8 * i] + e[8..] + d[8 * i + 8..];
  }

  /** A block replaced, with the register kept apart. */
  lemma ReplacedParts(a: seq<bv8>, d: seq<bv8>, i: nat)
    requires |a| == 8 && 8 + 8 * i <= |d|
    ensures forall e: Block :: Replaced(a + d, i, e) == e[..8] + (d[..8 * i] + e[8..] + d[8 * i + 8..])
  {
    var s := a + d;
    assert s[8..8 + 8 * i] == d[..8 * i];
    assert s[16 + 8 * i..] == d[8 * i + 8..];
  }

  lemma CountedParts(s: seq<bv8>, i: nat, t: nat)
    requires 16 + 8 * i <= |s|
    ensures Counted(Joined(s, i), t) == XorCounter(s[..8], t) + s[8 + 8 * i..16 + 8 * i]
  {
    hide XorCounter;
    var b := Joined(s, i);
    assert b[..8] == s[..8] && b[8..] == s[8 + 8 * i..16 + 8 * i];
  }

  /** One pass over all blocks, backwards. */
  method UnwrapPass(kek: Aes128, a: array<bv8>, data: array<bv8>, n: nat, j: nat, ghost w: seq<bv8>)
    requires kek.Valid() && n > 0 && a.Length == 8 && data.Length == 8 * n && a != data && |w| == 8 + 8 * n && 0 < j <= 6
    requires Product(n, j) <= 6 * n && a[..] + data[..] == Unwrapping(kek.roundKeys, w, n, Product(n, j))
    modifies a, data
    ensures Product(n, j - 1) <= 6 * n && a[..] + data[..] == Unwrapping(kek.roundKeys, w, n, Product(n, j - 1))
  {
    hide IsTable, UnwrapStep, Unwrapping, BlockOf, Product;
    ProductNext(n, j - 1);
    var i := n;
    while i > 0
      invariant 0 <= i <= n && a[..] + data[..] == Unwrapping(kek.roundKeys, w, n, Product(n, j - 1) + i)
    {
      BlockAt(n, j - 1, i - 1);
      UnwrappingNext(kek.roundKeys, w, n, Product(n, j - 1) + i - 1);
      UnwrapBlock(kek, a, data, i - 1, Product(n, j - 1) + i);
      i := i - 1;
    }
  }

  lemma UnwrappingNext(keys: Keys, w: seq<bv8>, n: nat, k: nat)
    requires n > 0 && |w| == 8 + 8 * n && k < 6 * n
    ensures 16 + 8 * BlockOf(n, k) <= |w|
    ensures Unwrapping(keys, w, n, k) == UnwrapStep(keys, Unwrapping(keys, w, n, k + 1), BlockOf(n, k), k + 1)
  {
    hide UnwrapStep;
  }

  /** The integrity check compares all eight bytes before it decides. */
  method AesKeyUnwrap(kek: Aes128, wrapped: seq<bv8>, data: array<bv8>) returns (ok: bool)
    requires kek.Valid() && (|wrapped| >= 8 ==> data.Length == |wrapped| - 8)
    modifies data
    ensures ok == Unwrap(kek.roundKeys, wrapped).Some?
    ensures ok ==> data[..] == Unwrap(kek.roundKeys, wrapped).value
  {
    hide IsTable, UnwrapStep, Unwrapping, BlockOf, Product, Add;
    if !(|wrapped| % 8 == 0 && |wrapped| >= 24) {
      return false;
    }
    var n := |wrapped| / 8 - 1;
    var a := new bv8[8];
    Copy(a, 0, wrapped[..8]);
    Copy(data, 0, wrapped[8..]);
    assert a[..] + data[..] == wrapped;
    UnwrappingStart(kek.roundKeys, wrapped, n);
    ProductNext(n, 5);
    for j := 6 downto 0
      invariant Product(n, j) <= 6 * n && a[..] + data[..] == Unwrapping(kek.roundKeys, wrapped, n, Product(n, j))
    {
      UnwrapPass(kek, a, data, n, j + 1, wrapped);
    }
    ProductNext(n, 0);
    ok := IcvMatches(a);
    ghost var s := a[..] + data[..];
    assert s[..8] == a[..] && s[8..] == data[..];
  }

  method IcvMatches(a: array<bv8>) returns (ok: bool)
    requires a.Length == 8
    ensures ok == (a[..] == INITIAL_VALUE)
  {
    hide Add;
    var diff: bv8 := 0;
    for i := 0 to 8
      invariant diff == 0 <==> a[..i] == INITIAL_VALUE[..i]
    {
      DiffBit(diff, a[i], INITIAL_VALUE[i]);
      diff := diff | Add(a[i], INITIAL_VALUE[i]);
      assert a[..i + 1] == a[..i] + [a[i]] && INITIAL_VALUE[..i + 1] == INITIAL_VALUE[..i] + [INITIAL_VALUE[i]];
    }
    assert a[..8] == a[..] && INITIAL_VALUE[..8] == INITIAL_VALUE;
    ok := diff == 0;
  }

  lemma DiffBit(diff: bv8, x: bv8, y: bv8)
    ensures diff | Add(x, y) == 0 <==> diff == 0 && x == y
  {}
}
