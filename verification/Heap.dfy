/** The heap allocator (nolibc++, malloc.cpp): an address-ordered, doubly linked list of
    chunk headers inside one flat region, with a tag bit in the next pointer. Addresses and
    sizes are 32-bit; a header is two words; pointers are multiples of four. */
module Heap {
  import opened Words

  const HEADER: int := 8

  // ----- pointers with flag bits

  function ReadPtr(num: u32): u32 { num - num % 4 }

  /** ptr | (num & 3) for an aligned pointer. */
  function SetPtr(num: u32, ptr: u32): u32
    requires ptr % 4 == 0
  {
    ptr + num % 4
  }

  function ReadFree(num: u32): bool { num % 2 == 1 }

  function SetFree(num: u32, flag: bool): u32 { num - num % 2 + (if flag then 1 else 0) }

  lemma ReadTagged(k: nat, free: bool)
    requires 4 * k < M32
    ensures var num := 4 * k + if free then 1 else 0; num < M32 && ReadPtr(num) == 4 * k && ReadFree(num) == free
  {
    Mod4(k, if free then 1 else 0);
    Mod2(2 * k, if free then 1 else 0);
  }

  lemma SetTagged(k: nat, free: bool, p: nat)
    requires 4 * k < M32 && 4 * p < M32
    ensures var num := 4 * k + if free then 1 else 0; num < M32 && SetPtr(num, 4 * p) == 4 * p + (if free then 1 else 0)
  {
    Mod4(k, if free then 1 else 0);
    Mod4(p, 0);
  }

  lemma Mod4(k: int, f: int)
    requires 0 <= f <= 1
    ensures (4 * k + f) % 4 == f
  {}

  lemma Mod2(k: int, f: int)
    requires 0 <= f <= 1
    ensures (2 * k + f) % 2 == f
  {}

  /** Rounds up to a multiple of four as the source does: subtract one, clear, add four. */
  function AlignCeil(x: u32): u32 { W(W(x - 1) - W(x - 1) % 4 + 4) }

  function AlignFloor(x: u32): u32 { x - x % 4 }

  function RequiredSize(size: u32): u32 { AlignCeil(W(size + HEADER)) }

  /** The largest request whose rounding does not wrap around. */
  const MAX_SIZE: int := 0xffff_fff4

  /** The size test leaves room for the request and a header exactly up to MAX_SIZE; beyond
      it the sum wraps and a chunk of at most eight bytes passes the test. */
  lemma RequiredSizeIff(size: u32)
    ensures RequiredSize(size) >= size + HEADER <==> size <= MAX_SIZE
    ensures size <= MAX_SIZE ==> RequiredSize(size) == Rounded(size) + HEADER
    ensures size > MAX_SIZE ==> RequiredSize(size) <= 8
  {
    hide AlignCeil;
    if size <= MAX_SIZE {
      CeilIs(size + HEADER);
    } else if size + HEADER > M32 {
      CeilIs(size + HEADER - M32);
    } else {
      CeilWraps(W(size + HEADER));
    }
  }

  /** Rounding the last addresses up wraps to zero. */
  lemma CeilWraps(x: u32)
    requires x > M32 - 4 || x == 0
    ensures AlignCeil(x) == 0
  {}

  /** The smallest multiple of four not below `size`. */
  function Rounded(size: u32): nat { (size + 3) / 4 * 4 }

  /** Multiples of four, as close to the address as possible on either side. */
  lemma AlignedIs(x: u32)
    ensures AlignFloor(x) % 4 == 0 && x - 3 <= AlignFloor(x) <= x
    ensures Rounded(x) % 4 == 0 && x <= Rounded(x) <= x + 3
    ensures 0 < x <= M32 - 4 ==> AlignCeil(x) == Rounded(x)
  {
    if 0 < x <= M32 - 4 {
      CeilIs(x);
    }
  }

  // ----- the abstract list

  /** A chunk header at byte address 4 * w. */
  datatype Chunk = Chunk(w: nat, free: bool)

  /** At least one chunk and the tail sentinel, in address order with room for each header;
      the sentinel is never free. */
  ghost predicate Ordered(cs: seq<Chunk>, words: nat) {
    && |cs| >= 2 && cs[0].w > 0 && cs[|cs| - 1].w + 2 <= words && !cs[|cs| - 1].free
    && (forall i, j :: 0 <= i < j < |cs| ==> cs[i].w + 2 <= cs[j].w)
  }

  /** Chunk i and its successor are not both free. */
  predicate Separate(cs: seq<Chunk>, i: int) {
    0 <= i < |cs| - 1 ==> !(cs[i].free && cs[i + 1].free)
  }

  ghost predicate ListOk(cs: seq<Chunk>, words: nat) {
    Ordered(cs, words) && forall i :: 0 <= i < |cs| - 1 ==> Separate(cs, i)
  }

  function NextPtr(cs: seq<Chunk>, i: nat): int
    requires i < |cs|
  {
    if i + 1 < |cs| then 4 * cs[i + 1].w else 0
  }

  function PrevPtr(cs: seq<Chunk>, i: nat): int
    requires i < |cs|
  {
    if i > 0 then 4 * cs[i - 1].w else 0
  }

  /** The two words of chunk i hold its links and its flag. */
  predicate HeaderAt(mem: seq<u32>, cs: seq<Chunk>, i: int) {
    0 <= i < |cs| ==>
      && cs[i].w + 1 < |mem|
      && mem[cs[i].w] == NextPtr(cs, i) + (if cs[i].free then 1 else 0)
      && mem[cs[i].w + 1] == PrevPtr(cs, i)
  }

  /** The memory holds the headers of the list, linked both ways. */
  ghost predicate Linked(mem: seq<u32>, cs: seq<Chunk>) {
    forall i :: 0 <= i < |cs| ==> HeaderAt(mem, cs, i)
  }

  /** The payload of chunk i: start address and end address. */
  function Payload(cs: seq<Chunk>, i: nat): (int, int)
    requires i + 1 < |cs|
  {
    (4 * cs[i].w + HEADER, 4 * cs[i + 1].w)
  }

  /** `b` is the payload of the used chunk i. */
  predicate UsedAt(cs: seq<Chunk>, i: int, b: (int, int)) {
    0 <= i < |cs| - 1 && !cs[i].free && Payload(cs, i) == b
  }

  /** The payload of the used chunk i starts at p. */
  predicate StartsAt(cs: seq<Chunk>, i: int, p: int) {
    0 <= i < |cs| - 1 && !cs[i].free && Payload(cs, i).0 == p
  }

  /** The payloads in use. */
  ghost function Blocks(cs: seq<Chunk>): set<(int, int)> {
    set i | 0 <= i < |cs| - 1 && !cs[i].free :: Payload(cs, i)
  }

  lemma BlockAt(cs: seq<Chunk>, b: (int, int)) returns (i: int)
    requires b in Blocks(cs)
    ensures UsedAt(cs, i, b)
  {
    i :| 0 <= i < |cs| - 1 && !cs[i].free && Payload(cs, i) == b;
  }

  lemma UsedIsBlock(cs: seq<Chunk>, i: int, b: (int, int))
    requires UsedAt(cs, i, b)
    ensures b in Blocks(cs)
  {}

  /** Two lists whose used chunks correspond have the same payloads in use. */
  lemma SameBlocks(cs: seq<Chunk>, ds: seq<Chunk>, extra: set<(int, int)>)
    requires forall i, b :: UsedAt(cs, i, b) ==> (exists j :: UsedAt(ds, j, b))
    requires forall j, b :: UsedAt(ds, j, b) ==> b in extra || (exists i :: UsedAt(cs, i, b))
    requires forall b :: b in extra ==> exists j :: UsedAt(ds, j, b)
    ensures Blocks(ds) == Blocks(cs) + extra
  {
    forall b
      ensures b in Blocks(ds) <==> b in Blocks(cs) || b in extra
    {
      if b in Blocks(ds) {
        var j := BlockAt(ds, b);
        if b !in extra {
          var i :| UsedAt(cs, i, b);
          UsedIsBlock(cs, i, b);
        }
      }
      if b in Blocks(cs) {
        var i := BlockAt(cs, b);
        var j :| UsedAt(ds, j, b);
        UsedIsBlock(ds, j, b);
      }
      if b in extra {
        var j :| UsedAt(ds, j, b);
        UsedIsBlock(ds, j, b);
      }
    }
  }

  // ----- list operations

  /** Splits chunk i: it becomes used and a free chunk starts at word w. */
  function Split(cs: seq<Chunk>, i: nat, w: nat): seq<Chunk>
    requires i < |cs|
  {
    cs[..i] + [cs[i].(free := false), Chunk(w, true)] + cs[i + 1..]
  }

  function Release(cs: seq<Chunk>, i: nat): seq<Chunk>
    requires i < |cs|
  {
    cs[i := cs[i].(free := true)]
  }

  /** Chunk i swallows the one after it. */
  function Merge(cs: seq<Chunk>, i: nat): seq<Chunk>
    requires i + 1 < |cs|
  {
    cs[..i + 1] + cs[i + 2..]
  }

  lemma SplitItems(cs: seq<Chunk>, i: nat, w: nat)
    requires i + 1 < |cs|
    ensures var s := Split(cs, i, w);
            && |s| == |cs| + 1 && s[i] == cs[i].(free := false) && s[i + 1] == Chunk(w, true)
            && (forall k :: 0 <= k < i ==> s[k] == cs[k])
            && (forall k :: i + 1 < k < |s| ==> s[k] == cs[k - 1])
  {}

  lemma SplitOk(cs: seq<Chunk>, i: nat, w: nat, words: nat)
    requires ListOk(cs, words) && i < |cs| - 1 && cs[i].free
    requires cs[i].w + 2 <= w && w + 2 <= cs[i + 1].w
    ensures ListOk(Split(cs, i, w), words)
  {
    hide Split;
    SplitItems(cs, i, w);
    var s := Split(cs, i, w);
    assert Separate(cs, i);
    forall k | 0 <= k < |s| - 1
      ensures Separate(s, k)
    {
      if k < i {
        assert Separate(cs, k);
      } else if k > i + 1 {
        assert Separate(cs, k - 1);
      }
    }
  }

  /** Splitting adds one payload in use and changes none. */
  lemma SplitBlocks(cs: seq<Chunk>, i: nat, w: nat, words: nat)
    requires ListOk(cs, words) && i < |cs| - 1 && cs[i].free
    ensures Blocks(Split(cs, i, w)) == Blocks(cs) + {(4 * cs[i].w + HEADER, 4 * w)}
  {
    hide Split, Blocks;
    SplitItems(cs, i, w);
    var s, new_ := Split(cs, i, w), (4 * cs[i].w + HEADER, 4 * w);
    forall k, b | UsedAt(cs, k, b)
      ensures exists j :: UsedAt(s, j, b)
    {
      if k < i {
        assert UsedAt(s, k, b);
      } else {
        assert UsedAt(s, k + 1, b);
      }
    }
    forall j, b | UsedAt(s, j, b)
      ensures b == new_ || exists k :: UsedAt(cs, k, b)
    {
      if j < i {
        assert UsedAt(cs, j, b);
      } else if j > i + 1 {
        assert UsedAt(cs, j - 1, b);
      }
    }
    assert UsedAt(s, i, new_);
    SameBlocks(cs, s, {new_});
  }

  lemma MergeItems(cs: seq<Chunk>, i: nat)
    requires i + 1 < |cs|
    ensures var s := Merge(cs, i);
            && |s| == |cs| - 1
            && (forall k :: 0 <= k <= i ==> s[k] == cs[k])
            && (forall k :: i < k < |s| ==> s[k] == cs[k + 1])
  {}

  /** Merging two free chunks changes no payload in use. */
  lemma MergeBlocks(cs: seq<Chunk>, i: nat)
    requires i + 2 < |cs| && cs[i].free && cs[i + 1].free
    ensures Blocks(Merge(cs, i)) == Blocks(cs)
  {
    hide Merge, Blocks;
    MergeItems(cs, i);
    var s := Merge(cs, i);
    forall k, b | UsedAt(cs, k, b)
      ensures exists j :: UsedAt(s, j, b)
    {
      if k < i {
        assert UsedAt(s, k, b);
      } else {
        assert UsedAt(s, k - 1, b);
      }
    }
    forall j, b | UsedAt(s, j, b)
      ensures exists k :: UsedAt(cs, k, b)
    {
      if j < i {
        assert UsedAt(cs, j, b);
      } else {
        assert UsedAt(cs, j + 1, b);
      }
    }
    SameBlocks(cs, s, {});
  }

  lemma ReleaseBlocks(cs: seq<Chunk>, i: nat, words: nat)
    requires ListOk(cs, words) && i < |cs| - 1 && !cs[i].free
    ensures Blocks(Release(cs, i)) == Blocks(cs) - {Payload(cs, i)}
  {
    var s := Release(cs, i);
    forall b
      ensures b in Blocks(s) <==> b in Blocks(cs) && b != Payload(cs, i)
    {
      if b in Blocks(s) {
        var k := BlockAt(s, b);
        assert UsedAt(cs, k, b);
        UsedIsBlock(cs, k, b);
      }
      if b in Blocks(cs) && b != Payload(cs, i) {
        var k := BlockAt(cs, b);
        assert UsedAt(s, k, b);
        UsedIsBlock(s, k, b);
      }
    }
  }

  /** The list after free() of chunk i: released, merged with a free successor, then with a
      free predecessor. */
  function Coalesced(cs: seq<Chunk>, i: nat): seq<Chunk>
    requires i + 1 < |cs|
  {
    var a := Release(cs, i);
    var b := if cs[i + 1].free then Merge(a, i) else a;
    if i > 0 && cs[i - 1].free then Merge(b, i - 1) else b
  }

  /** The order and room of the headers survive removing one of them. */
  lemma MergeOrdered(cs: seq<Chunk>, i: nat, words: nat)
    requires Ordered(cs, words) && i + 2 < |cs|
    ensures Ordered(Merge(cs, i), words)
  {
    hide Merge;
    MergeItems(cs, i);
  }

  /** What merging two free neighbours keeps, and the chunks up to them. */
  lemma MergeKeeps(cs: seq<Chunk>, i: nat, words: nat)
    requires Ordered(cs, words) && i + 2 < |cs| && cs[i].free && cs[i + 1].free
    ensures var s := Merge(cs, i);
            && Ordered(s, words) && Blocks(s) == Blocks(cs) && |s| == |cs| - 1 && s[..i + 1] == cs[..i + 1]
            && s[0].w == cs[0].w && s[|s| - 1].w == cs[|cs| - 1].w
  {
    MergeOrdered(cs, i, words);
    MergeBlocks(cs, i);
    MergeItems(cs, i);
    hide Merge, Blocks, Ordered;
    var s := Merge(cs, i);
    assert s[|s| - 1] == cs[|cs| - 1];
    assert forall k :: 0 <= k < i + 1 ==> s[k] == cs[k];
  }

  lemma ReleaseKeeps(cs: seq<Chunk>, i: nat, words: nat)
    requires ListOk(cs, words) && i < |cs| - 1 && !cs[i].free
    ensures var a := Release(cs, i);
            && Ordered(a, words) && Blocks(a) == Blocks(cs) - {Payload(cs, i)} && |a| == |cs| && a[i].free
            && (forall k :: 0 <= k < |a| ==> a[k].w == cs[k].w && (k != i ==> a[k] == cs[k]))
  {
    hide Blocks, Payload, Separate;
    ReleaseBlocks(cs, i, words);
  }

  lemma TailUsed(cs: seq<Chunk>, words: nat)
    requires Ordered(cs, words)
    ensures |cs| >= 2 && !cs[|cs| - 1].free
  {}

  /** Freeing removes exactly the freed payload, and leaves no two neighbours free. */
  lemma CoalescedOk(cs: seq<Chunk>, i: nat, words: nat)
    requires ListOk(cs, words) && i < |cs| - 1 && !cs[i].free
    ensures ListOk(Coalesced(cs, i), words)
    ensures Blocks(Coalesced(cs, i)) == Blocks(cs) - {Payload(cs, i)}
    ensures var s := Coalesced(cs, i); s[0].w == cs[0].w && s[|s| - 1].w == cs[|cs| - 1].w
  {
    hide Merge, Blocks, Release, Ordered;
    TailUsed(cs, words);
    ReleaseKeeps(cs, i, words);
    var a := Release(cs, i);
    var b := a;
    if cs[i + 1].free {
      b := Merge(a, i);
      MergeKeeps(a, i, words);
      assert b[..i + 1][i] == a[..i + 1][i] && (i > 0 ==> b[..i + 1][i - 1] == a[..i + 1][i - 1]);
    }
    var s := b;
    TailUsed(b, words);
    if i > 0 && cs[i - 1].free {
      s := Merge(b, i - 1);
      MergeKeeps(b, i - 1, words);
    }
    CoalescedSeparate(cs, i, words, b, s);
  }

  lemma CoalescedSeparate(cs: seq<Chunk>, i: nat, words: nat, b: seq<Chunk>, s: seq<Chunk>)
    requires ListOk(cs, words) && i < |cs| - 1 && !cs[i].free
    requires b == if cs[i + 1].free then Merge(Release(cs, i), i) else Release(cs, i)
    requires s == if i > 0 && cs[i - 1].free then Merge(b, i - 1) else b
    requires i + 1 < |b|
    ensures forall k :: 0 <= k < |s| - 1 ==> Separate(s, k)
  {
    hide Merge;
    var a := Release(cs, i);
    var up := if cs[i + 1].free then 1 else 0;
    var down := if i > 0 && cs[i - 1].free then 1 else 0;
    if up == 1 { MergeItems(a, i); }
    if down == 1 { MergeItems(b, i - 1); }
    assert Separate(cs, i + 1) && Separate(cs, i - 2);
    forall k | 0 <= k < |s| - 1
      ensures Separate(s, k)
    {
      // The freed chunk sits at i - down; its old neighbours' neighbours follow.
      assert k < i - down ==> s[k] == cs[k];
      assert k > i - down ==> s[k] == cs[k + up + down];
      if k < i - down {
        assert Separate(cs, k);
      } else {
        assert Separate(cs, k + up + down);
      }
    }
  }

  // ----- whole runs

  /** Chunk i can take the request. */
  predicate Fits(cs: seq<Chunk>, i: int, size: u32) {
    0 <= i < |cs| - 1 && cs[i].free && 4 * cs[i + 1].w - 4 * cs[i].w - HEADER >= Rounded(size) + HEADER
  }

  /** Chunk i is free and passes the size test of malloc. */
  predicate Passes(cs: seq<Chunk>, i: int, size: u32) {
    0 <= i < |cs| - 1 && cs[i].free && 4 * cs[i + 1].w - 4 * cs[i].w - HEADER >= RequiredSize(size)
  }

  /** p is null exactly when no chunk passes the test, else the first one's payload. */
  ghost predicate FirstPass(cs: seq<Chunk>, size: u32, p: int) {
    && (p == 0 <==> forall k :: !Passes(cs, k, size))
    && (p != 0 ==> exists i :: Passes(cs, i, size) && (forall k :: k < i ==> !Passes(cs, k, size))
                               && p == 4 * cs[i].w + HEADER)
  }

  /** Up to MAX_SIZE the test means that the request fits. */
  lemma PassesIsFits(cs: seq<Chunk>, size: u32)
    requires size <= MAX_SIZE
    ensures forall i :: Passes(cs, i, size) <==> Fits(cs, i, size)
  {
    hide RequiredSize, Rounded;
    RequiredSizeIff(size);
  }

  /** First fit: the first chunk with room is split behind the request; null changes nothing
      and means that no chunk has room. */
  ghost predicate MallocStep(cs: seq<Chunk>, cs': seq<Chunk>, size: u32, p: int) {
    if p == 0 then cs' == cs && forall k :: !Fits(cs, k, size)
    else exists i :: Fits(cs, i, size) && (forall k :: k < i ==> !Fits(cs, k, size))
                     && p == 4 * cs[i].w + HEADER && cs' == Split(cs, i, (p + Rounded(size)) / 4)
  }

  /** Freeing null does nothing; freeing a payload in use coalesces its chunk. */
  ghost predicate FreeStep(cs: seq<Chunk>, cs': seq<Chunk>, p: int) {
    if p == 0 then cs' == cs else exists i :: StartsAt(cs, i, p) && cs' == Coalesced(cs, i)
  }

  ghost predicate Step(cs: seq<Chunk>, cs': seq<Chunk>) {
    (exists size: u32, p: int :: size <= MAX_SIZE && MallocStep(cs, cs', size, p)) || (exists p :: FreeStep(cs, cs', p))
  }

  /** What every state between one head and one tail keeps. */
  ghost predicate Between(cs: seq<Chunk>, words: nat, h: int, t: int) {
    ListOk(cs, words) && cs[0].w == h && cs[|cs| - 1].w == t
  }

  lemma FreeKeeps(cs: seq<Chunk>, cs': seq<Chunk>, words: nat, h: int, t: int, p: int)
    requires Between(cs, words, h, t) && FreeStep(cs, cs', p)
    ensures Between(cs', words, h, t)
  {
    hide Coalesced, ListOk;
    if p != 0 {
      var i :| StartsAt(cs, i, p) && cs' == Coalesced(cs, i);
      CoalescedOk(cs, i, words);
    }
  }

  lemma MallocKeeps(cs: seq<Chunk>, cs': seq<Chunk>, words: nat, h: int, t: int, size: u32, p: int)
    requires Between(cs, words, h, t) && MallocStep(cs, cs', size, p)
    ensures Between(cs', words, h, t)
  {
    hide Split, Rounded, ListOk;
    if p != 0 {
      var i: nat :| Fits(cs, i, size) && p == 4 * cs[i].w + HEADER && cs' == Split(cs, i, (p + Rounded(size)) / 4);
      FitsRoom(cs[i].w, size, cs[i + 1].w);
      SplitOk(cs, i, (p + Rounded(size)) / 4, words);
      SplitItems(cs, i, (p + Rounded(size)) / 4);
    }
  }

  lemma StepKeeps(cs: seq<Chunk>, cs': seq<Chunk>, words: nat, h: int, t: int)
    requires Between(cs, words, h, t) && Step(cs, cs')
    ensures Between(cs', words, h, t)
  {
    hide MallocStep, FreeStep, Between;
    if p :| FreeStep(cs, cs', p) {
      FreeKeeps(cs, cs', words, h, t, p);
    } else {
      var size: u32, p: int :| size <= MAX_SIZE && MallocStep(cs, cs', size, p);
      MallocKeeps(cs, cs', words, h, t, size, p);
    }
  }

  lemma FitsRoom(c: int, size: u32, n: int)
    requires 4 * n - 4 * c - HEADER >= Rounded(size) + HEADER
    ensures var w := (4 * c + HEADER + Rounded(size)) / 4; c + 2 <= w && w + 2 <= n
  {}

  /** With nothing in use the list is one free chunk: neighbours are never both free. */
  lemma NothingUsed(cs: seq<Chunk>, words: nat)
    requires ListOk(cs, words) && Blocks(cs) == {}
    ensures cs == [Chunk(cs[0].w, true), Chunk(cs[|cs| - 1].w, false)]
  {
    forall i | 0 <= i < |cs| - 1
      ensures cs[i].free
    {
      if !cs[i].free {
        UsedIsBlock(cs, i, Payload(cs, i));
      }
    }
    assert Separate(cs, 0);
  }

  /** Payloads in use are aligned, inside the region, and pairwise apart by at least a header. */
  lemma PayloadsDisjoint(cs: seq<Chunk>, words: nat, b: (int, int), c: (int, int))
    requires ListOk(cs, words) && b in Blocks(cs) && c in Blocks(cs)
    ensures b.0 % 4 == 0 && 4 * cs[0].w + HEADER <= b.0 <= b.1 <= 4 * cs[|cs| - 1].w
    ensures b == c || b.1 + HEADER <= c.0 || c.1 + HEADER <= b.0
  {
    var i := BlockAt(cs, b);
    var j := BlockAt(cs, c);
    if i > 0 { Apart(cs, words, 0, i); }
    if i + 1 < |cs| - 1 { Apart(cs, words, i + 1, |cs| - 1); }
    if i + 1 < j { Apart(cs, words, i + 1, j); }
    if j + 1 < i { Apart(cs, words, j + 1, i); }
  }

  /** After any run of malloc and free from the initial region, the list is well formed
      between the same head and tail, and once every payload is freed, in whatever order,
      the single initial chunk is back. */
  lemma {:induction false} RunKeeps(run: seq<seq<Chunk>>, words: nat, h: nat, t: nat)
    requires 0 < h && h + 2 <= t && t + 2 <= words
    requires |run| > 0 && run[0] == [Chunk(h, true), Chunk(t, false)]
    requires forall n :: 0 <= n < |run| - 1 ==> Step(run[n], run[n + 1])
    ensures Between(run[|run| - 1], words, h, t)
    ensures Blocks(run[|run| - 1]) == {} ==> run[|run| - 1] == run[0]
  {
    hide Step, Blocks;
    if |run| > 1 {
      RunKeeps(run[..|run| - 1], words, h, t);
      assert Step(run[|run| - 2], run[|run| - 1]);
      StepKeeps(run[|run| - 2], run[|run| - 1], words, h, t);
    }
    if Blocks(run[|run| - 1]) == {} {
      NothingUsed(run[|run| - 1], words);
    }
  }

  // ----- conservation

  function PayloadSize(cs: seq<Chunk>, i: nat): int
    requires i + 1 < |cs|
  {
    4 * cs[i + 1].w - 4 * cs[i].w - HEADER
  }

  /** Payload bytes of the first i chunks that are free (or in use). */
  function Bytes(cs: seq<Chunk>, i: nat, free: bool): int
    requires i < |cs|
  {
    if i == 0 then 0
    else Bytes(cs, i - 1, free) + if cs[i - 1].free == free then PayloadSize(cs, i - 1) else 0
  }

  function Count(cs: seq<Chunk>, i: nat, free: bool): int
    requires i < |cs|
  {
    if i == 0 then 0 else Count(cs, i - 1, free) + if cs[i - 1].free == free then 1 else 0
  }

  /** Chunk k is free with n payload bytes. */
  predicate FreeOf(cs: seq<Chunk>, k: nat, n: int) {
    k + 1 < |cs| && cs[k].free && PayloadSize(cs, k) == n
  }

  /** `largest` is the largest free payload among the first i, zero if there is none. */
  ghost predicate IsLargest(cs: seq<Chunk>, i: nat, largest: int)
    requires i < |cs|
  {
    && (forall k, n :: 0 <= k < i && FreeOf(cs, k, n) ==> n <= largest)
    && (largest == 0 || exists k :: 0 <= k < i && FreeOf(cs, k, largest))
  }

  /** Headers and payloads, free and used, always add up to the region. */
  lemma {:induction false} Conservation(cs: seq<Chunk>, words: nat, i: nat)
    requires Ordered(cs, words) && i < |cs|
    ensures Bytes(cs, i, true) + Bytes(cs, i, false) + HEADER * i == 4 * (cs[i].w - cs[0].w)
    ensures Count(cs, i, true) + Count(cs, i, false) == i
    ensures Bytes(cs, i, true) >= 0 && Bytes(cs, i, false) >= 0 && Count(cs, i, true) >= 0 && Count(cs, i, false) >= 0
    ensures 0 <= 4 * cs[i].w < 4 * words
  {
    if i > 0 {
      Conservation(cs, words, i - 1);
      Apart(cs, words, i - 1, i);
    }
    if i < |cs| - 1 { Apart(cs, words, i, |cs| - 1); }
  }

  // ----- the headers in memory

  lemma Apart(cs: seq<Chunk>, words: nat, i: nat, j: nat)
    requires Ordered(cs, words) && i < j < |cs|
    ensures cs[i].w + 2 <= cs[j].w
  {}

  /** Nothing but the words of `except` changed. */
  ghost predicate OnlyAt(mem: seq<u32>, mem': seq<u32>, except: set<int>) {
    |mem'| == |mem| && forall k :: 0 <= k < |mem| && k !in except ==> mem'[k] == mem[k]
  }

  lemma SplitLinked(mem: seq<u32>, mem': seq<u32>, cs: seq<Chunk>, i: nat, w: nat)
    requires ListOk(cs, |mem|) && Linked(mem, cs) && i < |cs| - 1 && cs[i].free
    requires cs[i].w + 2 <= w && w + 2 <= cs[i + 1].w
    requires OnlyAt(mem, mem', {cs[i].w, cs[i + 1].w + 1, w, w + 1})
    requires mem'[cs[i].w] == 4 * w && mem'[cs[i + 1].w + 1] == 4 * w
    requires mem'[w] == 4 * cs[i + 1].w + 1 && mem'[w + 1] == 4 * cs[i].w
    ensures Linked(mem', Split(cs, i, w))
  {
    hide Split, OnlyAt, HeaderAt, Ordered;
    SplitItems(cs, i, w);
    var s := Split(cs, i, w);
    forall k | 0 <= k < |s|
      ensures HeaderAt(mem', s, k)
    {
      SplitHeader(mem, mem', cs, i, w, s, k);
    }
  }

  lemma SplitHeader(mem: seq<u32>, mem': seq<u32>, cs: seq<Chunk>, i: nat, w: nat, s: seq<Chunk>, k: nat)
    requires Ordered(cs, |mem|) && Linked(mem, cs) && i < |cs| - 1 && cs[i].free
    requires cs[i].w + 2 <= w && w + 2 <= cs[i + 1].w
    requires OnlyAt(mem, mem', {cs[i].w, cs[i + 1].w + 1, w, w + 1})
    requires mem'[cs[i].w] == 4 * w && mem'[cs[i + 1].w + 1] == 4 * w
    requires mem'[w] == 4 * cs[i + 1].w + 1 && mem'[w + 1] == 4 * cs[i].w
    requires s == Split(cs, i, w) && k < |s|
    ensures HeaderAt(mem', s, k)
  {
    SplitItems(cs, i, w);
    hide Split, Ordered, Linked;
    if k < i {
      Apart(cs, |mem|, k, i);
      LinkedAt(mem, cs, k);
    } else if k > i + 1 {
      if k > i + 2 { Apart(cs, |mem|, i + 1, k - 1); }
      LinkedAt(mem, cs, k - 1);
    } else {
      LinkedAt(mem, cs, i);
    }
  }

  lemma LinkedAt(mem: seq<u32>, cs: seq<Chunk>, k: nat)
    requires Linked(mem, cs) && k < |cs|
    ensures HeaderAt(mem, cs, k)
  {}

  lemma MergeLinked(mem: seq<u32>, mem': seq<u32>, cs: seq<Chunk>, i: nat)
    requires Ordered(cs, |mem|) && Linked(mem, cs) && i + 2 < |cs|
    requires cs[i].w < |mem| && cs[i + 2].w + 1 < |mem|
    requires OnlyAt(mem, mem', {cs[i].w, cs[i + 2].w + 1})
    requires mem'[cs[i].w] == 4 * cs[i + 2].w + (if cs[i].free then 1 else 0) && mem'[cs[i + 2].w + 1] == 4 * cs[i].w
    ensures Linked(mem', Merge(cs, i))
  {
    hide Merge, OnlyAt, HeaderAt, Ordered;
    MergeItems(cs, i);
    var s := Merge(cs, i);
    forall k | 0 <= k < |s|
      ensures HeaderAt(mem', s, k)
    {
      MergeHeader(mem, mem', cs, i, s, k);
    }
  }

  lemma MergeHeader(mem: seq<u32>, mem': seq<u32>, cs: seq<Chunk>, i: nat, s: seq<Chunk>, k: nat)
    requires Ordered(cs, |mem|) && Linked(mem, cs) && i + 2 < |cs|
    requires cs[i].w < |mem| && cs[i + 2].w + 1 < |mem|
    requires OnlyAt(mem, mem', {cs[i].w, cs[i + 2].w + 1})
    requires mem'[cs[i].w] == 4 * cs[i + 2].w + (if cs[i].free then 1 else 0) && mem'[cs[i + 2].w + 1] == 4 * cs[i].w
    requires s == Merge(cs, i) && k < |s|
    ensures HeaderAt(mem', s, k)
  {
    MergeItems(cs, i);
    hide Merge, Ordered, Linked, OnlyAt, HeaderAt;
    if k < i {
      MergeBefore(mem, mem', cs, i, s, k);
    } else if k > i {
      MergeAfter(mem, mem', cs, i, s, k);
    } else {
      MergeSelf(mem, mem', cs, i, s);
    }
  }

  lemma MergeBefore(mem: seq<u32>, mem': seq<u32>, cs: seq<Chunk>, i: nat, s: seq<Chunk>, k: nat)
    requires Ordered(cs, |mem|) && Linked(mem, cs) && i + 2 < |cs|
    requires cs[i].w < |mem| && cs[i + 2].w + 1 < |mem|
    requires OnlyAt(mem, mem', {cs[i].w, cs[i + 2].w + 1})
    requires mem'[cs[i].w] == 4 * cs[i + 2].w + (if cs[i].free then 1 else 0) && mem'[cs[i + 2].w + 1] == 4 * cs[i].w
    requires |s| == |cs| - 1 && k < i && s[k] == cs[k] && s[k + 1] == cs[k + 1] && (k > 0 ==> s[k - 1] == cs[k - 1])
    ensures HeaderAt(mem', s, k)
  {
    hide Ordered, Linked;
    LinkedAt(mem, cs, k);
    Apart(cs, |mem|, k, i);
    Apart(cs, |mem|, k, i + 2);
  }

  lemma MergeSelf(mem: seq<u32>, mem': seq<u32>, cs: seq<Chunk>, i: nat, s: seq<Chunk>)
    requires Ordered(cs, |mem|) && Linked(mem, cs) && i + 2 < |cs|
    requires cs[i].w < |mem| && cs[i + 2].w + 1 < |mem|
    requires OnlyAt(mem, mem', {cs[i].w, cs[i + 2].w + 1})
    requires mem'[cs[i].w] == 4 * cs[i + 2].w + (if cs[i].free then 1 else 0) && mem'[cs[i + 2].w + 1] == 4 * cs[i].w
    requires |s| == |cs| - 1 && s[i] == cs[i] && s[i + 1] == cs[i + 2] && (i > 0 ==> s[i - 1] == cs[i - 1])
    ensures HeaderAt(mem', s, i)
  {
    hide Ordered, Linked;
    LinkedAt(mem, cs, i);
    Apart(cs, |mem|, i, i + 2);
  }

  lemma MergeAfter(mem: seq<u32>, mem': seq<u32>, cs: seq<Chunk>, i: nat, s: seq<Chunk>, k: nat)
    requires Ordered(cs, |mem|) && Linked(mem, cs) && i + 2 < |cs|
    requires cs[i].w < |mem| && cs[i + 2].w + 1 < |mem|
    requires OnlyAt(mem, mem', {cs[i].w, cs[i + 2].w + 1})
    requires mem'[cs[i].w] == 4 * cs[i + 2].w + (if cs[i].free then 1 else 0) && mem'[cs[i + 2].w + 1] == 4 * cs[i].w
    requires |s| == |cs| - 1 && i < k < |s| && s[k] == cs[k + 1] && (k + 1 < |s| ==> s[k + 1] == cs[k + 2])
    requires s[k - 1] == if k == i + 1 then cs[i] else cs[k]
    ensures HeaderAt(mem', s, k)
  {
    hide Ordered, Linked;
    LinkedAt(mem, cs, k + 1);
    Apart(cs, |mem|, i, k + 1);
    if k > i + 1 { Apart(cs, |mem|, i + 2, k + 1); }
  }

  lemma ReleaseLinked(mem: seq<u32>, mem': seq<u32>, cs: seq<Chunk>, i: nat)
    requires Ordered(cs, |mem|) && Linked(mem, cs) && i < |cs| && !cs[i].free && cs[i].w < |mem|
    requires OnlyAt(mem, mem', {cs[i].w}) && mem'[cs[i].w] == mem[cs[i].w] as int + 1
    ensures Linked(mem', Release(cs, i))
  {
    hide OnlyAt, HeaderAt, Ordered;
    forall k | 0 <= k < |cs|
      ensures HeaderAt(mem', Release(cs, i), k)
    {
      ReleaseHeader(mem, mem', cs, i, k);
    }
  }

  lemma ReleaseHeader(mem: seq<u32>, mem': seq<u32>, cs: seq<Chunk>, i: nat, k: nat)
    requires Ordered(cs, |mem|) && Linked(mem, cs) && i < |cs| && !cs[i].free && cs[i].w < |mem| && k < |cs|
    requires OnlyAt(mem, mem', {cs[i].w}) && mem'[cs[i].w] == mem[cs[i].w] as int + 1
    ensures HeaderAt(mem', Release(cs, i), k)
  {
    hide Ordered, Linked;
    LinkedAt(mem, cs, k);
    if k < i { Apart(cs, |mem|, k, i); }
    if k > i { Apart(cs, |mem|, i, k); }
  }

  /** The memory after link(a, b), for headers at words a and b. */
  function Joined(mem: seq<u32>, a: nat, b: nat): (r: seq<u32>)
    requires a < |mem| && b + 1 < |mem| && 4 * a < M32 && 4 * b < M32
    ensures |r| == |mem|
  {
    var m := mem[a := SetPtr(mem[a], 4 * b)];
    m[b + 1 := SetPtr(m[b + 1], 4 * a)]
  }

  // ----- the allocator

  class Allocator {
    const mem: array<u32>
    var head: u32
    ghost var cs: seq<Chunk>

    ghost predicate Valid()
      reads this, mem
    {
      Chained() && ListOk(cs, mem.Length) && head == 4 * cs[0].w
    }

    /** The memory holds the list, in address order. */
    ghost predicate Chained()
      reads this, mem
    {
      mem.Length <= M32 / 4 && Ordered(cs, mem.Length) && Linked(mem[..], cs)
    }

    predicate Address(p: u32) { p % 4 == 0 && p / 4 + 1 < mem.Length }

    function Next(p: u32): u32
      requires Address(p)
      reads mem
    {
      ReadPtr(mem[p / 4])
    }

    function Prev(p: u32): u32
      requires Address(p)
      reads mem
    {
      ReadPtr(mem[p / 4 + 1])
    }

    function IsFree(p: u32): bool
      requires Address(p)
      reads mem
    {
      ReadFree(mem[p / 4])
    }

    function Size(p: u32): u32
      requires Address(p)
      reads mem
    {
      W(W(Next(p) - p) - HEADER)
    }

    method Link(a: u32, b: u32)
      requires Address(a) && Address(b)
      modifies mem
      ensures mem[..] == Joined(old(mem[..]), a / 4, b / 4)
    {
      mem[a / 4] := SetPtr(mem[a / 4], b);
      mem[b / 4 + 1] := SetPtr(mem[b / 4 + 1], a);
    }

    method SetIsFree(p: u32, flag: bool)
      requires Address(p)
      modifies mem
      ensures mem[..] == old(mem[..])[p / 4 := SetFree(old(mem[p / 4]), flag)]
    {
      mem[p / 4] := SetFree(mem[p / 4], flag);
    }

    /** What the header functions read at chunk i. */
    lemma ReadChunk(i: nat)
      requires Chained() && i < |cs|
      ensures Address(4 * cs[i].w)
      ensures Next(4 * cs[i].w) == NextPtr(cs, i) && Prev(4 * cs[i].w) == PrevPtr(cs, i)
      ensures IsFree(4 * cs[i].w) == cs[i].free
      ensures i + 1 < |cs| ==> Size(4 * cs[i].w) == 4 * cs[i + 1].w - 4 * cs[i].w - HEADER
    {
      hide Linked, Ordered, W, ReadPtr, ReadFree;
      LinkedAt(mem[..], cs, i);
      ListAt(cs, mem.Length, i);
      if i > 0 { ListAt(cs, mem.Length, i - 1); }
      ReadTagged(NextPtr(cs, i) / 4, cs[i].free);
      ReadTagged(PrevPtr(cs, i) / 4, false);
      if i + 1 < |cs| {
        ListAt(cs, mem.Length, i + 1);
        SizeIs(4 * cs[i].w, 4 * cs[i + 1].w);
      }
    }

    /** The owners of payloads may write into them at any time between two calls. */
    twostate lemma OwnersKeepValid()
      requires old(Valid()) && head == old(head) && cs == old(cs)
      requires WrittenInUse(old(mem[..]), mem[..], cs)
      ensures Valid()
    {
      hide Linked, Ordered, Blocks, WrittenInUse;
      OwnersKeepLinked(old(mem[..]), mem[..], cs);
    }

    /** *p = {0, 0} */
    method Clear(p: u32)
      requires Address(p)
      modifies mem
      ensures mem[..] == old(mem[..])[p / 4 := 0][p / 4 + 1 := 0]
    {
      mem[p / 4] := 0;
      mem[p / 4 + 1] := 0;
    }

    /** Lays out a region as one free chunk and the tail sentinel. */
    constructor (words: array<u32>, ptr: u32, size: u32)
      requires words.Length <= M32 / 4 && 0 < ptr && ptr + size < M32 && ptr + size <= 4 * words.Length
      requires size >= HEADER && Rounded(ptr) + HEADER <= AlignFloor(ptr + size - HEADER)
      modifies words
      ensures Valid() && mem == words
      ensures cs == [Chunk(Rounded(ptr) / 4, true), Chunk(AlignFloor(ptr + size - HEADER) / 4, false)]
    {
      mem := words;
      head := AlignCeil(ptr);
      new;
      hide W, AlignCeil, AlignFloor, SetPtr, SetFree, ListOk, Linked, Rounded;
      var tail := AlignFloor(ptr + size - HEADER);
      Layout(words.Length, ptr, size);
      Clear(head);
      Clear(tail);
      Link(head, tail);
      SetIsFree(head, true);
      cs := [Chunk(head / 4, true), Chunk(tail / 4, false)];
      Initial(old(words[..]), mem[..], head / 4, tail / 4);
    }

    /** First fit: the first chunk that passes the size test is split and its payload
        returned; null exactly when there is none, and then nothing has changed. Beyond
        MAX_SIZE nothing is promised about the heap: the chunk carved out does not hold a
        single byte of the request. */
    method Malloc(size: u32) returns (p: u32)
      requires Valid()
      modifies this`cs, mem
      ensures head == old(head) && (p == 0 ==> cs == old(cs) && mem[..] == old(mem[..]))
      ensures FirstPass(old(cs), size, p)
      ensures size <= MAX_SIZE ==>
        && Valid() && MallocStep(old(cs), cs, size, p) && PayloadsKept(old(mem[..]), mem[..], old(cs))
        && (p != 0 ==> p % 4 == 0 && Blocks(cs) == old(Blocks(cs)) + {(p, p + Rounded(size))})
      ensures size > MAX_SIZE && p != 0 ==> AlignCeil(W(p as int + size as int)) <= p
    {
      hide W, AlignCeil, RequiredSize, Rounded, ListOk, Linked, Ordered, HeaderAt, Blocks, Split, Size, PayloadsKept, MallocStep, IsFree, FirstPass, Fits;
      var required := RequiredSize(size);
      var chunk := head;
      ghost var i: nat := 0;
      ListShape(cs, mem.Length);
      while chunk != 0
        invariant cs == old(cs) && mem[..] == old(mem[..]) && head == old(head)
        invariant Valid() && i <= |cs| && chunk == (if i < |cs| then 4 * cs[i].w else 0) && (i < |cs| ==> cs[i].w > 0)
        invariant forall k :: k < i ==> !Passes(cs, k, size)
        decreases |cs| - i
      {
        ReadChunk(i);
        ListShape(cs, mem.Length);
        if IsFree(chunk) && Size(chunk) >= required {
          if size <= MAX_SIZE {
            PassesIsFits(cs, size);
          }
          p := Carve(chunk, size, i);
          Passed(old(cs), size, p, i);
          if size <= MAX_SIZE {
            FirstFit(old(cs), cs, size, p, i);
          }
          return;
        }
        chunk := Next(chunk);
        if i + 1 < |cs| { ListAt(cs, mem.Length, i + 1); }
        i := i + 1;
      }
      AllKept(mem[..], cs);
      NonePassed(cs, size);
      if size <= MAX_SIZE {
        PassesIsFits(cs, size);
        NoFit(cs, size);
      }
      p := 0;
    }

    /** Writes the new header and links it between its neighbours. */
    method Insert(chunk: u32, newChunk: u32)
      requires Address(chunk) && Address(newChunk) && Address(Next(chunk))
      modifies mem
      ensures chunk + HEADER <= newChunk ==>
        mem[..] == Carved(old(mem[..]), chunk / 4, newChunk / 4, old(Next(chunk)) / 4)
    {
      hide SetPtr, SetFree, Joined;
      Clear(newChunk);
      var next := Next(chunk);
      Link(newChunk, next);
      Link(chunk, newChunk);
      SetIsFree(chunk, false);
      SetIsFree(newChunk, true);
    }

    /** Inserts a header behind the request. */
    method Carve(chunk: u32, size: u32, ghost i: nat) returns (p: u32)
      requires Valid() && i < |cs| - 1 && chunk == 4 * cs[i].w && (size <= MAX_SIZE ==> Fits(cs, i, size))
      modifies this`cs, mem
      ensures head == old(head) && p != 0 && p == chunk as int + HEADER
      ensures size <= MAX_SIZE ==>
        && Valid() && p % 4 == 0 && cs == Split(old(cs), i, (p + Rounded(size)) / 4)
        && Blocks(cs) == old(Blocks(cs)) + {(p, p + Rounded(size))}
        && PayloadsKept(old(mem[..]), mem[..], old(cs))
      ensures size > MAX_SIZE ==> AlignCeil(W(p as int + size as int)) <= p
    {
      hide W, AlignCeil, Rounded, ListOk, Linked, Blocks, Split, PayloadsKept, Carved;
      ListAt(cs, mem.Length, i);
      ListAt(cs, mem.Length, i + 1);
      if size <= MAX_SIZE {
        CarveAddress(cs[i].w, size, cs[i + 1].w);
      } else {
        OversizedAddress(cs[i].w, size);
      }
      CeilAligned(W(chunk + HEADER + size));
      var newChunk := AlignCeil(W(chunk + HEADER + size));
      ReadChunk(i);
      Insert(chunk, newChunk);
      p := chunk + HEADER;
      if size <= MAX_SIZE {
        CarveOk(old(mem[..]), cs, i, newChunk / 4);
        cs := Split(cs, i, newChunk / 4);
      }
    }

    /** b's header leaves the list. */
    method MergeHeaders(a: u32, b: u32)
      requires Address(a) && Address(b) && (Next(b) != 0 ==> Address(Next(b)))
      modifies mem
      ensures var n := old(Next(b));
              mem[..] == if n != 0 then Joined(old(mem[..]), a / 4, n / 4)
                         else old(mem[..])[a / 4 := SetPtr(old(mem[a / 4]), 0)]
    {
      var next := Next(b);
      if next != 0 {
        Link(a, next);
      } else {
        mem[a / 4] := SetPtr(mem[a / 4], 0);
      }
    }

    /** Chunk i swallows its successor. */
    method Absorb(a: u32, b: u32, ghost i: nat)
      requires Chained() && i + 2 < |cs| && a == 4 * cs[i].w && b == 4 * cs[i + 1].w
      modifies this`cs, mem
      ensures Chained() && cs == Merge(old(cs), i)
      ensures OnlyAt(old(mem[..]), mem[..], {old(cs)[i].w as int, old(cs)[i + 2].w + 1})
    {
      hide Ordered, Linked, Merge, HeaderAt, Joined, OnlyAt, PrevPtr, Size, IsFree, Prev;
      ReadChunk(i);
      ReadChunk(i + 1);
      ReadChunk(i + 2);
      ListAt(cs, mem.Length, i + 1);
      ListAt(cs, mem.Length, i + 2);
      MergeHeaders(a, b);
      AbsorbMemory(old(mem[..]), mem[..], cs, i);
      MergeLinked(old(mem[..]), mem[..], cs, i);
      MergeOrdered(cs, i, mem.Length);
      cs := Merge(cs, i);
    }

    /** Frees a payload in use: exactly that payload leaves, no other payload's contents
        change, and free neighbours are absorbed. Freeing null does nothing. */
    method Free(p: u32)
      requires Valid() && (p == 0 || exists i :: StartsAt(cs, i, p))
      modifies this`cs, mem
      ensures Valid() && head == old(head)
      ensures p == 0 ==> mem[..] == old(mem[..])
      ensures FreeStep(old(cs), cs, p)
      ensures p != 0 ==> exists b :: b in old(Blocks(cs)) && b.0 == p && Blocks(cs) == old(Blocks(cs)) - {b}
      ensures PayloadsKept(old(mem[..]), mem[..], old(cs))
    {
      if p == 0 {
        return;
      }
      ghost var i :| StartsAt(cs, i, p);
      UsedIsBlock(cs, i, Payload(cs, i));
      FreeChunk(p, i);
    }

    /** `was` is the list before the free: same places, and the memory may differ from now on
        only in header words of it. */
    method AbsorbNext(chunk: u32, next: u32, ghost i: nat, ghost was: seq<Chunk>)
      requires Chained() && i + 1 < |cs| && chunk == 4 * cs[i].w && next == 4 * cs[i + 1].w && !cs[|cs| - 1].free
      requires Ordered(was, mem.Length) && |was| == |cs| && forall k :: 0 <= k < |cs| ==> cs[k].w == was[k].w
      modifies this`cs, mem
      ensures Chained() && cs == if old(cs)[i + 1].free then Merge(old(cs), i) else old(cs)
      ensures PayloadsKept(old(mem[..]), mem[..], was)
    {
      hide Linked, Merge, HeaderAt, Ordered, PayloadsKept, OnlyAt;
      ListAt(cs, mem.Length, i + 1);
      ReadChunk(i + 1);
      AllKept(mem[..], was);
      if next != 0 && IsFree(next) {
        Absorb(chunk, next, i);
        HeadersOnly(old(mem[..]), mem[..], was, i, i + 2);
      }
    }

    method AbsorbPrev(chunk: u32, prev: u32, ghost i: nat, ghost was: seq<Chunk>, ghost next: nat)
      requires Chained() && i + 1 < |cs| && chunk == 4 * cs[i].w && prev == PrevPtr(cs, i)
      requires Ordered(was, mem.Length) && next < |was| && cs[i + 1].w == was[next].w
      requires i > 0 ==> i < |was| && cs[i - 1].w == was[i - 1].w
      modifies this`cs, mem
      ensures Chained() && cs == if i > 0 && old(cs)[i - 1].free then Merge(old(cs), i - 1) else old(cs)
      ensures PayloadsKept(old(mem[..]), mem[..], was)
    {
      hide Linked, Merge, HeaderAt, Ordered, PayloadsKept, OnlyAt;
      AllKept(mem[..], was);
      if i > 0 {
        ListAt(cs, mem.Length, i - 1);
        ReadChunk(i - 1);
      }
      if prev != 0 && IsFree(prev) {
        Absorb(prev, chunk, i - 1);
        HeadersOnly(old(mem[..]), mem[..], was, i - 1, next);
      }
    }

    method FreeChunk(p: u32, ghost i: nat)
      requires Valid() && i < |cs| - 1 && !cs[i].free && p == 4 * cs[i].w + HEADER
      modifies this`cs, mem
      ensures Valid() && head == old(head)
      ensures cs == Coalesced(old(cs), i) && Blocks(cs) == old(Blocks(cs)) - {Payload(old(cs), i)}
      ensures PayloadsKept(old(mem[..]), mem[..], old(cs))
    {
      hide Linked, Merge, HeaderAt, Release, Ordered, Blocks, PayloadsKept, SetFree, OnlyAt, W;
      ListShape(cs, mem.Length);
      ListAt(cs, mem.Length, i);
      var chunk: u32 := p - HEADER;
      ReadChunk(i);
      var next := Next(chunk);
      var prev := Prev(chunk);
      ghost var was := cs;
      SetIsFree(chunk, true);
      ReleaseStep(old(mem[..]), mem[..], was, i);
      cs := Release(cs, i);
      ghost var m1 := mem[..];
      MergeItems(cs, i);
      AbsorbNext(chunk, next, i, was);
      assert i + 1 < |cs| && forall k | 0 <= k <= i :: cs[k] == Release(was, i)[k];
      KeptTwice(old(mem[..]), m1, mem[..], was);
      ghost var m2 := mem[..];
      AbsorbPrev(chunk, prev, i, was, if was[i + 1].free then i + 2 else i + 1);
      KeptTwice(old(mem[..]), m2, mem[..], was);
      CoalescedOk(old(cs), i, mem.Length);
    }

    /** Sums up the chunks; no counter overflows. */
    method HeapStats() returns (free: u32, used: u32, largest: u32, freeChunks: u32, usedChunks: u32)
      requires Valid()
      ensures StatsOf(cs, |cs| - 1, free, used, largest, freeChunks, usedChunks)
      ensures free + used + HEADER * (freeChunks + usedChunks) == 4 * cs[|cs| - 1].w - head
    {
      hide Linked, Ordered, HeaderAt, Size, Next, IsFree, W, StatsOf, PrevPtr, ListOk;
      free, used, largest, freeChunks, usedChunks := 0, 0, 0, 0, 0;
      var chunk := head;
      ghost var i: nat := 0;
      ListShape(cs, mem.Length);
      ListAt(cs, mem.Length, 0);
      ListAt(cs, mem.Length, 1);
      ReadChunk(0);
      NoStats(cs);
      while chunk != 0 && Next(chunk) != 0
        invariant i < |cs| && chunk == 4 * cs[i].w && chunk != 0 && Address(chunk) && Next(chunk) == NextPtr(cs, i)
        invariant i + 1 < |cs| ==> cs[i + 1].w > 0
        invariant StatsOf(cs, i, free, used, largest, freeChunks, usedChunks)
        decreases |cs| - i
      {
        ReadChunk(i);
        ReadChunk(i + 1);
        ListAt(cs, mem.Length, i + 1);
        if i + 2 < |cs| { ListAt(cs, mem.Length, i + 2); }
        NextStats(cs, mem.Length, i, free, used, largest, freeChunks, usedChunks);
        var size := Size(chunk);
        if IsFree(chunk) {
          free := free + size;
          freeChunks := freeChunks + 1;
          if size > largest {
            largest := size;
          }
        } else {
          used := used + size;
          usedChunks := usedChunks + 1;
        }
        chunk := Next(chunk);
        i := i + 1;
      }
      StatsAddUp(cs, mem.Length, free, used, largest, freeChunks, usedChunks);
    }
  }

  /** The counters over the first i chunks. */
  ghost predicate StatsOf(cs: seq<Chunk>, i: nat, free: int, used: int, largest: int, freeChunks: int, usedChunks: int)
    requires i < |cs|
  {
    && free == Bytes(cs, i, true) && used == Bytes(cs, i, false)
    && freeChunks == Count(cs, i, true) && usedChunks == Count(cs, i, false)
    && IsLargest(cs, i, largest)
  }

  lemma NoStats(cs: seq<Chunk>)
    requires |cs| > 0
    ensures StatsOf(cs, 0, 0, 0, 0, 0, 0)
  {}

  lemma StatsAddUp(cs: seq<Chunk>, words: nat, free: int, used: int, largest: int, freeChunks: int, usedChunks: int)
    requires Ordered(cs, words) && StatsOf(cs, |cs| - 1, free, used, largest, freeChunks, usedChunks)
    ensures free + used + HEADER * (freeChunks + usedChunks) == 4 * cs[|cs| - 1].w - 4 * cs[0].w
  {
    Conservation(cs, words, |cs| - 1);
  }

  lemma NextStats(cs: seq<Chunk>, words: nat, i: nat, free: int, used: int, largest: int, freeChunks: int, usedChunks: int)
    requires Ordered(cs, words) && words <= M32 / 4 && i + 1 < |cs|
    requires StatsOf(cs, i, free, used, largest, freeChunks, usedChunks)
    ensures var size := PayloadSize(cs, i);
            if cs[i].free then
              && free + size < M32 && freeChunks + 1 < M32
              && StatsOf(cs, i + 1, free + size, used, if size > largest then size else largest, freeChunks + 1, usedChunks)
            else
              && used + size < M32 && usedChunks + 1 < M32
              && StatsOf(cs, i + 1, free, used + size, largest, freeChunks, usedChunks + 1)
  {
    hide IsLargest, Ordered;
    Conservation(cs, words, i + 1);
    NextLargest(cs, i, largest);
  }

  lemma NextLargest(cs: seq<Chunk>, i: nat, largest: int)
    requires i + 1 < |cs| && IsLargest(cs, i, largest)
    ensures IsLargest(cs, i + 1, if cs[i].free && PayloadSize(cs, i) > largest then PayloadSize(cs, i) else largest)
  {
    if cs[i].free {
      assert FreeOf(cs, i, PayloadSize(cs, i));
    }
    hide FreeOf;
    if k :| 0 <= k < i && FreeOf(cs, k, largest) {
      assert k < i + 1;
    }
  }

  lemma AbsorbMemory(mem: seq<u32>, mem': seq<u32>, cs: seq<Chunk>, i: nat)
    requires Ordered(cs, |mem|) && Linked(mem, cs) && |mem| <= M32 / 4 && i + 2 < |cs|
    requires cs[i].w < |mem| && cs[i + 2].w + 1 < |mem| && cs[i].w < cs[i + 2].w
    requires mem' == Joined(mem, cs[i].w, cs[i + 2].w)
    ensures OnlyAt(mem, mem', {cs[i].w, cs[i + 2].w + 1})
    ensures mem'[cs[i].w] == 4 * cs[i + 2].w + (if cs[i].free then 1 else 0) && mem'[cs[i + 2].w + 1] == 4 * cs[i].w
  {
    hide Ordered, Linked, SetPtr;
    LinkedAt(mem, cs, i);
    LinkedAt(mem, cs, i + 2);
    SetTagged(NextPtr(cs, i) / 4, cs[i].free, cs[i + 2].w);
    SetTagged(PrevPtr(cs, i + 2) / 4, false, cs[i].w);
  }

  lemma ReleaseStep(mem: seq<u32>, mem': seq<u32>, cs: seq<Chunk>, i: nat)
    requires ListOk(cs, |mem|) && Linked(mem, cs) && |mem| <= M32 / 4 && i < |cs| - 1 && !cs[i].free && cs[i].w < |mem|
    requires mem' == mem[cs[i].w := SetFree(mem[cs[i].w], true)]
    ensures var r := Release(cs, i);
            && |mem'| == |mem| && Ordered(r, |mem|) && Linked(mem', r) && PayloadsKept(mem, mem', cs)
            && |r| == |cs| && r[0].w == cs[0].w
            && (forall k :: 0 <= k < |r| ==> r[k].w == cs[k].w && r[k].free == (k == i || cs[k].free))
  {
    hide Linked, PayloadsKept;
    LinkedAt(mem, cs, i);
    ReleaseLinked(mem, mem', cs, i);
    HeadersOnly(mem, mem', cs, i, i);
  }

  /** Changes to header words leave the payloads as they were. */
  lemma HeadersOnly(mem: seq<u32>, mem': seq<u32>, cs: seq<Chunk>, a: nat, b: nat)
    requires Ordered(cs, |mem|) && a < |cs| && b < |cs|
    requires OnlyAt(mem, mem', {cs[a].w, cs[b].w + 1})
    ensures PayloadsKept(mem, mem', cs)
  {
    hide Ordered;
    forall j, k | 0 <= j < |cs| - 1 && cs[j].w + 2 <= k < cs[j + 1].w && k < |mem| && !cs[j].free
      ensures mem'[k] == mem[k]
    {
      Outside(cs, |mem|, j, k, a);
      Outside(cs, |mem|, j, k, b);
    }
  }

  lemma KeptTwice(m0: seq<u32>, m1: seq<u32>, m2: seq<u32>, cs: seq<Chunk>)
    requires PayloadsKept(m0, m1, cs) && PayloadsKept(m1, m2, cs)
    ensures PayloadsKept(m0, m2, cs)
  {}

  /** The memory after a header was inserted at word w between those at c and n. */
  function Carved(mem: seq<u32>, c: nat, w: nat, n: nat): seq<u32>
    requires c + 1 < |mem| && w + 1 < |mem| && n + 1 < |mem| && 4 * c < M32 && 4 * w < M32 && 4 * n < M32
  {
    var m1 := mem[w := 0][w + 1 := 0];
    var m2 := Joined(m1, w, n);
    var m3 := Joined(m2, c, w);
    var m4 := m3[c := SetFree(m3[c], false)];
    m4[w := SetFree(m4[w], true)]
  }

  lemma CarveOk(mem: seq<u32>, cs: seq<Chunk>, i: nat, w: nat)
    requires ListOk(cs, |mem|) && Linked(mem, cs) && |mem| <= M32 / 4 && i < |cs| - 1 && cs[i].free
    requires cs[i].w + 2 <= w && w + 2 <= cs[i + 1].w && cs[i + 1].w + 2 <= |mem|
    ensures var mem', s := Carved(mem, cs[i].w, w, cs[i + 1].w), Split(cs, i, w);
            && ListOk(s, |mem|) && Ordered(s, |mem|) && |mem'| == |mem| && Linked(mem', s) && s[0].w == cs[0].w
            && Blocks(s) == Blocks(cs) + {(4 * cs[i].w + HEADER, 4 * w)}
            && PayloadsKept(mem, mem', cs)
  {
    hide Linked, Blocks, Split, PayloadsKept, Carved, OnlyAt;
    var mem' := Carved(mem, cs[i].w, w, cs[i + 1].w);
    CarveMemory(mem, mem', cs, i, w);
    SplitLinked(mem, mem', cs, i, w);
    SplitOk(cs, i, w, |mem|);
    SplitBlocks(cs, i, w, |mem|);
    SplitKept(mem, mem', cs, i, w);
    SplitHead(cs, i, w);
  }

  /** A fresh region of 1016 bytes grants a request for all but one of 2^32 bytes: the
      payload it returns is empty. */
  method OversizedRequest() returns (p: u32)
    ensures p == 12 && AlignCeil(W(p as int + 0xffff_ffff)) == p
  {
    var words := new u32[256](i => 0);
    var a := new Allocator(words, 4, 1016);
    assert a.cs == [Chunk(1, true), Chunk(253, false)];
    RequiredSizeIff(0xffff_ffff);
    assert Passes(a.cs, 0, 0xffff_ffff);
    p := a.Malloc(0xffff_ffff);
    assert p == 12;
    assert W(12 + 0xffff_ffff) == 11;
    CeilIs(11);
  }

  lemma Passed(cs: seq<Chunk>, size: u32, p: int, i: nat)
    requires Passes(cs, i, size) && (forall k :: k < i ==> !Passes(cs, k, size)) && p != 0 && p == 4 * cs[i].w + HEADER
    ensures FirstPass(cs, size, p)
  {}

  lemma NonePassed(cs: seq<Chunk>, size: u32)
    requires forall k :: k < |cs| ==> !Passes(cs, k, size)
    ensures FirstPass(cs, size, 0)
  {}

  lemma FirstFit(cs: seq<Chunk>, cs': seq<Chunk>, size: u32, p: int, i: nat)
    requires Fits(cs, i, size) && forall k :: k < i ==> !Fits(cs, k, size)
    requires p != 0 && p == 4 * cs[i].w + HEADER && cs' == Split(cs, i, (p + Rounded(size)) / 4)
    ensures MallocStep(cs, cs', size, p)
  {}

  lemma NoFit(cs: seq<Chunk>, size: u32)
    requires forall k :: k < |cs| ==> !Fits(cs, k, size)
    ensures MallocStep(cs, cs, size, 0)
  {}

  lemma SizeIs(p: u32, next: u32)
    requires p + HEADER <= next
    ensures W(W(next - p) - HEADER) == next - p - HEADER
  {}

  lemma ListShape(cs: seq<Chunk>, words: nat)
    requires ListOk(cs, words)
    ensures |cs| >= 2 && cs[0].w > 0 && !cs[|cs| - 1].free
  {}

  lemma ListAt(cs: seq<Chunk>, words: nat, i: nat)
    requires Ordered(cs, words) && i < |cs|
    ensures 0 < cs[i].w && cs[i].w + 2 <= words
    ensures i + 1 < |cs| ==> cs[i].w + 2 <= cs[i + 1].w
    ensures i > 0 ==> cs[i - 1].w + 2 <= cs[i].w
  {
    if i > 0 { Apart(cs, words, 0, i); }
    if i < |cs| - 1 { Apart(cs, words, i, |cs| - 1); }
  }

  lemma AllKept(mem: seq<u32>, cs: seq<Chunk>)
    ensures PayloadsKept(mem, mem, cs)
  {}

  /** Exactly up to MAX_SIZE does the carved payload hold the request; beyond it the new
      header lands at most on the payload's first byte. */
  lemma CarvedHoldsIff(c: nat, size: u32, n: nat)
    requires c > 0 && c + 2 <= n && 4 * n + HEADER <= M32 && 4 * n - 4 * c - HEADER >= RequiredSize(size)
    ensures var a := AlignCeil(W(4 * c + HEADER + size));
            (a - (4 * c + HEADER) >= size <==> size <= MAX_SIZE) && (size > MAX_SIZE ==> a <= 4 * c + HEADER)
  {
    hide W, AlignCeil, RequiredSize;
    RequiredSizeIff(size);
    if size <= MAX_SIZE {
      CarveAddress(c, size, n);
    } else {
      OversizedAddress(c, size);
    }
  }

  lemma CeilAligned(x: u32)
    ensures AlignCeil(x) % 4 == 0
  {}

  lemma OversizedAddress(c: nat, size: u32)
    requires c > 0 && 4 * c + HEADER < M32 && size > MAX_SIZE
    ensures AlignCeil(W(4 * c + HEADER + size)) <= 4 * c + HEADER
  {
    assert W(4 * c + HEADER + size) == 4 * c + HEADER + size - M32;
  }

  /** The new header's address is the payload rounded up, inside the chunk. */
  lemma CarveAddress(c: nat, size: u32, n: nat)
    requires c > 0 && 4 * n < M32 && size <= MAX_SIZE && 4 * n - 4 * c - HEADER >= Rounded(size) + HEADER
    ensures var a := AlignCeil(W(4 * c + HEADER + size));
            a == 4 * c + HEADER + Rounded(size) && a % 4 == 0 && c + 2 <= a / 4 && a / 4 + 2 <= n
  {
    hide AlignCeil;
    assert W(4 * c + HEADER + size) == 4 * c + HEADER + size;
    CeilIs(4 * c + HEADER + size);
  }

  lemma CeilIs(x: u32)
    requires 0 < x <= M32 - 4
    ensures AlignCeil(x) == (x + 3) / 4 * 4
  {
    assert W(x - 1) == x - 1;
  }

  lemma CarveMemory(mem: seq<u32>, mem': seq<u32>, cs: seq<Chunk>, i: nat, w: nat)
    requires ListOk(cs, |mem|) && Linked(mem, cs) && |mem| <= M32 / 4 && i < |cs| - 1 && cs[i].free
    requires cs[i].w + 2 <= w && w + 2 <= cs[i + 1].w && cs[i + 1].w + 2 <= |mem|
    requires mem' == Carved(mem, cs[i].w, w, cs[i + 1].w)
    ensures |mem'| == |mem|
    ensures OnlyAt(mem, mem', {cs[i].w, cs[i + 1].w + 1, w, w + 1})
    ensures mem'[cs[i].w] == 4 * w && mem'[cs[i + 1].w + 1] == 4 * w
    ensures mem'[w] == 4 * cs[i + 1].w + 1 && mem'[w + 1] == 4 * cs[i].w
  {
    LinkedAt(mem, cs, i);
    LinkedAt(mem, cs, i + 1);
  }

  lemma SplitKept(mem: seq<u32>, mem': seq<u32>, cs: seq<Chunk>, i: nat, w: nat)
    requires ListOk(cs, |mem|) && i < |cs| - 1 && cs[i].free && cs[i].w + 2 <= w && w + 2 <= cs[i + 1].w
    requires OnlyAt(mem, mem', {cs[i].w, cs[i + 1].w + 1, w, w + 1})
    ensures PayloadsKept(mem, mem', cs)
  {
    forall j, k | 0 <= j < |cs| - 1 && cs[j].w + 2 <= k < cs[j + 1].w && k < |mem| && !cs[j].free
      ensures mem'[k] == mem[k]
    {
      Outside(cs, |mem|, j, k, i);
      Outside(cs, |mem|, j, k, i + 1);
      if j < i && j + 1 < i { Apart(cs, |mem|, j + 1, i); }
      if j > i && i + 1 < j { Apart(cs, |mem|, i + 1, j); }
    }
  }

  /** A payload word is no header word. */
  lemma Outside(cs: seq<Chunk>, words: nat, j: nat, k: nat, i: nat)
    requires Ordered(cs, words) && j + 1 < |cs| && cs[j].w + 2 <= k < cs[j + 1].w && i < |cs|
    ensures k != cs[i].w && k != cs[i].w + 1
  {
    if i < j { Apart(cs, words, i, j); }
    if i > j + 1 { Apart(cs, words, j + 1, i); }
  }

  lemma SplitHead(cs: seq<Chunk>, i: nat, w: nat)
    requires i + 1 < |cs|
    ensures Split(cs, i, w)[0].w == cs[0].w
  {}

  /** Only words of payloads in use changed. */
  ghost predicate WrittenInUse(mem: seq<u32>, mem': seq<u32>, cs: seq<Chunk>) {
    |mem'| == |mem|
    && forall k :: 0 <= k < |mem| && mem'[k] != mem[k] ==> exists b :: b in Blocks(cs) && b.0 <= 4 * k < b.1
  }

  /** Whatever the owners of payloads write into them, the headers stay the list. */
  lemma OwnersKeepLinked(mem: seq<u32>, mem': seq<u32>, cs: seq<Chunk>)
    requires ListOk(cs, |mem|) && Linked(mem, cs) && WrittenInUse(mem, mem', cs)
    ensures Linked(mem', cs)
  {
    hide ListOk, Blocks;
    forall i | 0 <= i < |cs|
      ensures HeaderAt(mem', cs, i)
    {
      LinkedAt(mem, cs, i);
      NotInUse(cs, |mem|, i);
    }
  }

  /** No payload in use contains a word of a header. */
  lemma NotInUse(cs: seq<Chunk>, words: nat, i: nat)
    requires ListOk(cs, words) && i < |cs|
    ensures forall b :: b in Blocks(cs) ==> !(b.0 <= 4 * cs[i].w < b.1) && !(b.0 <= 4 * (cs[i].w + 1) < b.1)
  {
    forall b | b in Blocks(cs)
      ensures !(b.0 <= 4 * cs[i].w < b.1) && !(b.0 <= 4 * (cs[i].w + 1) < b.1)
    {
      var j := BlockAt(cs, b);
      if i < j { Apart(cs, words, i, j); }
      if i > j + 1 { Apart(cs, words, j + 1, i); }
    }
  }

  /** Every word of every payload in use is what it was. */
  ghost predicate PayloadsKept(mem: seq<u32>, mem': seq<u32>, cs: seq<Chunk>) {
    |mem'| == |mem| && forall i, k :: 0 <= i < |cs| - 1 && cs[i].w + 2 <= k < cs[i + 1].w && k < |mem| && !cs[i].free ==>
      mem'[k] == mem[k]
  }

  lemma Layout(words: nat, ptr: u32, size: u32)
    requires words <= M32 / 4 && 0 < ptr && ptr + size < M32 && ptr + size <= 4 * words && size >= HEADER
    requires Rounded(ptr) + HEADER <= AlignFloor(ptr + size - HEADER)
    ensures AlignCeil(ptr) == Rounded(ptr)
    ensures var h, t := AlignCeil(ptr), AlignFloor(ptr + size - HEADER);
            && h % 4 == 0 && t % 4 == 0 && 0 < h && h / 4 + 2 <= t / 4 && t / 4 + 2 <= words
  {}

  lemma Initial(mem: seq<u32>, mem': seq<u32>, h: nat, t: nat)
    requires 0 < h && h + 2 <= t && t + 2 <= |mem| <= M32 / 4
    requires var m1 := mem[h := 0][h + 1 := 0][t := 0][t + 1 := 0];
             var m2 := m1[h := SetPtr(m1[h], 4 * t)];
             var m3 := m2[t + 1 := SetPtr(m1[t + 1], 4 * h)];
             mem' == m3[h := SetFree(m3[h], true)]
    ensures ListOk([Chunk(h, true), Chunk(t, false)], |mem'|) && Linked(mem', [Chunk(h, true), Chunk(t, false)])
  {
    var cs := [Chunk(h, true), Chunk(t, false)];
    assert HeaderAt(mem', cs, 0) && HeaderAt(mem', cs, 1);
  }
}
