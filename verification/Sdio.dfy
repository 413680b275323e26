/** Splitting of chip memory accesses into CMD53 transfers (halow.cpp): 64 KB windows, blocks
    and bytes, nine-bit counts. The bus and the chip are modelled by what a command does; any
    command may fail. */
module Sdio {
  import opened Words
  import opened Arith

  const WINDOW := 0x1_0000
  const MAX_BLOCKS := 128
  const LAST_WINDOW: int := 0xffff_0000

  /** The address ranges that function 2 reaches. */
  predicate IsMemory(a: u32) {
    || 0x0017_0000 <= a < 0x0018_0000 || 0x0010_0000 <= a < 0x0012_0000
    || 0x0012_0000 <= a < 0x0013_0000 || 0x0020_0000 <= a < 0x002a_8000
    || 0x0050_0000 <= a < 0x0052_0000 || 0x0053_8000 <= a < 0x0053_c000
    || 0x0054_0000 <= a < 0x0055_0000 || 0x0055_c000 <= a < 0x0055_e000
  }

  /** Sorted, and with neighbours joined. */
  lemma MemoryRanges(a: u32)
    ensures IsMemory(a) <==>
            || 0x10_0000 <= a < 0x13_0000 || 0x17_0000 <= a < 0x18_0000 || 0x20_0000 <= a < 0x2a_8000
            || 0x50_0000 <= a < 0x52_0000 || 0x53_8000 <= a < 0x53_c000 || 0x54_0000 <= a < 0x55_0000
            || 0x55_c000 <= a < 0x55_e000
  {}

  /** Function 2 moves blocks of 512 bytes, function 1 of 8. */
  lemma BlockSizeIs(memory: bool)
    ensures BlockSize(memory) == 8 + (if memory then 504 else 0)
  {}

  function BlockSize(memory: bool): (b: nat)
    ensures b == 8 || b == 512
  {
    if memory then 512 else 8
  }

  // ----- commands

  /** A CMD53 argument: the count is nine bits wide, the address seventeen. */
  datatype Command = Command(write: bool, memory: bool, blocks: bool, address: nat, count: nat)

  function Encode(c: Command): int {
    (if c.write then 0x8000_0000 else 0) + (if c.memory then 0x2000_0000 else 0x1000_0000)
    + (if c.blocks then 0x0800_0000 else 0) + 0x0400_0000 + c.address * 0x200 + c.count
  }

  function Decode(arg: int): Command {
    Command(arg / 0x8000_0000 % 2 == 1, arg / 0x1000_0000 % 8 == 2, arg / 0x0800_0000 % 2 == 1,
            arg / 0x200 % 0x2_0000, arg % 0x200)
  }

  predicate Encodable(c: Command) {
    c.address < WINDOW && c.count < 0x200
  }

  /** The CMD53 argument of the SDIO specification (section 5.3): direction in bit 31, function
      in bits 30 to 28, block mode in bit 27, incrementing addresses in bit 26, the address in
      bits 25 to 9, the count in bits 8 to 0. */
  lemma ArgumentBits(c: Command)
    requires Encodable(c)
    ensures var arg := Encode(c);
            && arg / 0x8000_0000 == (if c.write then 1 else 0) && arg / 0x1000_0000 % 8 == (if c.memory then 2 else 1)
            && arg / 0x800_0000 % 2 == (if c.blocks then 1 else 0) && arg / 0x400_0000 % 2 == 1
            && arg / 0x200 % 0x2_0000 == c.address && arg % 0x200 == c.count
  {
    var h := (if c.write then 32 else 0) + (if c.memory then 8 else 4) + (if c.blocks then 2 else 0) + 1;
    assert Encode(c) == 0x0400_0000 * h + (0x200 * c.address + c.count);
    Fields(h, c.address, c.count);
    Flags(Encode(c), h);
  }

  /** The fields of the argument do not run into each other. */
  lemma DecodeEncode(c: Command)
    requires Encodable(c)
    ensures Decode(Encode(c)) == c && 0 <= Encode(c) < M32
  {
    var h := (if c.write then 32 else 0) + (if c.memory then 8 else 4) + (if c.blocks then 2 else 0) + 1;
    assert Encode(c) == 0x0400_0000 * h + (0x200 * c.address + c.count);
    Fields(h, c.address, c.count);
    Flags(Encode(c), h);
  }

  lemma Fields(h: nat, a: nat, n: nat)
    requires a < 0x2_0000 && n < 0x200
    ensures var arg := 0x0400_0000 * h + (0x200 * a + n);
            arg % 0x200 == n && arg / 0x200 % 0x2_0000 == a && arg / 0x0400_0000 == h
  {
    var arg := 0x0400_0000 * h + (0x200 * a + n);
    DivModUnique(arg, 0x200, 0x2_0000 * h + a, n);
    DivModUnique(0x2_0000 * h + a, 0x2_0000, h, a);
    DivModUnique(arg, 0x0400_0000, h, 0x200 * a + n);
  }

  lemma Flags(arg: nat, h: nat)
    requires arg / 0x0400_0000 == h
    ensures arg / 0x8000_0000 == h / 32 && arg / 0x1000_0000 == h / 4 && arg / 0x0800_0000 == h / 2
  {}

  function Length(c: Command): nat {
    if c.blocks then c.count * BlockSize(c.memory) else c.count
  }

  // ----- the chip

  /** A CMD53 transfer as the chip sees it: the bytes it is about, from the window in force
      and the decoded argument. */
  datatype Transfer = Transfer(address: int, length: int, command: Command)

  function Issued(window: int, arg: int): Transfer {
    var c := Decode(arg);
    Transfer(window + c.address, Length(c), c)
  }

  /** Memory with the bytes d written from address a on. */
  function Over(mem: int -> u8, a: int, d: seq<u8>, x: int): u8 {
    if a <= x < a + |d| then d[x - a] else mem(x)
  }

  /** The memory is `was` with the bytes d written from address a on. */
  ghost predicate Holds(mem: int -> u8, was: int -> u8, a: int, d: seq<u8>) {
    forall x :: mem(x) == Over(was, a, d, x)
  }

  function Slice(mem: int -> u8, a: int, n: nat): seq<u8> {
    seq(n, i => mem(a + i))
  }

  ghost predicate SameOutside(mem: int -> u8, mem': int -> u8, a: int, n: nat) {
    forall x :: !(a <= x < a + n) ==> mem'(x) == mem(x)
  }

  /** `log` is every CMD53 the chip was ever sent, failed ones included. */
  class Chip {
    var window: int
    var mem: int -> u8
    ghost var log: seq<Transfer>

    /** Points the window at the 64 KB around the address. */
    method SetWindow(address: u32) returns (ok: bool)
      modifies this`window
      ensures ok ==> window == address - address % WINDOW
    {
      ok := *;
      if ok {
        window := address - address % WINDOW;
      }
    }

    /** A write command with its data phase; a failed one may have written a part. */
    method WriteData(arg: int, data: seq<u8>) returns (ok: bool)
      requires Decode(arg).write && Length(Decode(arg)) == |data|
      modifies this`mem, this`log
      ensures log == old(log) + [Issued(window, arg)]
      ensures ok ==> Holds(mem, old(mem), window + Decode(arg).address, data)
      ensures SameOutside(old(mem), mem, window + Decode(arg).address, |data|)
    {
      ok := *;
      var done := *;
      var d := data[..if ok || done < 0 || done > |data| then |data| else done];
      assert ok ==> d == data;
      var a, was := window + Decode(arg).address, mem;
      mem := x => Over(was, a, d, x);
      log := log + [Issued(window, arg)];
    }

    method ReadData(arg: int, n: nat) returns (ok: bool, data: seq<u8>)
      requires !Decode(arg).write && Length(Decode(arg)) == n
      modifies this`log
      ensures log == old(log) + [Issued(window, arg)]
      ensures ok ==> data == Slice(mem, window + Decode(arg).address, n)
    {
      ok := *;
      data := if ok then Slice(mem, window + Decode(arg).address, n) else [];
      log := log + [Issued(window, arg)];
    }
  }

  // ----- splitting

  /** Below the last window a chunk is as long as it may be: the rest, unless the 64 KB window
      or 128 blocks end before. */
  lemma ChunkIs(address: u32, size: u32, memory: bool)
    requires address < 0xffff_0000
    ensures var c, room, most := Chunk(address, size, BlockSize(memory)), 0x1_0000 - address % 0x1_0000, if memory then 65536 else 1024;
            c <= size && c <= room && c <= most && (c == size || c == room || c == most)
  {
    var start, most := address - address % WINDOW, if memory then 65536 else 1024;
    assert start + WINDOW <= LAST_WINDOW && most == BlockSize(memory) * MAX_BLOCKS;
    hide BlockSize;
    Unwrapped(start + WINDOW);
    Unwrapped(most);
    Unwrapped(if size < most then address + size else address + most);
    Unwrapped(start + WINDOW - address);
    hide W;
  }

  lemma Unwrapped(x: int)
    requires 0 <= x < M32
    ensures W(x) == x
  {}

  /** How much of the rest goes into one window and one block command; address arithmetic
      wraps at 32 bits. */
  function Chunk(address: u32, size: u32, block: nat): u32 {
    var most := block * MAX_BLOCKS;
    var chunk := if size < most then size else W(most);
    var boundary := W(address - address % WINDOW + WINDOW);
    if W(address + chunk) > boundary then W(boundary - address) else chunk
  }

  /** Empty ranges, ranges that end below the last window, and ranges that end with the
      address space and leave little enough for one block command and a byte command in the
      last window. */
  predicate Reachable(address: u32, size: int, block: nat) {
    || size == 0 || address + size <= LAST_WINDOW
    || (address + size == M32 && M32 - (if address < LAST_WINDOW then LAST_WINDOW else address) < block * (MAX_BLOCKS + 1))
  }

  /** A chunk that can be transferred: not more than the rest, inside the window, and at most
      128 blocks. */
  predicate Fits(address: u32, size: int, block: nat, chunk: int) {
    0 < chunk <= size && address % WINDOW + chunk <= WINDOW && chunk < block * (MAX_BLOCKS + 1)
  }

  /** A reachable range gives a chunk that can be transferred, and leaves a reachable rest. */
  lemma ChunkFits(address: u32, size: u32, block: nat)
    requires block == 8 || block == 512
    requires size > 0 && Reachable(address, size, block)
    ensures var c := Chunk(address, size, block);
            && Fits(address, size, block, c)
            && address + c <= M32 && (c < size ==> Reachable(address + c, size - c, block))
  {
    if address < LAST_WINDOW {
      ChunkBelow(address, size, block);
      RestReachable(address, size, block, Chunk(address, size, block));
    } else {
      ChunkAtTop(address, size, block);
    }
  }

  lemma ChunkBelow(address: u32, size: u32, block: nat)
    requires (block == 8 || block == 512) && size > 0 && address < LAST_WINDOW
    ensures var c, room := Chunk(address, size, block), WINDOW - address % WINDOW;
            && 0 < c <= size && c <= room && c <= block * MAX_BLOCKS && address + room <= LAST_WINDOW
  {
    var start := address - address % WINDOW;
    assert start + WINDOW <= LAST_WINDOW;
    assert W(start + WINDOW) == start + WINDOW;
  }

  /** Up to the last window a range is reachable exactly when what a chunk leaves of it is. */
  lemma RestReachable(address: u32, size: u32, block: nat, c: nat)
    requires 0 < c <= size && address + c <= LAST_WINDOW
    ensures Reachable(address, size, block) <==> Reachable(address + c, size - c, block)
  {}

  /** In the last window the chunk runs past the end, or takes more blocks than one command
      can, exactly when the range is not reachable; otherwise it is all of the range. */
  lemma ChunkAtTop(address: u32, size: u32, block: nat)
    requires (block == 8 || block == 512) && size > 0 && address + size <= M32 && address >= LAST_WINDOW
    ensures Fits(address, size, block, Chunk(address, size, block)) <==> Reachable(address, size, block)
    ensures Reachable(address, size, block) ==> Chunk(address, size, block) == size
  {}

  /** A range that runs past the end of the address space is taken to the end. */
  lemma ChunkPastTop(address: u32, size: u32, block: nat)
    requires (block == 8 || block == 512) && size > 0 && address + size > M32 && address >= LAST_WINDOW
    ensures Chunk(address, size, block) == M32 - address && !Reachable(address, size, block)
  {}

  /** What a chunk that can be transferred leaves, and when it leaves nothing, wherever the
      range ends. */
  lemma Onward(address: u32, size: u32, block: nat)
    requires (block == 8 || block == 512) && size > 0
    requires Fits(address, size, block, Chunk(address, size, block))
    ensures var c := Chunk(address, size, block);
            && address + c <= M32
            && (c == size ==> Reachable(address, size, block))
            && (c < size && address + c == M32 ==> !Reachable(address, size, block))
            && (c < size && address + c < M32 ==>
                  (Reachable(address, size, block) <==> Reachable(address + c, size - c, block)))
  {
    if address < LAST_WINDOW {
      ChunkBelow(address, size, block);
      RestReachable(address, size, block, Chunk(address, size, block));
    } else if address + size <= M32 {
      ChunkAtTop(address, size, block);
    } else {
      ChunkPastTop(address, size, block);
    }
  }

  /** Every chunk that the loop takes of the range can be transferred. */
  ghost predicate AllFit(address: u32, size: u32, block: nat)
    requires address + size <= M32
    decreases size
  {
    size == 0
    || (var c := Chunk(address, size, block);
        Fits(address, size, block, c) && (c < size ==> AllFit(address + c, size - c, block)))
  }

  /** The loop's chunks can all be transferred exactly for the reachable ranges. */
  lemma {:induction false} AllFitIff(address: u32, size: u32, block: nat)
    requires (block == 8 || block == 512) && address + size <= M32
    ensures AllFit(address, size, block) <==> Reachable(address, size, block)
    decreases size
  {
    if size > 0 {
      hide Chunk, Reachable;
      var c := Chunk(address, size, block);
      if address >= LAST_WINDOW {
        ChunkAtTop(address, size, block);
      } else {
        ChunkBelow(address, size, block);
        RestReachable(address, size, block, c);
        if c < size {
          AllFitIff(address + c, size - c, block);
        } else {
          NothingLeft(address, size, block);
        }
      }
    } else {
      NothingLeft(address, size, block);
    }
  }

  lemma NothingLeft(address: u32, size: u32, block: nat)
    requires size == 0 || address + size <= LAST_WINDOW
    ensures Reachable(address, size, block)
  {}

  /** Direction and function of a command. */
  datatype Kind = Kind(write: bool, memory: bool)

  /** The transfer is of the kind, not empty and inside one window, and its command says what
      it does in at most 128 blocks and nine bits of count. */
  predicate Legal(t: Transfer, k: Kind) {
    && t.command.write == k.write && t.command.memory == k.memory
    && t.length > 0 && t.address % WINDOW + t.length <= WINDOW
    && t.command.address == t.address % WINDOW && t.length == Length(t.command)
    && t.command.count < 0x200 && (t.command.blocks ==> t.command.count <= MAX_BLOCKS)
  }

  /** Inside 64 KB, and at most 128 blocks of the function's size or 511 bytes. */
  lemma LegalIs(t: Transfer, k: Kind)
    requires Legal(t, k)
    ensures 1 <= t.length && t.address / 0x1_0000 == (t.address + t.length - 1) / 0x1_0000
    ensures var block := if k.memory then 512 else 8;
            if t.command.blocks then t.length == block * t.command.count && t.command.count <= 128
            else t.length == t.command.count <= 511
  {}

  /** Transfers of the kind that cover the n bytes from a on, each exactly once and in order. */
  ghost predicate Tiles(ts: seq<Transfer>, k: Kind, a: int, n: int) {
    if ts == [] then n == 0
    else
      var t := ts[|ts| - 1];
      Legal(t, k) && t.address + t.length == a + n && Tiles(ts[..|ts| - 1], k, a, n - t.length)
  }

  predicate Covers(t: Transfer, x: int) { t.address <= x < t.address + t.length }

  /** In a tiling a byte is transferred at all exactly if it is in the range, and then by one
      transfer only; later transfers are at higher addresses. */
  lemma {:induction false} TilesCover(ts: seq<Transfer>, k: Kind, a: int, n: int, x: int)
    requires Tiles(ts, k, a, n)
    ensures n >= 0 && forall i :: 0 <= i < |ts| ==> Legal(ts[i], k) && a <= ts[i].address && ts[i].address + ts[i].length <= a + n
    ensures a <= x < a + n <==> exists i :: 0 <= i < |ts| && Covers(ts[i], x)
    ensures forall i, j :: 0 <= i < j < |ts| ==> ts[i].address + ts[i].length <= ts[j].address
  {
    hide Legal;
    if ts != [] {
      var last := |ts| - 1;
      var t := ts[last];
      TilesCover(ts[..last], k, a, n - t.length, x);
      LegalLength(t, k);
      assert forall i :: 0 <= i < last ==> ts[..last][i] == ts[i];
      if a <= x < a + n - t.length {
        var i :| 0 <= i < last && Covers(ts[..last][i], x);
        assert Covers(ts[i], x);
      } else if a <= x < a + n {
        assert Covers(ts[last], x);
      }
    }
  }

  lemma LegalLength(t: Transfer, k: Kind)
    requires Legal(t, k)
    ensures t.length > 0
  {}

  lemma TilesNext(ts: seq<Transfer>, k: Kind, a: int, n: int, t: Transfer)
    requires Tiles(ts, k, a, n) && Legal(t, k) && t.address == a + n
    ensures Tiles(ts + [t], k, a, n + t.length)
  {
    assert (ts + [t])[..|ts|] == ts;
  }

  lemma OverNext(mem: int -> u8, was: int -> u8, a: int, d: seq<u8>, e: seq<u8>, now: int -> u8)
    requires Holds(mem, was, a, d) && Holds(now, mem, a + |d|, e)
    ensures Holds(now, was, a, d + e)
  {
    forall x
      ensures now(x) == Over(was, a, d + e, x)
    {
      assert mem(x) == Over(was, a, d, x);
      assert now(x) == Over(mem, a + |d|, e, x);
    }
  }

  /** One write command. */
  method WriteTransfer(chip: Chip, memory: bool, blocks: bool, address: u32, count: nat, data: seq<u8>)
    returns (ok: bool, ghost t: Transfer)
    requires address % WINDOW + |data| <= WINDOW && |data| > 0 && chip.window == address - address % WINDOW
    requires count < 0x200 && |data| == (if blocks then count * BlockSize(memory) else count) && (blocks ==> count <= MAX_BLOCKS)
    modifies chip`mem, chip`log
    ensures Legal(t, Kind(true, memory)) && t.address == address && t.length == |data| && chip.log == old(chip.log) + [t]
    ensures ok ==> Holds(chip.mem, old(chip.mem), address, data)
    ensures SameOutside(old(chip.mem), chip.mem, address, |data|)
  {
    hide Encode, Decode;
    var c := Command(true, memory, blocks, address % WINDOW, count);
    DecodeEncode(c);
    t := Transfer(address, |data|, c);
    ok := chip.WriteData(Encode(c), data);
  }

  /** Whole blocks first, then the bytes that are left. */
  method WriteChunk(chip: Chip, memory: bool, address: u32, data: seq<u8>)
    returns (ok: bool, ghost ts: seq<Transfer>, ghost n: nat)
    requires Fits(address, |data|, BlockSize(memory), |data|) && chip.window == address - address % WINDOW
    requires address + |data| <= M32
    modifies chip`mem, chip`log
    ensures n <= |data| && Tiles(ts, Kind(true, memory), address, n) && (ok ==> n == |data|)
    ensures chip.log == old(chip.log) + ts
    ensures ok ==> Holds(chip.mem, old(chip.mem), address, data)
    ensures SameOutside(old(chip.mem), chip.mem, address, |data|)
  {
    hide IsMemory, W, Chunk, Holds, Legal, BlockSize, Tiles, SameOutside;
    ghost var kind := Kind(true, memory);
    BlockSizes(memory);
    NoTiles(kind, address);
    var block := BlockSize(memory);
    var blocks := |data| / block;
    var len := blocks * block;
    Blocks(|data|, block);
    ts, n := [], 0;
    ghost var was := chip.mem;
    OverNothing(was, address);
    SameHere(was, address, |data|);
    ghost var t;
    if blocks > 0 {
      ok, t := WriteTransfer(chip, memory, true, address, blocks, data[..len]);
      TilesNext(ts, kind, address, n, t);
      Inside(was, was, chip.mem, address, |data|, 0, len);
      ts, n := ts + [t], len;
      if !ok {
        return;
      }
    }
    ghost var mid := chip.mem;
    ghost var us, k;
    ok, us, k := WriteRest(chip, memory, address, len, data[len..]);
    TilesConcat(ts, kind, address, n, us, k);
    Inside(was, mid, chip.mem, address, |data|, len, |data| - len);
    ts, n := ts + us, len + k;
    if ok {
      OverNext(mid, was, address, data[..len], data[len..], chip.mem);
      assert data[..len] + data[len..] == data;
    }
  }

  /** The bytes behind the blocks, if any. */
  method WriteRest(chip: Chip, memory: bool, address: u32, len: nat, data: seq<u8>)
    returns (ok: bool, ghost ts: seq<Transfer>, ghost n: nat)
    requires address as int + len + |data| <= M32 && address % WINDOW + len + |data| <= WINDOW && |data| < 0x200
    requires chip.window == address - address % WINDOW
    modifies chip`mem, chip`log
    ensures n <= |data| && Tiles(ts, Kind(true, memory), address + len, n) && (ok ==> n == |data|)
    ensures chip.log == old(chip.log) + ts
    ensures ok ==> Holds(chip.mem, old(chip.mem), address + len, data)
    ensures SameOutside(old(chip.mem), chip.mem, address + len, |data|)
  {
    hide IsMemory, W, Chunk, Holds, Legal, BlockSize, Tiles, SameOutside;
    ghost var kind := Kind(true, memory);
    NoTiles(kind, address + len);
    ts, n, ok := [], 0, true;
    if |data| > 0 {
      ghost var t;
      WindowOf(address, len);
      ok, t := WriteTransfer(chip, memory, false, address + len, |data|, data);
      TilesNext([], kind, address + len, 0, t);
      ts, n := [] + [t], |data|;
    } else {
      OverNothing(chip.mem, address + len);
      SameHere(chip.mem, address + len, 0);
    }
  }

  lemma WindowOf(address: u32, len: nat)
    requires address % WINDOW + len < WINDOW && address as int + len < M32
    ensures var a := address as int + len;
            a % WINDOW == address % WINDOW + len && a - a % WINDOW == address - address % WINDOW
  {}

  lemma SameHere(mem: int -> u8, a: int, n: nat)
    ensures SameOutside(mem, mem, a, n)
  {}

  lemma OverNothing(mem: int -> u8, a: int)
    ensures Holds(mem, mem, a, [])
  {}

  lemma Blocks(n: nat, block: nat)
    requires block == 8 || block == 512
    requires n < block * (MAX_BLOCKS + 1)
    ensures var k := n / block; k <= MAX_BLOCKS && k * block <= n < k * block + block && n - k * block < 0x200
  {}

  /** How an access ends: done, a command failed, or the next chunk is not one command's or
      lies past the end of the address space. There the model stops. */
  datatype Result = Done | Failed | Overrun

  /** Writes a range of chip memory. On success it holds the data; whatever happens, the
      commands the chip was sent tile a beginning of the range and nothing outside it changes.
      Reachable ranges never end in an overrun, and no others are ever done. */
  method WriteMulti(chip: Chip, address: u32, data: seq<u8>) returns (r: Result, ghost ts: seq<Transfer>, ghost n: nat)
    requires |data| < M32
    modifies chip
    ensures n <= |data| && Tiles(ts, Kind(true, IsMemory(address)), address, n) && (r.Done? ==> n == |data|)
    ensures chip.log == old(chip.log) + ts
    ensures var reachable := Reachable(address, |data|, BlockSize(IsMemory(address)));
            (r.Overrun? ==> !reachable) && (r.Done? ==> reachable)
    ensures r.Done? ==> Holds(chip.mem, old(chip.mem), address, data)
    ensures SameOutside(old(chip.mem), chip.mem, address, |data|)
  {
    hide IsMemory, Chunk, Holds, Tiles, BlockSize, Reachable, SameOutside, OnTheWay, W;
    SameHere(chip.mem, address, |data|);
    var memory := IsMemory(address);
    var block := BlockSize(memory);
    var at: u32, rest := address, data;
    ts, n := [], 0;
    ghost var was := chip.mem;
    OverNothing(was, address);
    ghost var kind := Kind(true, memory);
    NoTiles(kind, address);
    SetOut(address, |data|, block);
    while |rest| > 0
      invariant n <= |data| && rest == data[n..] && Tiles(ts, kind, address, n) && chip.log == old(chip.log) + ts
      invariant OnTheWay(address, |data|, block, at, n)
      invariant Holds(chip.mem, was, address, data[..n])
      invariant SameOutside(was, chip.mem, address, |data|)
      decreases |rest|
    {
      var ok := chip.SetWindow(at);
      if !ok {
        r := Failed;
        return;
      }
      BlockSizes(memory);
      var chunk := Chunk(at, |rest|, block);
      StepOn(address, |data|, block, at, n);
      if at < address || !Fits(at, |rest|, block, chunk) {
        r := Overrun;
        return;
      }
      ghost var mid := chip.mem;
      ghost var us, k;
      ok, us, k := WriteChunk(chip, memory, at, rest[..chunk]);
      TilesConcat(ts, kind, address, n, us, k);
      Inside(was, mid, chip.mem, address, |data|, n, chunk);
      ts := ts + us;
      if !ok {
        r, n := Failed, n + k;
        return;
      }
      OverNext(mid, was, address, data[..n], rest[..chunk], chip.mem);
      assert data[..n] + rest[..chunk] == data[..n + chunk];
      n := n + chunk;
      at := W(at as int + chunk);
      rest := rest[chunk..];
    }
    r := Done;
    AllTheWay(address, |data|, block, at);
    assert data[..n] == data;
  }

  /** After n bytes of a range the loop is at the address n further on, wrapped, and unless it
      wrapped the rest is reachable exactly when the range is. */
  ghost predicate OnTheWay(address: u32, size: u32, block: nat, at: u32, n: int) {
    && 0 <= n <= size
    && (n < size ==> at == W(address as int + n)
                     && (Reachable(address, size, block) <==> address as int + n < M32 && Reachable(at, size - n, block)))
    && (n == size ==> Reachable(address, size, block))
  }

  lemma SetOut(address: u32, size: u32, block: nat)
    ensures OnTheWay(address, size, block, address, 0)
  {}

  lemma AllTheWay(address: u32, size: u32, block: nat, at: u32)
    requires OnTheWay(address, size, block, at, size)
    ensures Reachable(address, size, block)
  {}

  lemma StepOn(address: u32, size: u32, block: nat, at: u32, n: int)
    requires (block == 8 || block == 512) && n < size && OnTheWay(address, size, block, at, n)
    ensures var c := Chunk(at, size - n, block);
            if at < address || !Fits(at, size - n, block, c) then !Reachable(address, size, block)
            else at == address + n && at + c <= M32 && OnTheWay(address, size, block, W(at as int + c), n + c)
  {
    hide Chunk, Reachable;
    if Reachable(at, size - n, block) {
      ChunkFits(at, size - n, block);
    }
    if Fits(at, size - n, block, Chunk(at, size - n, block)) {
      Onward(at, size - n, block);
    }
  }

  lemma BlockSizes(memory: bool)
    ensures BlockSize(memory) == 8 || BlockSize(memory) == 512
  {}

  lemma NoTiles(k: Kind, a: int)
    ensures Tiles([], k, a, 0)
  {}

  lemma {:induction false} TilesConcat(ts: seq<Transfer>, kind: Kind, a: int, n: int, us: seq<Transfer>, k: int)
    requires Tiles(ts, kind, a, n) && Tiles(us, kind, a + n, k)
    ensures Tiles(ts + us, kind, a, n + k)
  {
    if us == [] {
      assert ts + us == ts;
    } else {
      var t := us[|us| - 1];
      TilesConcat(ts, kind, a, n, us[..|us| - 1], k - t.length);
      assert (ts + us)[..|ts + us| - 1] == ts + us[..|us| - 1];
    }
  }

  lemma Inside(was: int -> u8, mid: int -> u8, now: int -> u8, a: int, size: nat, n: nat, chunk: nat)
    requires SameOutside(was, mid, a, size) && SameOutside(mid, now, a + n, chunk) && n + chunk <= size
    ensures SameOutside(was, now, a, size)
  {}

  // ----- reading

  /** One read command. */
  method ReadTransfer(chip: Chip, memory: bool, blocks: bool, address: u32, count: nat, n: nat)
    returns (ok: bool, data: seq<u8>, ghost t: Transfer)
    requires address % WINDOW + n <= WINDOW && n > 0 && chip.window == address - address % WINDOW
    requires count < 0x200 && n == (if blocks then count * BlockSize(memory) else count) && (blocks ==> count <= MAX_BLOCKS)
    modifies chip`log
    ensures Legal(t, Kind(false, memory)) && t.address == address && t.length == n && chip.log == old(chip.log) + [t]
    ensures ok ==> data == Slice(chip.mem, address, n)
  {
    hide Encode, Decode;
    var c := Command(false, memory, blocks, address % WINDOW, count);
    DecodeEncode(c);
    t := Transfer(address, n, c);
    ok, data := chip.ReadData(Encode(c), n);
  }

  /** Whole blocks first, then the bytes that are left. */
  method ReadChunk(chip: Chip, memory: bool, address: u32, size: nat)
    returns (ok: bool, data: seq<u8>, ghost ts: seq<Transfer>, ghost n: nat)
    requires Fits(address, size, BlockSize(memory), size) && chip.window == address - address % WINDOW
    requires address + size <= M32
    modifies chip`log
    ensures n <= size && Tiles(ts, Kind(false, memory), address, n) && chip.log == old(chip.log) + ts
    ensures ok ==> n == size && data == Slice(chip.mem, address, size)
  {
    hide IsMemory, W, Chunk, Legal, BlockSize, Tiles, Slice;
    ghost var kind := Kind(false, memory);
    BlockSizes(memory);
    NoTiles(kind, address);
    SliceConcat(chip.mem, address, 0, size);
    var block := BlockSize(memory);
    var blocks := size / block;
    var len := blocks * block;
    Blocks(size, block);
    ts, n, data := [], 0, [];
    ghost var t;
    if blocks > 0 {
      ok, data, t := ReadTransfer(chip, memory, true, address, blocks, len);
      TilesNext(ts, kind, address, n, t);
      ts, n := ts + [t], len;
      if !ok {
        return;
      }
    }
    var more;
    ghost var us, k;
    ok, more, us, k := ReadRest(chip, memory, address, len, size - len);
    TilesConcat(ts, kind, address, n, us, k);
    SliceConcat(chip.mem, address, len, size - len);
    ts, n, data := ts + us, len + k, data + more;
  }

  /** The bytes behind the blocks, if any. */
  method ReadRest(chip: Chip, memory: bool, address: u32, len: nat, size: nat)
    returns (ok: bool, data: seq<u8>, ghost ts: seq<Transfer>, ghost n: nat)
    requires address as int + len + size <= M32 && address % WINDOW + len + size <= WINDOW && size < 0x200
    requires chip.window == address - address % WINDOW
    modifies chip`log
    ensures n <= size && Tiles(ts, Kind(false, memory), address + len, n) && chip.log == old(chip.log) + ts
    ensures ok ==> n == size && data == Slice(chip.mem, address + len, size)
  {
    hide IsMemory, W, Chunk, Legal, BlockSize, Tiles, Slice;
    ghost var kind := Kind(false, memory);
    NoTiles(kind, address + len);
    SliceConcat(chip.mem, address + len, 0, 0);
    ts, n, ok, data := [], 0, true, [];
    if size > 0 {
      ghost var t;
      WindowOf(address, len);
      ok, data, t := ReadTransfer(chip, memory, false, address + len, size, size);
      TilesNext([], kind, address + len, 0, t);
      ts, n := [] + [t], size;
    }
  }

  lemma SliceConcat(mem: int -> u8, a: int, n: nat, k: nat)
    ensures Slice(mem, a, n) + Slice(mem, a + n, k) == Slice(mem, a, n + k)
    ensures Slice(mem, a, 0) == []
  {}

  /** Reads a range of chip memory: sizes that are no multiple of four are refused. On success
      the data are the bytes of the range. */
  method ReadMulti(chip: Chip, address: u32, size: u32)
    returns (r: Result, data: seq<u8>, ghost ts: seq<Transfer>, ghost n: nat)
    modifies chip`window, chip`log
    ensures size % 4 != 0 ==> r.Failed? && ts == []
    ensures var reachable := Reachable(address, size, BlockSize(IsMemory(address)));
            (r.Overrun? ==> !reachable) && (r.Done? ==> reachable)
    ensures n <= size && Tiles(ts, Kind(false, IsMemory(address)), address, n) && chip.log == old(chip.log) + ts
    ensures r.Done? ==> n == size && data == Slice(chip.mem, address, size)
  {
    hide IsMemory, Chunk, Tiles, BlockSize, Reachable, Slice, OnTheWay, W;
    ts, n, data := [], 0, [];
    ghost var kind := Kind(false, IsMemory(address));
    NoTiles(kind, address);
    if size % 4 != 0 {
      r := Failed;
      return;
    }
    var memory := IsMemory(address);
    var block := BlockSize(memory);
    var at: u32, rest: u32 := address, size;
    SliceConcat(chip.mem, address, 0, 0);
    SetOut(address, size, block);
    while rest > 0
      invariant n + rest == size && Tiles(ts, kind, address, n) && chip.log == old(chip.log) + ts && data == Slice(chip.mem, address, n)
      invariant OnTheWay(address, size, block, at, n)
      decreases rest
    {
      var ok := chip.SetWindow(at);
      if !ok {
        r := Failed;
        return;
      }
      BlockSizes(memory);
      var chunk := Chunk(at, rest, block);
      StepOn(address, size, block, at, n);
      if at < address || !Fits(at, rest, block, chunk) {
        r := Overrun;
        return;
      }
      var more;
      ghost var us, k;
      ok, more, us, k := ReadChunk(chip, memory, at, chunk);
      TilesConcat(ts, kind, address, n, us, k);
      ts := ts + us;
      if !ok {
        r, n := Failed, n + k;
        return;
      }
      SliceConcat(chip.mem, address, n, chunk);
      data := data + more;
      n := n + chunk;
      at := W(at as int + chunk);
      rest := rest - chunk;
    }
    r := Done;
    AllTheWay(address, size, block, at);
  }

  /** What was written is what is read back. */
  lemma ReadBack(mem: int -> u8, was: int -> u8, a: int, d: seq<u8>)
    requires Holds(mem, was, a, d)
    ensures Slice(mem, a, |d|) == d
  {
    forall i | 0 <= i < |d|
      ensures Slice(mem, a, |d|)[i] == d[i]
    {
      assert mem(a + i) == Over(was, a, d, a + i);
    }
  }
}
