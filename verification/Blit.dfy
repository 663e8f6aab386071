/** Moving and filling pixels in wide stores, against what memmove and the narrow fill leave. */
module Blit {

  type Bytes = seq<int>

  /** Memory with some bytes of it replaced. */
  function Put(mem: Bytes, at: nat, bytes: Bytes): (r: Bytes)
    requires at + |bytes| <= |mem|
    ensures |r| == |mem|
  {
    mem[..at] + bytes + mem[at + |bytes|..]
  }

  /** Those bytes there, and the rest as it was. */
  ghost predicate IsPut(mem: Bytes, at: nat, bytes: Bytes, now: Bytes) {
    |now| == |mem| && forall k | 0 <= k < |mem| :: now[k] == if at <= k < at + |bytes| then bytes[k - at] else mem[k]
  }

  lemma {:induction false} PutIsPut(mem: Bytes, at: nat, bytes: Bytes, now: Bytes)
    requires at + |bytes| <= |mem|
    ensures IsPut(mem, at, bytes, now) <==> now == Put(mem, at, bytes)
  {
    var r := Put(mem, at, bytes);
    assert IsPut(mem, at, bytes, r);
    if IsPut(mem, at, bytes, now) {
      assert forall k | 0 <= k < |mem| :: now[k] == r[k];
    }
  }

  method Store(mem: array<int>, at: nat, bytes: Bytes)
    requires at + |bytes| <= mem.Length
    modifies mem
    ensures mem[..] == Put(old(mem[..]), at, bytes)
  {
    ghost var before := mem[..];
    for k := 0 to |bytes|
      invariant forall j | 0 <= j < mem.Length :: mem[j] == if at <= j < at + k then bytes[j - at] else before[j]
    {
      mem[at + k] := bytes[k];
    }
    PutIsPut(before, at, bytes, mem[..]);
  }

  // -- moves

  /** memmove: the bytes as they were before, wherever they overlap. */
  function MemMove(mem: Bytes, dst: nat, src: nat, length: nat): Bytes
    requires dst + length <= |mem| && src + length <= |mem|
  {
    Put(mem, dst, mem[src..src + length])
  }

  /** The bytes from i on moved. */
  ghost predicate MovedFrom(mem: Bytes, now: Bytes, dst: nat, src: nat, i: nat, length: nat) {
    && i <= length && dst + length <= |mem| && src + length <= |mem|
    && now == Put(mem, dst + i, mem[src + i..src + length])
  }

  /** One block loaded whole and stored. */
  function BlockMoved(mem: Bytes, dst: nat, src: nat): Bytes
    requires dst + 64 <= |mem| && src + 64 <= |mem|
  {
    Put(mem, dst, mem[src..src + 64])
  }

  /** The next block down may be moved too: it was not overwritten yet. */
  lemma {:induction false} OneBlockDown(mem: Bytes, now: Bytes, dst: nat, src: nat, i: nat, length: nat)
    requires src <= dst && MovedFrom(mem, now, dst, src, i + 64, length)
    ensures MovedFrom(mem, BlockMoved(now, dst + i, src + i), dst, src, i, length)
  {
    var moved, block := mem[src + i + 64..src + length], now[src + i..src + i + 64];
    PutIsPut(mem, dst + i + 64, moved, now);
    assert block == mem[src + i..src + i + 64];
    PutBefore(mem, now, dst + i, block, moved);
    assert block + moved == mem[src + i..src + length];
  }

  lemma {:induction false} PutBefore(mem: Bytes, now: Bytes, at: nat, a: Bytes, b: Bytes)
    requires at + |a| + |b| <= |mem| && now == Put(mem, at + |a|, b)
    ensures Put(now, at, a) == Put(mem, at, a + b)
  {
  }

  method MoveBlock(mem: array<int>, dst: nat, src: nat)
    requires dst + 64 <= mem.Length && src + 64 <= mem.Length
    modifies mem
    ensures mem[..] == BlockMoved(old(mem[..]), dst, src)
  {
    var block := mem[..][src..src + 64];
    Store(mem, dst, block);
  }

  lemma {:induction false} LeftOver(length: nat, i: nat, blocks: nat)
    requires i < 64 && i + 64 * blocks == length
    ensures i == length % 64
  {
  }

  /** Whole blocks, from the top down: what is left below a whole block stays where it was. */
  method NeonMoveUp(mem: array<int>, dst: nat, src: nat, length: nat)
    requires src <= dst && dst + length <= mem.Length
    modifies mem
    ensures MovedFrom(old(mem[..]), mem[..], dst, src, length % 64, length)
  {
    ghost var before, blocks := mem[..], 0;
    var i := length;
    while i >= 64
      invariant 0 <= i && i + 64 * blocks == length
      invariant MovedFrom(before, mem[..], dst, src, i, length)
    {
      i, blocks := i - 64, blocks + 1;
      MoveDown(mem, before, dst, src, i, length);
    }
    LeftOver(length, i, blocks);
  }

  method MoveDown(mem: array<int>, ghost before: Bytes, dst: nat, src: nat, i: nat, ghost length: nat)
    requires src <= dst && MovedFrom(before, mem[..], dst, src, i + 64, length)
    modifies mem
    ensures MovedFrom(before, mem[..], dst, src, i, length)
  {
    OneBlockDown(before, mem[..], dst, src, i, length);
    MoveBlock(mem, dst + i, src + i);
  }

  /** That is memmove exactly when nothing is left below a whole block, or what is left is
      there already: always, for a length of whole blocks. */
  lemma {:induction false} MoveUpIsMemMove(mem: Bytes, now: Bytes, dst: nat, src: nat, rest: nat, length: nat)
    requires src <= dst && MovedFrom(mem, now, dst, src, rest, length)
    ensures now == MemMove(mem, dst, src, length) <==> mem[src..src + rest] == mem[dst..dst + rest]
  {
    var all := MemMove(mem, dst, src, length);
    PutIsPut(mem, dst, mem[src..src + length], all);
    PutIsPut(mem, dst + rest, mem[src + rest..src + length], now);
    assert now[dst..dst + rest] == mem[dst..dst + rest];
    assert mem[src..src + length][..rest] == mem[src..src + rest];
    assert all[dst..dst + rest] == mem[src..src + length][..rest];
    if mem[src..src + rest] == mem[dst..dst + rest] {
      SameBelow(now, all, dst, rest);
    }
  }

  lemma {:induction false} SameBelow(now: Bytes, all: Bytes, dst: nat, rest: nat)
    requires |now| == |all| && dst + rest <= |now| && now[dst..dst + rest] == all[dst..dst + rest]
    requires forall k | 0 <= k < |now| && !(dst <= k < dst + rest) :: now[k] == all[k]
    ensures now == all
  {
    forall k | 0 <= k < |now|
      ensures now[k] == all[k]
    {
      if dst <= k < dst + rest {
        assert now[dst..dst + rest][k - dst] == all[dst..dst + rest][k - dst];
      }
    }
  }

  // -- fills

  /** A colour's bytes, the lowest first. */
  function Pixel(color: int): (p: Bytes)
    ensures |p| == 4
  {
    [color % 0x100, color / 0x100 % 0x100, color / 0x10000 % 0x100, color / 0x1000000 % 0x100]
  }

  /** Bytes, that weigh 256 times as much as the one before. */
  lemma {:induction false} LowestFirst(color: int)
    requires 0 <= color < 0x1_0000_0000
    ensures var p := Pixel(color);
      && (forall k | 0 <= k < 4 :: 0 <= p[k] < 256)
      && p[0] + 256 * (p[1] + 256 * (p[2] + 256 * p[3])) == color
  {
    var a := color / 256;
    var b := a / 256;
    assert color / 0x10000 == b && color / 0x1000000 == b / 256;
  }

  /** The bytes of a 64-bit store. */
  function Word(n: int): (w: Bytes)
    ensures |w| == 8
  {
    Pixel(n % 0x1_0000_0000) + Pixel(n / 0x1_0000_0000)
  }

  /** A colour above itself is two pixels of it. */
  lemma {:induction false} WordIsTwoPixels(color: int)
    requires 0 <= color < 0x1_0000_0000
    ensures Word(color * 0x1_0000_0000 + color) == Pixels(color, 2)
  {
    HighAndLow(color, color);
    FewPixels(color);
  }

  lemma {:induction false} HighAndLow(high: int, low: int)
    requires 0 <= low < 0x1_0000_0000
    ensures (high * 0x1_0000_0000 + low) / 0x1_0000_0000 == high && (high * 0x1_0000_0000 + low) % 0x1_0000_0000 == low
  {
  }

  function Pixels(color: int, n: nat): (p: Bytes)
    ensures |p| == 4 * n
  {
    if n == 0 then [] else Pixels(color, n - 1) + Pixel(color)
  }

  lemma {:induction false} PixelsJoin(color: int, n: nat, m: nat)
    ensures Pixels(color, n) + Pixels(color, m) == Pixels(color, n + m)
  {
    if m > 0 {
      PixelsJoin(color, n, m - 1);
      assert Pixels(color, n) + (Pixels(color, m - 1) + Pixel(color))
        == Pixels(color, n) + Pixels(color, m - 1) + Pixel(color);
    }
  }

  /** One store after another is one store of both. */
  lemma {:induction false} PutJoins(mem: Bytes, at: nat, a: Bytes, b: Bytes)
    requires at + |a| + |b| <= |mem|
    ensures Put(Put(mem, at, a), at + |a|, b) == Put(mem, at, a + b)
  {
  }

  /** How many pixels a fill of so many bytes sets: two for every eight, and one for four that are
      left; none when the count is negative. */
  function Filled(numBytes: int): (n: nat)
  {
    if numBytes >= 8 then 2 + Filled(numBytes - 8) else if numBytes == 4 then 1 else 0
  }

  lemma {:induction false} FilledSkips(numBytes: int, k: nat)
    requires numBytes >= 8 * k
    ensures Filled(numBytes) == 2 * k + Filled(numBytes - 8 * k)
  {
    if k > 0 {
      FilledSkips(numBytes - 8, k - 1);
    }
  }

  /** Never more than it was asked to, and all of it exactly when it was asked for whole pixels;
      a count whose last part of eight is 5, 6 or 7 loses a whole pixel. */
  lemma {:induction false} FillsWholePixels(numBytes: int)
    ensures Filled(numBytes) > 0 ==> 4 * Filled(numBytes) <= numBytes
    ensures 4 * Filled(numBytes) == numBytes <==> numBytes >= 0 && numBytes % 4 == 0
    ensures numBytes >= 0 ==> 4 * Filled(numBytes) == numBytes - (if numBytes % 8 == 4 then 0 else numBytes % 8)
    decreases if numBytes < 0 then 0 else numBytes
  {
    if numBytes >= 8 {
      FillsWholePixels(numBytes - 8);
    }
  }

  ghost predicate Fills(before: Bytes, now: Bytes, dst: nat, color: int, n: nat) {
    dst + 4 * n <= |before| && now == Put(before, dst, Pixels(color, n))
  }

  /** Some pixels set after others that were. */
  lemma {:induction false} FillsOn(before: Bytes, middle: Bytes, now: Bytes, dst: nat, color: int, n: nat, m: nat)
    requires Fills(before, middle, dst, color, n) && Fills(middle, now, dst + 4 * n, color, m)
    ensures Fills(before, now, dst, color, n + m)
  {
    PutJoins(before, dst, Pixels(color, n), Pixels(color, m));
    PixelsJoin(color, n, m);
  }

  lemma {:induction false} FewPixels(color: int)
    ensures Pixels(color, 0) == [] && Pixels(color, 1) == Pixel(color)
    ensures Pixels(color, 2) == Pixel(color) + Pixel(color)
    ensures Pixels(color, 4) == Pixel(color) + Pixel(color) + Pixel(color) + Pixel(color)
  {
    assert [] + Pixel(color) == Pixel(color);
    assert Pixels(color, 3) == Pixels(color, 2) + Pixel(color);
  }

  lemma {:induction false} NothingFilled(mem: Bytes, dst: nat, color: int)
    requires dst <= |mem|
    ensures Fills(mem, mem, dst, color, 0)
  {
  }

  method StoreTwo(mem: array<int>, at: nat, color: int)
    requires 0 <= color < 0x1_0000_0000 && at + 8 <= mem.Length
    modifies mem
    ensures Fills(old(mem[..]), mem[..], at, color, 2)
  {
    var s64 := color * 0x1_0000_0000 + color;
    WordIsTwoPixels(color);
    var bytes := Word(s64);
    Store(mem, at, bytes);
  }

  method StoreOne(mem: array<int>, at: nat, color: int)
    requires at + 4 <= mem.Length
    modifies mem
    ensures Fills(old(mem[..]), mem[..], at, color, 1)
  {
    FewPixels(color);
    Store(mem, at, Pixel(color));
  }

  /** Some are set, and what is left still fits. */
  ghost predicate Filling(before: Bytes, now: Bytes, dst: nat, color: int, n: nat, numBytes: int, left: int) {
    && n + Filled(left) == Filled(numBytes) && dst + 4 * Filled(numBytes) <= |before|
    && Fills(before, now, dst, color, n)
  }

  lemma {:induction false} FillingOn(before: Bytes, middle: Bytes, now: Bytes, dst: nat, color: int, n: nat,
                                     numBytes: int, left: int, eights: nat)
    requires left >= 8 * eights && Filling(before, middle, dst, color, n, numBytes, left)
    requires Fills(middle, now, dst + 4 * n, color, 2 * eights)
    ensures Filling(before, now, dst, color, n + 2 * eights, numBytes, left - 8 * eights)
  {
    FilledSkips(left, eights);
    FillsOn(before, middle, now, dst, color, n, 2 * eights);
  }

  lemma {:induction false} RoomFor(before: Bytes, now: Bytes, dst: nat, color: int, n: nat, numBytes: int, left: int,
                                   eights: nat)
    requires left >= 8 * eights && Filling(before, now, dst, color, n, numBytes, left)
    ensures dst + 4 * n + 8 * eights <= |now| == |before|
  {
    FilledSkips(left, eights);
  }

  /** Eight bytes a store, and four at the end. */
  method GfxSet32(mem: array<int>, dst: nat, color: int, numBytes: int)
    requires 0 <= color < 0x1_0000_0000 && dst + 4 * Filled(numBytes) <= mem.Length
    modifies mem
    ensures Fills(old(mem[..]), mem[..], dst, color, Filled(numBytes))
  {
    ghost var before, now, n := mem[..], mem[..], 0;
    var at, left := dst, numBytes;
    NothingFilled(before, dst, color);
    while left >= 8
      invariant at == dst + 4 * n && mem[..] == now && Filling(before, now, dst, color, n, numBytes, left)
    {
      RoomFor(before, now, dst, color, n, numBytes, left, 1);
      StoreTwo(mem, at, color);
      FillingOn(before, now, mem[..], dst, color, n, numBytes, left, 1);
      now := mem[..];
      left, at, n := left - 8, at + 8, n + 2;
    }
    if left == 4 {
      StoreOne(mem, at, color);
      FillsOn(before, now, mem[..], dst, color, n, 1);
    }
  }

  method StoreFour(mem: array<int>, at: nat, color: int)
    requires at + 16 <= mem.Length
    modifies mem
    ensures Fills(old(mem[..]), mem[..], at, color, 4)
  {
    FewPixels(color);
    var colors := Pixel(color) + Pixel(color) + Pixel(color) + Pixel(color);
    Store(mem, at, colors);
  }

  method StoreEight(mem: array<int>, at: nat, color: int)
    requires at + 32 <= mem.Length
    modifies mem
    ensures Fills(old(mem[..]), mem[..], at, color, 8)
  {
    ghost var before := mem[..];
    StoreFour(mem, at, color);
    ghost var now := mem[..];
    StoreFour(mem, at + 16, color);
    FillsOn(before, now, mem[..], at, color, 4, 4);
  }

  method StoreSixteen(mem: array<int>, at: nat, color: int)
    requires at + 64 <= mem.Length
    modifies mem
    ensures Fills(old(mem[..]), mem[..], at, color, 16)
  {
    ghost var before := mem[..];
    StoreEight(mem, at, color);
    ghost var now := mem[..];
    StoreEight(mem, at + 32, color);
    FillsOn(before, now, mem[..], at, color, 8, 8);
  }

  method FillSixteen(mem: array<int>, ghost before: Bytes, ghost dst: nat, color: int, ghost n: nat,
                     ghost numBytes: int, at: nat, left: int)
    requires at == dst + 4 * n && left >= 64 && Filling(before, mem[..], dst, color, n, numBytes, left)
    modifies mem
    ensures Filling(before, mem[..], dst, color, n + 16, numBytes, left - 64)
  {
    ghost var now := mem[..];
    RoomFor(before, now, dst, color, n, numBytes, left, 8);
    StoreSixteen(mem, at, color);
    FillingOn(before, now, mem[..], dst, color, n, numBytes, left, 8);
  }

  method FillFour(mem: array<int>, ghost before: Bytes, ghost dst: nat, color: int, ghost n: nat, ghost numBytes: int,
                  at: nat, left: int)
    requires at == dst + 4 * n && left >= 16 && Filling(before, mem[..], dst, color, n, numBytes, left)
    modifies mem
    ensures Filling(before, mem[..], dst, color, n + 4, numBytes, left - 16)
  {
    ghost var now := mem[..];
    RoomFor(before, now, dst, color, n, numBytes, left, 2);
    StoreFour(mem, at, color);
    FillingOn(before, now, mem[..], dst, color, n, numBytes, left, 2);
  }

  method FillRest(mem: array<int>, ghost before: Bytes, ghost dst: nat, color: int, ghost n: nat, ghost numBytes: int,
                  at: nat, left: int)
    requires 0 <= color < 0x1_0000_0000
    requires at == dst + 4 * n && Filling(before, mem[..], dst, color, n, numBytes, left)
    modifies mem
    ensures Fills(before, mem[..], dst, color, Filled(numBytes))
  {
    ghost var now := mem[..];
    GfxSet32(mem, at, color, left);
    FillsOn(before, now, mem[..], dst, color, n, Filled(left));
  }

  /** Sixteen bytes a store, 64 a turn, then 16, then the narrow fill: the same memory. */
  method GfxSet32Vector(mem: array<int>, dst: nat, color: int, numBytes: int)
    requires 0 <= color < 0x1_0000_0000 && dst + 4 * Filled(numBytes) <= mem.Length
    modifies mem
    ensures Fills(old(mem[..]), mem[..], dst, color, Filled(numBytes))
  {
    ghost var before, n := mem[..], 0;
    var at, left := dst, numBytes;
    NothingFilled(before, dst, color);
    while left >= 64
      invariant at == dst + 4 * n && Filling(before, mem[..], dst, color, n, numBytes, left)
    {
      FillSixteen(mem, before, dst, color, n, numBytes, at, left);
      left, at, n := left - 64, at + 64, n + 16;
    }
    while left >= 16
      invariant at == dst + 4 * n && Filling(before, mem[..], dst, color, n, numBytes, left)
    {
      FillFour(mem, before, dst, color, n, numBytes, at, left);
      left, at, n := left - 16, at + 16, n + 4;
    }
    FillRest(mem, before, dst, color, n, numBytes, at, left);
  }
}
