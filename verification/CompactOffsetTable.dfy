/**
 The table of debug info offsets by method index: blocks of sixteen, each a mask of
 the entries that are not zero and the differences between those, and an index of
 the blocks.
 */
module CompactOffsetTable {
  import opened Bytes
  import opened Leb128
  import opened ByteStream

  const ELEMENTS_PER_INDEX := 16

  // ---- bits of a mask

  predicate Bit(mask: nat, i: nat) {
    if i == 0 then mask % 2 == 1 else Bit(mask / 2, i - 1)
  }

  /** How many of the n lowest bits are set. */
  function Bits(mask: nat, n: nat): (c: nat) {
    if n == 0 then 0 else mask % 2 + Bits(mask / 2, n - 1)
  }

  function Pow2(n: nat): (p: nat)
    ensures p >= 1
  {
    if n == 0 then 1 else 2 * Pow2(n - 1)
  }

  /** Bit i says whether entry i is not zero. */
  ghost function Mask(block: seq<nat>): (m: nat) {
    if block == [] then 0 else (if block[0] != 0 then 1 else 0) + 2 * Mask(block[1..])
  }

  ghost function NonZero(block: seq<nat>): (c: nat) {
    if block == [] then 0 else (if block[0] != 0 then 1 else 0) + NonZero(block[1..])
  }

  lemma Halves(m: nat, low: nat)
    requires low < 2
    ensures (low + 2 * m) % 2 == low && (low + 2 * m) / 2 == m
  {
  }

  lemma {:induction false} MaskBit(block: seq<nat>, i: nat)
    requires i < |block|
    ensures Bit(Mask(block), i) <==> block[i] != 0
  {
    Halves(Mask(block[1..]), if block[0] != 0 then 1 else 0);
    if i > 0 {
      MaskBit(block[1..], i - 1);
    }
  }

  lemma {:induction false} MaskBits(block: seq<nat>, n: nat)
    requires n <= |block|
    ensures Bits(Mask(block), n) == NonZero(block[..n])
  {
    if n > 0 {
      Halves(Mask(block[1..]), if block[0] != 0 then 1 else 0);
      MaskBits(block[1..], n - 1);
      assert block[..n][1..] == block[1..][..n - 1];
    }
  }

  lemma {:induction false} MaskAppend(block: seq<nat>, x: nat)
    ensures Mask(block + [x]) == Mask(block) + if x != 0 then Pow2(|block|) else 0
    ensures Mask(block) < Pow2(|block|)
  {
    if block != [] {
      MaskAppend(block[1..], x);
      assert (block + [x])[1..] == block[1..] + [x];
    } else {
      assert [x][1..] == [];
    }
  }

  lemma {:induction false} Pow2Grows(a: nat, b: nat)
    requires a <= b
    ensures Pow2(a) <= Pow2(b)
    decreases b - a
  {
    if a < b {
      Pow2Grows(a + 1, b);
    }
  }

  lemma Pow2Values()
    ensures Pow2(16) == 0x1_0000
  {
    assert Pow2(8) == 0x100;
  }

  // ---- differences

  function Wrap(x: int): (r: nat) { x % TWO_TO_THE_32 }

  ghost function Deltas(block: seq<nat>, previous: nat): (bs: seq<byte>) {
    if block == [] then []
    else if block[0] == 0 then Deltas(block[1..], previous)
    else Uleb(Wrap(block[0] - previous)) + Deltas(block[1..], block[0])
  }

  /** The last entry that is not zero. */
  ghost function Last(block: seq<nat>, previous: nat): (o: nat) {
    if block == [] then previous else Last(block[1..], if block[0] == 0 then previous else block[0])
  }

  lemma {:induction false} DeltasAppend(block: seq<nat>, x: nat, previous: nat)
    ensures Deltas(block + [x], previous)
         == Deltas(block, previous) + if x == 0 then [] else Uleb(Wrap(x - Last(block, previous)))
    ensures Last(block + [x], previous) == if x == 0 then Last(block, previous) else x
  {
    hide Uleb, Wrap;
    if block != [] {
      DeltasAppend(block[1..], x, if block[0] == 0 then previous else block[0]);
      assert (block + [x])[1..] == block[1..] + [x];
    } else {
      assert [x][1..] == [];
      assert Deltas([], x) == [];
    }
  }

  /** Adding up so many differences. */
  function ReadSum(bs: seq<byte>, count: nat, current: nat): (r: Option<nat>)
    decreases count
  {
    if count == 0 then Some(current)
    else
      var d :- DecodeUleb(bs);
      ReadSum(bs[d.size..], count - 1, Wrap(current + d.value))
  }

  lemma WrapBack(x: nat, previous: nat)
    requires x < TWO_TO_THE_32 && previous < TWO_TO_THE_32
    ensures Wrap(x - previous) < TWO_TO_THE_32 && Wrap(previous + Wrap(x - previous)) == x
  {
  }

  predicate Small(block: seq<nat>) {
    forall i :: 0 <= i < |block| ==> block[i] < TWO_TO_THE_32
  }

  lemma {:induction false} ReadDelta(x: nat, previous: nat, rest: seq<byte>, count: nat)
    requires x < TWO_TO_THE_32 && previous < TWO_TO_THE_32 && count > 0
    ensures ReadSum(Uleb(Wrap(x - previous)) + rest, count, previous) == ReadSum(rest, count - 1, x)
  {
    hide Uleb, DecodeUleb, Wrap;
    WrapBack(x, previous);
    var u := Uleb(Wrap(x - previous));
    UlebRoundTrip(Wrap(x - previous), rest);
    assert (u + rest)[|u|..] == rest;
  }

  lemma {:induction false} ReadEntry(block: seq<nat>, previous: nat, i: nat, rest: seq<byte>)
    requires Small(block) && previous < TWO_TO_THE_32 && i < |block| && block[i] != 0
    ensures ReadSum(Deltas(block, previous) + rest, NonZero(block[..i + 1]), previous) == Some(block[i])
  {
    hide Uleb, DecodeUleb, Wrap;
    assert block[..i + 1][1..] == block[1..][..i];
    if block[0] != 0 {
      var tail := Deltas(block[1..], block[0]) + rest;
      assert Deltas(block, previous) + rest == Uleb(Wrap(block[0] - previous)) + tail;
      ReadDelta(block[0], previous, tail, NonZero(block[..i + 1]));
      if i > 0 {
        ReadEntry(block[1..], block[0], i - 1, rest);
      } else {
        assert block[1..][..0] == [];
      }
    } else {
      ReadEntry(block[1..], previous, i - 1, rest);
    }
  }

  // ---- a block, and the whole table

  ghost function BlockBytes(block: seq<nat>, base: nat): (bs: seq<byte>)
    requires Mask(block) < 0x1_0000
  {
    [Mask(block) / 256, Mask(block) % 256] + Deltas(block, base)
  }

  /** GetOffset from the start of a block. */
  function ReadBlock(bs: seq<byte>, base: nat, i: nat): (r: Option<nat>) {
    if |bs| < 2 then None
    else
      var mask: nat := (bs[0] as int) * 256 + bs[1];
      if !Bit(mask, i) then Some(0) else ReadSum(bs[2..], Bits(mask, i + 1), base)
  }

  function GetOffset(data: seq<byte>, base: nat, table: nat, index: nat): (r: Option<nat>) {
    var entry := table + 4 * (index / ELEMENTS_PER_INDEX);
    if entry + 4 > |data| then None
    else
      var block := Val(data[entry..entry + 4]);
      if block > |data| then None else ReadBlock(data[block..], base, index % ELEMENTS_PER_INDEX)
  }

  lemma {:induction false} BlockReads(block: seq<nat>, base: nat, i: nat, rest: seq<byte>)
    requires Small(block) && base < TWO_TO_THE_32 && i < |block| && Mask(block) < 0x1_0000
    ensures ReadBlock(BlockBytes(block, base) + rest, base, i) == Some(block[i])
  {
    hide Mask, Deltas, ReadSum, Bit, Bits;
    MaskBit(block, i);
    MaskBits(block, i + 1);
    assert (BlockBytes(block, base) + rest)[2..] == Deltas(block, base) + rest;
    if block[i] != 0 {
      ReadEntry(block, base, i, rest);
    }
  }

  /** Block b of the offsets. */
  function BlockOf(offsets: seq<nat>, b: nat): (block: seq<nat>)
    requires ELEMENTS_PER_INDEX * b < |offsets|
    ensures 1 <= |block| <= ELEMENTS_PER_INDEX
    ensures ELEMENTS_PER_INDEX * b + |block| <= |offsets|
    ensures forall i :: 0 <= i < |block| ==> block[i] == offsets[ELEMENTS_PER_INDEX * b + i]
    ensures ELEMENTS_PER_INDEX * b + |block| < |offsets| ==> |block| == ELEMENTS_PER_INDEX
  {
    var start := ELEMENTS_PER_INDEX * b;
    offsets[start..if |offsets| - start < ELEMENTS_PER_INDEX then |offsets| else start + ELEMENTS_PER_INDEX]
  }

  lemma MaskSmall(block: seq<nat>)
    requires |block| <= ELEMENTS_PER_INDEX
    ensures Mask(block) < 0x1_0000
  {
    MaskAppend(block, 0);
    Pow2Grows(|block|, ELEMENTS_PER_INDEX);
    Pow2Values();
  }

  method LeastOffset(offsets: seq<nat>) returns (base: nat)
    requires Small(offsets)
    ensures base < TWO_TO_THE_32
    ensures forall i :: 0 <= i < |offsets| && offsets[i] != 0 ==> base <= offsets[i]
    ensures base == TWO_TO_THE_32 - 1 || base in offsets
  {
    base := TWO_TO_THE_32 - 1;
    for i := 0 to |offsets|
      invariant base < TWO_TO_THE_32 && (base == TWO_TO_THE_32 - 1 || base in offsets)
      invariant forall k :: 0 <= k < i && offsets[k] != 0 ==> base <= offsets[k]
    {
      if offsets[i] != 0 && offsets[i] < base { base := offsets[i]; }
    }
  }

  method MaskOf(block: seq<nat>) returns (mask: nat)
    ensures mask == Mask(block)
  {
    hide Mask;
    mask := 0;
    var bit: nat := 1;
    EmptyBlock(0);
    for i := 0 to |block|
      invariant mask == Mask(block[..i]) && bit == Pow2(i)
    {
      MaskAppend(block[..i], block[i]);
      assert block[..i + 1] == block[..i] + [block[i]];
      if block[i] != 0 { mask := mask + bit; }
      bit := bit * 2;
    }
    assert block[..|block|] == block;
  }

  method WriteBlock(out: seq<byte>, block: seq<nat>, base: nat) returns (data: seq<byte>)
    requires Small(block) && base < TWO_TO_THE_32 && |block| <= ELEMENTS_PER_INDEX
    ensures Mask(block) < 0x1_0000 && data == out + BlockBytes(block, base)
  {
    hide Mask, Deltas, Last, Uleb, Wrap;
    MaskSmall(block);
    EmptyBlock(base);
    var mask := MaskOf(block);
    data := out + [mask / 256, mask % 256];
    ghost var head := data;
    var previous: nat := base;
    for i := 0 to |block|
      invariant previous == Last(block[..i], base) < TWO_TO_THE_32
      invariant data == head + Deltas(block[..i], base)
    {
      DeltasAppend(block[..i], block[i], base);
      assert block[..i + 1] == block[..i] + [block[i]];
      if block[i] != 0 {
        WrapBack(block[i], previous);
        data := EncodeUnsignedLeb128(data, Wrap((block[i] as int) - previous));
        previous := block[i];
      }
    }
    assert block[..|block|] == block;
  }

  lemma EmptyBlock(base: nat)
    ensures Mask([]) == 0 && Deltas([], base) == [] && Last([], base) == base
  {
  }

  /** Every finished block lies at its position. */
  ghost predicate BlocksAt(data: seq<byte>, offsets: seq<nat>, base: nat, positions: seq<nat>) {
    forall b :: 0 <= b < |positions| ==> BlockAt(data, offsets, base, b, positions[b])
  }

  ghost predicate BlockAt(data: seq<byte>, offsets: seq<nat>, base: nat, b: nat, o: nat) {
    && ELEMENTS_PER_INDEX * b < |offsets| && Mask(BlockOf(offsets, b)) < 0x1_0000
    && o <= |data| && BlockBytes(BlockOf(offsets, b), base) <= data[o..]
  }

  lemma BlockAtLonger(data: seq<byte>, more: seq<byte>, offsets: seq<nat>, base: nat, positions: seq<nat>)
    requires BlocksAt(data, offsets, base, positions)
    ensures BlocksAt(data + more, offsets, base, positions)
  {
    hide BlockBytes, Mask;
    forall b | 0 <= b < |positions| ensures BlockAt(data + more, offsets, base, b, positions[b]) {
      assert BlockAt(data, offsets, base, b, positions[b]);
      assert (data + more)[positions[b]..] == data[positions[b]..] + more;
    }
  }

  lemma BlocksGrow(data: seq<byte>, offsets: seq<nat>, base: nat, positions: seq<nat>)
    requires BlocksAt(data, offsets, base, positions) && ELEMENTS_PER_INDEX * |positions| < |offsets|
    requires Mask(BlockOf(offsets, |positions|)) < 0x1_0000
    ensures BlocksAt(data + BlockBytes(BlockOf(offsets, |positions|), base), offsets, base, positions + [|data|])
  {
    hide BlockBytes, Mask;
    var bytes := BlockBytes(BlockOf(offsets, |positions|), base);
    BlockAtLonger(data, bytes, offsets, base, positions);
    assert (data + bytes)[|data|..] == bytes;
    var all := positions + [|data|];
    forall b | 0 <= b < |all| ensures BlockAt(data + bytes, offsets, base, b, all[b]) {
      if b < |positions| {
        assert BlockAt(data + bytes, offsets, base, b, positions[b]);
      }
    }
  }

  lemma NoBlocks(offsets: seq<nat>, base: nat)
    ensures BlocksAt([], offsets, base, [])
  {
  }

  /** The blocks, one behind the other, each with its place. */
  method WriteBlocks(offsets: seq<nat>, base: nat) returns (data: seq<byte>, positions: seq<nat>)
    requires Small(offsets) && base < TWO_TO_THE_32
    ensures BlocksAt(data, offsets, base, positions) && |offsets| <= ELEMENTS_PER_INDEX * |positions|
  {
    hide BlockBytes, Mask, Small, BlocksAt;
    data, positions := [], [];
    NoBlocks(offsets, base);
    var start: nat := 0;
    while start < |offsets|
      invariant start <= |offsets| && (start < |offsets| ==> start == ELEMENTS_PER_INDEX * |positions|)
      invariant |offsets| <= start ==> |offsets| <= ELEMENTS_PER_INDEX * |positions|
      invariant BlocksAt(data, offsets, base, positions)
      decreases |offsets| - start
    {
      var block := BlockOf(offsets, |positions|);
      SmallBlock(offsets, |positions|);
      var before := data;
      data := WriteBlock(data, block, base);
      BlocksGrow(before, offsets, base, positions);
      positions := positions + [|before|];
      start := start + |block|;
    }
  }

  /** Every offset can be read back, provided the table is addressable with 32 bits. */
  method Build(offsets: seq<nat>) returns (data: seq<byte>, base: nat, table: nat)
    requires Small(offsets)
    ensures |data| < TWO_TO_THE_32 ==>
              forall i :: 0 <= i < |offsets| ==> GetOffset(data, base, table, i) == Some(offsets[i])
    ensures Aligned(table, 4)
  {
    hide BlockBytes, Mask, GetOffset, Small, BlocksAt;
    base := LeastOffset(offsets);
    var positions;
    data, positions := WriteBlocks(offsets, base);
    ghost var blocks := data;
    data := data + Zeros(PadLen(|data|, 4));
    table := |data|;
    data := data + U32s(positions);
    assert data == blocks + (Zeros(PadLen(|blocks|, 4)) + U32s(positions));
    BlockAtLonger(blocks, Zeros(PadLen(|blocks|, 4)) + U32s(positions), offsets, base, positions);
    if |data| < TWO_TO_THE_32 {
      forall i: nat | i < |offsets| ensures GetOffset(data, base, table, i) == Some(offsets[i]) {
        EntryReads(data, offsets, base, table, positions, i);
      }
    }
  }

  lemma SmallBlock(offsets: seq<nat>, b: nat)
    requires Small(offsets) && ELEMENTS_PER_INDEX * b < |offsets|
    ensures Small(BlockOf(offsets, b))
  {
  }

  lemma {:induction false} EntryReads(data: seq<byte>, offsets: seq<nat>, base: nat, table: nat, positions: seq<nat>,
                                      i: nat)
    requires Small(offsets) && base < TWO_TO_THE_32 && i < |offsets| <= ELEMENTS_PER_INDEX * |positions|
    requires BlocksAt(data, offsets, base, positions)
    requires table <= |data| < TWO_TO_THE_32 && data[table..] == U32s(positions)
    ensures GetOffset(data, base, table, i) == Some(offsets[i])
  {
    hide BlockBytes, Mask, U32s, U32, Val, Small, ReadBlock;
    var b := i / ELEMENTS_PER_INDEX;
    U32sAt(positions, b);
    assert BlockAt(data, offsets, base, b, positions[b]);
    assert data[table + 4 * b..table + 4 * b + 4] == data[table..][4 * b..4 * b + 4];
    U32RoundTrip(positions[b]);
    var block := BlockOf(offsets, b);
    var bs := BlockBytes(block, base);
    SmallBlock(offsets, b);
    assert data[positions[b]..] == bs + data[positions[b]..][|bs|..];
    BlockReads(block, base, i % ELEMENTS_PER_INDEX, data[positions[b]..][|bs|..]);
  }
}
