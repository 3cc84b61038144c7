/**
 The two-phase catch handler reader: first the lists that try items refer to,
 then a walk over the table that adds the lists no try item refers to.
 */
module CatchHandlerReader {
  import opened Bytes
  import opened Leb128
  import opened Reading
  import opened CatchHandlers
  import opened CatchHandlerWriter

  ghost predicate HasNullType(ps: seq<TypeAddr>) {
    exists i :: 0 <= i < |ps| && ps[i].typ.None?
  }

  /** The handler has the place and the pairs of the list.  Its catch-all flag, too, unless a
      typed handler has the null type, which the first phase takes for a catch-all. */
  ghost predicate Stands(h: CatchHandler, t: CatchHandler) {
    && h.listOffset == t.listOffset && h.list.pairs == t.list.pairs
    && (t.list.catchAll || !HasNullType(t.list.pairs) ==> h == t)
  }

  ghost predicate StandsIn(h: CatchHandler, table: seq<CatchHandler>) {
    exists k :: 0 <= k < |table| && Stands(h, table[k])
  }

  ghost predicate StoodFor(t: CatchHandler, hs: seq<CatchHandler>) {
    exists k :: 0 <= k < |hs| && Stands(hs[k], t)
  }

  ghost predicate DistinctOffsets(hs: seq<CatchHandler>) {
    forall i, j :: 0 <= i < j < |hs| ==> hs[i].listOffset != hs[j].listOffset
  }

  /** Exactly one handler per list of the table. */
  ghost predicate OnePerList(hs: seq<CatchHandler>, table: seq<CatchHandler>) {
    && |hs| == |table|
    && DistinctOffsets(hs)
    && (forall k :: 0 <= k < |hs| ==> StandsIn(hs[k], table))
    && (forall k :: 0 <= k < |table| ==> StoodFor(table[k], hs))
  }

  // ---- facts about the table

  lemma {:induction false} WalkFacts(bs: seq<byte>, pos: nat, n: nat, k: nat)
    requires pos <= |bs| && Walk(bs, pos, n).Some? && k < n
    ensures var h := Walk(bs, pos, n).value[k];
            && (if k == 0 then h.listOffset == pos else h.listOffset > pos)
            && h.listOffset <= |bs|
            && DecodeList(bs[h.listOffset..]).Some? && DecodeList(bs[h.listOffset..]).value.what == h.list
    decreases n
  {
    hide DecodeList;
    if k > 0 {
      WalkFacts(bs, pos + DecodeList(bs[pos..]).value.size, n - 1, k - 1);
    }
  }

  lemma {:induction false} WalkDistinct(bs: seq<byte>, pos: nat, n: nat)
    requires pos <= |bs| && Walk(bs, pos, n).Some?
    ensures DistinctOffsets(Walk(bs, pos, n).value)
    decreases n
  {
    hide DecodeList;
    if n > 0 {
      var next := pos + DecodeList(bs[pos..]).value.size;
      WalkDistinct(bs, next, n - 1);
      forall k | 0 < k < n ensures Walk(bs, pos, n).value[k].listOffset > pos {
        WalkFacts(bs, pos, n, k);
      }
    }
  }

  // ---- counting

  ghost function OffsetsOf(hs: seq<CatchHandler>): (s: set<nat>) {
    set k | 0 <= k < |hs| :: hs[k].listOffset
  }

  lemma {:induction false} CountOffsets(hs: seq<CatchHandler>)
    ensures |OffsetsOf(hs)| <= |hs|
    ensures DistinctOffsets(hs) ==> |OffsetsOf(hs)| == |hs|
  {
    if hs != [] {
      var n := |hs| - 1;
      CountOffsets(hs[..n]);
      assert OffsetsOf(hs) == OffsetsOf(hs[..n]) + {hs[n].listOffset};
    } else {
      assert OffsetsOf(hs) == {};
    }
  }

  lemma {:induction false} Included(hs: seq<CatchHandler>, table: seq<CatchHandler>)
    requires forall k :: 0 <= k < |hs| ==> StandsIn(hs[k], table)
    ensures OffsetsOf(hs) <= OffsetsOf(table)
  {
    forall o | o in OffsetsOf(hs) ensures o in OffsetsOf(table) {
      var k :| 0 <= k < |hs| && hs[k].listOffset == o;
      assert StandsIn(hs[k], table);
    }
  }

  lemma {:induction false} Includes(hs: seq<CatchHandler>, table: seq<CatchHandler>)
    requires forall k :: 0 <= k < |table| ==> StoodFor(table[k], hs)
    ensures OffsetsOf(table) <= OffsetsOf(hs)
  {
    forall o | o in OffsetsOf(table) ensures o in OffsetsOf(hs) {
      var k :| 0 <= k < |table| && table[k].listOffset == o;
      assert StoodFor(table[k], hs);
    }
  }

  lemma SubsetSize(a: set<nat>, b: set<nat>)
    requires a <= b
    ensures |a| <= |b|
    ensures |a| == |b| ==> a == b
  {
    assert b == a + (b - a);
  }

  /** While the walk has not seen every list, some list may be missing; once it has, none is. */
  lemma {:induction false} AllSeen(hs: seq<CatchHandler>, table: seq<CatchHandler>)
    requires DistinctOffsets(table)
    requires forall k :: 0 <= k < |table| ==> StoodFor(table[k], hs)
    ensures |table| <= |hs|
  {
    Includes(hs, table);
    CountOffsets(table);
    CountOffsets(hs);
    SubsetSize(OffsetsOf(table), OffsetsOf(hs));
  }

  /** As many distinct handlers of the table as the table has lists: all of them. */
  lemma {:induction false} EnoughIsAll(hs: seq<CatchHandler>, table: seq<CatchHandler>)
    requires DistinctOffsets(table) && DistinctOffsets(hs) && |hs| >= |table|
    requires forall k :: 0 <= k < |hs| ==> StandsIn(hs[k], table)
    ensures OnePerList(hs, table)
  {
    Included(hs, table);
    CountOffsets(table);
    CountOffsets(hs);
    SubsetSize(OffsetsOf(hs), OffsetsOf(table));
    forall k | 0 <= k < |table| ensures StoodFor(table[k], hs) {
      assert table[k].listOffset in OffsetsOf(hs);
      var j :| 0 <= j < |hs| && hs[j].listOffset == table[k].listOffset;
      SameOffset(hs, table, j, k);
    }
  }

  // ---- the reader

  lemma DecodePairsStep(bs: seq<byte>, n: nat)
    ensures n == 0 ==> DecodePairs(bs, n) == Some(Got([], 0))
    ensures n > 0 && DecodePair(bs).None? ==> DecodePairs(bs, n) == None
    ensures n > 0 && DecodePair(bs).Some? ==>
              var p := DecodePair(bs).value;
              DecodePairs(bs, n) == Joined([p.what], p.size, DecodePairs(bs[p.size..], n - 1))
  {
    hide DecodePair;
  }

  method ReadPairs(bs: seq<byte>, start: nat, n: nat) returns (r: Option<Got<seq<TypeAddr>>>)
    requires start <= |bs|
    ensures r == DecodePairs(bs[start..], n)
  {
    hide DecodePairs, DecodePair;
    var ps: seq<TypeAddr>, used: nat := [], 0;
    JoinedNothing(DecodePairs(bs[start..], n));
    for i := 0 to n
      invariant start + used <= |bs|
      invariant DecodePairs(bs[start..], n) == Joined(ps, used, DecodePairs(bs[start + used..], n - i))
    {
      DecodePairsStep(bs[start + used..], n - i);
      var p := DecodePair(bs[start + used..]);
      if p.None? {
        return None;
      }
      var size := p.value.size;
      assert bs[start + used..][size..] == bs[start + used + size..];
      JoinedStep(ps, used, p.value.what, size, DecodePairs(bs[start + used + size..], n - i - 1));
      ps, used := ps + [p.value.what], used + size;
    }
    DecodePairsStep(bs[start + used..], 0);
    r := Some(Got(ps, used));
    assert ps + [] == ps;
  }

  /** One list from `pos` on, as both phases decode it. */
  method ReadList(bs: seq<byte>, pos: nat) returns (r: Option<Got<HandlerList>>)
    requires pos <= |bs|
    ensures r == DecodeList(bs[pos..])
  {
    hide DecodePairs, DecodeUleb, DecodeSleb;
    var s := DecodeSleb(bs[pos..]);
    if s.None? {
      return None;
    }
    var size := s.value.value;
    var hasCatchAll := size <= 0;
    if hasCatchAll {
      size := -size;
    }
    var start := pos + s.value.size;
    assert bs[pos..][s.value.size..] == bs[start..];
    var ps := ReadPairs(bs, start, size);
    if ps.None? {
      return None;
    }
    if !hasCatchAll {
      return Some(Got(HandlerList(false, ps.value.what), s.value.size + ps.value.size));
    }
    assert bs[start..][ps.value.size..] == bs[start + ps.value.size..];
    var a := DecodeUleb(bs[start + ps.value.size..]);
    if a.None? {
      return None;
    }
    r := Some(Got(HandlerList(true, ps.value.what + [TypeAddr(None, a.value.value)]),
                  s.value.size + ps.value.size + a.value.size));
  }

  method FindHandler(hs: seq<CatchHandler>, offset: nat) returns (k: nat)
    ensures k <= |hs|
    ensures k < |hs| ==> hs[k].listOffset == offset
    ensures k == |hs| ==> forall j :: 0 <= j < |hs| ==> hs[j].listOffset != offset
  {
    k := 0;
    while k < |hs|
      invariant k <= |hs| && forall j :: 0 <= j < k ==> hs[j].listOffset != offset
    {
      if hs[k].listOffset == offset {
        return;
      }
      k := k + 1;
    }
  }

  /** The first phase's catch-all flag: some handler of the list has the null type. */
  method AnyNullType(ps: seq<TypeAddr>) returns (catchAll: bool)
    ensures catchAll <==> HasNullType(ps)
  {
    catchAll := false;
    for i := 0 to |ps|
      invariant catchAll <==> exists j :: 0 <= j < i && ps[j].typ.None?
    {
      catchAll := catchAll || ps[i].typ.None?;
    }
  }

  /** A table the reader can take in: its lists start below 2^16. */
  ghost predicate Readable(bs: seq<byte>, table: seq<CatchHandler>) {
    Table(bs) == Some(table) && forall k :: 0 <= k < |table| ==> table[k].listOffset < TWO_TO_THE_16
  }

  /** A list of the table is what decoding at its offset gives; a catch-all has the null type. */
  lemma {:induction false} ListOfTable(bs: seq<byte>, table: seq<CatchHandler>, k: nat)
    requires Readable(bs, table) && k < |table|
    ensures table[k].listOffset <= |bs|
    ensures var l := DecodeList(bs[table[k].listOffset..]);
            l.Some? && l.value.what == table[k].list
    ensures table[k].list.catchAll ==> HasNullType(table[k].list.pairs)
  {
    hide DecodeList;
    var n := DecodeUleb(bs).value;
    WalkFacts(bs, n.size, n.value, k);
    if table[k].list.catchAll {
      CatchAllIsNull(bs[table[k].listOffset..]);
    }
  }

  lemma CatchAllIsNull(bs: seq<byte>)
    requires DecodeList(bs).Some? && DecodeList(bs).value.what.catchAll
    ensures HasNullType(DecodeList(bs).value.what.pairs)
  {
    hide DecodePairs, DecodeUleb, DecodeSleb;
    var ps := DecodeList(bs).value.what.pairs;
    assert ps[|ps| - 1].typ.None?;
  }

  /** The flag as the first phase takes it from the types. */
  ghost predicate FlagFromTypes(h: CatchHandler) {
    h.list.catchAll <==> HasNullType(h.list.pairs)
  }

  /** The handler of a try item that no earlier try item's handler serves. */
  method ReadTryHandler(bs: seq<byte>, offset: nat, ghost table: seq<CatchHandler>) returns (h: CatchHandler)
    requires Readable(bs, table) && offset in OffsetsOf(table)
    ensures h.listOffset == offset && StandsIn(h, table) && FlagFromTypes(h)
  {
    ghost var k :| 0 <= k < |table| && table[k].listOffset == offset;
    ListOfTable(bs, table, k);
    hide Readable, DecodeList;
    var l := ReadList(bs, offset);
    var catchAll := AnyNullType(l.value.what.pairs);
    h := CatchHandler(offset, HandlerList(catchAll, l.value.what.pairs));
    assert Stands(h, table[k]);
  }

  method ReadHandlersOfTries(tries: seq<nat>, bs: seq<byte>, ghost table: seq<CatchHandler>)
    returns (hs: seq<CatchHandler>, of: seq<nat>)
    requires Readable(bs, table) && forall i :: 0 <= i < |tries| ==> tries[i] in OffsetsOf(table)
    ensures DistinctOffsets(hs) && forall k :: 0 <= k < |hs| ==> StandsIn(hs[k], table)
    ensures |of| == |tries|
    ensures forall i :: 0 <= i < |of| ==> of[i] < |hs| && hs[of[i]].listOffset == tries[i] && FlagFromTypes(hs[of[i]])
  {
    hide Readable, OffsetsOf;
    hs, of := [], [];
    for i := 0 to |tries|
      invariant DistinctOffsets(hs) && forall k :: 0 <= k < |hs| ==> StandsIn(hs[k], table)
      invariant |of| == i && forall k :: 0 <= k < |hs| ==> FlagFromTypes(hs[k])
      invariant forall m :: 0 <= m < i ==> of[m] < |hs| && hs[of[m]].listOffset == tries[m]
    {
      var k := FindHandler(hs, tries[i]);
      if k == |hs| {
        var h := ReadTryHandler(bs, tries[i], table);
        hs := hs + [h];
      }
      of := of + [k];
    }
  }

  /** The handlers are of the table, and the first lists of the table have theirs. */
  ghost predicate Walked(hs: seq<CatchHandler>, table: seq<CatchHandler>, seen: nat) {
    && seen <= |table| && DistinctOffsets(table) && DistinctOffsets(hs)
    && (forall k :: 0 <= k < |hs| ==> StandsIn(hs[k], table))
    && (forall k :: 0 <= k < seen ==> StoodFor(table[k], hs))
  }

  lemma WalkFinds(hs: seq<CatchHandler>, table: seq<CatchHandler>, seen: nat, k: nat)
    requires Walked(hs, table, seen) && seen < |table| && k < |hs| && hs[k].listOffset == table[seen].listOffset
    ensures Walked(hs, table, seen + 1)
  {
    hide StandsIn, StoodFor;
    SameOffset(hs, table, k, seen);
  }

  lemma WalkAdds(hs: seq<CatchHandler>, table: seq<CatchHandler>, seen: nat)
    requires Walked(hs, table, seen) && seen < |table|
    requires forall j :: 0 <= j < |hs| ==> hs[j].listOffset != table[seen].listOffset
    ensures Walked(hs + [table[seen]], table, seen + 1)
  {
    hide StandsIn, StoodFor;
    StandsForItself(hs, table, seen);
  }

  lemma WalkEnds(hs: seq<CatchHandler>, table: seq<CatchHandler>, seen: nat)
    requires Walked(hs, table, seen)
    ensures seen == |table| ==> |table| <= |hs|
    ensures |table| <= |hs| ==> OnePerList(hs, table)
  {
    hide StandsIn, StoodFor;
    if seen == |table| {
      AllSeen(hs, table);
    }
    if |table| <= |hs| {
      EnoughIsAll(hs, table);
    }
  }

  lemma WalkBegins(hs: seq<CatchHandler>, table: seq<CatchHandler>)
    requires DistinctOffsets(table) && DistinctOffsets(hs) && forall k :: 0 <= k < |hs| ==> StandsIn(hs[k], table)
    ensures Walked(hs, table, 0)
  {
  }

  /** The walk over the table, which stops once there are as many handlers as lists. */
  method AddMissing(hs0: seq<CatchHandler>, bs: seq<byte>, ghost table: seq<CatchHandler>)
    returns (hs: seq<CatchHandler>)
    requires Readable(bs, table) && DistinctOffsets(hs0) && forall k :: 0 <= k < |hs0| ==> StandsIn(hs0[k], table)
    ensures hs0 <= hs && OnePerList(hs, table)
  {
    hide DecodeUleb, DecodeList, Readable, Table, Walk, StandsIn, DistinctOffsets, Walked, OnePerList;
    ReadableFacts(bs, table);
    WalkBegins(hs0, table);
    hs := hs0;
    var count := DecodeUleb(bs).value;
    var pos: nat := count.size;
    ghost var seen: nat := 0;
    while count.value > |hs|
      invariant hs0 <= hs && Walked(hs, table, seen)
      invariant seen <= |table| == count.value && pos <= |bs|
      invariant Walk(bs, pos, count.value - seen) == Some(table[seen..])
      decreases count.value - seen
    {
      WalkEnds(hs, table, seen);
      WalkStep(bs, pos, count.value - seen);
      var l := ReadList(bs, pos);
      assert table[seen] == CatchHandler(pos, l.value.what);
      var offset := pos % TWO_TO_THE_16;
      assert offset == pos;
      var k := FindHandler(hs, offset);
      if k == |hs| {
        WalkAdds(hs, table, seen);
        hs := hs + [CatchHandler(offset, l.value.what)];
      } else {
        WalkFinds(hs, table, seen, k);
      }
      pos := pos + l.value.size;
      seen := seen + 1;
    }
    WalkEnds(hs, table, seen);
  }

  /** The handler part of DedupeOrCreateCodeItem.  `of` gives, for each try item, the
      position of its handler among `hs`; equal offsets thus share one handler. */
  method ReadHandlers(tries: seq<nat>, bs: seq<byte>, ghost table: seq<CatchHandler>)
    returns (hs: seq<CatchHandler>, of: seq<nat>)
    requires Readable(bs, table) && forall i :: 0 <= i < |tries| ==> tries[i] in OffsetsOf(table)
    ensures OnePerList(hs, table)
    ensures |of| == |tries|
    ensures forall i :: 0 <= i < |of| ==> of[i] < |hs| && hs[of[i]].listOffset == tries[i] && FlagFromTypes(hs[of[i]])
    ensures forall i, j :: 0 <= i < |of| && 0 <= j < |of| ==> (of[i] == of[j] <==> tries[i] == tries[j])
  {
    hide OffsetsOf, Readable, FlagFromTypes, StandsIn, StoodFor;
    hs, of := ReadHandlersOfTries(tries, bs, table);
    hs := AddMissing(hs, bs, table);
  }

  lemma ReadableFacts(bs: seq<byte>, table: seq<CatchHandler>)
    requires Readable(bs, table)
    ensures DecodeUleb(bs).Some? && DecodeUleb(bs).value.value == |table| && DistinctOffsets(table)
    ensures Walk(bs, DecodeUleb(bs).value.size, |table|) == Some(table[0..])
    ensures forall k :: 0 <= k < |table| ==> table[k].listOffset < TWO_TO_THE_16
  {
    hide DecodeUleb, Walk;
    WalkDistinct(bs, DecodeUleb(bs).value.size, DecodeUleb(bs).value.value);
    assert table[0..] == table;
  }

  lemma WalkStep(bs: seq<byte>, pos: nat, n: nat)
    requires pos <= |bs| && n > 0 && Walk(bs, pos, n).Some?
    ensures DecodeList(bs[pos..]).Some?
    ensures var l := DecodeList(bs[pos..]).value;
            && pos + l.size <= |bs|
            && Walk(bs, pos, n).value[0] == CatchHandler(pos, l.what)
            && Walk(bs, pos + l.size, n - 1) == Some(Walk(bs, pos, n).value[1..])
  {
    hide DecodeList;
  }

  /** A handler with the offset of a list of the table stands for that list. */
  lemma SameOffset(hs: seq<CatchHandler>, table: seq<CatchHandler>, k: nat, i: nat)
    requires k < |hs| && i < |table| && hs[k].listOffset == table[i].listOffset && StandsIn(hs[k], table)
    requires DistinctOffsets(table)
    ensures StoodFor(table[i], hs)
  {
    var j :| 0 <= j < |table| && Stands(hs[k], table[j]);
    assert j == i;
  }

  /** Adding a list of the table as it is keeps all that stand, and it stands for itself. */
  lemma StandsForItself(hs: seq<CatchHandler>, table: seq<CatchHandler>, i: nat)
    requires i < |table|
    ensures StandsIn(table[i], table) && StoodFor(table[i], hs + [table[i]])
    ensures forall t :: StoodFor(t, hs) ==> StoodFor(t, hs + [table[i]])
  {
    assert Stands(table[i], table[i]);
    var hs' := hs + [table[i]];
    assert hs'[|hs|] == table[i];
    forall t | StoodFor(t, hs) ensures StoodFor(t, hs') {
      var k :| 0 <= k < |hs| && Stands(hs[k], t);
      assert hs'[k] == hs[k];
    }
  }

  /** Where typed handlers have real types, the handlers are the lists, flags and all. */
  lemma {:induction false} ExactWhereTyped(hs: seq<CatchHandler>, table: seq<CatchHandler>)
    requires OnePerList(hs, table)
    requires forall k :: 0 <= k < |table| ==> table[k].list.catchAll || !HasNullType(table[k].list.pairs)
    ensures (forall k :: 0 <= k < |hs| ==> hs[k] in table) && (forall k :: 0 <= k < |table| ==> table[k] in hs)
  {
    hide HasNullType;
    forall k | 0 <= k < |hs| ensures hs[k] in table { assert StandsIn(hs[k], table); }
    forall k | 0 <= k < |table| ensures table[k] in hs { assert StoodFor(table[k], hs); }
  }

  /** The handler that a try item gets is its list exactly if the list ends with a catch-all or none of its
      handlers has the null type. */
  lemma FlagExactly(bs: seq<byte>, table: seq<CatchHandler>, k: nat, h: CatchHandler)
    requires Readable(bs, table) && k < |table| && Stands(h, table[k]) && FlagFromTypes(h)
    ensures h == table[k] <==> table[k].list.catchAll || !HasNullType(table[k].list.pairs)
  {
    hide Readable, HasNullType;
    ListOfTable(bs, table, k);
  }

  /** A list for which it is not: one typed handler, with the index that stands for no type. */
  lemma NullTypedList()
    ensures DecodeList([0x01, 0xFF, 0xFF, 0x03, 0x00]) == Some(Got(HandlerList(false, [TypeAddr(None, 0)]), 5))
    ensures HasNullType([TypeAddr(None, 0)])
  {
    hide DecodePair, DecodeUleb;
    var bs: seq<byte> := [0x01, 0xFF, 0xFF, 0x03, 0x00];
    var pair: seq<byte> := [0xFF, 0xFF, 0x03, 0x00];
    assert bs[1..] == pair;
    NullTypedPair();
    DecodePairsStep([], 0);
    DecodePairsStep(pair, 1);
    assert pair[4..] == [] && [TypeAddr(None, 0)] + [] == [TypeAddr(None, 0)];
    assert DecodePairs(pair, 1) == Some(Got([TypeAddr(None, 0)], 4));
    assert DecodeSleb(bs) == Some(Decoded(1, 1));
    assert [TypeAddr(None, 0)][0].typ.None?;
  }

  lemma NullTypedPair()
    ensures DecodePair([0xFF, 0xFF, 0x03, 0x00]) == Some(Got(TypeAddr(None, 0), 4))
  {
    var pair: seq<byte> := [0xFF, 0xFF, 0x03, 0x00];
    assert pair[1..] == [0xFF, 0x03, 0x00] && pair[1..][1..] == [0x03, 0x00] && pair[3..] == [0x00];
    assert UlebGroups([0x03, 0x00], 3) == Some(Decoded(3, 1));
    assert UlebGroups(pair[1..], 4) == Some(Decoded(0x7F + 128 * 3, 2));
    assert DecodeUleb(pair) == Some(Decoded(0xFFFF, 3));
    assert DecodeUleb([0x00]) == Some(Decoded(0, 1));
  }

  /** Reading a canonical table and writing the handlers, in the order the two phases
      leave them, gives the same bytes again. */
  lemma {:induction false} ReadThenWriteReproduces(ls: seq<HandlerList>, hs: seq<CatchHandler>)
    requires |ls| < TWO_TO_THE_32 && forall k :: 0 <= k < |ls| ==> Expressible(ls[k])
    requires Table(CanonicalTable(ls)).Some? && OnePerList(hs, Table(CanonicalTable(ls)).value)
    ensures TableBytes(hs) == CanonicalTable(ls)
  {
    hide Table, CanonicalTable, TableBytes;
    TableOfCanonical(ls, []);
    assert CanonicalTable(ls) + [] == CanonicalTable(ls);
    ExactWhereTyped(hs, CanonicalHandlers(ls));
    AnyOrderReproduces(hs, ls);
  }
}
