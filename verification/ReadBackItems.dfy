/**
 Following an offset: what the reader finds at the offset of an item is the item,
 with all that it leads to.
 */
module ReadBackItems {
  import opened Bytes
  import opened Reading
  import opened ByteStream
  import opened SectionWriter
  import opened CatchHandlers
  import opened CatchHandlerWriter
  import opened CodeItems
  import opened DexIr
  import opened DexWriter
  import opened DexRecords
  import opened DexItems
  import opened DexTree
  import opened DexReader
  import Debug = DebugStream

  /** The record of every item lies in the file, at the item's offset, which is not 0. */
  ghost predicate Holding(ir: Ir, offs: Offsets, file: seq<byte>) {
    && Closed(ir) && Small(offs)
    && forall kind: Kind, i: nat :: i < |RecordsOf(ir, kind)| ==> Lies(ir, offs, file, kind, i)
  }

  ghost predicate Lies(ir: Ir, offs: Offsets, file: seq<byte>, kind: Kind, i: nat)
    requires i < |RecordsOf(ir, kind)|
  {
    && 0 < OffsetOf(offs, Some(Ref(kind, i)))
    && LiesAt(file, OffsetOf(offs, Some(Ref(kind, i))), EncRecord(RecordsOf(ir, kind)[i], offs))
  }

  /** The offset of item i of a kind. */
  ghost function Where(offs: Offsets, kind: Kind, i: nat): (o: nat) { OffsetOf(offs, Some(Ref(kind, i))) }

  lemma Lands(ir: Ir, offs: Offsets, file: seq<byte>, kind: Kind, i: nat) returns (rest: seq<byte>)
    requires Holding(ir, offs, file) && i < |RecordsOf(ir, kind)|
    ensures Where(offs, kind, i) > 0
    ensures From(file, Where(offs, kind, i)) == EncRecord(RecordsOf(ir, kind)[i], offs) + rest
  {
    hide RecordsOf, EncRecord, OffsetOf, Closed, Small;
    assert Lies(ir, offs, file, kind, i);
    var o, bs := Where(offs, kind, i), EncRecord(RecordsOf(ir, kind)[i], offs);
    rest := file[o + |bs|..];
  }

  lemma WordOn(bs: seq<byte>, rest: seq<byte>, j: nat)
    requires 4 * j + 4 <= |bs|
    ensures Word(bs + rest, j) == Word(bs, j)
  {
    assert (bs + rest)[4 * j..4 * j + 4] == bs[4 * j..4 * j + 4];
  }

  lemma HalfOn(bs: seq<byte>, rest: seq<byte>, j: nat)
    requires 2 * j + 2 <= |bs|
    ensures Half(bs + rest, j) == Half(bs, j)
  {
    assert (bs + rest)[2 * j..2 * j + 2] == bs[2 * j..2 * j + 2];
  }

  /** What a closed IR refers to is there. */
  lemma InRange(ir: Ir, kind: Kind, i: nat, j: nat)
    requires Closed(ir) && i < |RecordsOf(ir, kind)| && j < |RecordsOf(ir, kind)[i]|
    ensures var f := RecordsOf(ir, kind)[i][j];
            !f.Raw? && f.ref.Some? ==> f.ref.value.index < |RecordsOf(ir, f.ref.value.kind)|
  {
    hide RecordsOf;
    assert InIr(ir, RecordsOf(ir, kind)[i][j]);
  }

  lemma NullOffset(offs: Offsets)
    ensures OffsetOf(offs, None) == 0
  {
  }

  lemma ToIndex(kind: Kind, x: Option<nat>)
    ensures x.Some? ==> To(kind, x) == Some(Ref(kind, x.value))
  {
  }

  // ---- type lists

  lemma TypeListRecords(ir: Ir)
    ensures |RecordsOf(ir, TypeLists)| == |ir.typeLists|
    ensures forall i :: 0 <= i < |ir.typeLists| ==> RecordsOf(ir, TypeLists)[i] == TypeListRecord(ir.typeLists[i])
  {
    hide TypeListRecord;
  }

  lemma {:induction false} TypeListRead(types: seq<nat>, offs: Offsets, rest: seq<byte>, file: seq<byte>, o: nat)
    requires FitsTypes(types) && From(file, o) == EncRecord(TypeListRecord(types), offs) + rest
    ensures LoadTypeList(file, o) == Some(types)
  {
    hide EncFields, Word, Half, Val, From;
    var bs, n := EncRecord(TypeListRecord(types), offs), |types|;
    TypeListLength(types, n, offs);
    WordOn(bs, rest, 0);
    forall i | 0 <= i < n ensures Half(bs + rest, 2 + i) == types[i] {
      TypeListReads(types, i, n, offs);
      HalfOn(bs, rest, 2 + i);
      HalfIs(bs, 2 + i);
    }
    assert LoadTypeList(file, o).value == types;
  }

  lemma HalfIs(bs: seq<byte>, j: nat)
    requires 2 * j + 2 <= |bs|
    ensures Half(bs, j) == Val(bs[2 * j..2 * j + 2])
  {
  }

  lemma {:induction false} TypeListLoads(ir: Ir, offs: Offsets, file: seq<byte>, i: nat)
    requires Holding(ir, offs, file) && FitsItems(ir) && i < |ir.typeLists|
    ensures Where(offs, TypeLists, i) > 0 && LoadTypeList(file, Where(offs, TypeLists, i)) == Some(ir.typeLists[i])
  {
    hide Holding, RecordsOf, FitsTypes, TypeListRecord, LoadTypeList, EncRecord, From, Where;
    TypeListRecords(ir);
    var rest := Lands(ir, offs, file, TypeLists, i);
    TypeListRead(ir.typeLists[i], offs, rest, file, Where(offs, TypeLists, i));
  }

  lemma OptTypeList(ir: Ir, offs: Offsets, file: seq<byte>, x: Option<nat>)
    requires Holding(ir, offs, file) && FitsItems(ir) && (x.Some? ==> x.value < |ir.typeLists|)
    ensures var o := OffsetOf(offs, To(TypeLists, x)); IfAny(o, LoadTypeList(file, o)) == Some(Get(ir.typeLists, x))
  {
    hide Holding, FitsItems, LoadTypeList, OffsetOf;
    NullOffset(offs);
    if x.Some? {
      TypeListLoads(ir, offs, file, x.value);
    }
  }

  // ---- debug infos

  lemma DebugRecords(ir: Ir)
    ensures |RecordsOf(ir, DebugInfos)| == |ir.debugInfos|
    ensures forall i :: 0 <= i < |ir.debugInfos| ==> RecordsOf(ir, DebugInfos)[i] == [Raw(ir.debugInfos[i])]
  {
  }

  lemma {:induction false} DebugInfoLoads(ir: Ir, offs: Offsets, file: seq<byte>, i: nat)
    requires Holding(ir, offs, file) && FitsItems(ir) && i < |ir.debugInfos|
    ensures Where(offs, DebugInfos, i) > 0 && LoadDebugInfo(file, Where(offs, DebugInfos, i)) == Some(ir.debugInfos[i])
  {
    hide Holding, RecordsOf, EncRecord, From, Where, Debug.StreamSize;
    DebugRecords(ir);
    var rest := Lands(ir, offs, file, DebugInfos, i);
    var info := ir.debugInfos[i];
    LastRaw(info, offs);
    Debug.StreamPrefix(info, info + rest);
    assert (info + rest)[..|info|] == info;
  }

  lemma OptDebugInfo(ir: Ir, offs: Offsets, file: seq<byte>, x: Option<nat>)
    requires Holding(ir, offs, file) && FitsItems(ir) && (x.Some? ==> x.value < |ir.debugInfos|)
    ensures var o := OffsetOf(offs, To(DebugInfos, x)); IfAny(o, LoadDebugInfo(file, o)) == Some(Get(ir.debugInfos, x))
  {
    hide Holding, FitsItems, LoadDebugInfo, OffsetOf;
    NullOffset(offs);
    if x.Some? {
      DebugInfoLoads(ir, offs, file, x.value);
    }
  }

  // ---- code items

  lemma CodeRecords(ir: Ir)
    ensures |RecordsOf(ir, Kind.CodeItems)| == |ir.codeItems|
    ensures forall i :: 0 <= i < |ir.codeItems| ==> RecordsOf(ir, Kind.CodeItems)[i] == CodeRecord(ir.codeItems[i])
  {
    hide CodeRecord;
  }

  lemma FixedOn(c: CodeItem, bs: seq<byte>, rest: seq<byte>, offs: Offsets)
    requires FixedReads(c, bs, offs)
    ensures var all := bs + rest;
            && Half(all, 0) == c.registers && Half(all, 1) == c.ins && Half(all, 2) == c.outs
            && Half(all, 3) == |c.tries|
            && Word(all, 2) == OffsetOf(offs, To(DebugInfos, c.debugInfo)) && Word(all, 3) == |c.insns|
  {
    hide Val, OffsetOf;
    HalfOn(bs, rest, 0);
    HalfOn(bs, rest, 1);
    HalfOn(bs, rest, 2);
    HalfOn(bs, rest, 3);
    WordOn(bs, rest, 2);
    WordOn(bs, rest, 3);
  }

  lemma UnitOn(bs: seq<byte>, rest: seq<byte>, i: nat, x: nat)
    requires UnitReads(bs, i, x)
    ensures Half(bs + rest, 8 + i) == x
  {
    hide Val;
    HalfOn(bs, rest, 8 + i);
  }

  lemma TryOn(c: CodeItem, bs: seq<byte>, rest: seq<byte>, i: nat)
    requires i < |c.tries| && TryLiesAt(c, bs, i)
    ensures TriesStart(c) <= |bs|
    ensures var t := From((bs + rest)[TriesStart(c)..], 8 * i);
            && Word(t, 0) == c.tries[i].startAddr && Half(t, 2) == c.tries[i].insnCount
            && c.tries[i].handler < |c.handlers| && Half(t, 3) == c.handlers[c.tries[i].handler].listOffset
  {
    hide Val;
    var o := TriesStart(c) + 8 * i;
    var t := From((bs + rest)[TriesStart(c)..], 8 * i);
    PartsBehind(bs, rest, TriesStart(c), 8 * i, 0, 4);
    PartsBehind(bs, rest, TriesStart(c), 8 * i, 4, 6);
    PartsBehind(bs, rest, TriesStart(c), 8 * i, 6, 8);
  }

  lemma PartsBehind<T>(a: seq<T>, b: seq<T>, start: nat, o: nat, lo: nat, hi: nat)
    requires lo <= hi && start + o + hi <= |a|
    ensures (a + b)[start..][o..][lo..hi] == a[start + o + lo..start + o + hi]
  {
  }

  /** A handler of a canonical table is decoded at its offset. */
  lemma {:induction false} HandlerDecodes(hs: seq<CatchHandler>, ls: seq<HandlerList>, k: nat, rest: seq<byte>)
    requires HoldsCanonical(hs, ls) && k < |hs| && forall j :: 0 <= j < |ls| ==> Expressible(ls[j])
    ensures var l := DecodeList(From(CanonicalTable(ls) + rest, hs[k].listOffset));
            l.Some? && l.value.what == hs[k].list
  {
    hide EncList, DecodeList, Expressible, Start;
    var i :| 0 <= i < |ls| && CanonicalHandlers(ls)[i] == hs[k];
    ListLiesAt(ls, i);
    var t, p, n := CanonicalTable(ls), Start(ls, i), |EncList(ls[i])|;
    assert (t + rest)[p..] == t[p..p + n] + (t[p + n..] + rest);
    ListRoundTrip(ls[i], t[p + n..] + rest);
  }

  lemma {:induction false} HandlersRead(hs: seq<CatchHandler>, ls: seq<HandlerList>, rest: seq<byte>)
    requires HoldsCanonical(hs, ls) && |hs| < TWO_TO_THE_32 && forall j :: 0 <= j < |ls| ==> Expressible(ls[j])
    ensures TableBytes(hs) == CanonicalTable(ls)
    ensures Table(TableBytes(hs) + rest).Some?
    ensures (set h | h in Table(TableBytes(hs) + rest).value) == (set h | h in hs)
  {
    hide TableBytes, CanonicalTable, Table, Expressible;
    AnyOrderReproduces(hs, ls);
    TableOfCanonical(ls, rest);
    forall h ensures h in CanonicalHandlers(ls) <==> h in hs {
    }
  }

  lemma {:induction false} TryItemsRead(c: CodeItem, bs: seq<byte>, rest: seq<byte>, ls: seq<HandlerList>)
    requires HoldsCanonical(c.handlers, ls) && (forall k :: 0 <= k < |ls| ==> Expressible(ls[k]))
    requires TriesStart(c) <= |bs| && forall i :: 0 <= i < |c.tries| ==> TryLiesAt(c, bs, i)
    ensures LoadTryItems((bs + rest)[TriesStart(c)..], |c.tries|, CanonicalTable(ls) + rest) == Some(TriesOf(c))
  {
    hide CanonicalTable, Expressible, TryLiesAt, TriesStart, HoldsCanonical, DecodeList, From, Word, Half, AllSome;
    var (all, table) := ((bs + rest)[TriesStart(c)..], CanonicalTable(ls) + rest);
    forall i | 0 <= i < |c.tries| ensures LoadTry(From(all, 8 * i), table) == Some(TryOf(c, c.tries[i])) {
      TryOn(c, bs, rest, i);
      HandlerDecodes(c.handlers, ls, c.tries[i].handler, rest);
    }
    hide LoadTry, TryOf;
    var r := LoadTryItems(all, |c.tries|, table);
    assert r.Some?;
    assert r.value == TriesOf(c);
  }

  lemma {:induction false} TriesRead(c: CodeItem, bs: seq<byte>, rest: seq<byte>)
    requires ValidCode(c) && FitsHandlers(c.handlers) && c.tries != [] && TriesStart(c) + 8 * |c.tries| <= |bs|
    requires forall i :: 0 <= i < |c.tries| ==> TryLiesAt(c, bs, i)
    requires bs[TriesStart(c) + 8 * |c.tries|..] == TableBytes(c.handlers)
    ensures LoadTries(bs + rest, TriesStart(c), |c.tries|) == Some((TriesOf(c), set h | h in c.handlers))
  {
    hide TableBytes, CanonicalTable, Table, Expressible, TryLiesAt, TriesStart, Encodable, HoldsCanonical,
         LoadTryItems, TriesOf;
    var ls :| HoldsCanonical(c.handlers, ls) && forall k :: 0 <= k < |ls| ==> Expressible(ls[k]);
    HandlersRead(c.handlers, ls, rest);
    TryItemsRead(c, bs, rest, ls);
    assert (bs + rest)[TriesStart(c) + 8 * |c.tries|..] == TableBytes(c.handlers) + rest;
  }

  lemma {:induction false} CodeRead(ir: Ir, c: CodeItem, offs: Offsets, rest: seq<byte>, file: seq<byte>, o: nat)
    requires FitsCode(c) && ValidCode(c) && Small(offs) && From(file, o) == EncRecord(CodeRecord(c), offs) + rest
    requires var d := OffsetOf(offs, To(DebugInfos, c.debugInfo));
             IfAny(d, LoadDebugInfo(file, d)) == Some(Get(ir.debugInfos, c.debugInfo))
    ensures LoadCode(file, o) == Some(CodeOf(ir, c))
  {
    hide EncRecord, CodeRecord, Small, From, FixedReads, UnitReads, TryLiesAt, TableBytes, FitsHandlers, ValidCode,
         SmallCode, Word, Half, OffsetOf, LoadDebugInfo, LoadTries, IfAny, PadLen;
    CodeItemReads(c, offs);
    var bs := EncRecord(CodeRecord(c), offs);
    FixedOn(c, bs, rest, offs);
    forall i | 0 <= i < |c.insns| ensures Half(bs + rest, 8 + i) == c.insns[i] { UnitOn(bs, rest, i, c.insns[i]); }
    if c.tries != [] {
      TriesRead(c, bs, rest);
    }
    UnitsInside(c, bs);
    var r := LoadCode(file, o);
    assert r.Some? && r.value.insns == c.insns;
    assert r.value.tries == CodeOf(ir, c).tries;
  }

  lemma UnitsInside(c: CodeItem, bs: seq<byte>)
    requires forall i :: 0 <= i < |c.insns| ==> UnitReads(bs, i, c.insns[i])
    requires |bs| >= 16
    ensures 16 + 2 * |c.insns| <= |bs|
  {
    if c.insns != [] {
      assert UnitReads(bs, |c.insns| - 1, c.insns[|c.insns| - 1]);
    }
  }
}
