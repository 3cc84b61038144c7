/**
 Reading the map list, which alone tells where call sites, method handles and hidden
 API flags are.
 */
module ReadBackMap {
  import opened Bytes
  import opened SectionWriter
  import opened DexIr
  import opened DexFile
  import opened DexRecords
  import opened DexReader

  /** The entry says what the item said, where that fits its fields. */
  ghost predicate Agrees(e: Entry, m: MapItem) {
    && e.code == m.code && (m.size < TWO_TO_THE_32 ==> e.size == m.size)
    && (m.offset < TWO_TO_THE_32 ==> e.offset == m.offset)
  }

  lemma {:induction false} EntryParts(m: MapItem)
    requires m.code < TWO_TO_THE_16
    ensures var bs := MapItemBytes(m);
            && Val(bs[0..2]) == m.code && (m.size < TWO_TO_THE_32 ==> Val(bs[4..8]) == m.size)
            && (m.offset < TWO_TO_THE_32 ==> Val(bs[8..12]) == m.offset)
  {
    hide U16, U32, Val;
    U16RoundTrip(m.code);
    if m.size < TWO_TO_THE_32 { U32RoundTrip(m.size); }
    if m.offset < TWO_TO_THE_32 { U32RoundTrip(m.offset); }
    FourParts(U16(m.code), U16(0), U32(m.size), U32(m.offset));
    assert MapItemBytes(m)[0..2] == U16(m.code);
  }

  lemma EntryRead(bs: seq<byte>, i: nat, m: MapItem)
    requires m.code < TWO_TO_THE_16 && 16 + 12 * i <= |bs| && bs[4 + 12 * i..16 + 12 * i] == MapItemBytes(m)
    ensures Agrees(LoadEntry(bs, i), m)
  {
    hide Val, MapItemBytes;
    EntryParts(m);
    var o := 4 + 12 * i;
    SliceOfSlice(bs, o, 12, 0, 2);
    SliceOfSlice(bs, o, 12, 4, 8);
    SliceOfSlice(bs, o, 12, 8, 12);
  }

  ghost predicate AllAgree(es: seq<Entry>, ms: seq<MapItem>) {
    |es| == |ms| && forall i :: 0 <= i < |es| ==> Agrees(es[i], ms[i])
  }

  lemma {:induction false} MapLoads(ir: Ir, offs: Offsets, order: seq<MapItem>, link: seq<byte>, file: seq<byte>)
    requires IsFile(ir, offs, order, link, file) && 0 < |order| < TWO_TO_THE_32
    requires forall i :: 0 <= i < |order| ==> order[i].code < TWO_TO_THE_16
    ensures var es := LoadMap(file, MapStart(ir, offs)); es.Some? && AllAgree(es.value, order)
  {
    hide IsFile, MapStart, MapItemBytes, Val, Agrees, LoadEntry;
    var o, n := MapStart(ir, offs), |order|;
    MapLiesInFile(ir, offs, order, link, file, n - 1);
    var bs := From(file, o);
    assert bs[0..4] == file[o..o + 4];
    forall i | 0 <= i < n ensures Agrees(LoadEntry(bs, i), order[i]) {
      MapLiesInFile(ir, offs, order, link, file, i);
      assert bs[4 + 12 * i..16 + 12 * i] == file[o + 4 + 12 * i..o + 16 + 12 * i];
      EntryRead(bs, i, order[i]);
    }
  }

  // ---- finding an entry

  /** Every item with this code is m. */
  ghost predicate Only(ms: seq<MapItem>, code: nat, m: MapItem) {
    forall i :: 0 <= i < |ms| && ms[i].code == code ==> ms[i] == m
  }

  lemma {:induction false} FindRight(es: seq<Entry>, ms: seq<MapItem>, code: nat, m: MapItem)
    requires AllAgree(es, ms) && Only(ms, code, m)
    ensures m in ms && m.code == code ==> Agrees(Find(es, code), m)
    ensures (forall i :: 0 <= i < |ms| ==> ms[i].code != code) ==> Find(es, code) == Entry(code, 0, 0)
    decreases |es|
  {
    if es != [] && es[0].code != code {
      FindRight(es[1..], ms[1..], code, m);
    }
  }

  lemma {:induction false} EntriesCount(ir: Ir, start: map<Kind, nat>, n: nat)
    requires n <= |MAP_KINDS| && forall kind: Kind :: kind in start
    ensures |SectionEntries(ir, start, n)| <= n
    decreases n
  {
    hide RecordsOf, MAP_KINDS;
    if n > 0 {
      EntriesCount(ir, start, n - 1);
    }
  }

  lemma MapCodes(k: nat)
    requires k < |MAP_KINDS|
    ensures 0 < MAP_KINDS[k].1 < TWO_TO_THE_16 && MAP_KINDS[k].1 != 0x1000
  {
  }

  /** What a map item can be. */
  lemma {:induction false} ItemIs(ir: Ir, start: map<Kind, nat>, mapOffset: nat, m: MapItem)
    requires (forall kind: Kind :: kind in start) && m in MapEntries(ir, start, mapOffset)
    ensures m.code == 0 || m.code == 0x1000 || IsEntry(ir, start, |MAP_KINDS|, m)
    ensures m.code < TWO_TO_THE_16
  {
    hide RecordsOf, MAP_KINDS, SectionEntries, SectionOffset;
    var entries := SectionEntries(ir, start, |MAP_KINDS|);
    if m in entries {
      EntriesRight(ir, start, |MAP_KINDS|, m);
      var k :| 0 <= k < |MAP_KINDS| && RecordsOf(ir, MAP_KINDS[k].0) != [] && m == EntryOf(ir, start, k);
      MapCodes(k);
    }
  }

  /** The entry of a section, if it has any items, is the only one with its code. */
  lemma {:induction false} OnlyEntry(ir: Ir, start: map<Kind, nat>, mapOffset: nat, order: seq<MapItem>, k: nat)
    requires (forall kind: Kind :: kind in start) && multiset(order) == multiset(MapEntries(ir, start, mapOffset))
    requires k < |MAP_KINDS|
    ensures Only(order, MAP_KINDS[k].1, EntryOf(ir, start, k))
    ensures RecordsOf(ir, MAP_KINDS[k].0) != [] ==> EntryOf(ir, start, k) in order
    ensures RecordsOf(ir, MAP_KINDS[k].0) == [] ==> forall i :: 0 <= i < |order| ==> order[i].code != MAP_KINDS[k].1
  {
    hide RecordsOf, MAP_KINDS, SectionEntries, SectionOffset, MapEntries;
    MapCodes(k);
    forall i | 0 <= i < |order| && order[i].code == MAP_KINDS[k].1
      ensures order[i] == EntryOf(ir, start, k) && RecordsOf(ir, MAP_KINDS[k].0) != []
    {
      assert order[i] in multiset(order);
      ItemIs(ir, start, mapOffset, order[i]);
      var j :| 0 <= j < |MAP_KINDS| && RecordsOf(ir, MAP_KINDS[j].0) != [] && order[i] == EntryOf(ir, start, j);
      if j < k { CodesDiffer(j, k); } else if k < j { CodesDiffer(k, j); }
    }
    if RecordsOf(ir, MAP_KINDS[k].0) != [] {
      HasEntry(ir, start, mapOffset, k);
      assert EntryOf(ir, start, k) in multiset(order);
    }
  }

  lemma HasEntry(ir: Ir, start: map<Kind, nat>, mapOffset: nat, k: nat)
    requires (forall kind: Kind :: kind in start) && k < |MAP_KINDS| && RecordsOf(ir, MAP_KINDS[k].0) != []
    ensures EntryOf(ir, start, k) in MapEntries(ir, start, mapOffset)
  {
    hide RecordsOf, MAP_KINDS, SectionEntries, SectionOffset;
    EntriesRight(ir, start, |MAP_KINDS|, EntryOf(ir, start, k));
  }

  lemma {:induction false} OrderSize(ir: Ir, start: map<Kind, nat>, mapOffset: nat, order: seq<MapItem>)
    requires (forall kind: Kind :: kind in start) && multiset(order) == multiset(MapEntries(ir, start, mapOffset))
    ensures 0 < |order| < TWO_TO_THE_32 && forall i :: 0 <= i < |order| ==> order[i].code < TWO_TO_THE_16
  {
    hide RecordsOf, SectionEntries;
    EntriesCount(ir, start, |MAP_KINDS|);
    assert |order| == |multiset(order)| == |MapEntries(ir, start, mapOffset)|;
    forall i | 0 <= i < |order| ensures order[i].code < TWO_TO_THE_16 {
      assert order[i] in multiset(order);
      ItemIs(ir, start, mapOffset, order[i]);
    }
  }
}
