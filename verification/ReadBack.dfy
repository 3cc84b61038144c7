/**
 The whole way round: a reader that starts at the header of a written file finds
 everything that the IR said.
 */
module ReadBack {
  import opened Bytes
  import opened ByteStream
  import opened SectionWriter
  import opened DexIr
  import opened DexWriter
  import opened DexFile
  import opened DexRecords
  import opened DexTree
  import opened DexReader
  import opened ReadBackItems
  import opened ReadBackClasses
  import opened ReadBackIds
  import opened ReadBackHeader
  import opened ReadBackMap
  import HA = HiddenApi

  // ---- ids that the header leads to

  /** A section of ids starts at `start`, if it has any. */
  lemma IdsFrom(ir: Ir, offs: Offsets, kind: Kind, start: nat, i: nat)
    requires Resolved(ir, offs) && IsId(kind) && i < |RecordsOf(ir, kind)| && start == |Image(ir, Rank(kind), offs)|
    ensures Where(offs, kind, i) == start + IdSize(kind) * i
  {
    hide RecordsOf, Image, Resolved, Rank, IdSize, Where;
    IdAt(ir, offs, kind, i);
  }

  lemma {:induction false} StringsLoad(ir: Ir, offs: Offsets, file: seq<byte>)
    requires Holding(ir, offs, file) && Resolved(ir, offs) && FitsIds(ir) && InHeader(ir, offs, file, StringIds, 14)
    ensures LoadStrings(file) == Some(TreeOf(ir).strings)
  {
    hide Holding, Resolved, RecordsOf, FitsIds, Image, Rank, Where, Word, LoadString, AllSome, StringAt;
    StringIdRecords(ir);
    forall i | 0 <= i < |ir.stringIds| ensures NthString(file, i) == Some(StringAt(ir, ir.stringIds[i])) {
      IdsFrom(ir, offs, StringIds, Word(file, 15), i);
      StringLoads(ir, offs, file, i);
    }
    var r := LoadStrings(file);
    assert r.Some?;
    assert r.value == TreeOf(ir).strings;
  }

  lemma {:induction false} TypesLoad(ir: Ir, offs: Offsets, file: seq<byte>)
    requires Holding(ir, offs, file) && Resolved(ir, offs) && FitsIds(ir) && InHeader(ir, offs, file, TypeIds, 16)
    ensures LoadTypes(file) == Some(TreeOf(ir).types)
  {
    hide Holding, Resolved, RecordsOf, FitsIds, Image, Rank, Where, Word, LoadType, AllSome;
    TypeRecords(ir);
    forall i | 0 <= i < |ir.typeIds| ensures NthType(file, i) == Some(ir.typeIds[i].descriptor) {
      IdsFrom(ir, offs, TypeIds, Word(file, 17), i);
      TypeLoads(ir, offs, file, i);
    }
    var r := LoadTypes(file);
    assert r.Some?;
    assert r.value == TreeOf(ir).types;
  }

  lemma {:induction false} ProtosLoad(ir: Ir, offs: Offsets, file: seq<byte>)
    requires Holding(ir, offs, file) && Resolved(ir, offs) && Fits(ir) && InHeader(ir, offs, file, ProtoIds, 18)
    ensures LoadProtos(file) == Some(TreeOf(ir).protos)
  {
    hide Holding, Resolved, RecordsOf, FitsIds, FitsItems, Image, Rank, Where, Word, LoadProto, AllSome, ProtoOf;
    ProtoRecords(ir);
    forall i | 0 <= i < |ir.protoIds| ensures NthProto(file, i) == Some(ProtoOf(ir, ir.protoIds[i])) {
      IdsFrom(ir, offs, ProtoIds, Word(file, 19), i);
      ProtoLoads(ir, offs, file, i);
    }
    var r := LoadProtos(file);
    assert r.Some?;
    assert r.value == TreeOf(ir).protos;
  }

  lemma {:induction false} FieldsLoad(ir: Ir, offs: Offsets, file: seq<byte>)
    requires Holding(ir, offs, file) && Resolved(ir, offs) && FitsIds(ir) && InHeader(ir, offs, file, FieldIds, 20)
    ensures LoadFields(file) == Some(ir.fieldIds)
  {
    hide Holding, Resolved, RecordsOf, FitsIds, Image, Rank, Where, Word, LoadField, AllSome;
    FieldRecords(ir);
    forall i | 0 <= i < |ir.fieldIds| ensures NthField(file, i) == Some(ir.fieldIds[i]) {
      IdsFrom(ir, offs, FieldIds, Word(file, 21), i);
      FieldLoads(ir, offs, file, i);
    }
    var r := LoadFields(file);
    assert r.Some?;
    assert r.value == ir.fieldIds;
  }

  lemma {:induction false} MethodIdsLoad(ir: Ir, offs: Offsets, file: seq<byte>)
    requires Holding(ir, offs, file) && Resolved(ir, offs) && FitsIds(ir) && InHeader(ir, offs, file, MethodIds, 22)
    ensures LoadMethodIds(file) == Some(ir.methodIds)
  {
    hide Holding, Resolved, RecordsOf, FitsIds, Image, Rank, Where, Word, LoadMethodId, AllSome;
    MethodRecords(ir);
    forall i | 0 <= i < |ir.methodIds| ensures NthMethod(file, i) == Some(ir.methodIds[i]) {
      IdsFrom(ir, offs, MethodIds, Word(file, 23), i);
      MethodIdLoads(ir, offs, file, i);
    }
    var r := LoadMethodIds(file);
    assert r.Some?;
    assert r.value == ir.methodIds;
  }

  lemma {:induction false} ClassesLoad(ir: Ir, offs: Offsets, file: seq<byte>)
    requires Holding(ir, offs, file) && Resolved(ir, offs) && Fits(ir) && InHeader(ir, offs, file, ClassDefs, 24)
    ensures LoadClasses(file, PoolsOf(ir)) == Some(TreeOf(ir).classes)
  {
    hide Holding, Resolved, RecordsOf, FitsIds, FitsItems, Image, Rank, Where, Word, LoadClass, AllSome, ClassOf,
         PoolsOf;
    ClassRecords(ir);
    forall i | 0 <= i < |ir.classDefs| ensures NthClass(file, PoolsOf(ir), i) == Some(ClassOf(ir, ir.classDefs[i])) {
      IdsFrom(ir, offs, ClassDefs, Word(file, 25), i);
      ClassLoads(ir, offs, file, i);
    }
    var r := LoadClasses(file, PoolsOf(ir));
    assert r.Some?;
    assert r.value == TreeOf(ir).classes;
  }

  // ---- what the map list leads to

  /** The entry tells how many records a section has and, if any, where they start. */
  ghost predicate Tells(ir: Ir, offs: Offsets, kind: Kind, e: Entry) {
    && e.size == |RecordsOf(ir, kind)|
    && (RecordsOf(ir, kind) != [] ==> e.offset == SectionOffset(kind, |Image(ir, Rank(kind), offs)|))
  }

  lemma {:induction false} EntryTells(ir: Ir, id: Identity, link: seq<byte>, file: seq<byte>, offs: Offsets,
                                      order: seq<MapItem>, es: seq<Entry>, k: nat)
    requires Written(ir, id, link, file, offs, order) && AllAgree(es, order) && k < |MAP_KINDS|
    requires var kind := MAP_KINDS[k].0;
             && |RecordsOf(ir, kind)| < TWO_TO_THE_32
             && (RecordsOf(ir, kind) != [] ==> SectionOffset(kind, |Image(ir, Rank(kind), offs)|) < TWO_TO_THE_32)
    ensures Tells(ir, offs, MAP_KINDS[k].0, Find(es, MAP_KINDS[k].1))
  {
    hide RecordsOf, Image, Rank, Closed, ValidIdentity, IsFile, MapStart, RoundUp, Header, MapEntries, AllAgree, Only,
         Find, SectionOffset, MAP_KINDS;
    var start := Starts(ir, offs);
    OnlyEntry(ir, start, MapStart(ir, offs), order, k);
    FindRight(es, order, MAP_KINDS[k].1, EntryOf(ir, start, k));
  }

  lemma {:induction false} CallSitesLoad(ir: Ir, offs: Offsets, file: seq<byte>, e: Entry)
    requires Holding(ir, offs, file) && Resolved(ir, offs) && FitsItems(ir) && Tells(ir, offs, CallSiteIds, e)
    ensures LoadCallSites(file, PoolsOf(ir), e) == Some(TreeOf(ir).callSites)
  {
    hide Holding, Resolved, RecordsOf, FitsItems, Image, Rank, Where, LoadCallSite, AllSome, CallSiteOf, PoolsOf;
    CallSiteRecords(ir);
    forall i | 0 <= i < |ir.callSiteIds|
      ensures NthCallSite(file, PoolsOf(ir), e, i) == Some(CallSiteOf(ir, ir.callSiteIds[i]))
    {
      IdsFrom(ir, offs, CallSiteIds, e.offset, i);
      CallSiteLoads(ir, offs, file, i);
    }
    var r := LoadCallSites(file, PoolsOf(ir), e);
    assert r.Some?;
    assert r.value == TreeOf(ir).callSites;
  }

  lemma {:induction false} HandlesLoad(ir: Ir, offs: Offsets, file: seq<byte>, e: Entry)
    requires Holding(ir, offs, file) && Resolved(ir, offs) && FitsIds(ir) && Tells(ir, offs, MethodHandles, e)
    ensures LoadHandles(file, e) == Some(ir.methodHandles)
  {
    hide Holding, Resolved, RecordsOf, FitsIds, Image, Rank, Where, LoadHandle, AllSome;
    HandleRecords(ir);
    forall i | 0 <= i < |ir.methodHandles| ensures NthHandle(file, e, i) == Some(ir.methodHandles[i]) {
      IdsFrom(ir, offs, MethodHandles, e.offset, i);
      HandleLoads(ir, offs, file, i);
    }
    var r := LoadHandles(file, e);
    assert r.Some?;
    assert r.value == ir.methodHandles;
  }

  // ---- hidden API flags

  lemma HiddenRecords(ir: Ir)
    ensures ir.hiddenapi == [] ==> RecordsOf(ir, HiddenapiData) == []
    ensures ir.hiddenapi != [] ==> RecordsOf(ir, HiddenapiData) == [[Raw(HA.SectionBytes(HiddenClasses(ir)))]]
    ensures |HiddenClasses(ir)| == |ir.hiddenapi|
  {
    hide HA.SectionBytes;
  }

  lemma RoundTwice(p: nat)
    ensures RoundUp(RoundUp(p, 4), 4) == RoundUp(p, 4)
  {
    hide Aligned;
    AlignedStays(RoundUp(p, 4));
  }

  lemma AlignedStays(p: nat)
    requires Aligned(p, 4)
    ensures RoundUp(p, 4) == p
  {
  }

  /** The section lies where the map list says. */
  lemma {:induction false} HiddenLies(ir: Ir, offs: Offsets, file: seq<byte>, e: Entry) returns (rest: seq<byte>)
    requires Holding(ir, offs, file) && Resolved(ir, offs) && ir.hiddenapi != [] && Tells(ir, offs, HiddenapiData, e)
    ensures From(file, e.offset) == HA.SectionBytes(HiddenClasses(ir)) + rest
  {
    hide Holding, Resolved, RecordsOf, Image, Rank, HA.SectionBytes, HiddenClasses, RoundUp, EncRecord, From;
    HiddenRecords(ir);
    FirstItemRounded(ir, offs, HiddenapiData);
    RoundTwice(|Image(ir, Rank(HiddenapiData), offs)|);
    rest := Lands(ir, offs, file, HiddenapiData, 0);
    LastRaw(HA.SectionBytes(HiddenClasses(ir)), offs);
  }

  lemma SameMembers(ir: Ir, i: nat)
    requires i < |ir.hiddenapi|
    ensures |ir.hiddenapi| == |ir.classDefs| && HiddenClasses(ir)[i] == HiddenClass(ir, i)
    ensures MembersRead(ClassOf(ir, ir.classDefs[i]).data) == HiddenClass(ir, i).members
  {
  }

  lemma {:induction false} FlagsLoad(ir: Ir, offs: Offsets, file: seq<byte>, e: Entry)
    requires Holding(ir, offs, file) && Resolved(ir, offs) && Tells(ir, offs, HiddenapiData, e)
    requires |file| < TWO_TO_THE_32
    ensures LoadFlags(file, e, TreeOf(ir).classes) == Some(TreeOf(ir).hiddenapi)
  {
    hide Holding, Resolved, RecordsOf, Image, Rank, HA.SectionBytes, HiddenClasses, HiddenClass, HA.ReadClass,
         ClassOf, AllSome, From, MembersRead, FlagsOf;
    HiddenRecords(ir);
    if ir.hiddenapi != [] {
      var rest := HiddenLies(ir, offs, file, e);
      SectionFits(file, e.offset, HA.SectionBytes(HiddenClasses(ir)), rest);
      SameMembers(ir, 0);
      forall i | 0 <= i < |ir.classDefs|
        ensures NthFlags(file, e, ClassOf(ir, ir.classDefs[i]), i) == Some(FlagsOf(ir.hiddenapi[i]))
      {
        SameMembers(ir, i);
        HA.ClassReads(HiddenClasses(ir), i, rest);
        FlagsKept(ir, i);
      }
      hide NthFlags;
      var r := LoadFlags(file, e, TreeOf(ir).classes);
      assert r.Some?;
      assert r.value == TreeOf(ir).hiddenapi;
    } else {
      assert TreeOf(ir).hiddenapi == [];
    }
  }

  lemma SectionFits(file: seq<byte>, o: nat, section: seq<byte>, rest: seq<byte>)
    requires From(file, o) == section + rest
    ensures |section| <= |file|
  {
  }

  lemma FlagsKept(ir: Ir, i: nat)
    requires i < |HiddenClasses(ir)| && i < |ir.hiddenapi|
    ensures FlagsOf(ir.hiddenapi[i])
          == if HA.ClassBytes(HiddenClasses(ir)[i]) == [] then None else HiddenClasses(ir)[i].flags
  {
    hide HA.NonZero;
    var c := HiddenClasses(ir)[i];
    assert c.flags == ir.hiddenapi[i];
  }

  // ---- the file

  lemma SectionPlaces()
    ensures |MAP_KINDS| == 19 && MAP_KINDS[6] == (CallSiteIds, CALL_SITE_CODE)
    ensures MAP_KINDS[7] == (MethodHandles, METHOD_HANDLE_CODE)
    ensures MAP_KINDS[18] == (HiddenapiData, HIDDENAPI_CODE)
  {
  }

  lemma {:induction false} HiddenOffset(ir: Ir, offs: Offsets, file: seq<byte>)
    requires Holding(ir, offs, file) && Resolved(ir, offs)
    ensures |RecordsOf(ir, HiddenapiData)| <= 1
    ensures RecordsOf(ir, HiddenapiData) != [] ==>
            SectionOffset(HiddenapiData, |Image(ir, Rank(HiddenapiData), offs)|) <= |file|
  {
    hide Closed, Small, Resolved, RecordsOf, Image, Rank, HA.SectionBytes, RoundUp, EncRecord;
    HiddenRecords(ir);
    if RecordsOf(ir, HiddenapiData) != [] {
      FirstItemRounded(ir, offs, HiddenapiData);
      RoundTwice(|Image(ir, Rank(HiddenapiData), offs)|);
      assert Lies(ir, offs, file, HiddenapiData, 0);
    }
  }

  /** The entries of the three sections that only the map list tells of. */
  lemma {:induction false} MapTells(ir: Ir, id: Identity, link: seq<byte>, file: seq<byte>, offs: Offsets,
                                    order: seq<MapItem>)
    requires Written(ir, id, link, file, offs, order) && Holding(ir, offs, file) && |file| < TWO_TO_THE_32
    ensures var es := LoadMap(file, Word(file, 13));
            && es.Some? && Tells(ir, offs, CallSiteIds, Find(es.value, CALL_SITE_CODE))
            && Tells(ir, offs, MethodHandles, Find(es.value, METHOD_HANDLE_CODE))
            && Tells(ir, offs, HiddenapiData, Find(es.value, HIDDENAPI_CODE))
  {
    hide Holding, RecordsOf, Image, Rank, Closed, ValidIdentity, IsFile, MapStart, RoundUp, Header, MapEntries,
         AllAgree, Find, LoadMap, Word, Tells, Starts, MAP_KINDS, HiddenClasses;
    FileResolved(ir, offs, order, link, file);
    MapOffsetRead(ir, id, link, file, offs, order);
    OrderSize(ir, Starts(ir, offs), MapStart(ir, offs), order);
    MapLoads(ir, offs, order, link, file);
    var es := LoadMap(file, Word(file, 13)).value;
    SectionPlaces();
    IdsInFile(ir, offs, file, CallSiteIds);
    IdsInFile(ir, offs, file, MethodHandles);
    HiddenOffset(ir, offs, file);
    EntryTells(ir, id, link, file, offs, order, es, 6);
    EntryTells(ir, id, link, file, offs, order, es, 7);
    EntryTells(ir, id, link, file, offs, order, es, 18);
  }

  /** The pools that encoded values refer to are read right. */
  lemma PoolsRead(ir: Ir, offs: Offsets, file: seq<byte>, e: Entry)
    requires InHeader(ir, offs, file, StringIds, 14) && InHeader(ir, offs, file, TypeIds, 16)
    requires InHeader(ir, offs, file, ProtoIds, 18) && InHeader(ir, offs, file, FieldIds, 20)
    requires InHeader(ir, offs, file, MethodIds, 22) && Tells(ir, offs, MethodHandles, e)
    ensures Pools(file, e.size) == PoolsOf(ir)
  {
    hide RecordsOf, Image, Rank, Word;
    StringIdRecords(ir);
    TypeRecords(ir);
    ProtoRecords(ir);
    FieldRecords(ir);
    MethodRecords(ir);
    HandleRecords(ir);
  }

  /** Of every IR whose values fit, the written file reads back as what the IR says. */
  lemma {:induction false} FileReadsBack(ir: Ir, id: Identity, link: seq<byte>, file: seq<byte>, offs: Offsets,
                                         order: seq<MapItem>)
    requires Written(ir, id, link, file, offs, order) && Fits(ir) && |file| < TWO_TO_THE_32
    ensures ReadDex(file) == Some(TreeOf(ir))
  {
    hide Holding, Resolved, FitsIds, FitsItems, Closed, IsFile, Header, MapEntries, RoundUp, Tells, InHeader, LoadMap,
         Find, Word, Pools, PoolsOf, LoadStrings, LoadTypes, LoadProtos, LoadFields, LoadMethodIds, LoadClasses,
         LoadCallSites, LoadHandles, LoadFlags;
    FileHolds(ir, offs, order, link, file);
    FileResolved(ir, offs, order, link, file);
    AllInHeader(ir, id, link, file, offs, order);
    MapTells(ir, id, link, file, offs, order);
    var es := LoadMap(file, Word(file, 13)).value;
    PoolsRead(ir, offs, file, Find(es, METHOD_HANDLE_CODE));
    StringsLoad(ir, offs, file);
    TypesLoad(ir, offs, file);
    ProtosLoad(ir, offs, file);
    FieldsLoad(ir, offs, file);
    MethodIdsLoad(ir, offs, file);
    ClassesLoad(ir, offs, file);
    CallSitesLoad(ir, offs, file, Find(es, CALL_SITE_CODE));
    HandlesLoad(ir, offs, file, Find(es, METHOD_HANDLE_CODE));
    FlagsLoad(ir, offs, file, Find(es, HIDDENAPI_CODE));
  }

  /** Two IRs that are written to the same file say the same. */
  lemma SameFileSameTree(ir: Ir, id: Identity, link: seq<byte>, offs: Offsets, order: seq<MapItem>,
                         ir': Ir, id': Identity, link': seq<byte>, offs': Offsets, order': seq<MapItem>,
                         file: seq<byte>)
    requires Written(ir, id, link, file, offs, order) && Fits(ir) && |file| < TWO_TO_THE_32
    requires Written(ir', id', link', file, offs', order') && Fits(ir')
    ensures TreeOf(ir) == TreeOf(ir')
  {
    hide Written, Fits, TreeOf, ReadDex;
    FileReadsBack(ir, id, link, file, offs, order);
    FileReadsBack(ir', id', link', file, offs', order');
  }

  /** Write, and what a reader finds in its result. */
  method WriteFile(section: seq<byte>, ir: Ir, id: Identity, link: seq<byte>) returns (file: seq<byte>)
    requires ZeroFrom(section, 0) && Closed(ir) && ValidIdentity(id)
    ensures exists offs, order :: Written(ir, id, link, file, offs, order)
    ensures Fits(ir) && |file| < TWO_TO_THE_32 ==> ReadDex(file) == Some(TreeOf(ir))
  {
    hide Fits, TreeOf, ReadDex, IsFile, Header, Starts, MapEntries, MapStart, RoundUp, Ascending, Closed,
         ValidIdentity, ZeroFrom;
    var offs, order;
    file, offs, order := Write(section, ir, id, link);
    assert Written(ir, id, link, file, offs, order);
    if Fits(ir) && |file| < TWO_TO_THE_32 {
      FileReadsBack(ir, id, link, file, offs, order);
    }
  }
}
