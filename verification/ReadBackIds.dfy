/**
 Reading the ids, and the strings, parameters and values that they lead to.
 */
module ReadBackIds {
  import opened Bytes
  import opened Leb128
  import opened SectionWriter
  import opened DexIr
  import opened DexRecords
  import opened DexTree
  import opened DexReader
  import opened ReadBackItems
  import opened ReadBackClasses

  // ---- records of one word

  lemma OneWord(f: Field, offs: Offsets, rest: seq<byte>)
    requires f.Off32? || (f.Raw? && |f.bytes| == 4)
    ensures var bs := EncRecord([f], offs); |bs| == 4 && Word(bs + rest, 0) == WordOf(f, offs)
  {
    hide Word, WordOf, EncFields;
    WordAt([f], 0, 1, offs);
    WordOn(EncRecord([f], offs), rest, 0);
  }

  // ---- strings

  lemma StringDataRecords(ir: Ir)
    ensures |RecordsOf(ir, StringDatas)| == |ir.stringDatas|
    ensures forall i :: 0 <= i < |ir.stringDatas| ==>
            RecordsOf(ir, StringDatas)[i] == StringDataRecord(ir.stringDatas[i])
  {
    hide StringDataRecord;
  }

  lemma {:induction false} TextRead(text: seq<byte>, rest: seq<byte>)
    requires 0 !in text
    ensures UpToZero(text + [0] + rest) == Some(text)
    decreases |text|
  {
    if text != [] {
      TextRead(text[1..], rest);
      assert (text + [0] + rest)[1..] == text[1..] + [0] + rest;
      assert text == [text[0]] + text[1..];
    }
  }

  lemma {:induction false} StringDataRead(x: StringData, offs: Offsets, rest: seq<byte>, file: seq<byte>, o: nat)
    requires FitsString(x) && From(file, o) == EncRecord(StringDataRecord(x), offs) + rest
    ensures LoadStringData(file, o) == Some(x)
  {
    hide EncRecord, StringDataRecord, DecodeUleb, UpToZero, From;
    var bs := EncRecord(StringDataRecord(x), offs);
    StringDataReads(x, offs, rest);
    var n := DecodeUleb(bs + rest).value.size;
    assert (bs + rest)[n..] == bs[n..|bs| - 1] + [bs[|bs| - 1]] + rest;
    TextRead(x.bytes, rest);
  }

  lemma {:induction false} StringDataLoads(ir: Ir, offs: Offsets, file: seq<byte>, i: nat)
    requires Holding(ir, offs, file) && FitsIds(ir) && i < |ir.stringDatas|
    ensures LoadStringData(file, Where(offs, StringDatas, i)) == Some(ir.stringDatas[i])
  {
    hide Holding, RecordsOf, EncRecord, StringDataRecord, From, Where, LoadStringData, FitsMemberId, FitsClass;
    StringDataRecords(ir);
    var rest := Lands(ir, offs, file, StringDatas, i);
    StringDataRead(ir.stringDatas[i], offs, rest, file, Where(offs, StringDatas, i));
  }

  lemma StringIdRecords(ir: Ir)
    ensures |RecordsOf(ir, StringIds)| == |ir.stringIds|
    ensures forall i :: 0 <= i < |ir.stringIds| ==> RecordsOf(ir, StringIds)[i] == StringIdRecord(ir.stringIds[i])
  {
    hide StringIdRecord;
  }

  lemma {:induction false} StringLoads(ir: Ir, offs: Offsets, file: seq<byte>, i: nat)
    requires Holding(ir, offs, file) && FitsIds(ir) && i < |ir.stringIds|
    ensures LoadString(file, Where(offs, StringIds, i)) == Some(StringAt(ir, ir.stringIds[i]))
  {
    hide RecordsOf, EncRecord, From, OffsetOf, LoadStringData, FitsIds, Lies, Closed, Word, WordOf;
    var ref := Ref(StringDatas, ir.stringIds[i].data);
    StringIdRecords(ir);
    StringDataRecords(ir);
    var rest := Lands(ir, offs, file, StringIds, i);
    InRange(ir, StringIds, i, 0);
    OneWord(Off32(Some(ref)), offs, rest);
    OffsetIs(Some(ref), offs);
    StringDataLoads(ir, offs, file, ref.index);
  }

  // ---- types and prototypes

  lemma TypeRecords(ir: Ir)
    ensures |RecordsOf(ir, TypeIds)| == |ir.typeIds|
    ensures forall i :: 0 <= i < |ir.typeIds| ==> RecordsOf(ir, TypeIds)[i] == TypeIdRecord(ir.typeIds[i])
  {
    hide TypeIdRecord;
  }

  lemma {:induction false} TypeLoads(ir: Ir, offs: Offsets, file: seq<byte>, i: nat)
    requires Holding(ir, offs, file) && FitsIds(ir) && i < |ir.typeIds|
    ensures LoadType(file, Where(offs, TypeIds, i)) == Some(ir.typeIds[i].descriptor)
  {
    hide RecordsOf, EncRecord, From, Where, Holding, Word, WordOf, FitsMemberId, FitsClass, FitsString, U32;
    TypeRecords(ir);
    var rest := Lands(ir, offs, file, TypeIds, i);
    OneWord(Raw(U32(ir.typeIds[i].descriptor)), offs, rest);
    WordIs(ir.typeIds[i].descriptor, offs);
  }

  lemma ProtoRecords(ir: Ir)
    ensures |RecordsOf(ir, ProtoIds)| == |ir.protoIds|
    ensures forall i :: 0 <= i < |ir.protoIds| ==> RecordsOf(ir, ProtoIds)[i] == ProtoIdRecord(ir.protoIds[i])
  {
    hide ProtoIdRecord;
  }

  lemma ProtoField(x: ProtoId)
    ensures |ProtoIdRecord(x)| == 3 && ProtoIdRecord(x)[2] == Off32(To(TypeLists, x.parameters))
  {
    hide U32;
  }

  lemma {:induction false} ProtoLoads(ir: Ir, offs: Offsets, file: seq<byte>, i: nat)
    requires Holding(ir, offs, file) && FitsIds(ir) && FitsItems(ir) && i < |ir.protoIds|
    ensures LoadProto(file, Where(offs, ProtoIds, i)) == Some(ProtoOf(ir, ir.protoIds[i]))
  {
    hide RecordsOf, ProtoIdRecord, EncRecord, From, Where, OffsetOf, To, Lies, Closed, Small, Word, IfAny,
         LoadTypeList, FitsItems, FitsMemberId, FitsClass, FitsString;
    var x := ir.protoIds[i];
    ProtoRecords(ir);
    TypeListRecords(ir);
    ProtoField(x);
    var rest := Lands(ir, offs, file, ProtoIds, i);
    InRange(ir, ProtoIds, i, 2);
    ToIndex(TypeLists, x.parameters);
    ProtoIdReads(x, offs);
    var bs := EncRecord(ProtoIdRecord(x), offs);
    WordOn(bs, rest, 0);
    WordOn(bs, rest, 1);
    WordOn(bs, rest, 2);
    OptTypeList(ir, offs, file, x.parameters);
  }

  // ---- fields, methods and method handles

  lemma ValTwo(bs: seq<byte>)
    requires |bs| == 2
    ensures Val(bs) == (bs[0] as int) + 256 * (bs[1] as int)
  {
    assert Val(bs) == bs[0] + 256 * Val(bs[1..]);
    assert Val(bs[1..]) == bs[1..][0] + 256 * Val(bs[1..][1..]);
    assert bs[1..][1..] == [];
  }

  lemma ValFour(bs: seq<byte>)
    requires |bs| == 4
    ensures Val(bs) == Val(bs[..2]) + TWO_TO_THE_16 * Val(bs[2..])
  {
    ValTwo(bs[..2]);
    ValTwo(bs[2..]);
    assert bs[1..][1..] == bs[2..];
    assert Val(bs[1..]) == bs[1] + 256 * Val(bs[2..]);
  }

  lemma WordOfHalves(bs: seq<byte>, j: nat)
    requires 4 * j + 4 <= |bs|
    ensures Word(bs, j) == Half(bs, 2 * j) + TWO_TO_THE_16 * Half(bs, 2 * j + 1)
  {
    hide Val;
    var w := bs[4 * j..4 * j + 4];
    ValFour(w);
    assert w[..2] == bs[2 * (2 * j)..2 * (2 * j) + 2] && w[2..] == bs[2 * (2 * j + 1)..2 * (2 * j + 1) + 2];
  }

  lemma FieldRecords(ir: Ir)
    ensures |RecordsOf(ir, FieldIds)| == |ir.fieldIds|
    ensures forall i :: 0 <= i < |ir.fieldIds| ==>
              RecordsOf(ir, FieldIds)[i]
              == MemberIdRecord(ir.fieldIds[i].klass, ir.fieldIds[i].typ, ir.fieldIds[i].name)
  {
    hide MemberIdRecord;
  }

  lemma MethodRecords(ir: Ir)
    ensures |RecordsOf(ir, MethodIds)| == |ir.methodIds|
    ensures forall i :: 0 <= i < |ir.methodIds| ==>
              RecordsOf(ir, MethodIds)[i]
              == MemberIdRecord(ir.methodIds[i].klass, ir.methodIds[i].proto, ir.methodIds[i].name)
  {
    hide MemberIdRecord;
  }

  /** A field or method id, with whatever follows it. */
  lemma {:induction false} MemberIdOn(klass: nat, second: nat, name: nat, offs: Offsets, rest: seq<byte>)
    requires FitsMemberId(klass, second, name)
    ensures var bs := EncRecord(MemberIdRecord(klass, second, name), offs) + rest;
            |bs| >= 8 && Half(bs, 0) == klass && Half(bs, 1) == second && Word(bs, 1) == name
  {
    hide EncRecord, MemberIdRecord, Half, Word;
    MemberIdReads(klass, second, name, offs);
    var bs := EncRecord(MemberIdRecord(klass, second, name), offs);
    HalfOn(bs, rest, 0);
    HalfOn(bs, rest, 1);
    WordOn(bs, rest, 1);
    WordOfHalves(bs, 1);
  }

  lemma {:induction false} FieldLoads(ir: Ir, offs: Offsets, file: seq<byte>, i: nat)
    requires Holding(ir, offs, file) && FitsIds(ir) && i < |ir.fieldIds|
    ensures LoadField(file, Where(offs, FieldIds, i)) == Some(ir.fieldIds[i])
  {
    hide RecordsOf, MemberIdRecord, EncRecord, From, Where, Holding, Word, Half, FitsMemberId, FitsClass, FitsString;
    FieldRecords(ir);
    var rest := Lands(ir, offs, file, FieldIds, i);
    MemberIdOn(ir.fieldIds[i].klass, ir.fieldIds[i].typ, ir.fieldIds[i].name, offs, rest);
  }

  lemma {:induction false} MethodIdLoads(ir: Ir, offs: Offsets, file: seq<byte>, i: nat)
    requires Holding(ir, offs, file) && FitsIds(ir) && i < |ir.methodIds|
    ensures LoadMethodId(file, Where(offs, MethodIds, i)) == Some(ir.methodIds[i])
  {
    hide RecordsOf, MemberIdRecord, EncRecord, From, Where, Holding, Word, Half, FitsMemberId, FitsClass, FitsString;
    MethodRecords(ir);
    var rest := Lands(ir, offs, file, MethodIds, i);
    MemberIdOn(ir.methodIds[i].klass, ir.methodIds[i].proto, ir.methodIds[i].name, offs, rest);
  }

  lemma HandleRecords(ir: Ir)
    ensures |RecordsOf(ir, MethodHandles)| == |ir.methodHandles|
    ensures forall i :: 0 <= i < |ir.methodHandles| ==>
            RecordsOf(ir, MethodHandles)[i] == MethodHandleRecord(ir.methodHandles[i])
  {
    hide MethodHandleRecord;
  }

  lemma {:induction false} HandleLoads(ir: Ir, offs: Offsets, file: seq<byte>, i: nat)
    requires Holding(ir, offs, file) && FitsIds(ir) && i < |ir.methodHandles|
    ensures LoadHandle(file, Where(offs, MethodHandles, i)) == Some(ir.methodHandles[i])
  {
    hide RecordsOf, MethodHandleRecord, EncRecord, From, Where, Holding, Half, FitsMemberId, FitsClass, FitsString;
    HandleRecords(ir);
    var rest := Lands(ir, offs, file, MethodHandles, i);
    MethodHandleReads(ir.methodHandles[i], offs);
    var bs := EncRecord(MethodHandleRecord(ir.methodHandles[i]), offs);
    HalfOn(bs, rest, 0);
    HalfOn(bs, rest, 2);
  }

  // ---- call sites

  lemma CallSiteRecords(ir: Ir)
    ensures |RecordsOf(ir, CallSiteIds)| == |ir.callSiteIds|
    ensures forall i :: 0 <= i < |ir.callSiteIds| ==>
            RecordsOf(ir, CallSiteIds)[i] == CallSiteIdRecord(ir.callSiteIds[i])
  {
    hide CallSiteIdRecord;
  }

  lemma {:induction false} CallSiteLoads(ir: Ir, offs: Offsets, file: seq<byte>, i: nat)
    requires Holding(ir, offs, file) && FitsItems(ir) && i < |ir.callSiteIds|
    ensures LoadCallSite(file, PoolsOf(ir), Where(offs, CallSiteIds, i)) == Some(CallSiteOf(ir, ir.callSiteIds[i]))
  {
    hide RecordsOf, EncRecord, From, OffsetOf, LoadArray, FitsItems, Lies, Closed, Word, WordOf, PoolsOf;
    var ref := Ref(EncodedArrays, ir.callSiteIds[i].item);
    CallSiteRecords(ir);
    ArrayRecords(ir);
    var rest := Lands(ir, offs, file, CallSiteIds, i);
    InRange(ir, CallSiteIds, i, 0);
    OneWord(Off32(Some(ref)), offs, rest);
    OffsetIs(Some(ref), offs);
    ArrayLoads(ir, offs, file, ref.index);
  }
}
