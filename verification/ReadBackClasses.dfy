/**
 Following the offsets of classes: class data with its code, encoded values and
 annotations.
 */
module ReadBackClasses {
  import opened Bytes
  import opened Leb128
  import opened SectionWriter
  import opened CodeItems
  import opened DexIr
  import opened DexRecords
  import opened DexItems
  import opened DexTree
  import opened DexReader
  import opened ReadBackItems
  import Debug = DebugStream
  import EV = EncodedValues

  // ---- code

  lemma {:induction false} CodeLoads(ir: Ir, offs: Offsets, file: seq<byte>, i: nat)
    requires Holding(ir, offs, file) && FitsItems(ir) && i < |ir.codeItems|
    ensures Where(offs, Kind.CodeItems, i) > 0
    ensures LoadCode(file, Where(offs, Kind.CodeItems, i)) == Some(CodeOf(ir, ir.codeItems[i]))
  {
    hide RecordsOf, CodeRecord, FitsCode, ValidCode, LoadCode, EncRecord, From, Where, CodeOf, OffsetOf, Small, Lies,
         Debug.StreamSize;
    var c := ir.codeItems[i];
    CodeRecords(ir);
    DebugRecords(ir);
    DebugField(c);
    InRange(ir, Kind.CodeItems, i, 1);
    OptDebugInfo(ir, offs, file, c.debugInfo);
    var rest := Lands(ir, offs, file, Kind.CodeItems, i);
    CodeRead(ir, c, offs, rest, file, Where(offs, Kind.CodeItems, i));
  }

  lemma DebugField(c: CodeItem)
    ensures |CodeRecord(c)| == 5 && CodeRecord(c)[1] == Off32(To(DebugInfos, c.debugInfo))
  {
  }

  lemma OptCode(ir: Ir, offs: Offsets, file: seq<byte>, m: MethodItem)
    requires Holding(ir, offs, file) && FitsItems(ir) && (m.code.Some? ==> m.code.value < |ir.codeItems|)
    ensures LoadMethod(file, MethodView(m.index, m.accessFlags, OffsetOf(offs, To(Kind.CodeItems, m.code))))
          == Some(MethodOf(ir, m))
  {
    hide Holding, FitsItems, LoadCode, OffsetOf, CodeOf;
    NullOffset(offs);
    if m.code.Some? {
      CodeLoads(ir, offs, file, m.code.value);
    }
  }

  // ---- class data

  lemma ClassDataRecords(ir: Ir)
    ensures |RecordsOf(ir, ClassDatas)| == |ir.classDatas|
    ensures forall i :: 0 <= i < |ir.classDatas| ==> RecordsOf(ir, ClassDatas)[i] == ClassDataRecord(ir.classDatas[i])
  {
    hide ClassDataRecord;
  }

  lemma {:induction false} FieldItemsLength(fs: seq<FieldItem>, previous: nat)
    ensures |FieldItemsFields(fs, previous)| == 2 * |fs|
    decreases |fs|
  {
    hide Uleb, Delta;
    if fs != [] {
      FieldItemsLength(fs[1..], fs[0].index);
    }
  }

  lemma {:induction false} CodeField(ms: seq<MethodItem>, previous: nat, i: nat)
    requires i < |ms|
    ensures |MethodItemsFields(ms, previous)| == 3 * |ms|
    ensures MethodItemsFields(ms, previous)[3 * i + 2] == OffUleb(To(Kind.CodeItems, ms[i].code))
    decreases |ms|
  {
    hide Uleb, Delta;
    if |ms| > 1 {
      CodeField(ms[1..], ms[0].index, if i == 0 then 0 else i - 1);
    }
  }

  /** The code of every method of a closed IR is there. */
  lemma {:induction false} CodeInRange(ir: Ir, k: nat, i: nat)
    requires Closed(ir) && k < |ir.classDatas|
    ensures var x := ir.classDatas[k];
            && (i < |x.directMethods| && x.directMethods[i].code.Some? ==>
                  x.directMethods[i].code.value < |ir.codeItems|)
            && (i < |x.virtualMethods| && x.virtualMethods[i].code.Some? ==>
                  x.virtualMethods[i].code.value < |ir.codeItems|)
  {
    hide RecordsOf, FieldItemsFields, MethodItemsFields, Closed, Uleb;
    var x := ir.classDatas[k];
    ClassDataRecords(ir);
    CodeRecords(ir);
    var (p, q) := (FieldItemsFields(x.staticFields, 0), FieldItemsFields(x.instanceFields, 0));
    var (r, s) := (MethodItemsFields(x.directMethods, 0), MethodItemsFields(x.virtualMethods, 0));
    if i < |x.directMethods| {
      CodeField(x.directMethods, 0, i);
      var j := 4 + |p| + |q| + 3 * i + 2;
      assert ClassDataRecord(x)[j] == r[3 * i + 2];
      InRange(ir, ClassDatas, k, j);
    }
    if i < |x.virtualMethods| {
      CodeField(x.virtualMethods, 0, i);
      var j := 4 + |p| + |q| + |r| + 3 * i + 2;
      assert ClassDataRecord(x)[j] == s[3 * i + 2];
      InRange(ir, ClassDatas, k, j);
    }
  }

  lemma {:induction false} MethodsLoad(ir: Ir, offs: Offsets, file: seq<byte>, ms: seq<MethodItem>)
    requires Holding(ir, offs, file) && FitsItems(ir)
    requires forall i :: 0 <= i < |ms| && ms[i].code.Some? ==> ms[i].code.value < |ir.codeItems|
    ensures LoadMethods(file, MethodViews(ms, offs)) == Some(MethodsOf(ir, ms))
  {
    hide Holding, FitsItems, LoadMethod, MethodOf, OffsetOf, To, AllSome;
    var vs := MethodViews(ms, offs);
    forall i | 0 <= i < |ms| ensures LoadMethod(file, vs[i]) == Some(MethodOf(ir, ms[i])) {
      OptCode(ir, offs, file, ms[i]);
    }
    var r := LoadMethods(file, vs);
    assert r.Some?;
    assert r.value == MethodsOf(ir, ms);
  }

  lemma {:induction false} ClassDataLoads(ir: Ir, offs: Offsets, file: seq<byte>, k: nat)
    requires Holding(ir, offs, file) && FitsItems(ir) && k < |ir.classDatas|
    ensures Where(offs, ClassDatas, k) > 0
    ensures LoadClassData(file, Where(offs, ClassDatas, k)) == Some(DataOf(ir, ir.classDatas[k]))
  {
    hide RecordsOf, ClassDataRecord, FitsCode, SmallClassData, EncRecord, From, Where, Closed, Small, Lies,
         Debug.StreamSize, ReadClassData, LoadMethods, MethodViews, MethodsOf, FieldViews;
    var x := ir.classDatas[k];
    ClassDataRecords(ir);
    var rest := Lands(ir, offs, file, ClassDatas, k);
    ClassDataRoundTrip(x, offs, rest);
    forall i: nat
      ensures i < |x.directMethods| && x.directMethods[i].code.Some? ==>
                x.directMethods[i].code.value < |ir.codeItems|
      ensures i < |x.virtualMethods| && x.virtualMethods[i].code.Some? ==>
                x.virtualMethods[i].code.value < |ir.codeItems|
    {
      CodeInRange(ir, k, i);
    }
    MethodsLoad(ir, offs, file, x.directMethods);
    MethodsLoad(ir, offs, file, x.virtualMethods);
  }

  // ---- encoded values

  lemma ArrayRecords(ir: Ir)
    ensures |RecordsOf(ir, EncodedArrays)| == |ir.encodedArrays|
    ensures forall i :: 0 <= i < |ir.encodedArrays| ==>
            RecordsOf(ir, EncodedArrays)[i] == EncodedArrayRecord(ir.encodedArrays[i])
  {
    hide EncodedArrayRecord;
  }

  lemma {:induction false} ArrayLoads(ir: Ir, offs: Offsets, file: seq<byte>, i: nat)
    requires Holding(ir, offs, file) && FitsItems(ir) && i < |ir.encodedArrays|
    ensures Where(offs, EncodedArrays, i) > 0
    ensures LoadArray(file, PoolsOf(ir), Where(offs, EncodedArrays, i)) == Some(ir.encodedArrays[i])
  {
    hide RecordsOf, EncodedArrayRecord, FitsCode, EncRecord, From, Where, Holding, Debug.StreamSize, EV.ReadArray,
         EV.ValidAll, EV.UnknownsIn;
    ArrayRecords(ir);
    var rest := Lands(ir, offs, file, EncodedArrays, i);
    assert FitsArray(PoolsOf(ir), ir.encodedArrays[i]);
    EncodedArrayReads(PoolsOf(ir), ir.encodedArrays[i], offs, rest);
  }

  lemma AnnotationRecords(ir: Ir)
    ensures |RecordsOf(ir, Annotations)| == |ir.annotations|
    ensures forall i :: 0 <= i < |ir.annotations| ==>
            RecordsOf(ir, Annotations)[i] == AnnotationRecord(ir.annotations[i])
  {
    hide AnnotationRecord;
  }

  lemma {:induction false} AnnotationLoads(ir: Ir, offs: Offsets, file: seq<byte>, i: nat)
    requires Holding(ir, offs, file) && FitsItems(ir) && i < |ir.annotations|
    ensures Where(offs, Annotations, i) > 0
    ensures LoadAnnotation(file, PoolsOf(ir), Where(offs, Annotations, i)) == Some(ir.annotations[i])
  {
    hide RecordsOf, AnnotationRecord, FitsCode, EncRecord, From, Where, Holding, Debug.StreamSize, EV.ReadAnnotation,
         EV.ValidElements, EV.UnknownsInElements;
    AnnotationRecords(ir);
    var rest := Lands(ir, offs, file, Annotations, i);
    assert FitsAnnotation(PoolsOf(ir), ir.annotations[i]);
    AnnotationReads(PoolsOf(ir), ir.annotations[i], offs, rest);
    var bs := EncRecord(AnnotationRecord(ir.annotations[i]), offs);
    assert (bs + rest)[1..] == bs[1..] + rest;
  }

  // ---- annotation sets

  lemma SetRecords(ir: Ir)
    ensures |RecordsOf(ir, AnnotationSets)| == |ir.annotationSets|
    ensures forall i :: 0 <= i < |ir.annotationSets| ==>
            RecordsOf(ir, AnnotationSets)[i] == AnnotationSetRecord(ir.annotationSets[i])
  {
    hide AnnotationSetRecord;
  }

  lemma SetField(items: seq<nat>, j: nat)
    requires j < |items|
    ensures |AnnotationSetRecord(items)| == |items| + 1
    ensures AnnotationSetRecord(items)[j + 1] == Off32(Some(Ref(Annotations, items[j])))
  {
    hide U32;
  }

  lemma SetLength(items: seq<nat>, offs: Offsets)
    requires |items| < TWO_TO_THE_32
    ensures var bs := EncRecord(AnnotationSetRecord(items), offs); |bs| == 4 + 4 * |items| && Word(bs, 0) == |items|
  {
    hide U32, Val, Word, WordOf, EncFields;
    var r := AnnotationSetRecord(items);
    WordAt(r, 0, |r|, offs);
    WordIs(|items|, offs);
  }

  lemma {:induction false} SetLoads(ir: Ir, offs: Offsets, file: seq<byte>, k: nat)
    requires Holding(ir, offs, file) && FitsItems(ir) && k < |ir.annotationSets|
    ensures Where(offs, AnnotationSets, k) > 0
    ensures LoadSet(file, PoolsOf(ir), Where(offs, AnnotationSets, k)) == Some(SetAt(ir, k))
  {
    hide RecordsOf, AnnotationSetRecord, EncRecord, From, OffsetOf, Closed, Small, Lies, FitsCode, Debug.StreamSize,
         Word, LoadAnnotation, AllSome, PoolsOf;
    var items := ir.annotationSets[k];
    SetRecords(ir);
    AnnotationRecords(ir);
    var rest := Lands(ir, offs, file, AnnotationSets, k);
    var bs := EncRecord(AnnotationSetRecord(items), offs);
    SetLength(items, offs);
    WordOn(bs, rest, 0);
    forall j | 0 <= j < |items|
      ensures LoadSetItem(file, PoolsOf(ir), bs + rest, j) == Some(AnnotationAt(ir, items[j]))
    {
      SetField(items, j);
      InRange(ir, AnnotationSets, k, j + 1);
      AnnotationSetReads(items, j, offs);
      WordOn(bs, rest, j + 1);
      AnnotationLoads(ir, offs, file, items[j]);
    }
    var r := LoadSet(file, PoolsOf(ir), Where(offs, AnnotationSets, k));
    assert r.Some?;
    assert r.value == SetAt(ir, k);
  }

  lemma OptSet(ir: Ir, offs: Offsets, file: seq<byte>, x: Option<nat>)
    requires Holding(ir, offs, file) && FitsItems(ir) && (x.Some? ==> x.value < |ir.annotationSets|)
    ensures var o := OffsetOf(offs, To(AnnotationSets, x));
            IfAny(o, LoadSet(file, PoolsOf(ir), o)) == Some(SetOrNot(ir, x))
  {
    hide Holding, FitsItems, LoadSet, OffsetOf, SetAt;
    NullOffset(offs);
    if x.Some? {
      SetLoads(ir, offs, file, x.value);
    }
  }

  // ---- lists of sets, for the parameters of a method

  lemma RefsRecords(ir: Ir)
    ensures |RecordsOf(ir, AnnotationSetRefs)| == |ir.annotationSetRefs|
    ensures forall i :: 0 <= i < |ir.annotationSetRefs| ==>
              RecordsOf(ir, AnnotationSetRefs)[i] == AnnotationSetRefRecord(ir.annotationSetRefs[i])
  {
    hide AnnotationSetRefRecord;
  }

  lemma RefField(items: seq<Option<nat>>, j: nat)
    requires j < |items|
    ensures |AnnotationSetRefRecord(items)| == |items| + 1
    ensures AnnotationSetRefRecord(items)[j + 1] == Off32(To(AnnotationSets, items[j]))
  {
    hide U32;
  }

  /** A list of sets: a count and as many offsets, 0 where there is none. */
  lemma {:induction false} SetRefsRead(items: seq<Option<nat>>, offs: Offsets)
    requires |items| < TWO_TO_THE_32 && Small(offs)
    ensures var bs := EncRecord(AnnotationSetRefRecord(items), offs);
            && |bs| == 4 + 4 * |items| && Word(bs, 0) == |items|
            && forall i :: 0 <= i < |items| ==> Word(bs, i + 1) == OffsetOf(offs, To(AnnotationSets, items[i]))
  {
    hide U32, Val, Word, WordOf, EncFields, OffsetOf, To;
    var r := AnnotationSetRefRecord(items);
    WordAt(r, 0, |r|, offs);
    WordIs(|items|, offs);
    forall i | 0 <= i < |items|
      ensures Word(EncRecord(r, offs), i + 1) == OffsetOf(offs, To(AnnotationSets, items[i]))
    {
      WordAt(r, i + 1, |r|, offs);
      OffsetIs(To(AnnotationSets, items[i]), offs);
    }
  }

  lemma {:induction false} SetRefsLoad(ir: Ir, offs: Offsets, file: seq<byte>, k: nat)
    requires Holding(ir, offs, file) && FitsItems(ir) && k < |ir.annotationSetRefs|
    ensures Where(offs, AnnotationSetRefs, k) > 0
    ensures LoadSetRefs(file, PoolsOf(ir), Where(offs, AnnotationSetRefs, k)) == Some(RefsAt(ir, k))
  {
    hide RecordsOf, AnnotationSetRefRecord, EncRecord, From, OffsetOf, Closed, Small, Lies, FitsCode,
         Debug.StreamSize, Word, LoadSet, AllSome, PoolsOf, SetOrNot, IfAny, To;
    var items := ir.annotationSetRefs[k];
    RefsRecords(ir);
    SetRecords(ir);
    var rest := Lands(ir, offs, file, AnnotationSetRefs, k);
    var bs := EncRecord(AnnotationSetRefRecord(items), offs);
    SetRefsRead(items, offs);
    WordOn(bs, rest, 0);
    forall j | 0 <= j < |items| ensures LoadSetRef(file, PoolsOf(ir), bs + rest, j) == Some(SetOrNot(ir, items[j])) {
      RefField(items, j);
      InRange(ir, AnnotationSetRefs, k, j + 1);
      ToIndex(AnnotationSets, items[j]);
      WordOn(bs, rest, j + 1);
      OptSet(ir, offs, file, items[j]);
    }
    var r := LoadSetRefs(file, PoolsOf(ir), Where(offs, AnnotationSetRefs, k));
    assert r.Some?;
    assert r.value == RefsAt(ir, k);
  }

  // ---- directories

  lemma DirectoryRecords(ir: Ir)
    ensures |RecordsOf(ir, AnnotationsDirectories)| == |ir.directories|
    ensures forall i :: 0 <= i < |ir.directories| ==>
            RecordsOf(ir, AnnotationsDirectories)[i] == DirectoryRecord(ir.directories[i])
  {
    hide DirectoryRecord;
  }

  /** The sets of a directory of a closed IR are there. */
  ghost predicate InSets(ms: seq<MemberAnnotation>, n: nat) {
    forall i :: 0 <= i < |ms| ==> ms[i].annotations < n
  }

  lemma {:induction false} PairsInRange(ir: Ir, k: nat, w: nat, ms: seq<MemberAnnotation>, kind: Kind)
    requires Closed(ir) && k < |ir.directories|
    requires w + 2 * |ms| <= |DirectoryRecord(ir.directories[k])|
    requires DirectoryRecord(ir.directories[k])[w..w + 2 * |ms|] == MemberAnnotationFields(ms, kind)
    ensures InSets(ms, |RecordsOf(ir, kind)|)
  {
    hide RecordsOf, DirectoryRecord, Closed, U32;
    DirectoryRecords(ir);
    var r := DirectoryRecord(ir.directories[k]);
    forall i | 0 <= i < |ms| ensures ms[i].annotations < |RecordsOf(ir, kind)| {
      assert r[w..w + 2 * |ms|][2 * i + 1] == r[w + 2 * i + 1];
      assert MemberAnnotationFields(ms, kind)[2 * i + 1] == Off32(Some(Ref(kind, ms[i].annotations)));
      InRange(ir, AnnotationsDirectories, k, w + 2 * i + 1);
    }
  }

  lemma {:induction false} DirectoryInRange(ir: Ir, k: nat)
    requires Closed(ir) && k < |ir.directories|
    ensures var x := ir.directories[k];
            && (x.classAnnotation.Some? ==> x.classAnnotation.value < |ir.annotationSets|)
            && InSets(x.fields, |ir.annotationSets|) && InSets(x.methods, |ir.annotationSets|)
            && InSets(x.parameters, |ir.annotationSetRefs|)
  {
    hide RecordsOf, DirectoryRecord, MemberAnnotationFields, Closed, InSets, U32;
    var x := ir.directories[k];
    DirectoryRecords(ir);
    SetRecords(ir);
    RefsRecords(ir);
    DirectoryParts(x);
    InRange(ir, AnnotationsDirectories, k, 0);
    PairsInRange(ir, k, 4, x.fields, AnnotationSets);
    PairsInRange(ir, k, 4 + 2 * |x.fields|, x.methods, AnnotationSets);
    PairsInRange(ir, k, 4 + 2 * |x.fields| + 2 * |x.methods|, x.parameters, AnnotationSetRefs);
  }

  ghost predicate PairsAt(bs: seq<byte>, w: nat, ms: seq<MemberAnnotation>, kind: Kind, offs: Offsets) {
    forall i: nat :: PairAt(bs, w, ms, kind, i, offs)
  }

  lemma {:induction false} MembersLoad(ir: Ir, offs: Offsets, file: seq<byte>, bs: seq<byte>, w: nat,
                                       ms: seq<MemberAnnotation>)
    requires Holding(ir, offs, file) && FitsItems(ir) && InSets(ms, |ir.annotationSets|)
    requires PairsAt(bs, w, ms, AnnotationSets, offs)
    ensures LoadMembers(file, PoolsOf(ir), bs, w, |ms|) == Some(MembersAnnotated(ir, ms))
  {
    hide Holding, FitsItems, LoadSet, SetAt, AllSome, Word;
    forall i | 0 <= i < |ms|
      ensures LoadMember(file, PoolsOf(ir), bs, w, i) == Some(MemberTree(ms[i].member, SetAt(ir, ms[i].annotations)))
    {
      assert PairAt(bs, w, ms, AnnotationSets, i, offs);
      SetLoads(ir, offs, file, ms[i].annotations);
    }
    hide LoadMember;
    var r := LoadMembers(file, PoolsOf(ir), bs, w, |ms|);
    assert r.Some?;
    assert r.value == MembersAnnotated(ir, ms);
  }

  lemma {:induction false} ParametersLoad(ir: Ir, offs: Offsets, file: seq<byte>, bs: seq<byte>, w: nat,
                                          ms: seq<MemberAnnotation>)
    requires Holding(ir, offs, file) && FitsItems(ir) && InSets(ms, |ir.annotationSetRefs|)
    requires PairsAt(bs, w, ms, AnnotationSetRefs, offs)
    ensures LoadParameters(file, PoolsOf(ir), bs, w, |ms|) == Some(ParametersAnnotated(ir, ms))
  {
    hide Holding, FitsItems, LoadSetRefs, RefsAt, AllSome, Word;
    forall i | 0 <= i < |ms|
      ensures LoadParameter(file, PoolsOf(ir), bs, w, i)
            == Some(ParametersTree(ms[i].member, RefsAt(ir, ms[i].annotations)))
    {
      assert PairAt(bs, w, ms, AnnotationSetRefs, i, offs);
      SetRefsLoad(ir, offs, file, ms[i].annotations);
    }
    hide LoadParameter;
    var r := LoadParameters(file, PoolsOf(ir), bs, w, |ms|);
    assert r.Some?;
    assert r.value == ParametersAnnotated(ir, ms);
  }

  /** The words of a directory, with whatever follows it. */
  ghost predicate DirectoryAt(x: Directory, bs: seq<byte>, offs: Offsets) {
    && |bs| >= 16 + 8 * (|x.fields| + |x.methods| + |x.parameters|)
    && Word(bs, 0) == OffsetOf(offs, To(AnnotationSets, x.classAnnotation))
    && Word(bs, 1) == |x.fields| && Word(bs, 2) == |x.methods| && Word(bs, 3) == |x.parameters|
    && PairsAt(bs, 4, x.fields, AnnotationSets, offs)
    && PairsAt(bs, 4 + 2 * |x.fields|, x.methods, AnnotationSets, offs)
    && PairsAt(bs, 4 + 2 * |x.fields| + 2 * |x.methods|, x.parameters, AnnotationSetRefs, offs)
  }

  lemma PairOn(bs: seq<byte>, rest: seq<byte>, w: nat, ms: seq<MemberAnnotation>, kind: Kind, i: nat, offs: Offsets)
    requires 4 * (w + 2 * |ms|) <= |bs| && PairAt(bs, w, ms, kind, i, offs)
    ensures PairAt(bs + rest, w, ms, kind, i, offs)
  {
    hide Word, OffsetOf;
    if i < |ms| {
      WordOn(bs, rest, w + 2 * i);
      WordOn(bs, rest, w + 2 * i + 1);
    }
  }

  lemma {:induction false} DirectoryOn(x: Directory, offs: Offsets, rest: seq<byte>)
    requires FitsDirectory(x) && Small(offs)
    ensures DirectoryAt(x, EncRecord(DirectoryRecord(x), offs) + rest, offs)
  {
    hide DirectoryRecord, EncFields, PairAt, Word, OffsetOf, To, Small, AreWords;
    var r := DirectoryRecord(x);
    var bs := EncRecord(r, offs);
    DirectoryWords(x);
    DirectoryParts(x);
    WordsLength(r, |r|, offs);
    DirectoryReads(x, 0, offs);
    WordOn(bs, rest, 0);
    WordOn(bs, rest, 1);
    WordOn(bs, rest, 2);
    WordOn(bs, rest, 3);
    var (a, b) := (4 + 2 * |x.fields|, 4 + 2 * |x.fields| + 2 * |x.methods|);
    forall i: nat
      ensures PairAt(bs + rest, 4, x.fields, AnnotationSets, i, offs)
      ensures PairAt(bs + rest, a, x.methods, AnnotationSets, i, offs)
      ensures PairAt(bs + rest, b, x.parameters, AnnotationSetRefs, i, offs)
    {
      DirectoryReads(x, i, offs);
      PairOn(bs, rest, 4, x.fields, AnnotationSets, i, offs);
      PairOn(bs, rest, a, x.methods, AnnotationSets, i, offs);
      PairOn(bs, rest, b, x.parameters, AnnotationSetRefs, i, offs);
    }
  }

  lemma {:induction false} DirectoryLoads(ir: Ir, offs: Offsets, file: seq<byte>, k: nat)
    requires Holding(ir, offs, file) && FitsItems(ir) && k < |ir.directories|
    ensures Where(offs, AnnotationsDirectories, k) > 0
    ensures LoadDirectory(file, PoolsOf(ir), Where(offs, AnnotationsDirectories, k))
          == Some(DirectoryOf(ir, ir.directories[k]))
  {
    hide RecordsOf, DirectoryRecord, EncRecord, From, OffsetOf, Where, Closed, Small, Lies, FitsCode,
         Debug.StreamSize, Word, IfAny, To, LoadSet, LoadMembers, LoadParameters, MembersAnnotated,
         ParametersAnnotated, SetOrNot, InSets, PairsAt, PoolsOf, FitsDirectory;
    var x := ir.directories[k];
    DirectoryRecords(ir);
    var rest := Lands(ir, offs, file, AnnotationsDirectories, k);
    var bs := EncRecord(DirectoryRecord(x), offs) + rest;
    DirectoryOn(x, offs, rest);
    DirectoryInRange(ir, k);
    OptSet(ir, offs, file, x.classAnnotation);
    MembersLoad(ir, offs, file, bs, 4, x.fields);
    MembersLoad(ir, offs, file, bs, 4 + 2 * |x.fields|, x.methods);
    ParametersLoad(ir, offs, file, bs, 4 + 2 * |x.fields| + 2 * |x.methods|, x.parameters);
  }

  // ---- classes

  lemma ClassRecords(ir: Ir)
    ensures |RecordsOf(ir, ClassDefs)| == |ir.classDefs|
    ensures forall i :: 0 <= i < |ir.classDefs| ==> RecordsOf(ir, ClassDefs)[i] == ClassDefRecord(ir.classDefs[i])
  {
    hide ClassDefRecord;
  }

  lemma ClassFields(d: ClassDef)
    ensures |ClassDefRecord(d)| == 8
    ensures ClassDefRecord(d)[3] == Off32(To(TypeLists, d.interfaces))
    ensures ClassDefRecord(d)[5] == Off32(To(AnnotationsDirectories, d.annotations))
    ensures ClassDefRecord(d)[6] == Off32(To(ClassDatas, d.classData))
    ensures ClassDefRecord(d)[7] == Off32(To(EncodedArrays, d.staticValues))
  {
    hide U32;
  }

  lemma {:induction false} ClassInRange(ir: Ir, k: nat)
    requires Closed(ir) && k < |ir.classDefs|
    ensures var d := ir.classDefs[k];
            && (d.interfaces.Some? ==> d.interfaces.value < |ir.typeLists|)
            && (d.annotations.Some? ==> d.annotations.value < |ir.directories|)
            && (d.classData.Some? ==> d.classData.value < |ir.classDatas|)
            && (d.staticValues.Some? ==> d.staticValues.value < |ir.encodedArrays|)
  {
    hide RecordsOf, ClassDefRecord, Closed;
    ClassRecords(ir);
    ClassFields(ir.classDefs[k]);
    TypeListRecords(ir);
    DirectoryRecords(ir);
    ClassDataRecords(ir);
    ArrayRecords(ir);
    InRange(ir, ClassDefs, k, 3);
    InRange(ir, ClassDefs, k, 5);
    InRange(ir, ClassDefs, k, 6);
    InRange(ir, ClassDefs, k, 7);
  }

  lemma OptDirectory(ir: Ir, offs: Offsets, file: seq<byte>, x: Option<nat>)
    requires Holding(ir, offs, file) && FitsItems(ir) && (x.Some? ==> x.value < |ir.directories|)
    ensures var o := OffsetOf(offs, To(AnnotationsDirectories, x));
            IfAny(o, LoadDirectory(file, PoolsOf(ir), o))
            == Some(if x.None? then None else Some(DirectoryOf(ir, ir.directories[x.value])))
  {
    hide Holding, FitsItems, LoadDirectory, OffsetOf, DirectoryOf;
    NullOffset(offs);
    if x.Some? {
      DirectoryLoads(ir, offs, file, x.value);
    }
  }

  lemma OptClassData(ir: Ir, offs: Offsets, file: seq<byte>, x: Option<nat>)
    requires Holding(ir, offs, file) && FitsItems(ir) && (x.Some? ==> x.value < |ir.classDatas|)
    ensures var o := OffsetOf(offs, To(ClassDatas, x));
            IfAny(o, LoadClassData(file, o)) == Some(if x.None? then None else Some(DataOf(ir, ir.classDatas[x.value])))
  {
    hide Holding, FitsItems, LoadClassData, OffsetOf, DataOf;
    NullOffset(offs);
    if x.Some? {
      ClassDataLoads(ir, offs, file, x.value);
    }
  }

  lemma OptArray(ir: Ir, offs: Offsets, file: seq<byte>, x: Option<nat>)
    requires Holding(ir, offs, file) && FitsItems(ir) && (x.Some? ==> x.value < |ir.encodedArrays|)
    ensures var o := OffsetOf(offs, To(EncodedArrays, x));
            IfAny(o, LoadArray(file, PoolsOf(ir), o)) == Some(Get(ir.encodedArrays, x))
  {
    hide Holding, FitsItems, LoadArray, OffsetOf;
    NullOffset(offs);
    if x.Some? {
      ArrayLoads(ir, offs, file, x.value);
    }
  }

  /** The words of a class definition, with whatever follows it. */
  ghost predicate ClassAt(d: ClassDef, bs: seq<byte>, offs: Offsets) {
    && |bs| >= 32
    && Word(bs, 0) == d.classType && Word(bs, 1) == d.accessFlags && Word(bs, 2) == IndexOr(d.superclass)
    && Word(bs, 3) == OffsetOf(offs, To(TypeLists, d.interfaces)) && Word(bs, 4) == IndexOr(d.sourceFile)
    && Word(bs, 5) == OffsetOf(offs, To(AnnotationsDirectories, d.annotations))
    && Word(bs, 6) == OffsetOf(offs, To(ClassDatas, d.classData))
    && Word(bs, 7) == OffsetOf(offs, To(EncodedArrays, d.staticValues))
  }

  lemma {:induction false} ClassOn(d: ClassDef, offs: Offsets, rest: seq<byte>)
    requires FitsClass(d) && Small(offs)
    ensures ClassAt(d, EncRecord(ClassDefRecord(d), offs) + rest, offs)
  {
    hide ClassDefRecord, EncRecord, Word, OffsetOf, To, Small;
    ClassDefReads(d, offs);
    var bs := EncRecord(ClassDefRecord(d), offs);
    forall j: nat | j < 8 ensures Word(bs + rest, j) == Word(bs, j) { WordOn(bs, rest, j); }
  }

  lemma IndexBack(x: Option<nat>)
    requires x.Some? ==> x.value < NO_INDEX
    ensures IndexOrNone(IndexOr(x)) == x
  {
  }

  lemma {:induction false} ClassLoads(ir: Ir, offs: Offsets, file: seq<byte>, k: nat)
    requires Holding(ir, offs, file) && FitsIds(ir) && FitsItems(ir) && k < |ir.classDefs|
    ensures LoadClass(file, PoolsOf(ir), Where(offs, ClassDefs, k)) == Some(ClassOf(ir, ir.classDefs[k]))
  {
    hide RecordsOf, ClassDefRecord, EncRecord, From, OffsetOf, Where, Closed, Small, Lies, FitsItems, Word, IfAny, To,
         IndexOr, IndexOrNone, LoadTypeList, LoadDirectory, LoadClassData, LoadArray, DirectoryOf, DataOf, PoolsOf;
    var d := ir.classDefs[k];
    ClassRecords(ir);
    var rest := Lands(ir, offs, file, ClassDefs, k);
    assert FitsClass(d);
    ClassOn(d, offs, rest);
    ClassInRange(ir, k);
    IndexBack(d.superclass);
    IndexBack(d.sourceFile);
    OptTypeList(ir, offs, file, d.interfaces);
    OptDirectory(ir, offs, file, d.annotations);
    OptClassData(ir, offs, file, d.classData);
    OptArray(ir, offs, file, d.staticValues);
  }
}
