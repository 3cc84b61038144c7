/**
 Layout changes no more than the order of string datas, class datas and code items:
 whatever the order, the file says what it said.
 */
module LayoutMeaning {
  import opened Bytes
  import opened ByteStream
  import opened SectionWriter
  import opened CodeItems
  import opened Builder
  import opened DexIr
  import opened DexFile
  import opened DexRecords
  import opened DexTree
  import opened DexReader
  import Layout
  import ReadItems = ReadBackItems
  import ReadClasses = ReadBackClasses
  import ReadIds = ReadBackIds
  import Header = ReadBackHeader
  import ReadBack
  import Debug = DebugStream
  import HA = HiddenApi

  // ---- orders

  /** Each of n things once. */
  ghost predicate IsOrder(order: seq<nat>, n: nat) {
    |order| == n && Distinct(order) && forall i :: 0 <= i < n ==> order[i] < n
  }

  function PlaceOf(order: seq<nat>, x: nat): (i: nat)
    ensures i <= |order| && (i < |order| ==> order[i] == x) && (i == |order| ==> x !in order)
  {
    if order == [] || order[0] == x then 0 else 1 + PlaceOf(order[1..], x)
  }

  function InOrder<T>(xs: seq<T>, order: seq<nat>): (ys: seq<T>)
    requires forall i :: 0 <= i < |order| ==> order[i] < |xs|
    ensures |ys| == |order| && forall i :: 0 <= i < |order| ==> ys[i] == xs[order[i]]
  {
    seq(|order|, i requires 0 <= i < |order| => xs[order[i]])
  }

  function Placed(order: seq<nat>, x: Option<nat>): (r: Option<nat>) {
    if x.None? then None else Some(PlaceOf(order, x.value))
  }

  lemma {:induction false} PlaceRight(order: seq<nat>, n: nat, x: nat)
    requires IsOrder(order, n)
    ensures x < n ==> PlaceOf(order, x) < n && order[PlaceOf(order, x)] == x
    ensures x >= n ==> PlaceOf(order, x) == n
  {
    Layout.AllPlaces(order, n);
  }

  /** A reference that follows its item leads to the same item. */
  lemma GetMoved<T>(xs: seq<T>, order: seq<nat>, x: Option<nat>)
    requires IsOrder(order, |xs|)
    ensures Get(InOrder(xs, order), Placed(order, x)) == Get(xs, x)
  {
    hide PlaceOf;
    if x.Some? {
      PlaceRight(order, |xs|, x.value);
    }
  }

  /** What is left of the places of a vector when its items are put into another order. */
  lemma {:induction false} PermutedIsOrder(places: seq<nat>, n: nat)
    requires multiset(places) == multiset(Numbers(0, n))
    ensures IsOrder(places, n)
  {
    var all := Numbers(0, n);
    assert |places| == |multiset(places)| == |multiset(all)| == n;
    forall i | 0 <= i < n ensures places[i] < n {
      assert places[i] in multiset(all);
    }
    forall i, j | 0 <= i < j < n ensures places[i] != places[j] {
      DistinctCounts(all, places[i]);
      if places[i] == places[j] {
        TwoCount(places, i, j);
      }
    }
  }

  lemma TwoCount(xs: seq<nat>, i: nat, j: nat)
    requires i < j < |xs| && xs[i] == xs[j]
    ensures multiset(xs)[xs[i]] >= 2
  {
    assert xs == xs[..i] + [xs[i]] + xs[i + 1..j] + [xs[j]] + xs[j + 1..];
  }

  // ---- the IR in another order

  datatype Orders = Orders(strings: seq<nat>, datas: seq<nat>, codes: seq<nat>)

  ghost predicate AreOrders(x: Items, o: Orders) {
    IsOrder(o.strings, |x.stringDatas|) && IsOrder(o.datas, |x.classDatas|) && IsOrder(o.codes, |x.codeItems|)
  }

  function MovedMethod(m: MethodItem, o: Orders): (r: MethodItem) { m.(code := Placed(o.codes, m.code)) }

  function MovedMethods(ms: seq<MethodItem>, o: Orders): (r: seq<MethodItem>)
    ensures |r| == |ms| && forall i :: 0 <= i < |ms| ==> r[i] == MovedMethod(ms[i], o)
  {
    seq(|ms|, i requires 0 <= i < |ms| => MovedMethod(ms[i], o))
  }

  function MovedData(x: ClassData, o: Orders): (r: ClassData) {
    x.(directMethods := MovedMethods(x.directMethods, o), virtualMethods := MovedMethods(x.virtualMethods, o))
  }

  function MovedClass(d: ClassDef, o: Orders): (r: ClassDef) { d.(classData := Placed(o.datas, d.classData)) }

  function MovedDatas(xs: seq<ClassData>, o: Orders): (r: seq<ClassData>)
    ensures |r| == |xs| && forall i :: 0 <= i < |xs| ==> r[i] == MovedData(xs[i], o)
  {
    seq(|xs|, i requires 0 <= i < |xs| => MovedData(xs[i], o))
  }

  function MovedClasses(ds: seq<ClassDef>, o: Orders): (r: seq<ClassDef>)
    ensures |r| == |ds| && forall i :: 0 <= i < |ds| ==> r[i] == MovedClass(ds[i], o)
  {
    seq(|ds|, i requires 0 <= i < |ds| => MovedClass(ds[i], o))
  }

  function MovedStrings(xs: seq<StringId>, o: Orders): (r: seq<StringId>)
    ensures |r| == |xs| && forall i :: 0 <= i < |xs| ==> r[i] == StringId(PlaceOf(o.strings, xs[i].data))
  {
    seq(|xs|, i requires 0 <= i < |xs| => StringId(PlaceOf(o.strings, xs[i].data)))
  }

  /** The vectors in their new order, and every reference with its item. */
  function MovedItems(x: Items, o: Orders): (r: Items)
    requires AreOrders(x, o)
  {
    x.(stringIds := MovedStrings(x.stringIds, o), stringDatas := InOrder(x.stringDatas, o.strings),
       classDefs := MovedClasses(x.classDefs, o), classDatas := InOrder(MovedDatas(x.classDatas, o), o.datas),
       codeItems := InOrder(x.codeItems, o.codes))
  }

  lemma ClassDataMoved(x: Items, o: Orders, d: ClassDef)
    requires AreOrders(x, o)
    ensures var data := ClassDataOf(x, d);
            ClassDataOf(MovedItems(x, o), MovedClass(d, o))
            == if data.None? then None else Some(MovedData(data.value, o))
  {
    hide MovedData, PlaceOf;
    GetMoved(MovedDatas(x.classDatas, o), o.datas, d.classData);
    if d.classData.Some? {
      PlaceRight(o.datas, |x.classDatas|, d.classData.value);
    }
  }

  lemma {:induction false} MovedFits(ir: Ir, o: Orders)
    requires AreOrders(ir, o)
    ensures HiddenapiFits(MovedItems(ir, o))
  {
    hide AreOrders, HA.ValidClass;
    var r := MovedItems(ir, o);
    forall i | 0 <= i < |r.hiddenapi| ensures HA.ValidClass(HiddenClass(r, i)) {
      ClassDataMoved(ir, o, ir.classDefs[i]);
      assert HiddenClass(r, i) == HiddenClass(ir, i);
    }
  }

  function Moved(ir: Ir, o: Orders): (r: Ir)
    requires AreOrders(ir, o)
  {
    MovedFits(ir, o);
    MovedItems(ir, o)
  }

  // ---- it says the same

  lemma {:induction false} MethodMoved(ir: Ir, o: Orders, m: MethodItem)
    requires AreOrders(ir, o)
    ensures MethodOf(Moved(ir, o), MovedMethod(m, o)) == MethodOf(ir, m)
  {
    GetMoved(ir.codeItems, o.codes, m.code);
  }

  lemma {:induction false} DataMoved(ir: Ir, o: Orders, x: ClassData)
    requires AreOrders(ir, o)
    ensures DataOf(Moved(ir, o), MovedData(x, o)) == DataOf(ir, x)
  {
    hide MethodOf, Moved, AreOrders, FieldViews;
    var r := Moved(ir, o);
    forall m: MethodItem ensures MethodOf(r, MovedMethod(m, o)) == MethodOf(ir, m) { MethodMoved(ir, o, m); }
    assert MethodsOf(r, MovedMethods(x.directMethods, o)) == MethodsOf(ir, x.directMethods);
    assert MethodsOf(r, MovedMethods(x.virtualMethods, o)) == MethodsOf(ir, x.virtualMethods);
  }

  lemma {:induction false} ClassMoved(ir: Ir, o: Orders, d: ClassDef)
    requires AreOrders(ir, o)
    ensures ClassOf(Moved(ir, o), MovedClass(d, o)) == ClassOf(ir, d)
  {
    hide DataOf;
    GetMoved(MovedDatas(ir.classDatas, o), o.datas, d.classData);
    var data := Get(ir.classDatas, d.classData);
    if data.Some? {
      DataMoved(ir, o, data.value);
    }
    var annotations := Get(ir.directories, d.annotations);
    if annotations.Some? {
      DirectorySame(ir, o, annotations.value);
    }
  }

  lemma {:induction false} SetsSame(ir: Ir, o: Orders)
    requires AreOrders(ir, o)
    ensures forall k: nat :: SetAt(Moved(ir, o), k) == SetAt(ir, k)
    ensures forall k: nat :: RefsAt(Moved(ir, o), k) == RefsAt(ir, k)
  {
    hide AreOrders;
    var r := Moved(ir, o);
    forall k: nat ensures SetAt(r, k) == SetAt(ir, k) { assert SetAt(r, k) == SetAt(ir, k); }
    forall k: nat ensures RefsAt(r, k) == RefsAt(ir, k) { assert RefsAt(r, k) == RefsAt(ir, k); }
  }

  lemma {:induction false} DirectorySame(ir: Ir, o: Orders, x: Directory)
    requires AreOrders(ir, o)
    ensures DirectoryOf(Moved(ir, o), x) == DirectoryOf(ir, x)
  {
    hide Moved, AreOrders, SetAt, RefsAt;
    SetsSame(ir, o);
    var r := Moved(ir, o);
    assert MembersAnnotated(r, x.fields) == MembersAnnotated(ir, x.fields);
    assert MembersAnnotated(r, x.methods) == MembersAnnotated(ir, x.methods);
    assert ParametersAnnotated(r, x.parameters) == ParametersAnnotated(ir, x.parameters);
  }

  lemma {:induction false} StringMoved(ir: Ir, o: Orders, x: StringId)
    requires AreOrders(ir, o)
    ensures StringAt(Moved(ir, o), StringId(PlaceOf(o.strings, x.data))) == StringAt(ir, x)
  {
    hide PlaceOf;
    PlaceRight(o.strings, |ir.stringDatas|, x.data);
  }

  /** Whatever the order, the meaning is the same. */
  lemma {:induction false} SameTree(ir: Ir, o: Orders)
    requires AreOrders(ir, o)
    ensures TreeOf(Moved(ir, o)) == TreeOf(ir)
  {
    hide AreOrders, StringAt, ClassOf, FlagsOf, PlaceOf, MovedClass;
    var r := Moved(ir, o);
    var (t, t') := (TreeOf(ir), TreeOf(r));
    forall i | 0 <= i < |ir.stringIds| ensures t'.strings[i] == t.strings[i] { StringMoved(ir, o, ir.stringIds[i]); }
    assert t'.strings == t.strings;
    forall i | 0 <= i < |ir.classDefs| ensures t'.classes[i] == t.classes[i] { ClassMoved(ir, o, ir.classDefs[i]); }
    assert t'.classes == t.classes;
    assert t'.types == t.types && t'.protos == t.protos && t'.callSites == t.callSites && t'.hiddenapi == t.hiddenapi;
  }

  // ---- it can be written as before

  lemma {:induction false} SmallMoved(x: ClassData, o: Orders)
    requires SmallClassData(x)
    ensures SmallClassData(MovedData(x, o))
  {
  }

  lemma {:induction false} FitsMoved(ir: Ir, o: Orders)
    requires AreOrders(ir, o) && Fits(ir)
    ensures Fits(Moved(ir, o))
  {
    hide SmallClassData, FitsCode, Debug.StreamSize, FitsArray, FitsAnnotation, FitsDirectory, FitsTypes, FitsString,
         FitsMemberId, MovedData, PlaceOf;
    var r := Moved(ir, o);
    forall i | 0 <= i < |r.classDatas| ensures SmallClassData(r.classDatas[i]) {
      SmallMoved(ir.classDatas[o.datas[i]], o);
    }
    assert FitsIds(r);
    assert FitsItems(r);
  }

  /** Fields with their references moved. */
  function MovedField(f: Field, o: Orders): (r: Field) {
    match f
    case OffUleb(ref) =>
      OffUleb(if ref.None? then None else Some(Ref(ref.value.kind, PlaceOf(o.codes, ref.value.index))))
    case _ => f
  }

  lemma {:induction false} MethodFieldsMoved(ms: seq<MethodItem>, previous: nat, o: Orders, j: nat)
    requires j < |MethodItemsFields(ms, previous)|
    ensures |MethodItemsFields(MovedMethods(ms, o), previous)| == |MethodItemsFields(ms, previous)|
    ensures MethodItemsFields(MovedMethods(ms, o), previous)[j] == MovedField(MethodItemsFields(ms, previous)[j], o)
    decreases |ms|
  {
    assert MovedMethods(ms, o)[1..] == MovedMethods(ms[1..], o);
    var n := |MethodItemsFields(ms[1..], ms[0].index)|;
    if n > 0 {
      MethodFieldsMoved(ms[1..], ms[0].index, o, if j >= 3 then j - 3 else 0);
    } else {
      NoFieldsNoMethods(ms[1..], ms[0].index);
    }
  }

  lemma NoFieldsNoMethods(ms: seq<MethodItem>, previous: nat)
    requires MethodItemsFields(ms, previous) == []
    ensures ms == []
  {
  }

  lemma {:induction false} MethodFieldsLength(ms: seq<MethodItem>, previous: nat, o: Orders)
    ensures |MethodItemsFields(MovedMethods(ms, o), previous)| == |MethodItemsFields(ms, previous)|
  {
    if ms != [] {
      MethodFieldsMoved(ms, previous, o, 0);
    }
  }

  lemma {:induction false} DataFieldsMoved(x: ClassData, o: Orders, j: nat)
    requires j < |ClassDataRecord(MovedData(x, o))|
    ensures j < |ClassDataRecord(x)|
    ensures !MovedField(ClassDataRecord(x)[j], o).Raw? ==>
            ClassDataRecord(MovedData(x, o))[j] == MovedField(ClassDataRecord(x)[j], o)
    ensures MovedField(ClassDataRecord(x)[j], o).Raw? ==> ClassDataRecord(MovedData(x, o))[j].Raw?
  {
    hide FieldItemsFields, MethodItemsFields, MovedField, MovedMethods;
    var (a, b) := (|FieldItemsFields(x.staticFields, 0)|, |FieldItemsFields(x.instanceFields, 0)|);
    var (c, d) := (|MethodItemsFields(x.directMethods, 0)|, |MethodItemsFields(x.virtualMethods, 0)|);
    MethodFieldsLength(x.directMethods, 0, o);
    MethodFieldsLength(x.virtualMethods, 0, o);
    if j < 4 + a + b {
      StaysRaw(ClassDataRecord(x)[j], o);
      if 4 <= j < 4 + a {
        FieldItemsTarget(x.staticFields, 0, j - 4);
      } else if 4 + a <= j {
        FieldItemsTarget(x.instanceFields, 0, j - 4 - a);
      }
    } else if j < 4 + a + b + c {
      MethodFieldsMoved(x.directMethods, 0, o, j - 4 - a - b);
    } else {
      MethodFieldsMoved(x.virtualMethods, 0, o, j - 4 - a - b - c);
    }
  }

  lemma StaysRaw(f: Field, o: Orders)
    ensures MovedField(f, o).Raw? <==> f.Raw?
  {
  }

  lemma {:induction false} SameCount(ir: Ir, o: Orders, kind: Kind)
    requires AreOrders(ir, o)
    ensures |RecordsOf(Moved(ir, o), kind)| == |RecordsOf(ir, kind)|
  {
    hide StringIdRecord, TypeIdRecord, ProtoIdRecord, MemberIdRecord, ClassDefRecord, CallSiteIdRecord,
         MethodHandleRecord, CodeRecord, EncodedArrayRecord, AnnotationRecord, AnnotationSetRecord,
         AnnotationSetRefRecord, DirectoryRecord, TypeListRecord, ClassDataRecord, StringDataRecord, HA.SectionBytes,
         MovedData, MovedClass, PlaceOf;
  }

  /** A field that refers to something of the old IR refers to something of the new one. */
  lemma StillIn(ir: Ir, o: Orders, f: Field)
    requires AreOrders(ir, o) && InIr(ir, f)
    ensures InIr(Moved(ir, o), f)
  {
    hide AreOrders, RecordsOf, Moved;
    if !f.Raw? && f.ref.Some? {
      SameCount(ir, o, f.ref.value.kind);
    }
  }

  lemma {:induction false} SameRecords(ir: Ir, o: Orders, kind: Kind)
    requires AreOrders(ir, o)
    requires kind == ProtoIds || kind == CallSiteIds || kind == AnnotationSets || kind == AnnotationSetRefs
             || kind == AnnotationsDirectories
    ensures RecordsOf(Moved(ir, o), kind) == RecordsOf(ir, kind)
  {
    hide ProtoIdRecord, CallSiteIdRecord, AnnotationSetRecord, AnnotationSetRefRecord, DirectoryRecord, AreOrders;
    var (a, b) := (RecordsOf(Moved(ir, o), kind), RecordsOf(ir, kind));
    assert |a| == |b| && forall i :: 0 <= i < |a| ==> a[i] == b[i];
  }

  lemma {:induction false} StringIdIn(ir: Ir, o: Orders, i: nat)
    requires AreOrders(ir, o) && Closed(ir) && i < |ir.stringIds|
    ensures PlaceOf(o.strings, ir.stringIds[i].data) < |ir.stringDatas|
  {
    hide RecordsOf, PlaceOf;
    ReadIds.StringIdRecords(ir);
    ReadIds.StringDataRecords(ir);
    ReadItems.InRange(ir, StringIds, i, 0);
    PlaceRight(o.strings, |ir.stringDatas|, ir.stringIds[i].data);
  }

  lemma {:induction false} ClassIn(ir: Ir, o: Orders, i: nat, j: nat)
    requires AreOrders(ir, o) && Closed(ir) && i < |ir.classDefs| && j < 8
    ensures var r := Moved(ir, o); |ClassDefRecord(r.classDefs[i])| == 8 && InIr(r, ClassDefRecord(r.classDefs[i])[j])
  {
    hide RecordsOf, PlaceOf, U32;
    var d := ir.classDefs[i];
    ReadClasses.ClassRecords(ir);
    ReadItems.InRange(ir, ClassDefs, i, j);
    if j == 6 {
      ReadClasses.ClassDataRecords(ir);
      ReadClasses.ClassDataRecords(Moved(ir, o));
      if d.classData.Some? {
        PlaceRight(o.datas, |ir.classDatas|, d.classData.value);
      }
    } else {
      StillIn(ir, o, ClassDefRecord(d)[j]);
    }
  }

  lemma {:induction false} DataIn(ir: Ir, o: Orders, i: nat, j: nat)
    requires AreOrders(ir, o) && Closed(ir) && i < |ir.classDatas|
    requires j < |ClassDataRecord(MovedData(ir.classDatas[i], o))|
    ensures InIr(Moved(ir, o), ClassDataRecord(MovedData(ir.classDatas[i], o))[j])
  {
    hide RecordsOf, PlaceOf, ClassDataRecord, MovedData, Moved;
    var x := ir.classDatas[i];
    DataFieldsMoved(x, o, j);
    ClassDataTargets(x, j);
    ReadClasses.ClassDataRecords(ir);
    ReadItems.InRange(ir, ClassDatas, i, j);
    var f := ClassDataRecord(x)[j];
    if f.OffUleb? && f.ref.Some? {
      ReadItems.CodeRecords(ir);
      SameCount(ir, o, Kind.CodeItems);
      PlaceRight(o.codes, |ir.codeItems|, f.ref.value.index);
    } else if !f.Raw? {
      StillIn(ir, o, f);
    }
  }

  lemma {:induction false} FieldIn(ir: Ir, o: Orders, kind: Kind, i: nat, j: nat)
    requires AreOrders(ir, o) && Closed(ir)
    requires i < |RecordsOf(Moved(ir, o), kind)| && j < |RecordsOf(Moved(ir, o), kind)[i]|
    ensures InIr(Moved(ir, o), RecordsOf(Moved(ir, o), kind)[i][j])
  {
    hide RecordsOf, AreOrders, Closed, InIr, PlaceOf, Target, ClassDefRecord, ClassDataRecord, CodeRecord, MovedData,
         MovedClass;
    var r := Moved(ir, o);
    SameCount(ir, o, kind);
    if kind == StringIds {
      StringsIn(ir, o, i);
    } else if kind == ClassDefs {
      ReadClasses.ClassRecords(r);
      ReadClasses.ClassRecords(ir);
      ReadClasses.ClassFields(r.classDefs[i]);
      ClassIn(ir, o, i, j);
    } else if kind == ClassDatas {
      ReadClasses.ClassDataRecords(r);
      ReadClasses.ClassDataRecords(ir);
      DatasFrom(ir, o, i);
      DataIn(ir, o, o.datas[i], j);
    } else if kind == Kind.CodeItems {
      ReadItems.CodeRecords(r);
      ReadItems.CodeRecords(ir);
      CodesFrom(ir, o, i);
      FieldIsIn(ir, kind, o.codes[i], j);
      StillIn(ir, o, RecordsOf(r, kind)[i][j]);
    } else if kind == ProtoIds || kind == CallSiteIds || kind == AnnotationSets || kind == AnnotationSetRefs
              || kind == AnnotationsDirectories {
      SameRecords(ir, o, kind);
      FieldIsIn(ir, kind, i, j);
      StillIn(ir, o, RecordsOf(r, kind)[i][j]);
    } else {
      RecordsTarget(r, kind, i, j);
      NoTargets(kind, r, RecordsOf(r, kind)[i][j]);
    }
  }

  lemma FieldIsIn(ir: Ir, kind: Kind, i: nat, j: nat)
    requires Closed(ir) && i < |RecordsOf(ir, kind)| && j < |RecordsOf(ir, kind)[i]|
    ensures InIr(ir, RecordsOf(ir, kind)[i][j])
  {
    hide RecordsOf, InIr;
  }

  lemma NoTargets(kind: Kind, ir: Ir, f: Field)
    requires Targets(kind, f) && kind != StringIds && kind != ProtoIds && kind != ClassDefs && kind != CallSiteIds
    requires kind != Kind.CodeItems && kind != AnnotationSets && kind != AnnotationSetRefs
    requires kind != AnnotationsDirectories
    requires kind != ClassDatas
    ensures InIr(ir, f)
  {
    hide RecordsOf;
  }

  lemma DatasFrom(ir: Ir, o: Orders, i: nat)
    requires AreOrders(ir, o) && i < |ir.classDatas|
    ensures o.datas[i] < |ir.classDatas| && Moved(ir, o).classDatas[i] == MovedData(ir.classDatas[o.datas[i]], o)
  {
  }

  lemma CodesFrom(ir: Ir, o: Orders, i: nat)
    requires AreOrders(ir, o) && i < |ir.codeItems|
    ensures o.codes[i] < |ir.codeItems| && Moved(ir, o).codeItems[i] == ir.codeItems[o.codes[i]]
  {
  }

  lemma {:induction false} StringsIn(ir: Ir, o: Orders, i: nat)
    requires AreOrders(ir, o) && Closed(ir) && i < |RecordsOf(Moved(ir, o), StringIds)|
    ensures var r := Moved(ir, o); |RecordsOf(r, StringIds)[i]| == 1 && InIr(r, RecordsOf(r, StringIds)[i][0])
  {
    hide RecordsOf, PlaceOf, Closed;
    ReadIds.StringIdRecords(Moved(ir, o));
    ReadIds.StringDataRecords(Moved(ir, o));
    StringIdIn(ir, o, i);
  }

  lemma {:induction false} ClosedMoved(ir: Ir, o: Orders)
    requires AreOrders(ir, o) && Closed(ir)
    ensures Closed(Moved(ir, o))
  {
    hide RecordsOf, InIr, ValidCode;
    var r := Moved(ir, o);
    forall kind: Kind, i, j | 0 <= i < |RecordsOf(r, kind)| && 0 <= j < |RecordsOf(r, kind)[i]|
      ensures InIr(r, RecordsOf(r, kind)[i][j])
    {
      FieldIn(ir, o, kind, i, j);
    }
    forall i | 0 <= i < |r.codeItems| ensures ValidCode(r.codeItems[i]) {
      CodesFrom(ir, o, i);
    }
  }

  /** The output of layout, in whatever order, reads back as what the IR said before. */
  method WriteLaidOut(section: seq<byte>, ir: Ir, o: Orders, id: Identity, link: seq<byte>) returns (file: seq<byte>)
    requires AreOrders(ir, o) && ZeroFrom(section, 0) && Closed(ir) && ValidIdentity(id)
    ensures exists offs, order :: Header.Written(Moved(ir, o), id, link, file, offs, order)
    ensures Fits(ir) && |file| < TWO_TO_THE_32 ==> ReadDex(file) == Some(TreeOf(ir))
  {
    hide Fits, TreeOf, ReadDex, AreOrders, ZeroFrom, Closed, ValidIdentity, Moved, Header.Written;
    ClosedMoved(ir, o);
    SameTree(ir, o);
    if Fits(ir) {
      FitsMoved(ir, o);
    }
    file := ReadBack.WriteFile(section, Moved(ir, o), id, link);
  }
}
