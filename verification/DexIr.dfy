/**
 The IR of a dex file, each item type with the record the writer makes of it.
 References between items are positions in the owning vectors.
 */
module DexIr {
  import opened Bytes
  import opened Leb128
  import opened ByteStream
  import opened SectionWriter
  import opened CodeItems
  import EV = EncodedValues
  import HA = HiddenApi

  const NO_INDEX := 0xFFFF_FFFF

  datatype StringId = StringId(data: nat)
  datatype TypeId = TypeId(descriptor: nat)
  datatype ProtoId = ProtoId(shorty: nat, returnType: nat, parameters: Option<nat>)
  datatype FieldId = FieldId(klass: nat, typ: nat, name: nat)
  datatype MethodId = MethodId(klass: nat, proto: nat, name: nat)
  datatype ClassDef = ClassDef(
    classType: nat, accessFlags: nat, superclass: Option<nat>, interfaces: Option<nat>, sourceFile: Option<nat>,
    annotations: Option<nat>, classData: Option<nat>, staticValues: Option<nat>)
  datatype CallSiteId = CallSiteId(item: nat)
  datatype MethodHandle = MethodHandle(handleType: nat, fieldOrMethod: nat)
  datatype Annotation = AnnotationItem(visibility: byte, typeIndex: nat, elements: seq<EV.Element>)
  datatype MemberAnnotation = MemberAnnotation(member: nat, annotations: nat)
  datatype Directory = Directory(
    classAnnotation: Option<nat>, fields: seq<MemberAnnotation>, methods: seq<MemberAnnotation>,
    parameters: seq<MemberAnnotation>)
  datatype FieldItem = FieldItem(index: nat, accessFlags: nat)
  datatype MethodItem = MethodItem(index: nat, accessFlags: nat, code: Option<nat>)
  datatype ClassData = ClassData(
    staticFields: seq<FieldItem>, instanceFields: seq<FieldItem>,
    directMethods: seq<MethodItem>, virtualMethods: seq<MethodItem>)
  datatype StringData = StringData(utf16Length: nat, bytes: seq<byte>)

  datatype Items = Items(
    stringIds: seq<StringId>, typeIds: seq<TypeId>, protoIds: seq<ProtoId>, fieldIds: seq<FieldId>,
    methodIds: seq<MethodId>, classDefs: seq<ClassDef>, callSiteIds: seq<CallSiteId>, methodHandles: seq<MethodHandle>,
    codeItems: seq<CodeItem>, debugInfos: seq<seq<byte>>, encodedArrays: seq<seq<EV.Value>>,
    annotations: seq<Annotation>, annotationSets: seq<seq<nat>>, annotationSetRefs: seq<seq<Option<nat>>>,
    directories: seq<Directory>, typeLists: seq<seq<nat>>, classDatas: seq<ClassData>, stringDatas: seq<StringData>,
    hiddenapi: seq<Option<HA.Flags>>)

  // ---- the hidden API flags

  function Numbers(first: nat, n: nat): (xs: seq<nat>)
    ensures |xs| == n && forall i :: 0 <= i < n ==> xs[i] == first + i
  {
    seq(n, i => first + i)
  }

  /** The members of a class, known by their place in the class data. */
  function MembersOf(x: ClassData): (m: HA.Members) {
    var a := |x.staticFields|;
    var b := a + |x.instanceFields|;
    var c := b + |x.directMethods|;
    HA.Members(Numbers(0, a), Numbers(a, |x.instanceFields|), Numbers(b, |x.directMethods|),
               Numbers(c, |x.virtualMethods|))
  }

  function ClassDataOf(x: Items, d: ClassDef): (r: Option<ClassData>) {
    if d.classData.None? || d.classData.value >= |x.classDatas| then None else Some(x.classDatas[d.classData.value])
  }

  function HiddenClass(x: Items, i: nat): (c: HA.Class)
    requires i < |x.hiddenapi| && i < |x.classDefs|
  {
    var data := ClassDataOf(x, x.classDefs[i]);
    HA.Class(if data.None? then None else Some(MembersOf(data.value)), x.hiddenapi[i])
  }

  /** There are no hidden API items or there is one for each class definition, with flags for
      the members of its class data if it has any flags. */
  ghost predicate HiddenapiFits(x: Items) {
    && (x.hiddenapi == [] || |x.hiddenapi| == |x.classDefs|)
    && forall i :: 0 <= i < |x.hiddenapi| ==> HA.ValidClass(HiddenClass(x, i))
  }

  type Ir = x: Items | HiddenapiFits(x)
    witness Items([], [], [], [], [], [], [], [], [], [], [], [], [], [], [], [], [], [], [])

  function HiddenClasses(ir: Ir): (cs: HA.Classes) {
    seq(|ir.hiddenapi|, i requires 0 <= i < |ir.hiddenapi| => HiddenClass(ir, i))
  }

  // ---- records

  function To(kind: Kind, i: Option<nat>): (r: Option<Ref>) {
    if i.None? then None else Some(Ref(kind, i.value))
  }

  function IndexOr(i: Option<nat>): (n: nat) { if i.None? then NO_INDEX else i.value }

  function StringIdRecord(x: StringId): (r: Record) { [Off32(Some(Ref(StringDatas, x.data)))] }

  function TypeIdRecord(x: TypeId): (r: Record) { [Raw(U32(x.descriptor))] }

  function ProtoIdRecord(x: ProtoId): (r: Record) {
    [Raw(U32(x.shorty)), Raw(U32(x.returnType)), Off32(To(TypeLists, x.parameters))]
  }

  /** A field or method id: class, then type or prototype, then the name in two halves. */
  function MemberIdRecord(klass: nat, second: nat, name: nat): (r: Record) {
    [Raw(U16(klass)), Raw(U16(second)), Raw(U16(name)), Raw(U16(name / TWO_TO_THE_16))]
  }

  function ClassDefRecord(x: ClassDef): (r: Record) {
    [ Raw(U32(x.classType)), Raw(U32(x.accessFlags)), Raw(U32(IndexOr(x.superclass))),
      Off32(To(TypeLists, x.interfaces)), Raw(U32(IndexOr(x.sourceFile))),
      Off32(To(AnnotationsDirectories, x.annotations)), Off32(To(ClassDatas, x.classData)),
      Off32(To(EncodedArrays, x.staticValues)) ]
  }

  function CallSiteIdRecord(x: CallSiteId): (r: Record) { [Off32(Some(Ref(EncodedArrays, x.item)))] }

  function MethodHandleRecord(x: MethodHandle): (r: Record) {
    [Raw(U16(x.handleType)), Raw(U16(0)), Raw(U16(x.fieldOrMethod)), Raw(U16(0))]
  }

  function EncodedArrayRecord(values: seq<EV.Value>): (r: Record) {
    [Raw(Uleb(|values| % TWO_TO_THE_32)), Raw(EV.EncAll(values))]
  }

  function AnnotationRecord(x: Annotation): (r: Record) {
    [ Raw([x.visibility]), Raw(Uleb(x.typeIndex % TWO_TO_THE_32)),
      Raw(Uleb(|x.elements| % TWO_TO_THE_32)), Raw(EV.EncElements(x.elements)) ]
  }

  function AnnotationSetRecord(items: seq<nat>): (r: Record) {
    [Raw(U32(|items|))] + seq(|items|, i requires 0 <= i < |items| => Off32(Some(Ref(Annotations, items[i]))))
  }

  function AnnotationSetRefRecord(items: seq<Option<nat>>): (r: Record) {
    [Raw(U32(|items|))] + seq(|items|, i requires 0 <= i < |items| => Off32(To(AnnotationSets, items[i])))
  }

  /** A list of member annotations: the member's index and an offset, for each. */
  function MemberAnnotationFields(ms: seq<MemberAnnotation>, kind: Kind): (r: Record) {
    seq(2 * |ms|, i requires 0 <= i < 2 * |ms| =>
          if i % 2 == 0 then Raw(U32(ms[i / 2].member)) else Off32(Some(Ref(kind, ms[i / 2].annotations))))
  }

  function DirectoryRecord(x: Directory): (r: Record) {
    [ Off32(To(AnnotationSets, x.classAnnotation)), Raw(U32(|x.fields|)), Raw(U32(|x.methods|)),
      Raw(U32(|x.parameters|)) ]
    + MemberAnnotationFields(x.fields, AnnotationSets)
    + MemberAnnotationFields(x.methods, AnnotationSets)
    + MemberAnnotationFields(x.parameters, AnnotationSetRefs)
  }

  function TypeListRecord(types: seq<nat>): (r: Record) {
    [Raw(U32(|types|))] + seq(|types|, i requires 0 <= i < |types| => Raw(U16(types[i])))
  }

  /** The difference of an index from the one before it, in 32-bit arithmetic. */
  function Delta(index: nat, previous: nat): (d: nat) { (index - previous) % TWO_TO_THE_32 }

  function FieldItemsFields(fs: seq<FieldItem>, previous: nat): (r: Record) {
    if fs == [] then []
    else [Raw(Uleb(Delta(fs[0].index, previous))), Raw(Uleb(fs[0].accessFlags % TWO_TO_THE_32))]
         + FieldItemsFields(fs[1..], fs[0].index)
  }

  function MethodItemsFields(ms: seq<MethodItem>, previous: nat): (r: Record) {
    if ms == [] then []
    else [ Raw(Uleb(Delta(ms[0].index, previous))), Raw(Uleb(ms[0].accessFlags % TWO_TO_THE_32)),
           OffUleb(To(CodeItems, ms[0].code)) ]
         + MethodItemsFields(ms[1..], ms[0].index)
  }

  function ClassDataRecord(x: ClassData): (r: Record) {
    [ Raw(Uleb(|x.staticFields| % TWO_TO_THE_32)), Raw(Uleb(|x.instanceFields| % TWO_TO_THE_32)),
      Raw(Uleb(|x.directMethods| % TWO_TO_THE_32)), Raw(Uleb(|x.virtualMethods| % TWO_TO_THE_32)) ]
    + FieldItemsFields(x.staticFields, 0) + FieldItemsFields(x.instanceFields, 0)
    + MethodItemsFields(x.directMethods, 0) + MethodItemsFields(x.virtualMethods, 0)
  }

  /** Modified UTF-8 with its length in front; the terminating zero is skipped over. */
  function StringDataRecord(x: StringData): (r: Record) {
    [Raw(Uleb(x.utf16Length % TWO_TO_THE_32)), Raw(x.bytes), Raw([0])]
  }

  /** One item for all the classes, if there is any. */
  function HiddenapiRecords(cs: HA.Classes): (rs: seq<Record>) {
    if cs == [] then [] else [[Raw(HA.SectionBytes(cs))]]
  }

  // ---- sections

  /** SectionAlignment, and the eight byte boundary at which the data sections start. */
  function AlignmentOf(kind: Kind): (a: Alignment) {
    match kind
    case ClassDatas => 1
    case StringDatas => 1
    case DebugInfos => 1
    case Annotations => 1
    case EncodedArrays => 1
    case DataStart => 8
    case _ => 4
  }

  function RecordsOf(ir: Ir, kind: Kind): (rs: seq<Record>) {
    match kind
    case StringIds => Each(ir.stringIds, StringIdRecord)
    case TypeIds => Each(ir.typeIds, TypeIdRecord)
    case ProtoIds => Each(ir.protoIds, ProtoIdRecord)
    case FieldIds => Each(ir.fieldIds, (x: FieldId) => MemberIdRecord(x.klass, x.typ, x.name))
    case MethodIds => Each(ir.methodIds, (x: MethodId) => MemberIdRecord(x.klass, x.proto, x.name))
    case ClassDefs => Each(ir.classDefs, ClassDefRecord)
    case CallSiteIds => Each(ir.callSiteIds, CallSiteIdRecord)
    case MethodHandles => Each(ir.methodHandles, MethodHandleRecord)
    case DataStart => [[]]
    case CodeItems => Each(ir.codeItems, CodeRecord)
    case DebugInfos => Each(ir.debugInfos, (x: seq<byte>) => [Raw(x)])
    case EncodedArrays => Each(ir.encodedArrays, EncodedArrayRecord)
    case Annotations => Each(ir.annotations, AnnotationRecord)
    case AnnotationSets => Each(ir.annotationSets, AnnotationSetRecord)
    case AnnotationSetRefs => Each(ir.annotationSetRefs, AnnotationSetRefRecord)
    case AnnotationsDirectories => Each(ir.directories, DirectoryRecord)
    case TypeLists => Each(ir.typeLists, TypeListRecord)
    case ClassDatas => Each(ir.classDatas, ClassDataRecord)
    case StringDatas => Each(ir.stringDatas, StringDataRecord)
    case HiddenapiData => HiddenapiRecords(HiddenClasses(ir))
  }

  function Each<T>(xs: seq<T>, f: T -> Record): (rs: seq<Record>)
    ensures |rs| == |xs| && forall i :: 0 <= i < |xs| ==> rs[i] == f(xs[i])
  {
    seq(|xs|, i requires 0 <= i < |xs| => f(xs[i]))
  }

  function SectionOf(ir: Ir, kind: Kind): (s: Section) {
    Section(kind, AlignmentOf(kind), RecordsOf(ir, kind))
  }

  /** The order of the sections in the file, which is the order Write starts them in. */
  const FILE_ORDER: seq<Kind> := [
    StringIds, TypeIds, ProtoIds, FieldIds, MethodIds, ClassDefs, CallSiteIds, MethodHandles, DataStart,
    CodeItems, DebugInfos, EncodedArrays, Annotations, AnnotationSets, AnnotationSetRefs, AnnotationsDirectories,
    TypeLists, ClassDatas, StringDatas, HiddenapiData ]

  function Rank(kind: Kind): (n: nat)
    ensures n < |FILE_ORDER| && FILE_ORDER[n] == kind
  {
    match kind
    case StringIds => 0 case TypeIds => 1 case ProtoIds => 2 case FieldIds => 3 case MethodIds => 4
    case ClassDefs => 5 case CallSiteIds => 6 case MethodHandles => 7 case DataStart => 8
    case CodeItems => 9 case DebugInfos => 10 case EncodedArrays => 11 case Annotations => 12
    case AnnotationSets => 13 case AnnotationSetRefs => 14 case AnnotationsDirectories => 15
    case TypeLists => 16 case ClassDatas => 17 case StringDatas => 18 case HiddenapiData => 19
  }

  lemma RankOf(k: nat)
    requires k < |FILE_ORDER|
    ensures Rank(FILE_ORDER[k]) == k
  {
  }

  /** Sections that can only be written once later sections have their offsets. */
  predicate Delayed(kind: Kind) {
    kind == StringIds || kind == ProtoIds || kind == ClassDefs || kind == CallSiteIds || kind == CodeItems
  }

  /** Every reference in the IR is to an item that the IR owns, and the handlers of the code can be encoded. */
  ghost predicate Closed(ir: Ir) {
    && (forall kind, i, j :: 0 <= i < |RecordsOf(ir, kind)| && 0 <= j < |RecordsOf(ir, kind)[i]| ==>
          InIr(ir, RecordsOf(ir, kind)[i][j]))
    && (forall i :: 0 <= i < |ir.codeItems| ==> ValidCode(ir.codeItems[i]))
  }

  ghost predicate InIr(ir: Ir, f: Field) {
    !f.Raw? && f.ref.Some? ==> f.ref.value.index < |RecordsOf(ir, f.ref.value.kind)|
  }

  /** Which sections the records of a section refer to. */
  predicate Target(kind: Kind, to: Kind) {
    match kind
    case StringIds => to == StringDatas
    case ProtoIds => to == TypeLists
    case ClassDefs => to == TypeLists || to == AnnotationsDirectories || to == ClassDatas || to == EncodedArrays
    case CallSiteIds => to == EncodedArrays
    case CodeItems => to == DebugInfos
    case AnnotationSets => to == Annotations
    case AnnotationSetRefs => to == AnnotationSets
    case AnnotationsDirectories => to == AnnotationSets || to == AnnotationSetRefs
    case ClassDatas => to == CodeItems
    case _ => false
  }

  ghost predicate Targets(kind: Kind, f: Field) {
    !f.Raw? && f.ref.Some? ==> Target(kind, f.ref.value.kind)
  }

  lemma DirectoryTargets(x: Directory, j: nat)
    requires j < |DirectoryRecord(x)|
    ensures Targets(AnnotationsDirectories, DirectoryRecord(x)[j]) && !DirectoryRecord(x)[j].OffUleb?
  {
    hide U32;
  }

  lemma {:induction false} FieldItemsTarget(fs: seq<FieldItem>, previous: nat, j: nat)
    requires j < |FieldItemsFields(fs, previous)|
    ensures FieldItemsFields(fs, previous)[j].Raw?
    decreases |fs|
  {
    hide Uleb, Delta;
    if j >= 2 {
      FieldItemsTarget(fs[1..], fs[0].index, j - 2);
    }
  }

  lemma {:induction false} MethodItemsTarget(ms: seq<MethodItem>, previous: nat, j: nat)
    requires j < |MethodItemsFields(ms, previous)|
    ensures Targets(ClassDatas, MethodItemsFields(ms, previous)[j])
    decreases |ms|
  {
    hide Uleb, Delta;
    if j >= 3 {
      MethodItemsTarget(ms[1..], ms[0].index, j - 3);
    }
  }

  lemma {:induction false} ClassDataTargets(x: ClassData, j: nat)
    requires j < |ClassDataRecord(x)|
    ensures Targets(ClassDatas, ClassDataRecord(x)[j])
  {
    hide Uleb, FieldItemsFields, MethodItemsFields;
    var (a, b) := (|FieldItemsFields(x.staticFields, 0)|, |FieldItemsFields(x.instanceFields, 0)|);
    var c := |MethodItemsFields(x.directMethods, 0)|;
    if 4 <= j < 4 + a {
      FieldItemsTarget(x.staticFields, 0, j - 4);
    } else if 4 + a <= j < 4 + a + b {
      FieldItemsTarget(x.instanceFields, 0, j - 4 - a);
    } else if 4 + a + b <= j < 4 + a + b + c {
      MethodItemsTarget(x.directMethods, 0, j - 4 - a - b);
    } else if 4 + a + b + c <= j {
      MethodItemsTarget(x.virtualMethods, 0, j - 4 - a - b - c);
    }
  }

  lemma ClassDefTargets(x: ClassDef, j: nat)
    requires j < |ClassDefRecord(x)|
    ensures Targets(ClassDefs, ClassDefRecord(x)[j]) && !ClassDefRecord(x)[j].OffUleb?
  {
    hide U32;
  }

  /** The records of a section refer to its targets only, and only class datas use uleb128 offsets. */
  lemma {:induction false} RecordsTarget(ir: Ir, kind: Kind, i: nat, j: nat)
    requires i < |RecordsOf(ir, kind)| && j < |RecordsOf(ir, kind)[i]|
    ensures Targets(kind, RecordsOf(ir, kind)[i][j])
    ensures RecordsOf(ir, kind)[i][j].OffUleb? ==> kind == ClassDatas
  {
    hide U16, U32, Uleb, EV.EncAll, EV.EncElements, UnitBytes, PostBytes, HeaderFields, Delta,
         DirectoryRecord, ClassDataRecord, ClassDefRecord, HA.SectionBytes, HiddenClasses;
    match kind {
      case AnnotationsDirectories => DirectoryTargets(ir.directories[i], j);
      case ClassDatas => ClassDataTargets(ir.classDatas[i], j);
      case ClassDefs => ClassDefTargets(ir.classDefs[i], j);
      case _ =>
    }
  }

  /** Sections written in their turn refer only to earlier ones; the delayed ones do not
      use uleb128 offsets, so their extent is known beforehand. */
  lemma OrderIsSound(kind: Kind, to: Kind)
    requires Target(kind, to)
    ensures !Delayed(kind) ==> Rank(to) < Rank(kind)
    ensures kind != CodeItems && Delayed(kind) ==> !Delayed(to) && Rank(to) > Rank(CodeItems)
  {
  }
}
