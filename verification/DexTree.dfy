/**
 What a dex file says, whatever its layout: the ids in their order and the classes
 with everything they lead to.  No offset and no position in a data section is left.
 */
module DexTree {
  import opened Bytes
  import opened SectionWriter
  import opened CatchHandlers
  import opened CatchHandlerWriter
  import opened CodeItems
  import opened DexIr
  import opened DexRecords
  import opened DexItems
  import Debug = DebugStream
  import EV = EncodedValues
  import HA = HiddenApi

  datatype TryTree = TryTree(startAddr: nat, insnCount: nat, handlers: HandlerList)

  datatype CodeTree = CodeTree(registers: nat, ins: nat, outs: nat, debugInfo: Option<seq<byte>>, insns: seq<nat>,
                               tries: seq<TryTree>, handlers: set<CatchHandler>)

  datatype MethodTree = MethodTree(index: nat, accessFlags: nat, code: Option<CodeTree>)

  datatype DataTree = DataTree(staticFields: seq<FieldView>, instanceFields: seq<FieldView>,
                               directMethods: seq<MethodTree>, virtualMethods: seq<MethodTree>)

  type SetTree = seq<DexIr.Annotation>

  datatype MemberTree = MemberTree(member: nat, annotations: SetTree)

  datatype ParametersTree = ParametersTree(member: nat, annotations: seq<Option<SetTree>>)

  datatype AnnotationsTree = AnnotationsTree(classAnnotation: Option<SetTree>, fields: seq<MemberTree>,
                                             methods: seq<MemberTree>, parameters: seq<ParametersTree>)

  datatype ClassTree = ClassTree(
    classType: nat, accessFlags: nat, superclass: Option<nat>, interfaces: Option<seq<nat>>, sourceFile: Option<nat>,
    annotations: Option<AnnotationsTree>, data: Option<DataTree>, staticValues: Option<seq<EV.Value>>)

  datatype ProtoTree = ProtoTree(shorty: nat, returnType: nat, parameters: Option<seq<nat>>)

  datatype Tree = Tree(
    strings: seq<StringData>, types: seq<nat>, protos: seq<ProtoTree>, fields: seq<FieldId>, methods: seq<MethodId>,
    classes: seq<ClassTree>, callSites: seq<seq<EV.Value>>, methodHandles: seq<MethodHandle>,
    hiddenapi: seq<Option<HA.Flags>>)

  // ---- the tree of an IR

  function Get<T>(xs: seq<T>, i: Option<nat>): (x: Option<T>) {
    if i.Some? && i.value < |xs| then Some(xs[i.value]) else None
  }

  ghost function TryOf(c: CodeItem, t: Try): (r: TryTree) {
    TryTree(t.startAddr, t.insnCount,
            if t.handler < |c.handlers| then c.handlers[t.handler].list else HandlerList(false, []))
  }

  ghost function TriesOf(c: CodeItem): (ts: seq<TryTree>) {
    seq(|c.tries|, i requires 0 <= i < |c.tries| => TryOf(c, c.tries[i]))
  }

  /** Handlers are written only where there are try items. */
  ghost function CodeOf(ir: Ir, c: CodeItem): (r: CodeTree) {
    CodeTree(c.registers, c.ins, c.outs, Get(ir.debugInfos, c.debugInfo), c.insns,
             TriesOf(c), if c.tries == [] then {} else set h | h in c.handlers)
  }

  ghost function MethodOf(ir: Ir, m: MethodItem): (r: MethodTree) {
    var code := Get(ir.codeItems, m.code);
    MethodTree(m.index, m.accessFlags, if code.None? then None else Some(CodeOf(ir, code.value)))
  }

  ghost function MethodsOf(ir: Ir, ms: seq<MethodItem>): (r: seq<MethodTree>) {
    seq(|ms|, i requires 0 <= i < |ms| => MethodOf(ir, ms[i]))
  }

  ghost function DataOf(ir: Ir, x: ClassData): (r: DataTree) {
    DataTree(FieldViews(x.staticFields), FieldViews(x.instanceFields), MethodsOf(ir, x.directMethods),
             MethodsOf(ir, x.virtualMethods))
  }

  ghost function AnnotationAt(ir: Ir, i: nat): (r: DexIr.Annotation) {
    if i < |ir.annotations| then ir.annotations[i] else AnnotationItem(0, 0, [])
  }

  ghost function SetAt(ir: Ir, k: nat): (r: SetTree) {
    if k >= |ir.annotationSets| then []
    else
      var items := ir.annotationSets[k];
      seq(|items|, i requires 0 <= i < |items| => AnnotationAt(ir, items[i]))
  }

  ghost function SetOrNot(ir: Ir, k: Option<nat>): (r: Option<SetTree>) {
    if k.None? then None else Some(SetAt(ir, k.value))
  }

  ghost function RefsAt(ir: Ir, k: nat): (r: seq<Option<SetTree>>) {
    if k >= |ir.annotationSetRefs| then []
    else
      var refs := ir.annotationSetRefs[k];
      seq(|refs|, i requires 0 <= i < |refs| => SetOrNot(ir, refs[i]))
  }

  ghost function MembersAnnotated(ir: Ir, ms: seq<MemberAnnotation>): (r: seq<MemberTree>) {
    seq(|ms|, i requires 0 <= i < |ms| => MemberTree(ms[i].member, SetAt(ir, ms[i].annotations)))
  }

  ghost function ParametersAnnotated(ir: Ir, ms: seq<MemberAnnotation>): (r: seq<ParametersTree>) {
    seq(|ms|, i requires 0 <= i < |ms| => ParametersTree(ms[i].member, RefsAt(ir, ms[i].annotations)))
  }

  ghost function DirectoryOf(ir: Ir, x: Directory): (r: AnnotationsTree) {
    AnnotationsTree(SetOrNot(ir, x.classAnnotation), MembersAnnotated(ir, x.fields), MembersAnnotated(ir, x.methods),
                    ParametersAnnotated(ir, x.parameters))
  }

  ghost function ClassOf(ir: Ir, d: ClassDef): (r: ClassTree) {
    var (annotations, data) := (Get(ir.directories, d.annotations), Get(ir.classDatas, d.classData));
    ClassTree(d.classType, d.accessFlags, d.superclass, Get(ir.typeLists, d.interfaces), d.sourceFile,
              if annotations.None? then None else Some(DirectoryOf(ir, annotations.value)),
              if data.None? then None else Some(DataOf(ir, data.value)), Get(ir.encodedArrays, d.staticValues))
  }

  ghost function ProtoOf(ir: Ir, x: ProtoId): (r: ProtoTree) {
    ProtoTree(x.shorty, x.returnType, Get(ir.typeLists, x.parameters))
  }

  /** Flags that are all zero are as good as none. */
  ghost function FlagsOf(flags: Option<HA.Flags>): (r: Option<HA.Flags>) {
    if flags.Some? && HA.NonZero(flags.value) then flags else None
  }

  ghost function StringAt(ir: Ir, x: StringId): (r: StringData) {
    if x.data < |ir.stringDatas| then ir.stringDatas[x.data] else StringData(0, [])
  }

  ghost function CallSiteOf(ir: Ir, x: CallSiteId): (r: seq<EV.Value>) {
    if x.item < |ir.encodedArrays| then ir.encodedArrays[x.item] else []
  }

  ghost function TreeOf(ir: Ir): (t: Tree) {
    Tree(seq(|ir.stringIds|, i requires 0 <= i < |ir.stringIds| => StringAt(ir, ir.stringIds[i])),
         seq(|ir.typeIds|, i requires 0 <= i < |ir.typeIds| => ir.typeIds[i].descriptor),
         seq(|ir.protoIds|, i requires 0 <= i < |ir.protoIds| => ProtoOf(ir, ir.protoIds[i])),
         ir.fieldIds, ir.methodIds,
         seq(|ir.classDefs|, i requires 0 <= i < |ir.classDefs| => ClassOf(ir, ir.classDefs[i])),
         seq(|ir.callSiteIds|, i requires 0 <= i < |ir.callSiteIds| => CallSiteOf(ir, ir.callSiteIds[i])),
         ir.methodHandles,
         seq(|ir.hiddenapi|, i requires 0 <= i < |ir.hiddenapi| => FlagsOf(ir.hiddenapi[i])))
  }

  // ---- IRs whose values fit the fields of the format

  function PoolsOf(ir: Ir): (pools: EV.Pools) {
    EV.Pools(|ir.stringIds|, |ir.typeIds|, |ir.protoIds|, |ir.fieldIds|, |ir.methodIds|, |ir.methodHandles|)
  }

  ghost predicate FitsClass(d: ClassDef) {
    && d.classType < TWO_TO_THE_32 && d.accessFlags < TWO_TO_THE_32
    && (d.superclass.Some? ==> d.superclass.value < NO_INDEX) && (d.sourceFile.Some? ==> d.sourceFile.value < NO_INDEX)
  }

  /** The handlers are the lists of a table without gaps, in any order. */
  ghost predicate FitsHandlers(hs: seq<CatchHandler>) {
    exists ls :: HoldsCanonical(hs, ls) && forall k :: 0 <= k < |ls| ==> Expressible(ls[k])
  }

  ghost predicate FitsCode(c: CodeItem) {
    SmallCode(c) && (c.tries != [] ==> FitsHandlers(c.handlers))
  }

  ghost predicate FitsMembers(ms: seq<MemberAnnotation>) {
    |ms| < TWO_TO_THE_32 && forall k :: 0 <= k < |ms| ==> ms[k].member < TWO_TO_THE_32
  }

  ghost predicate FitsDirectory(x: Directory) {
    FitsMembers(x.fields) && FitsMembers(x.methods) && FitsMembers(x.parameters)
  }

  ghost predicate FitsAnnotation(pools: EV.Pools, x: DexIr.Annotation) {
    && x.typeIndex < pools.types && x.typeIndex < TWO_TO_THE_32 && |x.elements| < TWO_TO_THE_32
    && EV.ValidElements(pools, x.elements) && EV.UnknownsInElements(x.elements) == 0
  }

  ghost predicate FitsArray(pools: EV.Pools, values: seq<EV.Value>) {
    |values| < TWO_TO_THE_32 && EV.ValidAll(pools, values) && EV.UnknownsIn(values) == 0
  }

  ghost predicate FitsTypes(types: seq<nat>) {
    |types| < TWO_TO_THE_32 && forall k :: 0 <= k < |types| ==> types[k] < TWO_TO_THE_16
  }

  ghost predicate FitsMemberId(klass: nat, second: nat, name: nat) {
    klass < TWO_TO_THE_16 && second < TWO_TO_THE_16 && name < TWO_TO_THE_32
  }

  /** A string of the format ends with the first zero byte. */
  ghost predicate FitsString(x: StringData) {
    x.utf16Length < TWO_TO_THE_32 && 0 !in x.bytes
  }

  /** Ids and strings. */
  ghost predicate FitsIds(ir: Ir) {
    && (forall i :: 0 <= i < |ir.typeIds| ==> ir.typeIds[i].descriptor < TWO_TO_THE_32)
    && (forall i :: 0 <= i < |ir.protoIds| ==>
          ir.protoIds[i].shorty < TWO_TO_THE_32 && ir.protoIds[i].returnType < TWO_TO_THE_32)
    && (forall i :: 0 <= i < |ir.fieldIds| ==>
          FitsMemberId(ir.fieldIds[i].klass, ir.fieldIds[i].typ, ir.fieldIds[i].name))
    && (forall i :: 0 <= i < |ir.methodIds| ==>
          FitsMemberId(ir.methodIds[i].klass, ir.methodIds[i].proto, ir.methodIds[i].name))
    && (forall i :: 0 <= i < |ir.classDefs| ==> FitsClass(ir.classDefs[i]))
    && (forall i :: 0 <= i < |ir.stringDatas| ==> FitsString(ir.stringDatas[i]))
    && (forall i :: 0 <= i < |ir.methodHandles| ==>
          ir.methodHandles[i].handleType < TWO_TO_THE_16 && ir.methodHandles[i].fieldOrMethod < TWO_TO_THE_16)
  }

  /** What the ids lead to.  A debug info is what the scan of its own opcodes finds it to be. */
  ghost predicate FitsItems(ir: Ir) {
    && (forall i :: 0 <= i < |ir.typeLists| ==> FitsTypes(ir.typeLists[i]))
    && (forall i :: 0 <= i < |ir.classDatas| ==> SmallClassData(ir.classDatas[i]))
    && (forall i :: 0 <= i < |ir.codeItems| ==> FitsCode(ir.codeItems[i]))
    && (forall i :: 0 <= i < |ir.debugInfos| ==> Debug.StreamSize(ir.debugInfos[i]) == Some(|ir.debugInfos[i]|))
    && (forall i :: 0 <= i < |ir.encodedArrays| ==> FitsArray(PoolsOf(ir), ir.encodedArrays[i]))
    && (forall i :: 0 <= i < |ir.annotations| ==> FitsAnnotation(PoolsOf(ir), ir.annotations[i]))
    && (forall i :: 0 <= i < |ir.annotationSets| ==> |ir.annotationSets[i]| < TWO_TO_THE_32)
    && (forall i :: 0 <= i < |ir.annotationSetRefs| ==> |ir.annotationSetRefs[i]| < TWO_TO_THE_32)
    && (forall i :: 0 <= i < |ir.directories| ==> FitsDirectory(ir.directories[i]))
  }

  ghost predicate Fits(ir: Ir) { FitsIds(ir) && FitsItems(ir) }
}
