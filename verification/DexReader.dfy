/**
 A reader of dex files, from the header on: every offset is followed to the item it
 leads to.  None where the bytes end too early or a value is none of the format.
 */
module DexReader {
  import opened Bytes
  import opened Leb128
  import opened Reading
  import opened ByteStream
  import opened CatchHandlers
  import opened DexIr
  import opened DexRecords
  import opened DexTree
  import Debug = DebugStream
  import EV = EncodedValues
  import HA = HiddenApi

  /** All of them, or nothing. */
  function AllSome<T>(xs: seq<Option<T>>): (r: Option<seq<T>>)
    ensures r.Some? <==> forall i :: 0 <= i < |xs| ==> xs[i].Some?
    ensures r.Some? ==> |r.value| == |xs| && forall i :: 0 <= i < |xs| ==> xs[i] == Some(r.value[i])
  {
    if exists i :: 0 <= i < |xs| && xs[i].None? then None
    else Some(seq(|xs|, i requires 0 <= i < |xs| => xs[i].value))
  }

  /** Offset 0 stands for no item. */
  function IfAny<T>(o: nat, r: Option<T>): (x: Option<Option<T>>) {
    if o == 0 then Some(None) else if r.None? then None else Some(Some(r.value))
  }

  function From(file: seq<byte>, o: nat): (bs: seq<byte>) {
    if o <= |file| then file[o..] else []
  }

  // ---- items

  function LoadTypeList(file: seq<byte>, o: nat): (r: Option<seq<nat>>) {
    var bs := From(file, o);
    var n := Word(bs, 0);
    if |bs| < 4 + 2 * n then None else Some(seq(n, i requires 0 <= i < n => Half(bs, 2 + i)))
  }

  function LoadDebugInfo(file: seq<byte>, o: nat): (r: Option<seq<byte>>) {
    var bs := From(file, o);
    var n :- Debug.StreamSize(bs);
    Some(bs[..n])
  }

  /** A try item; its handlers are decoded where its offset says. */
  function LoadTry(bs: seq<byte>, table: seq<byte>): (r: Option<TryTree>) {
    var l :- DecodeList(From(table, Half(bs, 3)));
    Some(TryTree(Word(bs, 0), Half(bs, 2), l.what))
  }

  function LoadTryItems(bs: seq<byte>, count: nat, table: seq<byte>): (r: Option<seq<TryTree>>) {
    AllSome(seq(count, i requires 0 <= i < count => LoadTry(From(bs, 8 * i), table)))
  }

  /** The part behind the instructions. */
  function LoadTries(bs: seq<byte>, start: nat, count: nat): (r: Option<(seq<TryTree>, set<CatchHandler>)>) {
    if |bs| < start + 8 * count then None
    else
      var table := bs[start + 8 * count..];
      var tries :- LoadTryItems(bs[start..], count, table);
      var handlers :- Table(table);
      Some((tries, set h | h in handlers))
  }

  /** Where try items start, on a word boundary behind the instructions. */
  function AfterInsns(n: nat): (o: nat) { 16 + 2 * n + PadLen(2 * n, 4) }

  function LoadUnits(bs: seq<byte>, n: nat): (units: seq<nat>) {
    seq(n, i requires 0 <= i < n => Half(bs, 8 + i))
  }

  /** Without try items there are no handlers, either. */
  function LoadPost(bs: seq<byte>, n: nat, count: nat): (r: Option<(seq<TryTree>, set<CatchHandler>)>) {
    if count == 0 then Some(([], {})) else LoadTries(bs, AfterInsns(n), count)
  }

  function LoadCode(file: seq<byte>, o: nat): (r: Option<CodeTree>) {
    var bs := From(file, o);
    var n, count := Word(bs, 3), Half(bs, 3);
    if |bs| < 16 + 2 * n then None
    else
      var debugInfo :- IfAny(Word(bs, 2), LoadDebugInfo(file, Word(bs, 2)));
      var post :- LoadPost(bs, n, count);
      Some(CodeTree(Half(bs, 0), Half(bs, 1), Half(bs, 2), debugInfo, LoadUnits(bs, n), post.0, post.1))
  }

  function LoadMethod(file: seq<byte>, v: MethodView): (r: Option<MethodTree>) {
    var code :- IfAny(v.codeOffset, LoadCode(file, v.codeOffset));
    Some(MethodTree(v.index, v.accessFlags, code))
  }

  function LoadMethods(file: seq<byte>, vs: seq<MethodView>): (r: Option<seq<MethodTree>>) {
    AllSome(seq(|vs|, i requires 0 <= i < |vs| => LoadMethod(file, vs[i])))
  }

  function LoadClassData(file: seq<byte>, o: nat): (r: Option<DataTree>) {
    var v :- ReadClassData(From(file, o));
    var direct :- LoadMethods(file, v.what.directMethods);
    var virtual :- LoadMethods(file, v.what.virtualMethods);
    Some(DataTree(v.what.staticFields, v.what.instanceFields, direct, virtual))
  }

  function LoadArray(file: seq<byte>, pools: EV.Pools, o: nat): (r: Option<seq<EV.Value>>) {
    var v :- EV.ReadArray(pools, From(file, o));
    if v.what.Array? then Some(v.what.values) else None
  }

  function LoadAnnotation(file: seq<byte>, pools: EV.Pools, o: nat): (r: Option<DexIr.Annotation>) {
    var bs := From(file, o);
    if bs == [] then None
    else
      var a :- EV.ReadAnnotation(pools, bs[1..]);
      if a.what.Annotation? then Some(AnnotationItem(bs[0], a.what.typeIndex, a.what.elements)) else None
  }

  function LoadSetItem(file: seq<byte>, pools: EV.Pools, bs: seq<byte>, i: nat): (r: Option<DexIr.Annotation>) {
    LoadAnnotation(file, pools, Word(bs, i + 1))
  }

  function LoadSet(file: seq<byte>, pools: EV.Pools, o: nat): (r: Option<SetTree>) {
    var bs := From(file, o);
    var n := Word(bs, 0);
    if |bs| < 4 + 4 * n then None
    else AllSome(seq(n, i requires 0 <= i < n => LoadSetItem(file, pools, bs, i)))
  }

  function LoadSetRef(file: seq<byte>, pools: EV.Pools, bs: seq<byte>, i: nat): (r: Option<Option<SetTree>>) {
    IfAny(Word(bs, i + 1), LoadSet(file, pools, Word(bs, i + 1)))
  }

  function LoadSetRefs(file: seq<byte>, pools: EV.Pools, o: nat): (r: Option<seq<Option<SetTree>>>) {
    var bs := From(file, o);
    var n := Word(bs, 0);
    if |bs| < 4 + 4 * n then None
    else AllSome(seq(n, i requires 0 <= i < n => LoadSetRef(file, pools, bs, i)))
  }

  /** Pair i of the list that starts at word w. */
  function LoadMember(file: seq<byte>, pools: EV.Pools, bs: seq<byte>, w: nat, i: nat): (r: Option<MemberTree>) {
    var s :- LoadSet(file, pools, Word(bs, w + 2 * i + 1));
    Some(MemberTree(Word(bs, w + 2 * i), s))
  }

  function LoadMembers(file: seq<byte>, pools: EV.Pools, bs: seq<byte>, w: nat, n: nat): (r: Option<seq<MemberTree>>) {
    AllSome(seq(n, i requires 0 <= i < n => LoadMember(file, pools, bs, w, i)))
  }

  function LoadParameter(file: seq<byte>, pools: EV.Pools, bs: seq<byte>, w: nat, i: nat): (r: Option<ParametersTree>) {
    var s :- LoadSetRefs(file, pools, Word(bs, w + 2 * i + 1));
    Some(ParametersTree(Word(bs, w + 2 * i), s))
  }

  function LoadParameters(file: seq<byte>, pools: EV.Pools, bs: seq<byte>, w: nat,
                          n: nat): (r: Option<seq<ParametersTree>>) {
    AllSome(seq(n, i requires 0 <= i < n => LoadParameter(file, pools, bs, w, i)))
  }

  function LoadDirectory(file: seq<byte>, pools: EV.Pools, o: nat): (r: Option<AnnotationsTree>) {
    var bs := From(file, o);
    var (a, b, c) := (Word(bs, 1), Word(bs, 2), Word(bs, 3));
    if |bs| < 16 + 8 * (a + b + c) then None
    else
      var classAnnotation :- IfAny(Word(bs, 0), LoadSet(file, pools, Word(bs, 0)));
      var fields :- LoadMembers(file, pools, bs, 4, a);
      var methods :- LoadMembers(file, pools, bs, 4 + 2 * a, b);
      var parameters :- LoadParameters(file, pools, bs, 4 + 2 * a + 2 * b, c);
      Some(AnnotationsTree(classAnnotation, fields, methods, parameters))
  }

  function IndexOrNone(x: nat): (i: Option<nat>) { if x == NO_INDEX then None else Some(x) }

  function LoadClass(file: seq<byte>, pools: EV.Pools, o: nat): (r: Option<ClassTree>) {
    var bs := From(file, o);
    if |bs| < 32 then None
    else
      var interfaces :- IfAny(Word(bs, 3), LoadTypeList(file, Word(bs, 3)));
      var annotations :- IfAny(Word(bs, 5), LoadDirectory(file, pools, Word(bs, 5)));
      var data :- IfAny(Word(bs, 6), LoadClassData(file, Word(bs, 6)));
      var values :- IfAny(Word(bs, 7), LoadArray(file, pools, Word(bs, 7)));
      Some(ClassTree(Word(bs, 0), Word(bs, 1), IndexOrNone(Word(bs, 2)), interfaces, IndexOrNone(Word(bs, 4)),
                     annotations, data, values))
  }

  // ---- ids

  /** The bytes before the first zero. */
  function UpToZero(bs: seq<byte>): (r: Option<seq<byte>>) {
    if bs == [] then None
    else if bs[0] == 0 then Some([])
    else
      var rest :- UpToZero(bs[1..]);
      Some([bs[0]] + rest)
  }

  function LoadStringData(file: seq<byte>, o: nat): (r: Option<StringData>) {
    var bs := From(file, o);
    var d :- DecodeUleb(bs);
    var text :- UpToZero(bs[d.size..]);
    Some(StringData(d.value, text))
  }

  function LoadString(file: seq<byte>, o: nat): (r: Option<StringData>) {
    var bs := From(file, o);
    if |bs| < 4 then None else LoadStringData(file, Word(bs, 0))
  }

  function LoadType(file: seq<byte>, o: nat): (r: Option<nat>) {
    var bs := From(file, o);
    if |bs| < 4 then None else Some(Word(bs, 0))
  }

  function LoadProto(file: seq<byte>, o: nat): (r: Option<ProtoTree>) {
    var bs := From(file, o);
    if |bs| < 12 then None
    else
      var parameters :- IfAny(Word(bs, 2), LoadTypeList(file, Word(bs, 2)));
      Some(ProtoTree(Word(bs, 0), Word(bs, 1), parameters))
  }

  function LoadField(file: seq<byte>, o: nat): (r: Option<FieldId>) {
    var bs := From(file, o);
    if |bs| < 8 then None else Some(FieldId(Half(bs, 0), Half(bs, 1), Word(bs, 1)))
  }

  function LoadMethodId(file: seq<byte>, o: nat): (r: Option<MethodId>) {
    var bs := From(file, o);
    if |bs| < 8 then None else Some(MethodId(Half(bs, 0), Half(bs, 1), Word(bs, 1)))
  }

  function LoadCallSite(file: seq<byte>, pools: EV.Pools, o: nat): (r: Option<seq<EV.Value>>) {
    var bs := From(file, o);
    if |bs| < 4 then None else LoadArray(file, pools, Word(bs, 0))
  }

  function LoadHandle(file: seq<byte>, o: nat): (r: Option<MethodHandle>) {
    var bs := From(file, o);
    if |bs| < 8 then None else Some(MethodHandle(Half(bs, 0), Half(bs, 2)))
  }

  // ---- the map list

  datatype Entry = Entry(code: nat, size: nat, offset: nat)

  function LoadEntry(bs: seq<byte>, i: nat): (e: Entry) {
    Entry(Half(bs, 2 + 6 * i), Word(bs, 2 + 3 * i), Word(bs, 3 + 3 * i))
  }

  function LoadMap(file: seq<byte>, o: nat): (r: Option<seq<Entry>>) {
    var bs := From(file, o);
    var n := Word(bs, 0);
    if |bs| < 4 + 12 * n then None else Some(seq(n, i requires 0 <= i < n => LoadEntry(bs, i)))
  }

  /** The entry of a section that only the map list tells of; an absent section is empty. */
  function Find(entries: seq<Entry>, code: nat): (e: Entry) {
    if entries == [] then Entry(code, 0, 0)
    else if entries[0].code == code then entries[0]
    else Find(entries[1..], code)
  }

  // ---- hidden API flags

  function MembersRead(data: Option<DataTree>): (m: Option<HA.Members>) {
    if data.None? then None
    else
      var a := |data.value.staticFields|;
      var b := a + |data.value.instanceFields|;
      var c := b + |data.value.directMethods|;
      Some(HA.Members(Numbers(0, a), Numbers(a, |data.value.instanceFields|), Numbers(b, |data.value.directMethods|),
                      Numbers(c, |data.value.virtualMethods|)))
  }

  function NthFlags(file: seq<byte>, entry: Entry, c: ClassTree, i: nat): (r: Option<Option<HA.Flags>>) {
    HA.ReadClass(From(file, entry.offset), i, MembersRead(c.data))
  }

  function LoadFlags(file: seq<byte>, entry: Entry, classes: seq<ClassTree>): (r: Option<seq<Option<HA.Flags>>>) {
    if entry.size == 0 then Some([])
    else AllSome(seq(|classes|, i requires 0 <= i < |classes| => NthFlags(file, entry, classes[i], i)))
  }

  // ---- the file

  const METHOD_HANDLE_CODE := 0x0008
  const CALL_SITE_CODE := 0x0007
  const HIDDENAPI_CODE := 0xF000

  /** Sizes and offsets of the id sections are words of the header. */
  function Pools(file: seq<byte>, handles: nat): (p: EV.Pools) {
    EV.Pools(Word(file, 14), Word(file, 16), Word(file, 18), Word(file, 20), Word(file, 22), handles)
  }

  function NthClass(file: seq<byte>, pools: EV.Pools,
                    i: nat): (r: Option<ClassTree>) { LoadClass(file, pools, Word(file, 25) + 32 * i) }

  function LoadClasses(file: seq<byte>, pools: EV.Pools): (r: Option<seq<ClassTree>>) {
    var n := Word(file, 24);
    AllSome(seq(n, i requires 0 <= i < n => NthClass(file, pools, i)))
  }

  function NthString(file: seq<byte>, i: nat): (r: Option<StringData>) { LoadString(file, Word(file, 15) + 4 * i) }

  function LoadStrings(file: seq<byte>): (r: Option<seq<StringData>>) {
    var n := Word(file, 14);
    AllSome(seq(n, i requires 0 <= i < n => NthString(file, i)))
  }

  function NthType(file: seq<byte>, i: nat): (r: Option<nat>) { LoadType(file, Word(file, 17) + 4 * i) }

  function LoadTypes(file: seq<byte>): (r: Option<seq<nat>>) {
    var n := Word(file, 16);
    AllSome(seq(n, i requires 0 <= i < n => NthType(file, i)))
  }

  function NthProto(file: seq<byte>, i: nat): (r: Option<ProtoTree>) { LoadProto(file, Word(file, 19) + 12 * i) }

  function LoadProtos(file: seq<byte>): (r: Option<seq<ProtoTree>>) {
    var n := Word(file, 18);
    AllSome(seq(n, i requires 0 <= i < n => NthProto(file, i)))
  }

  function NthField(file: seq<byte>, i: nat): (r: Option<FieldId>) { LoadField(file, Word(file, 21) + 8 * i) }

  function LoadFields(file: seq<byte>): (r: Option<seq<FieldId>>) {
    var n := Word(file, 20);
    AllSome(seq(n, i requires 0 <= i < n => NthField(file, i)))
  }

  function NthMethod(file: seq<byte>, i: nat): (r: Option<MethodId>) { LoadMethodId(file, Word(file, 23) + 8 * i) }

  function LoadMethodIds(file: seq<byte>): (r: Option<seq<MethodId>>) {
    var n := Word(file, 22);
    AllSome(seq(n, i requires 0 <= i < n => NthMethod(file, i)))
  }

  function NthCallSite(file: seq<byte>, pools: EV.Pools, e: Entry,
                       i: nat): (r: Option<seq<EV.Value>>) { LoadCallSite(file, pools, e.offset + 4 * i) }

  function LoadCallSites(file: seq<byte>, pools: EV.Pools, e: Entry): (r: Option<seq<seq<EV.Value>>>) {
    AllSome(seq(e.size, i requires 0 <= i < e.size => NthCallSite(file, pools, e, i)))
  }

  function NthHandle(file: seq<byte>, e: Entry,
                     i: nat): (r: Option<MethodHandle>) { LoadHandle(file, e.offset + 8 * i) }

  function LoadHandles(file: seq<byte>, e: Entry): (r: Option<seq<MethodHandle>>) {
    AllSome(seq(e.size, i requires 0 <= i < e.size => NthHandle(file, e, i)))
  }

  function ReadDex(file: seq<byte>): (r: Option<Tree>) {
    var entries :- LoadMap(file, Word(file, 13));
    var (sites, handles) := (Find(entries, CALL_SITE_CODE), Find(entries, METHOD_HANDLE_CODE));
    var pools := Pools(file, handles.size);
    var strings :- LoadStrings(file);
    var types :- LoadTypes(file);
    var protos :- LoadProtos(file);
    var fields :- LoadFields(file);
    var methods :- LoadMethodIds(file);
    var classes :- LoadClasses(file, pools);
    var callSites :- LoadCallSites(file, pools, sites);
    var methodHandles :- LoadHandles(file, handles);
    var hiddenapi :- LoadFlags(file, Find(entries, HIDDENAPI_CODE), classes);
    Some(Tree(strings, types, protos, fields, methods, classes, callSites, methodHandles, hiddenapi))
  }
}
