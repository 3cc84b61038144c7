/**
 The encoded_value of the dex format: what WriteEncodedValue emits, what
 ReadEncodedValue accepts, and how the two fit together.  Ids are represented
 by their indices, floats and doubles by their raw bits.
 */
module EncodedValues {
  import opened Bytes
  import opened Leb128
  import opened VarWidth
  import opened Reading

  datatype NumberType = ByteNumber | ShortNumber | CharNumber | IntNumber | LongNumber
  datatype IdType = MethodTypeId | MethodHandleId | StringIdType | TypeIdType | FieldIdType | MethodIdType | EnumId

  datatype Value =
    | Number(num: NumberType, n: int)
    | Floating(double: bool, bits: nat)
    | Reference(id: IdType, index: nat)
    | Array(values: seq<Value>)
    | Annotation(typeIndex: nat, elements: seq<Element>)
    | Null
    | Boolean(z: bool)
    | Unknown(tag: byte)

  datatype Element = Element(name: nat, value: Value)

  /** How many ids of each sort the file has. */
  datatype Pools = Pools(strings: nat, types: nat, protos: nat, fields: nat, methods: nat, handles: nat)

  function PoolSize(pools: Pools, id: IdType): (n: nat) {
    match id
    case MethodTypeId => pools.protos
    case MethodHandleId => pools.handles
    case StringIdType => pools.strings
    case TypeIdType => pools.types
    case FieldIdType => pools.fields
    case EnumId => pools.fields
    case MethodIdType => pools.methods
  }

  function NumberTag(num: NumberType): (t: byte) {
    match num
    case ByteNumber => 0x00
    case ShortNumber => 0x02
    case CharNumber => 0x03
    case IntNumber => 0x04
    case LongNumber => 0x06
  }

  function IdTag(id: IdType): (t: byte) {
    match id
    case MethodTypeId => 0x15
    case MethodHandleId => 0x16
    case StringIdType => 0x17
    case TypeIdType => 0x18
    case FieldIdType => 0x19
    case MethodIdType => 0x1a
    case EnumId => 0x1b
  }

  const ARRAY_TAG: byte := 0x1c
  const ANNOTATION_TAG: byte := 0x1d
  const NULL_TAG: byte := 0x1e
  const BOOLEAN_TAG: byte := 0x1f

  function FloatingTag(double: bool): (t: byte) { if double then 0x11 else 0x10 }

  predicate KnownTag(t: byte) {
    t in {0x00, 0x02, 0x03, 0x04, 0x06, 0x10, 0x11} || 0x15 <= t <= 0x1f
  }

  function Width(num: NumberType): (w: nat)
    ensures w == 1 || w == 2 || w == 4 || w == 8
  {
    match num
    case ByteNumber => 1
    case ShortNumber => 2
    case CharNumber => 2
    case IntNumber => 4
    case LongNumber => 8
  }

  function FloatingWidth(double: bool): (w: nat) { if double then 8 else 4 }

  // ---- values that the IR can hold

  ghost predicate ValidNumber(num: NumberType, n: int) {
    if num == CharNumber then 0 <= n < 0x1_0000 else FitsSigned(n, Width(num))
  }

  ghost predicate Valid(pools: Pools, v: Value) {
    match v
    case Number(num, n) => ValidNumber(num, n)
    case Floating(double, bits) => bits < Pow256(FloatingWidth(double))
    case Reference(id, index) => index < PoolSize(pools, id) && index < TWO_TO_THE_32
    case Array(vs) => |vs| < TWO_TO_THE_32 && ValidAll(pools, vs)
    case Annotation(t, es) =>
      t < pools.types && t < TWO_TO_THE_32 && |es| < TWO_TO_THE_32 && ValidElements(pools, es)
    case Null => true
    case Boolean(_) => true
    case Unknown(tag) => tag < 32 && !KnownTag(tag)
  }

  ghost predicate ValidAll(pools: Pools, vs: seq<Value>) {
    vs == [] || (Valid(pools, vs[0]) && ValidAll(pools, vs[1..]))
  }

  ghost predicate ValidElements(pools: Pools, es: seq<Element>) {
    es == [] || (ValidElement(pools, es[0]) && ValidElements(pools, es[1..]))
  }

  ghost predicate ValidElement(pools: Pools, e: Element) {
    e.name < pools.strings && e.name < TWO_TO_THE_32 && Valid(pools, e.value)
  }

  /** How many values of a type the writer has no case for are nested in `v`. */
  function Unknowns(v: Value): (n: nat) {
    match v
    case Array(vs) => UnknownsIn(vs)
    case Annotation(_, es) => UnknownsInElements(es)
    case Unknown(_) => 1
    case _ => 0
  }

  function UnknownsIn(vs: seq<Value>): (n: nat) {
    if vs == [] then 0 else Unknowns(vs[0]) + UnknownsIn(vs[1..])
  }

  function UnknownsInElements(es: seq<Element>): (n: nat) {
    if es == [] then 0 else UnknownsInElement(es[0]) + UnknownsInElements(es[1..])
  }

  function UnknownsInElement(e: Element): (n: nat) {
    Unknowns(e.value)
  }

  // ---- the bytes the writer emits

  function HeaderByte(tag: byte, arg: nat): (b: byte) { (arg * 32 + tag) % 256 }

  function NumberBytes(num: NumberType, n: int): (bs: seq<byte>)
    ensures bs != []
  {
    if num == CharNumber && n >= 0 then UnsignedBytes(n) else SignedBytes(n)
  }

  function Enc(v: Value): (bs: seq<byte>)
  {
    match v
    case Number(num, n) =>
      var p := NumberBytes(num, n);
      [HeaderByte(NumberTag(num), |p| - 1)] + p
    case Floating(double, bits) =>
      var p := FloatingBytes(FloatingWidth(double), bits);
      [HeaderByte(FloatingTag(double), |p| - 1)] + p
    case Reference(id, index) =>
      var p := UnsignedBytes(index);
      [HeaderByte(IdTag(id), |p| - 1)] + p
    case Array(vs) => [ARRAY_TAG] + Uleb(|vs|) + EncAll(vs)
    case Annotation(t, es) => [ANNOTATION_TAG] + Uleb(t) + Uleb(|es|) + EncElements(es)
    case Null => [NULL_TAG]
    case Boolean(z) => [HeaderByte(BOOLEAN_TAG, if z then 1 else 0)]
    case Unknown(_) => []
  }

  function EncAll(vs: seq<Value>): (bs: seq<byte>) {
    if vs == [] then [] else Enc(vs[0]) + EncAll(vs[1..])
  }

  function EncElements(es: seq<Element>): (bs: seq<byte>) {
    if es == [] then [] else EncElement(es[0]) + EncElements(es[1..])
  }

  function EncElement(e: Element): (bs: seq<byte>) {
    Uleb(e.name) + Enc(e.value)
  }

  // ---- what the reader makes of bytes

  /** Two's complement interpretation of the low w bytes. */
  function ToWidth(w: nat, x: int): (r: int)
    requires w == 1 || w == 2 || w == 4 || w == 8
  {
    if w == 1 then (var u := x % 0x100; if u < 0x80 then u else u - 0x100)
    else if w == 2 then (var u := x % 0x1_0000; if u < 0x8000 then u else u - 0x1_0000)
    else if w == 4 then (var u := x % 0x1_0000_0000; if u < 0x8000_0000 then u else u - 0x1_0000_0000)
    else (var u := x % 0x1_0000_0000_0000_0000;
          if u < 0x8000_0000_0000_0000 then u else u - 0x1_0000_0000_0000_0000)
  }

  function NumberOf(num: NumberType, payload: seq<byte>): (n: int)
    requires payload != []
  {
    match num
    case ByteNumber => ToWidth(1, Val(payload))
    case CharNumber => Val(payload) % 0x1_0000
    case _ => ToWidth(Width(num), SignedVal(payload))
  }

  function ReadNumber(num: NumberType, arg: nat, bs: seq<byte>): (r: Option<Got<Value>>) {
    if |bs| <= arg then None
    else Some(Got(Number(num, NumberOf(num, bs[..arg + 1])), arg + 1))
  }

  /** A float wider than four bytes would shift by a negative count: not a value. */
  function ReadFloating(double: bool, arg: nat, bs: seq<byte>): (r: Option<Got<Value>>) {
    if |bs| <= arg || FloatingWidth(double) <= arg then None
    else Some(Got(Floating(double, RightFilled(FloatingWidth(double), bs[..arg + 1])), arg + 1))
  }

  function ReadReference(pools: Pools, id: IdType, arg: nat, bs: seq<byte>): (r: Option<Got<Value>>) {
    if |bs| <= arg then None
    else
      var index := Val(bs[..arg + 1]) % TWO_TO_THE_32;
      if index < PoolSize(pools, id) then Some(Got(Reference(id, index), arg + 1)) else None
  }

  /** ReadEncodedValue with its leading byte; None where the bytes or the ids run out. */
  function Read(pools: Pools, bs: seq<byte>): (r: Option<Got<Value>>)
    ensures r.Some? ==> 1 <= r.value.size <= |bs|
    decreases |bs|, 0, 0
  {
    if bs == [] then None
    else
      var got :- ReadPayload(pools, bs[0] % 32, bs[0] / 32, bs[1..]);
      Some(Got(got.what, got.size + 1))
  }

  function ReadPayload(pools: Pools, tag: byte, arg: nat, bs: seq<byte>): (r: Option<Got<Value>>)
    requires tag < 32
    ensures r.Some? ==> r.value.size <= |bs|
    decreases |bs|, 1, 0
  {
    if tag == 0x00 then ReadNumber(ByteNumber, arg, bs)
    else if tag == 0x02 then ReadNumber(ShortNumber, arg, bs)
    else if tag == 0x03 then ReadNumber(CharNumber, arg, bs)
    else if tag == 0x04 then ReadNumber(IntNumber, arg, bs)
    else if tag == 0x06 then ReadNumber(LongNumber, arg, bs)
    else if tag == 0x10 then ReadFloating(false, arg, bs)
    else if tag == 0x11 then ReadFloating(true, arg, bs)
    else if tag == 0x15 then ReadReference(pools, MethodTypeId, arg, bs)
    else if tag == 0x16 then ReadReference(pools, MethodHandleId, arg, bs)
    else if tag == 0x17 then ReadReference(pools, StringIdType, arg, bs)
    else if tag == 0x18 then ReadReference(pools, TypeIdType, arg, bs)
    else if tag == 0x19 then ReadReference(pools, FieldIdType, arg, bs)
    else if tag == 0x1a then ReadReference(pools, MethodIdType, arg, bs)
    else if tag == 0x1b then ReadReference(pools, EnumId, arg, bs)
    else if tag == ARRAY_TAG then ReadArray(pools, bs)
    else if tag == ANNOTATION_TAG then ReadAnnotation(pools, bs)
    else if tag == NULL_TAG then Some(Got(Null, 0))
    else if tag == BOOLEAN_TAG then Some(Got(Boolean(arg != 0), 0))
    else Some(Got(Unknown(tag), 0))
  }

  function ReadArray(pools: Pools, bs: seq<byte>): (r: Option<Got<Value>>)
    ensures r.Some? ==> r.value.size <= |bs|
    decreases |bs|, 0, 0
  {
    var count :- DecodeUleb(bs);
    var vs :- ReadAll(pools, bs[count.size..], count.value);
    Some(Got(Array(vs.what), count.size + vs.size))
  }

  function ReadAnnotation(pools: Pools, bs: seq<byte>): (r: Option<Got<Value>>)
    ensures r.Some? ==> r.value.size <= |bs|
    decreases |bs|, 0, 0
  {
    var t :- DecodeUleb(bs);
    if t.value >= pools.types then None
    else
      var es :- ReadCounted(pools, bs[t.size..]);
      Some(Got(Annotation(t.value, es.what), t.size + es.size))
  }

  function ReadCounted(pools: Pools, bs: seq<byte>): (r: Option<Got<seq<Element>>>)
    ensures r.Some? ==> r.value.size <= |bs|
    decreases |bs|, 0, 0
  {
    var count :- DecodeUleb(bs);
    var es :- ReadElements(pools, bs[count.size..], count.value);
    Some(Got(es.what, count.size + es.size))
  }

  function ReadAll(pools: Pools, bs: seq<byte>, n: nat): (r: Option<Got<seq<Value>>>)
    ensures r.Some? ==> r.value.size <= |bs| && |r.value.what| == n
    decreases |bs|, 1, n
  {
    if n == 0 then Some(Got([], 0))
    else
      var v :- Read(pools, bs);
      var vs :- ReadAll(pools, bs[v.size..], n - 1);
      Some(Got([v.what] + vs.what, v.size + vs.size))
  }

  function ReadElements(pools: Pools, bs: seq<byte>, n: nat): (r: Option<Got<seq<Element>>>)
    ensures r.Some? ==> r.value.size <= |bs| && |r.value.what| == n
    decreases |bs|, 1, n
  {
    if n == 0 then Some(Got([], 0))
    else
      var e :- ReadElement(pools, bs);
      var es :- ReadElements(pools, bs[e.size..], n - 1);
      Some(Got([e.what] + es.what, e.size + es.size))
  }

  function ReadElement(pools: Pools, bs: seq<byte>): (r: Option<Got<Element>>)
    ensures r.Some? ==> 1 <= r.value.size <= |bs|
    decreases |bs|, 0, 0
  {
    var name :- DecodeUleb(bs);
    if name.value >= pools.strings then None
    else
      var v :- Read(pools, bs[name.size..]);
      Some(Got(Element(name.value, v.what), name.size + v.size))
  }
}
