/**
 The writer and the reader of encoded values as they run: a stream cursor and a
 data pointer moved by loops, each proved against the functions of EncodedValues.
 */
module EncodedValueIO {
  import opened Bytes
  import opened Leb128
  import opened VarWidth
  import opened ByteStream
  import opened Reading
  import opened EncodedValues
  import opened EncodedValueProofs

  lemma StillZero(d: seq<byte>, d': seq<byte>, p: nat, bs: seq<byte>)
    requires Wrote(d, d', p, bs) && ZeroFrom(d, p)
    ensures ZeroFrom(d', p + |bs|)
  {
  }

  lemma {:induction false} EncAllAppend(vs: seq<Value>, v: Value)
    ensures EncAll(vs + [v]) == EncAll(vs) + Enc(v)
  {
    hide Enc;
    if vs == [] {
      assert vs + [v] == [v] && [v][1..] == [];
    } else {
      EncAllAppend(vs[1..], v);
      assert (vs + [v])[1..] == vs[1..] + [v];
    }
  }

  lemma {:induction false} EncElementsAppend(es: seq<Element>, e: Element)
    ensures EncElements(es + [e]) == EncElements(es) + EncElement(e)
  {
    hide EncElement;
    if es == [] {
      assert es + [e] == [e] && [e][1..] == [];
    } else {
      EncElementsAppend(es[1..], e);
      assert (es + [e])[1..] == es[1..] + [e];
    }
  }

  lemma {:induction false} ValidAllAt(pools: Pools, vs: seq<Value>, i: nat)
    requires ValidAll(pools, vs) && i < |vs|
    ensures Valid(pools, vs[i])
  {
    hide Valid;
    if i > 0 {
      ValidAllAt(pools, vs[1..], i - 1);
    }
  }

  lemma {:induction false} ValidElementsAt(pools: Pools, es: seq<Element>, i: nat)
    requires ValidElements(pools, es) && i < |es|
    ensures ValidElement(pools, es[i])
  {
    hide ValidElement;
    if i > 0 {
      ValidElementsAt(pools, es[1..], i - 1);
    }
  }

  /** The leaf cases: an encoder fills the buffer, then header and bytes go out. */
  method WriteLeaf(stream: Stream, ghost pools: Pools, v: Value)
    requires v.Number? || v.Floating? || v.Reference?
    requires Valid(pools, v) && ZeroFrom(stream.data, stream.pos)
    modifies stream
    ensures stream.pos == old(stream.pos) + |Enc(v)|
    ensures Wrote(old(stream.data), stream.data, old(stream.pos), Enc(v))
  {
    var tag, payload := EncodeLeaf(pools, v);
    hide Enc, Valid;
    WriteHeaderAndPayload(stream, tag, payload);
  }

  method EncodeLeaf(ghost pools: Pools, v: Value) returns (tag: byte, payload: seq<byte>)
    requires v.Number? || v.Floating? || v.Reference?
    requires Valid(pools, v)
    ensures 1 <= |payload| <= 8 && Enc(v) == [HeaderByte(tag, |payload| - 1)] + payload
  {
    hide SignedBytes, UnsignedBytes, FloatingBytes, Pow256;
    var start, length := 0, 0;
    var buffer := new byte[8];
    match v {
      case Number(num, n) =>
        tag := NumberTag(num);
        if num == CharNumber {
          length := EncodeUIntValue(n, buffer);
        } else {
          NumberFits(num, n);
          length := EncodeSignedValue(n, buffer);
        }
      case Floating(double, bits) =>
        tag := FloatingTag(double);
        length := EncodeFloatingValue(FloatingWidth(double), bits, buffer);
        start := FloatingWidth(double) - length;
      case Reference(id, index) =>
        tag := IdTag(id);
        length := EncodeUIntValue(index, buffer);
    }
    payload := buffer[start..start + length];
  }

  lemma NumberFits(num: NumberType, n: int)
    requires num != CharNumber && ValidNumber(num, n)
    ensures FitsSigned(n, 8)
  {
    Pow256Values();
  }

  method WriteHeaderAndPayload(stream: Stream, tag: byte, payload: seq<byte>)
    requires 1 <= |payload| && ZeroFrom(stream.data, stream.pos)
    modifies stream
    ensures stream.pos == old(stream.pos) + 1 + |payload|
    ensures Wrote(old(stream.data), stream.data, old(stream.pos), [HeaderByte(tag, |payload| - 1)] + payload)
  {
    WriteEncodedValueHeader(stream, tag, |payload| - 1);
    ghost var d1 := stream.data;
    StillZero(old(stream.data), d1, old(stream.pos), [HeaderByte(tag, |payload| - 1)]);
    stream.Write(payload);
    WroteThen(old(stream.data), d1, stream.data, old(stream.pos), [HeaderByte(tag, |payload| - 1)], payload);
  }

  method WriteEncodedValueHeader(stream: Stream, tag: byte, arg: nat)
    requires ZeroFrom(stream.data, stream.pos)
    modifies stream
    ensures stream.pos == old(stream.pos) + 1
    ensures Wrote(old(stream.data), stream.data, old(stream.pos), [HeaderByte(tag, arg)])
  {
    stream.Write([HeaderByte(tag, arg)]);
  }

  /** The bytes of the values that are not leaves, and of those the writer skips. */
  lemma EncShapes(v: Value)
    ensures v.Array? ==> Enc(v) == [HeaderByte(ARRAY_TAG, 0)] + (Uleb(|v.values|) + EncAll(v.values))
    ensures v.Annotation? ==> Enc(v) == [HeaderByte(ANNOTATION_TAG, 0)] + EncAnnotation(v.typeIndex, v.elements)
    ensures v.Null? ==> Enc(v) == [HeaderByte(NULL_TAG, 0)]
    ensures v.Boolean? ==> Enc(v) == [HeaderByte(BOOLEAN_TAG, if v.z then 1 else 0)]
    ensures v.Unknown? ==> Enc(v) == []
  {
  }

  method WriteEncodedValue(stream: Stream, ghost pools: Pools, v: Value)
    requires Valid(pools, v) && ZeroFrom(stream.data, stream.pos)
    modifies stream
    ensures stream.pos == old(stream.pos) + |Enc(v)|
    ensures Wrote(old(stream.data), stream.data, old(stream.pos), Enc(v))
    decreases v, 1
  {
    hide Enc, HeaderByte, Uleb, EncAll, EncAnnotation;
    EncShapes(v);
    match v {
      case Array(vs) =>
        WriteEncodedValueHeader(stream, ARRAY_TAG, 0);
        ghost var d1 := stream.data;
        StillZero(old(stream.data), d1, old(stream.pos), [HeaderByte(ARRAY_TAG, 0)]);
        WriteEncodedArray(stream, pools, vs);
        WroteThen(old(stream.data), d1, stream.data, old(stream.pos),
                  [HeaderByte(ARRAY_TAG, 0)], Uleb(|vs|) + EncAll(vs));
      case Annotation(t, es) =>
        WriteEncodedValueHeader(stream, ANNOTATION_TAG, 0);
        ghost var d1 := stream.data;
        StillZero(old(stream.data), d1, old(stream.pos), [HeaderByte(ANNOTATION_TAG, 0)]);
        WriteEncodedAnnotation(stream, pools, t, es);
        WroteThen(old(stream.data), d1, stream.data, old(stream.pos),
                  [HeaderByte(ANNOTATION_TAG, 0)], EncAnnotation(t, es));
      case Null =>
        WriteEncodedValueHeader(stream, NULL_TAG, 0);
      case Boolean(z) =>
        WriteEncodedValueHeader(stream, BOOLEAN_TAG, if z then 1 else 0);
      case Unknown(_) =>
      case _ =>
        WriteLeaf(stream, pools, v);
    }
  }

  /** An encoded_array without the leading type byte. */
  method WriteEncodedArray(stream: Stream, ghost pools: Pools, vs: seq<Value>)
    requires |vs| < TWO_TO_THE_32 && ValidAll(pools, vs) && ZeroFrom(stream.data, stream.pos)
    modifies stream
    ensures stream.pos == old(stream.pos) + |Uleb(|vs|) + EncAll(vs)|
    ensures Wrote(old(stream.data), stream.data, old(stream.pos), Uleb(|vs|) + EncAll(vs))
    decreases vs
  {
    hide Enc, Uleb, Valid, ValidAll;
    stream.WriteUleb128(|vs|);
    ghost var d0, p0 := old(stream.data), old(stream.pos);
    StillZero(d0, stream.data, p0, Uleb(|vs|));
    ghost var out := Uleb(|vs|) + EncAll([]);
    assert out == Uleb(|vs|);
    for i := 0 to |vs|
      invariant out == Uleb(|vs|) + EncAll(vs[..i])
      invariant Wrote(d0, stream.data, p0, out) && stream.pos == p0 + |out|
      invariant ZeroFrom(stream.data, stream.pos)
    {
      ghost var d1, p1 := stream.data, stream.pos;
      ValidAllAt(pools, vs, i);
      WriteEncodedValue(stream, pools, vs[i]);
      WroteThen(d0, d1, stream.data, p0, out, Enc(vs[i]));
      StillZero(d1, stream.data, p1, Enc(vs[i]));
      EncAllAppend(vs[..i], vs[i]);
      assert vs[..i + 1] == vs[..i] + [vs[i]];
      out := out + Enc(vs[i]);
    }
    assert vs[..|vs|] == vs;
  }

  /** An encoded_annotation: the body of an annotation value and of an annotation item. */
  ghost function EncAnnotation(t: nat, es: seq<Element>): (bs: seq<byte>) {
    Uleb(t) + Uleb(|es|) + EncElements(es)
  }

  method WriteEncodedAnnotation(stream: Stream, ghost pools: Pools, t: nat, es: seq<Element>)
    requires t < TWO_TO_THE_32 && |es| < TWO_TO_THE_32 && ValidElements(pools, es)
    requires ZeroFrom(stream.data, stream.pos)
    modifies stream
    ensures stream.pos == old(stream.pos) + |EncAnnotation(t, es)|
    ensures Wrote(old(stream.data), stream.data, old(stream.pos), EncAnnotation(t, es))
    decreases es
  {
    hide Enc, EncElement, Uleb, ValidElement, ValidElements;
    ghost var d0, p0 := old(stream.data), old(stream.pos);
    stream.WriteUleb128(t);
    ghost var d1 := stream.data;
    stream.WriteUleb128(|es|);
    ghost var out := Uleb(t) + Uleb(|es|);
    WroteThen(d0, d1, stream.data, p0, Uleb(t), Uleb(|es|));
    StillZero(d0, stream.data, p0, out);
    assert out == out + EncElements([]);
    for i := 0 to |es|
      invariant out == Uleb(t) + Uleb(|es|) + EncElements(es[..i])
      invariant Wrote(d0, stream.data, p0, out) && stream.pos == p0 + |out|
      invariant ZeroFrom(stream.data, stream.pos)
    {
      ghost var d2, p2 := stream.data, stream.pos;
      ValidElementsAt(pools, es, i);
      WriteElement(stream, pools, es[i]);
      WroteThen(d0, d2, stream.data, p0, out, EncElement(es[i]));
      StillZero(d2, stream.data, p2, EncElement(es[i]));
      EncElementsAppend(es[..i], es[i]);
      assert es[..i + 1] == es[..i] + [es[i]];
      out := out + EncElement(es[i]);
    }
    assert es[..|es|] == es;
  }

  method WriteElement(stream: Stream, ghost pools: Pools, e: Element)
    requires ValidElement(pools, e) && ZeroFrom(stream.data, stream.pos)
    modifies stream
    ensures stream.pos == old(stream.pos) + |EncElement(e)|
    ensures Wrote(old(stream.data), stream.data, old(stream.pos), EncElement(e))
    decreases e
  {
    hide Enc, Uleb, Valid;
    stream.WriteUleb128(e.name);
    ghost var d1 := stream.data;
    StillZero(old(stream.data), d1, old(stream.pos), Uleb(e.name));
    WriteEncodedValue(stream, pools, e.value);
    WroteThen(old(stream.data), d1, stream.data, old(stream.pos), Uleb(e.name), Enc(e.value));
  }

  // ---- reading

  /** ReadVarWidth: the value of `length + 1` bytes from `pos` on.  The pair of 64-bit
      shifts that sign-extends is the subtraction of 256^(length + 1). */
  method ReadVarWidth(data: seq<byte>, pos: nat, length: nat, signExtend: bool) returns (value: int)
    requires pos + length < |data|
    ensures value == if signExtend then SignedVal(data[pos..pos + length + 1]) else Val(data[pos..pos + length + 1])
  {
    hide Val, SignedVal, Pow256;
    value := 0;
    var scale: nat := 1;
    assert data[pos..pos] == [] && Val([]) == 0 && Pow256(0) == 1 by { ValOfNothing(); }
    for i := 0 to length + 1
      invariant value == Val(data[pos..pos + i]) && scale == Pow256(i)
    {
      ValAppend(data[pos..pos + i], data[pos + i]);
      assert data[pos..pos + i + 1] == data[pos..pos + i] + [data[pos + i]];
      value := value + scale * data[pos + i];
      PowStep(i);
      scale := 256 * scale;
    }
    if signExtend {
      SignExtends(data[pos..pos + length + 1]);
      if 2 * value >= scale {
        value := value - scale;
      }
    }
  }

  lemma ValOfNothing()
    ensures Val([]) == 0 && Pow256(0) == 1
  {
  }

  lemma PowStep(i: nat)
    ensures Pow256(i + 1) == 256 * Pow256(i)
  {
  }

  lemma {:induction false} SignExtends(bs: seq<byte>)
    requires bs != []
    ensures SignedVal(bs) == if 2 * Val(bs) >= Pow256(|bs|) then Val(bs) - Pow256(|bs|) else Val(bs)
  {
    assert Val(bs) == bs[0] + 256 * Val(bs[1..]);
    PowStep(|bs| - 1);
    if |bs| == 1 {
      ValOfNothing();
    } else {
      PowStep(|bs| - 2);
      SignExtends(bs[1..]);
      LowByte(bs[0], Val(bs[1..]), Pow256(|bs| - 2));
    }
  }

  /** The lowest byte has no part in the sign. */
  lemma LowByte(b: byte, v: nat, q: nat)
    ensures 2 * (b + 256 * v) >= 256 * (256 * q) <==> 2 * v >= 256 * q
  {
  }

  // A position is an absolute index into `data`; sizes are what the functions report.

  method ReadLeaf(pools: Pools, tag: byte, arg: nat, data: seq<byte>, pos: nat) returns (r: Option<Got<Value>>)
    requires tag < 32 && tag != ARRAY_TAG && tag != ANNOTATION_TAG && pos <= |data|
    ensures r == ReadPayload(pools, tag, arg, data[pos..])
  {
    if tag == NULL_TAG {
      return Some(Got(Null, 0));
    } else if tag == BOOLEAN_TAG {
      return Some(Got(Boolean(arg != 0), 0));
    } else if !KnownTag(tag) {
      return Some(Got(Unknown(tag), 0));
    } else if pos + arg >= |data| {
      return None;
    }
    assert data[pos..][..arg + 1] == data[pos..pos + arg + 1];
    hide Val, SignedVal;
    var v := ReadVarWidth(data, pos, arg, tag in {0x02, 0x04, 0x06});
    match tag {
      case 0x00 => r := Some(Got(Number(ByteNumber, ToWidth(1, v)), arg + 1));
      case 0x02 => r := Some(Got(Number(ShortNumber, ToWidth(2, v)), arg + 1));
      case 0x03 => r := Some(Got(Number(CharNumber, v % 0x1_0000), arg + 1));
      case 0x04 => r := Some(Got(Number(IntNumber, ToWidth(4, v)), arg + 1));
      case 0x06 => r := Some(Got(Number(LongNumber, ToWidth(8, v)), arg + 1));
      case 0x10 => r := ReadBits(false, arg, data, pos, v);
      case 0x11 => r := ReadBits(true, arg, data, pos, v);
      case 0x15 => r := Resolve(pools, MethodTypeId, v % TWO_TO_THE_32, arg);
      case 0x16 => r := Resolve(pools, MethodHandleId, v % TWO_TO_THE_32, arg);
      case 0x17 => r := Resolve(pools, StringIdType, v % TWO_TO_THE_32, arg);
      case 0x18 => r := Resolve(pools, TypeIdType, v % TWO_TO_THE_32, arg);
      case 0x19 => r := Resolve(pools, FieldIdType, v % TWO_TO_THE_32, arg);
      case 0x1a => r := Resolve(pools, MethodIdType, v % TWO_TO_THE_32, arg);
      case _ => r := Resolve(pools, EnumId, v % TWO_TO_THE_32, arg);
    }
  }

  function Resolve(pools: Pools, id: IdType, index: nat, arg: nat): (r: Option<Got<Value>>) {
    if index < PoolSize(pools, id) then Some(Got(Reference(id, index), arg + 1)) else None
  }

  /** Fill on the right: shift the bytes read to the top of the word. */
  method ReadBits(double: bool, arg: nat, data: seq<byte>, pos: nat, v: int) returns (r: Option<Got<Value>>)
    requires pos + arg < |data| && v == Val(data[pos..pos + arg + 1])
    ensures r == ReadFloating(double, arg, data[pos..])
  {
    hide Val;
    var w := FloatingWidth(double);
    ghost var payload := data[pos..pos + arg + 1];
    assert data[pos..][..arg + 1] == payload;
    if arg >= w {
      return None;
    }
    var bits := v;
    assert Zeros(0) + payload == payload;
    for i := 0 to w - 1 - arg
      invariant bits == Val(Zeros(i) + payload)
    {
      ValShift(Zeros(i) + payload);
      assert Zeros(i + 1) + payload == [0] + (Zeros(i) + payload);
      bits := 256 * bits;
    }
    r := Some(Got(Floating(double, bits), arg + 1));
  }

  lemma ValShift(bs: seq<byte>)
    ensures Val([0] + bs) == 256 * Val(bs)
  {
    assert ([0] + bs)[1..] == bs;
  }

  method ReadEncodedValue(pools: Pools, data: seq<byte>, pos: nat) returns (r: Option<Got<Value>>)
    requires pos <= |data|
    ensures r == Read(pools, data[pos..])
    decreases |data| - pos, 1
  {
    if pos == |data| {
      return None;
    }
    var tag, arg := data[pos] % 32, data[pos] / 32;
    assert data[pos..][1..] == data[pos + 1..];
    PayloadDispatch(pools, arg, data[pos + 1..]);
    hide ReadPayload;
    if tag == ARRAY_TAG {
      r := ReadEncodedArray(pools, data, pos + 1);
    } else if tag == ANNOTATION_TAG {
      r := ReadEncodedAnnotation(pools, data, pos + 1);
    } else {
      r := ReadLeaf(pools, tag, arg, data, pos + 1);
    }
    if r.Some? {
      r := Some(Got(r.value.what, r.value.size + 1));
    }
  }

  lemma ReadAllStep(pools: Pools, bs: seq<byte>, n: nat)
    ensures n == 0 ==> ReadAll(pools, bs, n) == Some(Got([], 0))
    ensures n > 0 && Read(pools, bs).None? ==> ReadAll(pools, bs, n) == None
    ensures n > 0 && Read(pools, bs).Some? ==>
              var v := Read(pools, bs).value;
              ReadAll(pools, bs, n) == Joined([v.what], v.size, ReadAll(pools, bs[v.size..], n - 1))
  {
  }

  lemma ReadElementsStep(pools: Pools, bs: seq<byte>, n: nat)
    ensures n == 0 ==> ReadElements(pools, bs, n) == Some(Got([], 0))
    ensures n > 0 && ReadElement(pools, bs).None? ==> ReadElements(pools, bs, n) == None
    ensures n > 0 && ReadElement(pools, bs).Some? ==>
              var e := ReadElement(pools, bs).value;
              ReadElements(pools, bs, n) == Joined([e.what], e.size, ReadElements(pools, bs[e.size..], n - 1))
  {
  }

  method ReadValues(pools: Pools, data: seq<byte>, start: nat, n: nat) returns (r: Option<Got<seq<Value>>>)
    requires start <= |data|
    ensures r == ReadAll(pools, data[start..], n)
    decreases |data| - start, 2
  {
    hide ReadAll, Read;
    var vs: seq<Value>, used: nat := [], 0;
    JoinedNothing(ReadAll(pools, data[start..], n));
    for i := 0 to n
      invariant start + used <= |data|
      invariant ReadAll(pools, data[start..], n) == Joined(vs, used, ReadAll(pools, data[start + used..], n - i))
    {
      ReadAllStep(pools, data[start + used..], n - i);
      var v := ReadEncodedValue(pools, data, start + used);
      if v.None? {
        return None;
      }
      var size := v.value.size;
      assert data[start + used..][size..] == data[start + used + size..];
      JoinedStep(vs, used, v.value.what, size, ReadAll(pools, data[start + used + size..], n - i - 1));
      vs, used := vs + [v.value.what], used + size;
    }
    ReadAllStep(pools, data[start + used..], 0);
    r := Some(Got(vs, used));
    assert vs + [] == vs;
  }

  method ReadEncodedArray(pools: Pools, data: seq<byte>, pos: nat) returns (r: Option<Got<Value>>)
    requires pos <= |data|
    ensures r == ReadArray(pools, data[pos..])
    decreases |data| - pos, 0
  {
    hide ReadAll, DecodeUleb;
    var count := DecodeUleb(data[pos..]);
    if count.None? {
      return None;
    }
    var start := pos + count.value.size;
    assert data[pos..][count.value.size..] == data[start..];
    var vs := ReadValues(pools, data, start, count.value.value);
    if vs.None? {
      return None;
    }
    r := Some(Got(Array(vs.value.what), count.value.size + vs.value.size));
  }

  method ReadNamedValues(pools: Pools, data: seq<byte>, start: nat, n: nat) returns (r: Option<Got<seq<Element>>>)
    requires start <= |data|
    ensures r == ReadElements(pools, data[start..], n)
    decreases |data| - start, 2
  {
    hide ReadElements, ReadElement;
    var es: seq<Element>, used: nat := [], 0;
    JoinedNothing(ReadElements(pools, data[start..], n));
    for i := 0 to n
      invariant start + used <= |data|
      invariant ReadElements(pools, data[start..], n)
             == Joined(es, used, ReadElements(pools, data[start + used..], n - i))
    {
      ReadElementsStep(pools, data[start + used..], n - i);
      var e := ReadAnnotationElement(pools, data, start + used);
      if e.None? {
        return None;
      }
      var size := e.value.size;
      assert data[start + used..][size..] == data[start + used + size..];
      JoinedStep(es, used, e.value.what, size, ReadElements(pools, data[start + used + size..], n - i - 1));
      es, used := es + [e.value.what], used + size;
    }
    ReadElementsStep(pools, data[start + used..], 0);
    r := Some(Got(es, used));
    assert es + [] == es;
  }

  method ReadEncodedAnnotation(pools: Pools, data: seq<byte>, pos: nat) returns (r: Option<Got<Value>>)
    requires pos <= |data|
    ensures r == ReadAnnotation(pools, data[pos..])
    decreases |data| - pos, 0
  {
    hide ReadElements, DecodeUleb;
    var t := DecodeUleb(data[pos..]);
    if t.None? || t.value.value >= pools.types {
      return None;
    }
    var pos1 := pos + t.value.size;
    assert data[pos..][t.value.size..] == data[pos1..];
    var count := DecodeUleb(data[pos1..]);
    if count.None? {
      return None;
    }
    var start := pos1 + count.value.size;
    assert data[pos1..][count.value.size..] == data[start..];
    var es := ReadNamedValues(pools, data, start, count.value.value);
    if es.None? {
      return None;
    }
    r := Some(Got(Annotation(t.value.value, es.value.what), t.value.size + (count.value.size + es.value.size)));
  }

  method ReadAnnotationElement(pools: Pools, data: seq<byte>, pos: nat) returns (r: Option<Got<Element>>)
    requires pos <= |data|
    ensures r == ReadElement(pools, data[pos..])
    decreases |data| - pos, 1
  {
    hide Read, DecodeUleb;
    var name := DecodeUleb(data[pos..]);
    if name.None? || name.value.value >= pools.strings {
      return None;
    }
    assert data[pos..][name.value.size..] == data[pos + name.value.size..];
    var v := ReadEncodedValue(pools, data, pos + name.value.size);
    if v.None? {
      return None;
    }
    r := Some(Got(Element(name.value.value, v.value.what), name.value.size + v.value.size));
  }
}
