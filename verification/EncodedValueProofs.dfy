/**
 Encoded values survive writing and reading; reading and writing never makes
 them longer.
 */
module EncodedValueProofs {
  import opened Bytes
  import opened Leb128
  import opened VarWidth
  import opened Reading
  import opened EncodedValues

  lemma HeaderSplits(tag: byte, arg: nat)
    requires tag < 32 && arg < 8
    ensures HeaderByte(tag, arg) % 32 == tag && HeaderByte(tag, arg) / 32 == arg
  {
    DivModUnique(arg * 32 + tag, 32, arg, tag);
    DivModUnique(arg * 32 + tag, 256, 0, arg * 32 + tag);
  }

  lemma {:induction false} FitsWidth(num: NumberType, n: int)
    requires num != CharNumber && FitsSigned(n, Width(num))
    ensures ToWidth(Width(num), n) == n && |SignedBytes(n)| <= Width(num)
  {
    Pow256Values();
    SignedSize(n, Width(num));
  }

  lemma {:induction false} NumberRoundTrip(num: NumberType, n: int)
    requires ValidNumber(num, n)
    ensures |NumberBytes(num, n)| <= Width(num)
    ensures NumberOf(num, NumberBytes(num, n)) == n
  {
    if num == CharNumber {
      Pow256Values();
      UnsignedSize(n, 2);
      UnsignedRoundTrip(n);
    } else {
      FitsWidth(num, n);
      SignedRoundTrip(n);
      if num == ByteNumber {
        assert SignedBytes(n) == [n % 256];
        assert Val([n % 256]) == n % 256 + 256 * Val([]);
      }
    }
  }

  /** The header byte tells the reader which payload follows. */
  lemma {:induction false} ReadAfterHeader(pools: Pools, tag: byte, arg: nat, payload: seq<byte>)
    requires tag < 32 && arg < 8
    ensures var bs := [HeaderByte(tag, arg)] + payload;
            Read(pools, bs) == (if ReadPayload(pools, tag, arg, payload).None? then None else
                                var got := ReadPayload(pools, tag, arg, payload).value;
                                Some(Got(got.what, got.size + 1)))
  {
    HeaderSplits(tag, arg);
    var bs := [HeaderByte(tag, arg)] + payload;
    assert bs[1..] == payload;
  }

  lemma NumberDispatch(pools: Pools, num: NumberType, arg: nat, bs: seq<byte>)
    ensures NumberTag(num) < 32 && ReadPayload(pools, NumberTag(num), arg, bs) == ReadNumber(num, arg, bs)
  {
  }

  lemma {:induction false} NumberValueRoundTrip(pools: Pools, num: NumberType, n: int, rest: seq<byte>)
    requires ValidNumber(num, n)
    ensures Read(pools, Enc(Number(num, n)) + rest) == Some(Got(Number(num, n), |Enc(Number(num, n))|))
  {
    hide Read, ReadPayload, NumberOf, NumberBytes, HeaderByte, NumberTag, ValidNumber;
    var p := NumberBytes(num, n);
    NumberRoundTrip(num, n);
    assert (p + rest)[..|p|] == p;
    NumberDispatch(pools, num, |p| - 1, p + rest);
    ReadAfterHeader(pools, NumberTag(num), |p| - 1, p + rest);
    Regroup([HeaderByte(NumberTag(num), |p| - 1)], p, [], [], rest);
  }

  lemma FloatingDispatch(pools: Pools, double: bool, arg: nat, bs: seq<byte>)
    ensures FloatingTag(double) < 32
    ensures ReadPayload(pools, FloatingTag(double), arg, bs) == ReadFloating(double, arg, bs)
  {
  }

  lemma {:induction false} FloatingValueRoundTrip(pools: Pools, double: bool, bits: nat, rest: seq<byte>)
    requires bits < Pow256(FloatingWidth(double))
    ensures Read(pools, Enc(Floating(double, bits)) + rest)
         == Some(Got(Floating(double, bits), |Enc(Floating(double, bits))|))
  {
    hide Read, ReadPayload, RightFilled, FloatingBytes, HeaderByte, FloatingTag, Pow256;
    var p := FloatingBytes(FloatingWidth(double), bits);
    FloatingRoundTrip(FloatingWidth(double), bits);
    assert (p + rest)[..|p|] == p;
    FloatingDispatch(pools, double, |p| - 1, p + rest);
    ReadAfterHeader(pools, FloatingTag(double), |p| - 1, p + rest);
    Regroup([HeaderByte(FloatingTag(double), |p| - 1)], p, [], [], rest);
  }

  lemma IdDispatch(pools: Pools, id: IdType, arg: nat, bs: seq<byte>)
    ensures IdTag(id) < 32 && ReadPayload(pools, IdTag(id), arg, bs) == ReadReference(pools, id, arg, bs)
  {
  }

  lemma {:induction false} ReadReferenceIs(pools: Pools, id: IdType, index: nat, rest: seq<byte>)
    requires index < PoolSize(pools, id) && index < TWO_TO_THE_32
    ensures var p := UnsignedBytes(index);
            |p| <= 4 && ReadReference(pools, id, |p| - 1, p + rest) == Some(Got(Reference(id, index), |p|))
  {
    var p := UnsignedBytes(index);
    Pow256Values();
    UnsignedSize(index, 4);
    UnsignedRoundTrip(index);
    assert (p + rest)[..|p|] == p;
  }

  lemma {:induction false} ReferenceRoundTrip(pools: Pools, id: IdType, index: nat, rest: seq<byte>)
    requires index < PoolSize(pools, id) && index < TWO_TO_THE_32
    ensures Read(pools, Enc(Reference(id, index)) + rest)
          == Some(Got(Reference(id, index), |Enc(Reference(id, index))|))
  {
    hide Read, ReadPayload, ReadReference, UnsignedBytes, HeaderByte;
    var p := UnsignedBytes(index);
    ReadReferenceIs(pools, id, index, rest);
    IdDispatch(pools, id, |p| - 1, p + rest);
    ReadAfterHeader(pools, IdTag(id), |p| - 1, p + rest);
    Regroup([HeaderByte(IdTag(id), |p| - 1)], p, [], [], rest);
  }

  /** Writing then reading a value gives it back and stops exactly at what follows. */
  lemma {:induction false} RoundTrip(pools: Pools, v: Value, rest: seq<byte>)
    requires Valid(pools, v) && Unknowns(v) == 0
    ensures Read(pools, Enc(v) + rest) == Some(Got(v, |Enc(v)|))
    decreases v
  {
    match v {
      case Number(num, n) => NumberValueRoundTrip(pools, num, n, rest);
      case Floating(double, bits) => FloatingValueRoundTrip(pools, double, bits, rest);
      case Reference(id, index) => ReferenceRoundTrip(pools, id, index, rest);
      case Array(vs) =>
        RoundTripAll(pools, vs, rest);
        ArrayRoundTrip(pools, vs, rest);
      case Annotation(t, es) =>
        RoundTripElements(pools, es, rest);
        AnnotationRoundTrip(pools, t, es, rest);
      case Null => ReadAfterHeader(pools, NULL_TAG, 0, rest);
      case Boolean(z) => ReadAfterHeader(pools, BOOLEAN_TAG, if z then 1 else 0, rest);
    }
  }

  lemma {:induction false} ArrayRoundTrip(pools: Pools, vs: seq<Value>, rest: seq<byte>)
    requires |vs| < TWO_TO_THE_32
    requires ReadAll(pools, EncAll(vs) + rest, |vs|) == Some(Got(vs, |EncAll(vs)|))
    ensures Read(pools, Enc(Array(vs)) + rest) == Some(Got(Array(vs), |Enc(Array(vs))|))
  {
    EncArrayIs(vs, rest);
    hide *;
    var n, tail := |vs|, EncAll(vs) + rest;
    ReadArrayIs(pools, n, tail);
    ReadAfterHeader(pools, ARRAY_TAG, 0, Uleb(n) + tail);
  }

  lemma EncArrayIs(vs: seq<Value>, rest: seq<byte>)
    ensures |Enc(Array(vs))| == 1 + |Uleb(|vs|)| + |EncAll(vs)|
    ensures Enc(Array(vs)) + rest == [HeaderByte(ARRAY_TAG, 0)] + (Uleb(|vs|) + (EncAll(vs) + rest))
    ensures ARRAY_TAG < 32
  {
    Regroup([ARRAY_TAG], Uleb(|vs|), EncAll(vs), [], rest);
    assert [] + rest == rest;
  }

  lemma {:induction false} ReadArrayIs(pools: Pools, n: nat, tail: seq<byte>)
    requires n < TWO_TO_THE_32
    ensures var vs := ReadAll(pools, tail, n);
            ReadPayload(pools, ARRAY_TAG, 0, Uleb(n) + tail)
            == if vs.None? then None else Some(Got(Array(vs.value.what), |Uleb(n)| + vs.value.size))
  {
    hide ReadPayload, ReadAll, Uleb, DecodeUleb;
    PayloadDispatch(pools, 0, Uleb(n) + tail);
    UlebRoundTrip(n, tail);
    assert (Uleb(n) + tail)[|Uleb(n)|..] == tail;
  }

  lemma {:induction false} AnnotationRoundTrip(pools: Pools, t: nat, es: seq<Element>, rest: seq<byte>)
    requires t < pools.types && t < TWO_TO_THE_32 && |es| < TWO_TO_THE_32
    requires ReadElements(pools, EncElements(es) + rest, |es|) == Some(Got(es, |EncElements(es)|))
    ensures Read(pools, Enc(Annotation(t, es)) + rest) == Some(Got(Annotation(t, es), |Enc(Annotation(t, es))|))
  {
    EncAnnotationIs(t, es, rest);
    hide *;
    var n, tail := |es|, EncElements(es) + rest;
    ReadCountedIs(pools, n, tail);
    ReadAnnotationIs(pools, t, Uleb(n) + tail);
    ReadAfterHeader(pools, ANNOTATION_TAG, 0, Uleb(t) + (Uleb(n) + tail));
  }

  lemma EncAnnotationIs(t: nat, es: seq<Element>, rest: seq<byte>)
    ensures |Enc(Annotation(t, es))| == 1 + |Uleb(t)| + |Uleb(|es|)| + |EncElements(es)|
    ensures Enc(Annotation(t, es)) + rest
         == [HeaderByte(ANNOTATION_TAG, 0)] + (Uleb(t) + (Uleb(|es|) + (EncElements(es) + rest)))
    ensures ANNOTATION_TAG < 32
  {
    Regroup([ANNOTATION_TAG], Uleb(t), Uleb(|es|), EncElements(es), rest);
  }

  lemma Regroup<T>(a: seq<T>, b: seq<T>, c: seq<T>, d: seq<T>, rest: seq<T>)
    ensures (a + b + c + d) + rest == a + (b + (c + (d + rest)))
    ensures (a + b + c) + rest == a + (b + (c + rest)) && (a + b) + rest == a + (b + rest)
  {
  }

  lemma {:induction false} ReadAnnotationIs(pools: Pools, t: nat, tail: seq<byte>)
    requires t < pools.types && t < TWO_TO_THE_32 && ReadCounted(pools, tail).Some?
    ensures var es := ReadCounted(pools, tail).value;
            ReadPayload(pools, ANNOTATION_TAG, 0, Uleb(t) + tail)
            == Some(Got(Annotation(t, es.what), |Uleb(t)| + es.size))
  {
    hide ReadCounted, ReadPayload, Uleb, DecodeUleb;
    PayloadDispatch(pools, 0, Uleb(t) + tail);
    UlebRoundTrip(t, tail);
    assert (Uleb(t) + tail)[|Uleb(t)|..] == tail;
  }

  lemma {:induction false} ReadCountedIs(pools: Pools, n: nat, tail: seq<byte>)
    requires n < TWO_TO_THE_32 && ReadElements(pools, tail, n).Some?
    ensures var es := ReadElements(pools, tail, n).value;
            ReadCounted(pools, Uleb(n) + tail) == Some(Got(es.what, |Uleb(n)| + es.size))
  {
    hide ReadElements;
    UlebRoundTrip(n, tail);
    assert (Uleb(n) + tail)[|Uleb(n)|..] == tail;
  }

  lemma {:induction false} RoundTripAll(pools: Pools, vs: seq<Value>, rest: seq<byte>)
    requires ValidAll(pools, vs) && UnknownsIn(vs) == 0
    ensures ReadAll(pools, EncAll(vs) + rest, |vs|) == Some(Got(vs, |EncAll(vs)|))
    decreases vs
  {
    hide Read, Enc, Valid, Unknowns;
    if vs != [] {
      Skip(Enc(vs[0]), EncAll(vs[1..]), rest);
      RoundTrip(pools, vs[0], EncAll(vs[1..]) + rest);
      RoundTripAll(pools, vs[1..], rest);
      assert vs == [vs[0]] + vs[1..];
    }
  }

  lemma {:induction false} RoundTripElements(pools: Pools, es: seq<Element>, rest: seq<byte>)
    requires ValidElements(pools, es) && UnknownsInElements(es) == 0
    ensures ReadElements(pools, EncElements(es) + rest, |es|) == Some(Got(es, |EncElements(es)|))
    decreases es
  {
    hide ReadElement, EncElement, ValidElement, UnknownsInElement;
    if es != [] {
      Skip(EncElement(es[0]), EncElements(es[1..]), rest);
      RoundTripElement(pools, es[0], EncElements(es[1..]) + rest);
      RoundTripElements(pools, es[1..], rest);
      assert es == [es[0]] + es[1..];
    }
  }

  lemma {:induction false} RoundTripElement(pools: Pools, e: Element, more: seq<byte>)
    requires ValidElement(pools, e) && UnknownsInElement(e) == 0
    ensures ReadElement(pools, EncElement(e) + more) == Some(Got(e, |EncElement(e)|))
    decreases e
  {
    hide Read;
    var tail := Enc(e.value) + more;
    RoundTrip(pools, e.value, more);
    UlebRoundTrip(e.name, tail);
    assert EncElement(e) + more == Uleb(e.name) + tail;
    assert (Uleb(e.name) + tail)[|Uleb(e.name)|..] == tail;
  }

  // ---- reading and writing never grows

  /** Reducing modulo 2h into the range from -h to h. */
  lemma {:induction false} Wraps(h: int, x: int, r: int)
    requires h > 0 && r == if x % (2 * h) < h then x % (2 * h) else x % (2 * h) - 2 * h
    ensures -h <= r < h && (-h <= x < h ==> r == x)
  {
    if 0 <= x < h {
      DivModUnique(x, 2 * h, 0, x);
    } else if -h <= x < 0 {
      DivModUnique(x, 2 * h, -1, x + 2 * h);
    }
  }

  lemma {:induction false} ToWidthFits(w: nat, x: int)
    requires w == 1 || w == 2 || w == 4 || w == 8
    ensures FitsSigned(ToWidth(w, x), w)
    ensures FitsSigned(x, w) ==> ToWidth(w, x) == x
  {
    hide Pow256;
    Pow256Values();
    if w == 1 {
      Wraps(0x80, x, ToWidth(1, x));
    } else if w == 2 {
      Wraps(0x8000, x, ToWidth(2, x));
    } else if w == 4 {
      Wraps(0x8000_0000, x, ToWidth(4, x));
    } else {
      Wraps(0x8000_0000_0000_0000, x, ToWidth(8, x));
    }
  }

  lemma {:induction false} NumberShrinks(num: NumberType, payload: seq<byte>)
    requires payload != []
    ensures var n := NumberOf(num, payload);
            ValidNumber(num, n) && |NumberBytes(num, n)| <= |payload|
  {
    var n, w := NumberOf(num, payload), Width(num);
    Pow256Values();
    if num == CharNumber {
      ValBound(payload);
      if |payload| >= 2 {
        UnsignedSize(n, 2);
      } else {
        UnsignedSize(n, 1);
      }
    } else {
      ToWidthFits(w, if num == ByteNumber then Val(payload) else SignedVal(payload));
      SignedSize(n, w);
      if |payload| < w {
        SignedShortest(payload);
        SignedValFits(payload);
        FitsWider(SignedVal(payload), |payload|, w);
      }
    }
  }

  lemma {:induction false} FitsWider(v: int, m: nat, n: nat)
    requires 1 <= m <= n && FitsSigned(v, m)
    ensures FitsSigned(v, n)
    decreases n
  {
    if m < n {
      FitsWider(v, m, n - 1);
      assert Pow256(n - 1) == 256 * Pow256(n - 2);
    }
  }

  lemma {:induction false} ReferenceShrinks(payload: seq<byte>)
    requires payload != []
    ensures |UnsignedBytes(Val(payload) % TWO_TO_THE_32)| <= |payload|
  {
    Pow256Values();
    ValBound(payload);
    if |payload| >= 4 {
      UnsignedSize(Val(payload) % TWO_TO_THE_32, 4);
    } else {
      if |payload| == 1 { UnsignedSize(Val(payload), 1); }
      if |payload| == 2 { UnsignedSize(Val(payload), 2); }
      if |payload| == 3 { UnsignedSize(Val(payload), 3); }
    }
  }

  /** Whatever is read is a value of the IR, and writing it takes no more bytes
      than reading it did: one fewer for every nested value of unknown type. */
  lemma {:induction false} ReadThenWriteShrinks(pools: Pools, bs: seq<byte>)
    requires Read(pools, bs).Some?
    ensures var got := Read(pools, bs).value;
            Valid(pools, got.what) && |Enc(got.what)| + Unknowns(got.what) <= got.size
    decreases |bs|, 0, 0
  {
    var tag, arg, payload := bs[0] % 32, bs[0] / 32, bs[1..];
    PayloadShrinks(pools, tag, arg, payload);
  }

  lemma {:induction false} PayloadShrinks(pools: Pools, tag: byte, arg: nat, bs: seq<byte>)
    requires tag < 32 && ReadPayload(pools, tag, arg, bs).Some?
    ensures var got := ReadPayload(pools, tag, arg, bs).value;
            Valid(pools, got.what) && |Enc(got.what)| + Unknowns(got.what) <= got.size + 1
    decreases |bs|, 1, 0
  {
    if tag == ARRAY_TAG {
      PayloadDispatch(pools, arg, bs);
      hide ReadPayload, Enc;
      ArrayShrinks(pools, bs);
    } else if tag == ANNOTATION_TAG {
      PayloadDispatch(pools, arg, bs);
      hide ReadPayload, Enc;
      AnnotationShrinks(pools, bs);
    } else {
      hide ReadPayload, Enc;
      LeafShrinks(pools, tag, arg, bs);
    }
  }

  lemma PayloadDispatch(pools: Pools, arg: nat, bs: seq<byte>)
    ensures ReadPayload(pools, ARRAY_TAG, arg, bs) == ReadArray(pools, bs)
    ensures ReadPayload(pools, ANNOTATION_TAG, arg, bs) == ReadAnnotation(pools, bs)
  {
  }

  lemma {:induction false} LeafShrinks(pools: Pools, tag: byte, arg: nat, bs: seq<byte>)
    requires tag < 32 && tag != ARRAY_TAG && tag != ANNOTATION_TAG && ReadPayload(pools, tag, arg, bs).Some?
    ensures var got := ReadPayload(pools, tag, arg, bs).value;
            Valid(pools, got.what) && |Enc(got.what)| + Unknowns(got.what) <= got.size + 1
  {
    match ReadPayload(pools, tag, arg, bs).value.what {
      case Number(num, n) =>
        NumberShrinks(num, bs[..arg + 1]);
      case Floating(double, bits) =>
        FloatingShortest(FloatingWidth(double), bs[..arg + 1]);
      case Reference(id, index) =>
        ReferenceShrinks(bs[..arg + 1]);
      case _ =>
    }
  }

  lemma {:induction false} ArrayShrinks(pools: Pools, bs: seq<byte>)
    requires ReadArray(pools, bs).Some?
    ensures var got := ReadArray(pools, bs).value;
            got.what.Array? && Valid(pools, got.what) && |Enc(got.what)| + Unknowns(got.what) <= got.size + 1
    decreases |bs|, 0, 0
  {
    var count := DecodeUleb(bs).value;
    UlebShortest(bs);
    AllShrink(pools, bs[count.size..], count.value);
  }

  lemma {:induction false} AnnotationShrinks(pools: Pools, bs: seq<byte>)
    requires ReadAnnotation(pools, bs).Some?
    ensures var got := ReadAnnotation(pools, bs).value;
            got.what.Annotation? && Valid(pools, got.what) && |Enc(got.what)| + Unknowns(got.what) <= got.size + 1
    decreases |bs|, 0, 0
  {
    var t := DecodeUleb(bs).value;
    UlebShortest(bs);
    var tail := bs[t.size..];
    var count := DecodeUleb(tail).value;
    UlebShortest(tail);
    ElementsShrink(pools, tail[count.size..], count.value);
  }

  lemma {:induction false} AllShrink(pools: Pools, bs: seq<byte>, n: nat)
    requires ReadAll(pools, bs, n).Some?
    ensures var got := ReadAll(pools, bs, n).value;
            ValidAll(pools, got.what) && |EncAll(got.what)| + UnknownsIn(got.what) <= got.size
    decreases |bs|, 1, n
  {
    if n > 0 {
      var v := Read(pools, bs).value;
      ReadThenWriteShrinks(pools, bs);
      AllShrink(pools, bs[v.size..], n - 1);
      var vs := ReadAll(pools, bs[v.size..], n - 1).value.what;
      assert ([v.what] + vs)[1..] == vs;
    }
  }

  lemma {:induction false} ElementsShrink(pools: Pools, bs: seq<byte>, n: nat)
    requires ReadElements(pools, bs, n).Some?
    ensures var got := ReadElements(pools, bs, n).value;
            ValidElements(pools, got.what) && |EncElements(got.what)| + UnknownsInElements(got.what) <= got.size
    decreases |bs|, 1, n
  {
    if n > 0 {
      var e := ReadElement(pools, bs).value;
      ElementShrinks(pools, bs);
      ElementsShrink(pools, bs[e.size..], n - 1);
      var es := ReadElements(pools, bs[e.size..], n - 1).value.what;
      assert ([e.what] + es)[1..] == es;
    }
  }

  lemma {:induction false} ElementShrinks(pools: Pools, bs: seq<byte>)
    requires ReadElement(pools, bs).Some?
    ensures var got := ReadElement(pools, bs).value;
            ValidElement(pools, got.what) && |EncElement(got.what)| + UnknownsInElement(got.what) <= got.size
    decreases |bs|, 0, 0
  {
    var name := DecodeUleb(bs).value;
    UlebShortest(bs);
    ReadThenWriteShrinks(pools, bs[name.size..]);
  }

  /** The round trip holds, whatever follows the value, exactly when no value of
      unknown type is nested in it: the writer drops those without a trace. */
  lemma {:induction false} RoundTripExactly(pools: Pools, v: Value)
    requires Valid(pools, v)
    ensures (forall rest: seq<byte> :: Read(pools, Enc(v) + rest) == Some(Got(v, |Enc(v)|))) <==> Unknowns(v) == 0
  {
    if Unknowns(v) == 0 {
      forall rest: seq<byte> ensures Read(pools, Enc(v) + rest) == Some(Got(v, |Enc(v)|)) {
        RoundTrip(pools, v, rest);
      }
    } else {
      UnknownNotRead(pools, v);
      assert Enc(v) + [] == Enc(v);
    }
  }

  /** Reading a value back never takes fewer bytes than writing it and one more for each lost value. */
  lemma {:induction false} UnknownNotRead(pools: Pools, v: Value)
    requires Unknowns(v) > 0
    ensures Read(pools, Enc(v)) != Some(Got(v, |Enc(v)|))
  {
    if Read(pools, Enc(v)).Some? {
      ReadThenWriteShrinks(pools, Enc(v));
    }
  }

  /** A one-element array holding a value of type 0x01 is written without its element. */
  lemma UnknownIsLost(pools: Pools)
    ensures Valid(pools, Array([Unknown(0x01)]))
    ensures Read(pools, [ARRAY_TAG, 1, 0x01]) == Some(Got(Array([Unknown(0x01)]), 3))
    ensures Enc(Array([Unknown(0x01)])) == [ARRAY_TAG, 1]
    ensures Read(pools, Enc(Array([Unknown(0x01)]))) == None
  {
    UnknownIsValid(pools);
    hide Enc, Read, Valid;
    UnknownIsRead(pools);
    NothingWritten(pools);
  }

  lemma UnknownIsValid(pools: Pools)
    ensures Valid(pools, Array([Unknown(0x01)]))
  {
    var v: Value := Unknown(0x01);
    assert [v][1..] == [];
    assert ValidAll(pools, []) && ValidAll(pools, [v]);
  }

  lemma UnknownIsRead(pools: Pools)
    ensures Read(pools, [ARRAY_TAG, 1, 0x01]) == Some(Got(Array([Unknown(0x01)]), 3))
  {
    hide Read, ReadAll;
    var one: seq<byte> := [0x01];
    ReadAllUnknown(pools);
    ReadArrayIs(pools, 1, one);
    ReadAfterHeader(pools, ARRAY_TAG, 0, Uleb(1) + one);
    assert [HeaderByte(ARRAY_TAG, 0)] + (Uleb(1) + one) == [ARRAY_TAG, 1, 0x01];
  }

  /** Its encoding promises one element and holds none. */
  lemma NothingWritten(pools: Pools)
    ensures Enc(Array([Unknown(0x01)])) == [ARRAY_TAG, 1] && Read(pools, [ARRAY_TAG, 1]) == None
  {
    NothingEncoded();
    NothingToRead(pools);
  }

  lemma NothingEncoded()
    ensures Enc(Array([Unknown(0x01)])) == [ARRAY_TAG, 1]
  {
    var v: Value := Unknown(0x01);
    assert [v][1..] == [];
    assert EncAll([v]) == [];
  }

  lemma NothingToRead(pools: Pools)
    ensures Read(pools, [ARRAY_TAG, 1]) == None
  {
    assert ReadAll(pools, [], 1) == None;
    hide Read, ReadAll, ReadPayload;
    ReadArrayIs(pools, 1, []);
    ReadAfterHeader(pools, ARRAY_TAG, 0, Uleb(1) + []);
    assert [HeaderByte(ARRAY_TAG, 0)] + (Uleb(1) + []) == [ARRAY_TAG, 1];
  }

  lemma ReadAllUnknown(pools: Pools)
    ensures ReadAll(pools, [0x01], 1) == Some(Got([Unknown(0x01)], 1))
  {
    var one: seq<byte> := [0x01];
    assert one[1..] == [];
    assert Read(pools, one) == Some(Got(Unknown(0x01), 1));
    var none: seq<Value> := [];
    assert ReadAll(pools, one[1..], 0) == Some(Got(none, 0));
    assert [Unknown(0x01)] + none == [Unknown(0x01)];
    assert ReadAll(pools, one, 1) == Some(Got([Unknown(0x01)] + none, 1 + 0));
  }
}
