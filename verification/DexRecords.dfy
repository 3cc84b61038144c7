/**
 Reading records back: what a reader of the format finds where the format says it
 should look.
 */
module DexRecords {
  import opened Bytes
  import opened Leb128
  import opened Reading
  import opened SectionWriter
  import opened DexIr

  // ---- records of 32-bit words

  function Word(bs: seq<byte>, j: nat): (x: nat) {
    if 4 * j + 4 <= |bs| then Val(bs[4 * j..4 * j + 4]) else 0
  }

  function Half(bs: seq<byte>, j: nat): (x: nat) {
    if 2 * j + 2 <= |bs| then Val(bs[2 * j..2 * j + 2]) else 0
  }

  ghost predicate AreWords(r: Record) {
    forall j :: 0 <= j < |r| ==> r[j].Off32? || (r[j].Raw? && |r[j].bytes| == 4)
  }

  /** What a word holds. */
  function WordOf(f: Field, offs: Offsets): (x: nat) { Val(EncField(f, offs)) }

  lemma {:induction false} WordsLength(r: Record, n: nat, offs: Offsets)
    requires AreWords(r) && n <= |r|
    ensures |EncFields(r, n, offs)| == 4 * n
    decreases n
  {
    hide U32;
    if n > 0 {
      WordsLength(r, n - 1, offs);
    }
  }

  lemma {:induction false} WordAt(r: Record, j: nat, n: nat, offs: Offsets)
    requires AreWords(r) && j < n <= |r|
    ensures |EncFields(r, n, offs)| == 4 * n && Word(EncFields(r, n, offs), j) == WordOf(r[j], offs)
    decreases n
  {
    hide U32, Val, EncField;
    WordsLength(r, n, offs);
    WordsLength(r, n - 1, offs);
    var bs, before := EncFields(r, n, offs), EncFields(r, n - 1, offs);
    if j < n - 1 {
      WordAt(r, j, n - 1, offs);
      assert bs[4 * j..4 * j + 4] == before[4 * j..4 * j + 4];
    } else {
      assert bs[4 * j..4 * j + 4] == EncField(r[j], offs);
    }
  }

  lemma WordIs(x: nat, offs: Offsets)
    requires x < TWO_TO_THE_32
    ensures WordOf(Raw(U32(x)), offs) == x
  {
    hide U32, Val;
    U32RoundTrip(x);
  }

  lemma OffsetIs(ref: Option<Ref>, offs: Offsets)
    requires OffsetOf(offs, ref) < TWO_TO_THE_32
    ensures WordOf(Off32(ref), offs) == OffsetOf(offs, ref)
  {
    hide U32, Val, OffsetOf;
    U32RoundTrip(OffsetOf(offs, ref));
  }

  /** Offsets are 32-bit numbers. */
  ghost predicate Small(offs: Offsets) {
    forall ref: Option<Ref> :: OffsetOf(offs, ref) < TWO_TO_THE_32
  }

  ghost predicate SmallClassDef(x: ClassDef) {
    x.classType < TWO_TO_THE_32 && x.accessFlags < TWO_TO_THE_32
    && IndexOr(x.superclass) < TWO_TO_THE_32 && IndexOr(x.sourceFile) < TWO_TO_THE_32
  }

  /** A class_def_item: eight words in the order of the format. */
  lemma {:induction false} ClassDefReads(x: ClassDef, offs: Offsets)
    requires SmallClassDef(x) && Small(offs)
    ensures var bs := EncRecord(ClassDefRecord(x), offs);
            && |bs| == 32
            && Word(bs, 0) == x.classType && Word(bs, 1) == x.accessFlags && Word(bs, 2) == IndexOr(x.superclass)
            && Word(bs, 3) == OffsetOf(offs, To(TypeLists, x.interfaces)) && Word(bs, 4) == IndexOr(x.sourceFile)
            && Word(bs, 5) == OffsetOf(offs, To(AnnotationsDirectories, x.annotations))
            && Word(bs, 6) == OffsetOf(offs, To(ClassDatas, x.classData))
            && Word(bs, 7) == OffsetOf(offs, To(EncodedArrays, x.staticValues))
  {
    var r := ClassDefRecord(x);
    assert AreWords(r);
    hide U32, Val, Word, WordOf, EncFields, OffsetOf, To, IndexOr;
    forall j: nat | j < 8 ensures Word(EncRecord(r, offs), j) == WordOf(r[j], offs) && |EncRecord(r, offs)| == 32 {
      WordAt(r, j, 8, offs);
    }
    WordIs(x.classType, offs);
    WordIs(x.accessFlags, offs);
    WordIs(IndexOr(x.superclass), offs);
    WordIs(IndexOr(x.sourceFile), offs);
    OffsetIs(To(TypeLists, x.interfaces), offs);
    OffsetIs(To(AnnotationsDirectories, x.annotations), offs);
    OffsetIs(To(ClassDatas, x.classData), offs);
    OffsetIs(To(EncodedArrays, x.staticValues), offs);
  }

  lemma {:induction false} ProtoIdReads(x: ProtoId, offs: Offsets)
    requires x.shorty < TWO_TO_THE_32 && x.returnType < TWO_TO_THE_32 && Small(offs)
    ensures var bs := EncRecord(ProtoIdRecord(x), offs);
            && |bs| == 12 && Word(bs, 0) == x.shorty && Word(bs, 1) == x.returnType
            && Word(bs, 2) == OffsetOf(offs, To(TypeLists, x.parameters))
  {
    var r := ProtoIdRecord(x);
    assert AreWords(r);
    hide U32, Val, Word, WordOf, EncFields, OffsetOf, To;
    forall j: nat | j < 3 ensures Word(EncRecord(r, offs), j) == WordOf(r[j], offs) && |EncRecord(r, offs)| == 12 {
      WordAt(r, j, 3, offs);
    }
    WordIs(x.shorty, offs);
    WordIs(x.returnType, offs);
    OffsetIs(To(TypeLists, x.parameters), offs);
  }

  /** An annotation set: a count and as many offsets. */
  lemma {:induction false} AnnotationSetReads(items: seq<nat>, i: nat, offs: Offsets)
    requires i < |items| < TWO_TO_THE_32 && Small(offs)
    ensures var bs := EncRecord(AnnotationSetRecord(items), offs);
            && |bs| == 4 + 4 * |items| && Word(bs, 0) == |items|
            && Word(bs, i + 1) == OffsetOf(offs, Some(Ref(Annotations, items[i])))
  {
    hide U32, Val, Word, WordOf, EncFields, OffsetOf;
    var r := AnnotationSetRecord(items);
    WordAt(r, 0, |r|, offs);
    WordAt(r, i + 1, |r|, offs);
    WordIs(|items|, offs);
    OffsetIs(Some(Ref(Annotations, items[i])), offs);
  }

  /** An annotations directory: four words, then three lists of pairs. */
  lemma {:induction false} DirectoryReads(x: Directory, i: nat, offs: Offsets)
    requires |x.fields| < TWO_TO_THE_32 && |x.methods| < TWO_TO_THE_32 && |x.parameters| < TWO_TO_THE_32 && Small(offs)
    requires forall k :: 0 <= k < |x.fields| ==> x.fields[k].member < TWO_TO_THE_32
    requires forall k :: 0 <= k < |x.methods| ==> x.methods[k].member < TWO_TO_THE_32
    requires forall k :: 0 <= k < |x.parameters| ==> x.parameters[k].member < TWO_TO_THE_32
    ensures var bs := EncRecord(DirectoryRecord(x), offs);
            && Word(bs, 0) == OffsetOf(offs, To(AnnotationSets, x.classAnnotation))
            && Word(bs, 1) == |x.fields| && Word(bs, 2) == |x.methods| && Word(bs, 3) == |x.parameters|
            && PairAt(bs, 4, x.fields, AnnotationSets, i, offs)
            && PairAt(bs, 4 + 2 * |x.fields|, x.methods, AnnotationSets, i, offs)
            && PairAt(bs, 4 + 2 * |x.fields| + 2 * |x.methods|, x.parameters, AnnotationSetRefs, i, offs)
  {
    hide U32, Val, Word, WordOf, EncFields, OffsetOf, To, DirectoryRecord, MemberAnnotationFields, PairAt, AreWords;
    var r := DirectoryRecord(x);
    DirectoryWords(x);
    DirectoryParts(x);
    forall j: nat | j < |r| ensures Word(EncRecord(r, offs), j) == WordOf(r[j], offs) { WordAt(r, j, |r|, offs); }
    OffsetIs(To(AnnotationSets, x.classAnnotation), offs);
    WordIs(|x.fields|, offs);
    WordIs(|x.methods|, offs);
    WordIs(|x.parameters|, offs);
    PairReads(r, 4, x.fields, AnnotationSets, i, offs);
    PairReads(r, 4 + 2 * |x.fields|, x.methods, AnnotationSets, i, offs);
    PairReads(r, 4 + 2 * |x.fields| + 2 * |x.methods|, x.parameters, AnnotationSetRefs, i, offs);
  }

  lemma DirectoryWords(x: Directory)
    ensures AreWords(DirectoryRecord(x))
  {
    hide U32;
  }

  lemma DirectoryParts(x: Directory)
    ensures var (r, a, b, c) := (DirectoryRecord(x), 2 * |x.fields|, 2 * |x.methods|, 2 * |x.parameters|);
            && |r| == 4 + a + b + c && r[0] == Off32(To(AnnotationSets, x.classAnnotation))
            && r[1] == Raw(U32(|x.fields|)) && r[2] == Raw(U32(|x.methods|)) && r[3] == Raw(U32(|x.parameters|))
            && r[4..4 + a] == MemberAnnotationFields(x.fields, AnnotationSets)
            && r[4 + a..4 + a + b] == MemberAnnotationFields(x.methods, AnnotationSets)
            && r[4 + a + b..4 + a + b + c] == MemberAnnotationFields(x.parameters, AnnotationSetRefs)
  {
    hide U32, To;
    FourParts(DirectoryRecord(x)[..4], MemberAnnotationFields(x.fields, AnnotationSets),
              MemberAnnotationFields(x.methods, AnnotationSets),
              MemberAnnotationFields(x.parameters, AnnotationSetRefs));
  }

  lemma FourParts<T>(h: seq<T>, a: seq<T>, b: seq<T>, c: seq<T>)
    ensures var r := h + a + b + c;
            var (i, j) := (|h| + |a|, |h| + |a| + |b|);
            r[|h|..i] == a && r[i..j] == b && r[j..] == c && r[j..j + |c|] == c
  {
  }

  /** Pair i of a list that starts at word w: the member, and where its annotations are. */
  ghost predicate PairAt(bs: seq<byte>, w: nat, ms: seq<MemberAnnotation>, kind: Kind, i: nat, offs: Offsets) {
    i < |ms| ==>
      && Word(bs, w + 2 * i) == ms[i].member
      && Word(bs, w + 2 * i + 1) == OffsetOf(offs, Some(Ref(kind, ms[i].annotations)))
  }

  lemma PairReads(r: Record, w: nat, ms: seq<MemberAnnotation>, kind: Kind, i: nat, offs: Offsets)
    requires Small(offs) && forall k :: 0 <= k < |ms| ==> ms[k].member < TWO_TO_THE_32
    requires w + 2 * |ms| <= |r| && r[w..w + 2 * |ms|] == MemberAnnotationFields(ms, kind)
    requires forall j: nat :: j < |r| ==> Word(EncRecord(r, offs), j) == WordOf(r[j], offs)
    ensures PairAt(EncRecord(r, offs), w, ms, kind, i, offs)
  {
    hide U32, Val, Word, WordOf, EncFields, OffsetOf;
    if i < |ms| {
      assert r[w..w + 2 * |ms|][2 * i] == r[w + 2 * i] && r[w..w + 2 * |ms|][2 * i + 1] == r[w + 2 * i + 1];
      WordIs(ms[i].member, offs);
      OffsetIs(Some(Ref(kind, ms[i].annotations)), offs);
    }
  }

  // ---- records of 16-bit halves

  lemma {:induction false} FourHalves(a: nat, b: nat, c: nat, d: nat, offs: Offsets)
    requires a < TWO_TO_THE_16 && b < TWO_TO_THE_16 && c < TWO_TO_THE_16 && d < TWO_TO_THE_16
    ensures var bs := EncRecord([Raw(U16(a)), Raw(U16(b)), Raw(U16(c)), Raw(U16(d))], offs);
            |bs| == 8 && Half(bs, 0) == a && Half(bs, 1) == b && Half(bs, 2) == c && Half(bs, 3) == d
  {
    U16RoundTrip(a);
    U16RoundTrip(b);
    U16RoundTrip(c);
    U16RoundTrip(d);
    hide U16, Val;
    var r := [Raw(U16(a)), Raw(U16(b)), Raw(U16(c)), Raw(U16(d))];
    assert EncFields(r, 1, offs) == EncFields(r, 0, offs) + U16(a);
    assert EncFields(r, 2, offs) == EncFields(r, 1, offs) + U16(b);
    assert EncFields(r, 3, offs) == EncFields(r, 2, offs) + U16(c);
    var bs := EncFields(r, 4, offs);
    assert bs == U16(a) + U16(b) + U16(c) + U16(d);
    FourParts(U16(a), U16(b), U16(c), U16(d));
    assert bs[0..2] == U16(a);
  }

  /** A field or method id: class, type or prototype, and the name as the second word. */
  lemma {:induction false} MemberIdReads(klass: nat, second: nat, name: nat, offs: Offsets)
    requires klass < TWO_TO_THE_16 && second < TWO_TO_THE_16 && name < TWO_TO_THE_32
    ensures var bs := EncRecord(MemberIdRecord(klass, second, name), offs);
            && |bs| == 8 && Half(bs, 0) == klass && Half(bs, 1) == second
            && Half(bs, 2) + TWO_TO_THE_16 * Half(bs, 3) == name
  {
    hide Half, EncFields, LittleEndian;
    var (low, high) := (name % TWO_TO_THE_16, name / TWO_TO_THE_16);
    U16Low(name);
    FourHalves(klass, second, low, high, offs);
  }

  lemma U16Low(x: nat)
    ensures U16(x) == U16(x % TWO_TO_THE_16)
  {
  }

  lemma {:induction false} MethodHandleReads(x: MethodHandle, offs: Offsets)
    requires x.handleType < TWO_TO_THE_16 && x.fieldOrMethod < TWO_TO_THE_16
    ensures var bs := EncRecord(MethodHandleRecord(x), offs);
            && |bs| == 8 && Half(bs, 0) == x.handleType && Half(bs, 1) == 0
            && Half(bs, 2) == x.fieldOrMethod && Half(bs, 3) == 0
  {
    hide Half, EncFields, LittleEndian;
    FourHalves(x.handleType, 0, x.fieldOrMethod, 0, offs);
  }

  /** A type list: a word that counts, then halves. */
  lemma {:induction false} TypeListReads(types: seq<nat>, i: nat, n: nat, offs: Offsets)
    requires i < n <= |types| < TWO_TO_THE_32 && types[i] < TWO_TO_THE_16
    ensures var bs := EncFields(TypeListRecord(types), n + 1, offs);
            |bs| == 4 + 2 * n && Word(bs, 0) == |types| && Val(bs[4 + 2 * i..6 + 2 * i]) == types[i]
    decreases n
  {
    hide U16, U32, Val, EncFields, TypeListRecord, Word;
    TypeListStep(types, n, offs);
    var r := TypeListRecord(types);
    var before := EncFields(r, n, offs);
    TypeListLength(types, n - 1, offs);
    TypeListLength(types, n, offs);
    var o: nat := 4 + 2 * i;
    if i < n - 1 {
      TypeListReads(types, i, n - 1, offs);
      Behind(before, U16(types[n - 1]), o, o + 2);
    } else {
      Behind(before, U16(types[i]), 0, 0);
      U16RoundTrip(types[i]);
    }
  }

  lemma TypeListStep(types: seq<nat>, n: nat, offs: Offsets)
    requires 0 < n <= |types|
    ensures |TypeListRecord(types)| == |types| + 1
    ensures EncFields(TypeListRecord(types), n + 1, offs)
          == EncFields(TypeListRecord(types), n, offs) + U16(types[n - 1])
  {
    hide U16, U32;
  }

  lemma {:induction false} TypeListLength(types: seq<nat>, n: nat, offs: Offsets)
    requires n <= |types| < TWO_TO_THE_32
    ensures var bs := EncFields(TypeListRecord(types), n + 1, offs); |bs| == 4 + 2 * n && Word(bs, 0) == |types|
    decreases n
  {
    hide U16, U32, Val;
    var r := TypeListRecord(types);
    if n > 0 {
      TypeListLength(types, n - 1, offs);
      var bs, before := EncFields(r, n + 1, offs), EncFields(r, n, offs);
      assert bs == before + U16(types[n - 1]) && bs[0..4] == before[0..4];
    } else {
      assert EncFields(r, 1, offs) == EncFields(r, 0, offs) + U32(|types|);
      assert EncFields(r, 1, offs)[0..4] == U32(|types|);
      U32RoundTrip(|types|);
    }
  }

  // ---- class datas

  datatype FieldView = FieldView(index: nat, accessFlags: nat)
  datatype MethodView = MethodView(index: nat, accessFlags: nat, codeOffset: nat)
  datatype ClassView = ClassView(staticFields: seq<FieldView>, instanceFields: seq<FieldView>,
                                 directMethods: seq<MethodView>, virtualMethods: seq<MethodView>)

  function Sum(index: nat, delta: nat): (i: nat) { (index + delta) % TWO_TO_THE_32 }

  /** Count fields from bytes, each index relative to the one before. */
  function ReadFields(bs: seq<byte>, count: nat, index: nat): (r: Option<Got<seq<FieldView>>>)
    ensures r.Some? ==> r.value.size <= |bs|
    decreases count
  {
    if count == 0 then Some(Got([], 0))
    else
      var d :- DecodeUleb(bs);
      var f :- DecodeUleb(bs[d.size..]);
      var i := Sum(index, d.value);
      var rest :- ReadFields(bs[d.size + f.size..], count - 1, i);
      Some(Got([FieldView(i, f.value)] + rest.what, d.size + f.size + rest.size))
  }

  function ReadMethods(bs: seq<byte>, count: nat, index: nat): (r: Option<Got<seq<MethodView>>>)
    ensures r.Some? ==> r.value.size <= |bs|
    decreases count
  {
    if count == 0 then Some(Got([], 0))
    else
      var d :- DecodeUleb(bs);
      var f :- DecodeUleb(bs[d.size..]);
      var c :- DecodeUleb(bs[d.size + f.size..]);
      var i := Sum(index, d.value);
      var rest :- ReadMethods(bs[d.size + f.size + c.size..], count - 1, i);
      Some(Got([MethodView(i, f.value, c.value)] + rest.what, d.size + f.size + c.size + rest.size))
  }

  ghost function FieldViews(fs: seq<FieldItem>): (vs: seq<FieldView>) {
    seq(|fs|, i requires 0 <= i < |fs| => FieldView(fs[i].index, fs[i].accessFlags))
  }

  ghost function MethodViews(ms: seq<MethodItem>, offs: Offsets): (vs: seq<MethodView>) {
    seq(|ms|, i requires 0 <= i < |ms| =>
      MethodView(ms[i].index, ms[i].accessFlags, OffsetOf(offs, To(CodeItems, ms[i].code))))
  }

  ghost predicate SmallFields(fs: seq<FieldItem>) {
    forall i :: 0 <= i < |fs| ==> fs[i].index < TWO_TO_THE_32 && fs[i].accessFlags < TWO_TO_THE_32
  }

  ghost predicate SmallMethods(ms: seq<MethodItem>) {
    forall i :: 0 <= i < |ms| ==> ms[i].index < TWO_TO_THE_32 && ms[i].accessFlags < TWO_TO_THE_32
  }

  lemma DeltaBack(x: nat, previous: nat)
    requires x < TWO_TO_THE_32 && previous < TWO_TO_THE_32
    ensures Delta(x, previous) < TWO_TO_THE_32 && Sum(previous, Delta(x, previous)) == x
  {
  }

  lemma {:induction false} EncAppend(a: Record, b: Record, n: nat, offs: Offsets)
    requires n <= |b|
    ensures EncFields(a + b, |a| + n, offs) == EncRecord(a, offs) + EncFields(b, n, offs)
    decreases n
  {
    hide EncField;
    if n > 0 {
      EncAppend(a, b, n - 1, offs);
    } else {
      SamePrefix(a, a + b, |a|, offs);
    }
  }

  lemma {:induction false} SamePrefix(a: Record, b: Record, n: nat, offs: Offsets)
    requires n <= |a| && a <= b
    ensures EncFields(a, n, offs) == EncFields(b, n, offs)
    decreases n
  {
    hide EncField;
    if n > 0 {
      SamePrefix(a, b, n - 1, offs);
    }
  }

  lemma {:induction false} FieldsRoundTrip(fs: seq<FieldItem>, previous: nat, offs: Offsets, rest: seq<byte>)
    requires SmallFields(fs) && previous < TWO_TO_THE_32
    ensures var bs := EncRecord(FieldItemsFields(fs, previous), offs);
            ReadFields(bs + rest, |fs|, previous) == Some(Got(FieldViews(fs), |bs|))
    decreases |fs|
  {
    hide Uleb, DecodeUleb, Delta, Sum, EncRecord, ReadFields, FieldItemsFields;
    if fs != [] {
      var x := fs[0];
      var tail := EncRecord(FieldItemsFields(fs[1..], x.index), offs);
      FieldBytes(fs, previous, offs);
      FieldsRoundTrip(fs[1..], x.index, offs, rest);
      ReadOneField(Uleb(Delta(x.index, previous)), Uleb(x.accessFlags), tail, rest, x, previous, |fs|);
      assert FieldViews(fs) == [FieldView(x.index, x.accessFlags)] + FieldViews(fs[1..]);
    } else {
      NoFields(previous, offs, rest);
      assert FieldViews(fs) == [];
    }
  }

  lemma NoFields(previous: nat, offs: Offsets, rest: seq<byte>)
    ensures EncRecord(FieldItemsFields([], previous), offs) == []
    ensures ReadFields([] + rest, 0, previous) == Some(Got([], 0))
  {
  }

  lemma FieldBytes(fs: seq<FieldItem>, previous: nat, offs: Offsets)
    requires fs != [] && SmallFields(fs)
    ensures var x := fs[0];
            EncRecord(FieldItemsFields(fs, previous), offs)
            == Uleb(Delta(x.index, previous)) + Uleb(x.accessFlags)
               + EncRecord(FieldItemsFields(fs[1..], x.index), offs)
  {
    hide Uleb, Delta, EncRecord;
    TwoFields(Uleb(Delta(fs[0].index, previous)), Uleb(fs[0].accessFlags), FieldItemsFields(fs[1..], fs[0].index),
              offs);
  }

  lemma TwoFields(d: seq<byte>, f: seq<byte>, r: Record, offs: Offsets)
    ensures EncRecord([Raw(d), Raw(f)] + r, offs) == d + f + EncRecord(r, offs)
  {
    EncAppend([Raw(d), Raw(f)], r, |r|, offs);
    Pair(d, f, offs);
  }

  lemma Pair(d: seq<byte>, f: seq<byte>, offs: Offsets)
    ensures EncRecord([Raw(d), Raw(f)], offs) == d + f
  {
    var two := [Raw(d), Raw(f)];
    assert EncFields(two, 1, offs) == EncFields(two, 0, offs) + d;
    assert EncFields(two, 2, offs) == EncFields(two, 1, offs) + f;
  }

  lemma ReadOneField(d: seq<byte>, f: seq<byte>, tail: seq<byte>, rest: seq<byte>, x: FieldItem, previous: nat,
                     count: nat)
    requires x.index < TWO_TO_THE_32 && x.accessFlags < TWO_TO_THE_32 && previous < TWO_TO_THE_32 && count > 0
    requires d == Uleb(Delta(x.index, previous)) && f == Uleb(x.accessFlags)
    ensures var r := ReadFields(tail + rest, count - 1, x.index);
            ReadFields(d + f + tail + rest, count, previous)
            == if r.None? then None
               else Some(Got([FieldView(x.index, x.accessFlags)] + r.value.what, |d| + |f| + r.value.size))
  {
    hide Uleb, DecodeUleb, Delta, Sum;
    DeltaBack(x.index, previous);
    Regrouped(d, f, tail, rest);
    UlebRoundTrip(Delta(x.index, previous), f + (tail + rest));
    UlebRoundTrip(x.accessFlags, tail + rest);
  }

  lemma Regrouped<T>(a: seq<T>, b: seq<T>, c: seq<T>, rest: seq<T>)
    ensures a + b + c + rest == a + (b + (c + rest))
    ensures (a + (b + (c + rest)))[|a|..] == b + (c + rest)
    ensures (a + (b + (c + rest)))[|a| + |b|..] == c + rest
  {
  }

  lemma {:induction false} MethodsRoundTrip(ms: seq<MethodItem>, previous: nat, offs: Offsets, rest: seq<byte>)
    requires SmallMethods(ms) && previous < TWO_TO_THE_32 && Small(offs)
    ensures var bs := EncRecord(MethodItemsFields(ms, previous), offs);
            ReadMethods(bs + rest, |ms|, previous) == Some(Got(MethodViews(ms, offs), |bs|))
    decreases |ms|
  {
    hide Uleb, DecodeUleb, Delta, Sum, EncRecord, OffsetOf, To, ReadMethods, MethodItemsFields;
    if ms != [] {
      var x := ms[0];
      var code := OffsetOf(offs, To(CodeItems, x.code));
      var tail := EncRecord(MethodItemsFields(ms[1..], x.index), offs);
      MethodBytes(ms, previous, offs);
      MethodsRoundTrip(ms[1..], x.index, offs, rest);
      ReadOneMethod(Uleb(Delta(x.index, previous)), Uleb(x.accessFlags), Uleb(code), tail, rest, x, code, previous,
                    |ms|);
      assert MethodViews(ms, offs) == [MethodView(x.index, x.accessFlags, code)] + MethodViews(ms[1..], offs);
    } else {
      NoMethods(previous, offs, rest);
      assert MethodViews(ms, offs) == [];
    }
  }

  lemma NoMethods(previous: nat, offs: Offsets, rest: seq<byte>)
    ensures EncRecord(MethodItemsFields([], previous), offs) == []
    ensures ReadMethods([] + rest, 0, previous) == Some(Got([], 0))
  {
  }

  lemma MethodBytes(ms: seq<MethodItem>, previous: nat, offs: Offsets)
    requires ms != [] && SmallMethods(ms) && Small(offs)
    ensures var x := ms[0];
            EncRecord(MethodItemsFields(ms, previous), offs)
            == Uleb(Delta(x.index, previous)) + Uleb(x.accessFlags) + Uleb(OffsetOf(offs, To(CodeItems, x.code)))
               + EncRecord(MethodItemsFields(ms[1..], x.index), offs)
  {
    hide Uleb, Delta, EncRecord, OffsetOf, To, MethodItemsFields;
    MethodFields(ms, previous);
    var x := ms[0];
    var ref := To(CodeItems, x.code);
    var d, f, r := Uleb(Delta(x.index, previous)), Uleb(x.accessFlags), MethodItemsFields(ms[1..], x.index);
    TwoFields(d, f, [OffUleb(ref)] + r, offs);
    OneOffset(ref, r, offs);
    hide Small, SmallMethods;
    Regrouped(d + f, Uleb(OffsetOf(offs, ref)), EncRecord(r, offs), []);
  }

  lemma MethodFields(ms: seq<MethodItem>, previous: nat)
    requires ms != [] && SmallMethods(ms)
    ensures var x := ms[0];
            MethodItemsFields(ms, previous)
            == [Raw(Uleb(Delta(x.index, previous))), Raw(Uleb(x.accessFlags))]
               + ([OffUleb(To(CodeItems, x.code))] + MethodItemsFields(ms[1..], x.index))
  {
    hide Uleb, Delta, To;
  }

  lemma OneOffset(ref: Option<Ref>, r: Record, offs: Offsets)
    requires OffsetOf(offs, ref) < TWO_TO_THE_32
    ensures EncRecord([OffUleb(ref)] + r, offs) == Uleb(OffsetOf(offs, ref)) + EncRecord(r, offs)
  {
    hide Uleb, OffsetOf;
    EncAppend([OffUleb(ref)], r, |r|, offs);
    var one := [OffUleb(ref)];
    assert EncFields(one, 1, offs) == EncFields(one, 0, offs) + EncField(one[0], offs);
  }

  lemma ReadOneMethod(d: seq<byte>, f: seq<byte>, c: seq<byte>, tail: seq<byte>, rest: seq<byte>, x: MethodItem,
                      code: nat, previous: nat, count: nat)
    requires x.index < TWO_TO_THE_32 && x.accessFlags < TWO_TO_THE_32 && code < TWO_TO_THE_32
    requires previous < TWO_TO_THE_32 && count > 0
    requires d == Uleb(Delta(x.index, previous)) && f == Uleb(x.accessFlags) && c == Uleb(code)
    ensures var r := ReadMethods(tail + rest, count - 1, x.index);
            ReadMethods(d + f + c + tail + rest, count, previous)
            == if r.None? then None
               else Some(Got([MethodView(x.index, x.accessFlags, code)] + r.value.what, |d| + |f| + |c| + r.value.size))
  {
    hide Uleb, DecodeUleb, Delta, Sum, ReadMethods;
    DeltaBack(x.index, previous);
    var after := tail + rest;
    assert d + f + c + tail + rest == d + f + c + after;
    Regrouped(d, f, c, after);
    UlebRoundTrip(Delta(x.index, previous), f + (c + after));
    UlebRoundTrip(x.accessFlags, c + after);
    UlebRoundTrip(code, after);
    MethodStep(d, f, c, after, count, previous);
  }

  lemma MethodStep(d: seq<byte>, f: seq<byte>, c: seq<byte>, after: seq<byte>, count: nat, previous: nat)
    requires count > 0 && DecodeUleb(d + (f + (c + after))).Some?
    requires DecodeUleb(f + (c + after)).Some? && DecodeUleb(c + after).Some?
    requires DecodeUleb(d + (f + (c + after))).value.size == |d|
    requires DecodeUleb(f + (c + after)).value.size == |f| && DecodeUleb(c + after).value.size == |c|
    ensures var i := Sum(previous, DecodeUleb(d + (f + (c + after))).value.value);
            var view := MethodView(i, DecodeUleb(f + (c + after)).value.value, DecodeUleb(c + after).value.value);
            var r := ReadMethods(after, count - 1, i);
            ReadMethods(d + (f + (c + after)), count, previous)
            == if r.None? then None else Some(Got([view] + r.value.what, |d| + |f| + |c| + r.value.size))
  {
    hide DecodeUleb, Sum;
    Regrouped(d, f, c, after);
    assert (d + (f + (c + after)))[|d| + |f| + |c|..] == after;
  }

  datatype Counts = Counts(staticFields: nat, instanceFields: nat, directMethods: nat, virtualMethods: nat)

  function ReadCounts(bs: seq<byte>): (r: Option<Got<Counts>>)
    ensures r.Some? ==> r.value.size <= |bs|
  {
    var a :- DecodeUleb(bs);
    var b :- DecodeUleb(bs[a.size..]);
    var c :- DecodeUleb(bs[a.size + b.size..]);
    var d :- DecodeUleb(bs[a.size + b.size + c.size..]);
    Some(Got(Counts(a.value, b.value, c.value, d.value), a.size + b.size + c.size + d.size))
  }

  function ReadMembers(bs: seq<byte>, n: Counts): (r: Option<Got<ClassView>>) {
    var a :- ReadFields(bs, n.staticFields, 0);
    var b :- ReadFields(bs[a.size..], n.instanceFields, 0);
    var c :- ReadMethods(bs[a.size + b.size..], n.directMethods, 0);
    var d :- ReadMethods(bs[a.size + b.size + c.size..], n.virtualMethods, 0);
    Some(Got(ClassView(a.what, b.what, c.what, d.what), a.size + b.size + c.size + d.size))
  }

  /** A class_data_item: four counts, then the members. */
  function ReadClassData(bs: seq<byte>): (r: Option<Got<ClassView>>) {
    var n :- ReadCounts(bs);
    var v :- ReadMembers(bs[n.size..], n.what);
    Some(Got(v.what, n.size + v.size))
  }

  ghost predicate SmallClassData(x: ClassData) {
    && SmallFields(x.staticFields) && SmallFields(x.instanceFields)
    && SmallMethods(x.directMethods) && SmallMethods(x.virtualMethods)
    && |x.staticFields| < TWO_TO_THE_32 && |x.instanceFields| < TWO_TO_THE_32
    && |x.directMethods| < TWO_TO_THE_32 && |x.virtualMethods| < TWO_TO_THE_32
  }

  ghost function ViewOf(x: ClassData, offs: Offsets): (v: ClassView) {
    ClassView(FieldViews(x.staticFields), FieldViews(x.instanceFields),
              MethodViews(x.directMethods, offs), MethodViews(x.virtualMethods, offs))
  }

  lemma FourInARow<T>(a: seq<T>, b: seq<T>, c: seq<T>, d: seq<T>, rest: seq<T>)
    ensures var bs := a + b + c + d + rest;
            && bs == a + (b + (c + (d + rest))) && bs[|a|..] == b + (c + (d + rest))
            && bs[|a| + |b|..] == c + (d + rest) && bs[|a| + |b| + |c|..] == d + rest
            && bs[|a| + |b| + |c| + |d|..] == rest
  {
  }

  lemma {:induction false} CountsRoundTrip(n: Counts, rest: seq<byte>)
    requires n.staticFields < TWO_TO_THE_32 && n.instanceFields < TWO_TO_THE_32
    requires n.directMethods < TWO_TO_THE_32 && n.virtualMethods < TWO_TO_THE_32
    ensures var bs := Uleb(n.staticFields) + Uleb(n.instanceFields) + Uleb(n.directMethods) + Uleb(n.virtualMethods);
            ReadCounts(bs + rest) == Some(Got(n, |bs|))
  {
    hide Uleb, DecodeUleb;
    var (a, b, c, d) := (Uleb(n.staticFields), Uleb(n.instanceFields), Uleb(n.directMethods), Uleb(n.virtualMethods));
    FourInARow(a, b, c, d, rest);
    UlebRoundTrip(n.staticFields, b + (c + (d + rest)));
    UlebRoundTrip(n.instanceFields, c + (d + rest));
    UlebRoundTrip(n.directMethods, d + rest);
    UlebRoundTrip(n.virtualMethods, rest);
  }

  ghost function CountsOf(x: ClassData): (n: Counts) {
    Counts(|x.staticFields|, |x.instanceFields|, |x.directMethods|, |x.virtualMethods|)
  }

  /** The members' bytes. */
  ghost function MemberBytes(x: ClassData, offs: Offsets): (bs: seq<byte>) {
    EncRecord(FieldItemsFields(x.staticFields, 0), offs) + EncRecord(FieldItemsFields(x.instanceFields, 0), offs)
    + EncRecord(MethodItemsFields(x.directMethods, 0), offs) + EncRecord(MethodItemsFields(x.virtualMethods, 0), offs)
  }

  lemma {:induction false} MembersRoundTrip(x: ClassData, offs: Offsets, rest: seq<byte>)
    requires SmallClassData(x) && Small(offs)
    ensures ReadMembers(MemberBytes(x, offs) + rest, CountsOf(x)) == Some(Got(ViewOf(x, offs), |MemberBytes(x, offs)|))
  {
    hide EncRecord, FieldItemsFields, MethodItemsFields, ReadFields, ReadMethods, FieldViews, MethodViews, SmallFields,
         SmallMethods, Small;
    var a := EncRecord(FieldItemsFields(x.staticFields, 0), offs);
    var b := EncRecord(FieldItemsFields(x.instanceFields, 0), offs);
    var c := EncRecord(MethodItemsFields(x.directMethods, 0), offs);
    var d := EncRecord(MethodItemsFields(x.virtualMethods, 0), offs);
    FourInARow(a, b, c, d, rest);
    FieldsRoundTrip(x.staticFields, 0, offs, b + (c + (d + rest)));
    FieldsRoundTrip(x.instanceFields, 0, offs, c + (d + rest));
    MethodsRoundTrip(x.directMethods, 0, offs, d + rest);
    MethodsRoundTrip(x.virtualMethods, 0, offs, rest);
  }

  lemma {:induction false} ClassDataBytes(x: ClassData, offs: Offsets)
    requires SmallClassData(x)
    ensures EncRecord(ClassDataRecord(x), offs)
         == Uleb(|x.staticFields|) + Uleb(|x.instanceFields|) + Uleb(|x.directMethods|) + Uleb(|x.virtualMethods|)
            + MemberBytes(x, offs)
  {
    hide Uleb, EncFields, FieldItemsFields, MethodItemsFields, SmallFields, SmallMethods;
    var (a, b, c, d) := (Uleb(|x.staticFields|), Uleb(|x.instanceFields|),
                         Uleb(|x.directMethods|), Uleb(|x.virtualMethods|));
    var (p, q) := (FieldItemsFields(x.staticFields, 0), FieldItemsFields(x.instanceFields, 0));
    var (r, s) := (MethodItemsFields(x.directMethods, 0), MethodItemsFields(x.virtualMethods, 0));
    var head := [Raw(a), Raw(b), Raw(c), Raw(d)];
    assert ClassDataRecord(x) == head + p + q + r + s;
    EncAppend(head + p + q + r, s, |s|, offs);
    EncAppend(head + p + q, r, |r|, offs);
    EncAppend(head + p, q, |q|, offs);
    EncAppend(head, p, |p|, offs);
    assert head == [Raw(a), Raw(b)] + [Raw(c), Raw(d)];
    TwoFields(a, b, [Raw(c), Raw(d)], offs);
    Pair(c, d, offs);
  }

  /** Class data survives: every member with its index, flags and the offset of its code. */
  lemma {:induction false} ClassDataRoundTrip(x: ClassData, offs: Offsets, rest: seq<byte>)
    requires SmallClassData(x) && Small(offs)
    ensures var bs := EncRecord(ClassDataRecord(x), offs); ReadClassData(bs + rest) == Some(Got(ViewOf(x, offs), |bs|))
  {
    hide Uleb, EncRecord, ReadCounts, ReadMembers, MemberBytes, ViewOf;
    ClassDataBytes(x, offs);
    var n := CountsOf(x);
    var counts := Uleb(n.staticFields) + Uleb(n.instanceFields) + Uleb(n.directMethods) + Uleb(n.virtualMethods);
    Skip(counts, MemberBytes(x, offs), rest);
    CountsRoundTrip(n, MemberBytes(x, offs) + rest);
    MembersRoundTrip(x, offs, rest);
  }

  // ---- string datas

  /** A string_data_item: the length in UTF-16 units, then bytes up to a zero. */
  lemma {:induction false} StringDataReads(x: StringData, offs: Offsets, rest: seq<byte>)
    requires x.utf16Length < TWO_TO_THE_32
    ensures var bs, d := EncRecord(StringDataRecord(x), offs), DecodeUleb(EncRecord(StringDataRecord(x), offs) + rest);
            && d.Some? && d.value.value == x.utf16Length && |bs| == d.value.size + |x.bytes| + 1
            && bs[d.value.size..|bs| - 1] == x.bytes && bs[|bs| - 1] == 0
  {
    hide Uleb, DecodeUleb, EncFields;
    var u := Uleb(x.utf16Length);
    TwoFields(u, x.bytes, [Raw([0])], offs);
    assert StringDataRecord(x) == [Raw(u), Raw(x.bytes)] + [Raw([0])];
    LastRaw([0], offs);
    assert (u + x.bytes + [0]) + rest == u + (x.bytes + [0] + rest);
    UlebRoundTrip(x.utf16Length, x.bytes + [0] + rest);
  }

  lemma LastRaw(bs: seq<byte>, offs: Offsets)
    ensures EncRecord([Raw(bs)], offs) == bs
  {
    assert EncFields([Raw(bs)], 0, offs) == [];
    assert EncFields([Raw(bs)], 1, offs) == [] + bs;
  }
}
