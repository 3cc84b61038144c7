/**
 Reading back the items with parts of their own: code items, arrays of encoded
 values and annotations.
 */
module DexItems {
  import opened Bytes
  import opened Leb128
  import opened Reading
  import opened ByteStream
  import opened SectionWriter
  import opened CatchHandlers
  import opened CatchHandlerWriter
  import opened CodeItems
  import opened DexIr
  import EV = EncodedValues
  import EVP = EncodedValueProofs
  import opened DexRecords

  // ---- code items

  ghost predicate SmallCode(c: CodeItem) {
    && c.registers < TWO_TO_THE_16 && c.ins < TWO_TO_THE_16 && c.outs < TWO_TO_THE_16 && |c.tries| < TWO_TO_THE_16
    && |c.insns| < TWO_TO_THE_32 && (forall i :: 0 <= i < |c.insns| ==> c.insns[i] < TWO_TO_THE_16)
    && (forall i :: 0 <= i < |c.tries| ==> SmallTry(c, c.tries[i]))
  }

  ghost predicate SmallTry(c: CodeItem, t: Try) {
    && t.startAddr < TWO_TO_THE_32 && t.insnCount < TWO_TO_THE_16
    && t.handler < |c.handlers| && c.handlers[t.handler].listOffset < TWO_TO_THE_16
  }

  ghost function DebugRef(c: CodeItem): (r: Option<Ref>) {
    if c.debugInfo.None? then None else Some(Ref(DebugInfos, c.debugInfo.value))
  }

  lemma {:induction false} HeaderReads(c: CodeItem)
    requires SmallCode(c)
    ensures var bs := HeaderFields(c);
            && Val(bs[0..2]) == c.registers && Val(bs[2..4]) == c.ins && Val(bs[4..6]) == c.outs
            && Val(bs[6..8]) == |c.tries|
  {
    hide U16, Val;
    U16RoundTrip(c.registers);
    U16RoundTrip(c.ins);
    U16RoundTrip(c.outs);
    U16RoundTrip(|c.tries|);
    FourParts(U16(c.registers), U16(c.ins), U16(c.outs), U16(|c.tries|));
    Behind(U16(c.registers), U16(c.ins) + U16(c.outs) + U16(|c.tries|), 0, 2);
    assert HeaderFields(c) == U16(c.registers) + (U16(c.ins) + U16(c.outs) + U16(|c.tries|));
  }

  lemma {:induction false} UnitAt(insns: seq<nat>, i: nat, n: nat)
    requires i < n <= |insns| && insns[i] < TWO_TO_THE_16
    ensures Val(UnitBytes(insns, n)[2 * i..2 * i + 2]) == insns[i]
    decreases n
  {
    hide U16, Val;
    var before := UnitBytes(insns, n - 1);
    if i < n - 1 {
      UnitAt(insns, i, n - 1);
      Behind(before, U16(insns[n - 1]), 2 * i, 2 * i + 2);
    } else {
      Behind(before, U16(insns[n - 1]), 0, 0);
      U16RoundTrip(insns[i]);
    }
  }

  lemma {:induction false} TryReads(c: CodeItem, t: Try)
    requires SmallTry(c, t)
    ensures var bs := TryBytes(c, t);
            && Val(bs[0..4]) == t.startAddr && Val(bs[4..6]) == t.insnCount
            && Val(bs[6..8]) == c.handlers[t.handler].listOffset
  {
    hide U16, U32, Val;
    var o := c.handlers[t.handler].listOffset;
    U32RoundTrip(t.startAddr);
    U16RoundTrip(t.insnCount);
    U16RoundTrip(o);
    assert TryBytes(c, t)[0..4] == U32(t.startAddr) && TryBytes(c, t)[4..6] == U16(t.insnCount);
    assert TryBytes(c, t)[6..8] == U16(o);
  }

  lemma {:induction false} TryAt(c: CodeItem, i: nat, n: nat)
    requires i < n <= |c.tries|
    ensures TriesBytes(c, n)[8 * i..8 * i + 8] == TryBytes(c, c.tries[i])
    decreases n
  {
    hide TryBytes;
    var before := TriesBytes(c, n - 1);
    if i < n - 1 {
      TryAt(c, i, n - 1);
      Behind(before, TryBytes(c, c.tries[n - 1]), 8 * i, 8 * i + 8);
    } else {
      Behind(before, TryBytes(c, c.tries[n - 1]), 0, 0);
    }
  }

  /** Where the try items of a code item start. */
  ghost function TriesStart(c: CodeItem): (o: nat) { 16 + 2 * |c.insns| + PadLen(2 * |c.insns|, 4) }

  ghost predicate FixedReads(c: CodeItem, bs: seq<byte>, offs: Offsets) {
    && |bs| >= 16
    && Val(bs[0..2]) == c.registers && Val(bs[2..4]) == c.ins && Val(bs[4..6]) == c.outs && Val(bs[6..8]) == |c.tries|
    && Val(bs[8..12]) == OffsetOf(offs, DebugRef(c)) && Val(bs[12..16]) == |c.insns|
  }

  lemma {:induction false} FixedPartReads(c: CodeItem, offs: Offsets)
    requires SmallCode(c) && Small(offs)
    ensures FixedReads(c, FixedPart(c, offs), offs)
  {
    hide U32, Val, HeaderFields, OffsetOf;
    HeaderReads(c);
    U32RoundTrip(|c.insns|);
    U32RoundTrip(OffsetOf(offs, DebugRef(c)));
    var (h, d, n) := (HeaderFields(c), U32(OffsetOf(offs, DebugRef(c))), U32(|c.insns|));
    var bs := h + d + n;
    assert FixedPart(c, offs) == bs;
    assert bs[0..2] == h[0..2] && bs[2..4] == h[2..4] && bs[4..6] == h[4..6] && bs[6..8] == h[6..8];
    assert bs[8..12] == d && bs[12..16] == n;
  }

  lemma FixedReadsFurther(c: CodeItem, bs: seq<byte>, more: seq<byte>, offs: Offsets)
    requires FixedReads(c, bs, offs)
    ensures FixedReads(c, bs + more, offs)
  {
    hide Val, OffsetOf;
    Behind(bs, more, 0, 2);
    Behind(bs, more, 2, 4);
    Behind(bs, more, 4, 6);
    Behind(bs, more, 6, 8);
    Behind(bs, more, 8, 12);
    Behind(bs, more, 12, 16);
  }

  /** A code_item: the fixed part, the instructions, try items on a word boundary with the offsets
      of their handlers, and the handler table. */
  lemma {:induction false} CodeItemReads(c: CodeItem, offs: Offsets)
    requires SmallCode(c) && Small(offs)
    ensures var bs := EncRecord(CodeRecord(c), offs);
            && FixedReads(c, bs, offs)
            && (forall i :: 0 <= i < |c.insns| ==> UnitReads(bs, i, c.insns[i]))
            && (c.tries == [] ==> |bs| == 16 + 2 * |c.insns|)
            && (c.tries != [] ==>
                  && (forall i :: 0 <= i < |c.tries| ==> TryLiesAt(c, bs, i))
                  && TriesStart(c) + 8 * |c.tries| <= |bs|
                  && bs[TriesStart(c) + 8 * |c.tries|..] == TableBytes(c.handlers))
  {
    hide FixedPart, UnitBytes, PostBytes, EncRecord, CodeRecord, FixedReads, TableBytes, SmallCode, Small, UnitReads,
         TryLiesAt;
    CodeRecordBytes(c, offs);
    PostParts(c);
    FixedPartReads(c, offs);
    var (f, u, p) := (FixedPart(c, offs), UnitBytes(c.insns, |c.insns|), PostBytes(c));
    var bs := EncRecord(CodeRecord(c), offs);
    assert bs == f + (u + p);
    FixedReadsFurther(c, f, u + p, offs);
    forall i | 0 <= i < |c.insns| ensures UnitReads(bs, i, c.insns[i]) { UnitLies(c, f, u, p, i); }
    if c.tries != [] {
      forall i | 0 <= i < |c.tries| ensures TryLiesAt(c, bs, i) { TryLies(c, f + u, p, bs, i); }
      TableLies(c, f + u, p, bs);
    }
  }

  ghost predicate UnitReads(bs: seq<byte>, i: nat, x: nat) {
    18 + 2 * i <= |bs| && Val(bs[16 + 2 * i..18 + 2 * i]) == x
  }

  /** Try item i: its first address, its extent, and the offset of its handler's list. */
  ghost predicate TryLiesAt(c: CodeItem, bs: seq<byte>, i: nat)
    requires i < |c.tries|
  {
    var o := TriesStart(c) + 8 * i;
    && o + 8 <= |bs| && SmallTry(c, c.tries[i])
    && Val(bs[o..o + 4]) == c.tries[i].startAddr && Val(bs[o + 4..o + 6]) == c.tries[i].insnCount
    && Val(bs[o + 6..o + 8]) == c.handlers[c.tries[i].handler].listOffset
  }

  lemma UnitLies(c: CodeItem, f: seq<byte>, u: seq<byte>, p: seq<byte>, i: nat)
    requires |f| == 16 && u == UnitBytes(c.insns, |c.insns|) && i < |c.insns| && SmallCode(c)
    ensures UnitReads(f + (u + p), i, c.insns[i])
  {
    hide Val, UnitBytes;
    UnitAt(c.insns, i, |c.insns|);
    assert (f + (u + p))[16 + 2 * i..18 + 2 * i] == u[2 * i..2 * i + 2];
  }

  lemma {:induction false} TryLies(c: CodeItem, head: seq<byte>, p: seq<byte>, bs: seq<byte>, i: nat)
    requires |head| == 16 + 2 * |c.insns| && p == PostBytes(c) && bs == head + p && i < |c.tries| && SmallCode(c)
    ensures TryLiesAt(c, bs, i)
  {
    PostParts(c);
    hide Val, PostBytes, TriesBytes, TryBytes, TableBytes, PadLen;
    TryAt(c, i, |c.tries|);
    TryReads(c, c.tries[i]);
    var (pad, ts, table) := (Zeros(PadLen(2 * |c.insns|, 4)), TriesBytes(c, |c.tries|), TableBytes(c.handlers));
    var o := TriesStart(c) + 8 * i;
    var t := TryBytes(c, c.tries[i]);
    SliceAt(head + pad, ts, table, 8 * i, 8);
    assert bs == head + pad + ts + table;
    assert bs[o..o + 8] == t;
    assert bs[o..o + 4] == bs[o..o + 8][0..4] && bs[o + 4..o + 6] == bs[o..o + 8][4..6];
    assert bs[o + 6..o + 8] == bs[o..o + 8][6..8];
  }

  lemma TableLies(c: CodeItem, head: seq<byte>, p: seq<byte>, bs: seq<byte>)
    requires |head| == 16 + 2 * |c.insns| && p == PostBytes(c) && bs == head + p && c.tries != []
    ensures TriesStart(c) + 8 * |c.tries| <= |bs| && bs[TriesStart(c) + 8 * |c.tries|..] == TableBytes(c.handlers)
  {
    PostParts(c);
    hide PostBytes, TriesBytes, TableBytes, PadLen;
  }

  lemma SliceAt<T>(a: seq<T>, b: seq<T>, c: seq<T>, o: nat, n: nat)
    requires o + n <= |b|
    ensures (a + b + c)[|a| + o..|a| + o + n] == b[o..o + n]
  {
  }

  // ---- encoded arrays and annotations

  lemma {:induction false} EncodedArrayReads(pools: EV.Pools, values: seq<EV.Value>, offs: Offsets, rest: seq<byte>)
    requires |values| < TWO_TO_THE_32 && EV.ValidAll(pools, values) && EV.UnknownsIn(values) == 0
    ensures var bs := EncRecord(EncodedArrayRecord(values), offs);
            EV.ReadArray(pools, bs + rest) == Some(Got(EV.Array(values), |bs|))
  {
    hide Uleb, DecodeUleb, EV.EncAll, EV.ReadAll;
    var (u, body) := (Uleb(|values|), EV.EncAll(values));
    Pair(u, body, offs);
    Skip(u, body, rest);
    UlebRoundTrip(|values|, body + rest);
    EVP.RoundTripAll(pools, values, rest);
  }

  /** An annotation_item: the visibility, then the annotation. */
  lemma {:induction false} AnnotationReads(pools: EV.Pools, x: DexIr.Annotation, offs: Offsets, rest: seq<byte>)
    requires x.typeIndex < pools.types && x.typeIndex < TWO_TO_THE_32 && |x.elements| < TWO_TO_THE_32
    requires EV.ValidElements(pools, x.elements) && EV.UnknownsInElements(x.elements) == 0
    ensures var bs := EncRecord(AnnotationRecord(x), offs);
            && bs != [] && bs[0] == x.visibility
            && EV.ReadAnnotation(pools, bs[1..] + rest) == Some(Got(EV.Annotation(x.typeIndex, x.elements), |bs| - 1))
  {
    hide Uleb, DecodeUleb, EV.EncElements, EV.ReadElements;
    var (t, u, body) := (Uleb(x.typeIndex), Uleb(|x.elements|), EV.EncElements(x.elements));
    TwoFields([x.visibility], t, [Raw(u), Raw(body)], offs);
    Pair(u, body, offs);
    var bs := EncRecord(AnnotationRecord(x), offs);
    assert AnnotationRecord(x) == [Raw([x.visibility]), Raw(t)] + [Raw(u), Raw(body)];
    assert bs == [x.visibility] + (t + u + body);
    Regrouped(t, u, body, rest);
    UlebRoundTrip(x.typeIndex, u + (body + rest));
    UlebRoundTrip(|x.elements|, body + rest);
    Skip(u, body, rest);
    EVP.RoundTripElements(pools, x.elements, rest);
  }
}
