/**
 Code items: their record, and the writer that is run twice over them, first to
 reserve their space and then, when the debug info has its offsets, for real.
 */
module CodeItems {
  import opened Bytes
  import opened ByteStream
  import opened SectionWriter
  import opened CatchHandlers
  import opened CatchHandlerWriter

  /** A try item and the position of its handler among the code item's handlers. */
  datatype Try = Try(startAddr: nat, insnCount: nat, handler: nat)

  datatype CodeItem = CodeItem(
    registers: nat, ins: nat, outs: nat, debugInfo: Option<nat>,
    insns: seq<nat>, tries: seq<Try>, handlers: seq<CatchHandler>)

  ghost predicate ValidCode(c: CodeItem) {
    && (forall i :: 0 <= i < |c.tries| ==> c.tries[i].handler < |c.handlers|)
    && |c.handlers| < TWO_TO_THE_32
    && (forall k :: 0 <= k < |c.handlers| ==> Encodable(c.handlers[k].list))
  }

  function UnitBytes(insns: seq<nat>, n: nat): (bs: seq<byte>)
    requires n <= |insns|
    ensures |bs| == 2 * n
  {
    if n == 0 then [] else UnitBytes(insns, n - 1) + U16(insns[n - 1])
  }

  function TryBytes(c: CodeItem, t: Try): (bs: seq<byte>)
    ensures |bs| == 8
  {
    U32(t.startAddr) + U16(t.insnCount) + U16(if t.handler < |c.handlers| then c.handlers[t.handler].listOffset else 0)
  }

  function TriesBytes(c: CodeItem, n: nat): (bs: seq<byte>)
    requires n <= |c.tries|
    ensures |bs| == 8 * n
  {
    if n == 0 then [] else TriesBytes(c, n - 1) + TryBytes(c, c.tries[n - 1])
  }

  /** What follows the instructions: try items on a word boundary, then the handlers. */
  function PostBytes(c: CodeItem): (bs: seq<byte>) {
    if c.tries == [] then []
    else Zeros(PadLen(2 * |c.insns|, 4)) + TriesBytes(c, |c.tries|) + TableBytes(c.handlers)
  }

  function HeaderFields(c: CodeItem): (bs: seq<byte>)
    ensures |bs| == 8
  {
    U16(c.registers) + U16(c.ins) + U16(c.outs) + U16(|c.tries|)
  }

  function CodeRecord(c: CodeItem): (r: Record) {
    [ Raw(HeaderFields(c)),
      Off32(if c.debugInfo.None? then None else Some(Ref(DebugInfos, c.debugInfo.value))),
      Raw(U32(|c.insns|)),
      Raw(UnitBytes(c.insns, |c.insns|)),
      Raw(PostBytes(c)) ]
  }

  function FixedPart(c: CodeItem, offs: Offsets): (bs: seq<byte>)
    ensures |bs| == 16
  {
    HeaderFields(c) + EncField(CodeRecord(c)[1], offs) + U32(|c.insns|)
  }

  /** The record's bytes, in the pieces that WriteCodeItem writes. */
  lemma CodeRecordBytes(c: CodeItem, offs: Offsets)
    ensures EncRecord(CodeRecord(c), offs) == FixedPart(c, offs) + UnitBytes(c.insns, |c.insns|) + PostBytes(c)
  {
    hide U16, U32, UnitBytes, PostBytes, HeaderFields;
    var r := CodeRecord(c);
    assert EncFields(r, 1, offs) == EncFields(r, 0, offs) + HeaderFields(c);
    assert EncFields(r, 2, offs) == EncFields(r, 1, offs) + EncField(r[1], offs);
    assert EncFields(r, 3, offs) == EncFields(r, 2, offs) + U32(|c.insns|);
    assert EncFields(r, 4, offs) == EncFields(r, 3, offs) + UnitBytes(c.insns, |c.insns|);
    assert EncFields(r, 5, offs) == EncFields(r, 4, offs) + PostBytes(c);
  }

  /** WriteCodeItemPostInstructionData.  While reserving, the try items hold whatever
      the uninitialized struct holds: only their extent is promised. */
  method WritePostInstructionData(stream: Stream, c: CodeItem, reserveOnly: bool) returns (ghost out: seq<byte>)
    requires ValidCode(c) && Aligned(stream.pos + 2 * |c.insns|, 4)
    requires ZeroIn(stream.data, stream.pos, stream.pos + |PostBytes(c)|)
    modifies stream
    ensures |out| == |PostBytes(c)| && (!reserveOnly ==> out == PostBytes(c))
    ensures stream.pos == old(stream.pos) + |out|
    ensures Wrote(old(stream.data), stream.data, old(stream.pos), out)
  {
    hide TableBytes, TryBytes, Encodable, PostBytes, TriesBytes, PadLen, Wrote, ZeroIn, Aligned;
    out := [];
    PostParts(c);
    PadSame(stream.pos, 2 * |c.insns|);
    NothingYetAt(stream.data, stream.pos);
    if |c.tries| != 0 {
      ghost var d0, p0 := stream.data, stream.pos;
      ghost var hi := p0 + |PostBytes(c)|;
      ghost var pad := Zeros(PadLen(2 * |c.insns|, 4));
      stream.AlignTo(4);
      SamePadded(d0, d0, stream.data, p0, [], pad, hi);
      assert [] + pad == pad;
      ghost var written := WriteTries(stream, c, reserveOnly, d0, p0, pad, hi);
      ghost var d1 := stream.data;
      ZeroInPart(d0, d1, p0, written, hi, stream.pos, hi);
      WriteHandlers(stream, c.handlers);
      WroteThen(d0, d1, stream.data, p0, written, TableBytes(c.handlers));
      out := written + TableBytes(c.handlers);
    }
  }

  method WriteTries(stream: Stream, c: CodeItem, reserveOnly: bool,
                    ghost d0: seq<byte>, ghost p0: nat, ghost pad: seq<byte>, ghost hi: nat)
    returns (ghost out: seq<byte>)
    requires ValidCode(c) && ZeroIn(d0, p0, hi) && p0 + |pad| + 8 * |c.tries| <= hi
    requires stream.pos == p0 + |pad| && Wrote(d0, stream.data, p0, pad)
    modifies stream
    ensures |out| == |pad| + 8 * |c.tries| && (!reserveOnly ==> out == pad + TriesBytes(c, |c.tries|))
    ensures stream.pos == p0 + |out| && Wrote(d0, stream.data, p0, out)
  {
    hide TryBytes, ValidCode, Wrote, ZeroIn;
    out := pad;
    for i := 0 to |c.tries|
      invariant |out| == |pad| + 8 * i && (!reserveOnly ==> out == pad + TriesBytes(c, i))
      invariant stream.pos == p0 + |out| && Wrote(d0, stream.data, p0, out)
    {
      var item: seq<byte> := *;
      if !reserveOnly || |item| != 8 {
        item := TryBytes(c, c.tries[i]);
      }
      ghost var d1 := stream.data;
      ZeroInPart(d0, d1, p0, out, hi, stream.pos, stream.pos + |item|);
      stream.Write(item);
      WroteThen(d0, d1, stream.data, p0, out, item);
      out := out + item;
    }
  }

  /** The pieces of a code item, behind the padding. */
  method WritePieces(stream: Stream, c: CodeItem, reserveOnly: bool, offs: Offsets,
                     ghost d0: seq<byte>, ghost p0: nat, ghost pad: seq<byte>, ghost hi: nat)
    returns (ghost out: seq<byte>)
    requires ValidCode(c) && Aligned(p0 + |pad|, 4)
    requires ZeroIn(d0, p0, hi) && hi == p0 + |pad| + |EncRecord(CodeRecord(c), offs)|
    requires stream.pos == p0 + |pad| && Wrote(d0, stream.data, p0, pad)
    modifies stream
    ensures |out| == |pad| + |EncRecord(CodeRecord(c), offs)|
    ensures (!reserveOnly ==> out == pad + EncRecord(CodeRecord(c), offs))
    ensures stream.pos == p0 + |out| && Wrote(d0, stream.data, p0, out)
  {
    hide *;
    AfterInsns(c, p0 + |pad|);
    CodeRecordBytes(c, offs);
    var header := HeaderPart(c, reserveOnly, offs);
    var units := UnitBytes(c.insns, |c.insns|);
    ghost var out1 := WritePart(stream, header, d0, p0, pad, hi);
    ghost var out2 := WritePart(stream, units, d0, p0, out1, hi);
    ghost var d1 := stream.data;
    ZeroInPart(d0, d1, p0, out2, hi, stream.pos, hi);
    assert stream.pos + |PostBytes(c)| == hi;
    ghost var post := WritePostInstructionData(stream, c, reserveOnly);
    WroteThen(d0, d1, stream.data, p0, out2, post);
    out := out2 + post;
    Assembled(pad, header, units, post);
  }

  /** While reserving, the fixed part may be anything. */
  method HeaderPart(c: CodeItem, reserveOnly: bool, offs: Offsets) returns (header: seq<byte>)
    ensures |header| == 16 && (!reserveOnly ==> header == FixedPart(c, offs))
  {
    hide FixedPart;
    header := *;
    if !reserveOnly || |header| != 16 {
      header := FixedPart(c, offs);
    }
  }

  lemma Assembled<T>(pad: seq<T>, a: seq<T>, b: seq<T>, c: seq<T>)
    ensures pad + a + b + c == pad + (a + b + c)
  {
  }

  /** The units end as far from a word boundary as their number says. */
  lemma AfterInsns(c: CodeItem, p: nat)
    requires Aligned(p, 4)
    ensures |UnitBytes(c.insns, |c.insns|)| == 2 * |c.insns| && Aligned(p + 16 + 2 * |c.insns| + 2 * |c.insns|, 4)
  {
  }

  lemma PadSame(p: nat, n: nat)
    requires Aligned(p + n, 4) && n % 2 == 0
    ensures PadLen(p, 4) == PadLen(n, 4)
  {
    SameModFour(p, n);
  }

  lemma SameModFour(p: nat, n: nat)
    requires (p + n) % 4 == 0 && n % 2 == 0
    ensures p % 4 == n % 4
  {
    var k := n / 2;
    assert n == 2 * k;
    if k % 2 == 0 {
      DivModUnique(n, 4, k / 2, 0);
      DivModUnique(p, 4, (p + n) / 4 - k / 2, 0);
    } else {
      DivModUnique(n, 4, k / 2, 2);
      DivModUnique(p, 4, (p + n) / 4 - k / 2 - 1, 2);
    }
  }

  lemma PostParts(c: CodeItem)
    ensures |c.tries| == 0 ==> PostBytes(c) == []
    ensures |c.tries| != 0 ==>
              && PostBytes(c) == Zeros(PadLen(2 * |c.insns|, 4)) + TriesBytes(c, |c.tries|) + TableBytes(c.handlers)
              && |TriesBytes(c, |c.tries|)| == 8 * |c.tries|
  {
    hide TableBytes, TryBytes, PadLen;
  }

  /** WriteCodeItem.  Reserving leaves the contents as they were, zeros. */
  method WriteCodeItem(stream: Stream, c: CodeItem, reserveOnly: bool, offs: Offsets) returns (position: nat)
    requires ValidCode(c) && (!reserveOnly ==> RecordReady(CodeRecord(c), offs))
    requires ZeroIn(stream.data, stream.pos, RoundUp(stream.pos, 4) + |EncRecord(CodeRecord(c), offs)|)
    modifies stream
    ensures position == RoundUp(old(stream.pos), 4) && stream.pos == position + |EncRecord(CodeRecord(c), offs)|
    ensures reserveOnly ==> Holds(stream.data, old(stream.data))
    ensures !reserveOnly ==>
              Wrote(old(stream.data), stream.data, old(stream.pos),
                    Zeros(PadLen(old(stream.pos), 4)) + EncRecord(CodeRecord(c), offs))
  {
    hide ValidCode, CodeRecord, EncRecord, PadLen, Wrote, ZeroIn, Holds;
    var p0 := stream.pos;
    ghost var d0 := stream.data;
    ghost var pad := Zeros(PadLen(p0, 4));
    ghost var hi := RoundUp(p0, 4) + |EncRecord(CodeRecord(c), offs)|;
    stream.AlignTo(4);
    position := stream.pos;
    NothingYetAt(d0, p0);
    SamePadded(d0, d0, stream.data, p0, [], pad, hi);
    assert [] + pad == pad;
    ghost var out := WritePieces(stream, c, reserveOnly, offs, d0, p0, pad, hi);
    if reserveOnly {
      ghost var d2 := stream.data;
      stream.Clear(p0, stream.pos - p0);
      Cleared(d0, d2, stream.data, p0, out);
    }
  }

  lemma NothingYetAt(d: seq<byte>, p: nat)
    ensures Wrote(d, d, p, [])
  {
  }

  method WritePart(stream: Stream, part: seq<byte>, ghost d0: seq<byte>, ghost p0: nat, ghost before: seq<byte>,
                   ghost hi: nat)
    returns (ghost out: seq<byte>)
    requires ZeroIn(d0, p0, hi) && p0 + |before| + |part| <= hi
    requires stream.pos == p0 + |before| && Wrote(d0, stream.data, p0, before)
    modifies stream
    ensures out == before + part && stream.pos == p0 + |out| && Wrote(d0, stream.data, p0, out)
  {
    hide Wrote, ZeroIn;
    ghost var d1 := stream.data;
    ZeroInPart(d0, d1, p0, before, hi, stream.pos, stream.pos + |part|);
    stream.Write(part);
    WroteThen(d0, d1, stream.data, p0, before, part);
    out := before + part;
  }

  /** Clearing what was written over zeros restores the zeros. */
  lemma Cleared(d0: seq<byte>, d1: seq<byte>, d2: seq<byte>, p: nat, out: seq<byte>)
    requires Wrote(d0, d1, p, out) && Wrote(d1, d2, p, Zeros(|out|)) && ZeroIn(d0, p, p + |out|)
    ensures Holds(d2, d0)
  {
    forall i: nat ensures At(d2, i) == At(d0, i) {
      assert At(d1, i) == if p <= i < p + |out| then out[i - p] else At(d0, i);
    }
  }
}
