/**
 Sections of a dex file as the writer sees them: records of plain bytes and of
 offsets of other items, aligned one after the other.
 */
module SectionWriter {
  import opened Bytes
  import opened Leb128
  import opened ByteStream

  /** The sections of a standard dex file. */
  datatype Kind =
    | StringIds | TypeIds | ProtoIds | FieldIds | MethodIds | ClassDefs | CallSiteIds | MethodHandles
    | DataStart
    | CodeItems | DebugInfos | EncodedArrays | Annotations | AnnotationSets | AnnotationSetRefs
    | AnnotationsDirectories | TypeLists | ClassDatas | StringDatas | HiddenapiData

  datatype Ref = Ref(kind: Kind, index: nat)

  /** Part of a record: bytes, a 32-bit offset, or a uleb128 offset; a null item has offset 0. */
  datatype Field = Raw(bytes: seq<byte>) | Off32(ref: Option<Ref>) | OffUleb(ref: Option<Ref>)

  type Record = seq<Field>

  datatype Section = Section(kind: Kind, alignment: Alignment, records: seq<Record>)

  /** The offsets assigned to items so far; an item without one is unassigned. */
  type Offsets = map<Kind, seq<nat>>

  predicate Assigned(offs: Offsets, ref: Ref) {
    ref.kind in offs && ref.index < |offs[ref.kind]|
  }

  function OffsetOf(offs: Offsets, ref: Option<Ref>): (o: nat) {
    if ref.Some? && Assigned(offs, ref.value) then offs[ref.value.kind][ref.value.index] else 0
  }

  function EncField(f: Field, offs: Offsets): (bs: seq<byte>) {
    match f
    case Raw(bytes) => bytes
    case Off32(ref) => U32(OffsetOf(offs, ref))
    case OffUleb(ref) => Uleb(OffsetOf(offs, ref) % TWO_TO_THE_32)
  }

  /** The first n fields of a record. */
  function EncFields(r: Record, n: nat, offs: Offsets): (bs: seq<byte>)
    requires n <= |r|
  {
    if n == 0 then [] else EncFields(r, n - 1, offs) + EncField(r[n - 1], offs)
  }

  function EncRecord(r: Record, offs: Offsets): (bs: seq<byte>) {
    EncFields(r, |r|, offs)
  }

  /** The first n records of a section that starts at p, with their padding. */
  function SecBytes(s: Section, n: nat, p: nat, offs: Offsets): (bs: seq<byte>)
    requires n <= |s.records|
  {
    if n == 0 then []
    else
      var before := SecBytes(s, n - 1, p, offs);
      before + Zeros(PadLen(p + |before|, s.alignment)) + EncRecord(s.records[n - 1], offs)
  }

  function SectionBytes(s: Section, p: nat, offs: Offsets): (bs: seq<byte>) {
    SecBytes(s, |s.records|, p, offs)
  }

  /** Where record i of a section that starts at p lies. */
  function Position(s: Section, i: nat, p: nat, offs: Offsets): (o: nat)
    requires i <= |s.records|
  {
    RoundUp(p + |SecBytes(s, i, p, offs)|, s.alignment)
  }

  function Positions(s: Section, p: nat, offs: Offsets): (os: seq<nat>)
    ensures |os| == |s.records|
  {
    seq(|s.records|, i requires 0 <= i < |s.records| => Position(s, i, p, offs))
  }

  // ---- which offsets a section depends on

  ghost predicate FieldReady(f: Field, offs: Offsets) {
    !f.Raw? && f.ref.Some? ==> Assigned(offs, f.ref.value)
  }

  ghost predicate RecordReady(r: Record, offs: Offsets) {
    forall i :: 0 <= i < |r| ==> FieldReady(r[i], offs)
  }

  ghost predicate Ready(s: Section, offs: Offsets) {
    forall i :: 0 <= i < |s.records| ==> RecordReady(s.records[i], offs)
  }

  /** Every offset assigned in `offs` has the same value in `offs'`. */
  ghost predicate Extends(offs: Offsets, offs': Offsets) {
    forall k :: k in offs ==> k in offs' && offs[k] == offs'[k]
  }

  lemma {:induction false} EncFieldsStable(r: Record, n: nat, offs: Offsets, offs': Offsets)
    requires n <= |r| && RecordReady(r, offs) && Extends(offs, offs')
    ensures EncFields(r, n, offs) == EncFields(r, n, offs')
    decreases n
  {
    if n > 0 {
      EncFieldsStable(r, n - 1, offs, offs');
      assert FieldReady(r[n - 1], offs);
    }
  }

  lemma {:induction false} SecBytesStable(s: Section, n: nat, p: nat, offs: Offsets, offs': Offsets)
    requires n <= |s.records| && Ready(s, offs) && Extends(offs, offs')
    ensures SecBytes(s, n, p, offs) == SecBytes(s, n, p, offs')
    decreases n
  {
    hide EncFields;
    if n > 0 {
      SecBytesStable(s, n - 1, p, offs, offs');
      var r := s.records[n - 1];
      assert RecordReady(r, offs);
      EncFieldsStable(r, |r|, offs, offs');
    }
  }

  /** What was written with the offsets known then is what the final offsets call for. */
  lemma {:induction false} SectionStable(s: Section, p: nat, offs: Offsets, offs': Offsets)
    requires Ready(s, offs) && Extends(offs, offs')
    ensures SectionBytes(s, p, offs) == SectionBytes(s, p, offs')
    ensures Positions(s, p, offs) == Positions(s, p, offs')
  {
    hide SecBytes, RoundUp, Ready, Extends;
    SecBytesStable(s, |s.records|, p, offs, offs');
    forall i | 0 <= i < |s.records| ensures Position(s, i, p, offs) == Position(s, i, p, offs') {
      SecBytesStable(s, i, p, offs, offs');
    }
  }

  // ---- sections whose extent does not depend on offsets

  ghost predicate FixedSize(s: Section) {
    forall i, j :: 0 <= i < |s.records| && 0 <= j < |s.records[i]| ==> !s.records[i][j].OffUleb?
  }

  lemma {:induction false} EncFieldsFixed(r: Record, n: nat, offs: Offsets, offs': Offsets)
    requires n <= |r| && forall j :: 0 <= j < |r| ==> !r[j].OffUleb?
    ensures |EncFields(r, n, offs)| == |EncFields(r, n, offs')|
    decreases n
  {
    if n > 0 {
      EncFieldsFixed(r, n - 1, offs, offs');
    }
  }

  lemma {:induction false} SecBytesFixed(s: Section, n: nat, p: nat, offs: Offsets, offs': Offsets)
    requires n <= |s.records| && FixedSize(s)
    ensures |SecBytes(s, n, p, offs)| == |SecBytes(s, n, p, offs')|
    decreases n
  {
    hide EncFields;
    if n > 0 {
      SecBytesFixed(s, n - 1, p, offs, offs');
      EncFieldsFixed(s.records[n - 1], |s.records[n - 1]|, offs, offs');
    }
  }

  /** Reserving space before the offsets are known reserves exactly the right space,
      and gives items the offsets that the writing pass gives them again. */
  lemma {:induction false} FixedPositions(s: Section, p: nat, offs: Offsets, offs': Offsets)
    requires FixedSize(s)
    ensures |SectionBytes(s, p, offs)| == |SectionBytes(s, p, offs')|
    ensures Positions(s, p, offs) == Positions(s, p, offs')
  {
    hide SecBytes, RoundUp, FixedSize;
    SecBytesFixed(s, |s.records|, p, offs, offs');
    forall i | 0 <= i < |s.records| ensures Position(s, i, p, offs) == Position(s, i, p, offs') {
      SecBytesFixed(s, i, p, offs, offs');
    }
  }

  // ---- what lies where

  lemma {:induction false} SecBytesPrefix(s: Section, i: nat, n: nat, p: nat, offs: Offsets)
    requires i <= n <= |s.records|
    ensures SecBytes(s, i, p, offs) <= SecBytes(s, n, p, offs)
    decreases n
  {
    hide EncRecord;
    if i < n {
      SecBytesPrefix(s, i, n - 1, p, offs);
    }
  }

  /** Record i lies at its position. */
  lemma {:induction false} RecordLiesAt(s: Section, i: nat, p: nat, offs: Offsets)
    requires i < |s.records|
    ensures var o := Position(s, i, p, offs) - p;
            var r := EncRecord(s.records[i], offs);
            0 <= o && o + |r| <= |SectionBytes(s, p, offs)| && SectionBytes(s, p, offs)[o..o + |r|] == r
  {
    hide EncRecord;
    SecBytesPrefix(s, i + 1, |s.records|, p, offs);
    var o := Position(s, i, p, offs) - p;
    var r := EncRecord(s.records[i], offs);
    assert SecBytes(s, i + 1, p, offs)[o..] == r;
  }

  // ---- the writing loops

  method WriteField(stream: Stream, f: Field, offs: Offsets)
    requires FieldReady(f, offs)
    requires ZeroIn(stream.data, stream.pos, stream.pos + |EncField(f, offs)|)
    modifies stream
    ensures stream.pos == old(stream.pos) + |EncField(f, offs)|
    ensures Wrote(old(stream.data), stream.data, old(stream.pos), EncField(f, offs))
  {
    hide U32, Uleb;
    match f {
      case Raw(bytes) => stream.Write(bytes);
      case Off32(ref) => stream.Write(U32(OffsetOf(offs, ref)));
      case OffUleb(ref) => stream.WriteUleb128(OffsetOf(offs, ref) % TWO_TO_THE_32);
    }
  }

  lemma ZeroInPart(d: seq<byte>, d': seq<byte>, p: nat, bs: seq<byte>, hi: nat, q: nat, hi': nat)
    requires ZeroIn(d, p, hi) && Wrote(d, d', p, bs) && p + |bs| <= q && hi' <= hi
    ensures ZeroIn(d', q, hi')
  {
    forall i: nat | q <= i < hi' ensures At(d', i) == 0 {
      assert At(d', i) == At(d, i);
    }
  }

  lemma {:induction false} EncFieldsGrow(r: Record, i: nat, n: nat, offs: Offsets)
    requires i <= n <= |r|
    ensures |EncFields(r, i, offs)| <= |EncFields(r, n, offs)|
    decreases n
  {
    hide EncField;
    if i < n {
      EncFieldsGrow(r, i, n - 1, offs);
    }
  }

  method WriteRecord(stream: Stream, r: Record, offs: Offsets)
    requires RecordReady(r, offs)
    requires ZeroIn(stream.data, stream.pos, stream.pos + |EncRecord(r, offs)|)
    modifies stream
    ensures stream.pos == old(stream.pos) + |EncRecord(r, offs)|
    ensures Wrote(old(stream.data), stream.data, old(stream.pos), EncRecord(r, offs))
  {
    hide EncField;
    ghost var d0, p0 := stream.data, stream.pos;
    for i := 0 to |r|
      invariant stream.pos == p0 + |EncFields(r, i, offs)|
      invariant Wrote(d0, stream.data, p0, EncFields(r, i, offs))
    {
      assert FieldReady(r[i], offs);
      EncFieldsGrow(r, i + 1, |r|, offs);
      ghost var d1 := stream.data;
      ZeroInPart(d0, d1, p0, EncFields(r, i, offs), p0 + |EncRecord(r, offs)|,
                 stream.pos, stream.pos + |EncField(r[i], offs)|);
      WriteField(stream, r[i], offs);
      WroteThen(d0, d1, stream.data, p0, EncFields(r, i, offs), EncField(r[i], offs));
    }
  }

  /** One turn of the loop that every section writer has: align, note the offset, write. */
  method WriteAligned(stream: Stream, s: Section, i: nat, offs: Offsets, ghost d0: seq<byte>, ghost p0: nat)
    returns (position: nat)
    requires Ready(s, offs) && i < |s.records|
    requires ZeroIn(d0, p0, p0 + |SectionBytes(s, p0, offs)|)
    requires stream.pos == p0 + |SecBytes(s, i, p0, offs)| && Wrote(d0, stream.data, p0, SecBytes(s, i, p0, offs))
    modifies stream
    ensures stream.pos == p0 + |SecBytes(s, i + 1, p0, offs)|
    ensures Wrote(d0, stream.data, p0, SecBytes(s, i + 1, p0, offs))
    ensures position == Position(s, i, p0, offs)
  {
    hide EncRecord, RecordReady, PadLen, Aligned, Wrote, ZeroIn, Holds;
    ghost var before, d1 := SecBytes(s, i, p0, offs), stream.data;
    ghost var pad := Zeros(PadLen(p0 + |before|, s.alignment));
    ghost var hi := p0 + |SecBytes(s, i + 1, p0, offs)|;
    SecBytesPrefix(s, i + 1, |s.records|, p0, offs);
    ZeroInPart(d0, d1, p0, before, p0 + |SectionBytes(s, p0, offs)|, p0 + |before|, hi);
    stream.AlignTo(s.alignment);
    position := stream.pos;
    ghost var d2 := stream.data;
    SamePadded(d0, d1, d2, p0, before, pad, hi);
    WriteRecord(stream, s.records[i], offs);
    WroteThen(d0, d2, stream.data, p0, before + pad, EncRecord(s.records[i], offs));
  }

  method WriteRecords(stream: Stream, s: Section, offs: Offsets) returns (positions: seq<nat>)
    requires Ready(s, offs)
    requires ZeroIn(stream.data, stream.pos, stream.pos + |SectionBytes(s, stream.pos, offs)|)
    modifies stream
    ensures stream.pos == old(stream.pos) + |SectionBytes(s, old(stream.pos), offs)|
    ensures Wrote(old(stream.data), stream.data, old(stream.pos), SectionBytes(s, old(stream.pos), offs))
    ensures positions == Positions(s, old(stream.pos), offs)
  {
    hide SecBytes, Position, Wrote, ZeroIn, Ready;
    ghost var d0, p0 := stream.data, stream.pos;
    positions := [];
    NothingYet(s, d0, p0, offs);
    for i := 0 to |s.records|
      invariant stream.pos == p0 + |SecBytes(s, i, p0, offs)|
      invariant Wrote(d0, stream.data, p0, SecBytes(s, i, p0, offs))
      invariant |positions| == i && forall k :: 0 <= k < i ==> positions[k] == Position(s, k, p0, offs)
    {
      var position := WriteAligned(stream, s, i, offs, d0, p0);
      positions := positions + [position];
    }
  }

  lemma NothingYet(s: Section, d: seq<byte>, p: nat, offs: Offsets)
    ensures SecBytes(s, 0, p, offs) == [] && Wrote(d, d, p, [])
  {
  }

  /** Moving over zeros writes them. */
  lemma SamePadded(d0: seq<byte>, d1: seq<byte>, d2: seq<byte>, p: nat, bs: seq<byte>, pad: seq<byte>, hi: nat)
    requires Wrote(d0, d1, p, bs) && Holds(d2, d1)
    requires pad == Zeros(|pad|) && p + |bs| + |pad| <= hi && ZeroIn(d1, p + |bs|, hi)
    ensures Wrote(d0, d2, p, bs + pad) && ZeroIn(d2, p + |bs| + |pad|, hi)
  {
    assert Wrote(d1, d2, p + |bs|, pad);
    WroteThen(d0, d1, d2, p, bs, pad);
  }

  /** The reserving loop of the id sections: the cursor moves, nothing is written. */
  method ReserveRecords(stream: Stream, s: Section) returns (positions: seq<nat>)
    requires FixedSize(s)
    modifies stream
    ensures stream.pos == old(stream.pos) + |SectionBytes(s, old(stream.pos), map[])|
    ensures Holds(stream.data, old(stream.data))
    ensures positions == Positions(s, old(stream.pos), map[])
  {
    hide EncRecord;
    ghost var d0, p0 := stream.data, stream.pos;
    positions := [];
    for i := 0 to |s.records|
      invariant stream.pos == p0 + |SecBytes(s, i, p0, map[])|
      invariant Holds(stream.data, d0)
      invariant |positions| == i && forall k :: 0 <= k < i ==> positions[k] == Position(s, k, p0, map[])
    {
      stream.AlignTo(s.alignment);
      positions := positions + [stream.pos];
      stream.Skip(|EncRecord(s.records[i], map[])|);
    }
  }
}
