/**
 The run of DexWriter::Write: reserve, write in turn, go back and write what was
 delayed.
 */
module DexWriterRun {
  import opened Bytes
  import opened ByteStream
  import opened SectionWriter
  import opened CodeItems
  import opened DexIr
  import opened DexWriter
  import HA = HiddenApi

  // ---- the passes over code items

  lemma CodeSection(ir: Ir, i: nat)
    requires i < |ir.codeItems|
    ensures var s := SectionOf(ir, Kind.CodeItems);
            |s.records| == |ir.codeItems| && s.alignment == 4 && s.records[i] == CodeRecord(ir.codeItems[i])
  {
    hide CodeRecord;
  }

  lemma SecStep(s: Section, i: nat, p: nat, offs: Offsets)
    requires i < |s.records|
    ensures var before := SecBytes(s, i, p, offs);
            && SecBytes(s, i + 1, p, offs)
               == before + (Zeros(PadLen(p + |before|, s.alignment)) + EncRecord(s.records[i], offs))
            && p + |SecBytes(s, i + 1, p, offs)| == Position(s, i, p, offs) + |EncRecord(s.records[i], offs)|
            && Position(s, i, p, offs) == RoundUp(p + |before|, s.alignment)
    ensures SecBytes(s, 0, p, offs) == []
  {
    hide EncRecord;
  }

  lemma ZeroFromIn(d: seq<byte>, d': seq<byte>, p: nat, lo: nat, hi: nat)
    requires ZeroFrom(d, p) && Holds(d', d) && p <= lo
    ensures ZeroIn(d', lo, hi)
  {
    forall i: nat | lo <= i < hi ensures At(d', i) == 0 {
      assert At(d', i) == At(d, i);
    }
  }

  lemma HoldsTrans(a: seq<byte>, b: seq<byte>, c: seq<byte>)
    requires Holds(a, b) && Holds(b, c)
    ensures Holds(a, c)
  {
    forall i: nat ensures At(a, i) == At(c, i) {
      assert At(a, i) == At(b, i);
    }
  }

  lemma HoldsSelf(a: seq<byte>)
    ensures Holds(a, a)
  {
  }

  method ReserveCodeItems(stream: Stream, ir: Ir) returns (positions: seq<nat>)
    requires forall i :: 0 <= i < |ir.codeItems| ==> ValidCode(ir.codeItems[i])
    requires ZeroFrom(stream.data, stream.pos)
    modifies stream
    ensures var s := SectionOf(ir, Kind.CodeItems);
            && stream.pos == old(stream.pos) + |SectionBytes(s, old(stream.pos), map[])|
            && positions == Positions(s, old(stream.pos), map[])
    ensures Holds(stream.data, old(stream.data))
  {
    hide CodeRecord, EncRecord, ValidCode, SecBytes, Position, PadLen, Holds, ZeroFrom, ZeroIn, SectionOf;
    ghost var d0, p0 := stream.data, stream.pos;
    ghost var s := SectionOf(ir, Kind.CodeItems);
    CodeSectionSize(ir);
    HoldsSelf(d0);
    positions := [];
    SecEmpty(s, p0);
    for i := 0 to |ir.codeItems|
      invariant stream.pos == p0 + |SecBytes(s, i, p0, map[])| && Holds(stream.data, d0)
      invariant |positions| == i && forall k :: 0 <= k < i ==> positions[k] == Position(s, k, p0, map[])
    {
      CodeSection(ir, i);
      SecStep(s, i, p0, map[]);
      ghost var d1 := stream.data;
      ZeroFromIn(d0, d1, p0, stream.pos, RoundUp(stream.pos, 4) + |EncRecord(CodeRecord(ir.codeItems[i]), map[])|);
      var position := WriteCodeItem(stream, ir.codeItems[i], true, map[]);
      HoldsTrans(stream.data, d1, d0);
      positions := positions + [position];
    }
  }

  lemma CodeSectionSize(ir: Ir)
    ensures |SectionOf(ir, Kind.CodeItems).records| == |ir.codeItems|
  {
  }

  lemma SecEmpty(s: Section, p: nat)
    ensures forall offs: Offsets :: SecBytes(s, 0, p, offs) == []
  {
  }

  method WriteCodeItems(stream: Stream, ir: Ir, offs: Offsets) returns (positions: seq<nat>)
    requires forall i :: 0 <= i < |ir.codeItems| ==> ValidCode(ir.codeItems[i])
    requires Ready(SectionOf(ir, Kind.CodeItems), offs)
    requires ZeroIn(stream.data, stream.pos,
                    stream.pos + |SectionBytes(SectionOf(ir, Kind.CodeItems), stream.pos, offs)|)
    modifies stream
    ensures var s := SectionOf(ir, Kind.CodeItems);
            && stream.pos == old(stream.pos) + |SectionBytes(s, old(stream.pos), offs)|
            && Wrote(old(stream.data), stream.data, old(stream.pos), SectionBytes(s, old(stream.pos), offs))
            && positions == Positions(s, old(stream.pos), offs)
  {
    hide CodeRecord, EncRecord, ValidCode, SecBytes, Position, PadLen, Wrote, ZeroIn, SectionOf, RecordReady;
    ghost var d0, p0 := stream.data, stream.pos;
    ghost var s := SectionOf(ir, Kind.CodeItems);
    ghost var hi := p0 + |SectionBytes(s, p0, offs)|;
    CodeSectionSize(ir);
    positions := [];
    NothingYet(s, d0, p0, offs);
    for i := 0 to |ir.codeItems|
      invariant stream.pos == p0 + |SecBytes(s, i, p0, offs)|
      invariant Wrote(d0, stream.data, p0, SecBytes(s, i, p0, offs))
      invariant |positions| == i && forall k :: 0 <= k < i ==> positions[k] == Position(s, k, p0, offs)
    {
      CodeSection(ir, i);
      SecStep(s, i, p0, offs);
      SecBytesPrefix(s, i + 1, |s.records|, p0, offs);
      ghost var d1, before := stream.data, SecBytes(s, i, p0, offs);
      ZeroInPart(d0, d1, p0, before, hi, stream.pos, RoundUp(stream.pos, 4) + |EncRecord(s.records[i], offs)|);
      ghost var here := stream.pos;
      var position := WriteCodeItem(stream, ir.codeItems[i], false, offs);
      WroteThen(d0, d1, stream.data, p0, before, Zeros(PadLen(here, 4)) + EncRecord(s.records[i], offs));
      positions := positions + [position];
    }
  }

  // ---- the hidden API section

  lemma {:induction false} HiddenapiSection(ir: Ir, p: nat, offs: Offsets)
    ensures var s := SectionOf(ir, HiddenapiData);
            && (HiddenClasses(ir) == [] ==> SectionBytes(s, p, offs) == [] && Positions(s, p, offs) == [])
            && (HiddenClasses(ir) != [] ==>
                  && SectionBytes(s, p, offs) == Zeros(PadLen(p, 4)) + HA.SectionBytes(HiddenClasses(ir))
                  && Positions(s, p, offs) == [RoundUp(p, 4)])
  {
    hide HA.SectionBytes, PadLen, HiddenClasses;
    var s := SectionOf(ir, HiddenapiData);
    assert SecBytes(s, 0, p, offs) == [];
    if HiddenClasses(ir) != [] {
      var r := s.records[0];
      assert EncFields(r, 0, offs) == [] && EncFields(r, 1, offs) == [] + HA.SectionBytes(HiddenClasses(ir));
      assert SecBytes(s, 1, p, offs) == [] + Zeros(PadLen(p + 0, 4)) + EncRecord(r, offs);
      assert Positions(s, p, offs)[0] == Position(s, 0, p, offs);
    }
  }

  method WriteHiddenapi(stream: Stream, ir: Ir, ghost offs: Offsets) returns (positions: seq<nat>)
    requires ZeroFrom(stream.data, stream.pos)
    modifies stream
    ensures var s := SectionOf(ir, HiddenapiData);
            && stream.pos == old(stream.pos) + |SectionBytes(s, old(stream.pos), offs)|
            && Wrote(old(stream.data), stream.data, old(stream.pos), SectionBytes(s, old(stream.pos), offs))
            && positions == Positions(s, old(stream.pos), offs)
  {
    hide SectionOf, SectionBytes, Positions, HA.SectionBytes, HiddenClasses, PadLen, Wrote, ZeroFrom, ZeroIn;
    HiddenapiSection(ir, stream.pos, offs);
    NothingYetAt(stream.data, stream.pos);
    positions := [];
    var cs := HiddenClasses(ir);
    if cs != [] {
      ghost var d0, p0 := stream.data, stream.pos;
      ZeroFromIn(d0, d0, p0, p0, RoundUp(p0, 4));
      positions := [RoundUp(stream.pos, 4)];
      HA.WriteHiddenapiClassData(stream, cs);
      ghost var pad := Zeros(PadLen(p0, 4));
      WroteZeros(d0, p0, |pad|);
      WroteThen(d0, d0, stream.data, p0, pad, HA.SectionBytes(cs));
    }
  }

  /** The writing pass over any section. */
  method PassOver(stream: Stream, ir: Ir, kind: Kind, offs: Offsets) returns (positions: seq<nat>)
    requires Closed(ir) && Ready(SectionOf(ir, kind), offs)
    requires ZeroIn(stream.data, stream.pos, stream.pos + |SectionBytes(SectionOf(ir, kind), stream.pos, offs)|)
    modifies stream
    ensures var s := SectionOf(ir, kind);
            && stream.pos == old(stream.pos) + |SectionBytes(s, old(stream.pos), offs)|
            && Wrote(old(stream.data), stream.data, old(stream.pos), SectionBytes(s, old(stream.pos), offs))
            && positions == Positions(s, old(stream.pos), offs)
  {
    hide RecordsOf, SectionBytes, Positions, Ready, Wrote, ZeroIn;
    if kind == Kind.CodeItems {
      positions := WriteCodeItems(stream, ir, offs);
    } else {
      positions := WriteRecords(stream, SectionOf(ir, kind), offs);
    }
  }

  /** The writing pass over a reserved section, within a scoped seek. */
  method Revisit(stream: Stream, ir: Ir, kind: Kind, start: nat, offs: Offsets) returns (positions: seq<nat>)
    requires Closed(ir) && Ready(SectionOf(ir, kind), offs)
    requires ZeroIn(stream.data, start, start + |SectionBytes(SectionOf(ir, kind), start, offs)|)
    modifies stream
    ensures stream.pos == old(stream.pos)
    ensures Wrote(old(stream.data), stream.data, start, SectionBytes(SectionOf(ir, kind), start, offs))
    ensures positions == Positions(SectionOf(ir, kind), start, offs)
  {
    hide Closed, SectionOf, SectionBytes, Positions, Ready;
    var saved := stream.pos;
    stream.Seek(start);
    positions := PassOver(stream, ir, kind, offs);
    stream.Seek(saved);
  }

  // ---- one step, on values

  /** Sections 0 to k - 1 of the file are placed; those in `pending` are only reserved. */
  ghost predicate AllPlaced(ir: Ir, k: nat, segs: seq<seq<byte>>, offs: Offsets, pending: set<Kind>) {
    && k <= |FILE_ORDER| && |segs| == k + 1 && segs[0] == Zeros(HEADER_SIZE)
    && (forall kind: Kind :: kind in offs <==> Rank(kind) < k)
    && (forall r :: 0 <= r < k ==> Placed(ir, segs, offs, r, FILE_ORDER[r] !in pending))
  }

  lemma {:induction false} OffsetsCount(ir: Ir, k: nat, segs: seq<seq<byte>>, offs: Offsets, pending: set<Kind>,
                                        kind: Kind)
    requires AllPlaced(ir, k, segs, offs, pending) && Rank(kind) < k
    ensures kind in offs && |offs[kind]| == |RecordsOf(ir, kind)|
  {
    hide RecordsOf, Positions, Ready, FixedSize, SectionBytes, StartOf, Rank;
    assert Placed(ir, segs, offs, Rank(kind), FILE_ORDER[Rank(kind)] !in pending);
  }

  /** A section that is not delayed is ready in its turn; code items once the debug
      infos are placed; the other delayed ones at the end. */
  lemma {:induction false} ReadyInTurn(ir: Ir, k: nat, segs: seq<seq<byte>>, offs: Offsets, pending: set<Kind>,
                                       kind: Kind)
    requires Closed(ir) && AllPlaced(ir, k, segs, offs, pending)
    requires forall to: Kind :: Target(kind, to) ==> Rank(to) < k
    ensures Ready(SectionOf(ir, kind), offs)
  {
    hide Closed, AllPlaced, Target, Rank, RecordsOf, SectionOf;
    forall to: Kind | Target(kind, to) ensures to in offs && |offs[to]| == |RecordsOf(ir, to)| {
      OffsetsCount(ir, k, segs, offs, pending, to);
    }
    ReadyWhenTargets(ir, kind, offs);
  }

  /** Placing section k, written or reserved. */
  lemma {:induction false} PlaceNext(ir: Ir, k: nat, segs: seq<seq<byte>>, offs: Offsets, pending: set<Kind>,
                                     written: bool)
    requires AllPlaced(ir, k, segs, offs, pending) && k < |FILE_ORDER|
    requires written ==> Ready(SectionOf(ir, FILE_ORDER[k]), offs)
    requires !written ==> FixedSize(SectionOf(ir, FILE_ORDER[k]))
    requires FILE_ORDER[k] !in pending
    ensures var s, p := SectionOf(ir, FILE_ORDER[k]), |Flatten(segs)|;
            var seg := if written then SectionBytes(s, p, offs) else Zeros(|SectionBytes(s, p, map[])|);
            var positions := Positions(s, p, if written then offs else map[]);
            AllPlaced(ir, k + 1, segs + [seg], offs[s.kind := positions],
                      if written then pending else pending + {s.kind})
  {
    hide SectionOf, Ready, FixedSize, SectionBytes, Positions, Rank, StartOf, FILE_ORDER, Placed, Flatten;
    var kind := FILE_ORDER[k];
    var s, p := SectionOf(ir, kind), |Flatten(segs)|;
    SectionKind(ir, kind);
    RankOf(k);
    var seg := if written then SectionBytes(s, p, offs) else Zeros(|SectionBytes(s, p, map[])|);
    var positions := Positions(s, p, if written then offs else map[]);
    var segs', offs' := segs + [seg], offs[kind := positions];
    var pending' := if written then pending else pending + {kind};
    assert Extends(offs, offs');
    forall r | 0 <= r < k ensures Placed(ir, segs', offs', r, FILE_ORDER[r] !in pending') {
      RankOf(r);
      PlacedStable(ir, segs, offs, segs', offs', r, FILE_ORDER[r] !in pending);
    }
    PlacedNow(ir, k, segs, offs, offs', written);
    forall other: Kind ensures other in offs' <==> Rank(other) < k + 1 {
      RankIs(other);
    }
  }

  lemma {:induction false} PlacedNow(ir: Ir, k: nat, segs: seq<seq<byte>>, offs: Offsets, offs': Offsets, written: bool)
    requires k < |FILE_ORDER| && |segs| == k + 1 && FILE_ORDER[k] !in offs
    requires written ==> Ready(SectionOf(ir, FILE_ORDER[k]), offs)
    requires !written ==> FixedSize(SectionOf(ir, FILE_ORDER[k]))
    requires var s, p := SectionOf(ir, FILE_ORDER[k]), |Flatten(segs)|;
             offs' == offs[FILE_ORDER[k] := Positions(s, p, if written then offs else map[])]
    ensures var s, p := SectionOf(ir, FILE_ORDER[k]), |Flatten(segs)|;
            var seg := if written then SectionBytes(s, p, offs) else Zeros(|SectionBytes(s, p, map[])|);
            Placed(ir, segs + [seg], offs', k, written)
  {
    hide SectionOf, Ready, FixedSize, SectionBytes, Positions, StartOf, FILE_ORDER, Flatten;
    var s, p := SectionOf(ir, FILE_ORDER[k]), |Flatten(segs)|;
    SectionKind(ir, FILE_ORDER[k]);
    var seg := if written then SectionBytes(s, p, offs) else Zeros(|SectionBytes(s, p, map[])|);
    LastStartIs(segs, seg);
    if written {
      SectionStable(s, p, offs, offs');
      ReadyStable(s, offs, offs');
    } else {
      FixedPositions(s, p, map[], offs');
    }
  }

  lemma SectionKind(ir: Ir, kind: Kind)
    ensures SectionOf(ir, kind).kind == kind
  {
    hide RecordsOf;
  }

  lemma RankIs(kind: Kind)
    ensures FILE_ORDER[Rank(kind)] == kind
  {
  }

  lemma LastStartIs(segs: seq<seq<byte>>, seg: seq<byte>)
    ensures StartOf(segs + [seg], |segs|) == |Flatten(segs)|
    ensures Flatten(segs + [seg]) == Flatten(segs) + seg
  {
    assert (segs + [seg])[..|segs|] == segs;
    FlattenAppend(segs, seg);
  }

  /** Filling in a reserved section: its place, its offsets and all other sections stay. */
  lemma {:induction false} FillIn(ir: Ir, k: nat, segs: seq<seq<byte>>, offs: Offsets, pending: set<Kind>, kind: Kind)
    requires AllPlaced(ir, k, segs, offs, pending) && kind in pending && Rank(kind) < k
    requires Ready(SectionOf(ir, kind), offs)
    ensures var s, p := SectionOf(ir, kind), StartOf(segs, Rank(kind) + 1);
            && segs[Rank(kind) + 1] == Zeros(|SectionBytes(s, p, offs)|)
            && kind in offs && offs[kind] == Positions(s, p, offs)
            && AllPlaced(ir, k, segs[Rank(kind) + 1 := SectionBytes(s, p, offs)], offs, pending - {kind})
  {
    hide SectionOf, Ready, FixedSize, SectionBytes, Positions, Rank, StartOf, FILE_ORDER, Placed;
    RankIs(kind);
    SectionKind(ir, kind);
    var q := Rank(kind);
    var s, p := SectionOf(ir, kind), StartOf(segs, q + 1);
    assert Placed(ir, segs, offs, q, FILE_ORDER[q] !in pending);
    PlacedFilled(ir, q, segs, offs);
    var segs' := segs[q + 1 := SectionBytes(s, p, offs)];
    assert Extends(offs, offs);
    forall r | 0 <= r < k && r != q ensures Placed(ir, segs', offs, r, FILE_ORDER[r] !in pending - {kind}) {
      RankOf(r);
      PlacedStable(ir, segs, offs, segs', offs, r, FILE_ORDER[r] !in pending);
    }
  }

  lemma {:induction false} PlacedFilled(ir: Ir, q: nat, segs: seq<seq<byte>>, offs: Offsets)
    requires q < |FILE_ORDER| && Placed(ir, segs, offs, q, false) && Ready(SectionOf(ir, FILE_ORDER[q]), offs)
    ensures q + 1 < |segs|
    ensures var s, p := SectionOf(ir, FILE_ORDER[q]), StartOf(segs, q + 1);
            && segs[q + 1] == Zeros(|SectionBytes(s, p, offs)|)
            && s.kind in offs && offs[s.kind] == Positions(s, p, offs)
            && Placed(ir, segs[q + 1 := SectionBytes(s, p, offs)], offs, q, true)
  {
    hide SectionOf, Ready, FixedSize, SectionBytes, Positions, StartOf, FILE_ORDER;
    var s, p := SectionOf(ir, FILE_ORDER[q]), StartOf(segs, q + 1);
    StartsAgree(segs, segs[q + 1 := SectionBytes(s, p, offs)], q + 1);
  }

  // ---- where sections start

  ghost predicate StartsRight(k: nat, segs: seq<seq<byte>>, starts: map<Kind, nat>) {
    && |segs| == k + 1
    && forall kind: Kind :: Rank(kind) < k ==> kind in starts && starts[kind] == StartOf(segs, Rank(kind) + 1)
  }

  lemma {:induction false} StartsNext(k: nat, segs: seq<seq<byte>>, starts: map<Kind, nat>, seg: seq<byte>)
    requires k < |FILE_ORDER| && StartsRight(k, segs, starts)
    ensures StartsRight(k + 1, segs + [seg], starts[FILE_ORDER[k] := |Flatten(segs)|])
  {
    hide Rank, StartOf, FILE_ORDER, Flatten;
    RankOf(k);
    LastStartIs(segs, seg);
    forall kind: Kind | Rank(kind) < k + 1
      ensures kind in starts[FILE_ORDER[k] := |Flatten(segs)|]
      ensures starts[FILE_ORDER[k] := |Flatten(segs)|][kind] == StartOf(segs + [seg], Rank(kind) + 1)
    {
      RankIs(kind);
      if Rank(kind) < k {
        StartsAgree(segs, segs + [seg], Rank(kind) + 1);
      }
    }
  }

  lemma StartIs(k: nat, segs: seq<seq<byte>>, starts: map<Kind, nat>, kind: Kind)
    requires StartsRight(k, segs, starts) && Rank(kind) < k
    ensures kind in starts && Rank(kind) + 1 < |segs| && starts[kind] == StartOf(segs, Rank(kind) + 1)
  {
    hide Rank, StartOf;
  }

  lemma {:induction false} StartsFill(k: nat, segs: seq<seq<byte>>, starts: map<Kind, nat>, q: nat, seg: seq<byte>)
    requires StartsRight(k, segs, starts) && q < |segs| && |seg| == |segs[q]|
    ensures StartsRight(k, segs[q := seg], starts)
  {
    hide Rank, StartOf, FILE_ORDER;
    var segs' := segs[q := seg];
    forall kind: Kind | Rank(kind) < k ensures kind in starts && starts[kind] == StartOf(segs', Rank(kind) + 1) {
      StartsAgree(segs, segs[q := seg], Rank(kind) + 1);
    }
  }

  lemma HoldsWithZeros(d: seq<byte>, f: seq<byte>, n: nat)
    requires Holds(d, f)
    ensures Holds(d, f + Zeros(n))
  {
    forall i: nat ensures At(d, i) == At(f + Zeros(n), i) {
      assert At(d, i) == At(f, i);
    }
  }

  // ---- a delayed section, before and after it is written

  lemma {:induction false} BeforeDelayed(ir: Ir, k: nat, segs: seq<seq<byte>>, offs: Offsets, pending: set<Kind>,
                                         starts: map<Kind, nat>, kind: Kind, d: seq<byte>)
    requires AllPlaced(ir, k, segs, offs, pending) && StartsRight(k, segs, starts) && Holds(d, Flatten(segs))
    requires Closed(ir) && kind in pending && Rank(kind) < k && forall to: Kind :: Target(kind, to) ==> Rank(to) < k
    ensures kind in starts && Rank(kind) + 1 < |segs| && kind in offs && Ready(SectionOf(ir, kind), offs)
    ensures offs[kind] == Positions(SectionOf(ir, kind), starts[kind], offs)
    ensures ZeroIn(d, starts[kind], starts[kind] + |SectionBytes(SectionOf(ir, kind), starts[kind], offs)|)
  {
    StartIs(k, segs, starts, kind);
    hide AllPlaced, SectionOf, SectionBytes, Positions, Flatten, Rank, Ready, Holds, StartsRight, Target, StartOf,
         ZeroIn, Closed;
    ReadyInTurn(ir, k, segs, offs, pending, kind);
    FillIn(ir, k, segs, offs, pending, kind);
    ReservedIsZero(d, segs, Rank(kind) + 1);
  }

  lemma {:induction false} AfterDelayed(ir: Ir, k: nat, segs: seq<seq<byte>>, offs: Offsets, pending: set<Kind>,
                                        starts: map<Kind, nat>, kind: Kind, d: seq<byte>, d': seq<byte>)
    requires AllPlaced(ir, k, segs, offs, pending) && StartsRight(k, segs, starts) && Holds(d, Flatten(segs))
    requires kind in pending && Rank(kind) < k && kind in starts && Ready(SectionOf(ir, kind), offs)
    requires Wrote(d, d', starts[kind], SectionBytes(SectionOf(ir, kind), starts[kind], offs))
    ensures Rank(kind) + 1 < |segs|
    ensures var segs' := segs[Rank(kind) + 1 := SectionBytes(SectionOf(ir, kind), starts[kind], offs)];
            && AllPlaced(ir, k, segs', offs, pending - {kind}) && StartsRight(k, segs', starts)
            && Holds(d', Flatten(segs')) && |Flatten(segs')| == |Flatten(segs)|
  {
    StartIs(k, segs, starts, kind);
    hide AllPlaced, SectionOf, SectionBytes, Positions, Flatten, Rank, Ready, Holds, StartsRight, StartOf, Wrote;
    FillIn(ir, k, segs, offs, pending, kind);
    var seg := SectionBytes(SectionOf(ir, kind), starts[kind], offs);
    ReplaceSegment(d, d', segs, Rank(kind) + 1, seg);
    StartsFill(k, segs, starts, Rank(kind) + 1, seg);
  }

  // ---- the writer

  class Writer {
    const stream: Stream
    var offsets: Offsets
    /** Where each section starts, before the alignment of its first item. */
    var starts: map<Kind, nat>
    /** The file so far, section by section, behind the space for the header. */
    ghost var segs: seq<seq<byte>>
    /** Sections reserved but not yet written. */
    ghost var pending: set<Kind>

    ghost predicate Progress(ir: Ir, k: nat)
      reads this, stream
    {
      && AllPlaced(ir, k, segs, offsets, pending) && StartsRight(k, segs, starts)
      && Holds(stream.data, Flatten(segs)) && stream.pos == |Flatten(segs)|
    }

    constructor (section: seq<byte>)
      requires ZeroFrom(section, 0)
      ensures fresh(stream)
      ensures forall ir :: Progress(ir, 0)
      ensures pending == {}
    {
      stream := new Stream(section);
      offsets, starts := map[], map[];
      segs := [Zeros(HEADER_SIZE)];
      pending := {};
      new;
      stream.Seek(HEADER_SIZE);
      assert segs[..0] == [] && Flatten([]) == [];
      assert Flatten(segs) == Zeros(HEADER_SIZE);
    }

    /** A section that is written in its turn. */
    method Next(ir: Ir, k: nat)
      requires Progress(ir, k) && Closed(ir) && k < |FILE_ORDER| && !Delayed(FILE_ORDER[k])
      requires FILE_ORDER[k] !in pending
      modifies this, stream
      ensures Progress(ir, k + 1) && pending == old(pending)
    {
      hide AllPlaced, Closed, SectionOf, SectionBytes, Positions, Flatten, Target, Rank, Delayed, Ready;
      var kind := FILE_ORDER[k];
      var s := SectionOf(ir, kind);
      SectionKind(ir, kind);
      RankOf(k);
      forall to: Kind | Target(kind, to) ensures Rank(to) < k {
        OrderIsSound(kind, to);
      }
      ReadyInTurn(ir, k, segs, offsets, pending, kind);
      PlaceNext(ir, k, segs, offsets, pending, true);
      ghost var seg := SectionBytes(s, stream.pos, offsets);
      ghost var d0 := stream.data;
      ZeroBeyond(d0, Flatten(segs), |seg|);
      var start := stream.pos;
      var positions;
      if kind == HiddenapiData {
        ZeroBeyond(d0, Flatten(segs), 0);
        positions := WriteHiddenapi(stream, ir, offsets);
      } else {
        positions := WriteRecords(stream, s, offsets);
      }
      Append(d0, stream.data, Flatten(segs), seg);
      FlattenAppend(segs, seg);
      StartsNext(k, segs, starts, seg);
      starts := starts[kind := start];
      segs := segs + [seg];
      offsets := offsets[kind := positions];
    }

    /** A delayed section: only its space is taken, and its items get their offsets. */
    method ReserveNext(ir: Ir, k: nat)
      requires Progress(ir, k) && Closed(ir) && k < |FILE_ORDER| && Delayed(FILE_ORDER[k])
      requires FILE_ORDER[k] !in pending
      modifies this, stream
      ensures Progress(ir, k + 1) && pending == old(pending) + {FILE_ORDER[k]}
    {
      hide AllPlaced, SectionOf, SectionBytes, Positions, Flatten, Rank, FixedSize, Holds, StartsRight;
      var kind := FILE_ORDER[k];
      var s := SectionOf(ir, kind);
      SectionKind(ir, kind);
      DelayedIsFixed(ir, kind);
      PlaceNext(ir, k, segs, offsets, pending, false);
      ghost var d0 := stream.data;
      ghost var seg := Zeros(|SectionBytes(s, stream.pos, map[])|);
      ZeroBeyond(d0, Flatten(segs), 0);
      var start := stream.pos;
      var positions;
      if kind == Kind.CodeItems {
        positions := ReserveCodeItems(stream, ir);
      } else {
        positions := ReserveRecords(stream, s);
      }
      HoldsTrans(stream.data, d0, Flatten(segs));
      HoldsWithZeros(stream.data, Flatten(segs), |seg|);
      FlattenAppend(segs, seg);
      StartsNext(k, segs, starts, seg);
      starts := starts[kind := start];
      segs, pending := segs + [seg], pending + {kind};
      offsets := offsets[kind := positions];
    }

    /** Going back to a reserved section.  Items that get their offset a second time
        get the same one, and the cursor is put back. */
    method WriteDelayed(ir: Ir, k: nat, kind: Kind)
      requires Progress(ir, k) && Closed(ir) && kind in pending && Rank(kind) < k
      requires forall to: Kind :: Target(kind, to) ==> Rank(to) < k
      modifies this, stream
      ensures Progress(ir, k) && pending == old(pending) - {kind}
      ensures offsets == old(offsets) && starts == old(starts) && stream.pos == old(stream.pos)
    {
      hide AllPlaced, SectionOf, SectionBytes, Positions, Flatten, Rank, Ready, Holds, StartsRight, Target, StartOf,
           Wrote, ZeroIn, Closed;
      BeforeDelayed(ir, k, segs, offsets, pending, starts, kind, stream.data);
      var start := starts[kind];
      ghost var seg := SectionBytes(SectionOf(ir, kind), start, offsets);
      var positions := Revisit(stream, ir, kind, start, offsets);
      AfterDelayed(ir, k, segs, offsets, pending, starts, kind, old(stream.data), stream.data);
      segs, pending := segs[Rank(kind) + 1 := seg], pending - {kind};
      offsets := offsets[kind := positions];
      assert offsets == old(offsets);
    }

    /** The id sections and the space for the code items. */
    method WriteFirst(ir: Ir)
      requires Progress(ir, 0) && Closed(ir) && pending == {}
      modifies this, stream
      ensures Progress(ir, 10) && forall kind :: kind in pending <==> Delayed(kind)
    {
      hide AllPlaced, Closed, StartsRight, Holds, Flatten;
      for k := 0 to 10
        invariant Progress(ir, k)
        invariant forall kind :: kind in pending <==> Delayed(kind) && Rank(kind) < k
      {
        RankOf(k);
        if Delayed(FILE_ORDER[k]) {
          ReserveNext(ir, k);
        } else {
          Next(ir, k);
        }
        Ranks(k);
      }
    }

    /** The sections after the debug infos. */
    method WriteLast(ir: Ir)
      requires Progress(ir, 11) && Closed(ir) && forall kind :: kind in pending ==> Delayed(kind)
      modifies this, stream
      ensures Progress(ir, |FILE_ORDER|) && pending == old(pending)
    {
      hide AllPlaced, Closed, StartsRight, Holds, Flatten;
      for k := 11 to |FILE_ORDER|
        invariant Progress(ir, k) && pending == old(pending)
      {
        Next(ir, k);
      }
    }

    /** The delayed id sections, which depend on the data sections. */
    method WriteIds(ir: Ir)
      requires Progress(ir, |FILE_ORDER|) && Closed(ir)
      requires forall kind :: kind in pending <==> Delayed(kind) && kind != Kind.CodeItems
      modifies this, stream
      ensures Progress(ir, |FILE_ORDER|) && pending == {}
    {
      hide Progress, Closed, Target, Rank;
      RanksBelow();
      WriteDelayed(ir, |FILE_ORDER|, StringIds);
      WriteDelayed(ir, |FILE_ORDER|, ProtoIds);
      WriteDelayed(ir, |FILE_ORDER|, ClassDefs);
      WriteDelayed(ir, |FILE_ORDER|, CallSiteIds);
      assert pending == {};
    }

    /** The body of Write up to the map list. */
    method WriteSections(ir: Ir)
      requires Progress(ir, 0) && Closed(ir) && pending == {}
      modifies this, stream
      ensures Progress(ir, |FILE_ORDER|) && pending == {}
      ensures Resolved(ir, offsets) && Flatten(segs) == Image(ir, |FILE_ORDER|, offsets)
    {
      hide AllPlaced, Closed, StartsRight, Holds, Flatten, Image, Resolved;
      WriteFirst(ir);
      // Debug infos get their offsets, then the code items can be written.
      Next(ir, 10);
      WriteDelayed(ir, 11, Kind.CodeItems);
      WriteLast(ir);
      WriteIds(ir);
      AllWritten(ir, segs, offsets);
    }
  }

  lemma RanksBelow()
    ensures forall kind: Kind :: Rank(kind) < |FILE_ORDER|
  {
  }

  lemma Ranks(k: nat)
    requires k < |FILE_ORDER|
    ensures forall kind: Kind :: Rank(kind) < k + 1 <==> Rank(kind) < k || kind == FILE_ORDER[k]
  {
    forall kind: Kind { RankIs(kind); }
    RankOf(k);
  }

  lemma PlacedBytes(ir: Ir, segs: seq<seq<byte>>, offs: Offsets, r: nat)
    requires AllPlaced(ir, |FILE_ORDER|, segs, offs, {}) && r < |FILE_ORDER|
    ensures var s, p := SectionOf(ir, FILE_ORDER[r]), StartOf(segs, r + 1);
            segs[r + 1] == SectionBytes(s, p, offs) && s.kind in offs && offs[s.kind] == Positions(s, p, offs)
  {
    hide SectionOf, SectionBytes, Positions, Ready, FixedSize, FILE_ORDER, StartOf, Flatten, Rank;
    assert Placed(ir, segs, offs, r, FILE_ORDER[r] !in {});
  }

  lemma TakeAnother(segs: seq<seq<byte>>, k: nat)
    requires k < |segs|
    ensures Flatten(segs[..k + 1]) == Flatten(segs[..k]) + segs[k]
  {
    assert segs[..k + 1][..k] == segs[..k];
  }

  lemma {:induction false} ImageSoFar(ir: Ir, segs: seq<seq<byte>>, offs: Offsets, k: nat)
    requires AllPlaced(ir, |FILE_ORDER|, segs, offs, {}) && k <= |FILE_ORDER|
    ensures |segs| == |FILE_ORDER| + 1 && Flatten(segs[..k + 1]) == Image(ir, k, offs)
    decreases k
  {
    FirstSegment(ir, segs, offs);
    hide *;
    if k > 0 {
      ImageSoFar(ir, segs, offs, k - 1);
      TakeAnother(segs, k);
      PlacedBytes(ir, segs, offs, k - 1);
      StartOfIs(segs, k);
      ImageStep(ir, k - 1, offs);
    }
  }

  lemma StartOfIs(segs: seq<seq<byte>>, k: nat)
    requires k <= |segs|
    ensures StartOf(segs, k) == |Flatten(segs[..k])|
  {
  }

  lemma FirstSegment(ir: Ir, segs: seq<seq<byte>>, offs: Offsets)
    requires AllPlaced(ir, |FILE_ORDER|, segs, offs, {})
    ensures |segs| == |FILE_ORDER| + 1 && Flatten(segs[..1]) == Image(ir, 0, offs)
  {
    hide Placed, FILE_ORDER, Rank;
    assert segs[..1][..0] == [] && Flatten([]) == [];
  }

  /** With nothing pending, the segments are the one-pass image. */
  lemma {:induction false} AllWritten(ir: Ir, segs: seq<seq<byte>>, offs: Offsets)
    requires AllPlaced(ir, |FILE_ORDER|, segs, offs, {})
    ensures Resolved(ir, offs) && Flatten(segs) == Image(ir, |FILE_ORDER|, offs)
  {
    hide SectionBytes, Positions, FILE_ORDER, Image, RecordsOf, Rank, AllPlaced, Flatten;
    ImageSoFar(ir, segs, offs, |FILE_ORDER|);
    assert segs[..|FILE_ORDER| + 1] == segs;
    forall kind: Kind
      ensures kind in offs && offs[kind] == Positions(SectionOf(ir, kind), |Image(ir, Rank(kind), offs)|, offs)
    {
      RankIs(kind);
      PlacedBytes(ir, segs, offs, Rank(kind));
      ImageSoFar(ir, segs, offs, Rank(kind));
    }
  }

  lemma ZeroBeyond(d: seq<byte>, f: seq<byte>, n: nat)
    requires Holds(d, f)
    ensures ZeroIn(d, |f|, |f| + n) && ZeroFrom(d, |f|)
  {
  }

  lemma {:induction false} ReservedIsZero(d: seq<byte>, segs: seq<seq<byte>>, q: nat)
    requires Holds(d, Flatten(segs)) && q < |segs| && segs[q] == Zeros(|segs[q]|)
    ensures ZeroIn(d, StartOf(segs, q), StartOf(segs, q) + |segs[q]|)
  {
    SplitAt(segs, q, segs[q]);
    forall i: nat | StartOf(segs, q) <= i < StartOf(segs, q) + |segs[q]| ensures At(d, i) == 0 {
      assert At(d, i) == At(Flatten(segs), i);
    }
  }
}
