/**
 DexWriter::Write with computed offsets: sections are laid down in file order,
 the delayed ones only reserved; they are written when the offsets they hold are
 known.  The result is proved to be the image that a writer knowing all offsets
 in advance would produce in one pass.
 */
module DexWriter {
  import opened Bytes
  import opened Leb128
  import opened ByteStream
  import opened SectionWriter
  import opened DexIr

  const HEADER_SIZE := 0x70

  // ---- the one-pass reference

  /** The header's place and the first k sections, every offset field holding its final value. */
  function Image(ir: Ir, k: nat, offs: Offsets): (bs: seq<byte>)
    requires k <= |FILE_ORDER|
  {
    if k == 0 then Zeros(HEADER_SIZE)
    else
      var before := Image(ir, k - 1, offs);
      before + SectionBytes(SectionOf(ir, FILE_ORDER[k - 1]), |before|, offs)
  }

  /** Every item has the offset at which the image has it. */
  ghost predicate Resolved(ir: Ir, offs: Offsets) {
    forall kind: Kind :: kind in offs
      && offs[kind] == Positions(SectionOf(ir, kind), |Image(ir, Rank(kind), offs)|, offs)
  }

  lemma {:induction false} ImagePrefix(ir: Ir, i: nat, k: nat, offs: Offsets)
    requires i <= k <= |FILE_ORDER|
    ensures Image(ir, i, offs) <= Image(ir, k, offs)
    decreases k
  {
    hide SectionBytes;
    if i < k {
      ImagePrefix(ir, i, k - 1, offs);
    }
  }

  predicate LiesAt(whole: seq<byte>, o: int, part: seq<byte>) {
    0 <= o && o + |part| <= |whole| && whole[o..o + |part|] == part
  }

  /** The file has the record of an item at `o`. */
  predicate HasItem(ir: Ir, offs: Offsets, file: seq<byte>, o: int, ref: Ref) {
    ref.index < |RecordsOf(ir, ref.kind)| && LiesAt(file, o, EncRecord(RecordsOf(ir, ref.kind)[ref.index], offs))
  }

  /** The bytes of an item lie where its offset says, in a file that holds the image. */
  lemma {:induction false} ItemLiesAtOffset(ir: Ir, offs: Offsets, ref: Ref)
    requires Resolved(ir, offs) && ref.index < |RecordsOf(ir, ref.kind)|
    ensures Assigned(offs, ref) && HEADER_SIZE <= OffsetOf(offs, Some(ref))
    ensures HasItem(ir, offs, Image(ir, |FILE_ORDER|, offs), OffsetOf(offs, Some(ref)), ref)
  {
    hide EncRecord, Positions, RecordsOf, SectionBytes, Position, Rank, Image, Resolved;
    var k, s := Rank(ref.kind), SectionOf(ir, ref.kind);
    var before := Image(ir, k, offs);
    ResolvedAt(ir, offs, ref.kind);
    PositionsAt(s, ref.index, |before|, offs);
    RecordLiesAt(s, ref.index, |before|, offs);
    ImageStep(ir, k, offs);
    ImagePrefix(ir, k + 1, |FILE_ORDER|, offs);
    SliceOfPart(Image(ir, |FILE_ORDER|, offs), before, SectionBytes(s, |before|, offs),
                Position(s, ref.index, |before|, offs) - |before|, EncRecord(s.records[ref.index], offs));
    ImagePrefix(ir, 0, k, offs);
  }

  /** Field j of an item is the given one. */
  predicate HasField(ir: Ir, holder: Ref, j: nat, f: Field) {
    && holder.index < |RecordsOf(ir, holder.kind)|
    && j < |RecordsOf(ir, holder.kind)[holder.index]| && RecordsOf(ir, holder.kind)[holder.index][j] == f
  }

  /** Where field j of an item lies in the file. */
  function FieldAt(ir: Ir, offs: Offsets, holder: Ref, j: nat, f: Field): (at: nat)
    requires HasField(ir, holder, j, f)
  {
    OffsetOf(offs, Some(holder)) + |EncFields(RecordsOf(ir, holder.kind)[holder.index], j, offs)|
  }

  lemma {:induction false} FieldLiesAt(ir: Ir, offs: Offsets, holder: Ref, j: nat, f: Field)
    requires Resolved(ir, offs) && HasField(ir, holder, j, f)
    ensures LiesAt(Image(ir, |FILE_ORDER|, offs), FieldAt(ir, offs, holder, j, f), EncField(f, offs))
    ensures FieldAt(ir, offs, holder, j, f) >= HEADER_SIZE
  {
    hide EncFields, EncField, RecordsOf, Image, Resolved, OffsetOf;
    var r := RecordsOf(ir, holder.kind)[holder.index];
    ItemLiesAtOffset(ir, offs, holder);
    EncFieldsPart(r, j, |r|, offs);
    PartOfPart(Image(ir, |FILE_ORDER|, offs), OffsetOf(offs, Some(holder)), EncRecord(r, offs),
               |EncFields(r, j, offs)|, EncField(f, offs));
  }

  lemma ReadU32(file: seq<byte>, at: nat, offs: Offsets, ref: Ref)
    requires OffsetOf(offs, Some(ref)) < TWO_TO_THE_32 && LiesAt(file, at, EncField(Off32(Some(ref)), offs))
    ensures at + 4 <= |file| && Val(file[at..at + 4]) == OffsetOf(offs, Some(ref))
  {
    hide U32, Val, OffsetOf;
    U32RoundTrip(OffsetOf(offs, Some(ref)));
  }

  lemma ReadUleb(file: seq<byte>, at: nat, offs: Offsets, ref: Ref)
    requires OffsetOf(offs, Some(ref)) < TWO_TO_THE_32 && LiesAt(file, at, EncField(OffUleb(Some(ref)), offs))
    ensures at <= |file| && DecodeUleb(file[at..]).Some?
    ensures DecodeUleb(file[at..]).value.value == OffsetOf(offs, Some(ref))
  {
    hide Uleb, DecodeUleb, OffsetOf;
    var o := OffsetOf(offs, Some(ref));
    assert file[at..] == Uleb(o) + file[at + |Uleb(o)|..];
    UlebRoundTrip(o, file[at + |Uleb(o)|..]);
  }

  lemma FieldInIr(ir: Ir, holder: Ref, j: nat, f: Field)
    requires Closed(ir) && HasField(ir, holder, j, f)
    ensures !f.Raw? && f.ref.Some? ==> f.ref.value.index < |RecordsOf(ir, f.ref.value.kind)|
  {
    hide RecordsOf;
  }

  lemma OffsetBelow(ir: Ir, offs: Offsets, ref: Ref, file: seq<byte>)
    requires HasItem(ir, offs, file, OffsetOf(offs, Some(ref)), ref)
    ensures OffsetOf(offs, Some(ref)) <= |file|
  {
    hide RecordsOf, EncRecord, OffsetOf;
  }

  lemma {:induction false} EncFieldsPart(r: Record, j: nat, n: nat, offs: Offsets)
    requires j < n <= |r|
    ensures LiesAt(EncFields(r, n, offs), |EncFields(r, j, offs)|, EncField(r[j], offs))
    decreases n
  {
    hide EncField;
    if j < n - 1 {
      EncFieldsPart(r, j, n - 1, offs);
    }
  }

  lemma PartOfPart(whole: seq<byte>, o: int, part: seq<byte>, o': int, f: seq<byte>)
    requires LiesAt(whole, o, part) && LiesAt(part, o', f)
    ensures LiesAt(whole, o + o', f)
  {
    forall i | 0 <= i < |f| ensures whole[o + o' + i] == f[i] {
      assert whole[o..o + |part|][o' + i] == part[o' + i];
      assert part[o'..o' + |f|][i] == f[i];
    }
  }

  lemma ResolvedAt(ir: Ir, offs: Offsets, kind: Kind)
    requires Resolved(ir, offs)
    ensures kind in offs && offs[kind] == Positions(SectionOf(ir, kind), |Image(ir, Rank(kind), offs)|, offs)
  {
    hide Positions, Image, SectionOf;
  }

  lemma ImageStep(ir: Ir, k: nat, offs: Offsets)
    requires k < |FILE_ORDER|
    ensures Image(ir, k + 1, offs)
         == Image(ir, k, offs) + SectionBytes(SectionOf(ir, FILE_ORDER[k]), |Image(ir, k, offs)|, offs)
    ensures |Image(ir, 0, offs)| == HEADER_SIZE
  {
    hide SectionBytes, SectionOf;
  }

  /** What lies in a part lies in the whole, further on. */
  lemma SliceOfPart<T>(whole: seq<T>, before: seq<T>, part: seq<T>, o: int, r: seq<T>)
    requires before + part <= whole && 0 <= o && o + |r| <= |part| && part[o..o + |r|] == r
    ensures |before| + o + |r| <= |whole| && whole[|before| + o..|before| + o + |r|] == r
  {
    assert whole[..|before| + |part|] == before + part;
  }

  lemma PositionsAt(s: Section, i: nat, p: nat, offs: Offsets)
    requires i < |s.records|
    ensures Positions(s, p, offs)[i] == Position(s, i, p, offs)
  {
  }

  // ---- segments of the file being written

  /** Where segment k starts. */
  ghost function StartOf(segs: seq<seq<byte>>, k: nat): (p: nat)
    requires k <= |segs|
  {
    |Flatten(segs[..k])|
  }

  lemma {:induction false} StartsAgree(a: seq<seq<byte>>, b: seq<seq<byte>>, k: nat)
    requires k <= |a| && k <= |b| && forall i :: 0 <= i < k ==> |a[i]| == |b[i]|
    ensures StartOf(a, k) == StartOf(b, k)
    decreases k
  {
    if k > 0 {
      StartsAgree(a, b, k - 1);
      assert a[..k][..k - 1] == a[..k - 1] && b[..k][..k - 1] == b[..k - 1];
    } else {
      assert a[..k] == b[..k] == [];
    }
  }

  /** Replacing a segment by one of the same length is writing it in its place. */
  lemma {:induction false} ReplaceSegment(d: seq<byte>, d': seq<byte>, segs: seq<seq<byte>>, k: nat, seg: seq<byte>)
    requires k < |segs| && |seg| == |segs[k]|
    requires Holds(d, Flatten(segs)) && Wrote(d, d', StartOf(segs, k), seg)
    ensures Holds(d', Flatten(segs[k := seg])) && |Flatten(segs[k := seg])| == |Flatten(segs)|
  {
    SplitAt(segs, k, seg);
    var before, after := Flatten(segs[..k]), After(segs, k);
    assert Flatten(segs) == before + segs[k] + after;
    forall i: nat ensures At(d', i) == At(before + seg + after, i) {
      assert At(d, i) == At(Flatten(segs), i);
    }
  }

  /** What comes after segment k. */
  ghost function After(segs: seq<seq<byte>>, k: nat): (bs: seq<byte>)
    requires k < |segs|
  {
    if k == |segs| - 1 then [] else After(segs[..|segs| - 1], k) + segs[|segs| - 1]
  }

  lemma {:induction false} SplitAt(segs: seq<seq<byte>>, k: nat, seg: seq<byte>)
    requires k < |segs|
    ensures Flatten(segs) == Flatten(segs[..k]) + segs[k] + After(segs, k)
    ensures Flatten(segs[k := seg]) == Flatten(segs[..k]) + seg + After(segs, k)
  {
    var n := |segs| - 1;
    if k < n {
      SplitAt(segs[..n], k, seg);
      assert segs[..n][..k] == segs[..k];
      assert segs[k := seg][..n] == segs[..n][k := seg];
    } else {
      assert segs[k := seg][..n] == segs[..n];
    }
  }

  // ---- what has been placed so far

  /** Section r of the file has its offsets, and its bytes or the zeros reserved for them. */
  ghost predicate Placed(ir: Ir, segs: seq<seq<byte>>, offs: Offsets, r: nat, written: bool)
    requires r < |FILE_ORDER|
  {
    var s := SectionOf(ir, FILE_ORDER[r]);
    && r + 1 < |segs|
    && s.kind in offs
    && var p := StartOf(segs, r + 1);
    && offs[s.kind] == Positions(s, p, offs)
    && (if written then Ready(s, offs) && segs[r + 1] == SectionBytes(s, p, offs)
        else FixedSize(s) && segs[r + 1] == Zeros(|SectionBytes(s, p, offs)|))
  }

  lemma {:induction false} PlacedStable(ir: Ir, segs: seq<seq<byte>>, offs: Offsets, segs': seq<seq<byte>>,
                                        offs': Offsets, r: nat, written: bool)
    requires r < |FILE_ORDER| && Placed(ir, segs, offs, r, written) && Extends(offs, offs')
    requires |segs| <= |segs'| && (forall i :: 0 <= i <= r ==> |segs[i]| == |segs'[i]|) && segs[r + 1] == segs'[r + 1]
    ensures Placed(ir, segs', offs', r, written)
  {
    hide RecordsOf, Ready, FixedSize, SectionBytes, Positions, StartOf;
    var s := SectionOf(ir, FILE_ORDER[r]);
    var p := StartOf(segs, r + 1);
    StartsAgree(segs, segs', r + 1);
    if written {
      SectionStable(s, p, offs, offs');
      ReadyStable(s, offs, offs');
    } else {
      FixedPositions(s, p, offs, offs');
    }
  }

  lemma {:induction false} ReadyStable(s: Section, offs: Offsets, offs': Offsets)
    requires Ready(s, offs) && Extends(offs, offs')
    ensures Ready(s, offs')
  {
    forall i | 0 <= i < |s.records| ensures RecordReady(s.records[i], offs') {
      assert RecordReady(s.records[i], offs);
      forall j | 0 <= j < |s.records[i]| ensures FieldReady(s.records[i][j], offs') {
        assert FieldReady(s.records[i][j], offs);
      }
    }
  }

  /** A section is ready when its targets have all their offsets. */
  lemma {:induction false} ReadyWhenTargets(ir: Ir, kind: Kind, offs: Offsets)
    requires Closed(ir)
    requires forall to: Kind :: Target(kind, to) ==> to in offs && |offs[to]| == |RecordsOf(ir, to)|
    ensures Ready(SectionOf(ir, kind), offs)
  {
    hide RecordsOf;
    var s := SectionOf(ir, kind);
    forall i | 0 <= i < |s.records| ensures RecordReady(s.records[i], offs) {
      forall j | 0 <= j < |s.records[i]| ensures FieldReady(s.records[i][j], offs) {
        RecordsTarget(ir, kind, i, j);
        assert InIr(ir, s.records[i][j]);
      }
    }
  }

  lemma {:induction false} DelayedIsFixed(ir: Ir, kind: Kind)
    requires kind != ClassDatas
    ensures FixedSize(SectionOf(ir, kind))
  {
    hide RecordsOf;
    var s := SectionOf(ir, kind);
    forall i, j | 0 <= i < |s.records| && 0 <= j < |s.records[i]| ensures !s.records[i][j].OffUleb? {
      RecordsTarget(ir, kind, i, j);
    }
  }
}
