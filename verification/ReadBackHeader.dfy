/**
 Where the ids of a written file lie, and that its header says so.
 */
module ReadBackHeader {
  import opened Bytes
  import opened ByteStream
  import opened SectionWriter
  import opened CodeItems
  import opened DexIr
  import opened DexWriter
  import opened DexFile
  import opened DexRecords
  import opened DexTree
  import opened ReadBackItems
  import opened ReadBackClasses
  import opened ReadBackIds

  // ---- every item lies at its offset

  lemma {:induction false} OffsetSmall(ir: Ir, offs: Offsets, order: seq<MapItem>, link: seq<byte>, file: seq<byte>,
                                       ref: Option<Ref>)
    requires IsFile(ir, offs, order, link, file) && |file| < TWO_TO_THE_32
    ensures OffsetOf(offs, ref) < TWO_TO_THE_32
  {
    hide IsFile, RecordsOf, EncRecord, Image, Rank;
    if ref.Some? && Assigned(offs, ref.value) {
      FileResolved(ir, offs, order, link, file);
      ResolvedAt(ir, offs, ref.value.kind);
      ItemLiesInFile(ir, offs, order, link, file, ref.value);
    }
  }

  lemma FileResolved(ir: Ir, offs: Offsets, order: seq<MapItem>, link: seq<byte>, file: seq<byte>)
    requires IsFile(ir, offs, order, link, file)
    ensures Resolved(ir, offs)
  {
    hide Resolved, Body;
  }

  lemma {:induction false} FileHolds(ir: Ir, offs: Offsets, order: seq<MapItem>, link: seq<byte>, file: seq<byte>)
    requires IsFile(ir, offs, order, link, file) && Closed(ir) && |file| < TWO_TO_THE_32
    ensures Holding(ir, offs, file)
  {
    hide IsFile, RecordsOf, EncRecord, OffsetOf, Closed, LiesAt, Resolved;
    FileResolved(ir, offs, order, link, file);
    forall ref: Option<Ref>
      ensures OffsetOf(offs, ref) < TWO_TO_THE_32
    {
      OffsetSmall(ir, offs, order, link, file, ref);
    }
    forall kind: Kind, i: nat | i < |RecordsOf(ir, kind)| ensures Lies(ir, offs, file, kind, i) {
      ItemLiesAtOffset(ir, offs, Ref(kind, i));
      ItemLiesInFile(ir, offs, order, link, file, Ref(kind, i));
    }
  }

  // ---- sections of records of one size

  /** The size of the records before the data sections. */
  function IdSize(kind: Kind): (n: nat) {
    match kind
    case StringIds => 4
    case TypeIds => 4
    case ProtoIds => 12
    case FieldIds => 8
    case MethodIds => 8
    case ClassDefs => 32
    case CallSiteIds => 4
    case MethodHandles => 8
    case _ => 0
  }

  predicate IsId(kind: Kind) { IdSize(kind) > 0 }

  lemma IdKinds(k: nat)
    requires k < 8
    ensures |FILE_ORDER| == 20 && IsId(FILE_ORDER[k]) && IdSize(FILE_ORDER[k]) % 4 == 0
    ensures AlignmentOf(FILE_ORDER[k]) == 4
  {
  }

  lemma RankOfId(kind: Kind)
    requires IsId(kind)
    ensures Rank(kind) < 8 && AlignmentOf(kind) == 4 && IdSize(kind) % 4 == 0
  {
  }

  lemma WordRecord(r: Record, offs: Offsets)
    requires AreWords(r)
    ensures |EncRecord(r, offs)| == 4 * |r|
  {
    WordsLength(r, |r|, offs);
  }

  lemma HalfRecord(a: seq<byte>, b: seq<byte>, c: seq<byte>, d: seq<byte>, offs: Offsets)
    requires |a| == |b| == |c| == |d| == 2
    ensures |EncRecord([Raw(a), Raw(b), Raw(c), Raw(d)], offs)| == 8
  {
    TwoFields(a, b, [Raw(c), Raw(d)], offs);
    Pair(c, d, offs);
    assert [Raw(a), Raw(b), Raw(c), Raw(d)] == [Raw(a), Raw(b)] + [Raw(c), Raw(d)];
  }

  lemma {:induction false} IdRecordSize(ir: Ir, kind: Kind, i: nat, offs: Offsets)
    requires IsId(kind) && i < |RecordsOf(ir, kind)|
    ensures |EncRecord(RecordsOf(ir, kind)[i], offs)| == IdSize(kind)
  {
    hide EncRecord, U32, U16, LittleEndian;
    var r := RecordsOf(ir, kind)[i];
    if kind == FieldIds || kind == MethodIds || kind == MethodHandles {
      HalfRecord(r[0].bytes, r[1].bytes, r[2].bytes, r[3].bytes, offs);
      assert r == [Raw(r[0].bytes), Raw(r[1].bytes), Raw(r[2].bytes), Raw(r[3].bytes)];
    } else {
      WordRecord(r, offs);
    }
  }

  lemma {:induction false} IdBytes(ir: Ir, kind: Kind, n: nat, p: nat, offs: Offsets)
    requires IsId(kind) && n <= |RecordsOf(ir, kind)| && p % 4 == 0
    ensures |SecBytes(SectionOf(ir, kind), n, p, offs)| == IdSize(kind) * n
    decreases n
  {
    hide RecordsOf, EncRecord, IdSize, PadLen, Aligned;
    RankOfId(kind);
    if n > 0 {
      IdBytes(ir, kind, n - 1, p, offs);
      IdRecordSize(ir, kind, n - 1, offs);
      NoPad(p, IdSize(kind), n - 1);
      OneMore(IdSize(kind), n);
    }
  }

  lemma OneMore(size: nat, n: nat)
    requires n > 0
    ensures size * n == size * (n - 1) + size
  {
  }

  lemma NoPad(p: nat, size: nat, n: nat)
    requires p % 4 == 0 && size % 4 == 0
    ensures (p + size * n) % 4 == 0 && PadLen(p + size * n, 4) == 0 && RoundUp(p + size * n, 4) == p + size * n
  {
    var (a, b) := (p / 4, size / 4);
    assert size * n == 4 * (b * n) by { assert size == 4 * b; }
    DivModUnique(p + size * n, 4, a + b * n, 0);
  }

  lemma {:induction false} IdsAligned(ir: Ir, k: nat, offs: Offsets)
    requires k <= 8
    ensures |Image(ir, k, offs)| % 4 == 0
    decreases k
  {
    hide RecordsOf, SecBytes, FILE_ORDER, IsId, IdSize, AlignmentOf, PadLen;
    if k > 0 {
      IdKinds(k - 1);
      IdsAligned(ir, k - 1, offs);
      ImageStep(ir, k - 1, offs);
      var kind, p := FILE_ORDER[k - 1], |Image(ir, k - 1, offs)|;
      IdBytes(ir, kind, |RecordsOf(ir, kind)|, p, offs);
      NoPad(p, IdSize(kind), |RecordsOf(ir, kind)|);
    }
  }

  /** Id i of a section lies i records behind the start of the section. */
  lemma {:induction false} IdAt(ir: Ir, offs: Offsets, kind: Kind, i: nat)
    requires Resolved(ir, offs) && IsId(kind) && i < |RecordsOf(ir, kind)|
    ensures Where(offs, kind, i) == |Image(ir, Rank(kind), offs)| + IdSize(kind) * i
  {
    hide RecordsOf, Image, SecBytes, Resolved, Rank, IdSize, RoundUp;
    var s, p := SectionOf(ir, kind), |Image(ir, Rank(kind), offs)|;
    RankOfId(kind);
    IdsAligned(ir, Rank(kind), offs);
    ResolvedAt(ir, offs, kind);
    PositionsAt(s, i, p, offs);
    IdBytes(ir, kind, i, p, offs);
    NoPad(p, IdSize(kind), i);
  }

  // ---- the header

  /** The file is what Write makes of the IR. */
  ghost predicate Written(ir: Ir, id: Identity, link: seq<byte>, file: seq<byte>, offs: Offsets, order: seq<MapItem>) {
    && Closed(ir) && ValidIdentity(id) && IsFile(ir, offs, order, link, file)
    && multiset(order) == multiset(MapEntries(ir, Starts(ir, offs), MapStart(ir, offs)))
    && RoundUp(Starts(ir, offs)[DataStart], 8) <= |file| - |link|
    && file[..HEADER_SIZE] == Header(ir, id, link, offs, |file| - |link|)
  }

  /** The numbers that the header holds. */
  ghost function NumbersIn(ir: Ir, id: Identity, link: seq<byte>, file: seq<byte>, offs: Offsets): (xs: seq<nat>)
    requires ValidIdentity(id) && RoundUp(Starts(ir, offs)[DataStart], 8) <= |file| - |link|
    ensures |xs| == 20
  {
    var start, dataEnd := Starts(ir, offs), |file| - |link|;
    HeaderNumbers(ir, id, start, dataEnd + |link|, if link == [] then None else Some(dataEnd), |link|,
                  MapStart(ir, offs), dataEnd - RoundUp(start[DataStart], 8))
  }

  lemma {:induction false} NumberRead(ir: Ir, id: Identity, link: seq<byte>, file: seq<byte>, offs: Offsets,
                                      order: seq<MapItem>, k: nat)
    requires Written(ir, id, link, file, offs, order) && k < 20
    requires NumbersIn(ir, id, link, file, offs)[k] < TWO_TO_THE_32
    ensures Word(file, 8 + k) == NumbersIn(ir, id, link, file, offs)[k]
  {
    hide HeaderNumbers, HeaderBytes, Starts, MapStart, RoundUp, Word, Closed, ValidIdentity, MapEntries, Body, Resolved;
    var xs := NumbersIn(ir, id, link, file, offs);
    HeaderWord(id, xs, k);
    assert file == file[..HEADER_SIZE] + file[HEADER_SIZE..];
    WordOn(file[..HEADER_SIZE], file[HEADER_SIZE..], 8 + k);
  }

  lemma {:induction false} NumberPlaces(ir: Ir, id: Identity, start: map<Kind, nat>, fileSize: nat, link: Option<nat>,
                                        linkSize: nat,
                                        mapOffset: nat, dataSize: nat, i: nat)
    requires ValidIdentity(id) && (forall kind: Kind :: kind in start) && i < 6
    ensures var xs := HeaderNumbers(ir, id, start, fileSize, link, linkSize, mapOffset, dataSize);
            && xs[5] == mapOffset && xs[6 + 2 * i] == |RecordsOf(ir, HEADER_KINDS[i])|
            && (RecordsOf(ir, HEADER_KINDS[i]) != [] ==> xs[7 + 2 * i] == start[HEADER_KINDS[i]])
  {
    hide RecordsOf, RoundUp, ValidIdentity;
    var xs := HeaderNumbers(ir, id, start, fileSize, link, linkSize, mapOffset, dataSize);
    assert xs[6 + 2 * i..8 + 2 * i] == IdSection(ir, id, start, HEADER_KINDS[i]);
    assert xs[6 + 2 * i..8 + 2 * i][0] == xs[6 + 2 * i] && xs[6 + 2 * i..8 + 2 * i][1] == xs[7 + 2 * i];
  }

  lemma {:induction false} PlacesIn(ir: Ir, id: Identity, link: seq<byte>, file: seq<byte>, offs: Offsets, i: nat)
    requires ValidIdentity(id) && RoundUp(Starts(ir, offs)[DataStart], 8) <= |file| - |link| && i < |HEADER_KINDS| == 6
    ensures var xs, kind := NumbersIn(ir, id, link, file, offs), HEADER_KINDS[i];
            && xs[5] == MapStart(ir, offs) && xs[6 + 2 * i] == |RecordsOf(ir, kind)|
            && (RecordsOf(ir, kind) != [] ==> xs[7 + 2 * i] == |Image(ir, Rank(kind), offs)|)
  {
    hide HeaderNumbers, RecordsOf, MapStart, RoundUp, Image, Rank, ValidIdentity, HEADER_KINDS;
    var (start, dataEnd) := (Starts(ir, offs), |file| - |link|);
    NumberPlaces(ir, id, start, dataEnd + |link|, if link == [] then None else Some(dataEnd), |link|,
                 MapStart(ir, offs), dataEnd - RoundUp(start[DataStart], 8), i);
  }

  /** A section of ids is not longer than the file. */
  lemma {:induction false} IdsInFile(ir: Ir, offs: Offsets, file: seq<byte>, kind: Kind)
    requires Holding(ir, offs, file) && Resolved(ir, offs) && IsId(kind)
    ensures |RecordsOf(ir, kind)| <= |file|
    ensures RecordsOf(ir, kind) != [] ==> |Image(ir, Rank(kind), offs)| <= |file|
  {
    hide RecordsOf, EncRecord, Image, Rank, Resolved, Closed, Small, OffsetOf, IdSize;
    var n := |RecordsOf(ir, kind)|;
    if n > 0 {
      IdAt(ir, offs, kind, n - 1);
      IdRecordSize(ir, kind, n - 1, offs);
      assert Lies(ir, offs, file, kind, n - 1);
      OneMore(IdSize(kind), n);
      AtLeast(IdSize(kind), n);
      AtLeast(IdSize(kind), n - 1);
    }
  }

  lemma AtLeast(size: nat, n: nat)
    requires size > 0
    ensures n <= size * n
  {
  }

  lemma HeaderKinds(i: nat)
    requires i < 6
    ensures |HEADER_KINDS| == 6 && IsId(HEADER_KINDS[i])
  {
  }

  ghost predicate InHeader(ir: Ir, offs: Offsets, file: seq<byte>, kind: Kind, w: nat) {
    && Word(file, w) == |RecordsOf(ir, kind)|
    && (RecordsOf(ir, kind) != [] ==> Word(file, w + 1) == |Image(ir, Rank(kind), offs)|)
  }

  lemma {:induction false} SectionRead(ir: Ir, id: Identity, link: seq<byte>, file: seq<byte>, offs: Offsets,
                                       order: seq<MapItem>, i: nat)
    requires Written(ir, id, link, file, offs, order) && Holding(ir, offs, file) && |file| < TWO_TO_THE_32
    requires i < |HEADER_KINDS| == 6
    ensures InHeader(ir, offs, file, HEADER_KINDS[i], 14 + 2 * i)
  {
    hide NumbersIn, Starts, RecordsOf, MapStart, RoundUp, Word, Holding, IsFile, Image, Rank, Header, Closed,
         ValidIdentity, MapEntries, HEADER_KINDS;
    HeaderKinds(i);
    var kind := HEADER_KINDS[i];
    PlacesIn(ir, id, link, file, offs, i);
    FileResolved(ir, offs, order, link, file);
    IdsInFile(ir, offs, file, kind);
    NumberRead(ir, id, link, file, offs, order, 6 + 2 * i);
    if RecordsOf(ir, kind) != [] {
      NumberRead(ir, id, link, file, offs, order, 7 + 2 * i);
    }
  }

  /** The header says how many ids of each kind there are and where they start. */
  lemma {:induction false} AllInHeader(ir: Ir, id: Identity, link: seq<byte>, file: seq<byte>, offs: Offsets,
                                       order: seq<MapItem>)
    requires Written(ir, id, link, file, offs, order) && Holding(ir, offs, file) && |file| < TWO_TO_THE_32
    ensures InHeader(ir, offs, file, StringIds, 14) && InHeader(ir, offs, file, TypeIds, 16)
    ensures InHeader(ir, offs, file, ProtoIds, 18) && InHeader(ir, offs, file, FieldIds, 20)
    ensures InHeader(ir, offs, file, MethodIds, 22) && InHeader(ir, offs, file, ClassDefs, 24)
  {
    hide Written, Holding, InHeader;
    SectionRead(ir, id, link, file, offs, order, 0);
    SectionRead(ir, id, link, file, offs, order, 1);
    SectionRead(ir, id, link, file, offs, order, 2);
    SectionRead(ir, id, link, file, offs, order, 3);
    SectionRead(ir, id, link, file, offs, order, 4);
    SectionRead(ir, id, link, file, offs, order, 5);
  }

  lemma {:induction false} MapOffsetRead(ir: Ir, id: Identity, link: seq<byte>, file: seq<byte>, offs: Offsets,
                                         order: seq<MapItem>)
    requires Written(ir, id, link, file, offs, order) && |file| < TWO_TO_THE_32
    ensures Word(file, 13) == MapStart(ir, offs) <= |file|
  {
    hide NumbersIn, RecordsOf, Starts, MapStart, RoundUp, Word, Closed, Image, Header, ValidIdentity, MapEntries,
         MapListBytes;
    PlacesIn(ir, id, link, file, offs, 0);
    MapInBody(ir, link, offs, order);
    NumberRead(ir, id, link, file, offs, order, 5);
  }
}
