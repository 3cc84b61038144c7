/**
 The whole of DexWriter::Write: the sections, then the map list, the link data and,
 last, the header over the space left for it.
 */
module DexFile {
  import opened Bytes
  import opened Leb128
  import opened ByteStream
  import opened SectionWriter
  import opened DexIr
  import opened DexWriter
  import opened DexWriterRun
  import opened DexRecords

  // ---- the map list

  datatype MapItem = MapItem(code: nat, size: nat, offset: nat)

  function MapItemBytes(m: MapItem): (bs: seq<byte>)
    ensures |bs| == 12
  {
    U16(m.code) + U16(0) + U32(m.size) + U32(m.offset)
  }

  function MapItemsBytes(ms: seq<MapItem>): (bs: seq<byte>)
    ensures |bs| == 12 * |ms|
  {
    if ms == [] then [] else MapItemsBytes(ms[..|ms| - 1]) + MapItemBytes(ms[|ms| - 1])
  }

  function MapListBytes(ms: seq<MapItem>): (bs: seq<byte>)
    ensures |bs| == 4 + 12 * |ms|
  {
    U32(|ms|) + MapItemsBytes(ms)
  }

  ghost predicate Ascending(ms: seq<MapItem>) {
    forall i, j :: 0 <= i < j < |ms| ==> ms[i].offset <= ms[j].offset
  }

  /** The top of the queue: an item of least offset. */
  method Top(queue: seq<MapItem>) returns (t: nat)
    requires queue != []
    ensures t < |queue| && forall i :: 0 <= i < |queue| ==> queue[t].offset <= queue[i].offset
  {
    t := 0;
    for i := 1 to |queue|
      invariant t < |queue| && forall k :: 0 <= k < i ==> queue[t].offset <= queue[k].offset
    {
      if queue[i].offset < queue[t].offset { t := i; }
    }
  }

  lemma PopRest<T>(queue: seq<T>, t: nat)
    requires t < |queue|
    ensures multiset(queue) == multiset{queue[t]} + multiset(queue[..t] + queue[t + 1..])
  {
    assert queue == queue[..t] + [queue[t]] + queue[t + 1..];
  }

  lemma MapItemsAppend(ms: seq<MapItem>, m: MapItem)
    ensures MapItemsBytes(ms + [m]) == MapItemsBytes(ms) + MapItemBytes(m)
  {
    assert (ms + [m])[..|ms|] == ms;
  }

  /** Everything still queued lies no lower than what is already written. */
  ghost predicate Above(ms: seq<MapItem>, rest: seq<MapItem>) {
    forall m, r :: m in ms && r in rest ==> m.offset <= r.offset
  }

  lemma PopKeepsOrder(ms: seq<MapItem>, queue: seq<MapItem>, t: nat)
    requires t < |queue| && Ascending(ms) && Above(ms, queue)
    requires forall i :: 0 <= i < |queue| ==> queue[t].offset <= queue[i].offset
    ensures Ascending(ms + [queue[t]]) && Above(ms + [queue[t]], queue[..t] + queue[t + 1..])
  {
  }

  method WriteMapItems(stream: Stream, items: seq<MapItem>) returns (order: seq<MapItem>)
    requires ZeroFrom(stream.data, stream.pos)
    modifies stream
    ensures multiset(order) == multiset(items) && Ascending(order)
    ensures stream.pos == old(stream.pos) + |MapListBytes(order)| && |stream.data| >= stream.pos
    ensures Wrote(old(stream.data), stream.data, old(stream.pos), MapListBytes(order))
  {
    hide MapItemBytes, U32, MapItemsBytes, Wrote, Ascending, Above;
    ghost var d0, p0 := stream.data, stream.pos;
    ZeroTail(d0, p0, 4 + 12 * |items|);
    stream.Write(U32(|items|));
    var queue := items;
    order := [];
    NoneYet(queue);
    ghost var head := U32(|items|);
    assert head + MapItemsBytes([]) == head;
    while queue != []
      invariant multiset(items) == multiset(order) + multiset(queue) && |items| == |order| + |queue|
      invariant Ascending(order) && Above(order, queue)
      invariant stream.pos == p0 + 4 + 12 * |order| && |stream.data| >= stream.pos
      invariant Wrote(d0, stream.data, p0, head + MapItemsBytes(order))
      decreases |queue|
    {
      var t := Top(queue);
      PopRest(queue, t);
      PopKeepsOrder(order, queue, t);
      ghost var d1 := stream.data;
      ZeroInPart(d0, d1, p0, head + MapItemsBytes(order), p0 + 4 + 12 * |items|, stream.pos, stream.pos + 12);
      stream.Write(MapItemBytes(queue[t]));
      WroteThen(d0, d1, stream.data, p0, head + MapItemsBytes(order), MapItemBytes(queue[t]));
      MapItemsAppend(order, queue[t]);
      assert head + MapItemsBytes(order) + MapItemBytes(queue[t]) == head + MapItemsBytes(order + [queue[t]]);
      order := order + [queue[t]];
      queue := queue[..t] + queue[t + 1..];
    }
    assert |multiset(order)| == |order|;
  }

  lemma ZeroTail(d: seq<byte>, p: nat, n: nat)
    requires ZeroFrom(d, p)
    ensures ZeroIn(d, p, p + n)
  {
  }

  lemma NoneYet(queue: seq<MapItem>)
    ensures Ascending([]) && Above([], queue) && MapItemsBytes([]) == []
  {
  }

  /** The sections with an entry of their own, with their type codes, as the map is generated. */
  const MAP_KINDS: seq<(Kind, nat)> := [
    (StringIds, 0x0001), (TypeIds, 0x0002), (ProtoIds, 0x0003), (FieldIds, 0x0004), (MethodIds, 0x0005),
    (ClassDefs, 0x0006), (CallSiteIds, 0x0007), (MethodHandles, 0x0008), (TypeLists, 0x1001),
    (AnnotationSetRefs, 0x1002), (AnnotationSets, 0x1003), (ClassDatas, 0x2000), (Kind.CodeItems, 0x2001),
    (StringDatas, 0x2002), (DebugInfos, 0x2003), (Annotations, 0x2004), (EncodedArrays, 0x2005),
    (AnnotationsDirectories, 0x2006), (HiddenapiData, 0xF000) ]

  /** The offset of a section: where the writer came to it, before the alignment of its
      first item, except that the hidden API section is aligned first. */
  function SectionOffset(kind: Kind, start: nat): (o: nat) {
    if kind == HiddenapiData then RoundUp(start, 4) else start
  }

  function SectionEntries(ir: Ir, start: map<Kind, nat>, n: nat): (ms: seq<MapItem>)
    requires n <= |MAP_KINDS| && forall kind: Kind :: kind in start
  {
    if n == 0 then []
    else
      var (kind, code) := MAP_KINDS[n - 1];
      var size := |RecordsOf(ir, kind)|;
      SectionEntries(ir, start, n - 1)
      + if size == 0 then [] else [MapItem(code, size, SectionOffset(kind, start[kind]))]
  }

  function MapEntries(ir: Ir, start: map<Kind, nat>, mapOffset: nat): (ms: seq<MapItem>)
    requires forall kind: Kind :: kind in start
  {
    [MapItem(0, 1, 0), MapItem(0x1000, 1, mapOffset)] + SectionEntries(ir, start, |MAP_KINDS|)
  }

  /** The first item of a section lies at the section's offset, rounded up to the alignment. */
  lemma {:induction false} FirstItemRounded(ir: Ir, offs: Offsets, kind: Kind)
    requires Resolved(ir, offs) && RecordsOf(ir, kind) != []
    ensures kind in offs && offs[kind] != []
    ensures offs[kind][0] == RoundUp(SectionOffset(kind, |Image(ir, Rank(kind), offs)|), AlignmentOf(kind))
  {
    hide RecordsOf, Image, Rank, Resolved;
    ResolvedAt(ir, offs, kind);
  }

  // ---- the header

  /** What the header takes over from the file that was read. */
  datatype Identity = Identity(magic: seq<byte>, checksum: nat, signature: seq<byte>, endianTag: nat, linkOffset: nat,
                               sectionOffset: map<Kind, nat>)

  predicate ValidIdentity(id: Identity) {
    |id.magic| == 8 && |id.signature| == 20 && forall kind: Kind :: kind in id.sectionOffset
  }

  /** An empty section keeps the offset it had. */
  function IdSection(ir: Ir, id: Identity, start: map<Kind, nat>, kind: Kind): (sizeAndOffset: seq<nat>)
    requires ValidIdentity(id) && kind in start
    ensures |sizeAndOffset| == 2
  {
    var size := |RecordsOf(ir, kind)|;
    [size, if size == 0 then id.sectionOffset[kind] else start[kind]]
  }

  /** The rest of the header after the signature. */
  function HeaderNumbers(ir: Ir, id: Identity, start: map<Kind, nat>, fileSize: nat, link: Option<nat>, linkSize: nat,
                         mapOffset: nat, dataSize: nat): (xs: seq<nat>)
    requires ValidIdentity(id) && forall kind: Kind :: kind in start
    ensures |xs| == 20
  {
    hide RecordsOf, IdSection, RoundUp;
    [fileSize, HEADER_SIZE, id.endianTag, linkSize, if link.None? then id.linkOffset else link.value, mapOffset]
    + IdSection(ir, id, start, StringIds) + IdSection(ir, id, start, TypeIds) + IdSection(ir, id, start, ProtoIds)
    + IdSection(ir, id, start, FieldIds) + IdSection(ir, id, start, MethodIds) + IdSection(ir, id, start, ClassDefs)
    + [dataSize, if dataSize == 0 then 0 else RoundUp(start[DataStart], 8)]
  }

  function HeaderBytes(id: Identity, numbers: seq<nat>): (bs: seq<byte>)
    requires ValidIdentity(id)
  {
    id.magic + U32(id.checksum) + id.signature + U32s(numbers)
  }

  // ---- the file

  /** Where every section starts in the one-pass image. */
  ghost function Starts(ir: Ir, offs: Offsets): (start: map<Kind, nat>)
    ensures forall kind: Kind :: kind in start && start[kind] == |Image(ir, Rank(kind), offs)|
  {
    map kind: Kind | true :: |Image(ir, Rank(kind), offs)|
  }

  lemma {:induction false} DataBelow(ir: Ir, offs: Offsets)
    ensures HEADER_SIZE <= RoundUp(Starts(ir, offs)[DataStart], 8) <= |Image(ir, |FILE_ORDER|, offs)|
  {
    hide RecordsOf, Image;
    ImageStep(ir, 8, offs);
    DataStartBytes(ir, |Image(ir, 8, offs)|, offs);
    ImagePrefix(ir, 0, 8, offs);
    ImagePrefix(ir, 9, |FILE_ORDER|, offs);
  }

  lemma DataStartBytes(ir: Ir, p: nat, offs: Offsets)
    ensures p + |SectionBytes(SectionOf(ir, DataStart), p, offs)| == RoundUp(p, 8)
  {
    var s := SectionOf(ir, DataStart);
    assert s.records == [[]];
    assert SecBytes(s, 0, p, offs) == [] && EncRecord([], offs) == [];
    assert SecBytes(s, 1, p, offs) == [] + Zeros(PadLen(p + 0, 8)) + [];
  }

  ghost function MapStart(ir: Ir, offs: Offsets): (o: nat) {
    RoundUp(|Image(ir, |FILE_ORDER|, offs)|, 4)
  }

  ghost function Header(ir: Ir, id: Identity, link: seq<byte>, offs: Offsets, dataEnd: nat): (bs: seq<byte>)
    requires ValidIdentity(id) && RoundUp(Starts(ir, offs)[DataStart], 8) <= dataEnd
  {
    var start := Starts(ir, offs);
    HeaderBytes(id, HeaderNumbers(ir, id, start, dataEnd + |link|, if link == [] then None else Some(dataEnd), |link|,
                                  MapStart(ir, offs), dataEnd - RoundUp(start[DataStart], 8)))
  }

  /** Everything behind the header: sections, map list, link data. */
  ghost function Body(ir: Ir, link: seq<byte>, offs: Offsets, order: seq<MapItem>): (bs: seq<byte>) {
    Padded(Padded(Image(ir, |FILE_ORDER|, offs), 4) + MapListBytes(order), 8) + link
  }

  ghost function Padded(bs: seq<byte>, alignment: Alignment): (r: seq<byte>)
    ensures |r| == RoundUp(|bs|, alignment)
  {
    bs + Zeros(PadLen(|bs|, alignment))
  }

  lemma HeaderSize(id: Identity, numbers: seq<nat>)
    requires ValidIdentity(id) && |numbers| == 20
    ensures |HeaderBytes(id, numbers)| == HEADER_SIZE
  {
  }

  // ---- steps on what the stream holds

  lemma HoldsPadded(d: seq<byte>, d': seq<byte>, f: seq<byte>, alignment: Alignment)
    requires Holds(d, f) && Holds(d', d)
    ensures Holds(d', Padded(f, alignment)) && ZeroFrom(d', |Padded(f, alignment)|)
  {
    HoldsTrans(d', d, f);
    HoldsWithZeros(d', f, PadLen(|f|, alignment));
    ZeroBeyond(d', Padded(f, alignment), 0);
  }

  lemma HoldsOverlay(d: seq<byte>, d0: seq<byte>, d': seq<byte>, f: seq<byte>, front: seq<byte>)
    requires Holds(d0, f) && Holds(d, d0) && Wrote(d, d', 0, front) && |front| <= |f|
    ensures Holds(d', front + f[|front|..])
  {
    forall i: nat ensures At(d', i) == At(front + f[|front|..], i) {
      assert At(d, i) == At(d0, i) == At(f, i);
    }
  }

  /** The section cut or zero filled to the size of the file. */
  method Resize(data: seq<byte>, size: nat) returns (r: seq<byte>)
    ensures |r| == size && forall i: nat :: i < size ==> r[i] == At(data, i)
  {
    if size <= |data| {
      r := data[..size];
    } else {
      r := data + Zeros(size - |data|);
    }
  }

  lemma ResizedIs(d: seq<byte>, r: seq<byte>, f: seq<byte>)
    requires Holds(d, f) && |r| == |f| && forall i: nat :: i < |r| ==> r[i] == At(d, i)
    ensures r == f
  {
    forall i: nat | i < |f| ensures r[i] == f[i] {
      assert At(d, i) == At(f, i);
    }
  }

  lemma {:induction false} StartsAre(ir: Ir, segs: seq<seq<byte>>, starts: map<Kind, nat>, offs: Offsets)
    requires AllPlaced(ir, |FILE_ORDER|, segs, offs, {}) && StartsRight(|FILE_ORDER|, segs, starts)
    ensures starts == Starts(ir, offs)
  {
    hide *;
    forall kind: Kind ensures kind in starts && starts[kind] == |Image(ir, Rank(kind), offs)| {
      StartIs(|FILE_ORDER|, segs, starts, kind);
      ImageSoFar(ir, segs, offs, Rank(kind));
      StartOfIs(segs, Rank(kind) + 1);
    }
  }

  /** WriteHeader, over the space left for it, and the trimming of the section. */
  method WriteHeader(stream: Stream, id: Identity, numbers: seq<nat>, ghost contents: seq<byte>)
    returns (file: seq<byte>)
    requires ValidIdentity(id) && |numbers| == 20
    requires Holds(stream.data, contents) && stream.pos == |contents| >= HEADER_SIZE
    modifies stream
    ensures |file| == |contents| && file[..HEADER_SIZE] == HeaderBytes(id, numbers)
    ensures file[HEADER_SIZE..] == contents[HEADER_SIZE..]
  {
    hide Holds, HeaderBytes, ValidIdentity;
    HeaderSize(id, numbers);
    var fileSize := stream.pos;
    ghost var d := stream.data;
    stream.Seek(0);
    ghost var d1 := stream.data;
    stream.Overwrite(HeaderBytes(id, numbers));
    HoldsOverlay(d1, d, stream.data, contents, HeaderBytes(id, numbers));
    file := Resize(stream.data, fileSize);
    ResizedIs(stream.data, file, HeaderBytes(id, numbers) + contents[HEADER_SIZE..]);
  }

  /**
   DexWriter::Write.  The sections end up as the one-pass image that knows all offsets,
   with the map list, the link data and the header around it.
   */
  method Write(section: seq<byte>, ir: Ir, id: Identity, link: seq<byte>)
    returns (file: seq<byte>, offs: Offsets, order: seq<MapItem>)
    requires ZeroFrom(section, 0) && Closed(ir) && ValidIdentity(id)
    ensures IsFile(ir, offs, order, link, file)
    ensures Ascending(order) && multiset(order) == multiset(MapEntries(ir, Starts(ir, offs), MapStart(ir, offs)))
    ensures RoundUp(Starts(ir, offs)[DataStart], 8) <= |file| - |link|
    ensures file[..HEADER_SIZE] == Header(ir, id, link, offs, |file| - |link|)
  {
    hide AllPlaced, Closed, StartsRight, Holds, Flatten, Image, Resolved, MapListBytes, ZeroFrom, Wrote, Starts,
         MapEntries, HeaderNumbers, HeaderBytes, Ascending, RoundUp, ValidIdentity, ZeroIn;
    var w := new Writer(section);
    w.WriteSections(ir);
    offs := w.offsets;
    var stream := w.stream;
    ghost var image := Image(ir, |FILE_ORDER|, offs);
    StartsAre(ir, w.segs, w.starts, offs);
    DataBelow(ir, offs);
    var starts := w.starts;

    ghost var d := stream.data;
    stream.AlignTo(4);
    HoldsPadded(d, stream.data, image, 4);
    var mapOffset := stream.pos;

    ghost var sections := Padded(image, 4);
    d := stream.data;
    order := WriteMapItems(stream, MapEntries(ir, starts, mapOffset));
    Append(d, stream.data, sections, MapListBytes(order));
    d := stream.data;
    stream.AlignTo(8);
    HoldsPadded(d, stream.data, sections + MapListBytes(order), 8);

    var dataEnd := stream.pos;
    ghost var data := Padded(sections + MapListBytes(order), 8);
    d := stream.data;
    ZeroTail(d, dataEnd, |link|);
    stream.Write(link);
    Append(d, stream.data, data, link);

    var fileSize := stream.pos;
    var numbers := HeaderNumbers(ir, id, starts, fileSize, if link == [] then None else Some(dataEnd), |link|,
                                 mapOffset, dataEnd - RoundUp(starts[DataStart], 8));
    file := WriteHeader(stream, id, numbers, data + link);
  }

  /** The file is the one that Write makes of the IR, with these offsets. */
  ghost predicate IsFile(ir: Ir, offs: Offsets, order: seq<MapItem>, link: seq<byte>, file: seq<byte>) {
    && Resolved(ir, offs) && |file| == |Body(ir, link, offs, order)| >= HEADER_SIZE
    && file[HEADER_SIZE..] == Body(ir, link, offs, order)[HEADER_SIZE..]
  }

  /** Every item lies at its offset. */
  lemma {:induction false} ItemLiesInFile(ir: Ir, offs: Offsets, order: seq<MapItem>, link: seq<byte>,
                                          file: seq<byte>, ref: Ref)
    requires IsFile(ir, offs, order, link, file) && ref.index < |RecordsOf(ir, ref.kind)|
    ensures Assigned(offs, ref) && HasItem(ir, offs, file, OffsetOf(offs, Some(ref)), ref)
  {
    hide Resolved, RecordsOf, Image, EncRecord, OffsetOf, MapListBytes;
    ItemLiesAtOffset(ir, offs, ref);
    var record := EncRecord(RecordsOf(ir, ref.kind)[ref.index], offs);
    LiesFurther(Image(ir, |FILE_ORDER|, offs), Body(ir, link, offs, order), OffsetOf(offs, Some(ref)), record);
    SameTail(file, Body(ir, link, offs, order), OffsetOf(offs, Some(ref)), record);
  }

  lemma {:induction false} FieldLiesInFile(ir: Ir, offs: Offsets, order: seq<MapItem>, link: seq<byte>, file: seq<byte>,
                                           holder: Ref, j: nat, f: Field)
    requires IsFile(ir, offs, order, link, file) && HasField(ir, holder, j, f)
    ensures LiesAt(file, FieldAt(ir, offs, holder, j, f), EncField(f, offs))
  {
    hide Resolved, Image, HasField, FieldAt, EncField, MapListBytes;
    FieldLiesAt(ir, offs, holder, j, f);
    LiesFurther(Image(ir, |FILE_ORDER|, offs), Body(ir, link, offs, order), FieldAt(ir, offs, holder, j, f),
                EncField(f, offs));
    SameTail(file, Body(ir, link, offs, order), FieldAt(ir, offs, holder, j, f), EncField(f, offs));
  }

  /** A 32-bit offset field of any item, decoded where it lies in the file, leads to the
      bytes of the item it refers to. */
  lemma {:induction false} OffsetLeadsToItem(ir: Ir, offs: Offsets, order: seq<MapItem>, link: seq<byte>,
                                             file: seq<byte>, holder: Ref, j: nat, ref: Ref)
    requires IsFile(ir, offs, order, link, file) && Closed(ir) && |file| < TWO_TO_THE_32
    requires HasField(ir, holder, j, Off32(Some(ref)))
    ensures var at := FieldAt(ir, offs, holder, j, Off32(Some(ref)));
            at + 4 <= |file| && HasItem(ir, offs, file, Val(file[at..at + 4]), ref)
  {
    hide *;
    FieldInIr(ir, holder, j, Off32(Some(ref)));
    FieldLiesInFile(ir, offs, order, link, file, holder, j, Off32(Some(ref)));
    ItemLiesInFile(ir, offs, order, link, file, ref);
    OffsetBelow(ir, offs, ref, file);
    ReadU32(file, FieldAt(ir, offs, holder, j, Off32(Some(ref))), offs, ref);
  }

  /** The same for the uleb128 offsets of code items in class datas. */
  lemma {:induction false} UlebOffsetLeadsToItem(ir: Ir, offs: Offsets, order: seq<MapItem>, link: seq<byte>,
                                                 file: seq<byte>, holder: Ref, j: nat, ref: Ref)
    requires IsFile(ir, offs, order, link, file) && Closed(ir) && |file| < TWO_TO_THE_32
    requires HasField(ir, holder, j, OffUleb(Some(ref)))
    ensures var at := FieldAt(ir, offs, holder, j, OffUleb(Some(ref)));
            at <= |file| && var d := DecodeUleb(file[at..]); d.Some? && HasItem(ir, offs, file, d.value.value, ref)
  {
    hide *;
    FieldInIr(ir, holder, j, OffUleb(Some(ref)));
    FieldLiesInFile(ir, offs, order, link, file, holder, j, OffUleb(Some(ref)));
    ItemLiesInFile(ir, offs, order, link, file, ref);
    OffsetBelow(ir, offs, ref, file);
    ReadUleb(file, FieldAt(ir, offs, holder, j, OffUleb(Some(ref))), offs, ref);
  }

  lemma SameTail(file: seq<byte>, body: seq<byte>, o: nat, part: seq<byte>)
    requires |file| == |body| >= HEADER_SIZE && file[HEADER_SIZE..] == body[HEADER_SIZE..]
    requires LiesAt(body, o, part) && o >= HEADER_SIZE
    ensures LiesAt(file, o, part)
  {
    forall i | 0 <= i < |part| ensures file[o + i] == part[i] {
      assert body[o..o + |part|][i] == part[i];
      assert file[HEADER_SIZE..][o + i - HEADER_SIZE] == body[HEADER_SIZE..][o + i - HEADER_SIZE];
    }
  }

  lemma LiesFurther(part: seq<byte>, whole: seq<byte>, o: nat, x: seq<byte>)
    requires part <= whole && LiesAt(part, o, x)
    ensures LiesAt(whole, o, x)
  {
    assert whole[o..o + |x|] == part[o..o + |x|];
  }

  // ---- reading the map list and the header

  lemma {:induction false} MapItemAt(ms: seq<MapItem>, i: nat)
    requires i < |ms|
    ensures MapItemsBytes(ms)[12 * i..12 * i + 12] == MapItemBytes(ms[i])
  {
    hide MapItemBytes;
    var n := |ms| - 1;
    var before := MapItemsBytes(ms[..n]);
    if i < n {
      MapItemAt(ms[..n], i);
      Behind(before, MapItemBytes(ms[n]), 12 * i, 12 * i + 12);
    } else {
      Behind(before, MapItemBytes(ms[n]), 0, 0);
    }
  }

  /** A map list is its size, and then the items. */
  lemma MapListAt(ms: seq<MapItem>, i: nat)
    requires i < |ms|
    ensures |MapListBytes(ms)| == 4 + 12 * |ms| && MapListBytes(ms)[0..4] == U32(|ms|)
    ensures MapListBytes(ms)[4 + 12 * i..16 + 12 * i] == MapItemBytes(ms[i])
  {
    hide MapItemBytes, U32, MapItemsBytes;
    MapItemAt(ms, i);
    var items := MapItemsBytes(ms);
    Behind(U32(|ms|), items, 0, 4);
    assert MapListBytes(ms)[4 + 12 * i..16 + 12 * i] == items[12 * i..12 * i + 12];
  }

  lemma {:induction false} MapItemReads(m: MapItem)
    requires m.code < TWO_TO_THE_16 && m.size < TWO_TO_THE_32 && m.offset < TWO_TO_THE_32
    ensures var bs := MapItemBytes(m);
            Val(bs[0..2]) == m.code && Val(bs[2..4]) == 0 && Val(bs[4..8]) == m.size && Val(bs[8..12]) == m.offset
  {
    hide U16, U32, Val;
    U16RoundTrip(m.code);
    U16RoundTrip(0);
    U32RoundTrip(m.size);
    U32RoundTrip(m.offset);
    FourParts(U16(m.code), U16(0), U32(m.size), U32(m.offset));
    assert MapItemBytes(m)[0..2] == U16(m.code);
  }

  /** The map list lies where the header says, and entry i where the format has it. */
  lemma {:induction false} MapLiesInFile(ir: Ir, offs: Offsets, order: seq<MapItem>, link: seq<byte>, file: seq<byte>,
                                         i: nat)
    requires IsFile(ir, offs, order, link, file) && i < |order| < TWO_TO_THE_32
    ensures var o := MapStart(ir, offs);
            && o + 16 + 12 * i <= |file| && Val(file[o..o + 4]) == |order|
            && file[o + 4 + 12 * i..o + 16 + 12 * i] == MapItemBytes(order[i])
  {
    hide Resolved, Image, MapItemBytes, U32, Val, MapListBytes;
    var o := MapStart(ir, offs);
    DataBelow(ir, offs);
    MapInBody(ir, link, offs, order);
    SameTail(file, Body(ir, link, offs, order), o, MapListBytes(order));
    U32RoundTrip(|order|);
    var map' := MapListBytes(order);
    MapListAt(order, i);
    assert file[o..o + |map'|] == map';
    SliceOfSlice(file, o, |map'|, 0, 4);
    SliceOfSlice(file, o, |map'|, 4 + 12 * i, 16 + 12 * i);
  }

  lemma MapInBody(ir: Ir, link: seq<byte>, offs: Offsets, order: seq<MapItem>)
    ensures LiesAt(Body(ir, link, offs, order), MapStart(ir, offs), MapListBytes(order))
  {
    hide Image, MapListBytes, PadLen;
    var sections := Padded(Image(ir, |FILE_ORDER|, offs), 4);
    var (m, pad) := (MapListBytes(order), Zeros(PadLen(|sections + MapListBytes(order)|, 8)));
    assert Body(ir, link, offs, order) == sections + m + (pad + link);
    assert (sections + m + (pad + link))[|sections|..|sections| + |m|] == m;
  }

  /** What the map list holds: the header, itself, and every section that is not empty. */
  ghost predicate IsEntry(ir: Ir, start: map<Kind, nat>, n: nat, m: MapItem)
    requires n <= |MAP_KINDS| && forall kind: Kind :: kind in start
  {
    exists k :: 0 <= k < n && RecordsOf(ir, MAP_KINDS[k].0) != [] && m == EntryOf(ir, start, k)
  }

  ghost function EntryOf(ir: Ir, start: map<Kind, nat>, k: nat): (m: MapItem)
    requires k < |MAP_KINDS| && forall kind: Kind :: kind in start
  {
    var (kind, code) := MAP_KINDS[k];
    MapItem(code, |RecordsOf(ir, kind)|, SectionOffset(kind, start[kind]))
  }

  lemma {:induction false} EntriesRight(ir: Ir, start: map<Kind, nat>, n: nat, m: MapItem)
    requires n <= |MAP_KINDS| && forall kind: Kind :: kind in start
    ensures m in SectionEntries(ir, start, n) <==> IsEntry(ir, start, n, m)
    decreases n
  {
    hide RecordsOf, MAP_KINDS, SectionOffset;
    if n > 0 {
      EntriesRight(ir, start, n - 1, m);
      if IsEntry(ir, start, n, m) && !IsEntry(ir, start, n - 1, m) {
        var k :| 0 <= k < n && RecordsOf(ir, MAP_KINDS[k].0) != [] && m == EntryOf(ir, start, k);
        assert k == n - 1;
      }
    }
  }

  lemma CodesDiffer(i: nat, j: nat)
    requires i < j < |MAP_KINDS|
    ensures MAP_KINDS[i].1 != MAP_KINDS[j].1
  {
  }

  /** No section has two entries. */
  lemma {:induction false} EntriesDistinct(ir: Ir, start: map<Kind, nat>, n: nat)
    requires n <= |MAP_KINDS| && forall kind: Kind :: kind in start
    ensures var ms := SectionEntries(ir, start, n); forall i, j :: 0 <= i < j < |ms| ==> ms[i].code != ms[j].code
    decreases n
  {
    hide RecordsOf, MAP_KINDS, SectionOffset;
    if n > 0 {
      EntriesDistinct(ir, start, n - 1);
      var before := SectionEntries(ir, start, n - 1);
      forall i | 0 <= i < |before| ensures before[i].code != MAP_KINDS[n - 1].1 {
        EntriesRight(ir, start, n - 1, before[i]);
        var k :| 0 <= k < n - 1 && RecordsOf(ir, MAP_KINDS[k].0) != [] && before[i] == EntryOf(ir, start, k);
        CodesDiffer(k, n - 1);
      }
    }
  }

  lemma {:induction false} HeaderWord(id: Identity, numbers: seq<nat>, k: nat)
    requires ValidIdentity(id) && k < |numbers| && numbers[k] < TWO_TO_THE_32
    ensures Word(HeaderBytes(id, numbers), 8 + k) == numbers[k]
  {
    hide U32, Val, U32s;
    U32sAt(numbers, k);
    U32RoundTrip(numbers[k]);
    var front := id.magic + U32(id.checksum) + id.signature;
    var o := 4 * (8 + k);
    assert HeaderBytes(id, numbers)[o..o + 4] == U32s(numbers)[4 * k..4 * k + 4];
  }

  /** The sections in the header, in the order of their places there. */
  const HEADER_KINDS: seq<Kind> := [StringIds, TypeIds, ProtoIds, FieldIds, MethodIds, ClassDefs]

  /** The numbers of the header are where the format has them. */
  lemma {:induction false} HeaderReads(ir: Ir, id: Identity, start: map<Kind, nat>, fileSize: nat, link: Option<nat>,
                                       linkSize: nat,
                                       mapOffset: nat, dataSize: nat)
    requires ValidIdentity(id) && forall kind: Kind :: kind in start
    requires var xs := HeaderNumbers(ir, id, start, fileSize, link, linkSize, mapOffset, dataSize);
             forall k :: 0 <= k < |xs| ==> xs[k] < TWO_TO_THE_32
    ensures var bs := HeaderBytes(id, HeaderNumbers(ir, id, start, fileSize, link, linkSize, mapOffset, dataSize));
            && Word(bs, 8) == fileSize && Word(bs, 9) == HEADER_SIZE && Word(bs, 10) == id.endianTag
            && Word(bs, 11) == linkSize
            && Word(bs, 12) == (if link.None? then id.linkOffset else link.value) && Word(bs, 13) == mapOffset
            && (forall i :: 0 <= i < 6 ==>
                  && Word(bs, 14 + 2 * i) == |RecordsOf(ir, HEADER_KINDS[i])|
                  && (RecordsOf(ir, HEADER_KINDS[i]) != [] ==> Word(bs, 15 + 2 * i) == start[HEADER_KINDS[i]]))
            && Word(bs, 26) == dataSize && (dataSize != 0 ==> Word(bs, 27) == RoundUp(start[DataStart], 8))
  {
    hide RecordsOf, Word, HeaderBytes, RoundUp, ValidIdentity;
    var xs := HeaderNumbers(ir, id, start, fileSize, link, linkSize, mapOffset, dataSize);
    forall k: nat | k < 20 ensures Word(HeaderBytes(id, xs), 8 + k) == xs[k] { HeaderWord(id, xs, k); }
    forall i: nat | i < 6 ensures xs[6 + 2 * i..8 + 2 * i] == IdSection(ir, id, start, HEADER_KINDS[i]) { }
    forall i: nat | i < 6
      ensures Word(HeaderBytes(id, xs), 14 + 2 * i) == |RecordsOf(ir, HEADER_KINDS[i])|
      ensures RecordsOf(ir, HEADER_KINDS[i]) != [] ==> Word(HeaderBytes(id, xs), 15 + 2 * i) == start[HEADER_KINDS[i]]
    {
      assert xs[6 + 2 * i..8 + 2 * i][0] == xs[6 + 2 * i] && xs[6 + 2 * i..8 + 2 * i][1] == xs[7 + 2 * i];
    }
    assert Word(HeaderBytes(id, xs), 8 + 0) == xs[0] && Word(HeaderBytes(id, xs), 8 + 1) == xs[1];
    assert Word(HeaderBytes(id, xs), 8 + 2) == xs[2] && Word(HeaderBytes(id, xs), 8 + 3) == xs[3];
    assert Word(HeaderBytes(id, xs), 8 + 4) == xs[4] && Word(HeaderBytes(id, xs), 8 + 5) == xs[5];
    assert Word(HeaderBytes(id, xs), 8 + 18) == xs[18] && Word(HeaderBytes(id, xs), 8 + 19) == xs[19];
  }
}
