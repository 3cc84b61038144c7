/**
 The shared data section of compact dex files.  Items are written at the cursor and
 then looked up by content; a hit takes the offset of the earlier item, clears what
 was written and rewinds.  Any number of files write into one container.
 */
module CompactDex {
  import opened Bytes
  import opened Leb128
  import opened ByteStream

  const DID_NOT_DEDUPE := 0
  const DATA_ALIGNMENT: Alignment := 8

  datatype Range = Range(offset: nat, length: nat)

  datatype Item = Text(utf16Length: nat, bytes: seq<byte>) | Debug(bytes: seq<byte>)

  function Enc(item: Item): (bs: seq<byte>) {
    match item
    case Text(utf16Length, bytes) => Uleb(utf16Length % TWO_TO_THE_32) + bytes + [0]
    case Debug(bytes) => bytes
  }

  /** The section has `bs` at `o`. */
  ghost predicate Has(d: seq<byte>, o: nat, bs: seq<byte>) {
    forall i: nat :: i < |bs| ==> At(d, o + i) == bs[i]
  }

  /** Nothing below `p` has changed. */
  ghost predicate SameBelow(d: seq<byte>, d': seq<byte>, p: nat) {
    forall i: nat :: i < p ==> At(d', i) == At(d, i)
  }

  lemma HasStays(d: seq<byte>, d': seq<byte>, p: nat, o: nat, bs: seq<byte>)
    requires Has(d, o, bs) && SameBelow(d, d', p) && o + |bs| <= p
    ensures Has(d', o, bs)
  {
    forall i: nat | i < |bs| ensures At(d', o + i) == bs[i] {
      assert At(d, o + i) == bs[i];
    }
  }

  lemma WroteHas(d: seq<byte>, d': seq<byte>, p: nat, bs: seq<byte>)
    requires Wrote(d, d', p, bs)
    ensures Has(d', p, bs) && SameBelow(d, d', p)
  {
  }

  /** The section is long enough for `bs` at `o`, and has it there. */
  ghost predicate LiesIn(d: seq<byte>, o: nat, bs: seq<byte>) {
    o + |bs| <= |d| && d[o..o + |bs|] == bs
  }

  lemma HasIsSlice(d: seq<byte>, o: nat, bs: seq<byte>)
    requires Has(d, o, bs) && o + |bs| <= |d|
    ensures LiesIn(d, o, bs)
  {
    forall i: nat | i < |bs| ensures d[o + i] == bs[i] {
      assert At(d, o + i) == bs[i];
    }
  }

  /** What the dedupe map holds: ranges one behind the other, each with the bytes it
      had when it was inserted, all different; the offset kept is that of the range. */
  ghost predicate Entries(d: seq<byte>, pos: nat, entries: seq<(Range, nat)>, keys: seq<seq<byte>>) {
    && |keys| == |entries|
    && (forall k :: 0 <= k < |entries| ==> EntryFits(entries[k], keys[k], pos) && Has(d, entries[k].0.offset, keys[k]))
    && (forall j, k :: 0 <= j < k < |entries| ==>
          keys[j] != keys[k] && entries[j].0.offset + entries[j].0.length <= entries[k].0.offset)
  }

  ghost predicate EntryFits(e: (Range, nat), key: seq<byte>, pos: nat) {
    |key| == e.0.length && DATA_ALIGNMENT <= e.0.offset == e.1 && e.0.offset + e.0.length <= pos
  }

  lemma EntriesStay(d: seq<byte>, d': seq<byte>, pos: nat, pos': nat, entries: seq<(Range, nat)>, keys: seq<seq<byte>>)
    requires Entries(d, pos, entries, keys) && SameBelow(d, d', pos) && pos <= pos'
    ensures Entries(d', pos', entries, keys)
  {
    hide Has, SameBelow;
    forall k | 0 <= k < |entries|
      ensures EntryFits(entries[k], keys[k], pos') && Has(d', entries[k].0.offset, keys[k])
    {
      HasStays(d, d', pos, entries[k].0.offset, keys[k]);
    }
  }

  lemma EntriesGrow(d: seq<byte>, p: nat, pos: nat, entries: seq<(Range, nat)>, keys: seq<seq<byte>>, bs: seq<byte>)
    requires Entries(d, p, entries, keys) && Has(d, p, bs) && bs !in keys && DATA_ALIGNMENT <= p && p + |bs| == pos
    ensures Entries(d, pos, entries + [(Range(p, |bs|), p)], keys + [bs])
  {
    hide Has;
  }

  class Container {
    const stream: Stream
    /** The dedupe map, oldest entry first. */
    var entries: seq<(Range, nat)>
    /** The bytes that each entry had when it was inserted. */
    ghost var keys: seq<seq<byte>>

    ghost predicate Valid()
      reads this, stream
    {
      && stream.pos <= |stream.data| && ZeroFrom(stream.data, stream.pos)
      && |keys| == |entries| && Entries(stream.data, stream.pos, entries, keys)
    }

    constructor ()
      ensures Valid() && fresh(stream) && entries == [] && stream.data == [] && stream.pos == 0
    {
      stream := new Stream([]);
      entries, keys := [], [];
    }

    /** The start of a write: offset 0 is never used. */
    method Begin()
      requires Valid() && |stream.data| == stream.pos
      modifies stream
      ensures Valid() && stream.pos >= DATA_ALIGNMENT && stream.pos >= old(stream.pos)
      ensures SameBelow(old(stream.data), stream.data, old(stream.pos))
    {
      hide Entries;
      stream.Seek(if |stream.data| > DATA_ALIGNMENT then |stream.data| else DATA_ALIGNMENT);
      EntriesStay(old(stream.data), stream.data, old(stream.pos), stream.pos, entries, keys);
    }

    /** The end of a write: the section is trimmed to the cursor. */
    method End()
      requires Valid()
      modifies stream
      ensures Valid() && |stream.data| == stream.pos >= old(stream.pos)
      ensures SameBelow(old(stream.data), stream.data, old(stream.pos))
    {
      hide Entries;
      stream.AlignTo(DATA_ALIGNMENT);
      stream.data := stream.data[..stream.pos];
      EntriesStay(old(stream.data), stream.data, old(stream.pos), stream.pos, entries, keys);
    }

    /** Any other writing at the cursor. */
    method WritePlain(alignment: Alignment, bytes: seq<byte>) returns (offset: nat)
      requires Valid()
      modifies stream
      ensures Valid() && offset == RoundUp(old(stream.pos), alignment) && stream.pos == offset + |bytes|
      ensures SameBelow(old(stream.data), stream.data, old(stream.pos)) && Has(stream.data, offset, bytes)
    {
      hide Entries;
      stream.AlignTo(alignment);
      offset := stream.pos;
      stream.Write(bytes);
      EntriesStay(old(stream.data), stream.data, old(stream.pos), stream.pos, entries, keys);
    }

    /** emplace: the first entry with the same bytes, or a new entry. */
    method Dedupe(start: nat, end: nat, itemOffset: nat) returns (existing: nat)
      requires DATA_ALIGNMENT <= start <= end <= |stream.data| && itemOffset == start
      requires Entries(stream.data, start, entries, keys)
      modifies this
      ensures stream.data[start..end] !in old(keys) ==>
                && existing == DID_NOT_DEDUPE && keys == old(keys) + [stream.data[start..end]]
                && entries == old(entries) + [(Range(start, end - start), itemOffset)]
      ensures stream.data[start..end] in old(keys) ==>
                && entries == old(entries) && keys == old(keys) && existing != DID_NOT_DEDUPE
                && exists k :: 0 <= k < |entries| && keys[k] == stream.data[start..end] && existing == entries[k].1
    {
      hide Has;
      var range := Range(start, end - start);
      for k := 0 to |entries|
        invariant entries == old(entries) && keys == old(keys) && stream.data[start..end] !in keys[..k]
      {
        var r := entries[k].0;
        assert EntryFits(entries[k], keys[k], start);
        HasIsSlice(stream.data, r.offset, keys[k]);
        if r.length == range.length && stream.data[r.offset..r.offset + r.length] == stream.data[start..end] {
          assert keys[k] == stream.data[start..end];
          return entries[k].1;
        }
      }
      assert keys[..|entries|] == keys;
      entries := entries + [(range, itemOffset)];
      keys := keys + [stream.data[start..end]];
      existing := DID_NOT_DEDUPE;
    }

    method WriteEncoded(item: Item)
      requires ZeroFrom(stream.data, stream.pos)
      modifies stream
      ensures stream.pos == old(stream.pos) + |Enc(item)| && |stream.data| >= stream.pos
      ensures Wrote(old(stream.data), stream.data, old(stream.pos), Enc(item))
    {
      match item {
        case Debug(bytes) => stream.Write(bytes);
        case Text(utf16Length, bytes) =>
          ghost var d0, p0 := stream.data, stream.pos;
          stream.WriteUleb128(utf16Length % TWO_TO_THE_32);
          ghost var d1 := stream.data;
          stream.Write(bytes);
          WroteThen(d0, d1, stream.data, p0, Uleb(utf16Length % TWO_TO_THE_32), bytes);
          // The terminator is there already.
          stream.Skip(1);
          WroteThen(d0, stream.data, stream.data, p0, Uleb(utf16Length % TWO_TO_THE_32) + bytes, [0]);
      }
    }

    /** A string or debug info: written, looked up, and taken back when it is there already. */
    method WriteItem(item: Item) returns (offset: nat, ghost at: nat)
      requires Valid() && stream.pos >= DATA_ALIGNMENT
      modifies this, stream
      ensures Valid() && stream.pos >= old(stream.pos) && SameBelow(old(stream.data), stream.data, old(stream.pos))
      ensures old(keys) <= keys && old(entries) <= entries
      ensures at < |keys| && keys[at] == Enc(item) && entries[at].1 == offset
      ensures Enc(item) in old(keys) ==> keys == old(keys) && stream.pos == old(stream.pos)
    {
      hide Entries, Enc;
      var start := stream.pos;
      ghost var d0, bs := stream.data, Enc(item);
      WriteEncoded(item);
      offset := start;
      WroteHas(d0, stream.data, start, bs);
      HasIsSlice(stream.data, start, bs);
      EntriesStay(d0, stream.data, start, start, entries, keys);
      var deduped := Dedupe(start, stream.pos, offset);
      if deduped != DID_NOT_DEDUPE {
        offset := deduped;
        at :| 0 <= at < |entries| && keys[at] == bs && deduped == entries[at].1;
        stream.Clear(start, stream.pos - start);
        stream.Seek(start);
        EntriesStay(d0, stream.data, start, start, entries, keys);
      } else {
        EntriesGrow(stream.data, start, stream.pos, old(entries), old(keys), bs);
        at := |keys| - 1;
      }
    }
  }

  // ---- any sequence of compact writes into one container

  datatype Op = Shared(item: Item) | Plain(alignment: Alignment, bytes: seq<byte>) | NextFile

  /** What a finished operation has left in the section. */
  ghost predicate Done(op: Op, offset: nat, at: nat, d: seq<byte>, pos: nat, entries: seq<(Range, nat)>,
                       keys: seq<seq<byte>>) {
    match op
    case Shared(item) => at < |keys| == |entries| && keys[at] == Enc(item) && entries[at].1 == offset
    case Plain(alignment, bytes) =>
      offset >= DATA_ALIGNMENT && Aligned(offset, alignment) && offset + |bytes| <= pos && Has(d, offset, bytes)
    case NextFile => true
  }

  lemma DoneStays(op: Op, offset: nat, at: nat, d: seq<byte>, pos: nat, entries: seq<(Range, nat)>,
                  keys: seq<seq<byte>>, d': seq<byte>, pos': nat, entries': seq<(Range, nat)>, keys': seq<seq<byte>>)
    requires Done(op, offset, at, d, pos, entries, keys) && SameBelow(d, d', pos) && pos <= pos'
    requires entries <= entries' && keys <= keys' && |entries'| == |keys'|
    ensures Done(op, offset, at, d', pos', entries', keys')
  {
    hide Enc, Has, SameBelow;
    if op.Plain? {
      HasStays(d, d', pos, offset, op.bytes);
    }
  }

  ghost predicate AllDone(ops: seq<Op>, offsets: seq<nat>, ats: seq<nat>, d: seq<byte>, pos: nat,
                          entries: seq<(Range, nat)>, keys: seq<seq<byte>>) {
    && |ops| == |offsets| == |ats|
    && forall i :: 0 <= i < |ops| ==> Done(ops[i], offsets[i], ats[i], d, pos, entries, keys)
  }

  lemma AllDoneStays(ops: seq<Op>, offsets: seq<nat>, ats: seq<nat>, d: seq<byte>, pos: nat, entries: seq<(Range, nat)>,
                     keys: seq<seq<byte>>, d': seq<byte>, pos': nat, entries': seq<(Range, nat)>, keys': seq<seq<byte>>)
    requires AllDone(ops, offsets, ats, d, pos, entries, keys) && SameBelow(d, d', pos) && pos <= pos'
    requires entries <= entries' && keys <= keys' && |entries'| == |keys'|
    ensures AllDone(ops, offsets, ats, d', pos', entries', keys')
  {
    hide Done, SameBelow;
    forall i | 0 <= i < |ops| ensures Done(ops[i], offsets[i], ats[i], d', pos', entries', keys') {
      DoneStays(ops[i], offsets[i], ats[i], d, pos, entries, keys, d', pos', entries', keys');
    }
  }

  method Step(c: Container, op: Op) returns (offset: nat, ghost at: nat)
    requires c.Valid() && c.stream.pos >= DATA_ALIGNMENT
    modifies c, c.stream
    ensures c.Valid() && c.stream.pos >= old(c.stream.pos)
    ensures SameBelow(old(c.stream.data), c.stream.data, old(c.stream.pos))
    ensures old(c.entries) <= c.entries && old(c.keys) <= c.keys
    ensures Done(op, offset, at, c.stream.data, c.stream.pos, c.entries, c.keys)
  {
    hide Entries, Has, Enc, ZeroFrom;
    offset, at := 0, 0;
    match op {
      case Shared(item) => offset, at := c.WriteItem(item);
      case Plain(alignment, bytes) => offset := c.WritePlain(alignment, bytes);
      case NextFile =>
        c.End();
        ghost var d := c.stream.data;
        c.Begin();
        assert forall i: nat :: i < old(c.stream.pos) ==> At(c.stream.data, i) == At(d, i);
    }
  }

  /** Equal encodings share an offset, and different ones do not (unless one is empty). */
  ghost predicate SharedRight(a: Item, o: nat, b: Item, o': nat) {
    && (Enc(a) == Enc(b) ==> o == o')
    && (o == o' && Enc(a) != [] && Enc(b) != [] ==> Enc(a) == Enc(b))
  }

  /**
   Deduplication is invisible to readers: whatever was written, in whatever order and
   into however many files, every item has its own encoding at its offset.  Each
   encoding is kept once, and no offset is the one that stands for "did not dedupe".
   */
  method WriteAll(ops: seq<Op>) returns (section: seq<byte>, offsets: seq<nat>)
    ensures |offsets| == |ops|
    ensures forall i :: 0 <= i < |ops| && ops[i].Shared? ==>
              offsets[i] > DID_NOT_DEDUPE && LiesIn(section, offsets[i], Enc(ops[i].item))
    ensures forall i :: 0 <= i < |ops| && ops[i].Plain? ==>
              Aligned(offsets[i], ops[i].alignment) && LiesIn(section, offsets[i], ops[i].bytes)
    ensures forall i, j :: 0 <= i < |ops| && 0 <= j < |ops| && ops[i].Shared? && ops[j].Shared? ==>
              SharedRight(ops[i].item, offsets[i], ops[j].item, offsets[j])
  {
    hide Entries, Has, LiesIn, Enc, ZeroFrom, Done, SameBelow;
    var c := new Container();
    c.Begin();
    offsets := [];
    ghost var ats: seq<nat> := [];
    for i := 0 to |ops|
      invariant c.Valid() && c.stream.pos >= DATA_ALIGNMENT
      invariant AllDone(ops[..i], offsets, ats, c.stream.data, c.stream.pos, c.entries, c.keys)
    {
      label Before:
      var offset, at := Step(c, ops[i]);
      AllDoneStays(ops[..i], offsets, ats, old@Before(c.stream.data), old@Before(c.stream.pos), old@Before(c.entries),
                   old@Before(c.keys), c.stream.data, c.stream.pos, c.entries, c.keys);
      offsets, ats := offsets + [offset], ats + [at];
    }
    assert ops[..|ops|] == ops;
    section := c.stream.data;
    AllReadable(ops, offsets, ats, section, c.stream.pos, c.entries, c.keys);
  }

  lemma {:induction false} AllReadable(ops: seq<Op>, offsets: seq<nat>, ats: seq<nat>, d: seq<byte>, pos: nat,
                                       entries: seq<(Range, nat)>, keys: seq<seq<byte>>)
    requires Entries(d, pos, entries, keys) && AllDone(ops, offsets, ats, d, pos, entries, keys) && pos <= |d|
    ensures forall i :: 0 <= i < |ops| && ops[i].Shared? ==>
            offsets[i] > DID_NOT_DEDUPE && LiesIn(d, offsets[i], Enc(ops[i].item))
    ensures forall i :: 0 <= i < |ops| && ops[i].Plain? ==>
              Aligned(offsets[i], ops[i].alignment) && LiesIn(d, offsets[i], ops[i].bytes)
    ensures forall i, j :: 0 <= i < |ops| && 0 <= j < |ops| && ops[i].Shared? && ops[j].Shared? ==>
              SharedRight(ops[i].item, offsets[i], ops[j].item, offsets[j])
  {
    hide Has, LiesIn, Enc, Aligned;
    forall i | 0 <= i < |ops| && ops[i].Plain?
      ensures Aligned(offsets[i], ops[i].alignment) && LiesIn(d, offsets[i], ops[i].bytes)
    {
      assert Done(ops[i], offsets[i], ats[i], d, pos, entries, keys);
      HasIsSlice(d, offsets[i], ops[i].bytes);
    }
    forall i | 0 <= i < |ops| && ops[i].Shared?
      ensures ats[i] < |keys| && keys[ats[i]] == Enc(ops[i].item) && entries[ats[i]].1 == offsets[i]
      ensures offsets[i] > DID_NOT_DEDUPE && LiesIn(d, offsets[i], Enc(ops[i].item))
    {
      assert Done(ops[i], offsets[i], ats[i], d, pos, entries, keys);
      assert EntryFits(entries[ats[i]], keys[ats[i]], pos);
      HasIsSlice(d, offsets[i], keys[ats[i]]);
    }
    forall i, j | 0 <= i < |ops| && 0 <= j < |ops| && ops[i].Shared? && ops[j].Shared?
      ensures SharedRight(ops[i].item, offsets[i], ops[j].item, offsets[j])
    {
      SameOffset(d, pos, entries, keys, ats[i], ats[j]);
    }
  }

  lemma SameOffset(d: seq<byte>, pos: nat, entries: seq<(Range, nat)>, keys: seq<seq<byte>>, i: nat, j: nat)
    requires Entries(d, pos, entries, keys) && i < |keys| && j < |keys|
    ensures keys[i] == keys[j] ==> entries[i].1 == entries[j].1
    ensures entries[i].1 == entries[j].1 ==> keys[i] == keys[j] || keys[i] == [] || keys[j] == []
  {
    hide Has;
    assert EntryFits(entries[i], keys[i], pos) && EntryFits(entries[j], keys[j], pos);
  }
}
