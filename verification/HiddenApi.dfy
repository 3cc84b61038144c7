/**
 The hidden API section: a header of prefix sums and, for every class with a flag
 that is not zero, the flags of all its members in class data order.
 */
module HiddenApi {
  import opened Bytes
  import opened Leb128
  import opened ByteStream

  /** A field or method item, by identity. */
  type Member = nat
  type Flags = map<Member, nat>

  datatype Members = Members(staticFields: seq<Member>, instanceFields: seq<Member>,
                             directMethods: seq<Member>, virtualMethods: seq<Member>)

  datatype Class = Class(members: Option<Members>, flags: Option<Flags>)

  function All(c: Members): (ms: seq<Member>) {
    c.staticFields + c.instanceFields + c.directMethods + c.virtualMethods
  }

  ghost predicate Distinct(ms: seq<Member>) {
    forall i, j :: 0 <= i < j < |ms| ==> ms[i] != ms[j]
  }

  /** Flags are kept for exactly the members of the class. */
  ghost predicate Covers(ms: seq<Member>, f: Flags) {
    && Distinct(ms) && (forall m :: m in f <==> m in ms)
    && (forall m :: m in f ==> f[m] < TWO_TO_THE_32)
  }

  ghost predicate ValidClass(c: Class) {
    c.flags.Some? ==> c.members.Some? && Covers(All(c.members.value), c.flags.value)
  }

  function GetFlags(flags: Option<Flags>, m: Member): (f: nat)
    requires flags.Some? ==> m in flags.value
  {
    if flags.None? then 0 else flags.value[m]
  }

  // ---- streams of flags

  predicate Known(ms: seq<Member>, f: Flags) {
    forall i :: 0 <= i < |ms| ==> ms[i] in f && f[ms[i]] < TWO_TO_THE_32
  }

  function FlagBytes(ms: seq<Member>, f: Flags): (bs: seq<byte>)
    requires Known(ms, f)
  {
    if ms == [] then [] else FlagBytes(ms[..|ms| - 1], f) + Uleb(f[ms[|ms| - 1]])
  }

  lemma FlagBytesMore(ms: seq<Member>, m: Member, f: Flags)
    requires Known(ms + [m], f)
    ensures Known(ms, f) && m in f && FlagBytes(ms + [m], f) == FlagBytes(ms, f) + Uleb(f[m])
  {
    hide Uleb;
    assert Known(ms, f) by {
      forall i | 0 <= i < |ms| ensures ms[i] in f && f[ms[i]] < TWO_TO_THE_32 { assert (ms + [m])[i] == ms[i]; }
    }
    assert (ms + [m])[|ms|] == m && (ms + [m])[..|ms|] == ms;
  }

  lemma {:induction false} FlagBytesJoin(a: seq<Member>, b: seq<Member>, f: Flags)
    requires Known(a, f) && Known(b, f)
    ensures Known(a + b, f) && FlagBytes(a + b, f) == FlagBytes(a, f) + FlagBytes(b, f)
  {
    hide Uleb, FlagBytes;
    if b == [] {
      assert a + b == a;
      NoFlags([], f);
    } else {
      var n := |b| - 1;
      FlagBytesJoin(a, b[..n], f);
      assert b == b[..n] + [b[n]] && a + b == a + b[..n] + [b[n]];
      FlagBytesMore(b[..n], b[n], f);
      FlagBytesMore(a + b[..n], b[n], f);
    }
  }

  lemma {:induction false} WithoutOne(b: seq<Member>, i: nat, f: Flags)
    requires Known(b, f) && i < |b|
    ensures Known(b[..i] + b[i + 1..], f)
    ensures |FlagBytes(b, f)| == |FlagBytes(b[..i] + b[i + 1..], f)| + |Uleb(f[b[i]])|
  {
    hide Uleb;
    FlagBytesMore(b[..i], b[i], f);
    FlagBytesJoin(b[..i], b[i + 1..], f);
    FlagBytesJoin(b[..i] + [b[i]], b[i + 1..], f);
    assert b[..i] + [b[i]] + b[i + 1..] == b;
  }

  /** The order of the members does not matter for the length. */
  lemma {:induction false} SameLength(a: seq<Member>, b: seq<Member>, f: Flags)
    requires Known(a, f) && Known(b, f) && Distinct(a) && Distinct(b) && forall m :: m in a <==> m in b
    ensures |FlagBytes(a, f)| == |FlagBytes(b, f)|
  {
    hide Uleb;
    if b != [] {
      assert b[0] in a;
    }
    if a != [] {
      var n := |a| - 1;
      assert a[n] in b;
      var i :| 0 <= i < |b| && b[i] == a[n];
      forall m ensures m in a[..n] <==> m in b[..i] + b[i + 1..] { Removed(a, b, i, m); }
      WithoutOne(b, i, f);
      SameLength(a[..n], b[..i] + b[i + 1..], f);
    }
  }

  lemma Removed(a: seq<Member>, b: seq<Member>, i: nat, m: Member)
    requires a != [] && Distinct(a) && Distinct(b) && i < |b| && b[i] == a[|a| - 1] && forall x :: x in a <==> x in b
    ensures m in a[..|a| - 1] <==> m in b[..i] + b[i + 1..]
  {
    var rest := b[..i] + b[i + 1..];
    if m in a[..|a| - 1] {
      assert m in a && m in b;
      var k :| 0 <= k < |b| && b[k] == m;
      assert rest[if k < i then k else k - 1] == m;
    }
    if m in rest {
      assert m in b && m in a;
    }
  }

  predicate NonZero(f: Flags) {
    exists m :: m in f && f[m] != 0
  }

  /** Whatever the order of the map: the length of the stream, or zero if nothing is flagged. */
  method ItemSize(flags: Option<Flags>) returns (size: nat)
    ensures flags.None? ==> size == 0
    ensures flags.Some? ==> forall ms :: Covers(ms, flags.value) ==>
              Known(ms, flags.value) && size == if NonZero(flags.value) then |FlagBytes(ms, flags.value)| else 0
  {
    hide Uleb;
    size := 0;
    if flags.None? { return; }
    var f := flags.value;
    var keys, hasNonZero := f.Keys, false;
    ghost var order: seq<Member> := [];
    while keys != {}
      invariant keys <= f.Keys && Distinct(order) && (forall m :: m in order <==> m in f && m !in keys)
      invariant (forall m :: m in f ==> f[m] < TWO_TO_THE_32) ==> Known(order, f) && size == |FlagBytes(order, f)|
      invariant hasNonZero <==> exists m :: m in f && m !in keys && f[m] != 0
      decreases |keys|
    {
      var k :| k in keys;
      if forall m :: m in f ==> f[m] < TWO_TO_THE_32 {
        assert Known(order + [k], f);
        FlagBytesMore(order, k, f);
      }
      size := size + |Uleb(f[k])|;
      hasNonZero := hasNonZero || f[k] != 0;
      keys := keys - {k};
      order := order + [k];
    }
    forall ms | Covers(ms, f) ensures Known(ms, f) && size == |FlagBytes(ms, f)| {
      SameLength(order, ms, f);
    }
    if !hasNonZero { size := 0; }
  }

  // ---- the section

  /** What is written for a class; nothing if it has no flag that is not zero. */
  function ClassBytes(c: Class): (bs: seq<byte>)
    requires ValidClass(c)
    ensures bs != [] <==> c.flags.Some? && NonZero(c.flags.value)
  {
    if c.flags.None? || !NonZero(c.flags.value) then []
    else
      var ms := All(c.members.value);
      NotEmpty(ms, c.flags.value);
      FlagBytes(ms, c.flags.value)
  }

  lemma NotEmpty(ms: seq<Member>, f: Flags)
    requires Covers(ms, f) && NonZero(f)
    ensures Known(ms, f) && FlagBytes(ms, f) != []
  {
    var m :| m in f && f[m] != 0;
    assert m in ms;
  }

  ghost predicate ValidClasses(cs: seq<Class>) {
    forall i :: 0 <= i < |cs| ==> ValidClass(cs[i])
  }

  /** The classes of a file, with what is known of each. */
  type Classes = cs: seq<Class> | ValidClasses(cs) witness []

  /** The streams of the first n classes. */
  function Streams(cs: seq<Class>, n: nat): (bs: seq<byte>)
    requires ValidClasses(cs) && n <= |cs|
  {
    if n == 0 then [] else Streams(cs, n - 1) + ClassBytes(cs[n - 1])
  }

  /** Where the stream of class i starts. */
  function Start(cs: seq<Class>, i: nat): (o: nat)
    requires ValidClasses(cs) && i <= |cs|
  {
    4 * (|cs| + 1) + |Streams(cs, i)|
  }

  /** Entry 0 is the size of the section, entry i + 1 the start of class i's stream, or 0. */
  function HeaderEntry(cs: seq<Class>, i: nat): (o: nat)
    requires ValidClasses(cs) && i <= |cs|
  {
    if i == 0 then Start(cs, |cs|) else if ClassBytes(cs[i - 1]) == [] then 0 else Start(cs, i - 1)
  }

  function Header(cs: seq<Class>): (xs: seq<nat>)
    requires ValidClasses(cs)
    ensures |xs| == |cs| + 1 && forall i :: 0 <= i < |xs| ==> xs[i] == HeaderEntry(cs, i)
  {
    seq(|cs| + 1, i requires 0 <= i <= |cs| => HeaderEntry(cs, i))
  }

  function SectionBytes(cs: seq<Class>): (bs: seq<byte>)
    requires ValidClasses(cs)
  {
    U32s(Header(cs)) + Streams(cs, |cs|)
  }

  lemma SizeIs(c: Class, size: nat)
    requires ValidClass(c)
    requires c.flags.None? ==> size == 0
    requires c.flags.Some? ==> forall ms :: Covers(ms, c.flags.value) ==>
               Known(ms, c.flags.value) && size == if NonZero(c.flags.value) then |FlagBytes(ms, c.flags.value)| else 0
    ensures size == |ClassBytes(c)|
  {
    hide NonZero, FlagBytes, Covers, All;
    if c.flags.Some? {
      var ms := All(c.members.value);
      assert Covers(ms, c.flags.value);
    }
  }

  method HeaderOf(cs: seq<Class>) returns (header: seq<nat>)
    requires ValidClasses(cs)
    ensures header == Header(cs)
  {
    hide ClassBytes;
    var total: nat := 4 * (|cs| + 1);
    var entries: seq<nat> := [];
    assert Streams(cs, 0) == [];
    for i := 0 to |cs|
      invariant total == Start(cs, i) && |entries| == i
      invariant forall k :: 0 <= k < i ==> entries[k] == HeaderEntry(cs, k + 1)
    {
      var size := ItemSize(cs[i].flags);
      SizeIs(cs[i], size);
      entries := entries + [if size == 0 then 0 else total];
      total := total + size;
    }
    header := [total] + entries;
  }

  method WriteFlags(stream: Stream, ms: seq<Member>, f: Flags)
    requires Known(ms, f)
    modifies stream
    ensures stream.pos == old(stream.pos) + |FlagBytes(ms, f)|
    ensures Wrote(old(stream.data), stream.data, old(stream.pos), FlagBytes(ms, f))
  {
    hide FlagBytes, Uleb, Wrote;
    ghost var d0, p0 := stream.data, stream.pos;
    Nothing(d0, p0, f);
    for i := 0 to |ms|
      invariant Known(ms[..i], f) && stream.pos == p0 + |FlagBytes(ms[..i], f)|
      invariant Wrote(d0, stream.data, p0, FlagBytes(ms[..i], f))
    {
      ghost var d1 := stream.data;
      assert ms[..i + 1] == ms[..i] + [ms[i]];
      FlagBytesMore(ms[..i], ms[i], f);
      stream.WriteUleb128(f[ms[i]]);
      WroteThen(d0, d1, stream.data, p0, FlagBytes(ms[..i], f), Uleb(f[ms[i]]));
    }
    assert ms[..|ms|] == ms;
  }

  lemma Nothing(d: seq<byte>, p: nat, f: Flags)
    ensures FlagBytes([], f) == [] && Wrote(d, d, p, [])
  {
  }

  lemma {:induction false} FourLists(c: Members, f: Flags)
    requires Covers(All(c), f)
    ensures Known(c.staticFields, f) && Known(c.instanceFields, f) && Known(c.directMethods, f)
    ensures Known(c.virtualMethods, f)
    ensures Known(All(c), f)
    ensures FlagBytes(All(c), f) == FlagBytes(c.staticFields, f) + FlagBytes(c.instanceFields, f)
                                    + FlagBytes(c.directMethods, f) + FlagBytes(c.virtualMethods, f)
  {
    Parts(c.staticFields, c.instanceFields, c.directMethods, c.virtualMethods, f);
    hide FlagBytes, Covers, Known;
    FlagBytesJoin(c.staticFields, c.instanceFields, f);
    FlagBytesJoin(c.staticFields + c.instanceFields, c.directMethods, f);
    FlagBytesJoin(c.staticFields + c.instanceFields + c.directMethods, c.virtualMethods, f);
  }

  lemma Parts(a: seq<Member>, b: seq<Member>, c: seq<Member>, d: seq<Member>, f: Flags)
    requires Covers(a + b + c + d, f)
    ensures Known(a, f) && Known(b, f) && Known(c, f) && Known(d, f)
  {
    assert forall m :: m in a || m in b || m in c || m in d ==> m in a + b + c + d;
  }

  method WriteClass(stream: Stream, c: Members, f: Flags)
    requires Covers(All(c), f)
    modifies stream
    ensures Known(All(c), f) && stream.pos == old(stream.pos) + |FlagBytes(All(c), f)|
    ensures Wrote(old(stream.data), stream.data, old(stream.pos), FlagBytes(All(c), f))
  {
    hide FlagBytes, Wrote, Known, Covers, All;
    FourLists(c, f);
    ghost var d0, p0 := stream.data, stream.pos;
    WriteFlags(stream, c.staticFields, f);
    ghost var bs, d1 := FlagBytes(c.staticFields, f), stream.data;
    WriteFlags(stream, c.instanceFields, f);
    WroteThen(d0, d1, stream.data, p0, bs, FlagBytes(c.instanceFields, f));
    bs, d1 := bs + FlagBytes(c.instanceFields, f), stream.data;
    WriteFlags(stream, c.directMethods, f);
    WroteThen(d0, d1, stream.data, p0, bs, FlagBytes(c.directMethods, f));
    bs, d1 := bs + FlagBytes(c.directMethods, f), stream.data;
    WriteFlags(stream, c.virtualMethods, f);
    WroteThen(d0, d1, stream.data, p0, bs, FlagBytes(c.virtualMethods, f));
  }

  lemma FlaggedClass(c: Class)
    requires ValidClass(c) && ClassBytes(c) != []
    ensures c.flags.Some? && c.members.Some? && Covers(All(c.members.value), c.flags.value)
    ensures Known(All(c.members.value), c.flags.value)
    ensures ClassBytes(c) == FlagBytes(All(c.members.value), c.flags.value)
  {
    hide Covers, FlagBytes, NonZero, All, Known;
    NotEmpty(All(c.members.value), c.flags.value);
  }

  /** The streams of the classes from here on, each where the header says. */
  method WriteStreams(stream: Stream, cs: seq<Class>, header: seq<nat>, start: nat, ghost d0: seq<byte>)
    requires ValidClasses(cs) && header == Header(cs) && stream.pos == start + Start(cs, 0)
    requires Wrote(d0, stream.data, start, U32s(header))
    modifies stream
    ensures stream.pos == start + header[0]
    ensures Wrote(d0, stream.data, start, SectionBytes(cs))
  {
    hide Wrote, FlagBytes, Known, Covers, All, ClassBytes, ValidClass, Streams, Start, HeaderEntry, SectionBytes, U32s;
    FirstStream(cs);
    ghost var head := U32s(header);
    Onto(head, [], [], []);
    for i := 0 to |cs|
      invariant stream.pos == start + Start(cs, i) && Wrote(d0, stream.data, start, head + Streams(cs, i))
    {
      ghost var d1 := stream.data;
      NextStream(cs, i);
      Onto(head, Streams(cs, i), ClassBytes(cs[i]), Streams(cs, i + 1));
      if header[i + 1] != 0 {
        FlaggedClass(cs[i]);
        assert header[i + 1] == stream.pos - start;
        WriteClass(stream, cs[i].members.value, cs[i].flags.value);
        WroteThen(d0, d1, stream.data, start, head + Streams(cs, i), ClassBytes(cs[i]));
      }
    }
  }

  /** The header is right: each entry is the place where the stream lands, the first one
      what has been written in all. */
  method WriteHiddenapiClassData(stream: Stream, cs: seq<Class>)
    requires ValidClasses(cs) && ZeroFrom(stream.data, stream.pos)
    modifies stream
    ensures stream.pos == RoundUp(old(stream.pos), 4) + |SectionBytes(cs)|
    ensures Wrote(old(stream.data), stream.data, RoundUp(old(stream.pos), 4), SectionBytes(cs))
  {
    hide Wrote, ValidClasses, Start, HeaderEntry, SectionBytes, U32s;
    FirstStream(cs);
    stream.AlignTo(4);
    ghost var d0 := stream.data;
    var start := stream.pos;
    var header := HeaderOf(cs);
    stream.Write(U32s(header));
    WriteStreams(stream, cs, header, start, d0);
    SameStart(old(stream.data), d0, stream.data, start, SectionBytes(cs));
  }

  lemma Onto(head: seq<byte>, a: seq<byte>, b: seq<byte>, c: seq<byte>)
    requires c == a + b
    ensures head + c == head + a + b
    ensures a == [] ==> head + a == head
    ensures b == [] ==> head + c == head + a
  {
  }

  lemma FirstStream(cs: seq<Class>)
    requires ValidClasses(cs)
    ensures Streams(cs, 0) == [] && Start(cs, 0) == |U32s(Header(cs))|
    ensures HeaderEntry(cs, 0) == Start(cs, |cs|) == |SectionBytes(cs)|
    ensures SectionBytes(cs) == U32s(Header(cs)) + Streams(cs, |cs|)
  {
    hide ClassBytes, ValidClass;
  }

  lemma NextStream(cs: seq<Class>, i: nat)
    requires ValidClasses(cs) && i < |cs|
    ensures Streams(cs, i + 1) == Streams(cs, i) + ClassBytes(cs[i])
    ensures Start(cs, i + 1) == Start(cs, i) + |ClassBytes(cs[i])|
    ensures HeaderEntry(cs, i + 1) == (if ClassBytes(cs[i]) == [] then 0 else Start(cs, i))
    ensures Start(cs, i) == 4 * (|cs| + 1) + |Streams(cs, i)|
  {
    hide ClassBytes, ValidClass;
  }

  lemma SameStart(d: seq<byte>, d0: seq<byte>, d1: seq<byte>, p: nat, bs: seq<byte>)
    requires Holds(d0, d) && Wrote(d0, d1, p, bs)
    ensures Wrote(d, d1, p, bs)
  {
    forall i: nat ensures At(d1, i) == if p <= i < p + |bs| then bs[i - p] else At(d, i) {
      assert At(d0, i) == At(d, i);
    }
  }

  // ---- reading it back

  /** One flag for each member; of two with one identity the first would count. */
  function DecodeFlags(bs: seq<byte>, ms: seq<Member>): (f: Option<Flags>) {
    if ms == [] then Some(map[])
    else
      var d :- DecodeUleb(bs);
      var rest :- DecodeFlags(bs[d.size..], ms[1..]);
      Some(rest[ms[0] := d.value])
  }

  lemma {:induction false} FlagsRoundTrip(ms: seq<Member>, f: Flags, tail: seq<byte>)
    requires Known(ms, f)
    ensures var g := DecodeFlags(FlagBytes(ms, f) + tail, ms);
            && g.Some? && (forall m :: m in g.value <==> m in ms)
            && (forall i :: 0 <= i < |ms| ==> g.value[ms[i]] == f[ms[i]])
  {
    hide Uleb, DecodeUleb, FlagBytes, DecodeFlags;
    if ms == [] {
      NoFlags(tail, f);
    } else {
      var u, rest := Uleb(f[ms[0]]), FlagBytes(ms[1..], f) + tail;
      FlagBytesFirst(ms, f);
      assert FlagBytes(ms, f) + tail == u + rest;
      UlebRoundTrip(f[ms[0]], rest);
      assert (u + rest)[|u|..] == rest;
      FlagsRoundTrip(ms[1..], f, tail);
      FirstFlag(u + rest, ms);
      var g := DecodeFlags(rest, ms[1..]).value;
      assert forall i :: 0 < i < |ms| ==> ms[i] == ms[1..][i - 1];
    }
  }

  lemma NoFlags(tail: seq<byte>, f: Flags)
    ensures FlagBytes([], f) + tail == tail && DecodeFlags(tail, []) == Some(map[])
  {
  }

  lemma FlagBytesFirst(ms: seq<Member>, f: Flags)
    requires Known(ms, f) && ms != []
    ensures Known(ms[1..], f) && FlagBytes(ms, f) == Uleb(f[ms[0]]) + FlagBytes(ms[1..], f)
  {
    hide Uleb, FlagBytes, Known;
    KnownParts(ms, f);
    assert [ms[0]] + ms[1..] == ms && [] + [ms[0]] == [ms[0]];
    FlagBytesJoin([ms[0]], ms[1..], f);
    FlagBytesMore([], ms[0], f);
    NoFlags(Uleb(f[ms[0]]), f);
  }

  lemma KnownParts(ms: seq<Member>, f: Flags)
    requires Known(ms, f) && ms != []
    ensures ms[0] in f && Known([], f) && Known([ms[0]], f) && Known(ms[1..], f)
  {
  }

  lemma FirstFlag(bs: seq<byte>, ms: seq<Member>)
    requires ms != [] && DecodeUleb(bs).Some? && DecodeFlags(bs[DecodeUleb(bs).value.size..], ms[1..]).Some?
    ensures var d := DecodeUleb(bs).value;
            DecodeFlags(bs, ms) == Some(DecodeFlags(bs[d.size..], ms[1..]).value[ms[0] := d.value])
  {
    hide DecodeUleb;
  }

  /** What the reader keeps for class i: nothing if the header has no place for it. */
  function ReadClass(section: seq<byte>, i: nat, members: Option<Members>): (flags: Option<Option<Flags>>) {
    if 4 * i + 8 > |section| then None
    else
      var o := Val(section[4 * i + 4..4 * i + 8]);
      if o == 0 then Some(None)
      else if o > |section| || members.None? then None
      else
        var f :- DecodeFlags(section[o..], All(members.value));
        Some(Some(f))
  }

  /** Flags read so far take precedence over what is still to come. */
  ghost function Merged(done: Flags, rest: Option<Flags>): (f: Option<Flags>) {
    if rest.None? then None else Some(rest.value + done)
  }

  /** emplace: an existing entry stays. */
  function Added(f: Flags, m: Member, v: nat): (g: Flags) {
    if m in f then f else f[m := v]
  }

  lemma MergeAdded(done: Flags, m: Member, v: nat, rest: Option<Flags>)
    ensures rest.Some? ==> Merged(done, Some(rest.value[m := v])) == Merged(Added(done, m, v), rest)
  {
    if rest.Some? {
      assert rest.value[m := v] + done == rest.value + Added(done, m, v);
    }
  }

  lemma DecodeStep(bs: seq<byte>, ms: seq<Member>, done: Flags)
    requires ms != []
    ensures DecodeUleb(bs).None? ==> Merged(done, DecodeFlags(bs, ms)) == None
    ensures DecodeUleb(bs).Some? ==>
              Merged(done, DecodeFlags(bs, ms))
              == Merged(Added(done, ms[0], DecodeUleb(bs).value.value),
                        DecodeFlags(bs[DecodeUleb(bs).value.size..], ms[1..]))
  {
    hide DecodeUleb, Merged;
    var d := DecodeUleb(bs);
    if d.Some? {
      MergeAdded(done, ms[0], d.value.value, DecodeFlags(bs[d.value.size..], ms[1..]));
    }
    assert Merged(done, None) == None by { NoneMerged(done); }
    assert d.Some? ==> Merged(Added(done, ms[0], d.value.value), None) == None by {
      if d.Some? { NoneMerged(Added(done, ms[0], d.value.value)); }
    }
  }

  lemma NoneMerged(done: Flags)
    ensures Merged(done, None) == None
  {
  }

  /** The loop over one of the four lists; `after` are the members still to come. */
  method AddFlags(bs: seq<byte>, used: nat, ms: seq<Member>, done: Flags, ghost after: seq<Member>)
    returns (r: Option<(Flags, nat)>)
    requires used <= |bs|
    ensures r.Some? ==> r.value.1 <= |bs|
    ensures Merged(done, DecodeFlags(bs[used..], ms + after))
         == if r.None? then None else Merged(r.value.0, DecodeFlags(bs[r.value.1..], after))
  {
    hide DecodeUleb, Merged, DecodeFlags;
    var f: Flags, o: nat := done, used;
    assert ms[0..] == ms;
    for i := 0 to |ms|
      invariant o <= |bs|
      invariant Merged(done, DecodeFlags(bs[used..], ms + after)) == Merged(f, DecodeFlags(bs[o..], ms[i..] + after))
    {
      DecodeStep(bs[o..], ms[i..] + after, f);
      assert (ms[i..] + after)[1..] == ms[i + 1..] + after;
      var d := DecodeUleb(bs[o..]);
      if d.None? { return None; }
      assert bs[o..][d.value.size..] == bs[o + d.value.size..];
      f := Added(f, ms[i], d.value.value);
      o := o + d.value.size;
    }
    assert ms[|ms|..] + after == after;
    r := Some((f, o));
  }

  /** AddHiddenapiClassDataFromMapListSection for one class. */
  method ReadFlags(section: seq<byte>, i: nat, members: Option<Members>) returns (flags: Option<Option<Flags>>)
    ensures flags == ReadClass(section, i, members)
  {
    hide DecodeFlags, Merged, Val;
    if 4 * i + 8 > |section| { return None; }
    var o := Val(section[4 * i + 4..4 * i + 8]);
    if o == 0 { return Some(None); }
    if o > |section| || members.None? { return None; }
    var c := members.value;
    ghost var three := c.directMethods + c.virtualMethods;
    assert All(c) == c.staticFields + (c.instanceFields + three);
    MergedNothing(DecodeFlags(section[o..], All(c)));
    var r := AddFlags(section, o, c.staticFields, map[], c.instanceFields + three);
    if r.None? { return None; }
    r := AddFlags(section, r.value.1, c.instanceFields, r.value.0, three);
    if r.None? { return None; }
    r := AddFlags(section, r.value.1, c.directMethods, r.value.0, c.virtualMethods);
    if r.None? { return None; }
    assert c.virtualMethods + [] == c.virtualMethods;
    r := AddFlags(section, r.value.1, c.virtualMethods, r.value.0, []);
    if r.None? { return None; }
    NothingMore(section[r.value.1..], r.value.0);
    return Some(Some(r.value.0));
  }

  lemma MergedNothing(rest: Option<Flags>)
    ensures Merged(map[], rest) == rest
  {
    if rest.Some? {
      assert rest.value + map[] == rest.value;
    }
  }

  lemma NothingMore(bs: seq<byte>, done: Flags)
    ensures Merged(done, DecodeFlags(bs, [])) == Some(done)
  {
    assert map[] + done == done;
  }

  // ---- what was written is read

  lemma {:induction false} StreamLiesAt(cs: seq<Class>, i: nat, n: nat)
    requires ValidClasses(cs) && i < n <= |cs|
    ensures |Streams(cs, i)| <= |Streams(cs, n)| && ClassBytes(cs[i]) <= Streams(cs, n)[|Streams(cs, i)|..]
    decreases n
  {
    hide ClassBytes, ValidClass;
    if i < n - 1 {
      StreamLiesAt(cs, i, n - 1);
      assert Streams(cs, n)[|Streams(cs, i)|..] == Streams(cs, n - 1)[|Streams(cs, i)|..] + ClassBytes(cs[n - 1]);
    }
  }

  /** A class is read back with the flags it had, or without any if they were all zero, whatever follows. */
  lemma {:induction false} ClassReads(cs: seq<Class>, i: nat, rest: seq<byte>)
    requires ValidClasses(cs) && |SectionBytes(cs)| < TWO_TO_THE_32 && i < |cs|
    ensures ReadClass(SectionBytes(cs) + rest, i, cs[i].members)
          == Some(if ClassBytes(cs[i]) == [] then None else cs[i].flags)
  {
    hide ClassBytes, ValidClass, Val, U32, U32s, DecodeFlags, All, Covers, Streams, FlagBytes, Known;
    var c, section := cs[i], SectionBytes(cs) + rest;
    U32sAt(Header(cs), i + 1);
    assert section[4 * i + 4..4 * i + 8] == U32s(Header(cs))[4 * (i + 1)..4 * (i + 1) + 4];
    StreamLiesAt(cs, i, |cs|);
    U32RoundTrip(HeaderEntry(cs, i + 1));
    if ClassBytes(c) != [] {
      var o := Start(cs, i);
      FlaggedClass(c);
      assert section[o..] == Streams(cs, |cs|)[|Streams(cs, i)|..] + rest;
      var tail := Streams(cs, |cs|)[|Streams(cs, i)|..][|ClassBytes(c)|..] + rest;
      assert section[o..] == ClassBytes(c) + tail;
      FlagsRoundTrip(All(c.members.value), c.flags.value, tail);
      SameFlags(All(c.members.value), c.flags.value, DecodeFlags(section[o..], All(c.members.value)).value);
    }
  }

  lemma SameFlags(ms: seq<Member>, f: Flags, g: Flags)
    requires Covers(ms, f) && (forall m :: m in g <==> m in ms) && forall i :: 0 <= i < |ms| ==> g[ms[i]] == f[ms[i]]
    ensures g == f
  {
  }

  /** Every member of every class is read back with the flag it had, also in the classes
      that are left out because nothing in them is flagged. */
  lemma {:induction false} FlagsSurvive(cs: seq<Class>, i: nat, m: Member)
    requires ValidClasses(cs) && |SectionBytes(cs)| < TWO_TO_THE_32
    requires i < |cs| && cs[i].members.Some? && m in All(cs[i].members.value)
    ensures var flags := ReadClass(SectionBytes(cs), i, cs[i].members);
            && flags.Some? && (flags.value.Some? ==> m in flags.value.value)
            && GetFlags(flags.value, m) == FlagOf(cs[i], m)
  {
    hide ClassBytes, ValidClass, All, SectionBytes, ReadClass;
    ClassReads(cs, i, []);
    assert SectionBytes(cs) + [] == SectionBytes(cs);
    if ClassBytes(cs[i]) == [] {
      Unflagged(cs[i], m);
    } else {
      FlaggedClass(cs[i]);
      Flagged(cs[i], m);
    }
  }

  /** The flag of a member; none is 0. */
  function FlagOf(c: Class, m: Member): (f: nat) {
    if c.flags.Some? && m in c.flags.value then c.flags.value[m] else 0
  }

  lemma Unflagged(c: Class, m: Member)
    requires ValidClass(c) && ClassBytes(c) == []
    ensures FlagOf(c, m) == 0
  {
  }

  lemma Flagged(c: Class, m: Member)
    requires ValidClass(c) && c.flags.Some? && m in All(c.members.value)
    ensures m in c.flags.value
  {
    hide All;
  }
}
