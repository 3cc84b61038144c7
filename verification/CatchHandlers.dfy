/**
 The encoded catch handler lists of a code item: the grammar, the two-phase
 reader that builds one CatchHandler per list, and the writer that seeks to each
 list's recorded offset.  Types are represented by their indices; None is the
 null type of a catch-all.
 */
module CatchHandlers {
  import opened Bytes
  import opened Leb128
  import opened Reading
  import opened ByteStream

  const NO_INDEX_16 := 0xFFFF

  datatype TypeAddr = TypeAddr(typ: Option<nat>, addr: nat)

  /** One list of handlers, wherever it lies. */
  datatype HandlerList = HandlerList(catchAll: bool, pairs: seq<TypeAddr>)

  datatype CatchHandler = CatchHandler(listOffset: nat, list: HandlerList)

  // ---- what bytes mean

  /** GetTypeIdOrNullPtr: the index is cut to 16 bits, and 0xFFFF is no type. */
  function TypeOf(index: nat): (t: Option<nat>) {
    if index % TWO_TO_THE_16 == NO_INDEX_16 then None else Some(index % TWO_TO_THE_16)
  }

  function DecodePair(bs: seq<byte>): (r: Option<Got<TypeAddr>>)
    ensures r.Some? ==> 2 <= r.value.size <= |bs|
  {
    var t :- DecodeUleb(bs);
    var a :- DecodeUleb(bs[t.size..]);
    Some(Got(TypeAddr(TypeOf(t.value), a.value), t.size + a.size))
  }

  function DecodePairs(bs: seq<byte>, n: nat): (r: Option<Got<seq<TypeAddr>>>)
    ensures r.Some? ==> r.value.size <= |bs| && |r.value.what| == n
    decreases n
  {
    if n == 0 then Some(Got([], 0))
    else
      var p :- DecodePair(bs);
      var ps :- DecodePairs(bs[p.size..], n - 1);
      Some(Got([p.what] + ps.what, p.size + ps.size))
  }

  /** A list: its size, negated or zero when a catch-all address follows the pairs. */
  function DecodeList(bs: seq<byte>): (r: Option<Got<HandlerList>>)
    ensures r.Some? ==> 1 <= r.value.size <= |bs|
  {
    var s :- DecodeSleb(bs);
    var ps :- DecodePairs(bs[s.size..], if s.value < 0 then -s.value else s.value);
    if s.value > 0 then Some(Got(HandlerList(false, ps.what), s.size + ps.size))
    else
      var a :- DecodeUleb(bs[s.size..][ps.size..]);
      Some(Got(HandlerList(true, ps.what + [TypeAddr(None, a.value)]), s.size + ps.size + a.size))
  }

  /** n lists, back to back from `pos` on, each with the offset it starts at. */
  function Walk(bs: seq<byte>, pos: nat, n: nat): (r: Option<seq<CatchHandler>>)
    requires pos <= |bs|
    ensures r.Some? ==> |r.value| == n
    decreases n
  {
    if n == 0 then Some([])
    else
      var l :- DecodeList(bs[pos..]);
      var rest :- Walk(bs, pos + l.size, n - 1);
      Some([CatchHandler(pos, l.what)] + rest)
  }

  /** The whole table: a count, then that many lists. */
  function Table(bs: seq<byte>): (r: Option<seq<CatchHandler>>) {
    var n :- DecodeUleb(bs);
    Walk(bs, n.size, n.value)
  }

  // ---- what the writer emits

  function EncPair(p: TypeAddr): (bs: seq<byte>) {
    (if p.typ.None? then [] else Uleb(p.typ.value)) + Uleb(p.addr)
  }

  function EncPairs(ps: seq<TypeAddr>): (bs: seq<byte>) {
    if ps == [] then [] else EncPair(ps[0]) + EncPairs(ps[1..])
  }

  function SizeField(l: HandlerList): (n: int) {
    if l.catchAll then 1 - |l.pairs| else |l.pairs|
  }

  function EncList(l: HandlerList): (bs: seq<byte>)
    ensures |bs| >= 1
  {
    Sleb(SizeField(l)) + EncPairs(l.pairs)
  }

  /** The lists that the format can express: typed handlers, then at most one catch-all. */
  ghost predicate Expressible(l: HandlerList) {
    && 1 <= |l.pairs| < 0x8000_0000
    && (forall i :: 0 <= i < |l.pairs| ==> l.pairs[i].addr < TWO_TO_THE_32)
    && (forall i :: 0 <= i < |l.pairs| - 1 ==> l.pairs[i].typ.Some?)
    && (l.catchAll <==> l.pairs[|l.pairs| - 1].typ.None?)
    && (forall i :: 0 <= i < |l.pairs| && l.pairs[i].typ.Some? ==> l.pairs[i].typ.value < NO_INDEX_16)
  }

  // ---- a list is read back as it was written

  lemma {:induction false} PairRoundTrip(p: TypeAddr, rest: seq<byte>)
    requires p.typ.Some? && p.typ.value < NO_INDEX_16 && p.addr < TWO_TO_THE_32
    ensures DecodePair(EncPair(p) + rest) == Some(Got(p, |EncPair(p)|))
  {
    hide Uleb, DecodeUleb;
    var t, a := p.typ.value, p.addr;
    UlebRoundTrip(t, Uleb(a) + rest);
    UlebRoundTrip(a, rest);
    Skip(Uleb(t), Uleb(a), rest);
  }

  lemma {:induction false} PairsRoundTrip(ps: seq<TypeAddr>, rest: seq<byte>)
    requires forall i :: 0 <= i < |ps| ==>
             ps[i].typ.Some? && ps[i].typ.value < NO_INDEX_16 && ps[i].addr < TWO_TO_THE_32
    ensures DecodePairs(EncPairs(ps) + rest, |ps|) == Some(Got(ps, |EncPairs(ps)|))
  {
    hide EncPair, DecodePair;
    if ps != [] {
      PairRoundTrip(ps[0], EncPairs(ps[1..]) + rest);
      Skip(EncPair(ps[0]), EncPairs(ps[1..]), rest);
      PairsRoundTrip(ps[1..], rest);
      assert ps == [ps[0]] + ps[1..];
    }
  }

  lemma {:induction false} EncPairsAppend(ps: seq<TypeAddr>, p: TypeAddr)
    ensures EncPairs(ps + [p]) == EncPairs(ps) + EncPair(p)
  {
    hide EncPair;
    if ps == [] {
      assert ps + [p] == [p] && [p][1..] == [];
    } else {
      EncPairsAppend(ps[1..], p);
      assert (ps + [p])[1..] == ps[1..] + [p];
    }
  }

  lemma {:induction false} ListRoundTrip(l: HandlerList, rest: seq<byte>)
    requires Expressible(l)
    ensures DecodeList(EncList(l) + rest) == Some(Got(l, |EncList(l)|))
  {
    hide Sleb, DecodeSleb, EncPair, DecodePairs, Uleb, DecodeUleb;
    var s, n := SizeField(l), |l.pairs|;
    SlebRoundTrip(s, EncPairs(l.pairs) + rest);
    Skip(Sleb(s), EncPairs(l.pairs), rest);
    if l.catchAll {
      var ps, last := l.pairs[..n - 1], l.pairs[n - 1];
      assert l.pairs == ps + [last];
      EncPairsAppend(ps, last);
      CatchAllPair(last);
      PairsRoundTrip(ps, Uleb(last.addr) + rest);
      Skip(EncPairs(ps), Uleb(last.addr), rest);
      UlebRoundTrip(last.addr, rest);
    } else {
      PairsRoundTrip(l.pairs, rest);
    }
  }

  lemma CatchAllPair(p: TypeAddr)
    requires p.typ.None?
    ensures EncPair(p) == Uleb(p.addr)
  {
  }

  // ---- the canonical table, and reading it

  /** The lists, back to back. */
  function EncLists(ls: seq<HandlerList>): (bs: seq<byte>) {
    if ls == [] then [] else EncLists(ls[..|ls| - 1]) + EncList(ls[|ls| - 1])
  }

  function CanonicalTable(ls: seq<HandlerList>): (bs: seq<byte>) {
    Uleb(|ls|) + EncLists(ls)
  }

  /** Where list i of the canonical table starts. */
  function Start(ls: seq<HandlerList>, i: nat): (p: nat)
    requires i <= |ls|
  {
    |Uleb(|ls|)| + |EncLists(ls[..i])|
  }

  lemma StartStep(ls: seq<HandlerList>, i: nat)
    requires i < |ls|
    ensures Start(ls, i + 1) == Start(ls, i) + |EncList(ls[i])|
    ensures EncLists(ls[..i + 1]) == EncLists(ls[..i]) + EncList(ls[i])
  {
    assert ls[..i + 1][..i] == ls[..i];
  }

  lemma {:induction false} EncListsPrefix(ls: seq<HandlerList>, i: nat)
    requires i <= |ls|
    ensures EncLists(ls[..i]) <= EncLists(ls)
    decreases |ls| - i
  {
    if i < |ls| {
      EncListsPrefix(ls, i + 1);
      StartStep(ls, i);
    } else {
      assert ls[..i] == ls;
    }
  }

  /** In the canonical table, list i lies between its start and the next. */
  lemma {:induction false} ListLiesAt(ls: seq<HandlerList>, i: nat)
    requires i < |ls|
    ensures var t := CanonicalTable(ls);
            Start(ls, i) + |EncList(ls[i])| <= |t| && t[Start(ls, i)..Start(ls, i) + |EncList(ls[i])|] == EncList(ls[i])
  {
    hide EncList, Uleb;
    StartStep(ls, i);
    EncListsPrefix(ls, i + 1);
  }

  /** The handlers that a reader should find in the canonical table. */
  ghost function CanonicalHandlers(ls: seq<HandlerList>): (hs: seq<CatchHandler>)
    ensures |hs| == |ls|
  {
    seq(|ls|, i requires 0 <= i < |ls| => CatchHandler(Start(ls, i), ls[i]))
  }

  lemma {:induction false} WalkCanonical(ls: seq<HandlerList>, i: nat, rest: seq<byte>)
    requires forall k :: 0 <= k < |ls| ==> Expressible(ls[k])
    requires i <= |ls|
    ensures Start(ls, i) <= |CanonicalTable(ls)|
    ensures Walk(CanonicalTable(ls) + rest, Start(ls, i), |ls| - i) == Some(CanonicalHandlers(ls)[i..])
    decreases |ls| - i
  {
    hide EncList, DecodeList, Expressible, Start, CanonicalTable;
    var t := CanonicalTable(ls) + rest;
    if i == |ls| {
      LastStart(ls);
    } else {
      var p, n := Start(ls, i), |EncList(ls[i])|;
      ListLiesAt(ls, i);
      assert t[p..p + n] == CanonicalTable(ls)[p..p + n];
      assert t[p..] == EncList(ls[i]) + t[p + n..];
      ListRoundTrip(ls[i], t[p + n..]);
      StartStep(ls, i);
      WalkCanonical(ls, i + 1, rest);
      assert CanonicalHandlers(ls)[i..] == [CatchHandler(p, ls[i])] + CanonicalHandlers(ls)[i + 1..];
    }
  }

  lemma LastStart(ls: seq<HandlerList>)
    ensures Start(ls, |ls|) == |CanonicalTable(ls)|
    ensures Start(ls, 0) == |Uleb(|ls|)|
  {
    assert ls[..|ls|] == ls && ls[..0] == [];
  }

  /** Reading the canonical table finds every list at its place, whatever follows the table. */
  lemma {:induction false} TableOfCanonical(ls: seq<HandlerList>, rest: seq<byte>)
    requires |ls| < TWO_TO_THE_32 && forall k :: 0 <= k < |ls| ==> Expressible(ls[k])
    ensures Table(CanonicalTable(ls) + rest) == Some(CanonicalHandlers(ls))
  {
    hide Expressible, Uleb, DecodeUleb, EncLists, Walk;
    UlebRoundTrip(|ls|, EncLists(ls) + rest);
    assert CanonicalTable(ls) + rest == Uleb(|ls|) + (EncLists(ls) + rest);
    LastStart(ls);
    WalkCanonical(ls, 0, rest);
    assert CanonicalHandlers(ls)[0..] == CanonicalHandlers(ls);
  }
}
