/**
 Writing catch handler lists by seeking to their recorded offsets, in whatever
 order the IR holds them.
 */
module CatchHandlerWriter {
  import opened Bytes
  import opened Leb128
  import opened ByteStream
  import opened CatchHandlers

  /** `bs` with `x` put at position `p`; what lies between is zero. */
  function Put(bs: seq<byte>, p: nat, x: seq<byte>): (r: seq<byte>)
    ensures |r| == if |bs| < p + |x| then p + |x| else |bs|
  {
    var wide := if |bs| < p + |x| then bs + Zeros(p + |x| - |bs|) else bs;
    wide[..p] + x + wide[p + |x|..]
  }

  /** What is written after the first n handlers. */
  function Puts(hs: seq<CatchHandler>, n: nat): (bs: seq<byte>)
    requires n <= |hs|
  {
    if n == 0 then Uleb(|hs|)
    else Put(Puts(hs, n - 1), hs[n - 1].listOffset, EncList(hs[n - 1].list))
  }

  function TableBytes(hs: seq<CatchHandler>): (bs: seq<byte>) {
    Puts(hs, |hs|)
  }

  lemma PutAt(bs: seq<byte>, p: nat, x: seq<byte>, i: nat)
    ensures At(Put(bs, p, x), i) == if p <= i < p + |x| then x[i - p] else At(bs, i)
  {
  }

  // ---- order does not matter

  /** The handler's encoding is what the table `t` has at the handler's offset. */
  ghost predicate LiesIn(h: CatchHandler, t: seq<byte>) {
    h.listOffset + |EncList(h.list)| <= |t| && t[h.listOffset..h.listOffset + |EncList(h.list)|] == EncList(h.list)
  }

  ghost predicate Covers(h: CatchHandler, i: nat) {
    h.listOffset <= i < h.listOffset + |EncList(h.list)|
  }

  /** Position i belongs to the count that precedes the lists, or to handler k. */
  ghost predicate Owned(hs: seq<CatchHandler>, n: nat, i: nat, k: nat)
    requires n <= |hs|
  {
    i < |Uleb(|hs|)| || (k < n && Covers(hs[k], i))
  }

  /** Writing handlers that all lie in `t` yields nothing but bytes of `t` where they lie. */
  lemma {:induction false} PutsAgree(hs: seq<CatchHandler>, n: nat, t: seq<byte>, i: nat, k: nat)
    requires n <= |hs| && Uleb(|hs|) <= t && forall j :: 0 <= j < n ==> LiesIn(hs[j], t)
    requires Owned(hs, n, i, k)
    ensures i < |t| && i < |Puts(hs, n)| && Puts(hs, n)[i] == t[i]
    decreases n
  {
    hide EncList, Uleb, Put, At;
    if n > 0 {
      var h := hs[n - 1];
      if Covers(h, i) {
        assert LiesIn(h, t);
        assert t[i] == t[h.listOffset..h.listOffset + |EncList(h.list)|][i - h.listOffset];
      } else {
        PutsAgree(hs, n - 1, t, i, k);
      }
      PutIndex(Puts(hs, n - 1), h.listOffset, EncList(h.list), i);
    }
  }

  lemma PutIndex(bs: seq<byte>, p: nat, x: seq<byte>, i: nat)
    requires i < |Put(bs, p, x)|
    ensures p <= i < p + |x| ==> Put(bs, p, x)[i] == x[i - p]
    ensures !(p <= i < p + |x|) && i < |bs| ==> Put(bs, p, x)[i] == bs[i]
  {
  }

  lemma {:induction false} PutsFit(hs: seq<CatchHandler>, n: nat, t: seq<byte>)
    requires n <= |hs| && Uleb(|hs|) <= t && forall j :: 0 <= j < n ==> LiesIn(hs[j], t)
    ensures |Puts(hs, n)| <= |t|
    decreases n
  {
    hide EncList, Uleb, Put;
    if n > 0 {
      PutsFit(hs, n - 1, t);
      assert LiesIn(hs[n - 1], t);
    }
  }

  /** `hs` holds the lists of the canonical table, each at least once and each at its place. */
  ghost predicate HoldsCanonical(hs: seq<CatchHandler>, ls: seq<HandlerList>) {
    && |hs| == |ls|
    && (forall k :: 0 <= k < |hs| ==> hs[k] in CanonicalHandlers(ls))
    && (forall i :: 0 <= i < |ls| ==> CanonicalHandlers(ls)[i] in hs)
  }

  /** Position i of the canonical table belongs to the count or to one of the lists. */
  lemma {:induction false} FindList(ls: seq<HandlerList>, n: nat, i: nat) returns (k: nat)
    requires n <= |ls| && |Uleb(|ls|)| <= i < Start(ls, n)
    ensures k < n && Start(ls, k) <= i < Start(ls, k) + |EncList(ls[k])|
    decreases n
  {
    hide EncList;
    LastStart(ls);
    if n > 0 {
      StartStep(ls, n - 1);
      if Start(ls, n - 1) <= i {
        k := n - 1;
      } else {
        k := FindList(ls, n - 1, i);
      }
    } else {
      assert false;
    }
  }

  lemma {:induction false} CanonicalLieIn(ls: seq<HandlerList>, hs: seq<CatchHandler>)
    requires HoldsCanonical(hs, ls)
    ensures forall k :: 0 <= k < |hs| ==> LiesIn(hs[k], CanonicalTable(ls))
  {
    forall k | 0 <= k < |hs| ensures LiesIn(hs[k], CanonicalTable(ls)) {
      var i :| 0 <= i < |ls| && CanonicalHandlers(ls)[i] == hs[k];
      ListLiesAt(ls, i);
    }
  }

  /** Whatever order the lists of a back-to-back table come in, seeking and writing
      them reproduces that table byte for byte. */
  lemma {:induction false} AnyOrderReproduces(hs: seq<CatchHandler>, ls: seq<HandlerList>)
    requires HoldsCanonical(hs, ls)
    ensures TableBytes(hs) == CanonicalTable(ls)
  {
    hide EncList, Uleb, Puts;
    var t := CanonicalTable(ls);
    CanonicalLieIn(ls, hs);
    LastStart(ls);
    PutsFit(hs, |hs|, t);
    forall i | 0 <= i < |t| ensures i < |TableBytes(hs)| && TableBytes(hs)[i] == t[i] {
      var j := 0;
      if |Uleb(|ls|)| <= i {
        var k := FindList(ls, |ls|, i);
        j :| 0 <= j < |hs| && hs[j] == CanonicalHandlers(ls)[k];
        assert Covers(hs[j], i);
      }
      PutsAgree(hs, |hs|, t, i, j);
    }
    var last := t[|t| - 1];
    assert |t| - 1 < |TableBytes(hs)|;
  }

  // ---- the writer

  /** What fits the fields that WriteSleb128 and WriteUleb128 take. */
  ghost predicate Encodable(l: HandlerList) {
    && |l.pairs| < 0x8000_0000
    && forall i :: 0 <= i < |l.pairs| ==> EncodablePair(l.pairs[i])
  }

  ghost predicate EncodablePair(p: TypeAddr) {
    p.addr < TWO_TO_THE_32 && (p.typ.Some? ==> p.typ.value < TWO_TO_THE_32)
  }

  lemma {:induction false} PutsGrow(hs: seq<CatchHandler>, i: nat, n: nat)
    requires i <= n <= |hs|
    ensures |Puts(hs, i)| <= |Puts(hs, n)|
    decreases n
  {
    hide Put, EncList, Uleb;
    if i < n {
      PutsGrow(hs, i, n - 1);
    }
  }

  /** Writing `x` over an area that held `bs` in zeros leaves Put(bs, p, x) there. */
  lemma WrotePut(d0: seq<byte>, d1: seq<byte>, d2: seq<byte>, base: nat, bs: seq<byte>, p: nat, x: seq<byte>)
    requires Wrote(d0, d1, base, bs) && Wrote(d1, d2, base + p, x)
    requires ZeroIn(d0, base, base + |Put(bs, p, x)|)
    ensures Wrote(d0, d2, base, Put(bs, p, x))
  {
    hide Put;
    var r := Put(bs, p, x);
    forall i: nat
      ensures At(d2, i) == if base <= i < base + |r| then r[i - base] else At(d0, i)
    {
      if base <= i {
        PutAt(bs, p, x, i - base);
      }
      assert At(d1, i) == if base <= i < base + |bs| then bs[i - base] else At(d0, i);
    }
  }

  method WritePair(stream: Stream, p: TypeAddr)
    requires EncodablePair(p)
    modifies stream
    ensures stream.pos == old(stream.pos) + |EncPair(p)|
    ensures Wrote(old(stream.data), stream.data, old(stream.pos), EncPair(p))
  {
    hide Uleb;
    if p.typ.Some? {
      stream.WriteUleb128(p.typ.value);
      ghost var d1 := stream.data;
      stream.WriteUleb128(p.addr);
      WroteThen(old(stream.data), d1, stream.data, old(stream.pos), Uleb(p.typ.value), Uleb(p.addr));
    } else {
      stream.WriteUleb128(p.addr);
      assert EncPair(p) == Uleb(p.addr);
    }
  }

  method WriteList(stream: Stream, l: HandlerList)
    requires Encodable(l)
    modifies stream
    ensures stream.pos == old(stream.pos) + |EncList(l)|
    ensures Wrote(old(stream.data), stream.data, old(stream.pos), EncList(l))
  {
    hide Sleb, EncPair;
    ghost var d0, p0 := stream.data, stream.pos;
    stream.WriteSleb128(SizeField(l));
    ghost var out := Sleb(SizeField(l));
    assert out == out + EncPairs([]);
    for i := 0 to |l.pairs|
      invariant out == Sleb(SizeField(l)) + EncPairs(l.pairs[..i])
      invariant stream.pos == p0 + |out| && Wrote(d0, stream.data, p0, out)
    {
      ghost var d1 := stream.data;
      WritePair(stream, l.pairs[i]);
      WroteThen(d0, d1, stream.data, p0, out, EncPair(l.pairs[i]));
      EncPairsAppend(l.pairs[..i], l.pairs[i]);
      assert l.pairs[..i + 1] == l.pairs[..i] + [l.pairs[i]];
      out := out + EncPair(l.pairs[i]);
    }
    assert l.pairs[..|l.pairs|] == l.pairs;
  }

  /** The handler part of WriteCodeItemPostInstructionData. */
  method WriteHandlers(stream: Stream, hs: seq<CatchHandler>)
    requires |hs| < TWO_TO_THE_32 && forall k :: 0 <= k < |hs| ==> Encodable(hs[k].list)
    requires ZeroIn(stream.data, stream.pos, stream.pos + |TableBytes(hs)|)
    modifies stream
    ensures stream.pos == old(stream.pos) + |TableBytes(hs)|
    ensures Wrote(old(stream.data), stream.data, old(stream.pos), TableBytes(hs))
  {
    hide EncList, Encodable, Put;
    ghost var d0 := stream.data;
    var offset := stream.pos;
    stream.WriteUleb128(|hs|);
    var maxOffset := stream.pos;
    for k := 0 to |hs|
      invariant maxOffset == offset + |Puts(hs, k)|
      invariant Wrote(d0, stream.data, offset, Puts(hs, k))
    {
      ghost var d1 := stream.data;
      stream.Seek(offset + hs[k].listOffset);
      WriteList(stream, hs[k].list);
      PutsGrow(hs, k + 1, |hs|);
      WrotePut(d0, d1, stream.data, offset, Puts(hs, k), hs[k].listOffset, EncList(hs[k].list));
      maxOffset := if maxOffset < stream.pos then stream.pos else maxOffset;
    }
    stream.Seek(maxOffset);
  }
}
