/**
 The random-access output stream of the dex writers, and the algebra of what a
 sequence of writes leaves in it.  Storage grows by half plus one byte at a
 time and is zero filled, so contents are compared up to trailing zeros.
 */
module ByteStream {
  import opened Bytes
  import opened Leb128

  /** The byte at position `i`; beyond the storage everything is zero. */
  function At(d: seq<byte>, i: nat): (b: byte) {
    if i < |d| then d[i] else 0
  }

  /** `d'` is `d` with `bs` written at position `p`. */
  ghost predicate Wrote(d: seq<byte>, d': seq<byte>, p: nat, bs: seq<byte>) {
    forall i: nat :: At(d', i) == if p <= i < p + |bs| then bs[i - p] else At(d, i)
  }

  ghost predicate ZeroIn(d: seq<byte>, lo: nat, hi: nat) {
    forall i: nat :: lo <= i < hi ==> At(d, i) == 0
  }

  ghost predicate ZeroFrom(d: seq<byte>, lo: nat) {
    forall i: nat :: lo <= i ==> At(d, i) == 0
  }

  /** `d` holds exactly the contents `f`, and zeros beyond. */
  ghost predicate Holds(d: seq<byte>, f: seq<byte>) {
    forall i: nat :: At(d, i) == At(f, i)
  }

  /** The alignments that dex sections and their parts use. */
  type Alignment = a: nat | a == 1 || a == 2 || a == 4 || a == 8 witness 1

  predicate Aligned(p: nat, alignment: Alignment) {
    && (alignment == 2 ==> p % 2 == 0)
    && (alignment == 4 ==> p % 4 == 0)
    && (alignment == 8 ==> p % 8 == 0)
  }

  function PadLen(p: nat, alignment: Alignment): (n: nat)
    ensures n < alignment && Aligned(p + n, alignment)
  {
    if Aligned(p, alignment) then 0
    else if alignment == 2 then 1
    else if alignment == 4 then NextMultiple(p, 4); 4 - p % 4
    else NextMultiple(p, 8); 8 - p % 8
  }

  lemma NextMultiple(p: nat, d: nat)
    requires d > 0
    ensures (p + (d - p % d)) % d == 0
  {
    MulStep(d, p / d);
    DivModUnique(p + (d - p % d), d, p / d + 1, 0);
  }

  function RoundUp(p: nat, alignment: Alignment): (r: nat)
    ensures p <= r < p + alignment && Aligned(r, alignment)
  {
    p + PadLen(p, alignment)
  }

  lemma WroteThen(d: seq<byte>, d1: seq<byte>, d2: seq<byte>, p: nat, b1: seq<byte>, b2: seq<byte>)
    requires Wrote(d, d1, p, b1) && Wrote(d1, d2, p + |b1|, b2)
    ensures Wrote(d, d2, p, b1 + b2)
  {
    forall i: nat
      ensures At(d2, i) == if p <= i < p + |b1 + b2| then (b1 + b2)[i - p] else At(d, i)
    {
      assert At(d1, i) == if p <= i < p + |b1| then b1[i - p] else At(d, i);
    }
  }

  lemma WroteZeros(d: seq<byte>, p: nat, n: nat)
    requires ZeroIn(d, p, p + n)
    ensures Wrote(d, d, p, Zeros(n))
  {
  }

  /** Writing just past the contents appends to them. */
  lemma Append(d: seq<byte>, d': seq<byte>, f: seq<byte>, bs: seq<byte>)
    requires Holds(d, f) && Wrote(d, d', |f|, bs)
    ensures Holds(d', f + bs)
  {
    forall i: nat ensures At(d', i) == At(f + bs, i) {
      assert At(d, i) == At(f, i);
    }
  }

  class Stream {
    var data: seq<byte>
    var pos: nat

    constructor (section: seq<byte>)
      ensures data == section && pos == 0
    {
      data := section;
      pos := 0;
    }

    method EnsureStorage(length: nat)
      modifies this`data
      ensures |data| >= pos + length && Holds(data, old(data))
    {
      while pos + length > |data|
        invariant Holds(data, old(data))
        decreases pos + length - |data|
      {
        data := data + Zeros(|data| * 3 / 2 + 1 - |data|);
      }
    }

    method Seek(position: nat)
      modifies this
      ensures pos == position && Holds(data, old(data)) && |data| >= pos
    {
      pos := position;
      EnsureStorage(0);
    }

    method Overwrite(buffer: seq<byte>)
      modifies this
      ensures pos == old(pos) + |buffer| && |data| >= pos
      ensures Wrote(old(data), data, old(pos), buffer)
    {
      EnsureStorage(|buffer|);
      data := data[..pos] + buffer + data[pos + |buffer|..];
      pos := pos + |buffer|;
    }

    /** Like Overwrite, but landing on bytes already written is a bug. */
    method Write(buffer: seq<byte>)
      requires ZeroIn(data, pos, pos + |buffer|)
      modifies this
      ensures pos == old(pos) + |buffer| && |data| >= pos
      ensures Wrote(old(data), data, old(pos), buffer)
    {
      Overwrite(buffer);
    }

    method Clear(position: nat, length: nat)
      requires position <= pos
      modifies this`data
      ensures Wrote(old(data), data, position, Zeros(length))
    {
      EnsureStorage(length);
      data := data[..position] + Zeros(length) + data[position + length..];
    }

    method WriteUleb128(value: nat)
      requires value < TWO_TO_THE_32
      modifies this
      ensures pos == old(pos) + |Uleb(value)| && |data| >= pos
      ensures Wrote(old(data), data, old(pos), Uleb(value))
    {
      EnsureStorage(8);
      UlebRoundTrip(value, []);
      var encoded := EncodeUnsignedLeb128([], value);
      data := data[..pos] + encoded + data[pos + |encoded|..];
      pos := pos + |encoded|;
    }

    method WriteSleb128(value: int)
      requires -0x8000_0000 <= value < 0x8000_0000
      modifies this
      ensures pos == old(pos) + |Sleb(value)| && |data| >= pos
      ensures Wrote(old(data), data, old(pos), Sleb(value))
    {
      EnsureStorage(8);
      SlebRoundTrip(value, []);
      var encoded := EncodeSignedLeb128([], value);
      data := data[..pos] + encoded + data[pos + |encoded|..];
      pos := pos + |encoded|;
    }

    method AlignTo(alignment: Alignment)
      modifies this
      ensures pos == RoundUp(old(pos), alignment) && Holds(data, old(data)) && |data| >= pos
    {
      pos := RoundUp(pos, alignment);
      EnsureStorage(0);
    }

    method Skip(count: nat)
      modifies this
      ensures pos == old(pos) + count && Holds(data, old(data)) && |data| >= pos
    {
      pos := pos + count;
      EnsureStorage(0);
    }
  }
}
