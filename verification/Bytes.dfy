/**
 Bytes, little-endian numbers and zero-filled storage: the vocabulary shared by
 the dex reader and the dex writers.
 */
module Bytes {

  type byte = x: int | 0 <= x < 256

  const TWO_TO_THE_16 := 0x1_0000
  const TWO_TO_THE_32 := 0x1_0000_0000

  datatype Option<+T> = None | Some(value: T) {
    predicate IsFailure() { None? }
    function PropagateFailure<U>(): Option<U> requires None? { None }
    function Extract(): T requires Some? { value }
  }

  function Zeros(n: nat): (s: seq<byte>)
    ensures |s| == n
    ensures forall i :: 0 <= i < n ==> s[i] == 0
  {
    seq(n, _ => 0)
  }

  function Pow256(n: nat): (p: nat)
    ensures p >= 1
  {
    if n == 0 then 1 else 256 * Pow256(n - 1)
  }

  /** The number that the bytes `bs` denote, least significant byte first. */
  function Val(bs: seq<byte>): (v: nat)
  {
    if bs == [] then 0 else bs[0] + 256 * Val(bs[1..])
  }

  /** The `n` least significant bytes of `x`, least significant first. */
  function LittleEndian(n: nat, x: nat): (bs: seq<byte>)
    ensures |bs| == n
  {
    if n == 0 then [] else [x % 256] + LittleEndian(n - 1, x / 256)
  }

  lemma {:induction false} ValBound(bs: seq<byte>)
    ensures Val(bs) < Pow256(|bs|)
  {
    if bs != [] {
      ValBound(bs[1..]);
    }
  }

  lemma {:induction false} ValLittleEndian(n: nat, x: nat)
    requires x < Pow256(n)
    ensures Val(LittleEndian(n, x)) == x
  {
    if n > 0 {
      ValLittleEndian(n - 1, x / 256);
      assert LittleEndian(n, x)[1..] == LittleEndian(n - 1, x / 256);
    }
  }

  lemma {:induction false} LittleEndianVal(bs: seq<byte>)
    ensures LittleEndian(|bs|, Val(bs)) == bs
  {
    if bs != [] {
      LittleEndianVal(bs[1..]);
      assert Val(bs) / 256 == Val(bs[1..]);
      assert bs == [bs[0]] + bs[1..];
    }
  }

  /** A 32-bit field as the writers store it: little-endian, truncated to 32 bits. */
  function U32(x: nat): (bs: seq<byte>)
    ensures |bs| == 4
  {
    LittleEndian(4, x % TWO_TO_THE_32)
  }

  function U16(x: nat): (bs: seq<byte>)
    ensures |bs| == 2
  {
    LittleEndian(2, x % TWO_TO_THE_16)
  }

  lemma Pow256Values()
    ensures Pow256(0) == 1 && Pow256(1) == 0x100 && Pow256(2) == 0x1_0000 && Pow256(3) == 0x100_0000
    ensures Pow256(4) == 0x1_0000_0000 && Pow256(7) == 0x100_0000_0000_0000
    ensures Pow256(8) == 0x1_0000_0000_0000_0000
  {
    assert Pow256(1) == 256 * Pow256(0);
    assert Pow256(2) == 256 * Pow256(1);
    assert Pow256(3) == 256 * Pow256(2);
    assert Pow256(4) == 256 * Pow256(3);
    assert Pow256(5) == 256 * Pow256(4);
    assert Pow256(6) == 256 * Pow256(5);
    assert Pow256(7) == 256 * Pow256(6);
    assert Pow256(8) == 256 * Pow256(7);
  }

  /** Reading a field back gives the number that was stored. */
  lemma {:induction false} U32RoundTrip(x: nat)
    requires x < TWO_TO_THE_32
    ensures Val(U32(x)) == x
  {
    hide LittleEndian, Val, Pow256;
    Pow256Values();
    ValLittleEndian(4, x);
    assert x % TWO_TO_THE_32 == x;
  }

  lemma {:induction false} U16RoundTrip(x: nat)
    requires x < TWO_TO_THE_16
    ensures Val(U16(x)) == x
  {
    hide LittleEndian, Val, Pow256;
    Pow256Values();
    ValLittleEndian(2, x);
    assert x % TWO_TO_THE_16 == x;
  }

  function U32s(xs: seq<nat>): (bs: seq<byte>)
    ensures |bs| == 4 * |xs|
  {
    if xs == [] then [] else U32s(xs[..|xs| - 1]) + U32(xs[|xs| - 1])
  }

  lemma Behind<T>(a: seq<T>, b: seq<T>, lo: nat, hi: nat)
    requires lo <= hi <= |a|
    ensures (a + b)[lo..hi] == a[lo..hi] && (a + b)[|a|..|a| + |b|] == b
  {
  }

  lemma {:induction false} U32sAt(xs: seq<nat>, i: nat)
    requires i < |xs|
    ensures U32s(xs)[4 * i..4 * i + 4] == U32(xs[i])
  {
    hide U32;
    var n := |xs| - 1;
    var k := if i < n then i else 0;
    Behind(U32s(xs[..n]), U32(xs[n]), 4 * k, if i < n then 4 * k + 4 else 0);
    if i < n {
      U32sAt(xs[..n], i);
      assert xs[..n][i] == xs[i];
    }
  }

  ghost function Flatten(segs: seq<seq<byte>>): (bs: seq<byte>) {
    if segs == [] then [] else Flatten(segs[..|segs| - 1]) + segs[|segs| - 1]
  }

  lemma FlattenAppend(segs: seq<seq<byte>>, seg: seq<byte>)
    ensures Flatten(segs + [seg]) == Flatten(segs) + seg
  {
    assert (segs + [seg])[..|segs|] == segs;
  }

  lemma DivModUnique(x: int, d: nat, q: int, r: nat)
    requires r < d && x == r + d * q
    ensures x / d == q && x % d == r
  {
    var q', r' := x / d, x % d;
    assert x == d * q' + r';
    if q' > q {
      MulGap(d, q, q');
    } else if q' < q {
      MulGap(d, q', q);
    }
  }

  lemma {:induction false} MulGap(d: nat, a: int, b: int)
    requires a < b
    ensures d * a + d <= d * b
    decreases b - a
  {
    MulStep(d, b - 1);
    if a < b - 1 {
      MulGap(d, a, b - 1);
    }
  }

  lemma MulStep(d: nat, a: int)
    ensures d * (a + 1) == d * a + d
  {
  }

  lemma SliceOfSlice<T>(s: seq<T>, o: nat, n: nat, lo: nat, hi: nat)
    requires lo <= hi <= n && o + n <= |s|
    ensures s[o..o + n][lo..hi] == s[o + lo..o + hi]
  {
    var (a, b) := (s[o..o + n][lo..hi], s[o + lo..o + hi]);
    assert |a| == |b|;
    forall i | 0 <= i < |a| ensures a[i] == b[i] { assert a[i] == s[o..o + n][lo + i]; }
  }
}
