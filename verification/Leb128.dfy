/**
 LEB128 as the dex format uses it: 32-bit values in at most five bytes, read by
 a decoder that tolerates garbage in the high bits of the fifth byte.
 */
module Leb128 {
  import opened Bytes

  function Uleb(v: nat): (bs: seq<byte>)
    ensures |bs| >= 1
  {
    if v < 128 then [v] else [v % 128 + 128] + Uleb(v / 128)
  }

  function Sleb(v: int): (bs: seq<byte>)
    ensures |bs| >= 1
    decreases if v < 0 then -v else v
  {
    if -64 <= v < 64 then [v % 128] else [v % 128 + 128] + Sleb(v / 128)
  }

  /** A decoded number and how many bytes it took. */
  datatype Decoded = Decoded(value: int, size: nat)

  /** At most `k` groups of an unsigned number; the k-th group is taken whole. */
  function UlebGroups(bs: seq<byte>, k: nat): (r: Option<Decoded>)
    requires k >= 1
    ensures r.Some? ==> r.value.value >= 0 && 1 <= r.value.size <= k && r.value.size <= |bs|
    decreases k
  {
    if bs == [] then None
    else if bs[0] < 128 || k == 1 then Some(Decoded(bs[0], 1))
    else
      var d :- UlebGroups(bs[1..], k - 1);
      Some(Decoded(bs[0] - 128 + 128 * d.value, d.size + 1))
  }

  function SlebGroups(bs: seq<byte>, k: nat): (r: Option<Decoded>)
    requires k >= 1
    ensures r.Some? ==> 1 <= r.value.size <= k && r.value.size <= |bs|
    decreases k
  {
    if bs == [] then None
    else if k == 1 then Some(Decoded(bs[0], 1))
    else if bs[0] < 64 then Some(Decoded(bs[0], 1))
    else if bs[0] < 128 then Some(Decoded(-128 + bs[0] as int, 1))
    else
      var d :- SlebGroups(bs[1..], k - 1);
      Some(Decoded(bs[0] - 128 + 128 * d.value, d.size + 1))
  }

  /** Two's complement interpretation of the low 32 bits. */
  function ToInt32(x: int): (r: int)
    ensures -0x8000_0000 <= r < 0x8000_0000
    ensures -0x8000_0000 <= x < 0x8000_0000 ==> r == x
  {
    var u := x % TWO_TO_THE_32;
    if u < 0x8000_0000 then u else u - TWO_TO_THE_32
  }

  /** DecodeUnsignedLeb128; None when the bytes end before the number does. */
  function DecodeUleb(bs: seq<byte>): (r: Option<Decoded>)
    ensures r.Some? ==> 0 <= r.value.value < TWO_TO_THE_32 && 1 <= r.value.size <= 5 && r.value.size <= |bs|
  {
    var d :- UlebGroups(bs, 5);
    Some(Decoded(d.value % TWO_TO_THE_32, d.size))
  }

  /** DecodeSignedLeb128. */
  function DecodeSleb(bs: seq<byte>): (r: Option<Decoded>)
    ensures r.Some? ==> -0x8000_0000 <= r.value.value < 0x8000_0000 && 1 <= r.value.size <= 5 && r.value.size <= |bs|
  {
    var d :- SlebGroups(bs, 5);
    Some(Decoded(ToInt32(d.value), d.size))
  }

  /** The first value that no longer fits k groups of seven bits. */
  function Pow128(k: nat): (p: nat)
    ensures p >= 1
  {
    if k == 0 then 1 else 128 * Pow128(k - 1)
  }

  lemma {:induction false} UlebSizeBound(v: nat, k: nat)
    requires k >= 1
    ensures |Uleb(v)| <= k <==> v < Pow128(k)
    decreases k
  {
    if k == 1 {
      assert Pow128(1) == 128 * Pow128(0);
    } else if v >= 128 {
      UlebSizeBound(v / 128, k - 1);
    }
  }

  lemma Pow128Values()
    ensures Pow128(1) == 0x80 && Pow128(2) == 0x4000 && Pow128(3) == 0x20_0000
    ensures Pow128(4) == 0x1000_0000 && Pow128(5) == 0x8_0000_0000
  {
    assert Pow128(0) == 1;
    assert Pow128(1) == 128 * Pow128(0);
    assert Pow128(2) == 128 * Pow128(1);
    assert Pow128(3) == 128 * Pow128(2);
    assert Pow128(4) == 128 * Pow128(3);
    assert Pow128(5) == 128 * Pow128(4);
  }

  lemma {:induction false} UlebGroupsRoundTrip(v: nat, k: nat, rest: seq<byte>)
    requires k >= 1 && |Uleb(v)| <= k
    ensures UlebGroups(Uleb(v) + rest, k) == Some(Decoded(v, |Uleb(v)|))
    decreases k
  {
    if v >= 128 {
      UlebGroupsRoundTrip(v / 128, k - 1, rest);
      assert (Uleb(v) + rest)[1..] == Uleb(v / 128) + rest;
    }
  }

  /** Every 32-bit value is read back, and the decoder stops where the value ends. */
  lemma {:induction false} UlebRoundTrip(v: nat, rest: seq<byte>)
    requires v < TWO_TO_THE_32
    ensures |Uleb(v)| <= 5
    ensures DecodeUleb(Uleb(v) + rest) == Some(Decoded(v, |Uleb(v)|))
  {
    Pow128Values();
    UlebSizeBound(v, 5);
    UlebGroupsRoundTrip(v, 5, rest);
  }

  lemma {:induction false} UlebGroupsBound(bs: seq<byte>, k: nat)
    requires k >= 1 && UlebGroups(bs, k).Some?
    ensures UlebGroups(bs, k).value.size < k ==> UlebGroups(bs, k).value.value < Pow128(UlebGroups(bs, k).value.size)
    decreases k
  {
    assert Pow128(1) == 128 * Pow128(0);
    if !(bs[0] < 128 || k == 1) {
      UlebGroupsBound(bs[1..], k - 1);
    }
  }

  /** The canonical encoding is the shortest one the decoder accepts. */
  lemma {:induction false} UlebShortest(bs: seq<byte>)
    requires DecodeUleb(bs).Some?
    ensures |Uleb(DecodeUleb(bs).value.value)| <= DecodeUleb(bs).value.size
  {
    var Decoded(v, n) := DecodeUleb(bs).value;
    if n == 5 {
      UlebRoundTrip(v, []);
    } else {
      UlebGroupsBound(bs, 5);
      var d := UlebGroups(bs, 5).value;
      Pow128Values();
      assert d.value < Pow128(n) && Pow128(n) < TWO_TO_THE_32;
      UlebSizeBound(v, n);
    }
  }

  lemma {:induction false} SlebSizeBound(v: int, k: nat)
    requires k >= 1
    requires -(64 * Pow128(k - 1)) <= v < 64 * Pow128(k - 1)
    ensures |Sleb(v)| <= k
    decreases k
  {
    if k > 1 && !(-64 <= v < 64) {
      SlebSizeBound(v / 128, k - 1);
    }
  }

  lemma {:induction false} SlebGroupsRoundTrip(v: int, k: nat, rest: seq<byte>)
    requires k >= 1 && |Sleb(v)| < k
    ensures SlebGroups(Sleb(v) + rest, k) == Some(Decoded(v, |Sleb(v)|))
    decreases k
  {
    if !(-64 <= v < 64) {
      SlebGroupsRoundTrip(v / 128, k - 1, rest);
      assert (Sleb(v) + rest)[1..] == Sleb(v / 128) + rest;
    }
  }

  /** A full-length number: its last group is taken whole, so it agrees modulo 2^(7k). */
  lemma {:induction false} SlebGroupsFull(v: int, k: nat, rest: seq<byte>)
    requires k >= 1 && |Sleb(v)| == k
    ensures SlebGroups(Sleb(v) + rest, k).Some?
    ensures var d := SlebGroups(Sleb(v) + rest, k).value;
            d.size == k && d.value == (if v < 0 then v + Pow128(k) else v)
    decreases k
  {
    assert Pow128(1) == 128 * Pow128(0);
    if k > 1 {
      SlebGroupsFull(v / 128, k - 1, rest);
      assert (Sleb(v) + rest)[1..] == Sleb(v / 128) + rest;
    }
  }

  /** Every 32-bit signed value is read back by a decoder that stops where it ends. */
  lemma {:induction false} SlebRoundTrip(v: int, rest: seq<byte>)
    requires -0x8000_0000 <= v < 0x8000_0000
    ensures |Sleb(v)| <= 5
    ensures DecodeSleb(Sleb(v) + rest) == Some(Decoded(v, |Sleb(v)|))
  {
    Pow128Values();
    SlebSizeBound(v, 5);
    if |Sleb(v)| < 5 {
      SlebGroupsRoundTrip(v, 5, rest);
    } else {
      SlebGroupsFull(v, 5, rest);
    }
  }

  /** EncodeUnsignedLeb128, appending to `dest` as its vector form does. */
  method EncodeUnsignedLeb128(dest: seq<byte>, value: nat) returns (out: seq<byte>)
    ensures out == dest + Uleb(value)
  {
    hide Uleb;
    var group, v := value % 128, value / 128;
    out := dest;
    while v != 0
      invariant 0 <= group < 128 && v >= 0
      invariant dest + Uleb(value) == out + Uleb(group + 128 * v)
      decreases v
    {
      UlebStep(out, group, v);
      out := out + [group + 128];
      group, v := v % 128, v / 128;
    }
    LastGroup(group);
    out := out + [group];
  }

  lemma LastGroup(group: nat)
    requires group < 128
    ensures Uleb(group) == [group]
  {
  }

  /** A group that others follow. */
  lemma UlebStep(out: seq<byte>, group: nat, v: nat)
    requires group < 128 && v > 0
    ensures out + Uleb(group + 128 * v) == out + [group + 128] + Uleb(v)
    ensures v == v % 128 + 128 * (v / 128)
  {
    DivModUnique(group + 128 * v, 128, v, group);
    assert Uleb(group + 128 * v) == [group + 128] + Uleb(v);
  }

  /** EncodeSignedLeb128: `extra` counts the groups by the magnitude's bits above bit 5. */
  method EncodeSignedLeb128(dest: seq<byte>, value: int) returns (out: seq<byte>)
    ensures out == dest + Sleb(value)
  {
    var v := value;
    var extra := (if v >= 0 then v else -v - 1) / 64;
    out := dest;
    while extra != 0
      invariant dest + Sleb(value) == out + Sleb(v)
      invariant extra == (if v >= 0 then v else -v - 1) / 64
      decreases extra
    {
      out := out + [v % 128 + 128];
      v := v / 128;
      extra := extra / 128;
    }
    out := out + [v % 128];
  }

  // ---- what follows a number does not matter

  lemma {:induction false} UlebGroupsPrefix(a: seq<byte>, b: seq<byte>, k: nat)
    requires k >= 1 && a <= b && UlebGroups(a, k).Some?
    ensures UlebGroups(b, k) == UlebGroups(a, k)
    decreases k
  {
    if !(a[0] < 128 || k == 1) {
      UlebGroupsPrefix(a[1..], b[1..], k - 1);
    }
  }

  lemma {:induction false} UlebGroupsWithin(bs: seq<byte>, k: nat, m: nat)
    requires k >= 1 && UlebGroups(bs, k).Some? && UlebGroups(bs, k).value.size <= m <= |bs|
    ensures UlebGroups(bs[..m], k).Some?
    decreases k
  {
    if !(bs[0] < 128 || k == 1) {
      UlebGroupsWithin(bs[1..], k - 1, m - 1);
      assert bs[..m][1..] == bs[1..][..m - 1];
    }
  }

  lemma UlebPrefix(a: seq<byte>, b: seq<byte>)
    requires a <= b && DecodeUleb(a).Some?
    ensures DecodeUleb(b) == DecodeUleb(a)
  {
    UlebGroupsPrefix(a, b, 5);
  }

  lemma {:induction false} SlebGroupsPrefix(a: seq<byte>, b: seq<byte>, k: nat)
    requires k >= 1 && a <= b && SlebGroups(a, k).Some?
    ensures SlebGroups(b, k) == SlebGroups(a, k)
    decreases k
  {
    if !(a[0] < 128 || k == 1) {
      SlebGroupsPrefix(a[1..], b[1..], k - 1);
    }
  }

  lemma {:induction false} SlebGroupsWithin(bs: seq<byte>, k: nat, m: nat)
    requires k >= 1 && SlebGroups(bs, k).Some? && SlebGroups(bs, k).value.size <= m <= |bs|
    ensures SlebGroups(bs[..m], k).Some?
    decreases k
  {
    if !(bs[0] < 128 || k == 1) {
      SlebGroupsWithin(bs[1..], k - 1, m - 1);
      assert bs[..m][1..] == bs[1..][..m - 1];
    }
  }

  lemma SlebPrefix(a: seq<byte>, b: seq<byte>)
    requires a <= b && DecodeSleb(a).Some?
    ensures DecodeSleb(b) == DecodeSleb(a)
  {
    SlebGroupsPrefix(a, b, 5);
  }

  /** Nor does anything but the bytes that it takes. */
  lemma UlebWithin(bs: seq<byte>, m: nat)
    requires DecodeUleb(bs).Some? && DecodeUleb(bs).value.size <= m <= |bs|
    ensures DecodeUleb(bs[..m]) == DecodeUleb(bs)
  {
    UlebGroupsWithin(bs, 5, m);
    UlebPrefix(bs[..m], bs);
  }

  lemma SlebWithin(bs: seq<byte>, m: nat)
    requires DecodeSleb(bs).Some? && DecodeSleb(bs).value.size <= m <= |bs|
    ensures DecodeSleb(bs[..m]) == DecodeSleb(bs)
  {
    SlebGroupsWithin(bs, 5, m);
    SlebPrefix(bs[..m], bs);
  }
}
