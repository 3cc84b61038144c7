/**
 The variable-width numbers inside an encoded value: the shortest byte strings
 the writer picks, the three ways the reader extends them, and the proof that
 no shorter string would do.
 */
module VarWidth {
  import opened Bytes

  /** Shortest little-endian two's complement form. */
  function SignedBytes(v: int): (bs: seq<byte>)
    ensures |bs| >= 1
    decreases if v < 0 then -v else v
  {
    if -128 <= v < 128 then [v % 256] else [v % 256] + SignedBytes(v / 256)
  }

  /** Shortest little-endian unsigned form. */
  function UnsignedBytes(v: nat): (bs: seq<byte>)
    ensures |bs| >= 1
  {
    if v < 256 then [v] else [v % 256] + UnsignedBytes(v / 256)
  }

  function DropLowZeros(bs: seq<byte>): (r: seq<byte>)
    ensures |r| <= |bs| && (bs != [] ==> r != [])
  {
    if |bs| > 1 && bs[0] == 0 then DropLowZeros(bs[1..]) else bs
  }

  /** The raw bits of a float (w = 4) or a double (w = 8) without their low zero bytes. */
  function FloatingBytes(w: nat, bits: nat): (bs: seq<byte>)
    ensures |bs| <= w && (w > 0 ==> bs != [])
  {
    DropLowZeros(LittleEndian(w, bits))
  }

  /** Sign-extending read. */
  function SignedVal(bs: seq<byte>): (v: int)
    requires bs != []
  {
    if |bs| == 1 then (if bs[0] < 128 then bs[0] as int else -256 + bs[0] as int)
    else bs[0] + 256 * SignedVal(bs[1..])
  }

  /** Right-filling read: the bytes are the high end of a w-byte word. */
  function RightFilled(w: nat, bs: seq<byte>): (bits: nat)
    requires |bs| <= w
  {
    Val(Zeros(w - |bs|) + bs)
  }

  ghost predicate FitsSigned(v: int, n: nat)
    requires n >= 1
  {
    -(128 * Pow256(n - 1)) <= v < 128 * Pow256(n - 1)
  }

  lemma {:induction false} SignedRoundTrip(v: int)
    ensures SignedVal(SignedBytes(v)) == v
    decreases if v < 0 then -v else v
  {
    if !(-128 <= v < 128) {
      SignedRoundTrip(v / 256);
      assert SignedBytes(v)[1..] == SignedBytes(v / 256);
    }
  }

  /** n bytes hold v exactly when its shortest form takes at most n. */
  lemma {:induction false} SignedSize(v: int, n: nat)
    requires n >= 1
    ensures FitsSigned(v, n) <==> |SignedBytes(v)| <= n
    decreases n
  {
    if n > 1 {
      assert Pow256(n - 1) == 256 * Pow256(n - 2);
      if !(-128 <= v < 128) {
        SignedSize(v / 256, n - 1);
      }
    }
  }

  lemma {:induction false} SignedValFits(bs: seq<byte>)
    requires bs != []
    ensures FitsSigned(SignedVal(bs), |bs|)
  {
    if |bs| > 1 {
      SignedValFits(bs[1..]);
      assert Pow256(|bs| - 1) == 256 * Pow256(|bs| - 2);
    }
  }

  /** No byte string from which a sign-extending read recovers v is shorter. */
  lemma {:induction false} SignedShortest(bs: seq<byte>)
    requires bs != []
    ensures |SignedBytes(SignedVal(bs))| <= |bs|
  {
    SignedValFits(bs);
    SignedSize(SignedVal(bs), |bs|);
  }

  lemma {:induction false} UnsignedRoundTrip(v: nat)
    ensures Val(UnsignedBytes(v)) == v
  {
    if v >= 256 {
      UnsignedRoundTrip(v / 256);
      assert UnsignedBytes(v)[1..] == UnsignedBytes(v / 256);
    } else {
      assert UnsignedBytes(v)[1..] == [];
    }
  }

  lemma {:induction false} UnsignedSize(v: nat, n: nat)
    requires n >= 1
    ensures v < Pow256(n) <==> |UnsignedBytes(v)| <= n
    decreases n
  {
    if n == 1 {
      assert Pow256(1) == 256 * Pow256(0);
    } else if v >= 256 {
      UnsignedSize(v / 256, n - 1);
    }
  }

  lemma {:induction false} UnsignedShortest(bs: seq<byte>)
    requires bs != []
    ensures |UnsignedBytes(Val(bs))| <= |bs|
  {
    ValBound(bs);
    UnsignedSize(Val(bs), |bs|);
  }

  lemma {:induction false} DropLowZerosFill(bs: seq<byte>)
    ensures Zeros(|bs| - |DropLowZeros(bs)|) + DropLowZeros(bs) == bs
  {
    if |bs| > 1 && bs[0] == 0 {
      DropLowZerosFill(bs[1..]);
      var k := |bs| - |DropLowZeros(bs)|;
      assert Zeros(k) == [0] + Zeros(k - 1);
      assert bs == [bs[0]] + bs[1..];
    }
  }

  lemma {:induction false} FloatingRoundTrip(w: nat, bits: nat)
    requires bits < Pow256(w)
    ensures RightFilled(w, FloatingBytes(w, bits)) == bits
  {
    DropLowZerosFill(LittleEndian(w, bits));
    ValLittleEndian(w, bits);
  }

  lemma {:induction false} DropLowZerosShortest(z: nat, bs: seq<byte>)
    requires bs != []
    ensures |DropLowZeros(Zeros(z) + bs)| <= |bs|
  {
    if z > 0 {
      assert (Zeros(z) + bs)[1..] == Zeros(z - 1) + bs;
      DropLowZerosShortest(z - 1, bs);
    } else {
      assert Zeros(0) + bs == bs;
    }
  }

  lemma {:induction false} DropLowZerosStops(z: nat, bs: seq<byte>)
    requires bs != [] && (|bs| == 1 || bs[0] != 0)
    ensures DropLowZeros(Zeros(z) + bs) == bs
  {
    if z > 0 {
      assert (Zeros(z) + bs)[1..] == Zeros(z - 1) + bs;
      DropLowZerosStops(z - 1, bs);
    } else {
      assert Zeros(0) + bs == bs;
    }
  }

  /** No byte string from which a right-filling read recovers the bits is shorter. */
  lemma {:induction false} FloatingShortest(w: nat, bs: seq<byte>)
    requires bs != [] && |bs| <= w
    ensures RightFilled(w, bs) < Pow256(w)
    ensures |FloatingBytes(w, RightFilled(w, bs))| <= |bs|
  {
    var word := Zeros(w - |bs|) + bs;
    ValBound(word);
    LittleEndianVal(word);
    DropLowZerosShortest(w - |bs|, bs);
  }

  // ---- the encoders, filling an eight byte buffer in place

  /** EncodeIntValue and EncodeLongValue, whose bodies differ only in the type of `value`. */
  method EncodeSignedValue(value: int, buffer: array<byte>) returns (length: nat)
    requires buffer.Length == 8 && FitsSigned(value, 8)
    modifies buffer
    ensures 1 <= length <= 8 && buffer[..length] == SignedBytes(value)
    ensures FitsSigned(value, 4) ==> length <= 4
  {
    hide SignedBytes, FitsSigned, Pow256;
    SignedSize(value, 8);
    SignedSize(value, 4);
    var v;
    if value >= 0 {
      length, v := TakePositive(value, buffer);
    } else {
      length, v := TakeNegative(value, buffer);
    }
    SignedStep(v);
    buffer[length] := v % 256;
    length := length + 1;
  }

  method TakePositive(value: int, buffer: array<byte>) returns (length: nat, v: int)
    requires buffer.Length == 8 && value >= 0 && |SignedBytes(value)| <= 8
    modifies buffer
    ensures -0x80 <= v <= 0x7f && length < 8 && SignedBytes(value) == buffer[..length] + SignedBytes(v)
  {
    hide SignedBytes;
    length, v := 0, value;
    SignedStep(v);
    while v > 0x7f
      invariant v >= 0 && length < length + |SignedBytes(v)| == |SignedBytes(value)|
      invariant SignedBytes(value) == buffer[..length] + SignedBytes(v)
      decreases v
    {
      SignedStep(v);
      SignedStep(v / 256);
      TakenOff(buffer[..length], v % 256, SignedBytes(v / 256));
      buffer[length] := v % 256;
      length := length + 1;
      v := v / 256;
    }
  }

  method TakeNegative(value: int, buffer: array<byte>) returns (length: nat, v: int)
    requires buffer.Length == 8 && value < 0 && |SignedBytes(value)| <= 8
    modifies buffer
    ensures -0x80 <= v <= 0x7f && length < 8 && SignedBytes(value) == buffer[..length] + SignedBytes(v)
  {
    hide SignedBytes;
    length, v := 0, value;
    SignedStep(v);
    while v < -0x80
      invariant v < 0 && length < length + |SignedBytes(v)| == |SignedBytes(value)|
      invariant SignedBytes(value) == buffer[..length] + SignedBytes(v)
      decreases -v
    {
      SignedStep(v);
      SignedStep(v / 256);
      TakenOff(buffer[..length], v % 256, SignedBytes(v / 256));
      buffer[length] := v % 256;
      length := length + 1;
      v := v / 256;
    }
  }

  /** One turn of the loop takes off the lowest byte. */
  lemma SignedStep(v: int)
    ensures |SignedBytes(v)| >= 1
    ensures if -0x80 <= v <= 0x7f then SignedBytes(v) == [v % 256]
            else SignedBytes(v) == [v % 256] + SignedBytes(v / 256)
  {
  }

  lemma TakenOff<T>(a: seq<T>, x: T, b: seq<T>)
    ensures a + ([x] + b) == a + [x] + b
  {
  }

  /** EncodeUIntValue. */
  method EncodeUIntValue(value: nat, buffer: array<byte>) returns (length: nat)
    requires buffer.Length == 8 && value < TWO_TO_THE_32
    modifies buffer
    ensures 1 <= length <= 4 && buffer[..length] == UnsignedBytes(value)
  {
    Pow256Values();
    UnsignedSize(value, 4);
    buffer[0] := value % 256;
    length := 1;
    var v := value / 256;
    while v != 0
      invariant 1 <= length <= 4 && v >= 0
      invariant if v == 0 then UnsignedBytes(value) == buffer[..length]
                else UnsignedBytes(value) == buffer[..length] + UnsignedBytes(v)
      decreases v
    {
      buffer[length] := v % 256;
      length := length + 1;
      v := v / 256;
    }
  }

  lemma {:induction false} LittleEndianIsZero(w: nat, x: nat)
    requires x < Pow256(w)
    ensures x == 0 <==> LittleEndian(w, x) == Zeros(w)
  {
    if w > 0 {
      LittleEndianIsZero(w - 1, x / 256);
      assert LittleEndian(w, x) == [x % 256] + LittleEndian(w - 1, x / 256);
      if LittleEndian(w, x) == Zeros(w) {
        assert LittleEndian(w, x)[0] == 0;
        assert LittleEndian(w, x)[1..] == Zeros(w)[1..] == Zeros(w - 1);
      }
      if x == 0 {
        assert Zeros(w) == [0] + Zeros(w - 1);
      }
    }
  }

  /** Shifting a word left by a byte drops the top byte and brings in a zero. */
  lemma {:induction false} ShiftLeft(w: nat, x: nat)
    requires w >= 1 && x < Pow256(w)
    ensures x / Pow256(w - 1) == LittleEndian(w, x)[w - 1]
    ensures var low := x % Pow256(w - 1);
            256 * low < Pow256(w) && LittleEndian(w, 256 * low) == [0] + LittleEndian(w, x)[..w - 1]
  {
    var bs := LittleEndian(w, x);
    var low, top := Val(bs[..w - 1]), bs[w - 1];
    assert x == low + Pow256(w - 1) * top by {
      assert bs == bs[..w - 1] + [top];
      ValAppend(bs[..w - 1], top);
      ValLittleEndian(w, x);
    }
    ValBound(bs[..w - 1]);
    DivModUnique(x, Pow256(w - 1), top, low);
    LittleEndianVal([0] + bs[..w - 1]);
    assert ([0] + bs[..w - 1])[1..] == bs[..w - 1];
  }

  lemma {:induction false} ValAppend(bs: seq<byte>, b: byte)
    ensures Val(bs + [b]) == Val(bs) + Pow256(|bs|) * b
  {
    if bs == [] {
      assert Val([b]) == b + 256 * Val([b][1..]);
    } else {
      assert (bs + [b])[1..] == bs[1..] + [b];
      ValAppend(bs[1..], b);
      assert Pow256(|bs|) * b == 256 * (Pow256(|bs| - 1) * b);
    }
  }

  /** The bytes of `word` are those of `all` below `n`, shifted to the top. */
  ghost predicate Shifted(w: nat, word: nat, all: seq<byte>, n: nat)
    requires n <= w == |all|
  {
    word < Pow256(w) && LittleEndian(w, word) == Zeros(w - n) + all[..n]
  }

  lemma {:induction false} WordShift(w: nat, word: nat, all: seq<byte>, n: nat)
    requires 1 <= n <= w == |all| && Shifted(w, word, all, n)
    ensures word / Pow256(w - 1) == all[n - 1]
    ensures Shifted(w, 256 * (word % Pow256(w - 1)), all, n - 1)
  {
    ShiftLeft(w, word);
    assert LittleEndian(w, word)[w - 1] == all[n - 1];
    assert Zeros(w - n + 1) == [0] + Zeros(w - n);
    assert LittleEndian(w, word)[..w - 1] == Zeros(w - n) + all[..n - 1];
  }

  /** The top byte of a 32-bit (w = 4) or 64-bit (w = 8) word. */
  function TopByte(w: nat, word: nat): (b: nat) {
    if w == 4 then word / 0x100_0000 else word / 0x100_0000_0000_0000
  }

  function ShiftedByte(w: nat, word: nat): (r: nat) {
    if w == 4 then 256 * (word % 0x100_0000) else 256 * (word % 0x100_0000_0000_0000)
  }

  lemma {:induction false} ShiftStep(w: nat, word: nat, all: seq<byte>, n: nat)
    requires w == 4 || w == 8
    requires 1 <= n <= w == |all| && Shifted(w, word, all, n)
    ensures TopByte(w, word) == all[n - 1]
    ensures Shifted(w, ShiftedByte(w, word), all, n - 1)
  {
    Pow256Values();
    WordShift(w, word, all, n);
  }

  lemma {:induction false} ShiftedIsZero(w: nat, word: nat, all: seq<byte>, n: nat)
    requires n <= w == |all| && Shifted(w, word, all, n)
    ensures word == 0 <==> all[..n] == Zeros(n)
  {
    LittleEndianIsZero(w, word);
    assert Zeros(w) == Zeros(w - n) + Zeros(n);
    assert LittleEndian(w, word)[w - n..] == all[..n];
    assert Zeros(w)[w - n..] == Zeros(n);
  }

  /** The loop below stops at the lowest non-zero byte, or at the top byte. */
  lemma {:induction false} StopsAtLowestByte(all: seq<byte>, n: nat)
    requires n < |all| && all[..n] == Zeros(n)
    requires n + 1 < |all| ==> all[..n + 1] != Zeros(n + 1)
    ensures DropLowZeros(all) == all[n..]
  {
    assert all == Zeros(n) + all[n..];
    assert all[n] == 0 ==> all[..n + 1] == Zeros(n + 1);
    DropLowZerosStops(n, all[n..]);
  }

  /** `bits` after k left shifts by a byte. */
  ghost function AfterShifts(w: nat, bits: nat, k: nat): (word: nat) {
    if k == 0 then bits else ShiftedByte(w, AfterShifts(w, bits, k - 1))
  }

  lemma {:induction false} AfterShiftsIs(w: nat, bits: nat, k: nat)
    requires (w == 4 || w == 8) && bits < Pow256(w) && k <= w
    ensures Shifted(w, AfterShifts(w, bits, k), LittleEndian(w, bits), w - k)
  {
    var all := LittleEndian(w, bits);
    if k == 0 {
      assert all[..w] == all && Zeros(0) + all == all;
    } else {
      AfterShiftsIs(w, bits, k - 1);
      ShiftStep(w, AfterShifts(w, bits, k - 1), all, w - k + 1);
    }
  }

  lemma {:induction false} AfterShiftsFacts(w: nat, bits: nat, k: nat)
    requires (w == 4 || w == 8) && bits < Pow256(w) && k <= w
    ensures AfterShifts(w, bits, k) == 0 <==> LittleEndian(w, bits)[..w - k] == Zeros(w - k)
    ensures k < w ==> TopByte(w, AfterShifts(w, bits, k)) == LittleEndian(w, bits)[w - 1 - k]
  {
    AfterShiftsIs(w, bits, k);
    ShiftedIsZero(w, AfterShifts(w, bits, k), LittleEndian(w, bits), w - k);
    if k < w {
      ShiftStep(w, AfterShifts(w, bits, k), LittleEndian(w, bits), w - k);
    }
  }

  lemma {:induction false} NextByteOut(w: nat, bits: nat, k: nat)
    requires (w == 4 || w == 8) && bits < Pow256(w) && k <= w
    ensures k < w ==> TopByte(w, AfterShifts(w, bits, k)) == LittleEndian(w, bits)[w - 1 - k]
    ensures k == w ==> AfterShifts(w, bits, k) == 0
  {
    AfterShiftsFacts(w, bits, k);
  }

  lemma FirstShifts(w: nat, bits: nat)
    ensures AfterShifts(w, bits, 0) == bits && AfterShifts(w, bits, 1) == ShiftedByte(w, bits)
  {
  }

  lemma OneShift(w: nat, bits: nat, k: nat)
    ensures AfterShifts(w, bits, k + 1) == ShiftedByte(w, AfterShifts(w, bits, k))
  {
  }

  /** The encoder's loop ends after as many bytes as the shortest form has. */
  lemma {:induction false} StopsAtShortest(w: nat, bits: nat, length: nat)
    requires (w == 4 || w == 8) && bits < Pow256(w) && 1 <= length <= w
    requires AfterShifts(w, bits, length) == 0
    requires length > 1 ==> AfterShifts(w, bits, length - 1) != 0
    ensures FloatingBytes(w, bits) == LittleEndian(w, bits)[w - length..]
  {
    hide AfterShifts, LittleEndian, Pow256, DropLowZeros;
    AfterShiftsFacts(w, bits, length);
    AfterShiftsFacts(w, bits, length - 1);
    StopsAtLowestByte(LittleEndian(w, bits), w - length);
  }

  /** EncodeFloatValue (w = 4) and EncodeDoubleValue (w = 8), on the raw bits: the bytes
      fill the end of a w-byte area, high byte first.  The source counts an index
      down from w - 1, which here is w - 1 - length. */
  method EncodeFloatingValue(w: nat, bits: nat, buffer: array<byte>) returns (length: nat)
    requires w == 4 || w == 8
    requires buffer.Length == 8 && bits < Pow256(w)
    modifies buffer
    ensures 1 <= length <= w && buffer[w - length..w] == FloatingBytes(w, bits)
  {
    hide LittleEndian, DropLowZeros, FloatingBytes, TopByte, ShiftedByte, Pow256, AfterShifts;
    FirstShifts(w, bits);
    ghost var all := LittleEndian(w, bits);
    NextByteOut(w, bits, 0);
    buffer[w - 1] := TopByte(w, bits);
    var word: nat := ShiftedByte(w, bits);
    length := 1;
    while word != 0
      invariant 1 <= length <= w
      invariant word == AfterShifts(w, bits, length)
      invariant forall k :: w - length <= k < w ==> buffer[k] == all[k]
      invariant length > 1 ==> AfterShifts(w, bits, length - 1) != 0
      decreases w - length
    {
      NextByteOut(w, bits, length);
      OneShift(w, bits, length);
      buffer[w - 1 - length] := TopByte(w, word);
      word := ShiftedByte(w, word);
      length := length + 1;
    }
    StopsAtShortest(w, bits, length);
    assert buffer[w - length..w] == all[w - length..];
  }
}
