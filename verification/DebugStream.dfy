/**
 The extent of a debug info stream, which nothing but its own opcodes tells.
 */
module DebugStream {
  import opened Bytes
  import opened Leb128

  const END_SEQUENCE: byte := 0

  /** How many unsigned operands an opcode has; a line advance has a signed one. */
  function UnsignedOperands(op: byte): (n: nat) {
    if op == 1 || op == 5 || op == 6 || op == 9 then 1
    else if op == 3 then 3
    else if op == 4 then 4
    else 0
  }

  predicate HasSignedOperand(op: byte) { op == 2 }

  /** What n numbers take up. */
  function Numbers(bs: seq<byte>, n: nat): (r: Option<nat>)
    ensures r.Some? ==> r.value <= |bs|
    decreases n
  {
    if n == 0 then Some(0)
    else
      var d :- DecodeUleb(bs);
      var rest :- Numbers(bs[d.size..], n - 1);
      Some(d.size + rest)
  }

  /** An opcode with its operands. */
  function OneOp(bs: seq<byte>): (r: Option<nat>)
    ensures r.Some? ==> 1 <= r.value <= |bs|
  {
    if bs == [] then None
    else if HasSignedOperand(bs[0]) then
      var d :- DecodeSleb(bs[1..]);
      Some(1 + d.size)
    else
      var n :- Numbers(bs[1..], UnsignedOperands(bs[0]));
      Some(1 + n)
  }

  /** Opcodes up to the end of the sequence. */
  function Ops(bs: seq<byte>): (r: Option<nat>)
    ensures r.Some? ==> 1 <= r.value <= |bs|
    decreases |bs|
  {
    var n :- OneOp(bs);
    if bs[0] == END_SEQUENCE then Some(n)
    else
      var rest :- Ops(bs[n..]);
      Some(n + rest)
  }

  /** The first line, the names of the parameters, the opcodes. */
  function StreamSize(bs: seq<byte>): (r: Option<nat>)
    ensures r.Some? ==> r.value <= |bs|
  {
    var line :- DecodeUleb(bs);
    var count :- DecodeUleb(bs[line.size..]);
    var names :- Numbers(bs[line.size + count.size..], count.value);
    var ops :- Ops(bs[line.size + count.size + names..]);
    Some(line.size + count.size + names + ops)
  }

  // ---- the scan

  method SkipNumbers(bs: seq<byte>, start: nat, n: nat) returns (r: Option<nat>)
    requires start <= |bs|
    ensures r.Some? ==> start <= r.value <= |bs|
    ensures r == if Numbers(bs[start..], n).None? then None else Some(start + Numbers(bs[start..], n).value)
  {
    hide DecodeUleb, Numbers;
    var at := start;
    for i := 0 to n
      invariant start <= at <= |bs|
      invariant var rest := Numbers(bs[at..], n - i);
                Numbers(bs[start..], n) == if rest.None? then None else Some(at - start + rest.value)
    {
      NumbersStep(bs, at, n - i);
      var d := DecodeUleb(bs[at..]);
      if d.None? { return None; }
      at := at + d.value.size;
    }
    NumbersStep(bs, at, 0);
    r := Some(at);
  }

  lemma NumbersStep(bs: seq<byte>, at: nat, n: nat)
    requires at <= |bs|
    ensures n == 0 ==> Numbers(bs[at..], n) == Some(0)
    ensures n > 0 && DecodeUleb(bs[at..]).None? ==> Numbers(bs[at..], n).None?
    ensures n > 0 && DecodeUleb(bs[at..]).Some? ==>
              var d := DecodeUleb(bs[at..]).value;
              var rest := Numbers(bs[at + d.size..], n - 1);
              Numbers(bs[at..], n) == if rest.None? then None else Some(d.size + rest.value)
  {
    hide DecodeUleb;
    if n > 0 && DecodeUleb(bs[at..]).Some? {
      var d := DecodeUleb(bs[at..]).value;
      assert bs[at..][d.size..] == bs[at + d.size..];
    }
  }

  method SkipOp(bs: seq<byte>, at: nat) returns (r: Option<nat>)
    requires at < |bs|
    ensures r.Some? ==> at < r.value <= |bs|
    ensures r == if OneOp(bs[at..]).None? then None else Some(at + OneOp(bs[at..]).value)
  {
    hide DecodeSleb, Numbers;
    assert bs[at..][1..] == bs[at + 1..];
    if HasSignedOperand(bs[at]) {
      var d := DecodeSleb(bs[at + 1..]);
      r := if d.None? then None else Some(at + 1 + d.value.size);
    } else {
      r := SkipNumbers(bs, at + 1, UnsignedOperands(bs[at]));
    }
  }

  /** GetDebugInfoStreamSize. */
  method GetDebugInfoStreamSize(bs: seq<byte>) returns (size: Option<nat>)
    ensures size == StreamSize(bs)
  {
    hide DecodeUleb, Numbers, OneOp, Ops;
    var line := DecodeUleb(bs);
    if line.None? { return None; }
    var count := DecodeUleb(bs[line.value.size..]);
    if count.None? { return None; }
    var names := SkipNumbers(bs, line.value.size + count.value.size, count.value.value);
    if names.None? { return None; }
    var at := names.value;
    while true
      invariant names.value <= at <= |bs|
      invariant var rest := Ops(bs[at..]);
                Ops(bs[names.value..]) == if rest.None? then None else Some(at - names.value + rest.value)
      decreases |bs| - at
    {
      OpsStep(bs, at);
      if at == |bs| { return None; }
      var op := bs[at];
      var next := SkipOp(bs, at);
      if next.None? { return None; }
      at := next.value;
      if op == END_SEQUENCE { return Some(at); }
    }
  }

  lemma OpsStep(bs: seq<byte>, at: nat)
    requires at <= |bs|
    ensures at == |bs| ==> Ops(bs[at..]).None?
    ensures at < |bs| && OneOp(bs[at..]).None? ==> Ops(bs[at..]).None?
    ensures at < |bs| && OneOp(bs[at..]).Some? ==>
              var n := OneOp(bs[at..]).value;
              Ops(bs[at..]) == if bs[at] == END_SEQUENCE then Some(n)
                               else if Ops(bs[at + n..]).None? then None else Some(n + Ops(bs[at + n..]).value)
  {
    hide OneOp;
    if at < |bs| && OneOp(bs[at..]).Some? {
      assert bs[at..][OneOp(bs[at..]).value..] == bs[at + OneOp(bs[at..]).value..];
    }
  }

  // ---- the stream delimits itself

  lemma {:induction false} NumbersPrefix(a: seq<byte>, b: seq<byte>, n: nat)
    requires a <= b && Numbers(a, n).Some?
    ensures Numbers(b, n) == Numbers(a, n)
    decreases n
  {
    hide DecodeUleb;
    if n > 0 {
      var d := DecodeUleb(a).value;
      UlebPrefix(a, b);
      NumbersPrefix(a[d.size..], b[d.size..], n - 1);
    }
  }

  lemma {:induction false} OneOpPrefix(a: seq<byte>, b: seq<byte>)
    requires a <= b && OneOp(a).Some?
    ensures OneOp(b) == OneOp(a)
  {
    hide DecodeSleb, Numbers;
    if HasSignedOperand(a[0]) {
      SlebPrefix(a[1..], b[1..]);
    } else {
      NumbersPrefix(a[1..], b[1..], UnsignedOperands(a[0]));
    }
  }

  lemma {:induction false} OpsPrefix(a: seq<byte>, b: seq<byte>)
    requires a <= b && Ops(a).Some?
    ensures Ops(b) == Ops(a)
    decreases |a|
  {
    hide OneOp;
    OneOpPrefix(a, b);
    var n := OneOp(a).value;
    if a[0] != END_SEQUENCE {
      OpsPrefix(a[n..], b[n..]);
    }
  }

  /** A stream that ends is the same stream whatever follows it. */
  lemma {:induction false} StreamPrefix(a: seq<byte>, b: seq<byte>)
    requires a <= b && StreamSize(a).Some?
    ensures StreamSize(b) == StreamSize(a)
  {
    hide DecodeUleb, Numbers, Ops;
    var line := DecodeUleb(a).value;
    UlebPrefix(a, b);
    var count := DecodeUleb(a[line.size..]).value;
    UlebPrefix(a[line.size..], b[line.size..]);
    var o := line.size + count.size;
    NumbersPrefix(a[o..], b[o..], count.value);
    var names := Numbers(a[o..], count.value).value;
    OpsPrefix(a[o + names..], b[o + names..]);
  }

  lemma {:induction false} NumbersWithin(bs: seq<byte>, n: nat, m: nat)
    requires Numbers(bs, n).Some? && Numbers(bs, n).value <= m <= |bs|
    ensures Numbers(bs[..m], n) == Numbers(bs, n)
    decreases n
  {
    hide DecodeUleb;
    if n > 0 {
      var d := DecodeUleb(bs).value;
      UlebWithin(bs, m);
      NumbersWithin(bs[d.size..], n - 1, m - d.size);
      assert bs[..m][d.size..] == bs[d.size..][..m - d.size];
    }
  }

  lemma {:induction false} OneOpWithin(bs: seq<byte>, m: nat)
    requires OneOp(bs).Some? && OneOp(bs).value <= m <= |bs|
    ensures OneOp(bs[..m]) == OneOp(bs)
  {
    hide DecodeSleb, Numbers;
    assert bs[..m][1..] == bs[1..][..m - 1];
    if HasSignedOperand(bs[0]) {
      SlebWithin(bs[1..], m - 1);
    } else {
      NumbersWithin(bs[1..], UnsignedOperands(bs[0]), m - 1);
    }
  }

  lemma {:induction false} OpsWithin(bs: seq<byte>, m: nat)
    requires Ops(bs).Some? && Ops(bs).value <= m <= |bs|
    ensures Ops(bs[..m]) == Ops(bs)
    decreases |bs|
  {
    hide OneOp;
    OneOpWithin(bs, m);
    var n := OneOp(bs).value;
    if bs[0] != END_SEQUENCE {
      OpsWithin(bs[n..], m - n);
      assert bs[..m][n..] == bs[n..][..m - n];
    }
  }

  /** What is taken out of a file is a whole stream. */
  lemma {:induction false} StreamWithin(bs: seq<byte>)
    requires StreamSize(bs).Some?
    ensures var n := StreamSize(bs).value; StreamSize(bs[..n]) == Some(n)
  {
    hide DecodeUleb, Numbers, Ops;
    var m := StreamSize(bs).value;
    var line := DecodeUleb(bs).value;
    UlebWithin(bs, m);
    var count := DecodeUleb(bs[line.size..]).value;
    UlebWithin(bs[line.size..], m - line.size);
    var o := line.size + count.size;
    NumbersWithin(bs[o..], count.value, m - o);
    var o' := o + Numbers(bs[o..], count.value).value;
    OpsWithin(bs[o'..], m - o');
    assert bs[..m][line.size..] == bs[line.size..][..m - line.size];
    assert bs[..m][o..] == bs[o..][..m - o];
    assert bs[..m][o'..] == bs[o'..][..m - o'];
  }
}
