/**
 What the control flow graph of a method has to show: blocks of instructions, and
 the transfers of control between instructions, normal and exceptional.
 */
module Cfg {

  /** Targets and handlers are absolute pcs; a target need not be an instruction. */
  datatype Op = Plain | Goto(target: int) | If(target: int) | Switch(targets: seq<int>) | Return | Throw

  datatype Inst = Inst(size: nat, op: Op, handlers: set<nat>)

  /** Instructions tile the code; data between them counts as instructions, too. */
  type Code = code: seq<Inst> | forall i :: 0 <= i < |code| ==> code[i].size > 0 witness []

  function Pc(code: Code, i: nat): (pc: nat)
    requires i <= |code|
  {
    if i == 0 then 0 else Pc(code, i - 1) + code[i - 1].size
  }

  lemma {:induction false} PcGrows(code: Code, i: nat, j: nat)
    requires i < j <= |code|
    ensures Pc(code, i) < Pc(code, j)
    decreases j
  {
    if i < j - 1 {
      PcGrows(code, i, j - 1);
    }
  }

  lemma PcInjective(code: Code, i: nat, j: nat)
    requires i < |code| && j < |code| && Pc(code, i) == Pc(code, j)
    ensures i == j
  {
    if i < j { PcGrows(code, i, j); } else if j < i { PcGrows(code, j, i); }
  }

  // ---- instructions

  predicate IsBranch(op: Op) { op.Goto? || op.If? }

  predicate IsBasicBlockEnd(op: Op) { IsBranch(op) || op.Return? || op.Throw? }

  predicate FallsThrough(op: Op) { !op.Goto? && !op.Return? && !op.Throw? }

  /** Where a branch or switch can go. */
  function Targets(op: Op): (ts: seq<int>) {
    match op
    case Goto(target) => [target]
    case If(target) => [target]
    case Switch(targets) => targets
    case _ => []
  }

  // ---- blocks

  ghost predicate IsTarget(code: Code, pc: int) {
    exists i :: 0 <= i < |code| && pc in Targets(code[i].op)
  }

  /** Instruction i starts a block. */
  ghost predicate Leader(code: Code, i: nat)
    requires i < |code|
  {
    i == 0 || IsTarget(code, Pc(code, i)) || code[i - 1].op.Switch? || IsBasicBlockEnd(code[i - 1].op)
  }

  /** How many blocks start among the first n instructions. */
  ghost function Leaders(code: Code, n: nat): (c: nat)
    requires n <= |code|
    ensures n > 0 ==> c > 0
  {
    if n == 0 then 0 else Leaders(code, n - 1) + if Leader(code, n - 1) then 1 else 0
  }

  /** The block that instruction i is in. */
  ghost function NodeOf(code: Code, i: nat): (node: nat)
    requires i < |code|
  {
    Leaders(code, i + 1) - 1
  }

  /** The first instruction of the block that i is in. */
  ghost function BlockStart(code: Code, i: nat): (b: nat)
    requires i < |code|
    ensures b <= i && Leader(code, b)
  {
    if Leader(code, i) then i else BlockStart(code, i - 1)
  }

  lemma {:induction false} SameBlock(code: Code, i: nat)
    requires i < |code|
    ensures NodeOf(code, BlockStart(code, i)) == NodeOf(code, i)
  {
    hide Leader;
    if !Leader(code, i) {
      FirstIsLeader(code);
      SameBlock(code, i - 1);
    }
  }

  lemma FirstIsLeader(code: Code)
    requires code != []
    ensures Leader(code, 0)
  {
  }

  /** Instructions i to e are in one block. */
  ghost predicate OneBlock(code: Code, i: nat, e: nat) {
    i <= e < |code| && forall k :: i < k <= e ==> !Leader(code, k)
  }

  lemma {:induction false} OneBlockNode(code: Code, i: nat, e: nat)
    requires OneBlock(code, i, e)
    ensures NodeOf(code, i) == NodeOf(code, e) && BlockStart(code, i) == BlockStart(code, e)
    decreases e
  {
    hide Leader;
    if i < e {
      OneBlockNode(code, i, e - 1);
    }
  }

  lemma {:induction false} FromStart(code: Code, i: nat)
    requires i < |code|
    ensures OneBlock(code, BlockStart(code, i), i)
  {
    hide Leader;
    if !Leader(code, i) {
      FirstIsLeader(code);
      FromStart(code, i - 1);
    }
  }

  lemma StartOfLeader(code: Code, i: nat)
    requires i < |code| && Leader(code, i)
    ensures BlockStart(code, i) == i
  {
    hide Leader;
  }

  /** Nothing but the end of a block leaves the straight line. */
  lemma InsideBlock(code: Code, i: nat)
    requires 0 < i < |code| && !Leader(code, i)
    ensures FallsThrough(code[i - 1].op) && !IsBasicBlockEnd(code[i - 1].op) && NodeOf(code, i) == NodeOf(code, i - 1)
  {
  }

  // ---- transfers of control

  /** Control can go from instruction i to instruction j without an exception. */
  predicate Transfers(code: Code, i: nat, j: nat)
    requires i < |code| && j < |code|
  {
    (j == i + 1 && FallsThrough(code[i].op)) || Pc(code, j) in Targets(code[i].op)
  }

  datatype Edge = Edge(node: nat, pc: nat, toNode: nat, toPc: nat)

  /** From somewhere in a block, or from the given pc. */
  datatype ExceptionEdge = ExceptionEdge(node: nat, pc: From, toNode: nat, toPc: nat)
  datatype From = Anywhere | At(pc: nat)

  ghost function EdgeOf(code: Code, i: nat, j: nat): (e: Edge)
    requires i < |code| && j < |code|
  {
    Edge(NodeOf(code, i), Pc(code, i), NodeOf(code, j), Pc(code, j))
  }

  /** A transfer stays inside a block or has an edge, and branches lead to block starts. */
  ghost predicate Covers(code: Code, regular: set<Edge>, taken: set<Edge>) {
    forall i, j :: 0 <= i < |code| && 0 <= j < |code| && Transfers(code, i, j) ==>
      || (j == i + 1 && !Leader(code, j) && NodeOf(code, j) == NodeOf(code, i))
      || (EdgeOf(code, i, j) in regular + taken && Leader(code, j))
  }

  /** Every edge is a transfer. */
  ghost predicate Sound(code: Code, regular: set<Edge>, taken: set<Edge>) {
    forall e :: e in regular + taken ==> IsTransfer(code, e)
  }

  ghost predicate IsTransfer(code: Code, e: Edge) {
    exists i, j :: 0 <= i < |code| && 0 <= j < |code| && Transfers(code, i, j) && e == EdgeOf(code, i, j)
  }

  /** The exception edges of instruction i to its handler at instruction j. */
  ghost predicate Shows(code: Code, edges: set<ExceptionEdge>, i: nat, j: nat)
    requires i < |code| && j < |code|
  {
    || ExceptionEdge(NodeOf(code, i), Anywhere, NodeOf(code, j), Pc(code, j)) in edges
    || ExceptionEdge(NodeOf(code, i), At(Pc(code, i)), NodeOf(code, j), Pc(code, j)) in edges
  }

  ghost predicate CoversExceptions(code: Code, edges: set<ExceptionEdge>) {
    forall i, j :: 0 <= i < |code| && 0 <= j < |code| && Pc(code, j) in code[i].handlers ==> Shows(code, edges, i, j)
  }

  /** Some instruction that the edge speaks of has this handler. */
  ghost predicate IsException(code: Code, e: ExceptionEdge) {
    exists i, j :: 0 <= i < |code| && 0 <= j < |code| && Pc(code, j) in code[i].handlers
      && e.node == NodeOf(code, i) && (e.pc == Anywhere || e.pc == At(Pc(code, i)))
      && e.toNode == NodeOf(code, j) && e.toPc == Pc(code, j)
  }

  ghost predicate SoundExceptions(code: Code, edges: set<ExceptionEdge>) {
    forall e :: e in edges ==> IsException(code, e)
  }

  // ---- the common handlers of a block

  /** What is accumulated up to instruction i: its handlers, or nothing after a mismatch. */
  ghost function Common(code: Code, i: nat): (hs: set<nat>)
    requires i < |code|
    ensures hs <= code[i].handlers
  {
    if Leader(code, i) || Common(code, i - 1) <= code[i].handlers then code[i].handlers else {}
  }

  ghost predicate Mismatch(code: Code, i: nat)
    requires i < |code|
  {
    !Leader(code, i) && !(Common(code, i - 1) <= code[i].handlers)
  }

  /** Without a mismatch between, the handlers of an instruction are still there later. */
  lemma {:induction false} CommonKeeps(code: Code, i: nat, e: nat)
    requires OneBlock(code, i, e) && forall k :: i <= k <= e ==> !Mismatch(code, k)
    ensures code[i].handlers <= Common(code, e)
    decreases e
  {
    hide Leader;
    FirstIsLeader(code);
    assert !Mismatch(code, e);
    if i < e {
      CommonKeeps(code, i, e - 1);
    }
  }

  /** The last instruction of the block that i is in. */
  ghost function BlockEnd(code: Code, i: nat): (e: nat)
    requires i < |code|
    ensures i <= e < |code| && (e + 1 == |code| || Leader(code, e + 1))
    decreases |code| - i
  {
    if i + 1 == |code| || Leader(code, i + 1) then i else BlockEnd(code, i + 1)
  }

  lemma {:induction false} ToEnd(code: Code, i: nat)
    requires i < |code|
    ensures OneBlock(code, i, BlockEnd(code, i))
    decreases |code| - i
  {
    hide Leader;
    if !(i + 1 == |code| || Leader(code, i + 1)) {
      ToEnd(code, i + 1);
    }
  }

  // ---- enough for all exceptions

  /** The common handlers at instruction i have edges from its block. */
  ghost predicate Flushed(code: Code, i: nat, edges: set<ExceptionEdge>)
    requires i < |code|
  {
    forall j :: 0 <= j < |code| && Pc(code, j) in Common(code, i) ==>
      ExceptionEdge(NodeOf(code, i), Anywhere, NodeOf(code, j), Pc(code, j)) in edges
  }

  /** The handlers of instruction i have edges from its pc. */
  ghost predicate Detailed(code: Code, i: nat, edges: set<ExceptionEdge>)
    requires i < |code|
  {
    forall j :: 0 <= j < |code| && Pc(code, j) in code[i].handlers ==>
      ExceptionEdge(NodeOf(code, i), At(Pc(code, i)), NodeOf(code, j), Pc(code, j)) in edges
  }

  ghost predicate DetailedBlock(code: Code, b: nat, edges: set<ExceptionEdge>) {
    forall i :: 0 <= i < |code| && BlockStart(code, i) == b ==> Detailed(code, i, edges)
  }

  /** Blocks whose end is flushed, and details wherever there is a mismatch, leave nothing out. */
  lemma {:induction false} ExceptionsCovered(code: Code, edges: set<ExceptionEdge>)
    requires forall e :: 0 <= e < |code| && (e + 1 == |code| || Leader(code, e + 1)) ==> Flushed(code, e, edges)
    requires forall k :: 0 <= k < |code| && Mismatch(code, k) ==> DetailedBlock(code, BlockStart(code, k), edges)
    ensures CoversExceptions(code, edges)
  {
    hide Leader, Mismatch, Common, NodeOf, Pc;
    forall i: nat, j: nat | i < |code| && j < |code| && Pc(code, j) in code[i].handlers
      ensures Shows(code, edges, i, j)
    {
      var e := BlockEnd(code, i);
      ToEnd(code, i);
      if k :| i <= k <= e && Mismatch(code, k) {
        OneBlockNode(code, i, k);
        assert Detailed(code, i, edges);
      } else {
        CommonKeeps(code, i, e);
        OneBlockNode(code, i, e);
        assert Flushed(code, e, edges);
      }
    }
  }
}
