/**
 DumpMethodCFG: the passes over the code that find block starts, number the blocks,
 and emit edges.
 */
module CfgDump {
  import opened Cfg

  /** Where branches and switches lead, as a set. */
  method BranchTargets(code: Code) returns (targets: set<int>)
    ensures forall pc :: pc in targets <==> IsTarget(code, pc)
  {
    targets := {};
    for i := 0 to |code|
      invariant forall pc :: pc in targets <==> exists k :: 0 <= k < i && pc in Targets(code[k].op)
    {
      var ts := Targets(code[i].op);
      for t := 0 to |ts|
        invariant forall pc :: pc in targets <==> (exists k :: 0 <= k < i && pc in Targets(code[k].op)) || pc in ts[..t]
      {
        targets := targets + {ts[t]};
      }
      assert ts[..|ts|] == ts;
    }
  }

  // ---- numbering

  ghost predicate BlockAt(code: Code, n: nat, pc: int) {
    exists i :: 0 <= i < n <= |code| && pc == Pc(code, i) && Leader(code, i)
  }

  ghost predicate InstAt(code: Code, n: nat, pc: int) {
    exists i :: 0 <= i < n <= |code| && pc == Pc(code, i)
  }

  /** The blocks that start among the first n instructions, numbered in order. */
  ghost predicate Nodes(code: Code, n: nat, nodeId: map<int, nat>) {
    && n <= |code| && |nodeId| == Leaders(code, n)
    && (forall i :: 0 <= i < n && Leader(code, i) ==> Pc(code, i) in nodeId && nodeId[Pc(code, i)] == NodeOf(code, i))
    && (forall pc :: pc in nodeId ==> BlockAt(code, n, pc))
  }

  /** The block of each of the first n instructions. */
  ghost predicate Includes(code: Code, n: nat, inclId: map<int, nat>) {
    && n <= |code|
    && (forall i :: 0 <= i < n ==> Pc(code, i) in inclId && inclId[Pc(code, i)] == NodeOf(code, i))
    && (forall pc :: pc in inclId ==> InstAt(code, n, pc))
  }

  lemma LeadersStep(code: Code, i: nat)
    requires i < |code|
    ensures Leaders(code, i + 1) == Leaders(code, i) + if Leader(code, i) then 1 else 0
    ensures Leader(code, i) ==> NodeOf(code, i) == Leaders(code, i)
  {
    hide Leader;
  }

  lemma {:induction false} NodesStep(code: Code, i: nat, nodeId: map<int, nat>)
    requires i < |code| && Nodes(code, i, nodeId)
    ensures Nodes(code, i + 1, if Leader(code, i) then nodeId[Pc(code, i) := |nodeId|] else nodeId)
  {
    hide Leader, Pc, NodeOf, Leaders;
    LeadersStep(code, i);
    NotNumbered(code, i, nodeId);
    var nodeId' := if Leader(code, i) then nodeId[Pc(code, i) := |nodeId|] else nodeId;
    forall k | 0 <= k < i ensures Pc(code, k) != Pc(code, i) { PcGrows(code, k, i); }
    forall pc | pc in nodeId' ensures BlockAt(code, i + 1, pc) {
      if pc in nodeId {
        var k :| 0 <= k < i && pc == Pc(code, k) && Leader(code, k);
      }
    }
  }

  lemma NotNumbered(code: Code, i: nat, nodeId: map<int, nat>)
    requires i < |code| && Nodes(code, i, nodeId)
    ensures Pc(code, i) !in nodeId
  {
    hide Leader, Pc, NodeOf, Leaders;
    if Pc(code, i) in nodeId {
      assert BlockAt(code, i, Pc(code, i));
      var k :| 0 <= k < i && Pc(code, i) == Pc(code, k) && Leader(code, k);
      PcGrows(code, k, i);
    }
  }

  lemma {:induction false} IncludesStep(code: Code, i: nat, inclId: map<int, nat>)
    requires i < |code| && Includes(code, i, inclId)
    ensures Includes(code, i + 1, inclId[Pc(code, i) := NodeOf(code, i)])
  {
    hide NodeOf, Pc;
    forall k | 0 <= k < i ensures Pc(code, k) != Pc(code, i) { PcGrows(code, k, i); }
    var inclId' := inclId[Pc(code, i) := NodeOf(code, i)];
    forall pc | pc in inclId' ensures InstAt(code, i + 1, pc) {
      if pc in inclId {
        var k :| 0 <= k < i && pc == Pc(code, k);
      }
    }
  }

  method NumberBlocks(code: Code, targets: set<int>) returns (nodeId: map<int, nat>, inclId: map<int, nat>)
    requires forall pc :: pc in targets <==> IsTarget(code, pc)
    ensures Nodes(code, |code|, nodeId) && Includes(code, |code|, inclId)
  {
    hide Nodes, Includes, NodeOf;
    nodeId, inclId := map[], map[];
    NothingNumbered(code);
    var forceNewBlock, pc := false, 0;
    for i := 0 to |code|
      invariant pc == Pc(code, i) && Nodes(code, i, nodeId) && Includes(code, i, inclId)
      invariant forceNewBlock == (i > 0 && (code[i - 1].op.Switch? || IsBasicBlockEnd(code[i - 1].op)))
    {
      NodesStep(code, i, nodeId);
      IncludesStep(code, i, inclId);
      if pc == 0 || pc in targets || forceNewBlock {
        if i > 0 { PcGrows(code, 0, i); }
        nodeId := nodeId[pc := |nodeId|];
      } else {
        assert i > 0;
      }
      NodesCount(code, i, nodeId);
      inclId := inclId[pc := |nodeId| - 1];
      forceNewBlock := code[i].op.Switch? || IsBasicBlockEnd(code[i].op);
      pc := pc + code[i].size;
    }
  }

  lemma NothingNumbered(code: Code)
    ensures Nodes(code, 0, map[]) && Includes(code, 0, map[])
  {
  }

  lemma NodesCount(code: Code, i: nat, nodeId: map<int, nat>)
    requires i < |code| && Nodes(code, i + 1, nodeId)
    ensures |nodeId| - 1 == NodeOf(code, i)
  {
    hide Leader, Pc;
  }

  // ---- edges

  ghost predicate RegularDone(code: Code, n: nat, regular: set<Edge>) {
    && n <= |code|
    && (forall i :: 0 < i < n && Leader(code, i) && FallsThrough(code[i - 1].op) ==> EdgeOf(code, i - 1, i) in regular)
    && (forall e :: e in regular ==> IsTransfer(code, e))
  }

  ghost predicate TakenDone(code: Code, n: nat, taken: set<Edge>) {
    && n <= |code|
    && (forall i, j :: 0 <= i < n && 0 <= j < |code| && Pc(code, j) in Targets(code[i].op) ==>
          EdgeOf(code, i, j) in taken)
    && (forall e :: e in taken ==> IsTransfer(code, e))
  }

  lemma {:induction false} RegularStep(code: Code, i: nat, regular: set<Edge>)
    requires i < |code| && RegularDone(code, i, regular)
    ensures RegularDone(code, i + 1, if i > 0 && Leader(code, i) && FallsThrough(code[i - 1].op)
                                     then regular + {EdgeOf(code, i - 1, i)} else regular)
  {
    hide Leader, EdgeOf;
    if i > 0 && FallsThrough(code[i - 1].op) {
      assert Transfers(code, i - 1, i);
      assert IsTransfer(code, EdgeOf(code, i - 1, i));
    }
  }

  /** The edges that a branch or switch at `pc` adds. */
  ghost function TakenEdges(node: nat, pc: nat, ts: seq<int>, nodeId: map<int, nat>): (es: set<Edge>)
    requires forall t :: t in nodeId ==> t >= 0
  {
    set t | t in ts && t in nodeId :: Edge(node, pc, nodeId[t], t)
  }

  method AddTakenEdges(taken0: set<Edge>, node: nat, pc: nat, ts: seq<int>, nodeId: map<int, nat>)
    returns (taken: set<Edge>)
    requires forall t :: t in nodeId ==> t >= 0
    ensures taken == taken0 + TakenEdges(node, pc, ts, nodeId)
  {
    taken := taken0;
    for i := 0 to |ts|
      invariant taken == taken0 + TakenEdges(node, pc, ts[..i], nodeId)
    {
      assert ts[..i + 1] == ts[..i] + [ts[i]];
      TakenOneMore(node, pc, ts[..i], ts[i], nodeId);
      if ts[i] in nodeId {
        taken := taken + {Edge(node, pc, nodeId[ts[i]], ts[i])};
      }
    }
    assert ts[..|ts|] == ts;
  }

  lemma TakenOneMore(node: nat, pc: nat, ts: seq<int>, t: int, nodeId: map<int, nat>)
    requires forall t :: t in nodeId ==> t >= 0
    ensures TakenEdges(node, pc, ts + [t], nodeId)
         == TakenEdges(node, pc, ts, nodeId) + if t in nodeId then {Edge(node, pc, nodeId[t], t)} else {}
  {
  }

  lemma {:induction false} TakenStep(code: Code, i: nat, taken: set<Edge>, nodeId: map<int, nat>)
    requires i < |code| && TakenDone(code, i, taken) && Nodes(code, |code|, nodeId)
    ensures forall t :: t in nodeId ==> t >= 0
    ensures TakenDone(code, i + 1, taken + TakenEdges(NodeOf(code, i), Pc(code, i), Targets(code[i].op), nodeId))
  {
    hide Nodes, NodeOf, Pc, TakenEdges, IsTransfer;
    NodesArePcs(code, nodeId);
    var more := TakenEdges(NodeOf(code, i), Pc(code, i), Targets(code[i].op), nodeId);
    forall e | e in more ensures IsTransfer(code, e) {
      TakenIsTransfer(code, i, nodeId, e);
    }
    forall j: nat | j < |code| && Pc(code, j) in Targets(code[i].op) ensures EdgeOf(code, i, j) in more {
      TransferIsTaken(code, i, nodeId, j);
    }
  }

  lemma TakenIsTransfer(code: Code, i: nat, nodeId: map<int, nat>, e: Edge)
    requires i < |code| && Nodes(code, |code|, nodeId) && forall t :: t in nodeId ==> t >= 0
    requires e in TakenEdges(NodeOf(code, i), Pc(code, i), Targets(code[i].op), nodeId)
    ensures IsTransfer(code, e)
  {
    hide Nodes, NodeOf, Pc;
    var t :| t in Targets(code[i].op) && t in nodeId && e == Edge(NodeOf(code, i), Pc(code, i), nodeId[t], t);
    var j := NodeHasPc(code, nodeId, t);
    assert Transfers(code, i, j) && e == EdgeOf(code, i, j);
  }

  lemma TransferIsTaken(code: Code, i: nat, nodeId: map<int, nat>, j: nat)
    requires i < |code| && Nodes(code, |code|, nodeId) && forall t :: t in nodeId ==> t >= 0
    requires j < |code| && Pc(code, j) in Targets(code[i].op)
    ensures EdgeOf(code, i, j) in TakenEdges(NodeOf(code, i), Pc(code, i), Targets(code[i].op), nodeId)
  {
    hide Nodes, NodeOf, Pc;
    TargetIsLeader(code, i, j);
    NodeAtLeader(code, nodeId, j);
  }

  lemma NodesArePcs(code: Code, nodeId: map<int, nat>)
    requires Nodes(code, |code|, nodeId)
    ensures forall t :: t in nodeId ==> t >= 0
  {
    hide Leader, NodeOf, Pc;
    forall t | t in nodeId ensures t >= 0 {
      assert BlockAt(code, |code|, t);
    }
  }

  lemma NodeHasPc(code: Code, nodeId: map<int, nat>, t: int) returns (j: nat)
    requires Nodes(code, |code|, nodeId) && t in nodeId
    ensures j < |code| && t == Pc(code, j) && nodeId[t] == NodeOf(code, j)
  {
    hide Leader, NodeOf, Pc;
    assert BlockAt(code, |code|, t);
    j :| 0 <= j < |code| && t == Pc(code, j) && Leader(code, j);
  }

  lemma NodeAtLeader(code: Code, nodeId: map<int, nat>, j: nat)
    requires Nodes(code, |code|, nodeId) && j < |code| && Leader(code, j)
    ensures Pc(code, j) in nodeId && nodeId[Pc(code, j)] == NodeOf(code, j)
  {
    hide Leader, NodeOf, Pc;
  }

  /** An instruction that is branched to starts a block. */
  lemma TargetIsLeader(code: Code, i: nat, j: nat)
    requires i < |code| && j < |code| && Pc(code, j) in Targets(code[i].op)
    ensures Leader(code, j)
  {
    assert IsTarget(code, Pc(code, j));
  }

  /** A block start is found, and only a block start. */
  lemma IsNode(code: Code, nodeId: map<int, nat>, i: nat)
    requires Nodes(code, |code|, nodeId) && i < |code|
    ensures Pc(code, i) in nodeId <==> Leader(code, i)
    ensures Leader(code, i) ==> nodeId[Pc(code, i)] == NodeOf(code, i)
  {
    hide Leader, NodeOf, Pc;
    if Pc(code, i) in nodeId {
      assert BlockAt(code, |code|, Pc(code, i));
      var k :| 0 <= k < |code| && Pc(code, i) == Pc(code, k) && Leader(code, k);
      PcInjective(code, i, k);
    }
  }

  // ---- exception edges

  ghost function EdgesTo(node: nat, from: From, targets: set<nat>, inclId: map<int, nat>): (es: set<ExceptionEdge>) {
    set h | h in targets && h in inclId :: ExceptionEdge(node, from, inclId[h], h)
  }

  method AddExceptionEdges(edges0: set<ExceptionEdge>, node: nat, from: From, targets: set<nat>, inclId: map<int, nat>)
    returns (edges: set<ExceptionEdge>)
    ensures edges == edges0 + EdgesTo(node, from, targets, inclId)
  {
    edges := edges0;
    var rest := targets;
    while rest != {}
      invariant rest <= targets && edges == edges0 + EdgesTo(node, from, targets - rest, inclId)
    {
      var h :| h in rest;
      ghost var done := targets - rest;
      rest := rest - {h};
      assert targets - rest == done + {h};
      EdgesToOneMore(node, from, done, h, inclId);
      if h in inclId {
        edges := edges + {ExceptionEdge(node, from, inclId[h], h)};
      }
    }
    assert targets - {} == targets;
  }

  lemma EdgesToOneMore(node: nat, from: From, done: set<nat>, h: nat, inclId: map<int, nat>)
    ensures EdgesTo(node, from, done + {h}, inclId)
         == EdgesTo(node, from, done, inclId) + if h in inclId then {ExceptionEdge(node, from, inclId[h], h)} else {}
  {
  }

  /** Edges to the handlers of instruction i, or to some of them: all true, none missing. */
  lemma {:induction false} NewEdges(code: Code, i: nat, from: From, targets: set<nat>, inclId: map<int, nat>)
    requires i < |code| && Includes(code, |code|, inclId) && targets <= code[i].handlers
    requires from == Anywhere || from == At(Pc(code, i))
    ensures SoundExceptions(code, EdgesTo(NodeOf(code, i), from, targets, inclId))
    ensures forall j :: 0 <= j < |code| && Pc(code, j) in targets ==>
              ExceptionEdge(NodeOf(code, i), from, NodeOf(code, j), Pc(code, j))
              in EdgesTo(NodeOf(code, i), from, targets, inclId)
  {
    hide NodeOf, Pc, InstAt;
    var es := EdgesTo(NodeOf(code, i), from, targets, inclId);
    forall e | e in es ensures IsException(code, e) {
      var h :| h in targets && h in inclId && e == ExceptionEdge(NodeOf(code, i), from, inclId[h], h);
      InstHasPc(code, h);
      var j :| 0 <= j < |code| && h == Pc(code, j);
    }
  }

  lemma InstHasPc(code: Code, pc: int)
    requires InstAt(code, |code|, pc)
    ensures exists j :: 0 <= j < |code| && pc == Pc(code, j)
  {
    hide Pc;
  }

  /** The finished blocks among the first n instructions have their common edges. */
  ghost predicate CoarseDone(code: Code, n: nat, edges: set<ExceptionEdge>) {
    && n <= |code| && SoundExceptions(code, edges)
    && forall k :: 0 <= k < n - 1 && Leader(code, k + 1) ==> Flushed(code, k, edges)
  }

  lemma {:induction false} FlushStep(code: Code, i: nat, edges: set<ExceptionEdge>, inclId: map<int, nat>)
    requires 0 < i <= |code| && CoarseDone(code, i, edges) && Includes(code, |code|, inclId)
    ensures var edges' := edges + EdgesTo(NodeOf(code, i - 1), Anywhere, Common(code, i - 1), inclId);
            && SoundExceptions(code, edges') && Flushed(code, i - 1, edges')
            && forall k :: 0 <= k < i - 1 && Leader(code, k + 1) ==> Flushed(code, k, edges')
  {
    hide NodeOf, Pc, Leader, Common, IsException, Includes, EdgesTo;
    NewEdges(code, i - 1, Anywhere, Common(code, i - 1), inclId);
    var edges' := edges + EdgesTo(NodeOf(code, i - 1), Anywhere, Common(code, i - 1), inclId);
    forall k | 0 <= k < i - 1 && Leader(code, k + 1) ensures Flushed(code, k, edges') {
      assert Flushed(code, k, edges);
    }
  }

  ghost predicate DetailedDone(code: Code, n: nat, detailed: set<nat>) {
    && n <= |code|
    && (forall k :: 0 <= k < n && Mismatch(code, k) ==> Pc(code, BlockStart(code, k)) in detailed)
    && (forall pc :: pc in detailed ==> BlockAt(code, |code|, pc))
  }

  lemma {:induction false} DetailedStep(code: Code, i: nat, detailed: set<nat>)
    requires i < |code| && DetailedDone(code, i, detailed)
    ensures DetailedDone(code, i + 1,
                         if Mismatch(code, i) then detailed + {Pc(code, BlockStart(code, i))} else detailed)
  {
    hide Leader, Pc, Mismatch;
  }

  // ---- the pass that emits edges

  /** The node that falls through to the next instruction, if any. */
  datatype Last = NoNode | Node(id: nat)

  ghost predicate LastRight(code: Code, i: nat, last: Last) {
    i <= |code| && last == if i > 0 && FallsThrough(code[i - 1].op) then Node(NodeOf(code, i - 1)) else NoNode
  }

  /** The handlers collected for the block that is open before instruction i. */
  ghost predicate TargetsRight(code: Code, i: nat, blockStart: nat, targets: set<nat>) {
    && i <= |code|
    && (i == 0 ==> targets == {})
    && (i > 0 ==> targets == Common(code, i - 1) && blockStart == Pc(code, BlockStart(code, i - 1)))
  }

  /** A new block: the common handlers of the one before are flushed at its end. */
  method EnterBlock(code: Code, i: nat, nodeId: map<int, nat>, inclId: map<int, nat>, blockStart: nat,
                    targets: set<nat>, edges0: set<ExceptionEdge>)
    returns (edges: set<ExceptionEdge>)
    requires i < |code| && Nodes(code, |code|, nodeId) && Includes(code, |code|, inclId)
    requires CoarseDone(code, i, edges0) && TargetsRight(code, i, blockStart, targets)
    ensures CoarseDone(code, i + 1, edges)
  {
    hide Nodes, Includes, Leader, Common, NodeOf, Pc, IsException, EdgesTo, Flushed;
    edges := edges0;
    if i > 0 {
      FlushStep(code, i, edges0, inclId);
      SameBlock(code, i - 1);
      if targets != {} {
        NodeAtLeader(code, nodeId, BlockStart(code, i - 1));
        edges := AddExceptionEdges(edges, nodeId[blockStart], Anywhere, targets, inclId);
      } else {
        NothingToFlush(code, i - 1, inclId, edges0);
      }
    }
  }

  lemma NothingToFlush(code: Code, i: nat, inclId: map<int, nat>, edges: set<ExceptionEdge>)
    requires i < |code| && Common(code, i) == {}
    ensures edges + EdgesTo(NodeOf(code, i), Anywhere, Common(code, i), inclId) == edges
  {
  }

  lemma LastFalls(code: Code, i: nat, last: Last)
    requires i < |code| && LastRight(code, i, last) && !Leader(code, i)
    ensures last == Node(NodeOf(code, i))
  {
    FirstIsLeader(code);
    InsideBlock(code, i);
  }

  lemma StartPc(code: Code, i: nat, blockStart: nat)
    requires i < |code| && blockStart == Pc(code, BlockStart(code, i))
    ensures blockStart == Pc(code, i) <==> Leader(code, i)
  {
    hide Leader, Pc;
    if Leader(code, i) {
      StartOfLeader(code, i);
    }
    if blockStart == Pc(code, i) {
      PcInjective(code, i, BlockStart(code, i));
    }
  }

  lemma CommonStep(code: Code, i: nat, targets: set<nat>, blockStart: nat)
    requires i < |code|
    requires if Leader(code, i) then targets == {} && blockStart == Pc(code, i)
             else TargetsRight(code, i, blockStart, targets)
    ensures blockStart == Pc(code, BlockStart(code, i))
    ensures Mismatch(code, i) <==> !Leader(code, i) && code[i].handlers != targets + code[i].handlers
    ensures Common(code, i) == if Mismatch(code, i) then {} else targets + code[i].handlers
  {
    hide Leader, Pc;
    if Leader(code, i) {
      StartOfLeader(code, i);
    } else {
      FirstIsLeader(code);
    }
  }

  lemma CoarseStay(code: Code, i: nat, edges: set<ExceptionEdge>)
    requires i < |code| && CoarseDone(code, i, edges) && !Leader(code, i)
    ensures CoarseDone(code, i + 1, edges)
  {
    hide Leader, Flushed, SoundExceptions;
  }

  method EmitEdges(code: Code, nodeId: map<int, nat>, inclId: map<int, nat>)
    returns (regular: set<Edge>, taken: set<Edge>, edges: set<ExceptionEdge>, detailed: set<nat>)
    requires Nodes(code, |code|, nodeId) && Includes(code, |code|, inclId)
    ensures RegularDone(code, |code|, regular) && TakenDone(code, |code|, taken)
    ensures DetailedDone(code, |code|, detailed) && SoundExceptions(code, edges)
    ensures forall e :: 0 <= e < |code| && (e + 1 == |code| || Leader(code, e + 1)) ==> Flushed(code, e, edges)
  {
    hide Nodes, Includes, Leader, Common, NodeOf, IsTransfer, EdgesTo, Flushed, RegularDone, TakenDone, DetailedDone,
         CoarseDone, SoundExceptions, Mismatch, TakenEdges, BlockStart, Targets;
    regular, taken, edges, detailed := {}, {}, {}, {};
    NothingEmitted(code);
    var last, oldPc: nat, blockStart: nat, targets: set<nat>, pc: nat := NoNode, 0, 0, {}, 0;
    for i := 0 to |code|
      invariant pc == Pc(code, i) && (i > 0 ==> oldPc == Pc(code, i - 1))
      invariant LastRight(code, i, last) && TargetsRight(code, i, blockStart, targets)
      invariant RegularDone(code, i, regular) && TakenDone(code, i, taken)
      invariant DetailedDone(code, i, detailed) && CoarseDone(code, i, edges)
    {
      IsNode(code, nodeId, i);
      RegularStep(code, i, regular);
      TakenStep(code, i, taken, nodeId);
      DetailedStep(code, i, detailed);
      if pc in nodeId {
        edges := EnterBlock(code, i, nodeId, inclId, blockStart, targets, edges);
        targets, blockStart := {}, pc;
        var before := last;
        last := Node(nodeId[pc]);
        if before.Node? {
          regular := regular + {Edge(before.id, oldPc, last.id, pc)};
        }
      } else {
        LastFalls(code, i, last);
        CoarseStay(code, i, edges);
      }
      CommonStep(code, i, targets, blockStart);
      StartPc(code, i, blockStart);
      targets := targets + code[i].handlers;
      taken := AddTakenEdges(taken, last.id, pc, Targets(code[i].op), nodeId);
      if blockStart != pc && code[i].handlers != targets {
        targets := {};
        detailed := detailed + {blockStart};
      }
      if code[i].op.Return? || code[i].op.Throw? || code[i].op.Goto? {
        last := NoNode;
      }
      oldPc := pc;
      pc := pc + code[i].size;
    }
    edges := FinishBlock(code, nodeId, inclId, blockStart, targets, edges);
  }

  lemma NothingEmitted(code: Code)
    ensures RegularDone(code, 0, {}) && TakenDone(code, 0, {}) && DetailedDone(code, 0, {}) && CoarseDone(code, 0, {})
  {
  }

  /** The end of the code finishes the last block. */
  method FinishBlock(code: Code, nodeId: map<int, nat>, inclId: map<int, nat>, blockStart: nat, targets: set<nat>,
                     edges0: set<ExceptionEdge>)
    returns (edges: set<ExceptionEdge>)
    requires Nodes(code, |code|, nodeId) && Includes(code, |code|, inclId)
    requires CoarseDone(code, |code|, edges0) && TargetsRight(code, |code|, blockStart, targets)
    ensures SoundExceptions(code, edges)
    ensures forall e :: 0 <= e < |code| && (e + 1 == |code| || Leader(code, e + 1)) ==> Flushed(code, e, edges)
  {
    hide Nodes, Includes, Leader, Common, NodeOf, Pc, IsException, EdgesTo, Flushed;
    edges := edges0;
    if code != [] {
      var i: nat := |code|;
      FlushStep(code, i, edges0, inclId);
      SameBlock(code, i - 1);
      if targets != {} {
        NodeAtLeader(code, nodeId, BlockStart(code, i - 1));
        edges := AddExceptionEdges(edges, nodeId[blockStart], Anywhere, targets, inclId);
      } else {
        NothingToFlush(code, i - 1, inclId, edges0);
      }
    }
  }

  // ---- the second pass

  method InstructionAt(code: Code, pc: nat) returns (i: nat)
    requires InstAt(code, |code|, pc)
    ensures i < |code| && Pc(code, i) == pc
  {
    i := 0;
    var at: nat := 0;
    ghost var k :| 0 <= k < |code| && pc == Pc(code, k);
    while at != pc
      invariant i <= k && at == Pc(code, i)
      decreases k - i
    {
      assert i != k;
      at := at + code[i].size;
      i := i + 1;
    }
  }

  /** From the start of a block to its end, the handlers of each instruction. */
  method DetailBlock(code: Code, start: nat, nodeId: map<int, nat>, inclId: map<int, nat>, edges0: set<ExceptionEdge>)
    returns (edges: set<ExceptionEdge>)
    requires Nodes(code, |code|, nodeId) && Includes(code, |code|, inclId)
    requires BlockAt(code, |code|, start) && SoundExceptions(code, edges0)
    ensures edges0 <= edges && SoundExceptions(code, edges)
    ensures forall b :: 0 <= b < |code| && Pc(code, b) == start ==> DetailedBlock(code, b, edges)
  {
    hide Nodes, Includes, Leader, NodeOf, EdgesTo, Detailed, IsException;
    edges := edges0;
    BlockIsInst(code, start);
    var b := InstructionAt(code, start);
    LeaderAt(code, b);
    var i: nat, pc: nat := b, start;
    var node := IncludedIn(code, inclId, b);
    while true
      invariant i < |code| && pc == Pc(code, i) && OneBlock(code, b, i)
      invariant edges0 <= edges && SoundExceptions(code, edges)
      invariant forall k :: b <= k < i ==> Detailed(code, k, edges)
      decreases |code| - i
    {
      OneBlockNode(code, b, i);
      ghost var before := edges;
      edges := AddExceptionEdges(edges, node, At(pc), code[i].handlers, inclId);
      DetailOne(code, i, inclId, before);
      forall k | b <= k < i ensures Detailed(code, k, edges) { DetailedMore(code, k, before, edges); }
      if IsBasicBlockEnd(code[i].op) || i + 1 >= |code| {
        break;
      }
      IsNode(code, nodeId, i + 1);
      pc := pc + code[i].size;
      if pc in nodeId {
        break;
      }
      i := i + 1;
    }
    BlockAll(code, b, i, edges);
    forall c | 0 <= c < |code| && Pc(code, c) == start
      ensures DetailedBlock(code, c, edges)
    {
      PcInjective(code, b, c);
    }
  }

  lemma BlockIsInst(code: Code, pc: int)
    requires BlockAt(code, |code|, pc)
    ensures InstAt(code, |code|, pc)
  {
    hide Leader, Pc;
  }

  lemma LeaderAt(code: Code, b: nat)
    requires b < |code| && BlockAt(code, |code|, Pc(code, b))
    ensures Leader(code, b)
  {
    hide Leader, Pc;
    var k :| 0 <= k < |code| && Pc(code, b) == Pc(code, k) && Leader(code, k);
    PcInjective(code, b, k);
  }

  method IncludedIn(code: Code, inclId: map<int, nat>, b: nat) returns (node: nat)
    requires Includes(code, |code|, inclId) && b < |code|
    ensures node == NodeOf(code, b)
  {
    hide InstAt, NodeOf, Pc;
    node := inclId[Pc(code, b)];
  }

  lemma DetailOne(code: Code, i: nat, inclId: map<int, nat>, before: set<ExceptionEdge>)
    requires i < |code| && Includes(code, |code|, inclId) && SoundExceptions(code, before)
    ensures var edges := before + EdgesTo(NodeOf(code, i), At(Pc(code, i)), code[i].handlers, inclId);
            Detailed(code, i, edges) && SoundExceptions(code, edges)
  {
    hide Includes, NodeOf, Pc, EdgesTo, IsException;
    NewEdges(code, i, At(Pc(code, i)), code[i].handlers, inclId);
  }

  lemma DetailedMore(code: Code, k: nat, edges: set<ExceptionEdge>, edges': set<ExceptionEdge>)
    requires k < |code| && Detailed(code, k, edges) && edges <= edges'
    ensures Detailed(code, k, edges')
  {
    hide NodeOf, Pc;
  }

  /** The instructions b to e are the whole block. */
  lemma {:induction false} BlockAll(code: Code, b: nat, e: nat, edges: set<ExceptionEdge>)
    requires OneBlock(code, b, e) && Leader(code, b) && forall k :: b <= k <= e ==> Detailed(code, k, edges)
    requires IsBasicBlockEnd(code[e].op) || e + 1 == |code| || Leader(code, e + 1)
    ensures DetailedBlock(code, b, edges)
  {
    EndLeads(code, e);
    hide Leader, Detailed;
    forall i | 0 <= i < |code| && BlockStart(code, i) == b ensures Detailed(code, i, edges) {
      FromStart(code, i);
    }
  }

  lemma EndLeads(code: Code, e: nat)
    requires e < |code| && (IsBasicBlockEnd(code[e].op) || e + 1 == |code| || Leader(code, e + 1))
    ensures e + 1 == |code| || Leader(code, e + 1)
  {
  }

  method DetailBlocks(code: Code, detailed: set<nat>, nodeId: map<int, nat>, inclId: map<int, nat>,
                      edges0: set<ExceptionEdge>)
    returns (edges: set<ExceptionEdge>)
    requires Nodes(code, |code|, nodeId) && Includes(code, |code|, inclId)
    requires DetailedDone(code, |code|, detailed) && SoundExceptions(code, edges0)
    ensures edges0 <= edges && SoundExceptions(code, edges)
    ensures forall k :: 0 <= k < |code| && Mismatch(code, k) ==> DetailedBlock(code, BlockStart(code, k), edges)
  {
    hide Nodes, Includes, Leader, Mismatch, SoundExceptions, DetailedBlock, Pc;
    edges := edges0;
    var rest := detailed;
    while rest != {}
      invariant rest <= detailed && edges0 <= edges && SoundExceptions(code, edges)
      invariant forall b :: 0 <= b < |code| && Pc(code, b) in detailed - rest ==> DetailedBlock(code, b, edges)
    {
      var pc :| pc in rest;
      ghost var before := edges;
      edges := DetailBlock(code, pc, nodeId, inclId, edges);
      forall b | 0 <= b < |code| && Pc(code, b) in detailed - rest ensures DetailedBlock(code, b, edges) {
        DetailedBlockMore(code, b, before, edges);
      }
      rest := rest - {pc};
    }
  }

  lemma DetailedBlockMore(code: Code, b: nat, edges: set<ExceptionEdge>, edges': set<ExceptionEdge>)
    requires DetailedBlock(code, b, edges) && edges <= edges'
    ensures DetailedBlock(code, b, edges')
  {
    hide Detailed, Leader;
    forall i | 0 <= i < |code| && BlockStart(code, i) == b ensures Detailed(code, i, edges') {
      DetailedMore(code, i, edges, edges');
    }
  }

  /**
   DumpMethodCFG.  The graph shows everything that the code can do, with and without
   exceptions, and nothing else.
   */
  method DumpMethodCFG(code: Code) returns (regular: set<Edge>, taken: set<Edge>, edges: set<ExceptionEdge>)
    ensures Covers(code, regular, taken) && Sound(code, regular, taken)
    ensures CoversExceptions(code, edges) && SoundExceptions(code, edges)
  {
    hide Nodes, Includes, Leader, Mismatch, RegularDone, TakenDone, DetailedDone, SoundExceptions, CoversExceptions,
         Flushed, DetailedBlock, Covers, Sound, IsTarget, BlockStart;
    var targets := BranchTargets(code);
    var nodeId, inclId := NumberBlocks(code, targets);
    var detailed;
    regular, taken, edges, detailed := EmitEdges(code, nodeId, inclId);
    TransfersCovered(code, regular, taken);
    ghost var coarse := edges;
    edges := DetailBlocks(code, detailed, nodeId, inclId, edges);
    forall e | 0 <= e < |code| && (e + 1 == |code| || Leader(code, e + 1)) ensures Flushed(code, e, edges) {
      FlushedMore(code, e, coarse, edges);
    }
    ExceptionsCovered(code, edges);
  }

  lemma FlushedMore(code: Code, e: nat, edges: set<ExceptionEdge>, edges': set<ExceptionEdge>)
    requires e < |code| && Flushed(code, e, edges) && edges <= edges'
    ensures Flushed(code, e, edges')
  {
    hide NodeOf, Pc, Common;
  }

  lemma {:induction false} TransfersCovered(code: Code, regular: set<Edge>, taken: set<Edge>)
    requires RegularDone(code, |code|, regular) && TakenDone(code, |code|, taken)
    ensures Covers(code, regular, taken) && Sound(code, regular, taken)
  {
    hide Leader, NodeOf, IsTransfer, EdgeOf, Pc;
    forall i: nat, j: nat | i < |code| && j < |code| && Transfers(code, i, j)
      ensures (j == i + 1 && !Leader(code, j) && NodeOf(code, j) == NodeOf(code, i))
              || (EdgeOf(code, i, j) in regular + taken && Leader(code, j))
    {
      if Pc(code, j) in Targets(code[i].op) {
        TargetIsLeader(code, i, j);
      } else if !Leader(code, j) {
        InsideBlock(code, j);
      }
    }
  }
}
