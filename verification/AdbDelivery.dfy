/**
 Where the packets on the connections come from: every finished packet has its own
 publish action, so nothing is invented and nothing is sent twice.
 */
module AdbDelivery {
  import opened Bytes
  import opened AdbWire

  /** The packet that a publisher still has to deliver, or to give up. */
  ghost function Pending(p: PublisherPc): (r: Option<seq<byte>>) {
    if p.Waits? || p.Holds? || p.Writes? then Some(p.packet) else None
  }

  ghost function InFlight(s: State, packet: seq<byte>): (ids: set<nat>) {
    set i | i in s.publishers && Pending(s.publishers[i]) == Some(packet)
  }

  /** How often a packet has been finished on the first n connections. */
  ghost function Finished(packets: map<nat, seq<seq<byte>>>, n: nat, packet: seq<byte>): (c: nat) {
    if n == 0 then 0
    else Finished(packets, n - 1, packet) + if n - 1 in packets then multiset(packets[n - 1])[packet] else 0
  }

  ghost function Accounted(s: State, packet: seq<byte>): (c: nat) {
    Finished(s.packets, s.next, packet) + |InFlight(s, packet)|
  }

  predicate IsPublish(a: Action, packet: seq<byte>) {
    a.Other? && a.other.Publish? && a.other.packet == packet
  }

  ghost function Publishes(actions: seq<Action>, packet: seq<byte>): (c: nat) {
    if actions == [] then 0 else (if IsPublish(actions[0], packet) then 1 else 0) + Publishes(actions[1..], packet)
  }

  lemma {:induction false} FinishedSame(a: map<nat, seq<seq<byte>>>, b: map<nat, seq<seq<byte>>>, n: nat,
                                        packet: seq<byte>)
    requires forall c :: 0 <= c < n ==>
             (c in a <==> c in b) && (c in a ==> multiset(a[c])[packet] == multiset(b[c])[packet])
    ensures Finished(a, n, packet) == Finished(b, n, packet)
    decreases n
  {
    if n > 0 {
      FinishedSame(a, b, n - 1, packet);
    }
  }

  lemma {:induction false} FinishedOneMore(ps: map<nat, seq<seq<byte>>>, n: nat, c: nat, done: seq<byte>,
                                           packet: seq<byte>)
    requires c < n && c in ps
    ensures Finished(ps[c := ps[c] + [done]], n, packet) == Finished(ps, n, packet) + if done == packet then 1 else 0
    decreases n
  {
    var ps' := ps[c := ps[c] + [done]];
    if c == n - 1 {
      FinishedSame(ps, ps', n - 1, packet);
      assert multiset(ps[c] + [done]) == multiset(ps[c]) + multiset{done};
    } else {
      FinishedOneMore(ps, n - 1, c, done, packet);
    }
  }

  /** Changing what one publisher is at changes what is in flight by that publisher only. */
  lemma FlightChanges(s: State, s': State, i: nat, p: PublisherPc, packet: seq<byte>)
    requires s'.publishers == s.publishers[i := p]
    ensures Pending(PublisherAt(s, i)) == Some(packet) && Pending(p) != Some(packet) ==>
              |InFlight(s', packet)| == |InFlight(s, packet)| - 1
    ensures Pending(PublisherAt(s, i)) != Some(packet) && Pending(p) == Some(packet) ==>
              |InFlight(s', packet)| == |InFlight(s, packet)| + 1
    ensures (Pending(PublisherAt(s, i)) == Some(packet) <==> Pending(p) == Some(packet)) ==>
              |InFlight(s', packet)| == |InFlight(s, packet)|
  {
    hide InFlight, PublisherAt, Pending;
    FlightElsewhere(s, s', i, p, packet);
    OneApart(InFlight(s, packet), i);
    OneApart(InFlight(s', packet), i);
  }

  lemma FlightElsewhere(s: State, s': State, i: nat, p: PublisherPc, packet: seq<byte>)
    requires s'.publishers == s.publishers[i := p]
    ensures InFlight(s', packet) - {i} == InFlight(s, packet) - {i}
    ensures i in InFlight(s, packet) <==> Pending(PublisherAt(s, i)) == Some(packet)
    ensures i in InFlight(s', packet) <==> Pending(p) == Some(packet)
  {
  }

  lemma OneApart(s: set<nat>, i: nat)
    ensures |s| == |s - {i}| + if i in s then 1 else 0
  {
    if i in s {
      assert s == s - {i} + {i};
    } else {
      assert s == s - {i};
    }
  }

  lemma {:induction false} LockAccounts(s: State, a: LockStep, packet: seq<byte>)
    requires CanLock(s, a)
    ensures Accounted(DoLock(s, a), packet) <= Accounted(s, packet)
  {
    LockFrame(s, a);
    var s' := DoLock(s, a);
    if a.t.Publisher? {
      FlightChanges(s, s', a.t.id, PublisherAt(s', a.t.id), packet);
    } else {
      assert InFlight(s', packet) == InFlight(s, packet);
    }
  }

  lemma {:induction false} LoopAccounts(s: State, a: LoopStep, packet: seq<byte>)
    requires Known(s) && CanLoop(s, a)
    ensures Accounted(DoLoop(s, a), packet) <= Accounted(s, packet)
  {
    LoopFrame(s, a);
    hide DoLoop, CanLoop;
    var s' := DoLoop(s, a);
    assert InFlight(s', packet) == InFlight(s, packet);
    if s'.next == s.next + 1 {
      FinishedSame(s.packets, s'.packets, s.next, packet);
    }
  }

  /** The poll loop leaves publishers and finished packets alone; a new connection has none. */
  lemma LoopFrame(s: State, a: LoopStep)
    requires CanLoop(s, a)
    ensures var s' := DoLoop(s, a);
            && s'.publishers == s.publishers
            && ((s'.next == s.next && s'.packets == s.packets)
                || (s'.next == s.next + 1 && s'.packets == s.packets[s.next := []]))
  {
  }

  lemma {:induction false} OtherAccounts(s: State, a: OtherStep, packet: seq<byte>)
    requires Known(s) && CanOther(s, a)
    ensures Accounted(DoOther(s, a), packet) <= Accounted(s, packet) + if IsPublish(Other(a), packet) then 1 else 0
  {
    var s' := DoOther(s, a);
    match a {
      case Publish(i, _) => FlightChanges(s, s', i, PublisherAt(s', i), packet);
      case Check(i) => FlightChanges(s, s', i, PublisherAt(s', i), packet);
      case WriteSome(i, n) =>
        FlightChanges(s, s', i, PublisherAt(s', i), packet);
        var p := PublisherAt(s, i);
        FinishedOneMore(s.packets, s.next, p.connection, p.packet, packet);
      case _ => assert InFlight(s', packet) == InFlight(s, packet);
    }
  }

  lemma {:induction false} RunAccounts(from: State, actions: seq<Action>, to: State, packet: seq<byte>)
    requires Inv(from) && Runs(from, actions, to)
    ensures Accounted(to, packet) <= Accounted(from, packet) + Publishes(actions, packet)
    decreases |actions|
  {
    KnownIn(from);
    hide Inv, Known, CanLock, CanLoop, CanOther, DoLock, DoLoop, DoOther, Accounted;
    if actions != [] {
      match actions[0] {
        case Lock(l) =>
          LockKeeps(from, l);
          LockAccounts(from, l, packet);
        case Loop(l) =>
          LoopKeeps(from, l);
          LoopAccounts(from, l, packet);
        case Other(o) =>
          OtherKeeps(from, o);
          OtherAccounts(from, o, packet);
      }
      RunAccounts(Do(from, actions[0]), actions[1..], to, packet);
    }
  }

  lemma KnownIn(s: State)
    requires Inv(s)
    ensures Known(s)
  {
    hide Mutex, FlagRight, PollRight, PublisherRight, StreamRight;
  }

  /** Over all connections together, a packet has been finished no more often than it was published. */
  lemma {:induction false} FinishedWerePublished(actions: seq<Action>, s: State, packet: seq<byte>)
    requires Runs(INITIAL, actions, s)
    ensures Finished(s.packets, s.next, packet) <= Publishes(actions, packet)
  {
    hide Runs, Inv;
    Initially();
    RunAccounts(INITIAL, actions, s, packet);
    assert InFlight(INITIAL, packet) == {};
  }

  lemma {:induction false} FinishedAt(ps: map<nat, seq<seq<byte>>>, n: nat, c: nat, packet: seq<byte>)
    requires c < n && c in ps
    ensures multiset(ps[c])[packet] <= Finished(ps, n, packet)
    decreases n
  {
    if c < n - 1 {
      FinishedAt(ps, n - 1, c, packet);
    }
  }

  lemma {:induction false} PublishedSomewhere(actions: seq<Action>, packet: seq<byte>) returns (k: nat)
    requires Publishes(actions, packet) > 0
    ensures k < |actions| && IsPublish(actions[k], packet)
  {
    if IsPublish(actions[0], packet) {
      k := 0;
    } else {
      k := PublishedSomewhere(actions[1..], packet);
      k := k + 1;
    }
  }

  /** Whatever is framed on a connection was published in the run. */
  lemma {:induction false} PacketsWerePublished(actions: seq<Action>, s: State, c: nat, j: nat)
    requires Runs(INITIAL, actions, s) && c < s.next && c in s.packets && j < |s.packets[c]|
    ensures exists k :: 0 <= k < |actions| && IsPublish(actions[k], s.packets[c][j])
  {
    hide Runs;
    var packet := s.packets[c][j];
    FinishedWerePublished(actions, s, packet);
    FinishedAt(s.packets, s.next, c, packet);
    assert packet in multiset(s.packets[c]);
    var k := PublishedSomewhere(actions, packet);
  }
}
