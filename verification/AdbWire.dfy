/**
 The data socket shared by the poll loop, any number of publishers and the agent,
 under an eventfd that is used as a mutex.  Bytes reach the client in pieces of any
 size, so that unprotected writers could mix.
 */
module AdbWire {
  import opened Bytes

  /** JDWP-Handshake */
  const HANDSHAKE: seq<byte> := [74, 68, 87, 80, 45, 72, 97, 110, 100, 115, 104, 97, 107, 101]

  datatype Thread = Poll | Publisher(id: nat) | Agent

  /** Where the poll loop is: closing, opening, answering the handshake. */
  datatype PollPc =
    | Resting
    | CloseWaits | CloseHolds | CloseDone | Forgets
    | OpenWaits | OpenHolds | OpenDone
    | Answers(rest: seq<byte>) | Answered

  datatype PublisherPc =
    | Off | Waits(packet: seq<byte>) | Holds(packet: seq<byte>)
    | Writes(connection: nat, packet: seq<byte>, written: nat) | Done

  datatype AgentPc = AgentOff | AgentWaits | AgentHolds

  /** out is what each connection's client has been sent.  The last three are records:
      connections given to the agent, those answered, and the packets finished on each. */
  datatype State = State(
    counter: nat, tokens: map<Thread, nat>, socket: Option<nat>, performed: bool, next: nat, out: map<nat, seq<byte>>,
    poll: PollPc, publishers: map<nat, PublisherPc>, agent: AgentPc,
    given: set<nat>, answered: set<nat>, packets: map<nat, seq<seq<byte>>>)

  const INITIAL := State(1, map[], None, false, 0, map[], Resting, map[], AgentOff, {}, {}, map[])

  function PublisherAt(s: State, i: nat): (p: PublisherPc) {
    if i in s.publishers then s.publishers[i] else Off
  }

  datatype Action = Lock(lock: LockStep) | Loop(loop: LoopStep) | Other(other: OtherStep)

  datatype LockStep = Acquire(t: Thread) | Release(t: Thread)

  datatype LoopStep =
    // CloseFds, and a new connection
    | StartClose | ResetSocket | ForgetHandshake
    | StartOpen | SetSocket
    // PerformHandshake, and what the agent's messages do
    | StartAnswer | SendAnswer(n: nat) | EndAnswer
    | GiveToAgent | AgentAttached | AgentShook

  datatype OtherStep =
    // SendDdmPacket
    | Publish(i: nat, packet: seq<byte>) | Check(i: nat) | WriteSome(i: nat, n: nat)
    // the agent's own writing
    | AgentStart | AgentWrite(connection: nat, bytes: seq<byte>)

  predicate Wants(s: State, t: Thread) {
    match t
    case Poll => s.poll == CloseWaits || s.poll == OpenWaits
    case Publisher(i) => PublisherAt(s, i).Waits?
    case Agent => s.agent == AgentWaits
  }

  predicate Leaves(s: State, t: Thread) {
    match t
    case Poll => s.poll == CloseDone || s.poll == OpenDone
    case Publisher(i) => PublisherAt(s, i) == Done
    case Agent => s.agent == AgentHolds
  }

  /** The thread is inside the lock. */
  predicate Inside(s: State, t: Thread) {
    match t
    case Poll => s.poll == CloseHolds || s.poll == CloseDone || s.poll == OpenHolds || s.poll == OpenDone
    case Publisher(i) => var p := PublisherAt(s, i); p.Holds? || p.Writes? || p == Done
    case Agent => s.agent == AgentHolds
  }

  /** Reading the eventfd blocks while its counter is zero. */
  predicate CanLock(s: State, a: LockStep) {
    match a
    case Acquire(t) => Wants(s, t) && s.counter > 0
    case Release(t) => Leaves(s, t) && t in s.tokens
  }

  predicate CanLoop(s: State, a: LoopStep) {
    match a
    case StartClose => s.poll == Resting
    case ResetSocket => s.poll == CloseHolds
    case ForgetHandshake => s.poll == Forgets
    case StartOpen => s.poll == Resting && s.socket.None?
    case SetSocket => s.poll == OpenHolds
    case StartAnswer => s.poll == Resting && !s.performed && s.socket.Some? && s.socket.value !in s.given
    case SendAnswer(n) => s.poll.Answers? && 0 < n <= |s.poll.rest| && s.socket.Some? && s.socket.value in s.out
    case EndAnswer => s.poll == Answered
    case GiveToAgent => s.poll == Resting && s.socket.Some?
    case AgentAttached => s.poll == Resting && s.socket.Some? && s.socket.value in s.given
    case AgentShook => s.poll == Resting && s.socket.Some? && s.socket.value in s.given
  }

  predicate CanOther(s: State, a: OtherStep) {
    match a
    case Publish(i, packet) => PublisherAt(s, i) == Off
    case Check(i) => PublisherAt(s, i).Holds?
    case WriteSome(i, n) =>
      var p := PublisherAt(s, i);
      p.Writes? && p.connection in s.out && p.connection in s.packets && p.written + n <= |p.packet|
    case AgentStart => s.agent == AgentOff
    case AgentWrite(c, bytes) => s.agent == AgentHolds && c in s.given && c in s.out
  }

  predicate Enabled(s: State, a: Action) {
    match a
    case Lock(l) => CanLock(s, l)
    case Loop(l) => CanLoop(s, l)
    case Other(o) => CanOther(s, o)
  }

  function SetPublisher(s: State, i: nat, p: PublisherPc): (s': State) {
    s.(publishers := s.publishers[i := p])
  }

  function Enter(s: State, t: Thread): (s': State) {
    match t
    case Poll => s.(poll := if s.poll == CloseWaits then CloseHolds else OpenHolds)
    case Publisher(i) => if PublisherAt(s, i).Waits? then SetPublisher(s, i, Holds(PublisherAt(s, i).packet)) else s
    case Agent => s.(agent := AgentHolds)
  }

  function Exit(s: State, t: Thread): (s': State) {
    match t
    case Poll => s.(poll := if s.poll == CloseDone then Forgets else Resting)
    case Publisher(i) => SetPublisher(s, i, Off)
    case Agent => s.(agent := AgentOff)
  }

  function DoLock(s: State, a: LockStep): (s': State)
    requires CanLock(s, a)
  {
    match a
    case Acquire(t) => Enter(s, t).(counter := 0, tokens := s.tokens[t := s.counter])
    case Release(t) => Exit(s, t).(counter := s.counter + s.tokens[t], tokens := s.tokens - {t})
  }

  function DoLoop(s: State, a: LoopStep): (s': State)
    requires CanLoop(s, a)
  {
    match a
    case StartClose => s.(poll := CloseWaits)
    case ResetSocket => s.(poll := CloseDone, socket := None)
    case ForgetHandshake => s.(poll := Resting, performed := false)
    case StartOpen => s.(poll := OpenWaits)
    case SetSocket =>
      s.(poll := OpenDone, socket := Some(s.next), next := s.next + 1, out := s.out[s.next := []],
         packets := s.packets[s.next := []])
    case StartAnswer => s.(poll := Answers(HANDSHAKE))
    case SendAnswer(n) =>
      var c, rest := s.socket.value, s.poll.rest;
      var s' := s.(out := s.out[c := s.out[c] + rest[..n]]);
      if n == |rest| then s'.(poll := Answered, answered := s.answered + {c}) else s'.(poll := Answers(rest[n..]))
    case EndAnswer => s.(poll := Resting, performed := true)
    case GiveToAgent => s.(given := s.given + {s.socket.value})
    case AgentAttached => s.(performed := false)
    case AgentShook => s.(performed := true)
  }

  function DoOther(s: State, a: OtherStep): (s': State)
    requires CanOther(s, a)
  {
    match a
    case Publish(i, packet) => SetPublisher(s, i, Waits(packet))
    case Check(i) =>
      if s.socket.None? || !s.performed then SetPublisher(s, i, Done)
      else SetPublisher(s, i, Writes(s.socket.value, PublisherAt(s, i).packet, 0))
    case WriteSome(i, n) =>
      var p := PublisherAt(s, i);
      var c, w := p.connection, p.written;
      var s' := s.(out := s.out[c := s.out[c] + p.packet[w..w + n]]);
      if w + n == |p.packet| then SetPublisher(s', i, Done).(packets := s.packets[c := s.packets[c] + [p.packet]])
      else SetPublisher(s', i, p.(written := w + n))
    case AgentStart => s.(agent := AgentWaits)
    case AgentWrite(c, bytes) => s.(out := s.out[c := s.out[c] + bytes])
  }

  function Do(s: State, a: Action): (s': State)
    requires Enabled(s, a)
  {
    match a
    case Lock(l) => DoLock(s, l)
    case Loop(l) => DoLoop(s, l)
    case Other(o) => DoOther(s, o)
  }

  // ---- the mutex

  /** The counter and the tokens held add up to one, and the token is with whoever is inside. */
  ghost predicate Mutex(s: State) {
    && (forall t :: t in s.tokens <==> Inside(s, t))
    && (forall t :: t in s.tokens ==> s.tokens[t] == 1)
    && (forall t, u :: t in s.tokens && u in s.tokens ==> t == u)
    && s.counter + |s.tokens| == 1
  }

  lemma {:induction false} MutexAcquired(s: State, t: Thread)
    requires Mutex(s) && CanLock(s, Acquire(t))
    ensures Mutex(DoLock(s, Acquire(t)))
  {
    var s' := DoLock(s, Acquire(t));
    assert s.tokens == map[];
    forall u ensures Inside(s', u) <==> u == t {
      assert u !in s.tokens;
    }
  }

  lemma {:induction false} MutexReleased(s: State, t: Thread)
    requires Mutex(s) && CanLock(s, Release(t))
    ensures Mutex(DoLock(s, Release(t)))
  {
    var s' := DoLock(s, Release(t));
    assert s'.tokens == map[] by {
      forall u ensures u !in s'.tokens { }
    }
    forall u ensures !Inside(s', u) {
      if u != t {
        assert u !in s.tokens;
      }
    }
  }

  lemma {:induction false} MutexLoop(s: State, a: LoopStep)
    requires Mutex(s) && CanLoop(s, a)
    ensures Mutex(DoLoop(s, a))
  {
    hide Inside;
    forall t ensures Inside(DoLoop(s, a), t) <==> Inside(s, t) { InsideLoop(s, a, t); }
  }

  lemma InsideLoop(s: State, a: LoopStep, t: Thread)
    requires CanLoop(s, a)
    ensures Inside(DoLoop(s, a), t) <==> Inside(s, t)
  {
  }

  lemma {:induction false} MutexOther(s: State, a: OtherStep)
    requires Mutex(s) && CanOther(s, a)
    ensures Mutex(DoOther(s, a))
  {
    hide Inside;
    forall t ensures Inside(DoOther(s, a), t) <==> Inside(s, t) { InsideOther(s, a, t); }
  }

  lemma InsideOther(s: State, a: OtherStep, t: Thread)
    requires CanOther(s, a)
    ensures Inside(DoOther(s, a), t) <==> Inside(s, t)
  {
  }

  // ---- the connections

  /** The handshake flag tells whether the open connection was answered. */
  ghost predicate FlagRight(s: State) {
    && (s.socket.Some? && s.socket.value !in s.given && s.poll != Answered ==>
          (s.performed <==> s.socket.value in s.answered))
    && (s.socket.None? && s.poll != CloseDone && s.poll != Forgets ==> !s.performed)
  }

  ghost predicate PollRight(s: State) {
    match s.poll
    case CloseDone => s.socket.None?
    case Forgets => s.socket.None?
    case OpenWaits => s.socket.None?
    case OpenHolds => s.socket.None?
    case Answers(rest) =>
      && !s.performed && s.socket.Some? && s.socket.value !in s.given && s.socket.value !in s.answered
      && 0 < |rest| <= |HANDSHAKE| && rest == HANDSHAKE[|HANDSHAKE| - |rest|..]
    case Answered => !s.performed && s.socket.Some? && s.socket.value !in s.given && s.socket.value in s.answered
    case _ => true
  }

  ghost predicate Known(s: State) {
    && (forall c :: c in s.out <==> 0 <= c < s.next) && (forall c :: c in s.packets <==> 0 <= c < s.next)
    && (forall c :: c in s.answered || c in s.given ==> c < s.next)
    && (s.socket.Some? ==> s.socket.value < s.next)
  }

  /** A packet is written only to the connection that was open at its check, and is still. */
  ghost predicate PublisherRight(s: State, i: nat) {
    var p := PublisherAt(s, i);
    p.Writes? ==>
      && s.socket == Some(p.connection) && p.written <= |p.packet|
      && (p.connection in s.answered || p.connection in s.given)
  }

  /** What a connection has got without what a publisher is at. */
  ghost function Base(s: State, c: nat): (bs: seq<byte>)
    requires Known(s) && PollRight(s) && c < s.next
  {
    if c in s.answered then HANDSHAKE + Flatten(s.packets[c])
    else if s.poll.Answers? && s.socket == Some(c) then HANDSHAKE[..|HANDSHAKE| - |s.poll.rest|]
    else []
  }

  predicate WritesTo(s: State, i: nat, c: nat) {
    PublisherAt(s, i).Writes? && PublisherAt(s, i).connection == c
  }

  ghost predicate StreamRight(s: State, c: nat)
    requires Known(s) && PollRight(s) && c < s.next
  {
    && (c !in s.answered ==> s.packets[c] == [])
    && (forall i :: WritesTo(s, i, c) && PublisherRight(s, i) ==>
          s.out[c] == Base(s, c) + PublisherAt(s, i).packet[..PublisherAt(s, i).written])
    && ((forall i :: !WritesTo(s, i, c)) ==> s.out[c] == Base(s, c))
  }

  ghost predicate Inv(s: State) {
    && Mutex(s) && FlagRight(s) && PollRight(s) && Known(s)
    && (forall i :: PublisherRight(s, i))
    && (forall c :: 0 <= c < s.next && c !in s.given ==> StreamRight(s, c))
  }

  lemma Initially()
    ensures Inv(INITIAL)
  {
  }

  // ---- each part of the invariant stays

  /** Nobody writes while the poll loop is inside. */
  lemma NoWriter(s: State, i: nat)
    requires Mutex(s) && Inside(s, Poll)
    ensures !PublisherAt(s, i).Writes?
  {
    assert Poll in s.tokens;
    assert Publisher(i) in s.tokens <==> Inside(s, Publisher(i));
  }

  /** Nothing has changed for the connections, nor for those that write. */
  ghost predicate SameWire(s: State, s': State) {
    && s'.socket == s.socket && s'.performed == s.performed && s'.next == s.next && s'.out == s.out
    && s'.given == s.given && s'.answered == s.answered && s'.packets == s.packets
    && (forall i :: PublisherAt(s, i).Writes? || PublisherAt(s', i).Writes? ==> PublisherAt(s', i) == PublisherAt(s, i))
  }

  lemma EnterFrame(s: State, t: Thread)
    requires Wants(s, t)
    ensures SameWire(s, Enter(s, t))
    ensures s.poll == Enter(s, t).poll || (s.poll == CloseWaits && Enter(s, t).poll == CloseHolds)
            || (s.poll == OpenWaits && Enter(s, t).poll == OpenHolds)
  {
  }

  lemma ExitFrame(s: State, t: Thread)
    requires Leaves(s, t)
    ensures SameWire(s, Exit(s, t))
    ensures s.poll == Exit(s, t).poll || (s.poll == CloseDone && Exit(s, t).poll == Forgets)
            || (s.poll == OpenDone && Exit(s, t).poll == Resting)
  {
  }

  /** Taking and giving back the lock leaves the connections alone. */
  lemma LockFrame(s: State, a: LockStep)
    requires CanLock(s, a)
    ensures SameWire(s, DoLock(s, a))
    ensures var p, q := s.poll, DoLock(s, a).poll;
            p == q || (p == CloseWaits && q == CloseHolds) || (p == OpenWaits && q == OpenHolds)
            || (p == CloseDone && q == Forgets) || (p == OpenDone && q == Resting)
  {
    hide Enter, Exit, Wants, Leaves;
    match a {
      case Acquire(t) => EnterFrame(s, t);
      case Release(t) => ExitFrame(s, t);
    }
  }

  /** Publishers and the agent leave the poll loop and the socket alone. */
  lemma OtherFrame(s: State, a: OtherStep)
    requires CanOther(s, a)
    ensures var s' := DoOther(s, a);
            && s'.socket == s.socket && s'.performed == s.performed && s'.next == s.next && s'.poll == s.poll
            && s'.given == s.given && s'.answered == s.answered
            && s'.out.Keys == s.out.Keys && s'.packets.Keys == s.packets.Keys
  {
  }

  lemma {:induction false} LoopKept(s: State, a: LoopStep)
    requires FlagRight(s) && PollRight(s) && Known(s) && CanLoop(s, a)
    ensures FlagRight(DoLoop(s, a)) && PollRight(DoLoop(s, a))
  {
  }

  lemma {:induction false} KnownLoop(s: State, a: LoopStep)
    requires Known(s) && CanLoop(s, a)
    ensures Known(DoLoop(s, a))
  {
  }

  lemma LockKept(s: State, a: LockStep)
    requires FlagRight(s) && PollRight(s) && Known(s) && CanLock(s, a)
    ensures FlagRight(DoLock(s, a)) && PollRight(DoLock(s, a)) && Known(DoLock(s, a))
  {
    LockFrame(s, a);
    hide DoLock, CanLock;
  }

  lemma OtherKept(s: State, a: OtherStep)
    requires FlagRight(s) && PollRight(s) && Known(s) && CanOther(s, a)
    ensures FlagRight(DoOther(s, a)) && PollRight(DoOther(s, a)) && Known(DoOther(s, a))
  {
    OtherFrame(s, a);
    hide DoOther;
    assert forall c :: c in DoOther(s, a).out.Keys <==> c in s.out.Keys;
    assert forall c :: c in DoOther(s, a).packets.Keys <==> c in s.packets.Keys;
  }

  lemma {:induction false} PublisherLoop(s: State, a: LoopStep, i: nat)
    requires Mutex(s) && PollRight(s) && PublisherRight(s, i) && CanLoop(s, a)
    ensures PublisherRight(DoLoop(s, a), i)
  {
    if a.ResetSocket? || a.SetSocket? {
      NoWriter(s, i);
    }
  }

  lemma {:induction false} PublisherOther(s: State, a: OtherStep, i: nat)
    requires FlagRight(s) && PollRight(s) && PublisherRight(s, i) && CanOther(s, a)
    ensures PublisherRight(DoOther(s, a), i)
  {
  }

  lemma PublisherLock(s: State, a: LockStep, i: nat)
    requires PublisherRight(s, i) && CanLock(s, a)
    ensures PublisherRight(DoLock(s, a), i)
  {
    LockFrame(s, a);
    hide DoLock, CanLock;
  }

  // ---- the streams

  lemma {:induction false} StreamLock(s: State, s': State, c: nat)
    requires Known(s) && PollRight(s) && c < s.next && StreamRight(s, c) && Known(s') && PollRight(s')
    requires SameWire(s, s')
    requires s.poll == s'.poll || (!s.poll.Answers? && !s'.poll.Answers?)
    ensures StreamRight(s', c)
  {
    hide Known, StreamRight;
    SameStream(s, s', c);
  }

  /** A stream is right if nothing about it, and nobody who writes to it, has changed. */
  lemma {:induction false} SameStream(s: State, s': State, c: nat)
    requires Known(s) && PollRight(s) && Known(s') && PollRight(s') && c < s.next && c < s'.next && StreamRight(s, c)
    requires s'.out[c] == s.out[c] && s'.packets[c] == s.packets[c] && (c in s'.answered <==> c in s.answered)
    requires Base(s', c) == Base(s, c)
    requires forall i :: WritesTo(s, i, c) || WritesTo(s', i, c) ==>
               PublisherAt(s', i) == PublisherAt(s, i) && (PublisherRight(s', i) ==> PublisherRight(s, i))
    ensures StreamRight(s', c)
  {
    hide Base, PollRight;
    forall i: nat ensures WritesTo(s', i, c) <==> WritesTo(s, i, c) { }
    forall i | WritesTo(s', i, c) && PublisherRight(s', i)
      ensures s'.out[c] == Base(s', c) + PublisherAt(s', i).packet[..PublisherAt(s', i).written]
    {
      assert WritesTo(s, i, c) && PublisherRight(s, i);
    }
  }

  lemma {:induction false} StreamLoop(s: State, a: LoopStep, c: nat)
    requires Inv(s) && CanLoop(s, a) && c < s.next && c !in s.given && !a.SendAnswer?
    requires PollRight(DoLoop(s, a)) && Known(DoLoop(s, a))
    ensures StreamRight(DoLoop(s, a), c)
  {
    hide Mutex;
    var s' := DoLoop(s, a);
    assert StreamRight(s, c);
    assert forall i :: PublisherAt(s', i) == PublisherAt(s, i);
    hide StreamRight;
    SameStream(s, s', c);
  }

  /** A stream that nobody writes to is right if it is what it should be. */
  lemma QuietStream(s: State, c: nat)
    requires Known(s) && PollRight(s) && c < s.next && (c !in s.answered ==> s.packets[c] == [])
    requires s.out[c] == Base(s, c) && forall i :: !WritesTo(s, i, c)
    ensures StreamRight(s, c)
  {
    hide Known, PollRight, Base;
  }

  lemma {:induction false} StreamAnswer(s: State, n: nat, c: nat, s': State)
    requires Inv(s) && CanLoop(s, SendAnswer(n)) && s' == DoLoop(s, SendAnswer(n)) && c < s.next && c !in s.given
    requires PollRight(s') && Known(s') && c < s'.next
    ensures StreamRight(s', c)
  {
    assert StreamRight(s, c);
    forall i: nat ensures PublisherAt(s', i) == PublisherAt(s, i) && PublisherRight(s, i) { }
    hide Mutex, FlagRight, HANDSHAKE, Flatten;
    if s.socket == Some(c) {
      AnswerGrows(s, n, c, s');
    } else {
      hide StreamRight;
      SameStream(s, s', c);
    }
  }

  /** On the connection that is answered itself. */
  lemma {:induction false} AnswerGrows(s: State, n: nat, c: nat, s': State)
    requires Inv(s) && CanLoop(s, SendAnswer(n)) && s' == DoLoop(s, SendAnswer(n)) && s.socket == Some(c)
    requires PollRight(s') && Known(s') && c < s'.next && c < s.next && c !in s.given && StreamRight(s, c)
    requires forall i: nat :: PublisherAt(s', i) == PublisherAt(s, i) && PublisherRight(s, i)
    ensures StreamRight(s', c)
  {
    hide Mutex, FlagRight, HANDSHAKE, Flatten;
    forall i: nat ensures !WritesTo(s, i, c) && !WritesTo(s', i, c) { }
    AnswerPart(s.poll.rest, n);
    assert s.out[c] == Base(s, c);
    hide StreamRight;
    AnswerBase(s, s', n, c);
    QuietStream(s', c);
  }

  lemma AnswerBase(s: State, s': State, n: nat, c: nat)
    requires Known(s) && PollRight(s) && CanLoop(s, SendAnswer(n)) && s' == DoLoop(s, SendAnswer(n))
    requires s.socket == Some(c)
    requires PollRight(s') && Known(s') && s.packets[c] == []
    ensures Base(s', c) == Base(s, c) + s.poll.rest[..n]
  {
    hide HANDSHAKE, Flatten;
    AnswerPart(s.poll.rest, n);
  }

  lemma AnswerPart(rest: seq<byte>, n: nat)
    requires 0 < n <= |rest| <= |HANDSHAKE| && rest == HANDSHAKE[|HANDSHAKE| - |rest|..]
    ensures var k := |HANDSHAKE| - |rest|;
            && HANDSHAKE[..k] + rest[..n] == HANDSHAKE[..k + n]
            && (n == |rest| ==> HANDSHAKE[..k] + rest[..n] == HANDSHAKE + Flatten([]))
  {
    assert Flatten([]) == [];
  }

  lemma {:induction false} StreamGrows(s: State, s': State, i: nat, n: nat, c: nat)
    requires Known(s) && PollRight(s) && Known(s') && PollRight(s') && c < s.next && c < s'.next && StreamRight(s, c)
    requires WritesTo(s, i, c) && PublisherRight(s, i) && PublisherRight(s', i) && WritesTo(s', i, c)
    requires PublisherAt(s', i).packet == PublisherAt(s, i).packet
    requires PublisherAt(s', i).written == PublisherAt(s, i).written + n
    requires forall j :: j != i ==> !WritesTo(s', j, c)
    requires var p := PublisherAt(s, i);
             s'.out[c] == s.out[c] + p.packet[p.written..p.written + n] && s'.packets[c] == s.packets[c]
    requires Base(s', c) == Base(s, c) && (c in s'.answered <==> c in s.answered)
    ensures StreamRight(s', c)
  {
    hide Base, PollRight;
    var p := PublisherAt(s, i);
    assert p.packet[..p.written] + p.packet[p.written..p.written + n] == p.packet[..p.written + n];
  }

  lemma {:induction false} StreamFinishes(s: State, s': State, i: nat, c: nat)
    requires Known(s) && PollRight(s) && Known(s') && PollRight(s') && c < s.next && c < s'.next && StreamRight(s, c)
    requires WritesTo(s, i, c) && PublisherRight(s, i) && c in s.answered && c in s'.answered
    requires forall j :: !WritesTo(s', j, c)
    requires var p := PublisherAt(s, i);
             s'.out[c] == s.out[c] + p.packet[p.written..] && s'.packets[c] == s.packets[c] + [p.packet]
    ensures StreamRight(s', c)
  {
    hide PollRight, HANDSHAKE, Flatten;
    var p := PublisherAt(s, i);
    FlattenAppend(s.packets[c], p.packet);
    Completed(HANDSHAKE, Flatten(s.packets[c]), p.packet, p.written);
    QuietStream(s', c);
  }

  lemma Completed<T>(a: seq<T>, b: seq<T>, whole: seq<T>, n: nat)
    requires n <= |whole|
    ensures a + b + whole[..n] + whole[n..] == a + (b + whole)
  {
    assert whole[..n] + whole[n..] == whole;
  }

  lemma {:induction false} StreamWrite(s: State, i: nat, n: nat, c: nat, s': State)
    requires Inv(s) && CanOther(s, WriteSome(i, n)) && s' == DoOther(s, WriteSome(i, n)) && c < s.next && c !in s.given
    requires PollRight(s') && Known(s') && PublisherRight(s', i) && c < s'.next
    ensures StreamRight(s', c)
  {
    hide FlagRight, Base;
    var p := PublisherAt(s, i);
    assert StreamRight(s, c) && PublisherRight(s, i);
    forall j: nat | j != i ensures !PublisherAt(s, j).Writes? && !PublisherAt(s', j).Writes? { OnlyWriter(s, i, j); }
    hide Mutex, Known, PollRight, StreamRight;
    BaseStays(s, s', c);
    if p.connection != c {
      SameStream(s, s', c);
    } else if p.written + n == |p.packet| {
      assert p.packet[p.written..] == p.packet[p.written..p.written + n];
      StreamFinishes(s, s', i, c);
    } else {
      StreamGrows(s, s', i, n, c);
    }
  }

  lemma BaseStays(s: State, s': State, c: nat)
    requires Known(s) && PollRight(s) && Known(s') && PollRight(s') && c < s.next && c < s'.next
    requires s'.poll == s.poll && s'.socket == s.socket && s'.answered == s.answered
    ensures s'.packets[c] == s.packets[c] ==> Base(s', c) == Base(s, c)
  {
    hide PollRight;
  }

  lemma OnlyWriter(s: State, i: nat, j: nat)
    requires Mutex(s) && Inside(s, Publisher(i)) && i != j
    ensures !Inside(s, Publisher(j))
  {
    assert Publisher(i) in s.tokens && (Publisher(j) in s.tokens <==> Inside(s, Publisher(j)));
  }

  lemma {:induction false} StreamCheck(s: State, i: nat, c: nat)
    requires Inv(s) && CanOther(s, Check(i)) && c < s.next && c !in s.given
    requires PollRight(DoOther(s, Check(i))) && Known(DoOther(s, Check(i)))
    ensures StreamRight(DoOther(s, Check(i)), c)
  {
    hide FlagRight;
    var s' := DoOther(s, Check(i));
    assert StreamRight(s, c);
    forall j: nat ensures !WritesTo(s, j, c) && (j != i ==> !WritesTo(s', j, c)) {
      if j != i { OnlyWriter(s, i, j); }
    }
    hide Mutex, Known, PollRight;
    assert Base(s, c) + [] == Base(s, c);
  }

  /** Steps that touch neither streams nor those that write to them. */
  lemma {:induction false} StreamElse(s: State, a: OtherStep, c: nat)
    requires Inv(s) && CanOther(s, a) && c < s.next && c !in s.given && !a.WriteSome? && !a.Check?
    requires PollRight(DoOther(s, a)) && Known(DoOther(s, a))
    ensures StreamRight(DoOther(s, a), c)
  {
    hide Mutex, FlagRight;
    var s' := DoOther(s, a);
    assert StreamRight(s, c);
    hide StreamRight;
    SameStream(s, s', c);
  }

  lemma {:induction false} StreamNew(s: State, s': State)
    requires Inv(s) && CanLoop(s, SetSocket) && s' == DoLoop(s, SetSocket) && PollRight(s') && Known(s')
    ensures StreamRight(s', s.next)
  {
    forall i: nat ensures !WritesTo(s', i, s.next) { NoWriter(s, i); }
    QuietStream(s', s.next);
  }

  // ---- every step keeps the invariant

  lemma {:induction false} LockKeeps(s: State, a: LockStep)
    requires Inv(s) && CanLock(s, a)
    ensures Inv(DoLock(s, a))
  {
    LockFrame(s, a);
    LockKept(s, a);
    var s' := DoLock(s, a);
    if a.Acquire? { MutexAcquired(s, a.t); } else { MutexReleased(s, a.t); }
    forall i: nat ensures PublisherRight(s', i) { PublisherLock(s, a, i); }
    hide Mutex, FlagRight, PollRight, Known, PublisherRight, StreamRight, DoLock, CanLock;
    forall c | 0 <= c < s'.next && c !in s'.given ensures StreamRight(s', c) { StreamLock(s, s', c); }
  }

  lemma {:induction false} LoopKeeps(s: State, a: LoopStep)
    requires Inv(s) && CanLoop(s, a)
    ensures Inv(DoLoop(s, a))
  {
    hide Mutex, FlagRight, PollRight, Known, PublisherRight, StreamRight;
    var s' := DoLoop(s, a);
    LoopKept(s, a);
    KnownLoop(s, a);
    MutexLoop(s, a);
    forall i: nat ensures PublisherRight(s', i) { PublisherLoop(s, a, i); }
    forall c | 0 <= c < s'.next && c !in s'.given ensures StreamRight(s', c) {
      if c == s.next {
        StreamNew(s, s');
      } else if a.SendAnswer? {
        StreamAnswer(s, a.n, c, s');
      } else {
        StreamLoop(s, a, c);
      }
    }
  }

  lemma {:induction false} OtherKeeps(s: State, a: OtherStep)
    requires Inv(s) && CanOther(s, a)
    ensures Inv(DoOther(s, a))
  {
    hide Mutex, FlagRight, PollRight, Known, PublisherRight, StreamRight;
    var s' := DoOther(s, a);
    OtherFrame(s, a);
    OtherKept(s, a);
    MutexOther(s, a);
    forall i: nat ensures PublisherRight(s', i) { PublisherOther(s, a, i); }
    hide DoOther, CanOther;
    forall c | 0 <= c < s'.next && c !in s'.given ensures StreamRight(s', c) {
      match a {
        case WriteSome(i, n) => StreamWrite(s, i, n, c, s');
        case Check(i) => StreamCheck(s, i, c);
        case _ => StreamElse(s, a, c);
      }
    }
  }

  ghost predicate Runs(from: State, actions: seq<Action>, to: State)
    decreases |actions|
  {
    if actions == [] then from == to
    else Enabled(from, actions[0]) && Runs(Do(from, actions[0]), actions[1..], to)
  }

  lemma {:induction false} RunKeeps(from: State, actions: seq<Action>, to: State)
    requires Inv(from) && Runs(from, actions, to)
    ensures Inv(to)
    decreases |actions|
  {
    hide Inv, CanLock, CanLoop, CanOther, DoLock, DoLoop, DoOther;
    if actions != [] {
      match actions[0] {
        case Lock(l) => LockKeeps(from, l);
        case Loop(l) => LoopKeeps(from, l);
        case Other(o) => OtherKeeps(from, o);
      }
      RunKeeps(Do(from, actions[0]), actions[1..], to);
    }
  }

  // ---- what it means

  /** The eventfd is a mutex: the counter and the tokens held always add up to one, and
      nobody is inside without the token.  Whoever writes a packet writes it to the open connection. */
  lemma {:induction false} LockIsMutex(actions: seq<Action>, s: State)
    requires Runs(INITIAL, actions, s)
    ensures s.counter + |s.tokens| == 1 && forall t :: t in s.tokens ==> s.tokens[t] == 1
    ensures forall t, u :: Inside(s, t) && Inside(s, u) ==> t == u
    ensures forall i :: PublisherAt(s, i).Writes? ==> s.socket == Some(PublisherAt(s, i).connection)
  {
    hide Runs, FlagRight, PollRight, Known, StreamRight;
    Initially();
    RunKeeps(INITIAL, actions, s);
    forall t, u | Inside(s, t) && Inside(s, u) ensures t == u { assert t in s.tokens && u in s.tokens; }
    forall i: nat | PublisherAt(s, i).Writes? ensures s.socket == Some(PublisherAt(s, i).connection) {
      assert PublisherRight(s, i);
    }
  }

  /** The connection has the answer to the handshake or a part of it, or the answer and then
      the finished packets, one behind the other. */
  ghost predicate Whole(s: State, c: nat)
    requires c in s.out && c in s.packets
  {
    (s.out[c] <= HANDSHAKE && s.packets[c] == []) || s.out[c] == HANDSHAKE + Flatten(s.packets[c])
  }

  /** Publisher i is at its packet on the open connection c, behind what is finished. */
  ghost predicate Unfinished(s: State, c: nat, i: nat)
    requires c in s.out && c in s.packets
  {
    var p := PublisherAt(s, i);
    && WritesTo(s, i, c) && s.socket == Some(c) && p.written <= |p.packet|
    && s.out[c] == HANDSHAKE + Flatten(s.packets[c]) + p.packet[..p.written]
  }

  /** What the client of a connection that the agent never got has been sent: if nobody is
      writing, whole packets; otherwise exactly the written part of the one writer's packet
      behind them.  A closed connection is whole, and its handshake answered or not begun. */
  lemma {:induction false} AlwaysFramed(actions: seq<Action>, s: State, c: nat)
    requires Runs(INITIAL, actions, s) && c < s.next && c !in s.given
    ensures c in s.out && c in s.packets
    ensures (forall i :: !WritesTo(s, i, c)) ==> Whole(s, c)
    ensures forall i :: WritesTo(s, i, c) ==> Unfinished(s, c, i) && forall j :: WritesTo(s, j, c) ==> j == i
    ensures s.socket != Some(c) ==> s.out[c] == [] || s.out[c] == HANDSHAKE + Flatten(s.packets[c])
  {
    hide Runs, Inv, INITIAL;
    Initially();
    RunKeeps(INITIAL, actions, s);
    FramedNow(s, c);
  }

  lemma {:induction false} FramedNow(s: State, c: nat)
    requires Inv(s) && c < s.next && c !in s.given
    ensures c in s.out && c in s.packets
    ensures (forall i :: !WritesTo(s, i, c)) ==> Whole(s, c)
    ensures forall i :: WritesTo(s, i, c) ==> Unfinished(s, c, i) && forall j :: WritesTo(s, j, c) ==> j == i
    ensures s.socket != Some(c) ==> s.out[c] == [] || s.out[c] == HANDSHAKE + Flatten(s.packets[c])
  {
    forall i: nat, j: nat | WritesTo(s, i, c) && WritesTo(s, j, c) ensures i == j {
      if i != j { OnlyWriter(s, i, j); }
    }
    hide Mutex, FlagRight, HANDSHAKE, Flatten;
    assert StreamRight(s, c);
    forall i: nat | WritesTo(s, i, c) ensures Unfinished(s, c, i) { assert PublisherRight(s, i); }
  }
}
