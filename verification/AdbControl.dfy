/**
 The control protocol between the poll loop and the JDWP agent: flags on one side,
 the transport's phases on the other, and two FIFO channels between them.
 */
module AdbControl {

  /** What the agent says over the control socket. */
  datatype Message = StartListen | EndListen | Attached | HandshakeComplete | Closing

  /** The state of the poll loop.  `sock` stands for an open connection socket. */
  datatype Flags = Flags(sock: bool, loaded: bool, listening: bool, hasSocket: bool, sent: bool, performed: bool)

  /** The transport of the agent; `Idle` is its closed state. */
  datatype Phase = Unloaded | Idle | Awaiting | Opening | Open

  /** toAgent holds the transfers under way; each says whether to do the handshake.
      asked is a record of all transfers, each with whether the handshake had been done. */
  datatype State = State(flags: Flags, phase: Phase, agentListens: bool, toPoll: seq<Message>, toAgent: seq<bool>,
                         asked: seq<(bool, bool)>)

  const INITIAL := State(Flags(false, false, false, false, false, false), Unloaded, false, [], [], [])

  // ---- the poll loop

  /** What data from the client without an agent can lead to. */
  datatype Outcome = DidHandshake | Closed | Handled | LoadedAgent | AgentFailed

  datatype Action =
    // the poll loop; `ok` is the result of sendmsg, if it comes to one
    | TakeMessage(ok: bool)
    | NewConnection(ok: bool)
    | ControlHangup
    | Data(outcome: Outcome, ok: bool)
    | SocketHangup
    // the agent
    | Listen | ReceiveFds | LoseFds | FinishHandshake | FailHandshake | StopListening | Close

  function CloseFds(f: Flags): (g: Flags) {
    f.(sock := false, performed := false)
  }

  /** The flags and the transfer, if any, that a message leads to. */
  function OnMessage(f: Flags, m: Message): (r: (Flags, Transfer)) {
    match m
    case StartListen => (f.(listening := true), if f.sock then Ask(!f.performed) else NoTransfer)
    case EndListen => (f.(listening := false), NoTransfer)
    case HandshakeComplete => (if f.hasSocket then f.(performed := true) else f, NoTransfer)
    case Closing => (CloseFds(f).(hasSocket := false), NoTransfer)
    case Attached => (f.(hasSocket := true, sent := false, performed := false), NoTransfer)
  }

  datatype Transfer = NoTransfer | Ask(handshake: bool)

  function OnNewConnection(f: Flags): (r: (Flags, Transfer)) {
    (f.(sock := true), if f.loaded && f.listening then Ask(true) else NoTransfer)
  }

  function OnData(f: Flags, outcome: Outcome): (r: (Flags, Transfer)) {
    if !f.loaded then
      match outcome
      case DidHandshake => (f.(performed := true), NoTransfer)
      case Closed => (CloseFds(f), NoTransfer)
      case LoadedAgent => (f.(loaded := true), NoTransfer)
      case Handled => (f, NoTransfer)
      case AgentFailed => (f, NoTransfer)
    else
      (f, if f.listening && !f.sent then Ask(true) else NoTransfer)
  }

  /** HandleDataWithoutAgent does the handshake first, and nothing else before it. */
  predicate Possible(f: Flags, outcome: Outcome) {
    if f.performed then outcome != DidHandshake else outcome == DidHandshake || outcome == Closed
  }

  /** SendAgentFds: the flags afterwards, and what goes over to the agent. */
  function Transferred(f: Flags, t: Transfer, ok: bool): (g: Flags) {
    if t.Ask? && ok then f.(sent := true) else f
  }

  function Transfers(t: Transfer, ok: bool): (ms: seq<bool>) {
    if t.Ask? && ok then [t.handshake] else []
  }

  function Send(s: State, f: Flags, t: Transfer, ok: bool): (s': State) {
    s.(flags := Transferred(f, t, ok), toAgent := s.toAgent + Transfers(t, ok),
       asked := s.asked + if t.Ask? then [(t.handshake, f.performed)] else [])
  }

  predicate Polls(f: Flags) { f.sock && !f.hasSocket && !f.sent }

  /** One step of the loop or of the agent. */
  function Do(s: State, a: Action): (r: State)
    requires Enabled(s, a)
  {
    var f := s.flags;
    match a
    case TakeMessage(ok) =>
      var (g, t) := OnMessage(f, s.toPoll[0]);
      Send(s.(toPoll := s.toPoll[1..]), g, t, ok)
    case NewConnection(ok) =>
      var (g, t) := OnNewConnection(f);
      Send(s, g, t, ok)
    case ControlHangup => s
    case Data(outcome, ok) =>
      var (g, t) := OnData(f, outcome);
      Send(if !f.loaded && outcome == LoadedAgent then s.(phase := Idle) else s, g, t, ok)
    case SocketHangup => s.(flags := CloseFds(f))
    case Listen => s.(phase := Awaiting, agentListens := true, toPoll := s.toPoll + [StartListen])
    case ReceiveFds => s.(phase := Opening, toAgent := s.toAgent[1..], toPoll := s.toPoll + [Attached])
    case LoseFds => s.(toAgent := s.toAgent[1..])
    case FinishHandshake => s.(phase := Open, toPoll := s.toPoll + [HandshakeComplete])
    case FailHandshake => s.(phase := Awaiting, toPoll := s.toPoll + [Closing])
    case StopListening =>
      // A transport that is closed keeps its descriptor for listening, and can say so again.
      s.(phase := if s.phase == Awaiting then Idle else s.phase, agentListens := s.phase == Idle,
         toPoll := s.toPoll + [EndListen])
    case Close => s.(phase := Idle, toPoll := s.toPoll + [Closing])
  }

  /** When poll wakes up for an action, or the transport is in a state for it. */
  predicate Enabled(s: State, a: Action) {
    match a
    case TakeMessage(_) => s.flags.loaded && s.toPoll != []
    case NewConnection(_) => !s.flags.sock
    case ControlHangup => !s.flags.sock
    case Data(outcome, _) => Polls(s.flags) && (!s.flags.loaded ==> Possible(s.flags, outcome))
    case SocketHangup => Polls(s.flags)
    case Listen => s.phase == Idle
    case ReceiveFds => s.phase == Awaiting && s.toAgent != []
    case LoseFds => s.phase == Awaiting && s.toAgent != []
    case FinishHandshake => s.phase == Opening
    case FailHandshake => s.phase == Opening
    case StopListening => s.agentListens && s.phase != Opening
    case Close => s.phase == Open
  }

  // ---- what is demanded

  /** The debug checks of the loop that the action runs into. */
  predicate ChecksHold(s: State, a: Action) {
    var f := s.flags;
    match a
    case TakeMessage(_) => f.loaded && (s.toPoll != [] && OnMessage(f, s.toPoll[0]).1.Ask? ==> !f.sent)
    case NewConnection(_) => OnNewConnection(f).1.Ask? ==> !f.sent
    case ControlHangup => !f.hasSocket
    case Data(outcome, _) => !f.hasSocket && (!f.loaded ==> !f.listening) && (OnData(f, outcome).1.Ask? ==> !f.sent)
    case SocketHangup => !f.hasSocket
    case _ => true
  }

  /** What the flags are supposed to mean to one another. */
  predicate Safe(f: Flags) {
    && (f.sent || f.hasSocket ==> f.sock)
    && !(f.sent && f.hasSocket)
    && (f.listening ==> f.loaded)
    && (f.performed ==> f.sock)
  }

  /** A listening agent has been given every open connection. */
  predicate Served(f: Flags) {
    f.listening && f.sock ==> f.sent || f.hasSocket
  }

  // ---- the agent as the poll loop sees it

  /** Where an agent can be.  `Half` is open and still listening; an agent that closes then
      is `Late`: nothing can be handed to it, but the loop takes it for one that waits.  So it does
      with one that is `Lost`: the descriptors it waited for will not be received. */
  datatype View = VIdle | VAwaiting | VOpening | VHalf | VOpen | VLate | VLost

  /** The messages that an agent can send in each place.  Only a loose one closes before it has said
      that it no longer listens, or says so without having accepted. */
  function Move(v: View, m: Message, loose: bool): (r: seq<View>) {
    match m
    case StartListen => if v == VIdle || (v == VLate && loose) then [VAwaiting] else []
    case Attached => if v == VAwaiting then [VOpening] else []
    case HandshakeComplete => if v == VOpening then [VHalf] else []
    case EndListen =>
      if v == VHalf then [VOpen]
      else if loose && (v == VIdle || v == VAwaiting || v == VLate || v == VLost) then [VIdle]
      else []
    case Closing =>
      if v == VOpening then [VAwaiting]
      else if v == VOpen then [VIdle]
      else if v == VHalf && loose then [VLate]
      else []
  }

  /** Where the messages lead from a place. */
  predicate Leads(v: View, ms: seq<Message>, to: View, loose: bool)
    decreases |ms|
  {
    if ms == [] then v == to
    else Move(v, ms[0], loose) != [] && Leads(Move(v, ms[0], loose)[0], ms[1..], to, loose)
  }

  lemma {:induction false} LeadsOn(v: View, ms: seq<Message>, w: View, m: Message, loose: bool)
    requires Leads(v, ms, w, loose) && Move(w, m, loose) != []
    ensures Leads(v, ms + [m], Move(w, m, loose)[0], loose)
    decreases |ms|
  {
    if ms == [] {
      assert [m][1..] == [];
    } else {
      LeadsOn(Move(v, ms[0], loose)[0], ms[1..], w, m, loose);
      assert (ms + [m])[1..] == ms[1..] + [m];
    }
  }

  /** The flags of the loop fit a place.  It cannot tell a late or lost agent from one that waits. */
  predicate Fits(f: Flags, v: View) {
    match v
    case VIdle => !f.hasSocket && !f.listening
    case VAwaiting => !f.hasSocket && f.listening
    case VLate => !f.hasSocket && f.listening
    case VLost => !f.hasSocket && f.listening
    case VOpening => f.hasSocket && f.listening && !f.performed
    case VHalf => f.hasSocket && f.listening && f.performed
    case VOpen => f.hasSocket && !f.listening
  }

  predicate AgentAt(s: State, v: View) {
    match v
    case VIdle => s.phase == Idle
    case VAwaiting => s.phase == Awaiting && s.agentListens
    case VLost => s.phase == Awaiting && s.agentListens && s.toAgent == []
    case VOpening => s.phase == Opening && s.agentListens
    case VHalf => s.phase == Open && s.agentListens
    case VOpen => s.phase == Open && !s.agentListens
    case VLate => s.phase == Idle && s.agentListens
  }

  /** At most one transfer is under way, to an agent that waits for it and says nothing else before. */
  ghost predicate Ordinary(s: State, v: View) {
    && v != VLost
    && (s.toAgent != [] ==> |s.toAgent| == 1 && s.flags.sent && s.toPoll == [])
    && (s.flags.sent ==> v == VAwaiting && (s.toAgent != [] || (s.toPoll != [] && s.toPoll[0] == Attached)))
    && (s.toPoll != [] && s.toPoll[0] == Attached ==> s.flags.sent)
    && (forall k :: 0 < k < |s.toPoll| ==> s.toPoll[k] != Attached)
  }

  /** A connection has been sent that nobody waited for, or that did not get there. */
  predicate Astray(s: State, v: View) {
    s.flags.sent && s.flags.sock && (v == VLate || v == VIdle || v == VLost)
  }

  /** The loop is at v in the agent's story, and the messages under way lead on to where the agent is. */
  ghost predicate Told(s: State, v: View, w: View, stray: bool, loose: bool) {
    && Fits(s.flags, v) && AgentAt(s, w) && Leads(v, s.toPoll, w, loose) && (!loose ==> v != VLate)
    && (if stray then Astray(s, v) else Ordinary(s, v))
  }

  /** The invariant, for agents that may be loose or not, and whether or not a transfer went astray. */
  ghost predicate Inv(s: State, stray: bool, loose: bool) {
    && Safe(s.flags) && (stray ==> loose)
    && (!s.flags.loaded ==>
          && s.phase == Unloaded && !s.agentListens && s.toPoll == [] && s.toAgent == []
          && !s.flags.hasSocket && !s.flags.sent && !stray)
    && (s.flags.loaded ==> exists v, w :: Told(s, v, w, stray, loose))
  }

  /** An agent that receives what is sent to it, says that it no longer listens once it has accepted,
      and closes only after that. */
  predicate Conforms(s: State, a: Action) {
    && (a.Close? ==> !s.agentListens)
    && (a.StopListening? ==> s.phase == Open)
    && !a.LoseFds?
  }

  /** Whether an action's sendmsg succeeds. */
  predicate Succeeds(a: Action) {
    match a
    case TakeMessage(ok) => ok
    case NewConnection(ok) => ok
    case Data(_, ok) => ok
    case _ => true
  }

  /** The transfer that an action tries. */
  function TransferOf(s: State, a: Action): (t: Transfer)
    requires Enabled(s, a)
  {
    match a
    case TakeMessage(_) => OnMessage(s.flags, s.toPoll[0]).1
    case NewConnection(_) => OnNewConnection(s.flags).1
    case Data(outcome, _) => OnData(s.flags, outcome).1
    case _ => NoTransfer
  }

  /** Descriptors are sent although the agent does not wait for them, or has said more than the loop knows. */
  predicate Misdirects(s: State, a: Action) {
    && Enabled(s, a) && TransferOf(s, a).Ask? && Succeeds(a)
    && !(s.phase == Awaiting && s.toPoll == if a.TakeMessage? then s.toPoll[..1] else [])
  }

  /** The agent fails to receive the descriptors that were sent to it, or stops listening without having
      received them. */
  predicate Loses(s: State, a: Action) {
    Enabled(s, a) && (a.LoseFds? || (a.StopListening? && s.phase == Awaiting && s.toAgent != []))
  }

  /** A transfer goes astray. */
  predicate Strays(s: State, a: Action) {
    Misdirects(s, a) || Loses(s, a)
  }

  predicate TakesStart(s: State, a: Action) {
    a.TakeMessage? && s.toPoll != [] && s.toPoll[0] == StartListen
  }

  lemma Initially(loose: bool)
    ensures Inv(INITIAL, false, loose) && Served(INITIAL.flags) && AskedRight(INITIAL)
  {
  }

  /** In every state of a run, a debug check fails exactly if START-LISTEN is taken after a transfer
      has gone astray. */
  lemma {:induction false} CheckExactly(s: State, a: Action, stray: bool, loose: bool)
    requires Inv(s, stray, loose) && Enabled(s, a)
    ensures ChecksHold(s, a) <==> !(stray && TakesStart(s, a))
  {
    if s.flags.loaded {
      var v, w :| Told(s, v, w, stray, loose);
      if s.toPoll != [] {
        LeadsFirst(v, s.toPoll, w, loose);
      }
      hide Leads;
    }
  }

  // ---- every step keeps the invariant

  lemma LeadsFirst(v: View, ms: seq<Message>, w: View, loose: bool)
    requires Leads(v, ms, w, loose) && ms != []
    ensures Move(v, ms[0], loose) != [] && Leads(Move(v, ms[0], loose)[0], ms[1..], w, loose)
  {
  }

  lemma LeadsNowhere(v: View, ms: seq<Message>, w: View, loose: bool)
    requires Leads(v, ms, w, loose)
    ensures ms == [] ==> v == w
  {
  }

  /** No message says that something was lost. */
  lemma {:induction false} NeverLost(v: View, ms: seq<Message>, w: View, loose: bool)
    requires Leads(v, ms, w, loose) && (v != VLost || ms != [])
    ensures w != VLost
    decreases |ms|
  {
    if ms != [] {
      NeverLost(Move(v, ms[0], loose)[0], ms[1..], w, loose);
    }
  }

  /** Where the loop is once it has sent descriptors to nobody. */
  function Missed(v: View): (r: View) { if v == VAwaiting then VLost else v }

  /** If no acceptance is under way, an agent that waits may as well be lost. */
  lemma MissedLeads(v: View, ms: seq<Message>, w: View, loose: bool)
    requires Leads(v, ms, w, loose) && ms != [] && ms[0] != Attached
    ensures Leads(Missed(v), ms, w, loose)
  {
  }

  /** What the flags and the place are after a message, before anything is sent. */
  lemma {:induction false} MessageTaken(s: State, v: View, w: View, stray: bool, loose: bool)
    requires Safe(s.flags) && s.flags.loaded && s.toPoll != [] && Told(s, v, w, stray, loose)
    requires !(stray && s.toPoll[0] == StartListen)
    ensures Move(v, s.toPoll[0], loose) != []
    ensures var g, v' := OnMessage(s.flags, s.toPoll[0]).0, Move(v, s.toPoll[0], loose)[0];
            && Fits(g, v') && Leads(v', s.toPoll[1..], w, loose) && Safe(g) && g.loaded && (!loose ==> v' != VLate)
            && (stray ==> v' == VIdle && g.sent && g.sock)
            && (!stray ==> !g.sent && v' != VLost)
  {
    LeadsFirst(v, s.toPoll, w, loose);
    hide Leads;
  }

  lemma StrayTold(s: State, v: View, v': View, w: View, ok: bool, loose: bool)
    requires s.toPoll != [] && s.flags.loaded && Told(s, v, w, true, loose) && v' == VIdle
    requires s.toPoll[0] != StartListen
    requires Move(v, s.toPoll[0], loose) == [v'] && Leads(v', s.toPoll[1..], w, loose)
    ensures Told(Do(s, TakeMessage(ok)), v', w, true, loose) && !Strays(s, TakeMessage(ok))
    ensures Safe(s.flags) ==> Safe(Do(s, TakeMessage(ok)).flags)
    ensures ok && Served(s.flags) ==> Served(Do(s, TakeMessage(ok)).flags)
  {
    hide Leads;
  }

  /** A message without a transfer, or with one to an agent that has said no more than that. */
  lemma OrdinaryTold(s: State, v: View, v': View, w: View, ok: bool, loose: bool)
    requires s.toPoll != [] && s.flags.loaded && Told(s, v, w, false, loose) && Safe(s.flags)
    requires Move(v, s.toPoll[0], loose) == [v'] && Leads(v', s.toPoll[1..], w, loose) && (!loose ==> v' != VLate)
    requires (s.toPoll[1..] == [] ==> v' == w) && !Misdirects(s, TakeMessage(ok))
    requires var g := OnMessage(s.flags, s.toPoll[0]).0; Fits(g, v') && Safe(g) && !g.sent && v' != VLost
    ensures Told(Do(s, TakeMessage(ok)), v', w, false, loose)
    ensures Safe(Do(s, TakeMessage(ok)).flags)
    ensures ok && Served(s.flags) ==> Served(Do(s, TakeMessage(ok)).flags)
  {
    hide Leads;
    var s' := Do(s, TakeMessage(ok));
    assert forall k :: 0 <= k < |s'.toPoll| ==> s'.toPoll[k] == s.toPoll[k + 1];
  }

  /** START-LISTEN with more under way: the descriptors go to an agent that has stopped listening. */
  lemma MisdirectedTold(s: State, v: View, v': View, w: View, ok: bool, loose: bool)
    requires s.toPoll != [] && s.flags.loaded && Told(s, v, w, false, loose) && Safe(s.flags)
    requires Move(v, s.toPoll[0], loose) == [v'] && Leads(v', s.toPoll[1..], w, loose)
    requires (s.toPoll[1..] == [] ==> v' == w) && Misdirects(s, TakeMessage(ok))
    ensures Told(Do(s, TakeMessage(ok)), VLost, w, true, loose) && loose
    ensures Safe(Do(s, TakeMessage(ok)).flags) && Served(Do(s, TakeMessage(ok)).flags)
  {
    var rest := s.toPoll[1..];
    assert rest != [] && rest[0] == s.toPoll[1];
    LeadsFirst(v', rest, w, loose);
    MissedLeads(v', rest, w, loose);
    NeverLost(v', rest, w, loose);
    hide Leads;
  }

  lemma {:induction false} MessageKeeps(s: State, ok: bool, stray: bool, loose: bool)
    requires Inv(s, stray, loose) && Enabled(s, TakeMessage(ok)) && ChecksHold(s, TakeMessage(ok))
    ensures Inv(Do(s, TakeMessage(ok)), stray || Misdirects(s, TakeMessage(ok)), loose)
    ensures ok && Served(s.flags) ==> Served(Do(s, TakeMessage(ok)).flags)
    ensures !loose ==> !Misdirects(s, TakeMessage(ok))
  {
    hide Leads;
    CheckExactly(s, TakeMessage(ok), stray, loose);
    var v, w :| Told(s, v, w, stray, loose);
    MessageTaken(s, v, w, stray, loose);
    var v' := Move(v, s.toPoll[0], loose)[0];
    LeadsNowhere(v', s.toPoll[1..], w, loose);
    hide Move, Misdirects, Fits, AgentAt, Ordinary, Astray;
    if stray {
      StrayTold(s, v, v', w, ok, loose);
    } else if Misdirects(s, TakeMessage(ok)) {
      MisdirectedTold(s, v, v', w, ok, loose);
    } else {
      OrdinaryTold(s, v, v', w, ok, loose);
    }
  }

  predicate FromPoll(a: Action) {
    a.NewConnection? || a.ControlHangup? || a.Data? || a.SocketHangup?
  }

  /** What the loop does on its own once an agent is loaded says nothing new about the agent. */
  lemma PollTold(s: State, a: Action, v: View, w: View, stray: bool, loose: bool)
    requires Safe(s.flags) && s.flags.loaded && Enabled(s, a) && FromPoll(a)
    requires Told(s, v, w, stray, loose) && (s.toPoll == [] ==> v == w) && !Misdirects(s, a)
    ensures Told(Do(s, a), v, w, stray, loose) && Safe(Do(s, a).flags) && Do(s, a).flags.loaded
    ensures Succeeds(a) && Served(s.flags) ==> Served(Do(s, a).flags)
  {
    hide Leads;
    if a.NewConnection? {
    } else if a.Data? {
    }
  }

  /** Descriptors sent to an agent that does not wait: it is late, or END-LISTEN is under way. */
  lemma PollMisdirects(s: State, a: Action, v: View, w: View, stray: bool, loose: bool)
    requires Safe(s.flags) && s.flags.loaded && Enabled(s, a) && FromPoll(a) && (stray ==> loose)
    requires Told(s, v, w, stray, loose) && (s.toPoll == [] ==> v == w) && Misdirects(s, a)
    ensures Told(Do(s, a), Missed(v), w, true, loose) && Safe(Do(s, a).flags) && Do(s, a).flags.loaded
    ensures Served(Do(s, a).flags) && loose
  {
    if s.toPoll != [] {
      LeadsFirst(v, s.toPoll, w, loose);
      NeverLost(v, s.toPoll, w, loose);
      if s.toPoll[0] != Attached {
        MissedLeads(v, s.toPoll, w, loose);
      }
    }
    hide Leads;
  }

  lemma {:induction false} PollKeeps(s: State, a: Action, stray: bool, loose: bool)
    requires Inv(s, stray, loose) && Enabled(s, a) && FromPoll(a)
    ensures Inv(Do(s, a), stray || Misdirects(s, a), loose)
    ensures Succeeds(a) && Served(s.flags) ==> Served(Do(s, a).flags)
    ensures !loose ==> !Misdirects(s, a)
  {
    var s' := Do(s, a);
    if s.flags.loaded {
      var v, w :| Told(s, v, w, stray, loose);
      LeadsNowhere(v, s.toPoll, w, loose);
      hide Move, Misdirects, Fits, AgentAt, Ordinary, Astray, Leads, Do;
      if Misdirects(s, a) {
        PollMisdirects(s, a, v, w, stray, loose);
      } else {
        PollTold(s, a, v, w, stray, loose);
      }
    } else if s'.flags.loaded {
      assert Told(s', VIdle, VIdle, false, loose);
    }
  }

  predicate FromAgent(a: Action) {
    || a.Listen? || a.ReceiveFds? || a.LoseFds? || a.FinishHandshake? || a.FailHandshake?
    || a.StopListening? || a.Close?
  }

  /** What the agent says when it takes an action. */
  function Says(a: Action): (m: Message)
    requires FromAgent(a) && !a.LoseFds?
  {
    match a
    case Listen => StartListen
    case ReceiveFds => Attached
    case FinishHandshake => HandshakeComplete
    case StopListening => EndListen
    case _ => Closing
  }

  /** The agent goes where its message says. */
  lemma AgentMoves(s: State, a: Action, w: View, loose: bool)
    requires Enabled(s, a) && FromAgent(a) && !a.LoseFds? && AgentAt(s, w) && (loose || Conforms(s, a))
    requires !loose ==> w != VLate && w != VLost
    ensures Move(w, Says(a), loose) != [] && AgentAt(Do(s, a), Move(w, Says(a), loose)[0])
    ensures Do(s, a).flags == s.flags && Do(s, a).toPoll == s.toPoll + [Says(a)] && !Misdirects(s, a)
  {
  }

  lemma AgentOrdinary(s: State, a: Action, v: View, w: View)
    requires Enabled(s, a) && FromAgent(a) && !Loses(s, a) && Ordinary(s, v) && AgentAt(s, w)
    requires s.toPoll == [] ==> v == w
    ensures Ordinary(Do(s, a), v)
  {
  }

  lemma {:induction false} AgentKeeps(s: State, a: Action, stray: bool, loose: bool)
    requires Inv(s, stray, loose) && Enabled(s, a) && FromAgent(a) && !a.LoseFds? && (loose || Conforms(s, a))
    requires stray || !Loses(s, a)
    ensures Inv(Do(s, a), stray, loose) && Do(s, a).flags == s.flags && !Misdirects(s, a)
  {
    var v, w :| Told(s, v, w, stray, loose);
    if !loose { NeverLate(v, s.toPoll, w); }
    LeadsNowhere(v, s.toPoll, w, loose);
    AgentMoves(s, a, w, loose);
    LeadsOn(v, s.toPoll, w, Says(a), loose);
    hide Leads, Move, Enabled, AgentAt, Do, Misdirects, Loses;
    if !stray { AgentOrdinary(s, a, v, w); }
    assert Told(Do(s, a), v, Move(w, Says(a), loose)[0], stray, loose);
  }

  /** Descriptors that were on their way to the agent are not received. */
  lemma {:induction false} LossKeeps(s: State, a: Action, stray: bool)
    requires Inv(s, stray, true) && Loses(s, a)
    ensures Inv(Do(s, a), true, true) && Do(s, a).flags == s.flags && !Misdirects(s, a)
  {
    var v, w :| Told(s, v, w, stray, true);
    LeadsNowhere(v, s.toPoll, w, true);
    var s' := Do(s, a);
    if stray {
      if a.LoseFds? {
        assert Told(s', v, w, true, true);
      } else {
        AgentKeeps(s, a, true, true);
      }
    } else if a.LoseFds? {
      assert Told(s', VLost, VLost, true, true);
    } else {
      assert [EndListen][1..] == [];
      assert Told(s', VLost, VIdle, true, true);
    }
  }

  lemma {:induction false} NeverLate(v: View, ms: seq<Message>, w: View)
    requires Leads(v, ms, w, false) && v != VLate && v != VLost
    ensures w != VLate && w != VLost
    decreases |ms|
  {
    if ms != [] {
      NeverLate(Move(v, ms[0], false)[0], ms[1..], w);
    }
  }

  lemma {:induction false} StepKeeps(s: State, a: Action, stray: bool, loose: bool)
    requires Inv(s, stray, loose) && Enabled(s, a) && ChecksHold(s, a) && (loose || Conforms(s, a))
    ensures Inv(Do(s, a), stray || Strays(s, a), loose)
    ensures Succeeds(a) && Served(s.flags) ==> Served(Do(s, a).flags)
    ensures !loose ==> !Strays(s, a)
  {
    hide Inv, Do, Served, Misdirects, ChecksHold;
    if FromAgent(a) {
      if Loses(s, a) {
        LossKeeps(s, a, stray);
      } else {
        AgentKeeps(s, a, stray, loose);
      }
      SameServed(s, a);
    } else if a.TakeMessage? {
      MessageKeeps(s, a.ok, stray, loose);
    } else {
      PollKeeps(s, a, stray, loose);
    }
  }

  lemma SameServed(s: State, a: Action)
    requires Enabled(s, a) && Do(s, a).flags == s.flags
    ensures Served(s.flags) ==> Served(Do(s, a).flags)
  {
  }

  // ---- runs

  ghost predicate StepAt(states: seq<State>, actions: seq<Action>, k: nat)
    requires k < |actions| && |states| == |actions| + 1
  {
    Enabled(states[k], actions[k]) && states[k + 1] == Do(states[k], actions[k])
  }

  /** A run from the start: its states, and the actions between them. */
  ghost predicate Run(states: seq<State>, actions: seq<Action>) {
    && |states| == |actions| + 1 && states[0] == INITIAL
    && forall k :: 0 <= k < |actions| ==> StepAt(states, actions, k)
  }

  /** The first n steps meet no failing check. */
  ghost predicate Passes(states: seq<State>, actions: seq<Action>, n: nat)
    requires n <= |actions| && |states| == |actions| + 1
  {
    forall k :: 0 <= k < n ==> ChecksHold(states[k], actions[k])
  }

  ghost predicate AllConform(states: seq<State>, actions: seq<Action>)
    requires |states| == |actions| + 1
  {
    forall k :: 0 <= k < |actions| ==> Conforms(states[k], actions[k])
  }

  ghost predicate AllSucceed(actions: seq<Action>) {
    forall k :: 0 <= k < |actions| ==> Succeeds(actions[k])
  }

  /** In one of the first n steps a transfer has gone astray. */
  ghost predicate Strayed(states: seq<State>, actions: seq<Action>, n: nat)
    requires n <= |actions| && |states| == |actions| + 1
  {
    exists k :: 0 <= k < n && Strays(states[k], actions[k])
  }

  lemma {:induction false} RunKeeps(states: seq<State>, actions: seq<Action>, n: nat, loose: bool)
    requires Run(states, actions) && n <= |actions| && Passes(states, actions, n)
    requires loose || AllConform(states, actions)
    ensures Inv(states[n], Strayed(states, actions, n), loose)
    ensures AllSucceed(actions) ==> Served(states[n].flags)
    ensures !loose ==> !Strayed(states, actions, n)
    decreases n
  {
    Initially(loose);
    hide Inv, Do, Enabled, Served, Conforms, Succeeds, Strays, ChecksHold, INITIAL;
    if n > 0 {
      RunKeeps(states, actions, n - 1, loose);
      assert StepAt(states, actions, n - 1);
      StepKeeps(states[n - 1], actions[n - 1], Strayed(states, actions, n - 1), loose);
      assert Strayed(states, actions, n) == (Strayed(states, actions, n - 1) || Strays(states[n - 1], actions[n - 1]));
    }
  }

  /**
   When the debug checks of a run hold, whatever the agent does with its transport: exactly if
   START-LISTEN is never taken after descriptors were sent to an agent that did not wait for them,
   or did not receive them.
   */
  lemma {:induction false} ChecksHoldExactly(states: seq<State>, actions: seq<Action>)
    requires Run(states, actions)
    ensures Passes(states, actions, |actions|)
       <==> (forall i, j :: 0 <= i < j < |actions| && Strays(states[i], actions[i]) ==>
               !TakesStart(states[j], actions[j]))
  {
    hide Enabled, ChecksHold, Strays, TakesStart, Do, INITIAL;
    if Passes(states, actions, |actions|) {
      forall i, j | 0 <= i < j < |actions| && Strays(states[i], actions[i]) ensures !TakesStart(states[j], actions[j]) {
        assert Passes(states, actions, j);
        CheckAt(states, actions, j);
      }
    }
    if forall i, j :: 0 <= i < j < |actions| && Strays(states[i], actions[i]) ==> !TakesStart(states[j], actions[j]) {
      PassesIfDirected(states, actions, |actions|);
    }
  }

  /** The first failing check, if any, is that of a START-LISTEN after a transfer that went astray. */
  lemma {:induction false} CheckAt(states: seq<State>, actions: seq<Action>, k: nat)
    requires Run(states, actions) && k < |actions| && Passes(states, actions, k)
    ensures ChecksHold(states[k], actions[k]) <==> !(Strayed(states, actions, k) && TakesStart(states[k], actions[k]))
  {
    hide Enabled, ChecksHold, Strays, TakesStart, Do, Inv, INITIAL;
    RunKeeps(states, actions, k, true);
    assert StepAt(states, actions, k);
    CheckExactly(states[k], actions[k], Strayed(states, actions, k), true);
  }

  lemma {:induction false} PassesIfDirected(states: seq<State>, actions: seq<Action>, n: nat)
    requires Run(states, actions) && n <= |actions|
    requires forall i, j :: 0 <= i < j < |actions| && Strays(states[i], actions[i]) ==>
             !TakesStart(states[j], actions[j])
    ensures Passes(states, actions, n)
    decreases n
  {
    hide Enabled, ChecksHold, Strays, TakesStart, Do, INITIAL;
    if n > 0 {
      PassesIfDirected(states, actions, n - 1);
      CheckAt(states, actions, n - 1);
    }
  }

  /** With a conforming agent no check ever fails. */
  lemma {:induction false} ConformingPasses(states: seq<State>, actions: seq<Action>, n: nat)
    requires Run(states, actions) && AllConform(states, actions) && n <= |actions|
    ensures Passes(states, actions, n)
    decreases n
  {
    hide Enabled, ChecksHold, Strays, TakesStart, Do, Inv, INITIAL, Conforms;
    if n > 0 {
      ConformingPasses(states, actions, n - 1);
      RunKeeps(states, actions, n - 1, false);
      CheckAt(states, actions, n - 1);
    }
  }

  /** Every state of a run with a conforming agent is safe, no debug check fails there, and a
      listening agent has every connection if sendmsg never failed. */
  lemma {:induction false} AlwaysSafe(states: seq<State>, actions: seq<Action>, n: nat)
    requires Run(states, actions) && AllConform(states, actions) && n <= |actions|
    ensures Safe(states[n].flags) && forall a :: Enabled(states[n], a) ==> ChecksHold(states[n], a)
    ensures AllSucceed(actions) ==> Served(states[n].flags)
  {
    hide Enabled, ChecksHold, Strays, Do, Conforms, Succeeds, Served, INITIAL, Told;
    ConformingPasses(states, actions, n);
    RunKeeps(states, actions, n, false);
    forall a | Enabled(states[n], a) ensures ChecksHold(states[n], a) { CheckExactly(states[n], a, false, false); }
  }

  /** With any agent, the flags stay safe as long as no check fails. */
  lemma {:induction false} SafeWhileChecksHold(states: seq<State>, actions: seq<Action>, n: nat)
    requires Run(states, actions) && n <= |actions| && Passes(states, actions, n)
    ensures Safe(states[n].flags) && (AllSucceed(actions) ==> Served(states[n].flags))
  {
    hide Enabled, ChecksHold, Strays, Do, Succeeds, Served, INITIAL, Told;
    RunKeeps(states, actions, n, true);
  }

  // ---- who is asked for a handshake

  /** A handshake is asked for exactly when none was performed. */
  predicate AskedRight(s: State) {
    forall i :: 0 <= i < |s.asked| ==> s.asked[i].0 == !s.asked[i].1
  }

  /** The retry when data arrives, with the handshake already done. */
  predicate RetriesNeedlessly(s: State, a: Action) {
    a.Data? && s.flags.loaded && s.flags.listening && s.flags.performed
  }

  /** The retry asks in any case; everything else asks rightly. */
  lemma {:induction false} AskedStep(s: State, a: Action)
    requires Safe(s.flags) && Enabled(s, a)
    ensures AskedRight(Do(s, a)) <==> AskedRight(s) && !RetriesNeedlessly(s, a)
  {
    var s' := Do(s, a);
    assert forall i :: 0 <= i < |s.asked| ==> s'.asked[i] == s.asked[i];
    if RetriesNeedlessly(s, a) {
      assert s'.asked[|s.asked|] == (true, true);
    }
  }

  /** All requests of a run so far are right exactly if it has no such retry. */
  lemma {:induction false} AsksRightExactly(states: seq<State>, actions: seq<Action>, n: nat)
    requires Run(states, actions) && n <= |actions| && Passes(states, actions, n)
    ensures AskedRight(states[n]) <==> forall k :: 0 <= k < n ==> !RetriesNeedlessly(states[k], actions[k])
    decreases n
  {
    Initially(true);
    hide Enabled, ChecksHold, Do, AskedRight, RetriesNeedlessly, INITIAL, Safe, Inv;
    if n > 0 {
      AsksRightExactly(states, actions, n - 1);
      SafeWhileChecksHold(states, actions, n - 1);
      assert StepAt(states, actions, n - 1);
      AskedStep(states[n - 1], actions[n - 1]);
    }
  }

  /** There is none if sendmsg never fails. */
  lemma {:induction false} AlwaysAsksRight(states: seq<State>, actions: seq<Action>, n: nat)
    requires Run(states, actions) && n <= |actions| && Passes(states, actions, n) && AllSucceed(actions)
    ensures AskedRight(states[n])
  {
    hide ChecksHold, Do, AskedRight, INITIAL, Inv, Succeeds;
    forall k: nat | k < n ensures !RetriesNeedlessly(states[k], actions[k]) {
      assert Passes(states, actions, k);
      SafeWhileChecksHold(states, actions, k);
      assert StepAt(states, actions, k);
    }
    AsksRightExactly(states, actions, n);
  }

  // ---- that both can fail

  /** Every transfer goes out to an agent that waits for it, and the agent never closes. */
  ghost predicate Straight(states: seq<State>, actions: seq<Action>)
    requires |states| == |actions| + 1
  {
    forall k :: 0 <= k < |actions| ==> !actions[k].Close? && Succeeds(actions[k]) && !Misdirects(states[k], actions[k])
  }

  lemma Extend(states: seq<State>, actions: seq<Action>, a: Action) returns (states': seq<State>, actions': seq<Action>)
    requires Run(states, actions) && |states| == |actions| + 1 && Enabled(states[|actions|], a)
    ensures Run(states', actions') && actions' == actions + [a] && |states'| == |actions'| + 1
    ensures states'[|actions|] == states[|actions|] && states'[|actions'|] == Do(states[|actions|], a)
    ensures Straight(states, actions) && !a.Close? && Succeeds(a) && !Misdirects(states[|actions|], a) ==>
              Straight(states', actions')
  {
    hide Do, Enabled, INITIAL, Misdirects, Succeeds;
    states', actions' := states + [Do(states[|actions|], a)], actions + [a];
    forall k | 0 <= k < |actions'| ensures StepAt(states', actions', k) {
      if k < |actions| {
        assert StepAt(states, actions, k);
      }
    }
  }

  lemma NothingRun()
    ensures Run([INITIAL], []) && Straight([INITIAL], [])
  {
  }

  /** The client does the handshake and makes the agent load. */
  lemma AgentLoads() returns (states: seq<State>, actions: seq<Action>)
    ensures Run(states, actions) && |states| == |actions| + 1 && Straight(states, actions)
    ensures states[|actions|] == State(Flags(true, true, false, false, false, true), Idle, false, [], [], [])
  {
    hide Run, Straight;
    states, actions := [INITIAL], [];
    NothingRun();
    states, actions := Extend(states, actions, NewConnection(true));
    states, actions := Extend(states, actions, Data(DidHandshake, true));
    states, actions := Extend(states, actions, Data(LoadedAgent, true));
  }

  /** The agent starts to listen. */
  lemma AgentListens() returns (states: seq<State>, actions: seq<Action>)
    ensures Run(states, actions) && |states| == |actions| + 1 && Straight(states, actions)
    ensures var s := states[|actions|];
            && s.flags == Flags(true, true, false, false, false, true) && s.phase == Awaiting
            && s.agentListens && s.toPoll == [StartListen] && s.toAgent == [] && s.asked == []
  {
    hide Run, Straight;
    states, actions := AgentLoads();
    states, actions := Extend(states, actions, Listen);
  }

  /** With a failing sendmsg, the retry asks for a handshake that was performed. */
  lemma RetryAsksAgain() returns (states: seq<State>, actions: seq<Action>)
    ensures Run(states, actions) && !AskedRight(states[|actions|])
  {
    hide Run, Straight;
    states, actions := AgentListens();
    states, actions := Extend(states, actions, TakeMessage(false));
    states, actions := Extend(states, actions, Data(Handled, true));
    assert states[|actions|].asked[1] == (true, true);
  }

  /** The connection goes over to the agent. */
  lemma AgentAttaches() returns (states: seq<State>, actions: seq<Action>)
    ensures Run(states, actions) && |states| == |actions| + 1
    ensures var s := states[|actions|];
            && s.flags == Flags(true, true, true, true, false, false) && s.phase == Opening
            && s.agentListens && s.toPoll == [] && s.toAgent == []
  {
    hide Run, Straight;
    states, actions := AgentListens();
    states, actions := Extend(states, actions, TakeMessage(true));
    states, actions := Extend(states, actions, ReceiveFds);
    states, actions := Extend(states, actions, TakeMessage(true));
  }

  /** The agent accepts and closes before it says that it no longer listens. */
  lemma ClosedEarly() returns (states: seq<State>, actions: seq<Action>)
    ensures Run(states, actions) && |states| == |actions| + 1
    ensures var s := states[|actions|];
            && s.flags == Flags(false, true, true, false, false, false) && s.phase == Idle
            && s.agentListens && s.toPoll == [] && s.toAgent == []
  {
    hide Run, Straight;
    states, actions := AgentAttaches();
    states, actions := Extend(states, actions, FinishHandshake);
    states, actions := Extend(states, actions, TakeMessage(true));
    states, actions := Extend(states, actions, Close);
    states, actions := Extend(states, actions, TakeMessage(true));
  }

  /** If END-LISTEN comes after CLOSING, a connection that arrives between the two is handed to
      nobody, and the next START-LISTEN finds it sent already. */
  lemma LateEndBreaksCheck() returns (states: seq<State>, actions: seq<Action>)
    ensures Run(states, actions) && |states| == |actions| + 1 && !Passes(states, actions, |actions|)
  {
    hide Run, Straight;
    states, actions := ClosedEarly();
    states, actions := Extend(states, actions, NewConnection(true));
    states, actions := Extend(states, actions, StopListening);
    states, actions := Extend(states, actions, TakeMessage(true));
    states, actions := Extend(states, actions, Listen);
    states, actions := Extend(states, actions, TakeMessage(true));
    assert !ChecksHold(states[|actions| - 1], actions[|actions| - 1]);
  }

  /** The agent fails to receive the descriptors that are sent to it. */
  lemma LostInTransit() returns (states: seq<State>, actions: seq<Action>)
    ensures Run(states, actions) && |states| == |actions| + 1 && Straight(states, actions)
    ensures var s := states[|actions|];
            && s.flags == Flags(true, true, true, false, true, true) && s.phase == Awaiting
            && s.agentListens && s.toPoll == [] && s.toAgent == []
  {
    hide Run, Straight;
    states, actions := AgentListens();
    states, actions := Extend(states, actions, TakeMessage(true));
    states, actions := Extend(states, actions, LoseFds);
  }

  /** If it then stops listening, the next START-LISTEN finds them sent already, although the agent has closed
      nothing and every transfer was sent to an agent that waited for it. */
  lemma LossBreaksCheck() returns (states: seq<State>, actions: seq<Action>)
    ensures Run(states, actions) && |states| == |actions| + 1 && !Passes(states, actions, |actions|)
    ensures Straight(states, actions)
  {
    hide Run, Straight;
    states, actions := LostInTransit();
    states, actions := Extend(states, actions, StopListening);
    states, actions := Extend(states, actions, TakeMessage(true));
    states, actions := Extend(states, actions, Listen);
    states, actions := Extend(states, actions, TakeMessage(true));
    assert !ChecksHold(states[|actions| - 1], actions[|actions| - 1]);
  }
}
