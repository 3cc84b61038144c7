/**
 The state of the connection as the poll loop updates it in place, branch by branch.
 */
module AdbConnection {
  import opened AdbControl

  /** Messages as the agent's protocol has them: a start without the socket, an acceptance of an open one,
      a close with nothing on its way. */
  predicate Expected(f: Flags, m: Message) {
    match m
    case StartListen => !f.hasSocket
    case Attached => f.sock
    case Closing => !f.sent
    case _ => true
  }

  class AdbConnectionState {
    var socket: bool
    var agentLoaded: bool
    var agentListening: bool
    var agentHasSocket: bool
    var sentAgentFds: bool
    var performedHandshake: bool
    /** What has been sent over the control socket and not yet received. */
    var controlSocket: seq<bool>
    /** What the agent has sent and the loop has not yet read. */
    var inbox: seq<Message>

    ghost function Now(): (f: Flags)
      reads this
    {
      Flags(socket, agentLoaded, agentListening, agentHasSocket, sentAgentFds, performedHandshake)
    }

    constructor ()
      ensures Now() == INITIAL.flags && controlSocket == [] && inbox == []
    {
      socket, agentLoaded, agentListening := false, false, false;
      agentHasSocket, sentAgentFds, performedHandshake := false, false, false;
      controlSocket, inbox := [], [];
    }

    method CloseSocket()
      modifies `socket, `performedHandshake
      ensures Now() == CloseFds(old(Now())) && controlSocket == old(controlSocket)
      ensures Safe(old(Now())) && !sentAgentFds && !agentHasSocket ==> Safe(Now())
    {
      socket := false;
      performedHandshake := false;
    }

    method SendAgentFds(requireHandshake: bool, ok: bool)
      requires !sentAgentFds && socket
      modifies `sentAgentFds, `controlSocket
      ensures Now() == Transferred(old(Now()), Ask(requireHandshake), ok)
      ensures controlSocket == old(controlSocket) + Transfers(Ask(requireHandshake), ok)
      ensures sentAgentFds <==> controlSocket != old(controlSocket)
      ensures Safe(old(Now())) && !agentHasSocket ==> Safe(Now())
    {
      if ok {
        controlSocket := controlSocket + [requireHandshake];
        sentAgentFds := true;
      }
    }

    /** The agent's control socket is readable.  Messages in the order of the protocol keep the flags
        safe, and whatever is marked as sent has gone out. */
    method HandleAgentMessage(m: Message, ok: bool)
      requires agentLoaded && (OnMessage(Now(), m).1.Ask? ==> !sentAgentFds)
      modifies `socket, `agentLoaded, `agentListening, `agentHasSocket, `sentAgentFds, `performedHandshake,
               `controlSocket
      ensures var (g, t) := OnMessage(old(Now()), m);
              Now() == Transferred(g, t, ok) && controlSocket == old(controlSocket) + Transfers(t, ok)
      ensures Safe(old(Now())) && Expected(old(Now()), m) ==> Safe(Now())
      ensures sentAgentFds && !old(sentAgentFds) <==> controlSocket != old(controlSocket)
    {
      match m {
        case StartListen =>
          agentListening := true;
          if socket {
            SendAgentFds(!performedHandshake, ok);
          }
        case EndListen =>
          agentListening := false;
        case HandshakeComplete =>
          if agentHasSocket {
            performedHandshake := true;
          }
        case Closing =>
          CloseSocket();
          agentHasSocket := false;
        case Attached =>
          agentHasSocket := true;
          sentAgentFds := false;
          // The agent does the handshake, if there is one left to do.
          performedHandshake := false;
      }
    }

    /** A new descriptor from adbd; with a connection open it is dropped. */
    method HandleNewConnection(ok: bool)
      requires agentListening && agentLoaded && !socket ==> !sentAgentFds
      modifies `socket, `agentLoaded, `agentListening, `agentHasSocket, `sentAgentFds, `performedHandshake,
               `controlSocket
      ensures old(socket) ==> Now() == old(Now()) && controlSocket == old(controlSocket)
      ensures !old(socket) ==>
                var (g, t) := OnNewConnection(old(Now()));
                Now() == Transferred(g, t, ok) && controlSocket == old(controlSocket) + Transfers(t, ok)
      ensures socket && (Safe(old(Now())) ==> Safe(Now()))
      ensures controlSocket != old(controlSocket) ==> sentAgentFds && agentListening
    {
      var maybeSendFds := false;
      if !socket {
        socket := true;
        maybeSendFds := true;
      }
      if maybeSendFds && agentLoaded && agentListening {
        SendAgentFds(true, ok);
      }
    }

    /** Data from the client, while neither the agent has the socket nor it is on its way. */
    method HandleData(outcome: Outcome, ok: bool)
      requires Polls(Now()) && (!agentLoaded ==> !agentListening && Possible(Now(), outcome))
      modifies `socket, `agentLoaded, `agentListening, `agentHasSocket, `sentAgentFds, `performedHandshake,
               `controlSocket
      ensures var (g, t) := OnData(old(Now()), outcome);
              Now() == Transferred(g, t, ok) && controlSocket == old(controlSocket) + Transfers(t, ok)
      ensures Safe(old(Now())) ==> Safe(Now())
      ensures sentAgentFds <==> controlSocket != old(controlSocket)
    {
      if !agentLoaded {
        match outcome {
          case DidHandshake => performedHandshake := true;
          case Closed => CloseSocket();
          case LoadedAgent => agentLoaded := true;
          case Handled =>
          case AgentFailed =>
        }
      } else if agentListening && !sentAgentFds {
        SendAgentFds(true, ok);
      }
    }

    /** One turn of the poll loop, in any state of a run whose checks have held so far: if its own
        check holds, the fields make the step of the protocol, and the invariant is kept. */
    method Turn(a: Action, ghost s: State, ghost stray: bool, ghost loose: bool)
      requires Inv(s, stray, loose) && Enabled(s, a) && ChecksHold(s, a) && !FromAgent(a)
      requires Now() == s.flags && controlSocket == s.toAgent && inbox == s.toPoll
      modifies this
      ensures Now() == Do(s, a).flags && controlSocket == Do(s, a).toAgent && inbox == Do(s, a).toPoll
      ensures Inv(Do(s, a), stray || Strays(s, a), loose) && Safe(Now())
    {
      StepKeeps(s, a, stray, loose);
      hide Inv, Strays;
      match a {
        case TakeMessage(ok) =>
          var m := inbox[0];
          HandleAgentMessage(m, ok);
          inbox := inbox[1..];
        case NewConnection(ok) => HandleNewConnection(ok);
        case ControlHangup =>
        case Data(outcome, ok) => HandleData(outcome, ok);
        case SocketHangup => CloseSocket();
      }
      SafeInInv(Do(s, a), stray || Strays(s, a), loose);
    }
  }

  lemma SafeInInv(s: State, stray: bool, loose: bool)
    requires Inv(s, stray, loose)
    ensures Safe(s.flags)
  {
    hide Told;
  }
}
