/**
 JDWP packets as the connection sends and reads them while no agent is loaded.
 */
module AdbPackets {
  import opened Bytes
  import opened AdbWire

  const HEADER_LEN := 11
  const DDM_HEADER_LEN := 19
  const DDM_COMMAND_SET := 199
  const DDM_COMMAND := 1

  // ---- numbers in network order

  function NetU32(x: nat): (bs: seq<byte>)
    ensures |bs| == 4
  {
    [x / 0x100_0000 % 256, x / 0x1_0000 % 256, x / 0x100 % 256, x % 256]
  }

  function ReadU32(bs: seq<byte>): (x: nat)
    requires |bs| >= 4
    ensures x < TWO_TO_THE_32
  {
    var (a: int, b: int, c: int, d: int) := (bs[0], bs[1], bs[2], bs[3]);
    ((a * 256 + b) * 256 + c) * 256 + d
  }

  lemma NetRoundTrip(x: nat, rest: seq<byte>)
    requires x < TWO_TO_THE_32
    ensures ReadU32(NetU32(x) + rest) == x
  {
    Digits(x);
    assert (NetU32(x) + rest)[..4] == NetU32(x);
  }

  lemma Digits(x: nat)
    requires x < TWO_TO_THE_32
    ensures var (a, b, c) := (x / 0x100, x / 0x1_0000, x / 0x100_0000);
            c < 256 && ((c * 256 + b % 256) * 256 + a % 256) * 256 + x % 256 == x
  {
    var a := x / 256;
    var b := a / 256;
    var c := b / 256;
    DivModUnique(x, 0x1_0000, b, 256 * (a % 256) + x % 256);
    DivModUnique(x, 0x100_0000, c, 0x1_0000 * (b % 256) + 256 * (a % 256) + x % 256);
  }

  // ---- a packet

  datatype PacketType = Command | Reply

  function PacketBytes(id: nat, t: PacketType, chunk: nat, data: seq<byte>): (bs: seq<byte>) {
    NetU32(DDM_HEADER_LEN + |data|) + NetU32(id)
    + (if t == Command then [0x00, DDM_COMMAND_SET, DDM_COMMAND] else [0x80, 0, 0])
    + NetU32(chunk) + NetU32(|data|) + data
  }

  /** Copying to where the pointer stands, behind what is there. */
  method Put(pkt: array<byte>, at: nat, bs: seq<byte>) returns (next: nat)
    requires at + |bs| <= pkt.Length
    modifies pkt
    ensures next == at + |bs| && pkt[..next] == old(pkt[..at]) + bs
  {
    for i := 0 to |bs|
      invariant pkt[..at + i] == old(pkt[..at]) + bs[..i]
    {
      pkt[at + i] := bs[i];
      assert pkt[..at + i + 1] == pkt[..at + i] + [bs[i]];
    }
    next := at + |bs|;
    assert bs[..|bs|] == bs;
  }

  /** SendDdmPacket: the header is filled through a moving pointer, then both are sent. */
  method BuildPacket(id: nat, t: PacketType, chunk: nat, data: seq<byte>) returns (bytes: seq<byte>)
    ensures bytes == PacketBytes(id, t, chunk, data)
  {
    hide NetU32;
    var pkt := new byte[DDM_HEADER_LEN](_ => 0);
    var at := Put(pkt, 0, NetU32(DDM_HEADER_LEN + |data|));
    at := Put(pkt, at, NetU32(id));
    at := Put(pkt, at, if t == Command then [0x00, DDM_COMMAND_SET, DDM_COMMAND] else [0x80, 0, 0]);
    at := Put(pkt, at, NetU32(chunk));
    at := Put(pkt, at, NetU32(|data|));
    assert pkt[..at] == pkt[..];
    bytes := pkt[..] + data;
  }

  // ---- reading one

  /** The packet is one that the connection handles itself. */
  predicate IsDdm(p: seq<byte>) {
    |p| >= HEADER_LEN && ReadU32(p) == |p| && p[9] == DDM_COMMAND_SET && p[10] == DDM_COMMAND
  }

  datatype Chunk = Chunk(id: nat, chunk: nat, data: seq<byte>)

  /** What is handed on; a chunk that claims more than there is is ignored. */
  function ChunkOf(p: seq<byte>): (c: Option<Chunk>)
    requires IsDdm(p)
  {
    if |p| < DDM_HEADER_LEN then None
    else
      var length := ReadU32(p[15..]);
      if length > |p| - DDM_HEADER_LEN then None
      else Some(Chunk(ReadU32(p[4..]), ReadU32(p[11..]), p[DDM_HEADER_LEN..DDM_HEADER_LEN + length]))
  }

  /** Every field of a packet, command or reply, can be read where the receiver looks for it. */
  lemma {:induction false} PacketFields(id: nat, t: PacketType, chunk: nat, data: seq<byte>)
    requires id < TWO_TO_THE_32 && chunk < TWO_TO_THE_32 && DDM_HEADER_LEN + |data| < TWO_TO_THE_32
    ensures var p := PacketBytes(id, t, chunk, data);
            && |p| == ReadU32(p) == DDM_HEADER_LEN + |data| && ReadU32(p[4..]) == id
            && p[8..11] == (if t == Command then [0x00, DDM_COMMAND_SET, DDM_COMMAND] else [0x80, 0, 0])
            && ReadU32(p[11..]) == chunk && ReadU32(p[15..]) == |data| && p[19..] == data
  {
    hide NetU32, ReadU32;
    var p := PacketBytes(id, t, chunk, data);
    var command: seq<byte> := if t == Command then [0x00, DDM_COMMAND_SET, DDM_COMMAND] else [0x80, 0, 0];
    var e := NetU32(|data|) + data;
    var d := NetU32(chunk) + e;
    var c := NetU32(id) + (command + d);
    assert p == NetU32(DDM_HEADER_LEN + |data|) + c;
    assert p[4..] == c && p[8..11] == command && p[11..] == d && p[15..] == e && p[19..] == data;
    NetRoundTrip(DDM_HEADER_LEN + |data|, c);
    NetRoundTrip(id, command + d);
    NetRoundTrip(chunk, e);
    NetRoundTrip(|data|, data);
  }

  /** A command that is sent is one packet to the reader, with the same contents. */
  lemma {:induction false} CommandRoundTrip(id: nat, chunk: nat, data: seq<byte>)
    requires id < TWO_TO_THE_32 && chunk < TWO_TO_THE_32 && DDM_HEADER_LEN + |data| < TWO_TO_THE_32
    ensures var p := PacketBytes(id, Command, chunk, data);
            IsDdm(p) && ChunkOf(p) == Some(Chunk(id, chunk, data))
  {
    hide NetU32, ReadU32, PacketBytes;
    PacketFields(id, Command, chunk, data);
    var p := PacketBytes(id, Command, chunk, data);
    assert p[8..11][1] == p[9] && p[8..11][2] == p[10];
    assert p[19..19 + |data|] == data;
  }

  // ---- the client's stream while no agent is loaded

  /** What the system calls of one turn report. */
  datatype Calls = Calls(peek: bool, ioctl: bool, recv: bool, send: bool, attach: bool)

  /** All of a client's bytes so far, as handshake, packets and what is unread. */
  ghost predicate Split(received: seq<byte>, packets: seq<seq<byte>>, pending: seq<byte>) {
    && received == HANDSHAKE + Flatten(packets) + pending
    && forall i :: 0 <= i < |packets| ==> IsDdm(packets[i])
  }

  lemma SplitMore(received: seq<byte>, packets: seq<seq<byte>>, pending: seq<byte>, n: nat)
    requires Split(received, packets, pending) && n <= |pending| && IsDdm(pending[..n])
    ensures Split(received, packets + [pending[..n]], pending[n..])
  {
    hide HANDSHAKE, IsDdm;
    FlattenAppend(packets, pending[..n]);
    assert pending == pending[..n] + pending[n..];
  }

  class Client {
    var pending: seq<byte>
    var open: bool
    var performed: bool
    var loaded: bool
    ghost var received: seq<byte>
    ghost var packets: seq<seq<byte>>

    /** While the connection is open, nothing is unread but what follows a whole packet. */
    ghost predicate Valid()
      reads this
    {
      && (open && !performed ==> pending == received && packets == [])
      && (open && performed ==> Split(received, packets, pending))
      && (loaded ==> performed)
    }

    constructor ()
      ensures Valid() && open && !performed && !loaded && received == []
    {
      pending, open, performed, loaded := [], true, false, false;
      received, packets := [], [];
    }

    method Arrive(bytes: seq<byte>)
      requires Valid() && open
      modifies `pending, `received
      ensures Valid() && received == old(received) + bytes
    {
      hide Flatten, HANDSHAKE, IsDdm;
      pending := pending + bytes;
      received := received + bytes;
    }

    method PerformHandshake(calls: Calls)
      requires Valid() && open && !performed && !loaded
      modifies this
      ensures Valid() && received == old(received) && !loaded
      ensures open ==> performed && HANDSHAKE <= received && packets == []
    {
      hide HANDSHAKE;
      if !calls.ioctl || |pending| < |HANDSHAKE| || !calls.recv {
        open := false;
        return;
      }
      var message := pending[..|HANDSHAKE|];
      pending := pending[|HANDSHAKE|..];
      if message != HANDSHAKE || !calls.send {
        open := false;
        return;
      }
      performed := true;
      assert received == HANDSHAKE + Flatten([]) + pending;
    }

    /** A turn with data on the socket: read a whole packet, or leave all for the agent. */
    method HandleDataWithoutAgent(calls: Calls) returns (chunk: Option<Chunk>)
      requires Valid() && open && !loaded
      modifies this
      ensures Valid() && received == old(received)
      ensures loaded ==> open && pending == old(pending)
      ensures open && old(performed) && pending != old(pending) ==>
                && |packets| == |old(packets)| + 1 && IsDdm(packets[|old(packets)|])
                && chunk == ChunkOf(packets[|old(packets)|])
      ensures chunk.Some? ==> open && pending != old(pending) && old(performed)
    {
      hide HANDSHAKE, Split;
      chunk := None;
      if !performed {
        PerformHandshake(calls);
        return;
      }
      if !calls.peek || pending == [] {
        open := false;
        return;
      }
      if |pending| < HEADER_LEN {
        loaded := calls.attach;
        return;
      }
      var fullLen := ReadU32(pending);
      if pending[9] != DDM_COMMAND_SET || pending[10] != DDM_COMMAND || fullLen < HEADER_LEN {
        loaded := calls.attach;
        return;
      }
      if !calls.ioctl {
        open := false;
        return;
      }
      if |pending| < fullLen {
        loaded := calls.attach;
        return;
      }
      if !calls.recv {
        open := false;
        return;
      }
      var packet := pending[..fullLen];
      assert ReadU32(packet) == ReadU32(pending);
      SplitMore(received, packets, pending, fullLen);
      pending := pending[fullLen..];
      packets := packets + [packet];
      chunk := ChunkOf(packet);
    }
  }

  datatype Event = Bytes(bytes: seq<byte>) | Turn(calls: Calls)

  /** Whatever arrives in whatever pieces: when the agent is loaded, it finds the unread
      input at the start of a packet. */
  method RunAgentless(events: seq<Event>) returns (loaded: bool, turns: nat, unread: seq<byte>)
    ensures turns <= |events|
    ensures loaded ==> exists packets :: Split(Received(events[..turns]), packets, unread)
  {
    hide Split;
    var client := new Client();
    turns := 0;
    while turns < |events| && client.open && !client.loaded
      invariant turns <= |events| && client.Valid() && fresh(client) && (client.loaded ==> client.open)
      invariant client.received == Received(events[..turns])
    {
      assert events[..turns + 1][..turns] == events[..turns];
      match events[turns] {
        case Bytes(bytes) => client.Arrive(bytes);
        case Turn(calls) => var chunk := client.HandleDataWithoutAgent(calls);
      }
      turns := turns + 1;
    }
    loaded, unread := client.loaded, client.pending;
    assert loaded ==> Split(Received(events[..turns]), client.packets, unread);
  }

  /** All the bytes that arrive in a run. */
  ghost function Received(events: seq<Event>): (bs: seq<byte>) {
    if events == [] then []
    else
      var last := events[|events| - 1];
      Received(events[..|events| - 1]) + if last.Bytes? then last.bytes else []
  }
}
