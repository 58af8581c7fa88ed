/**
 * The session of impl.py: the three-type packet framing and a `Session`
 * object that binds one peer endpoint and runs the CONNECT/ACCEPT handshake.
 */
module SessionProtocol {
  import opened Results
  import opened Bytes
  import opened AddressCodec
  import opened Network

  /** The receive buffer size passed to `recvfrom`. */
  const MaxPacketSize := 65507

  // ---- framing ----

  datatype PacketType = Connect | Accept | File

  /** The enum value of a packet type. */
  function Ordinal(t: PacketType): byte
  {
    match t
    case Connect => 0
    case Accept => 1
    case File => 2
  }

  /** `PacketType(v)`: the member with value v; Python raises ValueError for any other v. */
  function TypeOf(v: nat): (r: Option<PacketType>)
    ensures r.Some? <==> v <= 2
    ensures r.Some? ==> Ordinal(r.value) == v
    ensures forall t :: Ordinal(t) == v ==> r == Some(t)
  {
    if v == 0 then Some(Connect)
    else if v == 1 then Some(Accept)
    else if v == 2 then Some(File)
    else None
  }

  datatype Packet = Packet(kind: PacketType, payload: seq<byte>)

  datatype Error =
    | MissingPeer                    // MissingPeerError: no peer is bound
    | UnknownPacketType(value: nat)  // ValueError from `PacketType(...)`
    | Timeout                        // the socket timed out waiting for a datagram
    | HandshakeError(got: PacketType) // HandshakeError: the reply was neither CONNECT nor ACCEPT

  /** `Packet.pack`: the type's value as one byte, then the payload. */
  function Pack(p: Packet): (data: seq<byte>)
    ensures |data| == 1 + |p.payload|
    ensures data[0] == Ordinal(p.kind) && data[1..] == p.payload
  {
    [Ordinal(p.kind)] + p.payload
  }

  /**
   * `Packet.unpack`: the type from the first byte, the payload from the rest.
   * An empty buffer reads as value 0, so it is a CONNECT with no payload.
   */
  function Unpack(data: seq<byte>): (r: Result<Packet, Error>)
    ensures r.Err? <==> |data| > 0 && data[0] > 2
    ensures r.Err? ==> r.error == UnknownPacketType(data[0])
    ensures r.Ok? && data != [] ==> Pack(r.value) == data
    ensures data == [] ==> r == Ok(Packet(Connect, []))
  {
    var v := FromBigEndian(Take(data, 1));
    assert data != [] ==> Take(data, 1) == [data[0]] && [data[0]][..0] == [];
    match TypeOf(v)
    case None => Err(UnknownPacketType(v))
    case Some(t) => Ok(Packet(t, Drop(data, 1)))
  }

  /** Round trip: unpacking a packed packet gives it back. */
  lemma UnpackPack(p: Packet)
    ensures Unpack(Pack(p)) == Ok(p)
  {
    var data := Pack(p);
    assert Take(data, 1) == [Ordinal(p.kind)] && [Ordinal(p.kind)][..0] == [];
  }

  // ---- the session ----

  datatype SessionState = Disconnected | Connected

  /**
   * Whether `receive_packet` passes over datagram d instead of returning it:
   * it came from another endpoint, or it is an ACCEPT while CONNECTED.
   */
  predicate Skipped(d: Datagram, peer: Endpoint, state: SessionState)
    ensures d.addr != peer ==> Skipped(d, peer, state)
    ensures d.addr == peer && state == Disconnected ==> !Skipped(d, peer, state)
    ensures d.addr == peer && state == Connected ==> (Skipped(d, peer, state) <==> |d.data| > 0 && d.data[0] == 1)
  {
    var u := Unpack(Received(d.data, MaxPacketSize));
    d.addr != peer || (state == Connected && u.Ok? && u.value.kind == Accept)
  }

  /**
   * What `receive_packet` returns, and what remains of the input, when the
   * socket will deliver `inbox` and the bound peer is `peer`.
   */
  function ReceiveFrom(inbox: seq<Datagram>, peer: Endpoint, state: SessionState): (r: (Result<Packet, Error>, seq<Datagram>))
    ensures |r.1| <= |inbox|
    ensures r.0 == Err(Timeout) ==> r.1 == []
    ensures r.0 != Err(Timeout) ==> |r.1| < |inbox|
    ensures r.0.Ok? && state == Connected ==> r.0.value.kind != Accept
    ensures r.0.Err? ==> r.0.error.UnknownPacketType? || r.0.error == Timeout
    decreases |inbox|
  {
    if inbox == [] then (Err(Timeout), [])
    else if inbox[0].addr != peer then ReceiveFrom(inbox[1..], peer, state)
    else
      match Unpack(Received(inbox[0].data, MaxPacketSize))
      case Err(e) => (Err(e), inbox[1..])
      case Ok(p) =>
        if p.kind == Accept && state == Connected then ReceiveFrom(inbox[1..], peer, state)
        else (Ok(p), inbox[1..])
  }

  /** `receive_packet` consumes datagrams from the front only: what remains is a suffix of the input. */
  lemma {:induction false} ReceiveFromSuffix(inbox: seq<Datagram>, peer: Endpoint, state: SessionState)
    ensures var r := ReceiveFrom(inbox, peer, state); r.1 == inbox[|inbox| - |r.1|..]
    decreases |inbox|
  {
    if inbox != [] {
      var r := ReceiveFrom(inbox, peer, state);
      ReceiveFromStep(inbox, peer, state);
      if Skipped(inbox[0], peer, state) {
        ReceiveFromSuffix(inbox[1..], peer, state);
        assert inbox[1..][|inbox[1..]| - |r.1|..] == inbox[|inbox| - |r.1|..];
      }
    }
  }

  /** One step of `receive_packet`: a skipped datagram is consumed, any other decides the result. */
  lemma ReceiveFromStep(inbox: seq<Datagram>, peer: Endpoint, state: SessionState)
    requires inbox != []
    ensures Skipped(inbox[0], peer, state) ==> ReceiveFrom(inbox, peer, state) == ReceiveFrom(inbox[1..], peer, state)
    ensures !Skipped(inbox[0], peer, state) ==>
      ReceiveFrom(inbox, peer, state) == (Unpack(Received(inbox[0].data, MaxPacketSize)), inbox[1..])
  {
  }

  /**
   * What `receive_packet` returns is decided by the first datagram it does
   * not skip: that datagram came from the peer and its bytes are what is
   * unpacked; every datagram before it was skipped and is consumed.
   */
  lemma {:induction false} ReceiveFromFirstUnskipped(inbox: seq<Datagram>, peer: Endpoint, state: SessionState)
    ensures var r := ReceiveFrom(inbox, peer, state);
      var k := |inbox| - |r.1| - 1;
      if r.0 == Err(Timeout) then
        forall j :: 0 <= j < |inbox| ==> Skipped(inbox[j], peer, state)
      else
        && 0 <= k
        && inbox[k].addr == peer
        && r.0 == Unpack(Received(inbox[k].data, MaxPacketSize))
        && !Skipped(inbox[k], peer, state)
        && forall j :: 0 <= j < k ==> Skipped(inbox[j], peer, state)
    decreases |inbox|
  {
    if inbox != [] {
      ReceiveFromStep(inbox, peer, state);
      var r := ReceiveFrom(inbox, peer, state);
      if Skipped(inbox[0], peer, state) {
        ReceiveFromFirstUnskipped(inbox[1..], peer, state);
        assert r == ReceiveFrom(inbox[1..], peer, state);
        forall j | 1 <= j < |inbox| ensures inbox[j] == inbox[1..][j - 1] { }
        assert |inbox| - |r.1| - 1 == (|inbox[1..]| - |r.1| - 1) + 1;
      } else {
        var u := Unpack(Received(inbox[0].data, MaxPacketSize));
        assert u != Err(Timeout) && r == (u, inbox[1..]);
        assert |inbox| - |r.1| - 1 == 0;
      }
    }
  }

  /** Datagrams that are skipped, foreign ones or late ACCEPTs, can be dropped from the front of the input. */
  lemma {:induction false} SkipPrefix(skipped: seq<Datagram>, rest: seq<Datagram>, peer: Endpoint, state: SessionState)
    requires forall j :: 0 <= j < |skipped| ==> Skipped(skipped[j], peer, state)
    ensures ReceiveFrom(skipped + rest, peer, state) == ReceiveFrom(rest, peer, state)
    decreases |skipped|
  {
    if skipped != [] {
      assert (skipped + rest)[1..] == skipped[1..] + rest;
      assert (skipped + rest)[0] == skipped[0] && Skipped(skipped[0], peer, state);
      ReceiveFromStep(skipped + rest, peer, state);
      forall j | 0 <= j < |skipped| - 1 ensures Skipped(skipped[1..][j], peer, state) {
        assert skipped[1..][j] == skipped[j + 1];
      }
      SkipPrefix(skipped[1..], rest, peer, state);
    } else {
      assert skipped + rest == rest;
    }
  }

  /** The result of one `connect` exchange, as far as it depends on the received reply. */
  datatype HandshakeRun = HandshakeRun(
    outcome: Outcome<Error>,
    replies: seq<Packet>,   // packets sent after the initial CONNECT
    state: SessionState,    // the state afterwards
    rest: seq<Datagram>)    // the input not consumed

  /** The CONNECT/ACCEPT decision of `connect`, given the state and the input when it starts. */
  function Handshake(inbox: seq<Datagram>, peer: Endpoint, state: SessionState): (h: HandshakeRun)
    ensures var reply := ReceiveFrom(inbox, peer, state).0;
      && (h.outcome.Pass? <==> reply.Ok? && reply.value.kind in {Connect, Accept})
      && h.replies == (if reply.Ok? && reply.value.kind == Connect then [Packet(Accept, [])] else [])
      && (reply.Ok? && h.outcome.Fail? ==> h.outcome.error == HandshakeError(reply.value.kind))
      && (reply.Err? ==> h.outcome == Fail(reply.error))
    ensures h.rest == ReceiveFrom(inbox, peer, state).1
    ensures h.outcome.Pass? ==> h.state == Connected
    ensures h.outcome.Fail? ==> h.state == state
    ensures state == Connected ==> h.state == Connected
    ensures h.replies == [] || h.replies == [Packet(Accept, [])]
  {
    var next := ReceiveFrom(inbox, peer, state);
    match next.0
    case Err(e) => HandshakeRun(Fail(e), [], state, next.1)
    case Ok(p) =>
      match p.kind
      case Connect => HandshakeRun(Pass, [Packet(Accept, [])], Connected, next.1)
      case Accept => HandshakeRun(Pass, [], Connected, next.1)
      case File => HandshakeRun(Fail(HandshakeError(File)), [], state, next.1)
  }

  /** The datagrams that sending `packets` to `peer` puts on the wire. */
  function Outbound(packets: seq<Packet>, peer: Endpoint): (ds: seq<Datagram>)
    ensures |ds| == |packets|
    ensures forall i :: 0 <= i < |ds| ==> ds[i] == Datagram(Pack(packets[i]), peer)
  {
    if packets == [] then [] else [Datagram(Pack(packets[0]), peer)] + Outbound(packets[1..], peer)
  }

  /** The datagrams of one packet and of two. */
  lemma OutboundPair(p: Packet, q: Packet, peer: Endpoint)
    ensures Outbound([p], peer) == [Datagram(Pack(p), peer)]
    ensures Outbound([p] + [q], peer) == [Datagram(Pack(p), peer), Datagram(Pack(q), peer)]
  {
  }

  class Session {
    var state: SessionState
    var peer: Option<Endpoint>
    /** The datagrams the socket has yet to deliver, in arrival order. */
    var inbox: seq<Datagram>
    /** Every datagram sent, in order, with its destination. */
    var sent: seq<Datagram>

    /** A fresh session: DISCONNECTED, with no peer bound. */
    constructor (inbox: seq<Datagram>)
      ensures state == Disconnected && peer == None
      ensures this.inbox == inbox && sent == []
    {
      state := Disconnected;
      peer := None;
      this.inbox := inbox;
      sent := [];
    }

    /** `send_packet`: refuses without a peer, otherwise sends the packed bytes to the peer. */
    method SendPacket(p: Packet) returns (r: Outcome<Error>)
      modifies this`sent
      ensures peer.None? ==> r == Fail(MissingPeer) && sent == old(sent)
      ensures peer.Some? ==> r == Pass && sent == old(sent) + [Datagram(Pack(p), peer.value)]
    {
      if peer.None? {
        return Fail(MissingPeer);
      }
      sent := sent + [Datagram(Pack(p), peer.value)];
      r := Pass;
    }

    /**
     * `receive_packet`: refuses without a peer before reading anything;
     * otherwise reads datagrams until one is not skipped.
     */
    method ReceivePacket() returns (r: Result<Packet, Error>)
      modifies this`inbox
      ensures peer.None? ==> r == Err(MissingPeer) && inbox == old(inbox)
      ensures peer.Some? ==> (r, inbox) == ReceiveFrom(old(inbox), peer.value, state)
    {
      if peer.None? {
        return Err(MissingPeer);
      }
      var from := peer.value;
      while inbox != []
        invariant ReceiveFrom(inbox, from, state) == ReceiveFrom(old(inbox), from, state)
        decreases |inbox|
      {
        var d := inbox[0];
        inbox := inbox[1..];
        if d.addr != from {
          continue;
        }
        var u := Unpack(Received(d.data, MaxPacketSize));
        if u.Err? {
          return Err(u.error);
        }
        if u.value.kind == Accept && state == Connected {
          continue;
        }
        return u;
      }
      r := Err(Timeout);
    }

    /** `_establish`: the only assignment to the state. */
    method Establish()
      modifies this`state
      ensures state == Connected
    {
      state := Connected;
    }

    /**
     * `connect`: binds the peer (even when already CONNECTED), sends CONNECT,
     * then answers the reply as `Handshake` says.
     */
    method Connect(to: Endpoint) returns (r: Outcome<Error>)
      modifies this
      ensures peer == Some(to)
      ensures var h := Handshake(old(inbox), to, old(state));
        && r == h.outcome
        && state == h.state
        && inbox == h.rest
        && sent == old(sent) + Outbound([Packet(PacketType.Connect, [])] + h.replies, to)
    {
      ghost var h := Handshake(inbox, to, state);
      ghost var hello := Datagram(Pack(Packet(PacketType.Connect, [])), to);
      peer := Some(to);
      var s := SendPacket(Packet(PacketType.Connect, []));
      var reply := ReceivePacket();
      assert (reply, inbox) == ReceiveFrom(old(inbox), to, old(state));
      if reply.Err? {
        assert h == HandshakeRun(Fail(reply.error), [], old(state), inbox);
        return Fail(reply.error);
      }
      match reply.value.kind {
        case Connect =>
          assert h == HandshakeRun(Pass, [Packet(Accept, [])], Connected, inbox);
          s := SendPacket(Packet(Accept, []));
          Establish();
          r := Pass;
          OutboundPair(Packet(PacketType.Connect, []), Packet(Accept, []), to);
        case Accept =>
          assert h == HandshakeRun(Pass, [], Connected, inbox);
          Establish();
          r := Pass;
        case File =>
          assert h == HandshakeRun(Fail(HandshakeError(File)), [], old(state), inbox);
          r := Fail(HandshakeError(File));
      }
      assert [Packet(PacketType.Connect, [])] + [] == [Packet(PacketType.Connect, [])];
    }
  }

  // ---- properties of the exchange ----

  /**
   * Both sides connect at once. Seen from either side: the other's CONNECT
   * arrives first, then the ACCEPT the other sends when it gets our CONNECT.
   * The side answers ACCEPT, becomes CONNECTED, and the other's ACCEPT is
   * then skipped, so the next packet received is the next real one. The
   * lemma holds for each of the two sessions, with the roles swapped.
   */
  lemma SimultaneousConnect(other: Endpoint, later: seq<Datagram>)
    ensures var inbox := [Datagram(Pack(Packet(Connect, [])), other), Datagram(Pack(Packet(Accept, [])), other)] + later;
      var h := Handshake(inbox, other, Disconnected);
      && h.outcome == Pass
      && h.state == Connected
      && h.replies == [Packet(Accept, [])]
      && ReceiveFrom(h.rest, other, Connected) == ReceiveFrom(later, other, Connected)
  {
    var connect := Datagram(Pack(Packet(Connect, [])), other);
    var accept := Datagram(Pack(Packet(Accept, [])), other);
    UnpackPack(Packet(Connect, []));
    UnpackPack(Packet(Accept, []));
    assert [connect, accept] + later == [connect] + ([accept] + later);
    ReceiveFromStep([connect, accept] + later, other, Disconnected);
    SkipPrefix([accept], later, other, Connected);
  }

  /** A late ACCEPT from the peer, while CONNECTED, is never returned; the packet after it is. */
  lemma LateAcceptSkipped(peer: Endpoint, payload: seq<byte>, p: Packet, rest: seq<Datagram>)
    requires |payload| < MaxPacketSize && |p.payload| < MaxPacketSize
    requires p.kind != Accept
    ensures ReceiveFrom([Datagram(Pack(Packet(Accept, payload)), peer), Datagram(Pack(p), peer)] + rest, peer, Connected)
            == (Ok(p), rest)
  {
    var acc := Datagram(Pack(Packet(Accept, payload)), peer);
    UnpackPack(Packet(Accept, payload));
    UnpackPack(p);
    SkipPrefix([acc], [Datagram(Pack(p), peer)] + rest, peer, Connected);
    assert [acc, Datagram(Pack(p), peer)] + rest == [acc] + ([Datagram(Pack(p), peer)] + rest);
  }

  /** While DISCONNECTED an ACCEPT from the peer is returned like any other packet. */
  lemma AcceptReturnedWhileDisconnected(peer: Endpoint, payload: seq<byte>, rest: seq<Datagram>)
    requires |payload| < MaxPacketSize
    ensures ReceiveFrom([Datagram(Pack(Packet(Accept, payload)), peer)] + rest, peer, Disconnected)
            == (Ok(Packet(Accept, payload)), rest)
  {
    UnpackPack(Packet(Accept, payload));
  }

  /**
   * Foreign datagrams, whatever their bytes, never make `receive_packet`
   * fail: a flood of them ahead of the peer's packet changes nothing.
   */
  lemma ForeignFloodIgnored(flood: seq<Datagram>, rest: seq<Datagram>, peer: Endpoint, state: SessionState)
    requires forall j :: 0 <= j < |flood| ==> flood[j].addr != peer
    ensures ReceiveFrom(flood + rest, peer, state) == ReceiveFrom(rest, peer, state)
  {
    SkipPrefix(flood, rest, peer, state);
  }
}
