/**
 * The asyncio `Peer` of main.py. Its datagrams come from a FIFO queue fed by
 * the endpoint's protocol, which keeps each datagram whole together with its
 * source; `receive` throws the source away, so nothing is filtered by address.
 */
module AsyncPeer {
  import opened Results
  import opened Bytes
  import opened AddressCodec
  import opened Network
  import opened PeerPackets

  const MaxPacketSize := 1472

  /**
   * What `receive` returns, and what remains of the queue: the next datagram,
   * from whatever source, unpacked; ACCEPTs are passed over while CONNECTED.
   * Where the queue runs dry the source waits for more; here that is `QueueEmpty`.
   */
  function NextPacket(queue: seq<Datagram>, state: PeerState): (r: (Result<Packet, Error>, seq<Datagram>))
    ensures |r.1| <= |queue|
    ensures r.0 == Err(QueueEmpty) <==> r.1 == []  && forall j :: 0 <= j < |queue| ==> Skipped(queue[j].data, state)
    ensures r.0.Ok? && state == Connected ==> r.0.value.kind != Accept
    ensures r.0.Err? ==> r.0.error.UnknownPacketType? || r.0 == Err(QueueEmpty)
    decreases |queue|
  {
    if queue == [] then (Err(QueueEmpty), [])
    else
      match Unpack(queue[0].data)
      case Err(e) => (Err(e), queue[1..])
      case Ok(p) =>
        if p.kind == Accept && state == Connected then NextPacket(queue[1..], state)
        else (Ok(p), queue[1..])
  }

  /** The datagram bytes `receive` passes over in `state`: an ACCEPT while CONNECTED. */
  predicate Skipped(data: seq<byte>, state: PeerState)
    ensures Skipped(data, state) <==> state == Connected && |data| > 0 && data[0] == 1
  {
    Unpack(data).Ok? && Unpack(data).value.kind == Accept && state == Connected
  }

  /** `receive` consumes the queue from the front only: what remains is a suffix of it. */
  lemma {:induction false} NextPacketSuffix(queue: seq<Datagram>, state: PeerState)
    ensures var r := NextPacket(queue, state); r.1 == queue[|queue| - |r.1|..]
    decreases |queue|
  {
    if queue != [] && Skipped(queue[0].data, state) {
      NextPacketSuffix(queue[1..], state);
      var k := |NextPacket(queue, state).1|;
      assert queue[1..][|queue[1..]| - k..] == queue[|queue| - k..];
    }
  }

  /**
   * The source address plays no part: two queues with the same bytes in the
   * same order give the same packet, and leave queues of the same length.
   */
  lemma {:induction false} SourceIgnored(queue: seq<Datagram>, other: seq<Datagram>, state: PeerState)
    requires |queue| == |other|
    requires forall j :: 0 <= j < |queue| ==> queue[j].data == other[j].data
    ensures NextPacket(queue, state).0 == NextPacket(other, state).0
    ensures |NextPacket(queue, state).1| == |NextPacket(other, state).1|
    decreases |queue|
  {
    if queue != [] {
      assert queue[0].data == other[0].data;
      forall j | 0 <= j < |queue[1..]| ensures queue[1..][j].data == other[1..][j].data {
        assert queue[1..][j] == queue[j + 1] && other[1..][j] == other[j + 1];
      }
      SourceIgnored(queue[1..], other[1..], state);
    }
  }

  /** A packet at the head of the queue, from any source, is what `receive` returns unless it is skipped. */
  lemma ReceiveDelivers(p: Packet, source: Endpoint, rest: seq<Datagram>, state: PeerState)
    requires !(p.kind == Accept && state == Connected)
    ensures NextPacket([Datagram(Pack(p), source)] + rest, state) == (Ok(p), rest)
  {
    UnpackPack(p);
    assert ([Datagram(Pack(p), source)] + rest)[1..] == rest;
  }

  /** A datagram at the head of the queue, from any source, whose type byte is unknown is consumed and makes `receive` fail. */
  lemma UnknownAtHead(d: Datagram, rest: seq<Datagram>, state: PeerState)
    requires |d.data| > 0 && d.data[0] > 3
    ensures NextPacket([d] + rest, state) == (Err(UnknownPacketType(d.data[0])), rest)
  {
    assert ([d] + rest)[1..] == rest;
  }

  /**
   * What `receive` returns is decided by the first datagram of the queue it
   * does not skip: its bytes are what is unpacked; every datagram before it
   * was an ACCEPT while CONNECTED and is consumed.
   */
  lemma {:induction false} NextPacketFirstUnskipped(queue: seq<Datagram>, state: PeerState)
    ensures var r := NextPacket(queue, state);
      var k := |queue| - |r.1| - 1;
      r.0 != Err(QueueEmpty) ==>
        && 0 <= k
        && r.0 == Unpack(queue[k].data)
        && !Skipped(queue[k].data, state)
        && forall j :: 0 <= j < k ==> Skipped(queue[j].data, state)
    decreases |queue|
  {
    if queue != [] {
      var r := NextPacket(queue, state);
      if Skipped(queue[0].data, state) {
        NextPacketFirstUnskipped(queue[1..], state);
        forall j | 1 <= j < |queue| ensures queue[j] == queue[1..][j - 1] { }
        assert |queue| - |r.1| - 1 == (|queue[1..]| - |r.1| - 1) + 1;
      } else {
        assert r == (Unpack(queue[0].data), queue[1..]);
        assert |queue| - |r.1| - 1 == 0;
      }
    }
  }

  /** While CONNECTED, ACCEPTs at the head of the queue are passed over and the packet after them is returned. */
  lemma {:induction false} LateAcceptsSkipped(accepts: seq<Packet>, p: Packet, source: Endpoint, rest: seq<Datagram>)
    requires forall j :: 0 <= j < |accepts| ==> accepts[j].kind == Accept
    requires p.kind != Accept
    ensures NextPacket(Datagrams(accepts + [p], source) + rest, Connected) == (Ok(p), rest)
    decreases |accepts|
  {
    var queue := Datagrams(accepts + [p], source) + rest;
    if accepts == [] {
      assert queue == [Datagram(Pack(p), source)] + rest;
      ReceiveDelivers(p, source, rest, Connected);
    } else {
      UnpackPack(accepts[0]);
      assert queue[0] == Datagram(Pack(accepts[0]), source);
      assert queue[1..] == Datagrams(accepts[1..] + [p], source) + rest;
      LateAcceptsSkipped(accepts[1..], p, source, rest);
    }
  }

  /**
   * Both sides connect at once. Seen from either side: the other's CONNECT
   * is queued first, then the ACCEPT the other sends when it gets our
   * CONNECT. The side answers ACCEPT, becomes CONNECTED, and the next
   * `receive` passes over the other's ACCEPT.
   */
  lemma SimultaneousConnect(other: Endpoint, p: Packet, later: seq<Datagram>)
    requires p.kind != Accept
    ensures var queue := Datagrams([Packet(Connect, []), Packet(Accept, []), p], other) + later;
      var next := NextPacket(queue, Disconnected);
      && AnswerReply(next.0, Disconnected) == Answer(Pass, [Packet(Accept, [])], Connected)
      && NextPacket(next.1, Connected) == (Ok(p), later)
  {
    var queue := Datagrams([Packet(Connect, []), Packet(Accept, []), p], other) + later;
    var rest := Datagrams([Packet(Accept, []), p], other) + later;
    assert queue == [Datagram(Pack(Packet(Connect, [])), other)] + rest;
    ReceiveDelivers(Packet(Connect, []), other, rest, Disconnected);
    assert [Packet(Accept, [])] + [p] == [Packet(Accept, []), p];
    LateAcceptsSkipped([Packet(Accept, [])], p, other, later);
  }

  class Peer {
    /** The remote address the endpoint is connected to; every send goes there. */
    const address: Endpoint
    var state: PeerState
    /** The protocol's queue of received datagrams, oldest first. */
    var queue: seq<Datagram>
    /** Every datagram sent, in order. */
    var sent: seq<Datagram>

    /** `Peer(transport, protocol)`: DISCONNECTED, over a fresh endpoint. */
    constructor (address: Endpoint, queue: seq<Datagram>)
      ensures this.address == address && state == Disconnected
      ensures this.queue == queue && sent == []
    {
      this.address := address;
      state := Disconnected;
      this.queue := queue;
      sent := [];
    }

    /** `send`: the packed packet goes to the connected address. */
    method Send(p: Packet)
      modifies this`sent
      ensures sent == old(sent) + Datagrams([p], address)
    {
      sent := sent + [Datagram(Pack(p), address)];
    }

    /** `receive`: takes datagrams off the queue until one is not passed over. */
    method Receive() returns (r: Result<Packet, Error>)
      modifies this`queue
      ensures (r, queue) == NextPacket(old(queue), state)
    {
      while queue != []
        invariant NextPacket(queue, state) == NextPacket(old(queue), state)
        decreases |queue|
      {
        var d := queue[0];
        queue := queue[1..];
        var u := Unpack(d.data);
        if u.Err? {
          return Err(u.error);
        }
        if !(u.value.kind == Accept && state == Connected) {
          return u;
        }
      }
      r := Err(QueueEmpty);
    }

    /** `_establish`: the only assignment to the state. */
    method Establish()
      modifies this`state
      ensures state == Connected
    {
      state := Connected;
    }

    /**
     * `Peer.connect`: a fresh DISCONNECTED peer sends CONNECT, receives one
     * reply and answers it as `AnswerReply` says; on a failed handshake the
     * source raises, and here the peer is returned with the failure.
     */
    static method Connect(address: Endpoint, queue: seq<Datagram>) returns (peer: Peer, r: Outcome<Error>)
      ensures fresh(peer) && peer.address == address
      ensures var next := NextPacket(queue, Disconnected);
        var a := AnswerReply(next.0, Disconnected);
        && r == a.outcome
        && peer.state == a.state
        && peer.queue == next.1
        && peer.sent == Datagrams([Packet(PacketType.Connect, [])] + a.replies, address)
    {
      peer := new Peer(address, queue);
      var hello := Packet(PacketType.Connect, []);
      peer.Send(hello);
      var reply := peer.Receive();
      if reply.Err? {
        return peer, Fail(reply.error);
      }
      match reply.value.kind {
        case Connect =>
          peer.Send(Packet(Accept, []));
          peer.Establish();
          r := Pass;
          DatagramsAppend([hello], [Packet(Accept, [])], address);
        case Accept =>
          peer.Establish();
          r := Pass;
          assert [hello] + AnswerReply(NextPacket(queue, Disconnected).0, Disconnected).replies == [hello];
        case _ =>
          r := Fail(HandshakeError(reply.value.kind));
          assert [hello] + AnswerReply(NextPacket(queue, Disconnected).0, Disconnected).replies == [hello];
      }
    }
  }
}
