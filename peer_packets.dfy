/**
 * The framing and handshake decision shared by new.py and main.py, whose
 * `PacketType`, `Packet` and `connect` match blocks are the same code.
 */
module PeerPackets {
  import opened Results
  import opened Bytes
  import opened AddressCodec
  import opened Network

  datatype PacketType = Connect | Accept | TransferBegin | TransferChunk

  /** The enum value of a packet type. */
  function Ordinal(t: PacketType): byte
  {
    match t
    case Connect => 0
    case Accept => 1
    case TransferBegin => 2
    case TransferChunk => 3
  }

  /** `PacketType(v)`: the member with value v; Python raises ValueError for any other v. */
  function TypeOf(v: nat): (r: Option<PacketType>)
    ensures r.Some? <==> v <= 3
    ensures r.Some? ==> Ordinal(r.value) == v
    ensures forall t :: Ordinal(t) == v ==> r == Some(t)
  {
    if v == 0 then Some(Connect)
    else if v == 1 then Some(Accept)
    else if v == 2 then Some(TransferBegin)
    else if v == 3 then Some(TransferChunk)
    else None
  }

  datatype Packet = Packet(kind: PacketType, payload: seq<byte>)

  /**
   * The states of a peer. The source's enum also lists TRANSFER_BEGIN and
   * TRANSFER_CHUNK, which nothing ever assigns.
   */
  datatype PeerState = Disconnected | Connected

  datatype Error =
    | UnknownPacketType(value: nat)                        // ValueError from `PacketType(...)`
    | Timeout                                             // the socket timed out (new.py)
    | QueueEmpty                                          // the inbound queue has nothing more (main.py)
    | HandshakeError(got: PacketType)                     // the reply was neither CONNECT nor ACCEPT
    | UnexpectedPacket(expected: PacketType, got: PacketType) // ValueError in `receive_file`
    | TooManyChunks(count: nat)                           // OverflowError from `len(chunks).to_bytes(4)`

  /** `Packet.pack`: the type's value as one byte, then the payload. */
  function Pack(p: Packet): (data: seq<byte>)
    ensures |data| == 1 + |p.payload|
    ensures data[0] == Ordinal(p.kind) && data[1..] == p.payload
  {
    [Ordinal(p.kind)] + p.payload
  }

  /**
   * `Packet.unpack`: the type from the first byte, the payload from the rest.
   * An empty buffer reads as value 0, so it is a CONNECT with no payload.
   */
  function Unpack(data: seq<byte>): (r: Result<Packet, Error>)
    ensures r.Err? <==> |data| > 0 && data[0] > 3
    ensures r.Err? ==> r.error == UnknownPacketType(data[0])
    ensures r.Ok? && data != [] ==> Pack(r.value) == data
    ensures data == [] ==> r == Ok(Packet(Connect, []))
  {
    var v := FromBigEndian(Take(data, 1));
    assert data != [] ==> Take(data, 1) == [data[0]] && [data[0]][..0] == [];
    match TypeOf(v)
    case None => Err(UnknownPacketType(v))
    case Some(t) => Ok(Packet(t, Drop(data, 1)))
  }

  /** Round trip: unpacking a packed packet gives it back. */
  lemma UnpackPack(p: Packet)
    ensures Unpack(Pack(p)) == Ok(p)
  {
    var data := Pack(p);
    assert Take(data, 1) == [Ordinal(p.kind)] && [Ordinal(p.kind)][..0] == [];
  }

  /** The datagrams that carry `packets` to (or from) `addr`, in order. */
  function Datagrams(packets: seq<Packet>, addr: Endpoint): seq<Datagram>
  {
    seq(|packets|, i requires 0 <= i < |packets| => Datagram(Pack(packets[i]), addr))
  }

  /** Sending one run of packets and then another is sending both runs in order. */
  lemma DatagramsAppend(a: seq<Packet>, b: seq<Packet>, addr: Endpoint)
    ensures Datagrams(a + b, addr) == Datagrams(a, addr) + Datagrams(b, addr)
  {
    var l, r := Datagrams(a + b, addr), Datagrams(a, addr) + Datagrams(b, addr);
    forall i | 0 <= i < |l| ensures l[i] == r[i] {
      if i < |a| { assert (a + b)[i] == a[i]; } else { assert (a + b)[i] == b[i - |a|]; }
    }
  }

  /** The result of the handshake's match block. */
  datatype Answer = Answer(
    outcome: Outcome<Error>,
    replies: seq<Packet>,  // packets sent after the initial CONNECT
    state: PeerState)      // the state afterwards

  /**
   * The match block of `_connect` (new.py) and `connect` (main.py): a
   * CONNECT is answered with ACCEPT and establishes, an ACCEPT establishes,
   * anything else is a HandshakeError, and a receive error propagates.
   */
  function AnswerReply(reply: Result<Packet, Error>, state: PeerState): (a: Answer)
    ensures a.outcome.Pass? <==> reply.Ok? && reply.value.kind in {Connect, Accept}
    ensures a.outcome.Pass? ==> a.state == Connected
    ensures a.outcome.Fail? ==> a.state == state
    ensures a.replies == (if reply.Ok? && reply.value.kind == Connect then [Packet(Accept, [])] else [])
    ensures reply.Ok? && a.outcome.Fail? ==> a.outcome.error == HandshakeError(reply.value.kind)
    ensures reply.Err? ==> a.outcome == Fail(reply.error) && a.replies == []
  {
    match reply
    case Err(e) => Answer(Fail(e), [], state)
    case Ok(p) =>
      match p.kind
      case Connect => Answer(Pass, [Packet(Accept, [])], Connected)
      case Accept => Answer(Pass, [], Connected)
      case _ => Answer(Fail(HandshakeError(p.kind)), [], state)
  }
}
