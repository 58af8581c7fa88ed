/**
 * The `Peer` of new.py: a UDP peer bound to one remote address that runs the
 * CONNECT/ACCEPT handshake on creation and then sends or receives one file.
 */
module FilePeer {
  import opened Results
  import opened Bytes
  import opened AddressCodec
  import opened Network
  import opened PeerPackets
  import opened Transfer

  /** The receive buffer size passed to `recvfrom`. */
  const MaxPacketSize := 1472

  /** The chunk size new.py uses, `MAX_PACKET_SIZE - 4`: its chunk packets are one byte too long. */
  const SourceChunkSize := MaxPacketSize - 4

  /** The largest chunk whose packet (type byte, four index bytes, data) fits the receive buffer. */
  const ChunkSize := MaxPacketSize - 5

  /**
   * What `_receive` returns, and what remains of the input: the bytes the
   * buffer takes of the first datagram from `address`; others are dropped.
   */
  function NextData(inbox: seq<Datagram>, address: Endpoint): (r: (Result<seq<byte>, Error>, seq<Datagram>))
    ensures |r.1| <= |inbox|
    ensures r.0.Ok? ==> |r.0.value| <= MaxPacketSize && |r.1| < |inbox|
    ensures r.0.Err? ==> r.0 == Err(Timeout) && r.1 == []
    decreases |inbox|
  {
    if inbox == [] then (Err(Timeout), [])
    else if inbox[0].addr != address then NextData(inbox[1..], address)
    else (Ok(Received(inbox[0].data, MaxPacketSize)), inbox[1..])
  }

  /** What `receive` returns: the next packet from `address`, skipping ACCEPTs while CONNECTED. */
  function NextPacket(inbox: seq<Datagram>, address: Endpoint, state: PeerState): (r: (Result<Packet, Error>, seq<Datagram>))
    ensures |r.1| <= |inbox|
    ensures r.0.Ok? && state == Connected ==> r.0.value.kind != Accept
    ensures r.0.Err? ==> r.0.error.UnknownPacketType? || r.0.error == Timeout
    decreases |inbox|
  {
    var next := NextData(inbox, address);
    match next.0
    case Err(e) => (Err(e), next.1)
    case Ok(bytes) =>
      match Unpack(bytes)
      case Err(e) => (Err(e), next.1)
      case Ok(p) =>
        if p.kind == Accept && state == Connected then NextPacket(next.1, address, state)
        else (Ok(p), next.1)
  }

  /** `_receive` consumes datagrams from the front only: what remains is a suffix of the input. */
  lemma {:induction false} NextDataSuffix(inbox: seq<Datagram>, address: Endpoint)
    ensures var r := NextData(inbox, address); r.1 == inbox[|inbox| - |r.1|..]
    decreases |inbox|
  {
    if inbox != [] && inbox[0].addr != address {
      NextDataSuffix(inbox[1..], address);
      assert inbox[1..][|inbox[1..]| - |NextData(inbox, address).1|..] == inbox[|inbox| - |NextData(inbox, address).1|..];
    }
  }

  /** So does `receive`. */
  lemma {:induction false} NextPacketSuffix(inbox: seq<Datagram>, address: Endpoint, state: PeerState)
    ensures var r := NextPacket(inbox, address, state); r.1 == inbox[|inbox| - |r.1|..]
    decreases |inbox|
  {
    NextDataSuffix(inbox, address);
    var next := NextData(inbox, address);
    if next.0.Ok? && Unpack(next.0.value).Ok? && Unpack(next.0.value).value.kind == Accept && state == Connected {
      NextPacketSuffix(next.1, address, state);
      var k := |NextPacket(inbox, address, state).1|;
      assert next.1[|next.1| - k..] == inbox[|inbox| - k..];
    }
  }

  /** A packet from `address` that fits the buffer and is not skipped is what `receive` returns. */
  lemma NextPacketDelivers(p: Packet, rest: seq<Datagram>, address: Endpoint, state: PeerState)
    requires |Pack(p)| <= MaxPacketSize
    requires !(p.kind == Accept && state == Connected)
    ensures NextPacket([Datagram(Pack(p), address)] + rest, address, state) == (Ok(p), rest)
  {
    UnpackPack(p);
    assert ([Datagram(Pack(p), address)] + rest)[1..] == rest;
  }

  /** Datagrams from other endpoints, whatever their bytes, never reach `receive`. */
  lemma {:induction false} ForeignFloodIgnored(flood: seq<Datagram>, rest: seq<Datagram>, address: Endpoint, state: PeerState)
    requires forall j :: 0 <= j < |flood| ==> flood[j].addr != address
    ensures NextData(flood + rest, address) == NextData(rest, address)
    ensures NextPacket(flood + rest, address, state) == NextPacket(rest, address, state)
    decreases |flood|
  {
    if flood == [] {
      assert flood + rest == rest;
    } else {
      assert (flood + rest)[1..] == flood[1..] + rest;
      ForeignFloodIgnored(flood[1..], rest, address, state);
    }
  }

  /** While CONNECTED, late ACCEPTs from the peer are skipped and the packet after them is returned. */
  lemma {:induction false} LateAcceptsSkipped(accepts: seq<Packet>, p: Packet, rest: seq<Datagram>, address: Endpoint)
    requires forall j :: 0 <= j < |accepts| ==> accepts[j].kind == Accept && |Pack(accepts[j])| <= MaxPacketSize
    requires p.kind != Accept && |Pack(p)| <= MaxPacketSize
    ensures NextPacket(Datagrams(accepts + [p], address) + rest, address, Connected) == (Ok(p), rest)
    decreases |accepts|
  {
    var inbox := Datagrams(accepts + [p], address) + rest;
    if accepts == [] {
      assert inbox == [Datagram(Pack(p), address)] + rest;
      NextPacketDelivers(p, rest, address, Connected);
    } else {
      UnpackPack(accepts[0]);
      assert inbox[0] == Datagram(Pack(accepts[0]), address);
      assert inbox[1..] == Datagrams(accepts[1..] + [p], address) + rest;
      LateAcceptsSkipped(accepts[1..], p, rest, address);
    }
  }

  /**
   * What `_receive` returns is decided by the first datagram from `address`:
   * its bytes, as the buffer takes them; everything before it is dropped.
   * It times out exactly when no datagram comes from `address`.
   */
  lemma {:induction false} NextDataFirst(inbox: seq<Datagram>, address: Endpoint)
    ensures var r := NextData(inbox, address);
      var k := |inbox| - |r.1| - 1;
      if r.0 == Err(Timeout) then
        forall j :: 0 <= j < |inbox| ==> inbox[j].addr != address
      else
        && 0 <= k
        && inbox[k].addr == address
        && r.0 == Ok(Received(inbox[k].data, MaxPacketSize))
        && forall j :: 0 <= j < k ==> inbox[j].addr != address
    decreases |inbox|
  {
    if inbox != [] && inbox[0].addr != address {
      var r := NextData(inbox, address);
      NextDataFirst(inbox[1..], address);
      forall j | 1 <= j < |inbox| ensures inbox[j] == inbox[1..][j - 1] { }
      assert |inbox| - |r.1| - 1 == (|inbox[1..]| - |r.1| - 1) + 1;
    }
  }

  /**
   * Whether `receive` passes over datagram d instead of returning it:
   * `_receive` drops it as foreign, or it is an ACCEPT while CONNECTED.
   */
  predicate Skipped(d: Datagram, address: Endpoint, state: PeerState)
    ensures d.addr != address ==> Skipped(d, address, state)
    ensures d.addr == address && state == Disconnected ==> !Skipped(d, address, state)
    ensures d.addr == address && state == Connected ==> (Skipped(d, address, state) <==> |d.data| > 0 && d.data[0] == 1)
  {
    var u := Unpack(Received(d.data, MaxPacketSize));
    d.addr != address || (state == Connected && u.Ok? && u.value.kind == Accept)
  }

  /** One step of `receive`: a skipped datagram is consumed, any other decides the result. */
  lemma NextPacketStep(inbox: seq<Datagram>, address: Endpoint, state: PeerState)
    requires inbox != []
    ensures Skipped(inbox[0], address, state) ==> NextPacket(inbox, address, state) == NextPacket(inbox[1..], address, state)
    ensures !Skipped(inbox[0], address, state) ==>
      NextPacket(inbox, address, state) == (Unpack(Received(inbox[0].data, MaxPacketSize)), inbox[1..])
  {
    if inbox[0].addr != address {
      assert NextData(inbox, address) == NextData(inbox[1..], address);
    }
  }

  /**
   * What `receive` returns is decided by the first datagram it does not
   * skip: that datagram came from `address` and its bytes are what is
   * unpacked, an unknown type byte included; every datagram before it was
   * skipped and is consumed. It times out exactly when every datagram is skipped.
   */
  lemma {:induction false} NextPacketFirstUnskipped(inbox: seq<Datagram>, address: Endpoint, state: PeerState)
    ensures var r := NextPacket(inbox, address, state);
      var k := |inbox| - |r.1| - 1;
      if r.0 == Err(Timeout) then
        forall j :: 0 <= j < |inbox| ==> Skipped(inbox[j], address, state)
      else
        && 0 <= k
        && inbox[k].addr == address
        && r.0 == Unpack(Received(inbox[k].data, MaxPacketSize))
        && !Skipped(inbox[k], address, state)
        && forall j :: 0 <= j < k ==> Skipped(inbox[j], address, state)
    decreases |inbox|
  {
    if inbox != [] {
      NextPacketStep(inbox, address, state);
      var r := NextPacket(inbox, address, state);
      if Skipped(inbox[0], address, state) {
        NextPacketFirstUnskipped(inbox[1..], address, state);
        forall j | 1 <= j < |inbox| ensures inbox[j] == inbox[1..][j - 1] { }
        assert |inbox| - |r.1| - 1 == (|inbox[1..]| - |r.1| - 1) + 1;
      } else {
        var u := Unpack(Received(inbox[0].data, MaxPacketSize));
        assert u != Err(Timeout) && r == (u, inbox[1..]);
        assert |inbox| - |r.1| - 1 == 0;
      }
    }
  }

  /** A datagram from `address` whose type byte is unknown is consumed and makes `receive` fail with that value. */
  lemma UnknownFromPeer(d: Datagram, rest: seq<Datagram>, address: Endpoint, state: PeerState)
    requires d.addr == address && |d.data| > 0 && d.data[0] > 3
    ensures NextPacket([d] + rest, address, state) == (Err(UnknownPacketType(d.data[0])), rest)
  {
    assert ([d] + rest)[1..] == rest;
  }

  /** What `receive_file` collects once it knows the count: `count` chunk packets, each stored under its index. */
  function CollectChunks(inbox: seq<Datagram>, address: Endpoint, state: PeerState, count: nat, chunks: map<nat, seq<byte>>)
    : (r: (Result<map<nat, seq<byte>>, Error>, seq<Datagram>))
    ensures |r.1| <= |inbox|
    ensures r.0.Ok? ==> chunks.Keys <= r.0.value.Keys
    decreases count
  {
    if count == 0 then (Ok(chunks), inbox)
    else
      var next := NextPacket(inbox, address, state);
      match next.0
      case Err(e) => (Err(e), next.1)
      case Ok(p) =>
        if p.kind != TransferChunk then (Err(UnexpectedPacket(TransferChunk, p.kind)), next.1)
        else
          var entry := ParseChunk(p.payload);
          CollectChunks(next.1, address, state, count - 1, chunks[entry.0 := entry.1])
  }

  /** What `receive_file` returns: a TRANSFER_BEGIN first, then as many chunk packets as it announces. */
  function ReceiveFileFrom(inbox: seq<Datagram>, address: Endpoint, state: PeerState)
    : (r: (Result<map<nat, seq<byte>>, Error>, seq<Datagram>))
    ensures |r.1| <= |inbox|
  {
    var first := NextPacket(inbox, address, state);
    match first.0
    case Err(e) => (Err(e), first.1)
    case Ok(p) =>
      if p.kind != TransferBegin then (Err(UnexpectedPacket(TransferBegin, p.kind)), first.1)
      else CollectChunks(first.1, address, state, ChunkCount(p.payload), map[])
  }

  /** A receive error while chunks are still expected is what `receive_file` returns, unchanged. */
  lemma CollectReceiveError(inbox: seq<Datagram>, rest: seq<Datagram>, e: Error, address: Endpoint, state: PeerState, count: nat, chunks: map<nat, seq<byte>>)
    requires count > 0 && NextPacket(inbox, address, state) == (Err(e), rest)
    ensures CollectChunks(inbox, address, state, count, chunks) == (Err(e), rest)
  {
  }

  /** So is a receive error in place of the TRANSFER_BEGIN packet. */
  lemma ReceiveFileReceiveError(inbox: seq<Datagram>, rest: seq<Datagram>, e: Error, address: Endpoint, state: PeerState)
    requires NextPacket(inbox, address, state) == (Err(e), rest)
    ensures ReceiveFileFrom(inbox, address, state) == (Err(e), rest)
  {
  }

  /** The chunk entries `receive_file` parses out of a run of chunk packets. */
  function Entries(packets: seq<Packet>): seq<(nat, seq<byte>)>
  {
    seq(|packets|, j requires 0 <= j < |packets| => ParseChunk(packets[j].payload))
  }

  /** Storing the entries of a run of packets stores the first one's, then the rest's. */
  lemma StoreEntriesStep(chunks: map<nat, seq<byte>>, packets: seq<Packet>)
    requires packets != []
    ensures Store(chunks, Entries(packets))
         == Store(chunks[ParseChunk(packets[0].payload).0 := ParseChunk(packets[0].payload).1], Entries(packets[1..]))
  {
    assert Entries(packets)[1..] == Entries(packets[1..]);
  }

  /** A chunk packet that `receive` passes through whole: it fits the receive buffer. */
  predicate Intact(p: Packet)
  {
    p.kind == TransferChunk && |Pack(p)| <= MaxPacketSize
  }

  /**
   * `receive`, called again and again on `inbox`, returns the chunk packets
   * `packets`, one datagram each, and leaves `later`.
   */
  predicate Delivers(inbox: seq<Datagram>, address: Endpoint, state: PeerState, packets: seq<Packet>, later: seq<Datagram>)
    decreases |packets|
  {
    if packets == [] then inbox == later
    else
      && |inbox| > 0
      && packets[0].kind == TransferChunk
      && NextPacket(inbox, address, state) == (Ok(packets[0]), inbox[1..])
      && Delivers(inbox[1..], address, state, packets[1..], later)
  }

  /** Intact chunk packets from the peer are delivered one by one. */
  lemma {:induction false} DatagramsDeliver(packets: seq<Packet>, later: seq<Datagram>, address: Endpoint, state: PeerState)
    requires forall j :: 0 <= j < |packets| ==> Intact(packets[j])
    ensures Delivers(Datagrams(packets, address) + later, address, state, packets, later)
    decreases |packets|
  {
    if packets == [] {
      assert Datagrams(packets, address) + later == later;
    } else {
      var rest := Datagrams(packets[1..], address) + later;
      DatagramsCons(packets, later, address);
      NextPacketDelivers(packets[0], rest, address, state);
      forall j | 0 <= j < |packets[1..]| ensures Intact(packets[1..][j]) {
        assert packets[1..][j] == packets[j + 1];
      }
      DatagramsDeliver(packets[1..], later, address, state);
      DeliversStep([Datagram(Pack(packets[0]), address)] + rest, packets[0], packets[1..], later, address, state);
      assert [packets[0]] + packets[1..] == packets;
    }
  }

  /** The datagrams of a non-empty run: the first packet's, then the rest's. */
  lemma DatagramsCons(packets: seq<Packet>, later: seq<Datagram>, address: Endpoint)
    requires packets != []
    ensures Datagrams(packets, address) + later
         == [Datagram(Pack(packets[0]), address)] + (Datagrams(packets[1..], address) + later)
  {
    DatagramsAppend([packets[0]], packets[1..], address);
    assert packets == [packets[0]] + packets[1..];
  }

  /** One more chunk packet returned by `receive` ahead of a delivered run extends the run. */
  lemma DeliversStep(inbox: seq<Datagram>, p: Packet, packets: seq<Packet>, later: seq<Datagram>, address: Endpoint, state: PeerState)
    requires |inbox| > 0 && p.kind == TransferChunk
    requires NextPacket(inbox, address, state) == (Ok(p), inbox[1..])
    requires Delivers(inbox[1..], address, state, packets, later)
    ensures Delivers(inbox, address, state, [p] + packets, later)
  {
    assert ([p] + packets)[1..] == packets;
  }

  /** One chunk packet delivered while more are expected is stored, and one fewer is expected. */
  lemma CollectStep(inbox: seq<Datagram>, p: Packet, rest: seq<Datagram>, address: Endpoint, state: PeerState, count: nat, chunks: map<nat, seq<byte>>)
    requires count > 0 && p.kind == TransferChunk
    requires NextPacket(inbox, address, state) == (Ok(p), rest)
    ensures CollectChunks(inbox, address, state, count, chunks)
         == CollectChunks(rest, address, state, count - 1, chunks[ParseChunk(p.payload).0 := ParseChunk(p.payload).1])
  {
  }

  /** A TRANSFER_BEGIN received first makes `receive_file` collect as many chunks as it announces. */
  lemma ReceiveFileBegins(inbox: seq<Datagram>, p: Packet, rest: seq<Datagram>, address: Endpoint, state: PeerState)
    requires p.kind == TransferBegin && NextPacket(inbox, address, state) == (Ok(p), rest)
    ensures ReceiveFileFrom(inbox, address, state) == CollectChunks(rest, address, state, ChunkCount(p.payload), map[])
  {
  }

  /**
   * When exactly the expected number of chunk packets is delivered, they are
   * stored in arrival order and `receive_file` reads nothing after them.
   */
  lemma {:induction false} CollectDelivered(inbox: seq<Datagram>, packets: seq<Packet>, later: seq<Datagram>, address: Endpoint, state: PeerState, count: nat, chunks: map<nat, seq<byte>>)
    requires Delivers(inbox, address, state, packets, later)
    requires count == |packets|
    ensures CollectChunks(inbox, address, state, count, chunks) == (Ok(Store(chunks, Entries(packets))), later)
    decreases |packets|
  {
    if packets == [] {
      assert Entries(packets) == [];
    } else {
      var entry := ParseChunk(packets[0].payload);
      CollectStep(inbox, packets[0], inbox[1..], address, state, count, chunks);
      CollectDelivered(inbox[1..], packets[1..], later, address, state, count - 1, chunks[entry.0 := entry.1]);
      StoreEntriesStep(chunks, packets);
    }
  }

  /**
   * When fewer chunk packets than expected are delivered and then a packet of
   * another type arrives, `receive_file` fails on that packet.
   */
  lemma {:induction false} CollectInterrupted(inbox: seq<Datagram>, packets: seq<Packet>, stray: Packet, middle: seq<Datagram>, later: seq<Datagram>, address: Endpoint, state: PeerState, count: nat, chunks: map<nat, seq<byte>>)
    requires Delivers(inbox, address, state, packets, middle)
    requires |packets| < count
    requires stray.kind != TransferChunk && NextPacket(middle, address, state) == (Ok(stray), later)
    ensures CollectChunks(inbox, address, state, count, chunks) == (Err(UnexpectedPacket(TransferChunk, stray.kind)), later)
    decreases |packets|
  {
    if packets == [] {
      CollectStray(inbox, stray, later, address, state, count, chunks);
    } else {
      DeliversHead(inbox, address, state, packets, middle);
      var entry := ParseChunk(packets[0].payload);
      CollectStep(inbox, packets[0], inbox[1..], address, state, count, chunks);
      CollectInterrupted(inbox[1..], packets[1..], stray, middle, later, address, state, count - 1, chunks[entry.0 := entry.1]);
    }
  }

  /** A packet other than a chunk, received while chunks are expected, ends the loop with a ValueError naming it. */
  lemma CollectStray(inbox: seq<Datagram>, stray: Packet, later: seq<Datagram>, address: Endpoint, state: PeerState, count: nat, chunks: map<nat, seq<byte>>)
    requires count > 0 && stray.kind != TransferChunk && NextPacket(inbox, address, state) == (Ok(stray), later)
    ensures CollectChunks(inbox, address, state, count, chunks) == (Err(UnexpectedPacket(TransferChunk, stray.kind)), later)
  {
  }

  /** The first step of a delivered run: its first packet is returned and the rest of the run follows. */
  lemma DeliversHead(inbox: seq<Datagram>, address: Endpoint, state: PeerState, packets: seq<Packet>, later: seq<Datagram>)
    requires packets != [] && Delivers(inbox, address, state, packets, later)
    ensures |inbox| > 0 && packets[0].kind == TransferChunk
    ensures NextPacket(inbox, address, state) == (Ok(packets[0]), inbox[1..])
    ensures Delivers(inbox[1..], address, state, packets[1..], later)
  {
  }

  /** A first packet that is not TRANSFER_BEGIN (nor a skipped ACCEPT) makes `receive_file` fail at once. */
  lemma WrongFirstPacketRejected(p: Packet, rest: seq<Datagram>, address: Endpoint, state: PeerState)
    requires p.kind != TransferBegin && !(p.kind == Accept && state == Connected) && |Pack(p)| <= MaxPacketSize
    ensures ReceiveFileFrom([Datagram(Pack(p), address)] + rest, address, state)
         == (Err(UnexpectedPacket(TransferBegin, p.kind)), rest)
  {
    NextPacketDelivers(p, rest, address, state);
  }

  /**
   * A stray packet in place of a chunk (anything but TRANSFER_CHUNK that
   * `receive` does not skip) makes `receive_file` fail.
   */
  lemma StrayPacketAborts(packets: seq<Packet>, stray: Packet, later: seq<Datagram>, address: Endpoint, state: PeerState, count: nat, chunks: map<nat, seq<byte>>)
    requires forall j :: 0 <= j < |packets| ==> Intact(packets[j])
    requires stray.kind != TransferChunk && !(stray.kind == Accept && state == Connected) && |Pack(stray)| <= MaxPacketSize
    requires |packets| < count
    ensures CollectChunks(Datagrams(packets, address) + ([Datagram(Pack(stray), address)] + later), address, state, count, chunks)
         == (Err(UnexpectedPacket(TransferChunk, stray.kind)), later)
  {
    var tail := [Datagram(Pack(stray), address)] + later;
    DatagramsDeliver(packets, tail, address, state);
    NextPacketDelivers(stray, later, address, state);
    CollectInterrupted(Datagrams(packets, address) + tail, packets, stray, tail, later, address, state, count, chunks);
  }


  /** Every packet delivered in `order` is a chunk packet `send_file` sent, so it is intact and carries the right chunk. */
  lemma DeliveredWereSent(data: seq<byte>, order: seq<Packet>)
    requires |Chunkify(data, ChunkSize)| < Pow256(4)
    requires multiset(order) == multiset(FilePackets(data, ChunkSize)[1..])
    ensures var chunks := Chunkify(data, ChunkSize);
      && |order| == |chunks|
      && (forall j :: 0 <= j < |order| ==> Intact(order[j]))
      && forall j :: 0 <= j < |order| ==>
           Entries(order)[j].0 < |chunks| && Entries(order)[j].1 == chunks[Entries(order)[j].0]
  {
    var chunks, ps := Chunkify(data, ChunkSize), FilePackets(data, ChunkSize);
    var sent := ps[1..];
    assert |order| == |sent| by {
      FilePacketsLayout(data, ChunkSize);
      assert |multiset(order)| == |multiset(sent)|;
    }
    forall j | 0 <= j < |order|
      ensures Intact(order[j])
      ensures Entries(order)[j].0 < |chunks| && Entries(order)[j].1 == chunks[Entries(order)[j].0]
    {
      var i := FindSent(order, sent, j);
      SentChunk(data, i);
      assert order[j] == ps[i + 1] && Entries(order)[j] == ParseChunk(order[j].payload);
    }
  }

  /** Where an element of one ordering of a multiset sits in another ordering of it. */
  lemma FindSent<T>(order: seq<T>, sent: seq<T>, j: nat) returns (i: nat)
    requires multiset(order) == multiset(sent) && j < |order|
    ensures i < |sent| && sent[i] == order[j]
  {
    assert order[j] in multiset(sent);
    assert order[j] in sent;
    i :| i < |sent| && sent[i] == order[j];
  }

  /** The chunk packet `send_file` sends for index `i` passes `receive` whole and parses back to `i` and that chunk. */
  lemma SentChunk(data: seq<byte>, i: nat)
    requires |Chunkify(data, ChunkSize)| < Pow256(4) && i < |Chunkify(data, ChunkSize)|
    ensures var chunks, ps := Chunkify(data, ChunkSize), FilePackets(data, ChunkSize);
      |ps| == |chunks| + 1 && Intact(ps[i + 1]) && ParseChunk(ps[i + 1].payload) == (i, chunks[i])
  {
    FilePacketAt(data, ChunkSize, i);
  }

  /** Every chunk packet `send_file` sent is delivered somewhere in `order`. */
  lemma SentWereDelivered(data: seq<byte>, order: seq<Packet>)
    requires |Chunkify(data, ChunkSize)| < Pow256(4)
    requires multiset(order) == multiset(FilePackets(data, ChunkSize)[1..])
    ensures forall i :: 0 <= i < |Chunkify(data, ChunkSize)| ==> i in Indices(Entries(order))
  {
    forall i | 0 <= i < |Chunkify(data, ChunkSize)| ensures i in Indices(Entries(order)) {
      SentIndexDelivered(data, order, i);
    }
  }

  /** The chunk packet sent for index `i` is somewhere in a delivered permutation. */
  lemma SentIndexDelivered(data: seq<byte>, order: seq<Packet>, i: nat)
    requires |Chunkify(data, ChunkSize)| < Pow256(4) && i < |Chunkify(data, ChunkSize)|
    requires multiset(order) == multiset(FilePackets(data, ChunkSize)[1..])
    ensures i in Indices(Entries(order))
  {
    var ps, entries := FilePackets(data, ChunkSize), Entries(order);
    var j := FindSent(ps[1..], order, i);
    SentChunk(data, i);
    assert order[j] == ps[i + 1];
    InIndices(entries, j);
  }

  /** The index of every entry is among the indices received. */
  lemma InIndices(entries: seq<(nat, seq<byte>)>, j: nat)
    requires j < |entries|
    ensures entries[j].0 in Indices(entries)
  {
  }

  /** A TRANSFER_BEGIN that arrives intact makes `receive_file` expect the count it announces. */
  lemma BeginDelivered(begin: Packet, packets: seq<Packet>, later: seq<Datagram>, address: Endpoint, state: PeerState)
    requires begin.kind == TransferBegin && |Pack(begin)| <= MaxPacketSize
    ensures ReceiveFileFrom(Datagrams([begin] + packets, address) + later, address, state)
         == CollectChunks(Datagrams(packets, address) + later, address, state, ChunkCount(begin.payload), map[])
  {
    var rest := Datagrams(packets, address) + later;
    assert Datagrams([begin] + packets, address) + later == [Datagram(Pack(begin), address)] + rest by {
      DatagramsAppend([begin], packets, address);
    }
    NextPacketDelivers(begin, rest, address, state);
  }

  /**
   * The transfer round trip: when every packet `send_file` sends (with the
   * chunk size whose packets fit the buffer) is delivered exactly once, the
   * TRANSFER_BEGIN first and the chunks in any order, `receive_file` reads
   * just those datagrams and its dict, written out in key order, is the file.
   */
  lemma DeliveredFileRoundTrip(data: seq<byte>, order: seq<Packet>, later: seq<Datagram>, address: Endpoint)
    requires |Chunkify(data, ChunkSize)| < Pow256(4)
    requires multiset(order) == multiset(FilePackets(data, ChunkSize)[1..])
    ensures var r := ReceiveFileFrom(Datagrams([FilePackets(data, ChunkSize)[0]] + order, address) + later, address, Connected);
      && r.0.Ok?
      && r.1 == later
      && Reassemble(r.0.value) == data
  {
    var chunks := Chunkify(data, ChunkSize);
    var begin := FilePackets(data, ChunkSize)[0];
    assert begin == BeginPacket(|chunks|);
    assert ChunkCount(begin.payload) == |chunks| by {
      assert Take(begin.payload, 4) == begin.payload;
    }
    DeliveredWereSent(data, order);
    SentWereDelivered(data, order);
    BeginDelivered(begin, order, later, address, Connected);
    DatagramsDeliver(order, later, address, Connected);
    CollectDelivered(Datagrams(order, address) + later, order, later, address, Connected, |order|, map[]);
    ReassembleAnyOrder(Entries(order), chunks);
  }

  /** The first datagram `send_file` sends carries TRANSFER_BEGIN with the chunk count. */
  lemma FilePacketsFirst(data: seq<byte>, size: nat, address: Endpoint)
    requires size > 0 && |Chunkify(data, size)| < Pow256(4)
    ensures Datagrams(FilePackets(data, size), address)[..1] == [Datagram(Pack(BeginPacket(|Chunkify(data, size)|)), address)]
  {
  }

  /** Having sent the chunks before index `k`, `send_file` sends the chunk packet for `k` next. */
  lemma FilePacketsNext(data: seq<byte>, size: nat, k: nat, address: Endpoint)
    requires size > 0 && |Chunkify(data, size)| < Pow256(4)
    requires k < |Chunkify(data, size)|
    ensures var chunks, wire := Chunkify(data, size), Datagrams(FilePackets(data, size), address);
      wire[..k + 2] == wire[..k + 1] + [Datagram(Pack(ChunkPacket(k, chunks[k])), address)]
  {
    var chunks, ps := Chunkify(data, size), FilePackets(data, size);
    var wire := Datagrams(ps, address);
    assert |ps| == |chunks| + 1 && ps[k + 1] == ChunkPacket(k, chunks[k]);
    PrefixExtend(wire, k + 1);
  }

  /** A prefix one longer is the prefix with the next element appended. */
  lemma PrefixExtend<T>(s: seq<T>, k: nat)
    requires k < |s|
    ensures s[..k + 1] == s[..k] + [s[k]]
  {
  }

  class Peer {
    /** The peer's address, fixed at creation. */
    const address: Endpoint
    var state: PeerState
    /** The datagrams the socket has yet to deliver, in arrival order. */
    var inbox: seq<Datagram>
    /** Every datagram sent to `address`, in order. */
    var sent: seq<Datagram>

    /** The fields `__init__` sets before it runs the handshake (see `Open`). */
    constructor (address: Endpoint, inbox: seq<Datagram>)
      ensures this.address == address && state == Disconnected
      ensures this.inbox == inbox && sent == []
    {
      this.address := address;
      state := Disconnected;
      this.inbox := inbox;
      sent := [];
    }

    /** `send`: the packed packet goes to the peer's address. */
    method Send(p: Packet)
      modifies this`sent
      ensures sent == old(sent) + Datagrams([p], address)
    {
      sent := sent + [Datagram(Pack(p), address)];
    }

    /** `_receive`: reads datagrams until one comes from the peer's address. */
    method ReceiveData() returns (r: Result<seq<byte>, Error>)
      modifies this`inbox
      ensures (r, inbox) == NextData(old(inbox), address)
    {
      while inbox != []
        invariant NextData(inbox, address) == NextData(old(inbox), address)
        decreases |inbox|
      {
        var d := inbox[0];
        inbox := inbox[1..];
        if d.addr == address {
          return Ok(Received(d.data, MaxPacketSize));
        }
      }
      r := Err(Timeout);
    }

    /** `receive`: unpacks what `_receive` returns, passing over ACCEPTs while CONNECTED. */
    method Receive() returns (r: Result<Packet, Error>)
      modifies this`inbox
      ensures (r, inbox) == NextPacket(old(inbox), address, state)
    {
      while true
        invariant NextPacket(inbox, address, state) == NextPacket(old(inbox), address, state)
        decreases |inbox|
      {
        var data := ReceiveData();
        if data.Err? {
          return Err(data.error);
        }
        var u := Unpack(data.value);
        if u.Err? {
          return Err(u.error);
        }
        if !(u.value.kind == Accept && state == Connected) {
          return u;
        }
      }
    }

    /** `_establish`: the only assignment to the state. */
    method Establish()
      modifies this`state
      ensures state == Connected
    {
      state := Connected;
    }

    /** `_connect`: sends CONNECT, then answers the reply as `AnswerReply` says. */
    method Connect() returns (r: Outcome<Error>)
      modifies this`state, this`inbox, this`sent
      ensures var next := NextPacket(old(inbox), address, old(state));
        var a := AnswerReply(next.0, old(state));
        && r == a.outcome
        && state == a.state
        && inbox == next.1
        && sent == old(sent) + Datagrams([Packet(PacketType.Connect, [])] + a.replies, address)
    {
      ghost var next := NextPacket(inbox, address, state);
      ghost var a := AnswerReply(next.0, state);
      var hello := Packet(PacketType.Connect, []);
      Send(hello);
      var reply := Receive();
      assert a == AnswerReply(reply, old(state)) && next.1 == inbox;
      if reply.Err? {
        return Fail(reply.error);
      }
      match reply.value.kind {
        case Connect =>
          Send(Packet(Accept, []));
          Establish();
          r := Pass;
          DatagramsAppend([hello], [Packet(Accept, [])], address);
        case Accept =>
          Establish();
          r := Pass;
          assert [hello] + a.replies == [hello];
        case _ =>
          r := Fail(HandshakeError(reply.value.kind));
          assert [hello] + a.replies == [hello];
      }
    }

    /** `Peer(address)`: a fresh peer that runs `_connect` straight away. */
    static method Open(address: Endpoint, inbox: seq<Datagram>) returns (peer: Peer, r: Outcome<Error>)
      ensures fresh(peer) && peer.address == address
      ensures var next := NextPacket(inbox, address, Disconnected);
        var a := AnswerReply(next.0, Disconnected);
        && r == a.outcome
        && peer.state == a.state
        && peer.inbox == next.1
        && peer.sent == Datagrams([Packet(PacketType.Connect, [])] + a.replies, address)
    {
      peer := new Peer(address, inbox);
      r := peer.Connect();
    }

    /**
     * `send_file`: refuses a file of 2^32 chunks or more before sending
     * anything; otherwise sends TRANSFER_BEGIN and then every chunk in order.
     */
    method SendFile(data: seq<byte>) returns (r: Outcome<Error>)
      modifies this`sent
      ensures |Chunkify(data, ChunkSize)| < Pow256(4) ==> r == Pass && sent == old(sent) + Datagrams(FilePackets(data, ChunkSize), address)
      ensures |Chunkify(data, ChunkSize)| >= Pow256(4) ==> r == Fail(TooManyChunks(|Chunkify(data, ChunkSize)|)) && sent == old(sent)
    {
      var chunks := Chunkify(data, ChunkSize);
      var countBytes := ToBytes(|chunks|, 4);
      if countBytes.None? {
        return Fail(TooManyChunks(|chunks|));
      }
      ghost var wire := Datagrams(FilePackets(data, ChunkSize), address);
      Send(Packet(TransferBegin, countBytes.value));
      assert countBytes.value == ToBigEndian(|chunks|, 4);
      FilePacketsFirst(data, ChunkSize, address);
      for index := 0 to |chunks|
        invariant sent == old(sent) + wire[..index + 1]
      {
        var indexBytes := ToBigEndian(index, 4);
        Send(Packet(TransferChunk, indexBytes + chunks[index]));
        FilePacketsNext(data, ChunkSize, index, address);
      }
      assert wire[..|chunks| + 1] == wire;
      r := Pass;
    }

    /**
     * `receive_file`: a TRANSFER_BEGIN, then exactly as many packets as it
     * announces, each of which must be a TRANSFER_CHUNK, stored by index.
     */
    method ReceiveFile() returns (r: Result<map<nat, seq<byte>>, Error>)
      modifies this`inbox
      ensures (r, inbox) == ReceiveFileFrom(old(inbox), address, state)
    {
      ghost var start := inbox;
      var initial := Receive();
      if initial.Err? {
        return Err(initial.error);
      }
      if initial.value.kind != TransferBegin {
        return Err(UnexpectedPacket(TransferBegin, initial.value.kind));
      }
      ReceiveFileBegins(start, initial.value, inbox, address, state);
      r := ReceiveChunks(ChunkCount(initial.value.payload));
    }

    /** The `for` loop of `receive_file`: `count` packets, each a TRANSFER_CHUNK stored under its index. */
    method ReceiveChunks(count: nat) returns (r: Result<map<nat, seq<byte>>, Error>)
      modifies this`inbox
      ensures (r, inbox) == CollectChunks(old(inbox), address, state, count, map[])
    {
      var chunks: map<nat, seq<byte>> := map[];
      var remaining := count;
      ghost var goal := CollectChunks(inbox, address, state, count, chunks);
      while remaining > 0
        invariant CollectChunks(inbox, address, state, remaining, chunks) == goal
      {
        ghost var before := inbox;
        var packet := Receive();
        if packet.Err? {
          return Err(packet.error);
        }
        if packet.value.kind != TransferChunk {
          return Err(UnexpectedPacket(TransferChunk, packet.value.kind));
        }
        var chunkIndex, chunkData := ParseChunk(packet.value.payload).0, ParseChunk(packet.value.payload).1;
        CollectStep(before, packet.value, inbox, address, state, remaining, chunks);
        chunks := chunks[chunkIndex := chunkData];
        remaining := remaining - 1;
      }
      r := Ok(chunks);
    }
  }

  // ---- the chunk size (see Findings) ----

  /**
   * As written: with `MAX_PACKET_SIZE - 4` a full chunk packet is 1473 bytes,
   * one more than the receive buffer, so a 1468-byte file arrives one byte short.
   */
  lemma SourceChunkSizeTruncates(data: seq<byte>, address: Endpoint)
    requires |data| == SourceChunkSize
    ensures |Chunkify(data, SourceChunkSize)| == 1
    ensures var ps := FilePackets(data, SourceChunkSize);
      var r := ReceiveFileFrom(Datagrams(ps, address), address, Connected);
      && |Pack(ps[1])| == MaxPacketSize + 1
      && r.0.Ok?
      && Reassemble(r.0.value) == data[..SourceChunkSize - 1] != data
  {
    var chunks, ps := Chunkify(data, SourceChunkSize), FilePackets(data, SourceChunkSize);
    assert chunks == [data];
    FilePacketsLayout(data, SourceChunkSize);
    var begin, chunk := ps[0], ps[1];
    var inbox := Datagrams(ps, address);
    assert inbox == [Datagram(Pack(begin), address)] + [Datagram(Pack(chunk), address)];
    NextPacketDelivers(begin, [Datagram(Pack(chunk), address)], address, Connected);
    assert ChunkCount(begin.payload) == 1 by {
      assert Take(begin.payload, 4) == begin.payload;
    }
    // the chunk packet loses its last byte in the buffer
    var cut := Received(Pack(chunk), MaxPacketSize);
    assert cut == Pack(chunk)[..MaxPacketSize];
    var shortened := Packet(TransferChunk, chunk.payload[..|chunk.payload| - 1]);
    assert cut == Pack(shortened);
    UnpackPack(shortened);
    assert [Datagram(Pack(chunk), address)][1..] == [];
    assert NextPacket([Datagram(Pack(chunk), address)], address, Connected) == (Ok(shortened), []);
    assert chunk.payload == ToBigEndian(0, 4) + data;
    assert shortened.payload == ToBigEndian(0, 4) + data[..SourceChunkSize - 1];
    ParseChunkPacket(0, data[..SourceChunkSize - 1]);
    var m := map[0 := data[..SourceChunkSize - 1]];
    assert m.Keys == {0};
    assert LeastKey(m.Keys) == 0;
    assert m - {0} == map[];
    assert Reassemble(m) == data[..SourceChunkSize - 1] + Reassemble(map[]);
  }

  /** Corrected: with `ChunkSize`, every chunk packet fits the receive buffer. */
  lemma ChunkPacketsFit(data: seq<byte>)
    requires |Chunkify(data, ChunkSize)| < Pow256(4)
    ensures forall j :: 0 <= j < |FilePackets(data, ChunkSize)| ==> |Pack(FilePackets(data, ChunkSize)[j])| <= MaxPacketSize
  {
    var ps := FilePackets(data, ChunkSize);
    FilePacketsLayout(data, ChunkSize);
    forall j | 0 <= j < |ps| ensures |Pack(ps[j])| <= MaxPacketSize {
      if j > 0 {
        SentChunk(data, j - 1);
      }
    }
  }
}
