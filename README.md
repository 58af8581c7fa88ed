# A verified model of the birdge UDP rendezvous

birdge connects two machines behind NAT over UDP. Each side learns its public
endpoint, turns it into a short code that the users swap by hand, and then
punches a hole: both send CONNECT to the other at once. A peer that receives
CONNECT answers ACCEPT and counts as connected. A peer that receives ACCEPT
counts as connected directly. Once connected, one side can send a file as a
TRANSFER_BEGIN packet that announces the chunk count, followed by one
TRANSFER_CHUNK packet per chunk. Each chunk packet carries a four-byte index.
The receiver files the chunks into a dict and writes them out in index order.

The repository holds three versions of the peer:
- `impl.py`: a socket `Session` with a three-type packet set (CONNECT, ACCEPT, FILE);
- `new.py`: a socket `Peer` with the four-type set and the file transfer;
- `main.py`: an asyncio `Peer` with the four-type set and only the handshake.

They share the endpoint codec of `utils.py`.

The model is split into these modules (one file each):

- `Results`: the Option, Result and pass/fail Outcome wrappers. A Python exception is modelled as an error value.
- `Bytes`: bytes, big-endian `int.from_bytes` and `to_bytes` (including the OverflowError), and Python slices.
- `Base64Url`: the encoder of `base64.urlsafe_b64encode`. It also models the non-strict decoder of `base64.urlsafe_b64decode`: characters outside the alphabet are discarded, and `=` padding is counted.
- `AddressCodec` (`utils.py`): `address_to_code`, `code_to_address` and `parse_address`.
- `Network`: a datagram, and the truncation `recvfrom(bufsize)` applies.
- `SessionProtocol` (`impl.py`): framing, the `Session` class, and the receive and handshake specifications.
- `PeerPackets`: the framing and the handshake decision that `new.py` and `main.py` share. Their text is identical.
- `Transfer`: the chunking, the packets `send_file` emits, the dict `receive_file` fills, and the reassembly in key order.
- `FilePeer` (`new.py`): the `Peer` class and the end-to-end transfer properties.
- `AsyncPeer` (`main.py`): the asyncio `Peer` class.

Traffic is modelled as follows:
- Inbound traffic is a finite sequence of datagrams, each with its source. The receive loops consume it from the front.
- Outbound traffic is a log of the datagrams sent.
- When the inbound sequence runs out, the socket versions report `Timeout`. That is the 30-second socket timeout.
- When the queue of `main.py` runs out, the model reports `QueueEmpty`. There the program would wait forever.
- The recursive retries of `receive_packet`, `_receive` and `receive` are loops. Their termination measure is the remaining input.
- Each class method is proved against a specification function over that input, for example `ReceiveFrom`, `NextPacket` or `ReceiveFileFrom`. The properties are lemmas about those functions.

Three behaviours of the code are worth knowing before reading the model:
- Chunk size. `new.py:106` cuts 1468-byte chunks. With the 5-byte header, a full chunk packet is 1473 bytes, one more than the 1472-byte receive buffer (see Findings). The corrected model uses 1467, the largest chunk whose packet fits.
- Decoded length. `code_to_address` never checks that six bytes were decoded. All bytes after the first four are read as the port. `AddressCodec.AnyLongCodeDecodes` and `AddressCodec.LongCodeDecodes` state what that allows.
- Missing chunks. `receive_file`'s dict has no key for a chunk that never arrived. The keys are exactly the indices received (`Transfer.Store`). Writing the dict out passes over the missing index, so the file is silently shorter (`Transfer.ReassembleGaps`).

## Model

| member | source | states |
|---|---|---|
| Bytes.FromBigEndian | utils.py:18 | `int.from_bytes` of k big-endian bytes is below 256^k; empty input reads as 0 |
| Bytes.ToBigEndian | utils.py:11 | `to_bytes(width)` of a value that fits gives exactly `width` bytes that read back as the value |
| Bytes.ToBytes | utils.py:11 | `to_bytes(width)` succeeds if and only if 0 <= n < 256^width (otherwise OverflowError), with the width and value above |
| Bytes.ToFromBigEndian | utils.py:11 | writing back the value of any byte string at its own width gives the string |
| Bytes.BigEndianInjective | utils.py:18 | two byte strings of equal length with the same value are equal |
| Base64Url.Symbol | utils.py:12 | every 6-bit value has an alphabet character that decodes back to it and is not `=` |
| Base64Url.ValueOf | utils.py:16 | a character has a 6-bit value exactly when it is in the URL-safe alphabet or is `+` or `/`, which `urlsafe_b64decode` reads as `-` and `_` |
| Base64Url.EncodeGroup | utils.py:12 | a 3-byte group encodes as 4 ASCII characters of the URL-safe alphabet |
| Base64Url.Encode | utils.py:12 | the output has 4 characters per started 3-byte group; it is all ASCII; without padding (length divisible by 3) every character is in the URL-safe alphabet |
| Base64Url.Decode | utils.py:16 | decoding fails with a non-ASCII error exactly when the text has a non-ASCII character |
| Base64Url.Scan | utils.py:16 | the decoder state machine never reports non-ASCII, and only appends to the output so far |
| Base64Url.ScanQuad | utils.py:16 | four alphabet characters in a row append the three bytes their 24 bits make up |
| Base64Url.ScanGroup | utils.py:12-16 | scanning the encoding of a 3-byte group appends exactly those bytes and carries on with the rest |
| Base64Url.ScanOne | utils.py:12-16 | scanning the padded encoding of a single byte appends exactly that byte |
| Base64Url.ScanTwo | utils.py:12-16 | scanning the padded encoding of two bytes appends exactly those bytes |
| Base64Url.ScanEncode | utils.py:12-16 | scanning an encoding appends exactly the encoded bytes |
| Base64Url.DecodeEncode | utils.py:12-16 | `urlsafe_b64decode(urlsafe_b64encode(b)) == b` for every byte string |
| AddressCodec.AddressToCode | utils.py:10-12 | encoding succeeds if and only if the port is in 0..65535; the code is 8 URL-safe characters with no `=`; it decodes to the 4 address bytes followed by the 2 big-endian port bytes |
| AddressCodec.CodeToAddress | utils.py:15-18 | decoding succeeds if and only if the text decodes and yields at least 4 bytes; the address is the first 4 decoded bytes and the port is ALL the bytes after them read big-endian; a text that does not decode is reported with the decoder's error |
| AddressCodec.CodeRoundTrip | utils.py:10-18 | `code_to_address(address_to_code(e)) == e` for every endpoint with a port in 0..65535 |
| AddressCodec.AnyLongCodeDecodes | utils.py:16-18 | any encoding of 4 or more bytes is accepted: first 4 bytes as address, all the rest big-endian as the port |
| AddressCodec.LongCodeDecodes | utils.py:10-18 | every code of 4 address bytes followed by bytes whose big-endian value is 65536 or more decodes, and `address_to_code` refuses the endpoint it gives: decoding accepts what encoding never produces |
| AddressCodec.SplitFirst | utils.py:6 | `split(sep, 1)` yields two parts if and only if `sep` occurs; they rejoin around `sep` and the first has no `sep` |
| AddressCodec.Digits | utils.py:7 | `str(n)` for n >= 0: decimal digits, non-empty, whose value is n, with no leading zero |
| AddressCodec.ParseInt | utils.py:7 | `int(s)` succeeds only on a non-empty text that starts with a digit, or with `-` or `+` followed by at least one more character, and whose characters after the first are all digits; the sign of the value follows a leading `-`; a plain digit string reads as its decimal value, a signed one as its digits' value with that sign |
| AddressCodec.FormatInt | utils.py:7 | `str(n)` is non-empty, starts with `-` exactly when n is negative, and is digits otherwise; `ParseFormatInt` inverts it |
| AddressCodec.ParseFormatInt | utils.py:7 | `int(str(n)) == n` for every int |
| AddressCodec.ParseAddress | utils.py:5-7 | no colon is an error; text with a colon parses exactly when what follows the first colon parses as an integer, and otherwise fails with NotAnInteger; on success the host is the colon-free text before the first colon and the port is the parsed rest |
| AddressCodec.SplitAtFirstColon | utils.py:6 | splitting `host:rest` at the first colon gives back `host` and `rest` when `host` has no colon |
| AddressCodec.ParseAddressFormat | utils.py:5-7 | `parse_address(host + ':' + str(port)) == (host, port)` for every colon-free host |
| Network.Received | impl.py:74 | `recvfrom(bufsize)` gives the whole datagram when it fits and its first `bufsize` bytes otherwise |
| SessionProtocol.TypeOf | impl.py:12-15 | `PacketType(v)` exists if and only if v is 0, 1 or 2; it is the member whose value is v, and the only one |
| SessionProtocol.Pack | impl.py:24-25 | the packed packet is one type byte (the ordinal) followed by the payload |
| SessionProtocol.Unpack | impl.py:27-32 | unpacking fails exactly when the first byte exceeds 2, with that value; otherwise it inverts `pack`; empty data is an empty CONNECT |
| SessionProtocol.UnpackPack | impl.py:24-32 | `unpack(pack(p)) == p` for every packet |
| SessionProtocol.ReceiveFrom | impl.py:70-91 | receiving consumes a suffix of the input, at least one datagram unless it times out; while CONNECTED it never returns an ACCEPT; its only errors are an unknown type or a timeout |
| SessionProtocol.Skipped | impl.py:74-89 | `receive_packet` passes over every datagram from another endpoint; from the peer it passes over nothing while DISCONNECTED and, while CONNECTED, exactly the datagrams whose first byte is 1 (ACCEPT) |
| SessionProtocol.ReceiveFromSuffix | impl.py:70-91 | what is left after a receive is a suffix of the input: datagrams are consumed from the front only |
| SessionProtocol.ReceiveFromStep | impl.py:74-91 | a foreign datagram or a skipped ACCEPT at the head is consumed and the receive retries; any other head datagram is unpacked (after truncation to the buffer) and returned |
| SessionProtocol.ReceiveFromFirstUnskipped | impl.py:74-91 | the result is decided by the first datagram that is from the peer and not a skipped ACCEPT; everything before it is consumed |
| SessionProtocol.SkipPrefix | impl.py:74-89 | a run of foreign datagrams and skipped ACCEPTs ahead of the rest changes nothing |
| SessionProtocol.Handshake | impl.py:104-111 | with `reply` the packet `receive_packet` returns: the handshake passes if and only if the reply is CONNECT or ACCEPT, then CONNECTED; only a CONNECT reply is answered, with ACCEPT; a FILE reply fails with HandshakeError(FILE) and keeps the state; a receive error propagates unchanged; the remaining input is what the receive left; CONNECTED is never left |
| SessionProtocol.Outbound | impl.py:68 | the datagrams carrying packets to the peer, one per packet, in order |
| SessionProtocol.Session.constructor | impl.py:52-56 | a new session is DISCONNECTED with no peer, nothing sent |
| SessionProtocol.Session.SendPacket | impl.py:63-68 | without a peer it fails with MissingPeer and sends nothing; otherwise it appends the packed packet for the peer to the log |
| SessionProtocol.Session.ReceivePacket | impl.py:70-91 | without a peer it fails with MissingPeer before reading; otherwise it returns what `ReceiveFrom` says and leaves its remaining input |
| SessionProtocol.Session.Establish | impl.py:93-94 | the state becomes CONNECTED |
| SessionProtocol.Session.Connect | impl.py:96-111 | the peer is bound (also when already CONNECTED); the log gains CONNECT and then the handshake's replies; outcome, state and remaining input are the handshake's |
| SessionProtocol.SimultaneousConnect | impl.py:83-109 | with the other side's CONNECT then ACCEPT queued, the handshake passes, answers ACCEPT, and the late ACCEPT is skipped afterwards |
| SessionProtocol.LateAcceptSkipped | impl.py:83-91 | while CONNECTED a late ACCEPT is skipped and the next packet returned |
| SessionProtocol.AcceptReturnedWhileDisconnected | impl.py:83-91 | while DISCONNECTED an ACCEPT is returned |
| SessionProtocol.ForeignFloodIgnored | impl.py:74-81 | foreign datagrams, whatever their bytes, are skipped before unpacking, so they never cause an error |
| PeerPackets.TypeOf | new.py:18-22 | `PacketType(v)` exists if and only if v <= 3; it is the member with value v, and the only one |
| PeerPackets.Pack | new.py:30-31 | one type byte (the ordinal), then the payload; length is 1 + payload length |
| PeerPackets.Unpack | new.py:33-38 | fails exactly when the first byte exceeds 3, with that value; otherwise inverts `pack`; empty data is an empty CONNECT |
| PeerPackets.UnpackPack | main.py:28-37 | `unpack(pack(p)) == p` for every packet |
| PeerPackets.DatagramsAppend | new.py:72-73 | sending two runs of packets one after the other sends their concatenation |
| PeerPackets.AnswerReply | new.py:94-102 | passes if and only if the reply is CONNECT or ACCEPT, then CONNECTED; only CONNECT is answered, with ACCEPT; any other packet is a HandshakeError naming it; a receive error is the outcome unchanged, with nothing sent; a failure keeps the state |
| Transfer.Chunkify | new.py:106 | the chunks concatenate to the data; each has 1..size bytes and all but the last exactly size |
| Transfer.ChunkCountIsCeiling | new.py:106 | the number of chunks is the length divided by the chunk size, rounded up |
| Transfer.BeginPacket | new.py:107-109 | the TRANSFER_BEGIN packet is 5 bytes long and `receive_file` reads back from it the count it announces |
| Transfer.ChunkPacket | new.py:111-112 | a TRANSFER_CHUNK packet is 5 bytes longer than its data |
| Transfer.FilePackets | new.py:104-112 | `send_file` sends one packet per chunk plus one, the TRANSFER_BEGIN first and only TRANSFER_CHUNKs after it |
| Transfer.FilePacketsLayout | new.py:104-112 | `send_file` sends one TRANSFER_BEGIN whose 4-byte payload is the chunk count, then one TRANSFER_CHUNK per chunk in index order, each 5 + chunk bytes long and parsing back to its index and data |
| Transfer.FilePacketAt | new.py:110-112 | the packet sent for chunk i is a TRANSFER_CHUNK 5 bytes longer than the chunk that parses back to i and the chunk |
| Transfer.ParseChunkPacket | new.py:111-128 | the index and data `receive_file` reads from a chunk packet are the ones `send_file` put in |
| Transfer.ParseChunk | new.py:126-127 | the data `receive_file` takes from a chunk payload is everything after the 4 index bytes (nothing for a short payload), and the index fits in 4 bytes |
| Transfer.ParseChunkInverse | new.py:111-127 | every payload of 4 bytes or more is the chunk payload of the index and data it parses to, so parsing loses nothing |
| Transfer.ChunkCount | new.py:120 | for a payload of 4 bytes or more the count is the number whose 4 big-endian bytes are the payload's first four |
| Transfer.Store | new.py:119-128 | the dict's keys are the keys before plus every index received |
| Transfer.StoreUntouched | new.py:128 | an index no packet carries keeps its old data |
| Transfer.StoreLastWins | new.py:128 | a duplicate index holds the data of the last packet carrying it |
| Transfer.StoreAgrees | new.py:128 | when every stored entry is a correct chunk, so is every entry of the dict |
| Transfer.LeastKey | new.py:148 | the first key of `sorted(keys)`: a key no larger than any other |
| Transfer.HasLeast | new.py:148 | every non-empty set of keys has a least key, so `sorted` has a first element |
| Transfer.Reassemble | new.py:148-149 | no chunk is longer than the file written from the dict, and the file is empty exactly when every chunk is empty |
| Transfer.ReassembleGaps | new.py:148-149 | for keys in `lo` to `n - 1`, the file is the chunks in ascending key order, a missing index contributing nothing |
| Transfer.ReassembleIndexed | new.py:148-149 | writing out a dict that holds every index from `lo` on gives the chunks from `lo` on |
| Transfer.ReassembleAnyOrder | new.py:126-130 | whatever the arrival order and duplicates, if every received entry is a correct chunk and every index arrives, writing the dict in key order rebuilds the data |
| FilePeer.NextData | new.py:63-70 | `_receive` consumes at least one datagram and returns at most 1472 bytes, or times out having consumed everything |
| FilePeer.NextDataFirst | new.py:63-70 | `_receive` returns the bytes the buffer takes of the first datagram from the peer, dropping every datagram before it; it times out exactly when no datagram comes from the peer |
| FilePeer.NextDataSuffix | new.py:63-70 | `_receive` consumes datagrams only from the front |
| FilePeer.NextPacket | new.py:75-86 | `receive` never returns ACCEPT while CONNECTED; its only errors are an unknown type or a timeout |
| FilePeer.Skipped | new.py:63-86 | a datagram is passed over by `receive` exactly when it is foreign, or it is from the peer with first byte 1 (ACCEPT) while CONNECTED |
| FilePeer.NextPacketStep | new.py:63-86 | a skipped datagram is consumed and `receive` goes on; any other decides the result by unpacking its received bytes |
| FilePeer.NextPacketFirstUnskipped | new.py:63-86 | `receive`'s result is the unpacking of the first datagram it does not skip, an unknown type byte included, and all before it are consumed; it times out exactly when every datagram is skipped |
| FilePeer.UnknownFromPeer | new.py:33-38 | a datagram from the peer whose first byte is above 3 is consumed and `receive` fails with UnknownPacketType naming that byte |
| FilePeer.NextPacketSuffix | new.py:75-86 | `receive` consumes datagrams only from the front |
| FilePeer.NextPacketDelivers | new.py:63-86 | a packet from the peer that fits the buffer and is not a skipped ACCEPT is returned whole, consuming one datagram |
| FilePeer.ForeignFloodIgnored | new.py:63-70 | datagrams from other addresses, whatever their bytes, are skipped |
| FilePeer.LateAcceptsSkipped | new.py:79-86 | while CONNECTED, any run of ACCEPTs is skipped and the next packet returned |
| FilePeer.CollectChunks | new.py:121-128 | the chunk loop reads no more than its input and only adds keys to the dict |
| FilePeer.ReceiveFileFrom | new.py:114-130 | `receive_file` reads no more than its input |
| FilePeer.CollectReceiveError | new.py:121-122 | a receive error while chunks are still expected is `receive_file`'s result unchanged, with the input `receive` left |
| FilePeer.ReceiveFileReceiveError | new.py:115 | a receive error in place of TRANSFER_BEGIN is `receive_file`'s result unchanged |
| FilePeer.DatagramsDeliver | new.py:63-86 | intact chunk packets sent one after the other are returned by `receive` one by one, in order, each consuming its datagram |
| FilePeer.CollectStep | new.py:121-128 | one chunk packet returned by `receive` is stored under its index, uses up one expected packet, and the loop goes on from what the receive left |
| FilePeer.StoreEntriesStep | new.py:126-128 | storing the (index, data) entries parsed from a run of chunk packets stores the first packet's entry, then the rest's |
| FilePeer.CollectDelivered | new.py:121-128 | when exactly the expected number of intact chunk packets arrive, they are stored in arrival order (a later duplicate index wins) and nothing after them is read |
| FilePeer.CollectInterrupted | new.py:121-125 | a non-chunk packet arriving before the expected count is reached aborts the loop with a ValueError naming it, consuming it |
| FilePeer.CollectStray | new.py:123-125 | a packet other than TRANSFER_CHUNK while chunks are expected ends the loop with a ValueError naming it |
| FilePeer.WrongFirstPacketRejected | new.py:115-117 | a first packet other than TRANSFER_BEGIN makes `receive_file` fail, naming it |
| FilePeer.StrayPacketAborts | new.py:121-124 | a non-chunk packet among the expected chunks makes `receive_file` fail, naming it |
| FilePeer.DeliveredWereSent | new.py:104-112 | a delivered permutation of the chunk packets has one packet per chunk, all intact and each carrying its correct chunk |
| FilePeer.SentChunk | new.py:109-113 | the chunk packet sent for index i fits the buffer and parses back to i and the i-th chunk |
| FilePeer.SentWereDelivered | new.py:104-112 | in a delivered permutation every chunk index is present |
| FilePeer.SentIndexDelivered | new.py:104-112 | the chunk packet sent for index i is in a delivered permutation, so i is among the indices received |
| FilePeer.BeginDelivered | new.py:115-120 | an intact TRANSFER_BEGIN makes `receive_file` expect the count it announces |
| FilePeer.ReceiveFileBegins | new.py:115-121 | a TRANSFER_BEGIN received first makes `receive_file` collect as many chunks as its first 4 payload bytes announce, from where the receive left off |
| FilePeer.DeliveredFileRoundTrip | new.py:104-130 | when all packets `send_file` sends arrive once, TRANSFER_BEGIN first and chunks in any order, `receive_file` succeeds, reads exactly those datagrams, and its dict written in key order is the file |
| FilePeer.FilePacketsFirst | new.py:109 | the first datagram `send_file` sends carries TRANSFER_BEGIN with the chunk count |
| FilePeer.FilePacketsNext | new.py:110-112 | step k of the send loop adds exactly the datagram of chunk packet k to what was sent before |
| FilePeer.Peer.constructor | new.py:48-52 | a new peer is DISCONNECTED with its address, nothing sent |
| FilePeer.Peer.Send | new.py:60-61 | the log gains the packed packet, for the peer's address |
| FilePeer.Peer.ReceiveData | new.py:63-70 | returns and consumes what `NextData` says |
| FilePeer.Peer.Receive | new.py:75-86 | returns and consumes what `NextPacket` says |
| FilePeer.Peer.Establish | new.py:88-89 | the state becomes CONNECTED |
| FilePeer.Peer.Connect | new.py:91-102 | the log gains CONNECT and then the handshake's replies; outcome, state and remaining input are those `AnswerReply` gives for the first received packet |
| FilePeer.Peer.Open | new.py:51-58 | a fresh DISCONNECTED peer runs the handshake at once |
| FilePeer.Peer.SendFile | new.py:104-112 | a file of 2^32 or more chunks fails with TooManyChunks and sends nothing; otherwise exactly the packets of `FilePacketsLayout` are sent, in order |
| FilePeer.Peer.ReceiveFile | new.py:114-130 | returns and consumes what `ReceiveFileFrom` says |
| FilePeer.Peer.ReceiveChunks | new.py:120-130 | the `for` loop returns and consumes what `CollectChunks` says for the count |
| FilePeer.SourceChunkSizeTruncates | new.py:104-112 | with the source's chunk size a 1468-byte file gives a 1473-byte chunk packet, and the receiver rebuilds only its first 1467 bytes |
| FilePeer.ChunkPacketsFit | new.py:104-112 | with the corrected chunk size every packet `send_file` sends fits the 1472-byte buffer |
| AsyncPeer.NextPacket | main.py:61-72 | `receive` never returns ACCEPT while CONNECTED; it reports QueueEmpty exactly when every queued datagram is a skipped ACCEPT, leaving nothing |
| AsyncPeer.Skipped | main.py:63-70 | `receive` passes over a datagram, from any source, exactly when the peer is CONNECTED and the first byte is 1 (ACCEPT) |
| AsyncPeer.UnknownAtHead | main.py:61-64 | a datagram at the head of the queue, from any source, whose first byte is above 3 is consumed and `receive` fails with UnknownPacketType naming that byte |
| AsyncPeer.NextPacketFirstUnskipped | main.py:61-72 | unless the queue runs dry, `receive`'s result is the unpacking of the first queued datagram it does not skip, and every datagram before it was a skipped ACCEPT |
| AsyncPeer.NextPacketSuffix | main.py:61-72 | the queue is consumed from the front only (FIFO) |
| AsyncPeer.SourceIgnored | main.py:62 | the source address plays no part: queues with the same bytes in the same order give the same packet |
| AsyncPeer.ReceiveDelivers | main.py:61-72 | the packet at the head of the queue, from any source, is returned unless it is a skipped ACCEPT |
| AsyncPeer.LateAcceptsSkipped | main.py:65-70 | while CONNECTED, any run of ACCEPTs is skipped and the next packet returned |
| AsyncPeer.SimultaneousConnect | main.py:89-97 | with the other side's CONNECT then ACCEPT queued, the handshake passes, answers ACCEPT, and the next receive skips the late ACCEPT |
| AsyncPeer.Peer.constructor | main.py:48-56 | a new peer is DISCONNECTED |
| AsyncPeer.Peer.Send | main.py:58-59 | the log gains the packed packet, for the connected address |
| AsyncPeer.Peer.Receive | main.py:61-72 | returns and consumes what `NextPacket` says |
| AsyncPeer.Peer.Establish | main.py:74-75 | the state becomes CONNECTED |
| AsyncPeer.Peer.Connect | main.py:77-101 | a fresh DISCONNECTED peer sends CONNECT before its first receive; the log gains the handshake's replies; outcome and state are those `AnswerReply` gives |

## Left out

- Sockets, binding, the 30-second timeout value, asyncio's `create_datagram_endpoint`, and `protocol.py`'s queue. Inbound traffic is a finite sequence of datagrams; outbound traffic is a log.
- A connected datagram endpoint. `main.py` connects its endpoint to the peer's address, so the operating system drops datagrams from other sources. The model's queue may still hold them, which is how `AsyncPeer.SourceIgnored` shows that `receive` itself does no filtering.
- A `main.py` queue that runs dry. The program would wait for more datagrams forever; the model returns `QueueEmpty` instead.
- Python's recursion limit. The source retries by recursion and would raise RecursionError after about a thousand skipped datagrams; the model's loops have no such limit.
- `get_external_address` (the STUN lookup) is not part of this model.
- `chunkify`'s code is not part of this model. `Transfer.Chunkify` is the split it is assumed to perform.
- `socket.inet_aton` and `socket.inet_ntoa` are not modelled. An address is its four raw bytes, so dotted-quad text is not parsed.
- `int()` whitespace and underscores: `AddressCodec.ParseInt` takes only an optional sign followed by ASCII digits.
- The top-level scripts (`new.py:133-154`, `main.py:104-126`): input, print and file I/O. The one exception is the reassembly in key order, which is `Transfer.Reassemble`.
- `main.py` calls `send_file` and `receive_file`, which its `Peer` does not define. Nothing is modelled for those calls.
- `send_file` uses the global `peer` where it means `self`. The model sends through `self`.
- The debug `print` in `main.py`'s `unpack`.
- The `print("warning")` of `impl.py:78` on a datagram from another endpoint. The datagram is still dropped, as `SessionProtocol.Skipped` states.
- The `exceptions` module is not part of this model. `HandshakeError` and the other exceptions are error values.
- The `TRANSFER_BEGIN` and `TRANSFER_CHUNK` members of `PeerState` are never assigned in the source. They are not modelled.
- The `FILE` packet of `impl.py` has no sender or handler beyond framing.
- Datagram truncation follows Linux: a datagram longer than the buffer yields its first bytes. On Windows `recvfrom` raises instead.
- FilePeer.Peer.SendFile: uses the corrected chunk size `ChunkSize` (1467), not the source's 1468. See Findings.
- FilePeer.Peer.Open: when the handshake fails the model returns the peer along with the failure, where `__init__` (`new.py:51-58`) raises and no object is created.
- AsyncPeer.Peer.Connect: when the handshake fails the model returns the peer along with the failure, where the source raises and returns nothing.

## Findings

| source | as written | input that shows it | evidently intended | confidence | as-written member | corrected member |
|---|---|---|---|---|---|---|
| new.py:104-112 | chunks of `MAX_PACKET_SIZE - 4` = 1468 bytes; a chunk packet adds 1 type byte and 4 index bytes, so it is 1473 bytes; the receiver's buffer is `MAX_PACKET_SIZE` = 1472, so `recvfrom` cuts the last byte | any file of 1468 bytes or more, e.g. 1468 bytes: the receiver rebuilds only the first 1467 | every chunk packet fits the receive buffer, i.e. chunks of at most 1472 - 5 = 1467 bytes, so the file is rebuilt exactly | high, not executed | FilePeer.SourceChunkSizeTruncates | FilePeer.ChunkPacketsFit, FilePeer.DeliveredFileRoundTrip |
