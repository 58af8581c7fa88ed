/**
 * What the protocol code sees of UDP: datagrams with their source (inbound)
 * or destination (outbound) endpoint.
 */
module Network {
  import opened Bytes
  import opened AddressCodec

  /** A datagram and the endpoint it came from or goes to. */
  datatype Datagram = Datagram(data: seq<byte>, addr: Endpoint)

  /**
   * What `recvfrom(bufSize)` hands over of a datagram: on Linux a datagram
   * longer than the buffer is cut to the buffer's size and the rest is lost.
   */
  function Received(data: seq<byte>, bufSize: nat): (r: seq<byte>)
    ensures |data| <= bufSize ==> r == data
    ensures |data| > bufSize ==> |r| == bufSize && r == data[..bufSize]
  {
    Take(data, bufSize)
  }
}
