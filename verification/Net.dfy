/** Addresses, as the transport and the router share them. */
module Net {
  import opened Basics

  /** A byte string; no slice is longer than `usize` can say. */
  type Bytes = s: seq<u8> | |s| <= USIZE_MAX witness []

  /** An address in network byte order: four octets or sixteen. */
  datatype IpAddr = V4(octets: seq<u8>) | V6(octets: seq<u8>)

  datatype SocketAddr = SocketAddr(ip: IpAddr, port: u16)

  /** The sixteen bytes of a session id read as one big-endian number, so that byte order is number order. */
  type SessionId = n: nat | n <= U128_MAX
}
