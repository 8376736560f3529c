/** Who the server talks to: configured identities, certificate subjects, pending handshakes and active peers. */
module Peers {
  import opened Basics
  import opened Net
  import opened Codec
  import opened HandshakeMessages
  import opened RoutingTable
  import Handshake
  import Session
  import TokenBucket

  datatype AuthConfig = AuthConfig(identity: Handshake.Identity, verifier: Handshake.Verifier)

  datatype PeerIdentity = PeerIdentity(name: string, allowedIps: seq<IpNet>, auth: AuthConfig)

  /** Two sessions belong to one peer when its name and prefixes are the same. */
  predicate SamePeer(a: PeerIdentity, b: PeerIdentity) {
    a.name == b.name && a.allowedIps == b.allowedIps
  }

  /** A certificate authority; `None` stands for settings that do not parse. Subjects are their keys. */
  datatype CertificateAuthority = CertificateAuthority(
    auth: Option<AuthConfig>,
    defaultAllowedIps: Option<seq<IpNet>>,
    overrides: map<Key, Option<seq<IpNet>>>,
    revoked: set<Key>)

  function AllowedIpsFor(ca: CertificateAuthority, subject: Key): Option<seq<IpNet>> {
    if subject in ca.overrides then ca.overrides[subject] else ca.defaultAllowedIps
  }

  function HexDigit(n: nat): char
    requires n < 16
  {
    "0123456789abcdef"[n]
  }

  function Hex(b: seq<u8>): string {
    if b == [] then "" else [HexDigit(b[0] / 16), HexDigit(b[0] % 16)] + Hex(b[1..])
  }

  /** The identity a verified subject gets, unless it is revoked or has no prefixes. */
  function SubjectIdentity(ca: CertificateAuthority, subject: Key): Option<PeerIdentity> {
    var allowed := AllowedIpsFor(ca, subject);
    if subject in ca.revoked || allowed.None? || allowed.value == [] || ca.auth.None? then None
    else Some(PeerIdentity("cert:" + Hex(subject[..8]), allowed.value, ca.auth.value))
  }

  datatype PendingSource = Known(identity: PeerIdentity) | ByCertificate(ca: CertificateAuthority)

  datatype PendingHandshake = PendingHandshake(
    source: PendingSource,
    handshake: Handshake.ResponderState,
    endpoint: SocketAddr,
    packet: Packet,
    kind: PacketKind,
    attempts: u32)

  datatype ActivePeer = ActivePeer(
    identity: PeerIdentity,
    session: Session.State,
    endpoint: SocketAddr,
    lastRx: nat,
    rekeys: u64,
    rxLimiter: TokenBucket.Bucket)
}
