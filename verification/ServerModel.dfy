/**
 The server's session state machine: pending handshakes, active peers and the router,
 moved by arriving packets, timers and configuration reloads. Each arm of the event loop
 is one step; randomness, clocks and I/O outcomes are parameters of the step.
 */
module ServerModel {
  import opened Basics
  import opened Net
  import opened Codec
  import opened Crypto
  import opened HandshakeMessages
  import opened Peers
  import Handshake
  import P = Pending
  import RM = RouterModel
  import Session
  import TokenBucket

  const MAX_PENDING_HANDSHAKES: nat := 4096
  const MIN_PENDING_PER_SOURCE: nat := 8
  const BYTES_PER_MIB: nat := 1024 * 1024

  // Configuration

  datatype LinkConfig = LinkConfig(between: seq<string>, transmitters: seq<string>, receivers: seq<string>)

  /** Settings that only a restart can change. */
  datatype Startup = Startup(retryLimit: u32, idleTimeout: Option<nat>, grace: nat, rest: nat)

  datatype Limits = Limits(txMibPerSec: u64, rxMibPerSec: u64)

  datatype Config = Config(
    startup: Startup,
    peers: seq<PeerIdentity>,
    ca: Option<CertificateAuthority>,
    links: seq<LinkConfig>,
    limits: Limits,
    dns: nat)

  /** Members of a group reach each other; transmitters reach receivers. */
  function EdgesOf(link: LinkConfig): RM.Edges {
    (set i, j | 0 <= i < |link.between| && i < j < |link.between| :: (link.between[i], link.between[j]))
    + (set i, j | 0 <= i < |link.between| && i < j < |link.between| :: (link.between[j], link.between[i]))
    + (set t, r | t in link.transmitters && r in link.receivers :: (t, r))
  }

  function LinksFor(links: seq<LinkConfig>): RM.Edges {
    if links == [] then {} else EdgesOf(links[0]) + LinksFor(links[1..])
  }

  function RateOf(mib: u64): u64 {
    Min(mib * BYTES_PER_MIB, U64_MAX)
  }

  function PerSourceLimit(identities: seq<PeerIdentity>, ca: Option<CertificateAuthority>): nat {
    Max(Min(2 * (|identities| + if ca.Some? then 1 else 0), USIZE_MAX), MIN_PENDING_PER_SOURCE)
  }

  // State

  type Active = map<SessionId, ActivePeer>

  /** `rxRate` is taken from the configuration once, at startup. */
  datatype Server = Server(
    active: Active,
    pending: P.Entries,
    router: RM.Core,
    config: Config,
    identities: seq<PeerIdentity>,
    ca: Option<CertificateAuthority>,
    perSourceLimit: nat,
    rxRate: u64)

  function Launch(config: Config): Server {
    Server(map[], map[], RM.Init(LinksFor(config.links)), config, config.peers, config.ca,
           PerSourceLimit(config.peers, config.ca), RateOf(config.limits.rxMibPerSec))
  }

  // Starting handshakes

  /** What the responder draws at random for one response. */
  datatype Draw = Draw(ephemeral: seq<u8>, random: Random, sessionId: SessionId)

  /** The response to an initiation as one identity, if it can be computed. */
  function Answer(c: Suite, endpoint: SocketAddr, initiation: Message, source: PendingSource, auth: AuthConfig, d: Draw)
    : Option<PendingHandshake>
    requires Correct(c)
  {
    var r := Handshake.Accept(c, auth.identity, auth.verifier, initiation, d.ephemeral, d.random, d.sessionId, 0);
    if r.Err? then None
    else
      var packet := Packet(Header(PacketKind.Handshake, 0, 0, d.sessionId), EncodeMessage(r.value.response));
      Some(PendingHandshake(source, r.value, endpoint, packet, PacketKind.Handshake, 1))
  }

  function Respond(c: Suite, pending: P.Entries, endpoint: SocketAddr, initiation: Message, source: PendingSource,
                   auth: AuthConfig, d: Draw): P.Entries
    requires Correct(c)
  {
    var answer := Answer(c, endpoint, initiation, source, auth, d);
    if answer.None? then pending else pending[d.sessionId := answer.value]
  }

  /** One response per configured identity, until the source has used up its share. */
  function RespondAsEach(c: Suite, pending: P.Entries, limit: nat, endpoint: SocketAddr, initiation: Message,
                         identities: seq<PeerIdentity>, draws: seq<Draw>): P.Entries
    requires Correct(c) && |draws| >= |identities|
    decreases |identities|
  {
    if identities == [] || P.CountFor(pending, endpoint) >= limit then pending
    else
      RespondAsEach(c, Respond(c, pending, endpoint, initiation, Known(identities[0]), identities[0].auth, draws[0]),
                    limit, endpoint, initiation, identities[1..], draws[1..])
  }

  function BeginInitial(c: Suite, s: Server, endpoint: SocketAddr, initiation: Message, draws: seq<Draw>): P.Entries
    requires Correct(c) && |draws| > |s.identities|
  {
    if |s.pending| >= MAX_PENDING_HANDSHAKES || P.CountFor(s.pending, endpoint) >= s.perSourceLimit then s.pending
    else
      var tried := RespondAsEach(c, s.pending, s.perSourceLimit, endpoint, initiation, s.identities, draws);
      if P.CountFor(tried, endpoint) < s.perSourceLimit && s.ca.Some? && s.ca.value.auth.Some?
      then Respond(c, tried, endpoint, initiation, ByCertificate(s.ca.value), s.ca.value.auth.value,
                   draws[|s.identities|])
      else tried
  }

  /** The response to a rekey initiation: the same session, one phase on. */
  function RekeyEntry(c: Suite, endpoint: SocketAddr, current: ActivePeer, initiation: Message, d: Draw)
    : Option<PendingHandshake>
    requires Correct(c) && current.session.keyPhase < U32_MAX
  {
    var id, phase, auth := current.session.sessionId, current.session.keyPhase, current.identity.auth;
    var r := Handshake.Accept(c, auth.identity, auth.verifier, initiation, d.ephemeral, d.random, id, phase + 1);
    if r.Err? then None
    else
      var packet := Packet(Header(Rekey, phase, 0, id), EncodeMessage(r.value.response));
      Some(PendingHandshake(Known(current.identity), r.value, endpoint, packet, Rekey, 1))
  }

  function BeginRekey(c: Suite, pending: P.Entries, limit: nat, endpoint: SocketAddr, current: ActivePeer,
                      initiation: Message, d: Draw): P.Entries
    requires Correct(c)
  {
    if current.session.sessionId in pending || P.CountFor(pending, endpoint) >= limit
      || current.session.keyPhase == U32_MAX then pending
    else
      var e := RekeyEntry(c, endpoint, current, initiation, d);
      if e.None? then pending else pending[current.session.sessionId := e.value]
  }

  /** A rekey initiation counts only from the peer's own endpoint and in its current phase. */
  function RekeyRequested(c: Suite, s: Server, endpoint: SocketAddr, packet: Packet, d: Draw): P.Entries
    requires Correct(c)
  {
    var id := packet.header.sessionId;
    var m := DecodeMessage(packet.payload);
    if id !in s.active || s.active[id].endpoint != endpoint || s.active[id].session.keyPhase != packet.header.keyPhase
    then s.pending
    else if m.Err? || !m.value.Initiation? then s.pending
    else BeginRekey(c, s.pending, s.perSourceLimit, endpoint, s.active[id], m.value, d)
  }

  // Finishing handshakes

  function IdentityFor(source: PendingSource, subject: Key): Option<PeerIdentity> {
    match source
    case Known(identity) => Some(identity)
    case ByCertificate(ca) => SubjectIdentity(ca, subject)
  }

  /** Whether a finish packet is for this pending handshake at all; if so the handshake is used up. */
  predicate Expected(s: Server, endpoint: SocketAddr, packet: Packet) {
    var id := packet.header.sessionId;
    id in s.pending && s.pending[id].endpoint == endpoint && s.pending[id].kind == packet.header.kind
  }

  /** The session and identity a finish packet establishes, if it is genuine and its subject is acceptable. */
  function Established(c: Suite, p: PendingHandshake, payload: seq<u8>, clock: u64, now: nat)
    : Option<(Session.State, PeerIdentity)>
  {
    var m := DecodeMessage(payload);
    if m.Err? then None
    else
      var r := Handshake.FinishResponder(c, p.handshake, m.value, clock, now);
      if r.Err? then None
      else
        var identity := IdentityFor(p.source, r.value.1);
        if identity.None? then None else Some((r.value.0, identity.value))
  }

  /** The other sessions of a peer that has just established one. */
  function Stale(active: Active, id: SessionId, identity: PeerIdentity): set<SessionId> {
    set other | other in active && other != id && SamePeer(active[other].identity, identity)
  }

  /** A rekeyed session inherits its predecessor's phase, its receive limiter and its counters. */
  function AdmittedOver(older: Option<ActivePeer>, grace: nat, rxRate: u64, session: Session.State,
                        identity: PeerIdentity, endpoint: SocketAddr, now: nat): ActivePeer
  {
    match older
    case Some(o) => ActivePeer(identity, Session.Inherit(session, o.session, grace, now), endpoint, now,
                               Min(o.rekeys + 1, U64_MAX), o.rxLimiter)
    case None => ActivePeer(identity, session, endpoint, now, 0, TokenBucket.New(rxRate, now))
  }

  function Admitted(s: Server, session: Session.State, identity: PeerIdentity, endpoint: SocketAddr, now: nat)
    : ActivePeer
  {
    var id := session.sessionId;
    AdmittedOver(if id in s.active then Some(s.active[id]) else None, s.config.startup.grace, s.rxRate, session,
                 identity, endpoint, now)
  }

  /** Unregistering a set of sessions, in any order. */
  function RouterWithout(r: RM.Core, gone: set<SessionId>): RM.Core {
    RM.Core(r.links,
            map id | id in r.peers && id !in gone :: r.peers[id].(linked := r.peers[id].linked - gone),
            map mac | mac in r.macs && r.macs[mac] !in gone :: r.macs[mac])
  }

  /** An already registered session keeps its entry, and the MACs it has learned. */
  function RouterWith(r: RM.Core, id: SessionId, identity: PeerIdentity): RM.Core {
    if id in r.peers then r else RM.Register(r, id, identity.name, identity.allowedIps)
  }

  function Admit(s: Server, session: Session.State, identity: PeerIdentity, endpoint: SocketAddr, now: nat): Server {
    var id := session.sessionId;
    var stale := Stale(s.active, id, identity);
    s.(active := (s.active - stale)[id := Admitted(s, session, identity, endpoint, now)],
       router := RouterWith(RouterWithout(s.router, stale), id, identity))
  }

  function FinishArrived(c: Suite, s: Server, endpoint: SocketAddr, packet: Packet, clock: u64, now: nat): Server {
    if !Expected(s, endpoint, packet) then s
    else
      var id := packet.header.sessionId;
      var rest := s.(pending := s.pending - {id});
      var e := Established(c, s.pending[id], packet.payload, clock, now);
      if e.None? then rest else Admit(rest, e.value.0, e.value.1, endpoint, now)
  }

  // Established sessions

  function Dropped(s: Server, gone: set<SessionId>): Server {
    s.(active := s.active - gone, router := RouterWithout(s.router, gone))
  }

  /** Keepalives, data and closes: nothing happens unless the session opens the packet. */
  function Inbound(c: Suite, s: Server, endpoint: SocketAddr, packet: Packet, now: nat): Server {
    var id := packet.header.sessionId;
    if id !in s.active then s
    else
      var peer := s.active[id];
      var (session, r) := Session.Open(c, peer.session, packet, now);
      if r.Err? then s
      else if packet.header.kind == Close then Dropped(s, {id})
      else if packet.header.kind == Data && r.value == []
      then s.(active := s.active[id := peer.(session := session, lastRx := now)])
      else s.(active := s.active[id := peer.(session := session, lastRx := now, endpoint := endpoint)])
  }

  function Emitted(c: Suite, s: Server, id: SessionId, kind: PacketKind, plain: seq<u8>): Server {
    if id !in s.active then s
    else s.(active := s.active[id := s.active[id].(session := Session.Seal(c, s.active[id].session, kind, plain).0)])
  }

  function Policed(s: Server, id: SessionId, bytes: u64, now: nat): Server {
    if id !in s.active then s
    else
      var limiter := TokenBucket.Allow(s.active[id].rxLimiter, now, bytes).0;
      s.(active := s.active[id := s.active[id].(rxLimiter := limiter)])
  }

  function Idle(s: Server, now: nat): set<SessionId> {
    if s.config.startup.idleTimeout.None? then {}
    else set id | id in s.active && now > s.active[id].lastRx + s.config.startup.idleTimeout.value
  }

  // Timers and reloads

  /** Entries that have used up their attempts go; every other response is sent once more. */
  function Retried(pending: P.Entries, retryLimit: u32): P.Entries {
    map id | id in pending && pending[id].attempts < retryLimit :: pending[id].(attempts := pending[id].attempts + 1)
  }

  /**
   What a reload reads: the candidate, unless it does not parse; whether its identities
   resolve; whether the resolver took a changed DNS section; and whether the override map
   happened to be written out in another order, which counts as a change.
   */
  datatype Reading = Reading(candidate: Option<Config>, resolves: bool, dnsTaken: bool, reordered: bool)

  predicate AuthChanged(config: Config, next: Config, reordered: bool) {
    config.peers != next.peers || config.ca != next.ca || reordered
  }

  predicate Rejected(s: Server, r: Reading) {
    || r.candidate.None?
    || r.candidate.value.startup != s.config.startup
    || (Changes(s, r) && (!r.resolves || (r.candidate.value.dns != s.config.dns && !r.dnsTaken)))
  }

  predicate Changes(s: Server, r: Reading)
    requires r.candidate.Some?
  {
    var next := r.candidate.value;
    AuthChanged(s.config, next, r.reordered) || next.links != s.config.links || next.dns != s.config.dns
      || next.limits != s.config.limits
  }

  function Relimited(active: Active, limits: Limits, now: nat): Active {
    map id | id in active :: active[id].(rxLimiter := TokenBucket.New(RateOf(limits.rxMibPerSec), now))
  }

  /** A change to who may connect closes every session and forgets every pending handshake. */
  function Cleared(s: Server, auth: bool): Server {
    if auth then Dropped(s, s.active.Keys).(pending := map[]) else s
  }

  function Reloaded(s: Server, r: Reading, now: nat): Server {
    if Rejected(s, r) || !Changes(s, r) then s
    else
      var next := r.candidate.value;
      var auth := AuthChanged(s.config, next, r.reordered);
      var cleared := Cleared(s, auth);
      var router :=
        if next.links != s.config.links then RM.ReplaceLinks(cleared.router, LinksFor(next.links)) else cleared.router;
      var active :=
        if next.limits != s.config.limits then Relimited(cleared.active, next.limits, now) else cleared.active;
      Server(active, cleared.pending, router, next, next.peers, next.ca, PerSourceLimit(next.peers, next.ca), s.rxRate)
  }

  // Steps

  /** The packet arm of the event loop; `admitted` is the verdict of the cookie challenge. */
  function Received(c: Suite, s: Server, endpoint: SocketAddr, packet: Packet, draws: seq<Draw>, admitted: bool,
                    clock: u64, now: nat): Server
    requires Correct(c) && |draws| > |s.identities|
  {
    var h := packet.header;
    if h.kind == PacketKind.Handshake && h.sequence == 0 && h.sessionId == 0 then
      var m := DecodeMessage(packet.payload);
      if m.Ok? && m.value.Initiation? && admitted
      then s.(pending := BeginInitial(c, s, endpoint, m.value, draws))
      else s
    else if h.kind == PacketKind.Handshake || h.kind == Rekey then
      if h.sequence == 1 then FinishArrived(c, s, endpoint, packet, clock, now)
      else if h.kind == Rekey then s.(pending := RekeyRequested(c, s, endpoint, packet, draws[0]))
      else s
    else Inbound(c, s, endpoint, packet, now)
  }

  datatype Event =
    | PacketReceived(endpoint: SocketAddr, packet: Packet, draws: seq<Draw>, admitted: bool, clock: u64, now: nat)
    | PacketSent(id: SessionId, kind: PacketKind, plain: seq<u8>)
    | PayloadPoliced(id: SessionId, bytes: u64, now: nat)
    | FrameRouted(id: SessionId, frame: seq<u8>)
    | Swept(now: nat)
    | RetryTimer
    | ReloadSignal(reading: Reading, now: nat)

  /** The draws are fresh: enough of them, with session ids that are new and distinct. */
  predicate Fresh(s: Server, draws: seq<Draw>) {
    && |draws| > |s.identities|
    && (forall i | 0 <= i < |draws| :: draws[i].sessionId !in s.active && draws[i].sessionId !in s.pending)
    && (forall i, j | 0 <= i < j < |draws| :: draws[i].sessionId != draws[j].sessionId)
  }

  predicate Enabled(s: Server, e: Event) {
    e.PacketReceived? ==> Fresh(s, e.draws)
  }

  function Step(c: Suite, s: Server, e: Event): Server
    requires Correct(c) && Enabled(s, e)
  {
    match e
    case PacketReceived(endpoint, packet, draws, admitted, clock, now) =>
      Received(c, s, endpoint, packet, draws, admitted, clock, now)
    case PacketSent(id, kind, plain) => Emitted(c, s, id, kind, plain)
    case PayloadPoliced(id, bytes, now) => Policed(s, id, bytes, now)
    case FrameRouted(id, frame) => s.(router := RM.RouteFrame(s.router, id, frame).0)
    case Swept(now) => Dropped(s, Idle(s, now))
    case RetryTimer => s.(pending := Retried(s.pending, s.config.startup.retryLimit))
    case ReloadSignal(reading, now) => Reloaded(s, reading, now)
  }
}
