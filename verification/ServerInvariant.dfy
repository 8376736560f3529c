/** What every step of the server keeps. */
module ServerInvariant {
  import opened Basics
  import opened Net
  import opened Codec
  import opened Crypto
  import opened HandshakeMessages
  import opened Peers
  import opened RoutingTable
  import opened ServerModel
  import opened IpPacket
  import P = Pending
  import RM = RouterModel
  import Session

  /** Who is behind each session, as far as routing is concerned. */
  type Roster = map<SessionId, (string, seq<IpNet>)>

  function ActiveRoster(active: Active): Roster {
    map id | id in active :: (active[id].identity.name, active[id].identity.allowedIps)
  }

  function RouterRoster(peers: RM.Peers): Roster {
    map id | id in peers :: (peers[id].name, peers[id].allowedIps)
  }

  predicate Injective(r: Roster) {
    forall a, b | a in r && b in r && a != b :: r[a] != r[b]
  }

  /** The router knows exactly the active sessions, by the same names and prefixes, one session to a peer. */
  predicate Agrees(s: Server) {
    RM.Valid(s.router) && RouterRoster(s.router.peers) == ActiveRoster(s.active) && Injective(ActiveRoster(s.active))
  }

  ghost predicate SessionOk(id: SessionId, p: ActivePeer) {
    p.session.sessionId == id && Session.Valid(p.session)
  }

  /** A pending handshake for a session that is active is a rekey by the same identity, one phase ahead. */
  predicate AheadOf(id: SessionId, p: PendingHandshake, active: Active) {
    && p.handshake.sessionId == id
    && (id in active ==>
          && p.kind == Rekey && p.source == Known(active[id].identity)
          && p.handshake.keyPhase == active[id].session.keyPhase + 1)
  }

  ghost predicate Ahead(pending: P.Entries, active: Active) {
    && (forall id | id in active :: SessionOk(id, active[id]))
    && (forall id | id in pending :: AheadOf(id, pending[id], active))
  }

  ghost predicate WithinShare(pending: P.Entries, limit: nat) {
    forall source :: P.CountFor(pending, source) <= limit
  }

  predicate Attempted(pending: P.Entries, retryLimit: u32) {
    forall id | id in pending :: 1 <= pending[id].attempts <= retryLimit
  }

  /** The derived settings are those of the configuration in force. */
  predicate Configured(s: Server) {
    && s.identities == s.config.peers && s.ca == s.config.ca
    && s.perSourceLimit == PerSourceLimit(s.identities, s.ca)
    && s.config.startup.retryLimit >= 1
  }

  ghost predicate PendingOk(pending: P.Entries, active: Active, limit: nat, retryLimit: u32) {
    Ahead(pending, active) && WithinShare(pending, limit) && Attempted(pending, retryLimit)
  }

  ghost predicate Valid(s: Server) {
    Agrees(s) && PendingOk(s.pending, s.active, s.perSourceLimit, s.config.startup.retryLimit) && Configured(s)
  }

  lemma LaunchValid(config: Config)
    requires config.startup.retryLimit >= 1
    ensures Valid(Launch(config))
  {
    var s := Launch(config);
    forall source ensures P.CountFor(s.pending, source) <= s.perSourceLimit {
      assert P.From(s.pending, source) == {};
    }
  }

  const BARE: Config := Config(Startup(1, None, 0, 0), [], None, [], Limits(0, 0), 0)

  type ValidServer = s: Server | Valid(s) ghost witness (LaunchValid(BARE); Launch(BARE))

  // The router side

  lemma RouterWithoutOne(r: RM.Core, id: SessionId)
    requires RM.Valid(r)
    ensures RM.Unregister(r, id) == RouterWithout(r, {id})
  {
    var w := RouterWithout(r, {id});
    if id !in r.peers {
      assert w.macs == r.macs;
      forall other | other in r.peers ensures w.peers[other] == r.peers[other] {
        assert id !in r.peers[other].linked;
        assert r.peers[other].linked - {id} == r.peers[other].linked;
      }
      assert w.peers == r.peers;
    } else {
      assert w.peers == RM.Unregister(r, id).peers;
      assert w.macs == RM.Unregister(r, id).macs;
    }
  }

  lemma EvictNone(r: RM.Core)
    ensures RouterWithout(r, {}) == r
  {
    forall id | id in r.peers ensures RouterWithout(r, {}).peers[id] == r.peers[id] {
      assert r.peers[id].linked - {} == r.peers[id].linked;
    }
    assert RouterWithout(r, {}).peers == r.peers;
    assert RouterWithout(r, {}).macs == r.macs;
  }

  lemma RouterWithoutMore(r: RM.Core, gone: set<SessionId>, id: SessionId)
    requires RM.Valid(r)
    ensures RouterWithout(RouterWithout(r, gone), {id}) == RouterWithout(r, gone + {id})
  {
    var a, b := RouterWithout(RouterWithout(r, gone), {id}), RouterWithout(r, gone + {id});
    forall other | other in b.peers ensures a.peers[other] == b.peers[other] {
      assert r.peers[other].linked - gone - {id} == r.peers[other].linked - (gone + {id});
    }
    assert a.peers == b.peers;
    assert a.macs == b.macs;
  }

  lemma RouterWithoutValid(r: RM.Core, gone: set<SessionId>)
    requires RM.Valid(r)
    ensures RM.Valid(RouterWithout(r, gone))
    ensures RouterRoster(RouterWithout(r, gone).peers) == RouterRoster(r.peers) - gone
  {}

  lemma RouterWithRoster(r: RM.Core, id: SessionId, identity: PeerIdentity)
    requires RM.Valid(r)
    requires id in r.peers ==> r.peers[id].name == identity.name && r.peers[id].allowedIps == identity.allowedIps
    ensures RM.Valid(RouterWith(r, id, identity))
    ensures RouterRoster(RouterWith(r, id, identity).peers)
            == RouterRoster(r.peers)[id := (identity.name, identity.allowedIps)]
  {
    if id !in r.peers {
      RM.RegisterKeepsValid(r, id, identity.name, identity.allowedIps);
    }
  }

  lemma LearnRoster(r: RM.Core, id: SessionId, mac: Mac)
    requires id in r.peers && RM.Learn(r, id, mac).Ok?
    ensures RouterRoster(RM.Learn(r, id, mac).value.peers) == RouterRoster(r.peers)
  {}

  lemma RouteFrameRoster(r: RM.Core, id: SessionId, frame: seq<u8>)
    requires RM.Valid(r)
    ensures RM.Valid(RM.RouteFrame(r, id, frame).0)
    ensures RouterRoster(RM.RouteFrame(r, id, frame).0.peers) == RouterRoster(r.peers)
  {
    RM.RouteFrameKeepsValid(r, id, frame);
    var r' := RM.RouteFrame(r, id, frame).0;
    if r' != r {
      LearnRoster(r, id, SourceMac(frame).value);
    }
  }

  lemma SameSessions(s: Server)
    requires Agrees(s)
    ensures s.router.peers.Keys == s.active.Keys
  {
    assert RouterRoster(s.router.peers).Keys == s.router.peers.Keys;
    assert ActiveRoster(s.active).Keys == s.active.Keys;
  }

  lemma DropNone(s: Server)
    ensures Dropped(s, {}) == s
  {
    EvictNone(s.router);
    assert s.active - {} == s.active;
  }

  // Steps that touch active sessions

  lemma DroppedAgrees(s: Server, gone: set<SessionId>)
    requires Agrees(s)
    ensures Agrees(Dropped(s, gone))
  {
    RouterWithoutValid(s.router, gone);
    assert ActiveRoster(s.active - gone) == ActiveRoster(s.active) - gone;
  }

  lemma DroppedAhead(pending: P.Entries, active: Active, gone: set<SessionId>)
    requires Ahead(pending, active)
    ensures Ahead(pending, active - gone)
  {}

  /** Updating a peer without touching its identity, its session id or its phase. */
  predicate Refreshed(p: ActivePeer, q: ActivePeer) {
    q.identity == p.identity && q.session.sessionId == p.session.sessionId && q.session.keyPhase == p.session.keyPhase
  }

  lemma RefreshedRoster(active: Active, id: SessionId, p: ActivePeer)
    requires id in active && Refreshed(active[id], p)
    ensures ActiveRoster(active[id := p]) == ActiveRoster(active)
  {}

  lemma RefreshedAhead(pending: P.Entries, active: Active, id: SessionId, p: ActivePeer)
    requires Ahead(pending, active) && id in active && Refreshed(active[id], p) && Session.Valid(p.session)
    ensures Ahead(pending, active[id := p])
  {}

  // Admission

  function Entry(identity: PeerIdentity): (string, seq<IpNet>) {
    (identity.name, identity.allowedIps)
  }

  lemma AdmittedRouter(r: RM.Core, stale: set<SessionId>, id: SessionId, identity: PeerIdentity)
    requires RM.Valid(r) && id !in stale && (id in r.peers ==> RouterRoster(r.peers)[id] == Entry(identity))
    ensures var r' := RouterWith(RouterWithout(r, stale), id, identity);
            RM.Valid(r') && RouterRoster(r'.peers) == (RouterRoster(r.peers) - stale)[id := Entry(identity)]
  {
    RouterWithoutValid(r, stale);
    var w := RouterWithout(r, stale);
    if id in w.peers {
      assert RouterRoster(w.peers)[id] == RouterRoster(r.peers)[id];
    }
    RouterWithRoster(w, id, identity);
  }

  lemma AdmittedActive(active: Active, stale: set<SessionId>, id: SessionId, p: ActivePeer)
    ensures ActiveRoster((active - stale)[id := p]) == (ActiveRoster(active) - stale)[id := Entry(p.identity)]
  {}

  /** Evicting the peer's other sessions leaves one session to a peer. */
  lemma AdmittedInjective(active: Active, id: SessionId, identity: PeerIdentity)
    requires Injective(ActiveRoster(active))
    ensures Injective((ActiveRoster(active) - Stale(active, id, identity))[id := Entry(identity)])
  {}

  lemma AdmitAgrees(s: Server, session: Session.State, identity: PeerIdentity, endpoint: SocketAddr, now: nat)
    requires Agrees(s) && (session.sessionId in s.active ==> s.active[session.sessionId].identity == identity)
    ensures Agrees(Admit(s, session, identity, endpoint, now))
  {
    var id, stale := session.sessionId, Stale(s.active, session.sessionId, identity);
    var p := Admitted(s, session, identity, endpoint, now);
    if id in s.router.peers {
      assert id in ActiveRoster(s.active);
    }
    AdmittedRouter(s.router, stale, id, identity);
    AdmittedActive(s.active, stale, id, p);
    AdmittedInjective(s.active, id, identity);
  }

  lemma AdmitAhead(pending: P.Entries, s: Server, session: Session.State, identity: PeerIdentity, endpoint: SocketAddr,
                   now: nat)
    requires Ahead(pending, s.active) && session.sessionId !in pending && Session.Valid(session)
    ensures Ahead(pending, Admit(s, session, identity, endpoint, now).active)
  {
    var id := session.sessionId;
    if id in s.active {
      assert SessionOk(id, s.active[id]);
    }
  }

  /** The established session carries the id and the phase the handshake was accepted for, and a known identity. */
  lemma EstablishedIs(c: Suite, p: PendingHandshake, payload: seq<u8>, clock: u64, now: nat)
    ensures var e := Established(c, p, payload, clock, now);
            e.Some? ==> && e.value.0 == Session.New(p.handshake.sessionId, p.handshake.keyPhase, e.value.0.keys, now)
                        && (p.source.Known? ==> e.value.1 == p.source.identity)
  {}

  // The pending side

  lemma InsertKeeps(pending: P.Entries, active: Active, limit: nat, retryLimit: u32, id: SessionId, e: PendingHandshake)
    requires PendingOk(pending, active, limit, retryLimit) && id !in pending && AheadOf(id, e, active)
    requires P.CountFor(pending, e.endpoint) < limit && 1 <= e.attempts <= retryLimit
    ensures PendingOk(pending[id := e], active, limit, retryLimit)
  {
    var more := pending[id := e];
    forall source ensures P.CountFor(more, source) <= limit {
      P.CountWith(pending, id, e, source);
      assert P.CountFor(pending, source) <= limit;
    }
  }

  lemma FewerKeeps(pending: P.Entries, fewer: P.Entries, active: Active, limit: nat, retryLimit: u32)
    requires PendingOk(pending, active, limit, retryLimit) && fewer.Keys <= pending.Keys
    requires forall id | id in fewer ::
             fewer[id] == pending[id].(attempts := fewer[id].attempts) && 1 <= fewer[id].attempts <= retryLimit
    ensures PendingOk(fewer, active, limit, retryLimit)
  {
    forall source ensures P.CountFor(fewer, source) <= limit {
      SubsetSize(P.From(fewer, source), P.From(pending, source));
      assert P.CountFor(pending, source) <= limit;
    }
  }

  lemma RespondKeeps(c: Suite, pending: P.Entries, active: Active, limit: nat, retryLimit: u32,
                     endpoint: SocketAddr, initiation: Message, source: PendingSource, auth: AuthConfig, d: Draw)
    requires Correct(c) && PendingOk(pending, active, limit, retryLimit) && retryLimit >= 1
    requires d.sessionId !in pending && d.sessionId !in active && P.CountFor(pending, endpoint) < limit
    ensures var after := Respond(c, pending, endpoint, initiation, source, auth, d);
            PendingOk(after, active, limit, retryLimit) && after.Keys <= pending.Keys + {d.sessionId}
  {
    var after := Respond(c, pending, endpoint, initiation, source, auth, d);
    if after != pending {
      InsertKeeps(pending, active, limit, retryLimit, d.sessionId, after[d.sessionId]);
    }
  }

  predicate FreshFor(pending: P.Entries, active: Active, draws: seq<Draw>) {
    && (forall i | 0 <= i < |draws| :: draws[i].sessionId !in active && draws[i].sessionId !in pending)
    && (forall i, j | 0 <= i < j < |draws| :: draws[i].sessionId != draws[j].sessionId)
  }

  lemma {:induction false} RespondAsEachKeeps(c: Suite, pending: P.Entries, active: Active, limit: nat, retryLimit: u32,
                                              endpoint: SocketAddr, initiation: Message, identities: seq<PeerIdentity>,
                                              draws: seq<Draw>)
    requires Correct(c) && PendingOk(pending, active, limit, retryLimit) && retryLimit >= 1
    requires |draws| > |identities| && FreshFor(pending, active, draws)
    ensures var after := RespondAsEach(c, pending, limit, endpoint, initiation, identities, draws);
            PendingOk(after, active, limit, retryLimit) && draws[|identities|].sessionId !in after
    decreases |identities|
  {
    if identities != [] && P.CountFor(pending, endpoint) < limit {
      var next := Respond(c, pending, endpoint, initiation, Known(identities[0]), identities[0].auth, draws[0]);
      RespondKeeps(c, pending, active, limit, retryLimit, endpoint, initiation, Known(identities[0]),
                   identities[0].auth, draws[0]);
      forall i | 0 <= i < |draws[1..]| ensures draws[1..][i].sessionId !in next {
        assert draws[1..][i] == draws[i + 1] && draws[0].sessionId != draws[i + 1].sessionId;
      }
      RespondAsEachKeeps(c, next, active, limit, retryLimit, endpoint, initiation, identities[1..], draws[1..]);
      assert draws[1..][|identities[1..]|] == draws[|identities|];
    }
  }

  lemma BeginInitialKeeps(c: Suite, s: ValidServer, endpoint: SocketAddr, initiation: Message, draws: seq<Draw>)
    requires Correct(c) && Fresh(s, draws)
    ensures PendingOk(BeginInitial(c, s, endpoint, initiation, draws), s.active, s.perSourceLimit,
                      s.config.startup.retryLimit)
  {
    var retryLimit := s.config.startup.retryLimit;
    RespondAsEachKeeps(c, s.pending, s.active, s.perSourceLimit, retryLimit, endpoint, initiation, s.identities, draws);
    var tried := RespondAsEach(c, s.pending, s.perSourceLimit, endpoint, initiation, s.identities, draws);
    if P.CountFor(tried, endpoint) < s.perSourceLimit && s.ca.Some? && s.ca.value.auth.Some? {
      RespondKeeps(c, tried, s.active, s.perSourceLimit, retryLimit, endpoint, initiation, ByCertificate(s.ca.value),
                   s.ca.value.auth.value, draws[|s.identities|]);
    }
  }

  lemma BeginRekeyKeeps(c: Suite, s: ValidServer, endpoint: SocketAddr, id: SessionId, initiation: Message, d: Draw)
    requires Correct(c) && id in s.active
    ensures PendingOk(BeginRekey(c, s.pending, s.perSourceLimit, endpoint, s.active[id], initiation, d), s.active,
                      s.perSourceLimit, s.config.startup.retryLimit)
  {
    var after := BeginRekey(c, s.pending, s.perSourceLimit, endpoint, s.active[id], initiation, d);
    assert SessionOk(id, s.active[id]);
    if after != s.pending {
      InsertKeeps(s.pending, s.active, s.perSourceLimit, s.config.startup.retryLimit, id, after[id]);
    }
  }

  lemma RetriedKeeps(s: ValidServer)
    ensures PendingOk(Retried(s.pending, s.config.startup.retryLimit), s.active, s.perSourceLimit,
                      s.config.startup.retryLimit)
  {
    FewerKeeps(s.pending, Retried(s.pending, s.config.startup.retryLimit), s.active, s.perSourceLimit,
               s.config.startup.retryLimit);
  }

  // Whole steps

  lemma FinishKeepsValid(c: Suite, s: ValidServer, endpoint: SocketAddr, packet: Packet, clock: u64, now: nat)
    ensures Valid(FinishArrived(c, s, endpoint, packet, clock, now))
  {
    if Expected(s, endpoint, packet) {
      var id := packet.header.sessionId;
      var rest := s.(pending := s.pending - {id});
      FewerKeeps(s.pending, rest.pending, s.active, s.perSourceLimit, s.config.startup.retryLimit);
      assert AheadOf(id, s.pending[id], s.active);
      EstablishedIs(c, s.pending[id], packet.payload, clock, now);
      var e := Established(c, s.pending[id], packet.payload, clock, now);
      if e.Some? {
        AdmitAgrees(rest, e.value.0, e.value.1, endpoint, now);
        AdmitAhead(rest.pending, rest, e.value.0, e.value.1, endpoint, now);
      }
    }
  }

  lemma DroppedKeepsValid(s: ValidServer, gone: set<SessionId>)
    ensures Valid(Dropped(s, gone))
  {
    DroppedAgrees(s, gone);
    DroppedAhead(s.pending, s.active, gone);
  }

  lemma RefreshedKeepsValid(s: ValidServer, id: SessionId, p: ActivePeer)
    requires id in s.active && Refreshed(s.active[id], p) && Session.Valid(p.session)
    ensures Valid(s.(active := s.active[id := p]))
  {
    RefreshedRoster(s.active, id, p);
    RefreshedAhead(s.pending, s.active, id, p);
  }

  lemma OpenRefreshes(c: Suite, s: Session.State, p: Packet, now: nat)
    requires Session.Valid(s)
    ensures var s' := Session.Open(c, s, p, now).0;
            s'.sessionId == s.sessionId && s'.keyPhase == s.keyPhase && Session.Valid(s')
  {
    Session.ActKeepsValid(c, s, Session.Arrival(p, now));
  }

  lemma InboundKeepsValid(c: Suite, s: ValidServer, endpoint: SocketAddr, packet: Packet, now: nat)
    ensures Valid(Inbound(c, s, endpoint, packet, now))
  {
    var id := packet.header.sessionId;
    if id in s.active {
      assert SessionOk(id, s.active[id]);
      OpenRefreshes(c, s.active[id].session, packet, now);
      var after := Inbound(c, s, endpoint, packet, now);
      if after == Dropped(s, {id}) {
        DroppedKeepsValid(s, {id});
      } else if after != s {
        RefreshedKeepsValid(s, id, after.active[id]);
      }
    }
  }

  lemma ReceivedKeepsValid(c: Suite, s: ValidServer, endpoint: SocketAddr, packet: Packet, draws: seq<Draw>,
                           admitted: bool, clock: u64, now: nat)
    requires Correct(c) && Fresh(s, draws)
    ensures Valid(Received(c, s, endpoint, packet, draws, admitted, clock, now))
  {
    var h, m := packet.header, DecodeMessage(packet.payload);
    if h.kind == PacketKind.Handshake && h.sequence == 0 && h.sessionId == 0 {
      if m.Ok? {
        BeginInitialKeeps(c, s, endpoint, m.value, draws);
      }
    } else if h.kind == PacketKind.Handshake || h.kind == Rekey {
      if h.sequence == 1 {
        FinishKeepsValid(c, s, endpoint, packet, clock, now);
      } else if h.sessionId in s.active && m.Ok? {
        BeginRekeyKeeps(c, s, endpoint, h.sessionId, m.value, draws[0]);
      }
    } else {
      InboundKeepsValid(c, s, endpoint, packet, now);
    }
  }

  // Reloads

  lemma RelimitedRoster(pending: P.Entries, active: Active, limits: Limits, now: nat)
    requires Ahead(pending, active)
    ensures ActiveRoster(Relimited(active, limits, now)) == ActiveRoster(active)
    ensures Ahead(pending, Relimited(active, limits, now))
  {}

  lemma RelinkedRoster(r: RM.Core, links: RM.Edges)
    requires RM.Valid(r)
    ensures RM.Valid(RM.ReplaceLinks(r, links))
    ensures RouterRoster(RM.ReplaceLinks(r, links).peers) == RouterRoster(r.peers)
  {
    RM.ReplaceLinksExact(r, links);
  }

  lemma ClearedKeepsValid(s: ValidServer)
    ensures Valid(Cleared(s, true))
  {
    DroppedKeepsValid(s, s.active.Keys);
    FewerKeeps(s.pending, map[], s.active - s.active.Keys, s.perSourceLimit, s.config.startup.retryLimit);
  }
}
