/**
 The server's handlers as they run: they update the map of active peers, the pending
 handshakes and the router in place. Loops over a hash map take its keys in arbitrary order.
 */
module Server {
  import opened Basics
  import opened Net
  import opened Codec
  import opened Crypto
  import opened HandshakeMessages
  import opened Peers
  import opened ServerModel
  import opened ServerInvariant
  import Handshake
  import P = Pending
  import RM = RouterModel
  import R = Router
  import OQ = OutboundQueue
  import Scheduler
  import TokenBucket

  function Elements(ids: seq<SessionId>): set<SessionId> {
    set id | id in ids
  }

  lemma ElementsAppend(ids: seq<SessionId>, id: SessionId)
    ensures Elements(ids + [id]) == Elements(ids) + {id}
  {}

  method UnregisterAll(router: R.Router, gone: seq<SessionId>)
    requires router.Valid()
    modifies router
    ensures router.Valid() && router.Contents() == RouterWithout(old(router.Contents()), Elements(gone))
  {
    ghost var was := router.Contents();
    EvictNone(was);
    assert Elements(gone[..0]) == {};
    for i := 0 to |gone|
      invariant router.Valid() && router.Contents() == RouterWithout(was, Elements(gone[..i]))
    {
      RouterWithoutOne(router.Contents(), gone[i]);
      RouterWithoutMore(was, Elements(gone[..i]), gone[i]);
      assert Elements(gone[..i + 1]) == Elements(gone[..i]) + {gone[i]};
      router.Unregister(gone[i]);
    }
    assert gone[..|gone|] == gone;
  }

  /** The router with sessions registered one after the other. */
  ghost function RegisteredAll(r: RM.Core, active: Active, order: seq<SessionId>): RM.Core
    requires forall id <- order :: id in active
  {
    if order == [] then r
    else
      var last := order[|order| - 1];
      RouterWith(RegisteredAll(r, active, order[..|order| - 1]), last, active[last].identity)
  }

  ghost predicate NoRepeats(order: seq<SessionId>) {
    |Elements(order)| == |order|
  }

  lemma RegisterNext(r: RM.Core, active: Active, order: seq<SessionId>, next: SessionId)
    requires (forall id <- order :: id in active) && next in active
    ensures RegisteredAll(r, active, order + [next])
         == RouterWith(RegisteredAll(r, active, order), next, active[next].identity)
  {
    assert (order + [next])[..|order|] == order;
  }

  lemma OneAtMost(order: seq<SessionId>, id: SessionId)
    requires NoRepeats(order) && Elements(order) <= {id}
    ensures order == [] || order == [id]
  {
    SubsetSize(Elements(order), {id});
    if order != [] {
      assert order[0] in Elements(order);
    }
  }

  /** The router with one session registered if it is active. */
  ghost function Registered(r: RM.Core, active: Active, id: SessionId): RM.Core {
    if id in active then RouterWith(r, id, active[id].identity) else r
  }

  lemma RegisteredOne(r: RM.Core, active: Active, order: seq<SessionId>, id: SessionId)
    requires (order == [] || order == [id]) && Elements(order) == active.Keys - r.peers.Keys
    ensures (forall other <- order :: other in active) && RegisteredAll(r, active, order) == Registered(r, active, id)
  {
    if order == [id] {
      assert id in Elements(order) && order[..0] == [];
    } else {
      assert id !in Elements(order);
    }
  }

  /** All but the sessions in `left` have been looked at, and `order` lists those that were not known, each once. */
  ghost predicate Listed(known: set<SessionId>, all: set<SessionId>, left: set<SessionId>, order: seq<SessionId>) {
    left <= all && NoRepeats(order) && Elements(order) == all - left - known
  }

  lemma ListedKnown(known: set<SessionId>, all: set<SessionId>, left: set<SessionId>, order: seq<SessionId>,
                    next: SessionId)
    requires Listed(known, all, left, order) && next in left && next in known
    ensures Listed(known, all, left - {next}, order)
  {}

  lemma ListedNew(known: set<SessionId>, all: set<SessionId>, left: set<SessionId>, order: seq<SessionId>,
                  next: SessionId)
    requires Listed(known, all, left, order) && next in left && next !in known
    ensures Listed(known, all, left - {next}, order + [next])
  {
    ElementsAppend(order, next);
    assert all - (left - {next}) - known == all - left - known + {next};
  }

  /** The router as it was, and every session of `order` with its own entry. */
  ghost predicate Reached(was: RM.Core, active: Active, order: seq<SessionId>, now: RM.Core) {
    && (forall id <- order :: id in active) && now == RegisteredAll(was, active, order)
    && now.peers.Keys == was.peers.Keys + Elements(order)
  }

  lemma ReachedNext(was: RM.Core, active: Active, order: seq<SessionId>, now: RM.Core, next: SessionId)
    requires Reached(was, active, order, now) && next in active
    ensures Reached(was, active, order + [next], RouterWith(now, next, active[next].identity))
  {
    RegisterNext(was, active, order, next);
    ElementsAppend(order, next);
    RouterWithKeys(now, next, active[next].identity);
  }

  lemma RouterWithKeys(r: RM.Core, id: SessionId, identity: PeerIdentity)
    ensures RouterWith(r, id, identity).peers.Keys == r.peers.Keys + {id}
  {}

  /** Where only one session can be missing, the order does not matter. */
  lemma OnlyOne(was: RM.Core, active: Active, order: seq<SessionId>, now: RM.Core, id: SessionId)
    requires Listed(was.peers.Keys, active.Keys, {}, order) && Reached(was, active, order, now)
    requires active.Keys <= was.peers.Keys + {id}
    ensures now == Registered(was, active, id)
  {
    assert Elements(order) == active.Keys - was.peers.Keys;
    OneAtMost(order, id);
    RegisteredOne(was, active, order, id);
  }

  /** Registers the active sessions that the router does not know, in the order in which the map yields them. */
  method RegisterNewPeers(router: R.Router, active: Active) returns (ghost order: seq<SessionId>)
    requires router.Valid()
    modifies router
    ensures router.Valid() && Listed(old(router.peers.Keys), active.Keys, {}, order)
    ensures Reached(old(router.Contents()), active, order, router.Contents())
  {
    ghost var was, known := router.Contents(), router.peers.Keys;
    order := [];
    var left := active.Keys;
    while left != {}
      invariant router.Valid() && Listed(known, active.Keys, left, order)
      invariant Reached(was, active, order, router.Contents())
      decreases |left|
    {
      var next :| next in left;
      if next in router.peers {
        ListedKnown(known, active.Keys, left, order, next);
      } else {
        ListedNew(known, active.Keys, left, order, next);
        ReachedNext(was, active, order, router.Contents(), next);
        router.Register(next, active[next].identity.name, active[next].identity.allowedIps);
        order := order + [next];
      }
      left := left - {next};
    }
  }

  /** Drops a peer's other sessions and reports them. */
  method EvictStale(active: Active, id: SessionId, identity: PeerIdentity)
    returns (kept: Active, evicted: seq<SessionId>)
    ensures kept == active - Stale(active, id, identity) && Elements(evicted) == Stale(active, id, identity)
  {
    ghost var stale := Stale(active, id, identity);
    kept, evicted := active, [];
    var left := active.Keys;
    while left != {}
      invariant left <= active.Keys
      invariant kept == active - (stale - left) && Elements(evicted) == stale - left
      decreases |left|
    {
      var other :| other in left;
      P.VisitOne(active, stale, left, other);
      if other != id && SamePeer(active[other].identity, identity) {
        ElementsAppend(evicted, other);
        kept := kept - {other};
        evicted := evicted + [other];
      }
      left := left - {other};
    }
    assert stale - left == stale;
  }

  method ListOf(ids: set<SessionId>) returns (list: seq<SessionId>)
    ensures Elements(list) == ids
  {
    list := [];
    var left := ids;
    while left != {}
      invariant left <= ids && Elements(list) == ids - left
      decreases |left|
    {
      var id :| id in left;
      ElementsAppend(list, id);
      list, left := list + [id], left - {id};
    }
  }

  method RelimitAll(active: Active, limits: Limits, now: nat) returns (all: Active)
    ensures all == Relimited(active, limits, now)
  {
    ghost var done := Relimited(active, limits, now);
    all := active;
    var left := active.Keys;
    while left != {}
      invariant left <= all.Keys == active.Keys
      invariant forall id | id in active :: all[id] == if id in left then active[id] else done[id]
      decreases |left|
    {
      var id :| id in left;
      all := all[id := all[id].(rxLimiter := TokenBucket.New(RateOf(limits.rxMibPerSec), now))];
      left := left - {id};
    }
  }

  // What finishing a handshake does to each part of the state

  ghost function Evictions(c: Suite, s: Server, endpoint: SocketAddr, packet: Packet, clock: u64, now: nat)
    : set<SessionId>
  {
    if !Expected(s, endpoint, packet) then {}
    else
      var e := Established(c, s.pending[packet.header.sessionId], packet.payload, clock, now);
      if e.None? then {} else Stale(s.active, e.value.0.sessionId, e.value.1)
  }

  lemma FinishParts(c: Suite, s: ValidServer, endpoint: SocketAddr, packet: Packet, clock: u64, now: nat)
    ensures var (after, gone, id) := (FinishArrived(c, s, endpoint, packet, clock, now),
                                      Evictions(c, s, endpoint, packet, clock, now), packet.header.sessionId);
            && after.router == Registered(RouterWithout(s.router, gone), after.active, id)
            && after.active.Keys <= RouterWithout(s.router, gone).peers.Keys + {id}
            && after == s.(active := after.active, pending := after.pending, router := after.router)
  {
    var id := packet.header.sessionId;
    SameSessions(s);
    EvictNone(s.router);
    if Expected(s, endpoint, packet) {
      assert AheadOf(id, s.pending[id], s.active);
      EstablishedIs(c, s.pending[id], packet.payload, clock, now);
    }
  }

  lemma RetriedTwoPasses(entries: P.Entries, retryLimit: u32)
    ensures var kept := P.Kept(entries, (p: PendingHandshake) => p.attempts < retryLimit);
            (forall id | id in kept :: kept[id].attempts < U32_MAX) && P.Resent(kept) == Retried(entries, retryLimit)
  {}

  /** What a reload does to the send queue: a new rate if it is taken and the limits differ. */
  ghost function OutboundReloaded(q: Scheduler.Queue, was: Config, r: Reading, outcome: Option<bool>, now: nat)
    : Scheduler.Queue
  {
    if outcome == Some(true) && r.candidate.Some? && r.candidate.value.limits != was.limits
    then Scheduler.SetRate(q, RateOf(r.candidate.value.limits.txMibPerSec), now)
    else q
  }

  /** Everything the event loop owns. */
  class ServerLoop {
    const suite: Suite
    const rxRate: u64
    const router: R.Router
    const pending: P.PendingHandshakes
    var active: Active
    var config: Config
    var identities: seq<PeerIdentity>
    var ca: Option<CertificateAuthority>
    var perSourceLimit: nat

    ghost function Model(): Server
      reads this, pending, router
    {
      Server(active, pending.entries, router.Contents(), config, identities, ca, perSourceLimit, rxRate)
    }

    /** The two collaborators are consistent in themselves. */
    ghost predicate Sound()
      reads pending, router
    {
      Correct(suite) && pending.Valid() && router.Valid()
    }

    constructor (suite: Suite, config: Config)
      requires Correct(suite)
      ensures Sound() && fresh(pending) && fresh(router) && Model() == Launch(config)
    {
      this.suite, this.config, identities, ca := suite, config, config.peers, config.ca;
      rxRate := RateOf(config.limits.rxMibPerSec);
      perSourceLimit := PerSourceLimit(config.peers, config.ca);
      active := map[];
      router := new R.Router(LinksFor(config.links));
      pending := new P.PendingHandshakes();
    }

    /** Answers an initiation once and keeps the handshake pending. */
    method RespondInitial(endpoint: SocketAddr, initiation: Message, source: PendingSource, auth: AuthConfig, d: Draw)
      requires Sound()
      modifies pending
      ensures Sound() && pending.entries == Respond(suite, old(pending.entries), endpoint, initiation, source, auth, d)
    {
      var r := Handshake.Accept(suite, auth.identity, auth.verifier, initiation, d.ephemeral, d.random, d.sessionId, 0);
      if r.Ok? {
        var packet := Packet(Header(PacketKind.Handshake, 0, 0, d.sessionId), EncodeMessage(r.value.response));
        pending.Insert(d.sessionId, PendingHandshake(source, r.value, endpoint, packet, PacketKind.Handshake, 1));
      }
    }

    method RespondAsIdentities(endpoint: SocketAddr, initiation: Message, draws: seq<Draw>)
      requires Sound() && |draws| > |identities|
      modifies pending
      ensures Sound()
      ensures pending.entries == RespondAsEach(suite, old(pending.entries), perSourceLimit, endpoint, initiation,
                                               identities, draws)
    {
      ghost var all := RespondAsEach(suite, pending.entries, perSourceLimit, endpoint, initiation, identities, draws);
      var i := 0;
      while i < |identities|
        invariant 0 <= i <= |identities| && Sound()
        invariant all == RespondAsEach(suite, pending.entries, perSourceLimit, endpoint, initiation, identities[i..],
                                       draws[i..])
      {
        var count := pending.Count(endpoint);
        if count >= perSourceLimit {
          return;
        }
        assert identities[i..][1..] == identities[i + 1..] && draws[i..][1..] == draws[i + 1..];
        RespondInitial(endpoint, initiation, Known(identities[i]), identities[i].auth, draws[i]);
        i := i + 1;
      }
    }

    method BeginInitial(endpoint: SocketAddr, initiation: Message, draws: seq<Draw>)
      requires Sound() && |draws| > |identities|
      modifies pending
      ensures Sound()
      ensures var was := old(Model());
              Model() == was.(pending := ServerModel.BeginInitial(suite, was, endpoint, initiation, draws))
    {
      var count := pending.Count(endpoint);
      if |pending.entries| >= MAX_PENDING_HANDSHAKES || count >= perSourceLimit {
        return;
      }
      RespondAsIdentities(endpoint, initiation, draws);
      count := pending.Count(endpoint);
      if count < perSourceLimit && ca.Some? {
        var auth := ca.value.auth;
        if auth.Some? {
          RespondInitial(endpoint, initiation, ByCertificate(ca.value), auth.value, draws[|identities|]);
        }
      }
    }

    method BeginRekey(endpoint: SocketAddr, current: ActivePeer, initiation: Message, d: Draw)
      requires Sound()
      modifies pending
      ensures Sound()
      ensures pending.entries == ServerModel.BeginRekey(suite, old(pending.entries), perSourceLimit, endpoint, current,
                                                        initiation, d)
    {
      if current.session.sessionId in pending.entries {
        return;
      }
      var count := pending.Count(endpoint);
      if count >= perSourceLimit || current.session.keyPhase == U32_MAX {
        return;
      }
      var e := RekeyEntry(suite, endpoint, current, initiation, d);
      if e.Some? {
        pending.Insert(current.session.sessionId, e.value);
      }
    }

    method RekeyReceived(endpoint: SocketAddr, packet: Packet, d: Draw)
      requires Sound()
      modifies pending
      ensures Sound() && pending.entries == RekeyRequested(suite, old(Model()), endpoint, packet, d)
    {
      var id := packet.header.sessionId;
      if id in active && active[id].endpoint == endpoint && active[id].session.keyPhase == packet.header.keyPhase {
        var m := DecodeMessage(packet.payload);
        if m.Ok? && m.value.Initiation? {
          BeginRekey(endpoint, active[id], m.value, d);
        }
      }
    }

    /** The handshake part of a finish packet: the pending entry is used up and, if genuine, the peer is admitted. */
    method FinishPending(endpoint: SocketAddr, packet: Packet, clock: u64, now: nat) returns (evicted: seq<SessionId>)
      requires Sound()
      modifies pending, this`active
      ensures Sound() && Elements(evicted) == Evictions(suite, old(Model()), endpoint, packet, clock, now)
      ensures pending.entries == FinishArrived(suite, old(Model()), endpoint, packet, clock, now).pending
      ensures active == FinishArrived(suite, old(Model()), endpoint, packet, clock, now).active
    {
      var id := packet.header.sessionId;
      evicted := [];
      if id !in pending.entries || pending.entries[id].endpoint != endpoint
        || pending.entries[id].kind != packet.header.kind {
        return;
      }
      var expected := pending.entries[id];
      var _ := pending.Remove(id);
      var e := Established(suite, expected, packet.payload, clock, now);
      if e.None? {
        return;
      }
      var (session, identity) := e.value;
      var older := if session.sessionId in active then Some(active[session.sessionId]) else None;
      var kept;
      kept, evicted := EvictStale(active, session.sessionId, identity);
      active := kept[session.sessionId := AdmittedOver(older, config.startup.grace, rxRate, session, identity,
                                                       endpoint, now)];
    }

    /** The router part: evicted sessions go, then the admitted one is registered. */
    method UpdateRouter(evicted: seq<SessionId>, ghost id: SessionId)
      requires Sound() && active.Keys <= RouterWithout(router.Contents(), Elements(evicted)).peers.Keys + {id}
      modifies router
      ensures Sound()
      ensures router.Contents() == Registered(RouterWithout(old(router.Contents()), Elements(evicted)), active, id)
    {
      UnregisterAll(router, evicted);
      ghost var without := router.Contents();
      ghost var order := RegisterNewPeers(router, active);
      OnlyOne(without, active, order, router.Contents(), id);
    }

    method FinishReceived(endpoint: SocketAddr, packet: Packet, clock: u64, now: nat)
      requires Sound() && ServerInvariant.Valid(Model())
      modifies this`active, pending, router
      ensures Sound() && Model() == FinishArrived(suite, old(Model()), endpoint, packet, clock, now)
    {
      FinishParts(suite, Model(), endpoint, packet, clock, now);
      var evicted := FinishPending(endpoint, packet, clock, now);
      UpdateRouter(evicted, packet.header.sessionId);
    }

    /** Removes sessions from the active map and from the router. */
    method DropAll(gone: seq<SessionId>)
      requires Sound()
      modifies this`active, router
      ensures Sound() && Model() == Dropped(old(Model()), Elements(gone))
    {
      UnregisterAll(router, gone);
      active := active - Elements(gone);
    }

    method SweepIdle(now: nat)
      requires Sound()
      modifies this`active, router
      ensures Sound() && Model() == Dropped(old(Model()), Idle(old(Model()), now))
    {
      if config.startup.idleTimeout.Some? {
        var timeout := config.startup.idleTimeout.value;
        var idle := ListOf(set id | id in active && now > active[id].lastRx + timeout);
        DropAll(idle);
      } else {
        DropNone(Model());
      }
    }

    method RetransmitPending()
      requires Sound()
      modifies pending
      ensures Sound() && Model() == old(Model()).(pending := Retried(old(Model()).pending, config.startup.retryLimit))
    {
      var retryLimit := config.startup.retryLimit;
      RetriedTwoPasses(pending.entries, retryLimit);
      pending.Retain((p: PendingHandshake) => p.attempts < retryLimit);
      pending.ResendAll();
    }

    /** After a change to who may connect: no session, no pending handshake and no registration stays. */
    method CloseAllSessions()
      requires Sound()
      modifies this`active, pending, router
      ensures Sound() && Model() == Cleared(old(Model()), true)
    {
      var everyone := ListOf(active.Keys);
      DropAll(everyone);
      pending.Clear();
    }

    /** New limits, in both directions: the send queue's rate and every peer's receive limiter. */
    method ApplyLimits(outbound: OQ.OutboundQueue, limits: Limits, now: nat)
      requires outbound.Valid()
      modifies this`active, outbound
      ensures active == Relimited(old(active), limits, now)
      ensures outbound.Valid()
      ensures outbound.State() == Scheduler.SetRate(old(outbound.State()), RateOf(limits.txMibPerSec), now)
    {
      outbound.SetRateBytesPerSec(RateOf(limits.txMibPerSec), now);
      active := RelimitAll(active, limits, now);
    }

    /**
     `None` stands for a rejected reload, which leaves everything as it was; otherwise the
     result says whether anything changed.
     */
    method ReloadConfig(outbound: OQ.OutboundQueue, r: Reading, now: nat) returns (outcome: Option<bool>)
      requires Sound() && outbound.Valid()
      modifies this`active, this`config, this`identities, this`ca, this`perSourceLimit, pending, router, outbound
      ensures Sound() && Model() == Reloaded(old(Model()), r, now)
      ensures outcome == if Rejected(old(Model()), r) then None else Some(Changes(old(Model()), r))
      ensures outcome != Some(true) ==> Model() == old(Model())
      ensures outbound.Valid()
      ensures outbound.State() == OutboundReloaded(old(outbound.State()), old(config), r, outcome, now)
    {
      if r.candidate.None? {
        return None;
      }
      var next := r.candidate.value;
      if next.startup != config.startup {
        return None;
      }
      var authChanged, linksChanged := AuthChanged(config, next, r.reordered), next.links != config.links;
      var dnsChanged, limitsChanged := next.dns != config.dns, next.limits != config.limits;
      if !authChanged && !linksChanged && !dnsChanged && !limitsChanged {
        return Some(false);
      }
      if !r.resolves || (dnsChanged && !r.dnsTaken) {
        return None;
      }
      if authChanged {
        CloseAllSessions();
      }
      if linksChanged {
        router.ReplaceLinks(LinksFor(next.links));
      }
      if limitsChanged {
        ApplyLimits(outbound, next.limits, now);
      }
      identities, ca, perSourceLimit := next.peers, next.ca, PerSourceLimit(next.peers, next.ca);
      config := next;
      return Some(true);
    }
  }
}
