/** The server over whole runs. */
module ServerRuns {
  import opened Basics
  import opened Net
  import opened Codec
  import opened Crypto
  import opened Peers
  import opened ServerModel
  import opened ServerInvariant
  import Handshake
  import HandshakeMessages
  import P = Pending
  import RM = RouterModel
  import Session

  lemma NothingPendingWithinShare(limit: nat)
    ensures WithinShare(map[], limit)
  {
    forall source ensures P.CountFor(map[], source) <= limit {
      assert P.From(map[], source) == {};
    }
  }

  /** New settings go with any state that agrees with itself, as long as what is pending fits the new limits. */
  lemma Reconfigured(s: ValidServer, active: Active, router: RM.Core, next: Config)
    requires next.startup.retryLimit == s.config.startup.retryLimit
    requires WithinShare(s.pending, PerSourceLimit(next.peers, next.ca))
    requires ActiveRoster(active) == ActiveRoster(s.active) && Ahead(s.pending, active)
    requires RM.Valid(router) && RouterRoster(router.peers) == RouterRoster(s.router.peers)
    ensures Valid(Server(active, s.pending, router, next, next.peers, next.ca, PerSourceLimit(next.peers, next.ca),
                         s.rxRate))
  {}

  /** A reload keeps the invariant, and with it the share of every source, whatever it changes. */
  lemma ReloadedKeepsValid(s: ValidServer, r: Reading, now: nat)
    ensures Valid(Reloaded(s, r, now))
  {
    if !Rejected(s, r) && Changes(s, r) {
      var next := r.candidate.value;
      var auth := AuthChanged(s.config, next, r.reordered);
      var cleared := Cleared(s, auth);
      if auth {
        ClearedKeepsValid(s);
        NothingPendingWithinShare(PerSourceLimit(next.peers, next.ca));
      }
      RelinkedRoster(cleared.router, LinksFor(next.links));
      RelimitedRoster(cleared.pending, cleared.active, next.limits, now);
      var after := Reloaded(s, r, now);
      Reconfigured(cleared, after.active, after.router, next);
    }
  }

  lemma StepKeepsValid(c: Suite, s: ValidServer, e: Event)
    requires Correct(c) && Enabled(s, e)
    ensures Valid(Step(c, s, e))
  {
    match e
    case PacketReceived(endpoint, packet, draws, admitted, clock, now) =>
      ReceivedKeepsValid(c, s, endpoint, packet, draws, admitted, clock, now);
    case PacketSent(id, kind, plain) =>
      if id in s.active {
        assert SessionOk(id, s.active[id]);
        RefreshedKeepsValid(s, id, Emitted(c, s, id, kind, plain).active[id]);
      }
    case PayloadPoliced(id, bytes, now) =>
      if id in s.active {
        assert SessionOk(id, s.active[id]);
        RefreshedKeepsValid(s, id, Policed(s, id, bytes, now).active[id]);
      }
    case FrameRouted(id, frame) => RouteFrameRoster(s.router, id, frame);
    case Swept(now) => DroppedKeepsValid(s, Idle(s, now));
    case RetryTimer => RetriedKeeps(s);
    case ReloadSignal(reading, now) => ReloadedKeepsValid(s, reading, now);
  }

  /** The state after the first `i` events. */
  function At(c: Suite, s: Server, events: seq<Event>, i: nat): Server
    requires Correct(c) && i <= |events|
  {
    if i == 0 then s
    else
      var before := At(c, s, events, i - 1);
      if Enabled(before, events[i - 1]) then Step(c, before, events[i - 1]) else before
  }

  predicate EnabledAt(c: Suite, s: Server, events: seq<Event>, i: nat)
    requires Correct(c) && i < |events|
  {
    Enabled(At(c, s, events, i), events[i])
  }

  /** A run in which every session id drawn is fresh. */
  predicate FreshRun(c: Suite, s: Server, events: seq<Event>)
    requires Correct(c)
  {
    forall i: nat | i < |events| :: EnabledAt(c, s, events, i)
  }

  lemma {:induction false} RunKeepsValid(c: Suite, s: ValidServer, events: seq<Event>, i: nat)
    requires Correct(c) && i <= |events|
    ensures Valid(At(c, s, events, i))
  {
    if i > 0 {
      RunKeepsValid(c, s, events, i - 1);
      var before := At(c, s, events, i - 1);
      if Enabled(before, events[i - 1]) {
        StepKeepsValid(c, before, events[i - 1]);
      }
    }
  }

  /**
   Server agreement: after every run from launch the router holds exactly the active
   sessions under the same names and prefixes, no two active sessions belong to one peer,
   a handshake pending for an active session is a rekey of the same identity one phase
   ahead, no source has more than its share pending, and no response was sent more often
   than the retry limit.
   */
  lemma ServerAgreement(c: Suite, config: Config, events: seq<Event>)
    requires Correct(c) && config.startup.retryLimit >= 1 && FreshRun(c, Launch(config), events)
    ensures var s := At(c, Launch(config), events, |events|);
            && s.router.peers.Keys == s.active.Keys
            && (forall id | id in s.active ::
                  s.router.peers[id].name == s.active[id].identity.name
                    && s.router.peers[id].allowedIps == s.active[id].identity.allowedIps)
            && (forall a, b | a in s.active && b in s.active && a != b ::
                !SamePeer(s.active[a].identity, s.active[b].identity))
            && (forall id | id in s.pending && id in s.active ::
                  && s.pending[id].kind == Rekey && s.pending[id].source == Known(s.active[id].identity)
                  && s.pending[id].handshake.keyPhase == s.active[id].session.keyPhase + 1)
            && (forall source :: P.CountFor(s.pending, source) <= PerSourceLimit(s.config.peers, s.config.ca))
            && (forall id | id in s.pending :: s.pending[id].attempts <= s.config.startup.retryLimit)
  {
    LaunchValid(config);
    RunKeepsValid(c, Launch(config), events, |events|);
    AgreementSpelledOut(At(c, Launch(config), events, |events|));
  }

  lemma AgreementSpelledOut(s: ValidServer)
    ensures s.router.peers.Keys == s.active.Keys
    ensures forall id | id in s.active ::
        s.router.peers[id].name == s.active[id].identity.name
          && s.router.peers[id].allowedIps == s.active[id].identity.allowedIps
    ensures forall a, b | a in s.active && b in s.active && a != b ::
            !SamePeer(s.active[a].identity, s.active[b].identity)
  {
    var inRouter, inActive := RouterRoster(s.router.peers), ActiveRoster(s.active);
    assert inRouter.Keys == s.router.peers.Keys && inActive.Keys == s.active.Keys;
    forall id | id in s.active
      ensures s.router.peers[id].name == s.active[id].identity.name
      ensures s.router.peers[id].allowedIps == s.active[id].identity.allowedIps
    {
      assert inRouter[id] == inActive[id];
    }
    forall a, b | a in s.active && b in s.active && a != b
      ensures !SamePeer(s.active[a].identity, s.active[b].identity)
    {
      assert inActive[a] != inActive[b];
    }
  }

  // Rekeys

  /**
   A rekey is the next link of the session's chain: one phase on, with the old phase kept
   for the grace period, and the receive limiter carried over instead of refilled.
   */
  lemma RekeyIsSuccessor(c: Suite, s: ValidServer, endpoint: SocketAddr, packet: Packet, clock: u64, now: nat)
    requires packet.header.sessionId in s.active && Expected(s, endpoint, packet)
    requires Established(c, s.pending[packet.header.sessionId], packet.payload, clock, now).Some?
    ensures var id := packet.header.sessionId;
            var (older, after) := (s.active[id], FinishArrived(c, s, endpoint, packet, clock, now));
            && after.router == s.router && after.active.Keys == s.active.Keys
            && Succeeds(after.active[id], older, s.config.startup.grace, now)
  {
    var id := packet.header.sessionId;
    assert AheadOf(id, s.pending[id], s.active) && SessionOk(id, s.active[id]);
    EstablishedIs(c, s.pending[id], packet.payload, clock, now);
    var e := Established(c, s.pending[id], packet.payload, clock, now).value;
    AdmitRekey(s.(pending := s.pending - {id}), e.0, endpoint, now);
  }

  predicate Succeeds(newer: ActivePeer, older: ActivePeer, grace: nat, now: nat) {
    && newer.identity == older.identity && newer.rxLimiter == older.rxLimiter
    && newer.session.keyPhase == older.session.keyPhase + 1
    && newer.session == Session.Successor(older.session, newer.session.keyPhase, newer.session.keys, grace, now)
  }

  lemma AdmitRekey(s: Server, session: Session.State, endpoint: SocketAddr, now: nat)
    requires Agrees(s) && session.sessionId in s.active
    requires var older := s.active[session.sessionId];
             && older.session.sessionId == session.sessionId && session.keyPhase == older.session.keyPhase + 1
             && session == Session.New(session.sessionId, session.keyPhase, session.keys, now)
    ensures var id := session.sessionId;
            var after := Admit(s, session, s.active[id].identity, endpoint, now);
            && after.router == s.router && after.active.Keys == s.active.Keys
            && Succeeds(after.active[id], s.active[id], s.config.startup.grace, now)
  {
    NoneStale(s.active, session.sessionId);
    EvictNone(s.router);
    assert session.sessionId in ActiveRoster(s.active) && session.sessionId in RouterRoster(s.router.peers);
    assert s.active - {} == s.active;
  }

  lemma NoneStale(active: Active, id: SessionId)
    requires Injective(ActiveRoster(active)) && id in active
    ensures Stale(active, id, active[id].identity) == {}
  {
    forall other | other in active && other != id ensures !SamePeer(active[other].identity, active[id].identity) {
      assert ActiveRoster(active)[other] != ActiveRoster(active)[id];
    }
  }

  // Retransmission

  function RetriedTimes(pending: P.Entries, retryLimit: u32, times: nat): P.Entries {
    if times == 0 then pending else Retried(RetriedTimes(pending, retryLimit, times - 1), retryLimit)
  }

  /** A response already sent `attempts` times survives exactly the timers that bring it to the retry limit. */
  lemma {:induction false} RetriesEnd(pending: P.Entries, retryLimit: u32, times: nat, id: SessionId)
    requires id in pending && Attempted(pending, retryLimit)
    ensures var after := RetriedTimes(pending, retryLimit, times);
            && (id in after <==> pending[id].attempts + times <= retryLimit)
            && (id in after ==> after[id].attempts == pending[id].attempts + times)
            && after.Keys <= pending.Keys
  {
    if times > 0 {
      RetriesEnd(pending, retryLimit, times - 1, id);
    }
  }

  // Answering in full

  /** The response, if there is one, is kept pending under its session id. */
  predicate Kept(pending: P.Entries, answer: Option<PendingHandshake>, d: Draw) {
    answer.Some? ==> d.sessionId in pending && pending[d.sessionId] == answer.value
  }

  predicate Unused(pending: P.Entries, draws: seq<Draw>) {
    && (forall i | 0 <= i < |draws| :: draws[i].sessionId !in pending)
    && (forall i, j | 0 <= i < j < |draws| :: draws[i].sessionId != draws[j].sessionId)
  }

  lemma RespondCounts(c: Suite, pending: P.Entries, endpoint: SocketAddr, initiation: HandshakeMessages.Message,
                      source: PendingSource, auth: AuthConfig, d: Draw)
    requires Correct(c) && d.sessionId !in pending
    ensures var after := Respond(c, pending, endpoint, initiation, source, auth, d);
            && P.CountFor(after, endpoint) <= P.CountFor(pending, endpoint) + 1
            && Kept(after, Answer(c, endpoint, initiation, source, auth, d), d)
            && after.Keys <= pending.Keys + {d.sessionId}
  {
    var after := Respond(c, pending, endpoint, initiation, source, auth, d);
    if after != pending {
      P.CountWith(pending, d.sessionId, after[d.sessionId], endpoint);
    }
  }

  lemma FirstResponse(c: Suite, pending: P.Entries, endpoint: SocketAddr, initiation: HandshakeMessages.Message,
                      identity: PeerIdentity, draws: seq<Draw>)
    requires Correct(c) && draws != [] && Unused(pending, draws)
    ensures Unused(Respond(c, pending, endpoint, initiation, Known(identity), identity.auth, draws[0]), draws[1..])
    ensures forall i | 0 <= i < |draws[1..]| :: draws[1..][i].sessionId != draws[0].sessionId
  {
    var next := Respond(c, pending, endpoint, initiation, Known(identity), identity.auth, draws[0]);
    RespondCounts(c, pending, endpoint, initiation, Known(identity), identity.auth, draws[0]);
    forall i | 0 <= i < |draws[1..]| ensures draws[1..][i].sessionId !in next {
      assert draws[1..][i] == draws[i + 1];
    }
  }

  lemma {:induction false} RespondKeepsOthers(c: Suite, pending: P.Entries, limit: nat, endpoint: SocketAddr,
                                              initiation: HandshakeMessages.Message, identities: seq<PeerIdentity>,
                                              draws: seq<Draw>, id: SessionId)
    requires Correct(c) && |draws| >= |identities|
    requires id in pending && forall i | 0 <= i < |draws| :: draws[i].sessionId != id
    ensures id in RespondAsEach(c, pending, limit, endpoint, initiation, identities, draws)
    ensures RespondAsEach(c, pending, limit, endpoint, initiation, identities, draws)[id] == pending[id]
    decreases |identities|
  {
    if identities != [] && P.CountFor(pending, endpoint) < limit {
      var next := Respond(c, pending, endpoint, initiation, Known(identities[0]), identities[0].auth, draws[0]);
      RespondKeepsOthers(c, next, limit, endpoint, initiation, identities[1..], draws[1..], id);
    }
  }

  lemma RespondedFirst(c: Suite, pending: P.Entries, limit: nat, endpoint: SocketAddr,
                       initiation: HandshakeMessages.Message, identities: seq<PeerIdentity>, draws: seq<Draw>)
    requires Correct(c) && |draws| >= |identities| && Unused(pending, draws)
    requires P.CountFor(pending, endpoint) < limit
    requires identities != []
    ensures var after := RespondAsEach(c, pending, limit, endpoint, initiation, identities, draws);
            Kept(after, Answer(c, endpoint, initiation, Known(identities[0]), identities[0].auth, draws[0]), draws[0])
  {
    var next := Respond(c, pending, endpoint, initiation, Known(identities[0]), identities[0].auth, draws[0]);
    RespondCounts(c, pending, endpoint, initiation, Known(identities[0]), identities[0].auth, draws[0]);
    FirstResponse(c, pending, endpoint, initiation, identities[0], draws);
    if draws[0].sessionId in next {
      RespondKeepsOthers(c, next, limit, endpoint, initiation, identities[1..], draws[1..], draws[0].sessionId);
    }
  }

  /** While the share lasts, every identity whose response can be computed is answered. */
  lemma {:induction false} RespondedAsEach(c: Suite, pending: P.Entries, limit: nat, endpoint: SocketAddr,
                                           initiation: HandshakeMessages.Message, identities: seq<PeerIdentity>,
                                           draws: seq<Draw>, k: nat)
    requires Correct(c) && |draws| >= |identities| && Unused(pending, draws)
    requires P.CountFor(pending, endpoint) + |identities| <= limit
    requires k < |identities|
    ensures var after := RespondAsEach(c, pending, limit, endpoint, initiation, identities, draws);
            Kept(after, Answer(c, endpoint, initiation, Known(identities[k]), identities[k].auth, draws[k]), draws[k])
    decreases |identities|
  {
    if k == 0 {
      RespondedFirst(c, pending, limit, endpoint, initiation, identities, draws);
    } else {
      var next := Respond(c, pending, endpoint, initiation, Known(identities[0]), identities[0].auth, draws[0]);
      RespondCounts(c, pending, endpoint, initiation, Known(identities[0]), identities[0].auth, draws[0]);
      FirstResponse(c, pending, endpoint, initiation, identities[0], draws);
      RespondedAsEach(c, next, limit, endpoint, initiation, identities[1..], draws[1..], k - 1);
    }
  }

  /** The identities take no more than one place each, and leave the draws after theirs alone. */
  lemma {:induction false} RespondedWithin(c: Suite, pending: P.Entries, limit: nat, endpoint: SocketAddr,
                                           initiation: HandshakeMessages.Message, identities: seq<PeerIdentity>,
                                           draws: seq<Draw>)
    requires Correct(c) && |draws| >= |identities| && Unused(pending, draws)
    ensures var after := RespondAsEach(c, pending, limit, endpoint, initiation, identities, draws);
            && P.CountFor(after, endpoint) <= P.CountFor(pending, endpoint) + |identities|
            && Unused(after, draws[|identities|..])
    decreases |identities|
  {
    if identities == [] {
      assert draws[0..] == draws;
    } else if P.CountFor(pending, endpoint) < limit {
      var next := Respond(c, pending, endpoint, initiation, Known(identities[0]), identities[0].auth, draws[0]);
      RespondCounts(c, pending, endpoint, initiation, Known(identities[0]), identities[0].auth, draws[0]);
      FirstResponse(c, pending, endpoint, initiation, identities[0], draws);
      RespondedWithin(c, next, limit, endpoint, initiation, identities[1..], draws[1..]);
      assert draws[1..][|identities| - 1..] == draws[|identities|..];
    }
  }

  function AnswerAs(c: Suite, s: Server, endpoint: SocketAddr, initiation: HandshakeMessages.Message, draws: seq<Draw>,
                    k: nat): Option<PendingHandshake>
    requires Correct(c) && k < |s.identities| < |draws|
  {
    Answer(c, endpoint, initiation, Known(s.identities[k]), s.identities[k].auth, draws[k])
  }

  /** A source with nothing pending has room for every identity and the certificate authority. */
  predicate FirstTrial(s: Server, endpoint: SocketAddr) {
    && |s.identities| < USIZE_MAX && |s.pending| < MAX_PENDING_HANDSHAKES && P.CountFor(s.pending, endpoint) == 0
  }

  /**
   The per-source limit never cuts a first trial short: an initiation from a source with
   nothing pending, below the global limit, is answered as every configured identity
   whose response can be computed, and for the certificate authority besides.
   */
  lemma FirstTrialIsFull(c: Suite, s: ValidServer, endpoint: SocketAddr, initiation: HandshakeMessages.Message,
                         draws: seq<Draw>)
    requires Correct(c) && Fresh(s, draws) && FirstTrial(s, endpoint)
    ensures var after := BeginInitial(c, s, endpoint, initiation, draws);
            && (forall k | 0 <= k < |s.identities| ::
                  Kept(after, AnswerAs(c, s, endpoint, initiation, draws, k), draws[k]))
            && (s.ca.Some? && s.ca.value.auth.Some? ==>
                  Kept(after, Answer(c, endpoint, initiation, ByCertificate(s.ca.value), s.ca.value.auth.value,
                                     draws[|s.identities|]), draws[|s.identities|]))
  {
    var n := |s.identities|;
    var tried := RespondAsEach(c, s.pending, s.perSourceLimit, endpoint, initiation, s.identities, draws);
    RespondedWithin(c, s.pending, s.perSourceLimit, endpoint, initiation, s.identities, draws);
    assert draws[n] == draws[n..][0];
    if s.ca.Some? && s.ca.value.auth.Some? {
      RespondCounts(c, tried, endpoint, initiation, ByCertificate(s.ca.value), s.ca.value.auth.value, draws[n]);
    }
    forall k | 0 <= k < n
      ensures Kept(BeginInitial(c, s, endpoint, initiation, draws), AnswerAs(c, s, endpoint, initiation, draws, k),
                   draws[k])
    {
      RespondedAsEach(c, s.pending, s.perSourceLimit, endpoint, initiation, s.identities, draws, k);
    }
  }
}
