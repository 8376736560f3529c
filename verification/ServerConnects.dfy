/** A peer that the configuration knows connects to the server with one initiation and one finish. */
module ServerConnects {
  import opened Basics
  import opened Net
  import opened Codec
  import opened Crypto
  import opened HandshakeMessages
  import opened Handshake
  import opened Peers
  import opened ServerModel
  import opened ServerInvariant
  import opened ServerRuns
  import Session
  import TB = TokenBucket

  /** The initiation arrives and its cookie is accepted. */
  function Hello(i: InitiatorState, endpoint: SocketAddr, draws: seq<Draw>, at: Clocks): Event {
    PacketReceived(endpoint, Packet(Header(PacketKind.Handshake, 0, 0, 0), EncodeMessage(i.initiation)), draws, true,
                   at.wall, at.now)
  }

  function FinishFor(id: SessionId, finish: Message, endpoint: SocketAddr, draws: seq<Draw>, at: Clocks): Event {
    PacketReceived(endpoint, Packet(Header(PacketKind.Handshake, 0, 1, id), EncodeMessage(finish)), draws, false,
                   at.wall, at.now)
  }

  /** The initiator and the server's `k`th identity are set up for each other, each by its own clock. */
  predicate SetUp(c: Suite, s: Server, i: InitiatorState, k: nat, mine: Clocks, theirs: Clocks)
    requires Correct(c)
  {
    && Started(c, i) && k < |s.identities|
    && Trusts(c, i.verifier, s.identities[k].auth.identity, mine.wall)
    && Trusts(c, s.identities[k].auth.verifier, i.identity, theirs.wall)
  }

  /** The response as the initiator reads it off the wire. */
  function ResponseTo(s: Server, id: SessionId): Result<Message, ProtocolError>
    requires id in s.pending
  {
    DecodeMessage(s.pending[id].packet.payload)
  }

  lemma HelloAnswered(c: Suite, s: ValidServer, i: InitiatorState, endpoint: SocketAddr, draws: seq<Draw>, k: nat,
                      at: Clocks, mine: Clocks, theirs: Clocks)
    requires Correct(c) && SetUp(c, s, i, k, mine, theirs) && Fresh(s, draws) && FirstTrial(s, endpoint)
    requires Agree(c, draws[k].ephemeral, i.initiation.publicKey).Ok?
    ensures var answer := AnswerAs(c, s, endpoint, i.initiation, draws, k);
            var after := Step(c, s, Hello(i, endpoint, draws, at));
            && answer.Some? && after == s.(pending := after.pending)
            && draws[k].sessionId in after.pending && after.pending[draws[k].sessionId] == answer.value
            && Answers(c, i, answer.value.handshake, IdentityKey(c, s.identities[k].auth.identity), mine.wall)
  {
    var auth, d := s.identities[k].auth, draws[k];
    MessageRoundTrip(i.initiation);
    HonestAccept(c, i, auth.identity, auth.verifier, d.ephemeral, d.random, d.sessionId, 0, mine.wall);
    FirstTrialIsFull(c, s, endpoint, i.initiation, draws);
  }

  /** What connecting leaves behind: the session's two new ends, and the peer under its own identity in the router. */
  predicate Connected(s: Server, id: SessionId, identity: PeerIdentity, endpoint: SocketAddr, theirs: Clocks) {
    && id in s.active && id in s.router.peers
    && s.active[id].identity == identity && s.active[id].endpoint == endpoint
    && s.router.peers[id].name == identity.name && s.router.peers[id].allowedIps == identity.allowedIps
    && s.active[id].rxLimiter == TB.New(s.rxRate, theirs.now)
  }

  lemma FinishAdmits(c: Suite, s: Server, id: SessionId, session: Session.State, identity: PeerIdentity,
                     endpoint: SocketAddr, finish: Message, theirs: Clocks)
    requires id in s.pending && id !in s.active && s.router.peers.Keys == s.active.Keys
    requires s.pending[id].endpoint == endpoint && s.pending[id].kind == PacketKind.Handshake
    requires s.pending[id].source == Known(identity) && session.sessionId == id
    requires var r := FinishResponder(c, s.pending[id].handshake, finish, theirs.wall, theirs.now);
             r.Ok? && r.value.0 == session
    ensures var packet := Packet(Header(PacketKind.Handshake, 0, 1, id), EncodeMessage(finish));
            var after := FinishArrived(c, s, endpoint, packet, theirs.wall, theirs.now);
            && Connected(after, id, identity, endpoint, theirs) && after.active[id].session == session
            && after.config == s.config && after.rxRate == s.rxRate
  {
    MessageRoundTrip(finish);
  }

  /**
   Connecting: an honest initiator known to the server and with nothing pending sends its
   initiation, finishes the response meant for it, and is then an active, registered peer
   whose session on the server is the other end of its own.
   */
  lemma PeerConnects(c: Suite, s: ValidServer, i: InitiatorState, endpoint: SocketAddr, draws: seq<Draw>, k: nat,
                     again: seq<Draw>, at: Clocks, mine: Clocks, theirs: Clocks)
    requires Correct(c) && SetUp(c, s, i, k, mine, theirs) && Fresh(s, draws) && FirstTrial(s, endpoint)
    requires Agree(c, draws[k].ephemeral, i.initiation.publicKey).Ok?
    requires Fresh(Step(c, s, Hello(i, endpoint, draws, at)), again)
    ensures var id, asked := draws[k].sessionId, Step(c, s, Hello(i, endpoint, draws, at));
            && id in asked.pending && ResponseTo(asked, id).Ok?
            && var f := FinishForSession(c, i, ResponseTo(asked, id).value, id, 0, mine.wall, mine.now);
            && f.Ok? && f.value.2 == IdentityKey(c, s.identities[k].auth.identity)
            && var after := Step(c, asked, FinishFor(id, f.value.0, endpoint, again, theirs));
            && Connected(after, id, s.identities[k], endpoint, theirs)
            && Ends(f.value.1, after.active[id].session, id, 0, mine.now, theirs.now)
            && after.config == s.config && after.rxRate == s.rxRate
  {
    HelloAnswered(c, s, i, endpoint, draws, k, at, mine, theirs);
    var asked := Step(c, s, Hello(i, endpoint, draws, at));
    var id, r := draws[k].sessionId, AnswerAs(c, s, endpoint, i.initiation, draws, k).value.handshake;
    MessageRoundTrip(r.response);
    HonestFinish(c, i, r, IdentityKey(c, s.identities[k].auth.identity), mine, theirs);
    var f := FinishForSession(c, i, r.response, id, 0, mine.wall, mine.now).value;
    var d := FinishResponder(c, r, f.0, theirs.wall, theirs.now).value;
    AgreementSpelledOut(s);
    FinishAdmits(c, asked, id, d.0, s.identities[k], endpoint, f.0, theirs);
  }
}
