/**
 No protected packet is accepted twice by the server and no nonce is sealed under twice,
 through rekeys, closes, resumptions and reloads.
 */
module ServerReplay {
  import opened Basics
  import opened Net
  import opened Codec
  import opened Crypto
  import opened HandshakeMessages
  import opened Peers
  import opened ServerModel
  import opened ServerInvariant
  import opened ServerRuns
  import P = Pending
  import Session

  /** A protected packet accepted or sealed: its session, key phase and sequence number. */
  datatype Use =
    | Accepted(id: SessionId, keyPhase: u32, sequence: u64)
    | Sealed(id: SessionId, keyPhase: u32, sequence: u64)

  /** What the session itself remembers of the use. */
  function Memory(o: Use): Session.Outcome {
    if o.Accepted? then Session.Opened(o.keyPhase, o.sequence) else Session.Sent(o.keyPhase, o.sequence)
  }

  predicate IsProtected(kind: PacketKind) {
    kind != PacketKind.Handshake && kind != Rekey
  }

  /** The packet a step opens, if any. */
  function OpenedBy(c: Suite, s: Server, e: Event): Option<Use> {
    if !e.PacketReceived? || !IsProtected(e.packet.header.kind) || e.packet.header.sessionId !in s.active then None
    else
      var h := e.packet.header;
      if Session.Open(c, s.active[h.sessionId].session, e.packet, e.now).1.Err? then None
      else Some(Accepted(h.sessionId, h.keyPhase, h.sequence))
  }

  /** The packet a step seals, if any. */
  function SealedBy(c: Suite, s: Server, e: Event): Option<Use> {
    if !e.PacketSent? || e.id !in s.active then None
    else
      var r := Session.Seal(c, s.active[e.id].session, e.kind, e.plain).1;
      if r.Err? then None else Some(Sealed(e.id, r.value.header.keyPhase, r.value.header.sequence))
  }

  /** What a step opens or seals; no step does both. */
  function UseOf(c: Suite, s: Server, e: Event): Option<Use> {
    if e.PacketSent? then SealedBy(c, s, e) else OpenedBy(c, s, e)
  }

  function Ids(e: Event): set<SessionId> {
    if e.PacketReceived? then set i | 0 <= i < |e.draws| :: e.draws[i].sessionId else {}
  }

  predicate AllUsed(s: Server, used: set<SessionId>) {
    s.active.Keys <= used && s.pending.Keys <= used
  }

  /** Session ids are never drawn again, even after their sessions are gone. */
  predicate NewIds(s: Server, used: set<SessionId>, e: Event) {
    Enabled(s, e) && Ids(e) !! used
  }

  /** The state refuses the use for good: its id is spent, and its phase is over or its number recorded. */
  predicate Refuses(s: Server, used: set<SessionId>, o: Use) {
    && o.id in used
    && (o.id in s.active ==> Session.Remembers(s.active[o.id].session, Memory(o)))
    && (o.id in s.pending ==> o.keyPhase < s.pending[o.id].handshake.keyPhase)
  }

  // What a step can add to the pending handshakes

  lemma {:induction false} RespondAsEachAdds(c: Suite, pending: P.Entries, limit: nat, endpoint: SocketAddr,
                                             initiation: Message,
                                             identities: seq<PeerIdentity>, draws: seq<Draw>, id: SessionId)
    requires Correct(c) && |draws| > |identities| && forall i | 0 <= i < |draws| :: draws[i].sessionId != id
    ensures var after := RespondAsEach(c, pending, limit, endpoint, initiation, identities, draws);
            id in after <==> id in pending
    ensures id in pending
            ==> RespondAsEach(c, pending, limit, endpoint, initiation, identities, draws)[id] == pending[id]
    decreases |identities|
  {
    if identities != [] && P.CountFor(pending, endpoint) < limit {
      var next := Respond(c, pending, endpoint, initiation, Known(identities[0]), identities[0].auth, draws[0]);
      RespondAsEachAdds(c, next, limit, endpoint, initiation, identities[1..], draws[1..], id);
    }
  }

  lemma BeginInitialAdds(c: Suite, s: Server, endpoint: SocketAddr, initiation: Message, draws: seq<Draw>,
                         id: SessionId)
    requires Correct(c) && |draws| > |s.identities| && forall i | 0 <= i < |draws| :: draws[i].sessionId != id
    ensures var after := BeginInitial(c, s, endpoint, initiation, draws);
            (id in after <==> id in s.pending) && (id in s.pending ==> after[id] == s.pending[id])
  {
    RespondAsEachAdds(c, s.pending, s.perSourceLimit, endpoint, initiation, s.identities, draws, id);
  }

  // Every step keeps refusing

  lemma InitialRefuses(c: Suite, s: Server, used: set<SessionId>, e: Event, initiation: Message, o: Use)
    requires Correct(c) && e.PacketReceived? && NewIds(s, used, e) && Refuses(s, used, o)
    ensures Refuses(s.(pending := BeginInitial(c, s, e.endpoint, initiation, e.draws)), used, o)
  {
    forall i | 0 <= i < |e.draws| ensures e.draws[i].sessionId != o.id {
      assert e.draws[i].sessionId in Ids(e);
    }
    BeginInitialAdds(c, s, e.endpoint, initiation, e.draws, o.id);
  }

  lemma RekeyRefuses(c: Suite, s: ValidServer, used: set<SessionId>, endpoint: SocketAddr, packet: Packet, d: Draw,
                     o: Use)
    requires Correct(c) && Refuses(s, used, o)
    ensures Refuses(s.(pending := RekeyRequested(c, s, endpoint, packet, d)), used, o)
  {
    var id := packet.header.sessionId;
    if id in s.active {
      assert SessionOk(id, s.active[id]);
    }
  }

  lemma DroppedRefuses(s: Server, used: set<SessionId>, gone: set<SessionId>, o: Use)
    requires Refuses(s, used, o)
    ensures Refuses(Dropped(s, gone), used, o)
  {}

  lemma AdmitRefuses(c: Suite, s: Server, used: set<SessionId>, session: Session.State, identity: PeerIdentity,
                     endpoint: SocketAddr, now: nat, o: Use)
    requires Refuses(s, used, o) && session == Session.New(session.sessionId, session.keyPhase, session.keys, now)
    requires session.sessionId == o.id ==> o.keyPhase < session.keyPhase
    requires session.sessionId in s.active
             ==> && SessionOk(session.sessionId, s.active[session.sessionId])
                 && s.active[session.sessionId].session.keyPhase < session.keyPhase
    ensures Refuses(Admit(s, session, identity, endpoint, now), used, o)
  {
    var id := session.sessionId;
    if id == o.id && id in s.active {
      var rekeyed := Session.Rekeyed(session.keyPhase, session.keys, s.config.startup.grace, now);
      Session.ActKeepsMemory(c, s.active[id].session, rekeyed, Memory(o));
    }
  }

  lemma FinishRefuses(c: Suite, s: ValidServer, used: set<SessionId>, endpoint: SocketAddr, packet: Packet, clock: u64,
                      now: nat, o: Use)
    requires Refuses(s, used, o)
    ensures Refuses(FinishArrived(c, s, endpoint, packet, clock, now), used, o)
  {
    if Expected(s, endpoint, packet) {
      var id := packet.header.sessionId;
      var rest := s.(pending := s.pending - {id});
      assert AheadOf(id, s.pending[id], s.active);
      EstablishedIs(c, s.pending[id], packet.payload, clock, now);
      var e := Established(c, s.pending[id], packet.payload, clock, now);
      if e.Some? {
        if id in s.active {
          assert SessionOk(id, s.active[id]);
        }
        AdmitRefuses(c, rest, used, e.value.0, e.value.1, endpoint, now, o);
      }
    }
  }

  lemma RefreshedRefuses(s: Server, used: set<SessionId>, id: SessionId, p: ActivePeer, o: Use)
    requires Refuses(s, used, o) && (id == o.id ==> Session.Remembers(p.session, Memory(o)))
    ensures Refuses(s.(active := s.active[id := p]), used, o)
  {}

  lemma InboundRefuses(c: Suite, s: ValidServer, used: set<SessionId>, endpoint: SocketAddr, packet: Packet, now: nat,
                       o: Use)
    requires Refuses(s, used, o)
    ensures Refuses(Inbound(c, s, endpoint, packet, now), used, o)
  {
    var id := packet.header.sessionId;
    if id in s.active {
      assert SessionOk(id, s.active[id]);
      if id == o.id {
        Session.ActKeepsMemory(c, s.active[id].session, Session.Arrival(packet, now), Memory(o));
      }
      if Session.Open(c, s.active[id].session, packet, now).1.Ok? {
        if packet.header.kind == Close {
          DroppedRefuses(s, used, {id}, o);
        } else {
          RefreshedRefuses(s, used, id, Inbound(c, s, endpoint, packet, now).active[id], o);
        }
      }
    }
  }

  lemma ReceivedRefuses(c: Suite, s: ValidServer, used: set<SessionId>, e: Event, o: Use)
    requires Correct(c) && e.PacketReceived? && NewIds(s, used, e) && Refuses(s, used, o)
    ensures Refuses(Received(c, s, e.endpoint, e.packet, e.draws, e.admitted, e.clock, e.now), used, o)
  {
    var h, m := e.packet.header, DecodeMessage(e.packet.payload);
    if h.kind == PacketKind.Handshake && h.sequence == 0 && h.sessionId == 0 {
      if m.Ok? {
        InitialRefuses(c, s, used, e, m.value, o);
      }
    } else if h.kind == PacketKind.Handshake || h.kind == Rekey {
      if h.sequence == 1 {
        FinishRefuses(c, s, used, e.endpoint, e.packet, e.clock, e.now, o);
      } else {
        RekeyRefuses(c, s, used, e.endpoint, e.packet, e.draws[0], o);
      }
    } else {
      InboundRefuses(c, s, used, e.endpoint, e.packet, e.now, o);
    }
  }

  lemma ReloadedRefuses(s: Server, used: set<SessionId>, r: Reading, now: nat, o: Use)
    requires Refuses(s, used, o)
    ensures Refuses(Reloaded(s, r, now), used, o)
  {
    DroppedRefuses(s, used, s.active.Keys, o);
  }

  lemma EmittedRefuses(c: Suite, s: ValidServer, used: set<SessionId>, id: SessionId, kind: PacketKind, plain: seq<u8>,
                       o: Use)
    requires Refuses(s, used, o)
    ensures Refuses(Emitted(c, s, id, kind, plain), used, o)
  {
    if id in s.active && id == o.id {
      assert SessionOk(id, s.active[id]);
      Session.ActKeepsMemory(c, s.active[id].session, Session.Send(kind, plain), Memory(o));
    }
  }

  lemma StepRefuses(c: Suite, s: ValidServer, used: set<SessionId>, e: Event, o: Use)
    requires Correct(c) && NewIds(s, used, e) && Refuses(s, used, o)
    ensures Refuses(Step(c, s, e), used + Ids(e), o)
  {
    match e
    case PacketReceived(_, _, _, _, _, _) => ReceivedRefuses(c, s, used, e, o);
    case PacketSent(id, kind, plain) => EmittedRefuses(c, s, used, id, kind, plain, o);
    case PayloadPoliced(_, _, _) =>
    case FrameRouted(_, _) =>
    case Swept(now) => DroppedRefuses(s, used, Idle(s, now), o);
    case RetryTimer =>
    case ReloadSignal(reading, now) => ReloadedRefuses(s, used, reading, now, o);
  }

  // Ids stay spent

  predicate Absent(s: Server, id: SessionId) {
    id !in s.active && id !in s.pending
  }

  lemma FinishLeavesAbsent(c: Suite, s: ValidServer, endpoint: SocketAddr, packet: Packet, clock: u64, now: nat,
                           id: SessionId)
    requires Absent(s, id)
    ensures Absent(FinishArrived(c, s, endpoint, packet, clock, now), id)
  {
    if Expected(s, endpoint, packet) {
      var own := packet.header.sessionId;
      assert AheadOf(own, s.pending[own], s.active);
      EstablishedIs(c, s.pending[own], packet.payload, clock, now);
    }
  }

  lemma RekeyLeavesAbsent(c: Suite, s: ValidServer, endpoint: SocketAddr, packet: Packet, d: Draw, id: SessionId)
    requires Correct(c) && Absent(s, id)
    ensures id !in RekeyRequested(c, s, endpoint, packet, d)
  {
    var own := packet.header.sessionId;
    if own in s.active {
      assert SessionOk(own, s.active[own]);
    }
  }

  lemma InboundLeavesAbsent(c: Suite, s: Server, endpoint: SocketAddr, packet: Packet, now: nat, id: SessionId)
    requires Absent(s, id)
    ensures Absent(Inbound(c, s, endpoint, packet, now), id)
  {}

  lemma ReceivedLeavesAbsent(c: Suite, s: ValidServer, e: Event, id: SessionId)
    requires Correct(c) && e.PacketReceived? && Enabled(s, e) && Absent(s, id) && id !in Ids(e)
    ensures Absent(Received(c, s, e.endpoint, e.packet, e.draws, e.admitted, e.clock, e.now), id)
  {
    var h, m := e.packet.header, DecodeMessage(e.packet.payload);
    if h.kind == PacketKind.Handshake && h.sequence == 0 && h.sessionId == 0 {
      if m.Ok? {
        forall i | 0 <= i < |e.draws| ensures e.draws[i].sessionId != id {
          assert e.draws[i].sessionId in Ids(e);
        }
        BeginInitialAdds(c, s, e.endpoint, m.value, e.draws, id);
      }
    } else if h.kind == PacketKind.Handshake || h.kind == Rekey {
      if h.sequence == 1 {
        FinishLeavesAbsent(c, s, e.endpoint, e.packet, e.clock, e.now, id);
      } else {
        RekeyLeavesAbsent(c, s, e.endpoint, e.packet, e.draws[0], id);
      }
    } else {
      InboundLeavesAbsent(c, s, e.endpoint, e.packet, e.now, id);
    }
  }

  /** Only ids drawn in the step itself can appear. */
  lemma StepLeavesAbsent(c: Suite, s: ValidServer, e: Event, id: SessionId)
    requires Correct(c) && Enabled(s, e) && Absent(s, id) && id !in Ids(e)
    ensures Absent(Step(c, s, e), id)
  {
    if e.PacketReceived? {
      ReceivedLeavesAbsent(c, s, e, id);
    }
  }

  lemma StepUses(c: Suite, s: ValidServer, used: set<SessionId>, e: Event)
    requires Correct(c) && Enabled(s, e) && AllUsed(s, used)
    ensures AllUsed(Step(c, s, e), used + Ids(e))
  {
    forall id | id !in used + Ids(e) ensures Absent(Step(c, s, e), id) {
      StepLeavesAbsent(c, s, e, id);
    }
  }

  // Accepting and refusing

  /** A session that remembers the use, closed or kept, refuses it. */
  lemma RememberedIsRefused(s: ValidServer, used: set<SessionId>, p: ActivePeer, o: Use)
    requires AllUsed(s, used) && o.id in s.active && p.session.keyPhase == s.active[o.id].session.keyPhase
    requires Session.Remembers(p.session, Memory(o))
    ensures Refuses(s.(active := s.active[o.id := p]), used, o) && Refuses(Dropped(s, {o.id}), used, o)
  {
    if o.id in s.pending {
      assert AheadOf(o.id, s.pending[o.id], s.active);
    }
  }

  lemma InboundOpenedIsRefused(c: Suite, s: ValidServer, used: set<SessionId>, endpoint: SocketAddr, packet: Packet,
                               now: nat)
    requires AllUsed(s, used) && packet.header.sessionId in s.active
    requires Session.Open(c, s.active[packet.header.sessionId].session, packet, now).1.Ok?
    ensures var h := packet.header;
            Refuses(Inbound(c, s, endpoint, packet, now), used, Accepted(h.sessionId, h.keyPhase, h.sequence))
  {
    var h := packet.header;
    var session := Session.Open(c, s.active[h.sessionId].session, packet, now).0;
    assert SessionOk(h.sessionId, s.active[h.sessionId]);
    Session.ActIsNew(c, s.active[h.sessionId].session, Session.Arrival(packet, now));
    var after := Inbound(c, s, endpoint, packet, now);
    var p := if h.kind == Close then s.active[h.sessionId].(session := session) else after.active[h.sessionId];
    RememberedIsRefused(s, used, p, Accepted(h.sessionId, h.keyPhase, h.sequence));
  }

  lemma EmittedIsRefused(c: Suite, s: ValidServer, used: set<SessionId>, id: SessionId, kind: PacketKind,
                         plain: seq<u8>)
    requires AllUsed(s, used) && id in s.active && Session.Seal(c, s.active[id].session, kind, plain).1.Ok?
    ensures var session := s.active[id].session;
            Refuses(Emitted(c, s, id, kind, plain), used, Sealed(id, session.keyPhase, session.nextSend))
  {
    var session := s.active[id].session;
    assert SessionOk(id, s.active[id]);
    Session.ActIsNew(c, session, Session.Send(kind, plain));
    var p := Emitted(c, s, id, kind, plain).active[id];
    RememberedIsRefused(s, used, p, Sealed(id, session.keyPhase, session.nextSend));
  }

  /** What a step opens or seals is refused from then on. */
  lemma UseIsRefused(c: Suite, s: ValidServer, used: set<SessionId>, e: Event)
    requires Correct(c) && AllUsed(s, used) && Enabled(s, e) && UseOf(c, s, e).Some?
    ensures Refuses(Step(c, s, e), used + Ids(e), UseOf(c, s, e).value)
  {
    if e.PacketSent? {
      EmittedIsRefused(c, s, used, e.id, e.kind, e.plain);
    } else {
      InboundOpenedIsRefused(c, s, used, e.endpoint, e.packet, e.now);
    }
  }

  lemma RefusedIsNotUsed(c: Suite, s: ValidServer, used: set<SessionId>, e: Event, o: Use)
    requires Refuses(s, used, o)
    ensures UseOf(c, s, e) != Some(o)
  {
    if UseOf(c, s, e) == Some(o) {
      assert SessionOk(o.id, s.active[o.id]);
      var a := if e.PacketSent? then Session.Send(e.kind, e.plain) else Session.Arrival(e.packet, e.now);
      Session.ActIsNew(c, s.active[o.id].session, a);
      assert false;
    }
  }

  // Whole runs

  function UsedAt(events: seq<Event>, i: nat): set<SessionId>
    requires i <= |events|
  {
    if i == 0 then {} else UsedAt(events, i - 1) + Ids(events[i - 1])
  }

  predicate NewAt(events: seq<Event>, i: nat)
    requires i < |events|
  {
    Ids(events[i]) !! UsedAt(events, i)
  }

  /** No session id is drawn twice in the whole run. */
  predicate NeverReused(events: seq<Event>) {
    forall i: nat | i < |events| :: NewAt(events, i)
  }

  lemma {:induction false} RunUses(c: Suite, s: ValidServer, events: seq<Event>, i: nat)
    requires Correct(c) && FreshRun(c, s, events) && i <= |events| && s.active.Keys == {} && s.pending.Keys == {}
    ensures AllUsed(At(c, s, events, i), UsedAt(events, i))
  {
    if i > 0 {
      RunUses(c, s, events, i - 1);
      RunKeepsValid(c, s, events, i - 1);
      assert EnabledAt(c, s, events, i - 1);
      StepUses(c, At(c, s, events, i - 1), UsedAt(events, i - 1), events[i - 1]);
    }
  }

  lemma NewIdsAt(c: Suite, s: Server, events: seq<Event>, i: nat)
    requires Correct(c) && FreshRun(c, s, events) && NeverReused(events) && i < |events|
    ensures NewIds(At(c, s, events, i), UsedAt(events, i), events[i])
  {
    assert EnabledAt(c, s, events, i) && NewAt(events, i);
  }

  function UseAt(c: Suite, s: Server, events: seq<Event>, i: nat): Option<Use>
    requires Correct(c) && FreshRun(c, s, events) && i < |events|
  {
    UseOf(c, At(c, s, events, i), events[i])
  }

  lemma UsedAtIsRefused(c: Suite, s: ValidServer, events: seq<Event>, i: nat, o: Use)
    requires Correct(c) && FreshRun(c, s, events) && i < |events| && s.active.Keys == {} && s.pending.Keys == {}
    requires UseAt(c, s, events, i) == Some(o)
    ensures Refuses(At(c, s, events, i + 1), UsedAt(events, i + 1), o)
  {
    RunKeepsValid(c, s, events, i);
    RunUses(c, s, events, i);
    assert EnabledAt(c, s, events, i);
    UseIsRefused(c, At(c, s, events, i), UsedAt(events, i), events[i]);
  }

  lemma StaysRefused(c: Suite, s: ValidServer, events: seq<Event>, i: nat, o: Use)
    requires Correct(c) && FreshRun(c, s, events) && NeverReused(events) && i < |events|
    requires Refuses(At(c, s, events, i), UsedAt(events, i), o)
    ensures Refuses(At(c, s, events, i + 1), UsedAt(events, i + 1), o)
  {
    RunKeepsValid(c, s, events, i);
    NewIdsAt(c, s, events, i);
    StepRefuses(c, At(c, s, events, i), UsedAt(events, i), events[i], o);
  }

  lemma {:induction false} RefusedThroughout(c: Suite, s: ValidServer, events: seq<Event>, i: nat, j: nat, o: Use)
    requires Correct(c) && FreshRun(c, s, events) && NeverReused(events) && i <= j <= |events|
    requires Refuses(At(c, s, events, i), UsedAt(events, i), o)
    ensures Refuses(At(c, s, events, j), UsedAt(events, j), o)
    decreases j
  {
    if i < j {
      RefusedThroughout(c, s, events, i, j - 1, o);
      StaysRefused(c, s, events, j - 1, o);
    }
  }

  lemma UsedStaysRefused(c: Suite, s: ValidServer, events: seq<Event>, i: nat, j: nat, o: Use)
    requires Correct(c) && FreshRun(c, s, events) && NeverReused(events) && i < j <= |events|
    requires s.active.Keys == {} && s.pending.Keys == {} && UseAt(c, s, events, i) == Some(o)
    ensures Refuses(At(c, s, events, j), UsedAt(events, j), o)
  {
    UsedAtIsRefused(c, s, events, i, o);
    RefusedThroughout(c, s, events, i + 1, j, o);
  }

  lemma UsedOnceFrom(c: Suite, s: ValidServer, events: seq<Event>, i: nat, j: nat, o: Use)
    requires Correct(c) && s.active.Keys == {} && s.pending.Keys == {} && i < j < |events|
    requires FreshRun(c, s, events) && NeverReused(events) && UseAt(c, s, events, i) == Some(o)
    ensures UseAt(c, s, events, j) != Some(o)
  {
    UsedStaysRefused(c, s, events, i, j, o);
    RunKeepsValid(c, s, events, j);
    RefusedIsNotUsed(c, At(c, s, events, j), UsedAt(events, j), events[j], o);
  }

  lemma UsedOnce(c: Suite, config: Config, events: seq<Event>, i: nat, j: nat)
    requires Correct(c) && config.startup.retryLimit >= 1 && i < j < |events|
    requires FreshRun(c, Launch(config), events) && NeverReused(events)
    ensures var a, b := UseAt(c, Launch(config), events, i), UseAt(c, Launch(config), events, j); a.Some? ==> a != b
  {
    LaunchValid(config);
    var a := UseAt(c, Launch(config), events, i);
    if a.Some? {
      UsedOnceFrom(c, Launch(config), events, i, j, a.value);
    }
  }

  /**
   In every run of the server, through rekeys, closes, evictions, sessions resumed by a
   pending rekey, and reloads, each (session, key phase, sequence) is accepted at most once.
   */
  lemma AcceptedOnce(c: Suite, config: Config, events: seq<Event>, i: nat, j: nat)
    requires Correct(c) && config.startup.retryLimit >= 1 && i < j < |events|
    requires FreshRun(c, Launch(config), events) && NeverReused(events)
    ensures var s := Launch(config);
            var a, b := OpenedBy(c, At(c, s, events, i), events[i]), OpenedBy(c, At(c, s, events, j), events[j]);
            a.Some? ==> a != b
  {
    UsedOnce(c, config, events, i, j);
  }

  lemma SealsApart(a: Use, b: Use)
    requires a.Sealed? && b.Sealed? && a.id == b.id && a != b
    ensures Nonce(a.keyPhase, a.sequence) != Nonce(b.keyPhase, b.sequence)
  {
    if Nonce(a.keyPhase, a.sequence) == Nonce(b.keyPhase, b.sequence) {
      NonceInjective(a.keyPhase, a.sequence, b.keyPhase, b.sequence);
      assert false;
    }
  }

  /** In every such run no two packets of one session are sealed under the same nonce. */
  lemma SealedOnce(c: Suite, config: Config, events: seq<Event>, i: nat, j: nat, a: Use, b: Use)
    requires Correct(c) && config.startup.retryLimit >= 1 && i < j < |events|
    requires FreshRun(c, Launch(config), events) && NeverReused(events)
    requires SealedBy(c, At(c, Launch(config), events, i), events[i]) == Some(a)
    requires SealedBy(c, At(c, Launch(config), events, j), events[j]) == Some(b) && a.id == b.id
    ensures Nonce(a.keyPhase, a.sequence) != Nonce(b.keyPhase, b.sequence)
  {
    UsedOnce(c, config, events, i, j);
    SealsApart(a, b);
  }
}
