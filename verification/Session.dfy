/**
 A protected session: sealing under a counter, opening through a replay window, and a
 previous key phase kept for a grace period after a rekey.
 */
module Session {
  import opened Basics
  import opened Net
  import opened Codec
  import opened Crypto
  import opened Replay

  datatype SessionError =
    | HandshakeNotProtected | SequenceExhausted | UnexpectedSession | UnexpectedKeyPhase(phase: u32)
    | AuthenticationFailed | Replayed(error: ReplayError)

  datatype Previous = Previous(keyPhase: u32, keys: Keys, replay: Window, expiresAt: nat)

  datatype State = State(
    sessionId: SessionId,
    keyPhase: u32,
    nextSend: u64,
    replay: Window,
    keys: Keys,
    createdAt: nat,
    previous: Option<Previous>)

  function New(sessionId: SessionId, keyPhase: u32, keys: Keys, now: nat): State {
    State(sessionId, keyPhase, 0, FRESH, keys, now, None)
  }

  function Inherit(s: State, older: State, grace: nat, now: nat): State {
    if grace > 0 && older.sessionId == s.sessionId && older.keyPhase < s.keyPhase
    then s.(previous := Some(Previous(older.keyPhase, older.keys, older.replay, now + grace)))
    else s
  }

  function Seal(c: Suite, s: State, kind: PacketKind, plain: seq<u8>): (State, Result<Packet, SessionError>) {
    if kind == Handshake then (s, Err(HandshakeNotProtected))
    else if s.nextSend == U64_MAX then (s, Err(SequenceExhausted))
    else
      var header := Header(kind, s.keyPhase, s.nextSend, s.sessionId);
      (s.(nextSend := s.nextSend + 1),
       Ok(Packet(header, c.seal(s.keys.send, Nonce(header.keyPhase, header.sequence), EncodeHeader(header), plain))))
  }

  /** Authentication of a packet under one phase's keys, then that phase's replay window. */
  function Receive(c: Suite, keys: Keys, replay: Window, p: Packet): Result<seq<u8>, SessionError> {
    var plain := c.open(keys.receive, Nonce(p.header.keyPhase, p.header.sequence), EncodeHeader(p.header), p.payload);
    if plain.None? then Err(AuthenticationFailed)
    else
      var verdict := Check(replay, p.header.sequence);
      if verdict.Err? then Err(Replayed(verdict.error)) else Ok(plain.value)
  }

  function Open(c: Suite, s: State, p: Packet, now: nat): (State, Result<seq<u8>, SessionError>) {
    if p.header.kind == Handshake then (s, Err(HandshakeNotProtected))
    else if p.header.sessionId != s.sessionId then (s, Err(UnexpectedSession))
    else if p.header.keyPhase == s.keyPhase then
      var r := Receive(c, s.keys, s.replay, p);
      (if r.Ok? then s.(replay := Record(s.replay, p.header.sequence)) else s, r)
    else if s.previous.Some? && s.previous.value.keyPhase == p.header.keyPhase && now <= s.previous.value.expiresAt then
      var older := s.previous.value;
      var r := Receive(c, older.keys, older.replay, p);
      (if r.Ok? then s.(previous := Some(older.(replay := Record(older.replay, p.header.sequence)))) else s, r)
    else (s, Err(UnexpectedKeyPhase(p.header.keyPhase)))
  }

  // Chains of rekeys

  datatype Action =
    | Send(kind: PacketKind, plain: seq<u8>)
    | Arrival(packet: Packet, now: nat)
    | Rekeyed(keyPhase: u32, keys: Keys, grace: nat, now: nat)

  /** What an action did that must never happen again. */
  datatype Outcome = Nothing | Sent(keyPhase: u32, sequence: u64) | Opened(keyPhase: u32, sequence: u64)

  /** The successor of a session takes its place and keeps it as the previous phase. */
  function Successor(s: State, keyPhase: u32, keys: Keys, grace: nat, now: nat): State {
    Inherit(New(s.sessionId, keyPhase, keys, now), s, grace, now)
  }

  function Act(c: Suite, s: State, a: Action): (State, Outcome) {
    match a
    case Send(kind, plain) =>
      var (s', r) := Seal(c, s, kind, plain);
      (s', if r.Ok? then Sent(r.value.header.keyPhase, r.value.header.sequence) else Nothing)
    case Arrival(packet, now) =>
      var (s', r) := Open(c, s, packet, now);
      (s', if r.Ok? then Opened(packet.header.keyPhase, packet.header.sequence) else Nothing)
    case Rekeyed(keyPhase, keys, grace, now) => (Successor(s, keyPhase, keys, grace, now), Nothing)
  }

  function After(c: Suite, s: State, actions: seq<Action>): State {
    if actions == [] then s else Act(c, After(c, s, actions[..|actions| - 1]), actions[|actions| - 1]).0
  }

  function OutcomeAt(c: Suite, s: State, actions: seq<Action>, i: nat): Outcome
    requires i < |actions|
  {
    Act(c, After(c, s, actions[..i]), actions[i]).1
  }

  /** Every rekey moves to a later phase. */
  predicate Ascending(c: Suite, s: State, actions: seq<Action>) {
    forall i | 0 <= i < |actions| && actions[i].Rekeyed? :: After(c, s, actions[..i]).keyPhase < actions[i].keyPhase
  }

  /** The state remembers an outcome: it would refuse to repeat it. */
  predicate Remembers(s: State, o: Outcome) {
    match o
    case Nothing => true
    case Sent(phase, sequence) => phase < s.keyPhase || (phase == s.keyPhase && sequence < s.nextSend)
    case Opened(phase, sequence) =>
      && phase <= s.keyPhase
      && (phase == s.keyPhase ==> sequence in s.replay.accepted)
      && (s.previous.Some? && phase == s.previous.value.keyPhase ==> sequence in s.previous.value.replay.accepted)
  }

  ghost predicate Valid(s: State) {
    && Sound(s.replay)
    && (s.previous.Some? ==> s.previous.value.keyPhase < s.keyPhase && Sound(s.previous.value.replay))
  }

  lemma RecordKeepsSound(w: Window, sequence: u64)
    requires Sound(w)
    ensures Sound(Record(w, sequence)) && w.accepted <= Record(w, sequence).accepted
    ensures Check(w, sequence).Ok? ==> sequence !in w.accepted && sequence in Record(w, sequence).accepted
  {}

  /** A packet that is refused, for whatever reason, changes nothing. */
  lemma RefusalChangesNothing(c: Suite, s: State, p: Packet, now: nat)
    ensures Open(c, s, p, now).1.Err? ==> Open(c, s, p, now).0 == s
  {}

  lemma ActKeepsValid(c: Suite, s: State, a: Action)
    requires Valid(s) && (a.Rekeyed? ==> s.keyPhase < a.keyPhase)
    ensures Valid(Act(c, s, a).0)
  {
    if a.Arrival? {
      RecordKeepsSound(s.replay, a.packet.header.sequence);
      if s.previous.Some? {
        RecordKeepsSound(s.previous.value.replay, a.packet.header.sequence);
      }
    }
  }

  lemma ActKeepsMemory(c: Suite, s: State, a: Action, o: Outcome)
    requires Valid(s) && (a.Rekeyed? ==> s.keyPhase < a.keyPhase) && Remembers(s, o)
    ensures Remembers(Act(c, s, a).0, o)
  {}

  lemma ActIsNew(c: Suite, s: State, a: Action)
    requires Valid(s) && (a.Rekeyed? ==> s.keyPhase < a.keyPhase)
    ensures var (s', o) := Act(c, s, a); Remembers(s', o) && (o != Nothing ==> !Remembers(s, o))
  {
    if a.Arrival? {
      RecordKeepsSound(s.replay, a.packet.header.sequence);
      if s.previous.Some? {
        RecordKeepsSound(s.previous.value.replay, a.packet.header.sequence);
      }
    }
  }

  lemma {:induction false} ChainRemembers(c: Suite, s: State, actions: seq<Action>, i: nat, j: nat)
    requires Valid(s) && Ascending(c, s, actions) && i <= j <= |actions|
    ensures Valid(After(c, s, actions[..j]))
    ensures i < j ==> Remembers(After(c, s, actions[..j]), OutcomeAt(c, s, actions, i))
    decreases j
  {
    if j > 0 {
      var before := After(c, s, actions[..j - 1]);
      assert actions[..j][..j - 1] == actions[..j - 1];
      ChainRemembers(c, s, actions, if i < j then i else 0, j - 1);
      ActKeepsValid(c, before, actions[j - 1]);
      ActIsNew(c, before, actions[j - 1]);
      if i < j - 1 {
        ActKeepsMemory(c, before, actions[j - 1], OutcomeAt(c, s, actions, i));
      }
    }
  }

  /**
   Along every chain of sends, arrivals and rekeys with grace periods, each (key phase,
   sequence) is opened at most once and no nonce is used for two sent packets.
   */
  lemma AtMostOnce(c: Suite, sessionId: SessionId, keyPhase: u32, keys: Keys, now: nat, actions: seq<Action>, i: nat,
                   j: nat)
    requires Ascending(c, New(sessionId, keyPhase, keys, now), actions) && i < j < |actions|
    ensures var s := New(sessionId, keyPhase, keys, now);
            var a, b := OutcomeAt(c, s, actions, i), OutcomeAt(c, s, actions, j);
            && (a.Opened? && b.Opened? ==> (a.keyPhase, a.sequence) != (b.keyPhase, b.sequence))
            && (a.Sent? && b.Sent? ==> Nonce(a.keyPhase, a.sequence) != Nonce(b.keyPhase, b.sequence))
  {
    var s := New(sessionId, keyPhase, keys, now);
    ChainRemembers(c, s, actions, i, j);
    ActIsNew(c, After(c, s, actions[..j]), actions[j]);
    var a, b := OutcomeAt(c, s, actions, i), OutcomeAt(c, s, actions, j);
    if a.Sent? && b.Sent? && Nonce(a.keyPhase, a.sequence) == Nonce(b.keyPhase, b.sequence) {
      NonceInjective(a.keyPhase, a.sequence, b.keyPhase, b.sequence);
      assert false;
    }
  }

  // Delivery between the two ends

  /** What one end seals the other opens to the same plaintext, exactly when its window has room for its number. */
  lemma SealedOpens(c: Suite, sender: State, receiver: State, kind: PacketKind, plain: seq<u8>, now: nat)
    requires Correct(c) && Mirrored(sender.keys, receiver.keys)
    requires sender.sessionId == receiver.sessionId && sender.keyPhase == receiver.keyPhase
    requires Seal(c, sender, kind, plain).1.Ok?
    ensures var verdict := Check(receiver.replay, sender.nextSend);
            Open(c, receiver, Seal(c, sender, kind, plain).1.value, now).1
            == if verdict.Ok? then Ok(plain) else Err(Replayed(verdict.error))
  {}

  /** A packet still in flight when the receiver rekeys is opened during the grace period as it would have been. */
  lemma InFlightOpens(c: Suite, receiver: State, keyPhase: u32, keys: Keys, grace: nat, rekeyed: nat, p: Packet,
                      now: nat)
    requires receiver.keyPhase < keyPhase && p.header.keyPhase == receiver.keyPhase
    requires 0 < grace && rekeyed <= now <= rekeyed + grace
    ensures Open(c, Successor(receiver, keyPhase, keys, grace, rekeyed), p, now).1 == Open(c, receiver, p, rekeyed).1
  {}

  /** The session as it is held: replay windows are objects, and a rekey clones the current one. */
  datatype PreviousPhase = PreviousPhase(keyPhase: u32, keys: Keys, replay: ReplayWindow, expiresAt: nat)

  class ProtectedSession {
    const suite: Suite
    const sessionId: SessionId
    const keyPhase: u32
    const keys: Keys
    const createdAt: nat
    const receiveReplay: ReplayWindow
    var nextSendSequence: u64
    var previous: Option<PreviousPhase>

    ghost function Windows(): set<object>
      reads this
    {
      {receiveReplay, receiveReplay.seen}
        + if previous.Some? then {previous.value.replay, previous.value.replay.seen} else {}
    }

    ghost predicate ValidObject()
      reads this, Windows()
    {
      && receiveReplay.Valid()
      && this !in Windows()
      && (previous.Some? ==>
            && previous.value.replay.Valid()
            && previous.value.replay != receiveReplay && previous.value.replay.seen != receiveReplay.seen)
    }

    ghost function Model(): State
      reads this, Windows()
    {
      State(sessionId, keyPhase, nextSendSequence, receiveReplay.Spec(), keys, createdAt,
            if previous.None? then None
            else Some(Previous(previous.value.keyPhase, previous.value.keys, previous.value.replay.Spec(),
                               previous.value.expiresAt)))
    }

    constructor (suite: Suite, sessionId: SessionId, keyPhase: u32, keys: Keys, now: nat)
      ensures ValidObject() && fresh(Windows()) && Model() == New(sessionId, keyPhase, keys, now)
      ensures this.sessionId == sessionId && this.keyPhase == keyPhase
    {
      this.suite, this.sessionId, this.keyPhase, this.keys := suite, sessionId, keyPhase, keys;
      createdAt, nextSendSequence, previous := now, 0, None;
      receiveReplay := new ReplayWindow();
    }

    method InheritPrevious(older: ProtectedSession, grace: nat, now: nat)
      requires ValidObject() && older.ValidObject() && older != this
      modifies this
      ensures ValidObject() && Model() == Inherit(old(Model()), old(older.Model()), grace, now)
      ensures fresh(Windows() - old(Windows()))
    {
      if grace == 0 {
        return;
      }
      if older.sessionId == sessionId && older.keyPhase < keyPhase {
        var replay := new ReplayWindow.Clone(older.receiveReplay);
        previous := Some(PreviousPhase(older.keyPhase, older.keys, replay, now + grace));
      }
    }

    method SealPacket(kind: PacketKind, plain: seq<u8>) returns (r: Result<Packet, SessionError>)
      requires ValidObject()
      modifies this
      ensures ValidObject() && (Model(), r) == Seal(suite, old(Model()), kind, plain) && Windows() == old(Windows())
    {
      if kind == Handshake {
        return Err(HandshakeNotProtected);
      }
      if nextSendSequence == U64_MAX {
        return Err(SequenceExhausted);
      }
      var header := Header(kind, keyPhase, nextSendSequence, sessionId);
      var payload := suite.seal(keys.send, Nonce(header.keyPhase, header.sequence), EncodeHeader(header), plain);
      nextSendSequence := nextSendSequence + 1;
      return Ok(Packet(header, payload));
    }

    /** Authenticates under one phase's keys and only then moves that phase's window. */
    method ReceiveWith(keys: Keys, replay: ReplayWindow, p: Packet) returns (r: Result<seq<u8>, SessionError>)
      requires replay.Valid()
      modifies replay, replay.seen
      ensures replay.Valid() && r == Receive(suite, keys, old(replay.Spec()), p)
      ensures replay.Spec() == if r.Ok? then Record(old(replay.Spec()), p.header.sequence) else old(replay.Spec())
    {
      var plain := suite.open(keys.receive, Nonce(p.header.keyPhase, p.header.sequence), EncodeHeader(p.header),
                              p.payload);
      if plain.None? {
        return Err(AuthenticationFailed);
      }
      var verdict := replay.CheckAndRecord(p.header.sequence);
      return if verdict.Err? then Err(Replayed(verdict.error)) else Ok(plain.value);
    }

    method OpenPacket(p: Packet, now: nat) returns (r: Result<seq<u8>, SessionError>)
      requires ValidObject()
      modifies Windows()
      ensures ValidObject() && (Model(), r) == Open(suite, old(Model()), p, now) && Windows() == old(Windows())
    {
      if p.header.kind == Handshake {
        return Err(HandshakeNotProtected);
      }
      if p.header.sessionId != sessionId {
        return Err(UnexpectedSession);
      }
      if p.header.keyPhase != keyPhase {
        if previous.Some? && previous.value.keyPhase == p.header.keyPhase && now <= previous.value.expiresAt {
          r := ReceiveWith(previous.value.keys, previous.value.replay, p);
          return;
        }
        return Err(UnexpectedKeyPhase(p.header.keyPhase));
      }
      r := ReceiveWith(keys, receiveReplay, p);
    }
  }
}
