/**
 One direction of an established tunnel: the sender seals, encodes and, with an
 obfuscation key, wraps; datagrams are lost, repeated and reordered; the receiver unwraps,
 decodes and opens.
 */
module Tunnel {
  import opened Basics
  import opened Codec
  import opened Crypto
  import opened Obfuscation
  import opened Replay
  import opened Handshake
  import HandshakeMessages
  import opened Net
  import Session

  datatype Item = Item(kind: PacketKind, plain: seq<u8>)

  /** What the obfuscation layer draws at random for one datagram. */
  datatype Noise = Noise(nonce: seq<u8>, selector: u8, padding: seq<u8>)

  predicate Drawn(n: Noise) {
    |n.nonce| == NONCE_LEN && |n.padding| == n.selector % (MAX_PADDING + 1)
  }

  datatype TunnelError =
    | Unwrappable(o: ObfuscationError) | Undecodable(p: ProtocolError) | Refused(s: Session.SessionError)

  function Emit(c: Suite, key: Option<seq<u8>>, p: Packet, n: Noise): seq<u8>
    requires Drawn(n)
  {
    if key.None? then EncodePacket(p) else Wrap(c, key.value, EncodePacket(p), n.nonce, n.selector, n.padding)
  }

  function Absorb(c: Suite, key: Option<seq<u8>>, s: Session.State, datagram: seq<u8>, now: nat)
    : (Session.State, Result<seq<u8>, TunnelError>)
  {
    var inner := if key.None? then Ok(datagram) else Unwrap(c, key.value, datagram);
    if inner.Err? then (s, Err(Unwrappable(inner.error)))
    else
      var p := DecodePacket(inner.value);
      if p.Err? then (s, Err(Undecodable(p.error)))
      else
        var (s', r) := Session.Open(c, s, p.value, now);
        (s', if r.Ok? then Ok(r.value) else Err(Refused(r.error)))
  }

  /** The layers on the way in undo the outer layers on the way out. */
  lemma AbsorbsEmitted(c: Suite, key: Option<seq<u8>>, s: Session.State, p: Packet, n: Noise, now: nat)
    requires Drawn(n)
    ensures var (s', r) := Session.Open(c, s, p, now);
            Absorb(c, key, s, Emit(c, key, p, n), now) == (s', if r.Ok? then Ok(r.value) else Err(Refused(r.error)))
  {
    if key.Some? {
      UnwrapsWhatItWraps(c, key.value, EncodePacket(p), n.nonce, n.selector, n.padding);
    }
    PacketRoundTrip(p);
  }

  // Whole runs

  function AfterSends(c: Suite, s: Session.State, items: seq<Item>): Session.State {
    if items == [] then s
    else
      var last := items[|items| - 1];
      Session.Seal(c, AfterSends(c, s, items[..|items| - 1]), last.kind, last.plain).0
  }

  predicate Sendable(items: seq<Item>) {
    |items| <= U64_MAX && forall i | 0 <= i < |items| :: items[i].kind != PacketKind.Handshake
  }

  lemma {:induction false} SendsCount(c: Suite, s: Session.State, items: seq<Item>)
    requires Sendable(items) && s.nextSend == 0
    ensures AfterSends(c, s, items) == s.(nextSend := |items|)
  {
    if items != [] {
      SendsCount(c, s, items[..|items| - 1]);
    }
  }

  /** The packet the `i`th send produces. */
  function SentPacket(c: Suite, s: Session.State, items: seq<Item>, i: nat): Packet
    requires i < |items| && Sendable(items) && s.nextSend == 0
  {
    SendsCount(c, s, items[..i]);
    Session.Seal(c, AfterSends(c, s, items[..i]), items[i].kind, items[i].plain).1.value
  }

  /** Arrival `k` brings the datagram of send `from`, drawn with fresh noise, at time `now`. */
  datatype Arrival = Arrival(from: nat, noise: Noise, now: nat)

  predicate Arriving(items: seq<Item>, arrivals: seq<Arrival>) {
    forall k | 0 <= k < |arrivals| :: arrivals[k].from < |items| && Drawn(arrivals[k].noise)
  }

  function Deliver(c: Suite, key: Option<seq<u8>>, sender: Session.State, receiver: Session.State, items: seq<Item>,
                   a: Arrival)
    : (Session.State, Result<seq<u8>, TunnelError>)
    requires Sendable(items) && sender.nextSend == 0 && a.from < |items| && Drawn(a.noise)
  {
    Absorb(c, key, receiver, Emit(c, key, SentPacket(c, sender, items, a.from), a.noise), a.now)
  }

  function AfterArrivals(c: Suite, key: Option<seq<u8>>, sender: Session.State, receiver: Session.State,
                         items: seq<Item>, arrivals: seq<Arrival>)
    : Session.State
    requires Sendable(items) && sender.nextSend == 0 && Arriving(items, arrivals)
  {
    if arrivals == [] then receiver
    else
      var n := |arrivals| - 1;
      Deliver(c, key, sender, AfterArrivals(c, key, sender, receiver, items, arrivals[..n]), items, arrivals[n]).0
  }

  /** The sequence numbers in the order they arrive. */
  function Sequences(items: seq<Item>, arrivals: seq<Arrival>): seq<u64>
    requires Sendable(items) && Arriving(items, arrivals)
  {
    seq<u64>(|arrivals|, k requires 0 <= k < |arrivals| => arrivals[k].from)
  }

  lemma OneArrival(c: Suite, key: Option<seq<u8>>, sender: Session.State, receiver: Session.State, items: seq<Item>,
                   a: Arrival)
    requires Correct(c) && Paired(sender, receiver) && sender.nextSend == 0 && Sendable(items)
    requires a.from < |items| && Drawn(a.noise)
    ensures var verdict := Check(receiver.replay, a.from);
            Deliver(c, key, sender, receiver, items, a)
            == (receiver.(replay := Record(receiver.replay, a.from)),
                if verdict.Ok? then Ok(items[a.from].plain) else Err(Refused(Session.Replayed(verdict.error))))
  {
    SendsCount(c, sender, items[..a.from]);
    var at := AfterSends(c, sender, items[..a.from]);
    var item := items[a.from];
    Session.SealedOpens(c, at, receiver, item.kind, item.plain, a.now);
    AbsorbsEmitted(c, key, receiver, SentPacket(c, sender, items, a.from), a.noise, a.now);
  }

  lemma {:induction false} ArrivalsRecorded(c: Suite, key: Option<seq<u8>>, sender: Session.State,
                                            receiver: Session.State, items: seq<Item>, arrivals: seq<Arrival>)
    requires Correct(c) && Paired(sender, receiver) && sender.nextSend == 0 && Sendable(items)
    requires Arriving(items, arrivals)
    requires receiver.replay == FRESH
    ensures AfterArrivals(c, key, sender, receiver, items, arrivals)
         == receiver.(replay := RecordAll(FRESH, Sequences(items, arrivals)))
  {
    if arrivals != [] {
      var n := |arrivals| - 1;
      ArrivalsRecorded(c, key, sender, receiver, items, arrivals[..n]);
      assert Sequences(items, arrivals)[..n] == Sequences(items, arrivals[..n]);
      OneArrival(c, key, sender, AfterArrivals(c, key, sender, receiver, items, arrivals[..n]), items, arrivals[n]);
    }
  }

  /**
   End to end: from the two fresh ends of a session, whatever is lost, repeated or
   reordered, an arrival yields the plaintext that was sent exactly when the replay rule
   accepts its sequence number.
   */
  lemma EndToEnd(c: Suite, key: Option<seq<u8>>, sender: Session.State, receiver: Session.State, items: seq<Item>,
                 arrivals: seq<Arrival>, k: nat)
    requires Correct(c) && Paired(sender, receiver) && sender.nextSend == 0 && Sendable(items)
    requires Arriving(items, arrivals)
    requires receiver.replay == FRESH && k < |arrivals|
    ensures var at := AfterArrivals(c, key, sender, receiver, items, arrivals[..k]);
            var verdict := VerdictAt(Sequences(items, arrivals), k);
            Deliver(c, key, sender, at, items, arrivals[k]).1
            == if verdict.Ok? then Ok(items[arrivals[k].from].plain) else Err(Refused(Session.Replayed(verdict.error)))
  {
    ArrivalsRecorded(c, key, sender, receiver, items, arrivals[..k]);
    assert Sequences(items, arrivals)[..k] == Sequences(items, arrivals[..k]);
    OneArrival(c, key, sender, AfterArrivals(c, key, sender, receiver, items, arrivals[..k]), items, arrivals[k]);
  }

  /** On first arrival, less than a window behind everything accepted so far, the plaintext comes out. */
  lemma FirstArrivalDelivers(c: Suite, key: Option<seq<u8>>, sender: Session.State, receiver: Session.State,
                             items: seq<Item>, arrivals: seq<Arrival>, k: nat)
    requires Correct(c) && Paired(sender, receiver) && sender.nextSend == 0 && Sendable(items)
    requires Arriving(items, arrivals)
    requires receiver.replay == FRESH && k < |arrivals|
    requires NewWithinWindow(arrivals, k)
    ensures Deliver(c, key, sender, AfterArrivals(c, key, sender, receiver, items, arrivals[..k]), items, arrivals[k]).1
         == Ok(items[arrivals[k].from].plain)
  {
    AcceptedOnFirstArrival(Sequences(items, arrivals), k);
    EndToEnd(c, key, sender, receiver, items, arrivals, k);
  }

  /** Every first arrival within the window yields what was sent, from `sender` to `receiver`. */
  ghost predicate Delivers(c: Suite, key: Option<seq<u8>>, sender: Session.State, receiver: Session.State) {
    && sender.nextSend == 0
    && forall items: seq<Item>, arrivals: seq<Arrival>, k: nat
         | Sendable(items) && Arriving(items, arrivals) && k < |arrivals| && NewWithinWindow(arrivals, k) ::
         Deliver(c, key, sender, AfterArrivals(c, key, sender, receiver, items, arrivals[..k]), items, arrivals[k]).1
         == Ok(items[arrivals[k].from].plain)
  }

  predicate NewWithinWindow(arrivals: seq<Arrival>, k: nat)
    requires k < |arrivals|
  {
    forall i | 0 <= i < k :: arrivals[i].from != arrivals[k].from && arrivals[i].from < arrivals[k].from + WINDOW
  }

  lemma NewEndsDeliver(c: Suite, key: Option<seq<u8>>, sender: Session.State, receiver: Session.State)
    requires Correct(c) && Paired(sender, receiver) && sender.nextSend == 0 && receiver.replay == FRESH
    ensures Delivers(c, key, sender, receiver)
  {
    forall items: seq<Item>, arrivals: seq<Arrival>, k: nat
      | Sendable(items) && Arriving(items, arrivals) && k < |arrivals| && NewWithinWindow(arrivals, k)
      ensures Deliver(c, key, sender, AfterArrivals(c, key, sender, receiver, items, arrivals[..k]), items,
                      arrivals[k]).1
           == Ok(items[arrivals[k].from].plain)
    {
      FirstArrivalDelivers(c, key, sender, receiver, items, arrivals, k);
    }
  }

  /**
   From handshake to delivery: an initiator that starts, answers a cookie challenge or not,
   and completes the exchange with a responder set up for it, ends with a session on which
   each side receives what the other sends.
   */
  lemma ExchangeDelivers(c: Suite, key: Option<seq<u8>>, identity: Identity, trusted: Verifier, secret: seq<u8>,
                         random: HandshakeMessages.Random, mac1: HandshakeMessages.Mac1,
                         cookie: Option<HandshakeMessages.Cookie>,
                         again: HandshakeMessages.Mac1, peer: Identity, verifier: Verifier, ephemeral: seq<u8>,
                         answer: HandshakeMessages.Random, sessionId: SessionId, keyPhase: u32, mine: Clocks,
                         theirs: Clocks)
    requires Correct(c) && Trusts(c, trusted, peer, mine.wall) && Trusts(c, verifier, identity, theirs.wall)
    requires Agree(c, ephemeral, c.publicKey(secret)).Ok?
    ensures var start := Start(c, identity, trusted, secret, random, mac1);
            var i := if cookie.Some? then AttachCookie(start, cookie.value, again) else start;
            var x := Exchange(c, i, peer, verifier, ephemeral, answer, sessionId, keyPhase, mine, theirs);
            && x.Ok?
            && Delivers(c, key, x.value.0.0, x.value.1.0) && Delivers(c, key, x.value.1.0, x.value.0.0)
  {
    var start := Start(c, identity, trusted, secret, random, mac1);
    var i := if cookie.Some? then AttachCookie(start, cookie.value, again) else start;
    Agreement(c, i, peer, verifier, ephemeral, answer, sessionId, keyPhase, mine, theirs);
    var x := Exchange(c, i, peer, verifier, ephemeral, answer, sessionId, keyPhase, mine, theirs).value;
    NewEndsDeliver(c, key, x.0.0, x.1.0);
    NewEndsDeliver(c, key, x.1.0, x.0.0);
  }
}
