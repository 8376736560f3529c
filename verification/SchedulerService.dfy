/**
 Service without shaping: as long as no payload is empty, every waiting peer's head leaves
 within a bounded number of visits, whatever is offered meanwhile. With empty payloads one
 peer can hold the front for ever.
 */
module SchedulerService {
  import opened Basics
  import opened Net
  import opened Scheduler
  import opened SchedulerInvariant
  import opened SchedulerRuns

  /** The deficit a peer has for its next visit. */
  function Credit(p: PeerQueue): nat {
    p.deficit + if p.inRound then 0 else DRR_QUANTUM
  }

  /** No bucket, payloads of at least one byte and at most `limit`, and no more credit than they can leave over. */
  ghost predicate ModestPeer(p: PeerQueue, limit: nat) {
    && p.bucket.None? && Credit(p) <= limit + DRR_QUANTUM
    && forall d <- p.packets :: 1 <= |d.payload| <= limit
  }

  ghost predicate Modest(q: Queue, limit: nat) {
    q.rate == 0 && forall k <- q.peers :: ModestPeer(q.peers[k], limit)
  }

  predicate ModestEvent(e: Event, limit: nat) {
    && (e.Offer? ==> 1 <= |e.payload| <= limit)
    && (e.Rerate? ==> e.rate == 0)
  }

  // Every unshaped run is modest

  lemma TurnModest(key: QueueKey, p: PeerQueue, limit: nat, now: Readings)
    requires p.packets != [] && ModestPeer(p, limit)
    ensures ModestPeer(PeerTurn(key, p, now).0, limit)
  {
    assert p.packets[0] in p.packets;
    if |p.packets| > 1 {
      assert p.packets[1] in p.packets;
    }
  }

  lemma VisitModest(q: ValidQueue, now: Readings, limit: nat)
    requires FrontReady(q) && Modest(q, limit)
    ensures Modest(Visit(q, now).0, limit)
  {
    TurnModest(q.rotation[0], q.peers[q.rotation[0]], limit, now);
  }

  lemma OfferModest(q: Queue, key: QueueKey, endpoint: SocketAddr, payload: Bytes, now: nat, created: nat, limit: nat)
    requires Modest(q, limit) && 1 <= |payload| <= limit
    ensures Modest(Enqueue(q, key, endpoint, payload, now, created).0, limit)
  {}

  lemma RerateModest(q: Queue, now: nat, limit: nat)
    requires Modest(q, limit)
    ensures Modest(SetRate(q, 0, now), limit)
  {}

  lemma StepModest(q: ValidQueue, e: Event, limit: nat)
    requires Modest(q, limit) && ModestEvent(e, limit)
    ensures Modest(Step(q, e).0, limit)
  {
    match e
    case Offer(key, endpoint, payload, now, created) =>
      OfferModest(q, key, endpoint, payload, now, created, limit);
    case Turn(at) =>
      if q.rotation != [] {
        ListedMeansQueued(q);
        VisitModest(q, at, limit);
      }
    case Rerate(rate, now) => RerateModest(q, now, limit);
  }

  lemma {:induction false} RunModest(q: ValidQueue, events: seq<Event>, limit: nat)
    requires Modest(q, limit) && forall e <- events :: ModestEvent(e, limit)
    ensures Modest(Run(q, events).0, limit)
    decreases |events|
  {
    if events != [] {
      assert events[0] in events;
      StepModest(q, events[0], limit);
      RunModest(Step(q, events[0]).0, events[1..], limit);
    }
  }

  // A measure that every visit lowers

  /** The visits that the peers before `k` can take up: one for each byte of their credit, and one to move on. */
  function Ahead(rotation: seq<QueueKey>, peers: map<QueueKey, PeerQueue>, k: QueueKey): nat {
    if rotation == [] || rotation[0] == k then 0
    else (if rotation[0] in peers then Credit(peers[rotation[0]]) + 1 else 0) + Ahead(rotation[1..], peers, k)
  }

  lemma {:induction false} AheadAppend(rotation: seq<QueueKey>, peers: map<QueueKey, PeerQueue>, k: QueueKey,
                                       more: QueueKey)
    requires k in rotation
    ensures Ahead(rotation + [more], peers, k) == Ahead(rotation, peers, k)
  {
    if rotation[0] != k {
      AheadAppend(rotation[1..], peers, k, more);
      assert (rotation + [more])[1..] == rotation[1..] + [more];
    }
  }

  lemma {:induction false} AheadSame(rotation: seq<QueueKey>, peers: map<QueueKey, PeerQueue>,
                                     peers': map<QueueKey, PeerQueue>, k: QueueKey)
    requires forall j <- rotation :: j in peers && j in peers' && Credit(peers[j]) == Credit(peers'[j])
    ensures Ahead(rotation, peers, k) == Ahead(rotation, peers', k)
  {
    if rotation != [] && rotation[0] != k {
      assert rotation[0] in rotation;
      AheadSame(rotation[1..], peers, peers', k);
    }
  }

  lemma {:induction false} AheadAtMost(rotation: seq<QueueKey>, peers: map<QueueKey, PeerQueue>, k: QueueKey,
                                       limit: nat)
    requires forall j <- rotation :: j in peers && ModestPeer(peers[j], limit)
    ensures Ahead(rotation, peers, k) <= |rotation| * (limit + DRR_QUANTUM + 1)
    ensures k in rotation ==> Ahead(rotation, peers, k) <= (|rotation| - 1) * (limit + DRR_QUANTUM + 1)
  {
    if rotation != [] {
      assert rotation[0] in rotation;
      AheadAtMost(rotation[1..], peers, k, limit);
      OneMoreTime(|rotation|, limit + DRR_QUANTUM + 1);
      if |rotation| > 1 {
        OneMoreTime(|rotation| - 1, limit + DRR_QUANTUM + 1);
      }
    }
  }

  lemma OneMoreTime(n: nat, each: nat)
    requires n > 0
    ensures n * each == (n - 1) * each + each && (n - 1) * each >= 0
  {}

  /** The visits to `k` itself that find its credit short. */
  function Laps(p: PeerQueue): nat {
    if HeadSize(p) <= Credit(p) then 0 else (HeadSize(p) - Credit(p) + DRR_QUANTUM - 1) / DRR_QUANTUM
  }

  /** More visits than one time round the rotation can take. */
  function Circuit(limit: nat): nat {
    MAX_TRACKED_PEERS * (limit + DRR_QUANTUM + 1)
  }

  function Wait(q: Queue, k: QueueKey, limit: nat): nat
    requires k in q.peers
  {
    Ahead(q.rotation, q.peers, k) + Laps(q.peers[k]) * Circuit(limit)
  }

  lemma {:induction false} RotationFits(rotation: seq<QueueKey>, keys: set<QueueKey>)
    requires NoDuplicates(rotation) && forall k <- rotation :: k in keys
    ensures |rotation| <= |keys|
    decreases |rotation|
  {
    if rotation != [] {
      RotatedKeepsMembers(rotation);
      RotationFits(rotation[1..], keys - {rotation[0]});
    }
  }

  lemma ListedModest(q: ValidQueue, limit: nat)
    requires Modest(q, limit)
    ensures forall j <- q.rotation :: j in q.peers && ModestPeer(q.peers[j], limit)
    ensures |q.rotation| <= MAX_TRACKED_PEERS
  {
    forall j <- q.rotation ensures j in q.peers && ModestPeer(q.peers[j], limit) {
      assert Waiting(q, j);
    }
    RotationFits(q.rotation, q.peers.Keys);
  }

  lemma OneShortOfCircuit(n: nat, limit: nat)
    requires 0 < n <= MAX_TRACKED_PEERS
    ensures (n - 1) * (limit + DRR_QUANTUM + 1) < Circuit(limit)
  {
    var each := limit + DRR_QUANTUM + 1;
    assert (n - 1) * each <= (MAX_TRACKED_PEERS - 1) * each;
  }

  lemma AheadWithinCircuit(q: ValidQueue, k: QueueKey, limit: nat)
    requires Modest(q, limit) && Waiting(q, k)
    ensures Ahead(q.rotation, q.peers, k) < Circuit(limit)
  {
    ListedModest(q, limit);
    AheadAtMost(q.rotation, q.peers, k, limit);
    OneShortOfCircuit(|q.rotation|, limit);
  }

  /** A visit that does not serve `k` leaves its queue as it is and lowers the wait. */
  ghost predicate Nearer(q: Queue, q': Queue, k: QueueKey, limit: nat) {
    && Waiting(q, k) && Waiting(q', k) && q'.peers[k].packets == q.peers[k].packets
    && Wait(q', k, limit) < Wait(q, k, limit)
  }

  lemma YieldLaps(key: QueueKey, p: PeerQueue, limit: nat, now: Readings)
    requires PeerValid(p, limit) && p.packets != [] && p.bucket.None? && !PeerTurn(key, p, now).1.Sent?
    ensures var p' := PeerTurn(key, p, now).0; p'.packets == p.packets && Laps(p') == Laps(p) - 1 && !p'.inRound
  {
    var lack := HeadSize(p) - Credit(p);
    assert (lack + DRR_QUANTUM - 1) / DRR_QUANTUM == (lack - 1) / DRR_QUANTUM + 1;
  }

  lemma OwnVisitLaps(q: ValidQueue, at: Readings, k: QueueKey)
    requires FrontReady(q) && q.rotation[0] == k && q.peers[k].bucket.None? && !Visit(q, at).1.Sent?
    ensures var q' := Visit(q, at).0;
            Waiting(q', k) && q'.peers[k].packets == q.peers[k].packets && Laps(q'.peers[k]) == Laps(q.peers[k]) - 1
  {
    assert PeerValid(q.peers[k], q.perPeerCapacity);
    YieldLaps(k, q.peers[k], q.perPeerCapacity, at);
  }

  lemma LapSaved(ahead: nat, laps: nat, circuit: nat)
    requires ahead < circuit && laps > 0
    ensures ahead + (laps - 1) * circuit < laps * circuit
  {}

  lemma OwnVisit(q: ValidQueue, at: Readings, k: QueueKey, limit: nat)
    requires FrontReady(q) && Modest(q, limit) && q.rotation[0] == k && !Visit(q, at).1.Sent?
    ensures Nearer(q, Visit(q, at).0, k, limit)
  {
    VisitKeepsValid(q, at);
    var q': ValidQueue := Visit(q, at).0;
    VisitModest(q, at, limit);
    OwnVisitLaps(q, at, k);
    AheadWithinCircuit(q', k, limit);
    LapSaved(Ahead(q'.rotation, q'.peers, k), Laps(q.peers[k]), Circuit(limit));
  }

  /** The front peer uses up credit or moves on. */
  lemma FrontSpends(key: QueueKey, p: PeerQueue, limit: nat, now: Readings, most: nat)
    requires PeerValid(p, limit) && p.packets != [] && ModestPeer(p, most)
    ensures var p' := PeerTurn(key, p, now).0; p'.inRound ==> Credit(p') < Credit(p)
  {
    assert p.packets[0] in p.packets;
  }

  /** The peers behind the front stay as they are. */
  lemma RestStays(q: ValidQueue, at: Readings)
    requires FrontReady(q)
    ensures var q' := Visit(q, at).0;
            forall j <- q.rotation[1..] :: j in q.peers && j in q'.peers && q'.peers[j] == q.peers[j]
  {
    RotatedKeepsMembers(q.rotation);
    forall j <- q.rotation[1..] ensures j in q.peers {
      assert j in q.rotation;
      assert Waiting(q, j);
    }
  }

  /** Where the front peer ends up: still in front with less credit, behind, or out of the rotation. */
  lemma FrontMoves(q: ValidQueue, at: Readings, limit: nat)
    requires FrontReady(q) && Modest(q, limit)
    ensures var (q', key, rest) := (Visit(q, at).0, q.rotation[0], q.rotation[1..]);
            || q'.rotation == rest || q'.rotation == rest + [key]
            || (q'.rotation == [key] + rest && key in q'.peers && Credit(q'.peers[key]) < Credit(q.peers[key]))
  {
    var key := q.rotation[0];
    FrontSpends(key, q.peers[key], q.perPeerCapacity, at, limit);
  }

  lemma OthersAhead(q: ValidQueue, at: Readings, k: QueueKey, limit: nat)
    requires FrontReady(q) && Modest(q, limit) && Waiting(q, k) && q.rotation[0] != k
    ensures var q' := Visit(q, at).0; Ahead(q'.rotation, q'.peers, k) < Ahead(q.rotation, q.peers, k)
  {
    var q', key, rest := Visit(q, at).0, q.rotation[0], q.rotation[1..];
    RestStays(q, at);
    FrontMoves(q, at, limit);
    AheadSame(rest, q.peers, q'.peers, k);
    assert k in rest;
    AheadAppend(rest, q'.peers, k, key);
    assert ([key] + rest)[1..] == rest;
  }

  lemma OthersVisit(q: ValidQueue, at: Readings, k: QueueKey, limit: nat)
    requires FrontReady(q) && Modest(q, limit) && Waiting(q, k) && q.rotation[0] != k
    ensures Nearer(q, Visit(q, at).0, k, limit)
  {
    OthersAhead(q, at, k, limit);
    RestStays(q, at);
    assert k in q.rotation[1..];
  }

  // Runs

  function Visits(events: seq<Event>): nat {
    if events == [] then 0 else (if events[0].Turn? then 1 else 0) + Visits(events[1..])
  }

  /** What was waiting first for `k` is first still, and its wait is no longer. */
  ghost predicate NotFarther(q: Queue, q': Queue, k: QueueKey, limit: nat) {
    && Waiting(q, k) && Waiting(q', k) && q'.peers[k].packets[0] == q.peers[k].packets[0]
    && Wait(q', k, limit) <= Wait(q, k, limit)
  }

  lemma OfferCredits(q: ValidQueue, key: QueueKey, endpoint: SocketAddr, payload: Bytes, now: nat, created: nat)
    ensures var q' := Enqueue(q, key, endpoint, payload, now, created).0;
            forall j <- q.rotation :: j in q.peers && j in q'.peers && Credit(q'.peers[j]) == Credit(q.peers[j])
  {
    var q' := Enqueue(q, key, endpoint, payload, now, created).0;
    forall j <- q.rotation ensures j in q.peers && j in q'.peers && Credit(q'.peers[j]) == Credit(q.peers[j]) {
      assert Waiting(q, j);
      OfferEffect(q, key, endpoint, payload, now, created, j);
    }
  }

  lemma WaitSame(q: Queue, q': Queue, k: QueueKey, limit: nat)
    requires k in q.peers && k in q'.peers && Laps(q'.peers[k]) == Laps(q.peers[k])
    requires Ahead(q'.rotation, q'.peers, k) == Ahead(q.rotation, q.peers, k)
    ensures Wait(q', k, limit) == Wait(q, k, limit)
  {}

  lemma OfferWaits(q: ValidQueue, key: QueueKey, endpoint: SocketAddr, payload: Bytes, now: nat, created: nat,
                   k: QueueKey, limit: nat)
    requires Waiting(q, k)
    ensures NotFarther(q, Enqueue(q, key, endpoint, payload, now, created).0, k, limit)
  {
    var q' := Enqueue(q, key, endpoint, payload, now, created).0;
    OfferEffect(q, key, endpoint, payload, now, created, k);
    OfferCredits(q, key, endpoint, payload, now, created);
    AheadSame(q.rotation, q.peers, q'.peers, k);
    AheadAppend(q.rotation, q'.peers, k, key);
    WaitSame(q, q', k, limit);
  }

  lemma RerateWaits(q: ValidQueue, now: nat, k: QueueKey, limit: nat)
    requires Waiting(q, k)
    ensures NotFarther(q, SetRate(q, 0, now), k, limit)
  {
    var q' := SetRate(q, 0, now);
    forall j <- q.rotation ensures j in q.peers && j in q'.peers && Credit(q'.peers[j]) == Credit(q.peers[j]) {
      assert Waiting(q, j);
    }
    AheadSame(q.rotation, q.peers, q'.peers, k);
    WaitSame(q, q', k, limit);
  }

  /** A visit serves `k`, with what was waiting first, or brings it nearer; nothing else takes it farther. */
  lemma StepWaits(q: ValidQueue, e: Event, k: QueueKey, limit: nat)
    requires Modest(q, limit) && ModestEvent(e, limit) && Waiting(q, k)
    ensures var (q', f) := Step(q, e);
            || OutputBy(f, k) == [q.peers[k].packets[0]]
            || (OutputBy(f, k) == [] && (if e.Turn? then Nearer(q, q', k, limit) else NotFarther(q, q', k, limit)))
  {
    match e
    case Offer(key, endpoint, payload, now, created) => OfferWaits(q, key, endpoint, payload, now, created, k, limit);
    case Turn(at) => TurnWaits(q, at, k, limit);
    case Rerate(rate, now) => RerateWaits(q, now, k, limit);
  }

  lemma TurnWaits(q: ValidQueue, at: Readings, k: QueueKey, limit: nat)
    requires Modest(q, limit) && Waiting(q, k)
    ensures var (q', f) := Step(q, Turn(at));
            || OutputBy(f, k) == [q.peers[k].packets[0]]
            || (OutputBy(f, k) == [] && Nearer(q, q', k, limit))
  {
    assert k in q.rotation;
    ListedMeansQueued(q);
    var key := q.rotation[0];
    TurnEffect(key, q.peers[key], q.perPeerCapacity, at);
    if key != k {
      OthersVisit(q, at, k, limit);
    } else if !Visit(q, at).1.Sent? {
      OwnVisit(q, at, k, limit);
    }
  }

  /** After more visits than its wait, the datagram that was waiting first for `k` has left before any other of its. */
  lemma {:induction false} HeadLeaves(q: ValidQueue, events: seq<Event>, k: QueueKey, limit: nat)
    requires Modest(q, limit) && (forall e <- events :: ModestEvent(e, limit)) && Waiting(q, k)
    requires Visits(events) > Wait(q, k, limit)
    ensures var out := Output(Run(q, events).1, k); out != [] && out[0] == q.peers[k].packets[0]
    decreases |events|
  {
    var (mid, f) := Step(q, events[0]);
    var fs := Run(mid, events[1..]).1;
    assert events[0] in events && ([f] + fs)[1..] == fs;
    StepWaits(q, events[0], k, limit);
    if OutputBy(f, k) == [] {
      StepModest(q, events[0], limit);
      HeadLeaves(mid, events[1..], k, limit);
    }
  }

  /** Enough visits for any head of up to `limit` bytes. */
  function Enough(limit: nat): nat {
    (limit / DRR_QUANTUM + 2) * Circuit(limit)
  }

  lemma WaitAtMost(q: ValidQueue, k: QueueKey, limit: nat)
    requires Modest(q, limit) && Waiting(q, k)
    ensures Wait(q, k, limit) < Enough(limit)
  {
    AheadWithinCircuit(q, k, limit);
    var p := q.peers[k];
    assert p.packets[0] in p.packets;
    LapsAtMost(p, limit);
    LapsTimes(Laps(p), limit / DRR_QUANTUM + 1, Circuit(limit));
  }

  lemma LapsAtMost(p: PeerQueue, limit: nat)
    requires HeadSize(p) <= limit
    ensures Laps(p) <= limit / DRR_QUANTUM + 1
  {}

  lemma LapsTimes(laps: nat, most: nat, circuit: nat)
    requires laps <= most
    ensures laps * circuit <= most * circuit && (most + 1) * circuit == most * circuit + circuit
  {}

  lemma InitModest(capacity: nat, limit: nat)
    ensures Modest(NewQueue(capacity, 0), limit)
  {}

  /**
   No peer starves: in every run without shaping and with payloads of one byte to
   `limit`, the datagram waiting first for a peer leaves within a number of visits that
   depends on `limit` alone, whatever is offered to anyone meanwhile.
   */
  lemma NoneStarves(capacity: nat, earlier: seq<Event>, events: seq<Event>, k: QueueKey, limit: nat)
    requires (forall e <- earlier :: ModestEvent(e, limit)) && (forall e <- events :: ModestEvent(e, limit))
    requires Waiting(Run(NewQueue(capacity, 0), earlier).0, k) && Visits(events) >= Enough(limit)
    ensures var q := Run(NewQueue(capacity, 0), earlier).0;
            var out := Output(Run(q, events).1, k);
            out != [] && out[0] == q.peers[k].packets[0]
  {
    var q := Run(NewQueue(capacity, 0), earlier).0;
    InitModest(capacity, limit);
    RunModest(NewQueue(capacity, 0), earlier, limit);
    WaitAtMost(q, k, limit);
    HeadLeaves(q, events, k, limit);
  }

  // With empty payloads

  const GREEDY: QueueKey := Stable([0])
  const PATIENT: QueueKey := Stable([1])
  const NOWHERE: SocketAddr := SocketAddr(V4([]), 0)

  const NOTHING: Datagram := Stamp(GREEDY, NOWHERE, [], 0)
  const ONE_BYTE: Datagram := Stamp(PATIENT, NOWHERE, [0], 0)

  const EMPTY_OFFER: Event := Offer(GREEDY, NOWHERE, [], 0, 0)
  const VISIT: Event := Turn(Readings(0, 0, 0))

  /** `n` empty datagrams of the one, then in its round, and one byte of the other. */
  function Held(n: nat, inRound: bool): Queue {
    var greedy := PeerQueue(seq(n, _ => NOTHING), if inRound then DRR_QUANTUM else 0, inRound, None, 0);
    var patient := PeerQueue([ONE_BYTE], 0, false, None, 0);
    Init(4, 0).(peers := map[GREEDY := greedy, PATIENT := patient], rotation := [GREEDY, PATIENT], queued := n + 1)
  }

  /** Only the empty datagrams. */
  function Alone(n: nat): Queue {
    Init(4, 0).(peers := map[GREEDY := PeerQueue(seq(n, _ => NOTHING), 0, false, None, 0)], rotation := [GREEDY],
                queued := n)
  }

  lemma KeysDiffer()
    ensures GREEDY != PATIENT
  {
    assert [0 as u8][0] != [1 as u8][0];
  }

  lemma FirstOffer()
    ensures Enqueue(Init(4, 0), GREEDY, NOWHERE, [], 0, 0) == (Alone(1), true)
  {
    var p := Alone(1).peers[GREEDY];
    assert p.packets == [] + [NOTHING] && [] + [GREEDY] == [GREEDY];
    assert Retained(Init(4, 0).peers, 0)[GREEDY := p] == map[GREEDY := p];
  }

  lemma SecondOffer()
    ensures Enqueue(Alone(1), GREEDY, NOWHERE, [], 0, 0) == (Alone(2), true)
  {
    var p := Alone(2).peers[GREEDY];
    assert Retained(Alone(1).peers, 0) == Alone(1).peers;
    assert p.packets == Alone(1).peers[GREEDY].packets + [NOTHING];
    assert Alone(1).peers[GREEDY := p] == Alone(2).peers;
  }

  lemma PatientOffer()
    ensures Enqueue(Alone(2), PATIENT, NOWHERE, [0], 0, 0) == (Held(2, false), true)
  {
    KeysDiffer();
    var p := Held(2, false).peers[PATIENT];
    assert Retained(Alone(2).peers, 0) == Alone(2).peers;
    assert p.packets == [] + [ONE_BYTE] && [GREEDY] + [PATIENT] == [GREEDY, PATIENT];
    assert Alone(2).peers[PATIENT := p] == Held(2, false).peers;
  }

  lemma GreedyOffer()
    ensures Enqueue(Held(1, true), GREEDY, NOWHERE, [], 0, 0) == (Held(2, true), true)
  {
    KeysDiffer();
    var q := Held(1, true);
    var p := Held(2, true).peers[GREEDY];
    assert Retained(q.peers, 0) == q.peers;
    assert p.packets == q.peers[GREEDY].packets + [NOTHING];
    assert q.peers[GREEDY := p] == Held(2, true).peers;
  }

  lemma GreedyVisit(inRound: bool)
    ensures var (q, outcome) := Visit(Held(2, inRound), Readings(0, 0, 0));
            q == Held(1, true) && outcome.Sent? && outcome.key == GREEDY
  {
    KeysDiffer();
    var q := Held(2, inRound);
    var p := Held(1, true).peers[GREEDY];
    assert q.peers[GREEDY].packets[1..] == p.packets;
    assert PeerTurn(GREEDY, q.peers[GREEDY], Readings(0, 0, 0)).0 == p;
    assert q.peers[GREEDY := p] == Held(1, true).peers && [GREEDY] + q.rotation[1..] == q.rotation;
  }

  /** Offers of nothing, and a visit after each. */
  function Cycles(n: nat): seq<Event> {
    if n == 0 then [] else [EMPTY_OFFER, VISIT] + Cycles(n - 1)
  }

  const OPENING: seq<Event> := [EMPTY_OFFER, EMPTY_OFFER, Offer(PATIENT, NOWHERE, [0], 0, 0), VISIT]

  ghost predicate Moves(q: ValidQueue, e: Event, q': ValidQueue) {
    Step(q, e).0 == q' && OutputBy(Step(q, e).1, PATIENT) == []
  }

  lemma OfferMoves(q: ValidQueue, key: QueueKey, payload: Bytes, q': Queue)
    requires Enqueue(q, key, NOWHERE, payload, 0, 0) == (q', true)
    ensures Valid(q') && Moves(q, Offer(key, NOWHERE, payload, 0, 0), q')
  {
    EnqueueKeepsValid(q, key, NOWHERE, payload, 0, 0);
  }

  lemma VisitMoves(q: ValidQueue, q': Queue)
    requires FrontReady(q) && Visit(q, Readings(0, 0, 0)).0 == q'
    requires Visit(q, Readings(0, 0, 0)).1.Sent? && Visit(q, Readings(0, 0, 0)).1.key == GREEDY
    ensures Valid(q') && Moves(q, VISIT, q')
  {
    VisitKeepsValid(q, Readings(0, 0, 0));
    KeysDiffer();
  }

  lemma OpeningMoves()
    ensures Valid(Init(4, 0)) && Valid(Alone(1)) && Valid(Alone(2)) && Valid(Held(2, false)) && Valid(Held(1, true))
    ensures Moves(Init(4, 0), EMPTY_OFFER, Alone(1)) && Moves(Alone(1), EMPTY_OFFER, Alone(2))
    ensures Moves(Alone(2), OPENING[2], Held(2, false)) && Moves(Held(2, false), VISIT, Held(1, true))
  {
    InitValid(4, 0);
    FirstOffer();
    OfferMoves(Init(4, 0), GREEDY, [], Alone(1));
    SecondOffer();
    OfferMoves(Alone(1), GREEDY, [], Alone(2));
    PatientOffer();
    OfferMoves(Alone(2), PATIENT, [0], Held(2, false));
    ListedMeansQueued(Held(2, false));
    GreedyVisit(false);
    VisitMoves(Held(2, false), Held(1, true));
  }

  lemma CycleMoves()
    ensures Valid(Held(1, true)) && Valid(Held(2, true))
    ensures Moves(Held(1, true), EMPTY_OFFER, Held(2, true)) && Moves(Held(2, true), VISIT, Held(1, true))
  {
    OpeningMoves();
    GreedyOffer();
    OfferMoves(Held(1, true), GREEDY, [], Held(2, true));
    ListedMeansQueued(Held(2, true));
    GreedyVisit(true);
    VisitMoves(Held(2, true), Held(1, true));
  }

  lemma MoveFirst(q: ValidQueue, e: Event, q': ValidQueue, rest: seq<Event>)
    requires Moves(q, e, q')
    ensures Run(q, [e] + rest).0 == Run(q', rest).0
    ensures Output(Run(q, [e] + rest).1, PATIENT) == Output(Run(q', rest).1, PATIENT)
  {
    var f, fs := Step(q, e).1, Run(q', rest).1;
    assert ([e] + rest)[1..] == rest && ([f] + fs)[1..] == fs;
    assert [] + Output(fs, PATIENT) == Output(fs, PATIENT);
  }

  lemma OpeningLeads(a: ValidQueue, b: ValidQueue, c: ValidQueue, d: ValidQueue, e: ValidQueue)
    requires Moves(a, EMPTY_OFFER, b) && Moves(b, EMPTY_OFFER, c) && Moves(c, OPENING[2], d) && Moves(d, VISIT, e)
    ensures Run(a, OPENING).0 == e
  {
    assert OPENING == [EMPTY_OFFER] + ([EMPTY_OFFER] + ([OPENING[2]] + ([VISIT] + [])));
    MoveFirst(a, EMPTY_OFFER, b, [EMPTY_OFFER] + ([OPENING[2]] + ([VISIT] + [])));
    MoveFirst(b, EMPTY_OFFER, c, [OPENING[2]] + ([VISIT] + []));
    MoveFirst(c, OPENING[2], d, [VISIT] + []);
    MoveFirst(d, VISIT, e, []);
  }

  lemma OneCycle(q: ValidQueue, fuller: ValidQueue, rest: seq<Event>)
    requires Moves(q, EMPTY_OFFER, fuller) && Moves(fuller, VISIT, q)
    ensures Output(Run(q, [EMPTY_OFFER] + ([VISIT] + rest)).1, PATIENT) == Output(Run(q, rest).1, PATIENT)
  {
    MoveFirst(q, EMPTY_OFFER, fuller, [VISIT] + rest);
    MoveFirst(fuller, VISIT, q, rest);
  }

  lemma CyclesUnfold(n: nat)
    requires n > 0
    ensures Cycles(n) == [EMPTY_OFFER] + ([VISIT] + Cycles(n - 1)) && Visits(Cycles(n)) == 1 + Visits(Cycles(n - 1))
  {
    assert Cycles(n) == [EMPTY_OFFER] + ([VISIT] + Cycles(n - 1));
    assert Cycles(n)[1..] == [VISIT] + Cycles(n - 1) && Cycles(n)[1..][1..] == Cycles(n - 1);
  }

  lemma {:induction false} CyclesVisit(n: nat)
    ensures Visits(Cycles(n)) == n
  {
    if n > 0 {
      CyclesVisit(n - 1);
      CyclesUnfold(n);
    }
  }

  /** Nothing of `events` is for the patient peer. */
  ghost predicate Passed(q: ValidQueue, events: seq<Event>) {
    Output(Run(q, events).1, PATIENT) == []
  }

  /** What holds of no cycles, and of one more whenever it holds, holds of all of them. */
  lemma {:induction false} CyclesAll(p: seq<Event> -> bool, n: nat)
    requires p([]) && forall rest | p(rest) :: p([EMPTY_OFFER] + ([VISIT] + rest))
    ensures p(Cycles(n))
  {
    if n > 0 {
      CyclesAll(p, n - 1);
      CyclesUnfold(n);
    }
  }

  lemma CyclesServeNoOther(q: ValidQueue, fuller: ValidQueue, n: nat)
    requires Moves(q, EMPTY_OFFER, fuller) && Moves(fuller, VISIT, q)
    ensures Visits(Cycles(n)) == n && Passed(q, Cycles(n))
  {
    forall rest | Passed(q, rest) ensures Passed(q, [EMPTY_OFFER] + ([VISIT] + rest)) {
      OneCycle(q, fuller, rest);
    }
    CyclesAll(events => Passed(q, events), n);
    CyclesVisit(n);
  }

  /**
   With empty payloads a peer can starve: from a new queue, one peer that is offered
   nothing but empty datagrams, one before each visit, keeps the front for any number of
   visits while another waits with a single byte.
   */
  lemma EmptyPayloadsStarve(n: nat)
    ensures Valid(Init(4, 0))
    ensures var q := Run(Init(4, 0), OPENING).0;
            && Waiting(q, PATIENT) && HeadSize(q.peers[PATIENT]) == 1
            && Visits(Cycles(n)) == n && Output(Run(q, Cycles(n)).1, PATIENT) == []
  {
    OpeningMoves();
    CycleMoves();
    KeysDiffer();
    OpeningLeads(Init(4, 0), Alone(1), Alone(2), Held(2, false), Held(1, true));
    CyclesServeNoOther(Held(1, true), Held(2, true), n);
  }
}
