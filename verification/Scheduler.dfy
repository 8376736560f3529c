/**
 The outbound queue: per-peer FIFO queues served by deficit round robin, each
 with an optional token bucket. One value of `Queue` is everything the mutex
 guards together with the queue's own settings.
 */
module Scheduler {
  import opened Basics
  import opened Net
  import TB = TokenBucket

  const DRR_QUANTUM: nat := 1500
  const MAX_PEER_QUEUE: nat := 256
  const MAX_TRACKED_PEERS: nat := 8192

  datatype QueueKey = Endpoint(address: SocketAddr) | Stable(key: seq<u8>)

  /** A queued datagram; its queueing delay is filled in as it leaves, see `Sent`. */
  datatype Datagram = Datagram(
    peer: SocketAddr,
    payload: Bytes,
    peerKey: Option<seq<u8>>,
    enqueuedAt: nat)

  datatype PeerQueue = PeerQueue(
    packets: seq<Datagram>,
    deficit: nat,
    inRound: bool,
    bucket: Option<TB.Bucket>,
    lastActivity: nat)

  datatype Queue = Queue(
    capacity: nat,
    perPeerCapacity: nat,
    rate: u64,
    peers: map<QueueKey, PeerQueue>,
    rotation: seq<QueueKey>,
    queued: nat)

  function Init(capacity: nat, rate: u64): Queue {
    var c := Max(capacity, 1);
    Queue(c, Min(c, MAX_PEER_QUEUE), rate, map[], [], 0)
  }

  function NewPeer(rate: u64, now: nat): PeerQueue {
    PeerQueue([], 0, false, if rate == 0 then None else Some(TB.New(rate, now)), now)
  }

  function SetRate(q: Queue, rate: u64, now: nat): Queue {
    q.(rate := rate, peers := map k | k in q.peers :: Rerated(q.peers[k], rate, now))
  }

  function Rerated(p: PeerQueue, rate: u64, now: nat): PeerQueue {
    if rate == 0 then p.(bucket := None)
    else if p.bucket.Some? then p.(bucket := Some(TB.SetRate(p.bucket.value, rate, now)))
    else p.(bucket := Some(TB.New(rate, now)))
  }

  /** Peers that hold packets, or did something within the last second. */
  function Retained(peers: map<QueueKey, PeerQueue>, now: nat): map<QueueKey, PeerQueue> {
    map k | k in peers && (peers[k].packets != [] || now < peers[k].lastActivity + NANOS_PER_SEC) :: peers[k]
  }

  function Stamp(key: QueueKey, endpoint: SocketAddr, payload: Bytes, now: nat): Datagram {
    Datagram(endpoint, payload, if key.Stable? then Some(key.key) else None, now)
  }

  /**
   The queue after an offer, and whether the datagram was taken; refusal is back-pressure.
   A peer not tracked reads the clock once more when it is created.
   */
  function Enqueue(q: Queue, key: QueueKey, endpoint: SocketAddr, payload: Bytes, now: nat, created: nat): (Queue, bool)
  {
    var peers := Retained(q.peers, now);
    if q.queued >= q.capacity || (key !in peers && |peers| >= MAX_TRACKED_PEERS) then
      (q.(peers := peers), false)
    else
      var p := if key in peers then peers[key] else NewPeer(q.rate, created);
      if |p.packets| >= q.perPeerCapacity then (q.(peers := peers[key := p]), false)
      else
        var p' := p.(packets := p.packets + [Stamp(key, endpoint, payload, now)], lastActivity := now);
        (q.(peers := peers[key := p'],
            rotation := if p.packets == [] then q.rotation + [key] else q.rotation,
            queued := q.queued + 1),
         true)
  }

  /** What one visit to the peer at the front of the rotation comes to. */
  datatype Outcome =
    | Skipped
    | Yielded
    | Delayed(wait: nat)
    | Sent(key: QueueKey, datagram: Datagram, queueDelay: nat)

  function Granted(p: PeerQueue): PeerQueue {
    if p.inRound then p
    else p.(deficit := Min(p.deficit + DRR_QUANTUM, USIZE_MAX), inRound := true)
  }

  function HeadSize(p: PeerQueue): u64 {
    if p.packets == [] then 0 else |p.packets[0].payload|
  }

  /** The bucket after `bytes` were asked of it, and the wait if it refused. */
  function Charge(bucket: Option<TB.Bucket>, now: nat, bytes: u64): (Option<TB.Bucket>, Option<nat>)
    requires bucket.Some? ==> bucket.value.rate > 0
  {
    if bucket.None? then (None, None)
    else
      var (after, result) := TB.ConsumeOrDelay(bucket.value, now, bytes);
      (Some(after), if result.Ok? then None else Some(result.error))
  }

  function Departure(key: QueueKey, d: Datagram, now: nat): Outcome {
    Sent(key, d, if now >= d.enqueuedAt then now - d.enqueuedAt else 0)
  }

  /** The clock as one visit reads it: for the bucket, for the queueing delay, for the last activity. */
  datatype Readings = Readings(charge: nat, depart: nat, active: nat)

  /**
   One peer's turn: its quantum unless it is still in a round, then its head against
   the deficit and the bucket. It stays in the round while the next head still fits.
   */
  function PeerTurn(key: QueueKey, p: PeerQueue, now: Readings): (PeerQueue, Outcome)
    requires p.bucket.Some? ==> p.bucket.value.rate > 0
  {
    var g := Granted(p);
    var size := HeadSize(g);
    if size > g.deficit then (g.(inRound := false), Yielded)
    else
      var (bucket, wait) := Charge(g.bucket, now.charge, size);
      if wait.Some? then (g.(inRound := false, bucket := bucket), Delayed(wait.value))
      else if |g.packets| <= 1 then
        (PeerQueue([], 0, false, bucket, now.active),
         if g.packets == [] then Skipped else Departure(key, g.packets[0], now.depart))
      else
        var deficit := g.deficit - size;
        (PeerQueue(g.packets[1..], deficit, |g.packets[1].payload| <= deficit, bucket, now.active),
         Departure(key, g.packets[0], now.depart))
  }

  predicate RatesPositive(q: Queue) {
    forall k <- q.peers :: q.peers[k].bucket.Some? ==> q.peers[k].bucket.value.rate > 0
  }

  /**
   The front peer put back after its turn. Left without packets it drops out of the
   rotation, and out of the table too unless a bucket must be remembered; still in its
   round it keeps the front; otherwise it goes to the back.
   */
  function Replaced(q: Queue, p: PeerQueue, sent: bool): Queue
    requires q.rotation != [] && (sent ==> q.queued > 0)
  {
    var key, rest := q.rotation[0], q.rotation[1..];
    q.(peers := if p.packets == [] && p.bucket.None? then q.peers - {key} else q.peers[key := p],
       rotation := if p.packets == [] then rest else if p.inRound then [key] + rest else rest + [key],
       queued := if sent then q.queued - 1 else q.queued)
  }

  /** A visit to the front of the rotation. */
  function Visit(q: Queue, now: Readings): (Queue, Outcome)
    requires q.rotation != [] && q.queued > 0 && RatesPositive(q)
  {
    var key := q.rotation[0];
    if key !in q.peers then (q.(rotation := q.rotation[1..]), Skipped)
    else
      var (p, outcome) := PeerTurn(key, q.peers[key], now);
      (Replaced(q, p, outcome.Sent?), outcome)
  }

  // The invariant of every reachable queue.

  ghost predicate NoDuplicates(keys: seq<QueueKey>) {
    forall i, j | 0 <= i < j < |keys| :: keys[i] != keys[j]
  }

  /** Datagrams queued for the peers that `keys` lists. */
  function Queued(keys: seq<QueueKey>, peers: map<QueueKey, PeerQueue>): nat {
    if keys == [] then 0
    else (if keys[0] in peers then |peers[keys[0]].packets| else 0) + Queued(keys[1..], peers)
  }

  ghost predicate PeerValid(p: PeerQueue, limit: nat) {
    && |p.packets| <= limit
    && (p.packets == [] ==> p.deficit == 0 && !p.inRound)
    && (p.inRound ==> HeadSize(p) <= p.deficit)
    && (p.bucket.Some? ==> TB.Valid(p.bucket.value) && p.bucket.value.rate > 0)
  }

  ghost predicate WithinBounds(q: Queue) {
    && 1 <= q.perPeerCapacity <= Min(q.capacity, MAX_PEER_QUEUE)
    && q.queued <= q.capacity
    && |q.peers| <= MAX_TRACKED_PEERS
  }

  ghost predicate Waiting(q: Queue, k: QueueKey) {
    k in q.peers && q.peers[k].packets != []
  }

  /** The rotation lists each peer with packets exactly once and no other, and only its front is in a round. */
  ghost predicate RotationExact(q: Queue) {
    && NoDuplicates(q.rotation)
    && (forall k <- q.rotation :: Waiting(q, k))
    && (forall k <- q.peers :: q.peers[k].packets != [] ==> k in q.rotation)
    && (forall k <- q.peers :: q.peers[k].inRound ==> q.rotation != [] && q.rotation[0] == k)
  }

  ghost predicate PeersValid(q: Queue) {
    forall k <- q.peers :: PeerValid(q.peers[k], q.perPeerCapacity)
  }

  ghost predicate Counted(q: Queue) {
    q.queued == Queued(q.rotation, q.peers)
  }

  ghost predicate Valid(q: Queue) {
    WithinBounds(q) && RotationExact(q) && PeersValid(q) && Counted(q)
  }
}
