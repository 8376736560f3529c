/**
 Every operation of the outbound queue keeps its invariant: the rotation lists
 each waiting peer exactly once, the counters equal what is held, and the
 capacity bounds stand.
 */
module SchedulerInvariant {
  import opened Basics
  import opened Net
  import opened Scheduler
  import TB = TokenBucket

  lemma {:induction false} QueuedSame(keys: seq<QueueKey>, a: map<QueueKey, PeerQueue>, b: map<QueueKey, PeerQueue>)
    requires forall k <- keys :: k in a && k in b && |a[k].packets| == |b[k].packets|
    ensures Queued(keys, a) == Queued(keys, b)
  {
    if keys != [] {
      QueuedSame(keys[1..], a, b);
    }
  }

  lemma {:induction false} QueuedJoin(keys: seq<QueueKey>, more: seq<QueueKey>, peers: map<QueueKey, PeerQueue>)
    ensures Queued(keys + more, peers) == Queued(keys, peers) + Queued(more, peers)
  {
    if keys == [] {
      assert keys + more == more;
    } else {
      QueuedJoin(keys[1..], more, peers);
      assert (keys + more)[1..] == keys[1..] + more;
    }
  }

  /** Replacing the queue of one listed peer shifts the total by the change in that queue. */
  lemma {:induction false} QueuedUpdate(keys: seq<QueueKey>, peers: map<QueueKey, PeerQueue>, k: QueueKey, p: PeerQueue)
    requires NoDuplicates(keys) && k in peers && forall j <- keys :: j in peers
    ensures Queued(keys, peers[k := p])
            == Queued(keys, peers) + if k in keys then |p.packets| - |peers[k].packets| else 0
  {
    if keys != [] {
      QueuedUpdate(keys[1..], peers, k, p);
    }
  }

  lemma InitValid(capacity: nat, rate: u64)
    ensures Valid(Init(capacity, rate))
  {}

  lemma SetRateRotation(q: Queue, rate: u64, now: nat)
    requires RotationExact(q)
    ensures RotationExact(SetRate(q, rate, now))
    ensures Queued(q.rotation, SetRate(q, rate, now).peers) == Queued(q.rotation, q.peers)
  {
    var q' := SetRate(q, rate, now);
    forall k | k in q.rotation ensures Waiting(q, k) && Waiting(q', k) && q.peers[k].packets == q'.peers[k].packets {
      assert Waiting(q, k);
    }
    QueuedSame(q.rotation, q.peers, q'.peers);
  }

  lemma SetRateKeepsValid(q: Queue, rate: u64, now: nat)
    requires Valid(q)
    ensures Valid(SetRate(q, rate, now))
  {
    var q' := SetRate(q, rate, now);
    assert q'.peers.Keys == q.peers.Keys;
    assert |q'.peers.Keys| == |q.peers.Keys|;
    forall k | k in q'.peers ensures PeerValid(q'.peers[k], q.perPeerCapacity) {
      assert PeerValid(q.peers[k], q.perPeerCapacity);
    }
    SetRateRotation(q, rate, now);
  }

  lemma RetainedKeepsValid(q: Queue, now: nat)
    requires Valid(q)
    ensures Valid(q.(peers := Retained(q.peers, now)))
  {
    var q' := q.(peers := Retained(q.peers, now));
    forall k | k in q.rotation ensures Waiting(q', k) && Waiting(q, k) {
      assert Waiting(q, k);
    }
    assert q'.peers.Keys <= q.peers.Keys;
    SubsetSize(q'.peers.Keys, q.peers.Keys);
    QueuedSame(q.rotation, q.peers, q'.peers);
  }

  lemma PutRotation(q: Queue, key: QueueKey, p: PeerQueue, rotation: seq<QueueKey>, queued: nat)
    requires RotationExact(q)
    requires p.inRound ==> key in q.peers && q.peers[key].inRound
    requires Waiting(q, key) ==> p.packets != []
    requires rotation == if !Waiting(q, key) && p.packets != [] then q.rotation + [key] else q.rotation
    ensures RotationExact(q.(peers := q.peers[key := p], rotation := rotation, queued := queued))
  {
    var q' := q.(peers := q.peers[key := p], rotation := rotation, queued := queued);
    forall k | k in q'.rotation ensures Waiting(q', k) {
      if k in q.rotation {
        assert Waiting(q, k);
      }
    }
  }

  lemma PutSize(peers: map<QueueKey, PeerQueue>, key: QueueKey, p: PeerQueue)
    ensures |peers[key := p]| == |peers| + if key in peers then 0 else 1
  {
    var peers' := peers[key := p];
    assert peers'.Keys == peers.Keys + {key};
    assert |peers'.Keys| == |peers.Keys| + if key in peers then 0 else 1;
  }

  lemma AppendCount(q: Queue, key: QueueKey, p: PeerQueue, p': PeerQueue)
    requires RotationExact(q) && Counted(q)
    requires if key in q.peers then p == q.peers[key] else p.packets == []
    requires |p'.packets| == |p.packets| + 1
    ensures Queued(if p.packets == [] then q.rotation + [key] else q.rotation, q.peers[key := p']) == q.queued + 1
  {
    var peers' := q.peers[key := p'];
    assert forall j <- q.rotation :: Waiting(q, j);
    if p.packets == [] {
      assert !Waiting(q, key);
      assert key !in q.rotation;
      QueuedSame(q.rotation, q.peers, peers');
      QueuedJoin(q.rotation, [key], peers');
      assert [key][1..] == [];
    } else {
      assert key in q.rotation;
      QueuedUpdate(q.rotation, q.peers, key, p');
    }
  }

  lemma EnqueueKeepsValid(q: Queue, key: QueueKey, endpoint: SocketAddr, payload: Bytes, now: nat, created: nat)
    requires Valid(q)
    ensures Valid(Enqueue(q, key, endpoint, payload, now, created).0)
  {
    RetainedKeepsValid(q, now);
    var r := q.(peers := Retained(q.peers, now));
    if q.queued < q.capacity && (key in r.peers || |r.peers| < MAX_TRACKED_PEERS) {
      var p := if key in r.peers then r.peers[key] else NewPeer(q.rate, created);
      assert PeerValid(p, q.perPeerCapacity);
      if |p.packets| >= q.perPeerCapacity {
        assert r.peers[key := p] == r.peers;
      } else {
        AppendKeepsValid(r, key, p, Stamp(key, endpoint, payload, now), now);
      }
    }
  }

  lemma AppendKeepsValid(q: Queue, key: QueueKey, p: PeerQueue, d: Datagram, now: nat)
    requires Valid(q) && q.queued < q.capacity
    requires if key in q.peers then p == q.peers[key] else |q.peers| < MAX_TRACKED_PEERS && p.packets == []
    requires PeerValid(p, q.perPeerCapacity) && |p.packets| < q.perPeerCapacity
    ensures Valid(q.(peers := q.peers[key := p.(packets := p.packets + [d], lastActivity := now)],
                     rotation := if p.packets == [] then q.rotation + [key] else q.rotation,
                     queued := q.queued + 1))
  {
    var p' := p.(packets := p.packets + [d], lastActivity := now);
    LongerPeerValid(p, p', q.perPeerCapacity);
    PutSize(q.peers, key, p');
    AppendCount(q, key, p, p');
    PutRotation(q, key, p', if p.packets == [] then q.rotation + [key] else q.rotation, q.queued + 1);
  }

  lemma LongerPeerValid(p: PeerQueue, p': PeerQueue, limit: nat)
    requires PeerValid(p, limit) && |p.packets| < limit && |p'.packets| == |p.packets| + 1
    requires p'.packets[..|p.packets|] == p.packets
    requires (p'.deficit, p'.inRound, p'.bucket) == (p.deficit, p.inRound, p.bucket)
    ensures PeerValid(p', limit)
  {
    if p.packets != [] {
      assert p'.packets[0] == p'.packets[..|p.packets|][0];
    }
  }

  /** A listed peer means a queued datagram, so the counter never underflows. */
  lemma ListedMeansQueued(q: Queue)
    requires Valid(q) && q.rotation != []
    ensures FrontReady(q)
  {
    assert q.rotation[0] in q.rotation;
    assert Waiting(q, q.rotation[0]);
    forall k | k in q.peers ensures q.peers[k].bucket.Some? ==> q.peers[k].bucket.value.rate > 0 {
      assert PeerValid(q.peers[k], q.perPeerCapacity);
    }
  }

  lemma RotatedKeepsMembers(rotation: seq<QueueKey>)
    requires rotation != [] && NoDuplicates(rotation)
    ensures NoDuplicates(rotation[1..] + [rotation[0]]) && NoDuplicates(rotation[1..])
    ensures rotation[0] !in rotation[1..]
    ensures forall k :: k in rotation <==> k == rotation[0] || k in rotation[1..]
  {
    assert rotation == [rotation[0]] + rotation[1..];
  }

  lemma ChargeKeepsBucket(bucket: Option<TB.Bucket>, now: nat, bytes: u64)
    requires bucket.Some? ==> TB.Valid(bucket.value) && bucket.value.rate > 0
    ensures var (after, wait) := Charge(bucket, now, bytes);
            && after.Some? == bucket.Some?
            && (after.Some? ==> TB.Valid(after.value) && after.value.rate == bucket.value.rate)
  {}

  lemma FrontRotation(q: Queue, p: PeerQueue, rotation: seq<QueueKey>, queued: nat)
    requires RotationExact(q) && q.rotation != []
    requires var key, rest := q.rotation[0], q.rotation[1..];
             if p.packets == [] then rotation == rest && !p.inRound
             else (rotation == rest + [key] && !p.inRound) || rotation == q.rotation
    ensures RotationExact(q.(peers := q.peers[q.rotation[0] := p], rotation := rotation, queued := queued))
  {
    RotatedKeepsMembers(q.rotation);
    var q' := q.(peers := q.peers[q.rotation[0] := p], rotation := rotation, queued := queued);
    forall k | k in q'.rotation ensures Waiting(q', k) {
      assert k in q.rotation;
      assert Waiting(q, k);
    }
  }

  lemma FrontCount(q: Queue, key: QueueKey, p: PeerQueue, rotation: seq<QueueKey>)
    requires RotationExact(q) && Counted(q) && q.rotation != [] && key == q.rotation[0] && key in q.peers
    requires var rest := q.rotation[1..];
             (p.packets == [] && rotation == rest) || rotation == rest + [key] || rotation == q.rotation
    ensures Queued(rotation, q.peers[key := p]) == q.queued - |q.peers[key].packets| + |p.packets|
  {
    var rest, peers' := q.rotation[1..], q.peers[key := p];
    RotatedKeepsMembers(q.rotation);
    assert forall j <- q.rotation :: Waiting(q, j);
    QueuedUpdate(q.rotation, q.peers, key, p);
    QueuedJoin(rest, [key], peers');
    assert [key][1..] == [];
  }

  /** Putting the front peer's new state back, at the front, at the back or not at all. */
  lemma FrontKeepsValid(q: Queue, key: QueueKey, p: PeerQueue, rotation: seq<QueueKey>, queued: nat)
    requires Valid(q) && q.rotation != [] && key == q.rotation[0] && key in q.peers
    requires PeerValid(p, q.perPeerCapacity)
    requires queued == q.queued - |q.peers[key].packets| + |p.packets| && queued <= q.queued
    requires var rest := q.rotation[1..];
             if p.packets == [] then rotation == rest && !p.inRound
             else (rotation == rest + [key] && !p.inRound) || rotation == q.rotation
    ensures Valid(q.(peers := q.peers[key := p], rotation := rotation, queued := queued))
  {
    PutSize(q.peers, key, p);
    FrontRotation(q, p, rotation, queued);
    FrontCount(q, key, p, rotation);
  }

  /** The front peer leaves the table with its last datagram. */
  lemma FrontLeavesValid(q: Queue, key: QueueKey)
    requires Valid(q) && q.rotation != [] && key == q.rotation[0] && key in q.peers
    requires |q.peers[key].packets| == 1
    ensures q.queued > 0
    ensures Valid(q.(peers := q.peers - {key}, rotation := q.rotation[1..], queued := q.queued - 1))
  {
    ListedMeansQueued(q);
    RotatedKeepsMembers(q.rotation);
    SubsetSize((q.peers - {key}).Keys, q.peers.Keys);
    var q' := q.(peers := q.peers - {key}, rotation := q.rotation[1..], queued := q.queued - 1);
    forall k | k in q'.rotation ensures Waiting(q', k) && Waiting(q, k) {
      assert k in q.rotation;
    }
    QueuedSame(q.rotation[1..], q.peers, q'.peers);
  }

  ghost predicate FrontReady(q: Queue) {
    q.rotation != [] && q.queued > 0 && RatesPositive(q) && Waiting(q, q.rotation[0])
  }

  /** A turn takes at most the head packet, and only with a `Sent` outcome. */
  lemma TurnEffect(key: QueueKey, p: PeerQueue, limit: nat, now: Readings)
    requires PeerValid(p, limit) && p.packets != []
    ensures var (p', outcome) := PeerTurn(key, p, now);
            && PeerValid(p', limit) && !outcome.Skipped?
            && p'.bucket.Some? == p.bucket.Some?
            && (p'.bucket.Some? ==> p'.bucket.value.capacity == p.bucket.value.capacity)
            && (if outcome.Sent? then
                  outcome.key == key && outcome.datagram == p.packets[0] && p'.packets == p.packets[1..]
                else
                  p' == Granted(p).(inRound := false, bucket := p'.bucket))
  {
    ChargeKeepsBucket(p.bucket, now.charge, HeadSize(p));
  }

  lemma VisitKeepsValid(q: Queue, now: Readings)
    requires Valid(q) && q.rotation != []
    ensures FrontReady(q)
    ensures Valid(Visit(q, now).0)
  {
    assert q.rotation == [q.rotation[0]] + q.rotation[1..];
    ListedMeansQueued(q);
    var key, rest := q.rotation[0], q.rotation[1..];
    TurnEffect(key, q.peers[key], q.perPeerCapacity, now);
    var (p, outcome) := PeerTurn(key, q.peers[key], now);
    if p.packets == [] && p.bucket.None? {
      FrontLeavesValid(q, key);
    } else {
      FrontKeepsValid(q, key, p,
                      if p.packets == [] then rest else if p.inRound then q.rotation else rest + [key],
                      if outcome.Sent? then q.queued - 1 else q.queued);
    }
  }

  /** Datagrams held by the peers of `keys`, counted peer by peer. */
  ghost function Held(keys: set<QueueKey>, peers: map<QueueKey, PeerQueue>): nat
    requires keys <= peers.Keys
  {
    if keys == {} then 0
    else
      var k :| k in keys;
      |peers[k].packets| + Held(keys - {k}, peers)
  }

  lemma {:induction false} HeldPick(keys: set<QueueKey>, peers: map<QueueKey, PeerQueue>, k: QueueKey)
    requires keys <= peers.Keys && k in keys
    ensures Held(keys, peers) == |peers[k].packets| + Held(keys - {k}, peers)
  {
    var c :| c in keys && Held(keys, peers) == |peers[c].packets| + Held(keys - {c}, peers);
    if c != k {
      HeldPick(keys - {c}, peers, k);
      HeldPick(keys - {k}, peers, c);
      assert keys - {c} - {k} == keys - {k} - {c};
    }
  }

  lemma {:induction false} HeldIsQueued(rotation: seq<QueueKey>, keys: set<QueueKey>, peers: map<QueueKey, PeerQueue>)
    requires NoDuplicates(rotation) && keys <= peers.Keys
    requires forall k <- rotation :: k in keys
    requires forall k <- keys :: peers[k].packets != [] ==> k in rotation
    ensures Held(keys, peers) == Queued(rotation, peers)
    decreases |keys|
  {
    if rotation != [] {
      HeldPick(keys, peers, rotation[0]);
      RotatedKeepsMembers(rotation);
      HeldIsQueued(rotation[1..], keys - {rotation[0]}, peers);
    } else if keys != {} {
      var k :| k in keys;
      HeldPick(keys, peers, k);
      HeldIsQueued(rotation, keys - {k}, peers);
    }
  }

  /** The queue's counter is the number of datagrams held by all peers together. */
  lemma CounterIsTrueTotal(q: Queue)
    requires Valid(q)
    ensures q.queued == Held(q.peers.Keys, q.peers)
  {
    forall k | k in q.rotation ensures k in q.peers.Keys {
      assert Waiting(q, k);
    }
    HeldIsQueued(q.rotation, q.peers.Keys, q.peers);
  }

  type ValidQueue = q: Queue | Valid(q) ghost witness (InitValid(1, 0); Init(1, 0))

  ghost function Enqueued(q: ValidQueue, key: QueueKey, endpoint: SocketAddr, payload: Bytes, now: nat, created: nat)
    : ValidQueue
  {
    EnqueueKeepsValid(q, key, endpoint, payload, now, created);
    Enqueue(q, key, endpoint, payload, now, created).0
  }
}
