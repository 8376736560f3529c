/**
 The outbound queue as the program runs it: fields changed in place under one
 lock. Each method is proved against the value model of `Scheduler`, whose runs
 carry the fairness, progress and conservation results.
 */
module OutboundQueue {
  import opened Basics
  import opened Net
  import opened Scheduler
  import opened SchedulerInvariant
  import opened SchedulerScan
  import TB = TokenBucket

  datatype TransportError = Backpressure

  class OutboundQueue {
    const capacity: nat
    const perPeerCapacity: nat
    var rate: u64
    /** The counter that `queued_len` reads without the lock. */
    var gauge: nat
    var peers: map<QueueKey, PeerQueue>
    var rotation: seq<QueueKey>
    var queued: nat

    /** The same state as one value, which its type keeps valid. */
    ghost var model: ValidQueue

    ghost function State(): Queue
      reads this
    {
      Queue(capacity, perPeerCapacity, rate, peers, rotation, queued)
    }

    ghost predicate Valid()
      reads this
    {
      State() == model && gauge == queued
    }

    constructor (capacity: nat, rate: u64)
      ensures Valid() && State() == Init(capacity, rate)
    {
      var c := Max(capacity, 1);
      this.capacity := c;
      this.perPeerCapacity := Min(c, MAX_PEER_QUEUE);
      this.rate := rate;
      gauge := 0;
      peers := map[];
      rotation := [];
      queued := 0;
      InitValid(capacity, rate);
      model := Init(capacity, rate);
    }

    method SetRateBytesPerSec(newRate: u64, now: nat)
      requires Valid()
      modifies this
      ensures Valid() && State() == SetRate(old(State()), newRate, now)
    {
      var updated := RerateAll(peers, newRate, now);
      SetRateKeepsValid(model, newRate, now);
      rate, peers, model := newRate, updated, SetRate(model, newRate, now);
    }

    static method RerateAll(peers: map<QueueKey, PeerQueue>, rate: u64, now: nat)
      returns (updated: map<QueueKey, PeerQueue>)
      ensures updated == map k | k in peers :: Rerated(peers[k], rate, now)
    {
      updated := peers;
      var todo := peers.Keys;
      while todo != {}
        invariant todo <= updated.Keys == peers.Keys
        invariant forall k <- peers :: updated[k] == if k in todo then peers[k] else Rerated(peers[k], rate, now)
        decreases |todo|
      {
        var k :| k in todo;
        var p := updated[k];
        if rate == 0 {
          p := p.(bucket := None);
        } else if p.bucket.Some? {
          p := p.(bucket := Some(TB.SetRate(p.bucket.value, rate, now)));
        } else {
          p := p.(bucket := Some(TB.New(rate, now)));
        }
        updated := updated[k := p];
        todo := todo - {k};
      }
    }

    method TryEnqueueKeyed(key: QueueKey, endpoint: SocketAddr, payload: Bytes, now: nat, created: nat)
      returns (r: Result<(), TransportError>)
      requires Valid()
      modifies this
      ensures Valid()
      ensures State() == Enqueue(old(State()), key, endpoint, payload, now, created).0
      ensures r == if Enqueue(old(State()), key, endpoint, payload, now, created).1 then Ok(()) else Err(Backpressure)
    {
      ghost var next := Enqueued(model, key, endpoint, payload, now, created);
      var tracked := Retained(peers, now);
      if queued >= capacity || (key !in tracked && |tracked| >= MAX_TRACKED_PEERS) {
        peers, model := tracked, next;
        return Err(Backpressure);
      }
      var p := if key in tracked then tracked[key] else NewPeer(rate, created);
      if |p.packets| >= perPeerCapacity {
        peers, model := tracked[key := p], next;
        return Err(Backpressure);
      }
      var listed := if p.packets == [] then rotation + [key] else rotation;
      p := p.(packets := p.packets + [Stamp(key, endpoint, payload, now)], lastActivity := now);
      peers, rotation, queued, gauge, model := tracked[key := p], listed, queued + 1, gauge + 1, next;
      return Ok(());
    }

    /** What the scan does to the peer it visits: quantum, deficit test, bucket, and the head datagram out. */
    static method TakeTurn(key: QueueKey, peer: PeerQueue, now: Readings) returns (p: PeerQueue, outcome: Outcome)
      requires peer.packets != [] && (peer.bucket.Some? ==> peer.bucket.value.rate > 0)
      ensures (p, outcome) == PeerTurn(key, peer, now)
    {
      p := peer;
      if !p.inRound {
        p := p.(deficit := Min(p.deficit + DRR_QUANTUM, USIZE_MAX), inRound := true);
      }
      var datagram := p.packets[0];
      var size := |datagram.payload|;
      if size > p.deficit {
        p := p.(inRound := false);
        return p, Yielded;
      }
      if p.bucket.Some? {
        var (bucket, result) := TB.ConsumeOrDelay(p.bucket.value, now.charge, size);
        p := p.(bucket := Some(bucket));
        if result.Err? {
          p := p.(inRound := false);
          return p, Delayed(result.error);
        }
      }
      p := p.(deficit := p.deficit - size, packets := p.packets[1..], lastActivity := now.active);
      if p.packets == [] {
        p := p.(inRound := false, deficit := 0);
      } else if |p.packets[0].payload| > p.deficit {
        p := p.(inRound := false);
      }
      outcome := Departure(key, datagram, now.depart);
    }

    /** Puts the front peer back after its turn: nowhere, at the front or at the back. */
    method PutBack(p: PeerQueue, sent: bool)
      requires rotation != [] && gauge == queued && (sent ==> queued > 0)
      modifies this`peers, this`rotation, this`queued, this`gauge
      ensures State() == Replaced(old(State()), p, sent) && gauge == queued
    {
      var key, rest := rotation[0], rotation[1..];
      var kept := if p.packets == [] && p.bucket.None? then peers - {key} else peers[key := p];
      var listed := if p.packets == [] then rest else if p.inRound then [key] + rest else rest + [key];
      var taken := if sent then 1 else 0;
      peers, rotation, queued, gauge := kept, listed, queued - taken, gauge - taken;
    }

    /** The body of the scan loop; the rotation only lists tracked peers, so the lookup cannot miss. */
    method VisitFront(now: Readings) returns (outcome: Outcome)
      requires Valid() && rotation != []
      modifies this
      ensures Valid() && FrontReady(old(model))
      ensures (model, outcome) == Visit(old(model), now)
    {
      VisitKeepsValid(model, now);
      ghost var next: ValidQueue := Visit(model, now).0;
      var p, o := TakeTurn(rotation[0], peers[rotation[0]], now);
      PutBack(p, o.Sent?);
      model, outcome := next, o;
    }

    /** One round of the receive loop: the next visit, and the result with its outcome noted. */
    method VisitNext(times: seq<Readings>, i: nat, result: ScanResult, ghost start: ValidQueue,
                     ghost done: seq<Visited>)
      returns (noted: ScanResult, ghost more: seq<Visited>)
      requires Valid() && rotation != [] && i < |times| && ScanSoFar(start, times, i, done, model, result)
      modifies this
      ensures Valid()
      ensures if noted.sent.Some? then (model, noted) == Scan(start, times)
              else ScanSoFar(start, times, i + 1, more, model, noted)
    {
      ghost var before := model;
      var outcome := VisitFront(times[i]);
      ScanAdvances(start, times, i, done, before, result, model, outcome);
      noted, more := Note(result, outcome), done + [Visited(model, outcome)];
    }

    /** One pass of the receive loop under the lock; `times[i]` is what the `i`th visit reads off the clock. */
    method ScanOnce(times: seq<Readings>) returns (result: ScanResult)
      requires Valid() && |times| == |rotation|
      modifies this
      ensures Valid()
      ensures (model, result) == Scan(old(model), times)
    {
      result := ScanResult(None, None, false);
      ghost var done: seq<Visited> := [];
      var i := 0;
      ghost var start := model;
      ScanBegins(start, times);
      while i < |times| && rotation != []
        invariant Valid() && i <= |times| && ScanSoFar(start, times, i, done, model, result)
        decreases |times| - i
      {
        result, done := VisitNext(times, i, result, start, done);
        if result.sent.Some? {
          return;
        }
        i := i + 1;
      }
      ScanEnds(start, times, i, done, model, result);
    }
  }

  /** The scan result with one more visit's outcome in it. */
  function Note(r: ScanResult, outcome: Outcome): ScanResult {
    match outcome
    case Sent(_, _, _) => r.(sent := Some(outcome))
    case Delayed(wait) => r.(waitFor := Some(if r.waitFor.None? then wait else Min(r.waitFor.value, wait)))
    case Yielded => r.(yielded := true)
    case Skipped => r
  }

  /** After `i` visits without a datagram, `done`, the scan stands at `q` with `result` gathered. */
  ghost predicate ScanSoFar(start: ValidQueue, times: seq<Readings>, i: nat, done: seq<Visited>, q: ValidQueue,
                            result: ScanResult)
  {
    && i <= |times|
    && Visits(start, times) == done + Visits(q, times[i..])
    && (q, result) == Summary(start, done) && result.sent.None?
  }

  lemma ScanBegins(q: ValidQueue, times: seq<Readings>)
    ensures ScanSoFar(q, times, 0, [], q, ScanResult(None, None, false))
  {
    assert times[0..] == times;
  }

  lemma ScanEnds(start: ValidQueue, times: seq<Readings>, i: nat, done: seq<Visited>, q: ValidQueue, result: ScanResult)
    requires ScanSoFar(start, times, i, done, q, result) && (i == |times| || q.rotation == [])
    ensures Scan(start, times) == (q, result)
  {
    assert done + [] == done;
  }

  lemma VisitsUnfold(q: ValidQueue, times: seq<Readings>, i: nat, q': ValidQueue, outcome: Outcome)
    requires i < |times| && FrontReady(q) && Visit(q, times[i]) == (q', outcome)
    ensures Visits(q, times[i..]) == [Visited(q', outcome)] + if outcome.Sent? then [] else Visits(q', times[i + 1..])
  {
    assert times[i..][0] == times[i] && times[i..][1..] == times[i + 1..];
  }

  lemma ScanAdvances(start: ValidQueue, times: seq<Readings>, i: nat, done: seq<Visited>, q: ValidQueue,
                     result: ScanResult, q': ValidQueue, outcome: Outcome)
    requires ScanSoFar(start, times, i, done, q, result) && i < |times|
    requires FrontReady(q) && Visit(q, times[i]) == (q', outcome)
    ensures if outcome.Sent? then Scan(start, times) == (q', Note(result, outcome))
            else ScanSoFar(start, times, i + 1, done + [Visited(q', outcome)], q', Note(result, outcome))
  {
    var v := Visited(q', outcome);
    NoteVisit(start, done, v);
    VisitsUnfold(q, times, i, q', outcome);
    JoinVisits(done, v, if outcome.Sent? then [] else Visits(q', times[i + 1..]));
  }

  lemma JoinVisits(done: seq<Visited>, v: Visited, rest: seq<Visited>)
    ensures done + ([v] + rest) == (done + [v]) + rest
    ensures rest == [] ==> done + ([v] + rest) == done + [v]
  {}

  lemma NoteVisit(start: ValidQueue, done: seq<Visited>, v: Visited)
    requires Summary(start, done).1.sent.None?
    ensures Summary(start, done + [v]) == (v.queue, Note(Summary(start, done).1, v.outcome))
  {
    var all := done + [v];
    assert all[..|all| - 1] == done && all[|done|] == v;
    assert AnyYielded(all) == (AnyYielded(done) || v.outcome.Yielded?) by {
      if AnyYielded(done) {
        var i :| 0 <= i < |done| && done[i].outcome.Yielded?;
        assert all[i].outcome.Yielded?;
      }
    }
  }
}
