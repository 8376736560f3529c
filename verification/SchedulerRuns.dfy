/** Whole runs of the outbound queue: nothing is lost, duplicated or reordered. */
module SchedulerRuns {
  import opened Basics
  import opened Net
  import opened Scheduler
  import opened SchedulerInvariant

  /** An offer, one visit of a receive scan, or a change of the shaping rate. */
  datatype Event =
    | Offer(key: QueueKey, endpoint: SocketAddr, payload: Bytes, now: nat, created: nat)
    | Turn(at: Readings)
    | Rerate(rate: u64, now: nat)

  datatype Effect =
    | Quiet
    | Accepted(key: QueueKey, datagram: Datagram)
    | Delivered(key: QueueKey, datagram: Datagram)

  function Step(q: ValidQueue, e: Event): (ValidQueue, Effect) {
    match e
    case Offer(key, endpoint, payload, now, created) =>
      EnqueueKeepsValid(q, key, endpoint, payload, now, created);
      var (q', taken) := Enqueue(q, key, endpoint, payload, now, created);
      (q', if taken then Accepted(key, Stamp(key, endpoint, payload, now)) else Quiet)
    case Turn(at) =>
      if q.rotation == [] then (q, Quiet)
      else
        VisitKeepsValid(q, at);
        var (q', outcome) := Visit(q, at);
        (q', if outcome.Sent? then Delivered(outcome.key, outcome.datagram) else Quiet)
    case Rerate(rate, now) =>
      SetRateKeepsValid(q, rate, now);
      (SetRate(q, rate, now), Quiet)
  }

  function NewQueue(capacity: nat, rate: u64): ValidQueue {
    InitValid(capacity, rate);
    Init(capacity, rate)
  }

  /** The queue after the events, and the effect of each. */
  function Run(q: ValidQueue, events: seq<Event>): (ValidQueue, seq<Effect>)
    decreases |events|
  {
    if events == [] then (q, [])
    else
      var (mid, effect) := Step(q, events[0]);
      var (last, effects) := Run(mid, events[1..]);
      (last, [effect] + effects)
  }

  /** An offer leaves a waiting peer where it is; at most it lengthens that peer's own queue. */
  lemma OfferEffect(q: Queue, key: QueueKey, endpoint: SocketAddr, payload: Bytes, now: nat, created: nat, k: QueueKey)
    requires Waiting(q, k)
    ensures var q' := Enqueue(q, key, endpoint, payload, now, created).0;
            && (q'.rotation == q.rotation || q'.rotation == q.rotation + [key])
            && Waiting(q', k)
            && q'.peers[k].deficit == q.peers[k].deficit && q'.peers[k].inRound == q.peers[k].inRound
            && q'.peers[k].bucket == q.peers[k].bucket
            && (q'.peers[k].packets == q.peers[k].packets
                || q'.peers[k].packets == q.peers[k].packets + [Stamp(key, endpoint, payload, now)])
  {}

  // Conservation and order

  function Waits(q: Queue, k: QueueKey): seq<Datagram> {
    if k in q.peers then q.peers[k].packets else []
  }

  function TakenBy(f: Effect, k: QueueKey): seq<Datagram> {
    if f.Accepted? && f.key == k then [f.datagram] else []
  }

  function OutputBy(f: Effect, k: QueueKey): seq<Datagram> {
    if f.Delivered? && f.key == k then [f.datagram] else []
  }

  /** What was taken from `k`'s senders, in order. */
  function Taken(effects: seq<Effect>, k: QueueKey): seq<Datagram> {
    if effects == [] then [] else TakenBy(effects[0], k) + Taken(effects[1..], k)
  }

  /** What was handed to the socket for `k`, in order. */
  function Output(effects: seq<Effect>, k: QueueKey): seq<Datagram> {
    if effects == [] then [] else OutputBy(effects[0], k) + Output(effects[1..], k)
  }

  lemma VisitConserves(q: ValidQueue, now: Readings, k: QueueKey)
    requires FrontReady(q)
    ensures var (q', outcome) := Visit(q, now);
            Waits(q, k) == (if outcome.Sent? && outcome.key == k then [outcome.datagram] else []) + Waits(q', k)
  {
    var key := q.rotation[0];
    TurnEffect(key, q.peers[key], q.perPeerCapacity, now);
    var ds := q.peers[key].packets;
    assert ds == [ds[0]] + ds[1..];
  }

  lemma OfferConserves(q: Queue, key: QueueKey, endpoint: SocketAddr, payload: Bytes, now: nat, created: nat,
                       k: QueueKey)
    ensures var (q', taken) := Enqueue(q, key, endpoint, payload, now, created);
            Waits(q', k) == Waits(q, k) + if taken && key == k then [Stamp(key, endpoint, payload, now)] else []
  {}

  /** What waited for `k` and what the event takes in are what it hands out and what waits afterwards. */
  predicate Conserved(q: ValidQueue, e: Event, k: QueueKey) {
    var (q', f) := Step(q, e);
    Waits(q, k) + TakenBy(f, k) == OutputBy(f, k) + Waits(q', k)
  }

  lemma TurnConserves(q: ValidQueue, at: Readings, k: QueueKey)
    ensures Conserved(q, Turn(at), k)
  {
    if q.rotation != [] {
      ListedMeansQueued(q);
      VisitConserves(q, at, k);
    }
  }

  lemma OfferStepConserves(q: ValidQueue, key: QueueKey, endpoint: SocketAddr, payload: Bytes, now: nat, created: nat,
                           k: QueueKey)
    ensures Conserved(q, Offer(key, endpoint, payload, now, created), k)
  {
    OfferConserves(q, key, endpoint, payload, now, created, k);
  }

  lemma RerateConserves(q: ValidQueue, rate: u64, now: nat, k: QueueKey)
    ensures Conserved(q, Rerate(rate, now), k)
  {
    assert Waits(q, k) + [] == [] + Waits(q, k);
  }

  lemma StepConserves(q: ValidQueue, e: Event, k: QueueKey)
    ensures Conserved(q, e, k)
  {
    match e
    case Offer(key, endpoint, payload, now, created) => OfferStepConserves(q, key, endpoint, payload, now, created, k);
    case Turn(at) => TurnConserves(q, at, k);
    case Rerate(rate, now) => RerateConserves(q, rate, now, k);
  }

  lemma {:induction false} RunConserves(q: ValidQueue, events: seq<Event>, k: QueueKey)
    ensures var (q', fs) := Run(q, events);
            Waits(q, k) + Taken(fs, k) == Output(fs, k) + Waits(q', k)
    decreases |events|
  {
    if events != [] {
      var (mid, f) := Step(q, events[0]);
      var (last, fs) := Run(mid, events[1..]);
      StepConserves(q, events[0], k);
      RunConserves(mid, events[1..], k);
      assert ([f] + fs)[1..] == fs;
      Chain(Waits(q, k), TakenBy(f, k), OutputBy(f, k), Waits(mid, k), Taken(fs, k), Output(fs, k), Waits(last, k));
    }
  }

  lemma Chain<T>(w: seq<T>, t: seq<T>, o: seq<T>, mid: seq<T>, ts: seq<T>, os: seq<T>, last: seq<T>)
    requires w + t == o + mid && mid + ts == os + last
    ensures w + (t + ts) == (o + os) + last
  {
    assert w + (t + ts) == (w + t) + ts;
    assert (o + mid) + ts == o + (mid + ts);
    assert o + (os + last) == (o + os) + last;
  }

  /**
   Conservation: in every run of a new queue each peer's output followed by what
   still waits is exactly what was accepted for it, in order.
   */
  lemma OutputIsPrefixOfInput(capacity: nat, rate: u64, events: seq<Event>, k: QueueKey)
    ensures Valid(Init(capacity, rate))
    ensures var (q, fs) := Run(Init(capacity, rate), events);
            && Taken(fs, k) == Output(fs, k) + Waits(q, k)
            && Output(fs, k) <= Taken(fs, k)
  {
    InitValid(capacity, rate);
    RunConserves(Init(capacity, rate), events, k);
    var (q, fs) := Run(Init(capacity, rate), events);
    assert [] + Taken(fs, k) == Taken(fs, k);
  }
}
