/**
 Shaping over whole runs of the queue: what leaves for one peer conforms to the rate even
 though an idle peer's bucket is forgotten and made anew, provided the burst is no more
 than a second's worth.
 */
module SchedulerShaping {
  import opened Basics
  import opened Net
  import opened Scheduler
  import opened SchedulerInvariant
  import opened SchedulerRuns
  import opened SchedulerFairness
  import TB = TokenBucket

  // Clocks

  /** The event's readings come in order, and not before `t`. */
  predicate Clocked(t: nat, e: Event) {
    match e
    case Offer(_, _, _, now, created) => t <= now <= created
    case Turn(at) => t <= at.charge <= at.active
    case Rerate(_, now) => t <= now
  }

  function Clock(e: Event): nat {
    match e
    case Offer(_, _, _, _, created) => created
    case Turn(at) => at.active
    case Rerate(_, now) => now
  }

  predicate InTime(t: nat, events: seq<Event>)
    decreases |events|
  {
    events != [] ==> Clocked(t, events[0]) && InTime(Clock(events[0]), events[1..])
  }

  /** The last reading of a run that starts at `t`. */
  function End(t: nat, events: seq<Event>): nat
    decreases |events|
  {
    if events == [] then t else End(Clock(events[0]), events[1..])
  }

  // One rate for every bucket

  /** A bucket for every peer at the queue's rate, or none when there is no rate. */
  ghost predicate AtRate(q: Queue) {
    forall k <- q.peers :: Shaped(q.peers[k], q.rate)
  }

  predicate Shaped(p: PeerQueue, rate: u64) {
    if rate == 0 then p.bucket.None? else p.bucket.Some? && p.bucket.value.rate == rate
  }

  lemma TurnShaped(key: QueueKey, p: PeerQueue, limit: nat, now: Readings, rate: u64)
    requires PeerValid(p, limit) && Shaped(p, rate)
    ensures Shaped(PeerTurn(key, p, now).0, rate)
  {
    ChargeKeepsBucket(p.bucket, now.charge, HeadSize(p));
  }

  lemma VisitAtRate(q: ValidQueue, now: Readings)
    requires FrontReady(q) && AtRate(q)
    ensures AtRate(Visit(q, now).0) && Visit(q, now).0.rate == q.rate
  {
    var key := q.rotation[0];
    TurnShaped(key, q.peers[key], q.perPeerCapacity, now, q.rate);
  }

  lemma OfferAtRate(q: Queue, key: QueueKey, endpoint: SocketAddr, payload: Bytes, now: nat, created: nat)
    requires AtRate(q)
    ensures var q' := Enqueue(q, key, endpoint, payload, now, created).0; AtRate(q') && q'.rate == q.rate
  {}

  lemma RerateAtRate(q: Queue, rate: u64, now: nat)
    ensures AtRate(SetRate(q, rate, now)) && SetRate(q, rate, now).rate == rate
  {}

  lemma StepAtRate(q: ValidQueue, e: Event)
    requires AtRate(q)
    ensures AtRate(Step(q, e).0) && Step(q, e).0.rate == if e.Rerate? then e.rate else q.rate
  {
    match e
    case Offer(key, endpoint, payload, now, created) => OfferAtRate(q, key, endpoint, payload, now, created);
    case Turn(at) =>
      if q.rotation != [] {
        ListedMeansQueued(q);
        VisitAtRate(q, at);
      }
    case Rerate(rate, now) => RerateAtRate(q, rate, now);
  }

  // No bucket is ahead of the clock

  predicate PastPeer(p: PeerQueue, t: nat) {
    p.bucket.Some? ==> p.bucket.value.updated <= t
  }

  ghost predicate Past(q: Queue, t: nat) {
    forall k <- q.peers :: PastPeer(q.peers[k], t)
  }

  lemma TurnPast(key: QueueKey, p: PeerQueue, limit: nat, at: Readings, t: nat)
    requires PeerValid(p, limit) && PastPeer(p, t) && t <= at.charge <= at.active
    ensures PastPeer(PeerTurn(key, p, at).0, at.active)
  {}

  lemma OfferPast(q: Queue, key: QueueKey, endpoint: SocketAddr, payload: Bytes, now: nat, created: nat, t: nat)
    requires Past(q, t) && t <= now <= created
    ensures Past(Enqueue(q, key, endpoint, payload, now, created).0, created)
  {}

  lemma VisitPast(q: ValidQueue, at: Readings, t: nat)
    requires FrontReady(q) && Past(q, t) && t <= at.charge <= at.active
    ensures Past(Visit(q, at).0, at.active)
  {
    TurnPast(q.rotation[0], q.peers[q.rotation[0]], q.perPeerCapacity, at, t);
  }

  lemma ReratePast(q: Queue, rate: u64, now: nat)
    ensures Past(SetRate(q, rate, now), now)
  {}

  lemma StepPast(q: ValidQueue, e: Event, t: nat)
    requires Past(q, t) && Clocked(t, e)
    ensures Past(Step(q, e).0, Clock(e))
  {
    match e
    case Offer(key, endpoint, payload, now, created) => OfferPast(q, key, endpoint, payload, now, created, t);
    case Turn(at) =>
      if q.rotation != [] {
        ListedMeansQueued(q);
        VisitPast(q, at, t);
      }
    case Rerate(rate, now) => ReratePast(q, rate, now);
  }

  lemma {:induction false} RunShaped(q: ValidQueue, events: seq<Event>, t: nat)
    requires AtRate(q) && Past(q, t) && InTime(t, events)
    ensures var q' := Run(q, events).0; AtRate(q') && Past(q', End(t, events))
    decreases |events|
  {
    if events != [] {
      StepAtRate(q, events[0]);
      StepPast(q, events[0], t);
      RunShaped(Step(q, events[0]).0, events[1..], Clock(events[0]));
    }
  }

  // The ledger of one peer

  /** With `sent` bytes since `from`, the bucket holds no more than one burst and the time since then allow. */
  predicate Covered(b: TB.Bucket, sent: nat, from: nat) {
    && from <= b.updated
    && (sent + b.tokens) * NANOS_PER_SEC <= b.capacity * NANOS_PER_SEC + (b.updated - from) * b.rate
  }

  /** A tracked peer's bucket covers what it sent, and is not newer than its last activity once it is idle. */
  predicate CoveredPeer(p: PeerQueue, sent: nat, from: nat) {
    sent > 0 ==>
      && p.bucket.Some? && Covered(p.bucket.value, sent, from)
      && (p.packets == [] ==> p.bucket.value.updated <= p.lastActivity)
  }

  /** The time alone covers what a peer that is not tracked has sent. */
  predicate CoveredAlone(sent: nat, from: nat, t: nat, rate: u64) {
    from <= t && sent * NANOS_PER_SEC <= (t - from) * rate
  }

  ghost predicate Ledger(q: Queue, k: QueueKey, sent: nat, from: nat, t: nat) {
    && from <= t
    && if k in q.peers then CoveredPeer(q.peers[k], sent, from) else CoveredAlone(sent, from, t, q.rate)
  }

  /** Forgetting an idle peer: its bucket has had a second, which is worth a whole burst. */
  lemma ForgottenCovered(p: PeerQueue, limit: nat, sent: nat, from: nat, now: nat, rate: u64)
    requires PeerValid(p, limit) && Shaped(p, rate) && rate >= TB.BURST_FLOOR
    requires CoveredPeer(p, sent, from) && p.packets == [] && now >= p.lastActivity + NANOS_PER_SEC && from <= now
    ensures CoveredAlone(sent, from, now, rate)
  {
    if sent > 0 {
      var b := p.bucket.value;
      TB.MulMonotone(b.updated - from + NANOS_PER_SEC, now - from, rate);
      assert (b.updated - from + NANOS_PER_SEC) * rate == (b.updated - from) * rate + NANOS_PER_SEC * rate;
    } else {
      assert (now - from) * rate >= 0;
    }
  }

  lemma LaterCovered(sent: nat, from: nat, t: nat, later: nat, rate: u64)
    requires CoveredAlone(sent, from, t, rate) && t <= later
    ensures CoveredAlone(sent, from, later, rate)
  {
    TB.MulMonotone(t - from, later - from, rate);
  }

  /** A new bucket is covered by the time alone. */
  lemma NewCovered(sent: nat, from: nat, created: nat, rate: u64)
    requires CoveredAlone(sent, from, created, rate)
    ensures Covered(TB.New(rate, created), sent, from)
  {}

  /** Once `k` is not tracked any more, the time alone covers it. */
  lemma UntrackedCovered(q: ValidQueue, k: QueueKey, sent: nat, from: nat, t: nat, now: nat, created: nat)
    requires AtRate(q) && q.rate >= TB.BURST_FLOOR && Ledger(q, k, sent, from, t) && t <= now <= created
    requires k !in Retained(q.peers, now)
    ensures CoveredAlone(sent, from, created, q.rate)
  {
    if k in q.peers {
      assert PeerValid(q.peers[k], q.perPeerCapacity);
      ForgottenCovered(q.peers[k], q.perPeerCapacity, sent, from, now, q.rate);
      LaterCovered(sent, from, now, created, q.rate);
    } else {
      LaterCovered(sent, from, t, created, q.rate);
    }
  }

  /** What an offer leaves of `k`: its peer with perhaps a packet more, a new peer with one, or nothing. */
  lemma OfferLeaves(q: ValidQueue, key: QueueKey, endpoint: SocketAddr, payload: Bytes, now: nat, created: nat,
                    k: QueueKey)
    ensures var (q', kept) := (Enqueue(q, key, endpoint, payload, now, created).0, Retained(q.peers, now));
            && q'.rate == q.rate
            && (k in kept ==> k in q'.peers && q'.peers[k].bucket == q.peers[k].bucket
                              && (q'.peers[k] == q.peers[k] || q'.peers[k].packets != []))
            && (k !in kept && k in q'.peers ==>
                  q'.peers[k].bucket == NewPeer(q.rate, created).bucket && q'.peers[k].packets != [])
  {}

  lemma OfferLedger(q: ValidQueue, key: QueueKey, endpoint: SocketAddr, payload: Bytes, now: nat, created: nat,
                    k: QueueKey, sent: nat, from: nat, t: nat)
    requires AtRate(q) && q.rate >= TB.BURST_FLOOR && Ledger(q, k, sent, from, t) && t <= now <= created
    ensures Ledger(Enqueue(q, key, endpoint, payload, now, created).0, k, sent, from, created)
  {
    OfferLeaves(q, key, endpoint, payload, now, created, k);
    if k !in Retained(q.peers, now) {
      UntrackedCovered(q, k, sent, from, t, now, created);
      NewCovered(sent, from, created, q.rate);
    }
  }

  /** What a charge leaves is covered together with what it lets through. */
  lemma ChargeCovered(b: TB.Bucket, now: nat, bytes: u64, sent: nat, from: nat)
    requires TB.Valid(b) && b.updated <= now && from <= now && (sent > 0 ==> Covered(b, sent, from))
    ensures var (after, taken) := TB.TakeStep(b, now, bytes);
            Covered(after, sent + if taken then bytes else 0, from)
  {
    var (after, taken) := TB.TakeStep(b, now, bytes);
    var got := if taken then bytes else 0;
    TB.StepAtMost(b, TB.Call(now, bytes));
    if sent > 0 {
      TB.SpansAdd(b.updated - from, now - b.updated, b.rate);
    } else {
      assert (now - from) * b.rate >= 0;
    }
  }

  lemma TurnLedger(key: QueueKey, p: PeerQueue, limit: nat, at: Readings, sent: nat, from: nat, rate: u64)
    requires PeerValid(p, limit) && p.packets != [] && Shaped(p, rate) && rate > 0
    requires CoveredPeer(p, sent, from) && PastPeer(p, at.charge) && from <= at.charge <= at.active
    ensures var (p', outcome) := PeerTurn(key, p, at); CoveredPeer(p', sent + Leaving(outcome, key), from)
  {
    ChargeCovered(p.bucket.value, at.charge, HeadSize(p), sent, from);
  }

  lemma VisitLedger(q: ValidQueue, at: Readings, k: QueueKey, sent: nat, from: nat, t: nat)
    requires FrontReady(q) && AtRate(q) && q.rate > 0 && Past(q, t) && t <= at.charge <= at.active
    requires Ledger(q, k, sent, from, t)
    ensures var (q', outcome) := Visit(q, at); Ledger(q', k, sent + Leaving(outcome, k), from, at.active)
  {
    var key := q.rotation[0];
    TurnEffect(key, q.peers[key], q.perPeerCapacity, at);
    if key == k {
      TurnLedger(k, q.peers[k], q.perPeerCapacity, at, sent, from, q.rate);
    } else if k !in q.peers {
      LaterCovered(sent, from, t, at.active, q.rate);
    }
  }

  function SentBy(f: Effect, k: QueueKey): nat {
    ByteCount(OutputBy(f, k))
  }

  lemma TurnStepLedger(q: ValidQueue, at: Readings, k: QueueKey, sent: nat, from: nat, t: nat)
    requires AtRate(q) && q.rate > 0 && Past(q, t) && t <= at.charge <= at.active && Ledger(q, k, sent, from, t)
    ensures var (q', f) := Step(q, Turn(at)); Ledger(q', k, sent + SentBy(f, k), from, at.active)
  {
    if q.rotation == [] {
      if k !in q.peers {
        LaterCovered(sent, from, t, at.active, q.rate);
      }
    } else {
      ListedMeansQueued(q);
      VisitLedger(q, at, k, sent, from, t);
      if Visit(q, at).1.Sent? {
        LeavingCounted(Visit(q, at).1, k);
      }
    }
  }

  lemma LeavingCounted(outcome: Outcome, k: QueueKey)
    requires outcome.Sent?
    ensures SentBy(Delivered(outcome.key, outcome.datagram), k) == Leaving(outcome, k)
  {
    var d := outcome.datagram;
    assert ByteCount([d]) == |d.payload| + ByteCount([d][1..]) && [d][1..] == [];
  }

  lemma StepLedger(q: ValidQueue, e: Event, k: QueueKey, sent: nat, from: nat, t: nat)
    requires AtRate(q) && q.rate >= TB.BURST_FLOOR && Past(q, t) && Clocked(t, e) && !e.Rerate?
    requires Ledger(q, k, sent, from, t)
    ensures var (q', f) := Step(q, e); Ledger(q', k, sent + SentBy(f, k), from, Clock(e))
  {
    match e
    case Offer(key, endpoint, payload, now, created) =>
      OfferLedger(q, key, endpoint, payload, now, created, k, sent, from, t);
    case Turn(at) => TurnStepLedger(q, at, k, sent, from, t);
  }

  lemma {:induction false} ByteCountJoin(a: seq<Datagram>, b: seq<Datagram>)
    ensures ByteCount(a + b) == ByteCount(a) + ByteCount(b)
  {
    if a == [] {
      assert a + b == b;
    } else {
      assert (a + b)[1..] == a[1..] + b;
      ByteCountJoin(a[1..], b);
    }
  }

  /** At most one burst of the rate, and the rate times the time from `from` to `t`. */
  predicate Conforms(sent: nat, rate: u64, from: nat, t: nat) {
    sent * NANOS_PER_SEC <= TB.CapacityFor(rate) * NANOS_PER_SEC + (t - from) * rate
  }

  lemma LedgerConforms(q: ValidQueue, k: QueueKey, sent: nat, from: nat, t: nat)
    requires AtRate(q) && q.rate > 0 && Past(q, t) && Ledger(q, k, sent, from, t)
    ensures Conforms(sent, q.rate, from, t)
  {
    if sent > 0 && k in q.peers {
      assert PeerValid(q.peers[k], q.perPeerCapacity);
      BucketConforms(q.peers[k].bucket.value, sent, from, t);
    } else {
      assert (t - from) * q.rate >= 0;
    }
  }

  lemma BucketConforms(b: TB.Bucket, sent: nat, from: nat, t: nat)
    requires TB.Valid(b) && Covered(b, sent, from) && b.updated <= t
    ensures Conforms(sent, b.rate, from, t)
  {
    TB.MulMonotone(b.updated - from, t - from, b.rate);
  }

  /** Everything the ledger of `k` rests on, at one rate. */
  ghost predicate InBooks(q: Queue, k: QueueKey, sent: nat, from: nat, t: nat, rate: u64) {
    AtRate(q) && q.rate == rate >= TB.BURST_FLOOR && Past(q, t) && Ledger(q, k, sent, from, t)
  }

  lemma StepInBooks(q: ValidQueue, e: Event, k: QueueKey, sent: nat, from: nat, t: nat, rate: u64)
    requires InBooks(q, k, sent, from, t, rate) && Clocked(t, e) && !e.Rerate?
    ensures var (q', f) := Step(q, e); InBooks(q', k, sent + SentBy(f, k), from, Clock(e), rate)
  {
    StepAtRate(q, e);
    StepPast(q, e, t);
    StepLedger(q, e, k, sent, from, t);
  }

  lemma {:induction false} RunInBooks(q: ValidQueue, events: seq<Event>, k: QueueKey, sent: nat, from: nat, t: nat,
                                      rate: u64)
    returns (last: ValidQueue, total: nat)
    requires InBooks(q, k, sent, from, t, rate) && InTime(t, events) && forall e <- events :: !e.Rerate?
    ensures total == sent + Served(Run(q, events).1, k) && InBooks(last, k, total, from, End(t, events), rate)
    decreases |events|
  {
    if events == [] {
      last, total := q, sent;
    } else {
      var (mid, f) := Step(q, events[0]);
      var fs := Run(mid, events[1..]).1;
      assert events[0] in events && ([f] + fs)[1..] == fs;
      StepInBooks(q, events[0], k, sent, from, t, rate);
      last, total := RunInBooks(mid, events[1..], k, sent + SentBy(f, k), from, Clock(events[0]), rate);
      ByteCountJoin(OutputBy(f, k), Output(fs, k));
    }
  }

  lemma LedgerStarts(q: Queue, k: QueueKey, from: nat)
    ensures Ledger(q, k, 0, from, from)
  {
    assert (from - from) * q.rate == 0;
  }

  lemma BooksConform(q: ValidQueue, k: QueueKey, sent: nat, from: nat, t: nat, rate: u64)
    requires InBooks(q, k, sent, from, t, rate)
    ensures Conforms(sent, rate, from, t)
  {
    LedgerConforms(q, k, sent, from, t);
  }

  lemma StretchConforms(q: ValidQueue, stretch: seq<Event>, k: QueueKey, from: nat)
    requires AtRate(q) && q.rate >= TB.BURST_FLOOR && Past(q, from) && InTime(from, stretch)
    requires forall e <- stretch :: !e.Rerate?
    ensures Conforms(Served(Run(q, stretch).1, k), q.rate, from, End(from, stretch))
  {
    LedgerStarts(q, k, from);
    var last, total := RunInBooks(q, stretch, k, 0, from, from, q.rate);
    BooksConform(last, k, total, from, End(from, stretch), q.rate);
  }

  /**
   The queue conforms: after any run, in every further stretch without a change of rate
   and at a rate of at least a burst a second, the bytes handed out for a peer are at
   most one burst plus the rate times the time the stretch takes, however often the peer
   falls idle and is forgotten.
   */
  lemma QueueConforms(capacity: nat, rate: u64, earlier: seq<Event>, stretch: seq<Event>, k: QueueKey, from: nat)
    requires InTime(0, earlier) && End(0, earlier) <= from && InTime(from, stretch)
    requires Run(NewQueue(capacity, rate), earlier).0.rate >= TB.BURST_FLOOR && forall e <- stretch :: !e.Rerate?
    ensures var q := Run(NewQueue(capacity, rate), earlier).0;
            Conforms(Served(Run(q, stretch).1, k), q.rate, from, End(from, stretch))
  {
    var q := Run(NewQueue(capacity, rate), earlier).0;
    RunShaped(NewQueue(capacity, rate), earlier, 0);
    StretchConforms(q, stretch, k, from);
  }

  // Below a burst a second the bound fails

  const SOMEONE: QueueKey := Stable([])

  const NOWHERE: SocketAddr := SocketAddr(V4([]), 0)

  /** A datagram of one whole burst. */
  function Whole(): Bytes {
    seq(TB.BURST_FLOOR, _ => 0)
  }

  function Turns(n: nat, t: nat): seq<Event> {
    if n == 0 then [] else [Turn(Readings(t, t, t))] + Turns(n - 1, t)
  }

  /** One whole burst offered at `t`, and `n` visits. */
  function Burst(n: nat, t: nat): seq<Event> {
    [Offer(SOMEONE, NOWHERE, Whole(), t, t)] + Turns(n, t)
  }

  /** The visits it takes for the deficit to cover a whole burst. */
  const VISITS: nat := 44

  /** The queue with nothing but that datagram, after `n` visits that found its deficit short. */
  function Poised(base: Queue, n: nat, t: nat): Queue {
    var d := Stamp(SOMEONE, NOWHERE, Whole(), t);
    var p := PeerQueue([d], n * DRR_QUANTUM, false, Some(TB.New(base.rate, t)), t);
    base.(peers := map[SOMEONE := p], rotation := [SOMEONE], queued := 1)
  }

  /** The queue with the peer idle since `t` and its bucket empty. */
  function Idle(base: Queue, t: nat): Queue {
    var p := PeerQueue([], 0, false, Some(TB.New(base.rate, t).(tokens := 0)), t);
    base.(peers := map[SOMEONE := p], rotation := [], queued := 0)
  }

  predicate Slow(q: Queue) {
    && 0 < q.rate < TB.BURST_FLOOR && q.capacity >= 1 && 1 <= q.perPeerCapacity <= Min(q.capacity, MAX_PEER_QUEUE)
  }

  lemma PoisedYields(base: Queue, n: nat, t: nat)
    requires Slow(base) && n < VISITS - 1
    ensures Visit(Poised(base, n, t), Readings(t, t, t)) == (Poised(base, n + 1, t), Yielded)
  {
    var q := Poised(base, n, t);
    assert q.rotation[1..] + [SOMEONE] == [SOMEONE];
    assert |Whole()| == TB.BURST_FLOOR && HeadSize(q.peers[SOMEONE]) == TB.BURST_FLOOR;
    var p := q.peers[SOMEONE].(deficit := (n + 1) * DRR_QUANTUM);
    assert PeerTurn(SOMEONE, q.peers[SOMEONE], Readings(t, t, t)) == (p, Yielded);
    assert q.peers[SOMEONE := p] == map[SOMEONE := p];
  }

  lemma PoisedSends(base: Queue, t: nat)
    requires Slow(base)
    ensures var (q, outcome) := Visit(Poised(base, VISITS - 1, t), Readings(t, t, t));
            q == Idle(base, t) && outcome.Sent? && Leaving(outcome, SOMEONE) == TB.BURST_FLOOR
  {
    var q := Poised(base, VISITS - 1, t);
    FullBucketDrains(base.rate, t);
    assert q.rotation[1..] == [] && Granted(q.peers[SOMEONE]).deficit == 66_000;
  }

  lemma FullBucketDrains(rate: u64, t: nat)
    requires 0 < rate < TB.BURST_FLOOR
    ensures TB.TakeStep(TB.New(rate, t), t, TB.BURST_FLOOR) == (TB.New(rate, t).(tokens := 0), true)
  {
    assert (t - t) * rate == 0;
  }

  lemma PoisedValid(base: Queue, n: nat, t: nat)
    requires Slow(base)
    ensures Valid(Poised(base, n, t))
  {
    var q := Poised(base, n, t);
    assert q.rotation[1..] == [] && Queued(q.rotation[1..], q.peers) == 0;
  }

  lemma YieldStep(base: Queue, n: nat, t: nat)
    requires Slow(base) && n < VISITS - 1
    ensures Valid(Poised(base, n, t)) && Valid(Poised(base, n + 1, t))
    ensures Step(Poised(base, n, t), Turn(Readings(t, t, t))) == (Poised(base, n + 1, t), Quiet)
  {
    PoisedValid(base, n, t);
    PoisedValid(base, n + 1, t);
    PoisedYields(base, n, t);
  }

  lemma SendStep(base: Queue, t: nat)
    requires Slow(base)
    ensures Valid(Poised(base, VISITS - 1, t)) && Valid(Idle(base, t))
    ensures var (q, f) := Step(Poised(base, VISITS - 1, t), Turn(Readings(t, t, t)));
            q == Idle(base, t) && SentBy(f, SOMEONE) == TB.BURST_FLOOR
  {
    PoisedValid(base, VISITS - 1, t);
    VisitKeepsValid(Poised(base, VISITS - 1, t), Readings(t, t, t));
    PoisedSends(base, t);
    LeavingCounted(Visit(Poised(base, VISITS - 1, t), Readings(t, t, t)).1, SOMEONE);
  }

  lemma FirstEffect(q: ValidQueue, e: Event, rest: seq<Event>, k: QueueKey)
    ensures var (mid, f) := Step(q, e);
            && Run(q, [e] + rest).0 == Run(mid, rest).0
            && Served(Run(q, [e] + rest).1, k) == SentBy(f, k) + Served(Run(mid, rest).1, k)
  {
    var (mid, f) := Step(q, e);
    var fs := Run(mid, rest).1;
    assert ([e] + rest)[1..] == rest && ([f] + fs)[1..] == fs;
    ByteCountJoin(OutputBy(f, k), Output(fs, k));
  }

  /** The event takes `q` to `q'` and hands out `bytes` for `SOMEONE`. */
  ghost predicate Leads(q: ValidQueue, e: Event, q': ValidQueue, bytes: nat) {
    Step(q, e).0 == q' && SentBy(Step(q, e).1, SOMEONE) == bytes
  }

  /** A path of queues, one visit apart, of which only the last visit hands something out. */
  ghost predicate Leading(path: seq<ValidQueue>, t: nat, bytes: nat) {
    && |path| >= 2
    && forall i | 0 <= i < |path| - 1 ::
         Leads(path[i], Turn(Readings(t, t, t)), path[i + 1], if i == |path| - 2 then bytes else 0)
  }

  /** A count that adds up what each event hands out. */
  ghost predicate Additive(out: (ValidQueue, seq<Event>) -> nat) {
    forall q, e, q', bytes: nat, rest | Leads(q, e, q', bytes) :: out(q, [e] + rest) == bytes + out(q', rest)
  }

  lemma {:induction false} PathSends(path: seq<ValidQueue>, t: nat, rest: seq<Event>, bytes: nat,
                                     out: (ValidQueue, seq<Event>) -> nat)
    requires Leading(path, t, bytes) && Additive(out)
    ensures out(path[0], Turns(|path| - 1, t) + rest) == bytes + out(path[|path| - 1], rest)
    decreases |path|
  {
    var e, more := Turn(Readings(t, t, t)), Turns(|path| - 2, t) + rest;
    assert Turns(|path| - 1, t) + rest == [e] + more;
    assert Leads(path[0], e, path[1], if 0 == |path| - 2 then bytes else 0);
    if |path| == 2 {
      assert more == rest;
    } else {
      PathSends(path[1..], t, rest, bytes, out);
    }
  }

  ghost function PoisedAt(base: Queue, n: nat, t: nat): ValidQueue
    requires Slow(base)
  {
    PoisedValid(base, n, t);
    Poised(base, n, t)
  }

  ghost function IdleAt(base: Queue, t: nat): ValidQueue
    requires Slow(base)
  {
    SendStep(base, t);
    Idle(base, t)
  }

  lemma YieldLeads(base: Queue, n: nat, t: nat)
    requires Slow(base) && n < VISITS - 1
    ensures Leads(PoisedAt(base, n, t), Turn(Readings(t, t, t)), PoisedAt(base, n + 1, t), 0)
  {
    YieldStep(base, n, t);
  }

  lemma SendLeads(base: Queue, t: nat)
    requires Slow(base)
    ensures Leads(PoisedAt(base, VISITS - 1, t), Turn(Readings(t, t, t)), IdleAt(base, t), TB.BURST_FLOOR)
  {
    SendStep(base, t);
  }

  ghost function OnTheWay(base: Queue, t: nat, i: nat): ValidQueue
    requires Slow(base)
  {
    if i < VISITS then PoisedAt(base, i, t) else IdleAt(base, t)
  }

  lemma VisitLeads(base: Queue, t: nat, i: nat)
    requires Slow(base) && i < VISITS
    ensures Leads(OnTheWay(base, t, i), Turn(Readings(t, t, t)), OnTheWay(base, t, i + 1),
                  if i == VISITS - 1 then TB.BURST_FLOOR else 0)
  {
    if i < VISITS - 1 {
      YieldLeads(base, i, t);
    } else {
      SendLeads(base, t);
    }
  }

  lemma WayLeads(base: Queue, t: nat) returns (path: seq<ValidQueue>)
    requires Slow(base)
    ensures |path| == VISITS + 1 && path[0] == PoisedAt(base, 0, t) && path[VISITS] == IdleAt(base, t)
    ensures Leading(path, t, TB.BURST_FLOOR)
  {
    path := seq(VISITS + 1, i requires 0 <= i <= VISITS => OnTheWay(base, t, i));
    forall i | 0 <= i < VISITS
      ensures Leads(path[i], Turn(Readings(t, t, t)), path[i + 1], if i == VISITS - 1 then TB.BURST_FLOOR else 0)
    {
      VisitLeads(base, t, i);
    }
  }

  lemma OfferPoises(q: ValidQueue, t: nat)
    requires Slow(q) && q.queued == 0 && q.rotation == [] && Retained(q.peers, t) == map[]
    ensures Enqueue(q, SOMEONE, NOWHERE, Whole(), t, t) == (Poised(q, 0, t), true)
  {
    var p := Poised(q, 0, t).peers[SOMEONE];
    var d := Stamp(SOMEONE, NOWHERE, Whole(), t);
    assert [] + [SOMEONE] == [SOMEONE] && [] + [d] == [d];
    assert Retained(q.peers, t)[SOMEONE := p] == map[SOMEONE := p];
  }

  lemma OfferLeads(q: ValidQueue, t: nat)
    requires Slow(q) && q.queued == 0 && q.rotation == [] && Retained(q.peers, t) == map[]
    ensures Leads(q, Offer(SOMEONE, NOWHERE, Whole(), t, t), PoisedAt(q, 0, t), 0)
  {
    OfferPoises(q, t);
  }

  /** Nothing is queued, and whoever was tracked is forgotten by `t`. */
  ghost predicate Rested(q: Queue, t: nat) {
    Slow(q) && q.queued == 0 && q.rotation == [] && Retained(q.peers, t) == map[]
  }

  lemma IdleRests(base: Queue, t: nat)
    requires Slow(base)
    ensures Rested(Idle(base, t), t + NANOS_PER_SEC)
  {}

  /** One burst is handed out, and a second later its peer is forgotten. */
  lemma BurstSends(q: ValidQueue, n: nat, t: nat, rest: seq<Event>, out: (ValidQueue, seq<Event>) -> nat)
    returns (idle: ValidQueue)
    requires Rested(q, t) && n == VISITS && Additive(out)
    ensures Rested(idle, t + NANOS_PER_SEC)
    ensures out(q, Burst(n, t) + rest) == TB.BURST_FLOOR + out(idle, rest)
  {
    var path := WayLeads(q, t);
    idle := path[n];
    IdleRests(q, t);
    OfferLeads(q, t);
    PathSends(path, t, rest, TB.BURST_FLOOR, out);
    assert Burst(n, t) + rest == [Offer(SOMEONE, NOWHERE, Whole(), t, t)] + (Turns(n, t) + rest);
  }

  lemma BurstsSend(q: ValidQueue, n: nat, second: seq<Event>, out: (ValidQueue, seq<Event>) -> nat)
    requires Rested(q, 0) && n == VISITS && Additive(out) && second == Burst(n, NANOS_PER_SEC) + []
    requires forall last :: out(last, []) == 0
    ensures out(q, Burst(n, 0) + second) == 2 * TB.BURST_FLOOR
  {
    var idle := BurstSends(q, n, 0, second, out);
    var last := BurstSends(idle, n, NANOS_PER_SEC, [], out);
  }

  lemma ServedAdditive()
    ensures Additive((q: ValidQueue, events: seq<Event>) => Served(Run(q, events).1, SOMEONE))
  {
    forall q, e, q', bytes: nat, rest | Leads(q, e, q', bytes)
      ensures Served(Run(q, [e] + rest).1, SOMEONE) == bytes + Served(Run(q', rest).1, SOMEONE)
    {
      FirstEffect(q, e, rest, SOMEONE);
    }
  }

  lemma {:induction false} TurnsInTime(n: nat, t: nat, rest: seq<Event>)
    requires InTime(t, rest)
    ensures InTime(t, Turns(n, t) + rest) && End(t, Turns(n, t) + rest) == End(t, rest)
  {
    if n == 0 {
      assert [] + rest == rest;
    } else {
      TurnsInTime(n - 1, t, rest);
      assert (Turns(n, t) + rest)[1..] == Turns(n - 1, t) + rest;
    }
  }

  lemma BurstInTime(n: nat, from: nat, t: nat, rest: seq<Event>)
    requires from <= t && InTime(t, rest)
    ensures InTime(from, Burst(n, t) + rest) && End(from, Burst(n, t) + rest) == End(t, rest)
  {
    TurnsInTime(n, t, rest);
    assert (Burst(n, t) + rest)[1..] == Turns(n, t) + rest;
  }

  /** A burst, a second's pause, and another. */
  function TwoBursts(): seq<Event> {
    Burst(VISITS, 0) + (Burst(VISITS, NANOS_PER_SEC) + [])
  }

  /**
   Below a burst a second the queue does not conform: a peer that sends one burst, falls
   idle for a second and is forgotten, then sends another, gets two bursts in a second.
   */
  lemma BelowBurstFails(rate: u64)
    requires 0 < rate < TB.BURST_FLOOR
    ensures Valid(Init(1, rate)) && InTime(0, TwoBursts()) && End(0, TwoBursts()) == NANOS_PER_SEC
    ensures !Conforms(Served(Run(Init(1, rate), TwoBursts()).1, SOMEONE), rate, 0, End(0, TwoBursts()))
  {
    var second := Burst(VISITS, NANOS_PER_SEC) + [];
    InitValid(1, rate);
    ServedAdditive();
    BurstsSend(Init(1, rate), VISITS, second, (q, events) => Served(Run(q, events).1, SOMEONE));
    BurstInTime(VISITS, 0, NANOS_PER_SEC, []);
    BurstInTime(VISITS, 0, 0, second);
  }
}
