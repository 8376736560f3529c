/**
 Deficit round robin is fair: two unshaped peers that stay backlogged are never
 further apart than one quantum plus one payload, whatever the other peers do.
 */
module SchedulerFairness {
  import opened Basics
  import opened Scheduler
  import opened SchedulerInvariant
  import opened SchedulerRuns

  /** Whether `a` comes before `b` in the rotation. */
  predicate Before(rotation: seq<QueueKey>, a: QueueKey, b: QueueKey) {
    rotation != [] && (rotation[0] == a || (rotation[0] != b && Before(rotation[1..], a, b)))
  }

  lemma {:induction false} BeforeAppend(rotation: seq<QueueKey>, a: QueueKey, b: QueueKey, more: QueueKey)
    requires a in rotation || b in rotation
    ensures Before(rotation + [more], a, b) == Before(rotation, a, b)
  {
    if rotation[0] != a && rotation[0] != b {
      BeforeAppend(rotation[1..], a, b, more);
      assert (rotation + [more])[1..] == rotation[1..] + [more];
    }
  }

  lemma {:induction false} BeforeOpposite(rotation: seq<QueueKey>, a: QueueKey, b: QueueKey)
    requires a != b && a in rotation
    ensures Before(rotation, b, a) == !Before(rotation, a, b)
  {
    if rotation[0] != a && rotation[0] != b {
      BeforeOpposite(rotation[1..], a, b);
    }
  }

  function ByteCount(ds: seq<Datagram>): nat {
    if ds == [] then 0 else |ds[0].payload| + ByteCount(ds[1..])
  }

  /** Payload bytes handed to the socket for `k`. */
  function Served(effects: seq<Effect>, k: QueueKey): nat {
    ByteCount(Output(effects, k))
  }

  /** A peer with packets to send, none above `limit` bytes, and no shaping. */
  ghost predicate Backlogged(q: Queue, k: QueueKey, limit: nat) {
    && Waiting(q, k) && q.peers[k].bucket.None?
    && forall d <- q.peers[k].packets :: |d.payload| <= limit
  }

  /** Offers within the payload limit, visits, and no switch to a nonzero rate. */
  predicate Calm(e: Event, limit: nat) {
    && (e.Offer? ==> |e.payload| <= limit)
    && (e.Rerate? ==> e.rate == 0)
  }

  /** `a` and `b` are backlogged now and after every event. */
  ghost predicate StayBacklogged(q: ValidQueue, events: seq<Event>, a: QueueKey, b: QueueKey, limit: nat)
    decreases |events|
  {
    && Backlogged(q, a, limit) && Backlogged(q, b, limit)
    && (events != [] ==> Calm(events[0], limit) && StayBacklogged(Step(q, events[0]).0, events[1..], a, b, limit))
  }

  ghost predicate Bounded(p: PeerQueue, limit: nat) {
    p.deficit < Max(limit, 1) + if p.inRound then DRR_QUANTUM else 0
  }

  /**
   `a` led at the start; `sa` and `sb` are the bytes served since. What each peer was
   granted, served plus deficit, differs by one quantum exactly while `a` has had its
   turn and `b` has not.
   */
  ghost predicate InStep(q: Queue, a: QueueKey, b: QueueKey, limit: nat, sa: nat, sb: nat) {
    && a != b && Backlogged(q, a, limit) && Backlogged(q, b, limit)
    && Bounded(q.peers[a], limit) && Bounded(q.peers[b], limit)
    && (limit == 0 ==> sa == 0 && sb == 0)
    && (var granted := (sa + q.peers[a].deficit) - (sb + q.peers[b].deficit);
        granted == if q.peers[a].inRound || (Before(q.rotation, b, a) && !q.peers[b].inRound) then DRR_QUANTUM else 0)
  }

  lemma InStepMeansFair(q: Queue, a: QueueKey, b: QueueKey, limit: nat, sa: nat, sb: nat)
    requires RotationExact(q) && InStep(q, a, b, limit, sa, sb)
    ensures -((DRR_QUANTUM + limit) as int) < sa - sb < DRR_QUANTUM + limit
  {
    assert !(q.peers[a].inRound && q.peers[b].inRound);
  }

  lemma {:induction false} BeforeAbsent(rotation: seq<QueueKey>, a: QueueKey, b: QueueKey)
    requires a in rotation && b !in rotation
    ensures Before(rotation, a, b) && !Before(rotation, b, a)
  {
    if rotation[0] != a {
      BeforeAbsent(rotation[1..], a, b);
    }
  }

  /** Bytes of `k` that leave with this outcome. */
  function Leaving(outcome: Outcome, k: QueueKey): nat {
    if outcome.Sent? && outcome.key == k then |outcome.datagram.payload| else 0
  }

  /** An unshaped peer's turn grants a quantum to one outside a round, and moves bytes from deficit to service. */
  lemma TurnLedger(key: QueueKey, p: PeerQueue, limit: nat, now: Readings)
    requires p.packets != [] && p.bucket.None? && Bounded(p, limit) && limit + DRR_QUANTUM <= USIZE_MAX
    requires forall d <- p.packets :: |d.payload| <= limit
    ensures var (p', outcome) := PeerTurn(key, p, now);
            p'.packets != [] && (forall d <- p'.packets :: |d.payload| <= limit) ==>
              && Bounded(p', limit) && p'.bucket.None?
              && Leaving(outcome, key) + p'.deficit == p.deficit + (if p.inRound then 0 else DRR_QUANTUM)
              && (limit == 0 ==> Leaving(outcome, key) == 0)
  {
    assert p.packets[0] in p.packets;
    var (p', outcome) := PeerTurn(key, p, now);
    if p'.packets != [] {
      assert p'.packets[0] in p'.packets;
    }
  }

  lemma FrontIsLeader(q: Queue, now: Readings, a: QueueKey, b: QueueKey, limit: nat, sa: nat, sb: nat)
    requires FrontReady(q) && RotationExact(q) && InStep(q, a, b, limit, sa, sb) && q.rotation[0] == a
    requires limit + DRR_QUANTUM <= USIZE_MAX
    requires Backlogged(Visit(q, now).0, a, limit)
    ensures var (q', outcome) := Visit(q, now);
            InStep(q', a, b, limit, sa + Leaving(outcome, a), sb + Leaving(outcome, b))
  {
    TurnLedger(a, q.peers[a], limit, now);
    RotatedKeepsMembers(q.rotation);
    BeforeAbsent(q.rotation[1..], b, a);
    BeforeAppend(q.rotation[1..], b, a, a);
  }

  lemma FrontIsFollower(q: Queue, now: Readings, a: QueueKey, b: QueueKey, limit: nat, sa: nat, sb: nat)
    requires FrontReady(q) && RotationExact(q) && InStep(q, a, b, limit, sa, sb) && q.rotation[0] == b
    requires limit + DRR_QUANTUM <= USIZE_MAX
    requires Backlogged(Visit(q, now).0, b, limit)
    ensures var (q', outcome) := Visit(q, now);
            InStep(q', a, b, limit, sa + Leaving(outcome, a), sb + Leaving(outcome, b))
  {
    TurnLedger(b, q.peers[b], limit, now);
    RotatedKeepsMembers(q.rotation);
    BeforeAbsent(q.rotation[1..], a, b);
    BeforeAppend(q.rotation[1..], b, a, b);
  }

  /** A visit leaves every peer but the front one as it is. */
  lemma OtherKept(q: Queue, now: Readings, k: QueueKey, limit: nat)
    requires FrontReady(q) && RotationExact(q) && q.rotation[0] != k && Backlogged(q, k, limit)
    ensures var (q', outcome) := Visit(q, now);
            k in q'.peers && q'.peers[k] == q.peers[k] && Backlogged(q', k, limit) && Leaving(outcome, k) == 0
  {
    RotatedKeepsMembers(q.rotation);
  }

  lemma OrderKept(q: Queue, now: Readings, a: QueueKey, b: QueueKey)
    requires FrontReady(q) && RotationExact(q) && q.rotation[0] != a && q.rotation[0] != b && a in q.rotation
    ensures Before(Visit(q, now).0.rotation, b, a) == Before(q.rotation, b, a)
  {
    BeforeAppend(q.rotation[1..], b, a, q.rotation[0]);
  }

  lemma FrontIsOther(q: Queue, now: Readings, a: QueueKey, b: QueueKey, limit: nat, sa: nat, sb: nat)
    requires FrontReady(q) && RotationExact(q) && InStep(q, a, b, limit, sa, sb)
    requires q.rotation[0] != a && q.rotation[0] != b
    ensures var (q', outcome) := Visit(q, now);
            InStep(q', a, b, limit, sa + Leaving(outcome, a), sb + Leaving(outcome, b))
  {
    OtherKept(q, now, a, limit);
    OtherKept(q, now, b, limit);
    OrderKept(q, now, a, b);
  }

  lemma OfferKeepsStep(q: Queue, e: Event, a: QueueKey, b: QueueKey, limit: nat, sa: nat, sb: nat)
    requires RotationExact(q) && InStep(q, a, b, limit, sa, sb)
    requires e.Offer? && Calm(e, limit)
    ensures InStep(Enqueue(q, e.key, e.endpoint, e.payload, e.now, e.created).0, a, b, limit, sa, sb)
  {
    OfferEffect(q, e.key, e.endpoint, e.payload, e.now, e.created, a);
    OfferEffect(q, e.key, e.endpoint, e.payload, e.now, e.created, b);
    BeforeAppend(q.rotation, b, a, e.key);
  }

  lemma TurnKeepsStep(q: Queue, now: Readings, a: QueueKey, b: QueueKey, limit: nat, sa: nat, sb: nat)
    requires FrontReady(q) && RotationExact(q) && InStep(q, a, b, limit, sa, sb)
    requires limit + DRR_QUANTUM <= USIZE_MAX
    requires Backlogged(Visit(q, now).0, a, limit) && Backlogged(Visit(q, now).0, b, limit)
    ensures var (q', outcome) := Visit(q, now);
            InStep(q', a, b, limit, sa + Leaving(outcome, a), sb + Leaving(outcome, b))
  {
    if q.rotation[0] == a {
      FrontIsLeader(q, now, a, b, limit, sa, sb);
    } else if q.rotation[0] == b {
      FrontIsFollower(q, now, a, b, limit, sa, sb);
    } else {
      FrontIsOther(q, now, a, b, limit, sa, sb);
    }
  }

  /** The bytes `k` was served by one effect. */
  function Serves(f: Effect, k: QueueKey): nat {
    if f.Delivered? && f.key == k then |f.datagram.payload| else 0
  }

  lemma StepKeepsStep(q: ValidQueue, e: Event, a: QueueKey, b: QueueKey, limit: nat, sa: nat, sb: nat)
    requires InStep(q, a, b, limit, sa, sb) && Calm(e, limit)
    requires limit + DRR_QUANTUM <= USIZE_MAX
    requires Backlogged(Step(q, e).0, a, limit) && Backlogged(Step(q, e).0, b, limit)
    ensures var (q', f) := Step(q, e);
            InStep(q', a, b, limit, sa + Serves(f, a), sb + Serves(f, b))
  {
    if e.Offer? {
      OfferKeepsStep(q, e, a, b, limit, sa, sb);
    } else if e.Turn? && q.rotation != [] {
      ListedMeansQueued(q);
      TurnKeepsStep(q, e.at, a, b, limit, sa, sb);
    }
  }

  lemma {:induction false} ByteCountJoin(x: seq<Datagram>, y: seq<Datagram>)
    ensures ByteCount(x + y) == ByteCount(x) + ByteCount(y)
  {
    if x == [] {
      assert x + y == y;
    } else {
      ByteCountJoin(x[1..], y);
      assert (x + y)[1..] == x[1..] + y;
    }
  }

  lemma {:induction false} RunKeepsStep(q: ValidQueue, events: seq<Event>, a: QueueKey, b: QueueKey, limit: nat,
                                        sa: nat, sb: nat)
    requires InStep(q, a, b, limit, sa, sb)
    requires limit + DRR_QUANTUM <= USIZE_MAX
    requires StayBacklogged(q, events, a, b, limit)
    ensures var (q', fs) := Run(q, events);
            InStep(q', a, b, limit, sa + Served(fs, a), sb + Served(fs, b))
    decreases |events|
  {
    if events != [] {
      var (mid, f) := Step(q, events[0]);
      var (last, fs) := Run(mid, events[1..]);
      StepKeepsStep(q, events[0], a, b, limit, sa, sb);
      RunKeepsStep(mid, events[1..], a, b, limit, sa + Serves(f, a), sb + Serves(f, b));
      ServedJoin(f, fs, a);
      ServedJoin(f, fs, b);
    }
  }

  lemma ServedJoin(f: Effect, fs: seq<Effect>, k: QueueKey)
    ensures Served([f] + fs, k) == Serves(f, k) + Served(fs, k)
  {
    assert ([f] + fs)[1..] == fs;
    ByteCountJoin(OutputBy(f, k), Output(fs, k));
  }

  /**
   Fairness: from a state where both have no deficit and no open round, two peers that
   stay backlogged with payloads of at most `limit` bytes have, after any further
   events, been served byte totals less than one quantum plus `limit` apart.
   */
  lemma Fairness(q: ValidQueue, events: seq<Event>, a: QueueKey, b: QueueKey, limit: nat)
    requires a != b
    requires limit + DRR_QUANTUM <= USIZE_MAX
    requires StayBacklogged(q, events, a, b, limit)
    requires q.peers[a].deficit == 0 && !q.peers[a].inRound
    requires q.peers[b].deficit == 0 && !q.peers[b].inRound
    ensures var fs := Run(q, events).1;
            -((DRR_QUANTUM + limit) as int) < Served(fs, a) - Served(fs, b) < DRR_QUANTUM + limit
  {
    var (q', fs) := Run(q, events);
    BeforeOpposite(q.rotation, a, b);
    if Before(q.rotation, a, b) {
      RunKeepsStep(q, events, a, b, limit, 0, 0);
      InStepMeansFair(q', a, b, limit, Served(fs, a), Served(fs, b));
    } else {
      Swapped(q, events, a, b, limit);
      RunKeepsStep(q, events, b, a, limit, 0, 0);
      InStepMeansFair(q', b, a, limit, Served(fs, b), Served(fs, a));
    }
  }

  lemma {:induction false} Swapped(q: ValidQueue, events: seq<Event>, a: QueueKey, b: QueueKey, limit: nat)
    requires StayBacklogged(q, events, a, b, limit)
    ensures StayBacklogged(q, events, b, a, limit)
    decreases |events|
  {
    if events != [] {
      Swapped(Step(q, events[0]).0, events[1..], a, b, limit);
    }
  }

  // Under a rate limit deficit piles up

  function AfterTurns(key: QueueKey, p: PeerQueue, times: seq<Readings>): PeerQueue
    requires p.bucket.Some? ==> p.bucket.value.rate > 0
    decreases |times|
  {
    if times == [] then p else AfterTurns(key, PeerTurn(key, p, times[0]).0, times[1..])
  }

  /** The bucket refuses the peer's head at every one of these turns. */
  predicate AllRefused(key: QueueKey, p: PeerQueue, times: seq<Readings>)
    requires p.bucket.Some? ==> p.bucket.value.rate > 0
    decreases |times|
  {
    times != [] ==>
      && PeerTurn(key, p, times[0]).1.Delayed?
      && AllRefused(key, PeerTurn(key, p, times[0]).0, times[1..])
  }

  /** Each visit that the bucket refuses leaves another quantum, so `n` of them leave 1500 * n bytes of deficit more. */
  lemma {:induction false} RefusalsPile(key: QueueKey, p: PeerQueue, times: seq<Readings>)
    requires (p.bucket.Some? ==> p.bucket.value.rate > 0) && !p.inRound && p.deficit <= USIZE_MAX
    requires AllRefused(key, p, times)
    ensures var p' := AfterTurns(key, p, times);
            p'.packets == p.packets && !p'.inRound && p'.deficit == Min(p.deficit + |times| * DRR_QUANTUM, USIZE_MAX)
    decreases |times|
  {
    if times != [] {
      RefusalsPile(key, PeerTurn(key, p, times[0]).0, times[1..]);
    }
  }
}
