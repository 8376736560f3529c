/**
 Progress without shaping: a peer that waits without a bucket bounds the number of scans
 before one sends a datagram, whatever is offered between the scans.
 */
module SchedulerProgress {
  import opened Basics
  import opened Scheduler
  import opened SchedulerInvariant
  import opened SchedulerRuns
  import opened SchedulerScan

  /** `k` has packets to send and no bucket to pass. */
  ghost predicate Unshaped(q: Queue, k: QueueKey) {
    Waiting(q, k) && q.peers[k].bucket.None?
  }

  /** Bytes of deficit that `k` lacks before its head can go. */
  function Lack(q: Queue, k: QueueKey): nat
    requires k in q.peers
  {
    Max(HeadSize(q.peers[k]) - q.peers[k].deficit, 0)
  }

  /** A peer without a bucket that does not send has gained a quantum and still lacks deficit. */
  lemma YieldGains(key: QueueKey, p: PeerQueue, limit: nat, now: Readings)
    requires PeerValid(p, limit) && p.packets != [] && p.bucket.None?
    ensures var (p', outcome) := PeerTurn(key, p, now);
            !outcome.Sent? ==>
              && p'.packets == p.packets && p'.bucket.None?
              && HeadSize(p) > p.deficit + DRR_QUANTUM && p'.deficit == p.deficit + DRR_QUANTUM
  {}

  /** A full scan sends, or leaves every unshaped peer waiting with a quantum less to find. */
  lemma SendsOrGains(q: ValidQueue, times: seq<Readings>, k: QueueKey)
    requires Unshaped(q, k) && |times| == |q.rotation| && Scan(q, times).1.sent.None?
    ensures var q' := Scan(q, times).0;
            Unshaped(q', k) && Lack(q, k) > DRR_QUANTUM && Lack(q', k) == Lack(q, k) - DRR_QUANTUM
  {
    var i :| 0 <= i < |q.rotation| && q.rotation[i] == k;
    SilentVisit(q, times, i);
    YieldGains(k, q.peers[k], q.perPeerCapacity, times[i]);
  }

  /** What may happen between two scans: any offer, and a change of rate that leaves shaping off. */
  predicate BetweenScans(e: Event) {
    e.Offer? || (e.Rerate? && e.rate == 0)
  }

  lemma EventKeepsLack(q: ValidQueue, e: Event, k: QueueKey)
    requires BetweenScans(e) && Unshaped(q, k)
    ensures var q' := Step(q, e).0; Unshaped(q', k) && Lack(q', k) == Lack(q, k)
  {
    if e.Offer? {
      OfferEffect(q, e.key, e.endpoint, e.payload, e.now, e.created, k);
    }
  }

  lemma {:induction false} EventsKeepLack(q: ValidQueue, events: seq<Event>, k: QueueKey)
    requires (forall e <- events :: BetweenScans(e)) && Unshaped(q, k)
    ensures var q' := Run(q, events).0; Unshaped(q', k) && Lack(q', k) == Lack(q, k)
    decreases |events|
  {
    if events != [] {
      EventKeepsLack(q, events[0], k);
      EventsKeepLack(Step(q, events[0]).0, events[1..], k);
    }
  }

  /** What happens before a scan, and the scan: one visit for each peer listed by then. */
  datatype Round = Round(events: seq<Event>, times: seq<Readings>)

  function Before(q: ValidQueue, r: Round): ValidQueue {
    Run(q, r.events).0
  }

  /** Each scan makes as many visits as peers are listed when it starts. */
  predicate FullScans(q: ValidQueue, rounds: seq<Round>)
    decreases |rounds|
  {
    rounds != [] ==>
      && |rounds[0].times| == |Before(q, rounds[0]).rotation|
      && FullScans(Scan(Before(q, rounds[0]), rounds[0].times).0, rounds[1..])
  }

  /** Whether one of these scans sends something. */
  predicate SendsWithin(q: ValidQueue, rounds: seq<Round>)
    decreases |rounds|
  {
    rounds != [] &&
    (var (q', result) := Scan(Before(q, rounds[0]), rounds[0].times);
     result.sent.Some? || SendsWithin(q', rounds[1..]))
  }

  /**
   Progress: once the quanta of `|rounds|` scans cover what some unshaped waiting peer
   lacked at the start, one of the scans has sent a datagram, whatever was offered to
   anyone in between.
   */
  lemma {:induction false} UnshapedProgress(q: ValidQueue, rounds: seq<Round>, k: QueueKey)
    requires Unshaped(q, k) && rounds != [] && FullScans(q, rounds)
    requires forall r <- rounds :: forall e <- r.events :: BetweenScans(e)
    requires Lack(q, k) <= |rounds| * DRR_QUANTUM
    ensures SendsWithin(q, rounds)
    decreases |rounds|
  {
    var before := Before(q, rounds[0]);
    assert rounds[0] in rounds;
    EventsKeepLack(q, rounds[0].events, k);
    if Scan(before, rounds[0].times).1.sent.None? {
      SendsOrGains(before, rounds[0].times, k);
      UnshapedProgress(Scan(before, rounds[0].times).0, rounds[1..], k);
    }
  }

  function Undisturbed(scans: seq<seq<Readings>>): seq<Round> {
    seq(|scans|, i requires 0 <= i < |scans| => Round([], scans[i]))
  }

  lemma {:induction false} SilentScansFull(q: ValidQueue, scans: seq<seq<Readings>>)
    requires forall scan <- scans :: |scan| == |q.rotation|
    requires !SendsWithin(q, Undisturbed(scans))
    ensures FullScans(q, Undisturbed(scans))
    decreases |scans|
  {
    if scans != [] {
      var next := Scan(q, scans[0]).0;
      assert Undisturbed(scans)[0] == Round([], scans[0]) && Undisturbed(scans)[1..] == Undisturbed(scans[1..]);
      assert scans[0] in scans;
      if q.rotation != [] {
        SilentVisit(q, scans[0], 0);
      }
      SilentScansFull(next, scans[1..]);
    }
  }

  /** The same with nothing in between: the scans need only be as long as the rotation was at the start. */
  lemma UndisturbedProgress(q: ValidQueue, scans: seq<seq<Readings>>, k: QueueKey)
    requires Unshaped(q, k) && scans != [] && forall scan <- scans :: |scan| == |q.rotation|
    requires Lack(q, k) <= |scans| * DRR_QUANTUM
    ensures SendsWithin(q, Undisturbed(scans))
  {
    if !SendsWithin(q, Undisturbed(scans)) {
      SilentScansFull(q, scans);
      UnshapedProgress(q, Undisturbed(scans), k);
    }
  }
}
