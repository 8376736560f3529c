/**
 The receive scan: up to one visit for each listed peer, stopping at the first
 datagram sent. With shaping the returned wait is the least that lets the next scan send.
 */
module SchedulerScan {
  import opened Basics
  import opened Scheduler
  import opened SchedulerInvariant
  import TB = TokenBucket

  /** The queue after one visit of a scan, and what the visit came to. */
  datatype Visited = Visited(queue: ValidQueue, outcome: Outcome)

  /** The visits of one scan; `times[i]` is the clock at the `i`th. */
  function Visits(q: ValidQueue, times: seq<Readings>): (vs: seq<Visited>)
    ensures |vs| <= |times|
    decreases |times|
  {
    if times == [] || q.rotation == [] then []
    else
      VisitKeepsValid(q, times[0]);
      var (q', outcome) := Visit(q, times[0]);
      [Visited(q', outcome)] + if outcome.Sent? then [] else Visits(q', times[1..])
  }

  /** What a scan returns: a datagram, or the shortest bucket delay and whether a peer lacked deficit. */
  datatype ScanResult = ScanResult(sent: Option<Outcome>, waitFor: Option<nat>, yielded: bool)

  function SentBy(vs: seq<Visited>): Option<Outcome> {
    if vs != [] && vs[|vs| - 1].outcome.Sent? then Some(vs[|vs| - 1].outcome) else None
  }

  function ShortestWait(vs: seq<Visited>): Option<nat> {
    if vs == [] then None
    else
      var earlier, last := ShortestWait(vs[..|vs| - 1]), vs[|vs| - 1].outcome;
      if !last.Delayed? then earlier
      else Some(if earlier.None? then last.wait else Min(earlier.value, last.wait))
  }

  predicate AnyYielded(vs: seq<Visited>) {
    exists i | 0 <= i < |vs| :: vs[i].outcome.Yielded?
  }

  function AfterVisits(q: ValidQueue, vs: seq<Visited>): ValidQueue {
    if vs == [] then q else vs[|vs| - 1].queue
  }

  function Summary(q: ValidQueue, vs: seq<Visited>): (ValidQueue, ScanResult) {
    (AfterVisits(q, vs), ScanResult(SentBy(vs), ShortestWait(vs), AnyYielded(vs)))
  }

  function Scan(q: ValidQueue, times: seq<Readings>): (ValidQueue, ScanResult) {
    Summary(q, Visits(q, times))
  }

  /** The queue just before visit `i`. */
  function Pre(q: ValidQueue, vs: seq<Visited>, i: nat): ValidQueue
    requires i <= |vs|
  {
    if i == 0 then q else vs[i - 1].queue
  }

  /** Each visit of a scan is a visit, and only the last can have sent. */
  lemma {:induction false} VisitsAreVisits(q: ValidQueue, times: seq<Readings>, i: nat)
    requires i < |Visits(q, times)|
    ensures var vs := Visits(q, times);
            && FrontReady(Pre(q, vs, i))
            && Visit(Pre(q, vs, i), times[i]) == (vs[i].queue, vs[i].outcome)
            && (i < |vs| - 1 ==> !vs[i].outcome.Sent?)
    decreases |times|
  {
    VisitKeepsValid(q, times[0]);
    if i > 0 {
      var q' := Visit(q, times[0]).0;
      VisitsAreVisits(q', times[1..], i - 1);
      assert Visits(q, times)[1..] == Visits(q', times[1..]);
    }
  }

  /** A first visit that sends nothing leaves the rest of the scan to decide. */
  lemma MissedFirst(q: ValidQueue, v: Visited, rest: seq<Visited>)
    requires !v.outcome.Sent?
    ensures SentBy([v] + rest) == SentBy(rest)
    ensures AfterVisits(q, [v] + rest) == AfterVisits(v.queue, rest)
  {}

  /** A scan stops early only by sending or by running out of listed peers. */
  lemma {:induction false} VisitsStop(q: ValidQueue, times: seq<Readings>)
    ensures var vs := Visits(q, times);
            |vs| < |times| ==> SentBy(vs).Some? || AfterVisits(q, vs).rotation == []
    decreases |times|
  {
    if times != [] && q.rotation != [] {
      VisitKeepsValid(q, times[0]);
      var (q', outcome) := Visit(q, times[0]);
      if !outcome.Sent? {
        VisitsStop(q', times[1..]);
        MissedFirst(q, Visited(q', outcome), Visits(q', times[1..]));
      }
    }
  }

  lemma {:induction false} SomeVisitSetsTheWait(vs: seq<Visited>) returns (i: nat)
    requires ShortestWait(vs).Some?
    ensures i < |vs| && vs[i].outcome == Delayed(ShortestWait(vs).value)
  {
    var last := vs[|vs| - 1].outcome;
    if last.Delayed? && ShortestWait(vs) == Some(last.wait) {
      i := |vs| - 1;
    } else {
      i := SomeVisitSetsTheWait(vs[..|vs| - 1]);
    }
  }

  /** A visit that sends nothing only moves the front peer to the back, with its quantum added. */
  ghost predicate Missed(q: Queue, q': Queue) {
    && q.rotation != [] && q.rotation[0] in q.peers && q.rotation[0] in q'.peers
    && (var key, p := q.rotation[0], q'.peers[q.rotation[0]];
        && q' == q.(peers := q.peers[key := p], rotation := q.rotation[1..] + [key])
        && p == Granted(q.peers[key]).(inRound := false, bucket := p.bucket))
  }

  lemma Miss(q: ValidQueue, now: Readings, q': Queue, outcome: Outcome)
    requires FrontReady(q) && Visit(q, now) == (q', outcome) && !outcome.Sent?
    ensures Missed(q, q')
  {
    TurnEffect(q.rotation[0], q.peers[q.rotation[0]], q.perPeerCapacity, now);
  }

  ghost predicate MissPath(path: seq<Queue>) {
    path != [] && forall i | 0 <= i < |path| - 1 :: Missed(path[i], path[i + 1])
  }

  /** Along a path of misses the rotation turns, and each peer changes only at its own visit. */
  lemma {:induction false} PathShape(path: seq<Queue>, i: nat)
    requires MissPath(path) && RotationExact(path[0])
    requires i < |path| <= |path[0].rotation| + 1
    ensures var rotation := path[0].rotation;
            && path[i].rotation == rotation[i..] + rotation[..i]
            && (forall j | 0 <= j < |rotation| :: rotation[j] in path[i].peers && rotation[j] in path[0].peers)
            && (forall j | i <= j < |rotation| :: path[i].peers[rotation[j]] == path[0].peers[rotation[j]])
  {
    var rotation := path[0].rotation;
    if i == 0 {
      forall j | 0 <= j < |rotation| ensures rotation[j] in path[0].peers {
        assert rotation[j] in rotation;
        assert Waiting(path[0], rotation[j]);
      }
    } else {
      PathShape(path, i - 1);
      assert Missed(path[i - 1], path[i]);
      assert path[i - 1].rotation[0] == rotation[i - 1];
      assert (rotation[i - 1..] + rotation[..i - 1])[1..] + [rotation[i - 1]] == rotation[i..] + rotation[..i];
    }
  }

  /** After its own visit at `j` a peer is left alone for the rest of the path. */
  lemma {:induction false} PathKeeps(path: seq<Queue>, j: nat, i: nat)
    requires MissPath(path) && RotationExact(path[0])
    requires j < i < |path| <= |path[0].rotation| + 1
    ensures path[0].rotation[j] in path[i].peers && path[0].rotation[j] in path[j + 1].peers
    ensures path[i].peers[path[0].rotation[j]] == path[j + 1].peers[path[0].rotation[j]]
  {
    PathShape(path, i);
    PathShape(path, i - 1);
    if i > j + 1 {
      PathKeeps(path, j, i - 1);
      assert Missed(path[i - 1], path[i]);
      assert path[i - 1].rotation[0] == path[0].rotation[i - 1];
    }
  }

  /** The queues before, between and after visits. */
  ghost function Through(q: ValidQueue, vs: seq<Visited>): (path: seq<Queue>)
    ensures |path| == |vs| + 1 && path[0] == q && forall i | 0 <= i < |vs| :: path[i + 1] == vs[i].queue
  {
    [q] + seq(|vs|, i requires 0 <= i < |vs| => vs[i].queue)
  }

  ghost predicate AllMissed(q: ValidQueue, vs: seq<Visited>) {
    forall i | 0 <= i < |vs| :: Missed(Pre(q, vs, i), vs[i].queue)
  }

  lemma ThroughMisses(q: ValidQueue, vs: seq<Visited>)
    requires AllMissed(q, vs)
    ensures MissPath(Through(q, vs))
  {
    var path := Through(q, vs);
    forall i | 0 <= i < |path| - 1 ensures Missed(path[i], path[i + 1]) {
      assert path[i] == Pre(q, vs, i);
    }
  }

  ghost function Path(q: ValidQueue, times: seq<Readings>): seq<Queue> {
    Through(q, Visits(q, times))
  }

  lemma SilentStep(q: ValidQueue, times: seq<Readings>, i: nat)
    requires i < |Visits(q, times)| && !Visits(q, times)[i].outcome.Sent?
    ensures Missed(Pre(q, Visits(q, times), i), Visits(q, times)[i].queue)
  {
    VisitsAreVisits(q, times, i);
    var before, v := Pre(q, Visits(q, times), i), Visits(q, times)[i];
    Miss(before, times[i], v.queue, v.outcome);
  }

  lemma {:induction false} SilentMeansNoneSent(q: ValidQueue, times: seq<Readings>, i: nat)
    requires SentBy(Visits(q, times)).None? && i < |Visits(q, times)|
    ensures !Visits(q, times)[i].outcome.Sent?
  {
    VisitsAreVisits(q, times, i);
  }

  lemma SilentMisses(q: ValidQueue, times: seq<Readings>)
    requires Scan(q, times).1.sent.None?
    ensures AllMissed(q, Visits(q, times))
  {
    var vs := Visits(q, times);
    forall i | 0 <= i < |vs| ensures Missed(Pre(q, vs, i), vs[i].queue) {
      SilentMeansNoneSent(q, times, i);
      SilentStep(q, times, i);
    }
  }

  /** A scan that sends nothing is a path of misses, one for each peer listed. */
  lemma SilentPath(q: ValidQueue, times: seq<Readings>)
    requires Scan(q, times).1.sent.None? && |times| <= |q.rotation|
    ensures |Visits(q, times)| == |times| && MissPath(Path(q, times))
  {
    var path, n := Path(q, times), |Visits(q, times)|;
    SilentMisses(q, times);
    ThroughMisses(q, Visits(q, times));
    VisitsStop(q, times);
    PathShape(path, n);
    assert path[n] == AfterVisits(q, Visits(q, times));
  }

  /** Once granted its quantum, `p` sends its head at any time from `from` on. */
  ghost predicate Ripe(p: PeerQueue, from: nat) {
    && p.packets != []
    && HeadSize(p) <= Granted(p).deficit
    && (p.bucket.Some? ==>
          p.bucket.value.rate > 0 && forall t: nat | t >= from :: TB.TakeStep(p.bucket.value, t, HeadSize(p)).1)
  }

  lemma RipeSends(key: QueueKey, p: PeerQueue, from: nat, now: Readings)
    requires Ripe(p, from) && now.charge >= from
    ensures PeerTurn(key, p, now).1.Sent?
  {}

  lemma SilentPlaces(q: ValidQueue, times: seq<Readings>, i: nat)
    requires Scan(q, times).1.sent.None? && i < |times| == |q.rotation|
    ensures |Visits(q, times)| == |times|
    ensures var (key, vs) := (q.rotation[i], Visits(q, times));
            var (before, after) := (Pre(q, vs, i), Pre(q, vs, |vs|));
            && after.rotation == q.rotation && before.rotation != [] && before.rotation[0] == key
            && key in q.peers && key in before.peers && before.peers[key] == q.peers[key]
            && key in after.peers && key in vs[i].queue.peers && after.peers[key] == vs[i].queue.peers[key]
  {
    var path, n := Path(q, times), |times|;
    SilentPath(q, times);
    PathShape(path, i);
    PathShape(path, n);
    PathKeeps(path, i, n);
    assert path[i] == Pre(q, Visits(q, times), i) && path[n] == Pre(q, Visits(q, times), n);
    assert path[i + 1] == Visits(q, times)[i].queue;
  }

  /** In a full silent scan the `i`th visit meets the `i`th listed peer as it was, and nothing touches it later. */
  lemma SilentVisit(q: ValidQueue, times: seq<Readings>, i: nat)
    requires Scan(q, times).1.sent.None? && i < |times| == |q.rotation|
    ensures i < |Visits(q, times)| && Scan(q, times).0.rotation == q.rotation
    ensures var (key, after, outcome) := (q.rotation[i], Scan(q, times).0, Visits(q, times)[i].outcome);
            && key in q.peers && key in after.peers && !outcome.Sent?
            && PeerValid(q.peers[key], q.perPeerCapacity) && q.peers[key].packets != []
            && PeerTurn(key, q.peers[key], times[i]) == (after.peers[key], outcome)
  {
    SilentPlaces(q, times, i);
    VisitsAreVisits(q, times, i);
    SilentMeansNoneSent(q, times, i);
    assert Waiting(q, q.rotation[i]) by {
      assert q.rotation[i] in q.rotation;
    }
    TurnOfVisit(Pre(q, Visits(q, times), i), times[i]);
  }

  lemma TurnOfVisit(q: ValidQueue, now: Readings)
    requires FrontReady(q) && !Visit(q, now).1.Sent?
    ensures var (key, q') := (q.rotation[0], Visit(q, now).0);
            key in q'.peers && PeerTurn(key, q.peers[key], now) == (q'.peers[key], Visit(q, now).1)
  {
    TurnEffect(q.rotation[0], q.peers[q.rotation[0]], q.perPeerCapacity, now);
  }

  /** A ripe peer in the rotation makes a full scan send, if not for that peer then for one before it. */
  lemma RipeMakesScanSend(q: ValidQueue, times: seq<Readings>, i: nat, from: nat)
    requires i < |q.rotation| == |times| && q.rotation[i] in q.peers
    requires Ripe(q.peers[q.rotation[i]], from) && times[i].charge >= from
    ensures Scan(q, times).1.sent.Some?
  {
    if Scan(q, times).1.sent.None? {
      SilentVisit(q, times, i);
      RipeSends(q.rotation[i], q.peers[q.rotation[i]], from, times[i]);
    }
  }

  /** Every head that has to pass a bucket fits that bucket. */
  ghost predicate HeadsFit(q: Queue) {
    forall k <- q.peers :: q.peers[k].bucket.Some? ==> HeadSize(q.peers[k]) <= q.peers[k].bucket.value.capacity
  }

  /** The peer a bucket has just refused is ripe once the refusal's wait is over. */
  lemma RefusedRipens(key: QueueKey, p: PeerQueue, limit: nat, now: Readings)
    requires PeerValid(p, limit) && p.packets != []
    requires p.bucket.Some? ==> HeadSize(p) <= p.bucket.value.capacity
    ensures var (p', outcome) := PeerTurn(key, p, now);
            outcome.Delayed? ==> Ripe(p', now.charge + outcome.wait)
  {
    var (p', outcome) := PeerTurn(key, p, now);
    if outcome.Delayed? {
      forall t: nat | t >= now.charge + outcome.wait ensures TB.TakeStep(p'.bucket.value, t, HeadSize(p)).1 {
        TB.DelayIsLeast(p.bucket.value, now.charge, HeadSize(p), t - now.charge);
        assert now.charge + (t - now.charge) == t;
      }
    }
  }

  /**
   Progress with shaping: when a full scan sends nothing and returns a wait, an
   undisturbed scan made once the wait is over sends a datagram.
   */
  lemma ShapedProgress(q: ValidQueue, times: seq<Readings>, end: nat, again: seq<Readings>)
    requires HeadsFit(q) && |times| == |q.rotation| == |again|
    requires forall j | 0 <= j < |times| :: times[j].charge <= end
    requires Scan(q, times).1.sent.None? && Scan(q, times).1.waitFor.Some?
    requires forall j | 0 <= j < |again| :: again[j].charge >= end + Scan(q, times).1.waitFor.value
    ensures Scan(Scan(q, times).0, again).1.sent.Some?
  {
    var i := SomeVisitSetsTheWait(Visits(q, times));
    var key := q.rotation[i];
    SilentVisit(q, times, i);
    RefusedRipens(key, q.peers[key], q.perPeerCapacity, times[i]);
    RipeMakesScanSend(Scan(q, times).0, again, i, times[i].charge + Scan(q, times).1.waitFor.value);
  }

  /** When a scan sends, it sends for a listed peer that could go as it stood before the scan. */
  lemma SendingVisit(q: ValidQueue, times: seq<Readings>) returns (j: nat)
    requires Scan(q, times).1.sent.Some? && |times| <= |q.rotation|
    ensures j < |times| && q.rotation[j] in q.peers
    ensures FrontReady(q) && PeerTurn(q.rotation[j], q.peers[q.rotation[j]], times[j]).1.Sent?
  {
    var vs := Visits(q, times);
    j := |vs| - 1;
    var path := Path(q, times)[..j + 1];
    forall i | 0 <= i < |path| - 1 ensures Missed(path[i], path[i + 1]) {
      VisitsAreVisits(q, times, i);
      SilentStep(q, times, i);
    }
    PathShape(path, j);
    VisitsAreVisits(q, times, j);
    ListedMeansQueued(q);
  }

  lemma {:induction false} ShortestIsShortest(vs: seq<Visited>, i: nat)
    requires i < |vs| && vs[i].outcome.Delayed?
    ensures ShortestWait(vs).Some? && ShortestWait(vs).value <= vs[i].outcome.wait
  {
    if i < |vs| - 1 {
      ShortestIsShortest(vs[..|vs| - 1], i);
    }
  }

  /** A refused peer does not send before its own wait is over. */
  lemma RefusedTooSoon(key: QueueKey, p: PeerQueue, limit: nat, now: Readings, later: Readings)
    requires PeerValid(p, limit) && p.packets != [] && now.charge <= later.charge
    requires p.bucket.Some? ==> HeadSize(p) <= p.bucket.value.capacity
    requires PeerTurn(key, p, now).1.Delayed? && later.charge < now.charge + PeerTurn(key, p, now).1.wait
    ensures var p' := PeerTurn(key, p, now).0;
            p'.bucket.Some? && p'.bucket.value.rate > 0 && !PeerTurn(key, p', later).1.Sent?
  {
    TB.DelayIsLeast(p.bucket.value, now.charge, HeadSize(p), later.charge - now.charge);
    assert now.charge + (later.charge - now.charge) == later.charge;
  }

  /** After a scan that met refusals only, a peer asked again before the wait has passed cannot go. */
  lemma AllTooSoon(q: ValidQueue, times: seq<Readings>, j: nat, later: Readings)
    requires HeadsFit(q) && j < |times| == |q.rotation| && times[j].charge <= later.charge
    requires var r := Scan(q, times).1;
             r.sent.None? && !r.yielded && (r.waitFor.Some? ==> later.charge < times[j].charge + r.waitFor.value)
    ensures var (key, q') := (q.rotation[j], Scan(q, times).0);
            && q'.rotation == q.rotation && key in q'.peers
            && q'.peers[key].bucket.Some? && q'.peers[key].bucket.value.rate > 0
            && !PeerTurn(key, q'.peers[key], later).1.Sent?
  {
    var key := q.rotation[j];
    SilentVisit(q, times, j);
    TurnEffect(key, q.peers[key], q.perPeerCapacity, times[j]);
    ShortestIsShortest(Visits(q, times), j);
    RefusedTooSoon(key, q.peers[key], q.perPeerCapacity, times[j], later);
  }

  /**
   The wait is no longer than needed: when a scan found every listed peer refused by its
   bucket, no scan that asks each of them again before the wait has passed sends anything.
   */
  lemma WaitIsLeast(q: ValidQueue, times: seq<Readings>, again: seq<Readings>)
    requires HeadsFit(q) && |times| == |q.rotation| == |again|
    requires var r := Scan(q, times).1; r.sent.None? && !r.yielded && r.waitFor.Some?
    requires forall j | 0 <= j < |again| ::
               times[j].charge <= again[j].charge < times[j].charge + Scan(q, times).1.waitFor.value
    ensures Scan(Scan(q, times).0, again).1.sent.None?
  {
    var q' := Scan(q, times).0;
    var i := SomeVisitSetsTheWait(Visits(q, times));
    SilentVisit(q, times, i);
    if Scan(q', again).1.sent.Some? {
      var j := SendingVisit(q', again);
      AllTooSoon(q, times, j, again[j]);
    }
  }
}
