/**
 The token bucket that shapes each peer's transmit queue and polices each peer's
 received payloads. Time is a number of nanoseconds on a monotonic clock.
 */
module TokenBucket {
  import opened Basics

  /** One maximum UDP payload: the least burst any rate allows. */
  const BURST_FLOOR: nat := 65_535

  datatype Bucket = Bucket(rate: u64, capacity: u64, tokens: u64, updated: nat)

  /** `tokens` never exceeds `capacity`, and `capacity` is the one its rate calls for. */
  predicate Valid(b: Bucket) {
    b.tokens <= b.capacity && b.capacity == CapacityFor(b.rate)
  }

  function CapacityFor(rate: u64): u64 {
    Max(rate, BURST_FLOOR)
  }

  function New(rate: u64, now: nat): Bucket {
    Bucket(rate, CapacityFor(rate), CapacityFor(rate), now)
  }

  function SetRate(b: Bucket, rate: u64, now: nat): Bucket {
    Bucket(rate, CapacityFor(rate), Min(b.tokens, CapacityFor(rate)), now)
  }

  /** Whole bytes earned since the last update, clamped to `u128` and then to `u64`. */
  function Earned(b: Bucket, now: nat): (e: u64) {
    var elapsed := if now >= b.updated then now - b.updated else 0;
    Min(Min(elapsed * b.rate, U128_MAX) / NANOS_PER_SEC, U64_MAX)
  }

  function Refill(b: Bucket, now: nat): Bucket {
    b.(tokens := Min(b.capacity, Min(b.tokens + Earned(b, now), U64_MAX)), updated := now)
  }

  function TakeStep(b: Bucket, now: nat, bytes: u64): (Bucket, bool) {
    var r := Refill(b, now);
    if r.tokens >= bytes then (r.(tokens := r.tokens - bytes), true) else (r, false)
  }

  /** Transmit side: on refusal, the wait in nanoseconds. */
  function ConsumeOrDelay(b: Bucket, now: nat, bytes: u64): (Bucket, Result<(), nat>)
    requires b.rate > 0
  {
    var (after, taken) := TakeStep(b, now, bytes);
    if taken then (after, Ok(()))
    else
      var nanos := CeilDiv(Min((bytes - after.tokens) * NANOS_PER_SEC, U128_MAX), b.rate);
      (after, Err(Min(nanos, U64_MAX)))
  }

  /** Receive side: a zero rate polices nothing. */
  function Allow(b: Bucket, now: nat, bytes: u64): (Bucket, bool) {
    if b.rate == 0 then (b, true) else TakeStep(b, now, bytes)
  }

  function CeilDiv(a: nat, b: nat): nat
    requires b > 0
  {
    (a + b - 1) / b
  }

  datatype Call = Call(now: nat, bytes: u64)

  predicate Ordered(from: nat, calls: seq<Call>) {
    && (forall i | 0 <= i < |calls| :: from <= calls[i].now)
    && (forall i, j | 0 <= i < j < |calls| :: calls[i].now <= calls[j].now)
  }

  /** The bucket after a sequence of calls at one fixed rate. */
  function After(b: Bucket, calls: seq<Call>): Bucket
    decreases |calls|
  {
    if calls == [] then b
    else After(TakeStep(b, calls[0].now, calls[0].bytes).0, calls[1..])
  }

  /** The bytes let through by those calls. */
  function Admitted(b: Bucket, calls: seq<Call>): nat
    decreases |calls|
  {
    if calls == [] then 0
    else
      var (after, taken) := TakeStep(b, calls[0].now, calls[0].bytes);
      (if taken then calls[0].bytes else 0) + Admitted(after, calls[1..])
  }

  lemma MulMonotone(a: nat, b: nat, c: nat)
    requires a <= b
    ensures a * c <= b * c
  {}

  lemma EarnedAtMost(b: Bucket, now: nat)
    requires b.updated <= now
    ensures Earned(b, now) * NANOS_PER_SEC <= (now - b.updated) * b.rate
  {
    var product := (now - b.updated) * b.rate;
    assert product >= 0;
    assert Earned(b, now) <= product / NANOS_PER_SEC;
  }

  /** One call never lets through more than the tokens held plus the tokens earned. */
  lemma StepAtMost(b: Bucket, call: Call)
    requires Valid(b) && b.updated <= call.now
    ensures var (after, taken) := TakeStep(b, call.now, call.bytes);
            && Valid(after) && after.rate == b.rate && after.updated == call.now
            && (after.tokens + if taken then call.bytes else 0) * NANOS_PER_SEC
               <= b.tokens * NANOS_PER_SEC + (call.now - b.updated) * b.rate
            && after.tokens + (if taken then call.bytes else 0) <= b.capacity
  {
    EarnedAtMost(b, call.now);
  }

  lemma {:induction false} RunKeepsValid(b: Bucket, calls: seq<Call>)
    requires Valid(b) && Ordered(b.updated, calls)
    ensures var after := After(b, calls);
            && Valid(after) && after.rate == b.rate
            && after.updated == (if calls == [] then b.updated else calls[|calls| - 1].now)
    decreases |calls|
  {
    if calls != [] {
      StepAtMost(b, calls[0]);
      RunKeepsValid(TakeStep(b, calls[0].now, calls[0].bytes).0, calls[1..]);
    }
  }

  lemma {:induction false} RunAtMost(b: Bucket, calls: seq<Call>, until: nat)
    requires Valid(b) && Ordered(b.updated, calls)
    requires b.updated <= until && forall i | 0 <= i < |calls| :: calls[i].now <= until
    ensures Admitted(b, calls) * NANOS_PER_SEC <= b.tokens * NANOS_PER_SEC + (until - b.updated) * b.rate
    decreases |calls|
  {
    if calls == [] {
      SpansAdd(until - b.updated, 0, b.rate);
    } else {
      var head := calls[0];
      StepAtMost(b, head);
      var (after, taken) := TakeStep(b, head.now, head.bytes);
      var got := if taken then head.bytes else 0;
      RunAtMost(after, calls[1..], until);
      AddStretches(b, after, got, Admitted(after, calls[1..]), head.now, until);
    }
  }

  lemma AddStretches(b: Bucket, after: Bucket, got: nat, later: nat, now: nat, until: nat)
    requires b.updated <= now <= until
    requires (after.tokens + got) * NANOS_PER_SEC <= b.tokens * NANOS_PER_SEC + (now - b.updated) * b.rate
    requires later * NANOS_PER_SEC <= after.tokens * NANOS_PER_SEC + (until - now) * b.rate
    ensures (got + later) * NANOS_PER_SEC <= b.tokens * NANOS_PER_SEC + (until - b.updated) * b.rate
  {
    SpansAdd(now - b.updated, until - now, b.rate);
  }

  lemma SpansAdd(x: nat, y: nat, rate: nat)
    ensures x * rate + y * rate == (x + y) * rate
    ensures x * rate >= 0 && y * rate >= 0
  {}

  /**
   Conformance: after any calls, in every further stretch of calls at the same rate,
   the bytes let through are at most one burst plus the rate times the time the
   stretch spans.
   */
  lemma Conformance(b: Bucket, earlier: seq<Call>, stretch: seq<Call>)
    requires Valid(b) && Ordered(b.updated, earlier + stretch)
    requires stretch != []
    ensures Admitted(After(b, earlier), stretch) * NANOS_PER_SEC
            <= b.capacity * NANOS_PER_SEC + (stretch[|stretch| - 1].now - stretch[0].now) * b.rate
  {
    var calls := earlier + stretch;
    assert forall i | 0 <= i < |earlier| :: earlier[i] == calls[i];
    assert forall i | 0 <= i < |stretch| :: stretch[i] == calls[|earlier| + i];
    RunKeepsValid(b, earlier);
    var mid := After(b, earlier);
    StretchAtMost(mid, stretch);
  }

  lemma StretchAtMost(b: Bucket, stretch: seq<Call>)
    requires Valid(b) && Ordered(b.updated, stretch) && stretch != []
    ensures Admitted(b, stretch) * NANOS_PER_SEC
            <= b.capacity * NANOS_PER_SEC + (stretch[|stretch| - 1].now - stretch[0].now) * b.rate
  {
    var full := RefilledAtStart(b, stretch);
    RunAtMost(full, stretch, stretch[|stretch| - 1].now);
    AtMostCapacity(full, Admitted(full, stretch), stretch[|stretch| - 1].now);
  }

  lemma AtMostCapacity(b: Bucket, admitted: nat, until: nat)
    requires Valid(b)
    requires admitted * NANOS_PER_SEC <= b.tokens * NANOS_PER_SEC + (until - b.updated) * b.rate
    ensures admitted * NANOS_PER_SEC <= b.capacity * NANOS_PER_SEC + (until - b.updated) * b.rate
  {}

  /** Refilling at the instant of the first call changes nothing about what follows. */
  lemma RefilledAtStart(b: Bucket, stretch: seq<Call>) returns (full: Bucket)
    requires Valid(b) && stretch != []
    ensures Valid(full) && full.rate == b.rate && full.updated == stretch[0].now
    ensures Admitted(full, stretch) == Admitted(b, stretch)
  {
    full := Refill(b, stretch[0].now);
    assert Refill(full, stretch[0].now) == full;
  }

  lemma CeilDivLeast(a: nat, b: nat, w: nat)
    requires b > 0
    ensures (w * b >= a) <==> (w >= CeilDiv(a, b))
  {
    var d := CeilDiv(a, b);
    assert d * b >= a && (d > 0 ==> (d - 1) * b < a);
    if w >= d {
      MulMonotone(d, w, b);
    } else {
      MulMonotone(w, d - 1, b);
    }
  }

  lemma FloorReaches(x: nat, m: nat)
    ensures (x / NANOS_PER_SEC >= m) <==> (x >= m * NANOS_PER_SEC)
  {}

  lemma EarnedReaches(b: Bucket, wait: nat, missing: u64)
    ensures Earned(b, b.updated + wait) >= missing <==> wait * b.rate >= missing * NANOS_PER_SEC
  {
    var product := wait * b.rate;
    assert product >= 0;
    FloorReaches(product, missing);
    FloorReaches(U128_MAX, U64_MAX);
  }

  /** A bucket emptied below `bytes` holds enough again after exactly the missing bytes' worth of time. */
  lemma EnoughAfter(b: Bucket, wait: nat, bytes: u64)
    requires Valid(b) && b.tokens < bytes <= b.capacity
    ensures TakeStep(b, b.updated + wait, bytes).1 <==> wait * b.rate >= (bytes - b.tokens) * NANOS_PER_SEC
  {
    EarnedReaches(b, wait, bytes - b.tokens);
  }

  /**
   The returned delay is the least wait after which the same payload passes an
   otherwise untouched bucket, provided the payload fits the bucket at all.
   */
  lemma DelayIsLeast(b: Bucket, now: nat, bytes: u64, wait: nat)
    requires Valid(b) && b.rate > 0 && bytes <= b.capacity
    requires ConsumeOrDelay(b, now, bytes).1.Err?
    ensures var (after, refusal) := ConsumeOrDelay(b, now, bytes);
            && refusal.error > 0
            && (ConsumeOrDelay(after, now + wait, bytes).1.Ok? <==> wait >= refusal.error)
  {
    var (after, refusal) := ConsumeOrDelay(b, now, bytes);
    var missing := bytes - after.tokens;
    var nanos := CeilDiv(missing * NANOS_PER_SEC, b.rate);
    EnoughAfter(after, wait, bytes);
    CeilDivLeast(missing * NANOS_PER_SEC, b.rate, wait);
    DelayFits(missing, b.rate);
  }

  /** The delay never needs clamping when the payload fits the bucket. */
  lemma DelayFits(missing: nat, rate: u64)
    requires rate > 0 && 0 < missing <= CapacityFor(rate)
    ensures missing * NANOS_PER_SEC <= U128_MAX
    ensures 0 < CeilDiv(missing * NANOS_PER_SEC, rate) <= U64_MAX
  {
    CeilDivLeast(missing * NANOS_PER_SEC, rate, 0);
    if rate >= BURST_FLOOR {
      MulMonotone(missing, rate, NANOS_PER_SEC);
      CeilDivLeast(missing * NANOS_PER_SEC, rate, NANOS_PER_SEC);
    } else {
      var w := BURST_FLOOR * NANOS_PER_SEC;
      MulMonotone(1, rate, w);
      CeilDivLeast(missing * NANOS_PER_SEC, rate, w);
    }
  }

  /** A payload larger than the bucket is refused at every time. */
  lemma OversizedNeverPasses(b: Bucket, now: nat, bytes: u64)
    requires Valid(b) && bytes > b.capacity
    ensures !TakeStep(b, now, bytes).1
  {}

  // There is no matching lower bound: a refill discards what does not make a whole byte

  /** `n` calls for `bytes`, one every nanosecond after `from`. */
  function Polls(from: nat, bytes: u64, n: nat): seq<Call> {
    seq(n, i requires 0 <= i < n => Call(from + i + 1, bytes))
  }

  lemma PollEarnsNothing(b: Bucket)
    requires b.rate < NANOS_PER_SEC
    ensures Earned(b, b.updated + 1) == 0
  {}

  /** Below a byte a nanosecond, a bucket short of the payload and polled every nanosecond admits nothing, ever. */
  lemma {:induction false} PolledDry(b: Bucket, bytes: u64, n: nat)
    requires Valid(b) && b.rate < NANOS_PER_SEC && b.tokens < bytes
    ensures Admitted(b, Polls(b.updated, bytes, n)) == 0
    ensures After(b, Polls(b.updated, bytes, n)) == b.(updated := b.updated + n)
    decreases n
  {
    if n > 0 {
      PollEarnsNothing(b);
      var next := b.(updated := b.updated + 1);
      assert Polls(b.updated, bytes, n)[1..] == Polls(next.updated, bytes, n - 1);
      PolledDry(next, bytes, n - 1);
    }
  }

  /** An empty bucket of a million bytes a second: polled for a second it admits nothing, asked once a million. */
  lemma LowerBoundFails()
    ensures var b := Bucket(1_000_000, 1_000_000, 0, 0);
            && Valid(b)
            && Admitted(b, Polls(0, 1, NANOS_PER_SEC)) == 0
            && Admitted(b, [Call(NANOS_PER_SEC, 1_000_000)]) == 1_000_000
  {
    var b := Bucket(1_000_000, 1_000_000, 0, 0);
    PolledDry(b, 1, NANOS_PER_SEC);
    assert [Call(NANOS_PER_SEC, 1_000_000)][1..] == [];
  }

  /** The refill at `now` runs into none of its bounds. */
  predicate Unbounded(b: Bucket, now: nat) {
    && b.updated <= now
    && (now - b.updated) * b.rate <= U128_MAX
    && b.tokens + (now - b.updated) * b.rate / NANOS_PER_SEC <= b.capacity
  }

  /** What the refill at `now` discards, in bytes times nanoseconds per second. */
  function Discarded(b: Bucket, now: nat): nat
    requires b.updated <= now
  {
    (now - b.updated) * b.rate % NANOS_PER_SEC
  }

  lemma Split(product: nat)
    ensures product / NANOS_PER_SEC * NANOS_PER_SEC + product % NANOS_PER_SEC == product
  {}

  /** The exact ledger of one refill. */
  lemma RefillLedger(b: Bucket, now: nat)
    requires Valid(b) && Unbounded(b, now)
    ensures Refill(b, now).tokens * NANOS_PER_SEC + Discarded(b, now)
         == b.tokens * NANOS_PER_SEC + (now - b.updated) * b.rate
  {
    Split((now - b.updated) * b.rate);
  }

  /** Away from its bounds a refill loses nothing if and only if the time makes whole bytes. */
  lemma RefillLosesNothing(b: Bucket, now: nat)
    requires Valid(b) && Unbounded(b, now)
    ensures Refill(b, now).tokens * NANOS_PER_SEC == b.tokens * NANOS_PER_SEC + (now - b.updated) * b.rate
            <==> (now - b.updated) * b.rate % NANOS_PER_SEC == 0
  {
    RefillLedger(b, now);
  }

  /** No refill of the run runs into its bounds. */
  predicate UnboundedRun(b: Bucket, calls: seq<Call>)
    decreases |calls|
  {
    calls != [] ==>
      Unbounded(b, calls[0].now) && UnboundedRun(TakeStep(b, calls[0].now, calls[0].bytes).0, calls[1..])
  }

  /** Every call of the run comes after a time that makes whole bytes. */
  predicate WholeBytes(b: Bucket, calls: seq<Call>)
    requires UnboundedRun(b, calls)
    decreases |calls|
  {
    calls != [] ==>
      Discarded(b, calls[0].now) == 0 && WholeBytes(TakeStep(b, calls[0].now, calls[0].bytes).0, calls[1..])
  }

  function AllDiscarded(b: Bucket, calls: seq<Call>): nat
    requires UnboundedRun(b, calls)
    decreases |calls|
  {
    if calls == [] then 0
    else Discarded(b, calls[0].now) + AllDiscarded(TakeStep(b, calls[0].now, calls[0].bytes).0, calls[1..])
  }

  lemma TakeLedger(b: Bucket, call: Call)
    requires Valid(b) && Unbounded(b, call.now)
    ensures var (after, taken) := TakeStep(b, call.now, call.bytes);
            && Valid(after) && after.rate == b.rate && after.updated == call.now
            && (after.tokens + if taken then call.bytes else 0) * NANOS_PER_SEC + Discarded(b, call.now)
               == b.tokens * NANOS_PER_SEC + (call.now - b.updated) * b.rate
  {
    RefillLedger(b, call.now);
  }

  function EndOf(b: Bucket, calls: seq<Call>): nat {
    if calls == [] then b.updated else calls[|calls| - 1].now
  }

  lemma LedgersAdd(t0: int, t1: int, t2: int, taken: int, later: int, x: int, y: int, first: int, rest: int, rate: int,
                   n: int)
    requires (t1 + taken) * n + x == t0 * n + first * rate
    requires (t2 + later) * n + y == t1 * n + rest * rate
    ensures (t2 + (taken + later)) * n + (x + y) == t0 * n + (first + rest) * rate
  {}

  /** The exact ledger of a run: what is left, what was admitted and what was discarded add up to what came in. */
  lemma {:induction false} RunLedger(b: Bucket, calls: seq<Call>)
    requires Valid(b) && UnboundedRun(b, calls)
    ensures b.updated <= EndOf(b, calls)
    ensures (After(b, calls).tokens + Admitted(b, calls)) * NANOS_PER_SEC + AllDiscarded(b, calls)
         == b.tokens * NANOS_PER_SEC + (EndOf(b, calls) - b.updated) * b.rate
    decreases |calls|
  {
    if calls != [] {
      var (after, taken) := TakeStep(b, calls[0].now, calls[0].bytes);
      TakeLedger(b, calls[0]);
      RunLedger(after, calls[1..]);
      LedgersAdd(b.tokens, after.tokens, After(b, calls).tokens, if taken then calls[0].bytes else 0,
                 Admitted(after, calls[1..]), Discarded(b, calls[0].now), AllDiscarded(after, calls[1..]),
                 calls[0].now - b.updated, EndOf(after, calls[1..]) - after.updated, b.rate, NANOS_PER_SEC);
    }
  }

  lemma {:induction false} WholeBytesDiscardNothing(b: Bucket, calls: seq<Call>)
    requires UnboundedRun(b, calls)
    ensures WholeBytes(b, calls) <==> AllDiscarded(b, calls) == 0
    decreases |calls|
  {
    if calls != [] {
      WholeBytesDiscardNothing(TakeStep(b, calls[0].now, calls[0].bytes).0, calls[1..]);
    }
  }

  /**
   The lower bound, exactly: away from the bounds of its refills a run admits or still
   holds every byte it started with or earned, if and only if each call came after a time
   that makes whole bytes.
   */
  lemma RunLosesNothing(b: Bucket, calls: seq<Call>)
    requires Valid(b) && UnboundedRun(b, calls)
    ensures (After(b, calls).tokens + Admitted(b, calls)) * NANOS_PER_SEC
            == b.tokens * NANOS_PER_SEC + (EndOf(b, calls) - b.updated) * b.rate
            <==> WholeBytes(b, calls)
  {
    RunLedger(b, calls);
    WholeBytesDiscardNothing(b, calls);
  }

  /** The receive limiter of one peer. */
  class PeerRateLimiter {
    const rate: u64
    const burst: u64
    var tokens: u64
    var updated: nat

    ghost function Model(): Bucket
      reads this
    {
      Bucket(rate, burst, tokens, updated)
    }

    constructor (rate: u64, now: nat)
      ensures Model() == New(rate, now) && Valid(Model())
    {
      this.rate, burst, tokens, updated := rate, Max(rate, BURST_FLOOR), Max(rate, BURST_FLOOR), now;
    }

    method Police(bytes: u64, now: nat) returns (allowed: bool)
      requires Valid(Model())
      modifies this
      ensures Valid(Model()) && (Model(), allowed) == Allow(old(Model()), now, bytes)
    {
      if rate == 0 {
        return true;
      }
      var elapsed := if now >= updated then now - updated else 0;
      var replenished := Min(elapsed * rate, U128_MAX) / NANOS_PER_SEC;
      tokens := Min(burst, Min(tokens + Min(replenished, U64_MAX), U64_MAX));
      updated := now;
      if tokens < bytes {
        return false;
      }
      tokens := tokens - bytes;
      return true;
    }
  }
}
