/**
 The adaptive path MTU: stepped down on failures, probed up after sustained
 success, with hysteresis in time. Times are nanoseconds on a monotonic clock.
 */
module Mtu {
  import opened Basics

  const FAILURE_THRESHOLD: nat := 5
  const SUCCESS_THRESHOLD: nat := 64
  const PROBE_SUCCESS_THRESHOLD: nat := 16
  const MIN_CHANGE_INTERVAL: nat := 5 * NANOS_PER_SEC
  const PROBE_EVALUATION_WINDOW: nat := 3 * NANOS_PER_SEC

  datatype ChangeReason = PathMtuExceeded | SustainedInstability | ProbeUp | ProbeReverted

  datatype State = State(
    target: nat,
    minimum: nat,
    effective: nat,
    failures: u32,
    successes: u32,
    lastChange: nat,
    candidate: Option<nat>,
    probeStarted: Option<nat>)

  datatype Event = Success(now: nat) | PathFailure(now: nat) | Oversized(attempted: nat, now: nat)

  function Init(target: nat, minimum: nat, now: nat): State {
    var t := Max(target, 1);
    State(t, Max(Min(minimum, t), 1), t, 0, 0, now, None, None)
  }

  /** `u32` counters wrap around. */
  function Bump(n: u32): u32 {
    if n == U32_MAX then 0 else n + 1
  }

  predicate Elapsed(since: nat, now: nat, span: nat) {
    now >= since + span
  }

  /** One eighth of the gap to the target, at least one byte, at most up to the target. */
  function StepUp(effective: nat, target: nat): nat
    requires effective < target
  {
    Min(effective + Max((target - effective) / 8, 1), target)
  }

  function StepDown(effective: nat, minimum: nat): nat {
    Max(effective * 9 / 10, minimum)
  }

  function OnSuccess(s: State, now: nat): (State, Option<ChangeReason>) {
    var counted := s.(failures := 0, successes := Bump(s.successes));
    if s.candidate.Some? then
      var started := if s.probeStarted.Some? then s.probeStarted.value else now;
      if counted.successes >= PROBE_SUCCESS_THRESHOLD && Elapsed(started, now, PROBE_EVALUATION_WINDOW) then
        (counted.(effective := s.candidate.value, candidate := None, probeStarted := None, successes := 0,
                  lastChange := now),
         Some(ProbeUp))
      else (counted, None)
    else if counted.successes >= SUCCESS_THRESHOLD && Elapsed(s.lastChange, now, MIN_CHANGE_INTERVAL)
      && s.effective < s.target then
      (counted.(candidate := Some(StepUp(s.effective, s.target)), probeStarted := Some(now), successes := 0), None)
    else (counted, None)
  }

  function OnPathFailure(s: State, now: nat): (State, Option<ChangeReason>) {
    if s.candidate.Some? then
      (s.(successes := 0, candidate := None, probeStarted := None, failures := 0, lastChange := now),
       Some(ProbeReverted))
    else
      var counted := s.(successes := 0, failures := Bump(s.failures));
      if counted.failures >= FAILURE_THRESHOLD && Elapsed(s.lastChange, now, MIN_CHANGE_INTERVAL) then
        var reduced := StepDown(s.effective, s.minimum);
        var settled := counted.(failures := 0, lastChange := now);
        if reduced < s.effective then (settled.(effective := reduced), Some(SustainedInstability)) else (settled, None)
      else (counted, None)
  }

  function OnOversized(s: State, attempted: nat, now: nat): (State, Option<ChangeReason>) {
    var cleared := s.(failures := 0, successes := 0, candidate := None, probeStarted := None);
    if !Elapsed(s.lastChange, now, MIN_CHANGE_INTERVAL) then (cleared, None)
    else
      var ceiling := Max(if attempted > 0 then attempted - 1 else 0, s.minimum);
      var reduced := Max(Min(StepDown(s.effective, s.minimum), ceiling), s.minimum);
      if reduced < s.effective then (cleared.(lastChange := now, effective := reduced), Some(PathMtuExceeded))
      else (cleared.(lastChange := now), None)
  }

  function Step(s: State, e: Event): (State, Option<ChangeReason>) {
    match e
    case Success(now) => OnSuccess(s, now)
    case PathFailure(now) => OnPathFailure(s, now)
    case Oversized(attempted, now) => OnOversized(s, attempted, now)
  }

  /** The effective MTU is within its bounds, and a live probe aims above it and not past the target. */
  predicate WithinLimits(s: State) {
    && 1 <= s.minimum <= s.effective <= s.target
    && (s.candidate.Some? <==> s.probeStarted.Some?)
    && (s.candidate.Some? ==> s.effective < s.candidate.value <= s.target)
  }

  lemma StepKeepsLimits(s: State, e: Event)
    requires WithinLimits(s)
    ensures WithinLimits(Step(s, e).0)
    ensures Step(s, e).0.target == s.target && Step(s, e).0.minimum == s.minimum
  {}

  /** The reason reported is the truth about the effective MTU. */
  lemma ReasonTellsChange(s: State, e: Event)
    requires WithinLimits(s)
    ensures var (s', reason) := Step(s, e);
            && (s'.effective > s.effective <==> reason == Some(ProbeUp))
            && (s'.effective < s.effective <==> reason == Some(SustainedInstability) || reason == Some(PathMtuExceeded))
  {}

  // Hysteresis over whole runs

  /** The state after the first `i` events. */
  function At(s: State, events: seq<Event>, i: nat): State
    requires i <= |events|
  {
    if i == 0 then s else Step(At(s, events, i - 1), events[i - 1]).0
  }

  predicate InOrder(from: nat, events: seq<Event>) {
    && (forall i | 0 <= i < |events| :: from <= events[i].now)
    && (forall i, j | 0 <= i < j < |events| :: events[i].now <= events[j].now)
  }

  /** A live probe began no sooner than the quiet interval after the last change. */
  predicate ProbeTimely(s: State, now: nat) {
    && s.lastChange <= now
    && (s.probeStarted.Some? ==> s.lastChange + MIN_CHANGE_INTERVAL <= s.probeStarted.value <= now)
  }

  lemma StepTimely(s: State, e: Event, before: nat)
    requires WithinLimits(s) && ProbeTimely(s, before) && before <= e.now
    ensures var s' := Step(s, e).0;
            && ProbeTimely(s', e.now) && s.lastChange <= s'.lastChange
            && (s'.effective != s.effective ==> s'.lastChange == e.now >= s.lastChange + MIN_CHANGE_INTERVAL)
            && (s'.effective > s.effective ==> e.now >= s.lastChange + MIN_CHANGE_INTERVAL + PROBE_EVALUATION_WINDOW)
  {}

  lemma {:induction false} RunTimely(s: State, events: seq<Event>, i: nat)
    requires WithinLimits(s) && s.probeStarted.None? && InOrder(s.lastChange, events) && i <= |events|
    ensures WithinLimits(At(s, events, i)) && At(s, events, i).target == s.target
    ensures At(s, events, i).minimum == s.minimum
    ensures ProbeTimely(At(s, events, i), if i == 0 then s.lastChange else events[i - 1].now)
    ensures s.lastChange <= At(s, events, i).lastChange
  {
    if i > 0 {
      RunTimely(s, events, i - 1);
      StepKeepsLimits(At(s, events, i - 1), events[i - 1]);
      StepTimely(At(s, events, i - 1), events[i - 1], if i == 1 then s.lastChange else events[i - 2].now);
    }
  }

  predicate ChangesAt(s: State, events: seq<Event>, i: nat)
    requires i < |events|
  {
    At(s, events, i + 1).effective != At(s, events, i).effective
  }

  /** A change made at `i` is still counted as the last change, or an earlier one, at every later `j`. */
  lemma {:induction false} ChangeRemembered(s: State, events: seq<Event>, i: nat, j: nat)
    requires WithinLimits(s) && s.probeStarted.None? && InOrder(s.lastChange, events) && i < j <= |events|
    requires ChangesAt(s, events, i)
    ensures events[i].now <= At(s, events, j).lastChange
  {
    RunTimely(s, events, j - 1);
    StepTimely(At(s, events, j - 1), events[j - 1], if j == 1 then s.lastChange else events[j - 2].now);
    if j > i + 1 {
      ChangeRemembered(s, events, i, j - 1);
    }
  }

  /** A change at `j` comes at least the quiet time of its direction after `since`. */
  predicate QuietSince(s: State, events: seq<Event>, since: nat, j: nat)
    requires j < |events|
  {
    var increase := At(s, events, j + 1).effective > At(s, events, j).effective;
    events[j].now >= since + MIN_CHANGE_INTERVAL + if increase then PROBE_EVALUATION_WINDOW else 0
  }

  /**
   Hysteresis: in every timed run from a fresh state the effective MTU is within its bounds
   at all times and a live probe aims above it and not past the target; any two changes are
   at least five seconds apart, and an increase comes at least eight seconds after the
   change before it or after the start.
   */
  lemma Hysteresis(target: nat, minimum: nat, start: nat, events: seq<Event>, j: nat)
    requires InOrder(start, events) && j < |events|
    ensures var (s, after) := (Init(target, minimum, start), At(Init(target, minimum, start), events, j + 1));
            && s.minimum <= after.effective <= s.target
            && (after.candidate.Some? ==> after.effective < after.candidate.value <= s.target)
            && (ChangesAt(s, events, j) ==>
                  && QuietSince(s, events, start, j)
                  && forall i: nat | i < j && ChangesAt(s, events, i) :: QuietSince(s, events, events[i].now, j))
  {
    var s := Init(target, minimum, start);
    RunTimely(s, events, j);
    RunTimely(s, events, j + 1);
    StepTimely(At(s, events, j), events[j], if j == 0 then start else events[j - 1].now);
    forall i: nat | i < j && ChangesAt(s, events, i) ensures events[i].now <= At(s, events, j).lastChange {
      ChangeRemembered(s, events, i, j);
    }
  }

  // Recovery to the target

  /**
   How many successes close a gap when each probe takes 64 + 16 of them and closes an
   eighth of what is left, at least one byte.
   */
  function ToClose(gap: nat): nat {
    if gap == 0 then 0 else SUCCESS_THRESHOLD + PROBE_SUCCESS_THRESHOLD + ToClose(gap - Max(gap / 8, 1))
  }

  lemma {:induction false} ToCloseAtMost(gap: nat)
    ensures ToClose(gap) <= 80 * gap
  {
    if gap > 0 {
      ToCloseAtMost(gap - Max(gap / 8, 1));
    }
  }

  /** Successes until a wrapping counter standing at `count` is next seen at or above `threshold`. */
  function Needed(count: u32, threshold: nat): nat {
    if count == U32_MAX then threshold + 1
    else if count + 1 >= threshold then 1 else threshold - count
  }

  /** The number of unhindered successes that bring the effective MTU up to the target. */
  function Distance(s: State): nat
    requires WithinLimits(s)
  {
    if s.candidate.Some? then
      Needed(s.successes, PROBE_SUCCESS_THRESHOLD) + ToClose(s.target - s.candidate.value)
    else if s.effective == s.target then 0
    else
      Needed(s.successes, SUCCESS_THRESHOLD) + PROBE_SUCCESS_THRESHOLD
      + ToClose(s.target - StepUp(s.effective, s.target))
  }

  /** At `now` the time window that applies does not hold a success back. */
  predicate Unhindered(s: State, now: nat)
    requires WithinLimits(s)
  {
    if s.candidate.Some? then Elapsed(s.probeStarted.value, now, PROBE_EVALUATION_WINDOW)
    else Elapsed(s.lastChange, now, MIN_CHANGE_INTERVAL)
  }

  lemma GapAfterStep(effective: nat, target: nat)
    requires effective < target
    ensures effective < StepUp(effective, target) <= target
    ensures ToClose(target - effective)
         == SUCCESS_THRESHOLD + PROBE_SUCCESS_THRESHOLD + ToClose(target - StepUp(effective, target))
  {}

  lemma CountCloses(count: u32, threshold: nat)
    requires 0 < threshold < U32_MAX
    ensures Bump(count) >= threshold <==> Needed(count, threshold) == 1
    ensures Bump(count) < threshold ==> Needed(Bump(count), threshold) == Needed(count, threshold) - 1
  {}

  /** One more success, whether or not it can take effect, needs more of them only when the counter runs full. */
  lemma CountRises(count: u32, threshold: nat)
    requires 0 < threshold < U32_MAX - 1
    ensures Needed(Bump(count), threshold) > Needed(count, threshold) <==> count == U32_MAX - 1
    ensures Needed(count, threshold) <= Needed(Bump(count), threshold) + 1
  {}

  lemma CommitCloses(s: State, now: nat)
    requires WithinLimits(s) && s.candidate.Some? && OnSuccess(s, now).1 == Some(ProbeUp)
    requires WithinLimits(OnSuccess(s, now).0)
    ensures Distance(OnSuccess(s, now).0) == ToClose(s.target - s.candidate.value)
  {
    if s.candidate.value < s.target {
      GapAfterStep(s.candidate.value, s.target);
    }
  }

  lemma ProbingSuccessCloses(s: State, now: nat)
    requires WithinLimits(s) && Unhindered(s, now) && s.candidate.Some? && WithinLimits(OnSuccess(s, now).0)
    ensures Distance(OnSuccess(s, now).0) == Distance(s) - 1
  {
    CountCloses(s.successes, PROBE_SUCCESS_THRESHOLD);
    if Bump(s.successes) >= PROBE_SUCCESS_THRESHOLD {
      CommitCloses(s, now);
    }
  }

  lemma IdleSuccessCloses(s: State, now: nat)
    requires WithinLimits(s) && Unhindered(s, now) && s.candidate.None? && WithinLimits(OnSuccess(s, now).0)
    ensures Distance(OnSuccess(s, now).0) == (if s.effective == s.target then 0 else Distance(s) - 1)
  {
    CountCloses(s.successes, SUCCESS_THRESHOLD);
  }

  /** An unhindered success takes exactly one off the distance. */
  lemma SuccessCloses(s: State, now: nat)
    requires WithinLimits(s) && Unhindered(s, now)
    ensures var s' := OnSuccess(s, now).0;
            && WithinLimits(s')
            && Distance(s') == (if Distance(s) == 0 then 0 else Distance(s) - 1)
  {
    StepKeepsLimits(s, Success(now));
    if s.candidate.Some? {
      ProbingSuccessCloses(s, now);
    } else {
      IdleSuccessCloses(s, now);
    }
  }

  /** A hindered success adds to the distance if and only if it runs the counter full short of the target. */
  lemma HinderedSuccess(s: State, now: nat)
    requires WithinLimits(s) && !Unhindered(s, now)
    ensures var s' := OnSuccess(s, now).0;
            && WithinLimits(s')
            && (Distance(s') > Distance(s) <==> s.effective < s.target && s.successes == U32_MAX - 1)
  {
    StepKeepsLimits(s, Success(now));
    CountRises(s.successes, SUCCESS_THRESHOLD);
    CountRises(s.successes, PROBE_SUCCESS_THRESHOLD);
  }

  function AfterSuccesses(s: State, times: seq<nat>): State
    decreases |times|
  {
    if times == [] then s else AfterSuccesses(OnSuccess(s, times[0]).0, times[1..])
  }

  lemma {:induction false} SuccessesKeepLimits(s: State, times: seq<nat>)
    requires WithinLimits(s)
    ensures WithinLimits(AfterSuccesses(s, times)) && AfterSuccesses(s, times).target == s.target
    decreases |times|
  {
    if times != [] {
      StepKeepsLimits(s, Success(times[0]));
      SuccessesKeepLimits(OnSuccess(s, times[0]).0, times[1..]);
    }
  }

  /** How many of the successes no time window held back. */
  function Effective(s: State, times: seq<nat>): nat
    requires WithinLimits(s)
    decreases |times|
  {
    if times == [] then 0
    else
      StepKeepsLimits(s, Success(times[0]));
      (if Unhindered(s, times[0]) then 1 else 0) + Effective(OnSuccess(s, times[0]).0, times[1..])
  }

  /** Some hindered success runs the counter full short of the target. */
  predicate RunsFull(s: State, times: seq<nat>)
    requires WithinLimits(s)
    decreases |times|
  {
    times != [] &&
    (StepKeepsLimits(s, Success(times[0]));
     || (!Unhindered(s, times[0]) && s.effective < s.target && s.successes == U32_MAX - 1)
     || RunsFull(OnSuccess(s, times[0]).0, times[1..]))
  }

  /**
   Recovery at any pace: as many unhindered successes as `Distance` says, among any number
   of others, bring the effective MTU to the target, unless the counter runs full.
   */
  lemma {:induction false} RecoversAtAnyPace(s: State, times: seq<nat>)
    requires WithinLimits(s) && !RunsFull(s, times)
    ensures WithinLimits(AfterSuccesses(s, times))
    ensures Distance(AfterSuccesses(s, times)) <= Max(Distance(s) - Effective(s, times), 0)
    ensures Distance(s) <= Effective(s, times) ==> AfterSuccesses(s, times).effective == s.target
    decreases |times|
  {
    SuccessesKeepLimits(s, times);
    if times != [] {
      StepKeepsLimits(s, Success(times[0]));
      if Unhindered(s, times[0]) {
        SuccessCloses(s, times[0]);
      } else {
        HinderedSuccess(s, times[0]);
      }
      RecoversAtAnyPace(OnSuccess(s, times[0]).0, times[1..]);
    }
  }

  lemma DistanceAtMost(s: State)
    requires WithinLimits(s)
    ensures Distance(s) <= 80 * (s.target - s.effective) + 1
  {
    if s.candidate.Some? {
      ToCloseAtMost(s.target - s.candidate.value);
    } else if s.effective < s.target {
      ToCloseAtMost(s.target - s.effective);
      GapAfterStep(s.effective, s.target);
    }
  }

  // Successes at least five seconds apart are all unhindered

  predicate Spaced(times: seq<nat>) {
    forall i | 0 < i < |times| :: times[i] >= times[i - 1] + MIN_CHANGE_INTERVAL
  }

  lemma UnhinderedAgain(s: State, now: nat, later: nat)
    requires WithinLimits(s) && WithinLimits(OnSuccess(s, now).0) && Unhindered(s, now)
    requires later >= now + MIN_CHANGE_INTERVAL
    ensures Unhindered(OnSuccess(s, now).0, later)
  {}

  lemma {:induction false} SpacedSuccessesClose(s: State, times: seq<nat>)
    requires WithinLimits(s) && Spaced(times) && (times != [] ==> Unhindered(s, times[0]))
    ensures var s' := AfterSuccesses(s, times);
            && WithinLimits(s') && s'.target == s.target
            && Distance(s') == Max(Distance(s) - |times|, 0)
    decreases |times|
  {
    if times != [] {
      SuccessCloses(s, times[0]);
      StepKeepsLimits(s, Success(times[0]));
      if |times| > 1 {
        UnhinderedAgain(s, times[0], times[1]);
      }
      SpacedSuccessesClose(OnSuccess(s, times[0]).0, times[1..]);
    }
  }

  /** Then the target is reached with the success that `Distance` names and not one sooner. */
  lemma SpacedRecovers(s: State, times: seq<nat>)
    requires WithinLimits(s) && Spaced(times) && (times != [] ==> Unhindered(s, times[0]))
    ensures AfterSuccesses(s, times).effective == s.target <==> Distance(s) <= |times|
  {
    SpacedSuccessesClose(s, times);
  }

  // Recovery in rounds of 64 + 16 successes and 5 + 3 seconds

  /** The committed probes that bring the effective MTU up to the target. */
  function Probes(gap: nat): nat {
    if gap == 0 then 0 else 1 + Probes(gap - Max(gap / 8, 1))
  }

  lemma {:induction false} ProbesAtMost(gap: nat)
    ensures Probes(gap) <= gap
  {
    if gap > 0 {
      ProbesAtMost(gap - Max(gap / 8, 1));
    }
  }

  lemma {:induction false} ProbesMonotone(small: nat, large: nat)
    requires small <= large
    ensures Probes(small) <= Probes(large)
    decreases large
  {
    if small > 0 {
      ProbesMonotone(small - Max(small / 8, 1), large - Max(large / 8, 1));
    }
  }

  /** The counter cannot run full in `n` more successes. */
  predicate RoomFor(s: State, n: nat) {
    s.successes + n < U32_MAX
  }

  predicate Ascending(from: nat, times: seq<nat>) {
    && (forall i | 0 <= i < |times| :: from <= times[i])
    && (forall i, j | 0 <= i < j < |times| :: times[i] <= times[j])
  }

  /** A probe aims one step up, and neither the last change nor a probe's start lies after `from`. */
  predicate Settled(s: State, from: nat) {
    && WithinLimits(s) && s.lastChange <= from
    && (s.candidate.Some? ==> s.candidate.value == StepUp(s.effective, s.target) && s.probeStarted.value <= from)
  }

  /** Every state of a timed run is settled, so recovery starts from any of them. */
  lemma {:induction false} RunSettles(s: State, events: seq<Event>, i: nat)
    requires WithinLimits(s) && s.candidate.None? && InOrder(s.lastChange, events) && i <= |events|
    ensures Settled(At(s, events, i), if i == 0 then s.lastChange else events[i - 1].now)
  {
    if i > 0 {
      RunSettles(s, events, i - 1);
      StepSettles(At(s, events, i - 1), if i == 1 then s.lastChange else events[i - 2].now, events[i - 1]);
    }
  }

  lemma StepSettles(s: State, from: nat, e: Event)
    requires Settled(s, from) && from <= e.now
    ensures Settled(Step(s, e).0, e.now)
  {}

  lemma SuccessSettles(s: State, from: nat, now: nat)
    requires Settled(s, from) && from <= now
    ensures var s' := OnSuccess(s, now).0; Settled(s', now) && s'.target == s.target && s.effective <= s'.effective
  {}

  function End(from: nat, times: seq<nat>): nat {
    if times == [] then from else times[|times| - 1]
  }

  lemma {:induction false} SuccessesSettle(s: State, from: nat, times: seq<nat>)
    requires Settled(s, from) && Ascending(from, times)
    ensures var s' := AfterSuccesses(s, times);
            && Settled(s', End(from, times)) && s'.target == s.target && s.effective <= s'.effective
            && s'.successes <= s.successes + |times|
    decreases |times|
  {
    if times != [] {
      SuccessSettles(s, from, times[0]);
      SuccessesSettle(OnSuccess(s, times[0]).0, times[0], times[1..]);
    }
  }

  lemma {:induction false} SuccessesJoin(s: State, a: seq<nat>, b: seq<nat>)
    ensures AfterSuccesses(s, a + b) == AfterSuccesses(AfterSuccesses(s, a), b)
    decreases |a|
  {
    if a == [] {
      assert a + b == b;
    } else {
      assert (a + b)[1..] == a[1..] + b;
      SuccessesJoin(OnSuccess(s, a[0]).0, a[1..], b);
    }
  }

  predicate Raised(s: State, s': State)
    requires s.effective < s.target
  {
    s'.effective >= StepUp(s.effective, s.target)
  }

  /** While a probe runs, sixteen successes of which the last comes three seconds after its start commit it. */
  lemma {:induction false} ProbeCommits(s: State, from: nat, times: seq<nat>)
    requires Settled(s, from) && Ascending(from, times) && RoomFor(s, |times|) && s.candidate.Some?
    ensures var s' := AfterSuccesses(s, times);
            || Raised(s, s')
            || (s' == s.(failures := s'.failures, successes := s.successes + |times|)
                && (times != [] ==> !(s'.successes >= PROBE_SUCCESS_THRESHOLD
                                      && Elapsed(s.probeStarted.value, times[|times| - 1], PROBE_EVALUATION_WINDOW))))
    decreases |times|
  {
    if times != [] {
      var next := OnSuccess(s, times[0]).0;
      SuccessSettles(s, from, times[0]);
      SuccessesSettle(next, times[0], times[1..]);
      if next.candidate.Some? {
        ProbeCommits(next, times[0], times[1..]);
      }
    }
  }

  /** Short of the target, 64 successes of which the last comes five seconds after the last change start a probe. */
  lemma {:induction false} IdleStartsProbe(s: State, from: nat, times: seq<nat>)
    requires Settled(s, from) && Ascending(from, times) && RoomFor(s, |times|) && s.candidate.None?
    requires s.effective < s.target
    ensures var s' := AfterSuccesses(s, times);
            || Raised(s, s')
            || (s'.candidate.Some? && s'.effective == s.effective)
            || (s' == s.(failures := s'.failures, successes := s.successes + |times|)
                && (times != [] ==> !(s'.successes >= SUCCESS_THRESHOLD
                                      && Elapsed(s.lastChange, times[|times| - 1], MIN_CHANGE_INTERVAL))))
    decreases |times|
  {
    if times != [] {
      var next := OnSuccess(s, times[0]).0;
      SuccessSettles(s, from, times[0]);
      if next.candidate.Some? {
        ProbeCommits(next, times[0], times[1..]);
      } else {
        IdleStartsProbe(next, times[0], times[1..]);
      }
    }
  }

  /**
   A round in a caller's terms: the 64th success or a later one comes five seconds after
   the round began, and the 16th after that or a later one three seconds after it.
   */
  predicate IsRound(from: nat, times: seq<nat>, i: nat, j: nat) {
    && Ascending(from, times)
    && SUCCESS_THRESHOLD <= i + 1 && i + PROBE_SUCCESS_THRESHOLD <= j < |times|
    && Elapsed(from, times[i], MIN_CHANGE_INTERVAL) && Elapsed(times[i], times[j], PROBE_EVALUATION_WINDOW)
  }

  /** After the first part of a round the MTU was raised, or a probe is running. */
  lemma FirstPart(s: State, from: nat, times: seq<nat>)
    requires Settled(s, from) && Ascending(from, times) && RoomFor(s, |times|) && s.effective < s.target
    requires |times| >= SUCCESS_THRESHOLD && Elapsed(from, times[|times| - 1], MIN_CHANGE_INTERVAL)
    ensures var s' := AfterSuccesses(s, times); Raised(s, s') || (s'.candidate.Some? && s'.effective == s.effective)
  {
    if s.candidate.Some? {
      ProbeCommits(s, from, times);
    } else {
      IdleStartsProbe(s, from, times);
    }
  }

  lemma SecondPart(s: State, from: nat, times: seq<nat>)
    requires Settled(s, from) && Ascending(from, times) && RoomFor(s, |times|) && s.candidate.Some?
    requires |times| >= PROBE_SUCCESS_THRESHOLD && Elapsed(from, times[|times| - 1], PROBE_EVALUATION_WINDOW)
    ensures Raised(s, AfterSuccesses(s, times))
  {
    ProbeCommits(s, from, times);
  }

  lemma PartsRaise(s: State, from: nat, first: seq<nat>, second: seq<nat>, rest: seq<nat>)
    requires Settled(s, from) && RoomFor(s, |first| + |second|) && s.effective < s.target
    requires Ascending(from, first) && Ascending(End(from, first), second)
    requires Ascending(End(End(from, first), second), rest)
    requires |first| >= SUCCESS_THRESHOLD && Elapsed(from, End(from, first), MIN_CHANGE_INTERVAL)
    requires |second| >= PROBE_SUCCESS_THRESHOLD
    requires Elapsed(End(from, first), End(from, second), PROBE_EVALUATION_WINDOW)
    ensures Raised(s, AfterSuccesses(s, first + (second + rest)))
  {
    var mid := AfterSuccesses(s, first);
    var late := AfterSuccesses(mid, second);
    SuccessesJoin(s, first, second + rest);
    SuccessesJoin(mid, second, rest);
    SuccessesSettle(s, from, first);
    SuccessesSettle(mid, End(from, first), second);
    SuccessesSettle(late, End(End(from, first), second), rest);
    FirstPart(s, from, first);
    if !Raised(s, mid) {
      SecondPart(mid, End(from, first), second);
    }
  }

  lemma AscendingSplits(from: nat, times: seq<nat>, k: nat) returns (first: seq<nat>, rest: seq<nat>)
    requires Ascending(from, times) && k < |times|
    ensures times == first + rest && |first| == k + 1 && End(from, first) == times[k] && rest == times[k + 1..]
    ensures Ascending(from, first) && Ascending(times[k], rest)
  {
    first, rest := times[..k + 1], times[k + 1..];
  }

  /** The three parts of a round: up to its 64th success or later, up to the end of the probe, and the rest. */
  lemma RoundParts(from: nat, times: seq<nat>, i: nat, j: nat)
    returns (first: seq<nat>, second: seq<nat>, rest: seq<nat>)
    requires IsRound(from, times, i, j)
    ensures times == first + (second + rest) && Ascending(from, first) && Ascending(End(from, first), second)
    ensures Ascending(End(End(from, first), second), rest)
    ensures |first| >= SUCCESS_THRESHOLD && Elapsed(from, End(from, first), MIN_CHANGE_INTERVAL)
    ensures |second| >= PROBE_SUCCESS_THRESHOLD
    ensures Elapsed(End(from, first), End(from, second), PROBE_EVALUATION_WINDOW)
  {
    var later;
    first, later := AscendingSplits(from, times, i);
    second, rest := AscendingSplits(times[i], later, j - i - 1);
  }

  /** Every round short of the target commits a probe. */
  lemma RoundRaises(s: State, from: nat, times: seq<nat>, i: nat, j: nat)
    requires Settled(s, from) && IsRound(from, times, i, j) && RoomFor(s, |times|) && s.effective < s.target
    ensures Raised(s, AfterSuccesses(s, times))
  {
    var first, second, rest := RoundParts(from, times, i, j);
    PartsRaise(s, from, first, second, rest);
  }

  /** Rounds one after the other, each beginning where the one before ended. */
  ghost predicate AreRounds(from: nat, rounds: seq<seq<nat>>)
    decreases |rounds|
  {
    rounds != [] ==> (exists i, j :: IsRound(from, rounds[0], i, j)) && AreRounds(End(from, rounds[0]), rounds[1..])
  }

  function Joined(rounds: seq<seq<nat>>): seq<nat> {
    if rounds == [] then [] else rounds[0] + Joined(rounds[1..])
  }

  /** One round leaves one probe less to go. */
  lemma RoundCloses(s: State, from: nat, times: seq<nat>, i: nat, j: nat, n: nat)
    requires Settled(s, from) && IsRound(from, times, i, j) && RoomFor(s, |times|)
    requires Probes(s.target - s.effective) <= n + 1
    ensures var next := AfterSuccesses(s, times);
            && Settled(next, End(from, times)) && next.target == s.target && next.successes <= s.successes + |times|
            && Probes(s.target - next.effective) <= n
  {
    var next := AfterSuccesses(s, times);
    SuccessesSettle(s, from, times);
    if s.effective < s.target {
      RoundRaises(s, from, times, i, j);
      ProbesMonotone(s.target - next.effective, s.target - StepUp(s.effective, s.target));
    }
  }

  /** As many rounds as probes are missing bring the effective MTU to the target. */
  lemma {:induction false} RoundsRecover(s: State, from: nat, rounds: seq<seq<nat>>)
    requires Settled(s, from) && AreRounds(from, rounds) && RoomFor(s, |Joined(rounds)|)
    requires Probes(s.target - s.effective) <= |rounds|
    ensures AfterSuccesses(s, Joined(rounds)).effective == s.target
    decreases |rounds|
  {
    if rounds != [] {
      var i, j :| IsRound(from, rounds[0], i, j);
      SuccessesJoin(s, rounds[0], Joined(rounds[1..]));
      RoundCloses(s, from, rounds[0], i, j, |rounds| - 1);
      RoundsRecover(AfterSuccesses(s, rounds[0]), End(from, rounds[0]), rounds[1..]);
    }
  }

  /** So one round for each byte of the gap is enough, whatever the probes make of it. */
  lemma RoundPerByteRecovers(s: State, from: nat, rounds: seq<seq<nat>>)
    requires Settled(s, from) && AreRounds(from, rounds) && RoomFor(s, |Joined(rounds)|)
    requires s.target - s.effective <= |rounds|
    ensures AfterSuccesses(s, Joined(rounds)).effective == s.target
  {
    ProbesAtMost(s.target - s.effective);
    RoundsRecover(s, from, rounds);
  }

  /** The monitor as the transport holds it: fixed limits, an atomic MTU and a locked state. */
  class AdaptiveMtu {
    const targetMtu: nat
    const minimumMtu: nat
    var effectiveMtu: nat
    var consecutiveFailures: u32
    var consecutiveSuccesses: u32
    var lastChange: nat
    var probeCandidate: Option<nat>
    var probeStarted: Option<nat>

    ghost function Model(): State
      reads this
    {
      State(targetMtu, minimumMtu, effectiveMtu, consecutiveFailures, consecutiveSuccesses, lastChange, probeCandidate,
            probeStarted)
    }

    ghost predicate Valid()
      reads this
    {
      WithinLimits(Model())
    }

    constructor (target: nat, minimum: nat, now: nat)
      ensures Valid() && Model() == Init(target, minimum, now)
    {
      targetMtu := Max(target, 1);
      minimumMtu := Max(Min(minimum, Max(target, 1)), 1);
      effectiveMtu := Max(target, 1);
      consecutiveFailures, consecutiveSuccesses, lastChange := 0, 0, now;
      probeCandidate, probeStarted := None, None;
    }

    method RecordSuccess(now: nat) returns (reason: Option<ChangeReason>)
      requires Valid()
      modifies this
      ensures Valid() && (Model(), reason) == Step(old(Model()), Success(now))
    {
      StepKeepsLimits(Model(), Success(now));
      reason := None;
      consecutiveFailures := 0;
      consecutiveSuccesses := Bump(consecutiveSuccesses);
      if probeCandidate.Some? {
        var started := if probeStarted.Some? then probeStarted.value else now;
        if consecutiveSuccesses >= PROBE_SUCCESS_THRESHOLD && Elapsed(started, now, PROBE_EVALUATION_WINDOW) {
          effectiveMtu := probeCandidate.value;
          probeCandidate, probeStarted := None, None;
          consecutiveSuccesses := 0;
          lastChange := now;
          reason := Some(ProbeUp);
        }
        return;
      }
      if consecutiveSuccesses >= SUCCESS_THRESHOLD && Elapsed(lastChange, now, MIN_CHANGE_INTERVAL) {
        if effectiveMtu < targetMtu {
          var step := Max((targetMtu - effectiveMtu) / 8, 1);
          probeCandidate, probeStarted := Some(Min(effectiveMtu + step, targetMtu)), Some(now);
          consecutiveSuccesses := 0;
        }
      }
    }

    method RecordPathFailure(now: nat) returns (reason: Option<ChangeReason>)
      requires Valid()
      modifies this
      ensures Valid() && (Model(), reason) == Step(old(Model()), PathFailure(now))
    {
      StepKeepsLimits(Model(), PathFailure(now));
      reason := None;
      consecutiveSuccesses := 0;
      if probeCandidate.Some? {
        probeCandidate, probeStarted := None, None;
        consecutiveFailures := 0;
        lastChange := now;
        return Some(ProbeReverted);
      }
      consecutiveFailures := Bump(consecutiveFailures);
      if consecutiveFailures >= FAILURE_THRESHOLD && Elapsed(lastChange, now, MIN_CHANGE_INTERVAL) {
        var reduced := Max(effectiveMtu * 9 / 10, minimumMtu);
        consecutiveFailures := 0;
        lastChange := now;
        if reduced < effectiveMtu {
          effectiveMtu := reduced;
          reason := Some(SustainedInstability);
        }
      }
    }

    method RecordOversized(attempted: nat, now: nat) returns (reason: Option<ChangeReason>)
      requires Valid()
      modifies this
      ensures Valid() && (Model(), reason) == Step(old(Model()), Oversized(attempted, now))
    {
      StepKeepsLimits(Model(), Oversized(attempted, now));
      reason := None;
      consecutiveFailures, consecutiveSuccesses := 0, 0;
      probeCandidate, probeStarted := None, None;
      if !Elapsed(lastChange, now, MIN_CHANGE_INTERVAL) {
        return;
      }
      var ceiling := Max(if attempted > 0 then attempted - 1 else 0, minimumMtu);
      var stepped := Max(effectiveMtu * 9 / 10, minimumMtu);
      var reduced := Max(Min(stepped, ceiling), minimumMtu);
      lastChange := now;
      if reduced < effectiveMtu {
        effectiveMtu := reduced;
        reason := Some(PathMtuExceeded);
      }
    }
  }
}
