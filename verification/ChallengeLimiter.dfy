/**
 The cookie-challenge limiter: fixed one-second windows per source address and
 overall, with a bounded source map that is pruned at most once a second.
 Times are nanoseconds on a monotonic clock.
 */
module ChallengeLimiter {
  import opened Basics
  import opened Net

  const SOURCE_LIMIT: nat := 4
  const GLOBAL_LIMIT: nat := 100
  const SOURCE_CAPACITY: nat := 8192

  datatype Window = Window(start: nat, count: nat)

  datatype State = State(sources: map<IpAddr, Window>, overall: Option<Window>, lastPrune: Option<nat>)

  const FRESH: State := State(map[], None, None)

  datatype Request = Request(source: IpAddr, now: nat)

  predicate Expired(start: nat, now: nat) {
    now >= start + NANOS_PER_SEC
  }

  function Pruned(s: State, now: nat): State {
    if s.lastPrune.None? || Expired(s.lastPrune.value, now) then
      s.(sources := map ip | ip in s.sources && !Expired(s.sources[ip].start, now) :: s.sources[ip],
         lastPrune := Some(now))
    else s
  }

  /** Counts one event in the window, opening a new one when it has run out, or refuses. */
  function Counted(w: Window, now: nat, limit: nat): Option<Window> {
    if Expired(w.start, now) then Some(Window(now, 1))
    else if w.count >= limit then None
    else Some(w.(count := w.count + 1))
  }

  /** The per-source window after the request, or `None` when the source is refused. */
  function AtSource(sources: map<IpAddr, Window>, r: Request): Option<Window> {
    if r.source in sources then Counted(sources[r.source], r.now, SOURCE_LIMIT)
    else if |sources| >= SOURCE_CAPACITY then None
    else Some(Window(r.now, 1))
  }

  function Overall(overall: Option<Window>, now: nat): Option<Window> {
    if overall.Some? then Counted(overall.value, now, GLOBAL_LIMIT) else Some(Window(now, 1))
  }

  /** One request: the source's window is charged even when the overall window then refuses. */
  function Step(s: State, r: Request): (State, bool) {
    var p := Pruned(s, r.now);
    var w := AtSource(p.sources, r);
    if w.None? then (p, false)
    else
      var charged := p.(sources := p.sources[r.source := w.value]);
      var o := Overall(p.overall, r.now);
      if o.None? then (charged, false) else (charged.(overall := o), true)
  }

  /** Every stored window has counted at least the event that opened it and at most its limit. */
  predicate Valid(s: State) {
    && |s.sources| <= SOURCE_CAPACITY
    && (forall ip | ip in s.sources :: 1 <= s.sources[ip].count <= SOURCE_LIMIT)
    && (s.overall.Some? ==> 1 <= s.overall.value.count <= GLOBAL_LIMIT)
  }

  lemma PrunedKeepsValid(s: State, now: nat)
    requires Valid(s)
    ensures Valid(Pruned(s, now)) && Pruned(s, now).overall == s.overall
  {
    SubsetSize(Pruned(s, now).sources.Keys, s.sources.Keys);
  }

  lemma StepKeepsValid(s: State, r: Request)
    requires Valid(s)
    ensures Valid(Step(s, r).0)
  {
    PrunedKeepsValid(s, r.now);
    var p := Pruned(s, r.now);
    if r.source in p.sources && AtSource(p.sources, r).Some? {
      assert p.sources[r.source := AtSource(p.sources, r).value].Keys == p.sources.Keys;
    }
  }

  // Rate bounds over every stretch of less than a second

  /** How many more events the source can have admitted up to a second after `from`. */
  function SourceAllowance(s: State, source: IpAddr, from: nat): int {
    if source !in s.sources then SOURCE_LIMIT
    else SOURCE_LIMIT - s.sources[source].count + if s.sources[source].start < from then SOURCE_LIMIT else 0
  }

  /** How many more events can be admitted in total up to a second after `from`. */
  function OverallAllowance(s: State, from: nat): int {
    if s.overall.None? then GLOBAL_LIMIT
    else GLOBAL_LIMIT - s.overall.value.count + if s.overall.value.start < from then GLOBAL_LIMIT else 0
  }

  predicate Within(r: Request, from: nat) {
    from <= r.now < from + NANOS_PER_SEC
  }

  lemma PruneSpendsNothing(s: State, now: nat, source: IpAddr, from: nat)
    requires Valid(s) && from <= now < from + NANOS_PER_SEC
    ensures SourceAllowance(Pruned(s, now), source, from) <= SourceAllowance(s, source, from)
  {}

  lemma StepSpends(s: State, r: Request, source: IpAddr, from: nat)
    requires Valid(s) && Within(r, from)
    ensures var (s', admitted) := Step(s, r);
            && SourceAllowance(s', source, from) + (if admitted && r.source == source then 1 else 0)
               <= SourceAllowance(s, source, from)
            && OverallAllowance(s', from) + (if admitted then 1 else 0) <= OverallAllowance(s, from)
  {
    PrunedKeepsValid(s, r.now);
    PruneSpendsNothing(s, r.now, source, from);
  }

  function After(s: State, requests: seq<Request>): State
    decreases |requests|
  {
    if requests == [] then s else After(Step(s, requests[0]).0, requests[1..])
  }

  /** How many of the requests are admitted, from `source` alone or from anyone. */
  function Admitted(s: State, requests: seq<Request>, source: Option<IpAddr>): nat
    decreases |requests|
  {
    if requests == [] then 0
    else
      var (s', admitted) := Step(s, requests[0]);
      (if admitted && (source.None? || source.value == requests[0].source) then 1 else 0)
        + Admitted(s', requests[1..], source)
  }

  lemma {:induction false} RunKeepsValid(s: State, requests: seq<Request>)
    requires Valid(s)
    ensures Valid(After(s, requests))
    decreases |requests|
  {
    if requests != [] {
      StepKeepsValid(s, requests[0]);
      RunKeepsValid(Step(s, requests[0]).0, requests[1..]);
    }
  }

  lemma {:induction false} RunSpends(s: State, requests: seq<Request>, source: IpAddr, from: nat)
    requires Valid(s) && forall r | r in requests :: Within(r, from)
    ensures Admitted(s, requests, Some(source)) <= SourceAllowance(s, source, from)
    ensures Admitted(s, requests, None) <= OverallAllowance(s, from)
    decreases |requests|
  {
    if requests != [] {
      assert Within(requests[0], from);
      StepSpends(s, requests[0], source, from);
      StepKeepsValid(s, requests[0]);
      RunSpends(Step(s, requests[0]).0, requests[1..], source, from);
    }
  }

  /**
   In every run from the empty limiter, whatever came before, any stretch of requests
   that fits in less than a second admits at most seven challenges to one address and
   199 in total, and the source map never exceeds its capacity.
   */
  lemma RateBound(before: seq<Request>, stretch: seq<Request>, source: IpAddr, from: nat)
    requires forall r | r in stretch :: Within(r, from)
    ensures var s := After(FRESH, before);
            && |s.sources| <= SOURCE_CAPACITY
            && Admitted(s, stretch, Some(source)) <= 2 * SOURCE_LIMIT - 1
            && Admitted(s, stretch, None) <= 2 * GLOBAL_LIMIT - 1
  {
    RunKeepsValid(FRESH, before);
    RunSpends(After(FRESH, before), stretch, source, from);
  }

  // Both bounds are reached

  lemma {:induction false} AdmittedJoin(s: State, a: seq<Request>, b: seq<Request>, source: Option<IpAddr>)
    ensures Admitted(s, a + b, source) == Admitted(s, a, source) + Admitted(After(s, a), b, source)
    decreases |a|
  {
    if a == [] {
      assert a + b == b;
    } else {
      assert (a + b)[1..] == a[1..] + b;
      AdmittedJoin(Step(s, a[0]).0, a[1..], b, source);
    }
  }

  /** One of 256 addresses. */
  function Host(i: nat): IpAddr {
    V4([10, 0, 0, i % 256])
  }

  lemma HostsDiffer(i: nat, j: nat)
    requires i < 256 && j < 256 && i != j
    ensures Host(i) != Host(j)
  {
    assert Host(i).octets[3] != Host(j).octets[3];
  }

  /** `n` requests at one time, from `Host(first)` on. */
  function Flood(first: nat, n: nat, now: nat): seq<Request>
    decreases n
  {
    if n == 0 then [] else [Request(Host(first), now)] + Flood(first + 1, n - 1, now)
  }

  /** No prune is due, and the overall window is open with `count` in it. */
  predicate Open(s: State, now: nat, count: nat) {
    && s.lastPrune.Some? && !Expired(s.lastPrune.value, now)
    && s.overall.Some? && !Expired(s.overall.value.start, now) && s.overall.value.count == count
  }

  /** The first `n` addresses may have been seen, and nobody else. */
  ghost predicate SeenBelow(s: State, n: nat) {
    (forall i: nat | n <= i < 256 :: Host(i) !in s.sources) && |s.sources| <= n
  }

  lemma NewcomerAdmitted(s: State, first: nat, now: nat, count: nat)
    requires Open(s, now, count) && SeenBelow(s, first)
    requires count < GLOBAL_LIMIT && first < 256
    ensures var (s', admitted) := Step(s, Request(Host(first), now));
            && admitted && Open(s', now, count + 1) && SeenBelow(s', first + 1)
            && s'.overall.value.start == s.overall.value.start && s'.lastPrune == s.lastPrune
  {
    var s' := Step(s, Request(Host(first), now)).0;
    assert s'.sources.Keys == s.sources.Keys + {Host(first)};
    forall i: nat | first < i < 256 ensures Host(i) != Host(first) {
      HostsDiffer(i, first);
    }
  }

  lemma {:induction false} FloodAdmitted(s: State, first: nat, n: nat, now: nat, count: nat)
    requires Open(s, now, count) && SeenBelow(s, first)
    requires count + n <= GLOBAL_LIMIT && first + n <= 256
    ensures Admitted(s, Flood(first, n, now), None) == n
    ensures var s' := After(s, Flood(first, n, now));
            && Open(s', now, count + n) && SeenBelow(s', first + n)
            && s'.overall.value.start == s.overall.value.start && s'.lastPrune == s.lastPrune
    decreases n
  {
    if n > 0 {
      NewcomerAdmitted(s, first, now, count);
      FloodAdmitted(Step(s, Request(Host(first), now)).0, first + 1, n - 1, now, count + 1);
    }
  }

  /** A request that finds everything expired opens new windows. */
  lemma AfreshAdmitted(s: State, first: nat, now: nat)
    requires SeenBelow(s, first) && first < 256
    requires s.lastPrune.Some? ==> Expired(s.lastPrune.value, now)
    requires s.overall.Some? ==> Expired(s.overall.value.start, now)
    ensures var (s', admitted) := Step(s, Request(Host(first), now));
            && admitted && Open(s', now, 1) && SeenBelow(s', first + 1)
            && s'.overall.value.start == now && s'.lastPrune == Some(now)
  {
    var s' := Step(s, Request(Host(first), now)).0;
    SubsetSize(Pruned(s, now).sources.Keys, s.sources.Keys);
    assert s'.sources.Keys == Pruned(s, now).sources.Keys + {Host(first)};
    forall i: nat | first < i < 256 ensures Host(i) != Host(first) {
      HostsDiffer(i, first);
    }
  }

  const LATE: nat := NANOS_PER_SEC - 1

  /** `n` requests in all by the end of the first window, and `n` as the next begins. */
  function Straddling(n: nat): seq<Request>
    requires n >= 1
  {
    Flood(1, n - 1, LATE) + Flood(n, n, NANOS_PER_SEC)
  }

  lemma {:induction false} FloodWithin(first: nat, n: nat, now: nat)
    ensures forall r | r in Flood(first, n, now) :: r.now == now
    decreases n
  {
    if n > 0 {
      FloodWithin(first + 1, n - 1, now);
    }
  }

  lemma StraddlingWithin(n: nat)
    requires n >= 1
    ensures forall r | r in Straddling(n) :: Within(r, LATE)
  {
    FloodWithin(1, n - 1, LATE);
    FloodWithin(n, n, NANOS_PER_SEC);
  }

  /**
   With one request that opens the window, `n` by its end and `n` more in the next, all
   but the first fall in less than a second and all are admitted, for `n` up to the
   limit: 199 at the limit of 100.
   */
  lemma OverallBoundReached(n: nat)
    requires 1 <= n <= GLOBAL_LIMIT
    ensures forall r | r in Straddling(n) :: Within(r, LATE)
    ensures Admitted(After(FRESH, [Request(Host(0), 0)]), Straddling(n), None) == 2 * n - 1
  {
    var begun := Step(FRESH, Request(Host(0), 0)).0;
    StraddlingWithin(n);
    AfreshAdmitted(FRESH, 0, 0);
    assert After(FRESH, [Request(Host(0), 0)]) == begun;
    TwoWindows(begun, n);
  }

  lemma TwoWindows(s: State, n: nat)
    requires 1 <= n <= GLOBAL_LIMIT && SeenBelow(s, 1) && Open(s, 0, 1)
    requires s.overall.value.start == 0 && s.lastPrune == Some(0)
    ensures Admitted(s, Straddling(n), None) == 2 * n - 1
  {
    FloodAdmitted(s, 1, n - 1, LATE, 1);
    AdmittedJoin(s, Flood(1, n - 1, LATE), Flood(n, n, NANOS_PER_SEC), None);
    NextWindow(After(s, Flood(1, n - 1, LATE)), n);
  }

  lemma NextWindow(s: State, n: nat)
    requires 1 <= n <= GLOBAL_LIMIT && SeenBelow(s, n) && Open(s, LATE, n)
    requires s.overall.value.start == 0 && s.lastPrune == Some(0)
    ensures Admitted(s, Flood(n, n, NANOS_PER_SEC), None) == n
  {
    AfreshAdmitted(s, n, NANOS_PER_SEC);
    FloodAdmitted(Step(s, Request(Host(n), NANOS_PER_SEC)).0, n + 1, n - 1, NANOS_PER_SEC, 1);
  }

  /** `n` requests of one address at one time. */
  function Same(n: nat, now: nat): seq<Request> {
    if n == 0 then [] else [Request(Host(0), now)] + Same(n - 1, now)
  }

  /** The address has `count` in a window of its own that is still open. */
  predicate OpenAt(s: State, now: nat, count: nat) {
    Host(0) in s.sources && s.sources[Host(0)].count == count && !Expired(s.sources[Host(0)].start, now)
  }

  lemma {:induction false} SameAdmitted(s: State, n: nat, now: nat, count: nat)
    requires Open(s, now, count) && OpenAt(s, now, count) && count + n <= SOURCE_LIMIT
    ensures Admitted(s, Same(n, now), Some(Host(0))) == n
    ensures var s' := After(s, Same(n, now));
            && s'.sources == s.sources[Host(0) := Window(s.sources[Host(0)].start, count + n)]
            && s'.overall == Some(Window(s.overall.value.start, count + n)) && s'.lastPrune == s.lastPrune
    decreases n
  {
    if n > 0 {
      SameAdmitted(Step(s, Request(Host(0), now)).0, n - 1, now, count + 1);
    }
  }

  lemma SourceAfresh(s: State, now: nat)
    requires |s.sources| < SOURCE_CAPACITY
    requires s.lastPrune.Some? ==> Expired(s.lastPrune.value, now)
    requires s.overall.Some? ==> Expired(s.overall.value.start, now)
    requires Host(0) in s.sources ==> Expired(s.sources[Host(0)].start, now)
    ensures var (s', admitted) := Step(s, Request(Host(0), now));
            && admitted && Open(s', now, 1) && OpenAt(s', now, 1) && |s'.sources| <= |s.sources| + 1
            && s'.overall.value.start == now && s'.lastPrune == Some(now)
  {
    var s' := Step(s, Request(Host(0), now)).0;
    SubsetSize(Pruned(s, now).sources.Keys, s.sources.Keys);
    assert s'.sources.Keys == Pruned(s, now).sources.Keys + {Host(0)};
  }

  lemma {:induction false} SameWithin(n: nat, now: nat)
    ensures forall r | r in Same(n, now) :: r.now == now
  {
    if n > 0 {
      SameWithin(n - 1, now);
    }
  }

  lemma NextSourceWindowFull(s: State)
    requires Open(s, LATE, SOURCE_LIMIT) && OpenAt(s, LATE, SOURCE_LIMIT) && |s.sources| < SOURCE_CAPACITY
    requires s.overall.value.start == 0 && s.lastPrune == Some(0) && s.sources[Host(0)].start == 0
    ensures Admitted(s, Same(SOURCE_LIMIT, NANOS_PER_SEC), Some(Host(0))) == SOURCE_LIMIT
  {
    SourceAfresh(s, NANOS_PER_SEC);
    var next := Step(s, Request(Host(0), NANOS_PER_SEC)).0;
    SameAdmitted(next, SOURCE_LIMIT - 1, NANOS_PER_SEC, 1);
    assert Same(SOURCE_LIMIT, NANOS_PER_SEC)[1..] == Same(SOURCE_LIMIT - 1, NANOS_PER_SEC);
  }

  /** Seven challenges to one address in less than a second: one opens its window, three end it, four begin the next. */
  lemma SourceBoundReached()
    ensures var stretch := Same(SOURCE_LIMIT - 1, LATE) + Same(SOURCE_LIMIT, NANOS_PER_SEC);
            && (forall r | r in stretch :: Within(r, LATE))
            && Admitted(After(FRESH, [Request(Host(0), 0)]), stretch, Some(Host(0))) == 2 * SOURCE_LIMIT - 1
  {
    var begun := Step(FRESH, Request(Host(0), 0)).0;
    SourceAfresh(FRESH, 0);
    assert After(FRESH, [Request(Host(0), 0)]) == begun;
    SameAdmitted(begun, SOURCE_LIMIT - 1, LATE, 1);
    AdmittedJoin(begun, Same(SOURCE_LIMIT - 1, LATE), Same(SOURCE_LIMIT, NANOS_PER_SEC), Some(Host(0)));
    var full := After(begun, Same(SOURCE_LIMIT - 1, LATE));
    assert full.sources.Keys == begun.sources.Keys;
    NextSourceWindowFull(full);
    SameWithin(SOURCE_LIMIT - 1, LATE);
    SameWithin(SOURCE_LIMIT, NANOS_PER_SEC);
  }

  // Requests below the limits are admitted

  /** How many requests of the history, from `source` alone or from anyone, were made at `since` or later. */
  function Recent(history: seq<Request>, source: Option<IpAddr>, since: nat): nat {
    if history == [] then 0
    else
      var last := history[|history| - 1];
      Recent(history[..|history| - 1], source, since)
      + if last.now >= since && (source.None? || source.value == last.source) then 1 else 0
  }

  /** The window that a source, or everyone together, is counted in. */
  function Slot(s: State, source: Option<IpAddr>): Option<Window> {
    if source.None? then s.overall
    else if source.value in s.sources then Some(s.sources[source.value]) else None
  }

  /** A window has counted no more than was asked for since it opened. */
  predicate Logged(w: Option<Window>, history: seq<Request>, source: Option<IpAddr>, now: nat) {
    w.Some? ==> w.value.count <= Recent(history, source, w.value.start) && w.value.start <= now
  }

  lemma RecentAppend(history: seq<Request>, r: Request, source: Option<IpAddr>, since: nat)
    ensures Recent(history + [r], source, since)
         == Recent(history, source, since)
            + if r.now >= since && (source.None? || source.value == r.source) then 1 else 0
  {
    assert (history + [r])[..|history|] == history;
  }

  lemma {:induction false} RecentMonotone(history: seq<Request>, source: Option<IpAddr>, since: nat, later: nat)
    requires since <= later
    ensures Recent(history, source, later) <= Recent(history, source, since)
  {
    if history != [] {
      RecentMonotone(history[..|history| - 1], source, since, later);
    }
  }

  lemma SlotAfter(s: State, r: Request, source: Option<IpAddr>)
    ensures var w, w' := Slot(s, source), Slot(Step(s, r).0, source);
            || w'.None? || w' == w
            || ((source.None? || source.value == r.source)
                && (w' == Some(Window(r.now, 1)) || (w.Some? && w'.value == Window(w.value.start, w.value.count + 1))))
  {}

  lemma StepLogged(s: State, history: seq<Request>, r: Request, source: Option<IpAddr>)
    requires Logged(Slot(s, source), history, source, r.now)
    ensures Logged(Slot(Step(s, r).0, source), history + [r], source, r.now)
  {
    SlotAfter(s, r, source);
    var w := Slot(Step(s, r).0, source);
    if w.Some? {
      RecentAppend(history, r, source, w.value.start);
    }
  }

  predicate Ordered(requests: seq<Request>) {
    forall i, j | 0 <= i < j < |requests| :: requests[i].now <= requests[j].now
  }

  lemma {:induction false} AfterAppend(s: State, requests: seq<Request>, r: Request)
    ensures After(s, requests + [r]) == Step(After(s, requests), r).0
    decreases |requests|
  {
    if requests == [] {
      assert ([] + [r])[1..] == [];
    } else {
      assert (requests + [r])[1..] == requests[1..] + [r];
      AfterAppend(Step(s, requests[0]).0, requests[1..], r);
    }
  }

  lemma {:induction false} RunLogged(history: seq<Request>, source: Option<IpAddr>, now: nat)
    requires Ordered(history) && (history != [] ==> history[|history| - 1].now <= now)
    ensures Logged(Slot(After(FRESH, history), source), history, source, now)
  {
    if history != [] {
      var n := |history| - 1;
      RunLogged(history[..n], source, history[n].now);
      assert history == history[..n] + [history[n]];
      AfterAppend(FRESH, history[..n], history[n]);
      StepLogged(After(FRESH, history[..n]), history[..n], history[n], source);
    }
  }

  /** A window still open at `now` has counted no more than the requests of the last second. */
  lemma OpenWindowRecent(history: seq<Request>, source: Option<IpAddr>, now: nat, since: nat)
    requires Ordered(history) && (history != [] ==> history[|history| - 1].now <= now)
    requires since == 0 || since + NANOS_PER_SEC <= now + 1
    ensures var w := Slot(After(FRESH, history), source);
            w.Some? && !Expired(w.value.start, now) ==> w.value.count <= Recent(history, source, since)
  {
    RunLogged(history, source, now);
    var w := Slot(After(FRESH, history), source);
    if w.Some? && !Expired(w.value.start, now) {
      RecentMonotone(history, source, since, w.value.start);
    }
  }

  lemma PruneLeavesRoom(s: State, source: IpAddr, now: nat)
    requires Valid(s) && (source in s.sources || |s.sources| < SOURCE_CAPACITY)
    ensures source in Pruned(s, now).sources || |Pruned(s, now).sources| < SOURCE_CAPACITY
  {
    if source !in Pruned(s, now).sources {
      SubsetSize(Pruned(s, now).sources.Keys, s.sources.Keys - {source});
    }
  }

  /**
   A request is admitted whenever fewer than four from its address and fewer than a
   hundred in all were made in the second before it, and the source map has room for it.
   */
  lemma BelowLimitsAdmitted(history: seq<Request>, r: Request, since: nat)
    requires Ordered(history) && (history != [] ==> history[|history| - 1].now <= r.now)
    requires since == 0 || since + NANOS_PER_SEC <= r.now + 1
    requires Recent(history, Some(r.source), since) < SOURCE_LIMIT && Recent(history, None, since) < GLOBAL_LIMIT
    requires var s := After(FRESH, history); r.source in s.sources || |s.sources| < SOURCE_CAPACITY
    ensures Step(After(FRESH, history), r).1
  {
    OpenWindowRecent(history, Some(r.source), r.now, since);
    OpenWindowRecent(history, None, r.now, since);
    RunKeepsValid(FRESH, history);
    PruneLeavesRoom(After(FRESH, history), r.source, r.now);
  }

  class CookieChallengeLimiter {
    var sources: map<IpAddr, Window>
    var overall: Option<Window>
    var lastPrune: Option<nat>

    ghost function Model(): State
      reads this
    {
      State(sources, overall, lastPrune)
    }

    constructor ()
      ensures Model() == FRESH
    {
      sources, overall, lastPrune := map[], None, None;
    }

    method PruneIfDue(now: nat)
      modifies this
      ensures Model() == Pruned(old(Model()), now)
    {
      if lastPrune.None? || Expired(lastPrune.value, now) {
        sources := map ip | ip in sources && !Expired(sources[ip].start, now) :: sources[ip];
        lastPrune := Some(now);
      }
    }

    method Allow(source: IpAddr, now: nat) returns (admitted: bool)
      modifies this
      ensures (Model(), admitted) == Step(old(Model()), Request(source, now))
    {
      PruneIfDue(now);
      if source in sources {
        var w := sources[source];
        if Expired(w.start, now) {
          sources := sources[source := Window(now, 1)];
        } else if w.count >= SOURCE_LIMIT {
          return false;
        } else {
          sources := sources[source := Window(w.start, w.count + 1)];
        }
      } else if |sources| >= SOURCE_CAPACITY {
        return false;
      } else {
        sources := sources[source := Window(now, 1)];
      }
      if overall.Some? && !Expired(overall.value.start, now) {
        if overall.value.count >= GLOBAL_LIMIT {
          return false;
        }
        overall := Some(Window(overall.value.start, overall.value.count + 1));
      } else {
        overall := Some(Window(now, 1));
      }
      return true;
    }
  }
}
