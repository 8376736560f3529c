/** The receive limiters of the active sessions, through rekeys, reloads and whole runs. */
module ServerLimits {
  import opened Basics
  import opened Net
  import opened Codec
  import opened Crypto
  import opened ServerModel
  import opened ServerInvariant
  import opened ServerRuns
  import opened ServerConnects
  import Handshake
  import TB = TokenBucket

  /** The step replaces the limiters of the active sessions. */
  predicate Relimits(s: Server, e: Event) {
    && e.ReloadSignal? && !Rejected(s, e.reading) && Changes(s, e.reading)
    && e.reading.candidate.value.limits != s.config.limits
  }

  /** The receive rate that the configuration in force asks for. */
  function RateInForce(s: Server): u64 {
    RateOf(s.config.limits.rxMibPerSec)
  }

  /** The limiter of a session that was active before the step and still is. */
  function LimiterAfter(s: Server, e: Event, id: SessionId): TB.Bucket
    requires id in s.active
  {
    if Relimits(s, e) then TB.New(RateOf(e.reading.candidate.value.limits.rxMibPerSec), e.now)
    else if e.PayloadPoliced? && e.id == id then TB.Allow(s.active[id].rxLimiter, e.now, e.bytes).0
    else s.active[id].rxLimiter
  }

  /** What a step does to the limiter of one session and to the rates. */
  predicate LimiterStep(s: Server, s': Server, e: Event, id: SessionId) {
    && s'.rxRate == s.rxRate
    && s'.config.limits == (if Relimits(s, e) then e.reading.candidate.value.limits else s.config.limits)
    && (id in s'.active ==>
          if id in s.active then s'.active[id].rxLimiter == LimiterAfter(s, e, id)
          else e.PacketReceived? && s'.active[id].rxLimiter == TB.New(s.rxRate, e.now))
  }

  lemma FinishLimiter(c: Suite, s: Server, endpoint: SocketAddr, packet: Packet, clock: u64, now: nat, id: SessionId)
    ensures var s' := FinishArrived(c, s, endpoint, packet, clock, now);
            && s'.rxRate == s.rxRate && s'.config == s.config
            && (id in s'.active ==>
                  s'.active[id].rxLimiter == if id in s.active then s.active[id].rxLimiter else TB.New(s.rxRate, now))
  {}

  lemma InboundLimiter(c: Suite, s: Server, endpoint: SocketAddr, packet: Packet, now: nat, id: SessionId)
    ensures var s' := Inbound(c, s, endpoint, packet, now);
            && s'.rxRate == s.rxRate && s'.config == s.config
            && (id in s'.active ==> id in s.active && s'.active[id].rxLimiter == s.active[id].rxLimiter)
  {}

  lemma ReceivedLimiter(c: Suite, s: Server, e: Event, id: SessionId)
    requires Correct(c) && e.PacketReceived? && Enabled(s, e)
    ensures LimiterStep(s, Received(c, s, e.endpoint, e.packet, e.draws, e.admitted, e.clock, e.now), e, id)
  {
    FinishLimiter(c, s, e.endpoint, e.packet, e.clock, e.now, id);
    InboundLimiter(c, s, e.endpoint, e.packet, e.now, id);
  }

  /** Only policing and a change of limits touch the limiter of an active session; a rekey carries it over. */
  lemma StepLimiter(c: Suite, s: Server, e: Event, id: SessionId)
    requires Correct(c) && Enabled(s, e)
    ensures LimiterStep(s, Step(c, s, e), e, id)
  {
    if e.PacketReceived? {
      ReceivedLimiter(c, s, e, id);
    }
  }

  lemma AtLimiter(c: Suite, s: Server, events: seq<Event>, i: nat, id: SessionId)
    requires Correct(c) && i < |events| && EnabledAt(c, s, events, i)
    ensures LimiterStep(At(c, s, events, i), At(c, s, events, i + 1), events[i], id)
  {
    StepLimiter(c, At(c, s, events, i), events[i], id);
  }

  // Which rate applies

  /** The limits changed while the session was active, and it has been active ever since. */
  predicate Limited(c: Suite, s: Server, events: seq<Event>, i: nat, id: SessionId)
    requires Correct(c) && i <= |events|
  {
    && i > 0
    && id in At(c, s, events, i).active && id in At(c, s, events, i - 1).active
    && (Relimits(At(c, s, events, i - 1), events[i - 1]) || Limited(c, s, events, i - 1, id))
  }

  /** The limiter is sound, and its rate the one in force if `limited`, and the one read at startup otherwise. */
  predicate RatedAs(s: Server, id: SessionId, limited: bool) {
    id in s.active ==>
      && TB.Valid(s.active[id].rxLimiter)
      && s.active[id].rxLimiter.rate == if limited then RateInForce(s) else s.rxRate
  }

  lemma AllowKeepsRate(b: TB.Bucket, now: nat, bytes: u64)
    requires TB.Valid(b)
    ensures TB.Valid(TB.Allow(b, now, bytes).0) && TB.Allow(b, now, bytes).0.rate == b.rate
  {}

  lemma StepRated(s: Server, s': Server, e: Event, id: SessionId, limited: bool)
    requires LimiterStep(s, s', e, id) && RatedAs(s, id, limited)
    ensures RatedAs(s', id, id in s.active && (Relimits(s, e) || limited))
  {
    if id in s.active && e.PayloadPoliced? {
      AllowKeepsRate(s.active[id].rxLimiter, e.now, e.bytes);
    }
  }

  lemma {:induction false} RunRated(c: Suite, config: Config, events: seq<Event>, i: nat, id: SessionId)
    requires Correct(c) && FreshRun(c, Launch(config), events) && i <= |events|
    ensures At(c, Launch(config), events, i).rxRate == RateOf(config.limits.rxMibPerSec)
    ensures RatedAs(At(c, Launch(config), events, i), id, Limited(c, Launch(config), events, i, id))
  {
    if i > 0 {
      RunRated(c, config, events, i - 1, id);
      assert EnabledAt(c, Launch(config), events, i - 1);
      AtLimiter(c, Launch(config), events, i - 1, id);
      StepRated(At(c, Launch(config), events, i - 1), At(c, Launch(config), events, i), events[i - 1], id,
                Limited(c, Launch(config), events, i - 1, id));
    }
  }

  /**
   Which receive rate a session has, in every state of every run: the one in force if the
   limits changed while it was active, and the one read at startup otherwise. So it has
   the rate in force if and only if one of the two is the case.
   */
  lemma ReceiveRate(c: Suite, config: Config, events: seq<Event>, i: nat, id: SessionId)
    requires Correct(c) && FreshRun(c, Launch(config), events) && i <= |events|
    requires id in At(c, Launch(config), events, i).active
    ensures var (s, limited) := (At(c, Launch(config), events, i), Limited(c, Launch(config), events, i, id));
            var startup := RateOf(config.limits.rxMibPerSec);
            && s.active[id].rxLimiter.rate == (if limited then RateInForce(s) else startup)
            && (s.active[id].rxLimiter.rate == RateInForce(s) <==> limited || startup == RateInForce(s))
  {
    RunRated(c, config, events, i, id);
  }

  /** A reading that changes the receive limit and nothing else, to a rate other than the startup's. */
  predicate NewReceiveLimit(s: Server, r: Reading) {
    && r.candidate.Some? && r.resolves && !r.reordered
    && r.candidate.value == s.config.(limits := s.config.limits.(rxMibPerSec := r.candidate.value.limits.rxMibPerSec))
    && r.candidate.value.limits != s.config.limits && RateOf(r.candidate.value.limits.rxMibPerSec) != s.rxRate
  }

  lemma ReloadedLimits(s: ValidServer, r: Reading, now: nat)
    requires NewReceiveLimit(s, r)
    ensures var s' := Reloaded(s, r, now);
            && Valid(s') && s'.active.Keys == s.active.Keys && s'.pending == s.pending && s'.identities == s.identities
            && s'.rxRate == s.rxRate && RateInForce(s') != s.rxRate
  {
    ReloadedKeepsValid(s, r, now);
  }

  /**
   The rate in force is missed by every newcomer: after an accepted reload to another
   receive limit, an honest peer that connects has the rate read at startup.
   */
  lemma NewcomerMissesReload(c: Suite, s: ValidServer, r: Reading, now: nat, i: Handshake.InitiatorState,
                             endpoint: SocketAddr, draws: seq<Draw>, k: nat, again: seq<Draw>, at: Handshake.Clocks,
                             mine: Handshake.Clocks, theirs: Handshake.Clocks)
    requires Correct(c) && NewReceiveLimit(s, r)
    requires SetUp(c, s, i, k, mine, theirs) && Fresh(s, draws) && FirstTrial(s, endpoint)
    requires Handshake.Agree(c, draws[k].ephemeral, i.initiation.publicKey).Ok?
    requires Fresh(Reloaded(s, r, now), draws)
    requires Fresh(Step(c, Reloaded(s, r, now), Hello(i, endpoint, draws, at)), again)
    ensures var id, asked := draws[k].sessionId, Step(c, Reloaded(s, r, now), Hello(i, endpoint, draws, at));
            && id in asked.pending && ResponseTo(asked, id).Ok?
            && var f := Handshake.FinishForSession(c, i, ResponseTo(asked, id).value, id, 0, mine.wall, mine.now);
            && f.Ok?
            && var after := Step(c, asked, FinishFor(id, f.value.0, endpoint, again, theirs));
            && id in after.active && after.active[id].rxLimiter.rate == s.rxRate != RateInForce(after)
  {
    ReloadedLimits(s, r, now);
    PeerConnects(c, Reloaded(s, r, now), i, endpoint, draws, k, again, at, mine, theirs);
  }

  // Conformance over a run

  predicate Timed(e: Event) {
    e.PacketReceived? || e.PayloadPoliced? || e.Swept? || e.ReloadSignal?
  }

  predicate InOrder(events: seq<Event>) {
    forall i, j | 0 <= i < j < |events| && Timed(events[i]) && Timed(events[j]) :: events[i].now <= events[j].now
  }

  /** The calls that a stretch of events makes to one session's limiter. */
  function Calls(events: seq<Event>, a: nat, b: nat, id: SessionId): seq<TB.Call>
    requires a <= b <= |events|
    decreases b - a
  {
    if a == b then []
    else
      (if events[a].PayloadPoliced? && events[a].id == id then [TB.Call(events[a].now, events[a].bytes)] else [])
      + Calls(events, a + 1, b, id)
  }

  /** The payload bytes of one session that the limiter lets through in a stretch. */
  function Passed(c: Suite, s: Server, events: seq<Event>, a: nat, b: nat, id: SessionId): nat
    requires Correct(c) && a <= b <= |events|
    decreases b - a
  {
    if a == b then 0 else PassedBy(At(c, s, events, a), events[a], id) + Passed(c, s, events, a + 1, b, id)
  }

  function PassedBy(s: Server, e: Event, id: SessionId): nat {
    if e.PayloadPoliced? && e.id == id && id in s.active && TB.Allow(s.active[id].rxLimiter, e.now, e.bytes).1
    then e.bytes else 0
  }

  /** The session is active after `i` events. */
  predicate ActiveAt(c: Suite, s: Server, events: seq<Event>, i: nat, id: SessionId)
    requires Correct(c) && i <= |events|
  {
    id in At(c, s, events, i).active
  }

  predicate RelimitsAt(c: Suite, s: Server, events: seq<Event>, i: nat)
    requires Correct(c) && i < |events|
  {
    Relimits(At(c, s, events, i), events[i])
  }

  /** The session is active throughout, and the limits do not change. Rekeys are allowed. */
  predicate Lasts(c: Suite, s: Server, events: seq<Event>, a: nat, b: nat, id: SessionId)
    requires Correct(c) && a <= b <= |events|
  {
    && (forall i: nat | a <= i <= b :: ActiveAt(c, s, events, i, id))
    && (forall i: nat | a <= i < b :: !RelimitsAt(c, s, events, i))
  }

  function LimiterAt(c: Suite, s: Server, events: seq<Event>, i: nat, id: SessionId): TB.Bucket
    requires Correct(c) && i <= |events| && ActiveAt(c, s, events, i, id)
  {
    At(c, s, events, i).active[id].rxLimiter
  }

  lemma OneCall(s: Server, s': Server, e: Event, id: SessionId)
    requires LimiterStep(s, s', e, id) && id in s.active && id in s'.active && !Relimits(s, e)
    requires s.active[id].rxLimiter.rate > 0
    ensures s'.active[id].rxLimiter.rate == s.active[id].rxLimiter.rate
    ensures if e.PayloadPoliced? && e.id == id
            then (var (after, taken) := TB.TakeStep(s.active[id].rxLimiter, e.now, e.bytes);
                  s'.active[id].rxLimiter == after && PassedBy(s, e, id) == if taken then e.bytes else 0)
            else s'.active[id].rxLimiter == s.active[id].rxLimiter && PassedBy(s, e, id) == 0
  {}

  /** What a session's limiter lets through in a run is what one bucket admits of the same calls. */
  lemma {:induction false} PassedIsAdmitted(c: Suite, s: Server, events: seq<Event>, a: nat, b: nat, id: SessionId)
    requires Correct(c) && FreshRun(c, s, events) && a <= b <= |events| && Lasts(c, s, events, a, b, id)
    requires ActiveAt(c, s, events, a, id) && LimiterAt(c, s, events, a, id).rate > 0
    ensures Passed(c, s, events, a, b, id) == TB.Admitted(LimiterAt(c, s, events, a, id), Calls(events, a, b, id))
    decreases b - a
  {
    if a < b {
      assert ActiveAt(c, s, events, a + 1, id) && !RelimitsAt(c, s, events, a) && EnabledAt(c, s, events, a);
      AtLimiter(c, s, events, a, id);
      OneCall(At(c, s, events, a), At(c, s, events, a + 1), events[a], id);
      PassedIsAdmitted(c, s, events, a + 1, b, id);
      AdmittedFirst(LimiterAt(c, s, events, a, id), events, a, b, id);
    }
  }

  lemma AdmittedFirst(limiter: TB.Bucket, events: seq<Event>, a: nat, b: nat, id: SessionId)
    requires a < b <= |events|
    ensures TB.Admitted(limiter, Calls(events, a, b, id))
         == if events[a].PayloadPoliced? && events[a].id == id
            then (var (after, taken) := TB.TakeStep(limiter, events[a].now, events[a].bytes);
                  (if taken then events[a].bytes else 0) + TB.Admitted(after, Calls(events, a + 1, b, id)))
            else TB.Admitted(limiter, Calls(events, a + 1, b, id))
  {
    var rest := Calls(events, a + 1, b, id);
    if events[a].PayloadPoliced? && events[a].id == id {
      var call := TB.Call(events[a].now, events[a].bytes);
      assert ([call] + rest)[1..] == rest && ([call] + rest)[0] == call;
    } else {
      assert [] + rest == rest;
    }
  }

  // Times

  /** No timed event from `i` on is earlier than `t`. */
  predicate NotBefore(t: nat, events: seq<Event>, i: nat) {
    forall j: nat | i <= j < |events| && Timed(events[j]) :: t <= events[j].now
  }

  lemma {:induction false} UpdatedInOrder(c: Suite, config: Config, events: seq<Event>, i: nat, id: SessionId)
    requires Correct(c) && FreshRun(c, Launch(config), events) && InOrder(events) && i <= |events|
    ensures ActiveAt(c, Launch(config), events, i, id)
            ==> NotBefore(LimiterAt(c, Launch(config), events, i, id).updated, events, i)
  {
    var s := Launch(config);
    if i > 0 && ActiveAt(c, s, events, i, id) {
      UpdatedInOrder(c, config, events, i - 1, id);
      assert EnabledAt(c, s, events, i - 1);
      AtLimiter(c, s, events, i - 1, id);
      UpdatedStep(At(c, s, events, i - 1), At(c, s, events, i), events, i - 1, id);
    }
  }

  lemma UpdatedStep(s: Server, s': Server, events: seq<Event>, i: nat, id: SessionId)
    requires i < |events| && InOrder(events) && LimiterStep(s, s', events[i], id) && id in s'.active
    requires id in s.active ==> NotBefore(s.active[id].rxLimiter.updated, events, i)
    ensures NotBefore(s'.active[id].rxLimiter.updated, events, i + 1)
  {}

  lemma {:induction false} CallsInOrder(events: seq<Event>, a: nat, b: nat, id: SessionId, from: nat)
    requires InOrder(events) && a <= b <= |events| && NotBefore(from, events, a)
    ensures TB.Ordered(from, Calls(events, a, b, id))
    decreases b - a
  {
    if a < b {
      if Timed(events[a]) {
        CallsInOrder(events, a + 1, b, id, events[a].now);
      } else {
        CallsInOrder(events, a + 1, b, id, from);
      }
    }
  }

  lemma SoundAt(c: Suite, config: Config, events: seq<Event>, i: nat, id: SessionId)
    requires Correct(c) && FreshRun(c, Launch(config), events) && InOrder(events) && i <= |events|
    requires ActiveAt(c, Launch(config), events, i, id)
    ensures var limiter := LimiterAt(c, Launch(config), events, i, id);
            TB.Valid(limiter) && NotBefore(limiter.updated, events, i)
  {
    RunRated(c, config, events, i, id);
    UpdatedInOrder(c, config, events, i, id);
  }

  /** At most one burst of the rate, and the rate times the time between the first and the last call. */
  predicate WithinBurst(bytes: nat, rate: u64, calls: seq<TB.Call>)
    requires calls != []
  {
    bytes * NANOS_PER_SEC
    <= TB.CapacityFor(rate) * NANOS_PER_SEC + (calls[|calls| - 1].now - calls[0].now) * rate
  }

  lemma OrderedWithinBurst(limiter: TB.Bucket, calls: seq<TB.Call>)
    requires TB.Valid(limiter) && TB.Ordered(limiter.updated, calls) && calls != []
    ensures WithinBurst(TB.Admitted(limiter, calls), limiter.rate, calls)
  {
    TB.StretchAtMost(limiter, calls);
  }

  lemma AdmittedWithinBurst(limiter: TB.Bucket, events: seq<Event>, a: nat, b: nat, id: SessionId)
    requires TB.Valid(limiter) && InOrder(events) && a <= b <= |events| && NotBefore(limiter.updated, events, a)
    requires Calls(events, a, b, id) != []
    ensures WithinBurst(TB.Admitted(limiter, Calls(events, a, b, id)), limiter.rate, Calls(events, a, b, id))
  {
    CallsInOrder(events, a, b, id, limiter.updated);
    OrderedWithinBurst(limiter, Calls(events, a, b, id));
  }

  /**
   Policing conforms over whole runs: in any stretch through which a session stays active
   and the limits do not change, rekeys included, the payload bytes let through are at
   most one burst plus the session's rate times the time between the first and the last
   payload.
   */
  lemma PolicingConforms(c: Suite, config: Config, events: seq<Event>, a: nat, b: nat, id: SessionId)
    requires Correct(c) && FreshRun(c, Launch(config), events) && InOrder(events) && a <= b <= |events|
    requires Lasts(c, Launch(config), events, a, b, id) && ActiveAt(c, Launch(config), events, a, id)
    requires LimiterAt(c, Launch(config), events, a, id).rate > 0 && Calls(events, a, b, id) != []
    ensures WithinBurst(Passed(c, Launch(config), events, a, b, id), LimiterAt(c, Launch(config), events, a, id).rate,
                        Calls(events, a, b, id))
  {
    SoundAt(c, config, events, a, id);
    PassedIsAdmitted(c, Launch(config), events, a, b, id);
    AdmittedWithinBurst(LimiterAt(c, Launch(config), events, a, id), events, a, b, id);
  }
}
