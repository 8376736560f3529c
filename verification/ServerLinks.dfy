/** Which peers may reach each other, from the configuration to every state of the server. */
module ServerLinks {
  import opened Basics
  import opened Net
  import opened Crypto
  import opened Peers
  import opened ServerModel
  import opened ServerInvariant
  import opened ServerRuns
  import Codec
  import RM = RouterModel

  /** One `[[links]]` section lets `a` send to `b`. */
  predicate Permits(link: LinkConfig, a: string, b: string) {
    (a in link.between && b in link.between) || (a in link.transmitters && b in link.receivers)
  }

  lemma EdgesPermit(link: LinkConfig, a: string, b: string)
    requires a != b
    ensures (a, b) in EdgesOf(link) <==> Permits(link, a, b)
  {
    if a in link.between && b in link.between {
      var i :| 0 <= i < |link.between| && link.between[i] == a;
      var j :| 0 <= j < |link.between| && link.between[j] == b;
      assert (link.between[i], link.between[j]) in EdgesOf(link);
    }
  }

  /** The edges of a configuration are exactly what its sections permit. */
  lemma {:induction false} LinksPermit(links: seq<LinkConfig>, a: string, b: string)
    ensures RM.Linked(LinksFor(links), a, b) <==> a != b && exists link | link in links :: Permits(link, a, b)
  {
    if links != [] && a != b {
      EdgesPermit(links[0], a, b);
      LinksPermit(links[1..], a, b);
      assert links[0] in links;
    }
  }

  /** Only groups, no one-way sections. */
  predicate Grouped(links: seq<LinkConfig>) {
    forall link | link in links :: link.transmitters == [] || link.receivers == []
  }

  lemma {:induction false} GroupsSymmetric(links: seq<LinkConfig>)
    requires Grouped(links)
    ensures RM.Symmetric(LinksFor(links))
  {
    if links != [] {
      GroupsSymmetric(links[1..]);
      var link := links[0];
      assert link in links;
      forall a, b | (a, b) in EdgesOf(link) ensures (b, a) in EdgesOf(link) {
        if a != b {
          EdgesPermit(link, a, b);
          EdgesPermit(link, b, a);
        }
      }
    }
  }

  // Every state

  /** The router's edges are those of the configuration in force, each pair of peers by their ages. */
  ghost predicate Follows(s: Server, age: SessionId -> nat) {
    s.router.links == LinksFor(s.config.links) && RM.ByAge(s.router, age)
  }

  /** The step replaces the router's links. */
  predicate Replaces(s: Server, e: Event) {
    e.ReloadSignal? && !Rejected(s, e.reading) && Changes(s, e.reading)
      && e.reading.candidate.value.links != s.config.links
  }

  /** Ages after a step: nought for all once links are replaced, and the step's number for a newcomer. */
  function Aged(s: Server, e: Event, age: nat, n: nat, id: SessionId): nat {
    if Replaces(s, e) then 0 else if id in s.router.peers then age else n
  }

  /** When a peer was registered, counted in steps; nought if that was before the links were last replaced. */
  function Age(c: Suite, s: Server, events: seq<Event>, i: nat, id: SessionId): (n: nat)
    requires Correct(c) && i <= |events|
    ensures n <= i
  {
    if i == 0 then 0
    else
      var age, before := Age(c, s, events, i - 1, id), At(c, s, events, i - 1);
      if Enabled(before, events[i - 1]) then Aged(before, events[i - 1], age, i, id) else age
  }

  lemma WithoutByAge(r: RM.Core, gone: set<SessionId>, age: SessionId -> nat)
    requires RM.ByAge(r, age)
    ensures RM.ByAge(RouterWithout(r, gone), age)
  {
    var w := RouterWithout(r, gone);
    forall a, b | a in w.peers && b in w.peers && a != b ensures RM.AllowsByAge(w, age, a, b) {
      assert RM.AllowsByAge(r, age, a, b);
    }
  }

  /** The peers there already keep their ages, and a newcomer is younger than all of them. */
  predicate Ages(r: RM.Core, age: SessionId -> nat, age': SessionId -> nat) {
    && (forall id | id in r.peers :: age'(id) == age(id))
    && (forall id, other | id in r.peers && other !in r.peers :: age'(id) < age'(other))
  }

  lemma AdmitByAge(r: RM.Core, stale: set<SessionId>, id: SessionId, identity: PeerIdentity, age: SessionId -> nat,
                   age': SessionId -> nat)
    requires RM.ByAge(r, age) && Ages(r, age, age') && id !in stale
    ensures RM.ByAge(RouterWith(RouterWithout(r, stale), id, identity), age')
  {
    var w := RouterWithout(r, stale);
    WithoutByAge(r, stale, age);
    RM.SameByAge(w, age, age');
    if id !in r.peers {
      RM.RegisterByAge(w, id, identity.name, identity.allowedIps, age', age');
    }
  }

  lemma FinishFollows(c: Suite, s: Server, endpoint: SocketAddr, packet: Codec.Packet, clock: u64, now: nat,
                      age: SessionId -> nat, age': SessionId -> nat)
    requires Follows(s, age) && Ages(s.router, age, age')
    ensures Follows(FinishArrived(c, s, endpoint, packet, clock, now), age')
  {
    RM.SameByAge(s.router, age, age');
    if Expected(s, endpoint, packet) {
      var e := Established(c, s.pending[packet.header.sessionId], packet.payload, clock, now);
      if e.Some? {
        var stale := Stale(s.active, e.value.0.sessionId, e.value.1);
        AdmitByAge(s.router, stale, e.value.0.sessionId, e.value.1, age, age');
      }
    }
  }

  lemma InboundFollows(c: Suite, s: Server, endpoint: SocketAddr, packet: Codec.Packet, now: nat, age: SessionId -> nat)
    requires Follows(s, age)
    ensures Follows(Inbound(c, s, endpoint, packet, now), age)
  {
    WithoutByAge(s.router, {packet.header.sessionId}, age);
  }

  lemma ReceivedFollows(c: Suite, s: Server, e: Event, age: SessionId -> nat, age': SessionId -> nat)
    requires Correct(c) && e.PacketReceived? && Enabled(s, e) && Follows(s, age) && Ages(s.router, age, age')
    ensures Follows(Received(c, s, e.endpoint, e.packet, e.draws, e.admitted, e.clock, e.now), age')
  {
    var h := e.packet.header;
    RM.SameByAge(s.router, age, age');
    if h.kind == Codec.PacketKind.Handshake || h.kind == Codec.Rekey {
      FinishFollows(c, s, e.endpoint, e.packet, e.clock, e.now, age, age');
    } else {
      InboundFollows(c, s, e.endpoint, e.packet, e.now, age');
    }
  }

  lemma ReloadFollows(s: Server, r: Reading, now: nat, age: SessionId -> nat, age': SessionId -> nat)
    requires Follows(s, age)
    requires Replaces(s, ReloadSignal(r, now)) ==> forall id :: age'(id) == 0
    requires !Replaces(s, ReloadSignal(r, now)) ==> Ages(s.router, age, age')
    ensures Follows(Reloaded(s, r, now), age')
  {
    if Replaces(s, ReloadSignal(r, now)) {
      var next := r.candidate.value;
      var cleared := Cleared(s, AuthChanged(s.config, next, r.reordered));
      RM.ReplaceLinksExact(cleared.router, LinksFor(next.links));
      RM.ExactByAge(RM.ReplaceLinks(cleared.router, LinksFor(next.links)), age');
    } else {
      RM.SameByAge(s.router, age, age');
      WithoutByAge(s.router, s.active.Keys, age');
    }
  }

  lemma StepFollows(c: Suite, s: Server, e: Event, age: SessionId -> nat, age': SessionId -> nat)
    requires Correct(c) && Enabled(s, e) && Follows(s, age)
    requires Replaces(s, e) ==> forall id :: age'(id) == 0
    requires !Replaces(s, e) ==> Ages(s.router, age, age')
    ensures Follows(Step(c, s, e), age')
  {
    if !Replaces(s, e) {
      RM.SameByAge(s.router, age, age');
    }
    match e
    case PacketReceived(_, _, _, _, _, _) => ReceivedFollows(c, s, e, age, age');
    case PacketSent(_, _, _) =>
    case PayloadPoliced(_, _, _) =>
    case FrameRouted(id, frame) => RM.RouteFrameByAge(s.router, id, frame, age');
    case Swept(now) => WithoutByAge(s.router, Idle(s, now), age');
    case RetryTimer =>
    case ReloadSignal(reading, now) => ReloadFollows(s, reading, now, age, age');
  }

  lemma {:induction false} RunFollows(c: Suite, config: Config, events: seq<Event>, i: nat)
    requires Correct(c) && i <= |events|
    ensures Follows(At(c, Launch(config), events, i), id => Age(c, Launch(config), events, i, id))
  {
    if i > 0 {
      RunFollows(c, config, events, i - 1);
      var before := At(c, Launch(config), events, i - 1);
      var age := (id: SessionId) => Age(c, Launch(config), events, i - 1, id);
      var age' := (id: SessionId) => Age(c, Launch(config), events, i, id);
      if Enabled(before, events[i - 1]) {
        StepFollows(c, before, events[i - 1], age, age');
      } else {
        RM.SameByAge(before.router, age, age');
      }
    }
  }

  /** What the configuration in force says of two active peers. */
  ghost predicate Configured(s: Server, a: SessionId, b: SessionId)
    requires a in s.active && b in s.active
  {
    var (from, to) := (s.active[a].identity.name, s.active[b].identity.name);
    from != to && exists link | link in s.config.links :: Permits(link, from, to)
  }

  lemma FollowsConfigured(s: ValidServer, age: SessionId -> nat, a: SessionId, b: SessionId)
    requires Follows(s, age) && a in s.active && b in s.active && a != b
    ensures a in s.router.peers
    ensures b in s.router.peers[a].linked <==> if age(a) >= age(b) then Configured(s, a, b) else Configured(s, b, a)
  {
    AgreementSpelledOut(s);
    assert RM.AllowsByAge(s.router, age, a, b);
    LinksPermit(s.config.links, s.active[a].identity.name, s.active[b].identity.name);
    LinksPermit(s.config.links, s.active[b].identity.name, s.active[a].identity.name);
  }

  /**
   In every state of every run, whatever the links: an active peer receives from another
   exactly as the configuration in force says of the two, read from the later registered
   to the earlier, or from sender to receiver where both were there when the links last
   changed.
   */
  lemma ReceiversByAge(c: Suite, config: Config, events: seq<Event>, i: nat, a: SessionId, b: SessionId)
    requires Correct(c) && config.startup.retryLimit >= 1 && i <= |events|
    requires var s := At(c, Launch(config), events, i); a in s.active && b in s.active && a != b
    ensures var s := At(c, Launch(config), events, i);
            && a in s.router.peers
            && (b in s.router.peers[a].linked <==>
                if Age(c, Launch(config), events, i, a) >= Age(c, Launch(config), events, i, b)
                then Configured(s, a, b) else Configured(s, b, a))
  {
    LaunchValid(config);
    RunKeepsValid(c, Launch(config), events, i);
    RunFollows(c, config, events, i);
    FollowsConfigured(At(c, Launch(config), events, i), id => Age(c, Launch(config), events, i, id), a, b);
  }

  lemma GroupsBothWays(s: Server, a: SessionId, b: SessionId)
    requires Grouped(s.config.links) && a in s.active && b in s.active
    ensures Configured(s, a, b) <==> Configured(s, b, a)
  {
    var (from, to) := (s.active[a].identity.name, s.active[b].identity.name);
    GroupsSymmetric(s.config.links);
    LinksPermit(s.config.links, from, to);
    LinksPermit(s.config.links, to, from);
  }

  /**
   Where the configuration in force has groups only, a peer's receivers are exactly the
   other active peers in a group with it, whatever the links were before.
   */
  lemma ReceiversAsConfigured(c: Suite, config: Config, events: seq<Event>, i: nat, a: SessionId, b: SessionId)
    requires Correct(c) && config.startup.retryLimit >= 1 && i <= |events|
    requires var s := At(c, Launch(config), events, i);
             Grouped(s.config.links) && a in s.active && b in s.active && a != b
    ensures var s := At(c, Launch(config), events, i);
            a in s.router.peers && (b in s.router.peers[a].linked <==> Configured(s, a, b))
  {
    ReceiversByAge(c, config, events, i, a, b);
    GroupsBothWays(At(c, Launch(config), events, i), a, b);
  }
}
