/**
 What the router does to its peers, links and learned MAC addresses, as values; the
 prefix table is kept beside it by the class `Router`.
 */
module RouterModel {
  import opened Basics
  import opened Net
  import opened IpPacket
  import opened RoutingTable

  const MAX_MACS_PER_PEER: nat := 16

  /** Directed edges between peer names. */
  type Edges = set<(string, string)>

  predicate Linked(links: Edges, a: string, b: string) {
    a != b && (a, b) in links
  }

  datatype PeerEntry = PeerEntry(name: string, allowedIps: seq<IpNet>, linked: set<SessionId>, macs: set<Mac>)

  type Peers = map<SessionId, PeerEntry>

  datatype Core = Core(links: Edges, peers: Peers, macs: map<Mac, SessionId>)

  function Init(links: Edges): Core {
    Core(links, map[], map[])
  }

  /** The receivers the links authorise for one peer. */
  function Authorised(links: Edges, peers: Peers, id: SessionId): set<SessionId>
    requires id in peers
  {
    set other | other in peers && other != id && Linked(links, peers[id].name, peers[other].name)
  }

  function Relinked(links: Edges, peers: Peers): Peers {
    map id | id in peers :: peers[id].(linked := Authorised(links, peers, id))
  }

  function ReplaceLinks(c: Core, links: Edges): Core {
    Core(links, Relinked(links, c.peers), c.macs)
  }

  function PeersWithout(peers: Peers, session: SessionId): Peers {
    map id | id in peers && id != session :: peers[id].(linked := peers[id].linked - {session})
  }

  function MacsWithout(macs: map<Mac, SessionId>, learned: set<Mac>, session: SessionId): map<Mac, SessionId> {
    map mac | mac in macs && !(mac in learned && macs[mac] == session) :: macs[mac]
  }

  function Unregister(c: Core, session: SessionId): Core {
    if session !in c.peers then c
    else Core(c.links, PeersWithout(c.peers, session), MacsWithout(c.macs, c.peers[session].macs, session))
  }

  /** The peers a newcomer of this name is linked with: only edges from it to them are asked about. */
  function Acquaintances(links: Edges, peers: Peers, name: string): set<SessionId> {
    set id | id in peers && Linked(links, name, peers[id].name)
  }

  /** The same edge links both ways. */
  function Acquainted(links: Edges, peers: Peers, session: SessionId, name: string): Peers {
    map id | id in peers ::
      if Linked(links, name, peers[id].name) then peers[id].(linked := peers[id].linked + {session}) else peers[id]
  }

  function PeersWith(links: Edges, peers: Peers, session: SessionId, name: string, allowedIps: seq<IpNet>): Peers {
    var others := Acquainted(links, peers, session, name);
    others[session := PeerEntry(name, allowedIps, Acquaintances(links, peers, name), {})]
  }

  function Register(c: Core, session: SessionId, name: string, allowedIps: seq<IpNet>): Core {
    var u := Unregister(c, session);
    u.(peers := PeersWith(u.links, u.peers, session, name, allowedIps))
  }

  // Verdicts

  datatype DropReason =
    | Malformed | UnsupportedEthertype | SourceNotAllowed | InvalidSourceMac | MacConflict
    | TooManyMacs | NoLink | Hairpin | UnknownSession

  datatype Verdict = Drop(reason: DropReason) | Forward(local: bool, peers: set<SessionId>)

  predicate SourceAllowed(peer: PeerEntry, source: IpAddr) {
    exists net | net in peer.allowedIps :: Contains(net, source)
  }

  /** Delivery to whoever a table or a MAC lookup names as the target. */
  function Deliver(peer: PeerEntry, from: SessionId, target: Option<SessionId>): Verdict {
    if target.None? then Forward(true, {})
    else if target.value == from then Drop(Hairpin)
    else if target.value in peer.linked then Forward(false, {target.value})
    else Drop(NoLink)
  }

  function RouteIp(c: Core, table: seq<Row>, from: SessionId, packet: seq<u8>): Verdict {
    if from !in c.peers then Drop(UnknownSession)
    else if Source(packet).None? || Destination(packet).None? then Drop(Malformed)
    else if !SourceAllowed(c.peers[from], Source(packet).value) then Drop(SourceNotAllowed)
    else Deliver(c.peers[from], from, FirstMatch(table, Destination(packet).value))
  }

  /** What is wrong with a frame before its source address is looked up, if anything. */
  function FrameFault(c: Core, from: SessionId, frame: seq<u8>): Option<DropReason> {
    if from !in c.peers then Some(UnknownSession)
    else if |frame| < ETHERNET_HEADER then Some(Malformed)
    else if IsGroupMac(SourceMac(frame).value) then Some(InvalidSourceMac)
    else if EtherType(frame).value !in {ETHERTYPE_IPV4, ETHERTYPE_IPV6, ETHERTYPE_ARP} then Some(UnsupportedEthertype)
    else if PayloadIp(frame, false).None? then Some(Malformed)
    else if !SourceAllowed(c.peers[from], PayloadIp(frame, false).value) then Some(SourceNotAllowed)
    else None
  }

  function Learn(c: Core, from: SessionId, mac: Mac): Result<Core, DropReason>
    requires from in c.peers
  {
    var peer := c.peers[from];
    if mac in c.macs then (if c.macs[mac] == from then Ok(c) else Err(MacConflict))
    else if |peer.macs| >= MAX_MACS_PER_PEER then Err(TooManyMacs)
    else Ok(c.(peers := c.peers[from := peer.(macs := peer.macs + {mac})], macs := c.macs[mac := from]))
  }

  function DeliverFrame(c: Core, from: SessionId, target: Mac): Verdict
    requires from in c.peers
  {
    var peer := c.peers[from];
    if IsGroupMac(target) then Forward(true, set id | id in c.peers && id != from && id in peer.linked)
    else Deliver(peer, from, if target in c.macs then Some(c.macs[target]) else None)
  }

  function RouteFrame(c: Core, from: SessionId, frame: seq<u8>): (Core, Verdict) {
    var fault := FrameFault(c, from, frame);
    if fault.Some? then (c, Drop(fault.value))
    else
      var learned := Learn(c, from, SourceMac(frame).value);
      if learned.Err? then (c, Drop(learned.error))
      else (learned.value, DeliverFrame(learned.value, from, DestinationMac(frame).value))
  }

  // Invariants of every reachable router

  predicate LinksRegistered(peers: Peers) {
    forall id | id in peers :: peers[id].linked <= peers.Keys - {id}
  }

  /** The MAC table and the peers' own sets are inverse, and no set is over its limit. */
  predicate MacsInverse(peers: Peers, macs: map<Mac, SessionId>) {
    && (forall mac | mac in macs :: macs[mac] in peers && mac in peers[macs[mac]].macs)
    && (forall id | id in peers :: |peers[id].macs| <= MAX_MACS_PER_PEER)
    && (forall id | id in peers :: forall mac | mac in peers[id].macs :: mac in macs && macs[mac] == id)
  }

  predicate Valid(c: Core) {
    LinksRegistered(c.peers) && MacsInverse(c.peers, c.macs)
  }

  /** Every peer's receivers are exactly those the links authorise. */
  predicate LinksExact(c: Core) {
    forall id | id in c.peers :: c.peers[id].linked == Authorised(c.links, c.peers, id)
  }

  lemma UnregisterKeepsValid(c: Core, session: SessionId)
    requires Valid(c)
    ensures Valid(Unregister(c, session)) && session !in Unregister(c, session).peers
    ensures Unregister(c, session).peers.Keys == c.peers.Keys - {session}
  {}

  lemma NewPeerLinks(links: Edges, peers: Peers, session: SessionId, name: string, allowedIps: seq<IpNet>)
    requires session !in peers && LinksRegistered(peers)
    ensures LinksRegistered(PeersWith(links, peers, session, name, allowedIps))
  {}

  lemma NewPeerMacs(links: Edges, peers: Peers, session: SessionId, name: string, allowedIps: seq<IpNet>,
                    macs: map<Mac, SessionId>)
    requires session !in peers && MacsInverse(peers, macs)
    ensures MacsInverse(PeersWith(links, peers, session, name, allowedIps), macs)
  {}

  lemma RegisterKeepsValid(c: Core, session: SessionId, name: string, allowedIps: seq<IpNet>)
    requires Valid(c)
    ensures Valid(Register(c, session, name, allowedIps))
  {
    UnregisterKeepsValid(c, session);
    var u := Unregister(c, session);
    NewPeerLinks(u.links, u.peers, session, name, allowedIps);
    NewPeerMacs(u.links, u.peers, session, name, allowedIps, u.macs);
  }

  lemma LearnKeepsValid(c: Core, from: SessionId, mac: Mac)
    requires Valid(c) && from in c.peers
    ensures Learn(c, from, mac).Ok? ==> Valid(Learn(c, from, mac).value)
  {}

  lemma RouteFrameKeepsValid(c: Core, from: SessionId, frame: seq<u8>)
    requires Valid(c)
    ensures Valid(RouteFrame(c, from, frame).0)
  {
    if FrameFault(c, from, frame).None? {
      LearnKeepsValid(c, from, SourceMac(frame).value);
    }
  }

  // Link maintenance

  lemma ReplaceLinksExact(c: Core, links: Edges)
    ensures LinksExact(ReplaceLinks(c, links))
    ensures Valid(c) ==> Valid(ReplaceLinks(c, links))
  {
    forall id | id in c.peers
      ensures Authorised(links, ReplaceLinks(c, links).peers, id) == Authorised(links, c.peers, id)
    {}
  }

  lemma UnregisterExact(c: Core, session: SessionId)
    requires LinksExact(c)
    ensures LinksExact(Unregister(c, session))
  {
    var u := Unregister(c, session);
    if session in c.peers {
      forall id | id in u.peers ensures u.peers[id].linked == Authorised(u.links, u.peers, id) {
        assert Authorised(u.links, u.peers, id) == Authorised(c.links, c.peers, id) - {session};
      }
    }
  }

  ghost predicate Symmetric(links: Edges) {
    forall a, b | (a, b) in links :: (b, a) in links
  }

  /** Between `name` and each peer the edges go both ways or neither. */
  predicate SymmetricWith(links: Edges, peers: Peers, name: string) {
    forall id | id in peers :: Linked(links, name, peers[id].name) == Linked(links, peers[id].name, name)
  }

  lemma AddPeerExact(links: Edges, peers: Peers, session: SessionId, name: string, allowedIps: seq<IpNet>,
                     id: SessionId)
    requires session !in peers && id in peers && peers[id].linked == Authorised(links, peers, id)
    ensures var w := PeersWith(links, peers, session, name, allowedIps);
            w[id].linked == Authorised(links, w, id)
            <==> Linked(links, name, peers[id].name) == Linked(links, peers[id].name, name)
  {
    var w := PeersWith(links, peers, session, name, allowedIps);
    assert Authorised(links, w, id)
        == Authorised(links, peers, id) + if Linked(links, peers[id].name, name) then {session} else {};
    assert session !in Authorised(links, peers, id);
    assert session in Authorised(links, w, id) <==> Linked(links, peers[id].name, name);
    assert session in w[id].linked <==> Linked(links, name, peers[id].name);
  }

  lemma NewPeerExact(links: Edges, peers: Peers, session: SessionId, name: string, allowedIps: seq<IpNet>)
    requires session !in peers
    ensures var w := PeersWith(links, peers, session, name, allowedIps);
            w[session].linked == Authorised(links, w, session)
  {}

  /**
   One registration keeps the receivers exact if and only if the edges between the new
   name and every other registered name are symmetric.
   */
  lemma RegisterExact(c: Core, session: SessionId, name: string, allowedIps: seq<IpNet>)
    requires LinksExact(c)
    ensures LinksExact(Register(c, session, name, allowedIps))
            <==> SymmetricWith(c.links, Unregister(c, session).peers, name)
  {
    UnregisterExact(c, session);
    var u := Unregister(c, session);
    var w := Register(c, session, name, allowedIps);
    NewPeerExact(u.links, u.peers, session, name, allowedIps);
    forall id | id in u.peers
      ensures w.peers[id].linked == Authorised(w.links, w.peers, id)
              <==> Linked(u.links, name, u.peers[id].name) == Linked(u.links, u.peers[id].name, name)
    {
      AddPeerExact(u.links, u.peers, session, name, allowedIps, id);
    }
  }

  /** With only the edge from laptop to phone, registering both gives the phone a receiver it may not have. */
  lemma DirectedLinkLeaks()
    ensures var c := Register(Register(Init({("laptop", "phone")}), 2, "phone", []), 1, "laptop", []);
            1 in c.peers[2].linked && 1 !in Authorised(c.links, c.peers, 2)
  {
    var links: Edges := {("laptop", "phone")};
    assert ("phone", "laptop") !in links by { assert "phone"[0] != "laptop"[0]; }
    var one := Register(Init(links), 2, "phone", []);
    var two := Register(one, 1, "laptop", []);
    assert one.peers[2].name == "phone" && 1 !in one.peers;
    assert "laptop" != "phone" by { assert "phone"[0] != "laptop"[0]; }
    assert Linked(links, "laptop", "phone");
  }

  // Which edge decides, in every state

  /**
   Of two registered peers, whether the first may send to the second: the edge between
   them is read from the younger, or along the sending direction where neither is younger.
   */
  predicate EdgeAllows(c: Core, age: SessionId -> nat, from: SessionId, to: SessionId)
    requires from in c.peers && to in c.peers
  {
    if age(from) >= age(to) then Linked(c.links, c.peers[from].name, c.peers[to].name)
    else Linked(c.links, c.peers[to].name, c.peers[from].name)
  }

  predicate AllowsByAge(c: Core, age: SessionId -> nat, from: SessionId, to: SessionId)
    requires from in c.peers && to in c.peers
  {
    to in c.peers[from].linked <==> EdgeAllows(c, age, from, to)
  }

  /** Receivers follow the edges, each pair by the ages of its two peers. */
  ghost predicate ByAge(c: Core, age: SessionId -> nat) {
    && LinksRegistered(c.peers)
    && forall from, to | from in c.peers && to in c.peers && from != to :: AllowsByAge(c, age, from, to)
  }

  lemma ExactByAge(c: Core, age: SessionId -> nat)
    requires LinksExact(c) && forall id | id in c.peers :: age(id) == 0
    ensures ByAge(c, age)
  {}

  lemma SameByAge(c: Core, age: SessionId -> nat, age': SessionId -> nat)
    requires ByAge(c, age) && forall id | id in c.peers :: age'(id) == age(id)
    ensures ByAge(c, age')
  {
    forall from, to | from in c.peers && to in c.peers && from != to ensures AllowsByAge(c, age', from, to) {
      assert AllowsByAge(c, age, from, to);
    }
  }

  lemma UnregisterByAge(c: Core, session: SessionId, age: SessionId -> nat)
    requires ByAge(c, age)
    ensures ByAge(Unregister(c, session), age)
  {
    var u := Unregister(c, session);
    forall from, to | from in u.peers && to in u.peers && from != to ensures AllowsByAge(u, age, from, to) {
      assert AllowsByAge(c, age, from, to);
    }
  }

  /** A new peer is the youngest: with it, every edge is read in its direction. */
  lemma AddPeerByAge(c: Core, session: SessionId, name: string, allowedIps: seq<IpNet>, age: SessionId -> nat)
    requires ByAge(c, age) && session !in c.peers && forall id | id in c.peers :: age(id) < age(session)
    ensures ByAge(c.(peers := PeersWith(c.links, c.peers, session, name, allowedIps)), age)
  {
    var w := c.(peers := PeersWith(c.links, c.peers, session, name, allowedIps));
    NewPeerLinks(c.links, c.peers, session, name, allowedIps);
    forall from, to | from in w.peers && to in w.peers && from != to ensures AllowsByAge(w, age, from, to) {
      if from != session && to != session {
        assert AllowsByAge(c, age, from, to);
      }
    }
  }

  lemma RegisterByAge(c: Core, session: SessionId, name: string, allowedIps: seq<IpNet>, age: SessionId -> nat,
                      age': SessionId -> nat)
    requires ByAge(c, age) && forall id | id in c.peers && id != session :: age'(id) == age(id) < age'(session)
    ensures ByAge(Register(c, session, name, allowedIps), age')
  {
    UnregisterByAge(c, session, age);
    SameByAge(Unregister(c, session), age, age');
    AddPeerByAge(Unregister(c, session), session, name, allowedIps, age');
  }

  lemma RouteFrameByAge(c: Core, from: SessionId, frame: seq<u8>, age: SessionId -> nat)
    requires ByAge(c, age)
    ensures ByAge(RouteFrame(c, from, frame).0, age)
  {
    var c' := RouteFrame(c, from, frame).0;
    forall a, b | a in c'.peers && b in c'.peers && a != b ensures AllowsByAge(c', age, a, b) {
      assert AllowsByAge(c, age, a, b);
    }
  }

  /** Whatever the ages, symmetric links leave every peer's receivers exact. */
  lemma SymmetricExact(c: Core, age: SessionId -> nat)
    requires ByAge(c, age) && Symmetric(c.links)
    ensures LinksExact(c)
  {
    forall id | id in c.peers ensures c.peers[id].linked == Authorised(c.links, c.peers, id) {
      forall other | other in c.peers && other != id
        ensures other in c.peers[id].linked <==> Linked(c.links, c.peers[id].name, c.peers[other].name)
      {
        assert AllowsByAge(c, age, id, other);
      }
    }
  }

  // Whole runs

  datatype Event =
    | Registration(session: SessionId, name: string, allowedIps: seq<IpNet>)
    | Removal(session: SessionId)
    | NewLinks(links: Edges)
    | Frame(from: SessionId, frame: seq<u8>)

  function Step(c: Core, e: Event): Core {
    match e
    case Registration(session, name, allowedIps) => Register(c, session, name, allowedIps)
    case Removal(session) => Unregister(c, session)
    case NewLinks(links) => ReplaceLinks(c, links)
    case Frame(from, frame) => RouteFrame(c, from, frame).0
  }

  function Run(c: Core, events: seq<Event>): Core
    decreases |events|
  {
    if events == [] then c else Run(Step(c, events[0]), events[1..])
  }

  lemma StepKeepsValid(c: Core, e: Event)
    requires Valid(c)
    ensures Valid(Step(c, e))
  {
    match e
    case Registration(session, name, allowedIps) => RegisterKeepsValid(c, session, name, allowedIps);
    case Removal(session) => UnregisterKeepsValid(c, session);
    case NewLinks(links) => ReplaceLinksExact(c, links);
    case Frame(from, frame) => RouteFrameKeepsValid(c, from, frame);
  }

  lemma {:induction false} RunKeepsValid(c: Core, events: seq<Event>)
    requires Valid(c)
    ensures Valid(Run(c, events))
    decreases |events|
  {
    if events != [] {
      StepKeepsValid(c, events[0]);
      RunKeepsValid(Step(c, events[0]), events[1..]);
    }
  }

  lemma {:induction false} RunSnoc(c: Core, events: seq<Event>, e: Event)
    ensures Run(c, events + [e]) == Step(Run(c, events), e)
    decreases |events|
  {
    if events == [] {
      assert [e][1..] == [] && Run(Step(c, e), []) == Step(c, e);
    } else {
      assert (events + [e])[1..] == events[1..] + [e];
      RunSnoc(Step(c, events[0]), events[1..], e);
    }
  }

  /** When a peer was registered, counted in steps; nought if that was before the links were last replaced. */
  function Age(events: seq<Event>, id: SessionId): (n: nat)
    ensures n <= |events|
  {
    if events == [] then 0
    else
      var e := events[|events| - 1];
      if e.NewLinks? then 0
      else if e.Registration? && e.session == id then |events|
      else Age(events[..|events| - 1], id)
  }

  lemma StepByAge(c: Core, events: seq<Event>, e: Event)
    requires ByAge(c, id => Age(events, id))
    ensures ByAge(Step(c, e), id => Age(events + [e], id))
  {
    var age, age' := (id: SessionId) => Age(events, id), (id: SessionId) => Age(events + [e], id);
    assert (events + [e])[..|events|] == events;
    match e
    case Registration(session, name, allowedIps) => RegisterByAge(c, session, name, allowedIps, age, age');
    case Removal(session) =>
      UnregisterByAge(c, session, age);
      SameByAge(Unregister(c, session), age, age');
    case NewLinks(links) =>
      ReplaceLinksExact(c, links);
      ExactByAge(ReplaceLinks(c, links), age');
    case Frame(from, frame) =>
      RouteFrameByAge(c, from, frame, age);
      SameByAge(RouteFrame(c, from, frame).0, age, age');
  }

  /**
   In every run, for any edges: of two peers one of which registered after the links were
   last replaced, each receives from the other if and only if there is an edge from the
   later registered one to the earlier; between peers already there, receivers follow the
   direction of the edges.
   */
  lemma {:induction false} RunByAge(c: Core, events: seq<Event>)
    requires LinksExact(c)
    ensures ByAge(Run(c, events), id => Age(events, id))
    decreases |events|
  {
    if events == [] {
      ExactByAge(c, id => Age(events, id));
    } else {
      var before, e := events[..|events| - 1], events[|events| - 1];
      assert before + [e] == events;
      RunByAge(c, before);
      RunSnoc(c, before, e);
      StepByAge(Run(c, before), before, e);
    }
  }

  /** Where the links in force are symmetric, every peer's receivers are exact, whatever the links were before. */
  lemma RunExact(c: Core, events: seq<Event>)
    requires LinksExact(c) && Symmetric(Run(c, events).links)
    ensures LinksExact(Run(c, events))
  {
    RunByAge(c, events);
    SymmetricExact(Run(c, events), id => Age(events, id));
  }

  // MAC ownership

  predicate Releases(e: Event, owner: SessionId) {
    (e.Registration? || e.Removal?) && e.session == owner
  }

  lemma StepKeepsOwner(c: Core, e: Event, mac: Mac)
    requires Valid(c) && mac in c.macs && !Releases(e, c.macs[mac])
    ensures var c' := Step(c, e); mac in c'.macs && c'.macs[mac] == c.macs[mac]
  {}

  /** A learned MAC keeps its owner through every run that does not unregister or re-register that owner. */
  lemma {:induction false} OwnerStays(c: Core, events: seq<Event>, mac: Mac)
    requires Valid(c) && mac in c.macs
    requires forall e | e in events :: !Releases(e, c.macs[mac])
    ensures mac in Run(c, events).macs && Run(c, events).macs[mac] == c.macs[mac]
    decreases |events|
  {
    if events != [] {
      assert events[0] in events;
      StepKeepsOwner(c, events[0], mac);
      StepKeepsValid(c, events[0]);
      OwnerStays(Step(c, events[0]), events[1..], mac);
    }
  }

  // Soundness of forwarding

  /** Both are registered, and the edge between them lets the first send to the second. */
  predicate MayReach(c: Core, age: SessionId -> nat, from: SessionId, to: SessionId) {
    from in c.peers && to in c.peers && to != from && EdgeAllows(c, age, from, to)
  }

  function OwnedPrefixes(peers: Peers): Owned {
    map id | id in peers :: peers[id].allowedIps
  }

  lemma OwnerRegistered(peers: Peers, ip: IpAddr, owner: SessionId)
    requires IsOwner(OwnedPrefixes(peers), ip, Some(owner))
    ensures owner in peers && exists net | net in peers[owner].allowedIps :: Contains(net, ip)
  {
    var best :| Preferred(OwnedPrefixes(peers), ip, owner, best);
    assert Matches(OwnedPrefixes(peers), ip, owner, best);
  }

  /**
   An IP packet is forwarded to a peer exactly when its source is one of the sender's
   prefixes and that peer is the longest-prefix owner of its destination, linked to the
   sender and not the sender itself.
   */
  lemma RouteIpSound(c: Core, table: seq<Row>, from: SessionId, packet: seq<u8>, to: SessionId)
    requires Valid(c) && TableOf(table, OwnedPrefixes(c.peers))
    ensures RouteIp(c, table, from, packet) == Forward(false, {to})
            <==> && from in c.peers && Source(packet).Some? && Destination(packet).Some?
                 && SourceAllowed(c.peers[from], Source(packet).value)
                 && IsOwner(OwnedPrefixes(c.peers), Destination(packet).value, Some(to))
                 && to in c.peers[from].linked
  {
    if Destination(packet).Some? {
      var ip := Destination(packet).value;
      FirstMatchIsOwner(table, OwnedPrefixes(c.peers), ip);
      if IsOwner(OwnedPrefixes(c.peers), ip, Some(to)) {
        OwnerUnique(OwnedPrefixes(c.peers), ip, Some(to), FirstMatch(table, ip));
      }
    }
  }

  /** Every packet handed to peers goes to registered peers, other than the sender, that the edges let it reach. */
  lemma ForwardsAuthorised(c: Core, table: seq<Row>, from: SessionId, packet: seq<u8>, age: SessionId -> nat)
    requires ByAge(c, age)
    ensures var v := RouteIp(c, table, from, packet);
            v.Forward? ==> Source(packet).Some? && from in c.peers && SourceAllowed(c.peers[from], Source(packet).value)
                           && forall to | to in v.peers :: MayReach(c, age, from, to)
  {
    forall to | from in c.peers && to in c.peers[from].linked ensures MayReach(c, age, from, to) {
      assert AllowsByAge(c, age, from, to);
    }
  }

  lemma DeliverFrameAuthorised(c: Core, from: SessionId, target: Mac, age: SessionId -> nat)
    requires ByAge(c, age) && from in c.peers
    ensures var v := DeliverFrame(c, from, target);
            v.Forward? ==> forall to | to in v.peers :: MayReach(c, age, from, to)
  {
    forall to | to in c.peers[from].linked ensures MayReach(c, age, from, to) {
      assert AllowsByAge(c, age, from, to);
    }
  }

  lemma LearnReachesSame(c: Core, from: SessionId, mac: Mac, to: SessionId, age: SessionId -> nat)
    requires from in c.peers && Learn(c, from, mac).Ok?
    ensures MayReach(Learn(c, from, mac).value, age, from, to) == MayReach(c, age, from, to)
  {}

  /** A forwarded frame comes from an allowed source whose MAC is now the sender's, and goes where the edges allow. */
  lemma FrameForwardsAuthorised(c: Core, from: SessionId, frame: seq<u8>, age: SessionId -> nat)
    requires ByAge(c, age)
    ensures var (c', v) := RouteFrame(c, from, frame);
            v.Forward? ==> && from in c.peers && PayloadIp(frame, false).Some?
                           && SourceAllowed(c.peers[from], PayloadIp(frame, false).value)
                           && SourceMac(frame).value in c'.macs && c'.macs[SourceMac(frame).value] == from
                           && forall to | to in v.peers :: MayReach(c, age, from, to)
  {
    var (c', v) := RouteFrame(c, from, frame);
    if v.Forward? {
      RouteFrameByAge(c, from, frame, age);
      DeliverFrameAuthorised(c', from, DestinationMac(frame).value, age);
      forall to | to in v.peers ensures MayReach(c, age, from, to) {
        LearnReachesSame(c, from, SourceMac(frame).value, to, age);
      }
    }
  }

  /** Where a frame from the local interface goes: everyone, the owner of its MAC, or the owner of its inner address. */
  function RouteFromLocalFrame(c: Core, table: seq<Row>, frame: seq<u8>): set<SessionId> {
    if DestinationMac(frame).None? then {}
    else
      var target := DestinationMac(frame).value;
      if IsGroupMac(target) then c.peers.Keys
      else if target in c.macs then {c.macs[target]}
      else if PayloadIp(frame, true).None? then c.peers.Keys
      else
        var owner := FirstMatch(table, PayloadIp(frame, true).value);
        if owner.Some? then {owner.value} else c.peers.Keys
  }

  /** Local frames reach only registered peers, and one for a learned MAC reaches just the peer that learned it. */
  lemma LocalFrameSound(c: Core, table: seq<Row>, frame: seq<u8>)
    requires Valid(c) && TableOf(table, OwnedPrefixes(c.peers))
    ensures RouteFromLocalFrame(c, table, frame) <= c.peers.Keys
    ensures forall id | id in c.peers && DestinationMac(frame).Some? && DestinationMac(frame).value in c.peers[id].macs
                     && !IsGroupMac(DestinationMac(frame).value) :: RouteFromLocalFrame(c, table, frame) == {id}
  {
    if PayloadIp(frame, true).Some? {
      var ip := PayloadIp(frame, true).value;
      FirstMatchIsOwner(table, OwnedPrefixes(c.peers), ip);
      if FirstMatch(table, ip).Some? {
        OwnerRegistered(c.peers, ip, FirstMatch(table, ip).value);
      }
    }
  }
}
