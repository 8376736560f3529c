/**
 The router as the server holds it: peers, links, learned MACs and the prefix table,
 updated in place. Loops over a hash map take its keys in arbitrary order.
 */
module Router {
  import opened Basics
  import opened Net
  import opened IpPacket
  import opened RoutingTable
  import Model = RouterModel
  import opened RouterModel

  /** Takes the session's own entries out of the MAC table. */
  method ForgetMacs(macs: map<Mac, SessionId>, learned: set<Mac>, session: SessionId)
    returns (rest: map<Mac, SessionId>)
    ensures rest == MacsWithout(macs, learned, session)
  {
    rest := macs;
    var left := learned;
    while left != {}
      invariant left <= learned
      invariant rest == MacsWithout(macs, learned - left, session)
      decreases |left|
    {
      var mac :| mac in left;
      if mac in rest && rest[mac] == session {
        rest := rest - {mac};
      }
      left := left - {mac};
    }
    assert learned - left == learned;
  }

  /** Takes the session out of the map and out of every other peer's receivers. */
  method ForgetPeer(peers: Peers, session: SessionId) returns (rest: Peers)
    ensures rest == PeersWithout(peers, session)
  {
    ghost var done := PeersWithout(peers, session);
    rest := peers - {session};
    var left := rest.Keys;
    while left != {}
      invariant left <= rest.Keys == done.Keys == peers.Keys - {session}
      invariant forall id | id in rest :: rest[id] == if id in left then peers[id] else done[id]
      decreases |left|
    {
      var id :| id in left;
      rest := rest[id := rest[id].(linked := rest[id].linked - {session})];
      left := left - {id};
    }
  }

  /** Links the newcomer with every peer its name has an edge to, both ways. */
  method Introduce(links: Edges, peers: Peers, session: SessionId, name: string)
    returns (all: Peers, linked: set<SessionId>)
    ensures all == Acquainted(links, peers, session, name) && linked == Acquaintances(links, peers, name)
  {
    ghost var done, friends := Acquainted(links, peers, session, name), Acquaintances(links, peers, name);
    all, linked := peers, {};
    var left := peers.Keys;
    while left != {}
      invariant left <= all.Keys == peers.Keys
      invariant linked == friends - left
      invariant forall id | id in peers :: all[id] == if id in left then peers[id] else done[id]
      decreases |left|
    {
      var id :| id in left;
      if Linked(links, name, all[id].name) {
        all := all[id := all[id].(linked := all[id].linked + {session})];
        linked := linked + {id};
      }
      left := left - {id};
    }
  }

  method RelinkAll(links: Edges, peers: Peers) returns (all: Peers)
    ensures all == Relinked(links, peers)
  {
    all := peers;
    var left := peers.Keys;
    while left != {}
      invariant left <= all.Keys == peers.Keys
      invariant forall id | id in peers ::
          all[id] == if id in left then peers[id] else peers[id].(linked := Authorised(links, peers, id))
      decreases |left|
    {
      var id :| id in left;
      all := all[id := all[id].(linked := set other | other in peers && other != id
                                && Linked(links, all[id].name, peers[other].name))];
      left := left - {id};
    }
  }

  class Router {
    var links: Edges
    var peers: Peers
    var table: seq<Row>
    var macs: map<Mac, SessionId>

    ghost function Contents(): Core
      reads this
    {
      Core(links, peers, macs)
    }

    /** The invariants of every reachable router, with a table for exactly its peers' prefixes. */
    ghost predicate Valid()
      reads this
    {
      Model.Valid(Contents()) && TableOf(table, OwnedPrefixes(peers))
    }

    constructor (links: Edges)
      ensures Valid() && Contents() == Init(links)
    {
      this.links, peers, table, macs := links, map[], [], map[];
    }

    method ReplaceLinks(links: Edges)
      requires Valid()
      modifies this
      ensures Valid() && Contents() == Step(old(Contents()), NewLinks(links))
    {
      StepKeepsValid(Contents(), NewLinks(links));
      assert OwnedPrefixes(Relinked(links, peers)) == OwnedPrefixes(peers);
      var all := RelinkAll(links, peers);
      this.links, peers := links, all;
    }

    method Unregister(session: SessionId)
      requires Valid()
      modifies this
      ensures Valid() && Contents() == Step(old(Contents()), Removal(session))
    {
      StepKeepsValid(Contents(), Removal(session));
      if session !in peers {
        return;
      }
      var known := ForgetMacs(macs, peers[session].macs, session);
      var others := ForgetPeer(peers, session);
      var rows := BuildTable(OwnedPrefixes(others));
      macs, peers, table := known, others, rows;
    }

    method Register(session: SessionId, name: string, allowedIps: seq<IpNet>)
      requires Valid()
      modifies this
      ensures Valid() && Contents() == Step(old(Contents()), Registration(session, name, allowedIps))
    {
      StepKeepsValid(Contents(), Registration(session, name, allowedIps));
      Unregister(session);
      var others, linked := Introduce(links, peers, session, name);
      var all := others[session := PeerEntry(name, allowedIps, linked, {})];
      var rows := BuildTable(OwnedPrefixes(all));
      peers, table := all, rows;
    }

    /** Delivers to the first match of the destination in the table held, under the sender's links. */
    method RouteIp(from: SessionId, packet: seq<u8>) returns (v: Verdict)
      requires Valid()
      ensures v == Model.RouteIp(Contents(), table, from, packet)
    {
      if from !in peers {
        return Drop(UnknownSession);
      }
      if Source(packet).None? || Destination(packet).None? {
        return Drop(Malformed);
      }
      if !SourceAllowed(peers[from], Source(packet).value) {
        return Drop(SourceNotAllowed);
      }
      var owner := FindOwner(table, Destination(packet).value);
      v := Deliver(peers[from], from, owner);
    }

    method RouteFromLocalIp(packet: seq<u8>) returns (owner: Option<SessionId>)
      requires Valid()
      ensures owner.Some? ==> Destination(packet).Some?
      ensures Destination(packet).Some? ==> IsOwner(OwnedPrefixes(peers), Destination(packet).value, owner)
    {
      if Destination(packet).None? {
        return None;
      }
      FirstMatchIsOwner(table, OwnedPrefixes(peers), Destination(packet).value);
      owner := FindOwner(table, Destination(packet).value);
    }

    /** Learns the sender's MAC address, unless it is another peer's or the sender has too many. */
    method LearnMac(from: SessionId, mac: Mac) returns (refusal: Option<DropReason>)
      requires Valid() && from in peers
      modifies this
      ensures Valid()
      ensures var learned := Learn(old(Contents()), from, mac);
              if learned.Ok? then refusal.None? && Contents() == learned.value
              else refusal == Some(learned.error) && Contents() == old(Contents())
    {
      LearnKeepsValid(Contents(), from, mac);
      if mac in macs {
        return if macs[mac] != from then Some(MacConflict) else None;
      }
      var peer := peers[from];
      if |peer.macs| >= MAX_MACS_PER_PEER {
        return Some(TooManyMacs);
      }
      assert OwnedPrefixes(peers[from := peer.(macs := peer.macs + {mac})]) == OwnedPrefixes(peers);
      peers, macs := peers[from := peer.(macs := peer.macs + {mac})], macs[mac := from];
      return None;
    }

    method RouteFrame(from: SessionId, frame: seq<u8>) returns (v: Verdict)
      requires Valid()
      modifies this
      ensures Valid() && (Contents(), v) == Model.RouteFrame(old(Contents()), from, frame)
    {
      var fault := FrameFault(Core(links, peers, macs), from, frame);
      if fault.Some? {
        return Drop(fault.value);
      }
      var refusal := LearnMac(from, SourceMac(frame).value);
      if refusal.Some? {
        return Drop(refusal.value);
      }
      v := DeliverFrame(Core(links, peers, macs), from, DestinationMac(frame).value);
    }
  }
}
