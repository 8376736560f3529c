/** Pending handshakes with a count per source address, kept together through every update. */
module Pending {
  import opened Basics
  import opened Net
  import opened Peers

  type Entries = map<SessionId, PendingHandshake>

  /** The entries that came from one source. */
  function From(entries: Entries, source: SocketAddr): set<SessionId> {
    set id | id in entries && entries[id].endpoint == source
  }

  function CountFor(entries: Entries, source: SocketAddr): nat {
    |From(entries, source)|
  }

  /** Every stored count is the true number of live entries and none is zero. */
  predicate Accurate(entries: Entries, perSource: map<SocketAddr, nat>) {
    && (forall source | source in perSource :: perSource[source] == CountFor(entries, source) > 0)
    && (forall id | id in entries :: entries[id].endpoint in perSource)
  }

  function Decremented(perSource: map<SocketAddr, nat>, source: SocketAddr): map<SocketAddr, nat> {
    if source !in perSource then perSource
    else if perSource[source] <= 1 then perSource - {source}
    else perSource[source := perSource[source] - 1]
  }

  lemma StoredIsCount(entries: Entries, perSource: map<SocketAddr, nat>, source: SocketAddr)
    requires Accurate(entries, perSource)
    ensures (if source in perSource then perSource[source] else 0) == CountFor(entries, source)
  {
    if source !in perSource {
      assert From(entries, source) == {};
    }
  }

  lemma CountWithout(entries: Entries, id: SessionId, source: SocketAddr)
    requires id in entries
    ensures CountFor(entries - {id}, source)
            == CountFor(entries, source) - if entries[id].endpoint == source then 1 else 0
  {
    assert From(entries - {id}, source) == From(entries, source) - {id};
  }

  lemma CountWith(entries: Entries, id: SessionId, e: PendingHandshake, source: SocketAddr)
    requires id !in entries
    ensures CountFor(entries[id := e], source) == CountFor(entries, source) + if e.endpoint == source then 1 else 0
  {
    assert From(entries[id := e], source) == From(entries, source) + if e.endpoint == source then {id} else {};
  }

  lemma RemovalAccurate(entries: Entries, perSource: map<SocketAddr, nat>, id: SessionId)
    requires Accurate(entries, perSource) && id in entries
    ensures Accurate(entries - {id}, Decremented(perSource, entries[id].endpoint))
  {
    forall source
      ensures CountFor(entries - {id}, source)
              == CountFor(entries, source) - if entries[id].endpoint == source then 1 else 0
    {
      CountWithout(entries, id, source);
    }
    forall other | other in entries - {id} && entries[other].endpoint == entries[id].endpoint
      ensures CountFor(entries, entries[id].endpoint) > 1
    {
      assert other in From(entries - {id}, entries[id].endpoint);
    }
  }

  lemma AdditionAccurate(entries: Entries, perSource: map<SocketAddr, nat>, id: SessionId, e: PendingHandshake)
    requires Accurate(entries, perSource) && id !in entries
    ensures Accurate(entries[id := e], perSource[e.endpoint := CountFor(entries, e.endpoint) + 1])
  {
    forall source
      ensures CountFor(entries[id := e], source) == CountFor(entries, source) + if e.endpoint == source then 1 else 0
    {
      CountWith(entries, id, e, source);
    }
  }

  function Kept(entries: Entries, keep: PendingHandshake -> bool): Entries {
    map id | id in entries && keep(entries[id]) :: entries[id]
  }

  function Refused(entries: Entries, keep: PendingHandshake -> bool): set<SessionId> {
    set id | id in entries && !keep(entries[id])
  }

  lemma KeptIsRest(entries: Entries, keep: PendingHandshake -> bool, none: set<SessionId>)
    requires none == {}
    ensures entries - (Refused(entries, keep) - none) == Kept(entries, keep)
  {}

  /** Every entry counted as sent once more. */
  function Resent(entries: Entries): Entries
    requires forall id | id in entries :: entries[id].attempts < U32_MAX
  {
    map id | id in entries :: entries[id].(attempts := entries[id].attempts + 1)
  }

  lemma SameEndpointsAccurate(a: Entries, b: Entries, perSource: map<SocketAddr, nat>)
    requires Accurate(a, perSource) && a.Keys == b.Keys && forall id | id in a :: a[id].endpoint == b[id].endpoint
    ensures Accurate(b, perSource)
  {
    forall source | source in perSource ensures CountFor(b, source) == CountFor(a, source) {
      assert From(b, source) == From(a, source);
    }
  }

  lemma VisitOne<K, V>(all: map<K, V>, refused: set<K>, left: set<K>, id: K)
    requires id in left
    ensures all - (refused - (left - {id}))
            == if id in refused then all - (refused - left) - {id} else all - (refused - left)
  {}

  method Resend(entries: Entries) returns (all: Entries)
    requires forall id | id in entries :: entries[id].attempts < U32_MAX
    ensures all == Resent(entries)
  {
    all := entries;
    ghost var sent := Resent(entries);
    var left := entries.Keys;
    while left != {}
      invariant left <= all.Keys == entries.Keys
      invariant forall id | id in entries :: all[id] == if id in left then entries[id] else sent[id]
      decreases |left|
    {
      var id :| id in left;
      all := all[id := all[id].(attempts := all[id].attempts + 1)];
      left := left - {id};
    }
  }

  class PendingHandshakes {
    var entries: Entries
    var perSource: map<SocketAddr, nat>

    ghost predicate Valid()
      reads this
    {
      Accurate(entries, perSource)
    }

    constructor ()
      ensures Valid() && entries == map[]
    {
      entries, perSource := map[], map[];
    }

    method Clear()
      modifies this
      ensures Valid() && entries == map[]
    {
      entries, perSource := map[], map[];
    }

    method Count(source: SocketAddr) returns (n: nat)
      requires Valid()
      ensures n == CountFor(entries, source)
    {
      StoredIsCount(entries, perSource, source);
      n := if source in perSource then perSource[source] else 0;
    }

    /** Takes one off a source's count and drops the count when it reaches zero. */
    method Decrement(source: SocketAddr)
      modifies this`perSource
      ensures perSource == Decremented(old(perSource), source)
    {
      if source in perSource {
        var count := if perSource[source] == 0 then 0 else perSource[source] - 1;
        perSource := if count == 0 then perSource - {source} else perSource[source := count];
      }
    }

    method Remove(id: SessionId) returns (removed: Option<PendingHandshake>)
      requires Valid()
      modifies this
      ensures Valid() && entries == old(entries) - {id}
      ensures removed == if id in old(entries) then Some(old(entries)[id]) else None
    {
      if id !in entries {
        assert entries - {id} == entries;
        return None;
      }
      RemovalAccurate(entries, perSource, id);
      removed := Some(entries[id]);
      entries := entries - {id};
      Decrement(removed.value.endpoint);
    }

    /** Inserting over an entry from another source moves the count. */
    method Insert(id: SessionId, e: PendingHandshake)
      requires Valid()
      modifies this
      ensures Valid() && entries == old(entries)[id := e]
    {
      ghost var rest := entries - {id};
      if id in entries {
        RemovalAccurate(entries, perSource, id);
        Decrement(entries[id].endpoint);
      } else {
        assert rest == entries;
      }
      AdditionAccurate(rest, perSource, id, e);
      StoredIsCount(rest, perSource, e.endpoint);
      assert entries[id := e] == rest[id := e];
      entries := entries[id := e];
      perSource := perSource[e.endpoint := (if e.endpoint in perSource then perSource[e.endpoint] else 0) + 1];
    }

    method Retain(keep: PendingHandshake -> bool)
      requires Valid()
      modifies this
      ensures Valid() && entries == Kept(old(entries), keep)
    {
      ghost var was := entries;
      ghost var refused := Refused(was, keep);
      var left := entries.Keys;
      while left != {}
        invariant Valid() && left <= was.Keys
        invariant entries == was - (refused - left)
        decreases |left|
      {
        var id :| id in left;
        VisitOne(was, refused, left, id);
        if !keep(entries[id]) {
          var _ := Remove(id);
        }
        left := left - {id};
      }
      KeptIsRest(was, keep, left);
    }

    /** The retransmission pass: each entry is sent and its attempt counted. */
    method ResendAll()
      requires Valid() && forall id | id in entries :: entries[id].attempts < U32_MAX
      modifies this
      ensures Valid() && entries == Resent(old(entries))
    {
      var all := Resend(entries);
      SameEndpointsAccurate(entries, all, perSource);
      entries := all;
    }
  }
}
