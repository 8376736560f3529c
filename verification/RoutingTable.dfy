/**
 The prefix table: rows sorted by longest prefix, then smallest session id, and
 searched for the first match.
 */
module RoutingTable {
  import opened Basics
  import opened Net

  datatype IpNet = IpNet(network: IpAddr, prefixLen: nat)

  /** The prefixes of every session. */
  type Owned = map<SessionId, seq<IpNet>>

  type Row = (IpNet, SessionId)

  function Bit(octets: seq<u8>, i: nat): nat
    requires i < 8 * |octets|
  {
    octets[i / 8] as nat / [128, 64, 32, 16, 8, 4, 2, 1][i % 8] % 2
  }

  /** Same family, and the same leading bits as the network. */
  predicate Contains(net: IpNet, ip: IpAddr) {
    && net.network.V4? == ip.V4?
    && |net.network.octets| == |ip.octets|
    && net.prefixLen <= 8 * |ip.octets|
    && forall i: nat | i < net.prefixLen :: Bit(net.network.octets, i) == Bit(ip.octets, i)
  }

  // The declarative answer

  /** `a` is preferred to `b`: the longer prefix, or the smaller session id at the same length. */
  predicate Precedes(a: Row, b: Row) {
    a.0.prefixLen > b.0.prefixLen || (a.0.prefixLen == b.0.prefixLen && a.1 <= b.1)
  }

  predicate Matches(owned: Owned, ip: IpAddr, id: SessionId, net: IpNet) {
    id in owned && net in owned[id] && Contains(net, ip)
  }

  ghost predicate Preferred(owned: Owned, ip: IpAddr, id: SessionId, best: IpNet) {
    && Matches(owned, ip, id, best)
    && forall other, net | Matches(owned, ip, other, net) :: Precedes((best, id), (net, other))
  }

  /** Who should receive `ip`: the session with the longest containing prefix, the smallest id on ties. */
  ghost predicate IsOwner(owned: Owned, ip: IpAddr, owner: Option<SessionId>) {
    if owner.None? then forall id, net :: !Matches(owned, ip, id, net)
    else exists best :: Preferred(owned, ip, owner.value, best)
  }

  lemma OwnerUnique(owned: Owned, ip: IpAddr, a: Option<SessionId>, b: Option<SessionId>)
    requires IsOwner(owned, ip, a) && IsOwner(owned, ip, b)
    ensures a == b
  {
    if a.Some? {
      var x :| Preferred(owned, ip, a.value, x);
      assert Matches(owned, ip, a.value, x);
    }
    if b.Some? {
      var y :| Preferred(owned, ip, b.value, y);
      assert Matches(owned, ip, b.value, y);
    }
  }

  // The table

  predicate Sorted(table: seq<Row>) {
    forall i, j | 0 <= i < j < |table| :: Precedes(table[i], table[j])
  }

  predicate HasRows(table: seq<Row>, owned: Owned) {
    && (forall row | row in table :: row.1 in owned && row.0 in owned[row.1])
    && (forall id | id in owned :: forall net | net in owned[id] :: (net, id) in table)
  }

  predicate TableOf(table: seq<Row>, owned: Owned) {
    Sorted(table) && HasRows(table, owned)
  }

  function FirstMatch(table: seq<Row>, ip: IpAddr): Option<SessionId> {
    if table == [] then None
    else if Contains(table[0].0, ip) then Some(table[0].1)
    else FirstMatch(table[1..], ip)
  }

  lemma {:induction false} FirstMatchAt(table: seq<Row>, ip: IpAddr) returns (at: nat)
    ensures at <= |table| && (forall i | 0 <= i < at :: !Contains(table[i].0, ip))
    ensures at < |table| ==> Contains(table[at].0, ip) && FirstMatch(table, ip) == Some(table[at].1)
    ensures at == |table| ==> FirstMatch(table, ip) == None
  {
    if table == [] || Contains(table[0].0, ip) {
      at := 0;
    } else {
      var rest := FirstMatchAt(table[1..], ip);
      at := rest + 1;
    }
  }

  /**
   Refinement: in any sorted table with the right rows, in whatever order they were
   collected, the first match is the longest containing prefix, smallest id on ties.
   */
  lemma FirstMatchIsOwner(table: seq<Row>, owned: Owned, ip: IpAddr)
    requires TableOf(table, owned)
    ensures IsOwner(owned, ip, FirstMatch(table, ip))
  {
    var at := FirstMatchAt(table, ip);
    forall id: SessionId, net: IpNet | Matches(owned, ip, id, net)
      ensures at < |table| && Precedes(table[at], (net, id))
    {
      assert (net, id) in table;
      var i :| 0 <= i < |table| && table[i] == (net, id);
    }
    if at < |table| {
      assert table[at] in table;
      assert Preferred(owned, ip, table[at].1, table[at].0);
    }
  }

  /** Two tables of the same prefixes answer alike, however they were collected. */
  lemma OrderIrrelevant(a: seq<Row>, b: seq<Row>, owned: Owned, ip: IpAddr)
    requires TableOf(a, owned) && TableOf(b, owned)
    ensures FirstMatch(a, ip) == FirstMatch(b, ip)
  {
    FirstMatchIsOwner(a, owned, ip);
    FirstMatchIsOwner(b, owned, ip);
    OwnerUnique(owned, ip, FirstMatch(a, ip), FirstMatch(b, ip));
  }

  // Building and searching it

  /** All rows, in the arbitrary order a hash map gives its keys. */
  method CollectRows(owned: Owned) returns (rows: seq<Row>)
    ensures HasRows(rows, owned)
  {
    rows := [];
    var left := owned.Keys;
    while left != {}
      invariant left <= owned.Keys
      invariant forall row | row in rows :: row.1 in owned && row.0 in owned[row.1]
      invariant forall id | id in owned && id !in left :: forall net | net in owned[id] :: (net, id) in rows
      decreases |left|
    {
      var id :| id in left;
      var nets := owned[id];
      var added := seq(|nets|, i requires 0 <= i < |nets| => (nets[i], id));
      assert forall net | net in nets :: (net, id) in added by {
        forall net | net in nets ensures (net, id) in added {
          var i :| 0 <= i < |nets| && nets[i] == net;
          assert added[i] == (net, id);
        }
      }
      rows := rows + added;
      left := left - {id};
    }
  }

  /** Where a stable sort puts `row` in a sorted prefix: after every row it does not strictly precede. */
  method Place(sorted: seq<Row>, row: Row) returns (at: nat)
    requires Sorted(sorted)
    ensures at <= |sorted|
    ensures Sorted(sorted[..at] + [row] + sorted[at..])
  {
    at := |sorted|;
    while at > 0 && !Precedes(sorted[at - 1], row)
      invariant at <= |sorted|
      invariant forall i | at <= i < |sorted| :: Precedes(row, sorted[i])
    {
      at := at - 1;
    }
  }

  method SortRows(rows: seq<Row>) returns (table: seq<Row>)
    ensures Sorted(table) && multiset(table) == multiset(rows)
  {
    table := [];
    for i := 0 to |rows|
      invariant Sorted(table) && multiset(table) == multiset(rows[..i])
    {
      var at := Place(table, rows[i]);
      assert table == table[..at] + table[at..];
      assert rows[..i + 1] == rows[..i] + [rows[i]];
      table := table[..at] + [rows[i]] + table[at..];
    }
    assert rows[..|rows|] == rows;
  }

  method BuildTable(owned: Owned) returns (table: seq<Row>)
    ensures TableOf(table, owned)
  {
    var rows := CollectRows(owned);
    table := SortRows(rows);
    assert forall row :: row in table <==> row in multiset(table);
    assert forall row :: row in rows <==> row in multiset(rows);
  }

  method FindOwner(table: seq<Row>, ip: IpAddr) returns (owner: Option<SessionId>)
    ensures owner == FirstMatch(table, ip)
  {
    for i := 0 to |table|
      invariant FirstMatch(table, ip) == FirstMatch(table[i..], ip)
    {
      if Contains(table[i].0, ip) {
        return Some(table[i].1);
      }
      assert table[i..][1..] == table[i + 1..];
    }
    return None;
  }
}
