/**
 The client's route table (client/src/route.rs), how it is filled from the member listing
 (client/src/client.rs, `list_members` in crates/server/src/server.rs), and its agreement with the
 server's ring.
 */
module RouteTables {
  import opened Wrappers
  import opened Ordering
  import opened Nodes
  import opened Members
  import opened MergeLaws
  import opened Rings
  import opened RingLaws
  import opened Proxy

  type Table = map<U32, map<Uuid, Url>>

  /** One row of the `/members` response. */
  datatype Listing = Listing(
    nodeId: Uuid, clusterId: string, dataUrl: Url, ctrlUrl: Url,
    incarnation: nat, status: Status, heartbeat: int, vnodes: seq<U32>)

  function ListingOf(h: Hasher, vnodes: nat, m: MemberState): Listing {
    Listing(m.info.nodeId, m.info.clusterId, m.info.dataUrl, m.info.ctrlUrl,
            m.info.incarnation, m.status, m.heartbeat, ListVnodes(h, vnodes, m.info.nodeId))
  }

  function Rows(h: Hasher, vnodes: nat, values: seq<MemberState>): seq<Listing> {
    seq(|values|, i requires 0 <= i < |values| => ListingOf(h, vnodes, values[i]))
  }

  /** `list_members`: every member, dead ones included, in id order. */
  function ListMembers(h: Hasher, vnodes: nat, members: MemberMap): seq<Listing> {
    Rows(h, vnodes, Values(members))
  }

  /* Lookup */

  function PositionsFrom(table: Table, digest: U32): set<U32> {
    set x | x in table && x >= digest
  }

  function FirstRoute(table: Table, positions: set<U32>): Option<(Uuid, Url)>
    requires positions <= table.Keys
  {
    if positions == {} then None else
      var routes := table[MinOf(positions)];
      if routes.Keys == {} then None else
        var n := MinOf(routes.Keys);
        Some((n, routes[n]))
  }

  function TableLookup(table: Table, digest: U32): Option<(Uuid, Url)> {
    match FirstRoute(table, PositionsFrom(table, digest))
    case Some(route) => Some(route)
    case None => FirstRoute(table, table.Keys)
  }

  /* Construction */

  function Inserted(table: Table, hash: U32, node: Uuid, url: Url): Table {
    var slot: map<Uuid, Url> := if hash in table then table[hash] else map[];
    table[hash := slot[node := url]]
  }

  function InsertedAll(table: Table, hashes: seq<U32>, node: Uuid, url: Url): Table {
    if hashes == [] then table
    else Inserted(InsertedAll(table, hashes[..|hashes| - 1], node, url), hashes[|hashes| - 1], node, url)
  }

  function TableFrom(listings: seq<Listing>): Table {
    if listings == [] then map[]
    else
      var last := listings[|listings| - 1];
      InsertedAll(TableFrom(listings[..|listings| - 1]), last.vnodes, last.nodeId, last.dataUrl)
  }

  class RouteTable {
    var ring: Table

    constructor ()
      ensures ring == map[]
    {
      ring := map[];
    }

    method Insert(hash: U32, node: Uuid, url: Url)
      modifies this
      ensures ring == Inserted(old(ring), hash, node, url)
    {
      if hash !in ring {
        var slot: map<Uuid, Url> := map[];
        slot := slot[node := url];
        ring := ring[hash := slot];
      } else {
        var slot: map<Uuid, Url> := ring[hash];
        slot := slot[node := url];
        ring := ring[hash := slot];
      }
    }

    /** The two nested loops of the client, one insertion per listed replica. */
    method Fill(listings: seq<Listing>)
      requires ring == map[]
      modifies this
      ensures ring == TableFrom(listings)
    {
      for i := 0 to |listings|
        invariant ring == TableFrom(listings[..i])
      {
        var member := listings[i];
        for j := 0 to |member.vnodes|
          invariant ring == InsertedAll(TableFrom(listings[..i]), member.vnodes[..j], member.nodeId, member.dataUrl)
        {
          Insert(member.vnodes[j], member.nodeId, member.dataUrl);
          assert member.vnodes[..j + 1][..j] == member.vnodes[..j];
        }
        assert member.vnodes[..|member.vnodes|] == member.vnodes;
        assert listings[..i + 1][..i] == listings[..i];
      }
      assert listings[..|listings|] == listings;
    }
  }

  /* Client */

  datatype Response = Listed(members: seq<Listing>) | TooManyRequests | OtherStatus

  datatype Failure = Throttled | Opaque

  /** Times are in nanoseconds. */
  const SECOND: int := 1_000_000_000

  const UPDATE_INTERVAL: int := 10 * SECOND

  /** `route`: the table's answer, or the configured address without a table or an answer. */
  function ClientRoute(table: Option<Table>, dataUrl: Url, digest: U32): Url {
    if table.Some? && TableLookup(table.value, digest).Some? then TableLookup(table.value, digest).value.1
    else dataUrl
  }

  class Client {
    const dataUrl: Url
    var lastUpdated: int
    var routeTable: Option<Table>

    /** A new client is due for its first update at once. */
    constructor (dataUrl: Url, now: int)
      ensures this.dataUrl == dataUrl
      ensures routeTable == None && now - lastUpdated > 10_000_000_000
    {
      this.dataUrl := dataUrl;
      lastUpdated := now - UPDATE_INTERVAL - SECOND;
      routeTable := None;
    }

    /** `response` is what the server answers if asked; `after` is the clock when it has answered. */
    method UpdateRouteTableIfNeeded(now: int, response: Response, after: int) returns (failure: Option<Failure>)
      modifies this
      ensures now - old(lastUpdated) <= 10_000_000_000 ==>
                failure == None && routeTable == old(routeTable) && lastUpdated == old(lastUpdated)
      ensures now - old(lastUpdated) > 10_000_000_000 && response.Listed? ==>
                failure == None && routeTable == Some(TableFrom(response.members)) && lastUpdated == after
      ensures now - old(lastUpdated) > 10_000_000_000 && !response.Listed? ==>
                && failure == Some(if response.TooManyRequests? then Throttled else Opaque)
                && routeTable == old(routeTable) && lastUpdated == old(lastUpdated)
    {
      failure := None;
      if now - lastUpdated > UPDATE_INTERVAL {
        match response {
          case TooManyRequests => return Some(Throttled);
          case OtherStatus => return Some(Opaque);
          case Listed(members) =>
            var table := new RouteTable();
            table.Fill(members);
            routeTable := Some(table.ring);
            lastUpdated := after;
        }
      }
    }

    /** `route`: the table's pick, or the configured address without a table or without a pick. */
    method Route(h: Hasher, key: string) returns (url: Url)
      ensures url == ClientRoute(routeTable, dataUrl, h.key(key))
      ensures routeTable == None ==> url == dataUrl
    {
      if routeTable.Some? {
        var found := TableLookup(routeTable.value, h.key(key));
        if found.Some? {
          return found.value.1;
        }
      }
      url := dataUrl;
    }

    /**
     The beginning of `get`, `put` and `delete`: update if it is time, then route. When the listing of
     a membership is due and arrives, the request goes to the member that owns the key among all
     members, and to the configured address exactly if there are none. A failed update ends the
     request. Before the first listing has arrived, every request goes to the configured address.
     */
    method Locate(h: Hasher, key: string, now: int, response: Response, after: int, ghost members: MemberMap)
      returns (result: Result<Url, Failure>)
      requires Keyed(members)
      modifies this
      ensures
        var due := now - old(lastUpdated) > 10_000_000_000;
        && (due && response == Listed(ListMembers(h, 64, members)) ==>
              && result.Ok?
              && GoesToOwner(h, 64, members, dataUrl, h.key(key), result.value))
        && (due && !response.Listed? ==>
              && result == Err(if response.TooManyRequests? then Throttled else Opaque)
              && routeTable == old(routeTable) && lastUpdated == old(lastUpdated))
        && (!due ==>
              && result.Ok? && routeTable == old(routeTable) && lastUpdated == old(lastUpdated)
              && (old(routeTable) == None ==> result.value == dataUrl))
    {
      var failure := UpdateRouteTableIfNeeded(now, response, after);
      if failure.Some? {
        return Err(failure.value);
      }
      var url := Route(h, key);
      result := Ok(url);
      ClientFollowsListing(h, 64, members, dataUrl, h.key(key));
    }
  }

  /* The listing loses nothing */

  function EntryOf(row: Listing): MemberState {
    MemberState(NodeInfo(row.nodeId, row.clusterId, row.dataUrl, row.ctrlUrl, row.incarnation),
                row.status, row.heartbeat)
  }

  function EntriesOf(rows: seq<Listing>): seq<MemberState> {
    seq(|rows|, i requires 0 <= i < |rows| => EntryOf(rows[i]))
  }

  /** Merging the rows of a listing back into an empty membership gives the membership listed. */
  lemma ListingRoundTrip(h: Hasher, vnodes: nat, members: MemberMap)
    requires Keyed(members)
    ensures UpdateAll(map[], EntriesOf(ListMembers(h, vnodes, members))) == members
  {
    RowsRoundTrip(h, vnodes, Values(members));
    ValuesRebuild(members);
  }

  lemma RowsRoundTrip(h: Hasher, vnodes: nat, values: seq<MemberState>)
    ensures EntriesOf(Rows(h, vnodes, values)) == values
  {
  }

  /* What the table of a listing contains */

  ghost predicate Routes(table: Table, x: U32, n: Uuid) {
    x in table && n in table[x]
  }

  lemma InsertedAllRoutes(table: Table, hashes: seq<U32>, node: Uuid, url: Url, x: U32, n: Uuid)
    ensures Routes(InsertedAll(table, hashes, node, url), x, n) <==>
              Routes(table, x, n) || (n == node && x in hashes)
    ensures Routes(InsertedAll(table, hashes, node, url), x, n) ==>
              InsertedAll(table, hashes, node, url)[x][n]
              == if n == node && x in hashes then url else table[x][n]
    ensures x in InsertedAll(table, hashes, node, url) <==> x in table || x in hashes
  {
  }

  /** Some listed row puts node `n` at position `x`. */
  ghost predicate ListedAt(listings: seq<Listing>, x: U32, n: Uuid) {
    exists i :: 0 <= i < |listings| && listings[i].nodeId == n && x in listings[i].vnodes
  }

  ghost predicate UrlsFrom(listings: seq<Listing>, url: Uuid -> Url) {
    forall i :: 0 <= i < |listings| ==> listings[i].dataUrl == url(listings[i].nodeId)
  }

  lemma {:induction false} TableFromRoutes(listings: seq<Listing>, url: Uuid -> Url, x: U32, n: Uuid)
    requires UrlsFrom(listings, url)
    ensures Routes(TableFrom(listings), x, n) <==> ListedAt(listings, x, n)
    ensures Routes(TableFrom(listings), x, n) ==> TableFrom(listings)[x][n] == url(n)
    ensures x in TableFrom(listings) ==> TableFrom(listings)[x].Keys != {}
  {
    if listings != [] {
      var before := listings[..|listings| - 1];
      var last := listings[|listings| - 1];
      TableFromRoutes(before, url, x, n);
      InsertedAllRoutes(TableFrom(before), last.vnodes, last.nodeId, last.dataUrl, x, n);
      InsertedAllRoutes(TableFrom(before), last.vnodes, last.nodeId, last.dataUrl, x, last.nodeId);
      assert forall i :: 0 <= i < |before| ==> listings[i] == before[i];
      if x in TableFrom(before) {
        var m :| m in TableFrom(before)[x];
        InsertedAllRoutes(TableFrom(before), last.vnodes, last.nodeId, last.dataUrl, x, m);
      }
    }
  }

  /** The address a membership advertises for a node. */
  function UrlIn(members: MemberMap): Uuid -> Url {
    (n: Uuid) => if n in members then members[n].info.dataUrl else ""
  }

  /** Rows for these ids in order, each with the node's address and replicas, list exactly the ring. */
  lemma RowsAreRing(h: Hasher, vnodes: nat, members: MemberMap, ids: seq<Uuid>, rows: seq<Listing>, x: U32, n: Uuid)
    requires forall k :: k in ids <==> k in members
    requires |rows| == |ids|
    requires forall i :: 0 <= i < |ids| ==>
               && ids[i] in members
               && rows[i].nodeId == ids[i] && rows[i].dataUrl == members[ids[i]].info.dataUrl
               && rows[i].vnodes == ListVnodes(h, vnodes, ids[i])
    ensures ListedAt(rows, x, n) <==> Holds(RingOf(h, vnodes, members.Keys), x, n)
    ensures UrlsFrom(rows, UrlIn(members))
  {
    RingIsCanonical(h, vnodes, ids, ids);
    assert Elements(ids) == members.Keys;
    RingOfMembership(h, vnodes, members.Keys, x);
    if n in members {
      assert n in ids;
      var i :| 0 <= i < |ids| && ids[i] == n;
      assert rows[i].nodeId == n;
    }
  }

  lemma ListMembersIsRing(h: Hasher, vnodes: nat, members: MemberMap, x: U32, n: Uuid)
    requires Keyed(members)
    ensures ListedAt(ListMembers(h, vnodes, members), x, n) <==> Holds(RingOf(h, vnodes, members.Keys), x, n)
    ensures UrlsFrom(ListMembers(h, vnodes, members), UrlIn(members))
  {
    var ids := Ascending(members.Keys);
    RowsAreRing(h, vnodes, members, ids, ListMembers(h, vnodes, members), x, n);
  }

  /** The table has each member at the positions of its ring, with its address, and nothing else. */
  ghost predicate TableMatches(h: Hasher, vnodes: nat, members: MemberMap, table: Table) {
    var ring := RingOf(h, vnodes, members.Keys);
    && NoEmptyPosition(ring)
    && (forall x, n :: Routes(table, x, n) <==> Holds(ring, x, n))
    && (forall x, n :: Routes(table, x, n) ==> n in members && table[x][n] == members[n].info.dataUrl)
    && (forall x :: x in table ==> table[x].Keys != {})
  }

  /** The table built from a listing holds the members at the positions of their ring. */
  lemma TableIsRing(h: Hasher, vnodes: nat, members: MemberMap)
    requires Keyed(members)
    ensures TableMatches(h, vnodes, members, TableFrom(ListMembers(h, vnodes, members)))
  {
    var rows := ListMembers(h, vnodes, members);
    forall x: U32, n: Uuid
      ensures Routes(TableFrom(rows), x, n) <==> Holds(RingOf(h, vnodes, members.Keys), x, n)
      ensures Routes(TableFrom(rows), x, n) ==> n in members && TableFrom(rows)[x][n] == members[n].info.dataUrl
    {
      ListMembersIsRing(h, vnodes, members, x, n);
      TableFromRoutes(rows, UrlIn(members), x, n);
      RingOfMembership(h, vnodes, members.Keys, x);
    }
    forall x: U32
      ensures x in TableFrom(rows) ==> TableFrom(rows)[x].Keys != {}
      ensures x in RingOf(h, vnodes, members.Keys) ==> RingOf(h, vnodes, members.Keys)[x] != {}
    {
      ListMembersIsRing(h, vnodes, members, x, 0);
      TableFromRoutes(rows, UrlIn(members), x, 0);
      RingOfMembership(h, vnodes, members.Keys, x);
    }
  }

  /** A table and a ring with the same nodes at the same positions look up alike. */
  lemma SameFirst(table: Table, ring: Ring, url: Uuid -> Url, digest: U32)
    requires forall x, n :: Routes(table, x, n) <==> Holds(ring, x, n)
    requires forall x, n :: Routes(table, x, n) ==> table[x][n] == url(n)
    requires forall x :: x in table ==> table[x].Keys != {}
    requires NoEmptyPosition(ring)
    ensures TableLookup(table, digest)
         == match Lookup(ring, digest)
            case Some(n) => Some((n, url(n)))
            case None => None
  {
    forall x: U32
      ensures x in table <==> x in ring
      ensures x in table && x in ring ==> table[x].Keys == ring[x]
    {
      if x in table {
        var n :| n in table[x].Keys;
        assert Routes(table, x, n);
      }
      if x in ring {
        var n :| n in ring[x];
        assert Holds(ring, x, n);
      }
      if x in table && x in ring {
        forall n ensures n in table[x].Keys <==> n in ring[x] {
          assert Routes(table, x, n) <==> Holds(ring, x, n);
        }
      }
    }
    assert table.Keys == ring.Keys;
    assert PositionsFrom(table, digest) == AtOrAfter(ring, digest);
    SameFirstRoute(table, ring, url, AtOrAfter(ring, digest));
    SameFirstRoute(table, ring, url, ring.Keys);
  }

  lemma SameFirstRoute(table: Table, ring: Ring, url: Uuid -> Url, positions: set<U32>)
    requires positions <= table.Keys && positions <= ring.Keys
    requires forall x :: x in positions ==> table[x].Keys == ring[x]
    requires forall x, n :: Routes(table, x, n) ==> table[x][n] == url(n)
    ensures FirstRoute(table, positions)
         == match FirstNode(ring, positions)
            case Some(n) => Some((n, url(n)))
            case None => None
  {
  }

  /** What a ring's lookup returns is one of its nodes. */
  lemma LookupPicksMember(h: Hasher, vnodes: nat, nodes: set<Uuid>, digest: U32)
    ensures Lookup(RingOf(h, vnodes, nodes), digest).Some? ==>
              && Lookup(RingOf(h, vnodes, nodes), digest).value in nodes
              && IsOwner(h, vnodes, nodes, digest, Anyone, Lookup(RingOf(h, vnodes, nodes), digest).value)
  {
    LookupOnRingOf(h, vnodes, nodes, digest);
    LookupUntilFindsOwner(h, vnodes, nodes, digest, Anyone);
  }

  /** What the ring of all members picks, with that member's data address. */
  function RingPick(h: Hasher, vnodes: nat, members: MemberMap, digest: U32): Option<(Uuid, Url)> {
    match Lookup(RingOf(h, vnodes, members.Keys), digest)
    case None => None
    case Some(n) => Some((n, UrlIn(members)(n)))
  }

  lemma MatchingTableLookup(h: Hasher, vnodes: nat, members: MemberMap, table: Table, digest: U32)
    requires TableMatches(h, vnodes, members, table)
    ensures TableLookup(table, digest) == RingPick(h, vnodes, members, digest)
  {
    SameFirst(table, RingOf(h, vnodes, members.Keys), UrlIn(members), digest);
  }

  /** The client picks the same node as the ring of all members, with that member's data address. */
  lemma ClientMatchesRing(h: Hasher, vnodes: nat, members: MemberMap, digest: U32)
    requires Keyed(members)
    ensures TableLookup(TableFrom(ListMembers(h, vnodes, members)), digest)
         == RingPick(h, vnodes, members, digest)
    ensures RingPick(h, vnodes, members, digest).Some? ==>
              RingPick(h, vnodes, members, digest).value.0 in members
    ensures RingPick(h, vnodes, members, digest).None? <==> vnodes == 0 || members.Keys == {}
  {
    LookupOnRingOf(h, vnodes, members.Keys, digest);
    LookupUntilFindsOwner(h, vnodes, members.Keys, digest, Anyone);
    LookupPicksMember(h, vnodes, members.Keys, digest);
    TableIsRing(h, vnodes, members);
    MatchingTableLookup(h, vnodes, members, TableFrom(ListMembers(h, vnodes, members)), digest);
  }

  /** A ring of all members and any other ids looks up living members as the ring of the members does. */
  lemma MoreIdsAreHarmless(h: Hasher, vnodes: nat, ids: set<Uuid>, members: MemberMap, digest: U32)
    requires members.Keys <= ids
    ensures LookupUntil(RingOf(h, vnodes, ids), digest, Living(members))
         == LookupUntil(RingOf(h, vnodes, members.Keys), digest, Living(members))
  {
    assert Satisfying(ids, Living(members)) == Satisfying(members.Keys, Living(members));
    SkippingIsRebuilding(h, vnodes, ids, digest, Living(members));
    SkippingIsRebuilding(h, vnodes, members.Keys, digest, Living(members));
  }

  /** What the server chooses, against the pick of the ring of all members. */
  lemma ServerPick(h: Hasher, vnodes: nat, ids: set<Uuid>, members: MemberMap, digest: U32)
    requires members.Keys <= ids
    ensures
      var chosen := LookupUntil(RingOf(h, vnodes, ids), digest, Living(members));
      match Lookup(RingOf(h, vnodes, members.Keys), digest)
      case Some(pick) => chosen == Some(pick) <==> IsAlive(members, pick)
      case None => chosen == None
  {
    MoreIdsAreHarmless(h, vnodes, ids, members, digest);
    LookupUntilFindsOwner(h, vnodes, members.Keys, digest, Living(members));
    LookupOnRingOf(h, vnodes, members.Keys, digest);
    LookupUntilFindsOwner(h, vnodes, members.Keys, digest, Anyone);
    if Lookup(RingOf(h, vnodes, members.Keys), digest).Some? {
      var pick := Lookup(RingOf(h, vnodes, members.Keys), digest).value;
      if IsAlive(members, pick) {
        OwnerAmongFewer(h, vnodes, digest, members.Keys, Anyone, members.Keys, Living(members), pick);
      }
    }
  }

  /**
   The server chooses the client's pick exactly if that member is alive. Then it serves the request
   if it is that node, and else redirects to the very address the client holds. If the client has no
   pick, the server serves the request.
   */
  ghost predicate FollowsClient(ring: Ring, members: MemberMap, self: Uuid, table: Table, dataUrl: Url, digest: U32) {
    match TableLookup(table, digest)
    case Some((pick, _)) =>
      && (LookupUntil(ring, digest, Living(members)) == Some(pick) <==> IsAlive(members, pick))
      && (IsAlive(members, pick) ==>
            Route(ring, members, self, digest)
            == if pick == self then Local else RemoteAddr(ClientRoute(Some(table), dataUrl, digest)))
    case None => Route(ring, members, self, digest) == Local
  }

  lemma SamePickFollows(ring: Ring, members: MemberMap, self: Uuid, table: Table, dataUrl: Url, digest: U32)
    requires Keyed(members)
    requires
      var chosen := LookupUntil(ring, digest, Living(members));
      match TableLookup(table, digest)
      case Some((pick, url)) => url == UrlIn(members)(pick) && (chosen == Some(pick) <==> IsAlive(members, pick))
      case None => chosen == None
    ensures FollowsClient(ring, members, self, table, dataUrl, digest)
  {
  }

  /** With a ring that has all members, whatever else is on it, every server follows the client in this way. */
  lemma ServerAgreesWithClient(h: Hasher, vnodes: nat, ids: set<Uuid>, members: MemberMap, self: Uuid,
                               dataUrl: Url, digest: U32)
    requires Keyed(members) && members.Keys <= ids
    ensures FollowsClient(RingOf(h, vnodes, ids), members, self,
                          TableFrom(ListMembers(h, vnodes, members)), dataUrl, digest)
  {
    ClientMatchesRing(h, vnodes, members, digest);
    ServerPick(h, vnodes, ids, members, digest);
    SamePickFollows(RingOf(h, vnodes, ids), members, self, TableFrom(ListMembers(h, vnodes, members)), dataUrl, digest);
  }

  /** The request goes to the owner among all members at its address, and to `dataUrl` exactly if there are none. */
  ghost predicate GoesToOwner(h: Hasher, vnodes: nat, members: MemberMap, dataUrl: Url, digest: U32, url: Url) {
    && (members == map[] ==> url == dataUrl)
    && (members != map[] ==> exists n: Uuid :: IsOwner(h, vnodes, members.Keys, digest, Anyone, n))
    && (forall n: Uuid :: IsOwner(h, vnodes, members.Keys, digest, Anyone, n) ==> url == members[n].info.dataUrl)
  }

  lemma PickGoesToOwner(h: Hasher, vnodes: nat, members: MemberMap, dataUrl: Url, digest: U32)
    requires Keyed(members) && vnodes > 0
    ensures
      var pick := RingPick(h, vnodes, members, digest);
      GoesToOwner(h, vnodes, members, dataUrl, digest, if pick.Some? then pick.value.1 else dataUrl)
  {
    LookupOnRingOf(h, vnodes, members.Keys, digest);
    LookupUntilFindsOwner(h, vnodes, members.Keys, digest, Anyone);
    LookupPicksMember(h, vnodes, members.Keys, digest);
    var found := Lookup(RingOf(h, vnodes, members.Keys), digest);
    if found.None? {
      assert members.Keys == {};
      assert members == map[];
    } else {
      forall n: Uuid | IsOwner(h, vnodes, members.Keys, digest, Anyone, n) ensures n == found.value {
        OwnerIsUnique(h, vnodes, members.Keys, digest, Anyone, n, found.value);
      }
    }
  }

  /**
   Where the client sends a request, by the listing it last took: to the member that owns the key
   among all members, at that member's address, and to the configured address exactly if the
   listing was empty.
   */
  lemma ClientFollowsListing(h: Hasher, vnodes: nat, members: MemberMap, dataUrl: Url, digest: U32)
    requires Keyed(members) && vnodes > 0
    ensures GoesToOwner(h, vnodes, members, dataUrl, digest,
                        ClientRoute(Some(TableFrom(ListMembers(h, vnodes, members))), dataUrl, digest))
  {
    ClientMatchesRing(h, vnodes, members, digest);
    PickGoesToOwner(h, vnodes, members, dataUrl, digest);
    RouteOfTable(TableFrom(ListMembers(h, vnodes, members)), dataUrl, digest, RingPick(h, vnodes, members, digest));
  }

  lemma RouteOfTable(table: Table, dataUrl: Url, digest: U32, pick: Option<(Uuid, Url)>)
    requires TableLookup(table, digest) == pick
    ensures ClientRoute(Some(table), dataUrl, digest) == if pick.Some? then pick.value.1 else dataUrl
  {
  }
}
