/**
 The server's routing decision (crates/gossip/src/proxy.rs). It reads the ring and the membership
 as two separate snapshots, so every statement is about an arbitrary pair of the two.
 */
module Proxy {
  import opened Nodes
  import opened Members
  import opened Rings
  import opened RingLaws

  datatype RouteDest = Local | RemoteAddr(url: Url)

  /** The predicate that `route` hands to the ring. */
  function Living(members: MemberMap): Uuid -> bool {
    (id: Uuid) => IsAlive(members, id)
  }

  function Route(ring: Ring, members: MemberMap, self: Uuid, digest: U32): RouteDest {
    match LookupUntil(ring, digest, Living(members))
    case Some(id) =>
      if id in members then
        if members[id].info.nodeId == self then Local else RemoteAddr(members[id].info.dataUrl)
      else Local
    case None => Local
  }

  /**
   For any ring and any membership: a request is redirected exactly if another node owns the key
   among the ring nodes that are living members, and then to that member's address.
   */
  lemma RouteFollowsOwner(h: Hasher, vnodes: nat, ids: set<Uuid>, members: MemberMap, self: Uuid, digest: U32)
    requires Keyed(members)
    ensures
      var dest := Route(RingOf(h, vnodes, ids), members, self, digest);
      && (forall n :: IsOwner(h, vnodes, ids, digest, Living(members), n) ==>
            dest == if n == self then Local else RemoteAddr(members[n].info.dataUrl))
      && (dest.RemoteAddr? ==> exists n :: n != self && IsOwner(h, vnodes, ids, digest, Living(members), n))
  {
    LookupUntilFindsOwner(h, vnodes, ids, digest, Living(members));
    var found := LookupUntil(RingOf(h, vnodes, ids), digest, Living(members));
    if found.Some? {
      assert IsOwner(h, vnodes, ids, digest, Living(members), found.value);
    }
  }

  /** The route depends only on the ring nodes that are living members, and on their addresses. */
  lemma RouteIgnoresTheRest(h: Hasher, vnodes: nat, self: Uuid, digest: U32,
                            ids: set<Uuid>, members: MemberMap, ids': set<Uuid>, members': MemberMap)
    requires Keyed(members) && Keyed(members')
    requires Satisfying(ids, Living(members)) == Satisfying(ids', Living(members'))
    requires forall n :: n in Satisfying(ids, Living(members)) ==>
               n in members && n in members' && members[n].info.dataUrl == members'[n].info.dataUrl
    ensures Route(RingOf(h, vnodes, ids), members, self, digest)
         == Route(RingOf(h, vnodes, ids'), members', self, digest)
  {
    SkippingIsRebuilding(h, vnodes, ids, digest, Living(members));
    SkippingIsRebuilding(h, vnodes, ids', digest, Living(members'));
    LookupUntilFindsOwner(h, vnodes, ids, digest, Living(members));
    var found := LookupUntil(RingOf(h, vnodes, ids), digest, Living(members));
    if found.Some? {
      assert IsOwner(h, vnodes, ids, digest, Living(members), found.value);
      assert found.value in Satisfying(ids, Living(members));
    }
  }
}
