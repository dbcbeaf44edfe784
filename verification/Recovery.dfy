/**
 Recovery without a rebuild: a ring keeps the members that were dead when it was built, so a node
 that comes back is routed to as soon as it is heard of, and servers and clients agree all along.
 */
module Recovery {
  import opened Wrappers
  import opened Nodes
  import opened Members
  import opened Rings
  import opened RingLaws
  import opened Proxy
  import opened Cluster
  import opened Provenance
  import opened RoundTrip
  import opened EntryLaws
  import opened Heartbeats
  import opened RouteTables
  import opened Agreement

  /** The last rebuild of process `id` before state j is step i, and the process has been up since. */
  ghost predicate LastRebuild(states: seq<System>, steps: seq<Step>, i: nat, j: nat, id: Uuid) {
    && IsRun(states, steps) && i < j <= |steps|
    && steps[i].RebuildRing? && steps[i].id == id && Up(states[i], id)
    && StaysUp(states, i + 1, j, id)
    && (forall k :: i < k < j ==> !(steps[k].RebuildRing? && steps[k].id == id))
  }

  /** Whatever happened since, the ring is made of all that was a member at the last rebuild, and the node itself. */
  lemma {:induction false} RingSince(states: seq<System>, steps: seq<Step>, i: nat, j: nat, id: Uuid)
    requires LastRebuild(states, steps, i, j, id)
    ensures ProcOf(states[j], id).ring == ProcOf(states[i], id).members.Keys + {id}
    decreases j
  {
    assert Up(states[j], id) && Up(states[i + 1], id);
    if i + 1 == j {
      RebuildsExactly(states, steps, i, id);
    } else {
      assert Up(states[j - 1], id);
      RingSince(states, steps, i, j - 1, id);
      assert Follows(states, steps, j - 1);
      RingKept(states[j - 1], steps[j - 1], id);
    }
  }

  /** No id has come in since the rebuild; members may have died, come back, or been removed. */
  ghost predicate NoNewcomer(before: MemberMap, after: MemberMap, id: Uuid) {
    forall x :: x in after ==> x in before || x == id
  }

  /** The node that a process takes for the owner is the owner among all its living members. */
  ghost predicate OwnsAmongLiving(s: System, h: Hasher, id: Uuid, digest: U32) {
    Up(s, id) && forall n: Uuid :: OwnerAt(s, h, id, digest) == Some(n) <==>
                   IsOwner(h, 64, ProcOf(s, id).members.Keys, digest, Living(ProcOf(s, id).members), n)
  }

  lemma CoveringRing(s: System, h: Hasher, id: Uuid, digest: U32)
    requires Up(s, id) && ProcOf(s, id).members.Keys <= ProcOf(s, id).ring
    ensures OwnsAmongLiving(s, h, id, digest)
  {
    var p := ProcOf(s, id);
    MoreIdsAreHarmless(h, 64, p.ring, p.members, digest);
    LookupUntilFindsOwner(h, 64, p.members.Keys, digest, Living(p.members));
    var found := OwnerAt(s, h, id, digest);
    forall n: Uuid | IsOwner(h, 64, p.members.Keys, digest, Living(p.members), n) ensures found == Some(n) {
      OwnerIsUnique(h, 64, p.members.Keys, digest, Living(p.members), n, found.value);
    }
  }

  /**
   In every run, from a rebuild on and as long as no new id comes in, a process routes to the owner
   among all its members that are alive at that moment, and follows every client that has its listing.
   */
  lemma RoutesSinceRebuild(states: seq<System>, steps: seq<Step>, i: nat, j: nat, id: Uuid,
                           h: Hasher, dataUrl: Url, digest: U32)
    requires LastRebuild(states, steps, i, j, id) && Up(states[j], id)
    requires NoNewcomer(ProcOf(states[i], id).members, ProcOf(states[j], id).members, id)
    ensures OwnsAmongLiving(states[j], h, id, digest)
    ensures
      var p := ProcOf(states[j], id);
      FollowsClient(RingOf(h, 64, p.ring), p.members, id, TableFrom(ListMembers(h, 64, p.members)), dataUrl, digest)
  {
    RingSince(states, steps, i, j, id);
    RunKeyed(states, steps, j, id);
    CoveringRing(states[j], h, id, digest);
    var p := ProcOf(states[j], id);
    ServerAgreesWithClient(h, 64, p.ring, p.members, id, dataUrl, digest);
  }

  lemma OwnerIsRouted(s: System, h: Hasher, id: Uuid, digest: U32, n: Uuid)
    requires OwnsAmongLiving(s, h, id, digest) && Keyed(ProcOf(s, id).members) && ProcOf(s, id).current.nodeId == id
    requires IsOwner(h, 64, ProcOf(s, id).members.Keys, digest, Living(ProcOf(s, id).members), n)
    ensures RoutesTo(s, h, digest, id, n, ProcOf(s, id).members[n].info.dataUrl)
  {
  }

  /** The Ping or Ack about `x` is not older than what the process holds about it. */
  ghost predicate Tells(s: System, step: Step, id: Uuid) {
    && Up(s, id) && (step.Deliver? || step.PingReply?) && !step.msg.Sync?
    && (Newer(ProcOf(s, id).members, step.msg.info) || Level(ProcOf(s, id).members, step.msg.info))
  }

  /**
   In every run, a node that was a dead member at the last rebuild and is heard of again is alive at
   once, and at once the process routes every key to its owner among all living members, the
   returned node included, with no further rebuild.
   */
  lemma RevivedIsRouted(states: seq<System>, steps: seq<Step>, i: nat, j: nat, id: Uuid, x: Uuid, h: Hasher, digest: U32)
    requires LastRebuild(states, steps, i, j, id) && IsDead(ProcOf(states[i], id).members, x)
    requires j < |steps| && Hears(steps[j], id, x) && Tells(states[j], steps[j], id)
    requires NoNewcomer(ProcOf(states[i], id).members, ProcOf(states[j], id).members, id)
    ensures Up(states[j + 1], id) && IsAlive(ProcOf(states[j + 1], id).members, x)
    ensures OwnsAmongLiving(states[j + 1], h, id, digest)
    ensures
      var members := ProcOf(states[j + 1], id).members;
      IsOwner(h, 64, members.Keys, digest, Living(members), x) ==>
        RoutesTo(states[j + 1], h, digest, id, x, members[x].info.dataUrl)
  {
    HeardExactly(states, steps, j, id, x);
    HeardSince(states, steps, i, j, id);
    RoutesSinceRebuild(states, steps, i, j + 1, id, h, "", digest);
    RunKeyed(states, steps, j + 1, id);
    var members := ProcOf(states[j + 1], id).members;
    if IsOwner(h, 64, members.Keys, digest, Living(members), x) {
      OwnerIsRouted(states[j + 1], h, id, digest, x);
    }
  }

  lemma HeardSince(states: seq<System>, steps: seq<Step>, i: nat, j: nat, id: Uuid)
    requires LastRebuild(states, steps, i, j, id) && j < |steps| && Up(states[j + 1], id) && !steps[j].RebuildRing?
    ensures LastRebuild(states, steps, i, j + 1, id)
  {
    forall k | i + 1 <= k <= j + 1 ensures Up(states[k], id) {
      if k <= j {
        assert Up(states[k], id);
      }
    }
  }

  /** A process that has not started yet, whatever messages it has taken in, serves every key itself. */
  lemma UnstartedServesAll(states: seq<System>, steps: seq<Step>, k: nat, id: Uuid, h: Hasher, digest: U32)
    requires IsRun(states, steps) && k <= |steps| && Up(states[k], id) && !Running(states[k], id)
    ensures OwnerAt(states[k], h, id, digest) == None && RouteAt(states[k], h, id, digest) == Local
  {
    RunKeepsInv(states, steps, k);
    assert NodeOk(id, states[k].nodes[id]);
    LookupUntilFindsOwner(h, DEFAULT_VNODE_COUNT, {}, digest, Living(ProcOf(states[k], id).members));
  }
}
