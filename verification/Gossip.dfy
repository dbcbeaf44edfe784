/**
 One node of the gossip protocol (crates/gossip/src/gossip.rs): what each handler does to the
 membership, the ring and the node's own info. The functions state the effect; class `GossipState`
 performs it by load, clone, modify and store, and is proved equal to them.
 */
module Gossip {
  import opened Wrappers
  import opened Ordering
  import opened Nodes
  import opened Members
  import opened MergeLaws
  import opened Rings
  import opened RingLaws

  /** Thirty seconds, in nanoseconds. */
  const MEMBER_DEADLINE: int := 30_000_000_000

  datatype Message = Ping(info: NodeInfo) | Ack(info: NodeInfo) | Sync(members: seq<MemberState>)

  function AliveNow(info: NodeInfo, now: int): MemberState {
    MemberState(info, Alive, now)
  }

  /** The membership after a message. */
  function Handle(current: NodeInfo, m: MemberMap, msg: Message, now: int): MemberMap {
    match msg
    case Ping(info) => Update(m, AliveNow(info, now))
    case Ack(info) => Update(m, AliveNow(info, now))
    case Sync(reports) => Update(UpdateAll(m, reports), AliveNow(current, now))
  }

  /** The answer to a message, given the membership after it. */
  function Reply(current: NodeInfo, after: MemberMap, msg: Message): Option<Message> {
    match msg
    case Ping(_) => Some(Ack(current))
    case Ack(_) => None
    case Sync(_) => Some(Sync(Values(after)))
  }

  /** The node's own info once the message is handled: advanced if it finds itself dead. */
  function Refute(current: NodeInfo, after: MemberMap): NodeInfo {
    if IsDead(after, current.nodeId) then current.Advanced() else current
  }

  /** A failed ping or sync: the peer's entry, if it is still there, merges a dead report of it. */
  function MarkDead(m: MemberMap, peer: NodeInfo): MemberMap {
    if peer.nodeId in m then Update(m, MemberState(peer, Dead, m[peer.nodeId].heartbeat)) else m
  }

  predicate Expired(e: MemberState, now: int) {
    e.status == Dead && e.heartbeat + MEMBER_DEADLINE < now
  }

  /** The clock is read once for each member; `readings` holds what it showed. */
  function WithoutExpired(m: MemberMap, readings: map<Uuid, int>): MemberMap
    requires m.Keys <= readings.Keys
  {
    map k | k in m && !Expired(m[k], readings[k]) :: m[k]
  }

  /** The ids that the ring is built from: every member, dead ones included, and the node itself. */
  function RingIds(current: NodeInfo, m: MemberMap): set<Uuid> {
    m.Keys + {current.nodeId}
  }

  /** The `filter_map` of `remove_dead_members` over the members with these ids. */
  function ExpiredInfos(m: MemberMap, ids: seq<Uuid>, readings: map<Uuid, int>): (dead: seq<NodeInfo>)
    requires Keyed(m) && m.Keys <= readings.Keys && StrictlyAscending(ids)
    requires forall i :: 0 <= i < |ids| ==> ids[i] in m
    ensures forall d :: d in dead <==>
              d.nodeId in ids && m[d.nodeId].info == d && Expired(m[d.nodeId], readings[d.nodeId])
    ensures forall i, j :: 0 <= i < j < |dead| ==> dead[i].nodeId < dead[j].nodeId
  {
    if ids == [] then [] else
      var rest := ExpiredInfos(m, ids[1..], readings);
      var e := m[ids[0]];
      assert forall k :: k in ids <==> k == ids[0] || k in ids[1..];
      if Expired(e, readings[ids[0]]) then [e.info] + rest else rest
  }

  method ListExpired(m: MemberMap, readings: map<Uuid, int>) returns (dead: seq<NodeInfo>)
    requires Keyed(m) && m.Keys <= readings.Keys
    ensures forall d :: d in dead <==>
              d.nodeId in m && m[d.nodeId].info == d && Expired(m[d.nodeId], readings[d.nodeId])
    ensures forall i, j :: 0 <= i < j < |dead| ==> dead[i].nodeId < dead[j].nodeId
  {
    dead := ExpiredInfos(m, Ascending(m.Keys), readings);
  }

  lemma RemovedExactlyExpired(before: MemberMap, after: MemberMap, dead: seq<NodeInfo>, readings: map<Uuid, int>)
    requires Keyed(before) && before.Keys <= readings.Keys
    requires forall d :: d in dead <==>
               d.nodeId in before && before[d.nodeId].info == d && Expired(before[d.nodeId], readings[d.nodeId])
    requires forall k :: k in after <==> k in before && forall j :: 0 <= j < |dead| ==> dead[j].nodeId != k
    requires forall k :: k in after ==> after[k] == before[k]
    ensures after == WithoutExpired(before, readings)
    ensures forall k :: k in before ==> (k !in after <==> before[k].info in dead)
  {
  }

  lemma ElementsAscending(s: set<Uuid>)
    ensures Elements(Ascending(s)) == s
  {
  }

  /** Whatever the statuses, every member and the node itself lie at their 64 replicas, and nothing else does. */
  ghost predicate HoldsExactly(ring: Ring, h: Hasher, m: MemberMap, self: Uuid) {
    forall x: U32, k: Uuid :: Holds(ring, x, k) <==>
      (k in m || k == self) && exists i :: 0 <= i < 64 && h.vnode(k, i) == x
  }

  lemma RebuiltHolds(h: Hasher, m: MemberMap, self: Uuid)
    ensures HoldsExactly(RingOf(h, DEFAULT_VNODE_COUNT, m.Keys + {self}), h, m, self)
  {
    forall x: U32, k: Uuid
      ensures Holds(RingOf(h, DEFAULT_VNODE_COUNT, m.Keys + {self}), x, k) <==>
                (k in m || k == self) && exists i :: 0 <= i < 64 && h.vnode(k, i) == x
    {
      RingOfMembership(h, DEFAULT_VNODE_COUNT, m.Keys + {self}, x);
    }
  }

  class GossipState {
    const hasher: Hasher
    const file: NodeFile
    var currentNode: NodeInfo
    var membership: MemberMap
    var ring: Ring

    /** The file holds the published info, and every entry lies under its own id. */
    ghost predicate Valid()
      reads this, file
    {
      file.content == Some(currentNode.Persistent()) && Keyed(membership)
    }

    constructor (hasher: Hasher, file: NodeFile, current: NodeInfo)
      requires file.content == Some(current.Persistent())
      ensures this.hasher == hasher && this.file == file && Valid()
      ensures currentNode == current && membership == map[] && ring == map[]
    {
      this.hasher := hasher;
      this.file := file;
      currentNode := current;
      membership := map[];
      ring := map[];
    }

    /** The first store of `start`: whatever was there, the membership becomes the node alone. */
    method StoreSelf(now: int)
      requires Valid()
      modifies this`membership
      ensures Valid()
      ensures membership == map[currentNode.nodeId := MemberState(currentNode, Alive, now)]
    {
      var self := AliveNow(currentNode, now);
      var members := new Membership.FromReports([self]);
      assert [self][..0] == [];
      membership := members.members;
    }

    /** The Sync branch of `handle_message`. */
    method MergeSync(reports: seq<MemberState>, now: int) returns (reply: Option<Message>)
      requires Valid()
      modifies this`membership
      ensures Valid()
      ensures membership == Update(UpdateAll(old(membership), reports), MemberState(currentNode, Alive, now))
      ensures reply == Some(Sync(Values(membership)))
    {
      var members := new Membership(membership);
      members.MergeReports(reports);
      // The node keeps itself alive, whatever the reports say.
      var _ := members.UpdateMember(MemberState(currentNode, Alive, now));
      membership := members.members;
      reply := Some(Sync(Values(members.members)));
    }

    method HandleMessage(message: Message, now: int) returns (reply: Option<Message>)
      requires Valid()
      modifies this`membership, this`currentNode, file
      ensures Valid()
      ensures membership == Handle(old(currentNode), old(membership), message, now)
      ensures !message.Sync? ==> membership == Update(old(membership), MemberState(message.info, Alive, now))
      ensures reply == Reply(old(currentNode), membership, message)
      ensures message.Ping? ==> reply == Some(Ack(old(currentNode)))
      ensures message.Ack? ==> reply == None
      ensures message.Sync? ==> reply == Some(Sync(Values(membership)))
      ensures currentNode == Refute(old(currentNode), membership)
    {
      var members := new Membership(membership);
      match message {
        case Ping(info) =>
          var _ := members.UpdateMember(MemberState(info, Alive, now));
          membership := members.members;
          reply := Some(Ack(currentNode));
        case Ack(info) =>
          var _ := members.UpdateMember(MemberState(info, Alive, now));
          membership := members.members;
          reply := None;
        case Sync(reports) =>
          reply := MergeSync(reports, now);
      }
      if IsDead(membership, currentNode.nodeId) {
        AdvanceIncarnation();
      }
    }

    /** The file is written before the new info is published. */
    method AdvanceIncarnation()
      requires Valid()
      modifies this`currentNode, file
      ensures Valid()
      ensures currentNode == old(currentNode).Advanced()
    {
      var current := currentNode;
      current := current.(incarnation := current.incarnation + 1);
      file.Persist(current);
      currentNode := current;
    }

    /** Removes exactly the expired members and returns their infos in id order. */
    method RemoveDeadMembers(readings: map<Uuid, int>) returns (dead: seq<NodeInfo>)
      requires Valid() && membership.Keys <= readings.Keys
      modifies this`membership
      ensures Valid()
      ensures membership == WithoutExpired(old(membership), readings)
      ensures forall k :: k in old(membership) ==> (k !in membership <==> old(membership)[k].info in dead)
      ensures forall i, j :: 0 <= i < j < |dead| ==> dead[i].nodeId < dead[j].nodeId
    {
      var before := membership;
      var members := new Membership(before);
      dead := ListExpired(before, readings);
      members.RemoveAll(dead);
      RemovedExactlyExpired(before, members.members, dead, readings);
      membership := members.members;
    }

    method RebuildRing(now: int)
      requires Valid()
      modifies this`ring
      ensures HoldsExactly(ring, hasher, membership, currentNode.nodeId)
      ensures ring == RingOf(hasher, DEFAULT_VNODE_COUNT, RingIds(currentNode, membership))
    {
      var members := new Membership(membership);
      var _ := members.UpdateMember(MemberState(currentNode, Alive, now));
      var keys := members.members.Keys;
      assert keys == RingIds(currentNode, membership);
      var ids := Ascending(keys);
      assert Elements(ids) == keys by { ElementsAscending(keys); }
      var built := new HashRing.From(hasher, ids);
      ring := built.nodes;
      RebuiltHolds(hasher, membership, currentNode.nodeId);
    }

    method MarkPeerDead(peer: NodeInfo)
      requires Valid()
      modifies this`membership
      ensures Valid()
      ensures membership == MarkDead(old(membership), peer)
    {
      var members := new Membership(membership);
      if peer.nodeId in members.members {
        var lastSeen := members.members[peer.nodeId].heartbeat;
        var _ := members.UpdateMember(MemberState(peer, Dead, lastSeen));
      }
      membership := members.members;
    }

    /** The end of `ping`: an Ack is handled; a failure or any other answer marks the peer dead. */
    method FinishPing(peer: NodeInfo, answer: Option<Message>, now: int)
      requires Valid()
      modifies this`membership, this`currentNode, file
      ensures Valid()
      ensures answer.Some? && answer.value.Ack? ==>
                && membership == Handle(old(currentNode), old(membership), answer.value, now)
                && currentNode == Refute(old(currentNode), membership)
      ensures !(answer.Some? && answer.value.Ack?) ==>
                membership == MarkDead(old(membership), peer) && currentNode == old(currentNode)
    {
      if answer.Some? && answer.value.Ack? {
        var _ := HandleMessage(answer.value, now);
      } else {
        MarkPeerDead(peer);
      }
    }

    /** The end of `sync`: the same, for a Sync answer. */
    method FinishSync(peer: NodeInfo, answer: Option<Message>, now: int)
      requires Valid()
      modifies this`membership, this`currentNode, file
      ensures Valid()
      ensures answer.Some? && answer.value.Sync? ==>
                && membership == Handle(old(currentNode), old(membership), answer.value, now)
                && currentNode == Refute(old(currentNode), membership)
      ensures !(answer.Some? && answer.value.Sync?) ==>
                membership == MarkDead(old(membership), peer) && currentNode == old(currentNode)
    {
      if answer.Some? && answer.value.Sync? {
        var _ := HandleMessage(answer.value, now);
      } else {
        MarkPeerDead(peer);
      }
    }
  }

  /* Laws of single handlers */

  lemma HandleKeyed(current: NodeInfo, m: MemberMap, msg: Message, now: int)
    requires Keyed(m)
    ensures Keyed(Handle(current, m, msg, now))
  {
    if msg.Sync? {
      UpdateAllKeyed(m, msg.members);
    }
  }

  /** Incarnation first, heartbeat second. */
  predicate NoOlder(e: MemberState, f: MemberState) {
    e.info.incarnation < f.info.incarnation
    || (e.info.incarnation == f.info.incarnation && e.heartbeat <= f.heartbeat && e.info == f.info)
  }

  /** A report never removes an entry nor takes it back in (incarnation, heartbeat). */
  lemma {:induction false} UpdateAllMonotone(m: MemberMap, reports: seq<MemberState>, k: Uuid)
    requires k in m
    ensures k in UpdateAll(m, reports) && NoOlder(m[k], UpdateAll(m, reports)[k])
  {
    if reports != [] {
      UpdateAllMonotone(m, reports[..|reports| - 1], k);
    }
  }

  lemma HandleMonotone(current: NodeInfo, m: MemberMap, msg: Message, now: int, k: Uuid)
    requires k in m
    ensures k in Handle(current, m, msg, now) && NoOlder(m[k], Handle(current, m, msg, now)[k])
  {
    if msg.Sync? {
      UpdateAllMonotone(m, msg.members, k);
    }
  }

  /**
   A timeout, whatever happened since its send: it touches no other entry, re-adds no removed peer,
   changes no heartbeat, leaves a newer incarnation as it is, and otherwise marks the peer dead.
   */
  lemma MarkDeadLaw(m: MemberMap, peer: NodeInfo)
    ensures MarkDead(m, peer).Keys == m.Keys
    ensures forall k :: k in m ==>
              && MarkDead(m, peer)[k].heartbeat == m[k].heartbeat
              && NoOlder(m[k], MarkDead(m, peer)[k])
              && (MarkDead(m, peer)[k] != m[k] ==>
                    k == peer.nodeId && m[k].info.incarnation <= peer.incarnation)
    ensures IsDead(MarkDead(m, peer), peer.nodeId) <==>
              peer.nodeId in m && (m[peer.nodeId].info.incarnation <= peer.incarnation || IsDead(m, peer.nodeId))
  {
  }
}
