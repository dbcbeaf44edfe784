/**
 Membership and its merge (crates/gossip/src/member.rs). `Update` says what one report does to the
 map; class `Membership` performs it branch by branch, as the source does, and is proved equal to it.
 */
module Members {
  import opened Ordering
  import opened Nodes

  datatype Status = Alive | Dead {

    /** `downgrade_to`: whatever the two statuses are, the result is the other one. */
    function DowngradeTo(other: Status): (r: Status)
      ensures r == other
    {
      match (this, other)
      case (Alive, Alive) => this
      case _ => other
    }
  }

  /** A heartbeat is a timestamp in nanoseconds. */
  datatype MemberState = MemberState(info: NodeInfo, status: Status, heartbeat: int)

  type MemberMap = map<Uuid, MemberState>

  /** Every entry is stored under its own node id. */
  ghost predicate Keyed(m: MemberMap) {
    forall k :: k in m ==> m[k].info.nodeId == k
  }

  predicate IsDead(m: MemberMap, id: Uuid) {
    id in m && m[id].status == Dead
  }

  predicate IsAlive(m: MemberMap, id: Uuid) {
    id in m && m[id].status == Alive
  }

  function Max(a: int, b: int): int {
    if a >= b then a else b
  }

  /** What a report does to an existing entry for the same node. */
  function Merge(current: MemberState, report: MemberState): MemberState {
    if current.info.incarnation < report.info.incarnation then report
    else if current.info.incarnation > report.info.incarnation then current
    else MemberState(current.info, report.status, Max(current.heartbeat, report.heartbeat))
  }

  function Update(m: MemberMap, report: MemberState): MemberMap {
    var id := report.info.nodeId;
    m[id := if id in m then Merge(m[id], report) else report]
  }

  /** Reports applied in order, the last one last. */
  function UpdateAll(m: MemberMap, reports: seq<MemberState>): MemberMap {
    if reports == [] then m
    else Update(UpdateAll(m, reports[..|reports| - 1]), reports[|reports| - 1])
  }

  /** The entries under a list of keys. */
  function Pick(m: MemberMap, ids: seq<Uuid>): seq<MemberState>
    requires forall i :: 0 <= i < |ids| ==> ids[i] in m
  {
    seq(|ids|, i requires 0 <= i < |ids| => m[ids[i]])
  }

  /** The entries in the order of their ids, as `members().values()` yields them. */
  function Values(m: MemberMap): seq<MemberState> {
    Pick(m, Ascending(m.Keys))
  }

  class Membership {
    var members: MemberMap

    ghost predicate Valid()
      reads this
    {
      Keyed(members)
    }

    constructor (snapshot: MemberMap)
      requires Keyed(snapshot)
      ensures Valid() && members == snapshot
    {
      members := snapshot;
    }

    /** The result says exactly whether the map changed. */
    method UpdateMember(member: MemberState) returns (changed: bool)
      requires Valid()
      modifies this
      ensures Valid()
      ensures members == Update(old(members), member)
      ensures changed <==> members != old(members)
    {
      var id := member.info.nodeId;
      if id in members {
        var current := members[id];
        if current.info.incarnation < member.info.incarnation {
          members := members[id := member];
          return true;
        }
        if current.info.incarnation > member.info.incarnation {
          assert members == Update(old(members), member);
          return false;
        }
        var prevStatus := current.status;
        var prevHeartbeat := current.heartbeat;
        current := current.(heartbeat := Max(current.heartbeat, member.heartbeat));
        if member.heartbeat >= prevHeartbeat && member.status != current.status {
          current := current.(status := member.status);
        } else {
          current := current.(status := current.status.DowngradeTo(member.status));
        }
        members := members[id := current];
        changed := current.status != prevStatus || current.heartbeat != prevHeartbeat;
        assert !changed ==> members == old(members);
        assert changed ==> members[id] != old(members)[id];
      } else {
        members := members[id := member];
        changed := true;
      }
    }

    method RemoveMember(id: Uuid)
      requires Valid()
      modifies this
      ensures Valid()
      ensures members == old(members) - {id}
    {
      members := members - {id};
    }

    /** The loop of `remove_dead_members`. */
    method RemoveAll(infos: seq<NodeInfo>)
      requires Valid()
      modifies this
      ensures Valid()
      ensures forall k :: k in members <==> k in old(members) && forall j :: 0 <= j < |infos| ==> infos[j].nodeId != k
      ensures forall k :: k in members ==> members[k] == old(members)[k]
    {
      for i := 0 to |infos|
        invariant Valid()
        invariant forall k :: k in members <==> k in old(members) && forall j :: 0 <= j < i ==> infos[j].nodeId != k
        invariant forall k :: k in members ==> members[k] == old(members)[k]
      {
        RemoveMember(infos[i].nodeId);
      }
    }

    /** `from_iter`: start from the empty map and merge each report in turn. */
    constructor FromReports(reports: seq<MemberState>)
      ensures Valid()
      ensures members == UpdateAll(map[], reports)
    {
      members := map[];
      new;
      MergeReports(reports);
    }

    /** The loop that `from_iter` and the Sync handler share. */
    method MergeReports(reports: seq<MemberState>)
      requires Valid()
      modifies this
      ensures Valid()
      ensures members == UpdateAll(old(members), reports)
    {
      for i := 0 to |reports|
        invariant Valid()
        invariant members == UpdateAll(old(members), reports[..i])
      {
        var _ := UpdateMember(reports[i]);
        assert reports[..i + 1][..i] == reports[..i];
      }
      assert reports[..|reports|] == reports;
    }
  }
}
