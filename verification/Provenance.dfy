/**
 Where node infos come from, over all runs, with crashes, restarts and timeouts of any kind: no step
 invents an info about another node, no info outruns its node's disk, and a node id with an
 incarnation names one info everywhere.
 */
module Provenance {
  import opened Wrappers
  import opened Ordering
  import opened Nodes
  import opened Members
  import opened Gossip
  import opened Cluster

  /* Every place where an info can be */

  function MemberInfos(m: MemberMap): set<NodeInfo> {
    set k | k in m :: m[k].info
  }

  function ReportInfos(reports: seq<MemberState>): set<NodeInfo> {
    set r | r in reports :: r.info
  }

  function MessageInfos(msg: Message): set<NodeInfo> {
    match msg
    case Ping(info) => {info}
    case Ack(info) => {info}
    case Sync(members) => ReportInfos(members)
  }

  function SlotInfos(slot: Option<NodeInfo>): set<NodeInfo> {
    match slot
    case Some(info) => {info}
    case None => {}
  }

  function ProcInfos(p: Proc): set<NodeInfo> {
    {p.current} + MemberInfos(p.members) + SlotInfos(p.pinging) + SlotInfos(p.syncing)
  }

  function NodeInfos(n: Node): set<NodeInfo> {
    match n.proc
    case Some(p) => ProcInfos(p)
    case None => {}
  }

  /** The info is some node's own, in some membership, in some message, or in flight. */
  ghost predicate Mentions(s: System, info: NodeInfo) {
    || (exists id :: id in s.nodes && info in NodeInfos(s.nodes[id]))
    || (exists msg :: msg in s.network && info in MessageInfos(msg))
  }

  /* No step forges an info */

  lemma {:induction false} UpdateAllInfos(m: MemberMap, reports: seq<MemberState>)
    ensures MemberInfos(UpdateAll(m, reports)) <= MemberInfos(m) + ReportInfos(reports)
  {
    if reports != [] {
      var before := reports[..|reports| - 1];
      var last := reports[|reports| - 1];
      UpdateAllInfos(m, before);
      UpdateInfos(UpdateAll(m, before), last);
      assert reports == before + [last];
    }
  }

  lemma UpdateInfos(m: MemberMap, report: MemberState)
    ensures MemberInfos(Update(m, report)) <= MemberInfos(m) + {report.info}
  {
  }

  lemma HandleInfos(current: NodeInfo, m: MemberMap, msg: Message, now: int)
    ensures MemberInfos(Handle(current, m, msg, now)) <= MemberInfos(m) + MessageInfos(msg) + {current}
  {
    match msg {
      case Ping(info) => UpdateInfos(m, AliveNow(info, now));
      case Ack(info) => UpdateInfos(m, AliveNow(info, now));
      case Sync(reports) =>
        UpdateAllInfos(m, reports);
        UpdateInfos(UpdateAll(m, reports), AliveNow(current, now));
    }
  }

  lemma PickInfos(m: MemberMap, ids: seq<Uuid>)
    requires forall i :: 0 <= i < |ids| ==> ids[i] in m
    requires forall k :: k in m ==> k in ids
    ensures ReportInfos(Pick(m, ids)) == MemberInfos(m)
  {
    forall k | k in m ensures m[k].info in ReportInfos(Pick(m, ids)) {
      var i :| 0 <= i < |ids| && ids[i] == k;
      assert Pick(m, ids)[i] == m[k];
    }
  }

  lemma ValuesInfos(m: MemberMap)
    ensures ReportInfos(Values(m)) == MemberInfos(m)
  {
    PickInfos(m, Ascending(m.Keys));
  }

  /** The info that a step publishes for the first time, if any: always the acting node's own. */
  function Minted(s: System, step: Step): Option<NodeInfo>
    requires Enabled(s, step)
  {
    match step
    case Boot(_, _, _, _, _) => Some(Booted(s, step))
    case Deliver(id, msg, now) => MintedBy(ProcOf(s, id), msg, now)
    case PingReply(id, msg, now) => MintedBy(ProcOf(s, id), msg, now)
    case SyncReply(id, msg, now) => MintedBy(ProcOf(s, id), msg, now)
    case _ => None
  }

  function MintedBy(p: Proc, msg: Message, now: int): Option<NodeInfo> {
    if Advances(p, msg, now) then Some(p.current.Advanced()) else None
  }

  /** What the acting node holds afterwards it held before, received, or minted. */
  lemma NodeForgesNothing(s: System, step: Step, info: NodeInfo)
    requires Enabled(s, step)
    requires info in NodeInfos(NextNode(s, step))
    ensures Mentions(s, info) || Minted(s, step) == Some(info)
  {
    if step.Boot? || step.BootCrash? {
      return;
    }
    var n := s.nodes[step.id];
    var p := n.proc.value;
    if info in NodeInfos(n) {
      return;
    }
    if step.Deliver? || step.PingReply? || step.SyncReply? {
      HandleInfos(p.current, p.members, step.msg, step.now);
      assert info in MessageInfos(step.msg) || Minted(s, step) == Some(info);
    } else if step.PingTimeout? || step.SyncTimeout? {
      if step.peer.nodeId in p.members {
        UpdateInfos(p.members, MemberState(step.peer, Dead, p.members[step.peer.nodeId].heartbeat));
      }
      assert false;
    } else if step.PingSend? || step.SyncSend? {
      assert false;
    }
  }

  lemma ReplyInfos(current: NodeInfo, after: MemberMap, msg: Message)
    ensures Reply(current, after, msg).Some? ==>
              MessageInfos(Reply(current, after, msg).value) <= MemberInfos(after) + {current}
  {
    ValuesInfos(after);
  }

  lemma MessageForgesNothing(s: System, step: Step, msg: Message, info: NodeInfo)
    requires Enabled(s, step)
    requires msg in Sent(s, step) && info in MessageInfos(msg)
    ensures Mentions(s, info)
  {
    var p := ProcOf(s, step.id);
    if step.Deliver? {
      HandleInfos(p.current, p.members, step.msg, step.now);
      ReplyInfos(p.current, Handle(p.current, p.members, step.msg, step.now), step.msg);
      assert info in NodeInfos(s.nodes[step.id]) || info in MessageInfos(step.msg);
    } else {
      ValuesInfos(p.members);
      assert info in NodeInfos(s.nodes[step.id]);
    }
  }

  /** After any step, every info in the system was in it before, or is the acting node's new one. */
  lemma NothingForged(s: System, step: Step, info: NodeInfo)
    requires Enabled(s, step)
    requires Mentions(Next(s, step), info)
    ensures Mentions(s, info) || Minted(s, step) == Some(info)
  {
    var t := Next(s, step);
    if id :| id in t.nodes && info in NodeInfos(t.nodes[id]) {
      if id == step.id {
        NodeForgesNothing(s, step, info);
      } else {
        assert id in s.nodes && info in NodeInfos(s.nodes[id]);
      }
    } else {
      var msg :| msg in t.network && info in MessageInfos(msg);
      if msg !in s.network {
        MessageForgesNothing(s, step, msg, info);
      }
    }
  }

  /* The invariant of all runs */

  /**
   A process has published exactly what its disk holds, stores entries under their ids, and has
   nothing in flight and nobody on its ring before it has started.
   */
  ghost predicate NodeOk(id: Uuid, n: Node) {
    && n.disk.nodeId == id
    && (n.proc.Some? ==>
          var p := n.proc.value;
          && p.current.Persistent() == n.disk
          && Keyed(p.members)
          && (p.pinging.Some? || p.syncing.Some? ==> p.started)
          && (!p.started ==> p.ring == {}))
  }

  /** No info about a node has an incarnation above the one on the node's disk. */
  ghost predicate Ceiling(s: System) {
    forall info :: Mentions(s, info) ==>
      info.nodeId in s.nodes && info.incarnation <= s.nodes[info.nodeId].disk.incarnation
  }

  /** A node id and an incarnation determine the info, addresses included. */
  ghost predicate OneInfoPerIncarnation(s: System) {
    forall a, b :: Mentions(s, a) && Mentions(s, b) && a.nodeId == b.nodeId && a.incarnation == b.incarnation
                   ==> a == b
  }

  ghost predicate Inv(s: System) {
    && (forall id :: id in s.nodes ==> NodeOk(id, s.nodes[id]))
    && Ceiling(s)
    && OneInfoPerIncarnation(s)
  }

  lemma NextNodeOk(s: System, step: Step)
    requires Enabled(s, step)
    requires forall id :: id in s.nodes ==> NodeOk(id, s.nodes[id])
    ensures NodeOk(step.id, NextNode(s, step))
  {
    if step.Deliver? || step.PingReply? || step.SyncReply? {
      var p := ProcOf(s, step.id);
      HandleKeyed(p.current, p.members, step.msg, step.now);
    }
  }

  /** The disk never goes back, and a minted info goes beyond what the disk held. */
  lemma DiskAdvances(s: System, step: Step)
    requires Enabled(s, step)
    requires forall id :: id in s.nodes ==> NodeOk(id, s.nodes[id])
    ensures step.id in s.nodes ==>
              s.nodes[step.id].disk.incarnation <= NextNode(s, step).disk.incarnation
    ensures Minted(s, step).Some? ==>
              && Minted(s, step).value.Persistent() == NextNode(s, step).disk
              && (step.id in s.nodes ==>
                    s.nodes[step.id].disk.incarnation < Minted(s, step).value.incarnation)
  {
  }

  lemma StepKeepsInv(s: System, step: Step)
    requires Inv(s) && Enabled(s, step)
    ensures Inv(Next(s, step))
  {
    NextNodeOk(s, step);
    StepKeepsCeiling(s, step);
    StepKeepsOneInfo(s, step);
  }

  lemma StepKeepsCeiling(s: System, step: Step)
    requires Inv(s) && Enabled(s, step)
    ensures Ceiling(Next(s, step))
  {
    DiskAdvances(s, step);
    forall info | Mentions(Next(s, step), info)
      ensures info.nodeId in Next(s, step).nodes
      ensures info.incarnation <= Next(s, step).nodes[info.nodeId].disk.incarnation
    {
      NothingForged(s, step, info);
      NextNodeOk(s, step);
    }
  }

  lemma StepKeepsOneInfo(s: System, step: Step)
    requires Inv(s) && Enabled(s, step)
    ensures OneInfoPerIncarnation(Next(s, step))
  {
    var t := Next(s, step);
    NextNodeOk(s, step);
    DiskAdvances(s, step);
    forall a, b | Mentions(t, a) && Mentions(t, b) && a.nodeId == b.nodeId && a.incarnation == b.incarnation
      ensures a == b
    {
      NothingForged(s, step, a);
      NothingForged(s, step, b);
    }
  }

  /**
   Over every run: each published info is on disk, no info anywhere outruns its node's disk, and
   an id with an incarnation names one info.
   */
  lemma {:induction false} RunKeepsInv(states: seq<System>, steps: seq<Step>, k: nat)
    requires IsRun(states, steps) && k <= |steps|
    ensures Inv(states[k])
  {
    if k > 0 {
      RunKeepsInv(states, steps, k - 1);
      assert Follows(states, steps, k - 1);
      StepKeepsInv(states[k - 1], steps[k - 1]);
    }
  }

  /** A node's disk keeps its id and cluster, and its incarnation does not go back. */
  predicate SameIdentity(d: PersistentNodeInfo, e: PersistentNodeInfo) {
    d.nodeId == e.nodeId && d.clusterId == e.clusterId && d.incarnation <= e.incarnation
  }

  lemma StepKeepsIdentity(s: System, step: Step)
    requires Enabled(s, step) && step.id in s.nodes && NodeOk(step.id, s.nodes[step.id])
    ensures SameIdentity(s.nodes[step.id].disk, NextNode(s, step).disk)
  {
  }

  lemma RunStepKeepsIdentity(states: seq<System>, steps: seq<Step>, k: nat, id: Uuid)
    requires IsRun(states, steps) && k < |steps| && id in states[k].nodes
    ensures id in states[k + 1].nodes && SameIdentity(states[k].nodes[id].disk, states[k + 1].nodes[id].disk)
  {
    RunKeepsInv(states, steps, k);
    assert Follows(states, steps, k);
    assert NodeOk(id, states[k].nodes[id]);
    if steps[k].id == id {
      StepKeepsIdentity(states[k], steps[k]);
    }
  }

  /** Over any stretch of any run a node keeps its id and cluster, and its incarnation never goes back. */
  lemma {:induction false} IdentityIsStable(states: seq<System>, steps: seq<Step>, i: nat, j: nat, id: Uuid)
    requires IsRun(states, steps) && i <= j <= |steps| && id in states[i].nodes
    ensures id in states[j].nodes && SameIdentity(states[i].nodes[id].disk, states[j].nodes[id].disk)
    decreases j
  {
    if i < j {
      IdentityIsStable(states, steps, i, j - 1, id);
      RunStepKeepsIdentity(states, steps, j - 1, id);
    }
  }

  /** An info seen at any time of a run never outruns its node's disk at that or any later time. */
  lemma CeilingForever(states: seq<System>, steps: seq<Step>, i: nat, j: nat, info: NodeInfo)
    requires IsRun(states, steps) && i <= j <= |steps| && Mentions(states[i], info)
    ensures info.nodeId in states[j].nodes
    ensures info.incarnation <= states[j].nodes[info.nodeId].disk.incarnation
  {
    RunKeepsInv(states, steps, i);
    IdentityIsStable(states, steps, i, j, info.nodeId);
  }

  /** An info that repeats the id and incarnation of an earlier one was there before the step, too. */
  lemma NotMintedAgain(states: seq<System>, steps: seq<Step>, i: nat, k: nat, a: NodeInfo, b: NodeInfo)
    requires IsRun(states, steps) && i <= k < |steps|
    requires Mentions(states[i], a) && Mentions(states[k + 1], b)
    requires a.nodeId == b.nodeId && a.incarnation == b.incarnation
    ensures Mentions(states[k], b)
  {
    CeilingForever(states, steps, i, k, a);
    RunKeepsInv(states, steps, k);
    assert Follows(states, steps, k);
    MintedIsNew(states[k], steps[k], b);
  }

  lemma MintedIsNew(s: System, step: Step, info: NodeInfo)
    requires Inv(s) && Enabled(s, step) && Mentions(Next(s, step), info)
    requires info.nodeId in s.nodes && info.incarnation <= s.nodes[info.nodeId].disk.incarnation
    ensures Mentions(s, info)
  {
    NothingForged(s, step, info);
    DiskAdvances(s, step);
    NextNodeOk(s, step);
  }

  lemma OneInfoNow(states: seq<System>, steps: seq<Step>, k: nat, a: NodeInfo, b: NodeInfo)
    requires IsRun(states, steps) && k <= |steps|
    requires Mentions(states[k], a) && Mentions(states[k], b)
    requires a.nodeId == b.nodeId && a.incarnation == b.incarnation
    ensures a == b
  {
    RunKeepsInv(states, steps, k);
  }

  /**
   Over a whole run, whenever and wherever they are seen, two infos with the same node id and
   incarnation are the same, even though the addresses may change at every restart.
   */
  lemma {:induction false} OneInfoForever(states: seq<System>, steps: seq<Step>, i: nat, j: nat, a: NodeInfo, b: NodeInfo)
    requires IsRun(states, steps) && i <= j <= |steps|
    requires Mentions(states[i], a) && Mentions(states[j], b)
    requires a.nodeId == b.nodeId && a.incarnation == b.incarnation
    ensures a == b
    decreases j
  {
    if i == j {
      OneInfoNow(states, steps, j, a, b);
    } else {
      NotMintedAgain(states, steps, i, j - 1, a, b);
      OneInfoForever(states, steps, i, j - 1, a, b);
    }
  }
}
