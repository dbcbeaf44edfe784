/**
 Runs that show what the laws about a node's own entry and about removed entries must leave open: a
 node that gives up on itself ends with an empty membership, and a removal forgets an incarnation.
 Besides, that a process can die with an incarnation on disk that nobody has seen.
 */
module Witnesses {
  import opened Wrappers
  import opened Nodes
  import opened Members
  import opened Gossip
  import opened Cluster
  import opened Provenance
  import opened SelfLaws

  /** From `s` to `t`, only node `id` has acted, and it now is `n`. */
  ghost predicate Becomes(s: System, t: System, id: Uuid, n: Node) {
    t.nodes == s.nodes[id := n] && s.network <= t.network
  }

  function Life(info: NodeInfo, started: bool, members: MemberMap, now: int): Node {
    Node(info.Persistent(), Some(Proc(info, now, started, members, {}, None, None)))
  }

  /** The node is down, and this is what it will be when it boots at these addresses. */
  ghost predicate NextLife(s: System, info: NodeInfo) {
    && !Up(s, info.nodeId)
    && if info.nodeId in s.nodes then
         var disk := s.nodes[info.nodeId].disk;
         info.Persistent() == disk.(incarnation := disk.incarnation + 1)
       else info.incarnation == 0
  }

  lemma BootOf(s: System, info: NodeInfo, now: int)
    requires NextLife(s, info)
    ensures
      var step := Boot(info.nodeId, info.clusterId, info.dataUrl, info.ctrlUrl, now);
      Enabled(s, step) && Becomes(s, Next(s, step), info.nodeId, Life(info, false, map[], now))
  {
  }

  lemma StartOf(s: System, info: NodeInfo, now: int)
    requires info.nodeId in s.nodes && s.nodes[info.nodeId] == Life(info, false, map[], now)
    ensures
      var step := Start(info.nodeId, now);
      && Enabled(s, step)
      && Becomes(s, Next(s, step), info.nodeId, Life(info, true, map[info.nodeId := AliveNow(info, now)], now))
  {
  }

  lemma AnnouncementOf(s: System, info: NodeInfo, members: MemberMap, now: int)
    requires info.nodeId in s.nodes && s.nodes[info.nodeId] == Life(info, true, members, now)
    ensures
      var step := BootstrapPing(info.nodeId);
      && Enabled(s, step)
      && Becomes(s, Next(s, step), info.nodeId, Life(info, true, members, now))
      && Ping(info) in Next(s, step).network
  {
  }

  /** A node boots, starts, and pings its initial peers. */
  lemma JoinInRun(states: seq<System>, steps: seq<Step>, info: NodeInfo, now: int)
    returns (states': seq<System>, steps': seq<Step>)
    requires IsRun(states, steps) && NextLife(states[|steps|], info)
    ensures Extends(states, steps, states', steps')
    ensures Becomes(states[|steps|], states'[|steps'|], info.nodeId,
                    Life(info, true, map[info.nodeId := AliveNow(info, now)], now))
    ensures Ping(info) in states'[|steps'|].network
  {
    var id := info.nodeId;
    BootOf(states[|steps|], info, now);
    states', steps' := StepInRun(states, steps, Boot(id, info.clusterId, info.dataUrl, info.ctrlUrl, now));
    StartOf(states'[|steps'|], info, now);
    states', steps' := StepInRun(states', steps', Start(id, now));
    AnnouncementOf(states'[|steps'|], info, map[id := AliveNow(info, now)], now);
    states', steps' := StepInRun(states', steps', BootstrapPing(id));
  }

  lemma CrashOf(s: System, id: Uuid)
    requires Up(s, id)
    ensures Enabled(s, Crash(id)) && Becomes(s, Next(s, Crash(id)), id, Node(s.nodes[id].disk, None))
  {
  }

  /** A node that is alive in its own eyes hears a Ping of another. */
  lemma PingOf(s: System, self: NodeInfo, members: MemberMap, info: NodeInfo, now: int)
    requires self.nodeId in s.nodes && s.nodes[self.nodeId] == Life(self, true, members, now)
    requires Ping(info) in s.network && info.nodeId != self.nodeId && IsAlive(members, self.nodeId)
    ensures
      var step := Deliver(self.nodeId, Ping(info), now);
      && Enabled(s, step)
      && Becomes(s, Next(s, step), self.nodeId, Life(self, true, Update(members, AliveNow(info, now)), now))
  {
  }

  lemma PingSendOf(s: System, self: NodeInfo, members: MemberMap, peer: NodeInfo, now: int)
    requires self.nodeId in s.nodes && s.nodes[self.nodeId] == Life(self, true, members, now)
    requires Candidate(members, peer)
    ensures
      var step := PingSend(self.nodeId, peer);
      && Enabled(s, step)
      && Becomes(s, Next(s, step), self.nodeId,
                 Node(self.Persistent(), Some(Proc(self, now, true, members, {}, Some(peer), None))))
  {
  }

  lemma TimeoutOf(s: System, self: NodeInfo, members: MemberMap, peer: NodeInfo, now: int)
    requires self.nodeId in s.nodes
    requires s.nodes[self.nodeId] == Node(self.Persistent(), Some(Proc(self, now, true, members, {}, Some(peer), None)))
    ensures
      var step := PingTimeout(self.nodeId, peer);
      && Enabled(s, step)
      && Becomes(s, Next(s, step), self.nodeId, Life(self, true, MarkDead(members, peer), now))
  {
  }

  lemma RemovalOf(s: System, self: NodeInfo, members: MemberMap, now: int, late: int)
    requires self.nodeId in s.nodes && s.nodes[self.nodeId] == Life(self, true, members, now) && now <= late
    ensures
      var readings := map k | k in members :: late;
      var step := RemoveDead(self.nodeId, readings, late);
      && Enabled(s, step)
      && Becomes(s, Next(s, step), self.nodeId, Life(self, true, WithoutExpired(members, readings), late))
  {
  }

  lemma OnlyThePeerExpires(members: MemberMap, peer: NodeInfo, late: int)
    requires Candidate(members, peer) && members[peer.nodeId].heartbeat + MEMBER_DEADLINE < late
    requires forall k :: k in members ==> IsAlive(members, k)
    ensures
      var marked := MarkDead(members, peer);
      WithoutExpired(marked, map k | k in marked :: late) == members - {peer.nodeId}
  {
  }

  /** A node pings a peer in vain and removes it after the deadline, and only that peer. */
  lemma GiveUpInRun(states: seq<System>, steps: seq<Step>, self: NodeInfo, members: MemberMap, peer: NodeInfo,
                    now: int, late: int)
    returns (states': seq<System>, steps': seq<Step>)
    requires IsRun(states, steps)
    requires
      var nodes := states[|steps|].nodes;
      self.nodeId in nodes && nodes[self.nodeId] == Life(self, true, members, now)
    requires Candidate(members, peer) && now <= late && members[peer.nodeId].heartbeat + MEMBER_DEADLINE < late
    requires forall k :: k in members ==> IsAlive(members, k)
    ensures Extends(states, steps, states', steps')
    ensures Becomes(states[|steps|], states'[|steps'|], self.nodeId,
                    Life(self, true, members - {peer.nodeId}, late))
    ensures |steps'| == |steps| + 3 && steps'[|steps| + 1] == PingTimeout(self.nodeId, peer)
    ensures Up(states'[|steps| + 1], self.nodeId) && ProcOf(states'[|steps| + 1], self.nodeId).current == self
  {
    PingSendOf(states[|steps|], self, members, peer, now);
    states', steps' := StepInRun(states, steps, PingSend(self.nodeId, peer));
    TimeoutOf(states'[|steps'|], self, members, peer, now);
    states', steps' := StepInRun(states', steps', PingTimeout(self.nodeId, peer));
    var marked := MarkDead(members, peer);
    var readings := map k | k in marked :: late;
    RemovalOf(states'[|steps'|], self, marked, now, late);
    states', steps' := StepInRun(states', steps', RemoveDead(self.nodeId, readings, late));
    OnlyThePeerExpires(members, peer, late);
  }

  /**
   A run in which a started node gives up on itself and ends with an empty membership, so that the
   random pick of the ping and sync loops has an empty range to pick from.
   */
  lemma SelfTimeoutEmptiesMembership(info: NodeInfo, now: int) returns (states: seq<System>, steps: seq<Step>, k: nat)
    requires info.incarnation == 0
    ensures IsRun(states, steps) && k < |steps| && GivesUpOnSelf(states[k], steps[k], info.nodeId)
    ensures Running(states[|steps|], info.nodeId) && ProcOf(states[|steps|], info.nodeId).members == map[]
  {
    var alone := map[info.nodeId := AliveNow(info, now)];
    assert IsRun([INITIAL], []);
    states, steps := JoinInRun([INITIAL], [], info, now);
    k := |steps| + 1;
    states, steps := GiveUpInRun(states, steps, info, alone, info, now, now + MEMBER_DEADLINE + 1);
    assert alone - {info.nodeId} == map[];
  }

  /** A node lives twice, with a Ping from each life on the network, and an observer starts. */
  lemma TwoLivesInRun(first: NodeInfo, second: NodeInfo, self: NodeInfo, now: int)
    returns (states: seq<System>, steps: seq<Step>)
    requires first.nodeId == second.nodeId != self.nodeId && first.clusterId == second.clusterId
    requires first.incarnation == 0 && second.incarnation == 1 && self.incarnation == 0
    ensures IsRun(states, steps)
    ensures
      var s := states[|steps|];
      && Ping(first) in s.network && Ping(second) in s.network
      && Running(s, second.nodeId) && ProcOf(s, second.nodeId).current == second
      && self.nodeId in s.nodes
      && s.nodes[self.nodeId] == Life(self, true, map[self.nodeId := AliveNow(self, now)], now)
  {
    var id := first.nodeId;
    assert IsRun([INITIAL], []);
    states, steps := JoinInRun([INITIAL], [], first, now);
    CrashOf(states[|steps|], id);
    states, steps := StepInRun(states, steps, Crash(id));
    states, steps := JoinInRun(states, steps, second, now);
    states, steps := JoinInRun(states, steps, self, now);
  }

  /**
   In this run an observer holds a node at incarnation 1, and at the end, while that node still runs
   at incarnation 1, holds it alive at incarnation 0, under the addresses of its earlier life.
   */
  lemma RemovalForgetsIncarnation(first: NodeInfo, second: NodeInfo, self: NodeInfo, now: int)
    returns (states: seq<System>, steps: seq<Step>, k: nat)
    requires first.nodeId == second.nodeId != self.nodeId && first.clusterId == second.clusterId
    requires first.incarnation == 0 && second.incarnation == 1 && self.incarnation == 0
    ensures IsRun(states, steps) && k < |steps|
    ensures Up(states[k], self.nodeId) && Candidate(ProcOf(states[k], self.nodeId).members, second)
    ensures
      var s := states[|steps|];
      && Up(s, self.nodeId) && Candidate(ProcOf(s, self.nodeId).members, first)
      && Running(s, first.nodeId) && ProcOf(s, first.nodeId).current == second
  {
    var late := now + MEMBER_DEADLINE + 1;
    states, steps := TwoLivesInRun(first, second, self, now);
    var alone := map[self.nodeId := AliveNow(self, now)];
    PingOf(states[|steps|], self, alone, second, now);
    states, steps := StepInRun(states, steps, Deliver(self.nodeId, Ping(second), now));
    var both := Update(alone, AliveNow(second, now));
    k := |steps|;
    ghost var seen := states[k];
    states, steps := GiveUpInRun(states, steps, self, both, second, now, late);
    assert states[k] == seen;
    assert both - {first.nodeId} == alone;
    PingOf(states[|steps|], self, alone, first, late);
    states, steps := StepInRun(states, steps, Deliver(self.nodeId, Ping(first), late));
  }

  /* Crashes in the middle */

  /** The process is gone, its disk has the next incarnation, and nobody has heard of it. */
  ghost predicate Lost(s: System, t: System, id: Uuid) {
    && id in s.nodes && id in t.nodes && !Up(t, id)
    && t.nodes[id].disk == s.nodes[id].disk.(incarnation := s.nodes[id].disk.incarnation + 1)
    && t.network == s.network
  }

  /** A process that a message makes advance can die between the write and the publication. */
  lemma CrashBeforePublish(states: seq<System>, steps: seq<Step>, id: Uuid, msg: Message, now: int)
    returns (states': seq<System>, steps': seq<Step>)
    requires IsRun(states, steps) && Timely(states[|steps|], id, now) && msg in states[|steps|].network
    requires Advances(ProcOf(states[|steps|], id), msg, now)
    ensures Extends(states, steps, states', steps') && |steps'| == |steps| + 1
    ensures Lost(states[|steps|], states'[|steps'|], id)
  {
    RunKeepsInv(states, steps, |steps|);
    assert NodeOk(id, states[|steps|].nodes[id]);
    states', steps' := StepInRun(states, steps, DeliverCrash(id, msg, now));
  }

  /** A process that boots again can die right after its write. */
  lemma CrashAtBoot(states: seq<System>, steps: seq<Step>, id: Uuid, clusterId: string, dataUrl: Url, ctrlUrl: Url)
    returns (states': seq<System>, steps': seq<Step>)
    requires IsRun(states, steps) && id in states[|steps|].nodes && !Up(states[|steps|], id)
    ensures Extends(states, steps, states', steps') && |steps'| == |steps| + 1
    ensures Lost(states[|steps|], states'[|steps'|], id)
  {
    states', steps' := StepInRun(states, steps, BootCrash(id, clusterId, dataUrl, ctrlUrl));
  }
}
