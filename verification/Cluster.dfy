/**
 The whole cluster as a transition system. A node is its disk cell and, while it runs, the volatile
 state of its process. Messages form a set that only grows and carries no address, so a message may
 be delayed, repeated, or reach a node that has taken over an old address. Each process reads its
 own clock, which never goes back while the process runs. One step is one synchronous section of
 the gossip runtime, whose single worker (cmd/percas/src/start.rs:97-99) runs it without interruption.
 `Start` is the exception: the code stores the first membership from outside the gossip runtime
 (crates/gossip/src/gossip.rs:104-109), and that no handler has loaded the membership before it and
 stores it after is an assumption of its own.
 */
module Cluster {
  import opened Wrappers
  import opened Nodes
  import opened Members
  import opened Gossip

  /**
   `pinging` and `syncing` hold the peer snapshot of the ping and of the sync in flight; each task
   has at most one. `ring` holds the ids that the ring was last built from.
   */
  datatype Proc = Proc(
    current: NodeInfo,
    clock: int,
    started: bool,
    members: MemberMap,
    ring: set<Uuid>,
    pinging: Option<NodeInfo>,
    syncing: Option<NodeInfo>)

  datatype Node = Node(disk: PersistentNodeInfo, proc: Option<Proc>)

  datatype System = System(nodes: map<Uuid, Node>, network: set<Message>)

  const INITIAL: System := System(map[], {})

  datatype Step =
    | Boot(id: Uuid, clusterId: string, dataUrl: Url, ctrlUrl: Url, now: int)
    // The process dies after its startup wrote the disk and before it runs.
    | BootCrash(id: Uuid, clusterId: string, dataUrl: Url, ctrlUrl: Url)
    | Crash(id: Uuid)
    | Start(id: Uuid, now: int)
    | Deliver(id: Uuid, msg: Message, now: int)
    // The process dies after a handler wrote the advanced incarnation and before it published it.
    | DeliverCrash(id: Uuid, msg: Message, now: int)
    | PingSend(id: Uuid, peer: NodeInfo)
    | PingReply(id: Uuid, msg: Message, now: int)
    | PingTimeout(id: Uuid, peer: NodeInfo)
    | SyncSend(id: Uuid, peer: NodeInfo)
    | SyncReply(id: Uuid, msg: Message, now: int)
    | SyncTimeout(id: Uuid, peer: NodeInfo)
    | BootstrapPing(id: Uuid)
    | BootstrapSync(id: Uuid)
    // One clock reading for each member; `now` is the clock when the step ends.
    | RemoveDead(id: Uuid, readings: map<Uuid, int>, now: int)
    | RebuildRing(id: Uuid, now: int)

  predicate Up(s: System, id: Uuid) {
    id in s.nodes && s.nodes[id].proc.Some?
  }

  function ProcOf(s: System, id: Uuid): Proc
    requires Up(s, id)
  {
    s.nodes[id].proc.value
  }

  predicate Timely(s: System, id: Uuid, now: int) {
    Up(s, id) && ProcOf(s, id).clock <= now
  }

  predicate Running(s: System, id: Uuid) {
    Up(s, id) && ProcOf(s, id).started
  }

  /** The random pick: an entry of the membership that is not dead. */
  predicate Candidate(m: MemberMap, peer: NodeInfo) {
    IsAlive(m, peer.nodeId) && m[peer.nodeId].info == peer
  }

  predicate Enabled(s: System, step: Step) {
    match step
    case Boot(id, _, _, _, _) => !Up(s, id)
    case BootCrash(id, _, _, _) => !Up(s, id)
    case Crash(id) => Up(s, id)
    case Start(id, now) => Timely(s, id, now) && !ProcOf(s, id).started
    case Deliver(id, msg, now) => Timely(s, id, now) && msg in s.network
    case DeliverCrash(id, msg, now) =>
      Timely(s, id, now) && msg in s.network && Advances(ProcOf(s, id), msg, now)
    case PingSend(id, peer) =>
      Running(s, id) && ProcOf(s, id).pinging.None? && Candidate(ProcOf(s, id).members, peer)
    case PingReply(id, msg, now) =>
      Timely(s, id, now) && ProcOf(s, id).pinging.Some? && msg in s.network && msg.Ack?
    case PingTimeout(id, peer) => Up(s, id) && ProcOf(s, id).pinging == Some(peer)
    case SyncSend(id, peer) =>
      Running(s, id) && ProcOf(s, id).syncing.None? && Candidate(ProcOf(s, id).members, peer)
    case SyncReply(id, msg, now) =>
      Timely(s, id, now) && ProcOf(s, id).syncing.Some? && msg in s.network && msg.Sync?
    case SyncTimeout(id, peer) => Up(s, id) && ProcOf(s, id).syncing == Some(peer)
    case BootstrapPing(id) => Running(s, id)
    case BootstrapSync(id) => Running(s, id)
    case RemoveDead(id, readings, now) =>
      && Timely(s, id, now) && Running(s, id)
      && readings.Keys == ProcOf(s, id).members.Keys
      && (forall k :: k in readings ==> ProcOf(s, id).clock <= readings[k] <= now)
    case RebuildRing(id, now) => Timely(s, id, now) && Running(s, id)
  }

  /** The process after it handled a message. */
  function Received(p: Proc, msg: Message, now: int): Proc {
    var m := Handle(p.current, p.members, msg, now);
    p.(members := m, current := Refute(p.current, m), clock := now)
  }

  predicate Advances(p: Proc, msg: Message, now: int) {
    IsDead(Handle(p.current, p.members, msg, now), p.current.nodeId)
  }

  function Booted(s: System, step: Step): NodeInfo
    requires step.Boot? || step.BootCrash?
  {
    BootInfo(if step.id in s.nodes then Some(s.nodes[step.id].disk) else None,
             step.id, step.clusterId, step.dataUrl, step.ctrlUrl)
  }

  function NextNode(s: System, step: Step): Node
    requires Enabled(s, step)
  {
    if step.Boot? then
      var info := Booted(s, step);
      Node(info.Persistent(), Some(Proc(info, step.now, false, map[], {}, None, None)))
    else if step.BootCrash? then
      Node(Booted(s, step).Persistent(), None)
    else
      var n := s.nodes[step.id];
      var p := n.proc.value;
      match step
      case Crash(_) => n.(proc := None)
      case Start(_, now) =>
        n.(proc := Some(p.(started := true, clock := now,
                           members := map[p.current.nodeId := AliveNow(p.current, now)])))
      case Deliver(_, msg, now) => WithProc(n, Received(p, msg, now))
      case DeliverCrash(_, msg, now) => Node(p.current.Advanced().Persistent(), None)
      case PingSend(_, peer) => n.(proc := Some(p.(pinging := Some(peer))))
      case PingReply(_, msg, now) => WithProc(n, Received(p, msg, now).(pinging := None))
      case PingTimeout(_, peer) => n.(proc := Some(p.(pinging := None, members := MarkDead(p.members, peer))))
      case SyncSend(_, peer) => n.(proc := Some(p.(syncing := Some(peer))))
      case SyncReply(_, msg, now) => WithProc(n, Received(p, msg, now).(syncing := None))
      case SyncTimeout(_, peer) => n.(proc := Some(p.(syncing := None, members := MarkDead(p.members, peer))))
      case BootstrapPing(_) => n
      case BootstrapSync(_) => n
      case RemoveDead(_, readings, now) =>
        n.(proc := Some(p.(clock := now, members := WithoutExpired(p.members, readings))))
      case RebuildRing(_, now) => n.(proc := Some(p.(clock := now, ring := RingIds(p.current, p.members))))
  }

  /** The node with this process; the disk is written exactly if the process advanced its own info. */
  function WithProc(n: Node, p: Proc): Node
    requires n.proc.Some?
  {
    Node(if p.current == n.proc.value.current then n.disk else p.current.Persistent(), Some(p))
  }

  function Sent(s: System, step: Step): set<Message>
    requires Enabled(s, step)
  {
    match step
    case Deliver(id, msg, now) =>
      var p := ProcOf(s, id);
      (match Reply(p.current, Handle(p.current, p.members, msg, now), msg)
       case Some(reply) => {reply}
       case None => {})
    case PingSend(id, _) => {Ping(ProcOf(s, id).current)}
    case SyncSend(id, _) => {Sync(Values(ProcOf(s, id).members))}
    case BootstrapPing(id) => {Ping(ProcOf(s, id).current)}
    case BootstrapSync(id) => {Sync(Values(ProcOf(s, id).members))}
    case _ => {}
  }

  function Next(s: System, step: Step): System
    requires Enabled(s, step)
  {
    System(s.nodes[step.id := NextNode(s, step)], s.network + Sent(s, step))
  }

  /** Step `i` could be taken in state `i` and leads to the state after it. */
  ghost predicate Follows(states: seq<System>, steps: seq<Step>, i: int)
    requires |states| == |steps| + 1 && 0 <= i < |steps|
  {
    Enabled(states[i], steps[i]) && states[i + 1] == Next(states[i], steps[i])
  }

  /** A run: states from the empty system, each the result of the next step. */
  ghost predicate IsRun(states: seq<System>, steps: seq<Step>) {
    && |states| == |steps| + 1
    && states[0] == INITIAL
    && forall i :: 0 <= i < |steps| ==> Follows(states, steps, i)
  }

  /** A run that begins with this one. */
  ghost predicate Extends(states: seq<System>, steps: seq<Step>, states': seq<System>, steps': seq<Step>) {
    IsRun(states', steps') && states <= states' && steps <= steps'
  }

  /** One more step makes a longer run. */
  lemma ExtendRun(states: seq<System>, steps: seq<Step>, step: Step, t: System)
    requires IsRun(states, steps) && Enabled(states[|steps|], step) && t == Next(states[|steps|], step)
    ensures IsRun(states + [t], steps + [step])
  {
    forall i | 0 <= i < |steps + [step]| ensures Follows(states + [t], steps + [step], i) {
      if i < |steps| {
        assert Follows(states, steps, i);
      }
    }
  }

  lemma StepInRun(states: seq<System>, steps: seq<Step>, step: Step) returns (states': seq<System>, steps': seq<Step>)
    requires IsRun(states, steps) && Enabled(states[|steps|], step)
    ensures Extends(states, steps, states', steps') && |steps'| == |steps| + 1
    ensures states'[|steps'|] == Next(states[|steps|], step) && steps'[|steps|] == step
  {
    var t := Next(states[|steps|], step);
    ExtendRun(states, steps, step, t);
    states', steps' := states + [t], steps + [step];
  }
}
