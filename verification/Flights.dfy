/**
 Sends in flight: each of the ping and the sync task of a process has at most one, and over every
 stretch of a process's life every send has ended in exactly one answer or timeout, but for the one
 that is still in flight.
 */
module Flights {
  import opened Wrappers
  import opened Nodes
  import opened Members
  import opened Gossip
  import opened Cluster
  import opened EntryLaws

  datatype Task = PingTask | SyncTask

  function Slot(p: Proc, task: Task): Option<NodeInfo> {
    match task
    case PingTask => p.pinging
    case SyncTask => p.syncing
  }

  predicate Launches(step: Step, id: Uuid, task: Task) {
    step.id == id && if task.PingTask? then step.PingSend? else step.SyncSend?
  }

  predicate Lands(step: Step, id: Uuid, task: Task) {
    && step.id == id
    && if task.PingTask? then step.PingReply? || step.PingTimeout? else step.SyncReply? || step.SyncTimeout?
  }

  function InFlight(s: System, id: Uuid, task: Task): nat
    requires Up(s, id)
  {
    if Slot(ProcOf(s, id), task).Some? then 1 else 0
  }

  function One(b: bool): nat {
    if b then 1 else 0
  }

  lemma FlightStep(s: System, step: Step, id: Uuid, task: Task)
    requires Enabled(s, step) && Up(s, id) && Up(Next(s, step), id)
    ensures InFlight(s, id, task) + One(Launches(step, id, task))
         == InFlight(Next(s, step), id, task) + One(Lands(step, id, task))
  {
    if step.id == id {
      OwnFlight(s, step, task);
    }
  }

  lemma OwnFlight(s: System, step: Step, task: Task)
    requires Enabled(s, step) && Up(s, step.id) && Up(Next(s, step), step.id)
    ensures InFlight(s, step.id, task) + One(Launches(step, step.id, task))
         == InFlight(Next(s, step), step.id, task) + One(Lands(step, step.id, task))
  {
  }

  /** How many sends, and how many answers and timeouts, there are from step i to step j. */
  function Launched(steps: seq<Step>, i: nat, j: nat, id: Uuid, task: Task): nat
    requires i <= j <= |steps|
    decreases j
  {
    if i == j then 0 else Launched(steps, i, j - 1, id, task) + One(Launches(steps[j - 1], id, task))
  }

  function Landed(steps: seq<Step>, i: nat, j: nat, id: Uuid, task: Task): nat
    requires i <= j <= |steps|
    decreases j
  {
    if i == j then 0 else Landed(steps, i, j - 1, id, task) + One(Lands(steps[j - 1], id, task))
  }

  lemma FlightRunStep(states: seq<System>, steps: seq<Step>, k: nat, id: Uuid, task: Task)
    requires IsRun(states, steps) && k < |steps| && Up(states[k], id) && Up(states[k + 1], id)
    ensures InFlight(states[k], id, task) + One(Launches(steps[k], id, task))
         == InFlight(states[k + 1], id, task) + One(Lands(steps[k], id, task))
  {
    assert Follows(states, steps, k);
    FlightStep(states[k], steps[k], id, task);
  }

  /** Over every stretch of a process's life, what was in flight and what was sent has landed or is in flight. */
  lemma {:induction false} FlightsBalance(states: seq<System>, steps: seq<Step>, i: nat, j: nat, id: Uuid, task: Task)
    requires IsRun(states, steps) && StaysUp(states, i, j, id)
    ensures InFlight(states[i], id, task) + Launched(steps, i, j, id, task)
         == InFlight(states[j], id, task) + Landed(steps, i, j, id, task)
    decreases j
  {
    if i < j {
      FlightsBalance(states, steps, i, j - 1, id, task);
      assert Up(states[j - 1], id) && Up(states[j], id);
      FlightRunStep(states, steps, j - 1, id, task);
    }
  }

  /**
   From its boot on, a process has had as many answers and timeouts as sends, or one fewer while one
   is in flight: every send ends in exactly one of them.
   */
  lemma EverySendEndsOnce(states: seq<System>, steps: seq<Step>, b: nat, j: nat, id: Uuid, task: Task)
    requires IsRun(states, steps) && b < j <= |steps| && steps[b].Boot? && steps[b].id == id
    requires StaysUp(states, b + 1, j, id)
    ensures Launched(steps, b + 1, j, id, task)
         == Landed(steps, b + 1, j, id, task) + InFlight(states[j], id, task)
  {
    assert Up(states[b + 1], id);
    assert Follows(states, steps, b);
    FlightsBalance(states, steps, b + 1, j, id, task);
  }

  function TimeoutOf(id: Uuid, task: Task, peer: NodeInfo): Step {
    match task
    case PingTask => PingTimeout(id, peer)
    case SyncTask => SyncTimeout(id, peer)
  }

  /** A send in flight can always end in a timeout, which leaves the peer's entry dead unless it is newer. */
  lemma TimeoutIsPossible(states: seq<System>, steps: seq<Step>, id: Uuid, task: Task)
    returns (states': seq<System>, steps': seq<Step>)
    requires IsRun(states, steps) && Up(states[|steps|], id) && Slot(ProcOf(states[|steps|], id), task).Some?
    ensures Extends(states, steps, states', steps') && |steps'| == |steps| + 1 && Lands(steps'[|steps|], id, task)
    ensures Up(states'[|steps'|], id) && Slot(ProcOf(states'[|steps'|], id), task) == None
    ensures
      var peer := Slot(ProcOf(states[|steps|], id), task).value;
      var before, after := ProcOf(states[|steps|], id).members, ProcOf(states'[|steps'|], id).members;
      peer.nodeId in before && before[peer.nodeId].info.incarnation <= peer.incarnation ==> IsDead(after, peer.nodeId)
  {
    var p := ProcOf(states[|steps|], id);
    var peer := Slot(p, task).value;
    states', steps' := StepInRun(states, steps, TimeoutOf(id, task, peer));
    FlightRunStep(states', steps', |steps|, id, task);
    TimeoutEffect(states', steps', |steps|);
    MarkDeadLaw(p.members, peer);
  }
}
