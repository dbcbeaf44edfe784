/**
 Pings: what a ping and its answer record at both ends, the node itself as its own peer included,
 and that a started node can always make such a ping.
 */
module Pings {
  import opened Wrappers
  import opened Nodes
  import opened Gossip
  import opened Cluster
  import opened Provenance
  import opened SelfLaws
  import opened RoundTrip
  import opened Origins

  /** A node pings and takes the answer: the two ends of `ping`, or of a bootstrap ping. */
  predicate PingsAndTakes(ask: Step, take: Step, a: Uuid) {
    && ask.id == a && take.id == a
    && ((ask.PingSend? && take.PingReply?) || (ask.BootstrapPing? && take.Deliver?))
  }

  /** Steps k, k+1 and k+2 are A's Ping to B, its delivery at B, and B's Ack at A; B may be A. */
  ghost predicate IsPingTrip(states: seq<System>, steps: seq<Step>, k: nat, a: Uuid, b: Uuid) {
    && IsRun(states, steps) && k + 2 < |steps|
    && PingsAndTakes(steps[k], steps[k + 2], a)
    && Up(states[k], a) && Up(states[k], b) && Up(states[k + 1], b)
    && steps[k + 1].Deliver? && steps[k + 1].id == b
    && steps[k + 1].msg == Ping(ProcOf(states[k], a).current)
    && steps[k + 2].msg == Ack(ProcOf(states[k + 1], b).current)
  }

  /** A process as it was, but for its slots. */
  ghost predicate SameButSlots(s: System, t: System, y: Uuid) {
    && Up(s, y) && Up(t, y)
    && ProcOf(t, y) == ProcOf(s, y).(pinging := ProcOf(t, y).pinging, syncing := ProcOf(t, y).syncing)
  }

  predicate IsSend(step: Step) {
    step.PingSend? || step.SyncSend? || step.BootstrapPing? || step.BootstrapSync?
  }

  lemma SendKeeps(states: seq<System>, steps: seq<Step>, k: nat, y: Uuid)
    requires IsRun(states, steps) && k < |steps| && IsSend(steps[k]) && Up(states[k], y)
    ensures SameButSlots(states[k], states[k + 1], y)
  {
    assert Follows(states, steps, k);
    SendAt(states[k], steps[k], y);
  }

  /** From `s` to `t` a node that is alive in its own eyes has heard a message: nobody's info changes. */
  ghost predicate Heard(s: System, t: System, id: Uuid, y: Uuid) {
    && Up(s, y) && Up(t, y)
    && ProcOf(t, y).current == ProcOf(s, y).current
    && (SelfAlive(s, y) ==> SelfAlive(t, y))
    && (y != id ==> ProcOf(t, y) == ProcOf(s, y))
  }

  lemma OthersKeep(s: System, step: Step, y: Uuid)
    requires Enabled(s, step) && Up(s, y) && step.id != y
    ensures Up(Next(s, step), y) && ProcOf(Next(s, step), y) == ProcOf(s, y)
  {
  }

  lemma HearingKeeps(states: seq<System>, steps: seq<Step>, k: nat, y: Uuid)
    requires IsRun(states, steps) && k < |steps|
    requires (steps[k].Deliver? || steps[k].PingReply?) && Up(states[k], y)
    requires SelfAlive(states[k], steps[k].id) || y != steps[k].id
    ensures Heard(states[k], states[k + 1], steps[k].id, y)
  {
    assert Follows(states, steps, k);
    if y != steps[k].id {
      OthersKeep(states[k], steps[k], y);
    } else {
      RunStepSelf(states, steps, k, y);
      RunKeepsInv(states, steps, k);
      HandleKeepsSelf(states[k], y, steps[k].msg, steps[k].now);
      ReceiveKeeps(states[k], steps[k]);
    }
  }

  lemma ReceiveKeeps(s: System, step: Step)
    requires Enabled(s, step) && (step.Deliver? || step.PingReply?)
    requires !Advances(ProcOf(s, step.id), step.msg, step.now)
    ensures Up(Next(s, step), step.id) && ProcOf(Next(s, step), step.id).current == ProcOf(s, step.id).current
  {
  }

  /** The receiver of the Ping has the sender down as alive. */
  lemma PingIsRecorded(states: seq<System>, steps: seq<Step>, k: nat, a: Uuid, b: Uuid)
    requires IsPingTrip(states, steps, k, a, b)
    ensures Recorded(states[k + 2], b, a, steps[k + 1].now)
  {
    SendKeeps(states, steps, k, a);
    KnowsOwnId(states, steps, k, a);
    HearingRecords(states, steps, k + 1, b, a);
  }

  lemma KnowsOwnId(states: seq<System>, steps: seq<Step>, k: nat, id: Uuid)
    requires IsRun(states, steps) && k <= |steps| && Up(states[k], id)
    ensures ProcOf(states[k], id).current.nodeId == id
  {
    RunKeepsInv(states, steps, k);
    assert NodeOk(id, states[k].nodes[id]);
  }

  /** The sender has the answering node down as alive. */
  lemma AckIsRecorded(states: seq<System>, steps: seq<Step>, k: nat, a: Uuid, b: Uuid)
    requires IsPingTrip(states, steps, k, a, b) && SelfAlive(states[k], b)
    ensures SelfAlive(states[k + 2], b) && Heard(states[k + 1], states[k + 2], b, b)
    ensures Recorded(states[k + 3], a, b, steps[k + 2].now)
  {
    SendKeeps(states, steps, k, b);
    HearingKeeps(states, steps, k + 1, b);
    KnowsOwnId(states, steps, k + 1, b);
    HearingRecords(states, steps, k + 2, a, b);
  }

  /** Two readings of one process, one step apart. */
  lemma NextReading(states: seq<System>, steps: seq<Step>, k: nat)
    requires IsRun(states, steps) && k + 1 < |steps| && steps[k].id == steps[k + 1].id
    requires steps[k].Deliver? && (steps[k + 1].Deliver? || steps[k + 1].PingReply?)
    ensures steps[k].now <= steps[k + 1].now
  {
    assert Follows(states, steps, k) && Follows(states, steps, k + 1);
  }

  lemma BothStayRecorded(states: seq<System>, steps: seq<Step>, k: nat, a: Uuid, b: Uuid)
    requires IsPingTrip(states, steps, k, a, b) && SelfAlive(states[k], a) && SelfAlive(states[k], b)
    ensures SelfAlive(states[k + 3], a) && SelfAlive(states[k + 3], b)
    ensures Recorded(states[k + 3], b, a, steps[k + 1].now)
  {
    PingIsRecorded(states, steps, k, a, b);
    AckIsRecorded(states, steps, k, a, b);
    SendKeeps(states, steps, k, a);
    HearingKeeps(states, steps, k + 1, a);
    HearingKeeps(states, steps, k + 2, a);
    HearingKeeps(states, steps, k + 2, b);
    if a == b {
      NextReading(states, steps, k + 1);
    }
  }

  lemma SlotIsFree(states: seq<System>, steps: seq<Step>, k: nat, a: Uuid)
    requires IsRun(states, steps) && k < |steps| && steps[k].PingReply? && steps[k].id == a
    ensures Up(states[k + 1], a) && ProcOf(states[k + 1], a).pinging == None
  {
    assert Follows(states, steps, k);
  }

  /**
   In every run, a Ping that reaches B and an Ack that comes back make each of the two record the
   other as alive under its current info from then, if neither is dead in its own eyes; then neither
   is afterwards, and the ping is no longer in flight. This holds for a node that pings itself too.
   */
  lemma PingTrip(states: seq<System>, steps: seq<Step>, k: nat, a: Uuid, b: Uuid)
    requires IsPingTrip(states, steps, k, a, b)
    ensures Recorded(states[k + 2], b, a, steps[k + 1].now)
    ensures SelfAlive(states[k], b) ==> Recorded(states[k + 3], a, b, steps[k + 2].now)
    ensures SelfAlive(states[k], a) && SelfAlive(states[k], b) ==>
              && SelfAlive(states[k + 3], a) && SelfAlive(states[k + 3], b)
              && Recorded(states[k + 3], b, a, steps[k + 1].now)
    ensures steps[k].PingSend? ==> Up(states[k + 3], a) && ProcOf(states[k + 3], a).pinging == None
  {
    PingIsRecorded(states, steps, k, a, b);
    if SelfAlive(states[k], b) {
      AckIsRecorded(states, steps, k, a, b);
      if SelfAlive(states[k], a) {
        BothStayRecorded(states, steps, k, a, b);
      }
    }
    if steps[k].PingSend? {
      SlotIsFree(states, steps, k + 2, a);
    }
  }

  /* Such a trip is always possible */

  /** What a Deliver of a Ping leaves for the sender to take. */
  lemma PingAnswered(s: System, b: Uuid, info: NodeInfo, now: int)
    requires Enabled(s, Deliver(b, Ping(info), now))
    ensures
      var t := Next(s, Deliver(b, Ping(info), now));
      && Ack(ProcOf(s, b).current) in t.network
      && (forall y :: Up(s, y) ==>
            && Up(t, y) && ProcOf(t, y).pinging == ProcOf(s, y).pinging
            && ProcOf(t, y).started == ProcOf(s, y).started
            && ProcOf(t, y).clock == if y == b then now else ProcOf(s, y).clock)
  {
    SentExactly(s, Deliver(b, Ping(info), now), Ack(ProcOf(s, b).current));
  }

  lemma DeliverPing(states: seq<System>, steps: seq<Step>, b: Uuid, info: NodeInfo, now: int)
    returns (states': seq<System>, steps': seq<Step>)
    requires IsRun(states, steps) && Ping(info) in states[|steps|].network && Timely(states[|steps|], b, now)
    ensures Extends(states, steps, states', steps') && |steps'| == |steps| + 1
    ensures steps'[|steps|] == Deliver(b, Ping(info), now)
    ensures Ack(ProcOf(states[|steps|], b).current) in states'[|steps'|].network
    ensures forall y :: Up(states[|steps|], y) ==>
              var s, t := states[|steps|], states'[|steps'|];
              && Up(t, y) && ProcOf(t, y).pinging == ProcOf(s, y).pinging
              && ProcOf(t, y).started == ProcOf(s, y).started
              && ProcOf(t, y).clock == if y == b then now else ProcOf(s, y).clock
  {
    PingAnswered(states[|steps|], b, info, now);
    states', steps' := StepInRun(states, steps, Deliver(b, Ping(info), now));
  }

  /** A ping, or a bootstrap ping, is on the network for anyone to hear. */
  lemma SendPing(states: seq<System>, steps: seq<Step>, ask: Step) returns (states': seq<System>, steps': seq<Step>)
    requires IsRun(states, steps) && (ask.PingSend? || ask.BootstrapPing?) && Enabled(states[|steps|], ask)
    ensures Extends(states, steps, states', steps') && |steps'| == |steps| + 1 && steps'[|steps|] == ask
    ensures Ping(ProcOf(states[|steps|], ask.id).current) in states'[|steps'|].network
    ensures forall y :: Up(states[|steps|], y) ==> SameButSlots(states[|steps|], states'[|steps'|], y)
    ensures Up(states'[|steps'|], ask.id)
    ensures ask.PingSend? ==> ProcOf(states'[|steps'|], ask.id).pinging == Some(ask.peer)
  {
    var s := states[|steps|];
    SentExactly(s, ask, Ping(ProcOf(s, ask.id).current));
    states', steps' := StepInRun(states, steps, ask);
    forall y | Up(s, y) ensures SameButSlots(s, states'[|steps'|], y) {
      SendAt(s, ask, y);
    }
    SendSlot(s, ask);
  }

  lemma SendAt(s: System, ask: Step, y: Uuid)
    requires Enabled(s, ask) && IsSend(ask) && Up(s, y)
    ensures SameButSlots(s, Next(s, ask), y)
  {
  }

  lemma SendSlot(s: System, ask: Step)
    requires Enabled(s, ask) && IsSend(ask)
    ensures Up(Next(s, ask), ask.id)
    ensures ask.PingSend? ==> ProcOf(Next(s, ask), ask.id).pinging == Some(ask.peer)
    ensures ask.SyncSend? ==> ProcOf(Next(s, ask), ask.id).syncing == Some(ask.peer)
  {
  }

  /** How node `a` can begin a ping, and end it with this message. */
  function TakesAck(ask: Step, msg: Message, now: int): Step {
    if ask.PingSend? then PingReply(ask.id, msg, now) else Deliver(ask.id, msg, now)
  }

  lemma PingTripFrom(states: seq<System>, steps: seq<Step>, ask: Step, b: Uuid, nowB: int, nowA: int)
    returns (states': seq<System>, steps': seq<Step>)
    requires IsRun(states, steps) && (ask.PingSend? || ask.BootstrapPing?) && Enabled(states[|steps|], ask)
    requires Timely(states[|steps|], b, nowB) && Timely(states[|steps|], ask.id, nowA) && (ask.id == b ==> nowB <= nowA)
    ensures Extends(states, steps, states', steps') && |steps'| == |steps| + 3
    ensures steps'[|steps|] == ask && IsPingTrip(states', steps', |steps|, ask.id, b)
    ensures steps'[|steps| + 1].now == nowB && steps'[|steps| + 2].now == nowA
  {
    var k, a := |steps|, ask.id;
    var s := states[k];
    var states1, steps1 := SendPing(states, steps, ask);
    var states2, steps2 := DeliverPing(states1, steps1, b, ProcOf(s, a).current, nowB);
    var answer := Ack(ProcOf(states1[k + 1], b).current);
    var take := TakesAck(ask, answer, nowA);
    assert Enabled(states2[k + 2], take);
    states', steps' := StepInRun(states2, steps2, take);
    assert states'[k] == s && states'[k + 1] == states1[k + 1];
  }

  /**
   Any run can go on with a ping by a started node that has none in flight, to any alive entry of its
   membership whose process is up, itself included, with its delivery and with the Ack taken.
   */
  lemma PingIsPossible(states: seq<System>, steps: seq<Step>, a: Uuid, peer: NodeInfo, nowB: int, nowA: int)
    returns (states': seq<System>, steps': seq<Step>)
    requires IsRun(states, steps)
    requires
      var s := states[|steps|];
      && Running(s, a) && ProcOf(s, a).pinging == None && Candidate(ProcOf(s, a).members, peer)
      && Timely(s, peer.nodeId, nowB) && Timely(s, a, nowA) && (a == peer.nodeId ==> nowB <= nowA)
    ensures Extends(states, steps, states', steps') && |steps'| == |steps| + 3
    ensures steps'[|steps|] == PingSend(a, peer) && IsPingTrip(states', steps', |steps|, a, peer.nodeId)
    ensures steps'[|steps| + 1].now == nowB && steps'[|steps| + 2].now == nowA
  {
    states', steps' := PingTripFrom(states, steps, PingSend(a, peer), peer.nodeId, nowB, nowA);
  }
}
