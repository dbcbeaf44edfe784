/**
 Joining: a started node that reaches one running process by its bootstrap ping and Sync ends with the
 membership of that process, alive there itself, and with a ring of all of it.
 */
module Joins {
  import opened Nodes
  import opened Members
  import opened Gossip
  import opened Cluster
  import opened SelfLaws
  import opened RoundTrip
  import opened Origins
  import opened Pings
  import opened Agreement
  import opened Turns

  /** From step k on: A's bootstrap with the one peer B, uninterrupted, and the ring rebuild that ends it. */
  ghost predicate IsJoin(states: seq<System>, steps: seq<Step>, k: nat, a: Uuid, b: Uuid) {
    && IsPingTrip(states, steps, k, a, b) && steps[k].BootstrapPing?
    && IsRoundTrip(states, steps, k + 3, a, b) && steps[k + 3].BootstrapSync?
    && k + 6 < |steps| && steps[k + 6].RebuildRing? && steps[k + 6].id == a
  }

  /** A message takes no entry away and no incarnation back. */
  lemma MessageCovers(states: seq<System>, steps: seq<Step>, k: nat, y: Uuid)
    requires IsRun(states, steps) && k < |steps| && steps[k].Deliver? && Up(states[k], y)
    ensures Up(states[k + 1], y) && Covers(ProcOf(states[k + 1], y).members, ProcOf(states[k], y).members)
  {
    assert Follows(states, steps, k);
    if y != steps[k].id {
      OthersKeep(states[k], steps[k], y);
    } else {
      DeliverHandles(states[k], steps[k]);
      var p := ProcOf(states[k], y);
      forall x | x in p.members
        ensures x in ProcOf(states[k + 1], y).members
        ensures p.members[x].info.incarnation <= ProcOf(states[k + 1], y).members[x].info.incarnation
      {
        HandleMonotone(p.current, p.members, steps[k].msg, steps[k].now, x);
      }
    }
  }

  lemma DeliverHandles(s: System, step: Step)
    requires Enabled(s, step) && step.Deliver?
    ensures Up(Next(s, step), step.id)
    ensures ProcOf(Next(s, step), step.id).members
         == Handle(ProcOf(s, step.id).current, ProcOf(s, step.id).members, step.msg, step.now)
  {
  }

  /** What B held at first it still holds after the ping and its answer. */
  lemma PingCovers(states: seq<System>, steps: seq<Step>, k: nat, a: Uuid, b: Uuid)
    requires IsPingTrip(states, steps, k, a, b) && steps[k].BootstrapPing?
    ensures Up(states[k + 3], b) && Covers(ProcOf(states[k + 3], b).members, ProcOf(states[k], b).members)
  {
    SendKeeps(states, steps, k, b);
    MessageCovers(states, steps, k + 1, b);
    MessageCovers(states, steps, k + 2, b);
  }

  lemma SyncCovers(states: seq<System>, steps: seq<Step>, k: nat, a: Uuid, b: Uuid)
    requires IsRoundTrip(states, steps, k, a, b) && steps[k].BootstrapSync?
    ensures Up(states[k + 3], b) && Covers(ProcOf(states[k + 3], b).members, ProcOf(states[k], b).members)
  {
    SendKeeps(states, steps, k, b);
    MessageCovers(states, steps, k + 1, b);
    MessageCovers(states, steps, k + 2, b);
  }

  lemma StaysSelfAlive(states: seq<System>, steps: seq<Step>, k: nat, a: Uuid, b: Uuid)
    requires IsPingTrip(states, steps, k, a, b) && a != b && SelfAlive(states[k], a)
    ensures SelfAlive(states[k + 3], a)
  {
    SendKeeps(states, steps, k, a);
    HearingKeeps(states, steps, k + 1, a);
    HearingKeeps(states, steps, k + 2, a);
  }

  /** A and B hold the same, each is alive in it, and nothing is lost that was held before. */
  ghost predicate Joined(s: System, a: Uuid, b: Uuid, held: MemberMap) {
    && Running(s, a) && Up(s, b)
    && var pa, pb := ProcOf(s, a), ProcOf(s, b);
       && Agree(a, pa.members, pb.members)
       && Candidate(pa.members, pa.current) && Candidate(pa.members, pb.current)
       && Covers(pa.members, held)
  }

  lemma AgreeingCovers(a: Uuid, ma: MemberMap, mb: MemberMap, middle: MemberMap, held: MemberMap)
    requires Agree(a, ma, mb) && Covers(mb, middle) && Covers(middle, held)
    ensures Covers(ma, held)
  {
  }

  lemma SyncJoins(states: seq<System>, steps: seq<Step>, k: nat, a: Uuid, b: Uuid, held: MemberMap)
    requires IsRoundTrip(states, steps, k, a, b) && steps[k].BootstrapSync? && a != b && SelfAlive(states[k], a)
    requires Covers(ProcOf(states[k], b).members, held)
    ensures Joined(states[k + 3], a, b, held)
  {
    SyncRoundTrip(states, steps, k, a, b);
    SyncCovers(states, steps, k, a, b);
    AgreeingCovers(a, ProcOf(states[k + 3], a).members, ProcOf(states[k + 3], b).members,
                   ProcOf(states[k], b).members, held);
  }

  /**
   In every run, a node that is alive in its own eyes and bootstraps with B ends with B's membership,
   itself in it: both hold the same entries, but for A's own heartbeat at A, with nothing lost that B
   held before; both are alive in both; and A's ring is made of all of it.
   */
  lemma JoinAgrees(states: seq<System>, steps: seq<Step>, k: nat, a: Uuid, b: Uuid)
    requires IsJoin(states, steps, k, a, b) && a != b && SelfAlive(states[k], a)
    ensures Joined(states[k + 7], a, b, ProcOf(states[k], b).members)
    ensures ProcOf(states[k + 7], a).ring == ProcOf(states[k + 7], a).members.Keys
  {
    JoinTrips(states, steps, k, a, b);
    RunKeyed(states, steps, k + 6, a);
    RebuildsExactly(states, steps, k + 6, a);
    RebuildsExactly(states, steps, k + 6, b);
    RebuildKeepsJoined(states[k + 6], states[k + 7], a, b, ProcOf(states[k], b).members);
  }

  lemma JoinTrips(states: seq<System>, steps: seq<Step>, k: nat, a: Uuid, b: Uuid)
    requires IsJoin(states, steps, k, a, b) && a != b && SelfAlive(states[k], a)
    ensures Joined(states[k + 6], a, b, ProcOf(states[k], b).members)
  {
    StaysSelfAlive(states, steps, k, a, b);
    PingCovers(states, steps, k, a, b);
    SyncJoins(states, steps, k + 3, a, b, ProcOf(states[k], b).members);
  }

  lemma RebuildKeepsJoined(s: System, t: System, a: Uuid, b: Uuid, held: MemberMap)
    requires Joined(s, a, b, held) && Steady(s, t, a) && Steady(s, t, b)
    requires ProcOf(t, a).members == ProcOf(s, a).members && ProcOf(t, b).members == ProcOf(s, b).members
    ensures Joined(t, a, b, held)
  {
  }

  /* Any started node can join through any process that is up */

  lemma SendSync(states: seq<System>, steps: seq<Step>, a: Uuid) returns (states': seq<System>, steps': seq<Step>)
    requires IsRun(states, steps) && Running(states[|steps|], a)
    ensures Extends(states, steps, states', steps') && |steps'| == |steps| + 1 && steps'[|steps|] == BootstrapSync(a)
    ensures Sync(Values(ProcOf(states[|steps|], a).members)) in states'[|steps'|].network
    ensures forall y :: Up(states[|steps|], y) ==> SameButSlots(states[|steps|], states'[|steps'|], y)
  {
    var s := states[|steps|];
    SentExactly(s, BootstrapSync(a), Sync(Values(ProcOf(s, a).members)));
    states', steps' := StepInRun(states, steps, BootstrapSync(a));
    forall y | Up(s, y) ensures SameButSlots(s, states'[|steps'|], y) {
      SendAt(s, BootstrapSync(a), y);
    }
  }

  lemma DeliverSync(states: seq<System>, steps: seq<Step>, b: Uuid, msg: Message)
    returns (states': seq<System>, steps': seq<Step>)
    requires IsRun(states, steps) && msg in states[|steps|].network && msg.Sync? && Up(states[|steps|], b)
    ensures Extends(states, steps, states', steps') && |steps'| == |steps| + 1
    ensures steps'[|steps|] == Deliver(b, msg, ProcOf(states[|steps|], b).clock)
    ensures Up(states'[|steps'|], b) && Sync(Values(ProcOf(states'[|steps'|], b).members)) in states'[|steps'|].network
    ensures forall y :: Up(states[|steps|], y) ==>
              Up(states'[|steps'|], y) && ProcOf(states'[|steps'|], y).started == ProcOf(states[|steps|], y).started
  {
    var step := Deliver(b, msg, ProcOf(states[|steps|], b).clock);
    Answers(states[|steps|], step);
    states', steps' := StepInRun(states, steps, step);
  }

  lemma BootstrapSyncIsPossible(states: seq<System>, steps: seq<Step>, a: Uuid, b: Uuid)
    returns (states': seq<System>, steps': seq<Step>)
    requires IsRun(states, steps) && Running(states[|steps|], a) && Up(states[|steps|], b)
    ensures Extends(states, steps, states', steps') && |steps'| == |steps| + 3
    ensures IsRoundTrip(states', steps', |steps|, a, b) && steps'[|steps|].BootstrapSync?
    ensures Running(states'[|steps'|], a)
  {
    var k := |steps|;
    var states1, steps1 := SendSync(states, steps, a);
    var states2, steps2 := DeliverSync(states1, steps1, b, Sync(Values(ProcOf(states[k], a).members)));
    var answer := Sync(Values(ProcOf(states2[k + 2], b).members));
    states', steps' := DeliverSync(states2, steps2, a, answer);
    assert states'[k] == states[k] && states'[k + 2] == states2[k + 2];
  }

  lemma PingLeavesUp(states: seq<System>, steps: seq<Step>, k: nat, a: Uuid, b: Uuid, y: Uuid)
    requires IsPingTrip(states, steps, k, a, b) && steps[k].BootstrapPing? && Up(states[k], y)
    ensures Up(states[k + 3], y) && ProcOf(states[k + 3], y).started == ProcOf(states[k], y).started
  {
    SendKeeps(states, steps, k, y);
    DeliverLeavesUp(states, steps, k + 1, y);
    DeliverLeavesUp(states, steps, k + 2, y);
  }

  lemma DeliverLeavesUp(states: seq<System>, steps: seq<Step>, k: nat, y: Uuid)
    requires IsRun(states, steps) && k < |steps| && steps[k].Deliver? && Up(states[k], y)
    ensures Up(states[k + 1], y) && ProcOf(states[k + 1], y).started == ProcOf(states[k], y).started
  {
    assert Follows(states, steps, k);
  }

  lemma PingTripStays(states: seq<System>, steps: seq<Step>, states': seq<System>, steps': seq<Step>, k: nat, a: Uuid, b: Uuid)
    requires IsPingTrip(states, steps, k, a, b) && Extends(states, steps, states', steps')
    ensures IsPingTrip(states', steps', k, a, b)
  {
  }

  lemma RoundTripStays(states: seq<System>, steps: seq<Step>, states': seq<System>, steps': seq<Step>, k: nat, a: Uuid, b: Uuid)
    requires IsRoundTrip(states, steps, k, a, b) && Extends(states, steps, states', steps')
    ensures IsRoundTrip(states', steps', k, a, b)
  {
  }

  /** Any run can go on with the bootstrap of any started node through any process that is up. */
  lemma JoinIsPossible(states: seq<System>, steps: seq<Step>, a: Uuid, b: Uuid)
    returns (states': seq<System>, steps': seq<Step>)
    requires IsRun(states, steps) && Running(states[|steps|], a) && Up(states[|steps|], b) && a != b
    ensures Extends(states, steps, states', steps') && IsJoin(states', steps', |steps|, a, b)
  {
    var k := |steps|;
    var s := states[k];
    var states1, steps1 := PingTripFrom(states, steps, BootstrapPing(a), b, ProcOf(s, b).clock, ProcOf(s, a).clock);
    assert states1[k] == s;
    PingLeavesUp(states1, steps1, k, a, b, a);
    PingLeavesUp(states1, steps1, k, a, b, b);
    var states2, steps2 := BootstrapSyncIsPossible(states1, steps1, a, b);
    var rebuild := RebuildRing(a, ProcOf(states2[k + 6], a).clock);
    states', steps' := StepInRun(states2, steps2, rebuild);
    PingTripStays(states1, steps1, states', steps', k, a, b);
    RoundTripStays(states2, steps2, states', steps', k + 3, a, b);
  }
}
