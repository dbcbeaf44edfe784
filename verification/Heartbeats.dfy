/**
 Heartbeats: which clock reading each step writes, that over every run every heartbeat is the reading
 of an earlier step at which its node gave a sign of life, and that a dead entry does not outlive
 the last such sign by more than the deadline.
 */
module Heartbeats {
  import opened Nodes
  import opened Members
  import opened MergeLaws
  import opened Gossip
  import opened Cluster
  import opened Provenance
  import opened EntryLaws

  /* What one step writes */

  /** The membership changes at this key only. */
  ghost predicate OnlyAt(before: MemberMap, after: MemberMap, x: Uuid) {
    forall y :: y != x ==> (y in after <==> y in before) && (y in after ==> after[y] == before[y])
  }

  ghost predicate Newer(m: MemberMap, info: NodeInfo) {
    info.nodeId !in m || m[info.nodeId].info.incarnation < info.incarnation
  }

  ghost predicate Level(m: MemberMap, info: NodeInfo) {
    info.nodeId in m && m[info.nodeId].info.incarnation == info.incarnation
  }

  /**
   A Ping or an Ack: a new or newer node is entered as alive with the clock reading; at the same
   incarnation the entry becomes alive and its heartbeat the larger of the old one and the reading;
   an older report, and every other entry, is left alone.
   */
  lemma HeardExactly(states: seq<System>, steps: seq<Step>, k: nat, id: Uuid, x: Uuid)
    requires IsRun(states, steps) && k < |steps| && Hears(steps[k], id, x)
    ensures Up(states[k], id) && Up(states[k + 1], id)
    ensures
      var before, after := ProcOf(states[k], id).members, ProcOf(states[k + 1], id).members;
      var info, now := steps[k].msg.info, steps[k].now;
      && OnlyAt(before, after, x)
      && (Newer(before, info) ==> x in after && after[x] == MemberState(info, Alive, now))
      && (Level(before, info) ==>
            && x in after && after[x].info == before[x].info && after[x].status == Alive
            && after[x].heartbeat == if now <= before[x].heartbeat then before[x].heartbeat else now)
      && (!Newer(before, info) && !Level(before, info) ==> after == before)
  {
    assert Follows(states, steps, k);
    HeardAtStep(states[k], steps[k], x);
    var info := steps[k].msg.info;
    var before := ProcOf(states[k], id).members;
    if !Newer(before, info) && !Level(before, info) {
      assert Update(before, AliveNow(info, steps[k].now)) == before;
    }
  }

  lemma HeardAtStep(s: System, step: Step, x: Uuid)
    requires Enabled(s, step) && Hears(step, step.id, x)
    ensures Up(Next(s, step), step.id)
    ensures ProcOf(Next(s, step), step.id).members
         == Update(ProcOf(s, step.id).members, AliveNow(step.msg.info, step.now))
  {
  }

  /** The first membership of a process is the node alone, alive, with the clock reading. */
  lemma StartsAlone(states: seq<System>, steps: seq<Step>, k: nat)
    requires IsRun(states, steps) && k < |steps| && steps[k].Start?
    ensures Running(states[k + 1], steps[k].id)
    ensures
      var id := steps[k].id;
      var p := ProcOf(states[k + 1], id);
      p.current.nodeId == id && p.members == map[id := MemberState(p.current, Alive, steps[k].now)]
  {
    assert Follows(states, steps, k);
    RunKeepsInv(states, steps, k);
    assert NodeOk(steps[k].id, states[k].nodes[steps[k].id]);
  }

  /** A heartbeat that a Sync and the membership it arrives at hold for the node's own current info. */
  ghost predicate HeldFor(m: MemberMap, reports: seq<MemberState>, current: NodeInfo, t: int) {
    || (current.nodeId in m && m[current.nodeId].info.incarnation == current.incarnation
        && m[current.nodeId].heartbeat == t)
    || (exists i :: About(reports, current.nodeId, i) && reports[i].info.incarnation == current.incarnation
                    && reports[i].heartbeat == t)
  }

  /** At the node's own incarnation, the merged heartbeat is one of those held, and the largest. */
  ghost predicate LargestHeld(m: MemberMap, reports: seq<MemberState>, current: NodeInfo, merged: MemberMap) {
    var id := current.nodeId;
    if id in merged && merged[id].info.incarnation == current.incarnation then
      && HeldFor(m, reports, current, merged[id].heartbeat)
      && (forall t :: HeldFor(m, reports, current, t) ==> t <= merged[id].heartbeat)
    else
      forall t :: !HeldFor(m, reports, current, t)
  }

  /** No entry or report about the node outruns its current incarnation. */
  ghost predicate NothingAbove(m: MemberMap, reports: seq<MemberState>, current: NodeInfo) {
    && (current.nodeId in m ==> m[current.nodeId].info.incarnation <= current.incarnation)
    && (forall i :: About(reports, current.nodeId, i) ==> reports[i].info.incarnation <= current.incarnation)
  }

  lemma HeldForMore(m: MemberMap, reports: seq<MemberState>, current: NodeInfo, t: int)
    requires reports != []
    ensures
      var last := reports[|reports| - 1];
      HeldFor(m, reports, current, t) <==>
        || HeldFor(m, reports[..|reports| - 1], current, t)
        || (last.info.nodeId == current.nodeId && last.info.incarnation == current.incarnation && last.heartbeat == t)
  {
    var n := |reports| - 1;
    var before := reports[..n];
    if HeldFor(m, before, current, t) {
      if i :| About(before, current.nodeId, i) && before[i].info.incarnation == current.incarnation && before[i].heartbeat == t {
        assert About(reports, current.nodeId, i) && reports[i] == before[i];
      }
    }
    if i :| About(reports, current.nodeId, i) && reports[i].info.incarnation == current.incarnation && reports[i].heartbeat == t {
      if i < n {
        assert About(before, current.nodeId, i) && before[i] == reports[i];
      }
    }
    assert reports[n].info.nodeId == current.nodeId ==> About(reports, current.nodeId, n);
  }

  lemma {:induction false} MergedOwn(m: MemberMap, reports: seq<MemberState>, current: NodeInfo)
    requires NothingAbove(m, reports, current)
    ensures LargestHeld(m, reports, current, UpdateAll(m, reports))
    ensures current.nodeId in UpdateAll(m, reports) ==>
              UpdateAll(m, reports)[current.nodeId].info.incarnation <= current.incarnation
  {
    if reports != [] {
      var n := |reports| - 1;
      var before := reports[..n];
      assert forall i :: About(before, current.nodeId, i) ==> About(reports, current.nodeId, i) && reports[i] == before[i];
      MergedOwn(m, before, current);
      assert reports[n].info.nodeId == current.nodeId ==> About(reports, current.nodeId, n);
      forall t: int ensures HeldFor(m, reports, current, t) <==>
          || HeldFor(m, before, current, t)
          || (reports[n].info.nodeId == current.nodeId && reports[n].info.incarnation == current.incarnation
              && reports[n].heartbeat == t)
      {
        HeldForMore(m, reports, current, t);
      }
    }
  }

  /**
   After a Sync the receiver's own entry is alive under its current info, with the largest of the
   clock reading and the heartbeats that it or the Sync held for that info.
   */
  lemma SyncOwnExactly(states: seq<System>, steps: seq<Step>, k: nat)
    requires IsRun(states, steps) && k < |steps| && (steps[k].Deliver? || steps[k].SyncReply?) && steps[k].msg.Sync?
    ensures Up(states[k], steps[k].id) && Up(states[k + 1], steps[k].id)
    ensures
      var id := steps[k].id;
      var p, after := ProcOf(states[k], id), ProcOf(states[k + 1], id).members;
      && id in after && after[id].info == p.current && after[id].status == Alive
      && steps[k].now <= after[id].heartbeat
      && (after[id].heartbeat == steps[k].now || HeldFor(p.members, steps[k].msg.members, p.current, after[id].heartbeat))
      && (forall t :: HeldFor(p.members, steps[k].msg.members, p.current, t) ==> t <= after[id].heartbeat)
  {
    RunKeepsInv(states, steps, k);
    assert Follows(states, steps, k);
    SyncOwnStep(states[k], steps[k]);
  }

  lemma SyncOwnStep(s: System, step: Step)
    requires Inv(s) && Enabled(s, step) && (step.Deliver? || step.SyncReply?) && step.msg.Sync?
    ensures Up(Next(s, step), step.id)
    ensures
      var id := step.id;
      var p, after := ProcOf(s, id), ProcOf(Next(s, step), id).members;
      && id in after && after[id].info == p.current && after[id].status == Alive
      && step.now <= after[id].heartbeat
      && (after[id].heartbeat == step.now || HeldFor(p.members, step.msg.members, p.current, after[id].heartbeat))
      && (forall t :: HeldFor(p.members, step.msg.members, p.current, t) ==> t <= after[id].heartbeat)
  {
    var p := ProcOf(s, step.id);
    OwnRecordsAreOlder(s, step.id, step.msg);
    MergedOwn(p.members, step.msg.members, p.current);
    SyncedHere(s, step);
    OwnInfoMerged(s, step.id, step.msg);
  }

  lemma SyncedHere(s: System, step: Step)
    requires Enabled(s, step) && (step.Deliver? || step.SyncReply?) && step.msg.Sync?
    ensures Up(Next(s, step), step.id)
    ensures ProcOf(Next(s, step), step.id).members
         == Update(UpdateAll(ProcOf(s, step.id).members, step.msg.members), AliveNow(ProcOf(s, step.id).current, step.now))
  {
  }

  lemma OwnRecordsAreOlder(s: System, id: Uuid, msg: Message)
    requires Inv(s) && Up(s, id) && msg in s.network && msg.Sync?
    ensures ProcOf(s, id).current.nodeId == id
    ensures NothingAbove(ProcOf(s, id).members, msg.members, ProcOf(s, id).current)
  {
    var p := ProcOf(s, id);
    assert NodeOk(id, s.nodes[id]);
    if id in p.members {
      assert p.members[id].info in NodeInfos(s.nodes[id]);
    }
    forall i | About(msg.members, id, i) ensures msg.members[i].info.incarnation <= p.current.incarnation {
      assert msg.members[i] in msg.members;
      assert msg.members[i].info in MessageInfos(msg);
    }
  }

  /** What the merge holds of the node at its own incarnation is its current info. */
  lemma OwnInfoMerged(s: System, id: Uuid, msg: Message)
    requires Inv(s) && Up(s, id) && msg in s.network && msg.Sync?
    ensures
      var p := ProcOf(s, id);
      var merged := UpdateAll(p.members, msg.members);
      id in merged && merged[id].info.incarnation == p.current.incarnation ==> merged[id].info == p.current
  {
    var p := ProcOf(s, id);
    var merged := UpdateAll(p.members, msg.members);
    assert NodeOk(id, s.nodes[id]);
    UpdateAllKeyed(p.members, msg.members);
    UpdateAllInfos(p.members, msg.members);
    if id in merged {
      assert merged[id].info in MemberInfos(merged);
      assert merged[id].info in NodeInfos(s.nodes[id]) || merged[id].info in MessageInfos(msg);
      assert p.current in NodeInfos(s.nodes[id]);
    }
  }

  /* Where heartbeats come from */

  /** A sign of life of node `x`: some process hears a Ping or an Ack of it, or it starts or handles a Sync itself. */
  predicate SignOfLife(step: Step, x: Uuid) {
    || (step.Start? && step.id == x)
    || ((step.Deliver? || step.PingReply? || step.SyncReply?)
        && if step.msg.Sync? then step.id == x else step.msg.info.nodeId == x)
  }

  ghost predicate MapHas(m: MemberMap, x: Uuid, t: int) {
    x in m && m[x].heartbeat == t
  }

  ghost predicate ReportsHave(reports: seq<MemberState>, x: Uuid, t: int) {
    exists i :: About(reports, x, i) && reports[i].heartbeat == t
  }

  ghost predicate NodeHas(n: Node, x: Uuid, t: int) {
    n.proc.Some? && MapHas(n.proc.value.members, x, t)
  }

  ghost predicate MessageHas(msg: Message, x: Uuid, t: int) {
    msg.Sync? && ReportsHave(msg.members, x, t)
  }

  /** Some membership or some Sync holds this heartbeat for node `x`. */
  ghost predicate Held(s: System, x: Uuid, t: int) {
    || (exists id :: id in s.nodes && NodeHas(s.nodes[id], x, t))
    || (exists msg :: msg in s.network && MessageHas(msg, x, t))
  }

  lemma UpdateHas(m: MemberMap, r: MemberState, x: Uuid, t: int)
    requires MapHas(Update(m, r), x, t)
    ensures MapHas(m, x, t) || (r.info.nodeId == x && r.heartbeat == t)
  {
  }

  lemma {:induction false} UpdateAllHas(m: MemberMap, reports: seq<MemberState>, x: Uuid, t: int)
    requires MapHas(UpdateAll(m, reports), x, t)
    ensures MapHas(m, x, t) || ReportsHave(reports, x, t)
  {
    if reports != [] {
      var n := |reports| - 1;
      UpdateHas(UpdateAll(m, reports[..n]), reports[n], x, t);
      if MapHas(UpdateAll(m, reports[..n]), x, t) {
        UpdateAllHas(m, reports[..n], x, t);
        if i :| About(reports[..n], x, i) && reports[..n][i].heartbeat == t {
          assert About(reports, x, i) && reports[i].heartbeat == t;
        }
      } else {
        assert About(reports, x, n);
      }
    }
  }

  lemma ValuesHave(m: MemberMap, x: Uuid, t: int)
    requires Keyed(m) && ReportsHave(Values(m), x, t)
    ensures MapHas(m, x, t)
  {
  }

  lemma HandleHas(current: NodeInfo, m: MemberMap, msg: Message, now: int, x: Uuid, t: int)
    requires MapHas(Handle(current, m, msg, now), x, t)
    ensures
      || MapHas(m, x, t)
      || MessageHas(msg, x, t)
      || (t == now && x == if msg.Sync? then current.nodeId else msg.info.nodeId)
  {
    match msg {
      case Ping(info) => UpdateHas(m, AliveNow(info, now), x, t);
      case Ack(info) => UpdateHas(m, AliveNow(info, now), x, t);
      case Sync(reports) =>
        UpdateHas(UpdateAll(m, reports), AliveNow(current, now), x, t);
        if MapHas(UpdateAll(m, reports), x, t) {
          UpdateAllHas(m, reports, x, t);
        }
    }
  }

  lemma NodeHeartbeat(s: System, step: Step, x: Uuid, t: int)
    requires Inv(s) && Enabled(s, step) && NodeHas(NextNode(s, step), x, t)
    ensures Held(s, x, t) || (SignOfLife(step, x) && step.now == t)
  {
    if step.Boot? || step.BootCrash? {
      return;
    }
    var n := s.nodes[step.id];
    var p := n.proc.value;
    assert NodeOk(step.id, n);
    if step.Deliver? || step.PingReply? || step.SyncReply? {
      HandleHas(p.current, p.members, step.msg, step.now, x, t);
    } else if !step.Start? {
      NodeHadHeartbeat(s, step, x, t);
    }
  }

  /** All other steps keep the heartbeats they keep, timeouts included. */
  lemma NodeHadHeartbeat(s: System, step: Step, x: Uuid, t: int)
    requires Enabled(s, step) && NodeHas(NextNode(s, step), x, t)
    requires !(step.Boot? || step.BootCrash? || step.Deliver? || step.PingReply? || step.SyncReply? || step.Start?)
    ensures NodeHas(s.nodes[step.id], x, t)
  {
  }

  lemma MessageHeartbeat(s: System, step: Step, msg: Message, x: Uuid, t: int)
    requires Inv(s) && Enabled(s, step) && msg in Sent(s, step) && MessageHas(msg, x, t)
    ensures Held(s, x, t) || (SignOfLife(step, x) && step.now == t)
  {
    var p := ProcOf(s, step.id);
    assert NodeOk(step.id, s.nodes[step.id]);
    if step.Deliver? {
      var after := Handle(p.current, p.members, step.msg, step.now);
      HandleKeyed(p.current, p.members, step.msg, step.now);
      ValuesHave(after, x, t);
      HandleHas(p.current, p.members, step.msg, step.now, x, t);
    } else {
      ValuesHave(p.members, x, t);
    }
    assert MapHas(p.members, x, t) ==> NodeHas(s.nodes[step.id], x, t);
  }

  lemma HeartbeatStep(s: System, step: Step, x: Uuid, t: int)
    requires Inv(s) && Enabled(s, step) && Held(Next(s, step), x, t)
    ensures Held(s, x, t) || (SignOfLife(step, x) && step.now == t)
  {
    var next := Next(s, step);
    if id :| id in next.nodes && NodeHas(next.nodes[id], x, t) {
      if id == step.id {
        NodeHeartbeat(s, step, x, t);
      } else {
        assert id in s.nodes && NodeHas(s.nodes[id], x, t);
      }
    } else {
      var msg :| msg in next.network && MessageHas(msg, x, t);
      if msg !in s.network {
        MessageHeartbeat(s, step, msg, x, t);
      }
    }
  }

  lemma HeartbeatRunStep(states: seq<System>, steps: seq<Step>, k: nat, x: Uuid, t: int)
    requires IsRun(states, steps) && k < |steps| && Held(states[k + 1], x, t)
    ensures Held(states[k], x, t) || (SignOfLife(steps[k], x) && steps[k].now == t)
  {
    RunKeepsInv(states, steps, k);
    assert Follows(states, steps, k);
    HeartbeatStep(states[k], steps[k], x, t);
  }

  /**
   Over every run, every heartbeat in a membership or in a Sync is the clock reading of an earlier
   step at which that node gave a sign of life.
   */
  lemma {:induction false} HeartbeatOrigin(states: seq<System>, steps: seq<Step>, k: nat, x: Uuid, t: int)
    returns (j: nat)
    requires IsRun(states, steps) && k <= |steps| && Held(states[k], x, t)
    ensures j < k && SignOfLife(steps[j], x) && steps[j].now == t
  {
    assert k > 0;
    HeartbeatRunStep(states, steps, k - 1, x, t);
    if Held(states[k - 1], x, t) {
      j := HeartbeatOrigin(states, steps, k - 1, x, t);
    } else {
      j := k - 1;
    }
  }

  /**
   Removal in time: once the clock read for a dead entry is more than thirty seconds after every
   sign of life of its node so far, the removal takes the entry.
   */
  lemma DeadAreRemoved(states: seq<System>, steps: seq<Step>, k: nat, id: Uuid, x: Uuid, last: int)
    requires IsRun(states, steps) && k < |steps|
    requires Has(states[k], id, x) && Entry(states[k], id, x).status == Dead
    requires forall j :: 0 <= j < k && SignOfLife(steps[j], x) ==> steps[j].now <= last
    requires steps[k].RemoveDead? && steps[k].id == id
    requires x in steps[k].readings && last + 30_000_000_000 < steps[k].readings[x]
    ensures Up(states[k + 1], id) && x !in ProcOf(states[k + 1], id).members
  {
    assert NodeHas(states[k].nodes[id], x, Entry(states[k], id, x).heartbeat);
    var j := HeartbeatOrigin(states, steps, k, x, Entry(states[k], id, x).heartbeat);
    assert Follows(states, steps, k);
    EntryAtRest(states[k], steps[k], x);
  }

  /* Clock readings */

  predicate ReadsClock(step: Step, id: Uuid) {
    && step.id == id
    && (step.Boot? || step.Start? || step.Deliver? || step.PingReply? || step.SyncReply? || step.RemoveDead? || step.RebuildRing?)
  }

  lemma ClockStep(s: System, step: Step, id: Uuid)
    requires Enabled(s, step) && Up(Next(s, step), id)
    ensures ReadsClock(step, id) ==> ProcOf(Next(s, step), id).clock == step.now
    ensures ReadsClock(step, id) && Up(s, id) ==> ProcOf(s, id).clock <= step.now
    ensures ReadsClock(step, id) && step.RemoveDead? && Up(s, id) ==>
              forall x :: x in step.readings ==> ProcOf(s, id).clock <= step.readings[x]
    ensures !ReadsClock(step, id) ==> Up(s, id) && ProcOf(Next(s, step), id).clock == ProcOf(s, id).clock
  {
  }

  lemma {:induction false} ClockAfter(states: seq<System>, steps: seq<Step>, i: nat, j: nat, id: Uuid)
    requires IsRun(states, steps) && i < |steps| && ReadsClock(steps[i], id) && StaysUp(states, i + 1, j, id)
    ensures steps[i].now <= ProcOf(states[j], id).clock
    decreases j
  {
    assert Up(states[j], id);
    assert Follows(states, steps, j - 1);
    ClockStep(states[j - 1], steps[j - 1], id);
    if i + 1 < j {
      assert Up(states[j - 1], id);
      ClockAfter(states, steps, i, j - 1, id);
    }
  }

  /** The readings of one process never go back, those of a removal included. */
  lemma ReadingsAscend(states: seq<System>, steps: seq<Step>, i: nat, j: nat, id: Uuid)
    requires IsRun(states, steps) && i < j < |steps| && StaysUp(states, i + 1, j + 1, id)
    requires ReadsClock(steps[i], id) && ReadsClock(steps[j], id)
    ensures steps[i].now <= steps[j].now
    ensures steps[j].RemoveDead? ==> forall x :: x in steps[j].readings ==> steps[i].now <= steps[j].readings[x]
  {
    ClockAfter(states, steps, i, j, id);
    assert Up(states[j], id) && Up(states[j + 1], id);
    assert Follows(states, steps, j);
    ClockStep(states[j], steps[j], id);
  }
}
