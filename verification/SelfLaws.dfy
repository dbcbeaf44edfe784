/**
 A node's view of itself: it stays alive in its own membership unless it gives up on a message to
 itself, and its incarnation counts its boots and its advances.
 */
module SelfLaws {
  import opened Nodes
  import opened Members
  import opened MergeLaws
  import opened Gossip
  import opened Cluster
  import opened Provenance

  /** Never dead in its own eyes, and once started present there under its current info. */
  ghost predicate SelfAlive(s: System, id: Uuid) {
    Up(s, id) ==>
      var p := ProcOf(s, id);
      && !IsDead(p.members, id)
      && (p.started ==> id in p.members && p.members[id].info == p.current)
  }

  /** No record about a running node outruns its own info, and one that matches it equals it. */
  lemma OwnInfoIsNewest(s: System, id: Uuid, info: NodeInfo)
    requires Inv(s) && Up(s, id) && Mentions(s, info) && info.nodeId == id
    ensures info.incarnation <= ProcOf(s, id).current.incarnation
    ensures info.incarnation == ProcOf(s, id).current.incarnation ==> info == ProcOf(s, id).current
  {
  }

  /** The node gives up on a ping or a sync that it had sent to itself at its current incarnation. */
  predicate GivesUpOnSelf(s: System, step: Step, id: Uuid) {
    && (step.PingTimeout? || step.SyncTimeout?)
    && step.id == id && step.peer.nodeId == id
    && Up(s, id) && step.peer.incarnation == ProcOf(s, id).current.incarnation
  }

  /** Every step but one keeps a node alive in its own eyes; that one is the timeout of a message to itself. */
  lemma SelfAliveStep(s: System, step: Step, id: Uuid)
    requires Inv(s) && SelfAlive(s, id) && Enabled(s, step)
    ensures SelfAlive(Next(s, step), id) <==> !GivesUpOnSelf(s, step, id)
  {
    if step.id == id {
      if step.Deliver? || step.PingReply? || step.SyncReply? {
        SelfAliveMessage(s, step);
      } else if step.PingTimeout? || step.SyncTimeout? {
        SelfAliveTimeout(s, step);
      } else {
        SelfAliveOther(s, step);
      }
    }
  }

  lemma SelfAliveMessage(s: System, step: Step)
    requires Inv(s) && SelfAlive(s, step.id) && Enabled(s, step)
    requires step.Deliver? || step.PingReply? || step.SyncReply?
    ensures SelfAlive(Next(s, step), step.id)
  {
    HandleKeepsSelf(s, step.id, step.msg, step.now);
  }

  lemma SelfAliveTimeout(s: System, step: Step)
    requires Inv(s) && SelfAlive(s, step.id) && Enabled(s, step)
    requires step.PingTimeout? || step.SyncTimeout?
    ensures SelfAlive(Next(s, step), step.id) <==> !GivesUpOnSelf(s, step, step.id)
  {
    assert NodeOk(step.id, s.nodes[step.id]);
    assert step.peer in NodeInfos(s.nodes[step.id]);
    TimeoutKeepsSelf(s, step.id, step.peer);
  }

  lemma SelfAliveOther(s: System, step: Step)
    requires Inv(s) && SelfAlive(s, step.id) && Enabled(s, step)
    requires !(step.Deliver? || step.PingReply? || step.SyncReply? || step.PingTimeout? || step.SyncTimeout?)
    ensures SelfAlive(Next(s, step), step.id)
  {
    if Up(s, step.id) {
      assert NodeOk(step.id, s.nodes[step.id]);
    }
  }

  lemma TimeoutKeepsSelf(s: System, id: Uuid, peer: NodeInfo)
    requires Inv(s) && SelfAlive(s, id) && Running(s, id) && Mentions(s, peer)
    ensures
      var p := ProcOf(s, id);
      var after := MarkDead(p.members, peer);
      && id in after && after[id].info == p.current
      && (IsDead(after, id) <==> peer.nodeId == id && peer.incarnation == p.current.incarnation)
  {
    assert NodeOk(id, s.nodes[id]);
    if peer.nodeId == id {
      OwnInfoIsNewest(s, id, peer);
    }
    MarkDeadAtSelf(ProcOf(s, id).current, ProcOf(s, id).members, peer);
  }

  lemma MarkDeadAtSelf(current: NodeInfo, m: MemberMap, peer: NodeInfo)
    requires Candidate(m, current)
    requires peer.nodeId == current.nodeId ==>
               && peer.incarnation <= current.incarnation
               && (peer.incarnation == current.incarnation ==> peer == current)
    ensures
      var after := MarkDead(m, peer);
      var id := current.nodeId;
      && id in after && after[id].info == current
      && (IsDead(after, id) <==> peer.nodeId == id && peer.incarnation == current.incarnation)
  {
  }

  /** A message leaves a node that is alive in its own eyes so, and makes it advance nothing. */
  lemma HandleKeepsSelf(s: System, id: Uuid, msg: Message, now: int)
    requires Inv(s) && SelfAlive(s, id) && Up(s, id) && msg in s.network
    ensures
      var p := ProcOf(s, id);
      var after := Handle(p.current, p.members, msg, now);
      && !IsDead(after, id)
      && !Advances(p, msg, now)
      && (p.started ==> id in after && after[id].info == p.current)
  {
    var p := ProcOf(s, id);
    assert NodeOk(id, s.nodes[id]);
    match msg {
      case Ping(info) =>
        assert info in MessageInfos(msg);
        if info.nodeId == id { OwnInfoIsNewest(s, id, info); }
      case Ack(info) =>
        assert info in MessageInfos(msg);
        if info.nodeId == id { OwnInfoIsNewest(s, id, info); }
      case Sync(_) => SyncHeals(s, id, msg, now);
    }
  }

  /** A Sync makes its receiver alive in its own eyes, whatever it was before, and advances nothing. */
  lemma SyncHeals(s: System, id: Uuid, msg: Message, now: int)
    requires Inv(s) && Up(s, id) && msg in s.network && msg.Sync?
    ensures
      var p := ProcOf(s, id);
      var after := Handle(p.current, p.members, msg, now);
      IsAlive(after, id) && after[id].info == p.current && !Advances(p, msg, now)
  {
    var p := ProcOf(s, id);
    assert NodeOk(id, s.nodes[id]);
    var merged := UpdateAll(p.members, msg.members);
    UpdateAllKeyed(p.members, msg.members);
    UpdateAllInfos(p.members, msg.members);
    if id in merged {
      var info := merged[id].info;
      assert info in MemberInfos(merged);
      assert info in NodeInfos(s.nodes[id]) || info in MessageInfos(msg);
      OwnInfoIsNewest(s, id, info);
    }
  }

  /** The node has not given up on itself before state k. */
  ghost predicate KeepsFaith(states: seq<System>, steps: seq<Step>, id: Uuid, k: nat)
    requires |states| == |steps| + 1 && k <= |steps|
  {
    forall i :: 0 <= i < k ==> !GivesUpOnSelf(states[i], steps[i], id)
  }

  lemma RunStepSelf(states: seq<System>, steps: seq<Step>, k: nat, id: Uuid)
    requires IsRun(states, steps) && k < |steps| && SelfAlive(states[k], id)
    ensures SelfAlive(states[k + 1], id) <==> !GivesUpOnSelf(states[k], steps[k], id)
  {
    RunKeepsInv(states, steps, k);
    assert Follows(states, steps, k);
    SelfAliveStep(states[k], steps[k], id);
  }

  lemma {:induction false} SelfAliveUntil(states: seq<System>, steps: seq<Step>, k: nat, id: Uuid)
    requires IsRun(states, steps) && k <= |steps| && KeepsFaith(states, steps, id, k)
    ensures SelfAlive(states[k], id)
  {
    if k > 0 {
      SelfAliveUntil(states, steps, k - 1, id);
      RunStepSelf(states, steps, k - 1, id);
    }
  }

  /**
   In every run, a node stays alive in its own membership throughout if and only if it never gives
   up on a message to itself that it sent at its then current incarnation.
   */
  lemma SelfAliveRun(states: seq<System>, steps: seq<Step>, id: Uuid)
    requires IsRun(states, steps)
    ensures (forall k :: 0 <= k <= |steps| ==> SelfAlive(states[k], id))
       <==> KeepsFaith(states, steps, id, |steps|)
  {
    if KeepsFaith(states, steps, id, |steps|) {
      forall k | 0 <= k <= |steps| ensures SelfAlive(states[k], id) {
        SelfAliveUntil(states, steps, k, id);
      }
    }
    if forall k :: 0 <= k <= |steps| ==> SelfAlive(states[k], id) {
      forall i | 0 <= i < |steps| ensures !GivesUpOnSelf(states[i], steps[i], id) {
        RunStepSelf(states, steps, i, id);
        assert SelfAlive(states[i + 1], id);
      }
    }
  }

  /** The random pick of the ping and sync loops then always has an entry to pick, the node itself at least. */
  lemma PickIsInRange(states: seq<System>, steps: seq<Step>, k: nat, id: Uuid)
    requires IsRun(states, steps) && k <= |steps| && KeepsFaith(states, steps, id, k) && Running(states[k], id)
    ensures |ProcOf(states[k], id).members| > 0
    ensures Candidate(ProcOf(states[k], id).members, ProcOf(states[k], id).current)
  {
    SelfAliveUntil(states, steps, k, id);
    RunKeepsInv(states, steps, k);
    assert NodeOk(id, states[k].nodes[id]);
    assert id in ProcOf(states[k], id).members.Keys;
  }

  /* After a self-timeout */

  /**
   In any reachable state a message makes a node advance its incarnation exactly if the node is dead
   in its own membership and the message is a Ping or an Ack that does not revive that very entry.
   */
  lemma AdvancesExactly(s: System, id: Uuid, msg: Message, now: int)
    requires Inv(s) && Up(s, id) && msg in s.network
    ensures
      var p := ProcOf(s, id);
      Advances(p, msg, now) <==>
        && !msg.Sync?
        && IsDead(p.members, id)
        && !(msg.info.nodeId == id && msg.info.incarnation >= p.members[id].info.incarnation)
  {
    assert NodeOk(id, s.nodes[id]);
    if msg.Sync? {
      SyncHeals(s, id, msg, now);
    }
  }

  /** The process after these messages, each with the clock reading at its arrival. */
  function ReceivedAll(p: Proc, msgs: seq<(Message, int)>): Proc {
    if msgs == [] then p
    else
      var (msg, now) := msgs[|msgs| - 1];
      Received(ReceivedAll(p, msgs[..|msgs| - 1]), msg, now)
  }

  /**
   A node that has given up on itself advances at every Ping or Ack from others, one incarnation
   each, for its own entry stays dead: `advance_incarnation` does not touch the membership.
   */
  lemma {:induction false} DeadSelfKeepsAdvancing(p: Proc, msgs: seq<(Message, int)>)
    requires IsDead(p.members, p.current.nodeId)
    requires forall i :: 0 <= i < |msgs| ==> !msgs[i].0.Sync? && msgs[i].0.info.nodeId != p.current.nodeId
    ensures
      var after := ReceivedAll(p, msgs);
      && after.current == p.current.(incarnation := p.current.incarnation + |msgs|)
      && IsDead(after.members, p.current.nodeId)
  {
    if msgs != [] {
      DeadSelfKeepsAdvancing(p, msgs[..|msgs| - 1]);
    }
  }

  /* What the incarnation counts */

  predicate IsBoot(step: Step, id: Uuid) {
    (step.Boot? || step.BootCrash?) && step.id == id
  }

  /** The step is a message at which the node finds itself dead and advances its incarnation. */
  predicate IsAdvance(s: System, step: Step, id: Uuid)
    requires Enabled(s, step)
  {
    && step.id == id
    && (step.Deliver? || step.DeliverCrash? || step.PingReply? || step.SyncReply?)
    && Advances(ProcOf(s, id), step.msg, step.now)
  }

  ghost function Boots(steps: seq<Step>, id: Uuid, k: nat): nat
    requires k <= |steps|
  {
    if k == 0 then 0 else Boots(steps, id, k - 1) + if IsBoot(steps[k - 1], id) then 1 else 0
  }

  ghost function AdvanceCount(states: seq<System>, steps: seq<Step>, id: Uuid, k: nat): nat
    requires IsRun(states, steps) && k <= |steps|
  {
    if k == 0 then 0
    else
      assert Follows(states, steps, k - 1);
      AdvanceCount(states, steps, id, k - 1) + if IsAdvance(states[k - 1], steps[k - 1], id) then 1 else 0
  }

  /** By how much one step moves a node's persisted incarnation. */
  function Moves(s: System, step: Step, id: Uuid): nat
    requires Enabled(s, step)
  {
    if IsBoot(step, id) || IsAdvance(s, step, id) then 1 else 0
  }

  /** A boot or an advance moves the persisted incarnation by one; nothing else moves it. */
  lemma DiskStep(s: System, step: Step)
    requires Enabled(s, step) && step.id in s.nodes && NodeOk(step.id, s.nodes[step.id])
    ensures NextNode(s, step).disk.incarnation == s.nodes[step.id].disk.incarnation + Moves(s, step, step.id)
  {
  }

  lemma FirstBoot(s: System, step: Step, id: Uuid)
    requires Enabled(s, step) && id !in s.nodes
    ensures !IsAdvance(s, step, id)
    ensures id in Next(s, step).nodes <==> IsBoot(step, id)
    ensures IsBoot(step, id) ==> Next(s, step).nodes[id].disk.incarnation == 0
  {
  }

  /** One more than the persisted incarnation, or zero before the first boot. */
  function Lives(s: System, id: Uuid): nat {
    if id in s.nodes then s.nodes[id].disk.incarnation + 1 else 0
  }

  lemma CountStep(s: System, step: Step, id: Uuid)
    requires Enabled(s, step) && (id in s.nodes ==> NodeOk(id, s.nodes[id]))
    ensures Lives(Next(s, step), id) == Lives(s, id) + Moves(s, step, id)
  {
    if id !in s.nodes {
      FirstBoot(s, step, id);
    } else if step.id == id {
      DiskStep(s, step);
    }
  }

  /** One step of the count, with both tallies unfolded once. */
  lemma CountRunStep(states: seq<System>, steps: seq<Step>, id: Uuid, k: nat)
    requires IsRun(states, steps) && k < |steps|
    ensures Lives(states[k + 1], id) - Lives(states[k], id)
         == (Boots(steps, id, k + 1) - Boots(steps, id, k))
            + (AdvanceCount(states, steps, id, k + 1) - AdvanceCount(states, steps, id, k))
  {
    RunKeepsInv(states, steps, k);
    assert Follows(states, steps, k);
    CountStep(states[k], steps[k], id);
    assert !(IsBoot(steps[k], id) && IsAdvance(states[k], steps[k], id));
  }

  /** In every run a node's persisted incarnation is its boots after the first plus its advances. */
  lemma {:induction false} IncarnationCounts(states: seq<System>, steps: seq<Step>, id: Uuid, k: nat)
    requires IsRun(states, steps) && k <= |steps|
    ensures Lives(states[k], id) == Boots(steps, id, k) + AdvanceCount(states, steps, id, k)
  {
    if k > 0 {
      IncarnationCounts(states, steps, id, k - 1);
      CountRunStep(states, steps, id, k - 1);
    }
  }

  /**
   As long as a node has not given up on itself, whatever other nodes do, no message makes it advance,
   so its incarnation counts its restarts.
   */
  lemma IncarnationCountsRestarts(states: seq<System>, steps: seq<Step>, id: Uuid, k: nat)
    requires IsRun(states, steps) && k <= |steps| && KeepsFaith(states, steps, id, k)
    ensures AdvanceCount(states, steps, id, k) == 0
    ensures Lives(states[k], id) == Boots(steps, id, k)
  {
    NoAdvance(states, steps, id, k);
    IncarnationCounts(states, steps, id, k);
  }

  lemma NeverAdvances(s: System, step: Step, id: Uuid)
    requires Inv(s) && SelfAlive(s, id) && Enabled(s, step)
    ensures !IsAdvance(s, step, id)
  {
    if step.id == id && (step.Deliver? || step.DeliverCrash? || step.PingReply? || step.SyncReply?) {
      HandleKeepsSelf(s, id, step.msg, step.now);
    }
  }

  lemma {:induction false} NoAdvance(states: seq<System>, steps: seq<Step>, id: Uuid, k: nat)
    requires IsRun(states, steps) && k <= |steps| && KeepsFaith(states, steps, id, k)
    ensures AdvanceCount(states, steps, id, k) == 0
  {
    if k > 0 {
      NoAdvance(states, steps, id, k - 1);
      SelfAliveUntil(states, steps, k - 1, id);
      RunKeepsInv(states, steps, k - 1);
      assert Follows(states, steps, k - 1);
      NeverAdvances(states[k - 1], steps[k - 1], id);
    }
  }
}
