/**
 Anti-entropy: what one Sync round trip does to two memberships, when it makes them agree, and that
 it can be made; and what a heard Ping or Ack records.
 */
module RoundTrip {
  import opened Wrappers
  import opened Nodes
  import opened Members
  import opened MergeLaws
  import opened Gossip
  import opened Cluster
  import opened Provenance
  import opened SelfLaws
  import opened EntryLaws

  /** The same entries, but for the one about `a`. */
  ghost predicate AgreeBesides(a: Uuid, ma: MemberMap, mb: MemberMap) {
    forall x :: x != a ==> (x in ma <==> x in mb) && (x in ma ==> ma[x] == mb[x])
  }

  /** The memberships agree everywhere; on node `a` itself, up to the heartbeat that `a` just renewed. */
  ghost predicate Agree(a: Uuid, ma: MemberMap, mb: MemberMap) {
    && AgreeBesides(a, ma, mb)
    && IsAlive(ma, a) && IsAlive(mb, a)
    && ma[a].info == mb[a].info
    && ma[a].heartbeat >= mb[a].heartbeat
  }

  /** What the cluster's invariant says about two entries for one node. */
  ghost predicate Coherent(e: MemberState, f: MemberState) {
    e.info.incarnation == f.info.incarnation ==> e.info == f.info
  }

  /** The entry about a running node, if there is one, is at most as new as the node's own info. */
  ghost predicate Below(m: MemberMap, current: NodeInfo) {
    var id := current.nodeId;
    id in m ==>
      && m[id].info.incarnation <= current.incarnation
      && (m[id].info.incarnation == current.incarnation ==> m[id].info == current)
  }

  ghost predicate Exchangeable(curA: NodeInfo, curB: NodeInfo, ma: MemberMap, mb: MemberMap) {
    && curA.nodeId != curB.nodeId
    && Keyed(ma) && Keyed(mb)
    && (forall x :: x in ma && x in mb ==> Coherent(ma[x], mb[x]))
    && Below(ma, curA) && Below(mb, curA) && Below(ma, curB) && Below(mb, curB)
  }

  /** A is alive in its own membership, or has no entry there at its current incarnation and is alive in B's. */
  predicate HeldAlive(curA: NodeInfo, ma: MemberMap, mb: MemberMap) {
    if curA.nodeId in ma && ma[curA.nodeId].info == curA then IsAlive(ma, curA.nodeId)
    else Candidate(mb, curA)
  }

  /** A membership after it has handled the Sync message of another. */
  function Synced(current: NodeInfo, m: MemberMap, other: MemberMap, now: int): MemberMap {
    Update(MergeMaps(m, other), AliveNow(current, now))
  }

  lemma HandleSync(current: NodeInfo, m: MemberMap, other: MemberMap, now: int)
    requires Keyed(m) && Keyed(other)
    ensures Handle(current, m, Sync(Values(other)), now) == Synced(current, m, other, now)
  {
    ValuesMerge(m, other);
  }

  lemma SyncedKeyed(current: NodeInfo, m: MemberMap, other: MemberMap, now: int)
    requires Keyed(m) && Keyed(other)
    ensures Keyed(Synced(current, m, other, now))
  {
  }

  /** The round trip at one key. */
  lemma ExchangeAt(curA: NodeInfo, curB: NodeInfo, ma: MemberMap, mb: MemberMap, nowB: int, nowA: int, x: Uuid)
    requires Exchangeable(curA, curB, ma, mb) && x != curA.nodeId
    ensures
      var mb' := Synced(curB, mb, ma, nowB);
      var ma' := Synced(curA, ma, mb', nowA);
      && (x in ma' <==> x in mb')
      && (x in ma' ==> ma'[x] == mb'[x])
      && (x == curB.nodeId ==> Candidate(ma', curB))
  {
  }

  lemma ExchangeAtSelf(curA: NodeInfo, curB: NodeInfo, ma: MemberMap, mb: MemberMap, nowB: int, nowA: int)
    requires Exchangeable(curA, curB, ma, mb)
    ensures
      var mb' := Synced(curB, mb, ma, nowB);
      var ma' := Synced(curA, ma, mb', nowA);
      && Candidate(ma', curA)
      && (Candidate(mb', curA) <==> HeldAlive(curA, ma, mb))
      && (Candidate(mb', curA) ==> ma'[curA.nodeId].heartbeat >= mb'[curA.nodeId].heartbeat)
      && Below(mb', curA)
  {
  }

  /**
   After an exchange both memberships hold the same, but for A's own entry, with A alive at A and B
   alive at both under their current infos; and they agree on A too exactly if A was held alive.
   */
  lemma Exchange(curA: NodeInfo, curB: NodeInfo, ma: MemberMap, mb: MemberMap, nowB: int, nowA: int)
    requires Exchangeable(curA, curB, ma, mb)
    ensures
      var mb' := Synced(curB, mb, ma, nowB);
      var ma' := Synced(curA, ma, mb', nowA);
      && AgreeBesides(curA.nodeId, ma', mb')
      && Candidate(ma', curA) && Candidate(ma', curB) && Candidate(mb', curB)
      && Below(mb', curA)
      && (Agree(curA.nodeId, ma', mb') <==> HeldAlive(curA, ma, mb))
  {
    var mb' := Synced(curB, mb, ma, nowB);
    var ma' := Synced(curA, ma, mb', nowA);
    forall x: Uuid | x != curA.nodeId
      ensures x in ma' <==> x in mb'
      ensures x in ma' && x in mb' ==> ma'[x] == mb'[x]
    {
      ExchangeAt(curA, curB, ma, mb, nowB, nowA, x);
    }
    ExchangeAtSelf(curA, curB, ma, mb, nowB, nowA);
    ExchangeAt(curA, curB, ma, mb, nowB, nowA, curB.nodeId);
  }

  /** In every reachable state any two processes may exchange. */
  lemma InvMakesExchangeable(s: System, a: Uuid, b: Uuid)
    requires Inv(s) && Up(s, a) && Up(s, b) && a != b
    ensures Exchangeable(ProcOf(s, a).current, ProcOf(s, b).current, ProcOf(s, a).members, ProcOf(s, b).members)
  {
    assert NodeOk(a, s.nodes[a]) && NodeOk(b, s.nodes[b]);
    KnownIsOlder(s, a, a);
    KnownIsOlder(s, b, a);
    KnownIsOlder(s, a, b);
    KnownIsOlder(s, b, b);
  }

  ghost predicate OthersUnchanged(s: System, t: System, id: Uuid) {
    forall y :: y in s.nodes && y != id ==> y in t.nodes && t.nodes[y] == s.nodes[y]
  }

  /** From `s` to `t`, a process has sent and otherwise stayed as it was. */
  ghost predicate Sends(s: System, t: System, id: Uuid) {
    && Running(s, id) && Running(t, id)
    && ProcOf(t, id).members == ProcOf(s, id).members
    && ProcOf(t, id).current == ProcOf(s, id).current
    && OthersUnchanged(s, t, id)
  }

  /** From `s` to `t`, a process has handled a message without advancing. */
  ghost predicate Receives(s: System, t: System, id: Uuid, msg: Message, now: int) {
    && Up(s, id) && Up(t, id)
    && ProcOf(t, id).started == ProcOf(s, id).started
    && ProcOf(t, id).members == Handle(ProcOf(s, id).current, ProcOf(s, id).members, msg, now)
    && ProcOf(t, id).current == ProcOf(s, id).current
    && OthersUnchanged(s, t, id)
  }

  lemma RunSends(states: seq<System>, steps: seq<Step>, k: nat)
    requires IsRun(states, steps) && k < |steps| && (steps[k].SyncSend? || steps[k].BootstrapSync?)
    ensures Sends(states[k], states[k + 1], steps[k].id)
  {
    assert Follows(states, steps, k);
    SendStep(states[k], steps[k]);
  }

  lemma SendStep(s: System, step: Step)
    requires Enabled(s, step) && (step.SyncSend? || step.BootstrapSync?)
    ensures Sends(s, Next(s, step), step.id)
  {
  }

  lemma ReceiveStep(s: System, step: Step)
    requires Enabled(s, step) && (step.Deliver? || step.SyncReply?)
    requires !Advances(ProcOf(s, step.id), step.msg, step.now)
    ensures Receives(s, Next(s, step), step.id, step.msg, step.now)
  {
  }

  /** A Sync changes the membership of its receiver and no node's info. */
  lemma RunReceives(states: seq<System>, steps: seq<Step>, k: nat)
    requires IsRun(states, steps)
    requires k < |steps| && (steps[k].Deliver? || steps[k].SyncReply?) && steps[k].msg.Sync?
    ensures Receives(states[k], states[k + 1], steps[k].id, steps[k].msg, steps[k].now)
  {
    assert Follows(states, steps, k);
    RunKeepsInv(states, steps, k);
    SyncHeals(states[k], steps[k].id, steps[k].msg, steps[k].now);
    ReceiveStep(states[k], steps[k]);
  }

  lemma RunKeyed(states: seq<System>, steps: seq<Step>, k: nat, id: Uuid)
    requires IsRun(states, steps) && k <= |steps| && Up(states[k], id)
    ensures Keyed(ProcOf(states[k], id).members) && ProcOf(states[k], id).current.nodeId == id
  {
    RunKeepsInv(states, steps, k);
    assert NodeOk(id, states[k].nodes[id]);
  }

  /** What a node holds after it has handled a Sync. */
  lemma RunSynced(states: seq<System>, steps: seq<Step>, k: nat, other: MemberMap)
    requires IsRun(states, steps) && k < |steps| && Keyed(other)
    requires (steps[k].Deliver? || steps[k].SyncReply?) && steps[k].msg == Sync(Values(other))
    ensures
      var id := steps[k].id;
      && Up(states[k], id) && Up(states[k + 1], id)
      && ProcOf(states[k + 1], id).members
         == Synced(ProcOf(states[k], id).current, ProcOf(states[k], id).members, other, steps[k].now)
  {
    RunReceives(states, steps, k);
    RunKeyed(states, steps, k, steps[k].id);
    HandleSync(ProcOf(states[k], steps[k].id).current, ProcOf(states[k], steps[k].id).members, other, steps[k].now);
  }

  /** A node asks for a Sync and takes the answer: the two ends of `sync`, or of a bootstrap Sync. */
  predicate AsksAndTakes(ask: Step, take: Step, a: Uuid) {
    && ask.id == a && take.id == a
    && ((ask.SyncSend? && take.SyncReply?) || (ask.BootstrapSync? && take.Deliver?))
  }

  /** Steps k, k+1 and k+2 are A's Sync to B, its delivery at B, and B's answer at A. */
  ghost predicate IsRoundTrip(states: seq<System>, steps: seq<Step>, k: nat, a: Uuid, b: Uuid) {
    && IsRun(states, steps) && k + 2 < |steps|
    && AsksAndTakes(steps[k], steps[k + 2], a)
    && Running(states[k], a) && Up(states[k], b)
    && steps[k + 1].Deliver? && steps[k + 1].id == b
    && steps[k + 1].msg == Sync(Values(ProcOf(states[k], a).members))
    && Up(states[k + 2], b)
    && steps[k + 2].msg == Sync(Values(ProcOf(states[k + 2], b).members))
  }

  /** The two processes have exchanged memberships, and their own infos have not changed. */
  ghost predicate ProcsExchanged(pa: Proc, pb: Proc, pa': Proc, pb': Proc, nowB: int, nowA: int) {
    && Exchangeable(pa.current, pb.current, pa.members, pb.members)
    && pb'.members == Synced(pb.current, pb.members, pa.members, nowB)
    && pa'.members == Synced(pa.current, pa.members, pb'.members, nowA)
    && Keyed(pa'.members) && Keyed(pb'.members)
    && pa'.current == pa.current && pb'.current == pb.current
    && pa'.started == pa.started && pb'.started == pb.started
  }

  /** Between `s` and `t`, A and B have exchanged memberships and no other node has changed. */
  ghost predicate Exchanged(s: System, t: System, a: Uuid, b: Uuid, nowB: int, nowA: int) {
    && Running(s, a) && Up(s, b) && Up(t, a) && Up(t, b)
    && ProcOf(s, a).current.nodeId == a && ProcOf(s, b).current.nodeId == b
    && ProcsExchanged(ProcOf(s, a), ProcOf(s, b), ProcOf(t, a), ProcOf(t, b), nowB, nowA)
    && (forall y :: y in s.nodes && y != a && y != b ==> y in t.nodes && t.nodes[y] == s.nodes[y])
  }

  lemma ThreeSteps(s0: System, s1: System, s2: System, s3: System, a: Uuid, b: Uuid, nowB: int, nowA: int)
    requires a != b && Running(s0, a) && Up(s0, b) && Up(s2, b)
    requires ProcOf(s0, a).current.nodeId == a && ProcOf(s0, b).current.nodeId == b
    requires Exchangeable(ProcOf(s0, a).current, ProcOf(s0, b).current, ProcOf(s0, a).members, ProcOf(s0, b).members)
    requires Sends(s0, s1, a)
    requires Receives(s1, s2, b, Sync(Values(ProcOf(s0, a).members)), nowB)
    requires Receives(s2, s3, a, Sync(Values(ProcOf(s2, b).members)), nowA)
    ensures Exchanged(s0, s3, a, b, nowB, nowA)
  {
    assert ProcOf(s1, b) == ProcOf(s0, b);
    assert ProcOf(s2, a) == ProcOf(s1, a);
    assert ProcOf(s3, b) == ProcOf(s2, b);
    HandleSync(ProcOf(s0, b).current, ProcOf(s0, b).members, ProcOf(s0, a).members, nowB);
    SyncedKeyed(ProcOf(s0, b).current, ProcOf(s0, b).members, ProcOf(s0, a).members, nowB);
    HandleSync(ProcOf(s0, a).current, ProcOf(s0, a).members, ProcOf(s2, b).members, nowA);
    SyncedKeyed(ProcOf(s0, a).current, ProcOf(s0, a).members, ProcOf(s2, b).members, nowA);
  }

  lemma RunExchangeable(states: seq<System>, steps: seq<Step>, k: nat, a: Uuid, b: Uuid)
    requires IsRun(states, steps) && k <= |steps|
    requires a != b && Running(states[k], a) && Up(states[k], b)
    ensures ProcOf(states[k], a).current.nodeId == a && ProcOf(states[k], b).current.nodeId == b
    ensures Exchangeable(ProcOf(states[k], a).current, ProcOf(states[k], b).current,
                         ProcOf(states[k], a).members, ProcOf(states[k], b).members)
  {
    RunKeepsInv(states, steps, k);
    assert NodeOk(a, states[k].nodes[a]) && NodeOk(b, states[k].nodes[b]);
    InvMakesExchangeable(states[k], a, b);
  }

  lemma RoundTripExchanges(states: seq<System>, steps: seq<Step>, k: nat, a: Uuid, b: Uuid)
    requires IsRoundTrip(states, steps, k, a, b) && a != b
    ensures Exchanged(states[k], states[k + 3], a, b, steps[k + 1].now, steps[k + 2].now)
  {
    RunExchangeable(states, steps, k, a, b);
    RunSends(states, steps, k);
    RunReceives(states, steps, k + 1);
    RunReceives(states, steps, k + 2);
    ThreeSteps(states[k], states[k + 1], states[k + 2], states[k + 3], a, b, steps[k + 1].now, steps[k + 2].now);
  }

  /**
   In every run, an uninterrupted Sync round trip from A to B and back leaves the two memberships
   with the same ids and on each the same info, incarnation, status and heartbeat, but for A's own
   entry; A is then alive at A and B at both, under their current infos. The two agree on A as well,
   up to the heartbeat, exactly if A was held alive before, so always if A was alive in its own eyes.
   */
  lemma SyncRoundTrip(states: seq<System>, steps: seq<Step>, k: nat, a: Uuid, b: Uuid)
    requires IsRoundTrip(states, steps, k, a, b) && a != b
    ensures Running(states[k + 3], a) && Up(states[k + 3], b)
    ensures
      var pa, pb := ProcOf(states[k], a), ProcOf(states[k], b);
      var pa', pb' := ProcOf(states[k + 3], a), ProcOf(states[k + 3], b);
      && pa'.current == pa.current && pb'.current == pb.current
      && AgreeBesides(a, pa'.members, pb'.members)
      && Candidate(pa'.members, pa.current) && Candidate(pa'.members, pb.current) && Candidate(pb'.members, pb.current)
      && (Agree(a, pa'.members, pb'.members) <==> HeldAlive(pa.current, pa.members, pb.members))
      && (SelfAlive(states[k], a) ==> HeldAlive(pa.current, pa.members, pb.members))
  {
    RoundTripExchanges(states, steps, k, a, b);
    ExchangedAgree(states[k], states[k + 3], a, b, steps[k + 1].now, steps[k + 2].now);
  }

  lemma ExchangedAgree(s: System, t: System, a: Uuid, b: Uuid, nowB: int, nowA: int)
    requires Exchanged(s, t, a, b, nowB, nowA)
    ensures Running(t, a)
    ensures
      var pa, pb := ProcOf(s, a), ProcOf(s, b);
      var pa', pb' := ProcOf(t, a), ProcOf(t, b);
      && AgreeBesides(a, pa'.members, pb'.members)
      && Candidate(pa'.members, pa.current) && Candidate(pa'.members, pb.current) && Candidate(pb'.members, pb.current)
      && (Agree(a, pa'.members, pb'.members) <==> HeldAlive(pa.current, pa.members, pb.members))
      && (SelfAlive(s, a) ==> HeldAlive(pa.current, pa.members, pb.members))
  {
    var pa, pb := ProcOf(s, a), ProcOf(s, b);
    Exchange(pa.current, pb.current, pa.members, pb.members, nowB, nowA);
  }

  /**
   In any run, a node with no sync in flight can make this round trip with any alive entry of its
   membership whose process is up: every step of it is enabled.
   */
  lemma RoundTripIsPossible(states: seq<System>, steps: seq<Step>, a: Uuid, peer: NodeInfo, nowB: int, nowA: int)
    returns (states': seq<System>, steps': seq<Step>)
    requires IsRun(states, steps)
    requires
      var s := states[|steps|];
      && Running(s, a) && ProcOf(s, a).syncing.None? && Candidate(ProcOf(s, a).members, peer)
      && peer.nodeId != a && Timely(s, peer.nodeId, nowB) && Timely(s, a, nowA)
    ensures states <= states' && steps <= steps' && |steps'| == |steps| + 3
    ensures IsRoundTrip(states', steps', |steps|, a, peer.nodeId)
    ensures Running(states'[|steps'|], a) && ProcOf(states'[|steps'|], a).syncing.None?
  {
    var b, k := peer.nodeId, |steps|;
    var msg := Sync(Values(ProcOf(states[k], a).members));
    var s1 := SendInRun(states, steps, a, peer);
    var s2, answer, s3 := DeliverAndReply(states + [s1], steps + [SyncSend(a, peer)], a, b, msg, nowB, nowA);
    states' := states + [s1] + [s2] + [s3];
    steps' := steps + [SyncSend(a, peer)] + [Deliver(b, msg, nowB)] + [SyncReply(a, answer, nowA)];
    Append3(states, s1, s2, s3);
    Append3(steps, SyncSend(a, peer), Deliver(b, msg, nowB), SyncReply(a, answer, nowA));
    TripInRun(states', steps', k, states[k], s2, a, peer, nowB, nowA);
  }

  lemma Append3<T>(xs: seq<T>, x: T, y: T, z: T)
    ensures
      var ys := xs + [x] + [y] + [z];
      && |ys| == |xs| + 3 && xs <= ys
      && (forall i :: 0 <= i < |xs| ==> ys[i] == xs[i])
      && ys[|xs|] == x && ys[|xs| + 1] == y && ys[|xs| + 2] == z
  {
  }

  lemma DeliverAndReply(states: seq<System>, steps: seq<Step>, a: Uuid, b: Uuid, msg: Message, nowB: int, nowA: int)
    returns (s: System, answer: Message, t: System)
    requires IsRun(states, steps) && a != b && msg in states[|steps|].network && msg.Sync?
    requires Timely(states[|steps|], b, nowB) && Timely(states[|steps|], a, nowA)
    requires ProcOf(states[|steps|], a).syncing.Some?
    ensures Up(s, b) && answer == Sync(Values(ProcOf(s, b).members))
    ensures IsRun(states + [s] + [t], steps + [Deliver(b, msg, nowB)] + [SyncReply(a, answer, nowA)])
    ensures Up(t, a) && ProcOf(t, a).syncing.None? && ProcOf(t, a).started == ProcOf(states[|steps|], a).started
  {
    s := DeliverInRun(states, steps, b, msg, nowB);
    answer := Sync(Values(ProcOf(s, b).members));
    assert Up(s, a) && ProcOf(s, a) == ProcOf(states[|steps|], a);
    t := ReplyInRun(states + [s], steps + [Deliver(b, msg, nowB)], a, answer, nowA);
  }

  lemma TripInRun(states: seq<System>, steps: seq<Step>, k: nat, s: System, t: System,
                  a: Uuid, peer: NodeInfo, nowB: int, nowA: int)
    requires IsRun(states, steps) && k + 2 < |steps|
    requires Running(s, a) && Up(s, peer.nodeId) && Up(t, peer.nodeId)
    requires states[k] == s && states[k + 2] == t
    requires steps[k] == SyncSend(a, peer)
    requires steps[k + 1] == Deliver(peer.nodeId, Sync(Values(ProcOf(s, a).members)), nowB)
    requires steps[k + 2] == SyncReply(a, Sync(Values(ProcOf(t, peer.nodeId).members)), nowA)
    ensures IsRoundTrip(states, steps, k, a, peer.nodeId)
  {
  }

  lemma SendInRun(states: seq<System>, steps: seq<Step>, a: Uuid, peer: NodeInfo) returns (t: System)
    requires IsRun(states, steps) && Running(states[|steps|], a)
    requires ProcOf(states[|steps|], a).syncing.None? && Candidate(ProcOf(states[|steps|], a).members, peer)
    ensures IsRun(states + [t], steps + [SyncSend(a, peer)])
    ensures Up(t, a) && ProcOf(t, a) == ProcOf(states[|steps|], a).(syncing := Some(peer))
    ensures Sync(Values(ProcOf(states[|steps|], a).members)) in t.network
    ensures OthersUnchanged(states[|steps|], t, a)
  {
    var s := states[|steps|];
    t := Next(s, SyncSend(a, peer));
    ExtendRun(states, steps, SyncSend(a, peer), t);
  }

  /** B's answer to a Sync is its whole membership after it, and is there for A to take. */
  lemma DeliverInRun(states: seq<System>, steps: seq<Step>, b: Uuid, msg: Message, now: int) returns (t: System)
    requires IsRun(states, steps) && Timely(states[|steps|], b, now) && msg in states[|steps|].network && msg.Sync?
    ensures IsRun(states + [t], steps + [Deliver(b, msg, now)])
    ensures Up(t, b) && Sync(Values(ProcOf(t, b).members)) in t.network
    ensures OthersUnchanged(states[|steps|], t, b)
  {
    t := Next(states[|steps|], Deliver(b, msg, now));
    ExtendRun(states, steps, Deliver(b, msg, now), t);
  }

  lemma ReplyInRun(states: seq<System>, steps: seq<Step>, a: Uuid, msg: Message, now: int) returns (t: System)
    requires IsRun(states, steps) && Timely(states[|steps|], a, now) && ProcOf(states[|steps|], a).syncing.Some?
    requires msg in states[|steps|].network && msg.Sync?
    ensures IsRun(states + [t], steps + [SyncReply(a, msg, now)])
    ensures Up(t, a) && ProcOf(t, a).syncing.None? && ProcOf(t, a).started == ProcOf(states[|steps|], a).started
  {
    t := Next(states[|steps|], SyncReply(a, msg, now));
    ExtendRun(states, steps, SyncReply(a, msg, now), t);
  }

  /* Pings */

  /** Process `id` has process `x` down as alive, under its current info, and as heard of no earlier than `now`. */
  ghost predicate Recorded(s: System, id: Uuid, x: Uuid, now: int) {
    && Up(s, id) && Up(s, x)
    && IsAlive(ProcOf(s, id).members, x)
    && ProcOf(s, id).members[x].info == ProcOf(s, x).current
    && now <= ProcOf(s, id).members[x].heartbeat
  }

  /**
   In every run, a Ping or an Ack that carries the current info of a running node makes its receiver
   record that node as alive, under that info, from then; and a Ping is answered by the receiver's
   own info, so that the answer does the same the other way round.
   */
  lemma HearingRecords(states: seq<System>, steps: seq<Step>, k: nat, id: Uuid, x: Uuid)
    requires IsRun(states, steps) && k < |steps| && Hears(steps[k], id, x)
    requires Up(states[k], x) && steps[k].msg.info == ProcOf(states[k], x).current
    ensures Up(states[k], id) && Recorded(states[k + 1], id, x, steps[k].now)
    ensures steps[k].Deliver? && steps[k].msg.Ping? ==>
              Ack(ProcOf(states[k], id).current) in states[k + 1].network
  {
    assert Follows(states, steps, k);
    RunKeepsInv(states, steps, k);
    HearingStep(states[k], steps[k], x);
  }

  lemma HearingStep(s: System, step: Step, x: Uuid)
    requires Inv(s) && Enabled(s, step) && Hears(step, step.id, x)
    requires Up(s, x) && step.msg.info == ProcOf(s, x).current
    ensures Recorded(Next(s, step), step.id, x, step.now)
    ensures step.Deliver? && step.msg.Ping? ==> Ack(ProcOf(s, step.id).current) in Next(s, step).network
  {
    KnownIsOlder(s, step.id, x);
    HeardIsRecorded(ProcOf(s, step.id).members, ProcOf(s, x).current, step.now);
    HearingEffect(s, step, x);
  }

  lemma HeardIsRecorded(m: MemberMap, info: NodeInfo, now: int)
    requires Below(m, info)
    ensures Candidate(Update(m, AliveNow(info, now)), info)
    ensures now <= Update(m, AliveNow(info, now))[info.nodeId].heartbeat
  {
  }

  /** The receiver merges the report; the infos of other nodes, and its own if it is the one heard of, stay. */
  lemma HearingEffect(s: System, step: Step, x: Uuid)
    requires Enabled(s, step) && Hears(step, step.id, x) && Up(s, x)
    requires ProcOf(s, x).current.nodeId == x && ProcOf(s, x).current == step.msg.info
    requires IsAlive(Update(ProcOf(s, step.id).members, AliveNow(step.msg.info, step.now)), x)
    ensures Up(Next(s, step), step.id) && Up(Next(s, step), x)
    ensures ProcOf(Next(s, step), step.id).members
         == Update(ProcOf(s, step.id).members, AliveNow(step.msg.info, step.now))
    ensures ProcOf(Next(s, step), x).current == ProcOf(s, x).current
    ensures step.Deliver? && step.msg.Ping? ==> Ack(ProcOf(s, step.id).current) in Next(s, step).network
  {
  }

  /** What a process knows of a running node is at most its current info. */
  lemma KnownIsOlder(s: System, id: Uuid, x: Uuid)
    requires Inv(s) && Up(s, id) && Up(s, x)
    ensures Below(ProcOf(s, id).members, ProcOf(s, x).current)
    ensures ProcOf(s, x).current.nodeId == x
  {
  }
}
