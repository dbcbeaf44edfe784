/**
 The life of one membership entry over a run: when it goes, that it never goes back while it lives,
 how recently it was heard of when it is removed, and what a late timeout can do to it.
 */
module EntryLaws {
  import opened Wrappers
  import opened Nodes
  import opened Members
  import opened Gossip
  import opened Cluster

  ghost predicate Has(s: System, id: Uuid, x: Uuid) {
    Running(s, id) && x in ProcOf(s, id).members
  }

  ghost function Entry(s: System, id: Uuid, x: Uuid): MemberState
    requires Has(s, id, x)
  {
    ProcOf(s, id).members[x]
  }

  /** The step is the removal, and it reads a clock at which the entry is expired. */
  ghost predicate Takes(s: System, step: Step, id: Uuid, x: Uuid)
    requires Has(s, id, x)
  {
    step.RemoveDead? && step.id == id && x in step.readings && Expired(Entry(s, id, x), step.readings[x])
  }

  /**
   While the process lives, an entry goes exactly if the removal step finds it dead with a heartbeat
   older than the deadline; otherwise its (incarnation, heartbeat) does not go back, and at the same
   incarnation its info does not change.
   */
  lemma EntryFate(s: System, step: Step, id: Uuid, x: Uuid)
    requires Enabled(s, step) && Has(s, id, x) && Up(Next(s, step), id)
    ensures Has(Next(s, step), id, x) <==>
              !Takes(s, step, id, x)
    ensures Has(Next(s, step), id, x) ==> NoOlder(Entry(s, id, x), Entry(Next(s, step), id, x))
    ensures ProcOf(s, id).clock <= ProcOf(Next(s, step), id).clock
  {
    if step.id == id {
      if step.Deliver? || step.PingReply? || step.SyncReply? {
        EntryAtMessage(s, step, x);
      } else if step.PingTimeout? || step.SyncTimeout? {
        EntryAtTimeout(s, step, x);
      } else {
        EntryAtRest(s, step, x);
      }
    }
  }

  /** The entry is still there and has not gone back, and neither has the clock. */
  ghost predicate Kept(s: System, t: System, id: Uuid, x: Uuid) {
    && Has(s, id, x) && Has(t, id, x)
    && NoOlder(Entry(s, id, x), Entry(t, id, x))
    && ProcOf(s, id).clock <= ProcOf(t, id).clock
  }

  lemma EntryAtMessage(s: System, step: Step, x: Uuid)
    requires Enabled(s, step) && Has(s, step.id, x)
    requires step.Deliver? || step.PingReply? || step.SyncReply?
    ensures Kept(s, Next(s, step), step.id, x)
  {
    var p := ProcOf(s, step.id);
    HandleMonotone(p.current, p.members, step.msg, step.now, x);
  }

  lemma EntryAtTimeout(s: System, step: Step, x: Uuid)
    requires Enabled(s, step) && Has(s, step.id, x)
    requires step.PingTimeout? || step.SyncTimeout?
    ensures Kept(s, Next(s, step), step.id, x)
  {
  }

  lemma EntryAtRest(s: System, step: Step, x: Uuid)
    requires Enabled(s, step) && Has(s, step.id, x) && Up(Next(s, step), step.id)
    requires !(step.Deliver? || step.PingReply? || step.SyncReply? || step.PingTimeout? || step.SyncTimeout?)
    ensures Kept(s, Next(s, step), step.id, x) <==> !Takes(s, step, step.id, x)
    ensures Has(Next(s, step), step.id, x) ==> Kept(s, Next(s, step), step.id, x)
    ensures ProcOf(s, step.id).clock <= ProcOf(Next(s, step), step.id).clock
  {
  }

  /** What may change a process's entry about `x`: a Ping or Ack of `x`, a Sync, a timeout of `x`, the removal, the start. */
  predicate MayTouch(step: Step, id: Uuid, x: Uuid) {
    && step.id == id
    && (|| ((step.Deliver? || step.PingReply? || step.SyncReply?) && (step.msg.Sync? || step.msg.info.nodeId == x))
        || ((step.PingTimeout? || step.SyncTimeout?) && step.peer.nodeId == x)
        || step.RemoveDead? || step.Start?)
  }

  ghost predicate SameEntry(m: MemberMap, l: MemberMap, x: Uuid) {
    (x in m <==> x in l) && (x in m ==> m[x] == l[x])
  }

  /** Nothing else adds, changes or drops an entry, and the removal changes none that it keeps. */
  lemma OnlyTheseTouch(s: System, step: Step, id: Uuid, x: Uuid)
    requires Enabled(s, step) && Up(s, id) && Up(Next(s, step), id)
    requires !SameEntry(ProcOf(s, id).members, ProcOf(Next(s, step), id).members, x)
    ensures MayTouch(step, id, x)
    ensures step.RemoveDead? ==> x in ProcOf(s, id).members && x !in ProcOf(Next(s, step), id).members
  {
    if step.id == id {
      if step.Deliver? || step.PingReply? || step.SyncReply? {
        MessageTouches(s, step, x);
      } else if step.PingTimeout? || step.SyncTimeout? {
        TimeoutTouches(s, step, x);
      } else {
        RestTouches(s, step, x);
      }
    }
  }

  lemma MessageTouches(s: System, step: Step, x: Uuid)
    requires Enabled(s, step) && (step.Deliver? || step.PingReply? || step.SyncReply?)
    ensures Up(Next(s, step), step.id)
    ensures SameEntry(ProcOf(s, step.id).members, ProcOf(Next(s, step), step.id).members, x) || MayTouch(step, step.id, x)
  {
  }

  lemma TimeoutTouches(s: System, step: Step, x: Uuid)
    requires Enabled(s, step) && (step.PingTimeout? || step.SyncTimeout?)
    ensures Up(Next(s, step), step.id)
    ensures SameEntry(ProcOf(s, step.id).members, ProcOf(Next(s, step), step.id).members, x) || MayTouch(step, step.id, x)
  {
  }

  lemma RestTouches(s: System, step: Step, x: Uuid)
    requires Enabled(s, step) && Up(s, step.id) && Up(Next(s, step), step.id)
    requires !(step.Deliver? || step.PingReply? || step.SyncReply? || step.PingTimeout? || step.SyncTimeout?)
    ensures
      var before, after := ProcOf(s, step.id).members, ProcOf(Next(s, step), step.id).members;
      || SameEntry(before, after, x)
      || (MayTouch(step, step.id, x) && (step.RemoveDead? ==> x in before && x !in after))
  {
  }

  /** Before its start a process drops no entry. */
  lemma UnstartedDropsNothing(s: System, step: Step, id: Uuid, x: Uuid)
    requires Enabled(s, step) && Up(s, id) && Up(Next(s, step), id) && x in ProcOf(s, id).members
    requires !Running(Next(s, step), id)
    ensures x in ProcOf(Next(s, step), id).members
  {
    if step.id == id && (step.Deliver? || step.PingReply? || step.SyncReply?) {
      MessageDropsNothing(s, step, x);
    }
  }

  lemma MessageDropsNothing(s: System, step: Step, x: Uuid)
    requires Enabled(s, step) && (step.Deliver? || step.PingReply? || step.SyncReply?)
    requires x in ProcOf(s, step.id).members
    ensures Up(Next(s, step), step.id) && x in ProcOf(Next(s, step), step.id).members
  {
    var p := ProcOf(s, step.id);
    HandleMonotone(p.current, p.members, step.msg, step.now, x);
  }

  /** The process is up in every state of the stretch, so it is one and the same. */
  ghost predicate StaysUp(states: seq<System>, i: nat, j: nat, id: Uuid) {
    i <= j < |states| && forall k :: i <= k <= j ==> Up(states[k], id)
  }

  /** The entry is there in every state of the stretch, so neither removed nor lost to a restart. */
  ghost predicate Lifetime(states: seq<System>, i: nat, j: nat, id: Uuid, x: Uuid) {
    i <= j < |states| && forall k :: i <= k <= j ==> Has(states[k], id, x)
  }

  /** Over a whole lifetime, not just a step, an entry's (incarnation, heartbeat) does not go back. */
  lemma {:induction false} EntryMonotone(states: seq<System>, steps: seq<Step>, i: nat, j: nat, id: Uuid, x: Uuid)
    requires IsRun(states, steps) && Lifetime(states, i, j, id, x)
    ensures NoOlder(Entry(states[i], id, x), Entry(states[j], id, x))
    ensures ProcOf(states[i], id).clock <= ProcOf(states[j], id).clock
    decreases j
  {
    if i < j {
      EntryMonotone(states, steps, i, j - 1, id, x);
      assert Has(states[j - 1], id, x) && Has(states[j], id, x);
      assert Follows(states, steps, j - 1);
      EntryFate(states[j - 1], steps[j - 1], id, x);
    }
  }

  /** The step hands a Ping or an Ack about node `x` to process `id`. */
  predicate Hears(step: Step, id: Uuid, x: Uuid) {
    && (step.Deliver? || step.PingReply?)
    && step.id == id
    && !step.msg.Sync?
    && step.msg.info.nodeId == x
  }

  /**
   Removal safety. If the removal step takes an entry away, the entry was dead, and every Ping or
   Ack that this process accepted at the entry's incarnation during the entry's lifetime had come
   more than thirty seconds before.
   */
  lemma RemovalSafety(states: seq<System>, steps: seq<Step>, j: nat, k: nat, id: Uuid, x: Uuid)
    requires IsRun(states, steps) && j < k < |steps|
    requires Hears(steps[j], id, x)
    requires Lifetime(states, j + 1, k, id, x)
    requires Entry(states[k], id, x).info.incarnation == steps[j].msg.info.incarnation
    requires Up(states[k + 1], id) && !Has(states[k + 1], id, x)
    ensures steps[k].RemoveDead? && steps[k].id == id
    ensures Entry(states[k], id, x).status == Dead
    ensures x in steps[k].readings && steps[j].now + 30_000_000_000 < steps[k].readings[x] <= steps[k].now
  {
    assert Has(states[k], id, x);
    assert Follows(states, steps, k) && Follows(states, steps, j);
    EntryFate(states[k], steps[k], id, x);
    assert Has(states[j + 1], id, x);
    HeardIsFresh(states[j], steps[j], id, x);
    EntryMonotone(states, steps, j + 1, k, id, x);
  }

  /** A Ping or an Ack leaves an entry at or above its incarnation, and if at it, freshly heard of. */
  lemma HeardIsFresh(s: System, step: Step, id: Uuid, x: Uuid)
    requires Enabled(s, step) && Hears(step, id, x) && Has(Next(s, step), id, x)
    ensures
      var e := Entry(Next(s, step), id, x);
      && step.msg.info.incarnation <= e.info.incarnation
      && (step.msg.info.incarnation == e.info.incarnation ==> step.now <= e.heartbeat && e.status == Alive)
  {
  }

  /* Late timeouts */

  ghost predicate PingInFlight(s: System, id: Uuid, peer: NodeInfo) {
    Up(s, id) && ProcOf(s, id).pinging == Some(peer)
  }

  ghost predicate SyncInFlight(s: System, id: Uuid, peer: NodeInfo) {
    Up(s, id) && ProcOf(s, id).syncing == Some(peer)
  }

  lemma PingWasInFlight(states: seq<System>, steps: seq<Step>, k: nat, id: Uuid, peer: NodeInfo)
    requires IsRun(states, steps) && k < |steps|
    requires PingInFlight(states[k + 1], id, peer) && steps[k] != PingSend(id, peer)
    ensures PingInFlight(states[k], id, peer)
  {
    assert Follows(states, steps, k);
  }

  lemma SyncWasInFlight(states: seq<System>, steps: seq<Step>, k: nat, id: Uuid, peer: NodeInfo)
    requires IsRun(states, steps) && k < |steps|
    requires SyncInFlight(states[k + 1], id, peer) && steps[k] != SyncSend(id, peer)
    ensures SyncInFlight(states[k], id, peer)
  {
    assert Follows(states, steps, k);
  }

  /** A peer in flight was sent to at some step, and has been in flight in the same process since. */
  lemma {:induction false} PingOrigin(states: seq<System>, steps: seq<Step>, k: nat, id: Uuid, peer: NodeInfo)
    returns (j: nat)
    requires IsRun(states, steps) && k <= |steps| && PingInFlight(states[k], id, peer)
    ensures j < k && steps[j] == PingSend(id, peer)
    ensures forall i :: j < i <= k ==> PingInFlight(states[i], id, peer)
  {
    assert k > 0;
    if steps[k - 1] == PingSend(id, peer) {
      j := k - 1;
    } else {
      PingWasInFlight(states, steps, k - 1, id, peer);
      j := PingOrigin(states, steps, k - 1, id, peer);
    }
  }

  lemma {:induction false} SyncOrigin(states: seq<System>, steps: seq<Step>, k: nat, id: Uuid, peer: NodeInfo)
    returns (j: nat)
    requires IsRun(states, steps) && k <= |steps| && SyncInFlight(states[k], id, peer)
    ensures j < k && steps[j] == SyncSend(id, peer)
    ensures forall i :: j < i <= k ==> SyncInFlight(states[i], id, peer)
  {
    assert k > 0;
    if steps[k - 1] == SyncSend(id, peer) {
      j := k - 1;
    } else {
      SyncWasInFlight(states, steps, k - 1, id, peer);
      j := SyncOrigin(states, steps, k - 1, id, peer);
    }
  }

  predicate IsTimeout(step: Step) {
    step.PingTimeout? || step.SyncTimeout?
  }

  /** The process sent to this peer in state `s`, which was then an alive entry of its membership. */
  ghost predicate SentTo(s: System, id: Uuid, peer: NodeInfo) {
    Running(s, id) && Candidate(ProcOf(s, id).members, peer)
  }

  lemma TimeoutOrigin(states: seq<System>, steps: seq<Step>, k: nat) returns (j: nat)
    requires IsRun(states, steps) && k < |steps| && IsTimeout(steps[k])
    ensures j < k && SentTo(states[j], steps[k].id, steps[k].peer)
    ensures forall i :: j < i <= k ==> Up(states[i], steps[k].id)
  {
    var id, peer := steps[k].id, steps[k].peer;
    assert Follows(states, steps, k);
    if steps[k].PingTimeout? {
      j := PingOrigin(states, steps, k, id, peer);
      forall i | j < i <= k ensures Up(states[i], id) { assert PingInFlight(states[i], id, peer); }
    } else {
      j := SyncOrigin(states, steps, k, id, peer);
      forall i | j < i <= k ensures Up(states[i], id) { assert SyncInFlight(states[i], id, peer); }
    }
    assert Follows(states, steps, j);
  }

  /** The timeout changes the membership as `MarkDead` does. */
  lemma TimeoutEffect(states: seq<System>, steps: seq<Step>, k: nat)
    requires IsRun(states, steps) && k < |steps| && IsTimeout(steps[k])
    ensures Up(states[k], steps[k].id) && Up(states[k + 1], steps[k].id)
    ensures ProcOf(states[k + 1], steps[k].id).members == MarkDead(ProcOf(states[k], steps[k].id).members, steps[k].peer)
  {
    assert Follows(states, steps, k);
  }

  /**
   A timeout in any run goes back to a send by the same process, at a step `j` where the peer was an
   alive entry. Whatever steps ran since: it adds and removes no entry and changes no heartbeat; the
   only entry it may change is the peer's, and that only if its incarnation is now at most the one
   it had at the send. A peer that is still there at such an incarnation is dead afterwards.
   */
  lemma LateTimeout(states: seq<System>, steps: seq<Step>, k: nat) returns (j: nat)
    requires IsRun(states, steps) && k < |steps| && IsTimeout(steps[k])
    ensures j < k && SentTo(states[j], steps[k].id, steps[k].peer)
    ensures forall i :: j < i <= k + 1 ==> Up(states[i], steps[k].id)
    ensures
      var peer := steps[k].peer;
      var before, after := ProcOf(states[k], steps[k].id).members, ProcOf(states[k + 1], steps[k].id).members;
      && after.Keys == before.Keys
      && (forall x :: x in before ==>
            && after[x].heartbeat == before[x].heartbeat
            && (after[x] != before[x] ==>
                  x == peer.nodeId && before[x].info.incarnation <= peer.incarnation && after[x].status == Dead))
      && (peer.nodeId in before && before[peer.nodeId].info.incarnation <= peer.incarnation ==>
            IsDead(after, peer.nodeId))
  {
    j := TimeoutOrigin(states, steps, k);
    TimeoutEffect(states, steps, k);
    MarkDeadLaw(ProcOf(states[k], steps[k].id).members, steps[k].peer);
  }
}
