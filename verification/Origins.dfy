/**
 Where messages come from, over all runs: a Ping from its own node, an Ack only in answer to a Ping,
 and a Sync as a whole membership, so that every Sync a node handles merges some node's membership
 of some earlier time into its own.
 */
module Origins {
  import opened Nodes
  import opened Members
  import opened Gossip
  import opened Cluster
  import opened RoundTrip

  /** The step from `s` to `t` is the one that sends this message; only started nodes send unasked. */
  ghost predicate Originates(s: System, step: Step, t: System, msg: Message) {
    && Up(s, step.id)
    && var current := ProcOf(s, step.id).current;
       match msg
       case Ping(info) => Running(s, step.id) && (step.PingSend? || step.BootstrapPing?) && info == current
       case Ack(info) => step.Deliver? && step.msg.Ping? && info == current
       case Sync(reports) =>
         || (Running(s, step.id) && (step.SyncSend? || step.BootstrapSync?)
             && reports == Values(ProcOf(s, step.id).members))
         || (step.Deliver? && step.msg.Sync? && Up(t, step.id) && reports == Values(ProcOf(t, step.id).members))
  }

  /** A step sends exactly the messages that originate in it, and no message is ever lost from the network. */
  lemma SentExactly(s: System, step: Step, msg: Message)
    requires Enabled(s, step)
    ensures msg in Next(s, step).network <==> msg in s.network || Originates(s, step, Next(s, step), msg)
  {
    if step.Deliver? {
      AnsweredExactly(s, step, msg);
    } else {
      SentUnasked(s, step, msg);
    }
  }

  /** The answers: an Ack to a Ping, nothing to an Ack, and the merged membership to a Sync. */
  lemma Answers(s: System, step: Step)
    requires Enabled(s, step) && step.Deliver?
    ensures Up(Next(s, step), step.id)
    ensures
      var t := Next(s, step);
      match step.msg
      case Ping(_) => t.network == s.network + {Ack(ProcOf(s, step.id).current)}
      case Ack(_) => t.network == s.network
      case Sync(_) => t.network == s.network + {Sync(Values(ProcOf(t, step.id).members))}
  {
  }

  lemma AnsweredExactly(s: System, step: Step, msg: Message)
    requires Enabled(s, step) && step.Deliver?
    ensures msg in Next(s, step).network <==> msg in s.network || Originates(s, step, Next(s, step), msg)
  {
    Answers(s, step);
    AnswersMatch(s, step, Next(s, step), msg);
  }

  lemma AnswersMatch(s: System, step: Step, t: System, msg: Message)
    requires step.Deliver? && Up(s, step.id) && Up(t, step.id)
    requires
      match step.msg
      case Ping(_) => t.network == s.network + {Ack(ProcOf(s, step.id).current)}
      case Ack(_) => t.network == s.network
      case Sync(_) => t.network == s.network + {Sync(Values(ProcOf(t, step.id).members))}
    ensures msg in t.network <==> msg in s.network || Originates(s, step, t, msg)
  {
  }

  lemma SentUnasked(s: System, step: Step, msg: Message)
    requires Enabled(s, step) && !step.Deliver?
    ensures msg in Next(s, step).network <==> msg in s.network || Originates(s, step, Next(s, step), msg)
  {
  }

  ghost predicate SentAt(states: seq<System>, steps: seq<Step>, j: int, msg: Message)
    requires |states| == |steps| + 1 && 0 <= j < |steps|
  {
    Originates(states[j], steps[j], states[j + 1], msg)
  }

  lemma SentInRun(states: seq<System>, steps: seq<Step>, k: nat, msg: Message)
    requires IsRun(states, steps) && k < |steps|
    ensures msg in states[k + 1].network <==> msg in states[k].network || SentAt(states, steps, k, msg)
  {
    assert Follows(states, steps, k);
    SentExactly(states[k], steps[k], msg);
  }

  /**
   Over every run, every message on the network was sent by an earlier step: a Ping of a node's then
   current info by that node, an Ack of the then current info in answer to a Ping, or a Sync of a
   whole membership, sent unasked or in answer to a Sync and then with that Sync merged.
   */
  lemma {:induction false} MessageOrigin(states: seq<System>, steps: seq<Step>, k: nat, msg: Message)
    returns (j: nat)
    requires IsRun(states, steps) && k <= |steps| && msg in states[k].network
    ensures j < k && SentAt(states, steps, j, msg)
  {
    assert k > 0;
    SentInRun(states, steps, k - 1, msg);
    if msg in states[k - 1].network {
      j := MessageOrigin(states, steps, k - 1, msg);
    } else {
      j := k - 1;
    }
  }

  /** And what a step sent can be delivered at any later time. */
  lemma {:induction false} MessageStays(states: seq<System>, steps: seq<Step>, j: nat, k: nat, msg: Message)
    requires IsRun(states, steps) && j < k <= |steps| && SentAt(states, steps, j, msg)
    ensures msg in states[k].network
  {
    SentInRun(states, steps, k - 1, msg);
    if j < k - 1 {
      MessageStays(states, steps, j, k - 1, msg);
    }
  }

  /** An answer that ends a ping is an Ack that some node gave to a Ping, and one that ends a sync is a Sync. */
  lemma AnswersAreGenuine(states: seq<System>, steps: seq<Step>, k: nat) returns (j: nat)
    requires IsRun(states, steps) && k < |steps| && (steps[k].PingReply? || steps[k].SyncReply?)
    ensures j < k && SentAt(states, steps, j, steps[k].msg)
    ensures steps[k].PingReply? ==> steps[k].msg.Ack? && steps[j].Deliver? && steps[j].msg.Ping?
    ensures steps[k].SyncReply? ==> steps[k].msg.Sync?
  {
    assert Follows(states, steps, k);
    j := MessageOrigin(states, steps, k, steps[k].msg);
  }

  /** The membership of `y` in state `j`. */
  ghost predicate WasMembership(states: seq<System>, j: nat, y: Uuid, m: MemberMap) {
    j < |states| && Up(states[j], y) && ProcOf(states[j], y).members == m
  }

  lemma SyncIsMembership(states: seq<System>, steps: seq<Step>, k: nat, msg: Message)
    returns (j: nat, y: Uuid, m: MemberMap)
    requires IsRun(states, steps) && k <= |steps| && msg in states[k].network && msg.Sync?
    ensures j <= k && WasMembership(states, j, y, m) && msg.members == Values(m)
  {
    var i := MessageOrigin(states, steps, k, msg);
    y := steps[i].id;
    j := if steps[i].Deliver? then i + 1 else i;
    m := ProcOf(states[j], y).members;
  }

  /**
   In every run, whatever Sync a node handles, there is a node and a time at which its membership was
   the one merged: at each id but the node's own, the result is the merge of the two entries there.
   */
  lemma SyncMergesMembership(states: seq<System>, steps: seq<Step>, k: nat) returns (j: nat, y: Uuid, m: MemberMap)
    requires IsRun(states, steps) && k < |steps| && (steps[k].Deliver? || steps[k].SyncReply?) && steps[k].msg.Sync?
    ensures j <= k && WasMembership(states, j, y, m)
    ensures Up(states[k], steps[k].id) && Up(states[k + 1], steps[k].id)
    ensures
      var id := steps[k].id;
      var before, after := ProcOf(states[k], id).members, ProcOf(states[k + 1], id).members;
      && after.Keys == before.Keys + m.Keys + {id}
      && (forall x :: x in after && x != id ==>
            after[x] == if x !in m then before[x] else if x !in before then m[x] else Merge(before[x], m[x]))
  {
    assert Follows(states, steps, k);
    j, y, m := SyncIsMembership(states, steps, k, steps[k].msg);
    RunKeyed(states, steps, j, y);
    RunKeyed(states, steps, k, steps[k].id);
    RunSynced(states, steps, k, m);
    SyncedPointwise(ProcOf(states[k], steps[k].id).current, ProcOf(states[k], steps[k].id).members, m, steps[k].now);
  }

  lemma SyncedPointwise(current: NodeInfo, before: MemberMap, m: MemberMap, now: int)
    ensures
      var after := Synced(current, before, m, now);
      && after.Keys == before.Keys + m.Keys + {current.nodeId}
      && (forall x :: x in after && x != current.nodeId ==>
            after[x] == if x !in m then before[x] else if x !in before then m[x] else Merge(before[x], m[x]))
  {
  }
}
