/**
 Convergence of the whole cluster: two sweeps of Sync round trips by one node bring every node it
 talks to, and itself, to the same view of all nodes, and once their rings are rebuilt all of them
 route every key to the same owner.
 */
module Convergence {
  import opened Nodes
  import opened Members
  import opened Rings
  import opened Cluster
  import opened Agreement
  import opened Turns

  ghost predicate Distinct(ids: seq<Uuid>) {
    forall i, j :: 0 <= i < j < |ids| ==> ids[i] != ids[j]
  }

  /** The states before, between and after the turns of `a` with each of `bs`. */
  ghost predicate Stages(stages: seq<System>, a: Uuid, bs: seq<Uuid>) {
    && |stages| == |bs| + 1
    && Distinct(bs) && a !in bs
    && (forall i :: 0 <= i < |bs| ==> Taught(stages[i], stages[i + 1], a, bs[i], [a] + bs))
  }

  /** In another's turn a peer goes on to see what it saw. */
  lemma PeerWaits(s: System, t: System, a: Uuid, bs: seq<Uuid>, i: nat, j: nat)
    requires Distinct(bs) && a !in bs && i < |bs| && j < |bs| && i != j && Taught(s, t, a, bs[i], [a] + bs)
    ensures SameView(MembersOf(t, bs[j]), MembersOf(s, bs[j]))
  {
    assert ([a] + bs)[j + 1] == bs[j];
  }

  /** The peers whose turn has not come see what they saw at first. */
  lemma {:induction false} SweepWaits(stages: seq<System>, a: Uuid, bs: seq<Uuid>, i: nat, j: nat)
    requires Stages(stages, a, bs) && i <= j < |bs|
    ensures SameView(MembersOf(stages[i], bs[j]), MembersOf(stages[0], bs[j]))
  {
    if i > 0 {
      SweepWaits(stages, a, bs, i - 1, j);
      PeerWaits(stages[i - 1], stages[i], a, bs, i - 1, j);
    }
  }

  /** After i turns of a sweep, A covers the i peers it has talked to and knows them alive. */
  ghost predicate Gathered(s: System, a: Uuid, bs: seq<Uuid>, i: nat)
    requires i <= |bs|
  {
    && (i > 0 ==> Knows(s, a, a))
    && forall j :: 0 <= j < i ==> Knows(s, a, bs[j]) && Covers(MembersOf(s, a), MembersOf(s, bs[j]))
  }

  lemma GatherOne(s: System, t: System, a: Uuid, bs: seq<Uuid>, i: nat)
    requires Distinct(bs) && a !in bs && i < |bs| && Gathered(s, a, bs, i) && Taught(s, t, a, bs[i], [a] + bs)
    ensures Gathered(t, a, bs, i + 1)
  {
    forall j | 0 <= j < i + 1
      ensures Knows(t, a, bs[j]) && Covers(MembersOf(t, a), MembersOf(t, bs[j]))
    {
      if j < i {
        assert Knows(s, a, bs[j]);
        assert ([a] + bs)[j + 1] == bs[j];
        PeerWaits(s, t, a, bs, i, j);
      }
    }
  }

  lemma {:induction false} SweepGathers(stages: seq<System>, a: Uuid, bs: seq<Uuid>, i: nat)
    requires Stages(stages, a, bs) && i <= |bs|
    ensures Gathered(stages[i], a, bs, i)
  {
    if i > 0 {
      SweepGathers(stages, a, bs, i - 1);
      GatherOne(stages[i - 1], stages[i], a, bs, i - 1);
    }
  }

  /** After i turns of the second sweep, A and the first i peers all have the view `m`; A knows all peers. */
  ghost predicate Spread(s: System, a: Uuid, bs: seq<Uuid>, i: nat, m: MemberMap)
    requires i <= |bs|
  {
    && Knows(s, a, a) && SameView(MembersOf(s, a), m)
    && (forall j :: 0 <= j < |bs| ==> Knows(s, a, bs[j]))
    && (forall j :: 0 <= j < i ==> SameView(MembersOf(s, bs[j]), m))
  }

  lemma StaysKnown(s: System, t: System, a: Uuid, bs: seq<Uuid>, i: nat)
    requires a !in bs && i < |bs| && Taught(s, t, a, bs[i], [a] + bs)
    requires forall j :: 0 <= j < |bs| ==> Knows(s, a, bs[j])
    ensures forall j :: 0 <= j < |bs| ==> Knows(t, a, bs[j])
  {
    forall j | 0 <= j < |bs| ensures Knows(t, a, bs[j]) {
      assert ([a] + bs)[j + 1] == bs[j];
    }
  }

  lemma SpreadOne(s: System, t: System, a: Uuid, bs: seq<Uuid>, i: nat, m: MemberMap)
    requires Distinct(bs) && a !in bs && i < |bs| && Spread(s, a, bs, i, m) && Taught(s, t, a, bs[i], [a] + bs)
    requires Covers(m, MembersOf(s, bs[i]))
    ensures Spread(t, a, bs, i + 1, m)
  {
    StaysKnown(s, t, a, bs, i);
    assert Knows(s, a, bs[i]);
    assert Covers(MembersOf(s, a), MembersOf(s, bs[i]));
    forall j | 0 <= j < i + 1 ensures SameView(MembersOf(t, bs[j]), m) {
      if j < i {
        PeerWaits(s, t, a, bs, i, j);
      }
    }
  }

  /** A sweep by a node that has gathered from all its peers brings its view to each of them. */
  lemma {:induction false} SweepSpreads(stages: seq<System>, a: Uuid, bs: seq<Uuid>, i: nat)
    requires Stages(stages, a, bs) && i <= |bs|
    requires bs != [] && Gathered(stages[0], a, bs, |bs|)
    ensures Spread(stages[i], a, bs, i, MembersOf(stages[0], a))
  {
    if i > 0 {
      SweepSpreads(stages, a, bs, i - 1);
      SweepWaits(stages, a, bs, i - 1, i - 1);
      SpreadOne(stages[i - 1], stages[i], a, bs, i - 1, MembersOf(stages[0], a));
    }
  }

  ghost predicate TurnAt(states: seq<System>, steps: seq<Step>, turns: seq<Turn>, a: Uuid, bs: seq<Uuid>, i: int)
    requires 0 <= i < |turns| <= |bs|
  {
    IsTurn(states, steps, turns[i], a, bs[i], [a] + bs)
  }

  /** Where turn i begins, or the last one ends. */
  function Cut(turns: seq<Turn>, from: nat, i: nat): nat
    requires i <= |turns|
  {
    if i == 0 then from else turns[i - 1].to
  }

  /** Each turn begins where the one before it ends. */
  predicate Linked(turns: seq<Turn>, from: nat, to: nat) {
    && (forall i :: 0 <= i < |turns| ==> turns[i].from == Cut(turns, from, i))
    && to == Cut(turns, from, |turns|)
  }

  /** Turns of `a` with the first of `bs`, one after the other, from one state to another. */
  ghost predicate TurnsOf(states: seq<System>, steps: seq<Step>, turns: seq<Turn>, a: Uuid, bs: seq<Uuid>,
                        from: nat, to: nat)
  {
    && |turns| <= |bs|
    && (forall i :: 0 <= i < |turns| ==> TurnAt(states, steps, turns, a, bs, i))
    && Linked(turns, from, to)
  }

  /** A sweep: node `a` makes one round trip with each of `bs` in turn. */
  ghost predicate IsSweep(states: seq<System>, steps: seq<Step>, turns: seq<Turn>, a: Uuid, bs: seq<Uuid>,
                          from: nat, to: nat)
  {
    && IsRun(states, steps) && from <= |steps| && to <= |steps|
    && Distinct(bs) && a !in bs
    && |turns| == |bs| && TurnsOf(states, steps, turns, a, bs, from, to)
  }

  ghost function StagesOf(states: seq<System>, turns: seq<Turn>, from: nat): seq<System>
    requires forall i :: 0 <= i <= |turns| ==> Cut(turns, from, i) < |states|
  {
    seq(|turns| + 1, i requires 0 <= i < |turns| + 1 => states[Cut(turns, from, i)])
  }

  lemma CutsInRange(states: seq<System>, steps: seq<Step>, turns: seq<Turn>, a: Uuid, bs: seq<Uuid>, from: nat, to: nat)
    requires IsSweep(states, steps, turns, a, bs, from, to)
    ensures forall i :: 0 <= i <= |turns| ==> Cut(turns, from, i) < |states|
  {
    forall i | 0 <= i <= |turns| ensures Cut(turns, from, i) < |states| {
      if i > 0 {
        assert TurnAt(states, steps, turns, a, bs, i - 1);
      }
    }
  }

  ghost predicate StageTaught(states: seq<System>, turns: seq<Turn>, a: Uuid, bs: seq<Uuid>, from: nat, i: int)
    requires 0 <= i < |turns| <= |bs|
  {
    && Cut(turns, from, i) < |states| && Cut(turns, from, i + 1) < |states|
    && Taught(states[Cut(turns, from, i)], states[Cut(turns, from, i + 1)], a, bs[i], [a] + bs)
  }

  lemma StageTeaches(states: seq<System>, steps: seq<Step>, turns: seq<Turn>, a: Uuid, bs: seq<Uuid>,
                     from: nat, to: nat, i: nat)
    requires TurnsOf(states, steps, turns, a, bs, from, to) && i < |turns|
    ensures StageTaught(states, turns, a, bs, from, i)
  {
    assert TurnAt(states, steps, turns, a, bs, i);
    TurnTeaches(states, steps, turns[i], a, bs[i], [a] + bs);
  }

  lemma StagesTaught(states: seq<System>, turns: seq<Turn>, a: Uuid, bs: seq<Uuid>, from: nat)
    requires Distinct(bs) && a !in bs && |turns| == |bs|
    requires forall i :: 0 <= i <= |turns| ==> Cut(turns, from, i) < |states|
    requires forall i :: 0 <= i < |turns| ==> StageTaught(states, turns, a, bs, from, i)
    ensures Stages(StagesOf(states, turns, from), a, bs)
  {
    forall i | 0 <= i < |bs|
      ensures Taught(StagesOf(states, turns, from)[i], StagesOf(states, turns, from)[i + 1], a, bs[i], [a] + bs)
    {
      assert StageTaught(states, turns, a, bs, from, i);
    }
  }

  lemma SweepStages(states: seq<System>, steps: seq<Step>, turns: seq<Turn>, a: Uuid, bs: seq<Uuid>, from: nat, to: nat)
    returns (stages: seq<System>)
    requires IsSweep(states, steps, turns, a, bs, from, to)
    ensures Stages(stages, a, bs) && stages[0] == states[from] && stages[|bs|] == states[to]
  {
    CutsInRange(states, steps, turns, a, bs, from, to);
    forall i | 0 <= i < |turns| ensures StageTaught(states, turns, a, bs, from, i) {
      StageTeaches(states, steps, turns, a, bs, from, to, i);
    }
    StagesTaught(states, turns, a, bs, from);
    stages := StagesOf(states, turns, from);
  }

  /** In this state `a` knows all of these nodes alive, and they all have its view. */
  ghost predicate Converged(s: System, a: Uuid, ids: seq<Uuid>) {
    forall y :: y in ids ==> Knows(s, a, y) && SameView(ProcOf(s, y).members, ProcOf(s, a).members)
  }

  /**
   In every run, whatever timed out before, two consecutive sweeps of round trips by one node over
   any peers end with that node and all its peers holding the same ids, each under the same info,
   incarnation and status, and all of them alive there under their current infos.
   */
  lemma TwoSweepsConverge(states: seq<System>, steps: seq<Step>, first: seq<Turn>, second: seq<Turn>,
                          a: Uuid, bs: seq<Uuid>, from: nat, mid: nat, to: nat)
    requires IsSweep(states, steps, first, a, bs, from, mid) && IsSweep(states, steps, second, a, bs, mid, to)
    requires bs != []
    ensures Converged(states[to], a, [a] + bs)
  {
    var gathering := SweepStages(states, steps, first, a, bs, from, mid);
    var spreading := SweepStages(states, steps, second, a, bs, mid, to);
    SweepGathers(gathering, a, bs, |bs|);
    SweepSpreads(spreading, a, bs, |bs|);
    SpreadConverges(states[to], a, bs, MembersOf(states[mid], a));
  }

  lemma SpreadConverges(s: System, a: Uuid, bs: seq<Uuid>, m: MemberMap)
    requires Spread(s, a, bs, |bs|, m)
    ensures Converged(s, a, [a] + bs)
  {
    forall y | y in [a] + bs
      ensures Knows(s, a, y) && SameView(ProcOf(s, y).members, ProcOf(s, a).members)
    {
      if y != a {
        var j :| 0 <= j < |bs| && bs[j] == y;
        assert Knows(s, a, bs[j]) && SameView(MembersOf(s, bs[j]), m);
      }
    }
  }

  /**
   The main theorem. In every run, after two sweeps by one node and then a ring rebuild at it and at
   all its peers, they all choose the same owner for every key under every hash, and redirect to it
   at the same address; if the owner is one of them, that is its own current address, and it serves
   the key.
   */
  lemma ClusterRoutesAlike(states: seq<System>, steps: seq<Step>, first: seq<Turn>, second: seq<Turn>,
                           a: Uuid, bs: seq<Uuid>, from: nat, mid: nat, to: nat, end: nat, h: Hasher, digest: U32)
    requires IsSweep(states, steps, first, a, bs, from, mid) && IsSweep(states, steps, second, a, bs, mid, to)
    requires bs != [] && Calm(states, to, end, [a] + bs)
    requires forall y :: y in [a] + bs ==> RebuiltIn(steps, to, end, y)
    ensures RouteAlike(states[end], h, digest, [a] + bs)
  {
    TwoSweepsConverge(states, steps, first, second, a, bs, from, mid, to);
    RebuildsAgree(states, steps, to, end, a, [a] + bs, h, digest);
  }
}
