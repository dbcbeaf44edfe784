/**
 The sweeps of the convergence theorem can always be made, so agreement is within reach of every run.
 */
module Reachability {
  import opened Nodes
  import opened Cluster
  import opened Provenance
  import opened RoundTrip
  import opened Agreement
  import opened Turns
  import opened Convergence

  /** A node that can begin a sweep over these peers. */
  ghost predicate CanSweep(s: System, a: Uuid, bs: seq<Uuid>) {
    && Distinct(bs) && a !in bs
    && Running(s, a) && ProcOf(s, a).syncing.None?
    && forall j :: 0 <= j < |bs| ==> Knows(s, a, bs[j])
  }

  lemma SyncSendIsStill(states: seq<System>, steps: seq<Step>, k: nat, ids: seq<Uuid>)
    requires IsRun(states, steps) && k < |steps| && (steps[k].SyncSend? || steps[k].BootstrapSync?)
    requires forall y :: y in ids ==> Up(states[k], y)
    ensures StillAt(states, k, ids)
  {
    assert Follows(states, steps, k);
    forall y | y in ids ensures Still(states[k], states[k + 1], y) {
      QuietIsStill(states[k], steps[k], y);
    }
  }

  lemma TripIsThere(states: seq<System>, steps: seq<Step>, k: nat, a: Uuid, b: Uuid)
    requires IsRoundTrip(states, steps, k, a, b)
    ensures HasTrip(states, steps, Turn(k, k, k + 1, k + 2, k + 3), a, b)
  {
  }

  /** A round trip that nothing interrupts is a turn. */
  lemma TripIsTurn(states: seq<System>, steps: seq<Step>, k: nat, a: Uuid, b: Uuid, ids: seq<Uuid>)
    requires IsRoundTrip(states, steps, k, a, b) && a in ids && b in ids && a != b
    requires forall y :: y in ids ==> Up(states[k], y)
    ensures IsTurn(states, steps, Turn(k, k, k + 1, k + 2, k + 3), a, b, ids)
  {
    SyncSendIsStill(states, steps, k, ids);
    TripIsThere(states, steps, k, a, b);
  }

  lemma TurnStays(states: seq<System>, steps: seq<Step>, states': seq<System>, steps': seq<Step>,
                  turn: Turn, a: Uuid, b: Uuid, ids: seq<Uuid>)
    requires IsTurn(states, steps, turn, a, b, ids) && Extends(states, steps, states', steps')
    ensures IsTurn(states', steps', turn, a, b, ids)
  {
    forall k | turn.from <= k < turn.to && k != turn.arrive && k != turn.answer ensures StillAt(states', k, ids) {
      assert StillAt(states, k, ids);
    }
  }

  lemma TurnsStay(states: seq<System>, steps: seq<Step>, states': seq<System>, steps': seq<Step>,
                  turns: seq<Turn>, a: Uuid, bs: seq<Uuid>, from: nat, to: nat)
    requires TurnsOf(states, steps, turns, a, bs, from, to) && Extends(states, steps, states', steps')
    ensures TurnsOf(states', steps', turns, a, bs, from, to)
  {
    forall i | 0 <= i < |turns| ensures TurnAt(states', steps', turns, a, bs, i) {
      assert TurnAt(states, steps, turns, a, bs, i);
      TurnStays(states, steps, states', steps', turns[i], a, bs[i], [a] + bs);
    }
  }

  lemma TripIsPossible(states: seq<System>, steps: seq<Step>, a: Uuid, b: Uuid)
    returns (states': seq<System>, steps': seq<Step>)
    requires IsRun(states, steps) && a != b
    requires Running(states[|steps|], a) && ProcOf(states[|steps|], a).syncing.None? && Knows(states[|steps|], a, b)
    ensures Extends(states, steps, states', steps') && |steps'| == |steps| + 3
    ensures IsRoundTrip(states', steps', |steps|, a, b)
    ensures Running(states'[|steps'|], a) && ProcOf(states'[|steps'|], a).syncing.None?
  {
    var s := states[|steps|];
    RunKeepsInv(states, steps, |steps|);
    KnownIsOlder(s, b, b);
    states', steps' :=
      RoundTripIsPossible(states, steps, a, ProcOf(s, b).current, ProcOf(s, b).clock, ProcOf(s, a).clock);
  }

  lemma AllUp(s: System, a: Uuid, bs: seq<Uuid>)
    requires CanSweep(s, a, bs)
    ensures forall y :: y in [a] + bs ==> Up(s, y)
  {
    forall y | y in [a] + bs ensures Up(s, y) {
      if y != a {
        var j :| 0 <= j < |bs| && bs[j] == y;
        assert Knows(s, a, bs[j]);
      }
    }
  }

  lemma TurnIsPossible(states: seq<System>, steps: seq<Step>, a: Uuid, bs: seq<Uuid>, i: nat)
    returns (states': seq<System>, steps': seq<Step>, turn: Turn)
    requires IsRun(states, steps) && CanSweep(states[|steps|], a, bs) && i < |bs|
    ensures Extends(states, steps, states', steps')
    ensures turn.from == |steps| && turn.to == |steps'| && IsTurn(states', steps', turn, a, bs[i], [a] + bs)
    ensures CanSweep(states'[|steps'|], a, bs)
  {
    var k := |steps|;
    assert Knows(states[k], a, bs[i]);
    states', steps' := TripIsPossible(states, steps, a, bs[i]);
    assert ([a] + bs)[i + 1] == bs[i] && states'[k] == states[k];
    AllUp(states[k], a, bs);
    turn := Turn(k, k, k + 1, k + 2, k + 3);
    TripIsTurn(states', steps', k, a, bs[i], [a] + bs);
    TurnTeaches(states', steps', turn, a, bs[i], [a] + bs);
    StaysKnown(states[k], states'[k + 3], a, bs, i);
  }

  /** The run has been extended by these turns, and `a` can go on. */
  ghost predicate Swept(states: seq<System>, steps: seq<Step>, states': seq<System>, steps': seq<Step>,
                        turns: seq<Turn>, a: Uuid, bs: seq<Uuid>)
  {
    && Extends(states, steps, states', steps')
    && TurnsOf(states', steps', turns, a, bs, |steps|, |steps'|)
    && CanSweep(states'[|steps'|], a, bs)
  }

  lemma LinkTurn(turns: seq<Turn>, turn: Turn, from: nat, to: nat)
    requires Linked(turns, from, to) && turn.from == to
    ensures Linked(turns + [turn], from, turn.to)
  {
    var more := turns + [turn];
    forall i | 0 <= i < |more| ensures more[i].from == Cut(more, from, i) {
      assert Cut(more, from, i) == Cut(turns, from, i);
    }
  }

  lemma AddTurn(states: seq<System>, steps: seq<Step>, turns: seq<Turn>, turn: Turn, a: Uuid, bs: seq<Uuid>,
                from: nat, to: nat)
    requires TurnsOf(states, steps, turns, a, bs, from, to) && |turns| < |bs|
    requires turn.from == to && IsTurn(states, steps, turn, a, bs[|turns|], [a] + bs)
    ensures TurnsOf(states, steps, turns + [turn], a, bs, from, turn.to)
  {
    LinkTurn(turns, turn, from, to);
    var more := turns + [turn];
    forall i | 0 <= i < |more| ensures TurnAt(states, steps, more, a, bs, i) {
      if i < |turns| {
        assert TurnAt(states, steps, turns, a, bs, i);
      }
    }
  }

  lemma SweptOnce(states: seq<System>, steps: seq<Step>, states1: seq<System>, steps1: seq<Step>,
                  turns: seq<Turn>, a: Uuid, bs: seq<Uuid>)
    returns (states': seq<System>, steps': seq<Step>, turn: Turn)
    requires |turns| < |bs| && Swept(states, steps, states1, steps1, turns, a, bs)
    ensures Swept(states, steps, states', steps', turns + [turn], a, bs)
  {
    states', steps', turn := TurnIsPossible(states1, steps1, a, bs, |turns|);
    TurnsStay(states1, steps1, states', steps', turns, a, bs, |steps|, |steps1|);
    AddTurn(states', steps', turns, turn, a, bs, |steps|, |steps1|);
  }

  lemma {:induction false} TurnsArePossible(states: seq<System>, steps: seq<Step>, a: Uuid, bs: seq<Uuid>, i: nat)
    returns (states': seq<System>, steps': seq<Step>, turns: seq<Turn>)
    requires IsRun(states, steps) && CanSweep(states[|steps|], a, bs) && i <= |bs|
    ensures |turns| == i && Swept(states, steps, states', steps', turns, a, bs)
    decreases i
  {
    states', steps', turns := states, steps, [];
    if i > 0 {
      states', steps', turns := TurnsArePossible(states, steps, a, bs, i - 1);
      var turn;
      states', steps', turn := SweptOnce(states, steps, states', steps', turns, a, bs);
      turns := turns + [turn];
    }
  }

  lemma SweepIsPossible(states: seq<System>, steps: seq<Step>, a: Uuid, bs: seq<Uuid>)
    returns (states': seq<System>, steps': seq<Step>, turns: seq<Turn>)
    requires IsRun(states, steps) && CanSweep(states[|steps|], a, bs)
    ensures Extends(states, steps, states', steps')
    ensures IsSweep(states', steps', turns, a, bs, |steps|, |steps'|)
    ensures CanSweep(states'[|steps'|], a, bs)
  {
    states', steps', turns := TurnsArePossible(states, steps, a, bs, |bs|);
  }

  lemma SweepStays(states: seq<System>, steps: seq<Step>, states': seq<System>, steps': seq<Step>,
                   turns: seq<Turn>, a: Uuid, bs: seq<Uuid>, from: nat, to: nat)
    requires IsSweep(states, steps, turns, a, bs, from, to) && Extends(states, steps, states', steps')
    ensures IsSweep(states', steps', turns, a, bs, from, to)
  {
    TurnsStay(states, steps, states', steps', turns, a, bs, from, to);
  }

  /**
   Any run can go on with two sweeps by a started node that has no sync in flight, over any peers
   that it knows alive under their current infos.
   */
  lemma TwoSweepsArePossible(states: seq<System>, steps: seq<Step>, a: Uuid, bs: seq<Uuid>)
    returns (states': seq<System>, steps': seq<Step>, first: seq<Turn>, second: seq<Turn>, mid: nat)
    requires IsRun(states, steps) && CanSweep(states[|steps|], a, bs)
    ensures Extends(states, steps, states', steps')
    ensures IsSweep(states', steps', first, a, bs, |steps|, mid)
    ensures IsSweep(states', steps', second, a, bs, mid, |steps'|)
  {
    var states1, steps1;
    states1, steps1, first := SweepIsPossible(states, steps, a, bs);
    mid := |steps1|;
    states', steps', second := SweepIsPossible(states1, steps1, a, bs);
    SweepStays(states1, steps1, states', steps', first, a, bs, |steps|, mid);
  }

  /** A sweep stops no process. */
  lemma {:induction false} SweepKeepsRunning(stages: seq<System>, a: Uuid, bs: seq<Uuid>, i: nat, y: Uuid)
    requires Stages(stages, a, bs) && i <= |bs| && y in [a] + bs && Running(stages[0], y)
    ensures Running(stages[i], y)
  {
    if i > 0 {
      SweepKeepsRunning(stages, a, bs, i - 1, y);
      assert Taught(stages[i - 1], stages[i], a, bs[i - 1], [a] + bs);
    }
  }

  lemma TwoSweepsKeepRunning(states: seq<System>, steps: seq<Step>, first: seq<Turn>, second: seq<Turn>,
                             a: Uuid, bs: seq<Uuid>, from: nat, mid: nat, to: nat, y: Uuid)
    requires IsSweep(states, steps, first, a, bs, from, mid) && IsSweep(states, steps, second, a, bs, mid, to)
    requires y in [a] + bs && Running(states[from], y)
    ensures Running(states[to], y)
  {
    var stages := SweepStages(states, steps, first, a, bs, from, mid);
    SweepKeepsRunning(stages, a, bs, |bs|, y);
    stages := SweepStages(states, steps, second, a, bs, mid, to);
    SweepKeepsRunning(stages, a, bs, |bs|, y);
  }

  lemma RebuildAllIsPossible(states: seq<System>, steps: seq<Step>, ids: seq<Uuid>)
    returns (states': seq<System>, steps': seq<Step>)
    requires IsRun(states, steps)
    requires forall y :: y in ids ==> Running(states[|steps|], y)
    ensures Extends(states, steps, states', steps') && Calm(states', |steps|, |steps'|, ids)
    ensures forall y :: y in ids ==> RebuiltIn(steps', |steps|, |steps'|, y)
  {
    states', steps' := RebuildsArePossible(states, steps, ids, |ids|);
    forall y | y in ids ensures RebuiltIn(steps', |steps|, |steps'|, y) {
      var i :| 0 <= i < |ids| && ids[i] == y;
      assert RebuiltIn(steps', |steps|, |steps'|, ids[i]);
    }
  }

  /**
   So any run that has come to a state in which a started node without a sync in flight knows some
   started peers alive can go on to a state in which it and all of them route every key alike.
   */
  lemma AgreementIsReachable(states: seq<System>, steps: seq<Step>, a: Uuid, bs: seq<Uuid>)
    returns (states': seq<System>, steps': seq<Step>)
    requires IsRun(states, steps) && CanSweep(states[|steps|], a, bs) && bs != []
    requires forall y :: y in bs ==> Running(states[|steps|], y)
    ensures Extends(states, steps, states', steps')
    ensures forall h, digest :: RouteAlike(states'[|steps'|], h, digest, [a] + bs)
  {
    var k := |steps|;
    var states1, steps1, first, second, mid := TwoSweepsArePossible(states, steps, a, bs);
    var to := |steps1|;
    assert states1[k] == states[k];
    forall y | y in [a] + bs ensures Running(states1[to], y) {
      TwoSweepsKeepRunning(states1, steps1, first, second, a, bs, k, mid, to, y);
    }
    states', steps' := RebuildAllIsPossible(states1, steps1, [a] + bs);
    SweepStays(states1, steps1, states', steps', first, a, bs, k, mid);
    SweepStays(states1, steps1, states', steps', second, a, bs, mid, to);
    forall h, digest ensures RouteAlike(states'[|steps'|], h, digest, [a] + bs) {
      ClusterRoutesAlike(states', steps', first, second, a, bs, k, mid, to, |steps'|, h, digest);
    }
  }
}
