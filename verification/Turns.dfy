/**
 What one Sync round trip teaches the two nodes, as far as their views go, when other steps come in
 between: other nodes may do anything, and these anything that leaves their views as they are.
 */
module Turns {
  import opened Nodes
  import opened Members
  import opened Gossip
  import opened Cluster
  import opened Provenance
  import opened RoundTrip
  import opened Agreement

  ghost function MembersOf(s: System, id: Uuid): MemberMap {
    if Up(s, id) then ProcOf(s, id).members else map[]
  }

  /** Whatever `l` knows, `m` knows at least as new. */
  ghost predicate Covers(m: MemberMap, l: MemberMap) {
    forall x :: x in l ==> x in m && l[x].info.incarnation <= m[x].info.incarnation
  }

  /* What one exchange teaches */

  ghost predicate SameAt(m: MemberMap, l: MemberMap, x: Uuid) {
    (x in m <==> x in l) && (x in m ==> m[x].info == l[x].info && m[x].status == l[x].status)
  }

  lemma SyncedAt(current: NodeInfo, m: MemberMap, other: MemberMap, now: int,
                 m': MemberMap, other': MemberMap, now': int, x: Uuid)
    requires SameAt(m', m, x) && SameAt(other', other, x)
    ensures SameAt(Synced(current, m', other', now'), Synced(current, m, other, now), x)
  {
  }

  /** The view after a Sync depends on the two views alone. */
  lemma SyncedView(current: NodeInfo, m: MemberMap, other: MemberMap, now: int,
                   m': MemberMap, other': MemberMap, now': int)
    requires SameView(m', m) && SameView(other', other)
    ensures SameView(Synced(current, m', other', now'), Synced(current, m, other, now))
  {
    var after, after' := Synced(current, m, other, now), Synced(current, m', other', now');
    forall x: Uuid ensures SameAt(after', after, x) {
      SyncedAt(current, m, other, now, m', other', now', x);
    }
    assert forall x :: x in after' || x in after ==> SameAt(after', after, x);
  }

  /** Where B has nothing newer, A's info and status survive the exchange. */
  lemma ExchangeKeeps(curA: NodeInfo, curB: NodeInfo, ma: MemberMap, mb: MemberMap, nowB: int, nowA: int, x: Uuid)
    requires Exchangeable(curA, curB, ma, mb)
    requires x in ma && x != curB.nodeId
    requires x in mb ==> mb[x].info.incarnation <= ma[x].info.incarnation
    requires x == curA.nodeId ==> Candidate(ma, curA)
    ensures
      var after := Synced(curA, ma, Synced(curB, mb, ma, nowB), nowA);
      x in after && after[x].info == ma[x].info && after[x].status == ma[x].status
  {
  }

  /** The exchange loses no incarnation at A, and adds no id but those of A, of B and of what B knew. */
  lemma ExchangeGrows(curA: NodeInfo, curB: NodeInfo, ma: MemberMap, mb: MemberMap, nowB: int, nowA: int, x: Uuid)
    requires Exchangeable(curA, curB, ma, mb)
    ensures
      var after := Synced(curA, ma, Synced(curB, mb, ma, nowB), nowA);
      && (x in ma ==> x in after && ma[x].info.incarnation <= after[x].info.incarnation)
      && (x in after ==> x in ma || x in mb || x == curA.nodeId || x == curB.nodeId)
  {
  }

  /** What the exchange does to the two memberships, as far as views go. */
  lemma ExchangeTeaches(curA: NodeInfo, curB: NodeInfo, ma: MemberMap, mb: MemberMap, nowB: int, nowA: int)
    requires Exchangeable(curA, curB, ma, mb)
    ensures
      var mb' := Synced(curB, mb, ma, nowB);
      var ma' := Synced(curA, ma, mb', nowA);
      && Covers(ma', ma) && Covers(ma', mb')
      && Candidate(ma', curA) && Candidate(ma', curB)
      && (Candidate(ma, curA) ==> SameView(mb', ma'))
  {
    var mb' := Synced(curB, mb, ma, nowB);
    var ma' := Synced(curA, ma, mb', nowA);
    Exchange(curA, curB, ma, mb, nowB, nowA);
    forall x | x in ma ensures x in ma' && ma[x].info.incarnation <= ma'[x].info.incarnation {
      ExchangeGrows(curA, curB, ma, mb, nowB, nowA, x);
    }
    if Candidate(ma, curA) {
      AgreeIsSameView(curA.nodeId, ma', mb');
    }
  }

  /** A that knows itself and B alive, and all that B knows, keeps its view. */
  lemma ExchangeKeepsView(curA: NodeInfo, curB: NodeInfo, ma: MemberMap, mb: MemberMap, nowB: int, nowA: int)
    requires Exchangeable(curA, curB, ma, mb)
    requires Candidate(ma, curA) && Candidate(ma, curB) && Covers(ma, mb)
    ensures SameView(Synced(curA, ma, Synced(curB, mb, ma, nowB), nowA), ma)
  {
    var ma' := Synced(curA, ma, Synced(curB, mb, ma, nowB), nowA);
    Exchange(curA, curB, ma, mb, nowB, nowA);
    forall x: Uuid
      ensures x in ma' <==> x in ma
      ensures x in ma && x in ma' ==> ma'[x].info == ma[x].info && ma'[x].status == ma[x].status
    {
      ExchangeGrows(curA, curB, ma, mb, nowB, nowA, x);
      if x in ma && x != curB.nodeId {
        ExchangeKeeps(curA, curB, ma, mb, nowB, nowA, x);
      }
    }
  }

  /** Between `s` and `t`, as far as views go, A and B have exchanged memberships and nothing else has changed. */
  ghost predicate ViewsExchanged(s: System, t: System, a: Uuid, b: Uuid, ids: seq<Uuid>, nowB: int, nowA: int) {
    && (forall y :: y in ids ==> Steady(s, t, y))
    && (forall y :: y in ids && y != a && y != b ==> Still(s, t, y))
    && a in ids && b in ids && a != b
    && var pa, pb := ProcOf(s, a), ProcOf(s, b);
       var mb' := Synced(pb.current, pb.members, pa.members, nowB);
       && SameView(ProcOf(t, b).members, mb')
       && SameView(ProcOf(t, a).members, Synced(pa.current, pa.members, mb', nowA))
  }

  /** Whom `a` knew alive, it still does. */
  ghost predicate StillKnown(s: System, t: System, a: Uuid, ids: seq<Uuid>) {
    forall y :: y in ids && y != a && Knows(s, a, y) ==> Knows(t, a, y)
  }

  /** What one round trip of A with B does to what these nodes know. */
  ghost predicate Taught(s: System, t: System, a: Uuid, b: Uuid, ids: seq<Uuid>) {
    && (forall y :: y in ids ==> Steady(s, t, y))
    && (forall y :: y in ids && y != a && y != b ==> SameView(MembersOf(t, y), MembersOf(s, y)))
    && Covers(MembersOf(t, a), MembersOf(s, a)) && Covers(MembersOf(t, a), MembersOf(t, b))
    && Knows(t, a, a) && Knows(t, a, b)
    && StillKnown(s, t, a, ids)
    && (Knows(s, a, a) ==> SameView(MembersOf(t, b), MembersOf(t, a)))
    && (Knows(s, a, a) && Knows(s, a, b) && Covers(MembersOf(s, a), MembersOf(s, b)) ==>
          SameView(MembersOf(t, a), MembersOf(s, a)))
  }

  /** Nobody has anything newer about a running node than the node itself, so a third node stays known alive. */
  lemma ThirdStaysKnown(s: System, t: System, a: Uuid, b: Uuid, ids: seq<Uuid>, nowB: int, nowA: int, y: Uuid)
    requires Inv(s) && ViewsExchanged(s, t, a, b, ids, nowB, nowA) && y in ids && y != a && y != b && Knows(s, a, y)
    ensures Knows(t, a, y)
  {
    var pa, pb := ProcOf(s, a), ProcOf(s, b);
    InvMakesExchangeable(s, a, b);
    KnownIsOlder(s, b, y);
    KnownIsOlder(s, b, b);
    ExchangeKeeps(pa.current, pb.current, pa.members, pb.members, nowB, nowA, y);
  }

  /** What memberships know that have the views of an exchange. */
  lemma ViewsTeach(curA: NodeInfo, curB: NodeInfo, ma: MemberMap, mb: MemberMap, nowB: int, nowA: int,
                   ta: MemberMap, tb: MemberMap)
    requires Exchangeable(curA, curB, ma, mb)
    requires SameView(tb, Synced(curB, mb, ma, nowB))
    requires SameView(ta, Synced(curA, ma, Synced(curB, mb, ma, nowB), nowA))
    ensures Covers(ta, ma) && Covers(ta, tb)
    ensures Candidate(ta, curA) && Candidate(ta, curB)
    ensures Candidate(ma, curA) ==> SameView(tb, ta)
    ensures Candidate(ma, curA) && Candidate(ma, curB) && Covers(ma, mb) ==> SameView(ta, ma)
  {
    ExchangeTeaches(curA, curB, ma, mb, nowB, nowA);
    if Candidate(ma, curA) && Candidate(ma, curB) && Covers(ma, mb) {
      ExchangeKeepsView(curA, curB, ma, mb, nowB, nowA);
    }
  }

  lemma OthersStayKnown(s: System, t: System, a: Uuid, b: Uuid, ids: seq<Uuid>, nowB: int, nowA: int)
    requires Inv(s) && ViewsExchanged(s, t, a, b, ids, nowB, nowA) && Knows(t, a, b)
    ensures StillKnown(s, t, a, ids)
  {
    forall y | y in ids && y != a && Knows(s, a, y) ensures Knows(t, a, y) {
      if y != b {
        ThirdStaysKnown(s, t, a, b, ids, nowB, nowA, y);
      }
    }
  }

  lemma PairTaught(s: System, t: System, a: Uuid, b: Uuid, ids: seq<Uuid>, nowB: int, nowA: int)
    requires ViewsExchanged(s, t, a, b, ids, nowB, nowA)
    requires Exchangeable(ProcOf(s, a).current, ProcOf(s, b).current, ProcOf(s, a).members, ProcOf(s, b).members)
    ensures Knows(t, a, b)
    ensures StillKnown(s, t, a, ids) ==> Taught(s, t, a, b, ids)
  {
    var pa, pb := ProcOf(s, a), ProcOf(s, b);
    ViewsTeach(pa.current, pb.current, pa.members, pb.members, nowB, nowA, ProcOf(t, a).members, ProcOf(t, b).members);
  }

  lemma ViewsTaught(s: System, t: System, a: Uuid, b: Uuid, ids: seq<Uuid>, nowB: int, nowA: int)
    requires Inv(s) && ViewsExchanged(s, t, a, b, ids, nowB, nowA)
    ensures Taught(s, t, a, b, ids)
  {
    InvMakesExchangeable(s, a, b);
    PairTaught(s, t, a, b, ids, nowB, nowA);
    OthersStayKnown(s, t, a, b, ids, nowB, nowA);
  }

  /* Turns */

  /** Where in a run a round trip lies: its three steps, and the states before and after it. */
  datatype Turn = Turn(from: nat, send: nat, arrive: nat, answer: nat, to: nat)

  predicate Ordered(turn: Turn) {
    turn.from <= turn.send < turn.arrive < turn.answer < turn.to
  }

  /** The three steps of a round trip of A with B, which need not follow each other at once. */
  ghost predicate HasTrip(states: seq<System>, steps: seq<Step>, turn: Turn, a: Uuid, b: Uuid)
    requires |states| == |steps| + 1 && Ordered(turn) && turn.to <= |steps|
  {
    && AsksAndTakes(steps[turn.send], steps[turn.answer], a) && Up(states[turn.send], a)
    && steps[turn.arrive].Deliver? && steps[turn.arrive].id == b && Up(states[turn.arrive + 1], b)
    && steps[turn.arrive].msg == Sync(Values(ProcOf(states[turn.send], a).members))
    && steps[turn.answer].msg == Sync(Values(ProcOf(states[turn.arrive + 1], b).members))
  }

  /** Apart from the arrival and the answer, no step of the turn changes what these nodes see. */
  ghost predicate IsTurn(states: seq<System>, steps: seq<Step>, turn: Turn, a: Uuid, b: Uuid, ids: seq<Uuid>) {
    && IsRun(states, steps) && Ordered(turn) && turn.to <= |steps|
    && HasTrip(states, steps, turn, a, b)
    && a in ids && b in ids && a != b
    && (forall y :: y in ids ==> Up(states[turn.from], y))
    && (forall k :: turn.from <= k < turn.to && k != turn.arrive && k != turn.answer ==> StillAt(states, k, ids))
  }

  /** The arrival and the answer change what their receivers see, and nothing else. */
  lemma TripStep(states: seq<System>, steps: seq<Step>, k: nat, y: Uuid)
    requires IsRun(states, steps) && k < |steps|
    requires (steps[k].Deliver? || steps[k].SyncReply?) && steps[k].msg.Sync? && Up(states[k], y)
    ensures Steady(states[k], states[k + 1], y)
    ensures y != steps[k].id ==> Still(states[k], states[k + 1], y)
  {
    RunReceives(states, steps, k);
  }

  lemma StillStill(s: System, t: System, u: System, y: Uuid)
    requires Still(s, t, y) && Still(t, u, y)
    ensures Still(s, u, y)
  {
  }

  /** One node through the whole turn: a third node, the initiator and the peer. */
  ghost predicate Through(states: seq<System>, turn: Turn, a: Uuid, b: Uuid, y: Uuid)
    requires Ordered(turn) && turn.to < |states|
  {
    && Still(states[turn.from], states[turn.send], y)
    && Still(states[turn.from], states[turn.arrive], y)
    && (y != b ==> Still(states[turn.from], states[turn.answer], y))
    && (y != a ==> Still(states[turn.arrive + 1], states[turn.to], y))
    && Still(states[turn.answer + 1], states[turn.to], y)
    && (y != a && y != b ==> Still(states[turn.from], states[turn.to], y))
    && Steady(states[turn.from], states[turn.to], y)
  }

  lemma TurnPasses(states: seq<System>, steps: seq<Step>, turn: Turn, a: Uuid, b: Uuid, ids: seq<Uuid>, y: Uuid)
    requires IsTurn(states, steps, turn, a, b, ids) && y in ids
    ensures Through(states, turn, a, b, y)
  {
    CalmKeeps(states, turn.from, turn.send, ids, y);
    CalmKeeps(states, turn.from, turn.arrive, ids, y);
    TripStep(states, steps, turn.arrive, y);
    CalmKeeps(states, turn.arrive + 1, turn.answer, ids, y);
    TripStep(states, steps, turn.answer, y);
    CalmKeeps(states, turn.answer + 1, turn.to, ids, y);
    Joins(states[turn.from], states[turn.arrive], states[turn.arrive + 1], states[turn.answer],
          states[turn.answer + 1], states[turn.to], a, b, y);
  }

  lemma Joins(s: System, s1: System, s2: System, s3: System, s4: System, t: System, a: Uuid, b: Uuid, y: Uuid)
    requires Still(s, s1, y) && Steady(s1, s2, y) && Still(s2, s3, y) && Steady(s3, s4, y) && Still(s4, t, y)
    requires (y != b ==> Still(s1, s2, y)) && (y != a ==> Still(s3, s4, y))
    ensures y != b ==> Still(s, s3, y)
    ensures y != a ==> Still(s2, t, y)
    ensures y != a && y != b ==> Still(s, t, y)
    ensures Steady(s, t, y)
  {
    if y != b {
      StillStill(s, s1, s2, y);
      StillStill(s, s2, s3, y);
    }
    if y != a {
      StillStill(s2, s3, s4, y);
      StillStill(s2, s4, t, y);
      if y != b {
        StillStill(s, s2, t, y);
      }
    }
  }

  /** The process of `id` has this info and sees what `p` sees. */
  ghost predicate Sees(s: System, id: Uuid, p: Proc) {
    Up(s, id) && ProcOf(s, id).current == p.current && SameView(ProcOf(s, id).members, p.members)
  }

  /** What it sees then, if it saw `m` and the sender of the Sync saw `o`. */
  lemma RunSyncedView(states: seq<System>, steps: seq<Step>, k: nat, other: MemberMap,
                      current: NodeInfo, m: MemberMap, o: MemberMap)
    requires IsRun(states, steps) && k < |steps| && Keyed(other) && SameView(other, o)
    requires (steps[k].Deliver? || steps[k].SyncReply?) && steps[k].msg == Sync(Values(other))
    requires Up(states[k], steps[k].id)
    requires ProcOf(states[k], steps[k].id).current == current && SameView(ProcOf(states[k], steps[k].id).members, m)
    ensures Up(states[k + 1], steps[k].id)
    ensures SameView(ProcOf(states[k + 1], steps[k].id).members, Synced(current, m, o, steps[k].now))
  {
    RunSynced(states, steps, k, other);
    SyncedView(current, m, o, steps[k].now, ProcOf(states[k], steps[k].id).members, other, steps[k].now);
  }

  /** The two receptions of a round trip, from what A and B saw and who they were before. */
  lemma TripExchanges(states: seq<System>, steps: seq<Step>, turn: Turn, a: Uuid, b: Uuid, pa: Proc, pb: Proc)
    requires IsRun(states, steps) && Ordered(turn) && turn.to <= |steps| && HasTrip(states, steps, turn, a, b)
    requires Sees(states[turn.send], a, pa) && Sees(states[turn.answer], a, pa) && Sees(states[turn.arrive], b, pb)
    ensures Up(states[turn.answer + 1], a)
    ensures
      var mb' := Synced(pb.current, pb.members, pa.members, steps[turn.arrive].now);
      && SameView(ProcOf(states[turn.arrive + 1], b).members, mb')
      && SameView(ProcOf(states[turn.answer + 1], a).members,
                  Synced(pa.current, pa.members, mb', steps[turn.answer].now))
  {
    var sent, answered := ProcOf(states[turn.send], a).members, ProcOf(states[turn.arrive + 1], b).members;
    RunKeyed(states, steps, turn.send, a);
    RunKeyed(states, steps, turn.arrive + 1, b);
    RunSyncedView(states, steps, turn.arrive, sent, pb.current, pb.members, pa.members);
    var mb' := Synced(pb.current, pb.members, pa.members, steps[turn.arrive].now);
    RunSyncedView(states, steps, turn.answer, answered, pa.current, pa.members, mb');
  }

  lemma StillSees(s: System, t: System, y: Uuid, m: MemberMap)
    requires Still(s, t, y) && SameView(ProcOf(s, y).members, m)
    ensures SameView(ProcOf(t, y).members, m)
  {
  }

  /** A and B at the end of the turn. */
  lemma PairExchanges(states: seq<System>, steps: seq<Step>, turn: Turn, a: Uuid, b: Uuid, pa: Proc, pb: Proc)
    requires IsRun(states, steps) && Ordered(turn) && turn.to <= |steps| && HasTrip(states, steps, turn, a, b)
    requires Sees(states[turn.send], a, pa) && Sees(states[turn.answer], a, pa) && Sees(states[turn.arrive], b, pb)
    requires Still(states[turn.arrive + 1], states[turn.to], b) && Still(states[turn.answer + 1], states[turn.to], a)
    ensures
      var mb' := Synced(pb.current, pb.members, pa.members, steps[turn.arrive].now);
      && SameView(ProcOf(states[turn.to], b).members, mb')
      && SameView(ProcOf(states[turn.to], a).members, Synced(pa.current, pa.members, mb', steps[turn.answer].now))
  {
    TripExchanges(states, steps, turn, a, b, pa, pb);
    var mb' := Synced(pb.current, pb.members, pa.members, steps[turn.arrive].now);
    var ma' := Synced(pa.current, pa.members, mb', steps[turn.answer].now);
    StillSees(states[turn.arrive + 1], states[turn.to], b, mb');
    StillSees(states[turn.answer + 1], states[turn.to], a, ma');
  }

  lemma TurnExchanges(states: seq<System>, steps: seq<Step>, turn: Turn, a: Uuid, b: Uuid, ids: seq<Uuid>)
    requires IsTurn(states, steps, turn, a, b, ids)
    ensures ViewsExchanged(states[turn.from], states[turn.to], a, b, ids, steps[turn.arrive].now, steps[turn.answer].now)
  {
    forall y | y in ids
      ensures Steady(states[turn.from], states[turn.to], y)
      ensures y != a && y != b ==> Still(states[turn.from], states[turn.to], y)
    {
      TurnPasses(states, steps, turn, a, b, ids, y);
    }
    TurnPasses(states, steps, turn, a, b, ids, a);
    TurnPasses(states, steps, turn, a, b, ids, b);
    PairExchanges(states, steps, turn, a, b, ProcOf(states[turn.from], a), ProcOf(states[turn.from], b));
  }

  /**
   In every run, a round trip with B teaches A all that B knew, leaves B with nothing that A does not
   know, and lets A know itself, B and every other of these nodes that it knew before as alive. If A
   was alive in its own eyes B gets A's view, and if besides A had nothing to learn from B, A's view stays.
   */
  lemma TurnTeaches(states: seq<System>, steps: seq<Step>, turn: Turn, a: Uuid, b: Uuid, ids: seq<Uuid>)
    requires IsTurn(states, steps, turn, a, b, ids)
    ensures Taught(states[turn.from], states[turn.to], a, b, ids)
  {
    TurnExchanges(states, steps, turn, a, b, ids);
    RunKeepsInv(states, steps, turn.from);
    ViewsTaught(states[turn.from], states[turn.to], a, b, ids, steps[turn.arrive].now, steps[turn.answer].now);
  }
}
