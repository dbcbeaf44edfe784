/**
 Routing agreement: nodes whose memberships hold the same ids with the same infos and statuses, and
 whose rings are fresh, send every key to the same owner.
 */
module Agreement {
  import opened Wrappers
  import opened Nodes
  import opened Members
  import opened Rings
  import opened RingLaws
  import opened Gossip
  import opened Proxy
  import opened Cluster
  import opened Provenance
  import opened RoundTrip

  /** The same ids, each with the same info, incarnation and status; the heartbeats may differ. */
  ghost predicate SameView(m: MemberMap, l: MemberMap) {
    && (forall x :: x in m <==> x in l)
    && (forall x :: x in m ==> m[x].info == l[x].info && m[x].status == l[x].status)
  }

  lemma AgreeIsSameView(a: Uuid, ma: MemberMap, mb: MemberMap)
    requires Agree(a, ma, mb)
    ensures SameView(ma, mb) && SameView(mb, ma)
  {
  }

  /** Node `a` has the running node `y` down as alive, under the current info of `y`. */
  ghost predicate Knows(s: System, a: Uuid, y: Uuid) {
    Up(s, a) && Up(s, y) && Candidate(ProcOf(s, a).members, ProcOf(s, y).current)
  }

  /** The ring of `id` is the one that a rebuild would give. */
  ghost predicate RingFresh(s: System, id: Uuid) {
    Up(s, id) && ProcOf(s, id).ring == RingIds(ProcOf(s, id).current, ProcOf(s, id).members)
  }

  /** The route that node `id` computes in state `s`. */
  function RouteAt(s: System, h: Hasher, id: Uuid, digest: U32): RouteDest
    requires Up(s, id)
  {
    var p := ProcOf(s, id);
    Route(RingOf(h, DEFAULT_VNODE_COUNT, p.ring), p.members, p.current.nodeId, digest)
  }

  /** The node that `id` takes for the owner of a key. */
  function OwnerAt(s: System, h: Hasher, id: Uuid, digest: U32): Option<Uuid>
    requires Up(s, id)
  {
    var p := ProcOf(s, id);
    LookupUntil(RingOf(h, DEFAULT_VNODE_COUNT, p.ring), digest, Living(p.members))
  }

  /** Node `y` takes `n` for the owner: it serves the key if it is `n`, and otherwise redirects to `url`. */
  ghost predicate RoutesTo(s: System, h: Hasher, digest: U32, y: Uuid, n: Uuid, url: Url) {
    && Up(s, y)
    && OwnerAt(s, h, y, digest) == Some(n)
    && RouteAt(s, h, y, digest) == if n == y then Local else RemoteAddr(url)
  }

  /**
   All of these nodes route the key to one owner at one address. If the owner is one of them, the
   address is its own, so that a request to any of them needs at most one redirect.
   */
  ghost predicate RouteAlike(s: System, h: Hasher, digest: U32, ids: seq<Uuid>) {
    exists n, url :: CommonTarget(s, h, digest, ids, n, url)
  }

  ghost predicate CommonTarget(s: System, h: Hasher, digest: U32, ids: seq<Uuid>, n: Uuid, url: Url) {
    && (forall y :: y in ids ==> RoutesTo(s, h, digest, y, n, url))
    && (n in ids ==> url == ProcOf(s, n).current.dataUrl)
  }

  /** Views that are the same have the same living ring nodes, and so the same owner for every key. */
  lemma SameViewSameOwner(h: Hasher, vnodes: nat, digest: U32, ids: set<Uuid>, m: MemberMap, l: MemberMap)
    requires SameView(m, l)
    ensures LookupUntil(RingOf(h, vnodes, ids), digest, Living(m))
         == LookupUntil(RingOf(h, vnodes, ids), digest, Living(l))
  {
    assert forall n :: Living(m)(n) == Living(l)(n);
    assert Satisfying(ids, Living(m)) == Satisfying(ids, Living(l));
    SkippingIsRebuilding(h, vnodes, ids, digest, Living(m));
    SkippingIsRebuilding(h, vnodes, ids, digest, Living(l));
  }

  /** A node with a fresh ring that is alive in its own eyes finds an owner, and routes to it. */
  lemma OwnerIsFound(s: System, h: Hasher, digest: U32, y: Uuid)
    requires Inv(s) && RingFresh(s, y) && Knows(s, y, y)
    ensures OwnerAt(s, h, y, digest).Some? && OwnerAt(s, h, y, digest).value in ProcOf(s, y).members
    ensures
      var n := OwnerAt(s, h, y, digest).value;
      RoutesTo(s, h, digest, y, n, ProcOf(s, y).members[n].info.dataUrl)
  {
    var p := ProcOf(s, y);
    assert NodeOk(y, s.nodes[y]);
    LookupUntilFindsOwner(h, DEFAULT_VNODE_COUNT, p.ring, digest, Living(p.members));
    assert y in p.ring && Living(p.members)(y);
    var n := OwnerAt(s, h, y, digest).value;
    assert IsOwner(h, DEFAULT_VNODE_COUNT, p.ring, digest, Living(p.members), n);
    RouteFollowsOwner(h, DEFAULT_VNODE_COUNT, p.ring, p.members, y, digest);
  }

  /** The owner that `y` finds is the one that `a` finds, at the same address. */
  lemma SameViewSameRoute(s: System, h: Hasher, digest: U32, a: Uuid, y: Uuid)
    requires Inv(s) && RingFresh(s, a) && Knows(s, a, a) && RingFresh(s, y) && Knows(s, a, y)
    requires SameView(ProcOf(s, y).members, ProcOf(s, a).members)
    ensures OwnerAt(s, h, a, digest).Some? && OwnerAt(s, h, a, digest).value in ProcOf(s, a).members
    ensures
      var n := OwnerAt(s, h, a, digest).value;
      RoutesTo(s, h, digest, y, n, ProcOf(s, a).members[n].info.dataUrl)
  {
    var pa, py := ProcOf(s, a), ProcOf(s, y);
    assert NodeOk(a, s.nodes[a]) && NodeOk(y, s.nodes[y]);
    assert pa.ring == pa.members.Keys && py.ring == py.members.Keys;
    assert pa.members.Keys == py.members.Keys;
    SameViewSameOwner(h, DEFAULT_VNODE_COUNT, digest, pa.ring, py.members, pa.members);
    OwnerIsFound(s, h, digest, a);
    OwnerIsFound(s, h, digest, y);
  }

  /** Nodes with fresh rings that see what `a` sees, and that `a` knows alive, all route alike. */
  lemma SameViewsRouteAlike(s: System, h: Hasher, digest: U32, a: Uuid, ids: seq<Uuid>)
    requires Inv(s) && a in ids
    requires forall y :: y in ids ==>
               RingFresh(s, y) && Knows(s, a, y) && SameView(ProcOf(s, y).members, ProcOf(s, a).members)
    ensures RouteAlike(s, h, digest, ids)
  {
    SameViewSameRoute(s, h, digest, a, a);
    var n := OwnerAt(s, h, a, digest).value;
    var url := ProcOf(s, a).members[n].info.dataUrl;
    forall y | y in ids ensures RoutesTo(s, h, digest, y, n, url) {
      SameViewSameRoute(s, h, digest, a, y);
    }
    if n in ids {
      assert Knows(s, a, n);
      assert NodeOk(n, s.nodes[n]);
    }
    assert CommonTarget(s, h, digest, ids, n, url);
  }

  /* Ring rebuilds */

  /** The process is still the same one, under the same info. */
  ghost predicate Steady(s: System, t: System, y: Uuid) {
    && Up(s, y) && Up(t, y)
    && ProcOf(t, y).current == ProcOf(s, y).current
    && ProcOf(t, y).started == ProcOf(s, y).started
  }

  /** The process is steady and sees the same; it may have heard Pings, sent messages or rebuilt its ring. */
  ghost predicate Still(s: System, t: System, y: Uuid) {
    Steady(s, t, y) && SameView(ProcOf(t, y).members, ProcOf(s, y).members)
  }

  /**
   Any step of another node, a send, a ring rebuild, and a Ping or an Ack from a node known alive at
   a node that is not dead in its own eyes.
   */
  ghost predicate Quiet(s: System, step: Step, y: Uuid)
    requires Up(s, y)
  {
    var p := ProcOf(s, y);
    || step.id != y
    || step.PingSend? || step.SyncSend? || step.BootstrapPing? || step.BootstrapSync? || step.RebuildRing?
    || ((step.Deliver? || step.PingReply?) && !step.msg.Sync? && Candidate(p.members, step.msg.info)
        && !IsDead(p.members, p.current.nodeId))
  }

  /** So ordinary traffic among nodes that know each other changes no view. */
  lemma QuietIsStill(s: System, step: Step, y: Uuid)
    requires Enabled(s, step) && Up(s, y) && Quiet(s, step, y)
    ensures Still(s, Next(s, step), y)
  {
    if step.id != y {
      OthersAreStill(s, step, y);
    } else if step.Deliver? || step.PingReply? {
      PingIsStill(s, step);
    } else {
      SendIsStill(s, step);
    }
  }

  lemma OthersAreStill(s: System, step: Step, y: Uuid)
    requires Enabled(s, step) && Up(s, y) && step.id != y
    ensures Still(s, Next(s, step), y)
  {
    assert Next(s, step).nodes[y] == s.nodes[y];
  }

  lemma SendIsStill(s: System, step: Step)
    requires Enabled(s, step)
    requires step.PingSend? || step.SyncSend? || step.BootstrapPing? || step.BootstrapSync? || step.RebuildRing?
    ensures Still(s, Next(s, step), step.id)
  {
  }

  lemma PingIsStill(s: System, step: Step)
    requires Enabled(s, step) && (step.Deliver? || step.PingReply?) && !step.msg.Sync?
    requires Candidate(ProcOf(s, step.id).members, step.msg.info)
    requires !IsDead(ProcOf(s, step.id).members, ProcOf(s, step.id).current.nodeId)
    ensures Still(s, Next(s, step), step.id)
  {
  }

  ghost predicate StillAt(states: seq<System>, k: int, ids: seq<Uuid>)
    requires 0 <= k < |states| - 1
  {
    forall y :: y in ids ==> Still(states[k], states[k + 1], y)
  }

  /** From state i to state j no step changes what these nodes see; any step may come that does not. */
  ghost predicate Calm(states: seq<System>, i: nat, j: nat, ids: seq<Uuid>) {
    i <= j < |states| && forall k :: i <= k < j ==> StillAt(states, k, ids)
  }

  lemma {:induction false} CalmKeeps(states: seq<System>, i: nat, j: nat, ids: seq<Uuid>, y: Uuid)
    requires Calm(states, i, j, ids) && y in ids && Up(states[i], y)
    ensures Still(states[i], states[j], y)
    decreases j
  {
    if i < j {
      CalmKeeps(states, i, j - 1, ids, y);
      assert StillAt(states, j - 1, ids);
    }
  }

  ghost predicate RebuiltIn(steps: seq<Step>, i: nat, j: nat, id: Uuid)
    requires j <= |steps|
  {
    exists k :: i <= k < j && steps[k].RebuildRing? && steps[k].id == id
  }

  lemma RebuildStep(s: System, step: Step, id: Uuid)
    requires Enabled(s, step) && step.RebuildRing?
    ensures Up(s, id) ==> Still(s, Next(s, step), id)
    ensures step.id == id || RingFresh(s, id) ==> RingFresh(Next(s, step), id)
  {
  }

  /** A rebuild puts every member on the ring, dead or alive, and the node itself, and changes nothing else. */
  lemma RebuildsExactly(states: seq<System>, steps: seq<Step>, k: nat, y: Uuid)
    requires IsRun(states, steps) && k < |steps| && steps[k].RebuildRing? && Up(states[k], y)
    ensures Still(states[k], states[k + 1], y)
    ensures ProcOf(states[k + 1], y).members == ProcOf(states[k], y).members
    ensures ProcOf(states[k + 1], y).ring
         == if y == steps[k].id then ProcOf(states[k], y).members.Keys + {y} else ProcOf(states[k], y).ring
  {
    RunKeyed(states, steps, k, y);
    assert Follows(states, steps, k);
    RebuildOf(states[k], steps[k], y);
  }

  lemma RebuildOf(s: System, step: Step, y: Uuid)
    requires Enabled(s, step) && step.RebuildRing? && Up(s, y) && ProcOf(s, y).current.nodeId == y
    ensures Still(s, Next(s, step), y) && ProcOf(Next(s, step), y).members == ProcOf(s, y).members
    ensures ProcOf(Next(s, step), y).ring
         == if y == step.id then ProcOf(s, y).members.Keys + {y} else ProcOf(s, y).ring
  {
  }

  /** Only a rebuild changes a ring, and a ring stays fresh as long as its node sees the same. */
  lemma RingStays(s: System, step: Step, id: Uuid)
    requires Enabled(s, step) && Still(s, Next(s, step), id) && RingFresh(s, id)
    ensures RingFresh(Next(s, step), id)
  {
    var p, q := ProcOf(s, id), ProcOf(Next(s, step), id);
    assert q.members.Keys == p.members.Keys;
    RingKept(s, step, id);
  }

  lemma RingKept(s: System, step: Step, id: Uuid)
    requires Enabled(s, step) && Up(s, id) && Up(Next(s, step), id)
    ensures (step.RebuildRing? && step.id == id) || ProcOf(Next(s, step), id).ring == ProcOf(s, id).ring
  {
  }

  /** A ring that is rebuilt in a calm stretch is fresh at its end. */
  lemma {:induction false} RebuildsFreshen(states: seq<System>, steps: seq<Step>, i: nat, j: nat, ids: seq<Uuid>, y: Uuid)
    requires IsRun(states, steps) && Calm(states, i, j, ids) && y in ids && RebuiltIn(steps, i, j, y)
    ensures RingFresh(states[j], y)
    decreases j
  {
    var s, step := states[j - 1], steps[j - 1];
    assert Follows(states, steps, j - 1) && StillAt(states, j - 1, ids);
    if step.RebuildRing? && step.id == y {
      RebuildStep(s, step, y);
    } else {
      RebuildsFreshen(states, steps, i, j - 1, ids, y);
      RingStays(s, step, y);
    }
  }

  /** Started nodes can rebuild their rings at any time. */
  lemma {:induction false} RebuildsArePossible(states: seq<System>, steps: seq<Step>, ids: seq<Uuid>, n: nat)
    returns (states': seq<System>, steps': seq<Step>)
    requires IsRun(states, steps) && n <= |ids|
    requires forall y :: y in ids ==> Running(states[|steps|], y)
    ensures Extends(states, steps, states', steps') && Calm(states', |steps|, |steps'|, ids)
    ensures forall i :: 0 <= i < n ==> RebuiltIn(steps', |steps|, |steps'|, ids[i])
    decreases n
  {
    states', steps' := states, steps;
    if n > 0 {
      var states1, steps1 := RebuildsArePossible(states, steps, ids, n - 1);
      assert states1[|steps|] == states[|steps|];
      forall y | y in ids ensures Running(states1[|steps1|], y) {
        CalmKeeps(states1, |steps|, |steps1|, ids, y);
      }
      states', steps' := RebuildIsPossible(states1, steps1, ids, n - 1);
      CalmGoesOn(states1, states', |steps|, ids);
      forall i | 0 <= i < n ensures RebuiltIn(steps', |steps|, |steps'|, ids[i]) {
        if i < n - 1 {
          assert RebuiltIn(steps1, |steps|, |steps1|, ids[i]);
          var k :| |steps| <= k < |steps1| && steps1[k].RebuildRing? && steps1[k].id == ids[i];
          assert steps'[k] == steps1[k];
        }
      }
    }
  }

  lemma RebuildIsPossible(states: seq<System>, steps: seq<Step>, ids: seq<Uuid>, i: nat)
    returns (states': seq<System>, steps': seq<Step>)
    requires IsRun(states, steps) && i < |ids|
    requires forall y :: y in ids ==> Running(states[|steps|], y)
    ensures Extends(states, steps, states', steps') && |steps'| == |steps| + 1
    ensures steps'[|steps|].RebuildRing? && steps'[|steps|].id == ids[i]
    ensures StillAt(states', |steps|, ids)
  {
    var s := states[|steps|];
    assert ids[i] in ids;
    var step := RebuildRing(ids[i], ProcOf(s, ids[i]).clock);
    var t := Next(s, step);
    ExtendRun(states, steps, step, t);
    states', steps' := states + [t], steps + [step];
    forall y | y in ids ensures Still(s, t, y) {
      RebuildStep(s, step, y);
    }
  }

  lemma CalmGoesOn(states: seq<System>, states': seq<System>, i: nat, ids: seq<Uuid>)
    requires |states'| == |states| + 1 && states <= states' && states != []
    requires Calm(states, i, |states| - 1, ids) && StillAt(states', |states| - 1, ids)
    ensures Calm(states', i, |states|, ids)
  {
    forall k | i <= k < |states| ensures StillAt(states', k, ids) {
      if k < |states| - 1 {
        assert StillAt(states, k, ids);
      }
    }
  }

  /** Nodes that see the same route alike once each of them has rebuilt its ring and still sees the same. */
  lemma RebuildsAgree(states: seq<System>, steps: seq<Step>, i: nat, j: nat, a: Uuid, ids: seq<Uuid>,
                      h: Hasher, digest: U32)
    requires IsRun(states, steps) && Calm(states, i, j, ids) && a in ids
    requires forall y :: y in ids ==> RebuiltIn(steps, i, j, y)
    requires forall y :: y in ids ==>
               Knows(states[i], a, y) && SameView(ProcOf(states[i], y).members, ProcOf(states[i], a).members)
    ensures RouteAlike(states[j], h, digest, ids)
  {
    RunKeepsInv(states, steps, j);
    CalmKeeps(states, i, j, ids, a);
    forall y | y in ids
      ensures RingFresh(states[j], y) && Knows(states[j], a, y)
      ensures SameView(ProcOf(states[j], y).members, ProcOf(states[j], a).members)
    {
      CalmKeeps(states, i, j, ids, y);
      RebuildsFreshen(states, steps, i, j, ids, y);
    }
    SameViewsRouteAlike(states[j], h, digest, a, ids);
  }

  /**
   After a round trip of A with B in which A was held alive, and a ring rebuild at both before
   anything else changes what they see, A and B choose the same owner for every key under every hash.
   */
  lemma RoutingAgreement(states: seq<System>, steps: seq<Step>, k: nat, j: nat, a: Uuid, b: Uuid,
                         h: Hasher, digest: U32)
    requires IsRoundTrip(states, steps, k, a, b) && a != b
    requires HeldAlive(ProcOf(states[k], a).current, ProcOf(states[k], a).members, ProcOf(states[k], b).members)
    requires RebuiltBoth(states, steps, k + 3, j, a, b)
    ensures RouteAlike(states[j], h, digest, [a, b])
  {
    PairAgrees(states, steps, k, a, b);
    PairRoutes(states, steps, k + 3, j, a, b, h, digest);
  }

  /** From state i to state j the two nodes go on to see the same, and each rebuilds its ring. */
  ghost predicate RebuiltBoth(states: seq<System>, steps: seq<Step>, i: nat, j: nat, a: Uuid, b: Uuid) {
    && |states| == |steps| + 1 && Calm(states, i, j, [a, b])
    && RebuiltIn(steps, i, j, a) && RebuiltIn(steps, i, j, b)
  }

  lemma PairAgrees(states: seq<System>, steps: seq<Step>, k: nat, a: Uuid, b: Uuid)
    requires IsRoundTrip(states, steps, k, a, b) && a != b
    requires HeldAlive(ProcOf(states[k], a).current, ProcOf(states[k], a).members, ProcOf(states[k], b).members)
    ensures Knows(states[k + 3], a, a) && Knows(states[k + 3], a, b)
    ensures SameView(ProcOf(states[k + 3], b).members, ProcOf(states[k + 3], a).members)
  {
    SyncRoundTrip(states, steps, k, a, b);
    AgreeIsSameView(a, ProcOf(states[k + 3], a).members, ProcOf(states[k + 3], b).members);
  }

  lemma PairRoutes(states: seq<System>, steps: seq<Step>, i: nat, j: nat, a: Uuid, b: Uuid, h: Hasher, digest: U32)
    requires IsRun(states, steps) && RebuiltBoth(states, steps, i, j, a, b)
    requires Knows(states[i], a, a) && Knows(states[i], a, b)
    requires SameView(ProcOf(states[i], b).members, ProcOf(states[i], a).members)
    ensures RouteAlike(states[j], h, digest, [a, b])
  {
    var ids := [a, b];
    forall y | y in ids
      ensures RebuiltIn(steps, i, j, y) && Knows(states[i], a, y)
      ensures SameView(ProcOf(states[i], y).members, ProcOf(states[i], a).members)
    {
      assert y == a || y == b;
    }
    RebuildsAgree(states, steps, i, j, a, ids, h, digest);
  }
}
