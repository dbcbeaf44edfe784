/**
 What the two lookups mean. The reference definition, `IsOwner`, speaks of nodes, replicas and
 clockwise distance only; it knows neither maps, nor ranges, nor wrap-around.
 */
module RingLaws {
  import opened Wrappers
  import opened Ordering
  import opened Nodes
  import opened Rings

  /** How far clockwise from `digest` the position `x` lies. */
  function Distance(digest: U32, x: U32): nat {
    (x + MODULUS - digest) % MODULUS
  }

  lemma DistanceCases(digest: U32, x: U32)
    ensures x >= digest ==> Distance(digest, x) == x - digest
    ensures x < digest ==> Distance(digest, x) == x - digest + MODULUS
  {
  }

  /* On any ring */

  ghost predicate Holds(ring: Ring, x: U32, n: Uuid) {
    x in ring && n in ring[x]
  }

  ghost predicate NoFarther(digest: U32, x: U32, n: Uuid, y: U32, m: Uuid) {
    Distance(digest, x) < Distance(digest, y) || (x == y && n <= m)
  }

  /** Position `x` holds `n`, and no satisfying node on the ring is nearer. */
  ghost predicate NearestAt(ring: Ring, digest: U32, p: Uuid -> bool, x: U32, n: Uuid) {
    Holds(ring, x, n) && p(n)
    && forall y, m :: Holds(ring, y, m) && p(m) ==> NoFarther(digest, x, n, y, m)
  }

  lemma {:induction false} FindNodeIsFirst(ring: Ring, positions: set<U32>, p: Uuid -> bool) returns (x: U32)
    requires positions <= ring.Keys
    ensures FindNode(ring, positions, p).None? ==>
              forall y, m :: y in positions && Holds(ring, y, m) ==> !p(m)
    ensures FindNode(ring, positions, p).Some? ==>
              var n := FindNode(ring, positions, p).value;
              && x in positions && Holds(ring, x, n) && p(n)
              && forall y, m :: y in positions && Holds(ring, y, m) && p(m) ==> x < y || (x == y && n <= m)
    decreases |positions|
  {
    x := 0;
    if positions != {} {
      x := MinOf(positions);
      var hits := set n | n in ring[x] && p(n);
      if hits == {} {
        assert forall m :: Holds(ring, x, m) ==> !p(m) by {
          assert forall m :: m in ring[x] && p(m) ==> m in hits;
        }
        var rest := positions - {x};
        var least := x;
        x := FindNodeIsFirst(ring, rest, p);
        assert forall y :: y in positions ==> y in rest || y == least;
      } else {
        assert forall m :: Holds(ring, x, m) && p(m) ==> m in hits;
      }
    }
  }

  /**
   `lookup_until` returns `None` exactly if no node on the ring satisfies the predicate, and
   otherwise the satisfying node that is nearest clockwise, the least one where positions collide.
   */
  lemma LookupUntilIsNearest(ring: Ring, digest: U32, p: Uuid -> bool) returns (x: U32)
    ensures LookupUntil(ring, digest, p).None? <==> forall y, m :: Holds(ring, y, m) ==> !p(m)
    ensures LookupUntil(ring, digest, p).Some? ==>
              NearestAt(ring, digest, p, x, LookupUntil(ring, digest, p).value)
  {
    var ahead, behind := AtOrAfter(ring, digest), AtOrBefore(ring, digest);
    assert forall y :: y in ring ==> y in ahead || y in behind;
    forall y: U32 { DistanceCases(digest, y); }
    x := FindNodeIsFirst(ring, ahead, p);
    if FindNode(ring, ahead, p).None? {
      x := FindNodeIsFirst(ring, behind, p);
    }
  }

  /** The second range repeats the position of the digest itself; leaving it out changes nothing. */
  lemma OverlapIsHarmless(ring: Ring, digest: U32, p: Uuid -> bool)
    ensures LookupUntil(ring, digest, p)
         == match FindNode(ring, AtOrAfter(ring, digest), p)
            case Some(n) => Some(n)
            case None => FindNode(ring, AtOrBefore(ring, digest) - {digest}, p)
  {
    var ahead, behind := AtOrAfter(ring, digest), AtOrBefore(ring, digest);
    var _ := FindNodeIsFirst(ring, ahead, p);
    if FindNode(ring, ahead, p).None? {
      var x := FindNodeIsFirst(ring, behind, p);
      var y := FindNodeIsFirst(ring, behind - {digest}, p);
      assert digest in ring ==> forall m :: Holds(ring, digest, m) ==> !p(m);
    }
  }

  /* On the ring of a set of nodes */

  /** Replica `i` of `n` is no farther from the digest than replica `j` of `m`, ties going to the lesser node. */
  ghost predicate Precedes(h: Hasher, digest: U32, n: Uuid, i: nat, m: Uuid, j: nat) {
    var d, e := Distance(digest, h.vnode(n, i)), Distance(digest, h.vnode(m, j));
    d < e || (d == e && n <= m)
  }

  ghost predicate OwnsAt(h: Hasher, vnodes: nat, nodes: set<Uuid>, digest: U32, p: Uuid -> bool, n: Uuid, i: nat) {
    i < vnodes && forall m, j: nat :: m in nodes && p(m) && j < vnodes ==> Precedes(h, digest, n, i, m, j)
  }

  /** Among the nodes that satisfy `p`, `n` has the replica nearest clockwise from the digest. */
  ghost predicate IsOwner(h: Hasher, vnodes: nat, nodes: set<Uuid>, digest: U32, p: Uuid -> bool, n: Uuid) {
    n in nodes && p(n) && exists i: nat :: OwnsAt(h, vnodes, nodes, digest, p, n, i)
  }

  lemma OwnerIsUnique(h: Hasher, vnodes: nat, nodes: set<Uuid>, digest: U32, p: Uuid -> bool, n: Uuid, m: Uuid)
    requires IsOwner(h, vnodes, nodes, digest, p, n) && IsOwner(h, vnodes, nodes, digest, p, m)
    ensures n == m
  {
    var i: nat :| OwnsAt(h, vnodes, nodes, digest, p, n, i);
    var j: nat :| OwnsAt(h, vnodes, nodes, digest, p, m, j);
    assert Precedes(h, digest, n, i, m, j) && Precedes(h, digest, m, j, n, i);
  }

  lemma HoldsReplica(h: Hasher, vnodes: nat, nodes: set<Uuid>, n: Uuid, i: nat)
    requires n in nodes && i < vnodes
    ensures Holds(RingOf(h, vnodes, nodes), h.vnode(n, i), n)
  {
    RingOfMembership(h, vnodes, nodes, h.vnode(n, i));
    assert h.vnode(n, i) in VnodeSet(h, vnodes, n);
  }

  /**
   On the ring of any set of nodes, for any hash, the lookup finds exactly the owner; it fails
   exactly if no node satisfies the predicate or nodes have no replicas.
   */
  lemma LookupUntilFindsOwner(h: Hasher, vnodes: nat, nodes: set<Uuid>, digest: U32, p: Uuid -> bool)
    ensures forall n: Uuid :: LookupUntil(RingOf(h, vnodes, nodes), digest, p) == Some(n) <==>
              IsOwner(h, vnodes, nodes, digest, p, n)
    ensures LookupUntil(RingOf(h, vnodes, nodes), digest, p).None? <==>
              vnodes == 0 || forall n :: n in nodes ==> !p(n)
  {
    var ring := RingOf(h, vnodes, nodes);
    var found := LookupUntil(ring, digest, p);
    var x := LookupUntilIsNearest(ring, digest, p);
    if found.Some? {
      var n := found.value;
      RingOfMembership(h, vnodes, nodes, x);
      var i: nat :| i < vnodes && h.vnode(n, i) == x;
      forall m, j: nat | m in nodes && p(m) && j < vnodes
        ensures Precedes(h, digest, n, i, m, j)
      {
        HoldsReplica(h, vnodes, nodes, m, j);
      }
      assert OwnsAt(h, vnodes, nodes, digest, p, n, i);
      assert IsOwner(h, vnodes, nodes, digest, p, n);
      forall m | IsOwner(h, vnodes, nodes, digest, p, m) ensures m == n {
        OwnerIsUnique(h, vnodes, nodes, digest, p, n, m);
      }
    } else {
      forall n | n in nodes && vnodes > 0 ensures !p(n) {
        HoldsReplica(h, vnodes, nodes, n, 0);
      }
    }
  }

  /** Two lookups with the same owner relation give the same answer. */
  lemma SameOwnerSameLookup(h: Hasher, vnodes: nat, digest: U32,
                            a: set<Uuid>, p: Uuid -> bool, b: set<Uuid>, q: Uuid -> bool)
    requires forall n :: IsOwner(h, vnodes, a, digest, p, n) <==> IsOwner(h, vnodes, b, digest, q, n)
    ensures LookupUntil(RingOf(h, vnodes, a), digest, p) == LookupUntil(RingOf(h, vnodes, b), digest, q)
  {
    LookupUntilFindsOwner(h, vnodes, a, digest, p);
    LookupUntilFindsOwner(h, vnodes, b, digest, q);
    var x, y := LookupUntil(RingOf(h, vnodes, a), digest, p), LookupUntil(RingOf(h, vnodes, b), digest, q);
    assert x.Some? ==> IsOwner(h, vnodes, a, digest, p, x.value);
    assert y.Some? ==> IsOwner(h, vnodes, b, digest, q, y.value);
  }

  /* The ring is canonical */

  ghost predicate NoEmptyPosition(ring: Ring) {
    forall x :: x in ring ==> ring[x] != {}
  }

  /**
   The ring built from any order of nodes, with repeats, is the ring of their set; no position is
   empty, and the positions that hold a node are exactly its listed replicas.
   */
  lemma RingIsCanonical(h: Hasher, vnodes: nat, a: seq<Uuid>, b: seq<Uuid>)
    requires forall n :: n in a <==> n in b
    ensures RingOf(h, vnodes, Elements(a)) == RingOf(h, vnodes, Elements(b))
    ensures NoEmptyPosition(RingOf(h, vnodes, Elements(a)))
    ensures forall n, x :: n in a ==>
              (Holds(RingOf(h, vnodes, Elements(a)), x, n) <==> x in ListVnodes(h, vnodes, n))
  {
    assert Elements(a) == Elements(b);
    forall x: U32 { RingOfMembership(h, vnodes, Elements(a), x); }
    forall n, x: U32 ensures x in VnodeSet(h, vnodes, n) <==> x in ListVnodes(h, vnodes, n) {
      var ps := ListVnodes(h, vnodes, n);
      if x in ps {
        var i :| 0 <= i < |ps| && ps[i] == x;
      }
      if x in VnodeSet(h, vnodes, n) {
        var i :| 0 <= i < vnodes && h.vnode(n, i) == x;
        assert ps[i] == x;
      }
    }
  }

  predicate Anyone(n: Uuid) {
    true
  }

  lemma FindNodeIsFirstNode(ring: Ring, positions: set<U32>)
    requires NoEmptyPosition(ring) && positions <= ring.Keys
    ensures FindNode(ring, positions, Anyone) == FirstNode(ring, positions)
  {
    if positions != {} {
      var x := MinOf(positions);
      var p: Uuid -> bool := Anyone;
      assert (set n | n in ring[x] && p(n)) == ring[x];
    }
  }

  /** Without empty positions, `lookup` is `lookup_until` with the predicate that always holds. */
  lemma LookupIsUnconditional(ring: Ring, digest: U32)
    requires NoEmptyPosition(ring)
    ensures Lookup(ring, digest) == LookupUntil(ring, digest, Anyone)
  {
    var ahead, behind := AtOrAfter(ring, digest), AtOrBefore(ring, digest);
    FindNodeIsFirstNode(ring, ahead);
    FindNodeIsFirstNode(ring, behind);
    if ahead == {} {
      assert forall x :: x in ring ==> x <= digest by {
        assert forall x :: x in ring && x >= digest ==> x in ahead;
      }
      assert behind == ring.Keys;
    }
  }

  lemma LookupOnRingOf(h: Hasher, vnodes: nat, nodes: set<Uuid>, digest: U32)
    ensures Lookup(RingOf(h, vnodes, nodes), digest)
         == LookupUntil(RingOf(h, vnodes, nodes), digest, Anyone)
  {
    forall x: U32 { RingOfMembership(h, vnodes, nodes, x); }
    LookupIsUnconditional(RingOf(h, vnodes, nodes), digest);
  }

  /* Consistent hashing */

  function Satisfying(nodes: set<Uuid>, p: Uuid -> bool): set<Uuid> {
    set n | n in nodes && p(n)
  }

  /** Skipping the nodes that fail the predicate equals rebuilding the ring without them. */
  lemma SkippingIsRebuilding(h: Hasher, vnodes: nat, nodes: set<Uuid>, digest: U32, p: Uuid -> bool)
    ensures LookupUntil(RingOf(h, vnodes, nodes), digest, p)
         == Lookup(RingOf(h, vnodes, Satisfying(nodes, p)), digest)
  {
    var kept := Satisfying(nodes, p);
    forall n
      ensures IsOwner(h, vnodes, nodes, digest, p, n) <==> IsOwner(h, vnodes, kept, digest, Anyone, n)
    {
      forall i: nat
        ensures OwnsAt(h, vnodes, nodes, digest, p, n, i) <==> OwnsAt(h, vnodes, kept, digest, Anyone, n, i)
      {
      }
    }
    SameOwnerSameLookup(h, vnodes, digest, nodes, p, kept, Anyone);
    LookupOnRingOf(h, vnodes, kept, digest);
  }

  /** The owner among more nodes is the owner among any fewer that include it. */
  lemma OwnerAmongFewer(h: Hasher, vnodes: nat, digest: U32,
                        more: set<Uuid>, p: Uuid -> bool, fewer: set<Uuid>, q: Uuid -> bool, n: Uuid)
    requires Satisfying(fewer, q) <= Satisfying(more, p)
    requires IsOwner(h, vnodes, more, digest, p, n) && n in Satisfying(fewer, q)
    ensures IsOwner(h, vnodes, fewer, digest, q, n)
  {
    var i: nat :| OwnsAt(h, vnodes, more, digest, p, n, i);
    assert OwnsAt(h, vnodes, fewer, digest, q, n, i) by {
      forall m, j: nat | m in fewer && q(m) && j < vnodes
        ensures Precedes(h, digest, n, i, m, j)
      {
        assert m in Satisfying(fewer, q);
      }
    }
  }

  /** Adding a node moves a key only to that node. */
  lemma AddingMovesOnlyToTheNewNode(h: Hasher, vnodes: nat, nodes: set<Uuid>, added: Uuid,
                                    digest: U32, p: Uuid -> bool)
    ensures
      var before := LookupUntil(RingOf(h, vnodes, nodes), digest, p);
      var after := LookupUntil(RingOf(h, vnodes, nodes + {added}), digest, p);
      after == before || after == Some(added)
  {
    LookupUntilFindsOwner(h, vnodes, nodes, digest, p);
    LookupUntilFindsOwner(h, vnodes, nodes + {added}, digest, p);
    var after := LookupUntil(RingOf(h, vnodes, nodes + {added}), digest, p);
    if after.Some? && after.value != added {
      OwnerAmongFewer(h, vnodes, digest, nodes + {added}, p, nodes, p, after.value);
    }
  }

  /** When one node stops satisfying the predicate, only the keys it owned move. */
  lemma FailingMovesOnlyItsKeys(h: Hasher, vnodes: nat, nodes: set<Uuid>, failed: Uuid,
                                digest: U32, p: Uuid -> bool)
    ensures
      var before := LookupUntil(RingOf(h, vnodes, nodes), digest, p);
      var after := LookupUntil(RingOf(h, vnodes, nodes), digest, (n: Uuid) => p(n) && n != failed);
      after != before ==> before == Some(failed)
  {
    var q := (n: Uuid) => p(n) && n != failed;
    LookupUntilFindsOwner(h, vnodes, nodes, digest, p);
    LookupUntilFindsOwner(h, vnodes, nodes, digest, q);
    var before := LookupUntil(RingOf(h, vnodes, nodes), digest, p);
    if before.Some? && before.value != failed {
      OwnerAmongFewer(h, vnodes, digest, nodes, p, nodes, q, before.value);
    }
  }
}
