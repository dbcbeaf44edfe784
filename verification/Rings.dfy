/**
 The consistent hash ring (crates/gossip/src/ring.rs). The hash is an arbitrary function into
 `0..2^32`, so whatever is proved here holds for MurmurHash3 and for every collision it may have.
 */
module Rings {
  import opened Wrappers
  import opened Ordering
  import opened Nodes

  const MODULUS: nat := 0x1_0000_0000

  type U32 = x: nat | x < 0x1_0000_0000

  const DEFAULT_VNODE_COUNT: nat := 64

  /** `vnode(n, i)` is the hash of replica `i` of node `n`; `key(k)` is the hash of a key. */
  datatype Hasher = Hasher(vnode: (Uuid, nat) -> U32, key: string -> U32)

  type Ring = map<U32, set<Uuid>>

  /** `list_vnodes`: one entry for each replica, together exactly the positions of the node. */
  function ListVnodes(h: Hasher, vnodes: nat, node: Uuid): (ps: seq<U32>)
    ensures |ps| == vnodes
    ensures forall x :: x in ps <==> x in VnodeSet(h, vnodes, node)
  {
    var ps := seq<U32>(vnodes, i requires 0 <= i < vnodes => h.vnode(node, i));
    assert forall i :: 0 <= i < vnodes ==> ps[i] == h.vnode(node, i);
    ps
  }

  /* Lookup */

  /** `range(digest..)` */
  function AtOrAfter(ring: Ring, digest: U32): set<U32> {
    set x | x in ring && x >= digest
  }

  /** `range(..=digest)` */
  function AtOrBefore(ring: Ring, digest: U32): set<U32> {
    set x | x in ring && x <= digest
  }

  /** The least node of the least of these positions: `next()` on the map, then on the set. */
  function FirstNode(ring: Ring, positions: set<U32>): Option<Uuid>
    requires positions <= ring.Keys
  {
    if positions == {} then None else
      var nodes := ring[MinOf(positions)];
      if nodes == {} then None else Some(MinOf(nodes))
  }

  function Lookup(ring: Ring, digest: U32): Option<Uuid> {
    match FirstNode(ring, AtOrAfter(ring, digest))
    case Some(n) => Some(n)
    case None => FirstNode(ring, ring.Keys)
  }

  /** `find_map` over these positions in order: the first that holds a satisfying node gives its least. */
  function FindNode(ring: Ring, positions: set<U32>, p: Uuid -> bool): Option<Uuid>
    requires positions <= ring.Keys
    decreases |positions|
  {
    if positions == {} then None else
      var x := MinOf(positions);
      var hits := set n | n in ring[x] && p(n);
      if hits != {} then Some(MinOf(hits)) else FindNode(ring, positions - {x}, p)
  }

  function LookupUntil(ring: Ring, digest: U32, p: Uuid -> bool): Option<Uuid> {
    match FindNode(ring, AtOrAfter(ring, digest), p)
    case Some(n) => Some(n)
    case None => FindNode(ring, AtOrBefore(ring, digest), p)
  }

  /* Construction */

  /** Where the replicas of a node lie. */
  function VnodeSet(h: Hasher, vnodes: nat, node: Uuid): set<U32> {
    set i | 0 <= i < vnodes :: h.vnode(node, i)
  }

  function Positions(h: Hasher, vnodes: nat, nodes: set<Uuid>): set<U32> {
    set n, x | n in nodes && x in VnodeSet(h, vnodes, n) :: x
  }

  /** The ring of a set of nodes: each position holds exactly the nodes with a replica there. */
  function RingOf(h: Hasher, vnodes: nat, nodes: set<Uuid>): Ring {
    map x | x in Positions(h, vnodes, nodes) :: set n | n in nodes && x in VnodeSet(h, vnodes, n)
  }

  /** The ring after a node is inserted at these positions. */
  function Placed(ring: Ring, positions: set<U32>, node: Uuid): Ring {
    map x | x in ring.Keys + positions ::
      (if x in ring then ring[x] else {}) + (if x in positions then {node} else {})
  }

  lemma RingOfMembership(h: Hasher, vnodes: nat, nodes: set<Uuid>, x: U32)
    ensures x in RingOf(h, vnodes, nodes) <==> exists n :: n in nodes && x in VnodeSet(h, vnodes, n)
    ensures forall n :: x in RingOf(h, vnodes, nodes) && n in RingOf(h, vnodes, nodes)[x] <==>
              n in nodes && x in VnodeSet(h, vnodes, n)
  {
  }

  lemma PlacedNowhere(ring: Ring, node: Uuid)
    ensures Placed(ring, {}, node) == ring
  {
    var placed := Placed(ring, {}, node);
    assert placed.Keys == ring.Keys;
    assert forall x :: x in ring ==> placed[x] == ring[x];
  }

  /** Placing a node at one more position. */
  lemma PlacedOnce(ring: Ring, positions: set<U32>, node: Uuid, x: U32)
    ensures
      var placed := Placed(ring, positions, node);
      Placed(ring, positions + {x}, node) == placed[x := (if x in placed then placed[x] else {}) + {node}]
  {
    var placed := Placed(ring, positions, node);
    var more := Placed(ring, positions + {x}, node);
    var once := placed[x := (if x in placed then placed[x] else {}) + {node}];
    assert more.Keys == once.Keys;
    forall y | y in more ensures more[y] == once[y] {
      if y != x {
        assert y in positions + {x} <==> y in positions;
      }
    }
  }

  lemma PlacedRing(h: Hasher, vnodes: nat, nodes: set<Uuid>, node: Uuid)
    ensures Placed(RingOf(h, vnodes, nodes), VnodeSet(h, vnodes, node), node)
         == RingOf(h, vnodes, nodes + {node})
  {
    var placed := Placed(RingOf(h, vnodes, nodes), VnodeSet(h, vnodes, node), node);
    var ring := RingOf(h, vnodes, nodes + {node});
    forall x: U32
      ensures x in placed <==> x in ring
      ensures x in placed && x in ring ==> placed[x] == ring[x]
    {
      RingOfMembership(h, vnodes, nodes, x);
      RingOfMembership(h, vnodes, nodes + {node}, x);
    }
    assert placed.Keys == ring.Keys;
  }

  function Elements(order: seq<Uuid>): set<Uuid> {
    set n | n in order
  }

  class HashRing {
    const hasher: Hasher
    const vnodes: nat
    var nodes: Ring

    constructor (hasher: Hasher, vnodes: nat)
      ensures this.hasher == hasher && this.vnodes == vnodes
      ensures nodes == RingOf(hasher, vnodes, {})
    {
      this.hasher := hasher;
      this.vnodes := vnodes;
      nodes := map[];
    }

    /** The source's replica loop, one insertion per replica. */
    method AddNode(node: Uuid)
      modifies this
      ensures nodes == Placed(old(nodes), VnodeSet(hasher, vnodes, node), node)
    {
      assert VnodeSet(hasher, 0, node) == {};
      PlacedNowhere(nodes, node);
      for i := 0 to vnodes
        invariant nodes == Placed(old(nodes), VnodeSet(hasher, i, node), node)
      {
        var hash := hasher.vnode(node, i);
        PlacedOnce(old(nodes), VnodeSet(hasher, i, node), node, hash);
        assert VnodeSet(hasher, i + 1, node) == VnodeSet(hasher, i, node) + {hash};
        var slot := if hash in nodes then nodes[hash] else {};
        nodes := nodes[hash := slot + {node}];
      }
    }

    /** `From`: whatever the order and the repeats, the result is the ring of the set of nodes. */
    constructor From(hasher: Hasher, order: seq<Uuid>)
      ensures this.hasher == hasher && vnodes == DEFAULT_VNODE_COUNT
      ensures nodes == RingOf(hasher, vnodes, Elements(order))
    {
      this.hasher := hasher;
      vnodes := DEFAULT_VNODE_COUNT;
      nodes := map[];
      new;
      for i := 0 to |order|
        invariant nodes == RingOf(hasher, vnodes, Elements(order[..i]))
      {
        AddNode(order[i]);
        PlacedRing(hasher, vnodes, Elements(order[..i]), order[i]);
        assert Elements(order[..i + 1]) == Elements(order[..i]) + {order[i]};
      }
      assert order[..|order|] == order;
    }
  }
}
