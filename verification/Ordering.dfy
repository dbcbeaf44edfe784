/**
 The iteration order of the source's `BTreeMap` and `BTreeSet`: the least element of a set, and
 the strictly ascending sequence of its elements.
 */
module Ordering {

  lemma {:induction false} FindMin(s: set<nat>) returns (m: nat)
    requires s != {}
    ensures m in s && forall x :: x in s ==> m <= x
  {
    m :| m in s;
    var rest := s - {m};
    assert forall x :: x in s ==> x == m || x in rest;
    if rest != {} {
      var least := FindMin(rest);
      m := if least <= m then least else m;
    }
  }

  lemma MinExists(s: set<nat>)
    requires s != {}
    ensures exists m :: m in s && forall x :: x in s ==> m <= x
  {
    var m := FindMin(s);
  }

  /** The element that `iter().next()` yields on a nonempty ordered set. */
  function MinOf(s: set<nat>): (m: nat)
    requires s != {}
    ensures m in s && forall x :: x in s ==> m <= x
  {
    MinExists(s);
    var m :| m in s && forall x :: x in s ==> m <= x;
    m
  }

  ghost predicate StrictlyAscending(q: seq<nat>) {
    forall i, j :: 0 <= i < j < |q| ==> q[i] < q[j]
  }

  /** The sequence lists the set, each element once, in increasing order. */
  ghost predicate Lists(q: seq<nat>, s: set<nat>) {
    StrictlyAscending(q) && |q| == |s| && forall x :: x in q <==> x in s
  }

  lemma ListsMore(m: nat, rest: seq<nat>, s: set<nat>)
    requires m in s && Lists(rest, s - {m}) && forall x :: x in s ==> m <= x
    ensures Lists([m] + rest, s)
  {
    assert forall i :: 0 <= i < |rest| ==> rest[i] in s - {m};
  }

  /** The whole iteration order of an ordered set. */
  function Ascending(s: set<nat>): (q: seq<nat>)
    ensures Lists(q, s)
    decreases |s|
  {
    if s == {} then [] else
      var m := MinOf(s);
      var rest := Ascending(s - {m});
      ListsMore(m, rest, s);
      [m] + rest
  }
}
