/**
 Laws of the membership merge: what a sequence of reports amounts to, which parts of the result do
 not depend on the order of the reports, and where the documented freshness rule and the code part.
 */
module MergeLaws {
  import opened Ordering
  import opened Nodes
  import opened Members

  /* The exact outcome of any report sequence */

  predicate About(reports: seq<MemberState>, id: Uuid, i: int) {
    0 <= i < |reports| && reports[i].info.nodeId == id
  }

  /** Report `i` is about `id` and no report about `id` has a higher incarnation. */
  ghost predicate AtTop(reports: seq<MemberState>, id: Uuid, i: int) {
    About(reports, id, i)
    && forall j :: About(reports, id, j) ==> reports[j].info.incarnation <= reports[i].info.incarnation
  }

  ghost predicate FirstAtTop(reports: seq<MemberState>, id: Uuid, i: int) {
    AtTop(reports, id, i) && forall j :: AtTop(reports, id, j) ==> i <= j
  }

  ghost predicate LastAtTop(reports: seq<MemberState>, id: Uuid, i: int) {
    AtTop(reports, id, i) && forall j :: AtTop(reports, id, j) ==> j <= i
  }

  ghost predicate FreshestAtTop(reports: seq<MemberState>, id: Uuid, i: int) {
    AtTop(reports, id, i)
    && forall j :: AtTop(reports, id, j) ==> reports[j].heartbeat <= reports[i].heartbeat
  }

  lemma UpdateAllKeyed(m: MemberMap, reports: seq<MemberState>)
    requires Keyed(m)
    ensures Keyed(UpdateAll(m, reports))
  {
  }

  /** A report about another node moves no index of this one. */
  lemma TopUnmoved(reports: seq<MemberState>, id: Uuid)
    requires reports != [] && reports[|reports| - 1].info.nodeId != id
    ensures forall i :: AtTop(reports, id, i) <==> AtTop(reports[..|reports| - 1], id, i)
  {
  }

  /** How the top moves when one more report about `id` arrives, `top` being an index at the old top. */
  lemma TopMoves(reports: seq<MemberState>, id: Uuid, top: int)
    requires reports != [] && reports[|reports| - 1].info.nodeId == id
    requires AtTop(reports[..|reports| - 1], id, top)
    ensures
      var n := |reports| - 1;
      var before := reports[..n];
      var was := before[top].info.incarnation;
      var now := reports[n].info.incarnation;
      && (now > was ==> forall i :: AtTop(reports, id, i) <==> i == n)
      && (now < was ==> forall i :: AtTop(reports, id, i) <==> AtTop(before, id, i))
      && (now == was ==> forall i :: AtTop(reports, id, i) <==> AtTop(before, id, i) || i == n)
  {
  }

  /**
   The exact fold law. From the empty map, an id is present exactly if some report is about it, and
   its entry has the highest reported incarnation, the info of the first report there, the status
   of the last report there and the largest heartbeat there.
   */
  lemma {:induction false} FoldLaw(reports: seq<MemberState>, id: Uuid)
    returns (first: int, last: int, freshest: int)
    ensures id in UpdateAll(map[], reports) <==> exists i :: About(reports, id, i)
    ensures id in UpdateAll(map[], reports) ==>
              && FirstAtTop(reports, id, first)
              && LastAtTop(reports, id, last)
              && FreshestAtTop(reports, id, freshest)
              && UpdateAll(map[], reports)[id]
                 == MemberState(reports[first].info, reports[last].status, reports[freshest].heartbeat)
  {
    first, last, freshest := 0, 0, 0;
    if reports != [] {
      var n := |reports| - 1;
      var before := reports[..n];
      var r := reports[n];
      first, last, freshest := FoldLaw(before, id);
      var m := UpdateAll(map[], before);
      assert forall i :: About(before, id, i) ==> About(reports, id, i);
      if r.info.nodeId != id {
        assert forall i :: About(reports, id, i) ==> About(before, id, i);
        TopUnmoved(reports, id);
      } else {
        assert About(reports, id, n);
        if id !in m {
          assert forall i :: About(reports, id, i) ==> About(before, id, i) || i == n;
          assert AtTop(reports, id, n);
          first, last, freshest := n, n, n;
        } else {
          TopMoves(reports, id, first);
          assert before[last].info.incarnation == before[first].info.incarnation by {
            assert About(before, id, last) && About(before, id, first);
          }
          if r.info.incarnation > m[id].info.incarnation {
            first, last, freshest := n, n, n;
          } else if r.info.incarnation == m[id].info.incarnation {
            last := n;
            freshest := if r.heartbeat > m[id].heartbeat then n else freshest;
          }
        }
      }
    }
  }

  /* Order independence */

  ghost predicate SameReports(a: seq<MemberState>, b: seq<MemberState>) {
    forall r :: r in a <==> r in b
  }

  /** A node id and an incarnation determine the advertised info. */
  ghost predicate InfoDetermined(reports: seq<MemberState>) {
    forall r, q :: r in reports && q in reports
                   && r.info.nodeId == q.info.nodeId && r.info.incarnation == q.info.incarnation
                   ==> r.info == q.info
  }

  /** A report at the top of one sequence is at the top of every sequence with the same reports. */
  lemma SameTop(a: seq<MemberState>, b: seq<MemberState>, id: Uuid, i: int) returns (j: int)
    requires SameReports(a, b) && AtTop(a, id, i)
    ensures AtTop(b, id, j) && b[j] == a[i]
  {
    assert a[i] in b;
    j :| 0 <= j < |b| && b[j] == a[i];
    forall k | About(b, id, k)
      ensures b[k].info.incarnation <= b[j].info.incarnation
    {
      assert b[k] in a;
      var l :| 0 <= l < |a| && a[l] == b[k];
      assert About(a, id, l);
    }
  }

  /**
   Two report sequences with the same set of reports, in any order and with any repeats, give the
   same keys and the same incarnation and heartbeat everywhere; they give the same info too where an
   id and an incarnation determine the info.
   */
  lemma OrderIndependence(a: seq<MemberState>, b: seq<MemberState>)
    requires SameReports(a, b)
    ensures UpdateAll(map[], a).Keys == UpdateAll(map[], b).Keys
    ensures forall id :: id in UpdateAll(map[], a) ==>
              && UpdateAll(map[], a)[id].info.incarnation == UpdateAll(map[], b)[id].info.incarnation
              && UpdateAll(map[], a)[id].heartbeat == UpdateAll(map[], b)[id].heartbeat
              && (InfoDetermined(a) ==> UpdateAll(map[], a)[id].info == UpdateAll(map[], b)[id].info)
  {
    var x, y := UpdateAll(map[], a), UpdateAll(map[], b);
    forall id
      ensures id in x <==> id in y
      ensures id in x && id in y ==>
                && x[id].info.incarnation == y[id].info.incarnation
                && x[id].heartbeat == y[id].heartbeat
                && (InfoDetermined(a) ==> x[id].info == y[id].info)
    {
      var f, l, h := FoldLaw(a, id);
      var f', l', h' := FoldLaw(b, id);
      if i :| About(a, id, i) {
        assert a[i] in b;
        var j :| 0 <= j < |b| && b[j] == a[i];
        assert About(b, id, j);
      }
      if i :| About(b, id, i) {
        assert b[i] in a;
        var j :| 0 <= j < |a| && a[j] == b[i];
        assert About(a, id, j);
      }
      if id in x && id in y {
        var f'' := SameTop(a, b, id, f);
        var h'' := SameTop(a, b, id, h);
        var h''' := SameTop(b, a, id, h');
        var f''' := SameTop(b, a, id, f');
        assert AtTop(b, id, f') && AtTop(b, id, f'');
        assert a[f] in a && a[f'''] in a;
      }
    }
    assert forall id :: id in x.Keys <==> id in x;
    assert forall id :: id in y.Keys <==> id in y;
  }

  /**
   The status, in contrast, is independent of the order exactly if all reports at the highest
   incarnation of that node agree on it.
   */
  lemma StatusOrderIndependence(reports: seq<MemberState>, id: Uuid)
    requires id in UpdateAll(map[], reports)
    ensures (forall other :: SameReports(reports, other) ==>
               id in UpdateAll(map[], other)
               && UpdateAll(map[], other)[id].status == UpdateAll(map[], reports)[id].status)
       <==> (forall i, j :: AtTop(reports, id, i) && AtTop(reports, id, j) ==>
               reports[i].status == reports[j].status)
  {
    var first, last, freshest := FoldLaw(reports, id);
    if forall i, j :: AtTop(reports, id, i) && AtTop(reports, id, j) ==> reports[i].status == reports[j].status {
      forall other | SameReports(reports, other)
        ensures id in UpdateAll(map[], other)
        ensures UpdateAll(map[], other)[id].status == UpdateAll(map[], reports)[id].status
      {
        OrderIndependence(reports, other);
        assert id in UpdateAll(map[], other).Keys;
        var f, l, h := FoldLaw(other, id);
        var l' := SameTop(other, reports, id, l);
      }
    } else {
      var i, j :| AtTop(reports, id, i) && AtTop(reports, id, j) && reports[i].status != reports[j].status;
      var k := if reports[i].status == reports[last].status then j else i;
      // Repeating report k at the end keeps the set of reports and flips the status.
      var other := reports + [reports[k]];
      assert SameReports(reports, other);
      assert other[..|reports|] == reports;
      assert UpdateAll(map[], other)[id].status == reports[k].status by {
        assert UpdateAll(map[], other) == Update(UpdateAll(map[], reports), reports[k]);
        assert About(reports, id, first) && About(reports, id, k);
      }
      assert UpdateAll(map[], other)[id].status != UpdateAll(map[], reports)[id].status;
    }
  }

  /* The documented rule and the code */

  /**
   The merge as its documentation states it: at equal incarnation a status change is accepted only
   from an observation that is at least as fresh.
   */
  function DocumentedMerge(current: MemberState, report: MemberState): MemberState {
    if report.info.incarnation > current.info.incarnation then report
    else if report.info.incarnation < current.info.incarnation then current
    else if report.heartbeat >= current.heartbeat then
      MemberState(current.info, report.status, report.heartbeat)
    else current
  }

  /** The code follows its documentation except on a stale report of the other status. */
  lemma MergeFollowsDocumentation(current: MemberState, report: MemberState)
    ensures Merge(current, report) == DocumentedMerge(current, report)
       <==> !(report.info.incarnation == current.info.incarnation
              && report.heartbeat < current.heartbeat
              && report.status != current.status)
  {
  }

  /** Two reports that the documentation orders one way and the code resolves by arrival. */
  lemma StaleReportWins()
    ensures
      var info := NodeInfo(1, "c", "d", "e", 0);
      var recent := MemberState(info, Alive, 20);
      var stale := MemberState(info, Dead, 10);
      && UpdateAll(map[], [recent, stale])[1] == MemberState(info, Dead, 20)
      && UpdateAll(map[], [stale, recent])[1] == MemberState(info, Alive, 20)
      && DocumentedMerge(recent, stale) == recent
  {
    var info := NodeInfo(1, "c", "d", "e", 0);
    var recent := MemberState(info, Alive, 20);
    var stale := MemberState(info, Dead, 10);
    assert UpdateAll(map[], [recent]) == map[1 := recent] by { assert [recent][..0] == []; }
    assert UpdateAll(map[], [stale]) == map[1 := stale] by { assert [stale][..0] == []; }
    assert [recent, stale][..1] == [recent];
    assert [stale, recent][..1] == [stale];
  }

  /* Merging a whole membership */

  /** Merging every entry of `b` into `a`, key by key. */
  function MergeMaps(a: MemberMap, b: MemberMap): MemberMap {
    map k | k in a.Keys + b.Keys ::
      if k !in b then a[k] else if k !in a then b[k] else Merge(a[k], b[k])
  }

  /** What merging some entries of `b`, each id once, does to one key. */
  lemma {:induction false} PickMerges(a: MemberMap, b: MemberMap, ids: seq<Uuid>, k: Uuid)
    requires Keyed(b) && StrictlyAscending(ids)
    requires forall i :: 0 <= i < |ids| ==> ids[i] in b
    ensures k in UpdateAll(a, Pick(b, ids)) <==> k in a || k in ids
    ensures k in ids ==> UpdateAll(a, Pick(b, ids))[k] == if k in a then Merge(a[k], b[k]) else b[k]
    ensures k in a && k !in ids ==> UpdateAll(a, Pick(b, ids))[k] == a[k]
  {
    if ids != [] {
      var n := |ids| - 1;
      var before := ids[..n];
      PickMerges(a, b, before, k);
      assert Pick(b, ids)[..n] == Pick(b, before);
      assert ids == before + [ids[n]];
    }
  }

  /** Two maps with the same entries are one map. */
  lemma SameMap(x: MemberMap, y: MemberMap)
    requires forall k :: k in x <==> k in y
    requires forall k :: k in x && k in y ==> x[k] == y[k]
    ensures x == y
  {
  }

  lemma MergeAscending(a: MemberMap, b: MemberMap, ids: seq<Uuid>)
    requires Keyed(b) && StrictlyAscending(ids)
    requires forall k :: k in ids <==> k in b
    ensures UpdateAll(a, Pick(b, ids)) == MergeMaps(a, b)
  {
    forall k
      ensures k in UpdateAll(a, Pick(b, ids)) <==> k in MergeMaps(a, b)
      ensures k in UpdateAll(a, Pick(b, ids)) && k in MergeMaps(a, b) ==>
                UpdateAll(a, Pick(b, ids))[k] == MergeMaps(a, b)[k]
    {
      PickMerges(a, b, ids, k);
    }
    SameMap(UpdateAll(a, Pick(b, ids)), MergeMaps(a, b));
  }

  /** Merging a Sync message built from a membership is the key-by-key merge of the two maps. */
  lemma ValuesMerge(a: MemberMap, b: MemberMap)
    requires Keyed(b)
    ensures UpdateAll(a, Values(b)) == MergeMaps(a, b)
  {
    MergeAscending(a, b, Ascending(b.Keys));
  }

  lemma MergeIntoEmpty(m: MemberMap)
    ensures MergeMaps(map[], m) == m
  {
  }

  /** The values of a membership, merged into an empty one, give it back. */
  lemma ValuesRebuild(m: MemberMap)
    requires Keyed(m)
    ensures UpdateAll(map[], Values(m)) == m
  {
    ValuesMerge(map[], m);
    MergeIntoEmpty(m);
  }
}
