/**
 k nearest neighbours: what it means, and the search through the graph (`HierarchicalNSW::searchKnn`). A hit is
 a distance and a label, kept as a `Cand`.
 */
module Knn {
  import opened Space
  import opened Candidates
  import opened Graph
  import opened VisitedLists
  import opened BeamSearch
  import opened GreedyWalk
  import opened Insertion

  /** `r` holds k of the elements of `all`, or all of them, and none that is left out is nearer. */
  ghost predicate KNearest(all: set<Cand>, k: nat, r: set<Cand>) {
    && r <= all
    && |r| == (if |all| < k then |all| else k)
    && forall a, b :: a in r && b in all - r ==> a.dist <= b.dist
  }

  ghost function Within(s: set<Cand>, d: Dist): set<Cand> {
    set c | c in s && c.dist <= d
  }

  /** How many hits lie within a distance is fixed by the points alone. */
  lemma KNearestProfile(all: set<Cand>, k: nat, r: set<Cand>, d: Dist)
    requires KNearest(all, k, r)
    ensures |Within(r, d)| == if |Within(all, d)| < k then |Within(all, d)| else k
  {
    SubsetCard(Within(all, d), all);
    if Within(all, d) <= r {
      assert Within(r, d) == Within(all, d);
      SubsetCard(Within(all, d), r);
    } else {
      var c :| c in Within(all, d) && c !in r;
      assert c in all - r;
      assert Within(r, d) == r;
      SubsetCard(r + {c}, Within(all, d));
    }
  }

  /** Two answers to one question agree up to ties: every distance is reached by equally many hits. */
  lemma KNearestUpToTies(all: set<Cand>, k: nat, r: set<Cand>, s: set<Cand>)
    requires KNearest(all, k, r) && KNearest(all, k, s)
    ensures |r| == |s| && forall d: Dist :: |Within(r, d)| == |Within(s, d)|
  {
    forall d: Dist
      ensures |Within(r, d)| == |Within(s, d)|
    {
      KNearestProfile(all, k, r, d);
      KNearestProfile(all, k, s, d);
    }
  }

  // ---------- Queues of pairs in their own order: distance first, then label ----------

  predicate LexLess(a: Cand, b: Cand) {
    a.dist < b.dist || (a.dist == b.dist && a.id < b.id)
  }

  ghost predicate IsLast(c: Cand, s: set<Cand>) {
    c in s && forall d :: d in s && d != c ==> LexLess(d, c)
  }

  lemma LastExists(s: set<Cand>)
    requires s != {}
    ensures exists c :: IsLast(c, s)
  {
    var c :| c in s;
    if s != {c} {
      LastExists(s - {c});
      var f :| IsLast(f, s - {c});
      assert s == (s - {c}) + {c};
      assert IsLast(if LexLess(c, f) then f else c, s);
    } else {
      assert IsLast(c, s);
    }
  }

  method Last(s: set<Cand>) returns (c: Cand)
    requires s != {}
    ensures IsLast(c, s)
  {
    LastExists(s);
    ghost var f :| IsLast(f, s);
    c :| c in s && forall d :: d in s && d != c ==> LexLess(d, c);
  }

  ghost predicate Ascending(hits: seq<Cand>) {
    forall j, k :: 0 <= j < k < |hits| ==> LexLess(hits[j], hits[k])
  }

  /** Emptying such a queue from the top and reversing the output. */
  method NearestFirst(s: set<Cand>) returns (hits: seq<Cand>)
    ensures Ascending(hits) && |hits| == |s|
    ensures forall c :: c in hits <==> c in s
  {
    var rest := s;
    hits := [];
    while rest != {}
      invariant rest <= s && Ascending(hits) && |hits| + |rest| == |s|
      invariant forall c :: c in s ==> c in hits || c in rest
      invariant forall c :: c in hits ==> c in s
      invariant forall c, d :: c in hits && d in rest ==> LexLess(d, c)
      decreases rest
    {
      var c := Last(rest);
      rest := rest - {c};
      hits := [c] + hits;
    }
  }

  /** With equally many hits within every distance, the i-th hits of two ascending lists are equally far. */
  lemma SameDistances(a: seq<Cand>, b: seq<Cand>, r: set<Cand>, s: set<Cand>, i: nat)
    requires Ascending(a) && Ascending(b) && i < |a| && i < |b|
    requires (forall c :: c in a <==> c in r) && (forall c :: c in b <==> c in s)
    requires forall d: Dist :: |Within(r, d)| == |Within(s, d)|
    ensures a[i].dist == b[i].dist
  {
    Reached(a, r, i);
    NotReached(b, s, i, a[i].dist);
    Reached(b, s, i);
    NotReached(a, r, i, b[i].dist);
  }

  ghost function SetOf(a: seq<Cand>): set<Cand> {
    set c | c in a
  }

  lemma Reached(a: seq<Cand>, r: set<Cand>, i: nat)
    requires Ascending(a) && i < |a| && forall c :: c in a ==> c in r
    ensures |Within(r, a[i].dist)| >= i + 1
  {
    PrefixCard(a, i + 1);
    SubsetCard(SetOf(a[..i + 1]), Within(r, a[i].dist));
  }

  lemma NotReached(b: seq<Cand>, s: set<Cand>, i: nat, d: Dist)
    requires Ascending(b) && i < |b| && forall c :: c in b <==> c in s
    ensures d < b[i].dist ==> |Within(s, d)| <= i
  {
    if d < b[i].dist {
      PrefixCard(b, i);
      forall c | c in Within(s, d)
        ensures c in b[..i]
      {
        var j :| 0 <= j < |b| && b[j] == c;
        assert j < i;
        assert b[..i][j] == c;
      }
      SubsetCard(Within(s, d), SetOf(b[..i]));
    }
  }

  lemma {:induction false} PrefixCard(a: seq<Cand>, n: nat)
    requires Ascending(a) && n <= |a|
    ensures |SetOf(a[..n])| == n
  {
    hide LexLess;
    if n > 0 {
      PrefixCard(a, n - 1);
      var front := a[..n - 1];
      forall c | c in front
        ensures LexLess(c, a[n - 1])
      {
        var j :| 0 <= j < n - 1 && front[j] == c;
        assert LexLess(a[j], a[n - 1]);
      }
      OneMore(front, a[n - 1]);
      assert a[..n] == front + [a[n - 1]];
    }
  }

  lemma OneMore(a: seq<Cand>, c: Cand)
    requires forall b :: b in a ==> LexLess(b, c)
    ensures |SetOf(a + [c])| == |SetOf(a)| + 1
  {
    assert !LexLess(c, c);
    assert SetOf(a + [c]) == SetOf(a) + {c};
  }

  // ---------- Through the graph ----------

  /** The elements a caller may see. */
  predicate Allowed(es: Elements, filter: Option<Label -> bool>, i: Id)
    requires i < |es|
  {
    !es[i].deleted && (filter.None? || filter.value(es[i].externalLabel))
  }

  ghost function LiveFrom(es: Elements, filter: Option<Label -> bool>, start: Id): set<Id> {
    set i | i in Reachable(es, 0, start) && Allowed(es, filter, i)
  }

  ghost function CandsOf(es: Elements, metric: Metric, q: Vector, ids: set<Id>): set<Cand>
    requires forall i :: i in ids ==> i < |es|
  {
    set i | i in ids :: Cand(metric(q, es[i].vector), i)
  }

  lemma {:induction false} CandsOfCard(es: Elements, metric: Metric, q: Vector, ids: set<Id>)
    requires forall i :: i in ids ==> i < |es|
    ensures |CandsOf(es, metric, q, ids)| == |ids|
  {
    if ids != {} {
      var i :| i in ids;
      CandsOfCard(es, metric, q, ids - {i});
      assert CandsOf(es, metric, q, ids) == CandsOf(es, metric, q, ids - {i}) + {Cand(metric(q, es[i].vector), i)};
    }
  }

  /** What the graph search promises about its hits `r`, given where its search of layer 0 began. */
  ghost predicate GraphKnn(es: Elements, metric: Metric, q: Vector, ef: nat, k: nat, filter: Option<Label -> bool>,
                           start: Id, r: set<Cand>)
  {
    var all := CandsOf(es, metric, q, LiveFrom(es, filter, start));
    && r <= all
    && |r| == (if |all| < k then |all| else k)
    && (|all| <= (if ef < k then k else ef) ==> KNearest(all, k, r))
    && (forall c, n :: c in r && n in all && n !in r && Linked(es, 0, c.id, n.id) ==>
          forall d :: d in r ==> d.dist <= n.dist)
  }

  /** Cutting a beam down to k keeps its promises. The test for tombstones is exact, so leaving the marks
      unread when there are none changes nothing. */
  lemma BeamGivesKnn(s: Search, top: set<Cand>, visited: set<Id>, ef: nat, k: nat, r: set<Cand>)
    requires s.Valid() && s.layer == 0 && IsBeam(s, top, visited) && s.ef == (if ef < k then k else ef)
    requires s.hasDeletions || Tombstones(s.es) == {}
    requires r <= top && |r| == (if |top| <= k then |top| else k)
    requires forall a, b :: a in r && b in top - r ==> a.dist <= b.dist
    ensures GraphKnn(s.es, s.metric, s.query, ef, k, s.filter, s.ep, r)
  {
    var live := LiveFrom(s.es, s.filter, s.ep);
    var all := CandsOf(s.es, s.metric, s.query, live);
    assert forall i :: 0 <= i < |s.es| && s.es[i].deleted ==> i in Tombstones(s.es);
    assert s.Targets() == live;
    CandsOfCard(s.es, s.metric, s.query, live);
    BeamIsSome(s, top, visited, all);
    forall c, n | c in r && n in all && n !in r && Linked(s.es, 0, c.id, n.id)
      ensures forall d :: d in r ==> d.dist <= n.dist
    {
      if n !in top {
        NeighboursOfResults(s, top, visited, c, n.id);
      }
    }
  }

  lemma BeamIsSome(s: Search, top: set<Cand>, visited: set<Id>, all: set<Cand>)
    requires s.Valid() && IsBeam(s, top, visited)
    requires all == CandsOf(s.es, s.metric, s.query, s.Targets())
    ensures top <= all && (|top| < s.ef || |all| <= s.ef ==> top == all)
  {
    CandsOfCard(s.es, s.metric, s.query, s.Targets());
    if |top| < s.ef || |all| <= s.ef {
      if |top| < s.ef {
        ShortBeamIsComplete(s, top, visited);
      } else {
        WideBeamIsComplete(s, top, visited);
      }
      forall c | c in all
        ensures c in top
      {
        assert c.id in Ids(top);
      }
    }
  }

  /** The search of layer 0 starts where the walk from the entry point ends; if there are layers above, that is
      an element without a strictly closer neighbour on layer 1. */
  ghost predicate StartsAt(es: Elements, M: nat, metric: Metric, entry: int, maxLevel: int, q: Vector, start: Id)
    requires WellFormed(es, M) && EntryOk(es, entry, maxLevel)
  {
    && es != [] && start == Descent(es, M, metric, entry, maxLevel, q, 0)
    && Closed(es) && start < |es| && DistTo(es, metric, q, start) <= DistTo(es, metric, q, entry)
    && (maxLevel > 0 ==> HasLayer(es, start, 1) && NoCloserNeighbour(es, metric, q, 1, start))
  }

  method SearchKnn(es: Elements, metric: Metric, M: nat, entry: int, maxLevel: int, numDeleted: nat, ef: nat,
                   q: Vector, k: nat, filter: Option<Label -> bool>, vl: VisitedList)
    returns (r: set<Cand>, ghost start: Id)
    requires WellFormed(es, M) && EntryOk(es, entry, maxLevel) && numDeleted == |Tombstones(es)| && ef > 0
    requires vl.Valid() && |es| <= vl.mass.Length
    modifies vl, vl.mass
    ensures vl.Valid()
    ensures es == [] ==> r == {}
    ensures es != [] ==> StartsAt(es, M, metric, entry, maxLevel, q, start)
    ensures es != [] ==> GraphKnn(es, metric, q, ef, k, filter, start, r)
  {
    if |es| == 0 {
      return {}, 0;
    }
    WellFormedIsClosed(es, M);
    var at := WalkDown(es, metric, q, maxLevel, 0, entry);
    start := at;
    var search := Search(es, metric, q, at, 0, if ef < k then k else ef, numDeleted != 0, filter);
    var top;
    ghost var visited;
    top, visited := SearchLayer(search, vl);
    r := PopDownTo(top, k);
    BeamGivesKnn(search, top, visited, ef, k, r);
  }
}
