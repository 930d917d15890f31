/** `getNeighborsByHeuristic2`: which of the candidates for a list are kept. */
module Neighbours {
  import opened Space
  import opened Candidates
  import opened Graph

  /** A kept candidate `a`, chosen before `c`, that is strictly closer to `c` than the query is. */
  ghost predicate Blocks(es: Elements, metric: Metric, a: Cand, c: Cand)
    requires a.id < |es| && c.id < |es|
  {
    Before(a, c) && metric(es[a.id].vector, es[c.id].vector) < c.dist
  }

  ghost predicate InRange(es: Elements, s: set<Cand>) {
    forall c :: c in s ==> c.id < |es|
  }

  /** What the heuristic promises, without the loop: no kept candidate blocks another kept one, and each
      dropped one is either blocked by a kept one or comes after M kept ones. */
  ghost predicate Selection(es: Elements, metric: Metric, cands: set<Cand>, M: nat, kept: set<Cand>)
    requires InRange(es, cands)
  {
    if |cands| < M then kept == cands else
      && kept <= cands && |kept| <= M
      && (forall a, b :: a in kept && b in kept ==> !Blocks(es, metric, a, b))
      && (forall d :: d in cands - kept ==>
            || (exists a :: a in kept && Blocks(es, metric, a, d))
            || (|kept| == M && forall a :: a in kept ==> Before(a, d)))
  }

  /** A selection from at least one candidate is not empty and holds a nearest candidate. */
  lemma SelectionHoldsNearest(es: Elements, metric: Metric, cands: set<Cand>, M: nat, kept: set<Cand>)
    requires InRange(es, cands) && Selection(es, metric, cands, M, kept)
    requires cands != {} && M > 0
    ensures exists n :: n in kept && IsFirst(n, cands)
  {
    FirstExists(cands);
    var n :| IsFirst(n, cands);
    assert n in kept || n in cands - kept;
    assert forall a :: a in cands ==> !Before(a, n);
    assert kept == {} ==> |kept| < M;
    assert kept != {} ==> exists a :: a in kept && a in cands;
  }

  /** The promise determines the result: two selections from the same candidates are equal. */
  lemma SelectionIsUnique(es: Elements, metric: Metric, cands: set<Cand>, M: nat, s: set<Cand>, t: set<Cand>)
    requires InRange(es, cands)
    requires Selection(es, metric, cands, M, s) && Selection(es, metric, cands, M, t)
    ensures s == t
  {
    var diff := (s - t) + (t - s);
    assert diff == {} ==> forall c :: c in s <==> c in t;
    if diff != {} {
      FirstExists(diff);
      var d :| IsFirst(d, diff);
      assert forall c :: Before(c, d) ==> c !in diff;
      if d in s {
        KeptInBoth(es, metric, cands, M, s, t, d);
      } else {
        KeptInBoth(es, metric, cands, M, t, s, d);
      }
    }
  }

  /** Selections that agree on what comes before `d` agree on `d`. */
  lemma KeptInBoth(es: Elements, metric: Metric, cands: set<Cand>, M: nat, s: set<Cand>, t: set<Cand>, d: Cand)
    requires InRange(es, cands)
    requires Selection(es, metric, cands, M, s) && Selection(es, metric, cands, M, t)
    requires d in s && forall c :: Before(c, d) ==> (c in s <==> c in t)
    ensures d in t
  {
    if |cands| >= M {
      assert forall a :: a in t && Blocks(es, metric, a, d) ==> a in s;
      var earlier := set a | a in t && Before(a, d);
      assert d in t || d in cands - t;
      SubsetCard(earlier + {d}, s);
      assert (forall a :: a in t ==> Before(a, d)) ==> earlier == t;
    }
  }

  /** The inner loop: stops at the first kept candidate that is closer to `c` than the query is. */
  method IsGood(es: Elements, metric: Metric, kept: seq<Cand>, c: Cand) returns (good: bool)
    requires c.id < |es| && forall a :: a in kept ==> a.id < |es| && Before(a, c)
    ensures good <==> forall a :: a in kept ==> !Blocks(es, metric, a, c)
  {
    good := true;
    var i := 0;
    while i < |kept| && good
      invariant 0 <= i <= |kept|
      invariant good ==> forall j :: 0 <= j < i ==> !Blocks(es, metric, kept[j], c)
      invariant !good ==> exists a :: a in kept && Blocks(es, metric, a, c)
    {
      var curDist := metric(es[kept[i].id].vector, es[c.id].vector);
      if curDist < c.dist {
        good := false;
        assert kept[i] in kept && Blocks(es, metric, kept[i], c);
      }
      i := i + 1;
    }
  }

  method GetNeighborsByHeuristic2(es: Elements, metric: Metric, cands: set<Cand>, M: nat) returns (kept: set<Cand>)
    requires InRange(es, cands)
    ensures Selection(es, metric, cands, M, kept)
  {
    if |cands| < M {
      return cands;
    }
    var queue := cands;
    var list: seq<Cand> := [];
    kept := {};
    while queue != {} && |list| < M
      invariant queue <= cands && kept <= cands - queue && |kept| == |list| <= M
      invariant forall c :: c in list <==> c in kept
      invariant forall a, b :: a in cands - queue && b in queue ==> Before(a, b)
      invariant forall a, b :: a in kept && b in kept ==> !Blocks(es, metric, a, b)
      invariant forall d :: d in cands - queue && d !in kept ==> exists a :: a in kept && Blocks(es, metric, a, d)
      decreases queue
    {
      var c := First(queue);
      queue := queue - {c};
      var good := IsGood(es, metric, list, c);
      if good {
        list := list + [c];
        kept := kept + {c};
      }
    }
  }
}
