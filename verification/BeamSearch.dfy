/**
 The best-first search of one layer with a beam of `ef` results.

 `searchBaseLayerST<has_deletions>` and `searchBaseLayer` are the same loop: the latter is the former
 with `has_deletions = true`, no filter, `ef = ef_construction_`, on any layer. `SearchLayer` is both.
 */
module BeamSearch {
  import opened Space
  import opened Candidates
  import opened Graph
  import opened VisitedLists

  datatype Search = Search(es: Elements, metric: Metric, query: Vector, ep: Id, layer: nat, ef: nat,
                           hasDeletions: bool, filter: Option<Label -> bool>)
  {
    ghost predicate Valid() {
      && HasLayer(es, ep, layer) && ef > 0
      && forall v, x :: Linked(es, layer, v, x) ==> HasLayer(es, x, layer)
    }

    function DistTo(i: Id): Dist
      requires i < |es|
    {
      metric(query, es[i].vector)
    }

    function CandOf(i: Id): Cand
      requires i < |es|
    {
      Cand(DistTo(i), i)
    }

    /** Whether the element may be returned. */
    predicate Admits(i: Id)
      requires i < |es|
    {
      && (!hasDeletions || !es[i].deleted)
      && (filter.None? || filter.value(es[i].externalLabel))
    }

    /** The distance an element is queued under: an inadmissible start is queued under the largest one. */
    function Key(i: Id): Dist
      requires i < |es| && ep < |es|
    {
      if i == ep && !Admits(ep) then FLT_MAX else DistTo(i)
    }

    /** The admissible elements that can be reached from the start. */
    ghost function Targets(): set<Id> {
      set i | i in Reachable(es, layer, ep) && Admits(i)
    }
  }

  /** `top_candidates`, `candidate_set` and `lowerBound`. */
  datatype Beam = Beam(top: set<Cand>, open: set<Cand>, bound: Dist)

  /** `v` is not in a full beam and is no closer than anything in it. */
  ghost predicate LeftOut(s: Search, top: set<Cand>, bound: Dist, v: Id)
    requires v < |s.es|
  {
    |top| == s.ef && s.CandOf(v) !in top && bound <= s.DistTo(v)
  }

  ghost predicate IsBound(top: set<Cand>, bound: Dist) {
    && (top == {} ==> bound == FLT_MAX)
    && (top != {} ==> exists f :: IsFarthest(f, top) && f.dist == bound)
  }

  ghost predicate Explored(s: Search, visited: set<Id>)
    requires s.ep < |s.es|
  {
    && s.ep in visited
    && forall v :: v in visited ==> HasLayer(s.es, v, s.layer) && Reaches(s.es, s.layer, s.ep, v)
  }

  ghost predicate Results(s: Search, top: set<Cand>, visited: set<Id>)
    requires s.ep < |s.es| && Explored(s, visited)
  {
    && |top| <= s.ef
    && forall c :: c in top ==> c.id in visited && s.Admits(c.id) && c == s.CandOf(c.id)
  }

  ghost predicate Queued(s: Search, open: set<Cand>, visited: set<Id>)
    requires s.ep < |s.es| && Explored(s, visited)
  {
    forall c :: c in open ==> c.id in visited && c.dist == s.Key(c.id)
  }

  /** Every visited element was expanded, is queued, or is out of reach of the beam. */
  ghost predicate NoneForgotten(s: Search, b: Beam, visited: set<Id>, done: set<Id>)
    requires s.ep < |s.es| && Explored(s, visited)
  {
    forall v :: v in visited ==> v in done || Cand(s.Key(v), v) in b.open || LeftOut(s, b.top, b.bound, v)
  }

  /** Every admissible visited element is in the beam, or is no closer than the beam. */
  ghost predicate NearestKept(s: Search, b: Beam, visited: set<Id>)
    requires s.ep < |s.es| && Explored(s, visited)
  {
    forall v :: v in visited && s.Admits(v) ==> s.CandOf(v) in b.top || LeftOut(s, b.top, b.bound, v)
  }

  /** The loop invariant. `done` are the elements taken out of the candidate queue. */
  ghost predicate Inv(s: Search, b: Beam, visited: set<Id>, done: set<Id>)
    requires s.Valid()
  {
    && Explored(s, visited) && Results(s, b.top, visited) && Queued(s, b.open, visited)
    && IsBound(b.top, b.bound)
    && NoneForgotten(s, b, visited, done) && NearestKept(s, b, visited)
  }

  ghost predicate Expanded(s: Search, visited: set<Id>, v: Id) {
    forall x :: Linked(s.es, s.layer, v, x) ==> x in visited
  }

  /** What a search returns: see the lemmas at the end of the module for what this means. */
  ghost predicate IsBeam(s: Search, top: set<Cand>, visited: set<Id>)
    requires s.Valid()
  {
    && s.ep in visited && Expanded(s, visited, s.ep)
    && (forall v :: v in visited ==> HasLayer(s.es, v, s.layer) && Reaches(s.es, s.layer, s.ep, v))
    && |top| <= s.ef
    && (forall c :: c in top ==> c.id in visited && s.Admits(c.id) && c == s.CandOf(c.id))
    && (forall v :: v in visited ==> Expanded(s, visited, v) || OutDone(s, top, v))
    && (forall v :: v in visited && s.Admits(v) ==> s.CandOf(v) in top || OutDone(s, top, v))
  }

  ghost predicate OutDone(s: Search, top: set<Cand>, v: Id)
    requires v < |s.es|
  {
    && |top| == s.ef && s.CandOf(v) !in top
    && forall c :: c in top ==> c.dist <= s.DistTo(v)
  }

  /** Lines 356-371: puts a candidate into the result queue, which then drops a farthest one if it is too long. */
  method Offer(top: set<Cand>, bound: Dist, c: Cand, admitted: bool, ef: nat) returns (top': set<Cand>, bound': Dist)
    requires IsBound(top, bound) && |top| <= ef && ef > 0 && c !in top
    requires |top| < ef || c.dist < bound
    ensures IsBound(top', bound') && |top'| <= ef
    ensures top' <= top + {c} && (c in top' ==> admitted)
    ensures |top| == ef ==> |top'| == ef && bound' <= bound
    ensures forall d :: (d in top || (d == c && admitted)) && d !in top' ==> |top'| == ef && bound' <= d.dist
  {
    top', bound' := top, bound;
    if admitted {
      top' := top' + {c};
    }
    if |top'| > ef {
      var f := Farthest(top');
      top' := top' - {f};
    }
    if top' != {} {
      var f := Farthest(top');
      bound' := f.dist;
    }
  }

  /** A step of the beam never lets an element back in that it has left out. */
  ghost predicate Narrows(s: Search, b: Beam, r: Beam, visited: set<Id>)
    requires s.ep < |s.es| && Explored(s, visited)
  {
    && b.open <= r.open
    && forall v :: v in visited ==>
         && (LeftOut(s, b.top, b.bound, v) ==> LeftOut(s, r.top, r.bound, v))
         && (s.CandOf(v) in b.top ==> s.CandOf(v) in r.top || LeftOut(s, r.top, r.bound, v))
  }

  lemma NarrowingKeepsInv(s: Search, b: Beam, r: Beam, visited: set<Id>, done: set<Id>)
    requires s.ep < |s.es| && Explored(s, visited) && Narrows(s, b, r, visited)
    ensures NoneForgotten(s, b, visited, done) ==> NoneForgotten(s, r, visited, done)
    ensures NearestKept(s, b, visited) ==> NearestKept(s, r, visited)
  {
  }

  lemma OfferNarrows(s: Search, b: Beam, x: Id, r: Beam, visited: set<Id>)
    requires s.ep < |s.es| && Explored(s, visited) && x !in visited && x < |s.es|
    requires b.open <= r.open && r.top <= b.top + {s.CandOf(x)}
    requires |b.top| == s.ef ==> |r.top| == s.ef && r.bound <= b.bound
    requires forall d :: d in b.top && d !in r.top ==> |r.top| == s.ef && r.bound <= d.dist
    ensures Narrows(s, b, r, visited)
  {
  }

  lemma VisitedExtends(s: Search, b: Beam, x: Id, visited: set<Id>, done: set<Id>)
    requires s.Valid() && Explored(s, visited)
    requires x !in visited && HasLayer(s.es, x, s.layer) && Reaches(s.es, s.layer, s.ep, x)
    requires IsBound(b.top, b.bound) && |b.top| <= s.ef
    requires forall c :: c in b.top ==> c.id in visited + {x} && s.Admits(c.id) && c == s.CandOf(c.id)
    requires forall c :: c in b.open ==> c == s.CandOf(x) || (c.id in visited && c.dist == s.Key(c.id))
    requires NoneForgotten(s, b, visited, done) && NearestKept(s, b, visited)
    requires LeftOut(s, b.top, b.bound, x) ||
             (s.CandOf(x) in b.open && (s.Admits(x) ==> s.CandOf(x) in b.top || LeftOut(s, b.top, b.bound, x)))
    ensures Inv(s, b, visited + {x}, done)
  {
    assert Explored(s, visited + {x});
  }

  /** One unvisited neighbour of the current node. */
  method Visit(s: Search, b: Beam, x: Id, ghost visited: set<Id>, ghost done: set<Id>) returns (r: Beam)
    requires s.Valid() && Inv(s, b, visited, done)
    requires x !in visited && HasLayer(s.es, x, s.layer) && Reaches(s.es, s.layer, s.ep, x)
    ensures Inv(s, r, visited + {x}, done)
  {
    var c := s.CandOf(x);
    r := b;
    assert c !in b.top;
    if |b.top| < s.ef || b.bound > c.dist {
      var top, bound := Offer(b.top, b.bound, c, s.Admits(x), s.ef);
      r := Beam(top, b.open + {c}, bound);
      OfferNarrows(s, b, x, r, visited);
      NarrowingKeepsInv(s, b, r, visited, done);
    }
    VisitedExtends(s, r, x, visited, done);
  }

  /** One neighbour of the current node: skipped when it carries the mark. */
  method VisitNeighbour(s: Search, b: Beam, v: Id, x: Id, vl: VisitedList, ghost visited: set<Id>, ghost done: set<Id>)
    returns (r: Beam, ghost visited': set<Id>)
    requires s.Valid() && vl.Valid() && |s.es| <= vl.mass.Length
    requires visited == vl.Marked() && Inv(s, b, visited, done)
    requires v in visited && Linked(s.es, s.layer, v, x)
    modifies vl.mass
    ensures vl.Valid() && visited' == vl.Marked() == visited + {x}
    ensures Inv(s, r, visited', done)
    ensures visited' == visited ==> r == b
  {
    r, visited' := b, visited + {x};
    if vl.mass[x] != vl.curV {
      ReachesStep(s.es, s.layer, s.ep, v, x);
      vl.Mark(x);
      r := Visit(s, r, x, visited, done);
    } else {
      assert visited + {x} == visited;
    }
  }

  /** The inner loop over the neighbour list of the current node. */
  method Expand(s: Search, b: Beam, v: Id, list: seq<Id>, vl: VisitedList, ghost visited: set<Id>, ghost done: set<Id>)
    returns (r: Beam, ghost visited': set<Id>)
    requires s.Valid() && vl.Valid() && |s.es| <= vl.mass.Length
    requires visited == vl.Marked() && Inv(s, b, visited, done) && v in visited
    requires forall k :: 0 <= k < |list| ==> Linked(s.es, s.layer, v, list[k])
    modifies vl.mass
    ensures vl.Valid() && visited' == vl.Marked()
    ensures Inv(s, r, visited', done)
    ensures visited <= visited' && forall k :: 0 <= k < |list| ==> list[k] in visited'
    ensures visited' == visited ==> r == b
  {
    hide Inv, Linked;
    r, visited' := b, visited;
    var j := 0;
    while j < |list|
      invariant 0 <= j <= |list| && vl.Valid() && visited' == vl.Marked()
      invariant Inv(s, r, visited', done)
      invariant visited <= visited' && forall k :: 0 <= k < j ==> list[k] in visited'
      invariant visited' == visited ==> r == b
    {
      r, visited' := VisitNeighbour(s, r, v, list[j], vl, visited', done);
      j := j + 1;
    }
  }

  /** Before the loop: the start is queued and marked, and is a result if it is admissible. */
  method Start(s: Search, vl: VisitedList) returns (b: Beam)
    requires s.Valid() && vl.Valid() && |s.es| <= vl.mass.Length && vl.Marked() == {}
    modifies vl.mass
    ensures vl.Valid() && vl.Marked() == {s.ep}
    ensures Inv(s, b, {s.ep}, {})
  {
    ReachesSelf(s.es, s.layer, s.ep);
    if s.Admits(s.ep) {
      var c := s.CandOf(s.ep);
      b := Beam({c}, {c}, c.dist);
      assert IsFarthest(c, b.top);
    } else {
      b := Beam({}, {Cand(FLT_MAX, s.ep)}, FLT_MAX);
    }
    vl.Mark(s.ep);
  }

  /** The nearest queued candidate is beyond the results, and either there are enough results or, in a
      search without filter and tombstones, the source does not ask whether there are. */
  predicate ExitTest(s: Search, b: Beam, c: Cand) {
    c.dist > b.bound && (|b.top| == s.ef || (s.filter.None? && !s.hasDeletions))
  }

  /** The exit test never succeeds while fewer than `ef` results are held: when it does not ask, everything
      visited is admissible, so a queued element outside the results was left out by a full beam. */
  lemma ExitTestMeansFull(s: Search, b: Beam, visited: set<Id>, done: set<Id>, c: Cand)
    requires s.Valid() && Inv(s, b, visited, done)
    requires IsNearest(c, b.open) && ExitTest(s, b, c)
    ensures |b.top| == s.ef && forall d :: d in b.open ==> b.bound < d.dist
  {
    assert s.filter.None? && !s.hasDeletions ==> s.Admits(c.id);
  }

  ghost predicate DoneExpanded(s: Search, visited: set<Id>, done: set<Id>) {
    && (forall v :: v in done ==> Expanded(s, visited, v))
    && (s.ep in done || visited == {s.ep})
  }

  /** Leaving the loop, either with nothing queued or with a full beam nearer than all that is queued. */
  lemma ExitIsBeam(s: Search, b: Beam, visited: set<Id>, done: set<Id>)
    requires s.Valid() && Inv(s, b, visited, done) && DoneExpanded(s, visited, done)
    requires b.open == {} || (|b.top| == s.ef && forall c :: c in b.open ==> b.bound < c.dist)
    ensures IsBeam(s, b.top, visited)
  {
    StartIsDone(s, b, visited, done);
    forall v | v in visited
      ensures LeftOut(s, b.top, b.bound, v) ==> OutDone(s, b.top, v)
      ensures v in done || OutDone(s, b.top, v)
    {
      assert forall c :: c in b.top ==> c.dist <= b.bound;
    }
  }

  /** The start is the first element taken from the queue. */
  lemma StartIsDone(s: Search, b: Beam, visited: set<Id>, done: set<Id>)
    requires s.Valid() && Inv(s, b, visited, done) && DoneExpanded(s, visited, done)
    requires b.open == {} || (|b.top| == s.ef && forall c :: c in b.open ==> b.bound < c.dist)
    ensures s.ep in done
  {
    var c := s.CandOf(s.ep);
    if visited == {s.ep} {
      assert forall d :: d in b.top ==> d == c;
      if b.top != {} {
        assert c in b.top && b.top == {c};
      }
    }
  }

  /** The main loop, on a list that was lent out empty. */
  method Run(s: Search, vl: VisitedList) returns (top: set<Cand>)
    requires s.Valid() && vl.Valid() && |s.es| <= vl.mass.Length && vl.Marked() == {}
    modifies vl.mass
    ensures vl.Valid() && IsBeam(s, top, vl.Marked())
  {
    var b := Start(s, vl);
    ghost var visited, done := {s.ep}, {};
    while b.open != {}
      invariant vl.Valid() && visited == vl.Marked()
      invariant Inv(s, b, visited, done) && DoneExpanded(s, visited, done)
      decreases Unseen(s, visited), b.open
    {
      var c := Nearest(b.open);
      if ExitTest(s, b, c) {
        ExitTestMeansFull(s, b, visited, done, c);
        break;
      }
      b, visited, done := TakeAndExpand(s, b, c, vl, visited, done);
    }
    ExitIsBeam(s, b, visited, done);
    top := b.top;
  }

  /** One round of the main loop: `pop` and the inner loop. */
  method TakeAndExpand(s: Search, b: Beam, c: Cand, vl: VisitedList, ghost visited: set<Id>, ghost done: set<Id>)
    returns (r: Beam, ghost visited': set<Id>, ghost done': set<Id>)
    requires s.Valid() && vl.Valid() && |s.es| <= vl.mass.Length
    requires visited == vl.Marked() && Inv(s, b, visited, done) && DoneExpanded(s, visited, done)
    requires c in b.open
    modifies vl.mass
    ensures vl.Valid() && visited' == vl.Marked()
    ensures Inv(s, r, visited', done') && DoneExpanded(s, visited', done')
    ensures Unseen(s, visited') < Unseen(s, visited)
         || (Unseen(s, visited') == Unseen(s, visited) && r.open < b.open)
  {
    r := b.(open := b.open - {c});
    done' := done + {c.id};
    TakeKeepsInv(s, b, visited, done, c);
    assert HasLayer(s.es, c.id, s.layer);
    r, visited' := Expand(s, r, c.id, s.es[c.id].links[s.layer], vl, visited, done');
    assert forall v :: Expanded(s, visited, v) ==> Expanded(s, visited', v);
    if v :| v in visited' && v !in visited {
      assert v in Unseen(s, visited) && v !in Unseen(s, visited');
    } else {
      assert visited' == visited;
    }
  }

  ghost function Unseen(s: Search, visited: set<Id>): set<Id> {
    set i | 0 <= i < |s.es| && i !in visited
  }

  lemma TakeKeepsInv(s: Search, b: Beam, visited: set<Id>, done: set<Id>, c: Cand)
    requires s.Valid() && Inv(s, b, visited, done) && c in b.open
    ensures Inv(s, b.(open := b.open - {c}), visited, done + {c.id})
  {
  }

  /** A whole search on a list at hand. */
  method SearchLayer(s: Search, vl: VisitedList) returns (top: set<Cand>, ghost visited: set<Id>)
    requires s.Valid() && vl.Valid() && |s.es| <= vl.mass.Length
    modifies vl, vl.mass
    ensures vl.Valid()
    ensures IsBeam(s, top, visited)
  {
    vl.Reset();
    top := Run(s, vl);
    visited := vl.Marked();
  }

  /** A whole search on a list of the pool, which gets it back. With one search at a time, which is how the
      vector store calls the index, this is always the same list, so `SearchLayer` is what the index uses. */
  method SearchWithPool(s: Search, pool: VisitedListPool) returns (top: set<Cand>, ghost visited: set<Id>)
    requires s.Valid() && pool.Valid() && |s.es| <= pool.numElements
    modifies pool.Repr
    ensures pool.Valid() && fresh(pool.Repr - old(pool.Repr)) && pool.lent == old(pool.lent)
    ensures |old(pool.lists)| > 0 ==> pool.lists == old(pool.lists)
    ensures IsBeam(s, top, visited)
  {
    var vl := pool.GetFreeVisitedList();
    top := Run(s, vl);
    visited := vl.Marked();
    pool.ReleaseVisitedList(vl);
  }

  // ---------- What a beam is worth ----------

  /** A beam that is not full holds exactly the admissible elements that can be reached. */
  lemma ShortBeamIsComplete(s: Search, top: set<Cand>, visited: set<Id>)
    requires s.Valid() && IsBeam(s, top, visited) && |top| < s.ef
    ensures Ids(top) == s.Targets()
  {
    forall i | i in s.Targets()
      ensures i in Ids(top)
    {
      var p :| IsPath(s.es, s.layer, p) && p[0] == s.ep && p[|p| - 1] == i;
      ClosedHoldsReachable(s.es, s.layer, visited, p);
      assert s.CandOf(i) in top;
    }
  }

  /** The same holds whenever there are no more such elements than the beam is wide. */
  lemma WideBeamIsComplete(s: Search, top: set<Cand>, visited: set<Id>)
    requires s.Valid() && IsBeam(s, top, visited) && |s.Targets()| <= s.ef
    ensures Ids(top) == s.Targets()
  {
    if |top| < s.ef {
      ShortBeamIsComplete(s, top, visited);
    } else {
      CardIds(top);
      SubsetOfSameSize(Ids(top), s.Targets());
    }
  }

  /** Only a layer walk that reaches nothing admissible comes back empty-handed. */
  lemma EmptyBeamMeansNoTarget(s: Search, top: set<Cand>, visited: set<Id>)
    requires s.Valid() && IsBeam(s, top, visited)
    ensures top == {} <==> s.Targets() == {}
  {
    if top == {} {
      ShortBeamIsComplete(s, top, visited);
    } else {
      var c :| c in top;
      assert c.id in s.Targets();
    }
  }

  /** An admissible element left out of the beam is no closer than all of the beam, if some path leads
      to it from the start through elements strictly closer than the farthest result. */
  lemma {:induction false} NearerPathsAreSearched(s: Search, top: set<Cand>, visited: set<Id>, p: seq<Id>, far: Cand)
    requires s.Valid() && IsBeam(s, top, visited) && far in top
    requires IsPath(s.es, s.layer, p) && p[0] == s.ep
    requires forall k :: 0 < k < |p| - 1 ==> p[k] < |s.es| && s.DistTo(p[k]) < far.dist
    ensures p[|p| - 1] in visited
    ensures s.Admits(p[|p| - 1]) && p[|p| - 1] !in Ids(top) ==>
              |top| == s.ef && forall c :: c in top ==> c.dist <= s.DistTo(p[|p| - 1])
  {
    if |p| > 1 {
      var q := p[..|p| - 1];
      NearerPathsAreSearched(s, top, visited, q, far);
      var v := q[|q| - 1];
      assert Linked(s.es, s.layer, v, p[|p| - 1]);
      assert v == s.ep || s.DistTo(v) < far.dist;
      assert Expanded(s, visited, v);
    }
    assert s.CandOf(p[|p| - 1]) in top ==> p[|p| - 1] in Ids(top);
  }

  /** An admissible neighbour of a result is itself a result, or no closer than all of them. */
  lemma NeighboursOfResults(s: Search, top: set<Cand>, visited: set<Id>, c: Cand, n: Id)
    requires s.Valid() && IsBeam(s, top, visited)
    requires c in top && Linked(s.es, s.layer, c.id, n) && s.Admits(n) && n !in Ids(top)
    ensures |top| == s.ef && forall d :: d in top ==> d.dist <= s.DistTo(n)
  {
    assert Expanded(s, visited, c.id);
    assert s.CandOf(n) !in top;
  }

  lemma {:induction false} CardIds(s: set<Cand>)
    requires DistinctIds(s)
    ensures |Ids(s)| == |s|
  {
    if s != {} {
      var c :| c in s;
      CardIds(s - {c});
      assert Ids(s) == Ids(s - {c}) + {c.id};
    }
  }
}
