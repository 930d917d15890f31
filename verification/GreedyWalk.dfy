/** The descent through the upper layers: on each layer, move to closer neighbours until there is none. */
module GreedyWalk {
  import opened Space
  import opened Graph

  /** The links of every layer stay on elements that have the layer. */
  ghost predicate Closed(es: Elements) {
    forall l, v, x :: Linked(es, l, v, x) ==> HasLayer(es, x, l)
  }

  lemma WellFormedIsClosed(es: Elements, M: nat)
    requires WellFormed(es, M)
    ensures Closed(es)
  {
    forall l, v, x | Linked(es, l, v, x)
      ensures HasLayer(es, x, l)
    {
      assert HasLayer(es, v, l);
    }
  }

  function DistTo(es: Elements, metric: Metric, q: Vector, i: Id): Dist
    requires i < |es|
  {
    metric(q, es[i].vector)
  }

  ghost function Closer(es: Elements, metric: Metric, q: Vector, d: Dist): set<Id> {
    set i | 0 <= i < |es| && DistTo(es, metric, q, i) < d
  }

  ghost predicate NoCloserNeighbour(es: Elements, metric: Metric, q: Vector, l: nat, i: Id)
    requires Closed(es) && i < |es|
  {
    forall x :: Linked(es, l, i, x) ==> DistTo(es, metric, q, i) <= DistTo(es, metric, q, x)
  }

  // ---------- Where a walk ends ----------

  /** One pass over a list: each element that is strictly closer than all before takes over. */
  ghost function PassEnd(es: Elements, metric: Metric, q: Vector, list: seq<Id>, at: Id): (r: Id)
    requires at < |es| && forall k :: 0 <= k < |list| ==> list[k] < |es|
    ensures r < |es| && (r == at || (r in list && DistTo(es, metric, q, r) < DistTo(es, metric, q, at)))
    ensures forall k :: 0 <= k < |list| ==> DistTo(es, metric, q, r) <= DistTo(es, metric, q, list[k])
  {
    if list == [] then at
    else
      var next := if DistTo(es, metric, q, list[0]) < DistTo(es, metric, q, at) then list[0] else at;
      PassEnd(es, metric, q, list[1..], next)
  }

  /** Passes over the lists of layer `l`, until one finds nothing closer. */
  ghost function LayerEnd(es: Elements, metric: Metric, q: Vector, l: nat, at: Id): (r: Id)
    requires Closed(es) && HasLayer(es, at, l)
    ensures HasLayer(es, r, l) && DistTo(es, metric, q, r) <= DistTo(es, metric, q, at)
    ensures NoCloserNeighbour(es, metric, q, l, r)
    decreases Closer(es, metric, q, DistTo(es, metric, q, at))
  {
    ListInRange(es, l, at);
    var next := PassEnd(es, metric, q, es[at].links[l], at);
    if next == at then at
    else
      assert next in Closer(es, metric, q, DistTo(es, metric, q, at));
      assert Linked(es, l, at, next);
      LayerEnd(es, metric, q, l, next)
  }

  lemma ListInRange(es: Elements, l: nat, at: Id)
    requires Closed(es) && HasLayer(es, at, l)
    ensures forall k :: 0 <= k < |es[at].links[l]| ==>
              es[at].links[l][k] < |es| && Linked(es, l, at, es[at].links[l][k])
  {
    forall k | 0 <= k < |es[at].links[l]|
      ensures es[at].links[l][k] < |es| && Linked(es, l, at, es[at].links[l][k])
    {
      assert Linked(es, l, at, es[at].links[l][k]);
    }
  }

  /** The layers from `from` down to, but not including, `to`. */
  ghost function WalkEnd(es: Elements, metric: Metric, q: Vector, from: int, to: nat, ep: Id): (r: Id)
    requires Closed(es) && HasLayer(es, ep, from) && to <= from
    ensures HasLayer(es, r, to) && (to < from ==> HasLayer(es, r, to + 1))
    ensures DistTo(es, metric, q, r) <= DistTo(es, metric, q, ep)
    decreases from
  {
    if from == to then ep else WalkEnd(es, metric, q, from - 1, to, LayerEnd(es, metric, q, from, ep))
  }

  /** Every layer of the descent is left at an element that has no strictly closer neighbour there. */
  lemma {:induction false} WalkStopsOnEachLayer(es: Elements, metric: Metric, q: Vector, from: int, m: nat, ep: Id)
    requires Closed(es) && HasLayer(es, ep, from) && m < from
    ensures NoCloserNeighbour(es, metric, q, m + 1, WalkEnd(es, metric, q, from, m, ep))
    decreases from
  {
    var next := LayerEnd(es, metric, q, from, ep);
    if m + 1 < from {
      WalkStopsOnEachLayer(es, metric, q, from - 1, m, next);
    } else {
      assert WalkEnd(es, metric, q, from - 1, m, next) == next;
    }
  }

  lemma WalkStops(es: Elements, metric: Metric, q: Vector, from: int, to: nat, ep: Id)
    requires Closed(es) && HasLayer(es, ep, from) && to <= from
    ensures forall m :: to <= m < from ==> NoCloserNeighbour(es, metric, q, m + 1, WalkEnd(es, metric, q, from, m, ep))
  {
    hide Closed, WalkEnd, NoCloserNeighbour;
    forall m | to <= m < from
      ensures NoCloserNeighbour(es, metric, q, m + 1, WalkEnd(es, metric, q, from, m, ep))
    {
      WalkStopsOnEachLayer(es, metric, q, from, m, ep);
    }
  }

  /** A descent can be interrupted at any layer. */
  lemma {:induction false} WalkInParts(es: Elements, metric: Metric, q: Vector, from: int, m: nat, to: nat, ep: Id)
    requires Closed(es) && HasLayer(es, ep, from) && to <= m <= from
    ensures WalkEnd(es, metric, q, from, to, ep)
         == WalkEnd(es, metric, q, m, to, WalkEnd(es, metric, q, from, m, ep))
    decreases from
  {
    if m < from {
      WalkInParts(es, metric, q, from - 1, m, to, LayerEnd(es, metric, q, from, ep));
    }
  }

  // An element that is appended, and that nothing links to, is not seen by a walk.

  lemma {:induction false} PassEndOfPrefix(es: Elements, fs: Elements, metric: Metric, q: Vector, list: seq<Id>, at: Id)
    requires es <= fs && at < |es| && forall k :: 0 <= k < |list| ==> list[k] < |es|
    ensures PassEnd(fs, metric, q, list, at) == PassEnd(es, metric, q, list, at)
  {
    if list != [] {
      var next := if DistTo(es, metric, q, list[0]) < DistTo(es, metric, q, at) then list[0] else at;
      PassEndOfPrefix(es, fs, metric, q, list[1..], next);
    }
  }

  lemma {:induction false} LayerEndOfPrefix(es: Elements, fs: Elements, metric: Metric, q: Vector, l: nat, at: Id)
    requires es <= fs && Closed(es) && Closed(fs) && HasLayer(es, at, l)
    ensures LayerEnd(fs, metric, q, l, at) == LayerEnd(es, metric, q, l, at)
    decreases Closer(es, metric, q, DistTo(es, metric, q, at))
  {
    ListInRange(es, l, at);
    PassEndOfPrefix(es, fs, metric, q, es[at].links[l], at);
    var next := PassEnd(es, metric, q, es[at].links[l], at);
    if next != at {
      assert next in Closer(es, metric, q, DistTo(es, metric, q, at));
      assert Linked(es, l, at, next);
      LayerEndOfPrefix(es, fs, metric, q, l, next);
    }
  }

  lemma {:induction false} WalkEndOfPrefix(es: Elements, fs: Elements, metric: Metric, q: Vector, from: int, to: nat,
                                           ep: Id)
    requires es <= fs && Closed(es) && Closed(fs) && HasLayer(es, ep, from) && to <= from
    ensures WalkEnd(fs, metric, q, from, to, ep) == WalkEnd(es, metric, q, from, to, ep)
    decreases from
  {
    hide Closed, LayerEnd, PassEnd;
    if to < from {
      LayerEndOfPrefix(es, fs, metric, q, from, ep);
      WalkEndOfPrefix(es, fs, metric, q, from - 1, to, LayerEnd(es, metric, q, from, ep));
    }
  }

  // ---------- The walk as the loops it is ----------

  /** One pass over the neighbours `at` had when the pass began. */
  method Pass(es: Elements, metric: Metric, q: Vector, l: nat, at: Id, atDist: Dist)
    returns (cur: Id, curDist: Dist, changed: bool)
    requires Closed(es) && HasLayer(es, at, l) && atDist == DistTo(es, metric, q, at)
    ensures HasLayer(es, cur, l) && curDist == DistTo(es, metric, q, cur)
    ensures forall k :: 0 <= k < |es[at].links[l]| ==> es[at].links[l][k] < |es|
    ensures cur == PassEnd(es, metric, q, es[at].links[l], at)
    ensures if changed then curDist < atDist else cur == at
  {
    ListInRange(es, l, at);
    cur, curDist, changed := at, atDist, false;
    var list := es[at].links[l];
    var i := 0;
    while i < |list|
      invariant 0 <= i <= |list|
      invariant HasLayer(es, cur, l) && curDist == DistTo(es, metric, q, cur)
      invariant if changed then curDist < atDist else cur == at
      invariant PassEnd(es, metric, q, list[i..], cur) == PassEnd(es, metric, q, list, at)
    {
      var cand := list[i];
      assert Linked(es, l, at, cand);
      assert 0 <= cand < |es|; // so the "cand error" of the source cannot occur
      var d := DistTo(es, metric, q, cand);
      assert list[i..][1..] == list[i + 1..];
      if d < curDist {
        cur, curDist, changed := cand, d, true;
      }
      i := i + 1;
    }
  }

  method WalkLayer(es: Elements, metric: Metric, q: Vector, l: nat, start: Id, startDist: Dist)
    returns (cur: Id, curDist: Dist)
    requires Closed(es) && HasLayer(es, start, l) && startDist == DistTo(es, metric, q, start)
    ensures cur == LayerEnd(es, metric, q, l, start) && curDist == DistTo(es, metric, q, cur)
  {
    cur, curDist := start, startDist;
    var changed := true;
    while changed
      invariant HasLayer(es, cur, l) && curDist == DistTo(es, metric, q, cur)
      invariant LayerEnd(es, metric, q, l, cur) == LayerEnd(es, metric, q, l, start)
      invariant !changed ==> LayerEnd(es, metric, q, l, cur) == cur
      decreases Closer(es, metric, q, curDist), changed
    {
      var at, atDist := cur, curDist;
      cur, curDist, changed := Pass(es, metric, q, l, at, atDist);
      if changed {
        assert cur in Closer(es, metric, q, atDist) && cur !in Closer(es, metric, q, curDist);
      }
    }
  }

  method WalkDown(es: Elements, metric: Metric, q: Vector, from: int, to: nat, ep: Id) returns (cur: Id)
    requires Closed(es) && HasLayer(es, ep, from) && to <= from
    ensures cur == WalkEnd(es, metric, q, from, to, ep)
    ensures forall m :: to <= m < from ==> NoCloserNeighbour(es, metric, q, m + 1, WalkEnd(es, metric, q, from, m, ep))
  {
    hide Closed, LayerEnd, PassEnd, NoCloserNeighbour;
    cur := ep;
    var curDist := DistTo(es, metric, q, cur);
    var level := from;
    while level > to
      invariant to <= level <= from && HasLayer(es, cur, level) && curDist == DistTo(es, metric, q, cur)
      invariant WalkEnd(es, metric, q, level, to, cur) == WalkEnd(es, metric, q, from, to, ep)
    {
      cur, curDist := WalkLayer(es, metric, q, level, cur, curDist);
      level := level - 1;
    }
    WalkStops(es, metric, q, from, to, ep);
  }
}
