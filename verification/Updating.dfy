/** Moving an element that is already in the graph: `updatePoint` and `repairConnectionsForUpdate`. */
module Updating {
  import opened Space
  import opened Candidates
  import opened Graph
  import opened Neighbours
  import opened Linking
  import opened VisitedLists
  import opened BeamSearch
  import opened GreedyWalk
  import opened Insertion

  function Move(es: Elements, x: Id, v: Vector): (fs: Elements)
    requires x < |es|
  {
    es[x := es[x].(vector := v)]
  }

  lemma MoveKeepsWellFormed(es: Elements, M: nat, x: Id, v: Vector)
    requires WellFormed(es, M) && x < |es|
    ensures WellFormed(Move(es, x, v), M)
  {
    var fs := Move(es, x, v);
    forall j, m | HasLayer(fs, j, m)
      ensures GoodList(fs, M, j, m, fs[j].links[m])
    {
      assert HasLayer(es, j, m);
      assert forall y :: HasLayer(es, y, m) ==> HasLayer(fs, y, m);
    }
  }

  /** `sCand`: the element, its neighbours and theirs. */
  ghost function TwoHops(es: Elements, x: Id, l: nat): set<Id>
    requires HasLayer(es, x, l)
  {
    {x} + (set y | y in es[x].links[l])
    + (set y, z | y in es[x].links[l] && Linked(es, l, y, z) && z in es[y].links[l] :: z)
  }

  method CollectTwoHops(es: Elements, M: nat, x: Id, l: nat) returns (s: set<Id>)
    requires WellFormed(es, M) && HasLayer(es, x, l)
    ensures s == TwoHops(es, x, l)
  {
    var oneHop := es[x].links[l];
    s := {x};
    var i := 0;
    while i < |oneHop|
      invariant 0 <= i <= |oneHop|
      invariant forall y :: y in s <==>
                  y == x || exists k :: 0 <= k < i && (oneHop[k] == y || Linked(es, l, oneHop[k], y))
    {
      var n := oneHop[i];
      assert Linked(es, l, x, n);
      s := s + {n} + set z | z in es[n].links[l];
      i := i + 1;
    }
  }

  lemma TwoHopsHaveLayer(es: Elements, M: nat, x: Id, l: nat)
    requires WellFormed(es, M) && HasLayer(es, x, l)
    ensures forall y :: y in TwoHops(es, x, l) ==> y < |es| && HasLayer(es, y, l)
  {
    WellFormedIsClosed(es, M);
    forall y | y in es[x].links[l]
      ensures HasLayer(es, y, l)
    {
      assert Linked(es, l, x, y);
    }
  }

  /** The elements `moved` drew new lists on layer `l` from among `cands`; nothing else changed. */
  ghost predicate RelinkedAmong(es: Elements, fs: Elements, p: Params, moved: set<Id>, cands: set<Id>, l: nat)
    requires forall y :: y in cands ==> y < |es| && HasLayer(es, y, l)
  {
    && SameData(es, fs) && SameOffLayer(es, fs, l)
    && (forall i :: 0 <= i < |es| && i !in moved ==> fs[i] == es[i])
    && (forall n {:trigger n in moved} :: n in moved ==>
          n in cands && HasLayer(fs, n, l) && Relinked(es, p.metric, p.M, p.ef, cands, n, l, fs[n].links[l]))
  }

  lemma RelinkedIgnoresLinks(es: Elements, fs: Elements, p: Params, cands: set<Id>, n: Id, l: nat, list: seq<Id>)
    requires SameData(es, fs) && HasLayer(es, n, l) && forall x :: x in cands ==> x < |es|
    requires Relinked(fs, p.metric, p.M, p.ef, cands, n, l, list)
    ensures Relinked(es, p.metric, p.M, p.ef, cands, n, l, list)
  {
    var near, kept :|
      && NearestFrom(fs, p.metric, n, cands - {n}, p.ef, near)
      && InRange(fs, near) && Selection(fs, p.metric, near, Cap(p.M, l), kept)
      && ListOf(list, kept);
    assert forall x :: x in cands ==> CandFrom(es, p.metric, n, x) == CandFrom(fs, p.metric, n, x);
    SelectionIgnoresLinks(es, fs, p.metric, near, Cap(p.M, l), kept);
    assert NearestFrom(es, p.metric, n, cands - {n}, p.ef, near);
  }

  lemma RelinkStep(es: Elements, fs: Elements, p: Params, moved: set<Id>, cands: set<Id>, l: nat, n: Id, list: seq<Id>)
    requires forall y :: y in cands ==> y < |es| && HasLayer(es, y, l)
    requires RelinkedAmong(es, fs, p, moved, cands, l) && n !in moved && n in cands && HasLayer(fs, n, l)
    requires Relinked(es, p.metric, p.M, p.ef, cands, n, l, list)
    ensures RelinkedAmong(es, SetList(fs, n, l, list), p, moved + {n}, cands, l)
  {
    hide Relinked;
    var gs := SetList(fs, n, l, list);
    forall m | m in moved + {n}
      ensures m in cands && HasLayer(gs, m, l) && Relinked(es, p.metric, p.M, p.ef, cands, m, l, gs[m].links[l])
    {
      if m != n {
        assert gs[m] == fs[m];
      }
    }
  }

  method RelinkList(ghost es: Elements, fs: Elements, p: Params, cands: set<Id>, n: Id, l: nat) returns (list: seq<Id>)
    requires p.Valid() && SameData(es, fs) && HasLayer(es, n, l)
    requires n in cands && cands != {n} && forall y :: y in cands ==> y < |es| && HasLayer(es, y, l)
    ensures HasLayer(fs, n, l) && GoodList(fs, p.M, n, l, list)
    ensures Relinked(es, p.metric, p.M, p.ef, cands, n, l, list)
  {
    assert forall y :: y in cands ==> y < |fs| && HasLayer(fs, y, l);
    list := Relink(fs, p.metric, p.M, p.ef, cands, n, l);
    RelinkedIgnoresLinks(es, fs, p, cands, n, l, list);
  }

  /** The neighbours of `x` have drawn new lists from what is within two hops of it. */
  ghost predicate RelinkedLayer(es: Elements, fs: Elements, p: Params, x: Id, l: nat) {
    && WellFormed(es, p.M) && HasLayer(es, x, l)
    && (TwoHopsHaveLayer(es, p.M, x, l);
        RelinkedAmong(es, fs, p, (set y | y in es[x].links[l]), TwoHops(es, x, l), l))
  }

  /** One layer of `updatePoint`: every neighbour of the moved element draws a new list, in any order. */
  method RelinkNeighbours(es: Elements, p: Params, x: Id, l: nat) returns (fs: Elements)
    requires p.Valid() && WellFormed(es, p.M) && HasLayer(es, x, l)
    ensures WellFormed(fs, p.M) && SameData(es, fs) && RelinkedLayer(es, fs, p, x, l)
  {
    TwoHopsHaveLayer(es, p.M, x, l);
    var cands := CollectTwoHops(es, p.M, x, l);
    fs := es;
    if |es[x].links[l]| == 0 {
      return;
    }
    var neighbours := set y | y in es[x].links[l];
    assert x !in neighbours && x in cands && neighbours <= cands by {
      assert GoodList(es, p.M, x, l, es[x].links[l]);
    }
    fs := RelinkAll(es, p, neighbours, cands, l, x);
  }

  method RelinkAll(es: Elements, p: Params, neighbours: set<Id>, cands: set<Id>, l: nat, ghost x: Id)
    returns (fs: Elements)
    requires p.Valid() && WellFormed(es, p.M)
    requires forall y :: y in cands ==> y < |es| && HasLayer(es, y, l)
    requires neighbours <= cands && x in cands && x !in neighbours
    ensures WellFormed(fs, p.M) && RelinkedAmong(es, fs, p, neighbours, cands, l)
  {
    hide Relinked;
    fs := es;
    var rest := neighbours;
    while rest != {}
      invariant rest <= neighbours
      invariant WellFormed(fs, p.M) && RelinkedAmong(es, fs, p, neighbours - rest, cands, l)
      decreases rest
    {
      var n :| n in rest;
      var list := RelinkList(es, fs, p, cands, n, l);
      RelinkStep(es, fs, p, neighbours - rest, cands, l, n, list);
      SetListKeepsWellFormed(fs, p.M, n, l, list);
      fs := SetList(fs, n, l, list);
      assert neighbours - (rest - {n}) == (neighbours - rest) + {n};
      rest := rest - {n};
    }
    assert neighbours - rest == neighbours;
  }

  /** One layer of the repair of `x`: a search, whose results without `x` itself, and perhaps with the entry
      point, are connected; with no other result the layer is left as it is. */
  ghost predicate RepairDone(t: LayerTrace, p: Params, entry: Id, x: Id, q: Vector, l: nat) {
    var others := set c | c in t.top && c.id != x;
    && WellFormed(t.before, p.M) && HasLayer(t.before, x, l) && entry < |t.before|
    && BaseSearch(t.search, t.before, p.metric, q, l, p.ef)
    && (exists visited :: IsBeam(t.search, t.top, visited))
    && if others == {} then t.after == t.before && t.next == t.search.ep else
         && WithEntry(others, EntryCand(t.before, p.metric, q, entry), p.ef, t.cands)
         && (forall c :: c in t.cands ==> c.id < |t.before| && c.id != x && HasLayer(t.before, c.id, l))
         && Connected(t.before, t.after, p.metric, p.M, x, t.cands, t.kept, l, true)
         && exists n :: IsNearest(n, t.kept) && n in t.cands && t.next == n.id
  }

  method RepairLayer(es: Elements, p: Params, entry: Id, x: Id, q: Vector, l: nat, at: Id, vl: VisitedList)
    returns (fs: Elements, next: Id, ghost step: LayerTrace)
    requires p.Valid() && WellFormed(es, p.M) && HasLayer(es, x, l) && HasLayer(es, at, l) && HasLayer(es, entry, l)
    requires !es[x].deleted
    requires vl.Valid() && |es| <= vl.mass.Length
    modifies vl, vl.mass
    ensures vl.Valid()
    ensures WellFormed(fs, p.M) && SameData(es, fs) && HasLayer(fs, next, l)
    ensures step.before == es && step.after == fs && step.search.ep == at && step.next == next
    ensures RepairDone(step, p, entry, x, q, l)
  {
    var top;
    ghost var s, visited, kept := *, *, {};
    top, s, visited := SearchBaseLayer(es, p, at, q, l, vl);
    BaseResults(s, es, p.metric, q, l, p.ef, top, visited);
    var others := set c | c in top && c.id != x;
    var cands: set<Cand> := {};
    fs, next := es, at;
    if others != {} {
      cands := AddEntry(others, EntryCand(es, p.metric, q, entry), p.ef);
      EntryCandsOk(es, others, cands, p.metric, q, entry, p.ef, x, l);
      fs, next, kept := MutuallyConnectNewElement(es, p.metric, p.M, x, cands, l, true);
    }
    step := LayerTrace(es, fs, s, top, cands, kept, next);
  }

  ghost predicate RepairsDone(steps: seq<LayerTrace>, p: Params, entry: Id, x: Id, q: Vector, from: nat) {
    |steps| <= from + 1 && forall k :: 0 <= k < |steps| ==> RepairDone(steps[k], p, entry, x, q, from - k)
  }

  /** All layers of `x` are repaired, from its highest down, starting where the walk through those above ends. */
  ghost predicate Repaired(es: Elements, fs: Elements, p: Params, entry: int, maxLevel: int, x: Id, q: Vector,
                           steps: seq<LayerTrace>)
    requires WellFormed(es, p.M) && EntryOk(es, entry, maxLevel) && x < |es|
  {
    var from := |es[x].links| - 1;
    && |steps| == from + 1 && RepairsDone(steps, p, entry, x, q, from)
    && Chain(steps, es, Descent(es, p.M, p.metric, entry, maxLevel, q, from), fs, steps[from].next)
  }

  lemma HasLowestLayer(es: Elements, M: nat, x: Id)
    requires WellFormed(es, M) && x < |es|
    ensures HasLayer(es, x, 0)
  {
  }

  /** `repairConnectionsForUpdate`: down from the entry point to the layers of `x`, then layer by layer. */
  method RepairConnectionsForUpdate(es: Elements, p: Params, entry: Id, maxLevel: nat, x: Id, q: Vector,
                                    vl: VisitedList)
    returns (fs: Elements, ghost steps: seq<LayerTrace>)
    requires p.Valid() && WellFormed(es, p.M) && EntryOk(es, entry, maxLevel) && x < |es| && !es[x].deleted
    requires vl.Valid() && |es| <= vl.mass.Length
    modifies vl, vl.mass
    ensures vl.Valid()
    ensures WellFormed(fs, p.M) && SameData(es, fs)
    ensures Repaired(es, fs, p, entry, maxLevel, x, q, steps)
  {
    hide RepairDone, Chain, Closed, WellFormed;
    HasLowestLayer(es, p.M, x);
    var elemLevel := |es[x].links| - 1;
    assert elemLevel <= maxLevel; // "Level of item to be updated cannot be bigger than max level"
    WellFormedIsClosed(es, p.M);
    var at := WalkDown(es, p.metric, q, maxLevel, elemLevel, entry);
    fs, steps := es, [];
    EmptyChain(es, at);
    ghost var start := at;
    var level := elemLevel;
    while level >= 0
      invariant -1 <= level <= elemLevel && vl.Valid()
      invariant WellFormed(fs, p.M) && SameData(es, fs)
      invariant level >= 0 ==> HasLayer(fs, at, level)
      invariant |steps| == elemLevel - level && RepairsDone(steps, p, entry, x, q, elemLevel)
      invariant Chain(steps, es, start, fs, at)
    {
      ghost var step;
      fs, at, step := RepairLayer(fs, p, entry, x, q, level, at, vl);
      ChainGrows(steps, es, start, step);
      steps := steps + [step];
      level := level - 1;
    }
    ChainEnd(steps, es, start, fs, at);
  }

  /** The graphs between the layers of an update, the first with nothing but the vector changed. */
  ghost predicate Relinks(gs: seq<Elements>, p: Params, x: Id) {
    |gs| > 0 && forall k :: 0 <= k < |gs| - 1 ==> RelinkedLayer(gs[k], gs[k + 1], p, x, k)
  }

  /** What an update has done: the vector, the lists of the neighbours layer by layer, and the repair. */
  ghost predicate Moved(es: Elements, fs: Elements, p: Params, entry: int, maxLevel: int, x: Id, v: Vector,
                        gs: seq<Elements>, steps: seq<LayerTrace>)
    requires x < |es|
  {
    if entry == x && |es| == 1 then fs == Move(es, x, v)
    else
      && |gs| == |es[x].links| + 1 && gs[0] == Move(es, x, v) && Relinks(gs, p, x)
      && var last := gs[|gs| - 1];
      && WellFormed(last, p.M) && EntryOk(last, entry, maxLevel) && x < |last|
      && Repaired(last, fs, p, entry, maxLevel, x, v, steps)
  }

  /** `updatePoint` with probability 1 (the only one the index is called with). A lone element is only moved. */
  method UpdatePoint(es: Elements, p: Params, entry: Id, maxLevel: nat, x: Id, v: Vector, vl: VisitedList)
    returns (fs: Elements, ghost gs: seq<Elements>, ghost steps: seq<LayerTrace>)
    requires p.Valid() && WellFormed(es, p.M) && x < |es| && !es[x].deleted && EntryOk(es, entry, maxLevel)
    requires vl.Valid() && |es| <= vl.mass.Length
    modifies vl, vl.mass
    ensures vl.Valid()
    ensures WellFormed(fs, p.M) && SameData(Move(es, x, v), fs)
    ensures Moved(es, fs, p, entry, maxLevel, x, v, gs, steps)
  {
    hide RelinkedLayer, RelinkedAmong, Repaired;
    MoveKeepsWellFormed(es, p.M, x, v);
    fs := Move(es, x, v);
    gs, steps := [fs], [];
    if entry == x && |es| == 1 {
      return;
    }
    var layer := 0;
    while layer < |es[x].links|
      invariant 0 <= layer <= |es[x].links| && vl.Valid()
      invariant WellFormed(fs, p.M) && SameData(Move(es, x, v), fs)
      invariant |gs| == layer + 1 && gs[0] == Move(es, x, v) && gs[layer] == fs && Relinks(gs, p, x)
    {
      assert HasLayer(fs, x, layer);
      fs := RelinkNeighbours(fs, p, x, layer);
      gs := gs + [fs];
      layer := layer + 1;
    }
    fs, steps := RepairConnectionsForUpdate(fs, p, entry, maxLevel, x, v, vl);
  }
}
