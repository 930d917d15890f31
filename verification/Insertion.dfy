/** Building the graph: one layer, and all the layers, of an insertion. */
module Insertion {
  import opened Space
  import opened Candidates
  import opened Graph
  import opened Neighbours
  import opened Linking
  import opened VisitedLists
  import opened BeamSearch
  import opened GreedyWalk

  /** No layer up to `upTo` knows `x`, and its lists there are blank. */
  ghost predicate Unlinked(es: Elements, x: Id, upTo: int) {
    && (forall l, v :: l <= upTo ==> !Linked(es, l, v, x))
    && (forall l :: HasLayer(es, x, l) && l <= upTo ==> es[x].links[l] == [])
  }

  /** A search of layer `l` as `searchBaseLayer` makes it. */
  ghost predicate BaseSearch(s: Search, es: Elements, metric: Metric, q: Vector, l: nat, ef: nat) {
    && s.Valid() && s.es == es && s.metric == metric && s.query == q && s.layer == l && s.ef == ef
    && s.hasDeletions && s.filter.None?
  }

  /** The candidates with a tombstoned entry point put in, which then drops a farthest one if need be. */
  ghost predicate WithEntry(top: set<Cand>, entry: Option<Cand>, bound: nat, r: set<Cand>) {
    match entry
    case None => r == top
    case Some(c) =>
      && r <= top + {c}
      && (|top + {c}| <= bound ==> r == top + {c})
      && (|top + {c}| > bound ==> exists f :: IsFarthest(f, top + {c}) && r == top + {c} - {f})
  }

  method AddEntry(top: set<Cand>, entry: Option<Cand>, bound: nat) returns (r: set<Cand>)
    requires bound > 0
    ensures WithEntry(top, entry, bound, r)
    ensures r == {} <==> top == {} && entry == None
  {
    r := top;
    if entry.Some? {
      r := r + {entry.value};
      if |r| > bound {
        var f := Farthest(r);
        r := r - {f};
        assert |r| > 0;
      }
    }
  }

  lemma BaseResults(s: Search, es: Elements, metric: Metric, q: Vector, l: nat, ef: nat, top: set<Cand>,
                    visited: set<Id>)
    requires BaseSearch(s, es, metric, q, l, ef) && IsBeam(s, top, visited)
    ensures DistinctIds(top)
    ensures forall c :: c in top ==> c.id < |es| && HasLayer(es, c.id, l) && !es[c.id].deleted && c == s.CandOf(c.id)
    ensures forall x: Id :: x != s.ep && (forall v :: !Linked(es, l, v, x)) ==> x !in Ids(top)
  {
    forall x: Id | x != s.ep && (forall v :: !Linked(es, l, v, x))
      ensures x !in Ids(top)
    {
      UnlinkedUnreachable(es, l, s.ep, x);
    }
  }

  /** The tombstoned entry point offered as a candidate for a new element, or nothing if it is live. */
  function EntryCand(es: Elements, metric: Metric, q: Vector, entry: Id): Option<Cand>
    requires entry < |es|
  {
    if es[entry].deleted then Some(Cand(metric(q, es[entry].vector), entry)) else None
  }

  /** What happened on one layer of an insertion or a repair: the graph before and after, the search and its
      results, the candidates and those kept, and where the next layer starts. */
  datatype LayerTrace = LayerTrace(before: Elements, after: Elements, search: Search, top: set<Cand>,
                                   cands: set<Cand>, kept: set<Cand>, next: Id)

  /** Each layer takes up the graph, and the element, that the layer above it has left. */
  ghost predicate Chain(steps: seq<LayerTrace>, es: Elements, start: Id, fs: Elements, at: Id) {
    if steps == [] then fs == es && at == start
    else
      && steps[0].before == es && steps[0].search.ep == start
      && steps[|steps| - 1].after == fs && steps[|steps| - 1].next == at
      && forall k :: 0 < k < |steps| ==>
           steps[k].before == steps[k - 1].after && steps[k].search.ep == steps[k - 1].next
  }

  lemma ChainGrows(steps: seq<LayerTrace>, es: Elements, start: Id, t: LayerTrace)
    requires Chain(steps, es, start, t.before, t.search.ep)
    ensures Chain(steps + [t], es, start, t.after, t.next)
  {
  }

  ghost predicate LayerCands(es: Elements, metric: Metric, ef: nat, q: Vector, entry: Id, l: nat,
                             s: Search, top: set<Cand>, cands: set<Cand>)
    requires entry < |es|
  {
    && BaseSearch(s, es, metric, q, l, ef)
    && (exists visited :: IsBeam(s, top, visited))
    && WithEntry(top, EntryCand(es, metric, q, entry), ef, cands)
  }

  ghost predicate LayerStep(es: Elements, fs: Elements, metric: Metric, M: nat, cur: Id, l: nat, step: LayerTrace)
    requires WellFormed(es, M) && HasLayer(es, cur, l)
  {
    && (forall c :: c in step.cands ==> c.id < |es| && HasLayer(es, c.id, l))
    && Connected(es, fs, metric, M, cur, step.cands, step.kept, l, false)
  }

  lemma ConnectedGivesList(es: Elements, fs: Elements, metric: Metric, M: nat, cur: Id, cands: set<Cand>,
                           kept: set<Cand>, l: nat, isUpdate: bool)
    requires M > 0 && WellFormed(es, M) && HasLayer(es, cur, l) && cands != {}
    requires forall c :: c in cands ==> c.id < |es| && HasLayer(es, c.id, l)
    requires Connected(es, fs, metric, M, cur, cands, kept, l, isUpdate)
    ensures fs[cur].links[l] != []
  {
    SelectionIsSmall(es, metric, cands, M, kept);
  }

  lemma EntryCandsOk(es: Elements, top: set<Cand>, cands: set<Cand>, metric: Metric, q: Vector, entry: Id, ef: nat,
                     cur: Id, l: nat)
    requires HasLayer(es, entry, l) && (es[entry].deleted ==> entry != cur)
    requires WithEntry(top, EntryCand(es, metric, q, entry), ef, cands) && DistinctIds(top)
    requires forall c :: c in top ==> c.id < |es| && HasLayer(es, c.id, l) && !es[c.id].deleted && c.id != cur
    ensures DistinctIds(cands)
    ensures forall c :: c in cands ==> c.id < |es| && c.id != cur && HasLayer(es, c.id, l)
  {
  }

  lemma ConnectedKeepsUnlinked(es: Elements, fs: Elements, x: Id, l: int)
    requires SameData(es, fs) && l >= 0 && SameOffLayer(es, fs, l) && Unlinked(es, x, l)
    ensures Unlinked(fs, x, l - 1)
  {
    forall m, v | m <= l - 1
      ensures !Linked(fs, m, v, x)
    {
      if Linked(fs, m, v, x) {
        assert HasLayer(es, v, m);
        assert Linked(es, m, v, x);
      }
    }
    forall m | HasLayer(fs, x, m) && m <= l - 1
      ensures fs[x].links[m] == []
    {
      assert HasLayer(es, x, m);
    }
  }

  /** Gives `cur` its list on layer `l` and links the chosen elements back; `next` is the nearest of them. */
  method MutuallyConnectNewElement(es: Elements, metric: Metric, M: nat, cur: Id, cands: set<Cand>, l: nat,
                                   isUpdate: bool)
    returns (fs: Elements, next: Id, ghost kept: set<Cand>)
    requires M > 0 && WellFormed(es, M) && HasLayer(es, cur, l)
    requires cands != {} && DistinctIds(cands)
    requires forall c :: c in cands ==> c.id < |es| && c.id != cur && HasLayer(es, c.id, l)
    requires !isUpdate ==> Unlinked(es, cur, l)
    ensures WellFormed(fs, M)
    ensures Connected(es, fs, metric, M, cur, cands, kept, l, isUpdate)
    ensures exists n :: IsNearest(n, kept) && next == n.id && n in cands
    ensures HasLayer(fs, next, l) && next != cur && fs[cur].links[l] != []
  {
    var neighbours;
    next, neighbours, kept := ChooseNeighbours(es, metric, M, cur, cands, l);
    // a fresh element has no list yet: "The newly inserted element should have blank link list"
    assert isUpdate || es[cur].links[l] == [];
    SetListKeepsWellFormed(es, M, cur, l, neighbours);
    fs := SetList(es, cur, l, neighbours);
    var i := 0;
    while i < |neighbours|
      invariant 0 <= i <= |neighbours| && WellFormed(fs, M)
      invariant HalfConnected(es, fs, metric, M, cur, neighbours, l, isUpdate, i)
    {
      fs := LinkBack(fs, es, metric, M, cur, neighbours, l, isUpdate, i);
      i := i + 1;
    }
    AllLinkedBack(es, fs, metric, M, cur, cands, kept, neighbours, l, isUpdate);
    ConnectedGivesList(es, fs, metric, M, cur, cands, kept, l, isUpdate);
  }

  // ---------- One layer ----------

  /** What does not change during an insertion or an update. */
  datatype Params = Params(metric: Metric, M: nat, ef: nat) {
    predicate Valid() {
      M > 0 && ef >= M
    }
  }

  /** One layer search during insertion or repair: only live elements of the layer come back. */
  method SearchBaseLayer(es: Elements, p: Params, ep: Id, q: Vector, l: nat, vl: VisitedList)
    returns (top: set<Cand>, ghost s: Search, ghost visited: set<Id>)
    requires p.Valid() && WellFormed(es, p.M) && HasLayer(es, ep, l)
    requires vl.Valid() && |es| <= vl.mass.Length
    modifies vl, vl.mass
    ensures vl.Valid()
    ensures BaseSearch(s, es, p.metric, q, l, p.ef) && s.ep == ep && IsBeam(s, top, visited)
  {
    WellFormedIsClosed(es, p.M);
    var search := Search(es, p.metric, q, ep, l, p.ef, true, None);
    s := search;
    top, visited := SearchLayer(search, vl);
  }

  /** The candidates for one layer of an insertion. There are none exactly when the search from `at` can
      reach no live element and the entry point is not there to stand in. */
  method FindCandidates(es: Elements, p: Params, entry: Id, cur: Id, q: Vector, l: nat, at: Id, vl: VisitedList)
    returns (cands: set<Cand>, ghost s: Search, ghost top: set<Cand>)
    requires p.Valid() && WellFormed(es, p.M) && HasLayer(es, cur, l) && HasLayer(es, at, l) && at != cur
    requires Unlinked(es, cur, l)
    requires HasLayer(es, entry, l) && entry != cur
    requires vl.Valid() && |es| <= vl.mass.Length
    modifies vl, vl.mass
    ensures vl.Valid()
    ensures LayerCands(es, p.metric, p.ef, q, entry, l, s, top, cands) && s.ep == at
    ensures DistinctIds(cands)
    ensures forall c :: c in cands ==> c.id < |es| && c.id != cur && HasLayer(es, c.id, l)
    ensures cands == {} <==> !es[entry].deleted && s.Targets() == {}
  {
    var found;
    ghost var visited;
    found, s, visited := SearchBaseLayer(es, p, at, q, l, vl);
    top := found;
    BaseResults(s, es, p.metric, q, l, p.ef, top, visited);
    EmptyBeamMeansNoTarget(s, top, visited);
    cands := AddEntry(found, EntryCand(es, p.metric, q, entry), p.ef);
    assert cur !in Ids(top);
    EntryCandsOk(es, top, cands, p.metric, q, entry, p.ef, cur, l);
  }

  /** One layer of an insertion of `cur`: the candidates are found, a selection of them is connected, and the
      nearest of the selection is where the next layer starts. */
  ghost predicate LayerDone(t: LayerTrace, p: Params, entry: Id, cur: Id, q: Vector, l: nat) {
    && WellFormed(t.before, p.M) && HasLayer(t.before, cur, l) && entry < |t.before|
    && LayerCands(t.before, p.metric, p.ef, q, entry, l, t.search, t.top, t.cands)
    && LayerStep(t.before, t.after, p.metric, p.M, cur, l, t)
    && exists n :: IsNearest(n, t.kept) && n in t.cands && t.next == n.id
  }

  /** The layers from `from` downwards, as many as there are steps. */
  ghost predicate LayersDone(steps: seq<LayerTrace>, p: Params, entry: Id, cur: Id, q: Vector, from: nat) {
    |steps| <= from + 1 && forall k :: 0 <= k < |steps| ==> LayerDone(steps[k], p, entry, cur, q, from - k)
  }

  /** Some live element can be reached from `at`. */
  ghost predicate ReachesLive(es: Elements, l: nat, at: Id) {
    exists x :: x in Reachable(es, l, at) && !es[x].deleted
  }

  lemma TargetsAreLive(s: Search, es: Elements, metric: Metric, q: Vector, l: nat, ef: nat)
    requires BaseSearch(s, es, metric, q, l, ef)
    ensures s.Targets() != {} <==> ReachesLive(es, l, s.ep)
  {
    if x :| x in Reachable(es, l, s.ep) && !es[x].deleted {
      assert x in s.Targets();
    }
  }

  /** One layer of an insertion. Without candidates it cannot go on: the source then takes the last of an
      empty list of neighbours. */
  method ConnectLayer(es: Elements, p: Params, entry: Id, cur: Id, q: Vector, l: nat, at: Id, vl: VisitedList)
    returns (ok: bool, fs: Elements, next: Id, ghost step: LayerTrace)
    requires p.Valid() && WellFormed(es, p.M) && HasLayer(es, cur, l) && HasLayer(es, at, l) && at != cur
    requires Unlinked(es, cur, l)
    requires HasLayer(es, entry, l) && entry != cur
    requires vl.Valid() && |es| <= vl.mass.Length
    modifies vl, vl.mass
    ensures vl.Valid()
    ensures ok <==> es[entry].deleted || ReachesLive(es, l, at)
    ensures step.before == es && step.after == fs && step.search.ep == at && step.next == next
    ensures ok ==> LayerDone(step, p, entry, cur, q, l)
    ensures ok ==> WellFormed(fs, p.M) && HasLayer(fs, next, l) && next != cur && fs[cur].links[l] != []
    ensures ok && !es[entry].deleted ==> !fs[next].deleted
    ensures !ok ==> fs == es
  {
    var cands;
    ghost var s, top, kept := *, *, {};
    cands, s, top := FindCandidates(es, p, entry, cur, q, l, at, vl);
    TargetsAreLive(s, es, p.metric, q, l, p.ef);
    ok, fs, next := cands != {}, es, at;
    if ok {
      fs, next, kept := MutuallyConnectNewElement(es, p.metric, p.M, cur, cands, l, false);
      LiveCandidates(es, p, entry, q, l, s, top, cands);
    }
    step := LayerTrace(es, fs, s, top, cands, kept, next);
  }

  /** Tombstones never become candidates, but for the entry point. */
  lemma LiveCandidates(es: Elements, p: Params, entry: Id, q: Vector, l: nat, s: Search, top: set<Cand>,
                       cands: set<Cand>)
    requires entry < |es| && LayerCands(es, p.metric, p.ef, q, entry, l, s, top, cands)
    ensures !es[entry].deleted ==> forall c :: c in cands ==> c.id < |es| && !es[c.id].deleted
  {
    var visited :| IsBeam(s, top, visited);
    BaseResults(s, es, p.metric, q, l, p.ef, top, visited);
  }

  // ---------- All layers ----------

  lemma LayerStepFrame(es: Elements, fs: Elements, metric: Metric, M: nat, cur: Id, l: nat, step: LayerTrace)
    requires WellFormed(es, M) && HasLayer(es, cur, l) && LayerStep(es, fs, metric, M, cur, l, step)
    ensures SameData(es, fs) && SameOffLayer(es, fs, l)
    ensures Unlinked(es, cur, l) ==> Unlinked(fs, cur, l - 1)
    ensures forall m :: HasLayer(es, cur, m) && m != l ==> fs[cur].links[m] == es[cur].links[m]
  {
    if Unlinked(es, cur, l) {
      ConnectedKeepsUnlinked(es, fs, cur, l);
    }
  }

  /** The layers from `from` down to 0. Only the first one can be without candidates: the search of any other
      starts at a live element, or has the tombstoned entry point to fall back on. */
  method ConnectLayers(es: Elements, p: Params, entry: Id, cur: Id, q: Vector, from: nat, start: Id, vl: VisitedList)
    returns (ok: bool, fs: Elements, ghost steps: seq<LayerTrace>)
    requires p.Valid() && WellFormed(es, p.M) && HasLayer(es, cur, from) && HasLayer(es, start, from) && start != cur
    requires Unlinked(es, cur, from)
    requires HasLayer(es, entry, from) && entry != cur
    requires vl.Valid() && |es| <= vl.mass.Length
    modifies vl, vl.mass
    ensures vl.Valid()
    ensures WellFormed(fs, p.M) && SameData(es, fs)
    ensures forall i, m :: HasLayer(es, i, m) && m > from ==> fs[i].links[m] == es[i].links[m]
    ensures ok <==> es[entry].deleted || ReachesLive(es, from, start)
    ensures ok ==> |steps| == from + 1 && LayersDone(steps, p, entry, cur, q, from)
    ensures ok ==> Chain(steps, es, start, fs, steps[from].next)
    ensures ok ==> forall m :: 0 <= m <= from ==> fs[cur].links[m] != []
  {
    hide LayerDone, LayerStep, ReachesLive, WellFormed, Chain;
    fs, steps := es, [];
    EmptyChain(es, start);
    var at: Id, level: int := start, from;
    while level >= 0
      invariant -1 <= level <= from && vl.Valid()
      invariant WellFormed(fs, p.M) && SameData(es, fs)
      invariant Unlinked(fs, cur, level)
      invariant level >= 0 ==> HasLayer(fs, at, level) && at != cur
      invariant forall i, m :: HasLayer(es, i, m) && m > from ==> fs[i].links[m] == es[i].links[m]
      invariant |steps| == from - level && LayersDone(steps, p, entry, cur, q, from) && Chain(steps, es, start, fs, at)
      invariant level == from ==> fs == es && at == start
      invariant level < from ==> es[entry].deleted || (at < |fs| && !fs[at].deleted)
      invariant level < from ==> es[entry].deleted || ReachesLive(es, from, start)
      invariant forall m :: level < m <= from ==> fs[cur].links[m] != []
    {
      assert 0 <= level <= from; // "Level error" cannot occur
      ghost var step, before := *, fs;
      if level < from {
        LiveReachesItself(fs, level, at);
      }
      ok, fs, at, step := ConnectLayer(fs, p, entry, cur, q, level, at, vl);
      if !ok {
        return;
      }
      LayerDoneFrame(step, p, entry, cur, q, level);
      ChainGrows(steps, es, start, step);
      steps := steps + [step];
      level := level - 1;
    }
    ok := true;
    ChainEnd(steps, es, start, fs, at);
  }

  lemma EmptyChain(es: Elements, start: Id)
    ensures Chain([], es, start, es, start)
  {
  }

  lemma ChainEnd(steps: seq<LayerTrace>, es: Elements, start: Id, fs: Elements, at: Id)
    requires Chain(steps, es, start, fs, at) && steps != []
    ensures at == steps[|steps| - 1].next
  {
  }

  lemma LayerDoneFrame(t: LayerTrace, p: Params, entry: Id, cur: Id, q: Vector, l: nat)
    requires LayerDone(t, p, entry, cur, q, l)
    ensures SameData(t.before, t.after) && SameOffLayer(t.before, t.after, l)
    ensures Unlinked(t.before, cur, l) ==> Unlinked(t.after, cur, l - 1)
  {
    LayerStepFrame(t.before, t.after, p.metric, p.M, cur, l, t);
  }

  lemma LiveReachesItself(es: Elements, l: nat, at: Id)
    ensures at < |es| && !es[at].deleted ==> ReachesLive(es, l, at)
  {
    ReachesSelf(es, l, at);
    assert at < |es| ==> at in Reachable(es, l, at);
  }

  // ---------- A whole insertion ----------

  function Blank(a: Label, v: Vector, level: nat): (e: Element)
    ensures |e.links| == level + 1 && forall l :: 0 <= l <= level ==> e.links[l] == []
  {
    Element(a, v, false, seq(level + 1, i => []))
  }

  lemma AppendKeepsWellFormed(es: Elements, M: nat, e: Element)
    requires WellFormed(es, M) && |e.links| > 0 && forall l :: 0 <= l < |e.links| ==> e.links[l] == []
    ensures WellFormed(es + [e], M)
    ensures forall l, v :: !Linked(es + [e], l, v, |es|)
  {
    var fs := es + [e];
    forall j, m | HasLayer(fs, j, m)
      ensures GoodList(fs, M, j, m, fs[j].links[m])
      ensures !Linked(fs, m, j, |es|)
    {
      if j < |es| {
        assert HasLayer(es, j, m);
        assert GoodList(es, M, j, m, es[j].links[m]);
        assert forall y :: HasLayer(es, y, m) ==> HasLayer(fs, y, m);
      }
    }
  }

  /** The entry point is an element of the highest level there is; both are -1 in an empty index. */
  ghost predicate EntryOk(es: Elements, entry: int, maxLevel: int) {
    if |es| == 0 then entry == -1 && maxLevel == -1
    else
      && 0 <= entry < |es| && |es[entry].links| == maxLevel + 1 > 0
      && forall i :: 0 <= i < |es| ==> |es[i].links| <= maxLevel + 1
  }

  ghost function Tombstones(es: Elements): set<Id> {
    set i | 0 <= i < |es| && es[i].deleted
  }

  /** Where the walk from the entry point towards `q` leaves the layers above `to`. */
  ghost function Descent(es: Elements, M: nat, metric: Metric, entry: int, maxLevel: int, q: Vector, to: nat): (r: Id)
    requires WellFormed(es, M) && EntryOk(es, entry, maxLevel) && to <= maxLevel
    ensures HasLayer(es, r, to)
  {
    WellFormedIsClosed(es, M);
    WalkEnd(es, metric, q, maxLevel, to, entry)
  }

  /** The one situation an insertion cannot cope with: the entry point is live, but the walk to the layers of
      the new element ends where only tombstones can be reached. */
  ghost predicate Stuck(es: Elements, M: nat, metric: Metric, entry: int, maxLevel: int, q: Vector, level: nat)
    requires WellFormed(es, M) && EntryOk(es, entry, maxLevel)
  {
    && es != [] && !es[entry].deleted && level < maxLevel
    && forall x :: x in Reachable(es, level, Descent(es, M, metric, entry, maxLevel, q, level)) ==> es[x].deleted
  }

  lemma StuckNeedsTombstone(es: Elements, M: nat, metric: Metric, entry: int, maxLevel: int, q: Vector, level: nat)
    requires WellFormed(es, M) && EntryOk(es, entry, maxLevel) && Stuck(es, M, metric, entry, maxLevel, q, level)
    ensures Descent(es, M, metric, entry, maxLevel, q, level) in Tombstones(es)
    ensures Tombstones(es) != {}
  {
    var at := Descent(es, M, metric, entry, maxLevel, q, level);
    LiveReachesItself(es, level, at);
  }

  /** The appended element is not seen by the walk, nor from anywhere in the graph. */
  lemma AppendedIsNotSeen(es: Elements, M: nat, e: Element, metric: Metric, entry: Id, from: int, to: nat, q: Vector)
    requires WellFormed(es, M) && |e.links| > 0 && forall l :: 0 <= l < |e.links| ==> e.links[l] == []
    requires HasLayer(es, entry, from) && to <= from
    ensures Closed(es) && Closed(es + [e])
    ensures WalkEnd(es + [e], metric, q, from, to, entry) == WalkEnd(es, metric, q, from, to, entry)
    ensures var at := WalkEnd(es, metric, q, from, to, entry);
            ReachesLive(es + [e], to, at) <==> ReachesLive(es, to, at)
  {
    AppendKeepsWellFormed(es, M, e);
    WellFormedIsClosed(es, M);
    WellFormedIsClosed(es + [e], M);
    WalkEndOfPrefix(es, es + [e], metric, q, from, to, entry);
    SameReach(es, e, to, WalkEnd(es, metric, q, from, to, entry));
  }

  lemma SameReach(es: Elements, e: Element, l: nat, at: Id)
    requires at < |es| && Closed(es) && forall m, v :: !Linked(es + [e], m, v, |es|)
    requires forall m :: 0 <= m < |e.links| ==> e.links[m] == []
    ensures ReachesLive(es + [e], l, at) <==> ReachesLive(es, l, at)
  {
    var fs := es + [e];
    forall v, x
      ensures Linked(fs, l, v, x) <==> Linked(es, l, v, x)
    {
    }
    forall p
      ensures IsPath(fs, l, p) <==> IsPath(es, l, p)
    {
    }
    forall x: Id
      ensures Reaches(fs, l, at, x) <==> Reaches(es, l, at, x)
    {
    }
    UnlinkedUnreachable(fs, l, at, |es|);
    if x :| x in Reachable(fs, l, at) && !fs[x].deleted {
      assert x in Reachable(es, l, at);
    }
    if x :| x in Reachable(es, l, at) && !es[x].deleted {
      assert x in Reachable(fs, l, at) && !fs[x].deleted;
    }
  }

  /** What a completed insertion has done, layer by layer. */
  ghost predicate Inserted(es: Elements, fs: Elements, p: Params, entry: int, maxLevel: int, a: Label, v: Vector,
                           level: nat, steps: seq<LayerTrace>)
    requires WellFormed(es, p.M) && EntryOk(es, entry, maxLevel)
  {
    var grown := es + [Blank(a, v, level)];
    if es == [] then fs == grown && steps == []
    else
      var top := if level < maxLevel then level else maxLevel;
      && |steps| == top + 1 && LayersDone(steps, p, entry, |es|, v, top)
      && Chain(steps, grown, Descent(es, p.M, p.metric, entry, maxLevel, v, top), fs, steps[top].next)
  }

  /** Appends a new element of the given level and connects it on the layers the graph already has. It fails,
      as the source does by reading past an empty list, exactly when the index is stuck for the new element. */
  method Insert(es: Elements, p: Params, entry: int, maxLevel: int, a: Label, v: Vector, level: nat, vl: VisitedList)
    returns (ok: bool, fs: Elements, ghost steps: seq<LayerTrace>)
    requires p.Valid() && WellFormed(es, p.M) && EntryOk(es, entry, maxLevel)
    requires vl.Valid() && |es| < vl.mass.Length
    modifies vl, vl.mass
    ensures vl.Valid()
    ensures WellFormed(fs, p.M) && SameData(es + [Blank(a, v, level)], fs)
    ensures ok <==> !Stuck(es, p.M, p.metric, entry, maxLevel, v, level)
    ensures ok ==> Inserted(es, fs, p, entry, maxLevel, a, v, level, steps)
    ensures ok && es != [] ==> forall m :: 0 <= m <= level && m <= maxLevel ==> fs[|es|].links[m] != []
  {
    hide LayersDone, Chain, ReachesLive, WellFormed, Closed;
    var cur := |es|;
    AppendKeepsWellFormed(es, p.M, Blank(a, v, level));
    fs, steps, ok := es + [Blank(a, v, level)], [], true;
    if entry != -1 {
      var top := if level < maxLevel then level else maxLevel;
      assert top <= maxLevel; // and no layer above it is connected, so "Level error" cannot occur
      var at := WalkToInsertion(es, p, entry, maxLevel, top, a, v, level);
      StuckMeansNoneLive(es, p, entry, maxLevel, v, level);
      AppendIsBlank(es, Blank(a, v, level), top);
      ok, fs, steps := ConnectLayers(fs, p, entry, cur, v, top, at, vl);
    }
  }

  lemma AppendIsBlank(es: Elements, e: Element, top: nat)
    requires forall l, v :: !Linked(es + [e], l, v, |es|)
    requires forall l :: 0 <= l < |e.links| ==> e.links[l] == []
    ensures Unlinked(es + [e], |es|, top)
  {
  }

  /** On the top layer the search of an insertion starts at the entry point itself. */
  lemma StuckMeansNoneLive(es: Elements, p: Params, entry: int, maxLevel: int, v: Vector, level: nat)
    requires WellFormed(es, p.M) && EntryOk(es, entry, maxLevel) && es != []
    ensures var top := if level < maxLevel then level else maxLevel;
            Stuck(es, p.M, p.metric, entry, maxLevel, v, level) <==>
              !es[entry].deleted && !ReachesLive(es, top, Descent(es, p.M, p.metric, entry, maxLevel, v, top))
  {
    if level >= maxLevel {
      LiveReachesItself(es, maxLevel, entry);
    }
  }

  /** The walk through the layers above the new element, on the graph that already holds it. */
  method WalkToInsertion(es: Elements, p: Params, entry: Id, maxLevel: nat, top: nat, a: Label, v: Vector, level: nat)
    returns (at: Id)
    requires WellFormed(es, p.M) && EntryOk(es, entry, maxLevel) && top <= maxLevel
    ensures at == Descent(es, p.M, p.metric, entry, maxLevel, v, top)
    ensures ReachesLive(es + [Blank(a, v, level)], top, at) <==> ReachesLive(es, top, at)
  {
    hide ReachesLive, WellFormed;
    AppendedIsNotSeen(es, p.M, Blank(a, v, level), p.metric, entry, maxLevel, top, v);
    at := WalkDown(es + [Blank(a, v, level)], p.metric, v, maxLevel, top, entry);
  }
}
