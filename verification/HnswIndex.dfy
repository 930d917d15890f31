/** The index object: `HierarchicalNSW`, without locks and without replacement of deleted elements. */
module HnswIndex {
  import opened Space
  import opened Candidates
  import opened Graph
  import opened VisitedLists
  import opened BeamSearch
  import opened GreedyWalk
  import opened Insertion
  import opened Updating
  import opened Knn

  /** `label_lookup_` is the inverse of the label stored in each slot. */
  ghost predicate LookupOk(es: Elements, lookup: map<Label, Id>) {
    && (forall a :: a in lookup ==> lookup[a] < |es| && es[lookup[a]].externalLabel == a)
    && (forall i :: 0 <= i < |es| ==> es[i].externalLabel in lookup && lookup[es[i].externalLabel] == i)
  }

  /** What the index holds, as its users see it: the vector of each label that is not deleted. */
  ghost function Live(es: Elements, lookup: map<Label, Id>): map<Label, Vector>
    requires LookupOk(es, lookup)
  {
    map a | a in lookup && !es[lookup[a]].deleted :: es[lookup[a]].vector
  }

  function SetDeleted(es: Elements, x: Id, deleted: bool): (fs: Elements)
    requires x < |es|
  {
    es[x := es[x].(deleted := deleted)]
  }

  lemma SetDeletedKeepsWellFormed(es: Elements, M: nat, x: Id, deleted: bool)
    requires WellFormed(es, M) && x < |es|
    ensures WellFormed(SetDeleted(es, x, deleted), M)
  {
    var fs := SetDeleted(es, x, deleted);
    forall j, m | HasLayer(fs, j, m)
      ensures GoodList(fs, M, j, m, fs[j].links[m])
    {
      assert HasLayer(es, j, m);
      assert forall y :: HasLayer(es, y, m) ==> HasLayer(fs, y, m);
    }
  }

  /** Everything the index object promises about its fields. */
  ghost predicate StateOk(es: Elements, lookup: map<Label, Id>, numDeleted: nat, entry: int, maxLevel: int, M: nat) {
    && WellFormed(es, M)
    && LookupOk(es, lookup)
    && EntryOk(es, entry, maxLevel)
    && numDeleted == |Tombstones(es)|
  }

  // ---------- What the operations do to the state, on values ----------

  lemma MarkEffect(es: Elements, lookup: map<Label, Id>, numDeleted: nat, entry: int, maxLevel: int, M: nat, a: Label)
    requires StateOk(es, lookup, numDeleted, entry, maxLevel, M)
    requires a in lookup && !es[lookup[a]].deleted
    ensures StateOk(SetDeleted(es, lookup[a], true), lookup, numDeleted + 1, entry, maxLevel, M)
    ensures Live(SetDeleted(es, lookup[a], true), lookup) == Live(es, lookup) - {a}
  {
    SetDeletedKeepsWellFormed(es, M, lookup[a], true);
    assert Tombstones(SetDeleted(es, lookup[a], true)) == Tombstones(es) + {lookup[a]};
  }

  lemma UnmarkEffect(es: Elements, lookup: map<Label, Id>, numDeleted: nat, entry: int, maxLevel: int, M: nat, a: Label)
    requires StateOk(es, lookup, numDeleted, entry, maxLevel, M)
    requires a in lookup && es[lookup[a]].deleted
    ensures numDeleted > 0
    ensures StateOk(SetDeleted(es, lookup[a], false), lookup, numDeleted - 1, entry, maxLevel, M)
    ensures Live(SetDeleted(es, lookup[a], false), lookup) == Live(es, lookup)[a := es[lookup[a]].vector]
  {
    SetDeletedKeepsWellFormed(es, M, lookup[a], false);
    assert lookup[a] in Tombstones(es);
    assert Tombstones(SetDeleted(es, lookup[a], false)) == Tombstones(es) - {lookup[a]};
  }

  lemma MoveEffect(es: Elements, fs: Elements, lookup: map<Label, Id>, numDeleted: nat, entry: int, maxLevel: int,
                   M: nat,
                   a: Label, v: Vector)
    requires StateOk(es, lookup, numDeleted, entry, maxLevel, M)
    requires a in lookup && !es[lookup[a]].deleted
    requires WellFormed(fs, M) && SameData(Move(es, lookup[a], v), fs)
    ensures StateOk(fs, lookup, numDeleted, entry, maxLevel, M)
    ensures Live(fs, lookup) == Live(es, lookup)[a := v] && |fs| == |es|
  {
    assert Tombstones(fs) == Tombstones(es);
  }

  lemma EntryIsThere(es: Elements, lookup: map<Label, Id>, numDeleted: nat, entry: int, maxLevel: int, M: nat, x: Id)
    requires StateOk(es, lookup, numDeleted, entry, maxLevel, M) && x < |es|
    ensures entry >= 0 && maxLevel >= 0 && HasLayer(es, entry, maxLevel) && |es[x].links| <= maxLevel + 1
  {
  }

  lemma AppendEffect(es: Elements, fs: Elements, lookup: map<Label, Id>, numDeleted: nat, entry: int, maxLevel: int,
                     M: nat,
                     a: Label, v: Vector, level: nat)
    requires StateOk(es, lookup, numDeleted, entry, maxLevel, M) && a !in lookup
    requires WellFormed(fs, M) && SameData(es + [Blank(a, v, level)], fs)
    ensures LookupOk(fs, lookup[a := |es|])
    ensures StateOk(fs, lookup[a := |es|], numDeleted, if level > maxLevel then |es| else entry,
                    if level > maxLevel then level else maxLevel, M)
    ensures Live(fs, lookup[a := |es|]) == Live(es, lookup)[a := v]
  {
    assert Tombstones(fs) == Tombstones(es);
    assert forall i :: 0 <= i < |es| ==> es[i].externalLabel != a;
    assert fs[|es|].externalLabel == a;
  }

  // ---------- Hits by label ----------

  /** All that a plain scan of the contents would see. */
  ghost function AllHits(contents: map<Label, Vector>, metric: Metric, q: Vector): set<Cand> {
    set a | a in contents :: Cand(metric(q, contents[a]), a)
  }

  ghost function Labelled(es: Elements, r: set<Cand>): set<Cand>
    requires forall c :: c in r ==> c.id < |es|
  {
    set c | c in r :: Cand(c.dist, es[c.id].externalLabel)
  }

  ghost function LiveIds(es: Elements): set<Id> {
    set i | 0 <= i < |es| && !es[i].deleted
  }

  lemma {:induction false} LabelledCard(es: Elements, lookup: map<Label, Id>, r: set<Cand>)
    requires LookupOk(es, lookup) && forall c :: c in r ==> c.id < |es|
    ensures |Labelled(es, r)| == |r|
  {
    if r != {} {
      var c :| c in r;
      LabelledCard(es, lookup, r - {c});
      assert Labelled(es, r) == Labelled(es, r - {c}) + {Cand(c.dist, es[c.id].externalLabel)};
      assert forall d :: d in r && d != c && d.dist == c.dist ==> es[d.id].externalLabel != es[c.id].externalLabel;
    }
  }

  lemma LabelledAll(es: Elements, lookup: map<Label, Id>, metric: Metric, q: Vector)
    requires LookupOk(es, lookup)
    ensures Labelled(es, CandsOf(es, metric, q, LiveIds(es))) == AllHits(Live(es, lookup), metric, q)
  {
    var hits, all := Labelled(es, CandsOf(es, metric, q, LiveIds(es))), AllHits(Live(es, lookup), metric, q);
    forall h | h in hits
      ensures h in all
    {
      var i :| i in LiveIds(es) && h == Cand(metric(q, es[i].vector), es[i].externalLabel);
      assert es[i].externalLabel in Live(es, lookup);
    }
    forall h | h in all
      ensures h in hits
    {
      var i := lookup[h.id];
      assert Cand(metric(q, es[i].vector), i) in CandsOf(es, metric, q, LiveIds(es));
    }
  }

  /** Renaming ids to labels keeps what was said about a k-nearest set. */
  lemma LabelledKNearest(es: Elements, lookup: map<Label, Id>, all: set<Cand>, k: nat, r: set<Cand>)
    requires LookupOk(es, lookup) && KNearest(all, k, r) && forall c :: c in all ==> c.id < |es|
    ensures KNearest(Labelled(es, all), k, Labelled(es, r))
  {
    LabelledCard(es, lookup, all);
    LabelledCard(es, lookup, r);
    forall a, b | a in Labelled(es, r) && b in Labelled(es, all) - Labelled(es, r)
      ensures a.dist <= b.dist
    {
      var c :| c in r && a == Cand(c.dist, es[c.id].externalLabel);
      var d :| d in all && b == Cand(d.dist, es[d.id].externalLabel);
      assert d in all - r;
    }
  }

  /** There are as many live labels as elements without a mark. */
  lemma LiveCount(es: Elements, lookup: map<Label, Id>)
    requires LookupOk(es, lookup)
    ensures |Live(es, lookup)| == |es| - |Tombstones(es)|
  {
    Partition(es, |es|);
    assert es[..|es|] == es;
    KeysCard(es, lookup, LiveIds(es));
    assert Live(es, lookup).Keys == set i | i in LiveIds(es) :: es[i].externalLabel;
  }

  lemma {:induction false} KeysCard(es: Elements, lookup: map<Label, Id>, ids: set<Id>)
    requires LookupOk(es, lookup) && forall i :: i in ids ==> i < |es|
    ensures |set i | i in ids :: es[i].externalLabel| == |ids|
  {
    if ids != {} {
      var i :| i in ids;
      KeysCard(es, lookup, ids - {i});
      assert (set j | j in ids :: es[j].externalLabel)
          == (set j | j in ids - {i} :: es[j].externalLabel) + {es[i].externalLabel};
    }
  }

  lemma {:induction false} Partition(es: Elements, n: nat)
    requires n <= |es|
    ensures |LiveIds(es[..n])| + |Tombstones(es[..n])| == n
  {
    if n > 0 {
      Partition(es, n - 1);
      assert forall i :: 0 <= i < n - 1 ==> es[..n][i] == es[..n - 1][i];
      if es[n - 1].deleted {
        assert Tombstones(es[..n]) == Tombstones(es[..n - 1]) + {n - 1};
        assert LiveIds(es[..n]) == LiveIds(es[..n - 1]);
      } else {
        assert LiveIds(es[..n]) == LiveIds(es[..n - 1]) + {n - 1};
        assert Tombstones(es[..n]) == Tombstones(es[..n - 1]);
      }
    } else {
      assert LiveIds(es[..n]) == {} && Tombstones(es[..n]) == {};
    }
  }

  // ---------- The object ----------

  datatype AddResult =
    | Added(id: Id)
    | Updated(id: Id)
    | Full        // "The number of elements exceeds the specified limit"
    | Undefined   // the last of an empty list of neighbours was taken

  datatype MarkResult = Done | NotFound | Already

  class HierarchicalNSW {
    const metric: Metric
    const M: nat
    const maxElements: nat
    const efConstruction: nat
    const visited: VisitedList
    var ef: nat
    var elements: Elements
    var labelLookup: map<Label, Id>
    var numDeleted: nat
    var entryPoint: int
    var maxLevel: int

    ghost predicate Valid()
      reads this, visited, visited.mass
    {
      && M > 0 && efConstruction >= M && ef > 0
      && |elements| <= maxElements == visited.mass.Length
      && visited.Valid()
      && StateOk(elements, labelLookup, numDeleted, entryPoint, maxLevel, M)
    }

    ghost function Contents(): map<Label, Vector>
      reads this, visited, visited.mass
      requires Valid()
    {
      Live(elements, labelLookup)
    }

    function Settings(): Params {
      Params(metric, M, efConstruction)
    }

    constructor (metric: Metric, maxElements: nat, M: nat, efConstruction: nat)
      requires M > 0
      ensures Valid() && fresh(visited) && fresh(visited.mass)
      ensures elements == [] && Contents() == map[] && ef == 10
      ensures this.maxElements == maxElements && this.M == M && this.metric == metric
      ensures this.efConstruction == if efConstruction > M then efConstruction else M
    {
      this.metric := metric;
      this.M := M;
      this.maxElements := maxElements;
      this.efConstruction := if efConstruction > M then efConstruction else M;
      ef := 10;
      elements, labelLookup, numDeleted := [], map[], 0;
      entryPoint, maxLevel := -1, -1;
      visited := new VisitedList(maxElements);
    }

    method MarkDelete(a: Label) returns (r: MarkResult)
      requires Valid()
      modifies this`elements, this`numDeleted
      ensures Valid()
      ensures r == (if a in old(Contents()) then Done else if a in labelLookup then Already else NotFound)
      ensures Contents() == old(Contents()) - {a}
      ensures elements == if r == Done then SetDeleted(old(elements), labelLookup[a], true) else old(elements)
    {
      if a !in labelLookup {
        return NotFound;
      }
      var x := labelLookup[a];
      if elements[x].deleted {
        return Already;
      }
      MarkEffect(elements, labelLookup, numDeleted, entryPoint, maxLevel, M, a);
      elements := SetDeleted(elements, x, true);
      numDeleted := numDeleted + 1;
      r := Done;
    }

    method UnmarkDelete(a: Label) returns (r: MarkResult)
      requires Valid()
      modifies this`elements, this`numDeleted
      ensures Valid()
      ensures r == (if a !in labelLookup then NotFound else if a in old(Contents()) then Already else Done)
      ensures r == Done ==> Contents() == old(Contents())[a := old(elements)[labelLookup[a]].vector]
      ensures r == Done ==> elements == SetDeleted(old(elements), labelLookup[a], false)
      ensures numDeleted == if r == Done then old(numDeleted) - 1 else old(numDeleted)
      ensures r != Done ==> elements == old(elements)
    {
      if a !in labelLookup {
        return NotFound;
      }
      var x := labelLookup[a];
      if !elements[x].deleted {
        return Already;
      }
      UnmarkEffect(elements, labelLookup, numDeleted, entryPoint, maxLevel, M, a);
      elements := SetDeleted(elements, x, false);
      numDeleted := numDeleted - 1;
      r := Done;
    }

    method GetDataByLabel(a: Label) returns (r: Option<Vector>)
      requires Valid()
      ensures r == if a in Contents() then Some(Contents()[a]) else None
    {
      if a !in labelLookup || elements[labelLookup[a]].deleted {
        return None;
      }
      return Some(elements[labelLookup[a]].vector);
    }

    /** The one situation in which a new element cannot be connected, see `Insertion.Stuck`. */
    ghost predicate StuckFor(v: Vector, level: nat)
      reads this, visited, visited.mass
      requires Valid()
    {
      Stuck(elements, M, metric, entryPoint, maxLevel, v, level)
    }

    method AddPoint(v: Vector, a: Label, level: nat)
      returns (r: AddResult, ghost gs: seq<Elements>, ghost steps: seq<LayerTrace>)
      requires Valid()
      modifies this`elements, this`labelLookup, this`numDeleted, this`entryPoint, this`maxLevel, visited, visited.mass
      ensures r.Undefined? <==>
        a !in old(labelLookup) && |old(elements)| < maxElements && old(StuckFor(v, level))
      ensures r.Full? <==> a !in old(labelLookup) && |old(elements)| == maxElements
      ensures r.Updated? <==> a in old(labelLookup)
      ensures !r.Undefined? ==> Valid()
      ensures r.Added? || r.Updated? ==> Contents() == old(Contents())[a := v]
      ensures r.Added? ==> AddedTo(old(elements), old(entryPoint), old(maxLevel), a, v, level, steps)
      ensures r.Updated? ==> UpdatedIn(old(elements), a, v, gs, steps)
      ensures r.Updated? ==> labelLookup == old(labelLookup)
      ensures r.Updated? ==> entryPoint == old(entryPoint) && maxLevel == old(maxLevel)
      ensures numDeleted <= old(numDeleted)
      ensures r.Full? ==> elements == old(elements) && labelLookup == old(labelLookup) && numDeleted == old(numDeleted)
      ensures r.Full? ==> Contents() == old(Contents())
      ensures r.Undefined? ==> old(numDeleted) > 0
    {
      gs, steps := [], [];
      if a in labelLookup {
        r, gs, steps := UpdateExisting(v, a);
      } else if |elements| >= maxElements {
        r := Full;
      } else {
        r, steps := InsertPoint(v, a, level);
      }
    }

    /** `es` with its entry point has become this index by the insertion of a new element. */
    ghost predicate AddedTo(es: Elements, entry: int, top: int, a: Label, v: Vector, level: nat, steps: seq<LayerTrace>)
      reads this
    {
      && WellFormed(es, M) && EntryOk(es, entry, top) && |elements| == |es| + 1
      && Inserted(es, elements, Params(metric, M, efConstruction), entry, top, a, v, level, steps)
      && entryPoint == (if level > top then |es| else entry) && maxLevel == (if level > top then level else top)
    }

    /** `es` has become this index by the update of the element with that label; it keeps its slot. */
    ghost predicate UpdatedIn(es: Elements, a: Label, v: Vector, gs: seq<Elements>, steps: seq<LayerTrace>)
      reads this
    {
      && a in labelLookup && labelLookup[a] < |es| == |elements|
      && var x := labelLookup[a];
         Moved(SetDeleted(es, x, false), elements, Params(metric, M, efConstruction), entryPoint, maxLevel, x, v, gs,
               steps)
    }

    /** A label that is there already, tombstoned or not, keeps its slot. */
    method UpdateExisting(v: Vector, a: Label)
      returns (r: AddResult, ghost gs: seq<Elements>, ghost steps: seq<LayerTrace>)
      requires Valid() && a in labelLookup
      modifies this`elements, this`numDeleted, visited, visited.mass
      ensures Valid() && |elements| == |old(elements)| && numDeleted <= old(numDeleted)
      ensures r == Updated(labelLookup[a])
      ensures Contents() == old(Contents())[a := v]
      ensures UpdatedIn(old(elements), a, v, gs, steps)
    {
      hide WellFormed, EntryOk, HasLayer, Tombstones, SameData, Moved, Live, SetDeleted;
      var x := labelLookup[a];
      r := Updated(x);
      Revive(a);
      ghost var es := elements;
      EntryIsThere(elements, labelLookup, numDeleted, entryPoint, maxLevel, M, x);
      elements, gs, steps := UpdatePoint(elements, Settings(), entryPoint, maxLevel, x, v, visited);
      MoveEffect(es, elements, labelLookup, numDeleted, entryPoint, maxLevel, M, a, v);
    }

    /** What an update does first: it clears the tombstone, if there is one. */
    method Revive(a: Label)
      requires Valid() && a in labelLookup
      modifies this`elements, this`numDeleted
      ensures Valid() && numDeleted <= old(numDeleted)
      ensures labelLookup[a] < |old(elements)| && elements == SetDeleted(old(elements), labelLookup[a], false)
      ensures |elements| == |old(elements)| && !elements[labelLookup[a]].deleted
      ensures Contents() == old(Contents())[a := elements[labelLookup[a]].vector]
    {
      var x := labelLookup[a];
      if elements[x].deleted {
        var _ := UnmarkDelete(a);
      } else {
        assert SetDeleted(elements, x, false) == elements;
      }
    }

    method InsertPoint(v: Vector, a: Label, level: nat) returns (r: AddResult, ghost steps: seq<LayerTrace>)
      requires Valid() && a !in labelLookup && |elements| < maxElements
      modifies this`elements, this`labelLookup, this`entryPoint, this`maxLevel, visited, visited.mass
      ensures if old(StuckFor(v, level)) then r.Undefined? else r == Added(|old(elements)|)
      ensures r.Added? ==> Valid() && Contents() == old(Contents())[a := v]
      ensures r.Added? ==> AddedTo(old(elements), old(entryPoint), old(maxLevel), a, v, level, steps)
      ensures r.Undefined? ==> old(numDeleted) > 0
    {
      hide Inserted;
      ghost var es := elements;
      var cur := |elements|;
      var ok;
      ok, elements, steps := Insert(elements, Settings(), entryPoint, maxLevel, a, v, level, visited);
      labelLookup := labelLookup[a := cur];
      if !ok {
        StuckNeedsTombstone(es, M, metric, entryPoint, maxLevel, v, level);
        return Undefined, steps;
      }
      AppendEffect(es, elements, old(labelLookup), numDeleted, entryPoint, maxLevel, M, a, v, level);
      if level > maxLevel {
        entryPoint, maxLevel := cur, level;
      }
      r := Added(cur);
    }

    /** The search of layer 0 starts where the walk down the layers ends. */
    ghost predicate StartsSearchAt(q: Vector, start: Id)
      reads this, visited, visited.mass
      requires Valid()
    {
      StartsAt(elements, M, metric, entryPoint, maxLevel, q, start)
    }

    /** The queue that `searchKnn` returns: the hits `r` of the graph search under their labels. */
    method SearchKnn(q: Vector, k: nat, filter: Option<Label -> bool>)
      returns (hits: set<Cand>, ghost start: Id, ghost r: set<Cand>)
      requires Valid()
      modifies visited, visited.mass
      ensures Valid()
      ensures elements == [] ==> hits == {}
      ensures elements != [] ==> StartsSearchAt(q, start)
      ensures elements != [] ==>
        start < |elements| && GraphKnn(elements, metric, q, ef, k, filter, start, r)
        && (forall c :: c in r ==> c.id < |elements|) && hits == Labelled(elements, r)
    {
      hide StartsAt;
      var found;
      found, start := Knn.SearchKnn(elements, metric, M, entryPoint, maxLevel, numDeleted, ef, q, k, filter, visited);
      r := found;
      StartsInside(elements, M, metric, entryPoint, maxLevel, q, start);
      assert forall c :: c in found ==> c.id < |elements|;
      hits := set c | c in found :: Cand(c.dist, elements[c.id].externalLabel);
    }
  }

  lemma StartsInside(es: Elements, M: nat, metric: Metric, entry: int, maxLevel: int, q: Vector, start: Id)
    requires WellFormed(es, M) && EntryOk(es, entry, maxLevel)
    ensures StartsAt(es, M, metric, entry, maxLevel, q, start) ==> start < |es|
  {
  }

  /** What the hits mean for someone who only knows the contents: they are entries of the contents at their
      true distance, as many as there are to reach up to k; and when the start of the search reaches every
      live element and the beam is as wide as the contents, they are a k-nearest set of the whole contents. */
  lemma HitsOfContents(es: Elements, lookup: map<Label, Id>, metric: Metric, q: Vector, ef: nat, k: nat,
                       start: Id, r: set<Cand>)
    requires LookupOk(es, lookup) && start < |es|
    requires GraphKnn(es, metric, q, ef, k, None, start, r) && forall c :: c in r ==> c.id < |es|
    ensures Labelled(es, r) <= AllHits(Live(es, lookup), metric, q)
    ensures |Labelled(es, r)| == if |LiveFrom(es, None, start)| < k then |LiveFrom(es, None, start)| else k
    ensures LiveFrom(es, None, start) == LiveIds(es) && |Live(es, lookup)| <= (if ef < k then k else ef) ==>
              KNearest(AllHits(Live(es, lookup), metric, q), k, Labelled(es, r))
  {
    var live := LiveFrom(es, None, start);
    var all := CandsOf(es, metric, q, live);
    LabelledAll(es, lookup, metric, q);
    LabelledCard(es, lookup, r);
    CandsOfCard(es, metric, q, live);
    assert Labelled(es, r) <= Labelled(es, CandsOf(es, metric, q, LiveIds(es))) by {
      assert forall c :: c in all ==> c in CandsOf(es, metric, q, LiveIds(es));
    }
    if live == LiveIds(es) && |Live(es, lookup)| <= (if ef < k then k else ef) {
      LiveCount(es, lookup);
      Partition(es, |es|);
      assert es[..|es|] == es;
      LabelledKNearest(es, lookup, all, k, r);
    }
  }
}
