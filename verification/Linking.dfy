/** How one neighbour list is rewritten when an element is connected or moved. */
module Linking {
  import opened Space
  import opened Candidates
  import opened Graph
  import opened Neighbours

  function IdsOf(order: seq<Cand>): (ids: seq<Id>)
    ensures |ids| == |order| && forall i :: 0 <= i < |ids| ==> ids[i] == order[i].id
  {
    seq(|order|, i requires 0 <= i < |order| => order[i].id)
  }

  /** `list` is what a queue holding `s` gives when it is emptied from the top. */
  ghost predicate ListOf(list: seq<Id>, s: set<Cand>) {
    exists order :: FarthestFirst(order, s) && |order| == |s| && list == IdsOf(order)
  }

  lemma DrainedIds(order: seq<Cand>, s: set<Cand>)
    requires FarthestFirst(order, s) && DistinctIds(s)
    ensures NoDup(IdsOf(order))
    ensures forall x :: x in IdsOf(order) <==> x in Ids(s)
  {
    var ids := IdsOf(order);
    forall j, k | 0 <= j < k < |ids|
      ensures ids[j] != ids[k]
    {
      assert order[j] != order[k] && order[j] in s && order[k] in s;
    }
    forall x | x in ids
      ensures x in Ids(s)
    {
      var i :| 0 <= i < |ids| && ids[i] == x;
      assert order[i] in s;
    }
    forall x | x in Ids(s)
      ensures x in ids
    {
      var c :| c in s && c.id == x;
      var i :| 0 <= i < |order| && order[i] == c;
      assert ids[i] == x;
    }
  }

  method Drain(s: set<Cand>) returns (list: seq<Id>)
    requires DistinctIds(s)
    ensures ListOf(list, s) && |list| == |s| && NoDup(list)
    ensures forall x :: x in list <==> x in Ids(s)
    ensures s != {} ==> exists n :: IsNearest(n, s) && list[|list| - 1] == n.id
  {
    var order := DrainFarthestFirst(s);
    list := IdsOf(order);
    DrainedIds(order, s);
    if s != {} {
      LastIsNearest(order, s);
    }
  }

  lemma LastIsNearest(order: seq<Cand>, s: set<Cand>)
    requires FarthestFirst(order, s) && |order| > 0
    ensures IsNearest(order[|order| - 1], s)
  {
    var n := order[|order| - 1];
    assert n in s;
    forall d | d in s
      ensures n.dist <= d.dist
    {
      assert d in order;
      var i :| 0 <= i < |order| && order[i] == d;
    }
  }

  /** The distance from `x` to `to` as `to` sees it, `x` first. */
  function CandTo(es: Elements, metric: Metric, x: Id, to: Id): Cand
    requires x < |es| && to < |es|
  {
    Cand(metric(es[x].vector, es[to].vector), x)
  }

  /** The new element `cur` and the present neighbours of `n`, measured to `n`. */
  ghost function BackCands(es: Elements, metric: Metric, cur: Id, n: Id, list: seq<Id>): set<Cand>
    requires cur < |es| && n < |es| && forall x :: x in list ==> x < |es|
  {
    {CandTo(es, metric, cur, n)} + set x | x in list :: CandTo(es, metric, x, n)
  }

  /** What `n`, a chosen neighbour of `cur`, does with its own list: nothing if `cur` is there already (asked
      only in an update), append `cur` while there is room, otherwise select anew among the old list and `cur`. */
  ghost predicate BackLinked(es: Elements, metric: Metric, M: nat, cur: Id, n: Id, l: nat, isUpdate: bool,
                             list: seq<Id>)
    requires HasLayer(es, n, l) && cur < |es| && forall x :: x in es[n].links[l] ==> x < |es|
  {
    var was := es[n].links[l];
    if isUpdate && cur in was then list == was
    else if |was| < Cap(M, l) then list == was + [cur]
    else exists kept ::
        && InRange(es, BackCands(es, metric, cur, n, was))
        && Selection(es, metric, BackCands(es, metric, cur, n, was), Cap(M, l), kept)
        && ListOf(list, kept)
  }

  /** Both notions look at vectors and at `n`'s own list only. */
  lemma BackLinkedIgnoresOthers(es: Elements, fs: Elements, metric: Metric, M: nat, cur: Id, n: Id, l: nat,
                                isUpdate: bool, list: seq<Id>)
    requires SameData(es, fs) && HasLayer(es, n, l) && cur < |es| && fs[n] == es[n]
    requires forall x :: x in es[n].links[l] ==> x < |es|
    requires BackLinked(fs, metric, M, cur, n, l, isUpdate, list)
    ensures BackLinked(es, metric, M, cur, n, l, isUpdate, list)
  {
    hide Selection, InRange, ListOf;
    var was := es[n].links[l];
    if !(isUpdate && cur in was) && |was| >= Cap(M, l) {
      var cands := BackCands(fs, metric, cur, n, was);
      var kept :| InRange(fs, cands) && Selection(fs, metric, cands, Cap(M, l), kept) && ListOf(list, kept);
      assert cands == BackCands(es, metric, cur, n, was);
      SelectionIgnoresLinks(es, fs, metric, cands, Cap(M, l), kept);
    }
  }

  lemma SelectionIgnoresLinks(es: Elements, fs: Elements, metric: Metric, cands: set<Cand>, M: nat, kept: set<Cand>)
    requires SameData(es, fs) && InRange(fs, cands) && Selection(fs, metric, cands, M, kept)
    ensures InRange(es, cands) && Selection(es, metric, cands, M, kept)
  {
    assert forall a, b :: a in cands && b in cands ==> (Blocks(es, metric, a, b) <==> Blocks(fs, metric, a, b));
    if |cands| >= M {
      forall d | d in cands - kept
        ensures
          || (exists a :: a in kept && Blocks(es, metric, a, d))
          || (|kept| == M && forall a :: a in kept ==> Before(a, d))
      {
      }
    }
  }

  lemma SelectionIsSmall(es: Elements, metric: Metric, cands: set<Cand>, M: nat, kept: set<Cand>)
    requires InRange(es, cands) && Selection(es, metric, cands, M, kept)
    ensures kept <= cands && |kept| <= M
    ensures cands != {} && M > 0 ==> kept != {}
  {
    if cands != {} && M > 0 {
      SelectionHoldsNearest(es, metric, cands, M, kept);
    }
  }

  method CollectBackCands(es: Elements, metric: Metric, cur: Id, n: Id, list: seq<Id>) returns (cands: set<Cand>)
    requires cur < |es| && n < |es| && forall x :: x in list ==> x < |es|
    ensures cands == BackCands(es, metric, cur, n, list)
  {
    cands := {CandTo(es, metric, cur, n)};
    for j := 0 to |list|
      invariant forall x :: x in list[..j] ==> x in list
      invariant cands == BackCands(es, metric, cur, n, list[..j])
    {
      assert list[j] in list;
      cands := cands + {CandTo(es, metric, list[j], n)};
      assert list[..j + 1] == list[..j] + [list[j]];
    }
    assert list[..|list|] == list;
  }

  lemma BackCandsFacts(es: Elements, metric: Metric, cur: Id, n: Id, list: seq<Id>)
    requires cur < |es| && n < |es| && forall x :: x in list ==> x < |es|
    ensures InRange(es, BackCands(es, metric, cur, n, list))
    ensures DistinctIds(BackCands(es, metric, cur, n, list))
    ensures BackCands(es, metric, cur, n, list) != {}
    ensures forall x :: x in Ids(BackCands(es, metric, cur, n, list)) ==> x == cur || x in list
  {
    assert CandTo(es, metric, cur, n) in BackCands(es, metric, cur, n, list);
  }

  /** A list drawn from a selection among good neighbours is a good list. */
  method SelectList(es: Elements, metric: Metric, M: nat, cands: set<Cand>, n: Id, l: nat)
    returns (list: seq<Id>, ghost kept: set<Cand>)
    requires InRange(es, cands) && DistinctIds(cands)
    requires forall x :: x in Ids(cands) ==> x != n && HasLayer(es, x, l)
    ensures Selection(es, metric, cands, Cap(M, l), kept) && ListOf(list, kept)
    ensures GoodList(es, M, n, l, list)
  {
    var selected := GetNeighborsByHeuristic2(es, metric, cands, Cap(M, l));
    kept := selected;
    assert kept <= cands && |kept| <= Cap(M, l);
    list := Drain(selected);
    forall k | 0 <= k < |list|
      ensures list[k] != n && HasLayer(es, list[k], l)
    {
      assert list[k] in list;
      assert list[k] in Ids(cands);
    }
  }

  method ConnectBack(es: Elements, metric: Metric, M: nat, cur: Id, n: Id, l: nat, isUpdate: bool)
    returns (list: seq<Id>)
    requires WellFormed(es, M) && HasLayer(es, n, l) && HasLayer(es, cur, l) && cur != n
    requires !isUpdate ==> !Linked(es, l, n, cur)
    ensures GoodList(es, M, n, l, list)
    ensures BackLinked(es, metric, M, cur, n, l, isUpdate, list)
  {
    var was := es[n].links[l];
    assert GoodList(es, M, n, l, was);
    assert |was| <= Cap(M, l); // "Bad value of sz_link_list_other" cannot occur
    if isUpdate && cur in was {
      list := was;
    } else if |was| < Cap(M, l) {
      list := was + [cur];
    } else {
      var cands := CollectBackCands(es, metric, cur, n, was);
      BackCandsFacts(es, metric, cur, n, was);
      ghost var kept;
      list, kept := SelectList(es, metric, M, cands, n, l);
    }
  }

  /** The `keep` nearest of `s`, measured from `from`. */
  ghost predicate NearestFrom(es: Elements, metric: Metric, from: Id, s: set<Id>, keep: nat, r: set<Cand>)
    requires from < |es| && forall x :: x in s ==> x < |es|
  {
    && |r| == (if |s| < keep then |s| else keep)
    && (|s| <= keep ==> forall x :: x in s ==> CandFrom(es, metric, from, x) in r)
    && (forall c :: c in r ==> c.id in s && c == CandFrom(es, metric, from, c.id))
    && (forall c, x :: c in r && x in s && CandFrom(es, metric, from, x) !in r ==>
          c.dist <= CandFrom(es, metric, from, x).dist)
  }

  function CandFrom(es: Elements, metric: Metric, from: Id, x: Id): Cand
    requires from < |es| && x < |es|
  {
    Cand(metric(es[from].vector, es[x].vector), x)
  }

  /** Visits `s` in any order with a queue of at most `keep` candidates. */
  method CollectNearest(es: Elements, metric: Metric, from: Id, s: set<Id>, keep: nat) returns (r: set<Cand>)
    requires from < |es| && keep > 0 && forall x :: x in s ==> x < |es|
    ensures NearestFrom(es, metric, from, s, keep, r)
  {
    var rest := s;
    r := {};
    while rest != {}
      invariant rest <= s && NearestFrom(es, metric, from, s - rest, keep, r)
      decreases rest
    {
      var x :| x in rest;
      r := OfferNearest(es, metric, from, s - rest, keep, r, x);
      assert s - (rest - {x}) == (s - rest) + {x};
      rest := rest - {x};
    }
    assert s - rest == s;
  }

  method OfferNearest(es: Elements, metric: Metric, from: Id, ghost s: set<Id>, keep: nat, r: set<Cand>, x: Id)
    returns (r': set<Cand>)
    requires from < |es| && keep > 0 && x < |es| && x !in s && forall y :: y in s ==> y < |es|
    requires NearestFrom(es, metric, from, s, keep, r)
    ensures NearestFrom(es, metric, from, s + {x}, keep, r')
  {
    var c := CandFrom(es, metric, from, x);
    assert c !in r && |s + {x}| == |s| + 1;
    if |r| < keep {
      r' := r + {c};
    } else {
      r' := r;
      var far := Farthest(r);
      if c.dist < far.dist {
        r' := r - {far} + {c};
      }
    }
  }

  /** The new list of `n`, a neighbour of an updated element, drawn from the pool `cands` around it. */
  ghost predicate Relinked(es: Elements, metric: Metric, M: nat, efConstruction: nat, cands: set<Id>, n: Id, l: nat,
                           list: seq<Id>)
    requires HasLayer(es, n, l) && forall x :: x in cands ==> x < |es|
  {
    exists near, kept ::
      && NearestFrom(es, metric, n, cands - {n}, efConstruction, near)
      && InRange(es, near) && Selection(es, metric, near, Cap(M, l), kept)
      && ListOf(list, kept)
  }

  method Relink(es: Elements, metric: Metric, M: nat, efConstruction: nat, cands: set<Id>, n: Id, l: nat)
    returns (list: seq<Id>)
    requires HasLayer(es, n, l) && M > 0 && efConstruction >= M
    requires n in cands && cands != {n} && forall x :: x in cands ==> x < |es| && HasLayer(es, x, l)
    ensures GoodList(es, M, n, l, list)
    ensures Relinked(es, metric, M, efConstruction, cands, n, l, list)
  {
    var others := cands - {n};
    assert forall x :: x in others ==> HasLayer(es, x, l);
    assert others == {} ==> cands == {n};
    // as in the source, the bound is the smaller of the construction width and the number of candidates
    var keep := if efConstruction < |others| then efConstruction else |others|;
    var near := CollectNearest(es, metric, n, others, keep);
    assert NearestFrom(es, metric, n, others, efConstruction, near);
    ghost var kept;
    list, kept := SelectList(es, metric, M, near, n, l);
  }

  // ---------- Connecting an element on one layer ----------

  /** `cur`'s list on layer `l` is a selection from `cands`, each selected element linked back in its own
      way, and no other list changed. */
  ghost predicate Connected(es: Elements, fs: Elements, metric: Metric, M: nat, cur: Id, cands: set<Cand>,
                            kept: set<Cand>, l: nat, isUpdate: bool)
    requires WellFormed(es, M) && HasLayer(es, cur, l)
    requires forall c :: c in cands ==> c.id < |es| && HasLayer(es, c.id, l)
  {
    && SameData(es, fs)
    && Selection(es, metric, cands, M, kept)
    && ListOf(fs[cur].links[l], kept)
    && SameOffLayer(es, fs, l)
    && (forall i :: 0 <= i < |es| && i != cur && i !in Ids(kept) ==> fs[i] == es[i])
    && (forall c :: c in kept && c in cands ==>
          && HasLayer(es, c.id, l) && HasLayer(fs, c.id, l)
          && BackLinked(es, metric, M, cur, c.id, l, isUpdate, fs[c.id].links[l]))
  }

  /** `cur` has its list, and the first `i` of its neighbours are linked back. */
  ghost predicate HalfConnected(es: Elements, fs: Elements, metric: Metric, M: nat, cur: Id, neighbours: seq<Id>,
                                l: nat, isUpdate: bool, i: nat)
    requires WellFormed(es, M) && HasLayer(es, cur, l)
    requires forall k :: 0 <= k < |neighbours| ==> neighbours[k] < |es| && HasLayer(es, neighbours[k], l)
  {
    && SameData(es, fs) && SameOffLayer(es, fs, l)
    && fs[cur].links[l] == neighbours
    && (forall j :: 0 <= j < |es| && j != cur && j !in neighbours ==> fs[j] == es[j])
    && (forall k :: i <= k < |neighbours| ==> fs[neighbours[k]] == es[neighbours[k]])
    && (forall k :: 0 <= k < i && k < |neighbours| ==>
          BackLinked(es, metric, M, cur, neighbours[k], l, isUpdate, fs[neighbours[k]].links[l]))
  }

  method ChooseNeighbours(es: Elements, metric: Metric, M: nat, cur: Id, cands: set<Cand>, l: nat)
    returns (next: Id, neighbours: seq<Id>, ghost kept: set<Cand>)
    requires M > 0 && cands != {} && DistinctIds(cands)
    requires forall c :: c in cands ==> c.id < |es| && c.id != cur && HasLayer(es, c.id, l)
    ensures Selection(es, metric, cands, M, kept) && ListOf(neighbours, kept) && kept <= cands
    ensures GoodList(es, M, cur, l, neighbours)
    ensures forall x :: x in neighbours <==> x in Ids(kept)
    ensures exists n :: IsNearest(n, kept) && next == n.id
  {
    var selected := GetNeighborsByHeuristic2(es, metric, cands, M);
    kept := selected;
    SelectionIsSmall(es, metric, cands, M, selected);
    assert |selected| <= M; // "Should be not be more than M_ candidates" cannot occur
    neighbours := Drain(selected);
    forall k | 0 <= k < |neighbours|
      ensures neighbours[k] != cur && HasLayer(es, neighbours[k], l)
    {
      assert neighbours[k] in neighbours;
    }
    next := neighbours[|neighbours| - 1];
  }

  method LinkBack(fs: Elements, ghost es: Elements, metric: Metric, M: nat, cur: Id, neighbours: seq<Id>,
                  l: nat, isUpdate: bool, i: nat)
    returns (gs: Elements)
    requires WellFormed(es, M) && WellFormed(fs, M) && HasLayer(es, cur, l)
    requires i < |neighbours| && GoodList(es, M, cur, l, neighbours)
    requires !isUpdate ==> forall v :: !Linked(es, l, v, cur)
    requires HalfConnected(es, fs, metric, M, cur, neighbours, l, isUpdate, i)
    ensures WellFormed(gs, M)
    ensures HalfConnected(es, gs, metric, M, cur, neighbours, l, isUpdate, i + 1)
  {
    var n := neighbours[i];
    assert n in neighbours && forall k :: i < k < |neighbours| ==> neighbours[k] != n;
    // "Trying to connect an element to itself", "Trying to make a link on a non-existent level"
    assert n != cur && HasLayer(es, n, l) && HasLayer(fs, n, l);
    assert !Linked(es, l, n, cur) ==> !Linked(fs, l, n, cur);
    var list := ConnectBack(fs, metric, M, cur, n, l, isUpdate);
    BackLinkedIgnoresOthers(es, fs, metric, M, cur, n, l, isUpdate, list);
    SetListKeepsWellFormed(fs, M, n, l, list);
    gs := SetList(fs, n, l, list);
    forall k | i < k < |neighbours|
      ensures gs[neighbours[k]] == es[neighbours[k]]
    {
      assert neighbours[k] in neighbours;
    }
  }

  lemma AllLinkedBack(es: Elements, fs: Elements, metric: Metric, M: nat, cur: Id, cands: set<Cand>, kept: set<Cand>,
                      neighbours: seq<Id>, l: nat, isUpdate: bool)
    requires WellFormed(es, M) && HasLayer(es, cur, l)
    requires forall c :: c in cands ==> c.id < |es| && c.id != cur && HasLayer(es, c.id, l)
    requires Selection(es, metric, cands, M, kept) && kept <= cands && ListOf(neighbours, kept)
    requires forall x :: x in neighbours <==> x in Ids(kept)
    requires GoodList(es, M, cur, l, neighbours)
    requires HalfConnected(es, fs, metric, M, cur, neighbours, l, isUpdate, |neighbours|)
    ensures Connected(es, fs, metric, M, cur, cands, kept, l, isUpdate)
  {
    forall c | c in kept
      ensures HasLayer(es, c.id, l) && HasLayer(fs, c.id, l)
      ensures BackLinked(es, metric, M, cur, c.id, l, isUpdate, fs[c.id].links[l])
    {
      assert c.id in Ids(kept);
      var k :| 0 <= k < |neighbours| && neighbours[k] == c.id;
    }
  }
}
