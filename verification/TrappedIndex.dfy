/**
 An index that is brought, by nothing but calls of its operations, into a state in which an insertion has no
 defined result: the one element that is not tombstoned is the entry point, and the walk leads away from it.
 */
module TrappedIndex {
  import opened Space
  import opened Candidates
  import opened Graph
  import opened Neighbours
  import opened Linking
  import opened BeamSearch
  import opened GreedyWalk
  import opened Insertion
  import opened Updating
  import opened Knn
  import opened HnswIndex

  /** Points on a line. */
  function Gap(a: Vector, b: Vector): Dist {
    if |a| != 1 || |b| != 1 then 0.0
    else
      var d := if a[0] < b[0] then b[0] - a[0] else a[0] - b[0];
      if d > FLT_MAX then FLT_MAX else d
  }

  const P: Params := Params(Gap, 2, 2)

  function Point(a: Label, x: real, deleted: bool, links: seq<seq<Id>>): Element {
    Element(a, [x], deleted, links)
  }

  // ---------- The states on the way ----------

  function G1(): Elements {
    [ Point(0, 12.0, false, [[], []]) ]
  }

  function G2(): Elements {
    [ Point(0, 12.0, false, [[1], []]), Point(2, 7.0, false, [[0]]) ]
  }

  function G3(): Elements {
    [ Point(0, 12.0, false, [[1, 2], []]), Point(2, 7.0, false, [[0, 2]]), Point(3, 7.0, false, [[0, 1]]) ]
  }

  function G4(): Elements {
    [ Point(0, 12.0, false, [[1, 2], [3]]), Point(2, 7.0, false, [[0, 2]]), Point(3, 7.0, false, [[0, 1, 3]]),
      Point(4, 3.0, false, [[2], [0]]) ]
  }

  /** After labels 2, 3 and 4 have been deleted. */
  function G5(): Elements {
    [ Point(0, 12.0, false, [[1, 2], [3]]), Point(2, 7.0, true, [[0, 2]]), Point(3, 7.0, true, [[0, 1, 3]]),
      Point(4, 3.0, true, [[2], [0]]) ]
  }

  /** After the entry point has moved away: nothing on layer 0 leads to it any more. */
  function G6(): Elements {
    [ Point(0, 20.0, false, [[1, 2], [3]]), Point(2, 7.0, true, [[3, 2]]), Point(3, 7.0, true, [[3, 1]]),
      Point(4, 3.0, true, [[2], [0]]) ]
  }

  // ---------- Reading off what a contract fixes ----------

  /** What can be reached when everything in `s` is the start or a neighbour of it, and `s` is closed. */
  lemma ReachIs(es: Elements, l: nat, at: Id, s: set<Id>)
    requires at in s && forall x :: x in s ==> x < |es| && (x == at || Linked(es, l, at, x))
    requires forall v, x :: v in s && Linked(es, l, v, x) ==> x in s
    ensures Reachable(es, l, at) == s
  {
    ReachesSelf(es, l, at);
    forall x | x in s
      ensures Reaches(es, l, at, x)
    {
      if x != at {
        ReachesStep(es, l, at, at, x);
      }
    }
    forall x | x in Reachable(es, l, at)
      ensures x in s
    {
      var p :| IsPath(es, l, p) && p[0] == at && p[|p| - 1] == x;
      ClosedHoldsReachable(es, l, s, p);
    }
  }

  /** With a live entry point and room for all, the candidates of a layer are all that can be reached. */
  lemma CandidatesAre(t: LayerTrace, p: Params, entry: Id, cur: Id, q: Vector, l: nat, ids: set<Id>)
    requires LayerDone(t, p, entry, cur, q, l) && !t.before[entry].deleted
    requires Reachable(t.before, l, t.search.ep) == ids && |ids| <= p.ef
    requires forall x :: x in ids ==> x < |t.before| && !t.before[x].deleted
    ensures t.cands == CandsOf(t.before, p.metric, q, ids)
  {
    var s := t.search;
    var visited :| IsBeam(s, t.top, visited);
    assert s.Targets() == ids;
    WideBeamIsComplete(s, t.top, visited);
    forall i | i in ids
      ensures Cand(p.metric(q, t.before[i].vector), i) in t.top
    {
      assert i in Ids(t.top);
    }
  }

  lemma ListOfOne(list: seq<Id>, c: Cand)
    requires ListOf(list, {c})
    ensures list == [c.id]
  {
    var order :| FarthestFirst(order, {c}) && |order| == |{c}| && list == IdsOf(order);
    assert order[0] in {c};
  }

  lemma ListOfTwo(list: seq<Id>, far: Cand, near: Cand)
    requires ListOf(list, {far, near}) && near.dist < far.dist
    ensures list == [far.id, near.id]
  {
    var s := {far, near};
    var order :| FarthestFirst(order, s) && |order| == |s| && list == IdsOf(order);
    assert order[0] in s && order[1] in s && order[0] != order[1];
  }

  /** What one layer of an insertion has done, when the neighbours still have room. */
  lemma LayerFacts(t: LayerTrace, p: Params, entry: Id, cur: Id, q: Vector, l: nat)
    requires LayerDone(t, p, entry, cur, q, l)
    ensures SameData(t.before, t.after) && SameOffLayer(t.before, t.after, l) && HasLayer(t.after, cur, l)
    ensures InRange(t.before, t.cands) && Selection(t.before, p.metric, t.cands, p.M, t.kept)
    ensures ListOf(t.after[cur].links[l], t.kept)
    ensures forall i :: 0 <= i < |t.before| && i != cur && i !in Ids(t.kept) ==> t.after[i] == t.before[i]
    ensures forall c :: c in t.kept && c in t.cands ==>
              && HasLayer(t.before, c.id, l) && HasLayer(t.after, c.id, l)
              && (|t.before[c.id].links[l]| < Cap(p.M, l) ==>
                    t.after[c.id].links[l] == t.before[c.id].links[l] + [cur])
  {
    hide Selection, ListOf, WithEntry, IsBeam, BaseSearch;
  }

  /** As long as the entry point knows nobody on layer 1, every descent ends at it. */
  lemma DescentStays(es: Elements, q: Vector, to: nat)
    requires WellFormed(es, 2) && EntryOk(es, 0, 1) && to <= 1 && (to == 1 || es[0].links[1] == [])
    ensures Descent(es, 2, Gap, 0, 1, q, to) == 0
  {
    hide WellFormed;
    WellFormedIsClosed(es, 2);
    if to == 0 {
      assert PassEnd(es, Gap, q, es[0].links[1], 0) == 0;
    }
  }

  // ---------- The four insertions ----------

  lemma FirstInsertion(fs: Elements, steps: seq<LayerTrace>)
    requires WellFormed([], 2) && EntryOk([], -1, -1) && Inserted([], fs, P, -1, -1, 0, [12.0], 1, steps)
    ensures fs == G1()
  {
    assert Blank(0, [12.0], 1).links == [[], []];
  }

  lemma SecondInsertion(fs: Elements, steps: seq<LayerTrace>)
    requires WellFormed(G1(), 2) && EntryOk(G1(), 0, 1) && Inserted(G1(), fs, P, 0, 1, 2, [7.0], 0, steps)
    ensures fs == G2()
  {
    hide WellFormed, LayerDone, Reachable, Selection, ListOf, CandsOf, Descent, BackLinked;
    var t, before := steps[0], G1() + [Blank(2, [7.0], 0)];
    DescentStays(G1(), [7.0], 0);
    assert t.before == before && t.after == fs && t.search.ep == 0;
    ReachIs(before, 0, 0, {0});
    CandidatesAre(t, P, 0, 1, [7.0], 0, {0});
    LayerFacts(t, P, 0, 1, [7.0], 0);
    SecondLists(t);
  }

  lemma SecondLists(t: LayerTrace)
    requires t.before == G1() + [Blank(2, [7.0], 0)] && t.cands == CandsOf(t.before, Gap, [7.0], {0})
    requires SameData(t.before, t.after) && SameOffLayer(t.before, t.after, 0)
    requires InRange(t.before, t.cands) && Selection(t.before, Gap, t.cands, 2, t.kept)
    requires ListOf(t.after[1].links[0], t.kept)
    requires forall c :: c in t.kept && c in t.cands ==>
              && HasLayer(t.before, c.id, 0) && HasLayer(t.after, c.id, 0)
              && t.after[c.id].links[0] == t.before[c.id].links[0] + [1]
    ensures t.after == G2()
  {
    var c := Cand(5.0, 0);
    assert t.cands == {c};
    assert t.kept == {c};
    ListOfOne(t.after[1].links[0], c);
    assert HasLayer(t.before, 0, 1);
    assert t.after[0].links[0] == [1] && t.after[0].links[1] == [];
    assert t.after[0].links == [[1], []];
    assert t.after[1].links == [[0]];
  }

  lemma ThirdInsertion(fs: Elements, steps: seq<LayerTrace>)
    requires WellFormed(G2(), 2) && EntryOk(G2(), 0, 1) && Inserted(G2(), fs, P, 0, 1, 3, [7.0], 0, steps)
    ensures fs == G3()
  {
    hide WellFormed, LayerDone, Reachable, Selection, ListOf, CandsOf, Descent, BackLinked;
    var t, before := steps[0], G2() + [Blank(3, [7.0], 0)];
    DescentStays(G2(), [7.0], 0);
    assert t.before == before && t.after == fs && t.search.ep == 0;
    ReachIs(before, 0, 0, {0, 1});
    CandidatesAre(t, P, 0, 2, [7.0], 0, {0, 1});
    LayerFacts(t, P, 0, 2, [7.0], 0);
    ThirdLists(t);
  }

  /** Both candidates are kept: the nearer one is not closer to the other than the new element is. */
  lemma ThirdKept(es: Elements, kept: set<Cand>)
    requires |es| == 3 && es[0].vector == [12.0] && es[1].vector == [7.0]
    requires InRange(es, {Cand(5.0, 0), Cand(0.0, 1)}) && Selection(es, Gap, {Cand(5.0, 0), Cand(0.0, 1)}, 2, kept)
    ensures kept == {Cand(5.0, 0), Cand(0.0, 1)}
  {
    var far, near := Cand(5.0, 0), Cand(0.0, 1);
    assert |{far, near}| == 2;
    assert !Blocks(es, Gap, near, far) && !Blocks(es, Gap, far, near);
    assert Selection(es, Gap, {far, near}, 2, {far, near});
    SelectionIsUnique(es, Gap, {far, near}, 2, kept, {far, near});
  }

  lemma ThirdLists(t: LayerTrace)
    requires t.before == G2() + [Blank(3, [7.0], 0)] && t.cands == CandsOf(t.before, Gap, [7.0], {0, 1})
    requires SameData(t.before, t.after) && SameOffLayer(t.before, t.after, 0)
    requires InRange(t.before, t.cands) && Selection(t.before, Gap, t.cands, 2, t.kept)
    requires ListOf(t.after[2].links[0], t.kept)
    requires forall c :: c in t.kept && c in t.cands ==>
              && HasLayer(t.before, c.id, 0) && HasLayer(t.after, c.id, 0)
              && t.after[c.id].links[0] == t.before[c.id].links[0] + [2]
    ensures t.after == G3()
  {
    hide Selection, ListOf;
    var far, near := Cand(5.0, 0), Cand(0.0, 1);
    assert t.cands == {far, near};
    ThirdKept(t.before, t.kept);
    ListOfTwo(t.after[2].links[0], far, near);
    assert HasLayer(t.before, 0, 1);
    assert far in t.kept && near in t.kept;
    assert t.after[0].links[0] == [1] + [2] == [1, 2] && t.after[0].links[1] == [];
    assert t.after[1].links[0] == [0] + [2] == [0, 2];
    assert t.after[0].links == [[1, 2], []];
    assert t.after[1].links == [[0, 2]];
    assert t.after[2].links == [[0, 1]];
  }

  /** The fourth element has two layers. In between, it is linked on layer 1 only. */
  function G3Half(): Elements {
    [ Point(0, 12.0, false, [[1, 2], [3]]), Point(2, 7.0, false, [[0, 2]]), Point(3, 7.0, false, [[0, 1]]),
      Point(4, 3.0, false, [[], [0]]) ]
  }

  lemma FourthInsertion(fs: Elements, steps: seq<LayerTrace>)
    requires WellFormed(G3(), 2) && EntryOk(G3(), 0, 1) && Inserted(G3(), fs, P, 0, 1, 4, [3.0], 1, steps)
    ensures fs == G4()
  {
    hide WellFormed, LayerDone, Reachable, Selection, ListOf, CandsOf, Descent, BackLinked;
    var t, u := steps[0], steps[1];
    DescentStays(G3(), [3.0], 1);
    assert t.before == G3() + [Blank(4, [3.0], 1)] && t.search.ep == 0;
    assert LayerDone(t, P, 0, 3, [3.0], 1) && LayerDone(u, P, 0, 3, [3.0], 0);
    FourthUpper(t);
    FourthLower(u);
  }

  lemma FourthUpper(t: LayerTrace)
    requires t.before == G3() + [Blank(4, [3.0], 1)] && t.search.ep == 0 && LayerDone(t, P, 0, 3, [3.0], 1)
    ensures t.after == G3Half() && t.next == 0
  {
    hide WellFormed, LayerDone, Reachable, Selection, ListOf, CandsOf, BackLinked;
    ReachIs(t.before, 1, 0, {0});
    CandidatesAre(t, P, 0, 3, [3.0], 1, {0});
    LayerFacts(t, P, 0, 3, [3.0], 1);
    NextIsKept(t, P, 0, 3, [3.0], 1);
    FourthUpperLists(t);
  }

  lemma NextIsKept(t: LayerTrace, p: Params, entry: Id, cur: Id, q: Vector, l: nat)
    requires LayerDone(t, p, entry, cur, q, l)
    ensures t.next in Ids(t.kept)
  {
  }

  lemma FourthUpperLists(t: LayerTrace)
    requires t.before == G3() + [Blank(4, [3.0], 1)] && t.cands == CandsOf(t.before, Gap, [3.0], {0})
    requires SameData(t.before, t.after) && SameOffLayer(t.before, t.after, 1)
    requires InRange(t.before, t.cands) && Selection(t.before, Gap, t.cands, 2, t.kept)
    requires ListOf(t.after[3].links[1], t.kept) && t.next in Ids(t.kept)
    requires forall i :: 0 <= i < |t.before| && i != 3 && i !in Ids(t.kept) ==> t.after[i] == t.before[i]
    requires forall c :: c in t.kept && c in t.cands ==>
              && HasLayer(t.before, c.id, 1) && HasLayer(t.after, c.id, 1)
              && t.after[c.id].links[1] == t.before[c.id].links[1] + [3]
    ensures t.after == G3Half() && t.next == 0
  {
    hide ListOf;
    var c := Cand(9.0, 0);
    assert t.cands == {c};
    assert t.kept == {c};
    ListOfOne(t.after[3].links[1], c);
    assert HasLayer(t.before, 0, 0) && HasLayer(t.before, 3, 0);
    assert t.after[0].links[1] == [] + [3] == [3] && t.after[0].links[0] == [1, 2];
    assert t.after[0].links == [[1, 2], [3]];
    assert |t.after[3].links| == |t.before[3].links| && t.after[3].links[0] == t.before[3].links[0];
    assert t.after[3].links == [[], [0]];
    assert t.after[1] == t.before[1] && t.after[2] == t.before[2];
  }

  /** Three elements can be reached and the beam has room for two: the entry point falls out of it. */
  lemma FourthCandidates(u: LayerTrace)
    requires u.before == G3Half() && u.search.ep == 0 && LayerDone(u, P, 0, 3, [3.0], 0)
    ensures u.cands == {Cand(4.0, 1), Cand(4.0, 2)}
  {
    hide Reachable, Selection, LayerStep;
    assert u.cands == u.top;
    FourthReach(u.before);
    var visited :| IsBeam(u.search, u.top, visited);
    FourthTop(u.search, u.top, visited);
  }

  lemma InReach(es: Elements, l: nat, at: Id, x: Id)
    requires x < |es| && Reaches(es, l, at, x)
    ensures x in Reachable(es, l, at)
  {
  }

  lemma FourthTop(s: Search, top: set<Cand>, visited: set<Id>)
    requires BaseSearch(s, G3Half(), Gap, [3.0], 0, 2) && s.ep == 0 && IsBeam(s, top, visited)
    requires Reachable(s.es, 0, 0) == {0, 1, 2}
    ensures top == {Cand(4.0, 1), Cand(4.0, 2)}
  {
    hide Reachable;
    var a, b, c := Cand(4.0, 1), Cand(4.0, 2), Cand(9.0, 0);
    assert s.CandOf(1) == a && s.CandOf(2) == b && s.CandOf(0) == c;
    assert Linked(s.es, 0, 0, 1) && Linked(s.es, 0, 0, 2);
    forall d | d in top
      ensures d == a || d == b || d == c
    {
      InReach(s.es, 0, 0, d.id);
    }
    if |top| < 2 {
      ShortBeamIsComplete(s, top, visited);
      assert 0 in s.Targets() && 1 in s.Targets();
      assert 0 in Ids(top) && 1 in Ids(top);
      assert c in top && a in top;
      SubsetCard({c, a}, top);
      assert false;
    }
    TopOfThree(s, top, visited, a, b);
  }

  lemma TopOfThree(s: Search, top: set<Cand>, visited: set<Id>, a: Cand, b: Cand)
    requires s.Valid() && IsBeam(s, top, visited) && |top| == 2 && s.ef == 2 && |s.es| > 2
    requires forall c :: c in top ==> c.id == 0 || c == a || c == b
    requires 1 in visited && 2 in visited && s.Admits(1) && s.Admits(2)
    requires s.CandOf(1) == a && s.CandOf(2) == b && a.dist == b.dist < s.CandOf(0).dist
    ensures top == {a, b}
  {
    if a !in top || b !in top {
      var far := s.CandOf(0);
      assert far !in top by {
        assert a !in top ==> OutDone(s, top, 1);
        assert b !in top ==> OutDone(s, top, 2);
      }
      assert forall c :: c in top ==> c != far;
      SubsetCard(top, if a in top then {a} else {b});
      assert false;
    }
    SubsetOfSameSize({a, b}, top);
  }

  lemma FourthReach(es: Elements)
    requires es == G3Half()
    ensures Reachable(es, 0, 0) == {0, 1, 2}
  {
    ReachIs(es, 0, 0, {0, 1, 2});
  }

  /** Of the two candidates the one with the larger id comes first, and it lies where the other one lies. */
  lemma FourthKept(es: Elements, kept: set<Cand>)
    requires |es| == 4 && es[1].vector == [7.0] && es[2].vector == [7.0]
    requires InRange(es, {Cand(4.0, 1), Cand(4.0, 2)}) && Selection(es, Gap, {Cand(4.0, 1), Cand(4.0, 2)}, 2, kept)
    ensures kept == {Cand(4.0, 2)}
  {
    var a, b := Cand(4.0, 1), Cand(4.0, 2);
    assert |{a, b}| == 2 && Blocks(es, Gap, b, a) && !Blocks(es, Gap, b, b);
    assert {a, b} - {b} == {a};
    assert Selection(es, Gap, {a, b}, 2, {b});
    SelectionIsUnique(es, Gap, {a, b}, 2, kept, {b});
  }

  lemma FourthLower(u: LayerTrace)
    requires u.before == G3Half() && u.search.ep == 0 && LayerDone(u, P, 0, 3, [3.0], 0)
    ensures u.after == G4()
  {
    hide WellFormed, LayerDone, Reachable, Selection, ListOf, BackLinked;
    FourthCandidates(u);
    LayerFacts(u, P, 0, 3, [3.0], 0);
    FourthKept(u.before, u.kept);
    var b := Cand(4.0, 2);
    ListOfOne(u.after[3].links[0], b);
    FourthLowerLists(u);
  }

  lemma FourthLowerLists(u: LayerTrace)
    requires u.before == G3Half() && u.cands == {Cand(4.0, 1), Cand(4.0, 2)} && u.kept == {Cand(4.0, 2)}
    requires SameData(u.before, u.after) && SameOffLayer(u.before, u.after, 0) && u.after[3].links[0] == [2]
    requires forall i :: 0 <= i < |u.before| && i != 3 && i !in Ids(u.kept) ==> u.after[i] == u.before[i]
    requires forall c :: c in u.kept && c in u.cands ==>
              && HasLayer(u.before, c.id, 0) && HasLayer(u.after, c.id, 0)
              && u.after[c.id].links[0] == u.before[c.id].links[0] + [3]
    ensures u.after == G4()
  {
    assert Cand(4.0, 2) in u.kept;
    assert HasLayer(u.before, 3, 1);
    assert u.after[2].links[0] == [0, 1] + [3] == [0, 1, 3] && u.after[3].links[1] == [0];
    assert u.after[2].links == [[0, 1, 3]];
    assert u.after[3].links == [[2], [0]];
    assert u.after[0] == u.before[0] && u.after[1] == u.before[1];
  }

  // ---------- The entry point moves away ----------

  /** The two nearest of three, when the third is strictly farther. */
  lemma NearestTwo(es: Elements, from: Id, x: Id, y: Id, z: Id, near: set<Cand>)
    requires from < |es| && x < |es| && y < |es| && z < |es| && x != y && y != z && z != x
    requires NearestFrom(es, Gap, from, {x, y, z}, 2, near)
    requires CandFrom(es, Gap, from, x).dist < CandFrom(es, Gap, from, z).dist
    requires CandFrom(es, Gap, from, y).dist < CandFrom(es, Gap, from, z).dist
    ensures near == {CandFrom(es, Gap, from, x), CandFrom(es, Gap, from, y)}
  {
    var a, b, c := CandFrom(es, Gap, from, x), CandFrom(es, Gap, from, y), CandFrom(es, Gap, from, z);
    assert |{x, y, z}| == 3;
    assert forall d :: d in near ==> d == a || d == b || d == c;
    if a !in near || b !in near {
      assert c !in near;
      SubsetCard(near, if a in near then {a} else {b});
      assert false;
    }
    SubsetOfSameSize({a, b}, near);
  }

  /** A neighbour that can choose among three others keeps the two nearest, the farther one first. */
  lemma ChoosesTwo(es: Elements, n: Id, x: Id, y: Id, z: Id, list: seq<Id>)
    requires HasLayer(es, n, 0) && x < |es| && y < |es| && z < |es|
    requires x != y && y != z && z != x && n != x && n != y && n != z
    requires Relinked(es, Gap, 2, 2, {n, x, y, z}, n, 0, list)
    requires CandFrom(es, Gap, n, x).dist < CandFrom(es, Gap, n, y).dist < CandFrom(es, Gap, n, z).dist
    ensures list == [y, x]
  {
    hide ListOf;
    assert {n, x, y, z} - {n} == {x, y, z};
    var near, kept :|
      && NearestFrom(es, Gap, n, {n, x, y, z} - {n}, 2, near)
      && InRange(es, near) && Selection(es, Gap, near, Cap(2, 0), kept) && ListOf(list, kept);
    NearestTwo(es, n, x, y, z, near);
    assert kept == {CandFrom(es, Gap, n, y), CandFrom(es, Gap, n, x)};
    ListOfTwo(list, CandFrom(es, Gap, n, y), CandFrom(es, Gap, n, x));
  }

  lemma ChoosesOne(es: Elements, n: Id, x: Id, l: nat, list: seq<Id>)
    requires HasLayer(es, n, l) && x < |es| && n != x && Relinked(es, Gap, 2, 2, {n, x}, n, l, list)
    ensures list == [x]
  {
    hide ListOf;
    assert {n, x} - {n} == {x};
    var c := CandFrom(es, Gap, n, x);
    var near, kept :|
      && NearestFrom(es, Gap, n, {n, x} - {n}, 2, near)
      && InRange(es, near) && Selection(es, Gap, near, Cap(2, l), kept) && ListOf(list, kept);
    assert near == {c} && kept == {c};
    ListOfOne(list, c);
  }

  lemma LowerLayerMoved(fs: Elements)
    requires RelinkedLayer(Move(G5(), 0, [20.0]), fs, P, 0, 0)
    ensures fs == G6()
  {
    hide Relinked, WellFormed;
    var es := Move(G5(), 0, [20.0]);
    assert Linked(es, 0, 1, 0) && Linked(es, 0, 1, 2) && Linked(es, 0, 2, 3);
    assert TwoHops(es, 0, 0) == {1, 2, 0, 3} == {2, 1, 0, 3};
    assert {1, 2, 0, 3} == {1, 2, 3, 0} && {2, 1, 0, 3} == {2, 1, 3, 0};
    assert (set y | y in es[0].links[0]) == {1, 2};
    assert 1 in {1, 2} && 2 in {1, 2};
    ChoosesTwo(es, 1, 2, 3, 0, fs[1].links[0]);
    ChoosesTwo(es, 2, 1, 3, 0, fs[2].links[0]);
    assert |fs[1].links| == |es[1].links| && |fs[2].links| == |es[2].links|;
    assert fs[1].links == [[3, 2]] && fs[2].links == [[3, 1]];
    assert fs[0] == es[0] && fs[3] == es[3];
  }

  /** On layer 1 the only neighbour has nothing to choose from but the entry point. */
  lemma UpperLayerMoved(fs: Elements)
    requires RelinkedLayer(G6(), fs, P, 0, 1)
    ensures fs == G6()
  {
    hide WellFormed, Relinked;
    var es := G6();
    assert Linked(es, 1, 3, 0);
    assert TwoHops(es, 0, 1) == {3, 0};
    assert (set y | y in es[0].links[1]) == {3};
    assert 3 in {3};
    ChoosesOne(es, 3, 0, 1, fs[3].links[1]);
    assert fs[3].links[0] == es[3].links[0] by {
      assert HasLayer(es, 3, 0);
    }
    assert |fs[3].links| == |es[3].links|;
    assert fs[3].links == [[2], [0]];
    assert fs[0] == es[0] && fs[1] == es[1] && fs[2] == es[2];
  }

  /** Where nothing but the element itself is live, a repair finds nobody to connect it to. */
  lemma NobodyElse(t: LayerTrace, q: Vector, l: nat)
    requires RepairDone(t, P, 0, 0, q, l) && forall i :: 0 < i < |t.before| ==> t.before[i].deleted
    ensures t.after == t.before
  {
    var visited :| IsBeam(t.search, t.top, visited);
    assert forall c :: c in t.top ==> c.id == 0;
    assert (set c | c in t.top && c.id != 0) == {};
  }

  lemma NothingRepaired(fs: Elements, steps: seq<LayerTrace>)
    requires WellFormed(G6(), 2) && EntryOk(G6(), 0, 1) && Repaired(G6(), fs, P, 0, 1, 0, [20.0], steps)
    ensures fs == G6()
  {
    hide RepairDone, WellFormed;
    NobodyElse(steps[0], [20.0], 1);
    NobodyElse(steps[1], [20.0], 0);
  }

  lemma EntryMoved(fs: Elements, gs: seq<Elements>, steps: seq<LayerTrace>)
    requires Moved(G5(), fs, P, 0, 1, 0, [20.0], gs, steps)
    ensures fs == G6()
  {
    hide RelinkedLayer, Repaired, WellFormed;
    LowerLayerMoved(gs[1]);
    UpperLayerMoved(gs[2]);
    NothingRepaired(fs, steps);
  }

  // ---------- The trap ----------

  /** The walk towards 5 goes to the element at 3, from where only tombstones can be reached. */
  lemma TrapIsStuck()
    requires WellFormed(G6(), 2) && EntryOk(G6(), 0, 1)
    ensures Stuck(G6(), 2, Gap, 0, 1, [5.0], 0)
  {
    hide WellFormed;
    var es, q := G6(), [5.0];
    WellFormedIsClosed(es, 2);
    assert PassEnd(es, Gap, q, [3], 0) == PassEnd(es, Gap, q, [], 3) == 3;
    assert PassEnd(es, Gap, q, [0], 3) == 3;
    assert LayerEnd(es, Gap, q, 1, 0) == LayerEnd(es, Gap, q, 1, 3) == 3;
    assert Descent(es, 2, Gap, 0, 1, q, 0) == 3;
    forall x | x in Reachable(es, 0, 3)
      ensures es[x].deleted
    {
      var p :| IsPath(es, 0, p) && p[0] == 3 && p[|p| - 1] == x;
      ClosedHoldsReachable(es, 0, {1, 2, 3}, p);
    }
  }

  /** The index is valid, has the settings of the example, and is in the state `es` with its first element as the
      entry point. */
  ghost predicate At(h: HierarchicalNSW, es: Elements)
    reads h, h.visited, h.visited.mass
  {
    && h.Valid() && h.Settings() == P && h.M == 2 && h.metric == Gap && h.maxElements == 10
    && h.elements == es && h.entryPoint == 0 && h.maxLevel == 1
  }

  lemma LookupAt(h: HierarchicalNSW, a: Label, x: Id)
    requires h.Valid() && x < |h.elements| && h.elements[x].externalLabel == a
    ensures a in h.labelLookup && h.labelLookup[a] == x
  {
  }

  lemma NotInLookup(h: HierarchicalNSW, a: Label)
    requires h.Valid() && forall i :: 0 <= i < |h.elements| ==> h.elements[i].externalLabel != a
    ensures a !in h.labelLookup
  {
  }

  lemma NoneDeleted(h: HierarchicalNSW)
    requires h.Valid() && forall i :: 0 <= i < |h.elements| ==> !h.elements[i].deleted
    ensures h.numDeleted == 0
  {
    assert Tombstones(h.elements) == {};
  }

  method Build() returns (h: HierarchicalNSW)
    ensures fresh(h) && fresh(h.visited) && fresh(h.visited.mass) && At(h, G4())
  {
    h := BuildOne();
    AddSecond(h);
    AddThird(h);
    AddFourth(h);
  }

  method BuildOne() returns (h: HierarchicalNSW)
    ensures fresh(h) && fresh(h.visited) && fresh(h.visited.mass) && At(h, G1())
  {
    h := new HierarchicalNSW(Gap, 10, 2, 2);
    NotInLookup(h, 0);
    NoneDeleted(h);
    ghost var es, entry, top := h.elements, h.entryPoint, h.maxLevel;
    var r;
    ghost var gs, steps;
    r, gs, steps := h.AddPoint([12.0], 0, 1);
    FirstInsertion(h.elements, steps);
  }

  method AddSecond(h: HierarchicalNSW)
    requires At(h, G1())
    modifies h, h.visited, h.visited.mass
    ensures At(h, G2())
  {
    NotInLookup(h, 2);
    NoneDeleted(h);
    var r;
    ghost var gs, steps;
    r, gs, steps := h.AddPoint([7.0], 2, 0);
    SecondInsertion(h.elements, steps);
  }

  method AddThird(h: HierarchicalNSW)
    requires At(h, G2())
    modifies h, h.visited, h.visited.mass
    ensures At(h, G3())
  {
    NotInLookup(h, 3);
    NoneDeleted(h);
    var r;
    ghost var gs, steps;
    r, gs, steps := h.AddPoint([7.0], 3, 0);
    ThirdInsertion(h.elements, steps);
  }

  method AddFourth(h: HierarchicalNSW)
    requires At(h, G3())
    modifies h, h.visited, h.visited.mass
    ensures At(h, G4())
  {
    NotInLookup(h, 4);
    NoneDeleted(h);
    var r;
    ghost var gs, steps;
    r, gs, steps := h.AddPoint([3.0], 4, 1);
    FourthInsertion(h.elements, steps);
  }

  method Delete(h: HierarchicalNSW, a: Label, x: Id, ghost es: Elements)
    requires At(h, es) && x < |es| && es[x].externalLabel == a && !es[x].deleted
    modifies h
    ensures At(h, SetDeleted(es, x, true))
  {
    LookupAt(h, a, x);
    var r := h.MarkDelete(a);
  }

  method DeleteThree(h: HierarchicalNSW)
    requires At(h, G4())
    modifies h
    ensures At(h, G5())
  {
    Delete(h, 2, 1, G4());
    Delete(h, 3, 2, SetDeleted(G4(), 1, true));
    Delete(h, 4, 3, SetDeleted(SetDeleted(G4(), 1, true), 2, true));
    assert SetDeleted(SetDeleted(SetDeleted(G4(), 1, true), 2, true), 3, true) == G5();
  }

  method MoveEntry(h: HierarchicalNSW)
    requires At(h, G5())
    modifies h, h.visited, h.visited.mass
    ensures At(h, G6())
  {
    hide Moved, Inserted, Stuck, WellFormed, Live, LookupOk, Tombstones;
    LookupAt(h, 0, 0);
    var r;
    ghost var gs, steps;
    r, gs, steps := h.AddPoint([20.0], 0, 0);
    assert SetDeleted(G5(), 0, false) == G5();
    EntryMoved(h.elements, gs, steps);
  }

  /** Four insertions, three deletions and an update later, the insertion of a new element has no defined
      result, although the entry point is live. */
  method ReachTheTrap() returns (r: AddResult)
    ensures r == Undefined
  {
    var h := Build();
    DeleteThree(h);
    MoveEntry(h);
    NotInLookup(h, 99);
    TrapIsStuck();
    ghost var gs, steps;
    r, gs, steps := h.AddPoint([5.0], 99, 0);
  }
}
