/**
 The layered graph: one record per element slot. `links[l]` is the neighbour list of layer `l`, so an
 element of level n has n + 1 lists (`element_levels_`, the level-0 block and `linkLists_`).
 */
module Graph {
  import opened Space

  datatype Element = Element(externalLabel: Label, vector: Vector, deleted: bool, links: seq<seq<Id>>)

  type Elements = seq<Element>

  predicate HasLayer(es: Elements, i: int, l: int) {
    0 <= i < |es| && 0 <= l < |es[i].links|
  }

  /** `Mcurmax`: `maxM0_ = 2 * M` on layer 0 and `maxM_ = M` above. */
  function Cap(M: nat, l: nat): nat {
    if l == 0 then 2 * M else M
  }

  predicate NoDup(s: seq<Id>) {
    forall j, k :: 0 <= j < k < |s| ==> s[j] != s[k]
  }

  ghost predicate GoodList(es: Elements, M: nat, i: Id, l: nat, list: seq<Id>) {
    && |list| <= Cap(M, l)
    && NoDup(list)
    && (forall k :: 0 <= k < |list| ==> list[k] != i && HasLayer(es, list[k], l))
  }

  /** Every link is in range, is no self-link and no duplicate, and stays on layers its target has. */
  ghost predicate WellFormed(es: Elements, M: nat) {
    && (forall i :: 0 <= i < |es| ==> |es[i].links| > 0)
    && (forall i, l :: HasLayer(es, i, l) ==> GoodList(es, M, i, l, es[i].links[l]))
  }

  /** Everything but the neighbour lists agrees. */
  ghost predicate SameData(es: Elements, fs: Elements) {
    && |es| == |fs|
    && forall i :: 0 <= i < |es| ==>
         && |fs[i].links| == |es[i].links|
         && fs[i].externalLabel == es[i].externalLabel
         && fs[i].vector == es[i].vector
         && fs[i].deleted == es[i].deleted
  }

  /** The lists agree, except perhaps on layer `l`. */
  ghost predicate SameOffLayer(es: Elements, fs: Elements, l: nat)
    requires SameData(es, fs)
  {
    forall i, m :: HasLayer(es, i, m) && m != l ==> fs[i].links[m] == es[i].links[m]
  }

  function SetList(es: Elements, i: Id, l: nat, list: seq<Id>): (fs: Elements)
    requires HasLayer(es, i, l)
    ensures SameData(es, fs) && fs[i].links[l] == list
    ensures SameOffLayer(es, fs, l)
    ensures forall j :: 0 <= j < |es| && j != i ==> fs[j] == es[j]
  {
    es[i := es[i].(links := es[i].links[l := list])]
  }

  lemma SetListKeepsWellFormed(es: Elements, M: nat, i: Id, l: nat, list: seq<Id>)
    requires WellFormed(es, M) && HasLayer(es, i, l) && GoodList(es, M, i, l, list)
    ensures WellFormed(SetList(es, i, l, list), M)
  {
    var fs := SetList(es, i, l, list);
    forall j, m | HasLayer(fs, j, m)
      ensures GoodList(fs, M, j, m, fs[j].links[m])
    {
      assert HasLayer(es, j, m);
      if j != i || m != l {
        assert fs[j].links[m] == es[j].links[m];
      }
      assert forall x :: HasLayer(es, x, m) ==> HasLayer(fs, x, m);
    }
  }

  // ---------- Reachability along the links of one layer ----------

  predicate Linked(es: Elements, l: int, a: int, b: int) {
    HasLayer(es, a, l) && b in es[a].links[l]
  }

  ghost predicate IsPath(es: Elements, l: nat, p: seq<Id>) {
    |p| > 0 && forall k :: 0 < k < |p| ==> Linked(es, l, p[k - 1], p[k])
  }

  ghost predicate Reaches(es: Elements, l: nat, a: Id, b: Id) {
    exists p :: IsPath(es, l, p) && p[0] == a && p[|p| - 1] == b
  }

  /** The elements reachable from `a` on layer `l`. */
  ghost function Reachable(es: Elements, l: nat, a: Id): set<Id> {
    set b | 0 <= b < |es| && Reaches(es, l, a, b)
  }

  lemma ReachesSelf(es: Elements, l: nat, a: Id)
    ensures Reaches(es, l, a, a)
  {
    assert IsPath(es, l, [a]);
  }

  lemma ReachesStep(es: Elements, l: nat, a: Id, b: Id, c: Id)
    requires Reaches(es, l, a, b) && Linked(es, l, b, c)
    ensures Reaches(es, l, a, c)
  {
    var p :| IsPath(es, l, p) && p[0] == a && p[|p| - 1] == b;
    assert IsPath(es, l, p + [c]);
  }

  /** A set that holds the start and is closed under the links holds all that is reachable. */
  lemma {:induction false} ClosedHoldsReachable(es: Elements, l: nat, s: set<Id>, p: seq<Id>)
    requires IsPath(es, l, p) && p[0] in s
    requires forall v, x :: v in s && Linked(es, l, v, x) ==> x in s
    ensures p[|p| - 1] in s
  {
    if |p| > 1 {
      var q := p[..|p| - 1];
      ClosedHoldsReachable(es, l, s, q);
      assert Linked(es, l, q[|q| - 1], p[|p| - 1]);
    }
  }

  /** What no list of the layer names cannot be reached from elsewhere. */
  lemma UnlinkedUnreachable(es: Elements, l: nat, a: Id, b: Id)
    requires a != b && forall v :: !Linked(es, l, v, b)
    ensures !Reaches(es, l, a, b)
  {
    forall p | IsPath(es, l, p) && p[0] == a
      ensures p[|p| - 1] != b
    {
      if |p| > 1 {
        assert Linked(es, l, p[|p| - 2], p[|p| - 1]);
      }
    }
  }
}
