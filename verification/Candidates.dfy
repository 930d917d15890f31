/**
 Search candidates and the two orders the index keeps them in. A `std::priority_queue` of pairs is a
 set here: no id is ever queued twice, and the order of equal keys in the heap is left open.
 */
module Candidates {
  import opened Space

  datatype Cand = Cand(dist: Dist, id: Id)

  ghost predicate DistinctIds(s: set<Cand>) {
    forall a, b :: a in s && b in s && a.id == b.id ==> a == b
  }

  ghost function Ids(s: set<Cand>): set<Id> {
    set c | c in s :: c.id
  }

  /** `top()` of a queue under `CompareByFirst`: some element at the largest distance. */
  ghost predicate IsFarthest(c: Cand, s: set<Cand>) {
    c in s && forall d :: d in s ==> d.dist <= c.dist
  }

  /** `top()` of a queue of negated distances under `CompareByFirst`. */
  ghost predicate IsNearest(c: Cand, s: set<Cand>) {
    c in s && forall d :: d in s ==> c.dist <= d.dist
  }

  /** `a` leaves a queue of negated pairs before `b`: nearer first, larger id first among equals. */
  predicate Before(a: Cand, b: Cand) {
    a.dist < b.dist || (a.dist == b.dist && a.id > b.id)
  }

  ghost predicate IsFirst(c: Cand, s: set<Cand>) {
    c in s && forall d :: d in s && d != c ==> Before(c, d)
  }

  lemma FarthestExists(s: set<Cand>)
    requires s != {}
    ensures exists c :: IsFarthest(c, s)
  {
    var c :| c in s;
    if s != {c} {
      FarthestExists(s - {c});
      var f :| IsFarthest(f, s - {c});
      assert IsFarthest(if c.dist > f.dist then c else f, s);
    } else {
      assert IsFarthest(c, s);
    }
  }

  lemma FirstExists(s: set<Cand>)
    requires s != {}
    ensures exists c :: IsFirst(c, s)
  {
    var c :| c in s;
    if s != {c} {
      FirstExists(s - {c});
      var f :| IsFirst(f, s - {c});
      assert s == (s - {c}) + {c};
      assert IsFirst(if Before(c, f) then c else f, s);
    } else {
      assert IsFirst(c, s);
    }
  }

  method Farthest(s: set<Cand>) returns (c: Cand)
    requires s != {}
    ensures IsFarthest(c, s)
  {
    FarthestExists(s);
    ghost var f :| IsFarthest(f, s);
    c :| c in s && forall d :: d in s ==> d.dist <= c.dist;
  }

  method Nearest(s: set<Cand>) returns (c: Cand)
    requires s != {}
    ensures IsNearest(c, s)
  {
    c := First(s);
    assert forall d :: d in s ==> d == c || Before(c, d);
  }

  method First(s: set<Cand>) returns (c: Cand)
    requires s != {}
    ensures IsFirst(c, s)
  {
    FirstExists(s);
    ghost var f :| IsFirst(f, s);
    c :| c in s && forall d :: d in s && d != c ==> Before(c, d);
  }

  /** The queue emptied by `top`/`pop`: every id once, farthest first. */
  ghost predicate FarthestFirst(order: seq<Cand>, s: set<Cand>) {
    && (forall c :: c in order <==> c in s)
    && (forall j, k :: 0 <= j < k < |order| ==> order[j] != order[k] && order[k].dist <= order[j].dist)
  }

  method DrainFarthestFirst(s: set<Cand>) returns (order: seq<Cand>)
    ensures FarthestFirst(order, s) && |order| == |s|
  {
    var rest := s;
    order := [];
    while rest != {}
      invariant rest <= s && |order| + |rest| == |s|
      invariant forall c :: c in s ==> c in order || c in rest
      invariant forall c :: c in order ==> c in s && c !in rest
      invariant forall c, d :: c in order && d in rest ==> d.dist <= c.dist
      invariant forall j, k :: 0 <= j < k < |order| ==> order[j] != order[k] && order[k].dist <= order[j].dist
      decreases rest
    {
      var c := Farthest(rest);
      rest := rest - {c};
      order := order + [c];
    }
  }

  /** `while (q.size() > bound) q.pop()`: drops farthest candidates until `bound` are left. */
  method PopDownTo(s: set<Cand>, bound: nat) returns (r: set<Cand>)
    ensures r <= s && |r| == if |s| <= bound then |s| else bound
    ensures forall a, b :: a in r && b in s - r ==> a.dist <= b.dist
  {
    r := s;
    while |r| > bound
      invariant r <= s && (if |s| <= bound then r == s else |r| >= bound)
      invariant forall a, b :: a in r && b in s - r ==> a.dist <= b.dist
    {
      var c := Farthest(r);
      r := r - {c};
    }
  }

  lemma {:induction false} SubsetOfSameSize<T>(a: set<T>, b: set<T>)
    requires a <= b && |a| >= |b|
    ensures a == b
  {
    if x :| x in b && x !in a {
      SubsetCard(a, b - {x});
    }
  }

  lemma {:induction false} SubsetCard<T>(a: set<T>, b: set<T>)
    requires a <= b
    ensures |a| <= |b|
  {
    if a != {} {
      var x :| x in a;
      SubsetCard(a - {x}, b - {x});
    }
  }
}
