/** The plain scan: `BruteforceSearch`, with a flat buffer of rows and a dictionary from labels to rows. */
module BruteForce {
  import opened Space
  import opened Candidates
  import opened Graph
  import opened Knn
  import opened HnswIndex

  datatype Row = Row(externalLabel: Label, vector: Vector)

  ghost predicate RowsOk(rows: seq<Row>, dict: map<Label, nat>) {
    && (forall a :: a in dict ==> dict[a] < |rows| && rows[dict[a]].externalLabel == a)
    && (forall i :: 0 <= i < |rows| ==> rows[i].externalLabel in dict && dict[rows[i].externalLabel] == i)
  }

  ghost function ContentsOf(rows: seq<Row>, dict: map<Label, nat>): map<Label, Vector>
    requires RowsOk(rows, dict)
  {
    map a | a in dict :: rows[dict[a]].vector
  }

  function HitOf(row: Row, metric: Metric, q: Vector): Cand {
    Cand(metric(q, row.vector), row.externalLabel)
  }

  /** The hits of the first n rows. */
  ghost function HitsOf(rows: seq<Row>, metric: Metric, q: Vector, n: nat): set<Cand>
    requires n <= |rows|
  {
    set i | 0 <= i < n :: HitOf(rows[i], metric, q)
  }

  ghost predicate DistinctLabels(rows: seq<Row>) {
    forall i, j :: 0 <= i < j < |rows| ==> rows[i].externalLabel != rows[j].externalLabel
  }

  lemma HitsOfExtends(rows: seq<Row>, metric: Metric, q: Vector, n: nat)
    requires n < |rows| && DistinctLabels(rows)
    ensures HitsOf(rows, metric, q, n + 1) == HitsOf(rows, metric, q, n) + {HitOf(rows[n], metric, q)}
    ensures HitOf(rows[n], metric, q) !in HitsOf(rows, metric, q, n)
  {
  }

  lemma HitsOfContentsOf(rows: seq<Row>, dict: map<Label, nat>, metric: Metric, q: Vector)
    requires RowsOk(rows, dict)
    ensures HitsOf(rows, metric, q, |rows|) == AllHits(ContentsOf(rows, dict), metric, q)
    ensures DistinctLabels(rows)
  {
    var hits, all := HitsOf(rows, metric, q, |rows|), AllHits(ContentsOf(rows, dict), metric, q);
    forall h | h in all
      ensures h in hits
    {
      assert h == HitOf(rows[dict[h.id]], metric, q);
    }
    forall h | h in hits
      ensures h in all
    {
      var i :| 0 <= i < |rows| && h == HitOf(rows[i], metric, q);
      assert rows[i].externalLabel in ContentsOf(rows, dict);
    }
  }

  /** Of `all`, the k first in the order of distance and then label: the one exact answer. */
  ghost predicate LexNearest(all: set<Cand>, k: nat, r: set<Cand>) {
    && r <= all
    && |r| == (if |all| < k then |all| else k)
    && forall a, b :: a in r && b in all - r ==> LexLess(a, b)
  }

  lemma LexNearestIsKNearest(all: set<Cand>, k: nat, r: set<Cand>)
    requires LexNearest(all, k, r)
    ensures KNearest(all, k, r)
  {
    assert forall a, b :: LexLess(a, b) ==> a.dist <= b.dist;
  }

  lemma RowReplaced(rows: seq<Row>, dict: map<Label, nat>, a: Label, v: Vector)
    requires RowsOk(rows, dict) && a in dict
    ensures RowsOk(rows[dict[a] := Row(a, v)], dict)
    ensures ContentsOf(rows[dict[a] := Row(a, v)], dict) == ContentsOf(rows, dict)[a := v]
  {
  }

  lemma RowAppended(rows: seq<Row>, dict: map<Label, nat>, a: Label, v: Vector)
    requires RowsOk(rows, dict) && a !in dict
    ensures RowsOk(rows + [Row(a, v)], dict[a := |rows|])
    ensures ContentsOf(rows + [Row(a, v)], dict[a := |rows|]) == ContentsOf(rows, dict)[a := v]
  {
    assert forall i :: 0 <= i < |rows| ==> rows[i].externalLabel != a;
  }

  class BruteforceSearch {
    const metric: Metric
    const data: array<Row>
    var count: nat
    var dict: map<Label, nat>

    ghost predicate Valid()
      reads this, data
    {
      count <= data.Length && RowsOk(data[..count], dict)
    }

    ghost function Contents(): map<Label, Vector>
      reads this, data
      requires Valid()
    {
      ContentsOf(data[..count], dict)
    }

    constructor (metric: Metric, maxElements: nat)
      ensures Valid() && Contents() == map[] && data.Length == maxElements && fresh(data)
      ensures this.metric == metric
    {
      this.metric := metric;
      data := new Row[maxElements];
      count, dict := 0, map[];
    }

    method AddPoint(v: Vector, a: Label) returns (ok: bool)
      requires Valid()
      modifies this, data
      ensures Valid()
      ensures !ok <==> a !in old(Contents()) && old(count) == data.Length
      ensures Contents() == if ok then old(Contents())[a := v] else old(Contents())
    {
      ghost var rows := data[..count];
      var idx;
      if a in dict {
        idx := dict[a];
        RowReplaced(rows, dict, a, v);
      } else {
        if count >= data.Length {
          return false;
        }
        idx := count;
        RowAppended(rows, dict, a, v);
        dict := dict[a := idx];
        count := count + 1;
      }
      data[idx] := Row(a, v);
      assert data[..count] == if idx < |rows| then rows[idx := Row(a, v)] else rows + [Row(a, v)];
      ok := true;
    }

    /** The k nearest of everything, with ties broken by label. Asking for more than there is is an assertion
        failure in the source. */
    method SearchKnn(q: Vector, k: nat) returns (top: set<Cand>)
      requires Valid() && k <= count
      ensures LexNearest(AllHits(Contents(), metric, q), k, top)
    {
      HitsOfContentsOf(data[..count], dict, metric, q);
      top := Scan(data[..count], metric, q, k);
    }
  }

  method Scan(rows: seq<Row>, metric: Metric, q: Vector, k: nat) returns (top: set<Cand>)
    requires k <= |rows| && DistinctLabels(rows)
    ensures LexNearest(HitsOf(rows, metric, q, |rows|), k, top)
  {
    var i := 0;
    top := {};
    while i < k
      invariant 0 <= i <= k && top == HitsOf(rows, metric, q, i) && |top| == i
    {
      HitsOfExtends(rows, metric, q, i);
      top := top + {HitOf(rows[i], metric, q)};
      i := i + 1;
    }
    var last: Dist := FLT_MAX;
    if top != {} {
      var f := Last(top);
      last := f.dist;
    }
    top := ScanRest(rows, metric, q, k, top, last);
  }

  method ScanRest(rows: seq<Row>, metric: Metric, q: Vector, k: nat, first: set<Cand>, firstLast: Dist)
    returns (top: set<Cand>)
    requires k <= |rows| && DistinctLabels(rows)
    requires first == HitsOf(rows, metric, q, k) && |first| == k && IsLastDist(first, firstLast)
    ensures LexNearest(HitsOf(rows, metric, q, |rows|), k, top)
  {
    var last := firstLast;
    top := first;
    ghost var all := first;
    for i := k to |rows|
      invariant all == HitsOf(rows, metric, q, i)
      invariant |all| >= k && LexNearest(all, k, top) && IsLastDist(top, last)
    {
      HitsOfExtends(rows, metric, q, i);
      top, last := ScanRow(HitOf(rows[i], metric, q), all, k, top, last);
      all := all + {HitOf(rows[i], metric, q)};
    }
  }

  ghost predicate IsLastDist(top: set<Cand>, last: Dist) {
    && (top == {} ==> last == FLT_MAX)
    && (top != {} ==> exists f :: IsLast(f, top) && f.dist == last)
  }

  /** One more row of the scan. */
  method ScanRow(c: Cand, ghost all: set<Cand>, k: nat, top: set<Cand>, last: Dist)
    returns (top': set<Cand>, last': Dist)
    requires LexNearest(all, k, top) && c !in all && k <= |all| && IsLastDist(top, last)
    ensures LexNearest(all + {c}, k, top') && IsLastDist(top', last')
  {
    top', last' := top, last;
    if c.dist <= last {
      top' := top' + {c};
      if |top'| > k {
        var f := Last(top');
        top' := top' - {f};
        PushAndPop(c, all, k, top, f);
      }
      if top' != {} {
        var f := Last(top');
        last' := f.dist;
      }
    }
  }

  lemma PushAndPop(c: Cand, all: set<Cand>, k: nat, top: set<Cand>, f: Cand)
    requires LexNearest(all, k, top) && c !in all && k <= |all| && IsLast(f, top + {c})
    ensures LexNearest(all + {c}, k, top + {c} - {f})
  {
    var top' := top + {c} - {f};
    forall a, b | a in top' && b in all + {c} - top'
      ensures LexLess(a, b)
    {
      assert LexLess(a, f);
      if b != f {
        assert b in all - top;
        assert f in top ==> LexLess(f, b);
      }
    }
  }

  /** Over the same contents the graph search and the scan list the same distances, place by place, when the
      graph search starts where every live element can be reached and its beam is as wide as the contents. */
  lemma GraphSearchIsExact(es: Elements, lookup: map<Label, Id>, metric: Metric, q: Vector, ef: nat, k: nat, start: Id,
                           r: set<Cand>, scan: set<Cand>, a: seq<Cand>, b: seq<Cand>)
    requires LookupOk(es, lookup) && start < |es|
    requires GraphKnn(es, metric, q, ef, k, None, start, r) && forall c :: c in r ==> c.id < |es|
    requires LiveFrom(es, None, start) == LiveIds(es) && |Live(es, lookup)| <= (if ef < k then k else ef)
    requires LexNearest(AllHits(Live(es, lookup), metric, q), k, scan)
    requires Ascending(a) && |a| == |Labelled(es, r)| && forall c :: c in a <==> c in Labelled(es, r)
    requires Ascending(b) && |b| == |scan| && forall c :: c in b <==> c in scan
    ensures |a| == |b| && forall i :: 0 <= i < |a| ==> a[i].dist == b[i].dist
  {
    var all := AllHits(Live(es, lookup), metric, q);
    HitsOfContents(es, lookup, metric, q, ef, k, start, r);
    LexNearestIsKNearest(all, k, scan);
    KNearestUpToTies(all, k, Labelled(es, r), scan);
    forall i | 0 <= i < |a|
      ensures a[i].dist == b[i].dist
    {
      SameDistances(a, b, Labelled(es, r), scan, i);
    }
  }
}
