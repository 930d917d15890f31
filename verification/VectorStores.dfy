/**
 The vector store: a plain map from ids to texts beside a lazily made index, `VectorStore` and its one
 subclass `Hnsw`. Every operation runs under one mutex, so they are modelled one at a time.
 */
module VectorStores {
  import opened Space
  import opened Candidates
  import opened Graph
  import opened Insertion
  import opened Knn
  import opened HnswIndex

  datatype AddOutcome =
    | AddedAs(id: Label)
    | EmptyEmbedding      // "invalid embedding: size is 0"
    | DimensionMismatch   // "vector dimension does not match"
    | FailedToSet         // the index is full
    | NoDefinedResult     // the insertion ran into tombstones only, see Insertion.Insert

  const ID_LIMIT := 0x1_0000_0000_0000_0000

  /** The beam of a search is no narrower than this; the store never asks for another width. */
  const SEARCH_WIDTH: nat := 10

  /** The options `Hnsw` reads from its configuration. */
  datatype Conf = Conf(maxElements: nat, m: nat, efConstruction: nat)

  class VectorStore {
    const kind: string
    const conf: Conf
    const llm: string
    const metric: Metric
    var dataStore: map<Label, string>
    var dim: nat
    var idIdx: nat
    var hnsw: HierarchicalNSW?

    ghost function Footprint(): (s: set<object>)
      reads this
    {
      if hnsw == null then {} else {hnsw, hnsw.visited, hnsw.visited.mass}
    }

    ghost predicate IndexOk()
      reads this, Footprint()
    {
      if hnsw == null then dim == 0 else
        && hnsw.Valid() && dim > 0
        && hnsw.metric == metric && hnsw.maxElements == conf.maxElements && hnsw.M == conf.m
        && hnsw.efConstruction == (if conf.efConstruction > conf.m then conf.efConstruction else conf.m)
        && hnsw.ef == SEARCH_WIDTH
        && forall a :: a in hnsw.Contents() ==> |hnsw.Contents()[a]| == dim
    }

    /** The index has the options of the store. */
    lemma IndexHasOptions()
      requires Valid() && hnsw != null
      ensures hnsw.metric == metric && hnsw.maxElements == conf.maxElements && hnsw.M == conf.m && hnsw.ef == 10
      ensures conf.efConstruction >= conf.m ==> hnsw.efConstruction == conf.efConstruction
      ensures conf.efConstruction < conf.m ==> hnsw.efConstruction == conf.m
    {
    }

    /** The vectors the index would give back. */
    ghost function Embeddings(): map<Label, Vector>
      reads this, Footprint()
      requires IndexOk()
    {
      if hnsw == null then map[] else hnsw.Contents()
    }

    /** Map and index agree: an id has a text exactly when its label is in the index and not tombstoned. */
    ghost predicate Valid()
      reads this, Footprint()
    {
      kind == "hnsw" && conf.m > 0 && idIdx < ID_LIMIT && IndexOk() && dataStore.Keys == Embeddings().Keys
    }

    /** Whether the index has no slot for the id. */
    ghost predicate NoRoomFor(id: Label)
      reads this, Footprint()
    {
      if hnsw == null then conf.maxElements == 0 else id !in hnsw.labelLookup && |hnsw.elements| == conf.maxElements
    }

    /** Whether the index would have to connect a new element where only tombstones can be reached. */
    ghost predicate StuckFor(id: Label, embedding: Vector, level: nat)
      reads this, Footprint()
      requires IndexOk()
    {
      && hnsw != null && id !in hnsw.labelLookup && |hnsw.elements| < conf.maxElements
      && hnsw.StuckFor(embedding, level)
    }

    /** How many tombstones the index carries. */
    ghost function TombstoneCount(): nat
      reads this, Footprint()
    {
      if hnsw == null then 0 else hnsw.numDeleted
    }

    ghost function SlotCount(): nat
      reads this, Footprint()
    {
      if hnsw == null then 0 else |hnsw.elements|
    }

    lemma SizeIsSlotsMinusTombstones()
      requires Valid()
      ensures |dataStore| == SlotCount() - TombstoneCount() && SlotCount() <= conf.maxElements
    {
      if hnsw != null {
        LiveCount(hnsw.elements, hnsw.labelLookup);
      } else {
        assert dataStore.Keys == {};
      }
      assert |dataStore| == |dataStore.Keys| == |Embeddings().Keys|;
    }

    constructor (metric: Metric, conf: Conf, llm: string)
      requires conf.m > 0
      ensures Valid() && dataStore == map[] && Embeddings() == map[] && dim == 0 && idIdx == 0 && hnsw == null
      ensures this.metric == metric && this.conf == conf && this.llm == llm && kind == "hnsw"
    {
      kind := "hnsw";
      this.metric, this.conf, this.llm := metric, conf, llm;
      dataStore, dim, idIdx, hnsw := map[], 0, 0, null;
    }

    /** `add` with a given id. `level` is the level drawn for the element if it is new. */
    method Add(id: Label, data: string, embedding: Vector, level: nat) returns (r: AddOutcome)
      requires Valid()
      modifies this`dataStore, this`dim, this`hnsw, Footprint()
      ensures fresh(Footprint() - old(Footprint()))
      ensures !r.NoDefinedResult? ==> Valid()
      ensures r.AddedAs? ==> r.id == id && dataStore == old(dataStore)[id := data]
      ensures r.AddedAs? ==> Embeddings() == old(Embeddings())[id := embedding]
      ensures r.EmptyEmbedding? <==> embedding == []
      ensures r.DimensionMismatch? <==> embedding != [] && old(dim) != 0 && old(dim) != |embedding|
      ensures r.FailedToSet? <==> embedding != [] && (old(dim) == 0 || old(dim) == |embedding|) && old(NoRoomFor(id))
      ensures r.EmptyEmbedding? || r.DimensionMismatch? || r.FailedToSet? ==>
        dataStore == old(dataStore) && Embeddings() == old(Embeddings())
      ensures r.AddedAs? ==> dim == |embedding|
      ensures r.NoDefinedResult? <==> embedding != [] && old(dim) == |embedding| && old(StuckFor(id, embedding, level))
      ensures r.NoDefinedResult? ==> old(TombstoneCount()) > 0
      ensures TombstoneCount() <= old(TombstoneCount())
    {
      hide Stuck, WellFormed, EntryOk, Tombstones, Live;
      if |embedding| == 0 {
        return EmptyEmbedding;
      }
      LazilyInit(|embedding|);
      if dim != |embedding| {
        return DimensionMismatch;
      }
      r := AddToIndex(id, data, embedding, level);
    }

    /** `_add` and the entry in the map; the map is not touched when the index refuses. */
    method AddToIndex(id: Label, data: string, embedding: Vector, level: nat) returns (r: AddOutcome)
      requires Valid() && hnsw != null && dim == |embedding|
      modifies this`dataStore, Footprint()
      ensures Footprint() == old(Footprint()) && (r.AddedAs? || r.FailedToSet? || r.NoDefinedResult?)
      ensures !r.NoDefinedResult? ==> Valid()
      ensures r.AddedAs? ==> r.id == id && dataStore == old(dataStore)[id := data]
      ensures r.AddedAs? ==> Embeddings() == old(Embeddings())[id := embedding]
      ensures r.FailedToSet? <==> old(NoRoomFor(id))
      ensures r.FailedToSet? ==> dataStore == old(dataStore) && Embeddings() == old(Embeddings())
      ensures r.NoDefinedResult? <==> old(StuckFor(id, embedding, level))
      ensures r.NoDefinedResult? ==> old(TombstoneCount()) > 0
      ensures TombstoneCount() <= old(TombstoneCount())
    {
      hide HierarchicalNSW.Valid, HierarchicalNSW.Contents, HierarchicalNSW.StuckFor;
      hide HierarchicalNSW.AddedTo, HierarchicalNSW.UpdatedIn;
      var res;
      ghost var gs, steps;
      res, gs, steps := hnsw.AddPoint(embedding, id, level);
      if res.Full? {
        return FailedToSet;
      }
      if res.Undefined? {
        return NoDefinedResult;
      }
      dataStore := dataStore[id := data];
      r := AddedAs(id);
    }

    /** The first embedding fixes the dimension and makes the index. */
    method LazilyInit(n: nat)
      requires Valid() && n > 0
      modifies this`dim, this`hnsw
      ensures Valid() && fresh(Footprint() - old(Footprint()))
      ensures hnsw != null && dim == (if old(dim) == 0 then n else old(dim))
      ensures old(dim) != 0 ==> hnsw == old(hnsw)
      ensures old(dim) == 0 ==> fresh(hnsw) && hnsw.elements == [] && hnsw.labelLookup == map[]
      ensures Embeddings() == old(Embeddings()) && dataStore == old(dataStore)
      ensures forall id, v, level :: StuckFor(id, v, level) <==> old(StuckFor(id, v, level))
      ensures TombstoneCount() == old(TombstoneCount())
    {
      if dim == 0 {
        dim := n;
        hnsw := new HierarchicalNSW(metric, conf.maxElements, conf.m, conf.efConstruction);
      }
    }

    /** `add` without an id: the counter is advanced first, in 64 bits, and may hit an id that is in use. */
    method AddAuto(data: string, embedding: Vector, level: nat) returns (r: AddOutcome)
      requires Valid()
      modifies this`dataStore, this`dim, this`hnsw, this`idIdx, Footprint()
      ensures fresh(Footprint() - old(Footprint()))
      ensures idIdx == (old(idIdx) + 1) % ID_LIMIT
      ensures r.NoDefinedResult? <==>
        embedding != [] && old(dim) == |embedding| && old(StuckFor((idIdx + 1) % ID_LIMIT, embedding, level))
      ensures r.EmptyEmbedding? <==> embedding == []
      ensures r.DimensionMismatch? <==> embedding != [] && old(dim) != 0 && old(dim) != |embedding|
      ensures r.FailedToSet? <==>
        embedding != [] && (old(dim) == 0 || old(dim) == |embedding|) && old(NoRoomFor((idIdx + 1) % ID_LIMIT))
      ensures !r.NoDefinedResult? ==> Valid()
      ensures r.AddedAs? ==> r.id == idIdx && dataStore == old(dataStore)[idIdx := data]
      ensures r.AddedAs? ==> Embeddings() == old(Embeddings())[idIdx := embedding]
      ensures r.EmptyEmbedding? || r.DimensionMismatch? || r.FailedToSet? ==>
        dataStore == old(dataStore) && Embeddings() == old(Embeddings())
    {
      hide HierarchicalNSW.Valid, HierarchicalNSW.Contents, HierarchicalNSW.StuckFor;
      idIdx := (idIdx + 1) % ID_LIMIT;
      r := Add(idIdx, data, embedding, level);
    }

    /** `rem`. The index never refuses, because the map and the index agree. */
    method Rem(id: Label) returns (found: bool)
      requires Valid()
      modifies this`dataStore, Footprint()
      ensures Valid() && Footprint() == old(Footprint())
      ensures found <==> id in old(dataStore)
      ensures dataStore == old(dataStore) - {id} && Embeddings() == old(Embeddings()) - {id}
    {
      if id !in dataStore {
        return false;
      }
      var res := hnsw.MarkDelete(id);
      assert res == Done; // "failed to delete" cannot occur
      dataStore := dataStore - {id};
      found := true;
    }

    method Get(id: Label) returns (r: Option<Vector>)
      requires Valid()
      ensures r == if id in Embeddings() then Some(Embeddings()[id]) else None
      ensures r.Some? <==> id in dataStore
    {
      if |dataStore| == 0 {
        assert Embeddings().Keys == {};
        return None;
      }
      r := hnsw.GetDataByLabel(id);
    }

    method Data(id: Label) returns (r: Option<string>)
      requires Valid()
      ensures r == if id in dataStore then Some(dataStore[id]) else None
    {
      r := if id in dataStore then Some(dataStore[id]) else None;
    }

    /** `knn`, with a beam of width 10, or `k` if that is more: ids of the store at their true distance, nearest
        first, no id twice. `start` is where the index began its search of layer 0;
        `BruteForce.GraphSearchIsExact` says when the answer is exact. */
    method Knn(q: Vector, k: nat) returns (hits: seq<Cand>, ghost start: Id, ghost r: set<Cand>)
      requires Valid()
      modifies Footprint()
      ensures Valid() && Footprint() == old(Footprint()) && Embeddings() == old(Embeddings())
      ensures Ascending(hits) && forall i, j :: 0 <= i < j < |hits| ==> hits[i].id != hits[j].id
      ensures forall c :: c in hits ==> c.id in dataStore && c.dist == metric(q, Embeddings()[c.id])
      ensures dataStore == map[] ==> hits == []
      ensures dataStore != map[] ==> hnsw != null && hnsw.StartsSearchAt(q, start)
      ensures dataStore != map[] ==>
        hnsw != null && IndexHits(hnsw.elements, metric, q, SEARCH_WIDTH, k, start, r, hits)
    {
      hide GraphKnn, WellFormed;
      if |dataStore| == 0 {
        return [], 0, {};
      }
      assert hnsw.elements != [] by {
        var a :| a in dataStore;
        assert a in hnsw.Contents();
      }
      var found;
      found, start, r := hnsw.SearchKnn(q, k, None);
      hits := NearestFirst(found);
      HitsAreEntries(hnsw.elements, hnsw.labelLookup, metric, q, hnsw.ef, k, start, r, hits);
    }
  }

  /** The reversed output of the queue the index returns. */
  ghost predicate IndexHits(es: Elements, metric: Metric, q: Vector, ef: nat, k: nat, start: Id, r: set<Cand>,
                            hits: seq<Cand>) {
    && start < |es| && GraphKnn(es, metric, q, ef, k, None, start, r)
    && (forall c :: c in r ==> c.id < |es|)
    && |hits| == |Labelled(es, r)| && Ascending(hits)
    && forall c :: c in hits <==> c in Labelled(es, r)
  }

  lemma HitsAreEntries(es: Elements, lookup: map<Label, Id>, metric: Metric, q: Vector, ef: nat, k: nat,
                       start: Id, r: set<Cand>, hits: seq<Cand>)
    requires LookupOk(es, lookup) && IndexHits(es, metric, q, ef, k, start, r, hits)
    ensures forall c :: c in hits ==> c.id in Live(es, lookup) && c.dist == metric(q, Live(es, lookup)[c.id])
    ensures forall i, j :: 0 <= i < j < |hits| ==> hits[i].id != hits[j].id
  {
    HitsOfContents(es, lookup, metric, q, ef, k, start, r);
    forall c | c in hits
      ensures c in AllHits(Live(es, lookup), metric, q)
    {
      assert c in Labelled(es, r);
    }
    forall i, j | 0 <= i < j < |hits|
      ensures hits[i].id != hits[j].id
    {
      assert hits[i] in hits && hits[j] in hits && LexLess(hits[i], hits[j]);
    }
  }
}
