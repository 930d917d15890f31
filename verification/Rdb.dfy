/** Saving a vector store to the snapshot stream and loading it back. */
module Rdb {
  import opened Space
  import opened VectorStores

  /** One value of the stream. A configuration is dumped and parsed as a whole; JSON is not modelled. */
  datatype Item = Str(s: string) | Num(n: nat) | Flt(f: real) | Config(c: Conf)

  datatype Header = Header(kind: string, conf: Conf, llm: string, idIdx: nat, dim: nat, size: nat)

  datatype Entry = Entry(id: Label, text: string, vec: Vector)

  function HeaderItems(h: Header): seq<Item> {
    [Str(h.kind), Config(h.conf), Str(h.llm), Num(h.idIdx), Num(h.dim), Num(h.size)]
  }

  function Floats(v: Vector): (r: seq<Item>)
    ensures |r| == |v| && forall i :: 0 <= i < |v| ==> r[i] == Flt(v[i])
  {
    seq(|v|, i requires 0 <= i < |v| => Flt(v[i]))
  }

  function EntryItems(e: Entry): seq<Item> {
    [Num(e.id), Str(e.text)] + Floats(e.vec)
  }

  function EntriesItems(entries: seq<Entry>): seq<Item> {
    if entries == [] then [] else EntryItems(entries[0]) + EntriesItems(entries[1..])
  }

  lemma {:induction false} EntriesItemsSnoc(entries: seq<Entry>, e: Entry)
    ensures EntriesItems(entries + [e]) == EntriesItems(entries) + EntryItems(e)
  {
    if entries == [] {
      assert EntriesItems([e]) == EntryItems(e) + EntriesItems([]);
    } else {
      EntriesItemsSnoc(entries[1..], e);
      assert (entries + [e])[1..] == entries[1..] + [e];
    }
  }

  ghost predicate DistinctEntries(entries: seq<Entry>) {
    forall i, j :: 0 <= i < j < |entries| ==> entries[i].id != entries[j].id
  }

  /** The entries list a store's ids once each, with its texts and embeddings, in any order. */
  ghost predicate Lists(entries: seq<Entry>, texts: map<Label, string>, vecs: map<Label, Vector>) {
    && DistinctEntries(entries)
    && (forall e :: e in entries ==> e.id in texts && texts[e.id] == e.text && e.id in vecs && vecs[e.id] == e.vec)
    && (forall a :: a in texts || a in vecs ==> exists e :: e in entries && e.id == a)
  }

  method SaveVector(v: Vector) returns (out: seq<Item>)
    ensures out == Floats(v)
  {
    out := [];
    for i := 0 to |v|
      invariant out == Floats(v[..i])
    {
      out := out + [Flt(v[i])];
    }
    assert v[..|v|] == v;
  }

  ghost predicate IsEntry(store: VectorStore, e: Entry)
    reads store, store.Footprint()
    requires store.Valid()
  {
    && e.id in store.dataStore && e.text == store.dataStore[e.id]
    && e.vec == store.Embeddings()[e.id] && |e.vec| == store.dim
  }

  ghost function EntryOf(store: VectorStore, id: Label): (e: Entry)
    reads store, store.Footprint()
    requires store.Valid() && id in store.dataStore
  {
    Entry(id, store.dataStore[id], store.Embeddings()[id])
  }

  lemma EntryOfIsEntry(store: VectorStore, id: Label)
    requires store.Valid() && id in store.dataStore
    ensures IsEntry(store, EntryOf(store, id))
  {
  }

  method SaveEntry(store: VectorStore, id: Label) returns (out: seq<Item>)
    requires store.Valid() && id in store.dataStore
    ensures out == EntryItems(EntryOf(store, id))
  {
    var vec := store.Get(id);
    assert vec.Some?; // the source's question whether this may be empty
    var floats := SaveVector(vec.value);
    out := [Num(id), Str(store.dataStore[id])] + floats;
  }

  ghost predicate Saved(store: VectorStore, entries: seq<Entry>, rest: set<Label>)
    reads store, store.Footprint()
  {
    && store.Valid() && rest <= store.dataStore.Keys
    && |entries| + |rest| == |store.dataStore|
    && DistinctEntries(entries)
    && (forall e :: e in entries ==> IsEntry(store, e) && e.id !in rest)
    && (forall a :: a in store.dataStore && a !in rest ==> exists e :: e in entries && e.id == a)
  }

  lemma SavedOne(store: VectorStore, entries: seq<Entry>, rest: set<Label>, e: Entry)
    requires Saved(store, entries, rest) && IsEntry(store, e) && e.id in rest
    ensures Saved(store, entries + [e], rest - {e.id})
  {
    forall a | a in store.dataStore && a !in rest - {e.id}
      ensures exists d :: d in entries + [e] && d.id == a
    {
      if a == e.id {
        assert e in entries + [e];
      } else {
        var d :| d in entries && d.id == a;
        assert d in entries + [e];
      }
    }
  }

  /** The stream is the header and the entries of the store, each once. */
  ghost predicate IsDump(store: VectorStore, out: seq<Item>, entries: seq<Entry>)
    reads store, store.Footprint()
    requires store.Valid()
  {
    && Lists(entries, store.dataStore, store.Embeddings())
    && |entries| == |store.dataStore| && (forall e :: e in entries ==> |e.vec| == store.dim)
    && out == HeaderItems(Header(store.kind, store.conf, store.llm, store.idIdx, store.dim, |entries|))
              + EntriesItems(entries)
  }

  /** `rdb_save_vector_store`. The order of the map is left open. */
  method Save(store: VectorStore) returns (out: seq<Item>)
    requires store.Valid()
    ensures exists entries :: IsDump(store, out, entries)
  {
    var head := HeaderItems(Header(store.kind, store.conf, store.llm, store.idIdx, store.dim, |store.dataStore|));
    var body: seq<Item> := [];
    ghost var entries: seq<Entry> := [];
    var rest := store.dataStore.Keys;
    while rest != {}
      invariant Saved(store, entries, rest) && body == EntriesItems(entries)
      decreases rest
    {
      var id :| id in rest;
      var items := SaveEntry(store, id);
      ghost var e := EntryOf(store, id);
      EntryOfIsEntry(store, id);
      EntriesItemsSnoc(entries, e);
      SavedOne(store, entries, rest, e);
      body, entries, rest := body + items, entries + [e], rest - {id};
    }
    out := head + body;
    assert IsDump(store, out, entries);
  }

  /** What is written first, and how an entry is written: its id, its text and its embedding. */
  lemma StreamFormat(store: VectorStore, out: seq<Item>, entries: seq<Entry>)
    requires store.Valid() && IsDump(store, out, entries)
    ensures |out| >= 6 && out[0] == Str("hnsw") && out[1] == Config(store.conf) && out[2] == Str(store.llm)
    ensures out[3] == Num(store.idIdx) && out[4] == Num(store.dim) && out[5] == Num(|store.dataStore|)
    ensures entries != [] ==>
              var v := entries[0].vec;
              && |out| >= 8 + |v| && out[6] == Num(entries[0].id) && out[7] == Str(entries[0].text)
              && (forall i :: 0 <= i < |v| ==> out[8 + i] == Flt(v[i]))
              && out[8 + |v|..] == EntriesItems(entries[1..])
  {
    if entries != [] {
      var e := entries[0];
      assert EntriesItems(entries) == [Num(e.id), Str(e.text)] + Floats(e.vec) + EntriesItems(entries[1..]);
    }
  }

  // ---------- Loading ----------

  method LoadVector(items: seq<Item>, pos: nat, dim: nat, ghost v: Vector) returns (r: Vector)
    requires |v| == dim && pos + dim <= |items| && items[pos..pos + dim] == Floats(v)
    ensures r == v
  {
    r := [];
    for i := 0 to dim
      invariant r == v[..i]
    {
      assert items[pos..pos + dim][i] == items[pos + i] == Flt(v[i]);
      r := r + [items[pos + i].f];
    }
  }

  /** A stream that a save of some store can have written. */
  ghost predicate Savable(h: Header, entries: seq<Entry>) {
    && h.kind == "hnsw" && h.conf.m > 0 && h.idIdx < ID_LIMIT
    && h.size == |entries| <= h.conf.maxElements
    && DistinctEntries(entries)
    && forall e :: e in entries ==> |e.vec| == h.dim > 0
  }

  method LoadEntry(items: seq<Item>, pos: nat, dim: nat, ghost entries: seq<Entry>, ghost i: nat)
    returns (e: Entry, next: nat)
    requires i < |entries| && pos <= |items| && items[pos..] == EntriesItems(entries[i..])
    requires |entries[i].vec| == dim
    ensures e == entries[i] && pos <= next <= |items| && items[next..] == EntriesItems(entries[i + 1..])
  {
    ghost var rest := EntriesItems(entries[i + 1..]);
    assert entries[i..][0] == entries[i] && entries[i..][1..] == entries[i + 1..];
    assert items[pos..] == [Num(entries[i].id), Str(entries[i].text)] + Floats(entries[i].vec) + rest;
    assert items[pos..][0] == items[pos] && items[pos..][1] == items[pos + 1];
    assert items[pos + 2..pos + 2 + dim] == items[pos..][2..2 + dim] == Floats(entries[i].vec);
    assert items[pos + 2 + dim..] == items[pos..][2 + dim..] == rest;
    var vec := LoadVector(items, pos + 2, dim, entries[i].vec);
    e, next := Entry(items[pos].n, items[pos + 1].s, vec), pos + 2 + dim;
  }

  lemma EntryIsNew(entries: seq<Entry>, i: nat, texts: map<Label, string>, vecs: map<Label, Vector>)
    requires i < |entries| && DistinctEntries(entries) && Lists(entries[..i], texts, vecs)
    ensures entries[i].id !in texts && entries[i].id !in vecs && DistinctEntries(entries[..i + 1])
  {
    forall d | d in entries[..i]
      ensures d.id != entries[i].id
    {
      var j :| 0 <= j < i && entries[..i][j] == d;
      assert entries[j].id != entries[i].id;
    }
  }

  lemma ListsOneMore(entries: seq<Entry>, i: nat, texts: map<Label, string>, vecs: map<Label, Vector>)
    requires i < |entries| && DistinctEntries(entries) && Lists(entries[..i], texts, vecs)
    ensures Lists(entries[..i + 1], texts[entries[i].id := entries[i].text], vecs[entries[i].id := entries[i].vec])
    ensures entries[i].id !in texts && entries[i].id !in vecs
  {
    hide DistinctEntries;
    EntryIsNew(entries, i, texts, vecs);
    var e := entries[i];
    assert entries[..i + 1] == entries[..i] + [e];
    assert e in entries[..i + 1];
    forall a | a in texts || a in vecs
      ensures exists d :: d in entries[..i + 1] && d.id == a
    {
      var d :| d in entries[..i] && d.id == a;
      assert d in entries[..i + 1];
    }
  }

  /** The store after the first i entries were added. */
  ghost predicate Loaded(store: VectorStore, entries: seq<Entry>, i: nat, dim: nat)
    reads store, store.Footprint()
  {
    && store.Valid() && i <= |entries|
    && Lists(entries[..i], store.dataStore, store.Embeddings())
    && store.TombstoneCount() == 0 && store.SlotCount() == i
    && store.dim == (if i == 0 then 0 else dim)
  }

  ghost function IdsUpTo(entries: seq<Entry>, n: nat): set<Label>
    requires n <= |entries|
  {
    set j | 0 <= j < n :: entries[j].id
  }

  lemma ListsSize(entries: seq<Entry>, texts: map<Label, string>, vecs: map<Label, Vector>)
    requires Lists(entries, texts, vecs)
    ensures |texts| == |entries|
  {
    IdsCard(entries, |entries|);
    forall a | a in texts
      ensures a in IdsUpTo(entries, |entries|)
    {
      var e :| e in entries && e.id == a;
    }
    assert texts.Keys == IdsUpTo(entries, |entries|);
  }

  lemma {:induction false} IdsCard(entries: seq<Entry>, n: nat)
    requires DistinctEntries(entries) && n <= |entries|
    ensures |IdsUpTo(entries, n)| == n
  {
    if n > 0 {
      IdsCard(entries, n - 1);
      assert entries[n - 1].id !in IdsUpTo(entries, n - 1);
      assert IdsUpTo(entries, n) == IdsUpTo(entries, n - 1) + {entries[n - 1].id};
    }
  }

  method LoadOne(store: VectorStore, e: Entry, level: nat, ghost entries: seq<Entry>, ghost i: nat, ghost dim: nat)
    requires i < |entries| && Loaded(store, entries, i, dim) && e == entries[i]
    requires DistinctEntries(entries) && |entries| <= store.conf.maxElements && |e.vec| == dim > 0
    modifies store`dataStore, store`dim, store`hnsw, store.Footprint()
    ensures fresh(store.Footprint() - old(store.Footprint()))
    ensures Loaded(store, entries, i + 1, dim)
  {
    ListsOneMore(entries, i, store.dataStore, store.Embeddings());
    assert !store.NoRoomFor(e.id);
    var r := store.Add(e.id, e.text, e.vec, level);
    ListsSize(entries[..i + 1], store.dataStore, store.Embeddings());
    store.SizeIsSlotsMinusTombstones();
  }

  lemma NothingLoaded(store: VectorStore, entries: seq<Entry>, dim: nat)
    requires store.Valid() && store.hnsw == null && store.dataStore == map[]
    ensures Loaded(store, entries, 0, dim)
  {
    assert entries[..0] == [];
  }

  /** Both `rdb_load_vector_store`: a new store, the counter set, the entries added. `level` draws the levels. */
  method Load(items: seq<Item>, metric: Metric, level: nat -> nat, ghost h: Header, ghost entries: seq<Entry>)
    returns (store: VectorStore)
    requires Savable(h, entries) && items == HeaderItems(h) + EntriesItems(entries)
    ensures fresh(store) && fresh(store.Footprint()) && store.Valid()
    ensures store.metric == metric && store.kind == h.kind && store.conf == h.conf && store.llm == h.llm
    ensures store.idIdx == h.idIdx
    ensures Loaded(store, entries, |entries|, h.dim)
  {
    hide Loaded, EntriesItems;
    var hd := items[..6];
    assert hd == HeaderItems(h);
    store := new VectorStore(metric, hd[1].c, hd[2].s);
    store.idIdx := hd[3].n;
    assert items[6..] == EntriesItems(entries);
    NothingLoaded(store, entries, h.dim);
    LoadEntries(store, items, 6, hd[4].n, hd[5].n, level, entries);
    AllLoaded(store, entries, h.dim);
  }

  method LoadEntries(store: VectorStore, items: seq<Item>, start: nat, dim: nat, size: nat, level: nat -> nat,
                     ghost entries: seq<Entry>)
    requires |entries| == size <= store.conf.maxElements && DistinctEntries(entries)
    requires forall e :: e in entries ==> |e.vec| == dim > 0
    requires start <= |items| && items[start..] == EntriesItems(entries)
    requires Loaded(store, entries, 0, dim)
    modifies store`dataStore, store`dim, store`hnsw, store.Footprint()
    ensures fresh(store.Footprint() - old(store.Footprint()))
    ensures Loaded(store, entries, size, dim)
  {
    hide Loaded, EntriesItems;
    assert entries[0..] == entries;
    var pos: nat, i: nat := start, 0;
    while i < size
      invariant 0 <= i <= size && pos <= |items| && items[pos..] == EntriesItems(entries[i..])
      invariant fresh(store.Footprint() - old(store.Footprint())) && Loaded(store, entries, i, dim)
    {
      var e;
      e, pos := LoadEntry(items, pos, dim, entries, i);
      LoadOne(store, e, level(i), entries, i, dim);
      i := i + 1;
    }
  }

  lemma ListsDetermine(entries: seq<Entry>, texts: map<Label, string>, vecs: map<Label, Vector>,
                       texts': map<Label, string>, vecs': map<Label, Vector>)
    requires Lists(entries, texts, vecs) && Lists(entries, texts', vecs')
    ensures texts == texts' && vecs == vecs'
  {
    forall a | a in texts || a in texts' || a in vecs || a in vecs'
      ensures a in texts && a in texts' && texts[a] == texts'[a]
      ensures a in vecs && a in vecs' && vecs[a] == vecs'[a]
    {
      var e :| e in entries && e.id == a;
    }
  }

  /** The round trip, whatever order the map was saved in and whatever levels the new elements draw. The
      dimension of a store that has been emptied is not restored: the next embedding fixes it anew. */
  method RoundTrip(store: VectorStore, level: nat -> nat) returns (loaded: VectorStore)
    requires store.Valid()
    ensures loaded.Valid() && fresh(loaded)
    ensures loaded.dataStore == old(store.dataStore) && loaded.Embeddings() == old(store.Embeddings())
    ensures loaded.kind == store.kind && loaded.conf == store.conf && loaded.llm == store.llm
    ensures loaded.idIdx == old(store.idIdx) && loaded.TombstoneCount() == 0
    ensures loaded.dim == if old(store.dataStore) == map[] then 0 else old(store.dim)
  {
    hide Lists, Loaded, EntriesItems;
    ghost var texts, vecs := store.dataStore, store.Embeddings();
    var items := Save(store);
    ghost var entries :| IsDump(store, items, entries);
    ghost var h := Header(store.kind, store.conf, store.llm, store.idIdx, store.dim, |entries|);
    SavedIsSavable(store, entries, h);
    loaded := Load(items, store.metric, level, h, entries);
    AllLoaded(loaded, entries, h.dim);
    ListsDetermine(entries, texts, vecs, loaded.dataStore, loaded.Embeddings());
  }

  /** The store cannot outgrow the capacity it was made with, so the load stays within it. */
  lemma SavedIsSavable(store: VectorStore, entries: seq<Entry>, h: Header)
    requires store.Valid() && Lists(entries, store.dataStore, store.Embeddings())
    requires |entries| == |store.dataStore| && forall e :: e in entries ==> |e.vec| == store.dim
    requires h == Header(store.kind, store.conf, store.llm, store.idIdx, store.dim, |entries|)
    ensures Savable(h, entries)
  {
    store.SizeIsSlotsMinusTombstones();
    forall e | e in entries
      ensures store.dim > 0
    {
      assert e.id in store.Embeddings();
    }
  }

  lemma AllLoaded(store: VectorStore, entries: seq<Entry>, dim: nat)
    requires Loaded(store, entries, |entries|, dim)
    ensures store.Valid() && Lists(entries, store.dataStore, store.Embeddings())
    ensures store.TombstoneCount() == 0 && store.dim == if |entries| == 0 then 0 else dim
  {
    assert entries[..|entries|] == entries;
  }
}
