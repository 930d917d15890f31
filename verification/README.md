# redis-llm in Dafny

redis-llm is a Redis module that stores texts with their embeddings, finds the nearest ones, and talks to language
models with prompts and chat histories. This project models its three hard cores and proves what they are for.

**The HNSW index and the stores above it.** `Space`, `Candidates` and `Graph` hold the vocabulary: a layered graph of
elements, and what makes it well formed. `VisitedLists` is the 16-bit epoch tagging under every search. `Neighbours`
selects links, `BeamSearch` and `GreedyWalk` search, `Linking`, `Insertion` and `Updating` build and repair, `Knn` says
what k nearest neighbours are. `HnswIndex` is the index object, `BruteForce` the plain scan it is compared with,
`VectorStores` the store that keeps a map beside the index, `Rdb` its way to the Redis database file and back.
`Bytes`, `ByteLayout` and `GraphMemory` are the memory the graph lies in, `IndexFile` is the index's own file, and
`TrappedIndex` an example.

- Every operation keeps the graph well formed: ids in range, no self-links and no duplicates, bounded lists, links of a
  layer only to elements of the layer, the entry point on the top layer. The errors by which the source guards against a
  corrupt graph stand as assertions that they cannot occur: those about levels, lists and ids in the graph modules,
  those about memory that should be zero in `GraphMemory`, where whole insertions are written to memory.
- A search that returns fewer than `ef` elements has found all that can be reached; a full one has left out nothing
  nearer next to its results; a wide enough one gives the same distances as the plain scan.
- Map and index of a store agree in every reachable state. The question the source leaves open at
  `src/sw/redis-llm/redis_llm.cpp:515` (can an id have no vector) is answered: no.
- An insertion has no defined result in one case, and exactly then (`Insertion.Stuck`): the entry point is live, the new
  element is below the top layer, and the walk down to its layer ends where only tombstones can be reached, so that
  `selectedNeighbors.back()` is read from an empty list (`deps/hnswlib/hnswalg.h:463`). `TrappedIndex` brings an index
  there with eight calls.

**The inja template engine.** `ExpressionParser` is the operator-precedence parser with its two stacks,
`StatementParser` and `TemplateParser` the statement parser, as functions and as the object that moves pointers and
appends in place; `TemplateTrees` says when nodes in memory are a tree, and `TemplateRoundTrip` proves that parsing
what was printed builds that tree. `ExpressionReading` and `TemplateAcceptance` say of all inputs which are accepted, and
what becomes of them. `ExpressionEvaluator` is the stack machine that evaluates expressions, proved to
refine a recursive, short-circuit evaluation.

- The round trip of expressions covers prefix `not`: it is printed in parentheses where an operator that binds no weaker
  stands before it. A pair of parentheses that is printed around an operand cannot be left out: another expression, or
  none, would be read.
- Operands and operators that alternate are read as they are written if and only if no `not` stands behind an operator
  that binds no less tightly. Otherwise `not` takes away the operand the operator is waiting for: `a * not b` is refused,
  and `a + b * not c` is read as `(a * b) + (not c)`. Operators behind their operands are accepted too; what is accepted
  always contains all operands, in order, and all operators.
- A template is accepted if and only if each tag is well formed, closing tags and `else` never outrun their openings,
  block names are distinct, and conditions and loops are closed. Named blocks need not be closed, and statements may
  overlap. For tags that fit one stack the pointer returns to where it was; an overlap may leave it elsewhere.
- Which operator takes an operand, and what each operator gives, is stated for the operators one by one, without the
  table of precedences and the function that computes.
- The empty string is true in a condition, since the JSON library says of no string that it is empty.
- A value depends on the variables of its expression only, but for `exists`, which reads the data.

**Three state machines.** `WorkerPools` and `HttpPools` are interleavings of the steps of all threads, with the critical
sections as methods beside them; `ChatHistories` is the sliding window with its batches, under arbitrary failures.

- The worker pool loses no wake-up, and its destructor ends, by its notifications alone. `enqueue` does not look at
  `_quit`; a task that was accepted is run, stop or no stop, if and only if some worker had not exited by then.
- A fetch fails for lack of a client only after its wait, with the pool empty, and its caller is then free again.
- `reconnect` does not renew the time of creation, so a client that has outlived `connection_lifetime` is reconnected at
  every later fetch, however young its connection is.
- The window of a chat holds the latest messages of the calls that returned, whatever failed in between.

Conventions. A `std::priority_queue` is a set of candidates, and which of several equal ones is popped is left open.
`assert` in a method body with the text of an error of the source marks the place where that error cannot occur. The
level of a new element, the clock, the success of a request or of a summary are parameters. `hide` keeps definitions
away from proofs that do not need them.

Where comments and code of the source differ, the code is followed: the tombstone is the lowest bit of the third byte of
an element's slot, although the comment at `deps/hnswlib/hnswalg.h:844-846` speaks of the first 16 bits.

## Model

| member | source | states |
|---|---|---|
| VisitedLists.VisitedList.constructor | deps/hnswlib/visited_list_pool.h:16-20 | Whatever the fresh array holds, the list is valid: no slot is ahead of the epoch 65535. |
| VisitedLists.VisitedList.Reset | deps/hnswlib/visited_list_pool.h:22-28 | After a reset the marked set is empty, at the first use and at every wrap-around of the 16-bit epoch. |
| VisitedLists.VisitedList.Mark | deps/hnswlib/hnswalg.h:350-351 | The marked set grows by that one element. |
| VisitedLists.VisitedListPool.constructor | deps/hnswlib/visited_list_pool.h:44-48 | The pool starts with the given number of lists, none lent. |
| VisitedLists.VisitedListPool.GetFreeVisitedList | deps/hnswlib/visited_list_pool.h:50-63 | The borrower gets an empty set that nobody else holds; the marks of other borrowers are untouched; a list is lent or pooled, never both. |
| VisitedLists.VisitedListPool.ReleaseVisitedList | deps/hnswlib/visited_list_pool.h:65-68 | The list goes back to the front of the pool and is no longer lent. |
| Graph.SetListKeepsWellFormed | deps/hnswlib/hnswalg.h:465-490 | Replacing one neighbour list by a good one keeps the whole graph well formed. |
| Neighbours.SelectionHoldsNearest | deps/hnswlib/hnswalg.h:382-422 | A selection from a non-empty set of candidates is not empty and holds a nearest candidate. |
| Neighbours.SelectionIsUnique | deps/hnswlib/hnswalg.h:382-422 | The declarative description of a selection has one solution, so the heuristic computes a function of its candidates. |
| Neighbours.IsGood | deps/hnswlib/hnswalg.h:402-413 | A candidate passes if and only if no kept point is strictly closer to it than the query is. |
| Neighbours.GetNeighborsByHeuristic2 | deps/hnswlib/hnswalg.h:382-422 | The result is the selection: fewer than M candidates come back unchanged; otherwise at most M are kept, and a candidate is dropped exactly when a kept one blocks it or M nearer ones are kept. |
| BeamSearch.Offer | deps/hnswlib/hnswalg.h:356-376 | The results stay at most `ef`, what is dropped is no closer than what stays, and the bound is the farthest result. |
| BeamSearch.Visit | deps/hnswlib/hnswalg.h:350-377 | Looking at one unvisited neighbour keeps the search invariant. |
| BeamSearch.VisitNeighbour | deps/hnswlib/hnswalg.h:342-378 | A marked neighbour changes nothing; an unmarked one is marked and looked at. |
| BeamSearch.Expand | deps/hnswlib/hnswalg.h:333-378 | After the inner loop all neighbours of the current element are visited and the invariant holds. |
| BeamSearch.Start | deps/hnswlib/hnswalg.h:303-315 | The invariant holds before the loop, whether or not the start is admissible. |
| BeamSearch.ExitTestMeansFull | deps/hnswlib/hnswalg.h:317-323 | The early exit never fires while fewer than `ef` results are held, although the code does not always ask. |
| BeamSearch.ExitIsBeam | deps/hnswlib/hnswalg.h:317-379 | However the loop ends, the results are a beam. |
| BeamSearch.Run | deps/hnswlib/hnswalg.h:317-379 | The main loop ends, and its results are a beam over the marked elements. |
| BeamSearch.SearchLayer | deps/hnswlib/hnswalg.h:294-379 | A layer search returns a beam: visited elements are expanded unless farther than a full beam; what was visited and left out is no closer than the worst result. |
| BeamSearch.SearchWithPool | deps/hnswlib/hnswalg.h:294-379 | The same with a list from the pool, which gets it back; with one search at a time it is always the same list. |
| BeamSearch.ShortBeamIsComplete | deps/hnswlib/hnswalg.h:294-379 | Fewer than `ef` results are exactly all live allowed elements that can be reached from the start. |
| BeamSearch.WideBeamIsComplete | deps/hnswlib/hnswalg.h:294-379 | So are the results when no more than `ef` such elements exist. |
| BeamSearch.EmptyBeamMeansNoTarget | deps/hnswlib/hnswalg.h:211-291 | A layer search comes back empty if and only if it can reach no admissible element. |
| BeamSearch.NearerPathsAreSearched | deps/hnswlib/hnswalg.h:294-379 | An admissible element at the end of a path of elements nearer than the worst result is a result, or no closer than all results. |
| BeamSearch.NeighboursOfResults | deps/hnswlib/hnswalg.h:294-379 | An admissible neighbour of a result that is left out is no closer than any result. |
| GreedyWalk.Pass | deps/hnswlib/hnswalg.h:1199-1214 | One pass over a list ends where the specification says; every id in it is in range, so "cand error" cannot occur. |
| GreedyWalk.WellFormedIsClosed | deps/hnswlib/hnswalg.h:1066-1180 | In a well-formed graph links of a layer lead to elements of that layer only. |
| GreedyWalk.LayerEnd | deps/hnswlib/hnswalg.h:1191-1216 | The walk on a layer stays on elements of the layer, is never farther, and ends with no strictly closer neighbour. |
| GreedyWalk.WalkStopsOnEachLayer | deps/hnswlib/hnswalg.h:1188-1216 | Every layer of a descent is left at a local minimum. |
| GreedyWalk.WalkInParts | deps/hnswlib/hnswalg.h:1191-1216 | A descent can be interrupted at any layer and taken up again. |
| GreedyWalk.WalkEndOfPrefix | deps/hnswlib/hnswalg.h:1126-1152 | An element that is appended, and that nothing links to, does not change where a walk ends. |
| GreedyWalk.WalkLayer | deps/hnswlib/hnswalg.h:1191-1216 | The loop ends, at the element the recursive specification gives. |
| GreedyWalk.WalkDown | deps/hnswlib/hnswalg.h:1188-1216 | The descent ends where the specification says, and leaves every layer at an element with no strictly closer neighbour there. |
| Linking.ConnectBack | deps/hnswlib/hnswalg.h:493-568 | The list of a chosen neighbour is kept, extended or selected anew, and stays good; the size check cannot fail. |
| Linking.CollectNearest | deps/hnswlib/hnswalg.h:947-963 | The bounded queue ends with the nearest of the candidates, in whatever order they are visited. |
| Linking.Relink | deps/hnswlib/hnswalg.h:943-980 | A neighbour of a moved element gets a selection from the nearest of the candidates around it. |
| Linking.ChooseNeighbours | deps/hnswlib/hnswalg.h:445-463 | The chosen neighbours are a selection from the candidates, and the last one popped is a nearest. |
| Linking.LinkBack | deps/hnswlib/hnswalg.h:493-566 | Linking one neighbour back keeps the graph well formed; self-links and missing levels cannot occur. |
| Insertion.MutuallyConnectNewElement | deps/hnswlib/hnswalg.h:445-569 | The element gets a selection as its list, each selected element is linked back in its own way, nothing else changes, and the graph stays well formed. |
| Insertion.AddEntry | deps/hnswlib/hnswalg.h:1161-1165 | A tombstoned entry point joins the candidates; with too many a farthest is dropped. |
| Insertion.SearchBaseLayer | deps/hnswlib/hnswalg.h:211-291 | The construction search is the layer search that reads tombstones and has no filter. |
| Insertion.FindCandidates | deps/hnswlib/hnswalg.h:1154-1165 | There are no candidates exactly when the entry point is live and the search reaches no live element. |
| Insertion.ConnectLayer | deps/hnswlib/hnswalg.h:1155-1167 | One layer of an insertion succeeds exactly when the entry point is tombstoned or a live element can be reached; it then connects the element to a selection of the candidates and goes on from a nearest of them, which is live if the entry point is. |
| Insertion.ConnectLayers | deps/hnswlib/hnswalg.h:1155-1167 | All layers are connected from the top down, each on the graph and from the element the one above has left; only the first can fail, and does exactly when the entry point is live and only tombstones can be reached; "Level error" cannot occur. |
| Insertion.AppendKeepsWellFormed | deps/hnswlib/hnswalg.h:1099-1124 | A new element without links keeps the graph well formed, and nothing links to it. |
| Insertion.StuckNeedsTombstone | deps/hnswlib/hnswalg.h:1126-1166 | An index is stuck only where the walk ends at a tombstone. |
| Insertion.StuckMeansNoneLive | deps/hnswlib/hnswalg.h:1126-1166 | Being stuck is that no live element can be reached from where the walk ends; on the top layer that is the entry point, and cannot happen. |
| Insertion.AppendedIsNotSeen | deps/hnswlib/hnswalg.h:1107-1152 | Neither walk nor reachability change when a blank element is appended. |
| Insertion.WalkToInsertion | deps/hnswlib/hnswalg.h:1126-1152 | The walk does not see the new element: it ends where it would end in the graph before. |
| Insertion.Insert | deps/hnswlib/hnswalg.h:1066-1180 | The insertion has a defined result if and only if the index is not stuck for it, a condition on the state before the call; it then has done what its layers say, and the new element has neighbours on every shared layer; the graph stays well formed and keeps its data in any case. |
| Updating.MoveKeepsWellFormed | deps/hnswlib/hnswalg.h:908-910 | Overwriting a vector keeps the graph well formed. |
| Updating.CollectTwoHops | deps/hnswlib/hnswalg.h:921-941 | The candidates around a moved element are itself, its neighbours and theirs, all on the layer. |
| Updating.RelinkNeighbours | deps/hnswlib/hnswalg.h:920-981 | Every neighbour of the moved element draws a new list, in any order, from what is within two hops in the graph as it was; nothing else changes. |
| Updating.RepairLayer | deps/hnswlib/hnswalg.h:1027-1051 | A layer is reconnected from the search results without the element itself, or left alone if there are none. |
| Updating.RepairConnectionsForUpdate | deps/hnswlib/hnswalg.h:987-1052 | Every layer of the element is repaired, from the top down, starting where the walk ends; the graph stays well formed and its data unchanged; the level error cannot occur. |
| Updating.UpdatePoint | deps/hnswlib/hnswalg.h:908-984 | Layer by layer the neighbours have drawn new lists, and then all layers were repaired; the graph is well formed, and only the vector of that element has changed. |
| Knn.KNearestProfile | deps/hnswlib/hnswalg.h:1183-1236 | How many of k nearest hits lie within a distance is fixed by the points alone. |
| Knn.KNearestUpToTies | deps/hnswlib/hnswalg.h:1183-1236 | Two k-nearest sets of the same points agree up to ties. |
| Knn.NearestFirst | src/sw/redis-llm/hnsw.cpp:52-58 | Emptying the queue and reversing gives each hit once, nearest first, ties by label. |
| Knn.SameDistances | src/sw/redis-llm/hnsw.cpp:52-58 | Two ascending lists with equal profiles have the same distance at every place. |
| Knn.BeamGivesKnn | deps/hnswlib/hnswalg.h:1218-1229 | Cutting a beam down to k keeps its promises; not reading marks when there are no tombstones changes nothing. |
| Knn.SearchKnn | deps/hnswlib/hnswalg.h:1183-1236 | The search of layer 0 starts where the walk from the entry point ends, at a local minimum of layer 1; it gives as many live allowed elements as can be reached, up to k; exactly a k-nearest set of them when the beam is as wide as their number; neighbours of hits that are left out are no closer. |
| HnswIndex.MarkEffect | deps/hnswlib/hnswalg.h:766-799 | Setting a tombstone keeps the state consistent and removes one entry of the contents. |
| HnswIndex.UnmarkEffect | deps/hnswlib/hnswalg.h:808-842 | Clearing a tombstone keeps the state consistent and brings the old entry back. |
| HnswIndex.MoveEffect | deps/hnswlib/hnswalg.h:1073-1088 | An update keeps the state consistent and changes one entry. |
| HnswIndex.AppendEffect | deps/hnswlib/hnswalg.h:1090-1180 | An insertion keeps label table, entry point and top level consistent and adds one entry. |
| HnswIndex.LiveCount | deps/hnswlib/hnswalg.h:203-209 | The number of live entries is the element count minus the tombstone count. |
| HnswIndex.HierarchicalNSW.constructor | deps/hnswlib/hnswalg.h:88-136 | A new index is consistent and empty, with construction width at least M and search width 10. |
| HnswIndex.HierarchicalNSW.MarkDelete | deps/hnswlib/hnswalg.h:766-799 | Done, already deleted or unknown, told apart by the contents; the contents lose that label. |
| HnswIndex.HierarchicalNSW.UnmarkDelete | deps/hnswlib/hnswalg.h:808-842 | The vector under a tombstoned label comes back; live and unknown labels are refused. |
| HnswIndex.HierarchicalNSW.GetDataByLabel | deps/hnswlib/hnswalg.h:739-760 | The vector of a live label, and nothing else. |
| HnswIndex.HierarchicalNSW.AddPoint | deps/hnswlib/hnswalg.h:1066-1180 | The four outcomes, each exactly in its case of the state before: full for a new label without room, undefined for a new label the index is stuck for, updated for a known label, added otherwise; with the new contents and with what was done to the graph. |
| HnswIndex.HierarchicalNSW.UpdateExisting | deps/hnswlib/hnswalg.h:1073-1088 | A label that is there keeps its slot, loses its tombstone and gets the new vector, by the update of the graph. |
| HnswIndex.HierarchicalNSW.Revive | deps/hnswlib/hnswalg.h:1082-1084 | The tombstone of a known label, if any, is cleared, and nothing else changes. |
| HnswIndex.HierarchicalNSW.InsertPoint | deps/hnswlib/hnswalg.h:1090-1180 | Undefined if and only if the index was stuck for the new element; otherwise the element is in the graph, and is the entry point if its level is the highest. |
| HnswIndex.HierarchicalNSW.SearchKnn | deps/hnswlib/hnswalg.h:1183-1236 | The hits of the graph search, begun where the walk ends, under their labels. |
| HnswIndex.HitsOfContents | deps/hnswlib/hnswalg.h:1183-1236 | Hits are entries of the contents at their true distance, and a k-nearest set of the whole contents when the start reaches every live element and the beam is wide enough. |
| TrappedIndex.SecondInsertion | deps/hnswlib/hnswalg.h:1066-1180 | What the contract of an insertion fixes, worked out: the second graph of the example. |
| TrappedIndex.FourthInsertion | deps/hnswlib/hnswalg.h:1066-1180 | The fourth graph: on layer 0 three elements are reached, two fit the beam, and one of them blocks the other. |
| TrappedIndex.EntryMoved | deps/hnswlib/hnswalg.h:908-1052 | After the deletions, moving the entry point makes its neighbours forget it, and the repair finds nobody to connect it to. |
| TrappedIndex.TrapIsStuck | deps/hnswlib/hnswalg.h:1126-1166 | The graph that is reached is stuck for a new element at 5. |
| TrappedIndex.ReachTheTrap | deps/hnswlib/hnswalg.h:445-463 | Four insertions, three deletions and an update, called on an index with M = 2, after which an insertion has no defined result: it reads the last of an empty list. |
| BruteForce.BruteforceSearch.AddPoint | deps/hnswlib/bruteforce.h:64-83 | Adds or replaces one entry; refused exactly for a new label in a full table. |
| BruteForce.BruteforceSearch.SearchKnn | deps/hnswlib/bruteforce.h:99-129 | The k nearest of all rows, ties broken by label. |
| BruteForce.Scan | deps/hnswlib/bruteforce.h:104-128 | The two loops with their bounded queue compute the k nearest. |
| BruteForce.ScanRow | deps/hnswlib/bruteforce.h:113-127 | A row beyond the last result is skipped and any other pushed, and the queue holds the k nearest of the rows so far. |
| BruteForce.GraphSearchIsExact | deps/hnswlib/bruteforce.h:99-129 | The graph search lists the same distances, place by place, as the plain scan of the same contents, when its start reaches every live element and its beam is as wide as the contents. |
| VectorStores.VectorStore.SizeIsSlotsMinusTombstones | src/sw/redis-llm/vector_store.cpp:43-45 | The map has as many ids as the index has slots less tombstones, and no more than the capacity. |
| VectorStores.VectorStore.constructor | src/sw/redis-llm/hnsw.cpp:22-23 | A new store is empty, without dimension and without index. |
| VectorStores.VectorStore.Add | src/sw/redis-llm/vector_store.cpp:23-48 | Map and index stay in agreement; on success both hold the new entry; each refusal, and the case without a defined result, happens exactly in its case of the state before; refusals leave both sides as they were. |
| VectorStores.VectorStore.AddToIndex | src/sw/redis-llm/vector_store.cpp:43-47 | The map gets its entry exactly when the index has taken the vector. |
| VectorStores.VectorStore.LazilyInit | src/sw/redis-llm/hnsw.cpp:76-81 | The first embedding fixes the dimension and makes an empty index with the options of the store; later ones change nothing. |
| VectorStores.VectorStore.IndexHasOptions | src/sw/redis-llm/hnsw.cpp:76-81 | In every reachable state the index has the metric, capacity, M and construction width of the store, and the search width 10. |
| VectorStores.VectorStore.AddAuto | src/sw/redis-llm/vector_store.cpp:50-53 | The counter advances in 64 bits even when the add is refused, its new value is the id, and the outcomes are those of an add with that id. |
| VectorStores.VectorStore.Rem | src/sw/redis-llm/vector_store.cpp:55-68 | True exactly for a stored id; both sides lose it; the index never refuses. |
| VectorStores.VectorStore.Get | src/sw/redis-llm/vector_store.cpp:70-78 | The last embedding added for a stored id, and nothing for any other. |
| VectorStores.VectorStore.Knn | src/sw/redis-llm/vector_store.cpp:91-99 | Distinct stored ids at their true distance, nearest first, with all that the index promises of its search. |
| VectorStores.HitsAreEntries | src/sw/redis-llm/hnsw.cpp:47-64 | Every id a search returns has data, and none is returned twice. |
| Rdb.Save | src/sw/redis-llm/redis_llm.cpp:500-518 | The stream is the header and every entry once, in whatever order the map is walked; the vector is always there. |
| Rdb.StreamFormat | src/sw/redis-llm/redis_llm.cpp:500-518 | Type, configuration, model, counter, dimension and size come first; an entry is its id, its text and its floats. |
| Rdb.LoadVector | src/sw/redis-llm/redis_llm.cpp:528-536 | The floats come back as they were written. |
| Rdb.ListsOneMore | src/sw/redis-llm/redis_llm.cpp:528-536 | Each entry that is loaded is new to the store. |
| Rdb.Load | src/sw/redis-llm/redis_llm.cpp:559-574 | A new store with the header's settings holds exactly the entries of the stream. |
| Rdb.LoadEntries | src/sw/redis-llm/redis_llm.cpp:528-536 | Every add of the load succeeds; the capacity is never hit. |
| Rdb.ListsDetermine | src/sw/redis-llm/redis_llm.cpp:500-518 | A list of entries determines texts and embeddings. |
| Rdb.SavedIsSavable | src/sw/redis-llm/redis_llm.cpp:500-518 | A store never holds more entries than a load can add. |
| Rdb.RoundTrip | src/sw/redis-llm/redis_llm.cpp:500-574 | Saving and loading gives the same texts, embeddings, type, configuration and counter, no tombstones, and the same dimension unless the store is empty. |
| Bytes.DecodeEncode | deps/hnswlib/hnswalg.h:853-860 | Writing a number into k bytes and reading it keeps it modulo 256 to the k. |
| Bytes.FourBytes | deps/hnswlib/hnswalg.h:853-860 | The lowest byte comes first. |
| Bytes.SliceOfPut | deps/hnswlib/hnswalg.h:171-190 | A write is read back, and does not disturb any range it does not meet. |
| ByteLayout.WriteInSlot | deps/hnswlib/hnswalg.h:425-442 | A write inside the slot of one element changes no other slot. |
| ByteLayout.Offsets | deps/hnswlib/hnswalg.h:113-117 | List, vector and label stand in this order, and their offsets in terms of M and the vector size. |
| ByteLayout.ListFormat | deps/hnswlib/hnswalg.h:425-442 | Byte by byte: two for the count, the tombstone in the third, four for each link. |
| ByteLayout.RecordFormat | deps/hnswlib/hnswalg.h:171-190 | The vector stands behind the list, the label in the last eight bytes. |
| ByteLayout.WriteCount | deps/hnswlib/hnswalg.h:853-860 | Setting the count leaves the tombstone in the same word, and the links, alone. |
| ByteLayout.WriteMark | deps/hnswlib/hnswalg.h:786-850 | Setting or clearing the tombstone leaves count and links alone. |
| ByteLayout.WriteLink | deps/hnswlib/hnswalg.h:483-490 | Writing link k replaces that link only, inside the block. |
| ByteLayout.WriteData | deps/hnswlib/hnswalg.h:188-190 | Writing the vector leaves links, tombstone and label alone. |
| ByteLayout.WriteLabel | deps/hnswlib/hnswalg.h:171-180 | Writing the label leaves everything else alone. |
| ByteLayout.BlankReadsZero | deps/hnswlib/hnswalg.h:1113-1123 | In a slot that was cleared the first word and every place for a link read zero. |
| ByteLayout.BlankStays | deps/hnswlib/hnswalg.h:1113-1117 | Writing label and vector leaves the list blank. |
| ByteLayout.Block.constructor | deps/hnswlib/hnswalg.h:113-123 | The block has room for all slots; its contents are arbitrary. |
| ByteLayout.Block.WriteField | deps/hnswlib/hnswalg.h:425-442 | In place: a write inside one slot, and no other slot changes. |
| ByteLayout.Block.SetListCount | deps/hnswlib/hnswalg.h:858-860 | In place: the count of one list, cut to 16 bits; links, tombstone and what stands behind stay. |
| ByteLayout.Block.SetMark | deps/hnswlib/hnswalg.h:786-850 | In place: the tombstone of one slot only. |
| ByteLayout.Block.SetLink | deps/hnswlib/hnswalg.h:483-490 | In place: one link of one list only. |
| ByteLayout.Block.WriteList | deps/hnswlib/hnswalg.h:478-490 | In place: a list with its count; where it is blank before, as it is at the first time, the zero word that the source asks for is there. |
| ByteLayout.Block.WriteLinks | deps/hnswlib/hnswalg.h:482-490 | Each place of a list that was blank is still zero when its turn comes. |
| GraphMemory.IndexMemory.constructor | deps/hnswlib/hnswalg.h:113-134 | The blocks of a new index show the empty graph. |
| GraphMemory.IndexMemory.SetNeighbours | deps/hnswlib/hnswalg.h:472-490 | Writing a neighbour list into memory, on any layer, is replacing that list of the graph; every list that is still blank stays blank. |
| GraphMemory.IndexMemory.SetTombstone | deps/hnswlib/hnswalg.h:786-842 | Writing the mark is changing the tombstone of that element of the graph. |
| GraphMemory.IndexMemory.SetVector | deps/hnswlib/hnswalg.h:908-910 | Copying a vector is moving that element of the graph. |
| GraphMemory.IndexMemory.InitSlot | deps/hnswlib/hnswalg.h:1113-1117 | A slot that is cleared and gets label and vector holds them, and a blank list. |
| GraphMemory.IndexMemory.Append | deps/hnswlib/hnswalg.h:1099-1124 | Setting up slot and block of a new element is appending it to the graph, without links and with every list still blank. |
| GraphMemory.IndexMemory.WriteLayer | deps/hnswlib/hnswalg.h:472-560 | One layer of an insertion in memory: the own list is blank when it is written, so neither "should have blank link list" nor "Possible memory corruption" occurs; then the lists of the neighbours. |
| GraphMemory.IndexMemory.WriteInsertion | deps/hnswlib/hnswalg.h:1099-1166 | A whole insertion in memory, with lists blank down to level 0: afterwards memory shows the graph that the insertion computes. |
| GraphMemory.FileKeepsGraph | deps/hnswlib/hnswalg.h:599-735 | An index that is saved and loaded shows the same graph. |
| GraphMemory.LoadedTablesAreOfGraph | deps/hnswlib/hnswalg.h:707-732 | The label table and the tombstone counter that a load computes are those of the graph. |
| IndexFile.SaveIndex | deps/hnswlib/hnswalg.h:599-627 | The loop writes header, level 0 and each upper block after its size. |
| IndexFile.FileFormat | deps/hnswlib/hnswalg.h:603-617 | Each of the thirteen scalars stands at its offset, in four or eight bytes, and level 0 behind them. |
| IndexFile.BlockFormat | deps/hnswlib/hnswalg.h:619-626 | Each block above level 0 stands behind its size in four bytes. |
| IndexFile.WalkSizes | deps/hnswlib/hnswalg.h:668-686 | The walk accepts exactly the files whose sizes lead from the start to the end. |
| IndexFile.WalkStaysInside | deps/hnswlib/hnswalg.h:668-686 | In an accepted file no block reaches past the end, so no read fails. |
| IndexFile.ReadElements | deps/hnswlib/hnswalg.h:709-723 | Levels, blocks and label table as the file determines them. |
| IndexFile.SlotFields | deps/hnswlib/hnswalg.h:171-190 | Label and tombstone that a load reads are those of the slot. |
| IndexFile.DeletedAreCounted | deps/hnswlib/hnswalg.h:727-732 | The counter of tombstones is the number of slots with the mark. |
| IndexFile.FirstIsSigned | deps/hnswlib/hnswalg.h:666-668 | Where the sizes are looked for is computed as a signed number of 64 bits. |
| IndexFile.LoadIndex | deps/hnswlib/hnswalg.h:630-735 | The loader refuses, loads, or reads outside its memory exactly as specified, sizes being computed in 64 bits. |
| IndexFile.ListsReadBack | deps/hnswlib/hnswalg.h:668-723 | Saved blocks pass the walk and are read back. |
| IndexFile.HeaderReadBack | deps/hnswlib/hnswalg.h:603-617 | The thirteen scalars are read back. |
| IndexFile.SavedIsLoaded | deps/hnswlib/hnswalg.h:599-735 | Every saved file is accepted and loaded. |
| IndexFile.CapacityIsAsked | deps/hnswlib/hnswalg.h:645-650 | A load takes the room it is asked for, or that of the file when that is too little. |
| IndexFile.LoadSave | deps/hnswlib/hnswalg.h:599-735 | Loading a saved index restores all of it, if and only if every upper block fits the 32 bits of its size. |
| IndexFile.SmallIndexComesBack | deps/hnswlib/hnswalg.h:599-735 | With lists that fit their 16-bit counts and fewer than 32768 levels every index comes back. |
| IndexFile.HighElementIsCut | deps/hnswlib/hnswalg.h:619-626 | With 32768 levels of 32767 links the block is saved with 0 bytes, and the element comes back without upper levels. |
| IndexFile.LookupIsInverse | deps/hnswlib/hnswalg.h:709-710 | The rebuilt label table is the inverse of the labels in the slots. |
| ExpressionParser.PopOperators | deps/inja/inja.hpp:1732-1736 | The popping loop applies the operators the specification applies. |
| ExpressionParser.ParseExpression | deps/inja/inja.hpp:1555-1781 | The loop with its two stacks computes the recursive specification. |
| ExpressionParser.ParseArguments | deps/inja/inja.hpp:1627-1635 | The argument loop computes its specification, the empty list included. |
| ExpressionParser.PopPending | deps/inja/inja.hpp:1483-1496 | An operator or an end that applies all that waits leaves exactly the expression that was read. |
| ExpressionParser.RunPrint | deps/inja/inja.hpp:1555-1781 | After the tokens of a printed expression, the stacks hold the operators of its right edge and their left operands. |
| ExpressionParser.RunWhole | deps/inja/inja.hpp:1555-1781 | A printed expression before a token that ends expressions is parsed to itself, anywhere in the input. |
| ExpressionParser.ParsePrint | deps/inja/inja.hpp:472-582 | Printing with parentheses only where precedence and associativity ask for them, and parsing, gives the tree back, for all trees, prefix `not` included. |
| ExpressionParser.PrintIsInjective | deps/inja/inja.hpp:472-582 | No two trees are printed alike. |
| ExpressionParser.LeftPairIsNeeded | deps/inja/inja.hpp:1732-1736 | Without the parentheses around a left operand another expression is read, and which one. |
| ExpressionParser.RightPairIsNeeded | deps/inja/inja.hpp:1732-1736 | Without the parentheses around a right operand, or the operand of `not`, another expression is read, and which one, or none. |
| ExpressionParser.TighterTakesOperand | deps/inja/inja.hpp:472-582 | Of two operators from different groups (`and or`; `in` and comparisons; `+ -`; `* / %`; `^`) the one of the later group takes the operand between them, on either side. |
| ExpressionParser.SameLevelTakesOperand | deps/inja/inja.hpp:472-582 | Within a group the operand belongs to the left operator, only powers are read from the right. |
| ExpressionParser.NotTakesOperand | deps/inja/inja.hpp:472-582 | `not a p b` negates a power as a whole, and only the first operand of every other operator. |
| ExpressionParser.AcceptsMisplacedOperators | deps/inja/inja.hpp:1768-1781 | The parser also accepts an operator behind its operands. |
| ExpressionParser.RefusesNotAfterTighter | deps/inja/inja.hpp:1732-1736 | `a op not b` is parsed as meant if `op` is one of the first three groups, and refused otherwise. |
| ExpressionReading.RunIsExecute | deps/inja/inja.hpp:1555-1781 | A level of an expression is parsed by its operands and operators alone, each operand being what its own tokens parse to. |
| ExpressionReading.Unwind | deps/inja/inja.hpp:1732-1736 | Popping wraps the waiting operators around the last operand, without changing what is written and without missing parentheses. |
| ExpressionReading.ReadAsWritten | deps/inja/inja.hpp:1555-1781 | A level is read as the expression that is written there, by the precedence table, if and only if operands and operators alternate and no `not` stands behind an operator that binds no less tightly. |
| ExpressionReading.ReadingIsUnique | deps/inja/inja.hpp:472-582 | There is only one expression that is written that way. |
| ExpressionReading.MisreadsNotAfterTighter | deps/inja/inja.hpp:1732-1736 | `a + b * not c` is accepted and read as `(a * b) + (not c)`, and so for all operators that bind less, and no less, tightly than `not`. |
| ExpressionReading.AcceptedKeepsItems | deps/inja/inja.hpp:1555-1781 | Any accepted level, operators misplaced or not, is read as an expression with all its operands in order and all its operators. |
| StatementParser.IfsKeepOk | deps/inja/inja.hpp:1788-1799 | Opening a condition leaves no dangling pointer, and no `else if` at the bottom of the stack. |
| StatementParser.ElseKeepsOk | deps/inja/inja.hpp:1800-1838 | The loop that drops `else if`s never runs the stack empty. |
| StatementParser.WordsAreNames | deps/inja/inja.hpp:1839-1880 | Every word can be the name of a block or a loop variable, reserved ones too, and no other token can. |
| StatementParser.Loop | deps/inja/inja.hpp:1969-2028 | An accepted input ends with no open condition and no open loop. |
| TemplateParser.Parser.ParseCondition | deps/inja/inja.hpp:1550-1553 | An expression followed by the closing token, or failure. |
| TemplateParser.Parser.ParseStatement | deps/inja/inja.hpp:1783-1967 | The method moves pointers and stacks as the specification does, and fails on the same inputs. |
| TemplateParser.Parser.ParseFor | deps/inja/inja.hpp:1868-1912 | Loops over arrays and objects, as specified. |
| TemplateParser.Parser.LeaveIf | deps/inja/inja.hpp:1824-1838 | Closing a condition goes back to the block around the whole chain. |
| TemplateParser.Parser.ParseInto | deps/inja/inja.hpp:1969-2028 | The main loop computes the specification and accepts the same inputs. |
| TemplateTrees.RepDetermines | deps/inja/inja.hpp:1783-1967 | Nodes represent at most one tree. |
| TemplateTrees.RepFrame | deps/inja/inja.hpp:1783-1967 | A tree that was built is not disturbed by what is built later. |
| TemplateTrees.Build | deps/inja/inja.hpp:1783-1967 | After a whole tree the pointer and all stacks are as before it. |
| TemplateTrees.BuildElse | deps/inja/inja.hpp:1800-1823 | After an `else` part only `else if`s are added to the stack. |
| TemplateTrees.EndIfSettles | deps/inja/inja.hpp:1824-1838 | One `endif` takes the whole chain off the stack. |
| TemplateTrees.BuildRep | deps/inja/inja.hpp:1783-1967 | The nodes the parser has built represent the tree. |
| TemplateRoundTrip.LoopPrint | deps/inja/inja.hpp:1969-2028 | Parsing a printed tree, at any place and from any state, reaches the state built from the tree. |
| TemplateRoundTrip.LoopPrintElse | deps/inja/inja.hpp:1800-1823 | The same for `else` and `else if` parts. |
| TemplateRoundTrip.ParseTemplate | deps/inja/inja.hpp:1969-2028 | Parsing a printed template ends at the root with all three stacks empty and a root block that represents that template and no other. |
| TemplateRoundTrip.UnclosedBlockIsAccepted | deps/inja/inja.hpp:1976-1984 | A template that ends inside a named block is accepted. |
| TemplateRoundTrip.OverlapStates | deps/inja/inja.hpp:1834-1838 | Closing statements follow their own stack, not the order of opening. |
| TemplateRoundTrip.OverlapIsAccepted | deps/inja/inja.hpp:1913-1922 | The four tags of an overlapping loop and condition are read, from any state, up to the token behind them; the stacks are as before and the pointer is inside the condition that was closed. |
| TemplateRoundTrip.OverlapIsATemplate | deps/inja/inja.hpp:1969-2028 | As a whole template they are accepted, with the pointer left at block 1. |
| TemplateAcceptance.StatementIs | deps/inja/inja.hpp:1783-1967 | Reading a statement is reading its tag, which does not depend on what is open, and then its effect. |
| TemplateAcceptance.LoopPlays | deps/inja/inja.hpp:1969-2028 | The parser does nothing but the effects of the tags in their order, and fails where one is malformed or refused, or a condition or loop is open at the end. |
| TemplateAcceptance.EffectTracks | deps/inja/inja.hpp:1783-1967 | The three stacks always hold the statements the tags have left open, each with its first block and the block it returns to. |
| TemplateAcceptance.RefusesWhatDoesNotFit | deps/inja/inja.hpp:1800-1862 | A tag is refused if and only if the tags before it leave nothing open for it, or it is a block whose name is in use. |
| TemplateAcceptance.AcceptedWhenTagsFit | deps/inja/inja.hpp:1969-2028 | An input is accepted if and only if every tag is well formed on its own, closing tags and `else` never outrun their openings, block names are distinct and conditions and loops are all closed; blocks may stay open, as many as have no end. |
| TemplateAcceptance.InnermostIsOneStack | deps/inja/inja.hpp:1824-1838 | Every closing tag and every `else` of tags that fit hits the innermost open statement if and only if a parser with one stack accepts the tags. |
| TemplateAcceptance.NestedReturns | deps/inja/inja.hpp:1824-1922 | Tags that fit one stack leave the pointer where it was, whatever they open and close. |
| TemplateAcceptance.NestedEndsAtRoot | deps/inja/inja.hpp:1969-2028 | An accepted template whose tags fit one stack with nothing left on it ends with the pointer at the root. |
| ExpressionEvaluator.Renderer.Take | deps/inja/inja.hpp:2185-2203 | The stacks always hold enough; of several variables that are not found the last argument is reported. |
| ExpressionEvaluator.Renderer.GetArguments | deps/inja/inja.hpp:2176-2231 | All arguments are evaluated first; both stacks are then as before. |
| ExpressionEvaluator.Renderer.GetOptional | deps/inja/inja.hpp:2379-2381 | A variable that is not found is let pass, and both stacks are as before. |
| ExpressionEvaluator.Renderer.VisitData | deps/inja/inja.hpp:2253-2271 | A variable is resolved as a path into the loop data, the data, or a function; it pushes its value, or a null entry and one name. |
| ExpressionEvaluator.Renderer.VisitLogical | deps/inja/inja.hpp:2279-2284 | `and` and `or` evaluate their second operand only when it matters. |
| ExpressionEvaluator.Renderer.Visit | deps/inja/inja.hpp:2249-2382 | Every visit pushes exactly one entry, the value of the recursive evaluation, and one name for each null entry. |
| ExpressionEvaluator.MemberName | deps/inja/inja.hpp:451-460 | A name with a dot is the path to a member. |
| ExpressionEvaluator.SlashSeparates | deps/inja/inja.hpp:451-460 | A slash separates like a dot. |
| ExpressionEvaluator.LastDotIsDropped | deps/inja/inja.hpp:451-460 | One dot at the end of a name separates nothing. |
| ExpressionEvaluator.ItemsAreNumbered | deps/nlohmann/json.hpp:13895-13930 | A token is an index if and only if it is a number as it is written; the empty token throws, and a number too large for 64 bits. |
| ExpressionEvaluator.UnescapeEscape | deps/inja/inja.hpp:2391-2394 | A name with tildes and slashes, escaped, is read back. |
| ExpressionEvaluator.EscapeUnescape | deps/inja/inja.hpp:2391-2394 | And only escaped names are accepted. |
| ExpressionEvaluator.Find | deps/inja/inja.hpp:2253-2258 | Walking into the data token by token finds what the specification finds. |
| ExpressionEvaluator.Renderer.VisitFunction | deps/inja/inja.hpp:2391-2394 | `exists` looks its name up in the data, loop variables left aside; other functions see their arguments. |
| ExpressionEvaluator.Renderer.EvalExpressionList | deps/inja/inja.hpp:2136-2163 | The result is that of the recursive evaluation, the stacks are empty again, and no stack error is ever raised. |
| ExpressionEvaluator.IntegerOperators | deps/inja/inja.hpp:2323-2346 | Sum, difference and product of integers are integers. |
| ExpressionEvaluator.FloatOperators | deps/inja/inja.hpp:2323-2346 | With a number that is not an integer they are those of real numbers. |
| ExpressionEvaluator.DivisionGivesQuotient | deps/inja/inja.hpp:2347-2353 | Division gives the real number that times the divisor is the dividend, and an error exactly for the divisor 0. |
| ExpressionEvaluator.ModuloGivesRemainder | deps/inja/inja.hpp:2364-2367 | `%` gives the remainder that is smaller than the divisor and has the sign of the dividend; without a defined result for 0. |
| ExpressionEvaluator.OtherOperands | deps/inja/inja.hpp:2323-2353 | Two strings are joined; other operands that are not numbers are refused. |
| ExpressionEvaluator.RelationsGiveTruth | deps/inja/inja.hpp:2292-2322 | Comparisons compare left with right; `in` holds if and only if some item, or member, is equal to the left operand. |
| ExpressionEvaluator.OnlyTheseAreFalse | deps/inja/inja.hpp:2114-2123 | False are null, `false`, zero, and arrays and objects without elements; everything else is true. |
| ExpressionEvaluator.LogicOfValues | deps/inja/inja.hpp:2275-2291 | `not`, `and` and `or` of values are those of their truth. |
| ExpressionEvaluator.LogicIsShort | deps/inja/inja.hpp:2279-2284 | The second operand is not looked at when the first decides. |
| ExpressionEvaluator.LoopVariablesHideData | deps/inja/inja.hpp:2253-2271 | Loop variables hide the data, the data hide functions. |
| ExpressionEvaluator.NotFoundIsUndefined | deps/inja/inja.hpp:2152-2160 | A variable that is reported as not found stands in the expression and is defined nowhere. |
| ExpressionEvaluator.OnlyItsVariablesMatter | deps/inja/inja.hpp:2249-2394 | Evaluation depends on the variables of the expression only, unless it calls `exists`, and then also on which names exist in the data. |
| ExpressionEvaluator.ExistsReadsTheData | deps/inja/inja.hpp:2391-2394 | A call of `exists` has no variables, and differs wherever its name exists in one data and not in the other. |
| ExpressionEvaluator.DeMorgan | deps/inja/inja.hpp:2275-2284 | De Morgan's laws hold with exceptions and missing variables included. |
| ExpressionEvaluator.DefaultIsForVariables | deps/inja/inja.hpp:2379-2382 | `default` takes its second argument only for a bare undefined variable. |
| WorkerPools.StepKeepsInv | src/sw/redis-llm/worker_pool.cpp:38-66 | Every step of every thread keeps the queue bound, first-in first-out order, each task run once, and a wake-up for each task while a worker sleeps. |
| WorkerPools.RunKeepsInv | src/sw/redis-llm/worker_pool.cpp:38-66 | So does every run. |
| WorkerPools.NoLostWakeup | src/sw/redis-llm/worker_pool.h:50-70 | Before the stop, a queued task has a worker that will look at the queue or a notification on its way. |
| WorkerPools.TasksNotify | src/sw/redis-llm/worker_pool.h:57-70 | Each task that is accepted notifies once. |
| WorkerPools.SleepersCanGoOn | src/sw/redis-llm/worker_pool.cpp:38-66 | A notification that is owed can reach any sleeping worker, and the one for the stop reaches all. |
| WorkerPools.ClosedStepShrinks | src/sw/redis-llm/worker_pool.cpp:38-66 | After the stop every step brings the pool nearer to its end. |
| WorkerPools.ClosedCanStep | src/sw/redis-llm/worker_pool.cpp:38-66 | A stopped pool is not stuck before all workers have exited, even if no worker ever wakes up without being notified. |
| WorkerPools.ExitedMeansDrained | src/sw/redis-llm/worker_pool.cpp:28-56 | When all workers have exited, the accepted tasks have been started in order and run once each, but for those accepted when no worker was left, which are still queued; so all have been run if and only if there are none of these. |
| WorkerPools.TaskIsRunUnlessAllExited | src/sw/redis-llm/worker_pool.h:50-70 | A task is run before the last worker exits if and only if some worker had not exited when the task was accepted, stopped or not. |
| WorkerPools.StoppedPoolDrains | src/sw/redis-llm/worker_pool.cpp:28-66 | The destructor ends, whatever is still enqueued meanwhile: the number of steps is bounded, and the pool comes to rest, spurious wake-ups left aside, only with all workers gone and all tasks run but those accepted after that. |
| WorkerPools.LateTaskIsLost | src/sw/redis-llm/worker_pool.h:50-70 | In a pool of any size a task can be accepted that is never run. |
| WorkerPools.WorkerPool.Enqueue | src/sw/redis-llm/worker_pool.h:57-65 | The critical section is the step of the model; refused exactly when the queue is full. |
| WorkerPools.WorkerPool.Turn | src/sw/redis-llm/worker_pool.cpp:41-52 | The critical section of a worker is the step of the model: the oldest task, leave, or wait. |
| WorkerPools.WorkerPool.Stop | src/sw/redis-llm/worker_pool.cpp:58-66 | The critical section of the stop is the step of the model. |
| HttpPools.StepKeepsInv | src/sw/redis-llm/http_client.cpp:239-310 | Every step keeps pooled plus checked-out clients equal to `_used_connections`, within bounds, each client in one place. |
| HttpPools.ClientsAreConserved | src/sw/redis-llm/http_client.cpp:239-310 | So does every interleaving of fetch, release, timeout, failed creation and failed reconnection. |
| HttpPools.FetchedClientsWork | src/sw/redis-llm/http_client.h:162-185 | `fetch` never returns a broken client; only its holder's own failed request breaks it. |
| HttpPools.SleepersHaveReason | src/sw/redis-llm/http_client.cpp:296-310 | A caller sleeps for good only while all allowed connections exist and are in use. |
| HttpPools.RetryDecides | src/sw/redis-llm/http_client.cpp:296-310 | A caller that was woken takes the first pooled client; without one it sleeps on, or, when its wait is over, has failed. |
| HttpPools.StepEndsFetch | src/sw/redis-llm/http_client.cpp:239-310 | A fetch that waited ends without a client in two ways only: its wait is over and the pool is empty, or the client could not reconnect and was put back; it ends with a client exactly when that needs no reconnection or gets one. |
| HttpPools.WaitEndsInTimeout | src/sw/redis-llm/http_client.cpp:296-310 | Over whole runs, a session that slept and is idle again has given up after its wait with the pool empty, or has released a client. |
| HttpPools.TimeoutHasExpired | src/sw/redis-llm/http_client.cpp:296-310 | Nobody times out whose wait has not expired. |
| HttpPools.FailedReconnection | src/sw/redis-llm/http_client.cpp:258-266 | A needed reconnection that fails leaves the client as it was, to be put back. |
| HttpPools.ReleasesNotify | src/sw/redis-llm/http_client.cpp:270-278 | Each release notifies once. |
| HttpPools.SleepersCanGoOn | src/sw/redis-llm/http_client.cpp:296-310 | A notification that is owed can reach any sleeper, and waits expire if a timeout is set. |
| HttpPools.AgeCountsFromCreation | src/sw/redis-llm/http_client.cpp:312-326 | At every later fetch, whatever happened in between, a client needs a reconnection if and only if it is broken or its creation is longer ago than the lifetime. |
| HttpPools.ReconnectionDoesNotRenew | src/sw/redis-llm/http_client.h:75-77 | After a needed reconnection the next one is due by the time of creation; it comes too early if and only if the connection itself is still within the lifetime. |
| HttpPools.ReconnectedTooEarly | src/sw/redis-llm/http_client.cpp:239-268 | The run in which a connection that is 6 of 10 units old is to be replaced. |
| HttpPools.HttpClientPool.FetchClient | src/sw/redis-llm/http_client.cpp:239-256 | The critical section of `fetch` is the step of the model: the first pooled client, a new one while fewer than allowed exist, or sleep. |
| HttpPools.HttpClientPool.RetryFetch | src/sw/redis-llm/http_client.cpp:252-310 | The end of a wait is the step of the model: the first pooled client, or failure after the timeout, or more sleep. |
| HttpPools.HttpClientPool.ReleaseClient | src/sw/redis-llm/http_client.cpp:270-278 | The critical section of `release` is the step of the model. |
| ChatHistories.AddKeepsInv | src/sw/redis-llm/chat_history.cpp:62-73 | One call keeps the accounts: batches then pending messages are all that was offered. |
| ChatHistories.NothingIsLost | src/sw/redis-llm/chat_history.cpp:62-143 | Under arbitrary failures no message is lost or summarised twice, batches have at least `summary_cnt` messages, and the window holds the latest messages whose `add` returned. |
| ChatHistories.UndisturbedBatches | src/sw/redis-llm/chat_history.cpp:126-143 | When every call returns, batch i is exactly the i-th run of `summary_cnt` messages. |
| ChatHistories.WindowIsLastShown | src/sw/redis-llm/chat_history.cpp:62-73 | The window is the last `msg_ctx_cnt` messages of exactly those calls that return, whatever failed before. |
| ChatHistories.DueWhenBatchIsFull | src/sw/redis-llm/chat_history.cpp:126-143 | A summary is due when, with this message, a full batch has come since the last that was summarised. |
| ChatHistories.FailuresAreCounted | src/sw/redis-llm/chat_history.cpp:62-73 | Every call returns or counts as a failure. |
| ChatHistories.FailedMessageIsNotShown | src/sw/redis-llm/chat_history.cpp:62-73 | A failed summary keeps its message out of the window but in the batch, which is due again at once. |
| ChatHistories.ChatHistory.AddMessage | src/sw/redis-llm/chat_history.cpp:62-73 | Returns unless a due summary fails; then, and only then, the message enters the window, which keeps the latest; the model is asked about the pending messages with this one. |
| ChatHistories.ChatHistory.SummarizeIfNeeded | src/sw/redis-llm/chat_history.cpp:126-143 | The pending messages are cleared only after their summary has succeeded. |

## Left out

- VectorStores.VectorStore.Add: after an insertion without a defined result nothing is promised about the store.
- BeamSearch.SearchLayer: the search of the construction and that of a query are one method, since they differ only in layer, width, filter and whether tombstones are read.
- Knn.SearchKnn: exact only with respect to what the start of level 0 can reach; HNSW promises no more.
- Rdb.Load: the stream is one that a store has saved; what a damaged file does is not modelled.
- IndexFile.LoadIndex: a header whose offsets leave the slot is the outcome `Undefined`; the exact reads outside memory are not modelled. The file is given as bytes; opening it is not modelled, and memory that is asked for is there, in the size asked for.
- HttpPools.HttpClientPool.FetchClient: that a caller sleeps is a phase in the result, the wait itself is the steps `Notify`, `Spurious` and `Expire` of the model.
- WorkerPools.WorkerPool.Turn: the same holds for the wait of a worker.
- ChatHistories.NothingIsLost: the prompt, the model's answer and its storing are one success or failure; the summary text is not modelled, and the JSON shape of the messages is not.
- ExpressionEvaluator.Renderer.Visit: 64-bit overflow and floating-point rounding are not modelled; comparisons, `std::pow`, literals and functions other than `default` and `exists` are parameters, and `.name` access, `super` and rendering of statements are not modelled.
- ExpressionParser.ParseExpression: a literal in brackets or braces is one token, and the operator `.` is not modelled.
- ExpressionParser.LeftPairIsNeeded: says of one operator and its operands that its parentheses are needed, not of such an expression inside a larger one; so does ExpressionParser.RightPairIsNeeded.
- TemplateParser.Parser.ParseStatement: `include`, `extends` and `set` are refused here.
- Graph building works on the sequence of elements: each method takes the graph and gives back the changed one, and the index object assigns it to its field. `GraphMemory` proves that the writes to memory are the changes of that sequence; the insertion is written out on memory as the writes that its result asks for, repair and relinking are not.
- Locks of the index: the mutex of the store lets in one call at a time, so operations of the index are modelled one at a time.
- The bound 2M <= 65535 of the 16-bit count is an assumption of `GraphMemory`; the graph itself keeps list lengths as numbers.
- Distances are finite numbers with an order; rounding, NaN and the SIMD kernels are not modelled, nor is anything assumed of the metric. Vectors are read from bytes by a function that is left open.
- The path that reuses tombstoned slots (`allow_replace_deleted_`) is off in redis-llm and is not part of this model.
- `checkIntegrity` and `resizeIndex` are not part of this model; the first asserts that no link has id 0, which is a valid id.
- `BruteforceSearch::removePoint` and filtered plain scans are not part of this model: both misbehave in the source, and redis-llm does not use them.
- Ids that are generated may meet ids that were given; the entry is then overwritten, as in the source.
- JSON configuration, the AOF rewrite, Redis commands, curl and the requests to language models are not part of this model.
- Lexing of templates, and the `loop` variable and scopes of loops while rendering, are not part of this model.
- ExpressionReading.ReadAsWritten: speaks of one level, between parentheses, commas or ends; an operand is whatever its own tokens are parsed to.
