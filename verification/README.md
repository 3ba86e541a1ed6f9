# LatticeDB engine: models and proofs

A Dafny model of the hard parts of the LatticeDB Go engine, with proofs of what they promise:

* **Vector index** (`VectorGraph`, `VectorSearch`, `VectorLinks`, `VectorIndex`, `NodeCache`,
  `Chains`): the layered proximity graph, its greedy and best-first searches, insertion with links
  written before the record, tombstones, re-adding and reset, and the record cache in front of it, a
  linked list and a map to its links.
* **Query execution** (`Numbers`, `Values`, `ValueLaws`, `Ordering`, `TopK`, `DistinctKey`, `Dedup`,
  `Graphs`, `Patterns`, `PatternAnswers`, `PatternExecution`, `PatternResults`, `PatternOrder`,
  `PatternRendering`): value order and equality, ORDER BY through a bounded heap, DISTINCT through a
  canonical key, and pattern matching as a join that scans, adjacency expansions, reordering and seed
  nodes all compute.
* **Protocols** (`Generations`, `GenerationStore`, `TxDelta`, `TxStore`, `VectorRebuild`,
  `GroupCommit`): pinned page generations, change tracking across statement forks, online rebuild
  and group commit, each as a state machine with an invariant over every run, and as classes whose
  methods take its steps. The retained generations are on the linked list of `Chains`.
* **Backup archive** (`BackupArchive`, `BackupStore`): captures, crashes between durable steps,
  reopening, chains and selection by time.
* **Kernels** (`Orders`, `Sums`, `Heaps`, `Sorting`, `StringScan`, `StringFunctions`, `Arithmetic`,
  `EditDistance`, `FullText`, `FullTextSearch`, `Optional`).

`dafny verify dfyconfig.toml` checks everything.

A call that runs out of budget or is cancelled yields no result; contracts speak of the calls that
succeed. Loops over Go maps are loops over a set in any order. Entity ids, commit ids and byte counts
are mathematical integers with their 64-bit limits written out where the code depends on them.
Finite floats are a sign, a significand and an exponent, so every value is an integer number of
units of its format's smallest positive number; distances, the logarithm and rounding of BM25,
lower-casing, hash functions and planner estimates are parameters. SHA-256 digests are modelled by
what they digest.

Two points where the code needs a condition are stated with it. Value equality and key equality
agree exactly on values free of NaN (`DistinctKey.EqualIffSameKey`): the key of a NaN is its bits,
yet a NaN differs from itself, so DISTINCT keeps every row that contains one. Exact indexed full-text
search looks its terms up as they are while the scan lower-cases them. The two read the same
frequencies exactly when the lower-case form of every term is itself a term or in no document
(`FullTextSearch.PostingsSuffice`), which is the precondition of `FullTextSearch.IndexSearch`; a term
with a capital fails it (`FullTextSearch.CapitalIsOverlooked`). The engine gets its terms from the
tokenizer, which lower-cases them (`internal/search/search.go:85-123`).

## Model

| member | source | states |
|---|---|---|
| VectorSearch.Greedy | internal/engine/page_vector.go:87-140 | Greedy descent terminates, cannot fail on a layer whose links stay inside it, and ends at a node no link of which leads closer to the query |
| VectorSearch.ScanLinks | internal/engine/page_vector.go:112-139 | One round over the links of a node either moves strictly closer or certifies a local minimum |
| VectorSearch.Layer | internal/engine/page_vector.go:142-253 | Layer search terminates and returns distinct live non-excluded nodes in order of distance. It starts at the entry, follows every link of each returned node and of each visited node closer than a returned one, and leaves out no visited live node that is strictly closer than a returned one; an answer shorter than ef, or ef at least the live count, means every live node reachable from the entry at that level is returned |
| VectorSearch.Expand | internal/engine/page_vector.go:208-249 | Following all links of one node keeps frontier heap, result heap and visited set consistent, and while the buffer is not full puts every unvisited neighbour on the frontier |
| VectorSearch.LayerDone | internal/engine/page_vector.go:250-253 | When the loop stops, the sorted buffer satisfies the whole result contract of the layer search |
| VectorSearch.Exhausted | internal/engine/page_vector.go:200-250 | If the frontier runs empty before the buffer fills, everything reachable and live is in the buffer |
| VectorLinks.SelectNeighbors | internal/engine/page_vector.go:255-302 | The result is exactly the heuristic's choice: the candidates no earlier choice shadows, then the shadowed ones in candidate order, up to the limit |
| VectorLinks.ChoiceIsSelection | internal/engine/page_vector.go:255-302 | The choice takes as many candidates as there are or as fit the limit, each at most as often as it is offered, and always begins with the nearest |
| VectorLinks.ChoiceIsDiverse | internal/engine/page_vector.go:255-302 | In the diverse part of a choice every candidate is farther from each earlier one than from the base point; every candidate that fills up is not; both parts are in distance order |
| VectorLinks.LeftOut | internal/engine/page_vector.go:255-302 | A candidate left out comes after a full diverse part, or is shadowed by a chosen one and comes after every candidate that fills up |
| VectorIndex.Index.Connect | internal/engine/page_vector.go:304-367 | The graph after linking back is given exactly: only this node's list at this level changes, by appending or by the heuristic's choice among old links and newcomer; degree bounds, no duplicates and no self links are kept |
| VectorIndex.Index.Reselect | internal/engine/page_vector.go:323-366 | A full link list becomes exactly the heuristic's choice among the readable old members and the newcomer |
| VectorLinks.NamesOrFull | internal/engine/page_vector.go:304-367 | A link list that was asked for a place names the newcomer unless it is full, and otherwise holds old links only |
| VectorIndex.Index.ConnectAll | internal/engine/page_vector.go:900-905 | Every candidate is asked for a place; the graph after it is the old one with exactly the lists of those nodes at that level changed, each as its own list allows |
| VectorIndex.Index.LinkLevel | internal/engine/page_vector.go:885-909 | The links at a level are what the layer search from the entry finds, or the heuristic's choice of it; each of them was asked to link back and nothing else changed; the next level down starts at the first of them |
| VectorIndex.Index.LinkAll | internal/engine/page_vector.go:878-909 | From where the descent arrives, level by level, each search sees the graph as it was before, and the graph after all levels is the old one with every linked node's list at that level changed as it allows |
| VectorLinks.ClosedBelowPending | internal/engine/page_vector.go:885-909 | Links written to an id before its record are invisible at every layer below the one being linked |
| VectorIndex.Index.Insert | internal/engine/page_vector.go:864-922 | Inserting keeps the index well formed and adds exactly the new vector to the live ones; its links are those found level by level, every node it links to links back or has a full list, and no other list changes |
| VectorIndex.Index.Readd | internal/engine/page_vector.go:994-1033 | A known id gets a new vector, becomes live and is linked again like a new one, with neighbours linking back or full |
| VectorIndex.Index.Tombstone | internal/engine/page_vector.go:943-954 | Deleting marks the record only; the live vectors lose exactly that id |
| VectorIndex.Index.Reset | internal/engine/page_vector.go:974-986 | An index whose records are all deleted is emptied, which no search can notice |
| VectorIndex.Index.Mutate | internal/engine/page_vector.go:930-992 | Every change keeps links, degrees, counts, entry level and last id right, and the live vectors are updated exactly |
| VectorIndex.Index.Apply | internal/engine/page_vector.go:674-705 | Any sequence of changes keeps the index well formed and its live vectors equal to replaying the changes on a map |
| VectorIndex.Index.Search | internal/engine/page_vector.go:16-66 | The descent arrives at a node from which layer 0 is searched. The results are distinct live vectors at their true distances in order; fewer than asked for means every live vector reachable from there is returned, no link of a result leads to a closer live vector left out, and with ef covering the index nothing reachable and closer is missed |
| NodeCache.Access.Get | internal/engine/page_vector_access.go:56-67 | A read through the cache returns what the bare index returns; a hit moves its link to the front of the list |
| NodeCache.Access.Put | internal/engine/page_vector_access.go:147-204 | A write reaches the index; the cache keeps a copy only of a record that a later read is certain to return, otherwise it unlinks the entry of the id |
| NodeCache.Access.Admit | internal/engine/page_vector_access.go:69-103 | Admission reuses or allocates the link of the id, puts it first, evicts from the tail just enough, and refuses what can never fit |
| NodeCache.Access.MakeRoom | internal/engine/page_vector_access.go:89-92 | The eviction loop ends because the used counter equals the costs on the linked list |
| NodeCache.EvictsNoMore | internal/engine/page_vector_access.go:89-92 | What eviction leaves is the longest prefix of the list that fits |
| NodeCache.Access.Remove | internal/engine/page_vector_access.go:105-114 | Removing an entry unlinks it, deletes its id from the map and takes off its cost, also while another entry is off the list |
| NodeCache.Access.MoveToFront | internal/engine/page_vector_access.go:116-121 | Moving a link to the front changes the order of the list and nothing else |
| NodeCache.Access.MapIsList | internal/engine/page_vector_access.go:11-26 | In every valid state the map's values are exactly the links on the list, each under its own id |
| NodeCache.Access.Reset | internal/engine/page_vector_access.go:206-213 | Reset empties list, map and counter together with the index |
| NodeCache.Access.Run | internal/engine/page_vector_access.go:56-213 | Over any sequence of operations the reads are those of the bare index, the linked list and the map hold the same entries, the counter is the sum of the costs on the list, and it stays within the limit |
| NodeCache.AdmittedOk | internal/engine/page_vector_access.go:69-103 | Admission keeps every cached copy equal to what the index would return, and the total within the limit |
| Chains.Chain.PushFront | internal/engine/page_vector_access.go:123-131 | The pointer surgery puts an entry in front of the list and nothing else |
| Chains.Chain.PushBack | internal/engine/db.go:1705-1712 | The pointer surgery appends an entry to the list and nothing else |
| Chains.Chain.Unlink | internal/engine/page_vector_access.go:133-145 | Unlinking takes exactly one entry out, at either end or in the middle |
| Graphs.Writer.CreateNode | internal/engine/db.go:3808-3846 | A node gets a new id and is filed under each of its labels; all indexes stay exact |
| Graphs.Writer.CreateEdge | internal/engine/db.go:4233-4276 | An edge needs both its nodes; its id is new; adjacency lists and the kind index stay exact and no edge dangles |
| Graphs.Writer.DeleteEdge | internal/engine/db.go:4540-4577 | Deleting an edge removes it from the record table and from exactly its own posting lists |
| Graphs.Writer.DeleteEdgesBatch | internal/engine/db.go:4579-4647 | Removing a set of edges list by list in any order leaves all indexes exact |
| Graphs.Writer.DeleteNode | internal/engine/db.go:3849-3935 | Deleting a node deletes exactly the edges at either end of it and its label postings; indexes stay exact and no edge dangles |
| Patterns.DirectionIsContribution | internal/engine/query.go:4979-5021 | One edge taken in one direction yields exactly what its candidate contributes to the join with the row |
| Patterns.ScanIsBothDirections | internal/engine/query.go:5100-5142 | Scanning an edge yields both its directions for an undirected pattern, and a self-loop only once |
| Patterns.ScanMeaning | internal/engine/query.go:5030-5098 | A scan over all edges, or over the edges of the wanted kind, yields the meaning of the pattern |
| Patterns.AdjacencyMeaning | internal/engine/query.go:4887-4934 | Expansion from a bound end, in both directions for an undirected pattern, yields the same multiset of rows as the full scan |
| Patterns.ForeignMeaning | internal/engine/query.go:4897-4902 | A row that binds an end to something other than a node has no extension |
| PatternExecution.ApplyEdge | internal/engine/query.go:4887-4934 | Whichever way it is run, an edge pattern yields the same multiset of rows: those for which some edge of the record table, in an allowed direction, has the kind, every required property with an equal value, suitable ends and fitting names, and no others |
| PatternExecution.ApplyAll | internal/engine/query.go:5030-5063 | Every row against every edge |
| PatternExecution.ApplyFrom | internal/engine/query.go:4903-4930 | Following one adjacency list, and the opposite one for undirected patterns, yields all extensions of the row |
| PatternExecution.ApplyNode | internal/engine/query.go:4748-4828 | A node pattern yields the rows for which some node of the record table has every label and every required property with an equal value, null equalling nothing, although only the nodes of one label are visited |
| PatternAnswers.EachAnswerOnce | internal/engine/query.go:4845-5021 | A new row comes out as often as there are nodes, or edges and directions, that answer the pattern with it |
| PatternAnswers.AnswersAreExtensions | internal/engine/query.go:5802-5823 | Exactly the nodes and edges that have every label and required property answer a pattern |
| PatternExecution.Anchor | internal/engine/query.go:4767-4780 | The label chosen has no more nodes than any other label of the pattern |
| PatternExecution.NodeIDs | internal/engine/query.go:4761-4800 | The nodes visited, ascending and each once, include every node with all the labels of the pattern |
| PatternExecution.NodeRowIsContribution | internal/engine/query.go:4845-4885 | A name already bound to the node keeps the row, one bound otherwise drops it |
| PatternResults.SwapFirst | internal/engine/query.go:2240-2242 | Two adjacent patterns can be exchanged without changing the multiset of rows |
| PatternResults.ReorderedPatterns | internal/engine/query.go:2242-2357 | Any reordering of a list of fixed-length patterns gives the same multiset of rows from every row |
| PatternResults.SeedAfter | internal/engine/query.go:2371-2375 | A seed node that repeats an end of one of the patterns adds and removes no row |
| PatternResults.PlannedPatterns | internal/engine/query.go:2242-2357 | Any order, with any such seeds mixed in, gives the same multiset of rows |
| PatternResults.RunPatterns | internal/engine/query.go:4748-4934 | Running patterns one after the other over all rows computes the join of all of them: exactly the rows reached from an input row through an answer to each pattern |
| PatternResults.ResultsAreSolved | internal/engine/query.go:4748-4934 | The join of a list of patterns holds exactly the rows at the end of a path of answers, one for each pattern |
| PatternOrder.Absorb | internal/engine/query.go:2283-2304 | Merging overlapping components loses and duplicates no pattern, whether or not the result is maximal |
| PatternOrder.Components | internal/engine/query.go:2276-2304 | The components together hold exactly the given patterns |
| PatternOrder.SortComponents | internal/engine/query.go:2328-2343 | Components end up in order of estimate and first position, each exactly once |
| PatternOrder.ChooseSeed | internal/engine/query.go:2436-2449 | The seed is an end of one of the patterns, and no node of the path is cheaper |
| PatternOrder.WalkPath | internal/engine/query.go:2456-2487 | The walk uses every edge once and every edge touches a node bound before it |
| PatternOrder.OrderPath | internal/engine/query.go:2375-2488 | A path is reordered only when all its visible names are ordered by id; the result is the same patterns plus the seed |
| PatternOrder.OrderPatterns | internal/engine/query.go:2242-2357 | On every graph the planned order gives the same multiset of rows as the written order |
| PatternRendering.SortedTie | internal/engine/query.go:2184-2207 | Two sorted arrangements of the same rows tie position by position |
| PatternRendering.TiesLookAlike | internal/engine/query.go:2552-2580 | Rows of a path whose visible names are all ordered by id look the same if they tie |
| PatternRendering.SameRenderedList | internal/engine/query.go:2552-2580 | Then the rendered list is identical in the written and in the planned order |
| Heaps.PushBounded | internal/engine/query.go:795-846 | One push keeps the best elements seen so far with the worst at the root |
| Heaps.BestStep | internal/engine/db.go:2579-2615 | Pushing keeps the buffer equal to the best of everything offered |
| TopK.StableByPosition | internal/engine/query_order_budget.go:177-183 | Ordering rows tagged with their position is the stable sort of the rows |
| TopK.OrderedPage | internal/engine/query.go:726-793 | ORDER BY with SKIP and LIMIT through the bounded heap returns exactly the slice of the stably sorted rows |
| Ordering.OrderedQuery | internal/engine/query.go:2076-2090 | ORDER BY, SKIP and LIMIT return the page of an arrangement of all rows in which, at the first clause that tells two rows apart, values ascend, or descend if the clause says so, and rows no clause tells apart come by lowest id; ties keep their order |
| Numbers.RoundIsExact | internal/engine/query.go:5623-5637 | Conversion to a float changes no integer that is a multiple of 2^e with a significand that fits |
| Numbers.ComparisonIsExact | internal/engine/query.go:5623-5637 | An integer and a float compare as the real numbers they stand for, although the code truncates and rounds |
| Numbers.FloatsCompareByPosition | internal/engine/query.go:4702-4716 | Floats compare as points of the extended line with NaN first |
| Numbers.BitsDecideEquality | internal/engine/query.go:7249-7259 | Two floats other than NaN have the same bits, up to the sign of zero, exactly when they compare equal |
| Numbers.IntegerEqualsExactly | internal/engine/query.go:5826-5828 | A 64-bit integer equals a float exactly when the float is finite and stands for that integer |
| Ordering.NumbersCompareByPosition | internal/engine/query.go:4702-4716 | All numbers, mixed or not, compare by their exact position |
| Ordering.CompareOpposite | internal/engine/query.go:4630-4729 | Exchanging two values flips the sign of the comparison, nested lists and maps included |
| Ordering.CompareChained | internal/engine/query.go:4630-4729 | The comparison of values is transitive, and strict as soon as one step is |
| Ordering.ValuesAreOrdered | internal/engine/query.go:4630-4729 | The order of values is a total preorder over all values |
| Ordering.CompareTextChunked | internal/engine/query_order_budget.go:51-62 | Comparing 4096 bytes at a time gives the comparison of the whole strings |
| Ordering.CompareElementsChunked | internal/engine/query_order_budget.go:64-92 | The chunked loops over bytes and vector elements give the lexicographic comparison |
| Ordering.SortMapKeys | internal/engine/query_order_budget.go:131-159 | Map keys come out in string order whatever order the map yields them in |
| Ordering.CompareBudgeted | internal/engine/query_order_budget.go:16-129 | The budgeted comparison returns the order of values for all values |
| Ordering.LowestIsLeast | internal/engine/query.go:8317-8337 | The scan finds the least entity id of the row, or zero without one |
| Ordering.RowsAreOrdered | internal/engine/query.go:4731-4742 | Rows are totally preordered by clauses, descending ones included, and the lowest id |
| Ordering.ClauseDecides | internal/engine/query.go:4731-4742 | The first clause that tells two rows apart decides, negated exactly if it is descending; without one the lowest ids decide |
| Ordering.CompareOrderedRows | internal/engine/query.go:4731-4742 | The loop over the clauses computes the comparison of rows |
| ValueLaws.KindsInOrder | internal/engine/query.go:4630-4700 | Numbers come before booleans, then strings, byte strings, vectors, lists, maps and null; false comes before true |
| ValueLaws.TextsInOrder | internal/engine/query.go:4630-4700 | A string precedes another exactly when it is a proper prefix of it or has the smaller byte at the first difference |
| ValueLaws.ListsInOrder | internal/engine/query.go:4630-4700 | The first items that differ decide between lists, then the lengths |
| ValueLaws.MapsInOrder | internal/engine/query.go:4700-4729 | The first key in string order at which maps differ decides, by key and then by value, then the number of keys |
| ValueLaws.NumbersEqual | internal/engine/query.go:5826-5828 | Two numbers, mixed or not, are equal exactly when neither is NaN and they stand at the same point of the number line |
| ValueLaws.EqualIffTied | internal/engine/query.go:5698-5800 | Two values are equal, with nulls equal, exactly when they tie in the order, hold no NaN and are nil in the same places |
| ValueLaws.NullsDiffer | internal/engine/query.go:5698-5800 | Where nulls are not equal, a value keeps its equals exactly when it holds no null |
| DistinctKey.WordsSeparate | internal/engine/query.go:7391-7395 | Fixed-width words are never prefixes of each other and determine their number |
| DistinctKey.KeysTell | internal/engine/query.go:7219-7360 | No key continues another, whatever the values, and equal keys of values free of NaN mean equal values |
| DistinctKey.EqualKeys | internal/engine/query.go:5698-5800 | Equal values have the same key, an integer and a float of the same value included |
| DistinctKey.EqualIffSameKey | internal/engine/query.go:7219-7360 | Two values are equal with nulls equal exactly when both are free of NaN and have the same key |
| DistinctKey.PrefixFree | internal/engine/query.go:7219-7360 | The key is prefix-free, for values with NaN too |
| Dedup.WriteKey | internal/engine/query.go:7219-7360 | Writing a value piece by piece, with map keys merge-sorted, produces its key |
| Dedup.SortKeys | internal/engine/query.go:7397-7444 | The merge sort between two buffers yields the sorted keys |
| Dedup.EqualBudgeted | internal/engine/query.go:5698-5800 | The budgeted equality decides equality, chunks and map order notwithstanding |
| Dedup.RowsEqualLaws | internal/engine/query.go:7456-7465 | Equality of rows is symmetric and transitive, although a row with NaN differs from itself |
| Dedup.BucketDecides | internal/engine/query.go:7173-7189 | Looking only into the bucket of the hash misses no equal row, for any hash function |
| Dedup.DistinctRows | internal/engine/query.go:7146-7206 | DISTINCT keeps exactly the first row of every class, in order, filtering in place |
| Dedup.DistinctMeans | internal/engine/query.go:7146-7206 | The rows kept are, in input order, exactly those that differ in some column from every row before them |
| Sorting.MergeSortSwapping | internal/engine/query.go:7397-7444 | The bottom-up merge sort that swaps its buffers equals the reference stable sort |
| Sorting.MergeSort | internal/engine/fts_bm25.go:368-405 | The bottom-up merge sort that copies back equals the reference stable sort |
| Generations.AdmitPins | internal/engine/db.go:1687-1727 | Admission keeps reference counts, first-pin order, retained bytes and all limits |
| Generations.DropPins | internal/engine/db.go:1812-1841 | Release keeps them too, and unlists a generation with its last lease |
| Generations.RefusedIffOver | internal/engine/db.go:1690-1703 | A lease is refused exactly when the size is unknown or a limit would be exceeded with it |
| Generations.SwitchConsistent | internal/engine/page_db.go:508-554 | Replacing the current generation, or failing to grow, keeps a page transaction open exactly for current and pinned generations |
| Generations.StepConsistent | internal/engine/db.go:1677-1841 | Every step of the protocol keeps all of it |
| Generations.RunConsistent | internal/engine/db.go:1677-1841 | Over every run: a page transaction is open exactly while its generation is current or pinned, lease counts equal summed references, retained bytes equal the distinct pinned generations, and limits hold |
| Generations.ClosedOnce | internal/engine/db.go:1282-1327 | After a close, whatever happened before, every page transaction was closed exactly once |
| Generations.LeaseKeepsOpen | internal/engine/db.go:1812-1841 | In every reachable state the generation of every lease is open |
| Generations.ReaderSeesCurrent | internal/engine/db.go:1927-1978 | A read that begins gets a new lease on the generation that is current then, and that generation is open |
| Generations.CommitIsSeen | internal/engine/page_db.go:508-554 | After a commit that could grow the file readers begin on a new generation of the new size; if it could not, on the pinned old one or on the reloaded one |
| GenerationStore.Retained.Append | internal/engine/db.go:1703-1714 | A newly pinned generation gets a link at the tail of the list and a map entry pointing to it |
| GenerationStore.Retained.Remove | internal/engine/db.go:1743-1756 | The last release unlinks the generation wherever it is on the list and drops its map entry |
| GenerationStore.Leases.Add | internal/engine/db.go:1687-1727 | A lease is added on the linked list, the map and the counters as the protocol admits it |
| GenerationStore.Leases.Give | internal/engine/db.go:1822-1840 | A lease is given up on the linked list, the map and the counters as the protocol drops it |
| GenerationStore.Database.BeginRead | internal/engine/db.go:1927-1978 | A read begins by pinning the current generation, unless a limit forbids it |
| GenerationStore.Database.TakeSnapshot | internal/engine/db.go:1661-1675 | A snapshot pins the current generation, unless a limit forbids it |
| GenerationStore.Database.Release | internal/engine/db.go:1812-1841 | Releasing is idempotent, unlinks the generation with its last lease and closes it when it is not current |
| GenerationStore.Database.FinishRead | internal/engine/db.go:3780-3806 | Finishing a read releases its lease once |
| GenerationStore.Database.Commit | internal/engine/page_db.go:508-554 | A commit switches generations, or reloads the closed one when the file could not grow |
| GenerationStore.Database.Rebuild | internal/engine/page_vector_rebuild.go:97-142 | An index rebuild switches generations the same way |
| GenerationStore.Database.Compact | internal/engine/compact.go:57-91 | Compaction refuses while anything is active and otherwise replaces the generation |
| GenerationStore.Database.Close | internal/engine/db.go:1282-1295 | Close refuses while transactions or snapshots are active and otherwise closes the last page transaction |
| GenerationStore.Database.OldestLease | internal/engine/db.go:1758-1777 | The head of the list is the generation pinned first, so its time is the least of all retained ones, and there is none exactly without leases |
| TxDelta.MergeKeeps | internal/engine/compat.go:111-204 | Merging a statement composes its delta with the transaction's |
| TxDelta.ChangeExplained | internal/engine/db.go:4885-4939 | Tracking a changed key keeps every other property, and labels or ends, as in the base, up to the 64-key fallback |
| TxDelta.MergeSidesKeeps | internal/engine/db.go:4830-4883 | Merging the tracked keys of nodes, or of edges, with the fallback, still explains every difference from the base, and new records keep new ids |
| TxDelta.MergeStatesKeeps | internal/engine/compat.go:111-204 | Merging a statement's nodes, edges, full-text entries and tracked keys keeps the whole invariant |
| TxDelta.PatchIsExact | internal/engine/db.go:4810-4828 | Patching only the tracked keys onto the base record gives the final record |
| TxDelta.ApplyKeeps | internal/engine/db.go:3808-4577 | Every mutation of nodes, edges and full-text entries keeps upserts and deletes an exact delta and leaves no edge dangling |
| TxDelta.ApplyEffect | internal/engine/db.go:3808-4577 | With all its change sets, copies and tracking, a mutation has its plain effect on the three tables |
| TxDelta.StatementEffect | internal/engine/compat.go:91-103 | A statement that succeeds has the effect of its mutations in order; one that fails leaves the whole state as it was |
| TxDelta.RunIsOutcome | internal/engine/compat.go:80-104 | The contents after any run are those of the plain interpreter |
| TxDelta.DeleteNodeKeeps | internal/engine/db.go:3853-3935 | Deleting a node deletes its full-text entry and every edge at it, and the change sets stay exact deltas |
| TxDelta.DeltaIsExact | internal/engine/compat.go:80-204 | After any mix of mutations and statements, applying the upserts and deletes to the base, with full records and with patches alike, gives exactly the nodes, edges and full-text entries that the mutations plainly lead to, failed statements leaving nothing, and the result has no dangling edge and no text without a node |
| TxStore.Tx.Mutate | internal/engine/db.go:3808-4577 | Every mutation of nodes, edges and full-text entries updates the change sets in place as specified |
| TxStore.Changes.Delete | internal/engine/db.go:4579-4614 | Deleting a set of records one by one in any order removes all of them and marks exactly those of the base as deleted |
| TxStore.Changes.SetProperty | internal/engine/db.go:4389-4423 | Setting or removing a property copies the record on first write and tracks the key, even if the value is refused only after the copy |
| TxStore.Changes.MakeWritable | internal/engine/db.go:4703-4747 | Copy on first write marks the record, and a write to more than properties gives up tracking |
| TxStore.Changes.TrackProperty | internal/engine/db.go:4885-4939 | Tracking appends a new key, or gives up on the record beyond 64 keys |
| TxStore.Tx.RunStatement | internal/engine/compat.go:80-104 | A statement that succeeds leaves the contents its mutations lead to in order; one that fails leaves the transaction as it was, change sets included |
| TxStore.MergeTable | internal/engine/compat.go:111-189 | Merging id by id in any order gives the composed change sets |
| TxStore.MergeTracking | internal/engine/db.go:4830-4883 | Merging keys id by id in any order gives the composed tracking |
| TxStore.Changes.Adopt | internal/engine/compat.go:178-204 | A fork's change sets, copies and tracked keys are merged into those of the transaction |
| BackupArchive.CaptureTime | internal/engine/backup_archive.go:934-946 | A capture time is in range, strictly after every earlier one, and is now whenever possible |
| BackupArchive.PlannedEntry | internal/engine/page_backup.go:50-143 | Whatever a capture publishes tells the truth about the source, continues the last entry and comes later |
| BackupArchive.PublishedDisk | internal/engine/backup_archive.go:425-456 | A crash after the proof, the entry or the anchor leaves the archive in order |
| BackupArchive.ChainExists | internal/engine/backup_archive.go:848-874 | Every entry has a contiguous, digest-linked chain to a base, and replaying it arrives at the source's own history |
| BackupArchive.ReopenSucceeds | internal/engine/backup_archive.go:770-830 | After any crash the archive opens again, at the highest commit, in whatever order the directory lists |
| BackupArchive.RunKeeps | internal/engine/page_backup.go:50-143 | Over every run, commit ids and capture times strictly increase together and every entry is linked and truthful |
| BackupArchive.SameCommitPublishesNothing | internal/engine/page_backup.go:79-109 | Capturing at the commit already archived publishes nothing |
| BackupArchive.NewCommitIsCaptured | internal/engine/page_backup.go:50-143 | A commit not archived yet is published, as a gapless segment exactly when it is the very next one, its frame is kept and no base is pending; it is refused only if that frame does not extend the archived history |
| BackupStore.ChainFor | internal/engine/backup_archive.go:848-874 | The walk to the base terminates and returns the chain in order, or fails when a parent is missing |
| BackupStore.Select | internal/engine/backup_archive.go:1093-1109 | The scan selects the highest admitted commit, or reports a gap |
| BackupStore.RestoreBefore | internal/engine/backup_archive.go:1093-1109 | Restoring before a time selects the latest capture at or before it, or fails exactly inside a recorded gap |
| BackupStore.Archive.Capture | internal/engine/page_backup.go:21-143 | A capture publishes a base, a segment or nothing, as planned |
| BackupStore.Archive.PublishEntry | internal/engine/backup_archive.go:425-456 | Proof, entry and anchor become durable in this order |
| BackupStore.Archive.AnchorHead | internal/engine/page_backup.go:260-291 | The anchor moves to the head unless it is there already |
| BackupStore.Archive.Open | internal/engine/backup_archive.go:770-830 | Opening checks order, chain, proofs and anchor, and takes the highest commit as the head |
| VectorRebuild.CommitLog | internal/engine/db.go:3367-3408 | In whatever order a commit's ids are met, its log leads from the vectors before to the vectors after |
| VectorRebuild.CountIsExact | internal/engine/db.go:3238-3243 | The live count follows every replayed change |
| VectorRebuild.CountAllExact | internal/engine/vector_index.go:789-808 | Counting change by change over a whole commit ends at the number of vectors |
| VectorRebuild.CommitKeeps | internal/engine/vector_index.go:702-729 | A commit that updates the index and its count change by change ends at exactly the committed vectors, and the log handed to the rebuild leads there too |
| VectorRebuild.IndexIsExact | internal/engine/db.go:3201-3331 | For any interleaving, the published index holds exactly the committed vectors and the live count matches |
| VectorRebuild.PublishedIsReplayed | internal/engine/db.go:3283-3329 | What a publication installs includes every commit since the snapshot exactly once |
| VectorRebuild.AppendChanges | internal/engine/db.go:3393-3407 | The log holds one entry for every id whose vector changed |
| VectorRebuild.ReplayBatch | internal/engine/db.go:3237-3279 | Carrying out a batch change by change gives the replayed vectors and the incremental count |
| VectorRebuild.Database.StartRebuild | internal/engine/db.go:3146-3172 | Only one rebuild runs at a time, from a snapshot of the committed graph |
| VectorRebuild.Database.CommitWrite | internal/engine/db.go:3640-3643 | A commit updates index and count by its changes, is published and is logged atomically |
| VectorRebuild.Database.ReplayPending | internal/engine/db.go:3234-3282 | After a round of replay the private index equals the committed vectors |
| VectorRebuild.Database.TryPublish | internal/engine/db.go:3283-3329 | Publication happens exactly when no writer is active, nothing failed and nothing is left to replay |
| GroupCommit.SubmitKeeps | internal/engine/batch.go:43-57 | Admitting a request, arming the timer or starting early, keeps exactly one runner |
| GroupCommit.FinishKeeps | internal/engine/batch.go:74-92 | A runner that is done hands over to exactly one other or stops, and its group commits as a whole or not at all |
| GroupCommit.RunKeeps | internal/engine/batch.go:43-132 | In every reachable state there is one runner token exactly while running, a group without outcome is executing and no other, requests wait only while running, at most 32 of them, and every admitted request is in exactly one place |
| GroupCommit.ToldOnce | internal/engine/batch.go:65-132 | In every reachable state every admitted request is exactly once in the queue or in a group, is told at most once, and what it is told is the outcome of its group |
| GroupCommit.EveryoneIsTold | internal/engine/batch.go:81-91 | Once nothing runs and every notification is delivered, each admitted request has been told exactly once, and nobody else |
| GroupCommit.Progress | internal/engine/batch.go:65-91 | As long as a request is not told, a step other than a new request is possible and leaves less to do |
| GroupCommit.CanSettle | internal/engine/batch.go:65-91 | From every reachable state a state in which everyone is told can be reached without new requests |
| GroupCommit.RunCallbacks | internal/engine/batch.go:106-128 | The callbacks of a group take effect in order and together, exactly when all of them and the commit succeed and none is cancelled; otherwise the database is as before |
| GroupCommit.Batcher.Admit | internal/engine/batch.go:43-57 | A full queue refuses; otherwise the request is queued as specified |
| GroupCommit.Batcher.TakeGroup | internal/engine/batch.go:65-70 | The runner takes the whole queue |
| GroupCommit.Batcher.Notify | internal/engine/batch.go:88-90 | Every request of the group is told its outcome, one after the other |
| GroupCommit.Batcher.EndGroup | internal/engine/batch.go:81-87 | The runner hands over under the lock before it tells its requests |
| StringScan.BuildTable | internal/engine/query_string_budget.go:57-73 | The prefix table holds the longest border of every prefix, in at most two steps per character |
| StringScan.Scan | internal/engine/query_string_budget.go:28-96 | The interruptible scan visits exactly the leftmost non-overlapping occurrences in at most 2*(len(needle)+len(text)) steps |
| StringScan.DirectScan | internal/engine/query_string_budget.go:38-50 | The direct loop visits the same occurrences |
| StringFunctions.Split | internal/engine/query_functions.go:227-276 | The pieces joined by the delimiter give back the text and none contains the delimiter; an empty delimiter splits into single bytes |
| StringFunctions.ReservationIsExact | internal/engine/query_functions.go:301-312 | The reserved size covers the output and fits 64 bits; it is refused exactly when the output would not fit |
| StringFunctions.Replace | internal/engine/query_functions.go:278-335 | Replacing rewrites every leftmost occurrence, never exceeds the reserved size, and fails exactly when the output would not fit 64 bits |
| StringFunctions.ReplacingIsJoining | internal/engine/query_functions.go:318-335 | The rewritten text is the pieces of a split at the search string, joined by the replacement |
| Arithmetic.CheckedProductIsExact | internal/engine/query_arithmetic.go:139-148 | The checked product is the true product when it fits 64 bits and an overflow otherwise |
| Arithmetic.SquareOut | internal/engine/query_arithmetic.go:150-187 | 2^63 is not a square, so an overflowing square lies beyond both ends of the range |
| Arithmetic.IntegerPower | internal/engine/query_arithmetic.go:150-187 | Square-and-multiply returns the true power exactly when it fits |
| EditDistance.ScriptsAreNotShorter | internal/engine/db.go:2383-2433 | No sequence of single edits is shorter than the distance |
| EditDistance.ShortestScript | internal/engine/db.go:2383-2433 | Some sequence of single edits is as short as the distance |
| EditDistance.BoundedDistance | internal/engine/db.go:2383-2433 | The early-exit table is within the limit exactly when the edit distance is, and then equals it |
| FullText.FuzzyMatch | internal/engine/db.go:2368-2381 | A token matches a term exactly, or within the edit distance when the term is long enough |
| FullText.PostingsGiveFrequency | internal/engine/page_fts_index.go:703-766 | Adding up, or taking the best of, the postings of every matching token gives the frequency that reading the document gives |
| FullText.CountIsMultiplicity | internal/engine/fts_bm25.go:253-307 | The count of a token is its multiplicity in the document |
| FullText.ExactFrequency | internal/engine/fts_bm25.go:253-307 | In exact search the frequency of a term is how often its lower-case form occurs in the document |
| FullText.Bm25Score | internal/engine/fts_bm25.go:333-347 | The loop sums rarity times saturation over the terms that occur, over exact reals |
| FullText.FrequencyScore | internal/engine/fts_bm25.go:349-355 | The frequencies are summed with saturation |
| FullText.ScoreIs | internal/engine/fts_bm25.go:333-355 | Scored by frequency a document gets the sum of the frequencies up to 64 bits; scored by BM25 with k1 = 1.2 and b = 0.75 one term gives its rarity times its saturation |
| FullText.MatchingDocumentsScore | internal/engine/fts_bm25.go:93-150 | A document scores exactly when some term of the query occurs in it |
| FullText.RankedIs | internal/engine/fts_bm25.go:93-150 | A search returns documents that score, higher scores first and lower ids among equal ones; a document that scores is left out only if the list is full of better ones |
| FullTextSearch.TermFrequencies | internal/engine/fts_bm25.go:253-307 | Counting tokens of a document gives its frequencies, whatever order the counts are met in |
| FullTextSearch.CorpusStats | internal/engine/fts_bm25.go:157-191 | One pass gives document frequencies and total length |
| FullTextSearch.ScanSearch | internal/engine/fts_bm25.go:93-150 | The corpus scan returns the best results of the whole corpus in order |
| FullTextSearch.PostingTerms | internal/engine/page_fts_index.go:615-681 | The tokens read include every token that matches a term |
| FullTextSearch.CollectDocuments | internal/engine/page_fts_index.go:691-766 | Reading postings leaves every document with the frequencies of the tokens read |
| FullTextSearch.IndexSearch | internal/engine/page_fts_index.go:691-829 | The indexed search returns the same ranked list as the scan, for exact and fuzzy matching and both scorings, independent of map order, for terms that can be found |
| FullTextSearch.PostingsSuffice | internal/engine/page_fts_index.go:615-766 | Exact search reads the right frequencies of all documents exactly when the lower-case form of every term is itself a term or in no document |
| FullTextSearch.LowerCaseIsFindable | internal/search/search.go:98-124 | Terms that lower-casing leaves alone, as the tokenizer delivers them, can always be found |
| FullTextSearch.CapitalIsOverlooked | internal/engine/page_fts_index.go:615-640 | A term with a capital is overlooked: the scan ranks a document for which the postings read count nothing |
| FullTextSearch.PushResult | internal/engine/db.go:2579-2615 | The bounded heap keeps the best results seen |
| FullTextSearch.SortResults | internal/engine/fts_bm25.go:368-405 | Sorting the heap in place gives the first results of the full ranking |

## Left out

- TxDelta.Apply: application metadata, stream and property-index changes are not modelled; nodes and edges keep their adjacency in `Graphs.Writer`.
- BackupArchive.CapturePlan: the page archive only; the archive of WAL ranges (`captureAt`) is not modelled.
- VectorRebuild.Next: what a commit or a replay does inside the proximity graph is modelled for the page-backed index; here the index is the map of its live vectors.
- Variable-length paths, search predicates inside patterns, aggregation and mutation clauses.
- Work and memory budgets, cancellation, and the pooling of rows and leases.
- Parsing of queries, file names and expressions, and the text of error messages.
- File I/O, locks, fsync, the page store, the WAL codec, tokenizer and stemmer: abstract steps, maps and functions.
- States that need recovery after a failed rollback or a failed reopening.
- Floating-point rounding inside BM25 and vector distances.
- Tie-breaking of equal estimates beyond what decides the order, and the values of the estimates.
