# A verified model of the Nearby vector cache

Dafny models of the parts of Nearby whose correctness is hard to see from the code, with
proofs of what they promise: the HNSW index, exact top-K search, the codecs between clients,
server and disk, and the command state machine with its expiry and its log.
`dafny verify dfyconfig.toml` checks everything.

## How it is built

Code that changes things step by step is modelled as methods over objects, arrays and local
variables with loops; each method is proved against a function or a relation over values, and
the theorems are lemmas about those. Distances, scores and numbers are exact reals. The
metric, the CRC, the JSON of metadata, number formatting and the square root are parameters:
the theorems hold for every choice that meets the conditions they state.

| files | what they model |
|---|---|
| `Heap` | the binary heaps kept on slices |
| `HnswGraph`, `HnswIndex`, `HnswSearchLayer`, `HnswNeighbors`, `HnswSelection` | layered graph, nodes, best-first search, neighbour selection, and which selection that is |
| `HnswSpec`, `HnswInsert`, `HnswQuery` | Insert, Delete and Search, as relations on states and as methods on the index |
| `HnswWoven`, `HnswAnswers` | what Insert makes of a graph and what Search answers, said of the state before and after alone |
| `HnswInvariant`, `HnswRuns`, `HnswFault`, `HnswExact`, `HnswSmall`, `HnswTotal` | the invariant, whole histories, the out-of-range index, what Search returns, the regime without pruning, the existence of outcomes |
| `HnswInterleaving`, `HnswLocks` | concurrent inserts and searches as atomic steps; the lock order |
| `Cosine`, `TopK`, `SearchMatchesScan` | the two cosine kernels; brute-force top-K with its worker pool; a small index against it |
| `Sets`, `Text`, `Decimal`, `Tokenizer`, `LineGrammar`, `CommandText`, `Aof`, `Resp` | sizes of sets, text, the quote automaton, its grammar and its two printers, log lines, replies |
| `Binary`, `Snapshot` | the binary snapshot and its loader |
| `Vmset`, `Vset` | the batch and the single ingestion grammar |
| `StoreSpec`, `Store`, `Expiry` | the store with TTLs; when a sweep can be seen |
| `ServerSpec`, `Server`, `ServerLaws`, `Agreement`, `Replay` | commands, store/index agreement, replay of the log |
| `HnswServed`, `Serving`, `ServingRuns`, `ServingFaults` | the server over its real indexes: when a handler dies in one, and the runs in which none does |
| `ServingLedger`, `ServingReplay`, `ServingDraws`, `ServingRisk`, `ServingRestart` | the replay of a log over fresh indexes with levels of its own: on which logs it can die |

A search or an insert is specified by a relation (`Searches`, `Inserts`) that holds the record
of what was expanded and selected, because ties leave the code a choice that depends on the
layout of a heap. That some record always exists is shown twice: the methods
`HnswQuery.Search` and `HnswInsert.Insert` end on every input and satisfy the relation, and
`HnswTotal.SearchHappens` and `HnswTotal.InsertHappens` prove it for every state.

A relation or a function that a method is proved against says no more than it says. So each of
them has laws that do not mention it: the neighbours chosen are characterised by distances
alone, and uniquely up to ties (`HnswSelection.ChoiceIsUnique`); what Insert and Search do is
stated from the graph before and after (`HnswWoven.Woven`, `HnswAnswers.Answers`); every line
has the tokens of its grammar (`LineGrammar.TokensAreWords`); every file, its damaged lines
included, has the commands that its lines vouch for (`Aof.ReplayIsVouched`); and each command
of the server is described by what later commands show (`ServerLaws`).

A handler can die in an index: `CosineDistance` panics on a second vector shorter than the
first, `Insert` can index `Links` out of range, an index with M 1 draws a level that `NewNode`
cannot allocate, and one with a huge M a neighbour list that cannot be allocated. The locks
held at that moment stay held, so that later handlers block. The command state machine
therefore gives every command a fate: its handler comes back, or dies in its k-th call, with no
reply and no log line. `Serving` says which fate the real indexes give it; `Agreement` and
`Replay` say what each fate does.

The replay at start-up runs the same handlers over fresh indexes, with levels drawn anew, and
nothing there recovers from a panic: the first handler that dies ends the start. So the replay
has fates of its own (`Replay.Rebuilt` is `None` from the first death on), and
`ServingRestart.Restarts` ties them to the calls that the real indexes allow.

## Where a natural claim is false

- Insert can index `Links` out of range after a Delete, which elects any live node as entry
  point and leaves the maximum layer alone (index.go:185-197, search.go:189-190):
  `HnswRuns.DeleteCanBreakInsert` gives the history, `HnswFault.DeleteThenInsert` makes the
  calls, `CanFaultExactly` and `DeleteKeepsEntryExactly` are the exact conditions,
  `InsertsNeverFault` is the case without deletes.
- Store and index can part, and a stored vector can be missing from the log, because nothing
  fixes the dimension of a namespace (vector.go:111-114) and a handler that dies in the index
  has already written the store: `ServingFaults.MixedDimensionsPart` and
  `ServingFaults.DeletedVectorStillKills` are the runs. The second shows that it is not enough
  to look at the store: the vector of a deleted key stays in the graph.
  `Agreement.RunsAgreeExactlyIf` and `Replay.LogIsReplayedExactlyIf` say exactly which deaths
  show, `HnswServed.CanDieExactly` when an insert can die, and
  `ServingRuns.TameRunsAreAnswered` which checks before each command rule it out.
- `VINDEX CREATE n M 1` is accepted (handlers_hnsw.go:36-41), makes the level multiplier
  infinite (index.go:58), and the first insert dies in `NewNode` with the index locked:
  `ServingFaults.OneLinkDies` is the run. An M above 2^45 makes the second insert die. The
  sound values are a condition of `HnswServed.CanDieExactly` and of every tame run.
- A log written by a run in which every handler answered can stop the next start, because the
  replay draws other levels: `ServingFaults.AnsweredThenKills` is the log of five commands.
  `ServingRestart.ReplayCanDieExactly` is the exact condition, read off the log alone: a VDEL
  takes a live key from an index that then has two nodes, tombstones counted, and a new key is
  stored in that index before it is dropped. `ServingRestart.TameRunsAreRebuiltExactly` puts
  both halves together: every restart rebuilds the server if and only if the log is not such.
- A snapshot brings tombstoned nodes back to life, because the format has no place for them:
  `Snapshot.SnapshotRoundTrip` is exact if and only if there are none.
- `Command.String` does not escape backslashes, and quotes only for spaces and double quotes:
  `CommandText.TextRoundTrip` says exactly which commands survive it.
- A log line loses a command with a newline in it or white space at its end:
  `Aof.ReplayInvertsWrite` is exact.
- A batch whose metadata holds a float-like value, or an id that spells META, can be split
  wrongly, and so can a VSET whose metadata spells EX: `Vmset.BatchExactly` and
  `Vset.IngestExactly` are exact.
- Sweeps show in the answers of DEL and VDEL, and after VEXPIRE:
  `Expiry.DelShowsSweepsExactly`, `Expiry.VDelShowsSweepsExactly` and
  `Expiry.SweepShowsExactly` are exact.
- The comments at search.go:10 and search.go:249 swap the numbers of algorithms 2 and 5 of
  Malkov and Yashunin; the model follows the code.

## Model

| member | source | states |
|---|---|---|
| `Heaps.RootIsLeast` | internal/hnsw/heap.go:14-40 | The root of an ordered heap has the smallest key of all: what Peek and Pop rely on |
| `Heaps.Heap.Up` | internal/hnsw/heap.go:16-22 | Rising from any position restores the heap order and permutes the items |
| `Heaps.Heap.Down` | internal/hnsw/heap.go:16-31 | Sinking from the root restores the heap order and permutes the items |
| `Heaps.Heap.Push` | internal/hnsw/heap.go:20-22 | Adds exactly one item, as a multiset, and keeps the order |
| `Heaps.Heap.Peek` | internal/hnsw/heap.go:33-38 | Returns an item with the least key |
| `Heaps.Heap.Pop` | internal/hnsw/heap.go:24-31 | Removes exactly one item, one with the least key of all, and keeps the order |
| `Heaps.Heap.ReplaceRoot` | internal/similarity/engine.go:69-76 | Overwriting the root and fixing the heap exchanges exactly that item and keeps the order |
| `HnswIndex.Node.GetLinks` | internal/hnsw/node.go:57-69 | The links of a layer, none above the level of the node |
| `HnswIndex.Node.SetLinks` | internal/hnsw/node.go:73-81 | Replaces the list of one layer, does nothing above the level of the node |
| `HnswSearchLayer.Visit` | internal/hnsw/search.go:59-84 | One newly visited node: afterwards the found set is again the ef closest visited nodes, whether the node is kept, evicts the furthest, or is rejected |
| `HnswSearchLayer.ExpandNearest` | internal/hnsw/search.go:40-86 | One round of the loop: the nearest pending node is expanded best-first, or the search stops because nothing pending can improve the result |
| `HnswSearchLayer.SearchLayer` | internal/hnsw/search.go:12-89 | Terminates; its result is an outcome Explores of a best-first search: found holds the ef closest of all visited nodes, without repeats, and every found node was expanded |
| `HnswGraph.View.ExpandIsBestFirst` | internal/hnsw/search.go:40-57 | Expanding a pending node no further than the worst found one keeps the search best-first |
| `HnswGraph.View.Stop` | internal/hnsw/search.go:44-46 | Stopping at the first pending node further than all found ones loses nothing |
| `HnswGraph.View.SeenIsReached` | internal/hnsw/search.go:49-71 | A search visits only nodes that a path of links of the layer reaches from its entry points |
| `HnswGraph.View.LocallyOptimal` | internal/hnsw/search.go:40-86 | Every layer neighbour of a found node is found too, or the result is full and the neighbour at least as far as everything in it |
| `HnswGraph.View.NeverWorseThanStart` | internal/hnsw/search.go:12-89 | The nearest found node is no further than any entry point |
| `HnswGraph.View.KeepingAllIsExhaustive` | internal/hnsw/search.go:12-89 | A search whose result was never full has found every reachable node |
| `HnswGraph.View.RoomyIsExhaustive` | internal/hnsw/search.go:12-89 | With ef at least the number of reachable nodes the result is the whole reachable set |
| `HnswNeighbors.PoolHasOneEach` | internal/hnsw/neighbors.go:26-32 | The working set has each distinct candidate once |
| `HnswNeighbors.ExaminedAscending` | internal/hnsw/neighbors.go:71-114 | Candidates are examined in ascending distance |
| `HnswNeighbors.KeptOrDiscarded` | internal/hnsw/neighbors.go:109-113 | Every examined candidate that exists is kept or discarded, never both |
| `HnswNeighbors.KeptIsDiverse` | internal/hnsw/neighbors.go:87-111 | No kept neighbour is closer to one kept before it than to the query |
| `HnswNeighbors.DiscardIsJustified` | internal/hnsw/neighbors.go:87-113 | Every discarded candidate is strictly closer to some neighbour kept before it than to the query |
| `HnswNeighbors.NearestIsKeptFirst` | internal/hnsw/neighbors.go:71-111 | The nearest candidate is the first one kept |
| `HnswNeighbors.SelectionIsSound` | internal/hnsw/neighbors.go:71-129 | What is returned are at most M distinct candidates, the diverse ones first, then discarded ones by distance |
| `HnswNeighbors.SelectionFills` | internal/hnsw/neighbors.go:116-129 | With the backfill exactly min(M, distinct existing candidates) are returned |
| `HnswNeighbors.SelectDiverse` | internal/hnsw/neighbors.go:71-114 | The examining loop terminates having kept M neighbours or examined every candidate |
| `HnswNeighbors.SelectNeighborsHeuristic` | internal/hnsw/neighbors.go:10-130 | The method, with its three heaps, returns such a selection: at most M distinct existing candidates, with the backfill exactly min(M, distinct existing candidates) |
| `HnswSelection.SelectionIsChoice` | internal/hnsw/neighbors.go:71-129 | Said of distances alone: as many neighbours as fit are chosen, a nearest one first; the heads ascend and are diverse; then come the nearest of those that the heads crowd out; one is left out only if it is crowded out and no nearer than any of these, or if the heads alone fill the choice and none is further |
| `HnswSelection.ChoiceIsUnique` | internal/hnsw/neighbors.go:10-130 | Where no two candidates are equally far from the query there is only one such choice |
| `HnswInsert.PruneNeighbor` | internal/hnsw/search.go:230-246 | Replaces one list of one node, and nothing else in the graph, by the choice among its own links in range, each by its distance from that node |
| `HnswInsert.LinkPair` | internal/hnsw/search.go:167-206 | Links two nodes both ways: the one list gets the new link, the other gets it too or, where that would be too long, becomes the choice among its links and the new one; no other list changes; reports the out-of-range index exactly when the neighbour is below the layer |
| `HnswInsert.Descend` | internal/hnsw/search.go:135-143 | Phase 1 performs one greedy hop at each layer from the top down to l+1 |
| `HnswInsert.SelectionFits` | internal/hnsw/search.go:145-164 | The neighbours selected at a layer all exist on that layer if the entry points do; otherwise the selection is the single entry point below the layer |
| `HnswInsert.Register` | internal/hnsw/search.go:107-119 | Appends the node and registers it in both maps, and changes nothing else |
| `HnswInsert.Insert` | internal/hnsw/search.go:93-227 | Insert weaves a new key into the graph before it (see InsertWeaves), in a state that the relation Inserts allows, or stops on the out-of-range index exactly when Faults holds: entry point below the first layer to link |
| `HnswWoven.LinksPair` | internal/hnsw/search.go:167-206 | The step of linking two nodes changes their two lists in this way and no other |
| `HnswWoven.LayerIsLinked` | internal/hnsw/search.go:166-206 | After all neighbours of a layer, the new node's list is those neighbours, each of them has received the link once, and every other list is as before |
| `HnswWoven.RoundsWeave` | internal/hnsw/search.go:145-214 | On each layer from the top one down, searches of the old graph from what the layer above found cover what they should, the new node's neighbours are the choice among the nodes found, and the other layers are untouched |
| `HnswWoven.InsertWeaves` | internal/hnsw/search.go:93-227 | Insert of a new key, from the state before and after: names, entry point and top layer; the descent, layer by layer; the nodes found, the neighbours chosen and every link list, on every layer |
| `HnswWoven.OverfullIsFull` | internal/hnsw/search.go:230-246 | In a well-formed graph a list that has become too long then holds exactly as many distinct links as it may, all of them its own or the new one |
| `HnswQuery.NewIndex` | internal/hnsw/index.go:43-62 | The new index is empty, with M, twice M on the ground layer and the construction depth, or their defaults 16 and 200, and search depth 100 |
| `HnswQuery.SetEF` | internal/hnsw/index.go:74-81 | Changes the search depth unless it is below 1 |
| `HnswQuery.Delete` | internal/hnsw/index.go:171-200 | Takes the key out and marks its node, and nothing else; if that was the entry point, the first live node with a key takes its place, or node 0 |
| `HnswQuery.Collect` | internal/hnsw/search.go:288-307 | Reports the first K live found nodes, nearest first, under their keys |
| `HnswQuery.Search` | internal/hnsw/search.go:250-311 | Fails exactly on the empty index; otherwise the hits are an answer in the sense of SearchAnswers, each reported under the key of its node with its similarity and metadata, and if no tombstone can be reached on the ground layer there are min(K, nodes that can be reached) of them |
| `HnswAnswers.DescentSettles` | internal/hnsw/search.go:270-277 | On each layer from the top down to the lowest asked for, the descent reaches along links a node no further than the one before, with no closer neighbour on that layer |
| `HnswAnswers.ExploredCovers` | internal/hnsw/search.go:12-89 | A search of a layer with room for n nodes finds min(n, nodes that can be reached), misses a neighbour of a found one only if n are found and none is further, and for each start finds one no further |
| `HnswAnswers.SearchAnswers` | internal/hnsw/search.go:250-311 | The hits are the K nearest live nodes of those so found on the ground layer, from where the descent lands, with room for the larger of K and ef, or of K and the default where ef is not positive |
| `HnswAnswers.AnswersFill` | internal/hnsw/search.go:260-307 | Each tombstone in reach costs at most one hit of min(K, nodes in reach), and there are never more hits than live nodes in reach |
| `HnswInvariant.PruneKeepsSome` | internal/hnsw/search.go:230-246 | A pruned list is a sub-list of the old one, of at most the cap, without repeats |
| `HnswInvariant.LinkKeeps` | internal/hnsw/search.go:167-206 | Linking one more neighbour keeps every list in range, distinct, within the cap, and never to a node below the layer |
| `HnswInvariant.LinksAllKeep` | internal/hnsw/search.go:166-206 | So does linking all of them |
| `HnswInvariant.DescentLands` | internal/hnsw/search.go:135-143 | The descent ends at a node of the layer where phase 2 begins whenever it starts at one |
| `HnswInvariant.DescentIsStuck` | internal/hnsw/search.go:135-143 | Above the level of its entry point the descent does not move: why an index into Links can then be out of range |
| `HnswInvariant.ConnectsKeeps` | internal/hnsw/search.go:145-213 | Phase 2 as a whole keeps the graph well formed and the next entry points on their layer |
| `HnswInvariant.InsertKeepsWellFormed` | internal/hnsw/search.go:93-227 | Insert keeps the whole invariant: links, caps, levels, key maps; and the entry point on the highest layer if it was there |
| `HnswInvariant.DeleteKeepsWellFormed` | internal/hnsw/index.go:171-200 | Delete keeps the invariant except for the entry point's layer |
| `HnswRuns.RunsAreWellFormed` | internal/hnsw/search.go:93-246 | After any history of inserts that do not fault, re-inserts, deletes and SetEF: links in range, distinct, no self-links, target level at least the layer, degree at most M and 2M at the ground; a node is live exactly when the maps lead from its key back to it |
| `HnswRuns.ConfigStays` | internal/hnsw/index.go:43-62 | After any history the parameters are those the index was built with |
| `HnswRuns.InsertsNeverFault` | internal/hnsw/search.go:189-190 | Without deletions the entry point stays on the highest layer, so Links is never indexed out of range |
| `HnswRuns.CanFaultExactly` | internal/hnsw/search.go:189-190 | In any well-formed index some level up to MaxLevel makes the next insert of a new key fault if and only if the entry point is below the highest layer |
| `HnswRuns.DeleteKeepsEntryExactly` | internal/hnsw/index.go:185-197 | Delete leaves the entry point on the highest layer if and only if, before it, the key is not the one of the entry point, or the first other live node with a key is on the highest layer, or node 0 is where there is no such node |
| `HnswRuns.TwoInserts` | internal/hnsw/search.go:93-227 | Two concrete inserts leave an entry point on layer 1 and one node on layer 0 |
| `HnswRuns.DeleteCanBreakInsert` | internal/hnsw/index.go:185-197 | The concrete history in which deleting the entry point makes a later insert index out of range |
| `HnswFault.DeleteThenInsert` | internal/hnsw/index.go:171-200 | The calls NewIndex, Insert, Insert, Delete, Insert, whatever the parameters and vectors: the last one indexes out of range |
| `HnswRuns.InsertLevels` | internal/hnsw/search.go:107-119 | An insert of a new key changes no level and no tombstone and adds one live node at its level |
| `HnswExact.HopIsLocalMinimum` | internal/hnsw/search.go:270-277 | A hop with ef = 1 lands no further from the query, where no link of the layer leads closer |
| `HnswExact.DescentNeverRises` | internal/hnsw/search.go:269-277 | The distance to the query never increases down the layers |
| `HnswExact.LiveAreNearest` | internal/hnsw/search.go:293-307 | Skipping tombstones, the collected hits are K nearest live found nodes |
| `HnswExact.HitsAreNearestFound` | internal/hnsw/search.go:280-307 | Search returns K nearest live nodes among all that its last phase found, or all of them |
| `HnswExact.SearchHitsDistinctLiveKeys` | internal/hnsw/search.go:283-307 | In a well-formed index Search returns at most K distinct keys, all registered to the node hit, in descending score order |
| `HnswExact.HitsHaveDistinctLiveKeys` | internal/hnsw/search.go:250-311 | So it does after any history of inserts that do not fault, deletions and SetEF |
| `HnswTotal.SearchHappens` | internal/hnsw/search.go:12-89 | From any entry points in range some best-first search of the layer comes to its end |
| `HnswTotal.SelectionHappens` | internal/hnsw/neighbors.go:10-130 | From any pool some selection of neighbours comes to its end |
| `HnswTotal.InsertHappens` | internal/hnsw/search.go:93-227 | In a well-formed index every level at which an Insert does not fault has an outcome |
| `HnswTotal.CallHappens` | internal/hnsw/search.go:93-227 | In an open index of the vector's dimension the server's call has one at every level, and comes back unless it faults |
| `HnswSmall.GroundNeverPrunes` | internal/hnsw/search.go:192-205 | With at most 2M+1 nodes no ground list can exceed its cap, so linking is symmetric there |
| `HnswSmall.LinkedBothWays` | internal/hnsw/search.go:189-190 | A ground link is present in both lists |
| `HnswSmall.InsertKeepsGround` | internal/hnsw/search.go:93-227 | Insert keeps the ground layer symmetric and connected while no list can overflow |
| `HnswSmall.SmallRunsStayConnected` | internal/hnsw/search.go:93-227 | After any history, without a faulting insert, that leaves at most 2M+1 nodes the ground layer is symmetric and connected |
| `HnswSmall.WideSearchIsExact` | internal/hnsw/search.go:250-311 | On a connected ground layer a search with ef at least the node count finds the K nearest live nodes |
| `HnswSmall.SmallIndexSearchIsExact` | internal/hnsw/search.go:93-311 | After every history of inserts that do not fault, re-inserts and deletes with at most 2M+1 nodes, whatever levels were drawn, Search with ef at least the node count returns exactly the K nearest live nodes, up to ties |
| `SearchMatchesScan.HitsAreTop` | internal/similarity/engine.go:34-150 | An exact search, scored, is a top-K list of the live entries as the scan scores them |
| `SearchMatchesScan.SmallSearchMatchesScan` | internal/hnsw/search.go:250-311 | With at most 2M+1 nodes, no live vector zero and all of the dimension of the query: Search with ef at least the node count reports the same score sequence as the brute-force TopK of the live entries |
| `HnswInterleaving.LinksPairIsSafe` | internal/hnsw/search.go:180-200 | Linking a pair under both node locks keeps every link on its layer and no self-link |
| `HnswInterleaving.WritesPrunedIsSafe` | internal/hnsw/search.go:202-205 | Writing a list pruned from an older copy keeps every link on its layer |
| `HnswInterleaving.RegistersIsSafe` | internal/hnsw/search.go:93-133 | Registering a node keeps what every other thread knows |
| `HnswInterleaving.RunsAreSafe` | internal/hnsw/search.go:93-227 | Under every interleaving of inserts and searches: links in range, on their layer, never to the node itself, and the entry point on the maximum layer |
| `HnswInterleaving.NeverOutOfRange` | internal/hnsw/search.go:189-190 | Under every interleaving no thread indexes a link list out of range |
| `HnswLocks.RunsAreOk` | internal/hnsw/node.go:57-81 | Node locks and the index lock are held by writers exclusively, in ascending rank |
| `HnswLocks.WaitsGoUp` | internal/hnsw/search.go:180-187 | A thread waits only for locks above all it holds |
| `HnswLocks.NoCycle` | internal/hnsw/search.go:180-200 | The wait-for graph is never cyclic |
| `HnswLocks.SomeoneGoesOn` | internal/hnsw/search.go:180-200 | If anyone waits, someone waits only for threads that do not wait |
| `Cosine.CauchySchwarz` | internal/similarity/cosine.go:26-68 | dot^2 <= norm(a)^2 norm(b)^2 at every length |
| `Cosine.CosineIsBounded` | internal/hnsw/distance.go:23-29 | The cosine lies in [-1, 1], so the clamp never changes it |
| `Cosine.CosineIsExact` | internal/similarity/cosine.go:18-60 | The cosine has the sign of the dot product, its square is that of the dot product over the product of the squared norms, and of a vector with itself it is 1 |
| `Cosine.SumByFours` | internal/similarity/cosine.go:28-52 | The twelve accumulators of the unrolled loop add up to the plain sums over the longest multiple of four |
| `Cosine.SumTail` | internal/similarity/cosine.go:54-61 | The tail loop completes the plain sums |
| `Cosine.CosineSimilarity` | internal/similarity/cosine.go:18-68 | The exact cosine, in [-1, 1]; mismatch and zero vectors reported exactly |
| `Cosine.CosineDistance` | internal/hnsw/distance.go:9-32 | 2 for zero vectors, otherwise exactly one minus the value CosineSimilarity returns |
| `TopK.TopScoresAreUnique` | internal/similarity/engine.go:51-150 | Any two top-K lists of the same results carry the same scores position by position: arrival order and chunking cannot show in them |
| `TopK.Offer` | internal/similarity/engine.go:63-77 | One more result keeps the heap at the k best seen so far |
| `TopK.Extract` | internal/similarity/engine.go:79-84 | Filling the array from the back yields the heap's contents in descending order |
| `TopK.SingleThread` | internal/similarity/engine.go:51-84 | Returns min(k, scorable entries) highest-scoring results, in descending order |
| `TopK.PendingIsFlat` | internal/similarity/engine.go:95-117 | The chunks together hold exactly the entries |
| `TopK.Chunks` | internal/similarity/engine.go:92-103 | At most `workers` chunks, none empty, all but perhaps the last of the same size, that concatenate to the entries |
| `TopK.Parallel` | internal/similarity/engine.go:86-150 | For every worker count and every schedule of workers and collector, the same top-K as one goroutine |
| `TopK.FindTop` | internal/similarity/engine.go:34-48 | The dispatching function: nothing for no entries or k <= 0, else the top min(k, n) |
| `TopK.TopIsOfEntries` | internal/similarity/engine.go:33-84 | Entry by entry: k results, or one for each that can be scored; each has the id, score and metadata of an entry; one left out scores no more than any result |
| `Tokenizer.Tokenize` | internal/protocol/parser.go:100-155 | The byte loop computes the tokens of the automaton, which are the words of the line (see TokensAreWords) |
| `LineGrammar.LineIsRead` | internal/protocol/parser.go:100-155 | The tokens of a line made of blanks, bare characters, escapes and quoted text, finished or not, are the words these stand for: quoted text ends at its own mark and no other |
| `LineGrammar.TokensAreWords` | internal/protocol/parser.go:100-155 | Every line is made so, and however it is taken apart, its tokens are these words |
| `LineGrammar.SignIsRead` | internal/protocol/parser.go:109-128 | Inside and outside quotes an escape stands for newline, return or tab after n, r and t, and for the character itself after any other |
| `LineGrammar.QuotedIsLiteral` | internal/protocol/parser.go:130-140 | Text between two equal quote characters, the other one in it or not, is read as it stands |
| `LineGrammar.QuotedArgument` | internal/protocol/parser.go:130-147 | As an argument between blanks it is one token, and the tokens before and after it are those of the rest of the line |
| `Tokenizer.TokensAreNotEmpty` | internal/protocol/parser.go:139-152 | No token is ever empty |
| `Tokenizer.JoinedTokens` | internal/protocol/parser.go:139-143 | Renderings that the automaton reads back survive being joined by spaces; only empty arguments disappear |
| `Quoting.EscapedOne` | mcp_server/client.py:151-151 | The six chained replacements amount to one escape per character: none touches what an earlier one wrote |
| `Quoting.EscapedIsRead` | internal/protocol/parser.go:109-134 | Inside double quotes the automaton undoes the escaper on every text |
| `Quoting.QuoteRoundTrip` | mcp_server/client.py:148-153 | Tokenizing quoted and joined arguments returns them all, backslashes, quotes, tabs and newlines included; exact if and only if none is empty |
| `Quoting.QuotedExactly` | mcp_server/client.py:148-154 | An argument is written as it stands exactly if it is not empty and has no blank, quote, backslash or control character in it |
| `CommandText.Print` | internal/protocol/types.go:16-29 | The loop builds the text of the command |
| `CommandText.QuotedLoses` | internal/protocol/types.go:20-23 | So does a backslash inside quotes, unless the closing quote takes its place |
| `CommandText.BareLoses` | internal/protocol/types.go:24-26 | A backslash, quote or tab outside quotes leaves fewer characters and ends of tokens than went in |
| `CommandText.UnkeptIsLost` | internal/protocol/types.go:16-29 | From the first argument that is not kept on, too little has come out or a token is wrong, and nothing that follows makes up for it |
| `CommandText.AllKeptExactly` | internal/protocol/types.go:16-29 | Printed and joined arguments come back if and only if every one is of the kept class: not empty, no backslash, no single quote or tab unless it is put in quotes |
| `CommandText.KeptExactly` | internal/protocol/types.go:16-29 | An argument comes back from its own rendering if and only if it is of the kept class |
| `CommandText.TextRoundTrip` | internal/protocol/types.go:16-29 | A command is parsed back from its text if and only if all its arguments are of the kept class |
| `Decimal.IntIsRead` | pkg/client/client.go:191-208 | Reading a printed 64-bit integer returns it |
| `Decimal.SomeNumbers` | internal/protocol/types.go:57-63 | Digits in their order, a sign before a negative number only |
| `Aof.ChecksumIsRead` | internal/persist/aof.go:80-85 | The eight hexadecimal digits are read back as the checksum |
| `Aof.AofWriter.Write` | internal/persist/aof.go:29-35 | Appends exactly one record |
| `Aof.EntryOfRecord` | internal/persist/aof.go:68-94 | The line of a clean command yields that command |
| `Aof.ReplayAOF` | internal/persist/aof.go:51-102 | The scan loop returns the commands of the file up to a line that is too long, each of them vouched for by a line: it follows the first colon, and the hexadecimal digits before that read as its checksum |
| `Aof.EntryExactly` | internal/persist/aof.go:68-95 | A line gives a command if and only if it vouches for it, and otherwise nothing |
| `Aof.ReplayIsVouched` | internal/persist/aof.go:51-102 | Whatever the file holds, each command replayed is vouched for by one of its lines |
| `Aof.LineIsReplayed` | internal/persist/aof.go:85-95 | A line with any checksum at all is replayed if that is the right one, skipped if not, and ends the replay if it is too long |
| `Aof.HexDigits` | internal/persist/aof.go:30-36 | The checksum is written in eight lower-case digits, the highest first |
| `Aof.ReplayPrefix` | internal/persist/aof.go:63-101 | Whatever follows in the file, a torn line say, the records before it are all replayed, in order |
| `Aof.ReplayInvertsWrite` | internal/persist/aof.go:29-102 | Replaying what was written returns the commands if and only if each is free of newlines and of white space at its end and within the line limit |
| `Resp.ReadResponse` | pkg/client/client.go:171-228 | The recursive reader decodes one reply, or fails, as the decoding function says, and advances past it |
| `Resp.ReadInvertsSerialize` | internal/protocol/types.go:39-89 | Reading inverts Serialize for every nested tree of simple strings without breaks, integers, arbitrary bulk strings, nils and arrays, consuming exactly the bytes of the reply |
| `Resp.ErrorIsReported` | internal/protocol/types.go:48-50 | An error reply is an error for the client, whatever its message |
| `Resp.BrokenIsMisread` | internal/protocol/types.go:39-41 | A simple string with a line break never comes back as itself |
| `Resp.ReadExactly` | pkg/client/client.go:171-228 | A reply tree is read back as what it says, by exactly its own bytes, if and only if it holds no error reply and no broken simple string |
| `Resp.PrefixDecides` | pkg/client/client.go:171-228 | For any line and whatever follows it: what each first character makes of the rest, wrong lengths and counts included |
| `Resp.UnendedIsNotRead` | pkg/client/client.go:172-175 | Without a line break there is no reply |
| `Resp.OnTheWire` | internal/protocol/types.go:31-89 | The bytes of one reply of each kind |
| `Binary.U32IsRead` | internal/hnsw/snapshot.go:41-57 | A little-endian word is read back |
| `Binary.RepeatInvertsConcat` | internal/hnsw/snapshot.go:208-280 | Whatever reads every item of a list back reads the list back and stops at its end |
| `Snapshot.WriteSnapshot` | internal/hnsw/snapshot.go:29-144 | The writer produces the documented format of the index, with its checksum |
| `Snapshot.LoadNodes` | internal/hnsw/snapshot.go:207-257 | The node loop places each node at its ID, or fails on the first bad one |
| `Snapshot.LoadKeys` | internal/hnsw/snapshot.go:265-280 | The key loop rebuilds both maps |
| `Snapshot.LoadSnapshot` | internal/hnsw/snapshot.go:147-284 | The loader is the parser of the format: checksum, magic, version and truncation errors included |
| `Snapshot.NodeIsRead` | internal/hnsw/snapshot.go:208-256 | A node comes back with level, vector, metadata and the links of every layer |
| `Snapshot.LoadRestores` | internal/hnsw/snapshot.go:147-284 | Loading the snapshot of any well-formed index restores everything but the tombstones |
| `Snapshot.MapIsInverse` | internal/hnsw/snapshot.go:268-280 | Without tombstones the rebuilt key map is the inverse of the key list, and equals the original |
| `Snapshot.SnapshotRoundTrip` | internal/hnsw/snapshot.go:29-284 | Loading the snapshot gives the index itself if and only if no node is a tombstone |
| `Snapshot.DamageIsRejected` | internal/hnsw/snapshot.go:155-186 | Whatever its bytes, data is rejected, with the error named, unless it ends in the checksum of what comes before, and that begins with the magic word and the version |
| `Snapshot.HeaderIsLoaded` | internal/hnsw/snapshot.go:187-197 | Whatever is accepted: the parameters of the index are the numbers of its header, with the defaults of a new index for zeros |
| `Snapshot.PlacedIsLast` | internal/hnsw/snapshot.go:207-256 | A slot holds the last node of its number |
| `Snapshot.IdIsLast` | internal/hnsw/snapshot.go:265-280 | A key leads to its last position, and only keys of the list do |
| `Snapshot.HeaderLayout` | internal/hnsw/snapshot.go:36-62 | Magic word, version and each number of the header lie in their places |
| `Snapshot.NodeLayout` | internal/hnsw/snapshot.go:64-110 | So does each part of a node |
| `Vmset.EncodeChunk` | nearby_memory.py:285-304 | The arguments of one chunk, or the error on unequal dimensions |
| `Vmset.Chunk` | nearby_memory.py:283-284 | The chunks concatenate to the batch, all full but perhaps the last, none empty |
| `Vmset.ParseArgs` | internal/server/handlers_vector.go:255-327 | The index-driven parse loops compute the decoding function, all errors included, and the panic on a count or a dimension that make or the slice bounds cannot take |
| `Vmset.FloatIsMisread` | internal/server/handlers_vector.go:298-306 | A float-like metadata value before the last entry cuts the metadata short |
| `Vmset.MetaIdIsMisread` | internal/server/handlers_vector.go:295-297 | An id spelling META after an entry without metadata is taken for the keyword |
| `Vmset.BatchExactly` | internal/server/handlers_vector.go:271-327 | The server reads a batch back as sent if and only if no metadata value before the last entry looks like a float and no id spells META after an entry without metadata |
| `Vmset.DecodeIsSound` | internal/server/handlers_vector.go:255-327 | Whatever the arguments: if they are accepted, the declared number of entries is there, in order, each with its id, the declared number of readable floats, and metadata only after META |
| `Vset.IngestExactly` | internal/server/handlers_vector.go:14-92 | The server reads a VSET back as ingest meant it if and only if no metadata key or value spells EX, in any case |
| `Vset.ExIsMisparsed` | nearby_memory.py:244-265 | Otherwise the command is refused or the metadata cut short |
| `Stores.Store.Set` | internal/store/store.go:42-46 | Replaces exactly one key, without a TTL |
| `Stores.Store.SetWithTTL` | internal/store/store.go:49-57 | Replaces exactly one key, expiring ttl after now |
| `Stores.Store.Get` | internal/store/store.go:61-83 | The value exactly if the key is live; no other key changes, what is live stays, and an expired key is gone |
| `Stores.Store.Del` | internal/store/store.go:86-97 | Removes the given keys and counts those that were there |
| `Stores.Store.Expire` | internal/store/store.go:100-110 | Succeeds exactly on a live key, whose value stays and whose remaining time becomes the TTL; otherwise nothing changes |
| `Stores.Store.KVCount` | internal/store/store.go:132-142 | The number of live keys |
| `Stores.Store.SweepExpired` | internal/store/store.go:146-182 | Removes exactly the expired keys and vectors and the namespaces left empty, and counts them |
| `Stores.Store.VSetWithTTL` | internal/store/vector.go:111-150 | Stores one vector with explicit, default or no TTL; refuses a wrong dimension and changes nothing then |
| `Stores.Store.VMSet` | internal/store/vector.go:153-191 | Stores a batch up to the first entry of a wrong dimension |
| `Stores.Store.VGet` | internal/store/vector.go:194-218 | The entry exactly if it is live; an expired one is gone afterwards; nothing live changes in any namespace, and nothing at all in another |
| `Stores.Store.VDel` | internal/store/vector.go:221-234 | Succeeds exactly on a stored id, expired or not; removes it and nothing else |
| `Stores.Store.VSnapshot` | internal/store/vector.go:255-273 | The live entries of a namespace |
| `Stores.Store.TotalVectors` | internal/store/vector.go:377-396 | The number of live vectors in all namespaces |
| `Stores.Store.VExpireNamespace` | internal/store/vector.go:276-297 | Gives a deadline to every entry without one, leaves every other as it is, and gives the namespace a default |
| `Stores.Store.VNSDrop` | internal/store/vector.go:300-311 | Removes exactly one namespace |
| `StoreSpec.DelCounts` | internal/store/store.go:86-97 | Del counts each distinct stored key once |
| `StoreSpec.CountsAreFound` | internal/store/vector.go:377-396 | What is counted as live is what a query finds, what a sweep counts is the rest |
| `StoreSpec.SweepIsExact` | internal/store/store.go:146-182 | A sweep leaves exactly what a query finds, as it is, and no namespace without anything of the kind |
| `StoreSpec.BatchStops` | internal/store/vector.go:153-191 | A batch is stored up to its first entry of a wrong length, and nothing after it |
| `Expiry.KeyStepIsSame` | internal/store/store.go:42-142 | Stores with the same live keys stay so under every operation and answer Get, TTL, Expire and KVCount alike |
| `Expiry.SweepsHideKeys` | internal/store/store.go:61-182 | In every run on a clock that does not go back, sweeps anywhere change no answer of Get, TTL, Expire or KVCount |
| `Expiry.VectorStepIsSame` | internal/store/vector.go:106-273 | Stores with the same live vectors and the same default TTLs stay so under every operation but VEXPIRE, sweeps included, and answer alike |
| `Expiry.HarmlessSweepsHide` | internal/store/vector.go:194-273 | In every run without VEXPIRE, from any store, sweeps anywhere that empty no namespace with a default TTL change no answer of VGet, VCount, VSnapshot or TotalVectors |
| `Expiry.SweepsHideVectors` | internal/store/vector.go:194-273 | From a store without default TTLs that is so for all sweeps |
| `Expiry.DelShowsSweepsExactly` | internal/store/store.go:86-97 | The count of Del is the same before and after a sweep if and only if no stored key among its own has expired |
| `Expiry.VDelShowsSweepsExactly` | internal/store/vector.go:221-234 | The answer of VDel is the same before and after a sweep if and only if its vector has not expired |
| `Expiry.SweepShowsExactly` | internal/store/store.go:171-179 | A sweep can be seen by no later run without VEXPIRE if and only if it leaves no namespace empty that has a default TTL |
| `Expiry.VExpireShowsSweeps` | internal/store/vector.go:276-297 | VSET, VEXPIRE and VDEL lead to such a namespace, where a run tells the swept store from the other |
| `ServerLaws.SetIsRead` | internal/server/handlers_kv.go:11-43 | GET at any later time returns what SET stored; other keys, vectors and indexes are untouched |
| `ServerLaws.SetExIsRead` | internal/server/handlers_kv.go:20-31 | With EX the value is there up to and at its expiry and gone after, and TTL counts down |
| `ServerLaws.SetIgnoresTheRest` | internal/server/handlers_kv.go:11-34 | SET looks at EX and its number, in any case, or at key and value alone |
| `ServerLaws.ExpireIsRead` | internal/server/handlers_kv.go:53-66 | EXPIRE answers 1 exactly for a live key and sets its deadline |
| `ServerLaws.DelIsRead` | internal/server/handlers_kv.go:45-51 | DEL removes exactly the named keys |
| `ServerLaws.VSetIsRead` | internal/server/handlers_vector.go:14-107 | VSET stores the parsed vector under its id until its TTL, or else the namespace default, has passed, even if the handler dies in the index afterwards; no other vector changes |
| `ServerLaws.VDelIsRead` | internal/server/handlers_vector.go:128-150 | VDEL removes exactly what it names, from store and index, and answers 1 exactly if it was stored |
| `ServerLaws.DropIsRead` | internal/server/handlers_admin.go:64-94 | VNS DROP removes exactly one namespace, from store and indexes, and answers 1 exactly if it was there |
| `ServerLaws.VExpireIsRead` | internal/server/handlers_admin.go:44-61 | VEXPIRE: a vector without a deadline is there until the time is up and not after, one with a deadline exactly as long as before; nothing else changes; the reply is 1 exactly if the namespace exists |
| `ServerLaws.VExpireIsDefault` | internal/store/vector.go:276-297 | A vector stored later without a TTL of its own has the time of the namespace |
| `ServerLaws.VMSetIsRead` | internal/server/handlers_vector.go:255-346 | VMSET stores for each id its last entry, for the time of the namespace if it has one, even if the handler dies in the index; no other vector changes |
| `ServerLaws.VCountIsSize` | internal/server/handlers_vector.go:152-159 | VCOUNT counts the vectors that are there |
| `ServerLaws.VGetTells` | internal/server/handlers_vector.go:109-126 | VGET finds a vector exactly if it is there, and changes nothing that can be seen later |
| `ServerLaws.VSetIsSound` | internal/server/handlers_vector.go:14-92 | Whatever the arguments of VSET: if they are accepted, the vector is the declared number of readable floats, up to META, EX or the end, and it has a TTL exactly if EX is there |
| `ServerLaws.VSetExactly` | internal/server/handlers_vector.go:14-92 | VSET is accepted if and only if dimension, floats, pairs of metadata and seconds are all in order |
| `ServerLaws.ParamsAreLast` | internal/server/handlers_hnsw.go:25-48 | The parameters of VINDEX CREATE are accepted if and only if they come in pairs of a known name and a positive number, and then each is the last one given under its name, or its default |
| `ServerLaws.CreateIsRead` | internal/server/handlers_hnsw.go:24-67 | VINDEX CREATE makes an index of those parameters that holds the vectors that are there; a namespace that has an index keeps it |
| `ServerLaws.SetEfIsRead` | internal/server/handlers_hnsw.go:93-116 | VINDEX SET_EF changes the search depth of one index and nothing else |
| `ServerLaws.IndexDropIsRead` | internal/server/handlers_hnsw.go:69-77 | VINDEX DROP takes one index away and leaves its namespace |
| `ServerLaws.SimilarityIsBounded` | internal/server/handlers_vector.go:161-202 | VSIMILARITY with a well-formed query is answered exactly if it asks for at least one and at most a thousand |
| `ServerLaws.NotAllowed` | internal/server/server.go:267-274 | A client that has not been let in can do nothing but ask to be: an error, no change, no log line |
| `ServerLaws.WrongNumberIsError` | internal/server/server.go:276-327 | An unknown command, or one with too few or too many arguments, is an error and changes nothing |
| `ServerLaws.SubcommandsAreChecked` | internal/server/handlers_admin.go:64-110 | The subcommands of VINDEX and VNS, and what is an error |
| `ServerLaws.BadTimeIsError` | internal/server/handlers_kv.go:20-31 | A time that is no positive number is an error wherever one is asked for |
| `ServerLaws.AbsentIsNil` | internal/store/store.go:61-129 | A key that is not there, or no longer, is nil and has no time left |
| `ServerLaws.UnloggedIsUnseen` | internal/server/server.go:255-261 | A command that is not logged changes nothing that can be seen at any later time, whatever its arguments, its fate and the TTLs around |
| `Agreement.BatchIsRead` | internal/store/vector.go:159-190 | A batch stores for each id its last entry and leaves the other ids alone |
| `Servers.ParseVSetArgs` | internal/server/handlers_vector.go:14-92 | The boundary scan and the parse loops compute the grammar of VSET |
| `Servers.ParseCreateParams` | internal/server/handlers_hnsw.go:25-48 | The parameter loop computes the parameters, or the error |
| `Servers.Server.HandleVSet` | internal/server/handlers_vector.go:14-107 | The store is written, then the index with the same vector; a handler that dies in the index leaves the store written and does not reply |
| `Servers.Server.HandleVMSet` | internal/server/handlers_vector.go:255-346 | The store gets the batch, the index its entries up to the one in which the handler dies; a panic while parsing changes nothing and gets no reply |
| `Servers.Server.HandleCreate` | internal/server/handlers_hnsw.go:24-67 | The index is published first; it then holds the unexpired vectors of the namespace, or those reached when the handler dies |
| `Servers.Server.BulkLoad` | internal/server/handlers_hnsw.go:61-65 | Loads the vectors in any order, all or those before a death |
| `Servers.Server.Dispatch` | internal/server/server.go:234-253 | Exactly the mutative commands that were answered without an error are appended to the log |
| `Agreement.ExecuteAgreesExactly` | internal/server/server.go:264-327 | A command keeps store and indexes in agreement if and only if it is caught: its handler comes back, or what it left out of the index was there already |
| `Agreement.RunsAgreeExactlyIf` | internal/server/handlers_vector.go:94-150 | In a run from an empty server store and indexes agree after every event if and only if every command is caught when it comes |
| `Agreement.RunsAgree` | internal/server/handlers_vector.go:94-150 | As long as no handler has died, every unexpired vector of an indexed namespace is in its index, unchanged |
| `Agreement.RunsAgreeExactly` | internal/server/handlers_hnsw.go:50-77 | Without TTLs an indexed namespace and its index then hold the same keys and vectors, across VSET, VMSET, VDEL, VINDEX CREATE and DROP, VNS DROP and sweeps |
| `Replay.ErrorsChangeNothing` | internal/server/server.go:243-249 | A command answered with an error has left everything as it was |
| `Replay.ReadsChangeNothing` | internal/server/server.go:255-261 | Without TTLs a command that is not mutative changes nothing |
| `Replay.SweepChangesNothing` | internal/store/store.go:146-182 | Without TTLs a sweep only removes namespaces that hold nothing |
| `Replay.LoggedIsParsed` | cmd/server/main.go:56-67 | A logged command is parsed back from its own line |
| `Replay.ExecuteSame` | internal/server/server.go:264-327 | A command that gives no TTL has the same effect on the same data at any time |
| `Replay.SilentExactly` | internal/server/server.go:234-253 | A handler that dies has left the same data if and only if the store held already what the command would leave in it, and in the part of the index it reached |
| `Replay.LogIsReplayedExactlyIf` | internal/server/server.go:234-261 | The server rebuilt from the log so far holds the same data after every event if and only if every handler of the run that dies is of that kind and none of the replay dies |
| `Replay.LogIsReplayed` | internal/server/server.go:234-261 | As long as no handler has died, the live server and the one rebuilt from its log hold the same data, if no handler of the replay dies |
| `Replay.ReplayRebuilds` | cmd/server/main.go:56-67 | For every run without TTLs in which no handler dies and whose logged commands the log preserves, replaying the file into a fresh server, with fates of its own, gives the same keys, indexes and vectors if no handler dies there and the server starts at all |
| `HnswServed.InsertsKeyMap` | internal/hnsw/search.go:93-227 | A completed Insert stores its vector under its key and keeps every other key |
| `HnswServed.FaultedKeyMap` | internal/hnsw/search.go:189-190 | An Insert stopped by the out-of-range index has registered its key with its vector |
| `HnswServed.DeletedKeyMap` | internal/hnsw/index.go:171-183 | A Delete takes its key from the key map and no other |
| `HnswServed.InsertingRefines` | internal/hnsw/search.go:93-227 | Every Insert of the server, panic or not, changes the key map of the index at its key alone, unless it blocks or panics before it has registered anything |
| `HnswServed.DeletingRefines` | internal/hnsw/index.go:171-200 | Every Delete removes its key alone, unless it blocks before it |
| `HnswServed.InsertIsServed` | internal/hnsw/search.go:93-227 | What the method Insert does to an index of one dimension, fault or not, is a call of the server |
| `HnswServed.OpenInserts` | internal/hnsw/search.go:93-227 | Into a well-formed index of sound parameters with vectors of one dimension, an Insert of that dimension that does not fault comes back and leaves it so |
| `HnswServed.OpenDeletes` | internal/hnsw/index.go:171-200 | A Delete from such an index comes back and leaves it so |
| `HnswServed.FitInserts` | internal/hnsw/index.go:92-108 | If its entry point is on top too, every Insert of that dimension comes back, whatever level is drawn, and leaves it so |
| `HnswServed.FitDeletes` | internal/hnsw/index.go:185-197 | A Delete from such an index comes back, and leaves it so if and only if the heir of the entry point is on the highest layer |
| `HnswServed.CanDieExactly` | internal/hnsw/search.go:145-206 | In a well-formed index of one dimension, some draw makes the Insert of a new key, its vector not shorter, die if and only if M is below 2, or the index holds a node and the dimension is another, the entry point not on the highest layer, or the cap 2M above what make allocates |
| `Serving.FinishesRefine` | internal/server/handlers_vector.go:339-343 | A loop of inserts, ended or cut off, shows as that many insertions |
| `Serving.CreateRefines` | internal/server/handlers_hnsw.go:50-67 | So does a bulk load in any order |
| `Serving.ServesRefines` | internal/server/server.go:264-327 | Whatever a command does to the real indexes, panic or not, shows in their key maps as the command state machine says |
| `ServingRuns.RunsRefine` | internal/server/server.go:264-327 | And so does every run, panics or not |
| `ServingRuns.TameIsAnswered` | internal/server/handlers_vector.go:94-106 | A command whose vectors have the dimension of their namespace, whose index parameters are sound, whose batch can be allocated, and that leaves the entry points on top, is answered, whatever levels are drawn |
| `ServingRuns.TameRunsAreAnswered` | internal/server/handlers_vector.go:339-343 | In a run of such commands, checked one by one, none dies, and all indexes stay fit |
| `ServingRuns.TameRunsAgree` | internal/server/handlers_vector.go:94-150 | So every unexpired vector of an indexed namespace is in the real index |
| `ServingLedger.TalliedTracks` | internal/server/handlers_vector.go:94-150 | The keys stored and indexed after a logged command that is answered can be told from the log alone |
| `ServingReplay.RiskFreeIsAnswered` | internal/server/server.go:264-327 | A logged command that stores no new key in an index that has lost one while it had two nodes is answered, whatever is drawn |
| `ServingReplay.RiskFreeReplays` | cmd/server/main.go:56-67 | On a log that never does so every replay answers every command |
| `ServingDraws.PeakFalls` | internal/hnsw/index.go:185-197 | If the entry point is the one node on layer 1 and its key is deleted beside another node that can inherit, no node of layer 1 is left alive and the entry point lies below it |
| `ServingDraws.FallenDies` | internal/hnsw/search.go:189-190 | Into such an index a batch that brings a new key dies with the first it brings, if that is drawn on layer 1 |
| `ServingRisk.RiskFreeFamily` | internal/hnsw/index.go:92-108 | As long as a log has done nothing of the kind, some draws answer it all and leave all nodes on the ground, some leave any one stored key alone on layer 1, and once a deletion has prepared it some leave the entry point fallen |
| `ServingRestart.SomeReplayDies` | cmd/server/main.go:56-67 | On a log that does so some replay dies |
| `ServingRestart.ReplayCanDieExactly` | cmd/server/main.go:56-67 | For logs of one dimension a namespace and sound parameters, some levels and orders make a replay die if and only if a VDEL takes a live key from an index of at least two nodes and a new key is stored in it later in its life |
| `ServingRestart.RebuiltIsReplay` | cmd/server/main.go:56-67 | The server starts with what the replay over real indexes leaves, or not at all if a handler dies in it |
| `ServingRestart.LogIsFine` | internal/server/server.go:234-253 | What a tame run logs passes the same checks again |
| `ServingRestart.EveryLogIsTame` | internal/hnsw/index.go:92-108 | With all levels 0 the commands of any such log, a risky one too, are a tame run: the checks at run time cannot rule it out |
| `ServingRestart.TameRunsAreRebuiltExactly` | cmd/server/main.go:56-67 | A tame run without TTLs, whose logged commands the log preserves, is rebuilt from its file by every restart, with the same data, if and only if the log takes no such risk |
| `ServingFaults.OneLinkDies` | internal/hnsw/node.go:36-43 | VINDEX CREATE n M 1, VSET n a 1 1: a level that an infinity converts to kills the handler; a is stored, not logged and not indexed, and the index stays locked |
| `ServingFaults.AnsweredThenKills` | cmd/server/main.go:56-67 | VINDEX CREATE n, VSET n a 1 1, VSET n b 1 1, VDEL n a, VSET n c 1 1: some draws answer all five in a tame run, and some make the replay of its log die |
| `ServingFaults.LongBatchParts` | internal/server/handlers_vector.go:339-343 | Every VMSET into an index whose entry point has a shorter vector gets no reply, and leaves its later new vectors in the store and out of the index |
| `ServingFaults.LongVectorIsLost` | internal/server/server.go:234-253 | Every such VSET gets no reply and is stored but not logged |
| `ServingFaults.MixedDimensionsPart` | internal/server/handlers_vector.go:329-343 | VINDEX CREATE n, VSET n b 2 1 0, VMSET n 3 2 x 1 0 0 y 0 1 0: however the run goes, y is in the store and not in the index |
| `ServingFaults.DeletedVectorStillKills` | internal/hnsw/index.go:171-200 | VINDEX CREATE n, VSET n b 2 1 0, VDEL n b, VSET n x 3 1 0 0: the namespace is empty when x comes, yet its handler dies on the vector of the deleted node; x is stored and not logged |

## Left out

- Floating point: rounding, NaN, infinities and overflow of float32 are not modelled; in
  exact arithmetic the order of additions does not matter.
- `extendCandidates` of selectNeighborsHeuristic and `selectNeighborsSimple`: no caller uses
  them. The cache of node vectors and the repeated range checks on it show in no result.
- `randomLevel`: the level is an argument of Insert, anything that it can return; its
  distribution is not modelled. Statistics counters, memory estimates and `VNSList` are left out.
- HnswInsert.Insert: the method and the relation `Inserts` take a metric defined on all
  vectors; that `CosineDistance` panics on a shorter second vector is added by
  `HnswServed.Inserting`, for calls of the server. A negative K, on which Search panics, and
  more than 2^32 nodes are not modelled.
- HnswServed.CanDieExactly: a vector shorter than those of the index can die too, if a list is
  pruned; with vectors of several dimensions whether the walk compares a longer vector with a
  shorter one is left open, and both ends are allowed.
- HnswLocks.NoCycle: no thread of that model panics; what a panic leaves locked is modelled
  for calls one after the other only, in `HnswServed`.
- HnswRuns.RunsAreWellFormed: a history ends with an insert that faults; what holds of the keys
  after one is `HnswServed.InsertingRefines`.
- Snapshot.LoadSnapshot: the loaded index is a value, whose node slots may be empty, not an
  object; loading then searching is not modelled.
- HnswInterleaving.RunsAreSafe: nothing is said about the degree cap or repeated links under
  concurrency, nor about Delete running at the same time, because the code guarantees
  neither.
- CommandText.TextRoundTrip: command names are upper-cased for ASCII letters only.
- Replay.ReplayRebuilds: TTLs are excluded, because they are reapplied relative to the time of
  replay; no snapshots are loaded; empty namespaces are not compared.
- ServingRestart.ReplayCanDieExactly: for logs with one dimension in each namespace and sound
  index parameters, as a tame run writes them; without these `HnswServed.CanDieExactly` and the
  lemmas of `ServingFaults` say how an insert dies.
- HnswServed.Inserting: for M = 1 the level is any negative number, or the maximum, because Go
  leaves the conversion of an infinity to the platform. Memory that runs out below the limits
  of `make`, which stops the process and is no panic, is not modelled, for M, EF and batch
  counts alike.
- Stores.Store.SweepExpired: operations run one at a time with one clock reading each; the
  window between finding a namespace and locking it, in which a sweep can orphan a write, is
  not modelled. Durations do not wrap around.
- Servers.Server.Dispatch: replies are modelled as errors, integers, values or
  formatted data; the formatting of floats, INFO and VNS LIST is not. Whether a client is let
  in is an input; passwords, TLS, connections and shutdown are left out. The connection of a
  handler that dies, and with it the commands sent after it, are not modelled.
- Splitting a stream of pipelined commands over network reads is left out; one line at a time
  is modelled. Case mapping of letters beyond ASCII is not modelled.
- Resp.ReadResponse: a length that asks for more memory than there is ends, in the model, as
  the end of the input.
- TopK.Parallel: the channel is as long as the entries, so sending never blocks; the map
  iteration order of the entries is any order.
- Recall, latency and the level distribution are statistical; the ingestion daemon, the BM25
  retriever, the gateway, the command line tools and the MCP server beyond its quoting are
  not modelled.
