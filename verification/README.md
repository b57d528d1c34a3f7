# HNSQR vector index: a verified model

HNSQR is a vector index over complex vectors: a lock-free arena of slots, an HNSW-style graph searched
classically or by "superposition" beams, a bounded Rivero resolver over a reciprocal witness graph, and a
write-ahead journal. This project models the index core in Dafny and proves what its operations keep,
return and promise, over every input, every interleaving or every run.

How the model is set up:

- Floats are reals. Square root, exponential, base-2 logarithm, heap tie-breaking, heap iteration order and
  `select_nth_unstable` are parameters restricted only by what they promise (`IsSqrt`, `IsLog`, `Lawful`,
  `SelectsNth`), so a theorem holds for every implementation of them.
- Where the program updates things step by step, the model has methods and classes proved against a function
  of the old state; the theorems are about those functions and about whole runs of them.
- The concurrent arena is a state machine over its atomic steps, sequentially consistent. Inserts interleave
  freely as readers of the lifecycle gate; `remove` and `clear` hold it alone. `State.claims` and the holder of
  a sentinel are history the program does not store. The dimension and optimiser checks are one step with the
  ID reservation, and `clear` wipes one slot per step.
- Routing (which slots Rivero votes for), confidence evaluation and random levels are parameters: the results
  hold whatever they return.

Files carry the names of their modules. From the bottom up: `Basics`, `Ranking` (the score-then-index order and
top-k), `ComplexVectors`, `Kernels`, `Overlap`, `ExactSearch`, `Metrics`; `Heaps`, `LayerCore`, `LayerOptimality`,
`ClassicalSearch`, `Superposition`, `BeamAttention`, `Descent`, `ClassicalDescent`; `Neighbours`, `Wiring`,
`BackLinks`, `Roots`, `GraphIndex`; `WitnessLists`, `WitnessSelection`, `WitnessGraph`, `WitnessOutcomes`, `Hops`,
`Resolution`, `Adaptive`, `Fallback`; `Visited`, `Arena`, `ArenaProofs`, `ArenaOutcomes`, `Journal`, `Recovery`;
`Ndcg`. `dafny verify dfyconfig.toml` checks the whole project.

Places where the code does not meet what its documentation or its shape suggests are kept as they are. Each has
a lemma that says exactly when the code does meet it, and one at a concrete input where it does not:

- `len` can exceed the arena for a moment, and a scan up to `len` then asks for a slot that does not exist
  (`LenWithinArenaIff`, `ScansInBoundsIff`, `LenExceedsArena`).
- The documented overlap ratio is not what is returned below the denominator floor
  (`OverlapIsDocumentedRatioIff`, `ShortVectorsFallShort`).
- Outside strict mode live nodes go on naming removed ones (`RemovedIsForgottenIff`, `RemovedStaysNamed`).
- NDCG can exceed 1 on repeated results (`NdcgAtMostOneIff`, `RepeatedHitExceedsOne`).
- The graph fallback can displace a true neighbour under a filter (`NeighbourLostIff`,
  `FallbackKeepsRecallIff`, `AdaptiveLosesIff`, `AdaptiveKeepsRecallIff`, `FilteredFallbackDisplaces`).
- The journal stops standing for the index after a recorded insert that fails, an unrecorded change or a clear
  (`StepAgreesIff`, `FullInsertLeavesPhantom`).
- "Replay is idempotent" is false: a second recovery can lose what the first restored
  (`SecondRecoveryExactIff`, `SecondRecoveryLoses`, `SecondRecoveryLosesFull`), and a recovery can write a deleted
  vector back into the journal (`EchoMeansTheSameIff`, `EchoRevives`).
- With several journal segments a recovery replays its own appended records and can bring removed vectors back
  (`SegmentedRecoveryExactIff`, `RereadExactIff`, `ClosedSegmentsDecide`, `SegmentsResurrect`).
- An entry point need not be on the top level (`StaysTopmostIff`, `StrandedEntry`).
- Strict resolution with `k = 0` and an eligible candidate asks for position `k - 1` (`UnderflowIff`,
  `OneCandidateUnderflows`).

One oddity turns out harmless: the route list of an insertion is ranked by votes but searched by bisection, and
the witnesses selected are the same whatever the bisection misses (`BisectionNeverMatters`).

## Model

| member | source | states |
|---|---|---|
| Ranking.RankedUnique | src/lib.rs:4221-4227 | A listing sorted by score descending, index ascending is determined by its multiset. |
| Ranking.PartialSelection | src/lib.rs:4221-4227 | Any outcome of partial selection at `k - 1`, truncated and sorted, is the first `k` of the full sort. |
| Ranking.TopKMember | src/lib.rs:4221-4227 | A scored slot is in the top k exactly when fewer than k scored slots are ahead of it. |
| Ranking.TrueNeighboursSurvive | src/lib.rs:4379-4686 | For S within E, a member of topk(E) that is in S is in topk(S). |
| Ranking.RecallNeverRegresses | src/lib.rs:4379-4686 | For S within T within E, topk(E) and topk(S) together stay in topk(T). |
| Ranking.RankSameOrder | src/lib.rs:2327-2358 | Two score functions that order every pair of slots alike give the same ranking of slots. |
| ExactSearch.SelectTop | src/lib.rs:4221-4227 | Select, truncate and sort yield the first `k` of the full ranking. |
| ExactSearch.SearchExact | src/lib.rs:4168-4231 | Exact search returns the first `k` of all live, permitted slots ranked by score then index; a dimension mismatch is an error. |
| ExactSearch.ProjectiveMetricsReturnTheSame | src/lib.rs:2327-2358 | Overlap, sine and chordal metrics return the same slots in the same order for every corpus, mask, query and k. |
| Metrics.ProjectiveScoresMean | src/lib.rs:2341-2351 | With true norms the projective scores are the documented overlap P, 1 - sqrt(1 - P) and 2 - sqrt(2(1 - sqrt P)). |
| Metrics.SineIsDistanceToLine | src/lib.rs:1332-1339 | For unit vectors the Sine score is 1 minus the distance from the query to the complex line of the vector: no multiple is nearer, one is as near. |
| Metrics.ChordalIsPhaseAligned | src/lib.rs:1341-1350 | For unit vectors the Chordal score is 2 minus the distance to the vector turned by the best global phase: no phase brings it nearer, one as near. |
| Metrics.NearerScoresHigher | src/lib.rs:2327-2358 | Under each of the five metrics, with true norms, a vector scores higher exactly when it is nearer in the metric's own terms. |
| Metrics.ExactReturnsNearest | src/lib.rs:4168-4231 | Exact search returns the nearest eligible slots, k or all, nearer ones first and equally near ones by index; nothing left out is nearer. |
| Kernels.DotFloatsAvx2 | src/lib.rs:777-865 | Four eight-lane accumulators, a single-vector loop, the shuffle reduction and the tail sum the plain products, for any product operation. |
| Kernels.DotRealAvx2 | src/lib.rs:777-865 | The AVX2 kernel returns the real part of the inner product over the shorter length, for every length. |
| Kernels.DotFloatsNeon | src/lib.rs:867-944 | The four-lane version sums the plain products, for any product operation. |
| Kernels.DotRealNeon | src/lib.rs:867-944 | The NEON kernel returns the real part of the inner product, for every length. |
| Kernels.DotComplexNeon | src/lib.rs:946-1013 | The deinterleaving NEON kernel returns the complex inner product, for every length. |
| Kernels.DotComplexAvx2 | src/lib.rs:1015-1114 | The AVX2 kernel with lane swaps and alternating signs returns the complex inner product, for every length. |
| Kernels.DotComplexScalar | src/lib.rs:1116-1151 | The four-way unrolled scalar kernel returns the complex inner product, for every length. |
| Overlap.CauchySchwarz | src/lib.rs:1319-1330 | Complex Cauchy-Schwarz for vectors of every dimension. |
| Overlap.ClampNeverFires | src/lib.rs:1324-1330 | The floored ratio is already in [0, 1] and is what the overlap returns. |
| Overlap.OverlapIsDocumentedRatioIff | src/lib.rs:1319-1330 | The documented ratio is returned exactly when the norm product reaches the floor or the vectors are orthogonal. |
| Overlap.ShortVectorsFallShort | src/lib.rs:1319-1330 | A vector of length 1/10,000 overlaps itself by 1/10,000, where the documented ratio is 1. |
| Overlap.PhaseInvariance | src/lib.rs:1319-1330 | Multiplying either vector by a unit complex number does not change the overlap. |
| Overlap.ProjectiveScoresAgree | src/lib.rs:2341-2351 | The three projective scores order any two slots alike, whatever the cached norms. |
| Overlap.CosineClampNeverFires | src/lib.rs:2334-2340 | With true norms the cosine ratio is in [-1, 1] before it is clamped. |
| Overlap.EuclideanScoreIsDistance | src/lib.rs:2352-2356 | With true cached norms the Euclidean score is minus the componentwise distance. |
| Overlap.WriteVector | src/lib.rs:1792-1808 | The slot gets the components that fit and keeps the rest; the cached norm is theirs, hence the vector's own for data of the right dimension. |
| LayerOptimality.StepKeeps | src/lib.rs:3191-3346 | One round of the batched search keeps: scored is explored, the result heap is the best of scored, pending slots are queued. |
| LayerOptimality.CoreLocallyOptimal | src/lib.rs:3191-3346 | The shared loop is locally optimal at exit for every batch width. |
| LayerOptimality.ReachableReturned | src/lib.rs:3191-3346 | A locally optimal list is the whole reachable set when that has at most `ef` members. |
| Heaps.LawfulExists | src/lib.rs:1895-1937 | The assumptions about heap tops and iteration can be met. |
| ClassicalSearch.ClassicalIsCore | src/lib.rs:3360-3490 | The classical loop does what the batched loop does with width 1. |
| ClassicalSearch.ClassicalLocallyOptimal | src/lib.rs:3405-3488 | At exit: distinct, ranked, at most `ef`; every permitted neighbour of a returned live node was scored; a scored node left out beats nobody and the list then has exactly `ef` entries. |
| ClassicalSearch.ClassicalSearchLayer | src/lib.rs:3360-3490 | The two-heap loop terminates on any finite graph and returns the specified list. |
| Superposition.AttentionNeverMatters | src/lib.rs:3130-3357 | The list does not depend on interference weight, temperature, exponential or beam vectors. |
| Superposition.WidthOneIsClassical | src/lib.rs:3130-3357 | With beam width 1 the list is the classical search's, on every graph, mask, entry point and `ef`. |
| Superposition.SuperpositionLocallyOptimal | src/lib.rs:3191-3346 | Local optimality at exit for every beam width. |
| Superposition.SmallReachableSetReturned | src/lib.rs:3191-3346 | If the reachable set has at most `ef` members both searches return all of it, as the same list. |
| Superposition.SuperpositionSearchLayer | src/lib.rs:3130-3357 | The loop over batches, beams, attention and heaps terminates on any finite graph and returns the specified list. |
| Superposition.Iterate | src/lib.rs:3191-3346 | One round changes queue, results, visited set and beam as specified. |
| BeamAttention.WeightsAreSoftmax | src/lib.rs:3298-3315 | The attention weights are positive, sum to 1 and are ordered as the scores are. |
| BeamAttention.BeamStateIsSum | src/lib.rs:3218-3230 | Every component of the beam state is the weighted sum of the beam's vectors. |
| BeamAttention.CoherenceSign | src/lib.rs:3280-3290 | The coherence bonus has the sign of the phase agreement. |
| BeamAttention.TotalScoreBounded | src/lib.rs:3270-3297 | Without a beam the score is the fidelity, with one it is a mix of the fidelity and a bonus between -1/2 and 1. |
| BeamAttention.BeamReplaced | src/lib.rs:3191-3346 | A round pops as many candidates as the beam is wide and replaces the beam by the first new neighbours. |
| Descent.LevelFacts | src/lib.rs:3130-3357 | A level search returns slots of the graph once each with true similarity, permitted or the entry, and comes no worse than its entry. |
| Descent.LandingFacts | src/lib.rs:3945-3987 | Seeding and descent land at a slot at least as similar to the query as every root, whatever the layers look like. |
| Descent.BestRootIsFirst | src/lib.rs:3945-3965 | Among equally similar roots the first one is taken. |
| Descent.DescentPeaks | src/lib.rs:3969-3987 | Where the descent leaves a level it is no worse than where it entered it, and no neighbour on that level is more similar. |
| Descent.GraphSearchFacts | src/lib.rs:3926-4010 | Graph hits are live with true similarity, and permitted except possibly the landing slot. |
| Descent.GraphSearchComplete | src/lib.rs:3926-4010 | Hits come ranked, once each, at most min(ef, k), and no permitted live neighbour of a hit is missed unless it beats no hit. |
| Descent.SmallGraphSearched | src/lib.rs:3989-4006 | If at most ef slots are reachable from the landing slot, the hits are exactly the best k live ones of them. |
| Descent.InsertionFinds | src/lib.rs:2898-2950 | What an insertion finds on each level names slots of the graph once each with true similarity. |
| Descent.InsertionAscends | src/lib.rs:2898-2950 | What an insertion finds on a level is a ranked local optimum of it that begins no worse than the level above, or than the landing slot. |
| Descent.SearchGraph | src/lib.rs:3926-4010 | Seeding, descent, base search, liveness filter and truncation compute the specified hits. |
| Descent.SearchLevels | src/lib.rs:2898-2950 | Seeding, descent and the search on every level of a new node compute the specified lists. |
| ClassicalDescent.ClassicalLandingFacts | src/lib.rs:4034-4073 | The classical descent lands at a slot at least as similar to the query as every root. |
| ClassicalDescent.GraphSearchIsClassical | src/lib.rs:4012-4095 | At beam width 1 the whole superposition search returns what the whole classical one returns, for every graph, roots, filter, ef and k. |
| ClassicalDescent.AttentionNeverMattersDescending | src/lib.rs:3926-4010 | Two superposition searches of the same beam width return the same hits whatever their attention parameters and vectors. |
| ClassicalDescent.SearchGraphClassical | src/lib.rs:4012-4095 | Seeding, greedy descent, base search, liveness filter and truncation compute the specified hits. |
| ClassicalDescent.ClassicalSearchComplete | src/lib.rs:4012-4095 | Hits of the classical search are live, exact, permitted unless the landing slot, ranked, and miss no neighbour of a hit that beats one. |
| WitnessLists.InsertFacts | src/rivero/witness.rs:136-168 | An old edge to the same slot goes first; the new list is the rest plus the edge minus the evicted one, tidy and within the degree; retained says whether the edge is in it. |
| WitnessLists.InsertKeepsBest | src/rivero/witness.rs:136-168 | The insertion keeps exactly the best `degree` of the edge and the list less its edge to the same slot. |
| WitnessLists.FindPosition | src/rivero/witness.rs:158-160 | Binary search finds the place the ordering asks for. |
| WitnessLists.InsertEdge | src/rivero/witness.rs:139-168 | Removal of the old edge, insertion, eviction and truncation do what is specified, degree 0 included. |
| WitnessLists.SelectTopFacts | src/rivero/witness.rs:109-134 | At most `degree` entries, one per slot, ranked, from the candidates; a candidate left out is beaten by its own slot's entry or by a full list. |
| WitnessLists.SelectWitnesses | src/rivero/witness.rs:109-134 | The selection loop computes that list. |
| WitnessLists.RequestsHonoured | src/rivero/witness.rs:69-86 | Requested degrees and seeds of up to 64 are honoured, larger ones count as 64. |
| WitnessSelection.SelectTopOfSet | src/rivero/witness.rs:109-134 | The selection depends on the set of scored candidates only, not on order or repetitions. |
| WitnessSelection.ProposedElems | src/lib.rs:2587-2634 | Scored are exactly the live candidates and the live ones of the first `degree` witnesses of the best of them, whatever bisection finds. |
| WitnessSelection.BisectionNeverMatters | src/lib.rs:2613-2617 | Bisecting the vote-ranked, hence unsorted, route list never changes the witnesses selected. |
| WitnessSelection.SelectRivero | src/lib.rs:2576-2639 | Scoring, expansion over the seeds' witnesses and selection yield the specified witnesses within degree x degree edges. |
| WitnessGraph.InsertedKeeps | src/lib.rs:2641-2691 | An insert keeps witness lists mutual, irreflexive, tidy and bounded through evictions and rejections. |
| WitnessGraph.RemovedKeeps | src/lib.rs:5880-5912 | A removal keeps the same invariant. |
| WitnessGraph.WitnessesAlwaysMutual | src/lib.rs:2820-2869 | In every run of inserts, removals and clears the witness relation on live nodes is symmetric, irreflexive and degree-bounded; in strict mode no live node names a deleted one. |
| WitnessGraph.RemovedIsForgottenIff | src/lib.rs:5880-5912 | A removed node is forgotten by all live nodes exactly in strict mode or if nobody named it. |
| WitnessGraph.RemovedStaysNamed | src/lib.rs:5887-5912 | A run outside strict mode after which a live node names a removed one. |
| WitnessOutcomes.InsertionAchieves | src/lib.rs:2641-2691 | Each of the best live candidates with fewer than `degree` stronger edges accepts the new node, whose list is those that did; old lists gain nothing else, and an old edge goes only where the new node took a stronger place at one end. |
| WitnessOutcomes.RemovalAchieves | src/lib.rs:5880-5912 | The slot is no longer live; in strict mode the live lists lose exactly their edge to it, otherwise nothing. |
| WitnessGraph.WitnessIndex.Insert | src/lib.rs:2819-2869 | Scoring, expansion, selection, reciprocal linking and publication turn the graph into the specified one. |
| WitnessGraph.WitnessIndex.Adopt | src/lib.rs:2841-2869 | A node with given witnesses is written, offered to them and keeps those that keep it. |
| WitnessGraph.WitnessIndex.AddReciprocal | src/lib.rs:2641-2691 | The loop over the witnesses links, evicts and rejects as specified. |
| WitnessGraph.WitnessIndex.Remove | src/lib.rs:5880-5912 | The removal forgets the slot in its witnesses' lists as specified. |
| Resolution.StrictWork | src/lib.rs:5431-5624 | Counters add up, work is bounded whatever the corpus size, and scored are exactly the eligible ones among the candidates, the first `degree` connections of the best of them, and those of the best newly met: witnesses, or layer 0 where there are none. |
| Resolution.StrictCounts | src/lib.rs:5519-5549 | The diagnostics tell dead slots and slots the filter rejected apart. |
| Resolution.ResolutionOutcome | src/lib.rs:5409-5625 | An error for a wrong dimension or address, otherwise the best k of the eligible slots looked at, ranked. |
| Hops.ConnectionsTouched | src/lib.rs:2693-2711 | From a live seed the first `degree` witnesses are followed, or the first `degree` layer-0 connections if it has none. |
| Hops.TwoHopsLook | src/lib.rs:5490-5605 | Two hops visit exactly the connections of the best scored slots and of the best newly found ones, and score the eligible part. |
| Resolution.ProductionCeilings | docs/README.md:18-28 | With the production caps at most 4,096 edges and 6,144 exact scores, whatever the corpus size. |
| Resolution.ReportedBoundHolds | src/rivero/witness.rs:92-100 | The reported two-hop bound is never exceeded. |
| Resolution.StrictHits | src/lib.rs:5609-5624 | Hits are live, permitted, exact, once each, and no eligible slot looked at and left out beats any of them. |
| Resolution.FollowList | src/lib.rs:5519-5549 | The edge loop scans, marks, counts and scores as specified. |
| Resolution.UnderflowIff | src/lib.rs:5609-5614 | The selection underflows exactly for a valid request with `k = 0` and an eligible candidate. |
| Resolution.OneCandidateUnderflows | src/lib.rs:5609-5614 | One live candidate and `k = 0` underflow it. |
| Resolution.Resolve | src/lib.rs:5409-5625 | Validation errors, candidate scoring, two hops and partial selection return the specified outcome: the top k of everything scored with the counters. |
| Adaptive.StageKeeps | src/lib.rs:4394-4612 | A stage keeps everything scored before it, scores no slot again and leaves the list ranked. |
| Adaptive.StageWork | src/lib.rs:4410-4608 | A stage follows at most its own (seeds + second) x degree edges and newly scores at most its candidate budget plus those, whatever the corpus size; Strict has no expansion in its budget, filter or not. |
| Adaptive.StageLooks | src/lib.rs:4394-4612 | Exactly what a stage has looked at: the first 512, 1,024 or 2,048 voted slots, the wider route where a filter starves it, and two hops with that stage's limits. |
| Adaptive.StagesFollow | src/lib.rs:4379-4687 | Fast, Balanced and Strict follow one another exactly while escalation is recommended, each from the work of the one before. |
| Adaptive.HitsAreBest | src/lib.rs:4610-4741 | Without a fallback the hits are the best k of all eligible slots visited. |
| Adaptive.FallsBackIff | src/lib.rs:4691-4703 | The graph is searched exactly when every stage recommends escalation, the policy allows it and at most 100,000 slots are live. |
| Adaptive.StagesKeep | src/lib.rs:4379-4687 | Across all stages nothing is scored twice, everything scored is eligible and exact, later stages extend earlier ones. |
| Adaptive.RecallAcrossStages | src/lib.rs:4379-4687 | A true top-k neighbour scored in one stage is returned by it and by every later one. |
| Adaptive.MergedFacts | src/lib.rs:4703-4713 | The fallback merge keeps every scored entry, names no slot twice and adds only slots not scored. |
| Adaptive.FallbackKeepsRecall | src/lib.rs:4689-4718 | The merge keeps a true neighbour already scored if graph hits ahead of it are eligible and exact. |
| Adaptive.GraphHitsTruthful | src/lib.rs:3926-4010 | Every graph hit is live and exact, and permitted unless it is the slot the base layer is entered at; all are if the filter admits that slot. |
| Adaptive.AdaptiveKeepsRecall | src/lib.rs:4348-4741 | Stages, graph search and merge together return every true top-k neighbour any stage scored, if the filter admits the slot the graph is entered at. |
| Adaptive.RunStage | src/lib.rs:4394-4612 | One pass of the stage loop computes the specified stage. |
| Adaptive.RunStages | src/lib.rs:4394-4686 | The stage loop runs the specified stages, at most three, and stops convinced unless Strict still recommends escalation. |
| Adaptive.MergeHits | src/lib.rs:4704-4713 | The hash-map merge gives the specified entries whatever the map's iteration order. |
| Adaptive.SearchAdaptive | src/lib.rs:4348-4741 | A dimension error, nothing, or the top k of the last stage, merged with a graph search exactly when Strict is unconvinced, the policy allows it and at most 100,000 slots are live. |
| Fallback.NeighbourLostIff | src/lib.rs:4689-4718 | With one hit the filter rejects, a scored true neighbour is lost exactly when that hit is ahead of it, it is the k-th and every neighbour ahead of it is present. |
| Fallback.FallbackKeepsRecallIff | src/lib.rs:4689-4718 | Whatever has been scored, the merge keeps the true neighbours among it exactly when there are fewer than k or the rejected hit is not ahead of the k-th. |
| Fallback.AdaptiveLosesIff | src/lib.rs:4348-4741 | Through stages, graph search and merge: a scored true neighbour is missing exactly when the search falls back, the rejected entry slot is returned and ahead of it, and it is the k-th with all others present. |
| Fallback.AdaptiveKeepsRecallIff | src/lib.rs:4348-4741 | Every route and confidence keep every scored true neighbour unless the policy allows the graph, the corpus is small and its rejected entry slot is returned and ahead of the k-th; then one is lost, for k up to 2,048. |
| Fallback.FilteredFallbackDisplaces | src/lib.rs:4348-4741 | On a graph without edges the whole search, routed to the only true neighbour under a filter, falls back and returns the rejected entry slot instead. |
| Neighbours.SortStableFacts | src/lib.rs:2454-2458 | The pool sort is descending and a permutation. |
| Neighbours.SortStableKeepsOrder | src/lib.rs:2454-2458 | Entries of equal score keep their order. |
| Neighbours.ExtendFacts | src/lib.rs:2413-2452 | The extended pool has the candidates first, no slot twice, and adds exactly unseen connections with base scores. |
| Neighbours.ShortlistFacts | src/lib.rs:2454-2461 | The best 2m of the pool: nothing left out beats anything kept. |
| Neighbours.SelectedFacts | src/lib.rs:2397-2507 | Distinct slots from the pool, at most m, exactly min(m, pool) when pruned edges are kept. |
| Neighbours.SelectedIsDiverse | src/lib.rs:2466-2504 | Accepted slots are closer to the base than to each of the first 16 accepted before; kept ones follow and are not; with fewer than m accepted every shortlisted slot was judged. |
| Neighbours.SelectedIsGreedy | src/lib.rs:2397-2507 | The selection is exactly the greedy one: the shortlist judged in order against the first sixteen accepted, then, if kept, the first ones turned down. |
| Neighbours.ExtendPool | src/lib.rs:2413-2452 | The visited-set loops compute the extended pool. |
| Neighbours.Pick | src/lib.rs:2463-2504 | The accept and fill loops compute the specified selection. |
| Neighbours.SelectNeighbours | src/lib.rs:2397-2507 | The whole procedure returns the specified selection, early return included. |
| Wiring.PrunedFine | src/lib.rs:2995-3040 | Pruning keeps a duplicate-free part of the list within the limit. |
| Wiring.LinkBack | src/lib.rs:2991-3041 | Linking back and pruning changes one list only and keeps all lists within their limits. |
| Wiring.InsertedKeeps | src/lib.rs:2936-3044 | A graph insertion keeps every list distinct and within m0/m, and the new node's lists are exactly the neighbours chosen. |
| Wiring.ListsStayBounded | src/lib.rs:2984-3044 | In every serial run every connection list is distinct, within m0 on level 0 and m above, and among claimed slots. |
| BackLinks.WireLinks | src/lib.rs:2988-3042 | One edge: a live neighbour with room appends the new node, a full one is pruned, every other list stays. |
| BackLinks.NewcomerKept | src/lib.rs:3028-3035 | Without the heuristic a full list takes the newcomer exactly when it is more similar than one of its entries. |
| BackLinks.InsertedLinksBack | src/lib.rs:2984-3044 | On every level exactly the live slots the new node chose link back, each as its room and pruning allow; all other lists are unchanged. |
| BackLinks.PlainChoice | src/lib.rs:2954-2975 | Without the heuristic the new node takes the best it found, as many as the level admits, best first. |
| BackLinks.DiverseChoice | src/lib.rs:2954-2968 | With it the choice is greedy from the best of the pool of candidates and, if extended, their live connections. |
| Wiring.Graph.WireEdge | src/lib.rs:2988-3042 | One edge of the wiring loop changes the graph as specified. |
| Wiring.Graph.Connect | src/lib.rs:2952-3044 | Selection on all levels, then wiring, change the lists as specified. |
| Wiring.Graph.Insert | src/lib.rs:2853-3044 | Joining and connecting turn the graph into the specified one, given what the searches found. |
| Roots.EntryPointsSound | src/lib.rs:2884-2894 | In every run of insert, remove and clear: entry points exist exactly when a live node does, are live, distinct, at most max(1, ensemble), and the top level bounds every live level. |
| Roots.InsertionRoots | src/lib.rs:3046-3056 | A node above the top level or the first one becomes the only root and sets the top level; one on the top level joins while there is room; any other leaves the roots alone. |
| Roots.RemovalRoots | src/lib.rs:5919-5931 | The other roots stay in order; if none is left the first live slot of layer 0 takes over. |
| Roots.StaysTopmostIff | src/lib.rs:5919-5931 | Entry points stay on the top level exactly unless the last one is removed and its replacement is lower. |
| Roots.StrandedEntry | src/lib.rs:5919-5931 | A run after which the only entry point is below the top level. |
| Roots.Ensemble.Insert | src/lib.rs:3046-3056 | Root case, promotion and ensemble growth as specified. |
| Roots.Ensemble.Remove | src/lib.rs:5919-5931 | Removal and replacement scan as specified. |
| Roots.Ensemble.ClearAll | src/lib.rs:5937-5947 | Clearing empties levels, live set, layer 0, entry points and top level. |
| GraphIndex.FoundSearched | src/lib.rs:2896-2957 | The searches of an insertion, run on the net it has just joined from its own roots, hand over what the wiring needs. |
| GraphIndex.InsertedKeeps | src/lib.rs:2853-3056 | A whole insertion keeps the net, the roots and their agreement sound. |
| GraphIndex.InsertionConnects | src/lib.rs:2853-3044 | An insertion's searches end at local optima level by level, the new node's lists are choices from what they found, the chosen live slots link back, no other list changes. |
| GraphIndex.GraphAlwaysSound | src/lib.rs:2853-3056 | In every run of insertions that search the very graph they extend, removals and clears, every list is distinct and within m0/m and the entry points are sound. |
| GraphIndex.SearchAfterRun | src/lib.rs:3926-3987 | After every run a search is safe and starts at least as close to the query as every live root. |
| GraphIndex.Index.Insert | src/lib.rs:2853-3056 | Join, search, connect and update the roots as specified. |
| GraphIndex.Index.Search | src/lib.rs:3926-4010 | The graph search of the current state returns the specified hits. |
| Visited.NextEpochEmpties | src/lib.rs:647-660 | A new epoch starts with the empty set, across u32 wrap-around and resizing, with room for the asked capacity, and a pool already large enough keeps its size. |
| Visited.MarkAddsOne | src/lib.rs:673-683 | Marking adds exactly one slot. |
| Visited.PoolRefinesSet | src/lib.rs:632-684 | No sequence of operations tells the pool from a set. |
| Visited.VisitedPool.AdvanceEpoch | src/lib.rs:647-660 | The epoch advance resizes, wraps and refills as specified. |
| Visited.VisitedPool.MarkVisited | src/lib.rs:673-683 | Marking grows the tags as needed and changes one tag. |
| Visited.VisitedPool.IsVisited | src/lib.rs:662-671 | The answer is membership in the set the pool stands for. |
| ArenaProofs.StepKeepsInv | src/lib.rs:2722-2869 | Every atomic step of insert, remove and clear keeps the protocol invariant. |
| ArenaProofs.StepsInBounds | src/lib.rs:1792-1862 | No step an insert, a remove or a clear is about to make leaves the arena's bounds. |
| ArenaProofs.ScansInBoundsIff | src/lib.rs:1785-1790 | `is_live` is asked for a missing slot exactly for positions from capacity up to `len`, so never exactly while no claimer is overflowed. |
| ArenaProofs.ClaimAccounting | src/lib.rs:1755-1765 | Under any interleaving at most capacity slots are claimed; below capacity `len` is their number, at capacity it exceeds it by the claimers between fetch_add and fetch_sub. |
| ArenaProofs.FillersAreDistinct | src/lib.rs:2801-2842 | No two inserts fill the same slot at the same moment. |
| ArenaProofs.ClaimsPersist | src/lib.rs:1755-1765 | Between two clears no claim is dropped or changed. |
| ArenaProofs.ClaimsAreDistinct | src/lib.rs:1755-1765 | Two claims of a run with no clear between them never get the same slot, whether or not the earlier insert has finished. |
| ArenaProofs.LenWithinArenaIff | src/lib.rs:1755-1765 | `len` stays within the arena exactly while no claimer is between its overflowing fetch_add and the fetch_sub. |
| ArenaProofs.LenExceedsArena | src/lib.rs:1755-1765 | One insert into an arena without slots makes `len` 1 before it rolls back, and slot 0 is asked for. |
| ArenaProofs.LiveMeansComplete | src/lib.rs:2810-2869 | A slot seen LIVE has its vector, norm and node fully written, and its ID maps to it unless a remove is under way. |
| ArenaProofs.OneLiveSlotPerId | src/lib.rs:2736-2745 | At most one live slot per external ID at every moment of every run. |
| ArenaProofs.RemoveNeverSeesSentinel | src/lib.rs:5864-5904 | `remove` never finds the reservation sentinel, always a live slot. |
| ArenaProofs.Quiescent | src/lib.rs:1767-1790 | At quiescence the ID table is a bijection onto the LIVE slots, live_count is their number, and no claimed slot is left half-written. |
| ArenaOutcomes.InsertCompletes | src/lib.rs:2722-2869 | Run to its end, an insert maps the ID to the next slot, LIVE with its vector, norm and ID, and changes nothing else; every refusal leaves everything as it was. |
| ArenaOutcomes.RemoveCompletes | src/lib.rs:5864-5898 | A removal unmaps the ID, deletes its slot, lowers the count by one and changes nothing else. |
| ArenaOutcomes.ClearCompletes | src/lib.rs:1877-1895 | A clear leaves no ID, no LIVE slot, wiped slots and zero counters. |
| ArenaOutcomes.PublishedIsThere | src/lib.rs:2842-2869 | Under any interleaving an insert that has published finds its slot LIVE with what it claimed it for, and mapped. |
| ArenaOutcomes.InsertedOnSchedule | src/lib.rs:2722-2869 | The same of an insert scheduled after any schedule, whoever else is under way. |
| ArenaOutcomes.RemovedOnSchedule | src/lib.rs:5864-5898 | The same of a removal, whatever else is tried meanwhile. |
| ArenaOutcomes.ClearedOnSchedule | src/lib.rs:5937-5952 | The same of a clear. |
| Journal.StepAgreesIff | src/lib.rs:2746-2808 | An operation keeps journal and live map in agreement exactly when it is not a recorded insert that fails, an unrecorded change or a clear of a non-empty index. |
| Journal.FreshInsert | src/lib.rs:2746-2808 | By append outcome: live and recorded, recorded only, neither, or live only. |
| Journal.JournalRefinesIndex | src/lib.rs:2736-2758 | In every run without such an operation folding the journal gives the live map after every operation. |
| Journal.StepRebuildsIff | src/lib.rs:5864-5878 | An operation keeps the index recoverable at its own capacity exactly when it is not an insert recorded but not accepted or the reverse, an unrecorded removal, or a clear of a used index; a full index is no obstacle. |
| Journal.RunRebuilds | src/lib.rs:2138-2169 | In every run without such an operation replaying the journal rebuilds live map and slots claimed. |
| Recovery.CrashRecovery | src/lib.rs:2138-2169 | After such a run `recover_from_wal` from a journal of one segment, on a fresh index of the same limits, restores the live map without exhausting slots. |
| Journal.RecoveryExactIff | src/lib.rs:2143-2164 | For every journal and capacity, replay rebuilds the journal's map exactly when every live ID was last upserted while slots were left. |
| Journal.EnoughSlots | src/lib.rs:2143-2164 | As many slots as recorded insertions suffice, and are all used. |
| Recovery.RecoveryReplays | src/lib.rs:2143-2164 | Whatever becomes of its own appends, recovery does to the index what replaying the records does, an upsert whose append is refused counting as a deletion. |
| Recovery.RecoveryAppends | src/lib.rs:2143-2164 | A recovery, with any capacity and any append outcomes, appends every upsert again and a deletion for every ID it finds live, as far as the appends are recorded. |
| Recovery.EchoMeansTheSameIff | src/storage/wal.rs:429-435 | A recovery leaves the meaning of the journal unchanged exactly when no ID was last upserted without a slot and then deleted. |
| Recovery.EchoRevives | src/storage/wal.rs:429-435 | A recovery without a slot writes a deleted vector back into the journal. |
| Recovery.SecondRecoveryExactIff | src/storage/wal.rs:429-435 | For every journal and capacity a second recovery restores what the first did exactly when every ID the first restored was last upserted within the slots it left free. |
| Recovery.SecondRecoveryLoses | src/storage/wal.rs:429-435 | One vector in an index of one slot survives the first recovery and not the second. |
| Recovery.SecondRecoveryLosesFull | src/storage/wal.rs:429-435 | The same after a run of recoverable operations with an insert into the full index. |
| Recovery.FullInsertLeavesPhantom | src/lib.rs:2746-2808 | An insert into a full index is refused, yet the journal stands for it. |
| Recovery.SegmentsReplay | src/storage/wal.rs:436-548 | With any append outcomes a recovery replays the whole journal and then again what replaying the closed segments made it append. |
| Recovery.SegmentedRecoveryExactIff | src/storage/wal.rs:436-548 | After every run and with any append outcomes, recovery from several segments restores the live map exactly when the last record of every ID, in the journal and what is replayed twice, leaves it as it was. |
| Recovery.RereadExactIff | src/storage/wal.rs:436-548 | After a recoverable run, with its appends accepted, only the records replayed twice decide. |
| Recovery.ClosedSegmentsDecide | src/storage/wal.rs:436-548 | With slots for the closed segments a second time and nothing cut, the live map is restored exactly when every ID upserted in them is live as they alone leave it. |
| Recovery.SegmentsResurrect | src/storage/wal.rs:436-548 | An insertion in a closed segment and its removal in the active one: recovery brings the vector back. |
| Recovery.DurableIndex.Insert | src/lib.rs:2722-2845 | Reservation, append, claim and their roll-backs as specified, with the one result the old state and the append outcome determine. |
| Recovery.ResultTells | src/lib.rs:2722-2845 | Success means the ID is new and live with its vector; a refusal leaves the index as it was and says which test failed first. |
| Recovery.DurableIndex.Remove | src/lib.rs:5864-5878 | The ID goes whatever the append returns. |
| Recovery.DurableIndex.ClearAll | src/lib.rs:5937-5952 | Everything but the journal is reset. |
| Recovery.DurableIndex.Rotate | src/storage/wal.rs:336-353 | Moving on to a new segment closes all records written so far and changes nothing else. |
| Recovery.DurableIndex.Recover | src/lib.rs:2138-2169 | The recovery replays closed segments, then the active one as it is found, while appending. |
| Ndcg.Rearrangement | benches/rivero_adaptive_benchmark.rs:97-124 | Distinct gains never outweigh the ideal order under a positive decreasing discount, and match it only by being it. |
| Ndcg.NdcgBounded | benches/rivero_adaptive_benchmark.rs:97-124 | For distinct results the value is in [0, 1], and 1 exactly when the i-th result is the i-th ground-truth entry. |
| Ndcg.NdcgAtMostOneIff | benches/rivero_adaptive_benchmark.rs:97-124 | For any results the value is never negative, and at most 1 under every discount exactly when no prefix of the gains is worth more than the ideal prefix. |
| Ndcg.PrefixScoresOne | benches/rivero_adaptive_benchmark.rs:97-124 | A non-empty ground-truth prefix scores 1. |
| Ndcg.RepeatedHitExceedsOne | benches/rivero_adaptive_benchmark.rs:97-124 | A repeated hit scores above 1. |
| Ndcg.CalculateNdcg | benches/rivero_adaptive_benchmark.rs:97-124 | Both accumulation loops and the quotient compute that value for the logarithmic discount. |
| Ndcg.LogDiscountAt | benches/rivero_adaptive_benchmark.rs:97-124 | Position i, from 0, is discounted by 1 / log2(i + 2). |

## Left out

- Rivero territory routing, confidence scoring, the planner, proof trees, snapshots, Raft, metadata masks and complex folding: parameters or not part of this model.
- Floating-point rounding, NaN, weak-memory ordering, prefetching, latency statistics, timestamps and random level generation.
- Witness symmetry under overlapping inserts: an evicted node not yet published is skipped, so witness insertions are atomic here; the arena model has no witness, metadata or layer steps.
- `optimize`, bulk building and `install_rivero_state`, which replace lists wholesale; inserts of a caller-supplied node that brings its own layers.
- The refusal of inserts while the index is being optimised: in the arena model it is part of the reservation step, elsewhere it is not modelled.
- The mask for the entry point of a layer search: the program does not test it, and neither do the results claim it.
- WAL frames, checksums, torn records and truncation: a journal is a sequence of records in segments, and an append has one of four outcomes.
- Deadlock freedom and progress of the lifecycle lock, and coherence of the cached proof view.
- The SDK client, command-line binaries, download scripts and the other benchmarks.
- Adaptive.FallbackKeepsRecall: one way only, for any number of truthful hits; the exact condition for what a graph search can return is in `Fallback.FallbackKeepsRecallIff`.
- Fallback.AdaptiveKeepsRecallIff: the loss is shown for k up to 2,048, the slots Strict can be routed to; for larger k whether all other neighbours can be scored depends on the witness lists.
- Recovery.SecondRecoveryExactIff: the first recovery's own appends are all written; what any other outcomes leave in the journal is in `RecoveryAppends`.
- Recovery.EchoMeansTheSameIff: the recovery's own appends are all written.
- Recovery.CrashRecovery: one segment; for several segments the exact condition is in `SegmentedRecoveryExactIff`.
- Wiring.Graph.Insert: takes what the searches found; the insertion that searches is `GraphIndex.Index.Insert`.
- Roots.Ensemble.Remove: takes the slot, not the external ID; the ID table is in the arena and recovery models.
