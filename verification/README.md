# OSBench: verified model

OSBench measures how much of an operating system's observable behaviour a candidate reproduces. A corpus of
*Contracts* is ordered by prerequisites; generated *cases* exercise the Contracts on a reference oracle and on the
candidate; normalized observations are compared; and the verdicts are aggregated, merged across shards and scored.
This project models the algorithms in that path and proves what they promise.

The modules, from the corpus to the scores:

- `Arithmetic`, `Sequences`, `Orders`, `Walks`: quotients, lists, Python's `sorted`, and finite graphs.
- `Contracts`, `Validation`: the three-colour depth-first cycle check and the validation it belongs to. The finder is a
  class with the source's `visiting`, `visited` and `stack`. The check returns an empty list exactly when the
  prerequisite relation has no cycle, on every corpus, dangling ids and self-loops included.
- `CapabilityGraph`: Kahn's algorithm with in-degrees over an edge list with parallel edges; its verdict and order are
  characterised exactly, and the two cycle checks are shown to agree, so the later "contains a cycle" error cannot be raised.
- `Closures`, `Workloads`, `Frontier`: the breadth-first closure is exact reachability; workload closures are least
  prerequisite-closed sets; following the frontier finishes in exactly as many steps as Contracts are left.
- `Bootstrap`, `Padding`, `PaddedLists`, `Filling`, `BuiltCorpus`: the corpus generator yields a single-rooted, acyclic
  corpus of exactly 503 edges that validation accepts, or fails for one of four reasons, each with its exact condition.
  That of the unbounded third padding pass is a limit: what the cursor can reach in the first i visits to item i. Every
  list of a finished plan is also given by positions in the catalog's order, without the functions that compute it.
- `Minimization`: three delta-debugging loops meet one specification, with the exact number of predicate calls and a
  quadratic bound on it.
- `PathRewriting`, `PathPieces`, `MaskNames`, `Normalization`, `ObservationEquivalence`: the keys each rule names and the
  paths that are rewritten are given literally; the recursive rewrite of observations is idempotent; declaring more
  nondeterminism only ever identifies more observations; and two observations have one normal form exactly when they
  differ only in temporary paths at matching places, masked keys and the order of order-free lists, at any depth.
- `Scoring`, `ScoringLaws`, `ScoreMeaning`, `ReportMeaning`, `ReportFields`, `ScoreComputation`: scores defined without
  reference to order, the loops that compute them, and their bounds, order and monotonicity. Every field of a report is
  characterised by counts over the result list, and both scores as weighted means of the reported level scores.
- `Selection`, `Outcomes`, `RunMeaning`, `RunFiles`, `Evaluation`, `Results`, `ShardInvariance`, `MergeCompleteness`:
  selection by shard, the journalled run, merging, the theorem that sharding is invisible to the scores, and when a merge
  is complete. A run is a class that holds the list of its writes; the files are what replaying that list gives, so
  consistency at every moment is consistency after every prefix of it. The local variables at each write are kept beside
  it, which gives what the exception handler leaves behind if that write fails.

Functions that only define something (`Walk`, `ScoreOf`, `InShard`, `Base`, ...) are the specification; the methods are
proved equal to them, and the lemmas state what they mean.

## What the proofs found

- `Depth90 <= ObservedDepth90` does not hold in general. It holds if and only if every level of the authoritative prefix
  has an evaluated Contract (`ScoringLaws.DepthAgainstObserved`); `ScoringLaws.ObservedDepthCanBeLower` is the family of
  counterexamples with nine passing boot Contracts.
- Merging reads an empty `host.profile` as `local`, while a run scores under the empty name. The merged scores equal
  those of one whole run if and only if that substitution does not change whether performance is official, or no native
  threshold is configured (`ShardInvariance.ShardingIsInvisible`); with `local` official and a threshold they differ
  (`ShardInvariance.EmptyProfileChangesScores`).
- A merge always sets `complete_shard_set`. It holds every case of a selection exactly once if and only if the shard of
  each case was given exactly once (`MergeCompleteness.CompletenessClaimIff`). Of two shards with a case each, the first
  alone is a counterexample (`MergeCompleteness.LoneShardClaimsComplete`), and so is the first given twice, although the
  number of requested cases is then right (`MergeCompleteness.ShardTwiceLooksComplete`).
- Observations are dictionaries, so the comparator kinds `set` and `multiset` compare only their keys
  (`ObservationEquivalence.SetKindsCompareKeys`), and `range` never passes, not even for an observation against itself
  (`Normalization.SelfComparison`).
- `Topology` reports a graph as cyclic also when an acyclic graph has an edge from a node that is not in the graph, and
  raises `KeyError` for an edge to one (`CapabilityGraph.Topology`, `CapabilityGraph.UnknownSourceLooksCyclic`); neither
  happens for a validated corpus.
- Writing the graph outputs can fail on a valid corpus, for a workload that names an unknown Contract or is not a
  mapping; it succeeds if and only if the corpus is valid and every workload resolves (`CapabilityGraph.WriteGraphOutputs`,
  `CapabilityGraph.UnknownContractBreaksOutputs`).
- The corpus generator keeps prerequisites at the same or a lower level if and only if the catalog puts the root at the
  lowest level (`BuiltCorpus.LevelsNeverRiseIff`; `BuiltCorpus.HighRootMakesLevelsRise` is a catalog that does not). It
  relies on distinct ids: an item after one of the same id and domain is planned to need itself
  (`Bootstrap.RepeatedIdNeedsItself`). Its third padding pass goes on for ever exactly when the limit of the
  plan it starts from is below 503 edges: item i is only ever offered the positions that its first i visits land on. A
  catalog of fewer than 33 items has no plan, one of 129 or more never needs the third pass, and one of 129 to 253 items
  with the root always succeeds (`Filling.BuildPrerequisites`, `Filling.AfterTotal`).
- A comment says that a representative case is preferred when it can share a clean snapshot; the key
  `(clean_snapshot, ...)` is minimised, so a case *without* a clean snapshot comes first. The model follows the code: the
  documented preference is met if and only if no Contract has cases of both kinds (`Selection.PrefersCleanIff`,
  `Selection.MixedContractIsRepresentedUnclean`).

## Model

| member | source | states |
|---|---|---|
| `Contracts.ById` | `src/osbench/contracts.py:81-90` | a Contract is found under exactly the ids of the corpus, and what is found is a Contract of the corpus with that id |
| `Contracts.LaterContractWins` | `src/osbench/contracts.py:81-90` | of several Contracts with one id the last is found under it |
| `Contracts.CycleFinder.constructor` | `src/osbench/contracts.py:102-104` | a fresh finder: nothing visiting, visited or stacked |
| `Contracts.CycleFinder.Visit` | `src/osbench/contracts.py:106-121` | either the node ends up visited with `visiting` and `stack` restored, or the result is a genuine cycle; terminates on dangling ids and self-loops |
| `Contracts.CycleFinder.VisitDependencies` | `src/osbench/contracts.py:114-117` | the loop over dependencies visits all of them, or passes on the first cycle |
| `Contracts.CycleFinder.Leave` | `src/osbench/contracts.py:118-120` | popping keeps the invariant that dependencies finish before their dependents |
| `Contracts.BackEdgeClosesCycle` | `src/osbench/contracts.py:109-111` | an edge back into the stack closes a walk of prerequisite edges with equal ends and distinct inner nodes |
| `Orders.StrLeIsLexicographic` | `src/osbench/contracts.py:123` | strings compare by the first index where they differ; a prefix comes first |
| `Contracts.FinishedMeansAcyclic` | `src/osbench/contracts.py:118-121` | once every node is finished, the finishing order rules out every cycle (completeness of the check) |
| `Contracts.FirstCycle` | `src/osbench/contracts.py:123-127` | the loop over the nodes stops at the first genuine cycle, or finishes every node |
| `Contracts.CycleNodes` | `src/osbench/contracts.py:97-127` | `[]` exactly when the prerequisite relation is acyclic; otherwise a closed walk of prerequisite edges with distinct inner nodes |
| `Validation.CheckIds` | `src/osbench/contracts.py:153-162` | a duplicate-id issue for exactly the ids that occur twice |
| `Validation.CheckContract` | `src/osbench/contracts.py:166-180` | the issues of one Contract are exactly its unknown and self references and a combined `none` |
| `Validation.WellFormedMeansNoDefect` | `src/osbench/contracts.py:130-187` | unique ids, sound references and acyclicity are equivalent to the absence of every kind of defect |
| `Validation.Validate` | `src/osbench/contracts.py:165-187` | reports exactly the defects of the corpus; a cycle is reported only alone and is a genuine one; no issue exactly when the corpus is well formed |
| `CapabilityGraph.EdgeList` | `src/osbench/graph.py:27-31` | an edge from a to b exactly when a Contract with id b declares a as a prerequisite |
| `CapabilityGraph.EdgeListIsReverse` | `src/osbench/graph.py:27-31` | for unique ids, the graph edges are the reversed prerequisite relation that the depth-first check walks |
| `CapabilityGraph.CountEdges` | `src/osbench/graph.py:126-130` | in-degrees count parallel edges; `KeyError` exactly for an edge to an unknown node |
| `CapabilityGraph.ReleaseChildren` | `src/osbench/graph.py:137-140` | each child is decremented once per edge and queued exactly once, when its count reaches zero |
| `CapabilityGraph.KahnTake` | `src/osbench/graph.py:135-138` | taking a node off the queue: its predecessors are done, and no child is already queued or done |
| `CapabilityGraph.KahnRelease` | `src/osbench/graph.py:137-140` | the loop invariant: counts are unfinished edges, and a node has none exactly when it is done or queued |
| `CapabilityGraph.LeftOverMeansCycle` | `src/osbench/graph.py:134-141` | nodes that never reach zero in-degree wait on each other, which an acyclic graph excludes (completeness of the check) |
| `CapabilityGraph.Topology` | `src/osbench/graph.py:125-141` | acyclic exactly when there is no cycle and every edge starts at a node; roots are the sorted nodes without predecessors; the order has no duplicates and only forward edges |
| `CapabilityGraph.UnknownSourceLooksCyclic` | `src/osbench/graph.py:126-141` | one edge from a node that is not in the graph makes an acyclic graph be reported as cyclic |
| `CapabilityGraph.AcyclicOrderIsTopological` | `src/osbench/graph.py:133-141` | when acyclic, the order is a permutation of the nodes with every edge pointing forward |
| `CapabilityGraph.BuildGraph` | `src/osbench/graph.py:13-36` | raises exactly for a corpus that is not well formed; otherwise the nodes and the sorted edges of the corpus |
| `CapabilityGraph.ValidGraphIsAcyclic` | `src/osbench/graph.py:163-166` | the graph of a validated corpus is acyclic with all endpoints in it: the two cycle checks agree |
| `CapabilityGraph.CheckedGraph` | `src/osbench/graph.py:163-166` | fails only for an invalid corpus: the error "capability graph contains a cycle" is unreachable; the roots are the Contracts without prerequisites, sorted, and the order is a permutation of the Contracts with every prerequisite first |
| `CapabilityGraph.WriteGraphOutputs` | `src/osbench/graph.py:159-192` | succeeds exactly for a valid corpus and workloads whose Contracts are all known, with the roots and order of the corpus and the closure of every workload |
| `CapabilityGraph.UnknownContractBreaksOutputs` | `src/osbench/graph.py:174` | a workload that names an unknown Contract makes the outputs fail on a valid corpus |
| `Closures.Adjacency` | `src/osbench/graph.py:40-49` | each list holds one entry per declared prerequisite, in the asked direction, in ascending order |
| `Closures.Closure` | `src/osbench/graph.py:52-61` | exactly the nodes reachable from the start list, once each and sorted; terminates although queue entries repeat |
| `Closures.Query` | `src/osbench/graph.py:64-77` | the common part of both queries: one or more edges when transitive, the multiset of neighbours otherwise |
| `Closures.Prerequisites` | `src/osbench/graph.py:64-69` | `KeyError` exactly for unknown ids; transitive: everything reachable over one or more prerequisite edges; direct: the declared multiset |
| `Closures.UnlockedBy` | `src/osbench/graph.py:72-77` | `KeyError` exactly for unknown ids; transitive: everything that reaches the Contract over one or more prerequisite edges; direct: its dependents, with multiplicity |
| `Closures.ClosureStaysKnown` | `src/osbench/graph.py:52-61` | on a valid corpus closures stay inside the corpus |
| `Closures.QueriesAreDual` | `src/osbench/graph.py:64-77` | the two transitive queries of a valid corpus, each exactly what one or more prerequisite edges reach: a is among the prerequisites of b exactly when b is unlocked by a, and no Contract is in its own answer |
| `Workloads.ContractsForWorkload` | `src/osbench/graph.py:86-95` | the closure of the direct Contracts, sorted; `KeyError` for an unknown or malformed workload and for unknown Contracts |
| `Workloads.ClosureIsLeast` | `src/osbench/graph.py:92-95` | a closure contains the direct Contracts, is prerequisite-closed, and is within every other such set |
| `Workloads.ClosureListingUnique` | `src/osbench/graph.py:86-95` | two sorted listings of one closure are equal, so the query and the matrix render the same list |
| `Workloads.WorkloadsFor` | `src/osbench/graph.py:98-105` | the inverse relation: exactly the workloads whose closure contains the Contract |
| `Workloads.WorkloadMatrix` | `src/osbench/graph.py:144-156` | for every workload the same closure, or `KeyError` for an unknown Contract |
| `Workloads.InverseRelations` | `src/osbench/graph.py:86-105` | the answers of both queries, the closure of the workload and the workloads whose closure has the Contract: the Contract is in the first exactly when the workload is in the second |
| `Workloads.BlockingIsMonotone` | `src/osbench/graph.py:98-105` | the workloads of a dependent, exactly those with it in their closure, are all among the workloads of its prerequisite |
| `Frontier.FrontierOf` | `src/osbench/graph.py:117-122` | sorted, duplicate-free, exactly the unpassed Contracts whose direct prerequisites all pass |
| `Frontier.FrontierAfter` | `src/osbench/graph.py:108-122` | the frontier of a result document, in which only `passed: true` counts as passed |
| `Frontier.FrontierIsReachable` | `src/osbench/graph.py:117-122` | every unpassed Contract of a valid corpus has an ancestor-or-self in the frontier |
| `Frontier.FrontierEmptyIffDone` | `src/osbench/graph.py:117-122` | the frontier of a valid corpus is empty exactly when everything passes |
| `Frontier.RunRespectsPrerequisites` | `src/osbench/graph.py:108-122` | repeatedly passing a frontier Contract passes none twice and none before its prerequisites |
| `Frontier.RunsFinishExactly` | `src/osbench/graph.py:108-122` | a run gets stuck only when all pass, and then took exactly as many steps as Contracts were unpassed |
| `Frontier.RunExtends` | `src/osbench/graph.py:108-122` | any Contract of the current frontier can be picked next |
| `Bootstrap.OrderedShape` | `tools/bootstrap_contracts.py:125-127` | the two sorts permute the catalog, put the root first if there is one, and keep the rest in level order |
| `Bootstrap.OthersInOrder` | `tools/bootstrap_contracts.py:125-127` | items other than the root come by level, and by id within a level |
| `Bootstrap.TracksNext` | `tools/bootstrap_contracts.py:149-150` | the two dictionaries hold the last item of each domain and the first item of each level |
| `Bootstrap.FirstPrerequisites` | `tools/bootstrap_contracts.py:129-151` | the domain predecessor and the anchor of the level below, or else the neighbour; `IndexError` exactly when the first item is not the root |
| `Bootstrap.RepeatedIdNeedsItself` | `tools/bootstrap_contracts.py:142-148` | an item that follows one of its own id and domain is given itself as a prerequisite, so ids have to be distinct |
| `Bootstrap.BaseFits` | `tools/bootstrap_contracts.py:140-148` | first-pass lists are distinct, nonempty and earlier, with at most two entries |
| `Bootstrap.AddEdgePlanned` | `tools/bootstrap_contracts.py:171-173` | a new edge to an earlier item keeps every list distinct and earlier, and raises the edge total by one |
| `Padding.PadItem` | `tools/bootstrap_contracts.py:162-173` | the four choices are offered until the target is met; the total never exceeds the target; the result is the plan that adding the choices in order defines |
| `Padding.ChoicesDiffer` | `tools/bootstrap_contracts.py:162-167` | an item offered its four choices has at least `min(index, 4)` prerequisites afterwards |
| `PaddedLists.BaseIs` | `tools/bootstrap_contracts.py:140-148` | by positions, the list of the first pass: the latest earlier item of the domain, then the first earlier item of the level below, once if they are the same, or else the neighbour |
| `PaddedLists.ChoicesTaken` | `tools/bootstrap_contracts.py:168-173` | an item takes its choices in turn, less those it has, and only the target stops it |
| `PaddedLists.PaddingCut` | `tools/bootstrap_contracts.py:157-173` | there is a cut: items before it take the items at 0, a third and half of the way, and the neighbour; the one at it a prefix of its four; those after it none; and only the target makes the cut |
| `Padding.Pad` | `tools/bootstrap_contracts.py:157-173` | computes the padding of all items in order; lists grow by nothing but their choices, and below the target every item has at least `min(index, 4)` prerequisites |
| `Filling.TakeTurn` | `tools/bootstrap_contracts.py:175-184` | one turn looks up the item under the cursor and tries the earlier item at 17 times the cursor |
| `Filling.Fill` | `tools/bootstrap_contracts.py:174-185` | the plan it ends with is that after some number of turns, with the total exactly at the target; within a bound on the turns it fails exactly when the plan after all of them is still short |
| `Filling.AfterMembers` | `tools/bootstrap_contracts.py:174-184` | after any number of turns an item has what it had and the earlier items the cursor tried on it, and nothing else |
| `Filling.CursorLands` | `tools/bootstrap_contracts.py:175-180` | whenever the cursor comes to item i, it lands where one of the first i visits would |
| `Filling.AfterTotal` | `tools/bootstrap_contracts.py:174-184` | the third pass can bring a plan to its limit, the edges reachable in the first i visits of each item, and no further; it is there once the turns number the square of the items |
| `Filling.FirstPlanUnique` | `tools/bootstrap_contracts.py:129-151` | the plan of the first pass is determined by the order of the items |
| `Filling.FirstPlanIsPlanned` | `tools/bootstrap_contracts.py:129-151` | that plan gives every item but the root distinct earlier prerequisites |
| `Filling.BaseTotalBound` | `tools/bootstrap_contracts.py:155` | the first pass adds between n - 1 and 2n - 3 edges |
| `Filling.TriangularTotal` | `tools/bootstrap_contracts.py:157-185` | no plan has more edges than there are pairs of items |
| `Filling.FilledMeetsTarget` | `tools/bootstrap_contracts.py:157-175` | with 129 items or more the second pass meets the target |
| `Filling.DomainPredecessorKept` | `tools/bootstrap_contracts.py:142-148` | in a finished plan the latest earlier item of the same domain is a prerequisite |
| `Filling.LevelAnchorKept` | `tools/bootstrap_contracts.py:141-148` | in a finished plan the first earlier item of the level below is a prerequisite |
| `Filling.BuildPrerequisites` | `tools/bootstrap_contracts.py:122-187` | on success the root has no prerequisites and there are 503 in all; by positions, every list is that of the first pass, what it took of its four up to the cut of the second, and, only without a cut and below 129 items, what the third pass fell on; each error has its exact condition, and once the turns allowed number the square of the items, success is equivalent to a root, at most 503 edges after the first pass, and a third pass whose limit reaches 503 |
| `BuiltCorpus.PlanIsAcyclic` | `tools/bootstrap_contracts.py:133-185` | prerequisites of a finished plan have no cycle |
| `BuiltCorpus.OnlyRootHasNone` | `tools/bootstrap_contracts.py:129-185` | the root is the only item without prerequisites |
| `BuiltCorpus.RootUnderEverything` | `tools/bootstrap_contracts.py:133-185` | the root is a transitive prerequisite of every other item, and not of itself |
| `BuiltCorpus.LevelsNeverRiseIff` | `tools/bootstrap_contracts.py:125-185` | prerequisites are at the same or a lower level exactly when the catalog puts the root at the lowest level |
| `BuiltCorpus.HighRootMakesLevelsRise` | `tools/bootstrap_contracts.py:125-151` | for a root and one item of a lower level, the lower item is planned to need the root |
| `BuiltCorpus.Peers` | `tools/bootstrap_contracts.py:196-200` | orthogonal peers are other known ids, never the Contract itself |
| `BuiltCorpus.PeersAre` | `tools/bootstrap_contracts.py:196-200` | they are the ids one and seven places on, going round, sorted |
| `BuiltCorpus.NormalizationOf` | `tools/bootstrap_contracts.py:58-73` | the rule `none` is given only alone |
| `BuiltCorpus.ProcessRulesByDomain` | `tools/bootstrap_contracts.py:58-73` | the domains whose Contracts declare the rules on processes, threads and scheduling |
| `BuiltCorpus.FileRulesByDomain` | `tools/bootstrap_contracts.py:58-73` | those that declare the rules on inodes, directories, temporary paths and timestamps |
| `BuiltCorpus.NetworkRulesByDomain` | `tools/bootstrap_contracts.py:58-73` | those that declare the rules on ports, addresses and hosts |
| `BuiltCorpus.TimedDomains` | `tools/bootstrap_contracts.py:38-56` | durations are observed in the domains `machine` and `memory` alone |
| `BuiltCorpus.CorpusMirrors` | `tools/bootstrap_contracts.py:189-277` | each Contract has the id, level and domain of its item, its planned list, its peers, and the observables and rules of its domain |
| `BuiltCorpus.BuiltCorpusIsWellFormed` | `tools/bootstrap_contracts.py:189-277` | the built corpus has unique ids, sound references and no cycle: validation accepts it |
| `BuiltCorpus.BuiltCorpusIsSingleRooted` | `tools/bootstrap_contracts.py:122-187` | in the built corpus the root alone has no prerequisites and every other Contract needs it |
| `BuiltCorpus.FirstFrontierIsRoot` | `tools/bootstrap_contracts.py:122-187` | an agent that has passed nothing is offered the root alone |
| `BuiltCorpus.BuildContracts` | `tools/bootstrap_contracts.py:122-277` | one Contract per item with its planned prerequisites, given by positions, and a well-formed corpus, exactly when the catalog can be planned |
| `Minimization.TryChunks` | `src/osbench/minimization.py:8-10` | one pass returns the first nonempty failing complement, trying the chunks from the front, or shows that none fails; it asks the predicate exactly once for each nonempty complement up to there, at most once per element |
| `Minimization.ChunkIs` | `src/osbench/minimization.py:7` | the rounded-down chunk is the largest that fits granularity times, or one; the rounded-up chunk the least that covers the sequence |
| `Minimization.ChunkLeavesEnough` | `src/osbench/minimization.py:7` | floor and ceiling chunks leave at least granularity - 1 elements, and are single elements once granularity meets length |
| `Minimization.FitsAfterReduction` | `src/osbench/minimization.py:10` | after a reduction granularity fits the length again, for either chunk size |
| `Minimization.ReduceMinimizes` | `src/osbench/minimization.py:4-14` | the reduction leaves a subsequence that fails or is the input, and no single element of it can go |
| `Minimization.ReduceCost` | `src/osbench/minimization.py:4-14` | the exact number of predicate calls is at most length times twice the length less the granularity |
| `Minimization.ReduceRowsMinimizes` | `tools/minimization/minimize_jsonl.py:11-16` | the same for deleting rows |
| `Minimization.ReduceRowsCost` | `tools/minimization/minimize_jsonl.py:11-16` | the exact number of calls is at most n(n + 1) / 2 |
| `Minimization.MinimizeSequence` | `src/osbench/minimization.py:4-14` | the result and the exact number of predicate calls of the reduction; so a failing 1-minimal subsequence (or the input, if it was never reduced) in at most n(2n - 2) calls |
| `Minimization.Ddmin` | `tools/minimization/minimize.py:10-20` | the same specification and bound with ceiling chunks |
| `Minimization.MinimizeRows` | `tools/minimization/minimize_jsonl.py:11-16` | the result and the exact number of calls of deleting the first row that can go; 1-minimal in at most n(n + 1) / 2 calls |
| `Minimization.MonotoneMeansMinimal` | `src/osbench/minimization.py:4-14` | for a monotone predicate no proper nonempty subsequence of the result fails |
| `PathRewriting.SubstituteKeepsClean` | `src/osbench/normalization.py:88-89` | a substitution leaves its own pattern nowhere and does not create the other |
| `PathRewriting.RewriteIdempotent` | `src/osbench/normalization.py:87-89` | applying both path rewrites again changes nothing |
| `PathRewriting.NoTemporaryPathLeft` | `src/osbench/normalization.py:87-89` | no position of the result begins a temporary path |
| `PathPieces.RewriteIsOnePass` | `src/osbench/normalization.py:87-89` | the two rewrites are one pass: the first neither makes nor hides a match of the second |
| `PathPieces.OsbenchPath` | `src/osbench/normalization.py:88` | `/tmp/osbench-` and a longest run of letters, digits, `_`, `.` and `-` becomes `/tmp/<OSBENCH>` |
| `PathPieces.TmpPath` | `src/osbench/normalization.py:89` | `/tmp/tmp` and such a run becomes `/tmp/<TMP>` |
| `PathPieces.OtherText` | `src/osbench/normalization.py:87-89` | where neither begins, the character stays |
| `PathPieces.RewriteIdentifies` | `src/osbench/normalization.py:87-89` | two texts are rewritten to the same one exactly when they have the same characters at the same places, but for temporary paths of one kind, or their tokens, at matching ones |
| `Normalization.Rewrite` | `src/osbench/normalization.py:44-90` | the recursive rewrite with its dictionary loop and two sorting passes computes the order-free definition |
| `Normalization.RewriteFields` | `src/osbench/normalization.py:46-73` | the dictionary loop masks a key by the first declared rule that claims it, and rewrites the other values |
| `Normalization.SortingPasses` | `src/osbench/normalization.py:75-83` | the two sorting passes, in the order of the source, sort exactly the declared order-free lists |
| `Normalization.PassesCommute` | `src/osbench/normalization.py:75-83` | in the other order they give the same |
| `Normalization.MaskGrows` | `src/osbench/normalization.py:49-71` | a key masked under some rules stays masked under more |
| `Normalization.MaskIs` | `src/osbench/normalization.py:49-71` | of the declared rules that name a key, by literal names, suffixes and parts, the first in the order of the source gives the token |
| `Normalization.RuleAlone` | `src/osbench/normalization.py:49-71` | with one rule declared, a field gets its token exactly when the rule names the lower-cased key |
| `Normalization.DictionaryBecomes` | `src/osbench/normalization.py:46-83` | at any depth, each entry of a dictionary becomes the token for its key, or its rewritten value, sorted under the keys of order-free lists |
| `Normalization.WalkAllPermutes` | `src/osbench/normalization.py:85-86` | rewriting the elements of a list commutes with reordering them |
| `Normalization.WalkAbsorbs` | `src/osbench/normalization.py:44-92` | rewriting under more rules forgets that fewer were applied first, through nested sorts and overlapping masks |
| `Normalization.NormalizeObservation` | `src/osbench/normalization.py:25-92` | computes the normal form, the rule-free shortcut included; its keys are those of the observation, less an unobserved `duration_ns`, and each entry is the literal token of the first declared rule that names its key, or the rewritten value |
| `Normalization.NormalFormIdempotent` | `src/osbench/normalization.py:25-92` | normalizing twice is normalizing once |
| `Normalization.NormalizationCoarsens` | `src/osbench/normalization.py:40-92` | with the same observables and more rules, equal normal forms stay equal |
| `Normalization.NoRulesNormalForm` | `src/osbench/normalization.py:35-42` | without rules only an unobserved top-level `duration_ns` goes |
| `Normalization.OrderFreeListsPermute` | `src/osbench/normalization.py:75-82` | permuting an order-free list does not change the rewrite of the dictionary it sits in |
| `Normalization.CompareObservations` | `src/osbench/oracle.py:173-197` | fails closed on a status other than `ok`, the reference first; otherwise passes exactly when the normal forms are equal, or for the set kinds their keys, and never for a range |
| `Normalization.PassesCoarsen` | `src/osbench/oracle.py:195-197` | declaring more nondeterminism never turns a pass into a fail |
| `Normalization.SelfComparison` | `src/osbench/comparators.py:4-17` | an observation passes against itself exactly when its status is `ok` and the kind is not `range` |
| `ObservationEquivalence.NormalFormsCharacterised` | `src/osbench/normalization.py:25-92` | two observations have one normal form exactly when they agree, at every depth, up to temporary paths, masked keys and the order of order-free lists |
| `ObservationEquivalence.SameWalks` | `src/osbench/normalization.py:44-92` | differences of these kinds do not reach the normal form |
| `ObservationEquivalence.WalksSame` | `src/osbench/normalization.py:44-92` | and no other difference is lost |
| `ObservationEquivalence.MatchImages` | `src/osbench/normalization.py:75-82` | two lists whose rewritten elements are permutations of each other match up element by element before the rewrite |
| `ObservationEquivalence.ReorderedInside` | `src/osbench/normalization.py:75-86` | reordering an order-free list along any path of keys and indexes is such a difference |
| `ObservationEquivalence.NestedListsPermute` | `src/osbench/normalization.py:25-92` | permuting an order-free list at any depth of an observation does not change its normal form |
| `ObservationEquivalence.PassesCharacterised` | `src/osbench/oracle.py:173-197` | for the kinds that compare values, a comparison passes exactly when both statuses are `ok` and the observations differ only in what the rules forgive |
| `ObservationEquivalence.SetKindsCompareKeys` | `src/osbench/comparators.py:8-11` | for `set` and `multiset` it passes exactly when both statuses are `ok` and the keys are equal, whatever the values |
| `Scoring.ContractScores` | `src/osbench/scoring.py:78-80` | a score in [0, 1] for exactly the evaluated Contracts |
| `ReportFields.ContractScoresAreShares` | `src/osbench/scoring.py:78-80` | the score of a Contract times the number of its results is the number of those that passed |
| `ReportFields.LevelIsReported` | `src/osbench/scoring.py:93-105` | the score of a level, its observed score and its coverage are shares of the sum over its Contracts, or of their number |
| `ReportFields.GatesAreReported` | `src/osbench/scoring.py:107-119` | the boot gate is open exactly when the boot level has Contracts and all their results passed; the observed gate looks at those with results |
| `ReportFields.DepthIsReported` | `src/osbench/scoring.py:31-48` | up to each level of the depth the Contracts in full are at least the threshold times those that count, and the next level is empty or falls short |
| `ReportFields.NativeIsReported` | `src/osbench/scoring.py:153-173` | the native share counts the workload Contracts whose results all passed with a ratio within the threshold |
| `ReportFields.PerfectRun` | `src/osbench/scoring.py:51-195` | if every level has Contracts and all their results passed, both scores are one |
| `ReportMeaning.ReportHasMeans` | `src/osbench/scoring.py:12-19` | each score is, behind its gate, the exponential of the weighted mean of the logarithms of the floored level scores |
| `ReportMeaning.OSCorrectBetween` | `src/osbench/scoring.py:12-19` | OSCorrect lies between any positive bounds of the floored level scores |
| `ReportMeaning.ObservedCorrectBetween` | `src/osbench/scoring.py:12-19` | ObservedCorrect lies between those of the observed levels |
| `ReportMeaning.EvenLevels` | `src/osbench/scoring.py:12-19` | where all levels score alike, that is OSCorrect; where all are at epsilon or below, it is epsilon |
| `ReportMeaning.EvenObservedLevels` | `src/osbench/scoring.py:12-19` | the same for the observed levels |
| `ReportMeaning.WeightsAreProportions` | `src/osbench/scoring.py:12-19` | multiplying all weights by one factor changes neither score |
| `ReportMeaning.OSCorrectOfTwo` | `src/osbench/scoring.py:12-19` | some levels at one value and the others at another: `exp((A log a + B log b) / (A + B))` with A and B the weights of the two groups |
| `ReportMeaning.ObservedCorrectOfTwo` | `src/osbench/scoring.py:12-19` | the same with the weights of the observed levels |
| `ReportMeaning.PublishedWeights` | `src/osbench/scoring.py:121-129` | with the published weights, the nine lower levels in full and the two workload levels at zero weigh 11.8 against 3.0 |
| `Scoring.FirstStop` | `src/osbench/scoring.py:31-47` | the first level that is empty or misses the cumulative threshold, every level before it meeting the threshold |
| `ScoreComputation.Extend` | `src/osbench/scoring.py:32-46` | one level of the depth loop: `cumulative` holds the flags of the levels so far, and the loop goes on exactly when the level meets the threshold |
| `ScoreComputation.Depth` | `src/osbench/scoring.py:22-48` | the last level of the longest prefix of levels that meet the threshold, with the counts of Contracts in full and of all that count up to each of them and to the next |
| `ScoreComputation.GroupByContract` | `src/osbench/scoring.py:68-76` | `KeyError` exactly for a result of an unknown Contract; otherwise the flags of each Contract |
| `ScoreComputation.MeetsNative` | `src/osbench/scoring.py:162-172` | a workload Contract qualifies exactly when it has cases and all pass within the ratio |
| `ScoreComputation.NativeShare` | `src/osbench/scoring.py:153-173` | the share of qualifying workload Contracts; nothing for an unofficial profile |
| `ScoreComputation.ScoreResults` | `src/osbench/scoring.py:51-195` | fails exactly for results of unknown Contracts; otherwise every field of the report says of the result list what it stands for, and both scores are the means of their levels |
| `ScoringLaws.LevelScoreOrder` | `src/osbench/scoring.py:93-105` | a level score is in [0, 1] and at most the observed score of its evaluated Contracts |
| `ScoringLaws.LevelSums` | `src/osbench/scoring.py:121-130` | leaving out unobserved levels drops only terms at the floor |
| `ScoringLaws.GeometricOrder` | `src/osbench/scoring.py:12-19` | the geometric mean over observed levels is at least the one over all levels |
| `ScoringLaws.BootGatesOrdered` | `src/osbench/scoring.py:107-119` | a passing boot gate implies a passing observed gate |
| `ScoringLaws.ScoreOrder` | `src/osbench/scoring.py:93-130` | 0 <= OSCorrect <= ObservedCorrect <= 1 |
| `ScoringLaws.ReportedScoresOrdered` | `src/osbench/scoring.py:51-195` | 0 <= OSCorrect <= ObservedCorrect <= 1 in the report of every result list |
| `ScoringLaws.OSCorrectMonotone` | `src/osbench/scoring.py:121-129` | raising Contract scores never lowers OSCorrect |
| `ScoringLaws.DepthMonotone` | `src/osbench/scoring.py:132-137` | raising Contract scores never lowers Depth90 |
| `ScoringLaws.FixingACaseHelps` | `src/osbench/scoring.py:78-80` | turning a failing case into a pass lowers no Contract score |
| `ScoringLaws.NewContractsHelp` | `src/osbench/scoring.py:78-80` | adding results for Contracts that had none lowers no Contract score |
| `ScoringLaws.ProgressNeverLowersScores` | `src/osbench/scoring.py:51-195` | fixing a case or adding results for an unevaluated Contract never lowers the reported OSCorrect or Depth90 |
| `ScoringLaws.StopAt` | `src/osbench/scoring.py:38-48` | depth is the last level of the maximal prefix that meets the threshold |
| `ScoringLaws.DepthIgnoresLaterLevels` | `src/osbench/scoring.py:31-48` | levels past the first stop have no influence on depth |
| `ScoringLaws.DepthAgainstObserved` | `src/osbench/scoring.py:132-143` | Depth90 is at most ObservedDepth90 exactly when every level of its prefix has an evaluated Contract |
| `ScoringLaws.ObservedDepthCanBeLower` | `src/osbench/scoring.py:38-43` | for nine passing boot Contracts and one unevaluated Contract above, at threshold 0.9, Depth90 is one level deeper than ObservedDepth90 |
| `Selection.CaseShard` | `src/osbench/oracle.py:98-100` | the remainder of the digest on division by the shard count |
| `Selection.Least` | `src/osbench/oracle.py:131-138` | the first member of the group whose key none is below |
| `Selection.OnePerContract` | `src/osbench/oracle.py:121-140` | one representative for each Contract, in Contract order |
| `Selection.RepresentativesAreLeast` | `src/osbench/oracle.py:126-140` | every Contract of the corpus has exactly one representative, and no case has a key below its representative |
| `Selection.RepresentativesUnique` | `src/osbench/oracle.py:130-140` | the representatives depend on the corpus alone |
| `Selection.RepresentativeIsSmallest` | `src/osbench/oracle.py:130-140` | among the cases of its Contract with its snapshot flag, no case has a smaller family than the representative, and none of its family a smaller id |
| `Selection.RepresentativeAvoidsClean` | `src/osbench/oracle.py:130-140` | a representative has a clean snapshot exactly when every case of its Contract has |
| `Selection.PrefersCleanIff` | `src/osbench/oracle.py:126-140` | the documented preference for clean snapshots is met exactly by corpora in which no Contract has cases of both kinds |
| `Selection.MixedContractIsRepresentedUnclean` | `src/osbench/oracle.py:126-140` | of one clean and one unclean case of a Contract, the unclean one is chosen |
| `Selection.SelectCases` | `src/osbench/oracle.py:103-149` | errors exactly for bad shard counts, indexes or caps; otherwise the shard of the corpus, in order, capped; without a cap and over all cases, those whose digest leaves the shard index as its remainder |
| `Selection.ShardsPartition` | `src/osbench/oracle.py:142-149` | the k shards in any order make up the corpus |
| `Selection.ShardsDisjoint` | `src/osbench/oracle.py:142-149` | two shards share no case |
| `Selection.SelectionsPartition` | `src/osbench/oracle.py:103-149` | without a cap, the k selections are disjoint subsequences that together make up the unsharded selection, also with one case per Contract |
| `Outcomes.CaseOutcomeOf` | `src/osbench/oracle.py:444-543` | a case is skipped, done or raises; results and skips carry its id, and only known Contracts are evaluated |
| `Outcomes.RatioIs` | `src/osbench/oracle.py:533-542` | the ratio is q exactly when both durations are there, that of the reference is positive, and q times it is that of the candidate |
| `Outcomes.DoneMeans` | `src/osbench/oracle.py:444-543` | a finished case was supported and answered on both sides, and its verdict and ratio are those of the two answers |
| `RunMeaning.FastEnoughInRun` | `src/osbench/scoring.py:162-172` | a Contract of a run is fast enough exactly when it has evaluated cases, all pass, and each candidate duration is at most the threshold times a positive reference duration |
| `RunMeaning.NativeOfRun` | `src/osbench/oracle.py:595-626` | the native scores in the document of a run are the shares of such workload Contracts |
| `Outcomes.OutcomesAccount` | `src/osbench/oracle.py:428-543` | without exceptions, evaluated and unsupported cases account for the selection |
| `Outcomes.OutcomeIds` | `src/osbench/oracle.py:428-543` | without exceptions, the ids of evaluated and unsupported cases are exactly those of the selection, with multiplicity |
| `Outcomes.RunDocumentAcceptable` | `src/osbench/oracle.py:595-626` | the document of a completed run on distinct cases validates |
| `Outcomes.ResultsAreKnown` | `src/osbench/oracle.py:465-466` | scoring a run cannot meet an unknown Contract |
| `Evaluation.Run.constructor` | `src/osbench/oracle.py:311-324` | a run starts with empty files and counters |
| `RunFiles.LinesStay` | `src/osbench/oracle.py:200-206` | what a file of lines held at one moment it still holds, in front, at every later one |
| `RunFiles.FailureSettles` | `src/osbench/oracle.py:573-588` | if a write fails, then after each write of the exception handler that succeeds the state and the partial result are at most one case behind the journal or ahead of it, and all else is as consistent as before |
| `Evaluation.Run.Do` | `src/osbench/oracle.py:200-206` | the only way to change the files: one write more, which must leave them consistent, from local variables at most one step ahead of the journal |
| `Evaluation.Run.SafeAtEveryMoment` | `src/osbench/oracle.py:400-641` | after every prefix of the writes of a run the files are consistent, and progress rows hold what was answered |
| `Evaluation.Run.SettledWhereverItFails` | `src/osbench/oracle.py:573-588` | whichever write of a run fails, its local variables are at most a step ahead of the files, so the handler leaves them settled |
| `Evaluation.Run.Journal` | `src/osbench/oracle.py:200-206` | one event appended to the journal and nothing else written, allowed only where the files stay consistent |
| `Evaluation.Run.AppendReference` | `src/osbench/oracle.py:469-477` | one row appended to the reference progress and nothing else written |
| `Evaluation.Run.AppendCandidate` | `src/osbench/oracle.py:499-507` | one row appended to the candidate progress and nothing else written |
| `Evaluation.Run.Persist` | `src/osbench/oracle.py:345-398` | writes the state file, with position, total and counts, and then, exactly at checkpoints, failures and multiples of the interval, the partial result; nothing else |
| `Evaluation.Run.StartCase` | `src/osbench/oracle.py:428-442` | writes the event that the case started and only then the state |
| `Evaluation.Run.SkipCase` | `src/osbench/oracle.py:449-463` | writes the event that the case is unsupported and then the state; the case counts as finished |
| `Evaluation.Run.Support` | `src/osbench/oracle.py:444-449` | the reference is asked first; the first target without support gives the reason |
| `Evaluation.Run.ObserveReference` | `src/osbench/oracle.py:466-489` | one oracle query, then its progress row, its event and the state, in this order; nothing is written or counted if the target raises |
| `Evaluation.Run.ObserveCandidate` | `src/osbench/oracle.py:491-519` | one more query, or a copy of the reference observation when reuse is on, then its progress row and its event, in this order; nothing is written or counted if the target raises |
| `Evaluation.Run.Judge` | `src/osbench/oracle.py:521-542` | the result of the case is the verdict on the two observations, with the ratio of their durations, candidate over reference |
| `Evaluation.Run.CompleteCase` | `src/osbench/oracle.py:543-555` | the result is kept, and its event is written before the state |
| `Evaluation.Run.EvaluateCase` | `src/osbench/oracle.py:428-555` | one turn of the loop, consistent after each of its writes: either the case is finished with its outcome and one or two queries, or it stays started, unfinished, with the exception of its targets |
| `Evaluation.Run.EvaluateCases` | `src/osbench/oracle.py:428-573` | the loop ends normally exactly when no target call raises; otherwise at the first case that does, with everything before it finished |
| `Evaluation.Run.RecordFailure` | `src/osbench/oracle.py:573-587` | writes the event of the failure, then the state and then the partial result |
| `Evaluation.Run.Report` | `src/osbench/oracle.py:595-625` | aggregates and scores make up the document of the run |
| `Evaluation.Run.Publish` | `src/osbench/oracle.py:626-638` | writes the result file and only then the event that the run completed |
| `Evaluation.Run.Finish` | `src/osbench/oracle.py:626-639` | writes the result file, the event, the state and the partial result, in this order, and nothing else |
| `Evaluation.Run.Evaluate` | `src/osbench/oracle.py:400-641` | after every prefix of its writes the files are consistent: finished cases are a prefix of the started ones and these of the selection, each list trails the one it follows by at most one, events carry the right positions, the state is at most one case behind, a result file means that every case is finished, and progress rows hold what was answered; had any write raised, the handler would have left the files settled; the run completes exactly when targets open and none raises, with the document of the run and one or two queries per evaluated case |
| `Results.AggregateContractResults` | `src/osbench/oracle.py:152-170` | an aggregate for exactly the Contracts with results: the failed cases are the ids at the positions of the failed results, in order and with multiplicity; with the passing results they make up the count; the rate times the count is the number that passed; and the Contract passes when nothing failed |
| `Results.ValidateResults` | `src/osbench/results.py:31-63` | no issue exactly when all keys are present, the schema is known, requests are accounted for and no case repeats |
| `Results.MergeResults` | `src/osbench/results.py:66-99` | errors exactly for no files, several versions or unknown Contracts; otherwise the first document with merged contents and fresh scores |
| `Results.MergedAcceptable` | `src/osbench/results.py:73-95` | a merge is valid exactly when its first document has the keys and schema version a merge keeps and no evaluated case repeats; it accounts for everything it holds and always claims completeness |
| `Results.CountsPermute` | `src/osbench/oracle.py:155-170` | counts, and failed cases up to order, do not depend on the order of results |
| `Results.AggregatesPermute` | `src/osbench/oracle.py:152-170` | aggregates of reordered results agree up to the order of failed cases |
| `Results.ScoresPermute` | `src/osbench/scoring.py:51-195` | the scores of reordered results are equal |
| `ShardInvariance.OutcomesPermute` | `src/osbench/oracle.py:428-555` | reordering cases reorders results and unsupported cases |
| `ShardInvariance.ScoreDependsOnOfficial` | `src/osbench/scoring.py:145-174` | two profiles give the same scores exactly when both or neither is official, or there is no threshold |
| `ShardInvariance.RunsMerge` | `src/osbench/results.py:66-94` | merging runs of one setup raises nothing |
| `ShardInvariance.ShardingIsInvisible` | `src/osbench/results.py:66-99` | merging a complete shard set in any order gives the aggregates and cases of one whole run, and its scores exactly when the profile survives the merge |
| `ShardInvariance.EmptyProfileChangesScores` | `src/osbench/results.py:94-96` | with `local` official and one threshold, merging a run under the empty profile name changes its scores |
| `ShardInvariance.MergedShardsAreAcceptable` | `src/osbench/results.py:31-99` | the merge of a complete shard set of runs on distinct cases validates and accounts for the whole selection |
| `MergeCompleteness.ShardsAddUpIff` | `src/osbench/results.py:73-88` | distinct shards hold as many cases as the selection exactly when every case is in one of them |
| `MergeCompleteness.ShardsCopies` | `src/osbench/results.py:73-76` | merged shards hold a case id as often as its shard was given times as often as the selection has it |
| `MergeCompleteness.HoldsAllOnceIff` | `src/osbench/results.py:73-76` | they hold exactly the case ids of the selection if and only if the shard of each was given exactly once |
| `MergeCompleteness.CompletenessClaimIff` | `src/osbench/results.py:81-88` | a merge of any shards, repeated or not, claims a complete shard set; it holds every selected case exactly once if and only if the shard of each was given exactly once; for distinct shards the number of requested cases tells |
| `MergeCompleteness.LoneShardClaimsComplete` | `src/osbench/results.py:81-88` | for two cases in different shards, the merge of the first shard alone holds one case of two and claims to be complete |
| `MergeCompleteness.ShardTwiceLooksComplete` | `src/osbench/results.py:73-88` | for two cases in different shards, the merge of the first shard given twice requests as many cases as were selected and lacks one of them |

## Left out

- QEMU, QMP, serial and guest transports, targets, probes, Docker, the command line and dataset generation: I/O and calls
  into code outside the model. A target is a pair of functions of the case that answer or raise.
- Digests: the shard function is an arbitrary function of the case id into `0..k-1`, and identity hashes of datasets and
  corpora are omitted.
- YAML and JSON schema validation of single Contract files: the model starts from parsed Contracts, so a file that does
  not parse or does not meet the schema, and is skipped by the loader with an issue of its own, does not appear.
- `lru_cache`, copies of cached values and the paths in issue texts: issues are values that name the ids involved.
- Floating point: scores, ratios and thresholds are real numbers, and `math.log` and `math.exp` are parameters that are
  monotone and undo each other. Ties that rounding creates or breaks are not modelled.
- The `repr` of a value as a sort key: the model takes any total order on values, so the dependence of `repr` on the
  insertion order of dictionaries, and Python's `1 == True == 1.0`, are not modelled. `str.lower` is a parameter.
- Wall-clock fields, run ids (a parameter), host metadata, `merged_from`, the raw observation files, `current_case_id`,
  the progress line on standard error, and the descriptive fields of a case result.
- The trajectory metrics of a result; a merge keeps those of the first document, which no property here mentions.
- Interruptions inside a single write: `_append_jsonl` is one durable append and `write_json` one replacement. A process
  may stop between any two writes, and exceptions come from targets, from an unknown Contract and from any write. A
  second exception inside the handler ends it after some of its writes.
- Workload entries of a Contract, its texts, sources and generator settings: `build_contracts` fills them from tables
  that no algorithm here reads. The observables and normalization tables are included as data.
- Filling.Fill: the third padding pass of the source has no bound; the model gives it `fuel` turns and reports
  `OutOfFuel` after them. When the bound is at least the square of the number of items, `OutOfFuel` means exactly that the
  loop of the source would not end; only the endless loop itself has no counterpart.
- Filling.BuildPrerequisites: requires distinct ids in the catalog, which the source takes from a file it maintains
  and does not check; repeated ids would overwrite each other's lists, and `Bootstrap.RepeatedIdNeedsItself` shows how an
  item is then planned to need itself.
- BuiltCorpus.BuildContracts: requires distinct ids in the catalog, for the same reason.
- CapabilityGraph.WriteGraphOutputs: the text of the YAML, JSON and DOT files, and that the first two are on disk already
  when the workload matrix fails.
- Outcomes.RunDocumentAcceptable: assumes distinct case ids in the selection, which the run itself does not check.
- Preflight and lock realisation: long branching over finitely many flags, which enumeration settles.
- Delta debugging of predicates that are not pure: a predicate that answers differently on a second call is outside all
  three specifications.
