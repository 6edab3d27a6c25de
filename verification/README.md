# A verified model of Telamon's search, performance model and code generation

Telamon describes a GPU kernel as a set of open decisions. It searches the tree of these decisions
with branch-and-bound, scores partially decided kernels with a lower bound on their execution time,
and lowers the best candidate to code. This project models the parts of each stage where several
functions, threads or data structures must agree, and proves what the rest of the program relies on.

**Search.**

- *Tree search* (`SearchTree`, `SearchInvariant`, `SearchSteps`, `SearchTheorems`, `SearchRaces`,
  `SearchPruning`, `SearchMeasure`, `SearchAlone`). Any
  number of workers interleave with each other, with published cuts, stop requests and restarts. Each
  worker is a program counter, and a step is one access to shared memory that others change. Reading
  whether a node is live and marking it dead is one step: a node that died in between stays dead, so
  a second mark changes nothing. Which child a policy picks is left open. An invariant of every run
  gives the soundness of pruning and the ownership of candidates. Pruning also happens: nothing is
  handed out, expanded or walked to that a cut known to the worker excludes. A worker that searches
  alone ends, and has then lost nothing.
- *Bound-ordered search* (`CandidateLists`, `BoundOrder`, `QueueProtocol`, `BoundOrderOptimality`,
  `BoundOrderProgress`, `BoundOrderCuts`). The shared queue with its counter of active workers, the evaluation
  callback, and the monitor that lowers the cut. The search ends, it ends only when drained, and
  the candidate it then keeps is optimal up to the configured distance.
- *Statistics and layouts* (`EvaluationLists`, `LayoutChoices`). The best evaluations kept on each
  edge of the tree, and the enumeration of memory layouts.

**Performance model.**

- *Latencies* (`DependencyMaps`, `UnrolledLevels`, `RepeatLevels`, `NestedLevels`). A longest-path
  dynamic program over a dependency graph, and the edges that stand for all the iterations of a
  loop, compared with explicit paths, with the unrolled loop and with the whole nest unrolled.
- *Sizes* (`Divisibility`, `Products`, `SizeBounds`, `FixedSizes`, `SizeExactness`, `SizeExprs`, `Parallelisms`).
  Bounds, factors and multiples of sizes whose dimensions are open, the exact conditions of the lower
  bound, their values once every size is known, and the number of waves of blocks they imply.

**Intermediate representation.**

- *Identifiers* (`SparseVecs`, `IrBodies`, `IrInvariants`, `IrFreeze`, `IrLowering`, `IrLowered`,
  `IrRuns`, `IrAddresses`, `IrFunctions`). Freezing a function reserves identifiers; lowering operands
  and layouts activates them in any order. A lowered layout computes the addresses of its accesses.
- *Addresses* (`MixedRadix`, `PartialSizes`, `TiledAddresses`, `Tensors`). Symbolic sizes, the
  increments of tiled dimensions, and tensors with transposed or hidden dimensions.

**Code generation.**

- *Control flow* (`Nests`, `NestOrder`, `NestParser`, `NestRebuild`, `NestEvents`, `EmptyThreads`,
  `NestBuild`, `NestRoles`). Events are generated, sorted and parsed into a graph, which is then filled with sets
  of threads. The result is the loop nest that the decisions describe.
- *Induction variables* (`InductionVars`, `InductionLevels`, `LoopCode`, `LoopPrinter`, and the
  proof in `StraightCode`, `Triples`, `LoopMeaning`, `LoopCorrect`, `LoopRun`, `LoopTheorem`,
  `LoopKernel`, `LoopOrder`, `FusedLoops`). The printer emits moves, additions and jumps for a loop
  nest with block, thread, sequential, unrolled and vector dimensions. A small machine runs the code,
  and the result is compared with nested loops.
- *Names and memory* (`VariableAliases`, `VariableNaming`, `CodegenSizes`, `PrivateMemory`).
  Variables that share registers, and global memory of which each block of threads owns a part.

Where the source updates objects in place (`CandidateList`, `DependencyMap`, `LevelDag`,
`Evaluations`, `SparseVec`, `Counter`, `Function`, `PartialSize`, `CodegenSize`, `TensorBuilder`,
`EventStream`, `InductionVarValue`, `Printer`) the model has a class whose methods are proved
against functions. What many threads share is a state machine instead: its steps are the atomic
actions of the source. `Wrappers`, `Extended` and `Sequences` hold shared definitions.

Where the code does not do what one would expect of it, the model keeps the code and says exactly
when it does:

- loops tested at their end behave as nested loops if and only if every size is positive
  (`LoopOrder.NestedIffSizesPositive`);
- pushing to a `SparseVec` fails once slots were declared past its end, because `make_holes` adds
  one hole too many (`SparseVecs.SparseVec.Push`, `MakeHoles`);
- multiplying partial sizes keeps the value for all sizes if and only if the operands share neither
  factors nor divisors (`PartialSizes.ProductIffDisjoint`);
- the lower bound of a size holds, whatever its constant, if and only if every choice of sizes
  passes one comparison (`SizeExactness.MinSoundIff`). For sizes without dimensions this means that
  every size of a divisor divides its greatest one (`ConstantMinIff`), and for regular divisors that
  least sizes and what is shared with the divisors have small common multiples
  (`RegularDivisorsMinIff`). Two tiles of two or three iterations of a dimension of size twelve
  have value two and bound four (`MinCanExceedValue`), and irregular sizes of a dimension break the
  bound even when divisors are regular (`IrregularDimensionFails`);
- when dimensions of one induction variable are fused into one loop, the loop keeps the variable right
  if and only if the increments of all but the last of them add up to zero
  (`FusedLoops.FusedAdvanceIff`; `FusedKernelWrong` runs a kernel that reads a wrong operand);
- a descent fails its first assertion if and only if it enters the explicit tree at a root whose
  expansion failed and which is not expanded, and its second if and only if the root is expanded and
  is an implementation (`SearchRaces.PanicsIff`, with a run to each in `RootDiesBeforeExpansion` and
  `ImplementationAtRoot`);
- a worker that finds its epoch unchanged knows the present cut if and only if no lower cut was
  published between its reading the cut and its reading the epoch afterwards
  (`SearchPruning.UnchangedEpochIff`, with a run in `SearchRaces.UnnoticedCut`);
- a size without parameters is taken for its numerator, which is right if and only if the division
  is exact (`CodegenSizes.AsIntIffExact`);
- an operand can be lowered if and only if its map is not empty and maps no dimension twice
  (`IrRuns.LowerIff`), and a queued layout if and only if the dimensions it is given exist and are
  distinct (`IrRuns.LowerLayoutIff`).

## Model

| member | source | states |
|---|---|---|
| SearchSteps.RunInv | src/explorer/mcts.rs:983-1185 | every state of every run, over all interleavings of workers, cuts, stops and restarts, satisfies the invariant |
| SearchSteps.WorkKeeps | src/explorer/mcts.rs:625-918 | one atomic step of any unblocked worker keeps the invariant of the shared tree, of the locks and of that worker, and changes nothing the others rely on |
| SearchSteps.RestartKeeps | src/explorer/mcts.rs:262-271 | when no worker is inside a descent, resetting the tree keeps the invariant: dead nodes stay justified and live ones own their candidate |
| SearchTheorems.DeadNodesAreJustified | src/explorer/mcts.rs:652-761 | a dead node was rejected by its constraints, has a bound not below the cut, was handed out, or has only dead children |
| SearchTheorems.ExhaustedSearchLosesNothing | src/explorer/mcts.rs:1361-1394 | after an unstopped `explore` returns nothing, each implementation was handed out or lies at or below a node whose bound reaches the cut |
| SearchTheorems.NothingWorthEvaluatingIsLost | src/explorer/mcts.rs:1361-1394 | with admissible bounds, every implementation faster than the final cut was handed out |
| SearchTheorems.CutIsLeastPublished | src/explorer/mcts.rs:1308-1320 | the cut is the least of the initial cut and of those published, and is one of them |
| SearchTheorems.ExplicitTreeOwnsCandidates | src/explorer/mcts.rs:711-761 | a live unexpanded node at the frontier of the explicit tree holds its own candidate unless its expansion lock is held; an expanded node has a node behind every edge |
| SearchTheorems.OnlyRootRacesPanic | src/explorer/mcts.rs:876-918 | no `assert!` or `unwrap` of the descent fails, except the two at its start when the root died meanwhile or is an implementation |
| SearchRaces.PanicsIff | src/explorer/mcts.rs:1070-1086 | a step fails the first assertion iff it enters at a root that is not expanded, the second iff it enters at an expanded root without actions, and no other assertion ever |
| SearchRaces.RootDiesBeforeExpansion | src/explorer/mcts.rs:876-880 | a run of two workers reaches the first failure: a cut kills the root between its check and its expansion |
| SearchRaces.ImplementationAtRoot | src/explorer/mcts.rs:1070-1086 | a run of two workers on a space that is one implementation reaches the second |
| SearchRaces.UnnoticedCut | src/explorer/mcts.rs:1263-1266 | a run in which a worker finds its epoch unchanged although a lower cut was published after it read the cut |
| SearchTheorems.CandidateTakenOncePerRestart | src/explorer/mcts.rs:876-918 | between two expansions of one node there is a restart, and each takes the candidate of that node |
| SearchTheorems.BlockedByRunnableWorker | src/explorer/mcts.rs:876-918 | a worker blocked on an expansion lock waits for a worker that is itself not blocked |
| SearchTheorems.WalkHoldsCandidateOfNode | src/explorer/mcts.rs:983-1050 | the candidate a worker walks with is the one reached by the actions of its path |
| SearchTheorems.ReturnedOnce | src/explorer/mcts.rs:652-668 | an implementation that a worker returned is never chosen again, by any worker, at any later cut, or after a restart |
| SearchPruning.HandedOutBelowCuts | src/explorer/mcts.rs:652-668 | an implementation handed out has a bound below the initial cut and all cuts published up to the last time the worker read the cut |
| SearchPruning.SelectedBelowCuts | src/explorer/mcts.rs:1089-1185 | the same for each child selected, in the tree or in the rollout |
| SearchPruning.ExpandedBelowCuts | src/explorer/mcts.rs:876-918 | the same for each node whose candidate is taken to be expanded |
| SearchPruning.UnchangedEpochIff | src/explorer/mcts.rs:625-650 | a worker that finds its epoch unchanged knows the present cut iff no lower cut was published between its reading the cut and then the epoch |
| SearchAlone.AloneNeverStuck | src/explorer/mcts.rs:983-1185 | a worker that searches alone never waits for a lock and fails no assertion |
| SearchAlone.WorkLowersStepsLeft | src/explorer/mcts.rs:983-1185 | each of its steps lowers a measure of the nodes not yet dead or expanded and of the way left at the node |
| SearchAlone.AloneEnds | src/explorer/mcts.rs:983-1185 | it finishes within a number of steps that depends on the space alone, whatever is picked and whenever cuts are published |
| SearchAlone.AloneFindsAll | src/explorer/mcts.rs:1361-1394 | after that many steps without a stop or restart it has handed out every implementation not under a bound that reaches the cut |
| CandidateLists.CandidateList.Insert | src/explorer/parallel_list.rs:121-135 | a candidate is queued if its bound is below the cut and counted as dropped otherwise |
| CandidateLists.CandidateList.InsertMany | src/explorer/parallel_list.rs:63-70 | every candidate of a batch is queued or dropped, none is lost or duplicated |
| CandidateLists.CandidateList.UpdateCut | src/explorer/parallel_list.rs:138-148 | popping the greatest bounds first removes exactly the candidates the new cut excludes |
| CandidateLists.CandidateList.Pop | src/explorer/parallel_list.rs:151-160 | returns a candidate of least bound and removes it alone, and nothing exactly when the queue is empty |
| CandidateLists.InsertAllContains | src/explorer/parallel_list.rs:63-70 | after a batch insertion every element of the queue was there or is in the batch below the cut, and none of these is missing |
| QueueProtocol.CounterCountsActive | src/explorer/parallel_list.rs:63-92 | in every reachable state the counter is the number of workers neither waiting nor finished, and a sleeping worker without notification implies an empty queue |
| QueueProtocol.FinishedMeansDrained | src/explorer/parallel_list.rs:72-88 | `pop` gives up only if the queue is empty and no worker can insert any more |
| QueueProtocol.NeverAllBlocked | src/explorer/parallel_list.rs:72-88 | while a worker has not returned, some worker is active or notified |
| QueueProtocol.ReadyWorkerCanStep | src/explorer/parallel_list.rs:63-92 | an active or notified worker has an enabled step that changes it |
| BoundOrderOptimality.DrainedSearchIsOptimal | src/explorer/mod.rs:264-326 | once the queue is drained and all messages handled, the kept candidate is a checked implementation with its measured time, and every other is at least (1 - distance/100) times as slow |
| BoundOrderOptimality.BestIsChecked | src/explorer/monitor.rs:147-201 | at any time the kept result belongs to the space, passed the check and carries its measured time |
| BoundOrderOptimality.NewCutMonotone | src/explorer/monitor.rs:132-143 | the published cut never exceeds the evaluation it comes from, grows with it and stays non-negative |
| BoundOrderCuts.StopBoundEmptiesQueue | src/explorer/monitor.rs:132-143 | after a result below the stop bound is kept and its cut applied, the queue is empty in every later state |
| BoundOrderCuts.QueueMayImprove | src/explorer/monitor.rs:132-143 | once a cut is applied, every queued candidate has a bound below (1 - distance/100) times the result it comes from |
| BoundOrderProgress.StepsProgress | src/explorer/parallel_list.rs:63-92 | every event that changes the state decreases a lexicographic measure of queued, held and pending work, unfinished and awake workers |
| BoundOrderProgress.RunsAreFinite | src/explorer/mod.rs:264-326 | a run without stuttering is at most as long as the measure of its first state |
| BoundOrderProgress.StuckOnlyWhenDrained | src/explorer/mod.rs:264-326 | a reachable state that is neither drained nor stopped has an event that changes it |
| DependencyMaps.DependencyMap.AddDep | src/model/dependency_map.rs:27-40 | the new map differs in one entry, where the old and the offered latency are at most tolerance times the one kept, and stays topologically sorted |
| DependencyMaps.PreferredIsNear | src/model/hw_pressure.rs:36-45 | of two non-negative latencies the one refused is at most tolerance times the one preferred |
| DependencyMaps.DependencyMap.LatencyTo | src/model/dependency_map.rs:49-70 | absent iff no path exists, otherwise the latency of a real path, and no path is longer than a power of the tolerance times it; at tolerance one it is a longest path |
| RepeatLevels.LevelDag.AddDependency | src/model/level.rs:532-556 | the dependency is added to exactly the maps listed and to no other |
| RepeatLevels.RepeatLevel | src/model/mod.rs:277-339 | each edge added is matched by a path of the unrolled level of at least its weight; every edge the source promises is there, up to explicit powers of the tolerance; other maps are unchanged |
| RepeatLevels.ExtendedPathMatched | src/model/mod.rs:277-339 | each whole path of the extended map is matched by a path at least as long in the unrolled level |
| UnrolledLevels.AllIterationsMatched | src/model/mod.rs:290-302 | the edge for all the iterations, without the dependencies of the first and last ones, is at most a path to the exit of the last copy |
| UnrolledLevels.EntryOfLastMatched | src/model/mod.rs:303-312 | the edge to the entry, for a first iteration with its dependencies and all but the last of the others, is at most a path to the entry of the last copy |
| UnrolledLevels.SecondCopyMatched | src/model/mod.rs:313-339 | the combination of latencies used before repeating a back-edge is at most a path to the second copy of its node |
| UnrolledLevels.EntryAfterBackEdgesMatched | src/model/mod.rs:313-339 | all the repetitions of a back-edge but one, then the exit, give at most a path to the entry of the last copy |
| NestedLevels.RunLayered | src/model/mod.rs:80-105 | in whatever order levels are repeated, the map of more levels stays at least as late as that of fewer levels, as the next repetition needs |
| NestedLevels.NestMatched | src/model/mod.rs:80-105 | in whatever order levels are repeated, each path of each map is at most as long as a route of the nest of all the levels repeated over it, unrolled at once over its first dependencies |
| NestedLevels.ProcessRepeat | src/model/level.rs:567-614 | a repetition extends exactly the maps of the sets of levels that contain the repeated one and those of the map it reads, and is a step of the runs above |
| SizeBounds.Bounds | src/model/size.rs:32-58 | the ends are the products over the dimensions, divided one divisor at a time |
| SizeBounds.Factors | src/model/size.rs:88-116 | the same for the common divisor and the common multiple |
| FixedSizes.UpperEnds | src/model/size.rs:32-58 | `max` and `lcm` are the greatest dividends over the least divisors, rounded down |
| FixedSizes.LowerEnds | src/model/size.rs:88-116 | `min` and `gcd` are the least dividends without what they share with the greatest divisors |
| FixedSizes.GcdOfGreatest | src/model/size.rs:119-126 | what divides every size of a dimension divides their common divisor |
| FixedSizes.LcmOfLeast | src/model/size.rs:119-126 | every common multiple of the sizes is a multiple of their least one |
| FixedSizes.KnownSize | src/model/size.rs:32-116 | when every size is known and the division exact, all four ends are the value |
| SizeBounds.FactorsSound | src/model/size.rs:88-116 | whatever sizes are chosen, the value is a multiple of `gcd` and divides `lcm` |
| SizeBounds.MaxSound | src/model/size.rs:32-58 | whatever sizes are chosen, the value is at most `max` |
| SizeBounds.MinSound | src/model/size.rs:32-58 | if least sizes divide and greatest sizes are multiples of the others, `min` is positive, divides the value and is at most it |
| SizeExactness.MinSoundIff | src/model/size.rs:32-58 | `min` is a lower bound for every constant and every choice iff each choice passes one comparison at the least constant that makes it exact |
| SizeExactness.ConstantMinIff | src/model/size.rs:32-58 | without dimensions and with distinct divisors, `min` is a lower bound for every constant iff every size of every divisor divides its greatest size |
| SizeExactness.RegularDivisorsMinIff | src/model/size.rs:32-58 | with regular divisors apart from the dimensions, `min` is a lower bound iff for each choice of the dimensions the least product and what the chosen one shares with the greatest divisors have a common multiple up to the chosen one |
| SizeExactness.MinExactly | src/model/size.rs:47-51 | for one constant and any divisors, `min` is a lower bound iff no product of chosen sizes that divides the constant exceeds what the greatest sizes share with it |
| SizeExactness.MinCanExceedValue | src/model/size.rs:47-51 | twelve divided by two tiles of two or three iterations: value two, bound four |
| SizeExactness.IrregularDimensionFails | src/model/size.rs:32-58 | a dimension of size two or three divided by a tile of size three: value one, bound two |
| Parallelisms.InstructionParallelism | src/model/local_info.rs:320-350 | multiplies the sizes of the dimensions around an instruction that are or may be blocks, and bounds these products |
| Parallelisms.InstructionSound | src/model/local_info.rs:320-350 | whichever dimensions become blocks and whatever their sizes, the least number of blocks and threads are at most the real ones and the blocks divide the multiple |
| Parallelisms.KnownParallelism | src/model/local_info.rs:313-353 | once every dimension and size is decided, the result is the numbers of blocks and threads |
| Parallelisms.KernelParallelism | src/model/local_info.rs:313-353 | folded over all instructions, the least numbers of blocks and threads are at most the real ones, the number of blocks divides the multiple, and all are exact once every dimension and size is decided |
| Parallelisms.ScaleSound | src/model/hw_pressure.rs:140-152 | the factor applied to the bound of a block never exceeds the waves the kernel needs |
| Parallelisms.ScaleExact | src/model/hw_pressure.rs:140-152 | once every dimension and size is decided, the factor is the number of waves |
| EvaluationLists.Evaluations.Record | src/explorer/mcts.rs:2106-2120 | the list stays the sorted list of the k smallest values seen; a value refused exceeds none of them |
| EvaluationLists.Evaluations.CountLte | src/explorer/mcts.rs:2090-2103 | counts the values up to the threshold, ties included |
| EvaluationLists.MergeChild | src/explorer/mcts.rs:1962-1974 | giving up at the first value refused loses none of the k smallest |
| EvaluationLists.Threshold | src/explorer/mcts.rs:1957-1979 | the threshold is the k-th smallest value of all the edges, or the greatest when there are fewer |
| EvaluationLists.BestOfBest | src/explorer/mcts.rs:1957-1979 | the k smallest of what the edges kept are the k smallest of all that was ever recorded |
| LayoutChoices.LowerLayoutChoice | src/explorer/choice.rs:258-294 | ends; each layout orders stores and loads by one permutation of the pairs; each order of inner dimensions up to the cut-off is listed exactly once |
| SparseVecs.SparseVec.MakeHoles | src/ir/mod.rs:248-253 | extends the vector one slot past its capacity |
| SparseVecs.SparseVec.Push | src/ir/mod.rs:239-244 | appends exactly when no slot is declared past the last one, and fails otherwise |
| SparseVecs.SparseVec.ExpandTo | src/ir/mod.rs:257-260 | declares slots and keeps those filled |
| SparseVecs.SparseVec.SetLazy | src/ir/mod.rs:268-283 | fills a hole, and fails exactly when the slot is not declared or is filled |
| IrFreeze.ForDimMap | src/ir/operand.rs:117-140 | reserves one block, two instructions and four identifiers per pair, in the order of the counter |
| IrFreeze.FreezeFunction | src/ir/function.rs:565-635 | freezes the instructions, then the bases of induction variables, and declares as many slots as were reserved |
| IrFreeze.FreezeReserves | src/ir/function.rs:583-596 | identifiers reserved for different operands are distinct, and lie between those in use and the declared capacity |
| IrFreeze.FrozenInv | src/ir/function.rs:565-635 | a frozen function satisfies the invariant of lowering |
| IrFunctions.Function.ActivateMappedDims | src/ir/function.rs:703-725 | creates and maps the dimensions one by one, or fails |
| IrFunctions.Function.LowerOperand | src/ir/function.rs:640-697 | the new body is that of the specification, or the lowering is refused, or it panics |
| IrFunctions.Function.Merge | src/ir/function.rs:350-360 | removes the pair from all maps and queues exactly the blocks that became ready |
| IrRuns.MergeRemovesPair | src/ir/operand.rs:261-268 | after merging two dimensions, no operand and no base maps one to the other, and every other pair stays |
| IrFunctions.Function.DimNotMerged | src/ir/function.rs:728-731 | moves the pair to the mapped ones and queues exactly the layouts that became ready |
| IrFunctions.Function.GenIndexVar | src/ir/function.rs:400-431 | adds the variable whose increments are the element size times the sizes of the inner dimensions, or fails |
| IrFunctions.Function.LowerBlockLayout | src/ir/function.rs:363-385 | removes the layout from the queue, makes the variables of its store and load and rewrites the accesses to use them, or fails |
| IrLowered.LowerKeepsInv | src/ir/function.rs:640-725 | lowering an operand succeeds and keeps references active and the other reservations apart |
| IrRuns.LowerComposes | src/ir/function.rs:640-697 | store map, layout and load map composed are the dimension map that was lowered, from the same source |
| IrRuns.PairsConserved | src/ir/mem.rs:160-189 | the pairs a block maps or may map only change when their dimensions are merged |
| IrRuns.LowerIff | src/ir/function.rs:640-697 | in a reachable body an operand is lowered iff it may be, its map is not empty, and the map is one to one |
| IrRuns.LowerLayoutIff | src/ir/function.rs:363-431 | in a reachable body a layout is lowered iff it is queued and its store and load dimensions exist and are distinct; the new body is given in full |
| IrAddresses.OffsetIsRank | src/ir/function.rs:400-431 | index times increment is the element size times the number the indexes write, outermost dimension first |
| IrAddresses.LoadReadsItsStore | src/ir/function.rs:363-431 | once a layout is lowered, a load reads the address of a store iff their indexes agree along all its dimensions |
| IrRuns.RunInv | src/ir/function.rs:640-731 | after any sequence of lowerings, merges and separations, active objects refer to active ones and reservations are disjoint holes |
| IrRuns.SlotsFilledOnce | src/ir/mod.rs:268-283 | each slot filled was a hole reserved by the operand being lowered, and filled slots stay filled |
| IrRuns.QueueStep | src/ir/mem.rs:160-189 | a layout is queued by a step iff the step decides its last pair |
| IrRuns.QueuedOnce | src/ir/mem.rs:160-189 | no layout is queued twice in a run |
| IrRuns.DecidedWasQueued | src/ir/mem.rs:160-189 | a layout whose pairs were all decided during the run was queued by one of the decisions |
| PartialSizes.PartialSize.MulAssign | src/ir/size.rs:217-223 | the new fields are those of the product |
| PartialSizes.SimplifyKeepsValue | src/ir/size.rs:150-156 | cancelling common dimensions keeps the value for all sizes |
| PartialSizes.ProductIffDisjoint | src/ir/size.rs:217-223 | multiplication keeps the value for all sizes iff the operands share no dimension and no divisor |
| TiledAddresses.RealIncrements | src/helper/builder.rs:417-442 | the increment of a tile is the stride times the sizes of the tiles inside it |
| TiledAddresses.TiledAddress | src/helper/builder.rs:417-442 | index times increment over the tiles is the stride times the index they write together |
| TiledAddresses.TilesCoverOnce | src/helper/builder.rs:417-442 | each index of the logical dimension is written by exactly one tuple of tile indexes |
| Tensors.TensorBuilder.Transpose | src/helper/tensor.rs:84-89 | swaps two dimensions in memory and keeps the logical sizes in order |
| Tensors.TensorBuilder.StrideDim | src/helper/tensor.rs:92-95 | hides one logical dimension and keeps the others in order |
| Tensors.TensorBuilder.Finish | src/helper/tensor.rs:104-141 | each exposed dimension has its size, and a stride equal to the element size times the dimensions stored after it |
| Tensors.OffsetIsRank | src/helper/tensor.rs:104-141 | index times stride over the exposed dimensions is the element size times the number the indexes write in memory |
| Tensors.ElementInBounds | src/helper/tensor.rs:104-141 | every element is aligned and inside the array |
| Tensors.ElementsApart | src/helper/tensor.rs:104-141 | different tuples of indexes have different addresses |
| NestOrder.WalkIncreasing | src/codegen/cfg.rs:393-431 | on the events of a nest the comparison never panics and agrees with their places in the walk |
| NestOrder.SortedIsUnique | src/codegen/cfg.rs:360-370 | sorting the events of a nest, whatever their order, gives the walk through the nest |
| NestEvents.FindGroup | src/codegen/cfg.rs:497-514 | the search finds the group of the same axis, or the place between smaller and larger axes |
| NestEvents.GroupThreads | src/codegen/cfg.rs:493-519 | thread dimensions are grouped by axis, the axes in order, none lost |
| NestEvents.SortBlocks | src/codegen/cfg.rs:476-492 | sorts block dimensions from the outermost one |
| NestEvents.SortedBlocksUnique | src/codegen/cfg.rs:476-492 | any sorted permutation of nested block dimensions is the same list |
| NestBuild.GenEvents | src/codegen/cfg.rs:452-530 | one execution per instruction, one entry and one exit per dimension, threads entered at the position of their axis, block dimensions in the order of their nest |
| NestParser.VectorInstFromEvents | src/codegen/cfg.rs:75-109 | reads exactly the events of a vector instruction and sorts its dimensions by vectorisation level |
| NestRebuild.EnterThreads | src/codegen/cfg.rs:132-147 | reads the entries of a group of threads; no position is taken twice |
| NestRebuild.BodyFromEvents | src/codegen/cfg.rs:112-161 | rebuilds the nests whose events it reads, and reads exactly these and the events that end them |
| NestBuild.SortedIsWalk | src/codegen/cfg.rs:360-370 | any sorted permutation of the generated events is the walk through the nest |
| NestBuild.Build | src/codegen/cfg.rs:360-370 | from instructions and dimensions in any order, the graph is the nest the decisions describe, filled with empty sets of threads; each set lists one entry per thread dimension, neighbouring nodes are not both added ones, and block dimensions are listed from the outermost one |
| NestRoles.GraphSaysWhatNestSays | src/codegen/cfg.rs:360-370 | in the graph each instruction keeps its loops, its thread positions, its computed levels and its vector dimensions |
| NestBuild.NestCovered | src/codegen/cfg.rs:164-194 | the graph holds the instructions of the nest in order, each under exactly one set of threads, and is the nest once added sets are removed |
| EmptyThreads.AddEmptyThreads | src/codegen/cfg.rs:173-194 | the loop over groups computes the filled graph |
| EmptyThreads.FillListsAll | src/codegen/cfg.rs:173-194 | if the sets of threads list one entry per thread dimension, so do the added ones |
| EmptyThreads.FillGroups | src/codegen/cfg.rs:173-194 | no two neighbouring nodes are both added ones |
| EmptyThreads.FillKeepsInsts | src/codegen/cfg.rs:173-194 | the sequence of instructions does not change |
| EmptyThreads.FillCoversOnce | src/codegen/cfg.rs:173-194 | an instruction outside threads ends under one set of threads, the others keep the number they had |
| EmptyThreads.FillErases | src/codegen/cfg.rs:173-194 | removing the sets without active threads gives the input back |
| EmptyThreads.FillIdempotent | src/codegen/cfg.rs:173-194 | a second pass changes nothing |
| VariableAliases.SortVariables | src/codegen/variable.rs:131-150 | each variable is emitted once, after the one it aliases with |
| VariableAliases.PropagateDim | src/codegen/variable.rs:168-184 | a dimension reaches all the aliased variables although the walk stops at the first that has it |
| VariableAliases.GenerateAliases | src/codegen/variable.rs:107-128 | each definition gives its alias, whose maps of dimensions are inverse to each other and which is defined before |
| VariableAliases.WrapVariables | src/codegen/variable.rs:154-196 | from the definitions alone, the instantiation dimensions are the least ones that include what each alias needs and are closed under pulling back, and dimensions mapped to each other have the same size |
| VariableAliases.WrappedDims | src/codegen/variable.rs:93-109 | a dimension instantiates a variable iff it is the unmerged right side of one of its pairs, the unmerged left side of a pair of an alias, or pulled back from an alias |
| VariableNaming.AliasSharesName | src/codegen/name_map.rs:559-583 | the name of an alias is that of the other variable at the pulled back indexes |
| VariableNaming.ChainSharesName | src/codegen/name_map.rs:559-583 | the same along a chain of aliases of any length |
| VariableNaming.NamesDistinct | src/codegen/name_map.rs:523-556 | two instances share a register iff their indexes agree on every dimension |
| CodegenSizes.ProductValue | src/codegen/size.rs:74-87 | multiplying sizes multiplies their exact values |
| CodegenSizes.AsIntIffExact | src/codegen/size.rs:50-56 | a size without parameters is the constant it is taken for iff the division is exact |
| PrivateMemory.PrivatiseGlobalBlock | src/codegen/printer.rs:178-204 | emits the fold over the block indexes and the update of the address |
| PrivateMemory.PrivateAddress | src/codegen/printer.rs:178-204 | running the code adds to the address the index of the block times the size of its part, and touches no other register |
| PrivateMemory.PartsTile | src/codegen/function.rs:377-383 | each offset of the allocated memory belongs to the part of exactly one block |
| PrivateMemory.AllocatedIsTiled | src/codegen/function.rs:265-320 | the allocated size is the number of blocks times the size of a part |
| InductionVars.InductionVarValue.ApplyLevel | src/codegen/dimension.rs:255-268 | the returned value has the old components, the object becomes the value of the level, and the operand is used once |
| InductionVars.GetIndVarLevels | src/codegen/dimension.rs:344-372 | the levels are split by kind, vector dimensions are dropped, and both lists are sorted outermost first |
| InductionVars.RegisterInductionVar | src/codegen/dimension.rs:279-341 | one variable yields its precomputed levels, its entries for loops and its final value |
| InductionVars.RegisterInductionVars | src/codegen/dimension.rs:279-341 | all the variables together yield the level table, the precomputed levels and the final values |
| InductionLevels.SortedLevels | src/codegen/dimension.rs:344-372 | sorting keeps the increments and their multiplicity, and orders them from the outermost dimension, fused ones side by side |
| InductionLevels.LoopLevelsComplete | src/codegen/dimension.rs:279-341 | a loop receives exactly the levels of the sequential dimensions fused into it, once each |
| LoopPrinter.Printer.DisableThreads | src/codegen/printer.rs:159-176 | the guard is the conjunction of index = 0 over the inactive thread dimensions |
| LoopPrinter.Printer.StandardLoop | src/codegen/printer.rs:208-255 | the emitted loop is the code whose runs `KernelCorrect` describes |
| LoopPrinter.Printer.UnrollLoop | src/codegen/printer.rs:258-306 | one copy of the body per index, with the index recorded during the copy only |
| LoopPrinter.Printer.ParallelInductionLevel | src/codegen/printer.rs:308-351 | a parallel level is computed by one instruction from its base and index |
| LoopPrinter.Printer.PrintCfg | src/codegen/printer.rs:369-397 | the printer emits the code of the whole graph and advances its names alike |
| LoopPrinter.Printer.PrintKernel | src/codegen/printer.rs:354-397 | the levels of block and thread dimensions come first, then the nest |
| LoopKernel.InitRegsOk | src/codegen/printer.rs:308-351 | the levels computed first hold base plus index times increment, from parameters, bases and parallel indexes alone |
| LoopKernel.KernelLabels | src/codegen/printer.rs:208-255 | no label of a printed kernel is defined twice |
| LoopKernel.OperandValue | src/codegen/name_map.rs:381-393 | the operand read for a variable is its base plus the sum of index times increment over the dimensions that are not vectorised |
| LoopKernel.KernelCorrect | src/codegen/printer.rs:208-351 | when no loops of one variable are fused with each other, the kernel runs to its end, executes the instructions of the nest in order, and each reads the right operands, indexes and guard |
| FusedLoops.FusedAdvanceIff | src/codegen/printer.rs:208-255 | the code at the end of a loop keeps a variable right iff the increments of its other dimensions fused into the loop add up to zero |
| FusedLoops.FusedKernelWrong | src/codegen/printer.rs:208-255 | the code printed for two fused dimensions of increment one reads base + 1 in the second iteration instead of base + 2 |
| LoopTheorem.RunCfg | src/codegen/printer.rs:354-397 | from any state that meets the invariant, the code of a graph runs to its end with the events of the nest and restores the invariant |
| LoopOrder.NestedIffSizesPositive | src/codegen/printer.rs:208-255 | loops tested at their end behave as nested loops if and only if every one has a positive size |
| LoopOrder.LexicographicOrder | src/codegen/printer.rs:208-306 | an instruction is executed once per tuple of indexes, the tuples in lexicographic order |

## Left out

- Bounds are admissible: `DrainedSearchIsOptimal` and `NothingWorthEvaluatingIsLost` assume that the bound of a node is at most the time of every implementation below it. That the performance model gives such bounds is proved for its longest paths, repetitions and sizes only.
- Constraint propagation: the order, kinds and sizes of dimensions are inputs. Theorems state the consistency they need (`InducedAll`, `WellNested`, `Space.Valid`, `LevelOk`, `Ranks`).
- Scores and random weights of the tree policies: any pick is allowed. Measurements are a fixed function of the implementation, without the averaging of the stabilizer.
- Memory order: shared accesses are sequentially consistent steps, and a lock region is one step where the source holds the lock.
- Liveness of the tree search with several workers: a worker may retry until another one has killed the implementation it holds. `AloneEnds` is about one worker.
- Liveness of the restart barrier, logging, event log, timeouts as real time, configuration files and statistics.
- Floating point and machine overflow: times are reals, sizes and identifiers unbounded naturals. The tolerance of `is_better_than` is a parameter.
- The interval heap of candidates: a multiset with least and greatest elements.
- Origins and explanations of bounds: only their length is kept, since it breaks ties.
- RepeatLevel: with a tolerance above one and non-negative latencies, the promised edges are within explicit powers of it (`Slack`) of the longest paths.
- RepeatLevel: `LevelOk` and `NonNegative` are assumed of the map it reads; that `populate` establishes them is not modelled.
- NestMatched: edges made by dimension maps between repetitions (`apply_dim_map`) are not part of this model, and the tolerance is one.
- KernelCorrect: base operands are values known before the loops, type casts of sizes are the identity, and vector dimensions print no loop.
- KernelCorrect: block and thread dimensions of a variable may be fused with each other, sequential ones not (`FusedAdvanceIff` says when a loop is wrong). Unrolled loops with constant increments, which set each level from the one around it, may be right even then; this is not proved.
- Build: the decisions describe a nest, thread dimensions are perfectly nested and never inside other threads. A sort of the model stands for the one of the standard library, and `SortedIsWalk` shows that any sort gives the same events.
- The graph of `NestParser` keeps vector dimensions and the levels of threads; the one `LoopPrinter` prints leaves out the former and looks the latter up.
- Lowering: types of operands, variables, lists of instructions per dimension and access patterns, which repeat the increments of the address, are not part of this model. The 16-bit counter of mappings does not wrap around.
- MinSound: its condition on domains is sufficient only: six divided by a dimension of size two or three is bounded although neither size divides the other; the exact conditions are those of `MinSoundIff`, `ConstantMinIff`, `RegularDivisorsMinIff` and `MinExactly`.
- MinSound: sizes are arbitrary-precision numbers, so the final conversion to 64 bits cannot fail.
- KernelParallelism: the sizes around an instruction share no dimension and no divisor (`PartialSizes.ProductIffDisjoint` says why this matters), and the lower bounds hold for the choice made (`MinSoundIff`).
- Tensors: reading a tensor back to the host, and the signature that allocates it.
- NamesDistinct: the array of names is indexed in row-major order; its implementation is not part of this model.
- Aliases of instructions (`decl_alias`, `name_mapped_inst`): the same idea on another table.
- NaN evaluations, on which comparisons panic.
- `fix_order`, choice lists, backends, device descriptions, the C interface and the command line.
