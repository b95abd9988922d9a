# Verified core of an MLIR model compiler and its paged-cache runtime

This project models, in Dafny, the parts of the compiler and runtime whose correctness is hard to see from one
function, and proves what they are for:

- **Splitter and execution plan** (`Ssa`, `Blocks`, `Names`, `DimAttrs`, `Splitter`, `SplitPlan`, `SplitBuilder`,
  `CallingConvention`, `Interpreters`, `SplitCorrect`, `SplitEndToEnd`). A straight-line SSA program is cut into
  functions connected by a slot-routed plan. For every well-formed program whose later blocks read no global input
  directly and whose dimension attributes are in range, every boundary set and every interpretation of the operations,
  the slot-routed run, the executor's flat run and the unsplit program agree.
- **KV-cache contract** (`GqaBoundary`, `CacheContract`). Boundaries lie where repeated heads start; bindings made at compile time select at run time exactly the
  attention they were made for, and layers are numbered in program order.
- **Paged store** (`PagedStore`, `CacheRuns`, `CacheDriver`). The slabs refine a plain per-request list of rows over
  every run, and a decode step sees exactly the rows produced so far, on a manager driven through any schedule.
- **Executor with its cache** (`CachedRun`, `CachedExecutor`, `CompiledPass`). A prefill pass computes the plain run; a
  decode step, which overwrites operands in the environment, changes only the attentions under an exact condition.
- **Op plan** (`OpPlan`, `OpPlanBuilder`, `OpPlanProof`, `OpPlanResult`, `OpPlanOfSplit`). The kernel graph of the
  covered decoder functions evaluates to what the functions compute; its validator accepts it under an exact condition.
- **Matmul-to-BLAS rewrite** (`Matrices`, `BlasBridge`, `BufferPrograms`, `BlasRewrite`, `BlasRewriteProof`,
  `BlasRecognition`, `BlasSharedCopy`). A transformation of programs over mutable buffers preserves the contents of every buffer whose last
  write is not an erased copy.
- **Numerics over the reals** (`OnlineSoftmax`, `Rounding`, `Int4`, `SmoothQuant`, `SmoothCalibrator`,
  `TensorParallel`).
- **Text format and shapes** (`Text`, `MlirText`, `MlirRoundTrip`, `MlirReadBack`, `Broadcast`).

Loops of the source are methods with invariants, proved against specification functions; the theorems are about those
functions. Operation semantics, `exp`, `pow`, Python's `float()` and HAL kernels are parameters with stated hypotheses.
Names are SSA names without the printing prefix `%`. Tensors hold reals.

## What the proofs show about the code

- The function count returned next to explicit boundaries is right exactly when the boundaries are distinct and lie
  strictly inside the program (`Blocks.ReportedCountExact`); a boundary at index 0 leaves a sentinel in a single-block
  body (`Blocks.SingleBlockBody`).
- The slot-routed run goes through exactly when no block after the first reads a global input directly
  (`SplitCorrect.SlotRunSucceedsIff`), and dimension clamping changes an operation exactly when one of its dimension
  attributes is out of range (`DimAttrs.AdjustIdentity`).
- Tracing a cache source leaves the block exactly when at most eight repeat-kv operations lie in between
  (`GqaBoundary.TraceLeavesIff`).
- A transposed copy shared by two products makes the second one wrong unless it is empty, when its left operand and the
  weight are inputs of the program or results of operations the rewrite does not know; a zero-filled left operand, say,
  hides the fault (`BlasSharedCopy.SharedCopyIff`). The scalar fallback ignores offsets and inner strides
  (`BlasBridge.FallbackReadsMemrefIff`).
- A decode step overwrites intercepted keys and values by name, so it changes more than the attentions exactly when
  something else reads such a key or value (`CachedRun.CachedIsDirectIff`, `CompiledPass.ModuleChangesOnlyAttentions`).
- A prefill chunk after the first sees only itself (`CacheRuns.AttentionSeesHistory`).
- Output finalisation lets two cache outputs share a name, and then the validator rejects the plan: for a split module,
  exactly when an attention reads an exported key or value in two of its three places (`OpPlanProof.AcceptedIff`,
  `OpPlanOfSplit.SplitAcceptedIff`).
- A row-parallel layer adds its bias once per rank (`TensorParallel.RowParallelIff`).
- A zero weight column is lost in calibration unless alpha is 1, and then no row can be quantised
  (`SmoothCalibrator.QuantisedIff`); calibrating twice changes a layer unless its first factors were 1 on every non-zero
  column (`SmoothCalibrator.CalibrateTwice`).
- Booleans and None inside lists, strings that look like a typed number ("3 : i64" is read as 3), and operations without
  results do not survive the text format; without output types the last colon among the attributes is taken for the
  signature's (`MlirReadBack.RoundTripIff`).
- A plan node starts with the lifetime of a graph-persistent buffer, where the comment beside it says layer-persistent;
  the model follows the code (`OpPlanProof.DraftedNode`, compiler/op_plan.py:247).

## Model

| member | source | states |
|---|---|---|
| `Ssa.RunSolves` | python_runtime/engine/mlir_executor.py:246-250 | executing an SSA program never misses an operand, keeps its inputs and ends in an environment satisfying the defining equation of every operation |
| `Ssa.RunDefined` | python_runtime/engine/mlir_executor.py:246-250 | execution succeeds if and only if every operand is an input or an earlier result |
| `Blocks.SplitIntoFunctions` | compiler/fx/split.py:98-160 | the loops insert one sentinel before every boundary index (explicit or every n-th), and return the reported count |
| `Blocks.PartitionBlocks` | compiler/fx/split.py:349-360 | the loop computes the partition at sentinels |
| `Blocks.SplitCutsExactly` | compiler/fx/split.py:119-139 | splitting at any boundary set and partitioning gives nonempty blocks whose concatenation is the program, cut exactly at the boundaries strictly inside it |
| `Blocks.BlockCount` | compiler/fx/split.py:349-362 | the number of blocks is one more than the number of distinct boundaries strictly inside the program |
| `Blocks.ReportedCountExact` | compiler/fx/split.py:139 | the count reported with explicit boundaries equals the number of blocks if and only if the boundaries are distinct and strictly inside |
| `Blocks.OpCountExact` | compiler/fx/split.py:141-160 | op-count splitting reports exactly the number of blocks |
| `Blocks.SingleBlockBody` | compiler/fx/split.py:362-383 | with at most one block the kept body is the program, preceded by a sentinel if and only if 0 was a boundary |
| `DimAttrs.AdjustIdentity` | compiler/fx/split.py:53-92 | attribute clamping leaves an operation unchanged if and only if all its dimension attributes are below the ranks of the function inputs it reads |
| `DimAttrs.AdjustedFit` | compiler/fx/split.py:53-92 | after clamping every dimension attribute fits the ranks of all operands |
| `DimAttrs.AdjustedExact` | compiler/fx/split.py:68-81 | a dimension attribute becomes the largest value no larger than it was and below the ranks of all ranked operands, a `dims` list item by item; every other attribute stays |
| `DimAttrs.AdjustedOp` | compiler/fx/split.py:53-92 | clamping touches nothing but attributes, keeps their keys, and leaves weights, constants and sentinels alone |
| `DimAttrs.RankOfTensor` | compiler/fx/split.py:638-642 | the rank read off a printed tensor type is its number of dimensions, a scalar counting as one |
| `DimAttrs.RankZeroIff` | compiler/fx/split.py:638-642 | exactly the texts without an opening `tensor<` have rank 0 |
| `SplitPlan.NeededIsEarlier` | compiler/fx/split.py:493-499 | the names a block needs are exactly those it reads that a strictly earlier block produces |
| `SplitPlan.InputsArePermutation` | compiler/fx/split.py:512-561 | the five segments of the calling convention list every needed name exactly once and nothing else |
| `CallingConvention.InputsAre` | compiler/fx/split.py:512-561 | a function's inputs are the one listing of the needed names that is in order: by rank (first activation of block 0, later values, other activations, weights, leading-one activations), then program order, weights alphabetically |
| `SplitPlan.OutputsExact` | compiler/fx/split.py:563-581 | without the fallback a function's outputs are exactly the results used later or globally |
| `SplitPlan.OutputsOnce` | compiler/fx/split.py:607-628 | outputs are listed once each if and only if the query, key and value sources are not repeated |
| `CallingConvention.OutputsInOrder` | compiler/fx/split.py:605-628 | outputs are the query, key and value the next attention reads, in that order, and then everything else alphabetically |
| `SplitPlan.RouteIsExact` | compiler/fx/split.py:669-713 | every input of a later function is routed to a strictly earlier function and an existing output slot carrying that very name |
| `SplitBuilder.BuildProducers` | compiler/fx/split.py:395-400 | the loop builds the last-producer map |
| `SplitBuilder.ComputeNeeded` | compiler/fx/split.py:493-499 | the loop computes the needed set |
| `SplitBuilder.ComputeExported` | compiler/fx/split.py:569-581 | the loops compute the exported names |
| `SplitBuilder.BuildOutputs` | compiler/fx/split.py:605-636 | the loop lists output descriptors in order, with cache marks, and the binding of every marked slot |
| `SplitBuilder.BuildFunction` | compiler/fx/split.py:492-657 | one function with its inputs, outputs, clamped operations and bindings |
| `SplitBuilder.MakeMultiFunctions` | compiler/fx/split.py:489-657 | the loop builds all functions and the whole binding table |
| `SplitBuilder.BuildPlan` | compiler/fx/split.py:662-713 | the loops build one edge per input, or fail on a name that is no global |
| `SplitBuilder.AssignNames` | compiler/fx/split.py:473-487 | every function has a name of its own: a block before a b-block is a first half, any other b-block the second half of the number before it, every other block stands alone |
| `SplitBuilder.MergeRouting` | compiler/sfa_abi.py:384-430 | every function gets the fields of its own plan step, because names are distinct; function 0 also the promoted weights |
| `SplitBuilder.Promoted` | compiler/sfa_abi.py:416-430 | promoted weights are listed once each, constants left out |
| `SplitEndToEnd.FieldsKeepRouting` | compiler/sfa_abi.py:398-412 | fields drop the number of a global input and still determine every edge of a split module |
| `SplitBuilder.FlattenPlan` | compiler/fx/split.py:743-762 | the loop produces the flat wire format |
| `SplitBuilder.PlanRoundTrip` | compiler/fx/split.py:743-762 | the wire format determines the plan: reading it back gives the same steps, edges and global count |
| `SplitBuilder.WireWords` | compiler/fx/split.py:743-762 | the place and value of every word: both counts, the input count of each step, and source, index and slot of each input |
| `Interpreters.RunCtypes` | scripts/ctypes_forward.py:246-313 | the dispatch loop computes the slot-routed run, missing slots reading as zeros |
| `Interpreters.RunForward` | python_runtime/engine/mlir_executor.py:193-250 | the loop over functions computes the flat run of all their operations |
| `SplitCorrect.FunctionClosed` | compiler/fx/split.py:493-561 | a function after the first can run on its computed inputs if and only if its block reads no global input directly |
| `SplitCorrect.SplitPreservesMeaning` | compiler/fx/split.py:349-740 | for every well-formed program and every semantics, the slot-routed run succeeds and leaves in every output slot the value the unsplit program gives that name |
| `SplitCorrect.GlobalOutputCarried` | compiler/fx/split.py:578-581 | every global output the program produces sits in some slot with the unsplit value |
| `SplitCorrect.FlatRunIsUnsplit` | python_runtime/engine/mlir_executor.py:193-250 | the flat run over the split functions is the unsplit run |
| `SplitCorrect.SlotRunSucceedsIff` | scripts/ctypes_forward.py:246-313 | the slot-routed run succeeds if and only if no later block reads a global input directly |
| `SplitEndToEnd.SplitAnywhere` | compiler/fx/split.py:98-740 | for every program, boundary set and semantics: cut, route and run slot by slot, every output slot holds the value of running the program, and so does the flat run |
| `GqaBoundary.TracePath` | compiler/fx/split.py:257-269 | the loop follows first operands through repeat-kv operations up to the first unsqueeze |
| `GqaBoundary.SdpaCacheBoundaries` | compiler/fx/split.py:275-291 | the loop computes one boundary per attention, in order |
| `GqaBoundary.BoundariesExact` | compiler/fx/split.py:241-291 | one boundary per attention, in program order: the earlier of two unsqueezes if key and value are each a view of an expand of an unsqueeze before the attention, in every other case the attention |
| `GqaBoundary.BoundaryNotAfter` | compiler/fx/split.py:275-291 | a boundary never lies after its attention, and a recognised one lies before it and not after either chain's unsqueeze |
| `GqaBoundary.TraceLeavesIff` | compiler/fx/split.py:294-315 | tracing ends at a value defined outside the block if and only if at most the step limit of repeat-kv operations separate them |
| `GqaBoundary.CacheSourceOutside` | compiler/fx/split.py:430-456 | in a b-block with at most eight operations before the attention the cache source lies outside the block |
| `GqaBoundary.NativeHeadsCached` | compiler/fx/split.py:294-315 | when a b-block repeats the heads of its key or value itself, the value it repeats is what gets cached |
| `CacheContract.BindCachePolicy` | compiler/cache_policy.py:422-464 | the loop expands templates by bindings in order and keeps the other intercepts |
| `CacheContract.BoundExact` | compiler/cache_policy.py:438-464 | bound, a policy keeps its intercepts for other operations in order and gets one per binding: the last template of the slab, or the standard key intercept, at the function and slot of the binding; without bindings it stays as it is |
| `CacheContract.SlabIs` | compiler/fx/split.py:458-469 | an operand is cached in the slab of the last attention intercept that names it |
| `CacheContract.SdpaOpensBlock` | compiler/fx/split.py:417-428 | when every attention is a boundary, attentions occur only as first operations of blocks |
| `CacheContract.ABlockOutputs` | compiler/fx/split.py:607-628 | an a-block lists key and value at adjacent slots right after the query, if exported, and marks nothing else for the cache |
| `CacheContract.ABlockBindings` | compiler/fx/split.py:605-628 | an a-block contributes exactly its key binding and then its value binding, at those slots |
| `CacheContract.ProducerOfOutput` | python_runtime/engine/mlir_executor.py:105-109 | the executor's producer map finds every output at its own function and slot |
| `CacheContract.AttentionAppliesOwnPair` | python_runtime/engine/mlir_executor.py:369-404 | the attention after an a-block applies exactly two intercepts of the whole module's table: its own key, then its own value |
| `CacheContract.LayersInProgramOrder` | python_runtime/engine/cache_manager.py:126-135 | in one forward pass the i-th attention gets layer i in the key slab and in the value slab |
| `SplitEndToEnd.DenseAfterSplit` | compiler/fx/split.py:275-291 | cutting a dense program at its computed attention boundaries, and anywhere else, makes every attention open a block right after the one producing its key and value |
| `SplitEndToEnd.ContractAnywhere` | compiler/fx/split.py:275-628 | end to end on program and boundaries: every attention reads its key and value from two adjacent output slots of those names, applies exactly the two intercepts for these slots, and both get the layer of its number |
| `PagedStore.CacheManager.constructor` | python_runtime/engine/cache_manager.py:82-124 | allocates one fresh zero-filled slab per name, with the layers of its last specification; empty tables, counters at zero |
| `PagedStore.CacheManager.BeginStep` | python_runtime/engine/cache_manager.py:126-129 | installs the tables, resets the counters, changes no row |
| `PagedStore.CacheManager.ResolveLayer` | python_runtime/engine/cache_manager.py:131-135 | returns the slab's counter and increments only it |
| `PagedStore.CacheManager.WritePaged` | python_runtime/engine/cache_manager.py:139-171 | the slabs afterwards are the specified writes, position by position, uncovered positions skipped |
| `PagedStore.CacheManager.GatherTable` | python_runtime/engine/cache_manager.py:183-197 | block by block copying returns the row of every position, zeros beyond the table |
| `PagedStore.CacheManager.ReadPaged` | python_runtime/engine/cache_manager.py:173-197 | one gathered prefix per table, or nothing without tables |
| `PagedStore.CacheManager.Intercept` | python_runtime/engine/mlir_executor.py:369-419 | takes the next layer, writes the rows, and on a decode step returns the gathered prefix instead of them; without tables nothing is written and the rows stay |
| `PagedStore.Forward` | python_runtime/engine/mlir_executor.py:369-419 | a whole pass leaves the cells of all layers' writes, and every attention sees its layer's rows |
| `CacheRuns.StepRefines` | python_runtime/engine/cache_manager.py:139-171 | growing, freeing and writing each keep the slabs a refinement of the per-request store |
| `CacheRuns.RunRefines` | python_runtime/engine/cache_manager.py:126-197 | after any legal interleaving of any number of requests the slabs refine the per-request store |
| `CacheRuns.ReadIsLastWritten` | python_runtime/engine/cache_manager.py:173-197 | a read returns at every written, covered position the last row that request wrote there |
| `CacheRuns.OtherRequestsUntouched` | python_runtime/engine/cache_manager.py:139-197 | a write changes nothing another request reads, written or not |
| `CacheRuns.ForwardIsEvents` | python_runtime/engine/mlir_executor.py:369-419 | from any initial cells, a forward pass is the run of its key and value writes, layer by layer |
| `CacheRuns.AttentionSeesHistory` | python_runtime/engine/_inference_loop.py:252-313 | from any initial cells, in any legal interleaving, an attention operand is exactly the rows produced for that layer, in position order, if and only if the write is a single token or the first chunk |
| `CacheRuns.ForwardSeesHistory` | python_runtime/engine/mlir_executor.py:369-419 | the same for keys and values of every attention of a whole forward pass |
| `CacheDriver.Drive` | python_runtime/engine/_inference_loop.py:252-313 | one manager driven through any schedule of allocations, releases and passes: every attention of every pass sees its layer history if and only if the pass is a decode step or a first chunk |
| `CacheDriver.DriveFresh` | python_runtime/engine/cache_manager.py:82-197 | the same from a freshly built manager |
| `CachedExecutor.InterceptAll` | python_runtime/engine/mlir_executor.py:369-419 | the intercepts of one operation, in order, overwrite exactly the specified operands in the environment with what the cache returns, each in the next layer of its slab |
| `CachedExecutor.RunPass` | python_runtime/engine/mlir_executor.py:193-250 | a pass on a manager in any state computes the specified run with intercepts; a prefill pass the plain run; where no intercepted name is read again, each operation computes what it computes with only its own operands replaced |
| `CachedRun.PrefillIsPlain` | python_runtime/engine/mlir_executor.py:398-419 | with a cache that returns what it is given the executor computes the plain run |
| `CachedRun.CachedIsDirect` | python_runtime/engine/mlir_executor.py:411-418 | if no intercepted name is read again, overwriting in the environment is replacing operands, for every cache and every meaning of the operations |
| `CachedRun.CachedIsDirectIff` | python_runtime/engine/mlir_executor.py:411-418 | and only then: otherwise some meaning, cache and input make an operation compute something else |
| `CompiledPass.ModuleHooks` | python_runtime/engine/mlir_executor.py:369-392 | a compiled dense module is intercepted at every attention and nowhere else, key and value, in the layer of the attention's number |
| `CompiledPass.ModuleChangesOnlyAttentions` | python_runtime/engine/mlir_executor.py:369-419 | for a compiled dense module that is so if and only if no key or value of an attention is read by anything else |
| `OpPlanBuilder.CoveredDecoderFunctions` | compiler/op_plan.py:101-125 | the greedy scan covers exactly the functions that belong to some decoder-layer pair, in order |
| `OpPlanBuilder.FirstFunctionOutputs` | compiler/op_plan.py:128-135 | the map sends every output name to the first function output carrying it |
| `OpPlanBuilder.ExternalConsumers` | compiler/op_plan.py:266-275 | the loop collects exactly the names read outside covered functions |
| `OpPlanBuilder.ConsumerCounts` | compiler/op_plan.py:278-285 | the loop counts operand occurrences in covered functions |
| `OpPlanBuilder.BuildNodes` | compiler/op_plan.py:211-263 | the loops emit the nodes `OpPlanProof.DraftedNode` describes and the result map, or fail |
| `OpPlanBuilder.FinalizeOutputs` | compiler/op_plan.py:301-336 | the loop computes the specified projection, lifetimes and cache marks, or fails |
| `OpPlanBuilder.GenerateOpPlan` | compiler/op_plan.py:365-431 | nothing is generated if and only if there is no pair; otherwise a plan comes out if and only if it can be drafted and cache outputs have distinct names, and it is accepted |
| `OpPlanProof.BuildSucceedsIff` | compiler/op_plan.py:211-263 | node building succeeds if and only if every covered operation has a kernel and every operand is an earlier covered result, a weight, a constant or a function output |
| `OpPlanProof.DraftedNode` | compiler/op_plan.py:25-39 | node i runs `linear_transb` for a linear, `attention_causal` for an attention and the kernel of its own name for the seven other operations, with its attributes; a result that is no covered output keeps the default lifetime |
| `OpPlanProof.CatalogIsKernels` | compiler/op_plan.py:25-39 | the catalog holds the kernels of those operations and nothing else |
| `OpPlanProof.ProjectIsProjected` | compiler/op_plan.py:301-336 | finalisation succeeds if and only if every covered output has a node and every cache output a binding; marks and lifetimes are those of the last output a node carries |
| `OpPlanProof.NoCoveredReads` | compiler/op_plan.py:164-208 | in an SSA module no node reads an output of a covered function except through its node |
| `OpPlanProof.PlanYieldsOutputs` | compiler/op_plan.py:164-317 | evaluating the plan node by node yields for every covered output the value executing the functions yields, given weights, constants and uncovered outputs, with `linear_transb` meaning linear, `attention_causal` the attention and every other kernel the operation of its name |
| `OpPlanProof.AcceptedIff` | compiler/op_plan.py:434-493 | a drafted plan is accepted by the validator if and only if cache outputs of covered functions have distinct names |
| `OpPlanOfSplit.SplitAcceptedIff` | compiler/op_plan.py:301-354 | a drafted plan of a split module is accepted if and only if no covered block exports a key or value that its attention reads in two of its three places |
| `OpPlanOfSplit.PairIff` | compiler/op_plan.py:101-125 | two functions of a split module are taken for a pair if and only if their blocks are the halves of a decoder layer: a block with a layer norm and a linear, then a b-block that opens with its attention and is no a-block |
| `OpPlanOfSplit.CoveredIff` | compiler/op_plan.py:101-125 | so the plan of a split module covers exactly the halves of decoder layers |
| `OpPlanProof.SharedNameRejected` | compiler/op_plan.py:301-354 | witness: a module with an attention on one name as key and value is drafted and rejected |
| `OpPlanProof.TransientUsedOnce` | compiler/op_plan.py:331-336 | a transient node carries a visible output with exactly one covered operand use and none outside |
| `OpPlanProof.LifetimesExact` | compiler/op_plan.py:319-336 | with distinct names every output has exactly the lifetime its consumers call for, both directions |
| `OpPlanResult.PlanOutputs` | compiler/op_plan.py:301-317 | the outputs of the plan are those of the covered functions, each once, in order and with its visibility |
| `OpPlanResult.CacheMarks` | compiler/op_plan.py:320-329 | with distinct cache names the node of every cache output is marked with its slab and position, and no other node is marked |
| `OpPlanResult.GlobalOutput` | compiler/op_plan.py:365-431 | the global output evaluates to the last visible output of the last covered function; there is none if and only if that function shows nothing |
| `OpPlanResult.AcceptedRuns` | compiler/op_plan.py:434-493 | any accepted plan, generated or loaded, evaluates for all kernels and values, on sources the module has, and carries exactly the cache bindings of the functions it covers |
| `BlasBridge.NaiveSgemm` | compiler/backend/compile_utils.py:469-481 | the flat loops store exactly the matrix product in the m×n cells and change no other cell |
| `BlasBridge.NaiveSgemmTransB` | compiler/backend/compile_utils.py:543-556 | the flat loops store the product with the transposed weight and change no other cell |
| `BlasBridge.BatchSgemmTransB` | compiler/backend/compile_utils.py:599-616 | the batch loop does so for every batch with one shared weight, and batches do not disturb each other |
| `BlasBridge.FallbackReadsMemrefIff` | compiler/backend/compile_utils.py:483-506 | the fallback, given the aligned pointer and outer strides only, reads an operand as its memref denotes it if and only if the operand is empty, or has offset 0 and inner stride 1 or one column |
| `BlasRewrite.FindLastWriter` | compiler/pipeline/stages.py:277-287 | the backward search returns the last operation before an index whose last operand is the buffer |
| `BlasRewrite.ChainOf` | compiler/pipeline/stages.py:290-346 | a recognised chain is a transpose, for batched products followed by a broadcast, ending in the product's right operand; which chains are recognised is stated by the rows of `BlasRecognition` |
| `BlasRewrite.RewriteMatmuls` | compiler/pipeline/stages.py:446-510 | the loop rewrites product after product against the program as rewritten so far |
| `BlasRewriteProof.RewriteIsTarget` | compiler/pipeline/stages.py:446-510 | for a safe program this equals computing every replacement on the original program |
| `BlasRecognition.ProductRewritten` | compiler/pipeline/stages.py:290-346 | in a safe program an f32 product becomes a call on a weight if and only if its right operand was last written by a transpose of that weight, when batched by a broadcast of a buffer so written, with anything in between; it becomes a plain call if and only if that holds for no weight |
| `BlasRecognition.OthersRewritten` | compiler/pipeline/stages.py:446-510 | every other operation is erased if and only if it makes such a copy, and stays as it is otherwise, products of other types included |
| `BlasRewriteProof.AccIsGemm` | compiler/backend/compile_utils.py:469-481 | overwriting equals accumulating if and only if the accumulator is zero |
| `BlasRewriteProof.RewritePreserves` | compiler/pipeline/stages.py:446-510 | from any store and for any meaning of the other operations the rewrite leaves the final contents of every buffer unchanged unless its last write was an erased copy; a copy may have no other reader only while it is live |
| `BlasRewriteProof.ReusedIsSafe` | compiler/pipeline/stages.py:446-510 | witness: a buffer reused for a second copy meets the conditions |
| `BlasSharedCopy.SharedCopyIff` | compiler/pipeline/stages.py:446-510 | for every program whose last product shares the chain of an earlier one, its left operand and the weight being program inputs or results of unknown operations and all else as the rewrite needs, the last accumulator is right from every store and for every meaning of the unknown operations if and only if its product is empty |
| `BlasSharedCopy.SharedCopyBreaks` | compiler/pipeline/stages.py:446-510 | witness: two products of a computed activation with one transposed weight |
| `BlasRewriteProof.CallIsProduct` | compiler/backend/compile_utils.py:529-541 | a plain call means, batch by batch, the product the scalar loops store |
| `BlasRewriteProof.TransCallIsProduct` | compiler/backend/compile_utils.py:605-616 | a call with a transposed weight means, batch by batch, the product with the materialised transpose |
| `BlasRewriteProof.CompactRuns` | compiler/pipeline/stages.py:508-510 | removing erased operations from the list changes nothing |
| `OnlineSoftmax.AttendRow` | kernels/flash_attention.py:104-137 | for any tile width the loop returns the softmax-weighted sum of the visible value rows, and never subtracts two infinities |
| `OnlineSoftmax.TileStep` | kernels/flash_attention.py:122-135 | one tile keeps every accumulator equal to the visible mass relative to the running maximum |
| `OnlineSoftmax.ShiftInvariant` | kernels/flash_attention.py:122-135 | subtracting a constant from all scores leaves the one-pass softmax unchanged |
| `Rounding.CodeInRange` | kernels/quantize/_utils.py:121-125 | codes of a group never leave -n..n, so wider clamps never bite |
| `Rounding.HalfStep` | kernels/quantize/_utils.py:79-89 | dequantising recovers a value within half a step |
| `Rounding.RoundIff` | kernels/quantize/_utils.py:125 | rounding gives the nearest integer, of two equally near ones the even one, and nothing else |
| `Rounding.ScaleExact` | kernels/quantize/_utils.py:121-123 | n times the scale is the largest magnitude of the group, or n times 1e-9 when that is larger |
| `Rounding.Requantise` | kernels/quantize/_utils.py:121-125 | quantising dequantised values finds the same scale and codes, also when the scale floor applies |
| `Int4.UnpackInt4` | kernels/quantize/_utils.py:36-57 | filling even and odd positions unpacks the nibbles in order |
| `Int4.BitsAreArithmetic` | kernels/quantize/_utils.py:31-33 | the mask, shift and or on bytes are the arithmetic form used here |
| `Int4.UnpackAfterPack` | kernels/quantize/_utils.py:15-57 | unpacking gives back every packed row of four-bit values |
| `Int4.PackAfterUnpack` | kernels/quantize/_utils.py:15-57 | packing the nibbles of any byte row gives the bytes back |
| `Int4.ClampNeverBites` | kernels/quantize/_utils.py:121-125 | codes lie in 1..15 and the clamp changes none |
| `Int4.DequantizedColumn` | kernels/quantize/_utils.py:135-174 | quantisation fails exactly on odd widths; otherwise a column comes back as its group's scale times its code |
| `Int4.GroupError` | kernels/quantize/_utils.py:92-174 | every weight is recovered within half its group's scale, for any group size and padding |
| `Int4.WeightRecovered` | kernels/quantize/_utils.py:92-174 | in terms of the weights alone: each comes back within a fourteenth of its group's largest magnitude (of 7e-9 in a smaller group), and one of that magnitude exactly |
| `Int4.RequantizeIsIdentity` | kernels/quantize/_utils.py:92-174 | re-quantising the dequantised row gives identical bytes and scales |
| `SmoothQuant.ChannelError` | kernels/quantize/_utils.py:60-89 | INT8 codes need no clamp and recover a weight within half its channel's scale |
| `SmoothQuant.ChannelRecovered` | kernels/quantize/_utils.py:60-89 | in terms of the weights alone: each comes back within a 254th of its channel's largest magnitude (of 127e-9 in a smaller channel), and one of that magnitude exactly |
| `SmoothQuant.FactorFiniteIff` | compiler/quantize/smoothquant.py:89-108 | a smoothing factor is finite if and only if the weight column is non-zero or alpha is 1, and is then positive |
| `SmoothQuant.FactorMigrates` | compiler/quantize/smoothquant.py:89-108 | a factor above the floor splits the activation range A and the weight range W by the power law: the weight column keeps A^a · W^a, the activation A^(1-a) · W^(1-a); otherwise it is the floor |
| `SmoothQuant.SmoothingPreserves` | compiler/quantize/smoothquant.py:79-87 | rescaling alone preserves the layer's product exactly |
| `SmoothQuant.QuantizedProduct` | kernels/quantize/w8a8_gemm.py:34-41 | INT8 weights change an output by at most half its channel's scale times the sum of input magnitudes |
| `SmoothQuant.W8A8Error` | kernels/quantize/w8a8_gemm.py:34-41 | after smoothing and INT8 rounding each output is within half its channel's scale times the sum of abs(x_j)/s_j of the original layer's |
| `SmoothCalibrator.Calibrator.constructor` | compiler/quantize/smoothquant.py:38-43 | a fresh calibrator has no factors, scales or codes |
| `SmoothCalibrator.Calibrator.ComputeFactors` | compiler/quantize/smoothquant.py:65-77 | layers with statistics of matching width get their factors, others keep theirs; what the factors achieve is stated by `SmoothCalibrator.StoredBalanced` |
| `SmoothCalibrator.Calibrator.ApplyFactors` | compiler/quantize/smoothquant.py:79-87 | exactly the layers with factors are rescaled and get the inverse factors |
| `SmoothCalibrator.Calibrator.Calibrate` | compiler/quantize/smoothquant.py:52-87 | both loops together, including layers with factors from an earlier call |
| `SmoothCalibrator.Calibrator.Quantize` | compiler/quantize/smoothquant.py:110-130 | every smoothed layer gets its INT8 codes and scales, none if it holds a lost column |
| `SmoothCalibrator.StoredBalanced` | compiler/quantize/smoothquant.py:65-108 | after a first calibration every non-zero column with activation range A and weight range W is balanced: the stored weight column has range A^a · W^a and the stored activation scale brings the input to A^(1-a) · W^(1-a), at the floor to 1e-8 and 1e8 times the ranges |
| `SmoothCalibrator.BalancedAtHalf` | compiler/quantize/smoothquant.py:89-108 | at alpha 1/2 the two ranges are equal |
| `SmoothCalibrator.CalibrateBalances` | compiler/quantize/smoothquant.py:52-87 | the same for the weight and activation scales a calibrator stores |
| `SmoothCalibrator.LayerKept` | compiler/quantize/smoothquant.py:52-130 | what a first calibration and quantisation store for a layer without zero columns computes its original function up to the INT8 error |
| `SmoothCalibrator.SecondCalibrationIff` | compiler/quantize/smoothquant.py:79-87 | a second calibration preserves the function for every input if and only if the first factors were 1 on every non-zero column |
| `SmoothCalibrator.CalibrateTwice` | compiler/quantize/smoothquant.py:52-87 | one calibrator calibrated twice: what it stores for a layer without zero columns still computes the layer's function on every input if and only if the first factors were 1 on every non-zero column |
| `SmoothCalibrator.LostColumnsExact` | compiler/quantize/smoothquant.py:79-108 | calibration loses exactly the zero columns, unless alpha is 1 |
| `SmoothCalibrator.QuantisedIff` | kernels/quantize/_utils.py:72-75 | a layer gets codes if and only if alpha is 1 or no column is zero: one lost column costs every row its scale |
| `TensorParallel.TwoLayersDense` | compiler/tp/linear.py:66-128 | column-parallel, elementwise map and bias-free row-parallel with all-reduce equal the dense two-layer block, for every world size dividing the hidden width |
| `TensorParallel.RowParallelIff` | compiler/tp/linear.py:122-128 | the row-parallel layer equals the dense one if and only if there is one rank, no row, or no non-zero bias |
| `TensorParallel.VocabForward` | compiler/tp/linear.py:164-171 | masking in place gives each id its local row, or zeros |
| `TensorParallel.VocabSum` | compiler/tp/linear.py:153-171 | summed over ranks the lookups give the full table's row for every valid id, zeros for any other |
| `Broadcast.BroadcastShapes` | compiler/shape/shape_inference_utils.py:86-111 | the loops compute the inferred shape, or fail on incompatible sizes |
| `Broadcast.BroadcastExact` | compiler/shape/shape_inference_utils.py:86-111 | a concrete shape is the NumPy result for some run-time sizes if and only if inference succeeds and the shape is an instance of the inferred one |
| `Broadcast.AnyFold` | compiler/shape/shape_inference_utils.py:86-111 | the n-ary form equals every fold of the binary form, errors included |
| `Broadcast.FoldsAgree` | compiler/shape/shape_inference_utils.py:86-111 | folds over the same shapes agree in any order and bracketing |
| `Text.SplitLoop` | compiler/artifact/parse.py:271-372 | the character loops of the two splitters compute the specified split outside brackets and quotes |
| `Text.SplitOutsideJoined` | compiler/artifact/parse.py:271-372 | splitting a joined list of closed parts gives the parts back |
| `MlirText.ParseAttrBlock` | compiler/artifact/parse.py:291-343 | the loop over attributes computes the specified dictionary, an existing key keeping its place |
| `MlirRoundTrip.ValueReread` | compiler/artifact/serialize.py:151-166 | what every printed attribute value is read as: itself, except that booleans and None inside lists become strings, and a string that looks like a typed number is read as what stands before the type |
| `MlirRoundTrip.ItemBackIff` | compiler/artifact/parse.py:375-404 | a list item comes back if and only if it is neither a boolean nor None nor a string that looks typed |
| `MlirRoundTrip.ValueBackIff` | compiler/artifact/parse.py:291-343 | an attribute value comes back if and only if no list in it holds a boolean or None and no string in it looks typed |
| `MlirRoundTrip.AttrsReread` | compiler/artifact/parse.py:291-372 | a printed attribute block is read in order, key by key |
| `MlirReadBack.BareInputRead` | compiler/artifact/parse.py:217-234 | a signature with a bare input, with no input, or without an arrow is read as its types |
| `MlirRoundTrip.TypesBack` | compiler/artifact/parse.py:217-234 | a printed signature with nested types is parsed back |
| `MlirRoundTrip.TypesSurviveIff` | compiler/artifact/parse.py:217-234 | types come back if and only if there are output types, or no input types and no colon in the attributes |
| `MlirReadBack.ReadBack` | compiler/artifact/parse.py:170-260 | parsing a printed operation always succeeds: every attribute but source_node comes back, in order, with what its value is read as, every operand as its weight's name or without leading percent signs, results without them, and the types whenever there are output types |
| `MlirReadBack.RoundTripIff` | compiler/artifact/parse.py:170-260 | the operation comes back, up to percent signs, weights by name and source_node, if and only if it has a result, no printed list holds a boolean or None, no printed string looks typed, and, lacking output types, it has no input types and no colon among its printed attributes |
| `MlirReadBack.LineReadBack` | compiler/artifact/serialize.py:86-108 | the same as `ReadBack` for the indented line of the module text |
| `MlirReadBack.PrintedWithout` | compiler/artifact/serialize.py:91-96 | the printed text is that of the operation without source_node and with every other attribute |
| `MlirReadBack.LineText` | compiler/artifact/serialize.py:84-113 | the exact line of an operation with two operands and nothing else to print, each name with one percent sign put in front unless it has one |
| `MlirReadBack.QuotedKeyRead` | compiler/artifact/parse.py:304-306 | quoting an attribute's key changes nothing |
| `MlirReadBack.LowerWordsRead` | compiler/artifact/parse.py:375-383 | a list that spells booleans and None the MLIR way is read as such, so what is lost is lost in printing |
| `MlirReadBack.UnclosedKept` | compiler/artifact/parse.py:316-343 | a quote or bracket on one side only is part of the text |
| `MlirRoundTrip.WordListsLost` | compiler/artifact/serialize.py:161-163 | witness: lists with a boolean or None, and the strings they come back as |

## Left out

- Operations with several results: every operation has one result.
- RunForward: does not model the in-place copy operation or default values of inputs; a missing operand is an error.
  The run with cache intercepts is `CachedExecutor.RunPass`.
- RunPass: the pass is given its positions, and intercepts replace operands; a pass without positions, which writes
  nothing, and intercepts that only write or take a result are not modelled.
- RunCtypes: does not model weight bindings, symbols missing from the library or the default positions input.
- The single-function path of the splitter beyond its body: it only copies its arguments.
- BuildFunction: a block without readers falls back to its first result, where the source takes any element of a set.
- ReadPaged: tables come in stored order, where the source sorts requests by id; only one request is active per step.
- Prefix sharing between requests: block tables are assumed disjoint and append-only.
- Interception of grouped-query attention: the executor looks the attention operand itself up, so the end-to-end
  contract is stated for dense attention.
- The legacy KV-cache mixin and the CPU and Triton paged-attention kernels: same addressing as the paged store.
- Policy and protobuf encodings (`to_dict`, `from_dict`, serialised plans): plans and policies are plain values.
- Tensor types, specs and attribute strings of op-plan nodes.
- ChainOf: does not model static dimension compatibility, element types or `memref.cast`; products are f32 and shapes
  agree.
- RewritePreserves: states sufficient conditions (zero fill, no other reader and no overwriting while a copy is live,
  agreeing shapes); they are not necessary for every program, because a stale value may be read and not matter.
  SharedCopyIff gives the exact condition for the failing family of shared copies.
- SharedCopyIff: does not cover left operands or weights last written by a zero fill, a copy or another product.
- The plain batched product of the bridge: the loop of `BatchSgemmTransB` without the shared weight.
- BLAS library calls: only the scalar loops are modelled.
- Masking of non-causal tail tiles and Triton pointer arithmetic: the recurrence is stated for one query row and reads
  scores and value rows by column, whatever the layout of the loaded value tile.
- Weight matrices in the INT4 functions: quantisation treats rows independently and is stated for one row.
- Floating-point rounding, NaN propagation and integer widths of tensor elements.
- ParseInt: accepts an optional minus and digits, where Python also accepts spaces, a plus sign and underscores.
- Printing and parsing of `weight` operations, function headers, `func.return`, nested lists and module attributes.
- Gathering column-parallel outputs: the communicator and its users disagree on the gathered dimension.
- Rust scheduler and block manager, torch.export and FX handling, C++ lowering, code generation and linking, remaining
  shape inference, RWKV state, strategy search, server and CLI: foreign code, plumbing or easy members.
