# BendersX engine core, modelled in Dafny

This project models the decomposition engine of `bendersx-engine` in Dafny. The engine
splits a production vector of length `n` into index blocks and repeats a fixed number
of rounds:

- a master linear program allocates the `m0` resource totals `total_r` to the blocks;
- each block's subproblem spreads the resource-weighted demand evenly over its range and
  scores it. The score is either the plain sum or the planned-economy objective, which
  applies under- and over-production penalties;
- each subproblem emits an optimality cut with dual 0.5 on every resource;
- the cut pool is pruned to the `cut_pool_multiplier` best cuts by |offset|, keeping the
  feasibility cuts first;
- the block productions are merged back into the production vector;
- blocks whose dual gap exceeds `1e-3` and whose size exceeds `max_block_size` are
  halved.

The constraint matrices `A` and `B` are published to the operating system's shared
memory as CSR arrays, and the registered segments are released at the end. A matrix
with an empty array cannot be published: the segments created for it before the
failure are never registered, so no cleanup releases them. A round that raises
`IndexError` (a `total_r` shorter than `m0`, or a `B` or penalty list too short for what
the worker reads) ends the run before the final cleanup, so both matrices stay
published. These errors are `Failure` results in the model. The rest of the core is
small stand-ins for numpy and scipy.sparse, plus a few numeric helpers.

One module per source file:

| module | models |
|---|---|
| `Wrappers` | `Option` and `Result`; the `Failure` side stands for a raised exception |
| `Floats` | doubles where infinity or NaN matters: cut offsets, LP bounds, `theta`, dual gaps |
| `Config` | `BendersConfig`: the fields the engine reads, and `__post_init__`'s error path |
| `Cuts` | `cuts.py` |
| `Partitioning` | `partitioning.py` |
| `Bigm` | `bigm.py` |
| `SimpleMatrices` | `simple_matrix.py`, as a class with the `data` and `_shape` fields |
| `Numpy` | `src/numpy/__init__.py` |
| `ScipySparse` | `src/scipy/sparse.py` |
| `Optimizations` | `optimizations.py` |
| `SharedMemory` | `shared_memory.py`: a class holding the system's segments and the names registered in the module-level `_shared_pool`, both updated in place |
| `Subproblem` | `subproblem.py` |
| `Master` | `master.py`: the module globals `last_basis` and the persistent solver become a `MasterSession` object |
| `Algorithm` | `algorithm.py` |

How the model handles the parts of the engine it cannot compute:

- **HiGHS solver.** The model builds the LP (columns, rows, warm-start basis) exactly.
  What the solver returns is an input: an `Optimal` column vector with its basis, or
  `NotOptimal`. Whether `setBasis` accepts the stored basis is also an input.
- **`uuid4().hex` names.** The random parts of segment names are parameters.
- **Loops.** Loops in the source are `method`s with loop invariants, proved equal to
  left-recursive specification functions. The lemmas are stated about those functions.

Where the code and its documentation or tests disagree, the model follows the code:

- `benders_decomposition` returns an empty `info` dictionary. `tests/test_algorithm.py`
  reads the keys `"iterations"` and `"unfulfilled_demand"` from it. The model states
  `info == map[]`.
- `cut_pool_multiplier` is passed directly as the pool size. It is not multiplied by
  anything.
- `repartition_blocks` is called with `max_block_size = n`. As a result, the driver's
  single block is never split. This is proved as `Algorithm.BlocksNeverChange`.

## Model

| member | source | states |
|---|---|---|
| Floats.Neg | src/bendersx_engine/master.py:54 | negation keeps NaN, flips an infinity's sign, negates a finite value |
| Floats.SubReal | src/bendersx_engine/algorithm.py:66 | `theta - obj` with a finite `obj`: NaN stays NaN, an infinity is kept, a finite value is reduced |
| Floats.NegInvolutive | src/bendersx_engine/master.py:54 | negating twice gives the value back |
| Floats.AbsLeTotal | src/bendersx_engine/cuts.py:30-31 | ordering by `abs` is total and reflexive on non-NaN values |
| Floats.AbsLeTransitive | src/bendersx_engine/cuts.py:30-31 | ordering by `abs` is transitive |
| Config.PostInit | src/bendersx_engine/config.py:35-57 | fails exactly when priority sectors are set and the allocation factor is below 1.0; otherwise a missing `matrix_gen_params` becomes `{}` and nothing else changes |
| Cuts.DotTruncates | src/bendersx_engine/cuts.py:7-8 | the `zip`-based dot product equals the dot product of the common prefixes |
| Cuts.DotSymmetric | src/bendersx_engine/cuts.py:7-8 | the dot product is symmetric |
| Cuts.DotSnoc | src/bendersx_engine/cuts.py:7-8 | appending a coordinate pair adds its product |
| Cuts.Lift | src/bendersx_engine/cuts.py:13 | the list of reals as finite floats, entry by entry |
| Cuts.MakeFeasCut | src/bendersx_engine/cuts.py:11-14 | a "feas" cut of the block whose beta is the duals entry by entry and whose alpha is the dot product with the assigned resources over the common prefix |
| Cuts.AnyNaN | src/bendersx_engine/cuts.py:18 | true exactly when some entry is NaN |
| Cuts.MakeOptCut | src/bendersx_engine/cuts.py:17-20 | None exactly when a dual or the offset is NaN; otherwise an "opt" cut of the block carrying the duals and offset unchanged |
| Cuts.InsertByMagnitude | src/bendersx_engine/cuts.py:30-31 | inserting one cut adds it to the multiset and to the membership, length + 1 |
| Cuts.SortByMagnitude | src/bendersx_engine/cuts.py:30-31 | the sort is a permutation of its input |
| Cuts.InsertKeepsOrder | src/bendersx_engine/cuts.py:30-31 | insertion into a list ordered by decreasing abs(offset) keeps it ordered |
| Cuts.ByMagnitudeCons | src/bendersx_engine/cuts.py:30-31 | a cut at least as large as everything after it heads an ordered list |
| Cuts.InsertInFront | src/bendersx_engine/cuts.py:30-31 | the insertion case that puts the cut in front stays ordered |
| Cuts.InsertBehind | src/bendersx_engine/cuts.py:30-31 | the insertion case that passes the head stays ordered |
| Cuts.SortByMagnitudeOrders | src/bendersx_engine/cuts.py:30-31 | `sort(key=abs(alpha), reverse=True)` yields a list ordered by decreasing abs(offset) when no offset is NaN |
| Cuts.InsertStable | src/bendersx_engine/cuts.py:30-31 | insertion puts the new cut ahead of the cuts of equal magnitude and keeps their order |
| Cuts.SortByMagnitudeStable | src/bendersx_engine/cuts.py:30-31 | the sort is stable: cuts of equal abs(offset) keep their input order |
| Cuts.OfKind | src/bendersx_engine/cuts.py:27-28 | the filter keeps exactly the cuts of the tag, drawn from the input |
| Cuts.PyPrefix | src/bendersx_engine/cuts.py:36 | `s[:k]` is a prefix of length `min(k, len)`, or `len + k` clipped at 0 for negative `k` |
| Cuts.ParetoSelect | src/bendersx_engine/cuts.py:23-36 | a pool within budget is returned unchanged; otherwise every kept cut comes from the pool |
| Cuts.ParetoSelectShape | src/bendersx_engine/cuts.py:27-36 | when pruning, the result is the top `min(max(1, max_k // 3), len(feas))` ranked "feas" cuts followed by a prefix of the ranked "opt" cuts; for `max_k >= 1` that prefix holds `min(max_k - max(1, max_k // 3), len(opt))` cuts |
| Cuts.PrefixOfKind | src/bendersx_engine/cuts.py:36 | a prefix of a single-tag ranking holds only that tag |
| Cuts.ParetoSelectRanked | src/bendersx_engine/cuts.py:30-36 | each kept group is ordered by decreasing abs(offset) when no offset is NaN |
| Cuts.ParetoSelectBounded | src/bendersx_engine/cuts.py:33-36 | with `max_k >= 1` at most `max_k` cuts are kept |
| Cuts.ParetoSelectNonPositiveBudget | src/bendersx_engine/cuts.py:33-36 | with `max_k <= 0`, negative slicing keeps one "feas" cut and drops only `1 - max_k` "opt" cuts |
| Cuts.ParetoSelectKeepsFeasibility | src/bendersx_engine/cuts.py:27-36 | a "feas" cut in the pool guarantees one in the result, whatever the budget |
| Cuts.ParetoSelectDropsOtherTags | src/bendersx_engine/cuts.py:27-36 | pruning drops every cut tagged neither "feas" nor "opt" |
| Partitioning.Refine | src/bendersx_engine/partitioning.py:15-22 | a block is halved at `start + size // 2` (second half named `split_<id>`) exactly when it is larger than the bound and its gap (default 0) exceeds 1e-3; otherwise it is kept |
| Partitioning.RepartitionBlocks | src/bendersx_engine/partitioning.py:8-23 | the loop's output is the in-order refinement of the input blocks |
| Partitioning.RepartitionLength | src/bendersx_engine/partitioning.py:13-23 | the output has between one and two entries per input block |
| Partitioning.SplitHalvesShrink | src/bendersx_engine/partitioning.py:17-20 | with a bound of at least 1 both halves are non-empty and strictly smaller |
| Partitioning.TilesAppend | src/bendersx_engine/partitioning.py:13-23 | tilings of adjacent ranges concatenate into a tiling |
| Partitioning.RefineTiles | src/bendersx_engine/partitioning.py:17-22 | a block's refinement tiles the block's range |
| Partitioning.RepartitionTiles | src/bendersx_engine/partitioning.py:8-23 | blocks tiling `[lo, hi)` still tile it after repartitioning |
| Partitioning.TilesOrdered | src/bendersx_engine/partitioning.py:8-23 | every range of a tiling lies inside the tiled interval and the ranges follow each other in order |
| Partitioning.TilesCover | src/bendersx_engine/partitioning.py:8-23 | every index of a tiled range lies in some block |
| Partitioning.RepartitionSmallBlocks | src/bendersx_engine/partitioning.py:17-22 | blocks no larger than the bound pass through unchanged |
| Partitioning.RepartitionWholeRangeIsIdentity | src/bendersx_engine/partitioning.py:8-23 | with bound `n`, a tiling of `[0, n)` is never split |
| Partitioning.SplitExample | src/bendersx_engine/partitioning.py:17-20 | `("b", 0, 10)` with gap 2.0 and bound 5 becomes `("b", 0, 5), ("split_b", 5, 10)` |
| Bigm.InfNorm | src/bendersx_engine/bigm.py:9-10 | 0.0 for an empty vector; no entry's magnitude exceeds it |
| Bigm.InfNormAttained | src/bendersx_engine/bigm.py:9-10 | the norm of a non-empty vector is the magnitude of one of its entries |
| Bigm.InfNormNonNegative | src/bendersx_engine/bigm.py:9-10 | the norm is never negative |
| Bigm.DominantIgnoresEmpty | src/bendersx_engine/bigm.py:14-17 | treating an empty vector's norm as 1.0 gives the same maximum as its norm 0.0, and the maximum is at least 1.0 |
| Bigm.ScaledMonotone | src/bendersx_engine/bigm.py:17 | a non-negative scale preserves order |
| Bigm.BigMFormula | src/bendersx_engine/bigm.py:13-18 | the Big-M is `min(cap, scale * max(c_norm, b_norm, 1.0))` of the two infinity norms |
| Bigm.BigMBounds | src/bendersx_engine/bigm.py:13-18 | the Big-M never exceeds the cap and, for a non-negative scale, is at least `min(cap, scale)` |
| Bigm.BigMMonotone | src/bendersx_engine/bigm.py:13-18 | for a non-negative scale the Big-M does not decrease as either norm grows |
| Bigm.BigMExample | src/bendersx_engine/bigm.py:13-18 | `[1, 2]` and `[3]` under the defaults give 150 |
| SimpleMatrices.IdentityRows | src/bendersx_engine/optimizations.py:10 | `max(n, 0)` square rows with 1.0 exactly on the diagonal |
| SimpleMatrices.DiagWritablePrefix | src/bendersx_engine/simple_matrix.py:13-16 | if all diagonal writes fit, those of a prefix of the values fit |
| SimpleMatrices.RaggedSetDiagFails | src/bendersx_engine/simple_matrix.py:13-16 | `setdiag([1, 1])` on the ragged rows `[[0, 0], [0]]` fails at position 1 |
| SimpleMatrices.WithDiagEntries | src/bendersx_engine/simple_matrix.py:13-16 | `setdiag` overwrites exactly the diagonal positions below both dimensions, keeps every other entry, row length and the shape, and ignores surplus values |
| SimpleMatrices.RowDiff | src/bendersx_engine/simple_matrix.py:21-23 | a row's difference count is at most the number of compared columns |
| SimpleMatrices.RowDiffZero | src/bendersx_engine/simple_matrix.py:21-23 | a row's difference count is zero exactly when the rows agree on the compared columns |
| SimpleMatrices.DiffCountZero | src/bendersx_engine/simple_matrix.py:18-24 | `nnz` is zero exactly when the matrices agree entry by entry on the compared range |
| SimpleMatrices.SelfDiffZero | src/bendersx_engine/simple_matrix.py:18-24 | a matrix compared with itself has `nnz == 0` |
| SimpleMatrices.SimpleMatrix.constructor | src/bendersx_engine/simple_matrix.py:4-7 | stores the rows and computes `(len(data), len(data[0]) or 0)` |
| SimpleMatrices.SimpleMatrix.Shape | src/bendersx_engine/simple_matrix.py:9-11 | the shape's row count is the number of rows and its column count that of the first row (0 when empty) |
| SimpleMatrices.SimpleMatrix.SetDiag | src/bendersx_engine/simple_matrix.py:13-16 | the loop writes the diagonal in place; it fails exactly when some reached position `(i, i)` is missing, with the writes before it done; otherwise the new rows are `WithDiag` of the old; the shape is unchanged |
| SimpleMatrices.SimpleMatrix.NotEqual | src/bendersx_engine/simple_matrix.py:18-24 | fails exactly when a position within the receiver's shape is missing from either matrix; otherwise counts the differing positions |
| Numpy.Full | src/numpy/__init__.py:26-30 | a flat list of `max(n, 0)` copies, or `max(rows, 0)` rows of `max(cols, 0)` copies |
| Numpy.Zeros | src/numpy/__init__.py:19-23 | the same shape filled with 0.0 |
| Numpy.Ones | src/numpy/__init__.py:12-16 | the same shape filled with 1.0 |
| Numpy.FilledUnique | src/numpy/__init__.py:12-30 | a filled list is determined by its shape and value |
| Numpy.ZerosIsFull | src/numpy/__init__.py:19-30 | `zeros(shape) == full(shape, 0.0)` |
| Numpy.OnesIsFull | src/numpy/__init__.py:12-30 | `ones(shape) == full(shape, 1.0)` |
| Numpy.Array | src/numpy/__init__.py:6-9 | a list is returned as is; another iterable becomes the list of its elements in order |
| Numpy.ArrayIdempotent | src/numpy/__init__.py:6-9 | converting twice is converting once |
| ScipySparse.Identity | src/scipy/sparse.py:12-14 | a new matrix holding the `n`-by-`n` identity rows |
| ScipySparse.ConcatRowsLength | src/scipy/sparse.py:17-21 | the stack has as many rows as the matrices together |
| ScipySparse.ConcatRowsIndex | src/scipy/sparse.py:17-21 | row `k` of matrix `i` is row `rows-before-i + k` of the stack |
| ScipySparse.VStack | src/scipy/sparse.py:17-21 | a new matrix whose rows are all rows of all matrices, in order |
| ScipySparse.JoinRowLength | src/scipy/sparse.py:29-33 | a joined row is as long as the joined rows together |
| ScipySparse.JoinRowIndex | src/scipy/sparse.py:29-33 | entry `j` of row `r` of matrix `i` sits after the row-`r` entries of the matrices before it |
| ScipySparse.HStack | src/scipy/sparse.py:24-34 | fails (`IndexError`) exactly when some matrix has fewer rows than the first one's shape; otherwise no matrices give the empty matrix of shape (0, 0), and any others give the first matrix's row count of rows, each joining that row of every matrix |
| ScipySparse.HStackRowLength | src/scipy/sparse.py:29-33 | each row of the result is as wide as the matrices' rows together |
| Optimizations.CreateIdentityOptimized | src/bendersx_engine/optimizations.py:8-11 | a new matrix holding the `n`-by-`n` identity rows |
| Optimizations.IdentityIsDiagOfZeros | src/bendersx_engine/optimizations.py:8-11 | the identity is what `setdiag` of `n` ones makes of the `n`-by-`n` zeros |
| Optimizations.SparseMatVec | src/bendersx_engine/optimizations.py:14-23 | `len(indptr) - 1` results (none for an empty `indptr`), entry `i` the sum of `data[j] * x[indices[j]]` over row `i`'s positions |
| Optimizations.EmptyRowIsZero | src/bendersx_engine/optimizations.py:19-22 | a row with no positions gives 0.0 |
| Optimizations.IdentityCsrWellFormed | src/bendersx_engine/optimizations.py:14-23 | the identity's CSR arrays are valid for a vector of length `n` |
| Optimizations.IdentityMatVec | src/bendersx_engine/optimizations.py:14-23 | the product with the identity's CSR arrays gives `x` back |
| Optimizations.SparseNorm | src/bendersx_engine/optimizations.py:26-27 | 0.0 for no data; otherwise the largest magnitude, attained by some entry |
| SharedMemory.SegmentName | src/bendersx_engine/shared_memory.py:16-18 | `prefix_hex_suffix` has the summed length and starts with the prefix and ends with the suffix |
| SharedMemory.NamesDistinct | src/bendersx_engine/shared_memory.py:16-18 | the data, indices and indptr names of one matrix are pairwise distinct |
| SharedMemory.Resolve | src/bendersx_engine/shared_memory.py:46-56 | a resolved matrix needs all three segments, and has the recorded shape and array lengths |
| SharedMemory.PublishedSegments | src/bendersx_engine/shared_memory.py:20-30 | publishing adds exactly the three named segments, each a copy of its array, and changes no other |
| SharedMemory.PublishThenResolve | src/bendersx_engine/shared_memory.py:14-56 | resolving the returned metadata gives the published matrix back |
| SharedMemory.PublishKeepsResolved | src/bendersx_engine/shared_memory.py:14-56 | publishing under fresh names does not change what earlier metadata resolves to |
| SharedMemory.OrphanedSegments | src/bendersx_engine/shared_memory.py:20-30 | a failed publication creates the segments of the arrays before the first empty one, keeps every earlier segment, and registers none of them, so they survive a cleanup of the registered names |
| SharedMemory.PublishThenRelease | src/bendersx_engine/shared_memory.py:14-67 | unlinking the three registered names of a publication under fresh names restores the segments |
| SharedMemory.CopyIntoCreated | src/bendersx_engine/shared_memory.py:20-26 | copying the arrays into the three newly created, zero-filled segments gives the published segments |
| SharedMemory.SharedPool.constructor | src/bendersx_engine/shared_memory.py:11 | no segment and an empty `_shared_pool` |
| SharedMemory.SharedPool.CsrToShared | src/bendersx_engine/shared_memory.py:14-43 | fails exactly when an array is empty, leaving the segments created before it in the system but not in `_shared_pool`; otherwise adds the three segments, registers their names and returns their metadata |
| SharedMemory.SharedPool.CsrFromShared | src/bendersx_engine/shared_memory.py:46-56 | resolves metadata against the system's segments without changing them |
| SharedMemory.SharedPool.Cleanup | src/bendersx_engine/shared_memory.py:59-67 | the registered segments are unlinked and `_shared_pool` is empty; unregistered segments stay |
| Subproblem.PySlice | src/bendersx_engine/subproblem.py:49 | an in-range slice is the Dafny subsequence |
| Subproblem.XBlock | src/bendersx_engine/subproblem.py:52 | `n_block` entries, each the demand divided by `n_block` |
| Subproblem.SumConstant | src/bendersx_engine/subproblem.py:54 | the sum of `n` copies of `c` is `n * c` |
| Subproblem.XBlockSumsToDemand | src/bendersx_engine/subproblem.py:48-54 | the even spread sums to the demand, or to 0.0 for an empty block |
| Subproblem.ScoreBounded | src/bendersx_engine/subproblem.py:76-80 | a resource's score is at most its production under non-negative penalties, and equal to it when the plan is met |
| Subproblem.PlanObjectiveBounded | src/bendersx_engine/subproblem.py:74-80 | the planned objective is at most the total production under non-negative penalties, and equal to it when every resource meets its plan |
| Subproblem.UnderPenalties | src/bendersx_engine/subproblem.py:56-63 | the given list, or the scalar penalty (default 1.0) for every resource |
| Subproblem.OverPenalties | src/bendersx_engine/subproblem.py:57-65 | the given list, or the scalar penalty (default 0.0) for every resource |
| Subproblem.FixedDuals | src/bendersx_engine/subproblem.py:81 | 0.5 for every resource |
| Subproblem.ProducedVector | src/bendersx_engine/subproblem.py:67-72 | the nested loops compute `ProducedVec` |
| Subproblem.PlannedObjective | src/bendersx_engine/subproblem.py:74-80 | the loop accumulates the planned objective |
| Subproblem.SolveSubproblemWorker | src/bendersx_engine/subproblem.py:36-84 | fails (`IndexError`) exactly when `B` has fewer rows than `r`, or, under the planned objective, a row misses a column of the block or a penalty list is shorter than `r`; otherwise returns the block id, the even spread of the demand, the sum or planned objective, duals 0.5, `[obj - pi . r]` and the opt cut built from them |
| Subproblem.CutAlwaysEmitted | src/bendersx_engine/subproblem.py:81-83 | the worker's cut always exists and carries the duals and offset |
| Subproblem.HalfDot | src/bendersx_engine/subproblem.py:82 | `sum(0.5 * r[j])` is half the total resource |
| Subproblem.DefaultObjective | src/bendersx_engine/subproblem.py:46-54 | without the planned objective, the objective is the demand (0.0 for an empty block) and the offset is that minus half the total resource |
| Subproblem.WorkerExample | src/bendersx_engine/subproblem.py:46-54 | one all-ones row over `[0, 4)` with resource 1.0 gives demand 4.0 and production `[1, 1, 1, 1]` |
| Master.Columns | src/bendersx_engine/master.py:16-33 | `b * m0` allocation columns `[0, inf)` with cost 0, then `b` theta columns `(-inf, inf)` with cost -1 |
| Master.AllocationIndex | src/bendersx_engine/master.py:36 | column `i * m0 + j` is an allocation column |
| Master.ResourceRows | src/bendersx_engine/master.py:35-38 | one equality row per resource |
| Master.ResourceRowsUpTo | src/bendersx_engine/master.py:35-38 | the first `k` resource rows, each pinning the sum of its resource's columns to `total_r[j]` |
| Master.ResourceRowCovers | src/bendersx_engine/master.py:35-38 | resource row `j` pins the sum of every block's column `j` (coefficient 1.0) to `total_r[j]` |
| Master.BlockPos | src/bendersx_engine/master.py:40 | every mapped id maps to a block carrying that id |
| Master.BlockPosLast | src/bendersx_engine/master.py:40 | every block's id is mapped, to that block or a later one, so a repeated id keeps its last position |
| Master.CutRowsCount | src/bendersx_engine/master.py:42-60 | exactly the cuts of current blocks add a row; with no known block, no cut row |
| Master.CutRowInRange | src/bendersx_engine/master.py:47-60 | a cut row has as many coefficients as indices, all inside the program's columns |
| Master.CutRowsInRange | src/bendersx_engine/master.py:42-60 | every cut row's indices are program columns |
| Master.ModelIndicesInRange | src/bendersx_engine/master.py:30-60 | every row of the program refers only to its columns |
| Master.Reshape | src/bendersx_engine/master.py:74-76 | `b` rows of `m0` values |
| Master.ReshapeRowInRange | src/bendersx_engine/master.py:74-76 | block `i`'s allocation columns lie inside the flat allocation |
| Master.ReshapeEntry | src/bendersx_engine/master.py:74-76 | entry `(i, j)` of the allocation is column `i * m0 + j` |
| Master.EvenSplit | src/bendersx_engine/master.py:78 | `b` rows, each a share of every resource |
| Master.ColumnSumOfSplit | src/bendersx_engine/master.py:78 | `n` rows of the fallback hold `n / b` of each resource |
| Master.EvenSplitSums | src/bendersx_engine/master.py:78 | the fallback allocation hands out every resource exactly |
| Master.MasterSession.constructor | src/bendersx_engine/master.py:9-10 | no stored basis and no program |
| Master.MasterSession.BuildCutRow | src/bendersx_engine/master.py:46-60 | the loop builds the cut's row |
| Master.MasterSession.BuildRows | src/bendersx_engine/master.py:35-60 | the loops build the resource rows followed by the rows of the cuts of known blocks; with fewer than `m0` totals they stop at the first missing one, holding the rows of the totals there are |
| Master.MasterSession.SolveMasterProblem | src/bendersx_engine/master.py:13-81 | fails (`IndexError`) exactly when `total_r` has fewer than `m0` entries, leaving the program with the columns and the resource rows of the entries there are, no warm start, and the stored basis untouched; otherwise the program's columns and rows are as above; the stored basis is the warm start unless `setBasis` refuses it, which forgets it; an optimal solve stores the new basis and returns the reshaped allocation and the thetas; otherwise the basis is forgotten and the result is the even split with thetas of minus infinity |
| Algorithm.SliceAssignInside | src/bendersx_engine/algorithm.py:63 | assigning an in-range slice puts `v` there and keeps everything before and after |
| Algorithm.SliceAssignWhole | src/bendersx_engine/algorithm.py:63 | assigning the whole range with a list of equal length replaces the list |
| Algorithm.DualGaps | src/bendersx_engine/algorithm.py:65-67 | the gaps are keyed by exactly the block ids |
| Algorithm.DualGapsValue | src/bendersx_engine/algorithm.py:65-67 | a block whose id no later block repeats gets `theta[idx] - obj` |
| Algorithm.NewCuts | src/bendersx_engine/algorithm.py:56 | exactly the cuts of the results that have one, at most one per result |
| Algorithm.WellSizedForWorker | src/bendersx_engine/algorithm.py:40-55 | with `m0 <= len(total_r) <= len(B)` (and, under the planned objective, rows covering `[0, n)` and long enough penalty lists) the worker's reads succeed on the initial block for any allocation row no longer than `total_r` |
| Algorithm.WellSizedRunsThrough | src/bendersx_engine/algorithm.py:35-68 | such an input gets through every round, whatever the solver returns |
| Algorithm.OptimalRunsThrough | src/bendersx_engine/algorithm.py:35-68 | when every solve is optimal and the planned objective is off, the rounds get through exactly when `m0 <= len(total_r)` and `m0 <= len(B)`, however long `total_r` is |
| Algorithm.BlocksNeverChange | src/bendersx_engine/algorithm.py:32-68 | repartitioning the initial block with bound `n` leaves it unchanged |
| Algorithm.PrefixesSeparate | src/bendersx_engine/algorithm.py:28-29 | names fresh for prefix "B" stay fresh after publishing under "A" |
| Algorithm.WorkerResultOfBlock | src/bendersx_engine/algorithm.py:40-55 | the worker's tuple for the initial block is for "block_0", spreads evenly over `[0, n)` and carries an opt cut of that block |
| Algorithm.RoundAllocationValue | src/bendersx_engine/algorithm.py:36-41 | with one block, `r_vars[0]` is the solver's first `m0` columns after an optimal solve and the whole `total_r` otherwise |
| Algorithm.RoundNewCut | src/bendersx_engine/algorithm.py:55-57 | every round adds exactly one cut to the pool, an opt cut of "block_0" |
| Algorithm.PoolStep | src/bendersx_engine/algorithm.py:57-58 | pruning a pool of opt cuts of "block_0" extended by another keeps only such cuts |
| Algorithm.PoolAfterOfBlock | src/bendersx_engine/algorithm.py:33-58 | after any number of rounds the pool holds only opt cuts of "block_0" |
| Algorithm.PoolAfterBounded | src/bendersx_engine/algorithm.py:33-58 | with a multiplier of at least 1 the pool never holds more cuts than the multiplier |
| Algorithm.ProductionAfterRound | src/bendersx_engine/algorithm.py:59-71 | after a round, `x_prev` is `n` equal shares of the demand under that round's `r_vars[0]`, and its sum is that demand (0.0 for `n <= 0`) |
| Algorithm.ProductionAfterUniform | src/bendersx_engine/algorithm.py:31-64 | `x_prev` always has `n` equal entries |
| Algorithm.RunSubproblems | src/bendersx_engine/algorithm.py:39-55 | fails exactly when some block's worker cannot read its input; otherwise one result per block, each the worker's tuple for that block handed `r_vars[0]` (even spread of the demand, objective, duals 0.5, offset and opt cut) |
| Algorithm.Merge | src/bendersx_engine/algorithm.py:59-64 | the merged `x_prev` is the last result's production, or zeros when there is no result |
| Algorithm.Round | src/bendersx_engine/algorithm.py:36-68 | fails exactly when the master finds fewer than `m0` totals or the worker cannot read its input, leaving the session as the raising call left it; otherwise a round turns the pool after `k` rounds into the pool after `k + 1`, sets `x_prev` to that round's production, keeps the single block, stores the round's basis (or none) and leaves the round's program in the session |
| Algorithm.RunRounds | src/bendersx_engine/algorithm.py:31-68 | fails exactly when some round raises, with the session as the first such round left it; otherwise after the loop, `x_prev`, the pool, the stored basis and the session's program are those of the last round, or the initial ones with no round |
| Algorithm.PublishInputs | src/bendersx_engine/algorithm.py:27-29 | fails exactly when `A` or `B` has an empty array, with the segments of a partial publication left over; otherwise both matrices are published and registered on top of the released pool |
| Algorithm.ReleaseBoth | src/bendersx_engine/algorithm.py:27-29 | releasing the names registered for `A` and `B` gives back the segments as they were before publishing |
| Algorithm.BendersDecomposition | src/bendersx_engine/algorithm.py:15-72 | fails exactly when `A` or `B` has an empty array, with the segments of a partial publication left over, or when some round raises `IndexError`, with both matrices left published and registered and the session as the first raising round left it; on success the segments are those before the call minus the registered ones, `x` is the last round's production and `total` its sum, the cuts are the pool after the last round (opt cuts of "block_0", at most `cut_pool_multiplier` when that is at least 1), `info` is empty, and the session holds the last round's basis and program |

## Left out

- Floating point: finite doubles are exact reals, so rounding is not modelled.
  Infinities and NaN are modelled where the code depends on them: cut offsets, LP
  bounds, `theta`, and dual gaps.
- Cuts.SortByMagnitude: the order is proved only when no offset is NaN. With a NaN
  offset, Python's `sort` gives an order that depends on the input, and the model
  uses one fixed insertion order.
- The HiGHS solver (`run`, `getModelStatus`, `getSolution`, `getBasis`, `setBasis`,
  `clear`) is outside the model. Its outcome and `setBasis`'s acceptance are inputs.
  `setup_highs_optimized` returns `False` and does nothing, so it is not modelled.
- SharedMemory.SharedPool.CsrToShared: the OS segment calls are replaced by a map of
  named segments and `_shared_pool` by the set of names it holds.
  - A zero-byte `SharedMemory(create=True)` raises, and this is modelled as a `Failure`.
    The segments created before the failing one stay in the map, zero-filled and
    unregistered.
  - Name collisions with existing segments, which raise `FileExistsError`, are excluded
    by the precondition.
  - Dtypes are carried only as strings: a `float64` buffer is real-valued and an `int32`
    buffer is integer-valued.
- SharedMemory.SharedPool.Cleanup: `close` and `unlink` are taken to succeed. In the
  source a segment whose `close` raises is never unlinked, and one whose `unlink`
  raises may stay. Either way its name still leaves `_shared_pool`. The model removes
  every registered segment.
- Subproblem.SolveSubproblemWorker: `B` is given as its dense rows. `csr_from_shared`
  rebuilds `B` with `sp.csr_matrix((data, indices, indptr), shape=...)`. With the
  stand-in `csr_matrix`, which takes no `shape` argument, that call cannot be reproduced.
  The link between `B_meta` and the rows the worker reads is therefore not modelled.
  With the real scipy, which the publication side is modelled on, `csr_from_shared`
  does rebuild `B` (src/bendersx_engine/shared_memory.py:56). But then `B.data` is the
  flat array of stored values, not rows: `B.data[i][start:end]`
  (src/bendersx_engine/subproblem.py:49) slices a numpy scalar and raises. For example,
  `sp.csr_matrix(np.ones((1, 4)))` has `B.data[0] == 1.0`. Only the stand-in's `.data`
  holds dense rows, and the stand-in cannot be published. So no single choice of
  libraries lets a round with a non-empty `r_vars[0]` succeed. The model's success
  path for `Algorithm.BendersDecomposition` combines the real scipy's publication with
  the stand-in's dense rows.
  The worker's inputs `A`, `d` and `x_prev` are never used by the source and are left out.
- Subproblem.SolveSubproblemWorker: rebuilding the configuration with
  `BendersConfig(**cfg_dict)` is taken as the identity on the modelled fields.
- Config: `n_processes`, the thread and OpenMP settings, numba caching, GPU and HiGHS
  version detection, and printing are environment probing and are left out, as is
  every field the engine does not read.
- Numpy: `random.random` is randomness and is left out. `any` and `isnan` forward to
  Python built-ins and no modelled code calls them, so they are left out.
- Numpy.Array: the list returned for a list input is the same object. The model returns
  it as a value, so aliasing with the caller's list is not captured; no modelled caller
  mutates it.
- Optimizations.SparseMatVec: well-formedness requires every index to be
  non-negative. Python would also accept a negative `indices[j]` or `indptr` entry
  and count from the end.
- Master.MasterSession.SolveMasterProblem: `m0` is a natural number. With real numpy, a
  negative `m0` and at least one block make `np.zeros(num_r)`
  (src/bendersx_engine/master.py:30) raise `ValueError` (negative dimensions). The
  model does not take that input.
- Algorithm.BendersDecomposition: `m0` is a natural number. The driver always has one
  block, so with a negative `m0` the source raises `ValueError` in the first round's
  master, whenever it runs a round. The model does not take that input.
- Algorithm.BendersDecomposition: `problem_type` and the default `config=None` are left
  out. The configuration must already have passed `__post_init__`, and an optimal solve
  must report one value per column (`OutcomesFit`).
- Master.MasterSession.SolveMasterProblem and SharedMemory.SharedPool.CsrToShared are
  modelled with the semantics of the real numpy and scipy, which those files import.
  The project's own stand-ins lack what they use:
  - `np.concatenate` (src/bendersx_engine/master.py:30);
  - `np.tile` and `np.inf` (src/bendersx_engine/master.py:31, 78);
  - `np.ndarray` (src/bendersx_engine/shared_memory.py:24);
  - the stand-in `csr_matrix` (src/scipy/sparse.py:8-9) has no `.data.nbytes`,
    `.indices` or `.indptr` (src/bendersx_engine/shared_memory.py:20-22).

  Against the stand-ins these calls would raise `AttributeError`, and the model does not
  follow them there.
- Master.MasterSession.SolveMasterProblem: `total_r` is taken to be an array. After a
  solve that is not optimal, a plain list (as `benchmark.py` passes) makes
  `total_r / b` raise `TypeError`; the model returns the even split.
- `matrix_generation.py`, `env_detection.py`, `benchmark.py`, `cli.py` and the package
  `__init__.py` are outside the core and not modelled.
