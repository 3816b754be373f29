# GLRM core in Dafny

This project models the core of H2O's generalized low rank model (GLRM) trainer,
`hex.glrm.GLRM`, and proves properties of the model. GLRM factors a training frame A
(categorical and numeric columns) as X·Y, where the rank-k archetype matrix Y has one column
per expanded feature. The modelled parts are the following.

- **The `Archetypes` matrix** (module `ArchetypeMatrix`). Y is stored as Y or as Yᵗ behind
  a `transposed` flag. The model covers its shape accessors, the column indexing of
  categorical blocks and numeric columns, and the column, block and vector–matrix product
  kernels.
- **The layout of categorical blocks** (module `ColumnBlocks`). Both the archetypes and the
  expanded training frame lay out one contiguous block of columns per categorical feature.
- **The reshaping helpers** (module `Reshape`). `expandCats` does one-hot expansion of the
  categorical columns. It respects the NA bucket and ignores levels outside the domain.
  `transform` centres and scales the numeric columns. `frobenius2` computes the squared
  Frobenius norm.
- **The working-frame layout** (module `WorkingFrame`). The driver keeps the frame
  [A, X, W], where W is the working copy of X. `idx_xold`/`idx_xnew` locate columns in it.
  At the end the driver picks which copy of X to save and which to remove.
- **The step-size controller** (module `StepControl`). This is the driver loop of
  `compute2` together with `isDone`. An iteration that lowers the objective is accepted:
  the step is multiplied by 1.05 and the signed run-length counter `steps_in_row` goes
  up. Otherwise the step is divided by max(1.5, −steps_in_row) and the counter goes down.
  The loop stops on cancellation, on the iteration budget, on a step at or below the
  minimum, or when the tolerance test passes.
- **The regularized Cholesky retry loop** (module `RegularizedCholesky`). Both overloads
  are modelled. While the decomposition is not SPD, the loop loads the diagonal of the Gram
  matrix with 1e-5, then ten times the previous loading, for at most `max_attempts`
  retries. The H2O overload adds each loading (so loadings accumulate). The JAMA overload
  overwrites the diagonal with it.

Doubles are modelled as mathematical reals. A NaN that the source reads as "missing" is
the `NA` case of `Reshape.Entry`. Java's `(int)` cast is `Reshape.TruncToInt`, which
truncates toward zero and saturates at the bounds of a 32-bit int. Null arrays are `Option.None`. An exception is the `Failure` case of
a `Result`. Loops that fill fresh arrays or update the Gram matrix in place are methods over
Dafny arrays. Each is proved against a specification function or predicate, and the
properties are lemmas about those functions.

## Model

| member | source | states |
|---|---|---|
| ArchetypeMatrix.Archetypes.Rank | h2o-algos/src/main/java/hex/glrm/GLRM.java:577-579 | rank() is the row count of the logical Y: the stored array's row count, or its column count when Yᵗ is stored; it is positive for a non-empty rectangle |
| ArchetypeMatrix.Archetypes.NFeatures | h2o-algos/src/main/java/hex/glrm/GLRM.java:581-583 | nfeatures() is the column count of the logical Y: the stored array's column count, or its row count when Yᵗ is stored; it is positive for a non-empty rectangle |
| ArchetypeMatrix.RankSwapsWithFlag | h2o-algos/src/main/java/hex/glrm/GLRM.java:577-583 | rank() of a stored array equals nfeatures() of the same array read with the opposite flag, and vice versa |
| ArchetypeMatrix.Archetypes.GetY | h2o-algos/src/main/java/hex/glrm/GLRM.java:586-588 | getY(t) is rank×nfeatures for t false and nfeatures×rank for t true; it is the stored array itself when t equals the stored flag |
| ArchetypeMatrix.Archetypes.GetYTransposes | h2o-algos/src/main/java/hex/glrm/GLRM.java:585-588 | whatever orientation is stored, getY(true) is the transpose of getY(false) |
| Matrices.TransposeInvolution | h2o-algos/src/main/java/hex/glrm/GLRM.java:587 | transposing twice gives back the original rectangular matrix |
| ArchetypeMatrix.Archetypes.GetNumCidx | h2o-algos/src/main/java/hex/glrm/GLRM.java:591-593 | the column of numeric feature j lies after every categorical block, and inside Y for j below the number of numeric columns |
| ArchetypeMatrix.Archetypes.GetCatCidx | h2o-algos/src/main/java/hex/glrm/GLRM.java:596-600 | when numLevels[j] is non-zero and level is in [0, numLevels[j]), the column lies inside block j, which lies before the numeric columns |
| ColumnBlocks.OffsetsMonotone | h2o-algos/src/main/java/hex/glrm/GLRM.java:567-574 | the offsets of the contiguous categorical blocks (shared by the archetypes' `_catOffsets` and the training frame's) never decrease |
| ColumnBlocks.BlocksInOrder | h2o-algos/src/main/java/hex/glrm/GLRM.java:164-173 | every offset lies between 0 and the last offset, which ends the categorical part, and the offsets are in column order, so no two blocks overlap |
| ArchetypeMatrix.Archetypes.BlocksBeforeNumeric | h2o-algos/src/main/java/hex/glrm/GLRM.java:591-599 | every categorical block ends at or before the first numeric column |
| ArchetypeMatrix.Archetypes.CatColumnsDistinct | h2o-algos/src/main/java/hex/glrm/GLRM.java:596-600 | distinct (feature, level) pairs name distinct columns of Y |
| ArchetypeMatrix.Archetypes.ColumnLayout | h2o-algos/src/main/java/hex/glrm/GLRM.java:590-600 | every column of Y is named by some categorical (feature, level) pair or is getNumCidx of its own numeric index |
| ArchetypeMatrix.Archetypes.GetNum | h2o-algos/src/main/java/hex/glrm/GLRM.java:602-605 | getNum(j, k) is entry (k, getNumCidx(j)) of getY(false) and entry (getNumCidx(j), k) of getY(true), in either orientation |
| ArchetypeMatrix.Archetypes.GetCat | h2o-algos/src/main/java/hex/glrm/GLRM.java:632-635 | getCat(j, level, k) is entry (k, getCatCidx(j, level)) of getY(false) and the transposed entry of getY(true) |
| ArchetypeMatrix.Archetypes.GetNumCol | h2o-algos/src/main/java/hex/glrm/GLRM.java:607-614 | the result has length rank() and holds numeric column j of Y |
| ArchetypeMatrix.Archetypes.LmulNumCol | h2o-algos/src/main/java/hex/glrm/GLRM.java:617-630 | the loop's sum is x · (numeric column j of Y), in both storage branches |
| ArchetypeMatrix.Archetypes.ColumnDot | h2o-algos/src/main/java/hex/glrm/GLRM.java:621-628 | the inner loops, in either storage branch, sum to x · (column c of the stored array read in its own orientation) |
| ArchetypeMatrix.Archetypes.GetCatBlock | h2o-algos/src/main/java/hex/glrm/GLRM.java:639-657 | the result is the rank() × numLevels[j] block Y_j, whose column `level` is column getCatCidx(j, level) of Y |
| ArchetypeMatrix.Archetypes.LmulCatBlock | h2o-algos/src/main/java/hex/glrm/GLRM.java:660-679 | the result has numLevels[j] entries; entry `level` is x · (column getCatCidx(j, level) of Y), and the whole result is the vector–matrix product x·Y_j |
| ArchetypeMatrix.Archetypes.CatProductIsVecMat | h2o-algos/src/main/java/hex/glrm/GLRM.java:659-679 | a vector of per-level dot products with the block's columns equals x·Y_j |
| ArchetypeMatrix.OrientationAgnostic | h2o-algos/src/main/java/hex/glrm/GLRM.java:564-588 | storing Y with the flag off and storing Yᵗ with the flag on give the same rank, width, validity, getY(false) and getY(true) |
| ArchetypeMatrix.LmulNumColAgnostic | h2o-algos/src/main/java/hex/glrm/GLRM.java:617-630 | lmulNumCol gives the same value whether Y or Yᵗ is stored |
| ArchetypeMatrix.LmulCatBlockAgnostic | h2o-algos/src/main/java/hex/glrm/GLRM.java:660-679 | getCatBlock and lmulCatBlock give the same block and product whether Y or Yᵗ is stored |
| Reshape.TruncToInt | h2o-algos/src/main/java/hex/glrm/GLRM.java:175 | the (int) cast always gives a 32-bit int: x ≥ 2³¹−1 gives 2147483647, x ≤ −2³¹ gives −2147483648, and in between the result is within 1 of x, on the side of 0 |
| Reshape.DataInfo.CategoricalId | h2o-algos/src/main/java/hex/glrm/GLRM.java:175-176 | the id is non-negative exactly when the level is in the column's domain, and it is then the block start plus the level |
| Reshape.DataInfo.BlocksInOrder | h2o-algos/src/main/java/hex/glrm/GLRM.java:164-173 | every block lies within [0, catsexp], and blocks appear in column order without overlapping |
| Reshape.DataInfo.HotColumn | h2o-algos/src/main/java/hex/glrm/GLRM.java:171-176 | the column an entry switches on is -1 (none) or lies inside its own block |
| Reshape.ExpandCats | h2o-algos/src/main/java/hex/glrm/GLRM.java:159-186 | input returned unchanged when null or with no categoricals; otherwise same row count, catsexp + nums columns, each categorical block is the entry's indicator block, numeric values copied after the blocks |
| Reshape.SetIndicators | h2o-algos/src/main/java/hex/glrm/GLRM.java:167-178 | after the categorical loop, each cell of each block holds 1 exactly at the entry's hot column and 0 elsewhere, including the `continue` case; the numeric cells after the blocks are still zero |
| Reshape.SetBlock | h2o-algos/src/main/java/hex/glrm/GLRM.java:168-177 | one pass of the loop over categorical column j: every row's block j is its indicator block, the columns before the block keep their values, and those after it stay zero |
| Reshape.CopyNumeric | h2o-algos/src/main/java/hex/glrm/GLRM.java:180-184 | the numeric loop copies column cats + j to column catsexp + j and leaves the categorical part untouched |
| Reshape.OneHotBlock | h2o-algos/src/main/java/hex/glrm/GLRM.java:169-177 | a block holds only 0/1 and at most one 1; it is all zero for NA without a bucket, has only its last column set for NA with one, has exactly the level's column set for an in-domain level, and is all zero for an out-of-domain level |
| Reshape.StandardizeIdentity | h2o-algos/src/main/java/hex/glrm/GLRM.java:146-148 | with both vectors null, the defaults 0 and 1 make (x − sub)·mul the identity |
| Reshape.Transform | h2o-algos/src/main/java/hex/glrm/GLRM.java:141-156 | the result is K×(ncats+nnums); the first ncats columns are copied, numeric column c maps to (v − normSub[c−ncats])·normMul[c−ncats] with defaults 0 and 1, and with both null the result equals the input |
| Reshape.TransformRow | h2o-algos/src/main/java/hex/glrm/GLRM.java:150-154 | one pass of the outer loop: row clu gets the copied categorical prefix and the centred and scaled numeric columns; other rows are unchanged |
| Reshape.SumSquaresZero | h2o-algos/src/main/java/hex/glrm/GLRM.java:128-138 | the sum of squares is non-negative and is zero exactly when every entry read is zero |
| Reshape.Frobenius2 | h2o-algos/src/main/java/hex/glrm/GLRM.java:129-138 | the result is 0 for null, else the sum of squares over all rows and the first row's width; it is non-negative, and zero exactly when all those entries are zero |
| WorkingFrame.IdxXOld | h2o-algos/src/main/java/hex/glrm/GLRM.java:683 | idx_xold(c) lies past the ncolA columns of A exactly when c is a valid (non-negative) column index |
| WorkingFrame.IdxXNew | h2o-algos/src/main/java/hex/glrm/GLRM.java:684 | idx_xnew(c) is the column idx_xold(c) shifted past the ncolX columns of X, so it lies past both A and X exactly when c >= 0 |
| WorkingFrame.LayoutPartition | h2o-algos/src/main/java/hex/glrm/GLRM.java:682-684 | idx_xold maps X column c into the X block and idx_xnew into the W block; both are injective, never collide, and every column of either block is the image of one c |
| WorkingFrame.SaveX | h2o-algos/src/main/java/hex/glrm/GLRM.java:511-516 | the saved columns are the W copy when the last step was accepted, else the X copy, in column order |
| WorkingFrame.UnusedX | h2o-algos/src/main/java/hex/glrm/GLRM.java:548-553 | the removed columns are the other copy: X when the last step was accepted, else W |
| WorkingFrame.SavedAndRemovedPartition | h2o-algos/src/main/java/hex/glrm/GLRM.java:511-553 | saved and removed columns never coincide, no column of A is removed, and together they cover the X and W blocks |
| StepControl.Start | h2o-algos/src/main/java/hex/glrm/GLRM.java:464-471 | the initial state has 0 iterations, steps_in_row 0 and overwriteX false, and the tolerance test cannot hold before the first iteration |
| StepControl.NextRun | h2o-algos/src/main/java/hex/glrm/GLRM.java:496-500 | the new steps_in_row is positive exactly after an acceptance; it extends a run of the same kind by one, and restarts at 1 after an acceptance or 0 after a rejection that breaks a run |
| StepControl.Shrink | h2o-algos/src/main/java/hex/glrm/GLRM.java:499 | the divisor max(1.5, −steps_in_row) is at least 1.5 |
| StepControl.Transition | h2o-algos/src/main/java/hex/glrm/GLRM.java:486-503 | one iteration: the count goes up by 1; the candidate is accepted exactly when its objective is lower; acceptance commits it; the objective never rises; steps_in_row > 0 exactly after an acceptance |
| StepControl.TransitionStep | h2o-algos/src/main/java/hex/glrm/GLRM.java:495-500 | acceptance multiplies the step by 1.05 and rejection divides it by max(1.5, −steps_in_row); a positive step stays positive, grows on acceptance and shrinks on rejection |
| StepControl.ContinuedThroughMeaning | h2o-algos/src/main/java/hex/glrm/GLRM.java:473 | the loop reached count n exactly when the stopping rule held at none of the counts 0..n−1 |
| StepControl.IsDoneAtStart | h2o-algos/src/main/java/hex/glrm/GLRM.java:323-336 | before the first iteration the tolerance test cannot fire, so the loop runs no iteration exactly when the job is cancelled, max_iterations is not positive, or the initial step is at or below min_step_size |
| StepControl.Optimize | h2o-algos/src/main/java/hex/glrm/GLRM.java:470-507 | the loop returns the state after its own number of iterations; isDone holds there and at no earlier count; that number never exceeds max_iterations |
| StepControl.RunLengthMeaning | h2o-algos/src/main/java/hex/glrm/GLRM.java:496-500 | the counter is k after k trailing acceptances, −r after r rejections with no acceptance ever, and 1 − r after r rejections that follow an acceptance; it is positive exactly when the last step was accepted |
| StepControl.CounterIsRunLength | h2o-algos/src/main/java/hex/glrm/GLRM.java:471-500 | the controller's steps_in_row is the run length of its accept/reject history |
| StepControl.ToleranceStopFollowsAcceptedRun | h2o-algos/src/main/java/hex/glrm/GLRM.java:333-334 | the tolerance test can only hold after more than 10 iterations, the last four of which were accepted |
| StepControl.RunMonotone | h2o-algos/src/main/java/hex/glrm/GLRM.java:491-503 | the committed objective never increases over a run, and the step stays positive |
| StepControl.DecisionIsImprovement | h2o-algos/src/main/java/hex/glrm/GLRM.java:487-497 | iteration k accepts exactly when candidate k is below the committed objective, and exactly when steps_in_row is positive afterwards |
| RegularizedCholesky.LoadingClosedForm | h2o-algos/src/main/java/hex/glrm/GLRM.java:345-346 | retry k loads exactly 1e-5·10^(k−1), which is positive |
| RegularizedCholesky.TotalLoadingClosedForm | h2o-algos/src/main/java/hex/glrm/GLRM.java:345-348 | k retries of the H2O overload add 1e-5·(10^k − 1)/9 to the diagonal in total, a positive amount for k ≥ 1 |
| RegularizedCholesky.LoadedCompose | h2o-algos/src/main/java/hex/glrm/GLRM.java:348 | adding a and then b to the diagonal is adding a + b |
| RegularizedCholesky.SetDiagTwice | h2o-algos/src/main/java/hex/glrm/GLRM.java:370 | a second overwrite of the diagonal erases the first |
| RegularizedCholesky.GramAfterClosedForm | h2o-algos/src/main/java/hex/glrm/GLRM.java:344-371 | after k retries, the H2O Gram matrix is the input with the total loading added to the diagonal; the JAMA one is the input with its diagonal replaced by the last loading |
| RegularizedCholesky.AttemptsSpec | h2o-algos/src/main/java/hex/glrm/GLRM.java:344-352 | at most max(max_attempts, 0) retries; none when the input is SPD; every matrix before the final one is non-SPD; a non-SPD final matrix means all max_attempts retries were used |
| RegularizedCholesky.AddDiagonal | h2o-algos/src/main/java/hex/glrm/GLRM.java:348 | the Gram matrix afterwards is the old one with d added to every diagonal entry, other entries unchanged |
| RegularizedCholesky.SetDiagonal | h2o-algos/src/main/java/hex/glrm/GLRM.java:370 | the matrix afterwards is the old one with every diagonal entry replaced by v, other entries unchanged |
| RegularizedCholesky.RetryLoop | h2o-algos/src/main/java/hex/glrm/GLRM.java:344-352 | the loop makes exactly Attempts retries, leaves the Gram matrix after that many retries, and reports whether it is SPD |
| RegularizedCholesky.H2ORegularizedCholesky | h2o-algos/src/main/java/hex/glrm/GLRM.java:339-355 | the Gram matrix is left additively loaded after Attempts retries; the call throws NonSPDMatrixException exactly when that matrix is not SPD, and otherwise returns its SPD decomposition |
| RegularizedCholesky.H2ORegularizedCholeskyDefault | h2o-algos/src/main/java/hex/glrm/GLRM.java:356 | the same, with at most 10 retries |
| RegularizedCholesky.JamaRegularizedCholesky | h2o-algos/src/main/java/hex/glrm/GLRM.java:359-377 | the caller's array is left with its diagonal overwritten after Attempts retries; the call throws exactly when the result is not SPD and throw_exception is set, and otherwise returns the decomposition, SPD or not |
| RegularizedCholesky.JamaRegularizedCholeskyDefault | h2o-algos/src/main/java/hex/glrm/GLRM.java:378 | the same, with at most 10 retries and throwing on failure |
| RegularizedCholesky.QuadFormLoaded | h2o-algos/src/main/java/hex/glrm/GLRM.java:348 | loading the diagonal by t raises every quadratic form xᵀGx by exactly t·‖x‖² |
| RegularizedCholesky.LoadingRaisesQuadForm | h2o-algos/src/main/java/hex/glrm/GLRM.java:348 | for t > 0 and x ≠ 0 the loading strictly raises xᵀGx: what the loading is for |
| RegularizedCholesky.OverwriteLowersQuadForm | h2o-algos/src/main/java/hex/glrm/GLRM.java:370 | on the non-SPD Gram matrix [[2,3],[3,2]] at x = [1,−1], the first overwriting retry lowers xᵀGx from −2 to −5.99998, where the additive retry raises it to −1.99998 |
| RegularizedCholesky.JamaRegularizedCholeskyCorrected | h2o-algos/src/main/java/hex/glrm/GLRM.java:359-377 | the JAMA overload with additive loading: its Gram matrix follows the H2O schedule, with the JAMA throw condition |

## Findings

| source | as written | input that shows it | evidently intended | confidence | as-written member | corrected member |
|---|---|---|---|---|---|---|
| h2o-algos/src/main/java/hex/glrm/GLRM.java:370 | each retry of the JAMA overload sets every diagonal entry of the Gram matrix to addedL2, discarding the diagonal. The JAMA matrix wraps the caller's array, so the caller's Gram matrix is overwritten too | Gram matrix [[2,3],[3,2]] (not SPD; xᵀGx = −2 at x = [1,−1]). The first retry turns it into [[0.00001,3],[3,0.00001]], where the same form is −5.99998, further from positive definite | add addedL2 to the diagonal, as the comment on that line says and the H2O overload does at line 348. Loading by t then raises every xᵀGx by t·‖x‖² | medium, not executed | RegularizedCholesky.OverwriteLowersQuadForm | RegularizedCholesky.JamaRegularizedCholeskyCorrected |

`RegularizedCholesky.JamaRegularizedCholesky` keeps the as-written overwrite, because that
is the behaviour of the source. The corrected overload uses the additive `Loaded` update,
and `RegularizedCholesky.LoadingRaisesQuadForm` proves the intended property of that update.

## Left out

- Distributed tasks: `UpdateX`, `UpdateY`, `ObjCalc`, `CholMulTask`, `InitialXProj` and
  `InitialXKMeans` read and write H2O chunks. They are not modelled. The candidate objective
  of each iteration is therefore an input to `StepControl.Optimize` (`candidate`).
- Driver plumbing of `compute2` (frames, the distributed key–value store, locks, job state,
  progress, logging) is not modelled. Neither is the creation of the [A, X, W] frame. Only
  its column layout is. `isRunning()` is the input `running` of `StepControl.Optimize`.
- Initialization and validation: `initialXY` (PCA, k-means, random Gaussian starts) and
  `init` are not modelled. The controller assumes what `init` checks:
  - `StepControl.Optimize` requires `init_step_size > 0`;
  - `max_iterations` is any `nat`, which includes the range 1..1e6 that `init` enforces.
- `recoverSVD` and the Cholesky, QR and SVD computations of JAMA and H2O are library
  floating-point numerics. The decomposition is the input predicate `isSPD` on the matrix
  being factored.
- `Gram` is not part of this model. It is represented by its dense square matrix of
  entries, and `Gram.addDiag` by `RegularizedCholesky.AddDiagonal`. Both Cholesky overloads
  require a square Gram matrix.
- `DataInfo` is not part of this model. `Reshape.DataInfo` keeps only what `expandCats`
  reads:
  - the categorical and numeric counts;
  - `_catOffsets`;
  - `_catMissing`.

  `getCategoricalId` is modelled as "block start plus level when the level is in the
  domain, else −1". That is the contract `expandCats` relies on (line 176).
- Floating point: every double is a real. Rounding, overflow to infinity and the
  propagation of NaN are not modelled. This applies to NaN in `transform` and `frobenius2`,
  and to the cumulative loadings of `regularizedCholesky`.
- StepControl.Transition: requires `nobs > 0`. The observation count is never negative.
  With a count of zero, the source's IEEE division would give an infinite or NaN average
  change, which is not modelled.
- `steps_in_row` is an unbounded integer. The 32-bit counter of the source cannot overflow
  within the iteration bound that `init` enforces.
- ArchetypeMatrix.Archetypes.GetNumCol: returns the column as a value. When Yᵗ is stored,
  the source returns the stored row itself, aliased with the archetypes, and the model does
  not capture that aliasing.
- `ArchetypeMatrix.Archetypes.Valid` assumes that the categorical blocks are contiguous
  (`ColumnBlocks.Contiguous`) with widths `numLevels`. The source only notes this as unchecked (line 574).
- Reshape.Transform: requires `centers[0]` to be exactly `ncats + nnums` wide, as the
  source asserts (line 144), and the other rows to be at least that wide. The source does
  not assert on the other rows: a shorter row would fail there with an index error. With
  assertions disabled, a wider `centers[0]` would give zero trailing columns. The model
  captures neither.
