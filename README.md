# mmd_critic in Dafny

A model of the `mmd_critic` Python package (PhysBoom/mmd_critic). The package
implements MMD-critic prototype selection. The prototypes of a data set X are
a subset S chosen greedily: each round adds the data point that most improves

    J(S) = mean K(X, X) - MMD²(X, S)

where `MMD²(X, Y) = mean K(X, X) + mean K(Y, Y) - 2 mean K(X, Y)` and `K` is
the RBF kernel matrix.

The model is organised by module:

- `Results` (`results.dfy`) holds the exceptions raised along the modelled paths, as an `Error` datatype, plus `Option` and `Result`.
- `NdArrays` (`ndarray.dfy`) holds the part of numpy the package relies on:
  - two-dimensional arrays keep their rows;
  - arrays of any other rank keep their shape only;
  - `size`, `np.asarray` of a list of rows, and `np.mean` as a sum over a count.
- `Kernels` (`kernel.py`, `kernel.dfy`) models `Kernel.__call__`: the rank check, the feature check, and the hand-off to `_compute`. The concrete `_compute` is a function parameter. The module also proves the algebra of kernel matrices built from a pairwise similarity: entry count, and sums by rows against sums by columns.
- `RbfKernel` (`rbf_kernel.py`, `rbf_kernel.dfy`) models the bandwidth check and `_compute`. It forms the distance `|x|² + |y|² - 2 x·y` and proves it equal to the squared Euclidean distance. The exponential is uninterpreted: it is a function value carried by the kernel.
- `Mmd` (`mmd.py`, `mmd.dfy`) holds four pieces:
  - the kernel-name check;
  - `compute_mmd` with every branch of its case split;
  - `MMD.__call__`;
  - the `CachedMMD` class, whose fields are set once by its constructor.
- `Critic` (`mmd_critic.py`, `mmd_critic.dfy`) holds the `MMDCritic` class: its additive bias, the prototype cost, and `select_prototypes`. The last is an imperative method with a `while` loop over a scan. Each scan round keeps the first index whose cost is strictly larger than the best so far; the best starts at minus infinity.
  - The method is proved against `IsGreedyRun`: each pick is the first unselected index of maximal cost, given the picks before it.
  - A separate lemma shows that such a run is unique.

Arithmetic is exact over `real`. Means are sums divided by counts.

Where the code and the package's own tests disagree, the model follows the code, except at `mmd.py:87`. There it models the code as written (`Mmd.CachedMeanAsWritten`) and builds every object from the intended call (`Mmd.CachedMean`):

- `np.asarray([])` has rank one, so `Kernel.__call__` rejects an empty list (`kernel.py:32-33`). The model does the same, although `test_empty_dataset` expects an empty result. `compute_mmd` never hands an empty array to the kernel, because its size checks come first.
- `CachedMMD.__init__` calls the kernel with one argument (`mmd.py:87`). `Kernel.__call__` requires two, so this raises a TypeError on every non-empty reference set. The model records that as written (see Findings). Everywhere else it uses the evident intent `kernel(X, X)`, which `test_y_none` also expects.
- The code recomputes the MMD for every candidate, and `select_criticisms` is an empty stub.

## Model

| member | source | states |
|---|---|---|
| NdArrays.RawArray.Size | mmd_critic/mmd.py:32-36 | `a.size` is zero exactly when some extent of the shape is zero; for a matrix, exactly when it has no rows or no columns |
| NdArrays.AsArray | mmd_critic/mmd_critic.py:22 | `np.asarray` of a list of equal-length rows has rank two exactly when the list is non-empty; it then keeps the rows, with the first row's length as column count; it has no elements exactly when there are no rows or the rows are empty |
| Kernels.Call | mmd_critic/kernels/kernel.py:31-38 | it fails with the rank error exactly when an argument is not two-dimensional; it fails with the feature error exactly when both are matrices of different widths; otherwise it returns `_compute` of the rows unchanged |
| Kernels.CallAsWritten | mmd_critic/kernels/kernel.py:16 | a call that leaves out the required `Y` raises a TypeError; with `Y` supplied it is `Kernels.Call` |
| Kernels.CallSelf | tests/test_kernels/test_rbf_kernel.py:31-34 | the one-argument call read as `kernel(X, X)` succeeds exactly on matrices, returns `_compute(X, X)`, and agrees with the declared signature given `Y = X` |
| Kernels.GramEntryCount | mmd_critic/kernels/kernel.py:26 | a kernel matrix of X and Y has `\|X\| * \|Y\|` entries, which is what `np.mean` divides by |
| Kernels.GramSumTranspose | mmd_critic/mmd.py:44 | the entries of K(X, Y) under a similarity sum to the same total as those of K(Y, X) under the flipped similarity |
| Kernels.GramMeanSymmetric | mmd_critic/mmd.py:44 | for a symmetric similarity, mean K(X, Y) = mean K(Y, X) |
| RbfKernel.New | mmd_critic/kernels/rbf_kernel.py:5-14 | a bandwidth that is not positive is refused with a ValueError; any positive bandwidth is stored as given |
| RbfKernel.NormExpansion | mmd_critic/kernels/rbf_kernel.py:20-23 | on rows of equal length, `\|x\|² + \|y\|² - 2 x·y` equals the sum of the squared feature differences |
| RbfKernel.SqDistSymmetric | mmd_critic/kernels/rbf_kernel.py:23 | the squared distance of x and y equals that of y and x |
| RbfKernel.ExpandedDistNonNegative | mmd_critic/kernels/rbf_kernel.py:23 | the distance `_compute` forms is never negative on rows of equal length |
| RbfKernel.ExpandedDistSelf | mmd_critic/kernels/rbf_kernel.py:23 | the distance of a row to itself is zero |
| RbfKernel.ExponentSign | mmd_critic/kernels/rbf_kernel.py:25 | `-dist / (2 sigma²)` is at most zero for a non-negative distance, and zero for distance zero |
| RbfKernel.EntrySymmetric | mmd_critic/kernels/rbf_kernel.py:25 | the similarity exp(-\|x - y\|² / (2 sigma²)) is symmetric in x and y |
| RbfKernel.Compute | mmd_critic/kernels/rbf_kernel.py:16-26 | `_compute(X, Y)` is an \|X\| by \|Y\| matrix |
| RbfKernel.ComputeMatchesReference | mmd_critic/kernels/rbf_kernel.py:20-25 | on samples with a common feature count, `_compute` yields the kernel matrix whose entry (i, j) is exp of minus the squared Euclidean distance of X[i] and Y[j] over 2 sigma² |
| RbfKernel.ComputeTranspose | mmd_critic/kernels/rbf_kernel.py:23-25 | entry (i, j) of K(X, Y) equals entry (j, i) of K(Y, X) |
| RbfKernel.ComputeEntries | mmd_critic/kernels/rbf_kernel.py:23-25 | every distance is non-negative, every entry is exp of the exponent of its distance, and the diagonal of K(X, X) is exp(0) |
| RbfKernel.Call | mmd_critic/kernels/kernel.py:31-38 | the RBF kernel call succeeds exactly on two matrices of equal width and then yields the reference kernel matrix; otherwise the feature error when both are matrices, else the rank error |
| RbfKernel.CallSelf | tests/test_kernels/test_rbf_kernel.py:31-34 | the self-similarity matrix is square, symmetric and has exp(0) on its diagonal; it equals the two-argument call `K(X, X)` |
| RbfKernel.OneDimensionExample | tests/test_kernels/test_rbf_kernel.py:6-10 | sigma 1, X = [[1], [2]], Y = [[3], [4]] give entries exp(-2) and exp(-9/2) |
| RbfKernel.DifferentSampleCountsExample | tests/test_kernels/test_rbf_kernel.py:12-17 | sigma 0.5, X = [[1]], Y = [[1], [2]] give a 1 by 2 matrix with entries exp(0) and exp(-2) |
| RbfKernel.MultiDimensionExample | tests/test_kernels/test_rbf_kernel.py:19-23 | sigma 1, X = [[1, 2], [3, 4]], Y = [[5, 6]] give entries exp(-16) and exp(-4) |
| Mmd.NewKernel | mmd_critic/mmd.py:5-16 | "rbf" yields an RBF kernel with the given bandwidth, or 1.0 when none is given, refusing a non-positive one; any other name raises a ValueError naming it |
| Mmd.SmallBandwidthExample | tests/test_mmd.py:13-19 | sigma 0.5, X = [[1]], Y = [[1], [2], [3]] give exp(0) + (3 exp(0) + 4 exp(-2) + 2 exp(-8)) / 9 - 2 (exp(0) + exp(-2) + exp(-8)) / 3 |
| Mmd.SelfMean | mmd_critic/mmd.py:35 | `np.mean(kernel(A, A))` is defined exactly on matrices and is then the mean of the reference kernel matrix |
| Mmd.ComputeMmd | mmd_critic/mmd.py:18-47 | both inputs empty gives 0; X empty gives mean K(Y, Y); Y empty gives the cache if there is one, else mean K(X, X); a rank below two raises an IndexError; different feature counts raise; two matrices give mean K_XX + mean K_YY - 2 mean K_XY, with K_XX taken from the cache when given; any other array of rank above two raises the kernel's rank error |
| Mmd.MMD.Call | mmd_critic/mmd.py:61-72 | a matrix is at MMD zero from itself, and two empty inputs are at MMD zero |
| Mmd.MMD.CallSymmetric | tests/test_mmd.py:21-25 | MMD(X, Y) = MMD(Y, X) for all arrays, error cases included |
| Mmd.CachedMean | mmd_critic/mmd.py:87 | the cached mean of K(X, X), one-argument call read as `kernel(X, X)`, is 0 for a reference set without elements and `np.mean(kernel(X, X))` otherwise |
| Mmd.CachedMeanAsWritten | mmd_critic/mmd.py:87 | as written, the cache can be built exactly when the reference set has no elements; otherwise the call raises a TypeError |
| Mmd.CachedMeanAsWrittenFails | mmd_critic/mmd.py:87 | on the reference set [[1]] the written code raises, while the intended call yields mean K(X, X) = exp(0) |
| Mmd.CachedMMD.Create | mmd_critic/mmd.py:76-87 | the kernel is chosen first and its error wins; then the cached mean is taken, which may raise; a new object holds X, the kernel and the valid cached mean |
| Mmd.CachedMMD.constructor | mmd_critic/mmd.py:85-87 | the object keeps the kernel, the reference array and a cached mean that is the mean of K(X, X) for X |
| Mmd.CachedMMD.Call | mmd_critic/mmd.py:89-99 | with the cache in place, `CachedMMD(X)(Y)` equals the uncached `MMD()(X, Y)` for every Y |
| Critic.FirstMaxUnique | mmd_critic/mmd_critic.py:47-56 | a scan has one outcome: the first admissible index of maximal cost |
| Critic.ScanStep | mmd_critic/mmd_critic.py:47-56 | one scan step keeps the scan state: a selected index is skipped, a strictly larger cost takes over, any other cost leaves the best alone |
| Critic.ScanDone | mmd_critic/mmd_critic.py:44-56 | a finished scan that met an unselected index holds the first index of maximal cost |
| Critic.Pigeonhole | mmd_critic/mmd_critic.py:43-47 | while fewer than \|X\| indices are selected, some index is still unselected, so every round has a candidate |
| Critic.MMDCritic.constructor | mmd_critic/mmd_critic.py:22-24 | the object keeps the data set and the cached MMD over it, and sets the bias to `mmd([])` |
| Critic.MMDCritic.Create | mmd_critic/mmd_critic.py:13-24 | on a table of rows, construction fails exactly when the kernel choice fails, with that error; otherwise the new object holds X, the cached MMD over X and the bias `mmd([])` |
| Critic.MMDCritic.BiasIsCachedMean | mmd_critic/mmd_critic.py:24 | the additive bias `mmd([])` equals the cached mean of K(X, X), which is 0 for a data set without entries |
| Critic.MMDCritic.PrototypeCost | mmd_critic/mmd_critic.py:26-28 | bias - mmd(S) is 2 mean K(X, S) - mean K(S, S) for non-empty prototypes with features, and 0 otherwise |
| Critic.MMDCritic.RowsAt | mmd_critic/mmd_critic.py:55-57 | the rows at the chosen indices, in choosing order |
| Critic.MMDCritic.GreedyRunExtend | mmd_critic/mmd_critic.py:57-58 | appending the round's greedy choice to a greedy run gives a greedy run |
| Critic.MMDCritic.GreedyRunUnique | mmd_critic/mmd_critic.py:43-58 | two greedy runs of the same length are equal: the selection is determined by the costs |
| Critic.MMDCritic.GreedyRunDistinct | mmd_critic/mmd_critic.py:48-49 | a greedy run never picks an index twice |
| Critic.MMDCritic.ScanRound | mmd_critic/mmd_critic.py:44-56 | one round returns an unselected index whose cost no unselected index exceeds and which every unselected index before it falls strictly short of, together with its row |
| Critic.MMDCritic.SelectPrototypes | mmd_critic/mmd_critic.py:30-60 | a count outside 0 < n <= \|X\| raises before any selection; otherwise the result is a matrix of n rows of the data set's width; row t is X[picks[t]]; the picks are distinct and form the greedy run |

## Left out

- Floating point: the model computes over exact reals. Rounding, ties that exist in a float computation but not over the reals, NaN, and the numeric values in `tests/test_mmd.py` (1.4908 and 0.6364) are not modelled. `Mmd.SmallBandwidthExample` states the second test's result as a closed form in `exp`, and that form comes to about 0.6364.
- Integer overflow: the tests' integer lists, such as `[[1, 2], [3, 4]]`, become int64 arrays. `X ** 2` and `np.dot` at `rbf_kernel.py:21-23` then wrap around silently for large entries. The model's unbounded reals do not wrap.
- `np.exp` is an uninterpreted function value carried by the kernel. Facts that need its values, such as exp(0) = 1 or the positivity of the entries, are not stated.
- numpy vectorisation (`reshape`, broadcasting, `np.dot`) is written as explicit sums over sequences. The elements of arrays whose rank is not two are not represented, because every modelled path that meets one either raises or reads only its shape and size.
- `np.mean` of an array without entries is NaN in numpy. No modelled path takes one, and `NdArrays.Mean` returns 0 there.
- Critic.MMDCritic.Create: requires the data set to be a table of equal-length rows. A ragged list is not modelled: there `np.asarray` at `mmd_critic.py:22` raises a ValueError (older numpy builds an object array).
- Mmd.NewKernel: keyword arguments other than `sigma` would reach `RBFKernel.__init__` and raise a TypeError; the model takes only the bandwidth.
- The `print` call in `select_prototypes` (`mmd_critic.py:59`) is output only.
- `select_criticisms` (`mmd_critic.py:62-76`) is an empty stub and has no behaviour to state.
- `tests/test_mmd_critic.py` uses labels, a kernel object and a two-argument `select_criticisms`, none of which exist in the modelled code.
- `setup.py` is packaging only.
- The abstract base class machinery (`ABC`, `@abstractmethod`) is replaced by passing the concrete computation to `Kernels.Call` as a function.
- Critic.MMDCritic.SelectPrototypes: the chosen indices `picks` are a ghost output. The code keeps them only in the set `selected_indices`.
- Critic.MMDCritic.ScanRound: this is the body of `select_prototypes`'s outer loop, split out as its own method; it returns `cur_max_index` and `cur_max_elem`, and the running maximum `cur_max` stays local to it.
- RbfKernel.Exponent: writes `-dist / (2 * sigma ** 2)` as successive divisions by 2, sigma and sigma. Over the reals these are the same number.

## Findings

| source | as written | input that shows it | evidently intended | confidence | as-written member | corrected member |
|---|---|---|---|---|---|---|
| mmd_critic/mmd.py:87 | `self.kernel(self.X)` passes one argument to `Kernel.__call__(self, X, Y)`, which raises a TypeError whenever the reference set has elements; no `MMDCritic` or `CachedMMD` over a non-empty data set can then be built | reference set [[1]] | `self.kernel(self.X, self.X)`, the self-similarity matrix, as `test_y_none` expects of `rbf(X)` | not executed; the TypeError follows from the signature at `kernel.py:16` | Mmd.CachedMeanAsWrittenFails | Mmd.CachedMean |
