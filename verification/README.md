# DemandGenerator, modelled in Dafny

This project models the two versions of `DemandGenerator`. Both build origin–destination (OD) demand matrices for container-vessel stowage planning, following the "authentic instances" scheme of Ding and Chou (2015).

A voyage has `P` ports. Every loading port `i` ships to the ports from its first destination `dest_start(i)` on:
- `i + 1` by default;
- the middle leg when only loading ports ship.

Each loading row works in this order:
1. Its volume is computed as `max(target - assigned_so_far - onboard, 0)`.
2. The volume is split at random into one part per destination (a stars-and-bars composition drawn by a partial Fisher–Yates shuffle).
3. Parts are cleared at random (sparsity). A cleared row with volume is refilled into one random column.
4. The parts are perturbed.

The current generator (`StochasticModel/authentic_generator_np.py`) adds:
- 28 fixed cargo types;
- onboard offsets;
- a loading list for the current port;
- masking of the expected matrices to the block from the start port on.

The legacy generator (`authentic_generator_np.py`) has:
- 12 dry cargo types and two optional reefers;
- no onboard handling;
- a renormalisation loop that rebinds the row index (see Findings).

Both generators turn per-cargo-type matrices into five random scenarios.

Randomness is passed in as explicit draws:
- `RowDraws` holds the `randint` swap indices of the partition and the forced-fill column, each in the range `randint` promises, and the sparsity coins in [0, 1). It also holds the perturbation factors, which are left unconstrained: every result about perturbation holds for any factor, not only for those in [-perturb, perturb].
- `ScenarioDraws` holds the Poisson, normal and uniform samples of the scenarios.

Modules, one per file:
- `Common`: sums, matrices, Python's `round`, results and errors, and a loop whose first raising round ends it.
- `Partition`: `_random_integer_partition`, as a function and as imperative methods.
- `RowShaping`: sparsity, forced fill, perturbation.
- `Synthesis`: the row loop of `_generate_authentic_matrix`, onboard offsets, and the shape and row-sum properties.
- `Argsort` and `LegacySynthesis`: the legacy loop as written, the corrected one, and the counterexample.
- `Shares`: share processing and mean TEU size.
- `Cargo`: both cargo-type lists.
- `Scenarios`: `_generate`.
- `Moments`: the generic `_generate_moments` and `__call__`.
- `Generator` and `LegacyGenerator`: the two classes.

## Model

| member | source | states |
|---|---|---|
| Partition.RandomIntegerPartition | StochasticModel/authentic_generator_np.py:139-159 | the result is a composition of `max(0, v)` into `max(1, b)` non-negative parts; `b <= 1` gives `[max(0, v)]` |
| Partition.ZeroTotalGivesZeroParts | StochasticModel/authentic_generator_np.py:139-159 | a non-positive `v` gives all-zero parts |
| Partition.PartsBoundedByTotal | StochasticModel/authentic_generator_np.py:139-159 | every part lies in [0, max(0, v)] |
| Partition.Compose | StochasticModel/authentic_generator_np.py:145-159 | the gaps between the sorted first `b - 1` shuffled cut points form a composition of `v` into `b` parts |
| Partition.Cuts | StochasticModel/authentic_generator_np.py:149-153 | the sorted cut points are strictly increasing, lie in [1, v + b - 1], and number `b - 1` |
| Partition.CutsOfShuffle | StochasticModel/authentic_generator_np.py:149-153 | the first `b - 1` shuffled positions are distinct, and sorting them gives the cut points |
| Partition.ShuffledKeepsDistinct | StochasticModel/authentic_generator_np.py:149-152 | every prefix of the partial Fisher–Yates shuffle keeps the positions distinct and in range |
| Partition.SortDistinct | StochasticModel/authentic_generator_np.py:153 | `sorted` of distinct values is a strictly increasing permutation of them |
| Partition.GapsOfIncreasingCuts | StochasticModel/authentic_generator_np.py:154-157 | gaps of strictly increasing cuts in [1, v + b - 1] are non-negative and sum to `v` |
| Partition.CutsOfComposition | StochasticModel/authentic_generator_np.py:154-157 | every composition of `v` into `b >= 2` parts has strictly increasing cut points in [1, v + b - 1] whose gaps give it back |
| Partition.ShuffleBringsToFront | StochasticModel/authentic_generator_np.py:149-152 | any `i` distinct values of the list can be put, in any order, into its first `i` places by `i` valid shuffle steps |
| Partition.CutsReachable | StochasticModel/authentic_generator_np.py:149-153 | any `b - 1` strictly increasing cut points in [1, v + b - 1] are the sorted cut points of some valid choice of swaps |
| Partition.CompositionReachable | StochasticModel/authentic_generator_np.py:139-159 | every composition of `max(0, v)` into `max(1, b)` parts is the result for some valid choice of the `randint` draws |
| Partition.ShuffleInPlace | StochasticModel/authentic_generator_np.py:149-152 | the in-place swap loop computes the functional shuffle |
| Partition.SamplePartition | StochasticModel/authentic_generator_np.py:139-159 | the imperative partition computes `RandomIntegerPartition` |
| RowShaping.PartitionSwaps | StochasticModel/authentic_generator_np.py:150-151 | the `randint(i, v + b - 2)` draws are valid swap indices |
| RowShaping.Sparsify | StochasticModel/authentic_generator_np.py:283-285 | each part is kept or zeroed; non-negativity is kept and the sum never grows |
| RowShaping.FillIfEmpty | StochasticModel/authentic_generator_np.py:305-309 | a row with a positive sum, or a volume of 0, is unchanged; an all-zero row with positive volume gets all of it in the drawn column and zeros elsewhere |
| RowShaping.Perturb | StochasticModel/authentic_generator_np.py:311-315 | non-positive entries are untouched, non-negative rows stay non-negative, and `perturb <= 0` leaves the row unchanged |
| RowShaping.SynthesizeRow | StochasticModel/authentic_generator_np.py:279-315 | the written row has one non-negative part per destination |
| RowShaping.SparsifyWithoutSparsity | StochasticModel/authentic_generator_np.py:283-285 | with sparsity `<= 0`, no part is cleared |
| RowShaping.SparsifyWithFullSparsity | StochasticModel/authentic_generator_np.py:283-285 | with sparsity `>= 1`, every part is cleared |
| RowShaping.RowKeepsVolume | StochasticModel/authentic_generator_np.py:279-317 | without sparsity and perturbation, the row is the partition and sums to `v` |
| RowShaping.RowVolumeAtMost | StochasticModel/authentic_generator_np.py:283-315 | without perturbation, the row never holds more than `v` |
| RowShaping.ZeroVolumeRow | StochasticModel/authentic_generator_np.py:279-315 | a zero volume gives a zero row |
| RowShaping.ClearedRowGoesToOneColumn | StochasticModel/authentic_generator_np.py:287-315 | whenever the coins clear every part of a row with `v > 0`, every column but the drawn one stays 0 under any perturbation, and the drawn column holds `v` perturbed (exactly `v` when `perturb <= 0`) |
| Synthesis.DestStartAfterOrigin | StochasticModel/authentic_generator_np.py:264 | for every loading row, the first destination lies after the row |
| Synthesis.OnboardCounts | StochasticModel/authentic_generator_np.py:245-261 | no offsets gives zeros; a list must have one entry per loading row, or it raises with both lengths; the dict form gives per-row sums |
| Synthesis.CargoCounts | StochasticModel/authentic_generator_np.py:248-256 | the dict form sums `arr[i, i+1:]` over all cargo types for each row, and fails at the first row some matrix lacks |
| Synthesis.RowVolume | StochasticModel/authentic_generator_np.py:269-277 | the volume is `max(target - assigned_so_far - onboard, 0)` |
| Synthesis.PassRow | StochasticModel/authentic_generator_np.py:263-317 | one pass writes a non-negative row, zero before the first destination, that is the synthesised row of the pass's volume |
| Synthesis.RowsKeepPass | StochasticModel/authentic_generator_np.py:263-317 | later passes never change a row already written |
| Synthesis.BuildShaped | StochasticModel/authentic_generator_np.py:236-317 | the matrix is square and non-negative, and nonzero only in loading rows from their first destination on |
| Synthesis.AuthenticMatrix | StochasticModel/authentic_generator_np.py:225-319 | it raises for a target list of the wrong length, then for bad onboard offsets; otherwise it gives a square, non-negative, strictly upper-triangular matrix confined to the loading rows |
| Synthesis.ConfinedIsStrictlyUpper | StochasticModel/authentic_generator_np.py:263-267 | a matrix confined to loading rows from their first destinations on is strictly upper triangular |
| Synthesis.RowSumWithinVolume | StochasticModel/authentic_generator_np.py:270-317 | each row holds at most its volume when the synthesiser never overshoots, and exactly its volume when it keeps volume |
| Synthesis.AuthenticRowSum | StochasticModel/authentic_generator_np.py:247-317 | without perturbation, row `i` holds at most `max(target_i - assigned_so_far - onboard_i, 0)`, and exactly that without sparsity either |
| Synthesis.AuthenticNoDemand | StochasticModel/authentic_generator_np.py:263-317 | non-positive targets with non-negative offsets give the zero matrix |
| Argsort.ArgsortDesc | authentic_generator_np.py:201 | `argsort(-frac)` gives a permutation of the indices, by decreasing key, with ties in index order |
| Argsort.ArgsortHeadIsMax | authentic_generator_np.py:201 | the first index has a largest key |
| Argsort.ArgsortHeadIsFirstMax | authentic_generator_np.py:201 | among several largest keys the lowest index comes first, the tie order the model fixes |
| LegacySynthesis.WrittenRow | authentic_generator_np.py:187-217 | the row is written at its own index unless the rescaled parts overshoot `v`; then it goes to `idx[-1]`, an index below `b` |
| LegacySynthesis.OvershootByOneGoesToLargest | authentic_generator_np.py:198-204 | an overshoot of one sends the row to a position whose rounding overshoot is largest |
| LegacySynthesis.ExactPartitionStays | authentic_generator_np.py:187-204 | a partition that already sums to `v` is written at its own row |
| LegacySynthesis.TiedOvershootsStayInPlace | authentic_generator_np.py:188-217 | `[4, 1, 1, 0]` with volume 10 rescales to `[7, 2, 2, 0]`, and its three exactly tied overshoots leave the row at its own index |
| LegacySynthesis.LegacyMatrix | authentic_generator_np.py:149-219 | the legacy builder as written raises only for a target list of the wrong length, and otherwise gives a square matrix with no negative entry |
| LegacySynthesis.CorrectedLegacyMatrix | authentic_generator_np.py:149-219 | the builder with each row at its own index raises as the legacy builder does; otherwise its matrix is non-negative, confined to the loading rows and strictly upper triangular, and equals the current builder without offsets |
| LegacySynthesis.LegacyWithoutSparsity | authentic_generator_np.py:182-204 | without sparsity, the legacy builder as written equals the corrected one |
| LegacySynthesis.LegacyRowSum | authentic_generator_np.py:174-217 | without sparsity and perturbation, row `i` sums to `max(target_i - assigned_so_far, 0)` |
| LegacySynthesis.ZeroVolumeStep | authentic_generator_np.py:168-217 | a pass with zero volume writes zeros into its own row and changes no other entry |
| LegacySynthesis.LegacyMisplacesRow | authentic_generator_np.py:198-217 | on a concrete five-port voyage, the first port's row lands in row 2, booking a container below the diagonal |
| LegacySynthesis.CorrectedKeepsRow | authentic_generator_np.py:217 | on the same voyage, the corrected builder keeps that row in row 0 |
| Shares.RawShares | StochasticModel/authentic_generator_np.py:114-121 | the default is uniform; a dict is read per cargo type with a default of 0; a list of the wrong length raises with both lengths |
| Shares.ClampShares | StochasticModel/authentic_generator_np.py:124 | negative shares become 0 and the others are kept |
| Shares.Normalise | StochasticModel/authentic_generator_np.py:124-126 | the shares are non-negative and sum to 1: proportional to the clamped shares when their sum is positive, otherwise all equal |
| Shares.NothingPositiveLeft | StochasticModel/authentic_generator_np.py:124-126 | the clamped sum is 0 exactly when no share is positive |
| Shares.ProcessShares | StochasticModel/authentic_generator_np.py:113-126 | it raises only for a list of the wrong length; otherwise the shares are non-negative and sum to 1 |
| Shares.UniformByDefault | StochasticModel/authentic_generator_np.py:114-115 | with no shares given, every type gets `1 / K` |
| Shares.MeanTeuBounds | StochasticModel/authentic_generator_np.py:128-130 | the mean TEU size of normalised shares lies in [1, 2] |
| Cargo.CargoTypesDistinct | StochasticModel/authentic_generator_np.py:100-107 | the 28 cargo types are distinct, so the dicts keyed by them have 28 entries |
| Cargo.TeuOf | StochasticModel/authentic_generator_np.py:129 | the TEU size is 1 exactly for a 20ft type, and 2 otherwise |
| Cargo.LegacyCargoTypes | authentic_generator_np.py:81-98 | 12 dry types, plus 2 reefers when included; reefers come last and are 40ft medium; the first six are 20ft |
| Cargo.LegacyCargoTypesComplete | authentic_generator_np.py:81-86 | every dry combination of size, weight and revenue is listed |
| Cargo.LegacyCargoTypesDistinct | authentic_generator_np.py:81-98 | the legacy cargo types are distinct |
| Scenarios.NormalEntry | StochasticModel/authentic_generator_np.py:383-393 | a normal draw is clipped at 0 and truncated, so the entry is non-negative and within 1 of the draw |
| Scenarios.UniformEntry | StochasticModel/authentic_generator_np.py:385-393 | a rounded uniform draw on [0, 2 * mean] lies between 0 and `2 * mean` |
| Scenarios.DrawMatrix | StochasticModel/authentic_generator_np.py:377-393 | an unknown name raises; Poisson raises exactly for a negative mean; normal raises for a missing or negative scale; uniform never raises; the results have the mean's shape and are non-negative except for uniform |
| Scenarios.Scenario | StochasticModel/authentic_generator_np.py:376-393 | one scenario fails exactly when one of its draws fails, with that draw's error, and with the first item's error when that draw fails; otherwise it is keyed exactly like the expected dict and holds each key's draw |
| Scenarios.ScenariosSucceed | StochasticModel/authentic_generator_np.py:374-396 | the loop over `n` scenarios succeeds exactly when every draw of every scenario does |
| Scenarios.ScenariosRealise | StochasticModel/authentic_generator_np.py:374-396 | a successful loop gives `n` scenarios, each keyed exactly like the expected dict and holding each key's draw for that scenario |
| Scenarios.ScenariosRaise | StochasticModel/authentic_generator_np.py:374-396 | a failing loop fails with some draw's error, and with the first draw's error when that draw fails |
| Scenarios.Generate | StochasticModel/authentic_generator_np.py:347-396 | `max(n, 0)` scenarios keyed like the expected dict; an unknown distribution raises once a draw is attempted; any error is some draw's |
| Scenarios.GenerateDraws | StochasticModel/authentic_generator_np.py:375-394 | each scenario entry is the draw for its scenario and cargo type |
| Scenarios.GenerateSucceeds | StochasticModel/authentic_generator_np.py:375-394 | when every draw succeeds, so does `_generate` |
| Moments.StdOf | StochasticModel/authentic_generator_np.py:343 | the standard deviation is `cv_demand` times the expected matrix entrywise; it is never negative for a non-negative factor and matrix |
| Common.RunUpTo | StochasticModel/authentic_generator_np.py:329-341 | a loop whose rounds may raise succeeds exactly when every round does, with one value per round in order; otherwise it fails with the error of the first round that raises |
| Moments.MomentsOf | StochasticModel/authentic_generator_np.py:321-344 | one expected matrix per cargo type in order, the first build error otherwise, and a standard deviation for every type |
| Moments.CallWith | StochasticModel/authentic_generator_np.py:132-136 | `__call__` returns the moments and five scenarios, raising as the moments do, then for an unknown distribution |
| Moments.CallSucceeds | StochasticModel/authentic_generator_np.py:377-393 | with a known distribution, `cv_demand >= 0` and non-negative matrices, no draw raises |
| Generator.New | StochasticModel/authentic_generator_np.py:69-130 | onboard offsets together with the current port raise first, then a share list whose length is not 28; also fixes the start port, the middle-leg default `P // 2`, shares summing to 1, TEU sizes, and a mean TEU size in [1, 2] |
| Generator.LoadingPartition | StochasticModel/authentic_generator_np.py:187-195 | without perturbation, the row holds at most `max(v, 0)`, and exactly that without sparsity either |
| Generator.LoadingRow | StochasticModel/authentic_generator_np.py:187-219 | the row is non-negative; a distribution outside the five sampled ones keeps it as it is |
| Generator.LoadingEntry | StochasticModel/authentic_generator_np.py:176-221 | only row `current_port - 1`, from its first destination on, can be nonzero; the bounds on the row sum carry over |
| Generator.LoadingList | StochasticModel/authentic_generator_np.py:162-222 | one matrix per cargo type, in order; all zero when only loading from the middle leg on; otherwise only row `current_port - 1` can be nonzero, and reading a target past the list raises |
| Generator.SliceStart | StochasticModel/authentic_generator_np.py:338-339 | numpy's slice `s:`: a start in range is kept, a negative one counts from the end, and the result never passes the end |
| Generator.Mask | StochasticModel/authentic_generator_np.py:333-339 | entries with both indices at or past the slice start are kept, and all others are zero |
| Generator.MaskAtZero | StochasticModel/authentic_generator_np.py:338-339 | a start of 0 keeps the whole matrix |
| Generator.MaskKeepsLaterRows | StochasticModel/authentic_generator_np.py:338-339 | rows at or past the start of a matrix confined to loading rows are kept whole |
| Generator.BlockMatrix | StochasticModel/authentic_generator_np.py:331-340 | it raises as the builder does; otherwise it is square, non-negative, strictly upper triangular and zero outside the block, with the builder's rows from the start row on |
| Generator.BlockRowSum | StochasticModel/authentic_generator_np.py:263-280 | a block row holds at most `max(target - assigned_so_far - onboard, 0)` without perturbation, and exactly that without sparsity either |
| Generator.MomentsWith | StochasticModel/authentic_generator_np.py:321-344 | it raises exactly when the builder does; otherwise 28 block-shaped matrices keyed by cargo type in order, with standard deviations `cv_demand` times them |
| Generator.GenerateMoments | StochasticModel/authentic_generator_np.py:321-344 | each cargo type's expected matrix is its block matrix |
| Generator.CallOn | StochasticModel/authentic_generator_np.py:132-136 | the moments and five scenarios; it raises as the moments do, then for an unknown distribution |
| Generator.Call | StochasticModel/authentic_generator_np.py:132-136 | the moments are `_generate_moments`' and there are five scenarios; it raises as the moments do, and otherwise for an unknown distribution |
| Generator.CallRaisesOnlyInMoments | StochasticModel/authentic_generator_np.py:374-393 | with a known distribution and `cv_demand >= 0`, `__call__` raises exactly when the moments do |
| LegacyGenerator.New | authentic_generator_np.py:22-117 | it raises only for a share list whose length is not 14 with reefers or 12 without; also fixes the middle-leg default `P // 2`, shares summing to 1, TEU sizes, and a mean TEU size in [1, 2] |
| LegacyGenerator.MomentsWith | authentic_generator_np.py:221-238 | over any builder that behaves as the legacy builder as written: it raises exactly for a target list of the wrong length; otherwise one square non-negative matrix per cargo type in order, confined to the loading rows and strictly upper triangular when sparsity is off, with standard deviations `cv_demand` times them |
| LegacyGenerator.GenerateMoments | authentic_generator_np.py:221-238 | it raises exactly for a target list of the wrong length; otherwise cargo type `k`'s expected matrix is the legacy matrix as written for its targets |
| LegacyGenerator.LegacyBuilder | authentic_generator_np.py:229-233 | the builder `_generate_moments` calls, the legacy matrix as written for each cargo type, raises exactly for the wrong target length, gives square non-negative matrices, and without sparsity shaped strictly upper-triangular ones |
| LegacyGenerator.AsWrittenWithoutSparsity | authentic_generator_np.py:229-233 | without sparsity, the expected matrices the legacy generator builds are those of the corrected builder, which writes every row at its own index |
| LegacyGenerator.CallOn | authentic_generator_np.py:119-123 | over any builder that behaves as the legacy builder as written: the moments and five scenarios; it raises as the moments do, then for an unknown distribution |
| LegacyGenerator.Call | authentic_generator_np.py:119-123 | with the legacy builder as written, the moments are `_generate_moments`' and there are five scenarios; a target list of the wrong length raises, and otherwise an unknown distribution raises |
| LegacyGenerator.CallRaisesOnlyInMoments | authentic_generator_np.py:268-286 | with a known distribution and `cv_demand >= 0`, `__call__` raises exactly when the moments do |

## Left out

- Float arithmetic of targets and capacities is not modelled: `round(target_utils[i] * C)`, `C_k = round(C * share) / mean_teu`, and the `int(C)` truncation inside the matrix builder. Each cargo type and row instead gets an integer volume (`Targets.volume`, `Settings.loadingVolume`).
- Random number generation and seeding (`random.*`, `np.random.*`, the reseeding in `__init__` and `_generate`) are not modelled. Every draw is an explicit input constrained to its library range, so the order in which the source consumes the global generator is not modelled either.
- The distribution samplers are not modelled. The loading list's distribution step (poisson, neg_binomial, lognormal, normal, uniform) is an oracle that keeps a non-negative row non-negative and its length unchanged. The scenario draws are sample oracles. Only the clipping, rounding and error branches around them are modelled.
- The renormalised `scaled` array of the current generator is computed and never used. It has no effect on the result, so it is not modelled. Without sparsity or perturbation the row sums to its volume because the partition does, not because of `scaled`.
- Generator.LoadingList requires `current_port >= 1`: with `current_port = 0`, numpy's negative row index `-1` is not modelled.
- Negative port counts: the `ports` field of Synthesis.Voyage, Generator.Settings and LegacyGenerator.LegacySettings is a `nat`. With a negative `P`, `np.zeros((P, P))` raises `ValueError` (StochasticModel/authentic_generator_np.py:236, authentic_generator_np.py:159) before the target-length check, and that error path is not modelled.
- Fractional onboard values: Synthesis.Onboard holds integers. The truncations `int(x)` of each onboard count (StochasticModel/authentic_generator_np.py:261) and `int(np.sum(...))` of each onboard row (StochasticModel/authentic_generator_np.py:255) are therefore not modelled for fractional onboard values.
- Matrix entries are unbounded `int`. The source's `dtype=int` arrays hold 64-bit integers, and their overflow is not modelled.
- Onboard matrices in the dict form are assumed two-dimensional, with rows given as sequences. numpy broadcasting and shape errors other than a missing row are not modelled.
- Argsort.ArgsortDesc: orders tied keys by index, which is one fixed choice. numpy leaves the order of ties implementation-defined: the default `argsort` kind is not stable, and numpy 1.25 and later sort with SIMD code on AVX-512 machines.
- LegacySynthesis.WrittenRow: the rescaled parts `x * v / s` and the overshoots `frac` are exact reals here, while the source computes them in float64, so rounding error can order overshoots that are mathematically equal and move the row elsewhere. Take `P = 5`, not loading-only, row 0, `v = 10`, and the partition `[4, 1, 1, 4]`, whose last coin clears it to `[4, 1, 1, 0]`; it rescales to `[7, 2, 2, 0]` with `diff = -1`. The exact overshoots are `1/3, 1/3, 1/3, 0`, so the model keeps the row at row 0 (LegacySynthesis.TiedOvershootsStayInPlace). In float64, `frac` comes to about `[0.33333333333333304, 0.33333333333333326, 0.33333333333333326, 0.0]`, so numpy puts index 1 or 2 first and authentic_generator_np.py:217 writes row 0 into row 1 or 2. Among overshoots that are equal in the model, the model takes index order (Argsort.ArgsortDesc).
- LegacyGenerator.MomentsWith, LegacyGenerator.GenerateMoments and LegacyGenerator.Call use the legacy builder as written, which may write a row into another row's place, so they promise square non-negative matrices for any sparsity. They promise the block shape and the zero lower triangle only when sparsity is off (LegacyGenerator.BuildsLegacy). LegacySynthesis.CorrectedLegacyMatrix, which writes each row at its own index, is only the corrected half of the finding below.
- Generator.CallRaisesOnlyInMoments and LegacyGenerator.CallRaisesOnlyInMoments are stated for any builder with the generator's shape guarantees, not only for the generator's own builder.
- The `seed` argument of `_generate` is not modelled, and neither is `n_scenarios` other than 5 in `__call__`. Scenarios.Generate takes any `n`.
- The `__main__` demo blocks only print and are not modelled. Neither are the repository's other files: the data-generation scripts, the log scraper and the solver examples.

## Findings

| source | as written | input that shows it | evidently intended | confidence | as-written member | corrected member |
|---|---|---|---|---|---|---|
| authentic_generator_np.py:202-217 | the renormalisation loop `for i in idx` rebinds the row index `i`; when the rounded rescaled parts overshoot the volume, `T[i, dest_start:]` writes the row into row `idx[-1]` | `P = 5`, middle leg 2, not loading-only, sparsity 0.5, no perturbation, targets `[11, 0, 0, 0]`; swaps 1, 4, 8 give the partition `[1, 2, 3, 5]`; the coin of the fourth destination sparsifies it to `[1, 2, 3, 0]`, which rescales to `[2, 4, 6, 0]` with `diff = -1`; the largest overshoot is at index 2, so the first port's row `[1, 2, 3, 0]` lands in row 2, with `T[2][1] = 1` below the diagonal and row 0 empty | the row is written at its own index, as the current generator does by naming the inner variable `i2` | high (proved on the model; not executed) | LegacySynthesis.LegacyMisplacesRow | LegacySynthesis.CorrectedKeepsRow |
