/**
  The current `DemandGenerator`: its 28 cargo types, the constructor's checks,
  the single-port loading list, the expected matrices restricted to the block
  from the start port on, and `__call__`.
 */
module Generator {
  import opened Common
  import opened Partition
  import opened RowShaping
  import opened Synthesis
  import opened Shares
  import opened Scenarios
  import opened Moments
  import opened Cargo

  /**
    The constructor's arguments. The float targets and capacity are replaced by
    integer volumes: `targets` gives `_generate_moments`' volume of each cargo
    type and loading row, and `loadingVolume(k, pol)` is the volume
    `int(round(target_utils[pol] * C_k))` the loading list uses.
   */
  datatype Settings = Settings(
    ports: nat,
    targets: Targets,
    loadingVolume: (nat, nat) -> int,
    currentPort: int,
    includeCurrentPort: bool,
    onboard: Onboard,
    middleLeg: Option<int>,
    loadingOnly: bool,
    sparsity: real,
    perturb: real,
    shares: ShareSpec<CargoType>,
    distribution: string,
    cv: real)

  /** A constructed generator: the settings the methods read, with the start port, shares and TEU sizes derived. */
  datatype Generator = Generator(
    vo: Voyage,
    cargoTypes: seq<CargoType>,
    targets: Targets,
    loadingVolume: (nat, nat) -> int,
    currentPort: int,
    startPort: int,
    onboard: Onboard,
    shares: seq<real>,
    teu: seq<nat>,
    meanTeu: real,
    distribution: string,
    cv: real)

  /**
    `__init__`: onboard cargo together with the current port raises first, then a
    share list of the wrong length. The start port is the current port less one
    when the current port is included, the middle leg defaults to `P // 2`, and
    the shares are non-negative and sum to one, so the mean TEU size lies in [1, 2].
   */
  function New(s: Settings): (r: Result<Generator>)
    ensures r.Err? <==> (s.onboard != NoOnboard && s.includeCurrentPort) || (s.shares.ByIndex? && |s.shares.list| != 28)
    ensures s.onboard != NoOnboard && s.includeCurrentPort ==> r == Err(OnboardWithCurrentPort)
    ensures !(s.onboard != NoOnboard && s.includeCurrentPort) && r.Err? ==> r.error == ShareLengthMismatch(28, |s.shares.list|)
    ensures r.Ok? ==> r.value.startPort == if s.includeCurrentPort then s.currentPort - 1 else s.currentPort
    ensures r.Ok? ==> r.value.vo.middleLeg == if s.middleLeg.Some? then s.middleLeg.value else s.ports / 2
    ensures r.Ok? ==> r.value.vo == Voyage(s.ports, r.value.vo.middleLeg, s.loadingOnly, s.sparsity, s.perturb)
    ensures r.Ok? ==> |r.value.shares| == 28 && RealSum(r.value.shares) == 1.0
    ensures r.Ok? ==> forall k :: 0 <= k < 28 ==> r.value.shares[k] >= 0.0
    ensures r.Ok? ==> r.value.cargoTypes == CargoTypes() && Valid(r.value)
    ensures r.Ok? ==> |r.value.teu| == 28 && forall k :: 0 <= k < 28 ==> r.value.teu[k] == if r.value.cargoTypes[k].size == Twenty then 1 else 2
    ensures r.Ok? ==> 1.0 <= r.value.meanTeu <= 2.0
  {
    if s.onboard != NoOnboard && s.includeCurrentPort then Err(OnboardWithCurrentPort)
    else
      match ProcessShares(s.shares, CargoTypes())
      case Err(e) => Err(e)
      case Ok(shares) =>
        var teu := TeuOf(CargoTypes(), (t: CargoType) => t.size);
        MeanTeuBounds(shares, teu);
        var startPort := if s.includeCurrentPort then s.currentPort - 1 else s.currentPort;
        var middleLeg := if s.middleLeg.Some? then s.middleLeg.value else s.ports / 2;
        CargoTypesDistinct();
        Ok(Generator(Voyage(s.ports, middleLeg, s.loadingOnly, s.sparsity, s.perturb), CargoTypes(), s.targets, s.loadingVolume,
                     s.currentPort, startPort, s.onboard, shares, teu, MeanTeu(shares, teu), s.distribution, s.cv))
  }

  /** What every constructed generator satisfies: 28 distinct cargo types. */
  predicate Valid(g: Generator)
  {
    |g.cargoTypes| == 28 && DistinctSeq(g.cargoTypes)
  }

  // ---------- The loading list ----------

  /**
    The distribution step of the loading list for cargo type `k`: any row of the
    same length. The samplers are left to an oracle; all of them keep a
    non-negative row non-negative.
   */
  type RowSampler = (nat, seq<int>) -> seq<int>

  ghost predicate ValidRowSampler(sample: RowSampler)
  {
    forall k: nat, p: seq<int> :: NonNegative(p) ==> |sample(k, p)| == |p| && NonNegative(sample(k, p))
  }

  /** The distributions the loading list samples from; under any other name the row is kept as it is. */
  predicate SampledInLoadingList(dist: string)
  {
    dist == "poisson" || dist == "neg_binomial" || dist == "lognormal" || dist == "normal" || dist == "uniform"
  }

  /**
    The loading list's row before the distribution step: the partition of `v`,
    sparsified and perturbed, with no fallback for a cleared row. It never holds
    more than `max(v, 0)` without perturbation, and exactly that without sparsity
    either.
   */
  function LoadingPartition(v: int, b: nat, d: RowDraws, sparsity: real, perturb: real): (row: seq<int>)
    requires b >= 1 && ValidDraws(d)
    ensures |row| == b && NonNegative(row)
    ensures perturb <= 0.0 ==> Sum(row) <= ClampTotal(v)
    ensures sparsity <= 0.0 && perturb <= 0.0 ==> Sum(row) == ClampTotal(v)
  {
    var partition := RandomIntegerPartition(v, b, PartitionSwaps(d, ClampTotal(v), b));
    var sparse := Sparsify(partition, d.coin, sparsity);
    assert sparsity <= 0.0 ==> sparse == partition by {
      if sparsity <= 0.0 {
        SparsifyWithoutSparsity(partition, d.coin, sparsity);
      }
    }
    Perturb(sparse, d.noise, perturb)
  }

  /** The row of cargo type `k` after the distribution step. */
  function LoadingRow(g: Generator, k: nat, v: int, b: nat, d: RowDraws, sample: RowSampler): (row: seq<int>)
    requires b >= 1 && ValidDraws(d) && ValidRowSampler(sample)
    ensures |row| == b && NonNegative(row)
    ensures !SampledInLoadingList(g.distribution) ==> row == LoadingPartition(v, b, d, g.vo.sparsity, g.vo.perturb)
  {
    var kept := LoadingPartition(v, b, d, g.vo.sparsity, g.vo.perturb);
    if SampledInLoadingList(g.distribution) then sample(k, kept) else kept
  }

  /** The port of loading the list is for: the current port, 1-based. */
  function Pol(g: Generator): int
  {
    g.currentPort - 1
  }

  /** The loading list is empty outright: only loading, and the current port is past the loading ports. */
  predicate NothingToLoad(g: Generator)
  {
    g.vo.loadingOnly && g.currentPort >= g.vo.middleLeg
  }

  /** The row of the loading list has destinations. */
  predicate HasDestinations(g: Generator)
  {
    g.vo.ports - DestStart(g.vo, Pol(g)) > 0
  }

  /** A loading-list matrix: nonzero entries only in row `pol`, from its first destination on. */
  predicate LoadsOnlyAt(g: Generator, m: Matrix)
  {
    IsSquare(m, g.vo.ports) && NonNegativeMatrix(m)
    && forall r, c :: 0 <= r < |m| && 0 <= c < |m[r]| && m[r][c] != 0 ==> r == Pol(g) && DestStart(g.vo, Pol(g)) <= c
  }

  /** `mat` with `mat[pol, dest_start:] = row`: zero except for the list's row, which sums to what `row` does. */
  function LoadingMatrix(g: Generator, row: seq<int>): (m: Matrix)
    requires g.currentPort >= 1 && !NothingToLoad(g) && HasDestinations(g)
    requires |row| == g.vo.ports - DestStart(g.vo, Pol(g)) && NonNegative(row)
    ensures LoadsOnlyAt(g, m) && StrictlyUpper(m)
    ensures 0 <= Pol(g) < g.vo.ports && Sum(m[Pol(g)]) == Sum(row)
  {
    var n := g.vo.ports;
    var pol: nat := Pol(g);
    var ds: nat := DestStart(g.vo, pol);
    WriteRowOnZeros(n, pol, ds, row);
    WriteRow(ZeroMatrixOf(n), pol, ds, row)
  }

  /**
    The loading-list matrix of cargo type `k`, once the list's row has
    destinations and a target. Without perturbation or a distribution step its
    row holds at most `max(v, 0)` for the row's volume `v`, and exactly that
    without sparsity either.
   */
  function LoadingEntry(g: Generator, k: nat, d: RowDraws, sample: RowSampler): (m: Matrix)
    requires g.currentPort >= 1 && !NothingToLoad(g) && HasDestinations(g) && Pol(g) < g.targets.count
    requires ValidDraws(d) && ValidRowSampler(sample)
    ensures LoadsOnlyAt(g, m) && StrictlyUpper(m)
    ensures 0 <= Pol(g) < g.vo.ports
    ensures g.vo.perturb <= 0.0 && !SampledInLoadingList(g.distribution) ==>
              Sum(m[Pol(g)]) <= ClampTotal(g.loadingVolume(k, Pol(g)))
              && (g.vo.sparsity <= 0.0 ==> Sum(m[Pol(g)]) == ClampTotal(g.loadingVolume(k, Pol(g))))
  {
    var pol: nat := Pol(g);
    LoadingMatrix(g, LoadingRow(g, k, g.loadingVolume(k, pol), g.vo.ports - DestStart(g.vo, pol), d, sample))
  }

  /** The matrices of the loading list in cargo-type order, when reading the target does not raise. */
  function LoadingMatrices(g: Generator, draws: nat -> RowDraws, sample: RowSampler): (ms: seq<Matrix>)
    requires g.currentPort >= 1 && (forall k: nat :: ValidDraws(draws(k))) && ValidRowSampler(sample)
    requires NothingToLoad(g) || !HasDestinations(g) || Pol(g) < g.targets.count
    ensures |ms| == 28 && forall k :: 0 <= k < 28 ==> LoadsOnlyAt(g, ms[k]) && StrictlyUpper(ms[k])
    ensures NothingToLoad(g) || !HasDestinations(g) ==> forall k :: 0 <= k < 28 ==> ZeroMatrix(ms[k])
    ensures !NothingToLoad(g) && HasDestinations(g) ==> forall k :: 0 <= k < 28 ==> ms[k] == LoadingEntry(g, k, draws(k), sample)
  {
    if NothingToLoad(g) || !HasDestinations(g) then
      var z := ZeroMatrixOf(g.vo.ports);
      assert LoadsOnlyAt(g, z) && StrictlyUpper(z);
      seq(28, _ => z)
    else
      var ms := seq(28, k requires 0 <= k < 28 => LoadingEntry(g, k, draws(k), sample));
      assert forall k :: 0 <= k < 28 ==> ms[k] == LoadingEntry(g, k, draws(k), sample);
      ms
  }

  /**
    `generate_loading_list`: one P x P matrix per cargo type, in cargo-type order.
    All are zero when only loading and the current port is at or past the middle
    leg; otherwise only row `current_port - 1`, from its first destination on,
    can be nonzero. A row with destinations reads `target_utils[pol]`, which
    raises when `pol` is past the end of the list.
   */
  function LoadingList(g: Generator, draws: nat -> RowDraws, sample: RowSampler): (r: Result<seq<(CargoType, Matrix)>>)
    requires Valid(g) && g.currentPort >= 1 && (forall k: nat :: ValidDraws(draws(k))) && ValidRowSampler(sample)
    ensures r.Err? <==> !NothingToLoad(g) && HasDestinations(g) && Pol(g) >= g.targets.count
    ensures r.Err? ==> r.error == TargetIndexOutOfRange(Pol(g))
    ensures r.Ok? ==> |r.value| == 28 && forall k :: 0 <= k < 28 ==> r.value[k].0 == g.cargoTypes[k]
    ensures r.Ok? ==> forall k :: 0 <= k < 28 ==> LoadsOnlyAt(g, r.value[k].1) && StrictlyUpper(r.value[k].1)
    ensures r.Ok? && (NothingToLoad(g) || !HasDestinations(g)) ==> forall k :: 0 <= k < 28 ==> ZeroMatrix(r.value[k].1)
    ensures r.Ok? && !NothingToLoad(g) && HasDestinations(g) ==> forall k :: 0 <= k < 28 ==> r.value[k].1 == LoadingEntry(g, k, draws(k), sample)
  {
    if !NothingToLoad(g) && HasDestinations(g) && Pol(g) >= g.targets.count then Err(TargetIndexOutOfRange(Pol(g)))
    else Ok(Keyed(g.cargoTypes, LoadingMatrices(g, draws, sample)))
  }

  // ---------- The moments ----------

  /** Where numpy's slice `s:` of an axis of length `n` starts: a negative start counts from the end. */
  function SliceStart(s: int, n: nat): (lo: nat)
    ensures lo <= n
    ensures 0 <= s <= n ==> lo == s
    ensures s < 0 ==> lo == if n + s < 0 then 0 else n + s
  {
    if s < 0 then (if n + s < 0 then 0 else n + s) else if s > n then n else s
  }

  /**
    `full_matrix[s:, s:] = block_matrix[s:, s:]` on a zero matrix: the block from
    row and column `s` on is kept and everything else is zero.
   */
  function Mask(m: Matrix, s: int): (m': Matrix)
    ensures |m'| == |m| && forall r :: 0 <= r < |m| ==> |m'[r]| == |m[r]|
    ensures forall r, c :: 0 <= r < |m| && 0 <= c < |m[r]| ==>
              m'[r][c] == if r >= SliceStart(s, |m|) && c >= SliceStart(s, |m|) then m[r][c] else 0
  {
    var lo := SliceStart(s, |m|);
    seq(|m|, r requires 0 <= r < |m| => seq(|m[r]|, c requires 0 <= c < |m[r]| => if r >= lo && c >= lo then m[r][c] else 0))
  }

  /** Masking at zero keeps the whole matrix. */
  lemma MaskAtZero(m: Matrix)
    ensures Mask(m, 0) == m
  {
    assert forall r :: 0 <= r < |m| ==> Mask(m, 0)[r] == m[r];
  }

  /** A row at or after the slice start of a matrix confined to its loading rows is kept whole. */
  lemma MaskKeepsLaterRows(vo: Voyage, T: Matrix, k: nat, s: int, r: nat)
    requires k <= LoadingRows(vo) && Confined(vo, T, k)
    requires SliceStart(s, |T|) <= r < |T|
    ensures Mask(T, s)[r] == T[r]
  {
    forall c | 0 <= c < |T[r]|
      ensures Mask(T, s)[r][c] == T[r][c]
    {
      if T[r][c] != 0 {
        DestStartAfterOrigin(vo, r);
      }
    }
  }

  /** The matrix builder's error, the same for every cargo type: a wrong target count, then unreadable onboard offsets. */
  predicate MomentsFail(g: Generator)
  {
    g.targets.count != LoadingRows(g.vo) || OnboardCounts(g.onboard, g.targets.count).Err?
  }

  function MomentsError(g: Generator): Error
    requires MomentsFail(g)
  {
    if g.targets.count != LoadingRows(g.vo) then TargetLengthMismatch(g.targets.count, LoadingRows(g.vo))
    else OnboardCounts(g.onboard, g.targets.count).error
  }

  /** Square, non-negative, strictly upper triangular, and zero outside the block from the start port on. */
  predicate BlockShaped(g: Generator, m: Matrix)
  {
    IsSquare(m, g.vo.ports) && NonNegativeMatrix(m) && StrictlyUpper(m)
    && forall i, c :: 0 <= i < g.vo.ports && 0 <= c < g.vo.ports && (i < SliceStart(g.startPort, g.vo.ports) || c < SliceStart(g.startPort, g.vo.ports)) ==>
         m[i][c] == 0
  }

  /**
    The expected matrix of cargo type `k`: the authentic matrix for its targets,
    kept only from the start port on. It raises as the matrix builder does, and
    otherwise is block shaped and equal to the builder's matrix from the start
    row on.
   */
  function BlockMatrix(g: Generator, k: nat, draws: nat -> RowDraws): (r: Result<Matrix>)
    requires forall i: nat :: ValidDraws(draws(i))
    ensures r.Err? <==> MomentsFail(g)
    ensures r.Err? ==> r.error == MomentsError(g)
    ensures r.Ok? ==> BlockShaped(g, r.value)
    ensures r.Ok? ==> forall i :: SliceStart(g.startPort, g.vo.ports) <= i < g.vo.ports ==>
              r.value[i] == AuthenticMatrix(g.vo, TargetRow(g.targets, k), g.onboard, draws).value[i]
  {
    match AuthenticMatrix(g.vo, TargetRow(g.targets, k), g.onboard, draws)
    case Err(e) => Err(e)
    case Ok(T) =>
      forall i | SliceStart(g.startPort, g.vo.ports) <= i < g.vo.ports
        ensures Mask(T, g.startPort)[i] == T[i]
      {
        MaskKeepsLaterRows(g.vo, T, g.targets.count, g.startPort, i);
      }
      Ok(Mask(T, g.startPort))
  }

  /**
    Row `i` at or after the start port of cargo type `k`'s expected matrix:
    without perturbation it holds at most `max(target - assigned_so_far -
    onboard, 0)`, and without sparsity exactly that, where `assigned_so_far`
    counts the earlier rows of the authentic matrix.
   */
  lemma BlockRowSum(g: Generator, k: nat, draws: nat -> RowDraws, i: nat)
    requires forall i: nat :: ValidDraws(draws(i))
    requires BlockMatrix(g, k, draws).Ok?
    requires SliceStart(g.startPort, g.vo.ports) <= i < g.targets.count
    requires g.vo.ports - DestStart(g.vo, i) > 0 && g.vo.perturb <= 0.0
    ensures 0 <= DestStart(g.vo, i) && i < g.vo.ports && |OnboardCounts(g.onboard, g.targets.count).value| == g.targets.count
    ensures var T := AuthenticMatrix(g.vo, TargetRow(g.targets, k), g.onboard, draws).value;
            var v := g.targets.volume(k, i) - BlockSum(T, i, DestStart(g.vo, i)) - OnboardCounts(g.onboard, g.targets.count).value[i];
            var row := BlockMatrix(g, k, draws).value[i];
            Sum(row) <= (if v < 0 then 0 else v)
            && (g.vo.sparsity <= 0.0 ==> Sum(row) == if v < 0 then 0 else v)
  {
    AuthenticRowSum(g.vo, TargetRow(g.targets, k), g.onboard, draws, i);
  }

  /** A builder that behaves as the block matrix builder does on every cargo type. */
  ghost predicate BuildsBlocks(g: Generator, build: Builder)
  {
    BuildsUpTo(build, 28)
    && forall k :: 0 <= k < 28 ==>
         (build(k).Err? <==> MomentsFail(g))
         && (build(k).Err? ==> build(k).error == MomentsError(g))
         && (build(k).Ok? ==> BlockShaped(g, build(k).value))
  }

  /** `_generate_moments`' builder: cargo type `k` gets its block matrix, drawn with its own draws. */
  function MomentBuilder(g: Generator, draws: nat -> nat -> RowDraws): (build: Builder)
    requires ValidMatrixDraws(draws)
    ensures BuildsBlocks(g, build)
    ensures forall k: nat :: build.requires(k) && build(k) == BlockMatrix(g, k, draws(k))
  {
    var build: Builder := (k: nat) requires forall i: nat :: ValidDraws(draws(k)(i)) => BlockMatrix(g, k, draws(k));
    assert forall k: nat :: build.requires(k) && build(k) == BlockMatrix(g, k, draws(k));
    build
  }

  /**
    `_generate_moments` over a block builder: it raises as the builder does;
    otherwise one block-shaped expected matrix per cargo type, in cargo-type
    order, and for each cargo type the standard deviations `cv_demand` times it.
   */
  function MomentsWith(g: Generator, build: Builder): (r: Result<MomentPair<CargoType>>)
    requires Valid(g) && BuildsBlocks(g, build)
    ensures r.Err? <==> MomentsFail(g)
    ensures r.Err? ==> r.error == MomentsError(g)
    ensures r.Ok? ==> |r.value.expected| == 28
    ensures r.Ok? ==> forall k :: 0 <= k < 28 ==> r.value.expected[k] == (g.cargoTypes[k], build(k).value)
    ensures r.Ok? ==> forall k :: 0 <= k < 28 ==> BlockShaped(g, r.value.expected[k].1)
    ensures r.Ok? ==> forall k :: 0 <= k < 28 ==> g.cargoTypes[k] in r.value.std && r.value.std[g.cargoTypes[k]] == StdOf(g.cv, r.value.expected[k].1)
  {
    var r := MomentsOf(g.cargoTypes, build, g.cv);
    assert MomentsFail(g) ==> build(0).Err?;
    r
  }

  /** `_generate_moments` with the generator's own builder: cargo type `k`'s expected matrix is its block matrix. */
  function GenerateMoments(g: Generator, draws: nat -> nat -> RowDraws): (r: Result<MomentPair<CargoType>>)
    requires Valid(g) && ValidMatrixDraws(draws)
    ensures r.Err? <==> MomentsFail(g)
    ensures r.Ok? ==> |r.value.expected| == 28 && forall k :: 0 <= k < 28 ==> r.value.expected[k].1 == BlockMatrix(g, k, draws(k)).value
  {
    MomentsWith(g, MomentBuilder(g, draws))
  }

  /**
    `__call__` over a block builder: the moments and five scenarios drawn from
    them. It raises as the moments do, and with moments in hand it raises at the
    first draw for an unknown distribution.
   */
  function CallOn(g: Generator, build: Builder, d: ScenarioDraws<CargoType>): (r: Result<(MomentPair<CargoType>, seq<map<CargoType, Matrix>>)>)
    requires Valid(g) && BuildsBlocks(g, build) && ValidScenarioDraws(d)
    ensures r.Ok? ==> MomentsWith(g, build) == Ok(r.value.0) && |r.value.1| == 5
    ensures MomentsFail(g) ==> r == Err(MomentsError(g))
    ensures !MomentsFail(g) && !KnownDistribution(g.distribution) ==> r == Err(UnknownDistribution(g.distribution))
  {
    CallWith(g.cargoTypes, build, g.cv, g.distribution, d)
  }

  /** `__call__` with the generator's own builder: its moments are `_generate_moments`' and there are five scenarios. */
  function Call(g: Generator, draws: nat -> nat -> RowDraws, d: ScenarioDraws<CargoType>): (r: Result<(MomentPair<CargoType>, seq<map<CargoType, Matrix>>)>)
    requires Valid(g) && ValidMatrixDraws(draws) && ValidScenarioDraws(d)
    ensures r.Ok? ==> GenerateMoments(g, draws) == Ok(r.value.0) && |r.value.1| == 5
    ensures MomentsFail(g) ==> r == Err(MomentsError(g))
    ensures !MomentsFail(g) && !KnownDistribution(g.distribution) ==> r == Err(UnknownDistribution(g.distribution))
  {
    CallOn(g, MomentBuilder(g, draws), d)
  }

  /**
    With a known distribution and a non-negative `cv_demand`, `__call__` raises
    only as the moments do: no Poisson mean and no normal standard deviation it
    draws with is negative.
   */
  lemma CallRaisesOnlyInMoments(g: Generator, build: Builder, d: ScenarioDraws<CargoType>)
    requires Valid(g) && BuildsBlocks(g, build) && ValidScenarioDraws(d)
    requires KnownDistribution(g.distribution) && g.cv >= 0.0
    ensures CallOn(g, build, d).Ok? <==> !MomentsFail(g)
  {
    if !MomentsFail(g) {
      CallSucceeds(g.cargoTypes, build, g.cv, g.distribution, d);
    }
  }
}
