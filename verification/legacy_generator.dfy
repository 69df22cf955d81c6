/**
  The legacy `DemandGenerator`: 12 dry cargo types and optionally two reefers,
  the constructor's share processing, expected matrices for the whole voyage
  without onboard offsets, and `__call__`. The expected matrices are built with
  the legacy builder as written, which may write a row into another row's
  place when there is sparsity.
 */
module LegacyGenerator {
  import opened Common
  import opened RowShaping
  import opened Synthesis
  import opened LegacySynthesis
  import opened Shares
  import opened Scenarios
  import opened Moments
  import opened Cargo

  /** The legacy constructor's arguments, with the float targets replaced by integer volumes as in the current generator. */
  datatype LegacySettings = LegacySettings(
    ports: nat,
    targets: Targets,
    middleLeg: Option<int>,
    loadingOnly: bool,
    sparsity: real,
    perturb: real,
    shares: ShareSpec<LegacyCargoType>,
    includeReefer: bool,
    distribution: string,
    cv: real)

  /** A constructed legacy generator. */
  datatype LegacyGen = LegacyGen(
    vo: Voyage,
    cargoTypes: seq<LegacyCargoType>,
    targets: Targets,
    shares: seq<real>,
    teu: seq<nat>,
    meanTeu: real,
    distribution: string,
    cv: real)

  /** What every constructed legacy generator satisfies: a non-empty list of distinct cargo types. */
  predicate Valid(g: LegacyGen)
  {
    |g.cargoTypes| > 0 && DistinctSeq(g.cargoTypes)
  }

  /**
    The legacy `__init__`: it raises only for a share list whose length is not
    the number of cargo types, 14 with reefers and 12 without. The middle leg
    defaults to `P // 2`, the shares are non-negative and sum to one, every
    20ft type weighs one TEU and every 40ft type two, so the mean TEU size lies
    in [1, 2].
   */
  function New(s: LegacySettings): (r: Result<LegacyGen>)
    ensures r.Err? <==> s.shares.ByIndex? && |s.shares.list| != (if s.includeReefer then 14 else 12)
    ensures r.Err? ==> r.error == ShareLengthMismatch(if s.includeReefer then 14 else 12, |s.shares.list|)
    ensures r.Ok? ==> r.value.vo.middleLeg == if s.middleLeg.Some? then s.middleLeg.value else s.ports / 2
    ensures r.Ok? ==> r.value.vo == Voyage(s.ports, r.value.vo.middleLeg, s.loadingOnly, s.sparsity, s.perturb)
    ensures r.Ok? ==> r.value.cargoTypes == LegacyCargoTypes(s.includeReefer) && Valid(r.value)
    ensures r.Ok? ==> |r.value.shares| == |r.value.cargoTypes| && RealSum(r.value.shares) == 1.0
    ensures r.Ok? ==> forall k :: 0 <= k < |r.value.shares| ==> r.value.shares[k] >= 0.0
    ensures r.Ok? ==> |r.value.teu| == |r.value.cargoTypes|
                      && forall k :: 0 <= k < |r.value.teu| ==> r.value.teu[k] == if r.value.cargoTypes[k].size == Twenty then 1 else 2
    ensures r.Ok? ==> 1.0 <= r.value.meanTeu <= 2.0
  {
    var types := LegacyCargoTypes(s.includeReefer);
    LegacyCargoTypesDistinct(s.includeReefer);
    match ProcessShares(s.shares, types)
    case Err(e) => Err(e)
    case Ok(shares) => Ok(Assemble(s, types, shares))
  }

  /** The constructed generator once the cargo types and their shares are known. */
  function Assemble(s: LegacySettings, types: seq<LegacyCargoType>, shares: seq<real>): (g: LegacyGen)
    requires |types| > 0 && DistinctSeq(types)
    requires |shares| == |types| && RealSum(shares) == 1.0 && forall k :: 0 <= k < |shares| ==> shares[k] >= 0.0
    ensures g.vo.middleLeg == if s.middleLeg.Some? then s.middleLeg.value else s.ports / 2
    ensures g.vo == Voyage(s.ports, g.vo.middleLeg, s.loadingOnly, s.sparsity, s.perturb)
    ensures g.cargoTypes == types && g.shares == shares && Valid(g)
    ensures |g.teu| == |types| && forall k :: 0 <= k < |types| ==> g.teu[k] == if types[k].size == Twenty then 1 else 2
    ensures 1.0 <= g.meanTeu <= 2.0
  {
    var teu := TeuOf(types, (t: LegacyCargoType) => t.size);
    MeanTeuBounds(shares, teu);
    var middleLeg := if s.middleLeg.Some? then s.middleLeg.value else s.ports / 2;
    LegacyGen(Voyage(s.ports, middleLeg, s.loadingOnly, s.sparsity, s.perturb), types, s.targets,
              shares, teu, MeanTeu(shares, teu), s.distribution, s.cv)
  }

  // ---------- The moments ----------

  /** The legacy matrix builder raises only for a target list whose length is not the number of loading rows. */
  predicate MomentsFail(g: LegacyGen)
  {
    g.targets.count != LoadingRows(g.vo)
  }

  /**
    A builder that behaves as the legacy matrix builder as written does on every
    cargo type: it raises exactly when the target list has the wrong length;
    otherwise its matrix is square and non-negative, and without sparsity, when
    no row is misplaced, also confined to the loading rows and strictly upper
    triangular.
   */
  ghost predicate BuildsLegacy(g: LegacyGen, build: Builder)
  {
    BuildsUpTo(build, |g.cargoTypes|)
    && forall k :: 0 <= k < |g.cargoTypes| ==>
         (build(k).Err? <==> MomentsFail(g))
         && (build(k).Err? ==> build(k).error == TargetLengthMismatch(g.targets.count, LoadingRows(g.vo)))
         && (build(k).Ok? ==> IsSquare(build(k).value, g.vo.ports) && NonNegativeMatrix(build(k).value))
         && (build(k).Ok? && g.vo.sparsity <= 0.0 ==> Shaped(g.vo, build(k).value, g.targets.count) && StrictlyUpper(build(k).value))
  }

  /** The legacy `_generate_moments`' builder: cargo type `k` gets the legacy matrix, as written, for its targets. */
  function LegacyBuilder(g: LegacyGen, draws: nat -> nat -> RowDraws): (build: Builder)
    requires ValidMatrixDraws(draws)
    ensures BuildsLegacy(g, build)
    ensures forall k: nat :: build.requires(k) && build(k) == LegacyMatrix(g.vo, TargetRow(g.targets, k), draws(k))
  {
    var build: Builder := (k: nat) requires forall i: nat :: ValidDraws(draws(k)(i)) =>
      LegacyMatrix(g.vo, TargetRow(g.targets, k), draws(k));
    assert forall k: nat :: build.requires(k) && build(k) == LegacyMatrix(g.vo, TargetRow(g.targets, k), draws(k));
    assert g.vo.sparsity <= 0.0 ==> forall k: nat :: build(k) == CorrectedLegacyMatrix(g.vo, TargetRow(g.targets, k), draws(k)) by {
      if g.vo.sparsity <= 0.0 {
        forall k: nat
          ensures build(k) == CorrectedLegacyMatrix(g.vo, TargetRow(g.targets, k), draws(k))
        {
          LegacyWithoutSparsity(g.vo, TargetRow(g.targets, k), draws(k));
        }
      }
    }
    build
  }

  /**
    The legacy `_generate_moments` over a legacy builder: it raises as the
    builder does; otherwise one square, non-negative expected matrix per cargo
    type, in cargo-type order, confined to the loading rows and strictly upper
    triangular when there is no sparsity, with the standard deviations
    `cv_demand` times it.
   */
  function MomentsWith(g: LegacyGen, build: Builder): (r: Result<MomentPair<LegacyCargoType>>)
    requires Valid(g) && BuildsLegacy(g, build)
    ensures r.Err? <==> MomentsFail(g)
    ensures r.Err? ==> r.error == TargetLengthMismatch(g.targets.count, LoadingRows(g.vo))
    ensures r.Ok? ==> |r.value.expected| == |g.cargoTypes|
    ensures r.Ok? ==> forall k :: 0 <= k < |g.cargoTypes| ==> r.value.expected[k] == (g.cargoTypes[k], build(k).value)
    ensures r.Ok? ==> forall k :: 0 <= k < |g.cargoTypes| ==>
              IsSquare(r.value.expected[k].1, g.vo.ports) && NonNegativeMatrix(r.value.expected[k].1)
    ensures r.Ok? && g.vo.sparsity <= 0.0 ==> forall k :: 0 <= k < |g.cargoTypes| ==>
              Shaped(g.vo, r.value.expected[k].1, g.targets.count) && StrictlyUpper(r.value.expected[k].1)
    ensures r.Ok? ==> forall k :: 0 <= k < |g.cargoTypes| ==>
              g.cargoTypes[k] in r.value.std && r.value.std[g.cargoTypes[k]] == StdOf(g.cv, r.value.expected[k].1)
  {
    var r := MomentsOf(g.cargoTypes, build, g.cv);
    assert MomentsFail(g) ==> build(0).Err?;
    r
  }

  /** The legacy `_generate_moments` with the generator's own builder: cargo type `k`'s expected matrix is its legacy matrix as written. */
  function GenerateMoments(g: LegacyGen, draws: nat -> nat -> RowDraws): (r: Result<MomentPair<LegacyCargoType>>)
    requires Valid(g) && ValidMatrixDraws(draws)
    ensures r.Err? <==> MomentsFail(g)
    ensures r.Ok? ==> |r.value.expected| == |g.cargoTypes|
                      && forall k :: 0 <= k < |g.cargoTypes| ==>
                           r.value.expected[k].1 == LegacyMatrix(g.vo, TargetRow(g.targets, k), draws(k)).value
  {
    MomentsWith(g, LegacyBuilder(g, draws))
  }

  /**
    Without sparsity the expected matrices the legacy generator builds are those
    of the intended builder, which writes every row at its own index.
   */
  lemma AsWrittenWithoutSparsity(g: LegacyGen, draws: nat -> nat -> RowDraws, k: nat)
    requires Valid(g) && ValidMatrixDraws(draws) && g.vo.sparsity <= 0.0
    requires GenerateMoments(g, draws).Ok? && k < |g.cargoTypes|
    ensures CorrectedLegacyMatrix(g.vo, TargetRow(g.targets, k), draws(k)) == Ok(GenerateMoments(g, draws).value.expected[k].1)
  {
    LegacyWithoutSparsity(g.vo, TargetRow(g.targets, k), draws(k));
  }

  /**
    The legacy `__call__` over a legacy builder: the moments and five scenarios
    drawn from them. It raises as the moments do, and with moments in hand it
    raises at the first draw for an unknown distribution.
   */
  function CallOn(g: LegacyGen, build: Builder, d: ScenarioDraws<LegacyCargoType>): (r: Result<(MomentPair<LegacyCargoType>, seq<map<LegacyCargoType, Matrix>>)>)
    requires Valid(g) && BuildsLegacy(g, build) && ValidScenarioDraws(d)
    ensures r.Ok? ==> MomentsWith(g, build) == Ok(r.value.0) && |r.value.1| == 5
    ensures MomentsFail(g) ==> r == Err(TargetLengthMismatch(g.targets.count, LoadingRows(g.vo)))
    ensures !MomentsFail(g) && !KnownDistribution(g.distribution) ==> r == Err(UnknownDistribution(g.distribution))
  {
    CallWith(g.cargoTypes, build, g.cv, g.distribution, d)
  }

  /** The legacy `__call__` with the generator's own builder: its moments are `_generate_moments`' and there are five scenarios. */
  function Call(g: LegacyGen, draws: nat -> nat -> RowDraws, d: ScenarioDraws<LegacyCargoType>): (r: Result<(MomentPair<LegacyCargoType>, seq<map<LegacyCargoType, Matrix>>)>)
    requires Valid(g) && ValidMatrixDraws(draws) && ValidScenarioDraws(d)
    ensures r.Ok? ==> GenerateMoments(g, draws) == Ok(r.value.0) && |r.value.1| == 5
    ensures MomentsFail(g) ==> r == Err(TargetLengthMismatch(g.targets.count, LoadingRows(g.vo)))
    ensures !MomentsFail(g) && !KnownDistribution(g.distribution) ==> r == Err(UnknownDistribution(g.distribution))
  {
    CallOn(g, LegacyBuilder(g, draws), d)
  }

  /**
    With a known distribution and a non-negative `cv_demand`, the legacy
    `__call__` raises only as the moments do.
   */
  lemma CallRaisesOnlyInMoments(g: LegacyGen, build: Builder, d: ScenarioDraws<LegacyCargoType>)
    requires Valid(g) && BuildsLegacy(g, build) && ValidScenarioDraws(d)
    requires KnownDistribution(g.distribution) && g.cv >= 0.0
    ensures CallOn(g, build, d).Ok? <==> !MomentsFail(g)
  {
    if !MomentsFail(g) {
      CallSucceeds(g.cargoTypes, build, g.cv, g.distribution, d);
    }
  }
}
