/**
  `_generate_moments` and `__call__`, shared by both generators: one expected
  OD matrix per cargo type, built in cargo-type order until one raises, the
  standard deviations `cv_demand * expected`, and the five scenarios `__call__`
  draws from them. Each generator supplies its cargo types and its builder.
 */
module Moments {
  import opened Common
  import opened Scenarios

  /**
    Integer stand-ins for the float target arithmetic: `count` is
    `len(target_utils)` and `volume(k, i)` is `int(round(target_utils[i] * C))`
    for the capacity `C` that cargo type `k` is given.
   */
  datatype Targets = Targets(count: nat, volume: (nat, nat) -> int)

  /** The targets the matrix builder reads for cargo type `k`, one per entry of `target_utils`. */
  function TargetRow(t: Targets, k: nat): (row: seq<int>)
    ensures |row| == t.count && forall i :: 0 <= i < t.count ==> row[i] == t.volume(k, i)
  {
    seq(t.count, i requires 0 <= i => t.volume(k, i))
  }

  /** `cv_demand * expected`: a float matrix of the same shape, never negative for a non-negative factor and matrix. */
  function StdOf(cv: real, m: Matrix): (sd: RealMatrix)
    ensures SameShape(m, sd)
    ensures forall r, c :: 0 <= r < |m| && 0 <= c < |m[r]| ==> sd[r][c] == cv * m[r][c] as real
    ensures cv >= 0.0 && NonNegativeMatrix(m) ==> !AnyNegativeReal(sd)
  {
    seq(|m|, r requires 0 <= r < |m| => seq(|m[r]|, c requires 0 <= c < |m[r]| => cv * m[r][c] as real))
  }

  /** Builds the expected matrix of the `k`-th cargo type, or raises. */
  type Builder = nat --> Result<Matrix>

  ghost predicate BuildsUpTo(build: Builder, n: nat)
  {
    forall k :: 0 <= k < n ==> build.requires(k)
  }

  /** A dict's items: each key with its matrix. */
  function Keyed<K>(keys: seq<K>, ms: seq<Matrix>): (items: seq<(K, Matrix)>)
    requires |ms| == |keys|
    ensures |items| == |keys| && forall k :: 0 <= k < |keys| ==> items[k].0 == keys[k] && items[k].1 == ms[k]
  {
    seq(|keys|, k requires 0 <= k < |keys| => (keys[k], ms[k]))
  }

  /** The expected matrices and their standard deviations, both keyed by cargo type. */
  datatype MomentPair<K> = MomentPair(expected: seq<(K, Matrix)>, std: map<K, RealMatrix>)

  /** The dict `{ctype: cv_demand * expected[ctype] for ctype in cargo_types}`. */
  function StdDict<K(==)>(keys: seq<K>, ms: seq<Matrix>, cv: real): (d: map<K, RealMatrix>)
    requires |ms| == |keys| && DistinctSeq(keys)
    ensures forall j :: 0 <= j < |keys| ==> keys[j] in d && d[keys[j]] == StdOf(cv, ms[j])
    ensures forall key :: key in d ==> exists j :: 0 <= j < |keys| && keys[j] == key
  {
    map j | 0 <= j < |keys| :: keys[j] := StdOf(cv, ms[j])
  }

  /** The moments of built matrices: each key with its matrix, and a standard deviation shaped like each. */
  function PairOf<K(==,!new)>(keys: seq<K>, ms: seq<Matrix>, cv: real): (p: MomentPair<K>)
    requires |ms| == |keys| && DistinctSeq(keys)
    ensures |p.expected| == |keys| && forall k :: 0 <= k < |keys| ==> p.expected[k] == (keys[k], ms[k])
    ensures forall k :: 0 <= k < |keys| ==> keys[k] in p.std && p.std[keys[k]] == StdOf(cv, ms[k])
    ensures forall dist :: ValidItems(dist, p.expected, p.std)
  {
    var items := Keyed(keys, ms);
    var std := StdDict(keys, ms, cv);
    assert forall j :: 0 <= j < |items| && items[j].0 in std ==> SameShape(items[j].1, std[items[j].0]);
    MomentPair(items, std)
  }

  /**
    `_generate_moments`: the cargo types' expected matrices in cargo-type order,
    the first build that raises ending the loop, and a standard deviation for
    every cargo type shaped like its expected matrix.
   */
  function MomentsOf<K(==,!new)>(keys: seq<K>, build: Builder, cv: real): (r: Result<MomentPair<K>>)
    requires DistinctSeq(keys) && BuildsUpTo(build, |keys|)
    ensures r.Ok? <==> forall k :: 0 <= k < |keys| ==> build(k).Ok?
    ensures r.Err? ==> exists k :: 0 <= k < |keys| && build(k) == Err(r.error) && forall j :: 0 <= j < k ==> build(j).Ok?
    ensures r.Ok? ==> |r.value.expected| == |keys|
    ensures r.Ok? ==> forall k :: 0 <= k < |keys| ==> r.value.expected[k] == (keys[k], build(k).value)
    ensures r.Ok? ==> forall k :: 0 <= k < |keys| ==> keys[k] in r.value.std && r.value.std[keys[k]] == StdOf(cv, build(k).value)
    ensures r.Ok? ==> forall dist :: ValidItems(dist, r.value.expected, r.value.std)
  {
    match RunUpTo(build, |keys|)
    case Err(e) => Err(e)
    case Ok(ms) => Ok(PairOf(keys, ms, cv))
  }

  /** Every cargo type's build succeeds with a non-negative matrix. */
  ghost predicate BuildsNonNegative(build: Builder, n: nat)
    requires BuildsUpTo(build, n)
  {
    forall k :: 0 <= k < n ==> build(k).Ok? && NonNegativeMatrix(build(k).value)
  }

  /**
    `__call__`: the moments, then five scenarios drawn from them with the
    generator's distribution.
   */
  function CallWith<K(==,!new)>(keys: seq<K>, build: Builder, cv: real, dist: string, d: ScenarioDraws<K>): (r: Result<(MomentPair<K>, seq<map<K, Matrix>>)>)
    requires DistinctSeq(keys) && BuildsUpTo(build, |keys|) && ValidScenarioDraws(d)
    ensures r.Ok? ==> MomentsOf(keys, build, cv) == Ok(r.value.0)
    ensures r.Ok? ==> |r.value.1| == 5
    ensures MomentsOf(keys, build, cv).Err? ==> r == Err(MomentsOf(keys, build, cv).error)
    ensures MomentsOf(keys, build, cv).Ok? && |keys| > 0 && !KnownDistribution(dist) ==> r == Err(UnknownDistribution(dist))
  {
    match MomentsOf(keys, build, cv)
    case Err(e) => Err(e)
    case Ok(p) =>
      match Generate(dist, p.expected, p.std, 5, d)
      case Err(e) => Err(e)
      case Ok(scenarios) => Ok((p, scenarios))
  }

  /**
    With a known distribution, a non-negative `cv_demand` and builds that all
    give non-negative matrices, no draw of `__call__` raises: Poisson means and
    normal standard deviations are never negative.
   */
  lemma CallSucceeds<K(!new)>(keys: seq<K>, build: Builder, cv: real, dist: string, d: ScenarioDraws<K>)
    requires DistinctSeq(keys) && BuildsUpTo(build, |keys|) && ValidScenarioDraws(d)
    requires KnownDistribution(dist) && cv >= 0.0 && BuildsNonNegative(build, |keys|)
    ensures CallWith(keys, build, cv, dist, d).Ok?
  {
    var p := MomentsOf(keys, build, cv).value;
    assert forall s: nat, j :: 0 <= j < |p.expected| ==> DrawMatrix(dist, s, p.expected[j].0, p.expected[j].1, p.std, d).Ok? by {
      forall s: nat, j | 0 <= j < |p.expected|
        ensures DrawMatrix(dist, s, p.expected[j].0, p.expected[j].1, p.std, d).Ok?
      {
        DrawSucceeds(dist, s, keys[j], build(j).value, cv, p.std, d);
      }
    }
    GenerateSucceeds(dist, p.expected, p.std, 5, d);
  }

  /** One draw from a non-negative mean, with its standard deviation `cv_demand` times that mean, never raises. */
  lemma DrawSucceeds<K(!new)>(dist: string, s: nat, key: K, mean: Matrix, cv: real, std: map<K, RealMatrix>, d: ScenarioDraws<K>)
    requires ValidScenarioDraws(d) && KnownDistribution(dist) && cv >= 0.0 && NonNegativeMatrix(mean)
    requires key in std && std[key] == StdOf(cv, mean)
    ensures DrawMatrix(dist, s, key, mean, std, d).Ok?
  {
  }
}
