/**
  `_generate`: turning the expected OD matrix of every cargo type into
  `n_scenarios` random realisations. The Poisson, normal and uniform samplers
  are draw oracles; what the model keeps is the control structure: how many
  scenarios come back, which keys each has, which distribution names and
  parameters raise, and how each draw is clipped, truncated and rounded.
 */
module Scenarios {
  import opened Common

  /** A float matrix, as the standard deviations `cv_demand * expected` are. */
  type RealMatrix = seq<seq<real>>

  /**
    The draws of `_generate`, one per scenario, key and entry: a Poisson draw for
    the entry's mean, a standard normal draw, and a uniform draw from [0, 1).
   */
  datatype ScenarioDraws<!K> = ScenarioDraws(poisson: (nat, K, nat, nat) -> int, normal: (nat, K, nat, nat) -> real, uniform: (nat, K, nat, nat) -> real)

  /** A Poisson draw is never negative; a uniform draw lies in [0, 1). */
  ghost predicate ValidScenarioDraws<K(!new)>(d: ScenarioDraws<K>)
  {
    forall s: nat, key: K, r: nat, c: nat :: d.poisson(s, key, r, c) >= 0 && 0.0 <= d.uniform(s, key, r, c) < 1.0
  }

  predicate AnyNegative(m: Matrix)
  {
    exists r, c :: 0 <= r < |m| && 0 <= c < |m[r]| && m[r][c] < 0
  }

  predicate AnyNegativeReal(m: RealMatrix)
  {
    exists r, c :: 0 <= r < |m| && 0 <= c < |m[r]| && m[r][c] < 0.0
  }

  predicate SameShape(a: Matrix, b: RealMatrix)
  {
    |a| == |b| && forall r :: 0 <= r < |a| ==> |a[r]| == |b[r]|
  }

  /** The distribution names `_generate` knows; any other raises once a draw is attempted. */
  predicate KnownDistribution(dist: string)
  {
    dist == "poisson" || dist == "normal" || dist == "uniform"
  }

  /** `np.random.normal(mean, std).clip(min=0).astype(int)` for one entry, given the standard normal draw `z`. */
  function NormalEntry(mean: int, std: real, z: real): (e: int)
    ensures e >= 0
    ensures var x := mean as real + std * z;
            (x <= 0.0 ==> e == 0) && (x > 0.0 ==> e as real <= x < e as real + 1.0)
  {
    var x := mean as real + std * z;
    if x < 0.0 then 0 else x.Floor
  }

  /** A draw `u` from [0, 1) scales a non-negative `a` to a value between 0 and `a`. */
  lemma ScaledBetween(a: real, u: real, x: real)
    requires 0.0 <= u < 1.0 && 0.0 <= a && x == a * u
    ensures 0.0 <= x <= a
  {
    ProductNonNegative(a, u);
    ProductNonNegative(a, 1.0 - u);
    assert a * (1.0 - u) == a - a * u;
  }

  lemma ProductNonNegative(p: real, q: real)
    requires 0.0 <= p && 0.0 <= q
    ensures 0.0 <= p * q
  {
  }

  /** `np.round(np.random.uniform(0, 2 * mean))` for one entry, given the uniform draw `u` in [0, 1). */
  function UniformEntry(mean: int, u: real): (e: int)
    requires 0.0 <= u < 1.0
    ensures mean >= 0 ==> 0 <= e <= 2 * mean
    ensures mean <= 0 ==> 2 * mean <= e <= 0
  {
    var x := (2 * mean) as real * u;
    RoundedScale(2 * mean, u, x);
    RoundHalfEven(x)
  }

  /** An integer `a` scaled by a draw from [0, 1) rounds to a value between 0 and `a`. */
  lemma RoundedScale(a: int, u: real, x: real)
    requires 0.0 <= u < 1.0 && x == a as real * u
    ensures a >= 0 ==> 0 <= RoundHalfEven(x) <= a
    ensures a <= 0 ==> a <= RoundHalfEven(x) <= 0
  {
    if a >= 0 {
      ScaledBetween(a as real, u, x);
      RoundWithin(x, 0, a);
    } else {
      ScaledBetween(-a as real, u, -x);
      RoundWithin(x, a, 0);
    }
  }

  /** Rounding a value between two integers stays between them. */
  lemma RoundWithin(x: real, lo: int, hi: int)
    requires lo as real <= x <= hi as real
    ensures lo <= RoundHalfEven(x) <= hi
  {
  }

  /** `np.random.poisson(mean)` once no mean is negative. */
  function PoissonMatrix<K(!new)>(s: nat, key: K, mean: Matrix, d: ScenarioDraws<K>): (m: Matrix)
    requires ValidScenarioDraws(d)
    ensures |m| == |mean| && forall i :: 0 <= i < |mean| ==> |m[i]| == |mean[i]|
    ensures NonNegativeMatrix(m)
  {
    seq(|mean|, i requires 0 <= i < |mean| => seq(|mean[i]|, j requires 0 <= j < |mean[i]| => d.poisson(s, key, i, j)))
  }

  /** `np.random.normal(mean, std).clip(min=0).astype(int)` once no standard deviation is negative. */
  function NormalMatrix<K>(s: nat, key: K, mean: Matrix, sd: RealMatrix, d: ScenarioDraws<K>): (m: Matrix)
    requires SameShape(mean, sd)
    ensures |m| == |mean| && forall i :: 0 <= i < |mean| ==> |m[i]| == |mean[i]|
    ensures NonNegativeMatrix(m)
  {
    var m := seq(|mean|, i requires 0 <= i < |mean| =>
      seq(|mean[i]|, j requires 0 <= j < |mean[i]| => NormalEntry(mean[i][j], sd[i][j], d.normal(s, key, i, j))));
    assert forall i, j :: 0 <= i < |mean| && 0 <= j < |mean[i]| ==> m[i][j] == NormalEntry(mean[i][j], sd[i][j], d.normal(s, key, i, j));
    m
  }

  /** `np.round(np.random.uniform(0, 2 * mean))`: each entry between 0 and twice its (non-negative) mean. */
  function UniformMatrix<K(!new)>(s: nat, key: K, mean: Matrix, d: ScenarioDraws<K>): (m: Matrix)
    requires ValidScenarioDraws(d)
    ensures |m| == |mean| && forall i :: 0 <= i < |mean| ==> |m[i]| == |mean[i]|
    ensures forall i, j :: 0 <= i < |mean| && 0 <= j < |mean[i]| && mean[i][j] >= 0 ==> 0 <= m[i][j] <= 2 * mean[i][j]
  {
    seq(|mean|, i requires 0 <= i < |mean| =>
      seq(|mean[i]|, j requires 0 <= j < |mean[i]| => UniformEntry(mean[i][j], d.uniform(s, key, i, j))))
  }

  /**
    The realisation of one cargo type's expected matrix in scenario `s`: an
    unknown distribution raises, a negative Poisson mean raises, and the normal
    case raises on a missing or negative standard deviation.
   */
  function DrawMatrix<K(==,!new)>(dist: string, s: nat, key: K, mean: Matrix, std: map<K, RealMatrix>, d: ScenarioDraws<K>): (r: Result<Matrix>)
    requires ValidScenarioDraws(d)
    requires dist == "normal" && key in std ==> SameShape(mean, std[key])
    ensures !KnownDistribution(dist) ==> r == Err(UnknownDistribution(dist))
    ensures dist == "poisson" ==> (r.Err? <==> AnyNegative(mean)) && (r.Err? ==> r.error == NegativeMean)
    ensures dist == "normal" ==> (r.Err? <==> key !in std || AnyNegativeReal(std[key]))
    ensures dist == "normal" && r.Err? ==> r.error == if key !in std then MissingStd else NegativeScale
    ensures dist == "uniform" ==> r.Ok?
    ensures r.Ok? ==> |r.value| == |mean| && forall i :: 0 <= i < |mean| ==> |r.value[i]| == |mean[i]|
    ensures r.Ok? && dist != "uniform" ==> NonNegativeMatrix(r.value)
    ensures r.Ok? && dist == "uniform" ==> forall i, j :: 0 <= i < |mean| && 0 <= j < |mean[i]| && mean[i][j] >= 0 ==>
              0 <= r.value[i][j] <= 2 * mean[i][j]
  {
    if dist == "poisson" then
      if AnyNegative(mean) then Err(NegativeMean) else Ok(PoissonMatrix(s, key, mean, d))
    else if dist == "normal" then
      if key !in std then Err(MissingStd)
      else if AnyNegativeReal(std[key]) then Err(NegativeScale)
      else Ok(NormalMatrix(s, key, mean, std[key], d))
    else if dist == "uniform" then Ok(UniformMatrix(s, key, mean, d))
    else Err(UnknownDistribution(dist))
  }

  /** The keys of a dict given as its list of items. */
  function KeysOf<K(==)>(items: seq<(K, Matrix)>): (ks: set<K>)
    ensures forall j :: 0 <= j < |items| ==> items[j].0 in ks
    ensures forall k :: k in ks ==> exists j :: 0 <= j < |items| && items[j].0 == k
  {
    set j | 0 <= j < |items| :: items[j].0
  }

  /** A dict's items name each key once. */
  predicate DistinctKeys<K(==)>(items: seq<(K, Matrix)>)
  {
    forall a, b :: 0 <= a < b < |items| ==> items[a].0 != items[b].0
  }

  /**
    A drawer: from a scenario index, a key and its expected matrix to the
    realised matrix or the error the draw raises. The scenario loop is stated for
    any drawer; `_generate`'s own is `DrawMatrix` for the chosen distribution.
   */
  type Drawer<!K> = (nat, K, Matrix) --> Result<Matrix>

  /** The drawer can be applied to every item in every scenario. */
  ghost predicate Applies<K>(draw: Drawer<K>, items: seq<(K, Matrix)>)
  {
    forall s: nat, j :: 0 <= j < |items| ==> draw.requires(s, items[j].0, items[j].1)
  }

  /** Every draw of scenario `s` succeeds. */
  ghost predicate DrawsSucceed<K>(draw: Drawer<K>, s: nat, items: seq<(K, Matrix)>)
    requires Applies(draw, items)
  {
    forall j :: 0 <= j < |items| ==> draw(s, items[j].0, items[j].1).Ok?
  }

  /** Some draw of scenario `s` raises `e`. */
  ghost predicate RaisesIn<K>(draw: Drawer<K>, s: nat, items: seq<(K, Matrix)>, e: Error)
    requires Applies(draw, items)
  {
    exists j :: 0 <= j < |items| && draw(s, items[j].0, items[j].1) == Err(e)
  }

  /** `sc` maps every item's key to what its draw in scenario `s` gave. */
  ghost predicate Realises<K>(sc: map<K, Matrix>, draw: Drawer<K>, s: nat, items: seq<(K, Matrix)>)
    requires Applies(draw, items)
  {
    forall j :: 0 <= j < |items| ==> items[j].0 in sc && Ok(sc[items[j].0]) == draw(s, items[j].0, items[j].1)
  }

  /** The draws of scenario `s`, one per item in dict order. */
  function ItemDraws<K>(draw: Drawer<K>, s: nat, items: seq<(K, Matrix)>): (step: nat --> Result<Matrix>)
    requires Applies(draw, items)
    ensures forall j :: 0 <= j < |items| ==> step.requires(j) && step(j) == draw(s, items[j].0, items[j].1)
  {
    (j: nat) requires j < |items| && Applies(draw, items) => draw(s, items[j].0, items[j].1)
  }

  /** The dict `{key: matrix}` over the items' keys, each with the matrix at its position. */
  function DictOf<K(==)>(items: seq<(K, Matrix)>, ms: seq<Matrix>): (sc: map<K, Matrix>)
    requires |ms| == |items| && DistinctKeys(items)
    ensures sc.Keys == KeysOf(items)
    ensures forall j :: 0 <= j < |items| ==> items[j].0 in sc && sc[items[j].0] == ms[j]
  {
    map j | 0 <= j < |items| :: items[j].0 := ms[j]
  }

  /**
    Scenario `s`: the items' draws in dict order, the first that raises ending
    it; otherwise a dict keyed exactly like the items, holding every draw.
   */
  function Scenario<K(==)>(draw: Drawer<K>, s: nat, items: seq<(K, Matrix)>): (r: Result<map<K, Matrix>>)
    requires Applies(draw, items) && DistinctKeys(items)
    ensures r.Ok? <==> DrawsSucceed(draw, s, items)
    ensures r.Err? ==> RaisesIn(draw, s, items, r.error)
    ensures |items| > 0 && draw(s, items[0].0, items[0].1).Err? ==> r == Err(draw(s, items[0].0, items[0].1).error)
    ensures r.Ok? ==> r.value.Keys == KeysOf(items) && Realises(r.value, draw, s, items)
  {
    var step := ItemDraws(draw, s, items);
    match RunUpTo(step, |items|)
    case Err(e) =>
      var j :| 0 <= j < |items| && step(j) == Err(e) && forall i :: 0 <= i < j ==> step(i).Ok?;
      assert j > 0 ==> step(0).Ok?;
      Err(e)
    case Ok(ms) => Ok(DictOf(items, ms))
  }

  /** `_generate`'s rounds: scenario `s` for every `s`. */
  function ScenarioStep<K(==)>(draw: Drawer<K>, items: seq<(K, Matrix)>): (one: nat --> Result<map<K, Matrix>>)
    requires Applies(draw, items) && DistinctKeys(items)
    ensures forall s: nat :: one.requires(s) && one(s) == Scenario(draw, s, items)
  {
    (s: nat) requires Applies(draw, items) && DistinctKeys(items) => Scenario(draw, s, items)
  }

  /** `_generate`'s loop over scenarios succeeds exactly when every draw of its `n` scenarios does. */
  lemma ScenariosSucceed<K>(draw: Drawer<K>, items: seq<(K, Matrix)>, n: nat)
    requires Applies(draw, items) && DistinctKeys(items)
    ensures RunUpTo(ScenarioStep(draw, items), n).Ok? <==> forall s: nat :: s < n ==> DrawsSucceed(draw, s, items)
  {
    var one := ScenarioStep(draw, items);
    forall s: nat | s < n
      ensures one(s).Ok? <==> DrawsSucceed(draw, s, items)
    {
      assert one(s) == Scenario(draw, s, items);
    }
  }

  /** Each of the `n` scenarios of a successful loop is keyed exactly like the items and holds every item's draw. */
  lemma ScenariosRealise<K>(draw: Drawer<K>, items: seq<(K, Matrix)>, n: nat)
    requires Applies(draw, items) && DistinctKeys(items)
    ensures RunUpTo(ScenarioStep(draw, items), n).Ok? ==>
              |RunUpTo(ScenarioStep(draw, items), n).value| == n
              && forall s: nat :: s < n ==> RunUpTo(ScenarioStep(draw, items), n).value[s].Keys == KeysOf(items)
                                            && Realises(RunUpTo(ScenarioStep(draw, items), n).value[s], draw, s, items)
  {
    var one := ScenarioStep(draw, items);
    var r := RunUpTo(one, n);
    if r.Ok? {
      forall s: nat | s < n
        ensures r.value[s].Keys == KeysOf(items) && Realises(r.value[s], draw, s, items)
      {
        assert one(s) == Ok(r.value[s]);
        assert Scenario(draw, s, items) == Ok(r.value[s]);
      }
    }
  }

  /** A failing loop fails with the error of some draw, and with the first draw's when that one raises. */
  lemma ScenariosRaise<K>(draw: Drawer<K>, items: seq<(K, Matrix)>, n: nat)
    requires Applies(draw, items) && DistinctKeys(items)
    ensures RunUpTo(ScenarioStep(draw, items), n).Err? ==>
              exists s: nat :: s < n && RaisesIn(draw, s, items, RunUpTo(ScenarioStep(draw, items), n).error)
    ensures n > 0 && |items| > 0 && draw(0, items[0].0, items[0].1).Err? ==>
              RunUpTo(ScenarioStep(draw, items), n) == Err(draw(0, items[0].0, items[0].1).error)
  {
    var one := ScenarioStep(draw, items);
    var r := RunUpTo(one, n);
    if r.Err? {
      var s: nat :| s < n && one(s) == Err(r.error);
      assert Scenario(draw, s, items) == Err(r.error);
    }
    if n > 0 && |items| > 0 && draw(0, items[0].0, items[0].1).Err? {
      assert one(0) == Scenario(draw, 0, items);
    }
  }

  /** The inputs `_generate` can draw from: dict items, and standard deviations shaped like the means they go with. */
  ghost predicate ValidItems<K(!new)>(dist: string, items: seq<(K, Matrix)>, std: map<K, RealMatrix>)
  {
    DistinctKeys(items)
    && (dist == "normal" ==> forall j :: 0 <= j < |items| && items[j].0 in std ==> SameShape(items[j].1, std[items[j].0]))
  }

  /** `_generate`'s drawer: `DrawMatrix` with the distribution, standard deviations and draws fixed. */
  function Sampler<K(==,!new)>(dist: string, items: seq<(K, Matrix)>, std: map<K, RealMatrix>, d: ScenarioDraws<K>): (draw: Drawer<K>)
    requires ValidScenarioDraws(d) && ValidItems(dist, items, std)
    ensures Applies(draw, items)
    ensures forall s: nat, j :: 0 <= j < |items| ==> draw(s, items[j].0, items[j].1) == DrawMatrix(dist, s, items[j].0, items[j].1, std, d)
  {
    var draw: Drawer<K> := (s: nat, key: K, mean: Matrix)
      requires ValidScenarioDraws(d) && (dist == "normal" && key in std ==> SameShape(mean, std[key]))
      => DrawMatrix(dist, s, key, mean, std, d);
    assert forall s: nat, j :: 0 <= j < |items| ==>
             (draw.requires(s, items[j].0, items[j].1) && draw(s, items[j].0, items[j].1) == DrawMatrix(dist, s, items[j].0, items[j].1, std, d));
    draw
  }

  /**
    `_generate`: `int(n_scenarios)` scenarios, none for a count of zero or less,
    each keyed like the expected matrices and holding their realisations. The
    first draw that raises ends the call; nothing raises when no draw is made,
    and an unknown distribution raises at the first draw.
   */
  function Generate<K(==,!new)>(dist: string, items: seq<(K, Matrix)>, std: map<K, RealMatrix>, n: int, d: ScenarioDraws<K>): (r: Result<seq<map<K, Matrix>>>)
    requires ValidScenarioDraws(d) && ValidItems(dist, items, std)
    ensures r.Ok? ==> |r.value| == if n < 0 then 0 else n
    ensures r.Ok? ==> forall s :: 0 <= s < |r.value| ==> r.value[s].Keys == KeysOf(items)
    ensures r.Ok? ==> forall s: nat :: s < |r.value| ==> Realises(r.value[s], Sampler(dist, items, std, d), s, items)
    ensures r.Err? ==> n > 0 && exists s: nat, j :: s < n && 0 <= j < |items| && DrawMatrix(dist, s, items[j].0, items[j].1, std, d) == Err(r.error)
    ensures n > 0 && |items| > 0 && !KnownDistribution(dist) ==> r == Err(UnknownDistribution(dist))
  {
    if n <= 0 then Ok([])
    else
      var draw := Sampler(dist, items, std, d);
      ScenariosSucceed(draw, items, n);
      ScenariosRaise(draw, items, n);
      ScenariosRealise(draw, items, n);
      RunUpTo(ScenarioStep(draw, items), n)
  }

  /** Entry `key` of scenario `s` is the realisation `DrawMatrix` gives for the key's expected matrix. */
  lemma GenerateDraws<K(!new)>(dist: string, items: seq<(K, Matrix)>, std: map<K, RealMatrix>, n: int, d: ScenarioDraws<K>, s: nat, j: nat)
    requires ValidScenarioDraws(d) && ValidItems(dist, items, std)
    requires Generate(dist, items, std, n, d).Ok? && s < |Generate(dist, items, std, n, d).value| && j < |items|
    ensures var sc := Generate(dist, items, std, n, d).value[s];
            items[j].0 in sc && Ok(sc[items[j].0]) == DrawMatrix(dist, s, items[j].0, items[j].1, std, d)
  {
    var draw := Sampler(dist, items, std, d);
    assert Realises(Generate(dist, items, std, n, d).value[s], draw, s, items);
  }

  /** When no draw raises, neither does `_generate`. */
  lemma GenerateSucceeds<K(!new)>(dist: string, items: seq<(K, Matrix)>, std: map<K, RealMatrix>, n: int, d: ScenarioDraws<K>)
    requires ValidScenarioDraws(d) && ValidItems(dist, items, std)
    requires forall s: nat, j :: 0 <= j < |items| ==> DrawMatrix(dist, s, items[j].0, items[j].1, std, d).Ok?
    ensures Generate(dist, items, std, n, d).Ok?
  {
  }
}
