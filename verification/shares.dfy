/**
  The cargo-share handling of the generator's constructor: the shares given
  (none, a dict keyed by cargo type, or a list in cargo-type order) are clamped at
  zero and normalised to sum to one, with a uniform fallback; and the mean TEU
  size of a container under those shares. Shares are exact reals here, not
  floats.
 */
module Shares {
  import opened Common

  /** `cargo_shares`: absent, a dict from cargo type to share, or a list in cargo-type order. */
  datatype ShareSpec<K> = Uniform | ByType(table: map<K, real>) | ByIndex(list: seq<real>)

  /** Sum of a sequence of reals, peeled from the back. */
  function RealSum(s: seq<real>): real
  {
    if |s| == 0 then 0.0 else RealSum(s[..|s| - 1]) + s[|s| - 1]
  }

  lemma {:induction false} RealSumNonNegative(s: seq<real>)
    requires forall k :: 0 <= k < |s| ==> s[k] >= 0.0
    ensures RealSum(s) >= 0.0
    decreases |s|
  {
    if |s| > 0 {
      RealSumNonNegative(s[..|s| - 1]);
    }
  }

  /** Dividing every entry by `d` divides the sum by `d`. */
  lemma {:induction false} RealSumDivided(s: seq<real>, r: seq<real>, d: real)
    requires d > 0.0 && |r| == |s| && forall k :: 0 <= k < |s| ==> r[k] == s[k] / d
    ensures RealSum(r) == RealSum(s) / d
    decreases |s|
  {
    if |s| > 0 {
      RealSumDivided(s[..|s| - 1], r[..|r| - 1], d);
    }
  }

  /** A constant sequence sums to its length times the constant. */
  lemma {:induction false} RealSumConstant(s: seq<real>, c: real)
    requires forall k :: 0 <= k < |s| ==> s[k] == c
    ensures RealSum(s) == |s| as real * c
    decreases |s|
  {
    if |s| > 0 {
      RealSumConstant(s[..|s| - 1], c);
    }
  }

  /** Sums of two sequences entrywise in order keep the order of their sums. */
  lemma {:induction false} RealSumMonotone(a: seq<real>, b: seq<real>)
    requires |a| == |b| && forall k :: 0 <= k < |a| ==> a[k] <= b[k]
    ensures RealSum(a) <= RealSum(b)
    decreases |a|
  {
    if |a| > 0 {
      RealSumMonotone(a[..|a| - 1], b[..|b| - 1]);
    }
  }

  /** `np.full(K, 1.0 / K)`. */
  function UniformShares(n: nat): (s: seq<real>)
    requires n > 0
    ensures |s| == n && RealSum(s) == 1.0
    ensures forall k :: 0 <= k < n ==> s[k] == 1.0 / n as real
  {
    var s := seq(n, _ => 1.0 / n as real);
    RealSumConstant(s, 1.0 / n as real);
    s
  }

  /**
    The shares as given, one per cargo type: the dict is looked up with a default
    of zero, and a list of the wrong length raises.
   */
  function RawShares<K>(spec: ShareSpec<K>, types: seq<K>): (r: Result<seq<real>>)
    requires |types| > 0
    ensures r.Err? <==> spec.ByIndex? && |spec.list| != |types|
    ensures r.Err? ==> r.error == ShareLengthMismatch(|types|, |spec.list|)
    ensures r.Ok? ==> |r.value| == |types|
    ensures spec.Uniform? ==> r == Ok(UniformShares(|types|))
    ensures spec.ByType? ==> forall k :: 0 <= k < |types| ==>
              r.value[k] == if types[k] in spec.table then spec.table[types[k]] else 0.0
    ensures spec.ByIndex? && r.Ok? ==> r.value == spec.list
  {
    match spec
    case Uniform => Ok(UniformShares(|types|))
    case ByType(table) =>
      Ok(seq(|types|, k requires 0 <= k < |types| => if types[k] in table then table[types[k]] else 0.0))
    case ByIndex(list) =>
      if |list| != |types| then Err(ShareLengthMismatch(|types|, |list|)) else Ok(list)
  }

  /** `np.maximum(shares, 0.0)`. */
  function ClampShares(s: seq<real>): (c: seq<real>)
    ensures |c| == |s|
    ensures forall k :: 0 <= k < |s| ==> c[k] >= 0.0 && (s[k] >= 0.0 ==> c[k] == s[k]) && (s[k] < 0.0 ==> c[k] == 0.0)
  {
    seq(|s|, k requires 0 <= k < |s| => if s[k] < 0.0 then 0.0 else s[k])
  }

  /**
    Clamp, then divide by the sum, or fall back to uniform shares when nothing
    positive is left: non-negative shares summing to one, proportional to the
    clamped ones whenever their sum is positive.
   */
  function Normalise(s: seq<real>): (r: seq<real>)
    requires |s| > 0
    ensures |r| == |s| && RealSum(r) == 1.0
    ensures forall k :: 0 <= k < |r| ==> r[k] >= 0.0
    ensures RealSum(ClampShares(s)) > 0.0 ==> Proportional(r, ClampShares(s), RealSum(ClampShares(s)))
    ensures RealSum(ClampShares(s)) <= 0.0 ==> forall k :: 0 <= k < |r| ==> r[k] == r[0]
  {
    var c := ClampShares(s);
    var total := RealSum(c);
    if total > 0.0 then
      Divided(c, total)
    else
      UniformShares(|s|)
  }

  /** `r` is `c` divided by `total`, entry by entry. */
  predicate Proportional(r: seq<real>, c: seq<real>, total: real)
  {
    |r| == |c| && forall k :: 0 <= k < |r| ==> r[k] * total == c[k]
  }

  /** Every entry of a non-negative sequence divided by its positive sum: non-negative, summing to one. */
  function Divided(c: seq<real>, total: real): (r: seq<real>)
    requires total > 0.0 && total == RealSum(c) && forall k :: 0 <= k < |c| ==> c[k] >= 0.0
    ensures |r| == |c| && RealSum(r) == 1.0
    ensures forall k :: 0 <= k < |r| ==> r[k] >= 0.0
    ensures Proportional(r, c, total)
  {
    var r := seq(|c|, k requires 0 <= k < |c| => c[k] / total);
    RealSumDivided(c, r, total);
    assert total / total == 1.0;
    r
  }

  /** Every share is negative or zero exactly when nothing positive is left to normalise. */
  lemma NothingPositiveLeft(s: seq<real>)
    ensures RealSum(ClampShares(s)) <= 0.0 <==> forall k :: 0 <= k < |s| ==> s[k] <= 0.0
  {
    var c := ClampShares(s);
    RealSumNonNegative(c);
    if forall k :: 0 <= k < |s| ==> s[k] <= 0.0 {
      RealSumConstant(c, 0.0);
    } else {
      var j :| 0 <= j < |s| && s[j] > 0.0;
      PositiveEntryPositiveSum(c, j);
    }
  }

  /** A non-negative sequence with a positive entry has a positive sum. */
  lemma {:induction false} PositiveEntryPositiveSum(s: seq<real>, j: nat)
    requires j < |s| && s[j] > 0.0 && forall k :: 0 <= k < |s| ==> s[k] >= 0.0
    ensures RealSum(s) > 0.0
    decreases |s|
  {
    if j == |s| - 1 {
      RealSumNonNegative(s[..|s| - 1]);
    } else {
      PositiveEntryPositiveSum(s[..|s| - 1], j);
    }
  }

  /**
    The constructor's share processing: the length check on a list, then clamping
    and normalisation.
   */
  function ProcessShares<K>(spec: ShareSpec<K>, types: seq<K>): (r: Result<seq<real>>)
    requires |types| > 0
    ensures r.Err? <==> spec.ByIndex? && |spec.list| != |types|
    ensures r.Err? ==> r.error == ShareLengthMismatch(|types|, |spec.list|)
    ensures r.Ok? ==> |r.value| == |types| && RealSum(r.value) == 1.0
    ensures r.Ok? ==> forall k :: 0 <= k < |types| ==> r.value[k] >= 0.0
  {
    match RawShares(spec, types)
    case Err(e) => Err(e)
    case Ok(raw) => Ok(Normalise(raw))
  }

  /** Without given shares every cargo type gets the same share. */
  lemma UniformByDefault<K>(types: seq<K>)
    requires |types| > 0
    ensures ProcessShares(Uniform, types) == Ok(UniformShares(|types|))
  {
    var u := UniformShares(|types|);
    assert forall k :: 0 <= k < |u| ==> u[k] >= 0.0;
    assert ClampShares(u) == u;
    var r := Normalise(u);
    assert RealSum(ClampShares(u)) == 1.0;
    forall k | 0 <= k < |u|
      ensures r[k] == u[k]
    {
      assert r[k] * 1.0 == u[k];
    }
    assert r == u;
  }

  /** Container lengths. */
  datatype Size = Twenty | Forty

  /** The TEU size of a container: 1 for a 20ft box, 2 for any other. */
  function Teu(size: Size): (t: nat)
    ensures 1 <= t <= 2 && (t == 1 <==> size == Twenty)
  {
    if size == Twenty then 1 else 2
  }

  /** `np.sum(shares * teu)`: the share-weighted mean TEU size. */
  function MeanTeu(shares: seq<real>, teu: seq<nat>): real
    requires |teu| == |shares|
  {
    RealSum(seq(|shares|, k requires 0 <= k < |shares| => shares[k] * teu[k] as real))
  }

  /** Shares that sum to one give a mean TEU size between 1 and 2, so dividing a capacity by it is safe. */
  lemma MeanTeuBounds(shares: seq<real>, teu: seq<nat>)
    requires |teu| == |shares| && RealSum(shares) == 1.0
    requires forall k :: 0 <= k < |shares| ==> shares[k] >= 0.0 && 1 <= teu[k] <= 2
    ensures 1.0 <= MeanTeu(shares, teu) <= 2.0
  {
    var weighted := seq(|shares|, k requires 0 <= k < |shares| => shares[k] * teu[k] as real);
    var doubled := seq(|shares|, k requires 0 <= k < |shares| => shares[k] * 2.0);
    RealSumMonotone(shares, weighted);
    RealSumMonotone(weighted, doubled);
    RealSumDoubled(shares, doubled);
  }

  lemma {:induction false} RealSumDoubled(s: seq<real>, d: seq<real>)
    requires |d| == |s| && forall k :: 0 <= k < |s| ==> d[k] == s[k] * 2.0
    ensures RealSum(d) == RealSum(s) * 2.0
    decreases |s|
  {
    if |s| > 0 {
      RealSumDoubled(s[..|s| - 1], d[..|d| - 1]);
    }
  }
}
