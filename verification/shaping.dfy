/**
  Shaping one row of the OD matrix after its partition is drawn: sparsity zeroes
  some destinations, an emptied row with positive volume gets all of it in one
  random column, and every positive entry is perturbed by a random fraction of
  itself. Each random draw is an explicit input.
 */
module RowShaping {
  import opened Common
  import opened Partition

  /**
    The draws consumed while one row is synthesised: `pick(k, lo, hi)` is the `k`-th
    `random.randint(lo, hi)` of the row, `coin(c)` the `random.random()` tested for
    column `c`, and `noise(c)` the `random.uniform(-perturb, perturb)` used for column `c`.
   */
  datatype RowDraws = RowDraws(pick: (nat, int, int) -> int, coin: nat -> real, noise: nat -> real)

  /** `randint(lo, hi)` returns a value in [lo, hi]. */
  ghost predicate ValidPick(pick: (nat, int, int) -> int)
  {
    forall k: nat, lo: int, hi: int :: lo <= hi ==> lo <= pick(k, lo, hi) <= hi
  }

  /**
    The contracts of the random functions the proofs rely on; the noise is left
    free, since `uniform(-perturb, perturb)` only ever scales a positive entry.
   */
  ghost predicate ValidDraws(d: RowDraws)
  {
    ValidPick(d.pick) && forall c: nat :: 0.0 <= d.coin(c) < 1.0
  }

  /** The draws of every cargo type's matrix: `draws(k)(i)` are those of row `i` of cargo type `k`. */
  ghost predicate ValidMatrixDraws(draws: nat -> nat -> RowDraws)
  {
    forall k: nat, i: nat :: ValidDraws(draws(k)(i))
  }

  /** The swap indices of the partition sampler: step `i` calls `randint(i, v + b - 2)`. */
  function PartitionSwaps(d: RowDraws, v: nat, b: nat): (swaps: seq<int>)
    requires b >= 1 && ValidPick(d.pick)
    ensures ValidSwaps(swaps, v, b)
  {
    seq(b - 1, i requires 0 <= i < b - 1 => d.pick(i, i, v + b - 2))
  }

  /** The sparsity loop: a destination whose coin falls below `sparsity` is zeroed, any other is kept. */
  function Sparsify(p: seq<int>, coin: nat -> real, sparsity: real): (q: seq<int>)
    ensures |q| == |p|
    ensures forall k :: 0 <= k < |p| ==> q[k] == 0 || q[k] == p[k]
    ensures NonNegative(p) ==> NonNegative(q) && Sum(q) <= Sum(p)
  {
    var q := seq(|p|, k requires 0 <= k < |p| => if coin(k) < sparsity then 0 else p[k]);
    if NonNegative(p) then
      SumMonotone(q, p);
      q
    else q
  }

  /** The fallback: a row left empty although its volume `v` is positive puts all of `v` into column `col`. */
  function FillIfEmpty(p: seq<int>, v: int, col: int): (q: seq<int>)
    requires NonNegative(p) && 0 <= col < |p|
    ensures |q| == |p| && (v >= 0 ==> NonNegative(q))
    ensures Sum(p) > 0 || v <= 0 ==> q == p
    ensures Sum(p) == 0 && v > 0 ==> q[col] == v && forall k :: 0 <= k < |q| && k != col ==> q[k] == 0
  {
    SumZeroIffAllZero(p);
    if Sum(p) > 0 || v <= 0 then p else p[col := v]
  }

  /**
    One perturbed entry: a positive entry `e` moves by the rounded fraction
    `e * noise` of itself and is floored at zero; other entries are kept.
   */
  function PerturbEntry(e: int, noise: real, perturb: real): (e': int)
    ensures e <= 0 || perturb <= 0.0 ==> e' == e
    ensures e > 0 ==> e' >= 0
  {
    if e > 0 && perturb > 0.0 then
      var delta := RoundHalfEven(e as real * noise);
      if e + delta < 0 then 0 else e + delta
    else e
  }

  /** The perturbation loop over a whole row. */
  function Perturb(p: seq<int>, noise: nat -> real, perturb: real): (q: seq<int>)
    ensures |q| == |p|
    ensures forall k :: 0 <= k < |p| && p[k] <= 0 ==> q[k] == p[k]
    ensures NonNegative(p) ==> NonNegative(q)
    ensures perturb <= 0.0 ==> q == p
  {
    var q := seq(|p|, k requires 0 <= k < |p| => PerturbEntry(p[k], noise(k), perturb));
    assert forall k :: 0 <= k < |p| ==> q[k] == PerturbEntry(p[k], noise(k), perturb);
    q
  }

  /**
    One row of length `b` for volume `v`: partition, sparsify, fill an emptied row,
    perturb. The forced column is the `b`-th randint of the row, drawn from [0, b - 1].
   */
  function SynthesizeRow(v: nat, b: nat, d: RowDraws, sparsity: real, perturb: real): (row: seq<int>)
    requires b >= 1 && ValidDraws(d)
    ensures |row| == b && NonNegative(row)
  {
    var partition := RandomIntegerPartition(v, b, PartitionSwaps(d, v, b));
    var sparse := Sparsify(partition, d.coin, sparsity);
    var filled := FillIfEmpty(sparse, v, d.pick(b - 1, 0, b - 1));
    Perturb(filled, d.noise, perturb)
  }

  /** With sparsity zero (or less) no coin, drawn from [0, 1), falls below it: the row is kept. */
  lemma SparsifyWithoutSparsity(p: seq<int>, coin: nat -> real, sparsity: real)
    requires forall c: nat :: 0.0 <= coin(c)
    requires sparsity <= 0.0
    ensures Sparsify(p, coin, sparsity) == p
  {
    var q := Sparsify(p, coin, sparsity);
    forall k | 0 <= k < |p|
      ensures q[k] == p[k]
    {
      assert !(coin(k) < sparsity);
    }
  }

  /** With sparsity one (or more) every coin falls below it: the row is cleared. */
  lemma SparsifyWithFullSparsity(p: seq<int>, coin: nat -> real, sparsity: real)
    requires forall c: nat :: coin(c) < 1.0
    requires sparsity >= 1.0
    ensures AllZero(Sparsify(p, coin, sparsity))
  {
    var q := Sparsify(p, coin, sparsity);
    forall k | 0 <= k < |p|
      ensures q[k] == 0
    {
      assert coin(k) < sparsity;
    }
  }

  /**
    Without sparsity and perturbation the row is the partition itself, so it
    sums to the requested volume.
   */
  lemma RowKeepsVolume(v: nat, b: nat, d: RowDraws, sparsity: real, perturb: real)
    requires b >= 1 && ValidDraws(d)
    requires sparsity <= 0.0 && perturb <= 0.0
    ensures SynthesizeRow(v, b, d, sparsity, perturb) == RandomIntegerPartition(v, b, PartitionSwaps(d, v, b))
    ensures Sum(SynthesizeRow(v, b, d, sparsity, perturb)) == v
  {
    var partition := RandomIntegerPartition(v, b, PartitionSwaps(d, v, b));
    SparsifyWithoutSparsity(partition, d.coin, sparsity);
  }

  /**
    Sparsity only removes volume and the fallback restores exactly `v`, so without
    perturbation a row never carries more than `v`; in particular nothing
    renormalises a sparsified row back up to `v`.
   */
  lemma RowVolumeAtMost(v: nat, b: nat, d: RowDraws, sparsity: real, perturb: real)
    requires b >= 1 && ValidDraws(d)
    requires perturb <= 0.0
    ensures Sum(SynthesizeRow(v, b, d, sparsity, perturb)) <= v
  {
    var partition := RandomIntegerPartition(v, b, PartitionSwaps(d, v, b));
    var sparse := Sparsify(partition, d.coin, sparsity);
    var filled := FillIfEmpty(sparse, v, d.pick(b - 1, 0, b - 1));
    if Sum(sparse) == 0 && v > 0 {
      SumZeroIffAllZero(sparse);
      SumUpdate(sparse, d.pick(b - 1, 0, b - 1), v);
    } else {
      SumNonNegative(sparse);
    }
    assert SynthesizeRow(v, b, d, sparsity, perturb) == filled;
  }

  /** A row whose volume is zero stays all zero, whatever the draws. */
  lemma ZeroVolumeRow(b: nat, d: RowDraws, sparsity: real, perturb: real)
    requires b >= 1 && ValidDraws(d)
    ensures AllZero(SynthesizeRow(0, b, d, sparsity, perturb))
  {
    var partition := RandomIntegerPartition(0, b, PartitionSwaps(d, 0, b));
    SumZeroIffAllZero(partition);
    var sparse := Sparsify(partition, d.coin, sparsity);
    var row := SynthesizeRow(0, b, d, sparsity, perturb);
    assert row == Perturb(sparse, d.noise, perturb);
    forall k | 0 <= k < b
      ensures row[k] == 0
    {
      assert sparse[k] == 0;
    }
  }

  /**
    When the coins clear every part of a row of positive volume, the fallback
    column receives all of it and is the only entry perturbation can move: every
    other entry stays zero, and without perturbation the column holds exactly `v`.
   */
  lemma ClearedRowGoesToOneColumn(v: nat, b: nat, d: RowDraws, sparsity: real, perturb: real)
    requires b >= 1 && ValidDraws(d) && v > 0
    requires AllZero(Sparsify(RandomIntegerPartition(v, b, PartitionSwaps(d, v, b)), d.coin, sparsity))
    ensures var row := SynthesizeRow(v, b, d, sparsity, perturb);
            var col := d.pick(b - 1, 0, b - 1);
            row[col] == PerturbEntry(v, d.noise(col), perturb)
            && (perturb <= 0.0 ==> row[col] == v)
            && forall k :: 0 <= k < b && k != col ==> row[k] == 0
  {
    var partition := RandomIntegerPartition(v, b, PartitionSwaps(d, v, b));
    var sparse := Sparsify(partition, d.coin, sparsity);
    SumOfZeros(sparse);
  }
}
