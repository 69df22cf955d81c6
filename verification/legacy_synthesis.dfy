/**
  `_generate_authentic_matrix` of the legacy generator. Its rows are synthesised
  as in the current generator (without onboard offsets), but after sparsity the
  renormalisation loop `for i in idx` reuses the name of the row index: when the
  rounded rescaled parts overshoot the volume, the row is written into row
  `idx[-1]` of the matrix instead of row `i`. The model keeps that behaviour
  (`LegacyMatrix`) and states the corrected builder next to it
  (`CorrectedLegacyMatrix`).
 */
module LegacySynthesis {
  import opened Common
  import opened Partition
  import opened RowShaping
  import opened Synthesis
  import opened Argsort

  /** `round(x * v / s)` for every part `x`: the part rescaled so that the parts would sum to about `v`. */
  function Rescaled(q: seq<int>, v: nat, s: int): (r: seq<int>)
    requires s > 0
    ensures |r| == |q|
    ensures forall k :: 0 <= k < |q| ==> -0.5 <= r[k] as real - (q[k] * v) as real / s as real <= 0.5
  {
    seq(|q|, k requires 0 <= k < |q| => RoundHalfEven((q[k] * v) as real / s as real))
  }

  /** `scaled - partition * v / s`: how far rounding moved each rescaled part up. */
  function Overshoot(q: seq<int>, scaled: seq<int>, v: nat, s: int): (e: seq<real>)
    requires s > 0 && |scaled| == |q|
    ensures |e| == |q|
  {
    seq(|q|, k requires 0 <= k < |q| => scaled[k] as real - (q[k] * v) as real / s as real)
  }

  /**
    The value the name `i` holds when the row loop writes `T[i, dest_start:]`,
    given the loop's own row index `i`, the sparsified partition `q` and the
    volume `v`. The renormalisation only rebinds `i` when the rescaled parts
    overshoot `v`; the loop `for i in idx` leaves it at the last index of `idx`,
    the `min(-diff, b)`-th position by decreasing overshoot.
   */
  function WrittenRow(i: nat, q: seq<int>, v: nat): (r: nat)
    requires |q| >= 1
    ensures r == i || r < |q|
    ensures r != i ==> Sum(q) > 0 && Sum(Rescaled(q, v, Sum(q))) > v
  {
    var s := Sum(q);
    if s <= 0 then i
    else
      var scaled := Rescaled(q, v, s);
      var diff := v - Sum(scaled);
      if diff >= 0 then i
      else
        var idx := ArgsortDesc(Overshoot(q, scaled, v, s));
        var n := if -diff < |q| then -diff else |q|;
        idx[n - 1]
  }

  /** When the rescaled parts overshoot `v` by exactly one, the row goes to a position whose rounding overshoot is largest. */
  lemma OvershootByOneGoesToLargest(i: nat, q: seq<int>, v: nat)
    requires |q| >= 1 && Sum(q) > 0
    requires Sum(Rescaled(q, v, Sum(q))) == v + 1
    ensures var e := Overshoot(q, Rescaled(q, v, Sum(q)), v, Sum(q));
            WrittenRow(i, q, v) < |q| && forall k :: 0 <= k < |q| ==> e[WrittenRow(i, q, v)] >= e[k]
  {
    var e := Overshoot(q, Rescaled(q, v, Sum(q)), v, Sum(q));
    forall k | 0 <= k < |q|
      ensures e[ArgsortDesc(e)[0]] >= e[k]
    {
      ArgsortHeadIsMax(e, k);
    }
  }

  lemma DivideBack(x: int, v: nat)
    requires v > 0
    ensures (x * v) as real / v as real == x as real
  {
    assert (x * v) as real == x as real * v as real;
  }

  /** Parts that already sum to `v` are their own rescaling. */
  lemma RescaledOfExact(q: seq<int>, v: nat)
    requires Sum(q) == v && v > 0
    ensures Rescaled(q, v, v) == q
  {
    var r := Rescaled(q, v, v);
    forall k | 0 <= k < |q|
      ensures r[k] == q[k]
    {
      DivideBack(q[k], v);
      RoundHalfEvenOfInteger(q[k]);
    }
  }

  /** A partition that was not thinned sums to `v`, so nothing is rescaled and the row stays at `i`. */
  lemma ExactPartitionStays(i: nat, q: seq<int>, v: nat)
    requires |q| >= 1 && Sum(q) == v
    ensures WrittenRow(i, q, v) == i
  {
    if v > 0 {
      RescaledOfExact(q, v);
    }
  }

  /** The partition after sparsity, the list the legacy loop renormalises. */
  function SparsePartition(v: nat, b: nat, d: RowDraws, sparsity: real): (q: seq<int>)
    requires b >= 1 && ValidDraws(d)
    ensures |q| == b && NonNegative(q) && Sum(q) <= v
  {
    Sparsify(RandomIntegerPartition(v, b, PartitionSwaps(d, v, b)), d.coin, sparsity)
  }

  /**
    A placement: from a row index, a volume and a number of destinations to the
    matrix row the synthesised row is written into.
   */
  type Placement = (nat, nat, nat) --> nat

  /** Defined for every positive width, placing the row at its own index or at a position below the width. */
  ghost predicate PlacesRows(place: Placement)
  {
    forall i: nat, v: nat, b: nat :: b >= 1 ==> place.requires(i, v, b) && (place(i, v, b) == i || place(i, v, b) < b)
  }

  /** The legacy generator's placement: the value of `i` after the renormalisation. */
  function LegacyPlace(vo: Voyage, draws: nat -> RowDraws): (place: Placement)
    requires forall i: nat :: ValidDraws(draws(i))
    ensures PlacesRows(place)
    ensures forall i: nat, v: nat, b: nat :: b >= 1 ==> place(i, v, b) == WrittenRow(i, SparsePartition(v, b, draws(i), vo.sparsity), v)
  {
    var place: Placement :=
      (i: nat, v: nat, b: nat) requires b >= 1 && ValidDraws(draws(i)) => WrittenRow(i, SparsePartition(v, b, draws(i), vo.sparsity), v);
    assert forall i: nat, v: nat, b: nat :: b >= 1 ==>
             (place.requires(i, v, b) && place(i, v, b) == WrittenRow(i, SparsePartition(v, b, draws(i), vo.sparsity), v));
    place
  }

  /** Without sparsity the partition keeps its volume, so every row is written where it belongs. */
  lemma LegacyPlaceWithoutSparsity(vo: Voyage, draws: nat -> RowDraws)
    requires forall i: nat :: ValidDraws(draws(i))
    requires vo.sparsity <= 0.0
    ensures forall i: nat, v: nat, b: nat :: b >= 1 ==> LegacyPlace(vo, draws)(i, v, b) == i
  {
    forall i: nat, v: nat, b: nat | b >= 1
      ensures LegacyPlace(vo, draws)(i, v, b) == i
    {
      var d := draws(i);
      var p := RandomIntegerPartition(v, b, PartitionSwaps(d, v, b));
      SparsifyWithoutSparsity(p, d.coin, vo.sparsity);
      ExactPartitionStays(i, SparsePartition(v, b, d, vo.sparsity), v);
    }
  }

  /** A row of volume zero sums to zero, so it is written where it belongs. */
  lemma LegacyPlaceAtZero(vo: Voyage, draws: nat -> RowDraws)
    requires forall i: nat :: ValidDraws(draws(i))
    ensures forall i: nat, b: nat :: b >= 1 ==> LegacyPlace(vo, draws)(i, 0, b) == i
  {
    forall i: nat, b: nat | b >= 1
      ensures LegacyPlace(vo, draws)(i, 0, b) == i
    {
      SumNonNegative(SparsePartition(0, b, draws(i), vo.sparsity));
    }
  }

  /**
    Pass `i` of the legacy row loop on the matrix `T`: a row with destinations
    gets the volume `max(target - assigned_so_far, 0)`, and its synthesised row
    is written from `DestStart(i)` on into the row the placement names.
   */
  function LegacyStep(vo: Voyage, targets: seq<int>, synth: Synthesiser, place: Placement, T: Matrix, i: nat): (T': Matrix)
    requires |targets| == LoadingRows(vo) && i < |targets| && MakesRows(synth) && PlacesRows(place)
    requires IsSquare(T, vo.ports)
    ensures IsSquare(T', vo.ports)
    ensures NonNegativeMatrix(T) ==> NonNegativeMatrix(T')
  {
    var ds := DestStart(vo, i);
    var b := vo.ports - ds;
    if b <= 0 then T
    else
      RowInside(vo, targets, i);
      var v := RowVolume(vo, targets, Zeros(|targets|), T, i);
      var r := place(i, v, b);
      WriteRow(T, r, ds, synth(i, v, b))
  }

  /** The matrix after the first `k` passes of the legacy row loop. */
  function LegacyRows(vo: Voyage, targets: seq<int>, synth: Synthesiser, place: Placement, k: nat): (T: Matrix)
    requires |targets| == LoadingRows(vo) && k <= |targets| && MakesRows(synth) && PlacesRows(place)
    ensures IsSquare(T, vo.ports) && NonNegativeMatrix(T)
  {
    if k == 0 then ZeroMatrixOf(vo.ports)
    else LegacyStep(vo, targets, synth, place, LegacyRows(vo, targets, synth, place, k - 1), k - 1)
  }

  /** Adding a row to the list sets that row of the materialised matrix, if the matrix has it. */
  lemma MaterialiseNext(n: nat, rows: seq<seq<int>>, row: seq<int>)
    requires forall r :: 0 <= r < |rows| ==> |rows[r]| == n
    requires |row| == n
    ensures |rows| < n ==> Materialise(n, rows + [row]) == Materialise(n, rows)[|rows| := row]
    ensures |rows| >= n ==> Materialise(n, rows + [row]) == Materialise(n, rows)
  {
    var m := Materialise(n, rows);
    var m' := Materialise(n, rows + [row]);
    assert forall r :: 0 <= r < n && r < |rows| ==> m'[r] == (rows + [row])[r] == rows[r];
  }

  /** A row of the matrix's width that is zero up to `ds` and `w` after it. */
  lemma RowFromZeroPrefix(row: seq<int>, ds: nat, w: seq<int>)
    requires ds <= |row| && row[ds..] == w
    requires forall c :: 0 <= c < |row| && row[c] != 0 ==> ds <= c
    ensures row == Zeros(ds) + w
  {
    assert forall c :: 0 <= c < ds ==> row[c] == 0;
    assert row == row[..ds] + row[ds..];
  }

  /**
    One pass of the legacy loop, with every row placed at its own index, does to
    the materialised rows what the current generator's pass does to the list.
   */
  lemma StepMatchesPass(vo: Voyage, targets: seq<int>, synth: Synthesiser, place: Placement, T: Matrix, rows: seq<seq<int>>, i: nat)
    requires ValidInputs(vo, targets, Zeros(|targets|), synth) && PlacesRows(place)
    requires forall j: nat, v: nat, b: nat :: b >= 1 ==> place(j, v, b) == j
    requires i < |targets| && |rows| == i && FullWidth(vo, rows)
    requires IsSquare(T, vo.ports) && T == Materialise(vo.ports, rows)
    ensures LegacyStep(vo, targets, synth, place, T, i)
            == Materialise(vo.ports, rows + [PassRow(vo, targets, Zeros(|targets|), synth, rows, i)])
  {
    var onboard := Zeros(|targets|);
    var row := PassRow(vo, targets, onboard, synth, rows, i);
    MaterialiseNext(vo.ports, rows, row);
    var ds := DestStart(vo, i);
    var b := vo.ports - ds;
    if b <= 0 {
      if i < vo.ports {
        assert T[i] == row;
      }
    } else {
      RowInside(vo, targets, i);
      BlockSumFrame(T, rows, i, ds);
      var v := RowVolume(vo, targets, onboard, T, i);
      assert v == RowVolume(vo, targets, onboard, rows, i);
      RowFromZeroPrefix(row, ds, synth(i, v, b));
      assert T[i][..ds] == Zeros(ds);
    }
  }

  /** With every row placed at its own index, the legacy loop builds the current generator's matrix without onboard offsets. */
  lemma {:induction false} LegacyRowsMatch(vo: Voyage, targets: seq<int>, synth: Synthesiser, place: Placement, k: nat)
    requires ValidInputs(vo, targets, Zeros(|targets|), synth) && PlacesRows(place) && k <= |targets|
    requires forall j: nat, v: nat, b: nat :: b >= 1 ==> place(j, v, b) == j
    ensures LegacyRows(vo, targets, synth, place, k) == Materialise(vo.ports, Rows(vo, targets, Zeros(|targets|), synth, k))
  {
    if k > 0 {
      LegacyRowsMatch(vo, targets, synth, place, k - 1);
      StepMatchesPass(vo, targets, synth, place, LegacyRows(vo, targets, synth, place, k - 1),
                      Rows(vo, targets, Zeros(|targets|), synth, k - 1), k - 1);
    }
  }

  /**
    The legacy `_generate_authentic_matrix` as written: the target list must have
    one entry per loading row; then every pass writes its row where the
    renormalisation left the name `i`.
   */
  function LegacyMatrix(vo: Voyage, targets: seq<int>, draws: nat -> RowDraws): (r: Result<Matrix>)
    requires forall i: nat :: ValidDraws(draws(i))
    ensures r.Err? <==> |targets| != LoadingRows(vo)
    ensures r.Err? ==> r.error == TargetLengthMismatch(|targets|, LoadingRows(vo))
    ensures r.Ok? ==> IsSquare(r.value, vo.ports) && NonNegativeMatrix(r.value)
  {
    if |targets| != LoadingRows(vo) then Err(TargetLengthMismatch(|targets|, LoadingRows(vo)))
    else Ok(LegacyRows(vo, targets, RowSynth(vo, draws), LegacyPlace(vo, draws), |targets|))
  }

  /**
    The legacy builder as intended: every row written at its own index, which is
    the current generator's builder without onboard offsets. Its matrix is
    non-negative, confined to the loading rows from their first destinations on,
    and strictly upper triangular.
   */
  function CorrectedLegacyMatrix(vo: Voyage, targets: seq<int>, draws: nat -> RowDraws): (r: Result<Matrix>)
    requires forall i: nat :: ValidDraws(draws(i))
    ensures r.Err? <==> |targets| != LoadingRows(vo)
    ensures r.Err? ==> r.error == TargetLengthMismatch(|targets|, LoadingRows(vo))
    ensures r.Ok? ==> Shaped(vo, r.value, |targets|) && StrictlyUpper(r.value)
    ensures r.Ok? ==> r.value == Build(vo, targets, Zeros(|targets|), RowSynth(vo, draws))
  {
    assert OnboardCounts(NoOnboard, |targets|).value == Zeros(|targets|);
    AuthenticMatrix(vo, targets, NoOnboard, draws)
  }

  /** Without sparsity the legacy builder is the corrected one. */
  lemma LegacyWithoutSparsity(vo: Voyage, targets: seq<int>, draws: nat -> RowDraws)
    requires forall i: nat :: ValidDraws(draws(i))
    requires vo.sparsity <= 0.0
    ensures LegacyMatrix(vo, targets, draws) == CorrectedLegacyMatrix(vo, targets, draws)
  {
    if |targets| == LoadingRows(vo) {
      LegacyPlaceWithoutSparsity(vo, draws);
      LegacyRowsMatch(vo, targets, RowSynth(vo, draws), LegacyPlace(vo, draws), |targets|);
    }
  }

  /**
    Without sparsity and perturbation, each loading row of the legacy matrix with
    a destination sums to exactly `max(target - assigned_so_far, 0)`.
   */
  lemma LegacyRowSum(vo: Voyage, targets: seq<int>, draws: nat -> RowDraws, i: nat)
    requires forall i: nat :: ValidDraws(draws(i))
    requires |targets| == LoadingRows(vo) && i < |targets| && vo.ports - DestStart(vo, i) > 0
    requires vo.sparsity <= 0.0 && vo.perturb <= 0.0
    ensures 0 <= DestStart(vo, i) && i < vo.ports
    ensures var T := LegacyMatrix(vo, targets, draws).value;
            var v := targets[i] - BlockSum(T, i, DestStart(vo, i));
            Sum(T[i]) == if v < 0 then 0 else v
  {
    LegacyWithoutSparsity(vo, targets, draws);
    AuthenticRowSum(vo, targets, NoOnboard, draws, i);
  }

  /**
    A row pass of volume zero writes zeros into its own row from `DestStart` on,
    so it keeps the matrix non-negative and changes no other entry.
   */
  lemma ZeroVolumeStep(vo: Voyage, targets: seq<int>, synth: Synthesiser, place: Placement, T: Matrix, i: nat)
    requires |targets| == LoadingRows(vo) && i < |targets| && MakesRows(synth) && PlacesRows(place)
    requires IsSquare(T, vo.ports) && NonNegativeMatrix(T)
    requires targets[i] <= 0 && EmptyForZero(synth)
    requires forall j: nat, b: nat :: b >= 1 ==> place(j, 0, b) == j
    ensures var T' := LegacyStep(vo, targets, synth, place, T, i);
            NonNegativeMatrix(T')
            && forall r, c :: 0 <= r < vo.ports && 0 <= c < vo.ports && (r != i || c < DestStart(vo, i)) ==> T'[r][c] == T[r][c]
  {
    var ds := DestStart(vo, i);
    var b := vo.ports - ds;
    if b > 0 {
      RowInside(vo, targets, i);
      BlockSumNonNegative(T, i, ds);
      assert RowVolume(vo, targets, Zeros(|targets|), T, i) == 0;
    }
  }

  /** Five ports, a loading row at every port but the last, sparsity one half, no perturbation. */
  const ExampleVoyage := Voyage(5, 2, false, 0.5, 0.0)

  /** Eleven containers to load at the first port, none at the others. */
  const ExampleTargets: seq<int> := [11, 0, 0, 0]

  /** `randint` returning 1, 4 and 8 for the first three swaps of a row (clamped to its range), else its lower bound. */
  function ExamplePick(k: nat, lo: int, hi: int): (x: int)
    ensures lo <= hi ==> lo <= x <= hi
  {
    var want := if k == 0 then 1 else if k == 1 then 4 else if k == 2 then 8 else lo;
    if want < lo then lo else if want > hi then hi else want
  }

  /** The draws of every row: only the coin of the fourth destination falls below one half. */
  function ExampleDraws(i: nat): (d: RowDraws)
    ensures ValidDraws(d)
  {
    RowDraws(ExamplePick, (c: nat) => if c == 3 then 0.1 else 0.9, (c: nat) => 0.0)
  }

  lemma ExCuts(v: nat, b: nat, s: seq<int>)
    requires v == 11 && b == 4 && s == [1, 4, 8]
    ensures ValidSwaps(s, v, b)
    ensures Cuts(v, b, s) == [2, 5, 9]
  {
    ExSwapsValid(v, b, s);
    var chosen := ExShuffle(v + b - 1, s);
    IncreasingTriple(chosen);
    SortDistinctOfIncreasing(chosen);
  }
  lemma ExShuffle(n: nat, s: seq<int>) returns (chosen: seq<int>)
    requires n == 14 && s == [1, 4, 8]
    ensures chosen == Shuffled(Positions(n), s, 3)[..3] == [2, 5, 9]
  {
    var y0 := Positions(n);
    assert Shuffled(y0, s, 0) == y0;
    var y1 := Shuffled(y0, s, 1);
    assert y1 == Swap(y0, 0, 1);
    assert y1[0] == 2 && y1[4] == 5 && y1[8] == 9;
    var y2 := Shuffled(y0, s, 2);
    assert y2 == Swap(y1, 1, 4);
    assert y2[0] == 2 && y2[1] == 5 && y2[8] == 9;
    var y3 := Shuffled(y0, s, 3);
    assert y3 == Swap(y2, 2, 8);
    assert y3[0] == 2 && y3[1] == 5 && y3[2] == 9;
    chosen := y3[..3];
  }
  lemma ExSwapsValid(v: nat, b: nat, s: seq<int>)
    requires v == 11 && b == 4 && s == [1, 4, 8]
    ensures ValidSwaps(s, v, b)
  {
    assert s[0] == 1 && s[1] == 4 && s[2] == 8;
  }
  lemma IncreasingTriple(s: seq<int>)
    requires s == [2, 5, 9]
    ensures StrictlyIncreasing(s)
  {
  }
  lemma ExGaps(cuts: seq<int>, top: int)
    requires cuts == [2, 5, 9] && top == 15
    ensures Gaps(cuts, top) == [1, 2, 3, 5]
  {
    GapsUpToIndex(cuts, top, 4, 0);
    GapsUpToIndex(cuts, top, 4, 1);
    GapsUpToIndex(cuts, top, 4, 2);
    GapsUpToIndex(cuts, top, 4, 3);
  }
  lemma Ex(v: nat, b: nat, s: seq<int>)
    requires v == 11 && b == 4 && s == [1, 4, 8]
    ensures ValidSwaps(s, v, b)
    ensures Compose(v, b, s) == [1, 2, 3, 5]
  {
    ExCuts(v, b, s);
    ExGaps(Cuts(v, b, s), v + b);
  }

  lemma SumOfFour(s: seq<int>)
    requires |s| == 4
    ensures Sum(s) == s[0] + s[1] + s[2] + s[3]
  {
    var s1, s2, s3 := s[..1], s[..2], s[..3];
    assert s1[..0] == [] && s2[..1] == s1 && s3[..2] == s2;
    assert Sum(s1) == s[0];
    assert Sum(s2) == Sum(s1) + s[1];
    assert Sum(s3) == Sum(s2) + s[2];
  }

  /** Row 0 of the example: 11 split as [1, 2, 3, 5], thinned to [1, 2, 3, 0]. */
  lemma ExampleFirstRow(v: nat, b: nat, sparsity: real, perturb: real)
    requires v == 11 && b == 4 && sparsity == 0.5 && perturb == 0.0
    ensures SparsePartition(v, b, ExampleDraws(0), sparsity) == [1, 2, 3, 0]
    ensures SynthesizeRow(v, b, ExampleDraws(0), sparsity, perturb) == [1, 2, 3, 0]
  {
    ExampleSparse(v, b, ExampleDraws(0), sparsity);
    SumOfFour(SparsePartition(v, b, ExampleDraws(0), sparsity));
  }

  /** The example's first draws split 11 as [1, 2, 3, 5] and thin it to [1, 2, 3, 0]. */
  lemma ExampleSparse(v: nat, b: nat, d: RowDraws, sparsity: real)
    requires v == 11 && b == 4 && sparsity == 0.5 && d == ExampleDraws(0)
    ensures SparsePartition(v, b, d, sparsity) == [1, 2, 3, 0]
  {
    var swaps := PartitionSwaps(d, v, b);
    assert swaps == [1, 4, 8];
    Ex(v, b, swaps);
  }

  /** Rounding [1, 2, 3, 0] * 11 / 6 = [1.83.., 3.66.., 5.5, 0] half to even. */
  lemma ExampleRescaled(q: seq<int>, v: nat, s: int)
    requires q == [1, 2, 3, 0] && v == 11 && s == 6
    ensures Rescaled(q, v, s) == [2, 4, 6, 0]
  {
    var scaled := Rescaled(q, v, s);
    assert scaled[0] == 2 && scaled[1] == 4 && scaled[3] == 0;
    assert scaled[2] == 6 by {
      assert (q[2] * v) as real / s as real == 5.5;
    }
  }

  /** The rounding overshoots [1/6, 1/3, 1/2, 0]: position 2 has the unique largest one. */
  lemma ExampleOvershoot(q: seq<int>, scaled: seq<int>, v: nat, s: int)
    requires q == [1, 2, 3, 0] && scaled == [2, 4, 6, 0] && v == 11 && s == 6
    ensures var e := Overshoot(q, scaled, v, s);
            forall k :: 0 <= k < 4 && k != 2 ==> e[k] < e[2]
  {
    var e := Overshoot(q, scaled, v, s);
    assert e[2] == 0.5 && e[0] < 0.5 && e[1] < 0.5 && e[3] == 0.0;
  }

  /**
    [4, 1, 1, 0] for volume 10 rescales to [7, 2, 2, 0], one too many, and the
    first three rounding overshoots are all exactly 1/3: the tie goes to the
    lowest index, the loop's own row 0, so the row stays in place.
   */
  lemma TiedOvershootsStayInPlace(q: seq<int>, v: nat)
    requires q == [4, 1, 1, 0] && v == 10
    ensures Sum(q) == 6 && Rescaled(q, v, 6) == [7, 2, 2, 0]
    ensures WrittenRow(0, q, v) == 0
  {
    assert Sum(q) == 6 by { SumOfFour(q); }
    var scaled := Rescaled(q, v, 6);
    TiedRescaled(q, v);
    assert Sum(scaled) == v + 1 by { SumOfFour(scaled); }
    var e := Overshoot(q, scaled, v, 6);
    TiedOvershoot(q, scaled, v);
    ArgsortHeadIsFirstMax(e, 0);
  }

  lemma TiedRescaled(q: seq<int>, v: nat)
    requires q == [4, 1, 1, 0] && v == 10
    ensures Rescaled(q, v, 6) == [7, 2, 2, 0]
  {
    var scaled := Rescaled(q, v, 6);
    assert (q[0] * v) as real / 6 as real == 40.0 / 6.0;
    assert (q[1] * v) as real / 6 as real == 10.0 / 6.0;
    assert (q[2] * v) as real / 6 as real == 10.0 / 6.0;
    assert scaled[0] == 7 && scaled[1] == 2 && scaled[2] == 2 && scaled[3] == 0;
  }

  lemma TiedOvershoot(q: seq<int>, scaled: seq<int>, v: nat)
    requires q == [4, 1, 1, 0] && scaled == [7, 2, 2, 0] && v == 10
    ensures var e := Overshoot(q, scaled, v, 6);
            e[0] == 1.0 / 3.0 && e[1] == 1.0 / 3.0 && e[2] == 1.0 / 3.0 && e[3] == 0.0
  {
  }

  /**
    [1, 2, 3, 0] for volume 11 rescales to [2, 4, 6, 0], one too many, and the
    largest rounding overshoot is at position 2: the row is written into row 2.
   */
  lemma ExampleFirstPlacement(q: seq<int>, v: nat)
    requires q == [1, 2, 3, 0] && v == 11
    ensures WrittenRow(0, q, v) == 2
  {
    assert Sum(q) == 6 by { SumOfFour(q); }
    var scaled := Rescaled(q, v, 6);
    assert scaled == [2, 4, 6, 0] by { ExampleRescaled(q, v, 6); }
    assert Sum(scaled) == v + 1 by { SumOfFour(scaled); }
    OvershootByOneGoesToLargest(0, q, v);
    ExampleOvershoot(q, scaled, v, 6);
  }

  /** The matrix after the first pass: a single row 2 of [0, 1, 2, 3, 0]. */
  lemma ExampleAfterFirstPass(T1: Matrix)
    requires T1 == WriteRow(ZeroMatrixOf(5), 2, 1, [1, 2, 3, 0])
    ensures NonNegativeMatrix(T1) && T1[2][1] == 1 && AllZero(T1[0])
  {
    var row := [1, 2, 3, 0];
    forall r, c | 0 <= r < 5 && 0 <= c < 5
      ensures T1[r][c] >= 0
    {
      if r == 2 && c >= 1 {
        assert T1[r][1 + (c - 1)] == row[c - 1];
      }
    }
  }

  /** The later passes of the example have volume zero: they leave row 0 and the entry (2, 1) alone. */
  lemma ExampleLaterPasses(vo: Voyage, targets: seq<int>, synth: Synthesiser, place: Placement, T1: Matrix)
    requires vo == ExampleVoyage && targets == ExampleTargets && MakesRows(synth) && PlacesRows(place)
    requires EmptyForZero(synth) && forall j: nat, b: nat :: b >= 1 ==> place(j, 0, b) == j
    requires IsSquare(T1, 5) && NonNegativeMatrix(T1) && T1[2][1] == 1 && AllZero(T1[0])
    ensures var T4 := LegacyStep(vo, targets, synth, place,
                        LegacyStep(vo, targets, synth, place, LegacyStep(vo, targets, synth, place, T1, 1), 2), 3);
            T4[2][1] == 1 && AllZero(T4[0])
  {
    var T2 := LegacyStep(vo, targets, synth, place, T1, 1);
    ZeroVolumeStep(vo, targets, synth, place, T1, 1);
    var T3 := LegacyStep(vo, targets, synth, place, T2, 2);
    ZeroVolumeStep(vo, targets, synth, place, T2, 2);
    ZeroVolumeStep(vo, targets, synth, place, T3, 3);
  }

  /**
    The example's passes for any synthesiser and placement that, like the
    generator's, give row 0 the row [1, 2, 3, 0] and send it to row 2, and keep
    rows of volume zero empty and in place.
   */
  lemma ExamplePasses(vo: Voyage, targets: seq<int>, synth: Synthesiser, place: Placement)
    requires vo == ExampleVoyage && targets == ExampleTargets && MakesRows(synth) && PlacesRows(place)
    requires EmptyForZero(synth) && forall j: nat, b: nat :: b >= 1 ==> place(j, 0, b) == j
    requires synth(0, 11, 4) == [1, 2, 3, 0] && place(0, 11, 4) == 2
    ensures var T := LegacyRows(vo, targets, synth, place, 4);
            T[2][1] == 1 && AllZero(T[0])
  {
    var T0 := LegacyRows(vo, targets, synth, place, 0);
    assert RowVolume(vo, targets, Zeros(4), T0, 0) == 11;
    var T1 := LegacyRows(vo, targets, synth, place, 1);
    assert T1 == WriteRow(ZeroMatrixOf(5), 2, 1, [1, 2, 3, 0]);
    ExampleAfterFirstPass(T1);
    ExampleLaterPasses(vo, targets, synth, place, T1);
  }

  /** The generator's row 0 of the example is [1, 2, 3, 0], written into row 2. */
  lemma ExampleGeneratorFirstRow()
    ensures RowSynth(ExampleVoyage, ExampleDraws)(0, 11, 4) == [1, 2, 3, 0]
    ensures LegacyPlace(ExampleVoyage, ExampleDraws)(0, 11, 4) == 2
  {
    ExampleFirstRow(11, 4, 0.5, 0.0);
    ExampleFirstPlacement([1, 2, 3, 0], 11);
  }

  /** The generator's rows of volume zero are empty and stay in place. */
  lemma ExampleGeneratorZeroRows()
    ensures EmptyForZero(RowSynth(ExampleVoyage, ExampleDraws))
    ensures forall j: nat, b: nat :: b >= 1 ==> LegacyPlace(ExampleVoyage, ExampleDraws)(j, 0, b) == j
  {
    RowSynthProperties(ExampleVoyage, ExampleDraws);
    LegacyPlaceAtZero(ExampleVoyage, ExampleDraws);
  }

  /**
    The legacy builder on the example: the first port's row lands in row 2, so
    row 0 stays empty and 1 container is booked from port 2 back to port 1,
    below the diagonal.
   */
  lemma LegacyMisplacesRow()
    ensures LegacyMatrix(ExampleVoyage, ExampleTargets, ExampleDraws).Ok?
    ensures var T := LegacyMatrix(ExampleVoyage, ExampleTargets, ExampleDraws).value;
            T[2][1] == 1 && AllZero(T[0]) && !StrictlyUpper(T)
  {
    ExampleGeneratorFirstRow();
    ExampleGeneratorZeroRows();
    ExamplePasses(ExampleVoyage, ExampleTargets, RowSynth(ExampleVoyage, ExampleDraws), LegacyPlace(ExampleVoyage, ExampleDraws));
  }

  /** Row 0 of the corrected example holds the synthesised row from column 1 on. */
  lemma ExampleBuildFirstRow(vo: Voyage, targets: seq<int>, synth: Synthesiser)
    requires vo == ExampleVoyage && targets == ExampleTargets
    requires ValidInputs(vo, targets, Zeros(4), synth) && synth(0, 11, 4) == [1, 2, 3, 0]
    ensures Build(vo, targets, Zeros(4), synth)[0] == [0, 1, 2, 3, 0]
  {
    var T := Build(vo, targets, Zeros(4), synth);
    FinalRow(vo, targets, Zeros(4), synth, 0);
    assert RowVolume(vo, targets, Zeros(4), T, 0) == 11;
    BuildShaped(vo, targets, Zeros(4), synth);
    assert T[0][0] == 0;
    assert T[0] == [T[0][0]] + T[0][1..];
  }

  /** The corrected builder on the example keeps the first port's row [1, 2, 3, 0] in row 0. */
  lemma CorrectedKeepsRow()
    ensures CorrectedLegacyMatrix(ExampleVoyage, ExampleTargets, ExampleDraws).Ok?
    ensures CorrectedLegacyMatrix(ExampleVoyage, ExampleTargets, ExampleDraws).value[0] == [0, 1, 2, 3, 0]
  {
    ExampleGeneratorFirstRow();
    CorrectedFirstRow(ExampleVoyage, ExampleTargets, ExampleDraws);
  }

  /** On the example voyage and targets, draws that make row 0 [1, 2, 3, 0] give the corrected matrix that row 0. */
  lemma CorrectedFirstRow(vo: Voyage, targets: seq<int>, draws: nat -> RowDraws)
    requires vo == ExampleVoyage && targets == ExampleTargets && forall i: nat :: ValidDraws(draws(i))
    requires RowSynth(vo, draws)(0, 11, 4) == [1, 2, 3, 0]
    ensures CorrectedLegacyMatrix(vo, targets, draws).Ok?
    ensures CorrectedLegacyMatrix(vo, targets, draws).value[0] == [0, 1, 2, 3, 0]
  {
    ExampleBuildFirstRow(vo, targets, RowSynth(vo, draws));
  }
}
