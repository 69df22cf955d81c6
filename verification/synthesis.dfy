/**
  `_generate_authentic_matrix` of the current generator: a P x P origin-destination
  matrix filled row by row. Loading row `i` ships to the ports from `DestStart(i)`
  on, and its volume is the row's target less what earlier rows already carry past
  that port and less what is already on board.
 */
module Synthesis {
  import opened Common
  import opened Partition
  import opened RowShaping

  /** The generator settings the matrix builder reads. */
  datatype Voyage = Voyage(ports: nat, middleLeg: int, loadingOnly: bool, sparsity: real, perturb: real)

  /** `n_loading`: the ports before the middle leg when only loading, else every port but the last. */
  function LoadingRows(vo: Voyage): int
  {
    if vo.loadingOnly then vo.middleLeg else vo.ports - 1
  }

  /** `dest_start`: the first destination of loading row `i`. */
  function DestStart(vo: Voyage, i: int): int
  {
    if vo.loadingOnly then vo.middleLeg else i + 1
  }

  /** Every loading row ships strictly forward. */
  lemma DestStartAfterOrigin(vo: Voyage, i: int)
    requires 0 <= i < LoadingRows(vo)
    ensures DestStart(vo, i) > i
  {
  }

  /**
    `current_port_ld`: absent, a dict of one onboard matrix per cargo type, or a
    list with one onboard count per loading row.
   */
  datatype Onboard = NoOnboard | PerCargo(matrices: seq<Matrix>) | PerRow(counts: seq<int>)

  /** `arr[i, i+1:].sum()`: what one cargo type loaded at port `i` has on board past it. */
  function RowOnboard(m: Matrix, i: nat): int
    requires i < |m|
  {
    if i + 1 <= |m[i]| then Sum(m[i][i + 1..]) else 0
  }

  /** The onboard count of row `i`, summed over the cargo types' matrices. */
  function CargoOnboard(ms: seq<Matrix>, i: nat): int
    requires HasRow(ms, i)
  {
    if |ms| == 0 then 0 else CargoOnboard(ms[..|ms| - 1], i) + RowOnboard(ms[|ms| - 1], i)
  }

  /** Every cargo type's matrix has a row `i`. */
  predicate HasRow(ms: seq<Matrix>, i: nat)
  {
    forall k :: 0 <= k < |ms| ==> i < |ms[k]|
  }

  /** The dict form for rows 0 .. n - 1: the first row some matrix lacks raises an IndexError. */
  function CargoCounts(ms: seq<Matrix>, n: nat): (r: Result<seq<int>>)
    ensures r.Ok? <==> forall i :: 0 <= i < n ==> HasRow(ms, i)
    ensures r.Ok? ==> |r.value| == n && forall i :: 0 <= i < n && HasRow(ms, i) ==> r.value[i] == CargoOnboard(ms, i)
    ensures r.Err? ==> exists i :: 0 <= i < n && !HasRow(ms, i) && r.error == OnboardRowMissing(i)
                                   && forall j :: 0 <= j < i ==> HasRow(ms, j)
  {
    if n == 0 then Ok([])
    else
      match CargoCounts(ms, n - 1)
      case Err(e) => Err(e)
      case Ok(counts) =>
        if !HasRow(ms, n - 1) then Err(OnboardRowMissing(n - 1))
        else Ok(counts + [CargoOnboard(ms, n - 1)])
  }

  /**
    The onboard count of each of the `n` loading rows: zero without onboard
    cargo, the row sums of the dict's matrices, or the list as given when its
    length is right.
   */
  function OnboardCounts(o: Onboard, n: nat): (r: Result<seq<int>>)
    ensures r.Ok? ==> |r.value| == n
    ensures o.NoOnboard? ==> r.Ok? && AllZero(r.value)
    ensures o.PerRow? ==> (r.Ok? <==> |o.counts| == n)
    ensures o.PerRow? && r.Err? ==> r.error == OnboardLengthMismatch(|o.counts|, n)
    ensures o.PerRow? && r.Ok? ==> r.value == o.counts
    ensures o.PerCargo? ==> r == CargoCounts(o.matrices, n)
  {
    match o
    case NoOnboard => Ok(Zeros(n))
    case PerCargo(ms) => CargoCounts(ms, n)
    case PerRow(counts) =>
      if |counts| != n then Err(OnboardLengthMismatch(|counts|, n)) else Ok(counts)
  }

  /** `np.sum(T[:i, ds:])`: what rows 0 .. i - 1 carry to the ports from `ds` on. */
  function BlockSum(T: Matrix, i: nat, ds: nat): int
    requires i <= |T| && forall r :: 0 <= r < i ==> ds <= |T[r]|
  {
    if i == 0 then 0 else BlockSum(T, i - 1, ds) + Sum(T[i - 1][ds..])
  }

  /**
    A row synthesiser: from a row index, a volume and a number of destinations
    to the row written into the matrix. The builder is stated for any
    synthesiser; the generator's own is `RowSynth`.
   */
  type Synthesiser = (nat, nat, nat) --> seq<int>

  /** Defined for every positive width, giving a non-negative row of that width. */
  ghost predicate MakesRows(synth: Synthesiser)
  {
    (forall i: nat, v: nat, b: nat :: b >= 1 ==> synth.requires(i, v, b))
    && forall i: nat, v: nat, b: nat :: b >= 1 ==> |synth(i, v, b)| == b && NonNegative(synth(i, v, b))
  }

  /** Rows never hold more than their volume. */
  ghost predicate NeverOvershoots(synth: Synthesiser)
    requires MakesRows(synth)
  {
    forall i: nat, v: nat, b: nat :: b >= 1 ==> Sum(synth(i, v, b)) <= v
  }

  /** Rows hold exactly their volume. */
  ghost predicate KeepsVolume(synth: Synthesiser)
    requires MakesRows(synth)
  {
    forall i: nat, v: nat, b: nat :: b >= 1 ==> Sum(synth(i, v, b)) == v
  }

  /** A row of volume zero is empty. */
  ghost predicate EmptyForZero(synth: Synthesiser)
    requires MakesRows(synth)
  {
    forall i: nat, b: nat :: b >= 1 ==> AllZero(synth(i, 0, b))
  }

  /** The generator's row synthesiser: `random_integer_partition`, then sparsity, the forced fill and perturbation. */
  function RowSynth(vo: Voyage, draws: nat -> RowDraws): (synth: Synthesiser)
    requires forall i: nat :: ValidDraws(draws(i))
    ensures MakesRows(synth)
    ensures forall i: nat, v: nat, b: nat :: b >= 1 ==> synth(i, v, b) == SynthesizeRow(v, b, draws(i), vo.sparsity, vo.perturb)
  {
    var synth: Synthesiser :=
      (i: nat, v: nat, b: nat) requires b >= 1 && ValidDraws(draws(i)) => SynthesizeRow(v, b, draws(i), vo.sparsity, vo.perturb);
    assert forall i: nat, v: nat, b: nat :: b >= 1 ==>
             (synth.requires(i, v, b) && synth(i, v, b) == SynthesizeRow(v, b, draws(i), vo.sparsity, vo.perturb));
    synth
  }

  /**
    The row properties the matrix lemmas rest on: the generator's rows are empty
    for volume zero, never exceed their volume without perturbation, and hold it
    exactly without sparsity or perturbation.
   */
  lemma RowSynthProperties(vo: Voyage, draws: nat -> RowDraws)
    requires forall i: nat :: ValidDraws(draws(i))
    ensures EmptyForZero(RowSynth(vo, draws))
    ensures vo.perturb <= 0.0 ==> NeverOvershoots(RowSynth(vo, draws))
    ensures vo.sparsity <= 0.0 && vo.perturb <= 0.0 ==> KeepsVolume(RowSynth(vo, draws))
  {
    var synth := RowSynth(vo, draws);
    forall i: nat, b: nat | b >= 1
      ensures AllZero(synth(i, 0, b))
    {
      ZeroVolumeRow(b, draws(i), vo.sparsity, vo.perturb);
    }
    if vo.perturb <= 0.0 {
      forall i: nat, v: nat, b: nat | b >= 1
        ensures Sum(synth(i, v, b)) <= v
      {
        RowVolumeAtMost(v, b, draws(i), vo.sparsity, vo.perturb);
      }
    }
    if vo.sparsity <= 0.0 && vo.perturb <= 0.0 {
      forall i: nat, v: nat, b: nat | b >= 1
        ensures Sum(synth(i, v, b)) == v
      {
        RowKeepsVolume(v, b, draws(i), vo.sparsity, vo.perturb);
      }
    }
  }

  /** The matrix builder's inputs once the length checks have passed. */
  ghost predicate ValidInputs(vo: Voyage, targets: seq<int>, onboard: seq<int>, synth: Synthesiser)
  {
    |targets| == LoadingRows(vo) && |onboard| == |targets| && MakesRows(synth)
  }

  /** Rows of the matrix's width. */
  predicate FullWidth(vo: Voyage, rows: seq<seq<int>>)
  {
    forall r :: 0 <= r < |rows| ==> |rows[r]| == vo.ports
  }

  /** Row `i` with a positive number of destinations lies inside the matrix, as do its destinations. */
  lemma RowInside(vo: Voyage, targets: seq<int>, i: nat)
    requires |targets| == LoadingRows(vo) && i < |targets|
    requires vo.ports - DestStart(vo, i) > 0
    ensures 0 <= DestStart(vo, i) && i < vo.ports
  {
  }

  /**
    `v = max(target - assigned_so_far - onboard, 0)` for row `i`, where
    `assigned_so_far` is what the rows before it carry to row `i`'s destinations.
   */
  function RowVolume(vo: Voyage, targets: seq<int>, onboard: seq<int>, rows: seq<seq<int>>, i: nat): (v: nat)
    requires |targets| == LoadingRows(vo) && |onboard| == |targets| && i < |targets|
    requires i <= |rows| && FullWidth(vo, rows) && vo.ports - DestStart(vo, i) > 0
    ensures v >= targets[i] - BlockSum(rows, i, DestStart(vo, i)) - onboard[i]
    ensures v == 0 || v == targets[i] - BlockSum(rows, i, DestStart(vo, i)) - onboard[i]
  {
    RowInside(vo, targets, i);
    var v := targets[i] - BlockSum(rows, i, DestStart(vo, i)) - onboard[i];
    if v < 0 then 0 else v
  }

  /**
    Loading row `i` as pass `i` of the row loop leaves it, given the rows before
    it: all zero when it has no destinations, else zero up to `DestStart` and the
    synthesised row after.
   */
  function PassRow(vo: Voyage, targets: seq<int>, onboard: seq<int>, synth: Synthesiser, rows: seq<seq<int>>, i: nat): (row: seq<int>)
    requires ValidInputs(vo, targets, onboard, synth) && i < |targets|
    requires |rows| == i && FullWidth(vo, rows)
    ensures |row| == vo.ports && NonNegative(row)
    ensures forall c :: 0 <= c < |row| && row[c] != 0 ==> DestStart(vo, i) <= c
    ensures vo.ports - DestStart(vo, i) > 0 ==>
              0 <= DestStart(vo, i) && row[DestStart(vo, i)..]
              == synth(i, RowVolume(vo, targets, onboard, rows, i), vo.ports - DestStart(vo, i))
  {
    var ds := DestStart(vo, i);
    var b := vo.ports - ds;
    if b <= 0 then Zeros(vo.ports)
    else
      RowInside(vo, targets, i);
      var written := synth(i, RowVolume(vo, targets, onboard, rows, i), b);
      assert forall c :: ds <= c < vo.ports ==> (Zeros(ds) + written)[c] == written[c - ds];
      assert (Zeros(ds) + written)[ds..] == written;
      Zeros(ds) + written
  }

  /** The loading rows after the first `k` passes of the row loop. */
  function Rows(vo: Voyage, targets: seq<int>, onboard: seq<int>, synth: Synthesiser, k: nat): (rows: seq<seq<int>>)
    requires ValidInputs(vo, targets, onboard, synth) && k <= |targets|
    ensures |rows| == k && FullWidth(vo, rows)
  {
    if k == 0 then []
    else
      var before := Rows(vo, targets, onboard, synth, k - 1);
      before + [PassRow(vo, targets, onboard, synth, before, k - 1)]
  }

  /** numpy's P x P matrix holding the given loading rows; rows it never writes stay zero. */
  function Materialise(n: nat, rows: seq<seq<int>>): (m: Matrix)
    requires forall r :: 0 <= r < |rows| ==> |rows[r]| == n
    ensures IsSquare(m, n)
    ensures forall r :: 0 <= r < n && r < |rows| ==> m[r] == rows[r]
    ensures forall r :: |rows| <= r < n ==> AllZero(m[r])
  {
    var m := seq(n, r requires 0 <= r < n => if r < |rows| then rows[r] else Zeros(n));
    assert forall r :: 0 <= r < n ==> m[r] == if r < |rows| then rows[r] else Zeros(n);
    m
  }

  /** The matrix after every pass of the row loop. */
  function Build(vo: Voyage, targets: seq<int>, onboard: seq<int>, synth: Synthesiser): (T: Matrix)
    requires ValidInputs(vo, targets, onboard, synth)
    ensures IsSquare(T, vo.ports)
  {
    Materialise(vo.ports, Rows(vo, targets, onboard, synth, |targets|))
  }

  /** Only loading rows, and in them only destinations from `DestStart` on, may be nonzero. */
  predicate Confined(vo: Voyage, T: Matrix, k: nat)
  {
    forall r, c :: 0 <= r < |T| && 0 <= c < |T[r]| && T[r][c] != 0 ==> r < k && DestStart(vo, r) <= c
  }

  /** A square, non-negative matrix confined to the first `k` loading rows. */
  predicate Shaped(vo: Voyage, T: Matrix, k: nat)
  {
    IsSquare(T, vo.ports) && NonNegativeMatrix(T) && Confined(vo, T, k)
  }

  /** Later passes never touch a row already written: row `i` is what pass `i` made of the rows before it. */
  lemma {:induction false} RowsKeepPass(vo: Voyage, targets: seq<int>, onboard: seq<int>, synth: Synthesiser, i: nat, k: nat)
    requires ValidInputs(vo, targets, onboard, synth) && i < k <= |targets|
    ensures Rows(vo, targets, onboard, synth, k)[i]
            == PassRow(vo, targets, onboard, synth, Rows(vo, targets, onboard, synth, i), i)
    decreases k
  {
    if i < k - 1 {
      RowsKeepPass(vo, targets, onboard, synth, i, k - 1);
    }
  }

  /** The finished matrix is non-negative and holds cargo only in loading rows, from their first destinations on. */
  lemma BuildShaped(vo: Voyage, targets: seq<int>, onboard: seq<int>, synth: Synthesiser)
    requires ValidInputs(vo, targets, onboard, synth)
    ensures Shaped(vo, Build(vo, targets, onboard, synth), |targets|)
  {
    var rows := Rows(vo, targets, onboard, synth, |targets|);
    var T := Build(vo, targets, onboard, synth);
    forall r, c | 0 <= r < |T| && 0 <= c < |T[r]|
      ensures T[r][c] >= 0 && (T[r][c] != 0 ==> r < |targets| && DestStart(vo, r) <= c)
    {
      if r < |rows| {
        RowsKeepPass(vo, targets, onboard, synth, r, |targets|);
      }
    }
  }

  /**
    `_generate_authentic_matrix`: the target list must have one entry per loading
    row, the onboard offsets must be readable for every loading row, and then the
    matrix is square, non-negative and strictly upper triangular, with every
    nonzero entry in a loading row at or after its first destination.
   */
  function AuthenticMatrix(vo: Voyage, targets: seq<int>, onboard: Onboard, draws: nat -> RowDraws): (r: Result<Matrix>)
    requires forall i: nat :: ValidDraws(draws(i))
    ensures |targets| != LoadingRows(vo) ==> r == Err(TargetLengthMismatch(|targets|, LoadingRows(vo)))
    ensures |targets| == LoadingRows(vo) ==> (r.Err? <==> OnboardCounts(onboard, |targets|).Err?)
    ensures r.Err? && |targets| == LoadingRows(vo) ==> r.error == OnboardCounts(onboard, |targets|).error
    ensures r.Ok? ==> Shaped(vo, r.value, |targets|) && StrictlyUpper(r.value)
    ensures r.Ok? ==> r.value == Build(vo, targets, OnboardCounts(onboard, |targets|).value, RowSynth(vo, draws))
  {
    if |targets| != LoadingRows(vo) then Err(TargetLengthMismatch(|targets|, LoadingRows(vo)))
    else
      match OnboardCounts(onboard, |targets|)
      case Err(e) => Err(e)
      case Ok(counts) =>
        var T := Build(vo, targets, counts, RowSynth(vo, draws));
        BuildShaped(vo, targets, counts, RowSynth(vo, draws));
        ConfinedIsStrictlyUpper(vo, T, |targets|);
        Ok(T)
  }

  /** Confinement to the loading rows puts every nonzero entry strictly above the diagonal. */
  lemma ConfinedIsStrictlyUpper(vo: Voyage, T: Matrix, k: nat)
    requires k <= LoadingRows(vo) && Confined(vo, T, k)
    ensures StrictlyUpper(T)
  {
    forall r, c | 0 <= r < |T| && 0 <= c < |T[r]| && c <= r
      ensures T[r][c] == 0
    {
      if T[r][c] != 0 {
        DestStartAfterOrigin(vo, r);
      }
    }
  }

  /** BlockSum reads only the rows it sums. */
  lemma {:induction false} BlockSumFrame(T: Matrix, T': Matrix, i: nat, ds: nat)
    requires i <= |T| && i <= |T'|
    requires forall r :: 0 <= r < i ==> T[r] == T'[r] && ds <= |T[r]|
    ensures BlockSum(T, i, ds) == BlockSum(T', i, ds)
  {
    if i > 0 {
      BlockSumFrame(T, T', i - 1, ds);
    }
  }

  lemma {:induction false} BlockSumNonNegative(T: Matrix, i: nat, ds: nat)
    requires i <= |T| && forall r :: 0 <= r < i ==> ds <= |T[r]|
    requires forall r :: 0 <= r < i ==> NonNegative(T[r])
    ensures BlockSum(T, i, ds) >= 0
  {
    if i > 0 {
      BlockSumNonNegative(T, i - 1, ds);
      var row := T[i - 1][ds..];
      assert forall c :: 0 <= c < |row| ==> row[c] == T[i - 1][ds + c];
      SumNonNegative(row);
    }
  }

  /**
    In the finished matrix, loading row `i` holds from its first destination on
    the row synthesised for the volume the finished matrix leaves it: what the
    rows before it carry is what they carried when its pass ran.
   */
  lemma FinalRow(vo: Voyage, targets: seq<int>, onboard: seq<int>, synth: Synthesiser, i: nat)
    requires ValidInputs(vo, targets, onboard, synth) && i < |targets|
    requires vo.ports - DestStart(vo, i) > 0
    ensures 0 <= DestStart(vo, i) <= vo.ports && i < vo.ports
    ensures var T := Build(vo, targets, onboard, synth);
            var ds := DestStart(vo, i);
            T[i][ds..] == synth(i, RowVolume(vo, targets, onboard, T, i), vo.ports - ds)
  {
    RowInside(vo, targets, i);
    var ds := DestStart(vo, i);
    var before := Rows(vo, targets, onboard, synth, i);
    var T := Build(vo, targets, onboard, synth);
    FinalRowIsPass(vo, targets, onboard, synth, i);
    FinalBlockSum(vo, targets, onboard, synth, i, ds);
    assert RowVolume(vo, targets, onboard, before, i) == RowVolume(vo, targets, onboard, T, i);
  }

  /** Loading row `i` of the finished matrix is what pass `i` wrote. */
  lemma FinalRowIsPass(vo: Voyage, targets: seq<int>, onboard: seq<int>, synth: Synthesiser, i: nat)
    requires ValidInputs(vo, targets, onboard, synth) && i < |targets| && i < vo.ports
    ensures Build(vo, targets, onboard, synth)[i]
            == PassRow(vo, targets, onboard, synth, Rows(vo, targets, onboard, synth, i), i)
  {
    RowsKeepPass(vo, targets, onboard, synth, i, |targets|);
  }

  /** What the rows before `i` carry is the same in the finished matrix as when pass `i` ran. */
  lemma FinalBlockSum(vo: Voyage, targets: seq<int>, onboard: seq<int>, synth: Synthesiser, i: nat, ds: nat)
    requires ValidInputs(vo, targets, onboard, synth) && i < |targets| && i <= vo.ports && ds <= vo.ports
    ensures BlockSum(Build(vo, targets, onboard, synth), i, ds) == BlockSum(Rows(vo, targets, onboard, synth, i), i, ds)
  {
    var T := Build(vo, targets, onboard, synth);
    var before := Rows(vo, targets, onboard, synth, i);
    forall r | 0 <= r < i
      ensures T[r] == before[r]
    {
      RowsKeepPass(vo, targets, onboard, synth, r, |targets|);
      RowsKeepPass(vo, targets, onboard, synth, r, i);
    }
    BlockSumFrame(T, before, i, ds);
  }

  /**
    Loading row `i` of the finished matrix sums to at most its volume
    `max(target - assigned_so_far - onboard, 0)` when rows never exceed their
    volume, and to exactly that volume when rows keep it.
   */
  lemma RowSumWithinVolume(vo: Voyage, targets: seq<int>, onboard: seq<int>, synth: Synthesiser, i: nat)
    requires ValidInputs(vo, targets, onboard, synth) && i < |targets|
    requires vo.ports - DestStart(vo, i) > 0 && NeverOvershoots(synth)
    ensures 0 <= DestStart(vo, i) <= vo.ports && i < vo.ports
    ensures var T := Build(vo, targets, onboard, synth);
            Sum(T[i]) <= RowVolume(vo, targets, onboard, T, i)
            && (KeepsVolume(synth) ==> Sum(T[i]) == RowVolume(vo, targets, onboard, T, i))
  {
    FinalRow(vo, targets, onboard, synth, i);
    var ds := DestStart(vo, i);
    var T := Build(vo, targets, onboard, synth);
    assert Sum(T[i]) == Sum(T[i][ds..]) by {
      BuildShaped(vo, targets, onboard, synth);
      assert T[i] == T[i][..ds] + T[i][ds..];
      SumConcat(T[i][..ds], T[i][ds..]);
      assert AllZero(T[i][..ds]);
      SumOfZeros(T[i][..ds]);
    }
  }

  /** Every loading row is non-negative. */
  lemma RowsNonNegative(vo: Voyage, targets: seq<int>, onboard: seq<int>, synth: Synthesiser, k: nat)
    requires ValidInputs(vo, targets, onboard, synth) && k <= |targets|
    ensures forall r :: 0 <= r < k ==> NonNegative(Rows(vo, targets, onboard, synth, k)[r])
  {
    forall r | 0 <= r < k
      ensures NonNegative(Rows(vo, targets, onboard, synth, k)[r])
    {
      RowsKeepPass(vo, targets, onboard, synth, r, k);
    }
  }

  /** With no target above zero and no negative onboard count, the matrix stays empty. */
  lemma NoDemandNoCargo(vo: Voyage, targets: seq<int>, onboard: seq<int>, synth: Synthesiser)
    requires ValidInputs(vo, targets, onboard, synth)
    requires forall i :: 0 <= i < |targets| ==> targets[i] <= 0
    requires NonNegative(onboard) && EmptyForZero(synth)
    ensures ZeroMatrix(Build(vo, targets, onboard, synth))
  {
    var T := Build(vo, targets, onboard, synth);
    var rows := Rows(vo, targets, onboard, synth, |targets|);
    forall r, c | 0 <= r < |T| && 0 <= c < |T[r]|
      ensures T[r][c] == 0
    {
      if r < |rows| {
        RowsKeepPass(vo, targets, onboard, synth, r, |targets|);
        var ds := DestStart(vo, r);
        if vo.ports - ds > 0 {
          RowInside(vo, targets, r);
          var before := Rows(vo, targets, onboard, synth, r);
          RowsNonNegative(vo, targets, onboard, synth, r);
          BlockSumNonNegative(before, r, ds);
          assert RowVolume(vo, targets, onboard, before, r) == 0;
          if c >= ds {
            assert T[r][c] == synth(r, 0, vo.ports - ds)[c - ds];
          }
        }
      }
    }
  }

  /**
    The generator's matrix: without perturbation each loading row with a
    destination sums to at most `max(target - assigned_so_far - onboard, 0)`, and
    without sparsity as well it sums to exactly that.
   */
  lemma AuthenticRowSum(vo: Voyage, targets: seq<int>, onboard: Onboard, draws: nat -> RowDraws, i: nat)
    requires forall i: nat :: ValidDraws(draws(i))
    requires AuthenticMatrix(vo, targets, onboard, draws).Ok? && i < |targets|
    requires vo.ports - DestStart(vo, i) > 0 && vo.perturb <= 0.0
    ensures 0 <= DestStart(vo, i) && i < vo.ports && |OnboardCounts(onboard, |targets|).value| == |targets|
    ensures var T := AuthenticMatrix(vo, targets, onboard, draws).value;
            var v := targets[i] - BlockSum(T, i, DestStart(vo, i)) - OnboardCounts(onboard, |targets|).value[i];
            Sum(T[i]) <= (if v < 0 then 0 else v)
            && (vo.sparsity <= 0.0 ==> Sum(T[i]) == if v < 0 then 0 else v)
  {
    var counts := OnboardCounts(onboard, |targets|).value;
    RowSynthProperties(vo, draws);
    RowSumWithinVolume(vo, targets, counts, RowSynth(vo, draws), i);
  }

  /** With no target above zero and no negative onboard count, the generator's matrix is empty. */
  lemma AuthenticNoDemand(vo: Voyage, targets: seq<int>, onboard: Onboard, draws: nat -> RowDraws)
    requires forall i: nat :: ValidDraws(draws(i))
    requires AuthenticMatrix(vo, targets, onboard, draws).Ok?
    requires forall i :: 0 <= i < |targets| ==> targets[i] <= 0
    requires NonNegative(OnboardCounts(onboard, |targets|).value)
    ensures ZeroMatrix(AuthenticMatrix(vo, targets, onboard, draws).value)
  {
    var counts := OnboardCounts(onboard, |targets|).value;
    RowSynthProperties(vo, draws);
    NoDemandNoCargo(vo, targets, counts, RowSynth(vo, draws));
  }
}
