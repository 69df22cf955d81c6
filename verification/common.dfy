/**
  Shared vocabulary of the demand generator model: the configuration errors the
  generator raises, a result type carrying them, integer sums, Python's
  round-half-to-even on (idealised) real numbers, and square integer matrices.
 */
module Common {

  /** The exceptions the generator raises, one constructor per raise site. */
  datatype Error =
    | OnboardWithCurrentPort                             // current_port_ld together with include_current_port
    | ShareLengthMismatch(expected: int, got: nat)       // list of cargo shares of the wrong length
    | TargetLengthMismatch(got: nat, expected: int)      // len(target_utils) != number of loading rows
    | OnboardLengthMismatch(got: nat, expected: int)     // list of onboard offsets of the wrong length
    | OnboardRowMissing(row: nat)                        // IndexError reading row `row` of an onboard matrix
    | TargetIndexOutOfRange(index: int)                  // IndexError reading target_utils[pol]
    | UnknownDistribution(name: string)                  // scenario draw with an unsupported distribution
    | NegativeMean                                       // numpy rejects a Poisson mean below zero
    | NegativeScale                                      // numpy rejects a normal standard deviation below zero
    | MissingStd                                         // KeyError: no std matrix for a cargo type

  datatype Result<+T> = Ok(value: T) | Err(error: Error)

  /** An optional argument: `None` when the caller leaves it out. */
  datatype Option<+T> = None | Some(value: T)

  /**
    The first `m` rounds of a loop whose round `k` may raise: the first round
    that raises ends the loop with its error, otherwise one value per round.
   */
  function RunUpTo<T>(step: nat --> Result<T>, m: nat): (r: Result<seq<T>>)
    requires forall k :: 0 <= k < m ==> step.requires(k)
    ensures r.Ok? <==> forall k :: 0 <= k < m ==> step(k).Ok?
    ensures r.Ok? ==> |r.value| == m && forall k :: 0 <= k < m ==> r.value[k] == step(k).value
    ensures r.Err? ==> exists k :: 0 <= k < m && step(k) == Err(r.error) && forall j :: 0 <= j < k ==> step(j).Ok?
    ensures m > 0 && step(0).Err? ==> r == Err(step(0).error)
  {
    if m == 0 then Ok([])
    else
      match RunUpTo(step, m - 1)
      case Err(e) => Err(e)
      case Ok(vs) =>
        match step(m - 1)
        case Err(e) => Err(e)
        case Ok(v) => Ok(vs + [v])
  }

  /** Sum of a sequence, peeled from the back so that running totals extend naturally. */
  function Sum(s: seq<int>): int
  {
    if |s| == 0 then 0 else Sum(s[..|s| - 1]) + s[|s| - 1]
  }

  /** No value appears twice. */
  predicate DistinctSeq<K(==)>(s: seq<K>)
  {
    forall a, b :: 0 <= a < b < |s| ==> s[a] != s[b]
  }

  predicate NonNegative(s: seq<int>)
  {
    forall k :: 0 <= k < |s| ==> s[k] >= 0
  }

  predicate AllZero(s: seq<int>)
  {
    forall k :: 0 <= k < |s| ==> s[k] == 0
  }

  function Zeros(n: nat): (z: seq<int>)
    ensures |z| == n && AllZero(z)
  {
    seq(n, _ => 0)
  }

  lemma {:induction false} SumConcat(a: seq<int>, b: seq<int>)
    ensures Sum(a + b) == Sum(a) + Sum(b)
    decreases |b|
  {
    if |b| == 0 {
      assert a + b == a;
    } else {
      assert (a + b)[..|a + b| - 1] == a + b[..|b| - 1];
      SumConcat(a, b[..|b| - 1]);
    }
  }

  lemma {:induction false} SumNonNegative(s: seq<int>)
    requires NonNegative(s)
    ensures Sum(s) >= 0
    ensures forall k :: 0 <= k < |s| ==> s[k] <= Sum(s)
    decreases |s|
  {
    if |s| > 0 {
      SumNonNegative(s[..|s| - 1]);
      assert forall k :: 0 <= k < |s| - 1 ==> s[..|s| - 1][k] == s[k];
    }
  }

  lemma {:induction false} SumOfZeros(s: seq<int>)
    requires AllZero(s)
    ensures Sum(s) == 0
    decreases |s|
  {
    if |s| > 0 {
      SumOfZeros(s[..|s| - 1]);
    }
  }

  /** Lowering entries never raises the sum. */
  lemma {:induction false} SumMonotone(a: seq<int>, b: seq<int>)
    requires |a| == |b|
    requires forall k :: 0 <= k < |a| ==> a[k] <= b[k]
    ensures Sum(a) <= Sum(b)
    decreases |a|
  {
    if |a| > 0 {
      SumMonotone(a[..|a| - 1], b[..|b| - 1]);
    }
  }

  /** A non-negative sequence sums to zero exactly when it is all zero. */
  lemma {:induction false} SumZeroIffAllZero(s: seq<int>)
    requires NonNegative(s)
    ensures Sum(s) == 0 <==> AllZero(s)
  {
    if AllZero(s) {
      SumOfZeros(s);
    } else {
      SumNonNegative(s);
    }
  }

  /** Sum of a sequence that differs from `s` at one position only. */
  lemma {:induction false} SumUpdate(s: seq<int>, i: nat, x: int)
    requires i < |s|
    ensures Sum(s[i := x]) == Sum(s) - s[i] + x
  {
    assert s == s[..i] + [s[i]] + s[i + 1..];
    assert s[i := x] == s[..i] + [x] + s[i + 1..];
    SumConcat(s[..i] + [s[i]], s[i + 1..]);
    SumConcat(s[..i], [s[i]]);
    SumConcat(s[..i] + [x], s[i + 1..]);
    SumConcat(s[..i], [x]);
  }

  /**
    Python's round() on a float, over exact reals: the nearest integer, and on a
    tie the even one.
   */
  function RoundHalfEven(x: real): (r: int)
    ensures x - 0.5 <= r as real <= x + 0.5
    ensures (x - r as real == 0.5 || r as real - x == 0.5) ==> r % 2 == 0
  {
    var f := x.Floor;
    var frac := x - f as real;
    if frac < 0.5 then f
    else if frac > 0.5 then f + 1
    else if f % 2 == 0 then f
    else f + 1
  }

  lemma RoundHalfEvenOfInteger(n: int)
    ensures RoundHalfEven(n as real) == n
  {
  }

  /** A P x P integer matrix, as numpy's np.zeros((P, P), dtype=int) allocates. */
  type Matrix = seq<seq<int>>

  predicate IsSquare(m: Matrix, n: nat)
  {
    |m| == n && forall r :: 0 <= r < n ==> |m[r]| == n
  }

  predicate NonNegativeMatrix(m: Matrix)
  {
    forall r, c :: 0 <= r < |m| && 0 <= c < |m[r]| ==> m[r][c] >= 0
  }

  predicate ZeroMatrix(m: Matrix)
  {
    forall r, c :: 0 <= r < |m| && 0 <= c < |m[r]| ==> m[r][c] == 0
  }

  /** No backward or self shipments: only entries strictly above the diagonal may be nonzero. */
  predicate StrictlyUpper(m: Matrix)
  {
    forall r, c :: 0 <= r < |m| && 0 <= c < |m[r]| && c <= r ==> m[r][c] == 0
  }

  function ZeroMatrixOf(n: nat): (z: Matrix)
    ensures IsSquare(z, n) && ZeroMatrix(z)
  {
    seq(n, _ => Zeros(n))
  }

  /** numpy's `T[r, start:] = row`: row `r` keeps its first `start` entries and takes `row` after them. */
  function WriteRow(m: Matrix, r: nat, start: nat, row: seq<int>): (m': Matrix)
    requires r < |m| && start <= |m[r]| && |row| == |m[r]| - start
    ensures |m'| == |m| && |m'[r]| == |m[r]|
    ensures forall q :: 0 <= q < |m| && q != r ==> m'[q] == m[q]
    ensures forall c :: 0 <= c < start ==> m'[r][c] == m[r][c]
    ensures forall c :: 0 <= c < |row| ==> m'[r][start + c] == row[c]
  {
    m[r := m[r][..start] + row]
  }

  /**
    Writing a non-negative row into a zero matrix from column `start` on: the
    result is non-negative, nonzero only in that row from `start` on, and the row
    sums to what `row` does.
   */
  lemma WriteRowOnZeros(n: nat, r: nat, start: nat, row: seq<int>)
    requires r < n && start <= n && |row| == n - start && NonNegative(row)
    ensures var m := WriteRow(ZeroMatrixOf(n), r, start, row);
            IsSquare(m, n) && NonNegativeMatrix(m) && Sum(m[r]) == Sum(row)
            && forall q, c :: 0 <= q < |m| && 0 <= c < |m[q]| && m[q][c] != 0 ==> q == r && start <= c
  {
    var m := WriteRow(ZeroMatrixOf(n), r, start, row);
    assert m[r] == Zeros(n)[..start] + row;
    SumConcat(Zeros(n)[..start], row);
    SumOfZeros(Zeros(n)[..start]);
  }
}
