/**
  The stars-and-bars sampler of `_random_integer_partition`: a random composition of
  `v` into `b` non-negative parts. Its randomness, the `b - 1` calls
  `random.randint(i, v + b - 2)` of the partial Fisher-Yates shuffle, is an
  explicit sequence of swap indices.
 */
module Partition {
  import opened Common

  predicate StrictlyIncreasing(s: seq<int>)
  {
    forall a, b :: 0 <= a < b < |s| ==> s[a] < s[b]
  }

  predicate Distinct(s: seq<int>)
  {
    forall a, b :: 0 <= a < b < |s| ==> s[a] != s[b]
  }

  predicate Within(s: seq<int>, lo: int, hi: int)
  {
    forall k :: 0 <= k < |s| ==> lo <= s[k] <= hi
  }

  /** `x` is a composition of `total` into `parts` parts: that many non-negative integers adding up to `total`. */
  predicate IsComposition(x: seq<int>, total: int, parts: int)
  {
    |x| == parts && NonNegative(x) && Sum(x) == total
  }

  /** The sampler first clamps its arguments: `v = max(0, v)` and `b = max(1, b)`. */
  function ClampTotal(v: int): nat
  {
    if v < 0 then 0 else v
  }

  function ClampParts(b: int): nat
  {
    if b < 1 then 1 else b
  }

  /** Step `i` of the shuffle swaps position `i` with a position in `[i, v + b - 2]`. */
  predicate ValidSwaps(swaps: seq<int>, v: nat, b: nat)
    requires b >= 1
  {
    |swaps| == b - 1 && forall i :: 0 <= i < |swaps| ==> i <= swaps[i] <= v + b - 2
  }

  /** The candidate cut points 1, 2, ..., n. */
  function Positions(n: nat): (y: seq<int>)
    ensures |y| == n
    ensures forall k :: 0 <= k < n ==> y[k] == k + 1
  {
    seq(n, k => k + 1)
  }

  function Swap(y: seq<int>, i: nat, j: nat): (r: seq<int>)
    requires i < |y| && j < |y|
    ensures |r| == |y|
  {
    y[i := y[j]][j := y[i]]
  }

  /** The list after the first `i` steps of the partial Fisher-Yates shuffle. */
  function Shuffled(y: seq<int>, swaps: seq<int>, i: nat): (r: seq<int>)
    requires i <= |swaps|
    requires forall k :: 0 <= k < |swaps| ==> k <= swaps[k] < |y|
    ensures |r| == |y|
  {
    if i == 0 then y else Swap(Shuffled(y, swaps, i - 1), i - 1, swaps[i - 1])
  }

  /** A swap keeps a list of distinct values in a range distinct and in that range. */
  lemma SwapKeepsDistinct(y: seq<int>, i: nat, j: nat, lo: int, hi: int)
    requires i < |y| && j < |y|
    requires Distinct(y) && Within(y, lo, hi)
    ensures Distinct(Swap(y, i, j)) && Within(Swap(y, i, j), lo, hi)
  {
    var r := Swap(y, i, j);
    forall a, b | 0 <= a < b < |r|
      ensures r[a] != r[b]
    {
      var a' := if a == i then j else if a == j then i else a;
      var b' := if b == i then j else if b == j then i else b;
      assert r[a] == y[a'] && r[b] == y[b'];
    }
  }

  lemma {:induction false} ShuffledKeepsDistinct(y: seq<int>, swaps: seq<int>, i: nat, lo: int, hi: int)
    requires i <= |swaps|
    requires forall k :: 0 <= k < |swaps| ==> k <= swaps[k] < |y|
    requires Distinct(y) && Within(y, lo, hi)
    ensures Distinct(Shuffled(y, swaps, i)) && Within(Shuffled(y, swaps, i), lo, hi)
  {
    if i > 0 {
      ShuffledKeepsDistinct(y, swaps, i - 1, lo, hi);
      SwapKeepsDistinct(Shuffled(y, swaps, i - 1), i - 1, swaps[i - 1], lo, hi);
    }
  }

  /** Inserts a fresh value into a strictly increasing list. */
  function Insert(x: int, s: seq<int>): (r: seq<int>)
    requires StrictlyIncreasing(s) && x !in s
    ensures |r| == |s| + 1 && StrictlyIncreasing(r)
    ensures r[0] == if |s| == 0 || x < s[0] then x else s[0]
    ensures multiset(r) == multiset(s) + multiset{x}
  {
    if |s| == 0 then [x]
    else if x < s[0] then [x] + s
    else
      var tail := Insert(x, s[1..]);
      assert s == [s[0]] + s[1..];
      assert s[0] < tail[0];
      [s[0]] + tail
  }

  /** Python's `sorted` on a list of distinct values: the increasing arrangement of the same values. */
  function SortDistinct(s: seq<int>): (r: seq<int>)
    requires Distinct(s)
    ensures |r| == |s| && StrictlyIncreasing(r)
    ensures multiset(r) == multiset(s)
  {
    if |s| == 0 then []
    else
      var init := s[..|s| - 1];
      var rest := SortDistinct(init);
      assert s == init + [s[|s| - 1]];
      assert s[|s| - 1] !in multiset(init);
      Insert(s[|s| - 1], rest)
  }

  /** A value above every entry of an increasing list is inserted at its end. */
  lemma {:induction false} InsertLargest(x: int, s: seq<int>)
    requires StrictlyIncreasing(s) && forall k :: 0 <= k < |s| ==> s[k] < x
    ensures Insert(x, s) == s + [x]
  {
    if |s| > 0 {
      InsertLargest(x, s[1..]);
      assert s == [s[0]] + s[1..];
    }
  }

  /** Sorting a list that is already increasing leaves it as it is. */
  lemma {:induction false} SortDistinctOfIncreasing(s: seq<int>)
    requires StrictlyIncreasing(s)
    ensures SortDistinct(s) == s
  {
    if |s| > 0 {
      var init := s[..|s| - 1];
      SortDistinctOfIncreasing(init);
      InsertLargest(s[|s| - 1], init);
      assert init + [s[|s| - 1]] == s;
    }
  }

  /** Cut point `k` with the sentinels 0 before the first and `top` after the last. */
  function Bound(cuts: seq<int>, top: int, k: int): int
    requires -1 <= k <= |cuts|
  {
    if k < 0 then 0 else if k < |cuts| then cuts[k] else top
  }

  /** The first `m` gaps between consecutive cut points, gap `k` being part `k` of the composition. */
  function GapsUpTo(cuts: seq<int>, top: int, m: nat): (x: seq<int>)
    requires m <= |cuts| + 1
    ensures |x| == m
  {
    if m == 0 then []
    else GapsUpTo(cuts, top, m - 1) + [Bound(cuts, top, m - 1) - Bound(cuts, top, m - 2) - 1]
  }

  /** All the gaps: one more than there are cut points. */
  function Gaps(cuts: seq<int>, top: int): (x: seq<int>)
    ensures |x| == |cuts| + 1
  {
    GapsUpTo(cuts, top, |cuts| + 1)
  }

  lemma {:induction false} GapsUpToIndex(cuts: seq<int>, top: int, m: nat, k: nat)
    requires k < m <= |cuts| + 1
    ensures GapsUpTo(cuts, top, m)[k] == Bound(cuts, top, k) - Bound(cuts, top, k - 1) - 1
  {
    if k < m - 1 {
      GapsUpToIndex(cuts, top, m - 1, k);
    }
  }

  /** The first `m` gaps telescope to the `m`-th boundary minus `m`. */
  lemma {:induction false} GapsPrefixSum(cuts: seq<int>, top: int, m: nat)
    requires m <= |cuts| + 1
    ensures Sum(GapsUpTo(cuts, top, m)) == Bound(cuts, top, m - 1) - m
  {
    if m > 0 {
      var x := GapsUpTo(cuts, top, m);
      assert x[..m - 1] == GapsUpTo(cuts, top, m - 1);
      GapsPrefixSum(cuts, top, m - 1);
    }
  }

  /** Increasing cut points in [1, v + b - 1], b - 1 of them, cut v + b - 1 positions into a composition of v into b parts. */
  lemma GapsOfIncreasingCuts(cuts: seq<int>, v: nat, b: nat)
    requires b >= 1 && |cuts| == b - 1
    requires StrictlyIncreasing(cuts) && Within(cuts, 1, v + b - 1)
    ensures IsComposition(Gaps(cuts, v + b), v, b)
  {
    var top := v + b;
    var x := Gaps(cuts, top);
    forall k | 0 <= k < |x|
      ensures x[k] >= 0
    {
      GapsUpToIndex(cuts, top, |cuts| + 1, k);
      if 0 < k < |cuts| {
        assert cuts[k - 1] < cuts[k];
      }
    }
    GapsPrefixSum(cuts, top, |cuts| + 1);
  }

  /** Rearranging a list keeps its values in the same range. */
  lemma WithinPermutation(a: seq<int>, b: seq<int>, lo: int, hi: int)
    requires multiset(a) == multiset(b) && Within(b, lo, hi)
    ensures Within(a, lo, hi)
  {
    forall k | 0 <= k < |a|
      ensures lo <= a[k] <= hi
    {
      assert a[k] in multiset(b);
    }
  }

  /** The cut points chosen by the shuffle, sorted (a helper of RandomIntegerPartition). */
  function Cuts(v: nat, b: nat, swaps: seq<int>): (cuts: seq<int>)
    requires b >= 2 && ValidSwaps(swaps, v, b)
    ensures |cuts| == b - 1
    ensures StrictlyIncreasing(cuts) && Within(cuts, 1, v + b - 1)
  {
    var y := Shuffled(Positions(v + b - 1), swaps, b - 1);
    ShuffledKeepsDistinct(Positions(v + b - 1), swaps, b - 1, 1, v + b - 1);
    var chosen := y[..b - 1];
    var cuts := SortDistinct(chosen);
    WithinPermutation(cuts, chosen, 1, v + b - 1);
    cuts
  }

  /** The sorted first b - 1 entries of the shuffled list are the cut points. */
  lemma CutsOfShuffle(v: nat, b: nat, swaps: seq<int>, y: seq<int>)
    requires b >= 2 && ValidSwaps(swaps, v, b)
    requires y == Shuffled(Positions(v + b - 1), swaps, b - 1)
    ensures |y| >= b - 1 && Distinct(y[..b - 1])
    ensures SortDistinct(y[..b - 1]) == Cuts(v, b, swaps)
  {
    ShuffledKeepsDistinct(Positions(v + b - 1), swaps, b - 1, 1, v + b - 1);
  }


  /**
    A composition of `v` into `b` parts: the whole of `v` for one part, otherwise the
    gaps between the sorted cut points chosen by the shuffle.
   */
  function Compose(v: nat, b: nat, swaps: seq<int>): (x: seq<int>)
    requires b >= 1 && ValidSwaps(swaps, v, b)
    ensures IsComposition(x, v, b)
  {
    if b == 1 then
      assert Sum([v]) == v by { assert [v][..0] == []; }
      [v]
    else
      var cuts := Cuts(v, b, swaps);
      GapsOfIncreasingCuts(cuts, v, b);
      Gaps(cuts, v + b)
  }

  /**
    `_random_integer_partition(v, b)`: a list of max(1, b) non-negative integers
    summing to max(0, v); a single part is the whole (clamped) total.
   */
  function RandomIntegerPartition(v: int, b: int, swaps: seq<int>): (x: seq<int>)
    requires ValidSwaps(swaps, ClampTotal(v), ClampParts(b))
    ensures IsComposition(x, ClampTotal(v), ClampParts(b))
    ensures b <= 1 ==> x == [ClampTotal(v)]
  {
    Compose(ClampTotal(v), ClampParts(b), swaps)
  }

  /** A total of zero (or less) is split into all-zero parts. */
  lemma ZeroTotalGivesZeroParts(v: int, b: int, swaps: seq<int>)
    requires v <= 0
    requires ValidSwaps(swaps, ClampTotal(v), ClampParts(b))
    ensures AllZero(RandomIntegerPartition(v, b, swaps))
  {
    SumZeroIffAllZero(RandomIntegerPartition(v, b, swaps));
  }

  /** Every part is at most the clamped total. */
  lemma PartsBoundedByTotal(v: int, b: int, swaps: seq<int>)
    requires ValidSwaps(swaps, ClampTotal(v), ClampParts(b))
    ensures Within(RandomIntegerPartition(v, b, swaps), 0, ClampTotal(v))
  {
    SumNonNegative(RandomIntegerPartition(v, b, swaps));
  }

  /** Running totals of a sequence: `Sum(x[..k + 1])` extends `Sum(x[..k])` by `x[k]`. */
  lemma PrefixSumStep(x: seq<int>, k: nat)
    requires k < |x|
    ensures Sum(x[..k + 1]) == Sum(x[..k]) + x[k]
  {
    assert x[..k + 1][..k] == x[..k];
  }

  /** The cut points that give the composition `x`: cut `k` sits after parts 0..k and the k cuts before it. */
  function CutsOf(x: seq<int>): (cuts: seq<int>)
    requires |x| >= 1
    ensures |cuts| == |x| - 1
  {
    seq(|x| - 1, k requires 0 <= k < |x| - 1 => Sum(x[..k + 1]) + k + 1)
  }

  /** Consecutive cut points of a composition are at least one apart. */
  lemma CutsOfIncreasing(x: seq<int>)
    requires |x| >= 1 && NonNegative(x)
    ensures StrictlyIncreasing(CutsOf(x))
  {
    var c := CutsOf(x);
    forall k | 0 <= k < |c| - 1
      ensures c[k] < c[k + 1]
    {
      PrefixSumStep(x, k + 1);
    }
    forall a, a' | 0 <= a < a' < |c|
      ensures c[a] < c[a']
    {
      IncreasingByStep(c, a, a');
    }
  }

  /** The cut points of a composition of `v` into `b` parts lie in `1..v + b - 1`. */
  lemma CutsOfWithin(x: seq<int>, v: nat, b: nat)
    requires b >= 2 && IsComposition(x, v, b)
    ensures Within(CutsOf(x), 1, v + b - 1)
  {
    var c := CutsOf(x);
    CutsOfIncreasing(x);
    PrefixSumStep(x, b - 1);
    assert x[..b] == x;
    forall k | 0 <= k < |c|
      ensures 1 <= c[k] <= c[|c| - 1] <= v + b - 1
    {
      SumNonNegative(x[..k + 1]);
    }
  }

  /** Cutting a composition back at its cut points gives it again. */
  lemma CutsOfComposition(x: seq<int>, v: nat, b: nat)
    requires b >= 2 && IsComposition(x, v, b)
    ensures StrictlyIncreasing(CutsOf(x)) && Within(CutsOf(x), 1, v + b - 1)
    ensures Gaps(CutsOf(x), v + b) == x
  {
    CutsOfIncreasing(x);
    CutsOfWithin(x, v, b);
    var c := CutsOf(x);
    var g := Gaps(c, v + b);
    PrefixSumStep(x, b - 1);
    assert x[..b] == x;
    forall k | 0 <= k < b
      ensures g[k] == x[k]
    {
      GapsUpToIndex(c, v + b, b, k);
      PrefixSumStep(x, k);
    }
  }

  /** A list whose consecutive entries increase is strictly increasing. */
  lemma {:induction false} IncreasingByStep(s: seq<int>, a: nat, a': nat)
    requires a < a' < |s|
    requires forall k :: 0 <= k < |s| - 1 ==> s[k] < s[k + 1]
    ensures s[a] < s[a']
  {
    if a + 1 < a' {
      IncreasingByStep(s, a, a' - 1);
    }
  }

  /** The shuffle after `i` steps looks only at the first `i` swap indices. */
  lemma {:induction false} ShuffledPrefix(y: seq<int>, s: seq<int>, t: seq<int>, i: nat)
    requires i <= |s| && i <= |t| && s[..i] == t[..i]
    requires forall k :: 0 <= k < |s| ==> k <= s[k] < |y|
    requires forall k :: 0 <= k < |t| ==> k <= t[k] < |y|
    ensures Shuffled(y, s, i) == Shuffled(y, t, i)
  {
    if i > 0 {
      assert s[..i - 1] == t[..i - 1];
      assert s[i - 1] == s[..i][i - 1] == t[..i][i - 1] == t[i - 1];
      ShuffledPrefix(y, s, t, i - 1);
    }
  }

  /** In a list whose front holds `c[..i]` and that still holds `c[i]`, that value sits at or after `i`. */
  lemma FindNext(y: seq<int>, c: seq<int>, i: nat) returns (j: nat)
    requires i < |c| && i <= |y| && Distinct(c) && c[i] in y && y[..i] == c[..i]
    ensures i <= j < |y| && y[j] == c[i]
  {
    j :| 0 <= j < |y| && y[j] == c[i];
    assert i <= j;
  }

  /** Swapping `c[i]` into place `i` extends the front that agrees with `c` by one. */
  lemma SwapExtendsFront(y: seq<int>, c: seq<int>, i: nat, j: nat)
    requires i < |c| && i <= j < |y| && y[..i] == c[..i] && y[j] == c[i]
    ensures Swap(y, i, j)[..i + 1] == c[..i + 1]
  {
    var y' := Swap(y, i, j);
    forall k | 0 <= k <= i
      ensures y'[k] == c[k]
    {
      if k < i {
        assert y[..i][k] == c[..i][k];
      }
    }
  }

  /** One more swap index appended to the first `i` makes step `i` of the shuffle swap with it. */
  lemma ShuffledAppend(y0: seq<int>, s0: seq<int>, j: nat)
    requires |s0| <= j < |y0| && forall k :: 0 <= k < |s0| ==> k <= s0[k] < |y0|
    ensures forall k :: 0 <= k < |s0 + [j]| ==> k <= (s0 + [j])[k] < |y0|
    ensures Shuffled(y0, s0 + [j], |s0| + 1) == Swap(Shuffled(y0, s0, |s0|), |s0|, j)
  {
    var s := s0 + [j];
    assert s[..|s0|] == s0[..|s0|];
    ShuffledPrefix(y0, s, s0, |s0|);
  }

  /** A swap moves a value of the list without losing it. */
  lemma SwapKeepsValue(y: seq<int>, i: nat, j: nat, w: int)
    requires i < |y| && j < |y| && w in y
    ensures w in Swap(y, i, j)
  {
    var k :| 0 <= k < |y| && y[k] == w;
    var k' := if k == i then j else if k == j then i else k;
    assert Swap(y, i, j)[k'] == w;
  }

  /** The shuffle only rearranges the list: every value of it is still there after any number of steps. */
  lemma {:induction false} ShuffledKeepsValue(y: seq<int>, swaps: seq<int>, i: nat, w: int)
    requires i <= |swaps| && w in y
    requires forall k :: 0 <= k < |swaps| ==> k <= swaps[k] < |y|
    ensures w in Shuffled(y, swaps, i)
  {
    if i > 0 {
      ShuffledKeepsValue(y, swaps, i - 1, w);
      SwapKeepsValue(Shuffled(y, swaps, i - 1), i - 1, swaps[i - 1], w);
    }
  }

  /**
    Any `i` distinct values of a list can be brought to its front, in the order given,
    by `i` steps of the shuffle: step `k` fetches `c[k]` from wherever it is.
   */
  lemma {:induction false} ShuffleBringsToFront(y0: seq<int>, c: seq<int>, i: nat) returns (s: seq<int>)
    requires i <= |c| <= |y0| && Distinct(c)
    requires forall k :: 0 <= k < |c| ==> c[k] in y0
    ensures |s| == i && forall k :: 0 <= k < i ==> k <= s[k] < |y0|
    ensures Shuffled(y0, s, i)[..i] == c[..i]
  {
    if i == 0 {
      s := [];
    } else {
      var s0 := ShuffleBringsToFront(y0, c, i - 1);
      var y := Shuffled(y0, s0, i - 1);
      ShuffledKeepsValue(y0, s0, i - 1, c[i - 1]);
      var j := FindNext(y, c, i - 1);
      ShuffledAppend(y0, s0, j);
      SwapExtendsFront(y, c, i - 1, j);
      s := s0 + [j];
    }
  }

  /** Every value of `1..n` is among the candidate cut points. */
  lemma PositionsHold(n: nat, c: seq<int>)
    requires Within(c, 1, n)
    ensures forall k :: 0 <= k < |c| ==> c[k] in Positions(n)
  {
    forall k | 0 <= k < |c|
      ensures c[k] in Positions(n)
    {
      assert Positions(n)[c[k] - 1] == c[k];
    }
  }

  /** Any distinct values of `1..n` can be the first entries of the shuffled candidate cut points. */
  lemma FrontReachable(n: nat, c: seq<int>) returns (s: seq<int>)
    requires |c| <= n && Distinct(c) && Within(c, 1, n)
    ensures |s| == |c| && forall k :: 0 <= k < |c| ==> k <= s[k] < n
    ensures Shuffled(Positions(n), s, |c|)[..|c|] == c
  {
    PositionsHold(n, c);
    s := ShuffleBringsToFront(Positions(n), c, |c|);
    assert c[..|c|] == c;
  }

  /** Any `b - 1` increasing cut points in `1..v + b - 1` are the ones some valid swaps choose. */
  lemma CutsReachable(v: nat, b: nat, c: seq<int>) returns (s: seq<int>)
    requires b >= 2 && |c| == b - 1 && StrictlyIncreasing(c) && Within(c, 1, v + b - 1)
    ensures ValidSwaps(s, v, b) && Cuts(v, b, s) == c
  {
    assert Distinct(c);
    s := FrontReachable(v + b - 1, c);
    var y := Shuffled(Positions(v + b - 1), s, b - 1);
    assert y[..b - 1] == c;
    CutsOfShuffle(v, b, s, y);
    SortDistinctOfIncreasing(c);
    assert Cuts(v, b, s) == SortDistinct(c);
  }

  /** Every composition of `v` into at least two parts is drawn by the swaps that choose its cut points. */
  lemma ComposeReachable(v: nat, b: nat, x: seq<int>) returns (s: seq<int>)
    requires b >= 2 && IsComposition(x, v, b)
    ensures ValidSwaps(s, v, b) && Compose(v, b, s) == x
  {
    CutsOfComposition(x, v, b);
    s := CutsReachable(v, b, CutsOf(x));
  }

  /** Every composition of the clamped total into the clamped number of parts is drawn by some choice of swaps. */
  lemma CompositionReachable(v: int, b: int, x: seq<int>)
    requires IsComposition(x, ClampTotal(v), ClampParts(b))
    ensures exists swaps :: ValidSwaps(swaps, ClampTotal(v), ClampParts(b)) && RandomIntegerPartition(v, b, swaps) == x
  {
    if ClampParts(b) == 1 {
      assert x == [x[0]];
      assert Sum(x) == x[0] by { assert x[..0] == []; }
      assert RandomIntegerPartition(v, b, []) == x;
    } else {
      var s := ComposeReachable(ClampTotal(v), ClampParts(b), x);
      assert RandomIntegerPartition(v, b, s) == x;
    }
  }

  /** The first loop: `y = list(range(1, n + 1))` shuffled in place by the first `steps` swaps. */
  method ShuffleInPlace(n: nat, swaps: seq<int>, steps: nat) returns (y: seq<int>)
    requires steps <= |swaps|
    requires forall k :: 0 <= k < |swaps| ==> k <= swaps[k] < n
    ensures y == Shuffled(Positions(n), swaps, steps)
  {
    var a := new int[n](k => k + 1);
    assert a[..] == Positions(n);
    var i := 0;
    while i < steps
      invariant 0 <= i <= steps
      invariant a[..] == Shuffled(Positions(n), swaps, i)
    {
      var j := swaps[i];
      ghost var before := a[..];
      a[i], a[j] := a[j], a[i];
      assert a[..] == Swap(before, i, j);
      i := i + 1;
    }
    y := a[..];
  }

  /** The last two statements: the gap before each sorted cut point, then the gap after the last one. */
  method TakeGaps(cuts: seq<int>, top: int) returns (x: seq<int>)
    requires |cuts| >= 1
    ensures x == Gaps(cuts, top)
  {
    x := [cuts[0] - 1];
    var i := 1;
    while i < |cuts|
      invariant 1 <= i <= |cuts|
      invariant x == GapsUpTo(cuts, top, i)
    {
      x := x + [cuts[i] - cuts[i - 1] - 1];
      i := i + 1;
    }
    x := x + [top - 1 - cuts[|cuts| - 1]];
  }

  /** The first two statements: shuffle the positions, then sort the first `b - 1` of them. */
  method ChooseCuts(v: nat, b: nat, swaps: seq<int>) returns (cuts: seq<int>)
    requires b >= 2 && ValidSwaps(swaps, v, b)
    ensures cuts == Cuts(v, b, swaps)
  {
    var y := ShuffleInPlace(v + b - 1, swaps, b - 1);
    CutsOfShuffle(v, b, swaps, y);
    cuts := SortDistinct(y[..b - 1]);
  }

  /** The sampler after clamping: return early for a single part, else choose the cut points and take the gaps. */
  method ComposeInPlace(v: nat, b: nat, swaps: seq<int>) returns (x: seq<int>)
    requires b >= 1 && ValidSwaps(swaps, v, b)
    ensures x == Compose(v, b, swaps)
  {
    if b == 1 {
      return [v];
    }
    var cuts := ChooseCuts(v, b, swaps);
    x := TakeGaps(cuts, v + b);
  }

  /** `_random_integer_partition` statement by statement: clamp both arguments, then sample. */
  method SamplePartition(v: int, b: int, swaps: seq<int>) returns (x: seq<int>)
    requires ValidSwaps(swaps, ClampTotal(v), ClampParts(b))
    ensures x == RandomIntegerPartition(v, b, swaps)
  {
    var v' := if v < 0 then 0 else v;
    var b' := if b < 1 then 1 else b;
    x := ComposeInPlace(v', b', swaps);
  }
}
