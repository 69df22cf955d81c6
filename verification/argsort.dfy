/**
  numpy's `np.argsort(-frac)` on the rows the legacy generator sorts: the indices
  of `frac` by decreasing value. numpy promises no order for equal keys; the
  model fixes one, increasing index order, by inserting indices one at a time.
 */
module Argsort {

  /** The indices 0 .. n - 1 in order. */
  function Indices(n: nat): (s: seq<nat>)
    ensures |s| == n && forall k :: 0 <= k < n ==> s[k] == k
  {
    seq(n, k => k)
  }

  /** Every entry indexes `f`, by decreasing key, ties by increasing index. */
  predicate OrderedByKey(f: seq<real>, o: seq<nat>)
  {
    (forall a :: 0 <= a < |o| ==> o[a] < |f|)
    && forall a, b :: 0 <= a < b < |o| ==> f[o[a]] > f[o[b]] || (f[o[a]] == f[o[b]] && o[a] < o[b])
  }

  /** Insert index `j`, larger than every index present, after every index whose key is at least `f[j]`. */
  function InsertByKey(f: seq<real>, o: seq<nat>, j: nat): (r: seq<nat>)
    requires j < |f| && forall a :: 0 <= a < |o| ==> o[a] < j
    ensures |r| == |o| + 1 && multiset(r) == multiset(o) + multiset{j}
    ensures forall a :: 0 <= a < |r| ==> r[a] <= j
    decreases |o|
  {
    if |o| == 0 then [j]
    else if f[o[0]] < f[j] then [j] + o
    else
      assert o == [o[0]] + o[1..];
      [o[0]] + InsertByKey(f, o[1..], j)
  }

  /** Every index of an insertion is the inserted one or one already present. */
  lemma InsertedFrom(f: seq<real>, o: seq<nat>, j: nat, b: nat)
    requires j < |f| && forall a :: 0 <= a < |o| ==> o[a] < j
    requires b < |o| + 1
    ensures InsertByKey(f, o, j)[b] == j || InsertByKey(f, o, j)[b] in o
  {
    var r := InsertByKey(f, o, j);
    assert r[b] in multiset(r);
  }

  /** An index placed in front of an ordered sequence keeps it ordered when it comes first among them all. */
  lemma ConsOrdered(f: seq<real>, x: nat, o: seq<nat>)
    requires x < |f| && OrderedByKey(f, o)
    requires forall b :: 0 <= b < |o| ==> f[x] > f[o[b]] || (f[x] == f[o[b]] && x < o[b])
    ensures OrderedByKey(f, [x] + o)
  {
    var r := [x] + o;
    forall a, b | 0 <= a < b < |r|
      ensures f[r[a]] > f[r[b]] || (f[r[a]] == f[r[b]] && r[a] < r[b])
    {
      if a > 0 {
        assert r[a] == o[a - 1] && r[b] == o[b - 1];
      }
    }
  }

  /** Insertion keeps the order. */
  lemma {:induction false} InsertKeepsOrder(f: seq<real>, o: seq<nat>, j: nat)
    requires j < |f| && forall a :: 0 <= a < |o| ==> o[a] < j
    requires OrderedByKey(f, o)
    ensures OrderedByKey(f, InsertByKey(f, o, j))
    decreases |o|
  {
    if |o| == 0 {
    } else if f[o[0]] < f[j] {
      forall b | 0 <= b < |o|
        ensures f[j] > f[o[b]] || (f[j] == f[o[b]] && j < o[b])
      {
        if b > 0 {
          assert f[o[0]] >= f[o[b]];
        }
      }
      ConsOrdered(f, j, o);
    } else {
      var tail := o[1..];
      assert forall a :: 0 <= a < |tail| ==> tail[a] == o[a + 1];
      assert OrderedByKey(f, tail);
      var rest := InsertByKey(f, tail, j);
      InsertKeepsOrder(f, tail, j);
      forall b | 0 <= b < |rest|
        ensures f[o[0]] > f[rest[b]] || (f[o[0]] == f[rest[b]] && o[0] < rest[b])
      {
        InsertedFrom(f, tail, j, b);
        if rest[b] != j {
          var a :| 0 <= a < |tail| && tail[a] == rest[b];
          assert o[a + 1] == rest[b];
        }
      }
      ConsOrdered(f, o[0], rest);
    }
  }

  /** `argsort` of the first `n` keys. */
  function ArgsortUpTo(f: seq<real>, n: nat): (o: seq<nat>)
    requires n <= |f|
    ensures |o| == n && multiset(o) == multiset(Indices(n))
    ensures OrderedByKey(f, o)
    ensures forall a :: 0 <= a < |o| ==> o[a] < n
  {
    if n == 0 then []
    else
      var o := ArgsortUpTo(f, n - 1);
      assert Indices(n) == Indices(n - 1) + [n - 1];
      var r := InsertByKey(f, o, n - 1);
      InsertKeepsOrder(f, o, n - 1);
      r
  }

  /**
    `np.argsort(-f)`: a permutation of the indices of `f`, by decreasing key,
    equal keys in increasing index order.
   */
  function ArgsortDesc(f: seq<real>): (o: seq<nat>)
    ensures |o| == |f| && multiset(o) == multiset(Indices(|f|))
    ensures OrderedByKey(f, o)
  {
    ArgsortUpTo(f, |f|)
  }

  /** The first index is the position of a largest key. */
  lemma ArgsortHeadIsMax(f: seq<real>, k: nat)
    requires k < |f|
    ensures f[ArgsortDesc(f)[0]] >= f[k]
  {
    var o := ArgsortDesc(f);
    assert k in multiset(Indices(|f|)) by { assert Indices(|f|)[k] == k; }
    assert k in multiset(o);
    var a :| 0 <= a < |o| && o[a] == k;
    if a > 0 {
      assert f[o[0]] >= f[o[a]];
    }
  }

  /** Among several largest keys, the one at the lowest index comes first. */
  lemma ArgsortHeadIsFirstMax(f: seq<real>, k: nat)
    requires k < |f|
    requires forall j :: 0 <= j < |f| ==> f[j] <= f[k]
    requires forall j :: 0 <= j < k ==> f[j] < f[k]
    ensures ArgsortDesc(f)[0] == k
  {
    var o := ArgsortDesc(f);
    assert k in multiset(Indices(|f|)) by { assert Indices(|f|)[k] == k; }
    assert k in multiset(o);
    var a :| 0 <= a < |o| && o[a] == k;
  }
}
