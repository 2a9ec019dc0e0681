/** Threshold voting over the providers' candidate block filters
    (`compute_blocking_filter`): the vectors are summed element-wise and every
    slot whose sum reaches the threshold is admitted. */
module Server {

  /** The threshold used when the caller gives none. */
  const DefaultThreshold: int := 2

  /** Every provider vector has length `len`. */
  predicate SameLength(filters: seq<seq<int>>, len: nat)
  {
    forall v :: v in filters ==> |v| == len
  }

  /** Every provider vector has a slot `i`. */
  predicate HasSlot(filters: seq<seq<int>>, i: nat)
  {
    forall v :: v in filters ==> i < |v|
  }

  /** Every entry of every provider vector is 0 or 1. */
  predicate ZeroOne(filters: seq<seq<int>>)
  {
    forall v, i :: v in filters && 0 <= i < |v| ==> v[i] == 0 || v[i] == 1
  }

  /** Slot `i` of the element-wise sum over all providers. */
  function ColumnSum(filters: seq<seq<int>>, i: nat): int
    requires HasSlot(filters, i)
  {
    if filters == [] then 0
    else ColumnSum(filters[..|filters| - 1], i) + filters[|filters| - 1][i]
  }

  /** The aggregated blocking filter: slot `i` is admitted when the summed
      votes reach `threshold`. The vectors must share one length (the source
      does not check it) and there must be at least one of them. */
  function ComputeBlockingFilter(filters: seq<seq<int>>, threshold: int): (r: seq<bool>)
    requires |filters| > 0 && SameLength(filters, |filters[0]|)
    ensures |r| == |filters[0]|
    ensures forall v :: v in filters ==> |r| == |v|
  {
    seq(|filters[0]|, i requires 0 <= i < |filters[0]| => ColumnSum(filters, i) >= threshold)
  }

  // ---------------------------------------------------------------------------
  // Votes

  /** The number of providers that put a 1 in slot `i`. */
  function Votes(filters: seq<seq<int>>, i: nat): (n: nat)
    requires HasSlot(filters, i)
    ensures n <= |filters|
  {
    if filters == [] then 0
    else Votes(filters[..|filters| - 1], i) + (if filters[|filters| - 1][i] == 1 then 1 else 0)
  }

  lemma {:induction false} ColumnSumCountsVotes(filters: seq<seq<int>>, i: nat)
    requires HasSlot(filters, i) && ZeroOne(filters)
    ensures ColumnSum(filters, i) == Votes(filters, i)
    decreases |filters|
  {
    if filters != [] {
      var n := |filters| - 1;
      assert filters[n] in filters;
      assert forall v :: v in filters[..n] ==> v in filters;
      ColumnSumCountsVotes(filters[..n], i);
    }
  }

  lemma {:induction false} SomeVoteIffExists(filters: seq<seq<int>>, i: nat)
    requires HasSlot(filters, i)
    ensures Votes(filters, i) >= 1 <==> exists p :: 0 <= p < |filters| && filters[p][i] == 1
    decreases |filters|
  {
    if filters != [] {
      var n := |filters| - 1;
      SomeVoteIffExists(filters[..n], i);
      if exists p :: 0 <= p < |filters| && filters[p][i] == 1 {
        var p :| 0 <= p < |filters| && filters[p][i] == 1;
        if p < n { assert filters[..n][p] == filters[p]; }
      }
    }
  }

  lemma {:induction false} AllVoteIffForall(filters: seq<seq<int>>, i: nat)
    requires HasSlot(filters, i)
    ensures Votes(filters, i) == |filters| <==> forall p :: 0 <= p < |filters| ==> filters[p][i] == 1
    decreases |filters|
  {
    if filters != [] {
      var n := |filters| - 1;
      AllVoteIffForall(filters[..n], i);
      if forall p :: 0 <= p < |filters| ==> filters[p][i] == 1 {
        assert forall p :: 0 <= p < n ==> filters[..n][p][i] == 1;
      }
      if Votes(filters, i) == |filters| {
        assert forall p :: 0 <= p < n ==> filters[..n][p] == filters[p];
      }
    }
  }

  /** For 0/1 vectors a slot is admitted exactly when at least `threshold`
      providers proposed it. */
  lemma AdmittedIffEnoughVotes(filters: seq<seq<int>>, threshold: int, i: nat)
    requires |filters| > 0 && SameLength(filters, |filters[0]|) && ZeroOne(filters)
    requires i < |filters[0]|
    ensures HasSlot(filters, i)
    ensures ComputeBlockingFilter(filters, threshold)[i] <==> Votes(filters, i) >= threshold
  {
    ColumnSumCountsVotes(filters, i);
  }

  /** With the default threshold, a slot is admitted exactly when at least two
      providers proposed it. */
  lemma DefaultThresholdNeedsTwoVotes(filters: seq<seq<int>>, i: nat)
    requires |filters| > 0 && SameLength(filters, |filters[0]|) && ZeroOne(filters)
    requires i < |filters[0]|
    ensures HasSlot(filters, i)
    ensures ComputeBlockingFilter(filters, DefaultThreshold)[i] <==> Votes(filters, i) >= 2
  {
    AdmittedIffEnoughVotes(filters, DefaultThreshold, i);
  }

  /** Threshold 1 on 0/1 vectors is the element-wise OR. */
  lemma ThresholdOneIsOr(filters: seq<seq<int>>, i: nat)
    requires |filters| > 0 && SameLength(filters, |filters[0]|) && ZeroOne(filters)
    requires i < |filters[0]|
    ensures ComputeBlockingFilter(filters, 1)[i] <==>
            exists p :: 0 <= p < |filters| && filters[p][i] == 1
  {
    AdmittedIffEnoughVotes(filters, 1, i);
    SomeVoteIffExists(filters, i);
  }

  /** Threshold P (the number of providers) on 0/1 vectors is the element-wise AND. */
  lemma ThresholdAllIsAnd(filters: seq<seq<int>>, i: nat)
    requires |filters| > 0 && SameLength(filters, |filters[0]|) && ZeroOne(filters)
    requires i < |filters[0]|
    ensures ComputeBlockingFilter(filters, |filters|)[i] <==>
            forall p :: 0 <= p < |filters| ==> filters[p][i] == 1
  {
    AdmittedIffEnoughVotes(filters, |filters|, i);
    AllVoteIffForall(filters, i);
  }

  /** A threshold above the number of providers admits nothing (on 0/1
      vectors); it is not an error. */
  lemma ThresholdAboveProvidersAdmitsNothing(filters: seq<seq<int>>, threshold: int)
    requires |filters| > 0 && SameLength(filters, |filters[0]|) && ZeroOne(filters)
    requires threshold > |filters|
    ensures forall i :: 0 <= i < |filters[0]| ==> !ComputeBlockingFilter(filters, threshold)[i]
  {
    forall i | 0 <= i < |filters[0]|
      ensures !ComputeBlockingFilter(filters, threshold)[i]
    {
      AdmittedIffEnoughVotes(filters, threshold, i);
    }
  }

  /** Raising the threshold never admits a new slot. */
  lemma ThresholdMonotone(filters: seq<seq<int>>, low: int, high: int, i: nat)
    requires |filters| > 0 && SameLength(filters, |filters[0]|)
    requires low <= high && i < |filters[0]|
    ensures ComputeBlockingFilter(filters, high)[i] ==> ComputeBlockingFilter(filters, low)[i]
  {
  }

  // ---------------------------------------------------------------------------
  // Order of the providers

  lemma {:induction false} ColumnSumConcat(a: seq<seq<int>>, b: seq<seq<int>>, i: nat)
    requires HasSlot(a, i) && HasSlot(b, i)
    ensures HasSlot(a + b, i)
    ensures ColumnSum(a + b, i) == ColumnSum(a, i) + ColumnSum(b, i)
    decreases |b|
  {
    if b == [] {
      assert a + b == a;
    } else {
      var n := |b| - 1;
      assert (a + b)[..|a + b| - 1] == a + b[..n];
      assert forall v :: v in b[..n] ==> v in b;
      ColumnSumConcat(a, b[..n], i);
    }
  }

  /** Taking provider `j` out of the list takes its entry out of the sum. */
  lemma ColumnSumRemove(b: seq<seq<int>>, j: nat, i: nat)
    requires j < |b| && HasSlot(b, i)
    ensures HasSlot(b[..j] + b[j + 1..], i)
    ensures ColumnSum(b, i) == ColumnSum(b[..j] + b[j + 1..], i) + b[j][i]
  {
    assert b[j] in b;
    assert forall v :: v in b[..j] ==> v in b;
    assert forall v :: v in b[j + 1..] ==> v in b;
    assert b == b[..j] + [b[j]] + b[j + 1..];
    ColumnSumConcat(b[..j], [b[j]], i);
    ColumnSumConcat(b[..j] + [b[j]], b[j + 1..], i);
    ColumnSumConcat(b[..j], b[j + 1..], i);
    assert ColumnSum([b[j]], i) == b[j][i] by { assert [b[j]][..0] == []; }
  }

  lemma {:induction false} ColumnSumPermutation(a: seq<seq<int>>, b: seq<seq<int>>, i: nat)
    requires multiset(a) == multiset(b) && HasSlot(a, i) && HasSlot(b, i)
    ensures ColumnSum(a, i) == ColumnSum(b, i)
    decreases |a|
  {
    if a != [] {
      var n := |a| - 1;
      var x := a[n];
      assert x in multiset(a);
      var j :| 0 <= j < |b| && b[j] == x;
      ColumnSumRemove(b, j, i);
      RemoveMatching(a, b, j);
      assert forall v :: v in a[..n] ==> v in a;
      ColumnSumPermutation(a[..n], b[..j] + b[j + 1..], i);
    }
  }

  /** Dropping the last element of one of two permutations and a matching
      element of the other leaves two permutations. */
  lemma RemoveMatching(a: seq<seq<int>>, b: seq<seq<int>>, j: nat)
    requires multiset(a) == multiset(b) && a != [] && j < |b| && b[j] == a[|a| - 1]
    ensures multiset(a[..|a| - 1]) == multiset(b[..j] + b[j + 1..])
  {
    var n := |a| - 1;
    var x := a[n];
    assert a == a[..n] + [x];
    assert b == b[..j] + [x] + b[j + 1..];
    assert multiset(a) == multiset(a[..n]) + multiset{x};
    assert multiset(b) == multiset(b[..j]) + multiset{x} + multiset(b[j + 1..]);
    assert multiset(b[..j] + b[j + 1..]) == multiset(b[..j]) + multiset(b[j + 1..]);
    assert multiset(a[..n]) == multiset(a) - multiset{x};
    assert multiset(b[..j] + b[j + 1..]) == multiset(b) - multiset{x};
  }

  /** The aggregated filter does not depend on the order of the providers. */
  lemma BlockingFilterPermutationInvariant(a: seq<seq<int>>, b: seq<seq<int>>, threshold: int)
    requires |a| > 0 && SameLength(a, |a[0]|)
    requires multiset(a) == multiset(b)
    ensures |b| > 0 && SameLength(b, |a[0]|)
    ensures ComputeBlockingFilter(a, threshold) == ComputeBlockingFilter(b, threshold)
  {
    assert |b| == |multiset(b)| == |multiset(a)| == |a|;
    assert forall v :: v in b ==> v in multiset(a);
    assert b[0] in b;
    forall i | 0 <= i < |a[0]|
      ensures ComputeBlockingFilter(a, threshold)[i] == ComputeBlockingFilter(b, threshold)[i]
    {
      ColumnSumPermutation(a, b, i);
    }
  }

  // ---------------------------------------------------------------------------
  // The behaviour exercised by the repository's tests

  function Ones(n: nat): (v: seq<int>)
    ensures |v| == n && forall i :: 0 <= i < n ==> v[i] == 1
  {
    seq(n, _ => 1)
  }

  function CountTrue(bs: seq<bool>): nat
  {
    if bs == [] then 0 else CountTrue(bs[..|bs| - 1]) + (if bs[|bs| - 1] then 1 else 0)
  }

  lemma {:induction false} CountTrueAll(bs: seq<bool>, b: bool)
    requires forall i :: 0 <= i < |bs| ==> bs[i] == b
    ensures CountTrue(bs) == if b then |bs| else 0
    decreases |bs|
  {
    if bs != [] {
      CountTrueAll(bs[..|bs| - 1], b);
    }
  }

  lemma ColumnSumOfTwo(a: seq<int>, b: seq<int>, i: nat)
    requires i < |a| && i < |b|
    ensures HasSlot([a, b], i) && ColumnSum([a, b], i) == a[i] + b[i]
  {
    assert [a, b][..1] == [a];
    assert [a][..0] == [];
    assert ColumnSum([a], i) == a[i];
  }

  lemma ColumnSumOfThree(a: seq<int>, b: seq<int>, c: seq<int>, i: nat)
    requires i < |a| && i < |b| && i < |c|
    ensures HasSlot([a, b, c], i) && ColumnSum([a, b, c], i) == a[i] + b[i] + c[i]
  {
    assert [a, b, c][..2] == [a, b];
    ColumnSumOfTwo(a, b, i);
  }

  /** Two all-ones providers of length 10 admit all ten slots at thresholds 1
      and 2 and none at threshold 3. */
  lemma TwoOnesProviders()
    ensures CountTrue(ComputeBlockingFilter([Ones(10), Ones(10)], 1)) == 10
    ensures CountTrue(ComputeBlockingFilter([Ones(10), Ones(10)], 2)) == 10
    ensures CountTrue(ComputeBlockingFilter([Ones(10), Ones(10)], 3)) == 0
  {
    var fs: seq<seq<int>> := [Ones(10), Ones(10)];
    forall t, i | 1 <= t <= 3 && 0 <= i < 10
      ensures ComputeBlockingFilter(fs, t)[i] == (t <= 2)
    {
      ColumnSumOfTwo(Ones(10), Ones(10), i);
    }
    CountTrueAll(ComputeBlockingFilter(fs, 1), true);
    CountTrueAll(ComputeBlockingFilter(fs, 2), true);
    CountTrueAll(ComputeBlockingFilter(fs, 3), false);
  }

  /** Three providers at threshold 3 admit exactly slots 1 and 5. */
  lemma ThreeProvidersAtThresholdThree()
    ensures ComputeBlockingFilter([[0, 1, 0, 1, 0, 1], [0, 1, 1, 0, 1, 1], [0, 1, 0, 0, 1, 1]], 3)
            == [false, true, false, false, false, true]
  {
    var a, b, c := [0, 1, 0, 1, 0, 1], [0, 1, 1, 0, 1, 1], [0, 1, 0, 0, 1, 1];
    var r := ComputeBlockingFilter([a, b, c], 3);
    forall i | 0 <= i < 6
      ensures r[i] == (i == 1 || i == 5)
    {
      ColumnSumOfThree(a, b, c, i);
    }
  }
}
