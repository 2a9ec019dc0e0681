/** Block statistics (`anonlinkclient/block_statistics.py`, its copy in
    `poc/block_statistics.py`, and the older index-only `poc/statistics.py`):
    how many comparisons the matcher will make, how large each block is, and
    how many blocks there are, either per admitted filter slot (index-based)
    or per signature two providers share (signature-based). */
module BlockStatistics {
  import opened Common

  type Signature = string

  /** A provider's candidate-block-filter map: filter slot → signatures. */
  type CbfMap = map<int, seq<Signature>>

  /** A provider's signature → record indices map. */
  type SigRecordsMap = map<Signature, seq<nat>>

  /** The two statistics classes, by what their queries read: the per-provider
      count vectors of the index-based class, and the per-provider signature
      → record-count dictionaries of the signature-based one. The filter and
      maps the constructors also store are read by no query. */
  datatype BlockStats =
    | IndexBased(countsPerBlock: seq<seq<nat>>)
    | SignatureBased(sigCounts: seq<map<Signature, nat>>)

  function Min(a: nat, b: nat): nat { if a <= b then a else b }

  // ---------------------------------------------------------------------------
  // Index-based construction

  /** `sum(len(sig_records_map[x]) for x in sigs)`. */
  function RecordsIn(sigs: seq<Signature>, sigMap: SigRecordsMap): nat
    requires forall x :: x in sigs ==> x in sigMap
  {
    if sigs == [] then 0
    else RecordsIn(sigs[..|sigs| - 1], sigMap) + |sigMap[sigs[|sigs| - 1]]|
  }

  /** Slot `i` can be counted without a KeyError: it is not admitted, or the
      cbf map has it and every signature there has a record list. */
  predicate SlotKnown(filter: seq<bool>, cbf: CbfMap, sigMap: SigRecordsMap, i: nat)
    requires i < |filter|
  {
    filter[i] ==> i in cbf && forall x :: x in cbf[i] ==> x in sigMap
  }

  predicate ProviderKnown(filter: seq<bool>, cbf: CbfMap, sigMap: SigRecordsMap)
  {
    forall i :: 0 <= i < |filter| ==> SlotKnown(filter, cbf, sigMap, i)
  }

  /** A provider's count at slot `i`: the number of records listed under the
      slot's signatures when the slot is admitted, 0 otherwise. */
  function SlotCount(filter: seq<bool>, cbf: CbfMap, sigMap: SigRecordsMap, i: nat): nat
    requires i < |filter| && SlotKnown(filter, cbf, sigMap, i)
  {
    if filter[i] then RecordsIn(cbf[i], sigMap) else 0
  }

  /** The constructor of the index-based class: one zeroed count vector per
      (cbf map, signature map) pair, `zip` stopping at the shorter tuple,
      filled in slot by slot. */
  method IndexBasedCounts(filter: seq<bool>, cbfMaps: seq<CbfMap>, sigMaps: seq<SigRecordsMap>)
    returns (r: Result<seq<seq<nat>>>)
    ensures r.Ok? <==> forall p :: 0 <= p < Min(|cbfMaps|, |sigMaps|) ==> ProviderKnown(filter, cbfMaps[p], sigMaps[p])
    ensures r.Err? ==> r.error == KeyError
    ensures r.Ok? ==>
            |r.value| == Min(|cbfMaps|, |sigMaps|) &&
            forall p :: 0 <= p < |r.value| ==>
              |r.value[p]| == |filter| &&
              forall i :: 0 <= i < |filter| ==> r.value[p][i] == SlotCount(filter, cbfMaps[p], sigMaps[p], i)
  {
    var n := Min(|cbfMaps|, |sigMaps|);
    var counts: seq<seq<nat>> := [];
    for p := 0 to n
      invariant |counts| == p
      invariant forall q :: 0 <= q < p ==> ProviderKnown(filter, cbfMaps[q], sigMaps[q])
      invariant forall q :: 0 <= q < p ==>
                  |counts[q]| == |filter| &&
                  forall i :: 0 <= i < |filter| ==> counts[q][i] == SlotCount(filter, cbfMaps[q], sigMaps[q], i)
    {
      var cbf, sigMap := cbfMaps[p], sigMaps[p];
      var vec: seq<nat> := seq(|filter|, _ => 0);
      for i := 0 to |filter|
        invariant |vec| == |filter|
        invariant forall j :: 0 <= j < i ==> SlotKnown(filter, cbf, sigMap, j) && vec[j] == SlotCount(filter, cbf, sigMap, j)
        invariant forall j :: i <= j < |filter| ==> vec[j] == 0
      {
        if filter[i] {
          if i !in cbf || !(forall x :: x in cbf[i] ==> x in sigMap) {
            assert !SlotKnown(filter, cbf, sigMap, i);
            return Err(KeyError);
          }
          vec := vec[i := RecordsIn(cbf[i], sigMap)];
        }
      }
      counts := counts + [vec];
    }
    r := Ok(counts);
  }

  // ---------------------------------------------------------------------------
  // Index-based queries

  /** Every provider's vector has the length of the first. */
  predicate Rectangular(vs: seq<seq<nat>>)
  {
    forall p :: 0 <= p < |vs| ==> |vs[p]| == |vs[0]|
  }

  /** The providers' counts at slot `i`. */
  function Column(vs: seq<seq<nat>>, i: nat): (c: seq<int>)
    requires Rectangular(vs) && |vs| > 0 && i < |vs[0]|
    ensures |c| == |vs|
  {
    seq(|vs|, p requires 0 <= p < |vs| => vs[p][i])
  }

  /** `reduce(lambda x, y: x * y, vs)` on numpy vectors. */
  function ReduceProduct(vs: seq<seq<nat>>): (r: seq<nat>)
    requires |vs| > 0 && Rectangular(vs)
    ensures |r| == |vs[0]|
  {
    if |vs| == 1 then vs[0]
    else
      var front := ReduceProduct(vs[..|vs| - 1]);
      seq(|front|, i requires 0 <= i < |front| => front[i] * vs[|vs| - 1][i])
  }

  /** `reduce(lambda x, y: x + y, vs)` on numpy vectors. */
  function ReduceSum(vs: seq<seq<nat>>): (r: seq<nat>)
    requires |vs| > 0 && Rectangular(vs)
    ensures |r| == |vs[0]|
  {
    if |vs| == 1 then vs[0]
    else
      var front := ReduceSum(vs[..|vs| - 1]);
      seq(|front|, i requires 0 <= i < |front| => front[i] + vs[|vs| - 1][i])
  }

  /** The folds compute, slot by slot, the product and the sum of the
      providers' counts at that slot. */
  lemma {:induction false} ReduceIsColumnwise(vs: seq<seq<nat>>, i: nat)
    requires |vs| > 0 && Rectangular(vs) && i < |vs[0]|
    ensures ReduceProduct(vs)[i] == Product(Column(vs, i))
    ensures ReduceSum(vs)[i] == Sum(Column(vs, i))
    decreases |vs|
  {
    var n := |vs| - 1;
    if n == 0 {
      assert Column(vs, i)[..0] == [];
    } else {
      var front := vs[..n];
      ReduceIsColumnwise(front, i);
      assert Column(vs, i)[..n] == Column(front, i);
    }
  }

  /** `reduce(lambda x, y: x * y, counts)`: the providers' count vectors
      multiplied slot by slot. */
  function PerSlotProducts(counts: seq<seq<nat>>): (r: seq<int>)
    requires |counts| > 0 && Rectangular(counts)
    ensures |r| == |counts[0]|
    ensures forall i :: 0 <= i < |r| ==> r[i] == Product(Column(counts, i))
  {
    var v := ReduceProduct(counts);
    forall i | 0 <= i < |v| ensures v[i] == Product(Column(counts, i)) {
      ReduceIsColumnwise(counts, i);
    }
    seq(|v|, i requires 0 <= i < |v| => v[i])
  }

  function PerSlotSums(counts: seq<seq<nat>>): (r: seq<int>)
    requires |counts| > 0 && Rectangular(counts)
    ensures |r| == |counts[0]|
    ensures forall i :: 0 <= i < |r| ==> r[i] == Sum(Column(counts, i))
  {
    var v := ReduceSum(counts);
    forall i | 0 <= i < |v| ensures v[i] == Sum(Column(counts, i)) {
      ReduceIsColumnwise(counts, i);
    }
    seq(|v|, i requires 0 <= i < |v| => v[i])
  }

  /** Index-based `total_comparisons`: the sum over slots of the product of
      every provider's count there. `reduce` of an empty tuple (no providers)
      raises TypeError. */
  function IndexTotalComparisons(counts: seq<seq<nat>>): (r: Result<int>)
    requires Rectangular(counts)
    ensures r.Err? <==> counts == []
    ensures r.Err? ==> r.error.TypeError?
    ensures r.Ok? ==> r.value == Sum(seq(|counts[0]|, i requires 0 <= i < |counts[0]| => Product(Column(counts, i))))
  {
    if counts == [] then Err(TypeError("reduce() of empty iterable with no initial value"))
    else
      var products := PerSlotProducts(counts);
      assert products == seq(|counts[0]|, i requires 0 <= i < |counts[0]| => Product(Column(counts, i)));
      Ok(Sum(products))
  }

  /** `v[np.nonzero(v)]`: the nonzero entries, in order. */
  function Nonzero(v: seq<int>): seq<int>
  {
    if v == [] then []
    else Nonzero(v[..|v| - 1]) + (if v[|v| - 1] != 0 then [v[|v| - 1]] else [])
  }

  /** The number of nonzero entries. */
  function NonzeroCount(v: seq<int>): nat
  {
    if v == [] then 0 else NonzeroCount(v[..|v| - 1]) + (if v[|v| - 1] != 0 then 1 else 0)
  }

  /** Keeping the nonzero entries keeps exactly that many, none of them zero,
      and drops nothing from the total. */
  lemma {:induction false} NonzeroKeepsTotal(v: seq<int>)
    ensures |Nonzero(v)| == NonzeroCount(v)
    ensures forall k :: 0 <= k < |Nonzero(v)| ==> Nonzero(v)[k] != 0
    ensures Sum(Nonzero(v)) == Sum(v)
    decreases |v|
  {
    if v != [] {
      var n := |v| - 1;
      NonzeroKeepsTotal(v[..n]);
      SumConcat(Nonzero(v[..n]), if v[n] != 0 then [v[n]] else []);
    }
  }

  lemma {:induction false} SumConcat(a: seq<int>, b: seq<int>)
    ensures Sum(a + b) == Sum(a) + Sum(b)
    decreases |b|
  {
    if b == [] {
      assert a + b == a;
    } else {
      assert (a + b)[..|a + b| - 1] == a + b[..|b| - 1];
      SumConcat(a, b[..|b| - 1]);
    }
  }

  /** Index-based `elements_per_block`: the nonzero per-slot sums over
      providers, in slot order. */
  function IndexElementsPerBlock(counts: seq<seq<nat>>): (r: Result<seq<int>>)
    requires Rectangular(counts)
    ensures r.Err? <==> counts == []
    ensures r.Ok? ==> r.value == Nonzero(PerSlotSums(counts))
  {
    if counts == [] then Err(TypeError("reduce() of empty iterable with no initial value"))
    else Ok(Nonzero(PerSlotSums(counts)))
  }

  /** Index-based `number_of_blocks`: the length of `elements_per_block`. */
  function IndexNumberOfBlocks(counts: seq<seq<nat>>): (r: Result<nat>)
    requires Rectangular(counts)
    ensures r.Err? <==> counts == []
    ensures r.Ok? ==> r.value == NonzeroCount(PerSlotSums(counts))
  {
    match IndexElementsPerBlock(counts)
    case Err(e) => Err(e)
    case Ok(elements) =>
      NonzeroKeepsTotal(PerSlotSums(counts));
      Ok(|elements|)
  }

  /** The number of admitted slots. */
  function Admitted(filter: seq<bool>): nat
  {
    if filter == [] then 0 else Admitted(filter[..|filter| - 1]) + (if filter[|filter| - 1] then 1 else 0)
  }

  lemma {:induction false} NonzeroWithin(v: seq<int>, filter: seq<bool>)
    requires |v| == |filter|
    requires forall i :: 0 <= i < |v| && !filter[i] ==> v[i] == 0
    ensures NonzeroCount(v) <= Admitted(filter)
    decreases |v|
  {
    if v != [] {
      NonzeroWithin(v[..|v| - 1], filter[..|filter| - 1]);
    }
  }

  lemma {:induction false} SumOfZeros(c: seq<int>)
    requires forall p :: 0 <= p < |c| ==> c[p] == 0
    ensures Sum(c) == 0
    decreases |c|
  {
    if c != [] {
      SumOfZeros(c[..|c| - 1]);
    }
  }

  /** For counts the constructor built, every block the statistics report
      is an admitted slot, so there are no more blocks than admitted slots,
      and the block sizes add up to all records counted in the vectors. */
  lemma BlocksWithinAdmitted(filter: seq<bool>, counts: seq<seq<nat>>)
    requires |counts| > 0 && Rectangular(counts) && |counts[0]| == |filter|
    requires forall p, i :: 0 <= p < |counts| && 0 <= i < |filter| && !filter[i] ==> counts[p][i] == 0
    ensures IndexNumberOfBlocks(counts).Ok?
    ensures IndexNumberOfBlocks(counts).value <= Admitted(filter)
    ensures Sum(IndexElementsPerBlock(counts).value) == Sum(PerSlotSums(counts))
  {
    var sums := PerSlotSums(counts);
    forall i | 0 <= i < |sums| && !filter[i]
      ensures sums[i] == 0
    {
      SumOfZeros(Column(counts, i));
    }
    NonzeroWithin(sums, filter);
    NonzeroKeepsTotal(sums);
  }

  // ---------------------------------------------------------------------------
  // Signature-based construction and queries

  /** The signature-based constructor's
      `[{sig: len(v) for sig, v in m.items()} for m in sig_records_maps]`. */
  function SignatureCounts(sigMaps: seq<SigRecordsMap>): (r: seq<map<Signature, nat>>)
    ensures |r| == |sigMaps|
  {
    seq(|sigMaps|, p requires 0 <= p < |sigMaps| => map s | s in sigMaps[p] :: |sigMaps[p][s]|)
  }

  /** `a[sig] * b[sig]` for a signature both providers have. */
  function ProductIn(a: map<Signature, nat>, b: map<Signature, nat>): Signature -> int
  {
    s => if s in a && s in b then a[s] * b[s] else 0
  }

  /** `a[sig] + b[sig]` for a signature both providers have. */
  function SizeIn(a: map<Signature, nat>, b: map<Signature, nat>): Signature -> nat
  {
    s => if s in a && s in b then a[s] + b[s] else 0
  }

  /** Comparisons contributed by pairs (i, j'), j <= j' < |c|. */
  ghost function RowComparisons(c: seq<map<Signature, nat>>, i: nat, j: nat): int
    requires i < |c|
    decreases |c| - j
  {
    if j >= |c| then 0
    else SumOver(c[i].Keys * c[j].Keys, ProductIn(c[i], c[j])) + RowComparisons(c, i, j + 1)
  }

  /** Comparisons contributed by every pair (i', j') with i <= i' < j'. */
  ghost function ComparisonsFrom(c: seq<map<Signature, nat>>, i: nat): int
    decreases |c| - i
  {
    if i >= |c| then 0 else RowComparisons(c, i, i + 1) + ComparisonsFrom(c, i + 1)
  }

  ghost function RowSizes(c: seq<map<Signature, nat>>, i: nat, j: nat): multiset<nat>
    requires i < |c|
    decreases |c| - j
  {
    if j >= |c| then multiset{}
    else ImageOver(c[i].Keys * c[j].Keys, SizeIn(c[i], c[j])) + RowSizes(c, i, j + 1)
  }

  /** The block sizes of every pair (i', j') with i <= i' < j': one per
      signature the two providers share. */
  ghost function SizesFrom(c: seq<map<Signature, nat>>, i: nat): multiset<nat>
    decreases |c| - i
  {
    if i >= |c| then multiset{} else RowSizes(c, i, i + 1) + SizesFrom(c, i + 1)
  }

  function RowBlocks(c: seq<map<Signature, nat>>, i: nat, j: nat): nat
    requires i < |c|
    decreases |c| - j
  {
    if j >= |c| then 0 else |c[i].Keys * c[j].Keys| + RowBlocks(c, i, j + 1)
  }

  /** The number of signatures shared, summed over every pair (i', j') with
      i <= i' < j'. */
  function BlocksFrom(c: seq<map<Signature, nat>>, i: nat): nat
    decreases |c| - i
  {
    if i >= |c| then 0 else RowBlocks(c, i, i + 1) + BlocksFrom(c, i + 1)
  }

  /** Signature-based `total_comparisons`: over the provider pairs i < j in
      `combinations` order and the signatures common to both, the sum of
      `a[sig] * b[sig]`. */
  method SignatureTotalComparisons(c: seq<map<Signature, nat>>) returns (comparisons: int)
    ensures comparisons == ComparisonsFrom(c, 0)
  {
    comparisons := 0;
    for i := 0 to |c|
      invariant comparisons + ComparisonsFrom(c, i) == ComparisonsFrom(c, 0)
    {
      for j := i + 1 to |c|
        invariant comparisons + RowComparisons(c, i, j) + ComparisonsFrom(c, i + 1) == ComparisonsFrom(c, 0)
      {
        var pairComparisons := PairComparisons(c[i], c[j]);
        comparisons := comparisons + pairComparisons;
      }
    }
  }

  /** The inner loop of `total_comparisons` for one pair of providers. */
  method PairComparisons(a: map<Signature, nat>, b: map<Signature, nat>) returns (comparisons: int)
    ensures comparisons == SumOver(a.Keys * b.Keys, ProductIn(a, b))
  {
    comparisons := 0;
    var commonSigs := a.Keys * b.Keys;
    while commonSigs != {}
      invariant commonSigs <= a.Keys * b.Keys
      invariant comparisons + SumOver(commonSigs, ProductIn(a, b)) == SumOver(a.Keys * b.Keys, ProductIn(a, b))
      decreases |commonSigs|
    {
      var sig :| sig in commonSigs;
      SumOverRemove(commonSigs, ProductIn(a, b), sig);
      comparisons := comparisons + a[sig] * b[sig];
      commonSigs := commonSigs - {sig};
    }
  }

  /** Signature-based `elements_per_block`: one size `a[sig] + b[sig]` per
      provider pair and shared signature. Within a pair the signatures come
      in set order, so only the multiset of sizes is determined. */
  method SignatureElementsPerBlock(c: seq<map<Signature, nat>>) returns (blockSizes: seq<nat>)
    ensures multiset(blockSizes) == SizesFrom(c, 0)
  {
    blockSizes := [];
    for i := 0 to |c|
      invariant multiset(blockSizes) + SizesFrom(c, i) == SizesFrom(c, 0)
    {
      var rowSizes := RowBlockSizes(c, i);
      assert multiset(blockSizes + rowSizes) == multiset(blockSizes) + multiset(rowSizes);
      blockSizes := blockSizes + rowSizes;
    }
  }

  /** The pairs (i, j), i < j, of `elements_per_block`. */
  method RowBlockSizes(c: seq<map<Signature, nat>>, i: nat) returns (blockSizes: seq<nat>)
    requires i < |c|
    ensures multiset(blockSizes) == RowSizes(c, i, i + 1)
  {
    blockSizes := [];
    ghost var total := RowSizes(c, i, i + 1);
    for j := i + 1 to |c|
      invariant RowSoFar(c, i, j, blockSizes, total)
    {
      var pairSizes := PairBlockSizes(c[i], c[j]);
      RowSizesStep(c, i, j, blockSizes, pairSizes, total);
      blockSizes := blockSizes + pairSizes;
    }
  }

  /** The sizes of the pairs (i, j'), j' < j, are collected and those from
      j on are still to come. */
  ghost predicate RowSoFar(c: seq<map<Signature, nat>>, i: nat, j: nat, done: seq<nat>, total: multiset<nat>)
    requires i < |c|
  {
    multiset(done) + RowSizes(c, i, j) == total
  }

  lemma RowSizesStep(c: seq<map<Signature, nat>>, i: nat, j: nat, done: seq<nat>, pairSizes: seq<nat>,
                     total: multiset<nat>)
    requires i < |c| && j < |c|
    requires multiset(pairSizes) == ImageOver(c[i].Keys * c[j].Keys, SizeIn(c[i], c[j]))
    requires RowSoFar(c, i, j, done, total)
    ensures RowSoFar(c, i, j + 1, done + pairSizes, total)
  {
    assert multiset(done + pairSizes) == multiset(done) + multiset(pairSizes);
  }

  /** The inner loop of `elements_per_block` for one pair of providers. */
  method PairBlockSizes(a: map<Signature, nat>, b: map<Signature, nat>) returns (blockSizes: seq<nat>)
    ensures multiset(blockSizes) == ImageOver(a.Keys * b.Keys, SizeIn(a, b))
  {
    blockSizes := [];
    var commonSigs := a.Keys * b.Keys;
    while commonSigs != {}
      invariant commonSigs <= a.Keys * b.Keys
      invariant multiset(blockSizes) + ImageOver(commonSigs, SizeIn(a, b)) == ImageOver(a.Keys * b.Keys, SizeIn(a, b))
      decreases |commonSigs|
    {
      var sig :| sig in commonSigs;
      ImageOverRemove(commonSigs, SizeIn(a, b), sig);
      blockSizes := blockSizes + [a[sig] + b[sig]];
      commonSigs := commonSigs - {sig};
    }
  }

  /** Signature-based `number_of_blocks`: the number of shared signatures,
      summed over the provider pairs. */
  method SignatureNumberOfBlocks(c: seq<map<Signature, nat>>) returns (numBlocks: nat)
    ensures numBlocks == BlocksFrom(c, 0)
  {
    numBlocks := 0;
    for i := 0 to |c|
      invariant numBlocks + BlocksFrom(c, i) == BlocksFrom(c, 0)
    {
      for j := i + 1 to |c|
        invariant numBlocks + RowBlocks(c, i, j) + BlocksFrom(c, i + 1) == BlocksFrom(c, 0)
      {
        var commonSigs := c[i].Keys * c[j].Keys;
        numBlocks := numBlocks + |commonSigs|;
      }
    }
  }

  lemma {:induction false} RowSizesCount(c: seq<map<Signature, nat>>, i: nat, j: nat)
    requires i < |c|
    ensures |RowSizes(c, i, j)| == RowBlocks(c, i, j)
    decreases |c| - j
  {
    if j < |c| {
      ImageOverSize(c[i].Keys * c[j].Keys, SizeIn(c[i], c[j]));
      RowSizesCount(c, i, j + 1);
    }
  }

  /** `number_of_blocks` is the length of `elements_per_block`. */
  lemma {:induction false} SizesCountBlocks(c: seq<map<Signature, nat>>, i: nat)
    ensures |SizesFrom(c, i)| == BlocksFrom(c, i)
    decreases |c| - i
  {
    if i < |c| {
      RowSizesCount(c, i, i + 1);
      SizesCountBlocks(c, i + 1);
    }
  }

  /** A provider sharing no signature with anyone contributes no block and no
      comparison: with two providers and disjoint signatures, all three
      statistics are zero. */
  lemma DisjointProvidersShareNothing(a: map<Signature, nat>, b: map<Signature, nat>)
    requires a.Keys * b.Keys == {}
    ensures ComparisonsFrom([a, b], 0) == 0
    ensures SizesFrom([a, b], 0) == multiset{}
    ensures BlocksFrom([a, b], 0) == 0
  {
    var c := [a, b];
    assert ComparisonsFrom(c, 1) == 0 && SizesFrom(c, 1) == multiset{} && BlocksFrom(c, 1) == 0;
    assert RowComparisons(c, 0, 1) == SumOver(a.Keys * b.Keys, ProductIn(a, b)) + RowComparisons(c, 0, 2);
    assert RowSizes(c, 0, 1) == ImageOver(a.Keys * b.Keys, SizeIn(a, b)) + RowSizes(c, 0, 2);
    assert RowBlocks(c, 0, 1) == |a.Keys * b.Keys| + RowBlocks(c, 0, 2);
  }

  // ---------------------------------------------------------------------------
  // Entry points

  /** `BlockStats.get_stats`: the configured type chooses the class; a missing
      type reads as 'not provided' and, like any other unknown type, raises
      ValueError. */
  method GetStats(filter: seq<bool>, cbfMaps: seq<CbfMap>, sigMaps: seq<SigRecordsMap>,
                  config: map<string, Setting>)
    returns (r: Result<BlockStats>)
    ensures var t := Get(config, "type", Text("not provided"));
            t != Text("index-based-blocks") && t != Text("signature-based-blocks") ==>
            r == Err(ValueError("reverse index type is not recognized."))
    ensures Get(config, "type", Text("not provided")) == Text("signature-based-blocks") ==>
            r == Ok(SignatureBased(SignatureCounts(sigMaps)))
    ensures Get(config, "type", Text("not provided")) == Text("index-based-blocks") ==>
            (r.Ok? <==> forall p :: 0 <= p < Min(|cbfMaps|, |sigMaps|) ==> ProviderKnown(filter, cbfMaps[p], sigMaps[p])) &&
            (r.Err? ==> r.error == KeyError) &&
            (r.Ok? ==> r.value.IndexBased? && |r.value.countsPerBlock| == Min(|cbfMaps|, |sigMaps|) &&
                       forall p :: 0 <= p < |r.value.countsPerBlock| ==>
                         |r.value.countsPerBlock[p]| == |filter| &&
                         forall i :: 0 <= i < |filter| ==>
                           r.value.countsPerBlock[p][i] == SlotCount(filter, cbfMaps[p], sigMaps[p], i))
  {
    var methodType := Get(config, "type", Text("not provided"));
    if methodType == Text("index-based-blocks") {
      var counts := IndexBasedCounts(filter, cbfMaps, sigMaps);
      if counts.Err? {
        return Err(counts.error);
      }
      r := Ok(IndexBased(counts.value));
    } else if methodType == Text("signature-based-blocks") {
      r := Ok(SignatureBased(SignatureCounts(sigMaps)));
    } else {
      r := Err(ValueError("reverse index type is not recognized."));
    }
  }

  /** The constructor of the older `BlockStats` in `poc/statistics.py`: only
      the 'group-single-index' type is accepted, and it builds the same count
      vectors as the index-based class. */
  method LegacyBlockStats(filter: seq<bool>, cbfMaps: seq<CbfMap>, sigMaps: seq<SigRecordsMap>,
                          config: map<string, Setting>)
    returns (r: Result<BlockStats>)
    ensures Get(config, "type", Text("not provided")) != Text("group-single-index") ==>
            r == Err(ValueError("reverse index type is not recognized."))
    ensures Get(config, "type", Text("not provided")) == Text("group-single-index") ==>
            (r.Ok? <==> forall p :: 0 <= p < Min(|cbfMaps|, |sigMaps|) ==> ProviderKnown(filter, cbfMaps[p], sigMaps[p])) &&
            (r.Err? ==> r.error == KeyError) &&
            (r.Ok? ==> r.value.IndexBased? && |r.value.countsPerBlock| == Min(|cbfMaps|, |sigMaps|) &&
                       forall p :: 0 <= p < |r.value.countsPerBlock| ==>
                         |r.value.countsPerBlock[p]| == |filter| &&
                         forall i :: 0 <= i < |filter| ==>
                           r.value.countsPerBlock[p][i] == SlotCount(filter, cbfMaps[p], sigMaps[p], i))
  {
    var methodType := Get(config, "type", Text("not provided"));
    if methodType == Text("group-single-index") {
      var counts := IndexBasedCounts(filter, cbfMaps, sigMaps);
      if counts.Err? {
        return Err(counts.error);
      }
      r := Ok(IndexBased(counts.value));
    } else {
      r := Err(ValueError("reverse index type is not recognized."));
    }
  }
}
