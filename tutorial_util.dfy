/** The tutorial's evaluation helpers (`docs/tutorial/util.py`): precision
    and recall of found groups, and the reduction ratio and set
    completeness of multi-party blocking. Each provider hands in its
    filtered reverse index (record id → block ids); the helpers invert each
    into block → record ids while counting how often every block id occurs
    over all providers, and keep the blocks that occur at least K times. */
module TutorialEvaluation {
  import opened Common
  import opened Inversion

  /** A provider's filtered reverse index: record id → block ids, in dict
      order. */
  type ReverseIndex<B> = Entries<string, B>

  // ---------------------------------------------------------------------------
  // evaluate

  /** `len([x for x in xs if x in ys])`. */
  function CountIn<T(==)>(xs: seq<T>, ys: seq<T>): nat
  {
    if xs == [] then 0 else CountIn(xs[..|xs| - 1], ys) + (if xs[|xs| - 1] in ys then 1 else 0)
  }

  /** `len([x for x in xs if x not in ys])`. */
  function CountNotIn<T(==)>(xs: seq<T>, ys: seq<T>): nat
  {
    if xs == [] then 0 else CountNotIn(xs[..|xs| - 1], ys) + (if xs[|xs| - 1] in ys then 0 else 1)
  }

  /** Every element is either in `ys` or not. */
  lemma {:induction false} CountInSplit<T>(xs: seq<T>, ys: seq<T>)
    ensures CountIn(xs, ys) + CountNotIn(xs, ys) == |xs|
  {
    if xs != [] {
      CountInSplit(xs[..|xs| - 1], ys);
    }
  }

  /** No element of `xs` is in `ys`. */
  lemma {:induction false} CountInZero<T>(xs: seq<T>, ys: seq<T>)
    ensures CountIn(xs, ys) == 0 <==> forall i :: 0 <= i < |xs| ==> xs[i] !in ys
  {
    if xs != [] {
      var n := |xs| - 1;
      CountInZero(xs[..n], ys);
      assert forall i :: 0 <= i < n ==> xs[..n][i] == xs[i];
    }
  }

  /** Every element of `xs` is in `ys`. */
  lemma {:induction false} CountNotInZero<T>(xs: seq<T>, ys: seq<T>)
    ensures CountNotIn(xs, ys) == 0 <==> forall i :: 0 <= i < |xs| ==> xs[i] in ys
  {
    if xs != [] {
      var n := |xs| - 1;
      CountNotInZero(xs[..n], ys);
      assert forall i :: 0 <= i < n ==> xs[..n][i] == xs[i];
    }
  }

  /** `evaluate`: precision tp/(tp+fp) and recall tp/(tp+fn), where tp counts
      the found groups that are true matches, fp the others and fn the true
      matches not found. Precision divides by the number of found groups and
      is computed first; recall then divides by zero exactly when there are
      no true matches. */
  function Evaluate<T(==)>(foundGroups: seq<T>, trueMatches: seq<T>): (r: Result<(real, real)>)
    ensures r.Ok? <==> |foundGroups| > 0 && |trueMatches| > 0
    ensures r.Err? ==> r.error == ZeroDivisionError
    ensures r.Ok? ==> r.value.0 == CountIn(foundGroups, trueMatches) as real / |foundGroups| as real
    ensures r.Ok? ==> CountIn(foundGroups, trueMatches) + CountNotIn(trueMatches, foundGroups) > 0 &&
                      r.value.1 == CountIn(foundGroups, trueMatches) as real /
                                     (CountIn(foundGroups, trueMatches) + CountNotIn(trueMatches, foundGroups)) as real
    ensures r.Ok? ==> 0.0 <= r.value.0 <= 1.0 && 0.0 <= r.value.1 <= 1.0
  {
    var tp := CountIn(foundGroups, trueMatches);
    var fp := CountNotIn(foundGroups, trueMatches);
    var fn := CountNotIn(trueMatches, foundGroups);
    CountInSplit(foundGroups, trueMatches);
    if tp + fp == 0 then Err(ZeroDivisionError)
    else
      RecallDenominator(foundGroups, trueMatches);
      if tp + fn == 0 then Err(ZeroDivisionError)
      else
        RatioAtMostOne(tp, tp + fp);
        RatioAtMostOne(tp, tp + fn);
        Ok((tp as real / (tp + fp) as real, tp as real / (tp + fn) as real))
  }

  lemma RatioAtMostOne(a: nat, b: nat)
    requires 0 < b && a <= b
    ensures 0.0 <= a as real / b as real <= 1.0
  {
    assert a as real / b as real * b as real == a as real;
  }

  /** tp + fn is zero exactly when there are no true matches: a true match
      is either found, and then it is a found true match, or it is not. */
  lemma RecallDenominator<T>(foundGroups: seq<T>, trueMatches: seq<T>)
    ensures CountIn(foundGroups, trueMatches) + CountNotIn(trueMatches, foundGroups) == 0 <==> |trueMatches| == 0
  {
    CountInSplit(trueMatches, foundGroups);
    CountInZero(foundGroups, trueMatches);
    if |trueMatches| > 0 && CountNotIn(trueMatches, foundGroups) == 0 {
      CountNotInZero(trueMatches, foundGroups);
      assert trueMatches[0] in foundGroups;
      var i :| 0 <= i < |foundGroups| && foundGroups[i] == trueMatches[0];
      assert foundGroups[i] in trueMatches;
    }
  }

  // ---------------------------------------------------------------------------
  // Counting block ids over all providers

  /** How often block id `b` occurs in one provider's reverse index. */
  function Occ<B(==)>(ri: ReverseIndex<B>, b: B): nat
  {
    if ri == [] then 0 else Occ(ri[..|ri| - 1], b) + Count(ri[|ri| - 1].1, b)
  }

  /** `block_keys[b]` once every provider is processed: every occurrence of
      `b` in every provider's lists. */
  function KeyCount<B(==)>(ris: seq<ReverseIndex<B>>, b: B): nat
  {
    if ris == [] then 0 else KeyCount(ris[..|ris| - 1], b) + Occ(ris[|ris| - 1], b)
  }

  /** The block ids some provider mentions. */
  function Blocks<B>(ris: seq<ReverseIndex<B>>): set<B>
  {
    if ris == [] then {} else Blocks(ris[..|ris| - 1]) + Mentioned(ris[|ris| - 1])
  }

  lemma {:induction false} MentionedIffOcc<B>(ri: ReverseIndex<B>, b: B)
    ensures b in Mentioned(ri) <==> Occ(ri, b) > 0
  {
    if ri != [] {
      var n := |ri| - 1;
      MentionedIffOcc(ri[..n], b);
      if b in Mentioned(ri) {
        var a :| 0 <= a < |ri| && b in ri[a].1;
        if a < n {
          assert ri[..n][a] == ri[a];
          assert b in Mentioned(ri[..n]);
        }
      }
      if Occ(ri[..n], b) > 0 {
        var a :| 0 <= a < n && b in ri[..n][a].1;
        assert ri[a] == ri[..n][a];
      }
      if b in ri[n].1 {
        assert b in Mentioned(ri);
      }
    }
  }


  lemma {:induction false} BlocksIffCounted<B>(ris: seq<ReverseIndex<B>>, b: B)
    ensures b in Blocks(ris) <==> KeyCount(ris, b) > 0
  {
    if ris != [] {
      BlocksIffCounted(ris[..|ris| - 1], b);
      MentionedIffOcc(ris[|ris| - 1], b);
    }
  }

  /** `block_keys[b]`, 0 for a block id not seen yet. */
  function Cnt<B>(m: map<B, nat>, b: B): nat
  {
    if b in m then m[b] else 0
  }

  /** A provider's inverted index with record ids converted by `convert`
      (identity in `reduction_ratio`, `int()` in `set_completeness`). An
      id is converted only when its list is non-empty, so entries with no
      block ids are dropped; the first failing conversion is the error. */
  function Converted<R, B>(ri: ReverseIndex<B>, convert: string -> Result<R>): (r: Result<Entries<R, B>>)
    ensures r.Ok? <==> forall a :: 0 <= a < |ri| && ri[a].1 != [] ==> convert(ri[a].0).Ok?
    ensures r.Err? ==> exists a :: 0 <= a < |ri| && ri[a].1 != [] && convert(ri[a].0) == Err(r.error)
  {
    if ri == [] then Ok([])
    else
      var n := |ri| - 1;
      assert forall a :: 0 <= a < n ==> ri[..n][a] == ri[a];
      match Converted(ri[..n], convert)
      case Err(e) => Err(e)
      case Ok(front) =>
        if ri[n].1 == [] then Ok(front)
        else match convert(ri[n].0)
          case Err(e) => Err(e)
          case Ok(k) => Ok(front + [(k, ri[n].1)])
  }

  /** Once a conversion fails, the rest of the entries do not matter. */
  lemma {:induction false} ConvertedPrefixErr<R, B>(ri: ReverseIndex<B>, convert: string -> Result<R>, m: nat)
    requires m <= |ri| && Converted(ri[..m], convert).Err?
    ensures Converted(ri, convert) == Converted(ri[..m], convert)
    decreases |ri|
  {
    if m < |ri| {
      var n := |ri| - 1;
      assert ri[..n][..m] == ri[..m];
      ConvertedPrefixErr(ri[..n], convert, m);
      ConvertedLastAfterErr(ri, convert);
    } else {
      assert ri[..m] == ri;
    }
  }

  lemma ConvertedLastAfterErr<R, B>(ri: ReverseIndex<B>, convert: string -> Result<R>)
    requires ri != [] && Converted(ri[..|ri| - 1], convert).Err?
    ensures Converted(ri, convert) == Converted(ri[..|ri| - 1], convert)
  {
  }

  /** The inner loop for one record: `block_keys[blk] += 1` and
      `fdict[blk].append(index)` for each of its block ids. */
  method AddRecordBlocks<R, B(==,!new)>(fdict: map<B, seq<R>>, keys: map<B, nat>, id: R, blks: seq<B>)
    returns (fdict': map<B, seq<R>>, keys': map<B, nat>)
    ensures fdict' == AddEntry(fdict, id, blks)
    ensures forall b :: Cnt(keys', b) == Cnt(keys, b) + Count(blks, b)
    ensures forall b :: b in keys' <==> b in keys || Count(blks, b) > 0
  {
    fdict', keys' := fdict, keys;
    for j := 0 to |blks|
      invariant fdict' == AddEntry(fdict, id, blks[..j])
      invariant forall b :: Cnt(keys', b) == Cnt(keys, b) + Count(blks[..j], b)
      invariant forall b :: b in keys' <==> b in keys || Count(blks[..j], b) > 0
    {
      var blk := blks[j];
      ghost var prefix := blks[..j + 1];
      assert prefix[..j] == blks[..j];
      assert AddEntry(fdict, id, prefix) == Append(AddEntry(fdict, id, blks[..j]), blk, id);
      assert forall b :: Count(prefix, b) == Count(blks[..j], b) + (if blk == b then 1 else 0);
      keys' := keys'[blk := Cnt(keys', blk) + 1];
      fdict' := fdict'[blk := Lookup(fdict', blk) + [id]];
    }
    assert blks[..|blks|] == blks;
  }

  /** One more record of the reverse index: its block ids join the
      occurrence counts. */
  lemma OccStep<B>(ri: ReverseIndex<B>, k: nat, b: B)
    requires k < |ri|
    ensures Occ(ri[..k + 1], b) == Occ(ri[..k], b) + Count(ri[k].1, b)
  {
    assert ri[..k + 1][..k] == ri[..k];
  }

  /** One more record converts to one more entry, unless its list is empty. */
  lemma ConvertedStep<R, B>(ri: ReverseIndex<B>, convert: string -> Result<R>, k: nat)
    requires k < |ri| && Converted(ri[..k], convert).Ok?
    ensures ri[k].1 == [] ==> Converted(ri[..k + 1], convert) == Converted(ri[..k], convert)
    ensures ri[k].1 != [] && convert(ri[k].0).Ok? ==>
            Converted(ri[..k + 1], convert) == Ok(Converted(ri[..k], convert).value + [(convert(ri[k].0).value, ri[k].1)])
  {
    assert ri[..k + 1][..k] == ri[..k];
  }

  /** The inversion of one provider's reverse index, `fdict[blk].append(index)`,
      with `block_keys[blk] += 1` for every block id it lists. */
  method InvertCounting<R, B(==,!new)>(ri: ReverseIndex<B>, convert: string -> Result<R>, blockKeys: map<B, nat>)
    returns (r: Result<(map<B, seq<R>>, map<B, nat>)>)
    ensures r.Ok? <==> Converted(ri, convert).Ok?
    ensures r.Err? ==> Converted(ri, convert) == Err(r.error)
    ensures r.Ok? ==> r.value.0 == Invert(Converted(ri, convert).value)
    ensures r.Ok? ==> forall b :: Cnt(r.value.1, b) == Cnt(blockKeys, b) + Occ(ri, b)
    ensures r.Ok? ==> forall b :: b in r.value.1 <==> b in blockKeys || Occ(ri, b) > 0
  {
    var fdict: map<B, seq<R>> := map[];
    var keys: map<B, nat> := blockKeys;
    assert ri[..0] == [];
    for k := 0 to |ri|
      invariant CountedSoFar(ri, convert, blockKeys, k, fdict, keys)
    {
      var (index, blks) := ri[k];
      ghost var (fdict0, keys0) := (fdict, keys);
      if blks != [] {
        var converted := convert(index);
        if converted.Err? {
          ConvertErrAt(ri, convert, k);
          return Err(converted.error);
        }
        fdict, keys := AddRecordBlocks(fdict, keys, converted.value, blks);
      }
      CountedStep(ri, convert, blockKeys, k, fdict0, keys0, fdict, keys);
    }
    CountedAll(ri, convert, blockKeys, fdict, keys);
    r := Ok((fdict, keys));
  }

  /** A record with block ids whose id fails to convert ends the inversion
      with that error. */
  lemma ConvertErrAt<R, B>(ri: ReverseIndex<B>, convert: string -> Result<R>, k: nat)
    requires k < |ri| && Converted(ri[..k], convert).Ok?
    requires ri[k].1 != [] && convert(ri[k].0).Err?
    ensures Converted(ri, convert) == Err(convert(ri[k].0).error)
  {
    assert ri[..k + 1][..k] == ri[..k];
    ConvertedPrefixErr(ri, convert, k + 1);
  }

  lemma CountedAll<R, B(!new)>(ri: ReverseIndex<B>, convert: string -> Result<R>, blockKeys: map<B, nat>,
                               fdict: map<B, seq<R>>, keys: map<B, nat>)
    requires CountedSoFar(ri, convert, blockKeys, |ri|, fdict, keys)
    ensures Converted(ri, convert).Ok? && fdict == Invert(Converted(ri, convert).value)
    ensures forall b :: Cnt(keys, b) == Cnt(blockKeys, b) + Occ(ri, b)
    ensures forall b :: b in keys <==> b in blockKeys || Occ(ri, b) > 0
  {
    assert ri[..|ri|] == ri;
  }

  /** `InvertCounting` after the first `k` records: they convert, `fdict`
      is their inversion, and `keys` counts their block ids on top of
      `blockKeys`. */
  ghost predicate CountedSoFar<R, B(!new)>(ri: ReverseIndex<B>, convert: string -> Result<R>, blockKeys: map<B, nat>,
                                           k: nat, fdict: map<B, seq<R>>, keys: map<B, nat>)
    requires k <= |ri|
  {
    && Converted(ri[..k], convert).Ok?
    && fdict == Invert(Converted(ri[..k], convert).value)
    && (forall b :: Cnt(keys, b) == Cnt(blockKeys, b) + Occ(ri[..k], b))
    && (forall b :: b in keys <==> b in blockKeys || Occ(ri[..k], b) > 0)
  }

  lemma CountedStep<R, B(!new)>(ri: ReverseIndex<B>, convert: string -> Result<R>, blockKeys: map<B, nat>, k: nat,
                                fdict: map<B, seq<R>>, keys: map<B, nat>, fdict': map<B, seq<R>>, keys': map<B, nat>)
    requires k < |ri| && CountedSoFar(ri, convert, blockKeys, k, fdict, keys)
    requires ri[k].1 == [] ==> fdict' == fdict && keys' == keys
    requires ri[k].1 != [] ==>
             && convert(ri[k].0).Ok?
             && fdict' == AddEntry(fdict, convert(ri[k].0).value, ri[k].1)
             && (forall b :: Cnt(keys', b) == Cnt(keys, b) + Count(ri[k].1, b))
             && (forall b :: b in keys' <==> b in keys || Count(ri[k].1, b) > 0)
    ensures CountedSoFar(ri, convert, blockKeys, k + 1, fdict', keys')
  {
    ConvertedStep(ri, convert, k);
    forall b ensures Occ(ri[..k + 1], b) == Occ(ri[..k], b) + Count(ri[k].1, b) {
      OccStep(ri, k, b);
    }
    if ri[k].1 != [] {
      var front := Converted(ri[..k], convert).value;
      assert (front + [(convert(ri[k].0).value, ri[k].1)])[..|front|] == front;
    } else {
      assert forall b :: Count(ri[k].1, b) == 0;
    }
  }

  lemma KeyCountStep<B>(ris: seq<ReverseIndex<B>>, p: nat, b: B)
    requires p < |ris|
    ensures KeyCount(ris[..p + 1], b) == KeyCount(ris[..p], b) + Occ(ris[p], b)
  {
    assert ris[..p + 1][..p] == ris[..p];
  }

  lemma CountsStep<B>(before: map<B, nat>, after: map<B, nat>, ris: seq<ReverseIndex<B>>, p: nat)
    requires p < |ris|
    requires forall b :: Cnt(before, b) == KeyCount(ris[..p], b)
    requires forall b :: Cnt(after, b) == Cnt(before, b) + Occ(ris[p], b)
    ensures forall b :: Cnt(after, b) == KeyCount(ris[..p + 1], b)
  {
    forall b ensures Cnt(after, b) == KeyCount(ris[..p + 1], b) {
      KeyCountStep(ris, p, b);
    }
  }

  lemma PresenceStep<B>(before: map<B, nat>, after: map<B, nat>, ris: seq<ReverseIndex<B>>, p: nat)
    requires p < |ris|
    requires forall b :: b in before <==> KeyCount(ris[..p], b) > 0
    requires forall b :: b in after <==> b in before || Occ(ris[p], b) > 0
    ensures forall b :: b in after <==> KeyCount(ris[..p + 1], b) > 0
  {
    forall b ensures b in after <==> KeyCount(ris[..p + 1], b) > 0 {
      KeyCountStep(ris, p, b);
    }
  }

  lemma KeysAreBlocks<B(!new)>(keys: map<B, nat>, ris: seq<ReverseIndex<B>>)
    requires forall b :: b in keys <==> KeyCount(ris, b) > 0
    ensures keys.Keys == Blocks(ris)
  {
    forall b ensures b in keys <==> b in Blocks(ris) {
      BlocksIffCounted(ris, b);
    }
  }

  /** The first loop of `reduction_ratio` and `set_completeness`: every
      provider's inversion, and the block-id counts over all of them. */
  method InvertAll<R, B(==,!new)>(ris: seq<ReverseIndex<B>>, convert: string -> Result<R>)
    returns (r: Result<(seq<map<B, seq<R>>>, map<B, nat>)>)
    ensures r.Ok? <==> forall p :: 0 <= p < |ris| ==> Converted(ris[p], convert).Ok?
    ensures r.Err? ==> exists p :: 0 <= p < |ris| && Converted(ris[p], convert) == Err(r.error)
    ensures r.Ok? ==> |r.value.0| == |ris| &&
                      forall p :: 0 <= p < |ris| ==> r.value.0[p] == Invert(Converted(ris[p], convert).value)
    ensures r.Ok? ==> forall b :: Cnt(r.value.1, b) == KeyCount(ris, b)
    ensures r.Ok? ==> r.value.1.Keys == Blocks(ris)
  {
    var fdicts: seq<map<B, seq<R>>> := [];
    var blockKeys: map<B, nat> := map[];
    for p := 0 to |ris|
      invariant InvertsPrefix(fdicts, ris, convert)
      invariant |fdicts| == p
      invariant CountsPrefix(blockKeys, ris, p)
    {
      ghost var keysBefore := blockKeys;
      var inverted := InvertCounting(ris[p], convert, blockKeys);
      if inverted.Err? {
        assert Converted(ris[p], convert) == Err(inverted.error);
        return Err(inverted.error);
      }
      InvertsPrefixStep(fdicts, ris, convert, inverted.value.0);
      fdicts := fdicts + [inverted.value.0];
      blockKeys := inverted.value.1;
      CountsPrefixStep(keysBefore, blockKeys, ris, p);
    }
    assert ris[..|ris|] == ris;
    KeysAreBlocks(blockKeys, ris);
    r := Ok((fdicts, blockKeys));
  }

  /** The first providers' inversions are in `fdicts`. */
  ghost predicate InvertsPrefix<R, B>(fdicts: seq<map<B, seq<R>>>, ris: seq<ReverseIndex<B>>, convert: string -> Result<R>)
  {
    && |fdicts| <= |ris|
    && forall q :: 0 <= q < |fdicts| ==>
         Converted(ris[q], convert).Ok? && fdicts[q] == Invert(Converted(ris[q], convert).value)
  }

  lemma InvertsPrefixStep<R, B>(fdicts: seq<map<B, seq<R>>>, ris: seq<ReverseIndex<B>>, convert: string -> Result<R>,
                                fdict: map<B, seq<R>>)
    requires InvertsPrefix(fdicts, ris, convert) && |fdicts| < |ris|
    requires Converted(ris[|fdicts|], convert).Ok? && fdict == Invert(Converted(ris[|fdicts|], convert).value)
    ensures InvertsPrefix(fdicts + [fdict], ris, convert)
  {
    var next := fdicts + [fdict];
    forall q | 0 <= q < |next|
      ensures Converted(ris[q], convert).Ok? && next[q] == Invert(Converted(ris[q], convert).value)
    {
      if q < |fdicts| { assert next[q] == fdicts[q]; }
    }
  }

  /** `block_keys` holds the counts over the first `p` providers. */
  ghost predicate CountsPrefix<B(!new)>(blockKeys: map<B, nat>, ris: seq<ReverseIndex<B>>, p: nat)
    requires p <= |ris|
  {
    && (forall b :: Cnt(blockKeys, b) == KeyCount(ris[..p], b))
    && (forall b :: b in blockKeys <==> KeyCount(ris[..p], b) > 0)
  }

  lemma CountsPrefixStep<B(!new)>(before: map<B, nat>, after: map<B, nat>, ris: seq<ReverseIndex<B>>, p: nat)
    requires p < |ris| && CountsPrefix(before, ris, p)
    requires forall b :: Cnt(after, b) == Cnt(before, b) + Occ(ris[p], b)
    requires forall b :: b in after <==> b in before || Occ(ris[p], b) > 0
    ensures CountsPrefix(after, ris, p + 1)
  {
    CountsStep(before, after, ris, p);
    PresenceStep(before, after, ris, p);
  }

  /** `final_block_keys`: the block ids occurring at least K times. */
  function FinalKeys<B>(ris: seq<ReverseIndex<B>>, K: int): set<B>
  {
    set b | b in Blocks(ris) && KeyCount(ris, b) >= K
  }

  // ---------------------------------------------------------------------------
  // reduction_ratio

  /** `reduction_ratio` appends the record ids as they are. */
  function Identity(s: string): (r: Result<string>)
    ensures r == Ok(s)
  {
    Ok(s)
  }

  /** `naive_num_comparison`: the product of the dataset sizes. */
  function NaiveComparisons<T>(data: seq<seq<T>>): nat
  {
    if data == [] then 1 else NaiveComparisons(data[..|data| - 1]) * |data[|data| - 1]|
  }

  lemma {:induction false} NaiveZeroIff<T>(data: seq<seq<T>>)
    ensures NaiveComparisons(data) == 0 <==> exists d :: 0 <= d < |data| && |data[d]| == 0
  {
    if data != [] {
      var n := |data| - 1;
      NaiveZeroIff(data[..n]);
      if exists d :: 0 <= d < n && |data[..n][d]| == 0 {
        var d :| 0 <= d < n && |data[..n][d]| == 0;
        assert data[d] == data[..n][d];
      }
      if exists d :: 0 <= d < |data| && |data[d]| == 0 {
        var d :| 0 <= d < |data| && |data[d]| == 0;
        if d < n { assert data[..n][d] == data[d]; }
      }
    }
  }

  /** Provider `p`'s factor for block `b`: how many of its records (counted
      per occurrence) are in the block, or 1 when it has none, from
      `len(fdict.get(key, [0]))`. */
  function Factor<B(==)>(ri: ReverseIndex<B>, b: B): nat
  {
    if Occ(ri, b) > 0 then Occ(ri, b) else 1
  }

  /** The comparisons block `b` costs: the product of all providers'
      factors. */
  function BlockComparisons<B(==)>(ris: seq<ReverseIndex<B>>, b: B): nat
  {
    if ris == [] then 1 else BlockComparisons(ris[..|ris| - 1], b) * Factor(ris[|ris| - 1], b)
  }

  /** An inversion lists a block's records once per occurrence, and has the
      block as a key exactly when it occurs. */
  lemma LookupLength<R, B>(ri: ReverseIndex<B>, convert: string -> Result<R>, b: B)
    requires Converted(ri, convert).Ok?
    ensures |Lookup(Invert(Converted(ri, convert).value), b)| == Occ(ri, b)
    ensures b in Invert(Converted(ri, convert).value) <==> Occ(ri, b) > 0
  {
    var e := Converted(ri, convert).value;
    InvertIsOccurrences(e, b);
    OccurrencesLength(e, b);
    ConvertedOcc(ri, convert, b);
    MentionedIffCount(e, b);
  }

  /** How often `b` occurs in the lists of `e`. */
  function Total<K, B(==)>(e: Entries<K, B>, b: B): nat
  {
    if e == [] then 0 else Total(e[..|e| - 1], b) + Count(e[|e| - 1].1, b)
  }

  lemma {:induction false} OccurrencesLength<K, B>(e: Entries<K, B>, b: B)
    ensures |Occurrences(e, b)| == Total(e, b)
  {
    if e != [] {
      OccurrencesLength(e[..|e| - 1], b);
    }
  }

  lemma {:induction false} ConvertedOcc<R, B>(ri: ReverseIndex<B>, convert: string -> Result<R>, b: B)
    requires Converted(ri, convert).Ok?
    ensures Total(Converted(ri, convert).value, b) == Occ(ri, b)
  {
    if ri != [] {
      var n := |ri| - 1;
      ConvertedOcc(ri[..n], convert, b);
      if ri[n].1 != [] {
        var front := Converted(ri[..n], convert).value;
        var e := front + [(convert(ri[n].0).value, ri[n].1)];
        assert e[..|e| - 1] == front;
      }
    }
  }

  lemma {:induction false} MentionedIffCount<K, B>(e: Entries<K, B>, b: B)
    ensures b in Mentioned(e) <==> Total(e, b) > 0
  {
    if e != [] {
      var n := |e| - 1;
      MentionedIffCount(e[..n], b);
      if b in Mentioned(e) {
        var a :| 0 <= a < |e| && b in e[a].1;
        if a < n {
          assert e[..n][a] == e[a];
          assert b in Mentioned(e[..n]);
        }
      }
      if Total(e[..n], b) > 0 {
        var a :| 0 <= a < n && b in e[..n][a].1;
        assert e[a] == e[..n][a];
      }
      if b in e[n].1 {
        assert b in Mentioned(e);
      }
    }
  }


  /** The running product over providers for one final block id. */
  method ProductOverProviders<B(==)>(fdicts: seq<map<B, seq<string>>>, ris: seq<ReverseIndex<B>>, key: B)
    returns (numComparison: nat)
    requires |fdicts| == |ris|
    requires forall p :: 0 <= p < |ris| ==> Converted(ris[p], Identity).Ok? &&
                                            fdicts[p] == Invert(Converted(ris[p], Identity).value)
    ensures numComparison == BlockComparisons(ris, key)
  {
    numComparison := 1;
    for p := 0 to |fdicts|
      invariant numComparison == BlockComparisons(ris[..p], key)
    {
      assert ris[..p + 1][..p] == ris[..p];
      LookupLength(ris[p], Identity, key);
      var index := if key in fdicts[p] then fdicts[p][key] else [""];
      assert |index| == Factor(ris[p], key);
      numComparison := MulNat(numComparison, |index|);
    }
    assert ris[..|ris|] == ris;
  }

  /** `reduction_ratio`: rr = 1 − reduced/naive, with the naive count the
      product of the dataset sizes and the reduced count the sum, over the
      block ids occurring at least K times, of each block's comparisons.
      An empty dataset makes the naive count zero and the division fail. */
  method ReductionRatio<T, B(==,!new)>(filteredReverseIndices: seq<ReverseIndex<B>>, data: seq<seq<T>>, K: int)
    returns (r: Result<(real, nat, nat)>)
    ensures r.Ok? <==> forall d :: 0 <= d < |data| ==> |data[d]| > 0
    ensures r.Err? ==> r.error == ZeroDivisionError
    ensures r.Ok? ==>
            var (rr, reduced, naive) := r.value;
            && naive == NaiveComparisons(data) > 0
            && reduced == SumOver(FinalKeys(filteredReverseIndices, K), b => BlockComparisons(filteredReverseIndices, b))
            && rr == 1.0 - reduced as real / naive as real
  {
    var naiveNumComparison: nat := 1;
    for d := 0 to |data|
      invariant naiveNumComparison == NaiveComparisons(data[..d])
    {
      assert data[..d + 1][..d] == data[..d];
      naiveNumComparison := naiveNumComparison * |data[d]|;
    }
    assert data[..|data|] == data;
    var inverted := InvertAll(filteredReverseIndices, Identity);
    var (fdicts, blockKeys) := inverted.value;
    var finalBlockKeys := set b | b in blockKeys && blockKeys[b] >= K;
    assert finalBlockKeys == FinalKeys(filteredReverseIndices, K);
    ghost var f := b => BlockComparisons(filteredReverseIndices, b);
    var reducedNumComparison: nat := 0;
    var remaining := finalBlockKeys;
    while remaining != {}
      invariant remaining <= finalBlockKeys
      invariant reducedNumComparison + SumOver(remaining, f) == SumOver(finalBlockKeys, f)
      decreases |remaining|
    {
      var key :| key in remaining;
      SumOverRemove(remaining, f, key);
      var numComparison := ProductOverProviders(fdicts, filteredReverseIndices, key);
      reducedNumComparison := reducedNumComparison + numComparison;
      remaining := remaining - {key};
    }
    NaiveZeroIff(data);
    if naiveNumComparison == 0 {
      return Err(ZeroDivisionError);
    }
    r := Ok((1.0 - reducedNumComparison as real / naiveNumComparison as real, reducedNumComparison, naiveNumComparison));
  }

  /** The cost function summed by `reduction_ratio`. */
  function CostOf<B(==)>(ris: seq<ReverseIndex<B>>): B -> int
  {
    b => BlockComparisons(ris, b)
  }

  lemma {:induction false} SumOverSubset<X>(s: set<X>, t: set<X>, f: X -> int)
    requires s <= t
    requires forall x :: x in t ==> f(x) >= 0
    ensures SumOver(s, f) <= SumOver(t, f)
    decreases t
  {
    if t != {} {
      var x :| x in t;
      SumOverRemove(t, f, x);
      if x in s {
        SumOverRemove(s, f, x);
        SumOverSubset(s - {x}, t - {x}, f);
      } else {
        SumOverSubset(s, t - {x}, f);
      }
    }
  }

  /** Raising K keeps fewer blocks and never increases the reduced number
      of comparisons. */
  lemma ReducedMonotoneInK<B>(ris: seq<ReverseIndex<B>>, K1: int, K2: int)
    requires K1 <= K2
    ensures FinalKeys(ris, K2) <= FinalKeys(ris, K1)
    ensures SumOver(FinalKeys(ris, K2), CostOf(ris)) <= SumOver(FinalKeys(ris, K1), CostOf(ris))
  {
    SumOverSubset(FinalKeys(ris, K2), FinalKeys(ris, K1), CostOf(ris));
  }

  // ---------------------------------------------------------------------------
  // set_completeness

  /** The (provider, record) pairs of block `key`: provider `i` lists `key`
      for a record whose id `int()` turns into `ind`. */
  function Members<B(==)>(ris: seq<ReverseIndex<B>>, key: B): set<(int, int)>
  {
    set i, a | 0 <= i < |ris| && 0 <= a < |ris[i]| && key in ris[i][a].1 && PyInt(ris[i][a].0).Ok? ::
      (i, PyInt(ris[i][a].0).value)
  }

  /** `set(true_set)`. */
  function SetOf<T>(t: seq<T>): set<T>
  {
    set x | x in t
  }

  /** A true set counts when all its pairs are in one final block. */
  ghost predicate Covered<B>(ris: seq<ReverseIndex<B>>, K: int, t: seq<(int, int)>)
  {
    exists key :: key in FinalKeys(ris, K) && SetOf(t) <= Members(ris, key)
  }

  /** `num_true_matches`: the true sets that are covered. */
  ghost function CoveredCount<B>(ris: seq<ReverseIndex<B>>, K: int, truth: seq<seq<(int, int)>>): (n: nat)
    ensures n <= |truth|
  {
    if truth == [] then 0
    else CoveredCount(ris, K, truth[..|truth| - 1]) + (if Covered(ris, K, truth[|truth| - 1]) then 1 else 0)
  }

  /** The pairs the first `n` inverted indices give block `key`. */
  function Pairs<B>(fdicts: seq<map<B, seq<int>>>, n: nat, key: B): set<(int, int)>
    requires n <= |fdicts|
  {
    set i, ind | 0 <= i < n && key in fdicts[i] && ind in fdicts[i][key] :: (i, ind)
  }

  /** `sets[key]` of a `defaultdict(set)`. */
  function SetsGet<B>(sets: map<B, set<(int, int)>>, key: B): set<(int, int)>
  {
    if key in sets then sets[key] else {}
  }

  lemma PairsStep<B>(fdicts: seq<map<B, seq<int>>>, i: nat, key: B)
    requires i < |fdicts|
    ensures Pairs(fdicts, i + 1, key) ==
            Pairs(fdicts, i, key) + (if key in fdicts[i] then Tagged(i, fdicts[i][key]) else {})
  {
  }

  /** The pairs `(i, x)` for the records `x` of a list. */
  function Tagged(i: int, xs: seq<int>): set<(int, int)>
  {
    set x | x in xs :: (i, x)
  }

  lemma TaggedMember(i: int, xs: seq<int>, x: int)
    requires x in xs
    ensures (i, x) in Tagged(i, xs)
  {
  }

  lemma TaggedStep(i: int, xs: seq<int>, m: nat)
    requires m < |xs|
    ensures Tagged(i, xs[..m + 1]) == Tagged(i, xs[..m]) + {(i, xs[m])}
  {
    assert xs[..m + 1] == xs[..m] + [xs[m]];
    forall y | y in Tagged(i, xs[..m + 1]) ensures y in Tagged(i, xs[..m]) + {(i, xs[m])} {
      var x :| x in xs[..m + 1] && y == (i, x);
      if x != xs[m] {
        assert x in xs[..m];
      }
    }
    forall y | y in Tagged(i, xs[..m]) + {(i, xs[m])} ensures y in Tagged(i, xs[..m + 1]) {
      if y != (i, xs[m]) {
        var x :| x in xs[..m] && y == (i, x);
        TaggedMember(i, xs[..m + 1], x);
      } else {
        TaggedMember(i, xs[..m + 1], xs[m]);
      }
    }
  }

  /** `next` is `sets` with the pairs `(i, ind)` of `index` added to block
      `key`, and nothing else changed. */
  ghost predicate IndexAdded<B(!new)>(sets: map<B, set<(int, int)>>, next: map<B, set<(int, int)>>,
                                      key: B, i: int, index: seq<int>)
  {
    && (forall k :: k != key ==> SetsGet(next, k) == SetsGet(sets, k) && (k in next <==> k in sets))
    && SetsGet(next, key) == SetsGet(sets, key) + Tagged(i, index)
    && (key in next <==> key in sets || index != [])
  }

  /** `for ind in index: sets[key].add((i, ind))`. */
  method AddIndex<B(==,!new)>(sets: map<B, set<(int, int)>>, key: B, i: int, index: seq<int>)
    returns (next: map<B, set<(int, int)>>)
    ensures IndexAdded(sets, next, key, i, index)
  {
    next := sets;
    for m := 0 to |index|
      invariant forall k :: k != key ==> SetsGet(next, k) == SetsGet(sets, k) && (k in next <==> k in sets)
      invariant SetsGet(next, key) == SetsGet(sets, key) + Tagged(i, index[..m])
      invariant key in next <==> key in sets || m > 0
    {
      TaggedStep(i, index, m);
      next := next[key := SetsGet(next, key) + {(i, index[m])}];
    }
    assert index[..|index|] == index;
  }

  /** The adding loop for one provider: `sets[key].add((i, ind))` for every
      final block it has. */
  method AddProviderPairs<B(==,!new)>(sets: map<B, set<(int, int)>>, fdict: map<B, seq<int>>, i: nat,
                                      finalBlockKeys: set<B>)
    returns (next: map<B, set<(int, int)>>)
    requires forall key :: key in fdict ==> fdict[key] != []
    ensures Accumulated(sets, next, fdict, i, finalBlockKeys)
  {
    next := sets;
    var remaining := finalBlockKeys;
    ghost var done: set<B> := {};
    AccumulatedStart(sets, fdict, i);
    while remaining != {}
      invariant done == finalBlockKeys - remaining && remaining <= finalBlockKeys
      invariant Accumulated(sets, next, fdict, i, done)
      decreases |remaining|
    {
      var key :| key in remaining;
      var index := if key in fdict then fdict[key] else [];
      ghost var before := next;
      next := AddIndex(next, key, i, index);
      AccumulatedStep(sets, before, next, fdict, i, done, key);
      remaining := remaining - {key};
      done := done + {key};
    }
    assert done == finalBlockKeys;
  }

  lemma AccumulatedStart<B(!new)>(sets: map<B, set<(int, int)>>, fdict: map<B, seq<int>>, i: int)
    ensures Accumulated(sets, sets, fdict, i, {})
  {
  }

  /** `next` is `sets` with the pairs of provider `i` added for the keys in
      `done`. */
  ghost predicate Accumulated<B(!new)>(sets: map<B, set<(int, int)>>, next: map<B, set<(int, int)>>,
                                 fdict: map<B, seq<int>>, i: int, done: set<B>)
  {
    && (forall key :: key in next <==> key in sets || (key in done && key in fdict))
    && (forall key :: SetsGet(next, key) ==
          SetsGet(sets, key) + (if key in done && key in fdict then Tagged(i, fdict[key]) else {}))
  }

  lemma AccumulatedStep<B(!new)>(sets: map<B, set<(int, int)>>, before: map<B, set<(int, int)>>,
                           next: map<B, set<(int, int)>>, fdict: map<B, seq<int>>, i: int, done: set<B>, key: B)
    requires key !in done
    requires forall k :: k in fdict ==> fdict[k] != []
    requires Accumulated(sets, before, fdict, i, done)
    requires IndexAdded(before, next, key, i, if key in fdict then fdict[key] else [])
    ensures Accumulated(sets, next, fdict, i, done + {key})
  {
    if key !in fdict {
      assert Tagged(i, []) == {};
    }
  }

  /** The second loop of `set_completeness`: the (provider, record) pairs
      of every final block. */
  method CollectPairs<B(==,!new)>(fdicts: seq<map<B, seq<int>>>, finalBlockKeys: set<B>)
    returns (sets: map<B, set<(int, int)>>)
    requires forall i, key :: 0 <= i < |fdicts| && key in fdicts[i] ==> fdicts[i][key] != []
    ensures forall key :: key in sets <==> key in finalBlockKeys && exists i :: 0 <= i < |fdicts| && key in fdicts[i]
    ensures forall key :: key in sets ==> sets[key] == Pairs(fdicts, |fdicts|, key)
  {
    sets := map[];
    for i := 0 to |fdicts|
      invariant forall key :: key in sets <==> key in finalBlockKeys && exists j :: 0 <= j < i && key in fdicts[j]
      invariant forall key :: SetsGet(sets, key) == if key in finalBlockKeys then Pairs(fdicts, i, key) else {}
    {
      ghost var before := sets;
      sets := AddProviderPairs(sets, fdicts[i], i, finalBlockKeys);
      forall key ensures SetsGet(sets, key) == if key in finalBlockKeys then Pairs(fdicts, i + 1, key) else {} {
        PairsStep(fdicts, i, key);
      }
    }
    forall key | key in sets ensures sets[key] == Pairs(fdicts, |fdicts|, key) {
      assert SetsGet(sets, key) == sets[key];
    }
  }

  /** The check for one true set: `true_set.intersection(s) == true_set` for
      some block's set `s`. */
  method CoversTrueSet<B(==,!new)>(sets: map<B, set<(int, int)>>, trueSet: seq<(int, int)>) returns (check: bool)
    ensures check <==> exists key :: key in sets && SetOf(trueSet) <= sets[key]
  {
    var ts := SetOf(trueSet);
    check := false;
    var remaining := sets.Keys;
    while remaining != {}
      invariant remaining <= sets.Keys
      invariant check <==> exists key :: key in sets && key !in remaining && ts <= sets[key]
      decreases |remaining|
    {
      var key :| key in remaining;
      if ts * sets[key] == ts {
        check := true;
      }
      remaining := remaining - {key};
    }
  }

  /** The entries kept by `Converted` are exactly the converted entries
      listing `v`. */
  lemma {:induction false} ConvertedMembers<R, B>(ri: ReverseIndex<B>, convert: string -> Result<R>, v: B, x: R)
    requires Converted(ri, convert).Ok?
    ensures HasEntry(Converted(ri, convert).value, x, v) <==>
            (exists a :: 0 <= a < |ri| && v in ri[a].1 && convert(ri[a].0) == Ok(x))
  {
    if ri != [] {
      var n := |ri| - 1;
      ConvertedMembers(ri[..n], convert, v, x);
      ListedStep(ri, convert, v, x);
      var front := Converted(ri[..n], convert).value;
      var e := Converted(ri, convert).value;
      if ri[n].1 == [] {
        assert e == front;
      } else {
        assert e == front + [(convert(ri[n].0).value, ri[n].1)];
        assert e[..|e| - 1] == front;
        HasEntryStep(e, x, v);
      }
    }
  }

  /** Some record of `ri` lists `v` under an id converting to `x` exactly
      when one before the last does, or the last one does. */
  lemma ListedStep<R, B>(ri: ReverseIndex<B>, convert: string -> Result<R>, v: B, x: R)
    requires ri != []
    ensures var front := ri[..|ri| - 1];
            (exists a :: 0 <= a < |ri| && v in ri[a].1 && convert(ri[a].0) == Ok(x)) <==>
            (exists a :: 0 <= a < |front| && v in front[a].1 && convert(front[a].0) == Ok(x)) ||
            (v in ri[|ri| - 1].1 && convert(ri[|ri| - 1].0) == Ok(x))
  {
    var n := |ri| - 1;
    var front := ri[..n];
    if exists a :: 0 <= a < |ri| && v in ri[a].1 && convert(ri[a].0) == Ok(x) {
      var a :| 0 <= a < |ri| && v in ri[a].1 && convert(ri[a].0) == Ok(x);
      if a < n { assert front[a] == ri[a]; }
    }
    if exists a :: 0 <= a < |front| && v in front[a].1 && convert(front[a].0) == Ok(x) {
      var a :| 0 <= a < |front| && v in front[a].1 && convert(front[a].0) == Ok(x);
      assert front[a] == ri[a];
    }
  }

  /** One provider's inverted index lists record `ind` in block `key`
      exactly when the provider lists `key` for a record id that `int()`
      turns into `ind`. */
  lemma InvertedMembers<B>(ri: ReverseIndex<B>, key: B, ind: int)
    requires Converted(ri, PyInt).Ok?
    ensures ind in Lookup(Invert(Converted(ri, PyInt).value), key) <==>
            exists a :: 0 <= a < |ri| && key in ri[a].1 && PyInt(ri[a].0) == Ok(ind)
  {
    InvertIsOccurrences(Converted(ri, PyInt).value, key);
    OccurrencesMembers(Converted(ri, PyInt).value, key, ind);
    ConvertedMembers(ri, PyInt, key, ind);
  }

  /** The pairs collected from the inverted indices are the block's
      members, and a block is in some inverted index exactly when it is
      mentioned. */
  lemma PairsAreMembers<B>(ris: seq<ReverseIndex<B>>, fdicts: seq<map<B, seq<int>>>, key: B)
    requires |fdicts| == |ris|
    requires forall p :: 0 <= p < |ris| ==> Converted(ris[p], PyInt).Ok? &&
                                            fdicts[p] == Invert(Converted(ris[p], PyInt).value)
    ensures Pairs(fdicts, |fdicts|, key) == Members(ris, key)
    ensures (exists i :: 0 <= i < |fdicts| && key in fdicts[i]) <==> key in Blocks(ris)
  {
    forall pair | pair in Pairs(fdicts, |fdicts|, key) ensures pair in Members(ris, key) {
      var i, ind :| 0 <= i < |fdicts| && key in fdicts[i] && ind in fdicts[i][key] && pair == (i, ind);
      InvertedMembers(ris[i], key, ind);
      var a :| 0 <= a < |ris[i]| && key in ris[i][a].1 && PyInt(ris[i][a].0) == Ok(ind);
    }
    forall pair | pair in Members(ris, key) ensures pair in Pairs(fdicts, |fdicts|, key) {
      var i, a :| 0 <= i < |ris| && 0 <= a < |ris[i]| && key in ris[i][a].1 && PyInt(ris[i][a].0).Ok? &&
                  pair == (i, PyInt(ris[i][a].0).value);
      var ind := PyInt(ris[i][a].0).value;
      InvertedMembers(ris[i], key, ind);
      assert ind in Lookup(fdicts[i], key);
    }
    BlocksIffCounted(ris, key);
    if exists i :: 0 <= i < |fdicts| && key in fdicts[i] {
      var i :| 0 <= i < |fdicts| && key in fdicts[i];
      LookupLength(ris[i], PyInt, key);
      OccCounted(ris, i, key);
    }
    if KeyCount(ris, key) > 0 {
      var i := CountedSomewhere(ris, key);
      LookupLength(ris[i], PyInt, key);
    }
  }

  lemma {:induction false} OccCounted<B>(ris: seq<ReverseIndex<B>>, i: nat, b: B)
    requires i < |ris| && Occ(ris[i], b) > 0
    ensures KeyCount(ris, b) > 0
  {
    var n := |ris| - 1;
    if i < n {
      assert ris[..n][i] == ris[i];
      OccCounted(ris[..n], i, b);
    }
  }

  lemma {:induction false} CountedSomewhere<B>(ris: seq<ReverseIndex<B>>, b: B) returns (i: nat)
    requires KeyCount(ris, b) > 0
    ensures i < |ris| && Occ(ris[i], b) > 0
  {
    var n := |ris| - 1;
    if Occ(ris[n], b) > 0 {
      i := n;
    } else {
      i := CountedSomewhere(ris[..n], b);
      assert ris[..n][i] == ris[i];
    }
  }

  /** Inverted lists are never empty. */
  lemma InvertedNonEmpty<B>(ri: ReverseIndex<B>, key: B)
    requires Converted(ri, PyInt).Ok? && key in Invert(Converted(ri, PyInt).value)
    ensures Invert(Converted(ri, PyInt).value)[key] != []
  {
    LookupLength(ri, PyInt, key);
  }

  /** `set_completeness`: the share of true sets lying wholly inside one
      final block, as (provider, int(record id)) pairs. Record ids are
      converted only while inverting, so an unconvertible id fails first;
      an empty truth list then fails the division. */
  method SetCompleteness<B(==,!new)>(filteredReverseIndices: seq<ReverseIndex<B>>, truth: seq<seq<(int, int)>>, K: int)
    returns (r: Result<real>)
    ensures r.Ok? <==> (forall p :: 0 <= p < |filteredReverseIndices| ==> Converted(filteredReverseIndices[p], PyInt).Ok?) &&
                       |truth| > 0
    ensures r.Err? ==> r.error == ZeroDivisionError ||
                       exists p :: 0 <= p < |filteredReverseIndices| && Converted(filteredReverseIndices[p], PyInt) == Err(r.error)
    ensures !(forall p :: 0 <= p < |filteredReverseIndices| ==> Converted(filteredReverseIndices[p], PyInt).Ok?) ==>
            r.Err? &&
            exists p :: 0 <= p < |filteredReverseIndices| && Converted(filteredReverseIndices[p], PyInt) == Err(r.error)
    ensures r.Ok? ==> r.value == CoveredCount(filteredReverseIndices, K, truth) as real / |truth| as real
    ensures r.Ok? ==> 0.0 <= r.value <= 1.0
  {
    var ris := filteredReverseIndices;
    var inverted := InvertAll(ris, PyInt);
    if inverted.Err? {
      return Err(inverted.error);
    }
    var (fdicts, blockKeys) := inverted.value;
    var finalBlockKeys := set b | b in blockKeys && blockKeys[b] >= K;
    assert finalBlockKeys == FinalKeys(ris, K);
    forall i, key | 0 <= i < |fdicts| && key in fdicts[i] ensures fdicts[i][key] != [] {
      InvertedNonEmpty(ris[i], key);
    }
    var sets := CollectPairs(fdicts, finalBlockKeys);
    forall key ensures (key in sets <==> key in FinalKeys(ris, K)) && (key in sets ==> sets[key] == Members(ris, key)) {
      PairsAreMembers(ris, fdicts, key);
    }
    var numTrueMatches: nat := 0;
    for t := 0 to |truth|
      invariant numTrueMatches == CoveredCount(ris, K, truth[..t])
    {
      assert truth[..t + 1][..t] == truth[..t];
      var check := CoversTrueSet(sets, truth[t]);
      if check {
        numTrueMatches := numTrueMatches + 1;
      }
    }
    assert truth[..|truth|] == truth;
    if |truth| == 0 {
      return Err(ZeroDivisionError);
    }
    RatioAtMostOne(numTrueMatches, |truth|);
    r := Ok(numTrueMatches as real / |truth| as real);
  }
}
