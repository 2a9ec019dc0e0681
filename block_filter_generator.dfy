/** Candidate block filters (`poc/block_filter_generator.py`): a provider turns
    its signatures into a 0/1 vector over filter slots plus a map from each
    set slot to the signatures behind it. The 'dummy' strategy gives every
    configured value its own slot; p-sig filters come from blocklib's
    signature state. */
module BlockFilterGenerator {
  import opened Common

  /** A candidate block filter and its slot → signatures map. */
  type Filter = (seq<int>, map<int, seq<string>>)

  /** `values.index(x)`: the first position holding `x`. */
  function FirstIndex(values: seq<string>, x: string): (i: nat)
    requires x in values
    ensures i < |values| && values[i] == x
    ensures forall j :: 0 <= j < i ==> values[j] != x
  {
    if values[0] == x then 0 else 1 + FirstIndex(values[1..], x)
  }

  /** Slot `i` is the first position of one of the signatures. */
  predicate Hit(signatures: seq<string>, values: seq<string>, i: int)
  {
    exists k :: 0 <= k < |signatures| && signatures[k] in values && FirstIndex(values, signatures[k]) == i
  }

  /** What the dummy strategy promises: a ValueError exactly when some
      signature is not a configured value; otherwise one 0/1 entry per value,
      set exactly at the first position of each signature, and the map has
      exactly the set slots, each mapped to the one-element list of its
      value. */
  predicate IsDummyFilter(signatures: seq<string>, values: seq<string>, r: Result<Filter>)
  {
    && (r.Ok? <==> forall k :: 0 <= k < |signatures| ==> signatures[k] in values)
    && (r.Err? ==> r.error.ValueError?)
    && (r.Ok? ==>
          var (vec, cbfMap) := r.value;
          && |vec| == |values|
          && (forall i :: 0 <= i < |vec| ==> vec[i] == 0 || vec[i] == 1)
          && (forall i :: 0 <= i < |vec| ==> (vec[i] == 1 <==> Hit(signatures, values, i)))
          && cbfMap.Keys == (set i | 0 <= i < |vec| && vec[i] == 1)
          && (forall i :: i in cbfMap ==> cbfMap[i] == [values[i]]))
  }

  /** The dummy filter after the first `k` signatures: all of them are
      configured values, and the vector and map record exactly their first
      positions. */
  ghost predicate FilterSoFar(signatures: seq<string>, values: seq<string>, k: nat, vec: seq<int>,
                              cbfMap: map<int, seq<string>>)
    requires k <= |signatures|
  {
    && |vec| == |values|
    && (forall j :: 0 <= j < k ==> signatures[j] in values)
    && (forall i :: 0 <= i < |vec| ==> vec[i] == 0 || vec[i] == 1)
    && (forall i :: 0 <= i < |vec| ==> (vec[i] == 1 <==> Hit(signatures[..k], values, i)))
    && cbfMap.Keys == (set i | 0 <= i < |vec| && vec[i] == 1)
    && (forall i :: i in cbfMap ==> 0 <= i < |values| && cbfMap[i] == [values[i]])
  }

  /** Setting the slot of the next signature extends the filter by it. */
  lemma FilterStep(signatures: seq<string>, values: seq<string>, k: nat, vec: seq<int>,
                   cbfMap: map<int, seq<string>>)
    requires k < |signatures| && signatures[k] in values
    requires FilterSoFar(signatures, values, k, vec, cbfMap)
    ensures var slot := FirstIndex(values, signatures[k]);
            FilterSoFar(signatures, values, k + 1, vec[slot := 1], cbfMap[slot := [signatures[k]]])
  {
    var slot := FirstIndex(values, signatures[k]);
    var vec' := vec[slot := 1];
    var cbfMap' := cbfMap[slot := [signatures[k]]];
    forall i | 0 <= i < |vec'|
      ensures vec'[i] == 1 <==> Hit(signatures[..k + 1], values, i)
    {
      HitExtend(signatures, values, k, i);
    }
    assert forall i :: 0 <= i < |vec'| ==> vec'[i] == 0 || vec'[i] == 1;
    forall i
      ensures i in cbfMap'.Keys <==> 0 <= i < |vec'| && vec'[i] == 1
    {
    }
    assert cbfMap'.Keys == (set i | 0 <= i < |vec'| && vec'[i] == 1);
    assert forall i :: i in cbfMap' ==> 0 <= i < |values| && cbfMap'[i] == [values[i]];
  }

  /** `_dummy_candidate_block_filer_from_signature`: a zeroed vector with one
      slot per configured value, set in place for each signature. */
  method DummyFilter(signatures: seq<string>, values: seq<string>) returns (r: Result<Filter>)
    ensures IsDummyFilter(signatures, values, r)
  {
    var cbfMap: map<int, seq<string>> := map[];
    var vectorOutput := new int[|values|](_ => 0);
    assert signatures[..0] == [];
    for k := 0 to |signatures|
      invariant vectorOutput.Length == |values|
      invariant FilterSoFar(signatures, values, k, vectorOutput[..], cbfMap)
    {
      var key := signatures[k];
      if key !in values {
        return Err(ValueError("Value not part of the configuration."));
      }
      var blockingFilterIndex := FirstIndex(values, key);
      FilterStep(signatures, values, k, vectorOutput[..], cbfMap);
      vectorOutput[blockingFilterIndex] := 1;
      cbfMap := cbfMap[blockingFilterIndex := [key]];
    }
    assert signatures[..|signatures|] == signatures;
    r := Ok((vectorOutput[..], cbfMap));
  }

  lemma HitExtend(signatures: seq<string>, values: seq<string>, k: nat, i: int)
    requires k < |signatures| && signatures[k] in values
    ensures Hit(signatures[..k + 1], values, i) <==> Hit(signatures[..k], values, i) || i == FirstIndex(values, signatures[k])
  {
    if Hit(signatures[..k], values, i) {
      var j :| 0 <= j < k && signatures[..k][j] in values && FirstIndex(values, signatures[..k][j]) == i;
      assert signatures[..k + 1][j] == signatures[..k][j];
    }
    if Hit(signatures[..k + 1], values, i) && i != FirstIndex(values, signatures[k]) {
      var j :| 0 <= j < k + 1 && signatures[..k + 1][j] in values && FirstIndex(values, signatures[..k + 1][j]) == i;
      assert signatures[..k][j] == signatures[..k + 1][j];
    }
    assert signatures[..k + 1][k] == signatures[k];
  }

  /** `candidate_block_filter_from_signatures`: a p-sig signature type hands
      the signatures to the signature state (`generate`, its
      `generate_bloom_filter`) and returns its filter unchanged; otherwise the
      candidate-filter type must be 'dummy'. Missing configuration keys raise
      KeyError. */
  method CandidateBlockFilter(signatures: seq<string>, generate: seq<string> -> Filter,
                              config: map<string, Setting>)
    returns (r: Result<Filter>)
    ensures "signature" !in config ==> r == Err(KeyError)
    ensures "signature" in config && config["signature"].Section? && "type" !in config["signature"].fields ==>
            r == Err(KeyError)
    ensures "signature" in config && config["signature"].Section? && "type" in config["signature"].fields &&
            config["signature"].fields["type"] == Text("p-sig") ==>
            r == Ok(generate(signatures))
    ensures "signature" in config && config["signature"].Section? && "type" in config["signature"].fields &&
            config["signature"].fields["type"] != Text("p-sig") ==>
            if "type" !in config then r == Err(KeyError)
            else if config["type"] != Text("dummy") then r == Err(ValueError("block_filter_from_signature type not implemented."))
            else if "values" !in config then r == Err(KeyError)
            else config["values"].Texts? ==> IsDummyFilter(signatures, config["values"].items, r)
  {
    if "signature" !in config {
      return Err(KeyError);
    }
    var signatureSection := config["signature"];
    if !signatureSection.Section? {
      return Err(TypeError("indices must be integers"));
    }
    if "type" !in signatureSection.fields {
      return Err(KeyError);
    }
    if signatureSection.fields["type"] == Text("p-sig") {
      return Ok(generate(signatures));
    }
    if "type" !in config {
      return Err(KeyError);
    }
    if config["type"] != Text("dummy") {
      return Err(ValueError("block_filter_from_signature type not implemented."));
    }
    if "values" !in config {
      return Err(KeyError);
    }
    var values := config["values"];
    if !values.Texts? {
      return Err(TypeError("values must be a list"));
    }
    r := DummyFilter(signatures, values.items);
  }

  /** The first positions of all signatures. */
  function Firsts(signatures: seq<string>, values: seq<string>): set<int>
    requires forall k :: 0 <= k < |signatures| ==> signatures[k] in values
  {
    set k | 0 <= k < |signatures| :: FirstIndex(values, signatures[k])
  }

  /** A signature repeated, or two signatures of the same value, set one
      slot: the number of set slots is at most the number of signatures. */
  lemma SetSlotsAtMostSignatures(signatures: seq<string>, values: seq<string>, r: Result<Filter>)
    requires IsDummyFilter(signatures, values, r) && r.Ok?
    ensures |r.value.1| <= |signatures|
  {
    var cbfMap := r.value.1;
    assert cbfMap.Keys <= Firsts(signatures, values) by {
      forall i | i in cbfMap ensures i in Firsts(signatures, values) {
        assert Hit(signatures, values, i);
      }
    }
    SubsetCard(cbfMap.Keys, Firsts(signatures, values));
    FirstsSize(signatures, values);
  }

  lemma {:induction false} FirstsSize(signatures: seq<string>, values: seq<string>)
    requires forall k :: 0 <= k < |signatures| ==> signatures[k] in values
    ensures |Firsts(signatures, values)| <= |signatures|
    decreases |signatures|
  {
    if signatures != [] {
      var n := |signatures| - 1;
      var front := signatures[..n];
      FirstsSize(front, values);
      var last := {FirstIndex(values, signatures[n])};
      assert Firsts(signatures, values) <= Firsts(front, values) + last by {
        forall i | i in Firsts(signatures, values) ensures i in Firsts(front, values) + last {
          var k :| 0 <= k < |signatures| && FirstIndex(values, signatures[k]) == i;
          if k < n { assert front[k] == signatures[k]; }
        }
      }
      assert |Firsts(front, values) + last| <= |Firsts(front, values)| + 1;
      SubsetCard(Firsts(signatures, values), Firsts(front, values) + last);
    }
  }
}
