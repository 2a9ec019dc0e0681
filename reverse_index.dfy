/** The reverse index of `poc/reverse_index.py`: every slot the combined
    blocking filter admits becomes a block, whose records are those of the
    signature the provider's candidate-block-filter map puts at that slot. */
module ReverseIndex {
  import opened Common

  /** Slot `i` is admitted: `blocking_filter.get(i) == 1` (a `True` of a
      boolean filter compares equal to 1 as well). */
  predicate Admitted(filter: seq<int>, i: int)
  {
    0 <= i < |filter| && filter[i] == 1
  }

  /** `sig_to_record_map[cbf_map[i]]` can be evaluated without a KeyError. */
  predicate Resolvable<S, R>(cbfMap: map<int, S>, sigMap: map<S, R>, i: int)
  {
    i in cbfMap && cbfMap[i] in sigMap
  }

  /** `_single_index_reverse_index`: the loop over every slot of the filter,
      filling the block map in place. The config argument is not consulted,
      so it is not a parameter. */
  method SingleIndexReverseIndex<S, R>(filter: seq<int>, cbfMap: map<int, S>, sigMap: map<S, R>)
    returns (r: Result<map<int, R>>)
    ensures r.Ok? <==> forall i :: Admitted(filter, i) ==> Resolvable(cbfMap, sigMap, i)
    ensures r.Err? ==> r.error == KeyError
    ensures r.Ok? ==> r.value.Keys == set i | 0 <= i < |filter| && Admitted(filter, i)
    ensures r.Ok? ==> forall i :: i in r.value ==> r.value[i] == sigMap[cbfMap[i]]
  {
    var blockMap: map<int, R> := map[];
    for i := 0 to |filter|
      invariant forall j :: 0 <= j < i && Admitted(filter, j) ==> Resolvable(cbfMap, sigMap, j)
      invariant blockMap.Keys == set j | 0 <= j < i && Admitted(filter, j)
      invariant forall j :: j in blockMap ==> Resolvable(cbfMap, sigMap, j) && blockMap[j] == sigMap[cbfMap[j]]
    {
      if filter[i] == 1 {
        if i !in cbfMap || cbfMap[i] !in sigMap {
          assert Admitted(filter, i) && !Resolvable(cbfMap, sigMap, i);
          return Err(KeyError);
        }
        blockMap := blockMap[i := sigMap[cbfMap[i]]];
      }
    }
    r := Ok(blockMap);
  }

  /** `create_reverse_index`: the configured type selects the strategy; a
      missing type reads as 'not provided'. */
  method CreateReverseIndex<S, R>(filter: seq<int>, cbfMap: map<int, S>, sigMap: map<S, R>,
                                  config: map<string, Setting>)
    returns (r: Result<map<int, R>>)
    ensures Get(config, "type", Text("not provided")) == Text("not provided") ==>
            r == Err(ValueError("reverse-index type not provided."))
    ensures r.Err? && r.error.ValueError? ==> Get(config, "type", Text("not provided")) != Text("group-single-index")
    ensures Get(config, "type", Text("not provided")) !in {Text("not provided"), Text("group-single-index")} ==>
            r == Err(ValueError("reverse index type is not recognized."))
    ensures r.Ok? ==> Get(config, "type", Text("not provided")) == Text("group-single-index")
    ensures Get(config, "type", Text("not provided")) == Text("group-single-index") ==>
            (r.Ok? <==> forall i :: Admitted(filter, i) ==> Resolvable(cbfMap, sigMap, i)) &&
            (r.Err? ==> r.error == KeyError) &&
            (r.Ok? ==> r.value.Keys == (set i | 0 <= i < |filter| && Admitted(filter, i)) &&
                       forall i :: i in r.value ==> r.value[i] == sigMap[cbfMap[i]])
  {
    var methodType := Get(config, "type", Text("not provided"));
    if methodType == Text("not provided") {
      return Err(ValueError("reverse-index type not provided."));
    }
    if methodType == Text("group-single-index") {
      r := SingleIndexReverseIndex(filter, cbfMap, sigMap);
    } else {
      r := Err(ValueError("reverse index type is not recognized."));
    }
  }
}
