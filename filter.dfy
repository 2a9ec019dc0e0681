/** Signature filtering (`poc/filter.py`): the only filter type is 'none',
    which keeps every candidate signature. As written, any other type builds
    a NotImplementedError without raising it and returns None;
    `FilterSignaturesRaising` raises it. */
module SignatureFilter {
  import opened Common

  /** `filter_signatures` as written: the candidates themselves for type
      'none', and nothing for any other type, a missing one included. */
  function FilterSignatures<T>(candidates: T, filterConfig: map<string, Setting>): (r: Option<T>)
    ensures r.Some? <==> "type" in filterConfig && filterConfig["type"] == Text("none")
    ensures r.Some? ==> r.value == candidates
  {
    if Get(filterConfig, "type", Text("not specified")) == Text("none") then Some(candidates) else None
  }

  /** `filter_signatures` with its error raised. */
  function FilterSignaturesRaising<T>(candidates: T, filterConfig: map<string, Setting>): (r: Result<T>)
    ensures r.Ok? <==> "type" in filterConfig && filterConfig["type"] == Text("none")
    ensures r.Ok? ==> r.value == candidates
    ensures r.Err? ==> r.error.NotImplementedError?
  {
    if Get(filterConfig, "type", Text("not specified")) == Text("none") then Ok(candidates)
    else Err(NotImplementedError("filter type is not implemented, yet"))
  }

  /** The two agree on 'none'; on every other type the function as written
      returns None where an error was meant. */
  lemma SilentWhereErrorMeant<T>(candidates: T, filterConfig: map<string, Setting>)
    ensures FilterSignatures(candidates, filterConfig).None? <==>
            FilterSignaturesRaising(candidates, filterConfig).Err?
    ensures FilterSignaturesRaising(candidates, filterConfig).Ok? ==>
            FilterSignatures(candidates, filterConfig) == Some(FilterSignaturesRaising(candidates, filterConfig).value)
  {
  }
}
