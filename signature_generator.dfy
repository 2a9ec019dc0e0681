/** Per-record signatures (`poc/signature_generator.py`): the 'feature-value'
    strategy makes each record's signature list the one field at the
    configured column. As written, the function builds its errors for a
    missing type, a missing column or an unknown algorithm without raising
    them, and so returns None; `ComputeSignaturesRaising` is the version
    that raises them. */
module SignatureGenerator {
  import opened Common

  /** The loop over the records: `signatures.append([dtuple[index]])`. The
      first record too short for the column raises IndexError. */
  method FeatureValueSignatures(data: seq<seq<string>>, index: int) returns (r: Result<seq<seq<string>>>)
    ensures r.Ok? <==> forall k :: 0 <= k < |data| ==> NormalIndex(index, |data[k]|).Some?
    ensures r.Err? ==> r.error == IndexError
    ensures r.Ok? ==> |r.value| == |data| &&
                      forall k :: 0 <= k < |data| ==> r.value[k] == [data[k][NormalIndex(index, |data[k]|).value]]
  {
    var signatures: seq<seq<string>> := [];
    for k := 0 to |data|
      invariant forall j :: 0 <= j < k ==> NormalIndex(index, |data[j]|).Some?
      invariant |signatures| == k
      invariant forall j :: 0 <= j < k ==> signatures[j] == [data[j][NormalIndex(index, |data[j]|).value]]
    {
      var field := PyIndex(data[k], index);
      if field.Err? {
        return Err(IndexError);
      }
      signatures := signatures + [[field.value]];
    }
    r := Ok(signatures);
  }

  /** `compute_signatures` as written: None unless both the type and the
      column are given and the type is 'feature-value'; a column that is not
      an integer fails in `int()` before the algorithm is looked at. */
  method ComputeSignatures(data: seq<seq<string>>, signatureConfig: map<string, Setting>)
    returns (r: Result<Option<seq<seq<string>>>>)
    ensures Get(signatureConfig, "type", Text("not specified")) == Text("not specified") ==> r == Ok(None)
    ensures Get(signatureConfig, "feature-index", Text("not specified")) == Text("not specified") ==> r == Ok(None)
    ensures r.Ok? && r.value.Some? ==>
            var index := SettingToInt(Get(signatureConfig, "feature-index", Text("not specified")));
            && Get(signatureConfig, "type", Text("not specified")) == Text("feature-value")
            && index.Ok?
            && |r.value.value| == |data|
            && forall k :: 0 <= k < |data| ==>
                 NormalIndex(index.value, |data[k]|).Some? &&
                 r.value.value[k] == [data[k][NormalIndex(index.value, |data[k]|).value]]
    ensures Get(signatureConfig, "type", Text("not specified")) !in {Text("not specified"), Text("feature-value")} &&
            Get(signatureConfig, "feature-index", Text("not specified")) != Text("not specified") ==>
            r == (match SettingToInt(Get(signatureConfig, "feature-index", Text("not specified")))
                  case Ok(_) => Ok(None)
                  case Err(e) => Err(e))
    ensures r.Err? ==> r.error == IndexError || SettingToInt(Get(signatureConfig, "feature-index", Text("not specified"))).Err?
    ensures Get(signatureConfig, "type", Text("not specified")) == Text("feature-value") &&
            Get(signatureConfig, "feature-index", Text("not specified")) != Text("not specified") &&
            SettingToInt(Get(signatureConfig, "feature-index", Text("not specified"))).Ok? ==>
            var index := SettingToInt(Get(signatureConfig, "feature-index", Text("not specified"))).value;
            && (r.Ok? <==> forall k :: 0 <= k < |data| ==> NormalIndex(index, |data[k]|).Some?)
            && (r.Ok? ==> r.value.Some?)
            && (r.Err? ==> r.error == IndexError)
  {
    var algorithm := Get(signatureConfig, "type", Text("not specified"));
    var index := Get(signatureConfig, "feature-index", Text("not specified"));
    if algorithm == Text("not specified") {
      r := Ok(None);
    } else if index == Text("not specified") {
      r := Ok(None);
    } else {
      var column := SettingToInt(index);
      if column.Err? {
        return Err(column.error);
      }
      if algorithm == Text("feature-value") {
        var signatures := FeatureValueSignatures(data, column.value);
        r := if signatures.Ok? then Ok(Some(signatures.value)) else Err(signatures.error);
      } else {
        r := Ok(None);
      }
    }
  }

  /** `compute_signatures` with its errors raised: a missing type or column
      is a ValueError and an unknown algorithm a NotImplementedError, so a
      successful call always returns the signatures. */
  method ComputeSignaturesRaising(data: seq<seq<string>>, signatureConfig: map<string, Setting>)
    returns (r: Result<seq<seq<string>>>)
    ensures Get(signatureConfig, "type", Text("not specified")) == Text("not specified") ==>
            r == Err(ValueError("Compute signature type is not specified."))
    ensures Get(signatureConfig, "type", Text("not specified")) != Text("not specified") &&
            Get(signatureConfig, "feature-index", Text("not specified")) == Text("not specified") ==>
            r == Err(ValueError("Signature index is not specified."))
    ensures Get(signatureConfig, "type", Text("not specified")) !in {Text("not specified"), Text("feature-value")} ==>
            r.Err?
    ensures r.Ok? ==>
            var index := SettingToInt(Get(signatureConfig, "feature-index", Text("not specified")));
            && Get(signatureConfig, "type", Text("not specified")) == Text("feature-value")
            && index.Ok?
            && |r.value| == |data|
            && forall k :: 0 <= k < |data| ==>
                 NormalIndex(index.value, |data[k]|).Some? &&
                 r.value[k] == [data[k][NormalIndex(index.value, |data[k]|).value]]
    ensures Get(signatureConfig, "type", Text("not specified")) == Text("feature-value") &&
            SettingToInt(Get(signatureConfig, "feature-index", Text("not specified"))).Ok? ==>
            var index := SettingToInt(Get(signatureConfig, "feature-index", Text("not specified"))).value;
            (r.Ok? <==> forall k :: 0 <= k < |data| ==> NormalIndex(index, |data[k]|).Some?)
    ensures Get(signatureConfig, "type", Text("not specified")) !in {Text("not specified"), Text("feature-value")} &&
            Get(signatureConfig, "feature-index", Text("not specified")) != Text("not specified") &&
            SettingToInt(Get(signatureConfig, "feature-index", Text("not specified"))).Ok? ==>
            r == Err(NotImplementedError("The algorithm is not implemented yet"))
  {
    var algorithm := Get(signatureConfig, "type", Text("not specified"));
    var index := Get(signatureConfig, "feature-index", Text("not specified"));
    if algorithm == Text("not specified") {
      return Err(ValueError("Compute signature type is not specified."));
    }
    if index == Text("not specified") {
      return Err(ValueError("Signature index is not specified."));
    }
    var column := SettingToInt(index);
    if column.Err? {
      return Err(column.error);
    }
    if algorithm == Text("feature-value") {
      r := FeatureValueSignatures(data, column.value);
    } else {
      r := Err(NotImplementedError("The algorithm is not implemented yet"));
    }
  }
}
