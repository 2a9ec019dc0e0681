/** Candidate blocks of one provider (`poc/candidate_block_generator.py`):
    the signature configuration is checked, then the 'feature-value'
    strategy builds an inverted index from each signature to the records
    that have it. Its signature is the part of a chosen column a regular
    expression finds; the regular expression engine is a parameter. The
    p-sig and kasn strategies are built by blocklib. */
module CandidateBlockGenerator {
  import opened Common
  import opened Inversion

  /** `re.compile(pattern).search(text)`: the matched text, if any. */
  type Search = (string, string) -> Option<string>

  /** What `compute_candidate_blocks` returns: the feature-value inverted
      index (with no state), or an index and state built by blocklib for
      the named algorithm. */
  datatype Candidates =
    | FeatureValue(index: Entries<string, nat>)
    | BlocklibIndex(algorithm: string)

  /** `_compute_feature_value_signature`: the match of the configured
      pattern (by default '.*') in the record's `feature-index` column, as a
      one-element list, or no signature when the pattern does not match. */
  function FeatureValueSignature(record: seq<string>, config: map<string, Setting>, search: Search)
    : (r: Result<seq<string>>)
    ensures Get(config, "feature-index", Text("not specified")) == Text("not specified") ==>
            r == Err(ValueError("Signature index is not specified."))
    ensures SettingToInt(Get(config, "feature-index", Text("not specified"))).Err? ==> r.Err?
    ensures r.Ok? ==> |r.value| <= 1
    ensures r.Ok? ==>
            var pattern := Get(config, "regex-pattern", Text(".*"));
            var index := SettingToInt(Get(config, "feature-index", Text("not specified")));
            pattern.Text? && index.Ok? && PyIndex(record, index.value).Ok? &&
            (r.value == [] <==> search(pattern.text, PyIndex(record, index.value).value).None?)
    ensures var pattern := Get(config, "regex-pattern", Text(".*"));
            var index := SettingToInt(Get(config, "feature-index", Text("not specified")));
            index.Ok? && pattern.Text? && PyIndex(record, index.value).Ok? ==>
            r == Ok(match search(pattern.text, PyIndex(record, index.value).value)
                    case Some(group) => [group]
                    case None => [])
  {
    var index := Get(config, "feature-index", Text("not specified"));
    var pattern := Get(config, "regex-pattern", Text(".*"));
    if index == Text("not specified") then Err(ValueError("Signature index is not specified."))
    else
      match SettingToInt(index)
      case Err(e) => Err(e)
      case Ok(i) =>
        if !pattern.Text? then Err(TypeError("first argument must be string or compiled pattern"))
        else
          match PyIndex(record, i)
          case Err(e) => Err(e)
          case Ok(field) =>
            match search(pattern.text, field)
            case Some(group) => Ok([group])
            case None => Ok([])
  }

  predicate StrictlyIncreasing(xs: seq<nat>)
  {
    forall i, j :: 0 <= i < j < |xs| ==> xs[i] < xs[j]
  }

  /** `index` is the inverted index of the records' signature lists `sigs`:
      one entry per signature, listing, in increasing order, exactly the
      records that have it. */
  ghost predicate IsInvertedIndex(index: Entries<string, nat>, sigs: seq<seq<string>>)
  {
    && DistinctKeys(index)
    && (forall a :: 0 <= a < |index| ==> |index[a].1| > 0 && StrictlyIncreasing(index[a].1))
    && (forall a, k :: 0 <= a < |index| ==> (k in index[a].1 <==> 0 <= k < |sigs| && index[a].0 in sigs[k]))
    && (forall k, s :: 0 <= k < |sigs| && s in sigs[k] ==> exists a :: 0 <= a < |index| && index[a].0 == s)
  }

  /** Where signature `s` is in the index, if it is. */
  function Position(index: Entries<string, nat>, s: string): (r: Option<nat>)
    ensures r.Some? ==> r.value < |index| && index[r.value].0 == s
    ensures r.None? ==> forall a :: 0 <= a < |index| ==> index[a].0 != s
  {
    if index == [] then None
    else if index[|index| - 1].0 == s then Some(|index| - 1)
    else Position(index[..|index| - 1], s)
  }

  /** `dic[signature].append(k)`, or `dic[signature] = [k]` for a new
      signature. */
  function AddRecord(index: Entries<string, nat>, s: string, k: nat): Entries<string, nat>
  {
    match Position(index, s)
    case Some(a) => index[a := (s, index[a].1 + [k])]
    case None => index + [(s, [k])]
  }

  lemma Membership(index: Entries<string, nat>, sigs: seq<seq<string>>, a: nat, k: int)
    requires IsInvertedIndex(index, sigs) && a < |index|
    ensures k in index[a].1 <==> 0 <= k < |sigs| && index[a].0 in sigs[k]
  {
  }

  /** Adding the next record keeps the index an inverted index. */
  lemma AddRecordKeepsIndex(index: Entries<string, nat>, sigs: seq<seq<string>>, ss: seq<string>)
    requires IsInvertedIndex(index, sigs) && |ss| <= 1
    ensures IsInvertedIndex(if ss == [] then index else AddRecord(index, ss[0], |sigs|), sigs + [ss])
  {
    if ss == [] {
      NoSignatureKeepsIndex(index, sigs);
    } else {
      assert ss == [ss[0]];
      match Position(index, ss[0])
      case Some(p) => KnownSignatureKeepsIndex(index, sigs, ss[0], p);
      case None => NewSignatureKeepsIndex(index, sigs, ss[0]);
    }
  }

  lemma NoSignatureKeepsIndex(index: Entries<string, nat>, sigs: seq<seq<string>>)
    requires IsInvertedIndex(index, sigs)
    ensures IsInvertedIndex(index, sigs + [[]])
  {
    var all := sigs + [[]];
    forall a, j | 0 <= a < |index|
      ensures j in index[a].1 <==> 0 <= j < |all| && index[a].0 in all[j]
    {
      Membership(index, sigs, a, j);
      if 0 <= j < |sigs| { assert all[j] == sigs[j]; }
    }
    forall j, t | 0 <= j < |all| && t in all[j]
      ensures exists a :: 0 <= a < |index| && index[a].0 == t
    {
      assert all[j] == sigs[j];
    }
  }

  lemma KnownSignatureKeepsIndex(index: Entries<string, nat>, sigs: seq<seq<string>>, s: string, p: nat)
    requires IsInvertedIndex(index, sigs) && p < |index| && index[p].0 == s
    ensures IsInvertedIndex(index[p := (s, index[p].1 + [|sigs|])], sigs + [[s]])
  {
    var k := |sigs|;
    var all := sigs + [[s]];
    var next := index[p := (s, index[p].1 + [k])];
    forall a | 0 <= a < |next|
      ensures |next[a].1| > 0 && StrictlyIncreasing(next[a].1)
    {
      if a == p {
        var xs := index[p].1;
        forall i, j | 0 <= i < j < |xs + [k]| ensures (xs + [k])[i] < (xs + [k])[j] {
          if j == |xs| {
            assert xs[i] in index[p].1;
            Membership(index, sigs, p, xs[i]);
          }
        }
      }
    }
    forall a, j | 0 <= a < |next|
      ensures j in next[a].1 <==> 0 <= j < |all| && next[a].0 in all[j]
    {
      Membership(index, sigs, a, j);
      if 0 <= j < k { assert all[j] == sigs[j]; }
      if j == k {
        assert all[j] == [s];
        if a != p { assert next[a].0 != s; }
      }
    }
    forall j, t | 0 <= j < |all| && t in all[j]
      ensures exists a :: 0 <= a < |next| && next[a].0 == t
    {
      if j < k {
        assert t in sigs[j];
        var a :| 0 <= a < |index| && index[a].0 == t;
        assert next[a].0 == t;
      } else {
        assert next[p].0 == t;
      }
    }
  }

  lemma NewSignatureKeepsIndex(index: Entries<string, nat>, sigs: seq<seq<string>>, s: string)
    requires IsInvertedIndex(index, sigs)
    requires forall a :: 0 <= a < |index| ==> index[a].0 != s
    ensures IsInvertedIndex(index + [(s, [|sigs|])], sigs + [[s]])
  {
    var k := |sigs|;
    var all := sigs + [[s]];
    var next := index + [(s, [k])];
    forall j | 0 <= j < k ensures s !in sigs[j] {
    }
    forall a, j | 0 <= a < |next|
      ensures j in next[a].1 <==> 0 <= j < |all| && next[a].0 in all[j]
    {
      if 0 <= j < k { assert all[j] == sigs[j]; }
      if j == k { assert all[j] == [s]; }
      if a < |index| {
        Membership(index, sigs, a, j);
      }
    }
    forall j, t | 0 <= j < |all| && t in all[j]
      ensures exists a :: 0 <= a < |next| && next[a].0 == t
    {
      if j < k {
        assert t in sigs[j];
        var a :| 0 <= a < |index| && index[a].0 == t;
        assert next[a].0 == t;
      } else {
        assert next[|index|].0 == t;
      }
    }
  }

  /** The for loop over one record's signatures (at most one): each is
      added to the index in place. */
  method InsertRecord(dic: Entries<string, nat>, signatures: seq<string>, index: nat)
    returns (next: Entries<string, nat>)
    requires |signatures| <= 1
    ensures next == if signatures == [] then dic else AddRecord(dic, signatures[0], index)
  {
    next := dic;
    for m := 0 to |signatures|
      invariant m == 0 ==> next == dic
      invariant m == 1 ==> next == AddRecord(dic, signatures[0], index)
    {
      var signature := signatures[m];
      match Position(next, signature)
      case Some(a) =>
        next := next[a := (signature, next[a].1 + [index])];
      case None =>
        next := next + [(signature, [index])];
    }
  }

  /** The signature lists of the first `n` records, every one of which has
      one. */
  function SignaturesOf(data: seq<seq<string>>, n: nat, config: map<string, Setting>, search: Search): seq<seq<string>>
    requires n <= |data|
    requires forall k :: 0 <= k < n ==> FeatureValueSignature(data[k], config, search).Ok?
  {
    seq(n, k requires 0 <= k < n => FeatureValueSignature(data[k], config, search).value)
  }

  lemma SignaturesOfStep(data: seq<seq<string>>, n: nat, config: map<string, Setting>, search: Search)
    requires n < |data|
    requires forall k :: 0 <= k <= n ==> FeatureValueSignature(data[k], config, search).Ok?
    ensures SignaturesOf(data, n + 1, config, search) ==
            SignaturesOf(data, n, config, search) + [FeatureValueSignature(data[n], config, search).value]
  {
  }

  /** The feature-value branch of `compute_candidate_blocks`: the records
      in order, each adding its signatures to the index. */
  method FeatureValueIndex(data: seq<seq<string>>, signatureConfig: map<string, Setting>, search: Search)
    returns (r: Result<Entries<string, nat>>)
    ensures r.Ok? <==> forall k :: 0 <= k < |data| ==> FeatureValueSignature(data[k], signatureConfig, search).Ok?
    ensures r.Err? ==> exists k :: 0 <= k < |data| &&
                         (forall j :: 0 <= j < k ==> FeatureValueSignature(data[j], signatureConfig, search).Ok?) &&
                         FeatureValueSignature(data[k], signatureConfig, search) == Err(r.error)
    ensures r.Ok? ==> IsInvertedIndex(r.value, SignaturesOf(data, |data|, signatureConfig, search))
  {
    var dicSignaturesRecord: Entries<string, nat> := [];
    for index := 0 to |data|
      invariant forall k :: 0 <= k < index ==> FeatureValueSignature(data[k], signatureConfig, search).Ok?
      invariant IsInvertedIndex(dicSignaturesRecord, SignaturesOf(data, index, signatureConfig, search))
    {
      var computed := FeatureValueSignature(data[index], signatureConfig, search);
      if computed.Err? {
        assert 0 <= index < |data| && FeatureValueSignature(data[index], signatureConfig, search) == Err(computed.error);
        return Err(computed.error);
      }
      var signatures := computed.value;
      ghost var before := dicSignaturesRecord;
      dicSignaturesRecord := InsertRecord(dicSignaturesRecord, signatures, index);
      AddRecordKeepsIndex(before, SignaturesOf(data, index, signatureConfig, search), signatures);
      SignaturesOfStep(data, index, signatureConfig, search);
    }
    r := Ok(dicSignaturesRecord);
  }

  /** `compute_candidate_blocks`. The configuration must have a 'config'
      entry, checked before the type; 'feature-value' builds the inverted
      index record by record, and the first record whose signature cannot be
      computed decides the error. */
  method ComputeCandidateBlocks(data: seq<seq<string>>, signatureConfig: map<string, Setting>, search: Search)
    returns (r: Result<Candidates>)
    ensures Get(signatureConfig, "config", Text("not specified")) == Text("not specified") ==>
            r == Err(ValueError("Please provide config for P-Sig from blocklib"))
    ensures Get(signatureConfig, "config", Text("not specified")) != Text("not specified") ==>
            var algorithm := Get(signatureConfig, "type", Text("not specified"));
            && (algorithm == Text("not specified") ==> r == Err(ValueError("Compute signature type is not specified.")))
            && (algorithm == Text("p-sig") ==> r == Ok(BlocklibIndex("p-sig")))
            && (algorithm == Text("kasn") ==> r == Ok(BlocklibIndex("kasn")))
            && (algorithm !in {Text("not specified"), Text("feature-value"), Text("p-sig"), Text("kasn")} ==>
                  r.Err? && r.error.NotImplementedError?)
            && (algorithm == Text("feature-value") ==>
                  && (r.Ok? <==> forall k :: 0 <= k < |data| ==> FeatureValueSignature(data[k], signatureConfig, search).Ok?)
                  && (r.Err? ==> exists k :: 0 <= k < |data| &&
                                   (forall j :: 0 <= j < k ==> FeatureValueSignature(data[j], signatureConfig, search).Ok?) &&
                                   FeatureValueSignature(data[k], signatureConfig, search) == Err(r.error))
                  && (r.Ok? ==> r.value.FeatureValue? &&
                                IsInvertedIndex(r.value.index, SignaturesOf(data, |data|, signatureConfig, search))))
  {
    var algorithm := Get(signatureConfig, "type", Text("not specified"));
    var config := Get(signatureConfig, "config", Text("not specified"));
    if config == Text("not specified") {
      return Err(ValueError("Please provide config for P-Sig from blocklib"));
    }
    if algorithm == Text("not specified") {
      return Err(ValueError("Compute signature type is not specified."));
    } else if algorithm == Text("feature-value") {
      var built := FeatureValueIndex(data, signatureConfig, search);
      r := if built.Ok? then Ok(FeatureValue(built.value)) else Err(built.error);
    } else if algorithm == Text("p-sig") {
      r := Ok(BlocklibIndex("p-sig"));
    } else if algorithm == Text("kasn") {
      r := Ok(BlocklibIndex("kasn"));
    } else {
      r := Err(NotImplementedError("The algorithm is not implemented yet"));
    }
  }

  /** A feature-value record has at most one signature, so it is in at
      most one candidate block. */
  lemma RecordInOneBlock(index: Entries<string, nat>, sigs: seq<seq<string>>, a: nat, b: nat, k: nat)
    requires IsInvertedIndex(index, sigs)
    requires forall j :: 0 <= j < |sigs| ==> |sigs[j]| <= 1
    requires a < |index| && b < |index| && k in index[a].1 && k in index[b].1
    ensures a == b
  {
    Membership(index, sigs, a, k);
    Membership(index, sigs, b, k);
    assert |sigs[k]| == 1 && index[a].0 == sigs[k][0] == index[b].0;
  }
}
