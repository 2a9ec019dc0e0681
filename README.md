# anonlink-client blocking aggregation in Dafny

This project models the blocking-aggregation pipeline of anonlink-client. This
pipeline sits between each data provider's blocking step and the matcher:

- **Signatures.** Each provider computes per-record signatures and inverts them
  into a signature → records index (the feature-value strategy, with the blocklib
  strategies as opaque markers).
- **Candidate block filters.** The signatures are mapped onto a candidate block
  filter (the "dummy" strategy).
- **Threshold voting.** The server sums the providers' filters and admits the
  slots with enough votes.
- **Reverse index.** The admitted slots are resolved back to record lists.
- **Statistics and evaluation.** Block statistics describe the result
  (index-based and signature-based, plus the older index-only class). Evaluation
  helpers measure reduction ratio, pair/set completeness, precision and recall.
- **Client side.** The client reshapes block dictionaries: it inverts
  block → records into records → blocks, merges CLKs with their block ids and
  counts distinct blocks.

There is one module per source file. `Common` holds Python's semantics:
negative indexing, `int()` on strings, `dict.get` with a default, and counting
and set sums. `Inversion` holds the dictionary-of-lists inversion that appears
in both the client and the tutorial helpers.

- Python dictionaries whose iteration order matters are modelled as ordered
  entry sequences.
- Exceptions become a `Result` carrying the Python exception class.
- Loops that update state are methods proved against specification functions.
- Numpy count vectors are `seq<nat>`, and float ratios are exact `real`s.

The statistics classes of `poc/block_statistics.py` (lines 8-113) are a textual
copy of `anonlinkclient/block_statistics.py`. `BlockStatistics` models both.
The `_count_blocks` copies in `poc/blocks_generator.py` and `client/main.py` are
identical to the one modelled in `BlockCounting`.

## Model

| member | source | states |
|---|---|---|
| Common.PyIndex | poc/signature_generator.py:25 | `xs[i]` succeeds exactly for -len ≤ i < len, otherwise IndexError |
| Common.PyInt | anonlinkclient/utils.py:154 | `int(s)` succeeds exactly on an optionally signed, non-empty run of decimal digits; unsigned digits give a non-negative value |
| Common.Get | poc/filter.py:2 | `d.get(k, default)`: the stored value when the key is present, the default otherwise |
| Server.ComputeBlockingFilter | poc/server.py:5-8 | the result has the length of every provider's vector |
| Server.AdmittedIffEnoughVotes | poc/server.py:6-7 | for 0/1 vectors, slot i is admitted iff the number of providers voting 1 there is ≥ threshold |
| Server.DefaultThresholdNeedsTwoVotes | poc/server.py:5 | at the default threshold a slot is admitted iff at least two providers vote for it |
| Server.ThresholdOneIsOr | poc/server.py:6-7 | threshold 1 is the element-wise OR of the providers' vectors |
| Server.ThresholdAllIsAnd | poc/server.py:6-7 | threshold = number of providers is the element-wise AND |
| Server.ThresholdAboveProvidersAdmitsNothing | poc/server.py:7 | a threshold above the number of providers admits no slot, without an error |
| Server.ThresholdMonotone | poc/server.py:7 | raising the threshold never admits a new slot |
| Server.BlockingFilterPermutationInvariant | poc/server.py:6 | reordering the providers does not change the filter |
| Server.TwoOnesProviders | tests/test_server.py:4-12 | two all-ones vectors of length 10 admit 10, 10 and 0 slots at thresholds 1, 2 and 3 |
| Server.ThreeProvidersAtThresholdThree | tests/test_server.py:13-18 | the three example vectors at threshold 3 admit exactly slots 1 and 5 |
| ReverseIndex.SingleIndexReverseIndex | poc/reverse_index.py:20-35 | keys are exactly the admitted slots, each mapped to `sig_to_record_map[cbf_map[i]]`; KeyError iff some admitted slot cannot be resolved |
| ReverseIndex.CreateReverseIndex | poc/reverse_index.py:1-17 | a missing type raises "reverse-index type not provided."; any type other than group-single-index raises ValueError; otherwise the single-index result |
| BlockFilterGenerator.FirstIndex | poc/block_filter_generator.py:43 | `values.index(key)`: a position holding the key with no earlier one |
| BlockFilterGenerator.DummyFilter | poc/block_filter_generator.py:37-48 | ValueError iff some signature is not a configured value; otherwise a 0/1 vector with one slot per value, set exactly at each signature's first position, and a map from exactly those slots to `[value]` |
| BlockFilterGenerator.CandidateBlockFilter | poc/block_filter_generator.py:6-34 | p-sig returns the signature state's filter unchanged; otherwise type dummy gives the dummy filter, any other type ValueError, and a missing key (`signature`, the signature section's `type`, the top-level `type`, `values`) KeyError |
| BlockFilterGenerator.SetSlotsAtMostSignatures | poc/block_filter_generator.py:41-45 | the dummy map has no more slots than there are signatures |
| BlockStatistics.IndexBasedCounts | anonlinkclient/block_statistics.py:45-58 | one vector per (cbf map, signature map) pair up to the shorter tuple; slot i holds 0 when not admitted, else the number of records of its signatures; KeyError iff a lookup fails |
| BlockStatistics.ReduceIsColumnwise | anonlinkclient/block_statistics.py:60-66 | the `reduce` of the count vectors by `*` and by `+` is, slot by slot, the product and the sum over providers |
| BlockStatistics.PerSlotProducts | anonlinkclient/block_statistics.py:61 | slot i holds the product of all providers' counts at i |
| BlockStatistics.PerSlotSums | anonlinkclient/block_statistics.py:65 | slot i holds the sum of all providers' counts at i |
| BlockStatistics.IndexTotalComparisons | anonlinkclient/block_statistics.py:60-62 | the sum over slots of the product of the providers' counts; no providers is a TypeError |
| BlockStatistics.IndexElementsPerBlock | anonlinkclient/block_statistics.py:64-66 | the nonzero per-slot sums in slot order |
| BlockStatistics.NonzeroKeepsTotal | anonlinkclient/block_statistics.py:66 | dropping zeros keeps the total and leaves only nonzero entries |
| BlockStatistics.IndexNumberOfBlocks | anonlinkclient/block_statistics.py:68-69 | the number of slots with a nonzero sum, i.e. the length of elements_per_block |
| BlockStatistics.BlocksWithinAdmitted | anonlinkclient/block_statistics.py:53-69 | with counts from the constructor, number_of_blocks ≤ the number of admitted slots, and elements_per_block sums to all the counts |
| BlockStatistics.SignatureCounts | anonlinkclient/block_statistics.py:87 | one signature → record count dictionary per provider |
| BlockStatistics.SignatureTotalComparisons | anonlinkclient/block_statistics.py:89-95 | the sum over provider pairs i<j and their common signatures of `a[sig]*b[sig]` |
| BlockStatistics.PairComparisons | anonlinkclient/block_statistics.py:92-94 | one pair's contribution: the sum over its common signatures |
| BlockStatistics.SignatureElementsPerBlock | anonlinkclient/block_statistics.py:97-103 | as a multiset, one entry `a[sig]+b[sig]` per (pair, common signature) |
| BlockStatistics.RowBlockSizes | anonlinkclient/block_statistics.py:99-102 | the block sizes of the pairs that start at one provider |
| BlockStatistics.PairBlockSizes | anonlinkclient/block_statistics.py:100-102 | one pair's block sizes, one per common signature |
| BlockStatistics.SignatureNumberOfBlocks | anonlinkclient/block_statistics.py:105-113 | the sum over pairs of the number of common signatures |
| BlockStatistics.SizesCountBlocks | anonlinkclient/block_statistics.py:97-113 | signature-based number_of_blocks equals the length of elements_per_block |
| BlockStatistics.DisjointProvidersShareNothing | anonlinkclient/block_statistics.py:89-113 | two providers without a common signature give 0 comparisons, no blocks and no block sizes |
| BlockStatistics.GetStats | anonlinkclient/block_statistics.py:10-22 | index-based-blocks builds the index counts, signature-based-blocks the signature counts; any other type, a missing one included, raises ValueError |
| BlockStatistics.LegacyBlockStats | poc/statistics.py:14-33 | the older constructor: only group-single-index is accepted, with the same count vectors |
| AssessBlocks.Entities | poc/block_statistics.py:141-142 | the entity column of every row, IndexError iff some row lacks it |
| AssessBlocks.Finish | poc/block_statistics.py:138-146 | candidates = true + false matches; total = len(dp1)·len(dp2); all true matches = distinct entities in both; rr = 1 − candidates/total and pc = true/all; ZeroDivisionError when a dataset is empty or no entity is shared; once both entity columns are read and both datasets are non-empty, a result exactly when some entity is shared |
| AssessBlocks.VisitDp2Records | poc/block_statistics.py:128-135 | the inner loop computes its specification: a new dp2 entity enters the cache and counts as a true match iff it equals the dp1 entity; a cached one is skipped |
| AssessBlocks.VisitDp1Records | poc/block_statistics.py:125-136 | the middle loop computes its specification: the cache is fetched by entity value and stored back under the record index |
| AssessBlocks.AssessBlocksAsWritten | poc/block_statistics.py:116-146 | the whole function computes its specification |
| AssessBlocks.CandidatesAreCacheEntries | poc/block_statistics.py:128-135 | every counted match is one addition to a cache set |
| AssessBlocks.KeyErrorMeansMissingSignature | poc/block_statistics.py:122-124 | a KeyError means some dp1 signature is absent from dp2, and a missing first signature raises it |
| AssessBlocks.PcExceedsOne | poc/block_statistics.py:127-146 | two dp1 records with the same entity in one block give pc = 2 |
| AssessBlocks.EntitiesAreEntitySet | poc/block_statistics.py:141-143 | the entity list of a dataset has the dataset's entity values as its elements |
| AssessBlocks.AssessBlocksByEntity | poc/block_statistics.py:116-146 | with the cache stored under the entity value: same ratios, and true matches ≤ all true matches, so 0 ≤ pc ≤ 1 |
| CandidateBlockGenerator.FeatureValueSignature | poc/candidate_block_generator.py:79-99 | a missing feature-index raises "Signature index is not specified."; a bad index fails; with an integer index, a string pattern and an existing field the result is the pattern's first match as a one-element list, or the empty list when it does not match |
| CandidateBlockGenerator.Position | poc/candidate_block_generator.py:52 | `signature in dic`: the entry holding the signature, or none holds it |
| CandidateBlockGenerator.NoSignatureKeepsIndex | poc/candidate_block_generator.py:51 | a record without a signature leaves a correct inverted index correct |
| CandidateBlockGenerator.KnownSignatureKeepsIndex | poc/candidate_block_generator.py:52-53 | appending the record to a known signature's list keeps the index correct |
| CandidateBlockGenerator.NewSignatureKeepsIndex | poc/candidate_block_generator.py:54-55 | a new signature mapped to `[index]` keeps the index correct |
| CandidateBlockGenerator.AddRecordKeepsIndex | poc/candidate_block_generator.py:50-55 | adding one record's signatures keeps the index correct |
| CandidateBlockGenerator.InsertRecord | poc/candidate_block_generator.py:51-55 | the insertion loop computes its specification |
| CandidateBlockGenerator.FeatureValueIndex | poc/candidate_block_generator.py:47-55 | fails iff some record's signature fails, with the first failure's error; otherwise every signature maps to the strictly increasing, non-empty list of exactly the records having it |
| CandidateBlockGenerator.ComputeCandidateBlocks | poc/candidate_block_generator.py:9-76 | a missing config raises first; a missing type raises ValueError; feature-value gives the inverted index; p-sig and kasn go to blocklib; anything else raises NotImplementedError |
| CandidateBlockGenerator.RecordInOneBlock | poc/candidate_block_generator.py:47-55 | with at most one signature per record, a record appears in only one list |
| SignatureGenerator.FeatureValueSignatures | poc/signature_generator.py:21-26 | one element `[data[k][index]]` per record; IndexError iff some record is too short |
| SignatureGenerator.ComputeSignatures | poc/signature_generator.py:1-29 | as written: a missing type or index, or another algorithm, returns None; int() errors propagate; feature-value with an integer index gives the signatures exactly when every record has that column, IndexError otherwise |
| SignatureGenerator.ComputeSignaturesRaising | poc/signature_generator.py:13-29 | with the constructed errors raised: ValueError for a missing type or index, NotImplementedError("The algorithm is not implemented yet") for another algorithm with an integer index, so success always carries the signatures |
| SignatureFilter.FilterSignatures | poc/filter.py:1-6 | as written: type 'none' returns the candidates unchanged, anything else (a missing type included) None |
| SignatureFilter.FilterSignaturesRaising | poc/filter.py:1-6 | with the error raised: 'none' returns the candidates, anything else NotImplementedError |
| SignatureFilter.SilentWhereErrorMeant | poc/filter.py:5-6 | the as-written function returns None exactly where the raising one fails |
| ClientUtils.Suffix | anonlinkclient/utils.py:65 | `name.split('.')[-1]`: the dot-free tail after the last dot, or the whole name |
| ClientUtils.SuffixAfterDot | anonlinkclient/utils.py:65 | a name `stem.ext` has suffix `ext` |
| ClientUtils.ChooseInput | anonlinkclient/utils.py:50-80 | a header outside {False, True, 'ignore'} raises ValueError; lambda-fold without input-clks raises KeyError; with input-clks true, a file that is not JSON raises "Upload should be CLKs not <SUFFIX> file", a document without `clks` raises KeyError, and the CLKs are read otherwise; on the CSV branch a .json file raises "Upload should be CSVs not CLKs" and anything else is read as CSV |
| ClientUtils.ChooseInputCases | anonlinkclient/utils.py:50-80 | CLKs are read exactly when the header is accepted, lambda-fold asks for input-clks and the file holds them; CSV rows exactly when the header is accepted, the CSV branch is taken and the file is not named .json |
| ClientUtils.HeaderTextRefused | tests/test_utils.py:32-35 | header 'Header' raises ValueError |
| ClientUtils.JsonInputRefusedForCsvMethods | tests/test_utils.py:49-55 | a .json upload for a CSV method raises "Upload should be CSVs not CLKs" |
| ClientUtils.EncodingToBlocksMap | anonlinkclient/utils.py:97-100 | the loop computes the inversion of block → records into records → blocks |
| Inversion.InvertIsOccurrences | anonlinkclient/utils.py:97-100 | each record lists the blocks containing it, in block order, once per occurrence; records in no block are absent |
| Inversion.InvertPreservesPairs | anonlinkclient/utils.py:97-100 | every (block, record) pair occurs in the inversion exactly as often as in the input |
| Inversion.InvertRoundTrip | anonlinkclient/utils.py:97-100 | inverting an enumeration of the inversion gives back each block's records as a multiset |
| ClientUtils.CombineClksBlocks | anonlinkclient/utils.py:136-156 | unparseable CLK or block input raises "Invalid CLKs or Blocks"; success needs both documents |
| ClientUtils.CombineRows | anonlinkclient/utils.py:151-156 | the loops compute the appending specification |
| ClientUtils.AttachFromMeaning | anonlinkclient/utils.py:153-156 | appending succeeds iff every entry's id parses (entries with no block ids included) and every entry with block ids has its id in range; then row k is its start followed by the block ids listed for k, in order |
| ClientUtils.CombineRowsShape | anonlinkclient/utils.py:151-156 | one row per CLK, starting with that CLK and followed by its block ids |
| ClientUtils.RecordIdOutOfRange | anonlinkclient/utils.py:153-156 | a record id ≥ the number of CLKs with blocks to append fails |
| TutorialEvaluation.CountInSplit | docs/tutorial/util.py:64-65 | tp + fp = len(found_groups) |
| TutorialEvaluation.Evaluate | docs/tutorial/util.py:63-70 | ZeroDivisionError iff found_groups or true_matches is empty; precision = tp/len(found_groups); recall = tp/(tp+fn) with fn the true matches not found; both ratios in [0,1] |
| TutorialEvaluation.RecallDenominator | docs/tutorial/util.py:66-69 | tp + fn = 0 iff true_matches is empty |
| TutorialEvaluation.BlocksIffCounted | docs/tutorial/util.py:80-85 | a block has a counter iff some provider lists it |
| TutorialEvaluation.Converted | docs/tutorial/util.py:107-110 | converting record ids fails iff some id with blocks does not convert, with that id's error |
| TutorialEvaluation.InvertCounting | docs/tutorial/util.py:82-87 | one provider's loop: fdict is the inversion, and each block's counter grows by its occurrences |
| TutorialEvaluation.InvertAll | docs/tutorial/util.py:79-87 | all providers: fdicts are the inversions, `block_keys[blk]` counts every occurrence over all providers, and its keys are the blocks listed anywhere |
| TutorialEvaluation.LookupLength | docs/tutorial/util.py:94-95 | a provider's list for a block has one entry per occurrence, and the block is present iff it occurs |
| TutorialEvaluation.NaiveZeroIff | docs/tutorial/util.py:75-77 | the naive count is 0 iff some dataset is empty |
| TutorialEvaluation.ProductOverProviders | docs/tutorial/util.py:92-95 | the per-key product of list lengths, with factor 1 for a provider lacking the key |
| TutorialEvaluation.ReductionRatio | docs/tutorial/util.py:73-98 | ZeroDivisionError iff some dataset is empty; naive = product of lengths; reduced = sum over blocks counted ≥ K of their comparisons; rr = 1 − reduced/naive |
| TutorialEvaluation.ReducedMonotoneInK | docs/tutorial/util.py:88-96 | raising K keeps fewer final blocks and never more reduced comparisons |
| TutorialEvaluation.AddIndex | docs/tutorial/util.py:119-120 | adds (i, ind) for every record of one block |
| TutorialEvaluation.AddProviderPairs | docs/tutorial/util.py:116-120 | one provider's pass over the final keys adds exactly its pairs |
| TutorialEvaluation.CollectPairs | docs/tutorial/util.py:114-120 | `sets` has exactly the final keys some provider lists, each holding the pairs of all providers |
| TutorialEvaluation.PairsAreMembers | docs/tutorial/util.py:105-120 | those pairs are exactly (provider, int(record id)) for the records listing the block |
| TutorialEvaluation.CoversTrueSet | docs/tutorial/util.py:124-128 | check is true iff the true set lies inside some block's set |
| TutorialEvaluation.CoveredCount | docs/tutorial/util.py:122-130 | the number of covered true sets is at most the number of true sets |
| TutorialEvaluation.SetCompleteness | docs/tutorial/util.py:101-133 | an unconvertible record id fails with its `int()` error first, even when truth is empty; with every id converted, ZeroDivisionError exactly on empty truth; otherwise sc = covered/len(truth), in [0,1] |
| BlockCounting.CountBlocks | anonlinkclient/main_novt.py:106-112 | the number of distinct block ids in all records' lists, at most the number of entries |
| BlockCounting.NoBlocksIffAllListsEmpty | anonlinkclient/main_novt.py:107-112 | the count is 0 iff every list is empty, an empty dictionary included |
| BlockCounting.RepeatsCountedOnce | anonlinkclient/main_novt.py:110 | a record listing only seen ids adds nothing; one new id adds exactly one, however often listed |
| BlockCounting.OrderIndependent | anonlinkclient/main_novt.py:108-111 | any reordering of the records gives the same blocks |
| BlockCounting.BlocksAreInvertedKeys | anonlinkclient/main_novt.py:106-112 | the distinct blocks are the keys of the inverted block → records dictionary |

## Left out

- I/O is not modelled:
  - reading CSV and JSON files, `json.load`, `json.dump` and the output stream;
  - logging, timing, `print` and `round`.
  - JSON documents are given parsed or as an "unparseable" / "missing member" marker.
- Schema parsing and validation are not modelled. This covers `json.load(schema_f)` with its ValueError and `validate_signature_config`, which lives in a module that is not part of this model.
- Regex matching is not modelled. The compiled pattern's `search` is a parameter that returns an optional match. An invalid pattern is not modelled.
- Blocklib is not modelled:
  - the p-sig and kasn inverted indices and state appear only as a `BlocklibIndex` marker;
  - the p-sig candidate filter is a parameter;
  - `generate_candidate_blocks` and the block/state/statistics objects it returns are not part of this model.
- `base_model_to_dict` and the blocking-state export (`anonlinkclient/utils.py:104-129`) are not modelled. They depend on pydantic objects that are not part of this model.
- Numpy's float count vectors are modelled as natural numbers. Ratios are exact reals, not floating point.
- `poc/reverse_index.py` calls `blocking_filter.get(i)`, which numpy arrays do not have. The filter is modelled as a sequence of integers, and a slot is admitted when it equals 1, so Python's `True == 1` is taken as given.
- Formatted error messages keep only their constant text, and the offending value inside them is not modelled. The one exception is `ChooseInput`'s "Upload should be CLKs not <SUFFIX> file", which carries the file's suffix.
- ClientUtils.Upper: upper-cases ASCII letters only. Python's `str.upper()` also maps non-ASCII letters, some to several characters ('ß' → 'SS'), and the model does not.
- BlockFilterGenerator.CandidateBlockFilter: config values of the wrong type are out of scope. The model gives a TypeError for a `values` that is not a list of strings. In the source, a string `values` does substring tests in `key in values` and `values.index(key)` (`poc/block_filter_generator.py:42-43`), and a dict raises AttributeError or ValueError.
- ReverseIndex.SingleIndexReverseIndex: signature keys are assumed hashable. The dummy filter's slot map holds lists `[key]` (`poc/block_filter_generator.py:45`), and `sig_to_record_map[cbf_map[i]]` (`poc/reverse_index.py:34`) raises TypeError on such an unhashable list. The model's generic signature type looks such keys up like any other value.
- Server.ComputeBlockingFilter: requires at least one provider. With none, `np.sum([], axis=0)` is the scalar 0.0 and the source returns the single boolean `0.0 >= threshold`, not a vector; that case is not modelled.
- The TypeError of `reduce` on an empty tuple is modelled as a TypeError without its message.
- `int()` is modelled on ASCII digits with an optional sign. Surrounding whitespace, underscores and non-ASCII digits are not accepted by the model.
- The entity column is modelled as integers or strings, compared as Python's `==` compares them (an int never equals a str). `np.intersect1d` (`poc/block_statistics.py:143`) turns a column mixing the two into strings, so there `1` and `'1'` match. The model's count of all true matches does not capture that conversion; it agrees with the source when each entity column holds one type.
- The truth sets of `set_completeness` are sequences of (provider, record) integer pairs.
- Dictionary iteration order is modelled where it matters: as ordered entries for the block → records dictionaries and `dp1_signature`. Where the source iterates a set or `block_keys` (`final_block_keys`, `common_sigs`, `sets.values()`), the model uses sets. Its results do not depend on that order.
- `B(!new)` block-id types: block ids are plain values (strings or numbers), never references to heap objects.
- BlockStatistics.SignatureElementsPerBlock: the order of the block sizes follows Python's set iteration order. The model states the sizes as a multiset only.
- AssessBlocks.AssessBlocksByEntity: its contract gives the error cases as a set of classes and the match counts as bounds, weaker than the as-written function's exact specification.
- BlockStatistics: the reduce-based queries require rectangular count vectors, which the constructor always produces (every vector has the filter's length).
- The CLI and orchestration modules are not part of this model: `cli.py`, `run_novt_blocking`, `poc/main.py`, `poc/blocks_generator.py` and `client/main.py`. They are glue over pandas, clkhash, anonlink and a REST service.
- The matcher calls `solve` and `naive_solve` (`docs/tutorial/util.py:8-60`) are not modelled. They call anonlink.

## Findings

| source | as written | input that shows it | evidently intended | confidence | as-written member | corrected member |
|---|---|---|---|---|---|---|
| poc/block_statistics.py:127,136 | the pair cache is fetched by entity value but stored under the record index, so a second dp1 record with the same entity starts from an empty cache and counts the same true match again | one shared signature "k"; dp1 records 0 and 1 both entity "a"; dp2 record 0 entity "a" → pc = 2.0 | cache keyed by entity value both ways, so each (entity, entity) pair counts once and pc ≤ 1 | not executed | AssessBlocks.PcExceedsOne | AssessBlocks.AssessBlocksByEntity |
| poc/signature_generator.py:16-19,27-29 | `ValueError(...)` and `NotImplementedError(msg)` are constructed but not raised, so a missing type, a missing index or an unknown algorithm returns None | signature config `{'type': 'feature-value'}` without 'feature-index' → None | raise the constructed errors | not executed | SignatureGenerator.ComputeSignatures | SignatureGenerator.ComputeSignaturesRaising |
| poc/filter.py:5-6 | `NotImplementedError(...)` is constructed but not raised, so an unknown or missing filter type returns None | filter config `{}` → None | raise NotImplementedError for types other than 'none' | not executed | SignatureFilter.FilterSignatures | SignatureFilter.FilterSignaturesRaising |
