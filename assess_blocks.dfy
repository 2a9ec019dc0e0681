/** `assess_blocks` of `poc/block_statistics.py`: the reduction ratio and pair
    completeness of the blocks two providers share, measured against a
    ground-truth entity column of their data. The source caches, per dp1
    record, the set of dp2 entities already paired with it. It fetches that
    set by the record's entity value but stores it under the record's index;
    sets are shared objects, so the model keeps them in an explicit store and
    maps each cache key to a position in it. */
module AssessBlocks {
  import opened Common
  import opened Inversion

  /** A cell of a data row: the entity column holds integers or strings. */
  datatype Value = IntVal(i: int) | StrVal(s: string)

  type Row = seq<Value>

  /** What the loops update: the set objects (`store`), the `cand_pairs`
      dictionary from keys to set objects, and the two match counters. */
  datatype Counters = Counters(store: seq<set<Value>>, cand: map<Value, nat>, trueMatches: nat, falseMatches: nat)

  /** Every key of `cand_pairs` refers to an existing set object. */
  predicate Valid(st: Counters)
  {
    forall k :: k in st.cand ==> st.cand[k] < |st.store|
  }

  /** `data[d][ent_col]`, each index with Python's semantics. */
  function EntityOf(data: seq<Row>, d: int, entCol: int): (r: Result<Value>)
    ensures r.Err? ==> r.error == IndexError
  {
    match PyIndex(data, d)
    case Err(e) => Err(e)
    case Ok(row) => PyIndex(row, entCol)
  }

  // ---------------------------------------------------------------------------
  // The loops, as written

  /** One dp2 entity against the cache set `id` of a dp1 record whose entity
      is `e1`: an entity not yet in the set is added and counted as a true
      match when equal to `e1`, a false one otherwise. */
  function SeeEntity(st: Counters, id: nat, e1: Value, e2: Value): (r: Counters)
    requires id < |st.store|
    ensures |r.store| == |st.store| && r.cand == st.cand
    ensures e2 in r.store[id]
  {
    if e2 in st.store[id] then st
    else if e2 == e1 then
      st.(store := st.store[id := st.store[id] + {e2}], trueMatches := st.trueMatches + 1)
    else
      st.(store := st.store[id := st.store[id] + {e2}], falseMatches := st.falseMatches + 1)
  }

  /** The `for d2 in dp2_recs` loop. */
  function D2Loop(st: Counters, id: nat, e1: Value, dp2Data: seq<Row>, d2s: seq<int>, entCol: int): (r: Result<Counters>)
    requires Valid(st) && id < |st.store|
    ensures r.Err? ==> r.error == IndexError
    ensures r.Ok? ==> Valid(r.value) && |r.value.store| == |st.store| && r.value.cand == st.cand
    decreases |d2s|
  {
    if d2s == [] then Ok(st)
    else
      match EntityOf(dp2Data, d2s[0], entCol)
      case Err(e) => Err(e)
      case Ok(e2) => D2Loop(SeeEntity(st, id, e1, e2), id, e1, dp2Data, d2s[1..], entCol)
  }

  /** `cand_pairs.get(d1_entity, set())`: the stored set object, or a new
      empty one. */
  function Fetch(st: Counters, e1: Value): (r: (Counters, nat))
    requires Valid(st)
    ensures Valid(r.0) && r.1 < |r.0.store| && r.0.cand == st.cand
  {
    if e1 in st.cand then (st, st.cand[e1]) else (st.(store := st.store + [{}]), |st.store|)
  }

  /** The `for d1 in dp1_recs` loop; the set is stored back under the record
      index `d1`, not under its entity. */
  function D1Loop(st: Counters, dp1Data: seq<Row>, dp2Data: seq<Row>, d1s: seq<int>, d2s: seq<int>, entCol: int)
    : (r: Result<Counters>)
    requires Valid(st)
    ensures r.Err? ==> r.error == IndexError
    ensures r.Ok? ==> Valid(r.value)
    decreases |d1s|
  {
    if d1s == [] then Ok(st)
    else
      match EntityOf(dp1Data, d1s[0], entCol)
      case Err(e) => Err(e)
      case Ok(e1) =>
        var (fetched, id) := Fetch(st, e1);
        match D2Loop(fetched, id, e1, dp2Data, d2s, entCol)
        case Err(e) => Err(e)
        case Ok(after) => D1Loop(after.(cand := after.cand[IntVal(d1s[0]) := id]), dp1Data, dp2Data, d1s[1..], d2s, entCol)
  }

  /** The `for key in dp1_signature` loop: `dp2_signature[key]` raises
      KeyError for a signature dp2 does not have. */
  function KeyLoop(st: Counters, dp1Sig: Entries<string, int>, dp2Sig: map<string, seq<int>>,
                   dp1Data: seq<Row>, dp2Data: seq<Row>, entCol: int): (r: Result<Counters>)
    requires Valid(st)
    ensures r.Ok? ==> Valid(r.value)
    ensures r.Err? ==> r.error == KeyError || r.error == IndexError
    decreases |dp1Sig|
  {
    if dp1Sig == [] then Ok(st)
    else if dp1Sig[0].0 !in dp2Sig then Err(KeyError)
    else
      match D1Loop(st, dp1Data, dp2Data, dp1Sig[0].1, dp2Sig[dp1Sig[0].0], entCol)
      case Err(e) => Err(e)
      case Ok(after) => KeyLoop(after, dp1Sig[1..], dp2Sig, dp1Data, dp2Data, entCol)
  }

  // ---------------------------------------------------------------------------
  // The ratios

  /** What `assess_blocks` prints: the numbers behind rr and pc, and the two
      ratios as exact reals. */
  datatype Assessment = Assessment(candidatePairs: nat, trueMatches: nat, totalRec: nat,
                                   allTrueMatches: nat, rr: real, pc: real)

  /** `[r[ent_col] for r in data]`. */
  function Entities(data: seq<Row>, entCol: int): (r: Result<seq<Value>>)
    ensures r.Ok? <==> forall d :: 0 <= d < |data| ==> PyIndex(data[d], entCol).Ok?
    ensures r.Ok? ==> |r.value| == |data| &&
                      forall d :: 0 <= d < |data| ==> r.value[d] == PyIndex(data[d], entCol).value
    ensures r.Err? ==> r.error == IndexError
  {
    if data == [] then Ok([])
    else
      match Entities(data[..|data| - 1], entCol)
      case Err(e) => Err(e)
      case Ok(front) =>
        match PyIndex(data[|data| - 1], entCol)
        case Err(e) => Err(e)
        case Ok(v) => Ok(front + [v])
  }

  /** A float division of two counts, taken as exact. */
  function Ratio(a: nat, b: nat): real
    requires b > 0
  {
    (a as real) / (b as real)
  }

  function SetOf(xs: seq<Value>): set<Value>
  {
    set x | x in xs
  }

  /** Everything after the loops: the candidate and total pair counts, the
      number of distinct entities both datasets hold (`np.intersect1d`), and
      the two float divisions. */
  function Finish(trueMatches: nat, falseMatches: nat, dp1Data: seq<Row>, dp2Data: seq<Row>, entCol: int)
    : (r: Result<Assessment>)
    ensures r.Ok? ==>
            r.value.candidatePairs == trueMatches + falseMatches &&
            r.value.trueMatches == trueMatches &&
            r.value.totalRec == |dp1Data| * |dp2Data| > 0 &&
            Entities(dp1Data, entCol).Ok? && Entities(dp2Data, entCol).Ok? &&
            r.value.allTrueMatches == |SetOf(Entities(dp1Data, entCol).value) * SetOf(Entities(dp2Data, entCol).value)| > 0 &&
            r.value.rr == 1.0 - Ratio(r.value.candidatePairs, r.value.totalRec) &&
            r.value.pc == Ratio(r.value.trueMatches, r.value.allTrueMatches)
    ensures Entities(dp1Data, entCol).Ok? && Entities(dp2Data, entCol).Ok? && |dp1Data| * |dp2Data| == 0 ==>
            r == Err(ZeroDivisionError)
    ensures Entities(dp1Data, entCol).Ok? && Entities(dp2Data, entCol).Ok? && |dp1Data| * |dp2Data| > 0 ==>
            (r.Ok? <==> |SetOf(Entities(dp1Data, entCol).value) * SetOf(Entities(dp2Data, entCol).value)| > 0)
    ensures r.Err? ==> r.error == IndexError || r.error == ZeroDivisionError
  {
    var candidates := trueMatches + falseMatches;
    var totalRec := MulNat(|dp1Data|, |dp2Data|);
    match Entities(dp1Data, entCol)
    case Err(e) => Err(e)
    case Ok(entity1) =>
      match Entities(dp2Data, entCol)
      case Err(e) => Err(e)
      case Ok(entity2) =>
        var allTrue := |SetOf(entity1) * SetOf(entity2)|;
        if totalRec == 0 then Err(ZeroDivisionError)
        else
          var rr := 1.0 - Ratio(candidates, totalRec);
          if allTrue == 0 then Err(ZeroDivisionError)
          else Ok(Assessment(candidates, trueMatches, totalRec, allTrue, rr,
                             Ratio(trueMatches, allTrue)))
  }

  const Start := Counters([], map[], 0, 0)

  /** `assess_blocks` as written. */
  function AssessSpec(dp1Sig: Entries<string, int>, dp2Sig: map<string, seq<int>>,
                      dp1Data: seq<Row>, dp2Data: seq<Row>, entCol: int): Result<Assessment>
  {
    match KeyLoop(Start, dp1Sig, dp2Sig, dp1Data, dp2Data, entCol)
    case Err(e) => Err(e)
    case Ok(st) => Finish(st.trueMatches, st.falseMatches, dp1Data, dp2Data, entCol)
  }

  // ---------------------------------------------------------------------------
  // The imperative loops, one method per loop level

  method VisitDp2Records(st: Counters, id: nat, e1: Value, dp2Data: seq<Row>, d2s: seq<int>, entCol: int)
    returns (r: Result<Counters>)
    requires Valid(st) && id < |st.store|
    ensures r == D2Loop(st, id, e1, dp2Data, d2s, entCol)
  {
    var store, trueMatches, falseMatches := st.store, st.trueMatches, st.falseMatches;
    for j := 0 to |d2s|
      invariant |store| == |st.store|
      invariant D2Loop(st, id, e1, dp2Data, d2s, entCol) ==
                D2Loop(Counters(store, st.cand, trueMatches, falseMatches), id, e1, dp2Data, d2s[j..], entCol)
    {
      assert d2s[j..][1..] == d2s[j + 1..];
      var e2 := EntityOf(dp2Data, d2s[j], entCol);
      if e2.Err? {
        return Err(e2.error);
      }
      var d2Entity := e2.value;
      if d2Entity !in store[id] {
        store := store[id := store[id] + {d2Entity}];
        if d2Entity == e1 {
          trueMatches := trueMatches + 1;
        } else {
          falseMatches := falseMatches + 1;
        }
      }
    }
    r := Ok(Counters(store, st.cand, trueMatches, falseMatches));
  }

  method VisitDp1Records(st: Counters, dp1Data: seq<Row>, dp2Data: seq<Row>, d1s: seq<int>, d2s: seq<int>, entCol: int)
    returns (r: Result<Counters>)
    requires Valid(st)
    ensures r == D1Loop(st, dp1Data, dp2Data, d1s, d2s, entCol)
  {
    var cur := st;
    for j := 0 to |d1s|
      invariant Valid(cur)
      invariant D1Loop(st, dp1Data, dp2Data, d1s, d2s, entCol) == D1Loop(cur, dp1Data, dp2Data, d1s[j..], d2s, entCol)
    {
      assert d1s[j..][1..] == d1s[j + 1..];
      var d1 := d1s[j];
      var e1 := EntityOf(dp1Data, d1, entCol);
      if e1.Err? {
        return Err(e1.error);
      }
      var d1Entity := e1.value;
      var id: nat;
      if d1Entity in cur.cand {
        id := cur.cand[d1Entity];
      } else {
        cur := cur.(store := cur.store + [{}]);
        id := |cur.store| - 1;
      }
      var after := VisitDp2Records(cur, id, d1Entity, dp2Data, d2s, entCol);
      if after.Err? {
        return Err(after.error);
      }
      cur := after.value.(cand := after.value.cand[IntVal(d1) := id]);
    }
    r := Ok(cur);
  }

  /** `assess_blocks`, returning what it prints. */
  method AssessBlocksAsWritten(dp1Sig: Entries<string, int>, dp2Sig: map<string, seq<int>>,
                               dp1Data: seq<Row>, dp2Data: seq<Row>, entCol: int)
    returns (r: Result<Assessment>)
    ensures r == AssessSpec(dp1Sig, dp2Sig, dp1Data, dp2Data, entCol)
  {
    var cur := Start;
    for k := 0 to |dp1Sig|
      invariant Valid(cur)
      invariant KeyLoop(Start, dp1Sig, dp2Sig, dp1Data, dp2Data, entCol) ==
                KeyLoop(cur, dp1Sig[k..], dp2Sig, dp1Data, dp2Data, entCol)
    {
      assert dp1Sig[k..][1..] == dp1Sig[k + 1..];
      var (key, dp1Recs) := dp1Sig[k];
      if key !in dp2Sig {
        return Err(KeyError);
      }
      var after := VisitDp1Records(cur, dp1Data, dp2Data, dp1Recs, dp2Sig[key], entCol);
      if after.Err? {
        return Err(after.error);
      }
      cur := after.value;
    }
    r := Finish(cur.trueMatches, cur.falseMatches, dp1Data, dp2Data, entCol);
  }

  // ---------------------------------------------------------------------------
  // Properties of the loops as written

  /** The total size of the set objects. */
  function StoreSize(store: seq<set<Value>>): nat
  {
    if store == [] then 0 else StoreSize(store[..|store| - 1]) + |store[|store| - 1]|
  }

  lemma {:induction false} StoreSizeAdd(store: seq<set<Value>>, id: nat, e: Value)
    requires id < |store| && e !in store[id]
    ensures StoreSize(store[id := store[id] + {e}]) == StoreSize(store) + 1
    decreases |store|
  {
    var n := |store| - 1;
    var updated := store[id := store[id] + {e}];
    assert updated[..n] == if id < n then store[..n][id := store[id] + {e}] else store[..n];
    if id < n {
      StoreSizeAdd(store[..n], id, e);
    }
  }

  lemma {:induction false} D2LoopCountsAdditions(st: Counters, id: nat, e1: Value, dp2Data: seq<Row>, d2s: seq<int>, entCol: int)
    requires Valid(st) && id < |st.store|
    requires st.trueMatches + st.falseMatches == StoreSize(st.store)
    ensures D2Loop(st, id, e1, dp2Data, d2s, entCol).Ok? ==>
            var after := D2Loop(st, id, e1, dp2Data, d2s, entCol).value;
            after.trueMatches + after.falseMatches == StoreSize(after.store)
    decreases |d2s|
  {
    if d2s != [] {
      match EntityOf(dp2Data, d2s[0], entCol)
      case Err(_) =>
      case Ok(e2) =>
        if e2 !in st.store[id] {
          StoreSizeAdd(st.store, id, e2);
        }
        D2LoopCountsAdditions(SeeEntity(st, id, e1, e2), id, e1, dp2Data, d2s[1..], entCol);
    }
  }

  lemma {:induction false} D1LoopCountsAdditions(st: Counters, dp1Data: seq<Row>, dp2Data: seq<Row>, d1s: seq<int>, d2s: seq<int>, entCol: int)
    requires Valid(st)
    requires st.trueMatches + st.falseMatches == StoreSize(st.store)
    ensures D1Loop(st, dp1Data, dp2Data, d1s, d2s, entCol).Ok? ==>
            var after := D1Loop(st, dp1Data, dp2Data, d1s, d2s, entCol).value;
            after.trueMatches + after.falseMatches == StoreSize(after.store)
    decreases |d1s|
  {
    if d1s != [] {
      match EntityOf(dp1Data, d1s[0], entCol)
      case Err(_) =>
      case Ok(e1) =>
        var (fetched, id) := Fetch(st, e1);
        FetchCountsAdditions(st, e1);
        D2LoopCountsAdditions(fetched, id, e1, dp2Data, d2s, entCol);
        match D2Loop(fetched, id, e1, dp2Data, d2s, entCol)
        case Err(_) =>
        case Ok(after) =>
          var next := after.(cand := after.cand[IntVal(d1s[0]) := id]);
          D1LoopCountsAdditions(next, dp1Data, dp2Data, d1s[1..], d2s, entCol);
    }
  }

  /** Fetching a cache set adds at most an empty one. */
  lemma FetchCountsAdditions(st: Counters, e1: Value)
    requires Valid(st)
    requires st.trueMatches + st.falseMatches == StoreSize(st.store)
    ensures var fetched := Fetch(st, e1).0;
            fetched.trueMatches + fetched.falseMatches == StoreSize(fetched.store)
  {
    if e1 !in st.cand {
      var fetched := Fetch(st, e1).0;
      assert fetched.store[..|fetched.store| - 1] == st.store;
    }
  }

  lemma {:induction false} KeyLoopCountsAdditions(st: Counters, dp1Sig: Entries<string, int>, dp2Sig: map<string, seq<int>>,
                                                  dp1Data: seq<Row>, dp2Data: seq<Row>, entCol: int)
    requires Valid(st)
    requires st.trueMatches + st.falseMatches == StoreSize(st.store)
    ensures KeyLoop(st, dp1Sig, dp2Sig, dp1Data, dp2Data, entCol).Ok? ==>
            var after := KeyLoop(st, dp1Sig, dp2Sig, dp1Data, dp2Data, entCol).value;
            after.trueMatches + after.falseMatches == StoreSize(after.store)
    decreases |dp1Sig|
  {
    if dp1Sig != [] && dp1Sig[0].0 in dp2Sig {
      D1LoopCountsAdditions(st, dp1Data, dp2Data, dp1Sig[0].1, dp2Sig[dp1Sig[0].0], entCol);
      match D1Loop(st, dp1Data, dp2Data, dp1Sig[0].1, dp2Sig[dp1Sig[0].0], entCol)
      case Err(_) =>
      case Ok(after) => KeyLoopCountsAdditions(after, dp1Sig[1..], dp2Sig, dp1Data, dp2Data, entCol);
    }
  }

  /** Every candidate pair is one entity added to one cache set: an entity
      already in the set is never counted again, so the candidate count is
      the total size of the cache sets. */
  lemma CandidatesAreCacheEntries(dp1Sig: Entries<string, int>, dp2Sig: map<string, seq<int>>,
                                  dp1Data: seq<Row>, dp2Data: seq<Row>, entCol: int)
    ensures KeyLoop(Start, dp1Sig, dp2Sig, dp1Data, dp2Data, entCol).Ok? ==>
            var st := KeyLoop(Start, dp1Sig, dp2Sig, dp1Data, dp2Data, entCol).value;
            st.trueMatches + st.falseMatches == StoreSize(st.store)
  {
    KeyLoopCountsAdditions(Start, dp1Sig, dp2Sig, dp1Data, dp2Data, entCol);
  }

  /** A KeyError comes from a dp1 signature dp2 does not have; when the
      first signature is such a one, nothing else is looked at. */
  lemma {:induction false} KeyErrorMeansMissingSignature(st: Counters, dp1Sig: Entries<string, int>, dp2Sig: map<string, seq<int>>,
                                                         dp1Data: seq<Row>, dp2Data: seq<Row>, entCol: int)
    requires Valid(st)
    ensures KeyLoop(st, dp1Sig, dp2Sig, dp1Data, dp2Data, entCol) == Err(KeyError) ==>
            exists a :: 0 <= a < |dp1Sig| && dp1Sig[a].0 !in dp2Sig
    ensures |dp1Sig| > 0 && dp1Sig[0].0 !in dp2Sig ==> KeyLoop(st, dp1Sig, dp2Sig, dp1Data, dp2Data, entCol) == Err(KeyError)
    decreases |dp1Sig|
  {
    if dp1Sig != [] && dp1Sig[0].0 in dp2Sig {
      match D1Loop(st, dp1Data, dp2Data, dp1Sig[0].1, dp2Sig[dp1Sig[0].0], entCol)
      case Err(_) =>
      case Ok(after) =>
        KeyErrorMeansMissingSignature(after, dp1Sig[1..], dp2Sig, dp1Data, dp2Data, entCol);
        if KeyLoop(after, dp1Sig[1..], dp2Sig, dp1Data, dp2Data, entCol) == Err(KeyError) {
          var a :| 0 <= a < |dp1Sig[1..]| && dp1Sig[1..][a].0 !in dp2Sig;
          assert dp1Sig[a + 1].0 !in dp2Sig;
        }
    }
  }

  /** The two dp1 records of one entity "a" both pair with the one dp2 record
      of that entity: the second record fetches its cache by entity, finds
      none (the first record's set was stored under index 0), and counts the
      same true match again. Two true matches against one shared entity give
      a pair completeness of 2. */
  lemma PcExceedsOne()
    ensures AssessSpec([("k", [0, 1])], map["k" := [0]], [[StrVal("a")], [StrVal("a")]], [[StrVal("a")]], 0)
            == Ok(Assessment(2, 2, 2, 1, 0.0, 2.0))
  {
    var dp1Data: seq<Row> := [[StrVal("a")], [StrVal("a")]];
    var dp2Data: seq<Row> := [[StrVal("a")]];
    var a := StrVal("a");
    var none: set<Value> := {};
    var justA: set<Value> := {a};
    assert EntityOf(dp1Data, 0, 0) == Ok(a) && EntityOf(dp1Data, 1, 0) == Ok(a);
    assert [0, 1][1..] == [1] && [1][1..] == [];
    // First record: a new set, one true match, stored under index 0.
    var fetched1 := Counters([none], map[], 0, 0);
    assert Start.store + [none] == [none];
    assert Fetch(Start, a) == (fetched1, 0);
    ExampleFirstRecord();
    var s2 := Counters([justA], map[IntVal(0) := 0], 1, 0);
    // Second record: its entity is still no key, so another new set.
    var fetched2 := Counters([justA, none], map[IntVal(0) := 0], 1, 0);
    assert s2.store + [none] == [justA, none];
    assert Fetch(s2, a) == (fetched2, 1);
    ExampleSecondRecord();
    var s4 := Counters([justA, justA], map[IntVal(0) := 0, IntVal(1) := 1], 2, 0);
    assert D1Loop(s2, dp1Data, dp2Data, [1], [0], 0) == Ok(s4);
    assert D1Loop(Start, dp1Data, dp2Data, [0, 1], [0], 0) == Ok(s4);
    assert KeyLoop(Start, [("k", [0, 1])], map["k" := [0]], dp1Data, dp2Data, 0) == Ok(s4);
    ExampleFinish();
  }

  /** The example's first dp1 record meets dp2's record with an empty set. */
  lemma ExampleFirstRecord()
    ensures D2Loop(Counters([{}], map[], 0, 0), 0, StrVal("a"), [[StrVal("a")]], [0], 0)
            == Ok(Counters([{StrVal("a")}], map[], 1, 0))
  {
    var a := StrVal("a");
    var dp2Data: seq<Row> := [[a]];
    var none: set<Value> := {};
    assert PyIndex(dp2Data, 0) == Ok([a]) && PyIndex([a], 0) == Ok(a);
    assert EntityOf(dp2Data, 0, 0) == Ok(a);
    assert [0][1..] == [];
    assert none + {a} == {a};
    assert [none][0 := none + {a}] == [{a}];
    assert SeeEntity(Counters([none], map[], 0, 0), 0, a, a) == Counters([{a}], map[], 1, 0);
  }

  /** The example's second dp1 record meets it with another empty set. */
  lemma ExampleSecondRecord()
    ensures D2Loop(Counters([{StrVal("a")}, {}], map[IntVal(0) := 0], 1, 0), 1, StrVal("a"), [[StrVal("a")]], [0], 0)
            == Ok(Counters([{StrVal("a")}, {StrVal("a")}], map[IntVal(0) := 0], 2, 0))
  {
    var a := StrVal("a");
    var dp2Data: seq<Row> := [[a]];
    var none: set<Value> := {};
    var justA: set<Value> := {a};
    assert PyIndex(dp2Data, 0) == Ok([a]) && PyIndex([a], 0) == Ok(a);
    assert EntityOf(dp2Data, 0, 0) == Ok(a);
    assert [0][1..] == [];
    assert none + {a} == justA;
    assert [justA, none][1 := none + {a}] == [justA, justA];
    assert SeeEntity(Counters([justA, none], map[IntVal(0) := 0], 1, 0), 1, a, a)
           == Counters([justA, justA], map[IntVal(0) := 0], 2, 0);
  }

  /** The example's ratios: two true matches against one shared entity. */
  lemma ExampleFinish()
    ensures Finish(2, 0, [[StrVal("a")], [StrVal("a")]], [[StrVal("a")]], 0) == Ok(Assessment(2, 2, 2, 1, 0.0, 2.0))
  {
    var a := StrVal("a");
    var dp1Data: seq<Row> := [[a], [a]];
    var dp2Data: seq<Row> := [[a]];
    ExampleEntities();
    ExampleRatios();
    assert |dp1Data| * |dp2Data| == 2;
    var r := Finish(2, 0, dp1Data, dp2Data, 0);
    assert r.Ok?;
    assert r.value.allTrueMatches == 1 && r.value.totalRec == 2;
  }

  lemma ExampleRatios()
    ensures 1.0 - Ratio(2, 2) == 0.0
    ensures Ratio(2, 1) == 2.0
  {
  }

  lemma ExampleEntities()
    ensures Entities([[StrVal("a")], [StrVal("a")]], 0) == Ok([StrVal("a"), StrVal("a")])
    ensures Entities([[StrVal("a")]], 0) == Ok([StrVal("a")])
    ensures |SetOf([StrVal("a"), StrVal("a")]) * SetOf([StrVal("a")])| == 1
  {
    var a := StrVal("a");
    var dp1Data: seq<Row> := [[a], [a]];
    var dp2Data: seq<Row> := [[a]];
    assert PyIndex(dp1Data[0], 0) == Ok(a) && PyIndex(dp1Data[1], 0) == Ok(a) && PyIndex(dp2Data[0], 0) == Ok(a);
    assert Entities(dp1Data, 0).value == [a, a];
    assert Entities(dp2Data, 0).value == [a];
    assert SetOf([a, a]) == {a} && SetOf([a]) == {a};
    assert {a} * {a} == {a};
  }

  // ---------------------------------------------------------------------------
  // The evidently intended version: caches stored under the entity

  /** The entities of the rows that have an entity column. */
  function EntitySet(data: seq<Row>, entCol: int): set<Value>
  {
    set d | 0 <= d < |data| && PyIndex(data[d], entCol).Ok? :: PyIndex(data[d], entCol).value
  }

  lemma EntityInEntitySet(data: seq<Row>, d: int, entCol: int)
    requires EntityOf(data, d, entCol).Ok?
    ensures EntityOf(data, d, entCol).value in EntitySet(data, entCol)
  {
    var k := NormalIndex(d, |data|).value;
    assert PyIndex(data[k], entCol) == Ok(EntityOf(data, d, entCol).value);
  }

  lemma EntitiesAreEntitySet(data: seq<Row>, entCol: int)
    requires Entities(data, entCol).Ok?
    ensures SetOf(Entities(data, entCol).value) == EntitySet(data, entCol)
  {
    var es := Entities(data, entCol).value;
    forall v | v in EntitySet(data, entCol) ensures v in SetOf(es) {
      var d :| 0 <= d < |data| && PyIndex(data[d], entCol).Ok? && PyIndex(data[d], entCol).value == v;
      assert es[d] == v;
    }
    forall v | v in SetOf(es) ensures v in EntitySet(data, entCol) {
      var d :| 0 <= d < |es| && es[d] == v;
      assert PyIndex(data[d], entCol) == Ok(v);
    }
  }

  /** The entities whose own cache holds them: the true matches counted so
      far when caches are stored under the entity. */
  ghost function Matched(candPairs: map<Value, set<Value>>): set<Value>
  {
    set e | e in candPairs && e in candPairs[e]
  }

  lemma MatchedAfterStore(candPairs: map<Value, set<Value>>, e1: Value, cache: set<Value>, matched: set<Value>)
    requires forall e :: e != e1 ==> (e in matched <==> e in candPairs && e in candPairs[e])
    requires e1 in matched <==> e1 in cache
    ensures Matched(candPairs[e1 := cache]) == matched
  {
  }

  /** One dp1 record of entity `d1Entity` against the dp2 records, with its
      cache fetched and stored back under `d1Entity`. */
  method VisitByEntity(candPairs: map<Value, set<Value>>, trueMatches: nat, falseMatches: nat, d1Entity: Value,
                       dp2Data: seq<Row>, dp2Recs: seq<int>, entCol: int, ghost E1: set<Value>)
    returns (r: Result<(map<Value, set<Value>>, nat, nat)>)
    requires d1Entity in E1
    requires Matched(candPairs) <= E1 * EntitySet(dp2Data, entCol) && trueMatches == |Matched(candPairs)|
    ensures r.Err? ==> r.error == IndexError
    ensures r.Ok? ==> Matched(r.value.0) <= E1 * EntitySet(dp2Data, entCol) && r.value.1 == |Matched(r.value.0)|
    ensures r.Ok? ==> r.value.1 + r.value.2 >= trueMatches + falseMatches
  {
    ghost var E2 := EntitySet(dp2Data, entCol);
    ghost var matched := Matched(candPairs);
    var tm: nat, fm: nat := trueMatches, falseMatches;
    var d1Cache := if d1Entity in candPairs then candPairs[d1Entity] else {};
    for m := 0 to |dp2Recs|
      invariant matched <= E1 * E2 && tm == |matched|
      invariant tm + fm >= trueMatches + falseMatches
      invariant forall e :: e != d1Entity ==> (e in matched <==> e in candPairs && e in candPairs[e])
      invariant d1Entity in matched <==> d1Entity in d1Cache
    {
      var e2 := EntityOf(dp2Data, dp2Recs[m], entCol);
      if e2.Err? {
        return Err(e2.error);
      }
      var d2Entity := e2.value;
      if d2Entity !in d1Cache {
        d1Cache := d1Cache + {d2Entity};
        if d2Entity == d1Entity {
          EntityInEntitySet(dp2Data, dp2Recs[m], entCol);
          matched := matched + {d1Entity};
          tm := tm + 1;
        } else {
          fm := fm + 1;
        }
      }
    }
    var stored := candPairs[d1Entity := d1Cache];
    MatchedAfterStore(candPairs, d1Entity, d1Cache, matched);
    r := Ok((stored, tm, fm));
  }

  /** `assess_blocks` with `cand_pairs[d1_entity] = d1_cache`: each entity's
      cache then collects every dp2 entity paired with it, a true match is an
      entity counted once, and pair completeness never exceeds 1. */
  method AssessBlocksByEntity(dp1Sig: Entries<string, int>, dp2Sig: map<string, seq<int>>,
                              dp1Data: seq<Row>, dp2Data: seq<Row>, entCol: int)
    returns (r: Result<Assessment>)
    ensures r.Err? ==> r.error in {KeyError, IndexError, ZeroDivisionError}
    ensures r.Ok? ==>
            r.value.candidatePairs >= r.value.trueMatches &&
            r.value.totalRec == |dp1Data| * |dp2Data| > 0 &&
            r.value.allTrueMatches == |EntitySet(dp1Data, entCol) * EntitySet(dp2Data, entCol)| > 0 &&
            r.value.trueMatches <= r.value.allTrueMatches &&
            r.value.rr == 1.0 - Ratio(r.value.candidatePairs, r.value.totalRec) &&
            r.value.pc == Ratio(r.value.trueMatches, r.value.allTrueMatches) &&
            0.0 <= r.value.pc <= 1.0
  {
    var candPairs: map<Value, set<Value>> := map[];
    var trueMatches, falseMatches := 0, 0;
    ghost var E1 := EntitySet(dp1Data, entCol);
    assert Matched(candPairs) == {};
    for k := 0 to |dp1Sig|
      invariant Matched(candPairs) <= E1 * EntitySet(dp2Data, entCol) && trueMatches == |Matched(candPairs)|
      invariant trueMatches <= trueMatches + falseMatches
    {
      var (key, dp1Recs) := dp1Sig[k];
      if key !in dp2Sig {
        return Err(KeyError);
      }
      var dp2Recs := dp2Sig[key];
      for j := 0 to |dp1Recs|
        invariant Matched(candPairs) <= E1 * EntitySet(dp2Data, entCol) && trueMatches == |Matched(candPairs)|
      {
        var e1 := EntityOf(dp1Data, dp1Recs[j], entCol);
        if e1.Err? {
          return Err(e1.error);
        }
        EntityInEntitySet(dp1Data, dp1Recs[j], entCol);
        var visited := VisitByEntity(candPairs, trueMatches, falseMatches, e1.value, dp2Data, dp2Recs, entCol, E1);
        if visited.Err? {
          return Err(visited.error);
        }
        candPairs, trueMatches, falseMatches := visited.value.0, visited.value.1, visited.value.2;
      }
    }
    r := Finish(trueMatches, falseMatches, dp1Data, dp2Data, entCol);
    if r.Ok? {
      EntitiesAreEntitySet(dp1Data, entCol);
      EntitiesAreEntitySet(dp2Data, entCol);
      SubsetCard(Matched(candPairs), E1 * EntitySet(dp2Data, entCol));
      RatioAtMostOne(trueMatches, r.value.allTrueMatches);
    }
  }

  lemma RatioAtMostOne(a: nat, b: nat)
    requires a <= b && b > 0
    ensures 0.0 <= Ratio(a, b) <= 1.0
  {
    var q := Ratio(a, b);
    assert q * (b as real) == a as real;
  }
}
