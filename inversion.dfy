/** Inverting a dictionary of lists, `for k, vs in d.items(): for v in vs:
    out[v].append(k)` into a `defaultdict(list)`. The client turns a
    block → records dictionary into records → blocks this way, and the
    tutorial's evaluation helpers turn records → blocks back into
    block → records. */
module Inversion {
  import opened Common

  /** An ordered dictionary of lists: its entries in iteration order. */
  type Entries<K, V> = seq<(K, seq<V>)>

  /** `d.get(k, [])`. */
  function Lookup<K, V>(m: map<K, seq<V>>, k: K): seq<V>
  {
    if k in m then m[k] else []
  }

  /** `d[k].append(v)` on a `defaultdict(list)`. */
  function Append<K, V>(m: map<K, seq<V>>, k: K, v: V): map<K, seq<V>>
  {
    m[k := Lookup(m, k) + [v]]
  }

  /** The inner loop for one entry: `for v in vs: out[v].append(k)`. */
  function AddEntry<K, V>(m: map<V, seq<K>>, k: K, vs: seq<V>): map<V, seq<K>>
  {
    if vs == [] then m else Append(AddEntry(m, k, vs[..|vs| - 1]), vs[|vs| - 1], k)
  }

  /** Both loops, starting from an empty `defaultdict(list)`. */
  function Invert<K, V>(entries: Entries<K, V>): map<V, seq<K>>
  {
    if entries == [] then map[]
    else
      var n := |entries| - 1;
      AddEntry(Invert(entries[..n]), entries[n].0, entries[n].1)
  }

  // ---------------------------------------------------------------------------
  // A reference definition, one value at a time

  function Repeat<T>(x: T, n: nat): (r: seq<T>)
    ensures |r| == n && forall i :: 0 <= i < n ==> r[i] == x
  {
    if n == 0 then [] else Repeat(x, n - 1) + [x]
  }

  /** What `v` should be mapped to: every key whose list holds `v`, in entry
      order, once per occurrence of `v` in that list. */
  ghost function Occurrences<K, V>(entries: Entries<K, V>, v: V): seq<K>
  {
    if entries == [] then []
    else
      var n := |entries| - 1;
      Occurrences(entries[..n], v) + Repeat(entries[n].0, Count(entries[n].1, v))
  }

  /** The values mentioned anywhere in the entries. */
  function Mentioned<K, V>(entries: Entries<K, V>): set<V>
  {
    set a, v | 0 <= a < |entries| && v in entries[a].1 :: v
  }

  lemma {:induction false} AddEntryLookup<K, V>(m: map<V, seq<K>>, k: K, vs: seq<V>, v: V)
    ensures Lookup(AddEntry(m, k, vs), v) == Lookup(m, v) + Repeat(k, Count(vs, v))
    decreases |vs|
  {
    if vs != [] {
      var n := |vs| - 1;
      AddEntryLookup(m, k, vs[..n], v);
      var c := Count(vs[..n], v);
      if vs[n] == v {
        assert Count(vs, v) == c + 1;
        assert Repeat(k, c + 1) == Repeat(k, c) + [k];
      } else {
        assert Count(vs, v) == c;
      }
    }
  }

  lemma {:induction false} AddEntryKeys<K, V>(m: map<V, seq<K>>, k: K, vs: seq<V>)
    ensures AddEntry(m, k, vs).Keys == m.Keys + set x | x in vs
    decreases |vs|
  {
    if vs != [] {
      var n := |vs| - 1;
      AddEntryKeys(m, k, vs[..n]);
      assert vs == vs[..n] + [vs[n]];
      assert (set x | x in vs) == (set x | x in vs[..n]) + {vs[n]};
    }
  }

  /** The inversion loop computes the reference definition, and the values it
      has keys for are exactly the values mentioned (a value in no list is
      absent rather than mapped to an empty list). */
  lemma {:induction false} InvertIsOccurrences<K, V>(entries: Entries<K, V>, v: V)
    ensures Lookup(Invert(entries), v) == Occurrences(entries, v)
    ensures Invert(entries).Keys == Mentioned(entries)
    decreases |entries|
  {
    if entries != [] {
      var n := |entries| - 1;
      var front := entries[..n];
      InvertIsOccurrences(front, v);
      AddEntryLookup(Invert(front), entries[n].0, entries[n].1, v);
      AddEntryKeys(Invert(front), entries[n].0, entries[n].1);
      MentionedStep(entries);
    }
  }

  /** The values mentioned by one more entry. */
  lemma MentionedStep<K, V>(entries: Entries<K, V>)
    requires entries != []
    ensures var last := entries[|entries| - 1].1;
            Mentioned(entries) == Mentioned(entries[..|entries| - 1]) + set x | x in last
  {
    var n := |entries| - 1;
    var front := entries[..n];
    forall x | x in Mentioned(entries)
      ensures x in Mentioned(front) + set y | y in entries[n].1
    {
      var a :| 0 <= a < |entries| && x in entries[a].1;
      if a < n { assert front[a] == entries[a]; }
    }
    forall x | x in Mentioned(front)
      ensures x in Mentioned(entries)
    {
      var a :| 0 <= a < |front| && x in front[a].1;
      assert entries[a] == front[a];
    }
  }

  // ---------------------------------------------------------------------------
  // The (key, value) pairs are preserved

  /** How often the pair (k, v) occurs in the entries. */
  ghost function PairCount<K, V>(entries: Entries<K, V>, k: K, v: V): nat
  {
    if entries == [] then 0
    else
      var n := |entries| - 1;
      PairCount(entries[..n], k, v) + (if entries[n].0 == k then Count(entries[n].1, v) else 0)
  }

  lemma {:induction false} CountRepeat<T>(x: T, n: nat, y: T)
    ensures Count(Repeat(x, n), y) == if x == y then n else 0
  {
    if n > 0 {
      CountRepeat(x, n - 1, y);
      var r := Repeat(x, n);
      assert r == Repeat(x, n - 1) + [x];
      assert r[..n - 1] == Repeat(x, n - 1);
      assert Count(r, y) == Count(r[..n - 1], y) + (if r[n - 1] == y then 1 else 0);
    }
  }

  lemma {:induction false} CountOccurrences<K, V>(entries: Entries<K, V>, k: K, v: V)
    ensures Count(Occurrences(entries, v), k) == PairCount(entries, k, v)
    decreases |entries|
  {
    if entries != [] {
      var n := |entries| - 1;
      CountOccurrences(entries[..n], k, v);
      CountConcat(Occurrences(entries[..n], v), Repeat(entries[n].0, Count(entries[n].1, v)), k);
      CountRepeat(entries[n].0, Count(entries[n].1, v), k);
    }
  }

  /** Inverting keeps every (key, value) pair exactly as often as it occurs:
      `v` lists `k` once for every time `k`'s list holds `v`. */
  lemma InvertPreservesPairs<K, V>(entries: Entries<K, V>, k: K, v: V)
    ensures Count(Lookup(Invert(entries), v), k) == PairCount(entries, k, v)
  {
    InvertIsOccurrences(entries, v);
    CountOccurrences(entries, k, v);
  }

  // ---------------------------------------------------------------------------
  // Round trip

  ghost predicate DistinctKeys<K, V>(entries: Entries<K, V>)
  {
    forall a, b :: 0 <= a < b < |entries| ==> entries[a].0 != entries[b].0
  }

  /** `entries` lists the items of `m` in some order, each key once. */
  ghost predicate Enumerates<K, V>(entries: Entries<K, V>, m: map<K, seq<V>>)
  {
    && DistinctKeys(entries)
    && (forall a :: 0 <= a < |entries| ==> entries[a].0 in m && entries[a].1 == m[entries[a].0])
    && (forall k :: k in m ==> exists a :: 0 <= a < |entries| && entries[a].0 == k)
  }

  lemma {:induction false} PairCountOfDistinct<K, V>(entries: Entries<K, V>, m: map<K, seq<V>>, k: K, v: V)
    requires DistinctKeys(entries)
    requires forall a :: 0 <= a < |entries| ==> entries[a].0 in m && entries[a].1 == m[entries[a].0]
    ensures PairCount(entries, k, v) ==
            if exists a :: 0 <= a < |entries| && entries[a].0 == k then Count(m[k], v) else 0
    decreases |entries|
  {
    if entries != [] {
      var n := |entries| - 1;
      var front := entries[..n];
      PairCountOfDistinct(front, m, k, v);
      if exists a :: 0 <= a < |front| && front[a].0 == k {
        var a :| 0 <= a < |front| && front[a].0 == k;
        assert entries[a].0 == k;
      }
      if exists a :: 0 <= a < |entries| && entries[a].0 == k {
        var a :| 0 <= a < |entries| && entries[a].0 == k;
        if a < n { assert front[a].0 == k; }
      }
    }
  }

  /** Reading an enumeration of a dictionary counts each pair of the
      dictionary once. */
  lemma PairCountOfEnumeration<K, V>(entries: Entries<K, V>, m: map<K, seq<V>>, k: K, v: V)
    requires Enumerates(entries, m)
    ensures PairCount(entries, k, v) == Count(Lookup(m, k), v)
  {
    PairCountOfDistinct(entries, m, k, v);
  }

  lemma {:induction false} MultisetCount<T>(s: seq<T>, x: T)
    ensures multiset(s)[x] == Count(s, x)
    decreases |s|
  {
    if s != [] {
      var n := |s| - 1;
      MultisetCount(s[..n], x);
      assert s == s[..n] + [s[n]];
    }
  }

  lemma {:induction false} PairCountOfOwnEntry<K, V>(entries: Entries<K, V>, a: nat, v: V)
    requires DistinctKeys(entries) && a < |entries|
    ensures PairCount(entries, entries[a].0, v) == Count(entries[a].1, v)
    decreases |entries|
  {
    var n := |entries| - 1;
    var front := entries[..n];
    if a < n {
      PairCountOfOwnEntry(front, a, v);
    } else {
      PairCountOfMissing(front, entries[a].0, v);
    }
  }

  lemma {:induction false} PairCountOfMissing<K, V>(entries: Entries<K, V>, k: K, v: V)
    requires forall b :: 0 <= b < |entries| ==> entries[b].0 != k
    ensures PairCount(entries, k, v) == 0
    decreases |entries|
  {
    if entries != [] {
      PairCountOfMissing(entries[..|entries| - 1], k, v);
    }
  }

  lemma RoundTripCount<K, V>(entries: Entries<K, V>, back: Entries<V, K>, a: nat, v: V)
    requires DistinctKeys(entries) && a < |entries|
    requires Enumerates(back, Invert(entries))
    ensures Count(Lookup(Invert(back), entries[a].0), v) == Count(entries[a].1, v)
  {
    var k := entries[a].0;
    InvertPreservesPairs(back, v, k);
    PairCountOfEnumeration(back, Invert(entries), v, k);
    InvertPreservesPairs(entries, k, v);
    PairCountOfOwnEntry(entries, a, v);
  }

  /** Round trip: invert a dictionary with distinct keys, list the result in
      any order and invert again. Every key gets back its own list up to the
      order of its elements, i.e. the multiset of (key, value) pairs is the
      same. */
  lemma InvertRoundTrip<K, V>(entries: Entries<K, V>, back: Entries<V, K>, a: nat)
    requires DistinctKeys(entries) && a < |entries|
    requires Enumerates(back, Invert(entries))
    ensures multiset(Lookup(Invert(back), entries[a].0)) == multiset(entries[a].1)
  {
    var k := entries[a].0;
    forall v
      ensures multiset(Lookup(Invert(back), k))[v] == multiset(entries[a].1)[v]
    {
      MultisetCount(Lookup(Invert(back), k), v);
      MultisetCount(entries[a].1, v);
      RoundTripCount(entries, back, a, v);
    }
    assert multiset(Lookup(Invert(back), k)) == multiset(entries[a].1);
  }

  /** Some entry of `e` has key `x` and lists `v`. */
  ghost predicate HasEntry<K, V>(e: Entries<K, V>, x: K, v: V)
  {
    exists c :: 0 <= c < |e| && e[c].0 == x && v in e[c].1
  }

  lemma HasEntryStep<K, V>(e: Entries<K, V>, x: K, v: V)
    requires e != []
    ensures HasEntry(e, x, v) <==> HasEntry(e[..|e| - 1], x, v) || (e[|e| - 1].0 == x && v in e[|e| - 1].1)
  {
    var n := |e| - 1;
    if HasEntry(e[..n], x, v) {
      var c :| 0 <= c < n && e[..n][c].0 == x && v in e[..n][c].1;
      assert e[c] == e[..n][c];
    }
    if HasEntry(e, x, v) {
      var c :| 0 <= c < |e| && e[c].0 == x && v in e[c].1;
      if c < n { assert e[..n][c] == e[c]; }
    }
  }

  /** `x in Occurrences(e, v)` exactly when some entry of `e` has key `x`
      and lists `v`. */
  lemma {:induction false} OccurrencesMembers<K, V>(e: Entries<K, V>, v: V, x: K)
    ensures x in Occurrences(e, v) <==> HasEntry(e, x, v)
  {
    if e != [] {
      var n := |e| - 1;
      OccurrencesMembers(e[..n], v, x);
      HasEntryStep(e, x, v);
      var rep := Repeat(e[n].0, Count(e[n].1, v));
      assert Occurrences(e, v) == Occurrences(e[..n], v) + rep;
      assert x in rep <==> Count(e[n].1, v) > 0 && x == e[n].0 by {
        if x in rep { var j :| 0 <= j < |rep| && rep[j] == x; }
        if Count(e[n].1, v) > 0 && x == e[n].0 { assert rep[0] == x; }
      }
    }
  }
}
