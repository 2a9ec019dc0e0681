/** Python semantics shared by the whole blocking core: the exceptions it raises,
    list indexing, `int()` on configuration values and JSON keys, configuration
    dictionaries read with `dict.get(key, default)`, and sums over sets whose
    iteration order Python leaves unspecified. */
module Common {

  /** The exception classes the core raises (the message is kept where the
      source builds one from constants). */
  datatype Error =
    | ValueError(msg: string)
    | KeyError
    | IndexError
    | TypeError(msg: string)
    | ZeroDivisionError
    | NotImplementedError(msg: string)

  datatype Result<+T> = Ok(value: T) | Err(error: Error)

  datatype Option<+T> = None | Some(value: T)

  // ---------------------------------------------------------------------------
  // List indexing

  /** The position Python's `xs[i]` reads in a list of length `n`: negative
      indices count from the end; anything else out of range is an IndexError. */
  function NormalIndex(i: int, n: nat): (r: Option<nat>)
    ensures r.Some? <==> -(n as int) <= i < n
    ensures r.Some? ==> r.value < n && (r.value == i || r.value == n + i)
  {
    if 0 <= i < n then Some(i)
    else if -(n as int) <= i < 0 then Some(n + i)
    else None
  }

  /** Python's `xs[i]`. */
  function PyIndex<T>(xs: seq<T>, i: int): (r: Result<T>)
    ensures r.Ok? <==> -|xs| <= i < |xs|
    ensures r.Err? ==> r.error == IndexError
  {
    match NormalIndex(i, |xs|)
    case Some(k) => Ok(xs[k])
    case None => Err(IndexError)
  }

  // ---------------------------------------------------------------------------
  // int()

  predicate IsDigit(c: char) { '0' <= c <= '9' }

  predicate AllDigits(s: string) { forall k :: 0 <= k < |s| ==> IsDigit(s[k]) }

  /** The value of a string of decimal digits, most significant first. */
  function DigitsValue(s: string): nat
    requires AllDigits(s)
  {
    if s == [] then 0
    else DigitsValue(s[..|s| - 1]) * 10 + (s[|s| - 1] as int - '0' as int)
  }

  /** Python's `int(s)` on a string: an optional sign followed by at least one
      decimal digit; anything else raises ValueError. */
  function PyInt(s: string): (r: Result<int>)
    ensures r.Ok? <==> (|s| > 0 && AllDigits(s)) ||
                       (|s| > 1 && (s[0] == '-' || s[0] == '+') && AllDigits(s[1..]))
    ensures r.Ok? && AllDigits(s) ==> r.value >= 0
  {
    if |s| > 0 && AllDigits(s) then Ok(DigitsValue(s))
    else if |s| > 1 && s[0] == '-' && AllDigits(s[1..]) then Ok(-(DigitsValue(s[1..]) as int))
    else if |s| > 1 && s[0] == '+' && AllDigits(s[1..]) then Ok(DigitsValue(s[1..]))
    else Err(ValueError("invalid literal for int()"))
  }

  /** Python's `str(n)` for a natural number. */
  function NatToString(n: nat): (s: string)
    ensures |s| > 0 && AllDigits(s)
    decreases n
  {
    var last := ['0' + (n % 10) as char];
    if n < 10 then last else NatToString(n / 10) + last
  }

  /** Python's `str(i)` for any integer. */
  function IntToString(i: int): (s: string)
  {
    if i < 0 then "-" + NatToString(-i) else NatToString(i)
  }

  lemma {:induction false} DigitsOfNat(n: nat)
    ensures DigitsValue(NatToString(n)) == n
    decreases n
  {
    var s := NatToString(n);
    if n >= 10 {
      DigitsOfNat(n / 10);
      assert s[..|s| - 1] == NatToString(n / 10);
    }
  }

  /** `int(str(i)) == i`: a record index written out as a JSON key and read
      back with `int()` is the same index. */
  lemma IntOfStringRoundTrip(i: int)
    ensures PyInt(IntToString(i)) == Ok(i)
  {
    if i < 0 {
      var s := IntToString(i);
      DigitsOfNat(-i);
      assert s[1..] == NatToString(-i);
      assert !AllDigits(s) by { assert !IsDigit(s[0]); }
    } else {
      DigitsOfNat(i);
    }
  }

  // ---------------------------------------------------------------------------
  // Configuration dictionaries

  /** A value in a JSON-like configuration dictionary. */
  datatype Setting =
    | Text(text: string)
    | Number(n: int)
    | Flag(b: bool)
    | Texts(items: seq<string>)
    | Section(fields: map<string, Setting>)

  /** `config.get(key, default)`. */
  function Get(config: map<string, Setting>, key: string, default: Setting): (r: Setting)
    ensures key in config ==> r == config[key]
    ensures key !in config ==> r == default
  {
    if key in config then config[key] else default
  }

  /** Python's `int(v)` on a configuration value. */
  function SettingToInt(v: Setting): (r: Result<int>)
    ensures v.Number? ==> r == Ok(v.n)
    ensures v.Text? ==> r == PyInt(v.text)
    ensures (v.Texts? || v.Section?) ==> r.Err?
  {
    match v
    case Number(n) => Ok(n)
    case Text(s) => PyInt(s)
    case Flag(b) => Ok(if b then 1 else 0)
    case Texts(_) => Err(TypeError("int() argument must be a string or a number"))
    case Section(_) => Err(TypeError("int() argument must be a string or a number"))
  }

  // ---------------------------------------------------------------------------
  // Counting and sums

  /** Number of occurrences of `x` in `xs`. */
  function Count<T(==)>(xs: seq<T>, x: T): (n: nat)
    ensures n <= |xs|
    ensures n == 0 <==> x !in xs
  {
    if xs == [] then 0
    else Count(xs[..|xs| - 1], x) + (if xs[|xs| - 1] == x then 1 else 0)
  }

  lemma {:induction false} CountConcat<T>(a: seq<T>, b: seq<T>, x: T)
    ensures Count(a + b, x) == Count(a, x) + Count(b, x)
    decreases |b|
  {
    if b != [] {
      assert (a + b)[..|a + b| - 1] == a + b[..|b| - 1];
      CountConcat(a, b[..|b| - 1], x);
    } else {
      assert a + b == a;
    }
  }

  function Sum(xs: seq<int>): int
  {
    if xs == [] then 0 else Sum(xs[..|xs| - 1]) + xs[|xs| - 1]
  }

  function Product(xs: seq<int>): int
  {
    if xs == [] then 1 else Product(xs[..|xs| - 1]) * xs[|xs| - 1]
  }

  /** A subset has no more elements than its superset. */
  lemma SubsetCard<T>(a: set<T>, b: set<T>)
    requires a <= b
    ensures |a| <= |b|
  {
    assert b == a + (b - a);
  }

  /** A product of two counts, kept behind a call so that proofs about it
      see one non-linear term. */
  function MulNat(a: nat, b: nat): (r: nat)
    ensures r == a * b
  {
    a * b
  }

  /** The sum of `f` over a finite set, in no particular order. */
  ghost function SumOver<X>(s: set<X>, f: X -> int): int
    decreases s
  {
    if s == {} then 0 else var x :| x in s; f(x) + SumOver(s - {x}, f)
  }

  /** Any element may be taken out first: the order Python iterates a set in
      does not change the sum. */
  lemma SumOverRemove<X>(s: set<X>, f: X -> int, x: X)
    requires x in s
    ensures SumOver(s, f) == f(x) + SumOver(s - {x}, f)
    decreases |s|
  {
    var y :| y in s && SumOver(s, f) == f(y) + SumOver(s - {y}, f);
    if y != x {
      SumOverRemove(s - {y}, f, x);
      SumOverRemove(s - {x}, f, y);
      assert s - {y} - {x} == s - {x} - {y};
    }
  }

  /** The multiset of the values of `f` over a finite set. */
  ghost function ImageOver<X, Y>(s: set<X>, f: X -> Y): multiset<Y>
    decreases s
  {
    if s == {} then multiset{} else var x :| x in s; multiset{f(x)} + ImageOver(s - {x}, f)
  }

  lemma ImageOverRemove<X, Y>(s: set<X>, f: X -> Y, x: X)
    requires x in s
    ensures ImageOver(s, f) == multiset{f(x)} + ImageOver(s - {x}, f)
    decreases |s|
  {
    var y :| y in s && ImageOver(s, f) == multiset{f(y)} + ImageOver(s - {y}, f);
    if y != x {
      ImageOverRemove(s - {y}, f, x);
      ImageOverRemove(s - {x}, f, y);
      assert s - {y} - {x} == s - {x} - {y};
    }
  }

  lemma {:induction false} ImageOverSize<X, Y>(s: set<X>, f: X -> Y)
    ensures |ImageOver(s, f)| == |s|
    decreases |s|
  {
    if s != {} {
      var x :| x in s;
      ImageOverRemove(s, f, x);
      ImageOverSize(s - {x}, f);
    }
  }
}
