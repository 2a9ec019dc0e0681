/** The client's reshaping helpers (`anonlinkclient/utils.py`): the argument
    checks made before candidate blocks are generated from a file, the
    inversion of blocklib's block → records dictionary into records → blocks,
    and `combine_clks_blocks`, which appends each record's block ids to its
    CLK. */
module ClientUtils {
  import opened Common
  import opened Inversion

  // ---------------------------------------------------------------------------
  // Argument checks of generate_candidate_blocks_from_csv

  /** The `header` argument: a boolean, an integer or a string. Python's
      `header not in {False, True, 'ignore'}` compares by value, so the
      integers 0 and 1 are accepted as well. */
  datatype HeaderArg = HeaderFlag(b: bool) | HeaderNumber(n: int) | HeaderText(s: string)

  /** Where the input records are read from. */
  datatype InputSource = ClksJson | CsvRows

  /** `name.split('.')[-1]`: the text after the last dot, or the whole name
      when it has none. */
  function Suffix(name: string): (r: string)
    ensures '.' !in r
    ensures |r| <= |name| && r == name[|name| - |r|..]
    ensures r == name || name[|name| - |r| - 1] == '.'
  {
    if name == [] then []
    else if name[|name| - 1] == '.' then []
    else
      var n := |name| - 1;
      var front := Suffix(name[..n]);
      assert front == name[..n][n - |front|..] == name[n - |front|..n];
      assert front + [name[n]] == name[n - |front|..];
      assert front != name[..n] ==> name[..n][n - |front| - 1] == name[n - |front| - 1] == '.';
      front + [name[n]]
  }

  /** `s.upper()` restricted to ASCII: the letters a-z are upper-cased and
      every other character, non-ASCII letters included, is kept. */
  function Upper(s: string): (r: string)
    ensures |r| == |s|
    ensures forall i :: 0 <= i < |s| ==>
              r[i] == if 'a' <= s[i] <= 'z' then (s[i] as int - 32) as char else s[i]
  {
    if s == [] then []
    else [if 'a' <= s[0] <= 'z' then (s[0] as int - 32) as char else s[0]] + Upper(s[1..])
  }

  /** The header values `header not in {False, True, 'ignore'}` lets through. */
  predicate ValidHeader(header: HeaderArg)
  {
    match header
    case HeaderFlag(_) => true
    case HeaderNumber(n) => n == 0 || n == 1
    case HeaderText(s) => s == "ignore"
  }

  /** The checks `generate_candidate_blocks_from_csv` makes before blocking:
      the header tri-state first, then the input kind. `clks` is what
      `json.load(input_f)['clks']` gives when the CLK branch reads the input:
      a file that is not JSON, a document without `clks`, or the CLKs. */
  function ChooseInput<T>(header: HeaderArg, blockingMethod: string, inputClks: Option<bool>,
                          fileName: string, clks: JsonDoc<T>): (r: Result<InputSource>)
    ensures !ValidHeader(header) ==> r == Err(ValueError("header must be False, True or 'ignore'"))
    ensures ValidHeader(header) <==> header in {HeaderFlag(false), HeaderFlag(true), HeaderNumber(0),
                                                HeaderNumber(1), HeaderText("ignore")}
    ensures ValidHeader(header) && blockingMethod == "lambda-fold" && inputClks.None? ==> r == Err(KeyError)
    ensures ValidHeader(header) && blockingMethod == "lambda-fold" && inputClks == Some(true) ==>
              r == match clks
                   case Unparseable => Err(TypeError("Upload should be CLKs not " + Upper(Suffix(fileName)) + " file"))
                   case MissingMember => Err(KeyError)
                   case Doc(_) => Ok(ClksJson)
    ensures ValidHeader(header) && (blockingMethod != "lambda-fold" || inputClks == Some(false)) ==>
              r == if Suffix(fileName) == "json" then Err(TypeError("Upload should be CSVs not CLKs")) else Ok(CsvRows)
    ensures r == Ok(ClksJson) ==> blockingMethod == "lambda-fold" && inputClks == Some(true) && clks.Doc?
    ensures r == Ok(CsvRows) ==> Suffix(fileName) != "json"
  {
    if !ValidHeader(header) then Err(ValueError("header must be False, True or 'ignore'"))
    else if blockingMethod == "lambda-fold" && inputClks.None? then Err(KeyError)
    else if blockingMethod == "lambda-fold" && inputClks == Some(true) then
      match clks
      case Unparseable => Err(TypeError("Upload should be CLKs not " + Upper(Suffix(fileName)) + " file"))
      case MissingMember => Err(KeyError)
      case Doc(_) => Ok(ClksJson)
    else if Suffix(fileName) == "json" then Err(TypeError("Upload should be CSVs not CLKs"))
    else Ok(CsvRows)
  }

  /** The three ways the input is picked, in terms of the arguments alone:
      CLKs exactly when lambda-fold asks for them and the file holds them,
      CSV rows exactly when the CSV branch is taken on a file not named
      `.json`. */
  lemma ChooseInputCases<T>(header: HeaderArg, blockingMethod: string, inputClks: Option<bool>,
                            fileName: string, clks: JsonDoc<T>)
    ensures ChooseInput(header, blockingMethod, inputClks, fileName, clks) == Ok(ClksJson) <==>
            ValidHeader(header) && blockingMethod == "lambda-fold" && inputClks == Some(true) && clks.Doc?
    ensures ChooseInput(header, blockingMethod, inputClks, fileName, clks) == Ok(CsvRows) <==>
            ValidHeader(header) && (blockingMethod != "lambda-fold" || inputClks == Some(false))
            && Suffix(fileName) != "json"
  {
    if inputClks.Some? && inputClks.value {
      assert inputClks == Some(true);
    } else if inputClks.Some? {
      assert inputClks == Some(false);
    }
  }

  /** The header value 'Header' is refused with a ValueError. */
  lemma HeaderTextRefused()
    ensures ChooseInput<string>(HeaderText("Header"), "p-sig", None, "data.csv", Unparseable).Err?
    ensures ChooseInput<string>(HeaderText("Header"), "p-sig", None, "data.csv", Unparseable).error.ValueError?
  {
  }

  /** A CLK file given to a blocking method that reads CSV is refused with a
      TypeError once the header is accepted. */
  lemma JsonInputRefusedForCsvMethods(header: HeaderArg, blockingMethod: string, fileStem: string)
    requires header == HeaderFlag(false) || header == HeaderFlag(true) || header == HeaderNumber(0)
             || header == HeaderNumber(1) || header == HeaderText("ignore")
    requires blockingMethod != "lambda-fold"
    ensures ChooseInput<string>(header, blockingMethod, None, fileStem + ".json", Doc("[]")) ==
            Err(TypeError("Upload should be CSVs not CLKs"))
  {
    SuffixAfterDot(fileStem, "json");
    assert fileStem + ".json" == fileStem + "." + "json";
  }

  lemma {:induction false} SuffixAfterDot(stem: string, ext: string)
    requires '.' !in ext
    ensures Suffix(stem + "." + ext) == ext
    decreases |ext|
  {
    var name := stem + "." + ext;
    if ext != [] {
      var n := |ext| - 1;
      SuffixAfterDot(stem, ext[..n]);
      assert name[..|name| - 1] == stem + "." + ext[..n];
      assert ext == ext[..n] + [ext[n]];
    }
  }

  // ---------------------------------------------------------------------------
  // encoding_to_blocks_map

  /** The loop that turns blocklib's block → records dictionary into a
      records → blocks `defaultdict(list)`. */
  method EncodingToBlocksMap<B(==), R(==)>(blocks: Entries<B, R>) returns (m: map<R, seq<B>>)
    ensures m == Invert(blocks)
  {
    m := map[];
    for k := 0 to |blocks|
      invariant m == Invert(blocks[..k])
    {
      var (blockId, indices) := blocks[k];
      ghost var before := m;
      for j := 0 to |indices|
        invariant m == AddEntry(before, blockId, indices[..j])
      {
        var ind := indices[j];
        assert indices[..j + 1][..j] == indices[..j];
        m := m[ind := (if ind in m then m[ind] else []) + [blockId]];
      }
      assert indices[..|indices|] == indices;
      assert blocks[..k + 1][..k] == blocks[..k];
    }
    assert blocks[..|blocks|] == blocks;
  }

  // ---------------------------------------------------------------------------
  // combine_clks_blocks

  /** A JSON document read with `json.load(f)[member]`. */
  datatype JsonDoc<T> = Unparseable | MissingMember | Doc(value: T)

  /** The appending loop from the first remaining (record id, block ids)
      entry on: `int()` the id, then append each block id to that row. The
      row is only indexed when there is something to append. */
  function AttachFrom(rows: seq<seq<string>>, entries: Entries<string, string>): Result<seq<seq<string>>>
    decreases |entries|
  {
    if entries == [] then Ok(rows)
    else
      match PyInt(entries[0].0)
      case Err(e) => Err(e)
      case Ok(id) =>
        if entries[0].1 == [] then AttachFrom(rows, entries[1..])
        else
          match NormalIndex(id, |rows|)
          case None => Err(IndexError)
          case Some(k) => AttachFrom(rows[k := rows[k] + entries[0].1], entries[1..])
  }

  /** `combine_clks_blocks`, with the two JSON documents already read; the
      block document is read first. */
  function CombineClksBlocks(clkDoc: JsonDoc<seq<string>>, blockDoc: JsonDoc<Entries<string, string>>)
    : (r: Result<seq<seq<string>>>)
    ensures blockDoc.Unparseable? || (blockDoc.Doc? && clkDoc.Unparseable?) ==>
            r == Err(ValueError("Invalid CLKs or Blocks"))
    ensures r.Ok? ==> blockDoc.Doc? && clkDoc.Doc?
  {
    match blockDoc
    case Unparseable => Err(ValueError("Invalid CLKs or Blocks"))
    case MissingMember => Err(KeyError)
    case Doc(blocks) =>
      match clkDoc
      case Unparseable => Err(ValueError("Invalid CLKs or Blocks"))
      case MissingMember => Err(KeyError)
      case Doc(clks) => AttachFrom(seq(|clks|, k requires 0 <= k < |clks| => [clks[k]]), blocks)
  }

  /** The loops of `combine_clks_blocks`, appending to the rows in place. */
  method CombineRows(clks: seq<string>, blocks: Entries<string, string>) returns (r: Result<seq<seq<string>>>)
    ensures r == AttachFrom(seq(|clks|, k requires 0 <= k < |clks| => [clks[k]]), blocks)
  {
    var rows := seq(|clks|, k requires 0 <= k < |clks| => [clks[k]]);
    ghost var initial := rows;
    for e := 0 to |blocks|
      invariant |rows| == |clks|
      invariant AttachFrom(initial, blocks) == AttachFrom(rows, blocks[e..])
    {
      var (recId, blockIds) := blocks[e];
      var parsed := PyInt(recId);
      if parsed.Err? {
        return Err(parsed.error);
      }
      var id := parsed.value;
      assert blocks[e..][1..] == blocks[e + 1..];
      if blockIds != [] {
        // Every append indexes the same row, so the first one decides.
        var target := NormalIndex(id, |rows|);
        if target.None? {
          return Err(IndexError);
        }
        var k := target.value;
        ghost var start := rows;
        assert start[k] + blockIds[..0] == start[k];
        for j := 0 to |blockIds|
          invariant rows == start[k := start[k] + blockIds[..j]]
        {
          assert blockIds[..j + 1] == blockIds[..j] + [blockIds[j]];
          assert start[k] + blockIds[..j + 1] == (start[k] + blockIds[..j]) + [blockIds[j]];
          rows := rows[k := rows[k] + [blockIds[j]]];
        }
      }
      assert blockIds[..|blockIds|] == blockIds;
    }
    r := Ok(rows);
  }

  // ---------------------------------------------------------------------------
  // What combine_clks_blocks computes

  /** The block ids appended to row `k` of `n`: those of every entry whose
      id parses and designates row `k`, in entry order. */
  function AttachedTo(entries: Entries<string, string>, n: nat, k: nat): seq<string>
    decreases |entries|
  {
    if entries == [] then []
    else
      var here :=
        match PyInt(entries[0].0)
        case Ok(id) => if NormalIndex(id, n) == Some(k) then entries[0].1 else []
        case Err(_) => [];
      here + AttachedTo(entries[1..], n, k)
  }

  /** Every entry's id parses, and every entry with block ids designates an
      existing row. */
  predicate Attachable(entries: Entries<string, string>, n: nat)
  {
    forall e :: 0 <= e < |entries| ==>
      PyInt(entries[e].0).Ok? && (entries[e].1 != [] ==> NormalIndex(PyInt(entries[e].0).value, n).Some?)
  }

  /** The loop succeeds exactly when every id parses and every id that gets
      block ids designates an existing row; it then leaves the number of rows
      alone and extends row `k` by the block ids attached to it, in order. */
  lemma {:induction false} AttachFromMeaning(rows: seq<seq<string>>, entries: Entries<string, string>)
    ensures AttachFrom(rows, entries).Ok? <==> Attachable(entries, |rows|)
    ensures AttachFrom(rows, entries).Ok? ==>
            |AttachFrom(rows, entries).value| == |rows| &&
            forall k :: 0 <= k < |rows| ==>
              AttachFrom(rows, entries).value[k] == rows[k] + AttachedTo(entries, |rows|, k)
    decreases |entries|
  {
    if entries != [] {
      var rest := entries[1..];
      assert forall e :: 0 <= e < |rest| ==> rest[e] == entries[e + 1];
      assert Attachable(entries, |rows|) ==> Attachable(rest, |rows|);
      match PyInt(entries[0].0)
      case Err(_) =>
      case Ok(id) =>
        if entries[0].1 == [] {
          AttachFromMeaning(rows, rest);
          if Attachable(rest, |rows|) {
            forall e | 0 <= e < |entries|
              ensures PyInt(entries[e].0).Ok? &&
                      (entries[e].1 != [] ==> NormalIndex(PyInt(entries[e].0).value, |rows|).Some?)
            {
              if e > 0 { assert entries[e] == rest[e - 1]; }
            }
          }
        } else {
          match NormalIndex(id, |rows|)
          case None =>
          case Some(t) =>
            var next := rows[t := rows[t] + entries[0].1];
            AttachFromMeaning(next, rest);
            if Attachable(rest, |rows|) {
              forall e | 0 <= e < |entries|
                ensures PyInt(entries[e].0).Ok? &&
                        (entries[e].1 != [] ==> NormalIndex(PyInt(entries[e].0).value, |rows|).Some?)
              {
                if e > 0 { assert entries[e] == rest[e - 1]; }
              }
            }
        }
    }
  }

  /** `combine_clks_blocks` yields one row per CLK, that CLK first, followed
      by the block ids of the record; a record with no block ids keeps a
      one-element row. */
  lemma CombineRowsShape(clks: seq<string>, blocks: Entries<string, string>)
    ensures CombineClksBlocks(Doc(clks), Doc(blocks)).Ok? <==> Attachable(blocks, |clks|)
    ensures CombineClksBlocks(Doc(clks), Doc(blocks)).Ok? ==>
            var rows := CombineClksBlocks(Doc(clks), Doc(blocks)).value;
            |rows| == |clks| &&
            forall k :: 0 <= k < |clks| ==>
              rows[k] == [clks[k]] + AttachedTo(blocks, |clks|, k) && rows[k][0] == clks[k]
  {
    AttachFromMeaning(seq(|clks|, k requires 0 <= k < |clks| => [clks[k]]), blocks);
  }

  /** A record id naming a row past the last CLK is an IndexError once it
      has a block id to append (when the ids before it parse and fit). */
  lemma RecordIdOutOfRange(clks: seq<string>, blocks: Entries<string, string>, e: nat)
    requires e < |blocks| && blocks[e].1 != []
    requires PyInt(blocks[e].0).Ok? && PyInt(blocks[e].0).value >= |clks|
    ensures CombineClksBlocks(Doc(clks), Doc(blocks)).Err?
  {
    CombineRowsShape(clks, blocks);
  }
}
