/** Counting distinct blocks (`_count_blocks` in `anonlinkclient/main_novt.py`):
    a record → block ids dictionary is walked record by record, every block
    id goes into one set, and the size of that set is the number of blocks. */
module BlockCounting {
  import opened Common
  import opened Inversion

  /** How many (record, block id) entries the dictionary holds, repeats
      included. */
  function EntryCount<R, B>(dp1Blocks: Entries<R, B>): nat
  {
    if dp1Blocks == [] then 0 else EntryCount(dp1Blocks[..|dp1Blocks| - 1]) + |dp1Blocks[|dp1Blocks| - 1].1|
  }

  lemma {:induction false} ElementsOfPrefix<T>(xs: seq<T>, j: nat)
    requires j < |xs|
    ensures var longer, shorter := xs[..j + 1], xs[..j];
            (set x | x in longer) == (set x | x in shorter) + {xs[j]}
  {
    assert xs[..j + 1] == xs[..j] + [xs[j]];
  }

  /** `_count_blocks`: the number of distinct block ids in all the records'
      lists, which is never more than the number of entries. */
  method CountBlocks<R, B(==)>(dp1Blocks: Entries<R, B>) returns (numBlocks: nat)
    ensures numBlocks == |Mentioned(dp1Blocks)|
    ensures numBlocks <= EntryCount(dp1Blocks)
  {
    var blockIds: set<B> := {};
    for a := 0 to |dp1Blocks|
      invariant blockIds == Mentioned(dp1Blocks[..a])
      invariant |blockIds| <= EntryCount(dp1Blocks[..a])
    {
      var blocks := dp1Blocks[a].1;
      for j := 0 to |blocks|
        invariant blockIds == Mentioned(dp1Blocks[..a]) + set x | x in blocks[..j]
        invariant |blockIds| <= EntryCount(dp1Blocks[..a]) + j
      {
        ElementsOfPrefix(blocks, j);
        blockIds := blockIds + {blocks[j]};
      }
      assert blocks[..|blocks|] == blocks;
      assert dp1Blocks[..a + 1][..a] == dp1Blocks[..a];
      MentionedStep(dp1Blocks[..a + 1]);
    }
    assert dp1Blocks[..|dp1Blocks|] == dp1Blocks;
    numBlocks := |blockIds|;
  }

  /** The distinct blocks are exactly the keys of the block → records
      dictionary obtained by inverting the records' lists. */
  lemma BlocksAreInvertedKeys<R, B>(dp1Blocks: Entries<R, B>)
    ensures Mentioned(dp1Blocks) == Invert(dp1Blocks).Keys
  {
    if Mentioned(dp1Blocks) != {} {
      var v :| v in Mentioned(dp1Blocks);
      InvertIsOccurrences(dp1Blocks, v);
    } else if Invert(dp1Blocks).Keys != {} {
      var v :| v in Invert(dp1Blocks).Keys;
      InvertIsOccurrences(dp1Blocks, v);
    }
  }

  /** Visiting the records in another order finds the same blocks. */
  lemma OrderIndependent<R, B>(dp1Blocks: Entries<R, B>, reordered: Entries<R, B>)
    requires multiset(dp1Blocks) == multiset(reordered)
    ensures Mentioned(dp1Blocks) == Mentioned(reordered)
  {
    forall v | v in Mentioned(dp1Blocks)
      ensures v in Mentioned(reordered)
    {
      var a :| 0 <= a < |dp1Blocks| && v in dp1Blocks[a].1;
      assert dp1Blocks[a] in multiset(reordered);
      var b :| 0 <= b < |reordered| && reordered[b] == dp1Blocks[a];
    }
    forall v | v in Mentioned(reordered)
      ensures v in Mentioned(dp1Blocks)
    {
      var b :| 0 <= b < |reordered| && v in reordered[b].1;
      assert reordered[b] in multiset(dp1Blocks);
      var a :| 0 <= a < |dp1Blocks| && dp1Blocks[a] == reordered[b];
    }
  }

  /** A record whose block ids have all been seen before, within its own
      list or in earlier records, adds nothing to the count; a record with
      one new block id, however often it lists it, adds exactly one. */
  lemma RepeatsCountedOnce<R, B>(dp1Blocks: Entries<R, B>, record: R, blocks: seq<B>, newBlock: B)
    requires forall j :: 0 <= j < |blocks| ==> blocks[j] in Mentioned(dp1Blocks) || blocks[j] == newBlock
    ensures newBlock !in blocks ==> |Mentioned(dp1Blocks + [(record, blocks)])| == |Mentioned(dp1Blocks)|
    ensures newBlock in blocks && newBlock !in Mentioned(dp1Blocks) ==>
            |Mentioned(dp1Blocks + [(record, blocks)])| == |Mentioned(dp1Blocks)| + 1
  {
    var e := dp1Blocks + [(record, blocks)];
    MentionedStep(e);
    assert e[..|e| - 1] == dp1Blocks;
    if newBlock !in blocks {
      assert Mentioned(e) == Mentioned(dp1Blocks);
    } else if newBlock !in Mentioned(dp1Blocks) {
      assert Mentioned(e) == Mentioned(dp1Blocks) + {newBlock};
    }
  }

  /** The count is 0 exactly when every record's list is empty, in
      particular for an empty dictionary. */
  lemma NoBlocksIffAllListsEmpty<R, B>(dp1Blocks: Entries<R, B>)
    ensures |Mentioned(dp1Blocks)| == 0 <==> forall a :: 0 <= a < |dp1Blocks| ==> dp1Blocks[a].1 == []
  {
    if a :| 0 <= a < |dp1Blocks| && dp1Blocks[a].1 != [] {
      var v := dp1Blocks[a].1[0];
      assert v in dp1Blocks[a].1;
      assert v in Mentioned(dp1Blocks);
    }
  }
}
