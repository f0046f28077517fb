/**
 * The embedded (Level) block repository: blocks stored under their
 * `blockHeader.blockNumber`, written by batches of puts or deletes and
 * read back by key or by a full value scan.
 */
module BlockchainLevel {
  import opened Basics
  import opened Ledger
  import opened Storage

  type Chain = map<int, Block>

  function NumberOf(b: Block): int
  {
    b.blockHeader.blockNumber
  }

  /** The batch of `putBlocksAsync`: each block put under its own number. */
  function BlockPutOps(blocks: seq<Block>): (ops: seq<Op<int, Block>>)
    ensures |ops| == |blocks|
    ensures forall i :: 0 <= i < |blocks| ==> ops[i] == Put(NumberOf(blocks[i]), blocks[i])
  {
    seq(|blocks|, i requires 0 <= i < |blocks| => Put(NumberOf(blocks[i]), blocks[i]))
  }

  /** The batch of `deleteBlocksAsync`: one delete per listed number. */
  function BlockDelOps(numbers: seq<int>): (ops: seq<Op<int, Block>>)
    ensures |ops| == |numbers|
    ensures forall i :: 0 <= i < |numbers| ==> ops[i] == Del(numbers[i])
  {
    seq(|numbers|, i requires 0 <= i < |numbers| => Del(numbers[i]))
  }

  /** Every stored block sits under its own number. */
  predicate NumbersMatch(chain: Chain)
  {
    forall n :: n in chain ==> NumberOf(chain[n]) == n
  }

  /**
   * `putBlocksAsync`: a number no block of the batch carries keeps its
   * block; a block that no later block of the batch overrides is what
   * `getBlockAsync` of its number returns afterwards.
   */
  lemma PutBlocksEffect(chain: Chain, blocks: seq<Block>)
    ensures forall n :: (forall i :: 0 <= i < |blocks| ==> NumberOf(blocks[i]) != n) ==>
              Get(ApplyBatch(chain, BlockPutOps(blocks)), n) == Get(chain, n)
    ensures forall i :: 0 <= i < |blocks| && (forall j :: i < j < |blocks| ==> NumberOf(blocks[j]) != NumberOf(blocks[i])) ==>
              Get(ApplyBatch(chain, BlockPutOps(blocks)), NumberOf(blocks[i])) == Some(blocks[i])
  {
    var ops := BlockPutOps(blocks);
    forall n | forall i :: 0 <= i < |blocks| ==> NumberOf(blocks[i]) != n
      ensures Get(ApplyBatch(chain, ops), n) == Get(chain, n)
    {
      ApplyBatchUntouched(chain, ops, n);
    }
    forall i | 0 <= i < |blocks| && (forall j :: i < j < |blocks| ==> NumberOf(blocks[j]) != NumberOf(blocks[i]))
      ensures Get(ApplyBatch(chain, ops), NumberOf(blocks[i])) == Some(blocks[i])
    {
      ApplyBatchLastPut(chain, ops, i);
    }
  }

  /** Storing blocks under their own numbers keeps every block under its own number. */
  lemma {:induction false} PutBlocksKeepsNumbersMatch(chain: Chain, blocks: seq<Block>)
    requires NumbersMatch(chain)
    ensures NumbersMatch(ApplyBatch(chain, BlockPutOps(blocks)))
  {
    if blocks != [] {
      var n := |blocks| - 1;
      PutBlocksKeepsNumbersMatch(chain, blocks[..n]);
      assert BlockPutOps(blocks) == BlockPutOps(blocks[..n]) + [Put(NumberOf(blocks[n]), blocks[n])];
      ApplyBatchAppend(chain, BlockPutOps(blocks[..n]), Put(NumberOf(blocks[n]), blocks[n]));
    }
  }

  /** `deleteBlocksAsync` removes exactly the listed numbers. */
  lemma DeleteBlocksEffect(chain: Chain, numbers: seq<int>)
    ensures ApplyBatch(chain, BlockDelOps(numbers)) == chain - (set i | 0 <= i < |numbers| :: numbers[i])
  {
    var ops := BlockDelOps(numbers);
    ApplyBatchDeletes(chain, ops);
    assert (set i | 0 <= i < |ops| :: ops[i].key) == (set i | 0 <= i < |numbers| :: numbers[i]);
  }

  /** A repetition-free list covering exactly a set has the set's size. */
  lemma {:induction false} DistinctCoverCard(ns: seq<int>, s: set<int>)
    requires Distinct(ns)
    requires forall i :: 0 <= i < |ns| ==> ns[i] in s
    requires forall n :: n in s ==> n in ns
    ensures |ns| == |s|
  {
    if ns == [] {
      assert forall n :: n !in s;
      assert s == {};
    } else {
      var last := ns[|ns| - 1];
      var pre := ns[..|ns| - 1];
      assert last in s;
      assert forall i :: 0 <= i < |pre| ==> pre[i] != last && pre[i] == ns[i];
      forall n | n in s - {last} ensures n in pre {
        var i :| 0 <= i < |ns| && ns[i] == n;
        assert i < |ns| - 1;
        assert pre[i] == n;
      }
      DistinctCoverCard(pre, s - {last});
    }
  }

  class BlockchainLevelRepository {
    /** The embedded store's contents (JSON encoding taken as identity). */
    var chain: Chain

    constructor (initial: Chain)
      ensures chain == initial
    {
      chain := initial;
    }

    ghost predicate Valid()
      reads this
    {
      NumbersMatch(chain)
    }

    /** `getBlockchainAsync`: the value stream yields one block per stored number and nothing else. */
    method GetBlockchain() returns (blocks: seq<Block>, ghost numbers: seq<int>)
      ensures Distinct(numbers) && |blocks| == |numbers|
      ensures forall i :: 0 <= i < |numbers| ==> numbers[i] in chain && blocks[i] == chain[numbers[i]]
      ensures forall n :: n in chain ==> n in numbers
      ensures |blocks| == |chain|
      ensures forall n :: n in chain ==> chain[n] in blocks
      ensures forall b :: b in blocks ==> b in chain.Values
    {
      var r;
      r, numbers := Scan(chain, {});
      blocks := r.value;
      forall n | n in chain ensures chain[n] in blocks {
        var i :| 0 <= i < |numbers| && numbers[i] == n;
        assert blocks[i] == chain[n];
      }
      DistinctCoverCard(numbers, chain.Keys);
    }

    /** `getBlockAsync`: the stored block, or NotFound. */
    method GetBlock(blockNumber: int) returns (r: Result<Block>)
      ensures r.Ok? <==> blockNumber in chain
      ensures r.Ok? ==> r.value == chain[blockNumber]
      ensures r.Err? ==> r.error == NotFound
      ensures r.Ok? && Valid() ==> NumberOf(r.value) == blockNumber
    {
      if blockNumber in chain {
        r := Ok(chain[blockNumber]);
      } else {
        r := Err(NotFound);
      }
    }

    /** `putBlocksAsync`: one batch of puts keyed by block number. */
    method PutBlocks(blocks: seq<Block>)
      modifies this
      ensures old(Valid()) ==> Valid()
      ensures chain == ApplyBatch(old(chain), BlockPutOps(blocks))
    {
      if Valid() {
        PutBlocksKeepsNumbersMatch(chain, blocks);
      }
      chain := ApplyBatch(chain, BlockPutOps(blocks));
    }

    /** `deleteBlocksAsync`: one batch of deletes, one per listed number. */
    method DeleteBlocks(blockNumbers: seq<int>)
      modifies this
      ensures old(Valid()) ==> Valid()
      ensures chain == old(chain) - (set i | 0 <= i < |blockNumbers| :: blockNumbers[i])
    {
      DeleteBlocksEffect(chain, blockNumbers);
      chain := ApplyBatch(chain, BlockDelOps(blockNumbers));
    }
  }
}
