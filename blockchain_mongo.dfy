/**
 * The document-store (Mongo) block repository: a collection of block
 * documents in natural order, queried on `blockHeader.blockNumber`.
 */
module BlockchainMongo {
  import opened Basics
  import opened Ledger

  function NumberOf(b: Block): int
  {
    b.blockHeader.blockNumber
  }

  /** Where `findOne({ 'blockHeader.blockNumber': n })` stops: the first block with that number. */
  function BlockIndex(docs: seq<Block>, n: int): (r: Option<nat>)
    ensures r.Some? ==> r.value < |docs| && NumberOf(docs[r.value]) == n
    ensures r.Some? ==> forall j :: 0 <= j < r.value ==> NumberOf(docs[j]) != n
    ensures r.None? <==> forall j :: 0 <= j < |docs| ==> NumberOf(docs[j]) != n
  {
    if docs == [] then None
    else if NumberOf(docs[0]) == n then Some(0)
    else match BlockIndex(docs[1..], n)
      case Some(i) => Some(i + 1)
      case None => None
  }

  /** What `deleteMany({ 'blockHeader.blockNumber': { $in: numbers } })` leaves: the other blocks, in their order. */
  function WithoutNumbers(docs: seq<Block>, numbers: seq<int>): (r: seq<Block>)
    ensures forall b :: b in r <==> b in docs && NumberOf(b) !in numbers
    ensures |r| <= |docs|
    ensures (forall b :: b in docs ==> NumberOf(b) !in numbers) ==> r == docs
  {
    if docs == [] then []
    else
      var rest := WithoutNumbers(docs[1..], numbers);
      assert forall b :: b in docs <==> b == docs[0] || b in docs[1..];
      if NumberOf(docs[0]) in numbers then rest else [docs[0]] + rest
  }

  class BlockchainMongoRepository {
    /** The collection's documents in natural order (internal fields projected away). */
    var docs: seq<Block>

    constructor (initial: seq<Block>)
      ensures docs == initial
    {
      docs := initial;
    }

    /** `getBlockchainAsync`: every stored block. */
    method GetBlockchain() returns (blocks: seq<Block>)
      ensures blocks == docs
    {
      blocks := docs;
    }

    /** `getBlockAsync`: the first block with the number, or none; an absent number is not an error. */
    method GetBlock(blockNumber: int) returns (r: Option<Block>)
      ensures r.None? <==> forall b :: b in docs ==> NumberOf(b) != blockNumber
      ensures r.Some? ==> r.value in docs && NumberOf(r.value) == blockNumber
      ensures r.Some? ==> r.value == docs[BlockIndex(docs, blockNumber).value]
    {
      match BlockIndex(docs, blockNumber)
      case Some(i) =>
        r := Some(docs[i]);
      case None =>
        r := None;
    }

    /** `putBlocksAsync`: `insertMany` appends the blocks; the argument-less `findOneAndUpdate()` before it changes nothing. */
    method PutBlocks(blocks: seq<Block>)
      modifies this
      ensures docs == old(docs) + blocks
    {
      docs := docs + blocks;
    }

    /** `deleteBlocksAsync`: every block whose number is listed goes, every other block stays. */
    method DeleteBlocks(blockNumbers: seq<int>)
      modifies this
      ensures docs == WithoutNumbers(old(docs), blockNumbers)
    {
      docs := WithoutNumbers(docs, blockNumbers);
    }
  }
}
