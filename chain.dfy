/**
 Blocks and the chain of sealed blocks. The link to the previous block is
 the previous block's index, not a digest of its contents.
 */
module Chain {
  import opened Transfers

  /** The creation instant of a block, taken as an uninterpreted value. */
  type Timestamp = string

  /** Coins credited to the miner of each block. */
  const MiningReward: int := 10

  /**
   A sealed block. `previousHash` is the placeholder link: the genesis block
   carries 0 and every later block the index of the block before it.
   */
  datatype Block = Block(index: int, timestamp: Timestamp, transactions: seq<Transfer>, previousHash: int)

  /** The first block of every ledger. */
  function GenesisBlock(timestamp: Timestamp): (b: Block)
    ensures b.index == 0 && b.timestamp == timestamp
    ensures b.transactions == [] && b.previousHash == 0
  {
    Block(0, timestamp, [], 0)
  }

  /** The block that mining seals on top of `chain` from the pending pool. */
  function NextBlock(chain: seq<Block>, pending: seq<Transfer>, timestamp: Timestamp): (b: Block)
    ensures b.index == |chain| && b.timestamp == timestamp && b.transactions == pending
    ensures Linked(chain) ==> b.previousHash == chain[|chain| - 1].index
  {
    Block(|chain|, timestamp, pending, |chain| - 1)
  }

  /**
   A well-formed chain: it starts with a genesis block (index 0, no
   transactions, link 0), indices run 0, 1, 2, ... and each later block links
   to the index of the block before it.
   */
  ghost predicate Linked(chain: seq<Block>)
  {
    && |chain| > 0
    && chain[0].transactions == []
    && chain[0].previousHash == 0
    && (forall i :: 0 <= i < |chain| ==> chain[i].index == i)
    && (forall i :: 0 < i < |chain| ==> chain[i].previousHash == chain[i - 1].index)
  }

  /** A chain holding only a genesis block is well formed. */
  lemma GenesisLinked(timestamp: Timestamp)
    ensures Linked([GenesisBlock(timestamp)])
  {
  }

  /**
   Sealing the next block keeps a chain well formed, whatever the pending
   pool holds; the new block is the last one, indexed by the old length.
   */
  lemma NextBlockLinked(chain: seq<Block>, pending: seq<Transfer>, timestamp: Timestamp)
    requires Linked(chain)
    ensures var grown := chain + [NextBlock(chain, pending, timestamp)];
      && Linked(grown)
      && grown[|chain|].index == |chain|
      && grown[|chain|].previousHash == chain[|chain| - 1].index
      && grown[|chain|].transactions == pending
  {
  }

  /** Every transfer sealed in `chain`, block by block, in order. */
  function Sealed(chain: seq<Block>): (s: seq<Transfer>)
  {
    if chain == [] then []
    else Sealed(chain[..|chain| - 1]) + chain[|chain| - 1].transactions
  }

  /** Appending a block appends exactly its transactions to the sealed history. */
  lemma {:induction false} SealedAppend(chain: seq<Block>, block: Block)
    ensures Sealed(chain + [block]) == Sealed(chain) + block.transactions
  {
    assert (chain + [block])[..|chain|] == chain;
  }
}
