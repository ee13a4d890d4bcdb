/** `Blockchain`: the pool of pending transactions and the chain of
    committed blocks (blockchain.go:56-59, 90-118). */
module Ledger {
  import opened GoValues
  import opened Serialization
  import opened Transactions
  import opened Blocks

  /** The transactions of a run of blocks, block after block. */
  function Committed(blocks: seq<Block>): seq<Transaction> {
    if blocks == [] then [] else blocks[0].transactions.Elems() + Committed(blocks[1..])
  }

  /** Committing a block adds its transactions after all earlier ones. */
  lemma {:induction false} CommittedAppend(blocks: seq<Block>, b: Block)
    ensures Committed(blocks + [b]) == Committed(blocks) + b.transactions.Elems()
  {
    if blocks == [] {
      assert [b][1..] == [];
    } else {
      assert (blocks + [b])[1..] == blocks[1..] + [b];
      CommittedAppend(blocks[1..], b);
    }
  }

  /** Every block after the first names the hash of the block before it. */
  ghost predicate HashLinked(blocks: seq<Block>) {
    forall i :: 1 <= i < |blocks| ==> blocks[i].previousHash == blocks[i - 1].Hash()
  }

  /** Three blocks, each after the first naming the hash of its
      predecessor, form a hash-linked chain. */
  lemma ThreeLinked(b0: Block, b1: Block, b2: Block)
    requires b1.previousHash == b0.Hash() && b2.previousHash == b1.Hash()
    ensures HashLinked([b0, b1, b2])
  {
  }

  /** Appending a block that names the hash of the last one keeps a chain
      hash-linked; the ledger leaves this to its caller. */
  lemma LinkedAppend(blocks: seq<Block>, b: Block)
    requires HashLinked(blocks) && |blocks| > 0
    requires b.previousHash == blocks[|blocks| - 1].Hash()
    ensures HashLinked(blocks + [b])
  {
  }

  class Blockchain {
    var transactionPool: Slice<Transaction>
    var chain: seq<Block>
    /** Every transaction `AddTransaction` has accepted, in call order. */
    ghost var submitted: seq<Transaction>

    /** No transaction is lost or taken twice: the committed blocks in chain
        order, then the pool, hold exactly what was submitted. */
    ghost predicate Accounted()
      reads this
    {
      submitted == Committed(chain) + transactionPool.Elems()
    }

    ghost predicate Valid()
      reads this
    {
      |chain| > 0 && Accounted()
    }

    /** `NewBlockchain`: the chain holds the genesis block, built from the
        nil pool of a fresh ledger with nonce 0 and the hash of `Block{}`;
        `now` is the clock reading taken when it is built. */
    constructor (now: int64)
      ensures Valid()
      ensures |chain| == 1
      ensures chain[0].nonce == 0 && chain[0].timestamp == now
      ensures chain[0].transactions == Nil
      ensures chain[0].previousHash == Sha256(Document(ZeroBlockDocument))
      ensures transactionPool == NonNil([])
      ensures submitted == []
    {
      transactionPool := Nil;
      chain := [];
      submitted := [];
      new;
      var zero := new Block.Zero();
      var h := zero.Hash();
      var _ := CreateBlock(0, h, now);
    }

    /** `LastBlock`: the tail of the chain. */
    function LastBlock(): (b: Block)
      reads this
      requires |chain| > 0
      ensures b == chain[|chain| - 1]
      ensures b in chain
    {
      chain[|chain| - 1]
    }

    /** `AddTransaction`: the new transaction goes to the end of the pool;
        the chain is untouched. */
    method AddTransaction(sender: string, recipient: string, value: Float32)
      requires Accounted()
      modifies this
      ensures Accounted()
      ensures transactionPool == NonNil(old(transactionPool.Elems()) + [NewTransactions(sender, recipient, value)])
      ensures chain == old(chain)
      ensures submitted == old(submitted) + [NewTransactions(sender, recipient, value)]
    {
      var t := NewTransactions(sender, recipient, value);
      transactionPool := transactionPool.Append(t);
      submitted := submitted + [t];
    }

    /** `CreateBlock`: the pool, as it stands, becomes a new block at the end
        of the chain and a fresh empty pool takes its place. `previousHash`
        is stored without being checked against the last block. */
    method CreateBlock(nonce: int64, previousHash: Digest, now: int64) returns (b: Block)
      requires Accounted()
      modifies this
      ensures Valid()
      ensures fresh(b)
      ensures b.nonce == nonce && b.previousHash == previousHash && b.timestamp == now
      ensures b.transactions == old(transactionPool)
      ensures chain == old(chain) + [b]
      ensures LastBlock() == b
      ensures transactionPool == NonNil([])
      ensures submitted == old(submitted)
      ensures Committed(chain) == submitted
    {
      b := new Block(nonce, previousHash, transactionPool, now);
      CommittedAppend(chain, b);
      chain := chain + [b];
      transactionPool := NonNil([]);
    }
  }

  /** A caller that adds `ts` one by one and then creates a block: the
      block holds whatever was pending, then `ts`, in insertion order. */
  method AddAllThenCreateBlock(bc: Blockchain, ts: seq<Transaction>,
                               nonce: int64, previousHash: Digest, now: int64) returns (b: Block)
    requires bc.Valid()
    modifies bc
    ensures bc.Valid()
    ensures fresh(b)
    ensures b.transactions.Elems() == old(bc.transactionPool.Elems()) + ts
    ensures bc.chain == old(bc.chain) + [b]
    ensures bc.transactionPool == NonNil([])
    ensures bc.submitted == old(bc.submitted) + ts
  {
    ghost var pending, accepted := bc.transactionPool.Elems(), bc.submitted;
    var i := 0;
    while i < |ts|
      invariant 0 <= i <= |ts|
      invariant bc.Accounted() && bc.chain == old(bc.chain)
      invariant bc.transactionPool.Elems() == pending + ts[..i]
      invariant bc.submitted == accepted + ts[..i]
    {
      var t := ts[i];
      bc.AddTransaction(t.senderBlockchainAddress, t.recipientBlockchainAddress, t.value);
      assert NewTransactions(t.senderBlockchainAddress, t.recipientBlockchainAddress, t.value) == t;
      assert ts[..i + 1] == ts[..i] + [t];
      i := i + 1;
    }
    assert ts[..i] == ts;
    b := bc.CreateBlock(nonce, previousHash, now);
  }

  const One: Float32 := 0x3F80_0000
  const Two: Float32 := 0x4000_0000
  const Four: Float32 := 0x4080_0000

  /** `main`'s first round (blockchain.go:132-134): "A" pays "B" 1.0, and
      a block with nonce 5 names the hash of the current last block. */
  method MainFirstRound(bc: Blockchain, now: int64) returns (b: Block)
    requires bc.Valid()
    modifies bc
    ensures bc.Valid() && bc.transactionPool == NonNil([])
    ensures bc.chain == old(bc.chain) + [b]
    ensures b.nonce == 5 && b.timestamp == now
    ensures b.previousHash == old(bc.chain[|bc.chain| - 1]).Hash()
    ensures b.transactions == NonNil(old(bc.transactionPool.Elems()) + [NewTransactions("A", "B", One)])
    ensures bc.submitted == old(bc.submitted) + [NewTransactions("A", "B", One)]
  {
    bc.AddTransaction("A", "B", One);
    var previousHash := bc.LastBlock().Hash();
    b := bc.CreateBlock(5, previousHash, now);
  }

  /** `main`'s second round (blockchain.go:136-140): "C" pays "D" 4.0, "X"
      pays "Y" 2.0, and a block with nonce 2 names the hash of the current
      last block. */
  method MainSecondRound(bc: Blockchain, now: int64) returns (b: Block)
    requires bc.Valid()
    modifies bc
    ensures bc.Valid() && bc.transactionPool == NonNil([])
    ensures bc.chain == old(bc.chain) + [b]
    ensures b.nonce == 2 && b.timestamp == now
    ensures b.previousHash == old(bc.chain[|bc.chain| - 1]).Hash()
    ensures b.transactions ==
            NonNil(old(bc.transactionPool.Elems()) + [NewTransactions("C", "D", Four), NewTransactions("X", "Y", Two)])
    ensures bc.submitted == old(bc.submitted) + [NewTransactions("C", "D", Four), NewTransactions("X", "Y", Two)]
  {
    bc.AddTransaction("C", "D", Four);
    bc.AddTransaction("X", "Y", Two);
    var previousHash := bc.LastBlock().Hash();
    b := bc.CreateBlock(2, previousHash, now);
  }

  /** The calls `main` makes (blockchain.go:128-141), with the three clock
      readings as inputs and the hash always taken from `LastBlock`. */
  method MainSequence(t0: int64, t1: int64, t2: int64) returns (blocks: seq<Block>, pool: seq<Transaction>)
    ensures |blocks| == 3 && pool == []
    ensures blocks[0].timestamp == t0 && blocks[1].timestamp == t1 && blocks[2].timestamp == t2
    ensures blocks[0].nonce == 0 && blocks[1].nonce == 5 && blocks[2].nonce == 2
    ensures blocks[0].transactions == Nil
    ensures blocks[0].previousHash == Sha256(Document(ZeroBlockDocument))
    ensures blocks[1].transactions == NonNil([NewTransactions("A", "B", One)])
    ensures blocks[2].transactions == NonNil([NewTransactions("C", "D", Four), NewTransactions("X", "Y", Two)])
    ensures HashLinked(blocks)
  {
    var bc := new Blockchain(t0);
    var genesis := bc.LastBlock();
    var first := MainFirstRound(bc, t1);
    var second := MainSecondRound(bc, t2);
    assert bc.chain == [genesis, first, second];
    ThreeLinked(genesis, first, second);
    blocks, pool := bc.chain, bc.transactionPool.Elems();
  }
}
