/** `Block`: a batch of transactions with its link to the previous block,
    the JSON document it is hashed as, and the hash (blockchain.go:12-55). */
module Blocks {
  import opened GoValues
  import opened Serialization
  import opened Transactions

  /** The bytes `sha256.Sum256` reads in `Block.Hash`: what `json.Marshal`
      returned for a document, or no bytes at all when `json.Marshal`
      failed (`Hash` drops the error and hashes the nil slice). */
  datatype HashInput = Document(doc: Json) | NoBytes

  /** SHA-256 over those bytes. Nothing about it is assumed, not even that
      it is collision-free: it is an arbitrary function. */
  const Sha256: HashInput -> Digest

  const TimestampKey := "timestamp"
  const NonceKey := "nonce"
  const PreviousHashKey := "previous_hash"
  const TransactionsKey := "transactions"

  /** The object `Block.MarshalJSON` builds: the anonymous struct's four
      fields in declaration order under their tags, with the already
      encoded `transactions` field. */
  function BlockObject(timestamp: int64, nonce: int64, previousHash: Digest, transactions: Json): Json {
    JObject([(TimestampKey, JInt(timestamp as int)),
             (NonceKey, JInt(nonce as int)),
             (PreviousHashKey, ByteArray(previousHash)),
             (TransactionsKey, transactions)])
  }

  /** The document of the zero-valued `Block{}`: a nil transaction slice
      is written as `null`. */
  const ZeroBlockDocument: Json := BlockObject(0, 0, ZeroDigest, JNull)

  /** `json.Marshal` of `Block.MarshalJSON`'s struct, given the four field
      values: a nil slice becomes `null`, anything else an array. */
  function MarshalBlock(timestamp: int64, nonce: int64, previousHash: Digest,
                        transactions: Slice<Transaction>): (r: Result<Json>)
    ensures r.Ok? <==> forall i :: 0 <= i < |transactions.Elems()| ==> IsFinite(transactions.Elems()[i].value)
  {
    match transactions
    case Nil => Ok(BlockObject(timestamp, nonce, previousHash, JNull))
    case NonNil(ts) =>
      assert transactions.Elems() == ts;
      match MarshalSlice(ts)
      case Err(e) => Err(e)
      case Ok(js) => Ok(BlockObject(timestamp, nonce, previousHash, JArray(js)))
  }

  /** What the digest is computed over, given the marshalling result. */
  function HashInputOf(r: Result<Json>): HashInput {
    match r
    case Ok(doc) => Document(doc)
    case Err(_) => NoBytes
  }

  /** A block. Its fields are set once, when it is built, and never again. */
  class Block {
    const nonce: int64
    const previousHash: Digest
    const timestamp: int64
    const transactions: Slice<Transaction>

    /** `NewBlock`; `now` stands for the clock reading `time.Now().UnixNano()`.
        The transaction slice is stored as given. */
    constructor (nonce: int64, previousHash: Digest, transactions: Slice<Transaction>, now: int64)
      ensures this.timestamp == now
      ensures this.nonce == nonce
      ensures this.previousHash == previousHash
      ensures this.transactions == transactions
    {
      this.timestamp := now;
      this.nonce := nonce;
      this.previousHash := previousHash;
      this.transactions := transactions;
    }

    /** The zero-valued `Block{}`, and what it hashes to. */
    constructor Zero()
      ensures timestamp == 0 && nonce == 0 && previousHash == ZeroDigest && transactions == Nil
      ensures Hash() == Sha256(Document(ZeroBlockDocument))
    {
      timestamp, nonce, previousHash, transactions := 0, 0, ZeroDigest, Nil;
    }

    /** `Block.MarshalJSON`: it fails exactly when some amount is a NaN or
        an infinity, and otherwise writes the four keys in struct order. */
    function MarshalJSON(): (r: Result<Json>)
      ensures r.Ok? <==> forall i :: 0 <= i < |transactions.Elems()| ==> IsFinite(transactions.Elems()[i].value)
      ensures r.Ok? ==> r.value.JObject? &&
                        Keys(r.value.members) == [TimestampKey, NonceKey, PreviousHashKey, TransactionsKey]
    {
      MarshalBlock(timestamp, nonce, previousHash, transactions)
    }

    /** `Block.Hash`: SHA-256 of `json.Marshal(b)`, or of no bytes when
        marshalling fails. */
    function Hash(): (h: Digest)
      ensures MarshalJSON().Ok? ==> h == Sha256(Document(MarshalJSON().value))
      ensures MarshalJSON().Err? ==> h == Sha256(NoBytes)
    {
      Sha256(HashInputOf(MarshalJSON()))
    }
  }

  /** Everything of a block that reaches its serialized form: the three
      scalar fields, whether the transaction slice is nil, and each
      transaction's recipient and amount, in order. */
  predicate SameSerializedBlockFields(b1: Block, b2: Block) {
    && b1.timestamp == b2.timestamp
    && b1.nonce == b2.nonce
    && b1.previousHash == b2.previousHash
    && b1.transactions.Nil? == b2.transactions.Nil?
    && SameSerializedSlices(b1.transactions.Elems(), b2.transactions.Elems())
  }

  /** The layout `Hash` digests: four keys in a fixed order, each holding
      the block's own field. */
  lemma MarshalJSONLayout(b: Block)
    requires b.MarshalJSON().Ok?
    ensures b.MarshalJSON().value.JObject?
    ensures Keys(b.MarshalJSON().value.members) == [TimestampKey, NonceKey, PreviousHashKey, TransactionsKey]
    ensures b.MarshalJSON().value.members[0].1 == JInt(b.timestamp as int)
    ensures b.MarshalJSON().value.members[1].1 == JInt(b.nonce as int)
    ensures b.MarshalJSON().value.members[2].1 == ByteArray(b.previousHash)
    ensures b.transactions.Nil? ==> b.MarshalJSON().value.members[3].1 == JNull
    ensures b.transactions.NonNil? ==>
              b.MarshalJSON().value.members[3].1 == JArray(MarshalSlice(b.transactions.items).value)
  {
  }

  /** Marshalling fails exactly when some transaction's amount is a NaN or
      an infinity. */
  lemma MarshalJSONFailsIff(b: Block)
    ensures b.MarshalJSON().Err? <==>
            exists i :: 0 <= i < |b.transactions.Elems()| && !IsFinite(b.transactions.Elems()[i].value)
  {
  }

  /** Two blocks that marshal are written alike if and only if they agree
      on every serialized field. */
  lemma BlockMarshalJSONEqualIff(b1: Block, b2: Block)
    requires b1.MarshalJSON().Ok? && b2.MarshalJSON().Ok?
    ensures b1.MarshalJSON() == b2.MarshalJSON() <==> SameSerializedBlockFields(b1, b2)
  {
    var t1, t2 := b1.transactions, b2.transactions;
    if b1.MarshalJSON() == b2.MarshalJSON() {
      var m1, m2 := b1.MarshalJSON().value.members, b2.MarshalJSON().value.members;
      assert m1[0] == m2[0] && m1[1] == m2[1] && m1[2] == m2[2] && m1[3] == m2[3];
      ByteArrayInjective(b1.previousHash, b2.previousHash);
      if t1.NonNil? && t2.NonNil? {
        MarshalSliceEqualIff(t1.items, t2.items);
      }
    }
    if SameSerializedBlockFields(b1, b2) && t1.NonNil? {
      MarshalSliceEqualIff(t1.items, t2.items);
    }
  }

  /** `Hash` depends on nothing but the serialized fields: blocks that
      agree on them hash alike, whether or not they marshal, and even when
      they are distinct objects. */
  lemma HashDependsOnlyOnSerializedFields(b1: Block, b2: Block)
    requires SameSerializedBlockFields(b1, b2)
    ensures b1.Hash() == b2.Hash()
  {
    var s1, s2 := b1.transactions.Elems(), b2.transactions.Elems();
    assert forall i :: 0 <= i < |s1| ==> s1[i].value == s2[i].value;
    if b1.MarshalJSON().Ok? {
      BlockMarshalJSONEqualIff(b1, b2);
    }
  }

  /** A block that cannot be marshalled hashes as the empty input, so all
      such blocks share one hash, whatever their other fields. */
  lemma UnmarshalableBlocksCollide(b1: Block, b2: Block)
    requires b1.MarshalJSON().Err? && b2.MarshalJSON().Err?
    ensures b1.Hash() == b2.Hash() == Sha256(NoBytes)
  {
  }

  /** A nil transaction slice and an empty one are written differently
      (`null` against `[]`), so the genesis block is serialized unlike a
      later block with no transactions. */
  lemma NilAndEmptySerializeApart(b1: Block, b2: Block)
    requires b1.transactions == Nil && b2.transactions == NonNil([])
    ensures b1.MarshalJSON() != b2.MarshalJSON()
  {
  }

  /** Blocks that differ only in who sent their transactions hash alike:
      a block crediting `recipient` can be passed off as sent by anyone. */
  lemma ForgedSenderHashesAlike(b1: Block, b2: Block, sender1: string, sender2: string,
                                recipient: string, value: Float32)
    requires b1.timestamp == b2.timestamp && b1.nonce == b2.nonce && b1.previousHash == b2.previousHash
    requires b1.transactions == NonNil([NewTransactions(sender1, recipient, value)])
    requires b2.transactions == NonNil([NewTransactions(sender2, recipient, value)])
    ensures b1.Hash() == b2.Hash()
  {
    HashDependsOnlyOnSerializedFields(b1, b2);
  }

  /** A block holding one transfer from `sender` to `recipient` is written
      with the recipient in both address slots. */
  lemma SingleTransferSerialization(b: Block, sender: string, recipient: string, value: Float32)
    requires IsFinite(value)
    requires b.transactions == NonNil([NewTransactions(sender, recipient, value)])
    ensures b.MarshalJSON() ==
            Ok(BlockObject(b.timestamp, b.nonce, b.previousHash,
                           JArray([TransactionObject(recipient, recipient, value)])))
  {
    assert MarshalSlice([NewTransactions(sender, recipient, value)]).value ==
           [TransactionObject(recipient, recipient, value)];
  }
}
