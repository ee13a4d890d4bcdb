# A verified model of the go_blockchain ledger

This project models a small append-only ledger written in Go (`blockchain.go`)
and proves properties of the model in Dafny. The ledger holds a pool of
pending transactions and a chain of committed blocks. The chain starts with a
genesis block. `CreateBlock` turns the pool into a new block and starts an
empty pool. Each block records the hash of its predecessor as the caller
supplies it. That hash is SHA-256 over the block's JSON serialization.

Files and modules:

- `values.dfy` (`GoValues`): the Go values the ledger stores. These are
  `int64`, `byte`, `[32]byte` digests, `float32` amounts kept as bit
  patterns, and slices that can be `nil`.
- `serialization.dfy` (`Serialization`): JSON documents as trees, and the
  marshalling error `json.Marshal` reports for NaN and infinite floats.
- `transactions.dfy` (`Transactions`): the `Transactions` record,
  `NewTransactions`, and `Transactions.MarshalJSON`.
- `blocks.dfy` (`Blocks`): the `Block` class, `NewBlock`, `Block.MarshalJSON`
  and `Block.Hash`.
- `ledger.dfy` (`Ledger`): the `Blockchain` class with `NewBlockchain`,
  `LastBlock`, `AddTransaction` and `CreateBlock`, plus the call sequence
  from `main`.

Modelling choices that follow the code:

- `Block` is a class whose fields are `const`. The Go code builds a `*Block`
  field by field and never changes it afterwards. `CreateBlock` returns the
  same object that `LastBlock` later returns.
- `Blockchain` is a class with two fields, `transactionPool` and `chain`.
  `AddTransaction` and `CreateBlock` reassign them. A ghost field,
  `submitted`, lists every transaction ever added. The invariant
  `Accounted()` says the blocks in chain order, followed by the pool, hold
  exactly `submitted`. So no transaction is lost or committed twice.
- `Transactions.MarshalJSON` writes the recipient's address into the sender
  slot (`blockchain.go:84`). The model does the same. So the sender never
  reaches the digest, and blocks that differ only in their senders hash
  alike.
- Go tells a `nil` slice apart from an empty one, and `json.Marshal` writes
  them as `null` and `[]`. A fresh `Blockchain` has a `nil` pool, so the
  genesis block's transactions are written as `null`. After every
  `CreateBlock` the pool is a fresh empty slice, so a later block with no
  transactions is written as `[]`.
- `json.Marshal` fails on a NaN or infinite `float32`. `Hash` ignores that
  error and hashes the resulting empty byte slice. The model keeps this:
  every block that cannot be marshalled gets the same hash,
  `Sha256(NoBytes)`.
- `Sha256` is a constant whose value is an arbitrary function. Nothing is
  assumed about it, not even that it is collision-free. So every "hashes
  alike" property is really a statement about the serialized form. Every
  "is serialized apart" property stops at the serialized form.
- The clock reading `time.Now().UnixNano()` is an input named `now`.

Three behaviours of the code are easy to miss, and the model keeps all
three:

- `Transactions.MarshalJSON` writes the recipient's address twice
  (blockchain.go:84).
- `json.Marshal` fails on a non-finite amount, and `Hash` then digests empty
  input (blockchain.go:37-39).
- A nil transaction slice is written `null`, and an empty one `[]`.

`LastBlock` requires `|chain| > 0`, the index check Go makes at run time.
The constructor and `CreateBlock` both establish that condition through
`Valid()`.

## Model

| member | source | states |
|---|---|---|
| `Transactions.NewTransactions` | blockchain.go:67-69 | The new transaction holds the sender, recipient and amount exactly as given. |
| `Serialization.ByteArrayInjective` | blockchain.go:46 | The `previous_hash` field is a `[32]byte` array, written as an array of numbers. Distinct digests are written as distinct arrays. |
| `Transactions.MarshalJSON` | blockchain.go:78-88 | Marshalling a transaction succeeds exactly when its amount is finite. Otherwise it fails with `UnsupportedValue` carrying that amount. |
| `Transactions.SenderSlotHoldsRecipient` | blockchain.go:79-87 | The object has the keys `sender_blockchain_address`, `recipient_blockchain_address` and `value`, in that order. Both address slots hold the recipient's address, and `value` holds the amount. |
| `Transactions.MarshalJSONEqualIff` | blockchain.go:78-88 | Two transactions with finite amounts serialize identically if and only if they have the same recipient and the same amount. Their senders play no part. |
| `Transactions.SenderNeverSerialized` | blockchain.go:84 | Replacing a transaction's sender with any other address leaves its serialization unchanged. |
| `Transactions.MarshalSlice` | blockchain.go:47-52 | Marshalling the transaction slice succeeds exactly when every amount is finite. On success the list has one element per transaction, in order. On failure the error names the first non-finite amount. |
| `Transactions.MarshalSliceEqualIff` | blockchain.go:47-52 | Two transaction lists that marshal serialize identically if and only if they have the same length and agree, position by position, on recipient and amount. |
| `Blocks.MarshalBlock` | blockchain.go:42-55 | Marshalling a block's fields succeeds exactly when every transaction amount is finite. A nil slice always succeeds. |
| `Blocks.Block.constructor` | blockchain.go:18-25 | `NewBlock` stores the clock reading, the nonce, the previous hash and the transaction slice exactly as given. |
| `Blocks.Block.MarshalJSON` | blockchain.go:42-55 | Marshalling a block succeeds exactly when every transaction amount is finite. On success the document is an object with the keys `timestamp`, `nonce`, `previous_hash` and `transactions`, in that order. |
| `Blocks.Block.Hash` | blockchain.go:36-40 | The hash is `Sha256` of the marshalled document when marshalling succeeds. Otherwise it is `Sha256(NoBytes)`, the digest of empty input. |
| `Blocks.Block.Zero` | blockchain.go:91 | The zero-valued `Block{}` has timestamp 0, nonce 0, an all-zero previous hash and a nil slice. Its hash is `Sha256` of the document with exactly those fields and `transactions: null`. |
| `Blocks.MarshalJSONLayout` | blockchain.go:42-55 | A block's document has the keys `timestamp`, `nonce`, `previous_hash` and `transactions`, in that order. Each key holds that block's field: `null` for a nil slice, otherwise the marshalled transactions. |
| `Blocks.MarshalJSONFailsIff` | blockchain.go:36-55 | Marshalling a block fails if and only if one of its transactions has a NaN or infinite amount. |
| `Blocks.BlockMarshalJSONEqualIff` | blockchain.go:42-55 | Two blocks that marshal serialize identically if and only if they agree on timestamp, nonce, previous hash and nil-ness of the slice, and on each transaction's recipient and amount, in order. |
| `Blocks.HashDependsOnlyOnSerializedFields` | blockchain.go:36-55 | Two blocks that agree on every serialized field have equal hashes. This holds for distinct objects, and whether or not they marshal. |
| `Blocks.UnmarshalableBlocksCollide` | blockchain.go:36-39 | `Hash` ignores the marshalling error. So every block that fails to marshal hashes to `Sha256(NoBytes)`, the digest of empty input. |
| `Blocks.NilAndEmptySerializeApart` | blockchain.go:113-116 | A block with a nil slice and one with an empty, non-nil slice serialize differently: `null` against `[]`. |
| `Blocks.ForgedSenderHashesAlike` | blockchain.go:78-88 | Two blocks with equal scalar fields, each holding one transfer that differs only in its sender, have equal hashes. |
| `Blocks.SingleTransferSerialization` | blockchain.go:84 | A block holding one transfer from any sender is serialized with the recipient in both address slots. So in the block made by `main`'s first `CreateBlock` call (`chain[1]`), "A" paying "B" is written as "B" paying "B". |
| `Ledger.CommittedAppend` | blockchain.go:115 | Appending a block to the chain appends that block's transactions after every transaction already committed. |
| `Ledger.LinkedAppend` | blockchain.go:133-134 | Suppose a chain is hash-linked: each block stores its predecessor's hash. If a new block stores the hash of the current last block, the longer chain is still hash-linked. Following this is left to the caller. |
| `Ledger.Blockchain.constructor` | blockchain.go:90-95 | `NewBlockchain` makes a chain of exactly one block. That block has nonce 0 and a nil slice, and its previous hash is the hash of `Block{}`. The pool is empty, nothing has been submitted, and the invariant holds. |
| `Ledger.Blockchain.LastBlock` | blockchain.go:104-106 | Under `|chain| > 0`, the result is `chain[|chain| - 1]`, the most recently appended block. |
| `Ledger.Blockchain.AddTransaction` | blockchain.go:108-111 | The pool gains exactly one element at its end: the new transaction, with sender, recipient and amount stored verbatim. Earlier entries keep their order. The chain is unchanged. The invariant holds. |
| `Ledger.Blockchain.CreateBlock` | blockchain.go:113-118 | The chain grows by exactly one fresh block. Blocks at lower indices are unchanged. The new block stores the nonce, previous hash and clock reading verbatim, and holds the pre-call pool in its order. The returned block is the new `LastBlock()`. The pool becomes an empty slice, everything submitted is now committed, and the invariant holds. |
| `Ledger.AddAllThenCreateBlock` | blockchain.go:108-117 | N `AddTransaction` calls followed by one `CreateBlock` give a new block. It holds the previously pending transactions, then the N new ones in insertion order. The chain grows by that one block, the pool ends empty and the invariant holds. |
| `Ledger.MainFirstRound` | blockchain.go:132-134 | After "A" pays "B" 1.0 and a block with nonce 5 is created from the last block's hash, the chain has grown by that block. The block holds the earlier pool followed by that transfer, and names the hash of the previous last block. The pool ends empty and the invariant holds. |
| `Ledger.MainSecondRound` | blockchain.go:136-140 | After "C" pays "D" 4.0, "X" pays "Y" 2.0 and a block with nonce 2 is created from the last block's hash, the chain has grown by that block. The block holds the two transfers in call order and names the hash of the previous last block. The pool ends empty and the invariant holds. |
| `Ledger.MainSequence` | blockchain.go:128-141 | `main`'s calls produce three blocks. Their nonces are 0, 5 and 2. Their transactions are nil, then ("A","B",1.0), then ("C","D",4.0) followed by ("X","Y",2.0). The chain is hash-linked and the pool ends empty. |

## Left out

- The `Print` methods of `Block`, `Transactions` and `Blockchain`, and the
  `fmt.Println` inside `Hash`: they only write to standard output.
- `init` and the printing in `main`. `MainSequence` replays the calls of
  `main` without printing.
- The bytes `json.Marshal` writes for a document, and SHA-256 itself. Both
  are library calls. A document is a tree whose keys and values fix its
  content. `Sha256` is an arbitrary function over a document, or over no
  bytes.
- `Transactions.MarshalJSON`: the amount is written as its `float32` bit
  pattern, not as Go's shortest decimal text. That text differs for
  distinct finite bit patterns, so equality of documents is unaffected.
- `float32` arithmetic: the ledger never computes with amounts. Only their
  finiteness matters, because of the marshalling error.
- The reading of the clock: it is the `now` parameter of the `Block` and
  `Blockchain` constructors and of `CreateBlock`.
- Addresses are Dafny strings, which are always valid Unicode. `json.Marshal`
  replaces invalid UTF-8 in Go strings, and that replacement is not
  modelled.
- `Transactions.MarshalSlice`: Go wraps a failing nested `MarshalJSON` in
  `json.MarshalerError`, once inside `Block.MarshalJSON` and again in
  `json.Marshal(b)`. That wrapper is not modelled. The model returns the bare
  `UnsupportedValue`, which Go reaches only through `Unwrap`. Nothing
  observes the difference, because `Hash` discards the error.
- Aliasing: `NewBlock` keeps the caller's pool slice. `CreateBlock` then
  replaces the pool with a fresh slice and never changes the old one, so no
  later operation can observe the sharing. The model stores the slice as a
  value.
- A chain-validation operation: no such operation exists in the code.
  `CreateBlock` stores any previous hash it is given, and the model does
  too. `HashLinked` and `LinkedAppend` describe the caller's side of the
  protocol.
- Concurrency: the code has no locking, and the model is sequential.
