/** `Transactions`: one value transfer, and the JSON object it is hashed as
    (blockchain.go:61-88). */
module Transactions {
  import opened GoValues
  import opened Serialization

  /** A transfer; never changed after it is built. */
  datatype Transaction = Transaction(
    senderBlockchainAddress: string,
    recipientBlockchainAddress: string,
    value: Float32)

  /** `NewTransactions`: the three arguments are stored as given. */
  function NewTransactions(sender: string, recipient: string, value: Float32): (t: Transaction)
    ensures t.senderBlockchainAddress == sender
    ensures t.recipientBlockchainAddress == recipient
    ensures t.value == value
  {
    Transaction(sender, recipient, value)
  }

  const SenderKey := "sender_blockchain_address"
  const RecipientKey := "recipient_blockchain_address"
  const ValueKey := "value"

  /** The object `Transactions.MarshalJSON` builds from what it puts in its
      three slots, in the struct's field order and under its tags. */
  function TransactionObject(senderSlot: string, recipientSlot: string, value: Float32): Json {
    JObject([(SenderKey, JString(senderSlot)),
             (RecipientKey, JString(recipientSlot)),
             (ValueKey, JFloat32(value))])
  }

  /** `Transactions.MarshalJSON`. Both address slots are filled from the
      recipient's address; the sender's address is never written. The
      call fails exactly when the amount is a NaN or an infinity. */
  function MarshalJSON(t: Transaction): (r: Result<Json>)
    ensures r.Ok? <==> IsFinite(t.value)
    ensures r.Err? ==> r.error == UnsupportedValue(t.value)
  {
    if IsFinite(t.value) then
      Ok(TransactionObject(t.recipientBlockchainAddress, t.recipientBlockchainAddress, t.value))
    else
      Err(UnsupportedValue(t.value))
  }

  /** What a transaction contributes to a digest: its recipient and its
      amount, and nothing of its sender. */
  predicate SameSerializedFields(t1: Transaction, t2: Transaction) {
    t1.recipientBlockchainAddress == t2.recipientBlockchainAddress && t1.value == t2.value
  }

  /** The sender slot and the recipient slot both hold the recipient. */
  lemma SenderSlotHoldsRecipient(t: Transaction)
    requires IsFinite(t.value)
    ensures MarshalJSON(t).Ok?
    ensures Keys(MarshalJSON(t).value.members) == [SenderKey, RecipientKey, ValueKey]
    ensures MarshalJSON(t).value.members[0].1 == JString(t.recipientBlockchainAddress)
    ensures MarshalJSON(t).value.members[1].1 == JString(t.recipientBlockchainAddress)
    ensures MarshalJSON(t).value.members[2].1 == JFloat32(t.value)
  {
  }

  /** Two transactions are written alike if and only if they agree on
      recipient and amount: whatever their senders are. */
  lemma MarshalJSONEqualIff(t1: Transaction, t2: Transaction)
    requires IsFinite(t1.value) && IsFinite(t2.value)
    ensures MarshalJSON(t1) == MarshalJSON(t2) <==> SameSerializedFields(t1, t2)
  {
  }

  /** Replacing the sender changes nothing that is written. */
  lemma SenderNeverSerialized(t: Transaction, forged: string)
    ensures MarshalJSON(t.(senderBlockchainAddress := forged)) == MarshalJSON(t)
  {
  }

  /** The `transactions` field of a block: `json.Marshal` of a non-nil
      `[]*Transactions`, each element through `MarshalJSON`, in order; the
      first element that fails makes the whole call fail. */
  function MarshalSlice(ts: seq<Transaction>): (r: Result<seq<Json>>)
    ensures r.Ok? <==> forall i :: 0 <= i < |ts| ==> IsFinite(ts[i].value)
    ensures r.Ok? ==> |r.value| == |ts| &&
                      forall i :: 0 <= i < |ts| ==> MarshalJSON(ts[i]) == Ok(r.value[i])
    ensures r.Err? ==> exists i :: 0 <= i < |ts| && r.error == UnsupportedValue(ts[i].value) &&
                                   !IsFinite(ts[i].value) &&
                                   forall j :: 0 <= j < i ==> IsFinite(ts[j].value)
  {
    if ts == [] then Ok([])
    else
      match MarshalJSON(ts[0])
      case Err(e) => Err(e)
      case Ok(head) =>
        match MarshalSlice(ts[1..])
        case Err(e) => Err(e)
        case Ok(tail) => Ok([head] + tail)
  }

  /** Two transaction lists are written alike if and only if they agree,
      position by position, on recipient and amount. */
  lemma MarshalSliceEqualIff(s1: seq<Transaction>, s2: seq<Transaction>)
    requires MarshalSlice(s1).Ok? && MarshalSlice(s2).Ok?
    ensures MarshalSlice(s1) == MarshalSlice(s2) <==> SameSerializedSlices(s1, s2)
  {
  }

  predicate SameSerializedSlices(s1: seq<Transaction>, s2: seq<Transaction>) {
    |s1| == |s2| && forall i :: 0 <= i < |s1| ==> SameSerializedFields(s1[i], s2[i])
  }
}
