/**
 * The Solana values the block loader reads and the RPC client it calls.
 * The client is a value of function-typed fields: its answers are not part
 * of this model, and for one slot, signature or commitment it gives one
 * answer (retries and their delays happen inside the client).
 */
module SolanaRpc {
  import opened Wrappers
  import opened Bytes
  import opened Errors
  import opened IxBatch

  type Slot = U64

  datatype Signature = Signature(bytes: seq<Byte>)

  datatype Commitment = Processed | Confirmed | Finalized

  /** A compiled instruction: the index of its program among the message's account keys. */
  datatype CompiledInstruction = CompiledInstruction(programIdIndex: nat, accounts: seq<nat>, data: seq<Byte>)

  datatype RawMessage = RawMessage(accountKeys: seq<Pubkey>, instructions: seq<CompiledInstruction>)

  /**
   * A decoded message whose instructions all name a program among its
   * account keys (the node only serves sanitized transactions; indexing
   * outside the keys would panic).
   */
  predicate Sanitized(m: RawMessage) {
    forall i :: 0 <= i < |m.instructions| ==> m.instructions[i].programIdIndex < |m.accountKeys|
  }

  type Message = m: RawMessage | Sanitized(m) witness RawMessage([], [])

  /**
   * A transaction with its status meta as encoded by the node (base-58);
   * `decoded` is what `decode()` yields, None when it does not decode.
   */
  datatype TxWithMeta = TxWithMeta(encoded: seq<Byte>, decoded: Option<Message>, meta: seq<Byte>)

  /** `EncodedConfirmedTransactionWithStatusMeta`: the slot and the transaction. */
  datatype ConfirmedTx = ConfirmedTx(slot: Slot, transaction: TxWithMeta)

  /**
   * `UiConfirmedBlock`, with the fields the loader reads or writes:
   * signatures as the node prints them, and the kept transactions.
   */
  datatype Block = Block(
    parentSlot: Slot,
    blockhash: string,
    signatures: Option<seq<string>>,
    transactions: Option<seq<TxWithMeta>>)

  datatype SolanaClient = SolanaClient(
    /** `get_block_with_config` at a commitment: the block, or None for a skipped slot. */
    getBlock: (Slot, Commitment) -> Result<Option<Block>, RomeEvmError>,
    /** `get_transaction_with_config` at a commitment. */
    getTransaction: (Signature, Commitment) -> Result<Option<ConfirmedTx>, RomeEvmError>,
    /**
     * `get_signatures_for_address_with_config(program, before, until)`: the
     * signatures of the program's transactions strictly between the two,
     * newest first, as strings.
     */
    getSignaturesForAddress: (Pubkey, Commitment, Signature, Signature) -> Result<seq<string>, RomeEvmError>,
    /** `Signature::from_str`: base-58 parsing. */
    parseSignature: string -> Option<Signature>)
}
