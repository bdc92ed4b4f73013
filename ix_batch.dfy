/**
 * Atomic instruction batches (rome-solana `batch/ix.rs`): a list of Solana
 * instructions that is composed into one transaction.
 */
module IxBatch {
  import opened Bytes

  type Pubkey = seq<Byte>

  datatype Keypair = Keypair(pubkey: Pubkey)

  datatype AccountMeta = AccountMeta(pubkey: Pubkey, isSigner: bool, isWritable: bool)

  /**
   * A Solana instruction. The two compute-budget instructions are built by
   * the Solana SDK; they are kept symbolic, carrying their argument.
   */
  datatype Instruction =
    | SetComputeUnitLimit(units: nat)
    | RequestHeapFrame(bytes: nat)
    | ProgramIx(programId: Pubkey, accounts: seq<AccountMeta>, data: seq<Byte>)

  const COMPUTE_UNIT_LIMIT: nat := 1_400_000
  const HEAP_FRAME_BYTES: nat := 256 * 1024

  /** The two system instructions put in front of every composable batch. */
  const COMPUTE_BUDGET_PREFIX: seq<Instruction> :=
    [SetComputeUnitLimit(COMPUTE_UNIT_LIMIT), RequestHeapFrame(HEAP_FRAME_BYTES)]

  /**
   * `AtomicIxBatch<'static>`: an owned, cloneable list of instructions.
   */
  datatype AtomicIxBatch = AtomicIxBatch(ixs: seq<Instruction>) {

    /** `Deref`: the instructions of the batch. */
    function Deref(): seq<Instruction> {
      ixs
    }

    /**
     * `push`: the given instructions are appended, in order, after the
     * existing ones.
     */
    function Push(more: seq<Instruction>): (b: AtomicIxBatch)
      ensures |b.Deref()| == |Deref()| + |more|
      ensures b.Deref()[..|Deref()|] == Deref()
      ensures b.Deref()[|Deref()|..] == more
    {
      AtomicIxBatch(ixs + more)
    }
  }

  /** `new_owned`: wraps the list unchanged. */
  function NewOwned(ixs: seq<Instruction>): (b: AtomicIxBatch)
    ensures b.Deref() == ixs
  {
    AtomicIxBatch(ixs)
  }

  /** `new_composible_owned`: the compute-budget prefix followed by the instruction. */
  function NewComposibleOwned(ix: Instruction): (b: AtomicIxBatch)
    ensures |b.Deref()| == 3
    ensures b.Deref()[..2] == COMPUTE_BUDGET_PREFIX && b.Deref()[2] == ix
  {
    AtomicIxBatch([SetComputeUnitLimit(1_400_000), RequestHeapFrame(256 * 1024), ix])
  }

  /** `new_composible_batches_owned`: one composable batch per instruction, in order. */
  function NewComposibleBatchesOwned(ixs: seq<Instruction>): (bs: seq<AtomicIxBatch>)
    ensures |bs| == |ixs|
    ensures forall i :: 0 <= i < |ixs| ==> bs[i] == NewComposibleOwned(ixs[i])
  {
    if ixs == [] then [] else [NewComposibleOwned(ixs[0])] + NewComposibleBatchesOwned(ixs[1..])
  }

  /**
   * The signer list of `compose_legacy_solana_tx_with_signers`: the payer,
   * then the extra signers in their order.
   */
  function AllSigners(payer: Keypair, signers: seq<Keypair>): (r: seq<Keypair>)
    ensures |r| == |signers| + 1
    ensures r[0] == payer && r[1..] == signers
  {
    [payer] + signers
  }

  /**
   * `IxExecStepBatch`: what one `advance` of a step machine asks the sender
   * to do next. Every batch the modelled machines emit is a legacy
   * transaction, so the version tag is left out.
   */
  datatype IxExecStepBatch =
    | Parallel(batches: seq<AtomicIxBatch>)
    | ParallelUnchecked(batches: seq<AtomicIxBatch>)
    | ConfirmationIterativeTx(confirmed: bool)
    | End
}
