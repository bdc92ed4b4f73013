/**
 * The interface of the code the transaction builders call but that is not
 * part of this model: the emulator's result type, the transaction builder's
 * foreign operations (`emulate`, `build_ix`, `lock_resource`,
 * `confirm_tx_iterative`) and the locked resource. Foreign operations are
 * function-typed fields, so the model fixes nothing about them beyond their
 * signature.
 */
module Emulator {
  import opened Wrappers
  import opened Bytes
  import opened IxBatch
  import opened Errors

  datatype ExitReason = Succeed | Revert | Error(detail: string) | Fatal(detail: string) | StepLimitReached

  datatype Vm = Vm(exitReason: ExitReason, returnValue: Option<seq<Byte>>, iterationCount: nat)

  datatype Emulation = Emulation(
    vm: Option<Vm>,
    accounts: seq<Pubkey>,
    gas: nat,
    isAtomic: bool,
    lockOverrides: seq<Byte>)

  /**
   * The discriminants of `emulator::Instruction` the builders use as the
   * first byte of instruction data; their numeric values are defined in the
   * emulator crate.
   */
  datatype InstructionTags = InstructionTags(doTx: Byte, transmitTx: Byte, doTxHolderIterative: Byte)

  /** A locked holder account and its payer (`Resource`). */
  datatype Resource = Resource(holder: seq<Byte>, holderIndex: nat, payer: Keypair, feeRecipient: seq<Byte>) {
    function PayerKey(): Pubkey { payer.pubkey }
  }

  /**
   * `TxBuilder` for one rollup. `lockResource(n)` is the pool's answer to the
   * n-th lock request of a composition.
   */
  datatype TxBuilder = TxBuilder(
    chainId: U64,
    programId: Pubkey,
    emulate: (seq<Byte>, Pubkey) -> Result<Emulation, RomeEvmError>,
    buildIx: (Emulation, seq<Byte>) -> Instruction,
    lockResource: nat -> Result<Resource, RomeEvmError>,
    confirmTxIterative: (nat, seq<Byte>, Pubkey, U64) -> Result<bool, RomeEvmError>)
}
