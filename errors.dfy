/**
 * The error type shared by the client crates (`RomeEvmError`). The source
 * builds several errors as `Custom(format!(...))`; each such message is a
 * variant of its own here, carrying the values the message names.
 */
module Errors {
  import opened Bytes

  datatype RomeEvmError =
    | EmulationRevert(message: string, data: string)
    | EmulationError(message: string)
    | TooManyAccounts(count: nat)
    | UnsupportedChainId(chainId: U64)
    | NoChainId
      /** An error returned by a collaborator (RPC client, emulator, store) and propagated with `?`. */
    | Foreign(detail: string)
      /** Some slots of a batch failed to load; carries every failed slot. */
    | FailedToLoadBlocks(slots: set<U64>)
      /** The confirmed or the finalized tip could not be queried. */
    | LatestSlotsUnavailable
      /** The loader has neither a stored block nor a configured start slot. */
    | NoStartSlot
      /** The backward scan found no block on a slot, stored or on-chain. */
    | BlockUnavailable(slot: nat)
      /** The finalized-block lookup for a slot failed; carries the cause. */
    | RecheckFailed(slot: nat, cause: RomeEvmError)
      /** An emulated transaction does not fit in one atomic Solana transaction. */
    | NotAtomic
      /** A composition locked no resource (it had no transaction). */
    | NoResource
      /** The iterative holder's emulation reported no VM (a panic in the source), surfaced as an error. */
    | VmExpected
}
