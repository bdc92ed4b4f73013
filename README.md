# Rome SDK core, modelled in Dafny

This project models the core of the Rome SDK. The SDK lets Ethereum-style
rollups run on Solana. The model covers four parts.

- **Block loader** (`SolanaBlockLoader`). It mirrors the target program's
  part of the Solana ledger into a block store.
  - It loads contiguous batches of slots up to the confirmed tip.
  - It keeps only the transactions that address the program.
  - It re-checks blocks as they become finalized, comparing block hashes.
  - It walks the stored chain backwards along `parent_slot` links to repair
    it.
  - It signals the lowest repaired slot on a reorg channel.
- **Outgoing-transaction step machines**, each driven by `advance()`.
  - `TransmitTx` writes a signed RLP transaction into a holder account, in
    800-byte chunks, sent in parallel groups.
  - `IterativeTxHolder` transmits the transaction, executes it in many
    iterative instructions, then confirms it once.
- **Instruction batches** (`AtomicIxBatch`) and the emulation checks of
  `util.rs`.
- **The SDK entry point** (`Rome`). It looks up a rollup's transaction
  builder by chain id, estimates gas, and assembles cross-rollup and
  cross-chain instruction lists.

Modules and files:

- `wrappers.dfy`: `Option` and `Result`.
- `bytes.dfy`: byte-level helpers.
  - Little- and big-endian integers with round-trip lemmas.
  - Lowercase hex with its decoder.
  - `Reverse`, `Flatten` and fixed-size `Chunks`.
- `errors.dfy`: the error type.
- `ix_batch.dfy`: instruction batches.
- `emulator.dfy`: the interface of the foreign builder operations.
- `util.rs` → `util.dfy`.
- `transmit_tx.rs` → `transmit_tx.dfy`.
- `iterative_holder.rs` → `iterative_holder.dfy`.
- `rome.rs` → `rome.dfy`.
- `solana_block_loader.rs` is split by part:
  - `solana_rpc.dfy`: the RPC values and the client interface.
  - `block_fetch.dfy`: the free fetch functions.
  - `block_store.dfy`: the store and the reorg channel.
  - `block_loader.dfy`: the loader itself.

Both step machines are classes with a mutable `step` field, and each class
has a pure transition function beside it. Each `Advance` method is proved to
move exactly as its transition function does. Lemmas about whole runs of
that function state what the sequence of `advance` calls yields.

The loader is a class over a mutable `BlockStore` and a `ReorgSender`. The
source's imperative loops are methods with loop invariants, each proved
against a pure function:
- `load_blocks`
- the two loops of `preload_blocks_until_in_sync`
- `check_batch`
- `recheck_finalized_blocks`
- the compose loops of `rome.rs`

## Model

| member | source | states |
|---|---|---|
| IxBatch.NewOwned | rome-solana/src/batch/ix.rs:27-29 | the batch dereferences to exactly the given instructions |
| IxBatch.NewComposibleOwned | rome-solana/src/batch/ix.rs:36-42 | three instructions: compute-unit limit 1 400 000, heap frame 256 KiB, then the instruction |
| IxBatch.NewComposibleBatchesOwned | rome-solana/src/batch/ix.rs:32-34 | one composable batch per input instruction, same length and order |
| IxBatch.AtomicIxBatch.Push | rome-solana/src/batch/ix.rs:45-47 | the new instructions follow the old ones in order; the old prefix is unchanged |
| IxBatch.AllSigners | rome-solana/src/batch/ix.rs:90-91 | the payer first, then the extra signers in their order |
| EvmUtil.CheckAccountsLen | rome-evm-client/src/util.rs:79-85 | fails, with `TooManyAccounts(len)`, exactly when more than 62 accounts are touched |
| EvmUtil.CheckExitReason | rome-evm-client/src/util.rs:48-77 | Ok exactly when there is no VM or it succeeded; a revert is `EmulationRevert` whose message starts with "execution reverted" and whose data starts with "0x"; Error, Fatal and StepLimitReached give `EmulationError` |
| EvmUtil.RevertMessage | rome-evm-client/src/util.rs:55-61 | the revert message carries the decoded reason exactly when one decodes, else is the bare prefix |
| EvmUtil.RevertDataRoundTrip | rome-evm-client/src/util.rs:63-69 | the revert data is "0x" plus hex that decodes back to the return value (empty when absent) |
| EvmUtil.CastU256 | rome-evm-client/src/util.rs:17-23 | the 32-byte big-endian round trip preserves the value |
| EvmUtil.CastTransactionRequest | rome-evm-client/src/util.rs:26-44 | nonce, gas price, gas limit and value default to 0; the chain id defaults to the builder's; a named `to` becomes the zero address; data is always present, empty by default; `from` defaults to the zero address |
| Transmit.TransmitTx.constructor | rome-evm-client/src/tx/transmit_tx.rs:35-43 | a new transmitter starts at `Init` with the given fields |
| Transmit.TransmitTx.TxData | rome-evm-client/src/tx/transmit_tx.rs:45-54 | layout: tag, holder, LE8(offset), hash, LE8(chain id), payload, at the stated positions |
| Transmit.RlpChunks | rome-evm-client/src/tx/transmit_tx.rs:56-75 | chunks of 1 to 800 bytes that concatenate back to the RLP; chunk i is the RLP slice at its offset |
| Transmit.TransmitTx.ChunkOffset | rome-evm-client/src/tx/transmit_tx.rs:59-66 | the first chunk's offset is 0, every offset lies within the RLP, and the offset past the last chunk is the RLP's length |
| Transmit.TransmitTx.ChunkOffsetStep | rome-evm-client/src/tx/transmit_tx.rs:59-66 | the running sum `ixs` threads: each next offset is the previous one plus the previous chunk's length |
| Transmit.TransmitTx.ChunkAtOffset | rome-evm-client/src/tx/transmit_tx.rs:59-66 | each chunk is exactly the slice of the RLP that starts at its running offset |
| Transmit.TransmitTx.ChunkIxs | rome-evm-client/src/tx/transmit_tx.rs:59-71 | one single-instruction batch per RLP chunk, in chunk order, each carrying its chunk at its running offset |
| Transmit.TransmitTx.Ixs | rome-evm-client/src/tx/transmit_tx.rs:56-75 | an emulation error is returned; otherwise one single-instruction batch per chunk, in chunk order, built from the chunk at its running offset |
| Transmit.TransmitTx.Advance | rome-evm-client/src/tx/transmit_tx.rs:81-102 | the new step and the result are exactly those of the transition function |
| Transmit.RunFromInit | rome-evm-client/src/tx/transmit_tx.rs:83-99 | from `Init`, the groups are emitted as `Parallel` in chunk order, one per call, then `End` forever; the non-`End` results number the groups |
| Transmit.RunFromExecute | rome-evm-client/src/tx/transmit_tx.rs:92-99 | the pending groups are popped from the end, one per call, each once, then `End` |
| Transmit.RunFromComplete | rome-evm-client/src/tx/transmit_tx.rs:95-100 | once complete, every call answers `End` |
| Transmit.RunFromInitFailing | rome-evm-client/src/tx/transmit_tx.rs:83-91 | while `ixs` fails, each call returns that error and the step stays `Init` |
| Iterative.IterativeTxHolder.constructor | rome-evm-client/src/tx/iterative_holder.rs:24-36 | starts at `Execute` with `use_alt`, else at `Transmit` |
| Iterative.IterativeTxHolder.EmulationData | rome-evm-client/src/tx/iterative_holder.rs:38-47 | layout: tag, LE8(session), holder, hash, LE8(chain id), fee recipient |
| Iterative.IterativeTxHolder.TxData | rome-evm-client/src/tx/iterative_holder.rs:50-61 | the emulation data with LE8(unique) after the tag and the lock overrides appended |
| Iterative.IterativeTxHolder.Ixs | rome-evm-client/src/tx/iterative_holder.rs:63-81 | an emulation error is returned; an emulation without a VM gives `VmExpected`; otherwise it succeeds with one composable batch per unique in 0..count, in increasing order, each carrying that unique's data |
| Iterative.IterativeTxHolder.Advance | rome-evm-client/src/tx/iterative_holder.rs:87-127 | the holder's step, the transmitter's step and the result are exactly those of the transition function |
| Iterative.RunFromNew | rome-evm-client/src/tx/iterative_holder.rs:87-127 | a fresh holder emits the transmit groups in chunk order, then the iterative instructions, then the confirmation, then `End` forever |
| Iterative.RunFromTransmitExecute | rome-evm-client/src/tx/iterative_holder.rs:89-98 | the transmitter's groups pass through until it ends; the same call executes, the next confirms |
| Iterative.RunFromExecute | rome-evm-client/src/tx/iterative_holder.rs:99-124 | execute (an error still moves to `Confirm`), then the confirmation, where an error counts as false, then `End` forever |
| Iterative.RunFromEnd | rome-evm-client/src/tx/iterative_holder.rs:125 | after the end, every call answers `End` |
| Iterative.TransmitFailing | rome-evm-client/src/tx/iterative_holder.rs:89-98 | when the transmission's `ixs` fails, the call returns that error and both machines stay as they were |
| RomeSdk.ComposedTx.Signers | rome-solana/src/batch/ix.rs:90-91 | the composed transaction is signed by its payer first, then its extra signers |
| RomeSdk.Rome.GetTransactionBuilder | rome-sdk/src/rome.rs:100-104 | succeeds exactly when the chain id is registered, with its builder; else `UnsupportedChainId(chain id)` |
| RomeSdk.Rome.GetTransactionBuilderForTx | rome-sdk/src/rome.rs:107-116 | a transaction without chain id gives `NoChainId`, else the lookup by its chain id |
| RomeSdk.Rome.EstimateGas | rome-sdk/src/rome.rs:142-167 | errors in order: no chain id, unregistered chain, emulation error, exit reason, account count; success exactly when all pass, with the emulated gas |
| RomeSdk.Rome.DoTxData | rome-sdk/src/rome.rs:206-208 | layout: DoTx tag, the resource's fee recipient, the signed RLP |
| RomeSdk.Rome.EthStep | rome-sdk/src/rome.rs:198-219 | builder lookup and lock errors come first; the first locked resource is kept; the kept resource's data is emulated; a non-atomic emulation fails with `NotAtomic`; else the built instruction |
| RomeSdk.Rome.EthIxsKept | rome-sdk/src/rome.rs:195-220 | with the resource kept, the loop succeeds exactly when every step does, with their instructions in input order; else the first failing step's error |
| RomeSdk.Rome.CrossRollupShape | rome-sdk/src/rome.rs:186-230 | no transaction fails with `NoResource`; else the list is the compute-budget prefix, then one instruction per transaction in input order under the first resource, whose payer pays |
| RomeSdk.Rome.CrossChainShape | rome-sdk/src/rome.rs:233-286 | same outcome as cross-rollup, with the Solana instructions appended after all Ethereum-derived ones and the extra signers after the payer |
| RomeSdk.Rome.ComposeCrossRollupTx | rome-sdk/src/rome.rs:186-230 | the loop computes exactly the cross-rollup specification |
| RomeSdk.Rome.ComposeCrossChainTx | rome-sdk/src/rome.rs:233-286 | the two loops compute exactly the cross-chain specification |
| BlockFetch.AddressesProgram | rome-evm-client/src/indexer/solana_block_loader.rs:57-63 | true exactly when some instruction's program index resolves to the program id |
| BlockFetch.LoadTransaction | rome-evm-client/src/indexer/solana_block_loader.rs:36-68 | a fetch error is returned; a transaction is kept exactly when it exists, decodes and addresses the program |
| BlockFetch.LoadAllSpec | rome-evm-client/src/indexer/solana_block_loader.rs:70-98 | the loads succeed exactly when each does, keeping the targeting transactions in signature order; else the first failing load's error |
| BlockFetch.LoadAllTargets | rome-evm-client/src/indexer/solana_block_loader.rs:70-98 | every kept transaction decodes and targets the program |
| BlockFetch.LoadTransactions | rome-evm-client/src/indexer/solana_block_loader.rs:70-98 | fails exactly when a load fails, with the first failing load's error; else the kept transactions, None (never an empty list) when nothing is kept |
| BlockFetch.ParsedSignatures | rome-evm-client/src/indexer/solana_block_loader.rs:137-140 | exactly the statuses' signatures that parse, unparsable ones skipped |
| BlockFetch.ParsedSignaturesFilter | rome-evm-client/src/indexer/solana_block_loader.rs:137-140 | the parse is a filter: it distributes over concatenation, so order and repeats are kept, and one status gives its signature exactly when it parses |
| BlockFetch.FetchOrder | rome-evm-client/src/indexer/solana_block_loader.rs:124-144 | the block's first signature, the program's signatures reversed, the block's last signature |
| BlockFetch.EndSignature | rome-evm-client/src/indexer/solana_block_loader.rs:108-118 | for a block that lists signatures, exactly the parse of its first or last one; None for a block that lists none |
| BlockFetch.LoadBlockTransactions | rome-evm-client/src/indexer/solana_block_loader.rs:100-158 | signatures are cleared; when both end signatures parse, transactions are replaced by the program's, fetched in `FetchOrder`, or the fetch error is returned; otherwise transactions are untouched |
| BlockFetch.LoadBlock | rome-evm-client/src/indexer/solana_block_loader.rs:160-195 | a skipped slot gives None; a block gets its program transactions; errors propagate |
| BlockFetch.LoadBlockTargets | rome-evm-client/src/indexer/solana_block_loader.rs:100-195 | a loaded block whose end signatures parse holds only transactions that decode and target the program; otherwise it keeps the node's transactions |
| BlockLoader.GetLatestSlots | rome-evm-client/src/indexer/solana_block_loader.rs:262-279 | both tips, or an error when either query failed |
| BlockLoader.StartCursor | rome-evm-client/src/indexer/solana_block_loader.rs:323-331 | the last stored slot, else the start slot, else `NoStartSlot` |
| BlockLoader.SyncCursorSpec | rome-evm-client/src/indexer/solana_block_loader.rs:287-312 | the cursor never decreases; failed tip queries leave it; in sync only at or above an answered confirmed tip |
| BlockLoader.SolanaBlockLoader.constructor | rome-evm-client/src/indexer/solana_block_loader.rs:24-34 | the loader holds the given store, client, commitment, program and batch size |
| BlockLoader.SolanaBlockLoader.LoadBlocks | rome-evm-client/src/indexer/solana_block_loader.rs:198-244 | an empty set gives an empty map; else either every slot loads and the map holds exactly the slots with a block, or the error names every failed slot |
| BlockLoader.SolanaBlockLoader.PreloadTo | rome-evm-client/src/indexer/solana_block_loader.rs:252-253 | `from <= to <= max`, `to - from <= batch_size`, and the batch is full unless it reaches `max` |
| BlockLoader.SolanaBlockLoader.PreloadBlocks | rome-evm-client/src/indexer/solana_block_loader.rs:246-260 | returns `to`; on success stores exactly the loaded blocks of `[from, to)` with the finalized slot; a failed batch stores nothing |
| BlockLoader.SolanaBlockLoader.PreloadUntilSucceeds | rome-evm-client/src/indexer/solana_block_loader.rs:290-295 | the batch loop reaches the confirmed tip exactly when every slot from the cursor up to it loads |
| BlockLoader.SolanaBlockLoader.PreloadUntilStores | rome-evm-client/src/indexer/solana_block_loader.rs:290-295 | a batch loop that reaches the tip has stored the blocks of every slot on the way, over what was stored |
| BlockLoader.SolanaBlockLoader.PreloadUntilFails | rome-evm-client/src/indexer/solana_block_loader.rs:290-295 | a failed batch loop names only slots of the range that fail to load; it keeps every stored slot and adds only slots of the range |
| BlockLoader.SolanaBlockLoader.RoundEffect | rome-evm-client/src/indexer/solana_block_loader.rs:288-305 | one answered round keeps every stored slot; it moves the cursor exactly when the confirmed tip is above it, to that tip, with every block up to it stored; the finalized slot never goes down and reaches the finalized tip on success; at most one event, on an open channel, naming a newly finalized slot |
| BlockLoader.SolanaBlockLoader.RoundFailure | rome-evm-client/src/indexer/solana_block_loader.rs:288-305 | a round fails only with slots at or above the cursor that fail to load, named in the error, or with a failing re-check's error |
| BlockLoader.SolanaBlockLoader.SyncRound | rome-evm-client/src/indexer/solana_block_loader.rs:288-305 | the round's loads and finalization change the store, the result and the channel exactly as the round function says |
| BlockLoader.SolanaBlockLoader.PreloadRange | rome-evm-client/src/indexer/solana_block_loader.rs:290-295 | the batch loop stores and returns exactly what the batch-loop function gives, leaving the finalized slot |
| BlockLoader.SolanaBlockLoader.SyncCursorAgrees | rome-evm-client/src/indexer/solana_block_loader.rs:281-313 | a successful sync ends at the cursor of the cursor function over the tip answers |
| BlockLoader.SolanaBlockLoader.SyncKeepsBlocks | rome-evm-client/src/indexer/solana_block_loader.rs:281-313 | no stored slot is lost; after success every loadable slot from the start cursor up to the end cursor is stored |
| BlockLoader.SolanaBlockLoader.SyncFinalized | rome-evm-client/src/indexer/solana_block_loader.rs:281-313 | the finalized slot never decreases and ends at its old value or an answered finalized tip; while polling, at or above every answered finalized tip |
| BlockLoader.SolanaBlockLoader.SyncInSyncFinalized | rome-evm-client/src/indexer/solana_block_loader.rs:288-305 | a sync that ends in sync does so at an answered round whose confirmed tip is at or below the cursor, and the finalized slot is at or above the finalized tip of that round and every answered round before it |
| BlockLoader.SolanaBlockLoader.SyncEvents | rome-evm-client/src/indexer/solana_block_loader.rs:281-313 | a sync only appends to the channel's log, nothing on a closed channel; the appended events are strictly increasing slots above the old and at or below the new finalized slot |
| BlockLoader.SolanaBlockLoader.SyncFailure | rome-evm-client/src/indexer/solana_block_loader.rs:281-313 | a sync fails only with slots at or above the start cursor that fail to load, named in the error, or with a failing re-check's error |
| BlockLoader.SolanaBlockLoader.SyncSucceeds | rome-evm-client/src/indexer/solana_block_loader.rs:281-313 | when every slot loads and every re-check query answers, the sync succeeds |
| BlockLoader.SolanaBlockLoader.PreloadBlocksUntilInSync | rome-evm-client/src/indexer/solana_block_loader.rs:281-313 | result, stored blocks, finalized slot and sent events are exactly those of the sync function; so the cursor is the cursor function's and no stored slot is lost |
| BlockLoader.SolanaBlockLoader.StartLoading | rome-evm-client/src/indexer/solana_block_loader.rs:315-345 | no cursor gives `NoStartSlot` with nothing changed; else exactly the sync function's effect from the start cursor |
| BlockLoader.SolanaBlockLoader.LoadingIteration | rome-evm-client/src/indexer/solana_block_loader.rs:346-361 | exactly the sync function's effect; a failed sync leaves the cursor; a successful one moves it, never downwards |
| BlockLoader.SolanaBlockLoader.RecheckFinalizedBlock | rome-evm-client/src/indexer/solana_block_loader.rs:555-600 | reloads, at finalized commitment, only a block whose on-chain hash differs; a missing on-chain block is unchanged; a lookup error names the slot |
| BlockLoader.SolanaBlockLoader.ResetFrom | rome-evm-client/src/indexer/solana_block_loader.rs:532-547 | the lowest changed slot, None exactly when nothing changed |
| BlockLoader.SolanaBlockLoader.RecheckFinalizedBlocks | rome-evm-client/src/indexer/solana_block_loader.rs:501-550 | the first failure in slot order is returned before any write or send; else the store receives exactly the changed blocks and one event with the lowest changed slot is sent if any changed and the channel is open |
| BlockLoader.SolanaBlockLoader.FinalizeSpec | rome-evm-client/src/indexer/solana_block_loader.rs:487-550 | the finalized slot only grows; fails exactly when a newly finalized block's re-check fails, with the lowest such slot's error and nothing written or sent; no slot added or removed, only newly finalized blocks replaced; at most one event, naming a newly finalized slot, only on an open channel |
| BlockLoader.SolanaBlockLoader.UpdateFinalizedSlot | rome-evm-client/src/indexer/solana_block_loader.rs:487-499 | does exactly what the finalize function says; the blocks it newly finalizes are re-checked as above, a failure giving the lowest failing slot's error |
| BlockLoader.SolanaBlockLoader.Fetch | rome-evm-client/src/indexer/solana_block_loader.rs:441-465 | the stored block, else a loaded one, else `BlockUnavailable(slot)`; a load error propagates |
| BlockLoader.SolanaBlockLoader.PathShape | rome-evm-client/src/indexer/solana_block_loader.rs:440-471 | the scan visits at most `batch_size` slots, each at or above the start slot, from the end slot along parent links |
| BlockLoader.SolanaBlockLoader.WalkOutcome | rome-evm-client/src/indexer/solana_block_loader.rs:440-471 | the walk succeeds exactly when every visited slot gives a block; else the error is the last visited slot's |
| BlockLoader.SolanaBlockLoader.WalkBlocks | rome-evm-client/src/indexer/solana_block_loader.rs:440-471 | the collected blocks are exactly the visited slots' blocks |
| BlockLoader.SolanaBlockLoader.WalkStop | rome-evm-client/src/indexer/solana_block_loader.rs:440-476 | the walk stops at the last visited block's parent, below the start slot unless the batch is full |
| BlockLoader.SolanaBlockLoader.CheckBatch | rome-evm-client/src/indexer/solana_block_loader.rs:430-477 | a walk error is returned with nothing written; else the visited blocks are re-checked as above (a failure giving the lowest failing slot's error) and the walk's stop slot is returned |
| BlockLoader.SolanaBlockLoader.StartChecking | rome-evm-client/src/indexer/solana_block_loader.rs:369-428 | a no-op returning Ok when the store is empty with no end slot, when the end slot is below the start slot, or when the start slot is not stored |
| BlockLoader.SolanaBlockLoader.ScanFromZeroNeverSucceeds | rome-evm-client/src/indexer/solana_block_loader.rs:419-423 | with start slot 0 the loop as written never ends with Ok |
| BlockLoader.SolanaBlockLoader.GenesisScanNeverEnds | rome-evm-client/src/indexer/solana_block_loader.rs:419-423 | from a stored genesis block, the loop as written runs forever |
| BlockLoader.SolanaBlockLoader.ScanCorrectedAgrees | rome-evm-client/src/indexer/solana_block_loader.rs:419-423 | the corrected loop gives the as-written result whenever every batch moves downwards |
| BlockLoader.SolanaBlockLoader.GenesisScanCorrectedEnds | rome-evm-client/src/indexer/solana_block_loader.rs:419-423 | from a stored genesis block, the corrected loop ends with Ok |

## Left out

- I/O and concurrency.
  - The RPC client, emulator, transaction builder and resource pool are function-typed fields with no contract: `emulate`, `build_ix`, `lock_resource`, `confirm_tx_iterative` and `log_parser::decode_revert`.
  - Retries and their delays happen inside the client.
  - `join_all` fan-outs are ordered sequential maps.
  - `tokio::spawn`, `sleep` and the start-up signal are not modelled.
- The block store and the reorg channel have no code here. They are modelled in memory and never fail.
  - `set_finalized_slot` yields the stored blocks above the old finalized slot and at or below the new one.
  - `set_finalized_slot` never lowers the recorded finalized slot, even though the loader passes each round's finalized tip on unchanged. The "never goes down" parts of `FinalizeSpec`, `RoundEffect` and `SyncFinalized` rest on this store guarantee, not on the loader.
  - A send on a closed channel delivers nothing.
  - Storage errors are not modelled.
- Answers that change over time. Only the two tip queries are modelled as changing: their successive answers are a sequence parameter, and a sync that exhausts them reports `Polling`, where the source would go on polling.
  - Every other client and builder operation is a fixed function: it gives one answer per argument for the whole run. So a repeated call gets the same answer.
  - The step machines' `advance` re-runs `ixs`, which emulates again. In the model that emulation gives the same answer each time.
  - A block that `recheck_finalized_block` reloads is taken from the same node answer it compared the hash against.
- BlockLoader.SolanaBlockLoader.PreloadBlocksUntilInSync: requires `batch_size > 0`. With 0 the inner loop never advances, so the source would spin.
- BlockLoader.SolanaBlockLoader.LoadingIteration: the endless loop of `start_loading` is modelled as one turn and its cursor invariant.
- BlockLoader.SolanaBlockLoader.StartChecking: models the corrected loop (see Findings). Its contract states only the no-op cases. The batches' effects are stated by `CheckBatch`.
- BlockLoader.SolanaBlockLoader.CheckBatch: `load_block`'s retry counts are not modelled.
- BlockFetch.LoadBlockTransactions: when an end signature of the node's block does not parse, the block keeps the node's transactions unfiltered, as the source does. `LoadBlockTargets` promises only program transactions when both parse.
- IxBatch.AtomicIxBatch.Push: returns the extended batch as a new value instead of appending in place. The step machines hold batches as values, so `Cow` sharing and aliasing are not modelled.
- Iterative.IterativeTxHolder.Ixs:
  - The floating-point count is not modelled. The instruction count for an iteration count is a constructor parameter.
  - The source panics when the emulation reports no VM. The model returns `VmExpected` instead.
- Iterative.IterativeTxHolder.constructor: the random session id is a constructor parameter.
- `into_chunks` has no code here. `Chunks` defines the fixed-size chunking the source relies on: the last chunk may be shorter, and empty input gives no chunks.
- The values of the `emulator::Instruction` discriminants have no code here. They are carried in `InstructionTags`.
- `rome.rs`:
  - `new`, `new_with_config`, `transaction_count`, `compose_rollup_tx`, `send_and_confirm` and `solana` are configuration, emulator queries or network I/O.
  - Logging is not modelled.
- `ix.rs`: `new_borrowed`, plus the signing and message compilation of `compose_legacy_solana_tx`, `compose_v0_solana_tx` and `compose_legacy_solana_tx_with_signers`. Only the signer order is modelled.
- `advance_with_version` and `payer` of the step machines are not modelled. Every batch the machines emit is modelled as a legacy transaction.
- EvmUtil.CastTransactionRequest: requires a nonce below 2^64. `U256::as_u64` panics above that.
- RomeSdk.Rome.EstimateGas: has the same nonce bound, but only for a request whose chain id is present and registered, because only then is the conversion reached. A missing or unregistered chain id gives its error whatever the nonce.
- The source reports several errors as formatted text. Each is an error variant of its own here, carrying the values the text names.
- Decoded messages are assumed sanitized: every program index is within the account keys. An index outside them would panic in the source.

## Findings

| source | as written | input that shows it | evidently intended | confidence | as-written member | corrected member |
|---|---|---|---|---|---|---|
| rome-evm-client/src/indexer/solana_block_loader.rs:419-423 | the scan loops `while end_slot >= start_slot`, and `end_slot` is an unsigned slot | `start_slot = 0` with the genesis block (slot 0, parent slot 0) stored: every batch returns slot 0 again, so the scan never ends | the scan ends once a batch makes no downward progress, including at the genesis block | medium, not executed | BlockLoader.SolanaBlockLoader.GenesisScanNeverEnds | BlockLoader.SolanaBlockLoader.GenesisScanCorrectedEnds |
