/**
 * `SolanaBlockLoader` (rome-evm-client `indexer/solana_block_loader.rs`):
 * mirrors the target program's part of the ledger into the block storage,
 * batch by batch, keeps it consistent with the finalized chain, and
 * signals the lowest slot it repaired.
 */
module BlockLoader {
  import opened Wrappers
  import opened Bytes
  import opened Errors
  import opened IxBatch
  import opened SolanaRpc
  import opened BlockFetch
  import opened BlockStorage

  /** The slots `from..to`. */
  function SlotRange(from: Slot, to: Slot): (r: set<Slot>)
    ensures forall s :: s in r <==> from <= s < to
    decreases (to as int) - (from as int)
  {
    if from >= to then {} else {from} + SlotRange(from + 1, to)
  }

  /**
   * `get_latest_slots`: the confirmed and the finalized tip, or an error
   * when either query failed.
   */
  function GetLatestSlots(confirmed: Result<Slot, RomeEvmError>, finalized: Result<Slot, RomeEvmError>)
    : (r: Result<(Slot, Slot), RomeEvmError>)
    ensures r.Success? <==> confirmed.Success? && finalized.Success?
    ensures r.Success? ==> r.value == (confirmed.value, finalized.value)
    ensures r.Failure? ==> r.error == LatestSlotsUnavailable
  {
    if confirmed.Success? && finalized.Success? then Success((confirmed.value, finalized.value))
    else Failure(LatestSlotsUnavailable)
  }

  /** The tips answered by successive `get_latest_slots` calls. */
  function Tips(answers: seq<(Result<Slot, RomeEvmError>, Result<Slot, RomeEvmError>)>)
    : (tips: seq<Result<(Slot, Slot), RomeEvmError>>)
    ensures |tips| == |answers|
    ensures forall i :: 0 <= i < |answers| ==> tips[i] == GetLatestSlots(answers[i].0, answers[i].1)
  {
    seq(|answers|, i requires 0 <= i < |answers| => GetLatestSlots(answers[i].0, answers[i].1))
  }

  /** The tips of the first answer, then of the rest. */
  lemma TipsTail(answers: seq<(Result<Slot, RomeEvmError>, Result<Slot, RomeEvmError>)>)
    requires answers != []
    ensures Tips(answers)[0] == GetLatestSlots(answers[0].0, answers[0].1)
    ensures Tips(answers)[1..] == Tips(answers[1..])
  {
  }

  /**
   * The cursor of the loader at start-up: the last stored slot, else the
   * configured start slot, else an error.
   */
  function StartCursor(lastStored: Option<Slot>, startSlot: Option<Slot>): (r: Result<Slot, RomeEvmError>)
    ensures r.Failure? <==> lastStored.None? && startSlot.None?
    ensures r.Failure? ==> r.error == NoStartSlot
    ensures r.Success? ==> r.value == if lastStored.Some? then lastStored.value else startSlot.value
  {
    if lastStored.Some? then Success(lastStored.value)
    else if startSlot.Some? then Success(startSlot.value)
    else Failure(NoStartSlot)
  }

  /**
   * Where the sync loop stands after the given tip answers: `InSync` once
   * an answer's confirmed tip is not above the cursor, `Polling` while the
   * answers run out before that (the loop goes on polling).
   */
  datatype SyncOutcome = InSync(cursor: Slot) | Polling(cursor: Slot)

  /** The outer sync loop on the cursor: a failed answer leaves it, a higher tip moves it there. */
  function SyncCursor(from: Slot, tips: seq<Result<(Slot, Slot), RomeEvmError>>): SyncOutcome
    decreases |tips|
  {
    if tips == [] then Polling(from)
    else if tips[0].Failure? then SyncCursor(from, tips[1..])
    else if from < tips[0].value.0 then SyncCursor(tips[0].value.0, tips[1..])
    else InSync(from)
  }

  /**
   * The cursor never goes down; the loop reports being in sync only with a
   * cursor at or above a confirmed tip it was answered; while it polls,
   * the cursor is at or above every tip answered; if every answer failed
   * the cursor has not moved.
   */
  lemma {:induction false} SyncCursorSpec(from: Slot, tips: seq<Result<(Slot, Slot), RomeEvmError>>)
    ensures SyncCursor(from, tips).cursor >= from
    ensures SyncCursor(from, tips).InSync? ==>
      exists i :: 0 <= i < |tips| && tips[i].Success? && tips[i].value.0 <= SyncCursor(from, tips).cursor
    ensures SyncCursor(from, tips).Polling? ==>
      forall i :: 0 <= i < |tips| && tips[i].Success? ==> tips[i].value.0 <= SyncCursor(from, tips).cursor
    ensures (forall i :: 0 <= i < |tips| ==> tips[i].Failure?) ==> SyncCursor(from, tips) == Polling(from)
    decreases |tips|
  {
    if tips != [] {
      var next := if tips[0].Success? && from < tips[0].value.0 then tips[0].value.0 else from;
      SyncCursorSpec(next, tips[1..]);
      assert forall i :: 0 < i < |tips| ==> tips[i] == tips[1..][i - 1];
      var out := SyncCursor(from, tips);
      if tips[0].Success? && from >= tips[0].value.0 {
        assert tips[0].value.0 <= out.cursor;
      } else if out.InSync? {
        var i :| 0 <= i < |tips[1..]| && tips[1..][i].Success? && tips[1..][i].value.0 <= out.cursor;
        assert tips[i + 1].Success? && tips[i + 1].value.0 <= out.cursor;
      }
    }
  }

  function Min(a: nat, b: nat): nat {
    if a < b then a else b
  }

  /**
   * What a loader operation leaves behind: its result, the stored blocks,
   * the stored finalized slot and the reorg events it sent.
   */
  datatype Effect<T> = Effect(result: Result<T, RomeEvmError>, blocks: map<Slot, Block>, finalizedSlot: Slot, events: seq<Slot>)

  class SolanaBlockLoader {
    const store: BlockStore
    const client: SolanaClient
    const commitment: Commitment
    const programId: Pubkey
    /** The most slots loaded, or checked, in one batch. */
    const batchSize: Slot

    constructor (store: BlockStore, client: SolanaClient, commitment: Commitment, programId: Pubkey, batchSize: Slot)
      ensures this.store == store && this.client == client && this.commitment == commitment
      ensures this.programId == programId && this.batchSize == batchSize
    {
      this.store := store;
      this.client := client;
      this.commitment := commitment;
      this.programId := programId;
      this.batchSize := batchSize;
    }

    /** `load_block` with the loader's client, commitment and program. */
    function LoadBlockAt(slot: Slot): Result<Option<Block>, RomeEvmError> {
      LoadBlock(client, commitment, programId, slot)
    }

    /** The slots whose load fails. */
    function FailedSlots(slots: set<Slot>): set<Slot> {
      set s | s in slots && LoadBlockAt(s).Failure?
    }

    /** The blocks of the slots that load a block; skipped slots are left out. */
    function LoadedBlocks(slots: set<Slot>): map<Slot, Block> {
      map s | s in slots && LoadBlockAt(s).Success? && LoadBlockAt(s).value.Some? :: LoadBlockAt(s).value.value
    }

    /**
     * `load_blocks`: either every slot loads, and the map holds exactly the
     * slots that have a block, or the call fails naming every slot that
     * failed to load. An empty set gives an empty map.
     */
    method LoadBlocks(slots: set<Slot>) returns (r: Result<map<Slot, Block>, RomeEvmError>)
      ensures r.Failure? <==> FailedSlots(slots) != {}
      ensures r.Failure? ==> r.error == FailedToLoadBlocks(FailedSlots(slots))
      ensures r.Success? ==> r.value == LoadedBlocks(slots)
      ensures slots == {} ==> r == Success(map[])
    {
      if slots == {} {
        return Success(map[]);
      }
      var results: map<Slot, Block> := map[];
      var failed: set<Slot> := {};
      var pending := slots;
      while pending != {}
        invariant pending <= slots
        invariant failed == FailedSlots(slots - pending)
        invariant results == LoadedBlocks(slots - pending)
        decreases pending
      {
        var slot :| slot in pending;
        var result := LoadBlockAt(slot);
        if result.Failure? {
          failed := failed + {slot};
        } else if result.value.Some? {
          results := results[slot := result.value.value];
        }
        pending := pending - {slot};
      }
      assert slots - pending == slots;
      if failed != {} {
        r := Failure(FailedToLoadBlocks(failed));
      } else {
        r := Success(results);
      }
    }

    /** The end of the batch `preload_blocks` loads from `from` towards `max`. */
    function PreloadTo(from: Slot, max: Slot): (to: Slot)
      requires from <= max
      ensures from <= to <= max && to - from <= batchSize
      ensures to == max || to - from == batchSize
    {
      from + Min(max - from, batchSize)
    }

    /** Two adjacent ranges load the blocks of their union. */
    lemma LoadedBlocksSplit(a: Slot, b: Slot, c: Slot)
      requires a <= b <= c
      ensures LoadedBlocks(SlotRange(a, b)) + LoadedBlocks(SlotRange(b, c)) == LoadedBlocks(SlotRange(a, c))
      ensures FailedSlots(SlotRange(a, b)) + FailedSlots(SlotRange(b, c)) == FailedSlots(SlotRange(a, c))
    {
    }

    lemma MapUnionAssoc(m: map<Slot, Block>, a: map<Slot, Block>, b: map<Slot, Block>)
      ensures (m + a) + b == m + (a + b)
    {
    }

    /**
     * `preload_blocks`: loads the batch `from..to` and stores it with the
     * finalized slot, returning `to`; a batch that fails to load stores
     * nothing.
     */
    method PreloadBlocks(from: Slot, max: Slot, finalized: Slot) returns (r: Result<Slot, RomeEvmError>)
      requires from <= max
      modifies store
      ensures var batch := SlotRange(from, PreloadTo(from, max));
        && (r.Failure? <==> FailedSlots(batch) != {})
        && (r.Failure? ==> r.error == FailedToLoadBlocks(FailedSlots(batch)))
        && (r.Success? ==> r.value == PreloadTo(from, max))
        && (r.Success? ==> store.blocks == old(store.blocks) + LoadedBlocks(batch))
        && (r.Success? ==> store.storeCalls == old(store.storeCalls) + [(LoadedBlocks(batch), finalized)])
        && (r.Failure? ==> store.blocks == old(store.blocks) && store.storeCalls == old(store.storeCalls))
      ensures store.finalizedSlot == old(store.finalizedSlot)
    {
      var to := from + Min(max - from, batchSize);
      var blocks :- LoadBlocks(SlotRange(from, to));
      store.StoreBlocks(blocks, finalized);
      r := Success(to);
    }

    /**
     * `recheck_finalized_block`: looks the slot up at finalized commitment;
     * only a block whose hash differs from the stored one is reloaded (at
     * finalized commitment). A slot without a finalized block counts as
     * unchanged; a failed lookup is reported with the slot.
     */
    function RecheckFinalizedBlock(slot: Slot, block: Block): (r: Result<Option<Block>, RomeEvmError>)
      ensures var onChain := client.getBlock(slot, Finalized);
        && (onChain.Failure? ==> r == Failure(RecheckFailed(slot, onChain.error)))
        && (onChain == Success(None) ==> r == Success(None))
        && (onChain.Success? && onChain.value.Some? && onChain.value.value.blockhash == block.blockhash ==>
              r == Success(None))
        && (onChain.Success? && onChain.value.Some? && onChain.value.value.blockhash != block.blockhash ==>
              r == LoadBlock(client, Finalized, programId, slot))
    {
      match client.getBlock(slot, Finalized)
      case Failure(e) => Failure(RecheckFailed(slot, e))
      case Success(None) => Success(None)
      case Success(Some(finalizedBlock)) =>
        if finalizedBlock.blockhash != block.blockhash then LoadBlock(client, Finalized, programId, slot)
        else Success(None)
    }

    /** The slots among `blocks` whose re-check fails. */
    function RecheckFailures(blocks: map<Slot, Block>): set<Slot> {
      set s | s in blocks && RecheckFinalizedBlock(s, blocks[s]).Failure?
    }

    /** The blocks among `blocks` on the given slots that changed on-chain, as reloaded. */
    function ChangedOn(blocks: map<Slot, Block>, slots: set<Slot>): map<Slot, Block> {
      map s | s in slots && s in blocks && RecheckFinalizedBlock(s, blocks[s]).Success?
                && RecheckFinalizedBlock(s, blocks[s]).value.Some?
        :: RecheckFinalizedBlock(s, blocks[s]).value.value
    }

    /** The blocks among `blocks` that changed on-chain, as reloaded. */
    function Changed(blocks: map<Slot, Block>): map<Slot, Block> {
      ChangedOn(blocks, blocks.Keys)
    }

    lemma ChangedOnStep(blocks: map<Slot, Block>, slots: set<Slot>, slot: Slot)
      requires slot in blocks && RecheckFinalizedBlock(slot, blocks[slot]).Success?
      ensures var r := RecheckFinalizedBlock(slot, blocks[slot]);
        ChangedOn(blocks, slots + {slot})
        == if r.value.Some? then ChangedOn(blocks, slots)[slot := r.value.value] else ChangedOn(blocks, slots)
    {
    }

    /** A failing slot below every other unchecked slot is the lowest failing slot. */
    lemma FirstFailure(blocks: map<Slot, Block>, pending: set<Slot>, slot: Slot)
      requires pending <= blocks.Keys && slot in pending
      requires forall t :: t in pending ==> slot <= t
      requires forall s :: s in blocks.Keys - pending ==> RecheckFinalizedBlock(s, blocks[s]).Success?
      requires RecheckFinalizedBlock(slot, blocks[slot]).Failure?
      ensures RecheckFailures(blocks) != {} && MinOf(RecheckFailures(blocks)) == slot
    {
      assert slot in RecheckFailures(blocks);
      assert forall s :: s in RecheckFailures(blocks) ==> s in pending;
    }

    /** The event `recheck_finalized_blocks` sends for the changed blocks: their lowest slot, if any. */
    function ResetFrom(changed: map<Slot, Block>): (r: Option<Slot>)
      ensures r.None? <==> changed == map[]
      ensures r.Some? ==> r.value in changed && forall s :: s in changed ==> r.value <= s
    {
      if changed == map[] then None
      else
        assert changed.Keys != {} by {
          var s :| s in changed;
        }
        Some(MinOf(changed.Keys))
    }

    /**
     * `recheck_finalized_blocks`: re-checks the blocks in slot order. The
     * first failure in slot order is returned before anything is written or
     * sent. Otherwise the store receives exactly the changed blocks, and
     * when any changed, one event carrying the lowest changed slot is sent;
     * a send on a closed channel is ignored.
     */
    method RecheckFinalizedBlocks(blocks: map<Slot, Block>, reorg: ReorgSender) returns (r: Result<(), RomeEvmError>)
      modifies store, reorg
      ensures reorg.open == old(reorg.open)
      ensures store.finalizedSlot == old(store.finalizedSlot) && store.storeCalls == old(store.storeCalls)
      ensures RecheckFailures(blocks) != {} ==>
        && r == Failure(RecheckFinalizedBlock(MinOf(RecheckFailures(blocks)), blocks[MinOf(RecheckFailures(blocks))]).error)
        && store.blocks == old(store.blocks)
        && reorg.sent == old(reorg.sent)
      ensures RecheckFailures(blocks) == {} ==>
        && r == Success(())
        && store.blocks == old(store.blocks) + Changed(blocks)
        && reorg.sent == old(reorg.sent) + (if ResetFrom(Changed(blocks)).Some? && reorg.open
                                            then [ResetFrom(Changed(blocks)).value] else [])
    {
      var updated: map<Slot, Block> := map[];
      var done: set<Slot> := {};
      var pending := blocks.Keys;
      while pending != {}
        invariant pending == blocks.Keys - done && done <= blocks.Keys
        invariant forall s, t :: s in done && t in pending ==> s < t
        invariant forall s :: s in done ==> RecheckFinalizedBlock(s, blocks[s]).Success?
        invariant updated == ChangedOn(blocks, done)
        invariant unchanged(store, reorg)
        decreases pending
      {
        var slot := MinOf(pending);
        var result := RecheckFinalizedBlock(slot, blocks[slot]);
        if result.Failure? {
          FirstFailure(blocks, pending, slot);
          return Failure(result.error);
        }
        ChangedOnStep(blocks, done, slot);
        if result.value.Some? {
          updated := updated[slot := result.value.value];
        }
        done := done + {slot};
        pending := pending - {slot};
      }
      assert done == blocks.Keys;
      var resetFrom := ResetFrom(updated);
      store.UpdateFinalizedBlocks(updated);
      if resetFrom.Some? {
        var _ := reorg.Send(resetFrom.value);
      }
      r := Success(());
    }

    /**
     * `update_finalized_slot` on a store holding `blocks` with finalized
     * slot `finalizedSlot`, on a channel that is `open` or not: the
     * finalized slot is raised, the blocks it newly finalizes are
     * re-checked, and the changed ones stored with one event for the
     * lowest; the lowest failing slot's error stops it first.
     */
    function Finalize(blocks: map<Slot, Block>, finalizedSlot: Slot, finalized: Slot, open: bool): Effect<()> {
      var newly := Newly(blocks, finalizedSlot, finalized);
      var raised := if finalized > finalizedSlot then finalized else finalizedSlot;
      if RecheckFailures(newly) != {} then
        var lowest := MinOf(RecheckFailures(newly));
        Effect(Failure(RecheckFinalizedBlock(lowest, newly[lowest]).error), blocks, raised, [])
      else
        var reset := ResetFrom(Changed(newly));
        Effect(Success(()), blocks + Changed(newly), raised, if reset.Some? && open then [reset.value] else [])
    }

    /**
     * The finalized slot only goes up. Finalizing fails exactly when
     * re-checking a block it finalizes fails, with the error of the lowest
     * such slot, and then leaves the blocks as they were and sends
     * nothing. No slot is added or removed, and only blocks it finalizes
     * may be replaced. At most one event is sent, only on an open channel,
     * naming a slot it finalizes.
     */
    lemma FinalizeSpec(blocks: map<Slot, Block>, finalizedSlot: Slot, finalized: Slot, open: bool)
      ensures var e := Finalize(blocks, finalizedSlot, finalized, open);
        && e.finalizedSlot == (if finalized > finalizedSlot then finalized else finalizedSlot)
        && e.blocks.Keys == blocks.Keys
        && (forall s :: s in blocks && !(finalizedSlot < s <= finalized) ==> e.blocks[s] == blocks[s])
        && |e.events| <= 1 && (!open ==> e.events == [])
        && (forall i :: 0 <= i < |e.events| ==> finalizedSlot < e.events[i] <= finalized)
      ensures var e, newly := Finalize(blocks, finalizedSlot, finalized, open), Newly(blocks, finalizedSlot, finalized);
        && (e.result.Failure? <==> RecheckFailures(newly) != {})
        && (e.result.Failure? ==>
              && e.result.error == RecheckFinalizedBlock(MinOf(RecheckFailures(newly)), newly[MinOf(RecheckFailures(newly))]).error
              && e.blocks == blocks && e.events == [])
    {
      var newly := Newly(blocks, finalizedSlot, finalized);
      if RecheckFailures(newly) == {} {
        var reset := ResetFrom(Changed(newly));
        if reset.Some? {
          assert reset.value in newly;
        }
      }
    }

    /**
     * `update_finalized_slot`: records the finalized slot and re-checks the
     * blocks it finalizes; it does what `Finalize` says.
     */
    method UpdateFinalizedSlot(finalized: Slot, reorg: ReorgSender) returns (r: Result<(), RomeEvmError>)
      modifies store, reorg
      ensures var e := Finalize(old(store.blocks), old(store.finalizedSlot), finalized, old(reorg.open));
        && r == e.result && store.blocks == e.blocks && store.finalizedSlot == e.finalizedSlot
        && reorg.sent == old(reorg.sent) + e.events
      ensures store.storeCalls == old(store.storeCalls) && reorg.open == old(reorg.open)
      ensures var newly := Newly(old(store.blocks), old(store.finalizedSlot), finalized);
        && (RecheckFailures(newly) != {} ==>
              && r == Failure(RecheckFinalizedBlock(MinOf(RecheckFailures(newly)), newly[MinOf(RecheckFailures(newly))]).error)
              && store.blocks == old(store.blocks) && reorg.sent == old(reorg.sent))
        && (RecheckFailures(newly) == {} ==>
              && r == Success(())
              && store.blocks == old(store.blocks) + Changed(newly)
              && reorg.sent == old(reorg.sent) + (if ResetFrom(Changed(newly)).Some? && reorg.open
                                                  then [ResetFrom(Changed(newly)).value] else []))
    {
      var newly := store.SetFinalizedSlot(finalized);
      r := RecheckFinalizedBlocks(newly, reorg);
    }

    // -------------------------------------------------------------------
    // Backward consistency scan

    /** The block `check_batch` uses for a slot: the stored one, else a freshly loaded one, else an error naming the slot. */
    function Fetch(stored: map<Slot, Block>, slot: Slot): (r: Result<Block, RomeEvmError>)
      ensures slot in stored ==> r == Success(stored[slot])
      ensures slot !in stored ==>
        var loaded := LoadBlockAt(slot);
        && (loaded.Failure? ==> r == Failure(loaded.error))
        && (loaded == Success(None) ==> r == Failure(BlockUnavailable(slot)))
        && (loaded.Success? && loaded.value.Some? ==> r == Success(loaded.value.value))
    {
      if slot in stored then Success(stored[slot])
      else
        var loaded :- LoadBlockAt(slot);
        if loaded.None? then Failure(BlockUnavailable(slot)) else Success(loaded.value)
    }

    /**
     * The walk of `check_batch` from `current` down the parent links, with
     * `budget` slots left and the blocks visited so far in `acc`: the
     * visited blocks and the slot it stopped at.
     */
    function Walk(stored: map<Slot, Block>, start: Slot, acc: map<Slot, Block>, current: Slot, budget: nat)
      : Result<(map<Slot, Block>, Slot), RomeEvmError>
      decreases budget
    {
      if budget == 0 || current < start then Success((acc, current))
      else
        var block :- Fetch(stored, current);
        Walk(stored, start, acc[current := block], block.parentSlot, budget - 1)
    }

    /** The slots the walk visits, in order, up to and including one whose block cannot be had. */
    function Path(stored: map<Slot, Block>, start: Slot, current: Slot, budget: nat): seq<Slot>
      decreases budget
    {
      if budget == 0 || current < start then []
      else if Fetch(stored, current).Failure? then [current]
      else [current] + Path(stored, start, Fetch(stored, current).value.parentSlot, budget - 1)
    }

    /**
     * The walk's path: at most `budget` slots, each at or above `start`,
     * starting at `current` and following the parent links; only its last
     * slot can fail to give a block.
     */
    lemma {:induction false} PathShape(stored: map<Slot, Block>, start: Slot, current: Slot, budget: nat)
      ensures var p := Path(stored, start, current, budget);
        && |p| <= budget
        && (p != [] ==> p[0] == current)
        && (p == [] <==> budget == 0 || current < start)
        && (forall i :: 0 <= i < |p| ==> p[i] >= start)
        && (forall i :: 0 <= i < |p| - 1 ==> Fetch(stored, p[i]).Success? && p[i + 1] == Fetch(stored, p[i]).value.parentSlot)
      decreases budget
    {
      if budget > 0 && current >= start && Fetch(stored, current).Success? {
        var next := Fetch(stored, current).value.parentSlot;
        PathShape(stored, start, next, budget - 1);
        var p, q := Path(stored, start, current, budget), Path(stored, start, next, budget - 1);
        assert p == [current] + q;
        forall i | 0 <= i < |p| - 1 ensures Fetch(stored, p[i]).Success? && p[i + 1] == Fetch(stored, p[i]).value.parentSlot {
          if i > 0 {
            assert p[i] == q[i - 1] && p[i + 1] == q[i];
          }
        }
      }
    }

    /** Every slot of `p` gives a block. */
    predicate AllFetched(stored: map<Slot, Block>, p: seq<Slot>) {
      forall i :: 0 <= i < |p| ==> Fetch(stored, p[i]).Success?
    }

    /** A path all fetches exactly when its first slot and the rest do. */
    lemma AllFetchedCons(stored: map<Slot, Block>, x: Slot, q: seq<Slot>)
      ensures AllFetched(stored, [x] + q) <==> Fetch(stored, x).Success? && AllFetched(stored, q)
    {
      var p := [x] + q;
      if Fetch(stored, x).Success? && AllFetched(stored, q) {
        forall i | 0 <= i < |p| ensures Fetch(stored, p[i]).Success? {
          if i > 0 {
            assert p[i] == q[i - 1];
          }
        }
      }
      if AllFetched(stored, p) {
        assert p[0] == x;
        forall i | 0 <= i < |q| ensures Fetch(stored, q[i]).Success? {
          assert p[i + 1] == q[i];
        }
      }
    }

    /**
     * The walk succeeds exactly when every slot of its path gives a block;
     * a failure is that of the path's last slot.
     */
    lemma {:induction false} WalkOutcome(stored: map<Slot, Block>, start: Slot, acc: map<Slot, Block>, current: Slot, budget: nat)
      ensures var w, p := Walk(stored, start, acc, current, budget), Path(stored, start, current, budget);
        && (w.Success? <==> AllFetched(stored, p))
        && (w.Failure? ==> p != [] && Fetch(stored, p[|p| - 1]).Failure? && w.error == Fetch(stored, p[|p| - 1]).error)
      decreases budget
    {
      if budget > 0 && current >= start {
        var f := Fetch(stored, current);
        if f.Success? {
          var next := f.value.parentSlot;
          var acc' := acc[current := f.value];
          WalkOutcome(stored, start, acc', next, budget - 1);
          var p, q := Path(stored, start, current, budget), Path(stored, start, next, budget - 1);
          assert p == [current] + q;
          assert Walk(stored, start, acc, current, budget) == Walk(stored, start, acc', next, budget - 1);
          AllFetchedCons(stored, current, q);
          if q != [] {
            assert p[|p| - 1] == q[|q| - 1];
          }
        } else {
          assert Path(stored, start, current, budget)[0] == current;
        }
      }
    }

    /**
     * A successful walk adds exactly the blocks of its path to `acc`, each
     * slot mapped to its block, and keeps the rest of `acc`.
     */
    lemma {:induction false} WalkBlocks(stored: map<Slot, Block>, start: Slot, acc: map<Slot, Block>, current: Slot, budget: nat)
      requires Walk(stored, start, acc, current, budget).Success?
      ensures var blocks, p := Walk(stored, start, acc, current, budget).value.0, Path(stored, start, current, budget);
        && (forall s :: s in blocks <==> s in acc || s in p)
        && (forall s :: s in p ==> Fetch(stored, s).Success? && blocks[s] == Fetch(stored, s).value)
        && (forall s :: s in acc && s !in p ==> blocks[s] == acc[s])
      decreases budget
    {
      if budget > 0 && current >= start {
        var f := Fetch(stored, current);
        var next := f.value.parentSlot;
        WalkBlocks(stored, start, acc[current := f.value], next, budget - 1);
        var p, q := Path(stored, start, current, budget), Path(stored, start, next, budget - 1);
        assert p == [current] + q;
        forall s ensures s in p <==> s == current || s in q {
          if s in p && s != current {
            var j :| 0 <= j < |p| && p[j] == s;
            assert q[j - 1] == s;
          }
        }
      }
    }

    /**
     * A successful walk stops at the parent of its path's last slot (at
     * `current` when it visited none), which is below `start` unless the
     * budget ran out.
     */
    lemma {:induction false} WalkStop(stored: map<Slot, Block>, start: Slot, acc: map<Slot, Block>, current: Slot, budget: nat)
      requires Walk(stored, start, acc, current, budget).Success?
      ensures var stop, p := Walk(stored, start, acc, current, budget).value.1, Path(stored, start, current, budget);
        && (p == [] ==> stop == current)
        && (p != [] ==> Fetch(stored, p[|p| - 1]).Success? && stop == Fetch(stored, p[|p| - 1]).value.parentSlot)
        && (stop < start || |p| == budget)
      decreases budget
    {
      if budget > 0 && current >= start {
        var f := Fetch(stored, current);
        var next := f.value.parentSlot;
        WalkStop(stored, start, acc[current := f.value], next, budget - 1);
        var p, q := Path(stored, start, current, budget), Path(stored, start, next, budget - 1);
        assert p == [current] + q;
        if q != [] {
          assert p[|p| - 1] == q[|q| - 1];
        }
      }
    }

    /**
     * `check_batch`: walks down from `end` through at most `batchSize`
     * slots at or above `start`, taking each slot's stored block or else
     * loading it (failing when the slot has none), re-checks the visited
     * blocks, and returns the slot the walk stopped at.
     */
    method CheckBatch(start: Slot, end: Slot, reorg: ReorgSender) returns (r: Result<Slot, RomeEvmError>)
      modifies store, reorg
      ensures store.finalizedSlot == old(store.finalizedSlot) && store.storeCalls == old(store.storeCalls)
      ensures reorg.open == old(reorg.open)
      ensures var walk := Walk(old(store.blocks), start, map[], end, batchSize);
        && (walk.Failure? ==> r == Failure(walk.error) && store.blocks == old(store.blocks) && reorg.sent == old(reorg.sent))
        && (walk.Success? && RecheckFailures(walk.value.0) != {} ==>
              && r == Failure(RecheckFinalizedBlock(MinOf(RecheckFailures(walk.value.0)),
                                                    walk.value.0[MinOf(RecheckFailures(walk.value.0))]).error)
              && store.blocks == old(store.blocks) && reorg.sent == old(reorg.sent))
        && (walk.Success? && RecheckFailures(walk.value.0) == {} ==>
              && r == Success(walk.value.1)
              && store.blocks == old(store.blocks) + Changed(walk.value.0)
              && reorg.sent == old(reorg.sent) + (if ResetFrom(Changed(walk.value.0)).Some? && reorg.open
                                                  then [ResetFrom(Changed(walk.value.0)).value] else []))
    {
      var numChecked: Slot := 0;
      var current: Slot := end;
      var blocks: map<Slot, Block> := map[];
      while numChecked < batchSize && current >= start
        invariant numChecked <= batchSize
        invariant Walk(store.blocks, start, blocks, current, batchSize - numChecked) == Walk(store.blocks, start, map[], end, batchSize)
        invariant unchanged(store, reorg)
        decreases batchSize - numChecked
      {
        var block: Block;
        var stored := store.GetBlock(current);
        if stored.Some? {
          block := stored.value;
        } else {
          var loaded :- LoadBlockAt(current);
          if loaded.None? {
            return Failure(BlockUnavailable(current));
          }
          block := loaded.value;
        }
        blocks := blocks[current := block];
        current := block.parentSlot;
        numChecked := numChecked + 1;
      }
      var _ :- RecheckFinalizedBlocks(blocks, reorg);
      r := Success(current);
    }

    /**
     * `start_checking`, with the loop corrected to stop once a batch makes
     * no progress (see `ScanAsWritten`). Without an end slot it scans from
     * the last stored slot. It does nothing when the store is empty and no
     * end slot is given, when the end slot is below the start slot, or when
     * the start slot is not stored.
     */
    method StartChecking(startSlot: Slot, endSlot: Option<Slot>, reorg: ReorgSender) returns (r: Result<(), RomeEvmError>)
      modifies store, reorg
      ensures endSlot.None? && old(store.blocks) == map[] ==> r == Success(()) && unchanged(store, reorg)
      ensures endSlot.Some? && endSlot.value < startSlot ==> r == Success(()) && unchanged(store, reorg)
      ensures startSlot !in old(store.blocks) ==> r == Success(()) && unchanged(store, reorg)
      ensures store.finalizedSlot == old(store.finalizedSlot) && reorg.open == old(reorg.open)
    {
      var end: Slot;
      if endSlot.Some? {
        end := endSlot.value;
      } else {
        var last := store.GetLastSlot();
        if last.None? {
          return Success(());
        }
        end := last.value;
      }
      if end < startSlot {
        return Success(());
      }
      if store.GetBlock(startSlot).None? {
        return Success(());
      }
      while end >= startSlot
        invariant store.finalizedSlot == old(store.finalizedSlot) && reorg.open == old(reorg.open)
        decreases end
      {
        var next :- CheckBatch(startSlot, end, reorg);
        if next >= end {
          break;
        }
        end := next;
      }
      r := Success(());
    }

    /**
     * The scan loop of `start_checking` as written, `while end >= start`
     * with `end` set to what `check_batch` returns, on a store the
     * re-checks leave as it is and whose re-checks succeed: Some(result)
     * when it stops within `fuel` batches, None while it is still looping.
     */
    function ScanAsWritten(stored: map<Slot, Block>, start: Slot, end: Slot, fuel: nat): Option<Result<(), RomeEvmError>>
      decreases fuel
    {
      if end < start then Some(Success(()))
      else if fuel == 0 then None
      else match Walk(stored, start, map[], end, batchSize)
        case Failure(e) => Some(Failure(e))
        case Success(walk) => ScanAsWritten(stored, start, walk.1, fuel - 1)
    }

    /** With start slot 0 the as-written scan never finishes successfully: `end >= 0` always holds. */
    lemma {:induction false} ScanFromZeroNeverSucceeds(stored: map<Slot, Block>, end: Slot, fuel: nat)
      ensures ScanAsWritten(stored, 0, end, fuel) != Some(Success(()))
      decreases fuel
    {
      if fuel > 0 {
        var w := Walk(stored, 0, map[], end, batchSize);
        if w.Success? {
          ScanFromZeroNeverSucceeds(stored, w.value.1, fuel - 1);
        }
      }
    }

    /** A walk at the genesis block, whose parent is itself, stays there. */
    lemma {:induction false} WalkAtGenesis(stored: map<Slot, Block>, acc: map<Slot, Block>, budget: nat)
      requires 0 in stored && stored[0].parentSlot == 0
      ensures Walk(stored, 0, acc, 0, budget).Success? && Walk(stored, 0, acc, 0, budget).value.1 == 0
      decreases budget
    {
      if budget > 0 {
        WalkAtGenesis(stored, acc[0 := stored[0]], budget - 1);
      }
    }

    /**
     * Checking from the stored genesis block (slot 0, its own parent) with
     * the as-written loop never ends, whatever the number of batches.
     */
    lemma {:induction false} GenesisScanNeverEnds(stored: map<Slot, Block>, fuel: nat)
      requires 0 in stored && stored[0].parentSlot == 0
      ensures ScanAsWritten(stored, 0, 0, fuel) == None
      decreases fuel
    {
      if fuel > 0 {
        WalkAtGenesis(stored, map[], batchSize);
        GenesisScanNeverEnds(stored, fuel - 1);
      }
    }

    /**
     * The corrected scan loop on the same terms as `ScanAsWritten`: it also
     * stops once a batch ends at or above the slot it started from. It
     * needs no fuel: the end slot decreases on every batch.
     */
    function ScanCorrected(stored: map<Slot, Block>, start: Slot, end: Slot): Result<(), RomeEvmError>
      decreases end
    {
      if end < start then Success(())
      else match Walk(stored, start, map[], end, batchSize)
        case Failure(e) => Failure(e)
        case Success(walk) => if walk.1 >= end then Success(()) else ScanCorrected(stored, start, walk.1)
    }

    /**
     * The corrected scan agrees with the as-written one whenever every
     * batch moves below the slot it started from; at the genesis block,
     * where the as-written scan loops forever, it finishes.
     */
    lemma {:induction false} ScanCorrectedAgrees(stored: map<Slot, Block>, start: Slot, end: Slot, fuel: nat)
      requires ScanAsWritten(stored, start, end, fuel).Some?
      requires forall e: Slot :: Walk(stored, start, map[], e, batchSize).Success? ==> Walk(stored, start, map[], e, batchSize).value.1 < e
      ensures ScanCorrected(stored, start, end) == ScanAsWritten(stored, start, end, fuel).value
      decreases fuel
    {
      if end >= start && fuel > 0 {
        var w := Walk(stored, start, map[], end, batchSize);
        if w.Success? {
          ScanCorrectedAgrees(stored, start, w.value.1, fuel - 1);
        }
      }
    }

    lemma GenesisScanCorrectedEnds(stored: map<Slot, Block>)
      requires 0 in stored && stored[0].parentSlot == 0
      ensures ScanCorrected(stored, 0, 0) == Success(())
    {
      WalkAtGenesis(stored, map[], batchSize);
    }

    // -------------------------------------------------------------------
    // Forward sync

    /**
     * The batch loop of `preload_blocks_until_in_sync` from `current` up to
     * `to` over the stored `blocks`: the slot reached, or the first failing
     * batch's error, with the blocks stored until then.
     */
    function PreloadUntil(blocks: map<Slot, Block>, current: Slot, to: Slot): (Result<Slot, RomeEvmError>, map<Slot, Block>)
      requires batchSize > 0
      decreases (to as int) - (current as int)
    {
      if current >= to then (Success(current), blocks)
      else
        var batch := SlotRange(current, PreloadTo(current, to));
        if FailedSlots(batch) != {} then (Failure(FailedToLoadBlocks(FailedSlots(batch))), blocks)
        else PreloadUntil(blocks + LoadedBlocks(batch), PreloadTo(current, to), to)
    }

    /**
     * The batch loop reaches `to` exactly when every slot from `current` to
     * `to` loads.
     */
    lemma {:induction false} PreloadUntilSucceeds(blocks: map<Slot, Block>, current: Slot, to: Slot)
      requires batchSize > 0 && current <= to
      ensures var p := PreloadUntil(blocks, current, to);
        && (p.0.Success? <==> FailedSlots(SlotRange(current, to)) == {})
        && (p.0.Success? ==> p.0.value == to)
      decreases (to as int) - (current as int)
    {
      if current < to {
        var next := PreloadTo(current, to);
        LoadedBlocksSplit(current, next, to);
        if FailedSlots(SlotRange(current, next)) == {} {
          PreloadUntilSucceeds(blocks + LoadedBlocks(SlotRange(current, next)), next, to);
        }
      }
    }

    /** A batch loop that reaches its target has stored the blocks of every slot on the way. */
    lemma {:induction false} PreloadUntilStores(blocks: map<Slot, Block>, current: Slot, to: Slot)
      requires batchSize > 0 && current <= to
      ensures var p := PreloadUntil(blocks, current, to);
        p.0.Success? ==> p.1 == blocks + LoadedBlocks(SlotRange(current, to))
      decreases (to as int) - (current as int)
    {
      if current < to {
        var next := PreloadTo(current, to);
        var batch := LoadedBlocks(SlotRange(current, next));
        if FailedSlots(SlotRange(current, next)) == {} {
          PreloadUntilStores(blocks + batch, next, to);
          LoadedBlocksSplit(current, next, to);
          MapUnionAssoc(blocks, batch, LoadedBlocks(SlotRange(next, to)));
        }
      }
    }

    /**
     * A failing batch loop names slots from `current` to `to` that fail to
     * load; it keeps every stored slot and adds only slots of that range.
     */
    lemma {:induction false} PreloadUntilFails(blocks: map<Slot, Block>, current: Slot, to: Slot)
      requires batchSize > 0 && current <= to
      ensures var p := PreloadUntil(blocks, current, to);
        p.0.Failure? ==>
          && p.0.error.FailedToLoadBlocks? && p.0.error.slots != {}
          && p.0.error.slots <= FailedSlots(SlotRange(current, to))
          && blocks.Keys <= p.1.Keys <= blocks.Keys + LoadedBlocks(SlotRange(current, to)).Keys
      decreases (to as int) - (current as int)
    {
      if current < to {
        var next := PreloadTo(current, to);
        var batch := SlotRange(current, next);
        LoadedBlocksSplit(current, next, to);
        if FailedSlots(batch) == {} {
          var more := blocks + LoadedBlocks(batch);
          PreloadUntilFails(more, next, to);
          assert more.Keys == blocks.Keys + LoadedBlocks(batch).Keys;
        }
      }
    }

    /**
     * One answered round of `preload_blocks_until_in_sync` from the cursor
     * `from`, with the confirmed and finalized tips `tip`, on a store
     * holding `blocks` with finalized slot `finalizedSlot` and a channel
     * that is `open` or not. A confirmed tip above the cursor is loaded up
     * to and the finalized tip applied (`Finalize`): Some(tip), the new
     * cursor. Otherwise only the finalized tip is applied: None, in sync.
     * The first error ends the round with what was stored and sent.
     */
    function Round(from: Slot, tip: (Slot, Slot), blocks: map<Slot, Block>, finalizedSlot: Slot, open: bool)
      : Effect<Option<Slot>>
      requires batchSize > 0
    {
      if from < tip.0 then
        var loaded := PreloadUntil(blocks, from, tip.0);
        if loaded.0.Failure? then Effect(Failure(loaded.0.error), loaded.1, finalizedSlot, [])
        else
          var f := Finalize(loaded.1, finalizedSlot, tip.1, open);
          Effect(if f.result.Failure? then Failure(f.result.error) else Success(Some(tip.0)), f.blocks, f.finalizedSlot, f.events)
      else
        var f := Finalize(blocks, finalizedSlot, tip.1, open);
        Effect(if f.result.Failure? then Failure(f.result.error) else Success(None), f.blocks, f.finalizedSlot, f.events)
    }

    /**
     * A round keeps every stored slot. It moves the cursor exactly when the
     * confirmed tip is above it, to that tip, having stored every block up
     * to it. The finalized slot never goes down and ends at its old value
     * or the finalized tip, the latter after a successful round. It sends
     * at most one event, on an open channel only, naming a slot it
     * finalized.
     */
    lemma RoundEffect(from: Slot, tip: (Slot, Slot), blocks: map<Slot, Block>, finalizedSlot: Slot, open: bool)
      requires batchSize > 0
      ensures var e := Round(from, tip, blocks, finalizedSlot, open);
        && blocks.Keys <= e.blocks.Keys
        && (e.result.Success? ==> (e.result.value.Some? <==> from < tip.0))
        && (e.result.Success? && e.result.value.Some? ==>
              e.result.value.value == tip.0 && LoadedBlocks(SlotRange(from, tip.0)).Keys <= e.blocks.Keys)
        && e.finalizedSlot >= finalizedSlot && (e.finalizedSlot == finalizedSlot || e.finalizedSlot == tip.1)
        && (e.result.Success? ==> e.finalizedSlot >= tip.1)
        && |e.events| <= 1 && (!open ==> e.events == [])
        && (forall i :: 0 <= i < |e.events| ==> finalizedSlot < e.events[i] <= e.finalizedSlot)
    {
      var base := blocks;
      if from < tip.0 {
        PreloadUntilSucceeds(blocks, from, tip.0);
        PreloadUntilStores(blocks, from, tip.0);
        PreloadUntilFails(blocks, from, tip.0);
        base := PreloadUntil(blocks, from, tip.0).1;
      }
      FinalizeSpec(base, finalizedSlot, tip.1, open);
    }

    /**
     * A round fails only for a reason: slots at or above `from` that fail
     * to load (the error names them), or a re-check that fails with that
     * error.
     */
    lemma RoundFailure(from: Slot, tip: (Slot, Slot), blocks: map<Slot, Block>, finalizedSlot: Slot, open: bool)
      requires batchSize > 0
      ensures var e := Round(from, tip, blocks, finalizedSlot, open);
        e.result.Failure? ==>
          || (&& e.result.error.FailedToLoadBlocks? && e.result.error.slots != {}
              && forall s :: s in e.result.error.slots ==> from <= s && LoadBlockAt(s).Failure?)
          || exists s: Slot, b: Block :: RecheckFinalizedBlock(s, b) == Failure(e.result.error)
    {
      var base := blocks;
      if from < tip.0 {
        PreloadUntilFails(blocks, from, tip.0);
        if PreloadUntil(blocks, from, tip.0).0.Failure? {
          return;
        }
        base := PreloadUntil(blocks, from, tip.0).1;
      }
      var f := Finalize(base, finalizedSlot, tip.1, open);
      if f.result.Failure? {
        FinalizeSpec(base, finalizedSlot, tip.1, open);
        var newly := Newly(base, finalizedSlot, tip.1);
        var lowest := MinOf(RecheckFailures(newly));
        assert RecheckFinalizedBlock(lowest, newly[lowest]) == Failure(f.result.error);
      }
    }

    /**
     * `preload_blocks_until_in_sync` from the cursor `from`, over the
     * successive tip answers, after the events `sent`: a failed answer is
     * skipped, an answered one runs a `Round`. The sync ends in sync after
     * a round that leaves the cursor, with the first error, or polling once
     * the answers run out. The events of the result are the whole log of
     * the channel, `sent` first.
     */
    function Sync(from: Slot, tips: seq<Result<(Slot, Slot), RomeEvmError>>, blocks: map<Slot, Block>,
                  finalizedSlot: Slot, open: bool, sent: seq<Slot>): Effect<SyncOutcome>
      requires batchSize > 0
      decreases |tips|
    {
      if tips == [] then Effect(Success(Polling(from)), blocks, finalizedSlot, sent)
      else if tips[0].Failure? then Sync(from, tips[1..], blocks, finalizedSlot, open, sent)
      else
        var round := Round(from, tips[0].value, blocks, finalizedSlot, open);
        if round.result.Failure? then Effect(Failure(round.result.error), round.blocks, round.finalizedSlot, sent + round.events)
        else if round.result.value.None? then Effect(Success(InSync(from)), round.blocks, round.finalizedSlot, sent + round.events)
        else Sync(round.result.value.value, tips[1..], round.blocks, round.finalizedSlot, open, sent + round.events)
    }

    /** A successful sync ends where the cursor loop `SyncCursor` does. */
    lemma {:induction false} SyncCursorAgrees(from: Slot, tips: seq<Result<(Slot, Slot), RomeEvmError>>,
                                              blocks: map<Slot, Block>, finalizedSlot: Slot, open: bool, sent: seq<Slot>)
      requires batchSize > 0
      ensures var e := Sync(from, tips, blocks, finalizedSlot, open, sent);
        e.result.Success? ==> e.result.value == SyncCursor(from, tips)
      decreases |tips|
    {
      if tips != [] {
        if tips[0].Failure? {
          SyncCursorAgrees(from, tips[1..], blocks, finalizedSlot, open, sent);
        } else {
          var round := Round(from, tips[0].value, blocks, finalizedSlot, open);
          RoundEffect(from, tips[0].value, blocks, finalizedSlot, open);
          if round.result.Success? && round.result.value.Some? {
            SyncCursorAgrees(tips[0].value.0, tips[1..], round.blocks, round.finalizedSlot, open, sent + round.events);
          }
        }
      }
    }

    /**
     * A sync never drops a stored slot, and a successful one has stored
     * every block from `from` up to its cursor.
     */
    lemma {:induction false} SyncKeepsBlocks(from: Slot, tips: seq<Result<(Slot, Slot), RomeEvmError>>,
                                             blocks: map<Slot, Block>, finalizedSlot: Slot, open: bool, sent: seq<Slot>)
      requires batchSize > 0
      ensures var e := Sync(from, tips, blocks, finalizedSlot, open, sent);
        && blocks.Keys <= e.blocks.Keys
        && (e.result.Success? ==> from <= e.result.value.cursor
                                  && LoadedBlocks(SlotRange(from, e.result.value.cursor)).Keys <= e.blocks.Keys)
      decreases |tips|
    {
      if tips != [] {
        if tips[0].Failure? {
          SyncKeepsBlocks(from, tips[1..], blocks, finalizedSlot, open, sent);
        } else {
          var round := Round(from, tips[0].value, blocks, finalizedSlot, open);
          RoundEffect(from, tips[0].value, blocks, finalizedSlot, open);
          if round.result.Success? && round.result.value.Some? {
            var to := round.result.value.value;
            SyncKeepsBlocks(to, tips[1..], round.blocks, round.finalizedSlot, open, sent + round.events);
            var e := Sync(to, tips[1..], round.blocks, round.finalizedSlot, open, sent + round.events);
            if e.result.Success? {
              LoadedBlocksSplit(from, to, e.result.value.cursor);
            }
          }
        }
      }
    }

    /**
     * The finalized slot never goes down; it ends at its old value or at a
     * finalized tip that was answered, and after a sync that is still
     * polling it is at or above every finalized tip answered.
     */
    lemma {:induction false} SyncFinalized(from: Slot, tips: seq<Result<(Slot, Slot), RomeEvmError>>,
                                           blocks: map<Slot, Block>, finalizedSlot: Slot, open: bool, sent: seq<Slot>)
      requires batchSize > 0
      ensures var e := Sync(from, tips, blocks, finalizedSlot, open, sent);
        && e.finalizedSlot >= finalizedSlot
        && (e.finalizedSlot == finalizedSlot ||
            exists k :: 0 <= k < |tips| && tips[k].Success? && e.finalizedSlot == tips[k].value.1)
        && (e.result.Success? && e.result.value.Polling? ==>
              forall k :: 0 <= k < |tips| && tips[k].Success? ==> tips[k].value.1 <= e.finalizedSlot)
      decreases |tips|
    {
      if tips != [] {
        var tail := tips[1..];
        assert forall k :: 0 < k < |tips| ==> tips[k] == tail[k - 1];
        var start := if tips[0].Failure? then finalizedSlot
                     else Round(from, tips[0].value, blocks, finalizedSlot, open).finalizedSlot;
        if tips[0].Failure? {
          SyncFinalized(from, tail, blocks, finalizedSlot, open, sent);
        } else {
          RoundEffect(from, tips[0].value, blocks, finalizedSlot, open);
          var round := Round(from, tips[0].value, blocks, finalizedSlot, open);
          if round.result.Success? && round.result.value.Some? {
            SyncFinalized(round.result.value.value, tail, round.blocks, round.finalizedSlot, open, sent + round.events);
          }
        }
        var e := Sync(from, tips, blocks, finalizedSlot, open, sent);
        if e.finalizedSlot != finalizedSlot && e.finalizedSlot != start {
          var k :| 0 <= k < |tail| && tail[k].Success? && e.finalizedSlot == tail[k].value.1;
          assert tips[k + 1] == tail[k];
        }
      }
    }

    /**
     * A sync that ends in sync does so at an answered round whose confirmed
     * tip is at or below the cursor; the finalized slot is then at or above
     * the finalized tip of that round and of every answered round before it.
     */
    lemma {:induction false} SyncInSyncFinalized(from: Slot, tips: seq<Result<(Slot, Slot), RomeEvmError>>,
                                                 blocks: map<Slot, Block>, finalizedSlot: Slot, open: bool, sent: seq<Slot>)
      requires batchSize > 0
      ensures var e := Sync(from, tips, blocks, finalizedSlot, open, sent);
        e.result.Success? && e.result.value.InSync? ==>
          exists n :: 0 <= n < |tips| && tips[n].Success? && tips[n].value.0 <= e.result.value.cursor
                      && forall k :: 0 <= k <= n && tips[k].Success? ==> tips[k].value.1 <= e.finalizedSlot
      decreases |tips|
    {
      var e := Sync(from, tips, blocks, finalizedSlot, open, sent);
      if tips != [] && e.result.Success? && e.result.value.InSync? {
        var tail := tips[1..];
        if tips[0].Failure? {
          SyncInSyncFinalized(from, tail, blocks, finalizedSlot, open, sent);
          var n :| 0 <= n < |tail| && tail[n].Success? && tail[n].value.0 <= e.result.value.cursor
                   && forall k :: 0 <= k <= n && tail[k].Success? ==> tail[k].value.1 <= e.finalizedSlot;
          assert forall k :: 0 < k <= n + 1 ==> tips[k] == tail[k - 1];
          assert tips[n + 1] == tail[n];
        } else {
          var round := Round(from, tips[0].value, blocks, finalizedSlot, open);
          RoundEffect(from, tips[0].value, blocks, finalizedSlot, open);
          if round.result.value.None? {
            assert tips[0].value.0 <= e.result.value.cursor;
          } else {
            var to := round.result.value.value;
            SyncInSyncFinalized(to, tail, round.blocks, round.finalizedSlot, open, sent + round.events);
            SyncFinalized(to, tail, round.blocks, round.finalizedSlot, open, sent + round.events);
            var n :| 0 <= n < |tail| && tail[n].Success? && tail[n].value.0 <= e.result.value.cursor
                     && forall k :: 0 <= k <= n && tail[k].Success? ==> tail[k].value.1 <= e.finalizedSlot;
            assert forall k :: 0 < k <= n + 1 ==> tips[k] == tail[k - 1];
            assert tips[n + 1] == tail[n];
          }
        }
      }
    }

    /**
     * A sync only appends to the channel's log, nothing on a closed
     * channel. The events it appends name slots it finalized, each above
     * the old finalized slot and at or below the new one, in strictly
     * increasing order.
     */
    lemma {:induction false} SyncEvents(from: Slot, tips: seq<Result<(Slot, Slot), RomeEvmError>>,
                                        blocks: map<Slot, Block>, finalizedSlot: Slot, open: bool, sent: seq<Slot>)
      requires batchSize > 0
      ensures var e := Sync(from, tips, blocks, finalizedSlot, open, sent);
        && |sent| <= |e.events| && e.events[..|sent|] == sent
        && (!open ==> e.events == sent)
        && (forall i :: |sent| <= i < |e.events| ==> finalizedSlot < e.events[i] <= e.finalizedSlot)
        && (forall i, j :: |sent| <= i < j < |e.events| ==> e.events[i] < e.events[j])
      decreases |tips|
    {
      if tips != [] {
        if tips[0].Failure? {
          SyncEvents(from, tips[1..], blocks, finalizedSlot, open, sent);
        } else {
          var round := Round(from, tips[0].value, blocks, finalizedSlot, open);
          RoundEffect(from, tips[0].value, blocks, finalizedSlot, open);
          var after := sent + round.events;
          assert after[..|sent|] == sent;
          if round.result.Success? && round.result.value.Some? {
            var to := round.result.value.value;
            SyncEvents(to, tips[1..], round.blocks, round.finalizedSlot, open, after);
            SyncFinalized(to, tips[1..], round.blocks, round.finalizedSlot, open, after);
            var e := Sync(to, tips[1..], round.blocks, round.finalizedSlot, open, after);
            assert e.events[..|sent|] == after[..|sent|];
            forall i | |sent| <= i < |after| ensures e.events[i] == round.events[i - |sent|] {
              assert e.events[i] == e.events[..|after|][i];
            }
          }
        }
      }
    }

    /**
     * A sync fails only for a reason: either slots at or above `from` that
     * fail to load (the error names them), or a re-check that fails with
     * that error.
     */
    lemma {:induction false} SyncFailure(from: Slot, tips: seq<Result<(Slot, Slot), RomeEvmError>>,
                                         blocks: map<Slot, Block>, finalizedSlot: Slot, open: bool, sent: seq<Slot>)
      requires batchSize > 0
      ensures var e := Sync(from, tips, blocks, finalizedSlot, open, sent);
        e.result.Failure? ==>
          || (&& e.result.error.FailedToLoadBlocks? && e.result.error.slots != {}
              && forall s :: s in e.result.error.slots ==> from <= s && LoadBlockAt(s).Failure?)
          || exists s: Slot, b: Block :: RecheckFinalizedBlock(s, b) == Failure(e.result.error)
      decreases |tips|
    {
      if tips != [] {
        if tips[0].Failure? {
          SyncFailure(from, tips[1..], blocks, finalizedSlot, open, sent);
        } else {
          var round := Round(from, tips[0].value, blocks, finalizedSlot, open);
          RoundEffect(from, tips[0].value, blocks, finalizedSlot, open);
          RoundFailure(from, tips[0].value, blocks, finalizedSlot, open);
          if round.result.Success? && round.result.value.Some? {
            SyncFailure(round.result.value.value, tips[1..], round.blocks, round.finalizedSlot, open, sent + round.events);
          }
        }
      }
    }

    /**
     * So a sync on a ledger where every slot loads and every re-check
     * query answers succeeds, whatever the tips answered.
     */
    lemma SyncSucceeds(from: Slot, tips: seq<Result<(Slot, Slot), RomeEvmError>>,
                       blocks: map<Slot, Block>, finalizedSlot: Slot, open: bool, sent: seq<Slot>)
      requires batchSize > 0
      requires forall s: Slot :: LoadBlockAt(s).Success?
      requires forall s: Slot :: client.getBlock(s, Finalized).Success? && LoadBlock(client, Finalized, programId, s).Success?
      ensures Sync(from, tips, blocks, finalizedSlot, open, sent).result.Success?
    {
      SyncFailure(from, tips, blocks, finalizedSlot, open, sent);
    }

    /** The batch loop of `preload_blocks_until_in_sync`: it does what `PreloadUntil` says. */
    method PreloadRange(from: Slot, to: Slot, finalized: Slot) returns (r: Result<Slot, RomeEvmError>)
      requires batchSize > 0
      modifies store
      ensures (r, store.blocks) == PreloadUntil(old(store.blocks), from, to)
      ensures store.finalizedSlot == old(store.finalizedSlot)
    {
      var current: Slot := from;
      while current < to
        invariant from <= current
        invariant PreloadUntil(store.blocks, current, to) == PreloadUntil(old(store.blocks), from, to)
        invariant store.finalizedSlot == old(store.finalizedSlot)
        decreases (to as int) - (current as int)
      {
        var next :- PreloadBlocks(current, to, finalized);
        current := next;
      }
      r := Success(current);
    }

    /** One answered round of `preload_blocks_until_in_sync`: it does what `Round` says. */
    method SyncRound(cursor: Slot, to: Slot, finalized: Slot, reorg: ReorgSender) returns (r: Result<Option<Slot>, RomeEvmError>)
      requires batchSize > 0
      modifies store, reorg
      ensures var e := Round(cursor, (to, finalized), old(store.blocks), old(store.finalizedSlot), old(reorg.open));
        && r == e.result && store.blocks == e.blocks && store.finalizedSlot == e.finalizedSlot
        && reorg.sent == old(reorg.sent) + e.events
      ensures reorg.open == old(reorg.open)
    {
      if cursor < to {
        var _ :- PreloadRange(cursor, to, finalized);
        var _ :- UpdateFinalizedSlot(finalized, reorg);
        r := Success(Some(to));
      } else {
        var _ :- UpdateFinalizedSlot(finalized, reorg);
        r := Success(None);
      }
    }

    /**
     * `preload_blocks_until_in_sync`, over the successive answers of the
     * two tip queries: it does what `Sync` says, on the store and channel
     * as they were.
     */
    method PreloadBlocksUntilInSync(from: Slot, answers: seq<(Result<Slot, RomeEvmError>, Result<Slot, RomeEvmError>)>,
                                    reorg: ReorgSender)
      returns (r: Result<SyncOutcome, RomeEvmError>)
      requires batchSize > 0
      modifies store, reorg
      ensures Effect(r, store.blocks, store.finalizedSlot, reorg.sent)
              == Sync(from, Tips(answers), old(store.blocks), old(store.finalizedSlot), old(reorg.open), old(reorg.sent))
      ensures reorg.open == old(reorg.open)
      ensures r.Success? ==> r.value == SyncCursor(from, Tips(answers))
      ensures old(store.blocks).Keys <= store.blocks.Keys
      ensures r.Success? ==> LoadedBlocks(SlotRange(from, r.value.cursor)).Keys <= store.blocks.Keys
    {
      ghost var whole := Sync(from, Tips(answers), store.blocks, store.finalizedSlot, reorg.open, reorg.sent);
      SyncCursorAgrees(from, Tips(answers), store.blocks, store.finalizedSlot, reorg.open, reorg.sent);
      SyncKeepsBlocks(from, Tips(answers), store.blocks, store.finalizedSlot, reorg.open, reorg.sent);
      var cursor := from;
      var pending := answers;
      while pending != []
        invariant reorg.open == old(reorg.open)
        invariant Sync(cursor, Tips(pending), store.blocks, store.finalizedSlot, reorg.open, reorg.sent) == whole
      {
        TipsTail(pending);
        var latest := GetLatestSlots(pending[0].0, pending[0].1);
        if latest.Success? {
          var next :- SyncRound(cursor, latest.value.0, latest.value.1, reorg);
          if next.None? {
            return Success(InSync(cursor));
          }
          cursor := next.value;
        }
        pending := pending[1..];
      }
      r := Success(Polling(cursor));
    }

    /**
     * The start of `start_loading`: the cursor starts at the last stored
     * slot, else at `startSlot`, else the loader fails; then it syncs.
     */
    method StartLoading(startSlot: Option<Slot>, answers: seq<(Result<Slot, RomeEvmError>, Result<Slot, RomeEvmError>)>,
                        reorg: ReorgSender)
      returns (r: Result<SyncOutcome, RomeEvmError>)
      requires batchSize > 0
      modifies store, reorg
      ensures StartCursor(old(store.GetLastSlot()), startSlot).Failure? ==> r == Failure(NoStartSlot) && unchanged(store, reorg)
      ensures r.Success? ==>
        && StartCursor(old(store.GetLastSlot()), startSlot).Success?
        && r.value == SyncCursor(StartCursor(old(store.GetLastSlot()), startSlot).value, Tips(answers))
      ensures StartCursor(old(store.GetLastSlot()), startSlot).Success? ==>
        Effect(r, store.blocks, store.finalizedSlot, reorg.sent)
        == Sync(StartCursor(old(store.GetLastSlot()), startSlot).value, Tips(answers),
                old(store.blocks), old(store.finalizedSlot), old(reorg.open), old(reorg.sent))
    {
      var from :- StartCursor(store.GetLastSlot(), startSlot);
      r := PreloadBlocksUntilInSync(from, answers, reorg);
    }

    /**
     * One turn of the endless loop of `start_loading`: a sync that fails
     * leaves the cursor where it was; otherwise the cursor moves to where
     * the sync got, never below where it was.
     */
    method LoadingIteration(from: Slot, answers: seq<(Result<Slot, RomeEvmError>, Result<Slot, RomeEvmError>)>,
                            reorg: ReorgSender)
      returns (cursor: Slot, outcome: Result<SyncOutcome, RomeEvmError>)
      requires batchSize > 0
      modifies store, reorg
      ensures Effect(outcome, store.blocks, store.finalizedSlot, reorg.sent)
              == Sync(from, Tips(answers), old(store.blocks), old(store.finalizedSlot), old(reorg.open), old(reorg.sent))
      ensures outcome.Failure? ==> cursor == from
      ensures outcome.Success? ==> outcome.value == SyncCursor(from, Tips(answers)) && cursor == outcome.value.cursor
      ensures cursor >= from
    {
      outcome := PreloadBlocksUntilInSync(from, answers, reorg);
      if outcome.Success? {
        SyncCursorSpec(from, Tips(answers));
        cursor := outcome.value.cursor;
      } else {
        cursor := from;
      }
    }
  }
}
