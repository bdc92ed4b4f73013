/**
 * The block storage the loader writes to (`SolanaBlockStorage`) and the
 * channel it signals reorganisations on. Both are collaborators whose code
 * is not part of this model; they are kept in memory here, never fail, and
 * follow the behaviour their callers rely on.
 */
module BlockStorage {
  import opened Wrappers
  import opened Bytes
  import opened SolanaRpc

  predicate IsLeast(m: Slot, s: set<Slot>) {
    m in s && forall x :: x in s ==> m <= x
  }

  predicate IsGreatest(m: Slot, s: set<Slot>) {
    m in s && forall x :: x in s ==> x <= m
  }

  lemma {:induction false} LeastExists(s: set<Slot>)
    requires s != {}
    ensures exists m :: IsLeast(m, s)
    decreases |s|
  {
    var y :| y in s;
    if s == {y} {
      assert IsLeast(y, s);
    } else {
      var rest := s - {y};
      LeastExists(rest);
      var lo :| IsLeast(lo, rest);
      assert forall x :: x in s ==> x == y || x in rest;
      if y < lo {
        assert IsLeast(y, s);
      } else {
        assert IsLeast(lo, s);
      }
    }
  }

  lemma {:induction false} GreatestExists(s: set<Slot>)
    requires s != {}
    ensures exists m :: IsGreatest(m, s)
    decreases |s|
  {
    var y :| y in s;
    if s == {y} {
      assert IsGreatest(y, s);
    } else {
      var rest := s - {y};
      GreatestExists(rest);
      var hi :| IsGreatest(hi, rest);
      assert forall x :: x in s ==> x == y || x in rest;
      if y > hi {
        assert IsGreatest(y, s);
      } else {
        assert IsGreatest(hi, s);
      }
    }
  }

  /** The least element of a non-empty set of slots. */
  function MinOf(s: set<Slot>): (m: Slot)
    requires s != {}
    ensures m in s && forall x :: x in s ==> m <= x
  {
    LeastExists(s);
    var m :| IsLeast(m, s);
    m
  }

  /** The greatest element of a non-empty set of slots. */
  function MaxOf(s: set<Slot>): (m: Slot)
    requires s != {}
    ensures m in s && forall x :: x in s ==> x <= m
  {
    GreatestExists(s);
    var m :| IsGreatest(m, s);
    m
  }

  /** The blocks among `blocks` that a finalized slot moving from `previous` to `slot` finalizes. */
  function Newly(blocks: map<Slot, Block>, previous: Slot, slot: Slot): (r: map<Slot, Block>)
    ensures forall s :: s in r <==> s in blocks && previous < s <= slot
    ensures forall s :: s in r ==> r[s] == blocks[s]
  {
    map s | s in blocks && previous < s <= slot :: blocks[s]
  }

  class BlockStore {
    /** The stored blocks by slot. */
    var blocks: map<Slot, Block>
    /** The highest slot known to be finalized. */
    var finalizedSlot: Slot
    /** Every `store_blocks` call: the blocks and the finalized slot passed with them. */
    ghost var storeCalls: seq<(map<Slot, Block>, Slot)>

    constructor (blocks: map<Slot, Block>, finalizedSlot: Slot)
      ensures this.blocks == blocks && this.finalizedSlot == finalizedSlot && storeCalls == []
    {
      this.blocks := blocks;
      this.finalizedSlot := finalizedSlot;
      storeCalls := [];
    }

    /** `get_last_slot`: the highest stored slot, None when the store is empty. */
    function GetLastSlot(): (r: Option<Slot>)
      reads this
      ensures r.None? <==> blocks == map[]
      ensures r.Some? ==> r.value in blocks && forall s :: s in blocks ==> s <= r.value
    {
      if blocks == map[] then None
      else
        assert blocks.Keys != {} by {
          var s :| s in blocks;
        }
        Some(MaxOf(blocks.Keys))
    }

    /** `get_block`. */
    function GetBlock(slot: Slot): (r: Option<Block>)
      reads this
      ensures r.Some? <==> slot in blocks
      ensures r.Some? ==> r.value == blocks[slot]
    {
      if slot in blocks then Some(blocks[slot]) else None
    }

    /** `store_blocks`: the given blocks are added, replacing stored ones on the same slots. */
    method StoreBlocks(newBlocks: map<Slot, Block>, finalized: Slot)
      modifies this
      ensures blocks == old(blocks) + newBlocks
      ensures finalizedSlot == old(finalizedSlot)
      ensures storeCalls == old(storeCalls) + [(newBlocks, finalized)]
    {
      blocks := blocks + newBlocks;
      storeCalls := storeCalls + [(newBlocks, finalized)];
    }

    /**
     * `set_finalized_slot`: records a finalized slot and yields the stored
     * blocks that it finalizes, those above the previous finalized slot and
     * at or below the new one.
     */
    method SetFinalizedSlot(slot: Slot) returns (finalized: map<Slot, Block>)
      modifies this
      ensures finalized == Newly(blocks, old(finalizedSlot), slot)
      ensures finalizedSlot == (if slot > old(finalizedSlot) then slot else old(finalizedSlot))
      ensures blocks == old(blocks) && storeCalls == old(storeCalls)
    {
      finalized := Newly(blocks, finalizedSlot, slot);
      if slot > finalizedSlot {
        finalizedSlot := slot;
      }
    }

    /** `update_finalized_blocks`: the given blocks replace the stored ones. */
    method UpdateFinalizedBlocks(updated: map<Slot, Block>)
      modifies this
      ensures blocks == old(blocks) + updated
      ensures finalizedSlot == old(finalizedSlot) && storeCalls == old(storeCalls)
    {
      blocks := blocks + updated;
    }
  }

  /**
   * The sending half of the reorg-event channel. A send on a closed channel
   * fails and delivers nothing; `sent` is what the receiver got.
   */
  class ReorgSender {
    var open: bool
    ghost var sent: seq<Slot>

    constructor (open: bool)
      ensures this.open == open && sent == []
    {
      this.open := open;
      sent := [];
    }

    method Send(slot: Slot) returns (delivered: bool)
      modifies this
      ensures delivered == open && open == old(open)
      ensures sent == if open then old(sent) + [slot] else old(sent)
    {
      delivered := open;
      if open {
        sent := sent + [slot];
      }
    }
  }
}
