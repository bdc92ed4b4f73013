/**
 * `TransmitTx` (rome-evm-client `tx/transmit_tx.rs`): writes a signed RLP
 * transaction into a holder account in 800-byte pieces, twelve pieces per
 * parallel step.
 */
module Transmit {
  import opened Wrappers
  import opened Bytes
  import opened Errors
  import opened IxBatch
  import opened Emulator

  /** Bytes of RLP carried by one transmit instruction. */
  const TRANSMIT_TX_SIZE: nat := 800
  /** `solana_program::entrypoint::MAX_PERMITTED_DATA_INCREASE`. */
  const MAX_PERMITTED_DATA_INCREASE: nat := 10 * 1024
  /** Transmit instructions sent together in one parallel step. */
  const GROUP_SIZE: nat := MAX_PERMITTED_DATA_INCREASE / TRANSMIT_TX_SIZE

  datatype Steps = Init | Execute(batches: seq<seq<AtomicIxBatch>>) | Complete

  function Rank(s: Steps): nat {
    match s
    case Init => 2
    case Execute(_) => 1
    case Complete => 0
  }

  /** The groups the transmit batches are sent in, first group first. */
  function Groups(ixs: seq<AtomicIxBatch>): seq<seq<AtomicIxBatch>> {
    Chunks(ixs, GROUP_SIZE)
  }

  /**
   * One `advance` of the machine, given what `ixs()` yields for this
   * transaction. `Execute` keeps its groups in reverse, so that popping
   * from the end yields the first remaining group.
   */
  function Transition(s: Steps, ixs: Result<seq<AtomicIxBatch>, RomeEvmError>)
    : (Steps, Result<IxExecStepBatch, RomeEvmError>)
    decreases Rank(s)
  {
    match s
    case Init =>
      if ixs.Failure? then (Init, Failure(ixs.error))
      else Transition(Execute(Reverse(Groups(ixs.value))), ixs)
    case Execute(batches) =>
      if batches == [] then Transition(Complete, ixs)
      else (Execute(batches[..|batches| - 1]), Success(Parallel(batches[|batches| - 1])))
    case Complete => (Complete, Success(End))
  }

  /** The results of n successive `advance` calls from state s. */
  function Run(s: Steps, ixs: Result<seq<AtomicIxBatch>, RomeEvmError>, n: nat)
    : (rs: seq<Result<IxExecStepBatch, RomeEvmError>>)
    ensures |rs| == n
    decreases n
  {
    if n == 0 then []
    else
      var (next, r) := Transition(s, ixs);
      [r] + Run(next, ixs, n - 1)
  }

  /**
   * From `Execute(batches)`, the pending groups (the batches read from the
   * end) are emitted one per call, each exactly once, and every later call
   * returns `End`.
   */
  lemma {:induction false} RunFromExecute(batches: seq<seq<AtomicIxBatch>>, ixs: Result<seq<AtomicIxBatch>, RomeEvmError>, n: nat)
    ensures forall i :: 0 <= i < n && i < |batches| ==>
      Run(Execute(batches), ixs, n)[i] == Success(Parallel(batches[|batches| - 1 - i]))
    ensures forall i :: |batches| <= i < n ==> Run(Execute(batches), ixs, n)[i] == Success(End)
  {
    if n > 0 {
      if batches == [] {
        RunFromComplete(ixs, n - 1);
        assert Run(Execute([]), ixs, n) == [Success(End)] + Run(Complete, ixs, n - 1);
      } else {
        var rest := batches[..|batches| - 1];
        RunFromExecute(rest, ixs, n - 1);
        var rs := Run(Execute(batches), ixs, n);
        assert rs == [Success(Parallel(batches[|batches| - 1]))] + Run(Execute(rest), ixs, n - 1);
        forall i | 0 < i < n && i < |batches|
          ensures rs[i] == Success(Parallel(batches[|batches| - 1 - i]))
        {
          assert rs[i] == Run(Execute(rest), ixs, n - 1)[i - 1];
        }
        forall i | |batches| <= i < n ensures rs[i] == Success(End) {
          assert rs[i] == Run(Execute(rest), ixs, n - 1)[i - 1];
        }
      }
    }
  }

  /** Once complete, the machine answers `End` forever. */
  lemma {:induction false} RunFromComplete(ixs: Result<seq<AtomicIxBatch>, RomeEvmError>, n: nat)
    ensures forall i :: 0 <= i < n ==> Run(Complete, ixs, n)[i] == Success(End)
  {
    if n > 0 {
      RunFromComplete(ixs, n - 1);
      var rs := Run(Complete, ixs, n);
      assert rs == [Success(End)] + Run(Complete, ixs, n - 1);
      forall i | 0 < i < n ensures rs[i] == Success(End) {
        assert rs[i] == Run(Complete, ixs, n - 1)[i - 1];
      }
    }
  }

  /**
   * A fresh transaction whose instructions build emits the groups of its
   * instructions in chunk order, one `Parallel` per call, and then `End`
   * forever: the number of non-`End` results is the number of groups.
   */
  lemma {:induction false} RunFromInit(ixs: seq<AtomicIxBatch>, n: nat)
    ensures forall i :: 0 <= i < n && i < |Groups(ixs)| ==>
      Run(Init, Success(ixs), n)[i] == Success(Parallel(Groups(ixs)[i]))
    ensures forall i :: |Groups(ixs)| <= i < n ==> Run(Init, Success(ixs), n)[i] == Success(End)
  {
    var batches := Reverse(Groups(ixs));
    if n > 0 {
      assert Run(Init, Success(ixs), n) == Run(Execute(batches), Success(ixs), n);
    }
    RunFromExecute(batches, Success(ixs), n);
  }

  /** When the instructions cannot be built, every call fails with that error and the machine stays at `Init`. */
  lemma {:induction false} RunFromInitFailing(e: RomeEvmError, n: nat)
    ensures Transition(Init, Failure(e)) == (Init, Failure(e))
    ensures forall i :: 0 <= i < n ==> Run(Init, Failure(e), n)[i] == Failure(e)
  {
    if n > 0 {
      RunFromInitFailing(e, n - 1);
      var rs := Run(Init, Failure(e), n);
      forall i | 0 < i < n ensures rs[i] == Failure(e) {
        assert rs[i] == Run(Init, Failure(e), n - 1)[i - 1];
      }
    }
  }

  /**
   * The RLP chunking of `ixs`: chunk i starts at the total length of the
   * chunks before it, the chunks are 1 to 800 bytes long and concatenate
   * back to the RLP.
   */
  lemma RlpChunks(rlp: ByteVec)
    ensures Flatten(Chunks(rlp, TRANSMIT_TX_SIZE)) == rlp
    ensures forall i :: 0 <= i < |Chunks(rlp, TRANSMIT_TX_SIZE)| ==>
      0 < |Chunks(rlp, TRANSMIT_TX_SIZE)[i]| <= TRANSMIT_TX_SIZE
    ensures forall i :: 0 <= i < |Chunks(rlp, TRANSMIT_TX_SIZE)| ==>
      var cs := Chunks(rlp, TRANSMIT_TX_SIZE);
      Offset(cs, i) + |cs[i]| <= |rlp| && rlp[Offset(cs, i)..Offset(cs, i) + |cs[i]|] == cs[i]
  {
    var cs := Chunks(rlp, TRANSMIT_TX_SIZE);
    ChunksFlatten(rlp, TRANSMIT_TX_SIZE);
    ChunksSizes(rlp, TRANSMIT_TX_SIZE);
    forall i | 0 <= i < |cs|
      ensures Offset(cs, i) + |cs[i]| <= |rlp| && rlp[Offset(cs, i)..Offset(cs, i) + |cs[i]|] == cs[i]
    {
      OffsetSlice(cs, i);
    }
  }

  class TransmitTx {
    const txBuilder: TxBuilder
    const rlp: ByteVec
    const hash: seq<Byte>
    const resource: Resource
    const tags: InstructionTags
    var step: Steps

    /** `TransmitTx::new`: a transaction not yet started. */
    constructor (txBuilder: TxBuilder, resource: Resource, rlp: ByteVec, hash: seq<Byte>, tags: InstructionTags)
      ensures this.txBuilder == txBuilder && this.resource == resource
      ensures this.rlp == rlp && this.hash == hash && this.tags == tags
      ensures step == Init
    {
      this.txBuilder := txBuilder;
      this.resource := resource;
      this.rlp := rlp;
      this.hash := hash;
      this.tags := tags;
      step := Init;
    }

    /**
     * `tx_data`: the transmit tag, the holder, the offset (8 bytes, little
     * endian), the transaction hash, the chain id (8 bytes, little endian)
     * and the payload, in that order.
     */
    function TxData(offset: U64, bin: seq<Byte>): (data: seq<Byte>)
      ensures var h, k := |resource.holder|, |hash|;
        && |data| == 17 + h + k + |bin|
        && data[0] == tags.transmitTx
        && data[1..1 + h] == resource.holder
        && FromLe(data[1 + h..9 + h]) == offset
        && data[9 + h..9 + h + k] == hash
        && FromLe(data[9 + h + k..17 + h + k]) == txBuilder.chainId
        && data[17 + h + k..] == bin
    {
      var h, k := |resource.holder|, |hash|;
      var data := [tags.transmitTx] + resource.holder + Le8(offset) + hash + Le8(txBuilder.chainId) + bin;
      assert data[1 + h..9 + h] == Le8(offset);
      assert data[9 + h + k..17 + h + k] == Le8(txBuilder.chainId);
      data
    }

    /**
     * The offset of RLP chunk i: 0 for the first chunk, within the RLP,
     * and the RLP's length past the last chunk. `ChunkOffsetStep` gives the
     * running sum `ixs` threads.
     */
    function ChunkOffset(i: nat): (offset: U64)
      requires i <= |Chunks(rlp, TRANSMIT_TX_SIZE)|
      ensures i == 0 ==> offset == 0
      ensures offset <= |rlp|
      ensures i == |Chunks(rlp, TRANSMIT_TX_SIZE)| ==> offset == |rlp|
    {
      var cs := Chunks(rlp, TRANSMIT_TX_SIZE);
      ChunksFlatten(rlp, TRANSMIT_TX_SIZE);
      OffsetBound(cs, i);
      assert cs[..0] == [];
      assert cs[..|cs|] == cs;
      Offset(cs, i)
    }

    /** The next offset is the previous one plus the previous chunk's length. */
    lemma ChunkOffsetStep(i: nat)
      requires i < |Chunks(rlp, TRANSMIT_TX_SIZE)|
      ensures ChunkOffset(i + 1) == ChunkOffset(i) + |Chunks(rlp, TRANSMIT_TX_SIZE)[i]|
    {
      OffsetStep(Chunks(rlp, TRANSMIT_TX_SIZE), i);
    }

    /** Each chunk is the slice of the RLP that starts at its offset. */
    lemma ChunkAtOffset(i: nat)
      requires i < |Chunks(rlp, TRANSMIT_TX_SIZE)|
      ensures var chunk := Chunks(rlp, TRANSMIT_TX_SIZE)[i];
        ChunkOffset(i) + |chunk| <= |rlp| && rlp[ChunkOffset(i)..ChunkOffset(i) + |chunk|] == chunk
    {
      ChunksFlatten(rlp, TRANSMIT_TX_SIZE);
      OffsetSlice(Chunks(rlp, TRANSMIT_TX_SIZE), i);
    }

    /** The batch for RLP chunk i: one instruction carrying the chunk at its offset. */
    function ChunkBatch(emulation: Emulation, i: nat): AtomicIxBatch
      requires i < |Chunks(rlp, TRANSMIT_TX_SIZE)|
    {
      NewOwned([txBuilder.buildIx(emulation, TxData(ChunkOffset(i), Chunks(rlp, TRANSMIT_TX_SIZE)[i]))])
    }

    /** What `ixs` yields: one single-instruction batch per RLP chunk, in chunk order. */
    function IxsSpec(): Result<seq<AtomicIxBatch>, RomeEvmError> {
      match txBuilder.emulate(TxData(0, rlp), resource.PayerKey())
      case Failure(e) => Failure(e)
      case Success(emulation) =>
        var n := |Chunks(rlp, TRANSMIT_TX_SIZE)|;
        Success(seq(n, i requires 0 <= i < n => ChunkBatch(emulation, i)))
    }

    /**
     * The chunk pipeline of `ixs`: one single-instruction batch per RLP
     * chunk, threading a running offset.
     */
    method ChunkIxs(emulation: Emulation) returns (ixs: seq<AtomicIxBatch>)
      ensures |ixs| == |Chunks(rlp, TRANSMIT_TX_SIZE)|
      ensures forall j :: 0 <= j < |ixs| ==> ixs[j] == ChunkBatch(emulation, j)
    {
      var chunks := Chunks(rlp, TRANSMIT_TX_SIZE);
      var offset: U64 := 0;
      ixs := [];
      var i := 0;
      while i < |chunks|
        invariant i <= |chunks|
        invariant offset == ChunkOffset(i)
        invariant |ixs| == i
        invariant forall j :: 0 <= j < i ==> ixs[j] == ChunkBatch(emulation, j)
      {
        ChunkOffsetStep(i);
        var newOffset: U64 := offset + |chunks[i]|;
        var data := TxData(offset, chunks[i]);
        offset := newOffset;
        ixs := ixs + [NewOwned([txBuilder.buildIx(emulation, data)])];
        i := i + 1;
      }
    }

    /**
     * `ixs`: emulates the whole transaction, then builds the chunk
     * instructions threading a running offset.
     */
    method Ixs() returns (r: Result<seq<AtomicIxBatch>, RomeEvmError>)
      ensures r == IxsSpec()
      ensures r.Success? ==> |r.value| == |Chunks(rlp, TRANSMIT_TX_SIZE)|
      ensures r.Success? ==> forall i :: 0 <= i < |r.value| ==> |r.value[i].Deref()| == 1
    {
      var emulation :- txBuilder.emulate(TxData(0, rlp), resource.PayerKey());
      var ixs := ChunkIxs(emulation);
      r := Success(ixs);
      assert ixs == IxsSpec().value;
    }

    /**
     * `advance`: `Init` builds the instructions and groups them; each
     * `Execute` call pops one group; an empty `Execute` completes.
     */
    method Advance() returns (r: Result<IxExecStepBatch, RomeEvmError>)
      modifies this
      ensures (step, r) == Transition(old(step), IxsSpec())
      decreases Rank(step)
    {
      match step {
        case Init =>
          var ixs :- Ixs();
          var batches := Groups(ixs);
          batches := Reverse(batches);
          step := Execute(batches);
          r := Advance();
        case Execute(batches) =>
          if batches != [] {
            var batch := batches[|batches| - 1];
            step := Execute(batches[..|batches| - 1]);
            r := Success(Parallel(batch));
          } else {
            step := Complete;
            r := Advance();
          }
        case Complete =>
          r := Success(End);
      }
    }
  }
}
