/**
 * `IterativeTxHolder` (rome-evm-client `tx/iterative_holder.rs`): first
 * transmits the RLP transaction into the holder account through an inner
 * `TransmitTx`, then executes it in many iterative instructions sent
 * together, then asks once whether it completed.
 */
module Iterative {
  import opened Wrappers
  import opened Bytes
  import opened Errors
  import opened IxBatch
  import opened Emulator
  import T = Transmit

  datatype Steps = Transmit | Execute | Confirm | End

  function Rank(s: Steps): nat {
    match s
    case Transmit => 3
    case Execute => 2
    case Confirm => 1
    case End => 0
  }

  /** What the `Confirm` step reports for the answer of `confirm_tx_iterative`: an error counts as "not confirmed". */
  function Confirmed(confirm: Result<bool, RomeEvmError>): bool {
    confirm.Success? && confirm.value
  }

  /**
   * One `advance` of the holder. The state is the holder's step and the
   * inner transmitter's step; `txIxs` is what the inner transmitter's `ixs`
   * yields, `ixs` what the holder's own `ixs` yields and `confirm` the
   * answer of `confirm_tx_iterative`.
   */
  function Transition(s: Steps, ts: T.Steps, txIxs: Result<seq<AtomicIxBatch>, RomeEvmError>,
                      ixs: Result<seq<AtomicIxBatch>, RomeEvmError>, confirm: Result<bool, RomeEvmError>)
    : (Steps, T.Steps, Result<IxExecStepBatch, RomeEvmError>)
    decreases Rank(s)
  {
    match s
    case Transmit =>
      var (ts', r) := T.Transition(ts, txIxs);
      if r == Success(IxExecStepBatch.End) then Transition(Execute, ts', txIxs, ixs, confirm)
      else (Transmit, ts', r)
    case Execute =>
      (Confirm, ts, if ixs.Success? then Success(ParallelUnchecked(ixs.value)) else Failure(ixs.error))
    case Confirm =>
      (Steps.End, ts, Success(ConfirmationIterativeTx(Confirmed(confirm))))
    case End =>
      (Steps.End, ts, Success(IxExecStepBatch.End))
  }

  /** The results of n successive `advance` calls. */
  function Run(s: Steps, ts: T.Steps, txIxs: Result<seq<AtomicIxBatch>, RomeEvmError>,
               ixs: Result<seq<AtomicIxBatch>, RomeEvmError>, confirm: Result<bool, RomeEvmError>, n: nat)
    : (rs: seq<Result<IxExecStepBatch, RomeEvmError>>)
    ensures |rs| == n
    decreases n
  {
    if n == 0 then []
    else
      var (s', ts', r) := Transition(s, ts, txIxs, ixs, confirm);
      [r] + Run(s', ts', txIxs, ixs, confirm, n - 1)
  }

  /** What the `Execute` step returns for the holder's instructions. */
  function ExecuteResult(ixs: Result<seq<AtomicIxBatch>, RomeEvmError>): Result<IxExecStepBatch, RomeEvmError> {
    if ixs.Success? then Success(ParallelUnchecked(ixs.value)) else Failure(ixs.error)
  }

  /** Once finished, the holder answers `End` forever and the inner transmitter is left alone. */
  lemma {:induction false} RunFromEnd(ts: T.Steps, txIxs: Result<seq<AtomicIxBatch>, RomeEvmError>,
                                      ixs: Result<seq<AtomicIxBatch>, RomeEvmError>, confirm: Result<bool, RomeEvmError>, n: nat)
    ensures forall i :: 0 <= i < n ==> Run(Steps.End, ts, txIxs, ixs, confirm, n)[i] == Success(IxExecStepBatch.End)
  {
    if n > 0 {
      RunFromEnd(ts, txIxs, ixs, confirm, n - 1);
      var rs := Run(Steps.End, ts, txIxs, ixs, confirm, n);
      assert rs == [Success(IxExecStepBatch.End)] + Run(Steps.End, ts, txIxs, ixs, confirm, n - 1);
      forall i | 0 < i < n ensures rs[i] == Success(IxExecStepBatch.End) {
        assert rs[i] == Run(Steps.End, ts, txIxs, ixs, confirm, n - 1)[i - 1];
      }
    }
  }

  /**
   * From `Execute` (where `new` starts with `use_alt`): the iterative
   * instructions, or the error building them, then the confirmation, then
   * `End` forever. A failed `Execute` still moves on to `Confirm`.
   */
  lemma {:induction false} RunFromExecute(ts: T.Steps, txIxs: Result<seq<AtomicIxBatch>, RomeEvmError>,
                                          ixs: Result<seq<AtomicIxBatch>, RomeEvmError>, confirm: Result<bool, RomeEvmError>, n: nat)
    requires n >= 2
    ensures var rs := Run(Execute, ts, txIxs, ixs, confirm, n);
      && rs[0] == ExecuteResult(ixs)
      && rs[1] == Success(ConfirmationIterativeTx(Confirmed(confirm)))
      && forall i :: 2 <= i < n ==> rs[i] == Success(IxExecStepBatch.End)
  {
    var rs := Run(Execute, ts, txIxs, ixs, confirm, n);
    var rs1 := Run(Confirm, ts, txIxs, ixs, confirm, n - 1);
    var rs2 := Run(Steps.End, ts, txIxs, ixs, confirm, n - 2);
    assert rs == [ExecuteResult(ixs)] + rs1;
    assert rs1 == [Success(ConfirmationIterativeTx(Confirmed(confirm)))] + rs2;
    RunFromEnd(ts, txIxs, ixs, confirm, n - 2);
    forall i | 2 <= i < n ensures rs[i] == Success(IxExecStepBatch.End) {
      assert rs[i] == rs2[i - 2];
    }
  }

  /**
   * While transmitting with pending groups `batches`, the inner
   * transmitter's groups are passed through one per call; the call that
   * finds them exhausted executes, the next confirms, then `End` forever.
   */
  lemma {:induction false} RunFromTransmitExecute(batches: seq<seq<AtomicIxBatch>>, txIxs: Result<seq<AtomicIxBatch>, RomeEvmError>,
                                                  ixs: Result<seq<AtomicIxBatch>, RomeEvmError>, confirm: Result<bool, RomeEvmError>, n: nat)
    requires n >= |batches| + 2
    ensures var rs := Run(Transmit, T.Execute(batches), txIxs, ixs, confirm, n);
      && (forall i :: 0 <= i < |batches| ==> rs[i] == Success(Parallel(batches[|batches| - 1 - i])))
      && rs[|batches|] == ExecuteResult(ixs)
      && rs[|batches| + 1] == Success(ConfirmationIterativeTx(Confirmed(confirm)))
      && forall i :: |batches| + 2 <= i < n ==> rs[i] == Success(IxExecStepBatch.End)
    decreases |batches|
  {
    var rs := Run(Transmit, T.Execute(batches), txIxs, ixs, confirm, n);
    if batches == [] {
      assert T.Transition(T.Execute([]), txIxs) == (T.Complete, Success(IxExecStepBatch.End));
      assert rs == Run(Execute, T.Complete, txIxs, ixs, confirm, n);
      RunFromExecute(T.Complete, txIxs, ixs, confirm, n);
    } else {
      var rest := batches[..|batches| - 1];
      RunFromTransmitExecute(rest, txIxs, ixs, confirm, n - 1);
      var rs' := Run(Transmit, T.Execute(rest), txIxs, ixs, confirm, n - 1);
      assert rs == [Success(Parallel(batches[|batches| - 1]))] + rs';
      forall i | 0 < i < n ensures rs[i] == rs'[i - 1] {
      }
    }
  }

  /**
   * A fresh holder (`use_alt` false) whose transaction instructions build:
   * the transmit groups in chunk order, then the iterative instructions,
   * then the confirmation, then `End` forever.
   */
  lemma RunFromNew(txIxs: seq<AtomicIxBatch>, ixs: Result<seq<AtomicIxBatch>, RomeEvmError>,
                   confirm: Result<bool, RomeEvmError>, n: nat)
    requires n >= |T.Groups(txIxs)| + 2
    ensures var rs := Run(Transmit, T.Init, Success(txIxs), ixs, confirm, n);
      var k := |T.Groups(txIxs)|;
      && (forall i :: 0 <= i < k ==> rs[i] == Success(Parallel(T.Groups(txIxs)[i])))
      && rs[k] == ExecuteResult(ixs)
      && rs[k + 1] == Success(ConfirmationIterativeTx(Confirmed(confirm)))
      && forall i :: k + 2 <= i < n ==> rs[i] == Success(IxExecStepBatch.End)
  {
    var batches := Reverse(T.Groups(txIxs));
    assert T.Transition(T.Init, Success(txIxs)) == T.Transition(T.Execute(batches), Success(txIxs));
    assert Run(Transmit, T.Init, Success(txIxs), ixs, confirm, n) == Run(Transmit, T.Execute(batches), Success(txIxs), ixs, confirm, n);
    RunFromTransmitExecute(batches, Success(txIxs), ixs, confirm, n);
  }

  /** A transmission that cannot be built keeps failing, with the holder still transmitting. */
  lemma TransmitFailing(e: RomeEvmError, ixs: Result<seq<AtomicIxBatch>, RomeEvmError>, confirm: Result<bool, RomeEvmError>)
    ensures Transition(Transmit, T.Init, Failure(e), ixs, confirm) == (Transmit, T.Init, Failure(e))
  {
    T.RunFromInitFailing(e, 0);
  }

  class IterativeTxHolder {
    const transmitTx: T.TransmitTx
    var step: Steps
    /** The random session id drawn by `new`. */
    const session: U64
    /**
     * The number of iterative instructions for an emulated iteration count
     * (a floating-point scaling in the source).
     */
    const count: nat -> U64

    /** `new`: with `use_alt` the RLP is not transmitted and execution starts at once. */
    constructor (transmitTx: T.TransmitTx, useAlt: bool, session: U64, count: nat -> U64)
      ensures this.transmitTx == transmitTx && this.session == session && this.count == count
      ensures step == (if useAlt then Execute else Transmit)
    {
      this.transmitTx := transmitTx;
      this.session := session;
      this.count := count;
      step := if useAlt then Execute else Transmit;
    }

    /**
     * `emulation_data`: the iterative tag, the session (8 bytes, little
     * endian), the holder, the transaction hash, the chain id (8 bytes,
     * little endian) and the fee recipient.
     */
    function EmulationData(): (data: seq<Byte>)
      ensures var h, k := |transmitTx.resource.holder|, |transmitTx.hash|;
        && |data| == 17 + h + k + |transmitTx.resource.feeRecipient|
        && data[0] == transmitTx.tags.doTxHolderIterative
        && FromLe(data[1..9]) == session
        && data[9..9 + h] == transmitTx.resource.holder
        && data[9 + h..9 + h + k] == transmitTx.hash
        && FromLe(data[9 + h + k..17 + h + k]) == transmitTx.txBuilder.chainId
        && data[17 + h + k..] == transmitTx.resource.feeRecipient
    {
      var h, k := |transmitTx.resource.holder|, |transmitTx.hash|;
      var data := [transmitTx.tags.doTxHolderIterative] + Le8(session) + transmitTx.resource.holder
        + transmitTx.hash + Le8(transmitTx.txBuilder.chainId) + transmitTx.resource.feeRecipient;
      assert data[1..9] == Le8(session);
      assert data[9 + h + k..17 + h + k] == Le8(transmitTx.txBuilder.chainId);
      data
    }

    /**
     * `tx_data`: the iterative tag, then the instruction's `unique` number
     * (8 bytes, little endian), then the rest of the emulation data, then
     * the emulation's lock overrides.
     */
    function TxData(emulation: Emulation, unique: U64): (data: seq<Byte>)
      ensures |data| == |EmulationData()| + 8 + |emulation.lockOverrides|
      ensures data[0] == transmitTx.tags.doTxHolderIterative
      ensures FromLe(data[1..9]) == unique
      ensures data[9..9 + |EmulationData()| - 1] == EmulationData()[1..]
      ensures data[|EmulationData()| + 8..] == emulation.lockOverrides
    {
      var rest := Le8(session) + transmitTx.resource.holder + transmitTx.hash
        + Le8(transmitTx.txBuilder.chainId) + transmitTx.resource.feeRecipient;
      var e := EmulationData();
      assert e == [transmitTx.tags.doTxHolderIterative] + rest;
      assert e[1..] == rest;
      var data := [transmitTx.tags.doTxHolderIterative] + Le8(unique) + rest + emulation.lockOverrides;
      assert data[1..9] == Le8(unique);
      assert data[9..9 + |e| - 1] == rest;
      data
    }

    /**
     * `ixs`: emulates the iterative execution, then builds one composable
     * batch per `unique` in `0..count`, in increasing order; the emulation
     * must report a VM.
     */
    function Ixs(): (r: Result<seq<AtomicIxBatch>, RomeEvmError>)
      ensures transmitTx.txBuilder.emulate(EmulationData(), transmitTx.resource.PayerKey()).Failure? ==>
        r == Failure(transmitTx.txBuilder.emulate(EmulationData(), transmitTx.resource.PayerKey()).error)
      ensures transmitTx.txBuilder.emulate(EmulationData(), transmitTx.resource.PayerKey()).Success? ==>
        var emulation := transmitTx.txBuilder.emulate(EmulationData(), transmitTx.resource.PayerKey()).value;
        && (emulation.vm.None? ==> r == Failure(VmExpected))
        && (emulation.vm.Some? ==> r.Success?)
      ensures r.Success? ==>
        var emulation := transmitTx.txBuilder.emulate(EmulationData(), transmitTx.resource.PayerKey()).value;
        && emulation.vm.Some?
        && |r.value| == count(emulation.vm.value.iterationCount)
        && forall unique :: 0 <= unique < |r.value| ==>
             && |r.value[unique].Deref()| == 3
             && r.value[unique].Deref()[..2] == COMPUTE_BUDGET_PREFIX
             && r.value[unique].Deref()[2] == transmitTx.txBuilder.buildIx(emulation, TxData(emulation, unique))
    {
      var emulation :- transmitTx.txBuilder.emulate(EmulationData(), transmitTx.resource.PayerKey());
      if emulation.vm.None? then Failure(VmExpected)
      else
        var n := count(emulation.vm.value.iterationCount);
        Success(NewComposibleBatchesOwned(
          seq(n, unique requires 0 <= unique < n => transmitTx.txBuilder.buildIx(emulation, TxData(emulation, unique)))))
    }

    /** The answer of `confirm_tx_iterative` for this holder's transaction and session. */
    function ConfirmResult(): Result<bool, RomeEvmError> {
      transmitTx.txBuilder.confirmTxIterative(
        transmitTx.resource.holderIndex, transmitTx.hash, transmitTx.resource.PayerKey(), session)
    }

    /**
     * `advance`: passes the transmitter's steps through until it ends, then
     * executes (the step is `Confirm` even if the instructions fail to
     * build), then confirms once, then ends.
     */
    method Advance() returns (r: Result<IxExecStepBatch, RomeEvmError>)
      modifies this, transmitTx
      ensures (step, transmitTx.step, r)
        == Transition(old(step), old(transmitTx.step), transmitTx.IxsSpec(), Ixs(), ConfirmResult())
      decreases Rank(step)
    {
      match step {
        case Transmit =>
          var ix := transmitTx.Advance();
          if ix == Success(IxExecStepBatch.End) {
            step := Execute;
            r := Advance();
          } else {
            r := ix;
          }
        case Execute =>
          step := Confirm;
          var ixs :- Ixs();
          r := Success(ParallelUnchecked(ixs));
        case Confirm =>
          step := Steps.End;
          var confirm := transmitTx.txBuilder.confirmTxIterative(
            transmitTx.resource.holderIndex, transmitTx.hash, transmitTx.resource.PayerKey(), session);
          if confirm.Success? {
            r := Success(ConfirmationIterativeTx(confirm.value));
          } else {
            r := Success(ConfirmationIterativeTx(false));
          }
        case End =>
          r := Success(IxExecStepBatch.End);
      }
    }
  }
}
