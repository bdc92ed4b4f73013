/**
 * The SDK entry point (rome-sdk `rome.rs`): choosing the transaction builder
 * of a rollup by chain id, estimating gas, and assembling the instruction
 * list of cross-rollup and cross-chain transactions.
 */
module RomeSdk {
  import opened Wrappers
  import opened Bytes
  import opened Errors
  import opened IxBatch
  import opened Emulator
  import opened EvmUtil

  /** A signed Ethereum transaction: its chain id, if any, and its signed RLP bytes. */
  datatype SignedEthTx = SignedEthTx(chainId: Option<U64>, rlp: seq<Byte>)

  /**
   * A composed Solana transaction (`CrossRollupTx` / `CrossChainTx`): the
   * instruction batch, the payer of the first locked resource, and the
   * extra signers (none for a cross-rollup transaction).
   */
  datatype ComposedTx = ComposedTx(batch: AtomicIxBatch, payer: Keypair, signers: seq<Keypair>) {
    /** The signer list the transaction is signed with: the payer first. */
    function Signers(): (r: seq<Keypair>)
      ensures |r| == |signers| + 1
      ensures r[0] == payer && r[1..] == signers
    {
      AllSigners(payer, signers)
    }
  }

  /**
   * Instruction lists with a fixed prefix: on success the prefix is put in
   * front of the instructions, a failure is kept.
   */
  function Prepend(prefix: seq<Instruction>, r: Result<(seq<Instruction>, Option<Resource>), RomeEvmError>)
    : Result<(seq<Instruction>, Option<Resource>), RomeEvmError>
  {
    if r.Success? then Success((prefix + r.value.0, r.value.1)) else Failure(r.error)
  }

  lemma PrependTwice(a: seq<Instruction>, b: seq<Instruction>, r: Result<(seq<Instruction>, Option<Resource>), RomeEvmError>)
    ensures Prepend(a, Prepend(b, r)) == Prepend(a + b, r)
  {
    if r.Success? {
      assert a + (b + r.value.0) == (a + b) + r.value.0;
    }
  }

  datatype Rome = Rome(rollupBuilders: map<U64, TxBuilder>, tags: InstructionTags) {

    /** `get_transaction_builder`: the builder registered for the chain id. */
    function GetTransactionBuilder(chainId: U64): (r: Result<TxBuilder, RomeEvmError>)
      ensures r.Success? <==> chainId in rollupBuilders
      ensures r.Success? ==> r.value == rollupBuilders[chainId]
      ensures r.Failure? ==> r.error == UnsupportedChainId(chainId)
    {
      if chainId in rollupBuilders then Success(rollupBuilders[chainId]) else Failure(UnsupportedChainId(chainId))
    }

    /** `get_transaction_builder_for_tx`: a transaction without chain id is refused before any lookup. */
    function GetTransactionBuilderForTx(tx: SignedEthTx): (r: Result<TxBuilder, RomeEvmError>)
      ensures tx.chainId.None? ==> r == Failure(NoChainId)
      ensures tx.chainId.Some? ==> r == GetTransactionBuilder(tx.chainId.value)
    {
      match tx.chainId
      case None => Failure(NoChainId)
      case Some(chainId) => GetTransactionBuilder(chainId)
    }

    /**
     * `estimate_gas`: the gas of the emulated transaction. The checks run
     * in this order: chain id present, builder registered, emulation
     * succeeded, exit reason, account count. `estimate` is
     * `eth_estimate_gas` and `decodeRevert` `log_parser::decode_revert`.
     */
    function EstimateGas(tx: TransactionRequest, estimate: (Pubkey, LegacyTx) -> Result<Emulation, RomeEvmError>,
                         decodeRevert: seq<Byte> -> Option<string>): (r: Result<nat, RomeEvmError>)
      requires tx.chainId.Some? && tx.chainId.value in rollupBuilders && tx.nonce.Some? ==> tx.nonce.value < U64_LIMIT
      ensures tx.chainId.None? ==> r == Failure(NoChainId)
      ensures tx.chainId.Some? && tx.chainId.value !in rollupBuilders ==> r == Failure(UnsupportedChainId(tx.chainId.value))
      ensures tx.chainId.Some? && tx.chainId.value in rollupBuilders ==>
        var builder := rollupBuilders[tx.chainId.value];
        var emulation := estimate(builder.programId, CastTransactionRequest(tx, builder.chainId));
        && (emulation.Failure? ==> r == Failure(emulation.error))
        && (emulation.Success? && CheckExitReason(emulation.value, decodeRevert).Failure? ==>
              r == Failure(CheckExitReason(emulation.value, decodeRevert).error))
        && (emulation.Success? && CheckExitReason(emulation.value, decodeRevert).Success?
              && CheckAccountsLen(emulation.value).Failure? ==>
              r == Failure(TooManyAccounts(|emulation.value.accounts|)))
        && (r.Success? <==> emulation.Success? && CheckExitReason(emulation.value, decodeRevert).Success?
                            && |emulation.value.accounts| <= MAX_ALLOWED_ACCOUNTS)
        && (r.Success? ==> r.value == emulation.value.gas)
    {
      if tx.chainId.None? then Failure(NoChainId)
      else
        var builder :- GetTransactionBuilder(tx.chainId.value);
        var emulation :- estimate(builder.programId, CastTransactionRequest(tx, builder.chainId));
        var _ :- CheckExitReason(emulation, decodeRevert);
        var _ :- CheckAccountsLen(emulation);
        Success(emulation.gas)
    }

    /** The data of a `DoTx` instruction: the tag, the fee recipient of the resource, the signed RLP. */
    function DoTxData(resource: Resource, rlp: seq<Byte>): (data: seq<Byte>)
      ensures |data| == 1 + |resource.feeRecipient| + |rlp|
      ensures data[0] == tags.doTx
      ensures data[1..1 + |resource.feeRecipient|] == resource.feeRecipient
      ensures data[1 + |resource.feeRecipient|..] == rlp
    {
      [tags.doTx] + resource.feeRecipient + rlp
    }

    /**
     * One iteration of the Ethereum-transaction loop of the composers, for
     * the i-th transaction: it finds the builder, locks a resource (kept
     * only if none was kept before), emulates the `DoTx` data under the kept
     * resource, refuses a non-atomic emulation and builds the instruction.
     * Yields the instruction and the kept resource.
     */
    function EthStep(tx: SignedEthTx, i: nat, resource: Option<Resource>): (r: Result<(Instruction, Resource), RomeEvmError>)
      ensures GetTransactionBuilderForTx(tx).Failure? ==> r == Failure(GetTransactionBuilderForTx(tx).error)
      ensures GetTransactionBuilderForTx(tx).Success? && GetTransactionBuilderForTx(tx).value.lockResource(i).Failure? ==>
        r == Failure(GetTransactionBuilderForTx(tx).value.lockResource(i).error)
      ensures r.Success? ==>
        var builder := GetTransactionBuilderForTx(tx).value;
        var kept := if resource.Some? then resource.value else builder.lockResource(i).value;
        var emulation := builder.emulate(DoTxData(kept, tx.rlp), kept.PayerKey());
        && r.value.1 == kept
        && emulation.Success? && emulation.value.isAtomic
        && r.value.0 == builder.buildIx(emulation.value, DoTxData(kept, tx.rlp))
      ensures r.Failure? && GetTransactionBuilderForTx(tx).Success? && GetTransactionBuilderForTx(tx).value.lockResource(i).Success? ==>
        var builder := GetTransactionBuilderForTx(tx).value;
        var kept := if resource.Some? then resource.value else builder.lockResource(i).value;
        var emulation := builder.emulate(DoTxData(kept, tx.rlp), kept.PayerKey());
        r.error == (if emulation.Failure? then emulation.error else NotAtomic)
    {
      var builder :- GetTransactionBuilderForTx(tx);
      var current :- builder.lockResource(i);
      var kept := if resource.Some? then resource.value else current;
      var data := DoTxData(kept, tx.rlp);
      var emulation :- builder.emulate(data, kept.PayerKey());
      if !emulation.isAtomic then Failure(NotAtomic)
      else Success((builder.buildIx(emulation, data), kept))
    }

    /**
     * The Ethereum-transaction loop from the i-th transaction on: the
     * instructions in input order and the kept resource, or the first error.
     */
    function EthIxsFrom(txs: seq<SignedEthTx>, i: nat, resource: Option<Resource>)
      : (r: Result<(seq<Instruction>, Option<Resource>), RomeEvmError>)
      requires i <= |txs|
      decreases |txs| - i
    {
      if i == |txs| then Success(([], resource))
      else
        var step :- EthStep(txs[i], i, resource);
        var rest :- EthIxsFrom(txs, i + 1, Some(step.1));
        Success(([step.0] + rest.0, rest.1))
    }

    /** One step of the Ethereum-transaction loop: its error, or its instruction in front of the rest. */
    lemma EthIxsFromStep(txs: seq<SignedEthTx>, i: nat, resource: Option<Resource>)
      requires i < |txs|
      ensures EthStep(txs[i], i, resource).Failure? ==>
        EthIxsFrom(txs, i, resource) == Failure(EthStep(txs[i], i, resource).error)
      ensures EthStep(txs[i], i, resource).Success? ==>
        var step := EthStep(txs[i], i, resource).value;
        EthIxsFrom(txs, i, resource) == Prepend([step.0], EthIxsFrom(txs, i + 1, Some(step.1)))
    {
    }

    /**
     * Once a resource is kept, the loop succeeds exactly when every
     * remaining step does; its instructions are then the steps'
     * instructions in input order and the resource stays the same.
     * Otherwise it fails with the error of the first failing step.
     */
    lemma {:induction false} EthIxsKept(txs: seq<SignedEthTx>, i: nat, res: Resource)
      requires i <= |txs|
      ensures EthIxsFrom(txs, i, Some(res)).Success? <==>
        forall j :: i <= j < |txs| ==> EthStep(txs[j], j, Some(res)).Success?
      ensures EthIxsFrom(txs, i, Some(res)).Success? ==>
        var eth := EthIxsFrom(txs, i, Some(res)).value;
        && eth.1 == Some(res)
        && |eth.0| == |txs| - i
        && forall j :: i <= j < |txs| ==> eth.0[j - i] == EthStep(txs[j], j, Some(res)).value.0
      ensures EthIxsFrom(txs, i, Some(res)).Failure? ==>
        exists j :: i <= j < |txs| && EthStep(txs[j], j, Some(res)).Failure?
          && (forall k :: i <= k < j ==> EthStep(txs[k], k, Some(res)).Success?)
          && EthIxsFrom(txs, i, Some(res)).error == EthStep(txs[j], j, Some(res)).error
      decreases |txs| - i
    {
      if i < |txs| {
        EthIxsKept(txs, i + 1, res);
        EthIxsFromStep(txs, i, Some(res));
        var step := EthStep(txs[i], i, Some(res));
        if step.Success? {
          assert step.value.1 == res;
          var r := EthIxsFrom(txs, i, Some(res));
          if r.Failure? {
            var j :| i + 1 <= j < |txs| && EthStep(txs[j], j, Some(res)).Failure?
              && (forall k :: i + 1 <= k < j ==> EthStep(txs[k], k, Some(res)).Success?)
              && r.error == EthStep(txs[j], j, Some(res)).error;
            assert forall k :: i <= k < j ==> EthStep(txs[k], k, Some(res)).Success?;
          } else {
            var rest := EthIxsFrom(txs, i + 1, Some(res)).value;
            assert r.value.0 == [step.value.0] + rest.0;
            forall j | i <= j < |txs| ensures r.value.0[j - i] == EthStep(txs[j], j, Some(res)).value.0 {
              if j > i {
                assert r.value.0[j - i] == rest.0[j - (i + 1)];
              }
            }
          }
        }
      }
    }

    /** What `compose_cross_rollup_tx` yields. */
    function CrossRollupSpec(txs: seq<SignedEthTx>): Result<ComposedTx, RomeEvmError> {
      var eth :- EthIxsFrom(txs, 0, None);
      if eth.1.None? then Failure(NoResource)
      else Success(ComposedTx(NewOwned(COMPUTE_BUDGET_PREFIX + eth.0), eth.1.value.payer, []))
    }

    /** What `compose_cross_chain_tx` yields. */
    function CrossChainSpec(txs: seq<SignedEthTx>, solIxs: seq<Instruction>, signers: seq<Keypair>)
      : Result<ComposedTx, RomeEvmError>
    {
      var eth :- EthIxsFrom(txs, 0, None);
      if eth.1.None? then Failure(NoResource)
      else Success(ComposedTx(NewOwned(COMPUTE_BUDGET_PREFIX + eth.0 + solIxs), eth.1.value.payer, signers))
    }

    /**
     * The cross-rollup instruction list: the two compute-budget
     * instructions, then one instruction per transaction in input order,
     * each built from the `DoTx` data under the resource locked for the
     * first transaction, whose payer pays. No transaction, no resource:
     * the composition fails. A failure is the first failing step's error.
     */
    lemma CrossRollupShape(txs: seq<SignedEthTx>)
      ensures txs == [] ==> CrossRollupSpec(txs) == Failure(NoResource)
      ensures txs != [] && EthStep(txs[0], 0, None).Failure? ==>
        CrossRollupSpec(txs) == Failure(EthStep(txs[0], 0, None).error)
      ensures txs != [] && EthStep(txs[0], 0, None).Success? ==>
        var res := EthStep(txs[0], 0, None).value.1;
        && res == GetTransactionBuilderForTx(txs[0]).value.lockResource(0).value
        && (CrossRollupSpec(txs).Success? <==> forall j :: 0 <= j < |txs| ==> EthStep(txs[j], j, Some(res)).Success?)
        && (CrossRollupSpec(txs).Success? ==>
              var ixs := CrossRollupSpec(txs).value.batch.Deref();
              && CrossRollupSpec(txs).value.payer == res.payer
              && |ixs| == 2 + |txs|
              && ixs[..2] == COMPUTE_BUDGET_PREFIX
              && forall j :: 0 <= j < |txs| ==> ixs[2 + j] == EthStep(txs[j], j, Some(res)).value.0)
    {
      if txs != [] && EthStep(txs[0], 0, None).Success? {
        var res := EthStep(txs[0], 0, None).value.1;
        EthIxsFromStep(txs, 0, None);
        EthIxsKept(txs, 1, res);
        EthIxsKept(txs, 0, res);
        assert EthStep(txs[0], 0, Some(res)) == EthStep(txs[0], 0, None);
      } else if txs != [] {
        EthIxsFromStep(txs, 0, None);
      }
    }

    /**
     * The cross-chain composition is the cross-rollup one with the Solana
     * instructions appended after all the Ethereum-derived ones, signed
     * additionally by the given signers.
     */
    lemma CrossChainShape(txs: seq<SignedEthTx>, solIxs: seq<Instruction>, signers: seq<Keypair>)
      ensures CrossChainSpec(txs, solIxs, signers).Success? <==> CrossRollupSpec(txs).Success?
      ensures CrossChainSpec(txs, solIxs, signers).Failure? ==>
        CrossChainSpec(txs, solIxs, signers).error == CrossRollupSpec(txs).error
      ensures CrossChainSpec(txs, solIxs, signers).Success? ==>
        var chain, rollup := CrossChainSpec(txs, solIxs, signers).value, CrossRollupSpec(txs).value;
        && chain.batch.Deref() == rollup.batch.Deref() + solIxs
        && chain.payer == rollup.payer
        && chain.Signers() == [rollup.payer] + signers
    {
    }

    /** `compose_cross_rollup_tx`. */
    method ComposeCrossRollupTx(txs: seq<SignedEthTx>) returns (r: Result<ComposedTx, RomeEvmError>)
      ensures r == CrossRollupSpec(txs)
    {
      var instructions := [SetComputeUnitLimit(1_400_000), RequestHeapFrame(256 * 1024)];
      var resource: Option<Resource> := None;
      for i := 0 to |txs|
        invariant Prepend(instructions, EthIxsFrom(txs, i, resource))
               == Prepend(COMPUTE_BUDGET_PREFIX, EthIxsFrom(txs, 0, None))
      {
        ghost var step := EthStep(txs[i], i, resource);
        EthIxsFromStep(txs, i, resource);
        var builder :- GetTransactionBuilderForTx(txs[i]);
        var current :- builder.lockResource(i);
        if resource.None? {
          resource := Some(current);
        }
        var data := DoTxData(resource.value, txs[i].rlp);
        var emulation :- builder.emulate(data, resource.value.PayerKey());
        if !emulation.isAtomic {
          return Failure(NotAtomic);
        }
        var ix := builder.buildIx(emulation, data);
        assert step == Success((ix, resource.value));
        PrependTwice(instructions, [ix], EthIxsFrom(txs, i + 1, resource));
        instructions := instructions + [ix];
      }
      if resource.None? {
        return Failure(NoResource);
      }
      assert instructions == COMPUTE_BUDGET_PREFIX + EthIxsFrom(txs, 0, None).value.0;
      r := Success(ComposedTx(NewOwned(instructions), resource.value.payer, []));
    }

    /** `compose_cross_chain_tx`. */
    method ComposeCrossChainTx(txs: seq<SignedEthTx>, solIxs: seq<Instruction>, signers: seq<Keypair>)
      returns (r: Result<ComposedTx, RomeEvmError>)
      ensures r == CrossChainSpec(txs, solIxs, signers)
    {
      var instructions := [SetComputeUnitLimit(1_400_000), RequestHeapFrame(256 * 1024)];
      var resource: Option<Resource> := None;
      for i := 0 to |txs|
        invariant Prepend(instructions, EthIxsFrom(txs, i, resource))
               == Prepend(COMPUTE_BUDGET_PREFIX, EthIxsFrom(txs, 0, None))
      {
        ghost var step := EthStep(txs[i], i, resource);
        EthIxsFromStep(txs, i, resource);
        var builder :- GetTransactionBuilderForTx(txs[i]);
        var current :- builder.lockResource(i);
        if resource.None? {
          resource := Some(current);
        }
        var data := DoTxData(resource.value, txs[i].rlp);
        var emulation :- builder.emulate(data, resource.value.PayerKey());
        if !emulation.isAtomic {
          return Failure(NotAtomic);
        }
        var ix := builder.buildIx(emulation, data);
        assert step == Success((ix, resource.value));
        PrependTwice(instructions, [ix], EthIxsFrom(txs, i + 1, resource));
        instructions := instructions + [ix];
      }
      assert instructions == COMPUTE_BUDGET_PREFIX + EthIxsFrom(txs, 0, None).value.0;
      ghost var ethIxs := instructions;
      for k := 0 to |solIxs|
        invariant instructions == ethIxs + solIxs[..k]
      {
        instructions := instructions + [solIxs[k]];
      }
      assert solIxs[..|solIxs|] == solIxs;
      if resource.None? {
        return Failure(NoResource);
      }
      r := Success(ComposedTx(NewOwned(instructions), resource.value.payer, signers));
    }
  }
}
