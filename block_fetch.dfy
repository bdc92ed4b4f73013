/**
 * Fetching one block and the target program's transactions in it
 * (`load_transaction`, `load_transactions`, `load_block_transactions`,
 * `load_block` of rome-evm-client `indexer/solana_block_loader.rs`). The
 * concurrent fan-out over signatures is an ordered sequential map.
 */
module BlockFetch {
  import opened Wrappers
  import opened Bytes
  import opened Errors
  import opened IxBatch
  import opened SolanaRpc

  /** Some instruction, from the j-th on, names `programId` as its program. */
  function AddressesProgram(m: Message, programId: Pubkey, j: nat): (r: bool)
    requires j <= |m.instructions|
    ensures r <==> exists i :: j <= i < |m.instructions| && m.accountKeys[m.instructions[i].programIdIndex] == programId
    decreases |m.instructions| - j
  {
    if j == |m.instructions| then false
    else if m.accountKeys[m.instructions[j].programIdIndex] == programId then true
    else AddressesProgram(m, programId, j + 1)
  }

  /** The transaction decodes and one of its instructions addresses the program. */
  predicate Targets(tx: ConfirmedTx, programId: Pubkey) {
    var d := tx.transaction.decoded;
    d.Some? && exists i :: 0 <= i < |d.value.instructions| && d.value.accountKeys[d.value.instructions[i].programIdIndex] == programId
  }

  /**
   * `load_transaction`: the transaction if it exists and targets the
   * program; an absent or undecodable transaction is dropped; a fetch
   * error is returned.
   */
  function LoadTransaction(client: SolanaClient, programId: Pubkey, signature: Signature, commitment: Commitment)
    : (r: Result<Option<ConfirmedTx>, RomeEvmError>)
    ensures var got := client.getTransaction(signature, commitment);
      && (got.Failure? <==> r.Failure?)
      && (got.Failure? ==> r.error == got.error)
      && (r.Success? ==> (r.value.Some? <==> got.value.Some? && Targets(got.value.value, programId)))
      && (r.Success? && r.value.Some? ==> r.value.value == got.value.value)
  {
    var got :- client.getTransaction(signature, commitment);
    if got.Some? && got.value.transaction.decoded.Some?
       && AddressesProgram(got.value.transaction.decoded.value, programId, 0)
    then Success(got)
    else Success(None)
  }

  /** The kept transaction of one load, as a list of zero or one element. */
  function Kept(r: Option<ConfirmedTx>): seq<TxWithMeta> {
    if r.Some? then [r.value.transaction] else []
  }

  /** The loads of all signatures, in order: the kept transactions, or the first error. */
  function LoadAll(client: SolanaClient, commitment: Commitment, programId: Pubkey, signatures: seq<Signature>)
    : Result<seq<TxWithMeta>, RomeEvmError>
  {
    if signatures == [] then Success([])
    else
      var first :- LoadTransaction(client, programId, signatures[0], commitment);
      var rest :- LoadAll(client, commitment, programId, signatures[1..]);
      Success(Kept(first) + rest)
  }

  /**
   * The loads succeed exactly when each does; the kept transactions are
   * then those that target the program, in signature order. Otherwise the
   * error is the first failing load's.
   */
  lemma {:induction false} LoadAllSpec(client: SolanaClient, commitment: Commitment, programId: Pubkey, signatures: seq<Signature>)
    ensures var r := LoadAll(client, commitment, programId, signatures);
      && (r.Success? <==> forall i :: 0 <= i < |signatures| ==> LoadTransaction(client, programId, signatures[i], commitment).Success?)
      && (r.Success? ==> r.value == Flatten(seq(|signatures|, i requires 0 <= i < |signatures| =>
                                      Kept(LoadTransaction(client, programId, signatures[i], commitment).value))))
      && (r.Failure? ==>
            exists i :: 0 <= i < |signatures|
              && LoadTransaction(client, programId, signatures[i], commitment).Failure?
              && (forall k :: 0 <= k < i ==> LoadTransaction(client, programId, signatures[k], commitment).Success?)
              && r.error == LoadTransaction(client, programId, signatures[i], commitment).error)
  {
    if signatures != [] {
      var tail := signatures[1..];
      LoadAllSpec(client, commitment, programId, tail);
      var first := LoadTransaction(client, programId, signatures[0], commitment);
      var rest := LoadAll(client, commitment, programId, tail);
      var r := LoadAll(client, commitment, programId, signatures);
      forall i | 0 < i < |signatures|
        ensures LoadTransaction(client, programId, signatures[i], commitment) == LoadTransaction(client, programId, tail[i - 1], commitment)
      {
      }
      if first.Success? && rest.Success? {
        var ks := seq(|signatures|, i requires 0 <= i < |signatures| => Kept(LoadTransaction(client, programId, signatures[i], commitment).value));
        var kt := seq(|tail|, i requires 0 <= i < |tail| => Kept(LoadTransaction(client, programId, tail[i], commitment).value));
        assert ks[1..] == kt;
        assert ks == [ks[0]] + kt;
      } else if first.Success? {
        var i :| 0 <= i < |tail| && LoadTransaction(client, programId, tail[i], commitment).Failure?
            && (forall k :: 0 <= k < i ==> LoadTransaction(client, programId, tail[k], commitment).Success?)
            && rest.error == LoadTransaction(client, programId, tail[i], commitment).error;
        assert LoadTransaction(client, programId, signatures[i + 1], commitment).Failure?;
      }
    }
  }

  /** Every transaction `LoadAll` keeps decodes and targets the program. */
  lemma {:induction false} LoadAllTargets(client: SolanaClient, commitment: Commitment, programId: Pubkey, signatures: seq<Signature>)
    requires LoadAll(client, commitment, programId, signatures).Success?
    ensures forall t :: t in LoadAll(client, commitment, programId, signatures).value ==>
      exists c: ConfirmedTx :: c.transaction == t && Targets(c, programId)
  {
    if signatures != [] {
      LoadAllTargets(client, commitment, programId, signatures[1..]);
      var first := LoadTransaction(client, programId, signatures[0], commitment).value;
      if first.Some? {
        assert Targets(first.value, programId);
      }
    }
  }

  /**
   * `load_transactions`: the kept transactions in signature order, None
   * (not an empty list) when none is kept; any load error fails the whole
   * list.
   */
  function LoadTransactions(client: SolanaClient, commitment: Commitment, programId: Pubkey, signatures: seq<Signature>)
    : (r: Result<Option<seq<TxWithMeta>>, RomeEvmError>)
    ensures LoadAll(client, commitment, programId, signatures).Failure? ==>
      r == Failure(LoadAll(client, commitment, programId, signatures).error)
    ensures LoadAll(client, commitment, programId, signatures).Success? ==> r.Success?
    ensures r.Success? ==> r.value.None? || r.value.value != []
    ensures r.Success? ==> r.value.GetOr([]) == LoadAll(client, commitment, programId, signatures).value
  {
    var txs :- LoadAll(client, commitment, programId, signatures);
    if txs == [] then Success(None) else Success(Some(txs))
  }

  /** The statuses' signatures that parse, in their order (`filter_map`). */
  function ParsedSignatures(client: SolanaClient, statuses: seq<string>): (r: seq<Signature>)
    ensures |r| <= |statuses|
    ensures forall s :: s in r <==> exists i :: 0 <= i < |statuses| && client.parseSignature(statuses[i]) == Some(s)
  {
    if statuses == [] then []
    else
      var rest := ParsedSignatures(client, statuses[1..]);
      assert forall i :: 0 < i < |statuses| ==> statuses[i] == statuses[1..][i - 1];
      match client.parseSignature(statuses[0])
      case Some(s) => [s] + rest
      case None => rest
  }

  /**
   * `ParsedSignatures` is the filter of the statuses that parse: it
   * distributes over concatenation, so it keeps their order and their
   * multiplicity, and on one status it keeps that status's signature
   * exactly when it parses.
   */
  lemma {:induction false} ParsedSignaturesFilter(client: SolanaClient, a: seq<string>, b: seq<string>)
    ensures ParsedSignatures(client, a + b) == ParsedSignatures(client, a) + ParsedSignatures(client, b)
    ensures |a| == 1 ==> ParsedSignatures(client, a) == match client.parseSignature(a[0]) case Some(s) => [s] case None => []
    decreases |a|
  {
    if a == [] {
      assert a + b == b;
    } else {
      assert (a + b)[0] == a[0] && (a + b)[1..] == a[1..] + b;
      ParsedSignaturesFilter(client, a[1..], b);
      if |a| == 1 {
        assert a[1..] == [];
      }
    }
  }

  lemma {:induction false} ReverseAppend<T>(a: seq<T>, b: seq<T>)
    ensures Reverse(a + b) == Reverse(b) + Reverse(a)
  {
    var l, r := Reverse(a + b), Reverse(b) + Reverse(a);
    assert |l| == |r|;
    forall i | 0 <= i < |l| ensures l[i] == r[i] {
      if i < |b| {
        assert r[i] == Reverse(b)[i];
      } else {
        assert r[i] == Reverse(a)[i - |b|];
      }
    }
  }

  /**
   * The order the block's program transactions are fetched in: the
   * block's first signature, the program's signatures between the two
   * reversed (oldest first), the block's last signature.
   */
  function FetchOrder(client: SolanaClient, last: Signature, first: Signature, statuses: seq<string>): (r: seq<Signature>)
    ensures r == [first] + Reverse(ParsedSignatures(client, statuses)) + [last]
  {
    var parsed := ParsedSignatures(client, statuses);
    ReverseAppend([last] + parsed, [first]);
    ReverseAppend([last], parsed);
    Reverse([last] + parsed + [first])
  }

  /** The block's signature at one end, parsed, if the block lists any. */
  function EndSignature(client: SolanaClient, block: Block, last: bool): (r: Option<Signature>)
    ensures r.Some? ==> block.signatures.Some? && |block.signatures.value| > 0
    ensures block.signatures.Some? && |block.signatures.value| > 0 ==> var sigs := block.signatures.value;
      r == client.parseSignature(if last then sigs[|sigs| - 1] else sigs[0])
  {
    if block.signatures.None? || block.signatures.value == [] then None
    else
      var sigs := block.signatures.value;
      client.parseSignature(if last then sigs[|sigs| - 1] else sigs[0])
  }

  /**
   * `load_block_transactions`: clears the block's signatures and, when its
   * first and last signatures both parse, replaces its transactions by the
   * program's transactions between them (inclusive), fetched in
   * `FetchOrder`. Otherwise the transactions are left as they were.
   */
  function LoadBlockTransactions(client: SolanaClient, programId: Pubkey, block: Block, commitment: Commitment)
    : (r: Result<Block, RomeEvmError>)
    ensures r.Success? ==> r.value.signatures.None?
    ensures r.Success? ==> r.value.parentSlot == block.parentSlot && r.value.blockhash == block.blockhash
    ensures EndSignature(client, block, true).None? || EndSignature(client, block, false).None? ==>
      r == Success(block.(signatures := None))
    ensures EndSignature(client, block, true).Some? && EndSignature(client, block, false).Some? ==>
      var last, first := EndSignature(client, block, true).value, EndSignature(client, block, false).value;
      var statuses := client.getSignaturesForAddress(programId, commitment, last, first);
      && (statuses.Failure? ==> r == Failure(statuses.error))
      && (statuses.Success? ==>
            var txs := LoadTransactions(client, commitment, programId, FetchOrder(client, last, first, statuses.value));
            && (txs.Failure? ==> r == Failure(txs.error))
            && (txs.Success? ==> r == Success(block.(signatures := None, transactions := txs.value))))
  {
    var before := EndSignature(client, block, true);
    var until := EndSignature(client, block, false);
    var cleared := block.(signatures := None);
    if before.Some? && until.Some? then
      var statuses :- client.getSignaturesForAddress(programId, commitment, before.value, until.value);
      var txs :- LoadTransactions(client, commitment, programId, FetchOrder(client, before.value, until.value, statuses));
      Success(cleared.(transactions := txs))
    else
      Success(cleared)
  }

  /** `load_block`: None for a skipped slot, else the block with its program transactions. */
  function LoadBlock(client: SolanaClient, commitment: Commitment, programId: Pubkey, slot: Slot)
    : (r: Result<Option<Block>, RomeEvmError>)
    ensures var got := client.getBlock(slot, commitment);
      && (got.Failure? ==> r == Failure(got.error))
      && (got == Success(None) ==> r == Success(None))
      && (got.Success? && got.value.Some? ==>
            var loaded := LoadBlockTransactions(client, programId, got.value.value, commitment);
            r == if loaded.Success? then Success(Some(loaded.value)) else Failure(loaded.error))
  {
    var got :- client.getBlock(slot, commitment);
    if got.None? then Success(None)
    else
      var block :- LoadBlockTransactions(client, programId, got.value, commitment);
      Success(Some(block))
  }

  /**
   * A block `load_block` returns holds, when both end signatures of the
   * block the node returned parse, only transactions that decode and target
   * the program; when either does not parse, it keeps the node's
   * transactions unfiltered.
   */
  lemma LoadBlockTargets(client: SolanaClient, commitment: Commitment, programId: Pubkey, slot: Slot)
    requires LoadBlock(client, commitment, programId, slot).Success?
    requires LoadBlock(client, commitment, programId, slot).value.Some?
    ensures client.getBlock(slot, commitment).Success? && client.getBlock(slot, commitment).value.Some?
    ensures var fetched, b := client.getBlock(slot, commitment).value.value, LoadBlock(client, commitment, programId, slot).value.value;
      && (EndSignature(client, fetched, true).Some? && EndSignature(client, fetched, false).Some? ==>
            forall t :: b.transactions.Some? && t in b.transactions.value ==>
              exists c: ConfirmedTx :: c.transaction == t && Targets(c, programId))
      && (EndSignature(client, fetched, true).None? || EndSignature(client, fetched, false).None? ==>
            b.transactions == fetched.transactions)
  {
    var fetched := client.getBlock(slot, commitment).value.value;
    var last, first := EndSignature(client, fetched, true), EndSignature(client, fetched, false);
    if last.Some? && first.Some? {
      var statuses := client.getSignaturesForAddress(programId, commitment, last.value, first.value);
      LoadAllTargets(client, commitment, programId, FetchOrder(client, last.value, first.value, statuses.value));
    }
  }
}
