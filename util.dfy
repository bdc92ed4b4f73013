/**
 * Emulation-result checks and request conversion (rome-evm-client
 * `util.rs`).
 */
module EvmUtil {
  import opened Wrappers
  import opened Bytes
  import opened Errors
  import opened Emulator

  /** 64 account slots minus the lookup-table account and the program id. */
  const MAX_ALLOWED_ACCOUNTS: nat := 64 - 2

  /** `U256` of the ethers and rome-evm crates. */
  type U256 = x: int | 0 <= x < U256_LIMIT

  /** A 20-byte EVM address (`H160`). */
  type Address = a: seq<Byte> | |a| == 20 witness ZERO_ADDRESS

  const ZERO_ADDRESS: seq<Byte> := [0, 0, 0, 0, 0, 0, 0, 0, 0, 0, 0, 0, 0, 0, 0, 0, 0, 0, 0, 0]

  const REVERTED: string := "execution reverted"

  /**
   * `check_accounts_len`: refuses an emulation that touches more accounts
   * than one transaction may lock.
   */
  function CheckAccountsLen(emulation: Emulation): (r: Result<(), RomeEvmError>)
    ensures r.Failure? <==> |emulation.accounts| > MAX_ALLOWED_ACCOUNTS
    ensures r.Failure? ==> r.error == TooManyAccounts(|emulation.accounts|)
  {
    if |emulation.accounts| > MAX_ALLOWED_ACCOUNTS then Failure(TooManyAccounts(|emulation.accounts|))
    else Success(())
  }

  /**
   * `check_exit_reason`: a revert becomes `EmulationRevert` with the decoded
   * reason and the hex of the return data, every other unsuccessful exit an
   * `EmulationError`. `decodeRevert` is `log_parser::decode_revert`.
   */
  function CheckExitReason(emulation: Emulation, decodeRevert: seq<Byte> -> Option<string>): (r: Result<(), RomeEvmError>)
    ensures r.Success? <==> emulation.vm.None? || emulation.vm.value.exitReason.Succeed?
    ensures emulation.vm.Some? && emulation.vm.value.exitReason.Revert? ==> r.Failure? && r.error.EmulationRevert?
    ensures emulation.vm.Some? && emulation.vm.value.exitReason.Revert? ==>
      (r.error.message == REVERTED || REVERTED + ": " <= r.error.message)
    ensures emulation.vm.Some? && emulation.vm.value.exitReason.Revert? ==> "0x" <= r.error.data
    ensures emulation.vm.Some? && (emulation.vm.value.exitReason.Error? || emulation.vm.value.exitReason.Fatal?
                                   || emulation.vm.value.exitReason.StepLimitReached?) ==>
      r.Failure? && r.error.EmulationError?
  {
    match emulation.vm
    case None => Success(())
    case Some(vm) =>
      match vm.exitReason
      case Succeed => Success(())
      case Revert =>
        var message :=
          match vm.returnValue
          case Some(value) => (match decodeRevert(value)
                               case Some(reason) => REVERTED + ": " + reason
                               case None => REVERTED)
          case None => REVERTED;
        var data := "0x" + (match vm.returnValue case Some(value) => HexEncode(value) case None => "");
        Failure(EmulationRevert(message, data))
      case Error(detail) => Failure(EmulationError(detail))
      case Fatal(detail) => Failure(EmulationError(detail))
      case StepLimitReached => Failure(EmulationError("StepLimitReached"))
  }

  /**
   * The revert data carries the return value losslessly: stripping "0x" and
   * decoding the lowercase hex gives back the return value (or nothing when
   * there was none).
   */
  lemma RevertDataRoundTrip(emulation: Emulation, decodeRevert: seq<Byte> -> Option<string>)
    requires emulation.vm.Some? && emulation.vm.value.exitReason.Revert?
    ensures var e := CheckExitReason(emulation, decodeRevert).error;
      HexDecode(e.data[2..]) == Some(emulation.vm.value.returnValue.GetOr([]))
  {
    var e := CheckExitReason(emulation, decodeRevert).error;
    HexRoundTrip(emulation.vm.value.returnValue.GetOr([]));
    assert e.data[2..] == HexEncode(emulation.vm.value.returnValue.GetOr([]));
  }

  /** The revert message names the decoded reason exactly when one decodes. */
  lemma RevertMessage(emulation: Emulation, decodeRevert: seq<Byte> -> Option<string>)
    requires emulation.vm.Some? && emulation.vm.value.exitReason.Revert?
    ensures var vm := emulation.vm.value;
      var e := CheckExitReason(emulation, decodeRevert).error;
      if vm.returnValue.Some? && decodeRevert(vm.returnValue.value).Some?
      then e.message == REVERTED + ": " + decodeRevert(vm.returnValue.value).value
      else e.message == REVERTED
  {
  }

  /** `U256::to_big_endian` into a 32-byte buffer, read back with `from_big_endian`. */
  function CastU256(value: U256): (r: U256)
    ensures r == value
  {
    Pow256Widths();
    BeRoundTrip(value, 32);
    FromBe(BeBytes(value, 32))
  }

  datatype NameOrAddress = Name(name: string) | AddressOf(address: Address)

  /** The fields of the ethers `TransactionRequest` the conversion reads. */
  datatype TransactionRequest = TransactionRequest(
    from: Option<Address>,
    to: Option<NameOrAddress>,
    gas: Option<U256>,
    gasPrice: Option<U256>,
    value: Option<U256>,
    data: Option<seq<Byte>>,
    nonce: Option<U256>,
    chainId: Option<U64>)

  /** The fields of the rome-evm legacy transaction the conversion sets. */
  datatype LegacyTx = LegacyTx(
    nonce: U64,
    gasPrice: U256,
    gasLimit: U256,
    to: Option<Address>,
    value: U256,
    data: Option<seq<Byte>>,
    chainId: nat,
    from: Address)

  /**
   * `cast_transaction_request`. The nonce goes through `U256::as_u64`, which
   * panics above `u64::MAX`; callers must not pass such a nonce.
   */
  function CastTransactionRequest(request: TransactionRequest, chainId: U64): (tx: LegacyTx)
    requires request.nonce.Some? ==> request.nonce.value < U64_LIMIT
    ensures tx.nonce == request.nonce.GetOr(0)
    ensures tx.gasPrice == request.gasPrice.GetOr(0)
    ensures tx.gasLimit == request.gas.GetOr(0)
    ensures tx.value == request.value.GetOr(0)
    ensures tx.chainId == request.chainId.GetOr(chainId)
    ensures tx.to.Some? <==> request.to.Some?
    ensures request.to.Some? && request.to.value.Name? ==> tx.to.value == ZERO_ADDRESS
    ensures request.to.Some? && request.to.value.AddressOf? ==> tx.to.value == request.to.value.address
    ensures tx.data == Some(request.data.GetOr([]))
    ensures tx.from == request.from.GetOr(ZERO_ADDRESS)
  {
    LegacyTx(
      nonce := request.nonce.GetOr(0),
      gasPrice := match request.gasPrice case Some(v) => CastU256(v) case None => 0,
      gasLimit := match request.gas case Some(v) => CastU256(v) case None => 0,
      to := match request.to
            case Some(AddressOf(a)) => Some(a)
            case Some(Name(_)) => Some(ZERO_ADDRESS)
            case None => None,
      value := match request.value case Some(v) => CastU256(v) case None => 0,
      data := Some(request.data.GetOr([])),
      chainId := match request.chainId case Some(c) => c case None => chainId,
      from := request.from.GetOr(ZERO_ADDRESS))
  }
}
