/** Orders, their signatures and what the exchange contract says about them. */
module Orders {
  import opened Wrappers

  const TWO_64: int := 0x1_0000_0000_0000_0000
  const TWO_128: int := 0x1_0000_0000_0000_0000_0000_0000_0000_0000
  const TWO_256: int := 0x1_0000_0000_0000_0000_0000_0000_0000_0000_0000_0000_0000_0000_0000_0000_0000_0000

  type Byte = n: int | 0 <= n < 256
  type U64 = n: int | 0 <= n < TWO_64
  type U128 = n: int | 0 <= n < TWO_128
  type U256 = n: int | 0 <= n < TWO_256

  type Address = s: seq<Byte> | |s| == 20 witness seq(20, _ => 0)
  type H256 = s: seq<Byte> | |s| == 32 witness seq(32, _ => 0)

  datatype LimitOrder = LimitOrder(
    maker: Address, taker: Address, makerToken: Address, takerToken: Address,
    makerAmount: U128, takerAmount: U128, expiry: U64, salt: U256,
    feeRecipient: Address, pool: H256, takerTokenFeeAmount: U128, sender: Address,
    verifyingContract: Address, chainId: U64)

  datatype SignatureType = EIP712 | EthSign

  datatype Signature = Signature(signatureType: SignatureType, v: Byte, r: H256, s: H256)

  datatype SignedOrder = SignedOrder(order: LimitOrder, signature: Signature)

  datatype OrderStatus = Added | Invalid | Fillable | FullyFilled | Cancelled | Expired

  datatype SignedOrderState = SignedOrderState(
    hash: H256, status: OrderStatus, filled: U128, fillable: U128, isSignatureValid: bool)

  datatype OrderError =
    | ZeroMakerAmount | ZeroTakerAmount | InvalidMakerAddress | InvalidTakerAddress
    | InvalidVerifyingContract | InvalidSignature | Cancelled_ | Expired_ | Unfunded | FullyFilled_

  datatype ChainInfo = ChainInfo(chainId: U256, exchange: Address, flashWallet: Address)

  function SignatureCode(t: SignatureType): Byte {
    match t
    case EIP712 => 2
    case EthSign => 3
  }

  predicate IsZero(bytes: seq<Byte>) {
    forall i | 0 <= i < |bytes| :: bytes[i] == 0
  }

  /** The checks an order must pass before anything is asked about it; the first that fails is reported. */
  function ValidateOrder(o: LimitOrder, chain: ChainInfo): (r: Result<(), OrderError>)
    ensures r.Success? <==>
              && o.makerAmount != 0 && o.takerAmount != 0 && !IsZero(o.maker)
              && o.taker != chain.flashWallet && o.chainId == chain.chainId && o.verifyingContract == chain.exchange
    ensures r == Failure(ZeroMakerAmount) <==> o.makerAmount == 0
    ensures r == Failure(ZeroTakerAmount) <==> o.takerAmount == 0 && o.makerAmount > 0
    ensures r == Failure(InvalidMakerAddress) <==> IsZero(o.maker) && o.takerAmount > 0 && o.makerAmount > 0
    ensures r == Failure(InvalidTakerAddress) <==>
              o.taker == chain.flashWallet && !IsZero(o.maker) && o.takerAmount > 0 && o.makerAmount > 0
    ensures r.Failure? ==>
              || r.error in {ZeroMakerAmount, ZeroTakerAmount, InvalidMakerAddress, InvalidTakerAddress}
              || r.error == InvalidVerifyingContract
  {
    if o.makerAmount == 0 then Failure(ZeroMakerAmount)
    else if o.takerAmount == 0 then Failure(ZeroTakerAmount)
    else if IsZero(o.maker) then Failure(InvalidMakerAddress)
    else if o.taker == chain.flashWallet then Failure(InvalidTakerAddress)
    else if o.chainId != chain.chainId then Failure(InvalidVerifyingContract)
    else if o.verifyingContract != chain.exchange then Failure(InvalidVerifyingContract)
    else Success(())
  }

  /** Whether a state lets the order be filled. */
  function ValidateState(s: SignedOrderState): (r: Result<(), OrderError>)
    ensures r.Success? <==> s.isSignatureValid && (s.status.Added? || s.status.Fillable?)
    ensures r == Failure(InvalidSignature) <==> !s.isSignatureValid
    ensures s.isSignatureValid ==>
              && (r == Failure(Unfunded) <==> s.status.Invalid?)
              && (r == Failure(FullyFilled_) <==> s.status.FullyFilled?)
              && (r == Failure(Cancelled_) <==> s.status.Cancelled?)
              && (r == Failure(Expired_) <==> s.status.Expired?)
  {
    if !s.isSignatureValid then Failure(InvalidSignature)
    else
      match s.status
      case Added | Fillable => Success(())
      case Invalid => Failure(Unfunded)
      case FullyFilled => Failure(FullyFilled_)
      case Cancelled => Failure(Cancelled_)
      case Expired => Failure(Expired_)
  }
}
