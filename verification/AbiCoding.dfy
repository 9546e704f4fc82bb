/** The call that asks the exchange contract about a batch of orders: the tokens that go in, the tokens
    that come out, and that the two stay aligned. */
module AbiCoding {
  import opened Wrappers
  import opened Orders
  import opened BatcherSystem

  datatype Token =
    | AddressToken(address: Address)
    | Uint(n: U256)
    | FixedBytes(bytes: seq<Byte>)
    | Bool(b: bool)
    | Tuple(fields: seq<Token>)
    | Array(elements: seq<Token>)

  // ---------- the input ----------

  function OrderToken(o: LimitOrder): Token {
    Tuple([AddressToken(o.makerToken), AddressToken(o.takerToken), Uint(o.makerAmount), Uint(o.takerAmount),
           Uint(o.takerTokenFeeAmount), AddressToken(o.maker), AddressToken(o.taker), AddressToken(o.sender),
           AddressToken(o.feeRecipient), FixedBytes(o.pool), Uint(o.expiry), Uint(o.salt)])
  }

  function SignatureToken(s: Signature): Token {
    Tuple([Uint(SignatureCode(s.signatureType)), Uint(s.v), FixedBytes(s.r), FixedBytes(s.s)])
  }

  function IntoTokens(orders: seq<SignedOrder>): (tokens: seq<Token>) {
    [Array(seq(|orders|, i requires 0 <= i < |orders| => OrderToken(orders[i].order))),
     Array(seq(|orders|, i requires 0 <= i < |orders| => SignatureToken(orders[i].signature)))]
  }

  /** The token of an order says everything about it but its chain id and its contract. */
  lemma OrderTokenIsInjective(a: LimitOrder, b: LimitOrder)
    ensures OrderToken(a) == OrderToken(b)
            <==> a == b.(chainId := a.chainId, verifyingContract := a.verifyingContract)
  {
  }

  lemma SignatureTokenIsInjective(a: Signature, b: Signature)
    ensures SignatureToken(a) == SignatureToken(b) <==> a == b
  {
  }

  // ---------- the output ----------

  // Tokens of an unexpected kind panic; a wrong number of outputs and an unknown status are errors.
  datatype DecodeError = Panic | InvalidOutputType(what: string)

  datatype OrderInfo = OrderInfo(hash: H256, status: Byte, filled: U128)

  function DecodeStatus(code: Byte): (r: Result<OrderStatus, DecodeError>)
    ensures r.Success? <==> code <= 4
    ensures r.Success? ==> !r.value.Added?
  {
    if code == 0 then Success(Invalid)
    else if code == 1 then Success(Fillable)
    else if code == 2 then Success(FullyFilled)
    else if code == 3 then Success(Cancelled)
    else if code == 4 then Success(Expired)
    else Failure(InvalidOutputType("status"))
  }

  function ToOrderInfo(t: Token): Option<OrderInfo> {
    if t.Tuple? && |t.fields| == 3
       && t.fields[0].FixedBytes? && |t.fields[0].bytes| == 32
       && t.fields[1].Uint? && t.fields[1].n < 256
       && t.fields[2].Uint? && t.fields[2].n < TWO_128
    then Some(OrderInfo(t.fields[0].bytes, t.fields[1].n, t.fields[2].n))
    else None
  }

  function ToAmount(t: Token): Option<U128> {
    if t.Uint? && t.n < TWO_128 then Some(t.n) else None
  }

  function ToBool(t: Token): Option<bool> {
    if t.Bool? then Some(t.b) else None
  }

  /** Three arrays whose elements are all of the right kind. */
  predicate WellTyped(tokens: seq<Token>) {
    && |tokens| == 3 && tokens[0].Array? && tokens[1].Array? && tokens[2].Array?
    && (forall i | 0 <= i < |tokens[0].elements| :: ToOrderInfo(tokens[0].elements[i]).Some?)
    && (forall i | 0 <= i < |tokens[1].elements| :: ToAmount(tokens[1].elements[i]).Some?)
    && (forall i | 0 <= i < |tokens[2].elements| :: ToBool(tokens[2].elements[i]).Some?)
  }

  /** The number of positions at which all three arrays have an element. */
  function Positions(tokens: seq<Token>): nat
    requires WellTyped(tokens)
  {
    Min(Min(|tokens[0].elements|, |tokens[1].elements|), |tokens[2].elements|)
  }

  /** The state at one position of the output. */
  function StateAt(tokens: seq<Token>, i: nat): Result<SignedOrderState, DecodeError>
    requires WellTyped(tokens) && i < Positions(tokens)
  {
    var info := ToOrderInfo(tokens[0].elements[i]).value;
    match DecodeStatus(info.status)
    case Failure(e) => Failure(e)
    case Success(status) =>
      Success(SignedOrderState(info.hash, status, info.filled, ToAmount(tokens[1].elements[i]).value,
                               ToBool(tokens[2].elements[i]).value))
  }

  /** What decoding comes to: one state for every position, or the error of the first position that has
      one. */
  ghost predicate IsDecoded(tokens: seq<Token>, r: Result<seq<SignedOrderState>, DecodeError>) {
    if |tokens| != 3 then r == Failure(InvalidOutputType("three elements"))
    else if !WellTyped(tokens) then r == Failure(Panic)
    else if r.Success? then
      && |r.value| == Positions(tokens)
      && forall k | 0 <= k < Positions(tokens) :: StateAt(tokens, k) == Success(r.value[k])
    else
      exists n | 0 <= n < Positions(tokens) && StateAt(tokens, n) == Failure(r.error) ::
        forall k | 0 <= k < n :: StateAt(tokens, k).Success?
  }

  /** Decodes the output. The arrays are paired position by position, and the longer ones are cut off. */
  method FromTokens(tokens: seq<Token>) returns (r: Result<seq<SignedOrderState>, DecodeError>)
    ensures IsDecoded(tokens, r)
  {
    if |tokens| != 3 {
      return Failure(InvalidOutputType("three elements"));
    }
    if !WellTyped(tokens) {
      return Failure(Panic);
    }
    var result: seq<SignedOrderState> := [];
    for i := 0 to Positions(tokens)
      invariant |result| == i && forall k | 0 <= k < i :: StateAt(tokens, k) == Success(result[k])
    {
      var state := StateAt(tokens, i);
      if state.Failure? {
        return Failure(state.error);
      }
      result := result + [state.value];
    }
    r := Success(result);
  }

  // ---------- the call ----------

  // A panic while decoding gives no result at all.
  datatype FetchError = Reported(e: BatchError) | Crashed

  type Contract = seq<Token> -> Result<seq<Token>, string>

  /** The whole output can be decoded, and pairs up to `n` states. */
  ghost predicate GoodOutput(tokens: seq<Token>, n: nat) {
    WellTyped(tokens) && Positions(tokens) == n && forall i | 0 <= i < n :: StateAt(tokens, i).Success?
  }

  method FetchBatchState(contract: Contract, orders: seq<SignedOrder>)
    returns (r: Result<seq<SignedOrderState>, FetchError>)
    ensures r.Success? <==>
              contract(IntoTokens(orders)).Success? && GoodOutput(contract(IntoTokens(orders)).value, |orders|)
    ensures r.Success? ==>
              && |r.value| == |orders|
              && forall i | 0 <= i < |orders| :: StateAt(contract(IntoTokens(orders)).value, i) == Success(r.value[i])
    ensures contract(IntoTokens(orders)).Failure? ==> r == Failure(Reported(Web3Error(contract(IntoTokens(orders)).error)))
    ensures r == Failure(Reported(InvalidOutputLength)) <==>
              && contract(IntoTokens(orders)).Success? && WellTyped(contract(IntoTokens(orders)).value)
              && var tokens := contract(IntoTokens(orders)).value;
                 GoodOutput(tokens, Positions(tokens)) && Positions(tokens) != |orders|
    ensures r == Failure(Crashed) <==>
              && contract(IntoTokens(orders)).Success? && |contract(IntoTokens(orders)).value| == 3
              && !WellTyped(contract(IntoTokens(orders)).value)
  {
    var output := contract(IntoTokens(orders));
    if output.Failure? {
      return Failure(Reported(Web3Error(output.error)));
    }
    var decoded := FromTokens(output.value);
    if decoded.Failure? {
      return Failure(if decoded.error.Panic? then Crashed else Reported(Web3Error(decoded.error.what)));
    }
    var result := FetchResult(|orders|, Success(decoded.value));
    r := if result.Failure? then Failure(Reported(result.error)) else Success(result.value);
  }

  /** The arrays are cut to the shortest one, but an output that is too short never gets through. */
  lemma NoArrayIsShort(tokens: seq<Token>, n: nat)
    requires GoodOutput(tokens, n)
    ensures |tokens[0].elements| >= n && |tokens[1].elements| >= n && |tokens[2].elements| >= n
    ensures |tokens[0].elements| == n || |tokens[1].elements| == n || |tokens[2].elements| == n
  {
  }

  // ---------- a contract that answers position by position ----------

  // What the contract finds out about one order with one signature.
  type Verdict = (Token, Token) -> SignedOrderState

  function StatusCode(s: OrderStatus): Byte
    requires !s.Added?
  {
    match s
    case Invalid => 0
    case Fillable => 1
    case FullyFilled => 2
    case Cancelled => 3
    case Expired => 4
  }

  /** The output is the three columns of the verdicts on the orders and signatures of the input. */
  ghost predicate AnswersByPosition(verdict: Verdict, input: seq<Token>, output: seq<Token>)
    requires |input| == 2 && input[0].Array? && input[1].Array? && |input[0].elements| == |input[1].elements|
  {
    var n := |input[0].elements|;
    && |output| == 3 && output[0].Array? && output[1].Array? && output[2].Array?
    && |output[0].elements| == n && |output[1].elements| == n && |output[2].elements| == n
    && forall i | 0 <= i < n ::
         var state := verdict(input[0].elements[i], input[1].elements[i]);
         && !state.status.Added?
         && output[0].elements[i] == Tuple([FixedBytes(state.hash), Uint(StatusCode(state.status)), Uint(state.filled)])
         && output[1].elements[i] == Uint(state.fillable)
         && output[2].elements[i] == Bool(state.isSignatureValid)
  }

  /** Then decoding gives, for every order of the batch, the verdict on that order with its signature. */
  lemma BatchesStayAligned(verdict: Verdict, orders: seq<SignedOrder>, output: seq<Token>)
    requires AnswersByPosition(verdict, IntoTokens(orders), output)
    ensures GoodOutput(output, |orders|)
    ensures forall i | 0 <= i < |orders| ::
              StateAt(output, i) == Success(verdict(OrderToken(orders[i].order), SignatureToken(orders[i].signature)))
  {
  }
}
