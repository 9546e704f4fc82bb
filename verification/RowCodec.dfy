/** How orders are stored: every column as text, and how they are read back. */
module RowCodec {
  import opened Wrappers
  import opened Orders
  import opened Text
  import opened Eip712

  datatype Metadata = Metadata(hash: H256, remaining: U128, status: OrderStatus, createdAt: int)

  datatype StoredOrder = StoredOrder(signed: SignedOrder, metadata: Metadata)

  datatype Row = Row(
    hash: string, makerToken: string, takerToken: string, makerAmount: string, takerAmount: string,
    maker: string, taker: string, pool: string, expiry: string, salt: string, verifyingContract: string,
    takerTokenFeeAmount: string, sender: string, feeRecipient: string, signature: string, remaining: string,
    createdAt: int, invalidSince: Option<int>)

  // ---------- printing ----------

  function Prefixed(bytes: seq<Byte>): string {
    "0x" + Hex(bytes)
  }

  function SignatureParts(s: Signature): seq<string> {
    [Decimal(SignatureCode(s.signatureType)), Prefixed(s.r), Prefixed(s.s), Decimal(s.v)]
  }

  function Concatenate(s: Signature): string {
    Join(SignatureParts(s), ',')
  }

  /** The row that is written for a new order. */
  function Print(o: StoredOrder): Row {
    var order, metadata := o.signed.order, o.metadata;
    Row(Prefixed(metadata.hash), Prefixed(order.makerToken), Prefixed(order.takerToken),
        Decimal(order.makerAmount), Decimal(order.takerAmount), Prefixed(order.maker), Prefixed(order.taker),
        Prefixed(order.pool), Decimal(order.expiry), Decimal(order.salt), Prefixed(order.verifyingContract),
        Decimal(order.takerTokenFeeAmount), Prefixed(order.sender), Prefixed(order.feeRecipient),
        Concatenate(o.signed.signature), Decimal(metadata.remaining), metadata.createdAt, None)
  }

  // ---------- parsing ----------

  // A column that does not parse panics. A signature with the wrong number of parts ends the process.
  datatype BuildError = Panic | Abort

  function ParsePrefixedBytes(s: string, n: nat): (r: Option<seq<Byte>>)
    ensures r.Some? ==> |r.value| == n
  {
    if |s| < 2 then None else ParseHex(s[2..], n)
  }

  function ParseAddress(s: string): (r: Option<Address>) {
    if s == "" then Some(seq(20, _ => 0)) else ParsePrefixedBytes(s, 20)
  }

  function ParseHash(s: string): (r: Option<H256>) {
    ParsePrefixedBytes(s, 32)
  }

  function ParseSignature(s: string): Result<Signature, BuildError> {
    var parts := Split(s, ',');
    if |parts| != 4 then Failure(Abort)
    else
      var code, r, s, v := ParseInteger(parts[0], TWO_64), ParseHash(parts[1]), ParseHash(parts[2]), ParseInteger(parts[3], 256);
      if code.None? || r.None? || s.None? || v.None? then Failure(Panic)
      else if code.value == 2 then Success(Signature(EIP712, v.value, r.value, s.value))
      else if code.value == 3 then Success(Signature(EthSign, v.value, r.value, s.value))
      else Failure(Panic)
  }

  /** The addresses of an order, in the order of its fields. */
  datatype Addresses = Addresses(maker: Address, taker: Address, makerToken: Address, takerToken: Address,
                                 feeRecipient: Address, sender: Address, verifyingContract: Address)

  function ParseAddresses(row: Row): Option<Addresses> {
    var maker, taker := ParseAddress(row.maker), ParseAddress(row.taker);
    var makerToken, takerToken := ParseAddress(row.makerToken), ParseAddress(row.takerToken);
    var recipient, sender := ParseAddress(row.feeRecipient), ParseAddress(row.sender);
    var contract := ParseAddress(row.verifyingContract);
    if maker.None? || taker.None? || makerToken.None? || takerToken.None? || recipient.None? || sender.None? || contract.None?
    then None
    else Some(Addresses(maker.value, taker.value, makerToken.value, takerToken.value,
                        recipient.value, sender.value, contract.value))
  }

  datatype Amounts = Amounts(maker: U128, taker: U128, fee: U128, expiry: U64, salt: U256, remaining: U128)

  function ParseAmounts(row: Row): Option<Amounts> {
    var maker, taker := ParseDecimal(row.makerAmount, TWO_128), ParseDecimal(row.takerAmount, TWO_128);
    var fee, remaining := ParseDecimal(row.takerTokenFeeAmount, TWO_128), ParseDecimal(row.remaining, TWO_128);
    var expiry, salt := ParseInteger(row.expiry, TWO_64), ParseDecimal(row.salt, TWO_256);
    if maker.None? || taker.None? || fee.None? || remaining.None? || expiry.None? || salt.None? then None
    else Some(Amounts(maker.value, taker.value, fee.value, expiry.value, salt.value, remaining.value))
  }

  function Assemble(a: Addresses, n: Amounts, pool: H256): LimitOrder {
    LimitOrder(a.maker, a.taker, a.makerToken, a.takerToken, n.maker, n.taker, n.expiry, n.salt, a.feeRecipient,
               pool, n.fee, a.sender, a.verifyingContract, 0)
  }

  /** Reads a row. The chain id is not stored and comes back as zero. */
  function Build(row: Row): Result<StoredOrder, BuildError> {
    var a, n, pool := ParseAddresses(row), ParseAmounts(row), ParseHash(row.pool);
    var signature, hash := ParseSignature(row.signature), ParseHash(row.hash);
    if a.None? || n.None? || pool.None? then Failure(Panic)
    else if signature.Failure? then Failure(signature.error)
    else if hash.None? then Failure(Panic)
    else
      Success(StoredOrder(
                SignedOrder(Assemble(a.value, n.value, pool.value), signature.value),
                Metadata(hash.value, n.value.remaining, if row.invalidSince.None? then Fillable else Invalid, row.createdAt)))
  }

  // ---------- one undoes the other ----------

  /** The two characters in front of a hexadecimal column are not looked at. */
  lemma AnyPrefixWillDo(x: char, y: char, s: string, n: nat)
    ensures ParsePrefixedBytes([x, y] + s, n) == ParseHex(s, n)
  {
    assert ([x, y] + s)[2..] == s;
  }

  lemma PrefixedRoundTrip(bytes: seq<Byte>)
    ensures ParsePrefixedBytes(Prefixed(bytes), |bytes|) == Some(bytes)
    ensures ',' !in Prefixed(bytes)
  {
    HexRoundTrip(bytes);
    NoCommaInHex(bytes);
    assert Prefixed(bytes)[2..] == Hex(bytes);
  }

  lemma AddressRoundTrip(a: Address)
    ensures ParseAddress(Prefixed(a)) == Some(a)
  {
    PrefixedRoundTrip(a);
  }

  lemma SignatureRoundTrip(s: Signature)
    ensures ParseSignature(Concatenate(s)) == Success(s)
  {
    var parts := SignatureParts(s);
    PrefixedRoundTrip(s.r);
    PrefixedRoundTrip(s.s);
    NoCommaInDecimal(SignatureCode(s.signatureType));
    NoCommaInDecimal(s.v);
    assert forall i | 0 <= i < |parts| :: ',' !in parts[i];
    SplitJoin(parts, ',');
    DecimalRoundTrip(SignatureCode(s.signatureType), TWO_64);
    DecimalRoundTrip(s.v, 256);
  }

  lemma AddressesRoundTrip(o: StoredOrder)
    ensures var order := o.signed.order;
            ParseAddresses(Print(o)) == Some(Addresses(order.maker, order.taker, order.makerToken, order.takerToken,
                                                       order.feeRecipient, order.sender, order.verifyingContract))
  {
    var order := o.signed.order;
    AddressRoundTrip(order.maker);
    AddressRoundTrip(order.taker);
    AddressRoundTrip(order.makerToken);
    AddressRoundTrip(order.takerToken);
    AddressRoundTrip(order.feeRecipient);
    AddressRoundTrip(order.sender);
    AddressRoundTrip(order.verifyingContract);
  }

  lemma AmountsRoundTrip(o: StoredOrder)
    ensures var order := o.signed.order;
            ParseAmounts(Print(o)) == Some(Amounts(order.makerAmount, order.takerAmount, order.takerTokenFeeAmount,
                                                   order.expiry, order.salt, o.metadata.remaining))
  {
    var order := o.signed.order;
    DecimalRoundTrip(order.makerAmount, TWO_128);
    DecimalRoundTrip(order.takerAmount, TWO_128);
    DecimalRoundTrip(order.takerTokenFeeAmount, TWO_128);
    DecimalRoundTrip(o.metadata.remaining, TWO_128);
    DecimalRoundTrip(order.expiry, TWO_64);
    DecimalRoundTrip(order.salt, TWO_256);
  }

  /** What is read back is the order that was written, but for its chain id and its status. */
  lemma RowRoundTrip(o: StoredOrder, invalidSince: Option<int>)
    ensures Build(Print(o).(invalidSince := invalidSince))
            == Success(StoredOrder(o.signed.(order := o.signed.order.(chainId := 0)),
                                   o.metadata.(status := if invalidSince.None? then Fillable else Invalid)))
  {
    var row := Print(o).(invalidSince := invalidSince);
    AddressesRoundTrip(o);
    AmountsRoundTrip(o);
    SignatureRoundTrip(o.signed.signature);
    PrefixedRoundTrip(o.signed.order.pool);
    PrefixedRoundTrip(o.metadata.hash);
    assert ParseAddresses(row) == ParseAddresses(Print(o));
    assert ParseAmounts(row) == ParseAmounts(Print(o));
  }

  lemma BuildSucceedsIff(row: Row)
    ensures Build(row).Success? <==> && ParseAddresses(row).Some? && ParseAmounts(row).Some? && ParseHash(row.pool).Some?
                                     && ParseSignature(row.signature).Success? && ParseHash(row.hash).Some?
    ensures Build(row).Success? ==>
              Build(row).value.signed == SignedOrder(Assemble(ParseAddresses(row).value, ParseAmounts(row).value, ParseHash(row.pool).value),
                                                     ParseSignature(row.signature).value)
  {
  }

  /** A row ends the process, and does not just panic, exactly when all before its signature can be read
      and its signature does not have three commas. */
  lemma BuildAbortsIff(row: Row)
    ensures Build(row) == Failure(Abort)
            <==> && ParseAddresses(row).Some? && ParseAmounts(row).Some? && ParseHash(row.pool).Some?
                 && multiset(row.signature)[','] != 3
  {
    SplitCounts(row.signature, ',');
  }

  // ---------- reading the table ----------

  datatype ReadError = Unreadable(e: BuildError) | HashMismatch | InvalidOrder(reason: OrderError)

  // The signer of a hash, if the signature has one.
  type Recover = (Signature, H256) -> Option<Address>

  function ValidateSigned(o: SignedOrder, chain: ChainInfo, keccak: Digest, recover: Recover): Result<(), OrderError> {
    var r := ValidateOrder(o.order, chain);
    if r.Failure? then r
    else if recover(o.signature, OrderHash(keccak, o.order)) != Some(o.order.maker) then Failure(InvalidSignature)
    else Success(())
  }

  function WithChainId(o: StoredOrder, chainId: U64): StoredOrder {
    o.(signed := o.signed.(order := o.signed.order.(chainId := chainId)))
  }

  /** The checks on an order that was read. */
  function Check(o: StoredOrder, chain: ChainInfo, keccak: Digest, recover: Recover): Result<StoredOrder, ReadError> {
    if o.metadata.hash != OrderHash(keccak, o.signed.order) then Failure(HashMismatch)
    else
      var valid := ValidateSigned(o.signed, chain, keccak, recover);
      if valid.Failure? then Failure(InvalidOrder(valid.error)) else Success(o)
  }

  /** A row as `GetOrders` returns it, when all its checks pass. */
  function ReadRow(row: Row, chainId: U64, chain: ChainInfo, keccak: Digest, recover: Recover): Result<StoredOrder, ReadError> {
    match Build(row)
    case Failure(e) => Failure(Unreadable(e))
    case Success(o) => Check(WithChainId(o, chainId), chain, keccak, recover)
  }

  /** Runs the query: every row is built, and the first that does not build ends it. */
  method Load(rows: seq<Row>) returns (r: Result<seq<StoredOrder>, BuildError>)
    ensures Collected(rows, Build, r)
  {
    r := Collect(rows, Build);
  }

  method SetChainIds(built: seq<StoredOrder>, chainId: U64) returns (orders: seq<StoredOrder>)
    ensures |orders| == |built| && forall k | 0 <= k < |built| :: orders[k] == WithChainId(built[k], chainId)
  {
    orders := built;
    for i := 0 to |orders|
      invariant |orders| == |built|
      invariant forall k | 0 <= k < |built| :: orders[k] == if k < i then WithChainId(built[k], chainId) else built[k]
    {
      orders := orders[i := WithChainId(orders[i], chainId)];
    }
  }

  /** Checks all hashes, then all orders. The first check to fail decides the error. */
  method CheckAll(orders: seq<StoredOrder>, chain: ChainInfo, keccak: Digest, recover: Recover)
    returns (r: Result<seq<StoredOrder>, ReadError>)
    ensures r.Success? ==> r.value == orders && forall k | 0 <= k < |orders| :: Check(orders[k], chain, keccak, recover).Success?
    ensures r.Failure? ==> exists k | 0 <= k < |orders| :: Check(orders[k], chain, keccak, recover) == Failure(r.error)
    ensures r.Failure? && !r.error.HashMismatch? ==>
              forall k | 0 <= k < |orders| :: orders[k].metadata.hash == OrderHash(keccak, orders[k].signed.order)
  {
    for i := 0 to |orders|
      invariant forall k | 0 <= k < i :: orders[k].metadata.hash == OrderHash(keccak, orders[k].signed.order)
    {
      if orders[i].metadata.hash != OrderHash(keccak, orders[i].signed.order) {
        assert Check(orders[i], chain, keccak, recover) == Failure(HashMismatch);
        return Failure(HashMismatch);
      }
    }
    for i := 0 to |orders|
      invariant forall k | 0 <= k < i :: Check(orders[k], chain, keccak, recover).Success?
    {
      var valid := ValidateSigned(orders[i].signed, chain, keccak, recover);
      if valid.Failure? {
        assert Check(orders[i], chain, keccak, recover) == Failure(InvalidOrder(valid.error));
        return Failure(InvalidOrder(valid.error));
      }
    }
    r := Success(orders);
  }

  lemma ReadsAreChecks(rows: seq<Row>, built: seq<StoredOrder>, orders: seq<StoredOrder>,
                       chainId: U64, chain: ChainInfo, keccak: Digest, recover: Recover)
    requires Collected(rows, Build, Success(built)) && |orders| == |rows|
    requires forall k | 0 <= k < |rows| :: orders[k] == WithChainId(built[k], chainId)
    ensures forall i | 0 <= i < |rows| :: ReadRow(rows[i], chainId, chain, keccak, recover) == Check(orders[i], chain, keccak, recover)
  {
  }

  lemma UnreadableRow(rows: seq<Row>, e: BuildError, chainId: U64, chain: ChainInfo, keccak: Digest, recover: Recover)
    requires Collected(rows, Build, Failure(e))
    ensures exists i | 0 <= i < |rows| :: ReadRow(rows[i], chainId, chain, keccak, recover) == Failure(Unreadable(e))
  {
    var k: nat :| k < |rows| && Build(rows[k]) == Failure(e);
    assert ReadRow(rows[k], chainId, chain, keccak, recover) == Failure(Unreadable(e));
  }

  /** Reads the whole table. It succeeds exactly when every row passes, and otherwise reports the error
      of one of the rows: unreadable rows come first, then wrong hashes, then invalid orders. */
  method GetOrders(rows: seq<Row>, chainId: U64, chain: ChainInfo, keccak: Digest, recover: Recover)
    returns (r: Result<seq<StoredOrder>, ReadError>)
    ensures r.Success? ==>
              && |r.value| == |rows|
              && forall i | 0 <= i < |rows| :: ReadRow(rows[i], chainId, chain, keccak, recover) == Success(r.value[i])
    ensures r.Failure? ==> exists i | 0 <= i < |rows| :: ReadRow(rows[i], chainId, chain, keccak, recover) == Failure(r.error)
    ensures r.Failure? && !r.error.Unreadable? ==> forall i | 0 <= i < |rows| :: Build(rows[i]).Success?
    ensures r.Failure? && r.error.InvalidOrder? ==>
              forall i | 0 <= i < |rows| :: ReadRow(rows[i], chainId, chain, keccak, recover) != Failure(HashMismatch)
  {
    var loaded := Load(rows);
    if loaded.Failure? {
      UnreadableRow(rows, loaded.error, chainId, chain, keccak, recover);
      return Failure(Unreadable(loaded.error));
    }
    var orders := SetChainIds(loaded.value, chainId);
    ReadsAreChecks(rows, loaded.value, orders, chainId, chain, keccak, recover);
    r := CheckAll(orders, chain, keccak, recover);
  }

  /** What the service checks before it stores an order does not include the signature, which it leaves to
      the contract, nor the hash, which it takes from the contract. An order that passed can be read back
      exactly when recovery gives its maker, and it was stored under its own hash. */
  lemma AcceptedOrdersAreReadableIff(o: StoredOrder, invalidSince: Option<int>, chain: ChainInfo, keccak: Digest, recover: Recover)
    requires ValidateOrder(o.signed.order, chain).Success?
    ensures chain.chainId < TWO_64
    ensures ReadRow(Print(o).(invalidSince := invalidSince), chain.chainId, chain, keccak, recover).Success?
            <==> && o.metadata.hash == OrderHash(keccak, o.signed.order)
                 && recover(o.signed.signature, OrderHash(keccak, o.signed.order)) == Some(o.signed.order.maker)
  {
    RowRoundTrip(o, invalidSince);
    assert o.signed.order.chainId == chain.chainId;
    assert o.signed.order.(chainId := 0).(chainId := chain.chainId) == o.signed.order;
  }

  /** A valid order that was stored under its own hash is read back unchanged, except that its status is
      reduced to whether it is marked invalid. */
  lemma StoredOrdersAreReadBack(o: StoredOrder, invalidSince: Option<int>, chain: ChainInfo, keccak: Digest, recover: Recover)
    requires ValidateSigned(o.signed, chain, keccak, recover).Success?
    requires o.metadata.hash == OrderHash(keccak, o.signed.order)
    ensures chain.chainId < TWO_64
    ensures ReadRow(Print(o).(invalidSince := invalidSince), chain.chainId, chain, keccak, recover)
            == Success(o.(metadata := o.metadata.(status := if invalidSince.None? then Fillable else Invalid)))
  {
    RowRoundTrip(o, invalidSince);
    assert o.signed.order.chainId == chain.chainId;
    assert o.signed.order.(chainId := 0).(chainId := chain.chainId) == o.signed.order;
  }
}
