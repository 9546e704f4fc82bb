/** The members of an order by their names, as a reference for everything that lists them: the hash
    pre-image, the tokens of the call, and the columns of the table. */
module OrderMembers {
  import opened Wrappers
  import opened Orders
  import opened Text
  import opened Eip712
  import opened AbiCoding
  import opened RowCodec
  import OrderTable

  datatype Member =
    | MakerToken | TakerToken | MakerAmount | TakerAmount | TakerTokenFeeAmount
    | Maker | Taker | SenderAddress | FeeRecipient | Pool | Expiry | Salt
    | ChainId | VerifyingContract

  datatype Value = AddressValue(a: Address) | NumberValue(n: U256) | Bytes32Value(b: H256)

  function ValueOf(o: LimitOrder, m: Member): Value {
    match m
    case MakerToken => AddressValue(o.makerToken)
    case TakerToken => AddressValue(o.takerToken)
    case MakerAmount => NumberValue(o.makerAmount)
    case TakerAmount => NumberValue(o.takerAmount)
    case TakerTokenFeeAmount => NumberValue(o.takerTokenFeeAmount)
    case Maker => AddressValue(o.maker)
    case Taker => AddressValue(o.taker)
    case SenderAddress => AddressValue(o.sender)
    case FeeRecipient => AddressValue(o.feeRecipient)
    case Pool => Bytes32Value(o.pool)
    case Expiry => NumberValue(o.expiry)
    case Salt => NumberValue(o.salt)
    case ChainId => NumberValue(o.chainId)
    case VerifyingContract => AddressValue(o.verifyingContract)
  }

  /** The members of the struct in the order of its type, for the hash and for the contract alike. */
  function OrderType(): seq<Member> {
    [MakerToken, TakerToken, MakerAmount, TakerAmount, TakerTokenFeeAmount, Maker, Taker, SenderAddress,
     FeeRecipient, Pool, Expiry, Salt]
  }

  // ---------- the hash ----------

  /** A value as one word of 32 bytes (section "Definition of encodeData" of EIP-712). */
  function WordOf(v: Value): H256 {
    match v
    case AddressValue(a) => Padded(a)
    case NumberValue(n) => Word(n)
    case Bytes32Value(b) => b
  }

  function WordsOf(o: LimitOrder, members: seq<Member>): seq<seq<Byte>> {
    seq(|members|, i requires 0 <= i < |members| => WordOf(ValueOf(o, members[i])))
  }

  /** The words of the members, one after the other. */
  function EncodeData(o: LimitOrder, members: seq<Member>): seq<Byte> {
    Flat(WordsOf(o, members))
  }

  /** The hash of a struct is that of its type hash and its data (section "Definition of hashStruct"). */
  function HashStruct(keccak: Digest, typeHash: H256, data: seq<Byte>): H256 {
    keccak(typeHash + data)
  }

  /** Each word of the struct pre-image is that of the member at its place in the type, after the hash of the
      type. */
  lemma StructWordsFollowTheType(o: LimitOrder)
    ensures StructParts(o) == [TYPE_HASH] + WordsOf(o, OrderType())
  {
  }

  /** The words of the domain separator: name, version, chain id and contract. */
  lemma DomainWordsFollowTheType(o: LimitOrder)
    ensures DomainParts(o) == [DOMAIN_SEPARATOR_TYPE_HASH] + ([NAME_HASH, VERSION_HASH] + WordsOf(o, [ChainId, VerifyingContract]))
  {
  }

  lemma FlatOfOne(a: seq<Byte>, rest: seq<seq<Byte>>)
    ensures Flat([a] + rest) == a + Flat(rest)
  {
    FlatConcat([a], rest);
    assert [a][..0] == [] && Flat([a]) == [] + a;
  }

  lemma FlatOfTwo(a: seq<Byte>, b: seq<Byte>, rest: seq<seq<Byte>>)
    ensures Flat([a, b] + rest) == a + b + Flat(rest)
  {
    assert [a, b] + rest == [a] + ([b] + rest);
    FlatOfOne(a, [b] + rest);
    FlatOfOne(b, rest);
  }

  lemma DomainPreimage(o: LimitOrder)
    ensures Flat(DomainParts(o))
            == DOMAIN_SEPARATOR_TYPE_HASH + (NAME_HASH + VERSION_HASH + EncodeData(o, [ChainId, VerifyingContract]))
  {
    var data := WordsOf(o, [ChainId, VerifyingContract]);
    DomainWordsFollowTheType(o);
    FlatOfOne(DOMAIN_SEPARATOR_TYPE_HASH, [NAME_HASH, VERSION_HASH] + data);
    FlatOfTwo(NAME_HASH, VERSION_HASH, data);
  }

  lemma StructPreimage(o: LimitOrder)
    ensures Flat(StructParts(o)) == TYPE_HASH + EncodeData(o, OrderType())
  {
    StructWordsFollowTheType(o);
    FlatOfOne(TYPE_HASH, WordsOf(o, OrderType()));
  }

  lemma FlatOfThree(a: seq<Byte>, b: seq<Byte>, c: seq<Byte>)
    ensures Flat([a, b, c]) == a + b + c
  {
    assert [a, b, c] == [a, b] + [c] && [c] == [c] + [];
    FlatOfTwo(a, b, [c]);
    FlatOfOne(c, []);
    assert c + [] == c;
  }

  /** The hash of an order is the one EIP-712 defines for its type: the digest of 0x19 0x01, the domain
      separator, and the hash of the struct. */
  lemma OrderHashFollowsTheDefinition(keccak: Digest, o: LimitOrder)
    ensures OrderHash(keccak, o)
            == keccak([0x19, 0x01]
                      + HashStruct(keccak, DOMAIN_SEPARATOR_TYPE_HASH,
                                   NAME_HASH + VERSION_HASH + EncodeData(o, [ChainId, VerifyingContract]))
                      + HashStruct(keccak, TYPE_HASH, EncodeData(o, OrderType())))
  {
    DomainPreimage(o);
    StructPreimage(o);
    FlatOfThree([0x19, 0x01], keccak(Flat(DomainParts(o))), keccak(Flat(StructParts(o))));
  }

  // ---------- the call ----------

  function TokenOf(v: Value): Token {
    match v
    case AddressValue(a) => AddressToken(a)
    case NumberValue(n) => Uint(n)
    case Bytes32Value(b) => FixedBytes(b)
  }

  /** The contract gets the members in the order of its interface. */
  lemma OrderTokenFollowsTheType(o: LimitOrder)
    ensures OrderToken(o).fields
            == seq(|OrderType()|, i requires 0 <= i < |OrderType()| => TokenOf(ValueOf(o, OrderType()[i])))
  {
  }

  datatype SignatureMember = TypeCode | V | R | S

  function SignatureValue(s: Signature, m: SignatureMember): Value {
    match m
    case TypeCode => NumberValue(SignatureCode(s.signatureType))
    case V => NumberValue(s.v)
    case R => Bytes32Value(s.r)
    case S => Bytes32Value(s.s)
  }

  function SignatureMembers(): seq<SignatureMember> {
    [TypeCode, V, R, S]
  }

  lemma SignatureTokenFollowsTheType(s: Signature)
    ensures SignatureToken(s).fields
            == seq(4, i requires 0 <= i < 4 => TokenOf(SignatureValue(s, SignatureMembers()[i])))
  {
  }

  // ---------- the table ----------

  function TextOf(v: Value): string {
    match v
    case AddressValue(a) => Prefixed(a)
    case NumberValue(n) => Decimal(n)
    case Bytes32Value(b) => Prefixed(b)
  }

  /** The column named after a member. The chain id has none. */
  function Column(row: Row, m: Member): Option<string> {
    match m
    case MakerToken => Some(row.makerToken)
    case TakerToken => Some(row.takerToken)
    case MakerAmount => Some(row.makerAmount)
    case TakerAmount => Some(row.takerAmount)
    case TakerTokenFeeAmount => Some(row.takerTokenFeeAmount)
    case Maker => Some(row.maker)
    case Taker => Some(row.taker)
    case SenderAddress => Some(row.sender)
    case FeeRecipient => Some(row.feeRecipient)
    case Pool => Some(row.pool)
    case Expiry => Some(row.expiry)
    case Salt => Some(row.salt)
    case ChainId => None
    case VerifyingContract => Some(row.verifyingContract)
  }

  /** Every column of a new row holds the member it is named after. */
  lemma ColumnsHoldTheirMembers(o: StoredOrder, m: Member)
    ensures Column(Print(o), m) == if m == ChainId then None else Some(TextOf(ValueOf(o.signed.order, m)))
  {
  }

  /** The part of a row that changes. */
  function EntryOf(row: Row): Option<OrderTable.Entry> {
    var remaining := ParseDecimal(row.remaining, TWO_128);
    if remaining.None? then None else Some(OrderTable.Entry(row.createdAt, remaining.value, row.invalidSince))
  }

  /** A new row is the one that the table holds after an insert without a conflict: it carries no mark. */
  lemma PrintedRowIsTheInsertedOne(o: StoredOrder)
    ensures EntryOf(Print(o)) == Some(OrderTable.Upsert(None, o.metadata.createdAt, o.metadata.remaining))
  {
    DecimalRoundTrip(o.metadata.remaining, TWO_128);
  }

  /** As it is printed, a row is read back with its order, and open. */
  lemma PrintedRowIsOpen(o: StoredOrder)
    ensures Build(Print(o)) == Success(StoredOrder(o.signed.(order := o.signed.order.(chainId := 0)),
                                                   o.metadata.(status := Fillable)))
  {
    RowRoundTrip(o, None);
    assert Print(o).(invalidSince := None) == Print(o);
  }

  /** What is read back of the part that changes is what the order table says. */
  lemma BuildReadsTheEntry(row: Row)
    requires Build(row).Success?
    ensures EntryOf(row).Some?
    ensures var metadata := Build(row).value.metadata;
            OrderTable.Read(EntryOf(row).value) == OrderTable.Snapshot(metadata.remaining, metadata.status)
  {
  }

  function ZeroAddress(): Address {
    seq(20, _ => 0)
  }

  /** A row whose column for this address is empty. */
  function Blanked(row: Row, m: Member): Row {
    match m
    case MakerToken => row.(makerToken := "")
    case TakerToken => row.(takerToken := "")
    case Maker => row.(maker := "")
    case Taker => row.(taker := "")
    case SenderAddress => row.(sender := "")
    case FeeRecipient => row.(feeRecipient := "")
    case VerifyingContract => row.(verifyingContract := "")
    case _ => row
  }

  function ZeroedAddress(a: Addresses, m: Member): Addresses {
    match m
    case MakerToken => a.(makerToken := ZeroAddress())
    case TakerToken => a.(takerToken := ZeroAddress())
    case Maker => a.(maker := ZeroAddress())
    case Taker => a.(taker := ZeroAddress())
    case SenderAddress => a.(sender := ZeroAddress())
    case FeeRecipient => a.(feeRecipient := ZeroAddress())
    case VerifyingContract => a.(verifyingContract := ZeroAddress())
    case _ => a
  }

  lemma BlankedParses(row: Row, m: Member)
    requires ParseAddresses(row).Some?
    ensures ParseAddresses(Blanked(row, m)) == Some(ZeroedAddress(ParseAddresses(row).value, m))
  {
    match m {
      case MakerToken =>
      case TakerToken =>
      case Maker =>
      case Taker =>
      case SenderAddress =>
      case FeeRecipient =>
      case VerifyingContract =>
      case _ =>
    }
  }

  /** The rest of a row. */
  lemma BlankedKeepsTheRest(row: Row, m: Member)
    ensures ParseAmounts(Blanked(row, m)) == ParseAmounts(row)
    ensures Blanked(row, m).pool == row.pool && Blanked(row, m).signature == row.signature && Blanked(row, m).hash == row.hash
  {
  }

  function Zeroed(o: LimitOrder, m: Member): LimitOrder {
    match m
    case MakerToken => o.(makerToken := ZeroAddress())
    case TakerToken => o.(takerToken := ZeroAddress())
    case Maker => o.(maker := ZeroAddress())
    case Taker => o.(taker := ZeroAddress())
    case SenderAddress => o.(sender := ZeroAddress())
    case FeeRecipient => o.(feeRecipient := ZeroAddress())
    case VerifyingContract => o.(verifyingContract := ZeroAddress())
    case _ => o
  }

  lemma ZeroedIsAssembled(a: Addresses, n: Amounts, pool: H256, m: Member)
    ensures Assemble(ZeroedAddress(a, m), n, pool) == Zeroed(Assemble(a, n, pool), m)
  {
  }

  /** An empty address column stands for the zero address, in every row that can be read, and the rest of
      the row is read as ever. */
  lemma EmptyAddressesAreZero(row: Row, m: Member)
    requires Build(row).Success?
    ensures Build(Blanked(row, m)).Success?
    ensures Build(Blanked(row, m)).value.signed
            == Build(row).value.signed.(order := Zeroed(Build(row).value.signed.order, m))
  {
    BuildSucceedsIff(row);
    BuildSucceedsIff(Blanked(row, m));
    BlankedParses(row, m);
    BlankedKeepsTheRest(row, m);
    ZeroedIsAssembled(ParseAddresses(row).value, ParseAmounts(row).value, ParseHash(row.pool).value, m);
  }
}
