/** The hash of an order, as EIP-712 prescribes it (sections "Definition of hashStruct", "Definition of
    encodeData" and "Definition of domainSeparator"). */
module Eip712 {
  import opened Wrappers
  import opened Orders

  const DOMAIN_SEPARATOR_TYPE_HASH: H256 := [
    0x8b, 0x73, 0xc3, 0xc6, 0x9b, 0xb8, 0xfe, 0x3d, 0x51, 0x2e, 0xcc, 0x4c, 0xf7, 0x59, 0xcc, 0x79,
    0x23, 0x9f, 0x7b, 0x17, 0x9b, 0x0f, 0xfa, 0xca, 0xa9, 0xa7, 0x5d, 0x52, 0x2b, 0x39, 0x40, 0x0f]
  const NAME_HASH: H256 := [
    0x9e, 0x5d, 0xae, 0x0a, 0xdd, 0xaf, 0x20, 0x57, 0x8a, 0xeb, 0x5d, 0x70, 0x34, 0x1d, 0x09, 0x2b,
    0x53, 0xb4, 0xe1, 0x44, 0x80, 0xac, 0x57, 0x26, 0x43, 0x8f, 0xd4, 0x36, 0xdf, 0x7b, 0xa4, 0x27]
  const VERSION_HASH: H256 := [
    0x06, 0xc0, 0x15, 0xbd, 0x22, 0xb4, 0xc6, 0x96, 0x90, 0x93, 0x3c, 0x10, 0x58, 0x87, 0x8e, 0xbd,
    0xfe, 0xf3, 0x1f, 0x9a, 0xaa, 0xe4, 0x0b, 0xbe, 0x86, 0xd8, 0xa0, 0x9f, 0xe1, 0xb2, 0x97, 0x2c]
  const TYPE_HASH: H256 := [
    0xce, 0x91, 0x86, 0x27, 0xcb, 0x55, 0x46, 0x2d, 0xdb, 0xb8, 0x5e, 0x73, 0xde, 0x69, 0xa8, 0xb3,
    0x22, 0xf2, 0xbc, 0x88, 0xf4, 0x50, 0x7c, 0x52, 0xfc, 0xad, 0x6d, 0x4c, 0x33, 0xc2, 0x9d, 0x49]

  // Any function from byte strings to 32 bytes can take the place of Keccak.
  type Digest = seq<Byte> -> H256

  /** The last `width` bytes of a number, most significant first. */
  function BigEndian(n: nat, width: nat): (s: seq<Byte>)
    ensures |s| == width
  {
    if width == 0 then [] else BigEndian(n / 256, width - 1) + [n % 256]
  }

  function Word(n: U256): H256 {
    BigEndian(n, 32)
  }

  function Padded(a: Address): H256 {
    seq(12, _ => 0) + a
  }

  function Flat(parts: seq<seq<Byte>>): seq<Byte> {
    if parts == [] then [] else Flat(parts[..|parts| - 1]) + parts[|parts| - 1]
  }

  function DomainParts(o: LimitOrder): seq<seq<Byte>> {
    [DOMAIN_SEPARATOR_TYPE_HASH, NAME_HASH, VERSION_HASH, Word(o.chainId), Padded(o.verifyingContract)]
  }

  function StructParts(o: LimitOrder): seq<seq<Byte>> {
    [TYPE_HASH, Padded(o.makerToken), Padded(o.takerToken), Word(o.makerAmount), Word(o.takerAmount),
     Word(o.takerTokenFeeAmount), Padded(o.maker), Padded(o.taker), Padded(o.sender), Padded(o.feeRecipient),
     o.pool, Word(o.expiry), Word(o.salt)]
  }

  function HashParts(keccak: Digest, o: LimitOrder): seq<seq<Byte>> {
    [[0x19, 0x01], keccak(Flat(DomainParts(o))), keccak(Flat(StructParts(o)))]
  }

  function OrderHash(keccak: Digest, o: LimitOrder): H256 {
    keccak(Flat(HashParts(keccak, o)))
  }

  // ---------- computing it ----------

  /** Writes a number into a buffer of 32 bytes. */
  method ToBigEndian(value: U256) returns (buffer: array<Byte>)
    ensures fresh(buffer) && buffer[..] == Word(value)
  {
    buffer := new Byte[32](_ => 0);
    var rest: nat := value;
    for i := 32 downto 0
      invariant BigEndian(value, 32) == BigEndian(rest, i) + buffer[i..]
    {
      buffer[i] := rest % 256;
      rest := rest / 256;
    }
  }

  class Hasher {
    const keccak: Digest
    // What was absorbed, update by update.
    var parts: seq<seq<Byte>>

    constructor (keccak: Digest)
      ensures parts == [] && this.keccak == keccak
    {
      this.keccak := keccak;
      parts := [];
    }

    method Update(bytes: seq<Byte>)
      modifies this
      ensures parts == old(parts) + [bytes]
    {
      parts := parts + [bytes];
    }

    method UpdateNumber(value: U256)
      modifies this
      ensures parts == old(parts) + [Word(value)]
    {
      var buffer := ToBigEndian(value);
      Update(buffer[..]);
    }

    method Finalize() returns (h: H256)
      ensures h == keccak(Flat(parts))
    {
      h := keccak(Flat(parts));
    }
  }

  method DomainHash(keccak: Digest, o: LimitOrder) returns (h: H256)
    ensures h == keccak(Flat(DomainParts(o)))
  {
    var hasher := new Hasher(keccak);
    hasher.Update(DOMAIN_SEPARATOR_TYPE_HASH);
    hasher.Update(NAME_HASH);
    hasher.Update(VERSION_HASH);
    hasher.UpdateNumber(o.chainId);
    hasher.Update(Padded(o.verifyingContract));
    assert hasher.parts == DomainParts(o);
    h := hasher.Finalize();
  }

  method StructHash(keccak: Digest, o: LimitOrder) returns (h: H256)
    ensures h == keccak(Flat(StructParts(o)))
  {
    var hasher := new Hasher(keccak);
    UpdateAssets(hasher, o);
    UpdateParties(hasher, o);
    assert hasher.parts == StructParts(o);
    h := hasher.Finalize();
  }

  /** The first part of the struct hash: the type and what is exchanged. */
  method UpdateAssets(hasher: Hasher, o: LimitOrder)
    modifies hasher
    ensures hasher.parts == old(hasher.parts) + StructParts(o)[..6]
  {
    hasher.Update(TYPE_HASH);
    hasher.Update(Padded(o.makerToken));
    hasher.Update(Padded(o.takerToken));
    hasher.UpdateNumber(o.makerAmount);
    hasher.UpdateNumber(o.takerAmount);
    hasher.UpdateNumber(o.takerTokenFeeAmount);
  }

  /** The rest: who takes part, and when. */
  method UpdateParties(hasher: Hasher, o: LimitOrder)
    modifies hasher
    ensures hasher.parts == old(hasher.parts) + StructParts(o)[6..]
  {
    hasher.Update(Padded(o.maker));
    hasher.Update(Padded(o.taker));
    hasher.Update(Padded(o.sender));
    hasher.Update(Padded(o.feeRecipient));
    hasher.Update(o.pool);
    hasher.UpdateNumber(o.expiry);
    hasher.UpdateNumber(o.salt);
  }

  method Hash(keccak: Digest, o: LimitOrder) returns (h: H256)
    ensures h == OrderHash(keccak, o)
  {
    var hasher := new Hasher(keccak);
    hasher.Update([0x19, 0x01]);
    var domain := DomainHash(keccak, o);
    hasher.Update(domain);
    var struct_ := StructHash(keccak, o);
    hasher.Update(struct_);
    assert hasher.parts == HashParts(keccak, o);
    h := hasher.Finalize();
  }

  // ---------- what it identifies ----------

  function FromBigEndian(s: seq<Byte>): nat {
    if s == [] then 0 else 256 * FromBigEndian(s[..|s| - 1]) + s[|s| - 1]
  }

  function Pow256(width: nat): nat {
    if width == 0 then 1 else 256 * Pow256(width - 1)
  }

  lemma {:induction false} BigEndianRoundTrip(n: nat, width: nat)
    requires n < Pow256(width)
    ensures FromBigEndian(BigEndian(n, width)) == n
  {
    if width > 0 {
      BigEndianRoundTrip(n / 256, width - 1);
      var s := BigEndian(n, width);
      assert s[..width - 1] == BigEndian(n / 256, width - 1);
    }
  }

  lemma Pow256Of32()
    ensures Pow256(32) == TWO_256
  {
    assert Pow256(8) == TWO_64;
    assert Pow256(16) == TWO_128;
    assert Pow256(24) == TWO_128 * TWO_64;
  }

  lemma WordIsInjective(a: U256, b: U256)
    ensures Word(a) == Word(b) ==> a == b
  {
    Pow256Of32();
    BigEndianRoundTrip(a, 32);
    BigEndianRoundTrip(b, 32);
  }

  lemma PaddedIsInjective(a: Address, b: Address)
    ensures Padded(a) == Padded(b) ==> a == b
  {
    assert a == Padded(a)[12..] && b == Padded(b)[12..];
  }

  lemma {:induction false} FlatConcat(a: seq<seq<Byte>>, b: seq<seq<Byte>>)
    ensures Flat(a + b) == Flat(a) + Flat(b)
  {
    if b == [] {
      assert a + b == a;
    } else {
      assert (a + b)[..|a + b| - 1] == a + b[..|b| - 1];
      FlatConcat(a, b[..|b| - 1]);
    }
  }

  lemma {:induction false} ZerosInFront(zeros: nat, bytes: seq<Byte>)
    ensures FromBigEndian(seq(zeros, _ => 0) + bytes) == FromBigEndian(bytes)
    decreases zeros + |bytes|
  {
    var s := seq(zeros, _ => 0) + bytes;
    if bytes != [] {
      assert s[..|s| - 1] == seq(zeros, _ => 0) + bytes[..|bytes| - 1];
      ZerosInFront(zeros, bytes[..|bytes| - 1]);
    } else if zeros > 0 {
      assert s[..|s| - 1] == seq(zeros - 1, _ => 0) + bytes;
      ZerosInFront(zeros - 1, bytes);
    }
  }

  /** Padding does not change the number that the bytes of an address stand for. */
  lemma PaddedIsTheSameNumber(a: Address)
    ensures FromBigEndian(Padded(a)) == FromBigEndian(a)
  {
    ZerosInFront(12, a);
  }

  /** A byte string can be cut into parts of given lengths in only one way. */
  lemma {:induction false} FlatIsInjective(a: seq<seq<Byte>>, b: seq<seq<Byte>>)
    requires |a| == |b| && forall i | 0 <= i < |a| :: |a[i]| == |b[i]|
    requires Flat(a) == Flat(b)
    ensures a == b
  {
    if a != [] {
      var n := |a| - 1;
      var x, y := Flat(a[..n]), Flat(b[..n]);
      assert Flat(a) == x + a[n] && Flat(b) == y + b[n];
      assert |x| == |y|;
      assert x == Flat(a)[..|x|] && y == Flat(b)[..|x|];
      assert a[n] == Flat(a)[|x|..] && b[n] == Flat(b)[|x|..];
      FlatIsInjective(a[..n], b[..n]);
      assert a == a[..n] + [a[n]] && b == b[..n] + [b[n]];
    }
  }

  predicate SameDomain(a: LimitOrder, b: LimitOrder) {
    a.chainId == b.chainId && a.verifyingContract == b.verifyingContract
  }

  predicate SameStruct(a: LimitOrder, b: LimitOrder) {
    a == b.(chainId := a.chainId, verifyingContract := a.verifyingContract)
  }

  /** The domain pre-image identifies the chain id and the contract, and nothing else. */
  lemma DomainIsInjective(a: LimitOrder, b: LimitOrder)
    ensures Flat(DomainParts(a)) == Flat(DomainParts(b)) <==> SameDomain(a, b)
  {
    var p, q := DomainParts(a), DomainParts(b);
    if Flat(p) == Flat(q) {
      FlatIsInjective(p, q);
      assert p[3] == q[3] && p[4] == q[4];
      WordIsInjective(a.chainId, b.chainId);
      PaddedIsInjective(a.verifyingContract, b.verifyingContract);
    }
  }

  /** The struct pre-image identifies every other field. */
  lemma StructIsInjective(a: LimitOrder, b: LimitOrder)
    ensures Flat(StructParts(a)) == Flat(StructParts(b)) <==> SameStruct(a, b)
  {
    var p, q := StructParts(a), StructParts(b);
    if Flat(p) == Flat(q) {
      FlatIsInjective(p, q);
      assert forall i | 0 <= i < 13 :: p[i] == q[i];
      assert p[1] == q[1] && p[2] == q[2] && p[3] == q[3] && p[4] == q[4] && p[5] == q[5] && p[6] == q[6];
      assert p[7] == q[7] && p[8] == q[8] && p[9] == q[9] && p[10] == q[10] && p[11] == q[11] && p[12] == q[12];
      PaddedIsInjective(a.makerToken, b.makerToken);
      PaddedIsInjective(a.takerToken, b.takerToken);
      WordIsInjective(a.makerAmount, b.makerAmount);
      WordIsInjective(a.takerAmount, b.takerAmount);
      WordIsInjective(a.takerTokenFeeAmount, b.takerTokenFeeAmount);
      PaddedIsInjective(a.maker, b.maker);
      PaddedIsInjective(a.taker, b.taker);
      PaddedIsInjective(a.sender, b.sender);
      PaddedIsInjective(a.feeRecipient, b.feeRecipient);
      WordIsInjective(a.expiry, b.expiry);
      WordIsInjective(a.salt, b.salt);
    }
  }

  predicate Collide(keccak: Digest, x: seq<Byte>, y: seq<Byte>) {
    x != y && keccak(x) == keccak(y)
  }

  /** Two orders with the same hash are the same order, or show a collision of the hash function in one
      of the three places where it is used. No function to 32 bytes is injective, so this is all that can
      be said; it says that the encoding itself adds no ambiguity. */
  lemma SameHashSameOrder(keccak: Digest, a: LimitOrder, b: LimitOrder)
    requires OrderHash(keccak, a) == OrderHash(keccak, b)
    ensures a == b
            || Collide(keccak, Flat(DomainParts(a)), Flat(DomainParts(b)))
            || Collide(keccak, Flat(StructParts(a)), Flat(StructParts(b)))
            || Collide(keccak, Flat(HashParts(keccak, a)), Flat(HashParts(keccak, b)))
  {
    var p, q := HashParts(keccak, a), HashParts(keccak, b);
    if Flat(p) == Flat(q) {
      FlatIsInjective(p, q);
      assert p[1] == q[1] && p[2] == q[2];
      DomainIsInjective(a, b);
      StructIsInjective(a, b);
    }
  }
}
