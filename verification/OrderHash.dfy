/** The EIP-712 order hash. keccak is a parameter; nothing is assumed of it
    except that it returns 32 bytes, so instead of an (impossible) injective
    keccak the main lemma exhibits the collision that equal hashes would need. */
module OrderHash {
  import opened Bytes
  import opened Orders
  import opened Words

  type Keccak = Bytes -> Word

  function Ascii(s: string): (b: Bytes)
    ensures |b| == |s|
  {
    seq(|s|, i requires 0 <= i < |s| => s[i] as int % 256)
  }

  const DOMAIN_SCHEMA := "EIP712Domain(string name,string version,address verifyingContract)"

  /** The members of the hashed struct, in the schema's order. */
  function OrderFields(): (fs: seq<FieldName>)
    ensures |fs| == 12
  {
    [MakerAddress, TakerAddress, FeeRecipientAddress, SenderAddress,
     MakerAssetAmount, TakerAssetAmount, MakerFee, TakerFee, ExpirationTimeSeconds, Salt,
     MakerAssetData, TakerAssetData]
  }

  /** The pieces of the schema string between its commas. */
  const ORDER_MEMBERS := [
    "address " + "makerAddress", "address " + "takerAddress",
    "address " + "feeRecipientAddress", "address " + "senderAddress",
    "uint256 " + "makerAssetAmount", "uint256 " + "takerAssetAmount", "uint256 " + "makerFee", "uint256 " + "takerFee",
    "uint256 " + "expirationTimeSeconds", "uint256 " + "salt",
    "bytes " + "makerAssetData", "bytes " + "takerAssetData"]

  /** Texts with commas between them. */
  function Joined(texts: seq<string>): string
    requires texts != []
    decreases texts
  {
    if |texts| == 1 then texts[0] else texts[0] + "," + Joined(texts[1..])
  }

  const ORDER_SCHEMA := "Order(" + Joined(seq(12, i requires 0 <= i < 12 => ORDER_MEMBERS[i])) + ")"

  function DomainWords(k: Keccak, exchange: Address): seq<Word> {
    [k(Ascii(DOMAIN_SCHEMA)), k(Ascii("0x Protocol")), k(Ascii("2")), Padded(exchange)]
  }

  function OrderWords(k: Keccak, s: Signed): seq<Word> {
    [k(Ascii(ORDER_SCHEMA))] + PartyWords(s) + AmountWords(s) + [k(s.makerAssetData), k(s.takerAssetData)]
  }

  function DomainPreimage(k: Keccak, s: Signed): Bytes {
    Flatten(DomainWords(k, s.exchange))
  }

  function OrderPreimage(k: Keccak, s: Signed): Bytes {
    Flatten(OrderWords(k, s))
  }

  function FinalPreimage(k: Keccak, s: Signed): Bytes {
    [25, 1] + k(DomainPreimage(k, s)) + k(OrderPreimage(k, s))
  }

  /** Order.Hash */
  function HashOf(k: Keccak, o: OrderValue): Word {
    k(FinalPreimage(k, o.signed))
  }

  predicate Collision(k: Keccak, x: Bytes, y: Bytes) {
    x != y && k(x) == k(y)
  }

  /** One of the five pairs of strings hashed for a and b is a keccak collision. */
  predicate CollidesOn(k: Keccak, a: Signed, b: Signed) {
    || Collision(k, FinalPreimage(k, a), FinalPreimage(k, b))
    || Collision(k, DomainPreimage(k, a), DomainPreimage(k, b))
    || Collision(k, OrderPreimage(k, a), OrderPreimage(k, b))
    || Collision(k, a.makerAssetData, b.makerAssetData)
    || Collision(k, a.takerAssetData, b.takerAssetData)
  }

  lemma OrderWordsParts(k: Keccak, s: Signed)
    ensures var x := OrderWords(k, s);
            && |x| == 13 && x[1..5] == PartyWords(s) && x[5..11] == AmountWords(s)
            && x[11] == k(s.makerAssetData) && x[12] == k(s.takerAssetData)
  {
    var first: seq<Word>, p, a := [k(Ascii(ORDER_SCHEMA))], PartyWords(s), AmountWords(s);
    assert OrderWords(k, s) == first + (p + (a + [k(s.makerAssetData), k(s.takerAssetData)]));
  }

  lemma OrderWordsFixFields(k: Keccak, s: Signed, t: Signed)
    requires OrderWords(k, s) == OrderWords(k, t)
    ensures s == t.(exchange := s.exchange) ||
            Collision(k, s.makerAssetData, t.makerAssetData) || Collision(k, s.takerAssetData, t.takerAssetData)
  {
    OrderWordsParts(k, s);
    OrderWordsParts(k, t);
    StaticWordsFixFields(s, t);
  }

  /** Equal hashes mean the same exchange and the same twelve order fields, unless
      keccak collides on what was hashed; and the hash sees nothing else. */
  lemma HashIdentifiesSignedFields(k: Keccak, a: OrderValue, b: OrderValue)
    ensures a.signed == b.signed ==> HashOf(k, a) == HashOf(k, b)
    ensures HashOf(k, a) == HashOf(k, b) ==> a.signed == b.signed || CollidesOn(k, a.signed, b.signed)
  {
    var s, t := a.signed, b.signed;
    if HashOf(k, a) == HashOf(k, b) && !CollidesOn(k, s, t) {
      var x, y := FinalPreimage(k, s), FinalPreimage(k, t);
      assert k(DomainPreimage(k, s)) == x[2..34] == y[2..34] == k(DomainPreimage(k, t));
      assert k(OrderPreimage(k, s)) == x[34..] == y[34..] == k(OrderPreimage(k, t));
      FlattenInjective(DomainWords(k, s.exchange), DomainWords(k, t.exchange));
      assert DomainWords(k, s.exchange)[3] == DomainWords(k, t.exchange)[3];
      PaddedInjective(s.exchange, t.exchange);
      FlattenInjective(OrderWords(k, s), OrderWords(k, t));
      OrderWordsFixFields(k, s, t);
    }
  }

  method DomainHash(k: Keccak, exchange: Address) returns (digest: Word)
    ensures digest == k(Flatten(DomainWords(k, exchange)))
  {
    var domainSha := new WordBuffer();
    domainSha.WriteWord(k(Ascii(DOMAIN_SCHEMA)));
    domainSha.WriteWord(k(Ascii("0x Protocol")));
    domainSha.WriteWord(k(Ascii("2")));
    domainSha.WriteAddress(exchange);
    assert domainSha.words == DomainWords(k, exchange);
    digest := k(domainSha.written);
  }

  method OrderStructHash(k: Keccak, s: Signed) returns (digest: Word)
    ensures digest == k(OrderPreimage(k, s))
  {
    var orderSha := new WordBuffer();
    orderSha.WriteWord(k(Ascii(ORDER_SCHEMA)));
    orderSha.WriteParties(s);
    orderSha.WriteAmounts(s);
    orderSha.WriteWord(k(s.makerAssetData));
    orderSha.WriteWord(k(s.takerAssetData));
    assert orderSha.words == OrderWords(k, s);
    digest := k(orderSha.written);
  }

  /** Order.Hash, fed step by step. */
  method Hash(k: Keccak, o: OrderValue) returns (digest: Word)
    ensures digest == HashOf(k, o)
  {
    var domain := DomainHash(k, o.signed.exchange);
    var order := OrderStructHash(k, o.signed);
    digest := k([25, 1] + domain + order);
  }

  // ---- the preimage follows the schema ----

  /** A value's type, and the space after it. */
  function TypeText(v: Value): string {
    match v
    case AddressValue(_) => "address "
    case NumberValue(_) => "uint256 "
    case BytesValue(_) => "bytes "
  }

  /** A member as the schema declares it: its type, then its name. */
  function Declaration(s: Signed, name: FieldName): string {
    TypeText(Member(s, name)) + NameText(name)
  }

  function Declarations(s: Signed): (texts: seq<string>)
    ensures |texts| == |OrderFields()|
  {
    seq(|OrderFields()|, i requires 0 <= i < |OrderFields()| => Declaration(s, OrderFields()[i]))
  }

  /** encodeData of one member: an address padded on the left, a number as it is, bytes by
      their hash. */
  function Encoded(k: Keccak, v: Value): Word {
    match v
    case AddressValue(a) => Zeros(12) + a
    case NumberValue(w) => w
    case BytesValue(b) => k(b)
  }

  lemma MemberDeclared(s: Signed, i: nat)
    requires i < 12
    ensures ORDER_MEMBERS[i] == Declaration(s, OrderFields()[i])
  {
  }

  /** The schema text is the declarations of exactly these members, joined by commas. */
  lemma SchemaIsDeclared(s: Signed)
    ensures ORDER_SCHEMA == "Order(" + Joined(Declarations(s)) + ")"
  {
    var texts := seq(12, i requires 0 <= i < 12 => ORDER_MEMBERS[i]);
    forall i | 0 <= i < 12
      ensures texts[i] == Declarations(s)[i]
    {
      MemberDeclared(s, i);
    }
    assert texts == Declarations(s);
  }

  /** After the schema's hash, word i of the preimage is the encoding of the schema's member i. */
  lemma PreimageFollowsSchema(k: Keccak, s: Signed, i: nat)
    requires i < |OrderFields()|
    ensures |OrderPreimage(k, s)| == 32 * 13
    ensures OrderPreimage(k, s)[..32] == k(Ascii(ORDER_SCHEMA))
    ensures OrderPreimage(k, s)[32 * (i + 1)..32 * (i + 2)] == Encoded(k, Member(s, OrderFields()[i]))
  {
    var words := OrderWords(k, s);
    assert Flatten(words) + [] == Flatten(words);
    WordAt(words, [], 0);
    WordAt(words, [], i + 1);
    WordOfMember(k, s, i);
  }

  lemma WordOfMember(k: Keccak, s: Signed, i: nat)
    requires i < |OrderFields()|
    ensures |OrderWords(k, s)| == 13 && OrderWords(k, s)[i + 1] == Encoded(k, Member(s, OrderFields()[i]))
  {
  }

  /** The domain's preimage: the schema's hash, the hashes of the protocol's name and
      version, and the exchange as a word. */
  lemma DomainFollowsSchema(k: Keccak, s: Signed)
    ensures var d := DomainPreimage(k, s);
            && |d| == 128
            && d[..32] == k(Ascii(DOMAIN_SCHEMA)) && d[32..64] == k(Ascii("0x Protocol")) && d[64..96] == k(Ascii("2"))
            && d[96..] == Zeros(12) + s.exchange
  {
    var words := DomainWords(k, s.exchange);
    assert Flatten(words) + [] == Flatten(words);
    WordAt(words, [], 0);
    WordAt(words, [], 1);
    WordAt(words, [], 2);
    WordAt(words, [], 3);
  }

  /** What is signed: the bytes 0x19 and 0x01, the domain's hash, the order's hash. */
  lemma FinalFollowsEip191(k: Keccak, s: Signed)
    ensures var p := FinalPreimage(k, s);
            && |p| == 66 && p[0] == 0x19 && p[1] == 0x01
            && p[2..34] == k(DomainPreimage(k, s)) && p[34..] == k(OrderPreimage(k, s))
  {
  }
}
