/** Reading and writing orders as JSON. The record below is what encoding/json
    carries: the fourteen tagged string fields. The filled and cancelled
    strings are tagged "-", so they are never written and never read. */
module OrderJson {
  import opened Bytes
  import opened Text
  import opened Orders

  datatype JsonOrder = JsonOrder(
    maker: string, taker: string, makerAssetData: string, takerAssetData: string,
    feeRecipient: string, exchange: string, sender: string,
    makerAmount: string, takerAmount: string, makerFee: string, takerFee: string,
    expiration: string, salt: string, signature: string)

  datatype Outcome = Done | Malformed | Panic

  /** What MarshalJSON writes. */
  function ToJson(o: OrderValue): JsonOrder {
    var s := o.signed;
    JsonOrder(
      FormatHex(s.maker), FormatHex(s.taker), FormatHex(s.makerAssetData), FormatHex(s.takerAssetData),
      FormatHex(s.feeRecipient), FormatHex(s.exchange), FormatHex(s.sender),
      FormatDecimal(FromBytes(s.makerAmount)), FormatDecimal(FromBytes(s.takerAmount)),
      FormatDecimal(FromBytes(s.makerFee)), FormatDecimal(FromBytes(s.takerFee)),
      FormatDecimal(FromBytes(s.expiration)), FormatDecimal(FromBytes(s.salt)), FormatHex(o.signature))
  }

  predicate AllHex(j: JsonOrder) {
    && HexStringToBytes(j.maker).Some? && HexStringToBytes(j.taker).Some?
    && HexStringToBytes(j.makerAssetData).Some? && HexStringToBytes(j.takerAssetData).Some?
    && HexStringToBytes(j.feeRecipient).Some? && HexStringToBytes(j.exchange).Some?
    && HexStringToBytes(j.sender).Some? && HexStringToBytes(j.signature).Some?
  }

  predicate AllDecimal(j: JsonOrder) {
    && IntStringToWord(j.makerAmount).Some? && IntStringToWord(j.takerAmount).Some?
    && IntStringToWord(j.makerFee).Some? && IntStringToWord(j.takerFee).Some?
    && IntStringToWord(j.expiration).Some? && IntStringToWord(j.salt).Some?
  }

  function SignedOf(j: JsonOrder): Signed
    requires AllHex(j) && AllDecimal(j)
  {
    Signed(
      CopyInto(20, HexStringToBytes(j.exchange).value), CopyInto(20, HexStringToBytes(j.maker).value),
      CopyInto(20, HexStringToBytes(j.taker).value), CopyInto(20, HexStringToBytes(j.feeRecipient).value),
      CopyInto(20, HexStringToBytes(j.sender).value),
      IntStringToWord(j.makerAmount).value, IntStringToWord(j.takerAmount).value,
      IntStringToWord(j.makerFee).value, IntStringToWord(j.takerFee).value,
      IntStringToWord(j.expiration).value, IntStringToWord(j.salt).value,
      HexStringToBytes(j.makerAssetData).value, HexStringToBytes(j.takerAssetData).value)
  }

  function OutcomeOf(j: JsonOrder): Outcome {
    if !AllHex(j) || !AllDecimal(j) then Malformed
    else if !HasAddress(SignedOf(j).takerAssetData) || !HasAddress(SignedOf(j).makerAssetData) then Panic
    else Done
  }

  /** The order read from j. The pool is not in the JSON and Initialize leaves it
      alone, so the receiver's own poolID stays. */
  function FromJson(j: JsonOrder, poolID: Bytes): OrderValue
    requires OutcomeOf(j).Done?
  {
    var s := SignedOf(j);
    OrderValue(s, AssetAddress(s.makerAssetData), AssetAddress(s.takerAssetData),
               HexStringToBytes(j.signature).value, Zeros(32), false, poolID)
  }

  /** Every field of the JSON reads back as the bytes it was printed from. */
  lemma JsonCarries(o: OrderValue)
    ensures AllHex(ToJson(o)) && AllDecimal(ToJson(o)) && SignedOf(ToJson(o)) == o.signed
    ensures HexStringToBytes(ToJson(o).signature) == Some(o.signature)
  {
    var s := o.signed;
    HexRoundTrip(s.maker);
    HexRoundTrip(s.taker);
    HexRoundTrip(s.makerAssetData);
    HexRoundTrip(s.takerAssetData);
    HexRoundTrip(s.feeRecipient);
    HexRoundTrip(s.exchange);
    HexRoundTrip(s.sender);
    HexRoundTrip(o.signature);
    DecimalRoundTrip(s.makerAmount);
    DecimalRoundTrip(s.takerAmount);
    DecimalRoundTrip(s.makerFee);
    DecimalRoundTrip(s.takerFee);
    DecimalRoundTrip(s.expiration);
    DecimalRoundTrip(s.salt);
  }

  /** Round trip. Writing an order and reading it into a receiver succeeds exactly
      when both asset data are long enough, and then gives back every signed field
      and the signature; filled and cancelled are reset, the asset addresses are
      recomputed and the pool is the receiver's. */
  lemma JsonRoundTrip(o: OrderValue, poolID: Bytes)
    ensures OutcomeOf(ToJson(o)) ==
            if HasAddress(o.signed.makerAssetData) && HasAddress(o.signed.takerAssetData) then Done else Panic
    ensures OutcomeOf(ToJson(o)).Done? ==>
              FromJson(ToJson(o), poolID) ==
              o.(makerAssetAddress := AssetAddress(o.signed.makerAssetData),
                 takerAssetAddress := AssetAddress(o.signed.takerAssetData),
                 filled := Zeros(32), cancelled := false, poolID := poolID)
  {
    JsonCarries(o);
  }

  /** The text under a key. Keys are named as in the hash schema. */
  function TextOf(j: JsonOrder, key: FieldName): string {
    match key
    case MakerAddress => j.maker
    case TakerAddress => j.taker
    case FeeRecipientAddress => j.feeRecipient
    case SenderAddress => j.sender
    case MakerAssetAmount => j.makerAmount
    case TakerAssetAmount => j.takerAmount
    case MakerFee => j.makerFee
    case TakerFee => j.takerFee
    case ExpirationTimeSeconds => j.expiration
    case Salt => j.salt
    case MakerAssetData => j.makerAssetData
    case TakerAssetData => j.takerAssetData
    case ExchangeAddress => j.exchange
  }

  /** Each field is written under its own key: addresses and bytes in hex, numbers in decimal. */
  lemma WrittenByName(o: OrderValue, key: FieldName)
    ensures TextOf(ToJson(o), key) ==
            match Member(o.signed, key)
            case AddressValue(a) => "0x" + EncodeHex(a)
            case NumberValue(w) => FormatDecimal(FromBytes(w))
            case BytesValue(b) => if b == [] then "" else "0x" + EncodeHex(b)
    ensures ToJson(o).signature == if o.signature == [] then "" else "0x" + EncodeHex(o.signature)
  {
  }

  /** Any text, ours or not, is read field by field from its own key: an address from its
      first 20 bytes, padded with zeros if there are fewer, a number modulo 2^256. */
  lemma ReadByName(j: JsonOrder, key: FieldName)
    requires AllHex(j) && AllDecimal(j)
    ensures match Member(SignedOf(j), key)
            case AddressValue(a) =>
              HexStringToBytes(TextOf(j, key)).Some? && a == CopyInto(20, HexStringToBytes(TextOf(j, key)).value)
            case NumberValue(w) =>
              ParseInt(TextOf(j, key)).Some? && FromBytes(w) == ParseInt(TextOf(j, key)).value % Pow256(32)
            case BytesValue(b) => HexStringToBytes(TextOf(j, key)) == Some(b)
  {
  }

  /** Is the text under this key what its kind of field needs? */
  predicate ReadsAs(j: JsonOrder, key: FieldName) {
    match key
    case MakerAssetAmount | TakerAssetAmount | MakerFee | TakerFee | ExpirationTimeSeconds | Salt =>
      ParseInt(TextOf(j, key)).Some?
    case _ => HexStringToBytes(TextOf(j, key)).Some?
  }

  predicate AllRead(j: JsonOrder) {
    HexStringToBytes(j.signature).Some? && forall key :: ReadsAs(j, key)
  }

  lemma GoodTextReads(j: JsonOrder, key: FieldName)
    requires AllHex(j) && AllDecimal(j)
    ensures ReadsAs(j, key)
  {
  }

  lemma HexReads(j: JsonOrder)
    requires AllRead(j)
    ensures AllHex(j)
  {
    assert ReadsAs(j, MakerAddress) && ReadsAs(j, TakerAddress) && ReadsAs(j, FeeRecipientAddress);
    assert ReadsAs(j, SenderAddress) && ReadsAs(j, ExchangeAddress);
    assert ReadsAs(j, MakerAssetData) && ReadsAs(j, TakerAssetData);
  }

  lemma DecimalReads(j: JsonOrder)
    requires AllRead(j)
    ensures AllDecimal(j)
  {
    assert ReadsAs(j, MakerAssetAmount) && ReadsAs(j, TakerAssetAmount) && ReadsAs(j, MakerFee);
    assert ReadsAs(j, TakerFee) && ReadsAs(j, ExpirationTimeSeconds) && ReadsAs(j, Salt);
  }

  /** Text is malformed exactly if some field or the signature does not read; otherwise
      reading panics exactly if an asset data has no address. */
  lemma OutcomeIff(j: JsonOrder)
    ensures OutcomeOf(j).Malformed? <==> !AllRead(j)
    ensures OutcomeOf(j).Panic? <==>
            AllRead(j) && ReadsAs(j, MakerAssetData) && ReadsAs(j, TakerAssetData)
            && !(HasAddress(HexStringToBytes(j.makerAssetData).value) && HasAddress(HexStringToBytes(j.takerAssetData).value))
  {
    if AllRead(j) {
      HexReads(j);
      DecimalReads(j);
    }
    if AllHex(j) && AllDecimal(j) {
      forall key
        ensures ReadsAs(j, key)
      {
        GoodTextReads(j, key);
      }
    }
  }

  /** Two orders write the same JSON exactly when they agree on what it carries. */
  lemma JsonIdentifiesOrder(a: OrderValue, b: OrderValue)
    ensures ToJson(a) == ToJson(b) <==> a.signed == b.signed && a.signature == b.signature
  {
    if ToJson(a) == ToJson(b) {
      JsonCarries(a);
      JsonCarries(b);
    }
  }

  /** What Initialize leaves in an order. */
  function Blank(poolID: Bytes): OrderValue {
    OrderValue(
      Signed(Zeros(20), Zeros(20), Zeros(20), Zeros(20), Zeros(20),
             Zeros(32), Zeros(32), Zeros(32), Zeros(32), Zeros(32), Zeros(32), Zeros(20), Zeros(20)),
      Zeros(20), Zeros(20), [], Zeros(32), false, poolID)
  }

  /** types.Order, its signed fields kept together. */
  class Order {
    var signed: Signed
    var makerAssetAddress: Address
    var takerAssetAddress: Address
    var signature: Bytes
    var filled: Word
    var cancelled: bool
    var poolID: Bytes

    /** The object holds the order o. */
    ghost predicate Holds(o: OrderValue)
      reads this
    {
      && signed == o.signed
      && makerAssetAddress == o.makerAssetAddress && takerAssetAddress == o.takerAssetAddress
      && signature == o.signature && filled == o.filled && cancelled == o.cancelled && poolID == o.poolID
    }

    method Initialize()
      modifies this
      ensures Holds(Blank(old(poolID)))
      ensures signed.makerAssetData == signed.takerAssetData == Zeros(20) && signature == []
      ensures filled == Zeros(32) && !cancelled && poolID == old(poolID)
    {
      signed := Blank([]).signed;
      makerAssetAddress, takerAssetAddress := Zeros(20), Zeros(20);
      signature, filled, cancelled := [], Zeros(32), false;
    }

    /** The copying half of fromStrings, once every field is decoded. */
    method Assign(s: Signed, signatureBytes: Bytes, filledAmount: Word, isCancelled: bool) returns (outcome: Outcome)
      modifies this
      ensures outcome == if HasAddress(s.makerAssetData) && HasAddress(s.takerAssetData) then Done else Panic
      ensures outcome.Done? ==>
                Holds(OrderValue(s, AssetAddress(s.makerAssetData), AssetAddress(s.takerAssetData),
                                 signatureBytes, filledAmount, isCancelled, old(poolID)))
      ensures poolID == old(poolID)
    {
      signed := s;
      if !HasAddress(s.takerAssetData) {
        return Panic;
      }
      takerAssetAddress := AssetAddress(s.takerAssetData);
      if !HasAddress(s.makerAssetData) {
        return Panic;
      }
      makerAssetAddress := AssetAddress(s.makerAssetData);
      signature := signatureBytes;
      filled := filledAmount;
      cancelled := isCancelled;
      return Done;
    }

    /** Fill the order from text. A malformed field leaves a freshly initialized order. */
    method FromStrings(j: JsonOrder, filledText: string, cancelledText: string) returns (outcome: Outcome)
      modifies this
      ensures outcome == if IntStringToWord(filledText).None? then Malformed else OutcomeOf(j)
      ensures outcome.Done? ==>
                Holds(FromJson(j, old(poolID)).(filled := IntStringToWord(filledText).value,
                                                cancelled := cancelledText == "true"))
      ensures outcome.Malformed? ==> Holds(Blank(old(poolID)))
      ensures poolID == old(poolID)
    {
      Initialize();
      var filledWord := IntStringToWord(filledText);
      if !AllHex(j) || !AllDecimal(j) || filledWord.None? {
        return Malformed;
      }
      outcome := Assign(SignedOf(j), HexStringToBytes(j.signature).value, filledWord.value, cancelledText == "true");
    }

    method UnmarshalJson(j: JsonOrder) returns (outcome: Outcome)
      modifies this
      ensures outcome == OutcomeOf(j)
      ensures outcome.Done? ==> Holds(FromJson(j, old(poolID)))
      ensures poolID == old(poolID)
    {
      ZeroText();
      outcome := FromStrings(j, "0", "false");
    }

    method MarshalJson() returns (j: JsonOrder)
      ensures forall o :: Holds(o) ==> j == ToJson(o)
    {
      j := JsonOrder(
        FormatHex(signed.maker), FormatHex(signed.taker),
        FormatHex(signed.makerAssetData), FormatHex(signed.takerAssetData),
        FormatHex(signed.feeRecipient), FormatHex(signed.exchange), FormatHex(signed.sender),
        FormatDecimal(FromBytes(signed.makerAmount)), FormatDecimal(FromBytes(signed.takerAmount)),
        FormatDecimal(FromBytes(signed.makerFee)), FormatDecimal(FromBytes(signed.takerFee)),
        FormatDecimal(FromBytes(signed.expiration)), FormatDecimal(FromBytes(signed.salt)),
        FormatHex(signature));
    }
  }

  lemma ZeroText()
    ensures IntStringToWord("0") == Some(Zeros(32))
  {
    assert FormatDecimal(0) == "0";
    ZeroWord(32);
    DecimalRoundTrip(Zeros(32));
  }

  /** Marshal one order and unmarshal into another object. */
  method Transmit(from: Order, to: Order) returns (outcome: Outcome)
    requires from != to
    modifies to
    ensures outcome.Done? <==> HasAddress(from.signed.makerAssetData) && HasAddress(from.signed.takerAssetData)
    ensures outcome.Done? ==>
              && to.signed == from.signed && to.signature == from.signature
              && to.filled == Zeros(32) && !to.cancelled && to.poolID == old(to.poolID)
  {
    ghost var o := OrderValue(from.signed, from.makerAssetAddress, from.takerAssetAddress,
                        from.signature, from.filled, from.cancelled, from.poolID);
    var j := from.MarshalJson();
    assert from.Holds(o);
    JsonRoundTrip(o, to.poolID);
    outcome := to.UnmarshalJson(j);
  }
}
