/** types.Order as a value, and asset data. */
module Orders {
  import opened Bytes

  type AssetData = Bytes

  const ERC20_PROXY_ID: Bytes := [244, 114, 97, 176]
  const ERC721_PROXY_ID: Bytes := [2, 87, 23, 146]
  const ROBODEX_PROXY_ID: Bytes := [14, 32, 66, 216]

  /** The fields an order's hash and signature cover. */
  datatype Signed = Signed(
    exchange: Address, maker: Address, taker: Address, feeRecipient: Address, sender: Address,
    makerAmount: Word, takerAmount: Word, makerFee: Word, takerFee: Word, expiration: Word, salt: Word,
    makerAssetData: AssetData, takerAssetData: AssetData)

  /** The signed fields by the names that the hash schema and the JSON keys give them. */
  datatype FieldName =
    | MakerAddress | TakerAddress | FeeRecipientAddress | SenderAddress
    | MakerAssetAmount | TakerAssetAmount | MakerFee | TakerFee | ExpirationTimeSeconds | Salt
    | MakerAssetData | TakerAssetData | ExchangeAddress

  function NameText(name: FieldName): string {
    match name
    case MakerAddress => "makerAddress"
    case TakerAddress => "takerAddress"
    case FeeRecipientAddress => "feeRecipientAddress"
    case SenderAddress => "senderAddress"
    case MakerAssetAmount => "makerAssetAmount"
    case TakerAssetAmount => "takerAssetAmount"
    case MakerFee => "makerFee"
    case TakerFee => "takerFee"
    case ExpirationTimeSeconds => "expirationTimeSeconds"
    case Salt => "salt"
    case MakerAssetData => "makerAssetData"
    case TakerAssetData => "takerAssetData"
    case ExchangeAddress => "exchangeAddress"
  }

  datatype Value = AddressValue(a: Address) | NumberValue(w: Word) | BytesValue(b: Bytes)

  function Member(s: Signed, name: FieldName): Value {
    match name
    case MakerAddress => AddressValue(s.maker)
    case TakerAddress => AddressValue(s.taker)
    case FeeRecipientAddress => AddressValue(s.feeRecipient)
    case SenderAddress => AddressValue(s.sender)
    case MakerAssetAmount => NumberValue(s.makerAmount)
    case TakerAssetAmount => NumberValue(s.takerAmount)
    case MakerFee => NumberValue(s.makerFee)
    case TakerFee => NumberValue(s.takerFee)
    case ExpirationTimeSeconds => NumberValue(s.expiration)
    case Salt => NumberValue(s.salt)
    case MakerAssetData => BytesValue(s.makerAssetData)
    case TakerAssetData => BytesValue(s.takerAssetData)
    case ExchangeAddress => AddressValue(s.exchange)
  }

  datatype OrderValue = OrderValue(
    signed: Signed, makerAssetAddress: Address, takerAssetAddress: Address,
    signature: Bytes, filled: Word, cancelled: bool, poolID: Bytes)

  /** Slicing data[0:4] panics below four bytes. */
  predicate IsType(data: AssetData, proxyID: Bytes)
    requires |data| >= 4
  {
    data[..4] == proxyID
  }

  predicate SupportedType(data: AssetData)
    requires |data| >= 4
  {
    IsType(data, ERC20_PROXY_ID) || IsType(data, ERC721_PROXY_ID) || IsType(data, ROBODEX_PROXY_ID)
  }

  /** When AssetData.Address returns instead of panicking on a slice bound. */
  predicate HasAddress(data: AssetData) {
    |data| >= 4 && (SupportedType(data) ==> |data| >= 36)
  }

  function AssetAddress(data: AssetData): Address
    requires HasAddress(data)
  {
    if SupportedType(data) then data[16..36] else Zeros(20)
  }

  function Erc20AssetData(token: Address): (data: AssetData)
    ensures |data| == 36
  {
    ERC20_PROXY_ID + Zeros(12) + token
  }

  function Erc721AssetData(token: Address, tokenID: Word): (data: AssetData)
    ensures |data| == 68
  {
    ERC721_PROXY_ID + Zeros(12) + token + tokenID
  }

  /** The asset data built for an ERC20 token names exactly that token. */
  lemma Erc20NamesToken(token: Address)
    ensures Erc20AssetData(token)[..4] == [244, 114, 97, 176]
    ensures HasAddress(Erc20AssetData(token)) && AssetAddress(Erc20AssetData(token)) == token
  {
    var data := Erc20AssetData(token);
    assert data[..4] == ERC20_PROXY_ID;
    assert data[16..36] == token;
  }

  /** AssetData.TokenID: what follows the token's address in an ERC721 asset. */
  function TokenID(data: AssetData): Word
    requires |data| >= 4 && (IsType(data, ERC721_PROXY_ID) ==> |data| >= 36)
  {
    if IsType(data, ERC721_PROXY_ID) then CopyInto(32, data[36..]) else Zeros(32)
  }

  /** The asset data built for an ERC721 token names exactly that token and its id. */
  lemma Erc721NamesToken(token: Address, tokenID: Word)
    ensures var data := Erc721AssetData(token, tokenID);
            && data[..4] == [2, 87, 23, 146] && HasAddress(data)
            && AssetAddress(data) == token && TokenID(data) == tokenID
  {
    var data := Erc721AssetData(token, tokenID);
    assert data[..4] == ERC721_PROXY_ID;
    assert data[16..36] == token;
    assert data[36..] == tokenID;
  }

  /** The address is bytes 16 to 36 of the three supported kinds of asset data, and zero of
      any other; reading it panics exactly if those bytes, or the kind's four, are missing. */
  lemma AddressIff(data: AssetData)
    ensures HasAddress(data) <==>
            |data| >= 4 && (data[..4] in {[244, 114, 97, 176], [2, 87, 23, 146], [14, 32, 66, 216]} ==> |data| >= 36)
    ensures HasAddress(data) ==>
              AssetAddress(data) ==
              if data[..4] in {[244, 114, 97, 176], [2, 87, 23, 146], [14, 32, 66, 216]} then data[16..36] else Zeros(20)
  {
  }
}
