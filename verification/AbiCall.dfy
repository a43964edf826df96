/** The call data that pool/filter_contract.go builds by hand for
    OrderBookFilter(bytes32, Order), and a decoder that follows head offsets as
    the "Formal Specification of the Encoding" section of the Solidity contract
    ABI specification lays them out. */
module AbiCall {
  import opened Bytes
  import opened Orders
  import opened Text
  import opened Words

  const SELECTOR: Bytes := [128, 0, 25, 52]

  /** Lengths at which Go's int arithmetic on the offsets cannot overflow. */
  const MAX_LENGTH := 0x4000_0000_0000_0000

  predicate GoSized(s: Signed) {
    |s.makerAssetData| < MAX_LENGTH && |s.takerAssetData| < MAX_LENGTH
  }

  function RoundUp32(n: nat): (m: nat)
    ensures n <= m < n + 32 && m % 32 == 0
    ensures m == n <==> n % 32 == 0
  {
    (n / 32 + (if n % 32 > 0 then 1 else 0)) * 32
  }

  function PadRight(data: Bytes): (padded: Bytes)
    ensures |padded| == RoundUp32(|data|) && padded[..|data|] == data
    ensures forall i :: |data| <= i < |padded| ==> padded[i] == 0
  {
    data + Zeros(RoundUp32(|data|) - |data|)
  }

  /** The two argument slots, the order's head, and the maker data's length. */
  predicate IsHead(h: seq<Word>, poolID: Word, orderAt: Word, s: Signed, makerAt: Word, takerAt: Word, makerLength: Word) {
    && |h| == 15
    && h[0] == poolID && h[1] == orderAt
    && h[2..6] == PartyWords(s) && h[6..12] == AmountWords(s)
    && h[12] == makerAt && h[13] == takerAt && h[14] == makerLength
  }

  function Head(poolID: Word, orderAt: Word, s: Signed, makerAt: Word, takerAt: Word, makerLength: Word): (h: seq<Word>)
    ensures IsHead(h, poolID, orderAt, s, makerAt, takerAt, makerLength)
  {
    [poolID, orderAt] + PartyWords(s) + AmountWords(s) + [makerAt, takerAt, makerLength]
  }

  function HeadWords(poolID: Word, s: Signed): seq<Word> {
    var makerLength := RoundUp32(|s.makerAssetData|);
    Head(poolID, WordOf(64), s, WordOf(384), WordOf(384 + 32 + makerLength), WordOf(makerLength))
  }

  function TakerPart(s: Signed): Bytes {
    WordOf(RoundUp32(|s.takerAssetData|)) + PadRight(s.takerAssetData)
  }

  function Arguments(poolID: Word, s: Signed): Bytes {
    Flatten(HeadWords(poolID, s)) + (PadRight(s.makerAssetData) + TakerPart(s))
  }

  /** None is the error for a pool id that is not 32 bytes long. */
  function CallData(poolID: Bytes, s: Signed): Option<Bytes> {
    if |poolID| != 32 then None else Some(SELECTOR + Arguments(poolID, s))
  }

  /** The fixed part of the buffer, written word by word. */
  method WriteHead(poolID: Word, orderAt: Word, s: Signed, makerAt: Word, takerAt: Word, makerLength: Word)
    returns (encoding: Bytes)
    ensures encoding == Flatten(Head(poolID, orderAt, s, makerAt, takerAt, makerLength))
  {
    var buffer := new WordBuffer();
    buffer.WriteWord(poolID);
    buffer.WriteWord(orderAt);
    buffer.WriteParties(s);
    buffer.WriteAmounts(s);
    buffer.WriteWord(makerAt);
    buffer.WriteWord(takerAt);
    buffer.WriteWord(makerLength);
    assert buffer.words == Head(poolID, orderAt, s, makerAt, takerAt, makerLength);
    encoding := buffer.written;
  }

  /** A length rounded up the way the code does, and the data copied into that many zero bytes. */
  method PadData(data: Bytes) returns (length: nat, padded: Bytes)
    ensures length == RoundUp32(|data|) && padded == PadRight(data)
  {
    var roundUp := 0;
    if |data| % 32 > 0 {
      roundUp := 1;
    }
    length := (|data| / 32 + roundUp) * 32;
    padded := CopyInto(length, data);
    assert |data| == length ==> data + Zeros(0) == data;
  }

  /** The encoder itself. */
  method EncodeCall(poolID: Bytes, s: Signed) returns (result: Option<Bytes>)
    ensures result == CallData(poolID, s)
    ensures result.None? <==> |poolID| != 32
    ensures result.Some? ==> result.value[..4] == [128, 0, 25, 52]
  {
    if |poolID| != 32 {
      return None;
    }
    var makerAssetDataOffset := 384;
    var makerAssetDataLength, makerAssetData := PadData(s.makerAssetData);
    var takerAssetDataOffset := makerAssetDataOffset + 32 + makerAssetDataLength;
    var takerAssetDataLength, takerAssetData := PadData(s.takerAssetData);
    var orderAt, makerAt := WordOf(64), WordOf(makerAssetDataOffset);
    var takerAt, makerLength := WordOf(takerAssetDataOffset), WordOf(makerAssetDataLength);
    var encoding := WriteHead(poolID, orderAt, s, makerAt, takerAt, makerLength);
    assert makerLength == WordOf(RoundUp32(|s.makerAssetData|));
    assert takerAt == WordOf(384 + 32 + RoundUp32(|s.makerAssetData|));
    assert makerAt == WordOf(384);
    assert encoding == Flatten(HeadWords(poolID, s));
    var takerPart: Bytes := WordOf(takerAssetDataLength) + takerAssetData;
    assert takerPart == TakerPart(s);
    encoding := encoding + (makerAssetData + takerPart);
    assert encoding == Arguments(poolID, s);
    return Some(SELECTOR + encoding);
  }

  // ---- decoding ----

  function ReadWord(data: Bytes, at: nat): Option<Word> {
    if at + 32 <= |data| then Some(data[at..at + 32]) else None
  }

  function ReadUint(data: Bytes, at: nat): Option<nat> {
    match ReadWord(data, at)
    case None => None
    case Some(w) => Some(FromBytes(w))
  }

  /** An address word must have twelve leading zero bytes. */
  function ReadAddress(data: Bytes, at: nat): Option<Address> {
    match ReadWord(data, at)
    case None => None
    case Some(w) => if w[..12] == Zeros(12) then Some(w[12..]) else None
  }

  /** A dynamic bytes value: its length, then that many bytes. */
  function ReadBytes(data: Bytes, at: nat): Option<Bytes> {
    match ReadUint(data, at)
    case None => None
    case Some(n) => if at + 32 + n <= |data| then Some(data[at + 32..at + 32 + n]) else None
  }

  /** What the contract sees: the pool and the order, whose exchange is not sent. */
  function Decode(call: Bytes): Option<(Word, Signed)>
  {
    if |call| < 4 || call[..4] != SELECTOR then None
    else
      var args := call[4..];
      var poolID, at := ReadWord(args, 0), ReadUint(args, 32);
      if poolID.None? || at.None? then None
      else match ReadOrder(args, at.value)
        case None => None
        case Some(s) => Some((poolID.value, s))
  }

  /** An order whose head starts at byte base; its offsets count from there. */
  function ReadOrder(args: Bytes, base: nat): Option<Signed> {
    var maker, taker := ReadAddress(args, base), ReadAddress(args, base + 32);
    var recipient, sender := ReadAddress(args, base + 64), ReadAddress(args, base + 96);
    var a0, a1, a2 := ReadWord(args, base + 128), ReadWord(args, base + 160), ReadWord(args, base + 192);
    var a3, a4, a5 := ReadWord(args, base + 224), ReadWord(args, base + 256), ReadWord(args, base + 288);
    var makerAt, takerAt := ReadUint(args, base + 320), ReadUint(args, base + 352);
    if maker.None? || taker.None? || recipient.None? || sender.None? || makerAt.None? || takerAt.None? ||
       a0.None? || a1.None? || a2.None? || a3.None? || a4.None? || a5.None? then None
    else
      var makerData, takerData := ReadBytes(args, base + makerAt.value), ReadBytes(args, base + takerAt.value);
      if makerData.None? || takerData.None? then None
      else Some(Signed(Zeros(20), maker.value, taker.value, recipient.value, sender.value,
                       a0.value, a1.value, a2.value, a3.value, a4.value, a5.value,
                       makerData.value, takerData.value))
  }

  /** Both asset data padded and the exchange dropped: all a decoder can get back. */
  function Received(s: Signed): Signed {
    s.(exchange := Zeros(20), makerAssetData := PadRight(s.makerAssetData), takerAssetData := PadRight(s.takerAssetData))
  }

  lemma {:induction false} PowGrows(m: nat, n: nat)
    requires m <= n
    ensures Pow256(m) <= Pow256(n)
  {
    if m == n {
    } else {
      PowGrows(m, n - 1);
      PowStep(n - 1);
    }
  }

  /** Offsets and lengths of Go-sized data fit a word. */
  lemma SmallWord(n: nat)
    requires n < 0x8000_0000_0000_0000
    ensures FromBytes(WordOf(n)) == n
  {
    PowStep(0);
    PowStep(1);
    PowStep(2);
    PowStep(3);
    PowStep(4);
    PowStep(5);
    PowStep(6);
    PowStep(7);
    PowGrows(8, 32);
  }

  /** Every word of the head reads back from its own offset. */
  lemma HeadReads(head: seq<Word>, tail: Bytes, i: nat)
    requires i < |head|
    ensures ReadWord(Flatten(head) + tail, 32 * i) == Some(head[i])
  {
    WordAt(head, tail, i);
  }

  lemma AddressReads(args: Bytes, at: nat, a: Address)
    requires ReadWord(args, at) == Some(Padded(a))
    ensures ReadAddress(args, at) == Some(a)
  {
    assert Padded(a)[..12] == Zeros(12);
    assert Padded(a)[12..] == a;
  }

  predicate StaticReads(args: Bytes, s: Signed) {
    && (forall i :: 0 <= i < 4 ==> ReadWord(args, 64 + 32 * i) == Some(PartyWords(s)[i]))
    && (forall i :: 0 <= i < 6 ==> ReadWord(args, 192 + 32 * i) == Some(AmountWords(s)[i]))
  }

  lemma StaticFieldsRead(head: seq<Word>, tail: Bytes, s: Signed)
    requires |head| == 15 && head[2..6] == PartyWords(s) && head[6..12] == AmountWords(s)
    ensures StaticReads(Flatten(head) + tail, s)
  {
    var args := Flatten(head) + tail;
    forall i | 0 <= i < 4
      ensures ReadWord(args, 64 + 32 * i) == Some(PartyWords(s)[i])
    {
      HeadReads(head, tail, i + 2);
      assert head[2..6][i] == head[i + 2];
    }
    forall i | 0 <= i < 6
      ensures ReadWord(args, 192 + 32 * i) == Some(AmountWords(s)[i])
    {
      HeadReads(head, tail, i + 6);
      assert head[6..12][i] == head[i + 6];
    }
  }

  lemma AddressesRead(args: Bytes, s: Signed)
    requires StaticReads(args, s)
    ensures ReadAddress(args, 64) == Some(s.maker) && ReadAddress(args, 96) == Some(s.taker)
    ensures ReadAddress(args, 128) == Some(s.feeRecipient) && ReadAddress(args, 160) == Some(s.sender)
  {
    var p := PartyWords(s);
    assert ReadWord(args, 64 + 32 * 0) == Some(p[0]) && ReadWord(args, 64 + 32 * 1) == Some(p[1]);
    assert ReadWord(args, 64 + 32 * 2) == Some(p[2]) && ReadWord(args, 64 + 32 * 3) == Some(p[3]);
    AddressReads(args, 64, s.maker);
    AddressReads(args, 96, s.taker);
    AddressReads(args, 128, s.feeRecipient);
    AddressReads(args, 160, s.sender);
  }

  lemma AmountsRead(args: Bytes, s: Signed)
    requires StaticReads(args, s)
    ensures ReadWord(args, 192) == Some(s.makerAmount) && ReadWord(args, 224) == Some(s.takerAmount)
    ensures ReadWord(args, 256) == Some(s.makerFee) && ReadWord(args, 288) == Some(s.takerFee)
    ensures ReadWord(args, 320) == Some(s.expiration) && ReadWord(args, 352) == Some(s.salt)
  {
    var a := AmountWords(s);
    assert ReadWord(args, 192 + 32 * 0) == Some(a[0]) && ReadWord(args, 192 + 32 * 1) == Some(a[1]);
    assert ReadWord(args, 192 + 32 * 2) == Some(a[2]) && ReadWord(args, 192 + 32 * 3) == Some(a[3]);
    assert ReadWord(args, 192 + 32 * 4) == Some(a[4]) && ReadWord(args, 192 + 32 * 5) == Some(a[5]);
  }

  /** A length word n at byte `at` followed by n bytes reads as those bytes. */
  lemma BytesRead(args: Bytes, at: nat, length: Word, data: Bytes)
    requires ReadWord(args, at) == Some(length) && FromBytes(length) == |data|
    requires at + 32 + |data| <= |args| && args[at + 32..at + 32 + |data|] == data
    ensures ReadBytes(args, at) == Some(data)
  {
  }

  lemma MakerDataReads(head: seq<Word>, data: Bytes, rest: Bytes)
    requires |head| == 15 && FromBytes(head[14]) == |data|
    ensures ReadBytes(Flatten(head) + (data + rest), 448) == Some(data)
  {
    var args := Flatten(head) + (data + rest);
    HeadReads(head, data + rest, 14);
    assert args[480..480 + |data|] == data;
    BytesRead(args, 448, head[14], data);
  }

  lemma TakerDataReads(head: seq<Word>, makerData: Bytes, length: Word, data: Bytes)
    requires |head| == 15 && FromBytes(length) == |data|
    ensures ReadBytes(Flatten(head) + (makerData + (length + data)), 480 + |makerData|) == Some(data)
  {
    var m, part: Bytes := |makerData|, length + data;
    var args := Flatten(head) + (makerData + part);
    assert args[480 + m..] == part;
    assert args[480 + m..480 + m + 32] == part[..32] == length;
    assert args[480 + m + 32..480 + m + 32 + |data|] == part[32..] == data;
    BytesRead(args, 480 + m, length, data);
  }

  lemma OrderReads(args: Bytes, s: Signed, takerAt: nat, makerData: Bytes, takerData: Bytes)
    requires StaticReads(args, s)
    requires ReadUint(args, 384) == Some(384) && ReadUint(args, 416) == Some(takerAt)
    requires ReadBytes(args, 448) == Some(makerData) && ReadBytes(args, 64 + takerAt) == Some(takerData)
    ensures ReadOrder(args, 64) == Some(s.(exchange := Zeros(20), makerAssetData := makerData, takerAssetData := takerData))
  {
    AddressesRead(args, s);
    AmountsRead(args, s);
  }

  /** Any buffer laid out this way decodes to the fields and data laid out in it. */
  lemma LayoutDecodes(poolID: Word, s: Signed, head: seq<Word>, makerData: Bytes, length: Word, takerData: Bytes)
    requires |head| == 15 && IsHead(head, poolID, head[1], s, head[12], head[13], head[14])
    requires FromBytes(head[1]) == 64 && FromBytes(head[12]) == 384 && FromBytes(head[13]) == 416 + |makerData|
    requires FromBytes(head[14]) == |makerData| && FromBytes(length) == |takerData|
    ensures Decode(SELECTOR + (Flatten(head) + (makerData + (length + takerData)))) ==
            Some((poolID, s.(exchange := Zeros(20), makerAssetData := makerData, takerAssetData := takerData)))
  {
    var tail := makerData + (length + takerData);
    var args := Flatten(head) + tail;
    assert (SELECTOR + args)[4..] == args;
    HeadReads(head, tail, 0);
    HeadReads(head, tail, 1);
    HeadReads(head, tail, 12);
    HeadReads(head, tail, 13);
    StaticFieldsRead(head, tail, s);
    MakerDataReads(head, makerData, length + takerData);
    TakerDataReads(head, makerData, length, takerData);
    OrderReads(args, s, 416 + |makerData|, makerData, takerData);
  }

  /** A standard decoder recovers the pool, every static field, and each asset data
      zero-padded to whole words. */
  lemma DecodeEncode(poolID: Word, s: Signed)
    requires GoSized(s)
    ensures Decode(SELECTOR + Arguments(poolID, s)) == Some((poolID, Received(s)))
  {
    SmallWord(64);
    SmallWord(384);
    SmallWord(416 + RoundUp32(|s.makerAssetData|));
    SmallWord(RoundUp32(|s.makerAssetData|));
    SmallWord(RoundUp32(|s.takerAssetData|));
    LayoutDecodes(poolID, s, HeadWords(poolID, s), PadRight(s.makerAssetData),
                  WordOf(RoundUp32(|s.takerAssetData|)), PadRight(s.takerAssetData));
  }

  /** The code writes padded lengths, so the contract gets the asset data it was
      meant to get exactly when both are whole numbers of words. */
  lemma DecodesFaithfullyIffAligned(poolID: Word, s: Signed)
    requires GoSized(s)
    ensures Decode(SELECTOR + Arguments(poolID, s)) == Some((poolID, s.(exchange := Zeros(20)))) <==>
            |s.makerAssetData| % 32 == 0 && |s.takerAssetData| % 32 == 0
  {
    DecodeEncode(poolID, s);
    if |s.makerAssetData| % 32 == 0 && |s.takerAssetData| % 32 == 0 {
      assert PadRight(s.makerAssetData) == s.makerAssetData && PadRight(s.takerAssetData) == s.takerAssetData;
    } else {
      assert |Received(s).makerAssetData| != |s.makerAssetData| || |Received(s).takerAssetData| != |s.takerAssetData|;
    }
  }

  /** So the usual order, ERC20 for ERC20, is never among them: 36 bytes of asset data
      arrive as 64. */
  lemma Erc20OrderDecodesWrongly(poolID: Word, s: Signed, token: Address, other: Address)
    requires s.makerAssetData == Erc20AssetData(token) && s.takerAssetData == Erc20AssetData(other)
    ensures Decode(SELECTOR + Arguments(poolID, s)) == Some((poolID, Received(s)))
    ensures Received(s).makerAssetData == Erc20AssetData(token) + Zeros(28) != s.makerAssetData
    ensures Received(s).takerAssetData == Erc20AssetData(other) + Zeros(28) != s.takerAssetData
  {
    DecodeEncode(poolID, s);
    assert |Received(s).makerAssetData| == 64 && |Received(s).takerAssetData| == 64;
  }
}
