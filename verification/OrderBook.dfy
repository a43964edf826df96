/** The order table and the cancellation table, and every Indexer operation on
    them. Rows are keyed by the signed fields, which the order hash identifies
    (OrderHash.HashIdentifiesSignedFields). */
module OrderBook {
  import opened Bytes
  import opened Text
  import opened Orders
  import opened Division

  datatype Status = Open | Filled | Unfunded | Cancelled

  datatype Row = Row(
    makerAssetAddress: Address, status: Status, cancelled: bool,
    filled: Word, makerRemaining: Word, feeRemaining: Word)

  datatype Book = Book(rows: map<Signed, Row>, epochs: map<(Address, Address), Word>)

  function Big(w: Word): (x: nat)
    ensures x < Pow256(32)
  {
    FromBytes(w)
  }

  /** Above 100 units an order counts as filled at 99%. */
  function Threshold(taker: nat): nat {
    if taker > 100 then taker * 99 / 100 else taker
  }

  /** The maker's part of what is left, as stored: floored, then reduced to 32 bytes. */
  function Share(amount: Word, taker: Word, filled: Word): Word
    requires Big(taker) > 0
  {
    WordOf(Big(amount) * (Big(taker) - Big(filled)) / Big(taker))
  }

  /** Filled wins over cancelled, and either over the status that was there. */
  function StatusFor(reached: bool, cancelled: bool, status: Status): Status {
    if reached then Filled else if cancelled then Cancelled else status
  }

  predicate ReachedThreshold(k: Signed, filled: Word) {
    Threshold(Big(k.takerAmount)) <= Big(filled)
  }

  /** What Populate makes of an order with signed fields k. */
  function Populated(k: Signed, r: Row): Row
    requires Big(k.takerAmount) > 0
  {
    r.(makerRemaining := Share(k.makerAmount, k.takerAmount, r.filled),
       feeRemaining := Share(k.makerFee, k.takerAmount, r.filled),
       status := StatusFor(ReachedThreshold(k, r.filled), r.cancelled, r.status))
  }

  /** What Save does to the table. An unverified signature is an error; a zero taker
      amount panics in Populate; an existing row keeps all but four of its columns. */
  function Saved(rows: map<Signed, Row>, k: Signed, r: Row, status: Status, verifies: bool): map<Signed, Row> {
    if !verifies || Big(k.takerAmount) == 0 then rows
    else
      var p := Populated(k, r);
      var s := if p.status.Open? then status else p.status;
      rows[k := if k in rows
                then rows[k].(filled := p.filled, makerRemaining := p.makerRemaining,
                              feeRemaining := p.feeRemaining, status := s)
                else p.(status := s)]
  }

  /** Index: a fresh row, whose status starts out Open. */
  function Fresh(makerAssetAddress: Address, filled: Word, cancelled: bool): Row {
    Row(makerAssetAddress, Open, cancelled, filled, Zeros(32), Zeros(32))
  }

  /** The row that RecordFill loads, with the fill added. */
  function WithFill(r: Row, amount: int, cancel: bool): Row {
    r.(filled := WordOf(Big(r.filled) + amount), cancelled := r.cancelled || cancel)
  }

  function FillWith(rows: map<Signed, Row>, k: Signed, amount: int, cancel: bool): map<Signed, Row> {
    if k !in rows then rows else Saved(rows, k, WithFill(rows[k], amount, cancel), rows[k].status, true)
  }

  /** An empty amount means zero; one that does not parse is an error. */
  function FillAmount(text: string): Option<int> {
    if text == "" then Some(0) else ParseInt(text)
  }

  /** Is a spend of this token about the row's maker asset? Without asset data the token's address decides. */
  predicate AboutAsset(k: Signed, r: Row, token: Address, assetData: AssetData) {
    if assetData == [] then r.makerAssetAddress == token else k.makerAssetData == assetData
  }

  /** The WHERE clause of RecordSpend. The ZRX alternative looks at no status at all. */
  predicate SpendHits(k: Signed, r: Row, maker: Address, token: Address, zrx: Address, assetData: AssetData, balance: Word) {
    || (&& r.status.Open? && k.maker == maker && BytesLess(balance, r.makerRemaining)
        && AboutAsset(k, r, token, assetData))
    || (token == zrx && k.maker == maker && BytesLess(balance, r.feeRemaining))
  }

  /** What it is meant to say: an Open row of the maker and asset has more remaining than
      the balance or, if the token is ZRX, any row of the maker has a higher fee remaining. */
  predicate NumericHit(k: Signed, r: Row, maker: Address, token: Address, zrx: Address, assetData: AssetData, balance: Word) {
    || (&& r.status.Open? && k.maker == maker && Big(balance) < Big(r.makerRemaining)
        && AboutAsset(k, r, token, assetData))
    || (token == zrx && k.maker == maker && Big(balance) < Big(r.feeRemaining))
  }

  lemma SpendHitIsNumeric(k: Signed, r: Row, maker: Address, token: Address, zrx: Address, assetData: AssetData, balance: Word)
    ensures SpendHits(k, r, maker, token, zrx, assetData, balance) <==>
            NumericHit(k, r, maker, token, zrx, assetData, balance)
  {
    LexIsNumeric(balance, r.makerRemaining);
    LexIsNumeric(balance, r.feeRemaining);
  }

  predicate CancelHits(k: Signed, r: Row, maker: Address, sender: Address, epoch: Word) {
    r.status.Open? && k.maker == maker && k.sender == sender && BytesLess(k.salt, epoch)
  }

  function Spent(rows: map<Signed, Row>, maker: Address, token: Address, zrx: Address, assetData: AssetData,
                 balance: Word, status: Status): map<Signed, Row> {
    map k | k in rows :: if SpendHits(k, rows[k], maker, token, zrx, assetData, balance)
                         then rows[k].(status := status) else rows[k]
  }

  function CancelledBelow(rows: map<Signed, Row>, maker: Address, sender: Address, epoch: Word, status: Status)
    : map<Signed, Row> {
    map k | k in rows :: if CancelHits(k, rows[k], maker, sender, epoch)
                         then rows[k].(status := status) else rows[k]
  }

  /** dbCancellationLookup.GetCancelled: the answer, and whether there is an error with
      it. Nothing is looked up for an order that is cancelled already; a database that
      fails (`broken`) answers true with an error. */
  function GetCancelled(b: Book, k: Signed, cancelled: bool, broken: bool): (bool, bool) {
    if cancelled then (true, false)
    else if broken then (true, true)
    else ((k.maker, k.sender) in b.epochs && BytesLess(k.salt, b.epochs[(k.maker, k.sender)]), false)
  }

  // ---- the code, imperatively ----

  /** db.Order, the row an operation works on. */
  class DbOrder {
    const signed: Signed
    var row: Row

    constructor (signed: Signed, row: Row)
      ensures this.signed == signed && this.row == row
    {
      this.signed, this.row := signed, row;
    }

    method Populate()
      requires Big(signed.takerAmount) > 0
      modifies this
      ensures row == Populated(signed, old(row))
    {
      var taker := Big(signed.takerAmount);
      var remainingAmount: int, thresholdAmount: int := taker, taker;
      if thresholdAmount > 100 {
        thresholdAmount := thresholdAmount * 99;
        thresholdAmount := thresholdAmount / 100;
      }
      remainingAmount := remainingAmount - Big(row.filled);
      thresholdAmount := thresholdAmount - Big(row.filled);
      var makerRemaining := WordOf(Big(signed.makerAmount) * remainingAmount / taker);
      var feeRemaining := WordOf(Big(signed.makerFee) * remainingAmount / taker);
      row := row.(makerRemaining := makerRemaining, feeRemaining := feeRemaining);
      if row.cancelled {
        row := row.(status := Cancelled);
      }
      if thresholdAmount <= 0 {
        row := row.(status := Filled);
      }
    }
  }

  /** The database together with an Indexer over it. */
  class Indexer {
    var rows: map<Signed, Row>
    var epochs: map<(Address, Address), Word>
    const status: Status

    constructor (status: Status)
      ensures rows == map[] && epochs == map[] && this.status == status
    {
      rows, epochs, this.status := map[], map[], status;
    }

    method Save(order: DbOrder, defaultStatus: Status, verifies: bool)
      modifies this`rows, order
      ensures rows == Saved(old(rows), order.signed, old(order.row), defaultStatus, verifies)
    {
      if !verifies || Big(order.signed.takerAmount) == 0 {
        return;
      }
      order.Populate();
      if order.row.status.Open? {
        order.row := order.row.(status := defaultStatus);
      }
      var k, p := order.signed, order.row;
      if k in rows {
        rows := rows[k := rows[k].(filled := p.filled, makerRemaining := p.makerRemaining,
                                   feeRemaining := p.feeRemaining, status := p.status)];
      } else {
        rows := rows[k := p];
      }
    }

    method Index(order: OrderValue, verifies: bool)
      modifies this`rows
      ensures rows == Saved(old(rows), order.signed,
                            Fresh(order.makerAssetAddress, order.filled, order.cancelled), status, verifies)
    {
      var dbOrder := new DbOrder(order.signed, Fresh(order.makerAssetAddress, order.filled, order.cancelled));
      Save(dbOrder, status, verifies);
    }

    /** k is the order with the recorded hash, None if the hash is malformed. */
    method RecordFill(k: Option<Signed>, amountText: string, cancel: bool)
      modifies this`rows
      ensures rows == if k.None? || FillAmount(amountText).None? then old(rows)
                      else FillWith(old(rows), k.value, FillAmount(amountText).value, cancel)
      ensures k.None? || (amountText != "" && ParseInt(amountText).None?) ==> rows == old(rows)
      ensures k.Some? && amountText == "" ==> rows == FillWith(old(rows), k.value, 0, cancel)
      ensures k.Some? && amountText != "" && ParseInt(amountText).Some? ==>
                rows == FillWith(old(rows), k.value, ParseInt(amountText).value, cancel)
    {
      var text := if amountText == "" then "0" else amountText;
      assert ParseInt("0") == Some(0);
      var amountFilled := ParseInt(text);
      if k.None? || amountFilled.None? || k.value !in rows {
        return;
      }
      AddFill(k.value, amountFilled.value, cancel);
    }

    /** The part of RecordFill after the row is found. */
    method AddFill(k: Signed, amount: int, cancel: bool)
      requires k in rows
      modifies this`rows
      ensures rows == FillWith(old(rows), k, amount, cancel)
    {
      var loaded := rows[k];
      var totalFilled := Big(loaded.filled) + amount;
      var dbOrder := new DbOrder(k, loaded.(filled := WordOf(totalFilled), cancelled := loaded.cancelled || cancel));
      Save(dbOrder, loaded.status, true);
    }

    /** The rows hit change in status and nothing else; every other row stays. */
    method RecordSpend(maker: Address, token: Address, zrx: Address, assetData: AssetData, balance: Word)
      modifies this`rows
      ensures rows == Spent(old(rows), maker, token, zrx, assetData, balance, status)
      ensures rows.Keys == old(rows).Keys
      ensures forall k :: k in rows ==>
                var r := old(rows)[k];
                var about := if assetData == [] then r.makerAssetAddress == token else k.makerAssetData == assetData;
                var hit := k.maker == maker && ((r.status.Open? && about && Big(balance) < Big(r.makerRemaining))
                                                || (token == zrx && Big(balance) < Big(r.feeRemaining)));
                rows[k] == if hit then r.(status := status) else r
    {
      rows := map k | k in rows ::
                if SpendHits(k, rows[k], maker, token, zrx, assetData, balance) then rows[k].(status := status) else rows[k];
      forall k | k in rows
        ensures SpendHits(k, old(rows)[k], maker, token, zrx, assetData, balance) <==>
                NumericHit(k, old(rows)[k], maker, token, zrx, assetData, balance)
      {
        SpendHitIsNumeric(k, old(rows)[k], maker, token, zrx, assetData, balance);
      }
    }

    /** The epoch is stored; of the rows, just the Open ones of that maker and sender with
        a smaller salt change, and in status alone. */
    method RecordCancellation(maker: Address, sender: Address, epoch: Word)
      modifies this
      ensures epochs == old(epochs)[(maker, sender) := epoch]
      ensures rows == CancelledBelow(old(rows), maker, sender, epoch, status)
      ensures rows.Keys == old(rows).Keys
      ensures forall k :: k in rows ==>
                var r := old(rows)[k];
                var hit := r.status.Open? && k.maker == maker && k.sender == sender && Big(k.salt) < Big(epoch);
                rows[k] == if hit then r.(status := status) else r
    {
      epochs := epochs[(maker, sender) := epoch];
      rows := map k | k in rows ::
                if CancelHits(k, rows[k], maker, sender, epoch) then rows[k].(status := status) else rows[k];
      forall k | k in rows
        ensures BytesLess(k.salt, epoch) <==> Big(k.salt) < Big(epoch)
      {
        LexIsNumeric(k.salt, epoch);
      }
    }
  }

  // ---- whole runs ----

  /** Every write the running consumers make. Index comes after a lookup that sets the
      order's cancelled flag, and not at all if the lookup fails; spends and
      cancellations use their consumers' statuses. */
  datatype Event =
    | IndexAfterLookup(order: OrderValue, status: Status, verifies: bool, broken: bool)
    | Fill(k: Option<Signed>, amountText: string, cancel: bool)
    | Spend(maker: Address, token: Address, zrx: Address, assetData: AssetData, balance: Word)
    | Cancel(canceller: Address, sender: Address, epoch: Word)

  function Indexed(b: Book, order: OrderValue, cancelled: bool, status: Status, verifies: bool): Book {
    b.(rows := Saved(b.rows, order.signed, Fresh(order.makerAssetAddress, order.filled, cancelled), status, verifies))
  }

  function Apply(b: Book, e: Event): Book {
    match e
    case IndexAfterLookup(o, status, verifies, broken) =>
      var (cancelled, failed) := GetCancelled(b, o.signed, o.cancelled, broken);
      if failed then b else Indexed(b, o, cancelled, status, verifies)
    case Fill(k, text, cancel) =>
      if k.None? || FillAmount(text).None? then b
      else b.(rows := FillWith(b.rows, k.value, FillAmount(text).value, cancel))
    case Spend(maker, token, zrx, data, balance) =>
      b.(rows := Spent(b.rows, maker, token, zrx, data, balance, Unfunded))
    case Cancel(maker, sender, epoch) =>
      Book(CancelledBelow(b.rows, maker, sender, epoch, Cancelled), b.epochs[(maker, sender) := epoch])
  }

  function Run(b: Book, events: seq<Event>): Book
    decreases events
  {
    if events == [] then b else Run(Apply(b, events[0]), events[1..])
  }

  /** The stored epoch cancels this order: a comparison of numbers, not of bytes. */
  ghost predicate BelowEpoch(b: Book, k: Signed) {
    (k.maker, k.sender) in b.epochs && Big(k.salt) < Big(b.epochs[(k.maker, k.sender)])
  }

  /** What holds of one row in every reachable state. */
  ghost predicate RowOk(b: Book, k: Signed)
    requires k in b.rows
  {
    var r := b.rows[k];
    && Big(k.takerAmount) > 0
    && (r.status.Open? ==> !BelowEpoch(b, k) && !ReachedThreshold(k, r.filled))
    && r.makerRemaining == Share(k.makerAmount, k.takerAmount, r.filled)
    && r.feeRemaining == Share(k.makerFee, k.takerAmount, r.filled)
  }

  ghost predicate Invariant(b: Book) {
    forall k :: k in b.rows ==> RowOk(b, k)
  }

  /** Salts and epochs are compared as byte strings; that is the order of the numbers. */
  lemma LookupIsNumeric(b: Book, k: Signed, cancelled: bool, broken: bool)
    ensures var (answer, failed) := GetCancelled(b, k, cancelled, broken);
            && (failed <==> broken && !cancelled)
            && (answer <==> cancelled || broken || BelowEpoch(b, k))
  {
    if (k.maker, k.sender) in b.epochs {
      LexIsNumeric(k.salt, b.epochs[(k.maker, k.sender)]);
    }
  }

  /** Index leaves the row Open exactly when it asks for Open, the order was not found
      cancelled and its fills are under the threshold. */
  lemma IndexedStatus(b: Book, o: OrderValue, cancelled: bool, status: Status)
    requires Big(o.signed.takerAmount) > 0
    ensures o.signed in Indexed(b, o, cancelled, status, true).rows
    ensures Indexed(b, o, cancelled, status, true).rows[o.signed].status.Open? <==>
            status.Open? && !cancelled && !ReachedThreshold(o.signed, o.filled)
  {
    SavedRow(b.rows, o.signed, Fresh(o.makerAssetAddress, o.filled, cancelled), status);
  }

  /** The line that is drawn at 99%, in numbers: over 100 units an order counts as filled
      once at most one percent, rounded up, is left; others once nothing is. */
  lemma ThresholdLine(k: Signed, filled: Word)
    ensures var taker := Big(k.takerAmount);
            ReachedThreshold(k, filled) <==>
            if taker > 100 then 100 * (taker - Big(filled)) < taker + 100 else taker <= Big(filled)
  {
    ThresholdNumber(Big(k.takerAmount), Big(filled));
  }

  lemma ThresholdNumber(taker: nat, filled: nat)
    ensures Threshold(taker) <= filled <==> NearlyFilled(taker, filled)
  {
    DivParts(taker * 99, 100);
  }

  /** Is an order of this many units over the line? */
  predicate NearlyFilled(taker: nat, filled: nat) {
    if taker > 100 then 100 * (taker - filled) < taker + 100 else taker <= filled
  }

  /** Every status of the saved row: over the line it is Filled, whatever else; under it a
      cancelled order is Cancelled; otherwise it keeps the status it had, but an Open one
      gets the default. */
  lemma SavedStatus(rows: map<Signed, Row>, k: Signed, r: Row, status: Status)
    requires Big(k.takerAmount) > 0
    ensures k in Saved(rows, k, r, status, true)
    ensures var s, over := Saved(rows, k, r, status, true)[k].status, NearlyFilled(Big(k.takerAmount), Big(r.filled));
            var kept := if r.status.Open? then status else r.status;
            && (s.Filled? <==> over || (!r.cancelled && kept.Filled?))
            && (s.Cancelled? <==> !over && (r.cancelled || kept.Cancelled?))
            && (s.Unfunded? <==> !over && !r.cancelled && kept.Unfunded?)
            && (s.Open? <==> !over && !r.cancelled && kept.Open?)
  {
    ThresholdLine(k, r.filled);
    SavedRow(rows, k, r, status);
  }

  /** An order whose signature does not verify, or that asks for nothing, is not saved. */
  lemma NotSaved(rows: map<Signed, Row>, k: Signed, r: Row, status: Status, verifies: bool)
    ensures !verifies || Big(k.takerAmount) == 0 ==> Saved(rows, k, r, status, verifies) == rows
    ensures verifies && Big(k.takerAmount) > 0 ==> k in Saved(rows, k, r, status, verifies)
  {
  }

  /** The columns after an Index: a new row is the order's, an old one keeps its asset
      address and its cancelled flag. */
  lemma IndexedRow(b: Book, o: OrderValue, cancelled: bool, status: Status)
    requires Big(o.signed.takerAmount) > 0
    ensures o.signed in Indexed(b, o, cancelled, status, true).rows
    ensures var k := o.signed;
            var s := Indexed(b, o, cancelled, status, true).rows[k];
            && s.filled == o.filled
            && s.makerAssetAddress == (if k in b.rows then b.rows[k].makerAssetAddress else o.makerAssetAddress)
            && s.cancelled == (if k in b.rows then b.rows[k].cancelled else cancelled)
            && (s.status.Filled? <==> NearlyFilled(Big(k.takerAmount), Big(o.filled)) || (!cancelled && status.Filled?))
            && (s.status.Cancelled? <==> !NearlyFilled(Big(k.takerAmount), Big(o.filled)) && (cancelled || status.Cancelled?))
  {
    var fresh' := Fresh(o.makerAssetAddress, o.filled, cancelled);
    SavedRow(b.rows, o.signed, fresh', status);
    SavedStatus(b.rows, o.signed, fresh', status);
  }

  /** What Save writes, column by column. */
  lemma SavedRow(rows: map<Signed, Row>, k: Signed, r: Row, status: Status)
    requires Big(k.takerAmount) > 0
    ensures Saved(rows, k, r, status, true).Keys == rows.Keys + {k}
    ensures forall j :: j in rows && j != k ==> Saved(rows, k, r, status, true)[j] == rows[j]
    ensures var s, p := Saved(rows, k, r, status, true)[k], StatusFor(ReachedThreshold(k, r.filled), r.cancelled, r.status);
            && s.filled == r.filled
            && s.makerRemaining == Share(k.makerAmount, k.takerAmount, r.filled)
            && s.feeRemaining == Share(k.makerFee, k.takerAmount, r.filled)
            && s.status == (if p.Open? then status else p)
            && s.cancelled == (if k in rows then rows[k].cancelled else r.cancelled)
            && s.makerAssetAddress == (if k in rows then rows[k].makerAssetAddress else r.makerAssetAddress)
  {
  }

  /** b' differs from b in row k at most. */
  ghost predicate SameBut(b: Book, b': Book, k: Signed) {
    && b'.epochs == b.epochs
    && forall j :: j in b'.rows && j != k ==> j in b.rows && b'.rows[j] == b.rows[j]
  }

  /** Writing one row keeps the invariant exactly when that row is in order. */
  lemma OneRowWritten(b: Book, b': Book, k: Signed)
    requires Invariant(b) && SameBut(b, b', k) && k in b'.rows
    ensures Invariant(b') <==> RowOk(b', k)
  {
    if RowOk(b', k) {
      forall j | j in b'.rows
        ensures RowOk(b', j)
      {
        if j != k {
          assert RowOk(b, j);
        }
      }
    }
  }

  lemma SaveWritesOne(b: Book, k: Signed, r: Row, status: Status)
    requires Big(k.takerAmount) > 0
    ensures SameBut(b, b.(rows := Saved(b.rows, k, r, status, true)), k)
  {
    SavedRow(b.rows, k, r, status);
  }

  /** Is it a write that opens an order the stored epoch cancels? */
  ghost predicate OpensBelowEpoch(b: Book, o: OrderValue, cancelled: bool, status: Status) {
    BelowEpoch(b, o.signed) && status.Open? && !cancelled && !ReachedThreshold(o.signed, o.filled)
  }

  lemma IndexedRowOk(b: Book, o: OrderValue, cancelled: bool, status: Status)
    requires Big(o.signed.takerAmount) > 0
    ensures o.signed in Indexed(b, o, cancelled, status, true).rows
    ensures RowOk(Indexed(b, o, cancelled, status, true), o.signed) <==> !OpensBelowEpoch(b, o, cancelled, status)
  {
    IndexedStatus(b, o, cancelled, status);
  }

  /** Indexing with a cancelled flag that was looked up at some other time keeps the
      invariant if and only if it does not open an order the stored epoch cancels. */
  lemma IndexKeepsInvariantIff(b: Book, o: OrderValue, cancelled: bool, status: Status)
    requires Invariant(b) && Big(o.signed.takerAmount) > 0
    ensures Invariant(Indexed(b, o, cancelled, status, true)) <==> !OpensBelowEpoch(b, o, cancelled, status)
  {
    IndexedRowOk(b, o, cancelled, status);
    SaveWritesOne(b, o.signed, Fresh(o.makerAssetAddress, o.filled, cancelled), status);
    OneRowWritten(b, Indexed(b, o, cancelled, status, true), o.signed);
  }

  lemma FillKeepsInvariant(b: Book, k: Signed, amount: int, cancel: bool)
    requires Invariant(b)
    ensures Invariant(b.(rows := FillWith(b.rows, k, amount, cancel)))
  {
    if k in b.rows {
      assert RowOk(b, k);
      SavedKeepsInvariant(b, k, WithFill(b.rows[k], amount, cancel), b.rows[k].status);
    } else {
      assert b.(rows := FillWith(b.rows, k, amount, cancel)) == b;
    }
  }

  /** Saving a row with the status it has, fills changed or not. */
  lemma SavedKeepsInvariant(b: Book, k: Signed, r: Row, status: Status)
    requires Invariant(b) && Big(k.takerAmount) > 0
    requires status.Open? ==> !BelowEpoch(b, k)
    requires r.status == status
    ensures Invariant(b.(rows := Saved(b.rows, k, r, status, true)))
  {
    SavedRow(b.rows, k, r, status);
    SaveWritesOne(b, k, r, status);
    OneRowWritten(b, b.(rows := Saved(b.rows, k, r, status, true)), k);
  }

  lemma CancelKeepsRow(b: Book, maker: Address, sender: Address, epoch: Word, k: Signed)
    requires k in b.rows && RowOk(b, k)
    ensures RowOk(Apply(b, Cancel(maker, sender, epoch)), k)
  {
    LexIsNumeric(k.salt, epoch);
    var r, s := b.rows[k], Apply(b, Cancel(maker, sender, epoch)).rows[k];
    assert s == if CancelHits(k, r, maker, sender, epoch) then r.(status := Cancelled) else r;
  }

  lemma CancelKeepsInvariant(b: Book, maker: Address, sender: Address, epoch: Word)
    requires Invariant(b)
    ensures Invariant(Apply(b, Cancel(maker, sender, epoch)))
  {
    forall k | k in Apply(b, Cancel(maker, sender, epoch)).rows
      ensures RowOk(Apply(b, Cancel(maker, sender, epoch)), k)
    {
      assert RowOk(b, k);
      CancelKeepsRow(b, maker, sender, epoch, k);
    }
  }

  lemma SpendKeepsInvariant(b: Book, e: Event)
    requires Invariant(b) && e.Spend?
    ensures Invariant(Apply(b, e))
  {
    var b' := Apply(b, e);
    forall k | k in b'.rows
      ensures RowOk(b', k)
    {
      assert RowOk(b, k);
      assert b'.rows[k] == b.rows[k] || b'.rows[k] == b.rows[k].(status := Unfunded);
    }
  }

  lemma IndexStepKeepsInvariant(b: Book, e: Event)
    requires Invariant(b) && e.IndexAfterLookup?
    ensures Invariant(Apply(b, e))
  {
    var o := e.order;
    var (cancelled, failed) := GetCancelled(b, o.signed, o.cancelled, e.broken);
    LookupIsNumeric(b, o.signed, o.cancelled, e.broken);
    if !failed && e.verifies && Big(o.signed.takerAmount) > 0 {
      IndexKeepsInvariantIff(b, o, cancelled, e.status);
    } else {
      assert Apply(b, e) == b;
    }
  }

  lemma FillStepKeepsInvariant(b: Book, e: Event)
    requires Invariant(b) && e.Fill?
    ensures Invariant(Apply(b, e))
  {
    if e.k.Some? && FillAmount(e.amountText).Some? {
      FillKeepsInvariant(b, e.k.value, FillAmount(e.amountText).value, e.cancel);
    }
  }

  lemma StepKeepsInvariant(b: Book, e: Event)
    requires Invariant(b)
    ensures Invariant(Apply(b, e))
  {
    match e
    case IndexAfterLookup(_, _, _, _) => IndexStepKeepsInvariant(b, e);
    case Fill(_, _, _) => FillStepKeepsInvariant(b, e);
    case Spend(_, _, _, _, _) => SpendKeepsInvariant(b, e);
    case Cancel(maker, sender, epoch) => CancelKeepsInvariant(b, maker, sender, epoch);
  }

  /** In every reachable state no Open order is below its maker's and sender's epoch or
      past its threshold, and every stored remainder is the floored share. */
  lemma {:induction false} InvariantAlways(b: Book, events: seq<Event>)
    requires Invariant(b)
    ensures Invariant(Run(b, events))
    decreases events
  {
    if events == [] {
    } else {
      StepKeepsInvariant(b, events[0]);
      InvariantAlways(Apply(b, events[0]), events[1..]);
    }
  }

  /** No cancellation in the run lowers a stored epoch. */
  ghost predicate EpochsRise(b: Book, events: seq<Event>)
    decreases events
  {
    events == [] ||
    (&& (events[0].Cancel? ==>
           var e := events[0];
           (e.canceller, e.sender) in b.epochs ==> Big(b.epochs[(e.canceller, e.sender)]) <= Big(e.epoch))
     && EpochsRise(Apply(b, events[0]), events[1..]))
  }

  /** Once an epoch cancels an order, nothing opens it again. */
  lemma {:induction false} NeverReopens(b: Book, events: seq<Event>, k: Signed)
    requires Invariant(b) && EpochsRise(b, events) && BelowEpoch(b, k)
    ensures BelowEpoch(Run(b, events), k)
    ensures k in Run(b, events).rows ==> !Run(b, events).rows[k].status.Open?
    decreases events
  {
    if events == [] {
      assert k in b.rows ==> RowOk(b, k);
    } else {
      StepKeepsInvariant(b, events[0]);
      NeverReopens(Apply(b, events[0]), events[1..], k);
    }
  }

  /** An Open order of more than 100 units has strictly more than one percent left. */
  lemma OpenHasOverOnePercent(b: Book, k: Signed)
    requires Invariant(b) && k in b.rows && b.rows[k].status.Open?
    ensures Big(k.takerAmount) > 100 ==> 100 * (Big(k.takerAmount) - Big(b.rows[k].filled)) > Big(k.takerAmount)
    ensures Big(b.rows[k].filled) < Big(k.takerAmount)
  {
    assert RowOk(b, k);
    var t := Big(k.takerAmount);
    if t > 100 {
      DivParts(t * 99, 100);
    }
  }

  // ---- fills ----

  /** Below the order's size the stored share is the exact floor. */
  lemma ShareIsFloor(amount: Word, taker: Word, filled: Word)
    requires 0 < Big(taker) && Big(filled) <= Big(taker)
    ensures Big(Share(amount, taker, filled)) == Big(amount) * (Big(taker) - Big(filled)) / Big(taker)
    ensures Big(Share(amount, taker, filled)) <= Big(amount)
  {
    var a, t, left := Big(amount), Big(taker), Big(taker) - Big(filled);
    Scale(a, left, t);
    Scale(a, 0, left);
    DivMonotone(a * left, a * t, t);
    DivMultiple(a, t);
    DivNonNegative(a * left, t);
  }

  lemma ShareShrinks(amount: Word, taker: Word, before: Word, after: Word)
    requires 0 < Big(taker) && Big(before) <= Big(after) <= Big(taker)
    ensures Big(Share(amount, taker, after)) <= Big(Share(amount, taker, before))
  {
    var a, t := Big(amount), Big(taker);
    ShareIsFloor(amount, taker, before);
    ShareIsFloor(amount, taker, after);
    Scale(a, t - Big(after), t - Big(before));
    DivMonotone(a * (t - Big(after)), a * (t - Big(before)), t);
  }

  type FillList = seq<(nat, bool)>

  function Total(fills: FillList): nat
    decreases fills
  {
    if fills == [] then 0 else fills[0].0 + Total(fills[1..])
  }

  predicate AnyCancel(fills: FillList)
    decreases fills
  {
    fills != [] && (fills[0].1 || AnyCancel(fills[1..]))
  }

  function FillAll(rows: map<Signed, Row>, k: Signed, fills: FillList): map<Signed, Row>
    decreases fills
  {
    if fills == [] then rows else FillAll(FillWith(rows, k, fills[0].0, fills[0].1), k, fills[1..])
  }

  /** The status after fills, from what they add up to. */
  function StatusAfter(k: Signed, r: Row, fills: FillList): Status {
    StatusFor(Threshold(Big(k.takerAmount)) <= Big(r.filled) + Total(fills), AnyCancel(fills) || r.cancelled, r.status)
  }

  /** One fill: exact sum, floored shares that did not grow, and the new status. */
  lemma FillOnce(rows: map<Signed, Row>, k: Signed, amount: nat, cancel: bool)
    requires k in rows && 0 < Big(k.takerAmount) && Big(rows[k].filled) + amount <= Big(k.takerAmount)
    ensures FillWith(rows, k, amount, cancel).Keys == rows.Keys
    ensures forall j :: j in rows && j != k ==> FillWith(rows, k, amount, cancel)[j] == rows[j]
    ensures var r, s := rows[k], FillWith(rows, k, amount, cancel)[k];
            && Big(s.filled) == Big(r.filled) + amount
            && s.makerRemaining == Share(k.makerAmount, k.takerAmount, s.filled)
            && s.feeRemaining == Share(k.makerFee, k.takerAmount, s.filled)
            && s.cancelled == r.cancelled
            && s.status == StatusFor(ReachedThreshold(k, s.filled), r.cancelled || cancel, r.status)
            && (s.status.Filled? <==> NearlyFilled(Big(k.takerAmount), Big(r.filled) + amount)
                                      || (!r.cancelled && !cancel && r.status.Filled?))
            && (s.status.Cancelled? <==> !NearlyFilled(Big(k.takerAmount), Big(r.filled) + amount)
                                         && (r.cancelled || cancel || r.status.Cancelled?))
  {
    ThresholdLine(k, FillWith(rows, k, amount, cancel)[k].filled);
  }

  /** Any fill that parses, negative or too large ones included: the stored amount is the
      sum modulo 2^256. */
  lemma FillAddsModulo(rows: map<Signed, Row>, k: Signed, amount: int, cancel: bool)
    requires k in rows && Big(k.takerAmount) > 0
    ensures k in FillWith(rows, k, amount, cancel)
    ensures Big(FillWith(rows, k, amount, cancel)[k].filled) == (Big(rows[k].filled) + amount) % Pow256(32)
  {
    SavedRow(rows, k, WithFill(rows[k], amount, cancel), rows[k].status);
  }

  /** Fills that together do not exceed the order: the stored amount is the exact sum,
      the row is Filled exactly from the fill that reaches the threshold on, the
      remainders belong to the stored amount, and no other row changes. */
  lemma {:induction false} FillAccounting(rows: map<Signed, Row>, k: Signed, fills: FillList)
    requires k in rows && fills != []
    requires 0 < Big(k.takerAmount) && Big(rows[k].filled) + Total(fills) <= Big(k.takerAmount)
    ensures FillAll(rows, k, fills).Keys == rows.Keys
    ensures forall j :: j in rows && j != k ==> FillAll(rows, k, fills)[j] == rows[j]
    ensures var r, s := rows[k], FillAll(rows, k, fills)[k];
            && Big(s.filled) == Big(r.filled) + Total(fills)
            && s.makerRemaining == Share(k.makerAmount, k.takerAmount, s.filled)
            && s.feeRemaining == Share(k.makerFee, k.takerAmount, s.filled)
            && s.cancelled == r.cancelled
            && s.status == StatusAfter(k, r, fills)
    decreases fills
  {
    var (amount, cancel) := fills[0];
    var r, rest, next := rows[k], fills[1..], FillWith(rows, k, amount, cancel);
    var s, threshold := next[k], Threshold(Big(k.takerAmount));
    FillOnce(rows, k, amount, cancel);
    assert FillAll(rows, k, fills) == FillAll(next, k, rest);
    assert Total(fills) == amount + Total(rest) && AnyCancel(fills) == (cancel || AnyCancel(rest));
    if rest == [] {
      assert StatusAfter(k, r, fills) == s.status;
    } else {
      FillAccounting(next, k, rest);
      assert StatusAfter(k, r, fills) == StatusAfter(k, s, rest);
    }
  }

  /** So after such fills an Open order is Filled if and only if they add up to over the
      line, and still Open if and only if they do not and none cancels it. */
  lemma FilledIff(rows: map<Signed, Row>, k: Signed, fills: FillList)
    requires k in rows && fills != [] && rows[k].status.Open? && !rows[k].cancelled
    requires 0 < Big(k.takerAmount) && Big(rows[k].filled) + Total(fills) <= Big(k.takerAmount)
    ensures k in FillAll(rows, k, fills)
    ensures var s, over := FillAll(rows, k, fills)[k].status, NearlyFilled(Big(k.takerAmount), Big(rows[k].filled) + Total(fills));
            && (s.Filled? <==> over)
            && (s.Open? <==> !over && !AnyCancel(fills))
            && (s.Cancelled? <==> !over && AnyCancel(fills))
  {
    FillAccounting(rows, k, fills);
    ThresholdNumber(Big(k.takerAmount), Big(rows[k].filled) + Total(fills));
  }

  lemma {:induction false} AnyCancelIff(fills: FillList)
    ensures AnyCancel(fills) <==> exists i :: 0 <= i < |fills| && fills[i].1
    decreases fills
  {
    if fills == [] {
    } else {
      AnyCancelIff(fills[1..]);
      if AnyCancel(fills[1..]) {
        var i :| 0 <= i < |fills[1..]| && fills[1..][i].1;
        assert fills[i + 1].1;
      }
      if i :| 0 <= i < |fills| && fills[i].1 {
        assert i > 0 ==> fills[1..][i - 1].1;
      }
    }
  }

  /** Under such fills the stored remainders are the exact floored shares of what is
      left, and they only ever go down. */
  lemma RemaindersShrink(rows: map<Signed, Row>, k: Signed, fills: FillList)
    requires k in rows && fills != []
    requires 0 < Big(k.takerAmount) && Big(rows[k].filled) + Total(fills) <= Big(k.takerAmount)
    ensures k in FillAll(rows, k, fills)
    ensures var s, taker := FillAll(rows, k, fills)[k], Big(k.takerAmount);
            var left := taker - Big(rows[k].filled) - Total(fills);
            && Big(s.makerRemaining) == Big(k.makerAmount) * left / taker
            && Big(s.feeRemaining) == Big(k.makerFee) * left / taker
            && Big(s.makerRemaining) <= Big(Share(k.makerAmount, k.takerAmount, rows[k].filled))
            && Big(s.feeRemaining) <= Big(Share(k.makerFee, k.takerAmount, rows[k].filled))
  {
    FillAccounting(rows, k, fills);
    var s := FillAll(rows, k, fills)[k];
    ShareIsFloor(k.makerAmount, k.takerAmount, s.filled);
    ShareIsFloor(k.makerFee, k.takerAmount, s.filled);
    ShareShrinks(k.makerAmount, k.takerAmount, rows[k].filled, s.filled);
    ShareShrinks(k.makerFee, k.takerAmount, rows[k].filled, s.filled);
  }

  // ---- spends ----

  /** After a spend is recorded, every order of that maker and asset that is still Open
      can be paid from the balance, and so can its fee when the token is ZRX. */
  lemma SpendClears(rows: map<Signed, Row>, maker: Address, token: Address, zrx: Address, assetData: AssetData,
                    balance: Word, status: Status, k: Signed)
    requires !status.Open? && k in rows && k.maker == maker
    requires Spent(rows, maker, token, zrx, assetData, balance, status)[k].status.Open?
    ensures rows[k].status.Open?
    ensures AboutAsset(k, rows[k], token, assetData) ==> Big(rows[k].makerRemaining) <= Big(balance)
    ensures token == zrx ==> Big(rows[k].feeRemaining) <= Big(balance)
  {
    LexIsNumeric(balance, rows[k].makerRemaining);
    LexIsNumeric(balance, rows[k].feeRemaining);
  }

  /** A spend changes an Open row exactly if it is its maker's, and is about its asset and
      reports less than remains, or is about ZRX and reports less than the remaining fee;
      it leaves orders of other assets alone. */
  lemma SpendHitsOpenIff(rows: map<Signed, Row>, k: Signed, maker: Address, token: Address, zrx: Address,
                         assetData: AssetData, balance: Word)
    requires k in rows && rows[k].status.Open?
    ensures var r, s := rows[k], Spent(rows, maker, token, zrx, assetData, balance, Unfunded)[k];
            var about := if assetData == [] then r.makerAssetAddress == token else k.makerAssetData == assetData;
            && (s != r <==> k.maker == maker && ((about && Big(balance) < Big(r.makerRemaining))
                                                 || (token == zrx && Big(balance) < Big(r.feeRemaining))))
            && (s != r ==> s == r.(status := Unfunded))
  {
    SpendHitIsNumeric(k, rows[k], maker, token, zrx, assetData, balance);
  }

  /** A cancellation changes a row exactly if it is Open, of that maker and sender, and its
      salt is a smaller number than the epoch; and then the row is Cancelled. */
  lemma CancelHitsIff(b: Book, maker: Address, sender: Address, epoch: Word, k: Signed)
    requires k in b.rows
    ensures var r, s := b.rows[k], Apply(b, Cancel(maker, sender, epoch)).rows[k];
            && (s != r <==> r.status.Open? && k.maker == maker && k.sender == sender && Big(k.salt) < Big(epoch))
            && (s != r ==> s == r.(status := Cancelled))
  {
    LexIsNumeric(k.salt, epoch);
  }

  /** A spend of another maker, or of another token than the row's asset and ZRX. */
  predicate Foreign(e: Event, k: Signed, makerAssetAddress: Address) {
    e.Spend? ==>
      || e.maker != k.maker
      || (&& e.token != e.zrx
          && (if e.assetData == [] then makerAssetAddress != e.token else k.makerAssetData != e.assetData))
  }

  /** Over whole runs: spends of other assets, writes to other orders and other makers'
      cancellations leave an Open row exactly as it is. */
  lemma {:induction false} ForeignEventsLeaveAlone(b: Book, events: seq<Event>, k: Signed)
    requires k in b.rows && b.rows[k].status.Open? && NoneRewrites(events, k)
    requires forall e :: e in events ==> Foreign(e, k, b.rows[k].makerAssetAddress)
    requires forall e :: e in events && e.Cancel? ==> e.canceller != k.maker || e.sender != k.sender
    ensures k in Run(b, events).rows && Run(b, events).rows[k] == b.rows[k]
    decreases events
  {
    if events == [] {
    } else {
      var e := events[0];
      assert forall x :: x in events <==> x == e || x in events[1..];
      ForeignEventLeavesAlone(b, e, k);
      ForeignEventsLeaveAlone(Apply(b, e), events[1..], k);
    }
  }

  lemma ForeignEventLeavesAlone(b: Book, e: Event, k: Signed)
    requires k in b.rows && b.rows[k].status.Open? && !Rewrites(e, k) && Foreign(e, k, b.rows[k].makerAssetAddress)
    requires e.Cancel? ==> e.canceller != k.maker || e.sender != k.sender
    ensures k in Apply(b, e).rows && Apply(b, e).rows[k] == b.rows[k]
  {
    match e
    case IndexAfterLookup(_, _, _, _) => OthersKeepRow(b, e, k);
    case Fill(_, _, _) =>
    case Spend(maker, token, zrx, data, balance) => SpendHitsOpenIff(b.rows, k, maker, token, zrx, data, balance);
    case Cancel(maker, sender, epoch) => CancelHitsIff(b, maker, sender, epoch, k);
  }

  lemma OthersKeepRow(b: Book, e: Event, k: Signed)
    requires k in b.rows && !Rewrites(e, k) && e.IndexAfterLookup?
    ensures k in Apply(b, e).rows && Apply(b, e).rows[k] == b.rows[k]
  {
    var o := e.order;
    if e.verifies && Big(o.signed.takerAmount) > 0 {
      SavedRow(b.rows, o.signed, Fresh(o.makerAssetAddress, o.filled, GetCancelled(b, o.signed, o.cancelled, e.broken).0), e.status);
    }
  }

  // ---- spends among other events ----

  /** What the spend reports pays for the row, and for its fee if the token is ZRX. */
  predicate CoveredBy(k: Signed, r: Row, e: Event)
    requires e.Spend?
  {
    && (AboutAsset(k, r, e.token, e.assetData) ==> Big(r.makerRemaining) <= Big(e.balance))
    && (e.token == e.zrx ==> Big(r.feeRemaining) <= Big(e.balance))
  }

  /** What the event fills of order k, if it is a fill of it that parses. */
  function FillOf(e: Event, k: Signed): int {
    if e.Fill? && e.k == Some(k) && FillAmount(e.amountText).Some? then FillAmount(e.amountText).value else 0
  }

  function Filling(events: seq<Event>, k: Signed): int
    decreases events
  {
    if events == [] then 0 else FillOf(events[0], k) + Filling(events[1..], k)
  }

  predicate IndexesNot(e: Event, k: Signed) {
    !(e.IndexAfterLookup? && e.order.signed == k)
  }

  /** No event indexes order k anew, and its fills are not negative. */
  predicate OnlyFillsOf(events: seq<Event>, k: Signed) {
    forall e :: e in events ==> IndexesNot(e, k) && FillOf(e, k) >= 0
  }

  /** The row of k stores the floored shares of what is left. */
  ghost predicate InOrder(b: Book, k: Signed) {
    && k in b.rows && Big(k.takerAmount) > 0
    && b.rows[k].makerRemaining == Share(k.makerAmount, k.takerAmount, b.rows[k].filled)
    && b.rows[k].feeRemaining == Share(k.makerFee, k.takerAmount, b.rows[k].filled)
  }

  /** s is r after events that leave no less remaining and open nothing. */
  predicate Shrank(r: Row, s: Row) {
    && s.makerAssetAddress == r.makerAssetAddress && (s.status.Open? ==> r.status.Open?)
    && Big(s.makerRemaining) <= Big(r.makerRemaining) && Big(s.feeRemaining) <= Big(r.feeRemaining)
  }

  lemma FillShrinks(b: Book, e: Event, k: Signed)
    requires InOrder(b, k) && e.Fill? && e.k == Some(k)
    requires FillOf(e, k) >= 0 && Big(b.rows[k].filled) + FillOf(e, k) <= Big(k.takerAmount)
    ensures InOrder(Apply(b, e), k) && Shrank(b.rows[k], Apply(b, e).rows[k])
    ensures Big(Apply(b, e).rows[k].filled) == Big(b.rows[k].filled) + FillOf(e, k)
  {
    if FillAmount(e.amountText).Some? {
      var amount := FillAmount(e.amountText).value;
      FillOnce(b.rows, k, amount, e.cancel);
      var filled := FillWith(b.rows, k, amount, e.cancel)[k].filled;
      ShareShrinks(k.makerAmount, k.takerAmount, b.rows[k].filled, filled);
      ShareShrinks(k.makerFee, k.takerAmount, b.rows[k].filled, filled);
    } else {
      assert Apply(b, e) == b;
    }
  }

  /** Events that are no fill or Index of k change its status at most, and open nothing. */
  lemma OthersChangeStatus(b: Book, e: Event, k: Signed)
    requires k in b.rows && !Rewrites(e, k)
    ensures k in Apply(b, e).rows
    ensures var r, s := b.rows[k], Apply(b, e).rows[k]; s == r.(status := s.status) && (s.status.Open? ==> r.status.Open?)
  {
    match e
    case IndexAfterLookup(o, status, verifies, broken) =>
      if verifies && Big(o.signed.takerAmount) > 0 {
        SavedRow(b.rows, o.signed, Fresh(o.makerAssetAddress, o.filled, GetCancelled(b, o.signed, o.cancelled, broken).0), status);
      }
    case Fill(_, _, _) =>
    case Spend(_, _, _, _, _) =>
    case Cancel(_, _, _) =>
  }

  lemma OthersShrink(b: Book, e: Event, k: Signed)
    requires InOrder(b, k) && !Rewrites(e, k)
    ensures InOrder(Apply(b, e), k) && Shrank(b.rows[k], Apply(b, e).rows[k])
    ensures Apply(b, e).rows[k].filled == b.rows[k].filled
  {
    OthersChangeStatus(b, e, k);
  }

  lemma SpendCovers(b: Book, e: Event, k: Signed)
    requires k in b.rows && e.Spend? && e.maker == k.maker && Apply(b, e).rows[k].status.Open?
    ensures CoveredBy(k, Apply(b, e).rows[k], e)
  {
    SpendClears(b.rows, e.maker, e.token, e.zrx, e.assetData, e.balance, Unfunded, k);
  }

  lemma ShrankCovered(k: Signed, r: Row, s: Row, e: Event)
    requires Shrank(r, s) && e.Spend? && CoveredBy(k, r, e)
    ensures CoveredBy(k, s, e)
  {
  }

  lemma StepShrinks(b: Book, e: Event, k: Signed)
    requires InOrder(b, k) && IndexesNot(e, k)
    requires FillOf(e, k) >= 0 && Big(b.rows[k].filled) + FillOf(e, k) <= Big(k.takerAmount)
    ensures InOrder(Apply(b, e), k) && Shrank(b.rows[k], Apply(b, e).rows[k])
    ensures Big(Apply(b, e).rows[k].filled) == Big(b.rows[k].filled) + FillOf(e, k)
  {
    if Rewrites(e, k) {
      FillShrinks(b, e, k);
    } else {
      OthersShrink(b, e, k);
    }
  }

  /** Spends interleaved with cancellations, fills within the order and writes to other
      orders: a row still Open at the end was Open all along, has no more remaining than at
      the start, and is covered by every spend of its maker on the way. */
  lemma {:induction false} OpenStaysCovered(b: Book, events: seq<Event>, k: Signed)
    requires InOrder(b, k) && OnlyFillsOf(events, k) && Big(b.rows[k].filled) + Filling(events, k) <= Big(k.takerAmount)
    ensures InOrder(Run(b, events), k) && Shrank(b.rows[k], Run(b, events).rows[k])
    ensures Run(b, events).rows[k].status.Open? ==>
              forall e :: e in events && e.Spend? && e.maker == k.maker ==> CoveredBy(k, Run(b, events).rows[k], e)
    decreases events
  {
    if events == [] {
    } else {
      var first, rest, next := events[0], events[1..], Apply(b, events[0]);
      assert forall e :: e in events <==> e == first || e in rest;
      FillingNotNegative(rest, k);
      StepShrinks(b, first, k);
      OpenStaysCovered(next, rest, k);
      var end := Run(next, rest).rows[k];
      if end.status.Open? && first.Spend? && first.maker == k.maker {
        SpendCovers(b, first, k);
        ShrankCovered(k, next.rows[k], end, first);
      }
    }
  }

  lemma {:induction false} FillingNotNegative(events: seq<Event>, k: Signed)
    requires OnlyFillsOf(events, k)
    ensures Filling(events, k) >= 0
    decreases events
  {
    if events == [] {
    } else {
      assert events[0] in events && forall e :: e in events[1..] ==> e in events;
      FillingNotNegative(events[1..], k);
    }
  }

  // ---- settled rows ----

  /** Filled and Cancelled are meant to be final. */
  predicate Settled(r: Row) {
    r.status.Filled? || r.status.Cancelled?
  }

  /** A ZRX spend of the maker that leaves less than the remaining fee. */
  predicate ZrxHit(e: Event, k: Signed, fee: Word) {
    e.Spend? && e.token == e.zrx && e.maker == k.maker && Big(e.balance) < Big(fee)
  }

  /** The ZRX alternative has no status guard, so a spend does unsettle a row: exactly
      if it is a ZRX spend of the maker below the remaining fee. */
  lemma SpendUnsettlesIff(rows: map<Signed, Row>, k: Signed, maker: Address, token: Address, zrx: Address,
                          assetData: AssetData, balance: Word)
    requires k in rows && Settled(rows[k])
    ensures var r := Spent(rows, maker, token, zrx, assetData, balance, Unfunded)[k];
            && (r != rows[k] <==> token == zrx && k.maker == maker && Big(balance) < Big(rows[k].feeRemaining))
            && (Settled(r) <==> r == rows[k])
  {
    LexIsNumeric(balance, rows[k].feeRemaining);
  }

  /** It overwrites any other status too. */
  lemma ZrxSpendOverwritesAnyStatus(rows: map<Signed, Row>, k: Signed, token: Address, assetData: AssetData,
                                    balance: Word, status: Status)
    requires k in rows && Big(balance) < Big(rows[k].feeRemaining)
    ensures Spent(rows, k.maker, token, token, assetData, balance, status)[k].status == status
  {
    LexIsNumeric(balance, rows[k].feeRemaining);
  }

  /** Does the event try to rewrite row k itself? */
  predicate Rewrites(e: Event, k: Signed) {
    || (e.IndexAfterLookup? && e.order.signed == k)
    || (e.Fill? && e.k == Some(k))
  }

  predicate NoneRewrites(events: seq<Event>, k: Signed) {
    forall e :: e in events ==> !Rewrites(e, k)
  }

  predicate NoZrxHit(events: seq<Event>, k: Signed, fee: Word) {
    forall e :: e in events ==> !ZrxHit(e, k, fee)
  }

  /** One event that does not rewrite row k: what it can do to a row that is not Open. */
  lemma ClosedRowStep(b: Book, e: Event, k: Signed)
    requires k in b.rows && !b.rows[k].status.Open? && !Rewrites(e, k)
    ensures k in Apply(b, e).rows
    ensures Apply(b, e).rows[k] == if ZrxHit(e, k, b.rows[k].feeRemaining) then b.rows[k].(status := Unfunded) else b.rows[k]
  {
    match e
    case IndexAfterLookup(o, status, verifies, broken) =>
      if verifies && Big(o.signed.takerAmount) > 0 {
        SavedRow(b.rows, o.signed, Fresh(o.makerAssetAddress, o.filled, GetCancelled(b, o.signed, o.cancelled, broken).0), status);
      }
    case Fill(_, _, _) =>
    case Spend(_, _, _, _, balance) => LexIsNumeric(balance, b.rows[k].feeRemaining);
    case Cancel(_, _, _) =>
  }

  /** A row that is not Open and that nothing rewrites keeps every column but its status,
      and ends as Unfunded if a ZRX spend hit it, else as it was. */
  lemma {:induction false} ClosedRowRun(b: Book, events: seq<Event>, k: Signed)
    requires k in b.rows && !b.rows[k].status.Open? && NoneRewrites(events, k)
    ensures k in Run(b, events).rows
    ensures Run(b, events).rows[k] ==
            if NoZrxHit(events, k, b.rows[k].feeRemaining) then b.rows[k] else b.rows[k].(status := Unfunded)
    decreases events
  {
    if events == [] {
    } else {
      assert forall e :: e in events <==> e == events[0] || e in events[1..];
      ClosedRowStep(b, events[0], k);
      ClosedRowRun(Apply(b, events[0]), events[1..], k);
    }
  }

  /** Over whole runs: a Filled or Cancelled row that no Index or fill rewrites is still
      the same row at the end if and only if no ZRX spend hit it on the way. */
  lemma SettledRowKeptIff(b: Book, events: seq<Event>, k: Signed)
    requires k in b.rows && Settled(b.rows[k]) && NoneRewrites(events, k)
    ensures k in Run(b, events).rows
    ensures Run(b, events).rows[k] == b.rows[k] <==> NoZrxHit(events, k, b.rows[k].feeRemaining)
    ensures Settled(Run(b, events).rows[k]) <==> NoZrxHit(events, k, b.rows[k].feeRemaining)
  {
    ClosedRowRun(b, events, k);
  }

  /** Indexing the same order again, found neither cancelled nor filled, with a status
      other than Filled and Cancelled. */
  predicate Reindexes(b: Book, e: Event, k: Signed) {
    && e.IndexAfterLookup? && e.order.signed == k && e.verifies && Big(k.takerAmount) > 0
    && GetCancelled(b, k, e.order.cancelled, e.broken) == (false, false)
    && !ReachedThreshold(k, e.order.filled) && (e.status.Open? || e.status.Unfunded?)
  }

  lemma SavedSettled(rows: map<Signed, Row>, k: Signed, r: Row, status: Status)
    requires Big(k.takerAmount) > 0
    ensures k in Saved(rows, k, r, status, true)
    ensures Settled(Saved(rows, k, r, status, true)[k]) <==>
            || ReachedThreshold(k, r.filled) || r.cancelled
            || (r.status.Open? && (status.Filled? || status.Cancelled?)) || Settled(r)
  {
    SavedRow(rows, k, r, status);
  }

  lemma ReindexUnsettlesIff(b: Book, e: Event, k: Signed)
    requires k in b.rows && Settled(b.rows[k]) && Big(k.takerAmount) > 0
    requires e.IndexAfterLookup? && e.order.signed == k
    ensures k in Apply(b, e).rows && (!Settled(Apply(b, e).rows[k]) <==> Reindexes(b, e, k))
  {
    var (cancelled, failed) := GetCancelled(b, k, e.order.cancelled, e.broken);
    if !failed && e.verifies {
      var row := Fresh(e.order.makerAssetAddress, e.order.filled, cancelled);
      assert Apply(b, e).rows == Saved(b.rows, k, row, e.status, true);
      SavedSettled(b.rows, k, row, e.status);
    } else {
      assert Apply(b, e) == b;
    }
  }

  lemma FillKeepsSettled(b: Book, e: Event, k: Signed)
    requires k in b.rows && Settled(b.rows[k]) && Big(k.takerAmount) > 0
    requires e.Fill? && e.k == Some(k)
    ensures k in Apply(b, e).rows && Settled(Apply(b, e).rows[k])
  {
    if FillAmount(e.amountText).Some? {
      SavedSettled(b.rows, k, WithFill(b.rows[k], FillAmount(e.amountText).value, e.cancel), b.rows[k].status);
    } else {
      assert Apply(b, e) == b;
    }
  }

  /** With fills and Index allowed: the only two ways out of Filled and Cancelled. Fills
      never lead out; they turn Cancelled into Filled at the threshold. */
  lemma UnsettledIff(b: Book, e: Event, k: Signed)
    requires k in b.rows && Settled(b.rows[k]) && Big(k.takerAmount) > 0
    ensures k in Apply(b, e).rows
    ensures !Settled(Apply(b, e).rows[k]) <==> ZrxHit(e, k, b.rows[k].feeRemaining) || Reindexes(b, e, k)
  {
    if !Rewrites(e, k) {
      ClosedRowStep(b, e, k);
    } else if e.IndexAfterLookup? {
      ReindexUnsettlesIff(b, e, k);
    } else {
      FillKeepsSettled(b, e, k);
    }
  }

  ghost predicate SettledThroughout(b: Book, events: seq<Event>, k: Signed)
    decreases events
  {
    k in b.rows && Settled(b.rows[k]) && (events == [] || SettledThroughout(Apply(b, events[0]), events[1..], k))
  }

  /** No event of the run is one of the two ways out at the moment it happens. */
  ghost predicate NoWayOut(b: Book, events: seq<Event>, k: Signed)
    decreases events
  {
    events == [] ||
    (&& k in b.rows && !ZrxHit(events[0], k, b.rows[k].feeRemaining) && !Reindexes(b, events[0], k)
     && NoWayOut(Apply(b, events[0]), events[1..], k))
  }

  /** Over any run at all, a settled row is settled at every point if and only if neither
      way out is ever taken. */
  lemma {:induction false} SettledThroughoutIff(b: Book, events: seq<Event>, k: Signed)
    requires k in b.rows && Settled(b.rows[k]) && Big(k.takerAmount) > 0
    ensures SettledThroughout(b, events, k) <==> NoWayOut(b, events, k)
    decreases events
  {
    if events == [] {
    } else {
      UnsettledIff(b, events[0], k);
      if Settled(Apply(b, events[0]).rows[k]) {
        SettledThroughoutIff(Apply(b, events[0]), events[1..], k);
      }
    }
  }

  // ---- a lookup that is out of date ----

  /** Any Index whose lookup came before a cancellation of the order opens it below the epoch. */
  lemma StaleLookupOpens(b: Book, o: OrderValue, epoch: Word)
    requires Big(o.signed.takerAmount) > 0 && Big(o.signed.salt) < Big(epoch)
    requires GetCancelled(b, o.signed, o.cancelled, false) == (false, false) && !ReachedThreshold(o.signed, o.filled)
    ensures var b' := Indexed(Apply(b, Cancel(o.signed.maker, o.signed.sender, epoch)), o, false, Open, true);
            o.signed in b'.rows && b'.rows[o.signed].status.Open? && BelowEpoch(b', o.signed) && !Invariant(b')
  {
    var cancelled := Apply(b, Cancel(o.signed.maker, o.signed.sender, epoch));
    assert BelowEpoch(cancelled, o.signed);
    IndexedStatus(cancelled, o, false, Open);
    OpenBelowEpochBreaks(Indexed(cancelled, o, false, Open, true), o.signed);
  }

  lemma OpenBelowEpochBreaks(b: Book, k: Signed)
    requires k in b.rows && b.rows[k].status.Open? && BelowEpoch(b, k)
    ensures !Invariant(b)
  {
    assert !RowOk(b, k);
  }

  lemma SmallWords() returns (zero: Word, one: Word)
    ensures Big(zero) == 0 && Big(one) == 1
  {
    PowStep(31);
    zero, one := WordOf(0), WordOf(1);
  }

  /** For one: an empty book, an order for one unit with salt 0, and epoch 1. */
  lemma StaleLookupExample() returns (o: OrderValue, epoch: Word)
    ensures GetCancelled(Book(map[], map[]), o.signed, o.cancelled, false) == (false, false)
    ensures var b := Indexed(Apply(Book(map[], map[]), Cancel(o.signed.maker, o.signed.sender, epoch)), o, false, Open, true);
            o.signed in b.rows && b.rows[o.signed].status.Open? && BelowEpoch(b, o.signed)
  {
    var zero, one := SmallWords();
    var nobody: Address :| true;
    epoch := one;
    o := OrderValue(Signed(nobody, nobody, nobody, nobody, nobody, one, one, zero, zero, zero, zero, [], []),
                    nobody, nobody, [], zero, false, []);
    StaleLookupOpens(Book(map[], map[]), o, epoch);
  }
}
