/** monitor/spend: turning a block's transfer logs into spend records, and what
    those records do to the order book. */
module Spend {
  import opened Bytes
  import opened Division
  import opened Text
  import opened Orders
  import opened OrderBook

  datatype Log = Log(token: Address, topics: seq<Word>, data: Bytes)

  /** A balance checker's answer. NoCode covers an empty output and a missing contract. */
  datatype Answer = Amount(n: nat) | Revert | NoCode | Failure

  datatype Checker = Checker(allowance: (AssetData, Address) -> Answer, balance: (AssetData, Address) -> Answer)

  datatype Record = Record(token: Address, assetData: AssetData, spender: Address, zrx: Address, balance: nat)

  /** Fatal returns the delivery and ends the process; Panic is an index out of range. */
  datatype Outcome = Acked | Fatal | Panic

  datatype Transfer = Transfer(sender: Address, assetData: AssetData)

  /** Which account sent what; logs of any other shape are skipped. */
  function TransferOf(log: Log): Option<Transfer> {
    var n := |log.data|;
    if |log.topics| == 0 && n >= 96 then
      Some(Transfer(log.data[12..32], Erc721AssetData(log.token, log.data[n - 32..])))
    else if |log.topics| == 3 then
      Some(Transfer(log.topics[1][12..], Erc20AssetData(log.token)))
    else if |log.topics| == 4 then
      Some(Transfer(log.topics[1][12..], Erc721AssetData(log.token, log.topics[3])))
    else None
  }

  /** The amount to report and the asset it is about; None is fatal. A reverting
      allowance call is tried again as an ERC721 token. */
  function Reading(c: Checker, log: Log, t: Transfer): Option<(AssetData, nat)> {
    var first := c.allowance(t.assetData, t.sender);
    var data := if first.Revert? then Erc721AssetData(log.token, CopyInto(32, log.data)) else t.assetData;
    var allowance := if first.Revert? then c.allowance(data, t.sender) else first;
    if allowance.Failure? then None
    else
      var allowed := if allowance.Amount? then allowance.n else 0;
      if allowed == 0 then Some((data, 0))
      else
        var balance := c.balance(data, t.sender);
        if balance.Failure? then None
        else
          var held := if balance.Amount? then balance.n else 0;
          Some((data, Least(allowed, held)))
  }

  type Pair = (Address, Address)

  /** Records of the logs still to read, given the (sender, token) pairs already seen. */
  function Process(c: Checker, zrx: Address, logs: seq<Log>, seen: set<Pair>): (seq<Record>, Outcome)
    decreases logs
  {
    if logs == [] then ([], Acked)
    else
      var log, rest := logs[0], logs[1..];
      match TransferOf(log)
      case None => Process(c, zrx, rest, seen)
      case Some(t) =>
        if (t.sender, log.token) in seen then Process(c, zrx, rest, seen)
        else match Reading(c, log, t)
          case None => ([], Fatal)
          case Some((data, amount)) =>
            if |log.topics| < 2 then ([], Panic)
            else
              var (records, outcome) := Process(c, zrx, rest, seen + {(t.sender, log.token)});
              ([Record(log.token, data, log.topics[1][12..], zrx, amount)] + records, outcome)
  }

  /** The logs of the block are not asked for if its bloom filter shows no transfer;
      None means that asking failed. */
  method Consume(c: Checker, zrx: Address, bloomShows: bool, filtered: Option<seq<Log>>)
    returns (records: seq<Record>, outcome: Outcome)
    ensures !bloomShows ==> records == [] && outcome == Acked
    ensures bloomShows && filtered.None? ==> records == [] && outcome == Fatal
    ensures bloomShows && filtered.Some? ==> (records, outcome) == Process(c, zrx, filtered.value, {})
  {
    if !bloomShows {
      return [], Acked;
    }
    if filtered.None? {
      return [], Fatal;
    }
    records, outcome := ConsumeLogs(c, zrx, filtered.value);
  }

  /** Its loop. */
  method ConsumeLogs(c: Checker, zrx: Address, logs: seq<Log>) returns (records: seq<Record>, outcome: Outcome)
    ensures (records, outcome) == Process(c, zrx, logs, {})
  {
    records := [];
    var tradedTokens: set<Pair> := {};
    assert logs[0..] == logs;
    assert [] + Process(c, zrx, logs, {}).0 == Process(c, zrx, logs, {}).0;
    for i := 0 to |logs|
      invariant Process(c, zrx, logs, {}) ==
                var (later, end) := Process(c, zrx, logs[i..], tradedTokens); (records + later, end)
    {
      var spendLog := logs[i];
      assert logs[i..][0] == spendLog && logs[i..][1..] == logs[i + 1..];
      var transfer := TransferOf(spendLog);
      if transfer.None? {
        continue;
      }
      var t := transfer.value;
      var pairKey := (t.sender, spendLog.token);
      if pairKey in tradedTokens {
        continue;
      }
      tradedTokens := tradedTokens + {pairKey};
      var reading := Reading(c, spendLog, t);
      if reading.None? {
        assert records + [] == records;
        return records, Fatal;
      }
      if |spendLog.topics| < 2 {
        assert records + [] == records;
        return records, Panic;
      }
      var record := Record(spendLog.token, reading.value.0, spendLog.topics[1][12..], zrx, reading.value.1);
      ghost var (later, _) := Process(c, zrx, logs[i + 1..], tradedTokens);
      assert records + ([record] + later) == (records + [record]) + later;
      records := records + [record];
    }
    assert records + [] == records;
    return records, Acked;
  }

  // ---- one log ----

  /** What each shape of log is: no topics and 96 bytes or more, a transfer of an ERC721
      token named by its last 32 bytes, from the account in its first word; three topics, a
      transfer of an ERC20 token; four, of the ERC721 token in the last topic; anything
      else, nothing. */
  lemma TransferShapes(log: Log)
    ensures TransferOf(log).Some? <==> |log.topics| in {3, 4} || (|log.topics| == 0 && |log.data| >= 96)
    ensures TransferOf(log).Some? ==>
              var t := TransferOf(log).value;
              && HasAddress(t.assetData) && AssetAddress(t.assetData) == log.token
              && t.sender == (if |log.topics| == 0 then log.data[12..32] else log.topics[1][12..])
              && (|log.topics| == 3 ==> |t.assetData| == 36 && t.assetData[..4] == [244, 114, 97, 176])
              && (|log.topics| != 3 ==>
                    && |t.assetData| == 68 && t.assetData[..4] == [2, 87, 23, 146]
                    && TokenID(t.assetData) == if |log.topics| == 4 then log.topics[3] else log.data[|log.data| - 32..])
  {
    Erc20NamesToken(log.token);
    if |log.topics| == 4 {
      Erc721NamesToken(log.token, log.topics[3]);
    } else if |log.topics| == 0 && |log.data| >= 96 {
      Erc721NamesToken(log.token, log.data[|log.data| - 32..]);
    }
  }

  /** An answer as an amount, when it is not fatal: no code and reverts count as nothing. */
  function Amounts(answer: Answer): nat {
    if answer.Amount? then answer.n else 0
  }

  /** What is reported is the smaller of allowance and balance, of the asset of the log or,
      if its allowance call reverts, of the ERC721 token that the log's data begin with. The
      balance is not asked for when the allowance is nothing. */
  lemma ReadingIs(c: Checker, log: Log, t: Transfer)
    ensures var data := if c.allowance(t.assetData, t.sender).Revert?
                        then Erc721AssetData(log.token, CopyInto(32, log.data)) else t.assetData;
            var allowance, balance := c.allowance(data, t.sender), c.balance(data, t.sender);
            Reading(c, log, t) ==
            if allowance.Failure? || (Amounts(allowance) > 0 && balance.Failure?) then None
            else Some((data, Least(Amounts(allowance), Amounts(balance))))
  {
  }

  /** A pair already seen is skipped; a log without topics that would be reported panics. */
  lemma SkippedOrPanics(c: Checker, zrx: Address, logs: seq<Log>, seen: set<Pair>)
    requires logs != [] && TransferOf(logs[0]).Some?
    ensures var log, t := logs[0], TransferOf(logs[0]).value;
            && ((t.sender, log.token) in seen ==> Process(c, zrx, logs, seen) == Process(c, zrx, logs[1..], seen))
            && ((t.sender, log.token) !in seen && |log.topics| == 0 && Reading(c, log, t).Some? ==>
                  Process(c, zrx, logs, seen) == ([], Panic))
  {
  }

  /** An ERC721 transfer of a pair not seen yet is reported with its token id, the smaller of
      allowance and balance of that token, and its sender. */
  lemma Erc721Reading(c: Checker, zrx: Address, logs: seq<Log>, seen: set<Pair>)
    requires logs != [] && |logs[0].topics| == 4
    requires (logs[0].topics[1][12..], logs[0].token) !in seen
    ensures var log, sender := logs[0], logs[0].topics[1][12..];
            var data := Erc721AssetData(log.token, log.topics[3]);
            var allowance, balance := c.allowance(data, sender), c.balance(data, sender);
            !allowance.Revert? ==>
              Process(c, zrx, logs, seen) ==
              if allowance.Failure? || (Amounts(allowance) > 0 && balance.Failure?) then ([], Fatal)
              else
                var (later, end) := Process(c, zrx, logs[1..], seen + {(sender, log.token)});
                ([Record(log.token, data, sender, zrx, Least(Amounts(allowance), Amounts(balance)))] + later, end)
  {
    ReadingIs(c, logs[0], TransferOf(logs[0]).value);
  }

  // ---- one ERC20 token, whatever else the block holds ----

  /** A log of an ERC20 contract: three topics, and its allowance call does not revert. */
  predicate Erc20Log(c: Checker, log: Log) {
    |log.topics| == 3 && !c.allowance(Erc20AssetData(log.token), log.topics[1][12..]).Revert?
  }

  function PairOf(log: Log): Pair
    requires |log.topics| == 3
  {
    (log.topics[1][12..], log.token)
  }

  /** What the maker can still move: the smaller of allowance and balance, errors counting as nothing. */
  function Spendable(c: Checker, p: Pair): nat {
    var allowance, balance := c.allowance(Erc20AssetData(p.1), p.0), c.balance(Erc20AssetData(p.1), p.0);
    Least(if allowance.Amount? then allowance.n else 0, if balance.Amount? then balance.n else 0)
  }

  /** The contract of this token emits ERC20 logs only; nothing is asked of the others. */
  ghost predicate Erc20Token(c: Checker, logs: seq<Log>, token: Address) {
    forall log :: log in logs && log.token == token ==> Erc20Log(c, log)
  }

  /** Who sent the token in these logs. */
  ghost function PairsOf(c: Checker, logs: seq<Log>, token: Address): set<Pair>
    requires Erc20Token(c, logs, token)
  {
    set log | log in logs && log.token == token :: PairOf(log)
  }

  function OfToken(records: seq<Record>, token: Address): (r: seq<Record>)
    ensures forall x :: x in r <==> x in records && x.token == token
    decreases records
  {
    if records == [] then []
    else (if records[0].token == token then [records[0]] else []) + OfToken(records[1..], token)
  }

  /** The record a pair should get. */
  function RecordFor(c: Checker, zrx: Address, p: Pair): Record {
    Record(p.1, Erc20AssetData(p.1), p.0, zrx, Spendable(c, p))
  }

  /** Every record is the right one for a pair in pairs, and none comes twice. */
  ghost predicate OnlyFor(c: Checker, zrx: Address, records: seq<Record>, pairs: set<Pair>) {
    && (forall r :: r in records ==> (r.spender, r.token) in pairs && r == RecordFor(c, zrx, (r.spender, r.token)))
    && (forall i, j :: 0 <= i < j < |records| ==> records[i] != records[j])
  }

  ghost predicate AllOf(c: Checker, zrx: Address, records: seq<Record>, pairs: set<Pair>) {
    forall p :: p in pairs ==> RecordFor(c, zrx, p) in records
  }

  lemma OnePerPairCons(c: Checker, zrx: Address, records: seq<Record>, pairs: set<Pair>, p: Pair)
    requires OnlyFor(c, zrx, records, pairs) && p !in pairs
    ensures OnlyFor(c, zrx, [RecordFor(c, zrx, p)] + records, pairs + {p})
    ensures AllOf(c, zrx, records, pairs) ==> AllOf(c, zrx, [RecordFor(c, zrx, p)] + records, pairs + {p})
  {
    var r, all := RecordFor(c, zrx, p), [RecordFor(c, zrx, p)] + records;
    assert r !in records;
    forall q | q in pairs + {p} && AllOf(c, zrx, records, pairs)
      ensures RecordFor(c, zrx, q) in all
    {
      assert q != p ==> RecordFor(c, zrx, q) in records;
    }
  }

  /** The first ERC20 log of a pair not seen yet: its record and the rest, or the end of
      the process exactly if a needed balance or allowance could not be had. */
  lemma HeadReading(c: Checker, zrx: Address, logs: seq<Log>, seen: set<Pair>)
    requires logs != [] && Erc20Log(c, logs[0]) && PairOf(logs[0]) !in seen
    ensures var p := PairOf(logs[0]);
            var data := Erc20AssetData(p.1);
            var allowance := c.allowance(data, p.0);
            Process(c, zrx, logs, seen) ==
            if allowance.Failure? || (allowance.Amount? && allowance.n > 0 && c.balance(data, p.0).Failure?)
            then ([], Fatal)
            else
              var (later, end) := Process(c, zrx, logs[1..], seen + {p});
              ([RecordFor(c, zrx, p)] + later, end)
  {
  }

  /** A log of another token adds no record of this one, and marks no pair of this one. */
  lemma OtherToken(c: Checker, zrx: Address, logs: seq<Log>, seen: set<Pair>, token: Address) returns (seen': set<Pair>)
    requires logs != [] && logs[0].token != token
    ensures forall s: Address :: (s, token) in seen' <==> (s, token) in seen
    ensures var (records, end), (later, end') := Process(c, zrx, logs, seen), Process(c, zrx, logs[1..], seen');
            || (OfToken(records, token) == OfToken(later, token) && end == end')
            || (records == [] && !end.Acked?)
  {
    var log := logs[0];
    match TransferOf(log)
    case None => seen' := seen;
    case Some(t) =>
      seen' := if (t.sender, log.token) in seen then seen else seen + {(t.sender, log.token)};
      var (records, end) := Process(c, zrx, logs, seen);
      if (t.sender, log.token) !in seen && Reading(c, log, t).Some? && |log.topics| >= 2 {
        var (later, _) := Process(c, zrx, logs[1..], seen');
        assert records[1..] == later;
      }
  }

  /** An ERC20 contract gets at most one record for each account that sent its token in
      the block, with the smaller of allowance and balance, and if the block is
      acknowledged exactly one; whatever other contracts emit. */
  lemma {:induction false} OneRecordPerPair(c: Checker, zrx: Address, logs: seq<Log>, seen: set<Pair>, token: Address)
    requires Erc20Token(c, logs, token)
    ensures var (records, end) := Process(c, zrx, logs, seen);
            && OnlyFor(c, zrx, OfToken(records, token), PairsOf(c, logs, token) - seen)
            && (end.Acked? ==> AllOf(c, zrx, OfToken(records, token), PairsOf(c, logs, token) - seen))
    decreases logs
  {
    if logs == [] {
    } else {
      var log, rest := logs[0], logs[1..];
      assert forall l :: l in logs <==> l == log || l in rest;
      if log.token != token {
        var seen' := OtherToken(c, zrx, logs, seen, token);
        OneRecordPerPair(c, zrx, rest, seen', token);
        assert PairsOf(c, logs, token) - seen == PairsOf(c, rest, token) - seen';
      } else {
        OwnToken(c, zrx, logs, seen);
      }
    }
  }

  lemma OwnToken(c: Checker, zrx: Address, logs: seq<Log>, seen: set<Pair>)
    requires logs != [] && Erc20Token(c, logs, logs[0].token)
    ensures var (records, end), token := Process(c, zrx, logs, seen), logs[0].token;
            && OnlyFor(c, zrx, OfToken(records, token), PairsOf(c, logs, token) - seen)
            && (end.Acked? ==> AllOf(c, zrx, OfToken(records, token), PairsOf(c, logs, token) - seen))
    decreases logs, 0
  {
    var log, rest, token := logs[0], logs[1..], logs[0].token;
    var p := PairOf(log);
    assert forall l :: l in logs <==> l == log || l in rest;
    assert PairsOf(c, logs, token) == PairsOf(c, rest, token) + {p};
    if p in seen {
      OneRecordPerPair(c, zrx, rest, seen, token);
      assert PairsOf(c, logs, token) - seen == PairsOf(c, rest, token) - seen;
    } else {
      var pairs := PairsOf(c, rest, token) - (seen + {p});
      var records, later := Process(c, zrx, logs, seen).0, Process(c, zrx, rest, seen + {p}).0;
      OneRecordPerPair(c, zrx, rest, seen + {p}, token);
      HeadReading(c, zrx, logs, seen);
      OnePerPairCons(c, zrx, OfToken(later, token), pairs, p);
      assert PairsOf(c, logs, token) - seen == pairs + {p};
      if records != [] {
        assert records == [RecordFor(c, zrx, p)] + later && records[1..] == later;
        assert OfToken(records, token) == [RecordFor(c, zrx, p)] + OfToken(later, token);
      }
    }
  }

  // ---- blocks of ERC20 logs only ----

  /** Every log is an ERC20 transfer, and every balance and allowance can be had. */
  ghost predicate Erc20Block(c: Checker, logs: seq<Log>) {
    forall log :: log in logs ==>
      && Erc20Log(c, log)
      && !c.allowance(Erc20AssetData(log.token), PairOf(log).0).Failure?
      && !c.balance(Erc20AssetData(log.token), PairOf(log).0).Failure?
  }

  ghost function Pairs(logs: seq<Log>): set<Pair>
    requires forall log :: log in logs ==> |log.topics| == 3
  {
    set log | log in logs :: PairOf(log)
  }

  /** Such a block is acknowledged, with exactly one record for each distinct pair. */
  lemma {:induction false} Erc20BlockRecords(c: Checker, zrx: Address, logs: seq<Log>, seen: set<Pair>)
    requires Erc20Block(c, logs)
    ensures Process(c, zrx, logs, seen).1.Acked?
    ensures OnlyFor(c, zrx, Process(c, zrx, logs, seen).0, Pairs(logs) - seen)
    ensures AllOf(c, zrx, Process(c, zrx, logs, seen).0, Pairs(logs) - seen)
    decreases logs
  {
    if logs == [] {
    } else {
      var log, rest := logs[0], logs[1..];
      var p := PairOf(log);
      assert log in logs;
      assert forall l :: l in logs <==> l == log || l in rest;
      assert Pairs(logs) == Pairs(rest) + {p};
      if p in seen {
        Erc20BlockRecords(c, zrx, rest, seen);
        assert Pairs(logs) - seen == Pairs(rest) - seen;
      } else {
        Erc20BlockRecords(c, zrx, rest, seen + {p});
        HeadReading(c, zrx, logs, seen);
        OnePerPairCons(c, zrx, Process(c, zrx, rest, seen + {p}).0, Pairs(rest) - (seen + {p}), p);
        assert Pairs(logs) - seen == Pairs(rest) - (seen + {p}) + {p};
      }
    }
  }

  // ---- from the records to the rows ----

  /** The record as the write the record consumer makes. */
  function AsEvent(r: Record): (e: Event)
    ensures e.Spend?
  {
    Event.Spend(r.spender, r.token, r.zrx, r.assetData, WordOf(r.balance))
  }

  /** Recording spends one after the other, as the record consumer does. */
  function RecordAll(rows: map<Signed, Row>, records: seq<Record>): map<Signed, Row>
    decreases records
  {
    if records == [] then rows
    else
      var r := records[0];
      RecordAll(Spent(rows, r.spender, r.token, r.zrx, r.assetData, WordOf(r.balance), Unfunded), records[1..])
  }

  function AsEvents(records: seq<Record>): seq<Event>
    decreases records
  {
    if records == [] then [] else [AsEvent(records[0])] + AsEvents(records[1..])
  }

  /** Recording spends is a run of the book, and changes no epoch. */
  lemma {:induction false} RecordAllIsRun(b: Book, records: seq<Record>)
    ensures Run(b, AsEvents(records)) == b.(rows := RecordAll(b.rows, records))
    decreases records
  {
    if records == [] {
    } else {
      var r, events := records[0], AsEvents(records);
      assert events[0] == AsEvent(r) && events[1..] == AsEvents(records[1..]);
      RecordAllIsRun(Apply(b, AsEvent(r)), records[1..]);
    }
  }

  /** A row still Open at the end was never touched, and every record's balance covers it. */
  lemma {:induction false} SurvivorsAreCovered(rows: map<Signed, Row>, records: seq<Record>, k: Signed)
    requires k in rows
    ensures k in RecordAll(rows, records)
    ensures RecordAll(rows, records)[k].status.Open? ==>
              && RecordAll(rows, records)[k] == rows[k]
              && forall r :: r in records && r.spender == k.maker ==> CoveredBy(k, rows[k], AsEvent(r))
    decreases records
  {
    if records == [] {
    } else {
      var r, rest := records[0], records[1..];
      var next := Spent(rows, r.spender, r.token, r.zrx, r.assetData, WordOf(r.balance), Unfunded);
      SurvivorsAreCovered(next, rest, k);
      if RecordAll(next, rest)[k].status.Open? {
        assert next[k] == rows[k];
        if r.spender == k.maker {
          SpendClears(rows, r.spender, r.token, r.zrx, r.assetData, WordOf(r.balance), Unfunded, k);
        }
        assert forall s :: s in records ==> s == r || s in rest;
      }
    }
  }

  /** End to end: once a block is acknowledged and its records are applied, every row
      still Open can be paid from what its maker can still move of each ERC20 token the
      maker sent in that block, and its fee too when that token is ZRX. */
  lemma BlockLeavesOnlyCovered(c: Checker, zrx: Address, logs: seq<Log>, rows: map<Signed, Row>, log: Log, k: Signed)
    requires log in logs && Erc20Token(c, logs, log.token) && Process(c, zrx, logs, {}).1.Acked?
    requires k in rows && k.maker == PairOf(log).0 && Spendable(c, PairOf(log)) < Pow256(32)
    ensures k in RecordAll(rows, Process(c, zrx, logs, {}).0)
    ensures RecordAll(rows, Process(c, zrx, logs, {}).0)[k].status.Open? ==>
              && (k.makerAssetData == Erc20AssetData(log.token) ==>
                    Big(rows[k].makerRemaining) <= Spendable(c, PairOf(log)))
              && (log.token == zrx ==> Big(rows[k].feeRemaining) <= Spendable(c, PairOf(log)))
  {
    var records, p := Process(c, zrx, logs, {}).0, PairOf(log);
    OneRecordPerPair(c, zrx, logs, {}, log.token);
    SurvivorsAreCovered(rows, records, k);
    assert p in PairsOf(c, logs, log.token) - {};
    assert RecordFor(c, zrx, p) in OfToken(records, log.token);
  }

  /** In a block of ERC20 logs only, nothing need be known of how it ended. */
  lemma Erc20BlockLeavesOnlyCovered(c: Checker, zrx: Address, logs: seq<Log>, rows: map<Signed, Row>, log: Log, k: Signed)
    requires Erc20Block(c, logs) && log in logs && k in rows && k.maker == PairOf(log).0
    requires Spendable(c, PairOf(log)) < Pow256(32)
    ensures k in RecordAll(rows, Process(c, zrx, logs, {}).0)
    ensures RecordAll(rows, Process(c, zrx, logs, {}).0)[k].status.Open? ==>
              && (k.makerAssetData == Erc20AssetData(log.token) ==>
                    Big(rows[k].makerRemaining) <= Spendable(c, PairOf(log)))
              && (log.token == zrx ==> Big(rows[k].feeRemaining) <= Spendable(c, PairOf(log)))
  {
    Erc20BlockRecords(c, zrx, logs, {});
    BlockLeavesOnlyCovered(c, zrx, logs, rows, log, k);
  }

  /** The same while the consumers run side by side: the block's records are applied in any
      order among cancellations, other spends, writes to other orders, and fills of order k
      within its size. If it is still Open at the end, what is left of it then can be paid
      from what its maker could still move of the token. */
  lemma InterleavedBlockLeavesOnlyCovered(c: Checker, zrx: Address, logs: seq<Log>, b: Book, events: seq<Event>, log: Log,
                                          k: Signed)
    requires log in logs && Erc20Token(c, logs, log.token) && Process(c, zrx, logs, {}).1.Acked?
    requires forall r :: r in Process(c, zrx, logs, {}).0 ==> AsEvent(r) in events
    requires InOrder(b, k) && OnlyFillsOf(events, k) && Big(b.rows[k].filled) + Filling(events, k) <= Big(k.takerAmount)
    requires k.maker == PairOf(log).0 && Spendable(c, PairOf(log)) < Pow256(32)
    ensures k in Run(b, events).rows
    ensures Run(b, events).rows[k].status.Open? ==>
              && (k.makerAssetData == Erc20AssetData(log.token) ==>
                    Big(Run(b, events).rows[k].makerRemaining) <= Spendable(c, PairOf(log)))
              && (log.token == zrx ==> Big(Run(b, events).rows[k].feeRemaining) <= Spendable(c, PairOf(log)))
  {
    var records, p := Process(c, zrx, logs, {}).0, PairOf(log);
    OneRecordPerPair(c, zrx, logs, {}, log.token);
    OpenStaysCovered(b, events, k);
    assert p in PairsOf(c, logs, log.token) - {};
    var r := RecordFor(c, zrx, p);
    assert r in OfToken(records, log.token);
    assert AsEvent(r) in events && AsEvent(r).maker == k.maker;
  }
}
