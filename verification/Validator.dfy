/** funds/order_validate.go: does the maker hold, and allow, what the order still
    needs? It rounds up where the order book rounds down. */
module Validator {
  import opened Bytes
  import opened Orders
  import opened Division
  import opened OrderBook

  function Abs(x: int): nat {
    if x < 0 then -x else x
  }

  /** getRemainingAmount; big.Int.Bytes drops the sign. */
  function RemainingAmount(numerator: Bytes, denominator: Bytes, target: Bytes): Bytes {
    if FromBytes(denominator) == 0 then [0]
    else MinBytes(Abs(FromBytes(target) - FromBytes(numerator) * FromBytes(target) / FromBytes(denominator)))
  }

  /** What the balance checker answers. */
  datatype Lookup = Amount(n: nat) | NoContract | Broken

  datatype Check = Pass | Short | Failed(noContract: bool)

  /** checkBalance and checkAllowance: nothing is looked up when nothing is required. */
  function CheckAmount(required: Bytes, lookup: Lookup): Check {
    if FromBytes(required) == 0 then Pass
    else match lookup
      case Amount(n) => if FromBytes(required) <= n then Pass else Short
      case NoContract => Failed(true)
      case Broken => Failed(false)
  }

  datatype Verdict = Valid | Invalid | Error | Panic

  datatype Funds = Funds(balance: Lookup, feeBalance: Lookup, allowance: Lookup, feeAllowance: Lookup)

  /** ValidateOrder. The fee token and the two proxies are looked up first. The four
      checks run concurrently and are read in this order: the first failed lookup
      decides, otherwise any shortfall does. */
  method ValidateOrder(k: Signed, filled: Word, feeTokenFound: bool, proxyFound: bool, feeProxyFound: bool, funds: Funds)
    returns (verdict: Verdict)
    ensures verdict == if feeTokenFound && proxyFound && feeProxyFound then VerdictOf(Checks(k, filled, funds)) else Error
    ensures verdict.Valid? <==> feeTokenFound && proxyFound && feeProxyFound
                                && forall i :: 0 <= i < 4 ==> Checks(k, filled, funds)[i].Pass?
  {
    ValidIffAllPass(Checks(k, filled, funds), true);
    if !feeTokenFound || !proxyFound || !feeProxyFound {
      return Error;
    }
    var unavailable := MinBytes(Big(filled));
    var asset := RemainingAmount(unavailable, k.takerAmount, k.makerAmount);
    var fee := RemainingAmount(unavailable, k.takerAmount, k.makerFee);
    var results := [CheckAmount(asset, funds.balance), CheckAmount(fee, funds.feeBalance),
                    CheckAmount(asset, funds.allowance), CheckAmount(fee, funds.feeAllowance)];
    var result := true;
    for i := 0 to 4
      invariant VerdictOf(results) == Combined(results[i..], result)
    {
      if results[i].Failed? {
        return if results[i].noContract then Error else Panic;
      }
      if results[i].Short? {
        result := false;
      }
    }
    return if result then Valid else Invalid;
  }

  function Checks(k: Signed, filled: Word, funds: Funds): seq<Check> {
    var asset := RemainingAmount(MinBytes(Big(filled)), k.takerAmount, k.makerAmount);
    var fee := RemainingAmount(MinBytes(Big(filled)), k.takerAmount, k.makerFee);
    [CheckAmount(asset, funds.balance), CheckAmount(fee, funds.feeBalance),
     CheckAmount(asset, funds.allowance), CheckAmount(fee, funds.feeAllowance)]
  }

  /** The verdict on the checks still unread, given whether all read so far passed. */
  function Combined(checks: seq<Check>, passed: bool): Verdict
    decreases checks
  {
    if checks == [] then (if passed then Valid else Invalid)
    else match checks[0]
      case Pass => Combined(checks[1..], passed)
      case Short => Combined(checks[1..], false)
      case Failed(noContract) => if noContract then Error else Panic
  }

  function VerdictOf(checks: seq<Check>): Verdict {
    Combined(checks, true)
  }

  /** Valid means every check passed. */
  lemma {:induction false} ValidIffAllPass(checks: seq<Check>, passed: bool)
    ensures Combined(checks, passed).Valid? <==> passed && forall i :: 0 <= i < |checks| ==> checks[i].Pass?
    decreases checks
  {
    if checks == [] {
    } else {
      ValidIffAllPass(checks[1..], passed);
      ValidIffAllPass(checks[1..], false);
      assert forall i :: 1 <= i < |checks| ==> checks[i] == checks[1..][i - 1];
    }
  }

  /** A check passes if nothing is required or enough is there; it fails only if something
      is required and the lookup does, in the way the lookup does. */
  lemma CheckIff(required: Bytes, lookup: Lookup)
    ensures CheckAmount(required, lookup).Pass? <==>
            FromBytes(required) == 0 || (lookup.Amount? && FromBytes(required) <= lookup.n)
    ensures CheckAmount(required, lookup).Short? <==> lookup.Amount? && lookup.n < FromBytes(required)
    ensures CheckAmount(required, lookup) == Failed(true) <==> FromBytes(required) > 0 && lookup.NoContract?
    ensures CheckAmount(required, lookup) == Failed(false) <==> FromBytes(required) > 0 && lookup.Broken?
  {
  }

  /** Check i is the first that failed. */
  predicate FirstFailure(checks: seq<Check>, i: int, noContract: bool) {
    0 <= i < |checks| && checks[i] == Failed(noContract) && forall j :: 0 <= j < i ==> !checks[j].Failed?
  }

  /** The first failed lookup decides: a missing contract is an error, anything else a
      panic. Without one a shortfall makes the order invalid. */
  lemma {:induction false} VerdictIff(checks: seq<Check>, passed: bool)
    ensures Combined(checks, passed).Error? <==> exists i :: FirstFailure(checks, i, true)
    ensures Combined(checks, passed).Panic? <==> exists i :: FirstFailure(checks, i, false)
    ensures Combined(checks, passed).Invalid? <==>
            (forall i :: 0 <= i < |checks| ==> !checks[i].Failed?) && (!passed || exists i :: 0 <= i < |checks| && checks[i].Short?)
    decreases checks
  {
    if checks == [] {
    } else {
      var first, rest := checks[0], checks[1..];
      VerdictIff(rest, passed && !first.Short?);
      FailureShifts(checks, true);
      FailureShifts(checks, false);
      assert forall i :: 0 < i < |checks| ==> checks[i] == rest[i - 1];
      if i :| 0 <= i < |rest| && rest[i].Short? {
        assert checks[i + 1].Short?;
      }
    }
  }

  lemma FailureShifts(checks: seq<Check>, noContract: bool)
    requires checks != []
    ensures (exists i :: FirstFailure(checks, i, noContract)) <==>
            checks[0] == Failed(noContract) || (!checks[0].Failed? && exists i :: FirstFailure(checks[1..], i, noContract))
  {
    var rest := checks[1..];
    assert forall i :: 0 < i < |checks| ==> checks[i] == rest[i - 1];
    if checks[0] == Failed(noContract) {
      assert FirstFailure(checks, 0, noContract);
    }
    if i :| FirstFailure(checks, i, noContract) {
      if i > 0 {
        assert FirstFailure(rest, i - 1, noContract);
      }
    }
    if !checks[0].Failed? {
      if i :| FirstFailure(rest, i, noContract) {
        assert FirstFailure(checks, i + 1, noContract);
      }
    }
  }

  predicate Enough(required: nat, lookup: Lookup) {
    required == 0 || (lookup.Amount? && required <= lookup.n)
  }

  /** An order is valid exactly if the maker holds, and has allowed, both what it still
      needs of the asset and what it still needs of the fee. */
  lemma AcceptedIff(k: Signed, filled: Word, funds: Funds)
    ensures var asset := FromBytes(RemainingAmount(MinBytes(Big(filled)), k.takerAmount, k.makerAmount));
            var fee := FromBytes(RemainingAmount(MinBytes(Big(filled)), k.takerAmount, k.makerFee));
            VerdictOf(Checks(k, filled, funds)).Valid? <==>
            && Enough(asset, funds.balance) && Enough(asset, funds.allowance)
            && Enough(fee, funds.feeBalance) && Enough(fee, funds.feeAllowance)
  {
    var checks := Checks(k, filled, funds);
    ValidIffAllPass(checks, true);
    assert checks[0].Pass? && checks[1].Pass? && checks[2].Pass? && checks[3].Pass? <==>
           forall i :: 0 <= i < 4 ==> checks[i].Pass?;
  }

  /** Beyond the order's size the amount required grows again, because the sign is lost; and
      of an order for nothing, nothing is required. */
  lemma OverfilledRequired(amount: Word, taker: Word, filled: Word)
    ensures Big(taker) == 0 ==> FromBytes(RemainingAmount(MinBytes(Big(filled)), taker, amount)) == 0
    ensures 0 < Big(taker) <= Big(filled) ==>
              FromBytes(RemainingAmount(MinBytes(Big(filled)), taker, amount)) ==
              Big(filled) * Big(amount) / Big(taker) - Big(amount)
  {
    var a, t, f := Big(amount), Big(taker), Big(filled);
    if t == 0 {
      assert [0][..0] == [];
      assert FromBytes([]) == 0;
    } else if t <= f {
      Scale(a, t, f);
      assert f * a == a * f;
      DivMonotone(a * t, f * a, t);
      DivMultiple(a, t);
    }
  }

  /** For 0 <= filled <= taker the validator wants the least whole number of units that
      covers the maker's part of what is left: the ceiling. */
  lemma RequiredIsCeiling(amount: Word, taker: Word, filled: Word)
    requires 0 < Big(taker) && Big(filled) <= Big(taker)
    ensures var r, left := FromBytes(RemainingAmount(MinBytes(Big(filled)), taker, amount)), Big(taker) - Big(filled);
            && Big(amount) * left <= r * Big(taker) < Big(amount) * left + Big(taker)
  {
    CeilingOfRest(Big(amount), Big(taker), Big(filled));
  }

  /** Taking the floor of the filled share away leaves the ceiling of the rest. */
  lemma CeilingOfRest(a: nat, t: nat, f: nat)
    requires 0 < t && f <= t
    ensures f * a / t <= a
    ensures a * (t - f) <= (a - f * a / t) * t < a * (t - f) + t
  {
    var q := f * a / t;
    Scale(a, f, t);
    assert f * a == a * f;
    DivMonotone(f * a, a * t, t);
    DivMultiple(a, t);
    DivParts(f * a, t);
    Regroup(a, t, f, q);
  }

  lemma Regroup(a: int, t: int, f: int, q: int)
    ensures (a - q) * t == a * (t - f) + (f * a - t * q)
  {
  }

  /** The two roundings of one share: floor in the book, ceiling in the validator, so
      they differ by at most one, and by nothing exactly when the division is exact. */
  lemma RoundingsAgree(amount: Word, taker: Word, filled: Word)
    requires 0 < Big(taker) && Big(filled) <= Big(taker)
    ensures var r, floor := FromBytes(RemainingAmount(MinBytes(Big(filled)), taker, amount)), Big(Share(amount, taker, filled));
            && floor <= r <= floor + 1
            && (floor == r <==> Big(amount) * (Big(taker) - Big(filled)) % Big(taker) == 0)
  {
    var r, t := FromBytes(RemainingAmount(MinBytes(Big(filled)), taker, amount)), Big(taker);
    var n := Big(amount) * (t - Big(filled));
    ShareIsFloor(amount, taker, filled);
    RequiredIsCeiling(amount, taker, filled);
    CeilingVersusFloor(n, t, r);
  }

  lemma CeilingVersusFloor(n: int, t: int, r: int)
    requires t > 0 && n <= r * t < n + t
    ensures n / t <= r <= n / t + 1
    ensures n / t == r <==> n % t == 0
  {
    var q, rem := n / t, n % t;
    DivParts(n, t);
    assert r * t == t * r;
    if rem == 0 {
      Multiples(t, r - q, 0);
    } else {
      Multiples(t, r - q - 1, rem - t);
    }
  }

  /** t * k lies in [rest, rest + t) around zero, so k is 0. */
  lemma Multiples(t: int, k: int, rest: int)
    requires t > 0 && -t < rest <= 0
    requires rest <= t * k < rest + t
    ensures k == 0
  {
    MultipleBelow(t, k, t * k);
  }

  /** An amount that passes the validator's check covers the floored share in the book. */
  lemma PassingCovers(amount: Word, taker: Word, filled: Word, lookup: Lookup)
    requires 0 < Big(taker) && Big(filled) <= Big(taker)
    requires CheckAmount(RemainingAmount(MinBytes(Big(filled)), taker, amount), lookup).Pass?
    ensures Big(Share(amount, taker, filled)) == 0 || (lookup.Amount? && Big(Share(amount, taker, filled)) <= lookup.n)
  {
    RoundingsAgree(amount, taker, filled);
  }

  /** The validator and the order book draw the line at the same balances exactly when
      the maker's share of what is left is a whole number. */
  lemma SameLineIffExact(amount: Word, taker: Word, filled: Word)
    requires 0 < Big(taker) && Big(filled) <= Big(taker)
    ensures (forall n: nat :: CheckAmount(RemainingAmount(MinBytes(Big(filled)), taker, amount), Amount(n)).Pass?
                              <==> !(n < Big(Share(amount, taker, filled))))
            <==> Big(amount) * (Big(taker) - Big(filled)) % Big(taker) == 0
  {
    RoundingsAgree(amount, taker, filled);
    var required := RemainingAmount(MinBytes(Big(filled)), taker, amount);
    var floor := Big(Share(amount, taker, filled));
    if FromBytes(required) != floor {
      assert !CheckAmount(required, Amount(floor)).Pass?;
    }
  }

  /** An order the validator accepts is not touched by a spend that reports at least what
      the validator saw: if it is about the order's asset, that asset's balance and
      allowance; if it is about ZRX, the fee's; if about neither, anything. */
  lemma AcceptedOrderSurvivesSpend(k: Signed, r: Row, funds: Funds, token: Address, zrx: Address,
                                   assetData: AssetData, balance: Word)
    requires 0 < Big(k.takerAmount) && Big(r.filled) <= Big(k.takerAmount)
    requires r.makerRemaining == Share(k.makerAmount, k.takerAmount, r.filled)
    requires r.feeRemaining == Share(k.makerFee, k.takerAmount, r.filled)
    requires VerdictOf(Checks(k, r.filled, funds)).Valid?
    requires AboutAsset(k, r, token, assetData)
             && funds.balance.Amount? && funds.allowance.Amount? ==>
               Least(funds.balance.n, funds.allowance.n) <= Big(balance)
    requires token == zrx && funds.feeBalance.Amount? && funds.feeAllowance.Amount? ==>
               Least(funds.feeBalance.n, funds.feeAllowance.n) <= Big(balance)
    ensures !SpendHits(k, r, k.maker, token, zrx, assetData, balance)
  {
    var checks := Checks(k, r.filled, funds);
    ValidIffAllPass(checks, true);
    assert checks[0].Pass? && checks[1].Pass? && checks[2].Pass? && checks[3].Pass?;
    PassingCovers(k.makerAmount, k.takerAmount, r.filled, funds.balance);
    PassingCovers(k.makerAmount, k.takerAmount, r.filled, funds.allowance);
    PassingCovers(k.makerFee, k.takerAmount, r.filled, funds.feeBalance);
    PassingCovers(k.makerFee, k.takerAmount, r.filled, funds.feeAllowance);
    LexIsNumeric(balance, r.makerRemaining);
    LexIsNumeric(balance, r.feeRemaining);
  }
}
