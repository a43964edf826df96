/** The hash masks of the terms of service: counting bits over byte strings,
    drawing a mask, and checking a hash against it. */
module HashMask {
  import opened Bytes
  import opened Text

  /** Bit i of n, counted from the least significant. */
  predicate Bit(n: nat, i: nat)
    decreases i, n
  {
    if i == 0 then n % 2 == 1 else Bit(n / 2, i - 1)
  }

  /** The number of 1 bits of n. */
  function Ones(n: nat): nat
  {
    if n == 0 then 0 else n % 2 + Ones(n / 2)
  }

  /** big.Int.And */
  function And(x: nat, y: nat): nat
  {
    if x == 0 || y == 0 then 0 else 2 * And(x / 2, y / 2) + (x % 2) * (y % 2)
  }

  /** big.Int.Or with 2^i. */
  function SetBit(n: nat, i: nat): nat
    decreases i, n
  {
    if i == 0 then n - n % 2 + 1 else 2 * SetBit(n / 2, i - 1) + n % 2
  }

  /** The low `width` bits of n, counted: what the inner loop of OnesCount sees. */
  function LowOnes(n: nat, width: nat): nat
    decreases width, n
  {
    if width == 0 then 0 else n % 2 + LowOnes(n / 2, width - 1)
  }

  function Pow2(n: nat): (p: nat)
    ensures p > 0
    decreases n
  {
    if n == 0 then 1 else 2 * Pow2(n - 1)
  }

  // ---- counting ----

  /** `n & 2^i` is non-zero exactly when bit i is set. */
  lemma {:induction false} AndPow2(n: nat, i: nat)
    ensures And(n, Pow2(i)) != 0 <==> Bit(n, i)
    decreases i
  {
    if i > 0 {
      AndPow2(n / 2, i - 1);
      assert Pow2(i) / 2 == Pow2(i - 1) && Pow2(i) % 2 == 0;
      if n == 0 {
        ZeroBits(i);
      }
    } else {
      assert And(n / 2, 0) == 0;
    }
  }

  lemma {:induction false} ZeroBits(i: nat)
    ensures !Bit(0, i)
  {
    if i == 0 {
    } else {
      ZeroBits(i - 1);
    }
  }

  lemma {:induction false} LowOnesStep(n: nat, width: nat)
    ensures LowOnes(n, width + 1) == LowOnes(n, width) + (if Bit(n, width) then 1 else 0)
    decreases width
  {
    if width == 0 {
    } else {
      LowOnesStep(n / 2, width - 1);
    }
  }

  function ShiftLeft(n: nat, width: nat): nat
    decreases width, n
  {
    if width == 0 then n else 2 * ShiftLeft(n, width - 1)
  }

  /** Shifting high left and adding low adds low's bits. */
  lemma {:induction false} OnesConcat(high: nat, low: nat, width: nat)
    requires low < Pow2(width)
    ensures Ones(ShiftLeft(high, width) + low) == Ones(high) + LowOnes(low, width)
    decreases width
  {
    if width == 0 {
    } else {
      OnesConcat(high, low / 2, width - 1);
      OnesDouble(ShiftLeft(high, width - 1) + low / 2, low % 2);
    }
  }

  lemma ShiftStep(n: nat, width: nat)
    ensures ShiftLeft(n, width + 2) == 4 * ShiftLeft(n, width)
    ensures Pow2(width + 2) == 4 * Pow2(width)
  {
    assert ShiftLeft(n, width + 2) == 2 * ShiftLeft(n, width + 1);
    assert Pow2(width + 2) == 2 * Pow2(width + 1);
  }

  lemma ShiftByteLeft(n: nat)
    ensures ShiftLeft(n, 8) == 256 * n && Pow2(8) == 256
  {
    ShiftStep(n, 0);
    ShiftStep(n, 2);
    ShiftStep(n, 4);
    ShiftStep(n, 6);
  }

  lemma OnesAppend(high: nat, b: byte, width: nat)
    requires ShiftLeft(high, width) == 256 * high && Pow2(width) == 256
    ensures Ones(256 * high + b) == Ones(high) + LowOnes(b, width)
  {
    OnesConcat(high, b, width);
  }

  /** OnesCount: for each byte, eight masks 1, 2, 4, ... */
  method OnesCount(data: Bytes) returns (count: nat)
    ensures count == Ones(FromBytes(data))
  {
    count := 0;
    assert data[..0] == [];
    for i := 0 to |data|
      invariant count == Ones(FromBytes(data[..i]))
    {
      var inByte := ByteOnesCount(data[i]);
      count := count + inByte;
      assert data[..i + 1][..i] == data[..i];
      ShiftByteLeft(FromBytes(data[..i]));
      OnesAppend(FromBytes(data[..i]), data[i], 8);
    }
    assert data[..|data|] == data;
  }

  /** The inner loop; its mask is a byte and wraps to 0 at the end. */
  method ByteOnesCount(b: byte) returns (count: nat)
    ensures count == LowOnes(b, 8)
  {
    count := 0;
    var val: byte := 1;
    for j := 0 to 8
      invariant val as nat == Pow2(j) % 256
      invariant count == LowOnes(b, j)
    {
      PowBelow(j);
      AndPow2(b, j);
      LowOnesStep(b, j);
      if And(b, val) != 0 {
        count := count + 1;
      }
      val := val * 2 % 256;
    }
  }

  lemma PowBelow(j: nat)
    requires j < 8
    ensures Pow2(j) < 256 && Pow2(j) % 256 == Pow2(j) && Pow2(j + 1) == 2 * Pow2(j)
  {
    assert Pow2(7) == 128;
    PowGrows(j, 7);
  }

  lemma {:induction false} PowGrows(m: nat, n: nat)
    requires m <= n
    ensures Pow2(m) <= Pow2(n)
  {
    if m == n {
    } else {
      PowGrows(m, n - 1);
    }
  }

  // ---- drawing a mask ----

  /** Or-ing in 2^i sets bit i and no other. */
  lemma {:induction false} SetBitBits(n: nat, i: nat, k: nat)
    ensures Bit(SetBit(n, i), k) <==> k == i || Bit(n, k)
    decreases i
  {
    if i > 0 && k > 0 {
      SetBitBits(n / 2, i - 1, k - 1);
    }
  }

  lemma OnesDouble(m: nat, d: nat)
    requires d < 2
    ensures Ones(2 * m + d) == Ones(m) + d
  {
    assert (2 * m + d) / 2 == m && (2 * m + d) % 2 == d;
  }

  lemma {:induction false} SetBitOnes(n: nat, i: nat)
    ensures Ones(SetBit(n, i)) == Ones(n) + (if Bit(n, i) then 0 else 1)
    decreases i
  {
    OnesDouble(n / 2, n % 2);
    if i > 0 {
      SetBitOnes(n / 2, i - 1);
      OnesDouble(SetBit(n / 2, i - 1), n % 2);
    } else {
      OnesDouble(n / 2, 1);
    }
  }

  /** A number with no bit at or above 8 * k has at most k bytes. */
  lemma {:induction false} BytesNeeded(n: nat, k: nat)
    requires forall i: nat :: Bit(n, i) ==> i < 8 * k
    ensures |MinBytes(n)| <= k
    decreases k
  {
    if n == 0 {
    } else {
      var top := SomeBit(n);
      assert k > 0;
      forall i: nat | Bit(n / 256, i)
        ensures i < 8 * (k - 1)
      {
        ShiftByte(n, i);
      }
      BytesNeeded(n / 256, k - 1);
    }
  }

  lemma {:induction false} SomeBit(n: nat) returns (i: nat)
    requires n > 0
    ensures Bit(n, i)
    decreases n
  {
    if n % 2 == 1 {
      i := 0;
    } else {
      var j := SomeBit(n / 2);
      i := j + 1;
    }
  }

  lemma ShiftByte(n: nat, i: nat)
    ensures Bit(n, i + 8) == Bit(n / 256, i)
  {
    assert n / 2 / 2 / 2 / 2 / 2 / 2 / 2 / 2 == n / 256;
    assert Bit(n, i + 8) == Bit(n / 2, i + 7) == Bit(n / 2 / 2, i + 6) == Bit(n / 2 / 2 / 2, i + 5);
    assert Bit(n / 2 / 2 / 2, i + 5) == Bit(n / 2 / 2 / 2 / 2, i + 4) == Bit(n / 2 / 2 / 2 / 2 / 2, i + 3);
    assert Bit(n / 2 / 2 / 2 / 2 / 2, i + 3) == Bit(n / 2 / 2 / 2 / 2 / 2 / 2, i + 2)
        == Bit(n / 2 / 2 / 2 / 2 / 2 / 2 / 2, i + 1) == Bit(n / 2 / 2 / 2 / 2 / 2 / 2 / 2 / 2, i);
  }

  /** The mask's bits are exactly the numbers drawn. */
  ghost predicate BitsAre(mask: nat, drawn: set<nat>) {
    && (forall i: nat :: Bit(mask, i) <==> i in drawn)
    && Ones(mask) == |drawn|
  }

  lemma DrawOne(mask: nat, drawn: set<nat>, i: nat)
    requires BitsAre(mask, drawn)
    ensures BitsAre(SetBit(mask, i), drawn + {i})
  {
    SetBitOnes(mask, i);
    assert Bit(mask, i) <==> i in drawn;
    if i in drawn {
      assert drawn + {i} == drawn;
    }
    forall k: nat
      ensures Bit(SetBit(mask, i), k) <==> k in drawn + {i}
    {
      SetBitBits(mask, i, k);
    }
  }

  function Drawn(draws: seq<nat>): set<nat> {
    set d | d in draws
  }

  /** A finished draw: the numbers drawn reach the difficulty for the first time with the last of them. */
  ghost predicate Finishes(draws: seq<nat>, used: nat, difficulty: int) {
    && used <= |draws|
    && |Drawn(draws[..used])| >= difficulty
    && forall k :: 0 <= k < used ==> |Drawn(draws[..k])| < difficulty
  }

  /** Each draw adds at most one bit, so a finished mask has exactly the ones asked for. */
  lemma FinishedMaskIsExact(mask: nat, draws: seq<nat>, used: nat, difficulty: int)
    requires Finishes(draws, used, difficulty) && BitsAre(mask, Drawn(draws[..used]))
    requires forall d :: d in draws ==> d < 255
    ensures Ones(mask) == if difficulty > 0 then difficulty else 0
    ensures |MinBytes(mask)| <= 32
  {
    if used > 0 {
      assert draws[..used] == draws[..used - 1] + [draws[used - 1]];
      assert Drawn(draws[..used]) == Drawn(draws[..used - 1]) + {draws[used - 1]};
    } else {
      assert draws[..0] == [];
    }
    forall i: nat | Bit(mask, i)
      ensures i < 8 * 32
    {
      assert i in Drawn(draws[..used]);
      assert i in draws;
    }
    BytesNeeded(mask, 32);
  }

  datatype HashMask = HashMask(mask: Bytes, id: nat, expiration: int)

  const HOUR := 3600

  type Cache = map<nat, HashMask>

  /** One call of GetNewHashMask: `draws` stands for the random source, every number below
      255, newID for the id the database gives the mask, and stored for whether it takes it. */
  datatype Call = Call(termsID: nat, difficulty: int, now: int, draws: seq<nat>, newID: nat, stored: bool)

  /** The ones asked for. */
  function Wanted(difficulty: int): nat {
    if difficulty > 0 then difficulty else 0
  }

  predicate Exact(mask: Bytes, difficulty: int) {
    Ones(FromBytes(mask)) == Wanted(difficulty) && |mask| <= 32
  }

  /** Is there a cached mask with more than half an hour left? */
  predicate Cached(cache: Cache, call: Call) {
    call.termsID in cache && cache[call.termsID].expiration > call.now + HOUR / 2
  }

  /** A call's answer, None if the draws ran dry, and the cache after it. */
  ghost predicate Answers(cache: Cache, call: Call, mask: Option<Bytes>, id: nat, cache': Cache) {
    if Cached(cache, call) then
      mask == Some(cache[call.termsID].mask) && id == cache[call.termsID].id && cache' == cache
    else
      && (mask.Some? <==> exists k :: Finishes(call.draws, k, call.difficulty))
      && (mask.Some? ==> Exact(mask.value, call.difficulty) && id == call.newID)
      && cache' == if mask.Some? && call.stored
                   then cache[call.termsID := HashMask(mask.value, call.newID, call.now + HOUR)] else cache
  }

  /** TermsManager: its cache and the loop that draws a new mask. `draws` stands for
      the random source, every number below 255; None means it ran dry first. */
  class TermsManager {
    var hashMaskCache: Cache

    constructor ()
      ensures hashMaskCache == map[]
    {
      hashMaskCache := map[];
    }

    method DrawMask(difficulty: int, draws: seq<nat>) returns (result: Option<nat>, ghost used: nat)
      requires forall d :: d in draws ==> d < 255
      ensures result.Some? <==> exists k :: Finishes(draws, k, difficulty)
      ensures result.Some? ==> Finishes(draws, used, difficulty) && BitsAre(result.value, Drawn(draws[..used]))
      ensures result.Some? ==> Ones(result.value) == (if difficulty > 0 then difficulty else 0)
      ensures result.Some? ==> |MinBytes(result.value)| <= 32
    {
      var mask, next := 0, 0;
      assert draws[..0] == [];
      forall i: nat
        ensures !Bit(0, i)
      {
        ZeroBits(i);
      }
      var count := OnesCount(MinBytes(mask));
      while count < difficulty && next < |draws|
        invariant next <= |draws|
        invariant BitsAre(mask, Drawn(draws[..next]))
        invariant count == Ones(mask)
        invariant forall k :: 0 <= k < next ==> |Drawn(draws[..k])| < difficulty
        decreases |draws| - next
      {
        DrawOne(mask, Drawn(draws[..next]), draws[next]);
        assert draws[..next + 1] == draws[..next] + [draws[next]];
        assert Drawn(draws[..next + 1]) == Drawn(draws[..next]) + {draws[next]};
        mask, next := SetBit(mask, draws[next]), next + 1;
        count := OnesCount(MinBytes(mask));
      }
      used := next;
      if count < difficulty {
        return None, used;
      }
      assert Finishes(draws, used, difficulty);
      FinishedMaskIsExact(mask, draws, used, difficulty);
      return Some(mask), used;
    }

    /** A cached mask is handed out while it has more than half an hour left;
        otherwise a new one is drawn, and cached if the database takes it. */
    method GetNewHashMask(call: Call) returns (mask: Option<Bytes>, id: nat)
      requires forall d :: d in call.draws ==> d < 255
      modifies this
      ensures Answers(old(hashMaskCache), call, mask, id, hashMaskCache)
    {
      id := call.newID;
      if call.termsID in hashMaskCache && hashMaskCache[call.termsID].expiration > call.now + HOUR / 2 {
        return Some(hashMaskCache[call.termsID].mask), hashMaskCache[call.termsID].id;
      }
      var drawn, _ := DrawMask(call.difficulty, call.draws);
      if drawn.None? {
        return None, call.newID;
      }
      mask := Some(MinBytes(drawn.value));
      if call.stored {
        hashMaskCache := hashMaskCache[call.termsID := HashMask(mask.value, call.newID, call.now + HOUR)];
      }
    }
  }

  /** Every cached mask is as its terms ask. */
  ghost predicate GoodCache(cache: Cache, difficulties: nat -> int) {
    forall id :: id in cache ==> Exact(cache[id].mask, difficulties(id))
  }

  lemma AnswerKeepsGood(cache: Cache, call: Call, mask: Option<Bytes>, id: nat, cache': Cache, difficulties: nat -> int)
    requires Answers(cache, call, mask, id, cache') && GoodCache(cache, difficulties)
    requires call.difficulty == difficulties(call.termsID)
    ensures GoodCache(cache', difficulties) && (mask.Some? ==> Exact(mask.value, call.difficulty))
  {
  }

  /** A manager's whole life: caches[i] before call i, which is answered with masks[i]. */
  ghost predicate Life(caches: seq<Cache>, calls: seq<Call>, masks: seq<Option<Bytes>>, ids: seq<nat>) {
    && |caches| == |calls| + 1 && |masks| == |ids| == |calls| && caches[0] == map[]
    && forall i :: 0 <= i < |calls| ==> Answers(caches[i], calls[i], masks[i], ids[i], caches[i + 1])
  }

  /** If terms keep their difficulty, every mask ever handed out, cached or new, has exactly
      that many ones and fits 32 bytes. */
  lemma {:induction false} EveryMaskIsExact(caches: seq<Cache>, calls: seq<Call>, masks: seq<Option<Bytes>>, ids: seq<nat>,
                                            difficulties: nat -> int, i: nat)
    requires Life(caches, calls, masks, ids) && i <= |calls|
    requires forall j :: 0 <= j < |calls| ==> calls[j].difficulty == difficulties(calls[j].termsID)
    ensures GoodCache(caches[i], difficulties)
    ensures forall j :: 0 <= j < i && masks[j].Some? ==> Exact(masks[j].value, calls[j].difficulty)
    decreases i
  {
    if i == 0 {
    } else {
      EveryMaskIsExact(caches, calls, masks, ids, difficulties, i - 1);
      AnswerKeepsGood(caches[i - 1], calls[i - 1], masks[i - 1], ids[i - 1], caches[i], difficulties);
    }
  }

  /** If the difficulty changes, a mask drawn for the old one is wrong for the new one
      exactly while it is still handed out from the cache and the two ask for different
      numbers of ones. */
  lemma ChangedDifficultyIff(cache: Cache, call: Call, mask: Option<Bytes>, id: nat, cache': Cache, before: int)
    requires Answers(cache, call, mask, id, cache') && mask.Some?
    requires call.termsID in cache && Exact(cache[call.termsID].mask, before)
    ensures Exact(mask.value, call.difficulty) <==> !Cached(cache, call) || Wanted(before) == Wanted(call.difficulty)
  {
  }

  /** That is for less than half an hour after it was drawn, an hour before it expires. */
  lemma CachedForHalfAnHour(cache: Cache, call: Call, mask: Option<Bytes>, id: nat, cache': Cache, later: Call)
    requires Answers(cache, call, mask, id, cache') && !Cached(cache, call) && mask.Some? && call.stored
    requires later.termsID == call.termsID
    ensures cache'[call.termsID].expiration == call.now + 3600
    ensures Cached(cache', later) <==> later.now < call.now + 1800
  {
  }

  /** A new mask that the database does not take is handed out but not cached, nor is
      anything when no mask is finished; other terms' masks stay as they are. */
  lemma UnstoredIsNotCached(cache: Cache, call: Call, mask: Option<Bytes>, id: nat, cache': Cache, other: nat)
    requires Answers(cache, call, mask, id, cache') && !Cached(cache, call)
    ensures !call.stored || mask.None? ==> cache' == cache
    ensures call.stored && mask.Some? ==> call.termsID in cache' && cache'[call.termsID].mask == mask.value
    ensures mask.Some? ==> id == call.newID
    ensures other != call.termsID ==> (other in cache' <==> other in cache) && (other in cache ==> cache'[other] == cache[other])
  {
  }

  // ---- checking a hash ----

  /** CheckMask: hash AND mask is the mask. */
  predicate CheckMask(mask: Bytes, hash: Bytes) {
    And(FromBytes(hash), FromBytes(mask)) == FromBytes(mask)
  }

  /** Every 1 of x is a 1 of y. */
  ghost predicate Contained(x: nat, y: nat) {
    forall i: nat :: Bit(x, i) ==> Bit(y, i)
  }

  lemma {:induction false} AndBits(x: nat, y: nat, i: nat)
    ensures Bit(And(x, y), i) <==> Bit(x, i) && Bit(y, i)
    decreases i
  {
    if x == 0 || y == 0 {
      ZeroBits(i);
    } else if i > 0 {
      var d := (x % 2) * (y % 2);
      assert d == 0 || d == 1;
      assert And(x, y) / 2 == And(x / 2, y / 2);
      AndBits(x / 2, y / 2, i - 1);
    }
  }

  lemma ContainedHalves(x: nat, y: nat)
    requires Contained(x, y)
    ensures Contained(x / 2, y / 2) && x % 2 <= y % 2
  {
    assert Bit(x, 0) ==> Bit(y, 0);
    forall i: nat | Bit(x / 2, i)
      ensures Bit(y / 2, i)
    {
      assert Bit(x, i + 1) ==> Bit(y, i + 1);
    }
  }

  /** Numbers with the same bits are equal. */
  lemma {:induction false} BitsDetermine(x: nat, y: nat)
    requires Contained(x, y) && Contained(y, x)
    ensures x == y
    decreases x + y
  {
    if x + y > 0 {
      ContainedHalves(x, y);
      ContainedHalves(y, x);
      BitsDetermine(x / 2, y / 2);
    }
  }

  /** Bits contained means no more of them. */
  lemma {:induction false} FewerOnes(x: nat, y: nat)
    requires Contained(x, y)
    ensures Ones(x) <= Ones(y)
    decreases x
  {
    if x == 0 {
    } else {
      ContainedHalves(x, y);
      FewerOnes(x / 2, y / 2);
      OnesDouble(y / 2, y % 2);
    }
  }

  lemma AndKeepsIffContained(h: nat, m: nat)
    ensures And(h, m) == m <==> Contained(m, h)
  {
    forall i: nat
      ensures Bit(And(h, m), i) <==> Bit(h, i) && Bit(m, i)
    {
      AndBits(h, m, i);
    }
    assert Contained(And(h, m), m) && Contained(And(h, m), h);
    if Contained(m, h) {
      assert Contained(m, And(h, m));
      BitsDetermine(And(h, m), m);
    }
  }

  /** A hash passes exactly when every 1 of the mask is a 1 of the hash, so a passing
      hash has at least as many ones. */
  lemma CheckMaskIsBitwise(mask: Bytes, hash: Bytes)
    ensures CheckMask(mask, hash) <==> Contained(FromBytes(mask), FromBytes(hash))
    ensures CheckMask(mask, hash) ==> Ones(FromBytes(mask)) <= Ones(FromBytes(hash))
  {
    var m, h := FromBytes(mask), FromBytes(hash);
    AndKeepsIffContained(h, m);
    if CheckMask(mask, hash) {
      FewerOnes(m, h);
    }
  }
}
