/** Byte strings and the unsigned big-endian integers they stand for.
    Models the parts of math/big and accounts/abi that the repository leans on:
    SetBytes, Bytes, U256, and the byte-wise comparison used for salts. */
module Bytes {

  type byte = x: nat | x < 256

  type Bytes = seq<byte>

  /** The types.Address and types.Uint256 arrays. */
  type Address = s: Bytes | |s| == 20 witness seq(20, i => 0)

  type Word = s: Bytes | |s| == 32 witness seq(32, i => 0)

  function Zeros(n: nat): (s: Bytes)
    ensures |s| == n && forall i :: 0 <= i < n ==> s[i] == 0
  {
    seq(n, i => 0)
  }

  /** How many numbers fit in as many bytes as s has: 256 to the power |s|. */
  function Capacity(s: Bytes): (p: nat)
    ensures p > 0
  {
    if s == [] then 1 else 256 * Capacity(s[1..])
  }

  /** 256 to the power n. */
  function Pow256(n: nat): (p: nat)
    ensures p > 0
  {
    Capacity(seq(n, i => 0))
  }

  lemma {:induction false} CapacityIsPow(s: Bytes)
    ensures Capacity(s) == Pow256(|s|)
  {
    SameCapacity(s, seq(|s|, i => 0));
  }

  lemma {:induction false} SameCapacity(a: Bytes, b: Bytes)
    requires |a| == |b|
    ensures Capacity(a) == Capacity(b)
  {
    if a == [] {
    } else {
      SameCapacity(a[1..], b[1..]);
    }
  }

  lemma PowStep(n: nat)
    ensures Pow256(0) == 1
    ensures Pow256(n + 1) == 256 * Pow256(n)
  {
    CapacityIsPow(seq(n + 1, i => 0)[1..]);
  }

  /** big.Int.SetBytes */
  function FromBytes(s: Bytes): (x: nat)
    ensures x < Pow256(|s|)
  {
    if s == [] then PowStep(0); 0
    else
      PowStep(|s| - 1);
      256 * FromBytes(s[..|s| - 1]) + s[|s| - 1]
  }

  /** The big-endian form of x in as many bytes as the template has; the most
      significant bytes of a larger x are dropped. */
  function ToBytes(x: nat, template: Bytes): (s: Bytes)
    ensures |s| == |template|
    ensures x < Pow256(|template|) ==> FromBytes(s) == x
    decreases template
  {
    if template == [] then PowStep(0); []
    else
      PowStep(|template| - 1);
      ToBytes(x / 256, template[1..]) + [x % 256]
  }

  /** big.Int.Bytes: the shortest big-endian form; zero is the empty string. */
  function MinBytes(x: nat): (s: Bytes)
    ensures FromBytes(s) == x
    ensures s != [] ==> s[0] != 0
  {
    if x == 0 then [] else
      var front := MinBytes(x / 256);
      assert (front + [x % 256])[..|front|] == front;
      front + [x % 256]
  }

  /** abi.U256 copied into a Uint256: two's complement modulo 2^256. */
  function WordOf(x: int): (w: Word)
    ensures FromBytes(w) == x % Pow256(32)
    ensures 0 <= x < Pow256(32) ==> FromBytes(w) == x
  {
    ModSmall(x, Pow256(32));
    ToBytes(x % Pow256(32), seq(32, i => 0))
  }

  lemma ModSmall(x: int, m: int)
    requires m > 0
    ensures 0 <= x % m < m
    ensures 0 <= x < m ==> x % m == x
  {
  }

  /** Go's copy(dst[:], src) into a fresh zeroed array of n bytes. */
  function CopyInto(n: nat, src: Bytes): (s: Bytes)
    ensures |s| == n
    ensures |src| == n ==> s == src
    ensures forall i :: 0 <= i < n ==> s[i] == if i < |src| then src[i] else 0
  {
    if |src| >= n then src[..n] else src + Zeros(n - |src|)
  }

  /** bytes.Compare(a, b) < 0, also the order of bytea columns. */
  predicate BytesLess(a: Bytes, b: Bytes) {
    if b == [] then false
    else if a == [] then true
    else a[0] < b[0] || (a[0] == b[0] && BytesLess(a[1..], b[1..]))
  }

  lemma Distribute(a: nat, p: nat, f: nat)
    ensures 256 * (a * p + f) == a * (256 * p) + 256 * f
  {
  }

  lemma {:induction false} FromBytesFront(s: Bytes)
    requires s != []
    ensures FromBytes(s) == s[0] * Pow256(|s| - 1) + FromBytes(s[1..])
  {
    if |s| == 1 {
      PowStep(0);
      assert s[..0] == s[1..] == [];
    } else {
      var front, n := s[..|s| - 1], |s| - 2;
      FromBytesFront(front);
      PowStep(n);
      Distribute(s[0], Pow256(n), FromBytes(front[1..]));
      assert front[1..] == s[1..][..|s[1..]| - 1];
    }
  }

  lemma LeadingDigitDecides(x: nat, u: nat, y: nat, v: nat, p: nat)
    requires u < p && v < p
    ensures x * p + u < y * p + v <==> x < y || (x == y && u < v)
  {
    if x < y {
      assert (x + 1) * p <= y * p;
    } else if y < x {
      assert (y + 1) * p <= x * p;
    }
  }

  /** Byte order is number order on strings of one length. */
  lemma {:induction false} LexIsNumeric(a: Bytes, b: Bytes)
    requires |a| == |b|
    ensures BytesLess(a, b) <==> FromBytes(a) < FromBytes(b)
  {
    if a == [] {
    } else {
      LexIsNumeric(a[1..], b[1..]);
      FromBytesFront(a);
      FromBytesFront(b);
      LeadingDigitDecides(a[0], FromBytes(a[1..]), b[0], FromBytes(b[1..]), Pow256(|a| - 1));
    }
  }

  lemma {:induction false} TemplateLength(x: nat, a: Bytes, b: Bytes)
    requires |a| == |b|
    ensures ToBytes(x, a) == ToBytes(x, b)
  {
    if a == [] {
    } else {
      TemplateLength(x / 256, a[1..], b[1..]);
    }
  }

  lemma {:induction false} ToFromBytes(s: Bytes)
    ensures ToBytes(FromBytes(s), s) == s
  {
    if s == [] {
    } else {
      var front, last := s[..|s| - 1], s[|s| - 1];
      ToFromBytes(front);
      TemplateLength(FromBytes(front), s[1..], front);
      assert FromBytes(s) / 256 == FromBytes(front) && FromBytes(s) % 256 == last;
      assert s == front + [last];
    }
  }

  lemma {:induction false} FromBytesInjective(a: Bytes, b: Bytes)
    requires |a| == |b| && FromBytes(a) == FromBytes(b)
    ensures a == b
  {
    ToFromBytes(a);
    ToFromBytes(b);
    TemplateLength(FromBytes(a), a, b);
  }

  lemma {:induction false} MinBytesFits(x: nat, n: nat)
    requires x < Pow256(n)
    ensures |MinBytes(x)| <= n
  {
    PowStep(0);
    if x != 0 {
      PowStep(n - 1);
      MinBytesFits(x / 256, n - 1);
    }
  }

  lemma {:induction false} ZeroWord(n: nat)
    ensures FromBytes(Zeros(n)) == 0
  {
    if n == 0 {
    } else {
      assert Zeros(n)[..n - 1] == Zeros(n - 1);
      ZeroWord(n - 1);
    }
  }
}
