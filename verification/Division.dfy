/** Facts about numbers that several modules share. */
module Division {

  function Least(a: nat, b: nat): (m: nat)
    ensures m <= a && m <= b && (m == a || m == b)
  {
    if a <= b then a else b
  }

  lemma DivUnique(n: int, d: int, q: int, r: int)
    requires d > 0 && n == d * q + r && 0 <= r < d
    ensures n / d == q
  {
    DivParts(n, d);
    MultipleBelow(d, n / d - q, r - n % d);
  }

  lemma DivParts(n: int, d: int)
    requires d > 0
    ensures n == d * (n / d) + n % d && 0 <= n % d < d
  {
  }

  /** A multiple of d strictly between -d and d is zero. */
  lemma MultipleBelow(d: int, k: int, m: int)
    requires d > 0 && d * k == m && -d < m < d
    ensures k == 0
  {
    if k >= 1 {
      Scale(d, 1, k);
      assert false;
    }
    if k <= -1 {
      Scale(d, k, -1);
      assert false;
    }
  }

  lemma Scale(d: int, a: int, b: int)
    requires d >= 0 && a <= b
    ensures d * a <= d * b
  {
    var gap := b - a;
    assert d * gap >= 0;
    assert d * b == d * a + d * gap;
  }

  lemma DivMonotone(a: int, b: int, d: int)
    requires d > 0 && a <= b
    ensures a / d <= b / d
  {
    DivParts(a, d);
    DivParts(b, d);
    if b / d < a / d {
      Scale(d, b / d + 1, a / d);
      assert false;
    }
  }

  lemma DivMultiple(a: int, d: int)
    requires d > 0
    ensures a * d / d == a
  {
    DivUnique(a * d, d, a, 0);
  }

  lemma DivNonNegative(a: int, d: int)
    requires d > 0 && a >= 0
    ensures a / d >= 0
  {
    DivMonotone(0, a, d);
    DivUnique(0, d, 0, 0);
  }
}
