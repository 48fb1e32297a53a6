/**
 Money in paise, quantities in thousandths, percentages in hundredths, and the one rounding rule:
 half-up, away from zero on a tie, in either sign.
 */
module Money {

  /** The quotient n/d rounded half-up, as `quantize(..., ROUND_HALF_UP)` rounds it. */
  function HalfUp(n: int, d: int): int
    requires d > 0
  {
    if n >= 0 then (2 * n + d) / (2 * d) else -((2 * -n + d) / (2 * d))
  }

  lemma DivBounds(x: int, y: int)
    requires y > 0
    ensures y * (x / y) <= x < y * (x / y) + y
  {
  }

  lemma LessThanOne(y: int, k: int)
    requires y > 0 && y * k < y
    ensures k <= 0
  {
    assert y * (k - 1) < 0;
  }

  /** Two multiples of y in one interval of length y are the same. */
  lemma MultipleIsUnique(x: int, y: int, q: int, r: int)
    requires y > 0 && y * q <= x < y * q + y && y * r <= x < y * r + y
    ensures q == r
  {
    assert y * (q - r) == y * q - y * r && y * (r - q) == y * r - y * q;
    LessThanOne(y, q - r);
    LessThanOne(y, r - q);
  }

  /** `r` is a nearest integer to n/d, and on a tie the one further from zero. */
  predicate Nearest(n: int, d: int, r: int) {
    if n >= 0 then 2 * n - d < 2 * d * r <= 2 * n + d else 2 * n - d <= 2 * d * r < 2 * n + d
  }

  /** Half-up rounding is the nearest integer, ties away from zero, and nothing else is. */
  lemma HalfUpIsNearest(n: int, d: int, r: int)
    requires d > 0
    ensures r == HalfUp(n, d) <==> Nearest(n, d, r)
  {
    var x := if n >= 0 then 2 * n + d else 2 * -n + d;
    var q := x / (2 * d);
    DivBounds(x, 2 * d);
    assert 2 * d * -q == -(2 * d * q);
    var s := if n >= 0 then r else -r;
    assert 2 * d * s == if n >= 0 then 2 * d * r else -(2 * d * r);
    if Nearest(n, d, r) {
      MultipleIsUnique(x, 2 * d, q, s);
    }
  }

  lemma HalfUpBounds(n: int, d: int)
    requires d > 0
    ensures Nearest(n, d, HalfUp(n, d))
  {
    HalfUpIsNearest(n, d, HalfUp(n, d));
  }

  /** A whole number is not rounded. */
  lemma HalfUpExact(k: int, d: int)
    requires d > 0
    ensures HalfUp(k * d, d) == k
  {
    assert 2 * d * k == 2 * (k * d);
    assert k >= 0 ==> k * d >= 0;
    assert k < 0 ==> k * d < 0;
    HalfUpIsNearest(k * d, d, k);
  }

  lemma HalfUpMonotone(m: int, n: int, d: int)
    requires d > 0 && m <= n
    ensures HalfUp(m, d) <= HalfUp(n, d)
  {
    HalfUpBounds(m, d);
    HalfUpBounds(n, d);
    if m < n {
      var a, b := HalfUp(m, d), HalfUp(n, d);
      assert 2 * d * (a - b) == 2 * d * a - 2 * d * b;
      LessThanOne(2 * d, a - b);
    }
  }

  /** Rounding a part of a whole stays within the whole. */
  lemma HalfUpWithin(n: int, k: int, d: int)
    requires d > 0 && 0 <= n <= k * d
    ensures 0 <= HalfUp(n, d) <= k
  {
    HalfUpExact(k, d);
    HalfUpExact(0, d);
    HalfUpMonotone(0, n, d);
    HalfUpMonotone(n, k * d, d);
  }
}
