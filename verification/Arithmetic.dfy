/** Facts about products that the solver needs spelled out. */
module Arithmetic {

  lemma {:induction false} ProductBound(x: int, y: int, m: int, n: int)
    requires 0 <= m && 0 <= n
    requires -m <= x <= m && -n <= y <= n
    ensures -(m * n) <= x * y <= m * n
  {
    if x >= 0 {
      assert x * y <= x * n && x * (-n) <= x * y;
      assert x * n <= m * n;
    } else {
      assert (-x) * y <= (-x) * n && (-x) * (-n) <= (-x) * y;
      assert (-x) * n <= m * n;
    }
  }

  lemma {:induction false} PositiveProduct(v: int, r: int)
    requires 1 <= v && 1 <= r
    ensures 1 <= v * r
  {
  }

  lemma {:induction false} NonNegativeProduct(x: int, y: int)
    requires 0 <= x && 0 <= y
    ensures 0 <= x * y
  {
  }

  lemma {:induction false} ScaleNonNegative(x: int, y: int, k: int)
    requires k >= 0 && x <= y
    ensures x * k <= y * k
  {
  }

  lemma {:induction false} ScalePositive(x: int, y: int, k: int)
    requires k > 0 && x < y
    ensures x * k < y * k
  {
    ScaleNonNegative(x + 1, y, k);
    assert (x + 1) * k == x * k + k;
  }

  lemma {:induction false} CancelPositive(x: int, y: int, k: int)
    requires k > 0
    ensures x * k <= y * k <==> x <= y
  {
    if x <= y { ScaleNonNegative(x, y, k); } else { ScalePositive(y, x, k); }
  }

  /** Packing two fields into a word loses nothing while the lower field stays below its base. */
  lemma {:induction false} DigitsUnique(q1: int, r1: int, q2: int, r2: int, base: int)
    requires base > 0 && 0 <= r1 < base && 0 <= r2 < base
    requires q1 * base + r1 == q2 * base + r2
    ensures q1 == q2 && r1 == r2
  {
    var d := q1 - q2;
    assert d * base == r2 - r1;
    assert -1 < d < 1;
  }

  /** Unpacking the lower field of a word, and what is above it. */
  lemma {:induction false} Digits(q: int, r: int, base: int)
    requires 0 <= r < base
    ensures (q * base + r) / base == q && (q * base + r) % base == r
  {
    var n := q * base + r;
    DigitsUnique(n / base, n % base, q, r, base);
  }

  lemma {:induction false} NonNegativeQuotient(n: int, d: int)
    requires 0 <= n && 0 < d
    ensures 0 <= n / d
  {
  }

  /** Adding half of an even divisor before dividing rounds to the nearest integer, halves up. */
  lemma {:induction false} NearestQuotient(n: int, half: int)
    requires 0 < half
    ensures var q := (n + half) / (2 * half);
      -(2 * half) < 2 * (q * (2 * half) - n) <= 2 * half
  {
    var d := 2 * half;
    assert n + half == ((n + half) / d) * d + (n + half) % d;
  }

  lemma {:induction false} Distribute(x: int, y: int, k: int)
    ensures (x + y) * k == x * k + y * k
    ensures k * (x + y) == k * x + k * y
  {
  }
}
