/** Python numeric conventions that the demos rely on, over exact numbers. */
module Numerics {

  /** Python's `math.pi` (numpy's `np.pi` is the same double), as the decimal
      that Python prints for it. */
  const PI: real := 3.141592653589793

  /** Python's `int(num / den)` for a positive denominator: the quotient
      truncated toward zero (Dafny's own `/` on `int` rounds down). */
  function TruncDiv(num: int, den: int): (q: int)
    requires den > 0
    ensures num >= 0 ==> q * den <= num < (q + 1) * den
    ensures num < 0 ==> (q - 1) * den < num <= q * den
  {
    if num >= 0 then num / den else -((-num) / den)
  }

  /** Truncating division is monotone in the numerator. */
  lemma TruncDivMonotone(n1: int, n2: int, den: int)
    requires den > 0
    requires n1 <= n2
    ensures TruncDiv(n1, den) <= TruncDiv(n2, den)
  {
    var q1, q2 := TruncDiv(n1, den), TruncDiv(n2, den);
    if n1 >= 0 {
      // q1 * den <= n1 <= n2 < (q2 + 1) * den
      CancelFactor(q1, q2 + 1, den);
    } else if n2 >= 0 {
      // (q1 - 1) * den < n1 < 0 <= q2 * den
      CancelFactor(q1 - 1, 0, den);
      CancelFactor(-1, q2, den);
    } else {
      // (q1 - 1) * den < n1 <= n2 <= q2 * den
      CancelFactor(q1 - 1, q2, den);
    }
  }

  /** Squaring is monotone on the non-negative reals. */
  lemma SquareBetween(lo: real, x: real, hi: real)
    requires 0.0 <= lo <= x <= hi
    ensures lo * lo <= x * x <= hi * hi
  {
    assert x * x - lo * lo == (x - lo) * (x + lo);
    assert hi * hi - x * x == (hi - x) * (hi + x);
  }

  /** Dividing an exact multiple gives the factor back. */
  lemma TruncDivExact(m: int, den: int)
    requires den > 0 && m >= 0
    ensures TruncDiv(m * den, den) == m
  {
    var q := TruncDiv(m * den, den);
    CancelFactor(q, m + 1, den);
    CancelFactor(m, q + 1, den);
  }

  /** Cancelling a positive factor from a strict inequality. */
  lemma CancelFactor(a: int, b: int, den: int)
    requires den > 0
    requires a * den < b * den
    ensures a < b
  {
    assert (b - a) * den == b * den - a * den;
  }

  /** `b` to the power `n`: the factor a quantity scaled by `b` on every
      frame carries after `n` frames. */
  function Pow(b: real, n: nat): real
  {
    if n == 0 then 1.0 else b * Pow(b, n - 1)
  }

  /** Powers add their exponents. */
  lemma {:induction false} PowAdd(b: real, m: nat, n: nat)
    ensures Pow(b, m + n) == Pow(b, m) * Pow(b, n)
    decreases m
  {
    if m > 0 {
      PowAdd(b, m - 1, n);
    }
  }

  /** A power of a power multiplies the exponents. */
  lemma {:induction false} PowMul(b: real, m: nat, n: nat)
    ensures Pow(b, m * n) == Pow(Pow(b, m), n)
    decreases n
  {
    if n > 0 {
      PowMul(b, m, n - 1);
      PowAdd(b, m, m * (n - 1));
      assert m * n == m + m * (n - 1);
    }
  }

  /** Raising to a power is monotone on the non-negative reals. */
  lemma {:induction false} PowMonotoneBase(a: real, b: real, n: nat)
    requires 0.0 <= a <= b
    ensures 0.0 <= Pow(a, n) <= Pow(b, n)
    decreases n
  {
    if n > 0 {
      PowMonotoneBase(a, b, n - 1);
      assert a * Pow(a, n - 1) <= b * Pow(a, n - 1) <= b * Pow(b, n - 1);
    }
  }

  // ---------------------------------------------------------------------------
  // Products behind function symbols.  A product in a lemma's contract is
  // matched against the caller's terms only up to syntactic equality, so
  // facts that cross a call are stated over `Sq` and `Mul`.

  /** `x * x`. */
  function Sq(x: real): real { x * x }

  /** `a * b`. */
  function Mul(a: real, b: real): real { a * b }

  /** Dividing by `d` and multiplying back gives the numerator. */
  lemma DivMul(a: real, d: real)
    requires d != 0.0
    ensures (a / d) * d == a
  {
  }

  /** Squaring `n * d == x`. */
  lemma SquareScaled(n: real, d: real, x: real)
    requires n * d == x
    ensures Mul(Sq(n), Sq(d)) == Sq(x)
  {
    assert (n * n) * (d * d) == (n * d) * (n * d);
  }

  /** Multiplication distributes over addition. */
  lemma Distribute(a: real, b: real, c: real)
    ensures Mul(a + b, c) == Mul(a, c) + Mul(b, c)
  {
  }

  /** The product of two positive numbers is positive. */
  lemma MulPositive(a: real, b: real)
    requires a > 0.0 && b > 0.0
    ensures Mul(a, b) > 0.0
  {
  }

  /** `t` is 1 when scaling a positive `dd` by it leaves `dd` unchanged. */
  lemma ScaleOne(t: real, dd: real)
    requires dd > 0.0 && Mul(t, dd) == dd
    ensures t == 1.0
  {
    assert (t - 1.0) * dd == 0.0;
  }

  /** A vector that scaled by the length `d` gives `(dx, dy)` is a unit
      vector. */
  lemma UnitScaled(nx: real, ny: real, dx: real, dy: real, d: real)
    requires d > 0.0 && d * d == dx * dx + dy * dy && nx * d == dx && ny * d == dy
    ensures nx * nx + ny * ny == 1.0
  {
    SquareScaled(nx, d, dx);
    SquareScaled(ny, d, dy);
    Distribute(Sq(nx), Sq(ny), Sq(d));
    MulPositive(d, d);
    ScaleOne(Sq(nx) + Sq(ny), Sq(d));
  }

  /** `(dx / d, dy / d)` is a unit vector when `d` is the length of
      `(dx, dy)`. */
  lemma UnitNormal(dx: real, dy: real, d: real)
    requires d > 0.0 && d * d == dx * dx + dy * dy
    ensures (dx / d) * (dx / d) + (dy / d) * (dy / d) == 1.0
  {
    DivMul(dx, d);
    DivMul(dy, d);
    UnitScaled(dx / d, dy / d, dx, dy, d);
  }

  /** `(c, s)` is a unit vector. */
  predicate Unit(c: real, s: real)
  {
    c * c + s * s == 1.0
  }

  /** Scaling a unit vector by `k` gives a vector of length `k`. */
  lemma UnitScale(c: real, s: real, k: real)
    requires Unit(c, s)
    ensures Sq(Mul(c, k)) + Sq(Mul(s, k)) == Sq(k)
  {
    assert (c * k) * (c * k) + (s * k) * (s * k) == (c * c + s * s) * (k * k);
  }

  /** A sum of two squares is 0 only when both numbers are. */
  lemma SumOfSquaresZero(a: real, b: real)
    requires a * a + b * b == 0.0
    ensures a == 0.0 && b == 0.0
  {
    if a != 0.0 {
      MulPositive(if a > 0.0 then a else -a, if a > 0.0 then a else -a);
    }
    if b != 0.0 {
      MulPositive(if b > 0.0 then b else -b, if b > 0.0 then b else -b);
    }
  }
}
