/** Decimal amounts as the SDK stores them: an integer count of the smallest unit, `precision`
    (10^18 on the chain) of which make one. Every statement here holds at every precision. */
module FixedPoint {

  /** Facts about floor division that the rest of the project uses by name. */

  /** `q` is the floor of `n / d` exactly when it is the only multiple in range. */
  lemma DivIs(n: int, d: int, q: int)
    requires d > 0
    requires q * d <= n < (q + 1) * d
    ensures n / d == q
  {
    var r := n / d;
    assert r * d <= n < (r + 1) * d;
    if r < q {
      MulLe(r + 1, q, d);
    } else if q < r {
      MulLe(q + 1, r, d);
    }
  }

  lemma DivBounds(n: int, d: int)
    requires d > 0
    ensures (n / d) * d <= n < (n / d + 1) * d
    ensures n >= 0 ==> n / d >= 0
  {
  }

  lemma MulLe(a: int, b: int, c: int)
    requires a <= b && c >= 0
    ensures a * c <= b * c
  {
    assert (b - a) * c >= 0;
  }

  lemma MulLt(a: int, b: int, c: int)
    requires a < b && c > 0
    ensures a * c < b * c
  {
    assert (b - a) * c > 0;
  }

  lemma CancelLe(a: int, b: int, c: int)
    requires c > 0 && a * c <= b * c
    ensures a <= b
  {
    if b < a { MulLt(b, a, c); }
  }

  lemma CancelLt(a: int, b: int, c: int)
    requires c > 0 && a * c < b * c
    ensures a < b
  {
    if b <= a { MulLe(b, a, c); }
  }

  /** The floor is the largest integer whose multiple stays below. */
  lemma FloorIsGreatest(n: int, d: int, k: int)
    requires d > 0 && k * d <= n
    ensures k <= n / d
  {
    DivBounds(n, d);
    CancelLt(k, n / d + 1, d);
  }

  lemma FloorAtMost(n: int, d: int, k: int)
    requires d > 0 && n < (k + 1) * d
    ensures n / d <= k
  {
    DivBounds(n, d);
    CancelLt(n / d, k + 1, d);
  }

  lemma DivCancel(n: int, d: int)
    requires d > 0
    ensures (n * d) / d == n
  {
    assert (n + 1) * d == n * d + d;
    DivIs(n * d, d, n);
  }

  /** Dividing twice, truncating in between, is one division by the product. */
  lemma DivDiv(n: int, c: int, d: int)
    requires n >= 0 && c > 0 && d > 0
    ensures c * d > 0
    ensures (n / c) / d == n / (c * d)
  {
    assert c * d > 0;
    var m := n / c;
    var q := m / d;
    DivBounds(n, c);
    DivBounds(m, d);
    assert q * (c * d) == (q * d) * c;
    MulLe(q * d, m, c);
    assert (q + 1) * (c * d) == ((q + 1) * d) * c;
    MulLe(m + 1, (q + 1) * d, c);
    DivIs(n, c * d, q);
  }

  /** A common factor of numerator and denominator cancels before the floor is taken. */
  lemma DivScale(n: int, c: int, k: int)
    requires n >= 0 && c > 0 && k > 0
    ensures c * k > 0
    ensures (n * k) / (c * k) == n / c
  {
    assert n * k >= 0;
    DivDiv(n * k, k, c);
    DivCancel(n, k);
    assert k * c == c * k;
  }

  /** The raw value of the whole number `n`. */
  function Whole(precision: int, n: int): int {
    n * precision
  }

  /** `sdk.Dec.MulTruncate` on non-negative operands. */
  function MulTruncate(precision: int, a: int, b: int): int
    requires precision > 0
  {
    (a * b) / precision
  }

  /** `sdk.Dec.QuoTruncate` on non-negative operands: the numerator is scaled up twice, divided, and
      chopped once. */
  function QuoTruncate(precision: int, a: int, b: int): int
    requires precision > 0 && b > 0
  {
    (a * precision * precision / b) / precision
  }

  /** The chain keeps two spare scalings in flight so that no intermediate step loses a digit. */
  function MulAndQuo(precision: int, a: int, b: int, c: int): int
    requires precision > 0 && c > 0
  {
    assert precision * precision > 0;
    var auxiliary := Whole(precision, precision);
    var scaled := MulTruncate(precision, a, auxiliary);
    QuoTruncate(precision, QuoTruncate(precision, MulTruncate(precision, scaled, b), c), auxiliary)
  }

  lemma QuoTruncateIsFloor(precision: int, a: int, b: int)
    requires precision > 0 && b > 0 && a >= 0
    ensures QuoTruncate(precision, a, b) == (a * precision) / b
  {
    var p := precision;
    assert a * p * p >= 0 by { MulLe(0, a, p); MulLe(0, a * p, p); }
    DivDiv(a * p * p, b, p);
    assert a * p >= 0 by { MulLe(0, a, p); }
    DivScale(a * p, b, p);
  }

  /** At every precision the four truncating steps together take one single floor. */
  lemma MulAndQuoIsFloor(precision: int, a: int, b: int, c: int)
    requires precision > 0 && a >= 0 && b >= 0 && c > 0
    ensures MulAndQuo(precision, a, b, c) == (a * b) / c
  {
    var p := precision;
    var aux := Whole(p, p);
    assert aux == p * p;
    var scaled := MulTruncate(p, a, aux);
    assert a * aux == (a * p) * p;
    DivCancel(a * p, p);
    assert scaled == a * p;
    var product := MulTruncate(p, scaled, b);
    assert scaled * b == (a * b) * p by { assert (a * p) * b == (a * b) * p; }
    DivCancel(a * b, p);
    assert product == a * b;
    assert a * b >= 0 by { MulLe(0, a, b); }
    QuoTruncateIsFloor(p, a * b, c);
    var x := QuoTruncate(p, product, c);
    assert a * b * p >= 0 by { MulLe(0, a * b, p); }
    DivBounds(a * b * p, c);
    assert x == (a * b * p) / c && x >= 0;
    QuoTruncateIsFloor(p, x, aux);
    DivScale(x, p, p);
    DivDiv(a * b * p, c, p);
    DivScale(a * b, c, p);
  }
}
