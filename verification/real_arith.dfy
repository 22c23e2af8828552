/** Small facts about squares, products and quotients of reals. Each is stated on
    its own so that the solver proves it in isolation; the model's proofs call them
    explicitly instead of leaving non-linear steps to the solver. */
module RealArith {

  /** The identity on reals. `Sq` multiplies by `Id(x)` rather than by `x` itself so that
      the solver sees a product of two terms, about which it reasons reliably, instead of
      a bare square. */
  function Id(x: real): real {
    x
  }

  /** The square of a real, `x ** 2` in the JavaScript source. */
  function Sq(x: real): real {
    x * Id(x)
  }

  lemma SqNonNegative(x: real)
    ensures Sq(x) >= 0.0
  {
  }

  lemma SqPositive(x: real)
    requires x != 0.0
    ensures Sq(x) > 0.0
  {
  }

  lemma SqZero(x: real)
    requires Sq(x) == 0.0
    ensures x == 0.0
  {
  }

  /** A product of a number with itself is its square, centred at 0. */
  lemma SelfProduct(a: real)
    ensures a * a == Sq(a - 0.0)
  {
  }

  /** Squaring commutes with products: `(z s)^2 == z^2 s^2`. */
  lemma SqProduct(z: real, s: real)
    ensures Sq(z * s) == Sq(z) * Sq(s)
  {
  }

  lemma MulPositive(a: real, b: real)
    requires a > 0.0 && b > 0.0
    ensures a * b > 0.0
  {
  }

  lemma MulNonNegative(a: real, b: real)
    requires a >= 0.0 && b >= 0.0
    ensures a * b >= 0.0
  {
  }

  lemma QuotientNonNegative(a: real, b: real)
    requires a >= 0.0 && b > 0.0
    ensures a / b >= 0.0
  {
  }

  lemma QuotientTimesDivisor(a: real, b: real)
    requires b != 0.0
    ensures (a / b) * b == a
  {
  }

  /** A quotient times its divisor gives back the dividend. */
  lemma QuotientProduct(q: real, a: real, b: real)
    requires b != 0.0 && q == a / b
    ensures q * b == a
  {
  }

  lemma ProductZero(x: real, s: real)
    requires s != 0.0 && x * s == 0.0
    ensures x == 0.0
  {
  }

  /** A non-zero factor cancels: `x * s == y * s` gives `x == y`. */
  lemma CancelFactor(x: real, y: real, s: real)
    requires s != 0.0 && x * s == y * s
    ensures x == y
  {
    ProductZero(x - y, s);
  }

  lemma Distribute(a: real, b: real, s: real)
    ensures (a + b) * s == a * s + b * s
  {
  }

  lemma MulAdd(a: real, b: real, c: real)
    ensures a * (b + c) == a * b + a * c
  {
  }

  lemma MulSucc(c: real, mu: real)
    ensures c * mu + mu == (c + 1.0) * mu
  {
  }

  /** `x * (d / c) == d` with `d` non-zero pins `x` to `c`. */
  lemma CancelQuotient(x: real, d: real, c: real)
    requires d != 0.0 && c != 0.0 && x * (d / c) == d
    ensures x == c
  {
  }

  /** A point's offset from the size-weighted mean of itself and `y` is the share `sb / (sa + sb)`
      of its offset from `y`. */
  lemma OffsetFromMerged(x: real, y: real, sa: real, sb: real)
    requires sa > 0.0 && sb > 0.0
    ensures x - (x * sa + y * sb) / (sa + sb) == (sb / (sa + sb)) * (x - y)
  {
  }

  /** `(sa (sb/S)^2 d + sb (sa/S)^2 d) / S == (sa sb / S) d / S` with `S = sa + sb`. */
  lemma WeightedSpread(sa: real, sb: real, d: real)
    requires sa > 0.0 && sb > 0.0
    ensures (sa * (Sq(sb / (sa + sb)) * d) + sb * (Sq(sa / (sa + sb)) * d)) / (sa + sb) ==
      (sa * sb / (sa + sb) * d) / (sa + sb)
  {
  }
}
