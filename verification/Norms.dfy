/** Lengths of plane vectors.  The program calls `hypot`; here it is a function value of which
    only the defining identity is known. */
module Norms {

  type Norm = (real, real) -> real

  ghost predicate IsNorm(norm: Norm) {
    forall x, y :: norm(x, y) >= 0.0 && norm(x, y) * norm(x, y) == x * x + y * y
  }

  lemma ZeroProduct(a: real, b: real)
    ensures a * b == 0.0 <==> a == 0.0 || b == 0.0
  {
    if a != 0.0 && a * b == 0.0 {
      assert b == (a * b) / a;
    }
  }

  lemma SquareNotNegative(a: real)
    ensures a * a >= 0.0
  {
  }

  /** Only the zero vector has length zero. */
  lemma ZeroNorm(x: real, y: real, n: real)
    requires n >= 0.0 && n * n == x * x + y * y
    ensures n == 0.0 <==> x == 0.0 && y == 0.0
  {
    if n == 0.0 {
      SquareNotNegative(x);
      SquareNotNegative(y);
      ZeroProduct(x, x);
      ZeroProduct(y, y);
    }
    ZeroProduct(n, n);
  }

  /** Lengths compare as their squares do. */
  lemma SquaresOrder(a: real, b: real)
    requires a >= 0.0 && b >= 0.0
    ensures a * a <= b * b <==> a <= b
  {
    if a <= b {
      assert a * a <= a * b <= b * b;
    } else {
      ProductPositive(a - b, a + b);
      assert (a - b) * (a + b) == a * a - b * b;
    }
  }

  lemma ProductPositive(a: real, b: real)
    requires a > 0.0 && b > 0.0
    ensures a * b > 0.0
  {
  }

  /** The identity behind the Cauchy-Schwarz inequality. */
  lemma Lagrange(x: real, y: real, u: real, v: real)
    ensures (x * x + y * y) * (u * u + v * v)
         == (x * u + y * v) * (x * u + y * v) + (x * v - y * u) * (x * v - y * u)
  {
  }

  /** The scalar product never exceeds the product of the lengths. */
  lemma ScalarProductBound(x: real, y: real, u: real, v: real, a: real, b: real)
    requires a >= 0.0 && b >= 0.0 && a * a == x * x + y * y && b * b == u * u + v * v
    ensures -(a * b) <= x * u + y * v <= a * b
  {
    var dot := x * u + y * v;
    Lagrange(x, y, u, v);
    SquareNotNegative(x * v - y * u);
    SquareOfProduct(a, b);
    assert dot * dot <= (a * b) * (a * b);
    ProductNotNegative(a, b);
    SquaresOrder(if dot < 0.0 then -dot else dot, a * b);
  }

  lemma ProductNotNegative(a: real, b: real)
    requires a >= 0.0 && b >= 0.0
    ensures a * b >= 0.0
  {
  }

  lemma SquareOfProduct(a: real, b: real)
    ensures (a * b) * (a * b) == (a * a) * (b * b)
  {
  }

  /** So a cosine computed from exact lengths lies between -1 and 1. */
  lemma CosineInUnit(dot: real, length: real)
    requires length > 0.0 && -length <= dot <= length
    ensures -1.0 <= dot / length <= 1.0
  {
    var q := dot / length;
    assert q * length == dot;
    if q > 1.0 { ProductPositive(q - 1.0, length); }
    if q < -1.0 { ProductPositive(-1.0 - q, length); }
  }
}
