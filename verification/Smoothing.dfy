/** Exponential smoothing. */
module Smoothing {

  function Smooth(alpha: real, current: real, previous: real): real {
    alpha * current + (1.0 - alpha) * previous
  }

  /** A smoothed value stays in the range of what it was smoothed from. */
  lemma SmoothWithin(alpha: real, current: real, previous: real, low: real, high: real)
    requires 0.0 <= alpha <= 1.0 && low <= current <= high && low <= previous <= high
    ensures low <= Smooth(alpha, current, previous) <= high
  {
    Mix(alpha, 1.0 - alpha, current, previous, low, high);
  }

  lemma Mix(alpha: real, beta: real, x: real, y: real, low: real, high: real)
    requires 0.0 <= alpha && 0.0 <= beta && alpha + beta == 1.0 && low <= x <= high && low <= y <= high
    ensures low <= alpha * x + beta * y <= high
  {
    Around(alpha, beta, x, y, low);
    Around(alpha, beta, x, y, high);
    NotNegative(alpha, x - low);
    NotNegative(beta, y - low);
    NotNegative(alpha, high - x);
    NotNegative(beta, high - y);
    Opposite(alpha, x, high);
    Opposite(beta, y, high);
  }

  lemma NotNegative(f: real, x: real)
    requires 0.0 <= f && 0.0 <= x
    ensures 0.0 <= f * x
  {
  }

  lemma Opposite(f: real, x: real, m: real)
    ensures f * (m - x) == -(f * (x - m))
  {
  }

  /** A mixture differs from any value by the mixture of the differences. */
  lemma Around(alpha: real, beta: real, x: real, y: real, m: real)
    requires alpha + beta == 1.0
    ensures alpha * x + beta * y == m + alpha * (x - m) + beta * (y - m)
  {
    Distribute(alpha, x, m);
    Distribute(beta, y, m);
    Share(alpha, beta, m);
  }

  lemma Distribute(f: real, x: real, m: real)
    ensures f * (x - m) == f * x - f * m
  {
  }

  lemma Share(alpha: real, beta: real, x: real)
    requires alpha + beta == 1.0
    ensures alpha * x + beta * x == x
  {
    assert (alpha + beta) * x == alpha * x + beta * x;
  }
}
