/** Which side of a stop line a point is on, and whether a movement crosses it. */
module StopLines {
  import opened Geometry
  import opened Norms
  import B = Boxes
  import opened Collections

  const EPSILON := 0.000001

  /** Positive when v points to the left of u (in image coordinates, to the right). */
  function Cross(u: Point, v: Point): real {
    u.x * v.y - u.y * v.x
  }

  /** The sign that makes travel along the direction increase the signed distance. */
  function LegalSign(direction: Point, start: Point, end: Point): Option<real> {
    var side := Cross(Minus(end, start), direction);
    if B.Abs(side) < EPSILON then None else Some(if side > 0.0 then 1.0 else -1.0)
  }

  /** Distance to the infinite line, with the sign of the side. */
  function SignedDistance(norm: Norm, p: Point, start: Point, end: Point): real {
    var line := Minus(end, start);
    var length := norm(line.x, line.y);
    if length == 0.0 then 0.0 else Cross(line, Minus(p, start)) / length
  }

  /** The parameter at which the first line meets the second. */
  function FirstParameter(a: Point, b: Point, start: Point, end: Point): real {
    var d := Cross(Minus(b, a), Minus(end, start));
    if d == 0.0 then 0.0 else Cross(Minus(start, a), Minus(end, start)) / d
  }

  function SecondParameter(a: Point, b: Point, start: Point, end: Point): real {
    var d := Cross(Minus(b, a), Minus(end, start));
    if d == 0.0 then 0.0 else Cross(Minus(start, a), Minus(b, a)) / d
  }

  predicate WithinSegment(t: real) {
    -EPSILON <= t <= 1.0 + EPSILON
  }

  predicate SegmentsIntersect(a: Point, b: Point, start: Point, end: Point) {
    && !(B.Abs(Cross(Minus(b, a), Minus(end, start))) < EPSILON)
    && WithinSegment(FirstParameter(a, b, start, end))
    && WithinSegment(SecondParameter(a, b, start, end))
  }

  // ---------------------------------------------------------------- the crossing point

  lemma QuotientTimes(a: real, d: real)
    requires d != 0.0
    ensures (a / d) * d == a
  {
  }

  lemma CancelFactor(a: real, b: real, d: real)
    requires d != 0.0 && a * d == b * d
    ensures a == b
  {
    ZeroProduct(a - b, d);
  }

  /** Both parameters name the same point, the crossing of the two infinite lines. */
  lemma {:induction false} SamePoint(a: Point, b: Point, start: Point, end: Point)
    requires Cross(Minus(b, a), Minus(end, start)) != 0.0
    ensures OnSegment(a, b, FirstParameter(a, b, start, end))
      == OnSegment(start, end, SecondParameter(a, b, start, end))
  {
    var f, l, o := Minus(b, a), Minus(end, start), Minus(start, a);
    var t, u := FirstParameter(a, b, start, end), SecondParameter(a, b, start, end);
    QuotientTimes(Cross(o, l), Cross(f, l));
    QuotientTimes(Cross(o, f), Cross(f, l));
    assert t * Cross(f, l) == Cross(o, l) && u * Cross(f, l) == Cross(o, f);
    Component(f.x, f.y, l.x, l.y, o.x, o.y, t, u);
    Component2(f.x, f.y, l.x, l.y, o.x, o.y, t, u);
    assert OnSegment(a, b, t) == Point(a.x + t * f.x, a.y + t * f.y);
    assert OnSegment(start, end, u) == Point(start.x + u * l.x, start.y + u * l.y);
  }

  lemma Component(fx: real, fy: real, lx: real, ly: real, ox: real, oy: real, t: real, u: real)
    requires fx * ly - fy * lx != 0.0
    requires t * (fx * ly - fy * lx) == ox * ly - oy * lx && u * (fx * ly - fy * lx) == ox * fy - oy * fx
    ensures t * fx == ox + u * lx
  {
    var d := fx * ly - fy * lx;
    assert (ox * ly - oy * lx) * fx == ox * d + (ox * fy - oy * fx) * lx;
    Shuffle(t, fx, d, ox * ly - oy * lx);
    Shuffle(u, lx, d, ox * fy - oy * fx);
    Sums(t * fx, ox, u * lx, d);
    CancelFactor(t * fx, ox + u * lx, d);
  }

  lemma Component2(fx: real, fy: real, lx: real, ly: real, ox: real, oy: real, t: real, u: real)
    requires fx * ly - fy * lx != 0.0
    requires t * (fx * ly - fy * lx) == ox * ly - oy * lx && u * (fx * ly - fy * lx) == ox * fy - oy * fx
    ensures t * fy == oy + u * ly
  {
    var d := fx * ly - fy * lx;
    assert (ox * ly - oy * lx) * fy == oy * d + (ox * fy - oy * fx) * ly;
    Shuffle(t, fy, d, ox * ly - oy * lx);
    Shuffle(u, ly, d, ox * fy - oy * fx);
    Sums(t * fy, oy, u * ly, d);
    CancelFactor(t * fy, oy + u * ly, d);
  }

  lemma Shuffle(t: real, f: real, d: real, n: real)
    requires t * d == n
    ensures (t * f) * d == n * f
  {
    assert (t * f) * d == (t * d) * f;
  }

  lemma Sums(x: real, y: real, z: real, d: real)
    ensures (y + z) * d == y * d + z * d
  {
  }

  // ---------------------------------------------------------------- signed distances decide

  /** Signed distance times length is the cross product. */
  lemma DistanceTimesLength(norm: Norm, p: Point, start: Point, end: Point, length: real)
    requires length == norm(end.x - start.x, end.y - start.y) && length > 0.0
    ensures SignedDistance(norm, p, start, end) * length == Cross(Minus(end, start), Minus(p, start))
  {
    QuotientTimes(Cross(Minus(end, start), Minus(p, start)), length);
  }

  lemma CrossesAsDistances(a: Point, b: Point, start: Point, end: Point)
    ensures Cross(Minus(b, a), Minus(end, start))
         == Cross(Minus(end, start), Minus(a, start)) - Cross(Minus(end, start), Minus(b, start))
    ensures Cross(Minus(start, a), Minus(end, start)) == Cross(Minus(end, start), Minus(a, start))
  {
    CrossParts(b.x - a.x, b.y - a.y, end.x - start.x, end.y - start.y, a.x - start.x, a.y - start.y);
    CrossTurned(end.x - start.x, end.y - start.y, a.x - start.x, a.y - start.y);
    assert b.x - start.x == (b.x - a.x) + (a.x - start.x) && b.y - start.y == (b.y - a.y) + (a.y - start.y);
    assert start.x - a.x == -(a.x - start.x) && start.y - a.y == -(a.y - start.y);
  }

  lemma CrossParts(fx: real, fy: real, lx: real, ly: real, wx: real, wy: real)
    ensures fx * ly - fy * lx == (lx * wy - ly * wx) - (lx * (fy + wy) - ly * (fx + wx))
  {
  }

  lemma CrossTurned(lx: real, ly: real, wx: real, wy: real)
    ensures (-wx) * ly - (-wy) * lx == lx * wy - ly * wx
  {
  }

  /** With signed distances from before to behind the line, the first parameter is decided. */
  lemma FirstParameterIs(sa: real, sb: real, sign: real, length: real, d: real, n: real, t: real)
    requires (sign == 1.0 || sign == -1.0) && length > 0.0
    requires sa * sign < 0.0 <= sb * sign
    requires d == sa * length - sb * length && n == sa * length && t == n / d
    ensures d != 0.0 && B.Abs(d) == length * (sb * sign - sa * sign)
    ensures t == -(sa * sign) / (sb * sign - sa * sign) && 0.0 < t <= 1.0
  {
    var prev, cur := sa * sign, sb * sign;
    var depth := cur - prev;
    ProductPositive(length, depth);
    Differences(sa, sb, sign, length);
    assert d != 0.0;
    QuotientTimes(n, d);
    var q := -prev / depth;
    QuotientTimes(-prev, depth);
    assert q * depth == -prev;
    Ratio(q, depth, prev);
    SameRatio(sa, sb, sign, length, q);
    CancelFactor(t, q, d);
  }

  lemma Differences(sa: real, sb: real, sign: real, length: real)
    requires sign == 1.0 || sign == -1.0
    ensures (sa * length - sb * length) * sign == -(length * (sb * sign - sa * sign))
  {
  }

  lemma Ratio(q: real, depth: real, prev: real)
    requires depth > 0.0 && prev < 0.0 && -prev <= depth && q * depth == -prev
    ensures 0.0 < q <= 1.0
  {
    if q <= 0.0 { ProductNotNegative(-q, depth); }
    if q > 1.0 { ProductPositive(q - 1.0, depth); }
  }

  lemma SameRatio(sa: real, sb: real, sign: real, length: real, q: real)
    requires (sign == 1.0 || sign == -1.0) && q * (sb * sign - sa * sign) == -(sa * sign)
    ensures q * (sa * length - sb * length) == sa * length
  {
    if sign == 1.0 {
      assert q * (sb - sa) == -sa;
    } else {
      assert q * (sa - sb) == sa;
    }
    assert q * (sa * length - sb * length) == (q * (sa - sb)) * length;
  }

  /** A movement from before the line to behind it: the parameter along the movement is
      -prev / (cur - prev), always in (0, 1], and the parallel check compares the line's length
      times the depth of the crossing. */
  lemma {:induction false} CrossingParameters(norm: Norm, a: Point, b: Point, start: Point, end: Point, sign: real,
                                              prev: real, cur: real, length: real)
    requires (sign == 1.0 || sign == -1.0) && length == norm(end.x - start.x, end.y - start.y) && length >= 0.0
    requires prev == SignedDistance(norm, a, start, end) * sign && cur == SignedDistance(norm, b, start, end) * sign
    requires prev < 0.0 <= cur
    ensures Cross(Minus(b, a), Minus(end, start)) != 0.0
    ensures B.Abs(Cross(Minus(b, a), Minus(end, start))) == length * (cur - prev)
    ensures FirstParameter(a, b, start, end) == -prev / (cur - prev) && 0.0 < FirstParameter(a, b, start, end) <= 1.0
  {
    var sa, sb := SignedDistance(norm, a, start, end), SignedDistance(norm, b, start, end);
    assert length > 0.0;
    DistanceTimesLength(norm, a, start, end, length);
    DistanceTimesLength(norm, b, start, end, length);
    CrossesAsDistances(a, b, start, end);
    var d, n := Cross(Minus(b, a), Minus(end, start)), Cross(Minus(start, a), Minus(end, start));
    assert d == sa * length - sb * length && n == sa * length;
    Nonzero(sa, sb, sign, length);
    FirstParameterIs(sa, sb, sign, length, d, n, n / d);
  }

  lemma Nonzero(sa: real, sb: real, sign: real, length: real)
    requires (sign == 1.0 || sign == -1.0) && length > 0.0 && sa * sign < 0.0 <= sb * sign
    ensures sa * length - sb * length != 0.0
  {
    ZeroProduct(sa - sb, length);
    assert (sa - sb) * length == sa * length - sb * length;
  }

  /** So the intersection test comes down to where on the stop line the two lines cross, provided
      length times depth passes the parallel check. */
  lemma IntersectionReduces(norm: Norm, a: Point, b: Point, start: Point, end: Point, sign: real, prev: real, cur: real,
                            length: real, u: real)
    requires (sign == 1.0 || sign == -1.0) && length == norm(end.x - start.x, end.y - start.y) && length >= 0.0
    requires prev == SignedDistance(norm, a, start, end) * sign && cur == SignedDistance(norm, b, start, end) * sign
    requires prev < 0.0 <= cur && u == SecondParameter(a, b, start, end)
    ensures SegmentsIntersect(a, b, start, end) <==> length * (cur - prev) >= EPSILON && WithinSegment(u)
    ensures OnSegment(a, b, -prev / (cur - prev)) == OnSegment(start, end, u)
  {
    CrossingParameters(norm, a, b, start, end, sign, prev, cur, length);
    VerdictBy(a, b, start, end, length * (cur - prev), -prev / (cur - prev));
  }

  /** A crossing as deep as demanded passes the parallel check on every line that is long enough. */
  lemma {:induction false} DeepCrossingNotParallel(length: real, depth: real, tolerance: real)
    requires tolerance > 0.0 && depth >= 2.0 * tolerance && length * (2.0 * tolerance) >= EPSILON && length > 0.0
    ensures length * depth >= EPSILON
  {
    ProductNotNegative(length, depth - 2.0 * tolerance);
    assert length * (depth - 2.0 * tolerance) == length * depth - length * (2.0 * tolerance);
  }

  lemma VerdictBy(a: Point, b: Point, start: Point, end: Point, d: real, t: real)
    requires Cross(Minus(b, a), Minus(end, start)) != 0.0
    requires B.Abs(Cross(Minus(b, a), Minus(end, start))) == d && FirstParameter(a, b, start, end) == t
      && 0.0 < t <= 1.0
    ensures SegmentsIntersect(a, b, start, end) <==> d >= EPSILON && WithinSegment(SecondParameter(a, b, start, end))
    ensures OnSegment(a, b, t) == OnSegment(start, end, SecondParameter(a, b, start, end))
  {
    SamePoint(a, b, start, end);
  }

  lemma LineLong(norm: Norm, start: Point, end: Point)
    requires IsNorm(norm)
    ensures norm(end.x - start.x, end.y - start.y) > 0.0 <==> start != end
  {
    ZeroNorm(end.x - start.x, end.y - start.y, norm(end.x - start.x, end.y - start.y));
    assert start == end <==> end.x - start.x == 0.0 && end.y - start.y == 0.0;
  }

  // ---------------------------------------------------------------- the orientation of the line does not matter

  lemma NormEven(norm: Norm, x: real, y: real)
    requires IsNorm(norm)
    ensures norm(-x, -y) == norm(x, y)
  {
    var m, n := norm(-x, -y), norm(x, y);
    assert (-x) * (-x) == x * x && (-y) * (-y) == y * y;
    SquaresOrder(m, n);
    SquaresOrder(n, m);
  }

  lemma CrossSwapped(start: Point, end: Point, v: Point, p: Point)
    ensures Cross(Minus(start, end), v) == -Cross(Minus(end, start), v)
    ensures Cross(Minus(start, end), Minus(p, end)) == -Cross(Minus(end, start), Minus(p, start))
    ensures Cross(v, Minus(start, end)) == -Cross(v, Minus(end, start))
  {
    var lx, ly, wx, wy := end.x - start.x, end.y - start.y, p.x - start.x, p.y - start.y;
    SwapParts(lx, ly, wx, wy, v.x, v.y);
    assert start.x - end.x == -lx && start.y - end.y == -ly && p.x - end.x == wx - lx && p.y - end.y == wy - ly;
  }

  lemma SwapParts(lx: real, ly: real, wx: real, wy: real, vx: real, vy: real)
    ensures (-lx) * vy - (-ly) * vx == -(lx * vy - ly * vx)
    ensures (-lx) * (wy - ly) - (-ly) * (wx - lx) == -(lx * wy - ly * wx)
    ensures vx * (-ly) - vy * (-lx) == -(vx * ly - vy * lx)
  {
  }

  lemma NegativeQuotient(a: real, d: real)
    requires d != 0.0
    ensures -a / d == -(a / d) && -a / -d == a / d
  {
    QuotientTimes(a, d);
    QuotientTimes(-a, d);
    QuotientTimes(-a, -d);
    CancelFactor(-a / d, -(a / d), d);
    CancelFactor(-a / -d, a / d, d);
  }

  /** Swapping the end points of a stop line flips the sign and the signed distance together. */
  lemma {:induction false} SwapKeepsDistance(norm: Norm, direction: Point, p: Point, start: Point, end: Point)
    requires IsNorm(norm)
    ensures LegalSign(direction, end, start).Some? <==> LegalSign(direction, start, end).Some?
    ensures LegalSign(direction, start, end).Some? ==>
      LegalSign(direction, end, start).value == -LegalSign(direction, start, end).value
    ensures SignedDistance(norm, p, end, start) == -SignedDistance(norm, p, start, end)
  {
    CrossSwapped(start, end, direction, p);
    LineLong(norm, start, end);
    NormEven(norm, end.x - start.x, end.y - start.y);
    assert start.x - end.x == -(end.x - start.x) && start.y - end.y == -(end.y - start.y);
    if start != end {
      NegativeQuotient(Cross(Minus(end, start), Minus(p, start)), norm(end.x - start.x, end.y - start.y));
    }
  }

  /** And it never changes the verdict of the intersection test. */
  lemma SwapKeepsIntersection(a: Point, b: Point, start: Point, end: Point)
    ensures SegmentsIntersect(a, b, end, start) <==> SegmentsIntersect(a, b, start, end)
  {
    var f, l := Minus(b, a), Minus(end, start);
    var d := Cross(f, l);
    CrossSwapped(start, end, f, a);
    if d != 0.0 {
      OffsetsSwapped(a, b, start, end);
      var n1, n2 := Cross(Minus(start, a), l), Cross(Minus(start, a), f);
      NegativeQuotient(n1, d);
      SecondSwapped(n2, d);
    }
  }

  lemma OffsetsSwapped(a: Point, b: Point, start: Point, end: Point)
    ensures Cross(Minus(end, a), Minus(start, end)) == -Cross(Minus(start, a), Minus(end, start))
    ensures Cross(Minus(end, a), Minus(b, a))
      == Cross(Minus(start, a), Minus(b, a)) - Cross(Minus(b, a), Minus(end, start))
  {
    var ox, oy, lx, ly := start.x - a.x, start.y - a.y, end.x - start.x, end.y - start.y;
    OffsetParts(ox, oy, lx, ly, b.x - a.x, b.y - a.y);
    assert end.x - a.x == ox + lx && end.y - a.y == oy + ly && start.x - end.x == -lx && start.y - end.y == -ly;
  }

  lemma OffsetParts(ox: real, oy: real, lx: real, ly: real, fx: real, fy: real)
    ensures (ox + lx) * (-ly) - (oy + ly) * (-lx) == -(ox * ly - oy * lx)
    ensures (ox + lx) * fy - (oy + ly) * fx == (ox * fy - oy * fx) - (fx * ly - fy * lx)
  {
  }

  lemma SecondSwapped(n: real, d: real)
    requires d != 0.0
    ensures (n - d) / -d == 1.0 - n / d
  {
    QuotientTimes(n, d);
    QuotientTimes(n - d, -d);
    assert (1.0 - n / d) * -d == n - d;
    CancelFactor((n - d) / -d, 1.0 - n / d, -d);
  }

  // ---------------------------------------------------------------- legal travel increases the distance

  lemma QuotientDifference(x: real, y: real, l: real)
    requires l > 0.0
    ensures x / l - y / l == (x - y) / l
  {
  }

  lemma MovedCross(l: Point, p: Point, d: Point, s: real, start: Point)
    ensures Cross(l, Minus(Point(p.x + s * d.x, p.y + s * d.y), start)) - Cross(l, Minus(p, start)) == s * Cross(l, d)
  {
    MovedParts(l.x, l.y, p.x - start.x, p.y - start.y, d.x, d.y, s);
    assert p.x + s * d.x - start.x == (p.x - start.x) + s * d.x && p.y + s * d.y - start.y == (p.y - start.y) + s * d.y;
  }

  lemma MovedParts(lx: real, ly: real, wx: real, wy: real, dx: real, dy: real, s: real)
    ensures (lx * (wy + s * dy) - ly * (wx + s * dx)) - (lx * wy - ly * wx) == s * (lx * dy - ly * dx)
  {
  }

  /** Moving a positive way along the legal direction strictly increases the signed distance. */
  lemma LegalTravelIncreases(norm: Norm, direction: Point, p: Point, s: real, start: Point, end: Point)
    requires IsNorm(norm) && s > 0.0 && LegalSign(direction, start, end).Some?
    ensures var sign := LegalSign(direction, start, end).value;
      SignedDistance(norm, p, start, end) * sign
      < SignedDistance(norm, Point(p.x + s * direction.x, p.y + s * direction.y), start, end) * sign
  {
    var l := Minus(end, start);
    var length := norm(l.x, l.y);
    LineLong(norm, start, end);
    var moved := Point(p.x + s * direction.x, p.y + s * direction.y);
    MovedCross(l, p, direction, s, start);
    QuotientDifference(Cross(l, Minus(moved, start)), Cross(l, Minus(p, start)), length);
    PositiveGain(s, Cross(l, direction), length, LegalSign(direction, start, end).value);
  }

  lemma PositiveGain(s: real, side: real, length: real, sign: real)
    requires s > 0.0 && length > 0.0 && ((side > 0.0 && sign == 1.0) || (side < 0.0 && sign == -1.0))
    ensures (s * side) / length * sign > 0.0
  {
    var g := (s * side) / length;
    QuotientTimes(s * side, length);
    if sign == 1.0 {
      ProductPositive(s, side);
      if g <= 0.0 { ProductNotNegative(-g, length); }
    } else {
      ProductPositive(s, -side);
      if g >= 0.0 { ProductNotNegative(g, length); }
    }
  }
}
