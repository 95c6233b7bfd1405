/** Points, polygons and distances in the image plane. */
module Geometry {
  import opened Collections
  import opened Norms
  import B = Boxes

  datatype Point = Point(x: real, y: real)

  type Polygon = seq<Point>

  // ---------------------------------------------------------------- even-odd containment

  predicate Straddles(p: Point, a: Point, b: Point) {
    (b.y > p.y) != (a.y > p.y)
  }

  /** Where the line through a and b is level with p. */
  function CrossingX(p: Point, a: Point, b: Point): real {
    if a.y == b.y then 0.0 else (a.x - b.x) * (p.y - b.y) / (a.y - b.y) + b.x
  }

  /** The ray from p to the right crosses the edge. */
  predicate Hits(p: Point, a: Point, b: Point) {
    Straddles(p, a, b) && p.x < CrossingX(p, a, b)
  }

  predicate Xor(a: bool, b: bool) {
    a != b
  }

  /** Whether an edge counts. */
  type EdgeTest = (Point, Point) -> bool

  function Crosses(p: Point): EdgeTest {
    (a: Point, b: Point) => Hits(p, a, b)
  }

  /** Parity of the counting edges along a path. */
  function Along(hits: EdgeTest, path: seq<Point>): bool {
    if |path| < 2 then false
    else Xor(Along(hits, path[..|path| - 1]), hits(path[|path| - 2], path[|path| - 1]))
  }

  /** The path around a polygon, beginning with its closing edge. */
  function Around(polygon: Polygon): seq<Point> {
    if polygon == [] then [] else [polygon[|polygon| - 1]] + polygon
  }

  function Enclosed(hits: EdgeTest, polygon: Polygon): bool {
    Along(hits, Around(polygon))
  }

  function Inside(p: Point, polygon: Polygon): bool {
    Enclosed(Crosses(p), polygon)
  }

  ghost function Crossings(hits: EdgeTest, path: seq<Point>): nat {
    if |path| < 2 then 0
    else Crossings(hits, path[..|path| - 1]) + if hits(path[|path| - 2], path[|path| - 1]) then 1 else 0
  }

  lemma {:induction false} ParityOfCrossings(hits: EdgeTest, path: seq<Point>)
    ensures Along(hits, path) <==> Crossings(hits, path) % 2 == 1
  {
    if |path| >= 2 { ParityOfCrossings(hits, path[..|path| - 1]); }
  }

  /** Inside means that an odd number of edges is crossed. */
  lemma InsideIsOdd(p: Point, polygon: Polygon)
    ensures Inside(p, polygon) <==> Crossings(Crosses(p), Around(polygon)) % 2 == 1
  {
    ParityOfCrossings(Crosses(p), Around(polygon));
  }

  lemma Quotient(a: real, b: real, d: real)
    requires d != 0.0
    ensures a / d - b / d == (a - b) / d
  {
  }

  /** The level crossing does not depend on the direction of the edge. */
  lemma CrossingSymmetric(p: Point, a: Point, b: Point)
    ensures CrossingX(p, a, b) == CrossingX(p, b, a)
  {
    if a.y != b.y {
      var d := a.y - b.y;
      var u, v := (a.x - b.x) * (p.y - b.y), (b.x - a.x) * (p.y - a.y);
      OppositeQuotient(v, d);
      assert -v == (a.x - b.x) * (p.y - a.y);
      assert u - (-v) == (a.x - b.x) * d;
      Quotient(u, -v, d);
      Cancel(a.x - b.x, d);
      assert b.y - a.y == -d;
    }
  }

  lemma OppositeQuotient(v: real, d: real)
    requires d != 0.0
    ensures v / -d == -v / d
  {
    assert (v / -d) * -d == v;
    assert (-v / d) * d == -v;
  }

  lemma Cancel(a: real, d: real)
    requires d != 0.0
    ensures (a * d) / d == a
  {
  }

  lemma HitsSymmetric(p: Point, a: Point, b: Point)
    ensures Hits(p, a, b) == Hits(p, b, a)
  {
    CrossingSymmetric(p, a, b);
  }

  ghost predicate Symmetric(hits: EdgeTest) {
    forall a, b :: hits(a, b) == hits(b, a)
  }

  /** Parity of a path that passes through c. */
  lemma {:induction false} AlongThrough(hits: EdgeTest, s: seq<Point>, c: Point, t: seq<Point>)
    ensures Along(hits, s + [c] + t) == Xor(Along(hits, s + [c]), Along(hits, [c] + t))
  {
    var path := s + [c] + t;
    if t == [] {
      assert path == s + [c] && [c] + t == [c];
    } else {
      var front := t[..|t| - 1];
      AlongThrough(hits, s, c, front);
      assert path[..|path| - 1] == s + [c] + front;
      assert ([c] + t)[..|t|] == [c] + front;
      assert path[|path| - 2] == ([c] + t)[|t| - 1];
    }
  }

  lemma Rotated(hits: EdgeTest, polygon: Polygon, k: nat)
    requires k <= |polygon|
    ensures Enclosed(hits, polygon[k..] + polygon[..k]) == Enclosed(hits, polygon)
  {
    var u, v := polygon[..k], polygon[k..];
    assert polygon == u + v;
    if u == [] || v == [] {
      assert v + u == polygon;
    } else {
      HalfTurns(hits, u, v);
      HalfTurns(hits, v, u);
    }
  }

  /** Around a polygon of two halves: first one, then the other. */
  lemma HalfTurns(hits: EdgeTest, u: Polygon, v: Polygon)
    requires u != [] && v != []
    ensures Enclosed(hits, u + v) == Xor(Along(hits, [v[|v| - 1]] + u), Along(hits, [u[|u| - 1]] + v))
  {
    TwoHalves(u, v);
    AlongThrough(hits, [v[|v| - 1]] + u[..|u| - 1], u[|u| - 1], v);
  }

  lemma TwoHalves(u: Polygon, v: Polygon)
    requires u != [] && v != []
    ensures Around(u + v) == ([v[|v| - 1]] + u[..|u| - 1]) + [u[|u| - 1]] + v
    ensures [v[|v| - 1]] + u == ([v[|v| - 1]] + u[..|u| - 1]) + [u[|u| - 1]]
  {
    var front, last := u[..|u| - 1], u[|u| - 1];
    assert u == front + [last];
    Regroup([v[|v| - 1]], front, [last]);
    Regroup([v[|v| - 1]], u, v);
    assert (u + v)[|u + v| - 1] == v[|v| - 1];
  }

  function Reverse(s: seq<Point>): seq<Point> {
    if s == [] then [] else [s[|s| - 1]] + Reverse(s[..|s| - 1])
  }

  lemma {:induction false} ReverseEnds(s: seq<Point>)
    requires s != []
    ensures |Reverse(s)| == |s| && Reverse(s)[|s| - 1] == s[0] && Reverse(s)[0] == s[|s| - 1]
  {
    if |s| > 1 { ReverseEnds(s[..|s| - 1]); }
  }

  lemma {:induction false} AlongReversed(hits: EdgeTest, path: seq<Point>)
    requires Symmetric(hits)
    ensures Along(hits, Reverse(path)) == Along(hits, path)
  {
    if |path| >= 2 {
      var front, last := path[..|path| - 1], path[|path| - 1];
      AlongReversed(hits, front);
      ReverseEnds(front);
      var r := Reverse(front);
      assert [last] + r == [last] + [r[0]] + r[1..] && r == [r[0]] + r[1..];
      AlongThrough(hits, [last], r[0], r[1..]);
      assert ([last] + [r[0]])[..1] == [last];
    }
  }

  lemma Reversed(hits: EdgeTest, polygon: Polygon)
    requires Symmetric(hits)
    ensures Enclosed(hits, Reverse(polygon)) == Enclosed(hits, polygon)
  {
    if polygon != [] {
      var first, last := polygon[0], polygon[|polygon| - 1];
      ReverseEnds(polygon);
      ReverseSnoc(polygon, first);
      AlongReversed(hits, polygon + [first]);
      LastEdge(hits, polygon, first);
      assert polygon == [first] + polygon[1..];
      FirstEdge(hits, last, first, polygon[1..]);
    }
  }

  lemma ReverseSnoc(s: seq<Point>, c: Point)
    ensures Reverse(s + [c]) == [c] + Reverse(s)
  {
    assert (s + [c])[..|s|] == s;
  }

  lemma ChordCut(hits: EdgeTest, polygon: Polygon, i: nat, j: nat)
    requires Symmetric(hits) && i < j < |polygon|
    ensures Enclosed(hits, polygon)
      == Xor(Enclosed(hits, polygon[i..j + 1]), Enclosed(hits, polygon[j..] + polygon[..i + 1]))
  {
    var a, b := polygon[i], polygon[j];
    var m, n := polygon[i + 1..j], polygon[j + 1..] + polygon[..i];
    Rotated(hits, polygon, i);
    Slices(polygon, i, j);
    ChordCutsHalves(hits, a, m, b, n);
  }

  lemma Slices(s: seq<Point>, i: nat, j: nat)
    requires i < j < |s|
    ensures s[i..] + s[..i] == ([s[i]] + s[i + 1..j]) + ([s[j]] + (s[j + 1..] + s[..i]))
    ensures s[i..j + 1] == [s[i]] + s[i + 1..j] + [s[j]]
    ensures s[j..] + s[..i + 1] == [s[j]] + (s[j + 1..] + s[..i]) + [s[i]]
  {
    assert s[i..] == [s[i]] + s[i + 1..j] + [s[j]] + s[j + 1..];
  }

  lemma ChordCutsHalves(hits: EdgeTest, a: Point, m: seq<Point>, b: Point, n: seq<Point>)
    requires Symmetric(hits)
    ensures Enclosed(hits, ([a] + m) + ([b] + n)) == Xor(Enclosed(hits, [a] + m + [b]), Enclosed(hits, [b] + n + [a]))
  {
    Closed(hits, a, m, b);
    Closed(hits, b, n, a);
    HalfTurns(hits, [a] + m, [b] + n);
    var s, t := [a] + m, [b] + n;
    Bend(hits, t[|t| - 1], a, m, b, s[|s| - 1], n);
  }

  /** Around the part between a and b: the chord, then the path. */
  lemma Closed(hits: EdgeTest, a: Point, m: seq<Point>, b: Point)
    ensures Enclosed(hits, [a] + m + [b]) == Xor(hits(b, a), Along(hits, [a] + m + [b]))
  {
    assert Around([a] + m + [b]) == [b] + [a] + (m + [b]);
    assert [a] + (m + [b]) == [a] + m + [b];
    AlongThrough(hits, [b], a, m + [b]);
    assert ([b] + [a])[..1] == [b];
  }

  /** The same edges, split at the other vertex. */
  lemma Bend(hits: EdgeTest, y: Point, a: Point, m: seq<Point>, b: Point, x: Point, n: seq<Point>)
    requires x == ([a] + m)[|m|] && y == ([b] + n)[|n|]
    ensures Xor(Along(hits, [y] + ([a] + m)), Along(hits, [x] + ([b] + n)))
         == Xor(Along(hits, [a] + m + [b]), Along(hits, [b] + n + [a]))
  {
    LastEdge(hits, [a] + m, b);
    LastEdge(hits, [b] + n, a);
    FirstEdge(hits, y, a, m);
    FirstEdge(hits, x, b, n);
  }

  lemma LastEdge(hits: EdgeTest, s: seq<Point>, c: Point)
    requires s != []
    ensures Along(hits, s + [c]) == Xor(Along(hits, s), hits(s[|s| - 1], c))
  {
    assert (s + [c])[..|s|] == s;
  }

  lemma FirstEdge(hits: EdgeTest, c: Point, a: Point, m: seq<Point>)
    ensures Along(hits, [c] + ([a] + m)) == Xor(hits(c, a), Along(hits, [a] + m))
  {
    assert [c] + ([a] + m) == [c] + [a] + m;
    AlongThrough(hits, [c], a, m);
    assert ([c] + [a])[..1] == [c];
  }

  lemma CrossesSymmetric(p: Point)
    ensures Symmetric(Crosses(p))
  {
    forall a, b ensures Hits(p, a, b) == Hits(p, b, a) { HitsSymmetric(p, a, b); }
  }

  /** Starting the vertex list elsewhere does not matter. */
  lemma RotationKeepsInside(p: Point, polygon: Polygon, k: nat)
    requires k <= |polygon|
    ensures Inside(p, polygon[k..] + polygon[..k]) == Inside(p, polygon)
  {
    Rotated(Crosses(p), polygon, k);
  }

  /** Nor does the direction of the vertex list. */
  lemma ReversalKeepsInside(p: Point, polygon: Polygon)
    ensures Inside(p, Reverse(polygon)) == Inside(p, polygon)
  {
    CrossesSymmetric(p);
    Reversed(Crosses(p), polygon);
  }

  /** Cutting a polygon along the chord between two of its vertices: a point is inside the whole
      exactly when it is inside one part and not the other. */
  lemma ChordCuts(p: Point, polygon: Polygon, i: nat, j: nat)
    requires i < j < |polygon|
    ensures Inside(p, polygon) == Xor(Inside(p, polygon[i..j + 1]), Inside(p, polygon[j..] + polygon[..i + 1]))
  {
    CrossesSymmetric(p);
    ChordCut(Crosses(p), polygon, i, j);
  }

  /** One edge; the guard against dividing by zero is never needed. */
  method CrossesEdge(p: Point, previous: Point, current: Point) returns (hit: bool)
    ensures hit == Hits(p, previous, current)
  {
    hit := false;
    if Straddles(p, previous, current) {
      var denominator := previous.y - current.y;
      if denominator == 0.0 {
        assert false;
      } else {
        var crossing := (previous.x - current.x) * (p.y - current.y) / denominator + current.x;
        hit := p.x < crossing;
      }
    }
  }

  /** The containment test. */
  method PointInPolygon(p: Point, polygon: Polygon) returns (inside: bool)
    ensures inside == Inside(p, polygon)
  {
    inside := false;
    if polygon == [] {
      return;
    }
    var previousIndex := |polygon| - 1;
    var path := Around(polygon);
    for i := 0 to |polygon|
      invariant previousIndex == (if i == 0 then |polygon| - 1 else i - 1)
      invariant inside == Along(Crosses(p), path[..i + 1])
    {
      var current, previous := polygon[i], polygon[previousIndex];
      assert path[..i + 2][..i + 1] == path[..i + 1];
      assert path[i] == previous && path[i + 1] == current;
      var hit := CrossesEdge(p, previous, current);
      if hit {
        inside := !inside;
      }
      previousIndex := i;
    }
    assert path[..|polygon| + 1] == path;
  }

  // ---------------------------------------------------------------- distance to a segment

  /** The point at parameter t between a and b. */
  function OnSegment(a: Point, b: Point, t: real): Point {
    Point(a.x + t * (b.x - a.x), a.y + t * (b.y - a.y))
  }

  function Minus(a: Point, b: Point): Point {
    Point(a.x - b.x, a.y - b.y)
  }

  function Scalar(u: Point, v: Point): real {
    u.x * v.x + u.y * v.y
  }

  function LengthSquared(a: Point, b: Point): real {
    Scalar(Minus(b, a), Minus(b, a))
  }

  /** Where the foot of the perpendicular lies, limited to the segment. */
  function Projection(p: Point, a: Point, b: Point): real {
    var l := LengthSquared(a, b);
    if l == 0.0 then 0.0
    else B.Clamp01(Dot(p, a, b) / l)
  }

  function Dot(p: Point, a: Point, b: Point): real {
    Scalar(Minus(p, a), Minus(b, a))
  }

  function Distance(norm: Norm, p: Point, q: Point): real {
    norm(p.x - q.x, p.y - q.y)
  }

  function SegmentDistance(norm: Norm, p: Point, a: Point, b: Point): real {
    if LengthSquared(a, b) == 0.0 then Distance(norm, p, a)
    else Distance(norm, p, OnSegment(a, b, Projection(p, a, b)))
  }

  function SquaredDistance(p: Point, q: Point): real {
    Scalar(Minus(p, q), Minus(p, q))
  }

  lemma MultipliedOut(wx: real, wy: real, sx: real, sy: real, t: real, dot: real, l: real)
    requires dot == wx * sx + wy * sy && l == sx * sx + sy * sy
    ensures (wx - t * sx) * (wx - t * sx) + (wy - t * sy) * (wy - t * sy)
      == wx * wx + wy * wy - 2.0 * (t * dot) + t * t * l
  {
    SquareOfDifference(wx, t * sx);
    SquareOfDifference(wy, t * sy);
    Factors(t, wx, wy, sx, sy, dot, l);
  }

  function MinusScaled(w: Point, t: real, s: Point): Point {
    Point(w.x - t * s.x, w.y - t * s.y)
  }

  lemma VectorExpanded(w: Point, s: Point, t: real)
    ensures var d := MinusScaled(w, t, s);
      Scalar(d, d) == Scalar(w, w) - 2.0 * (t * Scalar(w, s)) + t * t * Scalar(s, s)
  {
    MultipliedOut(w.x, w.y, s.x, s.y, t, Scalar(w, s), Scalar(s, s));
  }

  lemma MinusOnSegment(p: Point, a: Point, b: Point, t: real)
    ensures Minus(p, OnSegment(a, b, t)) == MinusScaled(Minus(p, a), t, Minus(b, a))
  {
    Shifted(p.x, a.x, t, b.x - a.x);
    Shifted(p.y, a.y, t, b.y - a.y);
  }

  lemma Shifted(p: real, a: real, t: real, d: real)
    ensures p - (a + t * d) == (p - a) - t * d
  {
  }

  /** Squared distance along the segment as a polynomial in the parameter. */
  lemma Expanded(p: Point, a: Point, b: Point, t: real, w: Point, s: Point)
    requires w == Minus(p, a) && s == Minus(b, a)
    ensures SquaredDistance(p, OnSegment(a, b, t)) == Scalar(w, w) - 2.0 * (t * Scalar(w, s)) + t * t * Scalar(s, s)
  {
    VectorExpanded(w, s, t);
    MinusOnSegment(p, a, b, t);
  }

  lemma SquareOfDifference(u: real, v: real)
    ensures (u - v) * (u - v) == u * u - 2.0 * (u * v) + v * v
  {
  }

  lemma Factors(t: real, wx: real, wy: real, sx: real, sy: real, dot: real, l: real)
    requires dot == wx * sx + wy * sy && l == sx * sx + sy * sy
    ensures wx * (t * sx) + wy * (t * sy) == t * dot
    ensures (t * sx) * (t * sx) + (t * sy) * (t * sy) == t * t * l
  {
  }

  /** A parabola with its vertex at q, restricted to the unit interval, is lowest at the clamped vertex. */
  lemma ClampedVertexLowest(l: real, q: real, t: real, dot: real)
    requires l > 0.0 && 0.0 <= t <= 1.0 && q * l == dot
    ensures var c := B.Clamp01(q); c * c * l - 2.0 * (c * dot) <= t * t * l - 2.0 * (t * dot)
  {
    var c := B.Clamp01(q);
    GapNotNegative(q, t, c);
    ProductNotNegative((t - c) * ((t - q) + (c - q)), l);
    GapIs(l, q, t, c, dot);
  }

  lemma GapNotNegative(q: real, t: real, c: real)
    requires 0.0 <= t <= 1.0 && c == B.Clamp01(q)
    ensures (t - c) * ((t - q) + (c - q)) >= 0.0
  {
    if q < 0.0 {
      ProductNotNegative(t, t - q - q);
    } else if q > 1.0 {
      ProductNotNegative(1.0 - t, q - t + (q - 1.0));
      assert (1.0 - t) * (q - t + (q - 1.0)) == (t - c) * ((t - q) + (c - q));
    } else {
      SquareNotNegative(t - q);
    }
  }

  lemma GapIs(l: real, q: real, t: real, c: real, dot: real)
    requires q * l == dot
    ensures (t - c) * ((t - q) + (c - q)) * l == (t * t * l - 2.0 * (t * dot)) - (c * c * l - 2.0 * (c * dot))
  {
    assert (t - c) * ((t - q) + (c - q)) == t * t - c * c - 2.0 * (t - c) * q;
    assert (t * t - c * c - 2.0 * (t - c) * q) * l == t * t * l - c * c * l - 2.0 * (t - c) * (q * l);
  }

  lemma LengthPositive(a: Point, b: Point)
    ensures LengthSquared(a, b) >= 0.0
    ensures LengthSquared(a, b) == 0.0 <==> a == b
  {
    SquareNotNegative(b.x - a.x);
    SquareNotNegative(b.y - a.y);
    ZeroProduct(b.x - a.x, b.x - a.x);
    ZeroProduct(b.y - a.y, b.y - a.y);
  }

  lemma SquaredNearest(p: Point, a: Point, b: Point, t: real)
    requires 0.0 <= t <= 1.0 && LengthSquared(a, b) > 0.0
    ensures SquaredDistance(p, OnSegment(a, b, Projection(p, a, b))) <= SquaredDistance(p, OnSegment(a, b, t))
  {
    var w, s := Minus(p, a), Minus(b, a);
    Expanded(p, a, b, t, w, s);
    Expanded(p, a, b, Projection(p, a, b), w, s);
    Lowest(Scalar(w, w), Scalar(w, s), Scalar(s, s), t, Projection(p, a, b));
  }

  lemma Lowest(w: real, dot: real, l: real, t: real, c: real)
    requires l > 0.0 && 0.0 <= t <= 1.0 && c == B.Clamp01(dot / l)
    ensures w - 2.0 * (c * dot) + c * c * l <= w - 2.0 * (t * dot) + t * t * l
  {
    VertexOf(dot, l);
    ClampedVertexLowest(l, dot / l, t, dot);
  }

  lemma VertexOf(dot: real, l: real)
    requires l > 0.0
    ensures (dot / l) * l == dot
  {
  }

  lemma NearestOfTwo(norm: Norm, p: Point, a: Point, b: Point, t: real, near: Point, far: Point)
    requires IsNorm(norm) && 0.0 <= t <= 1.0 && LengthSquared(a, b) > 0.0
    requires near == OnSegment(a, b, Projection(p, a, b)) && far == OnSegment(a, b, t)
    ensures Distance(norm, p, near) <= Distance(norm, p, far)
  {
    SquaredNearest(p, a, b, t);
    NormsOrder(norm, p, near, far);
  }

  lemma OnPoint(a: Point, t: real)
    ensures OnSegment(a, a, t) == a
  {
  }

  /** No point of the segment is nearer than the clamped projection. */
  lemma {:induction false} ProjectionNearest(norm: Norm, p: Point, a: Point, b: Point, t: real)
    requires IsNorm(norm) && 0.0 <= t <= 1.0
    ensures SegmentDistance(norm, p, a, b) <= Distance(norm, p, OnSegment(a, b, t))
  {
    if LengthSquared(a, b) > 0.0 {
      NearestOfTwo(norm, p, a, b, t, OnSegment(a, b, Projection(p, a, b)), OnSegment(a, b, t));
    } else {
      LengthPositive(a, b);
      OnPoint(a, t);
    }
  }

  lemma NormsOrder(norm: Norm, p: Point, q: Point, r: Point)
    requires IsNorm(norm) && SquaredDistance(p, q) <= SquaredDistance(p, r)
    ensures Distance(norm, p, q) <= Distance(norm, p, r)
  {
    SquaresOrder(Distance(norm, p, q), Distance(norm, p, r));
  }

  // ---------------------------------------------------------------- distance to a polygon

  function EdgeEnd(polygon: Polygon, i: nat): Point
    requires i < |polygon|
  {
    polygon[if i + 1 == |polygon| then 0 else i + 1]
  }

  function EdgeDistances(norm: Norm, p: Point, polygon: Polygon): seq<real> {
    seq(|polygon|, i requires 0 <= i < |polygon| => SegmentDistance(norm, p, polygon[i], EdgeEnd(polygon, i)))
  }

  function Minimum(ds: seq<real>): real
    requires ds != []
  {
    if |ds| == 1 then ds[0]
    else
      var front := Minimum(ds[..|ds| - 1]);
      if ds[|ds| - 1] < front then ds[|ds| - 1] else front
  }

  lemma {:induction false} MinimumLowest(ds: seq<real>, i: nat)
    requires i < |ds|
    ensures Minimum(ds) <= ds[i]
  {
    if |ds| > 1 && i < |ds| - 1 {
      MinimumLowest(ds[..|ds| - 1], i);
    }
  }

  lemma {:induction false} MinimumReached(ds: seq<real>) returns (i: nat)
    requires ds != []
    ensures i < |ds| && ds[i] == Minimum(ds)
  {
    i := |ds| - 1;
    if |ds| > 1 && Minimum(ds) != ds[i] {
      i := MinimumReached(ds[..|ds| - 1]);
    }
  }

  datatype Measured = TooFewPoints | Measured(distance: real)

  function EdgeDistance(norm: Norm, p: Point, polygon: Polygon): Measured {
    if |polygon| < 3 then TooFewPoints else Measured.Measured(Minimum(EdgeDistances(norm, p, polygon)))
  }

  lemma Wraps(i: nat, n: nat)
    requires i < n
    ensures (i + 1) % n == if i + 1 == n then 0 else i + 1
  {
  }

  method PointToPolygonEdgeDistance(norm: Norm, p: Point, polygon: Polygon) returns (r: Measured)
    ensures r == EdgeDistance(norm, p, polygon)
  {
    if |polygon| < 3 {
      return TooFewPoints;
    }
    var distances := [];
    for i := 0 to |polygon|
      invariant |distances| == i && distances == EdgeDistances(norm, p, polygon)[..i]
    {
      Wraps(i, |polygon|);
      var end := polygon[(i + 1) % |polygon|];
      distances := distances + [SegmentDistance(norm, p, polygon[i], end)];
    }
    assert distances == EdgeDistances(norm, p, polygon);
    r := Measured.Measured(Minimum(distances));
  }

  /** No point of any edge is nearer than the reported distance, and some point is that near. */
  lemma EdgeDistanceNearest(norm: Norm, p: Point, polygon: Polygon)
    requires IsNorm(norm) && |polygon| >= 3
    ensures var d := EdgeDistance(norm, p, polygon).distance;
      && (forall i: nat, t: real | i < |polygon| && 0.0 <= t <= 1.0 ::
            d <= Distance(norm, p, OnSegment(polygon[i], EdgeEnd(polygon, i), t)))
      && exists i: nat, t: real :: i < |polygon| && 0.0 <= t <= 1.0
           && d == Distance(norm, p, OnSegment(polygon[i], EdgeEnd(polygon, i), t))
  {
    var ds := EdgeDistances(norm, p, polygon);
    var d := Minimum(ds);
    forall i: nat, t: real | i < |polygon| && 0.0 <= t <= 1.0
      ensures d <= Distance(norm, p, OnSegment(polygon[i], EdgeEnd(polygon, i), t))
    {
      ProjectionNearest(norm, p, polygon[i], EdgeEnd(polygon, i), t);
      MinimumLowest(ds, i);
    }
    var i := MinimumReached(ds);
    var a, b := polygon[i], EdgeEnd(polygon, i);
    var t := Projection(p, a, b);
    assert OnSegment(a, b, 0.0) == a;
    assert d == Distance(norm, p, OnSegment(a, b, t));
  }

  // ---------------------------------------------------------------- pixels

  /** Python's rounding: to the nearest integer, ties to the even one. */
  function Round(x: real): int {
    var low := x.Floor;
    var rest := x - low as real;
    if rest < 0.5 then low
    else if rest > 0.5 then low + 1
    else if low % 2 == 0 then low else low + 1
  }

  function ToPixel(p: Point, width: int, height: int): Point {
    Point(Round(p.x * (width - 1) as real) as real, Round(p.y * (height - 1) as real) as real)
  }

  function ToPixels(polygon: Polygon, width: int, height: int): Polygon {
    seq(|polygon|, i requires 0 <= i < |polygon| => ToPixel(polygon[i], width, height))
  }
}
