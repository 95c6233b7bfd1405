/** Axis-aligned boxes and their overlap. */
module Boxes {

  function Max(a: real, b: real): real {
    if a >= b then a else b
  }

  function Min(a: real, b: real): real {
    if a <= b then a else b
  }

  function Abs(x: real): real {
    if x < 0.0 then -x else x
  }

  function Limit(x: real, low: real, high: real): real {
    Min(Max(x, low), high)
  }

  function Clamp01(v: real): (r: real)
    ensures 0.0 <= r <= 1.0
  {
    Min(Max(v, 0.0), 1.0)
  }

  datatype Box = Box(x1: real, y1: real, x2: real, y2: real) {
    function Width(): real { Max(x2 - x1, 0.0) }

    function Height(): real { Max(y2 - y1, 0.0) }

    function Area(): real { Width() * Height() }

    function CenterX(): real { (x1 + x2) / 2.0 }

    function CenterY(): real { (y1 + y2) / 2.0 }
  }

  function OverlapWidth(a: Box, b: Box): real {
    Max(Min(a.x2, b.x2) - Max(a.x1, b.x1), 0.0)
  }

  function OverlapHeight(a: Box, b: Box): real {
    Max(Min(a.y2, b.y2) - Max(a.y1, b.y1), 0.0)
  }

  function OverlapArea(a: Box, b: Box): real {
    OverlapWidth(a, b) * OverlapHeight(a, b)
  }

  function IntersectionOverUnion(a: Box, b: Box): real {
    var union := a.Area() + b.Area() - OverlapArea(a, b);
    if union <= 0.0 then 0.0 else OverlapArea(a, b) / union
  }

  lemma ProductGrows(a: real, b: real, c: real, d: real)
    requires 0.0 <= a <= c && 0.0 <= b <= d
    ensures 0.0 <= a * b <= c * d
  {
    assert a * b <= c * b by { assert (c - a) * b >= 0.0; }
    assert c * b <= c * d by { assert c * (d - b) >= 0.0; }
  }

  /** Overlap never exceeds either box. */
  lemma OverlapWithin(a: Box, b: Box)
    ensures 0.0 <= OverlapArea(a, b) <= a.Area()
    ensures OverlapArea(a, b) <= b.Area()
  {
    ProductGrows(OverlapWidth(a, b), OverlapHeight(a, b), a.Width(), a.Height());
    ProductGrows(OverlapWidth(a, b), OverlapHeight(a, b), b.Width(), b.Height());
  }

  lemma QuotientInUnit(p: real, q: real)
    requires 0.0 <= p <= q && 0.0 < q
    ensures 0.0 <= p / q <= 1.0
    ensures p / q == 1.0 ==> p == q
  {
    assert p / q * q == p;
  }

  /** The overlap ratio lies between 0 and 1, does not depend on the order of the boxes, and
      reaches 1 only for boxes that cover the same area completely. */
  lemma IouRange(a: Box, b: Box)
    ensures 0.0 <= IntersectionOverUnion(a, b) <= 1.0
    ensures IntersectionOverUnion(a, b) == IntersectionOverUnion(b, a)
    ensures IntersectionOverUnion(a, b) == 1.0 ==> OverlapArea(a, b) == a.Area() == b.Area()
  {
    OverlapWithin(a, b);
    var union := a.Area() + b.Area() - OverlapArea(a, b);
    assert OverlapArea(a, b) == OverlapArea(b, a);
    if union > 0.0 {
      QuotientInUnit(OverlapArea(a, b), union);
    }
  }
}
