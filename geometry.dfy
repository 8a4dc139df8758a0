/** CGPoint and CGRect in Vision's normalised image coordinates. */
module Geometry {
  import opened Numeric

  datatype Point = Point(x: real, y: real)

  /** A standardised CGRect: origin plus non-negative size. */
  datatype Rect = Rect(x: real, y: real, width: real, height: real) {
    function MidX(): real { x + width / 2.0 }
    function MidY(): real { y + height / 2.0 }
    function MaxX(): real { x + width }
    function MaxY(): real { y + height }
    function Center(): Point { Point(MidX(), MidY()) }
    function Area(): real { width * height }
  }

  /** A face bounding box as Vision reports it: a rectangle of positive area. */
  type Box = r: Rect | r.width > 0.0 && r.height > 0.0 witness Rect(0.0, 0.0, 1.0, 1.0)

  predicate InUnitSquare(p: Point)
  {
    0.0 <= p.x <= 1.0 && 0.0 <= p.y <= 1.0
  }

  /** Squared Euclidean distance; `sqrt(d) < 0.15` is compared as `d < 0.0225`. */
  function SquaredDistance(a: Point, b: Point): (d: real)
    ensures d >= 0.0
  {
    (a.x - b.x) * (a.x - b.x) + (a.y - b.y) * (a.y - b.y)
  }

  /** Length of the intersection of [lo1, hi1] and [lo2, hi2], 0 when they are disjoint. */
  function Overlap(lo1: real, hi1: real, lo2: real, hi2: real): (r: real)
    ensures r >= 0.0
    ensures lo1 <= hi1 ==> r <= hi1 - lo1
    ensures lo2 <= hi2 ==> r <= hi2 - lo2
  {
    Max(0.0, Min(hi1, hi2) - Max(lo1, lo2))
  }

  /** Area of `a.intersection(b)`; the null rectangle of disjoint boxes has area 0. */
  function IntersectionArea(a: Rect, b: Rect): real
  {
    Overlap(a.x, a.MaxX(), b.x, b.MaxX()) * Overlap(a.y, a.MaxY(), b.y, b.MaxY())
  }

  /** The intersection of two rectangles is no larger than either of them. */
  lemma IntersectionAreaBounds(a: Box, b: Box)
    ensures 0.0 <= IntersectionArea(a, b) <= a.Area()
    ensures IntersectionArea(a, b) <= b.Area()
    ensures a.Area() > 0.0 && b.Area() > 0.0
  {
    var ox := Overlap(a.x, a.MaxX(), b.x, b.MaxX());
    var oy := Overlap(a.y, a.MaxY(), b.y, b.MaxY());
    MulMonotone(ox, oy, a.width, a.height);
    MulMonotone(ox, oy, b.width, b.height);
    MulMonotone(0.0, 0.0, ox, oy);
    assert a.width * a.height > 0.0;
    assert b.width * b.height > 0.0;
  }

  /** Intersection over union of two face boxes. */
  function IoU(a: Box, b: Box): (r: real)
    ensures 0.0 <= r <= 1.0
    ensures IntersectionArea(a, b) == 0.0 ==> r == 0.0
  {
    IntersectionAreaBounds(a, b);
    var inter := IntersectionArea(a, b);
    var union := a.Area() + b.Area() - inter;
    QuotientInUnit(inter, union);
    inter / union
  }

  lemma IoUOfItself(a: Box)
    ensures IoU(a, a) == 1.0
  {
    assert Overlap(a.x, a.MaxX(), a.x, a.MaxX()) == a.width;
    assert Overlap(a.y, a.MaxY(), a.y, a.MaxY()) == a.height;
    IntersectionAreaBounds(a, a);
  }
}
