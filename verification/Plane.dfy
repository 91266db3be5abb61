/** Points and vectors of the plane (pkg/domain), and axis-parallel rectangles. */
module Plane {
  datatype Point = Point(x: real, y: real) {
    function Sub(o: Point): Point { Point(x - o.x, y - o.y) }
    function Add(o: Point): Point { Point(x + o.x, y + o.y) }
    function Scale(k: real): Point { Point(x * k, y * k) }
    function Cross(o: Point): real { x * o.y - y * o.x }
    function Dot(o: Point): real { x * o.x + y * o.y }
  }

  datatype Triangle = Triangle(a: Point, b: Point, c: Point)

  datatype Rect = Rect(minX: real, minY: real, maxX: real, maxY: real) {
    predicate Has(p: Point) { minX <= p.x <= maxX && minY <= p.y <= maxY }

    predicate Meets(o: Rect) { minX <= o.maxX && o.minX <= maxX && minY <= o.maxY && o.minY <= maxY }
  }

  lemma SharedPointMeets(a: Rect, b: Rect, p: Point)
    requires a.Has(p) && b.Has(p)
    ensures a.Meets(b)
  {}

  function Min(a: real, b: real): real { if a < b then a else b }
  function Max(a: real, b: real): real { if a > b then a else b }

  /** Square of the distance. */
  function Dist2(p: Point, q: Point): real { p.Sub(q).Dot(p.Sub(q)) }

  // ---- products, named so that proofs can treat them as they stand ----------------------------------

  function Mul(a: real, b: real): real { a * b }
  function Sq(a: real): real { a * a }

  lemma MulSign(a: real, b: real)
    ensures a >= 0.0 && b >= 0.0 ==> Mul(a, b) >= 0.0
    ensures a <= 0.0 && b >= 0.0 ==> Mul(a, b) <= 0.0
    ensures a >= 0.0 && b <= 0.0 ==> Mul(a, b) <= 0.0
    ensures a <= 0.0 && b <= 0.0 ==> Mul(a, b) >= 0.0
    ensures a > 0.0 && b > 0.0 ==> Mul(a, b) > 0.0
    ensures a < 0.0 && b > 0.0 ==> Mul(a, b) < 0.0
  {}

  lemma MulSub(a: real, b: real, k: real)
    ensures Mul(a - b, k) == Mul(a, k) - Mul(b, k)
  {}

  lemma MulNeg(a: real, k: real)
    ensures Mul(-a, k) == -Mul(a, k) && Mul(a, -k) == -Mul(a, k)
  {}

  lemma MulMonotone(a: real, b: real, k: real)
    requires a <= b
    ensures k >= 0.0 ==> Mul(a, k) <= Mul(b, k)
    ensures k <= 0.0 ==> Mul(a, k) >= Mul(b, k)
  {
    hide Mul;
    MulSub(b, a, k);
    MulSign(b - a, k);
  }

  lemma SqSign(a: real)
    ensures Sq(a) >= 0.0 && Sq(-a) == Sq(a)
    ensures a != 0.0 ==> Sq(a) > 0.0
  {
    SqIsMul(a);
    SqIsMul(-a);
    hide Sq, Mul;
    MulNeg(a, a);
    MulNeg(a, -a);
    MulSign(a, a);
    MulSign(-a, -a);
  }

  lemma SqIsMul(a: real)
    ensures Sq(a) == Mul(a, a)
  {}

  lemma SqMonotone(a: real, b: real)
    requires 0.0 <= a <= b
    ensures Sq(a) <= Sq(b)
  {
    MulMonotone(a, b, a);
    MulMonotone(a, b, b);
  }

  lemma Dist2Is(px: real, py: real, qx: real, qy: real)
    ensures Dist2(Point(px, py), Point(qx, qy)) == Sq(px - qx) + Sq(py - qy)
  {}
}
