/** The signed distance of a point to a polygon's boundary (pointToPolygonDist in internal/geo/polylabel.go), and
    that it changes by no more than one moves; this is what bounds a cell of the label search. */
module LabelDistances {
  import opened Plane
  import opened EvenOdd
  import opened Segments
  import opened Polygons
  import opened Boundaries

  type Root = real -> real

  /** Square roots, as far as they matter here. */
  ghost predicate IsRoot(root: Root) {
    forall x: real {:trigger root(x)} :: x >= 0.0 ==> root(x) >= 0.0 && Sq(root(x)) == x
  }

  function Length(root: Root, p: Point, q: Point): real { root(Dist2(p, q)) }

  // ---- lengths ----------------------------------------------------------------------------------------------

  lemma SqLess(a: real, b: real)
    requires 0.0 <= a < b
    ensures Sq(a) < Sq(b)
  {
    SqIsMul(a);
    SqIsMul(b);
    hide Sq, Mul;
    MulMonotone(a, b, a);
    MulSub(b, a, b);
    MulSign(b - a, b);
    MulTurned(a, b);
  }

  lemma RootAtMost(root: Root, x: real, y: real)
    requires IsRoot(root) && 0.0 <= x && 0.0 <= y && x <= Sq(y)
    ensures root(x) <= y
  {
    hide Sq;
    if root(x) > y { SqLess(y, root(x)); }
  }

  lemma RootOfSquare(root: Root, y: real)
    requires IsRoot(root) && y >= 0.0
    ensures root(Sq(y)) == y
  {
    SqSign(y);
    hide Sq;
    RootAtMost(root, Sq(y), y);
    if root(Sq(y)) < y { SqLess(root(Sq(y)), y); }
  }

  lemma Dist2Sign(p: Point, q: Point)
    ensures Dist2(p, q) >= 0.0 && Dist2(p, q) == Dist2(q, p)
  {
    Dist2Is(p.x, p.y, q.x, q.y);
    Dist2Is(q.x, q.y, p.x, p.y);
    hide Dist2, Sq;
    SqSign(p.x - q.x);
    SqSign(p.y - q.y);
    assert -(p.x - q.x) == q.x - p.x && -(p.y - q.y) == q.y - p.y;
  }

  lemma LengthSign(root: Root, p: Point, q: Point)
    requires IsRoot(root)
    ensures Length(root, p, q) >= 0.0 && Sq(Length(root, p, q)) == Dist2(p, q) && Length(root, p, q) == Length(root, q, p)
  {
    Dist2Sign(p, q);
    hide Sq, Dist2;
  }

  /** Cauchy and Schwarz in the plane. */
  lemma Cauchy(a: real, b: real, c: real, d: real)
    ensures Sq(a * c + b * d) <= (a * a + b * b) * (c * c + d * d)
  {
    assert (a * a + b * b) * (c * c + d * d) == Sq(a * c + b * d) + Sq(a * d - b * c);
    SqSign(a * d - b * c);
  }

  lemma SqSum(a: real, b: real)
    ensures Sq(a + b) == Sq(a) + 2.0 * Mul(a, b) + Sq(b) && Sq(Mul(a, b)) == Mul(Sq(a), Sq(b))
  {
    assert Sq(Mul(a, b)) == (a * b) * (a * b) == (a * a) * (b * b);
  }

  lemma AtMostBySquares(x: real, y: real)
    requires y >= 0.0 && Sq(x) <= Sq(y)
    ensures x <= y
  {
    hide Sq;
    if x > y { SqLess(y, x); }
  }

  /** From sums of squares to the triangle inequality: u is the product of the two steps. */
  lemma Detour(root: Root, a: real, b: real, c: real, u: real)
    requires IsRoot(root) && a >= 0.0 && b >= 0.0 && c >= 0.0 && c == a + 2.0 * u + b && Sq(u) <= Mul(a, b)
    ensures root(c) <= root(a) + root(b)
  {
    var ra, rb := root(a), root(b);
    SqSum(ra, rb);
    MulSign(ra, rb);
    hide Sq, Mul;
    AtMostBySquares(u, Mul(ra, rb));
    RootAtMost(root, c, ra + rb);
  }

  lemma TriangleInequality(root: Root, p: Point, q: Point, r: Point)
    requires IsRoot(root)
    ensures Length(root, p, r) <= Length(root, p, q) + Length(root, q, r)
  {
    var a, b, c, d := p.x - q.x, p.y - q.y, q.x - r.x, q.y - r.y;
    var u := a * c + b * d;
    Dist2Is(p.x, p.y, q.x, q.y);
    Dist2Is(q.x, q.y, r.x, r.y);
    Dist2Is(p.x, p.y, r.x, r.y);
    Cauchy(a, b, c, d);
    Dist2Sign(p, q);
    Dist2Sign(q, r);
    Dist2Sign(p, r);
    TwoSteps(a, b, c, d);
    assert p.x - r.x == a + c && p.y - r.y == b + d;
    hide Dist2, Sq, Mul;
    Detour(root, Dist2(p, q), Dist2(q, r), Dist2(p, r), u);
  }

  lemma TwoSteps(a: real, b: real, c: real, d: real)
    ensures Sq(a + c) + Sq(b + d) == Sq(a) + Sq(b) + 2.0 * (a * c + b * d) + (Sq(c) + Sq(d))
    ensures Mul(Sq(a) + Sq(b), Sq(c) + Sq(d)) == (a * a + b * b) * (c * c + d * d)
  {}

  /** A point of a segment divides its length. */
  lemma Divided(root: Root, p: Point, q: Point, r: Point)
    requires IsRoot(root) && OnSegment(r, p, q)
    ensures Length(root, p, r) + Length(root, r, q) == Length(root, p, q)
  {
    var s :| 0.0 <= s <= 1.0 && r == On(p, q, s);
    var l := Length(root, p, q);
    LengthSign(root, p, q);
    Parts(p, q, s);
    SqSum(s, l);
    SqSum(1.0 - s, l);
    MulSign(s, l);
    MulSign(1.0 - s, l);
    hide Sq, Dist2, On;
    RootOfSquare(root, Mul(s, l));
    RootOfSquare(root, Mul(1.0 - s, l));
    assert Mul(s, l) + Mul(1.0 - s, l) == l;
  }

  lemma Parts(p: Point, q: Point, s: real)
    ensures Dist2(p, On(p, q, s)) == Mul(Sq(s), Dist2(p, q))
    ensures Dist2(On(p, q, s), q) == Mul(Sq(1.0 - s), Dist2(p, q))
  {
    var dx, dy := q.x - p.x, q.y - p.y;
    assert Dist2(p, On(p, q, s)) == (dx * s) * (dx * s) + (dy * s) * (dy * s);
    assert Dist2(On(p, q, s), q) == (dx * (1.0 - s)) * (dx * (1.0 - s)) + (dy * (1.0 - s)) * (dy * (1.0 - s));
    assert Dist2(p, q) == dx * dx + dy * dy;
    Scaled(dx, dy, s);
    Scaled(dx, dy, 1.0 - s);
    hide Dist2, On;
  }

  lemma Scaled(dx: real, dy: real, s: real)
    ensures (dx * s) * (dx * s) + (dy * s) * (dy * s) == Mul(Sq(s), dx * dx + dy * dy)
  {}

  // ---- the distance to the boundary --------------------------------------------------------------------------

  /** The least squared distance to the first n edges. */
  function LeastUpTo(p: Point, poly: seq<Point>, n: nat): (d: real)
    requires 0 < n <= |poly|
    ensures forall i {:trigger EdgeDistance(p, poly, i)} :: 0 <= i < n ==> d <= EdgeDistance(p, poly, i)
    ensures exists i :: 0 <= i < n && d == EdgeDistance(p, poly, i)
  {
    if n == 1 then EdgeDistance(p, poly, 0)
    else
      var before := LeastUpTo(p, poly, n - 1);
      if EdgeDistance(p, poly, n - 1) < before then EdgeDistance(p, poly, n - 1) else before
  }

  function Least(p: Point, poly: seq<Point>): real
    requires poly != []
  {
    LeastUpTo(p, poly, |poly|)
  }

  /** Positive inside, negative outside. */
  function SignedDistance(root: Root, poly: seq<Point>, p: Point): real
    requires poly != []
  {
    if Inside(p, poly) then root(Least(p, poly)) else -root(Least(p, poly))
  }

  /** pointToPolygonDist. */
  method PointToPolygonDist(root: Root, p: Point, poly: seq<Point>) returns (d: real)
    requires poly != []
    ensures d == SignedDistance(root, poly, p)
  {
    hide Inside, EdgeDistance;
    var inside, minDist := PointToPolygon(p, poly);
    assert minDist == Least(p, poly);
    d := if inside then root(minDist) else -root(minDist);
  }

  /** A point of the i-th edge, which goes to the corner before. */
  ghost predicate OnEdge(r: Point, poly: seq<Point>, i: nat) {
    i < |poly| && OnSegment(r, poly[i], poly[if i == 0 then |poly| - 1 else i - 1])
  }

  /** No boundary point is nearer. */
  lemma LeastIsBelow(root: Root, p: Point, poly: seq<Point>, r: Point, i: nat)
    requires IsRoot(root) && OnEdge(r, poly, i)
    ensures 0.0 <= root(Least(p, poly)) <= Length(root, p, r)
  {
    var a, b := poly[i], poly[if i == 0 then |poly| - 1 else i - 1];
    var s :| 0.0 <= s <= 1.0 && r == On(a, b, s);
    SegmentDistanceIsLeast(p, a, b, s);
    LengthSign(root, p, r);
    LeastSign(p, poly);
    hide Sq, Dist2, On, DistanceSquaredPointToSegment;
    assert Least(p, poly) <= EdgeDistance(p, poly, i);
    RootAtMost(root, Least(p, poly), Length(root, p, r));
  }

  lemma LeastSign(p: Point, poly: seq<Point>)
    requires poly != []
    ensures Least(p, poly) >= 0.0
  {
    var n, i := NearestPoint(p, poly);
    Dist2Sign(p, n);
  }

  /** The least distance is attained on the boundary. */
  lemma NearestPoint(p: Point, poly: seq<Point>) returns (n: Point, i: nat)
    requires poly != []
    ensures OnEdge(n, poly, i) && Least(p, poly) == Dist2(p, n)
  {
    hide DistanceSquaredPointToSegment, Dist2, On;
    i :| 0 <= i < |poly| && Least(p, poly) == EdgeDistance(p, poly, i);
    var a, b := poly[i], poly[if i == 0 then |poly| - 1 else i - 1];
    SegmentDistanceIsLeast(p, a, b, 0.0);
    var t :| 0.0 <= t <= 1.0 && DistanceSquaredPointToSegment(p, a, b) == Dist2(p, On(a, b, t));
    n := On(a, b, t);
  }

  /** The distance to the boundary changes by no more than one moves. */
  lemma DistanceMoves(root: Root, poly: seq<Point>, p: Point, q: Point)
    requires IsRoot(root) && poly != []
    ensures root(Least(q, poly)) <= root(Least(p, poly)) + Length(root, p, q)
  {
    var n, i := NearestPoint(p, poly);
    LeastIsBelow(root, q, poly, n, i);
    TriangleInequality(root, q, p, n);
    LengthSign(root, p, q);
    hide Least, Dist2, OnEdge, Sq;
  }

  /** Between a point inside and one outside lies a boundary point. */
  lemma BoundaryBetween(poly: seq<Point>, p: Point, q: Point) returns (r: Point, i: nat)
    requires poly != [] && Inside(p, poly) != Inside(q, poly)
    ensures OnEdge(r, poly, i) && OnSegment(r, p, q)
  {
    hide Inside, OnSegment, ShareAPoint, Avoids, On;
    if Avoids(p, q, poly) { ParityIsConstant(p, q, poly); }
    var k := MeetingEdge(poly, p, q);
    i := if k + 1 < |poly| then k + 1 else 0;
    r := SharedOn(poly[k], poly[i], p, q);
  }

  lemma MeetingEdge(poly: seq<Point>, p: Point, q: Point) returns (k: nat)
    requires !Avoids(p, q, poly)
    ensures k < |poly| && ShareAPoint(poly[k], poly[if k + 1 < |poly| then k + 1 else 0], p, q)
  {
    hide ShareAPoint;
    k :| 0 <= k < |poly| && ShareAPoint(poly[k], poly[if k + 1 < |poly| then k + 1 else 0], p, q);
  }

  lemma SharedOn(a: Point, b: Point, p: Point, q: Point) returns (r: Point)
    requires ShareAPoint(a, b, p, q)
    ensures OnSegment(r, b, a) && OnSegment(r, p, q)
  {
    hide OnSegment;
    r :| OnSegment(r, a, b) && OnSegment(r, p, q);
    OnTurned(r, a, b);
  }

  /** Main lemma: the signed distance grows by no more than one moves. */
  lemma SignedDistanceMoves(root: Root, poly: seq<Point>, p: Point, q: Point)
    requires IsRoot(root) && poly != []
    ensures SignedDistance(root, poly, q) <= SignedDistance(root, poly, p) + Length(root, p, q)
  {
    hide Inside, Least, OnEdge, Sq, Dist2, OnSegment;
    DistanceMoves(root, poly, p, q);
    DistanceMoves(root, poly, q, p);
    LengthSign(root, p, q);
    if Inside(p, poly) != Inside(q, poly) {
      var r, i := BoundaryBetween(poly, p, q);
      LeastIsBelow(root, p, poly, r, i);
      LeastIsBelow(root, q, poly, r, i);
      LengthSign(root, q, r);
      Divided(root, p, q, r);
    }
  }

  /** Within a square no point is farther from the centre than half a diagonal. */
  lemma HalfDiagonal(root: Root, c: Point, q: Point, half: real)
    requires IsRoot(root) && half >= 0.0 && c.x - half <= q.x <= c.x + half && c.y - half <= q.y <= c.y + half
    ensures Length(root, c, q) <= half * root(2.0)
  {
    var dx, dy := c.x - q.x, c.y - q.y;
    Dist2Is(c.x, c.y, q.x, q.y);
    WithinSquare(dx, half);
    WithinSquare(dy, half);
    SqSum(half, root(2.0));
    MulSign(half, root(2.0));
    LengthSign(root, c, q);
    assert Mul(Sq(half), 2.0) == 2.0 * Sq(half);
    hide Dist2, Sq;
    RootAtMost(root, Dist2(c, q), Mul(half, root(2.0)));
  }

  lemma WithinSquare(d: real, h: real)
    requires -h <= d <= h
    ensures Sq(d) <= Sq(h)
  {
    SqSign(d);
    hide Sq;
    if d >= 0.0 { SqMonotone(d, h); } else { SqMonotone(-d, h); }
  }
}
