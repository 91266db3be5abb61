/** Distances from a point to segments and polygons (internal/geo/triangulate.go and polylabel.go). */
module Segments {
  import opened Plane
  import opened OrientedBox
  import opened EvenOdd

  /** The parameter of the nearest point on the segment. */
  function Nearest01(p: Point, a: Point, b: Point): real
    requires b.Sub(a).Dot(b.Sub(a)) != 0.0
  {
    var ab, ap := b.Sub(a), p.Sub(a);
    Max(0.0, Min(1.0, ap.Dot(ab) / ab.Dot(ab)))
  }

  function DistanceSquaredPointToSegment(p: Point, a: Point, b: Point): real {
    var ab, ap := b.Sub(a), p.Sub(a);
    if ab.Dot(ab) == 0.0 then ap.Dot(ap)
    else
      var closest := a.Add(ab.Scale(Nearest01(p, a, b)));
      p.Sub(closest).Dot(p.Sub(closest))
  }

  /** The point at parameter s of the segment. */
  function On(a: Point, b: Point, s: real): Point { a.Add(b.Sub(a).Scale(s)) }

  lemma DistanceAt(p: Point, a: Point, b: Point, s: real)
    ensures var ab, ap := b.Sub(a), p.Sub(a);
            Dist2(p, On(a, b, s)) == ap.Dot(ap) - 2.0 * Mul(s, ap.Dot(ab)) + Mul(Sq(s), ab.Dot(ab))
  {
    var x, y, u, v := p.x - a.x, p.y - a.y, b.x - a.x, b.y - a.y;
    assert p.Sub(On(a, b, s)) == Point(x - u * s, y - v * s);
    assert Dist2(p, On(a, b, s)) == (x - u * s) * (x - u * s) + (y - v * s) * (y - v * s);
    assert Mul(s, x * u + y * v) == s * (x * u + y * v);
    assert Mul(Sq(s), u * u + v * v) == (s * s) * (u * u + v * v);
    Expand(x, y, u, v, s);
  }

  lemma Expand(x: real, y: real, u: real, v: real, s: real)
    ensures (x - u * s) * (x - u * s) + (y - v * s) * (y - v * s)
            == (x * x + y * y) - 2.0 * (s * (x * u + y * v)) + (s * s) * (u * u + v * v)
  {}

  /** How much farther the point at s is than the one at t, for a parabola with slope m at zero. */
  lemma ParabolaGap(s: real, t: real, m: real, l: real)
    ensures (Mul(Sq(s), l) - 2.0 * Mul(s, m)) - (Mul(Sq(t), l) - 2.0 * Mul(t, m))
            == Mul(Sq(s - t), l) + 2.0 * Mul(s - t, Mul(t, l) - m)
  {}

  /** Clamping the foot of the perpendicular gives the minimum over the segment. */
  lemma ClampedFoot(s: real, m: real, l: real)
    requires l > 0.0 && 0.0 <= s <= 1.0
    ensures var t := Max(0.0, Min(1.0, m / l));
            Mul(Sq(t), l) - 2.0 * Mul(t, m) <= Mul(Sq(s), l) - 2.0 * Mul(s, m)
  {
    var r := m / l;
    var t := Max(0.0, Min(1.0, r));
    Foot(m, l);
    ParabolaGap(s, t, m, l);
    SqSign(s - t);
    hide Sq, Mul;
    MulSign(Sq(s - t), l);
    MulSub(t, r, l);
    MulSign(t - r, l);
    MulSign(s - t, Mul(t, l) - m);
    assert t > r ==> t == 0.0;
    assert t < r ==> t == 1.0;
    assert t == r ==> Mul(t, l) - m == 0.0;
  }

  lemma Foot(m: real, l: real)
    requires l != 0.0
    ensures Mul(m / l, l) == m
  {}

  lemma DotSelf(q: Point)
    ensures q.Dot(q) == Sq(q.x) + Sq(q.y)
  {}

  lemma SumOfSquares(q: Point)
    ensures q.Dot(q) >= 0.0
    ensures q.Dot(q) == 0.0 ==> q == Point(0.0, 0.0)
  {
    DotSelf(q);
    hide Sq, Point.Dot;
    SqSign(q.x);
    SqSign(q.y);
  }

  lemma DistanceIsAt(p: Point, a: Point, b: Point)
    requires b.Sub(a).Dot(b.Sub(a)) != 0.0
    ensures DistanceSquaredPointToSegment(p, a, b) == Dist2(p, On(a, b, Nearest01(p, a, b)))
    ensures Nearest01(p, a, b) == Max(0.0, Min(1.0, p.Sub(a).Dot(b.Sub(a)) / b.Sub(a).Dot(b.Sub(a))))
  {
    hide Point.Dot, Point.Scale;
  }

  /** The clamped distance is the least over the points of the segment, and is attained. */
  lemma SegmentDistanceIsLeast(p: Point, a: Point, b: Point, s: real)
    requires 0.0 <= s <= 1.0
    ensures DistanceSquaredPointToSegment(p, a, b) <= Dist2(p, On(a, b, s))
    ensures exists t :: 0.0 <= t <= 1.0 && DistanceSquaredPointToSegment(p, a, b) == Dist2(p, On(a, b, t))
  {
    SumOfSquares(b.Sub(a));
    if b.Sub(a).Dot(b.Sub(a)) == 0.0 {
      PointDistance(p, a, b, s);
      PointDistance(p, a, b, 0.0);
    } else {
      ProperSegment(p, a, b, s);
    }
  }

  lemma PointDistance(p: Point, a: Point, b: Point, s: real)
    requires b.Sub(a) == Point(0.0, 0.0)
    ensures DistanceSquaredPointToSegment(p, a, b) == Dist2(p, On(a, b, s))
  {
    OnPoint(a, b, s);
  }

  lemma ProperSegment(p: Point, a: Point, b: Point, s: real)
    requires 0.0 <= s <= 1.0 && b.Sub(a).Dot(b.Sub(a)) > 0.0
    ensures DistanceSquaredPointToSegment(p, a, b) <= Dist2(p, On(a, b, s))
    ensures exists t :: 0.0 <= t <= 1.0 && DistanceSquaredPointToSegment(p, a, b) == Dist2(p, On(a, b, t))
  {
    hide Point.Dot, Point.Sub, Dist2, On, Mul, Sq, DistanceSquaredPointToSegment, Nearest01;
    var t := Nearest01(p, a, b);
    DistanceIsAt(p, a, b);
    DistanceAt(p, a, b, s);
    DistanceAt(p, a, b, t);
    ClampedFoot(s, p.Sub(a).Dot(b.Sub(a)), b.Sub(a).Dot(b.Sub(a)));
  }

  lemma OnPoint(a: Point, b: Point, s: real)
    requires b.Sub(a) == Point(0.0, 0.0)
    ensures On(a, b, s) == a
  {}

  // ---- the distance to a polygon ----------------------------------------------------------------------------

  /** The squared distance to edge i, from point i to the point before it. */
  function EdgeDistance(p: Point, poly: seq<Point>, i: nat): real
    requires i < |poly|
  {
    DistanceSquaredPointToSegment(p, poly[i], poly[if i == 0 then |poly| - 1 else i - 1])
  }

  /** pointToPolygonDist before the root is taken: the parity and the least squared distance. */
  method PointToPolygon(p: Point, poly: seq<Point>) returns (inside: bool, minDist: real)
    requires poly != []
    ensures inside == Inside(p, poly)
    ensures forall i {:trigger EdgeDistance(p, poly, i)} :: 0 <= i < |poly| ==> minDist <= EdgeDistance(p, poly, i)
    ensures exists i :: 0 <= i < |poly| && minDist == EdgeDistance(p, poly, i)
  {
    hide DistanceSquaredPointToSegment, Crosses;
    inside := PointInPolygon(p, poly);
    minDist := EdgeDistance(p, poly, 0);
    for i := 1 to |poly|
      invariant forall k {:trigger EdgeDistance(p, poly, k)} :: 0 <= k < i ==> minDist <= EdgeDistance(p, poly, k)
      invariant exists k :: 0 <= k < i && minDist == EdgeDistance(p, poly, k)
    {
      var d := EdgeDistance(p, poly, i);
      if d < minDist { minDist := d; }
    }
  }

  // ---- polygons without extent -------------------------------------------------------------------------------

  lemma {:induction false} FlatChain(p: Point, s: seq<Point>, x: real)
    requires s != [] && forall k :: 0 <= k < |s| ==> s[k].x == x
    ensures Chain(p, s) == (p.x < x && (s[0].y > p.y) != (s[|s| - 1].y > p.y))
    decreases |s|
  {
    hide Crosses;
    if |s| >= 2 {
      FlatChain(p, s[1..], x);
      FlatCrosses(p, s[0], s[1], x);
    }
  }

  lemma FlatCrosses(p: Point, a: Point, b: Point, x: real)
    requires a.x == x && b.x == x
    ensures Crosses(p, a, b) == (p.x < x && (a.y > p.y) != (b.y > p.y))
  {
    if (a.y > p.y) != (b.y > p.y) {
      assert (b.x - a.x) * (p.y - a.y) == 0.0;
      assert 0.0 / (b.y - a.y) == 0.0;
    }
  }

  lemma {:induction false} LevelChain(p: Point, s: seq<Point>, y: real)
    requires forall k :: 0 <= k < |s| ==> s[k].y == y
    ensures !Chain(p, s)
    decreases |s|
  {
    if |s| >= 2 { LevelChain(p, s[1..], y); }
  }

  /** Nothing is inside a polygon whose box has no extent, so that the point the label search then returns,
      with distance zero, is as good as any. */
  lemma NothingInsideFlat(poly: seq<Point>, box: Rect, p: Point)
    requires IsBox(poly, box) && (box.minX == box.maxX || box.minY == box.maxY)
    ensures !Inside(p, poly)
  {
    hide Crosses;
    if poly != [] {
      if box.minX == box.maxX {
        FlatChain(p, poly, box.minX);
        FlatCrosses(p, poly[|poly| - 1], poly[0], box.minX);
      } else {
        LevelChain(p, poly, box.minY);
        LevelCrosses(p, poly[|poly| - 1], poly[0]);
      }
    }
  }

  lemma LevelCrosses(p: Point, a: Point, b: Point)
    requires a.y == b.y
    ensures !Crosses(p, a, b)
  {}
}
