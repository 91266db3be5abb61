/** The separating-axis test between a rotated rectangle and a triangle (internal/geo/triangulate.go). */
module SeparatingAxis {
  import opened Plane
  import opened EvenOdd
  import opened OrientedBox

  function TriangleCorners(t: Triangle): seq<Point> { EvenOdd.Corners(t) }

  /** The two projections share a value. */
  ghost predicate Overlap(a: seq<Point>, b: seq<Point>, n: Point) {
    && (exists i, j :: 0 <= i < |a| && 0 <= j < |b| && a[i].Dot(n) >= b[j].Dot(n))
    && (exists i, j :: 0 <= i < |a| && 0 <= j < |b| && a[i].Dot(n) <= b[j].Dot(n))
  }

  function EdgeNormal(t: Triangle, i: nat): Point
    requires i < 3
  {
    var c := TriangleCorners(t);
    var edge := c[(i + 1) % 3].Sub(c[i]);
    Point(-edge.y, edge.x)
  }

  /** The axes tried: the rectangle's, and the normals of the edges that have a length. */
  predicate Axis(o: OBB, t: Triangle, n: Point) {
    n == o.AxisX() || n == o.AxisY()
    || (n != Point(0.0, 0.0) && (n == EdgeNormal(t, 0) || n == EdgeNormal(t, 1) || n == EdgeNormal(t, 2)))
  }

  /** No axis separates the two. */
  ghost predicate Touches(o: OBB, t: Triangle) {
    forall n {:trigger Axis(o, t, n)} :: Axis(o, t, n) ==> Overlap(o.Corners(), TriangleCorners(t), n)
  }

  method OverlapOn(a: seq<Point>, b: seq<Point>, n: Point) returns (ok: bool)
    requires a != [] && b != []
    ensures ok == Overlap(a, b, n)
  {
    hide Point.Dot;
    var aMin, aMax := Project(a, n);
    var bMin, bMax := Project(b, n);
    ok := !(aMax < bMin || bMax < aMin);
    var i :| 0 <= i < |a| && aMin == a[i].Dot(n);
    var i' :| 0 <= i' < |a| && aMax == a[i'].Dot(n);
    var j :| 0 <= j < |b| && bMin == b[j].Dot(n);
    var j' :| 0 <= j' < |b| && bMax == b[j'].Dot(n);
    if ok {
      assert a[i'].Dot(n) >= b[j].Dot(n) && a[i].Dot(n) <= b[j'].Dot(n);
    }
  }

  method IntersectsTriangle(o: OBB, t: Triangle) returns (ok: bool)
    ensures ok == Touches(o, t)
  {
    hide Point.Dot, Overlap, OBB.Corner;
    var corners := o.Corners();
    var axes := [o.AxisX(), o.AxisY()];
    for k := 0 to 2
      invariant forall j :: 0 <= j < k ==> Overlap(o.Corners(), TriangleCorners(t), axes[j])
    {
      var meets := OverlapOn(corners, TriangleCorners(t), axes[k]);
      if !meets {
        assert Axis(o, t, axes[k]);
        return false;
      }
    }
    for i := 0 to 3
      invariant Overlap(o.Corners(), TriangleCorners(t), axes[0]) && Overlap(o.Corners(), TriangleCorners(t), axes[1])
      invariant forall j :: 0 <= j < i && EdgeNormal(t, j) != Point(0.0, 0.0) ==>
                  Overlap(o.Corners(), TriangleCorners(t), EdgeNormal(t, j))
    {
      var axis := EdgeNormal(t, i);
      if axis.x == 0.0 && axis.y == 0.0 { continue; }
      var meets := OverlapOn(corners, TriangleCorners(t), axis);
      if !meets {
        assert Axis(o, t, axis);
        return false;
      }
    }
    return true;
  }

  /** IntersectsTriangles. */
  ghost predicate TouchesSome(o: OBB, ts: seq<Triangle>) { exists k :: 0 <= k < |ts| && Touches(o, ts[k]) }

  method IntersectsTriangles(o: OBB, ts: seq<Triangle>) returns (ok: bool)
    ensures ok == TouchesSome(o, ts)
  {
    hide Touches;
    for k := 0 to |ts|
      invariant forall j :: 0 <= j < k ==> !Touches(o, ts[j])
    {
      var meets := IntersectsTriangle(o, ts[k]);
      if meets { return true; }
    }
    return false;
  }

  // ---- a shared point is never missed ---------------------------------------------------------------------

  lemma DotRelative(q: Point, p: Point, n: Point)
    ensures q.Dot(n) - p.Dot(n) == Mul(q.x - p.x, n.x) + Mul(q.y - p.y, n.y)
  {}

  /** The corners' projections, weighed by the opposite turns, balance at the point. */
  lemma ProjectionsBalance(p: Point, t: Triangle, n: Point)
    ensures Mul(Orient(t.b, t.c, p), t.a.Dot(n) - p.Dot(n)) + Mul(Orient(t.c, t.a, p), t.b.Dot(n) - p.Dot(n))
            + Mul(Orient(t.a, t.b, p), t.c.Dot(n) - p.Dot(n)) == 0.0
  {
    HeightsBalance(p, t.a, t.b, t.c);
    DotRelative(t.a, p, n);
    DotRelative(t.b, p, n);
    DotRelative(t.c, p, n);
    var da, db, dc := Orient(t.b, t.c, p), Orient(t.c, t.a, p), Orient(t.a, t.b, p);
    hide Orient, Point.Dot, Mul;
    Weigh(da, t.a.x - p.x, t.a.y - p.y, n);
    Weigh(db, t.b.x - p.x, t.b.y - p.y, n);
    Weigh(dc, t.c.x - p.x, t.c.y - p.y, n);
    var xs, ys := Mul(da, t.a.x - p.x) + Mul(db, t.b.x - p.x) + Mul(dc, t.c.x - p.x),
                  Mul(da, t.a.y - p.y) + Mul(db, t.b.y - p.y) + Mul(dc, t.c.y - p.y);
    Sum3(Mul(da, t.a.x - p.x), Mul(db, t.b.x - p.x), Mul(dc, t.c.x - p.x), n.x);
    Sum3(Mul(da, t.a.y - p.y), Mul(db, t.b.y - p.y), Mul(dc, t.c.y - p.y), n.y);
    MulZero(n.x);
    MulZero(n.y);
  }

  lemma MulZero(k: real)
    ensures Mul(0.0, k) == 0.0
  {}

  lemma Sum3(a: real, b: real, c: real, k: real)
    ensures Mul(a + b + c, k) == Mul(a, k) + Mul(b, k) + Mul(c, k)
  {}

  lemma Weigh(d: real, x: real, y: real, n: Point)
    ensures Mul(d, Mul(x, n.x) + Mul(y, n.y)) == Mul(Mul(d, x), n.x) + Mul(Mul(d, y), n.y)
  {}

  /** A point with turns of one sign, not all zero, projects between the corners. */
  lemma BetweenCorners(p: Point, t: Triangle, n: Point)
    requires Surrounded(p, t.a, t.b, t.c)
    ensures t.a.Dot(n) >= p.Dot(n) || t.b.Dot(n) >= p.Dot(n) || t.c.Dot(n) >= p.Dot(n)
    ensures t.a.Dot(n) <= p.Dot(n) || t.b.Dot(n) <= p.Dot(n) || t.c.Dot(n) <= p.Dot(n)
  {
    ProjectionsBalance(p, t, n);
    var da, db, dc := Orient(t.b, t.c, p), Orient(t.c, t.a, p), Orient(t.a, t.b, p);
    var ha, hb, hc := t.a.Dot(n) - p.Dot(n), t.b.Dot(n) - p.Dot(n), t.c.Dot(n) - p.Dot(n);
    hide Orient, Point.Dot, Mul;
    NotAllOneSide(da, db, dc, ha, hb, hc);
  }

  lemma NotAllOneSide(da: real, db: real, dc: real, ha: real, hb: real, hc: real)
    requires Mul(da, ha) + Mul(db, hb) + Mul(dc, hc) == 0.0
    requires (da >= 0.0 && db >= 0.0 && dc >= 0.0 && da + db + dc > 0.0) || (da <= 0.0 && db <= 0.0 && dc <= 0.0 && da + db + dc < 0.0)
    ensures ha >= 0.0 || hb >= 0.0 || hc >= 0.0
    ensures ha <= 0.0 || hb <= 0.0 || hc <= 0.0
  {
    hide Mul;
    if da + db + dc < 0.0 {
      MulNeg(da, ha);
      MulNeg(db, hb);
      MulNeg(dc, hc);
      Positive(-da, ha);
      Positive(-db, hb);
      Positive(-dc, hc);
    } else {
      Positive(da, ha);
      Positive(db, hb);
      Positive(dc, hc);
    }
  }

  lemma Positive(d: real, h: real)
    requires d >= 0.0
    ensures h > 0.0 ==> Mul(d, h) >= 0.0 && (d > 0.0 ==> Mul(d, h) > 0.0)
    ensures h < 0.0 ==> Mul(d, h) <= 0.0 && (d > 0.0 ==> Mul(d, h) < 0.0)
  {
    hide Mul;
    MulSign(d, h);
    MulSign(d, -h);
    MulNeg(d, h);
  }

  /** If a point of the rectangle is properly surrounded by the triangle's corners, the test is true. */
  lemma SharedPointTouches(o: OBB, t: Triangle, p: Point)
    requires o.Valid() && o.ContainsPoint(p) && Surrounded(p, t.a, t.b, t.c)
    ensures Touches(o, t)
  {
    hide Surrounded, OBB.ContainsPoint, OBB.Valid, OBB.Corners, Point.Dot, Axis, Overlap;
    forall n | Axis(o, t, n) ensures Overlap(o.Corners(), TriangleCorners(t), n) {
      BetweenCorners(p, t, n);
      CornersReach(o, p, n);
      FourCorners(o);
      OverlapThrough(o.Corners(), t, p, n);
    }
  }

  lemma OverlapThrough(cs: seq<Point>, t: Triangle, p: Point, n: Point)
    requires |cs| == 4
    requires exists k :: 0 <= k < 4 && cs[k].Dot(n) >= p.Dot(n)
    requires exists k :: 0 <= k < 4 && cs[k].Dot(n) <= p.Dot(n)
    requires t.a.Dot(n) >= p.Dot(n) || t.b.Dot(n) >= p.Dot(n) || t.c.Dot(n) >= p.Dot(n)
    requires t.a.Dot(n) <= p.Dot(n) || t.b.Dot(n) <= p.Dot(n) || t.c.Dot(n) <= p.Dot(n)
    ensures Overlap(cs, TriangleCorners(t), n)
  {
    hide Point.Dot;
    var c := TriangleCorners(t);
    assert c[0] == t.a && c[1] == t.b && c[2] == t.c;
    var far :| 0 <= far < 4 && cs[far].Dot(n) >= p.Dot(n);
    var near :| 0 <= near < 4 && cs[near].Dot(n) <= p.Dot(n);
    var low :| 0 <= low < 3 && c[low].Dot(n) <= p.Dot(n);
    var high :| 0 <= high < 3 && c[high].Dot(n) >= p.Dot(n);
    assert cs[far].Dot(n) >= c[low].Dot(n) && cs[near].Dot(n) <= c[high].Dot(n);
  }

  /** And the point is within any rectangle around the corners. */
  lemma SurroundedInBox(p: Point, t: Triangle, r: Rect)
    requires Surrounded(p, t.a, t.b, t.c) && r.Has(t.a) && r.Has(t.b) && r.Has(t.c)
    ensures r.Has(p)
  {
    BetweenCorners(p, t, Point(1.0, 0.0));
    BetweenCorners(p, t, Point(0.0, 1.0));
    hide Surrounded, Point.Dot;
    DotUnit(p);
    DotUnit(t.a);
    DotUnit(t.b);
    DotUnit(t.c);
  }
}
