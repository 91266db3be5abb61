/** Rotated rectangles (internal/geo/obb.go).  The rotation is its cosine and sine. */
module OrientedBox {
  import opened Plane

  datatype OBB = OBB(cx: real, cy: real, hw: real, hh: real, cos: real, sin: real) {
    /** Half-extents are not negative and the rotation is one. */
    predicate Valid() { hw >= 0.0 && hh >= 0.0 && cos * cos + sin * sin == 1.0 }

    function Center(): Point { Point(cx, cy) }
    function AxisX(): Point { Point(cos, sin) }
    function AxisY(): Point { Point(-sin, cos) }

    function Corner(lx: real, ly: real): Point { Point(cx + lx * cos - ly * sin, cy + lx * sin + ly * cos) }

    function Corners(): seq<Point> { [Corner(-hw, -hh), Corner(hw, -hh), Corner(hw, hh), Corner(-hw, hh)] }

    function LocalX(p: Point): real { p.Sub(Center()).Dot(AxisX()) }
    function LocalY(p: Point): real { p.Sub(Center()).Dot(AxisY()) }

    predicate ContainsPoint(p: Point) { -hw <= LocalX(p) <= hw && -hh <= LocalY(p) <= hh }

    /** The circle test: the local centre clamped to the rectangle. */
    predicate IntersectsCircle(q: Point, radius: real) {
      var local := Point(LocalX(q), LocalY(q));
      var closest := Point(Max(-hw, Min(local.x, hw)), Max(-hh, Min(local.y, hh)));
      local.Sub(closest).Dot(local.Sub(closest)) <= radius * radius
    }
  }

  // ---- the rectangle as a set of points -----------------------------------------------------------

  /** A point is its local coordinates carried back. */
  lemma FromLocal(o: OBB, p: Point)
    requires o.Valid()
    ensures p == o.Corner(o.LocalX(p), o.LocalY(p))
  {
    var dx, dy, c, s := p.x - o.cx, p.y - o.cy, o.cos, o.sin;
    var lx, ly := o.LocalX(p), o.LocalY(p);
    assert lx == dx * c + dy * s && ly == -dx * s + dy * c;
    assert lx * c - ly * s == dx * (c * c + s * s);
    assert lx * s + ly * c == dy * (c * c + s * s);
  }

  lemma ToLocal(o: OBB, lx: real, ly: real)
    requires o.Valid()
    ensures o.LocalX(o.Corner(lx, ly)) == lx && o.LocalY(o.Corner(lx, ly)) == ly
  {
    var c, s := o.cos, o.sin;
    var p := o.Corner(lx, ly);
    assert p.Sub(o.Center()) == Point(lx * c - ly * s, lx * s + ly * c);
    assert (lx * c - ly * s) * c + (lx * s + ly * c) * s == lx * (c * c + s * s);
    assert (lx * c - ly * s) * -s + (lx * s + ly * c) * c == ly * (c * c + s * s);
  }

  /** Rotation keeps distances. */
  lemma LocalDistance(o: OBB, p: Point, q: Point)
    requires o.Valid()
    ensures Dist2(p, q) == Sq(o.LocalX(p) - o.LocalX(q)) + Sq(o.LocalY(p) - o.LocalY(q))
  {
    var dx, dy, c, s := p.x - q.x, p.y - q.y, o.cos, o.sin;
    assert o.LocalX(p) - o.LocalX(q) == dx * c + dy * s;
    assert o.LocalY(p) - o.LocalY(q) == -dx * s + dy * c;
    RotatedNorm(dx, dy, c, s);
    assert Dist2(p, q) == dx * dx + dy * dy;
    hide OBB.LocalX, OBB.LocalY, Dist2;
  }

  lemma RotatedNorm(dx: real, dy: real, c: real, s: real)
    requires c * c + s * s == 1.0
    ensures Sq(dx * c + dy * s) + Sq(-dx * s + dy * c) == dx * dx + dy * dy
  {
    assert Sq(dx * c + dy * s) + Sq(-dx * s + dy * c) == (dx * dx + dy * dy) * (c * c + s * s);
  }

  // ---- projections and the bounding box -------------------------------------------------------------

  /** The direction n along the rectangle's two axes. */
  function Along(o: OBB, n: Point): real { o.cos * n.x + o.sin * n.y }
  function Across(o: OBB, n: Point): real { -o.sin * n.x + o.cos * n.y }

  lemma CornerDot(o: OBB, lx: real, ly: real, n: Point)
    ensures o.Corner(lx, ly).Dot(n) == o.Center().Dot(n) + Mul(lx, Along(o, n)) + Mul(ly, Across(o, n))
  {}

  lemma Extreme(u: real, h: real, k: real, e: real)
    requires -h <= u <= h && e == if k >= 0.0 then h else -h
    ensures Mul(-e, k) <= Mul(u, k) <= Mul(e, k)
  {
    hide Mul;
    MulMonotone(u, h, k);
    MulMonotone(-h, u, k);
  }

  /** In the direction n the corner (lx, ly) is the farthest and the opposite one the nearest. */
  lemma CornerFarther(o: OBB, u: real, v: real, lx: real, ly: real, n: Point)
    requires -o.hw <= u <= o.hw && -o.hh <= v <= o.hh
    requires lx == (if Along(o, n) >= 0.0 then o.hw else -o.hw) && ly == if Across(o, n) >= 0.0 then o.hh else -o.hh
    ensures o.Corner(-lx, -ly).Dot(n) <= o.Corner(u, v).Dot(n) <= o.Corner(lx, ly).Dot(n)
  {
    hide OBB.Corner, OBB.Center, Point.Dot, Mul, Along, Across;
    CornerDot(o, u, v, n);
    CornerDot(o, lx, ly, n);
    CornerDot(o, -lx, -ly, n);
    Extreme(u, o.hw, Along(o, n), lx);
    Extreme(v, o.hh, Across(o, n), ly);
  }

  /** Along any direction some corner is at least as far as any point of the rectangle, and some corner
      at most as far. */
  lemma CornersReach(o: OBB, p: Point, n: Point)
    requires o.Valid() && o.ContainsPoint(p)
    ensures exists k :: 0 <= k < 4 && o.Corners()[k].Dot(n) >= p.Dot(n)
    ensures exists k :: 0 <= k < 4 && o.Corners()[k].Dot(n) <= p.Dot(n)
  {
    hide OBB.Corner, OBB.LocalX, OBB.LocalY, Point.Dot, Along, Across;
    var lx, ly := if Along(o, n) >= 0.0 then o.hw else -o.hw, if Across(o, n) >= 0.0 then o.hh else -o.hh;
    FromLocal(o, p);
    CornerFarther(o, o.LocalX(p), o.LocalY(p), lx, ly, n);
    var far := CornerIndex(o, lx, ly);
    var near := CornerIndex(o, -lx, -ly);
  }

  lemma CornerIndex(o: OBB, lx: real, ly: real) returns (k: nat)
    requires (lx == o.hw || lx == -o.hw) && (ly == o.hh || ly == -o.hh)
    ensures k < 4 && o.Corners()[k] == o.Corner(lx, ly)
  {
    hide OBB.Corner;
    k := if lx == o.hw then (if ly == o.hh then 2 else 1) else (if ly == o.hh then 3 else 0);
  }

  /** projectPoints4 and projectTriangle: the least and the greatest projection. */
  method Project(points: seq<Point>, axis: Point) returns (min: real, max: real)
    requires points != []
    ensures forall k {:trigger points[k]} :: 0 <= k < |points| ==> min <= points[k].Dot(axis) <= max
    ensures exists k :: 0 <= k < |points| && min == points[k].Dot(axis)
    ensures exists k :: 0 <= k < |points| && max == points[k].Dot(axis)
  {
    min, max := points[0].Dot(axis), points[0].Dot(axis);
    for i := 1 to |points|
      invariant forall k {:trigger points[k]} :: 0 <= k < i ==> min <= points[k].Dot(axis) <= max
      invariant exists k :: 0 <= k < i && min == points[k].Dot(axis)
      invariant exists k :: 0 <= k < i && max == points[k].Dot(axis)
    {
      var proj := points[i].Dot(axis);
      if proj < min { min := proj; }
      if proj > max { max := proj; }
    }
  }

  /** The least rectangle around some points. */
  ghost predicate IsBox(points: seq<Point>, r: Rect) {
    && (forall k {:trigger points[k]} :: 0 <= k < |points| ==> r.Has(points[k]))
    && (exists k :: 0 <= k < |points| && points[k].x == r.minX) && (exists k :: 0 <= k < |points| && points[k].x == r.maxX)
    && (exists k :: 0 <= k < |points| && points[k].y == r.minY) && (exists k :: 0 <= k < |points| && points[k].y == r.maxY)
  }

  /** AABB over the corners, and PolygonBBox over a polygon's points: one loop each in the source. */
  method BoundingBox(points: seq<Point>) returns (r: Rect)
    requires points != []
    ensures IsBox(points, r)
  {
    var minX, minY, maxX, maxY := points[0].x, points[0].y, points[0].x, points[0].y;
    for i := 1 to |points|
      invariant IsBox(points[..i], Rect(minX, minY, maxX, maxY))
    {
      var p := points[i];
      ghost var before := Rect(minX, minY, maxX, maxY);
      if p.x < minX { minX := p.x; }
      if p.x > maxX { maxX := p.x; }
      if p.y < minY { minY := p.y; }
      if p.y > maxY { maxY := p.y; }
      BoxSnoc(points[..i], p, before);
      assert points[..i + 1] == points[..i] + [p];
    }
    assert points[..|points|] == points;
    r := Rect(minX, minY, maxX, maxY);
  }

  lemma BoxSnoc(points: seq<Point>, p: Point, r: Rect)
    requires IsBox(points, r)
    ensures IsBox(points + [p], Rect(Min(p.x, r.minX), Min(p.y, r.minY), Max(p.x, r.maxX), Max(p.y, r.maxY)))
  {
    var all := points + [p];
    assert forall k :: 0 <= k < |points| ==> all[k] == points[k];
    assert all[|points|] == p;
  }

  lemma DotUnit(p: Point)
    ensures p.Dot(Point(1.0, 0.0)) == p.x && p.Dot(Point(0.0, 1.0)) == p.y
  {}

  /** The box around the corners holds every point of the rectangle. */
  lemma BoxHoldsRectangle(o: OBB, r: Rect, p: Point)
    requires o.Valid() && o.ContainsPoint(p) && IsBox(o.Corners(), r)
    ensures r.Has(p)
  {
    CornersReach(o, p, Point(1.0, 0.0));
    CornersReach(o, p, Point(0.0, 1.0));
    hide OBB.Corners, OBB.ContainsPoint, OBB.Valid, Point.Dot;
    DotUnit(p);
    forall k | 0 <= k < |o.Corners()|
      ensures r.Has(o.Corners()[k]) && o.Corners()[k].Dot(Point(1.0, 0.0)) == o.Corners()[k].x
              && o.Corners()[k].Dot(Point(0.0, 1.0)) == o.Corners()[k].y
    {
      DotUnit(o.Corners()[k]);
    }
    assert |o.Corners()| == 4 by { FourCorners(o); }
  }

  lemma FourCorners(o: OBB)
    ensures |o.Corners()| == 4
  {}

  // ---- the circle test --------------------------------------------------------------------------------

  /** Clamping gives the nearest value of an interval. */
  lemma ClampIsNearest(l: real, h: real, u: real)
    requires -h <= u <= h
    ensures var k := Max(-h, Min(l, h)); -h <= k <= h && Sq(k - l) <= Sq(u - l)
  {
    hide Sq;
    var k := Max(-h, Min(l, h));
    if l > h {
      SqMonotone(l - h, l - u);
      SqSign(l - h);
      SqSign(l - u);
      assert k - l == -(l - h) && u - l == -(l - u);
    } else if l < -h {
      SqMonotone(-h - l, u - l);
    } else {
      SqSign(u - l);
      SqZero();
      assert k - l == 0.0;
    }
  }

  lemma SqZero()
    ensures Sq(0.0) == 0.0
  {}

  function Clamped(l: real, h: real): real { Max(-h, Min(l, h)) }

  function Nearest(o: OBB, q: Point): Point { o.Corner(Clamped(o.LocalX(q), o.hw), Clamped(o.LocalY(q), o.hh)) }

  lemma CircleTestIs(o: OBB, q: Point, radius: real)
    ensures o.IntersectsCircle(q, radius) <==>
            Sq(Clamped(o.LocalX(q), o.hw) - o.LocalX(q)) + Sq(Clamped(o.LocalY(q), o.hh) - o.LocalY(q)) <= Sq(radius)
  {
    hide OBB.LocalX, OBB.LocalY;
    var lx, ly := o.LocalX(q), o.LocalY(q);
    var kx, ky := Clamped(lx, o.hw), Clamped(ly, o.hh);
    SqSign(lx - kx);
    SqSign(ly - ky);
    assert Point(lx, ly).Sub(Point(kx, ky)).Dot(Point(lx, ly).Sub(Point(kx, ky))) == Sq(lx - kx) + Sq(ly - ky);
    assert -(lx - kx) == kx - lx && -(ly - ky) == ky - ly;
  }

  /** The clamped point is in the rectangle, at the distance the test computes. */
  lemma NearestIsReached(o: OBB, q: Point)
    requires o.Valid()
    ensures o.ContainsPoint(Nearest(o, q))
    ensures Dist2(Nearest(o, q), q) == Sq(Clamped(o.LocalX(q), o.hw) - o.LocalX(q)) + Sq(Clamped(o.LocalY(q), o.hh) - o.LocalY(q))
  {
    hide OBB.LocalX, OBB.LocalY, OBB.Corner, Sq, Dist2;
    ToLocal(o, Clamped(o.LocalX(q), o.hw), Clamped(o.LocalY(q), o.hh));
    LocalDistance(o, Nearest(o, q), q);
  }

  /** No point of the rectangle is nearer. */
  lemma NearestIsNearest(o: OBB, q: Point, p: Point)
    requires o.Valid() && o.ContainsPoint(p)
    ensures Dist2(Nearest(o, q), q) <= Dist2(p, q)
  {
    hide OBB.LocalX, OBB.LocalY, OBB.Corner, OBB.Valid, Sq, Dist2, Min, Max, Nearest;
    NearestIsReached(o, q);
    LocalDistance(o, p, q);
    ClampIsNearest(o.LocalX(q), o.hw, o.LocalX(p));
    ClampIsNearest(o.LocalY(q), o.hh, o.LocalY(p));
  }

  /** The circle test is true exactly when some point of the rectangle is within the radius. */
  lemma CircleTestIsExact(o: OBB, q: Point, radius: real)
    requires o.Valid() && radius >= 0.0
    ensures o.IntersectsCircle(q, radius) <==> exists p :: o.ContainsPoint(p) && Dist2(p, q) <= Sq(radius)
  {
    hide OBB.LocalX, OBB.LocalY, OBB.IntersectsCircle, OBB.ContainsPoint, OBB.Valid, Sq, Dist2, Nearest, Clamped;
    CircleTestIs(o, q, radius);
    NearestIsReached(o, q);
    if p :| o.ContainsPoint(p) && Dist2(p, q) <= Sq(radius) { NearestIsNearest(o, q, p); }
  }
}
