/** The five axes are enough: a rectangle and a triangle that none of them separates share a point.

    In the rectangle's own coordinates, where it is |x| <= w, |y| <= h.  The triangle has a point in the
    strip |x| <= w that is not above the rectangle, or else one of its edges passes above the rectangle with
    the rest of the triangle beyond; likewise one that is not below; and between the two lies a shared one. */
module AxesSuffice {
  import opened Plane
  import opened EvenOdd
  import opened OrientedBox
  import opened SeparatingAxis

  // ---- averages -------------------------------------------------------------------------------------------

  lemma InHullRotates(p: Point, a: Point, b: Point, c: Point)
    requires InHull(p, a, b, c)
    ensures InHull(p, b, c, a) && InHull(p, b, a, c)
  {
    var u, v, w :| AverageOf(p, a, b, c, u, v, w);
    assert AverageOf(p, b, c, a, v, w, u) && AverageOf(p, b, a, c, v, u, w);
  }

  lemma CornerInHull(a: Point, b: Point, c: Point)
    ensures InHull(a, a, b, c)
  {
    assert AverageOf(a, a, b, c, 1.0, 0.0, 0.0);
  }

  function Mix(x: real, y: real, k: real): real { (1.0 - k) * x + k * y }

  function Between(p: Point, q: Point, k: real): Point { Point(Mix(p.x, q.x, k), Mix(p.y, q.y, k)) }

  lemma EdgeInHull(a: Point, b: Point, c: Point, k: real)
    requires 0.0 <= k <= 1.0
    ensures InHull(Between(a, b, k), a, b, c)
  {
    assert AverageOf(Between(a, b, k), a, b, c, 1.0 - k, k, 0.0);
  }

  lemma HullIsConvex(p: Point, q: Point, k: real, a: Point, b: Point, c: Point)
    requires InHull(p, a, b, c) && InHull(q, a, b, c) && 0.0 <= k <= 1.0
    ensures InHull(Between(p, q, k), a, b, c)
  {
    var u, v, w :| AverageOf(p, a, b, c, u, v, w);
    var u', v', w' :| AverageOf(q, a, b, c, u', v', w');
    hide AverageOf, Between, Mix;
    MixedAverage(p, q, k, a, b, c, u, v, w, u', v', w');
  }

  lemma MixedAverage(p: Point, q: Point, k: real, a: Point, b: Point, c: Point,
                     u: real, v: real, w: real, u': real, v': real, w': real)
    requires AverageOf(p, a, b, c, u, v, w) && AverageOf(q, a, b, c, u', v', w') && 0.0 <= k <= 1.0
    ensures AverageOf(Between(p, q, k), a, b, c, Mix(u, u', k), Mix(v, v', k), Mix(w, w', k))
  {
    hide Mix, Weighted;
    MixSign(u, u', k);
    MixSign(v, v', k);
    MixSign(w, w', k);
    MixSum(u, v, w, u', v', w', k);
    MixOfSums(u, v, w, u', v', w', k, a.x, b.x, c.x);
    MixOfSums(u, v, w, u', v', w', k, a.y, b.y, c.y);
  }

  lemma MixSign(u: real, u': real, k: real)
    requires u >= 0.0 && u' >= 0.0 && 0.0 <= k <= 1.0
    ensures Mix(u, u', k) >= 0.0
  {
    MulSign(1.0 - k, u);
    MulSign(k, u');
  }

  lemma MixSum(u: real, v: real, w: real, u': real, v': real, w': real, k: real)
    requires u + v + w == 1.0 && u' + v' + w' == 1.0
    ensures Mix(u, u', k) + Mix(v, v', k) + Mix(w, w', k) == 1.0
  {
    Factor(u, v, w, 1.0 - k);
    Factor(u', v', w', k);
  }

  lemma MixOfSums(u: real, v: real, w: real, u': real, v': real, w': real, k: real, a: real, b: real, c: real)
    ensures Mix(Weighted(u, v, w, a, b, c), Weighted(u', v', w', a, b, c), k)
            == Weighted(Mix(u, u', k), Mix(v, v', k), Mix(w, w', k), a, b, c)
  {}

  // ---- an edge that cuts the rectangle off ---------------------------------------------------------------

  predicate AllRight(a: Point, b: Point, w: real, h: real) {
    && Orient(a, b, Point(-w, -h)) < 0.0 && Orient(a, b, Point(w, -h)) < 0.0
    && Orient(a, b, Point(w, h)) < 0.0 && Orient(a, b, Point(-w, h)) < 0.0
  }

  /** The whole rectangle is strictly on one side of the line through a and b, and c is not. */
  predicate Cuts(a: Point, b: Point, c: Point, w: real, h: real) {
    (AllRight(a, b, w, h) && Orient(a, b, c) >= 0.0) || (AllRight(b, a, w, h) && Orient(b, a, c) >= 0.0)
  }

  predicate SomeEdgeCuts(a: Point, b: Point, c: Point, w: real, h: real) {
    Cuts(a, b, c, w, h) || Cuts(b, c, a, w, h) || Cuts(c, a, b, w, h)
  }

  lemma CutsRotates(a: Point, b: Point, c: Point, w: real, h: real)
    ensures SomeEdgeCuts(a, b, c, w, h) == SomeEdgeCuts(b, c, a, w, h) == SomeEdgeCuts(b, a, c, w, h)
  {
    hide AllRight, Orient;
  }

  lemma OrientGap(a: Point, b: Point, p: Point, q: Point)
    ensures Orient(a, b, q) - Orient(a, b, p) == Mul(b.x - a.x, q.y - p.y) - Mul(b.y - a.y, q.x - p.x)
  {}

  /** An edge over the right end of the rectangle that does not rise above the point v, which is to the
      right of the rectangle and not above it, falls to the right; so the rectangle is below all of it. */
  lemma FallingEdgeCuts(a: Point, b: Point, v: Point, w: real, h: real)
    requires w >= 0.0 && h >= 0.0 && a.x <= w < b.x && v.x > w && v.y <= h
    requires Orient(a, b, v) >= 0.0 && Orient(a, b, Point(w, h)) < 0.0
    ensures AllRight(a, b, w, h)
  {
    var dx, dy, top := b.x - a.x, b.y - a.y, Point(w, h);
    OrientGap(a, b, top, v);
    OrientGap(a, b, top, Point(-w, -h));
    OrientGap(a, b, top, Point(w, -h));
    OrientGap(a, b, top, Point(-w, h));
    hide Orient, Mul;
    MulSign(dx, v.y - h);
    MulSign(dy, v.x - w);
    MulSign(dx, -h - h);
    MulSign(dx, 0.0);
    MulSign(dy, -w - w);
    MulSign(dy, 0.0);
  }

  /** Where the edge meets the right end of the rectangle. */
  lemma EdgeCrossing(a: Point, b: Point, w: real, h: real) returns (k: real)
    requires a.x <= w < b.x && Orient(a, b, Point(w, h)) >= 0.0
    ensures 0.0 <= k <= 1.0 && Between(a, b, k).x == w && Between(a, b, k).y <= h
  {
    var dx, dy := b.x - a.x, b.y - a.y;
    k := (w - a.x) / dx;
    assert k * dx == w - a.x;
    Share(w - a.x, dx, k);
    assert Orient(a, b, Point(w, h)) == dx * (h - a.y) - dy * (w - a.x);
    assert Between(a, b, k).x == a.x + k * dx && Between(a, b, k).y == a.y + k * dy;
    assert dy * (w - a.x) == (k * dy) * dx;
    assert dx * (h - a.y - k * dy) >= 0.0;
    hide Orient;
    LeftFactor(dx, h - a.y - k * dy);
  }

  lemma Share(n: real, d: real, k: real)
    requires d > 0.0 && 0.0 <= n <= d && k * d == n
    ensures 0.0 <= k <= 1.0
  {
    assert Mul(k, d) == n && Mul(1.0 - k, d) == d - n;
    hide Mul;
    StrictSign(k, d);
    StrictSign(1.0 - k, d);
  }

  lemma LeftFactor(d: real, x: real)
    requires d > 0.0 && d * x >= 0.0
    ensures x >= 0.0
  {}

  /** The edge from a to b, with c above it. */
  lemma LowOnEdge(a: Point, b: Point, c: Point, v: Point, w: real, h: real) returns (p: Point)
    requires w >= 0.0 && h >= 0.0 && a.x <= w < b.x && v.x > w && v.y <= h
    requires Orient(a, b, c) >= 0.0 && Orient(a, b, v) >= 0.0 && !Cuts(a, b, c, w, h)
    ensures InHull(p, a, b, c) && p.x == w && p.y <= h
  {
    hide Orient, InHull;
    if Orient(a, b, Point(w, h)) < 0.0 { FallingEdgeCuts(a, b, v, w, h); }
    var k := EdgeCrossing(a, b, w, h);
    p := Between(a, b, k);
    EdgeInHull(a, b, c, k);
  }

  lemma Turns(a: Point, b: Point, c: Point)
    ensures Orient(a, b, c) == Orient(b, c, a) == Orient(c, a, b) == -Orient(b, a, c)
    ensures Orient(b, a, c) == Orient(a, c, b) == Orient(c, b, a)
    ensures Orient(a, b, b) == 0.0 && Orient(a, b, a) == 0.0
  {}

  /** A corner to the right of the rectangle and not above it, and another one not to the right. */
  lemma LowFromRight(v: Point, b: Point, c: Point, w: real, h: real) returns (p: Point)
    requires w >= 0.0 && h >= 0.0 && v.x > w && v.y <= h && b.x <= w && !SomeEdgeCuts(v, b, c, w, h)
    ensures InHull(p, v, b, c) && p.x == w && p.y <= h
  {
    Turns(v, b, c);
    Turns(b, v, c);
    Turns(c, v, b);
    CutsRotates(v, b, c, w, h);
    CutsRotates(b, c, v, w, h);
    hide Orient, InHull, AllRight;
    if Orient(b, v, c) >= 0.0 {
      p := LowOnEdge(b, v, c, v, w, h);
      InHullRotates(p, b, v, c);
    } else if c.x <= w {
      p := LowOnEdge(c, v, b, v, w, h);
      InHullRotates(p, c, v, b);
    } else {
      p := LowOnEdge(b, c, v, v, w, h);
      InHullRotates(p, b, c, v);
      InHullRotates(p, c, v, b);
    }
  }
  // ---- reflections ------------------------------------------------------------------------------------------

  function FlipX(p: Point): Point { Point(-p.x, p.y) }
  function FlipY(p: Point): Point { Point(p.x, -p.y) }

  lemma FlipsTurn(a: Point, b: Point, c: Point)
    ensures Orient(FlipX(a), FlipX(b), FlipX(c)) == Orient(b, a, c) == Orient(FlipY(a), FlipY(b), FlipY(c))
  {}

  lemma FlipsCut(a: Point, b: Point, c: Point, w: real, h: real)
    ensures Cuts(FlipX(a), FlipX(b), FlipX(c), w, h) == Cuts(a, b, c, w, h) == Cuts(FlipY(a), FlipY(b), FlipY(c), w, h)
  {
    FlipsRight(a, b, w, h);
    FlipsRight(b, a, w, h);
    FlipsTurn(a, b, c);
    FlipsTurn(b, a, c);
    hide AllRight, Orient;
  }

  lemma FlipsRight(a: Point, b: Point, w: real, h: real)
    ensures AllRight(FlipX(a), FlipX(b), w, h) == AllRight(b, a, w, h) == AllRight(FlipY(a), FlipY(b), w, h)
  {
    FlipsTurn(a, b, Point(-w, -h));
    FlipsTurn(a, b, Point(w, -h));
    FlipsTurn(a, b, Point(w, h));
    FlipsTurn(a, b, Point(-w, h));
    assert -(-w) == w && -(-h) == h;
    hide Orient;
  }

  lemma FlipsHull(p: Point, a: Point, b: Point, c: Point)
    ensures InHull(p, a, b, c) ==> InHull(FlipX(p), FlipX(a), FlipX(b), FlipX(c)) && InHull(FlipY(p), FlipY(a), FlipY(b), FlipY(c))
  {
    if InHull(p, a, b, c) {
      var u, v, w :| AverageOf(p, a, b, c, u, v, w);
      assert AverageOf(FlipX(p), FlipX(a), FlipX(b), FlipX(c), u, v, w);
      assert AverageOf(FlipY(p), FlipY(a), FlipY(b), FlipY(c), u, v, w);
    }
  }

  // ---- a point of the triangle in the strip, not above; not below; neither -------------------------------------

  /** The corner v is not above the rectangle; some corner is not to the right of it, some not to the left. */
  lemma LowFrom(v: Point, b: Point, c: Point, w: real, h: real) returns (p: Point)
    requires w >= 0.0 && h >= 0.0 && v.y <= h && !SomeEdgeCuts(v, b, c, w, h)
    requires v.x <= w || b.x <= w || c.x <= w
    requires v.x >= -w || b.x >= -w || c.x >= -w
    ensures InHull(p, v, b, c) && -w <= p.x <= w && p.y <= h
  {
    hide InHull, SomeEdgeCuts;
    if -w <= v.x <= w {
      CornerInHull(v, b, c);
      p := v;
    } else if v.x > w {
      p := LowOver(v, b, c, w, h);
    } else {
      FlipsSome(v, b, c, w, h);
      var q := LowOver(FlipX(v), FlipX(b), FlipX(c), w, h);
      FlipsHull(q, FlipX(v), FlipX(b), FlipX(c));
      p := FlipX(q);
      assert FlipX(FlipX(v)) == v && FlipX(FlipX(b)) == b && FlipX(FlipX(c)) == c;
    }
  }

  lemma LowOver(v: Point, b: Point, c: Point, w: real, h: real) returns (p: Point)
    requires w >= 0.0 && h >= 0.0 && v.x > w && v.y <= h && !SomeEdgeCuts(v, b, c, w, h)
    requires b.x <= w || c.x <= w
    ensures InHull(p, v, b, c) && p.x == w && p.y <= h
  {
    CutsRotates(v, b, c, w, h);
    CutsRotates(b, c, v, w, h);
    CutsRotates(c, v, b, w, h);
    hide InHull, SomeEdgeCuts;
    if b.x <= w {
      p := LowFromRight(v, b, c, w, h);
    } else {
      p := LowFromRight(v, c, b, w, h);
      InHullRotates(p, v, c, b);
      InHullRotates(p, c, v, b);
      InHullRotates(p, c, b, v);
      InHullRotates(p, b, v, c);
    }
  }

  lemma FlipsSome(a: Point, b: Point, c: Point, w: real, h: real)
    ensures SomeEdgeCuts(FlipX(a), FlipX(b), FlipX(c), w, h) == SomeEdgeCuts(a, b, c, w, h)
    ensures SomeEdgeCuts(FlipY(a), FlipY(b), FlipY(c), w, h) == SomeEdgeCuts(a, b, c, w, h)
  {
    FlipsCut(a, b, c, w, h);
    FlipsCut(b, c, a, w, h);
    FlipsCut(c, a, b, w, h);
    hide Cuts;
  }

  /** The corners' coordinates reach into the rectangle's ranges, whatever the corner. */
  predicate Reaches(a: Point, b: Point, c: Point, w: real, h: real) {
    && (a.x <= w || b.x <= w || c.x <= w) && (a.x >= -w || b.x >= -w || c.x >= -w)
    && (a.y <= h || b.y <= h || c.y <= h) && (a.y >= -h || b.y >= -h || c.y >= -h)
  }

  lemma Low(a: Point, b: Point, c: Point, w: real, h: real) returns (p: Point)
    requires w >= 0.0 && h >= 0.0 && !SomeEdgeCuts(a, b, c, w, h) && Reaches(a, b, c, w, h)
    ensures InHull(p, a, b, c) && -w <= p.x <= w && p.y <= h
  {
    CutsRotates(a, b, c, w, h);
    CutsRotates(b, c, a, w, h);
    hide InHull, SomeEdgeCuts;
    if a.y <= h {
      p := LowFrom(a, b, c, w, h);
    } else if b.y <= h {
      p := LowFrom(b, c, a, w, h);
      InHullRotates(p, b, c, a);
      InHullRotates(p, c, a, b);
    } else {
      p := LowFrom(c, a, b, w, h);
      InHullRotates(p, c, a, b);
    }
  }

  lemma High(a: Point, b: Point, c: Point, w: real, h: real) returns (p: Point)
    requires w >= 0.0 && h >= 0.0 && !SomeEdgeCuts(a, b, c, w, h) && Reaches(a, b, c, w, h)
    ensures InHull(p, a, b, c) && -w <= p.x <= w && p.y >= -h
  {
    FlipsSome(a, b, c, w, h);
    hide InHull, SomeEdgeCuts;
    var q := Low(FlipY(a), FlipY(b), FlipY(c), w, h);
    FlipsHull(q, FlipY(a), FlipY(b), FlipY(c));
    p := FlipY(q);
    assert FlipY(FlipY(a)) == a && FlipY(FlipY(b)) == b && FlipY(FlipY(c)) == c;
  }

  lemma MixBounds(x: real, y: real, k: real, w: real)
    requires -w <= x <= w && -w <= y <= w && 0.0 <= k <= 1.0
    ensures -w <= Mix(x, y, k) <= w
  {
    MixSign(x + w, y + w, k);
    MixSign(w - x, w - y, k);
    assert Mix(x + w, y + w, k) == Mix(x, y, k) + w && Mix(w - x, w - y, k) == w - Mix(x, y, k);
  }

  lemma MixHits(x: real, y: real, t: real) returns (k: real)
    requires x < t < y
    ensures 0.0 <= k <= 1.0 && Mix(x, y, k) == t
  {
    k := (t - x) / (y - x);
    assert k * (y - x) == t - x;
    Share(t - x, y - x, k);
    assert Mix(x, y, k) == x + k * (y - x);
  }

  /** In the rectangle's coordinates: a triangle none of whose edges cuts the rectangle off, and whose corners
      reach into its ranges, shares a point with it. */
  lemma SharedPoint(a: Point, b: Point, c: Point, w: real, h: real) returns (p: Point)
    requires w >= 0.0 && h >= 0.0 && !SomeEdgeCuts(a, b, c, w, h) && Reaches(a, b, c, w, h)
    ensures InHull(p, a, b, c) && -w <= p.x <= w && -h <= p.y <= h
  {
    var low := Low(a, b, c, w, h);
    var high := High(a, b, c, w, h);
    hide InHull, Mix;
    if low.y >= -h {
      p := low;
    } else if high.y <= h {
      p := high;
    } else {
      var k := MixHits(low.y, high.y, h);
      HullIsConvex(low, high, k, a, b, c);
      MixBounds(low.x, high.x, k, w);
      p := Between(low, high, k);
    }
  }

  // ---- from the rectangle's coordinates to the plane's ------------------------------------------------------------

  function Local(o: OBB, p: Point): Point { Point(o.LocalX(p), o.LocalY(p)) }

  /** The difference (dx, dy) along the rectangle's axes. */
  function TurnedX(o: OBB, dx: real, dy: real): real { dx * o.cos + dy * o.sin }
  function TurnedY(o: OBB, dx: real, dy: real): real { -dx * o.sin + dy * o.cos }

  function Cross4(dx: real, dy: real, ex: real, ey: real): real { dx * ey - dy * ex }

  lemma LocalOrient(o: OBB, a: Point, b: Point, q: Point)
    requires o.Valid()
    ensures Orient(Local(o, a), Local(o, b), Local(o, q)) == Orient(a, b, q)
  {
    hide OBB.LocalX, OBB.LocalY, OBB.Valid, Orient, Cross4, TurnedX, TurnedY;
    LocalGap(o, a, b);
    LocalGap(o, a, q);
    OrientParts(a, b, q);
    OrientParts(Local(o, a), Local(o, b), Local(o, q));
    TurnedCross(o, b.x - a.x, b.y - a.y, q.x - a.x, q.y - a.y);
  }

  lemma OrientParts(a: Point, b: Point, q: Point)
    ensures Orient(a, b, q) == Cross4(b.x - a.x, b.y - a.y, q.x - a.x, q.y - a.y)
  {}

  lemma LocalGap(o: OBB, a: Point, b: Point)
    ensures o.LocalX(b) - o.LocalX(a) == TurnedX(o, b.x - a.x, b.y - a.y)
    ensures o.LocalY(b) - o.LocalY(a) == TurnedY(o, b.x - a.x, b.y - a.y)
  {}

  lemma TurnedCross(o: OBB, dx: real, dy: real, ex: real, ey: real)
    requires o.Valid()
    ensures Cross4(TurnedX(o, dx, dy), TurnedY(o, dx, dy), TurnedX(o, ex, ey), TurnedY(o, ex, ey)) == Cross4(dx, dy, ex, ey)
  {
    var c, s := o.cos, o.sin;
    assert (dx * c + dy * s) * (-ex * s + ey * c) - (-dx * s + dy * c) * (ex * c + ey * s) == (dx * ey - dy * ex) * (c * c + s * s);
  }

  lemma HullFromLocal(o: OBB, p: Point, t: Triangle)
    requires o.Valid() && InHull(p, Local(o, t.a), Local(o, t.b), Local(o, t.c))
    ensures InHull(o.Corner(p.x, p.y), t.a, t.b, t.c)
  {
    var a, b, c := Local(o, t.a), Local(o, t.b), Local(o, t.c);
    var u, v, w :| AverageOf(p, a, b, c, u, v, w);
    FromLocal(o, t.a);
    FromLocal(o, t.b);
    FromLocal(o, t.c);
    hide OBB.LocalX, OBB.LocalY, OBB.Corner, Weighted;
    CornerOfAverage(o, a, b, c, u, v, w);
    assert AverageOf(o.Corner(p.x, p.y), t.a, t.b, t.c, u, v, w);
  }

  lemma CornerOfAverage(o: OBB, a: Point, b: Point, c: Point, u: real, v: real, w: real)
    requires u + v + w == 1.0
    ensures var p := o.Corner(Weighted(u, v, w, a.x, b.x, c.x), Weighted(u, v, w, a.y, b.y, c.y));
            var a', b', c' := o.Corner(a.x, a.y), o.Corner(b.x, b.y), o.Corner(c.x, c.y);
            p == Point(Weighted(u, v, w, a'.x, b'.x, c'.x), Weighted(u, v, w, a'.y, b'.y, c'.y))
  {
    var c', s' := o.cos, o.sin;
    WeightedAffine(u, v, w, o.cx, a.x, b.x, c.x, c', a.y, b.y, c.y, -s');
    WeightedAffine(u, v, w, o.cy, a.x, b.x, c.x, s', a.y, b.y, c.y, c');
    CornerIs(o, a.x, a.y);
    CornerIs(o, b.x, b.y);
    CornerIs(o, c.x, c.y);
    CornerIs(o, Weighted(u, v, w, a.x, b.x, c.x), Weighted(u, v, w, a.y, b.y, c.y));
    hide Weighted, OBB.Corner, Mul;
  }

  lemma CornerIs(o: OBB, x: real, y: real)
    ensures o.Corner(x, y) == Point(o.cx + Mul(x, o.cos) + Mul(y, -o.sin), o.cy + Mul(x, o.sin) + Mul(y, o.cos))
  {}

  lemma WeightedAffine(u: real, v: real, w: real, d: real, x: real, x': real, x'': real, k: real,
                       y: real, y': real, y'': real, m: real)
    requires u + v + w == 1.0
    ensures d + Mul(Weighted(u, v, w, x, x', x''), k) + Mul(Weighted(u, v, w, y, y', y''), m)
            == Weighted(u, v, w, d + Mul(x, k) + Mul(y, m), d + Mul(x', k) + Mul(y', m), d + Mul(x'', k) + Mul(y'', m))
  {
    WeightedScaled(u, v, w, x, x', x'', k);
    WeightedScaled(u, v, w, y, y', y'', m);
    WeightedSum(u, v, w, d, Mul(x, k), Mul(x', k), Mul(x'', k), Mul(y, m), Mul(y', m), Mul(y'', m));
    hide Weighted, Mul;
  }

  lemma WeightedScaled(u: real, v: real, w: real, x: real, x': real, x'': real, k: real)
    ensures Mul(Weighted(u, v, w, x, x', x''), k) == Weighted(u, v, w, Mul(x, k), Mul(x', k), Mul(x'', k))
  {}

  lemma WeightedSum(u: real, v: real, w: real, d: real, x: real, x': real, x'': real, y: real, y': real, y'': real)
    requires u + v + w == 1.0
    ensures d + Weighted(u, v, w, x, x', x'') + Weighted(u, v, w, y, y', y'') == Weighted(u, v, w, d + x + y, d + x' + y', d + x'' + y'')
  {
    assert d == (u + v + w) * d;
  }

  /** Projections on an edge's normal are turns. */
  lemma NormalDot(t: Triangle, i: nat, q: Point)
    requires i < 3
    ensures var c := TriangleCorners(t);
            q.Dot(EdgeNormal(t, i)) - c[i].Dot(EdgeNormal(t, i)) == Orient(c[i], c[(i + 1) % 3], q)
  {}

  /** The rectangle's corner in its own coordinates. */
  lemma CornersLocal(o: OBB, k: nat)
    requires o.Valid() && k < 4
    ensures |o.Corners()| == 4
    ensures Local(o, o.Corners()[k]) in {Point(-o.hw, -o.hh), Point(o.hw, -o.hh), Point(o.hw, o.hh), Point(-o.hw, o.hh)}
  {
    hide OBB.LocalX, OBB.LocalY, OBB.Corner;
    ToLocal(o, -o.hw, -o.hh);
    ToLocal(o, o.hw, -o.hh);
    ToLocal(o, o.hw, o.hh);
    ToLocal(o, -o.hw, o.hh);
  }

  /** If the rectangle is to the right of the line through an edge, all its corners project before the edge. */
  lemma CutProjects(o: OBB, t: Triangle, i: nat)
    requires o.Valid() && i < 3
    ensures var c, n := TriangleCorners(t), EdgeNormal(t, i);
            var a, b := Local(o, c[i]), Local(o, c[(i + 1) % 3]);
            && |o.Corners()| == 4
            && (AllRight(a, b, o.hw, o.hh) ==> forall k :: 0 <= k < 4 ==> o.Corners()[k].Dot(n) < c[i].Dot(n))
            && (AllRight(b, a, o.hw, o.hh) ==> forall k :: 0 <= k < 4 ==> o.Corners()[k].Dot(n) > c[i].Dot(n))
  {
    var c, n := TriangleCorners(t), EdgeNormal(t, i);
    FourCorners(o);
    hide Orient, Point.Dot, OBB.Corners, OBB.Valid, Local, EdgeNormal, OBB.LocalX, OBB.LocalY;
    forall k | 0 <= k < 4
      ensures AllRight(Local(o, c[i]), Local(o, c[(i + 1) % 3]), o.hw, o.hh) ==> o.Corners()[k].Dot(n) < c[i].Dot(n)
      ensures AllRight(Local(o, c[(i + 1) % 3]), Local(o, c[i]), o.hw, o.hh) ==> o.Corners()[k].Dot(n) > c[i].Dot(n)
    {
      CornersLocal(o, k);
      NormalDot(t, i, o.Corners()[k]);
      LocalOrient(o, c[i], c[(i + 1) % 3], o.Corners()[k]);
      Turns(Local(o, c[i]), Local(o, c[(i + 1) % 3]), Local(o, o.Corners()[k]));
    }
  }

  /** The three corners' projections, from that of the edge. */
  lemma TriangleProjects(o: OBB, t: Triangle, i: nat, j: nat)
    requires o.Valid() && i < 3 && j < 3
    ensures var c, n := TriangleCorners(t), EdgeNormal(t, i);
            var turn := Orient(Local(o, c[i]), Local(o, c[(i + 1) % 3]), Local(o, c[(i + 2) % 3]));
            c[j].Dot(n) == c[i].Dot(n) + if j == (i + 2) % 3 then turn else 0.0
  {
    var c := TriangleCorners(t);
    NormalDot(t, i, c[j]);
    LocalOrient(o, c[i], c[(i + 1) % 3], c[(i + 2) % 3]);
    Turns(c[i], c[(i + 1) % 3], c[(i + 2) % 3]);
    hide Orient, Point.Dot, OBB.Valid, Local, EdgeNormal;
    assert j == i || j == (i + 1) % 3 || j == (i + 2) % 3;
  }

  lemma ZeroDot(p: Point, q: Point)
    ensures p.Dot(Point(0.0, 0.0)) == q.Dot(Point(0.0, 0.0))
  {}

  /** An edge on whose normal the projections meet does not cut. */
  lemma EdgeOverlaps(o: OBB, t: Triangle, i: nat)
    requires o.Valid() && i < 3
    requires EdgeNormal(t, i) != Point(0.0, 0.0) ==> Overlap(o.Corners(), TriangleCorners(t), EdgeNormal(t, i))
    ensures var c := TriangleCorners(t);
            !Cuts(Local(o, c[i]), Local(o, c[(i + 1) % 3]), Local(o, c[(i + 2) % 3]), o.hw, o.hh)
  {
    var c := TriangleCorners(t);
    CutProjects(o, t, i);
    TriangleProjects(o, t, i, 0);
    TriangleProjects(o, t, i, 1);
    TriangleProjects(o, t, i, 2);
    Turns(Local(o, c[i]), Local(o, c[(i + 1) % 3]), Local(o, c[(i + 2) % 3]));
    hide Orient, Point.Dot, OBB.Corners, OBB.Valid, Local, EdgeNormal, AllRight;
    ZeroDot(o.Corners()[0], c[i]);
  }

  lemma AxisDots(o: OBB, lx: real, ly: real, q: Point)
    requires o.Valid()
    ensures o.Corner(lx, ly).Dot(o.AxisX()) - q.Dot(o.AxisX()) == lx - o.LocalX(q)
    ensures o.Corner(lx, ly).Dot(o.AxisY()) - q.Dot(o.AxisY()) == ly - o.LocalY(q)
  {
    ToLocal(o, lx, ly);
    var p := o.Corner(lx, ly);
    assert o.LocalX(p) - o.LocalX(q) == p.Dot(o.AxisX()) - q.Dot(o.AxisX());
    assert o.LocalY(p) - o.LocalY(q) == p.Dot(o.AxisY()) - q.Dot(o.AxisY());
  }

  lemma AxesReach(o: OBB, t: Triangle)
    requires o.Valid()
    requires Overlap(o.Corners(), TriangleCorners(t), o.AxisX()) && Overlap(o.Corners(), TriangleCorners(t), o.AxisY())
    ensures Reaches(Local(o, t.a), Local(o, t.b), Local(o, t.c), o.hw, o.hh)
  {
    CornerDots(o, t.a);
    CornerDots(o, t.b);
    CornerDots(o, t.c);
    FourCorners(o);
    hide Point.Dot, OBB.Corners, OBB.AxisX, OBB.AxisY, OBB.LocalX, OBB.LocalY;
  }

  lemma CornerDots(o: OBB, q: Point)
    requires o.Valid()
    ensures forall k :: 0 <= k < |o.Corners()| ==>
              && -o.hw - o.LocalX(q) <= o.Corners()[k].Dot(o.AxisX()) - q.Dot(o.AxisX()) <= o.hw - o.LocalX(q)
              && -o.hh - o.LocalY(q) <= o.Corners()[k].Dot(o.AxisY()) - q.Dot(o.AxisY()) <= o.hh - o.LocalY(q)
  {
    AxisDots(o, -o.hw, -o.hh, q);
    AxisDots(o, o.hw, -o.hh, q);
    AxisDots(o, o.hw, o.hh, q);
    AxisDots(o, -o.hw, o.hh, q);
    hide Point.Dot, OBB.Corner, OBB.AxisX, OBB.AxisY, OBB.LocalX, OBB.LocalY;
  }

  /** Conversely an average of the corners projects between them. */
  lemma HullIsSurrounding(p: Point, t: Triangle, n: Point)
    requires InHull(p, t.a, t.b, t.c)
    ensures t.a.Dot(n) >= p.Dot(n) || t.b.Dot(n) >= p.Dot(n) || t.c.Dot(n) >= p.Dot(n)
    ensures t.a.Dot(n) <= p.Dot(n) || t.b.Dot(n) <= p.Dot(n) || t.c.Dot(n) <= p.Dot(n)
  {
    var u, v, w :| AverageOf(p, t.a, t.b, t.c, u, v, w);
    var ha, hb, hc := t.a.Dot(n) - p.Dot(n), t.b.Dot(n) - p.Dot(n), t.c.Dot(n) - p.Dot(n);
    WeighedDots(p, t, n, u, v, w);
    hide Point.Dot, Mul;
    NotAllOneSide(u, v, w, ha, hb, hc);
  }

  lemma WeighedDots(p: Point, t: Triangle, n: Point, u: real, v: real, w: real)
    requires AverageOf(p, t.a, t.b, t.c, u, v, w)
    ensures Mul(u, t.a.Dot(n) - p.Dot(n)) + Mul(v, t.b.Dot(n) - p.Dot(n)) + Mul(w, t.c.Dot(n) - p.Dot(n)) == 0.0
  {
    hide Point.Dot, AverageOf, Weighted;
    DotOfAverage(p, t, n, u, v, w);
    assert u + v + w == 1.0 by { SumOfWeights(p, t, u, v, w); }
    Spread(u, v, w, t.a.Dot(n), t.b.Dot(n), t.c.Dot(n), p.Dot(n));
  }

  lemma SumOfWeights(p: Point, t: Triangle, u: real, v: real, w: real)
    requires AverageOf(p, t.a, t.b, t.c, u, v, w)
    ensures u + v + w == 1.0
  {}

  lemma DotOfAverage(p: Point, t: Triangle, n: Point, u: real, v: real, w: real)
    requires AverageOf(p, t.a, t.b, t.c, u, v, w)
    ensures p.Dot(n) == u * t.a.Dot(n) + v * t.b.Dot(n) + w * t.c.Dot(n)
  {
    assert p.x * n.x == u * (t.a.x * n.x) + v * (t.b.x * n.x) + w * (t.c.x * n.x);
    assert p.y * n.y == u * (t.a.y * n.y) + v * (t.b.y * n.y) + w * (t.c.y * n.y);
  }

  /** Main result: the separating-axis test is exact.  It is true if and only if the rotated rectangle and the
      closed triangle, be it flat or a point, share a point. */
  lemma TouchesIsExact(o: OBB, t: Triangle)
    requires o.Valid()
    ensures Touches(o, t) <==> exists p :: o.ContainsPoint(p) && InHull(p, t.a, t.b, t.c)
  {
    hide InHull, OBB.Valid, OBB.ContainsPoint;
    if Touches(o, t) {
      var p := TouchingPoint(o, t);
    }
    if p :| o.ContainsPoint(p) && InHull(p, t.a, t.b, t.c) {
      hide OBB.Corners, Point.Dot, Axis, Overlap;
      forall n | Axis(o, t, n) ensures Overlap(o.Corners(), TriangleCorners(t), n) {
        HullIsSurrounding(p, t, n);
        CornersReach(o, p, n);
        FourCorners(o);
        OverlapThrough(o.Corners(), t, p, n);
      }
    }
  }

  lemma TouchingPoint(o: OBB, t: Triangle) returns (p: Point)
    requires o.Valid() && Touches(o, t)
    ensures o.ContainsPoint(p) && InHull(p, t.a, t.b, t.c)
  {
    TouchesMeans(o, t);
    NoEdgeCuts(o, t);
    AxesReach(o, t);
    hide InHull, Touches, SomeEdgeCuts, Overlap, Cuts, Local, Reaches, OBB.Corners, OBB.LocalX, OBB.LocalY, OBB.Corner;
    var q := SharedPoint(Local(o, t.a), Local(o, t.b), Local(o, t.c), o.hw, o.hh);
    HullFromLocal(o, q, t);
    ToLocal(o, q.x, q.y);
    p := o.Corner(q.x, q.y);
  }

  /** A rectangle around the corners holds the closed triangle. */
  lemma HullInBox(p: Point, t: Triangle, r: Rect)
    requires InHull(p, t.a, t.b, t.c) && r.Has(t.a) && r.Has(t.b) && r.Has(t.c)
    ensures r.Has(p)
  {
    HullIsSurrounding(p, t, Point(1.0, 0.0));
    HullIsSurrounding(p, t, Point(0.0, 1.0));
    hide InHull, Point.Dot;
    DotUnit(p);
    DotUnit(t.a);
    DotUnit(t.b);
    DotUnit(t.c);
  }

  lemma NoEdgeCuts(o: OBB, t: Triangle)
    requires o.Valid() && Touches(o, t)
    ensures !SomeEdgeCuts(Local(o, t.a), Local(o, t.b), Local(o, t.c), o.hw, o.hh)
  {
    TouchesMeans(o, t);
    hide Overlap, Cuts, Local, OBB.Corners, OBB.Valid, EdgeNormal, Touches;
    EdgeOverlaps(o, t, 0);
    EdgeOverlaps(o, t, 1);
    EdgeOverlaps(o, t, 2);
  }

  lemma TouchesMeans(o: OBB, t: Triangle)
    requires Touches(o, t)
    ensures Overlap(o.Corners(), TriangleCorners(t), o.AxisX()) && Overlap(o.Corners(), TriangleCorners(t), o.AxisY())
    ensures forall i {:trigger EdgeNormal(t, i)} :: 0 <= i < 3 && EdgeNormal(t, i) != Point(0.0, 0.0) ==>
              Overlap(o.Corners(), TriangleCorners(t), EdgeNormal(t, i))
  {
    hide Overlap;
    assert Axis(o, t, o.AxisX()) && Axis(o, t, o.AxisY());
    assert forall i {:trigger EdgeNormal(t, i)} :: 0 <= i < 3 && EdgeNormal(t, i) != Point(0.0, 0.0) ==> Axis(o, t, EdgeNormal(t, i));
  }
}
