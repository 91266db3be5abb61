/** The even-odd rule (pointToPolygonDist in internal/geo/polylabel.go) and how it behaves when an ear
    is clipped: the crossings of the cut cancel. */
module EvenOdd {
  import opened Plane

  /** The edge crosses the ray from p to the right. */
  predicate Crosses(p: Point, a: Point, b: Point) {
    (a.y > p.y) != (b.y > p.y) && p.x < (b.x - a.x) * (p.y - a.y) / (b.y - a.y) + a.x
  }

  /** triCross in the source: on which side of the line from a to b the point lies. */
  function Orient(a: Point, b: Point, p: Point): real { b.Sub(a).Cross(p.Sub(a)) }

  lemma DivideBelow(u: real, t: real, d: real)
    requires d != 0.0
    ensures d > 0.0 ==> (u < t / d <==> Mul(u, d) < t)
    ensures d < 0.0 ==> (u < t / d <==> Mul(u, d) > t)
  {
    var q := t / d;
    assert Mul(q, d) == t;
    hide Mul;
    MulSub(q, u, d);
    MulSign(q - u, d);
    MulSub(u, q, d);
    MulSign(u - q, d);
    MulNeg(q - u, d);
    MulSign(-(q - u), -d);
    MulSign(q - u, -d);
    MulSign(u - q, -d);
    MulNeg(u - q, d);
  }

  lemma OrientIs(a: Point, b: Point, p: Point)
    ensures Orient(a, b, p) == (b.x - a.x) * (p.y - a.y) - Mul(p.x - a.x, b.y - a.y)
  {}

  /** Which edges cross, by the sign of the turn. */
  lemma CrossesBySign(p: Point, a: Point, b: Point)
    ensures Crosses(p, a, b) <==>
            (a.y <= p.y < b.y && Orient(a, b, p) > 0.0) || (b.y <= p.y < a.y && Orient(a, b, p) < 0.0)
  {
    if (a.y > p.y) != (b.y > p.y) {
      var t := (b.x - a.x) * (p.y - a.y);
      OrientIs(a, b, p);
      DivideBelow(p.x - a.x, t, b.y - a.y);
      assert p.x < t / (b.y - a.y) + a.x <==> p.x - a.x < t / (b.y - a.y);
    }
  }

  lemma OrientSwap(a: Point, b: Point, p: Point)
    ensures Orient(b, a, p) == -Orient(a, b, p)
  {}

  /** An edge crosses the same way in both directions. */
  lemma CrossesSymmetric(p: Point, a: Point, b: Point)
    ensures Crosses(p, a, b) == Crosses(p, b, a)
  {
    CrossesBySign(p, a, b);
    CrossesBySign(p, b, a);
    OrientSwap(a, b, p);
  }

  // ---- parity along chains and rings ----------------------------------------------------------------

  /** Parity of the crossings of an open chain. */
  predicate Chain(p: Point, s: seq<Point>) {
    if |s| < 2 then false else Crosses(p, s[0], s[1]) != Chain(p, s[1..])
  }

  /** Parity of the crossings of the closed ring: the even-odd rule. */
  predicate Inside(p: Point, s: seq<Point>) {
    if |s| == 0 then false else Chain(p, s) != Crosses(p, s[|s| - 1], s[0])
  }

  /** The source's loop: each point with the one before it, the first with the last. */
  method PointInPolygon(p: Point, poly: seq<Point>) returns (inside: bool)
    ensures inside == Inside(p, poly)
  {
    inside := false;
    if poly == [] { return; }
    var j := |poly| - 1;
    var i := 0;
    while i < |poly|
      invariant 0 <= i <= |poly| && j == (if i == 0 then |poly| - 1 else i - 1)
      invariant i > 0 ==> inside == (Crosses(p, poly[|poly| - 1], poly[0]) != Chain(p, poly[..i]))
      invariant i == 0 ==> !inside
    {
      CrossesSymmetric(p, poly[i], poly[j]);
      if i > 0 {
        ChainSnoc(p, poly[..i], poly[i]);
        assert poly[..i + 1] == poly[..i] + [poly[i]];
      }
      if Crosses(p, poly[i], poly[j]) { inside := !inside; }
      j := i;
      i := i + 1;
    }
    assert poly[..|poly|] == poly;
  }

  lemma {:induction false} ChainSnoc(p: Point, s: seq<Point>, q: Point)
    requires s != []
    ensures Chain(p, s + [q]) == (Chain(p, s) != Crosses(p, s[|s| - 1], q))
    decreases |s|
  {
    hide Crosses;
    if |s| > 1 {
      ChainSnoc(p, s[1..], q);
      assert (s + [q])[1..] == s[1..] + [q];
    } else {
      assert (s + [q])[1..] == [q];
    }
  }

  function Rotate(s: seq<Point>): seq<Point>
    requires s != []
  {
    s[1..] + [s[0]]
  }

  /** Where the ring starts does not matter. */
  lemma InsideRotated(p: Point, s: seq<Point>)
    requires |s| >= 2
    ensures Inside(p, Rotate(s)) == Inside(p, s)
  {
    hide Crosses;
    ChainSnoc(p, s[1..], s[0]);
  }

  lemma {:induction false} ChainReversed(p: Point, s: seq<Point>)
    ensures Chain(p, Reversed(s)) == Chain(p, s)
    decreases |s|
  {
    hide Crosses;
    if |s| >= 2 {
      ChainReversed(p, s[1..]);
      ChainSnoc(p, Reversed(s[1..]), s[0]);
      CrossesSymmetric(p, s[0], s[1]);
    }
  }

  function Reversed(s: seq<Point>): (r: seq<Point>)
    ensures |r| == |s| && forall i :: 0 <= i < |s| ==> r[i] == s[|s| - 1 - i]
  {
    if s == [] then [] else Reversed(s[1..]) + [s[0]]
  }

  /** Nor does the direction. */
  lemma InsideReversed(p: Point, s: seq<Point>)
    ensures Inside(p, Reversed(s)) == Inside(p, s)
  {
    hide Crosses;
    if s != [] {
      ChainReversed(p, s);
      CrossesSymmetric(p, s[|s| - 1], s[0]);
    }
  }

  function Corners(t: Triangle): seq<Point> { [t.a, t.b, t.c] }

  lemma InsideTriangle(p: Point, t: Triangle)
    ensures Inside(p, Corners(t)) == ((Crosses(p, t.a, t.b) != Crosses(p, t.b, t.c)) != Crosses(p, t.c, t.a))
  {
    hide Crosses;
    assert Corners(t)[1..] == [t.b, t.c] && [t.b, t.c][1..] == [t.c];
    assert Chain(p, [t.c]) == false;
    assert Chain(p, [t.b, t.c]) == Crosses(p, t.b, t.c);
  }

  /** Cutting off the first point with its two neighbours: the cut's crossing counts twice. */
  lemma InsideClipped(p: Point, s: seq<Point>)
    requires |s| >= 3
    ensures Inside(p, s) == (Inside(p, s[1..]) != Inside(p, Corners(Triangle(s[|s| - 1], s[0], s[1]))))
  {
    hide Crosses;
    InsideTriangle(p, Triangle(s[|s| - 1], s[0], s[1]));
    CrossesSymmetric(p, s[|s| - 1], s[1]);
  }

  // ---- a point odd in a triangle is in its hull ---------------------------------------------------------

  /** pointInTriangle in the source. */
  predicate PointInTriangle(p: Point, a: Point, b: Point, c: Point) {
    var d1, d2, d3 := Orient(a, b, p), Orient(b, c, p), Orient(c, a, p);
    var hasNeg := d1 < 0.0 || d2 < 0.0 || d3 < 0.0;
    var hasPos := d1 > 0.0 || d2 > 0.0 || d3 > 0.0;
    !(hasNeg && hasPos)
  }

  /** The three turns balance the heights of the corners over p. */
  lemma HeightsBalance(p: Point, a: Point, b: Point, c: Point)
    ensures Mul(Orient(b, c, p), a.y - p.y) + Mul(Orient(c, a, p), b.y - p.y) + Mul(Orient(a, b, p), c.y - p.y) == 0.0
    ensures Mul(Orient(b, c, p), a.x - p.x) + Mul(Orient(c, a, p), b.x - p.x) + Mul(Orient(a, b, p), c.x - p.x) == 0.0
  {
    var ax, ay, bx, bz, cx, cz := a.x - p.x, a.y - p.y, b.x - p.x, b.y - p.y, c.x - p.x, c.y - p.y;
    assert Orient(b, c, p) == bx * cz - bz * cx;
    assert Orient(c, a, p) == cx * ay - cz * ax;
    assert Orient(a, b, p) == ax * bz - ay * bx;
  }

  function Weighted(u: real, v: real, w: real, x: real, y: real, z: real): real { u * x + v * y + w * z }

  /** The point is an average of the corners, with these weights. */
  predicate AverageOf(p: Point, a: Point, b: Point, c: Point, u: real, v: real, w: real) {
    && u >= 0.0 && v >= 0.0 && w >= 0.0 && u + v + w == 1.0
    && p == Point(Weighted(u, v, w, a.x, b.x, c.x), Weighted(u, v, w, a.y, b.y, c.y))
  }

  /** The closed triangle with these corners holds the point. */
  ghost predicate InHull(p: Point, a: Point, b: Point, c: Point) {
    exists u: real, v: real, w: real :: AverageOf(p, a, b, c, u, v, w)
  }

  /** The turns at an average are the triangle's turn times the weights. */
  lemma TurnsOfAverage(p: Point, a: Point, b: Point, c: Point, u: real, v: real, w: real)
    requires AverageOf(p, a, b, c, u, v, w)
    ensures Orient(b, c, p) == Mul(u, Orient(a, b, c)) && Orient(c, a, p) == Mul(v, Orient(a, b, c))
    ensures Orient(a, b, p) == Mul(w, Orient(a, b, c))
  {
    TurnTimesWeight(p, a, b, c, u, v, w);
    TurnTimesWeight(p, b, c, a, v, w, u);
    TurnTimesWeight(p, c, a, b, w, u, v);
    OrientRotates(a, b, c);
    OrientRotates(b, c, a);
  }

  lemma OrientRotates(a: Point, b: Point, c: Point)
    ensures Orient(b, c, a) == Orient(a, b, c)
  {}

  lemma TurnTimesWeight(p: Point, a: Point, b: Point, c: Point, u: real, v: real, w: real)
    requires u + v + w == 1.0 && p == Point(u * a.x + v * b.x + w * c.x, u * a.y + v * b.y + w * c.y)
    ensures Orient(b, c, p) == Mul(u, Orient(a, b, c))
  {
    var ax, ay, cx, cy := a.x - b.x, a.y - b.y, c.x - b.x, c.y - b.y;
    assert p.x - b.x == u * ax + w * cx && p.y - b.y == u * ay + w * cy;
    assert Orient(b, c, p) == cx * (u * ay + w * cy) - cy * (u * ax + w * cx);
    assert Orient(a, b, c) == cx * ay - cy * ax by { OrientRotates(a, b, c); OrientSwap(b, c, a); }
  }

  lemma TurnsAddUp(p: Point, a: Point, b: Point, c: Point)
    ensures Orient(a, b, p) + Orient(b, c, p) + Orient(c, a, p) == Orient(a, b, c)
  {}

  /** Conversely the turns, divided by the triangle's, are weights. */
  lemma AverageByTurns(p: Point, a: Point, b: Point, c: Point) returns (u: real, v: real, w: real)
    requires PointInTriangle(p, a, b, c) && Orient(a, b, c) != 0.0
    ensures AverageOf(p, a, b, c, u, v, w)
  {
    var d := Orient(a, b, c);
    u, v, w := Orient(b, c, p) / d, Orient(c, a, p) / d, Orient(a, b, p) / d;
    TurnsAddUp(p, a, b, c);
    HeightsBalance(p, a, b, c);
    var du, dv, dw := Orient(b, c, p), Orient(c, a, p), Orient(a, b, p);
    hide Orient;
    Quotient(du, d, u);
    Quotient(dv, d, v);
    Quotient(dw, d, w);
    Balanced(du, dv, dw, d, u, v, w, a.x, b.x, c.x, p.x);
    Balanced(du, dv, dw, d, u, v, w, a.y, b.y, c.y, p.y);
  }

  lemma Quotient(n: real, d: real, q: real)
    requires d != 0.0 && q == n / d
    ensures n == Mul(q, d)
    ensures (n >= 0.0 && d > 0.0) || (n <= 0.0 && d < 0.0) ==> q >= 0.0
  {
    assert q * d == n;
    hide Mul;
    StrictSign(q, d);
  }

  lemma Balanced(du: real, dv: real, dw: real, d: real, u: real, v: real, w: real, a: real, b: real, c: real, p: real)
    requires d != 0.0 && du == Mul(u, d) && dv == Mul(v, d) && dw == Mul(w, d) && du + dv + dw == d
    requires Mul(du, a - p) + Mul(dv, b - p) + Mul(dw, c - p) == 0.0
    ensures u + v + w == 1.0 && p == u * a + v * b + w * c
  {
    hide Mul;
    Swap(u, d, a - p);
    Swap(v, d, b - p);
    Swap(w, d, c - p);
    Factor(u, v, w, d);
    Factor(Mul(u, a - p), Mul(v, b - p), Mul(w, c - p), d);
    NoFactor(u + v + w - 1.0, d);
    NoFactor(Mul(u, a - p) + Mul(v, b - p) + Mul(w, c - p), d);
    Spread(u, v, w, a, b, c, p);
  }

  lemma Swap(u: real, d: real, h: real)
    ensures Mul(Mul(u, d), h) == Mul(Mul(u, h), d)
  {}

  lemma Factor(x: real, y: real, z: real, d: real)
    ensures Mul(x, d) + Mul(y, d) + Mul(z, d) == Mul(x + y + z, d)
    ensures Mul(x + y + z - 1.0, d) == Mul(x + y + z, d) - d
  {}

  lemma NoFactor(x: real, d: real)
    requires d != 0.0
    ensures Mul(x, d) == 0.0 ==> x == 0.0
  {}

  lemma Spread(u: real, v: real, w: real, a: real, b: real, c: real, p: real)
    ensures u + v + w == 1.0 ==> Mul(u, a - p) + Mul(v, b - p) + Mul(w, c - p) == u * a + v * b + w * c - p
  {}

  /** The sign test is exact: for corners not on a line it holds exactly for the averages of the corners, and
      for corners on a line exactly for the points in line with every two of them. */
  lemma PointInTriangleIsExact(p: Point, a: Point, b: Point, c: Point)
    ensures Orient(a, b, c) != 0.0 ==> (PointInTriangle(p, a, b, c) <==> InHull(p, a, b, c))
    ensures Orient(a, b, c) == 0.0 ==>
              (PointInTriangle(p, a, b, c) <==> Orient(a, b, p) == 0.0 && Orient(b, c, p) == 0.0 && Orient(c, a, p) == 0.0)
  {
    TurnsAddUp(p, a, b, c);
    if Orient(a, b, c) != 0.0 {
      if PointInTriangle(p, a, b, c) {
        var u, v, w := AverageByTurns(p, a, b, c);
      }
      if InHull(p, a, b, c) {
        var u, v, w :| AverageOf(p, a, b, c, u, v, w);
        TurnsOfAverage(p, a, b, c, u, v, w);
        hide Orient, Mul;
        MulSign(u, Orient(a, b, c));
        MulSign(v, Orient(a, b, c));
        MulSign(w, Orient(a, b, c));
      }
    }
  }

  /** Turns of one sign, not all zero: the point is a proper average of the corners. */
  predicate Surrounded(p: Point, a: Point, b: Point, c: Point) {
    var d1, d2, d3 := Orient(a, b, p), Orient(b, c, p), Orient(c, a, p);
    || (d1 >= 0.0 && d2 >= 0.0 && d3 >= 0.0 && d1 + d2 + d3 > 0.0)
    || (d1 <= 0.0 && d2 <= 0.0 && d3 <= 0.0 && d1 + d2 + d3 < 0.0)
  }

  /** With corner a alone above the ray, or alone below, and an odd number of crossings. */
  lemma OddAround(p: Point, a: Point, b: Point, c: Point)
    requires (a.y > p.y) != (b.y > p.y) && (b.y > p.y) == (c.y > p.y)
    requires Crosses(p, a, b) != Crosses(p, c, a)
    ensures Surrounded(p, a, b, c)
  {
    CrossesBySign(p, a, b);
    CrossesBySign(p, c, a);
    HeightsBalance(p, a, b, c);
    var d1, d2, d3 := Orient(a, b, p), Orient(b, c, p), Orient(c, a, p);
    hide Orient, Mul, Crosses;
    MulSign(d2, a.y - p.y);
    MulSign(d3, b.y - p.y);
    MulSign(d1, c.y - p.y);
    MulSign(d2, -(a.y - p.y));
    MulSign(d3, -(b.y - p.y));
    MulSign(d1, -(c.y - p.y));
    MulNeg(d2, a.y - p.y);
    MulNeg(d3, b.y - p.y);
    MulNeg(d1, c.y - p.y);
    StrictSign(d2, a.y - p.y);
  }

  lemma StrictSign(d: real, h: real)
    ensures h != 0.0 && Mul(d, h) == 0.0 ==> d == 0.0
    ensures h > 0.0 && Mul(d, h) >= 0.0 ==> d >= 0.0
    ensures h > 0.0 && Mul(d, h) <= 0.0 ==> d <= 0.0
    ensures h < 0.0 && Mul(d, h) >= 0.0 ==> d <= 0.0
    ensures h < 0.0 && Mul(d, h) <= 0.0 ==> d >= 0.0
  {
    hide Mul;
    MulSign(d, h);
    MulSign(-d, h);
    MulSign(d, -h);
    MulSign(-d, -h);
    MulNeg(d, h);
    MulNeg(d, -h);
    MulNeg(-d, h);
  }

  lemma SurroundedRotates(p: Point, a: Point, b: Point, c: Point)
    ensures Surrounded(p, a, b, c) == Surrounded(p, b, c, a)
  {}

  /** A point that is inside a triangle by the even-odd rule is in its hull. */
  lemma OddIsSurrounded(p: Point, t: Triangle)
    requires Inside(p, Corners(t))
    ensures Surrounded(p, t.a, t.b, t.c) && PointInTriangle(p, t.a, t.b, t.c)
  {
    var a, b, c := t.a, t.b, t.c;
    InsideTriangle(p, t);
    SurroundedRotates(p, a, b, c);
    SurroundedRotates(p, b, c, a);
    hide Orient, Inside;
    if (b.y > p.y) == (c.y > p.y) {
      NotStraddling(p, b, c);
      Straddles(p, a, b, c);
      OddAround(p, a, b, c);
    } else if (a.y > p.y) == (c.y > p.y) {
      NotStraddling(p, c, a);
      OddAround(p, b, c, a);
    } else {
      NotStraddling(p, a, b);
      OddAround(p, c, a, b);
    }
  }

  lemma NotStraddling(p: Point, a: Point, b: Point)
    requires (a.y > p.y) == (b.y > p.y)
    ensures !Crosses(p, a, b)
  {}

  lemma Straddles(p: Point, a: Point, b: Point, c: Point)
    requires Crosses(p, a, b) || Crosses(p, c, a)
    ensures (b.y > p.y) == (c.y > p.y) ==> (a.y > p.y) != (b.y > p.y)
  {}
}
