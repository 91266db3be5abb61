/** The even-odd rule changes only at the boundary: along a segment that meets no edge of the polygon the parity
    of the crossings stays the same. */
module Boundaries {
  import opened Plane
  import opened EvenOdd
  import opened Segments
  import opened Polygons

  // ---- one edge ----------------------------------------------------------------------------------------------

  /** The point of the line through a and b at height h. */
  function At(a: Point, b: Point, h: real): Point
    requires a.y != b.y
  {
    Point((b.x - a.x) * (h - a.y) / (b.y - a.y) + a.x, h)
  }

  lemma CrossesAt(p: Point, a: Point, b: Point)
    ensures Crosses(p, a, b) <==> (a.y > p.y) != (b.y > p.y) && p.x < At(a, b, p.y).x
  {}

  lemma QuotientOfProduct(k: real, n: real, d: real)
    requires d != 0.0
    ensures k * n / d == Mul(k, n / d)
  {
    var q := n / d;
    assert q * d == n;
    assert (k * q) * d == k * n;
  }

  lemma AtIsOn(a: Point, b: Point, h: real)
    requires a.y != b.y && Min(a.y, b.y) <= h <= Max(a.y, b.y)
    ensures OnSegment(At(a, b, h), a, b)
  {
    var t := (h - a.y) / (b.y - a.y);
    QuotientOfProduct(b.x - a.x, h - a.y, b.y - a.y);
    assert Mul(b.y - a.y, t) == h - a.y;
    OnIs(a, b, t);
    assert Mul(b.x - a.x, t) == (b.x - a.x) * (h - a.y) / (b.y - a.y);
    hide Mul, On;
    Fraction(a.y, b.y, t);
    assert At(a, b, h) == On(a, b, t);
  }

  /** Points of a segment, and the points between them, as points of the segment. */
  lemma SubSegment(a: Point, b: Point, c: Point, d: Point, k: real)
    requires OnSegment(c, a, b) && OnSegment(d, a, b) && 0.0 <= k <= 1.0
    ensures OnSegment(On(c, d, k), a, b)
  {
    var s :| 0.0 <= s <= 1.0 && c == On(a, b, s);
    var t :| 0.0 <= t <= 1.0 && d == On(a, b, t);
    var r := s + Mul(t - s, k);
    Average(s, t, k);
    MixedProduct(a.x, b.x - a.x, s, t, k);
    MixedProduct(a.y, b.y - a.y, s, t, k);
    OnIs(a, b, r);
    OnIs(a, b, s);
    OnIs(a, b, t);
    OnIs(c, d, k);
    hide Mul, On;
    assert On(c, d, k) == On(a, b, r);
  }

  lemma MixedProduct(x: real, e: real, s: real, t: real, k: real)
    ensures x + Mul(e, s) + Mul((x + Mul(e, t)) - (x + Mul(e, s)), k) == x + Mul(e, s + Mul(t - s, k))
  {
    MixedCoordinate(x, e, s, t, k);
  }

  /** A point on the line through p and q at a height between theirs is on the segment. */
  lemma BetweenHeights(r: Point, p: Point, q: Point)
    requires p.y < q.y && Orient(p, q, r) == 0.0 && p.y <= r.y <= q.y
    ensures OnSegment(r, p, q)
  {
    var t := Parameter(r, p, q);
    OnIs(p, q, t);
    hide Mul, Orient;
    Fraction(p.y, q.y, t);
  }

  lemma ZeroBetween(u: real, v: real) returns (k: real)
    requires u < 0.0 <= v
    ensures 0.0 <= k <= 1.0 && Mul(1.0 - k, u) + Mul(k, v) == 0.0
  {
    k := -u / (v - u);
    assert k * (v - u) == -u;
    assert Mul(k, v - u) == -u && Mul(1.0 - k, v - u) == v;
    assert Mul(1.0 - k, u) + Mul(k, v) == u + k * (v - u);
    hide Mul;
    StrictSign(k, v - u);
    StrictSign(1.0 - k, v - u);
  }

  /** Two points of a segment that does not meet the one from p to q, at heights between those of p and q, are
      on the same side of it. */
  lemma SameSide(p: Point, q: Point, a: Point, b: Point, c: Point, d: Point)
    requires p.y < q.y && !ShareAPoint(a, b, p, q) && OnSegment(c, a, b) && OnSegment(d, a, b)
    requires p.y <= c.y <= q.y && p.y <= d.y <= q.y && Orient(p, q, c) < 0.0
    ensures Orient(p, q, d) < 0.0
  {
    if Orient(p, q, d) >= 0.0 {
      var k := ZeroBetween(Orient(p, q, c), Orient(p, q, d));
      OrientAlong(p, q, c, d, k);
      OnIs(c, d, k);
      Average(c.y, d.y, k);
      hide Orient, On, OnSegment, Mul;
      var r := On(c, d, k);
      BetweenHeights(r, p, q);
      SubSegment(a, b, c, d, k);
    }
  }

  lemma SideAt(p: Point, q: Point, a: Point, b: Point)
    requires p.y < q.y && a.y != b.y
    ensures Orient(p, q, At(a, b, p.y)) < 0.0 <==> p.x < At(a, b, p.y).x
    ensures Orient(p, q, At(a, b, q.y)) < 0.0 <==> q.x < At(a, b, q.y).x
  {
    var c, d := At(a, b, p.y), At(a, b, q.y);
    assert Orient(p, q, c) == Mul(q.y - p.y, p.x - c.x);
    assert Orient(p, q, d) == Mul(q.y - p.y, q.x - d.x);
    hide Orient, At, Mul;
    StrictSign(p.x - c.x, q.y - p.y);
    StrictSign(q.x - d.x, q.y - p.y);
    MulTurned(q.y - p.y, p.x - c.x);
    MulTurned(q.y - p.y, q.x - d.x);
    MulSign(q.y - p.y, p.x - c.x);
    MulSign(q.y - p.y, q.x - d.x);
  }

  lemma MulTurned(a: real, b: real)
    ensures Mul(a, b) == Mul(b, a)
  {}

  /** The point is passed by the ray to the right when it moves from p up to q. */
  predicate Swept(p: Point, q: Point, v: Point) { p.y < v.y <= q.y && Orient(p, q, v) < 0.0 }

  lemma Sides(p: Point, q: Point, a: Point, b: Point, c: Point, d: Point)
    requires p.y < q.y && !ShareAPoint(a, b, p, q) && OnSegment(c, a, b) && OnSegment(d, a, b)
    requires p.y <= c.y <= q.y && p.y <= d.y <= q.y
    ensures Orient(p, q, c) < 0.0 <==> Orient(p, q, d) < 0.0
  {
    hide Orient, OnSegment;
    if Orient(p, q, c) < 0.0 { SameSide(p, q, a, b, c, d); }
    if Orient(p, q, d) < 0.0 { SameSide(p, q, a, b, d, c); }
  }

  /** Moving up from p to q changes whether a rising edge crosses exactly when one of its ends is swept. */
  lemma RisingEdge(p: Point, q: Point, a: Point, b: Point)
    requires p.y < q.y && a.y <= b.y && !ShareAPoint(a, b, p, q)
    ensures (Crosses(p, a, b) != Crosses(q, a, b)) == (Swept(p, q, a) != Swept(p, q, b))
  {
    CrossesAt(p, a, b);
    CrossesAt(q, a, b);
    EndIsOn(a, b);
    if a.y < b.y {
      SideAt(p, q, a, b);
      var low := if a.y <= p.y then At(a, b, p.y) else a;
      var high := if b.y > q.y then At(a, b, q.y) else b;
      if a.y <= q.y && b.y > p.y {
        if a.y <= p.y { AtIsOn(a, b, p.y); }
        if b.y > q.y { AtIsOn(a, b, q.y); }
        hide Orient, OnSegment, Crosses, ShareAPoint;
        Sides(p, q, a, b, low, high);
      }
    } else if p.y < a.y <= q.y {
      hide Orient, OnSegment, Crosses, ShareAPoint;
      Sides(p, q, a, b, a, b);
    }
  }

  lemma ShareTurned(a: Point, b: Point, p: Point, q: Point)
    ensures ShareAPoint(a, b, p, q) ==> ShareAPoint(b, a, p, q) && ShareAPoint(a, b, q, p)
  {
    if r :| OnSegment(r, a, b) && OnSegment(r, p, q) {
      OnTurned(r, a, b);
      OnTurned(r, p, q);
    }
  }

  lemma OnTurned(r: Point, a: Point, b: Point)
    requires OnSegment(r, a, b)
    ensures OnSegment(r, b, a)
  {
    var s :| 0.0 <= s <= 1.0 && r == On(a, b, s);
    assert r == On(b, a, 1.0 - s);
  }

  lemma LevelEdge(p: Point, q: Point, a: Point, b: Point)
    requires p.y == q.y && !ShareAPoint(a, b, p, q)
    ensures Crosses(p, a, b) == Crosses(q, a, b)
  {
    CrossesAt(p, a, b);
    CrossesAt(q, a, b);
    if (a.y > p.y) != (b.y > p.y) {
      var c := At(a, b, p.y);
      AtIsOn(a, b, p.y);
      assert Orient(p, q, c) == 0.0;
      hide Orient, OnSegment, Crosses, At;
      if (p.x < c.x) != (q.x < c.x) { BoxInSegment(c, p, q); }
    }
  }

  /** The same for every edge, and also for moving level. */
  lemma EdgeSwept(p: Point, q: Point, a: Point, b: Point)
    requires p.y <= q.y && !ShareAPoint(a, b, p, q)
    ensures (Crosses(p, a, b) != Crosses(q, a, b)) == (Swept(p, q, a) != Swept(p, q, b))
  {
    ShareTurned(b, a, p, q);
    CrossesSymmetric(p, a, b);
    CrossesSymmetric(q, a, b);
    hide Crosses, ShareAPoint;
    if p.y == q.y {
      LevelEdge(p, q, a, b);
    } else if a.y <= b.y {
      RisingEdge(p, q, a, b);
    } else {
      RisingEdge(p, q, b, a);
    }
  }

  // ---- the whole boundary -------------------------------------------------------------------------------------

  /** The segment from p to q meets no edge of the closed polygon. */
  ghost predicate Avoids(p: Point, q: Point, poly: seq<Point>) {
    forall i {:trigger poly[i]} :: 0 <= i < |poly| ==> !ShareAPoint(poly[i], poly[if i + 1 < |poly| then i + 1 else 0], p, q)
  }

  lemma {:induction false} ChainSwept(p: Point, q: Point, s: seq<Point>)
    requires p.y <= q.y && s != []
    requires forall i {:trigger s[i]} :: 0 <= i < |s| - 1 ==> !ShareAPoint(s[i], s[i + 1], p, q)
    ensures (Chain(p, s) != Chain(q, s)) == (Swept(p, q, s[0]) != Swept(p, q, s[|s| - 1]))
    decreases |s|
  {
    hide Crosses, ShareAPoint, Swept;
    if |s| >= 2 {
      var rest := s[1..];
      assert !ShareAPoint(s[0], s[1], p, q);
      forall i | 0 <= i < |rest| - 1 ensures !ShareAPoint(rest[i], rest[i + 1], p, q) {
        assert rest[i] == s[i + 1] && rest[i + 1] == s[i + 2];
      }
      ChainSwept(p, q, rest);
      EdgeSwept(p, q, s[0], s[1]);
    }
  }

  lemma AvoidsTurned(p: Point, q: Point, poly: seq<Point>)
    requires Avoids(p, q, poly)
    ensures Avoids(q, p, poly)
  {
    hide ShareAPoint;
    forall i | 0 <= i < |poly| ensures !ShareAPoint(poly[i], poly[if i + 1 < |poly| then i + 1 else 0], q, p) {
      ShareTurned(poly[i], poly[if i + 1 < |poly| then i + 1 else 0], q, p);
      assert !ShareAPoint(poly[i], poly[if i + 1 < |poly| then i + 1 else 0], p, q);
    }
  }

  /** Main result: two points joined by a segment that meets no edge are both inside or both outside, by the
      even-odd rule and for every polygon, simple or not. */
  lemma ParityIsConstant(p: Point, q: Point, poly: seq<Point>)
    requires Avoids(p, q, poly)
    ensures Inside(p, poly) == Inside(q, poly)
    decreases p.y > q.y
  {
    hide Crosses, ShareAPoint, Swept;
    if p.y > q.y {
      AvoidsTurned(p, q, poly);
      ParityIsConstant(q, p, poly);
    } else if poly != [] {
      var n := |poly| - 1;
      forall i | 0 <= i < n ensures !ShareAPoint(poly[i], poly[i + 1], p, q) { assert i + 1 < |poly|; }
      ChainSwept(p, q, poly);
      assert !ShareAPoint(poly[n], poly[0], p, q);
      EdgeSwept(p, q, poly[n], poly[0]);
    }
  }
}
