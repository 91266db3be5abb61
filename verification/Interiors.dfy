/** What ear clipping yields for simple polygons: triangles without common interior points that together make up
    the inside, so that a point off the boundary is found in one of them exactly when it is inside.

    Backwards from the last triangle, every ring of the clipping has its inside on the left of each edge; so an
    ear, which lies to the right of the edge that closes the ring without it, is outside of that ring. */
module Interiors {
  import opened Plane
  import opened EvenOdd
  import opened EarClipping
  import opened Triangulation
  import opened Segments
  import opened Polygons
  import opened Boundaries

  // ---- triangles by their turns ----------------------------------------------------------------------------

  predicate Positive(t: Triangle) { Orient(t.a, t.b, t.c) > 0.0 }

  /** In the closed triangle. */
  predicate Has(t: Triangle, p: Point) { Orient(t.a, t.b, p) >= 0.0 && Orient(t.b, t.c, p) >= 0.0 && Orient(t.c, t.a, p) >= 0.0 }

  /** Strictly inside. */
  predicate Within(t: Triangle, p: Point) { Orient(t.a, t.b, p) > 0.0 && Orient(t.b, t.c, p) > 0.0 && Orient(t.c, t.a, p) > 0.0 }

  lemma HasIsHull(t: Triangle, p: Point)
    requires Positive(t)
    ensures Has(t, p) <==> InHull(p, t.a, t.b, t.c)
    ensures Has(t, p) <==> PointInTriangle(p, t.a, t.b, t.c)
  {
    TurnsAddUp(p, t.a, t.b, t.c);
    PointInTriangleIsExact(p, t.a, t.b, t.c);
    hide Orient, InHull;
  }

  lemma OddIsHad(t: Triangle, p: Point)
    requires Positive(t) && Inside(p, Corners(t))
    ensures Has(t, p)
  {
    OddIsSurrounded(p, t);
    HasIsHull(t, p);
  }

  /** Positive weights and heights that balance: some corner is above p, and some is not. */
  lemma SomeAbove(p: Point, t: Triangle)
    requires Within(t, p)
    ensures t.a.y > p.y || t.b.y > p.y || t.c.y > p.y
    ensures t.a.y <= p.y || t.b.y <= p.y || t.c.y <= p.y
  {
    HeightsBalance(p, t.a, t.b, t.c);
    var d, e, f := Orient(t.b, t.c, p), Orient(t.c, t.a, p), Orient(t.a, t.b, p);
    if t.a.y == p.y && t.b.y == p.y && t.c.y == p.y { LevelIsFlat(t, p); }
    hide Orient, Mul;
    var x, y, z := t.a.y - p.y, t.b.y - p.y, t.c.y - p.y;
    WeighedSign(d, x);
    WeighedSign(e, y);
    WeighedSign(f, z);
  }

  lemma WeighedSign(d: real, x: real)
    requires d > 0.0
    ensures x > 0.0 ==> Mul(d, x) > 0.0
    ensures x <= 0.0 ==> Mul(d, x) <= 0.0
    ensures x < 0.0 ==> Mul(d, x) < 0.0
  {
    hide Mul;
    MulSign(d, x);
    MulSign(d, -x);
    MulNeg(d, x);
  }

  /** Corners at the height of p leave no room. */
  lemma LevelIsFlat(t: Triangle, p: Point)
    requires t.a.y == p.y && t.b.y == p.y && t.c.y == p.y
    ensures Orient(t.a, t.b, p) == 0.0
  {}

  /** A point strictly inside a triangle is inside by the even-odd rule. */
  lemma WithinIsOdd(t: Triangle, p: Point)
    requires Within(t, p)
    ensures Inside(p, Corners(t))
  {
    SomeAbove(p, t);
    InsideTriangle(p, t);
    CrossesBySign(p, t.a, t.b);
    CrossesBySign(p, t.b, t.c);
    CrossesBySign(p, t.c, t.a);
    hide Orient, Crosses, Inside;
  }

  function Middle(t: Triangle): Point {
    Point((t.a.x + t.b.x + t.c.x) / 3.0, (t.a.y + t.b.y + t.c.y) / 3.0)
  }

  lemma MiddleWithin(t: Triangle)
    requires Positive(t)
    ensures Within(t, Middle(t))
  {
    ThirdTurn(t.a, t.b, t.c);
    ThirdTurn(t.b, t.c, t.a);
    ThirdTurn(t.c, t.a, t.b);
    OrientRotates(t.a, t.b, t.c);
    OrientRotates(t.b, t.c, t.a);
    assert Middle(t) == Middle(Triangle(t.b, t.c, t.a)) == Middle(Triangle(t.c, t.a, t.b));
    hide Orient, Middle;
  }

  lemma ThirdTurn(a: Point, b: Point, c: Point)
    ensures 3.0 * Orient(a, b, Middle(Triangle(a, b, c))) == Orient(a, b, c)
  {}

  // ---- along a segment ---------------------------------------------------------------------------------------

  /** Towards a point on the left of a line one is on the left from some point on. */
  lemma LeftFromThere(a: Point, b: Point, p: Point, r: Point) returns (k: real)
    requires Orient(a, b, r) > 0.0
    ensures 0.0 <= k < 1.0 && forall t :: k <= t <= 1.0 ==> Orient(a, b, On(p, r, t)) > 0.0
  {
    var u, v := Orient(a, b, p), Orient(a, b, r);
    k := if u > 0.0 then 0.0 else (1.0 + -u / (v - u)) / 2.0;
    PastZero(u, v);
    hide Orient;
    forall t | k <= t <= 1.0 ensures Orient(a, b, On(p, r, t)) > 0.0 {
      OrientAlong(a, b, p, r, t);
      PositiveMix(u, v, t);
    }
  }

  lemma PastZero(u: real, v: real)
    requires v > 0.0
    ensures u <= 0.0 ==> 0.0 <= -u / (v - u) < 1.0
  {
    if u <= 0.0 {
      var q := -u / (v - u);
      assert Mul(q, v - u) == -u && Mul(1.0 - q, v - u) == v;
      hide Mul;
      StrictSign(q, v - u);
      StrictSign(1.0 - q, v - u);
    }
  }

  lemma PositiveMix(u: real, v: real, t: real)
    requires v > 0.0 && 0.0 <= t <= 1.0
    requires if u > 0.0 then true else t > -u / (v - u)
    ensures Mul(1.0 - t, u) + Mul(t, v) > 0.0
  {
    if u > 0.0 {
      hide Mul;
      MulSign(1.0 - t, u);
      MulSign(t, v);
    } else {
      var q := -u / (v - u);
      assert q * (v - u) == -u;
      assert Mul(1.0 - t, u) + Mul(t, v) == u + t * (v - u);
      assert (t - q) * (v - u) == t * (v - u) + u;
      assert Mul(t - q, v - u) > 0.0 by { MulSign(t - q, v - u); }
    }
  }
  // ---- edges of a ring ----------------------------------------------------------------------------------------

  ghost predicate IsEdge(s: seq<Point>, x: Point, y: Point) {
    exists i :: EdgeAt(s, i, x, y)
  }

  predicate EdgeAt(s: seq<Point>, i: int, x: Point, y: Point) {
    0 <= i < |s| && s[i] == x && s[Next(i, |s|)] == y
  }

  ghost predicate OnSome(s: seq<Point>, r: Point) {
    exists x, y :: IsEdge(s, x, y) && OnSegment(r, x, y)
  }

  predicate Corner(r: Point, x: Point, y: Point) { r == x || r == y }

  ghost predicate OnlyCorners(x: Point, y: Point, u: Point, v: Point) {
    forall r :: OnSegment(r, x, y) && OnSegment(r, u, v) ==> Corner(r, x, y) && Corner(r, u, v)
  }

  /** Distinct corners, and two edges share at most corners of both. */
  ghost predicate Clean(s: seq<Point>) {
    && |s| >= 3 && (forall i, j :: 0 <= i < j < |s| ==> s[i] != s[j])
    && forall x, y, u, v {:trigger IsEdge(s, x, y), IsEdge(s, u, v)} ::
         IsEdge(s, x, y) && IsEdge(s, u, v) && (x, y) != (u, v) ==> OnlyCorners(x, y, u, v)
  }

  /** The segment from p meets the boundary at r alone, where it ends. */
  ghost predicate Reaches(s: seq<Point>, p: Point, r: Point) {
    forall t: real {:trigger On(p, r, t)} :: 0.0 <= t < 1.0 ==> !OnSome(s, On(p, r, t))
  }

  /** The inside is on the left of the edge: seen from any point off the edge's line from which one reaches the
      edge between its ends. */
  ghost predicate LeftIsInside(s: seq<Point>, x: Point, y: Point) {
    forall p, r {:trigger Reaches(s, p, r), OnSegment(r, x, y)} ::
      OnSegment(r, x, y) && !Corner(r, x, y) && Orient(x, y, p) != 0.0 && Reaches(s, p, r) ==>
        (Inside(p, s) <==> Orient(x, y, p) > 0.0)
  }

  ghost predicate Sided(s: seq<Point>) { forall x, y {:trigger IsEdge(s, x, y)} :: IsEdge(s, x, y) ==> LeftIsInside(s, x, y) }

  // ---- turning a ring -------------------------------------------------------------------------------------------

  lemma RotatedEdge(s: seq<Point>, x: Point, y: Point)
    requires |s| >= 2
    ensures IsEdge(Rotate(s), x, y) <==> IsEdge(s, x, y)
  {
    var n, z := |s|, Rotate(s);
    if i :| EdgeAt(s, i, x, y) {
      assert EdgeAt(z, if i == 0 then n - 1 else i - 1, x, y);
    }
    if i :| EdgeAt(z, i, x, y) {
      assert EdgeAt(s, if i + 1 < n then i + 1 else 0, x, y);
    }
  }

  /** The ring s has the edges and the points inside of z, and as many corners. */
  ghost predicate SameRing(s: seq<Point>, z: seq<Point>) {
    && |s| == |z| && (forall x, y :: IsEdge(s, x, y) <==> IsEdge(z, x, y))
    && (forall p :: Inside(p, s) == Inside(p, z)) && ((forall i, j :: 0 <= i < j < |s| ==> s[i] != s[j]) ==> forall i, j :: 0 <= i < j < |z| ==> z[i] != z[j])
  }

  lemma {:induction false} TurnedRing(poly: seq<Point>, ring: Ring, m: nat)
    requires ValidRing(poly, ring) && |ring| >= 2 && m <= |ring|
    ensures ValidRing(poly, Turn(ring, m)) && SameRing(PointsOf(poly, ring), PointsOf(poly, Turn(ring, m)))
    decreases m
  {
    hide Inside, IsEdge;
    if m == 0 {
      assert Turn(ring, 0) == ring;
    } else {
      TurnedRing(poly, ring, m - 1);
      var before, after := Turn(ring, m - 1), Turn(ring, m);
      assert after == before[1..] + [before[0]];
      var s, z := PointsOf(poly, before), PointsOf(poly, after);
      assert z == Rotate(s);
      forall x, y ensures IsEdge(z, x, y) <==> IsEdge(s, x, y) { RotatedEdge(s, x, y); }
      forall p ensures Inside(p, z) == Inside(p, s) { InsideRotated(p, s); }
    }
  }

  lemma IsTurnSame(poly: seq<Point>, a: Ring, b: Ring)
    requires ValidRing(poly, a) && |a| >= 2 && IsTurn(a, b)
    ensures ValidRing(poly, b) && SameRing(PointsOf(poly, a), PointsOf(poly, b))
  {
    var m :| 0 <= m <= |a| && b == Turn(a, m);
    TurnedRing(poly, a, m);
  }

  lemma SameClean(s: seq<Point>, z: seq<Point>)
    requires SameRing(s, z) && Clean(s)
    ensures Clean(z)
  {
    hide IsEdge, Inside, OnlyCorners;
  }

  lemma SameSided(s: seq<Point>, z: seq<Point>)
    requires SameRing(s, z) && SameRing(z, s) && Sided(s)
    ensures Sided(z)
  {
    hide IsEdge, Inside, OnSegment, Orient, On;
    forall x, y | IsEdge(z, x, y) ensures LeftIsInside(z, x, y) {
      assert LeftIsInside(s, x, y);
      forall p, r | OnSegment(r, x, y) && !Corner(r, x, y) && Orient(x, y, p) != 0.0 && Reaches(z, p, r)
        ensures Inside(p, z) <==> Orient(x, y, p) > 0.0
      {
        SameReaches(s, z, p, r);
      }
    }
  }

  lemma SameOnSome(s: seq<Point>, z: seq<Point>, r: Point)
    requires SameRing(s, z)
    ensures OnSome(s, r) == OnSome(z, r)
  {
    hide IsEdge, Inside, OnSegment;
  }

  lemma SameReaches(s: seq<Point>, z: seq<Point>, p: Point, r: Point)
    requires SameRing(s, z)
    ensures Reaches(s, p, r) == Reaches(z, p, r)
  {
    hide OnSome, SameRing, On;
    forall t: real | 0.0 <= t < 1.0 ensures OnSome(s, On(p, r, t)) == OnSome(z, On(p, r, t)) { SameOnSome(s, z, On(p, r, t)); }
  }

  // ---- cutting a corner off ------------------------------------------------------------------------------------

  /** The triangle of the first corner with its neighbours. */
  function EarAt(s: seq<Point>): Triangle
    requires |s| >= 3
  {
    Triangle(s[|s| - 1], s[0], s[1])
  }

  /** It turns left and holds no other corner. */
  ghost predicate Empty(s: seq<Point>)
    requires |s| >= 3
  {
    Positive(EarAt(s)) && forall i {:trigger s[i]} :: 2 <= i < |s| - 1 ==> !Has(EarAt(s), s[i])
  }

  predicate IsSide(s: seq<Point>, x: Point, y: Point)
    requires |s| >= 3
  {
    var t := EarAt(s);
    (x == t.a && y == t.b) || (x == t.b && y == t.c)
  }

  /** The edges without the first corner: its two are replaced by one. */
  lemma CutEdges(s: seq<Point>, x: Point, y: Point)
    requires |s| >= 4 && forall i, j :: 0 <= i < j < |s| ==> s[i] != s[j]
    ensures IsEdge(s[1..], x, y) <==> (IsEdge(s, x, y) && !IsSide(s, x, y)) || (x == EarAt(s).a && y == EarAt(s).c)
  {
    var n, z := |s|, s[1..];
    if i :| EdgeAt(z, i, x, y) {
      if i < n - 2 { assert EdgeAt(s, i + 1, x, y); }
    }
    if x == EarAt(s).a && y == EarAt(s).c { assert EdgeAt(z, n - 2, x, y); }
    if IsEdge(s, x, y) && !IsSide(s, x, y) {
      var i :| EdgeAt(s, i, x, y);
      assert i != 0 && i != n - 1;
      assert EdgeAt(z, i - 1, x, y);
    }
  }

  lemma SideEdges(s: seq<Point>)
    requires |s| >= 3
    ensures IsEdge(s, EarAt(s).a, EarAt(s).b) && IsEdge(s, EarAt(s).b, EarAt(s).c)
  {
    assert EdgeAt(s, |s| - 1, EarAt(s).a, EarAt(s).b) && EdgeAt(s, 0, EarAt(s).b, EarAt(s).c);
  }

  /** The ends of another edge: one at least is outside of the ear, and the others are its first and last corner. */
  lemma OtherEnds(s: seq<Point>, x: Point, y: Point)
    requires |s| >= 4 && Clean(s) && Empty(s) && IsEdge(s, x, y) && !IsSide(s, x, y)
    ensures x == EarAt(s).c || !Has(EarAt(s), x)
    ensures y == EarAt(s).a || !Has(EarAt(s), y)
    ensures !(x == EarAt(s).c && y == EarAt(s).a)
  {
    hide Has, Orient, OnlyCorners;
    var i :| EdgeAt(s, i, x, y);
    assert i != 0 && i != |s| - 1;
    assert Next(i, |s|) == i + 1;
    if i > 1 { assert x == s[i]; }
    if i + 1 < |s| - 1 { assert y == s[i + 1]; }
  }
  // ---- other edges stay out of an ear ----------------------------------------------------------------------------

  lemma TurnAlong(a: Point, b: Point, p: Point, q: Point, k: real)
    requires 0.0 <= k <= 1.0
    ensures Orient(a, b, p) >= 0.0 && Orient(a, b, q) >= 0.0 ==> Orient(a, b, On(p, q, k)) >= 0.0
    ensures Orient(a, b, p) < 0.0 && Orient(a, b, q) <= 0.0 && k < 1.0 ==> Orient(a, b, On(p, q, k)) < 0.0
    ensures Orient(a, b, p) > 0.0 && Orient(a, b, q) >= 0.0 && k < 1.0 ==> Orient(a, b, On(p, q, k)) > 0.0
  {
    OrientAlong(a, b, p, q, k);
    hide Orient, On, Mul;
    MulSign(1.0 - k, Orient(a, b, p));
    MulSign(k, Orient(a, b, q));
    MulNeg(1.0 - k, Orient(a, b, p));
    MulSign(1.0 - k, -Orient(a, b, p));
  }

  /** Where the turn at a line becomes zero on the way from a point on its left to one on its right. */
  lemma Zero(a: Point, b: Point, r: Point, e: Point) returns (k: real)
    requires Orient(a, b, r) >= 0.0 > Orient(a, b, e)
    ensures 0.0 <= k <= 1.0 && Orient(a, b, On(e, r, k)) == 0.0
  {
    k := ZeroBetween(Orient(a, b, e), Orient(a, b, r));
    OrientAlong(a, b, e, r, k);
  }

  /** On the line of a side and in the triangle is on the side. */
  lemma OnSide(t: Triangle, x: Point)
    requires Positive(t) && Has(t, x)
    ensures Orient(t.a, t.b, x) == 0.0 ==> OnSegment(x, t.a, t.b)
    ensures Orient(t.b, t.c, x) == 0.0 ==> OnSegment(x, t.b, t.c)
  {
    HasIsHull(t, x);
    var u, v, w :| AverageOf(x, t.a, t.b, t.c, u, v, w);
    TurnsOfAverage(x, t.a, t.b, t.c, u, v, w);
    NoZeroFactor(w, Orient(t.a, t.b, t.c));
    NoZeroFactor(u, Orient(t.a, t.b, t.c));
    if w == 0.0 { SideWeights(x, t.a, t.b, t.c, v); }
    if u == 0.0 { OtherSideWeights(x, t.a, t.b, t.c, w); }
  }

  lemma NoZeroFactor(w: real, d: real)
    requires d > 0.0
    ensures Mul(w, d) == 0.0 ==> w == 0.0
  {}

  lemma SideWeights(x: Point, a: Point, b: Point, c: Point, v: real)
    requires AverageOf(x, a, b, c, 1.0 - v, v, 0.0)
    ensures OnSegment(x, a, b)
  {
    assert x == On(a, b, v);
  }

  lemma OtherSideWeights(x: Point, a: Point, b: Point, c: Point, w: real)
    requires AverageOf(x, a, b, c, 0.0, 1.0 - w, w)
    ensures OnSegment(x, b, c)
  {
    assert x == On(b, c, w);
  }

  /** Going from a point of the triangle to one outside of it that is not beyond its third side, one passes one
      of the other two. */
  lemma LeavesThrough(t: Triangle, r: Point, e: Point) returns (x: Point)
    requires Positive(t) && Has(t, r) && !Has(t, e) && Orient(t.c, t.a, e) >= 0.0
    ensures OnSegment(x, e, r) && (OnSegment(x, t.a, t.b) || OnSegment(x, t.b, t.c))
  {
    hide Orient, On;
    if Orient(t.a, t.b, e) < 0.0 {
      var k := Zero(t.a, t.b, r, e);
      x := On(e, r, k);
      TurnAlong(t.c, t.a, e, r, k);
      if Orient(t.b, t.c, x) < 0.0 {
        x := LeavesSecond(t, r, e, x, k);
      } else {
        OnSide(t, x);
      }
    } else {
      var k := Zero(t.b, t.c, r, e);
      x := On(e, r, k);
      TurnAlong(t.c, t.a, e, r, k);
      TurnAlong(t.a, t.b, e, r, k);
      OnSide(t, x);
    }
  }

  lemma LeavesSecond(t: Triangle, r: Point, e: Point, y: Point, j: real) returns (x: Point)
    requires Positive(t) && Has(t, r) && 0.0 <= j <= 1.0 && y == On(e, r, j)
    requires Orient(t.a, t.b, y) == 0.0 && Orient(t.c, t.a, y) >= 0.0 && Orient(t.b, t.c, y) < 0.0
    ensures OnSegment(x, e, r) && OnSegment(x, t.b, t.c)
  {
    hide Orient, On;
    var k := Zero(t.b, t.c, r, y);
    x := On(y, r, k);
    TurnAlong(t.c, t.a, y, r, k);
    TurnAlong(t.a, t.b, y, r, k);
    OnSide(t, x);
    EndIsOn(e, r);
    assert OnSegment(y, e, r);
    SubSegment(e, r, y, r, k);
  }

  /** From a point of an edge to one of its ends one stays on the edge, and does not pass the other end. */
  lemma TowardsEnd(x: Point, y: Point, r: Point, e: Point, q: Point)
    requires OnSegment(r, x, y) && Corner(e, x, y) && OnSegment(q, e, r)
    ensures OnSegment(q, x, y)
    ensures Corner(q, x, y) && q != e ==> q == r
  {
    EndIsOn(x, y);
    var k :| 0.0 <= k <= 1.0 && q == On(e, r, k);
    SubSegment(x, y, e, r, k);
    if Corner(q, x, y) && q != e { OtherEnd(x, y, r, e, q, k); }
  }

  lemma OtherEnd(x: Point, y: Point, r: Point, e: Point, q: Point, k: real)
    requires OnSegment(r, x, y) && Corner(e, x, y) && 0.0 <= k <= 1.0 && q == On(e, r, k) && Corner(q, x, y) && q != e
    ensures q == r
  {
    SegmentInBox(r, x, y);
    OnIs(e, r, k);
    ExtremeMix(e.x, q.x, r.x, k);
    ExtremeMix(e.y, q.y, r.y, k);
    hide On, Mul, OnSegment, Orient;
  }

  /** A mixture that reaches the far end of the range is there already. */
  lemma ExtremeMix(e: real, q: real, r: real, k: real)
    requires 0.0 <= k <= 1.0 && q == e + Mul(r - e, k) && Min(e, q) <= r <= Max(e, q)
    ensures q == r
  {
    if e != q {
      assert Mul(r - e, 1.0 - k) == r - q;
      hide Mul;
      MulSign(r - e, 1.0 - k);
    } else {
      assert r == e;
    }
  }

  /** Another edge meets the ear in a common corner at most. */
  lemma EdgeStaysOut(s: seq<Point>, x: Point, y: Point, r: Point)
    requires |s| >= 4 && Clean(s) && Empty(s) && IsEdge(s, x, y) && !IsSide(s, x, y)
    requires OnSegment(r, x, y) && Has(EarAt(s), r)
    ensures Corner(r, EarAt(s).a, EarAt(s).c) && Corner(r, x, y)
  {
    var t := EarAt(s);
    OtherEnds(s, x, y);
    SideEdges(s);
    hide Orient, OnSegment, IsEdge, OnlyCorners;
    assert OnlyCorners(x, y, t.a, t.b) && OnlyCorners(x, y, t.b, t.c);
    hide Clean;
    if !(Corner(r, t.a, t.c) && Corner(r, x, y)) {
      if !Has(t, x) { EndBeyond(t, x, y, r, x); }
      if !Has(t, y) { EndBeyond(t, x, y, r, y); }
      EndsBeyond(t, x, y, r);
    }
  }

  /** An end that is outside the triangle is beyond its third side. */
  lemma EndBeyond(t: Triangle, x: Point, y: Point, r: Point, e: Point)
    requires Positive(t) && OnlyCorners(x, y, t.a, t.b) && OnlyCorners(x, y, t.b, t.c)
    requires OnSegment(r, x, y) && Has(t, r) && Corner(e, x, y) && !Has(t, e)
    requires !(Corner(r, t.a, t.c) && Corner(r, x, y)) && x != t.b && y != t.b
    ensures Orient(t.c, t.a, e) < 0.0
  {
    hide Orient, OnSegment, Has;
    if Orient(t.c, t.a, e) >= 0.0 {
      var q := LeavesThrough(t, r, e);
      TowardsEnd(x, y, r, e, q);
      CornersHad(t);
    }
  }

  lemma CornersHad(t: Triangle)
    requires Positive(t)
    ensures Has(t, t.a) && Has(t, t.b) && Has(t, t.c)
    ensures Orient(t.c, t.a, t.a) == 0.0 && Orient(t.c, t.a, t.c) == 0.0
  {
    OrientEnds(t.a, t.b);
    OrientEnds(t.b, t.c);
    OrientEnds(t.c, t.a);
    OrientRotates(t.a, t.b, t.c);
    OrientRotates(t.b, t.c, t.a);
    hide Orient;
  }

  lemma EndsBeyond(t: Triangle, x: Point, y: Point, r: Point)
    requires Positive(t) && OnSegment(r, x, y) && Has(t, r)
    requires x == t.c || Orient(t.c, t.a, x) < 0.0
    requires y == t.a || Orient(t.c, t.a, y) < 0.0
    requires !(x == t.c && y == t.a)
    ensures Corner(r, t.a, t.c) && Corner(r, x, y)
  {
    var k :| 0.0 <= k <= 1.0 && r == On(x, y, k);
    CornersHad(t);
    OnEnds(x, y);
    OnTurnedAt(x, y, k);
    TurnAlong(t.c, t.a, x, y, k);
    TurnAlong(t.c, t.a, y, x, 1.0 - k);
    hide Orient, On;
  }

  lemma OnTurnedAt(x: Point, y: Point, k: real)
    ensures On(x, y, k) == On(y, x, 1.0 - k)
  {}
  // ---- the ring without the ear -----------------------------------------------------------------------------------

  /** The side that closes the ring meets an edge in common corners at most. */
  lemma ClosingEdge(s: seq<Point>, x: Point, y: Point)
    requires |s| >= 4 && Clean(s) && Empty(s) && IsEdge(s, x, y) && !IsSide(s, x, y)
    ensures OnlyCorners(x, y, EarAt(s).a, EarAt(s).c)
  {
    var t := EarAt(s);
    hide OnSegment, Orient, Clean, IsEdge, Empty, Has;
    forall r | OnSegment(r, x, y) && OnSegment(r, t.a, t.c) ensures Corner(r, x, y) && Corner(r, t.a, t.c) {
      EmptyPositive(s);
      ThirdSideHad(t, r);
      EdgeStaysOut(s, x, y, r);
    }
  }

  lemma EmptyPositive(s: seq<Point>)
    requires |s| >= 3 && Empty(s)
    ensures Positive(EarAt(s))
  {}

  lemma ThirdSideHad(t: Triangle, r: Point)
    requires Positive(t) && OnSegment(r, t.a, t.c)
    ensures Has(t, r) && Orient(t.c, t.a, r) == 0.0
  {
    var k :| 0.0 <= k <= 1.0 && r == On(t.a, t.c, k);
    CornersHad(t);
    TurnAlong(t.a, t.b, t.a, t.c, k);
    TurnAlong(t.b, t.c, t.a, t.c, k);
    OrientAlong(t.c, t.a, t.a, t.c, k);
    OrientEnds(t.c, t.a);
    hide Orient, On;
  }

  lemma OnlyCornersTurned(x: Point, y: Point, u: Point, v: Point)
    requires OnlyCorners(x, y, u, v)
    ensures OnlyCorners(u, v, x, y)
  {
    hide OnSegment;
  }

  /** Without its first corner the ring is clean again. */
  lemma CleanCut(s: seq<Point>)
    requires |s| >= 4 && Clean(s) && Empty(s)
    ensures Clean(s[1..])
  {
    var z, t := s[1..], EarAt(s);
    hide OnlyCorners, IsEdge, Empty;
    forall i, j | 0 <= i < j < |z| ensures z[i] != z[j] { assert z[i] == s[i + 1] && z[j] == s[j + 1]; }
    forall x, y, u, v | IsEdge(z, x, y) && IsEdge(z, u, v) && (x, y) != (u, v) ensures OnlyCorners(x, y, u, v) {
      CutEdges(s, x, y);
      CutEdges(s, u, v);
      if x == t.a && y == t.c {
        ClosingEdge(s, u, v);
        OnlyCornersTurned(u, v, x, y);
      } else if u == t.a && v == t.c {
        ClosingEdge(s, x, y);
      }
    }
  }

  /** Strictly inside the ear no edge passes, neither of the ring nor of the ring without the ear. */
  lemma EarIsClear(s: seq<Point>, q: Point)
    requires |s| >= 4 && Clean(s) && Empty(s) && Has(EarAt(s), q) && Orient(EarAt(s).c, EarAt(s).a, q) > 0.0
    ensures !OnSome(s[1..], q)
    ensures Within(EarAt(s), q) ==> !OnSome(s, q)
  {
    var t := EarAt(s);
    EmptyPositive(s);
    CornersHad(t);
    hide Orient, OnSegment, IsEdge, Clean, Empty;
    forall x, y | IsEdge(s, x, y) && !IsSide(s, x, y) && OnSegment(q, x, y) ensures false { EdgeStaysOut(s, x, y, q); }
    forall x, y | IsEdge(s[1..], x, y) && OnSegment(q, x, y) ensures false {
      CleanDistinct(s);
      CutEdges(s, x, y);
      if x == t.a && y == t.c { ThirdSideHad(t, q); }
    }
    forall x, y | IsEdge(s, x, y) && OnSegment(q, x, y) && Within(t, q) ensures false {
      if IsSide(s, x, y) { SegmentInBox(q, x, y); }
    }
  }

  lemma CleanDistinct(s: seq<Point>)
    requires Clean(s)
    ensures forall i, j :: 0 <= i < j < |s| ==> s[i] != s[j]
  {}

  /** A segment on which no point is on the boundary. */
  lemma ClearAvoids(s: seq<Point>, p: Point, q: Point)
    requires forall t: real {:trigger On(p, q, t)} :: 0.0 <= t <= 1.0 ==> !OnSome(s, On(p, q, t))
    ensures Avoids(p, q, s)
  {
    forall i | 0 <= i < |s| ensures !ShareAPoint(s[i], s[if i + 1 < |s| then i + 1 else 0], p, q) {
      var x, y := s[i], s[if i + 1 < |s| then i + 1 else 0];
      assert EdgeAt(s, i, x, y);
      forall r | OnSegment(r, p, q) ensures !OnSegment(r, x, y) { ClearOn(s, p, q, r); }
    }
  }

  lemma ClearOn(s: seq<Point>, p: Point, q: Point, r: Point)
    requires forall t: real {:trigger On(p, q, t)} :: 0.0 <= t <= 1.0 ==> !OnSome(s, On(p, q, t))
    requires OnSegment(r, p, q)
    ensures !OnSome(s, r)
  {
    hide OnSome, On;
  }

  /** Up to a point short of the end, parity stays. */
  lemma SameUpTo(s: seq<Point>, p: Point, r: Point, k: real)
    requires Reaches(s, p, r) && 0.0 <= k < 1.0
    ensures Inside(On(p, r, k), s) == Inside(p, s) && Reaches(s, On(p, r, k), r)
  {
    hide Inside, OnSome, On;
    var q := On(p, r, k);
    forall t: real | 0.0 <= t <= 1.0 ensures !OnSome(s, On(p, q, t)) {
      OnPart(p, r, k, t);
    }
    forall t: real | 0.0 <= t < 1.0 ensures !OnSome(s, On(q, r, t)) {
      OnRest(p, r, k, t);
    }
    ClearAvoids(s, p, q);
    ParityIsConstant(p, q, s);
  }

  lemma OnPart(p: Point, r: Point, k: real, t: real)
    requires 0.0 <= k < 1.0 && 0.0 <= t <= 1.0
    ensures On(p, On(p, r, k), t) == On(p, r, k * t) && 0.0 <= k * t < 1.0
  {
    MulSign(k, t);
    MulSign(k, 1.0 - t);
    assert k * t == Mul(k, t) && Mul(k, 1.0 - t) == k - k * t;
    assert (r.x - p.x) * k * t == (r.x - p.x) * (k * t) && (r.y - p.y) * k * t == (r.y - p.y) * (k * t);
  }

  lemma OnRest(p: Point, r: Point, k: real, t: real)
    requires 0.0 <= k < 1.0 && 0.0 <= t
    ensures On(On(p, r, k), r, t) == On(p, r, k + (1.0 - k) * t) && 0.0 <= k + (1.0 - k) * t
    ensures t < 1.0 ==> k + (1.0 - k) * t < 1.0
    ensures t <= 1.0 ==> k <= k + (1.0 - k) * t <= 1.0
  {
    MulSign(1.0 - k, t);
    MulSign(1.0 - k, 1.0 - t);
    assert Mul(1.0 - k, 1.0 - t) == 1.0 - (k + (1.0 - k) * t);
    RestCoordinate(p.x, r.x, k, t);
    RestCoordinate(p.y, r.y, k, t);
  }

  lemma RestCoordinate(p: real, r: real, k: real, t: real)
    ensures (p + (r - p) * k) + (r - (p + (r - p) * k)) * t == p + (r - p) * (k + (1.0 - k) * t)
  {}

  /** A point strictly inside the ear is outside of the ring without the ear. */
  lemma EarIsOutside(s: seq<Point>, p: Point)
    requires |s| >= 4 && Clean(s) && Empty(s) && Sided(s[1..]) && Within(EarAt(s), p)
    ensures !Inside(p, s[1..])
  {
    var t, z := EarAt(s), s[1..];
    var r := On(t.a, t.c, 0.5);
    EmptyPositive(s);
    assert OnSegment(r, t.a, t.c);
    ThirdSideHad(t, r);
    HalfWay(t.a, t.c);
    CornersHad(t);
    CleanDistinct(s);
    CutEdges(s, t.a, t.c);
    OrientSwap(t.a, t.c, p);
    hide Orient, On, OnSegment, IsEdge, Clean, Empty, Inside;
    forall k: real | 0.0 <= k < 1.0 ensures !OnSome(z, On(p, r, k)) {
      TurnAlong(t.a, t.b, p, r, k);
      TurnAlong(t.b, t.c, p, r, k);
      TurnAlong(t.c, t.a, p, r, k);
      EarIsClear(s, On(p, r, k));
    }
    assert Reaches(z, p, r);
    assert LeftIsInside(z, t.a, t.c);
  }

  lemma HalfWay(a: Point, b: Point)
    requires a != b
    ensures !Corner(On(a, b, 0.5), a, b)
  {}
  // ---- the sides of the edges ----------------------------------------------------------------------------------

  /** The turn of an edge keeps its sign on the way to the edge. */
  lemma SameSideOf(x: Point, y: Point, p: Point, r: Point, k: real)
    requires Orient(x, y, r) == 0.0 && 0.0 <= k < 1.0
    ensures Orient(x, y, On(p, r, k)) > 0.0 <==> Orient(x, y, p) > 0.0
    ensures Orient(x, y, On(p, r, k)) < 0.0 <==> Orient(x, y, p) < 0.0
  {
    OrientAlong(x, y, p, r, k);
    hide Orient, On, Mul;
    WeighedSign(1.0 - k, Orient(x, y, p));
    TimesZero(k);
    TimesZero(1.0 - k);
  }

  lemma TimesZero(k: real)
    ensures Mul(k, 0.0) == 0.0
  {}

  /** An edge that the cut leaves: seen from close by, the ear does not matter. */
  lemma KeptEdge(s: seq<Point>, x: Point, y: Point, p: Point, r: Point)
    requires |s| >= 4 && Clean(s) && Empty(s) && Sided(s[1..]) && IsEdge(s, x, y) && !IsSide(s, x, y)
    requires OnSegment(r, x, y) && !Corner(r, x, y) && Orient(x, y, p) != 0.0 && Reaches(s, p, r)
    ensures Inside(p, s) <==> Orient(x, y, p) > 0.0
  {
    var t, z := EarAt(s), s[1..];
    EmptyPositive(s);
    SegmentInBox(r, x, y);
    hide Orient, On, OnSegment, IsEdge, Clean, Empty, Inside, OnSome;
    if Has(t, r) { EdgeStaysOut(s, x, y, r); }
    var u, v := SideMissed(t, r);
    var k := LeftFromThere(v, u, p, r);
    var q := On(p, r, k);
    SameUpTo(s, p, r, k);
    SameSideOf(x, y, p, r, k);
    forall j: real | 0.0 <= j < 1.0 ensures !OnSome(z, On(q, r, j)) {
      OnRest(p, r, k, j);
      NotHad(t, u, v, On(q, r, j));
      OffCut(s, On(q, r, j));
    }
    OnRest(p, r, k, 0.0);
    NotHad(t, u, v, q);
    StillAt(q, r);
    CleanDistinct(s);
    CutEdges(s, x, y);
    assert Reaches(z, q, r);
    assert LeftIsInside(z, x, y);
    if Inside(q, Corners(t)) { OddIsHad(t, q); }
    InsideClipped(q, s);
  }

  lemma StillAt(q: Point, r: Point)
    ensures On(q, r, 0.0) == q
  {}

  predicate SideOf(t: Triangle, u: Point, v: Point) {
    (u == t.a && v == t.b) || (u == t.b && v == t.c) || (u == t.c && v == t.a)
  }

  lemma SideMissed(t: Triangle, r: Point) returns (u: Point, v: Point)
    requires !Has(t, r)
    ensures SideOf(t, u, v) && Orient(v, u, r) > 0.0
  {
    OrientSwap(t.a, t.b, r);
    OrientSwap(t.b, t.c, r);
    OrientSwap(t.c, t.a, r);
    hide Orient;
    if Orient(t.a, t.b, r) < 0.0 {
      u, v := t.a, t.b;
    } else if Orient(t.b, t.c, r) < 0.0 {
      u, v := t.b, t.c;
    } else {
      u, v := t.c, t.a;
    }
  }

  lemma NotHad(t: Triangle, u: Point, v: Point, q: Point)
    requires SideOf(t, u, v) && Orient(v, u, q) > 0.0
    ensures !Has(t, q)
  {
    OrientSwap(u, v, q);
    hide Orient;
  }

  /** Off the ring and off the ear is off the ring without the ear. */
  lemma OffCut(s: seq<Point>, q: Point)
    requires |s| >= 4 && Clean(s) && Empty(s) && !OnSome(s, q) && !Has(EarAt(s), q)
    ensures !OnSome(s[1..], q)
  {
    var t := EarAt(s);
    EmptyPositive(s);
    CleanDistinct(s);
    hide Orient, OnSegment, IsEdge, Clean, Empty;
    forall x, y | IsEdge(s[1..], x, y) ensures !OnSegment(q, x, y) {
      CutEdges(s, x, y);
      if x == t.a && y == t.c && OnSegment(q, x, y) { ThirdSideHad(t, q); }
    }
  }

  /** Between the ends of a side of the ear the other two turns are left ones. */
  lemma BetweenEnds(t: Triangle, r: Point)
    requires Positive(t)
    ensures OnSegment(r, t.a, t.b) && !Corner(r, t.a, t.b) ==>
              Orient(t.a, t.b, r) == 0.0 && Orient(t.b, t.c, r) > 0.0 && Orient(t.c, t.a, r) > 0.0
    ensures OnSegment(r, t.b, t.c) && !Corner(r, t.b, t.c) ==>
              Orient(t.b, t.c, r) == 0.0 && Orient(t.a, t.b, r) > 0.0 && Orient(t.c, t.a, r) > 0.0
  {
    CornersHad(t);
    OrientRotates(t.a, t.b, t.c);
    OrientRotates(t.b, t.c, t.a);
    OrientEnds(t.a, t.b);
    OrientEnds(t.b, t.c);
    OrientEnds(t.c, t.a);
    if OnSegment(r, t.a, t.b) && !Corner(r, t.a, t.b) { BetweenTurns(t.a, t.b, t.c, r); }
    if OnSegment(r, t.b, t.c) && !Corner(r, t.b, t.c) { BetweenTurns(t.b, t.c, t.a, r); }
  }

  lemma BetweenTurns(a: Point, b: Point, c: Point, r: Point)
    requires Orient(a, b, c) > 0.0 && OnSegment(r, a, b) && !Corner(r, a, b)
    ensures Orient(a, b, r) == 0.0 && Orient(b, c, r) > 0.0 && Orient(c, a, r) > 0.0
  {
    var k :| 0.0 <= k <= 1.0 && r == On(a, b, k);
    OnEnds(a, b);
    assert 0.0 < k < 1.0;
    OrientAlong(a, b, a, b, k);
    OrientAlong(b, c, a, b, k);
    OrientAlong(c, a, a, b, k);
    OrientEnds(a, b);
    OrientEnds(b, c);
    OrientEnds(c, a);
    OrientRotates(a, b, c);
    OrientRotates(b, c, a);
    hide Orient, On, Mul;
    WeighedSign(1.0 - k, Orient(b, c, a));
    WeighedSign(k, Orient(c, a, b));
    TimesZero(k);
    TimesZero(1.0 - k);
  }

  lemma OffCutLeft(s: seq<Point>, q: Point)
    requires |s| >= 4 && Clean(s) && Empty(s) && !OnSome(s, q) && Orient(EarAt(s).c, EarAt(s).a, q) > 0.0
    ensures !OnSome(s[1..], q)
  {
    var t := EarAt(s);
    EmptyPositive(s);
    CleanDistinct(s);
    hide Orient, OnSegment, IsEdge, Clean, Empty;
    forall x, y | IsEdge(s[1..], x, y) ensures !OnSegment(q, x, y) {
      CutEdges(s, x, y);
      if x == t.a && y == t.c && OnSegment(q, x, y) { ThirdSideHad(t, q); }
    }
  }

  /** A point of a side is outside of the ring without the ear, being next to the inside of the ear. */
  lemma SideIsOutside(s: seq<Point>, r: Point)
    requires |s| >= 4 && Clean(s) && Empty(s) && Sided(s[1..])
    requires Has(EarAt(s), r) && Orient(EarAt(s).c, EarAt(s).a, r) > 0.0
    ensures !Inside(r, s[1..])
  {
    var t, z := EarAt(s), s[1..];
    var g := Middle(t);
    EmptyPositive(s);
    MiddleWithin(t);
    OnEnds(g, r);
    hide Orient, On, OnSegment, IsEdge, Clean, Empty, Inside, OnSome, Sided, Middle;
    forall k: real | 0.0 <= k <= 1.0 ensures !OnSome(z, On(g, r, k)) {
      TurnAlong(t.a, t.b, g, r, k);
      TurnAlong(t.b, t.c, g, r, k);
      TurnAlong(t.c, t.a, g, r, k);
      EarIsClear(s, On(g, r, k));
    }
    ClearAvoids(z, g, r);
    ParityIsConstant(g, r, z);
    EarIsOutside(s, g);
  }

  /** Close to the side from beyond one is outside of the ring without the ear as well. */
  lemma RightOfSide(s: seq<Point>, p: Point, r: Point, m: real)
    requires |s| >= 4 && Clean(s) && Empty(s) && Sided(s[1..]) && Reaches(s, p, r) && 0.0 <= m < 1.0
    requires Has(EarAt(s), r) && forall k: real :: m <= k <= 1.0 ==> Orient(EarAt(s).c, EarAt(s).a, On(p, r, k)) > 0.0
    ensures !Inside(On(p, r, m), s[1..])
  {
    var t, z, q := EarAt(s), s[1..], On(p, r, m);
    OnEnds(p, r);
    OnEnds(q, r);
    hide Orient, On, OnSegment, IsEdge, Clean, Empty, Inside, OnSome, Sided, Has;
    assert Orient(t.c, t.a, r) > 0.0 by { assert Orient(t.c, t.a, On(p, r, 1.0)) > 0.0; }
    EarIsClear(s, r);
    forall j: real | 0.0 <= j <= 1.0 ensures !OnSome(z, On(q, r, j)) {
      OnRest(p, r, m, j);
      if j < 1.0 { OffCutLeft(s, On(q, r, j)); }
    }
    ClearAvoids(z, q, r);
    ParityIsConstant(q, r, z);
    SideIsOutside(s, r);
  }

  /** A side of the ear: on its left is the ear, which is inside; on its right, close by, one is outside of the ear and
      of the ring without it. */
  lemma SideOfEar(s: seq<Point>, x: Point, y: Point, p: Point, r: Point)
    requires |s| >= 4 && Clean(s) && Empty(s) && Sided(s[1..]) && IsSide(s, x, y)
    requires OnSegment(r, x, y) && !Corner(r, x, y) && Orient(x, y, p) != 0.0 && Reaches(s, p, r)
    ensures Inside(p, s) <==> Orient(x, y, p) > 0.0
  {
    var t := EarAt(s);
    EmptyPositive(s);
    BetweenEnds(t, r);
    hide Orient, On, OnSegment, IsEdge, Clean, Empty, Inside, OnSome, Sided, Reaches;
    var k := LeftFromThere(t.c, t.a, p, r);
    var u, v := if x == t.a && y == t.b then t.b else t.a, if x == t.a && y == t.b then t.c else t.b;
    var j := LeftFromThere(u, v, p, r);
    var m := if k < j then j else k;
    var q := On(p, r, m);
    SameUpTo(s, p, r, m);
    SameSideOf(x, y, p, r, m);
    InsideClipped(q, s);
    if Orient(x, y, p) > 0.0 {
      WithinIsOdd(t, q);
      EarIsOutside(s, q);
    } else {
      if Inside(q, Corners(t)) { OddIsHad(t, q); }
      RightOfSide(s, p, r, m);
    }
  }

  /** The inside stays on the left of every edge when an ear is put back. */
  lemma SidedWithEar(s: seq<Point>)
    requires |s| >= 4 && Clean(s) && Empty(s) && Sided(s[1..])
    ensures Sided(s)
  {
    hide Orient, On, OnSegment, IsEdge, Clean, Empty, Inside, Reaches;
    forall x, y | IsEdge(s, x, y) ensures LeftIsInside(s, x, y) {
      forall p, r | OnSegment(r, x, y) && !Corner(r, x, y) && Orient(x, y, p) != 0.0 && Reaches(s, p, r)
        ensures Inside(p, s) <==> Orient(x, y, p) > 0.0
      {
        if IsSide(s, x, y) { SideOfEar(s, x, y, p, r); } else { KeptEdge(s, x, y, p, r); }
      }
    }
  }

  /** The last triangle, if it turns left. */
  lemma SidedTriangle(s: seq<Point>)
    requires |s| == 3 && Positive(Triangle(s[0], s[1], s[2]))
    ensures Sided(s)
  {
    var t := Triangle(s[0], s[1], s[2]);
    OrientRotates(t.a, t.b, t.c);
    OrientRotates(t.b, t.c, t.a);
    TurnedTriangle(t.a, t.b, t.c);
    TurnedTriangle(t.b, t.c, t.a);
    assert s == Corners(t);
    hide Orient, On, OnSegment, Inside, Reaches;
    forall x, y | IsEdge(s, x, y) ensures LeftIsInside(s, x, y) {
      var i :| EdgeAt(s, i, x, y);
      var u := if i == 0 then t else if i == 1 then Triangle(t.b, t.c, t.a) else Triangle(t.c, t.a, t.b);
      forall p, r | OnSegment(r, x, y) && !Corner(r, x, y) && Orient(x, y, p) != 0.0 && Reaches(s, p, r)
        ensures Inside(p, s) <==> Orient(x, y, p) > 0.0
      {
        BesideTriangle(u, s, p, r);
      }
    }
  }

  lemma TurnedTriangle(a: Point, b: Point, c: Point)
    ensures forall p :: Inside(p, [b, c, a]) == Inside(p, [a, b, c])
  {
    hide Inside;
    forall p ensures Inside(p, [b, c, a]) == Inside(p, [a, b, c]) {
      InsideRotated(p, [a, b, c]);
      assert Rotate([a, b, c]) == [b, c, a];
    }
  }

  lemma BesideTriangle(t: Triangle, s: seq<Point>, p: Point, r: Point)
    requires Positive(t) && (forall q :: Inside(q, s) == Inside(q, Corners(t))) && Reaches(s, p, r)
    requires OnSegment(r, t.a, t.b) && !Corner(r, t.a, t.b) && Orient(t.a, t.b, p) != 0.0
    ensures Inside(p, s) <==> Orient(t.a, t.b, p) > 0.0
  {
    BetweenEnds(t, r);
    hide Orient, On, OnSegment, Inside, Reaches;
    var k := LeftFromThere(t.c, t.a, p, r);
    var j := LeftFromThere(t.b, t.c, p, r);
    var m := if k < j then j else k;
    var q := On(p, r, m);
    SameUpTo(s, p, r, m);
    SameSideOf(t.a, t.b, p, r, m);
    if Orient(t.a, t.b, p) > 0.0 {
      WithinIsOdd(t, q);
    } else if Inside(q, Corners(t)) {
      OddIsHad(t, q);
    }
  }
  // ---- back through the clipping ------------------------------------------------------------------------------------

  /** A triangle all of whose strict interior is inside the ring and off its edges. */
  ghost predicate Fills(s: seq<Point>, t: Triangle) {
    Positive(t) && forall p :: Within(t, p) ==> Inside(p, s) && !OnSome(s, p)
  }

  /** Close to a point that is strictly inside one triangle and in another closed one are points strictly inside
      both. */
  lemma InBoth(t: Triangle, u: Triangle, p: Point) returns (q: Point)
    requires Within(t, p) && Has(u, p) && Positive(u)
    ensures Within(t, q) && Within(u, q)
  {
    var g := Middle(u);
    MiddleWithin(u);
    hide Orient, On, Middle;
    var i := LeftFromThere(t.a, t.b, g, p);
    var j := LeftFromThere(t.b, t.c, g, p);
    var k := LeftFromThere(t.c, t.a, g, p);
    var m := if i >= j && i >= k then i else if j >= k then j else k;
    q := On(g, p, m);
    TurnAlong(u.a, u.b, g, p, m);
    TurnAlong(u.b, u.c, g, p, m);
    TurnAlong(u.c, u.a, g, p, m);
  }

  /** What fills the ring without the ear has no strict interior point in the closed ear. */
  lemma FilledOffEar(s: seq<Point>, t: Triangle, p: Point)
    requires |s| >= 4 && Clean(s) && Empty(s) && Sided(s[1..]) && Fills(s[1..], t) && Within(t, p)
    ensures !Has(EarAt(s), p)
  {
    EmptyPositive(s);
    hide Inside, OnSome, Within, Clean, Empty, Sided;
    if Has(EarAt(s), p) {
      var q := InBoth(t, EarAt(s), p);
      EarIsOutside(s, q);
    }
  }

  /** It also fills the ring with the ear. */
  lemma FillsWithEar(s: seq<Point>, t: Triangle)
    requires |s| >= 4 && Clean(s) && Empty(s) && Sided(s[1..]) && Fills(s[1..], t)
    ensures Fills(s, t)
  {
    EmptyPositive(s);
    hide Inside, Has, Within, Clean, Empty, Sided, OnSegment, IsEdge;
    forall p | Within(t, p) ensures Inside(p, s) && !OnSome(s, p) {
      FilledOffEar(s, t, p);
      InsideClipped(p, s);
      if Inside(p, Corners(EarAt(s))) { OddIsHad(EarAt(s), p); }
      OffWithEar(s, p);
    }
  }

  lemma OffWithEar(s: seq<Point>, p: Point)
    requires |s| >= 4 && Clean(s) && Empty(s) && !OnSome(s[1..], p) && !Has(EarAt(s), p)
    ensures !OnSome(s, p)
  {
    var t := EarAt(s);
    EmptyPositive(s);
    CleanDistinct(s);
    hide Orient, OnSegment, IsEdge, Clean, Empty;
    forall x, y | IsEdge(s, x, y) ensures !OnSegment(p, x, y) {
      CutEdges(s, x, y);
      if IsSide(s, x, y) && OnSegment(p, x, y) { SideHad(t, x, y, p); }
    }
  }

  lemma SideHad(t: Triangle, x: Point, y: Point, p: Point)
    requires Positive(t) && OnSegment(p, x, y) && ((x == t.a && y == t.b) || (x == t.b && y == t.c))
    ensures Has(t, p)
  {
    var k :| 0.0 <= k <= 1.0 && p == On(x, y, k);
    CornersHad(t);
    hide Orient, On;
    TurnAlong(t.a, t.b, x, y, k);
    TurnAlong(t.b, t.c, x, y, k);
    TurnAlong(t.c, t.a, x, y, k);
  }

  /** The ear fills the ring. */
  lemma EarFills(s: seq<Point>)
    requires |s| >= 4 && Clean(s) && Empty(s) && Sided(s[1..])
    ensures Fills(s, EarAt(s))
  {
    EmptyPositive(s);
    hide Inside, OnSome, Clean, Empty, Sided;
    forall p | Within(EarAt(s), p) ensures Inside(p, s) && !OnSome(s, p) {
      EarIsOutside(s, p);
      WithinIsOdd(EarAt(s), p);
      InsideClipped(p, s);
      EarIsClear(s, p);
    }
  }

  lemma SameFills(s: seq<Point>, z: seq<Point>, t: Triangle)
    requires SameRing(s, z) && Fills(s, t)
    ensures Fills(z, t)
  {
    hide Inside, OnSome, Within, IsEdge;
    forall p | Within(t, p) ensures Inside(p, z) && !OnSome(z, p) { SameOnSome(s, z, p); }
  }

  /** A clipped ear of a clean ring is empty in terms of the points. */
  lemma EarIsEmpty(poly: seq<Point>, ring: Ring)
    requires ValidRing(poly, ring) && |ring| > 3 && IsEar(poly, ring) && Clean(PointsOf(poly, ring))
    ensures var s := PointsOf(poly, ring); Empty(s) && EarAt(s) == EarOf(poly, ring) && s[1..] == PointsOf(poly, ring[1..])
  {
    var s, t := PointsOf(poly, ring), EarOf(poly, ring);
    CleanDistinct(s);
    hide Orient, Clean, InHull;
    forall i | 2 <= i < |s| - 1 ensures !Has(t, s[i]) {
      assert s[i] != s[0] && s[i] != s[1] && s[i] != s[|s| - 1];
      assert ring[i] !in {ring[|ring| - 1], ring[0], ring[1]};
      HasIsHull(t, s[i]);
    }
  }

  /** Every ring of the clipping is clean if the first one is. */
  lemma {:induction false} AllClean(poly: seq<Point>, start: Ring, rings: seq<Ring>, rest: Ring)
    requires Clipped(poly, start, rings, rest) && |start| >= 3 && Clean(PointsOf(poly, start))
    ensures ValidRing(poly, rest) && Clean(PointsOf(poly, rest))
    decreases |rings|
  {
    hide Clean, IsEar, SameRing, IsTurn, PointsOf;
    if rings == [] {
      StartTurned(poly, start, rest);
      IsTurnSame(poly, start, rest);
      SameClean(PointsOf(poly, start), PointsOf(poly, rest));
    } else {
      var m := |rings| - 1;
      ClippedFront(poly, start, rings, rest);
      AllClean(poly, start, rings[..m], rings[m]);
      LastEar(poly, start, rings, rest);
      var s := PointsOf(poly, rings[m]);
      EarIsEmpty(poly, rings[m]);
      SameLength(poly, rings[m]);
      CleanCut(s);
      IsTurnSame(poly, rings[m][1..], rest);
      SameClean(PointsOf(poly, rings[m][1..]), PointsOf(poly, rest));
    }
  }

  lemma SameLength(poly: seq<Point>, ring: Ring)
    requires ValidRing(poly, ring)
    ensures |PointsOf(poly, ring)| == |ring|
  {}

  lemma LastEar(poly: seq<Point>, start: Ring, rings: seq<Ring>, rest: Ring)
    requires Clipped(poly, start, rings, rest) && rings != []
    ensures var m := |rings| - 1; |rings[m]| > 3 && ValidRing(poly, rings[m]) && IsEar(poly, rings[m]) && ValidRing(poly, rings[m][1..])
  {
    hide IsEar, IsTurn;
    ClippedValid(poly, start, rings, rest);
    assert |rings[|rings| - 1]| > 3;
  }

  lemma StartIsValid(poly: seq<Point>, start: Ring, rings: seq<Ring>, rest: Ring)
    requires Clipped(poly, start, rings, rest)
    ensures ValidRing(poly, start)
  {}

  lemma TurnedRingBack(poly: seq<Point>, a: Ring, b: Ring)
    requires ValidRing(poly, a) && |a| >= 2 && IsTurn(a, b)
    ensures ValidRing(poly, b) && SameRing(PointsOf(poly, b), PointsOf(poly, a))
  {
    var m :| 0 <= m <= |a| && b == Turn(a, m);
    assert a == Turn(b, |a| - m);
    TurnValid(poly, a, b);
    TurnedRing(poly, b, |a| - m);
  }

  /** No two of the triangles have a strict interior point in common. */
  ghost predicate Disjoint(ts: seq<Triangle>) {
    forall i, j, p {:trigger Within(ts[i], p), Within(ts[j], p)} :: 0 <= i < j < |ts| && Within(ts[i], p) ==> !Within(ts[j], p)
  }

  /** The boundary is covered by the closed triangles. */
  ghost predicate Borders(s: seq<Point>, ts: seq<Triangle>) {
    forall r {:trigger OnSome(s, r)} :: OnSome(s, r) ==> SomeHas(ts, r)
  }

  predicate SomeHas(ts: seq<Triangle>, r: Point) { exists k :: 0 <= k < |ts| && Has(ts[k], r) }

  lemma SomeMore(t: Triangle, ts: seq<Triangle>, r: Point)
    ensures SomeHas([t] + ts, r) <==> Has(t, r) || SomeHas(ts, r)
  {
    hide Has;
    var more := [t] + ts;
    if Has(t, r) { assert Has(more[0], r); }
    if k :| 0 <= k < |ts| && Has(ts[k], r) { assert more[k + 1] == ts[k]; }
    if k :| 0 <= k < |more| && Has(more[k], r) { assert k > 0 ==> more[k] == ts[k - 1]; }
  }

  lemma BordersWithEar(s: seq<Point>, ts: seq<Triangle>)
    requires |s| >= 4 && Clean(s) && Empty(s) && Borders(s[1..], ts)
    ensures Borders(s, [EarAt(s)] + ts)
  {
    EmptyPositive(s);
    CleanDistinct(s);
    hide Orient, OnSegment, IsEdge, Clean, Empty, Has, SomeHas;
    forall r | OnSome(s, r) ensures SomeHas([EarAt(s)] + ts, r) {
      var x, y :| IsEdge(s, x, y) && OnSegment(r, x, y);
      CutEdges(s, x, y);
      SomeMore(EarAt(s), ts, r);
      if IsSide(s, x, y) { SideHad(EarAt(s), x, y, r); } else { assert OnSome(s[1..], r); }
    }
  }

  lemma LastBorders(t: Triangle)
    requires Positive(t)
    ensures Borders(Corners(t), [t])
  {
    var s := Corners(t);
    CornersHad(t);
    hide Orient, OnSegment, Has;
    forall r | OnSome(s, r) ensures SomeHas([t], r) {
      var x, y :| IsEdge(s, x, y) && OnSegment(r, x, y);
      var i :| EdgeAt(s, i, x, y);
      if i == 2 {
        OnTurned(r, x, y);
        ThirdSideHad(t, r);
      } else {
        SideHad(t, x, y, r);
      }
      assert Has([t][0], r);
    }
  }

  lemma SameBorders(s: seq<Point>, z: seq<Point>, ts: seq<Triangle>)
    requires SameRing(s, z) && Borders(s, ts)
    ensures Borders(z, ts)
  {
    hide OnSome, SameRing, SomeHas;
    forall r | OnSome(z, r) ensures SomeHas(ts, r) { SameOnSome(s, z, r); }
  }

  /** Backwards over the ears: given what holds of the ring that remains and of triangles that fill it, the same holds
      of the start and of these triangles with the ears in front. */
  lemma {:induction false} BackToStart(poly: seq<Point>, start: Ring, rings: seq<Ring>, rest: Ring, ts: seq<Triangle>)
    requires Clipped(poly, start, rings, rest) && |start| >= 3 && Clean(PointsOf(poly, start)) && |rest| >= 3
    requires Sided(PointsOf(poly, rest)) && Disjoint(ts) && Borders(PointsOf(poly, rest), ts)
    requires forall k {:trigger ts[k]} :: 0 <= k < |ts| ==> Fills(PointsOf(poly, rest), ts[k])
    ensures ClippedSizes(poly, rings) && Disjoint(Ears(poly, rings) + ts) && Borders(PointsOf(poly, start), Ears(poly, rings) + ts)
    ensures var all := Ears(poly, rings) + ts;
            forall k {:trigger all[k]} :: 0 <= k < |all| ==> Fills(PointsOf(poly, start), all[k])
    decreases |rings|
  {
    hide Clean, IsEar, SameRing, IsTurn, PointsOf, Sided, Fills, Within, Clipped, Disjoint, Borders;
    ClippedValid(poly, start, rings, rest);
    StartIsValid(poly, start, rings, rest);
    if rings == [] {
      StartTurned(poly, start, rest);
      TurnedRingBack(poly, start, rest);
      assert Ears(poly, rings) + ts == ts;
      SameBorders(PointsOf(poly, rest), PointsOf(poly, start), ts);
      forall k | 0 <= k < |ts| ensures Fills(PointsOf(poly, start), ts[k]) {
        SameFills(PointsOf(poly, rest), PointsOf(poly, start), ts[k]);
      }
    } else {
      var m := |rings| - 1;
      ClippedFront(poly, start, rings, rest);
      var more := EarBack(poly, start, rings, rest, ts);
      BackToStart(poly, start, rings[..m], rings[m], more);
      EarsFront(poly, rings);
      assert Ears(poly, rings) + ts == Ears(poly, rings[..m]) + more;
    }
  }

  lemma EarBack(poly: seq<Point>, start: Ring, rings: seq<Ring>, rest: Ring, ts: seq<Triangle>) returns (more: seq<Triangle>)
    requires Clipped(poly, start, rings, rest) && rings != [] && |start| >= 3 && Clean(PointsOf(poly, start)) && |rest| >= 3
    requires Sided(PointsOf(poly, rest)) && Disjoint(ts) && Borders(PointsOf(poly, rest), ts)
    requires forall k {:trigger ts[k]} :: 0 <= k < |ts| ==> Fills(PointsOf(poly, rest), ts[k])
    ensures var m := |rings| - 1;
            && |rings[m]| > 3 && ValidRing(poly, rings[m]) && more == [EarOf(poly, rings[m])] + ts
            && Sided(PointsOf(poly, rings[m])) && Disjoint(more) && Borders(PointsOf(poly, rings[m]), more)
            && forall k {:trigger more[k]} :: 0 <= k < |more| ==> Fills(PointsOf(poly, rings[m]), more[k])
  {
    hide Clean, IsEar, SameRing, IsTurn, PointsOf, Sided, Fills, Within, Clipped, Disjoint, Empty, Borders;
    var m := |rings| - 1;
    ClippedFront(poly, start, rings, rest);
    AllClean(poly, start, rings[..m], rings[m]);
    LastEar(poly, start, rings, rest);
    EarIsEmpty(poly, rings[m]);
    SameLength(poly, rings[m]);
    var s, z := PointsOf(poly, rings[m]), PointsOf(poly, rings[m][1..]);
    TurnedRingBack(poly, rings[m][1..], rest);
    IsTurnSame(poly, rings[m][1..], rest);
    SameSided(PointsOf(poly, rest), z);
    SidedWithEar(s);
    EarFills(s);
    more := [EarAt(s)] + ts;
    forall k | 0 <= k < |more| ensures Fills(s, more[k]) {
      if k > 0 {
        assert more[k] == ts[k - 1];
        SameFills(PointsOf(poly, rest), z, ts[k - 1]);
        FillsWithEar(s, ts[k - 1]);
      }
    }
    forall k | 0 <= k < |ts| ensures Fills(z, ts[k]) { SameFills(PointsOf(poly, rest), z, ts[k]); }
    DisjointMore(s, ts);
    SameBorders(PointsOf(poly, rest), z, ts);
    BordersWithEar(s, ts);
  }

  lemma DisjointMore(s: seq<Point>, ts: seq<Triangle>)
    requires |s| >= 4 && Clean(s) && Empty(s) && Sided(s[1..]) && Disjoint(ts)
    requires forall k {:trigger ts[k]} :: 0 <= k < |ts| ==> Fills(s[1..], ts[k])
    ensures Disjoint([EarAt(s)] + ts)
  {
    hide Clean, Empty, Sided, Fills, Within, Has;
    var more := [EarAt(s)] + ts;
    forall i, j, p | 0 <= i < j < |more| && Within(more[i], p) ensures !Within(more[j], p) {
      assert more[j] == ts[j - 1];
      if i == 0 {
        if Within(ts[j - 1], p) {
          FilledOffEar(s, ts[j - 1], p);
          WithinIsHad(more[0], p);
        }
      } else {
        assert more[i] == ts[i - 1];
      }
    }
  }

  lemma WithinIsHad(t: Triangle, p: Point)
    requires Within(t, p)
    ensures Has(t, p)
  {}
  // ---- simple polygons ------------------------------------------------------------------------------------------------

  lemma ReversedEdge(s: seq<Point>, x: Point, y: Point)
    requires |s| >= 2
    ensures IsEdge(Reversed(s), x, y) <==> IsEdge(s, y, x)
  {
    ReversedIs(s);
    BackwardsEdge(s, Reversed(s), y, x);
    hide Reversed;
    BackwardsEdge(Reversed(s), s, x, y);
  }

  lemma ReversedIs(s: seq<Point>)
    ensures |Reversed(s)| == |s| && forall i :: 0 <= i < |s| ==> Reversed(s)[i] == s[|s| - 1 - i]
  {}

  lemma BackwardsEdge(s: seq<Point>, z: seq<Point>, x: Point, y: Point)
    requires |s| >= 2 && |z| == |s| && forall i :: 0 <= i < |s| ==> z[i] == s[|s| - 1 - i]
    ensures IsEdge(s, x, y) ==> IsEdge(z, y, x)
  {
    if i :| EdgeAt(s, i, x, y) {
      var j := if i + 1 < |s| then |s| - 2 - i else |s| - 1;
      assert z[j] == s[|s| - 1 - j];
      assert EdgeAt(z, j, y, x);
    }
  }

  lemma ReversedOnSome(s: seq<Point>, r: Point)
    requires |s| >= 2
    ensures OnSome(Reversed(s), r) == OnSome(s, r)
  {
    hide IsEdge, OnSegment;
    if x, y :| IsEdge(s, x, y) && OnSegment(r, x, y) {
      ReversedEdge(s, y, x);
      OnTurned(r, x, y);
    }
    if x, y :| IsEdge(Reversed(s), x, y) && OnSegment(r, x, y) {
      ReversedEdge(s, x, y);
      OnTurned(r, x, y);
    }
  }

  lemma TurnedCorners(x: Point, y: Point, u: Point, v: Point)
    requires OnlyCorners(x, y, u, v)
    ensures OnlyCorners(y, x, v, u)
  {
    hide OnSegment;
    forall r | OnSegment(r, y, x) && OnSegment(r, v, u) ensures Corner(r, y, x) && Corner(r, v, u) {
      OnTurned(r, y, x);
      OnTurned(r, v, u);
    }
  }

  lemma ReversedClean(s: seq<Point>)
    requires Clean(s)
    ensures Clean(Reversed(s))
  {
    hide IsEdge, OnlyCorners;
    var z := Reversed(s);
    forall i, j | 0 <= i < j < |z| ensures z[i] != z[j] { assert z[i] == s[|s| - 1 - i] && z[j] == s[|s| - 1 - j]; }
    forall x, y, u, v | IsEdge(z, x, y) && IsEdge(z, u, v) && (x, y) != (u, v) ensures OnlyCorners(x, y, u, v) {
      ReversedEdge(s, x, y);
      ReversedEdge(s, u, v);
      TurnedCorners(y, x, v, u);
    }
  }

  /** A simple polygon of four corners or more is clean. */
  lemma SimpleIsClean(poly: seq<Point>)
    requires Simple(poly) && |poly| >= 4
    ensures Clean(poly)
  {
    NeighboursMeetInCorner(poly);
    hide OnSegment, Orient, OnlyCorners;
    forall x, y, u, v | IsEdge(poly, x, y) && IsEdge(poly, u, v) && (x, y) != (u, v) ensures OnlyCorners(x, y, u, v) {
      var i :| EdgeAt(poly, i, x, y);
      var j :| EdgeAt(poly, j, u, v);
      SimpleEdges(poly, i, j);
    }
  }

  lemma SimpleEdges(poly: seq<Point>, i: nat, j: nat)
    requires Simple(poly) && CornersOnly(poly) && |poly| >= 4 && i < |poly| && j < |poly| && i != j
    ensures OnlyCorners(poly[i], poly[Next(i, |poly|)], poly[j], poly[Next(j, |poly|)])
  {
    var n := |poly|;
    var a, b, c, d := poly[i], poly[Next(i, n)], poly[j], poly[Next(j, n)];
    hide OnSegment, Orient;
    if Next(i, n) == j {
      assert OnlyCorner(a, b, d);
    } else if Next(j, n) == i {
      assert OnlyCorner(c, d, b);
    } else {
      assert Apart(i, j, n);
      assert !EdgesMeet(poly, i, j);
    }
  }

  /** The last triangle fills the last ring. */
  lemma LastFills(t: Triangle)
    requires Positive(t)
    ensures Fills(Corners(t), t)
  {
    var s := Corners(t);
    hide Inside, Orient, OnSegment;
    forall p | Within(t, p) ensures Inside(p, s) && !OnSome(s, p) {
      WithinIsOdd(t, p);
      forall x, y | IsEdge(s, x, y) ensures !OnSegment(p, x, y) {
        var i :| EdgeAt(s, i, x, y);
        if OnSegment(p, x, y) { SegmentInBox(p, x, y); }
      }
    }
  }

  /** A point of a triangle that fills the polygon, if it is off the boundary, is inside. */
  lemma FilledIsInside(poly: seq<Point>, t: Triangle, p: Point)
    requires Fills(poly, t) && InHull(p, t.a, t.b, t.c) && !OnSome(poly, p)
    ensures Inside(p, poly)
  {
    var g := Middle(t);
    MiddleWithin(t);
    HasIsHull(t, p);
    OnEnds(p, g);
    hide Inside, OnSome, Orient, On, InHull, Middle;
    forall k: real | 0.0 <= k <= 1.0 ensures !OnSome(poly, On(p, g, k)) {
      if k > 0.0 {
        OnTurnedAt(p, g, k);
        TurnAlong(t.a, t.b, g, p, 1.0 - k);
        TurnAlong(t.b, t.c, g, p, 1.0 - k);
        TurnAlong(t.c, t.a, g, p, 1.0 - k);
      }
    }
    ClearAvoids(poly, p, g);
    ParityIsConstant(p, g, poly);
  }

  /** The ring of the last triangle. */
  lemma RestFills(poly: seq<Point>, rest: Ring)
    requires ValidRing(poly, rest) && |rest| == 3 && Positive(LastTriangle(poly, rest))
    ensures var s, ts := PointsOf(poly, rest), [LastTriangle(poly, rest)];
            Sided(s) && Disjoint(ts) && Borders(s, ts) && forall k {:trigger ts[k]} :: 0 <= k < |ts| ==> Fills(s, ts[k])
  {
    hide Sided, Fills, Borders, Disjoint, Positive;
    var last := LastTriangle(poly, rest);
    assert PointsOf(poly, rest) == Corners(last);
    SidedTriangle(PointsOf(poly, rest));
    LastFills(last);
    OneIsDisjoint(last);
    LastBorders(last);
  }

  lemma StartIsClean(poly: seq<Point>)
    requires Simple(poly) && |poly| > 3
    ensures ValidRing(poly, StartRing(poly)) && |StartRing(poly)| == |poly| && Clean(PointsOf(poly, StartRing(poly)))
  {
    hide Clean, Reversed, Simple;
    SimpleIsClean(poly);
    StartPoints(poly);
    ReversedClean(poly);
  }

  /** The parts of a complete triangulation. */
  lemma PartsOf(poly: seq<Point>, ts: seq<Triangle>, rings: seq<Ring>, rest: Ring)
    requires Triangulates(poly, ts, rings, rest) && Complete(poly, ts) && |poly| > 3
    ensures Clipped(poly, StartRing(poly), rings, rest) && ClippedSizes(poly, rings) && ValidRing(poly, rest) && |rest| == 3
    ensures ts == Ears(poly, rings) + [LastTriangle(poly, rest)] && ts[|ts| - 1] == LastTriangle(poly, rest)
  {
    hide Clipped, NoEar, StartRing;
    CompleteOrNoEar(poly, ts, rings, rest);
    ClippedValid(poly, StartRing(poly), rings, rest);
  }

  /** The triangles of a complete triangulation of a simple polygon, the last of which turns left. */
  lemma TrianglesFill(poly: seq<Point>, ts: seq<Triangle>, rings: seq<Ring>, rest: Ring)
    requires Triangulates(poly, ts, rings, rest) && Complete(poly, ts) && Simple(poly) && |poly| > 3
    requires TriangleArea2(ts[|ts| - 1]) > 0.0
    ensures Disjoint(ts) && Borders(poly, ts) && forall k {:trigger ts[k]} :: 0 <= k < |ts| ==> Fills(poly, ts[k])
  {
    hide Triangulates, Clean, Sided, Fills, Clipped, Simple, Disjoint, PointsOf, StartRing, Borders, Orient, ClippedSizes, ValidRing;
    PartsOf(poly, ts, rings, rest);
    StartIsClean(poly);
    StartPoints(poly);
    var s := PointsOf(poly, StartRing(poly));
    RestFills(poly, rest);
    BackToStart(poly, StartRing(poly), rings, rest, [LastTriangle(poly, rest)]);
    forall k | 0 <= k < |ts| ensures Fills(poly, ts[k]) { FillsPolygon(poly, s, ts[k]); }
    BordersPolygon(poly, s, ts);
  }

  lemma OneIsDisjoint(t: Triangle)
    ensures Disjoint([t])
  {}

  lemma StartPoints(poly: seq<Point>)
    ensures ValidRing(poly, StartRing(poly)) && |StartRing(poly)| == |poly|
    ensures PointsOf(poly, StartRing(poly)) == poly || PointsOf(poly, StartRing(poly)) == Reversed(poly)
  {
    hide Area2;
    StartValid(poly);
    var s := PointsOf(poly, StartRing(poly));
    if Area2(poly) > 0.0 { assert s == poly; } else { assert s == Reversed(poly); }
  }

  lemma FillsPolygon(poly: seq<Point>, s: seq<Point>, t: Triangle)
    requires |poly| >= 2 && (s == poly || s == Reversed(poly)) && Fills(s, t)
    ensures Fills(poly, t)
  {
    hide Inside, OnSome, Within;
    forall p | Within(t, p) ensures Inside(p, poly) && !OnSome(poly, p) {
      InsideReversed(p, poly);
      ReversedOnSome(poly, p);
    }
  }

  lemma BordersPolygon(poly: seq<Point>, s: seq<Point>, ts: seq<Triangle>)
    requires |poly| >= 2 && (s == poly || s == Reversed(poly)) && Borders(s, ts)
    ensures Borders(poly, ts)
  {
    hide OnSome, SomeHas;
    forall r | OnSome(poly, r) ensures SomeHas(ts, r) { ReversedOnSome(poly, r); }
  }

  lemma HullTurned(p: Point, a: Point, b: Point, c: Point)
    ensures InHull(p, a, b, c) == InHull(p, c, b, a)
  {
    if u: real, v: real, w: real :| AverageOf(p, a, b, c, u, v, w) { assert AverageOf(p, c, b, a, w, v, u); }
    if u: real, v: real, w: real :| AverageOf(p, c, b, a, u, v, w) { assert AverageOf(p, a, b, c, w, v, u); }
  }

  /** A polygon of three points not on a line. */
  lemma TriangleIsFound(poly: seq<Point>, p: Point)
    requires |poly| == 3 && Orient(poly[0], poly[1], poly[2]) != 0.0
    ensures InHull(p, poly[0], poly[1], poly[2]) <==> Inside(p, poly) || OnSome(poly, p)
  {
    var a, b, c := poly[0], poly[1], poly[2];
    var t := if Orient(a, b, c) > 0.0 then Triangle(a, b, c) else Triangle(c, b, a);
    OrientRotates(a, b, c);
    OrientSwap(b, c, a);
    HullTurned(p, a, b, c);
    assert poly == [a, b, c] && Reversed(poly) == [c, b, a];
    InsideReversed(p, poly);
    ReversedOnSome(poly, p);
    hide Inside, Orient, InHull, OnSome, Has;
    LastFills(t);
    LastBorders(t);
    HasIsHull(t, p);
    if InHull(p, t.a, t.b, t.c) && !OnSome(Corners(t), p) { FilledIsInside(Corners(t), t, p); }
    if Inside(p, Corners(t)) { OddIsHad(t, p); }
    if OnSome(Corners(t), p) { assert SomeHas([t], p); }
  }

  /** A complete triangulation of a simple polygon, of more than three points, the last triangle of which turns left;
      or of three points that are not on a line. */
  ghost predicate Tiles(poly: seq<Point>, ts: seq<Triangle>) {
    && Simple(poly) && Complete(poly, ts)
    && if |poly| > 3 then TriangleArea2(ts[|ts| - 1]) > 0.0 else TriangleArea2(ts[0]) != 0.0
  }

  /** Inside the polygon or on its boundary. */
  ghost predicate InArea(poly: seq<Point>, p: Point) { Inside(p, poly) || OnSome(poly, p) }

  /** Main result on triangulation: for a simple polygon, a complete triangulation whose last triangle turns left (for
      three points: that are not on a line) is a tiling.  No two triangles share a strict interior point, and a point
      is in some closed triangle if and only if it is inside the polygon by the even-odd rule or on its boundary. */
  lemma FoundIffInside(poly: seq<Point>, ts: seq<Triangle>, rings: seq<Ring>, rest: Ring, p: Point)
    requires Triangulates(poly, ts, rings, rest) && Tiles(poly, ts)
    ensures Disjoint(ts) && forall k {:trigger ts[k]} :: 0 <= k < |ts| ==> TriangleArea2(ts[k]) != 0.0
    ensures (exists k :: 0 <= k < |ts| && InHull(p, ts[k].a, ts[k].b, ts[k].c)) <==> InArea(poly, p)
  {
    if |poly| == 3 {
      OneIsDisjoint(ts[0]);
      assert ts == [ts[0]];
      hide Inside, OnSome, InHull, Orient;
      TriangleIsFound(poly, p);
    } else {
      TrianglesFill(poly, ts, rings, rest);
      hide Inside, OnSome, InHull, Orient, Triangulates, Surrounded, Has;
      if Inside(p, poly) {
        InsideIsCovered(poly, ts, rings, rest, p);
        var k :| 0 <= k < |ts| && Surrounded(p, ts[k].a, ts[k].b, ts[k].c);
        SurroundedIsHeld(ts[k], p);
      }
      if OnSome(poly, p) {
        var k :| 0 <= k < |ts| && Has(ts[k], p);
        HasIsHull(ts[k], p);
      }
      if k :| 0 <= k < |ts| && InHull(p, ts[k].a, ts[k].b, ts[k].c) {
        if !OnSome(poly, p) { FilledIsInside(poly, ts[k], p); }
      }
    }
  }

  lemma SurroundedIsHeld(t: Triangle, p: Point)
    requires Positive(t) && Surrounded(p, t.a, t.b, t.c)
    ensures InHull(p, t.a, t.b, t.c)
  {
    HasIsHull(t, p);
  }
}
