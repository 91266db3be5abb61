/** Which polygons can be areas (internal/geo/polygon.go): the segment test and what it means, and the
    scan over all pairs of edges. */
module Polygons {
  import opened Plane
  import opened EvenOdd
  import opened Segments

  /** pointOnSegment: within the box of the two ends. */
  predicate PointOnSegment(p: Point, a: Point, b: Point) {
    Min(a.x, b.x) <= p.x <= Max(a.x, b.x) && Min(a.y, b.y) <= p.y <= Max(a.y, b.y)
  }

  predicate Opposite(d: real, e: real) { (d > 0.0 && e < 0.0) || (d < 0.0 && e > 0.0) }

  predicate SegmentsIntersect(a: Point, b: Point, c: Point, d: Point) {
    var d1, d2, d3, d4 := Orient(c, d, a), Orient(c, d, b), Orient(a, b, c), Orient(a, b, d);
    || (Opposite(d1, d2) && Opposite(d3, d4))
    || (d1 == 0.0 && PointOnSegment(a, c, d)) || (d2 == 0.0 && PointOnSegment(b, c, d))
    || (d3 == 0.0 && PointOnSegment(c, a, b)) || (d4 == 0.0 && PointOnSegment(d, a, b))
  }

  ghost predicate OnSegment(p: Point, a: Point, b: Point) { exists s :: 0.0 <= s <= 1.0 && p == On(a, b, s) }

  /** The two closed segments have a point in common. */
  ghost predicate ShareAPoint(a: Point, b: Point, c: Point, d: Point) {
    exists p :: OnSegment(p, a, b) && OnSegment(p, c, d)
  }

  // ---- points along a line ------------------------------------------------------------------------

  /** The turn is an average along a segment. */
  lemma OrientAlong(c: Point, d: Point, a: Point, b: Point, s: real)
    ensures Orient(c, d, On(a, b, s)) == Mul(1.0 - s, Orient(c, d, a)) + Mul(s, Orient(c, d, b))
  {}

  lemma OrientEnds(a: Point, b: Point)
    ensures Orient(a, b, a) == 0.0 && Orient(a, b, b) == 0.0
  {}

  lemma Average(u: real, v: real, s: real)
    requires 0.0 <= s <= 1.0
    ensures Min(u, v) <= u + Mul(v - u, s) <= Max(u, v)
  {
    hide Mul;
    MulSign(v - u, s);
    MulSign(v - u, 1.0 - s);
    MulWhole(v - u, s);
  }

  lemma MulWhole(k: real, s: real)
    ensures Mul(k, 1.0 - s) == k - Mul(k, s)
  {}

  lemma OnIs(a: Point, b: Point, s: real)
    ensures On(a, b, s) == Point(a.x + Mul(b.x - a.x, s), a.y + Mul(b.y - a.y, s))
  {}

  lemma OnEnds(a: Point, b: Point)
    ensures On(a, b, 0.0) == a && On(a, b, 1.0) == b
  {}

  lemma SegmentInBox(p: Point, a: Point, b: Point)
    requires OnSegment(p, a, b)
    ensures PointOnSegment(p, a, b) && Orient(a, b, p) == 0.0
  {
    var s :| 0.0 <= s <= 1.0 && p == On(a, b, s);
    OnIs(a, b, s);
    Average(a.x, b.x, s);
    Average(a.y, b.y, s);
    OrientAlong(a, b, a, b, s);
    OrientEnds(a, b);
  }

  /** The parameter of a point of the line. */
  lemma Parameter(p: Point, a: Point, b: Point) returns (t: real)
    requires a != b && Orient(a, b, p) == 0.0
    ensures p == On(a, b, t)
  {
    var u, v, x, y := b.x - a.x, b.y - a.y, p.x - a.x, p.y - a.y;
    assert Mul(u, y) == Mul(v, x);
    t := if u != 0.0 then x / u else y / v;
    if u != 0.0 {
      Proportion(u, v, x, y, t);
    } else {
      Proportion(v, u, y, x, t);
    }
    OnIs(a, b, t);
  }

  lemma Proportion(u: real, v: real, x: real, y: real, t: real)
    requires u != 0.0 && t == x / u && Mul(u, y) == Mul(v, x)
    ensures x == Mul(u, t) && y == Mul(v, t)
  {
    assert x == u * t;
    assert u * y == v * (u * t);
    assert u * (y - v * t) == 0.0;
    NoZeroDivisor(u, y - v * t);
  }

  lemma NoZeroDivisor(u: real, w: real)
    requires u != 0.0 && u * w == 0.0
    ensures w == 0.0
  {}

  /** A point of the line within the box of the ends is between them. */
  lemma BoxInSegment(p: Point, a: Point, b: Point)
    requires Orient(a, b, p) == 0.0 && PointOnSegment(p, a, b)
    ensures OnSegment(p, a, b)
  {
    if a == b {
      OnEnds(a, b);
      assert p == On(a, b, 0.0);
    } else {
      var t := Parameter(p, a, b);
      OnIs(a, b, t);
      if a.x != b.x { Fraction(a.x, b.x, t); } else { Fraction(a.y, b.y, t); }
      assert 0.0 <= t <= 1.0 && p == On(a, b, t);
    }
  }

  lemma Fraction(u: real, v: real, t: real)
    requires u != v && Min(u, v) <= u + Mul(v - u, t) <= Max(u, v)
    ensures 0.0 <= t <= 1.0
  {
    hide Mul;
    var k := v - u;
    MulSign(k, -t);
    MulNeg(k, t);
    MulSign(k, t - 1.0);
    MulNeg(k, 1.0 - t);
    assert -(1.0 - t) == t - 1.0;
    MulWhole(k, t);
  }

  // ---- the crossing of two lines ------------------------------------------------------------------------

  /** Cramer's rule: the same point seen along either segment. */
  lemma Crossing(a: Point, b: Point, c: Point, d: Point)
    ensures var w := Orient(c, d, a) - Orient(c, d, b);
            && w == Orient(a, b, d) - Orient(a, b, c)
            && Mul(w, a.x) + Mul(Orient(c, d, a), b.x - a.x) == Mul(w, c.x) - Mul(Orient(a, b, c), d.x - c.x)
            && Mul(w, a.y) + Mul(Orient(c, d, a), b.y - a.y) == Mul(w, c.y) - Mul(Orient(a, b, c), d.y - c.y)
  {}

  lemma AtFraction(w: real, e: real, u: real, k: real, s: real)
    requires w != 0.0 && s == e / w
    ensures Mul(w, u + Mul(k, s)) == Mul(w, u) + Mul(e, k)
  {
    assert w * s == e;
    assert w * (k * s) == (w * s) * k;
  }

  lemma Cancel(w: real, x: real, y: real)
    requires w != 0.0 && Mul(w, x) == Mul(w, y)
    ensures x == y
  {
    assert w * (x - y) == 0.0;
    NoZeroDivisor(w, x - y);
  }

  lemma InUnit(d: real, e: real)
    requires Opposite(d, e)
    ensures d - e != 0.0 && 0.0 <= d / (d - e) <= 1.0
  {
    var w := d - e;
    var q := d / w;
    assert Mul(q, w) == d && Mul(1.0 - q, w) == w - d;
    hide Mul;
    MulSign(q, w);
    MulSign(1.0 - q, w);
  }

  lemma NegatedQuotient(n: real, w: real)
    requires w != 0.0
    ensures n / (-w) == (-n) / w
  {
    var q := n / (-w);
    assert q * (-w) == n;
    assert Mul(q, w) == -n;
    Cancel(w, q, (-n) / w);
  }

  lemma ProperCrossing(a: Point, b: Point, c: Point, d: Point)
    requires Opposite(Orient(c, d, a), Orient(c, d, b)) && Opposite(Orient(a, b, c), Orient(a, b, d))
    ensures ShareAPoint(a, b, c, d)
  {
    var d1, d2, d3, d4 := Orient(c, d, a), Orient(c, d, b), Orient(a, b, c), Orient(a, b, d);
    var w := d1 - d2;
    Crossing(a, b, c, d);
    InUnit(d1, d2);
    InUnit(d3, d4);
    var s, t := d1 / w, d3 / (d3 - d4);
    NegatedQuotient(d3, w);
    assert d3 - d4 == -w;
    hide Orient, Opposite;
    OnIs(a, b, s);
    OnIs(c, d, t);
    AtFraction(w, d1, a.x, b.x - a.x, s);
    AtFraction(w, -d3, c.x, d.x - c.x, t);
    AtFraction(w, d1, a.y, b.y - a.y, s);
    AtFraction(w, -d3, c.y, d.y - c.y, t);
    hide On;
    var p := On(a, b, s);
    MulNeg(d3, d.x - c.x);
    MulNeg(d3, d.y - c.y);
    Cancel(w, p.x, On(c, d, t).x);
    Cancel(w, p.y, On(c, d, t).y);
    assert OnSegment(p, a, b) && OnSegment(p, c, d);
  }

  // ---- what the test decides ------------------------------------------------------------------------------

  lemma EndIsOn(a: Point, b: Point)
    ensures OnSegment(a, a, b) && OnSegment(b, a, b)
  {
    OnEnds(a, b);
    assert a == On(a, b, 0.0) && b == On(a, b, 1.0);
  }

  lemma TestIsSound(a: Point, b: Point, c: Point, d: Point)
    requires SegmentsIntersect(a, b, c, d)
    ensures ShareAPoint(a, b, c, d)
  {
    hide Orient, PointOnSegment, OnSegment;
    EndIsOn(a, b);
    EndIsOn(c, d);
    if Orient(c, d, a) == 0.0 && PointOnSegment(a, c, d) {
      BoxInSegment(a, c, d);
    } else if Orient(c, d, b) == 0.0 && PointOnSegment(b, c, d) {
      BoxInSegment(b, c, d);
    } else if Orient(a, b, c) == 0.0 && PointOnSegment(c, a, b) {
      BoxInSegment(c, a, b);
    } else if Orient(a, b, d) == 0.0 && PointOnSegment(d, a, b) {
      BoxInSegment(d, a, b);
    } else {
      ProperCrossing(a, b, c, d);
    }
  }

  /** An average that is zero: one end is, or the two have opposite signs. */
  lemma ZeroAverage(d: real, e: real, s: real)
    requires 0.0 <= s <= 1.0 && Mul(1.0 - s, d) + Mul(s, e) == 0.0
    ensures Opposite(d, e) || (d == 0.0 && e == 0.0) || (d == 0.0 && s == 0.0) || (e == 0.0 && s == 1.0)
  {
    hide Mul;
    MulSign(1.0 - s, d);
    MulSign(s, e);
    MulSign(1.0 - s, -d);
    MulNeg(1.0 - s, d);
    MulSign(s, -e);
    MulNeg(s, e);
  }

  /** Four points on one line, seen from c and d: the common point is between the others' ends. */
  lemma CollinearOverlap(a: Point, b: Point, c: Point, d: Point, s: real, t: real)
    requires c != d && Orient(c, d, a) == 0.0 && Orient(c, d, b) == 0.0
    requires Orient(a, b, c) == 0.0 && Orient(a, b, d) == 0.0
    requires 0.0 <= s <= 1.0 && 0.0 <= t <= 1.0 && On(a, b, s) == On(c, d, t)
    ensures SegmentsIntersect(a, b, c, d)
  {
    var u := Parameter(a, c, d);
    var v := Parameter(b, c, d);
    hide Orient;
    Mixed(a, b, c, d, u, v, s, t);
    Average(u, v, s);
    hide On;
    if 0.0 <= u <= 1.0 {
      assert OnSegment(a, c, d);
      SegmentInBox(a, c, d);
    } else if 0.0 <= v <= 1.0 {
      assert OnSegment(b, c, d);
      SegmentInBox(b, c, d);
    } else {
      Straddled(a, b, c, d, u, v);
    }
  }

  /** Averages of points of a line have the averaged parameter. */
  lemma Mixed(a: Point, b: Point, c: Point, d: Point, u: real, v: real, s: real, t: real)
    requires c != d && a == On(c, d, u) && b == On(c, d, v) && On(a, b, s) == On(c, d, t)
    ensures t == u + Mul(v - u, s)
  {
    var r := u + Mul(v - u, s);
    if d.x != c.x {
      MixedCoordinate(c.x, d.x - c.x, u, v, s);
      Cancel(d.x - c.x, r, t);
    } else {
      MixedCoordinate(c.y, d.y - c.y, u, v, s);
      Cancel(d.y - c.y, r, t);
    }
  }

  lemma MixedCoordinate(x: real, k: real, u: real, v: real, s: real)
    ensures (x + k * u) + ((x + k * v) - (x + k * u)) * s == x + Mul(k, u + Mul(v - u, s))
  {}

  lemma Straddled(a: Point, b: Point, c: Point, d: Point, u: real, v: real)
    requires a == On(c, d, u) && b == On(c, d, v)
    requires (u < 0.0 && v > 1.0) || (v < 0.0 && u > 1.0)
    ensures PointOnSegment(c, a, b)
  {
    OnIs(c, d, u);
    OnIs(c, d, v);
    hide On, Mul;
    MulSign(d.x - c.x, u);
    MulSign(d.y - c.y, u);
    MulSign(d.x - c.x, v);
    MulSign(d.y - c.y, v);
  }

  lemma TestIsComplete(a: Point, b: Point, c: Point, d: Point)
    requires ShareAPoint(a, b, c, d)
    ensures SegmentsIntersect(a, b, c, d)
  {
    var p :| OnSegment(p, a, b) && OnSegment(p, c, d);
    var s :| 0.0 <= s <= 1.0 && p == On(a, b, s);
    var t :| 0.0 <= t <= 1.0 && p == On(c, d, t);
    SegmentInBox(p, a, b);
    SegmentInBox(p, c, d);
    OrientAlong(c, d, a, b, s);
    OrientAlong(a, b, c, d, t);
    Crossing(a, b, c, d);
    OnEnds(a, b);
    OnEnds(c, d);
    ZeroAverage(Orient(c, d, a), Orient(c, d, b), s);
    ZeroAverage(Orient(a, b, c), Orient(a, b, d), t);
    hide Orient, PointOnSegment, On, Mul;
    if Orient(c, d, a) == 0.0 && Orient(c, d, b) == 0.0 && c != d {
      CollinearOverlap(a, b, c, d, s, t);
    }
  }

  /** The segment test is exact: it is true exactly when the closed segments share a point. */
  lemma SegmentTestIsExact(a: Point, b: Point, c: Point, d: Point)
    ensures SegmentsIntersect(a, b, c, d) <==> ShareAPoint(a, b, c, d)
  {
    if SegmentsIntersect(a, b, c, d) { TestIsSound(a, b, c, d); }
    if ShareAPoint(a, b, c, d) { TestIsComplete(a, b, c, d); }
  }

  // ---- simple polygons ----------------------------------------------------------------------------------------

  /** Edges i and j have no corner in common. */
  predicate Apart(i: nat, j: nat, n: nat)
    requires i < n && j < n
  {
    i != j && (i + 1) % n != j && (j + 1) % n != i
  }

  ghost predicate EdgesMeet(poly: seq<Point>, i: nat, j: nat)
    requires i < |poly| && j < |poly|
  {
    var n := |poly|;
    ShareAPoint(poly[i], poly[(i + 1) % n], poly[j], poly[(j + 1) % n])
  }

  /** Distinct corners, and no two edges without a common corner share a point. */
  ghost predicate Simple(poly: seq<Point>) {
    && |poly| >= 3
    && (forall i, j :: 0 <= i < j < |poly| ==> poly[i] != poly[j])
    && (forall i, j {:trigger EdgesMeet(poly, i, j)} :: 0 <= i < |poly| && 0 <= j < |poly| && Apart(i, j, |poly|) ==> !EdgesMeet(poly, i, j))
  }

  lemma MeetsBothWays(a: Point, b: Point, c: Point, d: Point)
    ensures ShareAPoint(c, d, a, b) == ShareAPoint(a, b, c, d)
  {
    hide OnSegment;
  }

  lemma DistinctCorners(poly: seq<Point>, i: nat)
    requires i < |poly|
    requires forall j :: i < j < |poly| ==> poly[i] != poly[j]
    requires forall k, j :: 0 <= k < i && k < j < |poly| ==> poly[k] != poly[j]
    ensures forall k, j :: 0 <= k < i + 1 && k < j < |poly| ==> poly[k] != poly[j]
  {}

  method IsSimplePolygon(poly: seq<Point>) returns (ok: bool)
    ensures ok <==> Simple(poly)
  {
    hide SegmentsIntersect, ShareAPoint;
    var n := |poly|;
    if n < 3 { return false; }
    for i := 0 to n
      invariant forall k, j :: 0 <= k < i && k < j < n ==> poly[k] != poly[j]
    {
      for j := i + 1 to n
        invariant forall m :: i < m < j ==> poly[i] != poly[m]
      {
        if poly[i] == poly[j] { return false; }
      }
      DistinctCorners(poly, i);
    }
    for i := 0 to n
      invariant forall k, j {:trigger EdgesMeet(poly, k, j)} :: 0 <= k < i && k + 2 <= j < n && Apart(k, j, n) ==> !EdgesMeet(poly, k, j)
    {
      var iNext := (i + 1) % n;
      var from := if i + 2 <= n then i + 2 else n;
      for j := from to n
        invariant forall m {:trigger EdgesMeet(poly, i, m)} :: i + 2 <= m < j && Apart(i, m, n) ==> !EdgesMeet(poly, i, m)
      {
        var jNext := (j + 1) % n;
        if i == jNext || iNext == j { continue; }
        SegmentTestIsExact(poly[i], poly[iNext], poly[j], poly[jNext]);
        if SegmentsIntersect(poly[i], poly[iNext], poly[j], poly[jNext]) {
          assert EdgesMeet(poly, i, j);
          return false;
        }
      }
    }
    forall i, j | 0 <= i < n && 0 <= j < n && Apart(i, j, n) ensures !EdgesMeet(poly, i, j) {
      EitherOrder(poly, i, j);
    }
    return true;
  }

  lemma EitherOrder(poly: seq<Point>, i: nat, j: nat)
    requires i < |poly| && j < |poly| && Apart(i, j, |poly|)
    requires forall k, m {:trigger EdgesMeet(poly, k, m)} :: 0 <= k < |poly| && k + 2 <= m < |poly| && Apart(k, m, |poly|) ==> !EdgesMeet(poly, k, m)
    ensures !EdgesMeet(poly, i, j)
  {
    hide ShareAPoint;
    var n := |poly|;
    NotNext(i, j, n);
    NotNext(j, i, n);
    MeetsBothWays(poly[i], poly[(i + 1) % n], poly[j], poly[(j + 1) % n]);
    assert EdgesMeet(poly, j, i) == EdgesMeet(poly, i, j);
  }

  lemma NotNext(i: nat, j: nat, n: nat)
    requires i < n && j < n && Apart(i, j, n)
    ensures Apart(j, i, n) && (i < j ==> i + 2 <= j)
  {
    if i + 1 < n { assert (i + 1) % n == i + 1; }
  }

  // ---- consecutive edges ------------------------------------------------------------------------------------

  function Next(i: nat, n: nat): (j: nat)
    requires i < n
    ensures j < n && j == if i + 1 < n then i + 1 else 0
  {
    if i + 1 < n then assert (i + 1) % n == i + 1; (i + 1) % n else assert (i + 1) % n == 0; (i + 1) % n
  }

  /** Two edges from a to b and on to c meet in b alone. */
  ghost predicate OnlyCorner(a: Point, b: Point, c: Point) {
    forall p :: OnSegment(p, a, b) && OnSegment(p, b, c) ==> p == b
  }

  /** A multiple of at least one goes as far or farther. */
  lemma Stretch(x: real, k: real, u: real)
    requires u >= 1.0
    ensures Min(x, x + Mul(k, u)) <= x + k <= Max(x, x + Mul(k, u))
  {
    hide Mul;
    MulSign(k, 1.0 - u);
    MulWhole(k, u);
  }

  lemma OrientCycle(a: Point, b: Point, c: Point)
    ensures Orient(b, c, a) == Orient(a, b, c) && Orient(b, a, c) == -Orient(a, b, c)
  {
    hide Orient;
    OrientRotates(a, b, c);
    OrientSwap(a, b, c);
  }

  /** Where the line goes on beyond its second point, that point is between. */
  lemma Beyond(a: Point, b: Point, c: Point, u: real)
    requires c == On(a, b, u) && u >= 1.0
    ensures OnSegment(b, a, c)
  {
    OnIs(a, b, u);
    OrientAlong(a, b, a, b, u);
    OrientEnds(a, b);
    OrientCycle(a, b, c);
    OrientCycle(c, a, b);
    hide Orient, On, OnSegment, Mul;
    Stretch(a.x, b.x - a.x, u);
    Stretch(a.y, b.y - a.y, u);
    ZeroTimes(1.0 - u);
    ZeroTimes(u);
    OrientSwap(a, c, b);
    BoxInSegment(b, a, c);
  }

  lemma ZeroTimes(k: real)
    ensures Mul(k, 0.0) == 0.0
  {}

  lemma Backwards(p: Point, a: Point, b: Point)
    requires OnSegment(p, a, b)
    ensures OnSegment(p, b, a)
  {
    SegmentInBox(p, a, b);
    OrientSwap(a, b, p);
    hide Orient, OnSegment;
    BoxInSegment(p, b, a);
  }

  /** Edges that meet elsewhere lie on one line and fold back: one ends on the other. */
  lemma FoldedBack(a: Point, b: Point, c: Point, p: Point)
    requires a != b && b != c && OnSegment(p, a, b) && OnSegment(p, b, c) && p != b
    ensures Orient(a, b, c) == 0.0 && (OnSegment(c, a, b) || OnSegment(a, b, c))
  {
    Backwards(p, a, b);
    SegmentInBox(p, b, a);
    var s :| 0.0 <= s <= 1.0 && p == On(b, a, s);
    var t :| 0.0 <= t <= 1.0 && p == On(b, c, t);
    OnEnds(b, a);
    OnEnds(b, c);
    OrientAlong(b, a, b, c, t);
    OrientEnds(b, a);
    ZeroTimes(1.0 - t);
    Cancel(t, Orient(b, a, c), 0.0) by { ZeroTimes(t); }
    OrientCycle(a, b, c);
    var u := Parameter(c, b, a);
    Ratio(b, a, c, s, t, u);
    if u <= 1.0 {
      assert OnSegment(c, b, a);
      Backwards(c, b, a);
    } else {
      Beyond(b, a, c, u);
    }
  }

  /** The shared point fixes the direction. */
  lemma Ratio(b: Point, a: Point, c: Point, s: real, t: real, u: real)
    requires a != b && c == On(b, a, u) && On(b, a, s) == On(b, c, t) && s > 0.0 && t > 0.0
    ensures u > 0.0
  {
    var k := if a.x != b.x then a.x - b.x else a.y - b.y;
    OnIs(b, a, u);
    OnIs(b, a, s);
    OnIs(b, c, t);
    assert Mul(k, s) == Mul(Mul(k, u), t);
    assert Mul(Mul(k, u), t) == Mul(k, Mul(u, t)) by { assert (k * u) * t == k * (u * t); }
    Cancel(k, s, Mul(u, t));
    hide Mul;
    if u <= 0.0 { MulSign(u, t); }
  }

  /** Consecutive edges of the polygon meet in their common corner alone. */
  ghost predicate CornersOnly(poly: seq<Point>)
    requires |poly| >= 3
  {
    forall i {:trigger Next(i, |poly|)} :: 0 <= i < |poly| ==>
      OnlyCorner(poly[i], poly[Next(i, |poly|)], poly[Next(Next(i, |poly|), |poly|)])
  }

  /** Neither end of an edge lies on an edge it does not meet. */
  lemma EndsOff(poly: seq<Point>, i: nat, j: nat)
    requires i < |poly| && j < |poly| && !EdgesMeet(poly, i, j)
    ensures var n := |poly|;
            && !OnSegment(poly[j], poly[i], poly[Next(i, n)]) && !OnSegment(poly[Next(j, n)], poly[i], poly[Next(i, n)])
  {
    EndIsOn(poly[j], poly[Next(j, |poly|)]);
    hide OnSegment;
  }

  /** With four corners or more, the edges before and after two consecutive ones do not touch them. */
  lemma NeighboursApart(i: nat, n: nat) returns (before: nat)
    requires n >= 4 && i < n
    ensures before < n && Next(before, n) == i
    ensures Apart(i, Next(Next(i, n), n), n) && Apart(Next(i, n), before, n)
  {
    before := if i == 0 then n - 1 else i - 1;
  }

  lemma NotFoldedBack(poly: seq<Point>, i: nat)
    requires Simple(poly) && |poly| >= 4 && i < |poly|
    ensures var n := |poly|; OnlyCorner(poly[i], poly[Next(i, n)], poly[Next(Next(i, n), n)])
  {
    var n := |poly|;
    var before := NeighboursApart(i, n);
    var j := Next(i, n);
    var k := Next(j, n);
    var a, b, c := poly[i], poly[j], poly[k];
    assert a != b && b != c;
    assert !EdgesMeet(poly, i, k) && !EdgesMeet(poly, j, before);
    hide OnSegment, Simple, EdgesMeet, Next, Apart;
    EndsOff(poly, i, k);
    EndsOff(poly, j, before);
    forall p | OnSegment(p, a, b) && OnSegment(p, b, c) ensures p == b {
      if p != b { FoldedBack(a, b, c, p); }
    }
  }

  /** Of three distinct points on a line, two edges of their triangle overlap. */
  lemma FlatOverlaps(a: Point, b: Point, c: Point)
    requires a != b && b != c && a != c && Orient(a, b, c) == 0.0
    ensures !OnlyCorner(a, b, c) || !OnlyCorner(b, c, a)
  {
    var t := Parameter(c, a, b);
    EndIsOn(a, b);
    EndIsOn(b, c);
    EndIsOn(c, a);
    OnEnds(a, b);
    if t > 1.0 {
      Beyond(a, b, c, t);
      Backwards(b, a, c);
      assert OnSegment(b, b, c) && OnSegment(b, c, a);
    } else if t >= 0.0 {
      assert OnSegment(c, a, b);
    } else {
      OnIs(a, b, t);
      OnIs(b, a, 1.0 - t);
      assert c == On(b, a, 1.0 - t);
      Beyond(b, a, c, 1.0 - t);
      assert OnSegment(a, a, b) && OnSegment(a, b, c);
    }
  }

  lemma ProperTriangle(a: Point, b: Point, c: Point)
    requires a != b && b != c && Orient(a, b, c) != 0.0
    ensures OnlyCorner(a, b, c)
  {
    hide OnSegment, Orient;
    forall p | OnSegment(p, a, b) && OnSegment(p, b, c) ensures p == b {
      if p != b { FoldedBack(a, b, c, p); }
    }
  }

  /** What acceptance means for neighbouring edges: they meet in their common corner alone, exactly unless the
      polygon is three points on a line. */
  lemma NeighboursMeetInCorner(poly: seq<Point>)
    requires Simple(poly)
    ensures CornersOnly(poly) <==> |poly| >= 4 || Orient(poly[0], poly[1], poly[2]) != 0.0
  {
    var n := |poly|;
    if n >= 4 {
      forall i | 0 <= i < n ensures OnlyCorner(poly[i], poly[Next(i, n)], poly[Next(Next(i, n), n)]) {
        NotFoldedBack(poly, i);
      }
    } else {
      var a, b, c := poly[0], poly[1], poly[2];
      assert Next(0, n) == 1 && Next(1, n) == 2 && Next(2, n) == 0;
      OrientCycle(a, b, c);
      OrientCycle(b, c, a);
      hide Orient, OnlyCorner, EdgesMeet;
      if Orient(a, b, c) != 0.0 {
        ProperTriangle(a, b, c);
        ProperTriangle(b, c, a);
        ProperTriangle(c, a, b);
      } else {
        FlatOverlaps(a, b, c);
      }
    }
  }
}
