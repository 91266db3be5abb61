/** Every clean ring has its inside on one side of all its edges.  Seen from close to two edges with a common corner,
    the ring's parity changes as that of a triangle with the same two edges does. */
module Orientations {
  import opened Plane
  import opened EvenOdd
  import opened Segments
  import opened Polygons
  import opened Boundaries
  import opened Interiors

  // ---- chains with the same ends --------------------------------------------------------------------------------

  /** No edge of the open chain meets the segment. */
  ghost predicate ChainAvoids(c: seq<Point>, p: Point, q: Point) {
    forall i {:trigger c[i]} :: 0 <= i < |c| - 1 ==> !ShareAPoint(c[i], c[i + 1], p, q)
  }

  predicate SweptEitherWay(p: Point, q: Point, v: Point) { if p.y <= q.y then Swept(p, q, v) else Swept(q, p, v) }

  lemma ChainMoves(p: Point, q: Point, c: seq<Point>)
    requires c != [] && ChainAvoids(c, p, q)
    ensures (Chain(p, c) != Chain(q, c)) == (SweptEitherWay(p, q, c[0]) != SweptEitherWay(p, q, c[|c| - 1]))
  {
    hide ShareAPoint, Crosses, Swept, Chain;
    if p.y <= q.y {
      ChainSwept(p, q, c);
    } else {
      forall i | 0 <= i < |c| - 1 ensures !ShareAPoint(c[i], c[i + 1], q, p) { ShareTurned(c[i], c[i + 1], q, p); }
      ChainSwept(q, p, c);
    }
  }

  /** Two chains with the same ends change their parity together along a segment that avoids both. */
  lemma SameChange(p: Point, q: Point, c: seq<Point>, d: seq<Point>)
    requires c != [] && d != [] && c[0] == d[0] && c[|c| - 1] == d[|d| - 1]
    requires ChainAvoids(c, p, q) && ChainAvoids(d, p, q)
    ensures (Chain(p, c) != Chain(q, c)) == (Chain(p, d) != Chain(q, d))
  {
    hide ShareAPoint, Crosses, Swept, Chain, ChainAvoids;
    ChainMoves(p, q, c);
    ChainMoves(p, q, d);
  }

  // ---- a ring that begins with an edge or with two ----------------------------------------------------------------

  function Turned(s: seq<Point>, m: nat): seq<Point>
    requires m <= |s|
  {
    s[m..] + s[..m]
  }

  lemma {:induction false} TurnedSame(s: seq<Point>, m: nat)
    requires |s| >= 2 && m <= |s|
    ensures SameRing(s, Turned(s, m))
    decreases m
  {
    hide Inside, IsEdge;
    if m == 0 {
      assert Turned(s, 0) == s;
    } else {
      TurnedSame(s, m - 1);
      var before, after := Turned(s, m - 1), Turned(s, m);
      assert after == Rotate(before);
      forall x, y ensures IsEdge(after, x, y) <==> IsEdge(before, x, y) { RotatedEdge(before, x, y); }
      forall p ensures Inside(p, after) == Inside(p, before) { InsideRotated(p, before); }
    }
  }

  /** The ring turned so that it begins at the end of an edge; the edge then closes it. */
  lemma ClosingWith(s: seq<Point>, x: Point, y: Point) returns (z: seq<Point>)
    requires Clean(s) && IsEdge(s, x, y)
    ensures SameRing(s, z) && SameRing(z, s) && Clean(z) && |z| == |s| && z[0] == y && z[|z| - 1] == x
  {
    hide Inside, OnlyCorners;
    var i :| EdgeAt(s, i, x, y);
    var m := Next(i, |s|);
    z := Turned(s, m);
    TurnedSame(s, m);
    SameClean(s, z);
    hide IsEdge;
  }

  /** Parity with the closing edge apart. */
  lemma ClosedChain(p: Point, z: seq<Point>)
    requires z != []
    ensures Inside(p, z) == (Chain(p, z) != Crosses(p, z[|z| - 1], z[0]))
  {}

  // ---- close to one edge -------------------------------------------------------------------------------------------

  /** Off an edge's line and short of the edge. */
  ghost predicate Beside(s: seq<Point>, x: Point, y: Point, p: Point, r: Point) {
    IsEdge(s, x, y) && OnSegment(r, x, y) && !Corner(r, x, y) && Orient(x, y, p) != 0.0 && Reaches(s, p, r)
  }
  /** Some edge of the open chain holds the point. */
  ghost predicate OnChain(c: seq<Point>, r: Point) { exists i :: 0 <= i < |c| - 1 && OnSegment(r, c[i], c[i + 1]) }

  lemma AvoidsIf(c: seq<Point>, p: Point, q: Point)
    requires forall t: real {:trigger On(p, q, t)} :: 0.0 <= t <= 1.0 ==> !OnChain(c, On(p, q, t))
    ensures ChainAvoids(c, p, q)
  {
    hide On;
    forall i | 0 <= i < |c| - 1 ensures !ShareAPoint(c[i], c[i + 1], p, q) {
      forall r | OnSegment(r, p, q) ensures !OnSegment(r, c[i], c[i + 1]) {
        var t :| 0.0 <= t <= 1.0 && r == On(p, q, t);
        assert !OnChain(c, On(p, q, t));
      }
    }
  }

  /** Off the ring is off every chain of its edges. */
  lemma OffRing(z: seq<Point>, n: nat, r: Point)
    requires n <= |z| && !OnSome(z, r)
    ensures !OnChain(z[..n], r)
  {
    hide OnSegment;
    forall i | 0 <= i < n - 1 ensures !OnSegment(r, z[..n][i], z[..n][i + 1]) {
      assert EdgeAt(z, i, z[i], z[i + 1]);
    }
  }

  /** A point of the closing edge that is not a corner is on no other edge. */
  lemma OnClosing(z: seq<Point>, r: Point)
    requires Clean(z) && OnSegment(r, z[|z| - 1], z[0]) && !Corner(r, z[|z| - 1], z[0])
    ensures !OnChain(z[..|z|], r)
  {
    hide OnSegment;
    var n := |z|;
    assert z[..n] == z && EdgeAt(z, n - 1, z[n - 1], z[0]);
    forall i | 0 <= i < n - 1 ensures !OnSegment(r, z[i], z[i + 1]) {
      assert EdgeAt(z, i, z[i], z[i + 1]);
      assert IsEdge(z, z[n - 1], z[0]) && IsEdge(z, z[i], z[i + 1]);
      assert z[i] != z[n - 1] && (z[n - 1], z[0]) != (z[i], z[i + 1]);
      assert OnlyCorners(z[n - 1], z[0], z[i], z[i + 1]);
    }
  }

  /** Between two points of an edge that are not corners there is no corner. */
  lemma StrictlyOn(x: Point, y: Point, p: Point, q: Point, t: real)
    requires x != y && OnSegment(p, x, y) && !Corner(p, x, y) && OnSegment(q, x, y) && !Corner(q, x, y) && 0.0 <= t <= 1.0
    ensures OnSegment(On(p, q, t), x, y) && !Corner(On(p, q, t), x, y)
  {
    SubSegment(x, y, p, q, t);
    var u :| 0.0 <= u <= 1.0 && p == On(x, y, u);
    var v :| 0.0 <= v <= 1.0 && q == On(x, y, v);
    OnEnds(x, y);
    var w := u + Mul(v - u, t);
    MixedOn(x, y, u, v, t);
    hide OnSegment, On;
    StrictMix(u, v, t);
    OnAtOnce(x, y, w);
  }

  lemma MixedOn(x: Point, y: Point, u: real, v: real, t: real)
    ensures On(On(x, y, u), On(x, y, v), t) == On(x, y, u + Mul(v - u, t))
  {
    MixedProduct(x.x, y.x - x.x, u, v, t);
    MixedProduct(x.y, y.y - x.y, u, v, t);
    OnIs(x, y, u);
    OnIs(x, y, v);
    OnIs(x, y, u + Mul(v - u, t));
    OnIs(On(x, y, u), On(x, y, v), t);
    hide Mul, On;
  }

  lemma StrictMix(u: real, v: real, t: real)
    requires 0.0 < u < 1.0 && 0.0 < v < 1.0 && 0.0 <= t <= 1.0
    ensures 0.0 < u + Mul(v - u, t) < 1.0
  {
    Average(u, v, t);
    hide Mul;
  }

  lemma OnAtOnce(x: Point, y: Point, w: real)
    requires x != y && 0.0 < w < 1.0
    ensures !Corner(On(x, y, w), x, y)
  {
    OnIs(x, y, w);
    hide On;
    NotNothing(y.x - x.x, w);
    NotNothing(y.y - x.y, w);
    hide Mul;
  }

  lemma NotNothing(d: real, w: real)
    requires 0.0 < w < 1.0
    ensures Mul(d, w) == 0.0 ==> d == 0.0
    ensures Mul(d, w) == d ==> d == 0.0
  {
    MulWhole(d, w);
    NoZeroFactor(d, w);
    NoZeroFactor(d, 1.0 - w);
  }

  // ---- two places at one edge ----------------------------------------------------------------------------------------

  /** A point to the left of the edge from x to y. */
  function Apex(x: Point, y: Point): Point { Point(x.x - (y.y - x.y), x.y + (y.x - x.x)) }

  lemma ApexLeft(x: Point, y: Point)
    requires x != y
    ensures Orient(x, y, Apex(x, y)) > 0.0
  {
    var dx, dy := y.x - x.x, y.y - x.y;
    assert Orient(x, y, Apex(x, y)) == Sq(dx) + Sq(dy);
    hide Orient, Sq, Apex;
    SqSign(dx);
    SqSign(dy);
  }

  /** Left of the two sides of a triangle that begin or end at its third corner. */
  predicate Beneath(t: Triangle, q: Point) { Orient(t.b, t.c, q) > 0.0 && Orient(t.c, t.a, q) > 0.0 }

  lemma BeneathOff(t: Triangle, q: Point)
    requires Beneath(t, q)
    ensures !OnChain([t.b, t.c, t.a], q)
  {
    var c := [t.b, t.c, t.a];
    hide Orient;
    forall i | 0 <= i < |c| - 1 ensures !OnSegment(q, c[i], c[i + 1]) {
      if OnSegment(q, c[i], c[i + 1]) { SegmentInBox(q, c[i], c[i + 1]); }
    }
  }

  lemma BeneathAlong(t: Triangle, p: Point, q: Point, k: real)
    requires Beneath(t, p) && Beneath(t, q) && 0.0 <= k <= 1.0
    ensures Beneath(t, On(p, q, k))
  {
    OnEnds(p, q);
    TurnAlong(t.b, t.c, p, q, k);
    TurnAlong(t.c, t.a, p, q, k);
    hide Orient, On;
  }

  /** Close to the edge, on the way to it, one is beneath the other two sides, and up to there nothing changes. */
  lemma ComeClose(s: seq<Point>, t: Triangle, p: Point, r: Point) returns (q: Point, k: real)
    requires Reaches(s, p, r) && Beneath(t, r)
    ensures 0.0 <= k < 1.0 && q == On(p, r, k) && Beneath(t, q) && Inside(q, s) == Inside(p, s) && Reaches(s, q, r)
  {
    hide Orient, On, Inside, Reaches;
    var i := LeftFromThere(t.b, t.c, p, r);
    var j := LeftFromThere(t.c, t.a, p, r);
    k := if i < j then j else i;
    q := On(p, r, k);
    SameUpTo(s, p, r, k);
  }

  /** The way from close by to the edge avoids all other edges and the two sides. */
  lemma WayIsFree(z: seq<Point>, t: Triangle, q: Point, r: Point)
    requires Clean(z) && t.a == z[|z| - 1] && t.b == z[0] && Beneath(t, q) && Beneath(t, r)
    requires Reaches(z, q, r) && OnSegment(r, t.a, t.b) && !Corner(r, t.a, t.b)
    ensures ChainAvoids(z, q, r) && ChainAvoids([t.b, t.c, t.a], q, r)
    ensures ChainAvoids(z, r, q) && ChainAvoids([t.b, t.c, t.a], r, q)
  {
    OnEnds(q, r);
    assert z[..|z|] == z;
    hide Orient, On, OnSegment, Clean, Reaches, OnChain, Beneath;
    forall k: real | 0.0 <= k <= 1.0 ensures !OnChain(z, On(q, r, k)) && !OnChain([t.b, t.c, t.a], On(q, r, k)) {
      BeneathAlong(t, q, r, k);
      BeneathOff(t, On(q, r, k));
      if k < 1.0 {
        ReachesOff(z, q, r, k);
        OffRing(z, |z|, On(q, r, k));
      } else {
        OnClosing(z, r);
      }
    }
    AvoidsIf(z, q, r);
    AvoidsIf([t.b, t.c, t.a], q, r);
    AvoidsBack(z, q, r);
    AvoidsBack([t.b, t.c, t.a], q, r);
  }

  lemma AvoidsBack(c: seq<Point>, p: Point, q: Point)
    requires ChainAvoids(c, p, q)
    ensures ChainAvoids(c, q, p)
  {
    hide ShareAPoint;
    forall i | 0 <= i < |c| - 1 ensures !ShareAPoint(c[i], c[i + 1], q, p) { ShareTurned(c[i], c[i + 1], q, p); }
  }

  lemma ReachesOff(s: seq<Point>, p: Point, r: Point, t: real)
    requires Reaches(s, p, r) && 0.0 <= t < 1.0
    ensures !OnSome(s, On(p, r, t))
  {
    hide OnSome, On;
  }

  lemma AlongEdge(z: seq<Point>, t: Triangle, r: Point, r': Point)
    requires Clean(z) && t.a == z[|z| - 1] && t.b == z[0] && Beneath(t, r) && Beneath(t, r')
    requires OnSegment(r, t.a, t.b) && !Corner(r, t.a, t.b) && OnSegment(r', t.a, t.b) && !Corner(r', t.a, t.b)
    ensures ChainAvoids(z, r, r') && ChainAvoids([t.b, t.c, t.a], r, r')
  {
    assert z[..|z|] == z && t.a != t.b;
    hide Orient, On, OnSegment, Clean, OnChain, Beneath;
    forall k: real | 0.0 <= k <= 1.0 ensures !OnChain(z, On(r, r', k)) && !OnChain([t.b, t.c, t.a], On(r, r', k)) {
      BeneathAlong(t, r, r', k);
      BeneathOff(t, On(r, r', k));
      StrictlyOn(t.a, t.b, r, r', k);
      OnClosing(z, On(r, r', k));
    }
    AvoidsIf(z, r, r');
    AvoidsIf([t.b, t.c, t.a], r, r');
  }

  /** Beneath two sides, one is inside the triangle exactly on the left of the third. */
  lemma InsideByTurn(t: Triangle, q: Point)
    requires Positive(t) && Beneath(t, q) && Orient(t.a, t.b, q) != 0.0
    ensures Inside(q, [t.b, t.c, t.a]) <==> Orient(t.a, t.b, q) > 0.0
  {
    TurnedTriangle(t.a, t.b, t.c);
    assert Corners(t) == [t.a, t.b, t.c];
    hide Orient, Inside;
    if Orient(t.a, t.b, q) > 0.0 { WithinIsOdd(t, q); } else if Inside(q, Corners(t)) { OddIsHad(t, q); }
  }

  /** Seen from two places beside one edge: both inside or both outside exactly when on the same side of it. */
  lemma SameEdge(s: seq<Point>, x: Point, y: Point, p: Point, r: Point, p': Point, r': Point)
    requires Clean(s) && Beside(s, x, y, p, r) && Beside(s, x, y, p', r')
    ensures Inside(p, s) == Inside(p', s) <==> (Orient(x, y, p) > 0.0) == (Orient(x, y, p') > 0.0)
  {
    var z := ClosingWith(s, x, y);
    EdgeEndsDiffer(s, x, y);
    var t := Triangle(x, y, Apex(x, y));
    ApexLeft(x, y);
    BetweenEnds(t, r);
    BetweenEnds(t, r');
    SameReaches(s, z, p, r);
    SameReaches(s, z, p', r');
    hide Orient, On, OnSegment, IsEdge, Clean, Inside, Reaches, Apex, SameRing;
    var q, k := ComeClose(z, t, p, r);
    var q', k' := ComeClose(z, t, p', r');
    SameSideOf(x, y, p, r, k);
    SameSideOf(x, y, p', r', k');
    WayIsFree(z, t, q, r);
    WayIsFree(z, t, q', r');
    AlongEdge(z, t, r, r');
    var d := [t.b, t.c, t.a];
    SameChange(q, r, z, d);
    SameChange(r, r', z, d);
    SameChange(r', q', z, d);
    ClosedChain(q, z);
    ClosedChain(q', z);
    ClosedChain(q, d);
    ClosedChain(q', d);
    InsideByTurn(t, q);
    InsideByTurn(t, q');
    SameInside(s, z, p);
    SameInside(s, z, p');
  }

  lemma SameInside(s: seq<Point>, z: seq<Point>, p: Point)
    requires SameRing(s, z)
    ensures Inside(p, s) == Inside(p, z)
  {
    hide Inside, IsEdge;
  }

  lemma EdgeEndsDiffer(s: seq<Point>, x: Point, y: Point)
    requires Clean(s) && IsEdge(s, x, y)
    ensures x != y
  {
    hide OnlyCorners;
  }
  // ---- two edges with a common corner ----------------------------------------------------------------------------------

  /** The ring turned so that it ends with the corner v; its two edges come last. */
  lemma EndingWith(s: seq<Point>, a: Point, v: Point, b: Point) returns (z: seq<Point>)
    requires Clean(s) && IsEdge(s, a, v) && IsEdge(s, v, b)
    ensures SameRing(s, z) && SameRing(z, s) && Clean(z) && |z| == |s|
    ensures z[0] == b && z[|z| - 1] == v && z[|z| - 2] == a
  {
    z := ClosingWith(s, v, b);
    SameEdges(s, z, a, v);
    hide Inside, OnlyCorners, SameRing;
    var i :| EdgeAt(z, i, a, v);
    assert Next(i, |z|) == |z| - 1;
  }

  lemma SameEdges(s: seq<Point>, z: seq<Point>, x: Point, y: Point)
    requires SameRing(s, z)
    ensures IsEdge(s, x, y) == IsEdge(z, x, y)
  {
    hide Inside, IsEdge;
  }

  /** Parity with the last two edges apart. */
  lemma OpenChain(p: Point, z: seq<Point>)
    requires |z| >= 3
    ensures var n := |z|;
            Inside(p, z) == ((Chain(p, z[..n - 1]) != Crosses(p, z[n - 2], z[n - 1])) != Crosses(p, z[n - 1], z[0]))
  {
    var n := |z|;
    assert z == z[..n - 1] + [z[n - 1]];
    hide Crosses;
    ChainSnoc(p, z[..n - 1], z[n - 1]);
  }

  /** Half-open at its other end, an edge of the last corner meets no edge of the open chain. */
  lemma OnLastTwo(z: seq<Point>, r: Point)
    requires Clean(z)
    requires var n := |z|;
             (OnSegment(r, z[n - 2], z[n - 1]) && r != z[n - 2]) || (OnSegment(r, z[n - 1], z[0]) && r != z[0])
    ensures !OnChain(z[..|z| - 1], r)
  {
    hide OnSegment;
    var n := |z|;
    var c := z[..n - 1];
    assert EdgeAt(z, n - 1, z[n - 1], z[0]) && EdgeAt(z, n - 2, z[n - 2], z[n - 1]);
    assert IsEdge(z, z[n - 1], z[0]) && IsEdge(z, z[n - 2], z[n - 1]);
    forall i | 0 <= i < n - 2 ensures !OnSegment(r, c[i], c[i + 1]) {
      assert EdgeAt(z, i, z[i], z[i + 1]);
      assert IsEdge(z, z[i], z[i + 1]);
      assert z[i] != z[n - 1] && z[i] != z[n - 2] && z[i + 1] != z[n - 1];
      assert (z[n - 1], z[0]) != (z[i], z[i + 1]) && (z[n - 2], z[n - 1]) != (z[i], z[i + 1]);
      assert OnlyCorners(z[n - 1], z[0], z[i], z[i + 1]) && OnlyCorners(z[n - 2], z[n - 1], z[i], z[i + 1]);
    }
  }
  /** Close to a side of the triangle that ends or begins at its second corner: left of the third side and of the other
      one of the two. */
  predicate Facing(t: Triangle, first: bool, q: Point) {
    Orient(t.c, t.a, q) > 0.0 && (if first then Orient(t.b, t.c, q) else Orient(t.a, t.b, q)) > 0.0
  }

  function Turn3(t: Triangle, first: bool, q: Point): real { if first then Orient(t.a, t.b, q) else Orient(t.b, t.c, q) }

  lemma InsideBySide(t: Triangle, first: bool, q: Point)
    requires Positive(t) && Facing(t, first, q) && Turn3(t, first, q) != 0.0
    ensures Inside(q, Corners(t)) <==> Turn3(t, first, q) > 0.0
  {
    hide Orient, Inside;
    if Turn3(t, first, q) > 0.0 { WithinIsOdd(t, q); } else if Inside(q, Corners(t)) { OddIsHad(t, q); }
  }

  lemma FaceSide(s: seq<Point>, t: Triangle, first: bool, p: Point, r: Point) returns (q: Point, k: real)
    requires Reaches(s, p, r) && Facing(t, first, r)
    ensures 0.0 <= k < 1.0 && q == On(p, r, k) && Facing(t, first, q) && Inside(q, s) == Inside(p, s) && Reaches(s, q, r)
  {
    hide Orient, On, Inside, Reaches;
    var i := LeftFromThere(t.c, t.a, p, r);
    var j := LeftFromThere(if first then t.b else t.a, if first then t.c else t.b, p, r);
    k := if i < j then j else i;
    q := On(p, r, k);
    SameUpTo(s, p, r, k);
  }

  /** The triangle of the two edges, turned so that it is positive. */
  function FaceOf(a: Point, v: Point, b: Point): Triangle { if Orient(a, v, b) > 0.0 then Triangle(a, v, b) else Triangle(b, v, a) }

  lemma FacePositive(a: Point, v: Point, b: Point)
    requires Orient(a, v, b) != 0.0
    ensures Positive(FaceOf(a, v, b)) && Orient(FaceOf(a, v, b).c, FaceOf(a, v, b).a, v) > 0.0
    ensures forall q :: Inside(q, [b, a, v]) == Inside(q, Corners(FaceOf(a, v, b)))
  {
    OrientRotates(a, v, b);
    OrientRotates(v, b, a);
    OrientSwap(a, v, b);
    OrientRotates(b, v, a);
    OrientRotates(v, a, b);
    OrientSwap(v, b, a);
    hide Orient, Inside;
    forall q ensures Inside(q, [b, a, v]) == Inside(q, Corners(FaceOf(a, v, b))) {
      InsideRotated(q, [b, a, v]);
      assert Rotate([b, a, v]) == [a, v, b];
      InsideReversed(q, [b, v, a]);
      assert Reversed([b, v, a]) == [a, v, b];
    }
  }

  /** Between the ends of one of the two edges one faces it. */
  lemma EdgeFaces(a: Point, v: Point, b: Point, r: Point)
    requires Orient(a, v, b) != 0.0
    ensures OnSegment(r, a, v) && !Corner(r, a, v) ==> Facing(FaceOf(a, v, b), Orient(a, v, b) > 0.0, r)
    ensures OnSegment(r, v, b) && !Corner(r, v, b) ==> Facing(FaceOf(a, v, b), !(Orient(a, v, b) > 0.0), r)
  {
    var t := FaceOf(a, v, b);
    FacePositive(a, v, b);
    BetweenEnds(t, r);
    hide Orient, OnSegment;
    if OnSegment(r, a, v) { OnTurned(r, a, v); }
    if OnSegment(r, v, b) { OnTurned(r, v, b); }
  }

  /** The way from close by to one of the two edges, and along it to the common corner. */
  lemma WayToCorner(z: seq<Point>, q: Point, r: Point)
    requires Clean(z)
    requires var n := |z|;
             var a, v, b := z[n - 2], z[n - 1], z[0];
             && Orient(a, v, b) != 0.0 && Reaches(z, q, r)
             && ((OnSegment(r, a, v) && !Corner(r, a, v)) || (OnSegment(r, v, b) && !Corner(r, v, b)))
             && Orient(FaceOf(a, v, b).c, FaceOf(a, v, b).a, q) > 0.0
    ensures var n := |z|;
            var c, d, v := z[..n - 1], [z[0], z[n - 2]], z[n - 1];
            ChainAvoids(c, q, r) && ChainAvoids(d, q, r) && ChainAvoids(c, r, v) && ChainAvoids(d, r, v)
  {
    var n := |z|;
    var a, v, b := z[n - 2], z[n - 1], z[0];
    var t := FaceOf(a, v, b);
    var c, d := z[..n - 1], [b, a];
    FacePositive(a, v, b);
    EdgeFaces(a, v, b, r);
    EndIsOn(a, v);
    EndIsOn(v, b);
    OnEnds(q, r);
    OnEnds(r, v);
    hide Orient, On, OnSegment, Clean, Reaches, OnChain, FaceOf;
    forall k: real | 0.0 <= k <= 1.0 ensures !OnChain(c, On(q, r, k)) && !OnChain(d, On(q, r, k)) {
      TurnAlong(t.c, t.a, q, r, k);
      OffThird(a, v, b, On(q, r, k));
      if k < 1.0 {
        ReachesOff(z, q, r, k);
        OffRing(z, n - 1, On(q, r, k));
      } else {
        OnLastTwo(z, r);
      }
    }
    forall k: real | 0.0 <= k <= 1.0 ensures !OnChain(c, On(r, v, k)) && !OnChain(d, On(r, v, k)) {
      TurnAlong(t.c, t.a, r, v, k);
      OffThird(a, v, b, On(r, v, k));
      if OnSegment(r, a, v) { SubSegment(a, v, r, v, k); } else { SubSegment(v, b, r, v, k); }
      OnLastTwo(z, On(r, v, k));
    }
    AvoidsIf(c, q, r);
    AvoidsIf(d, q, r);
    AvoidsIf(c, r, v);
    AvoidsIf(d, r, v);
  }

  /** Left of the third side one is off it, and off its ends. */
  lemma OffThird(a: Point, v: Point, b: Point, q: Point)
    requires Orient(FaceOf(a, v, b).c, FaceOf(a, v, b).a, q) > 0.0
    ensures !OnChain([b, a], q) && q != a && q != b
  {
    OrientEnds(a, b);
    OrientEnds(b, a);
    var d := [b, a];
    forall i | 0 <= i < |d| - 1 ensures !OnSegment(q, d[i], d[i + 1]) {
      OrientSwap(a, b, q);
      hide Orient, OnSegment;
      if OnSegment(q, b, a) { SegmentInBox(q, b, a); }
    }
  }

  /** Seen from beside two edges that meet in v and are not in line: both inside or both outside exactly when on the same
      side of their edges. */
  lemma CornerEdges(s: seq<Point>, a: Point, v: Point, b: Point, p: Point, r: Point, p': Point, r': Point)
    requires Clean(s) && Orient(a, v, b) != 0.0 && Beside(s, a, v, p, r) && Beside(s, v, b, p', r')
    ensures Inside(p, s) == Inside(p', s) <==> (Orient(a, v, p) > 0.0) == (Orient(v, b, p') > 0.0)
  {
    var z := EndingWith(s, a, v, b);
    var n := |z|;
    var t, first := FaceOf(a, v, b), Orient(a, v, b) > 0.0;
    FacePositive(a, v, b);
    EdgeFaces(a, v, b, r);
    EdgeFaces(a, v, b, r');
    SameReaches(s, z, p, r);
    SameReaches(s, z, p', r');
    SegmentInBox(r, a, v);
    SegmentInBox(r', v, b);
    hide Orient, On, OnSegment, IsEdge, Clean, Inside, Reaches, SameRing;
    var q, k := FaceSide(z, t, first, p, r);
    var q', k' := FaceSide(z, t, !first, p', r');
    SameSideOf(a, v, p, r, k);
    SameSideOf(v, b, p', r', k');
    WayToCorner(z, q, r);
    WayToCorner(z, q', r');
    var c, d := z[..n - 1], [b, a];
    SameChange(q, r, c, d);
    SameChange(r, v, c, d);
    SameChange(q', r', c, d);
    SameChange(r', v, c, d);
    OpenChain(q, z);
    OpenChain(q', z);
    OpenChain(q, [b, a, v]);
    OpenChain(q', [b, a, v]);
    assert [b, a, v][..2] == d;
    OrientSwap(a, v, q);
    OrientSwap(v, b, q');
    InsideBySide(t, first, q);
    InsideBySide(t, !first, q');
    SameInside(s, z, p);
    SameInside(s, z, p');
  }
  /** Of two edges in line the common corner is between the others. */
  lemma StraightOn(s: seq<Point>, a: Point, v: Point, b: Point) returns (t: real)
    requires Clean(s) && IsEdge(s, a, v) && IsEdge(s, v, b) && (a, v) != (v, b) && a != b && Orient(a, v, b) == 0.0
    ensures 0.0 < t < 1.0 && v == On(a, b, t)
  {
    EdgeEndsDiffer(s, a, v);
    EdgeEndsDiffer(s, v, b);
    assert OnlyCorners(a, v, v, b);
    OrientRotates(v, b, a);
    OrientSwap(a, v, b);
    OrientRotates(a, v, b);
    OrientSwap(b, a, v);
    hide Orient, Clean, IsEdge;
    t := Parameter(v, a, b);
    EndIsOn(a, v);
    EndIsOn(v, b);
    OnEnds(a, b);
    if t >= 1.0 {
      Beyond(a, b, v, t);
    } else if t <= 0.0 {
      OnTurnedAt(a, b, t);
      Beyond(b, a, v, 1.0 - t);
      OnTurned(a, b, v);
    }
  }

  lemma LineTurns(a: Point, v: Point, b: Point, t: real, q: Point)
    requires 0.0 < t < 1.0 && v == On(a, b, t)
    ensures Orient(a, v, q) > 0.0 <==> Orient(a, b, q) > 0.0
    ensures Orient(v, b, q) > 0.0 <==> Orient(a, b, q) > 0.0
    ensures Orient(a, v, q) == 0.0 <==> Orient(a, b, q) == 0.0
    ensures Orient(v, b, q) == 0.0 <==> Orient(a, b, q) == 0.0
  {
    PartTurn(a, b, t, q);
    hide Orient, On;
    ScaledSign(t, Orient(a, b, q));
    ScaledSign(1.0 - t, Orient(a, b, q));
  }

  lemma PartTurn(a: Point, b: Point, t: real, q: Point)
    ensures Orient(a, On(a, b, t), q) == Mul(t, Orient(a, b, q))
    ensures Orient(On(a, b, t), b, q) == Mul(1.0 - t, Orient(a, b, q))
  {
    var ux, uy, x, y := b.x - a.x, b.y - a.y, q.x - a.x, q.y - a.y;
    assert On(a, b, t) == Point(a.x + ux * t, a.y + uy * t);
    assert Orient(a, b, q) == ux * y - uy * x;
    assert Orient(a, On(a, b, t), q) == (ux * t) * y - (uy * t) * x;
    assert Orient(On(a, b, t), b, q) == (ux - ux * t) * (y - uy * t) - (uy - uy * t) * (x - ux * t);
    RestTurn(ux, uy, x, y, t);
  }

  lemma RestTurn(ux: real, uy: real, x: real, y: real, t: real)
    ensures (ux * t) * y - (uy * t) * x == Mul(t, ux * y - uy * x)
    ensures (ux - ux * t) * (y - uy * t) - (uy - uy * t) * (x - ux * t) == Mul(1.0 - t, ux * y - uy * x)
  {}

  lemma ScaledSign(t: real, d: real)
    requires t > 0.0
    ensures Mul(t, d) > 0.0 <==> d > 0.0
    ensures Mul(t, d) == 0.0 <==> d == 0.0
  {
    WeighedSign(t, d);
    TimesZero(t);
  }

  /** Points of the two parts are points of the whole. */
  lemma PartsOfLine(a: Point, v: Point, b: Point, t: real, r: Point)
    requires 0.0 < t < 1.0 && v == On(a, b, t) && a != b
    ensures OnSegment(v, a, b) && !Corner(v, a, b)
    ensures OnSegment(r, a, v) && !Corner(r, a, v) ==> OnSegment(r, a, b) && !Corner(r, a, b)
    ensures OnSegment(r, v, b) && !Corner(r, v, b) ==> OnSegment(r, a, b) && !Corner(r, a, b)
  {
    OnAtOnce(a, b, t);
    OnEnds(a, b);
    assert OnSegment(v, a, b);
    if OnSegment(r, a, v) && !Corner(r, a, v) {
      var k :| 0.0 <= k <= 1.0 && r == On(a, v, k);
      OnEnds(a, v);
      MixedOn(a, b, 0.0, t, k);
      PositiveProduct(t, k);
      OnAtOnce(a, b, 0.0 + Mul(t - 0.0, k));
    }
    if OnSegment(r, v, b) && !Corner(r, v, b) {
      var k :| 0.0 <= k <= 1.0 && r == On(v, b, k);
      OnEnds(v, b);
      MixedOn(a, b, t, 1.0, k);
      PositiveProduct(1.0 - t, 1.0 - k);
      MulWhole(1.0 - t, k);
      OnAtOnce(a, b, t + Mul(1.0 - t, k));
    }
  }

  lemma PositiveProduct(t: real, k: real)
    requires 0.0 < t < 1.0 && 0.0 <= k <= 1.0
    ensures k > 0.0 ==> 0.0 < Mul(t, k)
    ensures Mul(t, k) < 1.0
  {
    WeighedSign(t, k);
    MulWhole(t, k);
    MulSign(t, 1.0 - k);
  }

  /** The triangle over the line of the two edges, with the common corner put in, has the same points inside. */
  lemma WithCorner(a: Point, v: Point, b: Point, w: Point, q: Point)
    requires Orient(a, v, b) == 0.0
    ensures Inside(q, [b, w, a, v]) == Inside(q, [b, w, a])
  {
    InsideRotated(q, [v, b, w, a]);
    assert Rotate([v, b, w, a]) == [b, w, a, v];
    InsideClipped(q, [v, b, w, a]);
    assert [v, b, w, a][1..] == [b, w, a];
    var t := Triangle(a, v, b);
    if Inside(q, Corners(t)) {
      OddIsSurrounded(q, t);
      TurnsAddUp(q, a, v, b);
    }
  }

  /** The way from close by to one of the two edges in line, and along it to the common corner. */
  lemma WayToMiddle(z: seq<Point>, t: Triangle, q: Point, r: Point)
    requires Clean(z) && t.a == z[|z| - 2] && t.b == z[0] && Beneath(t, q) && Beneath(t, r) && Beneath(t, z[|z| - 1])
    requires var n := |z|;
             var a, v, b := z[n - 2], z[n - 1], z[0];
             Reaches(z, q, r) && ((OnSegment(r, a, v) && !Corner(r, a, v)) || (OnSegment(r, v, b) && !Corner(r, v, b)))
    ensures var n := |z|;
            var c, d, v := z[..n - 1], [t.b, t.c, t.a], z[n - 1];
            ChainAvoids(c, q, r) && ChainAvoids(d, q, r) && ChainAvoids(c, r, v) && ChainAvoids(d, r, v)
  {
    var n := |z|;
    var a, v, b := z[n - 2], z[n - 1], z[0];
    var c, d := z[..n - 1], [t.b, t.c, t.a];
    EndIsOn(a, v);
    EndIsOn(v, b);
    OnEnds(q, r);
    OnEnds(r, v);
    hide Orient, On, OnSegment, Clean, Reaches, OnChain, Beneath;
    forall k: real | 0.0 <= k <= 1.0 ensures !OnChain(c, On(q, r, k)) && !OnChain(d, On(q, r, k)) {
      BeneathAlong(t, q, r, k);
      BeneathOff(t, On(q, r, k));
      if k < 1.0 {
        ReachesOff(z, q, r, k);
        OffRing(z, n - 1, On(q, r, k));
      } else {
        OnLastTwo(z, r);
      }
    }
    forall k: real | 0.0 <= k <= 1.0 ensures !OnChain(c, On(r, v, k)) && !OnChain(d, On(r, v, k)) {
      BeneathAlong(t, r, v, k);
      BeneathOff(t, On(r, v, k));
      BeneathNotEnds(t, On(r, v, k));
      if OnSegment(r, a, v) { SubSegment(a, v, r, v, k); } else { SubSegment(v, b, r, v, k); }
      OnLastTwo(z, On(r, v, k));
    }
    AvoidsIf(c, q, r);
    AvoidsIf(d, q, r);
    AvoidsIf(c, r, v);
    AvoidsIf(d, r, v);
  }

  lemma BeneathNotEnds(t: Triangle, q: Point)
    requires Beneath(t, q)
    ensures q != t.a && q != t.b
  {
    OrientEnds(t.b, t.c);
    OrientEnds(t.c, t.a);
    hide Orient;
  }

  /** The same for two edges in line. */
  lemma LineEdges(s: seq<Point>, a: Point, v: Point, b: Point, p: Point, r: Point, p': Point, r': Point)
    requires Clean(s) && a != b && Orient(a, v, b) == 0.0 && Beside(s, a, v, p, r) && Beside(s, v, b, p', r')
    ensures Inside(p, s) == Inside(p', s) <==> (Orient(a, v, p) > 0.0) == (Orient(v, b, p') > 0.0)
  {
    var z := EndingWith(s, a, v, b);
    var n := |z|;
    EdgeEndsDiffer(s, a, v);
    var m := StraightOn(s, a, v, b);
    var t := Triangle(a, b, Apex(a, b));
    ApexLeft(a, b);
    PartsOfLine(a, v, b, m, r);
    PartsOfLine(a, v, b, m, r');
    BetweenEnds(t, r);
    BetweenEnds(t, r');
    BetweenEnds(t, v);
    SameReaches(s, z, p, r);
    SameReaches(s, z, p', r');
    SegmentInBox(r, a, v);
    SegmentInBox(r', v, b);
    hide Orient, On, OnSegment, IsEdge, Clean, Inside, Reaches, SameRing, Apex;
    var q, k := ComeClose(z, t, p, r);
    var q', k' := ComeClose(z, t, p', r');
    SameSideOf(a, v, p, r, k);
    SameSideOf(v, b, p', r', k');
    LineTurns(a, v, b, m, q);
    LineTurns(a, v, b, m, q');
    WayToMiddle(z, t, q, r);
    WayToMiddle(z, t, q', r');
    var c, d := z[..n - 1], [t.b, t.c, t.a];
    SameChange(q, r, c, d);
    SameChange(r, v, c, d);
    SameChange(q', r', c, d);
    SameChange(r', v, c, d);
    OpenChain(q, z);
    OpenChain(q', z);
    OpenChain(q, [b, t.c, a, v]);
    OpenChain(q', [b, t.c, a, v]);
    assert [b, t.c, a, v][..3] == d;
    WithCorner(a, v, b, t.c, q);
    WithCorner(a, v, b, t.c, q');
    InsideByTurn(t, q);
    InsideByTurn(t, q');
    SameInside(s, z, p);
    SameInside(s, z, p');
  }
  // ---- close enough ---------------------------------------------------------------------------------------------------

  /** A point seen along a direction d from x. */
  function Aside(x: Point, d: Point): Point { Point(x.x + d.y, x.y - d.x) }

  lemma AsideTurn(x: Point, d: Point, q: Point)
    ensures Orient(x, Aside(x, d), q) == Mul(d.x, q.x - x.x) + Mul(d.y, q.y - x.y)
  {}

  /** A line with the point on its left and the edge not. */
  lemma Separator(x: Point, y: Point, r: Point) returns (a: Point, b: Point)
    requires !OnSegment(r, x, y)
    ensures Orient(a, b, r) > 0.0 && Orient(a, b, x) <= 0.0 && Orient(a, b, y) <= 0.0
  {
    EndIsOn(x, y);
    OrientEnds(x, y);
    OrientEnds(y, x);
    OrientSwap(x, y, r);
    if Orient(x, y, r) > 0.0 {
      a, b := x, y;
    } else if Orient(x, y, r) < 0.0 {
      a, b := y, x;
    } else if x == y {
      a, b := PointSeparator(x, r);
    } else {
      a, b := LineSeparator(x, y, r);
    }
  }

  lemma PointSeparator(x: Point, r: Point) returns (a: Point, b: Point)
    requires r != x
    ensures Orient(a, b, r) > 0.0 && Orient(a, b, x) <= 0.0
  {
    var d := Point(r.x - x.x, r.y - x.y);
    a, b := x, Aside(x, d);
    AsideTurn(x, d, r);
    AsideTurn(x, d, x);
    assert Mul(d.x, r.x - x.x) == Sq(d.x) && Mul(d.y, r.y - x.y) == Sq(d.y);
    SqSign(d.x);
    SqSign(d.y);
    TimesZero(d.x);
    TimesZero(d.y);
    hide Orient, Sq, Mul;
  }

  /** On the line of the edge, but beyond one of its ends. */
  lemma LineSeparator(x: Point, y: Point, r: Point) returns (a: Point, b: Point)
    requires x != y && Orient(x, y, r) == 0.0 && !OnSegment(r, x, y)
    ensures Orient(a, b, r) > 0.0 && Orient(a, b, x) <= 0.0 && Orient(a, b, y) <= 0.0
  {
    var t := Parameter(r, x, y);
    hide Orient;
    if t > 1.0 {
      a, b := BeyondEnd(x, y, r, t);
    } else {
      OnTurnedAt(x, y, t);
      assert t < 0.0;
      a, b := BeyondEnd(y, x, r, 1.0 - t);
    }
  }

  lemma BeyondEnd(x: Point, y: Point, r: Point, t: real) returns (a: Point, b: Point)
    requires x != y && t > 1.0 && r == On(x, y, t)
    ensures Orient(a, b, r) > 0.0 && Orient(a, b, x) <= 0.0 && Orient(a, b, y) <= 0.0
  {
    var d := Point(y.x - x.x, y.y - x.y);
    a, b := y, Aside(y, d);
    AsideTurn(y, d, r);
    AsideTurn(y, d, x);
    AsideTurn(y, d, y);
    OnIs(x, y, t);
    BeyondSum(d.x, t);
    BeyondSum(d.y, t);
    assert r.x - y.x == Mul(d.x, t) - d.x && r.y - y.y == Mul(d.y, t) - d.y;
    assert x.x - y.x == -d.x && x.y - y.y == -d.y;
    SqSign(d.x);
    SqSign(d.y);
    TimesZero(d.x);
    TimesZero(d.y);
    WeighedSign(t - 1.0, Sq(d.x));
    WeighedSign(t - 1.0, Sq(d.y));
    hide Orient, Sq, Mul, On;
  }

  lemma BeyondSum(d: real, t: real)
    ensures Mul(d, Mul(d, t) - d) == Mul(t - 1.0, Sq(d)) && Mul(d, -d) == -Sq(d)
  {}

  /** On the two ways to v, from some point on, what lies between them keeps off the edge. */
  ghost predicate Between2(x: Point, y: Point, p: Point, q: Point, v: Point, m: real) {
    forall u: real {:trigger On(On(p, v, m), On(q, v, m), u)} :: 0.0 <= u <= 1.0 ==> !OnSegment(On(On(p, v, m), On(q, v, m), u), x, y)
  }

  lemma PairEdge(x: Point, y: Point, p: Point, q: Point, v: Point) returns (k: real)
    requires !OnSegment(v, x, y)
    ensures 0.0 <= k < 1.0 && forall m: real {:trigger Between2(x, y, p, q, v, m)} :: k <= m <= 1.0 ==> Between2(x, y, p, q, v, m)
  {
    var a, b := Separator(x, y, v);
    var i := LeftFromThere(a, b, p, v);
    var j := LeftFromThere(a, b, q, v);
    k := if i < j then j else i;
    hide Orient, On, OnSegment;
    forall m: real | k <= m <= 1.0 ensures Between2(x, y, p, q, v, m) {
      var p', q' := On(p, v, m), On(q, v, m);
      OnEnds(p', q');
      forall u: real | 0.0 <= u <= 1.0 ensures !OnSegment(On(p', q', u), x, y) {
        TurnAlong(a, b, p', q', u);
        EdgeNotLeft(a, b, x, y, On(p', q', u));
      }
    }
  }

  lemma EdgeNotLeft(a: Point, b: Point, x: Point, y: Point, z: Point)
    requires Orient(a, b, x) <= 0.0 && Orient(a, b, y) <= 0.0 && Orient(a, b, z) > 0.0
    ensures !OnSegment(z, x, y)
  {
    if OnSegment(z, x, y) {
      var k :| 0.0 <= k <= 1.0 && z == On(x, y, k);
      OrientAlong(a, b, x, y, k);
      hide Orient, On;
      MulSign(1.0 - k, Orient(a, b, x));
      MulSign(k, Orient(a, b, y));
    }
  }

  /** Off all edges but those through v. */
  ghost predicate PairClear(s: seq<Point>, p: Point, q: Point, v: Point, m: real) {
    forall x, y {:trigger IsEdge(s, x, y)} :: IsEdge(s, x, y) && !OnSegment(v, x, y) ==> Between2(x, y, p, q, v, m)
  }

  lemma {:induction false} PairUpTo(s: seq<Point>, n: nat, p: Point, q: Point, v: Point) returns (k: real)
    requires n <= |s|
    ensures 0.0 <= k < 1.0
    ensures forall i, m: real {:trigger Between2(s[i], s[Next(i, |s|)], p, q, v, m)} ::
              0 <= i < n && !OnSegment(v, s[i], s[Next(i, |s|)]) && k <= m <= 1.0 ==> Between2(s[i], s[Next(i, |s|)], p, q, v, m)
    decreases n
  {
    hide OnSegment, Between2;
    if n == 0 {
      k := 0.0;
    } else {
      var j := PairUpTo(s, n - 1, p, q, v);
      k := j;
      if !OnSegment(v, s[n - 1], s[Next(n - 1, |s|)]) {
        var l := PairEdge(s[n - 1], s[Next(n - 1, |s|)], p, q, v);
        if l > j { k := l; }
      }
    }
  }

  /** Close enough to v the two ways and all between keep off every edge that does not pass through v. */
  lemma CloseEnough(s: seq<Point>, p: Point, q: Point, v: Point) returns (k: real)
    ensures 0.0 <= k < 1.0 && forall m: real {:trigger PairClear(s, p, q, v, m)} :: k <= m <= 1.0 ==> PairClear(s, p, q, v, m)
  {
    k := PairUpTo(s, |s|, p, q, v);
    hide OnSegment, Between2;
    forall m: real | k <= m <= 1.0 ensures PairClear(s, p, q, v, m) {
      forall x, y | IsEdge(s, x, y) && !OnSegment(v, x, y) ensures Between2(x, y, p, q, v, m) {
        var i :| EdgeAt(s, i, x, y);
      }
    }
  }

  /** Beside every edge, on either side, there is a place. */
  lemma SomePlace(s: seq<Point>, x: Point, y: Point, left: bool) returns (p: Point, r: Point)
    requires Clean(s) && IsEdge(s, x, y)
    ensures Beside(s, x, y, p, r) && (Orient(x, y, p) > 0.0 <==> left)
  {
    EdgeEndsDiffer(s, x, y);
    r := On(x, y, 0.5);
    HalfWay(x, y);
    assert OnSegment(r, x, y);
    SegmentInBox(r, x, y);
    var w := if left then Apex(x, y) else Apex(y, x);
    ApexLeft(x, y);
    ApexLeft(y, x);
    OrientSwap(x, y, w);
    hide Orient, On, OnSegment, Clean, IsEdge, Apex;
    var k := CloseEnough(s, w, w, r);
    p := On(w, r, k);
    SameSideOf(x, y, w, r, k);
    forall t: real | 0.0 <= t < 1.0 ensures !OnSome(s, On(p, r, t)) {
      OnRest(w, r, k, t);
      PlaceOff(s, x, y, w, r, k + (1.0 - k) * t);
    }
    assert Reaches(s, p, r);
  }

  lemma PlaceOff(s: seq<Point>, x: Point, y: Point, w: Point, r: Point, m: real)
    requires Clean(s) && IsEdge(s, x, y) && OnSegment(r, x, y) && !Corner(r, x, y) && Orient(x, y, w) != 0.0
    requires 0.0 <= m < 1.0 && PairClear(s, w, w, r, m)
    ensures !OnSome(s, On(w, r, m))
  {
    var q := On(w, r, m);
    SegmentInBox(r, x, y);
    SameSideOf(x, y, w, r, m);
    OnEnds(q, q);
    hide Orient, On, OnSegment, IsEdge;
    forall u, v | IsEdge(s, u, v) ensures !OnSegment(q, u, v) {
      if (u, v) == (x, y) {
        if OnSegment(q, u, v) { SegmentInBox(q, u, v); }
      } else {
        assert OnlyCorners(x, y, u, v);
        assert Between2(u, v, w, w, r, m);
        assert q == On(On(w, r, m), On(w, r, m), 0.0);
      }
    }
  }

  // ---- one side for all --------------------------------------------------------------------------------------------------

  ghost predicate RightIsInside(s: seq<Point>, x: Point, y: Point) {
    forall p, r {:trigger Reaches(s, p, r), OnSegment(r, x, y)} ::
      OnSegment(r, x, y) && !Corner(r, x, y) && Orient(x, y, p) != 0.0 && Reaches(s, p, r) ==>
        (Inside(p, s) <==> Orient(x, y, p) < 0.0)
  }

  ghost predicate SidedRight(s: seq<Point>) { forall x, y {:trigger IsEdge(s, x, y)} :: IsEdge(s, x, y) ==> RightIsInside(s, x, y) }

  /** One place decides for the edge. */
  lemma PlaceDecides(s: seq<Point>, x: Point, y: Point, p: Point, r: Point)
    requires Clean(s) && Beside(s, x, y, p, r)
    ensures (Inside(p, s) <==> Orient(x, y, p) > 0.0) ==> LeftIsInside(s, x, y)
    ensures !(Inside(p, s) <==> Orient(x, y, p) > 0.0) ==> RightIsInside(s, x, y)
  {
    hide Orient, OnSegment, Clean, IsEdge, Inside, Reaches;
    forall p', r' | OnSegment(r', x, y) && !Corner(r', x, y) && Orient(x, y, p') != 0.0 && Reaches(s, p', r')
      ensures Inside(p, s) == Inside(p', s) <==> (Orient(x, y, p) > 0.0) == (Orient(x, y, p') > 0.0)
    {
      SameEdge(s, x, y, p, r, p', r');
    }
  }

  /** Two edges with a common corner have the inside on the same side. */
  lemma NextEdge(s: seq<Point>, a: Point, v: Point, b: Point)
    requires Clean(s) && IsEdge(s, a, v) && IsEdge(s, v, b) && a != b
    ensures LeftIsInside(s, a, v) ==> LeftIsInside(s, v, b)
    ensures RightIsInside(s, a, v) ==> RightIsInside(s, v, b)
  {
    var p, r := SomePlace(s, a, v, true);
    var p', r' := SomePlace(s, v, b, true);
    if Orient(a, v, b) != 0.0 { CornerEdges(s, a, v, b, p, r, p', r'); } else { LineEdges(s, a, v, b, p, r, p', r'); }
    PlaceDecides(s, v, b, p', r');
    hide Orient, OnSegment, Clean, IsEdge, Inside, Reaches;
    assert LeftIsInside(s, a, v) ==> Inside(p, s);
    assert RightIsInside(s, a, v) ==> !Inside(p, s);
  }

  lemma {:induction false} UpToEdge(s: seq<Point>, i: nat)
    requires Clean(s) && i < |s|
    ensures LeftIsInside(s, s[0], s[1]) ==> LeftIsInside(s, s[i], s[Next(i, |s|)])
    ensures RightIsInside(s, s[0], s[1]) ==> RightIsInside(s, s[i], s[Next(i, |s|)])
    decreases i
  {
    if i > 0 {
      UpToEdge(s, i - 1);
      assert EdgeAt(s, i - 1, s[i - 1], s[i]) && EdgeAt(s, i, s[i], s[Next(i, |s|)]);
      CleanDistinct(s);
      hide LeftIsInside, RightIsInside, Clean;
      NextEdge(s, s[i - 1], s[i], s[Next(i, |s|)]);
    }
  }

  /** Main lemma: a clean ring has its inside on the left of all edges or on the right of all. */
  lemma OneSided(s: seq<Point>)
    requires Clean(s)
    ensures Sided(s) || SidedRight(s)
  {
    assert EdgeAt(s, 0, s[0], s[1]);
    var p, r := SomePlace(s, s[0], s[1], true);
    PlaceDecides(s, s[0], s[1], p, r);
    hide LeftIsInside, RightIsInside, Clean;
    forall x, y | IsEdge(s, x, y)
      ensures (LeftIsInside(s, s[0], s[1]) ==> LeftIsInside(s, x, y)) && (RightIsInside(s, s[0], s[1]) ==> RightIsInside(s, x, y))
    {
      var i :| EdgeAt(s, i, x, y);
      UpToEdge(s, i);
    }
  }

  /** So one place decides for the ring. */
  lemma SidedByPlace(s: seq<Point>, x: Point, y: Point, p: Point, r: Point)
    requires Clean(s) && Beside(s, x, y, p, r) && (Inside(p, s) <==> Orient(x, y, p) > 0.0)
    ensures Sided(s)
  {
    OneSided(s);
    hide Clean, Inside, Orient, Reaches, OnSegment;
    assert SidedRight(s) ==> RightIsInside(s, x, y);
  }

  /** The ring the other way round has its inside on the other side. */
  lemma OtherWay(s: seq<Point>)
    requires Clean(s) && SidedRight(s)
    ensures Clean(Reversed(s)) && Sided(Reversed(s))
  {
    var z := Reversed(s);
    ReversedClean(s);
    var x, y := s[0], s[1];
    assert EdgeAt(s, 0, x, y);
    ReversedEdge(s, y, x);
    var p, r := SomePlace(z, y, x, true);
    hide Clean, Inside, Orient, OnSegment, IsEdge, On, OnSome;
    assert RightIsInside(s, x, y);
    forall t: real | 0.0 <= t < 1.0 ensures !OnSome(s, On(p, r, t)) {
      ReachesOff(z, p, r, t);
      ReversedOnSome(s, On(p, r, t));
    }
    assert Reaches(s, p, r);
    OnTurned(r, y, x);
    OrientSwap(x, y, p);
    InsideReversed(p, s);
    SidedByPlace(z, y, x, p, r);
  }
}
