/** What ear clipping guarantees about its triangles. */
module Triangulation {
  import opened Plane
  import opened EvenOdd
  import opened EarClipping

  function AreaSum(ts: seq<Triangle>): real {
    if ts == [] then 0.0 else AreaSum(ts[..|ts| - 1]) + TriangleArea2(ts[|ts| - 1])
  }

  /** Parity of the number of triangles the point is inside of. */
  predicate OddIn(p: Point, ts: seq<Triangle>) {
    if ts == [] then false else OddIn(p, ts[..|ts| - 1]) != Inside(p, Corners(ts[|ts| - 1]))
  }

  // ---- turning a ring -------------------------------------------------------------------------------------

  lemma {:induction false} TurnKeeps(poly: seq<Point>, ring: Ring, m: nat, p: Point)
    requires ValidRing(poly, ring) && |ring| >= 2 && m <= |ring|
    ensures ValidRing(poly, Turn(ring, m))
    ensures Area2(PointsOf(poly, Turn(ring, m))) == Area2(PointsOf(poly, ring))
    ensures Inside(p, PointsOf(poly, Turn(ring, m))) == Inside(p, PointsOf(poly, ring))
    decreases m
  {
    hide Area2, Inside;
    if m == 0 {
      assert Turn(ring, 0) == ring;
    } else {
      TurnKeeps(poly, ring, m - 1, p);
      var before, after := Turn(ring, m - 1), Turn(ring, m);
      assert after == before[1..] + [before[0]];
      assert PointsOf(poly, after) == Rotate(PointsOf(poly, before));
      Area2Rotated(PointsOf(poly, before));
      InsideRotated(p, PointsOf(poly, before));
    }
  }

  lemma IsTurnKeeps(poly: seq<Point>, a: Ring, b: Ring, p: Point)
    requires ValidRing(poly, a) && |a| >= 2 && IsTurn(a, b)
    ensures ValidRing(poly, b) && |b| == |a|
    ensures Area2(PointsOf(poly, b)) == Area2(PointsOf(poly, a)) && Inside(p, PointsOf(poly, b)) == Inside(p, PointsOf(poly, a))
  {
    var m :| 0 <= m <= |a| && b == Turn(a, m);
    TurnKeeps(poly, a, m, p);
  }

  lemma EarKeeps(poly: seq<Point>, ring: Ring, p: Point)
    requires ValidRing(poly, ring) && |ring| > 3
    ensures ValidRing(poly, ring[1..])
    ensures Area2(PointsOf(poly, ring)) == Area2(PointsOf(poly, ring[1..])) + TriangleArea2(EarOf(poly, ring))
    ensures Inside(p, PointsOf(poly, ring)) == (Inside(p, PointsOf(poly, ring[1..])) != Inside(p, Corners(EarOf(poly, ring))))
  {
    hide Area2, Inside, TriangleArea2;
    var s := PointsOf(poly, ring);
    assert PointsOf(poly, ring[1..]) == s[1..];
    Area2Clipped(s);
    InsideClipped(p, s);
  }

  // ---- conservation ------------------------------------------------------------------------------------------

  lemma ClippedFront(poly: seq<Point>, start: Ring, rings: seq<Ring>, rest: Ring)
    requires Clipped(poly, start, rings, rest) && rings != []
    ensures var m := |rings| - 1;
            && Clipped(poly, start, rings[..m], rings[m]) && ValidRing(poly, rings[m]) && |rings[m]| > 3
            && IsTurn(rings[m][1..], rest)
  {
    hide IsEar, IsTurn, ValidRing;
    var m := |rings| - 1;
    var front := rings[..m];
    assert forall k :: 0 <= k < m ==> front[k] == rings[k];
    forall k | 0 <= k <= m ensures Before(start, front, k) == Before(start, rings, k) {}
    forall k | 0 <= k < m ensures IsTurn(Before(start, front, k), front[k]) {
      assert IsTurn(Before(start, rings, k), rings[k]);
    }
    assert IsTurn(Before(start, rings, m), rings[m]);
    forall k | 0 <= k < m ensures |front[k]| > 3 && ValidRing(poly, front[k]) && IsEar(poly, front[k]) {
      assert |rings[k]| > 3;
    }
  }

  /** At every stage the doubled areas of the ears and of what remains add up to that of the start, and a
      point's parity is that of what remains together with the ears it is inside of. */
  lemma {:induction false} Conserved(poly: seq<Point>, start: Ring, rings: seq<Ring>, rest: Ring, p: Point)
    requires Clipped(poly, start, rings, rest) && |start| >= 3
    ensures ClippedSizes(poly, rings)
    ensures AreaSum(Ears(poly, rings)) + Area2(PointsOf(poly, rest)) == Area2(PointsOf(poly, start))
    ensures Inside(p, PointsOf(poly, start)) == (Inside(p, PointsOf(poly, rest)) != OddIn(p, Ears(poly, rings)))
    decreases |rings|
  {
    ClippedValid(poly, start, rings, rest);
    if rings == [] {
      StartTurned(poly, start, rest);
      IsTurnKeeps(poly, start, rest, p);
    } else {
      var m := |rings| - 1;
      ClippedFront(poly, start, rings, rest);
      Conserved(poly, start, rings[..m], rings[m], p);
      hide Area2, Inside, TriangleArea2, IsTurn, Clipped;
      EarKeeps(poly, rings[m], p);
      IsTurnKeeps(poly, rings[m][1..], rest, p);
      EarsFront(poly, rings);
    }
  }

  lemma StartTurned(poly: seq<Point>, start: Ring, rest: Ring)
    requires Clipped(poly, start, [], rest)
    ensures IsTurn(start, rest)
  {
    assert Before(start, [], 0) == start;
  }

  lemma EarsFront(poly: seq<Point>, rings: seq<Ring>)
    requires ClippedSizes(poly, rings) && rings != []
    ensures ClippedSizes(poly, rings[..|rings| - 1])
    ensures var es := Ears(poly, rings);
            es[..|es| - 1] == Ears(poly, rings[..|rings| - 1]) && es[|es| - 1] == EarOf(poly, rings[|rings| - 1])
  {}

  // ---- the starting ring ---------------------------------------------------------------------------------------

  /** The start has the polygon's area, taken positive, and the same points inside. */
  lemma StartKeeps(poly: seq<Point>, p: Point)
    ensures ValidRing(poly, StartRing(poly)) && |StartRing(poly)| == |poly|
    ensures Area2(PointsOf(poly, StartRing(poly))) == if Area2(poly) > 0.0 then Area2(poly) else -Area2(poly)
    ensures Inside(p, PointsOf(poly, StartRing(poly))) == Inside(p, poly)
  {
    hide Inside;
    StartValid(poly);
    var s := PointsOf(poly, StartRing(poly));
    if Area2(poly) > 0.0 {
      assert s == poly;
    } else {
      assert s == Reversed(poly);
      Area2Reversed(poly);
      InsideReversed(p, poly);
    }
  }

  // ---- results about Triangulate ----------------------------------------------------------------------------------

  /** What `Triangulate` returns for a polygon. */
  ghost predicate Triangulates(poly: seq<Point>, ts: seq<Triangle>, rings: seq<Ring>, rest: Ring) {
    && (|poly| < 3 ==> ts == [])
    && (|poly| == 3 ==> ts == [Triangle(poly[0], poly[1], poly[2])])
    && (|poly| > 3 ==>
          && Clipped(poly, StartRing(poly), rings, rest) && |rest| >= 3 && |rings| + |rest| == |poly|
          && ts == Ears(poly, rings) + (if |rest| == 3 then [LastTriangle(poly, rest)] else [])
          && (|rest| > 3 ==> NoEar(poly, rest)))
  }

  /** The clipping went through: n - 2 triangles. */
  predicate Complete(poly: seq<Point>, ts: seq<Triangle>) { |poly| >= 3 && |ts| == |poly| - 2 }

  /** It ends early only on vertices none of which is an ear, and with fewer triangles. */
  lemma CompleteOrNoEar(poly: seq<Point>, ts: seq<Triangle>, rings: seq<Ring>, rest: Ring)
    requires Triangulates(poly, ts, rings, rest) && |poly| >= 3
    ensures |ts| <= |poly| - 2
    ensures !Complete(poly, ts) <==> |poly| > 3 && |rest| > 3
    ensures !Complete(poly, ts) ==> NoEar(poly, rest)
  {
    if |poly| > 3 { ClippedValid(poly, StartRing(poly), rings, rest); }
  }

  // ---- what an ear leaves out ---------------------------------------------------------------------------------------

  lemma TurnHolds(a: Ring, b: Ring, i: nat)
    requires IsTurn(a, b) && i in a
    ensures i in b
  {
    var m :| 0 <= m <= |a| && b == Turn(a, m);
    assert a == a[..m] + a[m..];
  }

  /** A vertex that is not among the clipped ones remains. */
  lemma {:induction false} Remains(poly: seq<Point>, start: Ring, rings: seq<Ring>, rest: Ring, i: nat)
    requires Clipped(poly, start, rings, rest) && i in start
    requires forall j :: 0 <= j < |rings| ==> |rings[j]| > 3 && rings[j][0] != i
    ensures i in rest
    decreases |rings|
  {
    hide IsEar, Clipped, ValidRing, IsTurn;
    if rings == [] {
      StartTurned(poly, start, rest);
      TurnHolds(start, rest, i);
    } else {
      var m := |rings| - 1;
      ClippedFront(poly, start, rings, rest);
      Remains(poly, start, rings[..m], rings[m], i);
      assert rings[m] == [rings[m][0]] + rings[m][1..];
      TurnHolds(rings[m][1..], rest, i);
    }
  }

  lemma {:induction false} ClippedUpTo(poly: seq<Point>, start: Ring, rings: seq<Ring>, rest: Ring, k: nat)
    requires Clipped(poly, start, rings, rest) && k < |rings|
    ensures Clipped(poly, start, rings[..k], rings[k])
    decreases |rings|
  {
    hide IsEar, Clipped, ValidRing, IsTurn;
    ClippedFront(poly, start, rings, rest);
    var m := |rings| - 1;
    if k < m {
      ClippedUpTo(poly, start, rings[..m], rings[m], k);
      assert rings[..m][..k] == rings[..k];
    }
  }

  /** No ear holds a vertex that remains when it is cut off: of the vertices that no earlier ear clipped, only
      the three corners themselves are averages of the corners.  An ear turns left. */
  lemma EarsAreEmpty(poly: seq<Point>, ts: seq<Triangle>, rings: seq<Ring>, rest: Ring, k: nat, i: nat)
    requires Triangulates(poly, ts, rings, rest) && |poly| > 3 && k < |rings|
    ensures |rings[k]| > 3 && ts[k].b.Sub(ts[k].a).Cross(ts[k].c.Sub(ts[k].a)) > 0.0
    ensures var prev, cur, next := rings[k][|rings[k]| - 1], rings[k][0], rings[k][1];
            && prev < |poly| && cur < |poly| && next < |poly| && ts[k] == Triangle(poly[prev], poly[cur], poly[next])
            && (i < |poly| && i !in {prev, cur, next} && (forall j :: 0 <= j < k ==> |rings[j]| > 3 && rings[j][0] != i) ==>
                  !InHull(poly[i], ts[k].a, ts[k].b, ts[k].c))
  {
    hide NoEar, InHull, Area2;
    var start := StartRing(poly);
    ClippedValid(poly, start, rings, rest);
    IndicesValid(poly, rings[k]);
    assert IsEar(poly, rings[k]) && ts[k] == Ears(poly, rings)[k];
    if i < |poly| && (forall j :: 0 <= j < k ==> |rings[j]| > 3 && rings[j][0] != i) {
      InStart(poly, i);
      ClippedUpTo(poly, start, rings, rest, k);
      Remains(poly, start, rings[..k], rings[k], i);
      var at :| 0 <= at < |rings[k]| && rings[k][at] == i;
    }
  }

  lemma InStart(poly: seq<Point>, i: nat)
    requires i < |poly|
    ensures i in StartRing(poly)
  {
    assert StartRing(poly)[if Area2(poly) > 0.0 then i else |poly| - 1 - i] == i;
  }

  /** When the clipping ends early, every remaining vertex turns right or not at all, or another remaining
      vertex is an average of it and its neighbours. */
  lemma NoEarMeans(poly: seq<Point>, ts: seq<Triangle>, rings: seq<Ring>, rest: Ring, m: nat)
    requires Triangulates(poly, ts, rings, rest) && |poly| >= 3 && !Complete(poly, ts) && m < |rest|
    ensures forall i {:trigger rest[i]} :: 0 <= i < |rest| ==> rest[i] < |poly|
    ensures var a, b, c := poly[rest[if m == 0 then |rest| - 1 else m - 1]], poly[rest[m]], poly[rest[if m + 1 == |rest| then 0 else m + 1]];
            b.Sub(a).Cross(c.Sub(a)) <= 0.0
            || exists i :: 0 <= i < |rest| && InHull(poly[rest[i]], a, b, c)
                           && rest[i] !in {rest[if m == 0 then |rest| - 1 else m - 1], rest[m], rest[if m + 1 == |rest| then 0 else m + 1]}
  {
    hide InHull, Clipped;
    CompleteOrNoEar(poly, ts, rings, rest);
    ClippedValid(poly, StartRing(poly), rings, rest);
    IndicesValid(poly, rest);
    var turned := Turn(rest, m);
    assert FirstTurnsFail(poly, rest, |rest|) && !IsEar(poly, turned);
    assert forall i :: 0 <= i < |rest| ==> turned[i] == rest[if i < |rest| - m then i + m else i - (|rest| - m)];
    assert EarOf(poly, turned) == Triangle(poly[rest[if m == 0 then |rest| - 1 else m - 1]], poly[rest[m]],
                                           poly[rest[if m + 1 == |rest| then 0 else m + 1]]);
  }

  lemma RestTriangle(poly: seq<Point>, rest: Ring, p: Point)
    requires ValidRing(poly, rest) && |rest| == 3
    ensures Area2(PointsOf(poly, rest)) == TriangleArea2(LastTriangle(poly, rest))
    ensures Inside(p, PointsOf(poly, rest)) == Inside(p, Corners(LastTriangle(poly, rest)))
  {
    hide Inside, Area2, TriangleArea2;
    var t := LastTriangle(poly, rest);
    assert PointsOf(poly, rest) == [t.a, t.b, t.c];
    Area2Triangle(t.a, t.b, t.c);
  }

  lemma SumSnoc(ts: seq<Triangle>, t: Triangle, p: Point)
    ensures AreaSum(ts + [t]) == AreaSum(ts) + TriangleArea2(t)
    ensures OddIn(p, ts + [t]) == (OddIn(p, ts) != Inside(p, Corners(t)))
  {
    hide Inside, TriangleArea2;
    assert (ts + [t])[..|ts|] == ts;
  }

  function Magnitude(a: real): real { if a > 0.0 then a else -a }

  /** Ear clipping conserves area: the doubled areas of a complete triangulation add up to the absolute
      shoelace sum, and every ear's is positive; a polygon of three points keeps its direction, so for it that
      holds exactly when the shoelace sum is not negative. */
  lemma AreaConserved(poly: seq<Point>, ts: seq<Triangle>, rings: seq<Ring>, rest: Ring)
    requires Triangulates(poly, ts, rings, rest) && Complete(poly, ts)
    ensures |poly| == 3 ==> AreaSum(ts) == Area2(poly)
    ensures AreaSum(ts) == Magnitude(Area2(poly)) <==> |poly| > 3 || Area2(poly) >= 0.0
    ensures |poly| > 3 ==> forall k :: 0 <= k < |rings| ==> TriangleArea2(ts[k]) > 0.0
  {
    if |poly| == 3 {
      SumSnoc([], ts[0], poly[0]);
      assert [] + [ts[0]] == ts && poly == [poly[0], poly[1], poly[2]];
      Area2Triangle(poly[0], poly[1], poly[2]);
    } else {
      ClippedArea(poly, ts, rings, rest);
    }
  }

  lemma ClippedArea(poly: seq<Point>, ts: seq<Triangle>, rings: seq<Ring>, rest: Ring)
    requires Triangulates(poly, ts, rings, rest) && |poly| > 3
    ensures Complete(poly, ts) ==> AreaSum(ts) == Magnitude(Area2(poly))
    ensures forall k :: 0 <= k < |rings| ==> TriangleArea2(ts[k]) > 0.0
  {
    var p := Point(0.0, 0.0);
    StartKeeps(poly, p);
    Conserved(poly, StartRing(poly), rings, rest, p);
    if Complete(poly, ts) {
      hide Inside, Area2, TriangleArea2, NoEar;
      RestTriangle(poly, rest, p);
      SumSnoc(Ears(poly, rings), LastTriangle(poly, rest), p);
    }
    forall k | 0 <= k < |rings| ensures TriangleArea2(ts[k]) > 0.0 {
      assert IsEar(poly, rings[k]) && ts[k] == Ears(poly, rings)[k];
    }
  }

  /** Triangulation covers the polygon exactly in parity: a point is inside the polygon by the even-odd
      rule if and only if it is inside an odd number of the triangles by the same rule. */
  lemma ParityConserved(poly: seq<Point>, ts: seq<Triangle>, rings: seq<Ring>, rest: Ring, p: Point)
    requires Triangulates(poly, ts, rings, rest) && Complete(poly, ts)
    ensures Inside(p, poly) == OddIn(p, ts)
  {
    hide Inside, Area2, TriangleArea2, NoEar;
    if |poly| == 3 {
      assert poly == Corners(ts[0]);
      SumSnoc([], ts[0], p);
      assert [] + [ts[0]] == ts;
    } else {
      StartKeeps(poly, p);
      Conserved(poly, StartRing(poly), rings, rest, p);
      RestTriangle(poly, rest, p);
      SumSnoc(Ears(poly, rings), LastTriangle(poly, rest), p);
    }
  }

  lemma {:induction false} OddInSome(p: Point, ts: seq<Triangle>)
    requires OddIn(p, ts)
    ensures exists k :: 0 <= k < |ts| && Inside(p, Corners(ts[k]))
    decreases |ts|
  {
    hide Inside;
    var n := |ts| - 1;
    if !Inside(p, Corners(ts[n])) { OddInSome(p, ts[..n]); }
  }

  /** TrianglesContainPoint. */
  predicate SomeContains(p: Point, ts: seq<Triangle>) {
    exists k :: 0 <= k < |ts| && PointInTriangle(p, ts[k].a, ts[k].b, ts[k].c)
  }

  method TrianglesContainPoint(p: Point, ts: seq<Triangle>) returns (ok: bool)
    ensures ok == SomeContains(p, ts)
  {
    hide PointInTriangle;
    for k := 0 to |ts|
      invariant forall j :: 0 <= j < k ==> !PointInTriangle(p, ts[j].a, ts[j].b, ts[j].c)
    {
      if PointInTriangle(p, ts[k].a, ts[k].b, ts[k].c) { return true; }
    }
    return false;
  }

  /** Every point inside the polygon is found in some triangle of a complete triangulation, properly
      surrounded by its corners. */
  lemma InsideIsCovered(poly: seq<Point>, ts: seq<Triangle>, rings: seq<Ring>, rest: Ring, p: Point)
    requires Triangulates(poly, ts, rings, rest) && Complete(poly, ts) && Inside(p, poly)
    ensures SomeContains(p, ts)
    ensures exists k :: 0 <= k < |ts| && Surrounded(p, ts[k].a, ts[k].b, ts[k].c)
  {
    hide Inside, PointInTriangle, Surrounded, Triangulates;
    ParityConserved(poly, ts, rings, rest, p);
    OddInSome(p, ts);
    var k :| 0 <= k < |ts| && Inside(p, Corners(ts[k]));
    OddIsSurrounded(p, ts[k]);
  }

  /** The corners of the triangles are points of the polygon. */
  lemma CornersFromPolygon(poly: seq<Point>, ts: seq<Triangle>, rings: seq<Ring>, rest: Ring, k: nat)
    requires Triangulates(poly, ts, rings, rest) && k < |ts|
    ensures ts[k].a in poly && ts[k].b in poly && ts[k].c in poly
  {
    if |poly| > 3 {
      ClippedValid(poly, StartRing(poly), rings, rest);
      if k < |rings| {
        var ring := rings[k];
        assert ts[k] == EarOf(poly, ring);
        IndicesValid(poly, ring);
      } else {
        IndicesValid(poly, rest);
      }
    }
  }
}
