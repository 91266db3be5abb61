/** A simple polygon of four corners or more has two ears that are not neighbours, so ear clipping goes through: from the
    lowest corner either its own ear can be cut off, or a chord to the deepest corner in it cuts the ring in two. */
module EarsExist {
  import opened Plane
  import opened EvenOdd
  import opened EarClipping
  import opened Triangulation
  import opened Segments
  import opened Polygons
  import opened Boundaries
  import opened Interiors
  import opened Orientations

  // ---- corners and their edges --------------------------------------------------------------------------------

  lemma OneNext(s: seq<Point>, v: Point, b: Point, y: Point)
    requires Clean(s) && IsEdge(s, v, b) && IsEdge(s, v, y)
    ensures y == b
  {
    CleanDistinct(s);
    hide Clean;
    var i :| EdgeAt(s, i, v, b);
    var j :| EdgeAt(s, j, v, y);
    assert i == j;
  }

  lemma OneBefore(s: seq<Point>, c: Point, v: Point, x: Point)
    requires Clean(s) && IsEdge(s, c, v) && IsEdge(s, x, v)
    ensures x == c
  {
    CleanDistinct(s);
    hide Clean;
    var i :| EdgeAt(s, i, c, v);
    var j :| EdgeAt(s, j, x, v);
    assert Next(i, |s|) == Next(j, |s|);
    NextOnce(i, j, |s|);
  }

  lemma NextOnce(i: nat, j: nat, n: nat)
    requires i < n && j < n && Next(i, n) == Next(j, n)
    ensures i == j
  {}

  /** The edges through a corner are its own two. */
  lemma ThroughCorner(s: seq<Point>, c: Point, v: Point, b: Point, x: Point, y: Point)
    requires Clean(s) && IsEdge(s, c, v) && IsEdge(s, v, b) && IsEdge(s, x, y) && OnSegment(v, x, y)
    ensures (x == c && y == v) || (x == v && y == b)
  {
    EndIsOn(v, b);
    hide OnSegment, IsEdge;
    if (x, y) != (v, b) {
      assert OnlyCorners(x, y, v, b);
      if x == v { OneNext(s, v, b, y); } else { OneBefore(s, c, v, x); }
    }
  }

  lemma CornerOf(s: seq<Point>, i: nat)
    requires Clean(s) && i < |s|
    ensures IsEdge(s, s[i], s[Next(i, |s|)]) && IsEdge(s, s[if i == 0 then |s| - 1 else i - 1], s[i])
  {
    assert EdgeAt(s, i, s[i], s[Next(i, |s|)]);
    var j := if i == 0 then |s| - 1 else i - 1;
    assert EdgeAt(s, j, s[j], s[i]);
  }

  /** A corner on an edge is one of its ends. */
  lemma CornerOnEdge(s: seq<Point>, i: nat, x: Point, y: Point)
    requires Clean(s) && i < |s| && IsEdge(s, x, y) && OnSegment(s[i], x, y)
    ensures Corner(s[i], x, y)
  {
    CornerOf(s, i);
    ThroughCorner(s, s[if i == 0 then |s| - 1 else i - 1], s[i], s[Next(i, |s|)], x, y);
  }

  // ---- below the lowest corner -----------------------------------------------------------------------------------

  predicate NotBelow(v: Point, q: Point) { q.y > v.y || (q.y == v.y && q.x >= v.x) }

  predicate Lowest(s: seq<Point>, v: Point) { forall i {:trigger s[i]} :: 0 <= i < |s| ==> NotBelow(v, s[i]) }

  lemma {:induction false} LowestUpTo(s: seq<Point>, n: nat) returns (i: nat)
    requires 0 < n <= |s|
    ensures i < n && forall j {:trigger s[j]} :: 0 <= j < n ==> NotBelow(s[i], s[j])
    decreases n
  {
    if n == 1 {
      i := 0;
    } else {
      i := LowestUpTo(s, n - 1);
      if !NotBelow(s[i], s[n - 1]) { i := n - 1; }
    }
  }

  /** Nothing is inside below all corners. */
  lemma {:induction false} BelowChain(p: Point, s: seq<Point>)
    requires forall i {:trigger s[i]} :: 0 <= i < |s| ==> s[i].y > p.y
    ensures !Chain(p, s)
    decreases |s|
  {
    if |s| >= 2 { BelowChain(p, s[1..]); }
  }

  lemma BelowAll(p: Point, s: seq<Point>)
    requires forall i {:trigger s[i]} :: 0 <= i < |s| ==> s[i].y > p.y
    ensures !Inside(p, s)
  {
    BelowChain(p, s);
  }

  lemma LowerStill(s: seq<Point>, v: Point, p: Point, m: real)
    requires Lowest(s, v) && p.y < v.y && m < 1.0
    ensures forall i {:trigger s[i]} :: 0 <= i < |s| ==> s[i].y > On(p, v, m).y
  {
    OnIs(p, v, m);
    MulWhole(v.y - p.y, m);
    WeighedSign(1.0 - m, v.y - p.y);
    hide On, Mul;
    assert On(p, v, m).y < v.y by { MulTurned(1.0 - m, v.y - p.y); }
  }

  /** From below, on the other side of the edge from v to b than c, one comes to that edge close to v. */
  lemma PlaceAtFirst(s: seq<Point>, c: Point, v: Point, b: Point, p: Point) returns (q: Point, r: Point)
    requires Clean(s) && IsEdge(s, c, v) && IsEdge(s, v, b) && Lowest(s, v) && p.y < v.y
    requires (Orient(v, b, p) < 0.0 && Orient(v, b, c) >= 0.0) || (Orient(v, b, p) > 0.0 && Orient(v, b, c) <= 0.0)
    ensures Beside(s, v, b, q, r) && !Inside(q, s)
    ensures Orient(v, b, q) > 0.0 <==> Orient(v, b, p) > 0.0
    ensures forall i {:trigger s[i]} :: 0 <= i < |s| ==> s[i].y > q.y
  {
    EdgeEndsDiffer(s, v, b);
    OrientEnds(v, b);
    var k := CloseEnough(s, p, b, v);
    assert PairClear(s, p, b, v, k);
    var m := (k + 1.0) / 2.0;
    assert PairClear(s, p, b, v, m);
    q, r := On(p, v, m), On(b, v, m);
    LowerStill(s, v, p, m);
    BelowAll(q, s);
    OnTurnedAt(b, v, m);
    OnAtOnce(v, b, 1.0 - m);
    assert OnSegment(r, v, b);
    SegmentInBox(r, v, b);
    SameSideOf(v, b, p, v, m);
    hide Orient, On, OnSegment, Clean, IsEdge, Inside, OnSome, PairClear;
    forall t: real | 0.0 <= t < 1.0 ensures !OnSome(s, On(q, r, t)) {
      TurnAlong(v, b, q, r, t);
      NotOnRing(s, c, v, b, p, m, t);
    }
    assert Reaches(s, q, r);
  }

  lemma NotOnRing(s: seq<Point>, c: Point, v: Point, b: Point, p: Point, m: real, t: real)
    requires Clean(s) && IsEdge(s, c, v) && IsEdge(s, v, b) && PairClear(s, p, b, v, m) && 0.0 <= t < 1.0
    requires var z := On(On(p, v, m), On(b, v, m), t);
             (Orient(v, b, z) < 0.0 && Orient(v, b, c) >= 0.0) || (Orient(v, b, z) > 0.0 && Orient(v, b, c) <= 0.0)
    ensures !OnSome(s, On(On(p, v, m), On(b, v, m), t))
  {
    var z := On(On(p, v, m), On(b, v, m), t);
    OrientEnds(v, b);
    hide Orient, On, OnSegment, Clean, IsEdge;
    forall x, y | IsEdge(s, x, y) ensures !OnSegment(z, x, y) {
      if OnSegment(v, x, y) {
        ThroughCorner(s, c, v, b, x, y);
        if OnSegment(z, x, y) { OnOwnEdge(v, b, c, x, y, z); }
      } else {
        assert Between2(x, y, p, b, v, m);
      }
    }
  }

  /** Points of the two edges of v are on the line of the second or on the side of the first. */
  lemma OnOwnEdge(v: Point, b: Point, c: Point, x: Point, y: Point, z: Point)
    requires OnSegment(z, x, y) && ((x == c && y == v) || (x == v && y == b))
    ensures Orient(v, b, c) >= 0.0 ==> Orient(v, b, z) >= 0.0
    ensures Orient(v, b, c) <= 0.0 ==> Orient(v, b, z) <= 0.0
  {
    var k :| 0.0 <= k <= 1.0 && z == On(x, y, k);
    OrientAlong(v, b, x, y, k);
    OrientEnds(v, b);
    hide Orient, On;
    MulSign(1.0 - k, Orient(v, b, x));
    MulSign(k, Orient(v, b, y));
  }

  /** The same for the edge from c to v. */
  lemma PlaceAtLast(s: seq<Point>, c: Point, v: Point, b: Point, p: Point) returns (q: Point, r: Point)
    requires Clean(s) && IsEdge(s, c, v) && IsEdge(s, v, b) && Lowest(s, v) && p.y < v.y
    requires Orient(c, v, p) < 0.0 && Orient(c, v, b) >= 0.0
    ensures Beside(s, c, v, q, r) && !Inside(q, s) && Orient(c, v, q) < 0.0
    ensures forall i {:trigger s[i]} :: 0 <= i < |s| ==> s[i].y > q.y
  {
    var z := Reversed(s);
    ReversedClean(s);
    ReversedEdge(s, v, c);
    ReversedEdge(s, b, v);
    ReversedLowest(s, v);
    OrientSwap(c, v, p);
    OrientSwap(c, v, b);
    hide Orient, Clean, IsEdge, Inside, OnSegment, OnSome, On;
    q, r := PlaceAtFirst(z, b, v, c, p);
    OrientSwap(c, v, q);
    OnTurned(r, v, c);
    InsideReversed(q, s);
    forall t: real | 0.0 <= t < 1.0 ensures !OnSome(s, On(q, r, t)) {
      ReachesOff(z, q, r, t);
      ReversedOnSome(s, On(q, r, t));
    }
    assert Reaches(s, q, r);
    forall i | 0 <= i < |s| ensures s[i].y > q.y { assert z[|s| - 1 - i] == s[i]; }
  }

  lemma ReversedLowest(s: seq<Point>, v: Point)
    requires Lowest(s, v)
    ensures Lowest(Reversed(s), v)
  {
    forall i | 0 <= i < |s| ensures NotBelow(v, Reversed(s)[i]) { assert Reversed(s)[i] == s[|s| - 1 - i]; }
  }

  /** A point below the lowest corner, opposite to its two edges. */
  function Opposite3(a: Point, v: Point, b: Point): Point { Point(3.0 * v.x - a.x - b.x, 3.0 * v.y - a.y - b.y) }

  lemma OppositeTurns(a: Point, v: Point, b: Point)
    ensures Orient(v, b, Opposite3(a, v, b)) == -Orient(a, v, b) && Orient(a, v, Opposite3(a, v, b)) == -Orient(a, v, b)
  {
    var ax, ay, bx, bz := a.x - v.x, a.y - v.y, b.x - v.x, b.y - v.y;
    var p := Opposite3(a, v, b);
    assert p.x - v.x == -ax - bx && p.y - v.y == -ay - bz;
    assert Orient(a, v, b) == -ax * (bz - ay) - -ay * (bx - ax);
    assert Orient(v, b, p) == bx * (-ay - bz) - bz * (-ax - bx);
    assert p.x - a.x == -ax - bx - ax && p.y - a.y == -ay - bz - ay;
    assert Orient(a, v, p) == -ax * (-ay - bz - ay) - -ay * (-ax - bx - ax);
  }

  lemma OppositeBelow(a: Point, v: Point, b: Point)
    requires NotBelow(v, a) && NotBelow(v, b) && Orient(a, v, b) != 0.0
    ensures Opposite3(a, v, b).y < v.y
  {
    if a.y == v.y && b.y == v.y { LevelTurn(a, v, b); }
  }

  lemma LevelTurn(a: Point, v: Point, b: Point)
    requires a.y == v.y && b.y == v.y
    ensures Orient(a, v, b) == 0.0
  {}

  /** The lowest corner of a ring with its inside on the left turns left. */
  lemma LowestTurnsLeft(s: seq<Point>)
    requires |s| >= 4 && Clean(s) && Sided(s) && Lowest(s, s[0])
    ensures Positive(EarAt(s))
  {
    var t := EarAt(s);
    var a, v, b := t.a, t.b, t.c;
    SideEdges(s);
    CleanDistinct(s);
    assert NotBelow(v, s[|s| - 1]) && NotBelow(v, s[1]);
    OrientRotates(a, v, b);
    if Orient(a, v, b) == 0.0 {
      LowestNotBetween(s, a, v, b);
    } else if Orient(a, v, b) < 0.0 {
      OppositeTurns(a, v, b);
      OppositeBelow(a, v, b);
      hide Orient, Clean, Inside, OnSegment, Reaches;
      var q, r := PlaceAtFirst(s, a, v, b, Opposite3(a, v, b));
      NotSided(s, v, b, q, r);
    }
  }

  lemma NotSided(s: seq<Point>, x: Point, y: Point, p: Point, r: Point)
    requires Beside(s, x, y, p, r) && Orient(x, y, p) > 0.0 && !Inside(p, s)
    ensures !Sided(s)
  {
    hide Orient, Inside, OnSegment, Reaches, IsEdge;
    assert Sided(s) ==> LeftIsInside(s, x, y);
  }

  lemma LowestNotBetween(s: seq<Point>, a: Point, v: Point, b: Point)
    requires Clean(s) && IsEdge(s, a, v) && IsEdge(s, v, b) && a != b && NotBelow(v, a) && NotBelow(v, b)
    ensures Orient(a, v, b) != 0.0
  {
    EdgeEndsDiffer(s, a, v);
    if Orient(a, v, b) == 0.0 {
      var t := StraightOn(s, a, v, b);
      OnIs(a, b, t);
      Lexical(a.y, b.y, v.y, t);
      Lexical(a.x, b.x, v.x, t);
      hide On, Mul, Orient;
    }
  }

  lemma Lexical(a: real, b: real, v: real, t: real)
    requires 0.0 < t < 1.0 && v == a + Mul(b - a, t)
    ensures a >= v && b >= v ==> a == v && b == v
  {
    assert v == Mul(1.0 - t, a) + Mul(t, b);
    assert Mul(1.0 - t, a - v) + Mul(t, b - v) == 0.0;
    hide Mul;
    WeighedSign(1.0 - t, a - v);
    WeighedSign(t, b - v);
    MulSign(1.0 - t, a - v);
    MulSign(t, b - v);
  }
  // ---- cutting the lowest corner off -----------------------------------------------------------------------------------

  /** The inside is on the left of every edge also without the ear. */
  lemma SidedCut(s: seq<Point>)
    requires |s| >= 4 && Clean(s) && Sided(s) && Empty(s)
    ensures Clean(s[1..]) && Sided(s[1..])
  {
    var t, z := EarAt(s), s[1..];
    CleanCut(s);
    EmptyPositive(s);
    SideEdges(s);
    var g, r := Middle(t), On(t.a, t.c, 0.5);
    MiddleWithin(t);
    EarIsInside(s, g);
    WithinIsOdd(t, g);
    InsideClipped(g, s);
    assert OnSegment(r, t.a, t.c);
    ThirdSideHad(t, r);
    CornersHad(t);
    HalfWay(t.a, t.c);
    CleanDistinct(s);
    CutEdges(s, t.a, t.c);
    OrientSwap(t.a, t.c, g);
    hide Orient, On, OnSegment, IsEdge, Clean, Empty, Inside, Middle, OnSome;
    forall k: real | 0.0 <= k < 1.0 ensures !OnSome(z, On(g, r, k)) {
      TurnAlong(t.a, t.b, g, r, k);
      TurnAlong(t.b, t.c, g, r, k);
      TurnAlong(t.c, t.a, g, r, k);
      EarIsClear(s, On(g, r, k));
    }
    assert Reaches(z, g, r);
    SidedByPlace(z, t.a, t.c, g, r);
  }

  /** Points strictly within an ear are inside the ring. */
  lemma EarIsInside(s: seq<Point>, g: Point)
    requires |s| >= 4 && Clean(s) && Sided(s) && Empty(s) && Within(EarAt(s), g)
    ensures Inside(g, s)
  {
    var t := EarAt(s);
    EmptyPositive(s);
    SideEdges(s);
    CornersHad(t);
    CleanDistinct(s);
    var r := On(t.a, t.b, 0.5);
    HalfWay(t.a, t.b);
    assert OnSegment(r, t.a, t.b);
    BetweenEnds(t, r);
    hide Orient, On, OnSegment, IsEdge, Clean, Empty, Inside, OnSome;
    forall k: real | 0.0 <= k < 1.0 ensures !OnSome(s, On(g, r, k)) {
      TurnAlong(t.a, t.b, g, r, k);
      TurnAlong(t.b, t.c, g, r, k);
      TurnAlong(t.c, t.a, g, r, k);
      EarIsClear(s, On(g, r, k));
    }
    assert Reaches(s, g, r);
    assert LeftIsInside(s, t.a, t.b);
  }

  /** Three corners with the inside on the left turn left. */
  lemma ThreeTurnLeft(s: seq<Point>)
    requires |s| == 3 && Clean(s) && Sided(s)
    ensures Positive(Triangle(s[0], s[1], s[2]))
  {
    var i := LowestUpTo(s, 3);
    var z := Turned(s, i);
    TurnedSame(s, i);
    TurnedBack(s, i);
    SameClean(s, z);
    SameSided(s, z);
    CleanDistinct(z);
    var a, v, b := z[2], z[0], z[1];
    assert v == s[i] && NotBelow(v, a) && NotBelow(v, b) && Lowest(z, v);
    assert EdgeAt(z, 2, a, v) && EdgeAt(z, 0, v, b);
    OrientRotates(s[0], s[1], s[2]);
    OrientRotates(s[1], s[2], s[0]);
    OrientRotates(a, v, b);
    LowestNotBetween(z, a, v, b);
    if Orient(a, v, b) < 0.0 {
      OppositeTurns(a, v, b);
      OppositeBelow(a, v, b);
      hide Orient, Clean, Inside, OnSegment, Reaches;
      var q, r := PlaceAtFirst(z, a, v, b, Opposite3(a, v, b));
      NotSided(z, v, b, q, r);
    }
  }

  lemma TurnedBack(s: seq<Point>, m: nat)
    requires |s| >= 2 && m <= |s|
    ensures SameRing(Turned(s, m), s)
  {
    var z := Turned(s, m);
    TurnedSame(z, |s| - m);
    assert Turned(z, |s| - m) == s;
  }

  // ---- ears by their corners ------------------------------------------------------------------------------------------

  /** The corner u with its neighbours x and y is an ear of the ring. */
  ghost predicate EarAtCorner(s: seq<Point>, x: Point, u: Point, y: Point) {
    && IsEdge(s, x, u) && IsEdge(s, u, y) && Positive(Triangle(x, u, y))
    && forall q :: q in s && q != x && q != u && q != y ==> !Has(Triangle(x, u, y), q)
  }

  /** Turned so that it begins with an ear. */
  lemma EarInFront(s: seq<Point>, x: Point, u: Point, y: Point) returns (m: nat)
    requires Clean(s) && EarAtCorner(s, x, u, y)
    ensures m < |s| && SameRing(s, Turned(s, m)) && SameRing(Turned(s, m), s) && Clean(Turned(s, m))
    ensures Empty(Turned(s, m)) && EarAt(Turned(s, m)) == Triangle(x, u, y)
  {
    hide Orient, Has, OnlyCorners;
    var i :| EdgeAt(s, i, u, y);
    m := i;
    var z := Turned(s, m);
    TurnedSame(s, m);
    TurnedBack(s, m);
    SameClean(s, z);
    CleanDistinct(z);
    CornerOf(s, m);
    OneBefore(s, x, u, s[if m == 0 then |s| - 1 else m - 1]);
    FrontOf(s, m);
    forall k | 2 <= k < |z| - 1 ensures !Has(EarAt(z), z[k]) {
      assert z[k] in s;
      assert z[k] != z[0] && z[k] != z[1] && z[k] != z[|z| - 1];
    }
  }

  lemma FrontOf(s: seq<Point>, m: nat)
    requires |s| >= 3 && m < |s|
    ensures var z := Turned(s, m);
            z[0] == s[m] && z[1] == s[Next(m, |s|)] && z[|z| - 1] == s[if m == 0 then |s| - 1 else m - 1]
    ensures forall q :: q in Turned(s, m) <==> q in s
  {
    assert s == s[..m] + s[m..];
  }
  // ---- a chord from the lowest corner ---------------------------------------------------------------------------------

  /** How far a point is from the third side of the ear of the first corner. */
  function Depth(s: seq<Point>, q: Point): real
    requires |s| >= 3
  {
    Orient(EarAt(s).c, EarAt(s).a, q)
  }

  /** Corner j is in the ear of the first corner, and no other one in it is deeper. */
  ghost predicate Deepest(s: seq<Point>, j: nat) {
    && |s| >= 4 && 2 <= j < |s| - 1 && Has(EarAt(s), s[j])
    && forall i {:trigger s[i]} :: 2 <= i < |s| - 1 && Has(EarAt(s), s[i]) ==> Depth(s, s[i]) <= Depth(s, s[j])
  }

  lemma {:induction false} DeepestUpTo(s: seq<Point>, n: nat, first: nat) returns (j: nat)
    requires |s| >= 4 && 2 <= first < n <= |s| - 1 && Has(EarAt(s), s[first])
    ensures 2 <= j < n && Has(EarAt(s), s[j])
    ensures forall i {:trigger s[i]} :: 2 <= i < n && Has(EarAt(s), s[i]) ==> Depth(s, s[i]) <= Depth(s, s[j])
    decreases n
  {
    hide Has, Depth;
    if exists i :: 2 <= i < n - 1 && Has(EarAt(s), s[i]) {
      var i :| 2 <= i < n - 1 && Has(EarAt(s), s[i]);
      j := DeepestUpTo(s, n - 1, i);
      if Has(EarAt(s), s[n - 1]) && Depth(s, s[n - 1]) > Depth(s, s[j]) { j := n - 1; }
    } else {
      j := first;
      assert first == n - 1;
    }
  }

  /** The deepest corner is strictly on the left of both sides. */
  lemma DeepestStrict(s: seq<Point>, j: nat)
    requires Clean(s) && Deepest(s, j) && Positive(EarAt(s))
    ensures Orient(EarAt(s).a, EarAt(s).b, s[j]) > 0.0 && Orient(EarAt(s).b, EarAt(s).c, s[j]) > 0.0
    ensures 0.0 <= Depth(s, s[j]) < Depth(s, s[0])
  {
    var t := EarAt(s);
    SideEdges(s);
    CleanDistinct(s);
    OnSide(t, s[j]);
    TurnsAddUp(s[j], t.a, t.b, t.c);
    OrientRotates(t.a, t.b, t.c);
    OrientRotates(t.b, t.c, t.a);
    assert s[j] != s[0] && s[j] != s[1] && s[j] != s[|s| - 1];
    hide Orient, OnSegment, Clean, IsEdge;
    if OnSegment(s[j], t.a, t.b) { CornerOnEdge(s, j, t.a, t.b); }
    if OnSegment(s[j], t.b, t.c) { CornerOnEdge(s, j, t.b, t.c); }
  }

  /** Along the chord, short of its ends. */
  lemma ChordTurns(s: seq<Point>, j: nat, k: real)
    requires Clean(s) && Deepest(s, j) && Positive(EarAt(s)) && 0.0 < k < 1.0
    ensures var r := On(s[0], s[j], k);
            && Has(EarAt(s), r) && Depth(s, r) > Depth(s, s[j])
            && Orient(EarAt(s).a, EarAt(s).b, r) > 0.0 && Orient(EarAt(s).b, EarAt(s).c, r) > 0.0
  {
    var t, v, w := EarAt(s), s[0], s[j];
    DeepestStrict(s, j);
    OrientAlong(t.a, t.b, v, w, k);
    OrientAlong(t.b, t.c, v, w, k);
    OrientAlong(t.c, t.a, v, w, k);
    OrientEnds(t.a, t.b);
    OrientEnds(t.b, t.c);
    MulSub(1.0, k, Depth(s, v));
    var dv, dw := Depth(s, v), Depth(s, w);
    hide Orient, On;
    WeighedSign(k, Orient(t.a, t.b, w));
    WeighedSign(k, Orient(t.b, t.c, w));
    TimesZero(1.0 - k);
    WeighedSign(1.0 - k, dv - dw);
    assert Mul(1.0 - k, dv) + Mul(k, dw) == dw + Mul(1.0 - k, dv - dw);
  }

  /** No edge meets the chord between its ends. */
  lemma ChordIsFree(s: seq<Point>, j: nat, k: real)
    requires Clean(s) && Deepest(s, j) && Positive(EarAt(s)) && 0.0 < k < 1.0
    ensures !OnSome(s, On(s[0], s[j], k))
  {
    var r := On(s[0], s[j], k);
    ChordTurns(s, j, k);
    DeepestStrict(s, j);
    hide Orient, On, OnSegment, Clean, IsEdge, Has, Deepest;
    forall x, y | IsEdge(s, x, y) ensures !OnSegment(r, x, y) {
      if IsSide(s, x, y) {
        if OnSegment(r, x, y) { SegmentInBox(r, x, y); }
      } else if OnSegment(r, x, y) {
        EdgeOverChord(s, j, x, y, r);
      }
    }
  }

  /** An edge that meets the chord would have a deeper end, and so pass a side of the ear. */
  lemma EdgeOverChord(s: seq<Point>, j: nat, x: Point, y: Point, r: Point)
    requires Clean(s) && Deepest(s, j) && Positive(EarAt(s)) && IsEdge(s, x, y) && !IsSide(s, x, y) && OnSegment(r, x, y)
    requires Has(EarAt(s), r)
    ensures Depth(s, r) <= Depth(s, s[j])
  {
    var t := EarAt(s);
    DeepestStrict(s, j);
    SideEdges(s);
    CornersHad(t);
    NotFirst(s, x, y);
    hide Orient, On, OnSegment, Clean, Has, Deepest;
    if Depth(s, r) > Depth(s, s[j]) {
      var e := DeeperEnd(t, x, y, r);
      EndOutside(s, j, x, y, e);
      var q := LeavesThrough(t, r, e);
      TowardsEnd(x, y, r, e, q);
      SideMeets(s, x, y, q);
      SideHas(t, q);
    }
  }

  lemma SideHas(t: Triangle, q: Point)
    requires Positive(t) && (OnSegment(q, t.a, t.b) || OnSegment(q, t.b, t.c))
    ensures Has(t, q)
  {
    hide OnSegment;
    if OnSegment(q, t.a, t.b) { SideHad(t, t.a, t.b, q); } else { SideHad(t, t.b, t.c, q); }
  }

  /** Other edges do not end in the first corner. */
  lemma NotFirst(s: seq<Point>, x: Point, y: Point)
    requires Clean(s) && IsEdge(s, x, y) && !IsSide(s, x, y)
    ensures x != EarAt(s).b && y != EarAt(s).b
  {
    SideEdges(s);
    hide IsEdge, Clean;
    var t := EarAt(s);
    if x == t.b { OneNext(s, t.b, t.c, y); }
    if y == t.b { OneBefore(s, t.a, t.b, x); }
  }

  lemma DeeperEnd(t: Triangle, x: Point, y: Point, r: Point) returns (e: Point)
    requires OnSegment(r, x, y)
    ensures Corner(e, x, y) && Orient(t.c, t.a, e) >= Orient(t.c, t.a, r)
  {
    var k :| 0.0 <= k <= 1.0 && r == On(x, y, k);
    OrientAlong(t.c, t.a, x, y, k);
    var u, v := Orient(t.c, t.a, x), Orient(t.c, t.a, y);
    assert Mul(1.0 - k, u) + Mul(k, v) == u + Mul(v - u, k);
    Average(u, v, k);
    hide Orient, On, Mul;
    e := if u >= v then x else y;
  }

  lemma EndOutside(s: seq<Point>, j: nat, x: Point, y: Point, e: Point)
    requires Clean(s) && Deepest(s, j) && Positive(EarAt(s)) && IsEdge(s, x, y) && Corner(e, x, y)
    requires e != EarAt(s).b && Depth(s, e) > Depth(s, s[j]) >= 0.0
    ensures !Has(EarAt(s), e)
  {
    var t := EarAt(s);
    CornersHad(t);
    hide Orient, Has, OnlyCorners;
    var i :| EdgeAt(s, i, x, y);
    var m := if e == x then i else Next(i, |s|);
    assert s[m] == e && m != 0 && m != 1 && m != |s| - 1;
  }

  /** A point of another edge on a side of the ear is the side's outer end and an end of the edge. */
  lemma SideMeets(s: seq<Point>, x: Point, y: Point, q: Point)
    requires Clean(s) && |s| >= 4 && IsEdge(s, x, y) && !IsSide(s, x, y) && OnSegment(q, x, y)
    requires OnSegment(q, EarAt(s).a, EarAt(s).b) || OnSegment(q, EarAt(s).b, EarAt(s).c)
    ensures Corner(q, x, y) && Corner(q, EarAt(s).a, EarAt(s).c)
  {
    var t := EarAt(s);
    SideEdges(s);
    NotFirst(s, x, y);
    hide OnSegment, IsEdge;
    assert OnlyCorners(x, y, t.a, t.b) && OnlyCorners(x, y, t.b, t.c);
  }
  // ---- the two rings along the chord ----------------------------------------------------------------------------------

  function FirstPart(s: seq<Point>, j: nat): seq<Point>
    requires j < |s|
  {
    s[..j + 1]
  }

  function SecondPart(s: seq<Point>, j: nat): seq<Point>
    requires 0 < j < |s|
  {
    s[j..] + [s[0]]
  }

  /** Edge i of the ring belongs to the first part, or to the second. */
  lemma FirstEdges(s: seq<Point>, j: nat, x: Point, y: Point)
    requires 2 <= j < |s| - 1 && IsEdge(FirstPart(s, j), x, y)
    ensures (x == s[j] && y == s[0]) || exists i :: 0 <= i < j && EdgeAt(s, i, x, y)
  {
    var i :| EdgeAt(FirstPart(s, j), i, x, y);
    if i < j { assert EdgeAt(s, i, x, y); }
  }

  lemma FirstIsEdge(s: seq<Point>, j: nat, x: Point, y: Point)
    requires 2 <= j < |s| - 1 && IsEdge(FirstPart(s, j), x, y)
    ensures IsChord(s, j, x, y) || IsEdge(s, x, y)
  {
    FirstEdges(s, j, x, y);
  }

  lemma SecondEdges(s: seq<Point>, j: nat, x: Point, y: Point)
    requires 2 <= j < |s| - 1 && IsEdge(SecondPart(s, j), x, y)
    ensures (x == s[0] && y == s[j]) || exists i :: j <= i < |s| && EdgeAt(s, i, x, y)
  {
    var z := SecondPart(s, j);
    var i :| EdgeAt(z, i, x, y);
    if i < |z| - 1 { assert EdgeAt(s, j + i, x, y); }
  }

  lemma FirstEdge(s: seq<Point>, j: nat, i: nat)
    requires 2 <= j < |s| - 1 && i < j
    ensures IsEdge(FirstPart(s, j), s[i], s[i + 1])
  {
    assert EdgeAt(FirstPart(s, j), i, s[i], s[i + 1]);
  }

  lemma SecondEdge(s: seq<Point>, j: nat, i: nat)
    requires 2 <= j < |s| - 1 && j <= i < |s|
    ensures IsEdge(SecondPart(s, j), s[i], s[Next(i, |s|)])
  {
    assert EdgeAt(SecondPart(s, j), i - j, s[i], s[Next(i, |s|)]);
  }

  lemma ChordEdges(s: seq<Point>, j: nat)
    requires 2 <= j < |s| - 1
    ensures IsEdge(FirstPart(s, j), s[j], s[0]) && IsEdge(SecondPart(s, j), s[0], s[j])
  {
    assert EdgeAt(FirstPart(s, j), j, s[j], s[0]);
    assert EdgeAt(SecondPart(s, j), |s| - j, s[0], s[j]);
  }

  /** Between its ends the chord is off the ring. */
  ghost predicate Chord(s: seq<Point>, j: nat) {
    && |s| >= 4 && 2 <= j < |s| - 1
    && forall k: real {:trigger On(s[0], s[j], k)} :: 0.0 < k < 1.0 ==> !OnSome(s, On(s[0], s[j], k))
  }

  lemma DeepestIsChord(s: seq<Point>, j: nat)
    requires Clean(s) && Deepest(s, j) && Positive(EarAt(s))
    ensures Chord(s, j)
  {
    hide On, OnSome, Clean, Orient;
    forall k: real | 0.0 < k < 1.0 ensures !OnSome(s, On(s[0], s[j], k)) { ChordIsFree(s, j, k); }
  }

  /** An edge meets the chord in common corners at most. */
  lemma ChordCorners(s: seq<Point>, j: nat, x: Point, y: Point)
    requires Clean(s) && Chord(s, j) && IsEdge(s, x, y)
    ensures OnlyCorners(x, y, s[0], s[j]) && OnlyCorners(x, y, s[j], s[0])
  {
    hide OnSome, IsEdge, Clean;
    forall r | OnSegment(r, x, y) && (OnSegment(r, s[0], s[j]) || OnSegment(r, s[j], s[0]))
      ensures Corner(r, x, y) && Corner(r, s[0], s[j])
    {
      if OnSegment(r, s[j], s[0]) { OnTurned(r, s[j], s[0]); }
      ChordPoint(s, j, x, y, r);
    }
  }

  lemma ChordPoint(s: seq<Point>, j: nat, x: Point, y: Point, r: Point)
    requires Clean(s) && Chord(s, j) && IsEdge(s, x, y) && OnSegment(r, x, y) && OnSegment(r, s[0], s[j])
    ensures Corner(r, x, y) && Corner(r, s[0], s[j])
  {
    var v, w := s[0], s[j];
    var k :| 0.0 <= k <= 1.0 && r == On(v, w, k);
    OnEnds(v, w);
    assert 0.0 < k < 1.0 ==> !OnSome(s, On(v, w, k));
    hide On, Clean;
    if k == 0.0 {
      CornerOnEdge(s, 0, x, y);
    } else if k == 1.0 {
      CornerOnEdge(s, j, x, y);
    }
  }

  lemma FirstClean(s: seq<Point>, j: nat)
    requires Clean(s) && Chord(s, j)
    ensures Clean(FirstPart(s, j))
  {
    var z := FirstPart(s, j);
    CleanDistinct(s);
    hide OnlyCorners, Chord, On;
    forall x, y, u, v | IsEdge(z, x, y) && IsEdge(z, u, v) && (x, y) != (u, v) ensures OnlyCorners(x, y, u, v) {
      FirstEdges(s, j, x, y);
      FirstEdges(s, j, u, v);
      PartCorners(s, j, x, y, u, v);
    }
  }

  lemma SecondClean(s: seq<Point>, j: nat)
    requires Clean(s) && Chord(s, j)
    ensures Clean(SecondPart(s, j))
  {
    var z := SecondPart(s, j);
    CleanDistinct(s);
    forall i, k | 0 <= i < k < |z| ensures z[i] != z[k] {
      assert z[i] == s[j + i];
      assert z[k] == if k < |z| - 1 then s[j + k] else s[0];
    }
    hide OnlyCorners, Chord, On;
    forall x, y, u, v | IsEdge(z, x, y) && IsEdge(z, u, v) && (x, y) != (u, v) ensures OnlyCorners(x, y, u, v) {
      SecondEdges(s, j, x, y);
      SecondEdges(s, j, u, v);
      PartCorners(s, j, x, y, u, v);
    }
  }

  predicate IsChord(s: seq<Point>, j: nat, x: Point, y: Point)
    requires 0 < j < |s|
  {
    (x == s[j] && y == s[0]) || (x == s[0] && y == s[j])
  }

  lemma PartCorners(s: seq<Point>, j: nat, x: Point, y: Point, u: Point, v: Point)
    requires Clean(s) && Chord(s, j) && (x, y) != (u, v)
    requires IsChord(s, j, x, y) || IsEdge(s, x, y)
    requires IsChord(s, j, u, v) || IsEdge(s, u, v)
    requires !(IsChord(s, j, x, y) && IsChord(s, j, u, v))
    ensures OnlyCorners(x, y, u, v)
  {
    assert 0 < j < |s|;
    hide OnSegment, Chord, IsEdge;
    if IsChord(s, j, x, y) {
      ChordCorners(s, j, u, v);
      OnlyCornersTurned(u, v, s[0], s[j]);
      OnlyCornersTurned(u, v, s[j], s[0]);
    } else if IsChord(s, j, u, v) {
      ChordCorners(s, j, x, y);
    }
  }

  // ---- both parts have their inside on the left ------------------------------------------------------------------------

  lemma PartsLowest(s: seq<Point>, j: nat)
    requires 2 <= j < |s| - 1 && Lowest(s, s[0])
    ensures Lowest(FirstPart(s, j), s[0]) && Lowest(SecondPart(s, j), s[0])
  {
    var z := SecondPart(s, j);
    forall i | 0 <= i < |z| ensures NotBelow(s[0], z[i]) { assert z[i] == if i < |z| - 1 then s[j + i] else s[0]; }
  }

  lemma FirstSided(s: seq<Point>, j: nat)
    requires Clean(s) && Lowest(s, s[0]) && Deepest(s, j) && Positive(EarAt(s))
    ensures Clean(FirstPart(s, j)) && Sided(FirstPart(s, j))
  {
    DeepestIsChord(s, j);
    FirstClean(s, j);
    DeepestStrict(s, j);
    var z, a, v, b := FirstPart(s, j), EarAt(s).a, EarAt(s).b, EarAt(s).c;
    FirstEdge(s, j, 0);
    ChordEdges(s, j);
    PartsLowest(s, j);
    OppositeTurns(a, v, b);
    assert NotBelow(v, s[|s| - 1]) && NotBelow(v, s[1]);
    OppositeBelow(a, v, b);
    hide Orient, Clean, Inside, OnSegment, Reaches, IsEdge;
    var q, r := PlaceAtFirst(z, s[j], v, b, Opposite3(a, v, b));
    SidedByPlace(z, v, b, q, r);
  }

  lemma SecondSided(s: seq<Point>, j: nat)
    requires Clean(s) && Lowest(s, s[0]) && Deepest(s, j) && Positive(EarAt(s))
    ensures Clean(SecondPart(s, j)) && Sided(SecondPart(s, j))
  {
    DeepestIsChord(s, j);
    SecondClean(s, j);
    DeepestStrict(s, j);
    var z, a, v, b := SecondPart(s, j), EarAt(s).a, EarAt(s).b, EarAt(s).c;
    SecondEdge(s, j, |s| - 1);
    ChordEdges(s, j);
    PartsLowest(s, j);
    OppositeTurns(a, v, b);
    assert NotBelow(v, s[|s| - 1]) && NotBelow(v, s[1]);
    OppositeBelow(a, v, b);
    hide Orient, Clean, Inside, OnSegment, Reaches, IsEdge;
    var q, r := PlaceAtLast(z, a, v, s[j], Opposite3(a, v, b));
    SidedByPlace(z, a, v, q, r);
  }

  // ---- each part's other corners are outside of the other part --------------------------------------------------------

  /** Along a segment off the ring nothing changes. */
  lemma FreeSame(s: seq<Point>, x: Point, y: Point)
    requires forall t: real {:trigger On(x, y, t)} :: 0.0 <= t <= 1.0 ==> !OnSome(s, On(x, y, t))
    ensures Inside(x, s) == Inside(y, s)
  {
    ClearAvoids(s, x, y);
    ParityIsConstant(x, y, s);
  }

  /** A point of an edge of the other part, other than the ends of the chord, is off this part. */
  lemma OffFirst(s: seq<Point>, j: nat, i: nat, r: Point)
    requires Clean(s) && Chord(s, j) && j <= i < |s| && OnSegment(r, s[i], s[Next(i, |s|)]) && r != s[0] && r != s[j]
    ensures !OnSome(FirstPart(s, j), r)
  {
    CleanDistinct(s);
    CornerOf(s, i);
    hide OnSegment, Clean, Chord, OnlyCorners;
    forall x, y | IsEdge(FirstPart(s, j), x, y) ensures !OnSegment(r, x, y) {
      FirstEdges(s, j, x, y);
      if OnSegment(r, x, y) { PointOfBoth(s, j, i, x, y, r); }
    }
  }

  lemma PointOfBoth(s: seq<Point>, j: nat, i: nat, x: Point, y: Point, r: Point)
    requires Clean(s) && Chord(s, j) && j <= i < |s| && OnSegment(r, s[i], s[Next(i, |s|)]) && OnSegment(r, x, y)
    requires IsChord(s, j, x, y) || exists k :: 0 <= k < j && EdgeAt(s, k, x, y)
    ensures r == s[0] || r == s[j]
  {
    CornerOf(s, i);
    CleanDistinct(s);
    hide OnSegment, Chord;
    if IsChord(s, j, x, y) {
      ChordCorners(s, j, s[i], s[Next(i, |s|)]);
    } else {
      var k :| 0 <= k < j && EdgeAt(s, k, x, y);
      CornerOf(s, k);
      assert s[i] != s[k];
      assert OnlyCorners(s[i], s[Next(i, |s|)], x, y);
    }
  }

  lemma OffSecond(s: seq<Point>, j: nat, i: nat, r: Point)
    requires Clean(s) && Chord(s, j) && i < j && OnSegment(r, s[i], s[i + 1]) && r != s[0] && r != s[j]
    ensures !OnSome(SecondPart(s, j), r)
  {
    CleanDistinct(s);
    hide OnSegment, Clean, Chord, OnlyCorners;
    forall x, y | IsEdge(SecondPart(s, j), x, y) ensures !OnSegment(r, x, y) {
      SecondEdges(s, j, x, y);
      if OnSegment(r, x, y) { PointOfBothToo(s, j, i, x, y, r); }
    }
  }

  lemma PointOfBothToo(s: seq<Point>, j: nat, i: nat, x: Point, y: Point, r: Point)
    requires Clean(s) && Chord(s, j) && i < j && OnSegment(r, s[i], s[i + 1]) && OnSegment(r, x, y)
    requires IsChord(s, j, x, y) || exists k :: j <= k < |s| && EdgeAt(s, k, x, y)
    ensures r == s[0] || r == s[j]
  {
    CornerOf(s, i);
    hide OnSegment, Chord;
    if IsChord(s, j, x, y) {
      ChordCorners(s, j, s[i], s[i + 1]);
    } else {
      var k :| j <= k < |s| && EdgeAt(s, k, x, y);
      PointOfBoth(s, j, k, s[i], s[i + 1], r);
    }
  }
  /** From below to the last edge close to the lowest corner, and along it to its other end. */
  lemma LastIsOutside(s: seq<Point>, j: nat)
    requires Clean(s) && Lowest(s, s[0]) && Deepest(s, j) && Positive(EarAt(s))
    ensures !OnSome(FirstPart(s, j), s[|s| - 1]) && !Inside(s[|s| - 1], FirstPart(s, j))
  {
    var n, z := |s|, FirstPart(s, j);
    var t := EarAt(s);
    var a, v, b := t.a, t.b, t.c;
    SideEdges(s);
    CleanDistinct(s);
    DeepestIsChord(s, j);
    DeepestStrict(s, j);
    OppositeTurns(a, v, b);
    assert NotBelow(v, s[n - 1]) && NotBelow(v, s[1]) && n - 1 != j;
    OppositeBelow(a, v, b);
    EndIsOn(a, v);
    OffFirst(s, j, n - 1, a);
    hide Orient, Clean, Inside, OnSegment, Reaches, IsEdge, On, OnSome, Deepest;
    var q, r := PlaceAtLast(s, a, v, b, Opposite3(a, v, b));
    BelowAll(q, z);
    WayFromBelow(s, j, q, r);
    FreeSame(z, q, r);
    AlongLast(s, j, r);
    FreeSame(z, r, a);
  }

  lemma WayFromBelow(s: seq<Point>, j: nat, q: Point, r: Point)
    requires Clean(s) && Chord(s, j) && Deepest(s, j) && Positive(EarAt(s))
    requires Beside(s, EarAt(s).a, EarAt(s).b, q, r) && Orient(EarAt(s).a, EarAt(s).b, q) < 0.0
    ensures forall t: real {:trigger On(q, r, t)} :: 0.0 <= t <= 1.0 ==> !OnSome(FirstPart(s, j), On(q, r, t))
  {
    var z, a, v := FirstPart(s, j), EarAt(s).a, EarAt(s).b;
    DeepestStrict(s, j);
    SegmentInBox(r, a, v);
    OnEnds(q, r);
    NotDeepest(s, j, r);
    hide Orient, Clean, OnSegment, Reaches, IsEdge, On, OnSome, Deepest, Chord;
    forall t: real | 0.0 <= t <= 1.0 ensures !OnSome(z, On(q, r, t)) {
      if t < 1.0 {
        ReachesOff(s, q, r, t);
        TurnAlong(a, v, q, r, t);
        BelowChord(s, j, On(q, r, t));
      } else {
        OffFirst(s, j, |s| - 1, r);
      }
    }
  }

  lemma NotDeepest(s: seq<Point>, j: nat, r: Point)
    requires Clean(s) && Deepest(s, j) && Positive(EarAt(s)) && OnSegment(r, EarAt(s).a, EarAt(s).b)
    ensures r != s[j]
  {
    DeepestStrict(s, j);
    SegmentInBox(r, EarAt(s).a, EarAt(s).b);
    hide Orient, OnSegment, Clean;
  }

  /** Off the ring and on the right of its last edge is off the first part. */
  lemma BelowChord(s: seq<Point>, j: nat, q: Point)
    requires Clean(s) && Chord(s, j) && !OnSome(s, q) && Orient(EarAt(s).a, EarAt(s).b, q) < 0.0
    requires Orient(EarAt(s).a, EarAt(s).b, s[j]) > 0.0
    ensures !OnSome(FirstPart(s, j), q)
  {
    var a, v := EarAt(s).a, EarAt(s).b;
    OrientEnds(a, v);
    hide Orient, OnSegment, Chord;
    forall x, y | IsEdge(FirstPart(s, j), x, y) ensures !OnSegment(q, x, y) {
      FirstIsEdge(s, j, x, y);
      if OnSegment(q, x, y) && IsChord(s, j, x, y) { ChordNotRight(a, v, x, y, q); }
    }
  }

  lemma ChordNotRight(a: Point, v: Point, x: Point, y: Point, q: Point)
    requires OnSegment(q, x, y) && Orient(a, v, x) >= 0.0 && Orient(a, v, y) >= 0.0
    ensures Orient(a, v, q) >= 0.0
  {
    var k :| 0.0 <= k <= 1.0 && q == On(x, y, k);
    TurnAlong(a, v, x, y, k);
    hide Orient, On;
  }

  lemma AlongLast(s: seq<Point>, j: nat, r: Point)
    requires Clean(s) && Chord(s, j) && Deepest(s, j) && Positive(EarAt(s))
    requires OnSegment(r, EarAt(s).a, EarAt(s).b) && !Corner(r, EarAt(s).a, EarAt(s).b)
    ensures forall t: real {:trigger On(r, EarAt(s).a, t)} :: 0.0 <= t <= 1.0 ==> !OnSome(FirstPart(s, j), On(r, EarAt(s).a, t))
  {
    var z, a, v := FirstPart(s, j), EarAt(s).a, EarAt(s).b;
    EndIsOn(a, v);
    OnEnds(r, a);
    hide Orient, Clean, OnSegment, On, OnSome, Deepest, Chord;
    forall t: real | 0.0 <= t <= 1.0 ensures !OnSome(z, On(r, a, t)) {
      SubSegment(a, v, r, a, t);
      NotDeepest(s, j, On(r, a, t));
      NotEnd(a, v, r, t);
      OffFirst(s, j, |s| - 1, On(r, a, t));
    }
  }

  lemma NotEnd(a: Point, v: Point, r: Point, t: real)
    requires OnSegment(r, a, v) && !Corner(r, a, v) && 0.0 <= t <= 1.0
    ensures On(r, a, t) != v
  {
    var u :| 0.0 <= u <= 1.0 && r == On(a, v, u);
    OnEnds(a, v);
    assert u < 1.0 && a != v;
    MixedOn(a, v, u, 0.0, t);
    var w := u + Mul(0.0 - u, t);
    assert w == Mul(u, 1.0 - t) by { MulWhole(u, t); MulNeg(u, t); }
    MulSign(u, 1.0 - t);
    MulSign(u, t);
    MulWhole(u, t);
    OnIs(a, v, w);
    hide On, Mul;
    if w > 0.0 { OnAtOnce(a, v, w); }
    assert w == 0.0 ==> On(a, v, w) == a;
  }

  /** So are all corners of the second part, other than the ends of the chord. */
  lemma {:induction false} SecondIsOutside(s: seq<Point>, j: nat, i: nat)
    requires Clean(s) && Lowest(s, s[0]) && Deepest(s, j) && Positive(EarAt(s)) && j < i < |s|
    ensures !OnSome(FirstPart(s, j), s[i]) && !Inside(s[i], FirstPart(s, j))
    decreases |s| - i
  {
    if i == |s| - 1 {
      LastIsOutside(s, j);
    } else {
      SecondIsOutside(s, j, i + 1);
      DeepestIsChord(s, j);
      EdgeOffFirst(s, j, i);
      hide On, OnSome, Inside, Clean, Orient;
      FreeSame(FirstPart(s, j), s[i], s[i + 1]);
      OnEnds(s[i], s[i + 1]);
    }
  }

  lemma EdgeOffFirst(s: seq<Point>, j: nat, i: nat)
    requires Clean(s) && Chord(s, j) && j < i < |s| - 1
    ensures forall t: real {:trigger On(s[i], s[i + 1], t)} :: 0.0 <= t <= 1.0 ==> !OnSome(FirstPart(s, j), On(s[i], s[i + 1], t))
    ensures !OnSome(FirstPart(s, j), s[i])
  {
    CornerOf(s, i);
    CleanDistinct(s);
    var x, y := s[i], s[i + 1];
    OnEnds(x, y);
    hide On, OnSome, Clean, Chord, OnSegment;
    forall t: real | 0.0 <= t <= 1.0 ensures !OnSome(FirstPart(s, j), On(x, y, t)) {
      var r := On(x, y, t);
      OnSegmentAt(x, y, t);
      if r == s[0] { CornerOnEdge(s, 0, x, y); }
      if r == s[j] { CornerOnEdge(s, j, x, y); }
      OffFirst(s, j, i, r);
    }
    assert On(x, y, 0.0) == x;
  }

  lemma OnSegmentAt(x: Point, y: Point, t: real)
    requires 0.0 <= t <= 1.0
    ensures OnSegment(On(x, y, t), x, y)
  {}
  /** The same from below to the first edge, and along it to its other end. */
  lemma FirstIsOutsideAtOne(s: seq<Point>, j: nat)
    requires Clean(s) && Lowest(s, s[0]) && Deepest(s, j) && Positive(EarAt(s))
    ensures !OnSome(SecondPart(s, j), s[1]) && !Inside(s[1], SecondPart(s, j))
  {
    var n, z := |s|, SecondPart(s, j);
    var t := EarAt(s);
    var a, v, b := t.a, t.b, t.c;
    SideEdges(s);
    CleanDistinct(s);
    DeepestIsChord(s, j);
    DeepestStrict(s, j);
    OppositeTurns(a, v, b);
    OrientRotates(a, v, b);
    assert NotBelow(v, s[n - 1]) && NotBelow(v, s[1]) && j != 1;
    OppositeBelow(a, v, b);
    EndIsOn(v, b);
    OffSecond(s, j, 0, b);
    SecondCorners(s, j);
    hide Orient, Clean, Inside, OnSegment, Reaches, IsEdge, On, OnSome, Deepest, SecondPart;
    var q, r := PlaceAtFirst(s, a, v, b, Opposite3(a, v, b));
    forall i | 0 <= i < |z| ensures z[i].y > q.y {
      var m := SecondIndex(s, j, i);
    }
    BelowAll(q, z);
    WayFromBelowToo(s, j, q, r);
    FreeSame(z, q, r);
    AlongFirst(s, j, r);
    FreeSame(z, r, b);
  }

  lemma SecondCorners(s: seq<Point>, j: nat)
    requires 2 <= j < |s| - 1
    ensures |SecondPart(s, j)| == |s| - j + 1 && forall q :: q in SecondPart(s, j) ==> q in s
  {}

  lemma SecondIndex(s: seq<Point>, j: nat, i: nat) returns (m: nat)
    requires 2 <= j < |s| - 1 && i < |SecondPart(s, j)|
    ensures m < |s| && SecondPart(s, j)[i] == s[m]
  {
    m := if i < |SecondPart(s, j)| - 1 then j + i else 0;
  }

  lemma WayFromBelowToo(s: seq<Point>, j: nat, q: Point, r: Point)
    requires Clean(s) && Chord(s, j) && Deepest(s, j) && Positive(EarAt(s))
    requires Beside(s, EarAt(s).b, EarAt(s).c, q, r) && !(Orient(EarAt(s).b, EarAt(s).c, q) > 0.0)
    ensures forall t: real {:trigger On(q, r, t)} :: 0.0 <= t <= 1.0 ==> !OnSome(SecondPart(s, j), On(q, r, t))
  {
    var z, v, b := SecondPart(s, j), EarAt(s).b, EarAt(s).c;
    DeepestStrict(s, j);
    SegmentInBox(r, v, b);
    OnEnds(q, r);
    NotDeepestToo(s, j, r);
    hide Orient, Clean, OnSegment, Reaches, IsEdge, On, OnSome, Deepest, Chord;
    forall t: real | 0.0 <= t <= 1.0 ensures !OnSome(z, On(q, r, t)) {
      if t < 1.0 {
        ReachesOff(s, q, r, t);
        TurnAlong(v, b, q, r, t);
        BelowChordToo(s, j, On(q, r, t));
      } else {
        OffSecond(s, j, 0, r);
      }
    }
  }

  lemma NotDeepestToo(s: seq<Point>, j: nat, r: Point)
    requires Clean(s) && Deepest(s, j) && Positive(EarAt(s)) && OnSegment(r, EarAt(s).b, EarAt(s).c)
    ensures r != s[j]
  {
    DeepestStrict(s, j);
    SegmentInBox(r, EarAt(s).b, EarAt(s).c);
    hide Orient, OnSegment, Clean;
  }

  lemma BelowChordToo(s: seq<Point>, j: nat, q: Point)
    requires Clean(s) && Chord(s, j) && !OnSome(s, q) && Orient(EarAt(s).b, EarAt(s).c, q) < 0.0
    requires Orient(EarAt(s).b, EarAt(s).c, s[j]) > 0.0
    ensures !OnSome(SecondPart(s, j), q)
  {
    var v, b := EarAt(s).b, EarAt(s).c;
    OrientEnds(v, b);
    hide Orient, OnSegment, Chord;
    forall x, y | IsEdge(SecondPart(s, j), x, y) ensures !OnSegment(q, x, y) {
      SecondIsEdge(s, j, x, y);
      if OnSegment(q, x, y) && IsChord(s, j, x, y) { ChordNotRight(v, b, x, y, q); }
    }
  }

  lemma SecondIsEdge(s: seq<Point>, j: nat, x: Point, y: Point)
    requires 2 <= j < |s| - 1 && IsEdge(SecondPart(s, j), x, y)
    ensures IsChord(s, j, x, y) || IsEdge(s, x, y)
  {
    SecondEdges(s, j, x, y);
  }

  lemma AlongFirst(s: seq<Point>, j: nat, r: Point)
    requires Clean(s) && Chord(s, j) && Deepest(s, j) && Positive(EarAt(s))
    requires OnSegment(r, EarAt(s).b, EarAt(s).c) && !Corner(r, EarAt(s).b, EarAt(s).c)
    ensures forall t: real {:trigger On(r, EarAt(s).c, t)} :: 0.0 <= t <= 1.0 ==> !OnSome(SecondPart(s, j), On(r, EarAt(s).c, t))
  {
    var z, v, b := SecondPart(s, j), EarAt(s).b, EarAt(s).c;
    EndIsOn(v, b);
    OnEnds(r, b);
    OnTurned(r, v, b);
    hide Orient, Clean, OnSegment, On, OnSome, Deepest, Chord;
    forall t: real | 0.0 <= t <= 1.0 ensures !OnSome(z, On(r, b, t)) {
      SubSegment(v, b, r, b, t);
      NotDeepestToo(s, j, On(r, b, t));
      NotEnd(b, v, r, t);
      OffSecond(s, j, 0, On(r, b, t));
    }
  }

  lemma {:induction false} FirstIsOutside(s: seq<Point>, j: nat, i: nat)
    requires Clean(s) && Lowest(s, s[0]) && Deepest(s, j) && Positive(EarAt(s)) && 0 < i < j
    ensures !OnSome(SecondPart(s, j), s[i]) && !Inside(s[i], SecondPart(s, j))
    decreases i
  {
    if i == 1 {
      FirstIsOutsideAtOne(s, j);
    } else {
      FirstIsOutside(s, j, i - 1);
      DeepestIsChord(s, j);
      EdgeOffSecond(s, j, i);
      hide On, OnSome, Inside, Clean, Orient;
      FreeSame(SecondPart(s, j), s[i - 1], s[i]);
      OnEnds(s[i - 1], s[i]);
    }
  }

  lemma EdgeOffSecond(s: seq<Point>, j: nat, i: nat)
    requires Clean(s) && Chord(s, j) && 1 < i < j
    ensures forall t: real {:trigger On(s[i - 1], s[i], t)} :: 0.0 <= t <= 1.0 ==> !OnSome(SecondPart(s, j), On(s[i - 1], s[i], t))
    ensures !OnSome(SecondPart(s, j), s[i])
  {
    CornerOf(s, i - 1);
    CleanDistinct(s);
    var x, y := s[i - 1], s[i];
    OnEnds(x, y);
    hide On, OnSome, Clean, Chord, OnSegment;
    forall t: real | 0.0 <= t <= 1.0 ensures !OnSome(SecondPart(s, j), On(x, y, t)) {
      var r := On(x, y, t);
      OnSegmentAt(x, y, t);
      if r == s[0] { CornerOnEdge(s, 0, x, y); }
      if r == s[j] { CornerOnEdge(s, j, x, y); }
      OffSecond(s, j, i - 1, r);
    }
    assert On(x, y, 1.0) == y;
  }

  // ---- two ears --------------------------------------------------------------------------------------------------------

  /** A point off the ring and not inside it is in none of its ears. */
  lemma NotInEar(s: seq<Point>, x: Point, u: Point, y: Point, p: Point)
    requires Clean(s) && Sided(s) && EarAtCorner(s, x, u, y) && !OnSome(s, p) && !Inside(p, s)
    ensures !Has(Triangle(x, u, y), p)
  {
    if |s| == 3 { NotInTriangle(s, x, u, y, p); } else { NotInFront(s, x, u, y, p); }
  }

  lemma NotInTriangle(s: seq<Point>, x: Point, u: Point, y: Point, p: Point)
    requires |s| == 3 && Clean(s) && EarAtCorner(s, x, u, y) && !OnSome(s, p) && !Inside(p, s)
    ensures !Has(Triangle(x, u, y), p)
  {
    var m := EarInFront(s, x, u, y);
    var z, t := Turned(s, m), Triangle(x, u, y);
    assert z == [u, y, x];
    TurnedTriangle(x, u, y);
    SameOnSome(s, z, p);
    SameInside(s, z, p);
    hide Orient, Inside, OnSome, IsEdge, Clean;
    LastFills(t);
    HasIsHull(t, p);
    TriangleEdges(x, u, y, p);
    if Has(t, p) { FilledIsInside(Corners(t), t, p); }
  }

  lemma TriangleEdges(x: Point, u: Point, y: Point, p: Point)
    ensures OnSome([u, y, x], p) == OnSome([x, u, y], p)
  {
    hide OnSegment;
    forall c, d ensures IsEdge([u, y, x], c, d) <==> IsEdge([x, u, y], c, d) {
      RotatedEdge([x, u, y], c, d);
      assert Rotate([x, u, y]) == [u, y, x];
    }
    hide IsEdge;
  }

  lemma NotInFront(s: seq<Point>, x: Point, u: Point, y: Point, p: Point)
    requires |s| >= 4 && Clean(s) && Sided(s) && EarAtCorner(s, x, u, y) && !OnSome(s, p) && !Inside(p, s)
    ensures !Has(Triangle(x, u, y), p)
  {
    var m := EarInFront(s, x, u, y);
    var z, t := Turned(s, m), Triangle(x, u, y);
    SameSided(s, z);
    SameOnSome(s, z, p);
    SameInside(s, z, p);
    SidedCut(z);
    EarFills(z);
    hide Orient, Inside, OnSome, IsEdge, Clean, Sided, Empty;
    HasIsHull(t, p);
    if Has(t, p) { FilledIsInside(z, t, p); }
  }
  /** Two ears that are not neighbours. */
  ghost predicate Apart2(s: seq<Point>, u: Point, v: Point) { u != v && !IsEdge(s, u, v) && !IsEdge(s, v, u) }

  /** The lowest corner is an ear, and what remains has one away from the cut. */
  lemma CutEar(s: seq<Point>, x: Point, u: Point, y: Point)
    requires |s| >= 4 && Clean(s) && Sided(s) && Empty(s)
    requires EarAtCorner(s[1..], x, u, y) && u != EarAt(s).a && u != EarAt(s).c && u in s[1..]
    ensures EarAtCorner(s, x, u, y) && Apart2(s, EarAt(s).b, u)
  {
    var t, z := EarAt(s), s[1..];
    SidedCut(s);
    SideEdges(s);
    CleanDistinct(s);
    EmptyPositive(s);
    CornersHad(t);
    OrientRotates(t.a, t.b, t.c);
    OrientRotates(t.b, t.c, t.a);
    CutEdges(s, x, u);
    CutEdges(s, u, y);
    SideIsOutside(s, t.b);
    EarIsClear(s, t.b);
    NotInEar(z, x, u, y, t.b);
    assert s == [s[0]] + z;
    var i :| 0 <= i < |z| && z[i] == u;
    assert u == s[i + 1] && u != s[0];
    hide Orient, Clean, Inside, OnSome, Sided, IsEdge;
    if IsEdge(s, t.b, u) { OneNext(s, t.b, t.c, u); }
    if IsEdge(s, u, t.b) { OneBefore(s, t.a, t.b, u); }
  }

  lemma FrontIsEar(s: seq<Point>)
    requires |s| >= 4 && Clean(s) && Empty(s)
    ensures EarAtCorner(s, EarAt(s).a, EarAt(s).b, EarAt(s).c)
  {
    SideEdges(s);
    hide Orient, Has, Clean, IsEdge;
    var t := EarAt(s);
    forall q | q in s && q != t.a && q != t.b && q != t.c ensures !Has(t, q) {
      var i :| 0 <= i < |s| && s[i] == q;
      assert i != 0 && i != 1 && i != |s| - 1;
    }
  }

  /** An ear of the first part away from the chord is an ear of the ring. */
  lemma FirstEar(s: seq<Point>, j: nat, x: Point, u: Point, y: Point)
    requires Clean(s) && Lowest(s, s[0]) && Deepest(s, j) && Positive(EarAt(s))
    requires EarAtCorner(FirstPart(s, j), x, u, y) && u != s[0] && u != s[j]
    ensures EarAtCorner(s, x, u, y)
  {
    var z := FirstPart(s, j);
    FirstSided(s, j);
    FirstIsEdge(s, j, x, u);
    FirstIsEdge(s, j, u, y);
    hide Orient, Has, Clean, IsEdge, Inside, OnSome, Sided, Deepest;
    forall q | q in s && q != x && q != u && q != y ensures !Has(Triangle(x, u, y), q) {
      var i :| 0 <= i < |s| && s[i] == q;
      if i <= j {
        assert z[i] == q;
      } else {
        SecondIsOutside(s, j, i);
        NotInEar(z, x, u, y, q);
      }
    }
  }

  lemma SecondEar(s: seq<Point>, j: nat, x: Point, u: Point, y: Point)
    requires Clean(s) && Lowest(s, s[0]) && Deepest(s, j) && Positive(EarAt(s))
    requires EarAtCorner(SecondPart(s, j), x, u, y) && u != s[0] && u != s[j]
    ensures EarAtCorner(s, x, u, y)
  {
    var z := SecondPart(s, j);
    SecondSided(s, j);
    SecondIsEdge(s, j, x, u);
    SecondIsEdge(s, j, u, y);
    hide Orient, Has, Clean, IsEdge, Inside, OnSome, Sided, Deepest;
    forall q | q in s && q != x && q != u && q != y ensures !Has(Triangle(x, u, y), q) {
      var i :| 0 <= i < |s| && s[i] == q;
      if i == 0 {
        assert z[|z| - 1] == q;
      } else if i >= j {
        assert z[i - j] == q;
      } else {
        FirstIsOutside(s, j, i);
        NotInEar(z, x, u, y, q);
      }
    }
  }

  /** Corners strictly on either side of the chord are not neighbours. */
  lemma AcrossApart(s: seq<Point>, j: nat, u: Point, v: Point)
    requires Clean(s) && 2 <= j < |s| - 1 && u in FirstPart(s, j) && v in SecondPart(s, j)
    requires u != s[0] && u != s[j] && v != s[0] && v != s[j]
    ensures Apart2(s, u, v)
  {
    CleanDistinct(s);
    hide Clean;
    var i :| 0 <= i < |FirstPart(s, j)| && FirstPart(s, j)[i] == u;
    var k :| 0 <= k < |SecondPart(s, j)| && SecondPart(s, j)[k] == v;
    assert s[i] == u && 0 < i < j;
    assert k < |s| - j && s[j + k] == v && k > 0;
    assert forall m :: 0 <= m < |s| && s[m] == u ==> m == i;
    assert forall m :: 0 <= m < |s| && s[m] == v ==> m == j + k;
  }

  lemma CornerIsIn(s: seq<Point>, x: Point, u: Point)
    requires IsEdge(s, x, u)
    ensures u in s
  {}

  /** Three corners: the one that is not on the edge. */
  lemma EarOfThree(s: seq<Point>, c: Point, d: Point) returns (x: Point, u: Point, y: Point)
    requires |s| == 3 && Clean(s) && Sided(s) && IsEdge(s, c, d)
    ensures EarAtCorner(s, x, u, y) && u != c && u != d && u in s
  {
    ThreeTurnLeft(s);
    OrientRotates(s[0], s[1], s[2]);
    OrientRotates(s[1], s[2], s[0]);
    CleanDistinct(s);
    hide Orient, Clean, Sided, Has;
    var i :| EdgeAt(s, i, c, d);
    var m := if i == 0 then 2 else i - 1;
    x, u, y := d, s[m], c;
    assert EdgeAt(s, Next(i, 3), d, u) && EdgeAt(s, m, u, c);
    assert Positive(Triangle(x, u, y));
    assert s[0] in {x, u, y} && s[1] in {x, u, y} && s[2] in {x, u, y};
  }

  /** Some ear is not at the ends of a given edge. */
  lemma {:induction false} EarAway(s: seq<Point>, c: Point, d: Point) returns (x: Point, u: Point, y: Point)
    requires |s| >= 3 && Clean(s) && Sided(s) && IsEdge(s, c, d)
    ensures EarAtCorner(s, x, u, y) && u != c && u != d && u in s
    decreases |s|, 1
  {
    if |s| == 3 {
      x, u, y := EarOfThree(s, c, d);
    } else {
      hide Clean, Sided, Orient, Has;
      var x1, u1, y1, x2, u2, y2 := TwoEars(s);
      if u1 != c && u1 != d {
        x, u, y := x1, u1, y1;
      } else {
        x, u, y := x2, u2, y2;
      }
      CornerIsIn(s, x, u);
    }
  }

  /** A clean ring of four corners or more with its inside on the left has two ears that are not neighbours. */
  lemma {:induction false} TwoEars(s: seq<Point>)
    returns (x1: Point, u1: Point, y1: Point, x2: Point, u2: Point, y2: Point)
    requires |s| >= 4 && Clean(s) && Sided(s)
    ensures EarAtCorner(s, x1, u1, y1) && EarAtCorner(s, x2, u2, y2) && Apart2(s, u1, u2)
    decreases |s|, 0
  {
    var i := LowestUpTo(s, |s|);
    var z := Turned(s, i);
    TurnedSame(s, i);
    TurnedBack(s, i);
    SameClean(s, z);
    SameSided(s, z);
    FrontOf(s, i);
    hide Clean, Sided, Orient, Has, IsEdge, EarAtCorner;
    LowestTurned(s, i);
    LowestTurnsLeft(z);
    if Shallow(z) {
      x1, u1, y1 := EarAt(z).a, EarAt(z).b, EarAt(z).c;
      FrontIsEar(z);
      SidedCut(z);
      CutClosing(z);
      x2, u2, y2 := EarAway(z[1..], EarAt(z).a, EarAt(z).c);
      CutEar(z, x2, u2, y2);
    } else {
      var j := DeepCorner(z);
      FirstSided(z, j);
      SecondSided(z, j);
      ChordEdges(z, j);
      x1, u1, y1 := EarAway(FirstPart(z, j), z[j], z[0]);
      x2, u2, y2 := EarAway(SecondPart(z, j), z[0], z[j]);
      FirstEar(z, j, x1, u1, y1);
      SecondEar(z, j, x2, u2, y2);
      AcrossApart(z, j, u1, u2);
    }
    SameEars(z, s, x1, u1, y1);
    SameEars(z, s, x2, u2, y2);
    SameEdges(z, s, u1, u2);
    SameEdges(z, s, u2, u1);
  }

  /** The ear of the first corner holds no other corner. */
  ghost predicate Shallow(s: seq<Point>)
    requires |s| >= 3
  {
    Empty(s)
  }

  lemma DeepCorner(s: seq<Point>) returns (j: nat)
    requires |s| >= 4 && !Shallow(s) && Positive(EarAt(s))
    ensures Deepest(s, j)
  {
    hide Has, Depth, Orient;
    var i :| 2 <= i < |s| - 1 && Has(EarAt(s), s[i]);
    j := DeepestUpTo(s, |s| - 1, i);
  }

  lemma CutClosing(s: seq<Point>)
    requires |s| >= 4 && Clean(s)
    ensures IsEdge(s[1..], EarAt(s).a, EarAt(s).c)
  {
    CleanDistinct(s);
    CutEdges(s, EarAt(s).a, EarAt(s).c);
  }

  lemma LowestTurned(s: seq<Point>, i: nat)
    requires i < |s| && forall j {:trigger s[j]} :: 0 <= j < |s| ==> NotBelow(s[i], s[j])
    ensures Lowest(Turned(s, i), Turned(s, i)[0])
  {
    var z := Turned(s, i);
    forall k | 0 <= k < |z| ensures NotBelow(z[0], z[k]) {
      assert z[k] == s[if k < |s| - i then i + k else k - (|s| - i)];
    }
  }

  lemma SameEars(z: seq<Point>, s: seq<Point>, x: Point, u: Point, y: Point)
    requires SameRing(z, s) && EarAtCorner(z, x, u, y) && forall q :: q in z <==> q in s
    ensures EarAtCorner(s, x, u, y)
  {
    SameEdges(z, s, x, u);
    SameEdges(z, s, u, y);
    hide SameRing, IsEdge, Orient, Has;
  }
  // ---- the whole clipping -------------------------------------------------------------------------------------------------

  lemma {:induction false} TurnedArea(s: seq<Point>, m: nat)
    requires |s| >= 2 && m <= |s|
    ensures Area2(Turned(s, m)) == Area2(s)
    decreases m
  {
    hide Area2;
    if m == 0 {
      assert Turned(s, 0) == s;
    } else {
      TurnedArea(s, m - 1);
      assert Turned(s, m) == Rotate(Turned(s, m - 1));
      Area2Rotated(Turned(s, m - 1));
    }
  }

  /** With the inside on the left the shoelace sum is positive. */
  lemma {:induction false} AreaIsPositive(s: seq<Point>)
    requires Clean(s) && Sided(s)
    ensures Area2(s) > 0.0
    decreases |s|
  {
    if |s| == 3 {
      ThreeTurnLeft(s);
      assert s == [s[0], s[1], s[2]];
      Area2Triangle(s[0], s[1], s[2]);
    } else {
      hide Clean, Sided, Area2, EarAtCorner, Empty, TriangleArea2;
      var x, u, y, _, _, _ := TwoEars(s);
      var m := EarInFront(s, x, u, y);
      var z := Turned(s, m);
      SameSided(s, z);
      TurnedArea(s, m);
      SidedCut(z);
      AreaIsPositive(z[1..]);
      Area2Clipped(z);
      EarArea(z);
    }
  }

  lemma EarArea(s: seq<Point>)
    requires |s| >= 3 && Empty(s)
    ensures TriangleArea2(EarAt(s)) > 0.0
  {}

  /** The start of the clipping has its inside on the left. */
  lemma StartIsSided(poly: seq<Point>)
    requires Simple(poly) && |poly| > 3
    ensures ValidRing(poly, StartRing(poly)) && |StartRing(poly)| == |poly|
    ensures Clean(PointsOf(poly, StartRing(poly))) && Sided(PointsOf(poly, StartRing(poly)))
  {
    StartIsClean(poly);
    StartKeeps(poly, Point(0.0, 0.0));
    var s := PointsOf(poly, StartRing(poly));
    OneSided(s);
    hide Clean, Sided, SidedRight, Area2, Inside, Simple;
    if SidedRight(s) {
      OtherWay(s);
      AreaIsPositive(Reversed(s));
      Area2Reversed(s);
    }
  }

  /** So has what remains at every stage. */
  lemma {:induction false} AllSided(poly: seq<Point>, start: Ring, rings: seq<Ring>, rest: Ring)
    requires Clipped(poly, start, rings, rest) && |start| >= 3 && Clean(PointsOf(poly, start)) && Sided(PointsOf(poly, start))
    ensures ValidRing(poly, rest) && Clean(PointsOf(poly, rest)) && Sided(PointsOf(poly, rest))
    decreases |rings|
  {
    hide Clean, Sided, IsEar, SameRing, IsTurn, PointsOf, Empty;
    AllClean(poly, start, rings, rest);
    if rings == [] {
      StartTurned(poly, start, rest);
      IsTurnSame(poly, start, rest);
      TurnedRingBack(poly, start, rest);
      SameSided(PointsOf(poly, start), PointsOf(poly, rest));
    } else {
      var m := |rings| - 1;
      ClippedFront(poly, start, rings, rest);
      AllClean(poly, start, rings[..m], rings[m]);
      AllSided(poly, start, rings[..m], rings[m]);
      LastEar(poly, start, rings, rest);
      EarIsEmpty(poly, rings[m]);
      SameLength(poly, rings[m]);
      SidedCut(PointsOf(poly, rings[m]));
      IsTurnSame(poly, rings[m][1..], rest);
      TurnedRingBack(poly, rings[m][1..], rest);
      SameSided(PointsOf(poly, rings[m][1..]), PointsOf(poly, rest));
    }
  }

  lemma TurnedPoints(poly: seq<Point>, ring: Ring, m: nat)
    requires ValidRing(poly, ring) && m <= |ring|
    ensures ValidRing(poly, Turn(ring, m)) && PointsOf(poly, Turn(ring, m)) == Turned(PointsOf(poly, ring), m)
  {
    forall i | 0 <= i < |ring| ensures Turn(ring, m)[i] < |poly| {
      assert Turn(ring, m)[i] == ring[if i < |ring| - m then m + i else i - (|ring| - m)];
    }
  }

  /** A ring with an empty ear in front passes the ear test. */
  lemma EmptyIsEar(poly: seq<Point>, ring: Ring)
    requires ValidRing(poly, ring) && |ring| > 3 && Empty(PointsOf(poly, ring))
    ensures IsEar(poly, ring)
  {
    var s, t := PointsOf(poly, ring), EarOf(poly, ring);
    assert EarAt(s) == t;
    hide Orient, InHull, Has;
    forall i | 0 <= i < |ring| && ring[i] !in {ring[|ring| - 1], ring[0], ring[1]} ensures !InHull(poly[ring[i]], t.a, t.b, t.c) {
      assert i != 0 && i != 1 && i != |ring| - 1;
      assert !Has(t, s[i]);
      HasIsHull(t, s[i]);
    }
  }

  lemma NoEarAt(poly: seq<Point>, rest: Ring, m: nat)
    requires |rest| >= 3 && m < |rest| && ValidRing(poly, Turn(rest, m))
    ensures NoEar(poly, rest) ==> !IsEar(poly, Turn(rest, m))
  {}

  /** Clipping does not end early. */
  lemma SomeEarLeft(poly: seq<Point>, rest: Ring)
    requires ValidRing(poly, rest) && |rest| > 3 && Clean(PointsOf(poly, rest)) && Sided(PointsOf(poly, rest))
    ensures !NoEar(poly, rest)
  {
    hide Clean, Sided, EarAtCorner, IsEar, PointsOf, Empty;
    SameLength(poly, rest);
    var x, u, y, _, _, _ := TwoEars(PointsOf(poly, rest));
    var m := EarInFront(PointsOf(poly, rest), x, u, y);
    TurnedPoints(poly, rest, m);
    EmptyIsEar(poly, Turn(rest, m));
    NoEarAt(poly, rest, m);
  }

  /** A polygon that encloses something: simple, and not three points on a line. */
  ghost predicate Proper(poly: seq<Point>) { Simple(poly) && (|poly| > 3 || Orient(poly[0], poly[1], poly[2]) != 0.0) }

  /** Main result on ear clipping: every simple polygon that is not three points on a line is triangulated completely,
      with triangles that turn left when there are more than three points; so the triangulation is a tiling. */
  lemma AlwaysTiles(poly: seq<Point>, ts: seq<Triangle>, rings: seq<Ring>, rest: Ring)
    requires Triangulates(poly, ts, rings, rest) && Proper(poly)
    ensures |ts| == |poly| - 2 && Tiles(poly, ts)
  {
    if |poly| > 3 {
      StartIsSided(poly);
      var start := StartRing(poly);
      hide Clean, Sided, NoEar, StartRing, Simple, Clipped, PointsOf, Area2;
      AllSided(poly, start, rings, rest);
      if |rest| > 3 { SomeEarLeft(poly, rest); }
      SameLength(poly, rest);
      ThreeTurnLeft(PointsOf(poly, rest));
      LastTurnsLeft(poly, rest);
    }
  }

  lemma LastTurnsLeft(poly: seq<Point>, rest: Ring)
    requires ValidRing(poly, rest) && |rest| == 3
    requires var s := PointsOf(poly, rest); Positive(Triangle(s[0], s[1], s[2]))
    ensures TriangleArea2(LastTriangle(poly, rest)) > 0.0
  {}

  /** In particular there are n - 2 triangles for every simple polygon. */
  lemma AlwaysComplete(poly: seq<Point>, ts: seq<Triangle>, rings: seq<Ring>, rest: Ring)
    requires Triangulates(poly, ts, rings, rest) && Simple(poly)
    ensures Complete(poly, ts)
  {
    assert |poly| >= 3;
    hide Simple, Clipped, NoEar, Tiles;
    if |poly| > 3 { TiledIsComplete(poly, ts, rings, rest); }
  }

  lemma TiledIsComplete(poly: seq<Point>, ts: seq<Triangle>, rings: seq<Ring>, rest: Ring)
    requires Triangulates(poly, ts, rings, rest) && Simple(poly) && |poly| > 3
    ensures |ts| == |poly| - 2
  {
    AlwaysTiles(poly, ts, rings, rest);
  }
}
