/** Triangulation by ear clipping (internal/geo/triangulate.go).  The remaining indices are rotated and
    shrunk in place; every step is recorded as ghost state so that the results can be stated about it:
    area is conserved, no ear holds another remaining vertex, and a point is inside the polygon by the even-odd
    rule exactly when it is inside an odd number of the triangles. */
module EarClipping {
  import opened Plane
  import opened EvenOdd

  type Ring = seq<nat>

  predicate ValidRing(poly: seq<Point>, ring: Ring) { forall i {:trigger ring[i]} :: 0 <= i < |ring| ==> ring[i] < |poly| }

  function PointsOf(poly: seq<Point>, ring: Ring): (s: seq<Point>)
    requires ValidRing(poly, ring)
    ensures |s| == |ring| && forall i :: 0 <= i < |s| ==> s[i] == poly[ring[i]]
  {
    seq(|ring|, i requires 0 <= i < |ring| => poly[ring[i]])
  }

  // ---- twice the signed area --------------------------------------------------------------------------

  function CrossChain(s: seq<Point>): real {
    if |s| < 2 then 0.0 else s[0].Cross(s[1]) + CrossChain(s[1..])
  }

  /** The shoelace sum. */
  function Area2(s: seq<Point>): real {
    if |s| == 0 then 0.0 else CrossChain(s) + s[|s| - 1].Cross(s[0])
  }

  lemma {:induction false} CrossChainSnoc(s: seq<Point>, q: Point)
    requires s != []
    ensures CrossChain(s + [q]) == CrossChain(s) + s[|s| - 1].Cross(q)
    decreases |s|
  {
    hide Point.Cross;
    if |s| > 1 {
      CrossChainSnoc(s[1..], q);
      assert (s + [q])[1..] == s[1..] + [q];
    } else {
      assert (s + [q])[1..] == [q];
    }
  }

  /** The sum after the first i terms. */
  function PartialArea(poly: seq<Point>, i: nat): real
    requires i <= |poly|
  {
    if i == 0 then 0.0 else if i < |poly| then CrossChain(poly[..i + 1]) else Area2(poly)
  }

  lemma PartialAreaNext(poly: seq<Point>, i: nat)
    requires i < |poly|
    ensures PartialArea(poly, i + 1) == PartialArea(poly, i) + poly[i].Cross(poly[if i + 1 == |poly| then 0 else i + 1])
  {
    hide Point.Cross;
    if i + 1 < |poly| {
      CrossChainSnoc(poly[..i + 1], poly[i + 1]);
      assert poly[..i + 2] == poly[..i + 1] + [poly[i + 1]];
      if i == 0 { assert CrossChain(poly[..1]) == 0.0; }
    } else {
      assert poly[..|poly|] == poly;
    }
  }

  method SignedArea(poly: seq<Point>) returns (area: real)
    ensures area == Area2(poly)
  {
    hide Point.Cross, CrossChain;
    area := 0.0;
    for i := 0 to |poly|
      invariant area == PartialArea(poly, i)
    {
      var j := (i + 1) % |poly|;
      assert j == if i + 1 == |poly| then 0 else i + 1;
      PartialAreaNext(poly, i);
      area := area + poly[i].Cross(poly[j]);
    }
  }

  lemma Area2Rotated(s: seq<Point>)
    requires |s| >= 2
    ensures Area2(Rotate(s)) == Area2(s)
  {
    hide Point.Cross;
    CrossChainSnoc(s[1..], s[0]);
  }

  lemma CrossAnti(a: Point, b: Point)
    ensures b.Cross(a) == -a.Cross(b)
  {}

  lemma {:induction false} CrossChainReversed(s: seq<Point>)
    ensures CrossChain(Reversed(s)) == -CrossChain(s)
    decreases |s|
  {
    hide Point.Cross;
    if |s| >= 2 {
      CrossChainReversed(s[1..]);
      CrossChainSnoc(Reversed(s[1..]), s[0]);
      CrossAnti(s[0], s[1]);
    }
  }

  lemma Area2Reversed(s: seq<Point>)
    ensures Area2(Reversed(s)) == -Area2(s)
  {
    hide Point.Cross;
    if s != [] {
      CrossChainReversed(s);
      CrossAnti(s[|s| - 1], s[0]);
    }
  }

  function TriangleArea2(t: Triangle): real { Orient(t.a, t.b, t.c) }

  lemma TriangleArea(a: Point, b: Point, c: Point)
    ensures TriangleArea2(Triangle(a, b, c)) == a.Cross(b) + b.Cross(c) + c.Cross(a)
  {}

  lemma Area2Clipped(s: seq<Point>)
    requires |s| >= 3
    ensures Area2(s) == Area2(s[1..]) + TriangleArea2(Triangle(s[|s| - 1], s[0], s[1]))
  {
    hide Point.Cross, TriangleArea2;
    TriangleArea(s[|s| - 1], s[0], s[1]);
    CrossAnti(s[|s| - 1], s[1]);
  }

  lemma Area2Triangle(a: Point, b: Point, c: Point)
    ensures Area2([a, b, c]) == TriangleArea2(Triangle(a, b, c))
  {
    hide Point.Cross, TriangleArea2;
    TriangleArea(a, b, c);
    assert [a, b, c][1..] == [b, c] && [b, c][1..] == [c];
    assert CrossChain([c]) == 0.0 && CrossChain([b, c]) == b.Cross(c);
  }

  // ---- ears ---------------------------------------------------------------------------------------------

  function EarOf(poly: seq<Point>, ring: Ring): Triangle
    requires ValidRing(poly, ring) && |ring| >= 3
  {
    Triangle(poly[ring[|ring| - 1]], poly[ring[0]], poly[ring[1]])
  }

  /** The first remaining vertex is an ear: it turns left, and no other remaining vertex is an average of
      it and its neighbours. */
  ghost predicate IsEar(poly: seq<Point>, ring: Ring)
    requires ValidRing(poly, ring) && |ring| >= 3
  {
    var t := EarOf(poly, ring);
    && TriangleArea2(t) > 0.0
    && forall i {:trigger ring[i]} :: 0 <= i < |ring| && ring[i] !in {ring[|ring| - 1], ring[0], ring[1]} ==>
         !InHull(poly[ring[i]], t.a, t.b, t.c)
  }

  method TestEar(poly: seq<Point>, indices: array<nat>, n: nat, a: nat, b: nat, c: nat) returns (ok: bool)
    requires 3 <= n <= indices.Length && ValidRing(poly, indices[..n])
    requires a == indices[n - 1] && b == indices[0] && c == indices[1]
    ensures ok == IsEar(poly, indices[..n])
  {
    ghost var ring := indices[..n];
    assert a == ring[n - 1] && b == ring[0] && c == ring[1];
    var ab, ac := poly[b].Sub(poly[a]), poly[c].Sub(poly[a]);
    if ab.Cross(ac) <= 0.0 { return false; }
    hide Orient, PointInTriangle, InHull;
    for i := 0 to n
      invariant forall k {:trigger ring[k]} :: 0 <= k < i && ring[k] !in {a, b, c} ==>
                  !InHull(poly[ring[k]], poly[a], poly[b], poly[c])
    {
      var idx := indices[i];
      assert ring[i] == idx;
      if idx == a || idx == b || idx == c { continue; }
      PointInTriangleIsExact(poly[idx], poly[a], poly[b], poly[c]);
      if PointInTriangle(poly[idx], poly[a], poly[b], poly[c]) { return false; }
    }
    return true;
  }

  // ---- the record of a run --------------------------------------------------------------------------------

  function Turn(ring: Ring, m: nat): Ring
    requires m <= |ring|
  {
    ring[m..] + ring[..m]
  }

  ghost predicate IsTurn(a: Ring, b: Ring) { exists m :: 0 <= m <= |a| && b == Turn(a, m) }

  /** The ring before ear k, as it was left by the ear before. */
  function Before(start: Ring, rings: seq<Ring>, k: nat): Ring
    requires k <= |rings| && forall i {:trigger rings[i]} :: 0 <= i < |rings| ==> rings[i] != []
  {
    if k == 0 then start else rings[k - 1][1..]
  }

  /** From `start`, the ears of the given rings were clipped one after the other, each ring being turned
      until its first vertex is an ear, and `rest` remains. */
  ghost predicate Clipped(poly: seq<Point>, start: Ring, rings: seq<Ring>, rest: Ring) {
    && ValidRing(poly, start) && ValidRing(poly, rest)
    && (forall k {:trigger rings[k]} :: 0 <= k < |rings| ==>
          |rings[k]| > 3 && ValidRing(poly, rings[k]) && IsEar(poly, rings[k]))
    && (forall k {:trigger Before(start, rings, k)} :: 0 <= k < |rings| ==> IsTurn(Before(start, rings, k), rings[k]))
    && IsTurn(Before(start, rings, |rings|), rest)
  }

  function Ears(poly: seq<Point>, rings: seq<Ring>): (ts: seq<Triangle>)
    requires ClippedSizes(poly, rings)
    ensures |ts| == |rings| && forall k :: 0 <= k < |rings| ==> ts[k] == EarOf(poly, rings[k])
  {
    seq(|rings|, k requires 0 <= k < |rings| => EarOf(poly, rings[k]))
  }

  lemma TurnOne(ring: Ring)
    requires ring != []
    ensures Turn(ring, 1) == ring[1..] + [ring[0]]
  {}

  lemma TurnMore(a: Ring, b: Ring)
    requires IsTurn(a, b) && b != []
    ensures IsTurn(a, b[1..] + [b[0]])
  {
    var m :| 0 <= m <= |a| && b == Turn(a, m);
    if m == |a| {
      assert b == a;
      TurnOne(a);
    } else {
      assert b[1..] + [b[0]] == Turn(a, m + 1);
    }
  }

  lemma TurnValid(poly: seq<Point>, a: Ring, b: Ring)
    requires IsTurn(a, b) && ValidRing(poly, a)
    ensures ValidRing(poly, b) && |b| == |a|
  {
    var m :| 0 <= m <= |a| && b == Turn(a, m);
    forall i | 0 <= i < |b| ensures b[i] < |poly| {
      assert b[i] == if i < |a| - m then a[i + m] else a[i - (|a| - m)];
    }
  }

  lemma TurnNone(a: Ring)
    ensures IsTurn(a, a)
  {
    assert a == Turn(a, 0);
  }

  lemma ClippedNone(poly: seq<Point>, start: Ring)
    requires ValidRing(poly, start)
    ensures Clipped(poly, start, [], start)
  {
    TurnNone(start);
  }

  lemma ClippedTurned(poly: seq<Point>, start: Ring, rings: seq<Ring>, rest: Ring)
    requires Clipped(poly, start, rings, rest) && rest != []
    ensures Clipped(poly, start, rings, rest[1..] + [rest[0]])
  {
    TurnMore(Before(start, rings, |rings|), rest);
    var b := rest[1..] + [rest[0]];
    TurnOne(rest);
    assert IsTurn(rest, b);
    TurnValid(poly, rest, b);
  }

  lemma ClippedEar(poly: seq<Point>, start: Ring, rings: seq<Ring>, rest: Ring)
    requires Clipped(poly, start, rings, rest) && |rest| > 3 && IsEar(poly, rest)
    ensures Clipped(poly, start, rings + [rest], rest[1..])
  {
    hide IsEar, IsTurn, Turn;
    var more := rings + [rest];
    assert forall k :: 0 <= k < |rings| ==> more[k] == rings[k];
    forall k | 0 <= k < |more| ensures |more[k]| > 3 && ValidRing(poly, more[k]) && IsEar(poly, more[k]) {
      if k < |rings| { assert more[k] == rings[k]; }
    }
    forall k | 0 <= k < |more| ensures IsTurn(Before(start, more, k), more[k]) {
      BeforeSame(start, rings, rest, k);
      assert k < |rings| ==> IsTurn(Before(start, rings, k), rings[k]);
    }
    TurnNone(rest[1..]);
    assert ValidRing(poly, rest[1..]);
  }

  lemma BeforeSame(start: Ring, rings: seq<Ring>, rest: Ring, k: nat)
    requires k <= |rings| && rest != [] && forall i {:trigger rings[i]} :: 0 <= i < |rings| ==> rings[i] != []
    ensures Before(start, rings + [rest], k) == Before(start, rings, k)
  {}

  lemma EarsSnoc(poly: seq<Point>, rings: seq<Ring>, rest: Ring)
    requires ClippedSizes(poly, rings) && |rest| > 3 && ValidRing(poly, rest)
    ensures ClippedSizes(poly, rings + [rest])
    ensures Ears(poly, rings + [rest]) == Ears(poly, rings) + [EarOf(poly, rest)]
  {}

  // ---- Triangulate ------------------------------------------------------------------------------------------

  /** The starting ring: the polygon's order if that turns left, else reversed. */
  function StartRing(poly: seq<Point>): Ring {
    seq(|poly|, i requires 0 <= i < |poly| => if Area2(poly) > 0.0 then i else |poly| - 1 - i)
  }

  /** What remains when the clipping ends early has no ear at all. */
  ghost predicate NoEar(poly: seq<Point>, ring: Ring)
    requires |ring| >= 3
  {
    FirstTurnsFail(poly, ring, |ring|)
  }

  /** None of the first k turns of the ring puts an ear in front. */
  ghost predicate FirstTurnsFail(poly: seq<Point>, ring: Ring, k: nat)
    requires |ring| >= 3 && k <= |ring|
  {
    forall m {:trigger Turn(ring, m)} :: 0 <= m < k ==> ValidRing(poly, Turn(ring, m)) && !IsEar(poly, Turn(ring, m))
  }

  lemma StartValid(poly: seq<Point>)
    ensures ValidRing(poly, StartRing(poly)) && |StartRing(poly)| == |poly|
  {}

  method StartIndices(poly: seq<Point>, signedArea: real) returns (indices: array<nat>)
    requires signedArea == Area2(poly)
    ensures fresh(indices) && indices.Length == |poly| && indices[..] == StartRing(poly)
  {
    var n := |poly|;
    indices := new nat[n];
    if signedArea > 0.0 {
      for i := 0 to n
        invariant forall k :: 0 <= k < i ==> indices[k] == k
      {
        indices[i] := i;
      }
    } else {
      for i := 0 to n
        invariant forall k :: 0 <= k < i ==> indices[k] == n - 1 - k
      {
        indices[i] := n - 1 - i;
      }
    }
  }

  /** copy(indices, indices[1:remaining]). */
  method ShiftLeft(indices: array<nat>, remaining: nat)
    requires 0 < remaining <= indices.Length
    modifies indices
    ensures indices[..remaining - 1] == old(indices[..remaining])[1..]
  {
    forall i | 0 <= i < remaining - 1 { indices[i] := indices[i + 1]; }
  }

  /** Where the search for an ear stands: after `lap` full rounds at turn `pos` of the ring `base`. */
  ghost predicate Searching(poly: seq<Point>, base: Ring, lap: nat, pos: nat, rest: Ring, count: nat) {
    && |base| > 3 && pos < |base| && rest == Turn(base, pos) && lap <= 2 && (lap == 2 ==> pos == 0)
    && count == (2 - lap) * |base| - pos
    && FirstTurnsFail(poly, base, if lap == 0 then pos else |base|)
  }

  lemma SearchStarts(poly: seq<Point>, base: Ring)
    ensures |base| > 3 ==> Searching(poly, base, 0, 0, base, 2 * |base|)
  {}

  lemma SearchGoesOn(poly: seq<Point>, base: Ring, lap: nat, pos: nat, rest: Ring, count: nat)
    requires Searching(poly, base, lap, pos, rest, count) && count > 0 && ValidRing(poly, rest) && !IsEar(poly, rest)
    ensures var lap', pos' := if pos + 1 == |base| then lap + 1 else lap, if pos + 1 == |base| then 0 else pos + 1;
            Searching(poly, base, lap', pos', rest[1..] + [rest[0]], count - 1)
  {
    hide IsEar;
    if pos + 1 == |base| {
      assert rest[1..] + [rest[0]] == Turn(base, 0);
    } else {
      assert rest[1..] + [rest[0]] == Turn(base, pos + 1);
    }
  }

  lemma SearchEnds(poly: seq<Point>, base: Ring, lap: nat, pos: nat, rest: Ring)
    requires Searching(poly, base, lap, pos, rest, 0)
    ensures NoEar(poly, rest)
  {
    assert lap == 2 && rest == base;
  }

  /** What holds while ears are clipped. */
  ghost predicate Clipping(poly: seq<Point>, rings: seq<Ring>, rest: Ring, base: Ring, lap: nat, pos: nat, count: nat) {
    && Clipped(poly, StartRing(poly), rings, rest) && |rings| + |rest| == |poly| && |rest| >= 3
    && (|rest| > 3 ==> Searching(poly, base, lap, pos, rest, count))
  }

  lemma ClippingStarts(poly: seq<Point>)
    requires |poly| > 3
    ensures Clipping(poly, [], StartRing(poly), StartRing(poly), 0, 0, 2 * |poly|)
    ensures ClippedSizes(poly, []) && Ears(poly, []) == []
  {
    hide IsEar;
    StartValid(poly);
    ClippedNone(poly, StartRing(poly));
    SearchStarts(poly, StartRing(poly));
  }

  lemma ClippingEar(poly: seq<Point>, rings: seq<Ring>, rest: Ring, base: Ring, lap: nat, pos: nat, count: nat)
    requires Clipping(poly, rings, rest, base, lap, pos, count) && |rest| > 3 && ValidRing(poly, rest) && IsEar(poly, rest)
    ensures Clipping(poly, rings + [rest], rest[1..], rest[1..], 0, 0, 2 * |rest[1..]|)
  {
    hide IsEar, Clipped, StartRing;
    ClippedEar(poly, StartRing(poly), rings, rest);
    SearchStarts(poly, rest[1..]);
  }

  lemma ClippingTurn(poly: seq<Point>, rings: seq<Ring>, rest: Ring, base: Ring, lap: nat, pos: nat, count: nat)
    requires Clipping(poly, rings, rest, base, lap, pos, count) && |rest| > 3 && ValidRing(poly, rest) && !IsEar(poly, rest)
    requires count > 0
    ensures var lap', pos' := if pos + 1 == |base| then lap + 1 else lap, if pos + 1 == |base| then 0 else pos + 1;
            Clipping(poly, rings, rest[1..] + [rest[0]], base, lap', pos', count - 1)
  {
    hide IsEar, Clipped, Searching, StartRing;
    ClippedTurned(poly, StartRing(poly), rings, rest);
    SearchGoesOn(poly, base, lap, pos, rest, count);
  }

  lemma ClippingEnds(poly: seq<Point>, rings: seq<Ring>, rest: Ring, base: Ring, lap: nat, pos: nat)
    requires Clipping(poly, rings, rest, base, lap, pos, 0) && |rest| > 3
    ensures NoEar(poly, rest)
  {
    hide Clipped, NoEar;
    SearchEnds(poly, base, lap, pos, rest);
  }

  lemma ClippingValid(poly: seq<Point>, rings: seq<Ring>, rest: Ring, base: Ring, lap: nat, pos: nat, count: nat)
    requires Clipping(poly, rings, rest, base, lap, pos, count)
    ensures ValidRing(poly, rest) && Clipped(poly, StartRing(poly), rings, rest) && |rings| + |rest| == |poly|
  {}

  /** The first index becomes the last of the remaining ones. */
  method TurnIndices(indices: array<nat>, remaining: nat)
    requires 0 < remaining <= indices.Length
    modifies indices
    ensures indices[..remaining] == old(indices[..remaining])[1..] + [old(indices[0])]
  {
    var first := indices[0];
    ShiftLeft(indices, remaining);
    indices[remaining - 1] := first;
  }

  /** The clipping loop: until three are left, or every turn has failed twice. */
  method ClipEars(poly: seq<Point>, indices: array<nat>) returns (result: seq<Triangle>, remaining: nat, ghost rings: seq<Ring>)
    requires |poly| > 3 && indices[..] == StartRing(poly)
    modifies indices
    ensures 3 <= remaining <= indices.Length && ClippedSizes(poly, rings) && result == Ears(poly, rings)
    ensures Clipped(poly, StartRing(poly), rings, indices[..remaining]) && |rings| + remaining == |poly|
    ensures remaining > 3 ==> NoEar(poly, indices[..remaining])
  {
    StartValid(poly);
    hide IsEar, Clipping, Clipped, NoEar, ValidRing, ClippedSizes, Ears, StartRing;
    result, rings, remaining := [], [], |poly|;
    var count := 2 * remaining;
    ghost var rest: Ring := indices[..];
    ghost var base, lap: nat, pos: nat := rest, 0, 0;
    ClippingStarts(poly);
    assert indices[..remaining] == rest;
    while remaining > 3
      invariant 3 <= remaining <= indices.Length && 0 <= count && rest == indices[..remaining]
      invariant Clipping(poly, rings, rest, base, lap, pos, count)
      invariant ClippedSizes(poly, rings) && result == Ears(poly, rings)
      decreases remaining, count
    {
      if count <= 0 { break; }
      ClippingValid(poly, rings, rest, base, lap, pos, count);
      WrapsNot(remaining);
      var prevIdx := indices[(remaining - 1) % remaining];
      var currIdx := indices[0];
      var nextIdx := indices[1];
      assert prevIdx == rest[remaining - 1] && currIdx == rest[0] && nextIdx == rest[1];
      IndicesValid(poly, rest);
      var ear := TestEar(poly, indices, remaining, prevIdx, currIdx, nextIdx);
      if ear {
        result := result + [Triangle(poly[prevIdx], poly[currIdx], poly[nextIdx])];
        EarsSnoc(poly, rings, rest);
        ClippingEar(poly, rings, rest, base, lap, pos, count);
        ShiftLeft(indices, remaining);
        remaining := remaining - 1;
        count := 2 * remaining;
        rings, rest := rings + [rest], rest[1..];
        base, lap, pos := rest, 0, 0;
      } else {
        ClippingTurn(poly, rings, rest, base, lap, pos, count);
        TurnIndices(indices, remaining);
        count := count - 1;
        lap, pos := if pos + 1 == |base| then lap + 1 else lap, if pos + 1 == |base| then 0 else pos + 1;
        rest := rest[1..] + [rest[0]];
      }
    }
    ClippingValid(poly, rings, rest, base, lap, pos, count);
    if remaining > 3 { ClippingEnds(poly, rings, rest, base, lap, pos); }
  }

  method Triangulate(poly: seq<Point>) returns (result: seq<Triangle>, ghost rings: seq<Ring>, ghost rest: Ring)
    ensures |poly| < 3 ==> result == []
    ensures |poly| == 3 ==> result == [Triangle(poly[0], poly[1], poly[2])]
    ensures |poly| > 3 ==>
              && Clipped(poly, StartRing(poly), rings, rest) && |rest| >= 3 && |rings| + |rest| == |poly|
              && result == Ears(poly, rings) + (if |rest| == 3 then [LastTriangle(poly, rest)] else [])
              && (|rest| > 3 ==> NoEar(poly, rest))
  {
    rings, rest := [], [];
    if |poly| < 3 { return [], [], []; }
    if |poly| == 3 { return [Triangle(poly[0], poly[1], poly[2])], [], []; }
    hide Clipped, NoEar, StartRing, Area2;
    var signedArea := SignedArea(poly);
    var indices := StartIndices(poly, signedArea);
    var remaining;
    result, remaining, rings := ClipEars(poly, indices);
    rest := indices[..remaining];
    ClippedValid(poly, StartRing(poly), rings, rest);
    if remaining == 3 {
      assert indices[0] == rest[0] && indices[1] == rest[1] && indices[2] == rest[2];
      result := result + [Triangle(poly[indices[0]], poly[indices[1]], poly[indices[2]])];
    }
  }

  function LastTriangle(poly: seq<Point>, rest: Ring): Triangle
    requires ValidRing(poly, rest) && |rest| == 3
  {
    Triangle(poly[rest[0]], poly[rest[1]], poly[rest[2]])
  }

  lemma IndicesValid(poly: seq<Point>, ring: Ring)
    requires ValidRing(poly, ring)
    ensures forall i :: 0 <= i < |ring| ==> ring[i] < |poly|
  {}

  lemma WrapsNot(n: nat)
    requires n > 0
    ensures (n - 1) % n == n - 1
  {}

  predicate ClippedSizes(poly: seq<Point>, rings: seq<Ring>) {
    forall k {:trigger rings[k]} :: 0 <= k < |rings| ==> |rings[k]| > 3 && ValidRing(poly, rings[k])
  }

  lemma ClippedValid(poly: seq<Point>, start: Ring, rings: seq<Ring>, rest: Ring)
    requires Clipped(poly, start, rings, rest)
    ensures ValidRing(poly, rest) && ClippedSizes(poly, rings)
  {}
}
