/** The search for a label point (internal/geo/polylabel.go): branch and bound over square cells. */
module Polylabels {
  import opened Plane
  import opened OrientedBox
  import LabelDistances

  type Dist = Point -> real

  datatype Cell = Cell(x: real, y: real, half: real, d: real, max: real) {
    predicate Covers(q: Point) { x - half <= q.x <= x + half && y - half <= q.y <= y + half }
  }

  function NewCell(dist: Dist, root2: real, x: real, y: real, half: real): Cell {
    var d := dist(Point(x, y));
    Cell(x, y, half, d, d + half * root2)
  }

  /** No point of a cell is farther inside than the cell's centre by more than half a diagonal. */
  ghost predicate CellBound(dist: Dist, root2: real) {
    forall x: real, y: real, half: real, q: Point {:trigger NewCell(dist, root2, x, y, half).Covers(q)} ::
      half >= 0.0 && NewCell(dist, root2, x, y, half).Covers(q) ==> dist(q) <= NewCell(dist, root2, x, y, half).max
  }

  /** A cell as the search makes them, smaller cells aside. */
  predicate CellOK(dist: Dist, root2: real, c: Cell) { c.half > 0.0 && c == NewCell(dist, root2, c.x, c.y, c.half) }

  predicate CellsOK(dist: Dist, root2: real, cells: seq<Cell>) {
    forall k {:trigger cells[k]} :: 0 <= k < |cells| ==> CellOK(dist, root2, cells[k])
  }

  // ---- how often a cell can be divided ----------------------------------------------------------------

  /** Half a diagonal in units of the precision. */
  function InPrecisions(half: real, root2: real, precision: real): real
    requires precision > 0.0
  {
    half * root2 / precision
  }

  /** The number of halvings until half a diagonal is within the precision. */
  function Depth(half: real, root2: real, precision: real): nat
    requires half > 0.0 && root2 > 0.0 && precision > 0.0
    decreases InPrecisions(half, root2, precision).Floor
  {
    if half * root2 <= precision then 0
    else
      HalvingShrinks(half, root2, precision);
      1 + Depth(half / 2.0, root2, precision)
  }

  lemma HalvingShrinks(half: real, root2: real, precision: real)
    requires half > 0.0 && root2 > 0.0 && precision > 0.0 && half * root2 > precision
    ensures 0 <= InPrecisions(half / 2.0, root2, precision).Floor < InPrecisions(half, root2, precision).Floor
  {
    var r, h := InPrecisions(half, root2, precision), InPrecisions(half / 2.0, root2, precision);
    AboveOne(half * root2, precision);
    assert half / 2.0 * root2 == half * root2 / 2.0;
    HalfQuotient(half * root2, precision);
    assert h == r / 2.0;
  }

  lemma QuotientIs(n: real, d: real, q: real)
    requires d != 0.0 && Mul(q, d) == n
    ensures n / d == q
  {}

  lemma QuotientTimes(n: real, d: real)
    requires d != 0.0
    ensures Mul(n / d, d) == n
  {}

  lemma HalfQuotient(n: real, d: real)
    requires d > 0.0
    ensures n / 2.0 / d == n / d / 2.0
  {
    QuotientTimes(n, d);
    HalfMul(n / d, d);
    QuotientIs(n / 2.0, d, n / d / 2.0);
  }

  lemma HalfMul(r: real, d: real)
    ensures Mul(r / 2.0, d) == Mul(r, d) / 2.0
  {}

  lemma AboveOne(a: real, b: real)
    requires b > 0.0 && a > b
    ensures a / b > 1.0
  {
    var r := a / b;
    QuotientTimes(a, b);
    hide Mul;
    if r <= 1.0 {
      MulMonotone(r, 1.0, b);
      MulOne(b);
    }
  }

  lemma MulOne(b: real)
    ensures Mul(1.0, b) == b
  {}

  /** The number of cells a cell can give rise to, itself included. */
  function Tree(depth: nat): nat { if depth == 0 then 1 else 1 + 4 * Tree(depth - 1) }

  function Weight(dist: Dist, root2: real, precision: real, cells: seq<Cell>): nat
    requires root2 > 0.0 && precision > 0.0 && CellsOK(dist, root2, cells)
  {
    if cells == [] then 0
    else Weight(dist, root2, precision, cells[..|cells| - 1]) + Tree(Depth(cells[|cells| - 1].half, root2, precision))
  }

  lemma WeightSnoc(dist: Dist, root2: real, precision: real, cells: seq<Cell>, c: Cell)
    requires root2 > 0.0 && precision > 0.0 && CellsOK(dist, root2, cells) && CellOK(dist, root2, c)
    ensures Weight(dist, root2, precision, cells + [c]) ==
            Weight(dist, root2, precision, cells) + Tree(Depth(c.half, root2, precision))
  {
    assert (cells + [c])[..|cells|] == cells;
  }

  lemma {:induction false} WeightWithout(dist: Dist, root2: real, precision: real, cells: seq<Cell>, k: nat)
    requires root2 > 0.0 && precision > 0.0 && CellsOK(dist, root2, cells) && k < |cells|
    ensures Weight(dist, root2, precision, cells) ==
            Weight(dist, root2, precision, cells[..k] + cells[k + 1..]) + Tree(Depth(cells[k].half, root2, precision))
    decreases |cells|
  {
    hide Tree, Depth, CellOK;
    var n := |cells| - 1;
    var front, last := cells[..n], cells[n];
    assert cells == front + [last];
    WeightSnoc(dist, root2, precision, front, last);
    if k == n {
      assert cells[..k] + cells[k + 1..] == front;
    } else {
      WeightWithout(dist, root2, precision, front, k);
      assert cells[..k] + cells[k + 1..] == (front[..k] + front[k + 1..]) + [last];
      WeightSnoc(dist, root2, precision, front[..k] + front[k + 1..], last);
    }
  }

  // ---- the search -----------------------------------------------------------------------------------------

  /** The queue's Pop: a cell of greatest bound. */
  method PopMax(queue: seq<Cell>) returns (k: nat)
    requires queue != []
    ensures k < |queue| && forall j {:trigger queue[j]} :: 0 <= j < |queue| ==> queue[j].max <= queue[k].max
  {
    k := 0;
    for j := 1 to |queue|
      invariant k < |queue| && forall i {:trigger queue[i]} :: 0 <= i < j ==> queue[i].max <= queue[k].max
    {
      if queue[j].max > queue[k].max { k := j; }
    }
  }

  /** A point of the box is settled, or some queued cell still covers it. */
  ghost predicate Accounted(dist: Dist, queue: seq<Cell>, best: Cell, precision: real, q: Point) {
    dist(q) <= best.d + precision || exists k :: 0 <= k < |queue| && queue[k].Covers(q)
  }

  ghost predicate AllAccounted(dist: Dist, queue: seq<Cell>, best: Cell, precision: real, box: Rect) {
    forall q {:trigger Accounted(dist, queue, best, precision, q)} :: box.Has(q) ==> Accounted(dist, queue, best, precision, q)
  }

  function Quarters(dist: Dist, root2: real, c: Cell): seq<Cell> {
    var h := c.half / 2.0;
    [NewCell(dist, root2, c.x - h, c.y - h, h), NewCell(dist, root2, c.x + h, c.y - h, h),
     NewCell(dist, root2, c.x - h, c.y + h, h), NewCell(dist, root2, c.x + h, c.y + h, h)]
  }

  lemma WhichQuarter(dist: Dist, root2: real, c: Cell, q: Point) returns (i: nat)
    requires c.Covers(q)
    ensures i < 4 && Quarters(dist, root2, c)[i].Covers(q)
  {
    i := if q.x <= c.x then (if q.y <= c.y then 0 else 2) else (if q.y <= c.y then 1 else 3);
  }

  function Better(best: Cell, c: Cell): Cell { if c.d > best.d then c else best }

  /** Dropping a cell whose bound is within the precision settles the points it covers. */
  lemma DropAccounts(dist: Dist, root2: real, queue: seq<Cell>, k: nat, best: Cell, precision: real, box: Rect)
    requires CellBound(dist, root2) && k < |queue| && CellOK(dist, root2, queue[k])
    requires AllAccounted(dist, queue, best, precision, box)
    requires queue[k].max - Better(best, queue[k]).d <= precision
    ensures AllAccounted(dist, queue[..k] + queue[k + 1..], Better(best, queue[k]), precision, box)
  {
    var rest, better := queue[..k] + queue[k + 1..], Better(best, queue[k]);
    forall q | box.Has(q) ensures Accounted(dist, rest, better, precision, q) {
      assert Accounted(dist, queue, best, precision, q);
      if dist(q) > better.d + precision {
        var j :| 0 <= j < |queue| && queue[j].Covers(q);
        Bounded(dist, root2, queue[k], q);
        assert j != k;
        assert rest[if j < k then j else j - 1] == queue[j];
      }
    }
  }

  lemma Bounded(dist: Dist, root2: real, c: Cell, q: Point)
    requires CellBound(dist, root2) && CellOK(dist, root2, c)
    ensures c.Covers(q) ==> dist(q) <= c.max
  {
    assert NewCell(dist, root2, c.x, c.y, c.half) == c;
  }

  /** Dividing a cell keeps its points covered. */
  lemma DivideAccounts(dist: Dist, root2: real, queue: seq<Cell>, k: nat, best: Cell, precision: real, box: Rect)
    requires k < |queue| && AllAccounted(dist, queue, best, precision, box)
    ensures AllAccounted(dist, queue[..k] + queue[k + 1..] + Quarters(dist, root2, queue[k]), Better(best, queue[k]), precision, box)
  {
    var rest := queue[..k] + queue[k + 1..];
    var quarters := Quarters(dist, root2, queue[k]);
    var all, better := rest + quarters, Better(best, queue[k]);
    forall q | box.Has(q) ensures Accounted(dist, all, better, precision, q) {
      assert Accounted(dist, queue, best, precision, q);
      if dist(q) > better.d + precision {
        var j :| 0 <= j < |queue| && queue[j].Covers(q);
        if j == k {
          var i := WhichQuarter(dist, root2, queue[k], q);
          assert all[|rest| + i] == quarters[i];
        } else {
          assert all[if j < k then j else j - 1] == queue[j];
        }
      }
    }
  }

  lemma DropShrinks(dist: Dist, root2: real, precision: real, queue: seq<Cell>, k: nat)
    requires root2 > 0.0 && precision > 0.0 && CellsOK(dist, root2, queue) && k < |queue|
    ensures CellsOK(dist, root2, queue[..k] + queue[k + 1..])
    ensures Weight(dist, root2, precision, queue[..k] + queue[k + 1..]) < Weight(dist, root2, precision, queue)
  {
    hide CellOK;
    WeightWithout(dist, root2, precision, queue, k);
  }

  /** A divided cell weighs more than its quarters: it was larger than the precision. */
  lemma DivideShrinks(dist: Dist, root2: real, precision: real, queue: seq<Cell>, k: nat)
    requires root2 > 0.0 && precision > 0.0 && CellsOK(dist, root2, queue) && k < |queue|
    requires queue[k].half * root2 > precision
    ensures var next := queue[..k] + queue[k + 1..] + Quarters(dist, root2, queue[k]);
            && CellsOK(dist, root2, next)
            && Weight(dist, root2, precision, next) < Weight(dist, root2, precision, queue)
  {
    hide Weight, Tree, Depth;
    var rest, qs := queue[..k] + queue[k + 1..], Quarters(dist, root2, queue[k]);
    WeightWithout(dist, root2, precision, queue, k);
    QuartersOK(dist, root2, precision, queue[k]);
    hide CellOK, NewCell, Quarters;
    WeightSnoc(dist, root2, precision, rest, qs[0]);
    WeightSnoc(dist, root2, precision, rest + [qs[0]], qs[1]);
    WeightSnoc(dist, root2, precision, rest + [qs[0]] + [qs[1]], qs[2]);
    WeightSnoc(dist, root2, precision, rest + [qs[0]] + [qs[1]] + [qs[2]], qs[3]);
    assert rest + [qs[0]] + [qs[1]] + [qs[2]] + [qs[3]] == rest + qs;
    TreeDivides(Depth(queue[k].half, root2, precision));
  }

  lemma TreeDivides(depth: nat)
    ensures depth > 0 ==> 4 * Tree(depth - 1) < Tree(depth)
  {}

  lemma QuartersOK(dist: Dist, root2: real, precision: real, c: Cell)
    requires root2 > 0.0 && precision > 0.0 && CellOK(dist, root2, c) && c.half * root2 > precision
    ensures var qs := Quarters(dist, root2, c);
            |qs| == 4 && (forall i :: 0 <= i < 4 ==> CellOK(dist, root2, qs[i]) && qs[i].half == c.half / 2.0)
            && Depth(c.half, root2, precision) == 1 + Depth(c.half / 2.0, root2, precision)
  {
    var qs := Quarters(dist, root2, c);
    assert qs[0].half == qs[1].half == qs[2].half == qs[3].half == c.half / 2.0;
  }

  /** The loop: the queue runs empty, and then no point of the box is better than the best by more than the
      precision. */
  method Search(dist: Dist, root2: real, start: seq<Cell>, first: Cell, precision: real, ghost box: Rect) returns (best: Cell)
    requires root2 > 0.0 && precision > 0.0 && CellBound(dist, root2)
    requires CellsOK(dist, root2, start)
    requires AllAccounted(dist, start, first, precision, box) && first.d == dist(Point(first.x, first.y))
    ensures forall q :: box.Has(q) ==> dist(q) <= best.d + precision
    ensures best.d == dist(Point(best.x, best.y)) && best.d >= first.d
  {
    hide CellBound, AllAccounted, Weight;
    best := first;
    var queue := start;
    while queue != []
      invariant CellsOK(dist, root2, queue)
      invariant AllAccounted(dist, queue, best, precision, box)
      invariant best.d == dist(Point(best.x, best.y)) && best.d >= first.d
      decreases Weight(dist, root2, precision, queue)
    {
      var k := PopMax(queue);
      var c := queue[k];
      assert c in queue;
      ghost var was, before := queue, best;
      queue := queue[..k] + queue[k + 1..];
      if c.d > best.d { best := c; }
      if c.max - best.d <= precision {
        DropAccounts(dist, root2, was, k, before, precision, box);
        DropShrinks(dist, root2, precision, was, k);
        continue;
      }
      var q := c.half / 2.0;
      DivideAccounts(dist, root2, was, k, before, precision, box);
      DivideShrinks(dist, root2, precision, was, k);
      queue := queue + [NewCell(dist, root2, c.x - q, c.y - q, q), NewCell(dist, root2, c.x + q, c.y - q, q),
                        NewCell(dist, root2, c.x - q, c.y + q, q), NewCell(dist, root2, c.x + q, c.y + q, q)];
    }
    AllSettled(dist, best, precision, box);
  }

  lemma AllSettled(dist: Dist, best: Cell, precision: real, box: Rect)
    requires AllAccounted(dist, [], best, precision, box)
    ensures forall q :: box.Has(q) ==> dist(q) <= best.d + precision
  {
    forall q | box.Has(q) ensures dist(q) <= best.d + precision {
      assert Accounted(dist, [], best, precision, q);
    }
  }

  // ---- the grid the search starts from ---------------------------------------------------------------------

  /** Every point of the columns filled so far, and of the current one below y, is in a cell. */
  ghost predicate ColumnsCovered(queue: seq<Cell>, box: Rect, x: real) {
    forall q {:trigger box.Has(q)} :: box.Has(q) && q.x <= x ==> exists k :: 0 <= k < |queue| && queue[k].Covers(q)
  }

  ghost predicate ColumnCovered(queue: seq<Cell>, box: Rect, x: real, x': real, y: real) {
    forall q {:trigger box.Has(q)} :: box.Has(q) && x <= q.x <= x' && q.y <= y ==> exists k :: 0 <= k < |queue| && queue[k].Covers(q)
  }

  lemma StepsLeft(a: real, b: real, size: real)
    requires size > 0.0 && a < b
    ensures ((b - a) / size).Floor >= 0
    ensures ((b - (a + size)) / size).Floor < ((b - a) / size).Floor
  {
    var r := (b - a) / size;
    QuotientTimes(b - a, size);
    assert Mul(r - 1.0, size) == b - (a + size) by {
      MulSub(r, 1.0, size);
      MulOne(size);
    }
    QuotientIs(b - (a + size), size, r - 1.0);
    hide Mul;
    MulSign(r, size);
  }

  method Grid(dist: Dist, root2: real, box: Rect, cellSize: real) returns (queue: seq<Cell>)
    requires cellSize > 0.0 && box.minX < box.maxX && box.minY < box.maxY
    ensures CellsOK(dist, root2, queue)
    ensures ColumnsCovered(queue, box, box.maxX)
  {
    var half := cellSize / 2.0;
    queue := [];
    var x := box.minX;
    while x < box.maxX
      invariant x >= box.minX && CellsOK(dist, root2, queue)
      invariant x > box.minX ==> ColumnsCovered(queue, box, x)
      decreases ((box.maxX - x) / cellSize).Floor
    {
      StepsLeft(x, box.maxX, cellSize);
      queue := Column(dist, root2, box, cellSize, x, queue);
      x := x + cellSize;
    }
  }

  method Column(dist: Dist, root2: real, box: Rect, cellSize: real, x: real, before: seq<Cell>) returns (queue: seq<Cell>)
    requires cellSize > 0.0 && box.minY < box.maxY && x >= box.minX && CellsOK(dist, root2, before)
    requires x > box.minX ==> ColumnsCovered(before, box, x)
    ensures CellsOK(dist, root2, queue)
    ensures ColumnsCovered(queue, box, x + cellSize)
  {
    var half := cellSize / 2.0;
    queue := before;
    var y := box.minY;
    while y < box.maxY
      invariant y >= box.minY && CellsOK(dist, root2, queue) && before <= queue
      invariant y > box.minY ==> ColumnCovered(queue, box, x, x + cellSize, y)
      decreases ((box.maxY - y) / cellSize).Floor
    {
      StepsLeft(y, box.maxY, cellSize);
      var c := NewCell(dist, root2, x + half, y + half, half);
      CellAdds(queue, box, x, x + cellSize, y, y + cellSize, c);
      queue := queue + [c];
      y := y + cellSize;
    }
    ColumnAdds(before, queue, box, x, x + cellSize);
  }

  lemma CellAdds(queue: seq<Cell>, box: Rect, x: real, x': real, y: real, y': real, c: Cell)
    requires y >= box.minY && (y > box.minY ==> ColumnCovered(queue, box, x, x', y))
    requires forall q: Point :: x <= q.x <= x' && y <= q.y <= y' ==> c.Covers(q)
    ensures ColumnCovered(queue + [c], box, x, x', y')
  {
    var all := queue + [c];
    forall q | box.Has(q) && x <= q.x <= x' && q.y <= y' ensures exists k :: 0 <= k < |all| && all[k].Covers(q) {
      if q.y >= y {
        assert all[|queue|].Covers(q);
      } else {
        var k :| 0 <= k < |queue| && queue[k].Covers(q);
        assert all[k].Covers(q);
      }
    }
  }

  lemma ColumnAdds(before: seq<Cell>, queue: seq<Cell>, box: Rect, x: real, x': real)
    requires before <= queue && x >= box.minX && (x > box.minX ==> ColumnsCovered(before, box, x))
    requires ColumnCovered(queue, box, x, x', box.maxY)
    ensures ColumnsCovered(queue, box, x')
  {
    forall q | box.Has(q) && q.x <= x' ensures exists k :: 0 <= k < |queue| && queue[k].Covers(q) {
      if q.x < x {
        var k :| 0 <= k < |before| && before[k].Covers(q);
        assert queue[k] == before[k];
      }
    }
  }

  /** The distance the cells are measured with. */
  function Measure(root: LabelDistances.Root, poly: seq<Point>): Dist
    requires poly != []
  {
    (p: Point) => LabelDistances.SignedDistance(root, poly, p)
  }

  /** The bound of every cell holds. */
  lemma CellBoundHolds(root: LabelDistances.Root, poly: seq<Point>)
    requires LabelDistances.IsRoot(root) && poly != []
    ensures CellBound(Measure(root, poly), root(2.0)) && root(2.0) > 0.0
  {
    var dist, root2 := Measure(root, poly), root(2.0);
    assert root2 > 0.0 by { assert Sq(root2) == 2.0; }
    hide LabelDistances.SignedDistance, LabelDistances.Length;
    forall x: real, y: real, half: real, q: Point | half >= 0.0 && NewCell(dist, root2, x, y, half).Covers(q)
      ensures dist(q) <= NewCell(dist, root2, x, y, half).max
    {
      LabelDistances.SignedDistanceMoves(root, poly, Point(x, y), q);
      LabelDistances.HalfDiagonal(root, Point(x, y), q, half);
    }
  }

  /** Polylabel, the centroid given.  In the whole box of the polygon no point is farther inside than the one
      returned by more than the precision, and the distance returned is that point's; a box without extent
      gives its corner. */
  method Polylabel(root: LabelDistances.Root, poly: seq<Point>, centroid: Point, precision: real) returns (best: Cell)
    requires poly != [] && LabelDistances.IsRoot(root)
    ensures forall box {:trigger IsBox(poly, box)} :: IsBox(poly, box) && box.minX < box.maxX && box.minY < box.maxY ==>
              && (forall q :: box.Has(q) ==>
                    LabelDistances.SignedDistance(root, poly, q) <= best.d + if precision <= 0.0 then 1.0 else precision)
              && best.d == LabelDistances.SignedDistance(root, poly, Point(best.x, best.y))
              && best.d >= LabelDistances.SignedDistance(root, poly, centroid)
    ensures forall box {:trigger IsBox(poly, box)} :: IsBox(poly, box) && !(box.minX < box.maxX && box.minY < box.maxY) ==>
              best == Cell(box.minX, box.minY, 0.0, 0.0, 0.0)
  {
    CellBoundHolds(root, poly);
    hide IsBox, LabelDistances.SignedDistance, LabelDistances.IsRoot, CellBound;
    best := BestCell(Measure(root, poly), root(2.0), poly, centroid, precision);
  }

  /** The body, for any distance that keeps within the cells' bounds. */
  method BestCell(dist: Dist, root2: real, poly: seq<Point>, centroid: Point, precision: real) returns (best: Cell)
    requires poly != [] && root2 > 0.0 && CellBound(dist, root2)
    ensures forall box {:trigger IsBox(poly, box)} :: IsBox(poly, box) && box.minX < box.maxX && box.minY < box.maxY ==>
              && (forall q :: box.Has(q) ==> dist(q) <= best.d + if precision <= 0.0 then 1.0 else precision)
              && best.d == dist(Point(best.x, best.y)) && best.d >= dist(centroid)
    ensures forall box {:trigger IsBox(poly, box)} :: IsBox(poly, box) && !(box.minX < box.maxX && box.minY < box.maxY) ==>
              best == Cell(box.minX, box.minY, 0.0, 0.0, 0.0)
  {
    var used := if precision <= 0.0 then 1.0 else precision;
    var r := BoundingBox(poly);
    BoxUnique(poly, r);
    BoxOrdered(poly, r);
    hide IsBox, CellBound;
    var width, height := r.maxX - r.minX, r.maxY - r.minY;
    var cellSize := Min(width, height);
    if cellSize == 0.0 {
      best := Cell(r.minX, r.minY, 0.0, 0.0, 0.0);
      return;
    }
    var queue := Grid(dist, root2, r, cellSize);
    best := NewCell(dist, root2, centroid.x, centroid.y, 0.0);
    var middle := NewCell(dist, root2, r.minX + width / 2.0, r.minY + height / 2.0, 0.0);
    if middle.d > best.d { best := middle; }
    GridAccounts(dist, queue, best, used, r);
    best := Search(dist, root2, queue, best, used, r);
  }

  lemma BoxUnique(poly: seq<Point>, r: Rect)
    requires IsBox(poly, r)
    ensures forall box {:trigger IsBox(poly, box)} :: IsBox(poly, box) ==> box == r
  {}

  lemma BoxOrdered(poly: seq<Point>, r: Rect)
    requires IsBox(poly, r)
    ensures r.minX <= r.maxX && r.minY <= r.maxY
  {
    var k :| 0 <= k < |poly| && poly[k].x == r.minX;
  }

  lemma GridAccounts(dist: Dist, queue: seq<Cell>, best: Cell, precision: real, box: Rect)
    requires ColumnsCovered(queue, box, box.maxX)
    ensures AllAccounted(dist, queue, best, precision, box)
  {}
}
