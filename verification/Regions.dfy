/** A region's trees and inside snapshots, and the geofence computation over them
    (internal/engine/geofence.go and engine.go). */
module Regions {
  import opened Domain
  import opened Plane
  import opened EvenOdd
  import opened EarClipping
  import opened Triangulation
  import opened OrientedBox
  import opened SeparatingAxis
  import opened AxesSuffice
  import opened Interiors
  import opened EarsExist
  import opened SpatialIndexes
  import opened Polygons

  /** The trigonometric functions, of which only the Pythagorean identity is used. */
  datatype Trig = Trig(cos: real -> real, sin: real -> real) {
    ghost predicate Valid() { forall r {:trigger cos(r)} :: cos(r) * cos(r) + sin(r) * sin(r) == 1.0 }
  }

  datatype ObjectItem = ObjectItem(id: ObjectID, obb: OBB, pos: Position, dims: Dims)
  datatype AreaItem = AreaItem(id: AreaID, triangles: seq<Plane.Triangle>)

  function NewOBB(trig: Trig, x: real, y: real, dims: Dims, rot: real): OBB {
    OBB(x, y, dims.width / 2.0, dims.height / 2.0, trig.cos(rot), trig.sin(rot))
  }

  function NewItem(trig: Trig, id: ObjectID, pos: Position, dims: Dims): ObjectItem {
    ObjectItem(id, NewOBB(trig, pos.x, pos.y, dims, pos.rotY), pos, dims)
  }

  lemma NewOBBValid(trig: Trig, x: real, y: real, dims: Dims, rot: real)
    requires trig.Valid() && Sized(dims)
    ensures NewOBB(trig, x, y, dims, rot).Valid()
  {}

  /** The object's rectangle, in its own terms: from the position, at most half the width along the rotated
      x axis and at most half the height along the rotated y axis. */
  ghost predicate Covers(trig: Trig, pos: Position, dims: Dims, p: Point) {
    exists u: real, v: real :: CoversAt(trig, pos, dims, p, u, v)
  }

  ghost predicate CoversAt(trig: Trig, pos: Position, dims: Dims, p: Point, u: real, v: real) {
    var c, s := trig.cos(pos.rotY), trig.sin(pos.rotY);
    && -dims.width <= 2.0 * u <= dims.width && -dims.height <= 2.0 * v <= dims.height
    && p == Point(pos.x + u * c - v * s, pos.y + u * s + v * c)
  }

  /** The rectangle placed for an object holds exactly the points the object covers. */
  lemma PlacedCovers(trig: Trig, id: ObjectID, pos: Position, dims: Dims, p: Point)
    requires trig.Valid()
    ensures NewItem(trig, id, pos, dims).obb.ContainsPoint(p) <==> Covers(trig, pos, dims, p)
  {
    var o := NewItem(trig, id, pos, dims).obb;
    PlacedAt(trig, id, pos, dims, p, o.LocalX(p), o.LocalY(p));
    hide CoversAt, OBB.LocalX, OBB.LocalY, OBB.ContainsPoint;
    forall u: real, v: real | CoversAt(trig, pos, dims, p, u, v) ensures o.ContainsPoint(p) {
      PlacedAt(trig, id, pos, dims, p, u, v);
    }
  }

  lemma PlacedAt(trig: Trig, id: ObjectID, pos: Position, dims: Dims, p: Point, u: real, v: real)
    requires trig.Valid()
    ensures var o := NewItem(trig, id, pos, dims).obb;
            CoversAt(trig, pos, dims, p, u, v) <==> o.ContainsPoint(p) && u == o.LocalX(p) && v == o.LocalY(p)
  {
    var o := NewItem(trig, id, pos, dims).obb;
    assert o.cos * o.cos + o.sin * o.sin == 1.0;
    PlacedCorner(trig, id, pos, dims, p, u, v);
    hide CoversAt, OBB.LocalX, OBB.LocalY, OBB.Corner, NewOBB;
    CornerIff(o, p, u, v);
  }

  lemma PlacedCorner(trig: Trig, id: ObjectID, pos: Position, dims: Dims, p: Point, u: real, v: real)
    ensures var o := NewItem(trig, id, pos, dims).obb;
            CoversAt(trig, pos, dims, p, u, v) <==> -o.hw <= u <= o.hw && -o.hh <= v <= o.hh && p == o.Corner(u, v)
  {}

  /** Local coordinates are unique, whatever the half-extents. */
  lemma CornerIff(o: OBB, p: Point, u: real, v: real)
    requires o.cos * o.cos + o.sin * o.sin == 1.0
    ensures p == o.Corner(u, v) <==> u == o.LocalX(p) && v == o.LocalY(p)
  {
    var unit := o.(hw := 1.0, hh := 1.0);
    UnitSame(o, unit, p, u, v);
    assert unit.Valid();
    hide OBB.LocalX, OBB.LocalY, OBB.Corner, OBB.Valid;
    FromLocal(unit, p);
    ToLocal(unit, u, v);
  }

  lemma UnitSame(o: OBB, unit: OBB, p: Point, u: real, v: real)
    requires unit == o.(hw := 1.0, hh := 1.0)
    ensures unit.LocalX(p) == o.LocalX(p) && unit.LocalY(p) == o.LocalY(p) && unit.Corner(u, v) == o.Corner(u, v)
  {}

  /** The areas whose box meets the object's box and one of whose triangles the object touches. */
  ghost function InsideSet(areas: map<ID, Boxed<AreaItem>>, obb: OBB, box: Rect): set<AreaID> {
    set id | id in areas && areas[id].box.Meets(box) && TouchesSome(obb, areas[id].item.triangles)
  }

  /** Lists the members of a set, in some order: the iteration over a Go map. */
  method ListSet(s: set<AreaID>) returns (ids: seq<AreaID>)
    ensures Lists(ids, s)
  {
    ids := [];
    var todo := s;
    while todo != {}
      invariant todo <= s && Lists(ids, s - todo)
      decreases |todo|
    {
      var id :| id in todo;
      todo := todo - {id};
      ListMore(ids, s - todo - {id}, id);
      assert s - todo - {id} + {id} == s - todo;
      ids := ids + [id];
    }
    assert s - {} == s;
  }

  lemma ListMore(ids: seq<AreaID>, s: set<AreaID>, id: AreaID)
    requires Lists(ids, s) && id !in s
    ensures Lists(ids + [id], s + {id})
  {
    assert Elems(ids + [id]) == Elems(ids) + {id};
    assert forall k :: 0 <= k < |ids| ==> ids[k] in Elems(ids);
  }

  /** Every object is indexed with its own rectangle and the box around it. */
  ghost predicate BoxesFit(trig: Trig, items: map<ID, Boxed<ObjectItem>>) {
    forall id {:trigger items[id]} :: id in items ==>
      items[id].item.obb == ObbOf(trig, items[id].item) && IsBox(items[id].item.obb.Corners(), items[id].box)
  }

  /** Every area is indexed with a box that holds the corners of its triangles. */
  ghost predicate AreasFit(areas: map<ID, Boxed<AreaItem>>) {
    forall id {:trigger areas[id]} :: id in areas ==> AreaFits(areas[id])
  }

  ghost predicate AreaFits(area: Boxed<AreaItem>) {
    forall t :: t in area.item.triangles ==> area.box.Has(t.a) && area.box.Has(t.b) && area.box.Has(t.c)
  }

  function ObbOf(trig: Trig, item: ObjectItem): OBB { NewOBB(trig, item.pos.x, item.pos.y, item.dims, item.pos.rotY) }

  /** The half-extents are not negative. */
  predicate Sized(dims: Dims) { dims.width >= 0.0 && dims.height >= 0.0 }

  class RegionState {
    const trig: Trig
    const tree: SpatialIndex<ObjectItem>
    const areas: SpatialIndex<AreaItem>
    var prevInside: map<ObjectID, set<AreaID>>

    constructor (trig: Trig)
      requires trig.Valid()
      ensures this.trig == trig
      ensures Valid() && fresh(tree) && fresh(areas) && prevInside == map[] && tree.byID == map[] && areas.byID == map[]
    {
      this.trig := trig;
      tree := new SpatialIndex((o: ObjectItem) => o.id);
      areas := new SpatialIndex((a: AreaItem) => a.id);
      prevInside := map[];
    }

    ghost predicate Valid()
      reads this, tree, areas
    {
      && trig.Valid() && tree.Valid() && areas.Valid() && BoxesFit(trig, tree.byID) && AreasFit(areas.byID)
      && (forall o: ObjectItem :: tree.key(o) == o.id) && (forall a: AreaItem :: areas.key(a) == a.id)
    }

    /** collectGeofenceResultLocked: the areas the object is in now, and listings of the differences to
        the stored snapshot. */
    method Collect(item: ObjectItem)
      returns (cur: set<AreaID>, inside: seq<AreaID>, enters: seq<AreaID>, exits: seq<AreaID>)
      requires Valid()
      ensures exists box :: IsBox(item.obb.Corners(), box) && cur == InsideSet(areas.byID, item.obb, box)
      ensures var prev := if item.id in prevInside then prevInside[item.id] else {};
              Lists(inside, cur) && Lists(enters, cur - prev) && Lists(exits, prev - cur)
    {
      hide Lists, TouchesSome;
      FourCorners(item.obb);
      var box := BoundingBox(item.obb.Corners());
      var candidates := areas.Search(box);
      cur := {};
      for k := 0 to |candidates|
        invariant forall id :: id in cur <==> exists j :: 0 <= j < k && candidates[j].id == id && TouchesSome(item.obb, candidates[j].triangles)
      {
        var touches := IntersectsTriangles(item.obb, candidates[k].triangles);
        if touches { cur := cur + {candidates[k].id}; }
      }
      CollectedIs(areas, candidates, cur, item.obb, box);
      var prev := if item.id in prevInside then prevInside[item.id] else {};
      enters := ListSet(cur - prev);
      exits := ListSet(prev - cur);
      inside := ListSet(cur);
    }

    /** RegisterArea in a known region: refused for an identifier with a dot and for points that are not a
        simple polygon, else the triangles and the box of the polygon are indexed. */
    method RegisterArea(id: AreaID, points: seq<Point>) returns (ok: bool, ghost rings: seq<Ring>, ghost rest: Ring)
      requires Valid()
      modifies areas
      ensures Valid()
      ensures ok <==> '.' !in id && Simple(points)
      ensures !ok ==> areas.byID == old(areas.byID)
      ensures ok ==> id in areas.byID && areas.byID == old(areas.byID)[id := areas.byID[id]] && areas.byID[id].item.id == id
      ensures ok ==> Triangulates(points, areas.byID[id].item.triangles, rings, rest) && IsBox(points, areas.byID[id].box)
      ensures ok ==> |areas.byID[id].item.triangles| == |points| - 2
    {
      hide Triangulates, IsBox, Apart, EdgesMeet, AreaFits;
      rings, rest, ok := [], [], false;
      if '.' in id { return; }
      if |points| < 3 { return; }
      ok := IsSimplePolygon(points);
      if !ok { return; }
      var box := BoundingBox(points);
      var triangles;
      triangles, rings, rest := Triangulate(points);
      TriangulatesNow(points, triangles, rings, rest);
      TriangulatedFits(points, triangles, rings, rest, id, box);
      AlwaysComplete(points, triangles, rings, rest);
      areas.Upsert(AreaItem(id, triangles), box);
    }

    /** RemoveArea in this region: the area goes, from the tree and from every snapshot, without an exit. */
    method RemoveArea(id: AreaID)
      requires Valid()
      modifies this`prevInside, areas
      ensures Valid() && areas.byID == old(areas.byID) - {id}
      ensures prevInside == if id in old(areas.byID)
                            then map o | o in old(prevInside) && Forgotten(old(prevInside), o, id) != {} :: Forgotten(old(prevInside), o, id)
                            else old(prevInside)
    {
      if id !in areas.byID {
        assert areas.byID - {id} == areas.byID;
        return;
      }
      ForgetEverywhere(id);
      areas.Delete(id);
    }

    /** Both loops over the snapshots: the area leaves each, and those left empty are deleted. */
    method ForgetEverywhere(id: AreaID)
      modifies this`prevInside
      ensures prevInside == map o | o in old(prevInside) && Forgotten(old(prevInside), o, id) != {} :: Forgotten(old(prevInside), o, id)
    {
      var todo := prevInside.Keys;
      while todo != {}
        invariant todo <= old(prevInside).Keys && prevInside.Keys == old(prevInside).Keys
        invariant forall o :: o in prevInside ==> prevInside[o] == if o in todo then old(prevInside)[o] else Forgotten(old(prevInside), o, id)
        decreases |todo|
      {
        var o :| o in todo;
        todo := todo - {o};
        if id in prevInside[o] {
          prevInside := prevInside[o := prevInside[o] - {id}];
        } else {
          assert prevInside[o] - {id} == prevInside[o];
        }
      }
      prevInside := map o | o in prevInside && prevInside[o] != {} :: prevInside[o];
    }

    method Withdraw(id: ObjectID)
      requires Valid()
      modifies tree
      ensures Valid() && tree.byID == old(tree.byID) - {id}
    {
      hide IsBox, Indexed, DistinctKeys, Backed;
      tree.Delete(id);
    }

    /** Upsert of an object with the box around its rectangle. */
    method Place(item: ObjectItem)
      requires Valid() && item.obb == ObbOf(trig, item)
      modifies tree
      ensures Valid() && item.id in tree.byID && tree.byID[item.id].item == item
      ensures tree.byID == old(tree.byID)[item.id := tree.byID[item.id]] && IsBox(item.obb.Corners(), tree.byID[item.id].box)
    {
      hide IsBox;
      FourCorners(item.obb);
      var box := BoundingBox(item.obb.Corners());
      tree.Upsert(item, box);
    }

    /** Every object in the tree has a proper rectangle, if its dimensions are not negative. */
    lemma PlacedValid(id: ObjectID)
      requires Valid() && id in tree.byID && Sized(tree.byID[id].item.dims)
      ensures tree.byID[id].item.obb.Valid()
      ensures forall p :: tree.byID[id].item.obb.ContainsPoint(p) <==> Covers(trig, tree.byID[id].item.pos, tree.byID[id].item.dims, p)
    {
      var item := tree.byID[id].item;
      NewOBBValid(trig, item.pos.x, item.pos.y, item.dims, item.pos.rotY);
      hide Covers, NewOBB, OBB.ContainsPoint, OBB.Valid, IsBox;
      forall p ensures item.obb.ContainsPoint(p) <==> Covers(trig, item.pos, item.dims, p) {
        PlacedCovers(trig, id, item.pos, item.dims, p);
      }
    }
  }

  function Forgotten(prev: map<ObjectID, set<AreaID>>, o: ObjectID, id: AreaID): set<AreaID>
    requires o in prev
  {
    prev[o] - {id}
  }

  lemma TriangulatesNow(poly: seq<Point>, ts: seq<Plane.Triangle>, rings: seq<Ring>, rest: Ring)
    requires |poly| >= 3
    requires |poly| == 3 ==> ts == [Plane.Triangle(poly[0], poly[1], poly[2])]
    requires |poly| > 3 ==>
              && Clipped(poly, StartRing(poly), rings, rest) && |rest| >= 3 && |rings| + |rest| == |poly|
              && ts == Ears(poly, rings) + (if |rest| == 3 then [LastTriangle(poly, rest)] else [])
              && (|rest| > 3 ==> NoEar(poly, rest))
    ensures Triangulates(poly, ts, rings, rest)
  {}

  lemma TriangulatedFits(poly: seq<Point>, ts: seq<Plane.Triangle>, rings: seq<Ring>, rest: Ring, id: AreaID, box: Rect)
    requires Triangulates(poly, ts, rings, rest) && IsBox(poly, box)
    ensures AreaFits(Boxed(box, AreaItem(id, ts)))
  {
    hide Triangulates, IsBox;
    forall t | t in ts ensures box.Has(t.a) && box.Has(t.b) && box.Has(t.c) {
      var k :| 0 <= k < |ts| && ts[k] == t;
      CornersFromPolygon(poly, ts, rings, rest, k);
      BoxHasCorners(poly, box, t);
    }
  }

  lemma CollectedIs(areas: SpatialIndex<AreaItem>, candidates: seq<AreaItem>, cur: set<AreaID>, obb: OBB, box: Rect)
    requires areas.Valid() && forall a: AreaItem :: areas.key(a) == a.id
    requires forall a :: a in candidates <==> a.id in areas.byID && areas.byID[a.id].item == a && areas.byID[a.id].box.Meets(box)
    requires forall id :: id in cur <==> exists j :: 0 <= j < |candidates| && candidates[j].id == id && TouchesSome(obb, candidates[j].triangles)
    ensures cur == InsideSet(areas.byID, obb, box)
  {
    hide TouchesSome;
    forall id ensures id in cur <==> id in InsideSet(areas.byID, obb, box) {
      if id in cur {
        var j :| 0 <= j < |candidates| && candidates[j].id == id && TouchesSome(obb, candidates[j].triangles);
        assert candidates[j] in candidates;
      }
      if id in InsideSet(areas.byID, obb, box) {
        var a := areas.byID[id].item;
        assert a.id == id && a in candidates;
        var j :| 0 <= j < |candidates| && candidates[j] == a;
      }
    }
  }

  // ---- no missed geofence ---------------------------------------------------------------------------------------

  /** No missed geofence, end to end: an object whose rotated rectangle shares a point with the even-odd
      interior of a registered polygon is found inside it: the area passes the search by boxes and the
      separating-axis test. */
  lemma NoMissedGeofence(areas: map<ID, Boxed<AreaItem>>, id: AreaID, points: seq<Point>, rings: seq<Ring>, rest: Ring,
                         trig: Trig, obj: ObjectID, pos: Position, dims: Dims, box: Rect, p: Point)
    requires id in areas && Triangulates(points, areas[id].item.triangles, rings, rest) && IsBox(points, areas[id].box)
    requires Simple(points) && trig.Valid() && Covers(trig, pos, dims, p) && Inside(p, points)
    requires IsBox(NewItem(trig, obj, pos, dims).obb.Corners(), box)
    ensures id in InsideSet(areas, NewItem(trig, obj, pos, dims).obb, box)
  {
    var obb := NewItem(trig, obj, pos, dims).obb;
    PlacedCovers(trig, obj, pos, dims, p);
    CoveringIsSized(trig, pos, dims, p);
    AlwaysComplete(points, areas[id].item.triangles, rings, rest);
    NewOBBValid(trig, pos.x, pos.y, dims, pos.rotY);
    hide Covers, NewOBB, Triangulates, Inside, OBB.ContainsPoint, OBB.Corners, OBB.Valid, Surrounded, Touches, Complete;
    var ts, r := areas[id].item.triangles, areas[id].box;
    InsideIsCovered(points, ts, rings, rest, p);
    var k :| 0 <= k < |ts| && Surrounded(p, ts[k].a, ts[k].b, ts[k].c);
    SharedPointTouches(obb, ts[k], p);
    CornersFromPolygon(points, ts, rings, rest, k);
    BoxHasCorners(points, r, ts[k]);
    SurroundedInBox(p, ts[k], r);
    BoxHoldsRectangle(obb, box, p);
    SharedPointMeets(r, box, p);
  }

  /** The object covers a point of one of the triangles. */
  ghost predicate CoversSome(trig: Trig, pos: Position, dims: Dims, ts: seq<Plane.Triangle>) {
    exists t, p :: t in ts && Covers(trig, pos, dims, p) && InHull(p, t.a, t.b, t.c)
  }

  /** The geofence computation is exact: an area is found if and only if the object covers a point of one of the
      area's triangles; the search by boxes loses none and the axes separate all others. */
  lemma FoundExactly(areas: map<ID, Boxed<AreaItem>>, id: AreaID, trig: Trig, obj: ObjectID, pos: Position, dims: Dims, box: Rect)
    requires AreasFit(areas) && trig.Valid() && Sized(dims) && IsBox(NewItem(trig, obj, pos, dims).obb.Corners(), box)
    ensures id in InsideSet(areas, NewItem(trig, obj, pos, dims).obb, box) <==>
            id in areas && CoversSome(trig, pos, dims, areas[id].item.triangles)
  {
    NewOBBValid(trig, pos.x, pos.y, dims, pos.rotY);
    var obb := NewItem(trig, obj, pos, dims).obb;
    hide NewOBB, Covers, InHull, OBB.ContainsPoint, OBB.Corners, OBB.Valid, Touches, IsBox;
    if id in areas {
      var ts := areas[id].item.triangles;
      if TouchesSome(obb, ts) {
        var k :| 0 <= k < |ts| && Touches(obb, ts[k]);
        TouchesIsExact(obb, ts[k]);
        var p :| obb.ContainsPoint(p) && InHull(p, ts[k].a, ts[k].b, ts[k].c);
        PlacedCovers(trig, obj, pos, dims, p);
        assert ts[k] in ts;
      }
      if CoversSome(trig, pos, dims, ts) {
        var t, p :| t in ts && Covers(trig, pos, dims, p) && InHull(p, t.a, t.b, t.c);
        PlacedCovers(trig, obj, pos, dims, p);
        TouchesIsExact(obb, t);
        var k :| 0 <= k < |ts| && ts[k] == t;
        assert AreaFits(areas[id]);
        HullInBox(p, t, areas[id].box);
        BoxHoldsRectangle(obb, box, p);
        SharedPointMeets(areas[id].box, box, p);
      }
    }
  }

  /** Main result on geofences: for every registered polygon that is not three points on a line, the computation finds
      the area if and only if the object covers a point inside the polygon or on its boundary. */
  lemma FoundIffTouched(areas: map<ID, Boxed<AreaItem>>, id: AreaID, points: seq<Point>, rings: seq<Ring>, rest: Ring,
                        trig: Trig, obj: ObjectID, pos: Position, dims: Dims, box: Rect)
    requires id in areas && AreasFit(areas) && Triangulates(points, areas[id].item.triangles, rings, rest)
    requires Proper(points)
    requires trig.Valid() && Sized(dims) && IsBox(NewItem(trig, obj, pos, dims).obb.Corners(), box)
    ensures id in InsideSet(areas, NewItem(trig, obj, pos, dims).obb, box) <==>
            exists p :: Covers(trig, pos, dims, p) && InArea(points, p)
  {
    var ts := areas[id].item.triangles;
    AlwaysTiles(points, ts, rings, rest);
    hide Triangulates, Tiles, Proper, InArea, Covers, InHull, IsBox, NewItem, AreasFit, InsideSet, Disjoint, TriangleArea2;
    FoundExactly(areas, id, trig, obj, pos, dims, box);
    if CoversSome(trig, pos, dims, ts) {
      var t, p :| t in ts && Covers(trig, pos, dims, p) && InHull(p, t.a, t.b, t.c);
      var k :| 0 <= k < |ts| && ts[k] == t;
      FoundIffInside(points, ts, rings, rest, p);
    }
    if p :| Covers(trig, pos, dims, p) && InArea(points, p) {
      FoundIffInside(points, ts, rings, rest, p);
      var k :| 0 <= k < |ts| && InHull(p, ts[k].a, ts[k].b, ts[k].c);
      assert ts[k] in ts;
    }
  }

  /** Negative dimensions cover nothing. */
  lemma CoveringIsSized(trig: Trig, pos: Position, dims: Dims, p: Point)
    requires Covers(trig, pos, dims, p)
    ensures Sized(dims)
  {}

  lemma BoxHasCorners(points: seq<Point>, r: Rect, t: Plane.Triangle)
    requires IsBox(points, r) && t.a in points && t.b in points && t.c in points
    ensures r.Has(t.a) && r.Has(t.b) && r.Has(t.c)
  {}
}
