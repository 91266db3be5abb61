/** The queries over a region's trees (internal/engine/queries.go): a search by boxes, then an exact test. */
module Queries {
  import opened Domain
  import opened Plane
  import opened EvenOdd
  import opened EarClipping
  import opened Triangulation
  import opened OrientedBox
  import opened SeparatingAxis
  import opened AxesSuffice
  import opened Interiors
  import opened EarsExist
  import opened Polygons
  import opened SpatialIndexes
  import opened Regions
  import opened Dispatching
  import Pipeline
  import PipelineRuns
  import PipelineTheorems

  type Filter = ID -> bool

  function Square(q: Point, radius: real): Rect { Rect(q.x - radius, q.y - radius, q.x + radius, q.y + radius) }

  // ---- proximity ---------------------------------------------------------------------------------------------

  /** Brute force: some point the object covers is within the radius. */
  ghost predicate Within(trig: Trig, item: ObjectItem, q: Point, radius: real) {
    exists p :: Covers(trig, item.pos, item.dims, p) && Dist2(p, q) <= Sq(radius)
  }

  lemma NearCoordinates(p: Point, q: Point, radius: real)
    requires radius >= 0.0 && Dist2(p, q) <= Sq(radius)
    ensures q.x - radius <= p.x <= q.x + radius && q.y - radius <= p.y <= q.y + radius
  {
    Dist2Is(p.x, p.y, q.x, q.y);
    hide Dist2, Sq;
    SqSign(p.x - q.x);
    SqSign(p.y - q.y);
    RootBound(p.x - q.x, radius);
    RootBound(p.y - q.y, radius);
  }

  lemma RootBound(d: real, r: real)
    requires r >= 0.0 && Sq(d) <= Sq(r)
    ensures -r <= d <= r
  {
    var a := if d >= 0.0 then d else -d;
    SqSign(d);
    if a > r { SqStrict(r, a); }
  }

  lemma SqStrict(a: real, b: real)
    requires 0.0 <= a < b
    ensures Sq(a) < Sq(b)
  {
    SqIsMul(a);
    SqIsMul(b);
    hide Sq, Mul;
    MulMonotone(a, b, a);
    MulSub(b, a, b);
    MulSign(b - a, b);
    MulCommutes(a, b);
  }

  lemma MulCommutes(a: real, b: real)
    ensures Mul(a, b) == Mul(b, a)
  {}

  /** The circle test on an object found by the square is brute force. */
  lemma WithinIffTest(trig: Trig, item: ObjectItem, box: Rect, q: Point, radius: real)
    requires trig.Valid() && Sized(item.dims) && radius >= 0.0
    requires item == NewItem(trig, item.id, item.pos, item.dims) && IsBox(item.obb.Corners(), box)
    ensures Within(trig, item, q, radius) <==>
            box.Meets(Square(q, radius)) && item.obb.IntersectsCircle(q, radius)
  {
    NewOBBValid(trig, item.pos.x, item.pos.y, item.dims, item.pos.rotY);
    hide OBB.IntersectsCircle, OBB.ContainsPoint, OBB.Corners, OBB.Valid, NewOBB, Covers, Dist2, Sq;
    var o := item.obb;
    CircleTestIsExact(o, q, radius);
    if Within(trig, item, q, radius) {
      var p :| Covers(trig, item.pos, item.dims, p) && Dist2(p, q) <= Sq(radius);
      PlacedCovers(trig, item.id, item.pos, item.dims, p);
      BoxHoldsRectangle(o, box, p);
      NearCoordinates(p, q, radius);
      SharedPointMeets(box, Square(q, radius), p);
    } else if o.IntersectsCircle(q, radius) {
      var p :| o.ContainsPoint(p) && Dist2(p, q) <= Sq(radius);
      PlacedCovers(trig, item.id, item.pos, item.dims, p);
    }
  }


  // ---- the queries ------------------------------------------------------------------------------------------

  predicate InTree(tree: SpatialIndex<ObjectItem>, item: ObjectItem)
    reads tree
  {
    item.id in tree.byID && tree.byID[item.id].item == item
  }

  /** The second loop of both proximity queries. */
  method CircleFilter(candidates: seq<ObjectItem>, q: Point, radius: real, matches: Filter) returns (results: seq<ObjectItem>)
    requires forall i, j {:trigger candidates[i], candidates[j]} :: 0 <= i < j < |candidates| ==> candidates[i].id != candidates[j].id
    ensures forall item :: item in results <==> item in candidates && matches(item.id) && item.obb.IntersectsCircle(q, radius)
    ensures forall i, j {:trigger results[i], results[j]} :: 0 <= i < j < |results| ==> results[i].id != results[j].id
  {
    hide OBB.IntersectsCircle;
    results := [];
    for k := 0 to |candidates|
      invariant forall item :: item in results <==>
                  item in candidates[..k] && matches(item.id) && item.obb.IntersectsCircle(q, radius)
      invariant forall i {:trigger results[i]} :: 0 <= i < |results| ==> exists m :: 0 <= m < k && candidates[m] == results[i]
      invariant forall i, j {:trigger results[i], results[j]} :: 0 <= i < j < |results| ==> results[i].id != results[j].id
    {
      assert candidates[..k + 1] == candidates[..k] + [candidates[k]];
      if matches(candidates[k].id) && candidates[k].obb.IntersectsCircle(q, radius) {
        results := results + [candidates[k]];
      }
    }
    assert candidates[..|candidates|] == candidates;
  }

  /** Nearby: the objects asked for whose box meets the square and which pass the circle test; for a radius
      and half-extents that are not negative these are the ones with a point within the radius. */
  method Nearby(rs: RegionState, q: Point, radius: real, matches: Filter) returns (results: seq<ObjectItem>)
    requires rs.Valid()
    ensures forall item :: item in results <==>
              InTree(rs.tree, item) && matches(item.id) && rs.tree.byID[item.id].box.Meets(Square(q, radius)) && item.obb.IntersectsCircle(q, radius)
    ensures radius >= 0.0 ==>
              forall item: ObjectItem :: Sized(item.dims) ==>
                (item in results <==> InTree(rs.tree, item) && matches(item.id) && Within(rs.trig, item, q, radius))
    ensures forall i, j {:trigger results[i], results[j]} :: 0 <= i < j < |results| ==> results[i].id != results[j].id
  {
    hide Within, OBB.IntersectsCircle;
    var candidates := rs.tree.Search(Square(q, radius));
    results := CircleFilter(candidates, q, radius, matches);
    if radius >= 0.0 { AllWithin(rs, q, radius); }
  }

  lemma AllWithin(rs: RegionState, q: Point, radius: real)
    requires rs.Valid() && radius >= 0.0
    ensures forall item :: InTree(rs.tree, item) && Sized(item.dims) ==>
              (Within(rs.trig, item, q, radius) <==> rs.tree.byID[item.id].box.Meets(Square(q, radius)) && item.obb.IntersectsCircle(q, radius))
  {
    hide Within, OBB.IntersectsCircle, OBB.Valid, NewOBB, IsBox;
    forall item | InTree(rs.tree, item) && Sized(item.dims)
      ensures Within(rs.trig, item, q, radius) <==> rs.tree.byID[item.id].box.Meets(Square(q, radius)) && item.obb.IntersectsCircle(q, radius)
    {
      WithinIffTest(rs.trig, item, rs.tree.byID[item.id].box, q, radius);
    }
  }

  /** Whether a query can find the object, and where. */
  predicate Published(ctl: ObjCtl?)
    reads ctl
  {
    ctl != null && !ctl.deleted && ctl.pub.Some?
  }

  /** NearbyOf: the others near an object's position.  The last error, for an object that is published but
      not in its region's tree, never occurs, see `NearbyOfFindsPublished`. */
  method NearbyOf(regions: seq<RegionState>, ctl: ObjCtl?, id: ID, radius: real, matches: Filter) returns (r: Result<seq<ObjectItem>>)
    requires Published(ctl) ==> ctl.pub.value < |regions| && regions[ctl.pub.value].Valid()
    ensures r.Ok? <==> Published(ctl) && id in regions[ctl.pub.value].tree.byID
    ensures r.Ok? && radius >= 0.0 ==>
              var tree := regions[ctl.pub.value].tree;
              var origin := tree.byID[id].item.pos;
              forall item: ObjectItem :: Sized(item.dims) ==>
                (item in r.value <==>
                  InTree(tree, item) && item.id != id && matches(item.id) && Within(regions[ctl.pub.value].trig, item, Point(origin.x, origin.y), radius))
  {
    hide Within, OBB.IntersectsCircle, OBB.Valid, IsBox;
    if ctl == null { return Err; }
    if ctl.deleted || ctl.pub.None? { return Err; }
    var rs := regions[ctl.pub.value];
    var got := rs.tree.Get(id);
    if got == [] { return Err; }
    var q := Point(got[0].pos.x, got[0].pos.y);
    var candidates := rs.tree.Search(Square(q, radius));
    var results := CircleFilter(candidates, q, radius, (x: ID) => x != id && matches(x));
    if radius >= 0.0 { AllWithin(rs, q, radius); }
    return Ok(results);
  }

  /** The region objects hold what a state of the pipeline says they hold. */
  ghost predicate Mirrors(regions: seq<RegionState>, s: Pipeline.Sys)
    reads set r | r in regions :: r.tree
  {
    |regions| == |s.regions| && forall r :: 0 <= r < |regions| ==> regions[r].tree.byID.Keys == s.regions[r].tree.Keys
  }

  /** In every state the pipeline reaches, `NearbyOf` fails exactly for an object that is not published: its
      region's tree never lacks it. */
  lemma NearbyOfFindsPublished(cfg: Mailbox.Config, run: seq<Pipeline.Sys>, actions: seq<Pipeline.Action>, k: nat,
                               id: ID, regions: seq<RegionState>, ctl: ObjCtl)
    requires PipelineRuns.IsSysRun(cfg, run, actions) && k < |run|
    requires id in run[k].ctls && ctl.Value() == run[k].ctls[id] && Mirrors(regions, run[k])
    ensures Published(ctl) ==> ctl.pub.value < |regions| && id in regions[ctl.pub.value].tree.byID
  {
    hide PipelineRuns.IsSysRun;
    if Published(ctl) {
      PipelineTheorems.PublishedIsInTree(cfg, run, actions, k, id, ctl.pub.value);
      assert id in regions[ctl.pub.value].tree.byID.Keys;
    }
  }

  /** WithinArea: exactly the objects that a geofence computation would find inside the area, that is those,
      of the ones with dimensions not negative, that cover a point of one of its triangles. */
  method WithinArea(rs: RegionState, areaID: AreaID, matches: Filter) returns (r: Result<seq<ObjectItem>>)
    requires rs.Valid()
    ensures r.Err? <==> areaID !in rs.areas.byID
    ensures r.Ok? ==> forall item :: item in r.value <==>
              InTree(rs.tree, item) && matches(item.id) && areaID in InsideSet(rs.areas.byID, item.obb, rs.tree.byID[item.id].box)
    ensures r.Ok? ==> forall item: ObjectItem :: Sized(item.dims) ==>
              (item in r.value <==>
                InTree(rs.tree, item) && matches(item.id) && CoversSome(rs.trig, item.pos, item.dims, rs.areas.byID[areaID].item.triangles))
  {
    hide TouchesSome, CoversSome, AreaFits, IsBox, NewOBB;
    var got := rs.areas.Get(areaID);
    if got == [] { return Err; }
    var window, triangles := rs.areas.byID[areaID].box, got[0].triangles;
    var candidates := rs.tree.Search(window);
    var results: seq<ObjectItem> := [];
    for k := 0 to |candidates|
      invariant forall item :: item in results <==>
                  item in candidates[..k] && matches(item.id) && TouchesSome(item.obb, triangles)
    {
      assert candidates[..k + 1] == candidates[..k] + [candidates[k]];
      if matches(candidates[k].id) {
        var touches := IntersectsTriangles(candidates[k].obb, triangles);
        if touches { results := results + [candidates[k]]; }
      }
    }
    assert candidates[..|candidates|] == candidates;
    InAreaExactly(rs, areaID);
    return Ok(results);
  }

  lemma InAreaExactly(rs: RegionState, areaID: AreaID)
    requires rs.Valid() && areaID in rs.areas.byID
    ensures forall item :: InTree(rs.tree, item) && Sized(item.dims) ==>
              (areaID in InsideSet(rs.areas.byID, item.obb, rs.tree.byID[item.id].box) <==>
                CoversSome(rs.trig, item.pos, item.dims, rs.areas.byID[areaID].item.triangles))
  {
    hide CoversSome, InsideSet, AreaFits, IsBox, NewOBB;
    forall item | InTree(rs.tree, item) && Sized(item.dims)
      ensures areaID in InsideSet(rs.areas.byID, item.obb, rs.tree.byID[item.id].box) <==>
              CoversSome(rs.trig, item.pos, item.dims, rs.areas.byID[areaID].item.triangles)
    {
      FoundExactly(rs.areas.byID, areaID, rs.trig, item.id, item.pos, item.dims, rs.tree.byID[item.id].box);
    }
  }

  /** Some closed triangle of the area holds the point. */
  ghost predicate Holds(ts: seq<Plane.Triangle>, p: Point) { exists t :: t in ts && InHull(p, t.a, t.b, t.c) }

  predicate NoneFlat(ts: seq<Plane.Triangle>) { forall t :: t in ts ==> Orient(t.a, t.b, t.c) != 0.0 }

  lemma HoldsExactly(area: Boxed<AreaItem>, p: Point)
    requires AreaFits(area) && NoneFlat(area.item.triangles)
    ensures area.box.Has(p) && SomeContains(p, area.item.triangles) <==> Holds(area.item.triangles, p)
  {
    hide InHull, PointInTriangle, Orient;
    var ts := area.item.triangles;
    if SomeContains(p, ts) {
      var k :| 0 <= k < |ts| && PointInTriangle(p, ts[k].a, ts[k].b, ts[k].c);
      PointInTriangleIsExact(p, ts[k].a, ts[k].b, ts[k].c);
      assert ts[k] in ts;
    }
    if Holds(ts, p) {
      var t :| t in ts && InHull(p, t.a, t.b, t.c);
      PointInTriangleIsExact(p, t.a, t.b, t.c);
      HullInBox(p, t, area.box);
      var k :| 0 <= k < |ts| && ts[k] == t;
    }
  }

  /** AreasAtPoint: the areas asked for with the point in their box and in one of their triangles; for an area
      without flat triangles, those one of whose closed triangles holds the point. */
  method AreasAtPoint(rs: RegionState, p: Point, matches: Filter) returns (results: seq<AreaItem>)
    requires rs.Valid()
    ensures forall area :: area in results <==>
              area.id in rs.areas.byID && rs.areas.byID[area.id].item == area && matches(area.id)
              && rs.areas.byID[area.id].box.Has(p) && SomeContains(p, area.triangles)
    ensures forall area: AreaItem :: NoneFlat(area.triangles) ==>
              (area in results <==>
                area.id in rs.areas.byID && rs.areas.byID[area.id].item == area && matches(area.id) && Holds(area.triangles, p))
  {
    hide SomeContains, NoneFlat, Holds, AreaFits;
    AllHoldExactly(rs, p);
    var candidates := rs.areas.Search(Rect(p.x, p.y, p.x, p.y));
    results := [];
    for k := 0 to |candidates|
      invariant forall area :: area in results <==>
                  area in candidates[..k] && matches(area.id) && SomeContains(p, area.triangles)
    {
      assert candidates[..k + 1] == candidates[..k] + [candidates[k]];
      if matches(candidates[k].id) {
        var inside := TrianglesContainPoint(p, candidates[k].triangles);
        if inside { results := results + [candidates[k]]; }
      }
    }
    assert candidates[..|candidates|] == candidates;
  }

  lemma AllHoldExactly(rs: RegionState, p: Point)
    requires rs.Valid()
    ensures forall id {:trigger rs.areas.byID[id]} :: id in rs.areas.byID && NoneFlat(rs.areas.byID[id].item.triangles) ==>
              (rs.areas.byID[id].box.Has(p) && SomeContains(p, rs.areas.byID[id].item.triangles) <==>
                Holds(rs.areas.byID[id].item.triangles, p))
  {
    hide SomeContains, NoneFlat, Holds, AreaFits;
    forall id | id in rs.areas.byID && NoneFlat(rs.areas.byID[id].item.triangles)
      ensures rs.areas.byID[id].box.Has(p) && SomeContains(p, rs.areas.byID[id].item.triangles) <==>
              Holds(rs.areas.byID[id].item.triangles, p)
    {
      HoldsExactly(rs.areas.byID[id], p);
    }
  }

  /** A point inside a registered polygon, by the even-odd rule, passes both tests of `AreasAtPoint`. */
  lemma InsideIsFound(points: seq<Point>, ts: seq<Plane.Triangle>, rings: seq<Ring>, rest: Ring, box: Rect, p: Point)
    requires Triangulates(points, ts, rings, rest) && Simple(points) && IsBox(points, box) && Inside(p, points)
    ensures box.Has(p) && SomeContains(p, ts)
  {
    AlwaysComplete(points, ts, rings, rest);
    hide Triangulates, Inside, Surrounded, Complete, Simple;
    InsideIsCovered(points, ts, rings, rest, p);
    var k :| 0 <= k < |ts| && Surrounded(p, ts[k].a, ts[k].b, ts[k].c);
    CornersFromPolygon(points, ts, rings, rest, k);
    BoxHasCorners(points, box, ts[k]);
    SurroundedInBox(p, ts[k], box);
  }
  /** For every registered polygon that is not three points on a line both tests pass exactly for the points inside
      the polygon or on its boundary. */
  lemma AtPointIffInArea(area: Boxed<AreaItem>, points: seq<Point>, rings: seq<Ring>, rest: Ring, p: Point)
    requires AreaFits(area) && Triangulates(points, area.item.triangles, rings, rest) && Proper(points)
    ensures area.box.Has(p) && SomeContains(p, area.item.triangles) <==> InArea(points, p)
  {
    var ts := area.item.triangles;
    AlwaysTiles(points, ts, rings, rest);
    FoundIffInside(points, ts, rings, rest, p);
    hide Triangulates, Tiles, Proper, InArea, InHull, AreaFits, SomeContains, Disjoint, Orient;
    forall t | t in ts ensures Orient(t.a, t.b, t.c) != 0.0 {
      var k :| 0 <= k < |ts| && ts[k] == t;
      assert TriangleArea2(ts[k]) != 0.0;
    }
    HoldsExactly(area, p);
    if k :| 0 <= k < |ts| && InHull(p, ts[k].a, ts[k].b, ts[k].c) { assert ts[k] in ts; }
    if Holds(ts, p) {
      var t :| t in ts && InHull(p, t.a, t.b, t.c);
      var k :| 0 <= k < |ts| && ts[k] == t;
    }
  }
}
