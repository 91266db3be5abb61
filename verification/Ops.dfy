/** The compaction operations on the stream (pkg/geotruthops/ops.go) with their loops. */
module Ops {
  import opened Domain
  import opened Events
  import opened Stream
  import opened Compaction

  datatype Plan = Plan(cutoff: nat, deletes: seq<Ref>)

  // ---- the plan, object by object ------------------------------------------------------------------

  /** Whether the planning loop deletes a commit record of an object with the given latest commit. */
  predicate DropsCommit(latest: Option<Record>, opts: Options, r: Record) {
    && latest.Some?
    && !(latest.value.lifecycle == Active && r.at == latest.value.at)
    && !(latest.value.lifecycle == Removed && !opts.tombstones && r.at == latest.value.at)
  }

  function CommitRefs(cs: seq<Record>, latest: Option<Record>, opts: Options): seq<Ref> {
    if cs == [] then []
    else
      var r := cs[|cs| - 1];
      CommitRefs(cs[..|cs| - 1], latest, opts) + if DropsCommit(latest, opts, r) then [RefOf(r)] else []
  }

  function ProjectionRefs(ps: seq<Record>, active: bool, ids: set<EventID>): seq<Ref> {
    if ps == [] then []
    else
      var r := ps[|ps| - 1];
      ProjectionRefs(ps[..|ps| - 1], active, ids) + if active && r.e in ids then [] else [RefOf(r)]
  }

  predicate IsActive(latest: Option<Record>) { latest.Some? && latest.value.lifecycle == Active }

  function CommitPart(recs: seq<Record>, opts: Options, order: seq<ObjectID>): seq<Ref> {
    if order == [] then []
    else
      var id := order[|order| - 1];
      CommitPart(recs, opts, order[..|order| - 1]) + CommitRefs(CommitsIn(recs, id), LatestIn(recs, id), opts)
  }

  function ProjectionPart(recs: seq<Record>, ids: set<EventID>, order: seq<ObjectID>): seq<Ref> {
    if order == [] then []
    else
      var id := order[|order| - 1];
      ProjectionPart(recs, ids, order[..|order| - 1]) + ProjectionRefs(ProjectionsIn(recs, id), IsActive(LatestIn(recs, id)), ids)
  }

  lemma {:induction false} CommitRefsExactly(cs: seq<Record>, latest: Option<Record>, opts: Options, d: Ref)
    ensures d in CommitRefs(cs, latest, opts) <==> exists r :: r in cs && DropsCommit(latest, opts, r) && d == RefOf(r)
  {
    if cs != [] {
      var front, r := cs[..|cs| - 1], cs[|cs| - 1];
      assert cs == front + [r];
      CommitRefsExactly(front, latest, opts, d);
      assert r in cs && forall x :: x in front ==> x in cs;
    }
  }

  lemma {:induction false} ProjectionRefsExactly(ps: seq<Record>, active: bool, ids: set<EventID>, d: Ref)
    ensures d in ProjectionRefs(ps, active, ids) <==> exists r :: r in ps && !(active && r.e in ids) && d == RefOf(r)
  {
    if ps != [] {
      var front, r := ps[..|ps| - 1], ps[|ps| - 1];
      assert ps == front + [r];
      ProjectionRefsExactly(front, active, ids, d);
      assert r in ps && forall x :: x in front ==> x in ps;
    }
  }

  lemma {:induction false} CommitPartExactly(recs: seq<Record>, opts: Options, order: seq<ObjectID>, d: Ref)
    ensures d in CommitPart(recs, opts, order) <==>
            exists r :: r in recs && r.isCommit && r.o in order && DropsCommit(LatestIn(recs, r.o), opts, r) && d == RefOf(r)
  {
    hide LatestIn, DropsCommit;
    if order != [] {
      var front, id := order[..|order| - 1], order[|order| - 1];
      assert order == front + [id];
      CommitPartExactly(recs, opts, front, d);
      CommitRefsExactly(CommitsIn(recs, id), LatestIn(recs, id), opts, d);
      if d in CommitRefs(CommitsIn(recs, id), LatestIn(recs, id), opts) {
        var r :| r in CommitsIn(recs, id) && DropsCommit(LatestIn(recs, id), opts, r) && d == RefOf(r);
        CommitsInExactly(recs, id, r);
      }
      if r :| r in recs && r.isCommit && r.o in order && DropsCommit(LatestIn(recs, r.o), opts, r) && d == RefOf(r) {
        if r.o == id { CommitsInExactly(recs, id, r); }
      }
    }
  }

  lemma {:induction false} ProjectionPartExactly(recs: seq<Record>, ids: set<EventID>, order: seq<ObjectID>, d: Ref)
    ensures d in ProjectionPart(recs, ids, order) <==>
            exists r :: r in recs && !r.isCommit && r.isProjection && r.o in order
                        && !(IsActive(LatestIn(recs, r.o)) && r.e in ids) && d == RefOf(r)
  {
    hide LatestIn, IsActive;
    if order != [] {
      var front, id := order[..|order| - 1], order[|order| - 1];
      assert order == front + [id];
      ProjectionPartExactly(recs, ids, front, d);
      ProjectionRefsExactly(ProjectionsIn(recs, id), IsActive(LatestIn(recs, id)), ids, d);
      if d in ProjectionRefs(ProjectionsIn(recs, id), IsActive(LatestIn(recs, id)), ids) {
        var r :| r in ProjectionsIn(recs, id) && !(IsActive(LatestIn(recs, id)) && r.e in ids) && d == RefOf(r);
        ProjectionsInExactly(recs, id, r);
      }
      if r :| r in recs && !r.isCommit && r.isProjection && r.o in order
              && !(IsActive(LatestIn(recs, r.o)) && r.e in ids) && d == RefOf(r) {
        if r.o == id { ProjectionsInExactly(recs, id, r); }
      }
    }
  }

  predicate RefsAscend(ds: seq<Ref>) { forall i, j :: 0 <= i < j < |ds| ==> ds[i].at < ds[j].at }

  lemma {:induction false} CommitRefsAscend(cs: seq<Record>, latest: Option<Record>, opts: Options, id: ObjectID)
    requires Ascending(cs) && forall r :: r in cs ==> r.o == id && r.isCommit
    ensures RefsAscend(CommitRefs(cs, latest, opts))
    ensures forall d :: d in CommitRefs(cs, latest, opts) ==> d.o == id && d.isCommit
  {
    if cs != [] {
      var front, r := cs[..|cs| - 1], cs[|cs| - 1];
      CommitRefsAscend(front, latest, opts, id);
      var ds := CommitRefs(front, latest, opts);
      forall i | 0 <= i < |ds| ensures ds[i].at < r.at {
        CommitRefsExactly(front, latest, opts, ds[i]);
        var x :| x in front && DropsCommit(latest, opts, x) && ds[i] == RefOf(x);
        var k :| 0 <= k < |front| && front[k] == x;
      }
    }
  }

  lemma {:induction false} ProjectionRefsAscend(ps: seq<Record>, active: bool, ids: set<EventID>, id: ObjectID)
    requires Ascending(ps) && forall r :: r in ps ==> r.o == id && !r.isCommit
    ensures RefsAscend(ProjectionRefs(ps, active, ids))
    ensures forall d :: d in ProjectionRefs(ps, active, ids) ==> d.o == id && !d.isCommit
  {
    if ps != [] {
      var front, r := ps[..|ps| - 1], ps[|ps| - 1];
      ProjectionRefsAscend(front, active, ids, id);
      var ds := ProjectionRefs(front, active, ids);
      forall i | 0 <= i < |ds| ensures ds[i].at < r.at {
        ProjectionRefsExactly(front, active, ids, ds[i]);
        var x :| x in front && !(active && x.e in ids) && ds[i] == RefOf(x);
        var k :| 0 <= k < |front| && front[k] == x;
      }
    }
  }

  lemma {:induction false} ProjectionsAscend(recs: seq<Record>, id: ObjectID)
    requires Ascending(recs)
    ensures Ascending(ProjectionsIn(recs, id))
  {
    if recs != [] {
      var front, r := recs[..|recs| - 1], recs[|recs| - 1];
      ProjectionsAscend(front, id);
      forall i | 0 <= i < |ProjectionsIn(front, id)| ensures ProjectionsIn(front, id)[i].at < r.at {
        ProjectionsInExactly(front, id, ProjectionsIn(front, id)[i]);
        var k :| 0 <= k < |front| && front[k] == ProjectionsIn(front, id)[i];
      }
    }
  }

  /** The entries of one object are in stream order; the objects are those of `order`. */
  ghost predicate Blocks(ds: seq<Ref>, order: seq<ObjectID>, isCommit: bool) {
    && (forall i {:trigger ds[i]} :: 0 <= i < |ds| ==> ds[i].o in order && ds[i].isCommit == isCommit)
    && (forall i, j {:trigger ds[i], ds[j]} :: 0 <= i < j < |ds| && ds[i].o == ds[j].o ==> ds[i].at < ds[j].at)
  }

  lemma BlocksSnoc(ds: seq<Ref>, order: seq<ObjectID>, more: seq<Ref>, id: ObjectID, isCommit: bool)
    requires Blocks(ds, order, isCommit) && id !in order && RefsAscend(more)
    requires forall d :: d in more ==> d.o == id && d.isCommit == isCommit
    ensures Blocks(ds + more, order + [id], isCommit)
  {
    var all := ds + more;
    forall i | 0 <= i < |all| ensures all[i].o in order + [id] && all[i].isCommit == isCommit {
      if i >= |ds| { assert all[i] == more[i - |ds|] && all[i] in more; }
    }
    assert forall k :: 0 <= k < |ds| ==> all[k] == ds[k] && all[k].o in order;
    assert forall k :: |ds| <= k < |all| ==> all[k] == more[k - |ds|] && all[k].o == id;
    forall i, j | 0 <= i < j < |all| && all[i].o == all[j].o ensures all[i].at < all[j].at {
      if i < |ds| { assert j < |ds| && all[i] == ds[i] && all[j] == ds[j]; }
    }
  }

  lemma CommitBlock(recs: seq<Record>, opts: Options, id: ObjectID)
    requires Ascending(recs)
    ensures var ds := CommitRefs(CommitsIn(recs, id), LatestIn(recs, id), opts);
            RefsAscend(ds) && forall d :: d in ds ==> d.o == id && d.isCommit
  {
    CommitsAscend(recs, id);
    forall r | r in CommitsIn(recs, id) ensures r.o == id && r.isCommit { CommitsInExactly(recs, id, r); }
    hide CommitsIn, LatestIn, CommitRefs, DropsCommit, Ascending;
    CommitRefsAscend(CommitsIn(recs, id), LatestIn(recs, id), opts, id);
  }

  lemma ProjectionBlock(recs: seq<Record>, ids: set<EventID>, id: ObjectID)
    requires Ascending(recs)
    ensures var ds := ProjectionRefs(ProjectionsIn(recs, id), IsActive(LatestIn(recs, id)), ids);
            RefsAscend(ds) && forall d :: d in ds ==> d.o == id && !d.isCommit
  {
    ProjectionsAscend(recs, id);
    forall r | r in ProjectionsIn(recs, id) ensures r.o == id && !r.isCommit { ProjectionsInExactly(recs, id, r); }
    hide ProjectionsIn, LatestIn, ProjectionRefs, Ascending;
    ProjectionRefsAscend(ProjectionsIn(recs, id), IsActive(LatestIn(recs, id)), ids, id);
  }

  lemma SplitOrder(order: seq<ObjectID>)
    requires Distinct(order) && order != []
    ensures var front, id := order[..|order| - 1], order[|order| - 1];
            Distinct(front) && id !in front && order == front + [id]
  {}

  lemma {:induction false} CommitPartBlocks(recs: seq<Record>, opts: Options, order: seq<ObjectID>)
    requires Ascending(recs) && Distinct(order)
    ensures Blocks(CommitPart(recs, opts, order), order, true)
  {
    hide Ascending, Distinct, Blocks, CommitRefs, CommitsIn, LatestIn, RefsAscend;
    if order == [] {
      EmptyBlocks(order, true);
    } else {
      var front, id := order[..|order| - 1], order[|order| - 1];
      SplitOrder(order);
      CommitPartBlocks(recs, opts, front);
      CommitBlock(recs, opts, id);
      BlocksSnoc(CommitPart(recs, opts, front), front, CommitRefs(CommitsIn(recs, id), LatestIn(recs, id), opts), id, true);
    }
  }

  lemma {:induction false} ProjectionPartBlocks(recs: seq<Record>, ids: set<EventID>, order: seq<ObjectID>)
    requires Ascending(recs) && Distinct(order)
    ensures Blocks(ProjectionPart(recs, ids, order), order, false)
  {
    hide Ascending, Distinct, Blocks, ProjectionRefs, ProjectionsIn, LatestIn, IsActive, RefsAscend;
    if order == [] {
      EmptyBlocks(order, false);
    } else {
      var front, id := order[..|order| - 1], order[|order| - 1];
      SplitOrder(order);
      ProjectionPartBlocks(recs, ids, front);
      ProjectionBlock(recs, ids, id);
      BlocksSnoc(ProjectionPart(recs, ids, front), front,
                 ProjectionRefs(ProjectionsIn(recs, id), IsActive(LatestIn(recs, id)), ids), id, false);
    }
  }

  /** Planning object by object, in any order of the objects, gives a plan as specified. */
  lemma PartsMakePlan(recs: seq<Record>, opts: Options, ids: set<EventID>, commitOrder: seq<ObjectID>, projectionOrder: seq<ObjectID>)
    requires Ascending(recs) && Distinct(commitOrder) && Distinct(projectionOrder)
    requires forall r :: r in recs && r.isCommit ==> r.o in commitOrder
    requires forall r :: r in recs && !r.isCommit && r.isProjection ==> r.o in projectionOrder
    requires forall e :: e in ids <==> IsProtected(recs, e)
    ensures PlanOK(recs, opts, (if opts.publicEvents then CommitPart(recs, opts, commitOrder) else [])
                               + ProjectionPart(recs, ids, projectionOrder))
  {
    var commits := if opts.publicEvents then CommitPart(recs, opts, commitOrder) else [];
    var projections := ProjectionPart(recs, ids, projectionOrder);
    var plan := commits + projections;
    hide CommitPart, ProjectionPart, Deletable, Blocks, Ascending;
    CommitPartBlocks(recs, opts, commitOrder);
    ProjectionPartBlocks(recs, ids, projectionOrder);
    EmptyBlocks(commitOrder, true);
    forall d ensures d in plan <==> exists r :: r in recs && Deletable(recs, opts, r) && d == RefOf(r) {
      PlanMembers(recs, opts, ids, commitOrder, projectionOrder, d);
    }
    TwoBlocks(commits, commitOrder, projections, projectionOrder);
  }

  lemma EmptyBlocks(order: seq<ObjectID>, isCommit: bool)
    ensures Blocks([], order, isCommit)
  {}

  lemma TwoBlocks(commits: seq<Ref>, commitOrder: seq<ObjectID>, projections: seq<Ref>, projectionOrder: seq<ObjectID>)
    requires Blocks(commits, commitOrder, true) && Blocks(projections, projectionOrder, false)
    ensures var plan := commits + projections;
            && (forall i, j :: 0 <= i < j < |plan| ==> plan[i] != plan[j])
            && (forall i, j :: 0 <= i < j < |plan| && plan[i].isCommit && plan[j].isCommit && plan[i].o == plan[j].o ==>
                  plan[i].at < plan[j].at)
  {
    var plan := commits + projections;
    assert forall k :: 0 <= k < |commits| ==> plan[k] == commits[k] && plan[k].isCommit;
    assert forall k :: |commits| <= k < |plan| ==> plan[k] == projections[k - |commits|] && !plan[k].isCommit;
    forall i, j | 0 <= i < j < |plan| && plan[i].o == plan[j].o && plan[i].isCommit == plan[j].isCommit ensures plan[i].at < plan[j].at {
      if plan[i].isCommit {
        assert plan[i] == commits[i] && plan[j] == commits[j];
      } else {
        assert plan[i] == projections[i - |commits|] && plan[j] == projections[j - |commits|];
      }
    }
  }

  lemma PlanMembers(recs: seq<Record>, opts: Options, ids: set<EventID>, commitOrder: seq<ObjectID>,
                    projectionOrder: seq<ObjectID>, d: Ref)
    requires forall r :: r in recs && r.isCommit ==> r.o in commitOrder
    requires forall r :: r in recs && !r.isCommit && r.isProjection ==> r.o in projectionOrder
    requires forall e :: e in ids <==> IsProtected(recs, e)
    ensures d in (if opts.publicEvents then CommitPart(recs, opts, commitOrder) else []) + ProjectionPart(recs, ids, projectionOrder)
            <==> exists r :: r in recs && Deletable(recs, opts, r) && d == RefOf(r)
  {
    CommitPartExactly(recs, opts, commitOrder, d);
    ProjectionPartExactly(recs, ids, projectionOrder, d);
    forall r | r in recs
      ensures Deletable(recs, opts, r) <==>
              (r.isCommit && opts.publicEvents && DropsCommit(LatestIn(recs, r.o), opts, r))
              || (!r.isCommit && r.isProjection && !(IsActive(LatestIn(recs, r.o)) && r.e in ids))
    {}
    hide Deletable, DropsCommit, IsActive, LatestIn, IsProtected, CommitPart, ProjectionPart;
  }

  // ---- the loops ------------------------------------------------------------------------------------

  /** scanGTEvents: fails on the first entry that does not parse. */
  method ScanGTEvents(es: seq<Entry>) returns (r: Result<seq<Record>>)
    ensures r.Err? <==> exists en :: en in es && !Parses(en)
    ensures r.Ok? ==> r.value == Records(es)
  {
    var recs: seq<Record> := [];
    for k := 0 to |es|
      invariant recs == Records(es[..k]) && forall en :: en in es[..k] ==> Parses(en)
    {
      var en := es[k];
      assert es[..k + 1] == es[..k] + [en] && en in es;
      RecordsSnoc(es[..k], en);
      var parsed := ParseEventRecord(en);
      if parsed.Err? {
        assert !Parses(en);
        return Err;
      }
      if parsed.value.Some? { recs := recs + [parsed.value.value]; }
    }
    assert es[..|es|] == es;
    return Ok(recs);
  }

  function At<T>(m: map<ObjectID, seq<T>>, id: ObjectID): seq<T> { if id in m then m[id] else [] }

  /** The maps hold the object's commits, its latest one and its projections; no list is empty. */
  ghost predicate Grouped(recs: seq<Record>, latest: map<ObjectID, Record>, byObject: map<ObjectID, seq<Record>>,
                          projections: map<ObjectID, seq<Record>>) {
    forall id {:trigger GroupedAt(recs, latest, byObject, projections, id)} :: GroupedAt(recs, latest, byObject, projections, id)
  }

  predicate GroupedAt(recs: seq<Record>, latest: map<ObjectID, Record>, byObject: map<ObjectID, seq<Record>>,
                      projections: map<ObjectID, seq<Record>>, id: ObjectID) {
    && At(byObject, id) == CommitsIn(recs, id)
    && At(projections, id) == ProjectionsIn(recs, id)
    && (if id in latest then Some(latest[id]) else None) == LatestIn(recs, id)
  }

  method GroupRecords(recs: seq<Record>)
    returns (latest: map<ObjectID, Record>, byObject: map<ObjectID, seq<Record>>, projections: map<ObjectID, seq<Record>>)
    requires Ascending(recs)
    ensures Grouped(recs, latest, byObject, projections)
  {
    hide CommitsIn, ProjectionsIn, LatestIn, Grouped;
    latest, byObject, projections := map[], map[], map[];
    GroupedNone();
    for k := 0 to |recs|
      invariant Grouped(recs[..k], latest, byObject, projections)
    {
      var rec := recs[k];
      assert recs[..k + 1] == recs[..k] + [rec];
      if rec.isCommit {
        GroupedLatest(recs[..k], rec, latest, byObject, projections);
        GroupedCommit(recs[..k], rec, latest, byObject, projections);
        byObject := byObject[rec.o := At(byObject, rec.o) + [rec]];
        if rec.at >= (if rec.o in latest then latest[rec.o].at else 0) { latest := latest[rec.o := rec]; }
      } else {
        ghost var before := projections;
        if rec.isProjection { projections := projections[rec.o := At(projections, rec.o) + [rec]]; }
        GroupedOther(recs[..k], rec, latest, byObject, before, projections);
      }
    }
    assert recs[..|recs|] == recs;
  }

  lemma GroupedNone()
    ensures Grouped([], map[], map[], map[])
  {
    forall id: ObjectID ensures GroupedAt([], map[], map[], map[], id) {}
  }

  lemma InMore(recs: seq<Record>, rec: Record, id: ObjectID)
    ensures CommitsIn(recs + [rec], id) == CommitsIn(recs, id) + (if rec.isCommit && rec.o == id then [rec] else [])
    ensures ProjectionsIn(recs + [rec], id) ==
            ProjectionsIn(recs, id) + (if !rec.isCommit && rec.isProjection && rec.o == id then [rec] else [])
    ensures LatestIn(recs + [rec], id) == if rec.isCommit && rec.o == id then Some(rec) else LatestIn(recs, id)
  {
    assert (recs + [rec])[..|recs|] == recs;
  }

  lemma GroupedLatest(recs: seq<Record>, rec: Record, latest: map<ObjectID, Record>, byObject: map<ObjectID, seq<Record>>,
                      projections: map<ObjectID, seq<Record>>)
    requires Grouped(recs, latest, byObject, projections) && Ascending(recs + [rec])
    ensures rec.o in latest ==> rec.at >= latest[rec.o].at
  {
    hide CommitsIn, ProjectionsIn, LatestIn, Ascending;
    assert GroupedAt(recs, latest, byObject, projections, rec.o);
    if rec.o in latest { LatestIsBelow(recs, rec, latest[rec.o]); }
  }

  lemma GroupedCommit(recs: seq<Record>, rec: Record, latest: map<ObjectID, Record>, byObject: map<ObjectID, seq<Record>>,
                      projections: map<ObjectID, seq<Record>>)
    requires Grouped(recs, latest, byObject, projections) && rec.isCommit
    ensures Grouped(recs + [rec], latest[rec.o := rec], byObject[rec.o := At(byObject, rec.o) + [rec]], projections)
  {
    hide CommitsIn, ProjectionsIn, LatestIn;
    var all, latest', byObject' := recs + [rec], latest[rec.o := rec], byObject[rec.o := At(byObject, rec.o) + [rec]];
    forall id: ObjectID ensures GroupedAt(all, latest', byObject', projections, id) {
      assert GroupedAt(recs, latest, byObject, projections, id);
      InMore(recs, rec, id);
    }
  }

  lemma GroupedOther(recs: seq<Record>, rec: Record, latest: map<ObjectID, Record>, byObject: map<ObjectID, seq<Record>>,
                     projections: map<ObjectID, seq<Record>>, projections': map<ObjectID, seq<Record>>)
    requires Grouped(recs, latest, byObject, projections) && !rec.isCommit
    requires projections' == if rec.isProjection then projections[rec.o := At(projections, rec.o) + [rec]] else projections
    ensures Grouped(recs + [rec], latest, byObject, projections')
  {
    hide CommitsIn, ProjectionsIn, LatestIn;
    var all := recs + [rec];
    forall id: ObjectID ensures GroupedAt(all, latest, byObject, projections', id) {
      assert GroupedAt(recs, latest, byObject, projections, id);
      InMore(recs, rec, id);
    }
  }

  lemma LatestIsBelow(recs: seq<Record>, rec: Record, r: Record)
    requires Ascending(recs + [rec]) && LatestIn(recs, rec.o) == Some(r)
    ensures rec.at >= r.at
  {
    CommitsInExactly(recs, rec.o, r);
    var k :| 0 <= k < |recs| && recs[k] == r;
    var all := recs + [rec];
    assert all[k] == r && all[|recs|] == rec;
  }

  /** What the latest active commits protect: their own sequence numbers and their projections. */
  method Protect(latest: map<ObjectID, Record>) returns (protected: set<nat>, ids: set<EventID>)
    ensures forall at :: at in protected <==> exists id :: id in latest && latest[id].lifecycle == Active && latest[id].at == at
    ensures forall e :: e in ids <==> exists id :: id in latest && latest[id].lifecycle == Active && e in IDsUpTo(id, latest[id], |latest[id].transitions|)
  {
    protected, ids := {}, {};
    var todo := latest.Keys;
    while todo != {}
      invariant todo <= latest.Keys
      invariant forall at :: at in protected <==>
                  exists id :: id in latest && id !in todo && latest[id].lifecycle == Active && latest[id].at == at
      invariant forall e :: e in ids <==>
                  exists id :: id in latest && id !in todo && latest[id].lifecycle == Active && e in IDsUpTo(id, latest[id], |latest[id].transitions|)
      decreases |todo|
    {
      var id :| id in todo;
      var rec := latest[id];
      todo := todo - {id};
      if rec.lifecycle == Active {
        protected := protected + {rec.at};
        ghost var before := ids;
        for k := 0 to |rec.transitions|
          invariant ids == before + IDsUpTo(id, rec, k)
        {
          assert IDsUpTo(id, rec, k + 1) == IDsUpTo(id, rec, k) + {TransitionID(rec.transitions[k], id, rec.i, rec.s)};
          ids := ids + {TransitionID(rec.transitions[k], id, rec.i, rec.s)};
        }
      }
    }
  }

  function IDsUpTo(id: ObjectID, r: Record, n: nat): set<EventID>
    requires n <= |r.transitions|
  {
    set k | 0 <= k < n :: TransitionID(r.transitions[k], id, r.i, r.s)
  }

  /** The inner loop over the commits of one object. */
  method CommitDeletes(commits: seq<Record>, latestRec: Option<Record>, protected: set<nat>, opts: Options) returns (deletes: seq<Ref>)
    requires latestRec.Some?
    requires forall r :: r in commits ==> (r.at in protected <==> IsActive(latestRec) && r.at == latestRec.value.at)
    ensures deletes == CommitRefs(commits, latestRec, opts)
  {
    deletes := [];
    for k := 0 to |commits|
      invariant deletes == CommitRefs(commits[..k], latestRec, opts)
    {
      var rec := commits[k];
      assert commits[..k + 1][..k] == commits[..k] && rec in commits;
      if rec.at in protected { continue; }
      if latestRec.value.lifecycle == Active && rec.at == latestRec.value.at { continue; }
      if latestRec.value.lifecycle == Removed && !opts.tombstones && rec.at == latestRec.value.at { continue; }
      deletes := deletes + [RefOf(rec)];
    }
    assert commits[..|commits|] == commits;
  }

  /** The inner loop over the projections of one object. */
  method ProjectionDeletes(recs: seq<Record>, active: bool, ids: set<EventID>) returns (deletes: seq<Ref>)
    ensures deletes == ProjectionRefs(recs, active, ids)
  {
    deletes := [];
    for k := 0 to |recs|
      invariant deletes == ProjectionRefs(recs[..k], active, ids)
    {
      var rec := recs[k];
      assert recs[..k + 1][..k] == recs[..k];
      if active {
        if rec.e in ids { continue; }
      }
      deletes := deletes + [RefOf(rec)];
    }
    assert recs[..|recs|] == recs;
  }

  lemma ProtectedIffLatest(recs: seq<Record>, latest: map<ObjectID, Record>, byObject: map<ObjectID, seq<Record>>,
                           projections: map<ObjectID, seq<Record>>, protected: set<nat>, id: ObjectID, r: Record)
    requires Ascending(recs) && Grouped(recs, latest, byObject, projections) && r in CommitsIn(recs, id)
    requires forall at :: at in protected <==> exists x :: x in latest && latest[x].lifecycle == Active && latest[x].at == at
    ensures r.at in protected <==> IsActive(LatestIn(recs, id)) && r.at == LatestIn(recs, id).value.at
  {
    assert GroupedAt(recs, latest, byObject, projections, id) && LatestIn(recs, id).Some?;
    CommitsInExactly(recs, id, r);
    if r.at in protected {
      var x :| x in latest && latest[x].lifecycle == Active && latest[x].at == r.at;
      assert GroupedAt(recs, latest, byObject, projections, x);
      CommitsInExactly(recs, x, latest[x]);
      var i :| 0 <= i < |recs| && recs[i] == r;
      var j :| 0 <= j < |recs| && recs[j] == latest[x];
      assert i == j;
    }
  }

  /** Deletions of commits, object by object in some order. */
  method PlanCommits(ghost recs: seq<Record>, latest: map<ObjectID, Record>, byObject: map<ObjectID, seq<Record>>,
                     ghost projections: map<ObjectID, seq<Record>>, protected: set<nat>, opts: Options)
    returns (deletes: seq<Ref>, ghost order: seq<ObjectID>)
    requires Ascending(recs) && Grouped(recs, latest, byObject, projections)
    requires forall at :: at in protected <==> exists x :: x in latest && latest[x].lifecycle == Active && latest[x].at == at
    ensures Distinct(order) && Elems(order) == byObject.Keys && deletes == CommitPart(recs, opts, order)
  {
    hide Ascending, CommitsIn, ProjectionsIn, LatestIn, CommitRefs, IsActive, Grouped, Elems, Distinct, RefOf;
    deletes, order := [], [];
    EmptyOrder();
    var todo := byObject.Keys;
    while todo != {}
      invariant todo <= byObject.Keys && Distinct(order) && Elems(order) == byObject.Keys - todo
      invariant deletes == CommitPart(recs, opts, order)
      decreases |todo|
    {
      var id :| id in todo;
      todo := todo - {id};
      ObjectGroup(recs, latest, byObject, projections, id);
      if byObject[id] == [] {
        NoRefs(recs, opts, id);
      } else {
        forall r | r in byObject[id] ensures r.at in protected <==> IsActive(LatestIn(recs, id)) && r.at == LatestIn(recs, id).value.at {
          ProtectedIffLatest(recs, latest, byObject, projections, protected, id, r);
        }
        var more := CommitDeletes(byObject[id], Some(latest[id]), protected, opts);
        deletes := deletes + more;
      }
      OrderSnoc(order, id);
      order := order + [id];
    }
  }

  lemma EmptyOrder()
    ensures Distinct<ObjectID>([]) && Elems<ObjectID>([]) == {}
  {}

  lemma OrderSnoc(order: seq<ObjectID>, id: ObjectID)
    requires Distinct(order) && id !in Elems(order)
    ensures Distinct(order + [id]) && Elems(order + [id]) == Elems(order) + {id} && (order + [id])[..|order|] == order
  {}

  lemma NoRefs(recs: seq<Record>, opts: Options, id: ObjectID)
    requires CommitsIn(recs, id) == []
    ensures CommitRefs(CommitsIn(recs, id), LatestIn(recs, id), opts) == []
  {}

  lemma ObjectGroup(recs: seq<Record>, latest: map<ObjectID, Record>, byObject: map<ObjectID, seq<Record>>,
                    projections: map<ObjectID, seq<Record>>, id: ObjectID)
    requires Grouped(recs, latest, byObject, projections)
    ensures At(byObject, id) == CommitsIn(recs, id) && At(projections, id) == ProjectionsIn(recs, id)
    ensures id in latest <==> CommitsIn(recs, id) != []
    ensures LatestIn(recs, id) == if id in latest then Some(latest[id]) else None
  {
    assert GroupedAt(recs, latest, byObject, projections, id);
  }

  /** Deletions of projections, object by object in some order. */
  method PlanProjections(ghost recs: seq<Record>, latest: map<ObjectID, Record>, ghost byObject: map<ObjectID, seq<Record>>,
                         projections: map<ObjectID, seq<Record>>, ids: set<EventID>)
    returns (deletes: seq<Ref>, ghost order: seq<ObjectID>)
    requires Grouped(recs, latest, byObject, projections)
    ensures Distinct(order) && Elems(order) == projections.Keys && deletes == ProjectionPart(recs, ids, order)
  {
    hide CommitsIn, ProjectionsIn, LatestIn, ProjectionRefs, Grouped, Elems, Distinct, RefOf;
    deletes, order := [], [];
    EmptyOrder();
    var todo := projections.Keys;
    while todo != {}
      invariant todo <= projections.Keys && Distinct(order) && Elems(order) == projections.Keys - todo
      invariant deletes == ProjectionPart(recs, ids, order)
      decreases |todo|
    {
      var id :| id in todo;
      todo := todo - {id};
      ObjectGroup(recs, latest, byObject, projections, id);
      var active := id in latest && latest[id].lifecycle == Active;
      assert active == IsActive(LatestIn(recs, id));
      var more := ProjectionDeletes(projections[id], active, ids);
      deletes := deletes + more;
      OrderSnoc(order, id);
      order := order + [id];
    }
  }

  lemma ProtectedIDs(recs: seq<Record>, latest: map<ObjectID, Record>, byObject: map<ObjectID, seq<Record>>,
                     projections: map<ObjectID, seq<Record>>, ids: set<EventID>)
    requires Grouped(recs, latest, byObject, projections)
    requires forall e :: e in ids <==>
               exists id :: id in latest && latest[id].lifecycle == Active && e in IDsUpTo(id, latest[id], |latest[id].transitions|)
    ensures forall e :: e in ids <==> IsProtected(recs, e)
  {
    forall id | id in latest ensures LatestIn(recs, id) == Some(latest[id]) && ProjectionIDs(latest[id]) == IDsUpTo(id, latest[id], |latest[id].transitions|) {
      assert GroupedAt(recs, latest, byObject, projections, id);
      CommitsInExactly(recs, id, latest[id]);
    }
    forall e ensures e in ids <==> IsProtected(recs, e) {
      if IsProtected(recs, e) {
        var id :| LatestIn(recs, id).Some? && LatestIn(recs, id).value.lifecycle == Active && e in ProjectionIDs(LatestIn(recs, id).value);
        assert GroupedAt(recs, latest, byObject, projections, id);
      }
    }
  }

  lemma OrdersCover(recs: seq<Record>, latest: map<ObjectID, Record>, byObject: map<ObjectID, seq<Record>>,
                    projections: map<ObjectID, seq<Record>>, r: Record)
    requires Grouped(recs, latest, byObject, projections) && r in recs
    ensures r.isCommit ==> r.o in byObject
    ensures !r.isCommit && r.isProjection ==> r.o in projections
  {
    CommitsInExactly(recs, r.o, r);
    ProjectionsInExactly(recs, r.o, r);
    assert GroupedAt(recs, latest, byObject, projections, r.o);
  }

  /** What may go wrong with one deletion; a deletion reported as failed may have happened. */
  datatype Fault = NoFault | FetchFails | ExportFails | DeleteFails(happened: bool)

  datatype CompactionResult = CompactionResult(cutoff: nat, exported: nat, deleted: nat, failed: bool)

  class Client {
    var entries: seq<Entry>
    var lastSeq: nat
    var faults: seq<Fault>

    constructor (entries: seq<Entry>, lastSeq: nat, faults: seq<Fault>)
      ensures this.entries == entries && this.lastSeq == lastSeq && this.faults == faults
    {
      this.entries, this.lastSeq, this.faults := entries, lastSeq, faults;
    }

    /** PlanCompaction: an error when an event does not parse, else exactly the deletable records. */
    method PlanCompaction(opts: Options) returns (r: Result<Plan>)
      requires Increasing(entries)
      ensures r.Err? <==> exists en :: en in entries && !Parses(en)
      ensures r.Ok? ==> r.value.cutoff == lastSeq && PlanOK(Records(entries), opts, r.value.deletes)
    {
      var scanned := ScanGTEvents(entries);
      if scanned.Err? { return Err; }
      var recs := scanned.value;
      RecordsAscend(entries);
      var latest, byObject, projections := GroupRecords(recs);
      var protected, ids := Protect(latest);
      ProtectedIDs(recs, latest, byObject, projections, ids);
      var commitDeletes, commitOrder := PlanCommits(recs, latest, byObject, projections, protected, opts);
      var projectionDeletes, projectionOrder := PlanProjections(recs, latest, byObject, projections, ids);
      forall rec | rec in recs
        ensures rec.isCommit ==> rec.o in commitOrder
        ensures !rec.isCommit && rec.isProjection ==> rec.o in projectionOrder
      {
        OrdersCover(recs, latest, byObject, projections, rec);
        assert rec.isCommit ==> rec.o in Elems(commitOrder);
        assert !rec.isCommit && rec.isProjection ==> rec.o in Elems(projectionOrder);
      }
      PartsMakePlan(recs, opts, ids, commitOrder, projectionOrder);
      return Ok(Plan(lastSeq, (if opts.publicEvents then commitDeletes else []) + projectionDeletes));
    }

    /** validatePlan. */
    method ValidatePlan(plan: Plan) returns (ok: bool)
      requires Increasing(entries)
      ensures ok <==> Acceptable(entries, plan.deletes)
    {
      hide Records, Deletable, PlanOK, MayDelete, Increasing, Parses;
      var regenerated := PlanCompaction(Options(true, true));
      if regenerated.Err? { return false; }
      var allowed := set d | d in regenerated.value.deletes :: d.at;
      assert forall at :: at in allowed <==> MayDelete(entries, at) by { AllowedExactly(entries, regenerated.value.deletes); }
      for k := 0 to |plan.deletes|
        invariant forall j :: 0 <= j < k ==> MayDelete(entries, plan.deletes[j].at)
      {
        if plan.deletes[k].at !in allowed { return false; }
      }
      return true;
    }

    /** Compact: whatever goes wrong, the entries deleted are those of a prefix of the plan, namely of the
        longest one without a fault or a repeated entry; without `execute`, or for a plan that is not accepted,
        none. */
    method Compact(plan: Plan, execute: bool) returns (result: CompactionResult)
      requires Increasing(entries)
      modifies this
      ensures lastSeq == old(lastSeq)
      ensures exists n :: result.deleted <= n <= result.deleted + (if result.failed then 1 else 0)
                          && DeletedUpTo(old(entries), plan.deletes, n, entries)
      ensures !result.failed ==> result.deleted == |plan.deletes|
      ensures !execute || !Acceptable(old(entries), plan.deletes) ==>
                result.failed && result.exported == result.deleted == 0 && entries == old(entries)
      ensures result.deleted <= result.exported <= result.deleted + 1
      ensures execute && Acceptable(old(entries), plan.deletes) ==>
                && GoesUpTo(old(faults), plan.deletes, result.deleted) && (result.failed <==> result.deleted < |plan.deletes|)
                && var half := HalfDone(old(faults), plan.deletes, result.deleted);
                   && result.exported == result.deleted + (if half.Some? then 1 else 0)
                   && DeletedUpTo(old(entries), plan.deletes, result.deleted + (if half == Some(true) then 1 else 0), entries)
      ensures result.cutoff == if execute && !Acceptable(old(entries), plan.deletes) then 0 else plan.cutoff
    {
      hide DeletedUpTo, Without, Acceptable, Increasing, Ats;
      NothingDeleted(entries, plan.deletes);
      if !execute { return CompactionResult(plan.cutoff, 0, 0, true); }
      var valid := ValidatePlan(plan);
      if !valid { return CompactionResult(0, 0, 0, true); }
      var exported, deleted := 0, 0;
      for k := 0 to |plan.deletes|
        invariant exported == deleted == k && lastSeq == old(lastSeq)
        invariant DeletedUpTo(old(entries), plan.deletes, k, entries)
        invariant faults == RestOf(old(faults), k)
        invariant forall j :: 0 <= j < k ==> Goes(old(faults), plan.deletes, j)
      {
        var at := plan.deletes[k].at;
        OneMoreDeleted(old(entries), plan.deletes, k, entries);
        StillThere(old(entries), plan.deletes, k, entries);
        RestNext(old(faults), k);
        var fault := NextFault();
        if fault == FetchFails || forall en :: en in entries ==> en.at != at {
          return CompactionResult(plan.cutoff, exported, deleted, true);
        }
        if fault == ExportFails { return CompactionResult(plan.cutoff, exported, deleted, true); }
        exported := exported + 1;
        if fault.DeleteFails? {
          if fault.happened { entries := Without(entries, {at}); }
          return CompactionResult(plan.cutoff, exported, deleted, true);
        }
        entries := Without(entries, {at});
        deleted := deleted + 1;
      }
      return CompactionResult(plan.cutoff, exported, deleted, false);
    }

    method NextFault() returns (fault: Fault)
      modifies this`faults
      ensures fault == FaultAt(old(faults), 0) && faults == RestOf(old(faults), 1)
    {
      fault := NoFault;
      if faults != [] {
        fault := faults[0];
        faults := faults[1..];
      }
    }
  }

  function FaultAt(faults: seq<Fault>, k: nat): Fault { if k < |faults| then faults[k] else NoFault }

  function RestOf(faults: seq<Fault>, k: nat): seq<Fault> { if k <= |faults| then faults[k..] else [] }

  lemma RestNext(faults: seq<Fault>, k: nat)
    ensures FaultAt(RestOf(faults, k), 0) == FaultAt(faults, k) && RestOf(RestOf(faults, k), 1) == RestOf(faults, k + 1)
  {}

  /** Deletion k meets no fault, and its entry was not deleted before. */
  predicate Goes(faults: seq<Fault>, plan: seq<Ref>, k: nat)
    requires k < |plan|
  {
    FaultAt(faults, k) == NoFault && plan[k].at !in Ats(plan[..k])
  }

  /** A deletion that was reported as failed after its entry had been exported, and whether it happened. */
  function HalfDone(faults: seq<Fault>, plan: seq<Ref>, k: nat): Option<bool> {
    if k < |plan| && FaultAt(faults, k).DeleteFails? && plan[k].at !in Ats(plan[..k]) then Some(FaultAt(faults, k).happened) else None
  }

  ghost predicate GoesUpTo(faults: seq<Fault>, plan: seq<Ref>, n: nat) {
    n <= |plan| && (forall k :: 0 <= k < n ==> Goes(faults, plan, k)) && (n < |plan| ==> !Goes(faults, plan, n))
  }

  /** An entry of an accepted plan is there until the plan has deleted it. */
  lemma StillThere(before: seq<Entry>, plan: seq<Ref>, k: nat, after: seq<Entry>)
    requires Acceptable(before, plan) && k < |plan| && DeletedUpTo(before, plan, k, after)
    ensures (exists en :: en in after && en.at == plan[k].at) <==> plan[k].at !in Ats(plan[..k])
  {
    hide Records, Deletable, ParseEventRecord;
    assert MayDelete(before, plan[k].at);
    var r :| r in Records(before) && Deletable(Records(before), Options(true, true), r) && r.at == plan[k].at;
    RecordsExactly(before, r);
    var en :| en in before && ParseEventRecord(en) == Ok(Some(r));
    RecordAtEntry(en, r);
    WithoutExactly(before, Ats(plan[..k]), en);
    if x :| x in after && x.at == plan[k].at { WithoutExactly(before, Ats(plan[..k]), x); }
  }

  /** What is left after the first n deletions of the plan. */
  predicate DeletedUpTo(before: seq<Entry>, plan: seq<Ref>, n: nat, after: seq<Entry>) {
    n <= |plan| && after == Without(before, Ats(plan[..n]))
  }

  lemma NothingDeleted(es: seq<Entry>, plan: seq<Ref>)
    ensures DeletedUpTo(es, plan, 0, es)
  {
    WithoutNone(es);
    assert plan[..0] == [] && Ats([]) == {};
  }

  lemma OneMoreDeleted(before: seq<Entry>, plan: seq<Ref>, k: nat, after: seq<Entry>)
    requires k < |plan| && DeletedUpTo(before, plan, k, after)
    ensures DeletedUpTo(before, plan, k + 1, Without(after, {plan[k].at}))
  {
    PrefixGrows(before, plan, k);
  }

  /** What the check accepts: every entry parses, and each of the plan's may be deleted. */
  ghost predicate Acceptable(es: seq<Entry>, plan: seq<Ref>) {
    && (forall en :: en in es ==> Parses(en))
    && forall k {:trigger plan[k]} :: 0 <= k < |plan| ==> MayDelete(es, plan[k].at)
  }

  /** A fresh, most generous plan would delete the entry with this number. */
  ghost predicate MayDelete(es: seq<Entry>, at: nat) {
    exists r :: r in Records(es) && Deletable(Records(es), Options(true, true), r) && r.at == at
  }

  lemma AllowedExactly(es: seq<Entry>, plan: seq<Ref>)
    requires PlanOK(Records(es), Options(true, true), plan)
    ensures forall at :: at in Ats(plan) <==> MayDelete(es, at)
  {
    hide Deletable, Records;
    forall at ensures at in Ats(plan) <==> MayDelete(es, at) {
      if at in Ats(plan) {
        var d :| d in plan && d.at == at;
        var r :| r in Records(es) && Deletable(Records(es), Options(true, true), r) && d == RefOf(r);
      }
      if MayDelete(es, at) {
        var r :| r in Records(es) && Deletable(Records(es), Options(true, true), r) && r.at == at;
        assert RefOf(r) in plan;
      }
    }
  }

  lemma {:induction false} WithoutNone(es: seq<Entry>)
    ensures Without(es, {}) == es
  {
    if es != [] { WithoutNone(es[..|es| - 1]); }
  }

  lemma {:induction false} WithoutTwice(es: seq<Entry>, a: set<nat>, b: set<nat>)
    ensures Without(Without(es, a), b) == Without(es, a + b)
  {
    if es != [] {
      var front, en := es[..|es| - 1], es[|es| - 1];
      WithoutTwice(front, a, b);
      if en.at !in a {
        assert (Without(front, a) + [en])[..|Without(front, a)|] == Without(front, a);
      } else {
        assert Without(es, a) == Without(front, a);
      }
    }
  }

  lemma PrefixGrows(es: seq<Entry>, plan: seq<Ref>, k: nat)
    requires k < |plan|
    ensures Without(Without(es, Ats(plan[..k])), {plan[k].at}) == Without(es, Ats(plan[..k + 1]))
  {
    WithoutTwice(es, Ats(plan[..k]), {plan[k].at});
    assert plan[..k + 1] == plan[..k] + [plan[k]];
    assert Ats(plan[..k + 1]) == Ats(plan[..k]) + {plan[k].at} by {
      forall at ensures at in Ats(plan[..k + 1]) <==> at in Ats(plan[..k]) || at == plan[k].at {
        assert plan[k] in plan[..k + 1];
      }
    }
  }
}
