/** The critical sections of the region workers and the transition executor, and the bootstrap
    (internal/engine/worker.go, transition.go, engine.go), over the region's trees in place.  What they
    do to one object is what the protocol's machine says, with the geometry deciding the areas. */
module Workers {
  import opened Domain
  import opened Events
  import opened Mailbox
  import opened ObjectMachine
  import opened Dispatching
  import opened OrientedBox
  import opened SpatialIndexes
  import opened Regions

  /** What a region knows about an object, as the machine's maps have it for that region. */
  ghost predicate Agrees(rs: RegionState, r: Region, id: ObjectID, tree: map<Region, Item>, prev: map<Region, set<AreaID>>)
    reads rs, rs.tree
  {
    && (id in rs.tree.byID <==> r in tree)
    && (r in tree ==> Item(rs.tree.byID[id].item.pos, rs.tree.byID[id].item.dims) == tree[r])
    && Prev(prev, r) == (if id in rs.prevInside then rs.prevInside[id] else {})
  }

  /** One object's snapshots, by region. */
  function SnapshotsOf(prev: Snapshots, id: ObjectID): map<Region, set<AreaID>> {
    map r: Region | r < |prev| && id in prev[r] :: prev[r][id]
  }

  /** What the dispatcher writes into the regions' snapshots is what the object's machine writes, and nothing for
      any other object. */
  lemma WritesAsMachine(prev: Snapshots, id: ObjectID, m: Mutation, q: Region, x: ObjectID)
    requires InRange(m, |prev|)
    ensures Mutated(prev, id, m, q, x) ==
            if x == id then Prev(ApplyMutation(SnapshotsOf(prev, id), m), q) else SnapshotOf(prev, q, x)
  {
    assert forall r :: SnapshotOf(prev, r, id) == Prev(SnapshotsOf(prev, id), r);
  }

  /** Nothing about other objects changed in the tree. */
  twostate predicate OnlyAbout(rs: RegionState, id: ObjectID)
    reads rs, rs.tree
  {
    && rs.tree.byID - {id} == old(rs.tree.byID) - {id}
    && rs.prevInside == old(rs.prevInside)
  }

  /** The areas found are those the geometry decides. */
  ghost predicate Decided(rs: RegionState, t: WorkerTask, cur: set<AreaID>)
    reads rs, rs.areas
  {
    var obb := NewItem(rs.trig, t.id, t.pos, t.dims).obb;
    exists box :: IsBox(obb.Corners(), box) && cur == InsideSet(rs.areas.byID, obb, box)
  }

  /** The object goes into the region's tree, and the areas it is in are computed. */
  method UpsertAndCollect(rs: RegionState, t: WorkerTask, ghost tree: map<Region, Item>, ghost prev: map<Region, set<AreaID>>)
    returns (cur: set<AreaID>, inside: seq<AreaID>, enters: seq<AreaID>, exits: seq<AreaID>)
    requires rs.Valid() && Agrees(rs, t.region, t.id, tree, prev)
    modifies rs.tree
    ensures rs.Valid() && OnlyAbout(rs, t.id) && Decided(rs, t, cur)
    ensures Agrees(rs, t.region, t.id, tree[t.region := Item(t.pos, t.dims)], prev)
    ensures Lists(inside, cur) && Lists(enters, cur - Prev(prev, t.region)) && Lists(exits, Prev(prev, t.region) - cur)
  {
    hide IsBox, InsideSet, Lists, NewOBB, OBB.Corners, Indexed, DistinctKeys, Backed;
    var item := NewItem(rs.trig, t.id, t.pos, t.dims);
    rs.Place(item);
    cur, inside, enters, exits := rs.Collect(item);
  }

  class RegionWorker {
    const rs: RegionState
    var pubCh: seq<WorkerResult>

    constructor (rs: RegionState)
      ensures this.rs == rs && pubCh == []
    {
      this.rs, pubCh := rs, [];
    }

    /** processInit; `ctl` is null when the object is unknown. */
    method ProcessInit(ctl: ObjCtl?, t: WorkerTask, ghost tree: map<Region, Item>, ghost prev: map<Region, set<AreaID>>)
      returns (ghost ch: Choice)
      requires rs.Valid() && t.kind == TaskInit && Agrees(rs, t.region, t.id, tree, prev)
      modifies this`pubCh, rs.tree, ctl
      ensures rs.Valid() && ValidChoice(t, prev, ch) && OnlyAbout(rs, t.id) && (ctl != null ==> Decided(rs, t, ch.cur))
      ensures var w := Process(if ctl == null then None else Some(old(ctl.Value())), t, tree, ch);
              && pubCh == old(pubCh) + [w.res] && (ctl != null ==> w.ctl == Some(ctl.Value()))
              && Agrees(rs, t.region, t.id, w.tree, prev)
    {
      hide Lists, Decided, RegionState.Valid, Marks;
      if ctl == null {
        ch := AnyChoice(t, prev);
        pubCh := pubCh + [Rejection(t)];
        return;
      }
      var cur, inside, enters, exits := UpsertAndCollect(rs, t, tree, prev);
      ctl.pub := Some(t.region);
      ch := Choice(cur, inside, enters, exits, []);
      pubCh := pubCh + [WorkerResult(t.id, t.clientOpID, t.region, false, t.pos, t.dims, inside,
                                     Marks(enters, true) + Marks(exits, false), cur, None, false)];
    }

    method ProcessUpdate(ctl: ObjCtl?, t: WorkerTask, ghost tree: map<Region, Item>, ghost prev: map<Region, set<AreaID>>)
      returns (ghost ch: Choice)
      requires rs.Valid() && t.kind == TaskUpdate && Agrees(rs, t.region, t.id, tree, prev)
      modifies this`pubCh, rs.tree
      ensures rs.Valid() && ValidChoice(t, prev, ch) && OnlyAbout(rs, t.id)
      ensures var w := Process(if ctl == null then None else Some(ctl.Value()), t, tree, ch);
              && pubCh == old(pubCh) + [w.res] && (ctl != null ==> w.ctl == Some(ctl.Value()))
              && Agrees(rs, t.region, t.id, w.tree, prev) && (!w.res.rejected ==> Decided(rs, t, ch.cur))
    {
      hide Lists, Decided, RegionState.Valid, Marks;
      if ctl == null || ctl.deleted {
        ch := AnyChoice(t, prev);
        pubCh := pubCh + [Rejection(t)];
        return;
      }
      if ctl.pub.None? || ctl.pub.value != t.region {
        ch := AnyChoice(t, prev);
        pubCh := pubCh + [Rejection(t)];
        return;
      }
      var cur, inside, enters, exits := UpsertAndCollect(rs, t, tree, prev);
      ch := Choice(cur, inside, enters, exits, []);
      pubCh := pubCh + [WorkerResult(t.id, t.clientOpID, t.region, false, t.pos, t.dims, inside,
                                     Marks(enters, true) + Marks(exits, false), cur, None, false)];
    }

    /** processRemove: exits from the stored snapshot, which stays until the commit is confirmed. */
    method ProcessRemove(ctl: ObjCtl?, t: WorkerTask, ghost tree: map<Region, Item>, ghost prev: map<Region, set<AreaID>>)
      returns (ghost ch: Choice)
      requires rs.Valid() && t.kind == TaskRemove && Agrees(rs, t.region, t.id, tree, prev)
      modifies this`pubCh, rs.tree, ctl
      ensures rs.Valid() && ValidChoice(t, prev, ch) && OnlyAbout(rs, t.id)
      ensures var w := Process(if ctl == null then None else Some(old(ctl.Value())), t, tree, ch);
              && pubCh == old(pubCh) + [w.res] && (ctl != null ==> w.ctl == Some(ctl.Value()))
              && Agrees(rs, t.region, t.id, w.tree, prev)
    {
      hide BoxesFit, Indexed, DistinctKeys, Backed, Lists, Marks;
      var origin := Position(0.0, 0.0, 0.0, 0.0);
      if ctl == null {
        ch := AnyChoice(t, prev);
        pubCh := pubCh + [WorkerResult(t.id, t.clientOpID, t.region, false, origin, t.dims, [], [], {}, None, false)];
        return;
      }
      var at := origin;
      var hadPosition := false;
      var item := rs.tree.Get(t.id);
      if item != [] {
        at := item[0].pos;
        hadPosition := true;
      }
      var exits := ListSet(if t.id in rs.prevInside then rs.prevInside[t.id] else {});
      rs.Withdraw(t.id);
      ctl.pub := None;
      ctl.deleted := true;
      ch := Choice({}, [], [], [], exits);
      pubCh := pubCh + [WorkerResult(t.id, t.clientOpID, t.region, false, at, ctl.dims, [], Marks(exits, false), {},
                                     Some(t.region), hadPosition)];
    }
  }

  /** Some listing of the maps and no area: a choice for the branches that look at none. */
  lemma AnyChoice(t: WorkerTask, prev: map<Region, set<AreaID>>) returns (ch: Choice)
    ensures ValidChoice(t, prev, ch)
  {
    var here := Prev(prev, t.region);
    var inside := SomeListing<AreaID>({});
    var enters := SomeListing({} - here);
    var exits := SomeListing(here - {});
    var oldExits := SomeListing(if t.kind == TaskRemove || t.oldRegion.None? then here else Prev(prev, t.oldRegion.value));
    ch := Choice({}, inside, enters, exits, oldExits);
  }

  class TransitionExec {
    var pubCh: seq<WorkerResult>

    constructor ()
      ensures pubCh == []
    {
      pubCh := [];
    }

    /** processTransition: out of the old region's tree and into the new one's, under both locks; the exits
        of the old snapshot come first. */
    method ProcessTransition(ctl: ObjCtl?, oldRS: RegionState, newRS: RegionState, t: WorkerTask,
                             ghost tree: map<Region, Item>, ghost prev: map<Region, set<AreaID>>) returns (ghost ch: Choice)
      requires oldRS.Valid() && newRS.Valid() && oldRS != newRS && oldRS.tree != newRS.tree
      requires t.kind == TaskTransition && t.oldRegion.Some? && t.oldRegion.value != t.region
      requires Agrees(oldRS, t.oldRegion.value, t.id, tree, prev) && Agrees(newRS, t.region, t.id, tree, prev)
      modifies this`pubCh, oldRS.tree, newRS.tree, ctl
      ensures oldRS.Valid() && newRS.Valid() && ValidChoice(t, prev, ch)
      ensures OnlyAbout(oldRS, t.id) && OnlyAbout(newRS, t.id) && (ctl != null ==> Decided(newRS, t, ch.cur))
      ensures var w := Process(if ctl == null then None else Some(old(ctl.Value())), t, tree, ch);
              && pubCh == old(pubCh) + [w.res] && (ctl != null ==> w.ctl == Some(ctl.Value()))
              && Agrees(oldRS, t.oldRegion.value, t.id, w.tree, prev) && Agrees(newRS, t.region, t.id, w.tree, prev)
    {
      hide Lists, Decided, Marks, Agrees, RegionState.Valid, Process;
      if ctl == null {
        ch := AnyChoice(t, prev);
        pubCh := pubCh + [Rejection(t)];
        UnknownMoves(t, tree, ch);
        return;
      }
      var oldExits := Leave(oldRS, t, tree, prev);
      var cur, inside, enters, exits := UpsertAndCollect(newRS, t, tree, prev);
      AgreesThere(newRS, t, tree, (tree - {t.oldRegion.value})[t.region := Item(t.pos, t.dims)], prev);
      ctl.pub := Some(t.region);
      ch := Choice(cur, inside, enters, exits, oldExits);
      KnownMoves(old(ctl.Value()), t, tree, ch);
      pubCh := pubCh + [WorkerResult(t.id, t.clientOpID, t.region, false, t.pos, t.dims, inside,
                                     Marks(oldExits, false) + (Marks(enters, true) + Marks(exits, false)), cur,
                                     t.oldRegion, false)];
    }
  }

  /** The object leaves the old region's tree; its old snapshot is listed and stays. */
  method Leave(oldRS: RegionState, t: WorkerTask, ghost tree: map<Region, Item>, ghost prev: map<Region, set<AreaID>>)
    returns (oldExits: seq<AreaID>)
    requires oldRS.Valid() && t.oldRegion.Some? && t.oldRegion.value != t.region && Agrees(oldRS, t.oldRegion.value, t.id, tree, prev)
    modifies oldRS.tree
    ensures oldRS.Valid() && OnlyAbout(oldRS, t.id) && Lists(oldExits, Prev(prev, t.oldRegion.value))
    ensures Agrees(oldRS, t.oldRegion.value, t.id, (tree - {t.oldRegion.value})[t.region := Item(t.pos, t.dims)], prev)
  {
    hide Lists, RegionState.Valid;
    oldExits := ListSet(if t.id in oldRS.prevInside then oldRS.prevInside[t.id] else {});
    oldRS.Withdraw(t.id);
  }

  lemma UnknownMoves(t: WorkerTask, tree: map<Region, Item>, ch: Choice)
    requires t.kind == TaskTransition
    ensures Process(None, t, tree, ch) == Worked(Rejection(t), None, tree)
  {}

  lemma KnownMoves(c: Ctl, t: WorkerTask, tree: map<Region, Item>, ch: Choice)
    requires t.kind == TaskTransition && t.oldRegion.Some?
    ensures Process(Some(c), t, tree, ch) ==
            Worked(WorkerResult(t.id, t.clientOpID, t.region, false, t.pos, t.dims, ch.inside,
                                Marks(ch.oldExits, false) + (Marks(ch.enters, true) + Marks(ch.exits, false)), ch.cur, t.oldRegion, false),
                   Some(c.(pub := Some(t.region))), (tree - {t.oldRegion.value})[t.region := Item(t.pos, t.dims)])
  {}

  lemma AgreesThere(rs: RegionState, t: WorkerTask, tree: map<Region, Item>, tree': map<Region, Item>, prev: map<Region, set<AreaID>>)
    requires Agrees(rs, t.region, t.id, tree[t.region := Item(t.pos, t.dims)], prev)
    requires t.region in tree' && tree'[t.region] == Item(t.pos, t.dims)
    ensures Agrees(rs, t.region, t.id, tree', prev)
  {}

  // ---- bootstrap -------------------------------------------------------------------------------------------

  /** BootstrapFromState and BootstrapPlaceObject, for one active state and the region it names; `rs` is
      null when the state has no position in a known region. */
  method BootstrapFromState(cfg: Config, st: StateRecord, rs: RegionState?) returns (ctl: ObjCtl)
    requires st.lifecycle == Active && (rs != null <==> BootPlaces(cfg, st))
    requires rs != null ==> rs.Valid() && st.objectID !in rs.prevInside
    modifies rs, if rs == null then {} else {rs.tree}
    ensures fresh(ctl)
    ensures var b := BootFrom(cfg, st);
            && b.ctl == Some(ctl.Value())
            && (rs != null ==> rs.Valid() && Agrees(rs, st.region.value, st.objectID, b.tree, b.prev)
                               && rs.tree.byID - {st.objectID} == old(rs.tree.byID) - {st.objectID}
                               && rs.prevInside - {st.objectID} == old(rs.prevInside))
  {
    hide BoxesFit, Indexed, DistinctKeys, Backed;
    ctl := new ObjCtl(st.dims);
    ctl.instanceID := st.instanceID;
    ctl.lastCommitSeq := st.commitSeq;
    if rs == null { return; }
    BootstrapPlaceObject(ctl, rs, st);
    var current := SetOf(st.insideAreaIDs);
    if |st.insideAreaIDs| > 0 {
      assert st.insideAreaIDs[0] in current;
      rs.prevInside := rs.prevInside[st.objectID := current];
    }
  }

  method BootstrapPlaceObject(ctl: ObjCtl, rs: RegionState, st: StateRecord)
    requires rs.Valid() && st.position.Some? && st.region.Some?
    modifies rs.tree, ctl
    ensures rs.Valid() && ctl.Value() == old(ctl.Value()).(pub := st.region, route := st.region)
    ensures st.objectID in rs.tree.byID && rs.tree.byID - {st.objectID} == old(rs.tree.byID) - {st.objectID}
    ensures rs.tree.byID[st.objectID].item.pos == st.position.value && rs.tree.byID[st.objectID].item.dims == old(ctl.dims)
  {
    hide IsBox, NewOBB, OBB.Corners, Indexed, DistinctKeys, Backed;
    rs.Place(NewItem(rs.trig, st.objectID, st.position.value, ctl.dims));
    ctl.pub := st.region;
    ctl.route := st.region;
  }

  /** The map filled from the checkpoint's list. */
  method SetOf(ids: seq<AreaID>) returns (current: set<AreaID>)
    ensures current == Elems(ids)
  {
    current := {};
    for k := 0 to |ids|
      invariant current == Elems(ids[..k])
    {
      assert ids[..k + 1] == ids[..k] + [ids[k]];
      current := current + {ids[k]};
    }
    assert ids[..|ids|] == ids;
  }
}
