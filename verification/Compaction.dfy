/** Compaction of the stream (pkg/geotruthops/ops.go): the plan, its check against the current stream,
    and its execution, one deletion at a time, which may stop anywhere. */
module Compaction {
  import opened Domain
  import opened Events
  import opened EventLog
  import opened Stream

  datatype Record = Record(at: nat, subject: Subject, e: EventID, o: ObjectID, i: string, s: nat,
                           lifecycle: Lifecycle, transitions: seq<Transition>, isCommit: bool, isProjection: bool)

  datatype Ref = Ref(at: nat, subject: Subject, e: EventID, o: ObjectID, isCommit: bool)

  datatype Options = Options(publicEvents: bool, tombstones: bool)

  /** parseEventRecord; events of no object are skipped. */
  function ParseEventRecord(en: Entry): Result<Option<Record>> {
    var d := en.m.data;
    match CheckpointStateFromPublicEvent(d)
    case Err => Err
    case Ok(cp) =>
      if d.o == "" then Ok(None)
      else
        Ok(Some(Record(en.at, en.m.subject, d.e, d.o, d.i, d.s,
                       if cp.Some? then cp.value.lifecycle else Unknown,
                       if cp.Some? then cp.value.transitions else [], cp.Some?, en.m.subject.IsGeofence())))
  }

  function RefOf(r: Record): Ref { Ref(r.at, r.subject, r.e, r.o, r.isCommit) }

  predicate Parses(en: Entry) { ParseEventRecord(en).Ok? }

  function RecordsFrom(en: Entry): seq<Record> {
    var p := ParseEventRecord(en);
    if p.Ok? && p.value.Some? then [p.value.value] else []
  }

  /** The records of the entries of objects, in stream order. */
  function Records(es: seq<Entry>): seq<Record> {
    if es == [] then []
    else
      Records(es[..|es| - 1]) + RecordsFrom(es[|es| - 1])
  }

  lemma RecordsSnoc(es: seq<Entry>, en: Entry)
    ensures Records(es + [en]) == Records(es) + RecordsFrom(en)
  {
    assert (es + [en])[..|es|] == es;
  }

  function CommitsIn(recs: seq<Record>, id: ObjectID): seq<Record> {
    if recs == [] then []
    else
      var r := recs[|recs| - 1];
      CommitsIn(recs[..|recs| - 1], id) + if r.isCommit && r.o == id then [r] else []
  }

  function ProjectionsIn(recs: seq<Record>, id: ObjectID): seq<Record> {
    if recs == [] then []
    else
      var r := recs[|recs| - 1];
      ProjectionsIn(recs[..|recs| - 1], id) + if !r.isCommit && r.isProjection && r.o == id then [r] else []
  }

  lemma {:induction false} CommitsInExactly(recs: seq<Record>, id: ObjectID, r: Record)
    ensures r in CommitsIn(recs, id) <==> r in recs && r.isCommit && r.o == id
  {
    if recs != [] {
      assert recs == recs[..|recs| - 1] + [recs[|recs| - 1]];
      CommitsInExactly(recs[..|recs| - 1], id, r);
    }
  }

  lemma {:induction false} ProjectionsInExactly(recs: seq<Record>, id: ObjectID, r: Record)
    ensures r in ProjectionsIn(recs, id) <==> r in recs && !r.isCommit && r.isProjection && r.o == id
  {
    if recs != [] {
      assert recs == recs[..|recs| - 1] + [recs[|recs| - 1]];
      ProjectionsInExactly(recs[..|recs| - 1], id, r);
    }
  }

  predicate Ascending(recs: seq<Record>) {
    forall i, j :: 0 <= i < j < |recs| ==> recs[i].at < recs[j].at
  }

  lemma {:induction false} CommitsAscend(recs: seq<Record>, id: ObjectID)
    requires Ascending(recs)
    ensures Ascending(CommitsIn(recs, id))
  {
    if recs != [] {
      var front, r := recs[..|recs| - 1], recs[|recs| - 1];
      CommitsAscend(front, id);
      forall i | 0 <= i < |CommitsIn(front, id)| ensures CommitsIn(front, id)[i].at < r.at {
        CommitsInExactly(front, id, CommitsIn(front, id)[i]);
        var k :| 0 <= k < |front| && front[k] == CommitsIn(front, id)[i];
      }
    }
  }

  // ---- the plan ---------------------------------------------------------------------------------------

  /** The latest commit record of each object that has one. */
  function LatestIn(recs: seq<Record>, id: ObjectID): Option<Record> {
    var cs := CommitsIn(recs, id);
    if cs == [] then None else Some(cs[|cs| - 1])
  }

  function ProjectionIDs(r: Record): set<EventID> {
    set k | 0 <= k < |r.transitions| :: TransitionID(r.transitions[k], r.o, r.i, r.s)
  }

  /** The event is a projection of some object's latest commit, which is active. */
  ghost predicate IsProtected(recs: seq<Record>, e: EventID) {
    exists id :: LatestIn(recs, id).Some? && LatestIn(recs, id).value.lifecycle == Active
                 && e in ProjectionIDs(LatestIn(recs, id).value)
  }

  /** What a plan may delete. */
  ghost predicate Deletable(recs: seq<Record>, opts: Options, r: Record) {
    var latest := LatestIn(recs, r.o);
    if r.isCommit then
      && opts.publicEvents && latest.Some?
      && (latest.value.lifecycle == Active ==> r.at != latest.value.at)
      && (latest.value.lifecycle == Removed && !opts.tombstones ==> r.at != latest.value.at)
    else
      r.isProjection && !(latest.Some? && latest.value.lifecycle == Active && IsProtected(recs, r.e))
  }

  /** The plan deletes exactly the deletable records, each once, and the commits of one object in
      stream order, so that a tombstone goes last. */
  ghost predicate PlanOK(recs: seq<Record>, opts: Options, plan: seq<Ref>) {
    && (forall d {:trigger d in plan} :: d in plan <==> exists r :: r in recs && Deletable(recs, opts, r) && d == RefOf(r))
    && (forall i, j :: 0 <= i < j < |plan| ==> plan[i] != plan[j])
    && (forall i, j :: 0 <= i < j < |plan| && plan[i].isCommit && plan[j].isCommit && plan[i].o == plan[j].o ==>
          plan[i].at < plan[j].at)
  }

  function Ats(plan: seq<Ref>): set<nat> { set d | d in plan :: d.at }

  function Without(es: seq<Entry>, ats: set<nat>): seq<Entry> {
    if es == [] then []
    else
      var en := es[|es| - 1];
      Without(es[..|es| - 1], ats) + if en.at in ats then [] else [en]
  }

  lemma {:induction false} WithoutExactly(es: seq<Entry>, ats: set<nat>, en: Entry)
    ensures en in Without(es, ats) <==> en in es && en.at !in ats
  {
    if es != [] {
      assert es == es[..|es| - 1] + [es[|es| - 1]];
      WithoutExactly(es[..|es| - 1], ats, en);
    }
  }

  lemma {:induction false} WithoutIncreasing(es: seq<Entry>, ats: set<nat>)
    requires Increasing(es)
    ensures Increasing(Without(es, ats))
  {
    if es != [] {
      var front, en := es[..|es| - 1], es[|es| - 1];
      WithoutIncreasing(front, ats);
      forall i | 0 <= i < |Without(front, ats)| ensures Without(front, ats)[i].at < en.at {
        WithoutExactly(front, ats, Without(front, ats)[i]);
        var k :| 0 <= k < |front| && front[k] == Without(front, ats)[i];
      }
    }
  }

  // ---- safety -------------------------------------------------------------------------------------------

  /** What recovery makes of the object: the state of its latest commit if that is active. */
  function ActiveOf(es: seq<Entry>, id: ObjectID): Option<StateRecord> {
    match LatestOf(es, id)
    case None => None
    case Some(en) => if StateOf(en.m).Some? && StateOf(en.m).value.lifecycle == Active then StateOf(en.m) else None
  }

  lemma {:induction false} RecordsExactly(es: seq<Entry>, r: Record)
    ensures r in Records(es) <==> exists en :: en in es && ParseEventRecord(en) == Ok(Some(r))
  {
    if es != [] {
      var front, en := es[..|es| - 1], es[|es| - 1];
      assert es == front + [en];
      RecordsSnoc(front, en);
      RecordsExactly(front, r);
      if r in Records(es) && r !in Records(front) { assert ParseEventRecord(en) == Ok(Some(r)) && en in es; }
      if r in Records(front) {
        var x :| x in front && ParseEventRecord(x) == Ok(Some(r));
        assert x in es;
      }
    }
  }

  lemma {:induction false} RecordsAscend(es: seq<Entry>)
    requires Increasing(es)
    ensures Ascending(Records(es))
  {
    if es != [] {
      var front, en := es[..|es| - 1], es[|es| - 1];
      assert es == front + [en];
      RecordsSnoc(front, en);
      RecordsAscend(front);
      hide ParseEventRecord, Records;
      forall i | 0 <= i < |Records(front)| ensures Records(front)[i].at < en.at { RecordBelow(front, Records(front)[i], en); }
      forall r | r in RecordsFrom(en) ensures r.at == en.at { RecordAt(en); }
    }
  }

  lemma RecordAt(en: Entry)
    ensures forall r :: r in RecordsFrom(en) ==> r.at == en.at
  {}

  lemma RecordBelow(front: seq<Entry>, r: Record, en: Entry)
    requires Increasing(front + [en]) && r in Records(front)
    ensures r.at < en.at
  {
    RecordsExactly(front, r);
    var x :| x in front && ParseEventRecord(x) == Ok(Some(r));
    var k :| 0 <= k < |front| && front[k] == x;
    assert (front + [en])[k] == x && (front + [en])[|front|] == en;
  }

  /** On a well-formed stream the commit records of an object are its commits. */
  lemma CommitRecord(es: seq<Entry>, en: Entry, id: ObjectID)
    requires WellFormed(es) && en in es && IsCommitOf(en, id)
    ensures ParseEventRecord(en).Ok? && ParseEventRecord(en).value.Some?
    ensures var r := ParseEventRecord(en).value.value;
            && r in CommitsIn(Records(es), id) && r.at == en.at && r.isCommit && r.o == id
            && StateOf(en.m).Some? && r.lifecycle == StateOf(en.m).value.lifecycle
  {
    var k :| 0 <= k < |es| && es[k] == en;
    assert WellFormedMsg(es[k].m);
    var r := ParseEventRecord(en).value.value;
    RecordsExactly(es, r);
    CommitsInExactly(Records(es), id, r);
  }

  lemma RecordCommit(es: seq<Entry>, r: Record, id: ObjectID) returns (en: Entry)
    requires WellFormed(es) && r in CommitsIn(Records(es), id)
    ensures en in es && IsCommitOf(en, id) && ParseEventRecord(en) == Ok(Some(r)) && en.at == r.at
  {
    CommitsInExactly(Records(es), id, r);
    RecordsExactly(es, r);
    en :| en in es && ParseEventRecord(en) == Ok(Some(r));
    var k :| 0 <= k < |es| && es[k] == en;
    assert WellFormedMsg(es[k].m);
  }

  /** The plan's latest commit is recovery's latest commit. */
  lemma LatestAgrees(es: seq<Entry>, id: ObjectID)
    requires WellFormed(es)
    ensures LatestIn(Records(es), id).Some? <==> LatestOf(es, id).Some?
    ensures LatestOf(es, id).Some? ==> ParseEventRecord(LatestOf(es, id).value) == Ok(LatestIn(Records(es), id))
  {
    hide CommitsIn, Records, ParseEventRecord, LatestOf, WellFormedMsg;
    var cs := CommitsIn(Records(es), id);
    if LatestOf(es, id).Some? {
      var en := LatestOf(es, id).value;
      CommitRecord(es, en, id);
      var r := ParseEventRecord(en).value.value;
      var last := cs[|cs| - 1];
      var x := RecordCommit(es, last, id);
      LatestIsHighest(es, id, x);
      RecordsAscend(es);
      CommitsAscend(Records(es), id);
      LastOfAscending(cs, r);
    } else if cs != [] {
      var x := RecordCommit(es, cs[|cs| - 1], id);
      LatestIsHighest(es, id, x);
    }
  }

  lemma LastOfAscending(cs: seq<Record>, r: Record)
    requires Ascending(cs) && r in cs && cs[|cs| - 1].at <= r.at
    ensures cs[|cs| - 1] == r
  {
    var k :| 0 <= k < |cs| && cs[k] == r;
  }

  /** Deleting part of the object's commits, a removal only together with all before it, leaves what
      recovery makes of the object. */
  lemma DeletionKeepsActive(es: seq<Entry>, ats: set<nat>, id: ObjectID)
    requires WellFormed(es)
    requires LatestOf(es, id).Some? && LatestOf(es, id).value.at in ats ==>
               && ActiveOf(es, id).None?
               && forall x :: x in es && IsCommitOf(x, id) ==> x.at in ats
    ensures ActiveOf(Without(es, ats), id) == ActiveOf(es, id)
  {
    WithoutIncreasing(es, ats);
    var es' := Without(es, ats);
    if LatestOf(es, id).Some? && LatestOf(es, id).value.at !in ats {
      var en := LatestOf(es, id).value;
      WithoutExactly(es, ats, en);
      forall x | x in es' && IsCommitOf(x, id) ensures x.at <= en.at {
        WithoutExactly(es, ats, x);
        LatestIsHighest(es, id, x);
      }
      LatestUnique(es', id, en);
    } else if LatestOf(es', id).Some? {
      WithoutExactly(es, ats, LatestOf(es', id).value);
    }
  }

  lemma InAts(plan: seq<Ref>, n: nat, k: nat)
    requires k < n <= |plan|
    ensures plan[k].at in Ats(plan[..n])
  {
    assert plan[..n][k] == plan[k];
  }

  /** A prefix of a plan that deletes an object's latest commit deletes all its commits. */
  lemma TombstoneGoesLast(es: seq<Entry>, opts: Options, plan: seq<Ref>, n: nat, id: ObjectID)
    requires WellFormed(es) && PlanOK(Records(es), opts, plan) && n <= |plan|
    requires LatestOf(es, id).Some? && LatestOf(es, id).value.at in Ats(plan[..n])
    ensures ActiveOf(es, id).None?
    ensures forall x :: x in es && IsCommitOf(x, id) ==> x.at in Ats(plan[..n])
  {
    var recs, en := Records(es), LatestOf(es, id).value;
    LatestAgrees(es, id);
    CommitRecord(es, en, id);
    var r := ParseEventRecord(en).value.value;
    var i := DeletedAt(es, opts, plan, n, en);
    assert plan[i] == RefOf(r) && Deletable(recs, opts, r);
    forall x | x in es && IsCommitOf(x, id) ensures x.at in Ats(plan[..n]) {
      CommitRecord(es, x, id);
      var rx := ParseEventRecord(x).value.value;
      CommitsInExactly(recs, id, rx);
      assert Deletable(recs, opts, rx);
      assert RefOf(rx) in plan;
      var j :| 0 <= j < |plan| && plan[j] == RefOf(rx);
      LatestIsHighest(es, id, x);
      assert j <= i;
      InAts(plan, n, j);
    }
  }

  /** The position at which an entry is deleted. */
  lemma DeletedAt(es: seq<Entry>, opts: Options, plan: seq<Ref>, n: nat, en: Entry) returns (i: nat)
    requires WellFormed(es) && PlanOK(Records(es), opts, plan) && n <= |plan|
    requires en in es && en.at in Ats(plan[..n])
    ensures i < n && ParseEventRecord(en).Ok? && ParseEventRecord(en).value.Some?
    ensures plan[i] == RefOf(ParseEventRecord(en).value.value) && Deletable(Records(es), opts, ParseEventRecord(en).value.value)
  {
    hide Records, Deletable, WellFormedMsg;
    var d :| d in plan[..n] && d.at == en.at;
    var k :| 0 <= k < n && plan[..n][k] == d;
    i := k;
    assert plan[k] == d && d in plan;
    var r :| r in Records(es) && Deletable(Records(es), opts, r) && d == RefOf(r);
    RecordsExactly(es, r);
    var x :| x in es && ParseEventRecord(x) == Ok(Some(r));
    SameEntry(es, x, en);
  }

  /** Compaction is safe at every prefix: whatever part of a plan has been executed, and whatever events
      are appended later, recovery finds the same active objects in the same states as without. */
  lemma SafeAtEveryPrefix(es: seq<Entry>, opts: Options, plan: seq<Ref>, n: nat, more: seq<Entry>, id: ObjectID)
    requires WellFormed(es) && PlanOK(Records(es), opts, plan) && n <= |plan|
    ensures ActiveOf(Without(es, Ats(plan[..n])) + more, id) == ActiveOf(es + more, id)
  {
    hide PlanOK, WellFormed;
    var ats := Ats(plan[..n]);
    if LatestOf(es, id).Some? && LatestOf(es, id).value.at in ats { TombstoneGoesLast(es, opts, plan, n, id); }
    DeletionKeepsActive(es, ats, id);
    LatestConcat(es, more, id);
    LatestConcat(Without(es, ats), more, id);
  }

  /** No plan deletes a projection of the latest commit of an active object. */
  lemma ProjectionsSurvive(es: seq<Entry>, opts: Options, plan: seq<Ref>, id: ObjectID, en: Entry)
    requires WellFormed(es) && PlanOK(Records(es), opts, plan)
    requires ActiveOf(es, id).Some? && en in es && en.m.subject.IsGeofence() && en.m.data.o == id
    requires en.m.data.e in ExpectedIDs(ActiveOf(es, id).value)
    ensures en in Without(es, Ats(plan))
  {
    WithoutExactly(es, Ats(plan), en);
    ProjectionNotDeletable(es, opts, id, en);
    if en.at in Ats(plan) {
      assert plan[..|plan|] == plan;
      var i := DeletedAt(es, opts, plan, |plan|, en);
    }
  }

  lemma ProjectionNotDeletable(es: seq<Entry>, opts: Options, id: ObjectID, en: Entry)
    requires WellFormed(es) && ActiveOf(es, id).Some? && en in es && en.m.subject.IsGeofence() && en.m.data.o == id
    requires en.m.data.e in ExpectedIDs(ActiveOf(es, id).value)
    ensures ParseEventRecord(en).Ok? && ParseEventRecord(en).value.Some?
    ensures !Deletable(Records(es), opts, ParseEventRecord(en).value.value)
  {
    var recs, latest := Records(es), LatestOf(es, id).value;
    LatestAgrees(es, id);
    CommitRecord(es, latest, id);
    var k :| 0 <= k < |es| && es[k] == latest;
    var j :| 0 <= j < |es| && es[j] == en;
    assert WellFormedMsg(es[k].m) && WellFormedMsg(es[j].m);
    var st := StateOf(latest.m).value;
    assert ExpectedIDs(st) == ProjectionIDs(LatestIn(recs, id).value);
    assert IsProtected(recs, ParseEventRecord(en).value.value.e);
  }
  // ---- what a completed plan leaves ------------------------------------------------------------------------

  /** Some active object's latest commit lists the event among its projections. */
  ghost predicate Needed(es: seq<Entry>, e: EventID) {
    exists id :: ActiveOf(es, id).Some? && e in ExpectedIDs(ActiveOf(es, id).value)
  }

  /** Of the commits the latest of each object, unless that is a removal and tombstones go too; of the enters and
      exits those needed by an active object; and everything that is about no object. */
  ghost predicate LeftOver(es: seq<Entry>, opts: Options, en: Entry) {
    var o := en.m.data.o;
    if en.m.subject.IsCommit() then
      !opts.publicEvents || (LatestOf(es, o) == Some(en) && (ActiveOf(es, o).Some? || !opts.tombstones))
    else if en.m.subject.IsGeofence() && o != "" then
      ActiveOf(es, o).Some? && Needed(es, en.m.data.e)
    else true
  }

  lemma LatestLifecycle(es: seq<Entry>, id: ObjectID)
    requires WellFormed(es)
    ensures LatestIn(Records(es), id).Some? <==> LatestOf(es, id).Some?
    ensures LatestOf(es, id).Some? ==>
              var r, en := LatestIn(Records(es), id).value, LatestOf(es, id).value;
              && r.at == en.at && r.lifecycle == (if ActiveOf(es, id).Some? then Active else Removed)
              && StateOf(en.m).Some? && ProjectionIDs(r) == ExpectedIDs(StateOf(en.m).value)
  {
    hide CommitsIn, Records, LatestOf;
    LatestAgrees(es, id);
    if LatestOf(es, id).Some? {
      CommitRecord(es, LatestOf(es, id).value, id);
      var k :| 0 <= k < |es| && es[k] == LatestOf(es, id).value;
      assert WellFormedMsg(es[k].m);
    }
  }

  lemma NeededIffProtected(es: seq<Entry>, e: EventID)
    requires WellFormed(es)
    ensures IsProtected(Records(es), e) <==> Needed(es, e)
  {
    hide Records, LatestIn, LatestOf, ProjectionIDs, ExpectedIDs, WellFormed;
    if IsProtected(Records(es), e) {
      var id :| LatestIn(Records(es), id).Some? && LatestIn(Records(es), id).value.lifecycle == Active
                && e in ProjectionIDs(LatestIn(Records(es), id).value);
      LatestLifecycle(es, id);
    }
    if Needed(es, e) {
      var id :| ActiveOf(es, id).Some? && e in ExpectedIDs(ActiveOf(es, id).value);
      LatestLifecycle(es, id);
    }
  }

  lemma DeletableExactly(es: seq<Entry>, opts: Options, en: Entry)
    requires WellFormed(es) && en in es
    ensures ParseEventRecord(en).Ok?
    ensures ParseEventRecord(en).value.Some? && Deletable(Records(es), opts, ParseEventRecord(en).value.value) <==>
            !LeftOver(es, opts, en)
  {
    EntryRecord(es, en);
    NeededIffProtected(es, en.m.data.e);
    LatestLifecycle(es, en.m.data.o);
    hide ParseEventRecord, Records, LatestIn, LatestOf, IsProtected, Needed, ActiveOf, WellFormed;
    if en.m.subject.IsCommit() { CommitAtLatest(es, en); }
  }

  /** The record of an entry of a well-formed stream. */
  lemma EntryRecord(es: seq<Entry>, en: Entry)
    requires WellFormed(es) && en in es
    ensures var p, d := ParseEventRecord(en), en.m.data;
            && p.Ok? && (p.value.None? <==> d.o == "") && (en.m.subject.IsCommit() ==> d.o == en.m.subject.o && d.o != "")
            && (p.value.Some? ==>
                  && p.value.value.at == en.at && p.value.value.e == d.e && p.value.value.o == d.o
                  && p.value.value.isCommit == en.m.subject.IsCommit() && p.value.value.isProjection == en.m.subject.IsGeofence())
  {
    var k :| 0 <= k < |es| && es[k] == en;
    assert WellFormedMsg(es[k].m);
  }

  lemma CommitAtLatest(es: seq<Entry>, en: Entry)
    requires WellFormed(es) && en in es && en.m.subject.IsCommit()
    ensures LatestOf(es, en.m.data.o).Some? && (LatestOf(es, en.m.data.o).value.at == en.at <==> LatestOf(es, en.m.data.o).value == en)
  {
    EntryRecord(es, en);
    LatestIsHighest(es, en.m.data.o, en);
    SameAt(es, en.m.data.o, en);
  }

  lemma SameAt(es: seq<Entry>, id: ObjectID, en: Entry)
    requires Increasing(es) && en in es && LatestOf(es, id).Some?
    ensures LatestOf(es, id).value.at == en.at <==> LatestOf(es, id).value == en
  {
    if LatestOf(es, id).value.at == en.at { SameEntry(es, LatestOf(es, id).value, en); }
  }

  /** A completed plan is useful as well as safe: it leaves exactly this. */
  lemma CompactedExactly(es: seq<Entry>, opts: Options, plan: seq<Ref>, en: Entry)
    requires WellFormed(es) && PlanOK(Records(es), opts, plan) && en in es
    ensures en in Without(es, Ats(plan)) <==> LeftOver(es, opts, en)
  {
    hide Deletable, LeftOver, Records, ParseEventRecord, WellFormed;
    WithoutExactly(es, Ats(plan), en);
    DeletableExactly(es, opts, en);
    if en.at in Ats(plan) {
      assert plan[..|plan|] == plan;
      var i := DeletedAt(es, opts, plan, |plan|, en);
    }
    if ParseEventRecord(en).value.Some? && Deletable(Records(es), opts, ParseEventRecord(en).value.value) {
      var r := ParseEventRecord(en).value.value;
      RecordsExactly(es, r);
      assert RefOf(r) in plan;
      RecordAtEntry(en, r);
    }
  }

  lemma RecordAtEntry(en: Entry, r: Record)
    requires ParseEventRecord(en) == Ok(Some(r))
    ensures r.at == en.at
  {}
}
