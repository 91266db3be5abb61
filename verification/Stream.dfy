/** The GT_EVENTS stream as the boot code and the compaction see it: entries with increasing sequence
    numbers, from which single entries can be deleted. */
module Stream {
  import opened Domain
  import opened Events
  import opened EventLog

  datatype Entry = Entry(at: nat, m: Msg)

  predicate Increasing(es: seq<Entry>) {
    forall i, j :: 0 <= i < j < |es| ==> es[i].at < es[j].at
  }

  /** Object events as the builder makes them. */
  predicate WellFormedMsg(m: Msg) {
    if m.subject.IsCommit() then IsCommit(m) && m.data.o == m.subject.o && m.data.o != ""
    else m.data.cp.None? && (m.subject.IsGeofence() ==> m.data.o == m.subject.o)
  }

  predicate WellFormed(es: seq<Entry>) {
    Increasing(es) && forall i {:trigger es[i]} :: 0 <= i < |es| ==> es[i].at > 0 && WellFormedMsg(es[i].m)
  }

  predicate IsCommitOf(e: Entry, id: ObjectID) { e.m.subject.IsCommit() && e.m.subject.o == id }

  /** The object's latest commit. */
  function LatestOf(es: seq<Entry>, id: ObjectID): (r: Option<Entry>)
    ensures r.Some? ==> r.value in es && IsCommitOf(r.value, id)
    ensures r.None? ==> forall e :: e in es ==> !IsCommitOf(e, id)
  {
    if es == [] then None
    else if IsCommitOf(es[|es| - 1], id) then Some(es[|es| - 1])
    else LatestOf(es[..|es| - 1], id)
  }

  lemma {:induction false} LatestIsHighest(es: seq<Entry>, id: ObjectID, e: Entry)
    requires Increasing(es) && e in es && IsCommitOf(e, id)
    ensures LatestOf(es, id).Some? && e.at <= LatestOf(es, id).value.at
    decreases |es|
  {
    var n := |es| - 1;
    if !IsCommitOf(es[n], id) {
      assert e in es[..n];
      LatestIsHighest(es[..n], id, e);
    } else {
      var k :| 0 <= k <= n && es[k] == e;
    }
  }

  lemma LatestUnique(es: seq<Entry>, id: ObjectID, e: Entry)
    requires Increasing(es) && e in es && IsCommitOf(e, id)
    requires forall x :: x in es && IsCommitOf(x, id) ==> x.at <= e.at
    ensures LatestOf(es, id) == Some(e)
  {
    LatestIsHighest(es, id, e);
    var x := LatestOf(es, id).value;
    var i :| 0 <= i < |es| && es[i] == e;
    var j :| 0 <= j < |es| && es[j] == x;
  }

  lemma {:induction false} LatestConcat(a: seq<Entry>, b: seq<Entry>, id: ObjectID)
    ensures LatestOf(a + b, id) == if LatestOf(b, id).Some? then LatestOf(b, id) else LatestOf(a, id)
    decreases |b|
  {
    if b == [] {
      assert a + b == a;
    } else {
      var n := |b| - 1;
      assert (a + b)[..|a + b| - 1] == a + b[..n];
      LatestConcat(a, b[..n], id);
    }
  }

  // ---- recovery's consumer ------------------------------------------------------------------------------

  /** The last entry of its subject. */
  predicate IsLastOfSubject(es: seq<Entry>, e: Entry) {
    e in es && forall x :: x in es && x.m.subject == e.m.subject ==> x.at <= e.at
  }

  /** What a last-per-subject consumer on the three commit subjects delivers, in any order. */
  ghost predicate Delivers(es: seq<Entry>, delivered: seq<Entry>) {
    forall e :: e in delivered <==> IsLastOfSubject(es, e) && e.m.subject.IsCommit()
  }

  datatype Recovered = Recovered(state: StateRecord, at: nat, m: Msg)

  function AsRecovered(e: Entry): Recovered
    requires CheckpointStateFromPublicEvent(e.m.data).Ok? && CheckpointStateFromPublicEvent(e.m.data).value.Some?
  {
    Recovered(CheckpointStateFromPublicEvent(e.m.data).value.value, e.at, e.m)
  }

  predicate Decodes(e: Entry) { CheckpointStateFromPublicEvent(e.m.data).Ok? }

  /** A delivered event that recovery can use for the object. */
  predicate Usable(e: Entry, id: ObjectID) {
    && Decodes(e) && CheckpointStateFromPublicEvent(e.m.data).value.Some?
    && AsRecovered(e).state.objectID == id != ""
  }

  /** The usable delivered entries with the highest sequence number, per object. */
  ghost predicate Picks(delivered: seq<Entry>, commits: map<ObjectID, Recovered>) {
    && (forall e, id {:trigger Usable(e, id)} :: e in delivered && Usable(e, id) ==> id in commits && e.at <= commits[id].at)
    && (forall id {:trigger commits[id]} :: id in commits ==>
          exists e :: e in delivered && Usable(e, id) && commits[id] == AsRecovered(e))
  }

  /** RecoverObjectCommits. */
  method RecoverObjectCommits(delivered: seq<Entry>) returns (r: Result<map<ObjectID, Recovered>>)
    ensures r.Err? <==> exists e :: e in delivered && !Decodes(e)
    ensures r.Ok? ==> Picks(delivered, r.value)
  {
    var commits: map<ObjectID, Recovered> := map[];
    for k := 0 to |delivered|
      invariant forall e :: e in delivered[..k] ==> Decodes(e)
      invariant Picks(delivered[..k], commits)
    {
      var e := delivered[k];
      ghost var before := commits;
      assert delivered[..k + 1] == delivered[..k] + [e] && e in delivered;
      match CheckpointStateFromPublicEvent(e.m.data) {
        case Err =>
          assert !Decodes(e);
          return Err;
        case Ok(None) =>
        case Ok(Some(st)) =>
          if st.objectID != "" && e.at >= (if st.objectID in commits then commits[st.objectID].at else 0) {
            commits := commits[st.objectID := Recovered(st, e.at, e.m)];
          }
          PicksMore(delivered[..k], e, before, commits);
      }
    }
    assert delivered[..|delivered|] == delivered;
    return Ok(commits);
  }

  lemma PicksMore(seen: seq<Entry>, e: Entry, before: map<ObjectID, Recovered>, after: map<ObjectID, Recovered>)
    requires Picks(seen, before) && Decodes(e) && CheckpointStateFromPublicEvent(e.m.data).value.Some?
    requires var st := AsRecovered(e).state;
             after == if st.objectID != "" && e.at >= (if st.objectID in before then before[st.objectID].at else 0)
                      then before[st.objectID := AsRecovered(e)] else before
    ensures Picks(seen + [e], after)
  {
    hide CheckpointStateFromPublicEvent;
    forall id | id in after ensures exists x :: x in seen + [e] && Usable(x, id) && after[id] == AsRecovered(x) {
      if id in before && after[id] == before[id] {
        var x :| x in seen && Usable(x, id) && before[id] == AsRecovered(x);
        assert x in seen + [e];
      } else {
        assert e in seen + [e] && Usable(e, id);
      }
    }
  }

  /** Recovery picks, for every object with a commit in the stream, its latest one: the highest of the
      last entries of the three commit subjects. */
  lemma RecoveryPicksLatest(es: seq<Entry>, delivered: seq<Entry>, commits: map<ObjectID, Recovered>, id: ObjectID)
    requires WellFormed(es) && Delivers(es, delivered) && Picks(delivered, commits)
    ensures id in commits <==> LatestOf(es, id).Some?
    ensures id in commits ==> commits[id].at == LatestOf(es, id).value.at && commits[id].m == LatestOf(es, id).value.m
                              && StateOf(commits[id].m) == Some(commits[id].state)
  {
    hide Usable, LatestOf, IsLastOfSubject;
    if LatestOf(es, id).Some? {
      var e := LatestOf(es, id).value;
      LatestIsLast(es, id);
      UsableIffCommit(es, e, id);
      assert e in delivered;
    }
    if id in commits {
      var x := PickedFrom(delivered, commits, id);
      assert x in es by { DeliveredIn(es, delivered, x); }
      UsableIffCommit(es, x, id);
      LatestIsHighest(es, id, x);
      SameEntry(es, x, LatestOf(es, id).value);
    }
  }

  lemma PickedFrom(delivered: seq<Entry>, commits: map<ObjectID, Recovered>, id: ObjectID) returns (x: Entry)
    requires Picks(delivered, commits) && id in commits
    ensures x in delivered && Usable(x, id) && commits[id].at == x.at && commits[id].m == x.m
    ensures Decodes(x) && CheckpointStateFromPublicEvent(x.m.data).value == Some(commits[id].state)
  {
    x :| x in delivered && Usable(x, id) && commits[id] == AsRecovered(x);
  }

  lemma DeliveredIn(es: seq<Entry>, delivered: seq<Entry>, x: Entry)
    requires Delivers(es, delivered) && x in delivered
    ensures x in es
  {}

  lemma SameEntry(es: seq<Entry>, a: Entry, b: Entry)
    requires Increasing(es) && a in es && b in es && a.at == b.at
    ensures a == b
  {
    var i :| 0 <= i < |es| && es[i] == a;
    var j :| 0 <= j < |es| && es[j] == b;
  }

  /** Among the builder's events exactly the object's commits can be used by recovery. */
  lemma UsableIffCommit(es: seq<Entry>, e: Entry, id: ObjectID)
    requires WellFormed(es) && e in es
    ensures Usable(e, id) <==> IsCommitOf(e, id)
    ensures IsCommitOf(e, id) ==> Decodes(e) && StateOf(e.m) == CheckpointStateFromPublicEvent(e.m.data).value
  {
    var i :| 0 <= i < |es| && es[i] == e;
    assert WellFormedMsg(es[i].m);
  }

  lemma LatestIsLast(es: seq<Entry>, id: ObjectID)
    requires Increasing(es) && LatestOf(es, id).Some?
    ensures IsLastOfSubject(es, LatestOf(es, id).value)
  {
    var e := LatestOf(es, id).value;
    forall x | x in es && x.m.subject == e.m.subject ensures x.at <= e.at { LatestIsHighest(es, id, x); }
  }
}
