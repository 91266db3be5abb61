/** Which of the plans that pass the check are safe.  The check looks at each entry of a plan alone; whether
    stopping in the middle can bring a removed object back depends on the order. */
module CompactionOrder {
  import opened Domain
  import opened Events
  import opened EventLog
  import opened Stream
  import opened Compaction
  import opened Ops

  /** When the entry is deleted: its first position in the plan, or the end if it is not in it. */
  function Turn(plan: seq<Ref>, at: nat): (k: nat)
    ensures k <= |plan|
    ensures k < |plan| ==> plan[k].at == at
    ensures forall j :: 0 <= j < k ==> plan[j].at != at
  {
    if plan == [] || plan[0].at == at then 0 else 1 + Turn(plan[1..], at)
  }

  predicate IsActiveCommit(en: Entry, id: ObjectID) {
    IsCommitOf(en, id) && StateOf(en.m).Some? && StateOf(en.m).value.lifecycle == Active
  }

  /** Some later commit of the object stays at least as long as this one. */
  ghost predicate Outlived(es: seq<Entry>, plan: seq<Ref>, en: Entry, id: ObjectID) {
    exists x :: x in es && IsCommitOf(x, id) && x.at > en.at && Turn(plan, x.at) >= Turn(plan, en.at)
  }

  /** No active commit that has a successor outlives all its successors. */
  ghost predicate GoodOrder(es: seq<Entry>, plan: seq<Ref>) {
    forall en, id {:trigger Outlived(es, plan, en, id)} ::
      en in es && IsActiveCommit(en, id) && LatestOf(es, id) != Some(en) ==> Outlived(es, plan, en, id)
  }

  /** The plan passes the check: a fresh, most generous plan would delete each of its entries. */
  ghost predicate Accepted(es: seq<Entry>, plan: seq<Ref>) {
    forall k {:trigger plan[k]} :: 0 <= k < |plan| ==> MayDelete(es, plan[k].at)
  }

  ghost predicate SafeWhenever(es: seq<Entry>, plan: seq<Ref>) {
    forall n: nat, id {:trigger ActiveOf(Without(es, Ats(plan[..n])), id)} :: n <= |plan| ==>
      ActiveOf(Without(es, Ats(plan[..n])), id) == ActiveOf(es, id)
  }

  lemma DeletedIffTurn(plan: seq<Ref>, n: nat, at: nat)
    requires n <= |plan|
    ensures at in Ats(plan[..n]) <==> Turn(plan, at) < n
  {
    var k := Turn(plan, at);
    if at in Ats(plan[..n]) {
      var d :| d in plan[..n] && d.at == at;
      var j :| 0 <= j < n && plan[..n][j] == d;
      assert plan[j].at == at;
    }
    if k < n { InAts(plan, n, k); }
  }

  /** An accepted plan leaves the latest commit of an active object. */
  lemma ActiveStays(es: seq<Entry>, plan: seq<Ref>, n: nat, id: ObjectID)
    requires WellFormed(es) && Accepted(es, plan) && n <= |plan| && ActiveOf(es, id).Some?
    ensures LatestOf(es, id).value.at !in Ats(plan[..n])
  {
    var latest := LatestOf(es, id).value;
    if latest.at in Ats(plan[..n]) {
      var d :| d in plan[..n] && d.at == latest.at;
      var j :| 0 <= j < n && plan[..n][j] == d;
      assert MayDelete(es, plan[j].at);
      NotDeletable(es, id);
    }
  }

  lemma NotDeletable(es: seq<Entry>, id: ObjectID)
    requires WellFormed(es) && ActiveOf(es, id).Some?
    ensures !MayDelete(es, LatestOf(es, id).value.at)
  {
    var latest := LatestOf(es, id).value;
    LatestAgrees(es, id);
    CommitRecord(es, latest, id);
    forall r | r in Records(es) && r.at == latest.at ensures !Deletable(Records(es), Options(true, true), r) {
      RecordsExactly(es, r);
      var x :| x in es && ParseEventRecord(x) == Ok(Some(r));
      SameEntry(es, x, latest);
    }
  }

  /** What is left of the object's commits, if its latest one is gone. */
  lemma LatestLeft(es: seq<Entry>, ats: set<nat>, id: ObjectID, en: Entry)
    requires WellFormed(es) && en in es && IsCommitOf(en, id) && en.at !in ats
    requires forall x :: x in es && IsCommitOf(x, id) && x.at > en.at ==> x.at in ats
    ensures LatestOf(Without(es, ats), id) == Some(en)
  {
    WithoutIncreasing(es, ats);
    WithoutExactly(es, ats, en);
    forall x | x in Without(es, ats) && IsCommitOf(x, id) ensures x.at <= en.at { WithoutExactly(es, ats, x); }
    LatestUnique(Without(es, ats), id, en);
  }

  lemma GoodOrderIsSafe(es: seq<Entry>, plan: seq<Ref>, n: nat, id: ObjectID)
    requires WellFormed(es) && Accepted(es, plan) && GoodOrder(es, plan) && n <= |plan|
    ensures ActiveOf(Without(es, Ats(plan[..n])), id) == ActiveOf(es, id)
  {
    hide Accepted, Outlived, StateOf;
    var ats := Ats(plan[..n]);
    var rest := Without(es, ats);
    if ActiveOf(es, id).Some? {
      ActiveStays(es, plan, n, id);
      DeletionKeepsActive(es, ats, id);
    } else if LatestOf(rest, id).Some? {
      var en := LatestOf(rest, id).value;
      WithoutExactly(es, ats, en);
      if IsActiveCommit(en, id) {
        assert LatestOf(es, id) != Some(en);
        assert Outlived(es, plan, en, id);
        StillThere(es, plan, n, en, id);
      }
    }
  }

  lemma StillThere(es: seq<Entry>, plan: seq<Ref>, n: nat, en: Entry, id: ObjectID)
    requires WellFormed(es) && n <= |plan| && en.at !in Ats(plan[..n]) && Outlived(es, plan, en, id)
    ensures LatestOf(Without(es, Ats(plan[..n])), id) != Some(en)
  {
    var ats := Ats(plan[..n]);
    var x :| x in es && IsCommitOf(x, id) && x.at > en.at && Turn(plan, x.at) >= Turn(plan, en.at);
    DeletedIffTurn(plan, n, en.at);
    DeletedIffTurn(plan, n, x.at);
    WithoutExactly(es, ats, x);
    WithoutIncreasing(es, ats);
    LatestIsHighest(Without(es, ats), id, x);
  }

  lemma SafeIsGoodOrder(es: seq<Entry>, plan: seq<Ref>, en: Entry, id: ObjectID)
    requires WellFormed(es) && Accepted(es, plan) && SafeWhenever(es, plan)
    requires en in es && IsActiveCommit(en, id) && LatestOf(es, id) != Some(en)
    ensures Outlived(es, plan, en, id)
  {
    hide Accepted, StateOf;
    if !Outlived(es, plan, en, id) {
      var n := Turn(plan, en.at);
      var ats := Ats(plan[..n]);
      DeletedIffTurn(plan, n, en.at);
      forall x | x in es && IsCommitOf(x, id) && x.at > en.at ensures x.at in ats { DeletedIffTurn(plan, n, x.at); }
      LatestLeft(es, ats, id, en);
      assert ActiveOf(Without(es, ats), id) == ActiveOf(es, id);
      ActiveStays(es, plan, n, id);
      LatestIsHighest(es, id, en);
    }
  }

  /** Main result: of the plans that pass the check, exactly those in good order are safe wherever their
      execution stops. */
  lemma OrderDecidesSafety(es: seq<Entry>, plan: seq<Ref>)
    requires WellFormed(es) && Accepted(es, plan)
    ensures SafeWhenever(es, plan) <==> GoodOrder(es, plan)
  {
    hide Accepted, ActiveOf, Outlived, WellFormed, LatestOf;
    if GoodOrder(es, plan) {
      forall n: nat, id | n <= |plan| ensures ActiveOf(Without(es, Ats(plan[..n])), id) == ActiveOf(es, id) {
        GoodOrderIsSafe(es, plan, n, id);
      }
    }
    if SafeWhenever(es, plan) {
      forall en, id | en in es && IsActiveCommit(en, id) && LatestOf(es, id) != Some(en) ensures Outlived(es, plan, en, id) {
        SafeIsGoodOrder(es, plan, en, id);
      }
    }
  }

  lemma GeneratedIsAccepted(es: seq<Entry>, opts: Options, plan: seq<Ref>)
    requires PlanOK(Records(es), opts, plan)
    ensures Accepted(es, plan)
  {
    hide Records, LatestIn, IsProtected;
    forall k | 0 <= k < |plan| ensures MayDelete(es, plan[k].at) {
      assert plan[k] in plan;
      var r :| r in Records(es) && Deletable(Records(es), opts, r) && plan[k] == RefOf(r);
      assert Deletable(Records(es), Options(true, true), r);
    }
  }

  /** Generated plans pass the check and are in good order. */
  lemma GeneratedInOrder(es: seq<Entry>, opts: Options, plan: seq<Ref>)
    requires WellFormed(es) && PlanOK(Records(es), opts, plan)
    ensures Accepted(es, plan) && GoodOrder(es, plan)
  {
    GeneratedIsAccepted(es, opts, plan);
    hide PlanOK, Accepted, WellFormed, ActiveOf;
    forall n: nat, id | n <= |plan| ensures ActiveOf(Without(es, Ats(plan[..n])), id) == ActiveOf(es, id) {
      SafeAtEveryPrefix(es, opts, plan, n, [], id);
      assert Without(es, Ats(plan[..n])) + [] == Without(es, Ats(plan[..n])) && es + [] == es;
    }
    OrderDecidesSafety(es, plan);
  }

  /** Compaction end to end: whatever `Compact` leaves of the stream, with an order that is good recovery finds
      the same active objects in the same states as before. */
  lemma CompactedIsSafe(before: seq<Entry>, plan: seq<Ref>, n: nat, after: seq<Entry>, id: ObjectID)
    requires WellFormed(before) && GoodOrder(before, plan)
    requires if Acceptable(before, plan) then DeletedUpTo(before, plan, n, after) else after == before
    ensures ActiveOf(after, id) == ActiveOf(before, id)
  {
    hide WellFormed, GoodOrder, ActiveOf, MayDelete;
    if Acceptable(before, plan) { GoodOrderIsSafe(before, plan, n, id); }
  }

  // ---- an accepted plan need not be safe ---------------------------------------------------------------------

  const BORN := Msg(ObjectRegistered("o"),
                    Payload(RegisteredID("o", "i", 1), "", 0, "o", "i", 1, None, None, Dims(1.0, 1.0), [], None, None,
                            Some(Checkpoint("a", None, [], []))))
  const GONE := Msg(ObjectRemoved("o"),
                    Payload(RemovedID("o", "i", 2), "", 0, "o", "i", 2, None, None, Dims(1.0, 1.0), [], None, None,
                            Some(Checkpoint("r", None, [], []))))
  const BORN_RECORD := Record(1, BORN.subject, BORN.data.e, "o", "i", 1, Active, [], true, false)
  const GONE_RECORD := Record(2, GONE.subject, GONE.data.e, "o", "i", 2, Removed, [], true, false)

  lemma WitnessParses()
    ensures ParseEventRecord(Entry(1, BORN)) == Ok(Some(BORN_RECORD)) && ParseEventRecord(Entry(2, GONE)) == Ok(Some(GONE_RECORD))
    ensures StateOf(BORN).Some? && StateOf(BORN).value.lifecycle == Active && StateOf(GONE).Some? && StateOf(GONE).value.lifecycle == Removed
  {
    TransitionsRoundTrip([]);
    assert CompactTransitions([]) == [];
  }

  lemma WitnessRecords()
    ensures var es := [Entry(1, BORN), Entry(2, GONE)];
            && WellFormed(es) && Records(es) == [BORN_RECORD, GONE_RECORD]
            && ActiveOf(es, "o").None? && ActiveOf([es[0]], "o").Some?
  {
    var e1, e2 := Entry(1, BORN), Entry(2, GONE);
    WitnessParses();
    hide ParseEventRecord, StateOf;
    assert [e1, e2] == [e1] + [e2] && [e1] == [] + [e1];
    RecordsSnoc([], e1);
    RecordsSnoc([e1], e2);
  }

  lemma WitnessLatest()
    ensures LatestIn([BORN_RECORD, GONE_RECORD], "o") == Some(GONE_RECORD)
  {
    var recs := [BORN_RECORD, GONE_RECORD];
    assert recs[..1] == [BORN_RECORD] && [BORN_RECORD][..0] == [];
    assert CommitsIn([BORN_RECORD], "o") == [BORN_RECORD];
    assert CommitsIn(recs, "o") == [BORN_RECORD, GONE_RECORD];
  }

  lemma WitnessPlan()
    ensures PlanOK([BORN_RECORD, GONE_RECORD], Options(true, true), [RefOf(BORN_RECORD), RefOf(GONE_RECORD)])
  {
    var recs, opts, plan := [BORN_RECORD, GONE_RECORD], Options(true, true), [RefOf(BORN_RECORD), RefOf(GONE_RECORD)];
    WitnessLatest();
    assert Deletable(recs, opts, BORN_RECORD) && Deletable(recs, opts, GONE_RECORD);
    assert recs[0] in recs && recs[1] in recs && plan[0] in plan && plan[1] in plan;
    forall d ensures d in plan <==> exists r :: r in recs && Deletable(recs, opts, r) && d == RefOf(r) {
      if d in plan {
        assert d == RefOf(BORN_RECORD) || d == RefOf(GONE_RECORD);
      }
    }
  }

  lemma SameEntries(es: seq<Entry>, plan: seq<Ref>, other: seq<Ref>)
    requires Accepted(es, plan) && |plan| == |other| == 2 && other == [plan[1], plan[0]]
    ensures Accepted(es, other)
  {
    hide MayDelete;
    assert MayDelete(es, plan[0].at) && MayDelete(es, plan[1].at);
  }

  lemma WitnessAccepted()
    ensures Accepted([Entry(1, BORN), Entry(2, GONE)], [RefOf(GONE_RECORD), RefOf(BORN_RECORD)])
  {
    var es, regenerated := [Entry(1, BORN), Entry(2, GONE)], [RefOf(BORN_RECORD), RefOf(GONE_RECORD)];
    WitnessRecords();
    WitnessPlan();
    hide Records, PlanOK, ParseEventRecord;
    GeneratedIsAccepted(es, Options(true, true), regenerated);
    SameEntries(es, regenerated, [RefOf(GONE_RECORD), RefOf(BORN_RECORD)]);
  }

  /** The check does not look at the order: a plan with the tombstone first is accepted, and stopping
      after one deletion brings the removed object back. */
  lemma ReorderedPlanResurrects()
    ensures exists es, plan ::
              && WellFormed(es) && Accepted(es, plan)
              && |plan| > 0 && ActiveOf(es, "o").None? && ActiveOf(Without(es, Ats(plan[..1])), "o").Some?
  {
    hide ActiveOf, WellFormed, Accepted, Records;
    var es := [Entry(1, BORN), Entry(2, GONE)];
    var plan := [RefOf(GONE_RECORD), RefOf(BORN_RECORD)];
    WitnessRecords();
    WitnessAccepted();
    assert plan[..1] == [RefOf(GONE_RECORD)] && Ats([RefOf(GONE_RECORD)]) == {2};
    assert es[..1] == [es[0]] && [es[0]][..0] == [];
    assert Without([es[0]], {2}) == [es[0]];
    assert Without(es, {2}) == [es[0]];
  }
}
