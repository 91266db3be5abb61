/** Main results about one object over whole runs: any interleaving of commands, worker steps,
    publish attempts with lost acknowledgements, area removals, crashes, repairs and boots. */
module ObjectRuns {
  import opened Domain
  import opened Events
  import opened EventLog
  import opened Mailbox
  import opened ObjectMachine
  import opened ObjectInvariant
  import opened ObjectSteps
  import opened ObjectLog
  import opened ObjectAnswers
  import opened ObjectGeofence
  import opened ObjectRefinement

  ghost predicate StepOK(cfg: Config, id: ObjectID, o: Obj, l: Label, o': Obj) {
    Enabled(id, o, l) && o' == Step(cfg, id, o, l)
  }

  ghost predicate IsRun(cfg: Config, id: ObjectID, run: seq<Obj>, labels: seq<Label>) {
    && |run| == |labels| + 1 && Initial(run[0])
    && forall k {:trigger labels[k]} :: 0 <= k < |labels| ==> StepOK(cfg, id, run[k], labels[k], run[k + 1])
  }

  lemma RunSnoc(cfg: Config, id: ObjectID, os: seq<Obj>, ls: seq<Label>, l: Label, o': Obj)
    requires IsRun(cfg, id, os, ls) && StepOK(cfg, id, os[|os| - 1], l, o')
    ensures IsRun(cfg, id, os + [o'], ls + [l])
  {
    hide StepOK;
    var os', ls' := os + [o'], ls + [l];
    forall k | 0 <= k < |ls'| ensures StepOK(cfg, id, os'[k], ls'[k], os'[k + 1]) {
      if k < |ls| { assert ls'[k] == ls[k] && StepOK(cfg, id, os[k], ls[k], os[k + 1]); }
    }
  }

  ghost predicate Sound(cfg: Config, id: ObjectID, o: Obj) {
    Inv(cfg, id, o) && LogInv(id, o) && CompleteInv(o) && (o.up ==> BookOK(o)) && NoEmptySnapshot(o.prev)
  }

  /** An empty inside set is not stored. */
  ghost predicate NoEmptySnapshot(prev: map<Region, set<AreaID>>) {
    forall r {:trigger r in prev} :: r in prev ==> prev[r] != {}
  }

  lemma SnapshotStep(cfg: Config, id: ObjectID, o: Obj, l: Label)
    requires NoEmptySnapshot(o.prev) && Enabled(id, o, l)
    ensures NoEmptySnapshot(Step(cfg, id, o, l).prev)
  {
    hide OnEnvelope, OnResult, OnCommitResult, Process, CanRepair, ValidChoice, LastCommit, StateOf, JobAfter, LogAfter;
  }

  lemma InitialSound(cfg: Config, id: ObjectID, o: Obj)
    requires Initial(o)
    ensures Sound(cfg, id, o) && GeoInv(cfg, o, {})
  {}

  lemma SoundStep(cfg: Config, id: ObjectID, o: Obj, l: Label)
    requires Sound(cfg, id, o) && Enabled(id, o, l)
    ensures Sound(cfg, id, Step(cfg, id, o, l))
  {
    hide Inv, LogInv, CompleteInv, BookOK, NoEmptySnapshot, Step, Enabled;
    SnapshotStep(cfg, id, o, l);
    StepKeeps(cfg, id, o, l);
    LogStep(cfg, id, o, l);
    CompleteStep(cfg, id, o, l);
    BookStep(cfg, id, o, l);
  }

  /** The invariants hold in every state of every run. */
  lemma {:induction false} RunSound(cfg: Config, id: ObjectID, run: seq<Obj>, labels: seq<Label>, k: nat)
    requires IsRun(cfg, id, run, labels) && k < |run|
    ensures Sound(cfg, id, run[k])
  {
    hide Sound, Step, Enabled;
    if k == 0 {
      InitialSound(cfg, id, run[0]);
    } else {
      RunSound(cfg, id, run, labels, k - 1);
      assert StepOK(cfg, id, run[k - 1], labels[k - 1], run[k]);
      SoundStep(cfg, id, run[k - 1], labels[k - 1]);
    }
  }

  // ---- the log ------------------------------------------------------------------------------------

  ghost predicate CrashFree(labels: seq<Label>) { forall k {:trigger labels[k]} :: 0 <= k < |labels| ==> !labels[k].LCrash? }

  lemma StaysUp(cfg: Config, id: ObjectID, o: Obj, l: Label)
    requires Enabled(id, o, l) && o.up && !l.LCrash?
    ensures Step(cfg, id, o, l).up && Step(cfg, id, o, l).base == o.base
  {
    hide OnEnvelope, OnResult, OnCommitResult, Process, ApplyMutation, CanRepair, ValidChoice;
  }

  lemma {:induction false} FirstLife(cfg: Config, id: ObjectID, run: seq<Obj>, labels: seq<Label>, k: nat)
    requires IsRun(cfg, id, run, labels) && CrashFree(labels) && k < |run|
    ensures run[k].up && run[k].base == []
  {
    hide Step, Enabled;
    if k > 0 {
      FirstLife(cfg, id, run, labels, k - 1);
      assert StepOK(cfg, id, run[k - 1], labels[k - 1], run[k]);
      StaysUp(cfg, id, run[k - 1], labels[k - 1]);
    }
  }

  /** In every crash-free run, however many acknowledgements are lost, the log with repeats dropped
      is commit 1, its projections, commit 2, its projections, and so on, and last what is known to
      be stored of the current commit; commit k of the log is the k-th one sent. */
  lemma CrashFreeLog(cfg: Config, id: ObjectID, run: seq<Obj>, labels: seq<Label>, k: nat)
    requires IsRun(cfg, id, run, labels) && CrashFree(labels) && k < |run|
    ensures var o := run[k];
            && Dedup(o.log) == EachOnce(o.sent) + Dedup(Pending(o.tok))
            && SentAs(id, o.sent, Commits(o.log), 0)
            && ChainOK(cfg, id, Commits(o.log))
  {
    hide Inv, LogInv, CompleteInv, BookOK, IsRun, ChainOK, SentAs;
    RunSound(cfg, id, run, labels, k);
    FirstLife(cfg, id, run, labels, k);
    LogRefinement(cfg, id, run[k]);
    InvChain(cfg, id, run[k]);
    assert Dedup(run[k].base) == [] && |Commits(run[k].base)| == 0;
    assert [] + EachOnce(run[k].sent) == EachOnce(run[k].sent);
  }

  lemma InvChain(cfg: Config, id: ObjectID, o: Obj)
    requires Inv(cfg, id, o)
    ensures ChainOK(cfg, id, Commits(o.log)) && NewestLast(o.log)
  {
    hide LogOK, Succeeds, StateOK, Present;
  }

  /** In every run, with crashes between any two publishes, every commit but the object's latest has
      all its projections in the log; all have while the process is up and nothing is being
      published, so in particular right after a boot. */
  lemma ProjectionsComplete(cfg: Config, id: ObjectID, run: seq<Obj>, labels: seq<Label>, k: nat, j: nat)
    requires IsRun(cfg, id, run, labels) && k < |run| && j < |Commits(run[k].log)|
    requires j < |Commits(run[k].log)| - 1 || (run[k].up && !Stored(run[k].tok))
    ensures Complete(run[k].log, Commits(run[k].log)[j])
  {
    hide Inv, LogInv, BookOK, IsRun, Complete, Commits;
    RunSound(cfg, id, run, labels, k);
    assert Settled(run[k])[j] == Commits(run[k].log)[j];
  }

  /** A success is answered only for a commit that is in the log with all its projections. */
  lemma AnsweredIsDurable(cfg: Config, id: ObjectID, run: seq<Obj>, labels: seq<Label>, k: nat, a: Answer)
    requires IsRun(cfg, id, run, labels) && k < |run| && a in run[k].book.answered && a.Committed?
    ensures Durable(run[k].log, a.instanceID, a.commitSeq)
  {
    hide Inv, LogInv, BookOK, IsRun, Durable, Settled, AllComplete;
    RunSound(cfg, id, run, labels, k);
  }

  /** Every command that arrived is refused at once, or accepted; the accepted ones are answered once
      each, in arrival order, up to those that still wait in the mailbox. */
  lemma AnsweredOnceInOrder(cfg: Config, id: ObjectID, run: seq<Obj>, labels: seq<Label>, k: nat)
    requires IsRun(cfg, id, run, labels) && k < |run| && run[k].up
    ensures var b := run[k].book;
            && multiset(b.arrived) == multiset(b.accepted) + multiset(Replies(b.refused))
            && b.accepted == Replies(b.answered) + WaitingIn(run[k].ctl)
  {
    hide Inv, LogInv, CompleteInv, IsRun;
    RunSound(cfg, id, run, labels, k);
  }

  // ---- one tree -----------------------------------------------------------------------------------

  lemma OneTreeIn(cfg: Config, id: ObjectID, o: Obj)
    requires Inv(cfg, id, o)
    ensures o.tree.Keys == if o.ctl.Some? && o.ctl.value.pub.Some? then {o.ctl.value.pub.value} else {}
  {
    hide LogOK, StateOK, Succeeds, EnvelopeOK, MailboxOK, StoredOK;
    if o.ctl.Some? {
      var cs := Confirmed(o.log, o.tok);
      assert Last(cs).Some? ==> StateOK(cfg, id, Last(cs).value);
      TreeKeys(cfg, id, o.ctl.value, o.tok, cs, o.tree);
    }
  }

  lemma TreeKeys(cfg: Config, id: ObjectID, c: Ctl, tok: Option<Token>, cs: seq<StateRecord>, tree: map<Region, Item>)
    requires NumberOK(c, cs) && Stage(cfg, id, c, tok, Last(cs), tree)
    requires Last(cs).Some? ==> StateOK(cfg, id, Last(cs).value)
    ensures tree.Keys == if c.pub.Some? then {c.pub.value} else {}
  {
    hide EnvelopeOK;
    match tok {
      case Some(CommitTok(env)) =>
      case Some(JobTok(job)) =>
      case _ =>
    }
  }

  /** In every run the object is in the tree of its published region and in no other tree, and in
      none when it has no published region. */
  lemma OneTree(cfg: Config, id: ObjectID, run: seq<Obj>, labels: seq<Label>, k: nat)
    requires IsRun(cfg, id, run, labels) && k < |run|
    ensures var o := run[k];
            o.tree.Keys == if o.ctl.Some? && o.ctl.value.pub.Some? then {o.ctl.value.pub.value} else {}
  {
    hide Inv, LogInv, CompleteInv, BookOK, IsRun;
    RunSound(cfg, id, run, labels, k);
    OneTreeIn(cfg, id, run[k]);
  }

  lemma TaskWorks(cfg: Config, id: ObjectID, o: Obj, ch: Choice)
    requires Inv(cfg, id, o) && Enabled(id, o, LWork(ch))
    ensures !Process(o.ctl, o.tok.value.task, o.tree, ch).res.rejected
  {
    hide LogOK, StateOK, Succeeds, NumberOK, StoredOK;
    assert ChainOK(cfg, id, Confirmed(o.log, o.tok));
    WorkFits(cfg, id, o.ctl.value, o.tok.value.task, Confirmed(o.log, o.tok), o.tree, o.prev, ch);
  }

  /** No worker ever rejects a task: the branch for a published region that does not match its task
      is never taken. */
  lemma WorkersNeverReject(cfg: Config, id: ObjectID, run: seq<Obj>, labels: seq<Label>, k: nat, ch: Choice)
    requires IsRun(cfg, id, run, labels) && k < |run| && Enabled(id, run[k], LWork(ch))
    ensures !Process(run[k].ctl, run[k].tok.value.task, run[k].tree, ch).res.rejected
  {
    hide Inv, LogInv, CompleteInv, BookOK, IsRun, Process, ValidChoice;
    RunSound(cfg, id, run, labels, k);
    TaskWorks(cfg, id, run[k], ch);
  }

  // ---- recovery -------------------------------------------------------------------------------------

  lemma IdleRecovers(cfg: Config, id: ObjectID, o: Obj)
    requires Inv(cfg, id, o) && o.up && o.tok.None?
    ensures BootState(cfg, o.log).ctl == o.ctl && BootState(cfg, o.log).tree == o.tree
  {
    hide LogOK, Succeeds, Commits;
    var cs := Commits(o.log);
    assert Confirmed(o.log, o.tok) == cs;
    if o.ctl.Some? { assert StateOK(cfg, id, cs[|cs| - 1]); }
  }

  /** Recovery equals live state: in every run, for an object with nothing in flight, the control
      block (instance, commit number, dimensions, region, empty mailbox) and the tree entry rebuilt
      from the log are those of the running engine. */
  lemma RecoveryEqualsLive(cfg: Config, id: ObjectID, run: seq<Obj>, labels: seq<Label>, k: nat)
    requires IsRun(cfg, id, run, labels) && k < |run| && run[k].up && run[k].tok.None?
    ensures BootState(cfg, run[k].log).ctl == run[k].ctl && BootState(cfg, run[k].log).tree == run[k].tree
  {
    hide Inv, LogInv, CompleteInv, BookOK, IsRun, BootState;
    RunSound(cfg, id, run, labels, k);
    IdleRecovers(cfg, id, run[k]);
  }

  // ---- inside snapshots -------------------------------------------------------------------------------

  /** The areas erased from the snapshot of the object's region since it was last written. */
  function Erased(run: seq<Obj>, labels: seq<Label>, k: nat): set<AreaID>
    requires k <= |labels| < |run|
  {
    if k == 0 then {} else NextErased(run[k - 1], labels[k - 1], Erased(run, labels, k - 1))
  }

  lemma {:induction false} RunGeo(cfg: Config, id: ObjectID, run: seq<Obj>, labels: seq<Label>, k: nat)
    requires IsRun(cfg, id, run, labels) && k < |run|
    ensures Sound(cfg, id, run[k]) && GeoInv(cfg, run[k], Erased(run, labels, k))
  {
    hide Inv, LogInv, CompleteInv, BookOK, GeoInv, Step, Enabled, NextErased;
    RunSound(cfg, id, run, labels, k);
    if k == 0 {
      InitialSound(cfg, id, run[0]);
    } else {
      RunGeo(cfg, id, run, labels, k - 1);
      assert StepOK(cfg, id, run[k - 1], labels[k - 1], run[k]);
      GeoStep(cfg, id, run[k - 1], Erased(run, labels, k - 1), labels[k - 1]);
    }
  }

  /** The region a living object at rest is in. */
  function HomeOf(o: Obj): Option<Region> { if o.ctl.None? then None else o.ctl.value.pub }

  /** No snapshot was left behind elsewhere. */
  predicate OnlyHome(o: Obj) { forall r :: r in o.prev ==> HomeOf(o) == Some(r) }

  lemma IdleSnapshot(cfg: Config, id: ObjectID, o: Obj, erased: set<AreaID>)
    requires Inv(cfg, id, o) && GeoInv(cfg, o, erased) && o.up && o.tok.None?
    ensures var b := BootState(cfg, o.log);
            && (HomeOf(o).Some? ==>
                  && Commits(o.log) != []
                  && Prev(o.prev, HomeOf(o).value) == InsideOf(Last(Commits(o.log)).value) - erased
                  && Prev(b.prev, HomeOf(o).value) == InsideOf(Last(Commits(o.log)).value))
            && (forall r :: r in b.prev ==> b.prev[r] != {} && HomeOf(o) == Some(r))
            && (forall r :: r in o.prev ==> o.prev[r] != {} && (HomeOf(o) == Some(r) || (r in o.left && !cfg.taskKind)))
  {
    hide LogOK, Succeeds, Commits;
    var cs := Commits(o.log);
    assert Confirmed(o.log, o.tok) == cs;
    if o.ctl.Some? { assert StateOK(cfg, id, cs[|cs| - 1]); }
  }

  /** The snapshots as maps are equal exactly when they agree at home and none was left elsewhere. */
  lemma SameSnapshots(home: Option<Region>, prev: map<Region, set<AreaID>>, prev': map<Region, set<AreaID>>)
    requires forall r :: r in prev ==> prev[r] != {}
    requires forall r :: r in prev' ==> prev'[r] != {} && home == Some(r)
    ensures prev' == prev <==>
            (forall r :: r in prev ==> home == Some(r)) && (home.Some? ==> Prev(prev', home.value) == Prev(prev, home.value))
  {
    if (forall r :: r in prev ==> home == Some(r)) && (home.Some? ==> Prev(prev', home.value) == Prev(prev, home.value)) {
      forall r ensures (r in prev <==> r in prev') && (r in prev ==> prev[r] == prev'[r]) {
        assert r in prev || r in prev' ==> home == Some(r);
      }
    }
  }

  /** Recovery and the inside snapshots, in every run: at rest, the rebuilt snapshot of the object's region is
      the inside set of its latest commit, the running one lacks exactly the areas erased since; so the two are
      equal if and only if nothing inside was erased, and all snapshots are if moreover none was left behind. */
  lemma RecoveredSnapshot(cfg: Config, id: ObjectID, run: seq<Obj>, labels: seq<Label>, k: nat)
    requires IsRun(cfg, id, run, labels) && k < |run| && run[k].up && run[k].tok.None?
    ensures var o, b, erased := run[k], BootState(cfg, run[k].log), Erased(run, labels, k);
            && (HomeOf(o).Some? ==>
                  && Commits(o.log) != []
                  && var inside := InsideOf(Last(Commits(o.log)).value);
                     && Prev(b.prev, HomeOf(o).value) == inside && Prev(o.prev, HomeOf(o).value) == inside - erased
                     && (Prev(b.prev, HomeOf(o).value) == Prev(o.prev, HomeOf(o).value) <==> inside !! erased))
            && (b.prev == o.prev <==>
                  OnlyHome(o) && (HomeOf(o).Some? ==> InsideOf(Last(Commits(o.log)).value) !! erased))
            && (cfg.taskKind || o.left == {} ==> OnlyHome(o))
  {
    assert k <= |labels| < |run|;
    hide Inv, LogInv, CompleteInv, BookOK, IsRun, BootState, GeoInv, Commits, InsideOf;
    RunGeo(cfg, id, run, labels, k);
    var o, b, erased := run[k], BootState(cfg, run[k].log), Erased(run, labels, k);
    IdleSnapshot(cfg, id, o, erased);
    SameSnapshots(HomeOf(o), o.prev, b.prev);
    if HomeOf(o).Some? {
      var inside := InsideOf(Last(Commits(o.log)).value);
      assert inside - erased == inside <==> inside !! erased by { WithoutErased(inside, erased); }
    }
  }

  lemma WithoutErased(inside: set<AreaID>, erased: set<AreaID>)
    ensures inside - erased == inside <==> inside !! erased
  {
    if inside - erased == inside {
      forall a | a in inside ensures a !in erased { assert a in inside - erased; }
    }
  }
}
