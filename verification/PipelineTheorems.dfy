/** What the pipeline guarantees: every object's history is a run of its own machine, one token per
    command in flight, and progress while fewer than 4162 objects are live. */
module PipelineTheorems {
  import opened Domain
  import opened EventLog
  import opened Mailbox
  import opened ObjectMachine
  import opened ObjectInvariant
  import opened ObjectRuns
  import opened Pipeline
  import opened PipelineViews
  import opened PipelineTokens
  import opened PipelineRuns

  // ---- every object's history is a run ------------------------------------------------------------------

  /** The steps of one object in a run of the pipeline, and its states. */
  function LabelsOf(run: seq<Sys>, actions: seq<Action>, id: ObjectID, k: nat): seq<Label>
    requires k <= |actions| && |run| == |actions| + 1
  {
    if k == 0 then []
    else
      var l := LabelFor(run[k - 1], actions[k - 1], id);
      LabelsOf(run, actions, id, k - 1) + if l.Some? then [l.value] else []
  }

  function StatesOf(run: seq<Sys>, actions: seq<Action>, id: ObjectID, k: nat): (os: seq<Obj>)
    requires k <= |actions| && |run| == |actions| + 1
    ensures os != []
  {
    if k == 0 then [View(run[0], id)]
    else StatesOf(run, actions, id, k - 1) +
         if LabelFor(run[k - 1], actions[k - 1], id).Some? then [View(run[k], id)] else []
  }

  lemma EmptyInitial(cfg: Config, id: ObjectID)
    ensures Initial(View(Empty(cfg), id))
  {
    var s := Empty(cfg);
    assert TreeView(s.regions, id) == map[] && PrevView(s.regions, id) == map[];
  }

  /** Refinement: whatever the interleaving, the states one object goes through form a run of its
      machine, so that all results about such runs hold for it. */
  lemma {:induction false} EveryObjectRuns(cfg: Config, run: seq<Sys>, actions: seq<Action>, id: ObjectID, k: nat)
    requires IsSysRun(cfg, run, actions) && k < |run|
    ensures var os, ls := StatesOf(run, actions, id, k), LabelsOf(run, actions, id, k);
            IsRun(cfg, id, os, ls) && os[|os| - 1] == View(run[k], id)
  {
    hide View, Can, Do, LabelFor, Enabled, Step, SysInv;
    if k == 0 {
      EmptyInitial(cfg, id);
    } else {
      EveryObjectRuns(cfg, run, actions, id, k - 1);
      SysRunSound(cfg, run, actions, k - 1);
      var s, a := run[k - 1], actions[k - 1];
      assert SysStepOK(cfg, s, a, run[k]);
      Simulates(cfg, s, a, id);
      var l := LabelFor(s, a, id);
      if l.Some? {
        RunSnoc(cfg, id, StatesOf(run, actions, id, k - 1), LabelsOf(run, actions, id, k - 1), l.value, View(run[k], id));
      }
    }
  }

  /** In every run of the pipeline a published object is in the tree of its region, and in no other. */
  lemma PublishedIsInTree(cfg: Config, run: seq<Sys>, actions: seq<Action>, k: nat, id: ObjectID, r: Region)
    requires IsSysRun(cfg, run, actions) && k < |run| && id in run[k].ctls
    ensures r < |run[k].regions| && id in run[k].regions[r].tree <==> run[k].ctls[id].pub == Some(r)
  {
    hide SysStepOK, HistoryOf, LogView, PrevView;
    assert k <= |actions| && |run| == |actions| + 1;
    hide IsSysRun, IsRun;
    EveryObjectRuns(cfg, run, actions, id, k);
    var os, ls := StatesOf(run, actions, id, k), LabelsOf(run, actions, id, k);
    OneTree(cfg, id, os, ls, |os| - 1);
    assert r in TreeView(run[k].regions, id) <==> r < |run[k].regions| && id in run[k].regions[r].tree;
  }

  // ---- routing -----------------------------------------------------------------------------------------------

  /** Worker w is the one of region w, the last one the transition executor. */
  predicate BelongsTo(cfg: Config, w: nat, t: WorkerTask) {
    if w < cfg.regions then t.kind != TaskTransition && t.region == w else t.kind == TaskTransition
  }

  ghost predicate Routed(cfg: Config, ws: seq<Worker>) {
    forall w, i {:trigger ws[w].inbox[i]} :: 0 <= w < |ws| && 0 <= i < |ws[w].inbox| ==> BelongsTo(cfg, w, ws[w].inbox[i])
  }

  lemma RoutedStep(cfg: Config, s: Sys, a: Action)
    requires SysInv(cfg, s) && Routed(cfg, s.workers) && Can(cfg, s, a)
    ensures Routed(cfg, Do(cfg, s, a).workers)
  {
    hide TokensOK, AllSound, OnEnvelope, OnResult, OnCommitResult, Process, CanRepair, ValidChoice, Repaired, FreshInstance, BootState, JobAfter;
    if a.AWork? {
      RoutedAfter(cfg, s.workers, a.w, Do(cfg, s, a).workers[a.w]);
    } else if a.ADeliver? && s.out.value.SendTask? {
      var w := TargetOf(s, s.out.value.task);
      TargetExists(cfg, s);
      RoutedAfter(cfg, s.workers, w, Do(cfg, s, a).workers[w]);
    }
  }

  lemma RoutedAfter(cfg: Config, ws: seq<Worker>, w: nat, worker: Worker)
    requires Routed(cfg, ws) && w < |ws|
    requires forall i {:trigger worker.inbox[i]} :: 0 <= i < |worker.inbox| ==>
               worker.inbox[i] in ws[w].inbox || BelongsTo(cfg, w, worker.inbox[i])
    ensures Routed(cfg, ws[w := worker])
  {
    var ws' := ws[w := worker];
    forall v, i | 0 <= v < |ws'| && 0 <= i < |ws'[v].inbox| ensures BelongsTo(cfg, v, ws'[v].inbox[i]) {
      if v == w && worker.inbox[i] in ws[w].inbox {
        var j :| 0 <= j < |ws[w].inbox| && ws[w].inbox[j] == worker.inbox[i];
      }
    }
  }

  /** In every run a region's worker has only tasks for its own region waiting, none of them a move between two
      regions, and the transition executor only moves. */
  lemma {:induction false} TasksAreRouted(cfg: Config, run: seq<Sys>, actions: seq<Action>, k: nat, w: nat, i: nat)
    requires IsSysRun(cfg, run, actions) && k < |run| && w < |run[k].workers| && i < |run[k].workers[w].inbox|
    ensures var t := run[k].workers[w].inbox[i];
            if w < cfg.regions then t.kind != TaskTransition && t.region == w else t.kind == TaskTransition
  {
    AllRouted(cfg, run, actions, k);
  }

  lemma {:induction false} AllRouted(cfg: Config, run: seq<Sys>, actions: seq<Action>, k: nat)
    requires IsSysRun(cfg, run, actions) && k < |run|
    ensures Routed(cfg, run[k].workers)
  {
    hide Can, Do, Routed, SysInv;
    if k == 0 {
      NoneWaiting(cfg);
    } else {
      AllRouted(cfg, run, actions, k - 1);
      assert SysStepOK(cfg, run[k - 1], actions[k - 1], run[k]);
      SysRunSound(cfg, run, actions, k - 1);
      RoutedStep(cfg, run[k - 1], actions[k - 1]);
    }
  }

  lemma NoneWaiting(cfg: Config)
    ensures Routed(cfg, Empty(cfg).workers)
  {}

  // ---- one token per command in flight ----------------------------------------------------------------------

  /** All tokens in all channels, workers and publisher jobs. */
  function AllToks(s: Sys): seq<Token> {
    OutToks(s.out) + AllWorkerToks(s.workers) + ResultToks(s.results) + CommitToks(s.commits) + AllPubToks(s.pubs) + DoneToks(s.done)
  }

  lemma TallyAll(s: Sys, t: Token)
    ensures Count(AllToks(s), t) == Tally(s, t)
  {
    var a := OutToks(s.out);
    var b := a + AllWorkerToks(s.workers);
    var c := b + ResultToks(s.results);
    var d := c + CommitToks(s.commits);
    var e := d + AllPubToks(s.pubs);
    CountConcat(a, AllWorkerToks(s.workers), t);
    CountConcat(b, ResultToks(s.results), t);
    CountConcat(c, CommitToks(s.commits), t);
    CountConcat(d, AllPubToks(s.pubs), t);
    CountConcat(e, DoneToks(s.done), t);
  }

  lemma TwiceCounts(ts: seq<Token>, i: nat, j: nat)
    requires i < j < |ts| && ts[i] == ts[j]
    ensures Count(ts, ts[i]) >= 2
  {
    var x := ts[i];
    CountWithout(ts, j, x);
    var rest := ts[..j] + ts[j + 1..];
    assert rest[i] == x;
    CountWithout(rest, i, x);
  }

  predicate Busy(s: Sys, id: ObjectID) { id in s.ctls && s.ctls[id].head.Some? }

  lemma BusyIffRecorded(cfg: Config, s: Sys, id: ObjectID)
    requires SysInv(cfg, s)
    ensures Busy(s, id) <==> id in s.tok
  {
    hide Inv, TokensOK, AllSound, TreeView, PrevView, LogView;
    ObjectSound(cfg, s, id);
    if Busy(s, id) {
      BusyHasToken(cfg, id, View(s, id));
    } else {
      IdleHasNoToken(cfg, id, View(s, id));
    }
  }

  /** In every reachable state an object with a command in flight has exactly one token among the
      pending send, the inboxes, the results, the commits, the publisher's jobs and the commit
      results; no other object has any. */
  lemma OneTokenEach(cfg: Config, run: seq<Sys>, actions: seq<Action>, k: nat)
    requires IsSysRun(cfg, run, actions) && k < |run|
    ensures var s, toks := run[k], AllToks(run[k]);
            && (forall i, j :: 0 <= i < j < |toks| ==> IdOf(toks[i]) != IdOf(toks[j]))
            && (forall id {:trigger Busy(s, id)} :: Busy(s, id) <==> exists i :: 0 <= i < |toks| && IdOf(toks[i]) == id)
  {
    hide IsSysRun;
    SysRunSound(cfg, run, actions, k);
    TokensDistinct(cfg, run[k]);
  }

  lemma TokensDistinct(cfg: Config, s: Sys)
    requires SysInv(cfg, s)
    ensures var toks := AllToks(s);
            && (forall i, j :: 0 <= i < j < |toks| ==> IdOf(toks[i]) != IdOf(toks[j]))
            && (forall id {:trigger Busy(s, id)} :: Busy(s, id) <==> exists i :: 0 <= i < |toks| && IdOf(toks[i]) == id)
  {
    hide AllSound, AllToks, Tally, Count;
    var toks := AllToks(s);
    forall i | 0 <= i < |toks| ensures Get(s.tok, IdOf(toks[i])) == Some(toks[i]) && Count(toks, toks[i]) == 1 {
      TallyAll(s, toks[i]);
      InCount(toks, i);
      Recorded(s, toks[i]);
    }
    forall i, j | 0 <= i < j < |toks| ensures IdOf(toks[i]) != IdOf(toks[j]) {
      if toks[i] == toks[j] { TwiceCounts(toks, i, j); }
    }
    forall id ensures Busy(s, id) <==> exists i :: 0 <= i < |toks| && IdOf(toks[i]) == id {
      BusyIffRecorded(cfg, s, id);
      if id in s.tok {
        assert Tally(s, s.tok[id]) == 1;
        TallyAll(s, s.tok[id]);
        CountIn(toks, s.tok[id]);
      }
    }
  }

  lemma InCount(ts: seq<Token>, k: nat)
    requires k < |ts|
    ensures Count(ts, ts[k]) > 0
  {}

  lemma CountIn(ts: seq<Token>, t: Token)
    requires Count(ts, t) > 0
    ensures exists i :: 0 <= i < |ts| && ts[i] == t
  {
    assert t in ts;
  }

  // ---- no deadlock -----------------------------------------------------------------------------------------

  /** The steps by which work gets done: not arrivals, area removals, crashes or recovery. */
  predicate IsProgress(a: Action) {
    a.ATakeResult? || a.ATakeCommitResult? || a.ADeliver? || a.AWork? || a.ASendResult? || a.ATakeEnv? || a.ASpawn?
    || a.ATryPublish? || a.AFinish?
  }

  ghost predicate Stuck(cfg: Config, s: Sys) {
    forall a {:trigger Can(cfg, s, a)} :: IsProgress(a) ==> !Can(cfg, s, a)
  }

  lemma {:induction false} DistinctIdsFit(toks: seq<Token>, ids: set<ObjectID>)
    requires forall i, j :: 0 <= i < j < |toks| ==> IdOf(toks[i]) != IdOf(toks[j])
    requires forall i :: 0 <= i < |toks| ==> IdOf(toks[i]) in ids
    ensures |toks| <= |ids|
    decreases |toks|
  {
    if toks != [] {
      var n := |toks| - 1;
      var id := IdOf(toks[n]);
      DistinctIdsFit(toks[..n], ids - {id});
    }
  }

  lemma TokensFit(cfg: Config, s: Sys)
    requires SysInv(cfg, s)
    ensures |AllToks(s)| <= |s.ctls|
  {
    hide SysInv, AllToks;
    TokensDistinct(cfg, s);
    var toks := AllToks(s);
    forall i | 0 <= i < |toks| ensures IdOf(toks[i]) in s.ctls.Keys {
      assert Busy(s, IdOf(toks[i]));
    }
    DistinctIdsFit(toks, s.ctls.Keys);
  }

  lemma {:induction false} WorkerToksFit(ws: seq<Worker>, w: nat)
    requires w < |ws|
    ensures |AllWorkerToks(ws)| >= |WorkerToks(ws[w])|
    decreases |ws|
  {
    hide WorkerToks;
    if w < |ws| - 1 { WorkerToksFit(ws[..|ws| - 1], w); }
  }

  /** Some choice of the geometry and of the map orders is always possible. */
  lemma SomeChoice(t: WorkerTask, prev: map<Region, set<AreaID>>) returns (ch: Choice)
    ensures ValidChoice(t, prev, ch)
  {
    var here := Prev(prev, t.region);
    var inside := SomeListing({});
    var enters := SomeListing({} - here);
    var exits := SomeListing(here - {});
    var oldExits := SomeListing(if t.kind == TaskRemove || t.oldRegion.None? then here else Prev(prev, t.oldRegion.value));
    ch := Choice({}, inside, enters, exits, oldExits);
  }

  lemma StuckMeans(cfg: Config, s: Sys, a: Action)
    requires Stuck(cfg, s) && IsProgress(a)
    ensures !Can(cfg, s, a)
  {}

  /** A worker that cannot move has nothing to do, or holds a result the channel has no room for. */
  lemma StuckWorker(cfg: Config, s: Sys, w: nat)
    requires s.up && Stuck(cfg, s) && w < |s.workers|
    ensures s.workers[w].hold.None? ==> s.workers[w].inbox == []
    ensures s.workers[w].hold.Some? ==> |s.results| >= RESULT_BUFFER
  {
    hide ValidChoice, PrevView;
    StuckMeans(cfg, s, ASendResult(w));
    if s.workers[w].hold.None? && s.workers[w].inbox != [] {
      var ch := SomeChoice(s.workers[w].inbox[0], PrevView(s.regions, s.workers[w].inbox[0].id));
      StuckMeans(cfg, s, AWork(w, ch));
    }
  }

  /** A publisher that cannot move is empty, or its commit results have no room. */
  lemma StuckPublisher(cfg: Config, s: Sys, p: nat)
    requires s.up && Stuck(cfg, s) && p < |s.pubs|
    ensures s.commits != [] ==> s.pubs[p].hold.Some?
    ensures s.pubs[p].hold.Some? ==> |s.pubs[p].jobs| >= MAX_IN_FLIGHT
    ensures s.pubs[p].jobs != [] ==> |s.done| >= COMMIT_RESULT_BUFFER
  {
    StuckMeans(cfg, s, ASpawn(p));
    StuckMeans(cfg, s, ATakeEnv(p));
    StuckMeans(cfg, s, ATryPublish(p, 0, Outcome(false, false, false)));
    StuckMeans(cfg, s, AFinish(p, 0));
  }

  lemma ResultCanBeTaken(cfg: Config, s: Sys)
    requires SysInv(cfg, s) && s.up && s.out.None? && s.results != []
    ensures Can(cfg, s, ATakeResult(0))
  {
    hide Inv, TokensOK, AllSound, TreeView, PrevView, LogView;
    var id := s.results[0].objectID;
    FirstResultRecorded(s);
    ObjectSound(cfg, s, id);
    ResultIsReady(cfg, id, View(s, id));
  }

  lemma ResultIsReady(cfg: Config, id: ObjectID, o: Obj)
    requires Inv(cfg, id, o) && o.tok.Some? && o.tok.value.ResTok?
    ensures o.ctl.Some? && Ready(o.ctl.value)
  {
    hide LogOK, ChainOK, NumberOK, StoredOK, ResultFits;
  }

  lemma TargetExists(cfg: Config, s: Sys)
    requires SysInv(cfg, s) && s.out.Some? && s.out.value.SendTask?
    ensures TargetOf(s, s.out.value.task) < |s.workers| && s.out.value.task.region < cfg.regions
  {
    hide Inv, AllSound, TreeView, PrevView, LogView;
    var t := s.out.value.task;
    assert Count(OutToks(s.out), TaskTok(t)) > 0;
    Recorded(s, TaskTok(t));
    hide TokensOK;
    ObjectSound(cfg, s, t.id);
    TaskInRange(cfg, t.id, View(s, t.id));
  }

  /** With the dispatcher free to take the next message, a stuck system is empty. */
  lemma StuckFreeDispatcher(cfg: Config, s: Sys)
    requires SysInv(cfg, s) && s.up && Stuck(cfg, s) && s.out.None?
    ensures AllToks(s) == []
  {
    if s.results != [] { ResultCanBeTaken(cfg, s); }
    hide AllSound, TokensOK, Can;
    assert s.results == [];
    NoDone(cfg, s);
    forall w | 0 <= w < |s.workers| ensures WorkerToks(s.workers[w]) == [] { StuckWorker(cfg, s, w); }
    forall p | 0 <= p < |s.pubs| ensures PubToks(s.pubs[p]) == [] && s.commits == [] { StuckPublisher(cfg, s, p); }
    assert s.commits == [] by { StuckPublisher(cfg, s, 0); }
    NoneAnywhere(s);
  }

  lemma NoDone(cfg: Config, s: Sys)
    requires s.up && Stuck(cfg, s) && s.out.None?
    ensures s.done == []
  {
    StuckMeans(cfg, s, ATakeCommitResult(0));
  }

  lemma NoneAnywhere(s: Sys)
    requires s.out.None? && s.results == [] && s.commits == [] && s.done == []
    requires forall w :: 0 <= w < |s.workers| ==> WorkerToks(s.workers[w]) == []
    requires forall p :: 0 <= p < |s.pubs| ==> PubToks(s.pubs[p]) == []
    ensures AllToks(s) == []
  {
    hide WorkerToks, PubToks;
    WorkersNone(s.workers);
    PubsNone(s.pubs);
  }

  lemma {:induction false} WorkersNone(ws: seq<Worker>)
    requires forall w :: 0 <= w < |ws| ==> WorkerToks(ws[w]) == []
    ensures AllWorkerToks(ws) == []
  {
    if ws != [] { WorkersNone(ws[..|ws| - 1]); }
  }

  lemma {:induction false} PubsNone(ps: seq<Publisher>)
    requires forall p :: 0 <= p < |ps| ==> PubToks(ps[p]) == []
    ensures AllPubToks(ps) == []
  {
    if ps != [] { PubsNone(ps[..|ps| - 1]); }
  }

  /** With the dispatcher blocked on a worker's inbox, the inbox, the worker and the result channel
      are full; blocked on the commit channel, the whole publisher is. */
  lemma StuckBlockedDispatcher(cfg: Config, s: Sys)
    requires SysInv(cfg, s) && s.up && Stuck(cfg, s) && s.out.Some?
    ensures |AllToks(s)| >= RESULT_BUFFER + 64 + 2
  {
    StuckMeans(cfg, s, ADeliver);
    match s.out.value {
      case SendTask(t) =>
        TargetExists(cfg, s);
        var w := TargetOf(s, t);
        hide AllSound, TokensOK, Can, Stuck;
        StuckWorker(cfg, s, w);
        WorkerToksFit(s.workers, w);
        assert |WorkerToks(s.workers[w])| >= 64 + 1;
      case SendCommit(env) =>
        hide AllSound, TokensOK, Can, Stuck;
        StuckPublisher(cfg, s, 0);
        assert |s.commits| >= 4096 && s.pubs[0].jobs != [] && |s.done| >= 4096;
    }
  }

  /** No channel deadlock: with fewer than 4162 live objects (the result buffer, the smallest inbox and
      2), every reachable running state with a command in flight has an enabled step, although the
      inboxes are far smaller than the number of objects. */
  lemma NoDeadlock(cfg: Config, run: seq<Sys>, actions: seq<Action>, k: nat, id: ObjectID)
    requires IsSysRun(cfg, run, actions) && k < |run| && run[k].up
    requires |run[k].ctls| < 4162 && Busy(run[k], id)
    ensures exists a {:trigger IsProgress(a)} :: IsProgress(a) && Can(cfg, run[k], a)
  {
    hide IsSysRun, SysInv, Can, AllToks;
    var s := run[k];
    SysRunSound(cfg, run, actions, k);
    if Stuck(cfg, s) {
      TokensFit(cfg, s);
      TokensDistinct(cfg, s);
      if s.out.None? { StuckFreeDispatcher(cfg, s); } else { StuckBlockedDispatcher(cfg, s); }
      assert false;
    }
  }
}
