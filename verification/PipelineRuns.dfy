/** Main results about the whole pipeline, over every interleaving: each object is moved by its own
    machine only, each object with a command in flight has exactly one token, and no channel can
    deadlock while fewer than 4162 objects are live. */
module PipelineRuns {
  import opened Domain
  import opened Events
  import opened EventLog
  import opened Mailbox
  import opened ObjectMachine
  import opened ObjectInvariant
  import opened ObjectSteps
  import opened ObjectLog
  import opened ObjectAnswers
  import opened ObjectRuns
  import opened Pipeline
  import opened PipelineViews
  import opened PipelineTokens

  ghost predicate Shape(cfg: Config, s: Sys) {
    |s.regions| == cfg.regions && |s.workers| == cfg.regions + 1 && |s.pubs| == PUBLISHERS
  }

  ghost predicate AllSound(cfg: Config, s: Sys) {
    forall id {:trigger View(s, id)} :: Sound(cfg, id, View(s, id))
  }

  ghost predicate SysInv(cfg: Config, s: Sys) { Shape(cfg, s) && TokensOK(s) && AllSound(cfg, s) }

  // ---- what an object's invariant says about its token ---------------------------------------------------

  lemma TokenIsOwn(cfg: Config, id: ObjectID, o: Obj)
    requires Inv(cfg, id, o) && o.tok.Some?
    ensures IdOf(o.tok.value) == id && o.up && o.ctl.Some?
  {
    hide LogOK, ChainOK, NumberOK, StoredOK, CommitFollows, AtRest;
  }

  lemma IdleHasNoToken(cfg: Config, id: ObjectID, o: Obj)
    requires Inv(cfg, id, o) && (o.ctl.None? || o.ctl.value.head.None?)
    ensures o.tok.None?
  {
    hide LogOK, ChainOK, NumberOK, StoredOK, EnvelopeOK, CommitFollows;
  }

  lemma BusyHasToken(cfg: Config, id: ObjectID, o: Obj)
    requires Inv(cfg, id, o) && o.ctl.Some? && o.ctl.value.head.Some?
    ensures o.tok.Some?
  {
    hide LogOK, ChainOK, NumberOK, StoredOK, Submitting;
  }

  lemma TaskInRange(cfg: Config, id: ObjectID, o: Obj)
    requires Inv(cfg, id, o) && o.tok.Some? && o.tok.value.TaskTok?
    ensures var t := o.tok.value.task;
            t.region < cfg.regions && (t.kind == TaskTransition && t.oldRegion.Some? ==> t.oldRegion.value < cfg.regions)
  {
    hide LogOK, Succeeds, StoredOK;
    var cs := Confirmed(o.log, o.tok);
    assert NumberOK(o.ctl.value, cs) && StateOK(cfg, id, cs[|cs| - 1]);
  }

  lemma MutationKnown(cfg: Config, id: ObjectID, o: Obj)
    requires Inv(cfg, id, o) && o.tok.Some? && o.tok.value.DoneTok?
    ensures o.ctl.Some? && o.ctl.value.commitEnvelope.Some?
            && MutationInRange(o.ctl.value.commitEnvelope.value.mutation, cfg.regions)
  {
    hide LogOK, ChainOK, NumberOK, StoredOK, EnvelopeOK, CommitFollows;
  }

  lemma JobMsgAbout(cfg: Config, id: ObjectID, o: Obj)
    requires Inv(cfg, id, o) && o.tok.Some? && o.tok.value.JobTok? && JobActive(o.tok.value.job)
    ensures About(JobMsg(o.tok.value.job), id)
  {
    hide LogOK, ChainOK, NumberOK, StoredOK, CommitFollows, RepairKnown;
    var job := o.tok.value.job;
    JobSubmitting(cfg, id, o);
    assert job.confirmed ==> GeofenceMsgOK(id, job.env.projections[job.next]);
  }

  lemma RepairAbout(cfg: Config, id: ObjectID, o: Obj, m: Msg, now: nat)
    requires Inv(cfg, id, o) && CanRepair(o, m, now)
    ensures About(m, id)
  {
    RepairKeeps(cfg, id, o, m, now);
  }

  lemma BootInRange(cfg: Config, id: ObjectID, o: Obj)
    ensures forall r {:trigger r in BootState(cfg, o.log).tree} :: r in BootState(cfg, o.log).tree ==> r < cfg.regions
    ensures forall r {:trigger r in BootState(cfg, o.log).prev} :: r in BootState(cfg, o.log).prev ==> r < cfg.regions
  {
    hide LastCommit, StateOf;
  }

  // ---- simulation ------------------------------------------------------------------------------------------

  lemma ObjectSound(cfg: Config, s: Sys, id: ObjectID)
    requires SysInv(cfg, s)
    ensures Inv(cfg, id, View(s, id)) && NoEmptySnapshot(View(s, id).prev)
  {
    hide View, Inv, LogInv, CompleteInv, BookOK;
    assert Sound(cfg, id, View(s, id));
  }

  /** Simulation: a step of the pipeline is, for each object, the labelled step of its machine, or
      leaves the object as it is. */
  lemma Simulates(cfg: Config, s: Sys, a: Action, x: ObjectID)
    requires SysInv(cfg, s) && Can(cfg, s, a)
    ensures Follows(cfg, x, View(s, x), LabelFor(s, a, x), View(Do(cfg, s, a), x))
  {
    hide Inv, TokensOK, AllSound, Sound, Follows, TakeEnvelope, TakeWorkerResult, TakeCommitResult, WorkOne, SpawnJob;
    hide TryPublish, FinishJob, RemoveAreaIn, CrashAll, BootAll, CanRepair, ValidChoice, FreshInstance;
    hide TreeView, PrevView, LogView, Get, HistoryOf, Repaired, Ready;
    match a {
      case ATakeEnvelope(env, inst, now) => TakeEnvelopeView(cfg, s, env, inst, now, x);
      case ATakeResult(now) =>
        FirstResultRecorded(s);
        TakeResultView(cfg, s, now, x);
      case ATakeCommitResult(now) => SimulatesCommit(cfg, s, now, x);
      case AWork(w, ch) => SimulatesWork(cfg, s, w, ch, x);
      case ASpawn(p) =>
        HoldRecorded(s, p);
        SpawnView(cfg, s, p, x);
      case ATryPublish(p, j, out) => SimulatesPublish(cfg, s, p, j, out, x);
      case AFinish(p, j) =>
        JobRecorded(s, p, j);
        FinishView(cfg, s, p, j, x);
      case ARemoveArea(r, area) =>
        ObjectSound(cfg, s, x);
        RemoveAreaView(cfg, s, r, area, x);
      case ACrash => CrashView(cfg, s, x);
      case ABooted(m) =>
        AppendView(s, m, x);
        SameFollows(cfg, x, View(s, x));
      case ARepair(id, m, now) => SimulatesRepair(cfg, s, id, m, now, x);
      case ABoot =>
        BootInRange(cfg, x, View(s, x));
        BootView(cfg, s, x);
      case ADeliver => Unseen(cfg, s, Deliver(s), x);
      case ASendResult(w) => Unseen(cfg, s, SendResult(s, w), x);
      case ATakeEnv(p) => Unseen(cfg, s, TakeEnv(s, p), x);
    }
  }

  /** Steps that only move something between channels are not seen by any object. */
  lemma Unseen(cfg: Config, s: Sys, s': Sys, x: ObjectID)
    requires s' == s.(out := s'.out, workers := s'.workers, results := s'.results, commits := s'.commits, pubs := s'.pubs)
    ensures Follows(cfg, x, View(s, x), None, View(s', x))
  {}

  lemma SameFollows(cfg: Config, x: ObjectID, o: Obj)
    ensures Follows(cfg, x, o, None, o)
  {}

  lemma SimulatesCommit(cfg: Config, s: Sys, now: nat, x: ObjectID)
    requires SysInv(cfg, s) && Can(cfg, s, ATakeCommitResult(now))
    ensures Follows(cfg, x, View(s, x), LabelFor(s, ATakeCommitResult(now), x), View(TakeCommitResult(cfg, s, now), x))
  {
    hide Inv, TokensOK, AllSound, Follows, TakeCommitResult, TreeView, PrevView, LogView;
    var id := s.done[0].objectID;
    FirstDoneRecorded(s);
    ObjectSound(cfg, s, id);
    MutationKnown(cfg, id, View(s, id));
    TakeCommitView(cfg, s, now, x);
  }

  lemma SimulatesWork(cfg: Config, s: Sys, w: nat, ch: Choice, x: ObjectID)
    requires SysInv(cfg, s) && Can(cfg, s, AWork(w, ch))
    ensures Follows(cfg, x, View(s, x), LabelFor(s, AWork(w, ch), x), View(Do(cfg, s, AWork(w, ch)), x))
  {
    hide Inv, TokensOK, AllSound, Follows, WorkOne, TreeView, LogView;
    var id := s.workers[w].inbox[0].id;
    FirstTaskRecorded(s, w);
    ObjectSound(cfg, s, id);
    TaskInRange(cfg, id, View(s, id));
    TokenIsOwn(cfg, id, View(s, id));
    WorkView(cfg, s, w, ch, x);
  }

  lemma SimulatesPublish(cfg: Config, s: Sys, p: nat, j: nat, out: Outcome, x: ObjectID)
    requires SysInv(cfg, s) && Can(cfg, s, ATryPublish(p, j, out))
    ensures Follows(cfg, x, View(s, x), LabelFor(s, ATryPublish(p, j, out), x), View(Do(cfg, s, ATryPublish(p, j, out)), x))
  {
    hide Inv, TokensOK, AllSound, Follows, TryPublish, TreeView, PrevView, LogView;
    var id := s.pubs[p].jobs[j].env.objectID;
    JobRecorded(s, p, j);
    ObjectSound(cfg, s, id);
    JobMsgAbout(cfg, id, View(s, id));
    TryPublishView(cfg, s, p, j, out, x);
  }

  lemma SimulatesRepair(cfg: Config, s: Sys, id: ObjectID, m: Msg, now: nat, x: ObjectID)
    requires SysInv(cfg, s) && Can(cfg, s, ARepair(id, m, now))
    ensures Follows(cfg, x, View(s, x), LabelFor(s, ARepair(id, m, now), x), View(s.(log := s.log + [m]), x))
  {
    hide Inv, TokensOK, AllSound, View, CanRepair;
    ObjectSound(cfg, s, id);
    RepairAbout(cfg, id, View(s, id), m, now);
    AppendView(s, m, x);
  }

  // ---- the invariant is kept ---------------------------------------------------------------------------

  lemma ObjectsStaySound(cfg: Config, s: Sys, a: Action)
    requires SysInv(cfg, s) && Can(cfg, s, a)
    ensures AllSound(cfg, Do(cfg, s, a))
  {
    hide Sound, TokensOK, View, Do, Can, LabelFor, Enabled, Step;
    forall id ensures Sound(cfg, id, View(Do(cfg, s, a), id)) {
      Simulates(cfg, s, a, id);
      assert Sound(cfg, id, View(s, id));
      if LabelFor(s, a, id).Some? { SoundStep(cfg, id, View(s, id), LabelFor(s, a, id).value); }
    }
  }

  lemma SentIsOwn(cfg: Config, id: ObjectID, o: Obj, send: Option<Send>)
    requires Inv(cfg, id, o) && o.tok == TokenOf(send)
    ensures TokenOf(send).Some? ==> IdOf(TokenOf(send).value) == id
  {
    hide Inv;
    if o.tok.Some? { TokenIsOwn(cfg, id, o); }
  }

  lemma EnvelopeTokens(cfg: Config, s: Sys, env: Envelope, inst: string, now: nat)
    requires SysInv(cfg, s) && Can(cfg, s, ATakeEnvelope(env, inst, now))
    requires AllSound(cfg, TakeEnvelope(cfg, s, env, inst, now))
    ensures TokensOK(TakeEnvelope(cfg, s, env, inst, now))
  {
    hide Inv, TokensOK, AllSound, Sound, TreeView, PrevView, LogView, OnEnvelope, FreshInstance, TokenOf, LeftBy;
    var id, s' := env.objectID, TakeEnvelope(cfg, s, env, inst, now);
    var arrival := OnEnvelope(cfg, Get(s.ctls, id), env, inst, now);
    ObjectSound(cfg, s, id);
    assert Inv(cfg, id, View(s', id)) by { SoundView(cfg, s', id); }
    if arrival.send.Some? {
      ArrivalSends(cfg, Get(s.ctls, id), env, inst, now);
      IdleHasNoToken(cfg, id, View(s, id));
      SentIsOwn(cfg, id, View(s', id), arrival.send);
      SentNew(s, s', id, arrival.send);
    } else {
      NothingSent(s, s', id);
    }
  }

  lemma SoundView(cfg: Config, s: Sys, id: ObjectID)
    requires AllSound(cfg, s)
    ensures Inv(cfg, id, View(s, id))
  {
    hide View, Inv, LogInv, CompleteInv, BookOK;
    assert Sound(cfg, id, View(s, id));
  }

  lemma ArrivalSends(cfg: Config, ctl: Option<Ctl>, env: Envelope, inst: string, now: nat)
    requires ctl.Some? && ctl.value.head.None? ==> Ready(ctl.value)
    ensures OnEnvelope(cfg, ctl, env, inst, now).send.Some? ==> ctl.None? || ctl.value.head.None?
    ensures forall send: Option<Send> :: send.Some? ==> TokenOf(send).Some?
  {
    hide DispatchPosition, DispatchRemove, SubmitNewRegister;
  }

  lemma NothingSent(s: Sys, s': Sys, id: ObjectID)
    requires TokensOK(s) && s.out.None?
    requires s' == s.(out := None, ctls := s'.ctls, hist := s'.hist, tok := Put(s.tok, id, Get(s.tok, id)))
    ensures TokensOK(s')
  {
    assert Put(s.tok, id, Get(s.tok, id)) == s.tok;
    assert s' == s.(ctls := s'.ctls, hist := s'.hist);
    Stayed(s, s');
  }

  lemma ResultTokens(cfg: Config, s: Sys, now: nat)
    requires SysInv(cfg, s) && Can(cfg, s, ATakeResult(now)) && AllSound(cfg, TakeWorkerResult(cfg, s, now))
    ensures TokensOK(TakeWorkerResult(cfg, s, now))
  {
    hide Inv, TokensOK, AllSound, Sound, TreeView, PrevView, LogView, OnResult, LeftBy, TokenOf;
    var id, s' := s.results[0].objectID, TakeWorkerResult(cfg, s, now);
    SoundView(cfg, s', id);
    NoSend();
    if id !in s.ctls || s.ctls[id].head.None? {
      assert s' == s.(out := None, results := s.results[1..], tok := Put(s.tok, id, TokenOf(None)));
      ResultMoves(s, s', None);
    } else {
      var out := OnResult(cfg, s.ctls[id], s.results[0], now);
      SentIsOwn(cfg, id, View(s', id), out.send);
      ResultMoves(s, s', out.send);
    }
  }

  lemma NoSend()
    ensures TokenOf(None) == None
  {}

  lemma CommitTokens(cfg: Config, s: Sys, now: nat)
    requires SysInv(cfg, s) && Can(cfg, s, ATakeCommitResult(now)) && AllSound(cfg, TakeCommitResult(cfg, s, now))
    ensures TokensOK(TakeCommitResult(cfg, s, now))
  {
    hide Inv, TokensOK, AllSound, Sound, TreeView, PrevView, LogView, OnCommitResult, LeftBy, TokenOf, Mutate;
    var id, s' := s.done[0].objectID, TakeCommitResult(cfg, s, now);
    SoundView(cfg, s', id);
    NoSend();
    if id !in s.ctls {
      assert s' == s.(out := None, done := s.done[1..], tok := Put(s.tok, id, TokenOf(None)));
      DoneMoves(s, s', None);
    } else {
      var f := OnCommitResult(cfg, s.ctls[id], ResultOf(s.done[0], true), now);
      SentIsOwn(cfg, id, View(s', id), f.send);
      DoneMoves(s, s', f.send);
    }
  }

  lemma ResultIsFor(ctl: Option<Ctl>, t: WorkerTask, tree: map<Region, Item>, ch: Choice)
    ensures Process(ctl, t, tree, ch).res.objectID == t.id
  {}

  /** The record of tokens stays in step with the channels. */
  lemma TokensStayOK(cfg: Config, s: Sys, a: Action)
    requires SysInv(cfg, s) && Can(cfg, s, a) && AllSound(cfg, Do(cfg, s, a))
    ensures TokensOK(Do(cfg, s, a))
  {
    hide TokensOK, AllSound, Sound, TreeView, PrevView, LogView, TakeEnvelope, TakeWorkerResult, TakeCommitResult, CanRepair;
    hide ValidChoice, Repaired, FreshInstance, Process, JobAfter, Retree;
    match a {
      case ATakeEnvelope(env, inst, now) => EnvelopeTokens(cfg, s, env, inst, now);
      case ATakeResult(now) => ResultTokens(cfg, s, now);
      case ATakeCommitResult(now) => CommitTokens(cfg, s, now);
      case ADeliver => DeliverMoves(cfg, s);
      case AWork(w, ch) =>
        var t := s.workers[w].inbox[0];
        ResultIsFor(Get(s.ctls, t.id), t, TreeView(s.regions, t.id), ch);
        WorkMoves(s, WorkOne(s, w, ch), w, Process(Get(s.ctls, t.id), t, TreeView(s.regions, t.id), ch).res);
      case ASendResult(w) => SendResultMoves(s, w);
      case ATakeEnv(p) => TakeEnvMoves(s, p);
      case ASpawn(p) => SpawnMoves(s, p);
      case ATryPublish(p, j, out) =>
        JobKeepsEnv(s.log, s.pubs[p].jobs[j], out);
        JobMoves(s, TryPublish(s, p, j, out), p, j, JobAfter(s.log, s.pubs[p].jobs[j], out));
      case AFinish(p, j) => FinishMoves(s, p, j);
      case ARemoveArea(r, area) => ElsewhereMoves(s, RemoveAreaIn(s, r, area));
      case ACrash => EmptyTokens(cfg, CrashAll(cfg, s));
      case ABooted(m) => ElsewhereMoves(s, s.(log := s.log + [m]));
      case ARepair(_, m, _) => ElsewhereMoves(s, s.(log := s.log + [m]));
      case ABoot => EmptyTokens(cfg, BootAll(cfg, s));
    }
  }

  lemma JobKeepsEnv(log: seq<Msg>, job: Job, out: Outcome)
    requires JobActive(job)
    ensures JobAfter(log, job, out).env == job.env
  {}

  lemma ElsewhereMoves(s: Sys, s': Sys)
    requires TokensOK(s) && s' == s.(regions := s'.regions, log := s'.log)
    ensures TokensOK(s')
  {
    Stayed(s, s');
  }

  lemma ShapeKept(cfg: Config, s: Sys, a: Action)
    requires Shape(cfg, s) && Can(cfg, s, a)
    ensures Shape(cfg, Do(cfg, s, a))
  {
    hide OnEnvelope, OnResult, OnCommitResult, Process, CanRepair, ValidChoice, Repaired, FreshInstance, BootState, JobAfter;
  }

  lemma SysStep(cfg: Config, s: Sys, a: Action)
    requires SysInv(cfg, s) && Can(cfg, s, a)
    ensures SysInv(cfg, Do(cfg, s, a))
  {
    hide TokensOK, AllSound, Shape, Do, Can;
    ObjectsStaySound(cfg, s, a);
    TokensStayOK(cfg, s, a);
    ShapeKept(cfg, s, a);
  }

  ghost predicate SysStepOK(cfg: Config, s: Sys, a: Action, s': Sys) { Can(cfg, s, a) && s' == Do(cfg, s, a) }

  ghost predicate IsSysRun(cfg: Config, run: seq<Sys>, actions: seq<Action>) {
    && |run| == |actions| + 1 && run[0] == Empty(cfg)
    && forall k {:trigger actions[k]} :: 0 <= k < |actions| ==> SysStepOK(cfg, run[k], actions[k], run[k + 1])
  }

  lemma EmptySound(cfg: Config)
    ensures SysInv(cfg, Empty(cfg))
  {
    var s := Empty(cfg);
    EmptyTokens(cfg, s);
    forall id ensures Sound(cfg, id, View(s, id)) {
      assert TreeView(s.regions, id) == map[] && PrevView(s.regions, id) == map[];
      InitialSound(cfg, id, View(s, id));
    }
  }

  /** The invariant holds in every state of every run of the pipeline. */
  lemma {:induction false} SysRunSound(cfg: Config, run: seq<Sys>, actions: seq<Action>, k: nat)
    requires IsSysRun(cfg, run, actions) && k < |run|
    ensures SysInv(cfg, run[k])
  {
    hide SysInv, Can, Do;
    if k == 0 {
      EmptySound(cfg);
    } else {
      SysRunSound(cfg, run, actions, k - 1);
      assert SysStepOK(cfg, run[k - 1], actions[k - 1], run[k]);
      SysStep(cfg, run[k - 1], actions[k - 1]);
    }
  }
}
