/** Exactly when geofence transitions replay, in all runs of an object.  A commit's transitions lead from the
    inside set of the commit before it to its own if and only if the worker found snapshots that fitted: the
    one of the object's region equal to the committed inside set, and, on a move, that of the new region equal
    to what the old one lacked.  Area removals and returns to a region left are what makes them not fit. */
module ObjectFolds {
  import opened Domain
  import opened Events
  import opened EventLog
  import opened Mailbox
  import opened ObjectMachine
  import opened ObjectInvariant
  import opened ObjectSteps
  import opened ObjectLog
  import opened ObjectAnswers
  import opened ObjectGeofence
  import opened ObjectRuns

  /** Commit k leads from the inside set of the commit before it, or from nothing, to its own. */
  ghost predicate Folds(cs: seq<StateRecord>, k: nat)
    requires k < |cs|
  {
    var before := if cs[k].commitSeq == 1 || k == 0 then {} else InsideOf(cs[k - 1]);
    Replay(before, cs[k].transitions) == Some(InsideOf(cs[k]))
  }

  ghost predicate FoldOK(cs: seq<StateRecord>) {
    forall k {:trigger Folds(cs, k)} :: 0 <= k < |cs| ==> Folds(cs, k)
  }

  // ---- commit by commit, or from the start of the instance ------------------------------------------------

  /** The transitions committed by one instance, oldest first. */
  function TransitionsOf(cs: seq<StateRecord>, inst: string): seq<Transition> {
    if cs == [] then []
    else
      var front, st := cs[..|cs| - 1], cs[|cs| - 1];
      TransitionsOf(front, inst) + if st.instanceID == inst then st.transitions else []
  }

  lemma {:induction false} NoTransitions(cs: seq<StateRecord>, inst: string)
    requires forall j :: 0 <= j < |cs| ==> cs[j].instanceID != inst
    ensures TransitionsOf(cs, inst) == []
  {
    if cs != [] {
      assert cs[|cs| - 1].instanceID != inst;
      NoTransitions(cs[..|cs| - 1], inst);
    }
  }

  /** The transitions an instance has committed up to commit k lead from nothing to its inside set. */
  ghost predicate ReplaysTo(cs: seq<StateRecord>, k: nat)
    requires k < |cs|
  {
    Replay({}, TransitionsOf(cs[..k + 1], cs[k].instanceID)) == Some(InsideOf(cs[k]))
  }

  ghost predicate AllReplay(cs: seq<StateRecord>) {
    forall k {:trigger ReplaysTo(cs, k)} :: 0 <= k < |cs| ==> ReplaysTo(cs, k)
  }

  /** One more commit: it replays from the start exactly when it folds, if the one before replays. */
  lemma ReplaysNext(cfg: Config, id: ObjectID, cs: seq<StateRecord>, k: nat)
    requires ChainOK(cfg, id, cs) && k < |cs|
    requires k > 0 ==> ReplaysTo(cs, k - 1)
    ensures ReplaysTo(cs, k) <==> Folds(cs, k)
  {
    hide StateOK, Replay;
    var inst, upto := cs[k].instanceID, cs[..k + 1];
    assert upto[..k] == cs[..k] && upto[k] == cs[k];
    assert Succeeds(cs, k);
    if cs[k].commitSeq == 1 {
      NoTransitions(cs[..k], inst);
      assert TransitionsOf(upto, inst) == [] + cs[k].transitions == cs[k].transitions;
    } else {
      assert cs[..k - 1 + 1] == cs[..k];
      ReplayConcat({}, TransitionsOf(cs[..k], inst), cs[k].transitions);
    }
  }

  lemma {:induction false} FoldsReplay(cfg: Config, id: ObjectID, cs: seq<StateRecord>, k: nat)
    requires ChainOK(cfg, id, cs) && FoldOK(cs) && k < |cs|
    ensures ReplaysTo(cs, k)
    decreases k
  {
    hide ChainOK, Folds, ReplaysTo;
    if k > 0 { FoldsReplay(cfg, id, cs, k - 1); }
    ReplaysNext(cfg, id, cs, k);
  }

  /** Every commit replays from the start of its instance exactly when every commit folds. */
  lemma FoldIffReplays(cfg: Config, id: ObjectID, cs: seq<StateRecord>)
    requires ChainOK(cfg, id, cs)
    ensures FoldOK(cs) <==> AllReplay(cs)
  {
    hide ChainOK, Folds, ReplaysTo;
    if FoldOK(cs) {
      forall k | 0 <= k < |cs| ensures ReplaysTo(cs, k) { FoldsReplay(cfg, id, cs, k); }
    }
    if AllReplay(cs) {
      forall k | 0 <= k < |cs| ensures Folds(cs, k) {
        assert k > 0 ==> ReplaysTo(cs, k - 1);
        ReplaysNext(cfg, id, cs, k);
      }
    }
  }

  // ---- the worker's transitions ---------------------------------------------------------------------------

  /** The stored snapshots fit the inside set of the last commit. */
  ghost predicate Fits(t: WorkerTask, prev: map<Region, set<AreaID>>, from: set<AreaID>) {
    if t.kind == TaskTransition && t.oldRegion.Some? then
      Prev(prev, t.oldRegion.value) <= from && Prev(prev, t.region) == from - Prev(prev, t.oldRegion.value)
    else Prev(prev, t.region) == from
  }

  /** The next task to be worked finds snapshots that fit. */
  ghost predicate Fitted(o: Obj) { o.tok.Some? && o.tok.value.TaskTok? && Fits(o.tok.value.task, o.prev, LiveInside(o)) }

  lemma ReplayMove(from: set<AreaID>, behind: set<AreaID>, stored: set<AreaID>, cur: set<AreaID>,
                   oldExits: seq<AreaID>, enters: seq<AreaID>, exits: seq<AreaID>)
    requires Lists(oldExits, behind) && Lists(enters, cur - stored) && Lists(exits, stored - cur)
    ensures var ts := Marks(oldExits, false) + (Marks(enters, true) + Marks(exits, false));
            Replay(from, ts) == Some(cur) <==> behind <= from && stored == from - behind
  {
    ReplayExits(from, oldExits);
    ReplayConcat(from, Marks(oldExits, false), Marks(enters, true) + Marks(exits, false));
    ReplayDifference(from - behind, stored, cur, enters, exits);
  }

  lemma NothingLeft(from: set<AreaID>, gone: set<AreaID>)
    ensures gone <= from && from - gone == {} <==> gone == from
  {
    if gone <= from && from - gone == {} {
      forall a | a in from ensures a in gone { assert a !in from - gone; }
    }
  }

  /** Exactly when a worker's transitions lead from the last committed inside set to the new one, in every
      state a task can be worked in. */
  lemma WorkReplaysIff(cfg: Config, id: ObjectID, c: Ctl, t: WorkerTask, b: Option<StateRecord>, tree: map<Region, Item>,
                       prev: map<Region, set<AreaID>>, ch: Choice, from: set<AreaID>)
    requires MailboxOK(id, c) && Stage(cfg, id, c, Some(TaskTok(t)), b, tree) && ValidChoice(t, prev, ch)
    ensures var res := Process(Some(c), t, tree, ch).res;
            !res.rejected ==> (Replay(from, res.transitions) == Some(res.currentInside) <==> Fits(t, prev, from))
  {
    hide Replay;
    match t.kind {
      case TaskRemove =>
        ReplayExits(from, ch.oldExits);
        NothingLeft(from, Prev(prev, t.region));
      case TaskUpdate => ReplayDifference(from, Prev(prev, t.region), ch.cur, ch.enters, ch.exits);
      case TaskInit => ReplayDifference(from, Prev(prev, t.region), ch.cur, ch.enters, ch.exits);
      case TaskTransition =>
        ReplayMove(from, Prev(prev, t.oldRegion.value), Prev(prev, t.region), ch.cur, ch.oldExits, ch.enters, ch.exits);
      case _ =>
    }
  }

  /** In terms of the object's history: nothing inside was erased since the last write, and the region
      entered holds no old snapshot, or by chance exactly what was erased. */
  ghost predicate FitsHistory(t: WorkerTask, prev: map<Region, set<AreaID>>, from: set<AreaID>, erased: set<AreaID>) {
    match t.kind
    case TaskInit => Prev(prev, t.region) == {}
    case TaskTransition => Prev(prev, t.region) == from * erased
    case _ => from !! erased
  }

  lemma FitsIff(cfg: Config, id: ObjectID, o: Obj, erased: set<AreaID>)
    requires Inv(cfg, id, o) && GeoInv(cfg, o, erased) && o.up && o.tok.Some? && o.tok.value.TaskTok?
    ensures Fitted(o) <==> FitsHistory(o.tok.value.task, o.prev, LiveInside(o), erased)
  {
    hide LogOK, StateOK, EnvelopeOK, Succeeds;
    var t, from := o.tok.value.task, LiveInside(o);
    WithoutErased(from, erased);
    assert from - (from - erased) == from * erased;
  }

  // ---- one step ---------------------------------------------------------------------------------------------

  ghost predicate CommitFolds(c: Ctl, env: CommitEnvelope, b: Option<StateRecord>) {
    StateOf(env.commit).Some?
    && Replay(InsideAt(c, b), StateOf(env.commit).value.transitions) == Some(InsideOf(StateOf(env.commit).value))
  }

  /** A result or a commit that is not yet in the log. */
  predicate InFlight(tok: Option<Token>) {
    tok.Some? && (tok.value.ResTok? || tok.value.CommitTok? || (tok.value.JobTok? && tok.value.job.reach == 0))
  }

  ghost predicate TokenFolds(c: Ctl, tok: Option<Token>, b: Option<StateRecord>) {
    match tok
    case Some(ResTok(res)) => Replay(InsideAt(c, b), res.transitions) == Some(res.currentInside)
    case Some(CommitTok(env)) => CommitFolds(c, env, b)
    case Some(JobTok(job)) => CommitFolds(c, job.env, b)
    case _ => true
  }

  /** `f` tells whether what is in flight will fold; it is true as long as no task has been worked. */
  ghost predicate FitInv(o: Obj, f: bool) {
    if o.up && o.ctl.Some? then
      && (InFlight(o.tok) ==> (f <==> TokenFolds(o.ctl.value, o.tok, Last(Confirmed(o.log, o.tok)))))
      && (o.tok.None? || o.tok.value.TaskTok? ==> f)
    else f
  }

  ghost function NextFit(o: Obj, l: Label, f: bool): bool {
    match l
    case LWork(_) => Fitted(o)
    case LTakeCommit(_) => true
    case LCrash => true
    case _ => f
  }

  /** The step puts a new commit into the log. */
  ghost predicate Stores(o: Obj, o': Obj) { |Commits(o'.log)| > |Commits(o.log)| }

  /** The commits stay; one may be added, and it folds exactly when `f` says so. */
  ghost predicate Extends(cs: seq<StateRecord>, cs': seq<StateRecord>, f: bool) {
    cs' == cs || (|cs'| == |cs| + 1 && cs'[..|cs|] == cs && (Folds(cs', |cs|) <==> f))
  }

  lemma RemoveFolds(cfg: Config, id: ObjectID, c: Ctl, env: CommitEnvelope, b: Option<StateRecord>, now: nat)
    requires c.head.Some? && c.head.value.objectID == id && c.head.value.kind == TaskRemove && InsideAt(c, b) == {}
    requires CommitFits(c, c.head.value, RemoveInput(c, c.head.value), PrevInsideNoop, now, env)
    ensures CommitFolds(c, env, b)
  {
    hide EnvelopeOK;
    BuiltEnvelope(id, c, c.head.value, RemoveInput(c, c.head.value), PrevInsideNoop, now, env);
    assert InsideOf(StateOf(env.commit).value) == {};
  }

  lemma RegisterFolds(id: ObjectID, c: Ctl, env: CommitEnvelope, b: Option<StateRecord>, now: nat)
    requires c.head.Some? && c.head.value.objectID == id && c.lastCommitSeq == 0
    requires CommitFits(c, c.head.value, RegisterInput(c, c.head.value), PrevInsideNoop, now, env)
    ensures CommitFolds(c, env, b)
  {
    hide EnvelopeOK;
    BuiltEnvelope(id, c, c.head.value, RegisterInput(c, c.head.value), PrevInsideNoop, now, env);
    assert InsideOf(StateOf(env.commit).value) == {};
  }

  /** A commit dispatched without a worker folds: nothing was inside and nothing is. */
  lemma DispatchFolds(cfg: Config, id: ObjectID, c: Ctl, out: Out, now: nat, cs: seq<StateRecord>)
    requires c.route == RegionOf(c, Last(cs)) && NumberOK(c, cs) && ChainOK(cfg, id, cs)
    requires CommandsOK(id, c) && Handled(cfg, c, out, now)
    ensures out.send.Some? && out.send.value.SendCommit? ==> TokenFolds(out.ctl, TokenOf(out.send), Last(cs))
  {
    hide CommitFolds, CommitFits, Succeeds;
    match out.send {
      case Some(SendCommit(env)) =>
        assert Holds(out.ctl, out.ctl.head.value);
        assert Holds(c, out.ctl.head.value);
        assert cs != [] ==> StateOK(cfg, id, cs[|cs| - 1]);
        CommitFitsSame(c, out.ctl, out.ctl.head.value, now, env);
        RemoveFolds(cfg, id, out.ctl, env, Last(cs), now);
      case _ =>
    }
  }

  lemma FitArrive(cfg: Config, id: ObjectID, o: Obj, f: bool, env: Envelope, inst: string, now: nat)
    requires Inv(cfg, id, o) && FitInv(o, f) && Enabled(id, o, LArrive(env, inst, now))
    ensures FitInv(Arrive(cfg, o, env, inst, now), f)
  {
    hide Inv, FitInv, FreshInstance, SubmitNewRegister, DispatchPosition, DispatchRemove;
    var o' := Arrive(cfg, o, env, inst, now);
    if env.kind == TaskRegister {
      if o.ctl.None? { FitRegister(cfg, id, o, f, env, inst, now); } else { FitSameBook(o, o', f); }
    } else if o.ctl.None? || o.ctl.value.deleted {
      FitSameBook(o, o', f);
    } else if o.ctl.value.head.Some? || o.ctl.value.committing {
      FitQueued(cfg, id, o, f, env, inst, now);
    } else {
      FitDispatched(cfg, id, o, f, env, inst, now);
    }
  }

  lemma FitSameBook(o: Obj, o': Obj, f: bool)
    requires FitInv(o, f) && o'.left == o.left && o' == o.(book := o'.book, left := o'.left)
    ensures FitInv(o', f)
  {
    hide TokenFolds;
  }

  lemma FitRegister(cfg: Config, id: ObjectID, o: Obj, f: bool, env: Envelope, inst: string, now: nat)
    requires FitInv(o, f) && o.up && o.ctl.None?
    requires env.objectID == id && env.kind == TaskRegister && FreshInstance(o, inst)
    ensures FitInv(Arrive(cfg, o, env, inst, now), f)
  {
    hide CommitFits, CommitFolds;
    var c := NewCtl(env.dims).(instanceID := inst, head := Some(env));
    var out := SubmitNewRegister(cfg, c, env, now);
    assert BuildCommitMsgs(RegisterInput(c, env), now).Ok?;
    assert CommitFits(c, env, RegisterInput(c, env), PrevInsideNoop, now, out.send.value.env);
    RegisterFitsSame(c, out.ctl, env, now, out.send.value.env);
    RegisterFolds(id, out.ctl, out.send.value.env, Last(Commits(o.log)), now);
    var o' := Arrive(cfg, o, env, inst, now);
    assert Confirmed(o'.log, o'.tok) == Commits(o.log) && o'.ctl == Some(out.ctl);
  }

  lemma FitQueued(cfg: Config, id: ObjectID, o: Obj, f: bool, env: Envelope, inst: string, now: nat)
    requires FitInv(o, f) && o.up && o.ctl.Some? && !o.ctl.value.deleted
    requires env.kind == TaskUpdate || env.kind == TaskRemove
    requires o.ctl.value.head.Some?
    ensures FitInv(Arrive(cfg, o, env, inst, now), f)
  {
    hide Replay, StateOf, Commits;
    var o' := Arrive(cfg, o, env, inst, now);
    assert o'.ctl == Some(o.ctl.value.(queue := o.ctl.value.queue + [env])) && o'.tok == o.tok;
  }

  lemma FitDispatched(cfg: Config, id: ObjectID, o: Obj, f: bool, env: Envelope, inst: string, now: nat)
    requires Inv(cfg, id, o) && FitInv(o, f) && o.up && o.ctl.Some? && !o.ctl.value.deleted
    requires env.objectID == id && (env.kind == TaskUpdate || env.kind == TaskRemove)
    requires o.ctl.value.head.None? && Ready(o.ctl.value)
    ensures FitInv(Arrive(cfg, o, env, inst, now), f)
  {
    hide LogOK, ChainOK, EnvelopeOK, CommitFolds, Handled, Handled', Stage, Commits;
    var c, cs := o.ctl.value, Confirmed(o.log, o.tok);
    var c' := c.(head := Some(env));
    var out := if env.kind == TaskUpdate then DispatchPosition(cfg, c', env, now) else DispatchRemove(cfg, c', env, now);
    assert o.tok.None? && c'.route == RegionOf(c', Last(cs)) by { IdleStage(cfg, id, o); }
    DispatchFolds(cfg, id, c', out, now, cs);
    var o' := Arrive(cfg, o, env, inst, now);
    assert !Stored(TokenOf(out.send)) && o'.tok == TokenOf(out.send);
    assert o'.ctl == Some(out.ctl) && Confirmed(o'.log, o'.tok) == cs;
  }

  lemma FitWork(cfg: Config, id: ObjectID, o: Obj, ch: Choice)
    requires Inv(cfg, id, o) && Enabled(id, o, LWork(ch))
    ensures FitInv(Work(o, ch), Fitted(o))
  {
    hide LogOK, StateOK, Replay, Commits;
    var c, cs, t := o.ctl.value, Confirmed(o.log, o.tok), o.tok.value.task;
    assert ChainOK(cfg, id, cs);
    WorkReplaysIff(cfg, id, c, t, Last(cs), o.tree, o.prev, ch, InsideAt(c, Last(cs)));
    WorkFits(cfg, id, c, t, cs, o.tree, o.prev, ch);
    hide Process, Stage, NumberOK, ResultFits, Fits;
    var o' := Work(o, ch);
    assert Confirmed(o'.log, o'.tok) == cs;
  }

  lemma FitTakeResult(cfg: Config, id: ObjectID, o: Obj, f: bool, now: nat)
    requires Inv(cfg, id, o) && FitInv(o, f) && Enabled(id, o, LTakeResult(now))
    ensures FitInv(TakeResult(cfg, o, now), f)
  {
    hide LogOK, ChainOK, StateOK, Replay, ResultFits, NumberOK, Commits;
    var c, cs := o.ctl.value, Confirmed(o.log, o.tok);
    ResultCarried(cfg, id, c, o.tok.value.res, cs, o.tree, now);
    ResultSubmits(cfg, id, c, o.tok.value.res, cs, o.tree, now);
    hide OnResult, Submitting;
    var o' := TakeResult(cfg, o, now);
    assert Confirmed(o'.log, o'.tok) == cs;
  }

  /** The commit reaches the log: it folds exactly when it did on its way there. */
  lemma StoredFoldsIff(cfg: Config, id: ObjectID, c: Ctl, env: CommitEnvelope, cs: seq<StateRecord>, tree: map<Region, Item>)
    requires NumberOK(c, cs) && Submitting(cfg, id, c, env, Last(cs), tree)
    ensures StateOf(env.commit).Some?
    ensures Folds(cs + [StateOf(env.commit).value], |cs|) <==> CommitFolds(c, env, Last(cs))
  {
    hide RepairKnown, CommitFollows, Replay;
  }

  lemma FitAttempt(cfg: Config, id: ObjectID, o: Obj, f: bool, out: Outcome)
    requires Inv(cfg, id, o) && FitInv(o, f) && Enabled(id, o, LAttempt(out))
    ensures FitInv(Attempt(o, out), f) && Extends(Commits(o.log), Commits(Attempt(o, out).log), f)
  {
    hide Inv, NumberOK, Submitting, Commits, Confirms, StateOf, CommitFolds, Folds;
    var env, o' := o.tok.value.job.env, Attempt(o, out);
    AttemptEffect(cfg, id, o, out);
    JobSubmitting(cfg, id, o);
    if Stored(o'.tok) == Stored(o.tok) {
      AttemptSameCommits(cfg, id, o, out);
    } else {
      StoredIsLast(cfg, id, o');
      StoredFoldsIff(cfg, id, o.ctl.value, env, Confirmed(o.log, o.tok), o.tree);
    }
  }

  lemma FitTakeCommit(cfg: Config, id: ObjectID, o: Obj, now: nat)
    requires Inv(cfg, id, o) && Enabled(id, o, LTakeCommit(now))
    ensures FitInv(TakeCommit(cfg, o, now), true)
  {
    hide LogOK, EnvelopeOK, Commits, Handled, Handled', DispatchNext, Submitting, TokenFolds;
    var c, env := o.ctl.value, o.tok.value.env;
    TakeCommitShape(cfg, id, o, now);
    if c.head.value.kind != TaskRemove {
      RelievedIsAtRest(cfg, id, o);
      var out := DispatchNext(cfg, Relieved(c, env), now);
      DispatchFolds(cfg, id, Relieved(c, env), out, now, Commits(o.log));
    }
    hide AtRest, NumberOK, TakeCommit, ChainOK;
    var o' := TakeCommit(cfg, o, now);
    assert Confirmed(o'.log, o'.tok) == Commits(o.log);
  }

  lemma FitPublisher(cfg: Config, id: ObjectID, o: Obj, f: bool, l: Label)
    requires Inv(cfg, id, o) && FitInv(o, f) && Enabled(id, o, l) && (l.LStartJob? || l.LEndJob? || l.LForgetArea?)
    ensures FitInv(Step(cfg, id, o, l), f)
  {
    hide LogOK, ChainOK, Submitting, CommitFolds, Replay, Commits, NumberOK, MailboxOK;
    var o' := Step(cfg, id, o, l);
    assert Confirmed(o'.log, o'.tok) == Confirmed(o.log, o.tok);
  }

  lemma FitBoot(cfg: Config, o: Obj, f: bool)
    requires FitInv(o, f) && !o.up
    ensures FitInv(Boot(cfg, o), f) && Boot(cfg, o).log == o.log
  {
    hide BootState;
  }

  /** Main lemma: how each step, of any kind, changes what is in flight and what is in the log. */
  lemma FitStep(cfg: Config, id: ObjectID, o: Obj, f: bool, l: Label)
    requires Inv(cfg, id, o) && FitInv(o, f) && Enabled(id, o, l)
    ensures FitInv(Step(cfg, id, o, l), NextFit(o, l, f))
    ensures Extends(Commits(o.log), Commits(Step(cfg, id, o, l).log), f)
  {
    hide Inv, FitInv, Arrive, Attempt, Boot, CanRepair, Commits, Folds, ValidChoice, Process, OnResult, OnCommitResult, Fitted;
    match l
    case LArrive(env, inst, now) =>
      FitArrive(cfg, id, o, f, env, inst, now);
      SameLog(cfg, id, o, l);
    case LWork(ch) => FitWork(cfg, id, o, ch);
    case LTakeResult(now) => FitTakeResult(cfg, id, o, f, now);
    case LAttempt(out) => FitAttempt(cfg, id, o, f, out);
    case LTakeCommit(now) => FitTakeCommit(cfg, id, o, now);
    case LBoot => FitBoot(cfg, o, f);
    case LCrash => DownFits(Crash(o));
    case LRepair(m, now) =>
      RepairKeeps(cfg, id, o, m, now);
      AppendProjectionSame(cfg, id, o, m);
      RepairFits(o, m, f, now);
    case _ => FitPublisher(cfg, id, o, f, l);
  }

  lemma SameLog(cfg: Config, id: ObjectID, o: Obj, l: Label)
    requires Enabled(id, o, l) && l.LArrive?
    ensures Step(cfg, id, o, l).log == o.log
  {
    hide OnEnvelope;
  }

  lemma DownFits(o: Obj)
    requires !o.up
    ensures FitInv(o, true)
  {}

  lemma RepairFits(o: Obj, m: Msg, f: bool, now: nat)
    requires FitInv(o, f) && CanRepair(o, m, now)
    ensures FitInv(Repair(o, m), f)
  {}

  lemma AppendProjectionSame(cfg: Config, id: ObjectID, o: Obj, m: Msg)
    requires Inv(cfg, id, o) && GeofenceMsgOK(id, m)
    ensures Commits(o.log + [m]) == Commits(o.log)
  {
    hide ChainOK, Present;
    AppendProjection(cfg, id, o.log, m);
  }

  // ---- whole runs --------------------------------------------------------------------------------------------

  /** Whether the last task worked since the last commit result or crash, if any, found snapshots that
      fitted. */
  ghost function FitAt(run: seq<Obj>, labels: seq<Label>, k: nat): bool
    requires k <= |labels| < |run|
  {
    if k == 0 then true else NextFit(run[k - 1], labels[k - 1], FitAt(run, labels, k - 1))
  }

  /** Every commit stored before state k came from a task that fitted, or from none. */
  ghost predicate StoredFitted(run: seq<Obj>, labels: seq<Label>, k: nat)
    requires k <= |labels| < |run|
  {
    forall s {:trigger FitAt(run, labels, s)} :: 0 <= s < k && Stores(run[s], run[s + 1]) ==> FitAt(run, labels, s)
  }

  /** The commits grow one by one along a run, and each folds exactly when its task fitted. */
  lemma RunExtends(cfg: Config, id: ObjectID, run: seq<Obj>, labels: seq<Label>, k: nat)
    requires IsRun(cfg, id, run, labels) && k < |labels| && FitInv(run[k], FitAt(run, labels, k))
    ensures FitInv(run[k + 1], FitAt(run, labels, k + 1))
    ensures Extends(Commits(run[k].log), Commits(run[k + 1].log), FitAt(run, labels, k))
  {
    RunSound(cfg, id, run, labels, k);
    hide Inv, LogInv, CompleteInv, BookOK, FitInv, Step, Enabled, NextFit, Extends, Commits;
    assert StepOK(cfg, id, run[k], labels[k], run[k + 1]);
    FitStep(cfg, id, run[k], FitAt(run, labels, k), labels[k]);
  }

  lemma ExtendsFold(cs: seq<StateRecord>, cs': seq<StateRecord>, f: bool)
    requires Extends(cs, cs', f)
    ensures FoldOK(cs') <==> FoldOK(cs) && (|cs'| > |cs| ==> f)
    ensures |cs'| >= |cs| && cs'[..|cs|] == cs
    ensures forall j :: 0 <= j < |cs| ==> (Folds(cs', j) <==> Folds(cs, j))
  {
    forall j | 0 <= j < |cs| ensures Folds(cs', j) <==> Folds(cs, j) {
      assert cs'[j] == cs[j] && (j > 0 ==> cs'[j - 1] == cs[j - 1]);
    }
    hide Folds;
    if FoldOK(cs') {
      assert |cs'| > |cs| ==> Folds(cs', |cs|);
      forall j | 0 <= j < |cs| ensures Folds(cs, j) { assert Folds(cs', j); }
    }
    if FoldOK(cs) && (|cs'| > |cs| ==> f) {
      forall j | 0 <= j < |cs'| ensures Folds(cs', j) { assert j < |cs| ==> Folds(cs, j); }
    }
  }

  lemma {:induction false} RunFolds(cfg: Config, id: ObjectID, run: seq<Obj>, labels: seq<Label>, k: nat)
    requires IsRun(cfg, id, run, labels) && k < |run|
    ensures FitInv(run[k], FitAt(run, labels, k))
    ensures FoldOK(Commits(run[k].log)) <==> StoredFitted(run, labels, k)
  {
    hide FitInv, FoldOK, Commits, Step, Enabled, NextFit, Extends;
    if k == 0 {
      StartFolds(run[0]);
    } else {
      RunFolds(cfg, id, run, labels, k - 1);
      RunExtends(cfg, id, run, labels, k - 1);
      ExtendsFold(Commits(run[k - 1].log), Commits(run[k].log), FitAt(run, labels, k - 1));
    }
  }

  lemma StartFolds(o: Obj)
    requires Initial(o)
    ensures FitInv(o, true) && FoldOK(Commits(o.log))
  {}

  /** Main result, commit by commit: in every run, with crashes, repairs, boots and area removals, a commit
      leads from its predecessor's inside set to its own exactly when its task, if any, found
      snapshots that fitted.  `s` is the step that stored it. */
  lemma {:induction false} EachCommitFoldsIff(cfg: Config, id: ObjectID, run: seq<Obj>, labels: seq<Label>, s: nat, k: nat)
    requires IsRun(cfg, id, run, labels) && s < k < |run| && Stores(run[s], run[s + 1])
    ensures |Commits(run[k].log)| > |Commits(run[s].log)|
    ensures Folds(Commits(run[k].log), |Commits(run[s].log)|) <==> FitAt(run, labels, s)
    decreases k
  {
    hide FitInv, Folds, Commits, Step, Enabled, NextFit;
    RunFolds(cfg, id, run, labels, k - 1);
    RunExtends(cfg, id, run, labels, k - 1);
    if s < k - 1 {
      EachCommitFoldsIff(cfg, id, run, labels, s, k - 1);
      ExtendsFold(Commits(run[k - 1].log), Commits(run[k].log), FitAt(run, labels, k - 1));
    }
  }

  /** Main result, all commits: in every run the transitions of each instance lead from nothing to all its
      committed inside sets if and only if every stored commit's task fitted. */
  lemma ReplaysIffStoredFitted(cfg: Config, id: ObjectID, run: seq<Obj>, labels: seq<Label>, k: nat)
    requires IsRun(cfg, id, run, labels) && k < |run|
    ensures AllReplay(Commits(run[k].log)) <==> StoredFitted(run, labels, k)
  {
    assert k <= |labels| < |run|;
    RunFolds(cfg, id, run, labels, k);
    RunSound(cfg, id, run, labels, k);
    hide LogInv, CompleteInv, BookOK, IsRun, FoldOK, ChainOK, StoredFitted, AllReplay, FitInv;
    InvChain(cfg, id, run[k]);
    FoldIffReplays(cfg, id, Commits(run[k].log));
  }

  // ---- runs without crashes ------------------------------------------------------------------------------------

  /** Every task worked before state k found snapshots that fitted. */
  ghost predicate WorkedFitted(run: seq<Obj>, labels: seq<Label>, k: nat)
    requires k <= |labels| < |run|
  {
    forall w {:trigger labels[w]} :: 0 <= w < k && labels[w].LWork? ==> Fitted(run[w])
  }

  /** Without crashes no worked task is lost: its commit is stored, or still in flight. */
  lemma {:induction false} NoneLost(cfg: Config, id: ObjectID, run: seq<Obj>, labels: seq<Label>, k: nat)
    requires IsRun(cfg, id, run, labels) && CrashFree(labels) && k < |run|
    ensures WorkedFitted(run, labels, k) <==> StoredFitted(run, labels, k) && (InFlight(run[k].tok) ==> FitAt(run, labels, k))
  {
    hide Step, Enabled, Stores, Fitted, FitInv, InFlight, Inv, WorkedFitted, StoredFitted, FlightMoves;
    assert k <= |labels| < |run|;
    hide IsRun, CrashFree, StepOK;
    if k == 0 {
      NothingYet(cfg, id, run, labels);
    } else {
      var o, l := run[k - 1], labels[k - 1];
      NoneLost(cfg, id, run, labels, k - 1);
      RunFolds(cfg, id, run, labels, k - 1);
      CrashFreeStep(cfg, id, run, labels, k - 1);
      WorkedNext(run, labels, k);
      StoredNext(run, labels, k);
      FlightStep(cfg, id, o, FitAt(run, labels, k - 1), l);
      FlightCounts(o, l, run[k], FitAt(run, labels, k - 1));
    }
  }

  /** What is in flight or stored fits exactly when it did before and a task worked, if any, fits. */
  lemma FlightCounts(o: Obj, l: Label, o': Obj, f: bool)
    requires FlightMoves(o, l, o', f) && !l.LCrash?
    ensures (InFlight(o'.tok) ==> NextFit(o, l, f)) && (Stores(o, o') ==> f) <==>
            (InFlight(o.tok) ==> f) && (l.LWork? ==> Fitted(o))
  {
    hide InFlight, Stores, Fitted;
  }

  lemma CrashFreeStep(cfg: Config, id: ObjectID, run: seq<Obj>, labels: seq<Label>, k: nat)
    requires IsRun(cfg, id, run, labels) && CrashFree(labels) && k < |labels|
    ensures Inv(cfg, id, run[k]) && run[k].up && !labels[k].LCrash?
    ensures Enabled(id, run[k], labels[k]) && run[k + 1] == Step(cfg, id, run[k], labels[k])
  {
    hide Inv, Step, Enabled, LogInv, CompleteInv, BookOK;
    RunSound(cfg, id, run, labels, k);
    FirstLife(cfg, id, run, labels, k);
    assert StepOK(cfg, id, run[k], labels[k], run[k + 1]);
  }

  lemma NothingYet(cfg: Config, id: ObjectID, run: seq<Obj>, labels: seq<Label>)
    requires IsRun(cfg, id, run, labels)
    ensures WorkedFitted(run, labels, 0) && StoredFitted(run, labels, 0) && !InFlight(run[0].tok)
  {
    hide Step, Enabled;
  }

  lemma WorkedNext(run: seq<Obj>, labels: seq<Label>, k: nat)
    requires 0 < k <= |labels| < |run|
    ensures WorkedFitted(run, labels, k) <==> WorkedFitted(run, labels, k - 1) && (labels[k - 1].LWork? ==> Fitted(run[k - 1]))
  {
    hide Fitted;
  }

  lemma StoredNext(run: seq<Obj>, labels: seq<Label>, k: nat)
    requires 0 < k <= |labels| < |run|
    ensures StoredFitted(run, labels, k) <==>
            StoredFitted(run, labels, k - 1) && (Stores(run[k - 1], run[k]) ==> FitAt(run, labels, k - 1))
  {
    hide Stores, FitAt;
    if StoredFitted(run, labels, k) { assert Stores(run[k - 1], run[k - 1 + 1]) ==> FitAt(run, labels, k - 1); }
  }

  /** What a step does to what is in flight: a task worked enters, a commit stored leaves. */
  ghost predicate FlightMoves(o: Obj, l: Label, o': Obj, f: bool) {
    && (l.LWork? ==> !InFlight(o.tok) && InFlight(o'.tok) && !Stores(o, o'))
    && (l.LTakeCommit? ==> !InFlight(o.tok) && !Stores(o, o'))
    && (Stores(o, o') ==> InFlight(o.tok) && !InFlight(o'.tok))
    && (InFlight(o.tok) && !l.LTakeCommit? && !Stores(o, o') ==> InFlight(o'.tok))
    && (!InFlight(o.tok) && InFlight(o'.tok) && !l.LWork? && !l.LTakeCommit? ==> f)
  }

  lemma FlightStep(cfg: Config, id: ObjectID, o: Obj, f: bool, l: Label)
    requires Inv(cfg, id, o) && FitInv(o, f) && Enabled(id, o, l) && o.up && !l.LCrash?
    ensures FlightMoves(o, l, Step(cfg, id, o, l), f)
  {
    hide Inv, FitInv, Arrive, TakeResult, Attempt, TakeCommit, Commits, ValidChoice, Process, FlightMoves, InFlight, Stores;
    match l
    case LArrive(env, inst, now) => FlightArrive(cfg, id, o, f, env, inst, now);
    case LTakeResult(now) => FlightResult(cfg, id, o, f, now);
    case LAttempt(out) => FlightAttempt(cfg, id, o, f, out);
    case _ => FlightRest(cfg, id, o, f, l);
  }

  lemma FlightArrive(cfg: Config, id: ObjectID, o: Obj, f: bool, env: Envelope, inst: string, now: nat)
    requires Inv(cfg, id, o) && FitInv(o, f) && Enabled(id, o, LArrive(env, inst, now))
    ensures FlightMoves(o, LArrive(env, inst, now), Arrive(cfg, o, env, inst, now), f)
  {
    hide LogOK, ChainOK, EnvelopeOK, CommitFollows, NumberOK, ResultFits, TokenFolds, Commits, Handled, Handled', FreshInstance;
    var o' := Arrive(cfg, o, env, inst, now);
    assert o'.log == o.log;
    assert o.tok.Some? ==> o'.tok == o.tok;
  }

  lemma FlightResult(cfg: Config, id: ObjectID, o: Obj, f: bool, now: nat)
    requires Inv(cfg, id, o) && Enabled(id, o, LTakeResult(now))
    ensures FlightMoves(o, LTakeResult(now), TakeResult(cfg, o, now), f)
  {
    hide LogOK, ChainOK, StateOK, ResultFits, NumberOK, Commits;
    ResultSubmits(cfg, id, o.ctl.value, o.tok.value.res, Confirmed(o.log, o.tok), o.tree, now);
    hide OnResult, Submitting;
  }

  lemma FlightAttempt(cfg: Config, id: ObjectID, o: Obj, f: bool, out: Outcome)
    requires Inv(cfg, id, o) && Enabled(id, o, LAttempt(out))
    ensures FlightMoves(o, LAttempt(out), Attempt(o, out), f)
  {
    hide Inv, Commits, Confirms, StateOf;
    var o' := Attempt(o, out);
    AttemptEffect(cfg, id, o, out);
    if Stored(o'.tok) == Stored(o.tok) {
      AttemptSameCommits(cfg, id, o, out);
    } else {
      StoredIsLast(cfg, id, o');
    }
  }

  lemma FlightRest(cfg: Config, id: ObjectID, o: Obj, f: bool, l: Label)
    requires Inv(cfg, id, o) && Enabled(id, o, l) && o.up
    requires l.LWork? || l.LStartJob? || l.LEndJob? || l.LTakeCommit? || l.LForgetArea? || l.LRepair? || l.LBoot?
    ensures FlightMoves(o, l, Step(cfg, id, o, l), f)
  {
    hide LogOK, ChainOK, EnvelopeOK, CommitFollows, NumberOK, MailboxOK, Commits, ValidChoice, Process, OnCommitResult, BootState;
  }

  /** Main result on runs without crashes, area removals allowed: with nothing of the object in flight, all its
      commits replay if and only if every task worked found snapshots that fitted. */
  lemma ReplaysIffWorkedFitted(cfg: Config, id: ObjectID, run: seq<Obj>, labels: seq<Label>, k: nat)
    requires IsRun(cfg, id, run, labels) && CrashFree(labels) && k < |run| && run[k].tok.None?
    ensures AllReplay(Commits(run[k].log)) <==> WorkedFitted(run, labels, k)
  {
    ReplaysIffStoredFitted(cfg, id, run, labels, k);
    NoneLost(cfg, id, run, labels, k);
  }

  // ---- runs without area removal ---------------------------------------------------------------------------------

  /** Every region entered before state k held no snapshot of an earlier visit. */
  ghost predicate EnteredFresh(run: seq<Obj>, labels: seq<Label>, k: nat)
    requires k <= |labels| && |run| == |labels| + 1
  {
    forall j {:trigger labels[j]} :: 0 <= j < k && labels[j].LWork? ==> EntersFresh(run[j])
  }

  ghost predicate NoRemoval(labels: seq<Label>) {
    forall k {:trigger labels[k]} :: 0 <= k < |labels| ==> !labels[k].LForgetArea?
  }

  lemma {:induction false} NothingErased(run: seq<Obj>, labels: seq<Label>, k: nat)
    requires k <= |labels| < |run| && NoRemoval(labels)
    ensures Erased(run, labels, k) == {}
  {
    if k > 0 { NothingErased(run, labels, k - 1); }
  }

  lemma FitsIffFresh(cfg: Config, id: ObjectID, run: seq<Obj>, labels: seq<Label>, w: nat)
    requires IsRun(cfg, id, run, labels) && NoRemoval(labels) && w < |labels| && labels[w].LWork?
    ensures Fitted(run[w]) <==> EntersFresh(run[w])
  {
    hide Inv, LogInv, CompleteInv, BookOK, GeoInv, Fitted, Step, ValidChoice;
    RunGeo(cfg, id, run, labels, w);
    assert StepOK(cfg, id, run[w], labels[w], run[w + 1]);
    NothingErased(run, labels, w);
    FitsIff(cfg, id, run[w], {});
    FreshHistory(run[w].tok.value.task, run[w].prev, LiveInside(run[w]));
  }

  lemma FreshHistory(t: WorkerTask, prev: map<Region, set<AreaID>>, from: set<AreaID>)
    ensures FitsHistory(t, prev, from, {}) <==> FreshTask(t, prev)
  {
    assert from * {} == {};
  }

  /** Without crashes and area removals: exactly when every region entered held no old snapshot. */
  lemma ReplaysIffEnteredFresh(cfg: Config, id: ObjectID, run: seq<Obj>, labels: seq<Label>, k: nat)
    requires IsRun(cfg, id, run, labels) && CrashFree(labels) && NoRemoval(labels) && k < |run| && run[k].tok.None?
    ensures AllReplay(Commits(run[k].log)) <==> EnteredFresh(run, labels, k)
  {
    ReplaysIffWorkedFitted(cfg, id, run, labels, k);
    hide AllReplay, Commits, Fitted, EntersFresh;
    forall w | 0 <= w < k && labels[w].LWork? ensures Fitted(run[w]) <==> EntersFresh(run[w]) {
      FitsIffFresh(cfg, id, run, labels, w);
    }
  }

  /** No area is removed, and, unless the snapshot is moved, the object never heads for a region it
      has left. */
  ghost predicate Undisturbed(cfg: Config, run: seq<Obj>, labels: seq<Label>) {
    && NoRemoval(labels)
    && (cfg.taskKind || forall k {:trigger NotReturning(run[k])} :: 0 <= k < |run| ==> NotReturning(run[k]))
  }

  lemma {:induction false} UndisturbedFits(cfg: Config, id: ObjectID, run: seq<Obj>, labels: seq<Label>, k: nat)
    requires IsRun(cfg, id, run, labels) && Undisturbed(cfg, run, labels) && k < |run|
    ensures FitAt(run, labels, k)
  {
    hide Step, Enabled, Fitted, NotReturning, EntersFresh;
    if k > 0 {
      UndisturbedFits(cfg, id, run, labels, k - 1);
      if labels[k - 1].LWork? {
        assert cfg.taskKind || NotReturning(run[k - 1]);
        RunGeo(cfg, id, run, labels, k - 1);
        NotReturningIsFresh(cfg, id, run[k - 1], Erased(run, labels, k - 1));
        FitsIffFresh(cfg, id, run, labels, k - 1);
      }
    }
  }

  /** In particular, crashes or not, with no area removed and no return to a region left (or with the snapshot
      moved): the enters and exits an instance has committed lead from nothing to each of its inside sets, and
      those of each area alternate, starting with an enter. */
  lemma TransitionsReplay(cfg: Config, id: ObjectID, run: seq<Obj>, labels: seq<Label>, k: nat, j: nat)
    requires IsRun(cfg, id, run, labels) && Undisturbed(cfg, run, labels) && k < |run| && j < |Commits(run[k].log)|
    ensures var cs := Commits(run[k].log);
            var ts := TransitionsOf(cs[..j + 1], cs[j].instanceID);
            Replay({}, ts) == Some(InsideOf(cs[j])) && forall a :: Alternates(FlagsOf(ts, a), true)
  {
    var cs := Commits(run[k].log);
    forall s | 0 <= s < k ensures FitAt(run, labels, s) { UndisturbedFits(cfg, id, run, labels, s); }
    ReplaysIffStoredFitted(cfg, id, run, labels, k);
    hide IsRun, Undisturbed, Alternates, FlagsOf, Replay, Commits;
    assert ReplaysTo(cs, j);
    var ts := TransitionsOf(cs[..j + 1], cs[j].instanceID);
    ReplayIffAlternating({}, ts);
    forall a ensures Alternates(FlagsOf(ts, a), true) {
      assert Alternates(FlagsOf(ts, a), a !in {});
    }
  }
}
