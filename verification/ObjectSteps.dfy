/** Every step of an object keeps the invariant. */
module ObjectSteps {
  import opened Domain
  import opened Events
  import opened EventLog
  import opened Mailbox
  import opened ObjectMachine
  import opened ObjectInvariant

  // ---- the dispatcher's handlers ------------------------------------------------------------

  ghost predicate CommandsOK(id: ObjectID, c: Ctl) {
    forall e :: Holds(c, e) ==> e.objectID == id && (e.kind == TaskUpdate || e.kind == TaskRemove)
  }

  /** Whatever a mailbox at rest dispatches next fits the last confirmed commit. */
  lemma DispatchStage(cfg: Config, id: ObjectID, c: Ctl, out: Out, now: nat, cs: seq<StateRecord>, tree: map<Region, Item>)
    requires AtRest(c, Last(cs), tree) && c.route == RegionOf(c, Last(cs))
    requires NumberOK(c, cs) && CommandsOK(id, c) && Handled(cfg, c, out, now)
    ensures NumberOK(out.ctl, cs) && MailboxOK(id, out.ctl)
    ensures Stage(cfg, id, out.ctl, TokenOf(out.send), Last(cs), tree) && !Stored(TokenOf(out.send))
  {
    var b := Last(cs);
    forall e | Holds(out.ctl, e) ensures e.objectID == id && (e.kind == TaskUpdate || e.kind == TaskRemove) {
      assert Holds(c, e);
    }
    assert out.ctl.head.Some? ==> Holds(out.ctl, out.ctl.head.value);
    match out.send {
      case None =>
      case Some(SendTask(t)) =>
        assert TaskFits(cfg, c, out.ctl, t);
      case Some(SendCommit(env)) =>
        BuiltEnvelope(id, c, out.ctl.head.value, RemoveInput(c, out.ctl.head.value), PrevInsideNoop, now, env);
    }
  }

  lemma ArriveRegister(cfg: Config, id: ObjectID, o: Obj, env: Envelope, inst: string, now: nat)
    requires Inv(cfg, id, o) && o.up && o.ctl.None?
    requires env.objectID == id && env.kind == TaskRegister && FreshInstance(o, inst)
    ensures Inv(cfg, id, Arrive(cfg, o, env, inst, now))
  {
    RegisterSubmits(cfg, id, env, inst, now, Last(Commits(o.log)));
    hide LogOK, ChainOK, SubmitNewRegister, Submitting, Commits;
    var o' := Arrive(cfg, o, env, inst, now);
    assert Confirmed(o'.log, o'.tok) == Commits(o.log);
  }

  lemma RegisterSubmits(cfg: Config, id: ObjectID, env: Envelope, inst: string, now: nat, b: Option<StateRecord>)
    requires env.objectID == id && env.kind == TaskRegister && inst != ""
    ensures var out := SubmitNewRegister(cfg, NewCtl(env.dims).(instanceID := inst, head := Some(env)), env, now);
            && out.send.Some? && out.send.value.SendCommit?
            && out.ctl.head == Some(env) && out.ctl.queue == [] && out.ctl.instanceID == inst && out.ctl.lastCommitSeq == 0
            && Submitting(cfg, id, out.ctl, out.send.value.env, b, map[])
  {
    hide RepairKnown, Handled, Handled';
    var c := NewCtl(env.dims).(instanceID := inst, head := Some(env));
    var input := RegisterInput(c, env);
    var out := SubmitNewRegister(cfg, c, env, now);
    assert BuildCommitMsgs(input, now).Ok?;
    BuiltEnvelope(id, c, env, input, PrevInsideNoop, now, out.send.value.env);
  }

  lemma ArriveCommand(cfg: Config, id: ObjectID, o: Obj, env: Envelope, inst: string, now: nat)
    requires Inv(cfg, id, o) && o.up && o.ctl.Some?
    requires env.objectID == id && (env.kind == TaskUpdate || env.kind == TaskRemove)
    requires o.ctl.value.head.None? ==> Ready(o.ctl.value)
    ensures Inv(cfg, id, Arrive(cfg, o, env, inst, now))
  {
    var c := o.ctl.value;
    hide Inv, Handled, Handled';
    if c.deleted {
      OnlyTheBookChanged(cfg, id, o, Arrive(cfg, o, env, inst, now));
    } else if c.head.Some? || c.committing {
      ArriveQueued(cfg, id, o, env, inst, now);
    } else {
      ArriveDispatched(cfg, id, o, env, inst, now);
    }
  }

  lemma ArriveQueued(cfg: Config, id: ObjectID, o: Obj, env: Envelope, inst: string, now: nat)
    requires Inv(cfg, id, o) && o.up && o.ctl.Some? && !o.ctl.value.deleted
    requires env.objectID == id && (env.kind == TaskUpdate || env.kind == TaskRemove)
    requires o.ctl.value.head.Some? || o.ctl.value.committing
    ensures Inv(cfg, id, Arrive(cfg, o, env, inst, now))
  {
    hide Handled, Handled', StateOK, Succeeds, MsgOK;
    var c, cs := o.ctl.value, Confirmed(o.log, o.tok);
    QueueMore(cfg, id, c, env, o.tok, Last(cs), o.tree);
    var o' := Arrive(cfg, o, env, inst, now);
    assert o'.(ctl := o.ctl, book := o.book) == o && o'.ctl == Some(c.(queue := c.queue + [env]));
  }

  lemma ArriveDispatched(cfg: Config, id: ObjectID, o: Obj, env: Envelope, inst: string, now: nat)
    requires Inv(cfg, id, o) && o.up && o.ctl.Some? && !o.ctl.value.deleted
    requires env.objectID == id && (env.kind == TaskUpdate || env.kind == TaskRemove)
    requires o.ctl.value.head.None? && Ready(o.ctl.value)
    ensures Inv(cfg, id, Arrive(cfg, o, env, inst, now))
  {
    var c, cs := o.ctl.value, Confirmed(o.log, o.tok);
    var c' := c.(head := Some(env));
    var out := if env.kind == TaskUpdate then DispatchPosition(cfg, c', env, now) else DispatchRemove(cfg, c', env, now);
    DispatchStage(cfg, id, c', out, now, cs, o.tree);
    hide Handled, Handled', StateOK, Succeeds, MsgOK, Stage;
    var o' := Arrive(cfg, o, env, inst, now);
    assert o'.ctl == Some(out.ctl) && Confirmed(o'.log, o'.tok) == cs;
  }

  lemma QueueMore(cfg: Config, id: ObjectID, c: Ctl, env: Envelope, tok: Option<Token>, b: Option<StateRecord>, tree: map<Region, Item>)
    requires MailboxOK(id, c) && Stage(cfg, id, c, tok, b, tree) && c.head.Some?
    requires env.objectID == id && (env.kind == TaskUpdate || env.kind == TaskRemove)
    ensures MailboxOK(id, c.(queue := c.queue + [env]))
    ensures Stage(cfg, id, c.(queue := c.queue + [env]), tok, b, tree)
  {
    hide EnvelopeOK, StateOK;
    match tok {
      case Some(TaskTok(t)) =>
      case Some(ResTok(res)) =>
      case _ =>
    }
  }

  lemma OnlyTheBookChanged(cfg: Config, id: ObjectID, o: Obj, o': Obj)
    requires Inv(cfg, id, o) && o'.(book := o.book, prev := o.prev) == o && (!o.up ==> o'.prev == o.prev)
    ensures Inv(cfg, id, o')
  {
    hide Stage, NumberOK, MailboxOK, LogOK, ChainOK, StoredOK;
  }

  lemma ArriveKeeps(cfg: Config, id: ObjectID, o: Obj, env: Envelope, inst: string, now: nat)
    requires Inv(cfg, id, o) && Enabled(id, o, LArrive(env, inst, now))
    ensures Inv(cfg, id, Arrive(cfg, o, env, inst, now))
  {
    hide Inv, Handled, Handled';
    if env.kind == TaskRegister && o.ctl.None? {
      ArriveRegister(cfg, id, o, env, inst, now);
    } else if env.kind != TaskRegister && o.ctl.Some? {
      ArriveCommand(cfg, id, o, env, inst, now);
    } else {
      OnlyTheBookChanged(cfg, id, o, Arrive(cfg, o, env, inst, now));
    }
  }

  // ---- the workers ----------------------------------------------------------------------------

  /** The worker never rejects: the object is published where its task expects it. */
  lemma WorkFits(cfg: Config, id: ObjectID, c: Ctl, t: WorkerTask, cs: seq<StateRecord>, tree: map<Region, Item>,
                 prev: map<Region, set<AreaID>>, ch: Choice)
    requires NumberOK(c, cs) && MailboxOK(id, c) && Stage(cfg, id, c, Some(TaskTok(t)), Last(cs), tree)
    requires ValidChoice(t, prev, ch) && ChainOK(cfg, id, cs)
    ensures var w := Process(Some(c), t, tree, ch);
            && !w.res.rejected && w.ctl.Some?
            && w.ctl.value == c.(pub := w.ctl.value.pub, deleted := w.ctl.value.deleted)
            && ResultFits(cfg, id, w.ctl.value, w.res, Last(cs), w.tree)
  {
    var b := Last(cs);
    var w := Process(Some(c), t, tree, ch);
    assert TaskFits(cfg, c.(route := RegionOf(c, b)), c, t);
    assert StateOK(cfg, id, cs[|cs| - 1]);
    if t.kind == TaskTransition {
      assert t.oldRegion.value in tree;
      assert w.tree == map[t.region := Item(t.pos, t.dims)];
    }
  }

  lemma WorkKeeps(cfg: Config, id: ObjectID, o: Obj, ch: Choice)
    requires Inv(cfg, id, o) && Enabled(id, o, LWork(ch))
    ensures Inv(cfg, id, Work(o, ch))
  {
    var c, cs := o.ctl.value, Confirmed(o.log, o.tok);
    var t := o.tok.value.task;
    WorkFits(cfg, id, c, t, cs, o.tree, o.prev, ch);
    var o' := Work(o, ch);
    assert Confirmed(o'.log, o'.tok) == cs;
  }

  /** An accepted result is turned into a commit that carries the state published in memory. */
  lemma ResultSubmits(cfg: Config, id: ObjectID, c: Ctl, res: WorkerResult, cs: seq<StateRecord>,
                      tree: map<Region, Item>, now: nat)
    requires c.head.Some? && Ready(c) && c.lastCommitSeq > 0 && NumberOK(c, cs) && MailboxOK(id, c)
    requires ResultFits(cfg, id, c, res, Last(cs), tree)
    ensures var out := OnResult(cfg, c, res, now);
            && Submitted(c, ResultInput(c, c.head.value, res), ResultMutation(cfg, c.head.value, res), now, out)
            && Submitting(cfg, id, out.ctl, out.send.value.env, Last(cs), tree)
  {
    hide RepairKnown;
    var head := c.head.value;
    var input, mutation := ResultInput(c, head, res), ResultMutation(cfg, head, res);
    assert BuildCommitMsgs(input, now).Ok?;
    var out := OnResult(cfg, c, res, now);
    assert Submitted(c, input, mutation, now, out);
    BuiltEnvelope(id, c, head, input, mutation, now, out.send.value.env);
    hide EnvelopeOK;
    assert CommitFollows(cfg, id, out.ctl, StateOf(out.send.value.env.commit).value, Last(cs), tree);
  }

  lemma TakeResultKeeps(cfg: Config, id: ObjectID, o: Obj, now: nat)
    requires Inv(cfg, id, o) && Enabled(id, o, LTakeResult(now))
    ensures Inv(cfg, id, TakeResult(cfg, o, now))
  {
    hide Succeeds, StateOK, MsgOK, ResultFits, Submitting;
    ResultSubmits(cfg, id, o.ctl.value, o.tok.value.res, Confirmed(o.log, o.tok), o.tree, now);
    var o' := TakeResult(cfg, o, now);
    assert Confirmed(o'.log, o'.tok) == Confirmed(o.log, o.tok);
  }

  // ---- the publisher --------------------------------------------------------------------------

  lemma LogOKSnoc(id: ObjectID, log: seq<Msg>, m: Msg)
    requires LogOK(id, log) && MsgOK(id, m)
    ensures LogOK(id, log + [m])
  {
    forall x | x in log + [m] ensures MsgOK(id, x) {
      if x in log { assert MsgOK(id, x); }
    }
  }

  lemma NotACommit(id: ObjectID, m: Msg)
    requires GeofenceMsgOK(id, m)
    ensures !IsCommit(m)
  {}

  /** A projection stored again or for the first time leaves the commits alone. */
  lemma AppendProjection(cfg: Config, id: ObjectID, log: seq<Msg>, m: Msg)
    requires LogOK(id, log) && GeofenceMsgOK(id, m)
    ensures LogOK(id, log + [m])
    ensures Commits(log + [m]) == Commits(log) && CommitIDs(log + [m]) == CommitIDs(log)
    ensures LastCommit(log + [m]) == LastCommit(log)
  {
    NotACommit(id, m);
    LogOKSnoc(id, log, m);
    CommitsSnoc(log, m);
    LastCommitSnoc(log, m);
  }

  /** The number after the last one is new. */
  lemma NextNumberIsNew(cfg: Config, id: ObjectID, cs: seq<StateRecord>, c: Ctl)
    requires ChainOK(cfg, id, cs) && NumberOK(c, cs)
    ensures !Listed(cs, c.instanceID, c.lastCommitSeq + 1)
  {
    if Listed(cs, c.instanceID, c.lastCommitSeq + 1) {
      var k :| 0 <= k < |cs| && cs[k].instanceID == c.instanceID && cs[k].commitSeq == c.lastCommitSeq + 1;
      if c.lastCommitSeq > 0 { NumbersBelowLast(cfg, id, cs, k); }
    }
  }

  /** The commit message reaches the log for the first time. */
  lemma AppendCommit(cfg: Config, id: ObjectID, log: seq<Msg>, c: Ctl, env: CommitEnvelope, tree: map<Region, Item>)
    requires LogOK(id, log) && ChainOK(cfg, id, Commits(log)) && NumberOK(c, Commits(log))
    requires Submitting(cfg, id, c, env, Last(Commits(log)), tree)
    ensures env.commit.data.e !in CommitIDs(log) && StateOf(env.commit).Some?
    ensures var log' := log + [env.commit];
            && LogOK(id, log') && ChainOK(cfg, id, Commits(log'))
            && Commits(log') == Commits(log) + [StateOf(env.commit).value]
            && LastCommit(log') == Some(env.commit) && env.commit.data.e in CommitIDs(log')
  {
    hide RepairKnown;
    var cs, st := Commits(log), StateOf(env.commit).value;
    NextNumberIsNew(cfg, id, cs, c);
    NewNumberNewID(id, log, env.commit);
    LogOKSnoc(id, log, env.commit);
    CommitsSnoc(log, env.commit);
    LastCommitSnoc(log, env.commit);
    assert Succeeds(cs + [st], |cs|);
    ChainSnoc(cfg, id, cs, st);
  }

  lemma AppendCommitAgain(cfg: Config, id: ObjectID, log: seq<Msg>, m: Msg)
    requires LogOK(id, log) && CommitMsgOK(id, m)
    requires LastCommit(log) == Some(m) && m.data.e in CommitIDs(log)
    ensures var log' := log + [m];
            && LogOK(id, log') && Commits(log') == Commits(log) && CommitIDs(log') == CommitIDs(log)
            && LastCommit(log') == Some(m)
  {
    LogOKSnoc(id, log, m);
    CommitsSnoc(log, m);
    LastCommitSnoc(log, m);
  }

  lemma LastOnSubjectOf(log: seq<Msg>, subject: Subject)
    requires LastOnSubject(log, subject).Some?
    ensures LastOnSubject(log, subject).value in log && LastOnSubject(log, subject).value.subject == subject
  {}

  lemma NotLastOnSubject(id: ObjectID, log: seq<Msg>, m: Msg)
    requires LogOK(id, log) && CommitMsgOK(id, m) && m.data.e !in CommitIDs(log)
    ensures LastOnSubject(log, m.subject).Some? ==> LastOnSubject(log, m.subject).value.data.e != m.data.e
  {
    hide RepairKnown;
    var last := LastOnSubject(log, m.subject);
    if last.Some? {
      LastOnSubjectOf(log, m.subject);
      assert MsgOK(id, last.value);
      assert !GeofenceMsgOK(id, last.value);
      assert last.value.data.e in CommitIDs(log);
    }
  }

  /** A commit is never taken for confirmed before it is stored. */
  lemma ConfirmedMeansStored(id: ObjectID, log: seq<Msg>, m: Msg, out: Outcome)
    requires LogOK(id, log) && CommitMsgOK(id, m) && m.data.e !in CommitIDs(log)
    requires ValidOutcome(out) && Confirms(log, m, out)
    ensures out.stored
  {
    if !out.stored { NotLastOnSubject(id, log, m); }
  }

  /** When an attempt is taken for a success: it was acknowledged, or the read-back worked and the last message
      on the subject is this event; so a message that was stored is confirmed once either works. */
  lemma ConfirmsExactly(log: seq<Msg>, m: Msg, out: Outcome)
    ensures Confirms(log, m, out) <==>
            out.acked || (out.readable && var after := if out.stored then log + [m] else log;
                          exists i :: IsLastOf(after, i) && after[i].subject == m.subject && after[i].data.e == m.data.e)
    ensures out.stored && (out.acked || out.readable) ==> Confirms(log, m, out)
  {
    var after := LogAfter(log, m, out);
    if out.stored { assert IsLastOf(after, |log|) && after[|log|] == m; }
    var last := LastOnSubject(after, m.subject);
    if last.Some? {
      LastOnSubjectOf(after, m.subject);
      LastOnSubjectExactly(after, last.value, m.subject);
    }
    if i :| IsLastOf(after, i) && after[i].subject == m.subject && after[i].data.e == m.data.e {
      LastOnSubjectExactly(after, after[i], m.subject);
    }
  }

  lemma SubmittingMessages(cfg: Config, id: ObjectID, c: Ctl, env: CommitEnvelope, b: Option<StateRecord>, tree: map<Region, Item>)
    requires Submitting(cfg, id, c, env, b, tree)
    ensures CommitMsgOK(id, env.commit)
    ensures forall k {:trigger env.projections[k]} :: 0 <= k < |env.projections| ==> GeofenceMsgOK(id, env.projections[k])
  {}

  lemma AttemptCommit(cfg: Config, id: ObjectID, o: Obj, out: Outcome)
    requires Inv(cfg, id, o) && Enabled(id, o, LAttempt(out)) && !o.tok.value.job.confirmed
    ensures Inv(cfg, id, Attempt(o, out))
    ensures Confirmed(Attempt(o, out).log, Attempt(o, out).tok) == Confirmed(o.log, o.tok)
  {
    hide CommitMsgOK, MsgOK, Succeeds, StateOK, LogOK, ChainOK, NumberOK, MailboxOK, Submitting, Confirms;
    hide Commits, CommitIDs, LastCommit, IsCommit, StateOf;
    var c, cs, job := o.ctl.value, Confirmed(o.log, o.tok), o.tok.value.job;
    var env, o' := job.env, Attempt(o, out);
    SubmittingMessages(cfg, id, c, env, Last(cs), o.tree);
    if job.reach == 0 {
      if Confirms(o.log, env.commit, out) || out.stored {
        AppendCommit(cfg, id, o.log, c, env, o.tree);
        if !out.stored { ConfirmedMeansStored(id, o.log, env.commit, out); }
        assert Confirmed(o'.log, o'.tok) == cs;
      } else {
        assert o'.log == o.log && o'.tok == Some(JobTok(job.(next := 0)));
      }
    } else {
      AppendCommitAgain(cfg, id, o.log, env.commit);
      assert Confirmed(o'.log, o'.tok) == cs;
    }
  }

  lemma AttemptProjection(cfg: Config, id: ObjectID, o: Obj, out: Outcome)
    requires Inv(cfg, id, o) && Enabled(id, o, LAttempt(out)) && o.tok.value.job.confirmed
    ensures Inv(cfg, id, Attempt(o, out))
    ensures Confirmed(Attempt(o, out).log, Attempt(o, out).tok) == Confirmed(o.log, o.tok)
  {
    hide GeofenceMsgOK, CommitMsgOK, MsgOK, Succeeds, StateOK, LogOK, ChainOK, NumberOK, MailboxOK, Submitting, Confirms;
    hide Commits, CommitIDs, LastCommit, IsCommit, StateOf;
    var job := o.tok.value.job;
    var o' := Attempt(o, out);
    SubmittingMessages(cfg, id, o.ctl.value, job.env, Last(Confirmed(o.log, o.tok)), o.tree);
    AppendProjection(cfg, id, o.log, job.env.projections[job.next]);
    assert Confirmed(o'.log, o'.tok) == Confirmed(o.log, o.tok);
  }

  lemma AttemptSameCommits(cfg: Config, id: ObjectID, o: Obj, out: Outcome)
    requires Inv(cfg, id, o) && Enabled(id, o, LAttempt(out))
    requires Stored(Attempt(o, out).tok) == Stored(o.tok)
    ensures Commits(Attempt(o, out).log) == Commits(o.log)
  {
    hide LogOK, ChainOK, CommitMsgOK, GeofenceMsgOK, Submitting, Confirms, Commits, NumberOK, MailboxOK, StateOf;
    var job := o.tok.value.job;
    SubmittingMessages(cfg, id, o.ctl.value, job.env, Last(Confirmed(o.log, o.tok)), o.tree);
    if job.confirmed {
      AppendProjection(cfg, id, o.log, job.env.projections[job.next]);
    } else if Stored(o.tok) {
      AppendCommitAgain(cfg, id, o.log, job.env.commit);
    }
  }

  lemma StoredIsLast(cfg: Config, id: ObjectID, o: Obj)
    requires Inv(cfg, id, o) && Stored(o.tok)
    ensures var env := if o.tok.value.JobTok? then o.tok.value.job.env else o.tok.value.env;
            && StateOf(env.commit).Some? && LastCommit(o.log) == Some(env.commit)
            && Commits(o.log) == Confirmed(o.log, o.tok) + [StateOf(env.commit).value]
  {
    hide LogOK, ChainOK, EnvelopeOK, CommitFollows, Commits, NumberOK, MailboxOK, StateOf, CommitIDs;
  }

  lemma JobSubmitting(cfg: Config, id: ObjectID, o: Obj)
    requires Inv(cfg, id, o) && o.tok.Some? && o.tok.value.JobTok?
    ensures o.up && o.ctl.Some? && NumberOK(o.ctl.value, Confirmed(o.log, o.tok)) && JobOK(o.tok.value.job)
    ensures Submitting(cfg, id, o.ctl.value, o.tok.value.job.env, Last(Confirmed(o.log, o.tok)), o.tree)
  {
    hide LogOK, ChainOK, Submitting, Commits, NumberOK, MailboxOK, StoredOK;
  }

  /** What an attempt does to the commits: nothing, or the commit of the job is added. */
  lemma AttemptEffect(cfg: Config, id: ObjectID, o: Obj, out: Outcome)
    requires Inv(cfg, id, o) && Enabled(id, o, LAttempt(out))
    ensures var o', env := Attempt(o, out), o.tok.value.job.env;
            && Inv(cfg, id, o') && Confirmed(o'.log, o'.tok) == Confirmed(o.log, o.tok)
            && (Commits(o'.log) == Commits(o.log) ||
                (StateOf(env.commit).Some? && Commits(o'.log) == Confirmed(o.log, o.tok) + [StateOf(env.commit).value]))
  {
    hide LogOK, ChainOK, NumberOK, MailboxOK, Submitting, Commits, Confirms, StateOf, StoredOK, Confirmed;
    if o.tok.value.job.confirmed { AttemptProjection(cfg, id, o, out); } else { AttemptCommit(cfg, id, o, out); }
    if Stored(Attempt(o, out).tok) && !Stored(o.tok) {
      StoredIsLast(cfg, id, Attempt(o, out));
    } else {
      AttemptSameCommits(cfg, id, o, out);
    }
  }

  lemma EndJobKeeps(cfg: Config, id: ObjectID, o: Obj)
    requires Inv(cfg, id, o) && Enabled(id, o, LEndJob)
    ensures Inv(cfg, id, EndJob(o))
  {
    hide LogOK, ChainOK, NumberOK, MailboxOK, Submitting, AtRest, ResultFits, TaskFits, Commits, CommitIDs, LastCommit;
    assert Confirmed(EndJob(o).log, EndJob(o).tok) == Confirmed(o.log, o.tok);
  }

  lemma StartJobKeeps(cfg: Config, id: ObjectID, o: Obj)
    requires Inv(cfg, id, o) && Enabled(id, o, LStartJob)
    ensures Inv(cfg, id, StartJob(o))
  {
    hide LogOK, ChainOK, NumberOK, MailboxOK, Submitting, AtRest, ResultFits, TaskFits, Commits, CommitIDs, LastCommit;
    assert Confirmed(StartJob(o).log, StartJob(o).tok) == Confirmed(o.log, o.tok);
  }

  // ---- the commit result ------------------------------------------------------------------------

  /** The control block once the commit is confirmed, before the next command is looked at. */
  function Relieved(c: Ctl, env: CommitEnvelope): Ctl {
    c.(committing := false, commitEnvelope := None, head := None, lastCommitSeq := env.commitSeq)
  }

  lemma RelievedIsAtRest(cfg: Config, id: ObjectID, o: Obj)
    requires Inv(cfg, id, o) && o.tok.Some? && o.tok.value.DoneTok? && o.ctl.value.head.value.kind != TaskRemove
    ensures var c, all := Relieved(o.ctl.value, o.tok.value.env), Commits(o.log);
            && all == Confirmed(o.log, o.tok) + [StateOf(o.tok.value.env.commit).value]
            && AtRest(c, Last(all), o.tree) && c.route == RegionOf(c, Last(all))
            && NumberOK(c, all) && CommandsOK(id, c)
  {
    hide LogOK, ChainOK, CommitMsgOK, GeofenceMsgOK, StateOK, Commits, StateOf;
    StoredIsLast(cfg, id, o);
    DoneFollows(cfg, id, o);
    assert Last(Commits(o.log)) == StateOf(o.tok.value.env.commit);
  }

  lemma DoneFollows(cfg: Config, id: ObjectID, o: Obj)
    requires Inv(cfg, id, o) && o.tok.Some? && o.tok.value.DoneTok?
    ensures o.ctl.Some? && NumberOK(o.ctl.value, Confirmed(o.log, o.tok)) && MailboxOK(id, o.ctl.value)
    ensures Submitting(cfg, id, o.ctl.value, o.tok.value.env, Last(Confirmed(o.log, o.tok)), o.tree)
  {
    hide LogOK, ChainOK, Submitting, Commits, NumberOK, MailboxOK, StoredOK;
  }

  lemma TakeCommitShape(cfg: Config, id: ObjectID, o: Obj, now: nat)
    requires Inv(cfg, id, o) && Enabled(id, o, LTakeCommit(now))
    ensures o.ctl.Some? && o.ctl.value.head.Some?
    ensures var o', c, env := TakeCommit(cfg, o, now), o.ctl.value, o.tok.value.env;
            && Submitting(cfg, id, c, env, Last(Confirmed(o.log, o.tok)), o.tree)
            && Commits(o.log) == Confirmed(o.log, o.tok) + [StateOf(env.commit).value]
            && o'.prev == ApplyMutation(o.prev, env.mutation)
            && if c.head.value.kind == TaskRemove
               then o'.ctl.None? && o'.tok.None? && o'.left == o.left && o'.tree == map[] && Gone(Last(Commits(o.log)))
               else
                 var out := DispatchNext(cfg, Relieved(c, env), now);
                 o'.ctl == Some(out.ctl) && o'.tok == TokenOf(out.send) && o'.left == o.left + LeftBy(out.send)
  {
    hide LogOK, ChainOK, EnvelopeOK, Commits, NumberOK, MailboxOK, Handled, Handled';
    assert StoredOK(o.log, o.tok);
    var c, env := o.ctl.value, o.tok.value.env;
    assert c.head.value.kind != TaskRemove ==>
      Relieved(c, env) == c.(committing := false, commitEnvelope := None, head := None).(lastCommitSeq := env.commitSeq);
  }

  lemma TakeCommitKeeps(cfg: Config, id: ObjectID, o: Obj, now: nat)
    requires Inv(cfg, id, o) && Enabled(id, o, LTakeCommit(now))
    ensures Inv(cfg, id, TakeCommit(cfg, o, now))
  {
    hide LogOK, ChainOK, EnvelopeOK, CommitFollows, Commits, NumberOK, Handled, Handled', DispatchNext, AtRest;
    var c, env, all := o.ctl.value, o.tok.value.env, Commits(o.log);
    TakeCommitShape(cfg, id, o, now);
    if c.head.value.kind != TaskRemove {
      RelievedIsAtRest(cfg, id, o);
      DispatchStage(cfg, id, Relieved(c, env), DispatchNext(cfg, Relieved(c, env), now), now, all, o.tree);
    }
    hide Stage, MailboxOK;
    var o' := TakeCommit(cfg, o, now);
    assert Confirmed(o'.log, o'.tok) == all;
  }

  // ---- the rest ---------------------------------------------------------------------------------

  lemma RepairKeeps(cfg: Config, id: ObjectID, o: Obj, m: Msg, now: nat)
    requires Inv(cfg, id, o) && Enabled(id, o, LRepair(m, now))
    ensures GeofenceMsgOK(id, m)
    ensures Inv(cfg, id, Repair(o, m))
  {
    var c := LastCommit(o.log).value;
    assert MsgOK(id, c);
    assert CommitMsgOK(id, c) && RepairYields(c, now);
    AppendProjection(cfg, id, o.log, m);
  }

  lemma BootKeeps(cfg: Config, id: ObjectID, o: Obj)
    requires Inv(cfg, id, o) && Enabled(id, o, LBoot)
    ensures Inv(cfg, id, Boot(cfg, o))
  {
    hide LogOK, Succeeds, Commits;
    var cs, o' := Commits(o.log), Boot(cfg, o);
    if LastCommit(o.log).Some? {
      assert StateOK(cfg, id, cs[|cs| - 1]);
    }
  }

  /** Main lemma: the invariant is kept by every step. */
  lemma StepKeeps(cfg: Config, id: ObjectID, o: Obj, l: Label)
    requires Inv(cfg, id, o) && Enabled(id, o, l)
    ensures Inv(cfg, id, Step(cfg, id, o, l))
  {
    hide Handled, Handled', Stage, NumberOK, MailboxOK, LogOK, ChainOK, StoredOK;
    match l
    case LArrive(env, inst, now) => ArriveKeeps(cfg, id, o, env, inst, now);
    case LWork(ch) => WorkKeeps(cfg, id, o, ch);
    case LTakeResult(now) => TakeResultKeeps(cfg, id, o, now);
    case LStartJob => StartJobKeeps(cfg, id, o);
    case LAttempt(out) =>
      if o.tok.value.job.confirmed { AttemptProjection(cfg, id, o, out); } else { AttemptCommit(cfg, id, o, out); }
    case LEndJob => EndJobKeeps(cfg, id, o);
    case LTakeCommit(now) => TakeCommitKeeps(cfg, id, o, now);
    case LForgetArea(r, a) => OnlyTheBookChanged(cfg, id, o, ForgetArea(o, r, a));
    case LCrash =>
    case LRepair(m, now) => RepairKeeps(cfg, id, o, m, now);
    case LBoot => BootKeeps(cfg, id, o);
  }
}
