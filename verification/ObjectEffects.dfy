/** What the messages say.  In every run the commit made for a command carries what the command asked for, a
    removal carries the position and region of the commit before it, and every stored enter or exit, published
    or repaired, carries the position, region, dimensions and inside list of its commit. */
module ObjectEffects {
  import opened Domain
  import opened Events
  import opened EventLog
  import opened Mailbox
  import opened ObjectMachine
  import opened ObjectInvariant
  import opened ObjectSteps
  import opened ObjectLog
  import opened ObjectAnswers
  import opened ObjectRuns

  // ---- true messages ----------------------------------------------------------------------------------------

  function Areas(ts: seq<Transition>): seq<AreaID> { seq(|ts|, i requires 0 <= i < |ts| => ts[i].area) }

  predicate OnlyExits(ts: seq<Transition>) { forall k :: 0 <= k < |ts| ==> !ts[k].entered }

  /** First exits, up to x, then enters, up to y, then exits again. */
  predicate Parts(ts: seq<Transition>, x: nat, y: nat) {
    && x <= y <= |ts| && (forall k :: 0 <= k < x ==> !ts[k].entered)
    && (forall k :: x <= k < y ==> ts[k].entered) && forall k :: y <= k < |ts| ==> !ts[k].entered
  }

  /** What is entered comes before what is left, and on a move what the old region held before both. */
  ghost predicate InOrder(ts: seq<Transition>, moved: bool) {
    exists x: nat, y: nat :: Parts(ts, x, y) && (moved || x == 0)
  }

  /** The state before is in another region. */
  predicate Moved(b: Option<StateRecord>, r: Option<Region>) { b.Some? && b.value.region.Some? && b.value.region != r }

  /** A commit message that says what its state says; a removal also what the state before it says. */
  ghost predicate CommitTrue(b: Option<StateRecord>, m: Msg)
    requires IsCommit(m)
  {
    var st, d := StateOf(m).value, m.data;
    && d.r == st.region && d.d == st.dims && d.g == None
    && match st.lifecycle
       case Active =>
         && m.subject == (if st.position.Some? then PositionUpdated(d.o) else ObjectRegistered(d.o))
         && d.p == st.position && d.a == st.insideAreaIDs && d.pb == None
         && InOrder(st.transitions, Moved(b, st.region))
       case Removed =>
         && m.subject == ObjectRemoved(d.o) && b.Some? && d.pb == b.value.position && d.r == b.value.region
         && d.p == None && OnlyExits(st.transitions) && d.a == Areas(st.transitions)
       case Unknown => false
  }

  /** A projection that says of its transition what the commit says; for a removal, where the object last was. */
  ghost predicate ProjectionTrue(cm: Msg, m: Msg, tr: Transition)
    requires IsCommit(cm)
  {
    var st, d := StateOf(cm).value, m.data;
    && m.subject == (if tr.entered then GeofenceEntered(cm.data.o, tr.area) else GeofenceExited(cm.data.o, tr.area))
    && d.e == (if tr.entered then EnterID(tr.area, cm.data.o, cm.data.i, cm.data.s) else ExitID(tr.area, cm.data.o, cm.data.i, cm.data.s))
    && d.o == cm.data.o && d.i == cm.data.i && d.s == cm.data.s && d.g == Some(tr.area)
    && d.p.Some? && d.p == (if st.lifecycle == Removed then cm.data.pb else cm.data.p)
    && d.r == cm.data.r && d.d == cm.data.d && d.a == st.insideAreaIDs && d.pb == None && d.cp == None
  }

  /** The message is the projection of some transition of the commit. */
  ghost predicate Projects(cm: Msg, m: Msg)
    requires IsCommit(cm)
  {
    exists k :: 0 <= k < |StateOf(cm).value.transitions| && ProjectionTrue(cm, m, StateOf(cm).value.transitions[k])
  }

  ghost predicate CommitAt(cs: seq<StateRecord>, k: nat, m: Msg)
    requires IsCommit(m)
  {
    k < |cs| && cs[k] == StateOf(m).value && CommitTrue(if k == 0 then None else Some(cs[k - 1]), m)
  }

  ghost predicate MsgTrue(log: seq<Msg>, m: Msg) {
    if IsCommit(m) then exists k :: CommitAt(Commits(log), k, m)
    else exists cm :: cm in log && IsCommit(cm) && Projects(cm, m)
  }

  ghost predicate LogTrue(log: seq<Msg>) { forall m {:trigger MsgTrue(log, m)} :: m in log ==> MsgTrue(log, m) }

  // ---- what a command asked for ------------------------------------------------------------------------------

  /** The state to be committed for a command, after the confirmed state b. */
  ghost predicate Asked(cfg: Config, head: Envelope, b: Option<StateRecord>, st: StateRecord) {
    match head.kind
    case TaskRegister => st.lifecycle == Active && st.position == None && st.region == None && st.dims == head.dims
    case TaskUpdate =>
      st.lifecycle == Active && st.position == Some(head.pos) && b.Some?
      && st.region.Some? && st.region == cfg.resolve(head.pos, b.value.region)
    case TaskRemove => st.lifecycle == Removed && b.Some? && b.value.lifecycle == Active
    case _ => false
  }

  /** The commit and its projections are true, carry the command's client operation and are what it asked for. */
  ghost predicate EnvTrue(cfg: Config, head: Envelope, b: Option<StateRecord>, env: CommitEnvelope) {
    && IsCommit(env.commit) && CommitTrue(b, env.commit) && Asked(cfg, head, b, StateOf(env.commit).value)
    && env.commit.data.c == head.clientOpID
    && |env.projections| == |StateOf(env.commit).value.transitions|
    && forall k {:trigger env.projections[k]} :: 0 <= k < |env.projections| ==>
         && ProjectionTrue(env.commit, env.projections[k], StateOf(env.commit).value.transitions[k])
         && env.projections[k].data.c == head.clientOpID
  }

  ghost predicate ResTrue(cfg: Config, head: Envelope, b: Option<StateRecord>, res: WorkerResult) {
    && res.clientOpID == head.clientOpID && b.Some?
    && if head.kind == TaskRemove then b.value.position == Some(res.pos) && OnlyExits(res.transitions)
       else
         && res.pos == head.pos && cfg.resolve(head.pos, b.value.region) == Some(res.newRegion)
         && InOrder(res.transitions, Moved(b, Some(res.newRegion)))
  }

  ghost predicate TokTrue(cfg: Config, head: Envelope, b: Option<StateRecord>, tok: Option<Token>) {
    match tok
    case Some(ResTok(res)) => ResTrue(cfg, head, b, res)
    case Some(CommitTok(env)) => EnvTrue(cfg, head, b, env)
    case Some(JobTok(job)) => EnvTrue(cfg, head, b, job.env)
    case Some(DoneTok(env)) => EnvTrue(cfg, head, b, env)
    case _ => true
  }

  ghost predicate FlightTrue(cfg: Config, o: Obj) {
    o.ctl.Some? && o.ctl.value.head.Some? ==> TokTrue(cfg, o.ctl.value.head.value, Last(Confirmed(o.log, o.tok)), o.tok)
  }

  ghost predicate EffInv(cfg: Config, o: Obj) { LogTrue(o.log) && FlightTrue(cfg, o) }

  // ---- what the builder writes ---------------------------------------------------------------------------------

  lemma ExitAreas(ts: seq<Transition>)
    requires OnlyExits(ts)
    ensures RemovedInsideAreas(ts) == Areas(ts)
  {
    if ts != [] {
      assert forall k :: 0 <= k < |ts| - 1 ==> !ts[1..][k].entered;
      ExitAreas(ts[1..]);
      assert Areas(ts) == [ts[0].area] + Areas(ts[1..]);
    }
  }

  /** The commit message, field by field. */
  lemma BuiltCommit(input: CommitInput, now: nat)
    requires BuildCommitMsgs(input, now).Ok? && Repairable(input)
    requires input.lifecycle == Removed ==> !input.hasPosition && OnlyExits(input.transitions)
    requires input.lifecycle == Active && !input.hasPosition ==> input.insideAreaIDs == []
    ensures var m, pos := BuildCommitMsgs(input, now).value.commit, if input.hasPosition then Some(input.position) else None;
            && IsCommit(m) && StateOf(m).value == Kept(BuildCheckpointState(input, now))
            && m.data.o == input.objectID && m.data.i == input.instanceID && m.data.s == input.commitSeq
            && m.data.t == now && m.data.c == input.clientOpID && m.data.r == input.region && m.data.d == input.dims && m.data.g == None
            && match input.lifecycle
               case Active =>
                 && m.subject == (if input.hasPosition then PositionUpdated(input.objectID) else ObjectRegistered(input.objectID))
                 && m.data.p == pos && m.data.a == input.insideAreaIDs && m.data.pb == None
               case Removed =>
                 && m.subject == ObjectRemoved(input.objectID) && m.data.p == None && m.data.a == Areas(input.transitions)
                 && m.data.pb == (if input.projectionPositionKnown then Some(input.position) else None)
               case Unknown => false
  {
    CheckpointRoundTrip(input, now);
    if input.lifecycle == Removed { ExitAreas(input.transitions); }
  }

  lemma BuiltProjections(input: CommitInput, now: nat, k: nat)
    requires BuildCommitMsgs(input, now).Ok? && Repairable(input) && k < |input.transitions|
    requires input.lifecycle == Removed ==> !input.hasPosition && OnlyExits(input.transitions)
    requires input.lifecycle == Active && !input.hasPosition ==> input.insideAreaIDs == []
    ensures var msgs := BuildCommitMsgs(input, now).value;
            && IsCommit(msgs.commit) && |msgs.projections| == |input.transitions|
            && ProjectionTrue(msgs.commit, msgs.projections[k], input.transitions[k])
            && msgs.projections[k].data.c == input.clientOpID && msgs.projections[k].data.t == now
  {
    BuiltCommit(input, now);
    BuilderOutput(input, now);
    hide BuildCommitMsgs, StateOf;
  }

  lemma BuilderOutput(input: CommitInput, now: nat)
    requires BuildCommitMsgs(input, now).Ok?
    ensures BuildCommitMsgs(input, now).value.projections == ProjectionMsgs(input, now)
    ensures input.transitions != [] ==> input.projectionPositionKnown
    ensures input.lifecycle != Unknown
  {}

  /** Everything a submitted commit needs, from its input. */
  lemma BuiltTrue(cfg: Config, c: Ctl, head: Envelope, b: Option<StateRecord>, input: CommitInput, mutation: Mutation,
                  now: nat, env: CommitEnvelope)
    requires CommitFits(c, head, input, mutation, now, env) && Repairable(input)
    requires input.lifecycle == Removed ==>
               && !input.hasPosition && OnlyExits(input.transitions) && b.Some? && input.region == b.value.region
               && b.value.position == (if input.projectionPositionKnown then Some(input.position) else None)
    requires input.lifecycle == Active && !input.hasPosition ==> input.insideAreaIDs == []
    requires input.lifecycle == Active ==> InOrder(input.transitions, Moved(b, input.region))
    requires Asked(cfg, head, b, Kept(BuildCheckpointState(input, now))) && input.clientOpID == head.clientOpID
    ensures EnvTrue(cfg, head, b, env)
  {
    BuiltCommit(input, now);
    BuilderOutput(input, now);
    forall k | 0 <= k < |env.projections|
      ensures ProjectionTrue(env.commit, env.projections[k], input.transitions[k]) && env.projections[k].data.c == head.clientOpID
    {
      BuiltProjections(input, now, k);
    }
    hide BuildCommitMsgs, StateOf, ProjectionTrue, InOrder;
  }

  /** A removal of an object without a position. */
  lemma BareRemovalTrue(cfg: Config, c: Ctl, head: Envelope, b: Option<StateRecord>, now: nat, env: CommitEnvelope)
    requires head.kind == TaskRemove && CommitFits(c, head, RemoveInput(c, head), PrevInsideNoop, now, env)
    requires b.Some? && b.value.region == None && b.value.position == None && b.value.lifecycle == Active
    ensures EnvTrue(cfg, head, b, env)
  {
    hide CommitFits, EnvTrue;
    BuiltTrue(cfg, c, head, b, RemoveInput(c, head), PrevInsideNoop, now, env);
  }

  lemma RegistrationTrue(cfg: Config, c: Ctl, head: Envelope, b: Option<StateRecord>, now: nat, env: CommitEnvelope)
    requires head.kind == TaskRegister && CommitFits(c, head, RegisterInput(c, head), PrevInsideNoop, now, env)
    ensures EnvTrue(cfg, head, b, env)
  {
    hide CommitFits, EnvTrue;
    assert Parts([], 0, 0);
    BuiltTrue(cfg, c, head, b, RegisterInput(c, head), PrevInsideNoop, now, env);
  }

  lemma ResultTrue(cfg: Config, id: ObjectID, c: Ctl, b: Option<StateRecord>, res: WorkerResult, tree: map<Region, Item>,
                   mutation: Mutation, now: nat, env: CommitEnvelope)
    requires c.head.Some? && ResTrue(cfg, c.head.value, b, res) && ResultFits(cfg, id, c, res, b, tree)
    requires b.Some? && b.value.lifecycle == Active && c.lastCommitSeq > 0
    requires c.head.value.kind == TaskUpdate || c.head.value.kind == TaskRemove
    requires CommitFits(c, c.head.value, ResultInput(c, c.head.value, res), mutation, now, env)
    ensures EnvTrue(cfg, c.head.value, b, env)
  {
    hide CommitFits, EnvTrue;
    BuiltTrue(cfg, c, c.head.value, b, ResultInput(c, c.head.value, res), mutation, now, env);
  }

  // ---- the log ------------------------------------------------------------------------------------------------

  lemma MsgStaysTrue(log: seq<Msg>, m: Msg, x: Msg)
    requires MsgTrue(log, x)
    ensures MsgTrue(log + [m], x)
  {
    CommitsSnoc(log, m);
    hide CommitTrue, StateOf, Commits, CommitIDs, Projects;
    if IsCommit(x) {
      var k :| CommitAt(Commits(log), k, x);
      assert CommitAt(Commits(log + [m]), k, x);
    } else {
      var cm :| cm in log && IsCommit(cm) && Projects(cm, x);
      assert cm in log + [m];
    }
  }

  lemma LogStaysTrue(log: seq<Msg>, m: Msg)
    requires LogTrue(log) && MsgTrue(log + [m], m)
    ensures LogTrue(log + [m])
  {
    hide MsgTrue;
    forall x | x in log + [m] ensures MsgTrue(log + [m], x) {
      if x in log { MsgStaysTrue(log, m, x); }
    }
  }

  /** A projection of a commit in the log may be added. */
  lemma AddProjection(id: ObjectID, log: seq<Msg>, cm: Msg, m: Msg)
    requires LogTrue(log) && cm in log && IsCommit(cm) && Projects(cm, m) && GeofenceMsgOK(id, m)
    ensures LogTrue(log + [m])
  {
    NotACommit(id, m);
    hide Projects, StateOf, LogTrue;
    assert cm in log + [m];
    LogStaysTrue(log, m);
  }

  /** A commit that is new, or is already in the log, may be added. */
  lemma AddCommit(log: seq<Msg>, m: Msg)
    requires LogTrue(log) && IsCommit(m)
    requires m in log || (m.data.e !in CommitIDs(log) && CommitTrue(Last(Commits(log)), m))
    ensures LogTrue(log + [m])
  {
    hide CommitTrue, StateOf, LogTrue, Commits, CommitIDs;
    if m in log {
      assert MsgTrue(log, m) by { TrueIn(log, m); }
      MsgStaysTrue(log, m, m);
    } else {
      CommitsSnoc(log, m);
      assert CommitAt(Commits(log + [m]), |Commits(log)|, m);
    }
    LogStaysTrue(log, m);
  }

  lemma TrueIn(log: seq<Msg>, m: Msg)
    requires LogTrue(log) && m in log
    ensures MsgTrue(log, m)
  {}

  /** What repair derives from a stored commit is a projection of it. */
  lemma RepairedProjects(b: Option<StateRecord>, cm: Msg, m: Msg, now: nat)
    requires IsCommit(cm) && CommitTrue(b, cm) && StateOf(cm).value.objectID == cm.data.o
    requires StateOf(cm).value.instanceID == cm.data.i && StateOf(cm).value.commitSeq == cm.data.s
    requires StateOf(cm).value.lifecycle == Removed ==> StateOf(cm).value.insideAreaIDs == []
    requires var expected := ExpectedProjectionMsgs(StateOf(cm).value, cm.data, now); expected.Ok? && m in expected.value
    ensures Projects(cm, m)
  {
    var st := StateOf(cm).value;
    var expected := ExpectedProjectionMsgs(st, cm.data, now).value;
    var k :| 0 <= k < |expected| && expected[k] == m;
    hide StateOf;
    assert ProjectionTrue(cm, m, st.transitions[k]);
  }
  // ---- steps --------------------------------------------------------------------------------------------------

  /** What a mailbox at rest dispatches next. */
  lemma DispatchTrue(cfg: Config, id: ObjectID, c: Ctl, out: Out, now: nat, cs: seq<StateRecord>, tree: map<Region, Item>)
    requires AtRest(c, Last(cs), tree) && c.route == RegionOf(c, Last(cs)) && ChainOK(cfg, id, cs)
    requires NumberOK(c, cs) && CommandsOK(id, c) && Handled(cfg, c, out, now)
    ensures out.ctl.head.Some? ==> TokTrue(cfg, out.ctl.head.value, Last(cs), TokenOf(out.send))
    ensures !Stored(TokenOf(out.send))
  {
    hide EnvTrue, CommitFits, Succeeds;
    assert StateOK(cfg, id, cs[|cs| - 1]);
    if out.send.Some? && out.send.value.SendCommit? {
      var head, env := out.ctl.head.value, out.send.value.env;
      assert CommitFits(c, head, RemoveInput(c, head), PrevInsideNoop, now, env);
      BareRemovalTrue(cfg, c, head, Last(cs), now, env);
    }
  }

  /** Only what is in flight and the log matter. */
  lemma SameFlight(cfg: Config, o: Obj, o': Obj)
    requires EffInv(cfg, o) && o'.log == o.log && o'.tok == o.tok
    requires o'.ctl.Some? && o'.ctl.value.head.Some? ==> o.ctl.Some? && o.ctl.value.head == o'.ctl.value.head
    ensures EffInv(cfg, o')
  {
    hide LogTrue, TokTrue, Confirmed;
  }

  lemma EffArriveDispatched(cfg: Config, id: ObjectID, o: Obj, env: Envelope, inst: string, now: nat)
    requires Inv(cfg, id, o) && EffInv(cfg, o) && o.up && o.ctl.Some? && !o.ctl.value.deleted
    requires env.objectID == id && (env.kind == TaskUpdate || env.kind == TaskRemove)
    requires o.ctl.value.head.None? && Ready(o.ctl.value)
    ensures EffInv(cfg, Arrive(cfg, o, env, inst, now))
  {
    hide LogTrue, TokTrue;
    var c, cs := o.ctl.value, Confirmed(o.log, o.tok);
    var c' := c.(head := Some(env));
    var out := if env.kind == TaskUpdate then DispatchPosition(cfg, c', env, now) else DispatchRemove(cfg, c', env, now);
    assert cs == Commits(o.log);
    DispatchTrue(cfg, id, c', out, now, cs, o.tree);
    hide Handled, Handled', StateOK, Succeeds, MsgOK, Stage;
    var o' := Arrive(cfg, o, env, inst, now);
    assert o'.ctl == Some(out.ctl) && Confirmed(o'.log, o'.tok) == cs && o'.log == o.log;
    assert o'.ctl.value.head.Some? ==> o'.tok == TokenOf(out.send);
  }

  lemma EffArriveRegister(cfg: Config, id: ObjectID, o: Obj, env: Envelope, inst: string, now: nat)
    requires Inv(cfg, id, o) && EffInv(cfg, o) && o.up && o.ctl.None?
    requires env.objectID == id && env.kind == TaskRegister && inst != ""
    ensures EffInv(cfg, Arrive(cfg, o, env, inst, now))
  {
    var c := NewCtl(env.dims).(instanceID := inst, head := Some(env));
    RegistrationFits(cfg, env, inst, now);
    hide LogTrue, SubmitNewRegister, CommitFits, EnvTrue, Inv, Confirmed;
    var out := SubmitNewRegister(cfg, c, env, now);
    var o' := Arrive(cfg, o, env, inst, now);
    RegistrationTrue(cfg, c, env, Last(Confirmed(o'.log, o'.tok)), now, out.send.value.env);
  }

  lemma RegistrationFits(cfg: Config, env: Envelope, inst: string, now: nat)
    requires env.kind == TaskRegister && inst != ""
    ensures var c := NewCtl(env.dims).(instanceID := inst, head := Some(env));
            var out := SubmitNewRegister(cfg, c, env, now);
            && out.send.Some? && out.send.value.SendCommit? && out.ctl.head == Some(env)
            && CommitFits(c, env, RegisterInput(c, env), PrevInsideNoop, now, out.send.value.env)
  {
    hide Handled;
    var c := NewCtl(env.dims).(instanceID := inst, head := Some(env));
    assert BuildCommitMsgs(RegisterInput(c, env), now).Ok?;
  }

  lemma EffArrive(cfg: Config, id: ObjectID, o: Obj, env: Envelope, inst: string, now: nat)
    requires Inv(cfg, id, o) && EffInv(cfg, o) && Enabled(id, o, LArrive(env, inst, now))
    ensures EffInv(cfg, Arrive(cfg, o, env, inst, now))
  {
    hide Inv, EffInv, Handled, Handled', SubmitNewRegister, DispatchPosition, DispatchRemove;
    if env.kind == TaskRegister && o.ctl.None? {
      EffArriveRegister(cfg, id, o, env, inst, now);
    } else if env.kind != TaskRegister && o.ctl.Some? && !o.ctl.value.deleted && !(o.ctl.value.head.Some? || o.ctl.value.committing) {
      EffArriveDispatched(cfg, id, o, env, inst, now);
    } else {
      SameFlight(cfg, o, Arrive(cfg, o, env, inst, now));
    }
  }

  lemma WorkTrue(cfg: Config, id: ObjectID, c: Ctl, t: WorkerTask, cs: seq<StateRecord>, tree: map<Region, Item>,
                 prev: map<Region, set<AreaID>>, ch: Choice)
    requires NumberOK(c, cs) && MailboxOK(id, c) && Stage(cfg, id, c, Some(TaskTok(t)), Last(cs), tree)
    requires ValidChoice(t, prev, ch) && ChainOK(cfg, id, cs)
    ensures ResTrue(cfg, c.head.value, Last(cs), Process(Some(c), t, tree, ch).res)
  {
    var b := Last(cs);
    assert TaskFits(cfg, c.(route := RegionOf(c, b)), c, t);
    assert StateOK(cfg, id, cs[|cs| - 1]);
    if t.kind == TaskRemove {
      assert t.region in tree && b.value.position == Some(tree[t.region].pos);
    } else if t.kind == TaskTransition {
      assert Parts(Marks(ch.oldExits, false) + (Marks(ch.enters, true) + Marks(ch.exits, false)), |ch.oldExits|, |ch.oldExits| + |ch.enters|);
    } else {
      assert Parts(Marks(ch.enters, true) + Marks(ch.exits, false), 0, |ch.enters|);
    }
  }

  lemma MarkedIn(ids: seq<AreaID>, entered: bool, a: AreaID, flag: bool)
    ensures Transition(a, flag) in Marks(ids, entered) <==> flag == entered && a in Elems(ids)
  {
    if flag == entered && a in ids {
      var k :| 0 <= k < |ids| && ids[k] == a;
      assert Marks(ids, entered)[k] == Transition(a, flag);
    }
  }

  /** What a worker reports in a reachable state, about the areas: the ones the geometry decided are inside; entered
      are those not in the stored snapshot, left those of it no longer inside, and on a move all of the old
      region's snapshot; a removal leaves all of its snapshot. */
  lemma WorkReports(cfg: Config, id: ObjectID, o: Obj, ch: Choice, a: AreaID)
    requires Inv(cfg, id, o) && Enabled(id, o, LWork(ch))
    ensures var t, res := o.tok.value.task, Process(o.ctl, o.tok.value.task, o.tree, ch).res;
            var before := Prev(o.prev, t.region);
            && res.objectID == id && !res.rejected
            && (t.kind != TaskRemove ==>
                  && Lists(res.insideAreaIDs, ch.cur) && res.currentInside == ch.cur
                  && (Transition(a, true) in res.transitions <==> a in ch.cur - before)
                  && (Transition(a, false) in res.transitions <==>
                        a in before - ch.cur || (t.kind == TaskTransition && a in Prev(o.prev, t.oldRegion.value))))
            && (t.kind == TaskRemove ==>
                  && res.insideAreaIDs == [] && res.currentInside == {}
                  && Transition(a, true) !in res.transitions && (Transition(a, false) in res.transitions <==> a in before))
  {
    var c, cs, t := o.ctl.value, Confirmed(o.log, o.tok), o.tok.value.task;
    WorkFits(cfg, id, c, t, cs, o.tree, o.prev, ch);
    TaskOfItsOwn(cfg, id, o);
    hide Inv, LogOK, ChainOK, ResultFits, Stage, NumberOK, MailboxOK;
    forall ids: seq<AreaID>, entered: bool, flag: bool ensures Transition(a, flag) in Marks(ids, entered) <==> flag == entered && a in Elems(ids) {
      MarkedIn(ids, entered, a, flag);
    }
  }

  lemma TaskOfItsOwn(cfg: Config, id: ObjectID, o: Obj)
    requires Inv(cfg, id, o) && o.tok.Some? && o.tok.value.TaskTok?
    ensures o.ctl.Some? && o.tok.value.task.id == id && o.tok.value.task.kind != TaskRegister
    ensures o.tok.value.task.kind == TaskTransition ==> o.tok.value.task.oldRegion.Some?
  {
    hide LogOK, ChainOK, NumberOK, StoredOK, AtRest;
  }

  lemma EffWork(cfg: Config, id: ObjectID, o: Obj, ch: Choice)
    requires Inv(cfg, id, o) && EffInv(cfg, o) && Enabled(id, o, LWork(ch))
    ensures EffInv(cfg, Work(o, ch))
  {
    hide LogTrue, ResTrue, LogOK, Succeeds, StateOK, Commits;
    var c, cs := o.ctl.value, Confirmed(o.log, o.tok);
    var t := o.tok.value.task;
    WorkFits(cfg, id, c, t, cs, o.tree, o.prev, ch);
    WorkTrue(cfg, id, c, t, cs, o.tree, o.prev, ch);
    hide Process, ResultFits, Stage, NumberOK, MailboxOK, ValidChoice;
    var o' := Work(o, ch);
    assert Confirmed(o'.log, o'.tok) == cs && o'.ctl.value.head == c.head;
  }

  lemma EffTakeResult(cfg: Config, id: ObjectID, o: Obj, now: nat)
    requires Inv(cfg, id, o) && EffInv(cfg, o) && Enabled(id, o, LTakeResult(now))
    ensures EffInv(cfg, TakeResult(cfg, o, now))
  {
    hide LogTrue, Succeeds, StateOK, MsgOK, ResultFits, Submitting, EnvTrue, ResTrue, CommitFits;
    var c, cs, res := o.ctl.value, Confirmed(o.log, o.tok), o.tok.value.res;
    ResultSubmits(cfg, id, c, res, cs, o.tree, now);
    var out := OnResult(cfg, c, res, now);
    ResultTrue(cfg, id, c, Last(cs), res, o.tree, ResultMutation(cfg, c.head.value, res), now, out.send.value.env);
    hide OnResult, NumberOK, MailboxOK, Stage, LogOK, ChainOK;
    var o' := TakeResult(cfg, o, now);
    assert Confirmed(o'.log, o'.tok) == cs && o'.ctl.value.head == c.head;
  }

  lemma EffTakeCommit(cfg: Config, id: ObjectID, o: Obj, now: nat)
    requires Inv(cfg, id, o) && EffInv(cfg, o) && Enabled(id, o, LTakeCommit(now))
    ensures EffInv(cfg, TakeCommit(cfg, o, now))
  {
    hide LogTrue, TokTrue, Submitting, NumberOK, LogOK, ChainOK, Commits, Handled, Handled', DispatchNext, AtRest, Present;
    TakeCommitShape(cfg, id, o, now);
    var o', c, env := TakeCommit(cfg, o, now), o.ctl.value, o.tok.value.env;
    assert o'.log == o.log;
    if c.head.value.kind != TaskRemove {
      RelievedIsAtRest(cfg, id, o);
      var out := DispatchNext(cfg, Relieved(c, env), now);
      DispatchTrue(cfg, id, Relieved(c, env), out, now, Commits(o.log), o.tree);
      assert Confirmed(o'.log, o'.tok) == Commits(o.log);
    }
  }

  // ---- publishing and repair ---------------------------------------------------------------------------------------

  lemma JobTrue(cfg: Config, id: ObjectID, o: Obj)
    requires Inv(cfg, id, o) && EffInv(cfg, o) && o.tok.Some? && o.tok.value.JobTok?
    ensures o.up && o.ctl.Some? && o.ctl.value.head.Some?
    ensures var env, b := o.tok.value.job.env, Last(Confirmed(o.log, o.tok));
            && EnvTrue(cfg, o.ctl.value.head.value, b, env)
            && (Stored(o.tok) ==> env.commit in o.log) && (o.tok.value.job.confirmed ==> Stored(o.tok))
            && (!Stored(o.tok) ==> env.commit.data.e !in CommitIDs(o.log) && b == Last(Commits(o.log)))
            && CommitMsgOK(id, env.commit)
            && forall k {:trigger env.projections[k]} :: 0 <= k < |env.projections| ==> GeofenceMsgOK(id, env.projections[k])
  {
    hide LogOK, ChainOK, EnvTrue, Submitting, Commits, NumberOK, MailboxOK, LogTrue, CommitIDs;
    JobSubmitting(cfg, id, o);
    var c, env := o.ctl.value, o.tok.value.job.env;
    SubmittingMessages(cfg, id, c, env, Last(Confirmed(o.log, o.tok)), o.tree);
    HeadInFlight(cfg, id, c, env, Last(Confirmed(o.log, o.tok)), o.tree);
    if !Stored(o.tok) { AppendCommit(cfg, id, o.log, c, env, o.tree); }
  }

  lemma HeadInFlight(cfg: Config, id: ObjectID, c: Ctl, env: CommitEnvelope, b: Option<StateRecord>, tree: map<Region, Item>)
    requires Submitting(cfg, id, c, env, b, tree)
    ensures c.head.Some?
  {}

  lemma EffAttempt(cfg: Config, id: ObjectID, o: Obj, out: Outcome)
    requires Inv(cfg, id, o) && EffInv(cfg, o) && Enabled(id, o, LAttempt(out))
    ensures EffInv(cfg, Attempt(o, out))
  {
    JobTrue(cfg, id, o);
    AttemptEffect(cfg, id, o, out);
    hide Inv, EnvTrue, LogTrue, Confirms, CommitMsgOK, GeofenceMsgOK, Confirmed, CommitIDs, Commits;
    var o', env, job := Attempt(o, out), o.tok.value.job.env, o.tok.value.job;
    EnvTrueMeans(cfg, o.ctl.value.head.value, Last(Confirmed(o.log, o.tok)), env);
    if out.stored {
      if job.confirmed {
        AddProjection(id, o.log, env.commit, env.projections[job.next]);
      } else {
        AddCommit(o.log, env.commit);
      }
    }
  }

  lemma EnvTrueMeans(cfg: Config, head: Envelope, b: Option<StateRecord>, env: CommitEnvelope)
    requires EnvTrue(cfg, head, b, env)
    ensures IsCommit(env.commit) && CommitTrue(b, env.commit)
    ensures forall k {:trigger env.projections[k]} :: 0 <= k < |env.projections| ==> Projects(env.commit, env.projections[k])
  {
    hide ProjectionTrue, CommitTrue, StateOf, Asked;
  }

  lemma EffRepair(cfg: Config, id: ObjectID, o: Obj, m: Msg, now: nat)
    requires Inv(cfg, id, o) && EffInv(cfg, o) && Enabled(id, o, LRepair(m, now))
    ensures EffInv(cfg, Repair(o, m))
  {
    RepairKeeps(cfg, id, o, m, now);
    var cm := LastCommit(o.log).value;
    assert MsgOK(id, cm);
    NotAProjection(id, cm);
    hide LogOK, Commits, CommitTrue, ExpectedProjectionMsgs, LogTrue, Inv;
    TrueIn(o.log, cm);
    var k :| CommitAt(Commits(o.log), k, cm);
    RemovedIsBare(cm);
    RepairedProjects(if k == 0 then None else Some(Commits(o.log)[k - 1]), cm, m, now);
    AddProjection(id, o.log, cm, m);
  }

  lemma NotAProjection(id: ObjectID, cm: Msg)
    requires IsCommit(cm) && MsgOK(id, cm)
    ensures CommitMsgOK(id, cm)
  {
    if GeofenceMsgOK(id, cm) { NotACommit(id, cm); }
  }

  lemma RemovedIsBare(cm: Msg)
    requires IsCommit(cm)
    ensures StateOf(cm).value.lifecycle == Removed ==> StateOf(cm).value.insideAreaIDs == []
    ensures StateOf(cm).value.objectID == cm.data.o
    ensures StateOf(cm).value.instanceID == cm.data.i && StateOf(cm).value.commitSeq == cm.data.s
  {}

  lemma DoneJob(cfg: Config, o: Obj)
    requires EffInv(cfg, o) && o.tok.Some?
    ensures o.tok.value.CommitTok? ==> EffInv(cfg, StartJob(o))
    ensures o.tok.value.JobTok? && !JobActive(o.tok.value.job) && o.tok.value.job.reach > 0 ==> EffInv(cfg, EndJob(o))
  {
    hide EnvTrue, LogTrue;
    if o.tok.value.CommitTok? { assert Confirmed(StartJob(o).log, StartJob(o).tok) == Confirmed(o.log, o.tok); }
    if o.tok.value.JobTok? && !JobActive(o.tok.value.job) && o.tok.value.job.reach > 0 {
      assert Confirmed(EndJob(o).log, EndJob(o).tok) == Confirmed(o.log, o.tok);
    }
  }

  /** Main lemma: every step keeps the log and the commit in flight true. */
  lemma EffStep(cfg: Config, id: ObjectID, o: Obj, l: Label)
    requires Inv(cfg, id, o) && EffInv(cfg, o) && Enabled(id, o, l)
    ensures EffInv(cfg, Step(cfg, id, o, l))
  {
    hide Inv, EffInv, Arrive, Work, TakeResult, TakeCommit, Attempt, ValidChoice, ExpectedProjectionMsgs, BootState;
    match l
    case LArrive(env, inst, now) => EffArrive(cfg, id, o, env, inst, now);
    case LWork(ch) => EffWork(cfg, id, o, ch);
    case LTakeResult(now) => EffTakeResult(cfg, id, o, now);
    case LStartJob => DoneJob(cfg, o);
    case LAttempt(out) => EffAttempt(cfg, id, o, out);
    case LEndJob =>
      JobReached(cfg, id, o);
      DoneJob(cfg, o);
    case LTakeCommit(now) => EffTakeCommit(cfg, id, o, now);
    case LForgetArea(r, a) => SameFlight(cfg, o, ForgetArea(o, r, a));
    case LCrash => NothingInFlight(cfg, o, Crash(o));
    case LRepair(m, now) => EffRepair(cfg, id, o, m, now);
    case LBoot => NothingInFlight(cfg, o, Boot(cfg, o));
  }

  lemma JobReached(cfg: Config, id: ObjectID, o: Obj)
    requires Inv(cfg, id, o) && o.tok.Some? && o.tok.value.JobTok? && !JobActive(o.tok.value.job)
    ensures o.tok.value.job.reach > 0
  {
    hide LogOK, ChainOK, Submitting, Commits, NumberOK, MailboxOK, StoredOK;
    JobSubmitting(cfg, id, o);
  }

  lemma NothingInFlight(cfg: Config, o: Obj, o': Obj)
    requires EffInv(cfg, o) && o'.log == o.log && o'.tok.None?
    ensures EffInv(cfg, o')
  {
    hide LogTrue;
  }

  // ---- runs -----------------------------------------------------------------------------------------------------

  lemma {:induction false} RunTrue(cfg: Config, id: ObjectID, run: seq<Obj>, labels: seq<Label>, k: nat)
    requires IsRun(cfg, id, run, labels) && k < |run|
    ensures Sound(cfg, id, run[k]) && EffInv(cfg, run[k])
  {
    hide Inv, LogInv, CompleteInv, BookOK, EffInv, Step, Enabled;
    RunSound(cfg, id, run, labels, k);
    if k == 0 {
      EffInitially(cfg, run[0]);
    } else {
      RunTrue(cfg, id, run, labels, k - 1);
      assert StepOK(cfg, id, run[k - 1], labels[k - 1], run[k]);
      EffStep(cfg, id, run[k - 1], labels[k - 1]);
    }
  }

  lemma EffInitially(cfg: Config, o: Obj)
    requires Initial(o)
    ensures EffInv(cfg, o)
  {}

  /** Main result on the log, in every run with crashes and repairs: a stored commit says what its state says, a
      removal moreover gives the position and the region of the commit before it and the areas it exits; and
      every stored enter or exit is a projection of a stored commit, with that commit's position, region,
      dimensions and inside list, or with the last position for a removal. */
  lemma StoredIsTrue(cfg: Config, id: ObjectID, run: seq<Obj>, labels: seq<Label>, k: nat, m: Msg)
    requires IsRun(cfg, id, run, labels) && k < |run| && m in run[k].log
    ensures var log := run[k].log;
            if IsCommit(m) then
              exists j :: 0 <= j < |Commits(log)| && Commits(log)[j] == StateOf(m).value
                          && CommitTrue(if j == 0 then None else Some(Commits(log)[j - 1]), m)
            else exists cm :: cm in log && IsCommit(cm) && Projects(cm, m)
  {
    hide Inv, LogInv, CompleteInv, BookOK, IsRun, CommitTrue, Projects, StateOf, Commits;
    RunTrue(cfg, id, run, labels, k);
    TrueIn(run[k].log, m);
    if IsCommit(m) {
      var j :| CommitAt(Commits(run[k].log), j, m);
    }
  }

  /** Main result on success: when a command is answered with a success, the commit named is the last one stored
      and is what the command asked for, a position in the region that resolves for it from the region
      of the commit before; and the commit and its projections carry the command's client operation. */
  lemma AnsweredAsAsked(cfg: Config, id: ObjectID, run: seq<Obj>, labels: seq<Label>, k: nat)
    requires IsRun(cfg, id, run, labels) && k < |labels| && labels[k].LTakeCommit?
    ensures var o := run[k];
            && o.ctl.Some? && o.ctl.value.head.Some? && o.tok.Some? && o.tok.value.DoneTok?
            && var env, head := o.tok.value.env, o.ctl.value.head.value;
               && LastCommit(o.log) == Some(env.commit) && IsCommit(env.commit) && Commits(o.log) != []
               && Last(Commits(o.log)) == StateOf(env.commit)
               && EnvTrue(cfg, head, Last(Commits(o.log)[..|Commits(o.log)| - 1]), env)
               && |run[k + 1].book.answered| > |o.book.answered|
               && run[k + 1].book.answered[|o.book.answered|] == Committed(head.reply, env.instanceID, env.commitSeq)
  {
    hide Inv, LogInv, CompleteInv, BookOK, Commits, EnvTrue, LogTrue, LastCommit, TakeCommit, Confirmed, StateOf;
    RunTrue(cfg, id, run, labels, k);
    assert StepOK(cfg, id, run[k], labels[k], run[k + 1]);
    var o := run[k];
    StoredIsLast(cfg, id, o);
    DoneIsSubmitting(cfg, id, o);
    AckComesFirst(cfg, o, labels[k].when);
    assert Commits(o.log)[..|Commits(o.log)| - 1] == Confirmed(o.log, o.tok);
  }

  lemma AckComesFirst(cfg: Config, o: Obj, now: nat)
    requires o.tok.Some? && o.tok.value.DoneTok? && o.ctl.Some? && o.ctl.value.head.Some?
    requires o.tok.value.env.reply == o.ctl.value.head.value.reply
    ensures var o', env := TakeCommit(cfg, o, now), o.tok.value.env;
            && |o'.book.answered| > |o.book.answered|
            && o'.book.answered[|o.book.answered|] == Committed(o.ctl.value.head.value.reply, env.instanceID, env.commitSeq)
  {
    hide DispatchNext;
  }
}
