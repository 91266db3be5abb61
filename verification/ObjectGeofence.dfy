/** The regions' inside snapshots.  In every run, area removals, crashes and returns included, the
    snapshot of the region an object is in is the inside set of its last confirmed commit without the
    areas erased from it since; snapshots of other regions are left behind only where the object was
    before, and not at all when the snapshot is moved as intended. */
module ObjectGeofence {
  import opened Domain
  import opened Events
  import opened EventLog
  import opened Mailbox
  import opened ObjectMachine
  import opened ObjectInvariant
  import opened ObjectSteps

  function InsideOf(st: StateRecord): set<AreaID> { Elems(st.insideAreaIDs) }

  function InsideAt(c: Ctl, b: Option<StateRecord>): set<AreaID> {
    if c.lastCommitSeq == 0 || b.None? then {} else InsideOf(b.value)
  }

  /** The snapshot of the object's region is its inside set but for what was erased; others exist only in
      regions it has left, and not at all when the snapshot is moved. */
  ghost predicate PrevOK(cfg: Config, region: Option<Region>, inside: set<AreaID>, erased: set<AreaID>,
                         prev: map<Region, set<AreaID>>, left: set<Region>) {
    && (forall r {:trigger r in prev} :: r in prev ==> prev[r] != {} && (region == Some(r) || (r in left && !cfg.taskKind)))
    && (if region.Some? then Prev(prev, region.value) == inside - erased else inside == {})
  }

  /** The snapshot write that goes with the commit. */
  ghost predicate MutationOK(cfg: Config, c: Ctl, env: CommitEnvelope, b: Option<StateRecord>) {
    && c.head.Some? && StateOf(env.commit).Some?
    && var st, from := StateOf(env.commit).value, RegionOf(c, b);
       match c.head.value.kind
       case TaskRemove => env.mutation == (if from.None? then PrevInsideNoop else PrevInsideDelete(from))
       case TaskUpdate =>
         && st.region.Some?
         && env.mutation == (if cfg.taskKind && from.Some? && from != st.region
                             then PrevInsideMove(from, st.region.value, InsideOf(st))
                             else PrevInsideSet(st.region.value, InsideOf(st)))
       case _ => env.mutation == PrevInsideNoop && st.region == None
  }

  ghost predicate TokenWrites(cfg: Config, c: Ctl, tok: Option<Token>, b: Option<StateRecord>) {
    match tok
    case Some(CommitTok(env)) => MutationOK(cfg, c, env, b)
    case Some(JobTok(job)) => MutationOK(cfg, c, job.env, b)
    case Some(DoneTok(env)) => MutationOK(cfg, c, env, b)
    case _ => true
  }

  function LiveRegion(o: Obj): Option<Region> {
    if o.ctl.None? then None else RegionOf(o.ctl.value, Last(Confirmed(o.log, o.tok)))
  }

  function LiveInside(o: Obj): set<AreaID> {
    if o.ctl.None? then {} else InsideAt(o.ctl.value, Last(Confirmed(o.log, o.tok)))
  }

  /** A region the object is moving away from counts as left. */
  predicate LeftOK(c: Ctl, region: Option<Region>, left: set<Region>) {
    region.Some? && c.route != region ==> region.value in left
  }

  ghost predicate GeoInv(cfg: Config, o: Obj, erased: set<AreaID>) {
    && (o.up ==> PrevOK(cfg, LiveRegion(o), LiveInside(o), erased, o.prev, o.left))
    && (o.up && o.ctl.Some? ==> LeftOK(o.ctl.value, LiveRegion(o), o.left))
    && (o.up && o.ctl.Some? ==> TokenWrites(cfg, o.ctl.value, o.tok, Last(Confirmed(o.log, o.tok))))
  }

  /** The areas erased from the snapshot of the object's region since it was last written. */
  function NextErased(o: Obj, l: Label, erased: set<AreaID>): set<AreaID> {
    match l
    case LForgetArea(r, area) => if LiveRegion(o) == Some(r) then erased + {area} else erased
    case LTakeCommit(_) => {}
    case LCrash => {}
    case LBoot => {}
    case _ => erased
  }

  /** The region about to be entered holds no snapshot of an earlier visit. */
  ghost predicate FreshTask(t: WorkerTask, prev: map<Region, set<AreaID>>) {
    t.kind == TaskInit || t.kind == TaskTransition ==> Prev(prev, t.region) == {}
  }

  ghost predicate EntersFresh(o: Obj) { o.tok.Some? && o.tok.value.TaskTok? ==> FreshTask(o.tok.value.task, o.prev) }

  /** The object is not on its way to a region it has left before. */
  ghost predicate NotReturning(o: Obj) {
    o.ctl.Some? && o.ctl.value.route.Some? ==> o.ctl.value.route.value !in o.left
  }

  /** Not returning, or moving the snapshot, keeps entered regions fresh. */
  lemma NotReturningIsFresh(cfg: Config, id: ObjectID, o: Obj, erased: set<AreaID>)
    requires Inv(cfg, id, o) && GeoInv(cfg, o, erased) && (cfg.taskKind || NotReturning(o))
    ensures EntersFresh(o)
  {
    hide LogOK, ChainOK, EnvelopeOK, StateOK;
  }

  // ---- preservation ---------------------------------------------------------------------------

  /** A removal without a region, and a registration, write no snapshot. */
  lemma NothingWritten(cfg: Config, id: ObjectID, c: Ctl, input: CommitInput, env: CommitEnvelope, b: Option<StateRecord>, now: nat)
    requires c.head.Some? && c.head.value.objectID == id && RegionOf(c, b) == None
    requires (c.head.value.kind == TaskRemove && input == RemoveInput(c, c.head.value))
             || (c.head.value.kind == TaskRegister && input == RegisterInput(c, c.head.value))
    requires CommitFits(c, c.head.value, input, PrevInsideNoop, now, env)
    ensures MutationOK(cfg, c, env, b)
  {
    hide EnvelopeOK;
    BuiltEnvelope(id, c, c.head.value, input, PrevInsideNoop, now, env);
  }

  /** What is dispatched next, from a mailbox at rest, will write the right snapshot. */
  lemma DispatchWrites(cfg: Config, id: ObjectID, c: Ctl, out: Out, now: nat, cs: seq<StateRecord>, tree: map<Region, Item>)
    requires AtRest(c, Last(cs), tree) && c.route == RegionOf(c, Last(cs))
    requires CommandsOK(id, c) && Handled(cfg, c, out, now)
    ensures TokenWrites(cfg, out.ctl, TokenOf(out.send), Last(cs))
    ensures RegionOf(out.ctl, Last(cs)) == RegionOf(c, Last(cs)) && InsideAt(out.ctl, Last(cs)) == InsideAt(c, Last(cs))
    ensures LeftOK(out.ctl, RegionOf(c, Last(cs)), LeftBy(out.send))
  {
    hide MutationOK, CommitFits;
    match out.send {
      case Some(SendCommit(env)) =>
        assert Holds(out.ctl, out.ctl.head.value);
        assert Holds(c, out.ctl.head.value);
        CommitFitsSame(c, out.ctl, out.ctl.head.value, now, env);
        NothingWritten(cfg, id, out.ctl, RemoveInput(out.ctl, out.ctl.head.value), env, Last(cs), now);
      case _ =>
    }
  }

  lemma CommitFitsSame(c: Ctl, c': Ctl, head: Envelope, now: nat, env: CommitEnvelope)
    requires CommitFits(c, head, RemoveInput(c, head), PrevInsideNoop, now, env)
    requires c'.instanceID == c.instanceID && c'.lastCommitSeq == c.lastCommitSeq && c'.dims == c.dims
    ensures CommitFits(c', head, RemoveInput(c', head), PrevInsideNoop, now, env)
  {}

  lemma PrevOKMoreLeft(cfg: Config, region: Option<Region>, inside: set<AreaID>, erased: set<AreaID>,
                       prev: map<Region, set<AreaID>>, left: set<Region>, more: set<Region>)
    requires PrevOK(cfg, region, inside, erased, prev, left)
    ensures PrevOK(cfg, region, inside, erased, prev, left + more)
  {}

  lemma GeoArrive(cfg: Config, id: ObjectID, o: Obj, erased: set<AreaID>, env: Envelope, inst: string, now: nat)
    requires Inv(cfg, id, o) && GeoInv(cfg, o, erased) && Enabled(id, o, LArrive(env, inst, now))
    ensures GeoInv(cfg, Arrive(cfg, o, env, inst, now), erased)
  {
    hide Inv, GeoInv, FreshInstance, SubmitNewRegister, DispatchPosition, DispatchRemove;
    var o' := Arrive(cfg, o, env, inst, now);
    if env.kind == TaskRegister {
      if o.ctl.None? { GeoArriveRegister(cfg, id, o, erased, env, inst, now); } else { GeoSameBook(cfg, o, o', erased); }
    } else if o.ctl.None? || o.ctl.value.deleted {
      GeoSameBook(cfg, o, o', erased);
    } else if o.ctl.value.head.Some? || o.ctl.value.committing {
      GeoArriveQueued(cfg, id, o, erased, env, inst, now);
    } else {
      GeoArriveDispatched(cfg, id, o, erased, env, inst, now);
    }
  }

  lemma GeoSameBook(cfg: Config, o: Obj, o': Obj, erased: set<AreaID>)
    requires GeoInv(cfg, o, erased) && o'.left == o.left && o' == o.(book := o'.book, left := o'.left)
    ensures GeoInv(cfg, o', erased)
  {
    hide TokenWrites, PrevOK;
  }

  lemma GeoArriveRegister(cfg: Config, id: ObjectID, o: Obj, erased: set<AreaID>, env: Envelope, inst: string, now: nat)
    requires Inv(cfg, id, o) && GeoInv(cfg, o, erased) && o.up && o.ctl.None?
    requires env.objectID == id && env.kind == TaskRegister && FreshInstance(o, inst)
    ensures GeoInv(cfg, Arrive(cfg, o, env, inst, now), erased)
  {
    hide LogOK, ChainOK, EnvelopeOK, MutationOK, CommitFits;
    var c := NewCtl(env.dims).(instanceID := inst, head := Some(env));
    var out := SubmitNewRegister(cfg, c, env, now);
    assert BuildCommitMsgs(RegisterInput(c, env), now).Ok?;
    assert CommitFits(c, env, RegisterInput(c, env), PrevInsideNoop, now, out.send.value.env);
    RegisterFitsSame(c, out.ctl, env, now, out.send.value.env);
    NothingWritten(cfg, id, out.ctl, RegisterInput(out.ctl, env), out.send.value.env, Last(Commits(o.log)), now);
    var o' := Arrive(cfg, o, env, inst, now);
    assert Confirmed(o'.log, o'.tok) == Commits(o.log) && o'.ctl == Some(out.ctl);
    PrevOKMoreLeft(cfg, None, {}, erased, o.prev, o.left, LeftBy(out.send));
  }

  lemma RegisterFitsSame(c: Ctl, c': Ctl, head: Envelope, now: nat, env: CommitEnvelope)
    requires CommitFits(c, head, RegisterInput(c, head), PrevInsideNoop, now, env)
    requires c'.instanceID == c.instanceID && c'.lastCommitSeq == c.lastCommitSeq
    ensures CommitFits(c', head, RegisterInput(c', head), PrevInsideNoop, now, env)
  {}

  lemma GeoArriveQueued(cfg: Config, id: ObjectID, o: Obj, erased: set<AreaID>, env: Envelope, inst: string, now: nat)
    requires GeoInv(cfg, o, erased) && o.up && o.ctl.Some? && !o.ctl.value.deleted
    requires env.kind == TaskUpdate || env.kind == TaskRemove
    requires o.ctl.value.head.Some?
    ensures GeoInv(cfg, Arrive(cfg, o, env, inst, now), erased)
  {
    hide PrevOK;
    var o' := Arrive(cfg, o, env, inst, now);
    assert o'.ctl == Some(o.ctl.value.(queue := o.ctl.value.queue + [env])) && o'.tok == o.tok;
    assert LiveRegion(o') == LiveRegion(o) && LiveInside(o') == LiveInside(o) && o'.left == o.left;
    TokenWritesSame(cfg, o.ctl.value, o'.ctl.value, o.tok, Last(Confirmed(o.log, o.tok)));
  }

  lemma TokenWritesSame(cfg: Config, c: Ctl, c': Ctl, tok: Option<Token>, b: Option<StateRecord>)
    requires TokenWrites(cfg, c, tok, b) && c'.head == c.head && c'.lastCommitSeq == c.lastCommitSeq
    ensures TokenWrites(cfg, c', tok, b)
  {
    match tok {
      case Some(CommitTok(env)) =>
      case Some(JobTok(job)) =>
      case _ =>
    }
  }

  lemma GeoArriveDispatched(cfg: Config, id: ObjectID, o: Obj, erased: set<AreaID>, env: Envelope, inst: string, now: nat)
    requires Inv(cfg, id, o) && GeoInv(cfg, o, erased) && o.up && o.ctl.Some? && !o.ctl.value.deleted
    requires env.objectID == id && (env.kind == TaskUpdate || env.kind == TaskRemove)
    requires o.ctl.value.head.None? && Ready(o.ctl.value)
    ensures GeoInv(cfg, Arrive(cfg, o, env, inst, now), erased)
  {
    hide LogOK, ChainOK, EnvelopeOK, MutationOK, Handled, Handled', Stage;
    var c, cs := o.ctl.value, Confirmed(o.log, o.tok);
    var c' := c.(head := Some(env));
    var out := if env.kind == TaskUpdate then DispatchPosition(cfg, c', env, now) else DispatchRemove(cfg, c', env, now);
    assert o.tok.None? && AtRest(c', Last(cs), o.tree) && c'.route == RegionOf(c', Last(cs)) by { IdleStage(cfg, id, o); }
    DispatchWrites(cfg, id, c', out, now, cs, o.tree);
    PrevOKMoreLeft(cfg, LiveRegion(o), LiveInside(o), erased, o.prev, o.left, LeftBy(out.send));
    var o' := Arrive(cfg, o, env, inst, now);
    assert !Stored(TokenOf(out.send)) && o'.tok == TokenOf(out.send);
    assert o'.ctl == Some(out.ctl) && Confirmed(o'.log, o'.tok) == cs;
  }

  lemma IdleStage(cfg: Config, id: ObjectID, o: Obj)
    requires Inv(cfg, id, o) && o.up && o.ctl.Some? && o.ctl.value.head.None?
    ensures o.tok.None?
    ensures var c, b := o.ctl.value, Last(Confirmed(o.log, o.tok));
            AtRest(c, b, o.tree) && c.route == RegionOf(c, b)
  {
    hide LogOK, ChainOK, EnvelopeOK, NumberOK;
  }

  lemma GeoWork(cfg: Config, id: ObjectID, o: Obj, erased: set<AreaID>, ch: Choice)
    requires Inv(cfg, id, o) && GeoInv(cfg, o, erased) && Enabled(id, o, LWork(ch))
    ensures GeoInv(cfg, Work(o, ch), erased)
  {
    hide LogOK, StateOK, PrevOK;
    var c, cs, t := o.ctl.value, Confirmed(o.log, o.tok), o.tok.value.task;
    assert ChainOK(cfg, id, cs);
    WorkFits(cfg, id, c, t, cs, o.tree, o.prev, ch);
    hide Process, Stage, NumberOK, ResultFits;
    var o' := Work(o, ch);
    assert Confirmed(o'.log, o'.tok) == cs;
    assert LiveRegion(o') == LiveRegion(o) && LiveInside(o') == LiveInside(o);
  }

  /** The commit made of a result carries its transitions and its inside set. */
  lemma ResultCarried(cfg: Config, id: ObjectID, c: Ctl, res: WorkerResult, cs: seq<StateRecord>, tree: map<Region, Item>, now: nat)
    requires c.head.Some? && Ready(c) && c.lastCommitSeq > 0 && NumberOK(c, cs) && MailboxOK(id, c)
    requires ResultFits(cfg, id, c, res, Last(cs), tree)
    ensures var out := OnResult(cfg, c, res, now);
            && out.send.Some? && out.send.value.SendCommit? && StateOf(out.send.value.env.commit).Some?
            && var st := StateOf(out.send.value.env.commit).value;
               st.transitions == res.transitions && InsideOf(st) == res.currentInside
  {
    hide EnvelopeOK, Submitting;
    var head := c.head.value;
    var input, mutation := ResultInput(c, head, res), ResultMutation(cfg, head, res);
    ResultSubmits(cfg, id, c, res, cs, tree, now);
    var out := OnResult(cfg, c, res, now);
    BuiltEnvelope(id, c, head, input, mutation, now, out.send.value.env);
    hide OnResult, BuildCommitMsgs;
  }

  lemma ResultWrites(cfg: Config, id: ObjectID, c: Ctl, res: WorkerResult, cs: seq<StateRecord>, tree: map<Region, Item>, now: nat)
    requires c.head.Some? && Ready(c) && c.lastCommitSeq > 0 && NumberOK(c, cs) && MailboxOK(id, c)
    requires ResultFits(cfg, id, c, res, Last(cs), tree)
    ensures var out := OnResult(cfg, c, res, now);
            && out.send.Some? && out.send.value.SendCommit? && out.ctl.route == c.route
            && RegionOf(out.ctl, Last(cs)) == RegionOf(c, Last(cs)) && InsideAt(out.ctl, Last(cs)) == InsideAt(c, Last(cs))
            && MutationOK(cfg, out.ctl, out.send.value.env, Last(cs))
  {
    hide EnvelopeOK, Submitting;
    var head := c.head.value;
    var input, mutation := ResultInput(c, head, res), ResultMutation(cfg, head, res);
    ResultSubmits(cfg, id, c, res, cs, tree, now);
    var out := OnResult(cfg, c, res, now);
    BuiltEnvelope(id, c, head, input, mutation, now, out.send.value.env);
    hide OnResult, BuildCommitMsgs;
    assert InsideOf(StateOf(out.send.value.env.commit).value) == res.currentInside;
  }

  lemma GeoTakeResult(cfg: Config, id: ObjectID, o: Obj, erased: set<AreaID>, now: nat)
    requires Inv(cfg, id, o) && GeoInv(cfg, o, erased) && Enabled(id, o, LTakeResult(now))
    ensures GeoInv(cfg, TakeResult(cfg, o, now), erased)
  {
    hide LogOK, ChainOK, StateOK, PrevOK, ResultFits, NumberOK, MutationOK;
    var c, cs := o.ctl.value, Confirmed(o.log, o.tok);
    ResultWrites(cfg, id, c, o.tok.value.res, cs, o.tree, now);
    ResultSubmits(cfg, id, c, o.tok.value.res, cs, o.tree, now);
    hide OnResult, Submitting, Submitted;
    var o' := TakeResult(cfg, o, now);
    assert Confirmed(o'.log, o'.tok) == cs && o'.left == o.left;
  }

  lemma GeoAttempt(cfg: Config, id: ObjectID, o: Obj, erased: set<AreaID>, out: Outcome)
    requires Inv(cfg, id, o) && GeoInv(cfg, o, erased) && Enabled(id, o, LAttempt(out))
    ensures GeoInv(cfg, Attempt(o, out), erased)
  {
    hide Inv, PrevOK, MutationOK, Commits, Confirms, StateOf, Confirmed;
    var o' := Attempt(o, out);
    AttemptEffect(cfg, id, o, out);
    assert LiveRegion(o') == LiveRegion(o) && LiveInside(o') == LiveInside(o);
  }

  lemma SetPrevOK(cfg: Config, from: Option<Region>, r: Region, was: set<AreaID>, erased: set<AreaID>, inside: set<AreaID>,
                  prev: map<Region, set<AreaID>>, left: set<Region>)
    requires PrevOK(cfg, from, was, erased, prev, left) && (from.Some? && from != Some(r) ==> from.value in left)
    ensures !cfg.taskKind || from.None? || from == Some(r) ==> PrevOK(cfg, Some(r), inside, {}, SetPrev(prev, r, inside), left)
    ensures cfg.taskKind ==> PrevOK(cfg, Some(r), inside, {}, SetPrev(DeletePrev(prev, from), r, inside), left)
  {
    assert inside - {} == inside;
  }

  lemma DeletePrevOK(cfg: Config, from: Option<Region>, was: set<AreaID>, erased: set<AreaID>, prev: map<Region, set<AreaID>>, left: set<Region>)
    requires PrevOK(cfg, from, was, erased, prev, left)
    ensures PrevOK(cfg, None, {}, {}, DeletePrev(prev, from), left)
  {}

  /** The snapshots after the commit's deferred write are those of its checkpoint. */
  lemma MutationKeepsPrev(cfg: Config, id: ObjectID, c: Ctl, env: CommitEnvelope, b: Option<StateRecord>, tree: map<Region, Item>,
                          erased: set<AreaID>, prev: map<Region, set<AreaID>>, left: set<Region>)
    requires Submitting(cfg, id, c, env, b, tree) && MutationOK(cfg, c, env, b) && LeftOK(c, RegionOf(c, b), left)
    requires PrevOK(cfg, RegionOf(c, b), InsideAt(c, b), erased, prev, left)
    ensures var st, prev' := StateOf(env.commit).value, ApplyMutation(prev, env.mutation);
            if c.head.value.kind == TaskRemove then PrevOK(cfg, None, {}, {}, prev', left)
            else PrevOK(cfg, st.region, InsideOf(st), {}, prev', left)
  {
    hide EnvelopeOK, PrevOK;
    var st, from := StateOf(env.commit).value, RegionOf(c, b);
    match c.head.value.kind {
      case TaskUpdate => SetPrevOK(cfg, from, st.region.value, InsideAt(c, b), erased, InsideOf(st), prev, left);
      case TaskRemove => DeletePrevOK(cfg, from, InsideAt(c, b), erased, prev, left);
      case TaskRegister =>
        assert c.lastCommitSeq == 0 && InsideOf(st) == {};
        DeletePrevOK(cfg, None, {}, erased, prev, left);
      case _ =>
    }
  }

  lemma GeoTakeCommit(cfg: Config, id: ObjectID, o: Obj, erased: set<AreaID>, now: nat)
    requires Inv(cfg, id, o) && GeoInv(cfg, o, erased) && Enabled(id, o, LTakeCommit(now))
    ensures GeoInv(cfg, TakeCommit(cfg, o, now), {})
  {
    hide LogOK, ChainOK, EnvelopeOK, PrevOK, Commits, Handled, Handled', MailboxOK, DispatchNext, Submitting;
    var c, env, b := o.ctl.value, o.tok.value.env, Last(Confirmed(o.log, o.tok));
    TakeCommitShape(cfg, id, o, now);
    MutationKeepsPrev(cfg, id, c, env, b, o.tree, erased, o.prev, o.left);
    if c.head.value.kind != TaskRemove {
      RelievedIsAtRest(cfg, id, o);
      var out := DispatchNext(cfg, Relieved(c, env), now);
      DispatchWrites(cfg, id, Relieved(c, env), out, now, Commits(o.log), o.tree);
      PrevOKMoreLeft(cfg, StateOf(env.commit).value.region, InsideOf(StateOf(env.commit).value), {},
                     ApplyMutation(o.prev, env.mutation), o.left, LeftBy(out.send));
    }
    hide TokenWrites, AtRest, NumberOK, TakeCommit;
    var o' := TakeCommit(cfg, o, now);
    assert Confirmed(o'.log, o'.tok) == Commits(o.log);
  }

  lemma GeoBoot(cfg: Config, id: ObjectID, o: Obj)
    requires Inv(cfg, id, o) && Enabled(id, o, LBoot)
    ensures GeoInv(cfg, Boot(cfg, o), {})
  {
    hide LogOK, Succeeds, BootState, Commits, StateOK, StateOf, PrevOK;
    var cs, o' := Commits(o.log), Boot(cfg, o);
    if LastCommit(o.log).Some? {
      assert StateOK(cfg, id, cs[|cs| - 1]);
      BootPrevOK(cfg, id, o.log, cs[|cs| - 1]);
    } else {
      BootNothing(cfg, o.log);
    }
  }

  lemma BootNothing(cfg: Config, log: seq<Msg>)
    requires LastCommit(log).None?
    ensures BootState(cfg, log) == Booted(None, map[], map[]) && PrevOK(cfg, None, {}, {}, map[], {})
  {}

  lemma BootPrevOK(cfg: Config, id: ObjectID, log: seq<Msg>, st: StateRecord)
    requires LastCommit(log).Some? && StateOf(LastCommit(log).value) == Some(st) && StateOK(cfg, id, st)
    ensures var b := BootState(cfg, log);
            if b.ctl.None? then PrevOK(cfg, None, {}, {}, b.prev, {})
            else PrevOK(cfg, st.region, InsideOf(st), {}, b.prev, {}) && b.ctl.value.lastCommitSeq == st.commitSeq > 0
                 && b.ctl.value.route == st.region
  {
    assert st.region.None? && st.lifecycle == Active ==> InsideOf(st) == {};
    assert InsideOf(st) - {} == InsideOf(st);
  }

  /** An area erased from the snapshot of the object's region is missing there until the next write. */
  lemma GeoForget(cfg: Config, o: Obj, erased: set<AreaID>, r: Region, area: AreaID)
    requires GeoInv(cfg, o, erased)
    ensures GeoInv(cfg, ForgetArea(o, r, area), NextErased(o, LForgetArea(r, area), erased))
  {
    var o' := ForgetArea(o, r, area);
    assert LiveRegion(o') == LiveRegion(o) && LiveInside(o') == LiveInside(o);
    hide TokenWrites, LeftOK;
    if o.up { ForgetPrevOK(cfg, LiveRegion(o), LiveInside(o), erased, o.prev, o.left, r, area); }
  }

  lemma ForgetPrevOK(cfg: Config, region: Option<Region>, inside: set<AreaID>, erased: set<AreaID>,
                     prev: map<Region, set<AreaID>>, left: set<Region>, r: Region, area: AreaID)
    requires PrevOK(cfg, region, inside, erased, prev, left)
    ensures PrevOK(cfg, region, inside, if region == Some(r) then erased + {area} else erased,
                   if r in prev && area in prev[r] then SetPrev(prev, r, prev[r] - {area}) else prev, left)
  {
    if region == Some(r) { assert inside - (erased + {area}) == (inside - erased) - {area}; }
  }

  lemma GeoPublisher(cfg: Config, id: ObjectID, o: Obj, erased: set<AreaID>, l: Label)
    requires Inv(cfg, id, o) && GeoInv(cfg, o, erased) && Enabled(id, o, l) && (l.LStartJob? || l.LEndJob?)
    ensures GeoInv(cfg, Step(cfg, id, o, l), erased)
  {
    hide LogOK, ChainOK, Submitting, PrevOK, MutationOK, Commits, NumberOK, MailboxOK;
    var o' := Step(cfg, id, o, l);
    assert Confirmed(o'.log, o'.tok) == Confirmed(o.log, o.tok);
  }

  /** Main lemma: every step, area removals and crashes included, keeps the snapshots in agreement with the
      committed inside sets, but for the areas erased since the last write. */
  lemma GeoStep(cfg: Config, id: ObjectID, o: Obj, erased: set<AreaID>, l: Label)
    requires Inv(cfg, id, o) && GeoInv(cfg, o, erased) && Enabled(id, o, l)
    ensures GeoInv(cfg, Step(cfg, id, o, l), NextErased(o, l, erased))
  {
    hide Inv, GeoInv, Arrive, Work, TakeResult, StartJob, Attempt, EndJob, TakeCommit, ForgetArea, Boot;
    match l
    case LArrive(env, inst, now) => GeoArrive(cfg, id, o, erased, env, inst, now);
    case LWork(ch) => GeoWork(cfg, id, o, erased, ch);
    case LTakeResult(now) => GeoTakeResult(cfg, id, o, erased, now);
    case LAttempt(out) => GeoAttempt(cfg, id, o, erased, out);
    case LTakeCommit(now) => GeoTakeCommit(cfg, id, o, erased, now);
    case LForgetArea(r, area) => GeoForget(cfg, o, erased, r, area);
    case LBoot => GeoBoot(cfg, id, o);
    case LCrash => DownHasNone(cfg, Crash(o), {});
    case LRepair(m, now) => DownHasNone(cfg, Repair(o, m), erased);
    case _ => GeoPublisher(cfg, id, o, erased, l);
  }

  lemma DownHasNone(cfg: Config, o: Obj, erased: set<AreaID>)
    requires !o.up
    ensures GeoInv(cfg, o, erased)
  {}
}
