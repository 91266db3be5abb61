/** Two runs of the code as it is whose transitions do not replay.  With the snapshot replaced instead of
    moved, an object that comes back to an area it was in when it left the region is committed as inside
    without an enter; and an object in an area that is removed is committed as outside without an exit. */
module ReplayWitness {
  import opened Domain
  import opened Events
  import opened EventLog
  import opened Mailbox
  import opened ObjectMachine
  import opened ObjectInvariant
  import opened ObjectSteps
  import opened ObjectLog
  import opened ObjectAnswers
  import opened ObjectGeofence
  import opened ObjectRuns
  import opened ObjectFolds

  // ---- undisturbed commands ---------------------------------------------------------------------------

  /** No crash, and no area removal unless it is allowed. */
  ghost predicate Calm(labels: seq<Label>, removal: bool) {
    forall l {:trigger l in labels} :: l in labels ==> !l.LCrash? && (removal || !l.LForgetArea?)
  }

  /** Some such run ends in `o`. */
  ghost predicate Reaches(cfg: Config, id: ObjectID, o: Obj, removal: bool) {
    exists run, labels :: IsRun(cfg, id, run, labels) && Calm(labels, removal) && |run| > 0 && run[|run| - 1] == o
  }

  lemma ReachesSound(cfg: Config, id: ObjectID, o: Obj, removal: bool)
    requires Reaches(cfg, id, o, removal)
    ensures Inv(cfg, id, o)
  {
    hide Inv, LogInv, CompleteInv, BookOK, IsRun;
    var run, labels :| IsRun(cfg, id, run, labels) && Calm(labels, removal) && |run| > 0 && run[|run| - 1] == o;
    RunLength(cfg, id, run, labels);
    RunSound(cfg, id, run, labels, |run| - 1);
  }

  lemma RunLength(cfg: Config, id: ObjectID, run: seq<Obj>, labels: seq<Label>)
    requires IsRun(cfg, id, run, labels)
    ensures |run| == |labels| + 1
  {}

  lemma ReachesNext(cfg: Config, id: ObjectID, o: Obj, l: Label, removal: bool)
    requires Reaches(cfg, id, o, removal) && Enabled(id, o, l) && !l.LCrash? && (removal || !l.LForgetArea?)
    ensures Reaches(cfg, id, Step(cfg, id, o, l), removal)
  {
    hide IsRun, Step, Enabled;
    var run, labels :| IsRun(cfg, id, run, labels) && Calm(labels, removal) && |run| > 0 && run[|run| - 1] == o;
    var o' := Step(cfg, id, o, l);
    RunSnoc(cfg, id, run, labels, l, o');
    assert (run + [o'])[|run + [o']| - 1] == o';
  }

  const HEALTHY := Outcome(true, true, true)

  /** On a healthy stream the publisher works through the projections. */
  lemma {:induction false} PublishRest(cfg: Config, id: ObjectID, o: Obj, removal: bool) returns (o': Obj)
    requires Reaches(cfg, id, o, removal) && o.up && o.tok.Some? && o.tok.value.JobTok? && o.tok.value.job.confirmed
    ensures Reaches(cfg, id, o', removal) && o' == o.(log := o'.log, tok := o'.tok)
    ensures o'.tok == Some(DoneTok(o.tok.value.job.env)) && Confirmed(o'.log, o'.tok) == Confirmed(o.log, o.tok)
    decreases |o.tok.value.job.env.projections| - o.tok.value.job.next
  {
    hide Reaches, Inv, Confirmed, LogAfter;
    ReachesSound(cfg, id, o, removal);
    var job := o.tok.value.job;
    JobSubmitting(cfg, id, o);
    if JobActive(job) {
      ReachesNext(cfg, id, o, LAttempt(HEALTHY), removal);
      AttemptEffect(cfg, id, o, HEALTHY);
      o' := PublishRest(cfg, id, Attempt(o, HEALTHY), removal);
    } else {
      ReachesNext(cfg, id, o, LEndJob, removal);
      o' := EndJob(o);
      EndJobConfirmed(o, job);
    }
  }

  lemma EndJobConfirmed(o: Obj, job: Job)
    requires o.tok == Some(JobTok(job)) && JobOK(job) && job.confirmed
    ensures Confirmed(o.log, Some(DoneTok(job.env))) == Confirmed(o.log, o.tok)
  {}

  lemma PublishAll(cfg: Config, id: ObjectID, o: Obj, removal: bool) returns (o': Obj)
    requires Reaches(cfg, id, o, removal) && o.up && o.tok.Some? && o.tok.value.CommitTok?
    ensures Reaches(cfg, id, o', removal) && o' == o.(log := o'.log, tok := o'.tok)
    ensures o'.tok == Some(DoneTok(o.tok.value.env)) && Confirmed(o'.log, o'.tok) == Commits(o.log)
  {
    hide Reaches, Inv, LogAfter, Commits;
    var env := o.tok.value.env;
    ReachesNext(cfg, id, o, LStartJob, removal);
    var o1 := StartJob(o);
    ReachesSound(cfg, id, o1, removal);
    ReachesNext(cfg, id, o1, LAttempt(HEALTHY), removal);
    AttemptEffect(cfg, id, o1, HEALTHY);
    assert Confirmed(o1.log, o1.tok) == Commits(o.log);
    hide Confirmed;
    o' := PublishRest(cfg, id, Attempt(o1, HEALTHY), removal);
  }

  /** From a submitted commit with nobody waiting to rest again. */
  lemma CommitSettles(cfg: Config, id: ObjectID, o: Obj, removal: bool) returns (o': Obj)
    requires Reaches(cfg, id, o, removal) && o.up && o.tok.Some? && o.tok.value.CommitTok? && o.ctl.Some?
    requires o.ctl.value.head.Some? && o.ctl.value.head.value.kind != TaskRemove && o.ctl.value.queue == []
    ensures var env := o.tok.value.env;
            && Reaches(cfg, id, o', removal) && o'.up && o'.tok.None? && o'.ctl == Some(Relieved(o.ctl.value, env))
            && o'.prev == ApplyMutation(o.prev, env.mutation)
            && StateOf(env.commit).Some? && Commits(o'.log) == Commits(o.log) + [StateOf(env.commit).value]
  {
    hide Reaches, Inv, Commits, ApplyMutation, StateOf;
    var env := o.tok.value.env;
    var done := PublishAll(cfg, id, o, removal);
    ReachesSound(cfg, id, done, removal);
    DoneIsLast(cfg, id, done);
    TakeCommitShape(cfg, id, done, 0);
    ReachesNext(cfg, id, done, LTakeCommit(0), removal);
    o' := TakeCommit(cfg, done, 0);
    TakeCommitSent(cfg, done, 0);
  }

  // ---- the commands of the witness -----------------------------------------------------------------------

  const ID := "o"
  const AREA := "A"
  const DIMS := Dims(1.0, 1.0)

  /** Two regions, left and right of x = 0; the snapshot is replaced, as in the source. */
  const SOURCE := Config(2, (p: Position, prev: Option<Region>) => Some(if p.x < 0.0 then 0 else 1), false)

  function At(x: real): Envelope { Envelope(ID, "", 0, Position(x, 0.0, 0.0, 0.0), DIMS, TaskUpdate) }

  /** At rest in the given place, with one instance named "i". */
  ghost predicate Resting(o: Obj, route: Option<Region>, removal: bool) {
    && Reaches(SOURCE, ID, o, removal) && o.up && o.tok.None? && o.ctl.Some?
    && o.ctl.value == Ctl(route, None, [], "i", o.ctl.value.lastCommitSeq, DIMS, false, None, route, false)
    && o.ctl.value.lastCommitSeq > 0
  }

  lemma FreshName(o: Obj)
    requires Inv(SOURCE, ID, o)
    ensures exists inst :: FreshInstance(o, inst)
  {
    var inst := NewName(Commits(o.log));
    assert FreshInstance(o, inst);
  }

  lemma {:induction false} NewName(cs: seq<StateRecord>) returns (inst: string)
    ensures inst != "" && forall k :: 0 <= k < |cs| ==> |cs[k].instanceID| < |inst|
  {
    if cs == [] {
      inst := "n";
    } else {
      inst := NewName(cs[..|cs| - 1]);
      inst := inst + cs[|cs| - 1].instanceID + "n";
    }
  }

  lemma Registered(removal: bool) returns (o: Obj)
    ensures Resting(o, None, removal) && o.prev == map[]
  {
    var start := Obj(true, None, None, map[], map[], [], [], [], {}, EMPTY_BOOK);
    assert IsRun(SOURCE, ID, [start], []) && Calm([], removal) && [start][|[start]| - 1] == start;
    assert Reaches(SOURCE, ID, start, removal);
    var env := Envelope(ID, "", 0, Position(0.0, 0.0, 0.0, 0.0), DIMS, TaskRegister);
    hide Reaches;
    ReachesNext(SOURCE, ID, start, LArrive(env, "i", 0), removal);
    var o1 := Arrive(SOURCE, start, env, "i", 0);
    RegisterSubmitted(env);
    hide SubmitNewRegister, IsRun, Calm, Commits, StateOf, ApplyMutation;
    o := CommitSettles(SOURCE, ID, o1, removal);
    NoWrite(map[]);
  }

  lemma NoWrite(prev: map<Region, set<AreaID>>)
    ensures ApplyMutation(prev, PrevInsideNoop) == prev
  {}

  lemma RegisterSubmitted(env: Envelope)
    requires env.kind == TaskRegister && env.dims == DIMS
    ensures var out := SubmitNewRegister(SOURCE, NewCtl(DIMS).(instanceID := "i", head := Some(env)), env, 0);
            && out.send.Some? && out.send.value.SendCommit?
            && out.send.value.env.mutation == PrevInsideNoop && out.send.value.env.commitSeq == 1
            && out.ctl == Ctl(None, Some(env), [], "i", 0, DIMS, true, Some(out.send.value.env), None, false)
  {
    hide Handled, Handled';
    var c := NewCtl(DIMS).(instanceID := "i", head := Some(env));
    assert BuildCommitMsgs(RegisterInput(c, env), 0).Ok?;
  }

  function TaskTo(route: Option<Region>, x: real): WorkerTask {
    var r := if x < 0.0 then 0 else 1;
    WorkerTask(if route.None? then TaskInit else if route == Some(r) then TaskUpdate else TaskTransition,
               ID, "", Position(x, 0.0, 0.0, 0.0), DIMS, r, route)
  }

  lemma ArriveAt(o: Obj, route: Option<Region>, x: real, removal: bool) returns (o1: Obj)
    requires Resting(o, route, removal)
    ensures Reaches(SOURCE, ID, o1, removal) && o1.up && o1.log == o.log && o1.prev == o.prev && o1.tree == o.tree
    ensures o1.tok == Some(TaskTok(TaskTo(route, x)))
    ensures o1.ctl == Some(o.ctl.value.(head := Some(At(x)), route := Some(TaskTo(route, x).region)))
  {
    hide Reaches, Inv, Commits;
    ReachesSound(SOURCE, ID, o, removal);
    FreshName(o);
    var inst :| FreshInstance(o, inst);
    hide FreshInstance;
    ReachesNext(SOURCE, ID, o, LArrive(At(x), inst, 0), removal);
    o1 := Arrive(SOURCE, o, At(x), inst, 0);
  }

  /** The worker's result is turned into a commit. */
  lemma Submits(c: Ctl, res: WorkerResult, x: real, now: nat)
    requires c.head == Some(At(x)) && Ready(c) && c.instanceID != "" && !res.rejected
    requires res.objectID == ID && res.clientOpID == ""
    ensures var out := OnResult(SOURCE, c, res, now);
            && out.send.Some? && out.send.value.SendCommit?
            && out.ctl == c.(committing := true, commitEnvelope := Some(out.send.value.env))
            && var env := out.send.value.env;
               && env.commitSeq == c.lastCommitSeq + 1 && env.mutation == PrevInsideSet(res.newRegion, res.currentInside)
               && StateOf(env.commit).Some?
               && var st := StateOf(env.commit).value;
                  && st.commitSeq == c.lastCommitSeq + 1 && st.insideAreaIDs == res.insideAreaIDs && st.transitions == res.transitions
  {
    var input := ResultInput(c, At(x), res);
    assert BuildCommitMsgs(input, now).Ok?;
    CheckpointRoundTrip(input, now);
  }

  lemma WorkAt(o: Obj, o1: Obj, route: Option<Region>, x: real, ch: Choice, removal: bool) returns (o3: Obj)
    requires Resting(o, route, removal) && ValidChoice(TaskTo(route, x), o.prev, ch)
    requires Reaches(SOURCE, ID, o1, removal) && o1.up && o1.log == o.log && o1.prev == o.prev && o1.tree == o.tree
    requires o1.tok == Some(TaskTok(TaskTo(route, x)))
    requires o1.ctl == Some(o.ctl.value.(head := Some(At(x)), route := Some(TaskTo(route, x).region)))
    ensures Reaches(SOURCE, ID, o3, removal) && o3.up && o3.tok.Some? && o3.tok.value.CommitTok? && o3.log == o.log && o3.prev == o.prev
    ensures var t, env, c := TaskTo(route, x), o3.tok.value.env, o.ctl.value;
            && o3.ctl == Some(c.(head := Some(At(x)), route := Some(t.region), pub := Some(t.region),
                                 committing := true, commitEnvelope := Some(env)))
            && env.commitSeq == c.lastCommitSeq + 1 && env.mutation == PrevInsideSet(t.region, ch.cur)
            && StateOf(env.commit).Some?
            && var st := StateOf(env.commit).value;
               && st.commitSeq == c.lastCommitSeq + 1 && st.insideAreaIDs == ch.inside
               && st.transitions == Process(o.ctl, t, o.tree, ch).res.transitions
  {
    hide Reaches, Commits, Inv, ValidChoice, Marks, OnResult, StateOf;
    ReachesNext(SOURCE, ID, o1, LWork(ch), removal);
    ReachesSound(SOURCE, ID, o1, removal);
    TaskWorks(SOURCE, ID, o1, ch);
    var o2 := Work(o1, ch);
    Submits(o2.ctl.value, o2.tok.value.res, x, 0);
    ReachesNext(SOURCE, ID, o2, LTakeResult(0), removal);
    o3 := TakeResult(SOURCE, o2, 0);
  }

  /** One position command from rest to rest. */
  lemma MoveTo(o: Obj, route: Option<Region>, x: real, ch: Choice, removal: bool) returns (o': Obj)
    requires Resting(o, route, removal) && ValidChoice(TaskTo(route, x), o.prev, ch)
    ensures var t := TaskTo(route, x);
            && Resting(o', Some(t.region), removal) && o'.prev == SetPrev(o.prev, t.region, ch.cur)
            && |Commits(o'.log)| == |Commits(o.log)| + 1 && Commits(o.log) <= Commits(o'.log)
            && var st := Commits(o'.log)[|Commits(o.log)|];
               && st.commitSeq == o.ctl.value.lastCommitSeq + 1 && st.insideAreaIDs == ch.inside
               && st.transitions == Process(o.ctl, t, o.tree, ch).res.transitions
  {
    hide Reaches, Commits, ValidChoice, Process, StateOf, SetPrev;
    var o1 := ArriveAt(o, route, x, removal);
    var o3 := WorkAt(o, o1, route, x, ch, removal);
    o' := CommitSettles(SOURCE, ID, o3, removal);
  }

  lemma Listings()
    ensures Lists<AreaID>([], {}) && Lists([AREA], {AREA})
  {
    assert Elems<AreaID>([]) == {} && Elems([AREA]) == {AREA};
  }

  lemma Choices()
    ensures ValidChoice(TaskTo(None, -1.0), map[], Choice({AREA}, [AREA], [AREA], [], []))
    ensures ValidChoice(TaskTo(Some(0), 1.0), map[0 := {AREA}], Choice({}, [], [], [], [AREA]))
    ensures ValidChoice(TaskTo(Some(1), -1.0), map[0 := {AREA}], Choice({AREA}, [AREA], [], [], []))
    ensures ValidChoice(TaskTo(Some(0), -1.0), map[], Choice({}, [], [], [], []))
  {
    Listings();
    var none: set<AreaID> := {};
    assert {AREA} - none == {AREA} && none - {AREA} == none && {AREA} - {AREA} == none && none - none == none;
  }

  /** A commit without transitions that changes what is inside does not fold. */
  lemma NotFolding(cs: seq<StateRecord>, k: nat)
    requires 0 < k < |cs| && cs[k].commitSeq != 1 && cs[k].transitions == []
    requires InsideOf(cs[k]) != InsideOf(cs[k - 1])
    ensures !FoldOK(cs)
  {
    assert !Folds(cs, k);
  }

  lemma InsideIs()
    ensures Elems([AREA]) != Elems<AreaID>([])
  {
    assert AREA in Elems([AREA]);
  }

  /** A run whose committed transitions do not all replay. */
  ghost predicate Breaks(run: seq<Obj>, labels: seq<Label>, removal: bool) {
    IsRun(SOURCE, ID, run, labels) && Calm(labels, removal) && !AllReplay(Commits(run[|run| - 1].log))
  }

  lemma ReachesRun(o: Obj, removal: bool)
    requires Reaches(SOURCE, ID, o, removal) && !FoldOK(Commits(o.log))
    ensures exists run, labels :: Breaks(run, labels, removal)
  {
    hide IsRun, Inv, LogInv, CompleteInv, BookOK, Commits, FoldOK, AllReplay, ChainOK;
    var run, labels :| IsRun(SOURCE, ID, run, labels) && Calm(labels, removal) && |run| > 0 && run[|run| - 1] == o;
    RunLength(SOURCE, ID, run, labels);
    RunSound(SOURCE, ID, run, labels, |run| - 1);
    InvChain(SOURCE, ID, o);
    FoldIffReplays(SOURCE, ID, Commits(o.log));
    assert Breaks(run, labels, removal);
  }

  /** A return breaks the replay: in, out to the other region, and back in. */
  lemma ReturnBreaksReplay()
    ensures exists run, labels :: Breaks(run, labels, false)
  {
    hide Reaches, Commits, FoldOK, IsRun, Lists, Breaks, Elems;
    Listings();
    InsideIs();
    var o0 := Registered(false);
    Choices();
    var o1 := MoveTo(o0, None, -1.0, Choice({AREA}, [AREA], [AREA], [], []), false);
    assert o1.prev == map[0 := {AREA}];
    var o2 := MoveTo(o1, Some(0), 1.0, Choice({}, [], [], [], [AREA]), false);
    assert o2.prev == map[0 := {AREA}];
    var o3 := MoveTo(o2, Some(1), -1.0, Choice({AREA}, [AREA], [], [], []), false);
    assert Commits(o3.log)[|Commits(o1.log)|] == Commits(o2.log)[|Commits(o1.log)|];
    NotFolding(Commits(o3.log), |Commits(o2.log)|);
    ReachesRun(o3, false);
  }

  /** An area removal breaks the replay: in, the area is removed, and the next position reports nothing inside
      without an exit. */
  lemma RemovalBreaksReplay()
    ensures exists run, labels :: Breaks(run, labels, true)
  {
    hide Reaches, Commits, FoldOK, IsRun, Lists, Breaks, Elems;
    Listings();
    InsideIs();
    var o0 := Registered(true);
    Choices();
    var o1 := MoveTo(o0, None, -1.0, Choice({AREA}, [AREA], [AREA], [], []), true);
    assert o1.prev == map[0 := {AREA}];
    ReachesNext(SOURCE, ID, o1, LForgetArea(0, AREA), true);
    var o2 := ForgetArea(o1, 0, AREA);
    assert {AREA} - {AREA} == {};
    assert o2 == o1.(prev := map[]);
    var o3 := MoveTo(o2, Some(0), -1.0, Choice({}, [], [], [], []), true);
    assert Commits(o3.log)[|Commits(o0.log)|] == Commits(o2.log)[|Commits(o0.log)|];
    NotFolding(Commits(o3.log), |Commits(o2.log)|);
    ReachesRun(o3, true);
  }
}
