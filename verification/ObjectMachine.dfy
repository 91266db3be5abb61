/** The life of one object as a state machine: its control block, the one token that travels for
    it, its entries in the regions' trees and inside snapshots, and its part of the log.

    Steps follow the locked sections of the source: a dispatcher handler, a worker's or transition
    executor's critical section, one publish attempt, and, across process lives, a crash, the
    projection repair at boot and the bootstrap.  `Pipeline` shows that the whole system, with its
    channels and all objects at once, moves every object by these steps only. */
module ObjectMachine {
  import opened Domain
  import opened Events
  import opened EventLog
  import opened Mailbox

  /** What a region's tree stores for an object; the rotated rectangle is a function of it. */
  datatype Item = Item(pos: Position, dims: Dims)

  /** A commit being published: whether the commit message is confirmed and which projection is
      next.  `reach` is bookkeeping: how many messages of the write set are known to be stored. */
  datatype Job = Job(env: CommitEnvelope, confirmed: bool, next: nat, reach: nat)

  datatype Token =
    | TaskTok(task: WorkerTask)
    | ResTok(res: WorkerResult)
    | CommitTok(env: CommitEnvelope)
    | JobTok(job: Job)
    | DoneTok(env: CommitEnvelope)

  /** The callers' view: commands that arrived, those let into the mailbox, and the answers. */
  datatype Book = Book(arrived: seq<nat>, accepted: seq<nat>, answered: seq<Answer>, refused: seq<Answer>)

  datatype Obj = Obj(
    up: bool, ctl: Option<Ctl>, tok: Option<Token>,
    tree: map<Region, Item>, prev: map<Region, set<AreaID>>,
    log: seq<Msg>, base: seq<Msg>, sent: seq<CommitEnvelope>, left: set<Region>, book: Book)

  const EMPTY_BOOK := Book([], [], [], [])

  function WriteSet(env: CommitEnvelope): seq<Msg> { [env.commit] + env.projections }

  function Prev(prev: map<Region, set<AreaID>>, r: Region): set<AreaID> {
    if r in prev then prev[r] else {}
  }

  // ---- the workers' critical sections ----------------------------------------------------------

  /** What the geometry and the map iteration orders decide: the areas now inside, and listings
      of that set and of the differences to the stored snapshots. */
  datatype Choice = Choice(cur: set<AreaID>, inside: seq<AreaID>, enters: seq<AreaID>,
                           exits: seq<AreaID>, oldExits: seq<AreaID>)

  ghost predicate ValidChoice(t: WorkerTask, prev: map<Region, set<AreaID>>, ch: Choice) {
    if t.kind == TaskRemove then Lists(ch.oldExits, Prev(prev, t.region))
    else
      && Lists(ch.inside, ch.cur)
      && Lists(ch.enters, ch.cur - Prev(prev, t.region))
      && Lists(ch.exits, Prev(prev, t.region) - ch.cur)
      && (t.kind == TaskTransition && t.oldRegion.Some? ==> Lists(ch.oldExits, Prev(prev, t.oldRegion.value)))
  }

  datatype Worked = Worked(res: WorkerResult, ctl: Option<Ctl>, tree: map<Region, Item>)

  function Rejection(t: WorkerTask): WorkerResult {
    WorkerResult(t.id, t.clientOpID, t.region, true, t.pos, t.dims, [], [], {}, None, false)
  }

  function Placed(t: WorkerTask, ch: Choice, transitions: seq<Transition>, oldRegion: Option<Region>): WorkerResult {
    WorkerResult(t.id, t.clientOpID, t.region, false, t.pos, t.dims, ch.inside, transitions, ch.cur, oldRegion, false)
  }

  /** processInit, processUpdate, processRemove and processTransition. */
  function Process(ctl: Option<Ctl>, t: WorkerTask, tree: map<Region, Item>, ch: Choice): Worked {
    var item := Item(t.pos, t.dims);
    var here := Marks(ch.enters, true) + Marks(ch.exits, false);
    match t.kind
    case TaskInit =>
      if ctl.None? then Worked(Rejection(t), ctl, tree)
      else Worked(Placed(t, ch, here, None), Some(ctl.value.(pub := Some(t.region))), tree[t.region := item])
    case TaskUpdate =>
      if ctl.None? || ctl.value.deleted || ctl.value.pub != Some(t.region) then Worked(Rejection(t), ctl, tree)
      else Worked(Placed(t, ch, here, None), ctl, tree[t.region := item])
    case TaskTransition =>
      if ctl.None? || t.oldRegion.None? then Worked(Rejection(t), ctl, tree)
      else Worked(Placed(t, ch, Marks(ch.oldExits, false) + here, t.oldRegion),
                  Some(ctl.value.(pub := Some(t.region))), (tree - {t.oldRegion.value})[t.region := item])
    case TaskRemove =>
      var origin := Position(0.0, 0.0, 0.0, 0.0);
      if ctl.None? then
        Worked(WorkerResult(t.id, t.clientOpID, t.region, false, origin, t.dims, [], [], {}, None, false), ctl, tree)
      else
        var known := t.region in tree;
        Worked(WorkerResult(t.id, t.clientOpID, t.region, false, if known then tree[t.region].pos else origin,
                            ctl.value.dims, [], Marks(ch.oldExits, false), {}, Some(t.region), known),
               Some(ctl.value.(pub := None, deleted := true)), tree - {t.region})
    case TaskRegister => Worked(Rejection(t), ctl, tree)
  }

  // ---- the deferred snapshot write ---------------------------------------------------------------

  function SetPrev(prev: map<Region, set<AreaID>>, r: Region, inside: set<AreaID>): map<Region, set<AreaID>> {
    if inside == {} then prev - {r} else prev[r := inside]
  }

  function DeletePrev(prev: map<Region, set<AreaID>>, r: Option<Region>): map<Region, set<AreaID>> {
    if r.None? then prev else prev - {r.value}
  }

  function ApplyMutation(prev: map<Region, set<AreaID>>, m: Mutation): map<Region, set<AreaID>> {
    match m
    case PrevInsideNoop => prev
    case PrevInsideSet(r, inside) => SetPrev(prev, r, inside)
    case PrevInsideMove(from, r, inside) => SetPrev(DeletePrev(prev, from), r, inside)
    case PrevInsideDelete(from) => DeletePrev(prev, from)
  }

  // ---- publishing --------------------------------------------------------------------------------

  /** What the stream does to one attempt: the message may be stored, an acknowledgement arrives
      only after that, and the verification read may fail. */
  datatype Outcome = Outcome(stored: bool, acked: bool, readable: bool)

  ghost predicate ValidOutcome(out: Outcome) { out.acked ==> out.stored }

  function JobIndex(job: Job): nat { if job.confirmed then job.next + 1 else 0 }

  predicate JobActive(job: Job) { !job.confirmed || job.next < |job.env.projections| }

  function JobMsg(job: Job): Msg
    requires JobActive(job)
  {
    if job.confirmed then job.env.projections[job.next] else job.env.commit
  }

  function LogAfter(log: seq<Msg>, m: Msg, out: Outcome): seq<Msg> {
    if out.stored then log + [m] else log
  }

  /** publishOrVerify: acknowledged, or the last message on the subject has the same event id. */
  predicate Confirms(log: seq<Msg>, m: Msg, out: Outcome) {
    var last := LastOnSubject(LogAfter(log, m, out), m.subject);
    out.acked || (out.readable && last.Some? && last.value.data.e == m.data.e)
  }

  /** One round of commitOne: a confirmed commit is never published again, and a failed projection
      sends the loop back to the first one. */
  function JobAfter(log: seq<Msg>, job: Job, out: Outcome): Job
    requires JobActive(job)
  {
    var ok := Confirms(log, JobMsg(job), out);
    var k := JobIndex(job) + 1;
    var reach := if (ok || out.stored) && job.reach < k then k else job.reach;
    if !ok then job.(next := 0, reach := reach)
    else if job.confirmed then job.(next := job.next + 1, reach := reach)
    else job.(confirmed := true, next := 0, reach := reach)
  }

  // ---- recovery ----------------------------------------------------------------------------------

  function BootCtl(st: StateRecord): Ctl {
    NewCtl(st.dims).(instanceID := st.instanceID, lastCommitSeq := st.commitSeq)
  }

  /** BootstrapFromState: placed only with a position in a known region. */
  predicate BootPlaces(cfg: Config, st: StateRecord) {
    st.lifecycle == Active && st.position.Some? && st.region.Some? && st.region.value < cfg.regions
  }

  datatype Booted = Booted(ctl: Option<Ctl>, tree: map<Region, Item>, prev: map<Region, set<AreaID>>)

  /** What bootstrapping makes of an active state. */
  function BootFrom(cfg: Config, st: StateRecord): Booted {
    if !BootPlaces(cfg, st) then Booted(Some(BootCtl(st)), map[], map[])
    else
      var r := st.region.value;
      var inside := Elems(st.insideAreaIDs);
      Booted(Some(BootCtl(st).(route := Some(r), pub := Some(r))),
             map[r := Item(st.position.value, st.dims)],
             if inside == {} then map[] else map[r := inside])
  }

  /** The state rebuilt for one object from its latest commit. */
  ghost function BootState(cfg: Config, log: seq<Msg>): Booted {
    match LastCommit(log)
    case None => Booted(None, map[], map[])
    case Some(m) =>
      if StateOf(m).value.lifecycle != Active then Booted(None, map[], map[]) else BootFrom(cfg, StateOf(m).value)
  }

  // ---- steps -------------------------------------------------------------------------------------

  function TokenOf(send: Option<Send>): Option<Token> {
    match send
    case None => None
    case Some(SendTask(t)) => Some(TaskTok(t))
    case Some(SendCommit(env)) => Some(CommitTok(env))
  }

  /** The region a transition takes the object away from. */
  function LeftBy(send: Option<Send>): set<Region> {
    match send
    case Some(SendTask(t)) => if t.kind == TaskTransition && t.oldRegion.Some? then {t.oldRegion.value} else {}
    case _ => {}
  }

  function Arrive(cfg: Config, o: Obj, env: Envelope, inst: string, now: nat): Obj
    requires o.ctl.Some? && o.ctl.value.head.None? ==> Ready(o.ctl.value)
  {
    var a := OnEnvelope(cfg, o.ctl, env, inst, now);
    o.(ctl := a.ctl, tok := if a.send.Some? then TokenOf(a.send) else o.tok, left := o.left + LeftBy(a.send),
       book := Book(o.book.arrived + [env.reply],
                    o.book.accepted + if a.refused == [] then [env.reply] else [],
                    o.book.answered + a.answers, o.book.refused + a.refused))
  }

  function Answered(o: Obj, answers: seq<Answer>): Book {
    o.book.(answered := o.book.answered + answers)
  }

  function Work(o: Obj, ch: Choice): Obj
    requires o.tok.Some? && o.tok.value.TaskTok?
  {
    var w := Process(o.ctl, o.tok.value.task, o.tree, ch);
    o.(ctl := w.ctl, tree := w.tree, tok := Some(ResTok(w.res)))
  }

  function TakeResult(cfg: Config, o: Obj, now: nat): Obj
    requires o.tok.Some? && o.tok.value.ResTok?
    requires o.ctl.Some? && o.ctl.value.head.Some? ==> Ready(o.ctl.value)
  {
    if o.ctl.None? || o.ctl.value.head.None? then o.(tok := None)
    else
      var out := OnResult(cfg, o.ctl.value, o.tok.value.res, now);
      o.(ctl := Some(out.ctl), tok := TokenOf(out.send), left := o.left + LeftBy(out.send),
         book := Answered(o, out.answers))
  }

  function StartJob(o: Obj): Obj
    requires o.tok.Some? && o.tok.value.CommitTok?
  {
    o.(tok := Some(JobTok(Job(o.tok.value.env, false, 0, 0))))
  }

  function Attempt(o: Obj, out: Outcome): Obj
    requires o.tok.Some? && o.tok.value.JobTok? && JobActive(o.tok.value.job)
  {
    var job := o.tok.value.job;
    o.(log := LogAfter(o.log, JobMsg(job), out), tok := Some(JobTok(JobAfter(o.log, job, out))))
  }

  function EndJob(o: Obj): Obj
    requires o.tok.Some? && o.tok.value.JobTok? && !JobActive(o.tok.value.job)
  {
    o.(tok := Some(DoneTok(o.tok.value.job.env)))
  }

  function TakeCommit(cfg: Config, o: Obj, now: nat): Obj
    requires o.tok.Some? && o.tok.value.DoneTok?
  {
    var env := o.tok.value.env;
    if o.ctl.None? then o.(tok := None)
    else
      var c := o.ctl.value;
      var f := OnCommitResult(cfg, c, ResultOf(env, true), now);
      o.(ctl := f.ctl, tok := TokenOf(f.send), left := o.left + LeftBy(f.send),
         prev := if c.commitEnvelope.Some? then ApplyMutation(o.prev, c.commitEnvelope.value.mutation) else o.prev,
         sent := o.sent + [env], book := Answered(o, f.answers))
  }

  /** RemoveArea, in one region: the area is erased from the snapshot, without an exit. */
  function ForgetArea(o: Obj, r: Region, area: AreaID): Obj {
    if r in o.prev && area in o.prev[r] then o.(prev := SetPrev(o.prev, r, o.prev[r] - {area})) else o
  }

  function Crash(o: Obj): Obj {
    Obj(false, None, None, map[], map[], o.log, o.base, o.sent, o.left, o.book)
  }

  function Repair(o: Obj, m: Msg): Obj { o.(log := o.log + [m]) }

  /** What repair may publish: a missing projection of the latest commit, as rebuilt from it. */
  ghost predicate CanRepair(o: Obj, m: Msg, now: nat) {
    && !o.up && LastCommit(o.log).Some?
    && var c := LastCommit(o.log).value;
       var expected := ExpectedProjectionMsgs(StateOf(c).value, c.data, now);
       expected.Ok? && m in expected.value
  }

  ghost predicate Repaired(log: seq<Msg>) {
    LastCommit(log).Some? ==> Complete(log, StateOf(LastCommit(log).value).value)
  }

  ghost function Boot(cfg: Config, o: Obj): Obj {
    var b := BootState(cfg, o.log);
    Obj(true, b.ctl, None, b.tree, b.prev, o.log, o.log, [], {}, EMPTY_BOOK)
  }

  datatype Label =
    | LArrive(env: Envelope, inst: string, now: nat)
    | LWork(ch: Choice)
    | LTakeResult(at: nat)
    | LStartJob
    | LAttempt(out: Outcome)
    | LEndJob
    | LTakeCommit(when: nat)
    | LForgetArea(region: Region, area: AreaID)
    | LCrash
    | LRepair(m: Msg, time: nat)
    | LBoot

  /** Instance identifiers are fresh: assumed, see `EventIds` for when the issued strings are. */
  ghost predicate FreshInstance(o: Obj, inst: string) {
    inst != "" && forall k :: 0 <= k < |Commits(o.log)| ==> Commits(o.log)[k].instanceID != inst
  }

  ghost predicate Enabled(id: ObjectID, o: Obj, l: Label) {
    match l
    case LArrive(env, inst, _) =>
      o.up && env.objectID == id && env.kind in {TaskRegister, TaskUpdate, TaskRemove} && FreshInstance(o, inst)
      && (o.ctl.Some? && o.ctl.value.head.None? ==> Ready(o.ctl.value))
    case LWork(ch) => o.up && o.tok.Some? && o.tok.value.TaskTok? && ValidChoice(o.tok.value.task, o.prev, ch)
    case LTakeResult(_) =>
      o.up && o.tok.Some? && o.tok.value.ResTok? && (o.ctl.Some? && o.ctl.value.head.Some? ==> Ready(o.ctl.value))
    case LStartJob => o.up && o.tok.Some? && o.tok.value.CommitTok?
    case LAttempt(out) =>
      o.up && o.tok.Some? && o.tok.value.JobTok? && JobActive(o.tok.value.job) && ValidOutcome(out)
    case LEndJob => o.up && o.tok.Some? && o.tok.value.JobTok? && !JobActive(o.tok.value.job)
    case LTakeCommit(_) => o.up && o.tok.Some? && o.tok.value.DoneTok?
    case LForgetArea(_, _) => o.up
    case LCrash => true
    case LRepair(m, now) => CanRepair(o, m, now)
    case LBoot => !o.up && Repaired(o.log)
  }

  ghost function Step(cfg: Config, id: ObjectID, o: Obj, l: Label): Obj
    requires Enabled(id, o, l)
  {
    match l
    case LArrive(env, inst, now) => Arrive(cfg, o, env, inst, now)
    case LWork(ch) => Work(o, ch)
    case LTakeResult(now) => TakeResult(cfg, o, now)
    case LStartJob => StartJob(o)
    case LAttempt(out) => Attempt(o, out)
    case LEndJob => EndJob(o)
    case LTakeCommit(now) => TakeCommit(cfg, o, now)
    case LForgetArea(r, a) => ForgetArea(o, r, a)
    case LCrash => Crash(o)
    case LRepair(m, _) => Repair(o, m)
    case LBoot => Boot(cfg, o)
  }

  ghost predicate Initial(o: Obj) {
    o == Obj(true, None, None, map[], map[], [], [], [], {}, EMPTY_BOOK)
  }
}
