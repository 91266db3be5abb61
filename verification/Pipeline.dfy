/** The whole command pipeline as a transition system: the dispatcher with its one pending send, the
    region workers and the transition executor behind bounded inboxes, the result channel, the
    publisher pool behind the commit channel, the commit result channel, all objects, and the one
    stream they share.  Each locked section and each channel operation is one atomic step. */
module Pipeline {
  import opened Domain
  import opened Events
  import opened EventLog
  import opened Mailbox
  import opened ObjectMachine

  const RESULT_BUFFER := 4096
  const COMMIT_BUFFER := 4096
  const COMMIT_RESULT_BUFFER := 4096
  const MAX_IN_FLIGHT := 64
  const PUBLISHERS := 2

  /** A region's inbox holds 256 tasks, that of the transition executor 64. */
  function InboxCap(regions: nat, w: nat): nat { if w < regions then 256 else 64 }

  datatype RegionState = RegionState(tree: map<ObjectID, Item>, prev: map<ObjectID, set<AreaID>>)

  /** `hold` is a result the worker is about to send. */
  datatype Worker = Worker(inbox: seq<WorkerTask>, hold: Option<WorkerResult>)

  /** `hold` is an envelope waiting for a free slot; each job is one goroutine. */
  datatype Publisher = Publisher(hold: Option<CommitEnvelope>, jobs: seq<Job>)

  /** Bookkeeping per object, see `Obj`. */
  datatype History = History(sent: seq<CommitEnvelope>, left: set<Region>, book: Book)

  const NO_HISTORY := History([], {}, EMPTY_BOOK)

  datatype Sys = Sys(
    up: bool, ctls: map<ObjectID, Ctl>, regions: seq<RegionState>,
    out: Option<Send>, workers: seq<Worker>, results: seq<WorkerResult>,
    commits: seq<CommitEnvelope>, pubs: seq<Publisher>, done: seq<CommitEnvelope>,
    log: seq<Msg>, base: seq<Msg>, tok: map<ObjectID, Token>, hist: map<ObjectID, History>)

  // ---- stores keyed by object ---------------------------------------------------------------------

  function Get<T>(m: map<ObjectID, T>, id: ObjectID): Option<T> { if id in m then Some(m[id]) else None }

  function Put<T>(m: map<ObjectID, T>, id: ObjectID, v: Option<T>): map<ObjectID, T> {
    if v.Some? then m[id := v.value] else m - {id}
  }

  function HistoryOf(s: Sys, id: ObjectID): History { if id in s.hist then s.hist[id] else NO_HISTORY }

  function PutItem(regions: seq<RegionState>, r: Region, id: ObjectID, item: Option<Item>): seq<RegionState> {
    if r < |regions| then regions[r := regions[r].(tree := Put(regions[r].tree, id, item))] else regions
  }

  function PutPrev(regions: seq<RegionState>, r: Region, id: ObjectID, inside: set<AreaID>): seq<RegionState> {
    if r < |regions|
    then regions[r := regions[r].(prev := Put(regions[r].prev, id, if inside == {} then None else Some(inside)))]
    else regions
  }

  // ---- the view of one object -----------------------------------------------------------------------

  function TreeView(regions: seq<RegionState>, id: ObjectID): map<Region, Item> {
    map r: Region | r < |regions| && id in regions[r].tree :: regions[r].tree[id]
  }

  function PrevView(regions: seq<RegionState>, id: ObjectID): map<Region, set<AreaID>> {
    map r: Region | r < |regions| && id in regions[r].prev :: regions[r].prev[id]
  }

  function View(s: Sys, id: ObjectID): Obj {
    var h := HistoryOf(s, id);
    Obj(s.up, Get(s.ctls, id), Get(s.tok, id), TreeView(s.regions, id), PrevView(s.regions, id),
        LogView(s.log, id), LogView(s.base, id), h.sent, h.left, h.book)
  }

  // ---- the dispatcher's steps -------------------------------------------------------------------------

  /** A handler ran for one object: its control block, bookkeeping and token change, and what it
      sends is pending. */
  function Handle(s: Sys, id: ObjectID, ctl: Option<Ctl>, send: Option<Send>, tok: Option<Token>, h: History): Sys {
    s.(ctls := Put(s.ctls, id, ctl), out := send, tok := Put(s.tok, id, tok), hist := s.hist[id := h])
  }

  function TakeEnvelope(cfg: Config, s: Sys, env: Envelope, inst: string, now: nat): Sys
    requires env.objectID in s.ctls && s.ctls[env.objectID].head.None? ==> Ready(s.ctls[env.objectID])
  {
    var id := env.objectID;
    var a, h := OnEnvelope(cfg, Get(s.ctls, id), env, inst, now), HistoryOf(s, id);
    Handle(s, id, a.ctl, a.send, if a.send.Some? then TokenOf(a.send) else Get(s.tok, id),
           h.(left := h.left + LeftBy(a.send),
              book := Book(h.book.arrived + [env.reply], h.book.accepted + (if a.refused == [] then [env.reply] else []),
                           h.book.answered + a.answers, h.book.refused + a.refused)))
  }

  function TakeWorkerResult(cfg: Config, s: Sys, now: nat): Sys
    requires s.results != []
    requires var id := s.results[0].objectID; id in s.ctls && s.ctls[id].head.Some? ==> Ready(s.ctls[id])
  {
    var res := s.results[0];
    var id, rest := res.objectID, s.(results := s.results[1..]);
    if id !in s.ctls || s.ctls[id].head.None? then rest.(tok := s.tok - {id})
    else
      var out, h := OnResult(cfg, s.ctls[id], res, now), HistoryOf(s, id);
      Handle(rest, id, Some(out.ctl), out.send, TokenOf(out.send),
             h.(left := h.left + LeftBy(out.send), book := h.book.(answered := h.book.answered + out.answers)))
  }

  /** setPrevInside and deletePrevInside, each under the lock of its region. */
  function Mutate(regions: seq<RegionState>, id: ObjectID, m: Mutation): seq<RegionState> {
    match m
    case PrevInsideNoop => regions
    case PrevInsideSet(r, inside) => PutPrev(regions, r, id, inside)
    case PrevInsideMove(from, r, inside) => PutPrev(if from.Some? then PutPrev(regions, from.value, id, {}) else regions, r, id, inside)
    case PrevInsideDelete(from) => if from.Some? then PutPrev(regions, from.value, id, {}) else regions
  }

  function TakeCommitResult(cfg: Config, s: Sys, now: nat): Sys
    requires s.done != []
  {
    var env := s.done[0];
    var id, rest := env.objectID, s.(done := s.done[1..]);
    if id !in s.ctls then rest.(tok := s.tok - {id})
    else
      var c, h := s.ctls[id], HistoryOf(s, id);
      var f := OnCommitResult(cfg, c, ResultOf(env, true), now);
      Handle(rest.(regions := if c.commitEnvelope.Some? then Mutate(s.regions, id, c.commitEnvelope.value.mutation) else s.regions),
             id, f.ctl, f.send, TokenOf(f.send),
             History(h.sent + [env], h.left + LeftBy(f.send), h.book.(answered := h.book.answered + f.answers)))
  }

  /** The worker a task is for; the transition executor comes after the region workers. */
  function TargetOf(s: Sys, t: WorkerTask): nat { if t.kind == TaskTransition then |s.regions| else t.region }

  function Deliver(s: Sys): Sys
    requires s.out.Some?
    requires match s.out.value case SendTask(t) => TargetOf(s, t) < |s.workers| case _ => true
  {
    match s.out.value
    case SendTask(t) =>
      var w := TargetOf(s, t);
      s.(out := None, workers := s.workers[w := s.workers[w].(inbox := s.workers[w].inbox + [t])])
    case SendCommit(env) => s.(out := None, commits := s.commits + [env])
  }

  // ---- the workers' steps ----------------------------------------------------------------------------

  /** The tree changes of one task, under the locks of its regions. */
  function Retree(regions: seq<RegionState>, t: WorkerTask): seq<RegionState> {
    var item := Some(Item(t.pos, t.dims));
    match t.kind
    case TaskInit => PutItem(regions, t.region, t.id, item)
    case TaskUpdate => PutItem(regions, t.region, t.id, item)
    case TaskTransition =>
      if t.oldRegion.None? then regions
      else PutItem(PutItem(regions, t.oldRegion.value, t.id, None), t.region, t.id, item)
    case TaskRemove => PutItem(regions, t.region, t.id, None)
    case TaskRegister => regions
  }

  function WorkOne(s: Sys, w: nat, ch: Choice): Sys
    requires w < |s.workers| && s.workers[w].inbox != []
  {
    var t := s.workers[w].inbox[0];
    var ctl := Get(s.ctls, t.id);
    var worked := Process(ctl, t, TreeView(s.regions, t.id), ch);
    s.(ctls := Put(s.ctls, t.id, worked.ctl),
       regions := if worked.res.rejected || ctl.None? then s.regions else Retree(s.regions, t),
       workers := s.workers[w := Worker(s.workers[w].inbox[1..], Some(worked.res))],
       tok := s.tok[t.id := ResTok(worked.res)])
  }

  function SendResult(s: Sys, w: nat): Sys
    requires w < |s.workers| && s.workers[w].hold.Some?
  {
    s.(workers := s.workers[w := s.workers[w].(hold := None)], results := s.results + [s.workers[w].hold.value])
  }

  // ---- the publisher's steps ---------------------------------------------------------------------------

  function SetPub(s: Sys, p: nat, pub: Publisher): Sys
    requires p < |s.pubs|
  {
    s.(pubs := s.pubs[p := pub])
  }

  function TakeEnv(s: Sys, p: nat): Sys
    requires p < |s.pubs| && s.commits != []
  {
    SetPub(s, p, s.pubs[p].(hold := Some(s.commits[0]))).(commits := s.commits[1..])
  }

  function SpawnJob(s: Sys, p: nat): Sys
    requires p < |s.pubs| && s.pubs[p].hold.Some?
  {
    var env := s.pubs[p].hold.value;
    var job := Job(env, false, 0, 0);
    SetPub(s, p, Publisher(None, s.pubs[p].jobs + [job])).(tok := s.tok[env.objectID := JobTok(job)])
  }

  function TryPublish(s: Sys, p: nat, j: nat, out: Outcome): Sys
    requires p < |s.pubs| && j < |s.pubs[p].jobs| && JobActive(s.pubs[p].jobs[j])
  {
    var job := s.pubs[p].jobs[j];
    var job' := JobAfter(s.log, job, out);
    SetPub(s, p, s.pubs[p].(jobs := s.pubs[p].jobs[j := job'])).(
      log := LogAfter(s.log, JobMsg(job), out), tok := s.tok[job.env.objectID := JobTok(job')])
  }

  function FinishJob(s: Sys, p: nat, j: nat): Sys
    requires p < |s.pubs| && j < |s.pubs[p].jobs|
  {
    var env, jobs := s.pubs[p].jobs[j].env, s.pubs[p].jobs;
    SetPub(s, p, s.pubs[p].(jobs := jobs[..j] + jobs[j + 1..])).(
      done := s.done + [env], tok := s.tok[env.objectID := DoneTok(env)])
  }

  // ---- area removal, crash, repair and boot --------------------------------------------------------------

  function ForgetIn(prev: map<ObjectID, set<AreaID>>, area: AreaID): map<ObjectID, set<AreaID>> {
    map id | id in prev && prev[id] != {area} :: prev[id] - {area}
  }

  function RemoveAreaIn(s: Sys, r: Region, area: AreaID): Sys {
    if r < |s.regions| then s.(regions := s.regions[r := s.regions[r].(prev := ForgetIn(s.regions[r].prev, area))]) else s
  }

  function Empty(cfg: Config): Sys {
    Sys(true, map[], seq(cfg.regions, i => RegionState(map[], map[])), None,
        seq(cfg.regions + 1, i => Worker([], None)), [], [], seq(PUBLISHERS, i => Publisher(None, [])), [],
        [], [], map[], map[])
  }

  function CrashAll(cfg: Config, s: Sys): Sys {
    Empty(cfg).(up := false, log := s.log, base := s.base, hist := s.hist)
  }

  function ObjectsIn(log: seq<Msg>): set<ObjectID> {
    set m | m in log && !m.subject.GeoTruthBooted? :: m.subject.o
  }

  /** BootstrapFromState for every object whose latest commit is not a removal. */
  ghost function BootAll(cfg: Config, s: Sys): Sys {
    var ids := ObjectsIn(s.log);
    Empty(cfg).(
      ctls := map id | id in ids && BootState(cfg, LogView(s.log, id)).ctl.Some? :: BootState(cfg, LogView(s.log, id)).ctl.value,
      regions := seq(cfg.regions, r requires 0 <= r < cfg.regions => RegionState(
        map id | id in ids && r in BootState(cfg, LogView(s.log, id)).tree :: BootState(cfg, LogView(s.log, id)).tree[r],
        map id | id in ids && r in BootState(cfg, LogView(s.log, id)).prev :: BootState(cfg, LogView(s.log, id)).prev[r])),
      log := s.log, base := s.log)
  }

  // ---- steps ---------------------------------------------------------------------------------------------

  datatype Action =
    | ATakeEnvelope(env: Envelope, inst: string, now: nat)
    | ATakeResult(at: nat)
    | ATakeCommitResult(when: nat)
    | ADeliver
    | AWork(w: nat, ch: Choice)
    | ASendResult(w: nat)
    | ATakeEnv(p: nat)
    | ASpawn(p: nat)
    | ATryPublish(p: nat, j: nat, outcome: Outcome)
    | AFinish(p: nat, j: nat)
    | ARemoveArea(region: Region, area: AreaID)
    | ACrash
    | ABooted(m: Msg)
    | ARepair(id: ObjectID, repaired: Msg, time: nat)
    | ABoot

  /** Whether the handler of a command finds the mailbox in a state it can work on. */
  predicate CanHandle(s: Sys, id: ObjectID) { id in s.ctls && s.ctls[id].head.None? ==> Ready(s.ctls[id]) }

  predicate CanFinish(s: Sys, id: ObjectID) { id in s.ctls && s.ctls[id].head.Some? ==> Ready(s.ctls[id]) }

  predicate HasRoom(cfg: Config, s: Sys, send: Send) {
    match send
    case SendTask(t) => TargetOf(s, t) < |s.workers| && |s.workers[TargetOf(s, t)].inbox| < InboxCap(|s.regions|, TargetOf(s, t))
    case SendCommit(_) => |s.commits| < COMMIT_BUFFER
  }

  ghost predicate Can(cfg: Config, s: Sys, a: Action) {
    match a
    case ATakeEnvelope(env, inst, _) =>
      s.up && s.out.None? && env.kind in {TaskRegister, TaskUpdate, TaskRemove}
      && FreshInstance(View(s, env.objectID), inst) && CanHandle(s, env.objectID)
    case ATakeResult(_) => s.up && s.out.None? && s.results != [] && CanFinish(s, s.results[0].objectID)
    case ATakeCommitResult(_) => s.up && s.out.None? && s.done != []
    case ADeliver => s.up && s.out.Some? && HasRoom(cfg, s, s.out.value)
    case AWork(w, ch) =>
      s.up && w < |s.workers| && s.workers[w].inbox != [] && s.workers[w].hold.None?
      && ValidChoice(s.workers[w].inbox[0], PrevView(s.regions, s.workers[w].inbox[0].id), ch)
    case ASendResult(w) => s.up && w < |s.workers| && s.workers[w].hold.Some? && |s.results| < RESULT_BUFFER
    case ATakeEnv(p) => s.up && p < |s.pubs| && s.pubs[p].hold.None? && s.commits != []
    case ASpawn(p) => s.up && p < |s.pubs| && s.pubs[p].hold.Some? && |s.pubs[p].jobs| < MAX_IN_FLIGHT
    case ATryPublish(p, j, out) =>
      s.up && p < |s.pubs| && j < |s.pubs[p].jobs| && JobActive(s.pubs[p].jobs[j]) && ValidOutcome(out)
    case AFinish(p, j) =>
      s.up && p < |s.pubs| && j < |s.pubs[p].jobs| && !JobActive(s.pubs[p].jobs[j]) && |s.done| < COMMIT_RESULT_BUFFER
    case ARemoveArea(_, _) => s.up
    case ACrash => true
    case ABooted(m) => !s.up && m.subject.GeoTruthBooted?
    case ARepair(id, m, now) => CanRepair(View(s, id), m, now)
    case ABoot => !s.up && forall id {:trigger LogView(s.log, id)} :: id in ObjectsIn(s.log) ==> Repaired(LogView(s.log, id))
  }

  ghost function Do(cfg: Config, s: Sys, a: Action): Sys
    requires Can(cfg, s, a)
  {
    match a
    case ATakeEnvelope(env, inst, now) => TakeEnvelope(cfg, s, env, inst, now)
    case ATakeResult(now) => TakeWorkerResult(cfg, s, now)
    case ATakeCommitResult(now) => TakeCommitResult(cfg, s, now)
    case ADeliver => Deliver(s)
    case AWork(w, ch) => WorkOne(s, w, ch)
    case ASendResult(w) => SendResult(s, w)
    case ATakeEnv(p) => TakeEnv(s, p)
    case ASpawn(p) => SpawnJob(s, p)
    case ATryPublish(p, j, out) => TryPublish(s, p, j, out)
    case AFinish(p, j) => FinishJob(s, p, j)
    case ARemoveArea(r, area) => RemoveAreaIn(s, r, area)
    case ACrash => CrashAll(cfg, s)
    case ABooted(m) => s.(log := s.log + [m])
    case ARepair(_, m, _) => s.(log := s.log + [m])
    case ABoot => BootAll(cfg, s)
  }
}
