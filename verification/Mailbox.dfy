/** The per-object mailbox logic of the dispatcher (internal/engine/dispatcher.go) as functions of
    one control block.  Each handler yields the new control block, the answers given to callers,
    and at most one token handed to a channel: a task for a worker or a commit for the publisher.

    The dispatcher class refines these functions, and the protocol models step with them. */
module Mailbox {
  import opened Domain
  import opened Events

  datatype TaskKind = TaskInit | TaskUpdate | TaskTransition | TaskRemove | TaskRegister

  /** `reply` stands for the caller's reply subject, one per command. */
  datatype Envelope = Envelope(objectID: ObjectID, clientOpID: string, reply: nat,
                               pos: Position, dims: Dims, kind: TaskKind)

  datatype WorkerTask = WorkerTask(kind: TaskKind, id: ObjectID, clientOpID: string, pos: Position,
                                   dims: Dims, region: Region, oldRegion: Option<Region>)

  datatype WorkerResult = WorkerResult(
    objectID: ObjectID, clientOpID: string, newRegion: Region, rejected: bool,
    pos: Position, dims: Dims, insideAreaIDs: seq<AreaID>, transitions: seq<Transition>,
    currentInside: set<AreaID>, oldRegion: Option<Region>, hadPosition: bool)

  datatype Mutation =
    | PrevInsideNoop
    | PrevInsideSet(newRegion: Region, inside: set<AreaID>)
    | PrevInsideMove(oldRegion: Option<Region>, newRegion: Region, inside: set<AreaID>)
    | PrevInsideDelete(oldRegion: Option<Region>)

  datatype CommitEnvelope = CommitEnvelope(
    objectID: ObjectID, instanceID: string, commitSeq: nat, reply: nat,
    commit: Msg, projections: seq<Msg>, mutation: Mutation)

  datatype Ctl = Ctl(
    route: Option<Region>, head: Option<Envelope>, queue: seq<Envelope>,
    instanceID: string, lastCommitSeq: nat, dims: Dims,
    committing: bool, commitEnvelope: Option<CommitEnvelope>,
    pub: Option<Region>, deleted: bool)

  datatype Answer = Failed(reply: nat) | Committed(reply: nat, instanceID: string, commitSeq: nat)

  datatype Send = SendTask(task: WorkerTask) | SendCommit(env: CommitEnvelope)

  datatype Out = Out(ctl: Ctl, answers: seq<Answer>, send: Option<Send>)

  /** `resolve` is the region resolver.  `taskKind` selects which kind decides between replacing
      and moving the inside snapshot: that of the caller's command, as the source has it, or that
      of the worker task, as it intends. */
  datatype Config = Config(regions: nat, resolve: (Position, Option<Region>) -> Option<Region>, taskKind: bool)

  function NewCtl(dims: Dims): Ctl {
    Ctl(None, None, [], "", 0, dims, false, None, None, false)
  }

  // ---- dispatching --------------------------------------------------------------------------

  function DispatchPosition(cfg: Config, ctl: Ctl, env: Envelope, now: nat): (out: Out)
    requires ctl.head == Some(env) && Ready(ctl) && env.kind == TaskUpdate
    ensures Handled(cfg, ctl, out, now)
    decreases |ctl.queue|, 2
  {
    match cfg.resolve(env.pos, ctl.route)
    case None => RejectHead(cfg, ctl, env, now)
    case Some(resolved) =>
      if resolved >= cfg.regions then RejectHead(cfg, ctl, env, now)
      else
        var kind := if ctl.route.None? then TaskInit
                    else if ctl.route == Some(resolved) then TaskUpdate else TaskTransition;
        var task := WorkerTask(kind, env.objectID, env.clientOpID, env.pos, ctl.dims, resolved, ctl.route);
        Out(ctl.(route := Some(resolved)), [], Some(SendTask(task)))
  }

  function DispatchRemove(cfg: Config, ctl: Ctl, env: Envelope, now: nat): (out: Out)
    requires ctl.head == Some(env) && Ready(ctl) && env.kind == TaskRemove
    ensures Handled(cfg, ctl, out, now)
    decreases |ctl.queue|, 4
  {
    if ctl.route.None? then SubmitRemoveWithoutPosition(cfg, ctl, env, now)
    else
      var task := WorkerTask(TaskRemove, env.objectID, env.clientOpID, Position(0.0, 0.0, 0.0, 0.0),
                             ctl.dims, ctl.route.value, None);
      Out(ctl, [], Some(SendTask(task)))
  }

  function RemoveInput(ctl: Ctl, env: Envelope): CommitInput {
    CommitInput(env.objectID, ctl.instanceID, ctl.lastCommitSeq + 1, env.clientOpID, None,
                Position(0.0, 0.0, 0.0, 0.0), ctl.dims, false, false, [], Removed, [])
  }

  function SubmitRemoveWithoutPosition(cfg: Config, ctl: Ctl, env: Envelope, now: nat): (out: Out)
    requires ctl.head == Some(env) && Ready(ctl) && env.kind == TaskRemove && ctl.route.None?
    ensures Handled(cfg, ctl, out, now)
    decreases |ctl.queue|, 3
  {
    SubmitCommit(cfg, ctl, env, RemoveInput(ctl, env), PrevInsideNoop, now)
  }

  function RegisterInput(ctl: Ctl, env: Envelope): CommitInput {
    CommitInput(env.objectID, ctl.instanceID, ctl.lastCommitSeq + 1, env.clientOpID, None,
                Position(0.0, 0.0, 0.0, 0.0), env.dims, false, false, [], Active, [])
  }

  function SubmitNewRegister(cfg: Config, ctl: Ctl, env: Envelope, now: nat): (out: Out)
    requires ctl.head == Some(env) && Ready(ctl)
    ensures BuildCommitMsgs(RegisterInput(ctl, env), now).Err? ==> Handled(cfg, ctl, out, now)
    ensures BuildCommitMsgs(RegisterInput(ctl, env), now).Ok? ==>
              Submitted(ctl, RegisterInput(ctl, env), PrevInsideNoop, now, out)
  {
    SubmitCommit(cfg, ctl, env, RegisterInput(ctl, env), PrevInsideNoop, now)
  }

  function SubmitCommit(cfg: Config, ctl: Ctl, env: Envelope, input: CommitInput, mutation: Mutation, now: nat): (out: Out)
    requires ctl.head == Some(env) && Ready(ctl)
    ensures BuildCommitMsgs(input, now).Err? ==> Handled(cfg, ctl, out, now)
    ensures BuildCommitMsgs(input, now).Ok? && input.commitSeq != 0 ==> Submitted(ctl, input, mutation, now, out)
    decreases |ctl.queue|, 2
  {
    match BuildCommitMsgs(input, now)
    case Err => RejectHead(cfg, ctl, env, now)
    case Ok(msgs) =>
      var commit := CommitEnvelope(env.objectID, ctl.instanceID,
                                   if msgs.checkpointState.commitSeq != 0 then msgs.checkpointState.commitSeq
                                   else ctl.lastCommitSeq + 1,
                                   env.reply, msgs.commit, msgs.projections, mutation);
      Out(ctl.(committing := true, commitEnvelope := Some(commit)), [], Some(SendCommit(commit)))
  }

  function RejectHead(cfg: Config, ctl: Ctl, env: Envelope, now: nat): (out: Out)
    requires ctl.head == Some(env) && Ready(ctl)
    ensures Handled(cfg, ctl, out, now)
    decreases |ctl.queue|, 1
  {
    var out := DispatchNext(cfg, ctl.(head := None), now);
    assert Replies([Failed(env.reply)] + out.answers) == [env.reply] + Replies(out.answers);
    assert Waiting(ctl) == [env.reply] + Waiting(ctl.(head := None));
    out.(answers := [Failed(env.reply)] + out.answers)
  }

  function Popped(ctl: Ctl): (ctl': Ctl)
    requires ctl.head == None && ctl.queue != []
    ensures Waiting(ctl') == Waiting(ctl)
    ensures forall e :: Holds(ctl', e) ==> Holds(ctl, e)
  {
    ctl.(queue := ctl.queue[1..], head := Some(ctl.queue[0]))
  }

  function DispatchNext(cfg: Config, ctl: Ctl, now: nat): (out: Out)
    requires ctl.head == None && Ready(ctl)
    ensures Handled(cfg, ctl, out, now)
    decreases |ctl.queue|, 0
  {
    if ctl.queue == [] then Out(ctl, [], None)
    else
      var next := ctl.queue[0];
      var ctl' := Popped(ctl);
      var out := match next.kind
                 case TaskUpdate => DispatchPosition(cfg, ctl', next, now)
                 case TaskRemove => DispatchRemove(cfg, ctl', next, now)
                 case _ => RejectHead(cfg, ctl', next, now);
      PoppedHandled(cfg, ctl, out, now);
      out
  }

  lemma PoppedHandled(cfg: Config, ctl: Ctl, out: Out, now: nat)
    requires ctl.head == None && ctl.queue != [] && Handled(cfg, Popped(ctl), out, now)
    ensures Handled(cfg, ctl, out, now)
  {}

  // ---- the three entry points ----------------------------------------------------------------

  /** `refused` are answers given at the door; such a command never enters the mailbox. */
  datatype Arrival = Arrival(ctl: Option<Ctl>, refused: seq<Answer>, answers: seq<Answer>, send: Option<Send>)

  /** onEnvelope, onRegister, onPosition, onRemove; `inst` is the next instance identifier. */
  function OnEnvelope(cfg: Config, ctl: Option<Ctl>, env: Envelope, inst: string, now: nat): Arrival
    requires ctl.Some? && ctl.value.head.None? ==> Ready(ctl.value)
  {
    match env.kind
    case TaskRegister =>
      if ctl.Some? then Arrival(ctl, [Failed(env.reply)], [], None)
      else
        var out := SubmitNewRegister(cfg, NewCtl(env.dims).(instanceID := inst, head := Some(env)), env, now);
        Arrival(Some(out.ctl), [], out.answers, out.send)
    case TaskUpdate => OnMailboxCommand(cfg, ctl, env, now)
    case TaskRemove => OnMailboxCommand(cfg, ctl, env, now)
    case _ => Arrival(ctl, [Failed(env.reply)], [], None)
  }

  function OnMailboxCommand(cfg: Config, ctl: Option<Ctl>, env: Envelope, now: nat): Arrival
    requires ctl.Some? && ctl.value.head.None? ==> Ready(ctl.value)
    requires env.kind == TaskUpdate || env.kind == TaskRemove
  {
    if ctl.None? || ctl.value.deleted then Arrival(ctl, [Failed(env.reply)], [], None)
    else
      var c := ctl.value;
      if c.head.Some? || c.committing then Arrival(Some(c.(queue := c.queue + [env])), [], [], None)
      else
        var c' := c.(head := Some(env));
        var out := if env.kind == TaskUpdate then DispatchPosition(cfg, c', env, now)
                   else DispatchRemove(cfg, c', env, now);
        Arrival(Some(out.ctl), [], out.answers, out.send)
  }

  function ResultInput(ctl: Ctl, head: Envelope, res: WorkerResult): CommitInput {
    var removing := head.kind == TaskRemove;
    CommitInput(res.objectID, ctl.instanceID, ctl.lastCommitSeq + 1, res.clientOpID,
                if removing then res.oldRegion else Some(res.newRegion), res.pos, res.dims,
                !removing, !removing || res.hadPosition,
                if removing then [] else res.insideAreaIDs,
                if removing then Removed else Active, res.transitions)
  }

  /** The deferred write of the inside snapshot.  A position command never carries the kind
      `TaskTransition`, so the source's own test selects `PrevInsideSet` for a region change. */
  function ResultMutation(cfg: Config, head: Envelope, res: WorkerResult): Mutation {
    if head.kind == TaskRemove then PrevInsideDelete(res.oldRegion)
    else if head.kind == TaskTransition || (cfg.taskKind && res.oldRegion.Some?)
      then PrevInsideMove(res.oldRegion, res.newRegion, res.currentInside)
    else PrevInsideSet(res.newRegion, res.currentInside)
  }

  function OnResult(cfg: Config, ctl: Ctl, res: WorkerResult, now: nat): (out: Out)
    requires ctl.head.Some? && Ready(ctl)
  {
    var head := ctl.head.value;
    if res.rejected then RejectHead(cfg, ctl, head, now)
    else SubmitCommit(cfg, ctl, head, ResultInput(ctl, head, res), ResultMutation(cfg, head, res), now)
  }

  datatype CommitResult = CommitResult(objectID: ObjectID, instanceID: string, commitSeq: nat, reply: nat, ok: bool)

  function ResultOf(env: CommitEnvelope, ok: bool): CommitResult {
    CommitResult(env.objectID, env.instanceID, env.commitSeq, env.reply, ok)
  }

  datatype Finish = Finish(ctl: Option<Ctl>, answers: seq<Answer>, send: Option<Send>)

  function OnCommitResult(cfg: Config, ctl: Ctl, cr: CommitResult, now: nat): Finish {
    var idle := ctl.(committing := false, commitEnvelope := None, head := None);
    if !cr.ok then
      var out := DispatchNext(cfg, idle, now);
      Finish(Some(out.ctl), (if ctl.head.Some? then [Failed(ctl.head.value.reply)] else []) + out.answers, out.send)
    else
      var ack := [Committed(cr.reply, cr.instanceID, cr.commitSeq)];
      if ctl.head.Some? && ctl.head.value.kind == TaskRemove then
        Finish(None, ack + seq(|ctl.queue|, i requires 0 <= i < |ctl.queue| => Failed(ctl.queue[i].reply)), None)
      else
        var out := DispatchNext(cfg, idle.(lastCommitSeq := cr.commitSeq), now);
        Finish(Some(out.ctl), ack + out.answers, out.send)
  }

  // ---- what a handler does to a mailbox ------------------------------------------------------

  predicate Ready(ctl: Ctl) { !ctl.committing && ctl.commitEnvelope == None }

  function Replies(answers: seq<Answer>): seq<nat> {
    seq(|answers|, i requires 0 <= i < |answers| => answers[i].reply)
  }

  function RepliesOf(envs: seq<Envelope>): seq<nat> {
    seq(|envs|, i requires 0 <= i < |envs| => envs[i].reply)
  }

  /** The commands that still await an answer, in order. */
  function Waiting(ctl: Ctl): seq<nat> {
    (if ctl.head.Some? then [ctl.head.value.reply] else []) + RepliesOf(ctl.queue)
  }

  /** The command is at the head or in the queue. */
  predicate Holds(ctl: Ctl, e: Envelope) { ctl.head == Some(e) || e in ctl.queue }

  ghost predicate Handled'(ctl: Ctl, out: Out) {
    && Replies(out.answers) + Waiting(out.ctl) == Waiting(ctl)
    && (forall i :: 0 <= i < |out.answers| ==> out.answers[i].Failed?)
    && (forall e :: Holds(out.ctl, e) ==> Holds(ctl, e))
    && out.ctl.(route := ctl.route, head := ctl.head, queue := ctl.queue,
                committing := false, commitEnvelope := None) == ctl
    && (out.send.Some? <==> out.ctl.head.Some?)
    && (out.ctl.head.None? ==> out.ctl.queue == [])
    && out.ctl.commitEnvelope == (if out.send.Some? && out.send.value.SendCommit? then Some(out.send.value.env) else None)
    && (out.ctl.committing <==> out.ctl.commitEnvelope.Some?)
  }

  /** The token sent, in terms of the route before and the command now at the head. */
  ghost predicate Handled(cfg: Config, ctl: Ctl, out: Out, now: nat) {
    && Handled'(ctl, out)
    && match out.send
       case None => out.ctl.route == ctl.route
       case Some(SendTask(t)) => TaskFits(cfg, ctl, out.ctl, t)
       case Some(SendCommit(env)) =>
         && out.ctl.route == ctl.route == None && out.ctl.head.value.kind == TaskRemove
         && CommitFits(ctl, out.ctl.head.value, RemoveInput(ctl, out.ctl.head.value), PrevInsideNoop, now, env)
  }

  ghost predicate TaskFits(cfg: Config, ctl: Ctl, ctl': Ctl, t: WorkerTask)
    requires ctl'.head.Some?
  {
    var env := ctl'.head.value;
    && t.id == env.objectID && t.dims == ctl.dims && t.clientOpID == env.clientOpID
    && ctl'.route == Some(t.region)
    && match env.kind
       case TaskUpdate =>
         && t.pos == env.pos && t.region < cfg.regions && t.oldRegion == ctl.route
         && cfg.resolve(env.pos, ctl.route) == Some(t.region)
         && t.kind == (if ctl.route.None? then TaskInit
                       else if ctl.route == Some(t.region) then TaskUpdate else TaskTransition)
       case TaskRemove => t.kind == TaskRemove && ctl.route == ctl'.route
       case _ => false
  }

  /** The head was turned into a commit for the publisher. */
  ghost predicate Submitted(ctl: Ctl, input: CommitInput, mutation: Mutation, now: nat, out: Out)
    requires ctl.head.Some?
  {
    && out.answers == []
    && out.send.Some? && out.send.value.SendCommit?
    && CommitFits(ctl, ctl.head.value, input, mutation, now, out.send.value.env)
    && out.ctl == ctl.(committing := true, commitEnvelope := Some(out.send.value.env))
  }

  ghost predicate CommitFits(ctl: Ctl, head: Envelope, input: CommitInput, mutation: Mutation, now: nat, env: CommitEnvelope) {
    && BuildCommitMsgs(input, now).Ok?
    && var msgs := BuildCommitMsgs(input, now).value;
       env == CommitEnvelope(head.objectID, ctl.instanceID, input.commitSeq, head.reply,
                             msgs.commit, msgs.projections, mutation)
  }
}
