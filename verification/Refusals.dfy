/** Which commands of a mailbox are refused, and what becomes of the others, in terms of the commands alone:
    a position is refused exactly when no known region resolves for it, and the first command that is not
    refused goes out with its token. */
module Refusals {
  import opened Domain
  import opened Events
  import opened Mailbox

  /** All commands in a mailbox, in order. */
  function Commands(ctl: Ctl): seq<Envelope> { (if ctl.head.Some? then [ctl.head.value] else []) + ctl.queue }

  predicate Unresolved(cfg: Config, route: Option<Region>, pos: Position) {
    var resolved := cfg.resolve(pos, route);
    resolved.None? || resolved.value >= cfg.regions
  }

  /** Commands that cannot be started: a position without a known region; a removal without a position in an
      instance without a name; and whatever is neither a position nor a removal. */
  predicate Refused(cfg: Config, route: Option<Region>, inst: string, env: Envelope) {
    match env.kind
    case TaskUpdate => Unresolved(cfg, route, env.pos)
    case TaskRemove => route.None? && inst == ""
    case _ => true
  }

  /** How many commands are refused before the first one that is not. */
  function RefusedPrefix(cfg: Config, route: Option<Region>, inst: string, envs: seq<Envelope>): (n: nat)
    ensures n <= |envs| && forall k :: 0 <= k < n ==> Refused(cfg, route, inst, envs[k])
    ensures n < |envs| ==> !Refused(cfg, route, inst, envs[n])
  {
    if envs == [] || !Refused(cfg, route, inst, envs[0]) then 0 else 1 + RefusedPrefix(cfg, route, inst, envs[1..])
  }

  function FailAll(envs: seq<Envelope>): seq<Answer> {
    seq(|envs|, i requires 0 <= i < |envs| => Failed(envs[i].reply))
  }

  /** The token for a command that is not refused, and the control block that waits for its result. */
  ghost predicate Dispatched(cfg: Config, ctl: Ctl, env: Envelope, now: nat, out: Out) {
    match env.kind
    case TaskUpdate =>
      var resolved := cfg.resolve(env.pos, ctl.route);
      && resolved.Some? && out.ctl == ctl.(head := Some(env), queue := out.ctl.queue, route := resolved)
      && out.send == Some(SendTask(WorkerTask(
           if ctl.route.None? then TaskInit else if ctl.route == resolved then TaskUpdate else TaskTransition,
           env.objectID, env.clientOpID, env.pos, ctl.dims, resolved.value, ctl.route)))
    case TaskRemove =>
      if ctl.route.None? then
        var input := RemoveInput(ctl, env);
        var msgs := BuildCommitMsgs(input, now);
        && msgs.Ok?
        && var commit := CommitEnvelope(env.objectID, ctl.instanceID, ctl.lastCommitSeq + 1, env.reply,
                                        msgs.value.commit, msgs.value.projections, PrevInsideNoop);
           && out.send == Some(SendCommit(commit))
           && out.ctl == ctl.(head := Some(env), queue := out.ctl.queue, committing := true, commitEnvelope := Some(commit))
      else
        && out.ctl == ctl.(head := Some(env), queue := out.ctl.queue)
        && out.send == Some(SendTask(WorkerTask(TaskRemove, env.objectID, env.clientOpID, Position(0.0, 0.0, 0.0, 0.0),
                                                ctl.dims, ctl.route.value, None)))
    case _ => false
  }

  /** What becomes of a list of commands: the longest refused prefix is answered, the first command that is not
      refused is the head with its token, the others wait. */
  ghost predicate Started(cfg: Config, ctl: Ctl, envs: seq<Envelope>, now: nat, out: Out) {
    var n := RefusedPrefix(cfg, ctl.route, ctl.instanceID, envs);
    && out.answers == FailAll(envs[..n])
    && if n == |envs| then out == Out(ctl.(head := None, queue := []), out.answers, None)
       else out.ctl.queue == envs[n + 1..] && Dispatched(cfg, ctl, envs[n], now, out)
  }

  /** Only what does not wait in the mailbox matters for how its commands are started. */
  lemma StartedFrom(cfg: Config, ctl: Ctl, ctl': Ctl, envs: seq<Envelope>, now: nat, out: Out)
    requires Started(cfg, ctl, envs, now, out) && ctl'.(head := ctl.head, queue := ctl.queue) == ctl
    ensures Started(cfg, ctl', envs, now, out)
  {
    hide BuildCommitMsgs;
  }

  lemma RefusedFirst(cfg: Config, ctl: Ctl, envs: seq<Envelope>, now: nat, out: Out)
    requires envs != [] && Refused(cfg, ctl.route, ctl.instanceID, envs[0]) && Started(cfg, ctl, envs[1..], now, out)
    ensures Started(cfg, ctl, envs, now, out.(answers := [Failed(envs[0].reply)] + out.answers))
  {
    hide BuildCommitMsgs, Refused;
    var n := RefusedPrefix(cfg, ctl.route, ctl.instanceID, envs[1..]);
    assert RefusedPrefix(cfg, ctl.route, ctl.instanceID, envs) == n + 1;
    assert envs[..n + 1] == [envs[0]] + envs[1..][..n];
    assert FailAll(envs[..n + 1]) == [Failed(envs[0].reply)] + FailAll(envs[1..][..n]);
    assert n < |envs| - 1 ==> envs[1..][n] == envs[n + 1] && envs[1..][n + 1..] == envs[n + 2..];
  }

  lemma NotRefusedFirst(cfg: Config, ctl: Ctl, envs: seq<Envelope>, now: nat, out: Out)
    requires envs != [] && !Refused(cfg, ctl.route, ctl.instanceID, envs[0])
    requires out.answers == [] && out.ctl.queue == envs[1..] && Dispatched(cfg, ctl, envs[0], now, out)
    ensures Started(cfg, ctl, envs, now, out)
  {
    hide Dispatched, Refused;
    assert RefusedPrefix(cfg, ctl.route, ctl.instanceID, envs) == 0;
    assert envs[..0] == [] && FailAll([]) == [];
  }

  // ---- the handlers ------------------------------------------------------------------------------------------

  /** dispatchNext, on the commands of the queue. */
  lemma {:induction false} NextStarts(cfg: Config, ctl: Ctl, now: nat)
    requires ctl.head == None && Ready(ctl)
    ensures Started(cfg, ctl, ctl.queue, now, DispatchNext(cfg, ctl, now))
    decreases |ctl.queue|, 0
  {
    hide Handled, BuildCommitMsgs;
    if ctl.queue != [] {
      var next, ctl' := ctl.queue[0], Popped(ctl);
      assert ctl.queue == [next] + ctl.queue[1..];
      match next.kind {
        case TaskUpdate => PositionStarts(cfg, ctl', next, now);
        case TaskRemove => RemoveStarts(cfg, ctl', next, now);
        case _ => RejectedStarts(cfg, ctl', next, now);
      }
      StartedFrom(cfg, ctl', ctl, ctl.queue, now, DispatchNext(cfg, ctl, now));
    }
  }

  /** rejectHead: its command is refused, and then the queue is looked at. */
  lemma {:induction false} RejectedContinues(cfg: Config, ctl: Ctl, env: Envelope, now: nat)
    requires ctl.head == Some(env) && Ready(ctl)
    ensures var out := RejectHead(cfg, ctl, env, now);
            && out.answers != [] && out.answers[0] == Failed(env.reply)
            && Started(cfg, ctl, ctl.queue, now, out.(answers := out.answers[1..]))
    decreases |ctl.queue|, 1
  {
    hide Handled, BuildCommitMsgs, DispatchNext;
    var idle := ctl.(head := None);
    NextStarts(cfg, idle, now);
    var next := DispatchNext(cfg, idle, now);
    assert RejectHead(cfg, ctl, env, now) == next.(answers := [Failed(env.reply)] + next.answers);
    StartedFrom(cfg, idle, ctl, ctl.queue, now, next);
  }

  lemma {:induction false} RejectedStarts(cfg: Config, ctl: Ctl, env: Envelope, now: nat)
    requires ctl.head == Some(env) && Ready(ctl) && Refused(cfg, ctl.route, ctl.instanceID, env)
    ensures Started(cfg, ctl, [env] + ctl.queue, now, RejectHead(cfg, ctl, env, now))
    decreases |ctl.queue|, 2
  {
    hide Handled, BuildCommitMsgs, RejectHead, Refused, Started;
    RejectedContinues(cfg, ctl, env, now);
    var out := RejectHead(cfg, ctl, env, now);
    var envs := [env] + ctl.queue;
    assert envs[1..] == ctl.queue;
    RefusedFirst(cfg, ctl, envs, now, out.(answers := out.answers[1..]));
    assert [Failed(env.reply)] + out.answers[1..] == out.answers;
  }

  /** onPosition on an idle mailbox: the command first, then those behind it. */
  lemma {:induction false} PositionStarts(cfg: Config, ctl: Ctl, env: Envelope, now: nat)
    requires ctl.head == Some(env) && Ready(ctl) && env.kind == TaskUpdate
    ensures Started(cfg, ctl, [env] + ctl.queue, now, DispatchPosition(cfg, ctl, env, now))
    decreases |ctl.queue|, 3
  {
    hide Handled, BuildCommitMsgs, RejectHead, Started;
    var envs := [env] + ctl.queue;
    assert envs[1..] == ctl.queue;
    if Unresolved(cfg, ctl.route, env.pos) {
      RejectedStarts(cfg, ctl, env, now);
    } else {
      NotRefusedFirst(cfg, ctl, envs, now, DispatchPosition(cfg, ctl, env, now));
    }
  }

  lemma RemovalBuilds(ctl: Ctl, env: Envelope, now: nat)
    ensures BuildCommitMsgs(RemoveInput(ctl, env), now).Err? <==> ctl.instanceID == ""
    ensures BuildCommitMsgs(RemoveInput(ctl, env), now).Ok? ==>
              BuildCommitMsgs(RemoveInput(ctl, env), now).value.checkpointState.commitSeq == ctl.lastCommitSeq + 1
  {}

  lemma RemoveIs(cfg: Config, ctl: Ctl, env: Envelope, now: nat)
    requires ctl.head == Some(env) && Ready(ctl) && env.kind == TaskRemove && ctl.route.None?
    ensures DispatchRemove(cfg, ctl, env, now) == SubmitCommit(cfg, ctl, env, RemoveInput(ctl, env), PrevInsideNoop, now)
  {
    hide SubmitCommit, Handled;
  }

  lemma {:induction false} RemoveStarts(cfg: Config, ctl: Ctl, env: Envelope, now: nat)
    requires ctl.head == Some(env) && Ready(ctl) && env.kind == TaskRemove
    ensures Started(cfg, ctl, [env] + ctl.queue, now, DispatchRemove(cfg, ctl, env, now))
    decreases |ctl.queue|, 3
  {
    RemovalBuilds(ctl, env, now);
    hide Handled, BuildCommitMsgs, RejectHead, Started;
    var envs := [env] + ctl.queue;
    assert envs[1..] == ctl.queue;
    if ctl.route.None? { RemoveIs(cfg, ctl, env, now); }
    if Refused(cfg, ctl.route, ctl.instanceID, env) {
      RejectedStarts(cfg, ctl, env, now);
    } else {
      NotRefusedFirst(cfg, ctl, envs, now, DispatchRemove(cfg, ctl, env, now));
    }
  }
  // ---- the three entry points ----------------------------------------------------------------------------------

  /** What may enter the mailbox: the registration of an unknown object, and positions and removals of an object
      that is known and not being removed. */
  predicate Admitted(ctl: Option<Ctl>, env: Envelope) {
    match env.kind
    case TaskRegister => ctl.None?
    case TaskUpdate => ctl.Some? && !ctl.value.deleted
    case TaskRemove => ctl.Some? && !ctl.value.deleted
    case _ => false
  }

  predicate Busy(ctl: Ctl) { ctl.head.Some? || ctl.committing }

  /** onEnvelope: refused at the door, queued behind a command in flight, or started at once. */
  lemma ArrivalExactly(cfg: Config, ctl: Option<Ctl>, env: Envelope, inst: string, now: nat)
    requires ctl.Some? && ctl.value.head.None? ==> Ready(ctl.value)
    ensures var a := OnEnvelope(cfg, ctl, env, inst, now);
            && (!Admitted(ctl, env) ==> a == Arrival(ctl, [Failed(env.reply)], [], None))
            && (Admitted(ctl, env) ==> a.refused == [] && a.ctl.Some?)
            && (Admitted(ctl, env) && env.kind != TaskRegister && Busy(ctl.value) ==>
                  a == Arrival(Some(ctl.value.(queue := ctl.value.queue + [env])), [], [], None))
            && (Admitted(ctl, env) && env.kind != TaskRegister && !Busy(ctl.value) ==>
                  Started(cfg, ctl.value, [env] + ctl.value.queue, now, Out(a.ctl.value, a.answers, a.send)))
            && (Admitted(ctl, env) && env.kind == TaskRegister && inst != "" ==>
                  var c := NewCtl(env.dims).(instanceID := inst, head := Some(env));
                  Submitted(c, RegisterInput(c, env), PrevInsideNoop, now, Out(a.ctl.value, a.answers, a.send)))
  {
    hide Handled, BuildCommitMsgs, SubmitNewRegister, DispatchPosition, DispatchRemove, Started, Submitted;
    if Admitted(ctl, env) {
      if env.kind == TaskRegister {
        RegistrationBuilds(NewCtl(env.dims).(instanceID := inst, head := Some(env)), env, now);
      } else if !Busy(ctl.value) {
        CommandStarts(cfg, ctl.value, env, now);
      }
    }
  }

  lemma RegistrationBuilds(c: Ctl, env: Envelope, now: nat)
    ensures c.instanceID != "" ==> BuildCommitMsgs(RegisterInput(c, env), now).Ok?
  {}

  lemma CommandStarts(cfg: Config, c: Ctl, env: Envelope, now: nat)
    requires c.head.None? && Ready(c) && (env.kind == TaskUpdate || env.kind == TaskRemove)
    ensures var c' := c.(head := Some(env));
            Started(cfg, c, [env] + c.queue, now,
                    if env.kind == TaskUpdate then DispatchPosition(cfg, c', env, now) else DispatchRemove(cfg, c', env, now))
  {
    hide Handled, BuildCommitMsgs, Started, DispatchPosition, DispatchRemove;
    var c' := c.(head := Some(env));
    if env.kind == TaskUpdate {
      PositionStarts(cfg, c', env, now);
      StartedFrom(cfg, c', c, [env] + c.queue, now, DispatchPosition(cfg, c', env, now));
    } else {
      RemoveStarts(cfg, c', env, now);
      StartedFrom(cfg, c', c, [env] + c.queue, now, DispatchRemove(cfg, c', env, now));
    }
  }

  /** The head has been answered, in this way, and the rest of the mailbox is started. */
  ghost predicate AnsweredThenStarted(cfg: Config, ctl: Ctl, head: Answer, now: nat, out: Out) {
    && out.answers != [] && out.answers[0] == head
    && Started(cfg, ctl, ctl.queue, now, out.(answers := out.answers[1..]))
  }

  /** onResult: a commit is built from an accepted result, unless the builder refuses; a rejected result, or a
      refusal, answers the head with a failure and starts the queue. */
  lemma ResultExactly(cfg: Config, ctl: Ctl, res: WorkerResult, now: nat)
    requires ctl.head.Some? && Ready(ctl)
    ensures var out, head := OnResult(cfg, ctl, res, now), ctl.head.value;
            var built := !res.rejected && ctl.instanceID != "" &&
                         (res.transitions == [] || head.kind != TaskRemove || res.hadPosition);
            if built then Submitted(ctl, ResultInput(ctl, head, res), ResultMutation(cfg, head, res), now, out)
            else AnsweredThenStarted(cfg, ctl, Failed(head.reply), now, out)
  {
    ResultBuilds(ctl, ctl.head.value, res, now);
    hide Handled, BuildCommitMsgs, Started, Submitted, RejectHead;
    RejectedContinues(cfg, ctl, ctl.head.value, now);
  }

  lemma ResultBuilds(ctl: Ctl, head: Envelope, res: WorkerResult, now: nat)
    ensures BuildCommitMsgs(ResultInput(ctl, head, res), now).Ok? <==>
            ctl.instanceID != "" && (res.transitions == [] || head.kind != TaskRemove || res.hadPosition)
  {}

  /** onCommitResult: the head is answered with the commit's instance and number, or with a failure; after a
      removal everything queued is refused and the control block goes, otherwise the queue is started. */
  lemma ConclusionExactly(cfg: Config, ctl: Ctl, cr: CommitResult, now: nat)
    ensures var f := OnCommitResult(cfg, ctl, cr, now);
            var ack := Committed(cr.reply, cr.instanceID, cr.commitSeq);
            var idle := ctl.(committing := false, commitEnvelope := None, head := None);
            if cr.ok && ctl.head.Some? && ctl.head.value.kind == TaskRemove then
              f == Finish(None, [ack] + FailAll(ctl.queue), None)
            else
              && f.ctl.Some?
              && var out := Out(f.ctl.value, f.answers, f.send);
                 if cr.ok then AnsweredThenStarted(cfg, idle.(lastCommitSeq := cr.commitSeq), ack, now, out)
                 else if ctl.head.Some? then AnsweredThenStarted(cfg, idle, Failed(ctl.head.value.reply), now, out)
                 else Started(cfg, idle, ctl.queue, now, out)
  {
    hide Handled, BuildCommitMsgs, Started, DispatchNext;
    var idle := ctl.(committing := false, commitEnvelope := None, head := None);
    var next := if cr.ok then idle.(lastCommitSeq := cr.commitSeq) else idle;
    NextStarts(cfg, next, now);
    var f, out := OnCommitResult(cfg, ctl, cr, now), DispatchNext(cfg, next, now);
    if cr.ok && ctl.head.Some? && ctl.head.value.kind == TaskRemove {
      assert f.answers == [Committed(cr.reply, cr.instanceID, cr.commitSeq)] + FailAll(ctl.queue);
    } else if cr.ok {
      assert f == Finish(Some(out.ctl), [Committed(cr.reply, cr.instanceID, cr.commitSeq)] + out.answers, out.send);
      assert f.answers[1..] == out.answers;
    } else if ctl.head.Some? {
      assert f == Finish(Some(out.ctl), [Failed(ctl.head.value.reply)] + out.answers, out.send);
      assert f.answers[1..] == out.answers;
    } else {
      assert f.answers == out.answers;
    }
  }
}
