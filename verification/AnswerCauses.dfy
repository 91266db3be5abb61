/** Why every command was answered as it was, over whole runs: a success names the number of the commit made for
    it, and a failure has one of two causes, a position in no known region or a committed removal ahead. */
module AnswerCauses {
  import opened Domain
  import opened EventLog
  import opened Mailbox
  import opened Refusals
  import opened ObjectMachine
  import opened ObjectInvariant
  import opened ObjectSteps
  import opened ObjectLog
  import opened ObjectAnswers
  import opened ObjectRuns

  /** The commands a step may answer, in order. */
  function Answerable(o: Obj, l: Label): seq<Envelope> {
    match l
    case LArrive(env, _, _) => [env]
    case LTakeCommit(_) => if o.ctl.Some? then Commands(o.ctl.value) else []
    case _ => []
  }

  /** The i-th of these commands is answered like this for a reason. */
  ghost predicate Caused(cfg: Config, o: Obj, l: Label, i: nat, a: Answer) {
    && o.up && o.ctl.Some? && i < |Answerable(o, l)|
    && var c, e := o.ctl.value, Answerable(o, l)[i];
       if l.LTakeCommit? && i == 0 then
         c.head == Some(e) && a == Committed(e.reply, c.instanceID, c.lastCommitSeq + 1)
       else
         && a == Failed(e.reply)
         && ((l.LTakeCommit? && c.head.Some? && c.head.value.kind == TaskRemove)
             || (e.kind == TaskUpdate && Unresolved(cfg, c.route, e.pos)))
  }

  /** The step adds these answers, each with its cause. */
  ghost predicate Adds(cfg: Config, o: Obj, l: Label, o': Obj, given: seq<Answer>) {
    && o'.book.answered == o.book.answered + given
    && forall i {:trigger given[i]} :: 0 <= i < |given| ==> Caused(cfg, o, l, i, given[i])
  }

  /** Positions and removals in a named instance: what is refused of them are positions in no known region. */
  lemma PrefixUnresolved(cfg: Config, c: Ctl, envs: seq<Envelope>, k: nat)
    requires c.instanceID != "" && k < RefusedPrefix(cfg, c.route, c.instanceID, envs)
    requires forall e :: e in envs ==> e.kind == TaskUpdate || e.kind == TaskRemove
    ensures envs[k].kind == TaskUpdate && Unresolved(cfg, c.route, envs[k].pos)
  {
    assert envs[k] in envs;
  }

  lemma StartedCauses(cfg: Config, c: Ctl, envs: seq<Envelope>, now: nat, out: Out)
    requires Started(cfg, c, envs, now, out) && c.instanceID != ""
    requires forall e :: e in envs ==> e.kind == TaskUpdate || e.kind == TaskRemove
    ensures |out.answers| <= |envs|
    ensures forall k {:trigger out.answers[k]} :: 0 <= k < |out.answers| ==>
              out.answers[k] == Failed(envs[k].reply) && envs[k].kind == TaskUpdate && Unresolved(cfg, c.route, envs[k].pos)
  {
    hide Dispatched, Unresolved;
    forall k | 0 <= k < |out.answers|
      ensures out.answers[k] == Failed(envs[k].reply) && envs[k].kind == TaskUpdate && Unresolved(cfg, c.route, envs[k].pos)
    {
      PrefixUnresolved(cfg, c, envs, k);
    }
  }

  // ---- arrivals ------------------------------------------------------------------------------------------------

  lemma IdleInstance(cfg: Config, id: ObjectID, o: Obj)
    requires Inv(cfg, id, o) && o.up && o.ctl.Some?
    ensures o.ctl.value.instanceID != "" && MailboxOK(id, o.ctl.value)
  {
    hide LogOK, ChainOK, Stage, StoredOK, Confirmed, MailboxOK;
  }

  lemma ArriveAdds(cfg: Config, id: ObjectID, o: Obj, env: Envelope, inst: string, now: nat)
    requires Inv(cfg, id, o) && Enabled(id, o, LArrive(env, inst, now))
    ensures Adds(cfg, o, LArrive(env, inst, now), Arrive(cfg, o, env, inst, now), OnEnvelope(cfg, o.ctl, env, inst, now).answers)
  {
    ArrivalExactly(cfg, o.ctl, env, inst, now);
    var a := OnEnvelope(cfg, o.ctl, env, inst, now);
    if o.ctl.Some? && Admitted(o.ctl, env) && !Busy(o.ctl.value) {
      IdleInstance(cfg, id, o);
      var c := o.ctl.value;
      assert [env] + c.queue == [env];
      hide OnEnvelope, Inv, Unresolved;
      StartedCauses(cfg, c, [env], now, Out(a.ctl.value, a.answers, a.send));
    }
  }

  /** What a run refuses at the door: exactly what may not enter the mailbox. */
  lemma ArriveRefuses(cfg: Config, id: ObjectID, o: Obj, env: Envelope, inst: string, now: nat)
    requires Enabled(id, o, LArrive(env, inst, now))
    ensures var o' := Arrive(cfg, o, env, inst, now);
            && o'.book.refused == o.book.refused + (if Admitted(o.ctl, env) then [] else [Failed(env.reply)])
            && o'.book.accepted == o.book.accepted + (if Admitted(o.ctl, env) then [env.reply] else [])
            && (!Admitted(o.ctl, env) ==> o'.ctl == o.ctl && o'.tok == o.tok)
  {
    ArrivalExactly(cfg, o.ctl, env, inst, now);
    hide OnEnvelope, Started, Submitted, Admitted;
  }

  // ---- commit results -----------------------------------------------------------------------------------------

  lemma DoneHead(cfg: Config, id: ObjectID, o: Obj)
    requires Inv(cfg, id, o) && o.tok.Some? && o.tok.value.DoneTok?
    ensures o.up && o.ctl.Some? && MailboxOK(id, o.ctl.value)
    ensures var c, env := o.ctl.value, o.tok.value.env;
            && c.instanceID != "" && c.head.Some? && env.reply == c.head.value.reply
            && env.instanceID == c.instanceID && env.commitSeq == c.lastCommitSeq + 1
  {
    hide LogOK, ChainOK, EnvelopeOK, CommitFollows, Commits, MailboxOK, StoredOK;
  }

  /** The first command waiting that can be started is taken up, with its token; those before it are refused. */
  lemma TakesUpNext(cfg: Config, id: ObjectID, o: Obj, now: nat)
    requires Inv(cfg, id, o) && Enabled(id, o, LTakeCommit(now))
    ensures o.ctl.Some? && o.ctl.value.head.Some?
    ensures var o', c := TakeCommit(cfg, o, now), o.ctl.value;
            var ack := Committed(c.head.value.reply, c.instanceID, c.lastCommitSeq + 1);
            if c.head.value.kind == TaskRemove then
              o'.ctl.None? && o'.tok.None? && o'.book.answered == o.book.answered + ([ack] + FailAll(c.queue))
            else
              && o'.ctl.Some?
              && exists out: Out ::
                   && Started(cfg, Relieved(c, o.tok.value.env), c.queue, now, out)
                   && out.ctl == o'.ctl.value && TokenOf(out.send) == o'.tok
                   && o'.book.answered == o.book.answered + ([ack] + out.answers)
  {
    DoneHead(cfg, id, o);
    var c, env := o.ctl.value, o.tok.value.env;
    ConclusionExactly(cfg, c, ResultOf(env, true), now);
    hide Inv, OnCommitResult, Started, MailboxOK;
    var f := OnCommitResult(cfg, c, ResultOf(env, true), now);
    var ack := Committed(c.head.value.reply, c.instanceID, c.lastCommitSeq + 1);
    assert ack == Committed(env.reply, env.instanceID, env.commitSeq);
    if c.head.value.kind != TaskRemove {
      var out := Out(f.ctl.value, f.answers[1..], f.send);
      assert c.(committing := false, commitEnvelope := None, head := None).(lastCommitSeq := env.commitSeq) == Relieved(c, env);
      assert f.answers == [ack] + out.answers;
    }
  }

  lemma AckCaused(cfg: Config, o: Obj, now: nat)
    requires o.up && o.ctl.Some? && o.ctl.value.head.Some?
    ensures var c := o.ctl.value;
            Caused(cfg, o, LTakeCommit(now), 0, Committed(c.head.value.reply, c.instanceID, c.lastCommitSeq + 1))
  {}

  lemma RestCaused(cfg: Config, o: Obj, now: nat, i: nat, a: Answer)
    requires o.up && o.ctl.Some? && o.ctl.value.head.Some? && i < |o.ctl.value.queue|
    requires var c, e := o.ctl.value, o.ctl.value.queue[i];
             && a == Failed(e.reply)
             && (c.head.value.kind == TaskRemove || (e.kind == TaskUpdate && Unresolved(cfg, c.route, e.pos)))
    ensures Caused(cfg, o, LTakeCommit(now), i + 1, a)
  {
    assert Answerable(o, LTakeCommit(now))[i + 1] == o.ctl.value.queue[i];
    hide Unresolved;
  }

  lemma AllCaused(cfg: Config, o: Obj, now: nat, rest: seq<Answer>)
    requires o.up && o.ctl.Some? && o.ctl.value.head.Some? && RestHasCauses(cfg, o.ctl.value, rest)
    ensures var c := o.ctl.value;
            var given := [Committed(c.head.value.reply, c.instanceID, c.lastCommitSeq + 1)] + rest;
            forall i {:trigger given[i]} :: 0 <= i < |given| ==> Caused(cfg, o, LTakeCommit(now), i, given[i])
  {
    hide Caused, Unresolved;
    var c := o.ctl.value;
    AckCaused(cfg, o, now);
    var given := [Committed(c.head.value.reply, c.instanceID, c.lastCommitSeq + 1)] + rest;
    forall i | 0 <= i < |given| ensures Caused(cfg, o, LTakeCommit(now), i, given[i]) {
      if i > 0 {
        assert given[i] == rest[i - 1];
        RestCaused(cfg, o, now, i - 1, rest[i - 1]);
      }
    }
  }

  /** Each of these answers is a failure, with a cause. */
  ghost predicate RestHasCauses(cfg: Config, c: Ctl, rest: seq<Answer>)
    requires c.head.Some?
  {
    |rest| <= |c.queue| && forall i {:trigger rest[i]} :: 0 <= i < |rest| ==>
      && rest[i] == Failed(c.queue[i].reply)
      && (c.head.value.kind == TaskRemove || (c.queue[i].kind == TaskUpdate && Unresolved(cfg, c.route, c.queue[i].pos)))
  }

  lemma RemovedRest(cfg: Config, c: Ctl)
    requires c.head.Some? && c.head.value.kind == TaskRemove
    ensures RestHasCauses(cfg, c, FailAll(c.queue))
  {
    hide Unresolved;
  }

  lemma StartedRest(cfg: Config, id: ObjectID, c: Ctl, env: CommitEnvelope, now: nat, out: Out)
    requires c.head.Some? && c.instanceID != "" && MailboxOK(id, c) && Started(cfg, Relieved(c, env), c.queue, now, out)
    ensures RestHasCauses(cfg, c, out.answers)
  {
    QueueKinds(id, c);
    hide Unresolved, Started, MailboxOK;
    StartedCauses(cfg, Relieved(c, env), c.queue, now, out);
  }

  lemma TakeCommitAdds(cfg: Config, id: ObjectID, o: Obj, now: nat) returns (given: seq<Answer>)
    requires Inv(cfg, id, o) && Enabled(id, o, LTakeCommit(now))
    ensures Adds(cfg, o, LTakeCommit(now), TakeCommit(cfg, o, now), given)
  {
    hide Inv, TakeCommit, RestHasCauses, Started, Caused, MailboxOK;
    DoneHead(cfg, id, o);
    TakesUpNext(cfg, id, o, now);
    var c, env, o' := o.ctl.value, o.tok.value.env, TakeCommit(cfg, o, now);
    var rest: seq<Answer>;
    if c.head.value.kind == TaskRemove {
      rest := FailAll(c.queue);
      RemovedRest(cfg, c);
    } else {
      var out: Out :|
        && Started(cfg, Relieved(c, env), c.queue, now, out)
        && out.ctl == o'.ctl.value && TokenOf(out.send) == o'.tok
        && o'.book.answered == o.book.answered + ([Committed(c.head.value.reply, c.instanceID, c.lastCommitSeq + 1)] + out.answers);
      StartedRest(cfg, id, c, env, now, out);
      rest := out.answers;
    }
    AllCaused(cfg, o, now, rest);
    given := [Committed(c.head.value.reply, c.instanceID, c.lastCommitSeq + 1)] + rest;
  }

  lemma QueueKinds(id: ObjectID, c: Ctl)
    requires MailboxOK(id, c)
    ensures forall e :: e in c.queue ==> e.kind == TaskUpdate || e.kind == TaskRemove
  {}

  // ---- runs -----------------------------------------------------------------------------------------------------

  lemma ResultAnswersNone(cfg: Config, id: ObjectID, o: Obj, now: nat)
    requires Inv(cfg, id, o) && Enabled(id, o, LTakeResult(now))
    ensures TakeResult(cfg, o, now).book.answered == o.book.answered
  {
    hide LogOK, ChainOK, ResultFits, NumberOK, Submitting, MailboxOK;
    ResultSubmits(cfg, id, o.ctl.value, o.tok.value.res, Confirmed(o.log, o.tok), o.tree, now);
  }

  lemma StepAdds(cfg: Config, id: ObjectID, o: Obj, l: Label) returns (given: seq<Answer>)
    requires Inv(cfg, id, o) && Enabled(id, o, l) && !l.LBoot?
    ensures Adds(cfg, o, l, Step(cfg, id, o, l), given)
  {
    hide Inv, Caused, Arrive, TakeResult, TakeCommit, ValidChoice, CanRepair, Process, JobAfter, LogAfter;
    given := [];
    match l {
      case LArrive(env, inst, now) =>
        given := OnEnvelope(cfg, o.ctl, env, inst, now).answers;
        ArriveAdds(cfg, id, o, env, inst, now);
      case LTakeResult(now) => ResultAnswersNone(cfg, id, o, now);
      case LTakeCommit(now) => given := TakeCommitAdds(cfg, id, o, now);
      case _ =>
    }
  }

  /** Answer j was given in step m, with a cause. */
  ghost predicate AnsweredAt(cfg: Config, run: seq<Obj>, labels: seq<Label>, m: nat, j: nat, a: Answer)
    requires m < |labels| < |run|
  {
    |run[m].book.answered| <= j && Caused(cfg, run[m], labels[m], j - |run[m].book.answered|, a)
  }

  /** No boot from step m to state k: the answers of both belong to one process. */
  ghost predicate SameLife(labels: seq<Label>, m: nat, k: nat) {
    forall n {:trigger labels[n]} :: m <= n < k && n < |labels| ==> !labels[n].LBoot?
  }

  lemma AnsweredNow(cfg: Config, run: seq<Obj>, labels: seq<Label>, m: nat, given: seq<Answer>, i: nat)
    requires m < |labels| < |run| && i < |given| && Adds(cfg, run[m], labels[m], run[m + 1], given)
    ensures AnsweredAt(cfg, run, labels, m, |run[m].book.answered| + i, given[i])
  {
    hide Caused;
  }

  /** Main result on answers: in every run, each answer was given in some step for a reason.  A success went to
      the head command when its commit was confirmed, with the instance and the number of that commit; a failure
      to a position in no known region, or to a command behind a removal that was then confirmed. */
  lemma {:induction false} AnsweredForCause(cfg: Config, id: ObjectID, run: seq<Obj>, labels: seq<Label>, k: nat, j: nat)
    requires IsRun(cfg, id, run, labels) && k < |run| && j < |run[k].book.answered|
    ensures exists m :: 0 <= m < k && AnsweredAt(cfg, run, labels, m, j, run[k].book.answered[j]) && SameLife(labels, m, k)
  {
    hide Inv, LogInv, CompleteInv, BookOK, Step, Enabled, Caused, NoEmptySnapshot, AnsweredAt;
    if k > 0 {
      var o, l := run[k - 1], labels[k - 1];
      assert StepOK(cfg, id, o, l, run[k]);
      if l.LBoot? {
        BootClears(cfg, id, o, l);
      } else if j < |o.book.answered| {
        RunSound(cfg, id, run, labels, k - 1);
        var given := StepAdds(cfg, id, o, l);
        AnsweredForCause(cfg, id, run, labels, k - 1, j);
        var m :| 0 <= m < k - 1 && AnsweredAt(cfg, run, labels, m, j, o.book.answered[j]) && SameLife(labels, m, k - 1);
        assert run[k].book.answered[j] == o.book.answered[j] && SameLife(labels, m, k);
      } else {
        RunSound(cfg, id, run, labels, k - 1);
        var given := StepAdds(cfg, id, o, l);
        var i := j - |o.book.answered|;
        assert run[k].book.answered[j] == given[i];
        AnsweredNow(cfg, run, labels, k - 1, given, i);
      }
    }
  }

  lemma BootClears(cfg: Config, id: ObjectID, o: Obj, l: Label)
    requires Enabled(id, o, l) && l.LBoot?
    ensures Step(cfg, id, o, l).book.answered == []
  {}
}
