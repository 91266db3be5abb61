/** Every command is answered once: it is refused at the door, or answered in arrival order, or it
    still waits at the head or in the queue. */
module ObjectAnswers {
  import opened Domain
  import opened Events
  import opened EventLog
  import opened Mailbox
  import opened ObjectMachine
  import opened ObjectInvariant
  import opened ObjectSteps

  function WaitingIn(ctl: Option<Ctl>): seq<nat> { if ctl.None? then [] else Waiting(ctl.value) }

  ghost predicate BookOK(o: Obj) {
    && o.book.accepted == Replies(o.book.answered) + WaitingIn(o.ctl)
    && multiset(o.book.arrived) == multiset(o.book.accepted) + multiset(Replies(o.book.refused))
  }

  lemma RepliesConcat(a: seq<Answer>, b: seq<Answer>)
    ensures Replies(a + b) == Replies(a) + Replies(b)
  {}

  lemma RepliesOfConcat(a: seq<Envelope>, b: seq<Envelope>)
    ensures RepliesOf(a + b) == RepliesOf(a) + RepliesOf(b)
  {}

  /** Answers given and commands still waiting add up to the commands that waited before. */
  lemma Balance(o: Obj, o': Obj, answers: seq<Answer>, more: seq<nat>)
    requires BookOK(o) && o'.book.answered == o.book.answered + answers
    requires Replies(answers) + WaitingIn(o'.ctl) == WaitingIn(o.ctl) + more
    ensures Replies(o'.book.answered) + WaitingIn(o'.ctl) == o.book.accepted + more
  {
    hide Replies, WaitingIn;
    RepliesConcat(o.book.answered, answers);
    Regroup(Replies(o.book.answered), Replies(answers), WaitingIn(o'.ctl), WaitingIn(o.ctl), more);
  }

  lemma Regroup(done: seq<nat>, a: seq<nat>, b: seq<nat>, c: seq<nat>, d: seq<nat>)
    requires a + b == c + d
    ensures done + a + b == done + c + d
  {
    assert done + a + b == done + (a + b) == done + (c + d);
  }

  lemma EnvelopeBalance(cfg: Config, ctl: Option<Ctl>, env: Envelope, inst: string, now: nat)
    requires ctl.Some? && ctl.value.head.None? ==> Ready(ctl.value) && ctl.value.queue == []
    requires inst != ""
    ensures var a := OnEnvelope(cfg, ctl, env, inst, now);
            && (a.refused == [] || (a.refused == [Failed(env.reply)] && a.ctl == ctl && a.answers == []))
            && Replies(a.answers) + WaitingIn(a.ctl) == WaitingIn(ctl) + (if a.refused == [] then [env.reply] else [])
  {
    hide TaskFits, CommitFits, Handled, Handled', Submitted, OnMailboxCommand, SubmitNewRegister;
    if env.kind == TaskRegister {
      if ctl.None? { RegisterBalance(cfg, env, inst, now); }
    } else if env.kind == TaskUpdate || env.kind == TaskRemove {
      MailboxBalance(cfg, ctl, env, now);
    }
  }

  lemma RegisterBalance(cfg: Config, env: Envelope, inst: string, now: nat)
    requires inst != ""
    ensures var c := NewCtl(env.dims).(instanceID := inst, head := Some(env));
            var out := SubmitNewRegister(cfg, c, env, now);
            Replies(out.answers) + Waiting(out.ctl) == [env.reply]
  {
    hide CommitFits, Handled;
    var c := NewCtl(env.dims).(instanceID := inst, head := Some(env));
    assert BuildCommitMsgs(RegisterInput(c, env), now).Ok?;
  }

  lemma MailboxBalance(cfg: Config, ctl: Option<Ctl>, env: Envelope, now: nat)
    requires ctl.Some? && ctl.value.head.None? ==> Ready(ctl.value) && ctl.value.queue == []
    requires env.kind == TaskUpdate || env.kind == TaskRemove
    ensures var a := OnMailboxCommand(cfg, ctl, env, now);
            && (a.refused == [] || (a.refused == [Failed(env.reply)] && a.ctl == ctl && a.answers == []))
            && Replies(a.answers) + WaitingIn(a.ctl) == WaitingIn(ctl) + (if a.refused == [] then [env.reply] else [])
  {
    hide TaskFits, CommitFits;
    var a := OnMailboxCommand(cfg, ctl, env, now);
    if a.refused == [] && ctl.value.head.Some? { RepliesOfConcat(ctl.value.queue, [env]); }
  }

  lemma BookArrive(cfg: Config, id: ObjectID, o: Obj, env: Envelope, inst: string, now: nat)
    requires BookOK(o) && inst != ""
    requires o.ctl.Some? && o.ctl.value.head.None? ==> Ready(o.ctl.value) && o.ctl.value.queue == []
    ensures BookOK(Arrive(cfg, o, env, inst, now))
  {
    EnvelopeBalance(cfg, o.ctl, env, inst, now);
    hide OnEnvelope, WaitingIn, Waiting, Replies;
    var a, o' := OnEnvelope(cfg, o.ctl, env, inst, now), Arrive(cfg, o, env, inst, now);
    var more := if a.refused == [] then [env.reply] else [];
    Balance(o, o', a.answers, more);
    RepliesConcat(o.book.refused, a.refused);
    RefusedReplies(a.refused, env.reply);
    Partition(o.book.arrived, o.book.accepted, Replies(o.book.refused), env.reply, more, Replies(a.refused));
  }

  lemma RefusedReplies(refused: seq<Answer>, reply: nat)
    requires refused == [] || refused == [Failed(reply)]
    ensures Replies(refused) == if refused == [] then [] else [reply]
  {}

  lemma Partition(all: seq<nat>, ins: seq<nat>, outs: seq<nat>, x: nat, a: seq<nat>, b: seq<nat>)
    requires multiset(all) == multiset(ins) + multiset(outs)
    requires (a == [x] && b == []) || (a == [] && b == [x])
    ensures multiset(all + [x]) == multiset(ins + a) + multiset(outs + b)
  {}

  lemma BookTakeResult(cfg: Config, id: ObjectID, o: Obj, now: nat)
    requires Inv(cfg, id, o) && BookOK(o) && Enabled(id, o, LTakeResult(now))
    ensures BookOK(TakeResult(cfg, o, now))
  {
    hide LogOK, ChainOK, ResultFits, NumberOK, Submitting;
    var c, cs := o.ctl.value, Confirmed(o.log, o.tok);
    ResultSubmits(cfg, id, c, o.tok.value.res, cs, o.tree, now);
    var out := OnResult(cfg, c, o.tok.value.res, now);
    assert Waiting(out.ctl) == Waiting(c);
    hide OnResult, Submitted;
    Balance(o, TakeResult(cfg, o, now), out.answers, []);
  }

  lemma RemoveBalance(cfg: Config, c: Ctl, env: CommitEnvelope, now: nat)
    requires c.head.Some? && env.reply == c.head.value.reply && c.head.value.kind == TaskRemove
    ensures var f := OnCommitResult(cfg, c, ResultOf(env, true), now);
            f.ctl.None? && Replies(f.answers) == Waiting(c)
  {
    hide DispatchNext;
    var ack := [Committed(env.reply, env.instanceID, env.commitSeq)];
    var rest := seq(|c.queue|, i requires 0 <= i < |c.queue| => Failed(c.queue[i].reply));
    RepliesConcat(ack, rest);
    assert Replies(rest) == RepliesOf(c.queue);
  }

  lemma CommitBalance(cfg: Config, c: Ctl, env: CommitEnvelope, now: nat)
    requires c.head.Some? && env.reply == c.head.value.reply
    ensures var f := OnCommitResult(cfg, c, ResultOf(env, true), now);
            Replies(f.answers) + WaitingIn(f.ctl) == Waiting(c)
  {
    hide TaskFits, CommitFits, DispatchNext;
    if c.head.value.kind == TaskRemove {
      RemoveBalance(cfg, c, env, now);
      assert Waiting(c) + [] == Waiting(c);
    } else {
      var ack := [Committed(env.reply, env.instanceID, env.commitSeq)];
      var out := DispatchNext(cfg, Relieved(c, env), now);
      RepliesConcat(ack, out.answers);
      assert Handled'(Relieved(c, env), out);
      hide Handled', Waiting;
      var f := OnCommitResult(cfg, c, ResultOf(env, true), now);
      assert f.answers == ack + out.answers && f.ctl == Some(out.ctl);
      ReliefBalance(c, env, out);
    }
  }

  lemma ReliefBalance(c: Ctl, env: CommitEnvelope, out: Out)
    requires c.head.Some? && env.reply == c.head.value.reply && Handled'(Relieved(c, env), out)
    ensures Replies([Committed(env.reply, env.instanceID, env.commitSeq)]) + Replies(out.answers) + Waiting(out.ctl) == Waiting(c)
  {
    hide DispatchNext;
    var rest := RepliesOf(c.queue);
    assert Replies(out.answers) + Waiting(out.ctl) == rest by { assert Waiting(Relieved(c, env)) == [] + rest == rest; }
    assert Replies([Committed(env.reply, env.instanceID, env.commitSeq)]) == [env.reply];
    hide Replies, Waiting, Handled', RepliesOf;
    assert rest + [] == rest;
    Regroup([env.reply], Replies(out.answers), Waiting(out.ctl), rest, []);
    WaitingSplit(c);
  }

  lemma WaitingSplit(c: Ctl)
    requires c.head.Some?
    ensures Waiting(c) == [c.head.value.reply] + RepliesOf(c.queue)
  {}

  lemma BookTakeCommit(cfg: Config, id: ObjectID, o: Obj, now: nat)
    requires Inv(cfg, id, o) && BookOK(o) && Enabled(id, o, LTakeCommit(now))
    ensures BookOK(TakeCommit(cfg, o, now))
  {
    hide Inv, EnvelopeOK, CommitFollows, OnCommitResult, BookOK;
    DoneIsSubmitting(cfg, id, o);
    var c, env := o.ctl.value, o.tok.value.env;
    CommitBalance(cfg, c, env, now);
    var f := OnCommitResult(cfg, c, ResultOf(env, true), now);
    FinishBook(o, TakeCommit(cfg, o, now), f);
  }

  lemma FinishBook(o: Obj, o': Obj, f: Finish)
    requires BookOK(o) && o.ctl.Some? && o'.ctl == f.ctl && o'.book == Answered(o, f.answers)
    requires Replies(f.answers) + WaitingIn(f.ctl) == Waiting(o.ctl.value)
    ensures BookOK(o')
  {
    hide Replies, Waiting;
    assert Waiting(o.ctl.value) + [] == Waiting(o.ctl.value) && o.book.accepted + [] == o.book.accepted;
    Balance(o, o', f.answers, []);
  }

  lemma DoneIsSubmitting(cfg: Config, id: ObjectID, o: Obj)
    requires Inv(cfg, id, o) && o.tok.Some? && o.tok.value.DoneTok?
    ensures o.ctl.Some? && o.ctl.value.head.Some? && o.tok.value.env.reply == o.ctl.value.head.value.reply
  {
    hide LogOK, ChainOK, EnvelopeOK, CommitFollows, Commits, NumberOK, MailboxOK, StoredOK;
  }

  lemma BookWork(cfg: Config, id: ObjectID, o: Obj, ch: Choice)
    requires Inv(cfg, id, o) && BookOK(o) && Enabled(id, o, LWork(ch))
    ensures BookOK(Work(o, ch))
  {
    hide LogOK, StateOK, NumberOK, StoredOK;
    var cs := Confirmed(o.log, o.tok);
    WorkFits(cfg, id, o.ctl.value, o.tok.value.task, cs, o.tree, o.prev, ch);
  }

  lemma BookSame(o: Obj, o': Obj)
    requires BookOK(o) && o'.book == o.book && o'.ctl == o.ctl
    ensures BookOK(o')
  {}

  /** No step loses, repeats or reorders an answer. */
  lemma BookStep(cfg: Config, id: ObjectID, o: Obj, l: Label)
    requires Inv(cfg, id, o) && (o.up ==> BookOK(o)) && Enabled(id, o, l)
    ensures Step(cfg, id, o, l).up ==> BookOK(Step(cfg, id, o, l))
  {
    hide Inv, BookOK, Arrive, Work, TakeResult, TakeCommit, ValidChoice, ExpectedProjectionMsgs, BootState, JobAfter, LogAfter;
    match l
    case LArrive(env, inst, now) =>
      if o.ctl.Some? && o.ctl.value.head.None? { IdleQueue(cfg, id, o); }
      BookArrive(cfg, id, o, env, inst, now);
    case LWork(ch) => BookWork(cfg, id, o, ch);
    case LTakeResult(now) => BookTakeResult(cfg, id, o, now);
    case LTakeCommit(now) => BookTakeCommit(cfg, id, o, now);
    case LBoot => BookBoot(cfg, o);
    case LCrash =>
    case LRepair(_, _) =>
    case _ => BookSame(o, Step(cfg, id, o, l));
  }

  lemma IdleQueue(cfg: Config, id: ObjectID, o: Obj)
    requires Inv(cfg, id, o) && o.up && o.ctl.Some? && o.ctl.value.head.None?
    ensures Ready(o.ctl.value) && o.ctl.value.queue == []
  {
    hide LogOK, ChainOK, NumberOK, StoredOK;
  }

  lemma BookBoot(cfg: Config, o: Obj)
    ensures BookOK(Boot(cfg, o))
  {
    hide LastCommit, StateOf;
  }
}
