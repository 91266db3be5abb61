/** The log of one object.  Within one process life the messages added, with repeats dropped, are
    the write sets of the commits one after the other, whatever acknowledgements were lost; across
    crashes every commit but the latest has all its projections, and a success is only answered
    for a commit that has them too. */
module ObjectLog {
  import opened Domain
  import opened Events
  import opened EventLog
  import opened Mailbox
  import opened ObjectMachine
  import opened ObjectInvariant
  import opened ObjectSteps

  /** The messages of the token's write set that are known to be stored. */
  function Pending(tok: Option<Token>): seq<Msg> {
    match tok
    case Some(JobTok(job)) =>
      if job.reach <= |WriteSet(job.env)| then WriteSet(job.env)[..job.reach] else WriteSet(job.env)
    case Some(DoneTok(env)) => WriteSet(env)
    case _ => []
  }

  function Flat(sent: seq<CommitEnvelope>): seq<Msg> {
    if sent == [] then [] else Flat(sent[..|sent| - 1]) + WriteSet(sent[|sent| - 1])
  }

  lemma FlatSnoc(sent: seq<CommitEnvelope>, env: CommitEnvelope)
    ensures Flat(sent + [env]) == Flat(sent) + WriteSet(env)
  {
    assert (sent + [env])[..|sent|] == sent;
  }

  /** What this process has published, each message once. */
  function Published(o: Obj): seq<Msg> { o.base + Flat(o.sent) + Pending(o.tok) }

  /** Every message belongs to a commit that is in the log. */
  ghost predicate AllListed(log: seq<Msg>) {
    forall m {:trigger m in log} :: m in log ==> Listed(Commits(log), m.data.i, m.data.s)
  }

  /** The commits confirmed since boot are those sent. */
  ghost predicate SentOK(id: ObjectID, o: Obj) {
    var cs, n := Confirmed(o.log, o.tok), |Commits(o.base)|;
    && |cs| == n + |o.sent|
    && cs[..n] == Commits(o.base)
    && forall k {:trigger o.sent[k]} :: 0 <= k < |o.sent| ==>
         EnvelopeOK(id, o.sent[k]) && StateOf(o.sent[k].commit) == Some(cs[n + k])
  }

  ghost predicate LogInv(id: ObjectID, o: Obj) {
    && AllListed(o.log)
    && (o.up ==> AllListed(o.base) && LogOK(id, o.base) && Dedup(o.log) == Dedup(Published(o)) && SentOK(id, o))
  }

  // ---- preservation ---------------------------------------------------------------------------

  predicate Publishes(l: Label) { l.LAttempt? || l.LEndJob? || l.LTakeCommit? || l.LRepair? || l.LBoot? || l.LCrash? }

  /** Steps away from the publisher leave the published messages alone. */
  lemma QuietStep(cfg: Config, id: ObjectID, o: Obj, l: Label)
    requires Inv(cfg, id, o) && Enabled(id, o, l) && !Publishes(l)
    ensures var o' := Step(cfg, id, o, l);
            && o'.log == o.log && o'.base == o.base && o'.sent == o.sent && o'.up == o.up
            && Pending(o'.tok) == Pending(o.tok) && Stored(o'.tok) == Stored(o.tok)
  {
    hide LogOK, ChainOK, NumberOK, StoredOK, Handled, Handled', TaskFits, AtRest, ResultFits, EnvelopeOK, CommitFollows;
  }

  lemma ListedMore(log: seq<Msg>, m: Msg, i: string, s: nat)
    requires Listed(Commits(log), i, s)
    ensures Listed(Commits(log + [m]), i, s)
  {
    CommitsSnoc(log, m);
    var k :| 0 <= k < |Commits(log)| && Commits(log)[k].instanceID == i && Commits(log)[k].commitSeq == s;
    assert Commits(log + [m])[k] == Commits(log)[k];
  }

  lemma AllListedSnoc(log: seq<Msg>, m: Msg)
    requires AllListed(log) && Listed(Commits(log + [m]), m.data.i, m.data.s)
    ensures AllListed(log + [m])
  {
    forall x | x in log + [m] ensures Listed(Commits(log + [m]), x.data.i, x.data.s) {
      if x in log { ListedMore(log, m, x.data.i, x.data.s); }
    }
  }

  lemma JobMsgAt(job: Job)
    requires JobActive(job) && JobOK(job)
    ensures JobIndex(job) < |WriteSet(job.env)| && JobMsg(job) == WriteSet(job.env)[JobIndex(job)]
    ensures JobIndex(job) <= job.reach
  {}

  lemma LastOnSubjectID(log: seq<Msg>, subject: Subject)
    requires LastOnSubject(log, subject).Some?
    ensures LastOnSubject(log, subject).value.data.e in IDs(log)
  {
    LastOnSubjectIn(log, subject);
  }

  /** What is taken for confirmed without having been stored now was there before. */
  lemma ConfirmedID(log: seq<Msg>, m: Msg, out: Outcome)
    requires ValidOutcome(out) && !out.stored && Confirms(log, m, out)
    ensures m.data.e in IDs(log)
  {
    LastOnSubjectID(log, m.subject);
  }

  /** One attempt moves the log and the published messages together: an acknowledged or verified
      message is there, and a repeat changes neither. */
  lemma AttemptDedup(log: seq<Msg>, before: seq<Msg>, job: Job, out: Outcome)
    requires JobActive(job) && JobOK(job) && ValidOutcome(out)
    requires Dedup(log) == Dedup(before + Pending(Some(JobTok(job))))
    ensures Dedup(LogAfter(log, JobMsg(job), out)) == Dedup(before + Pending(Some(JobTok(JobAfter(log, job, out)))))
  {
    hide Dedup, Confirms;
    JobMsgAt(job);
    var ws, k := WriteSet(job.env), JobIndex(job);
    assert Pending(Some(JobTok(job))) == ws[..job.reach];
    hide WriteSet, IDs;
    if !out.stored && Confirms(log, JobMsg(job), out) { ConfirmedID(log, JobMsg(job), out); }
    DedupAt(log, before, ws, k, job.reach, out.stored, Confirms(log, JobMsg(job), out));
  }

  /** Storing entry k of a write set of which `reach` entries are known. */
  lemma DedupAt(log: seq<Msg>, before: seq<Msg>, ws: seq<Msg>, k: nat, reach: nat, stored: bool, confirmed: bool)
    requires k <= reach <= |ws| && k < |ws| && Dedup(log) == Dedup(before + ws[..reach])
    requires confirmed && !stored ==> ws[k].data.e in IDs(log)
    ensures var reach' := if (confirmed || stored) && reach < k + 1 then k + 1 else reach;
            Dedup(if stored then log + [ws[k]] else log) == Dedup(before + ws[..reach'])
  {
    hide Dedup;
    var known := before + ws[..reach];
    assert IDs(log) == IDs(known) by { DedupIDs(log); DedupIDs(known); }
    if k < reach {
      assert known[|before| + k] == ws[k];
      assert ws[k] in known;
      if stored { DedupRepeat(log, ws[k]); }
    } else {
      assert before + ws[..k + 1] == known + [ws[k]];
      if stored {
        DedupAppend(log, known, ws[k]);
      } else if confirmed {
        DedupRepeat(known, ws[k]);
      }
    }
  }

  /** The pair that names the commit of a write set is on all its messages. */
  lemma WriteSetNames(id: ObjectID, env: CommitEnvelope, m: Msg)
    requires EnvelopeOK(id, env) && m in WriteSet(env)
    ensures m.data.i == env.instanceID && m.data.s == env.commitSeq
  {
    if m != env.commit {
      var k :| 0 <= k < |env.projections| && env.projections[k] == m;
    }
  }

  lemma AttemptListed(cfg: Config, id: ObjectID, o: Obj, out: Outcome)
    requires Inv(cfg, id, o) && Enabled(id, o, LAttempt(out)) && AllListed(o.log)
    ensures AllListed(Attempt(o, out).log)
  {
    hide Inv, Commits, EnvelopeOK, CommitFollows, Confirms, NumberOK, AllListed, Listed, Stored;
    if out.stored {
      var job, o' := o.tok.value.job, Attempt(o, out);
      AttemptEffect(cfg, id, o, out);
      JobSubmitting(cfg, id, o);
      JobMsgAt(job);
      WriteSetNames(id, job.env, JobMsg(job));
      assert Stored(o'.tok) by { StoresReach(o.log, job, out); }
      StoredIsLast(cfg, id, o');
      LastListed(id, job.env, Commits(o'.log));
      AllListedSnoc(o.log, JobMsg(job));
    }
  }

  lemma StoresReach(log: seq<Msg>, job: Job, out: Outcome)
    requires JobActive(job) && out.stored
    ensures Stored(Some(JobTok(JobAfter(log, job, out))))
  {}

  lemma LastListed(id: ObjectID, env: CommitEnvelope, cs: seq<StateRecord>)
    requires EnvelopeOK(id, env) && cs != [] && Some(cs[|cs| - 1]) == StateOf(env.commit)
    ensures Listed(cs, env.instanceID, env.commitSeq)
  {
    hide CommitMsgOK;
  }

  lemma LogAttempt(cfg: Config, id: ObjectID, o: Obj, out: Outcome)
    requires Inv(cfg, id, o) && LogInv(id, o) && Enabled(id, o, LAttempt(out))
    ensures LogInv(id, Attempt(o, out))
  {
    hide Inv, LogOK, Commits, EnvelopeOK, AllListed, Dedup, Confirms, JobAfter, Pending, Submitting, NumberOK;
    AttemptListed(cfg, id, o, out);
    AttemptEffect(cfg, id, o, out);
    JobSubmitting(cfg, id, o);
    AttemptDedup(o.log, o.base + Flat(o.sent), o.tok.value.job, out);
  }

  lemma DoneIsLast(cfg: Config, id: ObjectID, o: Obj)
    requires Inv(cfg, id, o) && o.tok.Some? && o.tok.value.DoneTok?
    ensures o.up && o.ctl.Some? && EnvelopeOK(id, o.tok.value.env) && StateOf(o.tok.value.env.commit).Some?
    ensures Commits(o.log) == Confirmed(o.log, o.tok) + [StateOf(o.tok.value.env.commit).value]
  {
    assert StoredOK(o.log, o.tok);
    assert Submitting(cfg, id, o.ctl.value, o.tok.value.env, Last(Confirmed(o.log, o.tok)), o.tree);
  }

  lemma LogTakeCommit(cfg: Config, id: ObjectID, o: Obj, now: nat)
    requires LogInv(id, o) && o.up && o.tok.Some? && o.tok.value.DoneTok? && o.ctl.Some?
    requires EnvelopeOK(id, o.tok.value.env) && StateOf(o.tok.value.env.commit).Some?
    requires Commits(o.log) == Confirmed(o.log, o.tok) + [StateOf(o.tok.value.env.commit).value]
    ensures LogInv(id, TakeCommit(cfg, o, now))
  {
    hide LogOK, Commits, EnvelopeOK, AllListed, TakeCommit, Dedup, StateOf, Flat, WriteSet;
    var env, o' := o.tok.value.env, TakeCommit(cfg, o, now);
    TakeCommitSent(cfg, o, now);
    FlatSnoc(o.sent, env);
    assert Published(o') == Published(o) by {
      assert Pending(o.tok) == WriteSet(env);
      assert o.base + Flat(o.sent + [env]) + [] == o.base + Flat(o.sent) + WriteSet(env);
    }
    assert Confirmed(o'.log, o'.tok) == Confirmed(o.log, o.tok) + [StateOf(env.commit).value];
  }

  lemma TakeCommitSent(cfg: Config, o: Obj, now: nat)
    requires o.tok.Some? && o.tok.value.DoneTok? && o.ctl.Some?
    ensures var o' := TakeCommit(cfg, o, now);
            && o'.log == o.log && o'.base == o.base && o'.up == o.up && o'.sent == o.sent + [o.tok.value.env]
            && Pending(o'.tok) == [] && !Stored(o'.tok)
  {}

  lemma LogRepair(cfg: Config, id: ObjectID, o: Obj, m: Msg, now: nat)
    requires Inv(cfg, id, o) && LogInv(id, o) && Enabled(id, o, LRepair(m, now))
    ensures LogInv(id, Repair(o, m))
  {
    RepairKeeps(cfg, id, o, m, now);
    RepairNames(cfg, id, o, m, now);
    AppendProjection(cfg, id, o.log, m);
    AllListedSnoc(o.log, m);
  }

  /** A repaired projection names the latest commit. */
  lemma RepairNames(cfg: Config, id: ObjectID, o: Obj, m: Msg, now: nat)
    requires Inv(cfg, id, o) && CanRepair(o, m, now)
    ensures Listed(Commits(o.log), m.data.i, m.data.s)
  {
    var st := StateOf(LastCommit(o.log).value).value;
    var cs := Commits(o.log);
    assert cs[|cs| - 1] == st;
  }

  lemma LogBoot(cfg: Config, id: ObjectID, o: Obj)
    requires Inv(cfg, id, o) && LogInv(id, o) && Enabled(id, o, LBoot)
    ensures LogInv(id, Boot(cfg, o))
  {
    var o' := Boot(cfg, o);
    assert Published(o') == o.log;
  }

  /** The published messages follow the log through every step. */
  lemma LogStep(cfg: Config, id: ObjectID, o: Obj, l: Label)
    requires Inv(cfg, id, o) && LogInv(id, o) && Enabled(id, o, l)
    ensures LogInv(id, Step(cfg, id, o, l))
  {
    hide Inv, LogInv, Arrive, Work, TakeResult, StartJob, Attempt, TakeCommit, ForgetArea, Repair, Boot, CanRepair;
    match l
    case LAttempt(out) => LogAttempt(cfg, id, o, out);
    case LEndJob => LogEndJob(cfg, id, o);
    case LTakeCommit(now) =>
      DoneIsLast(cfg, id, o);
      LogTakeCommit(cfg, id, o, now);
    case LRepair(m, now) => LogRepair(cfg, id, o, m, now);
    case LBoot => LogBoot(cfg, id, o);
    case LCrash => LogCrash(id, o);
    case _ => LogQuiet(cfg, id, o, l);
  }

  lemma LogCrash(id: ObjectID, o: Obj)
    requires LogInv(id, o)
    ensures LogInv(id, Crash(o))
  {}

  lemma LogQuiet(cfg: Config, id: ObjectID, o: Obj, l: Label)
    requires Inv(cfg, id, o) && LogInv(id, o) && Enabled(id, o, l) && !Publishes(l)
    ensures LogInv(id, Step(cfg, id, o, l))
  {
    hide Inv, AllListed, LogOK, EnvelopeOK, Step, Enabled, Commits;
    QuietStep(cfg, id, o, l);
  }

  lemma LogEndJob(cfg: Config, id: ObjectID, o: Obj)
    requires Inv(cfg, id, o) && LogInv(id, o) && Enabled(id, o, LEndJob)
    ensures LogInv(id, EndJob(o))
  {
    hide Inv, LogOK, AllListed, EnvelopeOK, Commits, Dedup, Submitting, NumberOK, StateOf, Flat;
    JobSubmitting(cfg, id, o);
    AllPending(o.tok.value.job);
  }

  lemma AllPending(job: Job)
    requires JobOK(job) && !JobActive(job)
    ensures job.reach > 0 && Pending(Some(JobTok(job))) == Pending(Some(DoneTok(job.env)))
  {
    assert WriteSet(job.env)[..job.reach] == WriteSet(job.env);
  }

  // ---- completeness of projections and durability of answers -----------------------------------

  /** The commits whose projections are all in the log: while running those the dispatcher knows to
      be confirmed, after a crash all but the latest. */
  function Settled(o: Obj): seq<StateRecord> {
    var cs := Commits(o.log);
    if o.up then Confirmed(o.log, o.tok) else if cs == [] then [] else cs[..|cs| - 1]
  }

  ghost predicate AllComplete(log: seq<Msg>, cs: seq<StateRecord>) {
    forall k {:trigger cs[k]} :: 0 <= k < |cs| ==> Complete(log, cs[k])
  }

  /** The named commit and all its projections are in the log. */
  ghost predicate Durable(log: seq<Msg>, i: string, s: nat) {
    exists k :: 0 <= k < |Commits(log)| && Commits(log)[k].instanceID == i && Commits(log)[k].commitSeq == s
                && Complete(log, Commits(log)[k])
  }

  ghost predicate AcksDurable(log: seq<Msg>, answers: seq<Answer>) {
    forall a {:trigger a in answers} :: a in answers && a.Committed? ==> Durable(log, a.instanceID, a.commitSeq)
  }

  ghost predicate CompleteInv(o: Obj) {
    AllComplete(o.log, Settled(o)) && AcksDurable(o.log, o.book.answered)
  }

  lemma DurableMore(log: seq<Msg>, m: Msg, i: string, s: nat)
    requires Durable(log, i, s)
    ensures Durable(log + [m], i, s)
  {
    CommitsSnoc(log, m);
    var k :| 0 <= k < |Commits(log)| && Commits(log)[k].instanceID == i && Commits(log)[k].commitSeq == s
             && Complete(log, Commits(log)[k]);
    CompleteMonotone(log, [m], Commits(log)[k]);
    assert Commits(log + [m])[k] == Commits(log)[k];
  }

  lemma CompleteInvMore(log: seq<Msg>, m: Msg, cs: seq<StateRecord>, answers: seq<Answer>)
    requires AllComplete(log, cs) && AcksDurable(log, answers)
    ensures AllComplete(log + [m], cs) && AcksDurable(log + [m], answers)
  {
    forall k | 0 <= k < |cs| ensures Complete(log + [m], cs[k]) { CompleteMonotone(log, [m], cs[k]); }
    forall a | a in answers && a.Committed? ensures Durable(log + [m], a.instanceID, a.commitSeq) {
      DurableMore(log, m, a.instanceID, a.commitSeq);
    }
  }

  /** Away from the commit results, callers only get refusals. */
  lemma QuietAnswers(cfg: Config, id: ObjectID, o: Obj, l: Label)
    requires Inv(cfg, id, o) && Enabled(id, o, l) && !l.LTakeCommit? && !l.LBoot?
    ensures forall a :: a in Step(cfg, id, o, l).book.answered && a.Committed? ==> a in o.book.answered
  {
    hide LogOK, ChainOK, NumberOK, StoredOK, TaskFits, AtRest, ResultFits, EnvelopeOK, CommitFollows, CanRepair;
  }

  lemma TakeCommitAnswers(cfg: Config, o: Obj, now: nat)
    requires o.tok.Some? && o.tok.value.DoneTok? && o.ctl.Some?
    ensures var env := o.tok.value.env;
            forall a :: a in TakeCommit(cfg, o, now).book.answered && a.Committed? ==>
              a in o.book.answered || a == Committed(env.reply, env.instanceID, env.commitSeq)
  {
    hide TaskFits, CommitFits;
  }

  /** When the publisher is done, the whole write set is in the log. */
  lemma DoneIsComplete(id: ObjectID, o: Obj)
    requires LogInv(id, o) && o.up && o.tok.Some? && o.tok.value.DoneTok? && EnvelopeOK(id, o.tok.value.env)
    ensures Complete(o.log, StateOf(o.tok.value.env.commit).value)
  {
    hide GeofenceMsgOK, RepairKnown, Commits, AllListed, LogOK;
    var env := o.tok.value.env;
    var st := StateOf(env.commit).value;
    assert IDs(o.log) == IDs(Published(o)) by { DedupIDs(o.log); DedupIDs(Published(o)); }
    forall e | e in ExpectedIDs(st) ensures e in IDs(o.log) {
      var k :| 0 <= k < |st.transitions| && e == TransitionID(st.transitions[k], st.objectID, st.instanceID, st.commitSeq);
      assert env.projections[k].data.e == e;
      var n := |o.base + Flat(o.sent)|;
      assert Published(o)[n + 1 + k] == env.projections[k];
      assert env.projections[k] in Published(o);
    }
  }

  lemma CompleteTakeCommit(cfg: Config, id: ObjectID, o: Obj, now: nat)
    requires LogInv(id, o) && CompleteInv(o) && o.up && o.tok.Some? && o.tok.value.DoneTok? && o.ctl.Some?
    requires EnvelopeOK(id, o.tok.value.env) && StateOf(o.tok.value.env.commit).Some?
    requires Commits(o.log) == Confirmed(o.log, o.tok) + [StateOf(o.tok.value.env.commit).value]
    ensures CompleteInv(TakeCommit(cfg, o, now))
  {
    hide Complete, CommitMsgOK, Commits, AllListed, LogOK, TakeCommit, Dedup;
    var env, o' := o.tok.value.env, TakeCommit(cfg, o, now);
    DoneIsComplete(id, o);
    TakeCommitSent(cfg, o, now);
    TakeCommitAnswers(cfg, o, now);
    var st, n := StateOf(env.commit).value, |Confirmed(o.log, o.tok)|;
    assert Commits(o.log)[n] == st;
    assert Settled(o') == Settled(o) + [st];
    assert Durable(o'.log, env.instanceID, env.commitSeq);
  }

  lemma CompleteAttempt(cfg: Config, id: ObjectID, o: Obj, out: Outcome)
    requires Inv(cfg, id, o) && CompleteInv(o) && Enabled(id, o, LAttempt(out))
    ensures CompleteInv(Attempt(o, out))
  {
    var job := o.tok.value.job;
    if job.confirmed { AttemptProjection(cfg, id, o, out); } else { AttemptCommit(cfg, id, o, out); }
    CompleteInvMore(o.log, JobMsg(job), Settled(o), o.book.answered);
  }

  lemma CompleteRepair(cfg: Config, id: ObjectID, o: Obj, m: Msg, now: nat)
    requires Inv(cfg, id, o) && CompleteInv(o) && Enabled(id, o, LRepair(m, now))
    ensures CompleteInv(Repair(o, m))
  {
    RepairKeeps(cfg, id, o, m, now);
    AppendProjection(cfg, id, o.log, m);
    CompleteInvMore(o.log, m, Settled(o), o.book.answered);
  }

  lemma CompleteBoot(cfg: Config, id: ObjectID, o: Obj)
    requires Inv(cfg, id, o) && CompleteInv(o) && Enabled(id, o, LBoot)
    ensures CompleteInv(Boot(cfg, o))
  {
    hide Complete, BootState, ChainOK, LogOK;
    assert Settled(Boot(cfg, o)) == Commits(o.log);
  }

  lemma CompleteQuiet(cfg: Config, id: ObjectID, o: Obj, l: Label)
    requires Inv(cfg, id, o) && CompleteInv(o) && Enabled(id, o, l) && !Publishes(l)
    ensures CompleteInv(Step(cfg, id, o, l))
  {
    hide Inv, Complete, Durable, Commits, Step, Enabled;
    QuietAnswers(cfg, id, o, l);
    QuietStep(cfg, id, o, l);
  }

  lemma CompleteEndJob(cfg: Config, id: ObjectID, o: Obj)
    requires Inv(cfg, id, o) && CompleteInv(o) && Enabled(id, o, LEndJob)
    ensures CompleteInv(EndJob(o))
  {
    hide Inv, Complete, Durable, Commits, Submitting, NumberOK;
    JobSubmitting(cfg, id, o);
  }

  lemma CompleteStep(cfg: Config, id: ObjectID, o: Obj, l: Label)
    requires Inv(cfg, id, o) && LogInv(id, o) && CompleteInv(o) && Enabled(id, o, l)
    ensures CompleteInv(Step(cfg, id, o, l))
  {
    hide Inv, LogInv, CompleteInv, Arrive, Work, TakeResult, StartJob, Attempt, TakeCommit, ForgetArea, Repair, Boot, CanRepair;
    match l
    case LAttempt(out) => CompleteAttempt(cfg, id, o, out);
    case LTakeCommit(now) =>
      DoneIsLast(cfg, id, o);
      CompleteTakeCommit(cfg, id, o, now);
    case LRepair(m, now) => CompleteRepair(cfg, id, o, m, now);
    case LBoot => CompleteBoot(cfg, id, o);
    case LCrash => CompleteCrash(o);
    case LEndJob => CompleteEndJob(cfg, id, o);
    case _ => CompleteQuiet(cfg, id, o, l);
  }

  lemma CompleteCrash(o: Obj)
    requires CompleteInv(o)
    ensures CompleteInv(Crash(o))
  {
    hide Complete, Commits;
    var o' := Crash(o);
    forall k | 0 <= k < |Settled(o')| ensures Complete(o'.log, Settled(o')[k]) {
      assert Settled(o')[k] == Settled(o)[k];
    }
  }
}
