/** The publishing loop of one commit envelope (internal/gtevents/publisher.go): the commit message
    until it is confirmed, then the projections from the first, again from the first after every
    failure.  The outcomes of the attempts are given; the context is cancelled when they run out. */
module Publishing {
  import opened Domain
  import opened Events
  import opened EventLog
  import opened Mailbox
  import opened ObjectMachine
  import opened ObjectInvariant
  import opened ObjectSteps
  import opened ObjectLog

  /** The stream and the job after the given attempts, or as soon as the job is done. */
  function Drive(log: seq<Msg>, job: Job, outs: seq<Outcome>): (seq<Msg>, Job, seq<Outcome>)
    decreases |outs|
  {
    if !JobActive(job) || outs == [] then (log, job, outs)
    else Drive(LogAfter(log, JobMsg(job), outs[0]), JobAfter(log, job, outs[0]), outs[1..])
  }

  class Backend {
    var log: seq<Msg>
    var outcomes: seq<Outcome>

    constructor (log: seq<Msg>, outcomes: seq<Outcome>)
      ensures this.log == log && this.outcomes == outcomes
    {
      this.log, this.outcomes := log, outcomes;
    }

    /** publishOrVerify: an acknowledgement, or after an error the same event id last on the subject. */
    method PublishOrVerify(m: Msg) returns (ok: bool)
      modifies this
      ensures old(outcomes) == [] ==> !ok && log == old(log) && outcomes == []
      ensures old(outcomes) != [] ==>
                var out := old(outcomes)[0];
                ok == Confirms(old(log), m, out) && log == LogAfter(old(log), m, out) && outcomes == old(outcomes)[1..]
    {
      if outcomes == [] { return false; }
      var out := outcomes[0];
      outcomes := outcomes[1..];
      if out.stored { log := log + [m]; }
      if out.acked { return true; }
      if !out.readable { return false; }
      var last := LastOnSubject(log, m.subject);
      return last.Some? && last.value.data.e == m.data.e;
    }

    /** commitOne: refines the attempt-by-attempt machine, with a loop for each kind of message. */
    method CommitOne(env: CommitEnvelope) returns (ok: bool)
      modifies this
      ensures var end := Drive(old(log), Job(env, false, 0, 0), old(outcomes));
              log == end.0 && outcomes == end.2 && ok == !JobActive(end.1)
    {
      ghost var end := Drive(log, Job(env, false, 0, 0), outcomes);
      var commitPublished := false;
      ghost var job := Job(env, false, 0, 0);
      while true
        invariant job.env == env && job.confirmed == commitPublished && (job.next == 0 || outcomes == [])
        invariant JobActive(job) && Drive(log, job, outcomes) == end
        decreases |outcomes|
      {
        if outcomes == [] { return false; }
        ghost var start := outcomes;
        if !commitPublished {
          job := JobAfter(log, job, outcomes[0]);
          commitPublished := PublishOrVerify(env.commit);
          if !commitPublished { continue; }
        }
        var projectionsPublished := true;
        var i := 0;
        while i < |env.projections|
          invariant 0 <= i <= |env.projections| && job.env == env && job.confirmed && job.next == i
          invariant Drive(log, job, outcomes) == end
          invariant |outcomes| <= |start| && projectionsPublished
          decreases |env.projections| - i
        {
          if outcomes != [] { job := JobAfter(log, job, outcomes[0]); }
          var published := PublishOrVerify(env.projections[i]);
          if !published {
            projectionsPublished := false;
            break;
          }
          i := i + 1;
        }
        if projectionsPublished { return true; }
        assert |outcomes| < |start|;
      }
    }
  }

  // ---- what the loop achieves ------------------------------------------------------------------------------

  ghost predicate ValidOutcomes(outs: seq<Outcome>) { forall i :: 0 <= i < |outs| ==> ValidOutcome(outs[i]) }

  lemma {:induction false} DrivePublishes(log: seq<Msg>, before: seq<Msg>, job: Job, outs: seq<Outcome>)
    requires JobOK(job) && ValidOutcomes(outs) && Dedup(log) == Dedup(before + Pending(Some(JobTok(job))))
    ensures var end := Drive(log, job, outs);
            && end.1.env == job.env && JobOK(end.1)
            && Dedup(end.0) == Dedup(before + Pending(Some(JobTok(end.1))))
    decreases |outs|
  {
    hide Dedup, Pending, Confirms, LogAfter;
    if JobActive(job) && outs != [] {
      AttemptDedup(log, before, job, outs[0]);
      DrivePublishes(LogAfter(log, JobMsg(job), outs[0]), before, JobAfter(log, job, outs[0]), outs[1..]);
    }
  }

  /** However many acknowledgements are lost: when the loop succeeds, the stream with repeats dropped
      has grown by exactly the write set, in order; when it is cancelled, by a prefix of it. */
  lemma CommitOnePublishes(log: seq<Msg>, env: CommitEnvelope, outs: seq<Outcome>)
    requires ValidOutcomes(outs)
    ensures var end := Drive(log, Job(env, false, 0, 0), outs);
            && (!JobActive(end.1) ==> Dedup(end.0) == Dedup(log + WriteSet(env)))
            && exists n :: 0 <= n <= |WriteSet(env)| && Dedup(end.0) == Dedup(log + WriteSet(env)[..n])
  {
    var job := Job(env, false, 0, 0);
    assert log + Pending(Some(JobTok(job))) == log;
    DrivePublishes(log, log, job, outs);
    var end := Drive(log, job, outs);
    assert Pending(Some(JobTok(end.1))) == WriteSet(env)[..end.1.reach];
    if !JobActive(end.1) { AllPending(end.1); }
  }
  /** The message is stored, and that is noticed. */
  predicate Good(out: Outcome) { out.stored && (out.acked || out.readable) }

  /** The messages still to be confirmed. */
  function Remaining(job: Job): nat {
    if !job.confirmed then 1 + |job.env.projections|
    else if job.next < |job.env.projections| then |job.env.projections| - job.next else 0
  }

  lemma GoodAdvances(log: seq<Msg>, job: Job, out: Outcome)
    requires JobActive(job) && Good(out)
    ensures Remaining(JobAfter(log, job, out)) == Remaining(job) - 1 && JobAfter(log, job, out).env == job.env
  {
    ConfirmsExactly(log, JobMsg(job), out);
    hide Confirms;
  }

  /** An attempt that fails sends the loop back: to the commit while that is not confirmed, else to the first
      projection, although some may have been confirmed before. */
  lemma FailureStartsOver(log: seq<Msg>, job: Job, out: Outcome)
    requires JobActive(job) && !Confirms(log, JobMsg(job), out)
    ensures var job' := JobAfter(log, job, out);
            JobActive(job') && JobMsg(job') == if job.confirmed then job.env.projections[0] else job.env.commit
  {
    hide Confirms;
  }

  lemma {:induction false} GoodRunFinishes(log: seq<Msg>, job: Job, outs: seq<Outcome>)
    requires |outs| >= Remaining(job) && forall i :: 0 <= i < |outs| ==> Good(outs[i])
    ensures !JobActive(Drive(log, job, outs).1)
    decreases |outs|
  {
    hide JobAfter, LogAfter;
    if JobActive(job) && outs != [] {
      GoodAdvances(log, job, outs[0]);
      GoodRunFinishes(LogAfter(log, JobMsg(job), outs[0]), JobAfter(log, job, outs[0]), outs[1..]);
    }
  }

  lemma {:induction false} DriveOn(log: seq<Msg>, job: Job, outs: seq<Outcome>, more: seq<Outcome>)
    ensures var mid := Drive(log, job, outs);
            JobActive(mid.1) ==> mid.2 == [] && Drive(log, job, outs + more) == Drive(mid.0, mid.1, more)
    ensures var mid := Drive(log, job, outs);
            !JobActive(mid.1) ==> Drive(log, job, outs + more).1 == mid.1
    ensures Drive(log, job, outs).1.env == job.env
    decreases |outs|
  {
    hide JobAfter, LogAfter, JobMsg;
    if outs == [] {
      assert outs + more == more;
    } else if JobActive(job) {
      assert (outs + more)[0] == outs[0] && (outs + more)[1..] == outs[1..] + more;
      SameEnvelope(log, job, outs[0]);
      DriveOn(LogAfter(log, JobMsg(job), outs[0]), JobAfter(log, job, outs[0]), outs[1..], more);
    }
  }

  lemma SameEnvelope(log: seq<Msg>, job: Job, out: Outcome)
    requires JobActive(job)
    ensures JobAfter(log, job, out).env == job.env
  {
    hide Confirms;
  }

  /** Whatever went wrong before, once as many attempts in a row succeed as the write set has messages, the
      loop has succeeded. */
  lemma CommitOneSucceeds(log: seq<Msg>, env: CommitEnvelope, outs: seq<Outcome>, good: seq<Outcome>)
    requires |good| >= |WriteSet(env)| && forall i :: 0 <= i < |good| ==> Good(good[i])
    ensures !JobActive(Drive(log, Job(env, false, 0, 0), outs + good).1)
  {
    var job := Job(env, false, 0, 0);
    DriveOn(log, job, outs, good);
    var mid := Drive(log, job, outs);
    if JobActive(mid.1) { GoodRunFinishes(mid.0, mid.1, good); }
  }
}
