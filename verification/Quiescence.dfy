/** Work comes to an end: every step by which work gets done, publish attempts succeeding, makes a measure of what
    is left to do smaller, and below the deadlock bound one is enabled while any command is in flight.  So the
    system comes to rest, with every accepted command answered. */
module Quiescence {
  import opened Domain
  import opened EventLog
  import opened Mailbox
  import opened ObjectMachine
  import opened ObjectInvariant
  import opened ObjectSteps
  import opened ObjectAnswers
  import opened ObjectRuns
  import opened Pipeline
  import opened PipelineTokens
  import opened PipelineRuns
  import opened PipelineTheorems
  import opened Publishing

  // ---- what is left to do ---------------------------------------------------------------------------------

  /** Adds up a weight over the objects listed. */
  function Total<T>(order: seq<ObjectID>, m: map<ObjectID, T>, weight: Option<T> -> nat): nat {
    if order == [] then 0 else weight(Get(m, order[0])) + Total(order[1..], m, weight)
  }

  lemma {:induction false} TotalElsewhere<T>(order: seq<ObjectID>, m: map<ObjectID, T>, weight: Option<T> -> nat, id: ObjectID, v: Option<T>)
    requires id !in order
    ensures Total(order, Put(m, id, v), weight) == Total(order, m, weight)
    decreases |order|
  {
    if order != [] { TotalElsewhere(order[1..], m, weight, id, v); }
  }

  lemma {:induction false} TotalPut<T>(order: seq<ObjectID>, m: map<ObjectID, T>, weight: Option<T> -> nat, id: ObjectID, v: Option<T>)
    requires Distinct(order) && id in order
    ensures Total(order, Put(m, id, v), weight) + weight(Get(m, id)) == Total(order, m, weight) + weight(v)
    decreases |order|
  {
    assert Distinct(order[1..]);
    if order[0] == id {
      TotalElsewhere(order[1..], m, weight, id, v);
    } else {
      TotalPut(order[1..], m, weight, id, v);
    }
  }

  /** Commands that await an answer. */
  function Unanswered(ctl: Option<Ctl>): nat { |WaitingIn(ctl)| }

  /** The stages a token still has to go through. */
  function StagesLeft(tok: Option<Token>): nat {
    match tok
    case None => 0
    case Some(TaskTok(_)) => 4
    case Some(ResTok(_)) => 3
    case Some(CommitTok(_)) => 2
    case Some(JobTok(_)) => 1
    case Some(DoneTok(_)) => 0
  }

  /** Messages of the job still to be confirmed. */
  function MessagesLeft(tok: Option<Token>): nat {
    match tok
    case Some(JobTok(job)) => Remaining(job)
    case _ => 0
  }

  function Holding(ws: seq<Worker>): nat {
    if ws == [] then 0 else (if ws[0].hold.Some? then 1 else 0) + Holding(ws[1..])
  }

  lemma {:induction false} HoldingSet(ws: seq<Worker>, w: nat, worker: Worker)
    requires w < |ws|
    ensures Holding(ws[w := worker]) + (if ws[w].hold.Some? then 1 else 0) == Holding(ws) + (if worker.hold.Some? then 1 else 0)
    decreases |ws|
  {
    var ws' := ws[w := worker];
    if w == 0 {
      assert ws'[1..] == ws[1..];
    } else {
      assert ws'[1..] == ws[1..][w - 1 := worker];
      HoldingSet(ws[1..], w - 1, worker);
    }
  }

  /** Hops left within the current stages. */
  function Hops(s: Sys): nat { (if s.out.Some? then 2 else 0) + Holding(s.workers) + |s.commits| }

  datatype Work = Work(unanswered: nat, stages: nat, messages: nat, hops: nat) {
    predicate Less(than: Work) {
      || unanswered < than.unanswered
      || (unanswered == than.unanswered &&
          (stages < than.stages
           || (stages == than.stages && (messages < than.messages || (messages == than.messages && hops < than.hops)))))
    }
  }

  function Left(order: seq<ObjectID>, s: Sys): Work {
    Work(Total(order, s.ctls, Unanswered), Total(order, s.tok, StagesLeft), Total(order, s.tok, MessagesLeft), Hops(s))
  }

  /** All objects that have a control block or a token. */
  ghost predicate Covers(order: seq<ObjectID>, s: Sys) {
    Distinct(order) && (forall id :: id in s.ctls ==> id in order) && (forall id :: id in s.tok ==> id in order)
  }

  /** A step by which work gets done, a publish attempt being one that succeeds. */
  predicate Works(a: Action) { IsProgress(a) && (a.ATryPublish? ==> Good(a.outcome)) }

  // ---- the steps that change one object ---------------------------------------------------------------------

  /** One object's control block and token changed, and less is left to do. */
  lemma ObjectWorked(order: seq<ObjectID>, s: Sys, s': Sys, id: ObjectID, ctl: Option<Ctl>, tok: Option<Token>)
    requires Covers(order, s) && id in s.tok
    requires s'.ctls == Put(s.ctls, id, ctl) && s'.tok == Put(s.tok, id, tok)
    requires Unanswered(ctl) < Unanswered(Get(s.ctls, id))
             || (Unanswered(ctl) == Unanswered(Get(s.ctls, id)) &&
                 (StagesLeft(tok) < StagesLeft(Get(s.tok, id))
                  || (StagesLeft(tok) == StagesLeft(Get(s.tok, id)) && MessagesLeft(tok) < MessagesLeft(Get(s.tok, id)))))
    ensures Covers(order, s') && Left(order, s').Less(Left(order, s))
  {
    hide Unanswered, StagesLeft, MessagesLeft, Hops, Total;
    TotalPut(order, s.ctls, Unanswered, id, ctl);
    TotalPut(order, s.tok, StagesLeft, id, tok);
    TotalPut(order, s.tok, MessagesLeft, id, tok);
  }

  /** Only a channel changed. */
  lemma Hopped(order: seq<ObjectID>, s: Sys, s': Sys)
    requires Covers(order, s) && s'.ctls == s.ctls && s'.tok == s.tok && Hops(s') < Hops(s)
    ensures Covers(order, s') && Left(order, s').Less(Left(order, s))
  {
    hide Hops, Total;
  }

  lemma SamePut<T>(m: map<ObjectID, T>, id: ObjectID)
    ensures Put(m, id, Get(m, id)) == m
  {}

  // ---- each kind of step -------------------------------------------------------------------------------------

  lemma ResultWorks(cfg: Config, s: Sys, order: seq<ObjectID>, now: nat)
    requires SysInv(cfg, s) && Covers(order, s) && Can(cfg, s, ATakeResult(now))
    ensures var s' := TakeWorkerResult(cfg, s, now); Covers(order, s') && Left(order, s').Less(Left(order, s))
  {
    hide SysInv, Inv, OnResult, Left, View, Unanswered, StagesLeft, MessagesLeft, Covers, Work.Less, TakeWorkerResult;
    var id := s.results[0].objectID;
    ResultInHand(cfg, s);
    ViewParts(s, id);
    ResultMoves(cfg, id, View(s, id), now);
    ResultShape(cfg, s, now);
    ResultStage();
    var s', out := TakeWorkerResult(cfg, s, now), OnResult(cfg, s.ctls[id], s.results[0], now);
    ObjectWorked(order, s, s', id, Some(out.ctl), TokenOf(out.send));
  }

  lemma ResultStage()
    ensures forall tok: Option<Token> {:trigger StagesLeft(tok)} :: tok.Some? && tok.value.ResTok? ==> StagesLeft(tok) == 3
  {}

  lemma ResultShape(cfg: Config, s: Sys, now: nat)
    requires s.results != []
    requires var id := s.results[0].objectID; id in s.ctls && s.ctls[id].head.Some? && Ready(s.ctls[id])
    ensures var id := s.results[0].objectID;
            var s', out := TakeWorkerResult(cfg, s, now), OnResult(cfg, s.ctls[id], s.results[0], now);
            s'.ctls == Put(s.ctls, id, Some(out.ctl)) && s'.tok == Put(s.tok, id, TokenOf(out.send))
  {
    hide OnResult;
  }

  lemma ResultInHand(cfg: Config, s: Sys)
    requires SysInv(cfg, s) && s.results != []
    ensures var id := s.results[0].objectID; Inv(cfg, id, View(s, id)) && View(s, id).tok == Some(ResTok(s.results[0]))
    ensures Get(s.tok, s.results[0].objectID) == Some(ResTok(s.results[0]))
  {
    FirstResultRecorded(s);
    SoundView(cfg, s, s.results[0].objectID);
    hide Inv, TreeView, PrevView, LogView;
  }

  lemma ViewParts(s: Sys, id: ObjectID)
    ensures View(s, id).ctl == Get(s.ctls, id) && View(s, id).tok == Get(s.tok, id) && View(s, id).up == s.up
  {}

  /** Seen by one object: an accepted result becomes a commit, and as many commands wait. */
  lemma ResultMoves(cfg: Config, id: ObjectID, o: Obj, now: nat)
    requires Inv(cfg, id, o) && o.tok.Some? && o.tok.value.ResTok?
    ensures o.ctl.Some? && o.ctl.value.head.Some? && Ready(o.ctl.value)
    ensures var out := OnResult(cfg, o.ctl.value, o.tok.value.res, now);
            StagesLeft(TokenOf(out.send)) == 2 && Unanswered(Some(out.ctl)) == Unanswered(o.ctl)
  {
    hide LogOK, ChainOK, ResultFits, NumberOK, Submitting, MailboxOK;
    ResultSubmits(cfg, id, o.ctl.value, o.tok.value.res, Confirmed(o.log, o.tok), o.tree, now);
  }

  lemma CommitWorks(cfg: Config, s: Sys, order: seq<ObjectID>, now: nat)
    requires SysInv(cfg, s) && Covers(order, s) && Can(cfg, s, ATakeCommitResult(now))
    ensures var s' := TakeCommitResult(cfg, s, now); Covers(order, s') && Left(order, s').Less(Left(order, s))
  {
    FirstDoneRecorded(s);
    var env := s.done[0];
    var id := env.objectID;
    SoundView(cfg, s, id);
    CommitMoves(cfg, id, View(s, id), now);
    hide SysInv, Inv, OnCommitResult, Total, View, Unanswered;
    ViewParts(s, id);
    var s', f := TakeCommitResult(cfg, s, now), OnCommitResult(cfg, s.ctls[id], ResultOf(env, true), now);
    ObjectWorked(order, s, s', id, f.ctl, TokenOf(f.send));
  }

  lemma CommitMoves(cfg: Config, id: ObjectID, o: Obj, now: nat)
    requires Inv(cfg, id, o) && o.tok.Some? && o.tok.value.DoneTok?
    ensures o.ctl.Some?
    ensures Unanswered(OnCommitResult(cfg, o.ctl.value, ResultOf(o.tok.value.env, true), now).ctl) < Unanswered(o.ctl)
  {
    DoneIsSubmitting(cfg, id, o);
    var c, env := o.ctl.value, o.tok.value.env;
    CommitBalance(cfg, c, env, now);
    AckGiven(cfg, c, env, now);
    hide OnCommitResult, Inv;
    var f := OnCommitResult(cfg, c, ResultOf(env, true), now);
    assert |Replies(f.answers) + WaitingIn(f.ctl)| == |f.answers| + |WaitingIn(f.ctl)|;
  }

  lemma AckGiven(cfg: Config, c: Ctl, env: CommitEnvelope, now: nat)
    ensures OnCommitResult(cfg, c, ResultOf(env, true), now).answers != []
  {
    hide DispatchNext;
  }

  lemma DeliverWorks(cfg: Config, s: Sys, order: seq<ObjectID>)
    requires Covers(order, s) && Can(cfg, s, ADeliver)
    ensures var s' := Deliver(s); Covers(order, s') && Left(order, s').Less(Left(order, s))
  {
    var s' := Deliver(s);
    if s.out.value.SendTask? {
      var w := TargetOf(s, s.out.value.task);
      HoldingSet(s.workers, w, s'.workers[w]);
    }
    Hopped(order, s, s');
  }

  lemma WorkWorks(cfg: Config, s: Sys, order: seq<ObjectID>, w: nat, ch: Choice)
    requires SysInv(cfg, s) && Covers(order, s) && Can(cfg, s, AWork(w, ch))
    ensures var s' := WorkOne(s, w, ch); Covers(order, s') && Left(order, s').Less(Left(order, s))
  {
    hide SysInv, Inv, Process, Left, Covers, Work.Less, View, ValidChoice, Unanswered, StagesLeft, MessagesLeft, WorkOne;
    var t := s.workers[w].inbox[0];
    TaskInHand(cfg, s, w);
    ViewParts(s, t.id);
    ViewRegions(s, t.id);
    TaskMoves(cfg, t.id, View(s, t.id), ch);
    WorkShape(s, w, ch);
    TaskStage();
    var s' := WorkOne(s, w, ch);
    var worked := Process(Get(s.ctls, t.id), t, TreeView(s.regions, t.id), ch);
    ObjectWorked(order, s, s', t.id, worked.ctl, Some(ResTok(worked.res)));
  }

  lemma TaskStage()
    ensures forall tok: Option<Token> {:trigger StagesLeft(tok)} :: tok.Some? && tok.value.TaskTok? ==> StagesLeft(tok) == 4
    ensures forall tok: Option<Token> {:trigger StagesLeft(tok)} :: tok.Some? && tok.value.ResTok? ==> StagesLeft(tok) == 3
  {}

  lemma TaskInHand(cfg: Config, s: Sys, w: nat)
    requires SysInv(cfg, s) && w < |s.workers| && s.workers[w].inbox != []
    ensures var t := s.workers[w].inbox[0];
            Inv(cfg, t.id, View(s, t.id)) && View(s, t.id).tok == Some(TaskTok(t)) && Get(s.tok, t.id) == Some(TaskTok(t))
  {
    FirstTaskRecorded(s, w);
    SoundView(cfg, s, s.workers[w].inbox[0].id);
    hide Inv, TreeView, PrevView, LogView;
  }

  lemma WorkShape(s: Sys, w: nat, ch: Choice)
    requires w < |s.workers| && s.workers[w].inbox != []
    ensures var t := s.workers[w].inbox[0];
            var s', worked := WorkOne(s, w, ch), Process(Get(s.ctls, t.id), t, TreeView(s.regions, t.id), ch);
            s'.ctls == Put(s.ctls, t.id, worked.ctl) && s'.tok == Put(s.tok, t.id, Some(ResTok(worked.res)))
  {
    hide Process, Retree;
  }

  lemma ViewRegions(s: Sys, id: ObjectID)
    ensures View(s, id).tree == TreeView(s.regions, id) && View(s, id).prev == PrevView(s.regions, id)
  {}

  lemma TaskMoves(cfg: Config, id: ObjectID, o: Obj, ch: Choice)
    requires Inv(cfg, id, o) && o.tok.Some? && o.tok.value.TaskTok? && ValidChoice(o.tok.value.task, o.prev, ch)
    ensures o.ctl.Some?
    ensures Unanswered(Process(o.ctl, o.tok.value.task, o.tree, ch).ctl) == Unanswered(o.ctl)
  {
    hide LogOK, StateOK, NumberOK, StoredOK;
    var cs := Confirmed(o.log, o.tok);
    WorkFits(cfg, id, o.ctl.value, o.tok.value.task, cs, o.tree, o.prev, ch);
  }

  lemma SendWorks(cfg: Config, s: Sys, order: seq<ObjectID>, w: nat)
    requires Covers(order, s) && Can(cfg, s, ASendResult(w))
    ensures var s' := SendResult(s, w); Covers(order, s') && Left(order, s').Less(Left(order, s))
  {
    var s' := SendResult(s, w);
    HoldingSet(s.workers, w, s'.workers[w]);
    Hopped(order, s, s');
  }

  lemma SpawnWorks(cfg: Config, s: Sys, order: seq<ObjectID>, p: nat)
    requires SysInv(cfg, s) && Covers(order, s) && Can(cfg, s, ASpawn(p))
    ensures var s' := SpawnJob(s, p); Covers(order, s') && Left(order, s').Less(Left(order, s))
  {
    HoldRecorded(s, p);
    var env := s.pubs[p].hold.value;
    hide SysInv, Total;
    SamePut(s.ctls, env.objectID);
    ObjectWorked(order, s, SpawnJob(s, p), env.objectID, Get(s.ctls, env.objectID), Some(JobTok(Job(env, false, 0, 0))));
  }

  lemma PublishWorks(cfg: Config, s: Sys, order: seq<ObjectID>, p: nat, j: nat, out: Outcome)
    requires SysInv(cfg, s) && Covers(order, s) && Can(cfg, s, ATryPublish(p, j, out)) && Good(out)
    ensures var s' := TryPublish(s, p, j, out); Covers(order, s') && Left(order, s').Less(Left(order, s))
  {
    JobRecorded(s, p, j);
    var job := s.pubs[p].jobs[j];
    GoodAdvances(s.log, job, out);
    hide SysInv, Total, JobAfter, LogAfter, Remaining;
    SamePut(s.ctls, job.env.objectID);
    ObjectWorked(order, s, TryPublish(s, p, j, out), job.env.objectID, Get(s.ctls, job.env.objectID),
                 Some(JobTok(JobAfter(s.log, job, out))));
  }

  lemma FinishWorks(cfg: Config, s: Sys, order: seq<ObjectID>, p: nat, j: nat)
    requires SysInv(cfg, s) && Covers(order, s) && Can(cfg, s, AFinish(p, j))
    ensures var s' := FinishJob(s, p, j); Covers(order, s') && Left(order, s').Less(Left(order, s))
  {
    JobRecorded(s, p, j);
    var env := s.pubs[p].jobs[j].env;
    hide SysInv, Total;
    SamePut(s.ctls, env.objectID);
    ObjectWorked(order, s, FinishJob(s, p, j), env.objectID, Get(s.ctls, env.objectID), Some(DoneTok(env)));
  }

  lemma TakeEnvWorks(cfg: Config, s: Sys, order: seq<ObjectID>, p: nat)
    requires Covers(order, s) && Can(cfg, s, ATakeEnv(p))
    ensures var s' := TakeEnv(s, p); Covers(order, s') && Left(order, s').Less(Left(order, s))
  {
    Hopped(order, s, TakeEnv(s, p));
  }

  /** Every working step leaves less to do: fewer commands without an answer; or as many, and fewer stages; or
      fewer messages to confirm; or fewer hops between channels. */
  lemma WorkDecreases(cfg: Config, s: Sys, a: Action, order: seq<ObjectID>)
    requires SysInv(cfg, s) && Covers(order, s) && Works(a) && Can(cfg, s, a)
    ensures Covers(order, Do(cfg, s, a)) && Left(order, Do(cfg, s, a)).Less(Left(order, s))
  {
    hide SysInv, Covers, Left, Can, Work.Less;
    match a
    case ATakeResult(now) => ResultWorks(cfg, s, order, now);
    case ATakeCommitResult(now) => CommitWorks(cfg, s, order, now);
    case ADeliver => DeliverWorks(cfg, s, order);
    case AWork(w, ch) => WorkWorks(cfg, s, order, w, ch);
    case ASendResult(w) => SendWorks(cfg, s, order, w);
    case ATakeEnv(p) => TakeEnvWorks(cfg, s, order, p);
    case ASpawn(p) => SpawnWorks(cfg, s, order, p);
    case ATryPublish(p, j, out) => PublishWorks(cfg, s, order, p, j, out);
    case AFinish(p, j) => FinishWorks(cfg, s, order, p, j);
  }
  // ---- coming to rest ---------------------------------------------------------------------------------------------

  /** A continuation of the run by working steps alone. */
  ghost predicate WorksOn(cfg: Config, run: seq<Sys>, actions: seq<Action>, states: seq<Sys>, acts: seq<Action>) {
    && |states| == |acts| && IsSysRun(cfg, run + states, actions + acts)
    && forall k {:trigger acts[k]} :: 0 <= k < |acts| ==> Works(acts[k])
  }

  /** No command is in flight, and every command let in has been answered. */
  ghost predicate AtRestNow(s: Sys) {
    && (forall id :: id in s.ctls ==> s.ctls[id].head.None? && s.ctls[id].queue == [])
    && forall id {:trigger HistoryOf(s, id)} :: HistoryOf(s, id).book.accepted == Replies(HistoryOf(s, id).book.answered)
  }

  lemma SysRunSnoc(cfg: Config, run: seq<Sys>, actions: seq<Action>, a: Action)
    requires IsSysRun(cfg, run, actions) && Can(cfg, run[|run| - 1], a)
    ensures IsSysRun(cfg, run + [Do(cfg, run[|run| - 1], a)], actions + [a])
  {
    hide SysStepOK;
    var run', actions' := run + [Do(cfg, run[|run| - 1], a)], actions + [a];
    assert SysStepOK(cfg, run[|run| - 1], a, Do(cfg, run[|run| - 1], a)) by { StepItself(cfg, run[|run| - 1], a); }
    forall k | 0 <= k < |actions'| ensures SysStepOK(cfg, run'[k], actions'[k], run'[k + 1]) {
      if k < |actions| { assert actions'[k] == actions[k] && SysStepOK(cfg, run[k], actions[k], run[k + 1]); }
    }
  }

  lemma StepItself(cfg: Config, s: Sys, a: Action)
    requires Can(cfg, s, a)
    ensures SysStepOK(cfg, s, a, Do(cfg, s, a))
  {
    hide Can, Do;
  }

  /** Among the enabled steps is a working one. */
  lemma SomeWork(cfg: Config, run: seq<Sys>, actions: seq<Action>, id: ObjectID) returns (a: Action)
    requires IsSysRun(cfg, run, actions) && run[|run| - 1].up && |run[|run| - 1].ctls| < 4162 && Busy(run[|run| - 1], id)
    ensures Works(a) && Can(cfg, run[|run| - 1], a)
  {
    var s := run[|run| - 1];
    NoDeadlock(cfg, run, actions, |run| - 1, id);
    hide IsSysRun, Busy;
    a :| IsProgress(a) && Can(cfg, s, a);
    if a.ATryPublish? { a := ATryPublish(a.p, a.j, Outcome(true, true, true)); }
  }

  lemma WorkKeepsUp(cfg: Config, s: Sys, a: Action)
    requires Can(cfg, s, a) && Works(a)
    ensures s.up && Do(cfg, s, a).up
  {
    hide OnResult, OnCommitResult, Process, ValidChoice, JobAfter, LogAfter, Mutate, Retree;
  }

  /** Working steps create no control block. */
  lemma WorkAddsNone(cfg: Config, s: Sys, a: Action)
    requires SysInv(cfg, s) && Can(cfg, s, a) && Works(a)
    ensures Do(cfg, s, a).ctls.Keys <= s.ctls.Keys
  {
    hide SysInv, OnResult, OnCommitResult, ValidChoice, JobAfter, LogAfter, Mutate, Retree, TreeView;
  }

  lemma FewerKeys<T>(a: map<ObjectID, T>, b: map<ObjectID, T>)
    requires b.Keys <= a.Keys
    ensures |b| <= |a|
  {
    SubsetSize(b.Keys, a.Keys);
    assert |b| == |b.Keys| && |a| == |a.Keys|;
  }

  lemma {:induction false} SubsetSize(b: set<ObjectID>, a: set<ObjectID>)
    requires b <= a
    ensures |b| <= |a|
    decreases b
  {
    if x :| x in b { SubsetSize(b - {x}, a - {x}); }
  }

  lemma Appended(cfg: Config, run: seq<Sys>, actions: seq<Action>, a: Action, s': Sys, states: seq<Sys>, acts: seq<Action>)
    requires WorksOn(cfg, run + [s'], actions + [a], states, acts) && Works(a)
    ensures WorksOn(cfg, run, actions, [s'] + states, [a] + acts)
  {
    hide IsSysRun, Works;
    assert run + ([s'] + states) == run + [s'] + states && actions + ([a] + acts) == actions + [a] + acts;
  }

  lemma RunNotEmpty(cfg: Config, run: seq<Sys>, actions: seq<Action>)
    requires IsSysRun(cfg, run, actions)
    ensures run != []
  {
    hide SysStepOK;
  }

  lemma NoneMore(cfg: Config, run: seq<Sys>, actions: seq<Action>)
    requires IsSysRun(cfg, run, actions)
    ensures WorksOn(cfg, run, actions, [], [])
  {
    hide IsSysRun;
    assert run + [] == run && actions + [] == actions;
  }

  lemma WorkThatCounts(cfg: Config, run: seq<Sys>, actions: seq<Action>, order: seq<ObjectID>, id: ObjectID) returns (a: Action)
    requires IsSysRun(cfg, run, actions) && run[|run| - 1].up && |run[|run| - 1].ctls| < 4162
    requires Covers(order, run[|run| - 1]) && Busy(run[|run| - 1], id)
    ensures Works(a) && Can(cfg, run[|run| - 1], a)
    ensures var s := run[|run| - 1];
            var s' := Do(cfg, s, a);
            s'.up && |s'.ctls| < 4162 && Covers(order, s') && Left(order, s').Less(Left(order, s))
  {
    var s := run[|run| - 1];
    SysRunSound(cfg, run, actions, |run| - 1);
    hide IsSysRun, SysInv, Busy, Can, Do, Covers, Left, Works;
    a := SomeWork(cfg, run, actions, id);
    WorkDecreases(cfg, s, a, order);
    WorkKeepsUp(cfg, s, a);
    WorkAddsNone(cfg, s, a);
    FewerKeys(s.ctls, Do(cfg, s, a).ctls);
  }

  function Latest(run: seq<Sys>, states: seq<Sys>): Sys
    requires run != []
  {
    if states == [] then run[|run| - 1] else states[|states| - 1]
  }

  /** From every reachable running state with fewer than 4162 objects, working steps lead to rest. */
  lemma {:induction false} ReachesRest(cfg: Config, run: seq<Sys>, actions: seq<Action>, order: seq<ObjectID>)
    returns (states: seq<Sys>, acts: seq<Action>)
    requires IsSysRun(cfg, run, actions) && run[|run| - 1].up && |run[|run| - 1].ctls| < 4162 && Covers(order, run[|run| - 1])
    ensures WorksOn(cfg, run, actions, states, acts) && Latest(run, states).up
    ensures forall id {:trigger Busy(Latest(run, states), id)} :: !Busy(Latest(run, states), id)
    decreases Left(order, run[|run| - 1]).unanswered, Left(order, run[|run| - 1]).stages,
              Left(order, run[|run| - 1]).messages, Left(order, run[|run| - 1]).hops
  {
    hide IsSysRun, SysInv, Busy, Can, Do, Covers, Left, Works, WorksOn;
    RunNotEmpty(cfg, run, actions);
    var s := run[|run| - 1];
    if id :| Busy(s, id) {
      var a := WorkThatCounts(cfg, run, actions, order, id);
      SysRunSnoc(cfg, run, actions, a);
      var more, rest := ReachesRest(cfg, run + [Do(cfg, s, a)], actions + [a], order);
      Appended(cfg, run, actions, a, Do(cfg, s, a), more, rest);
      states, acts := [Do(cfg, s, a)] + more, [a] + rest;
    } else {
      states, acts := [], [];
      NoneMore(cfg, run, actions);
    }
  }
  /** With nothing in flight nothing waits, so everything let in has been answered. */
  lemma IdleIsAtRest(cfg: Config, s: Sys)
    requires SysInv(cfg, s) && s.up && forall id {:trigger Busy(s, id)} :: !Busy(s, id)
    ensures AtRestNow(s)
  {
    hide SysInv;
    forall id ensures id in s.ctls ==> s.ctls[id].head.None? && s.ctls[id].queue == [] {
      assert !Busy(s, id);
      NothingWaits(cfg, s, id);
    }
    forall id ensures HistoryOf(s, id).book.accepted == Replies(HistoryOf(s, id).book.answered) {
      assert !Busy(s, id);
      NothingWaits(cfg, s, id);
    }
  }

  lemma NothingWaits(cfg: Config, s: Sys, id: ObjectID)
    requires SysInv(cfg, s) && s.up && !Busy(s, id)
    ensures id in s.ctls ==> s.ctls[id].head.None? && s.ctls[id].queue == []
    ensures HistoryOf(s, id).book.accepted == Replies(HistoryOf(s, id).book.answered)
  {
    SoundView(cfg, s, id);
    ViewParts(s, id);
    SoundBook(cfg, s, id);
    hide SysInv, Inv, View, TreeView, PrevView, LogView, HistoryOf;
    if id in s.ctls { IdleQueue(cfg, id, View(s, id)); }
    assert Replies(HistoryOf(s, id).book.answered) + [] == Replies(HistoryOf(s, id).book.answered);
  }

  lemma SoundBook(cfg: Config, s: Sys, id: ObjectID)
    requires SysInv(cfg, s) && s.up
    ensures BookOK(View(s, id)) && View(s, id).book == HistoryOf(s, id).book
  {
    hide Inv, BookOK, TreeView, PrevView, LogView;
    assert Sound(cfg, id, View(s, id));
  }

  /** Main result: below the deadlock bound the system comes to rest.  Whatever has happened before, if from now on
      only work is done and publishing succeeds, every command let in is answered in the end; and since every
      such step leaves less to do, this happens in whatever order the steps are taken. */
  lemma ComesToRest(cfg: Config, run: seq<Sys>, actions: seq<Action>) returns (states: seq<Sys>, acts: seq<Action>)
    requires IsSysRun(cfg, run, actions) && run[|run| - 1].up && |run[|run| - 1].ctls| < 4162
    ensures WorksOn(cfg, run, actions, states, acts) && AtRestNow(Latest(run, states))
  {
    var s := run[|run| - 1];
    hide IsSysRun, SysInv, Busy, AtRestNow;
    var order := SomeListing(s.ctls.Keys + s.tok.Keys);
    ListedAll(order, s);
    states, acts := ReachesRest(cfg, run, actions, order);
    var all := run + states;
    assert all[|all| - 1] == Latest(run, states);
    SysRunSound(cfg, all, actions + acts, |all| - 1);
    IdleIsAtRest(cfg, Latest(run, states));
  }

  lemma ListedAll(order: seq<ObjectID>, s: Sys)
    requires Lists(order, s.ctls.Keys + s.tok.Keys)
    ensures Covers(order, s)
  {
    forall id | id in s.ctls || id in s.tok ensures id in order { assert id in Elems(order); }
  }
}
