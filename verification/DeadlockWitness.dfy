/** The bound on live objects is sharp: with 4162 of them the pipeline can reach a state in which commands are
    in flight and nothing moves any more.  All objects rest in one region; then all set out for the other:
    4096 results fill the result channel, the transition executor holds one more, its inbox of 64 is full, and
    the dispatcher, about to hand it the next task, no longer takes results. */
module DeadlockWitness {
  import opened Domain
  import opened Events
  import opened EventLog
  import opened Mailbox
  import opened ObjectMachine
  import opened Pipeline
  import opened PipelineRuns
  import opened PipelineTheorems
  import ReplayWitness

  const DIMS := ReplayWitness.DIMS

  /** Two regions, left and right of x = 0. */
  const SPLIT := ReplayWitness.SOURCE

  function Name(k: nat): ObjectID { seq(k, _ => 'a') }

  lemma NamesDiffer(j: nat, k: nat)
    ensures Name(j) == Name(k) <==> j == k
  {
    assert |Name(j)| == j && |Name(k)| == k;
  }

  ghost predicate Reached(s: Sys) {
    exists run, actions :: IsSysRun(SPLIT, run, actions) && run[|run| - 1] == s
  }

  lemma NextReached(s: Sys, a: Action)
    requires Reached(s) && Can(SPLIT, s, a)
    ensures Reached(Do(SPLIT, s, a))
  {
    hide SysStepOK, Can, Do;
    var run, actions :| IsSysRun(SPLIT, run, actions) && run[|run| - 1] == s;
    var s' := Do(SPLIT, s, a);
    assert SysStepOK(SPLIT, s, a, s') by { StepIs(s, a); }
    var run', actions' := run + [s'], actions + [a];
    forall k | 0 <= k < |actions'| ensures SysStepOK(SPLIT, run'[k], actions'[k], run'[k + 1]) {
      if k < |actions| { assert actions'[k] == actions[k] && SysStepOK(SPLIT, run[k], actions[k], run[k + 1]); }
    }
    assert IsSysRun(SPLIT, run', actions') && run'[|run'| - 1] == s';
  }

  lemma StepIs(s: Sys, a: Action)
    requires Can(SPLIT, s, a)
    ensures SysStepOK(SPLIT, s, a, Do(SPLIT, s, a))
  {
    hide Can, Do;
  }

  // ---- states with little going on ------------------------------------------------------------------------

  const IDLE_WORKER := Worker([], None)
  const IDLE_PUB := Publisher(None, [])

  /** The first n objects are live, the others unknown; no inside snapshot is stored. */
  ghost predicate Live(s: Sys, n: nat) {
    && s.up && |s.regions| == 2 && s.regions[0].prev == map[] && s.regions[1].prev == map[]
    && |s.ctls| == n && (forall k: nat {:trigger Name(k)} :: Name(k) in s.ctls <==> k < n)
    && (forall k: nat {:trigger Name(k)} :: k >= n ==> LogView(s.log, Name(k)) == [])
  }

  /** Nothing is on its way beyond what the dispatcher is about to send. */
  ghost predicate Still(s: Sys) {
    && s.workers == [IDLE_WORKER, IDLE_WORKER, IDLE_WORKER] && s.results == []
    && s.commits == [] && s.pubs == [IDLE_PUB, IDLE_PUB] && s.done == []
  }

  /** An object at rest, after some commits. */
  function Rest(route: Option<Region>, commits: nat): Ctl { Ctl(route, None, [], "i", commits, DIMS, false, None, route, false) }

  /** Its commit is on the way. */
  function Sending(route: Option<Region>, commits: nat, head: Envelope, env: CommitEnvelope): Ctl {
    Ctl(route, Some(head), [], "i", commits, DIMS, true, Some(env), route, false)
  }

  ghost predicate NothingInside(m: Mutation) { m.PrevInsideNoop? || (m.PrevInsideSet? && m.inside == {} && m.newRegion < 2) }

  const HEALTHY := ReplayWitness.HEALTHY

  // ---- one commit through the publisher -------------------------------------------------------------------

  lemma Handed(s: Sys, env: CommitEnvelope) returns (s': Sys)
    requires Reached(s) && s.up && Still(s) && s.out == Some(SendCommit(env))
    ensures Reached(s')
    ensures s' == s.(out := None, pubs := [Publisher(None, [Job(env, false, 0, 0)]), IDLE_PUB], tok := s'.tok)
  {
    hide Reached;
    NextReached(s, ADeliver);
    var s1 := Deliver(s);
    assert s1 == s.(out := None, commits := [env]);
    s' := Spawned(s1, env);
  }

  lemma Spawned(s: Sys, env: CommitEnvelope) returns (s': Sys)
    requires Reached(s) && s.up && s.commits == [env] && s.pubs == [IDLE_PUB, IDLE_PUB]
    ensures Reached(s')
    ensures s' == s.(commits := [], pubs := [Publisher(None, [Job(env, false, 0, 0)]), IDLE_PUB], tok := s'.tok)
  {
    hide Reached;
    NextReached(s, ATakeEnv(0));
    var s1 := TakeEnv(s, 0);
    assert s1.commits == [] && s1.pubs == [Publisher(Some(env), []), IDLE_PUB];
    NextReached(s1, ASpawn(0));
    s' := SpawnJob(s1, 0);
    assert s'.pubs[0].jobs == [Job(env, false, 0, 0)];
  }

  lemma Published(s: Sys, env: CommitEnvelope) returns (s': Sys)
    requires Reached(s) && s.up && s.pubs == [Publisher(None, [Job(env, false, 0, 0)]), IDLE_PUB] && s.done == [] && env.projections == []
    ensures Reached(s')
    ensures s' == s.(pubs := [IDLE_PUB, IDLE_PUB], done := [env], log := s.log + [env.commit], tok := s'.tok)
  {
    hide Reached;
    NextReached(s, ATryPublish(0, 0, HEALTHY));
    var s1 := TryPublish(s, 0, 0, HEALTHY);
    assert s1.pubs[0].jobs == [Job(env, true, 0, 1)];
    NextReached(s1, AFinish(0, 0));
    s' := FinishJob(s1, 0, 0);
    assert s'.pubs[0].jobs == [];
  }

  lemma Relieved(s: Sys, k: nat, head: Envelope, env: CommitEnvelope, route: Option<Region>, commits: nat) returns (s': Sys)
    requires Reached(s) && s.up && s.out == None && s.done == [env] && env.objectID == Name(k) && Name(k) in s.ctls
    requires s.ctls[Name(k)] == Sending(route, commits, head, env) && head.kind != TaskRemove && env.commitSeq == commits + 1
    ensures Reached(s')
    ensures s' == s.(done := [], ctls := s.ctls[Name(k) := Rest(route, commits + 1)], regions := Mutate(s.regions, Name(k), env.mutation),
                     tok := s'.tok, hist := s'.hist)
  {
    hide Reached, Mutate, OnCommitResult;
    NextReached(s, ATakeCommitResult(0));
    s' := TakeCommitResult(SPLIT, s, 0);
    Relieving(s.ctls[Name(k)], head, env, route, commits);
  }

  /** A commit without projections goes through the publisher, and its object comes to rest. */
  lemma Publish(s: Sys, n: nat, k: nat, head: Envelope, env: CommitEnvelope, route: Option<Region>, commits: nat) returns (s': Sys)
    requires Reached(s) && Live(s, n) && Still(s) && k < n && s.out == Some(SendCommit(env))
    requires s.ctls[Name(k)] == Sending(route, commits, head, env) && head.kind != TaskRemove
    requires env.objectID == Name(k) && env.projections == [] && NothingInside(env.mutation)
    requires About(env.commit, Name(k)) && env.commitSeq == commits + 1
    ensures Reached(s') && Live(s', n) && Still(s') && s'.out == None
    ensures s'.ctls == s.ctls[Name(k) := Rest(route, commits + 1)]
  {
    LiveIs(s, n);
    hide Reached, Live, Name;
    var s1 := Handed(s, env);
    var s2 := Published(s1, env);
    s' := Relieved(s2, k, head, env, route, commits);
    StillLive(s, s', n, k, env.commit, env.mutation, Rest(route, commits + 1));
  }

  lemma LiveIs(s: Sys, n: nat)
    requires Live(s, n)
    ensures s.up && |s.regions| == 2 && forall k: nat {:trigger Name(k)} :: Name(k) in s.ctls <==> k < n
  {}

  lemma Relieving(c: Ctl, head: Envelope, env: CommitEnvelope, route: Option<Region>, commits: nat)
    requires c == Sending(route, commits, head, env) && head.kind != TaskRemove && env.commitSeq == commits + 1
    ensures var f := OnCommitResult(SPLIT, c, ResultOf(env, true), 0);
            f.ctl == Some(Rest(route, commits + 1)) && f.send == None
  {}

  /** A commit of a live object changes neither who is live nor the snapshots. */
  lemma StillLive(s: Sys, s': Sys, n: nat, k: nat, m: Msg, mutation: Mutation, c: Ctl)
    requires Live(s, n) && k < n && About(m, Name(k)) && NothingInside(mutation)
    requires s'.up && s'.log == s.log + [m] && s'.regions == Mutate(s.regions, Name(k), mutation)
    requires s'.ctls == s.ctls[Name(k) := c]
    ensures Live(s', n)
  {
    var id := Name(k);
    var none: map<ObjectID, set<AreaID>> := map[];
    assert none - {id} == none;
    forall j: nat | j >= n ensures LogView(s'.log, Name(j)) == [] {
      NamesDiffer(j, k);
      LogViewSnoc(s.log, m, Name(j));
      assert LogView(s.log, Name(j)) == [];
    }
    assert id in s.ctls;
  }

  // ---- a new object --------------------------------------------------------------------------------------

  const ORIGIN := Position(0.0, 0.0, 0.0, 0.0)

  function Registration(k: nat): Envelope { Envelope(Name(k), "", 0, ORIGIN, DIMS, TaskRegister) }

  lemma RegistrationSends(k: nat) returns (env: CommitEnvelope)
    ensures var out := SubmitNewRegister(SPLIT, NewCtl(DIMS).(instanceID := "i", head := Some(Registration(k))), Registration(k), 0);
            out.ctl == Sending(None, 0, Registration(k), env) && out.send == Some(SendCommit(env))
    ensures env.objectID == Name(k) && env.projections == [] && env.mutation == PrevInsideNoop && env.commitSeq == 1
    ensures About(env.commit, Name(k))
  {
    hide Handled, Handled', Name;
    var head := Registration(k);
    var c := NewCtl(DIMS).(instanceID := "i", head := Some(head));
    assert BuildCommitMsgs(RegisterInput(c, head), 0).Ok?;
    env := SubmitNewRegister(SPLIT, c, head, 0).send.value.env;
  }

  lemma Registering(s: Sys, n: nat) returns (s': Sys, env: CommitEnvelope)
    requires Reached(s) && s.up && s.out == None && Name(n) !in s.ctls && FreshInstance(View(s, Name(n)), "i")
    ensures Reached(s')
    ensures s' == s.(out := Some(SendCommit(env)), ctls := s.ctls[Name(n) := Sending(None, 0, Registration(n), env)],
                     tok := s'.tok, hist := s'.hist)
    ensures env.objectID == Name(n) && env.projections == [] && env.mutation == PrevInsideNoop && env.commitSeq == 1
    ensures About(env.commit, Name(n))
  {
    env := RegistrationSends(n);
    hide Reached, Name, SubmitNewRegister, FreshInstance, View;
    NextReached(s, ATakeEnvelope(Registration(n), "i", 0));
    s' := TakeEnvelope(SPLIT, s, Registration(n), "i", 0);
  }

  lemma Register(s: Sys, n: nat) returns (s': Sys)
    requires Reached(s) && Live(s, n) && Still(s) && s.out == None
    ensures Reached(s') && Live(s', n + 1) && Still(s') && s'.out == None
    ensures s'.ctls == s.ctls[Name(n) := Rest(None, 1)]
  {
    NewIsFresh(s, n);
    LiveIs(s, n);
    hide Reached, Name, Live, FreshInstance, View;
    var s1, env := Registering(s, n);
    OneMoreLive(s, s1, n, s1.ctls[Name(n)]);
    s' := Publish(s1, n + 1, n, Registration(n), env, None, 0);
    assert s'.ctls == s.ctls[Name(n) := Rest(None, 1)];
  }

  lemma NewIsFresh(s: Sys, n: nat)
    requires Live(s, n)
    ensures FreshInstance(View(s, Name(n)), "i") && Name(n) !in s.ctls
  {
    assert LogView(s.log, Name(n)) == [];
  }

  lemma OneMoreLive(s: Sys, s': Sys, n: nat, c: Ctl)
    requires Live(s, n) && s'.ctls == s.ctls[Name(n) := c]
    requires s'.up && s'.regions == s.regions && s'.log == s.log
    ensures Live(s', n + 1)
  {
    assert Name(n) !in s.ctls;
    forall k: nat ensures Name(k) in s'.ctls <==> k < n + 1 {
      NamesDiffer(k, n);
      assert Name(k) in s.ctls <==> k < n;
    }
  }

  // ---- a position ------------------------------------------------------------------------------------------

  function At(k: nat, x: real): Envelope { Envelope(Name(k), "", 0, Position(x, 0.0, 0.0, 0.0), DIMS, TaskUpdate) }

  function Side(x: real): Region { if x < 0.0 then 0 else 1 }

  function TaskFor(k: nat, route: Option<Region>, x: real): WorkerTask {
    WorkerTask(if route.None? then TaskInit else if route == Some(Side(x)) then TaskUpdate else TaskTransition,
               Name(k), "", Position(x, 0.0, 0.0, 0.0), DIMS, Side(x), route)
  }

  /** The object heads for the side of x. */
  function Heading(k: nat, route: Option<Region>, commits: nat, x: real): Ctl {
    Ctl(Some(Side(x)), Some(At(k, x)), [], "i", commits, DIMS, false, None, route, false)
  }

  lemma SetOut(s: Sys, k: nat, route: Option<Region>, commits: nat, x: real) returns (s': Sys)
    requires Reached(s) && s.up && s.out == None && Name(k) in s.ctls && s.ctls[Name(k)] == Rest(route, commits)
    ensures Reached(s')
    ensures s' == s.(out := Some(SendTask(TaskFor(k, route, x))), ctls := s.ctls[Name(k) := Heading(k, route, commits, x)],
                     tok := s'.tok, hist := s'.hist)
  {
    var inst := ReplayWitness.NewName(Commits(LogView(s.log, Name(k))));
    assert FreshInstance(View(s, Name(k)), inst);
    hide Reached, Name, FreshInstance, View;
    NextReached(s, ATakeEnvelope(At(k, x), inst, 0));
    s' := TakeEnvelope(SPLIT, s, At(k, x), inst, 0);
  }

  // ---- the first position of an object -----------------------------------------------------------------------

  const NO_AREAS := Choice({}, [], [], [], [])

  lemma NoAreas(t: WorkerTask, prev: map<Region, set<AreaID>>)
    requires prev == map[]
    ensures ValidChoice(t, prev, NO_AREAS)
  {
    assert Elems<AreaID>([]) == {};
    var none: set<AreaID> := {};
    assert none - none == none;
  }

  lemma NoSnapshots(s: Sys, n: nat, id: ObjectID)
    requires Live(s, n)
    ensures PrevView(s.regions, id) == map[]
  {}

  lemma PlacedSends(k: nat, c: Ctl, res: WorkerResult) returns (env: CommitEnvelope)
    requires c == Heading(k, Some(0), 1, -1.0)
    requires res == PlacedResult(k)
    ensures var out := OnResult(SPLIT, c, res, 0);
            out.ctl == Sending(Some(0), 1, At(k, -1.0), env) && out.send == Some(SendCommit(env))
    ensures env.objectID == Name(k) && env.projections == [] && env.mutation == PrevInsideSet(0, {}) && env.commitSeq == 2
    ensures About(env.commit, Name(k))
  {
    hide Handled, Handled', Name;
    var input := ResultInput(c, c.head.value, res);
    assert BuildCommitMsgs(input, 0).Ok?;
    env := OnResult(SPLIT, c, res, 0).send.value.env;
  }

  function PlacedResult(k: nat): WorkerResult {
    WorkerResult(Name(k), "", 0, false, Position(-1.0, 0.0, 0.0, 0.0), DIMS, [], [], {}, None, false)
  }

  /** The region worker gets its task. */
  lemma Tasked(s: Sys, k: nat) returns (s': Sys)
    requires Reached(s) && s.up && |s.regions| == 2 && Still(s) && s.out == None
    requires Name(k) in s.ctls && s.ctls[Name(k)] == Rest(None, 1)
    ensures Reached(s')
    ensures s' == s.(ctls := s.ctls[Name(k) := Heading(k, None, 1, -1.0)],
                     workers := [Worker([TaskFor(k, None, -1.0)], None), IDLE_WORKER, IDLE_WORKER], tok := s'.tok, hist := s'.hist)
  {
    var s1 := SetOut(s, k, None, 1, -1.0);
    hide Reached, Name;
    NextReached(s1, ADeliver);
    s' := Deliver(s1);
    assert s'.workers[0].inbox == [TaskFor(k, None, -1.0)];
  }

  /** It places the object and passes the result on. */
  lemma Placing(s: Sys, n: nat, k: nat) returns (s': Sys)
    requires Reached(s) && Live(s, n) && Still(s) && s.out == None && k < n && s.ctls[Name(k)] == Rest(None, 1)
    ensures Reached(s')
    ensures s' == s.(ctls := s.ctls[Name(k) := Heading(k, Some(0), 1, -1.0)], results := [PlacedResult(k)],
                     regions := Retree(s.regions, TaskFor(k, None, -1.0)), tok := s'.tok, hist := s'.hist)
  {
    hide Reached, Live, Name, PrevView, TreeView, ValidChoice, Retree;
    LiveIs(s, n);
    NoSnapshots(s, n, Name(k));
    NoAreas(TaskFor(k, None, -1.0), PrevView(s.regions, Name(k)));
    var s1 := Tasked(s, k);
    FirstWork(k, TreeView(s.regions, Name(k)));
    hide Process;
    NextReached(s1, AWork(0, NO_AREAS));
    var s2 := WorkOne(s1, 0, NO_AREAS);
    assert s2.workers[0].inbox == [] && s2.workers == [Worker([], Some(PlacedResult(k))), IDLE_WORKER, IDLE_WORKER];
    NextReached(s2, ASendResult(0));
    s' := SendResult(s2, 0);
    assert s'.results == [PlacedResult(k)];
  }

  lemma Place(s: Sys, n: nat, k: nat) returns (s': Sys)
    requires Reached(s) && Live(s, n) && Still(s) && s.out == None && k < n && s.ctls[Name(k)] == Rest(None, 1)
    ensures Reached(s') && Live(s', n) && Still(s') && s'.out == None
    ensures s'.ctls == s.ctls[Name(k) := Rest(Some(0), 2)]
  {
    hide Reached, Live, Name;
    LiveIs(s, n);
    var s1 := Placing(s, n, k);
    var env := PlacedSends(k, s1.ctls[Name(k)], PlacedResult(k));
    hide OnResult;
    NextReached(s1, ATakeResult(0));
    var s2 := TakeWorkerResult(SPLIT, s1, 0);
    assert s2.results == [];
    SameLive(s, s2, n, k, Sending(Some(0), 1, At(k, -1.0), env));
    s' := Publish(s2, n, k, At(k, -1.0), env, Some(0), 1);
  }

  lemma FirstWork(k: nat, tree: map<Region, Item>)
    ensures var w := Process(Some(Heading(k, None, 1, -1.0)), TaskFor(k, None, -1.0), tree, NO_AREAS);
            w.res == PlacedResult(k) && w.ctl == Some(Heading(k, Some(0), 1, -1.0))
  {
    hide Name;
    var none: seq<AreaID> := [];
    assert Marks(none, true) + Marks(none, false) == [];
  }

  /** Trees aside, nothing about who is live changed. */
  lemma SameLive(s: Sys, s': Sys, n: nat, k: nat, c: Ctl)
    requires Live(s, n) && k < n && s'.ctls == s.ctls[Name(k) := c] && s'.up && s'.log == s.log
    requires |s'.regions| == 2 && s'.regions[0].prev == s.regions[0].prev && s'.regions[1].prev == s.regions[1].prev
    ensures Live(s', n)
  {
    assert Name(k) in s.ctls;
  }

  // ---- all at home -------------------------------------------------------------------------------------------

  /** The first n objects rest on the left. */
  ghost predicate Home(s: Sys, n: nat) {
    Live(s, n) && Still(s) && s.out == None && forall k: nat {:trigger Name(k)} :: k < n ==> s.ctls[Name(k)] == Rest(Some(0), 2)
  }

  lemma StartReached()
    ensures Reached(Empty(SPLIT)) && Home(Empty(SPLIT), 0)
  {
    var s := Empty(SPLIT);
    assert IsSysRun(SPLIT, [s], []) && [s][|[s]| - 1] == s;
  }

  lemma HomeNext(s: Sys, n: nat, s1: Sys, s2: Sys)
    requires Home(s, n) && Live(s2, n + 1) && Still(s2) && s2.out == None
    requires s1.ctls == s.ctls[Name(n) := Rest(None, 1)] && s2.ctls == s1.ctls[Name(n) := Rest(Some(0), 2)]
    ensures Home(s2, n + 1)
  {
    forall k: nat | k < n + 1 ensures s2.ctls[Name(k)] == Rest(Some(0), 2) {
      NamesDiffer(k, n);
      if k < n { assert s.ctls[Name(k)] == Rest(Some(0), 2); }
    }
  }

  lemma {:induction false} AllHome(n: nat) returns (s: Sys)
    ensures Reached(s) && Home(s, n)
  {
    if n == 0 {
      StartReached();
      s := Empty(SPLIT);
    } else {
      var s0 := AllHome(n - 1);
      hide Reached;
      var s1 := Register(s0, n - 1);
      s := Place(s1, n, n - 1);
      HomeNext(s0, n - 1, s1, s);
    }
  }

  // ---- all set out -------------------------------------------------------------------------------------------

  /** The first m have set out for the right, n in all; the others rest. */
  ghost predicate Leaving(s: Sys, n: nat, m: nat) {
    && s.up && |s.regions| == 2 && s.regions[0].prev == map[] && s.regions[1].prev == map[]
    && |s.ctls| == n && (forall k: nat {:trigger Name(k)} :: Name(k) in s.ctls <==> k < n)
    && (forall k: nat {:trigger Name(k)} :: m <= k < n ==> s.ctls[Name(k)] == Rest(Some(0), 2))
    && s.commits == [] && s.pubs == [IDLE_PUB, IDLE_PUB] && s.done == []
    && |s.workers| == 3 && s.workers[0] == IDLE_WORKER && s.workers[1] == IDLE_WORKER
  }

  lemma SetOutNext(s: Sys, s': Sys, n: nat, m: nat)
    requires Leaving(s, n, m) && m < n && s'.ctls.Keys == s.ctls.Keys && s'.ctls - {Name(m)} == s.ctls - {Name(m)}
    requires s'.up && |s'.regions| == 2 && s'.regions[0].prev == map[] && s'.regions[1].prev == map[]
    requires s'.commits == s.commits && s'.pubs == s.pubs && s'.done == s.done
    requires |s'.workers| == 3 && s'.workers[0] == s.workers[0] && s'.workers[1] == s.workers[1]
    ensures Leaving(s', n, m + 1)
  {
    assert |s'.ctls| == |s'.ctls.Keys| == |s.ctls.Keys| == |s.ctls|;
    forall k: nat | m + 1 <= k < n ensures s'.ctls[Name(k)] == Rest(Some(0), 2) {
      NamesDiffer(k, m);
      assert Name(k) in s.ctls - {Name(m)};
      assert (s'.ctls - {Name(m)})[Name(k)] == (s.ctls - {Name(m)})[Name(k)];
    }
  }

  /** The next object sets out: its task is given to the transition executor. */
  lemma Depart(s: Sys, n: nat, m: nat) returns (s': Sys)
    requires Reached(s) && Leaving(s, n, m) && m < n && s.out == None && |s.workers[2].inbox| < 64
    ensures Reached(s') && Leaving(s', n, m + 1) && s'.out == None
    ensures s'.workers == s.workers[2 := Worker(s.workers[2].inbox + [TaskFor(m, Some(0), 1.0)], s.workers[2].hold)]
    ensures s'.results == s.results && Name(m) in s'.ctls && s'.ctls[Name(m)] == Heading(m, Some(0), 2, 1.0)
  {
    LeavingIs(s, n, m);
    var s1 := SetOut(s, m, Some(0), 2, 1.0);
    hide Reached, Leaving, Name;
    NextReached(s1, ADeliver);
    s' := Deliver(s1);
    assert s'.ctls - {Name(m)} == s.ctls - {Name(m)};
    SetOutNext(s, s', n, m);
  }

  lemma LeavingIs(s: Sys, n: nat, m: nat)
    requires Leaving(s, n, m)
    ensures s.up && |s.regions| == 2 && |s.workers| == 3 && s.regions[0].prev == map[] && s.regions[1].prev == map[]
    ensures m < n ==> Name(m) in s.ctls && s.ctls[Name(m)] == Rest(Some(0), 2)
  {}

  /** The transition executor works its one task. */
  lemma Cross(s: Sys, n: nat, m: nat) returns (s': Sys)
    requires Reached(s) && Leaving(s, n, m + 1) && m < n && s.out == None
    requires s.workers[2] == Worker([TaskFor(m, Some(0), 1.0)], None) && Name(m) in s.ctls
    ensures Reached(s') && Leaving(s', n, m + 1) && s'.out == None && s'.results == s.results
    ensures s'.workers[2].inbox == [] && s'.workers[2].hold.Some?
  {
    LeavingIs(s, n, m + 1);
    var t := TaskFor(m, Some(0), 1.0);
    assert PrevView(s.regions, Name(m)) == map[];
    NoAreas(t, PrevView(s.regions, Name(m)));
    NextReached(s, AWork(2, NO_AREAS));
    s' := WorkOne(s, 2, NO_AREAS);
    CrossedLeaving(s, s', n, m);
  }

  lemma CrossedLeaving(s: Sys, s': Sys, n: nat, m: nat)
    requires Leaving(s, n, m + 1) && m < n && Name(m) in s.ctls && s.workers[2].inbox == [TaskFor(m, Some(0), 1.0)]
    requires s' == WorkOne(s, 2, NO_AREAS)
    ensures Leaving(s', n, m + 1)
  {
    var id := Name(m);
    assert Name(m) in s'.ctls && s'.ctls.Keys == s.ctls.Keys;
    assert |s'.ctls| == |s'.ctls.Keys| == |s.ctls.Keys| == |s.ctls|;
    forall k: nat | m + 1 <= k < n ensures s'.ctls[Name(k)] == Rest(Some(0), 2) {
      NamesDiffer(k, m);
      assert s.ctls[Name(k)] == Rest(Some(0), 2);
    }
  }

  /** And passes its result on. */
  lemma Report(s: Sys, n: nat, m: nat) returns (s': Sys)
    requires Reached(s) && Leaving(s, n, m) && s.out == None && |s.results| < 4096
    requires s.workers[2].inbox == [] && s.workers[2].hold.Some?
    ensures Reached(s') && Leaving(s', n, m) && s'.out == None && |s'.results| == |s.results| + 1
    ensures s'.workers[2] == IDLE_WORKER
  {
    LeavingIs(s, n, m);
    hide Reached;
    NextReached(s, ASendResult(2));
    s' := SendResult(s, 2);
  }

  /** The result channel fills up. */
  lemma {:induction false} FillResults(n: nat, m: nat) returns (s: Sys)
    requires m <= n && m <= 4096
    ensures Reached(s) && Leaving(s, n, m) && s.out == None && |s.results| == m && s.workers[2] == IDLE_WORKER
  {
    if m == 0 {
      s := AllHome(n);
    } else {
      var s0 := FillResults(n, m - 1);
      hide Reached, Leaving, Name;
      LeavingIs(s0, n, m - 1);
      var s1 := Depart(s0, n, m - 1);
      LeavingIs(s1, n, m);
      var s2 := Cross(s1, n, m - 1);
      s := Report(s2, n, m);
    }
  }

  /** The transition executor holds a result, and its inbox fills up. */
  lemma {:induction false} FillInbox(n: nat, j: nat) returns (s: Sys)
    requires n == 4162 && j <= 64
    ensures Reached(s) && Leaving(s, n, 4097 + j) && s.out == None && |s.results| == 4096
    ensures |s.workers[2].inbox| == j && s.workers[2].hold.Some?
  {
    if j == 0 {
      var s0 := FillResults(n, 4096);
      hide Reached, Leaving, Name;
      LeavingIs(s0, n, 4096);
      var s1 := Depart(s0, n, 4096);
      LeavingIs(s1, n, 4097);
      s := Cross(s1, n, 4096);
      LeavingIs(s, n, 4097);
    } else {
      var s0 := FillInbox(n, j - 1);
      hide Reached, Leaving, Name;
      LeavingIs(s0, n, 4097 + j - 1);
      s := Depart(s0, n, 4097 + j - 1);
    }
  }

  /** Everything waits for room that nobody makes. */
  lemma Jammed(s: Sys, n: nat, m: nat, t: WorkerTask)
    requires Leaving(s, n, m) && s.out == Some(SendTask(t)) && t.kind == TaskTransition
    requires |s.results| == 4096 && |s.workers[2].inbox| == 64 && s.workers[2].hold.Some?
    ensures Stuck(SPLIT, s)
  {}

  /** Main result: with 4162 live objects a state can be reached with a command in flight and no progress
      possible, so the bound of `NoDeadlock` is exact. */
  lemma DeadlockAtBound()
    ensures exists run: seq<Sys>, actions :: IsSysRun(SPLIT, run, actions)
              && var s := run[|run| - 1]; s.up && |s.ctls| == 4162 && (exists id :: Busy(s, id)) && Stuck(SPLIT, s)
  {
    var n := 4162;
    var s0 := FillInbox(n, 64);
    LeavingIs(s0, n, 4161);
    var s := SetOut(s0, 4161, Some(0), 2, 1.0);
    SetOutLeaves(s0, s, n);
    hide Leaving, IsSysRun, Stuck;
    Jammed(s, n, n, TaskFor(4161, Some(0), 1.0)) by { LeavingIs(s, n, n); }
    assert Busy(s, Name(4161));
  }

  lemma SetOutLeaves(s0: Sys, s: Sys, n: nat)
    requires n == 4162 && Leaving(s0, n, 4161)
    requires s == s0.(out := s.out, ctls := s0.ctls[Name(4161) := Heading(4161, Some(0), 2, 1.0)], tok := s.tok, hist := s.hist)
    ensures Leaving(s, n, n) && |s.ctls| == 4162
  {
    assert Name(4161) in s0.ctls;
    assert s.ctls.Keys == s0.ctls.Keys;
    assert s.ctls - {Name(4161)} == s0.ctls - {Name(4161)};
    SetOutNext(s0, s, n, 4161);
  }
}
