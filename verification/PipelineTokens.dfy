/** The tokens in the pipeline's channels: every step moves one token from one place to another, so
    at any time there is exactly one for each object that has a command in flight. */
module PipelineTokens {
  import opened Domain
  import opened Mailbox
  import opened ObjectMachine
  import opened Pipeline

  function IdOf(t: Token): ObjectID {
    match t
    case TaskTok(task) => task.id
    case ResTok(res) => res.objectID
    case CommitTok(env) => env.objectID
    case JobTok(job) => job.env.objectID
    case DoneTok(env) => env.objectID
  }

  // ---- places ---------------------------------------------------------------------------------------

  function OutToks(out: Option<Send>): seq<Token> { if TokenOf(out).Some? then [TokenOf(out).value] else [] }

  function Tasks(inbox: seq<WorkerTask>): seq<Token> { seq(|inbox|, i requires 0 <= i < |inbox| => TaskTok(inbox[i])) }

  function ResultToks(results: seq<WorkerResult>): seq<Token> { seq(|results|, i requires 0 <= i < |results| => ResTok(results[i])) }

  function CommitToks(envs: seq<CommitEnvelope>): seq<Token> { seq(|envs|, i requires 0 <= i < |envs| => CommitTok(envs[i])) }

  function DoneToks(envs: seq<CommitEnvelope>): seq<Token> { seq(|envs|, i requires 0 <= i < |envs| => DoneTok(envs[i])) }

  function JobToks(jobs: seq<Job>): seq<Token> { seq(|jobs|, i requires 0 <= i < |jobs| => JobTok(jobs[i])) }

  function WorkerToks(w: Worker): seq<Token> { Tasks(w.inbox) + if w.hold.Some? then [ResTok(w.hold.value)] else [] }

  function PubToks(p: Publisher): seq<Token> { JobToks(p.jobs) + if p.hold.Some? then [CommitTok(p.hold.value)] else [] }

  function AllWorkerToks(ws: seq<Worker>): seq<Token> {
    if ws == [] then [] else AllWorkerToks(ws[..|ws| - 1]) + WorkerToks(ws[|ws| - 1])
  }

  function AllPubToks(ps: seq<Publisher>): seq<Token> {
    if ps == [] then [] else AllPubToks(ps[..|ps| - 1]) + PubToks(ps[|ps| - 1])
  }

  /** How often the token occurs. */
  ghost function Count(ts: seq<Token>, t: Token): nat { multiset(ts)[t] }

  /** How often the token occurs in the whole system. */
  ghost function Tally(s: Sys, t: Token): nat {
    Count(OutToks(s.out), t) + Count(AllWorkerToks(s.workers), t) + Count(ResultToks(s.results), t)
    + Count(CommitToks(s.commits), t) + Count(AllPubToks(s.pubs), t) + Count(DoneToks(s.done), t)
  }

  /** The tokens found in the channels are those recorded per object, one each. */
  ghost predicate TokensOK(s: Sys) {
    && (forall id {:trigger s.tok[id]} :: id in s.tok ==> IdOf(s.tok[id]) == id)
    && (forall t {:trigger Tally(s, t)} :: Tally(s, t) == if Get(s.tok, IdOf(t)) == Some(t) then 1 else 0)
  }

  // ---- counting -------------------------------------------------------------------------------------

  function One(x: Token, t: Token): nat { if x == t then 1 else 0 }

  lemma CountConcat(a: seq<Token>, b: seq<Token>, t: Token)
    ensures Count(a + b, t) == Count(a, t) + Count(b, t)
  {}

  lemma CountSnoc(ts: seq<Token>, x: Token, t: Token)
    ensures Count(ts + [x], t) == Count(ts, t) + One(x, t)
  {}

  lemma CountWithout(ts: seq<Token>, k: nat, t: Token)
    requires k < |ts|
    ensures Count(ts, t) == Count(ts[..k] + ts[k + 1..], t) + One(ts[k], t)
  {
    assert ts == ts[..k] + [ts[k]] + ts[k + 1..];
  }

  lemma CountFirst(ts: seq<Token>, t: Token)
    requires ts != []
    ensures Count(ts, t) == Count(ts[1..], t) + One(ts[0], t)
  {
    CountWithout(ts, 0, t);
    assert ts[..0] + ts[1..] == ts[1..];
  }

  lemma CountSet(ts: seq<Token>, k: nat, x: Token, t: Token)
    requires k < |ts|
    ensures Count(ts[k := x], t) + One(ts[k], t) == Count(ts, t) + One(x, t)
  {
    CountWithout(ts, k, t);
    CountWithout(ts[k := x], k, t);
    assert ts[k := x][..k] + ts[k := x][k + 1..] == ts[..k] + ts[k + 1..];
  }

  lemma {:induction false} WorkersSet(ws: seq<Worker>, k: nat, w: Worker, t: Token)
    requires k < |ws|
    ensures Count(AllWorkerToks(ws[k := w]), t) + Count(WorkerToks(ws[k]), t)
            == Count(AllWorkerToks(ws), t) + Count(WorkerToks(w), t)
    decreases |ws|
  {
    hide Count, WorkerToks;
    var n := |ws| - 1;
    CountConcat(AllWorkerToks(ws[..n]), WorkerToks(ws[n]), t);
    CountConcat(AllWorkerToks(ws[k := w][..n]), WorkerToks(ws[k := w][n]), t);
    if k == n {
      assert ws[k := w][..n] == ws[..n];
    } else {
      WorkersSet(ws[..n], k, w, t);
      assert ws[k := w][..n] == ws[..n][k := w];
    }
  }

  lemma {:induction false} PubsSet(ps: seq<Publisher>, k: nat, p: Publisher, t: Token)
    requires k < |ps|
    ensures Count(AllPubToks(ps[k := p]), t) + Count(PubToks(ps[k]), t) == Count(AllPubToks(ps), t) + Count(PubToks(p), t)
    decreases |ps|
  {
    hide Count, PubToks;
    var n := |ps| - 1;
    CountConcat(AllPubToks(ps[..n]), PubToks(ps[n]), t);
    CountConcat(AllPubToks(ps[k := p][..n]), PubToks(ps[k := p][n]), t);
    if k == n {
      assert ps[k := p][..n] == ps[..n];
    } else {
      PubsSet(ps[..n], k, p, t);
      assert ps[k := p][..n] == ps[..n][k := p];
    }
  }

  lemma {:induction false} InAllWorkers(ws: seq<Worker>, k: nat, t: Token)
    requires k < |ws| && t in WorkerToks(ws[k])
    ensures t in AllWorkerToks(ws)
    decreases |ws|
  {
    if k < |ws| - 1 { InAllWorkers(ws[..|ws| - 1], k, t); }
  }

  lemma {:induction false} InAllPubs(ps: seq<Publisher>, k: nat, t: Token)
    requires k < |ps| && t in PubToks(ps[k])
    ensures t in AllPubToks(ps)
    decreases |ps|
  {
    if k < |ps| - 1 { InAllPubs(ps[..|ps| - 1], k, t); }
  }

  // ---- where a token is, it is the object's -----------------------------------------------------------

  lemma Recorded(s: Sys, t: Token)
    requires TokensOK(s) && Tally(s, t) > 0
    ensures Get(s.tok, IdOf(t)) == Some(t)
  {}

  lemma FirstResultRecorded(s: Sys)
    requires TokensOK(s) && s.results != []
    ensures Get(s.tok, s.results[0].objectID) == Some(ResTok(s.results[0]))
  {
    assert ResultToks(s.results)[0] == ResTok(s.results[0]);
    assert Count(ResultToks(s.results), ResTok(s.results[0])) > 0;
    Recorded(s, ResTok(s.results[0]));
  }

  lemma FirstDoneRecorded(s: Sys)
    requires TokensOK(s) && s.done != []
    ensures Get(s.tok, s.done[0].objectID) == Some(DoneTok(s.done[0]))
  {
    assert DoneToks(s.done)[0] == DoneTok(s.done[0]);
    assert Count(DoneToks(s.done), DoneTok(s.done[0])) > 0;
    Recorded(s, DoneTok(s.done[0]));
  }

  lemma WorkerRecorded(s: Sys, w: nat, t: Token)
    requires TokensOK(s) && w < |s.workers| && t in WorkerToks(s.workers[w])
    ensures Get(s.tok, IdOf(t)) == Some(t)
  {
    InAllWorkers(s.workers, w, t);
    assert Count(AllWorkerToks(s.workers), t) > 0;
    Recorded(s, t);
  }

  lemma FirstTaskRecorded(s: Sys, w: nat)
    requires TokensOK(s) && w < |s.workers| && s.workers[w].inbox != []
    ensures Get(s.tok, s.workers[w].inbox[0].id) == Some(TaskTok(s.workers[w].inbox[0]))
  {
    assert WorkerToks(s.workers[w])[0] == TaskTok(s.workers[w].inbox[0]);
    WorkerRecorded(s, w, TaskTok(s.workers[w].inbox[0]));
  }

  lemma PubRecorded(s: Sys, p: nat, t: Token)
    requires TokensOK(s) && p < |s.pubs| && t in PubToks(s.pubs[p])
    ensures Get(s.tok, IdOf(t)) == Some(t)
  {
    InAllPubs(s.pubs, p, t);
    assert Count(AllPubToks(s.pubs), t) > 0;
    Recorded(s, t);
  }

  lemma HoldRecorded(s: Sys, p: nat)
    requires TokensOK(s) && p < |s.pubs| && s.pubs[p].hold.Some?
    ensures Get(s.tok, s.pubs[p].hold.value.objectID) == Some(CommitTok(s.pubs[p].hold.value))
  {
    var t := CommitTok(s.pubs[p].hold.value);
    assert PubToks(s.pubs[p])[|s.pubs[p].jobs|] == t;
    PubRecorded(s, p, t);
  }

  lemma JobRecorded(s: Sys, p: nat, j: nat)
    requires TokensOK(s) && p < |s.pubs| && j < |s.pubs[p].jobs|
    ensures Get(s.tok, s.pubs[p].jobs[j].env.objectID) == Some(JobTok(s.pubs[p].jobs[j]))
  {
    assert PubToks(s.pubs[p])[j] == JobTok(s.pubs[p].jobs[j]);
    PubRecorded(s, p, JobTok(s.pubs[p].jobs[j]));
  }

  // ---- every step moves one token ----------------------------------------------------------------------

  /** `from` is taken out (if any) and `to` put in (if any), for the same object. */
  ghost predicate Moved(s: Sys, s': Sys, id: ObjectID, from: Option<Token>, to: Option<Token>) {
    && (from.Some? ==> IdOf(from.value) == id) && (to.Some? ==> IdOf(to.value) == id)
    && (from.None? ==> id !in s.tok)
    && s'.tok == Put(s.tok, id, to)
    && forall t {:trigger Tally(s', t)} ::
         Tally(s', t) + (if from == Some(t) then 1 else 0) == Tally(s, t) + (if to == Some(t) then 1 else 0)
  }

  lemma MovedOK(s: Sys, s': Sys, id: ObjectID, from: Option<Token>, to: Option<Token>)
    requires TokensOK(s) && Moved(s, s', id, from, to)
    requires from.Some? ==> Get(s.tok, id) == from
    ensures TokensOK(s')
  {
    hide Tally;
    forall t ensures Tally(s', t) == if Get(s'.tok, IdOf(t)) == Some(t) then 1 else 0 {
      assert Tally(s, t) == if Get(s.tok, IdOf(t)) == Some(t) then 1 else 0;
    }
  }

  lemma Stayed(s: Sys, s': Sys)
    requires TokensOK(s) && s'.tok == s.tok && forall t {:trigger Tally(s', t)} :: Tally(s', t) == Tally(s, t)
    ensures TokensOK(s')
  {
    hide Tally;
    forall t ensures Tally(s', t) == if Get(s'.tok, IdOf(t)) == Some(t) then 1 else 0 {
      assert Tally(s, t) == if Get(s.tok, IdOf(t)) == Some(t) then 1 else 0;
    }
  }

  lemma OutCount(send: Option<Send>, t: Token)
    ensures Count(OutToks(send), t) == if TokenOf(send) == Some(t) then 1 else 0
  {
    hide TokenOf;
    if TokenOf(send).Some? { CountSnoc([], TokenOf(send).value, t); }
  }

  lemma SentNew(s: Sys, s': Sys, id: ObjectID, send: Option<Send>)
    requires TokensOK(s) && s.out.None? && id !in s.tok
    requires TokenOf(send).Some? ==> IdOf(TokenOf(send).value) == id
    requires s' == s.(out := send, ctls := s'.ctls, hist := s'.hist, tok := Put(s.tok, id, TokenOf(send)))
    ensures TokensOK(s')
  {
    forall t ensures Tally(s', t) == Tally(s, t) + if TokenOf(send) == Some(t) then 1 else 0 {
      OutCount(send, t);
    }
    hide Tally;
    MovedOK(s, s', id, None, TokenOf(send));
  }

  lemma ResultTally(s: Sys, s': Sys, send: Option<Send>, t: Token)
    requires s.out.None? && s.results != []
    requires s' == s.(out := send, results := s.results[1..], ctls := s'.ctls, hist := s'.hist, tok := s'.tok)
    ensures Tally(s', t) + One(ResTok(s.results[0]), t) == Tally(s, t) + (if TokenOf(send) == Some(t) then 1 else 0)
  {
    var toks := ResultToks(s.results);
    assert ResultToks(s'.results) == toks[1..] && toks[0] == ResTok(s.results[0]);
    hide Count, TokenOf, ResultToks;
    CountFirst(toks, t);
    OutCount(send, t);
    OutCount(None, t);
  }

  lemma ResultMoves(s: Sys, s': Sys, send: Option<Send>)
    requires TokensOK(s) && s.out.None? && s.results != []
    requires TokenOf(send).Some? ==> IdOf(TokenOf(send).value) == s.results[0].objectID
    requires s' == s.(out := send, results := s.results[1..], ctls := s'.ctls, hist := s'.hist,
                      tok := Put(s.tok, s.results[0].objectID, TokenOf(send)))
    ensures TokensOK(s')
  {
    hide Tally, TokenOf;
    var from := ResTok(s.results[0]);
    FirstResultRecorded(s);
    forall t ensures Tally(s', t) + One(from, t) == Tally(s, t) + (if TokenOf(send) == Some(t) then 1 else 0) {
      ResultTally(s, s', send, t);
    }
    MovedOK(s, s', from.res.objectID, Some(from), TokenOf(send));
  }

  lemma DoneTally(s: Sys, s': Sys, send: Option<Send>, t: Token)
    requires s.out.None? && s.done != []
    requires s' == s.(out := send, done := s.done[1..], ctls := s'.ctls, hist := s'.hist, regions := s'.regions, tok := s'.tok)
    ensures Tally(s', t) + One(DoneTok(s.done[0]), t) == Tally(s, t) + (if TokenOf(send) == Some(t) then 1 else 0)
  {
    var toks := DoneToks(s.done);
    assert DoneToks(s'.done) == toks[1..] && toks[0] == DoneTok(s.done[0]);
    hide Count, TokenOf, DoneToks;
    CountFirst(toks, t);
    OutCount(send, t);
    OutCount(None, t);
  }

  lemma DoneMoves(s: Sys, s': Sys, send: Option<Send>)
    requires TokensOK(s) && s.out.None? && s.done != []
    requires TokenOf(send).Some? ==> IdOf(TokenOf(send).value) == s.done[0].objectID
    requires s' == s.(out := send, done := s.done[1..], ctls := s'.ctls, hist := s'.hist, regions := s'.regions,
                      tok := Put(s.tok, s.done[0].objectID, TokenOf(send)))
    ensures TokensOK(s')
  {
    hide Tally, TokenOf;
    var from := DoneTok(s.done[0]);
    FirstDoneRecorded(s);
    forall t ensures Tally(s', t) + One(from, t) == Tally(s, t) + (if TokenOf(send) == Some(t) then 1 else 0) {
      DoneTally(s, s', send, t);
    }
    MovedOK(s, s', from.env.objectID, Some(from), TokenOf(send));
  }

  lemma InboxCount(was: Worker, task: WorkerTask, t: Token)
    ensures Count(WorkerToks(was.(inbox := was.inbox + [task])), t) == Count(WorkerToks(was), t) + One(TaskTok(task), t)
  {
    var holds := if was.hold.Some? then [ResTok(was.hold.value)] else [];
    assert Tasks(was.inbox + [task]) == Tasks(was.inbox) + [TaskTok(task)];
    CountConcat(Tasks(was.inbox), holds, t);
    CountConcat(Tasks(was.inbox) + [TaskTok(task)], holds, t);
    CountSnoc(Tasks(was.inbox), TaskTok(task), t);
  }

  lemma DeliverTaskTally(s: Sys, t: Token)
    requires s.out.Some? && s.out.value.SendTask? && TargetOf(s, s.out.value.task) < |s.workers|
    ensures Tally(Deliver(s), t) == Tally(s, t)
  {
    var s', task := Deliver(s), s.out.value.task;
    hide Count, WorkerToks, AllWorkerToks, AllPubToks;
    OutCount(s.out, t);
    OutCount(None, t);
    WorkersSet(s.workers, TargetOf(s, task), s'.workers[TargetOf(s, task)], t);
    InboxCount(s.workers[TargetOf(s, task)], task, t);
  }

  lemma DeliverCommitTally(s: Sys, t: Token)
    requires s.out.Some? && s.out.value.SendCommit?
    ensures Tally(Deliver(s), t) == Tally(s, t)
  {
    var s', x := Deliver(s), CommitTok(s.out.value.env);
    assert CommitToks(s'.commits) == CommitToks(s.commits) + [x];
    hide Count, AllWorkerToks, AllPubToks, CommitToks;
    OutCount(s.out, t);
    OutCount(None, t);
    CountSnoc(CommitToks(s.commits), x, t);
  }

  lemma DeliverMoves(cfg: Config, s: Sys)
    requires TokensOK(s) && Can(cfg, s, ADeliver)
    ensures TokensOK(Deliver(s))
  {
    hide Tally;
    forall t ensures Tally(Deliver(s), t) == Tally(s, t) {
      if s.out.value.SendTask? { DeliverTaskTally(s, t); } else { DeliverCommitTally(s, t); }
    }
    Stayed(s, Deliver(s));
  }

  lemma WorkCount(was: Worker, res: WorkerResult, t: Token)
    requires was.inbox != [] && was.hold.None?
    ensures Count(WorkerToks(Worker(was.inbox[1..], Some(res))), t) + One(TaskTok(was.inbox[0]), t)
            == Count(WorkerToks(was), t) + One(ResTok(res), t)
  {
    assert WorkerToks(was) == Tasks(was.inbox);
    assert Tasks(was.inbox)[1..] == Tasks(was.inbox[1..]);
    CountFirst(Tasks(was.inbox), t);
    CountSnoc(Tasks(was.inbox[1..]), ResTok(res), t);
  }

  lemma WorkTally(s: Sys, s': Sys, w: nat, res: WorkerResult, t: Token)
    requires w < |s.workers| && s.workers[w].inbox != [] && s.workers[w].hold.None?
    requires s' == s.(ctls := s'.ctls, regions := s'.regions, tok := s'.tok,
                      workers := s.workers[w := Worker(s.workers[w].inbox[1..], Some(res))])
    ensures Tally(s', t) + One(TaskTok(s.workers[w].inbox[0]), t) == Tally(s, t) + One(ResTok(res), t)
  {
    hide Count, WorkerToks, AllWorkerToks, AllPubToks;
    WorkersSet(s.workers, w, s'.workers[w], t);
    WorkCount(s.workers[w], res, t);
  }

  /** A worker's token turns from a task into its result. */
  lemma WorkMoves(s: Sys, s': Sys, w: nat, res: WorkerResult)
    requires TokensOK(s) && w < |s.workers| && s.workers[w].inbox != [] && s.workers[w].hold.None?
    requires res.objectID == s.workers[w].inbox[0].id
    requires s' == s.(ctls := s'.ctls, regions := s'.regions, tok := s.tok[res.objectID := ResTok(res)],
                      workers := s.workers[w := Worker(s.workers[w].inbox[1..], Some(res))])
    ensures TokensOK(s')
  {
    hide Tally;
    var from, to := TaskTok(s.workers[w].inbox[0]), ResTok(res);
    FirstTaskRecorded(s, w);
    forall t ensures Tally(s', t) + One(from, t) == Tally(s, t) + One(to, t) { WorkTally(s, s', w, res, t); }
    MovedOK(s, s', res.objectID, Some(from), Some(to));
  }

  lemma SendResultMoves(s: Sys, w: nat)
    requires TokensOK(s) && w < |s.workers| && s.workers[w].hold.Some?
    ensures TokensOK(SendResult(s, w))
  {
    var s', x := SendResult(s, w), ResTok(s.workers[w].hold.value);
    assert WorkerToks(s'.workers[w]) + [x] == WorkerToks(s.workers[w]);
    assert ResultToks(s'.results) == ResultToks(s.results) + [x];
    hide Count, WorkerToks, AllWorkerToks, ResultToks;
    forall t ensures Tally(s', t) == Tally(s, t) {
      WorkersSet(s.workers, w, s'.workers[w], t);
      CountSnoc(WorkerToks(s'.workers[w]), x, t);
      CountSnoc(ResultToks(s.results), x, t);
    }
    Stayed(s, s');
  }

  lemma TakeEnvMoves(s: Sys, p: nat)
    requires TokensOK(s) && p < |s.pubs| && s.pubs[p].hold.None? && s.commits != []
    ensures TokensOK(TakeEnv(s, p))
  {
    var s', x := TakeEnv(s, p), CommitTok(s.commits[0]);
    assert PubToks(s'.pubs[p]) == PubToks(s.pubs[p]) + [x];
    assert CommitToks(s.commits)[1..] == CommitToks(s'.commits) && CommitToks(s.commits)[0] == x;
    hide Count, PubToks, AllPubToks, CommitToks;
    forall t ensures Tally(s', t) == Tally(s, t) {
      PubsSet(s.pubs, p, s'.pubs[p], t);
      CountSnoc(PubToks(s.pubs[p]), x, t);
      CountFirst(CommitToks(s.commits), t);
    }
    Stayed(s, s');
  }

  lemma PubTally(s: Sys, s': Sys, p: nat, t: Token)
    requires p < |s.pubs| && |s'.pubs| == |s.pubs| && s'.pubs == s.pubs[p := s'.pubs[p]]
    requires s' == s.(pubs := s'.pubs, log := s'.log, tok := s'.tok, done := s'.done)
    ensures Tally(s', t) + Count(PubToks(s.pubs[p]), t) + Count(DoneToks(s.done), t)
            == Tally(s, t) + Count(PubToks(s'.pubs[p]), t) + Count(DoneToks(s'.done), t)
  {
    hide Count, PubToks, AllPubToks, AllWorkerToks, DoneToks;
    PubsSet(s.pubs, p, s'.pubs[p], t);
  }

  lemma SpawnMoves(s: Sys, p: nat)
    requires TokensOK(s) && p < |s.pubs| && s.pubs[p].hold.Some?
    ensures TokensOK(SpawnJob(s, p))
  {
    hide Tally;
    var s', env := SpawnJob(s, p), s.pubs[p].hold.value;
    var from, to, jobs := CommitTok(env), JobTok(Job(env, false, 0, 0)), JobToks(s.pubs[p].jobs);
    HoldRecorded(s, p);
    assert PubToks(s.pubs[p]) == jobs + [from] && PubToks(s'.pubs[p]) == jobs + [to];
    hide Count, PubToks;
    forall t ensures Tally(s', t) + One(from, t) == Tally(s, t) + One(to, t) {
      PubTally(s, s', p, t);
      CountSnoc(jobs, from, t);
      CountSnoc(jobs, to, t);
    }
    MovedOK(s, s', env.objectID, Some(from), Some(to));
  }

  lemma JobMoves(s: Sys, s': Sys, p: nat, j: nat, job': Job)
    requires TokensOK(s) && p < |s.pubs| && j < |s.pubs[p].jobs| && job'.env == s.pubs[p].jobs[j].env
    requires s' == SetPub(s, p, s.pubs[p].(jobs := s.pubs[p].jobs[j := job'])).(log := s'.log, tok := s.tok[job'.env.objectID := JobTok(job')])
    ensures TokensOK(s')
  {
    hide Tally;
    var from, to, toks := JobTok(s.pubs[p].jobs[j]), JobTok(job'), PubToks(s.pubs[p]);
    JobRecorded(s, p, j);
    assert PubToks(s'.pubs[p]) == toks[j := to] && toks[j] == from;
    hide Count, PubToks;
    forall t ensures Tally(s', t) + One(from, t) == Tally(s, t) + One(to, t) {
      PubTally(s, s', p, t);
      CountSet(toks, j, to, t);
    }
    MovedOK(s, s', job'.env.objectID, Some(from), Some(to));
  }

  lemma FinishMoves(s: Sys, p: nat, j: nat)
    requires TokensOK(s) && p < |s.pubs| && j < |s.pubs[p].jobs|
    ensures TokensOK(FinishJob(s, p, j))
  {
    hide Tally;
    var s', env := FinishJob(s, p, j), s.pubs[p].jobs[j].env;
    var from, to, toks := JobTok(s.pubs[p].jobs[j]), DoneTok(env), PubToks(s.pubs[p]);
    JobRecorded(s, p, j);
    assert PubToks(s'.pubs[p]) == toks[..j] + toks[j + 1..] && toks[j] == from;
    assert DoneToks(s'.done) == DoneToks(s.done) + [to];
    hide Count, PubToks, DoneToks;
    forall t ensures Tally(s', t) + One(from, t) == Tally(s, t) + One(to, t) {
      PubTally(s, s', p, t);
      CountWithout(toks, j, t);
      CountSnoc(DoneToks(s.done), to, t);
    }
    MovedOK(s, s', env.objectID, Some(from), Some(to));
  }

  lemma EmptyTokens(cfg: Config, s: Sys)
    requires s.out == None && s.results == [] && s.commits == [] && s.done == [] && s.tok == map[]
    requires s.workers == Empty(cfg).workers && s.pubs == Empty(cfg).pubs
    ensures TokensOK(s)
  {
    NoWorkerToks(s.workers);
    NoPubToks(s.pubs);
  }

  lemma {:induction false} NoWorkerToks(ws: seq<Worker>)
    requires forall k :: 0 <= k < |ws| ==> ws[k] == Worker([], None)
    ensures AllWorkerToks(ws) == []
  {
    if ws != [] { NoWorkerToks(ws[..|ws| - 1]); }
  }

  lemma {:induction false} NoPubToks(ps: seq<Publisher>)
    requires forall k :: 0 <= k < |ps| ==> ps[k] == Publisher(None, [])
    ensures AllPubToks(ps) == []
  {
    if ps != [] { NoPubToks(ps[..|ps| - 1]); }
  }
}
