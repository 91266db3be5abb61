/** What holds of an object in every reachable state: its control block, its token, the regions'
    trees and its log agree; it sits in exactly the tree of its published region; its commits are
    numbered from 1 in every instance. */
module ObjectInvariant {
  import opened Domain
  import opened Events
  import opened EventLog
  import opened Mailbox
  import opened ObjectMachine

  // ---- messages and commits ----------------------------------------------------------------

  ghost predicate RepairKnown(m: Msg)
    requires IsCommit(m)
  {
    forall now :: RepairYields(m, now)
  }

  /** Repair can rebuild this commit's projections, and they carry the expected ids. */
  ghost predicate RepairYields(m: Msg, now: nat)
    requires IsCommit(m)
  {
    var st := StateOf(m).value;
    var expected := ExpectedProjectionMsgs(st, m.data, now);
    && expected.Ok? && IDs(expected.value) == ExpectedIDs(st)
    && forall p :: p in expected.value ==> GeofenceMsgOK(st.objectID, p)
  }

  ghost predicate GeofenceMsgOK(id: ObjectID, m: Msg) {
    && m.data.o == id
    && match m.subject
       case GeofenceEntered(o, a) => o == id && m.data.e == EnterID(a, id, m.data.i, m.data.s)
       case GeofenceExited(o, a) => o == id && m.data.e == ExitID(a, id, m.data.i, m.data.s)
       case _ => false
  }

  ghost predicate CommitMsgOK(id: ObjectID, m: Msg) {
    && IsCommit(m) && m.data.o == id && RepairKnown(m)
    && var st := StateOf(m).value;
       && st.objectID == id && st.instanceID == m.data.i && st.commitSeq == m.data.s
       && match m.subject
          case PositionUpdated(o) => o == id && m.data.e == PositionID(id, m.data.i, m.data.s)
          case ObjectRegistered(o) => o == id && m.data.e == RegisteredID(id, m.data.i, m.data.s)
          case ObjectRemoved(o) => o == id && m.data.e == RemovedID(id, m.data.i, m.data.s)
          case _ => false
  }

  ghost predicate MsgOK(id: ObjectID, m: Msg) { GeofenceMsgOK(id, m) || CommitMsgOK(id, m) }

  ghost predicate LogOK(id: ObjectID, log: seq<Msg>) {
    forall m {:trigger MsgOK(id, m)} :: m in log ==> MsgOK(id, m)
  }

  ghost predicate StateOK(cfg: Config, id: ObjectID, st: StateRecord) {
    && st.objectID == id && st.instanceID != "" && st.commitSeq > 0
    && match st.lifecycle
       case Active =>
         && st.region.Some? == st.position.Some? && (st.region.Some? ==> st.region.value < cfg.regions)
         && (st.region.None? ==> st.insideAreaIDs == [])
       case Removed => st.position == None && st.insideAreaIDs == []
       case Unknown => false
  }

  /** Commit k opens a new instance after a removal, or continues the previous commit's one. */
  ghost predicate Succeeds(cs: seq<StateRecord>, k: nat)
    requires k < |cs|
  {
    var st := cs[k];
    if st.commitSeq == 1 then
      && (forall j :: 0 <= j < k ==> cs[j].instanceID != st.instanceID)
      && (k > 0 ==> cs[k - 1].lifecycle == Removed)
      && st.lifecycle == Active && st.region == None && st.insideAreaIDs == [] && st.transitions == []
    else
      && k > 0 && cs[k - 1].lifecycle == Active
      && cs[k - 1].instanceID == st.instanceID && cs[k - 1].dims == st.dims
      && st.commitSeq == cs[k - 1].commitSeq + 1
  }

  ghost predicate ChainOK(cfg: Config, id: ObjectID, cs: seq<StateRecord>) {
    && (forall k {:trigger Succeeds(cs, k)} :: 0 <= k < |cs| ==> Succeeds(cs, k))
    && (forall k {:trigger StateOK(cfg, id, cs[k])} :: 0 <= k < |cs| ==> StateOK(cfg, id, cs[k]))
  }

  /** Within an instance the latest commit has the highest number. */
  lemma {:induction false} NumbersBelowLast(cfg: Config, id: ObjectID, cs: seq<StateRecord>, k: nat)
    requires ChainOK(cfg, id, cs) && k < |cs| && cs[k].instanceID == cs[|cs| - 1].instanceID
    ensures cs[k].commitSeq <= cs[|cs| - 1].commitSeq
    decreases |cs|
  {
    var n := |cs| - 1;
    if k < n {
      assert Succeeds(cs, n);
      ChainPrefix(cfg, id, cs, n);
      NumbersBelowLast(cfg, id, cs[..n], k);
    }
  }

  lemma ChainPrefix(cfg: Config, id: ObjectID, cs: seq<StateRecord>, n: nat)
    requires ChainOK(cfg, id, cs) && n <= |cs|
    ensures ChainOK(cfg, id, cs[..n])
  {
    forall k | 0 <= k < n ensures Succeeds(cs[..n], k) && StateOK(cfg, id, cs[..n][k]) {
      assert Succeeds(cs, k) && StateOK(cfg, id, cs[k]);
    }
  }

  lemma ChainSnoc(cfg: Config, id: ObjectID, cs: seq<StateRecord>, st: StateRecord)
    requires ChainOK(cfg, id, cs) && StateOK(cfg, id, st) && Succeeds(cs + [st], |cs|)
    ensures ChainOK(cfg, id, cs + [st])
  {
    forall k | 0 <= k < |cs| + 1 ensures Succeeds(cs + [st], k) && StateOK(cfg, id, (cs + [st])[k]) {
      if k < |cs| { assert Succeeds(cs, k) && StateOK(cfg, id, cs[k]); }
    }
  }

  ghost predicate Listed(cs: seq<StateRecord>, i: string, s: nat) {
    exists k :: 0 <= k < |cs| && cs[k].instanceID == i && cs[k].commitSeq == s
  }

  lemma {:induction false} CommitIsListed(id: ObjectID, log: seq<Msg>, m: Msg)
    requires LogOK(id, log) && m in log && IsCommit(m)
    ensures Listed(Commits(log), m.data.i, m.data.s)
    decreases |log|
  {
    hide RepairKnown, Commits, CommitIDs;
    var n := |log| - 1;
    var front, last := log[..n], log[n];
    assert log == front + [last];
    CommitsSnoc(front, last);
    assert MsgOK(id, m);
    assert LogOK(id, front) by { forall x | x in front ensures MsgOK(id, x) { assert x in log; } }
    if m in front {
      CommitIsListed(id, front, m);
      var k :| 0 <= k < |Commits(front)| && Commits(front)[k].instanceID == m.data.i && Commits(front)[k].commitSeq == m.data.s;
      assert Commits(log)[k] == Commits(front)[k];
    } else if m.data.e in CommitIDs(front) {
      var x := SameID(front, m.data.e);
      assert MsgOK(id, x);
      CommitIsListed(id, front, x);
    } else {
      assert m == last && Commits(log)[|Commits(front)|] == StateOf(m).value;
      assert CommitMsgOK(id, m) by { assert !GeofenceMsgOK(id, m); }
    }
  }

  lemma SameID(log: seq<Msg>, e: EventID) returns (x: Msg)
    requires e in CommitIDs(log)
    ensures x in log && IsCommit(x) && x.data.e == e
  {
    x :| x in log && IsCommit(x) && x.data.e == e;
  }

  /** A commit with a new number has a new id. */
  lemma NewNumberNewID(id: ObjectID, log: seq<Msg>, m: Msg)
    requires LogOK(id, log) && CommitMsgOK(id, m)
    requires !Listed(Commits(log), m.data.i, m.data.s)
    ensures m.data.e !in CommitIDs(log)
  {
    hide RepairKnown;
    if m.data.e in CommitIDs(log) {
      var x := SameID(log, m.data.e);
      assert MsgOK(id, x);
      CommitIsListed(id, log, x);
    }
  }

  // ---- what the builder guarantees -----------------------------------------------------------

  ghost predicate EnvelopeOK(id: ObjectID, env: CommitEnvelope) {
    && env.objectID == id && CommitMsgOK(id, env.commit)
    && var st := StateOf(env.commit).value;
       && st.instanceID == env.instanceID && st.commitSeq == env.commitSeq
       && |env.projections| == |st.transitions|
       && forall k {:trigger env.projections[k]} :: 0 <= k < |env.projections| ==>
            && GeofenceMsgOK(id, env.projections[k])
            && env.projections[k].data.e == TransitionID(st.transitions[k], id, st.instanceID, st.commitSeq)
  }

  lemma BuiltEnvelope(id: ObjectID, ctl: Ctl, head: Envelope, input: CommitInput, mutation: Mutation, now: nat,
                      env: CommitEnvelope)
    requires CommitFits(ctl, head, input, mutation, now, env)
    requires input.objectID == head.objectID == id && input.instanceID == ctl.instanceID
    requires Repairable(input)
    ensures EnvelopeOK(id, env)
    ensures StateOf(env.commit) == Some(Kept(BuildCheckpointState(input, now)))
  {
    var msgs := BuildCommitMsgs(input, now).value;
    CheckpointRoundTrip(input, now);
    ProjectionIds(input, now);
    forall later ensures RepairYields(env.commit, later) {
      BuiltRepair(id, input, now, later);
    }
  }

  lemma BuiltRepair(id: ObjectID, input: CommitInput, now: nat, later: nat)
    requires BuildCommitMsgs(input, now).Ok? && Repairable(input) && input.objectID == id
    ensures var m := BuildCommitMsgs(input, now).value.commit;
            IsCommit(m) && RepairYields(m, later)
  {
    var msgs := BuildCommitMsgs(input, now).value;
    CheckpointRoundTrip(input, now);
    RepairRebuildsProjections(input, now, later);
    var ps := AllRestamped(msgs.projections, later);
    ProjectionIds(input, now);
    IDsOfTransitions(ps, Kept(msgs.checkpointState));
    forall p | p in ps ensures GeofenceMsgOK(id, p) {
      var k :| 0 <= k < |ps| && ps[k] == p;
      RestampedOK(id, input, input.transitions[k], now, later);
    }
  }

  lemma RestampedOK(id: ObjectID, input: CommitInput, tr: Transition, now: nat, later: nat)
    requires input.objectID == id
    ensures GeofenceMsgOK(id, Restamped(ProjectionMsg(input, tr, now), later))
  {}

  lemma IDsOfTransitions(ps: seq<Msg>, st: StateRecord)
    requires |ps| == |st.transitions|
    requires forall k :: 0 <= k < |ps| ==>
               ps[k].data.e == TransitionID(st.transitions[k], st.objectID, st.instanceID, st.commitSeq)
    ensures IDs(ps) == ExpectedIDs(st)
  {
    forall e ensures e in IDs(ps) <==> e in ExpectedIDs(st) {
      if e in IDs(ps) {
        var m :| m in ps && m.data.e == e;
        var k :| 0 <= k < |ps| && ps[k] == m;
      }
      if e in ExpectedIDs(st) {
        var k :| 0 <= k < |st.transitions| && e == TransitionID(st.transitions[k], st.objectID, st.instanceID, st.commitSeq);
        assert ps[k] in ps;
      }
    }
  }

  // ---- the invariant ---------------------------------------------------------------------------

  /** The commit of the envelope being published is already in the log. */
  predicate Stored(tok: Option<Token>) {
    match tok
    case Some(JobTok(job)) => job.reach > 0
    case Some(DoneTok(_)) => true
    case _ => false
  }

  /** The commits the dispatcher knows to be durable. */
  function Confirmed(log: seq<Msg>, tok: Option<Token>): seq<StateRecord> {
    var cs := Commits(log);
    if Stored(tok) && cs != [] then cs[..|cs| - 1] else cs
  }

  function Last(cs: seq<StateRecord>): Option<StateRecord> {
    if cs == [] then None else Some(cs[|cs| - 1])
  }

  predicate Gone(b: Option<StateRecord>) { b.None? || b.value.lifecycle == Removed }

  /** The region and tree entries that go with the last confirmed commit of the living instance. */
  function RegionOf(c: Ctl, b: Option<StateRecord>): Option<Region> {
    if c.lastCommitSeq == 0 || b.None? then None else b.value.region
  }

  function TreeOf(c: Ctl, b: Option<StateRecord>): map<Region, Item> {
    if c.lastCommitSeq == 0 || b.None? then map[] else TreeOfState(b.value)
  }

  function TreeOfState(st: StateRecord): map<Region, Item> {
    if st.region.Some? && st.position.Some? then map[st.region.value := Item(st.position.value, st.dims)] else map[]
  }

  ghost predicate NumberOK(c: Ctl, cs: seq<StateRecord>) {
    var b := Last(cs);
    && c.instanceID != ""
    && if c.lastCommitSeq == 0
       then Gone(b) && forall k :: 0 <= k < |cs| ==> cs[k].instanceID != c.instanceID
       else b.Some? && b.value.lifecycle == Active && b.value.instanceID == c.instanceID
            && b.value.commitSeq == c.lastCommitSeq && b.value.dims == c.dims
  }

  predicate HeadKindOK(c: Ctl, kind: TaskKind) {
    if c.lastCommitSeq == 0 then kind == TaskRegister else kind == TaskUpdate || kind == TaskRemove
  }

  ghost predicate MailboxOK(id: ObjectID, c: Ctl) {
    && (forall e :: e in c.queue ==> e.objectID == id && (e.kind == TaskUpdate || e.kind == TaskRemove))
    && (c.head.Some? ==> c.head.value.objectID == id)
    && (c.head.Some? ==> HeadKindOK(c, c.head.value.kind))
    && (c.head.None? ==> c.queue == [] && c.lastCommitSeq > 0)
  }

  /** At rest, or waiting for a worker: published state and tree are those of the last commit. */
  ghost predicate AtRest(c: Ctl, b: Option<StateRecord>, tree: map<Region, Item>) {
    Ready(c) && !c.deleted && c.lastCommitSeq > 0 && c.pub == RegionOf(c, b) && tree == TreeOf(c, b)
  }

  ghost predicate Stage(cfg: Config, id: ObjectID, c: Ctl, tok: Option<Token>, b: Option<StateRecord>, tree: map<Region, Item>) {
    match tok
    case None => c.head.None? && AtRest(c, b, tree) && c.route == RegionOf(c, b)
    case Some(TaskTok(t)) =>
      c.head.Some? && AtRest(c, b, tree) && TaskFits(cfg, c.(route := RegionOf(c, b)), c, t)
    case Some(ResTok(res)) => c.head.Some? && Ready(c) && c.lastCommitSeq > 0 && ResultFits(cfg, id, c, res, b, tree)
    case Some(CommitTok(env)) => Submitting(cfg, id, c, env, b, tree)
    case Some(JobTok(job)) => Submitting(cfg, id, c, job.env, b, tree) && JobOK(job)
    case Some(DoneTok(env)) => Submitting(cfg, id, c, env, b, tree)
  }

  ghost predicate ResultFits(cfg: Config, id: ObjectID, c: Ctl, res: WorkerResult, b: Option<StateRecord>, tree: map<Region, Item>)
    requires c.head.Some?
  {
    && res.objectID == id && !res.rejected && res.dims == c.dims
    && (res.oldRegion.Some? ==> res.oldRegion.value < cfg.regions)
    && if c.head.value.kind == TaskRemove then
         && c.deleted && c.pub == None && tree == map[] && res.hadPosition
         && RegionOf(c, b).Some? && res.oldRegion == RegionOf(c, b) && c.route == RegionOf(c, b)
         && res.currentInside == {}
       else
         && !c.deleted && res.newRegion < cfg.regions
         && c.route == c.pub == Some(res.newRegion) && tree == map[res.newRegion := Item(res.pos, c.dims)]
         && Elems(res.insideAreaIDs) == res.currentInside
         && res.oldRegion == (if RegionOf(c, b).Some? && RegionOf(c, b) != Some(res.newRegion) then RegionOf(c, b) else None)
  }

  /** The regions a pending snapshot write names exist. */
  predicate MutationInRange(m: Mutation, n: nat) {
    match m
    case PrevInsideNoop => true
    case PrevInsideSet(r, _) => r < n
    case PrevInsideMove(from, r, _) => r < n && (from.Some? ==> from.value < n)
    case PrevInsideDelete(from) => from.Some? ==> from.value < n
  }

  ghost predicate JobOK(job: Job) {
    && job.reach <= |job.env.projections| + 1 && job.next <= |job.env.projections|
    && (job.confirmed ==> job.next + 1 <= job.reach)
  }

  ghost predicate Submitting(cfg: Config, id: ObjectID, c: Ctl, env: CommitEnvelope, b: Option<StateRecord>, tree: map<Region, Item>) {
    && c.head.Some? && c.committing && c.commitEnvelope == Some(env)
    && EnvelopeOK(id, env) && env.instanceID == c.instanceID && env.commitSeq == c.lastCommitSeq + 1
    && env.reply == c.head.value.reply && MutationInRange(env.mutation, cfg.regions)
    && CommitFollows(cfg, id, c, StateOf(env.commit).value, b, tree)
  }

  /** The state about to be committed is the one already published in memory. */
  ghost predicate CommitFollows(cfg: Config, id: ObjectID, c: Ctl, st: StateRecord, b: Option<StateRecord>, tree: map<Region, Item>)
    requires c.head.Some?
  {
    && StateOK(cfg, id, st) && st.dims == c.dims
    && match c.head.value.kind
       case TaskRegister =>
         && c.lastCommitSeq == 0 && st.lifecycle == Active && st.region == None && st.insideAreaIDs == []
         && st.transitions == [] && c.route == None && c.pub == None && !c.deleted && tree == map[]
       case TaskUpdate =>
         && c.lastCommitSeq > 0 && st.lifecycle == Active && st.region.Some? && c.route == c.pub == st.region
         && !c.deleted && tree == TreeOfState(st)
       case TaskRemove => c.lastCommitSeq > 0 && st.lifecycle == Removed && c.pub == None && tree == map[]
       case _ => false
  }

  ghost predicate Present(cfg: Config, id: ObjectID, o: Obj)
    requires o.ctl.Some?
  {
    var c, cs := o.ctl.value, Confirmed(o.log, o.tok);
    && NumberOK(c, cs) && MailboxOK(id, c)
    && Stage(cfg, id, c, o.tok, Last(cs), o.tree)
    && (Stored(o.tok) ==> StoredOK(o.log, o.tok))
  }

  /** The envelope's commit is the newest one in the log. */
  ghost predicate StoredOK(log: seq<Msg>, tok: Option<Token>)
    requires Stored(tok)
  {
    var env := if tok.value.JobTok? then tok.value.job.env else tok.value.env;
    && LastCommit(log) == Some(env.commit)
    && Commits(log) != [] && Last(Commits(log)) == StateOf(env.commit)
    && env.commit.data.e in CommitIDs(log)
  }

  ghost predicate NewestLast(log: seq<Msg>) {
    match LastCommit(log)
    case None => Commits(log) == []
    case Some(m) => Last(Commits(log)) == StateOf(m)
  }

  ghost predicate Inv(cfg: Config, id: ObjectID, o: Obj) {
    && LogOK(id, o.log) && ChainOK(cfg, id, Commits(o.log)) && NewestLast(o.log)
    && if !o.up then o.ctl.None? && o.tok.None? && o.tree == map[] && o.prev == map[]
       else if o.ctl.None? then o.tok.None? && o.tree == map[] && Gone(Last(Commits(o.log)))
       else Present(cfg, id, o)
  }
}
