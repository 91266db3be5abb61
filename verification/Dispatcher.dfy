/** The dispatcher itself (internal/engine/dispatcher.go): it updates control blocks in place, sends
    tokens and answers, and writes the inside snapshots.  Each method is proved to do to its object
    what the mailbox functions say, and nothing to any other object. */
module Dispatching {
  import opened Domain
  import opened Events
  import opened Mailbox

  class ObjCtl {
    var route: Option<Region>
    var head: Option<Envelope>
    var queue: seq<Envelope>
    var instanceID: string
    var lastCommitSeq: nat
    var dims: Dims
    var committing: bool
    var commitEnvelope: Option<CommitEnvelope>
    var pub: Option<Region>
    var deleted: bool

    constructor (dims: Dims)
      ensures Value() == NewCtl(dims)
    {
      this.dims := dims;
      route, head, queue, instanceID, lastCommitSeq := None, None, [], "", 0;
      committing, commitEnvelope, pub, deleted := false, None, None, false;
    }

    function Value(): Ctl
      reads this
    {
      Ctl(route, head, queue, instanceID, lastCommitSeq, dims, committing, commitEnvelope, pub, deleted)
    }
  }

  type Snapshots = seq<map<ObjectID, set<AreaID>>>

  function SnapshotOf(prev: Snapshots, r: Region, id: ObjectID): set<AreaID> {
    if r < |prev| && id in prev[r] then prev[r][id] else {}
  }

  class Dispatcher {
    const cfg: Config
    var ctls: map<ObjectID, ObjCtl>
    var prev: Snapshots
    var sent: seq<Send>
    var replies: seq<Answer>

    constructor (cfg: Config)
      ensures this.cfg == cfg && ctls == map[] && sent == [] && replies == []
      ensures prev == seq(cfg.regions, _ => map[])
    {
      this.cfg := cfg;
      ctls, sent, replies := map[], [], [];
      prev := seq(cfg.regions, _ => map[]);
    }

    /** No two objects share a control block. */
    ghost predicate Valid()
      reads this
    {
      && |prev| == cfg.regions
      && forall a, b :: a in ctls && b in ctls && a != b ==> ctls[a] != ctls[b]
    }

    ghost function Lookup(id: ObjectID): Option<Ctl>
      reads this, ctls.Values
    {
      if id in ctls then Some(ctls[id].Value()) else None
    }

    /** What the handler of one control block did: its new value, the answers and the token sent. */
    twostate predicate Did(ctl: ObjCtl, out: Out)
      reads this, ctl
    {
      && ctl.Value() == out.ctl
      && replies == old(replies) + out.answers
      && sent == old(sent) + (if out.send.Some? then [out.send.value] else [])
    }

    // ---- handlers of one control block --------------------------------------------------------------

    method Reply(answer: Answer)
      modifies this`replies
      ensures replies == old(replies) + [answer]
    {
      replies := replies + [answer];
    }

    method DispatchPosition(ctl: ObjCtl, env: Envelope, now: nat)
      requires ctl.head == Some(env) && Ready(ctl.Value()) && env.kind == TaskUpdate
      modifies this`sent, this`replies, ctl
      ensures Did(ctl, Mailbox.DispatchPosition(cfg, old(ctl.Value()), env, now))
      decreases |ctl.queue|, 2
    {
      var resolved := cfg.resolve(env.pos, ctl.route);
      if resolved.None? {
        RejectHead(ctl, env, now);
        return;
      }
      if resolved.value >= cfg.regions {
        RejectHead(ctl, env, now);
        return;
      }
      var kind := TaskInit;
      var oldRegion := ctl.route;
      if ctl.route.Some? {
        if resolved == ctl.route {
          kind := TaskUpdate;
        } else {
          kind := TaskTransition;
        }
      }
      ctl.route := resolved;
      sent := sent + [SendTask(WorkerTask(kind, env.objectID, env.clientOpID, env.pos, ctl.dims, resolved.value, oldRegion))];
    }

    method DispatchRemove(ctl: ObjCtl, env: Envelope, now: nat)
      requires ctl.head == Some(env) && Ready(ctl.Value()) && env.kind == TaskRemove
      modifies this`sent, this`replies, ctl
      ensures Did(ctl, Mailbox.DispatchRemove(cfg, old(ctl.Value()), env, now))
      decreases |ctl.queue|, 3
    {
      if ctl.route.None? {
        SubmitCommit(ctl, env, RemoveInput(ctl.Value(), env), PrevInsideNoop, now);
        return;
      }
      var origin := Position(0.0, 0.0, 0.0, 0.0);
      sent := sent + [SendTask(WorkerTask(TaskRemove, env.objectID, env.clientOpID, origin, ctl.dims, ctl.route.value, None))];
    }

    method SubmitCommit(ctl: ObjCtl, env: Envelope, input: CommitInput, mutation: Mutation, now: nat)
      requires ctl.head == Some(env) && Ready(ctl.Value())
      modifies this`sent, this`replies, ctl
      ensures Did(ctl, Mailbox.SubmitCommit(cfg, old(ctl.Value()), env, input, mutation, now))
      decreases |ctl.queue|, 2
    {
      var built := BuildCommitMsgs(input, now);
      if built.Err? {
        RejectHead(ctl, env, now);
        return;
      }
      SubmitBuilt(ctl, env, built.value, mutation);
    }

    method SubmitBuilt(ctl: ObjCtl, env: Envelope, msgs: CommitMessages, mutation: Mutation)
      modifies this`sent, ctl
      ensures var seqNo := if msgs.checkpointState.commitSeq != 0 then msgs.checkpointState.commitSeq else old(ctl.lastCommitSeq) + 1;
              var commit := CommitEnvelope(env.objectID, old(ctl.instanceID), seqNo, env.reply, msgs.commit, msgs.projections, mutation);
              && ctl.Value() == old(ctl.Value()).(committing := true, commitEnvelope := Some(commit))
              && sent == old(sent) + [SendCommit(commit)]
    {
      var commitSeq := ctl.lastCommitSeq + 1;
      if msgs.checkpointState.commitSeq != 0 { commitSeq := msgs.checkpointState.commitSeq; }
      var commit := CommitEnvelope(env.objectID, ctl.instanceID, commitSeq, env.reply, msgs.commit, msgs.projections, mutation);
      ctl.committing := true;
      ctl.commitEnvelope := Some(commit);
      sent := sent + [SendCommit(commit)];
    }

    method RejectHead(ctl: ObjCtl, env: Envelope, now: nat)
      requires ctl.head == Some(env) && Ready(ctl.Value())
      modifies this`sent, this`replies, ctl
      ensures Did(ctl, Mailbox.RejectHead(cfg, old(ctl.Value()), env, now))
      decreases |ctl.queue|, 1
    {
      Reply(Failed(env.reply));
      ctl.head := None;
      DispatchNext(ctl, now);
    }

    method DispatchNext(ctl: ObjCtl, now: nat)
      requires ctl.head == None && Ready(ctl.Value())
      modifies this`sent, this`replies, ctl
      ensures Did(ctl, Mailbox.DispatchNext(cfg, old(ctl.Value()), now))
      decreases |ctl.queue|, 0
    {
      if ctl.queue == [] { return; }
      var next := ctl.queue[0];
      ctl.queue := ctl.queue[1..];
      ctl.head := Some(next);
      match next.kind {
        case TaskUpdate => DispatchPosition(ctl, next, now);
        case TaskRemove => DispatchRemove(ctl, next, now);
        case _ => RejectHead(ctl, next, now);
      }
    }

    /** rejectQueued: every command still queued gets a refusal, in order. */
    method RejectQueued(ctl: ObjCtl)
      modifies this`replies, ctl
      ensures replies == old(replies) + seq(|old(ctl.queue)|, i requires 0 <= i < |old(ctl.queue)| => Failed(old(ctl.queue)[i].reply))
      ensures ctl.Value() == old(ctl.Value()).(queue := [])
    {
      var queue := ctl.queue;
      ghost var all := seq(|queue|, i requires 0 <= i < |queue| => Failed(queue[i].reply));
      for k := 0 to |queue|
        invariant replies == old(replies) + all[..k] && ctl.Value() == old(ctl.Value())
      {
        assert all[..k + 1] == all[..k] + [Failed(queue[k].reply)];
        Reply(Failed(queue[k].reply));
      }
      ctl.queue := [];
    }

    // ---- the snapshots ------------------------------------------------------------------------------

    /** Only the named object's entry in the named region changes; an empty set is not stored. */
    method SetPrevInside(r: Region, id: ObjectID, inside: set<AreaID>)
      requires r < |prev|
      modifies this`prev
      ensures |prev| == old(|prev|)
      ensures forall q: Region, x :: SnapshotOf(prev, q, x) == if q == r && x == id then inside else SnapshotOf(old(prev), q, x)
      ensures prev == old(prev)[r := if inside == {} then old(prev)[r] - {id} else old(prev)[r][id := inside]]
    {
      if inside == {} {
        prev := prev[r := prev[r] - {id}];
      } else {
        prev := prev[r := prev[r][id := inside]];
      }
    }

    method DeletePrevInside(r: Option<Region>, id: ObjectID)
      requires r.Some? ==> r.value < |prev|
      modifies this`prev
      ensures prev == if r.None? then old(prev) else old(prev)[r.value := old(prev)[r.value] - {id}]
    {
      if r.None? { return; }
      prev := prev[r.value := prev[r.value] - {id}];
    }

    method ApplyPrevInsideMutation(id: ObjectID, m: Mutation)
      requires InRange(m, |prev|)
      modifies this`prev
      ensures |prev| == old(|prev|)
      ensures forall q: Region, x {:trigger SnapshotOf(prev, q, x)} :: SnapshotOf(prev, q, x) == Mutated(old(prev), id, m, q, x)
    {
      match m {
        case PrevInsideNoop =>
        case PrevInsideSet(r, inside) => SetPrevInside(r, id, inside);
        case PrevInsideMove(from, r, inside) =>
          DeletePrevInside(from, id);
          SetPrevInside(r, id, inside);
        case PrevInsideDelete(from) => DeletePrevInside(from, id);
      }
    }

    // ---- the three kinds of messages ------------------------------------------------------------------

    /** onEnvelope and its three handlers. */
    method OnEnvelope(env: Envelope, inst: string, now: nat)
      requires Valid()
      requires env.objectID in ctls && ctls[env.objectID].head.None? ==> Ready(ctls[env.objectID].Value())
      modifies this, ctls.Values
      ensures Valid() && prev == old(prev)
      ensures var a := Mailbox.OnEnvelope(cfg, old(Lookup(env.objectID)), env, inst, now);
              && Lookup(env.objectID) == a.ctl
              && replies == old(replies) + a.refused + a.answers
              && sent == old(sent) + (if a.send.Some? then [a.send.value] else [])
      ensures forall id :: id != env.objectID ==> Lookup(id) == old(Lookup(id))
    {
      match env.kind {
        case TaskRegister => OnRegister(env, inst, now);
        case TaskUpdate => OnMailboxCommand(env, inst, now);
        case TaskRemove => OnMailboxCommand(env, inst, now);
        case _ => Reply(Failed(env.reply));
      }
    }

    method OnRegister(env: Envelope, inst: string, now: nat)
      requires Valid() && env.kind == TaskRegister
      requires env.objectID in ctls && ctls[env.objectID].head.None? ==> Ready(ctls[env.objectID].Value())
      modifies this, ctls.Values
      ensures Valid() && prev == old(prev)
      ensures var a := Mailbox.OnEnvelope(cfg, old(Lookup(env.objectID)), env, inst, now);
              && Lookup(env.objectID) == a.ctl
              && replies == old(replies) + a.refused + a.answers
              && sent == old(sent) + (if a.send.Some? then [a.send.value] else [])
      ensures forall id :: id != env.objectID ==> Lookup(id) == old(Lookup(id))
    {
      hide Handled, Handled', TaskFits, CommitFits, Submitted, BuildCommitMsgs;
      if env.objectID in ctls {
        Reply(Failed(env.reply));
        return;
      }
      var ctl := new ObjCtl(env.dims);
      ctl.instanceID := inst;
      ctls := ctls[env.objectID := ctl];
      ctl.head := Some(env);
      SubmitCommit(ctl, env, RegisterInput(ctl.Value(), env), PrevInsideNoop, now);
    }

    /** onPosition and onRemove: queued behind a command in flight, or dispatched at once. */
    method OnMailboxCommand(env: Envelope, inst: string, now: nat)
      requires Valid() && (env.kind == TaskUpdate || env.kind == TaskRemove)
      requires env.objectID in ctls && ctls[env.objectID].head.None? ==> Ready(ctls[env.objectID].Value())
      modifies this, ctls.Values
      ensures Valid() && prev == old(prev)
      ensures var a := Mailbox.OnEnvelope(cfg, old(Lookup(env.objectID)), env, inst, now);
              && Lookup(env.objectID) == a.ctl
              && replies == old(replies) + a.refused + a.answers
              && sent == old(sent) + (if a.send.Some? then [a.send.value] else [])
      ensures forall id :: id != env.objectID ==> Lookup(id) == old(Lookup(id))
    {
      hide Handled, Handled', TaskFits, CommitFits, Submitted, Mailbox.DispatchPosition, Mailbox.DispatchRemove;
      if env.objectID !in ctls || ctls[env.objectID].deleted {
        Reply(Failed(env.reply));
        return;
      }
      var ctl := ctls[env.objectID];
      if ctl.head.Some? || ctl.committing {
        ctl.queue := ctl.queue + [env];
        return;
      }
      ctl.head := Some(env);
      if env.kind == TaskUpdate {
        DispatchPosition(ctl, env, now);
      } else {
        DispatchRemove(ctl, env, now);
      }
    }

    method OnResult(res: WorkerResult, now: nat)
      requires Valid()
      requires res.objectID in ctls && ctls[res.objectID].head.Some? ==> Ready(ctls[res.objectID].Value())
      modifies this`sent, this`replies, ctls.Values
      ensures Valid()
      ensures match old(Lookup(res.objectID))
              case None => Lookup(res.objectID) == None && replies == old(replies) && sent == old(sent)
              case Some(c) =>
                if c.head.None? then Lookup(res.objectID) == Some(c) && replies == old(replies) && sent == old(sent)
                else
                  var out := Mailbox.OnResult(cfg, c, res, now);
                  && Lookup(res.objectID) == Some(out.ctl) && replies == old(replies) + out.answers
                  && sent == old(sent) + (if out.send.Some? then [out.send.value] else [])
      ensures forall id :: id != res.objectID ==> Lookup(id) == old(Lookup(id))
    {
      if res.objectID !in ctls || ctls[res.objectID].head.None? { return; }
      var ctl := ctls[res.objectID];
      var head := ctl.head.value;
      if res.rejected {
        RejectHead(ctl, head, now);
        return;
      }
      SubmitCommit(ctl, head, ResultInput(ctl.Value(), head, res), ResultMutation(cfg, head, res), now);
    }

    /** A confirmed commit: the snapshot is written, the caller answered, and the next command started,
        or, after a removal, the queue refused and the control block dropped. */
    method OnCommitResult(cr: CommitResult, now: nat)
      requires Valid()
      requires cr.objectID in ctls && ctls[cr.objectID].commitEnvelope.Some? ==>
                 InRange(ctls[cr.objectID].commitEnvelope.value.mutation, |prev|)
      modifies this, ctls.Values
      ensures Valid()
      ensures match old(Lookup(cr.objectID))
              case None => Lookup(cr.objectID) == None && replies == old(replies) && sent == old(sent) && prev == old(prev)
              case Some(c) =>
                var f := Mailbox.OnCommitResult(cfg, c, cr, now);
                && Lookup(cr.objectID) == f.ctl && replies == old(replies) + f.answers
                && sent == old(sent) + (if f.send.Some? then [f.send.value] else [])
                && (if cr.ok && c.commitEnvelope.Some?
                    then forall q: Region, x {:trigger SnapshotOf(prev, q, x)} ::
                           SnapshotOf(prev, q, x) == Mutated(old(prev), cr.objectID, c.commitEnvelope.value.mutation, q, x)
                    else prev == old(prev))
      ensures forall id :: id != cr.objectID ==> Lookup(id) == old(Lookup(id))
    {
      if cr.objectID !in ctls { return; }
      var ctl := ctls[cr.objectID];
      if cr.ok && ctl.commitEnvelope.Some? { ApplyPrevInsideMutation(cr.objectID, ctl.commitEnvelope.value.mutation); }
      var removed := Conclude(ctl, cr, now);
      if removed { ctls := ctls - {cr.objectID}; }
    }

    /** What the result does to the control block. */
    method Conclude(ctl: ObjCtl, cr: CommitResult, now: nat) returns (removed: bool)
      modifies this`sent, this`replies, ctl
      ensures var f := Mailbox.OnCommitResult(cfg, old(ctl.Value()), cr, now);
              && removed == f.ctl.None? && (!removed ==> ctl.Value() == f.ctl.value)
              && replies == old(replies) + f.answers
              && sent == old(sent) + (if f.send.Some? then [f.send.value] else [])
    {
      hide Handled, Handled', TaskFits, CommitFits, Submitted, Mailbox.DispatchNext;
      if !cr.ok {
        if ctl.head.Some? { Reply(Failed(ctl.head.value.reply)); }
        ReleaseHead(ctl, now);
        return false;
      }
      ctl.lastCommitSeq := cr.commitSeq;
      Reply(Committed(cr.reply, cr.instanceID, cr.commitSeq));
      removed := ctl.head.Some? && ctl.head.value.kind == TaskRemove;
      ctl.committing := false;
      ctl.commitEnvelope := None;
      ctl.head := None;
      if removed {
        RejectQueued(ctl);
      } else {
        DispatchNext(ctl, now);
      }
    }

    method ReleaseHead(ctl: ObjCtl, now: nat)
      modifies this`sent, this`replies, ctl
      ensures Did(ctl, Mailbox.DispatchNext(cfg, old(ctl.Value()).(committing := false, commitEnvelope := None, head := None), now))
    {
      ctl.committing := false;
      ctl.commitEnvelope := None;
      ctl.head := None;
      DispatchNext(ctl, now);
    }
  }

  predicate InRange(m: Mutation, n: nat) {
    match m
    case PrevInsideNoop => true
    case PrevInsideSet(r, _) => r < n
    case PrevInsideMove(from, r, _) => r < n && (from.Some? ==> from.value < n)
    case PrevInsideDelete(from) => from.Some? ==> from.value < n
  }

  /** The snapshot of object x in region q after the write for object `id`. */
  function Mutated(prev: Snapshots, id: ObjectID, m: Mutation, q: Region, x: ObjectID): set<AreaID> {
    if x != id then SnapshotOf(prev, q, x)
    else
      match m
      case PrevInsideNoop => SnapshotOf(prev, q, x)
      case PrevInsideSet(r, inside) => if q == r then inside else SnapshotOf(prev, q, x)
      case PrevInsideMove(from, r, inside) => if q == r then inside else if from == Some(q) then {} else SnapshotOf(prev, q, x)
      case PrevInsideDelete(from) => if from == Some(q) then {} else SnapshotOf(prev, q, x)
  }
}
