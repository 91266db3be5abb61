/** Every step of the pipeline is, for each object, a step of its own machine or no step at all. */
module PipelineViews {
  import opened Domain
  import opened Events
  import opened EventLog
  import opened Mailbox
  import opened ObjectMachine
  import opened ObjectInvariant
  import opened Pipeline

  // ---- views of the stores --------------------------------------------------------------------------

  lemma PutItemView(regions: seq<RegionState>, r: Region, id: ObjectID, item: Option<Item>, x: ObjectID)
    ensures TreeView(PutItem(regions, r, id, item), x) ==
            if x != id || r >= |regions| then TreeView(regions, x)
            else if item.Some? then TreeView(regions, x)[r := item.value] else TreeView(regions, x) - {r}
    ensures PrevView(PutItem(regions, r, id, item), x) == PrevView(regions, x)
    ensures |PutItem(regions, r, id, item)| == |regions|
  {}

  lemma PutPrevView(regions: seq<RegionState>, r: Region, id: ObjectID, inside: set<AreaID>, x: ObjectID)
    ensures PrevView(PutPrev(regions, r, id, inside), x) ==
            if x != id || r >= |regions| then PrevView(regions, x) else SetPrev(PrevView(regions, x), r, inside)
    ensures TreeView(PutPrev(regions, r, id, inside), x) == TreeView(regions, x)
    ensures |PutPrev(regions, r, id, inside)| == |regions|
  {}

  /** The last message on one of the object's subjects is found in its own part of the stream. */
  lemma {:induction false} LastInView(log: seq<Msg>, id: ObjectID, subject: Subject)
    requires !subject.GeoTruthBooted? && subject.o == id
    ensures LastOnSubject(LogView(log, id), subject) == LastOnSubject(log, subject)
  {
    if log != [] {
      var front, m := log[..|log| - 1], log[|log| - 1];
      assert log == front + [m];
      LastInView(front, id, subject);
      LogViewSnoc(front, m, id);
      if About(m, id) {
        assert (LogView(front, id) + [m])[..|LogView(front, id)|] == LogView(front, id);
      } else {
        assert LogView(log, id) == LogView(front, id);
      }
    }
  }

  lemma LogAfterView(log: seq<Msg>, m: Msg, out: Outcome, id: ObjectID)
    ensures LogView(LogAfter(log, m, out), id) == if About(m, id) then LogAfter(LogView(log, id), m, out) else LogView(log, id)
  {
    LogViewSnoc(log, m, id);
  }

  /** What the stream tells the publisher about a message is decided by the object's own part. */
  lemma ConfirmsInView(log: seq<Msg>, m: Msg, out: Outcome, id: ObjectID)
    requires About(m, id)
    ensures Confirms(log, m, out) == Confirms(LogView(log, id), m, out)
  {
    LogAfterView(log, m, out, id);
    LastInView(LogAfter(log, m, out), id, m.subject);
  }

  lemma {:induction false} ViewOfUnknown(log: seq<Msg>, id: ObjectID)
    requires id !in ObjectsIn(log)
    ensures LogView(log, id) == []
  {
    if log != [] {
      var front, m := log[..|log| - 1], log[|log| - 1];
      assert m in log && !About(m, id);
      assert id !in ObjectsIn(front) by { assert forall x :: x in front ==> x in log; }
      ViewOfUnknown(front, id);
    }
  }

  // ---- views of the steps ------------------------------------------------------------------------------

  /** The object's label for a step of the pipeline, if it takes part. */
  function LabelFor(s: Sys, a: Action, id: ObjectID): Option<Label> {
    match a
    case ATakeEnvelope(env, inst, now) => if env.objectID == id then Some(LArrive(env, inst, now)) else None
    case ATakeResult(now) => if s.results != [] && s.results[0].objectID == id then Some(LTakeResult(now)) else None
    case ATakeCommitResult(now) => if s.done != [] && s.done[0].objectID == id then Some(LTakeCommit(now)) else None
    case AWork(w, ch) =>
      if w < |s.workers| && s.workers[w].inbox != [] && s.workers[w].inbox[0].id == id then Some(LWork(ch)) else None
    case ASpawn(p) =>
      if p < |s.pubs| && s.pubs[p].hold.Some? && s.pubs[p].hold.value.objectID == id then Some(LStartJob) else None
    case ATryPublish(p, j, out) =>
      if p < |s.pubs| && j < |s.pubs[p].jobs| && s.pubs[p].jobs[j].env.objectID == id then Some(LAttempt(out)) else None
    case AFinish(p, j) =>
      if p < |s.pubs| && j < |s.pubs[p].jobs| && s.pubs[p].jobs[j].env.objectID == id then Some(LEndJob) else None
    case ARemoveArea(r, area) => Some(LForgetArea(r, area))
    case ACrash => Some(LCrash)
    case ARepair(x, m, now) => if x == id then Some(LRepair(m, now)) else None
    case ABoot => Some(LBoot)
    case ADeliver => None
    case ASendResult(_) => None
    case ATakeEnv(_) => None
    case ABooted(_) => None
  }

  /** The step of the pipeline is the given step of the object. */
  ghost predicate Follows(cfg: Config, id: ObjectID, o: Obj, l: Option<Label>, o': Obj) {
    if l.None? then o' == o else Enabled(id, o, l.value) && o' == Step(cfg, id, o, l.value)
  }

  lemma HandleView(s: Sys, id: ObjectID, ctl: Option<Ctl>, send: Option<Send>, tok: Option<Token>, h: History, x: ObjectID)
    ensures var o, o' := View(s, x), View(Handle(s, id, ctl, send, tok, h), x);
            if x == id then o' == o.(ctl := ctl, tok := tok, sent := h.sent, left := h.left, book := h.book) else o' == o
  {}

  lemma TakeEnvelopeView(cfg: Config, s: Sys, env: Envelope, inst: string, now: nat, x: ObjectID)
    requires Can(cfg, s, ATakeEnvelope(env, inst, now))
    ensures Follows(cfg, x, View(s, x), LabelFor(s, ATakeEnvelope(env, inst, now), x), View(TakeEnvelope(cfg, s, env, inst, now), x))
  {
    hide OnEnvelope, FreshInstance, LeftBy, TokenOf, Handle, TreeView, PrevView, LogView;
    var id := env.objectID;
    var a, h := OnEnvelope(cfg, Get(s.ctls, id), env, inst, now), HistoryOf(s, id);
    HandleView(s, id, a.ctl, a.send, if a.send.Some? then TokenOf(a.send) else Get(s.tok, id),
               h.(left := h.left + LeftBy(a.send),
                  book := Book(h.book.arrived + [env.reply], h.book.accepted + (if a.refused == [] then [env.reply] else []),
                               h.book.answered + a.answers, h.book.refused + a.refused)), x);
  }

  lemma TakeResultView(cfg: Config, s: Sys, now: nat, x: ObjectID)
    requires Can(cfg, s, ATakeResult(now))
    requires var res := s.results[0]; Get(s.tok, res.objectID) == Some(ResTok(res))
    ensures Follows(cfg, x, View(s, x), LabelFor(s, ATakeResult(now), x), View(TakeWorkerResult(cfg, s, now), x))
  {
    hide OnResult, LeftBy, TokenOf;
    var res := s.results[0];
    var id, rest := res.objectID, s.(results := s.results[1..]);
    assert View(rest, x) == View(s, x);
    if id in s.ctls && s.ctls[id].head.Some? {
      var out, h := OnResult(cfg, s.ctls[id], res, now), HistoryOf(s, id);
      HandleView(rest, id, Some(out.ctl), out.send, TokenOf(out.send),
                 h.(left := h.left + LeftBy(out.send), book := h.book.(answered := h.book.answered + out.answers)), x);
    }
  }

  lemma MutateView(regions: seq<RegionState>, id: ObjectID, m: Mutation, x: ObjectID)
    requires MutationInRange(m, |regions|)
    ensures PrevView(Mutate(regions, id, m), x) == if x == id then ApplyMutation(PrevView(regions, x), m) else PrevView(regions, x)
    ensures TreeView(Mutate(regions, id, m), x) == TreeView(regions, x)
  {
    match m {
      case PrevInsideNoop =>
      case PrevInsideSet(r, inside) => PutPrevView(regions, r, id, inside, x);
      case PrevInsideMove(from, r, inside) =>
        var mid := if from.Some? then PutPrev(regions, from.value, id, {}) else regions;
        if from.Some? { PutPrevView(regions, from.value, id, {}, x); }
        PutPrevView(mid, r, id, inside, x);
      case PrevInsideDelete(from) => if from.Some? { PutPrevView(regions, from.value, id, {}, x); }
    }
  }

  lemma TakeCommitView(cfg: Config, s: Sys, now: nat, x: ObjectID)
    requires Can(cfg, s, ATakeCommitResult(now))
    requires var env := s.done[0]; Get(s.tok, env.objectID) == Some(DoneTok(env))
    requires var id := s.done[0].objectID;
             id in s.ctls && s.ctls[id].commitEnvelope.Some? ==> MutationInRange(s.ctls[id].commitEnvelope.value.mutation, |s.regions|)
    ensures Follows(cfg, x, View(s, x), LabelFor(s, ATakeCommitResult(now), x), View(TakeCommitResult(cfg, s, now), x))
  {
    hide OnCommitResult, LeftBy, TokenOf, Mutate, ApplyMutation;
    var env := s.done[0];
    var id, rest := env.objectID, s.(done := s.done[1..]);
    assert View(rest, x) == View(s, x);
    if id in s.ctls {
      var c, h := s.ctls[id], HistoryOf(s, id);
      var f := OnCommitResult(cfg, c, ResultOf(env, true), now);
      var regions' := if c.commitEnvelope.Some? then Mutate(s.regions, id, c.commitEnvelope.value.mutation) else s.regions;
      if c.commitEnvelope.Some? { MutateView(s.regions, id, c.commitEnvelope.value.mutation, x); }
      HandleView(rest.(regions := regions'), id, f.ctl, f.send, TokenOf(f.send),
                 History(h.sent + [env], h.left + LeftBy(f.send), h.book.(answered := h.book.answered + f.answers)), x);
    }
  }

  lemma RetreeView(regions: seq<RegionState>, t: WorkerTask, ctl: Option<Ctl>, ch: Choice, x: ObjectID)
    requires t.region < |regions| && (t.kind == TaskTransition && t.oldRegion.Some? ==> t.oldRegion.value < |regions|)
    requires ctl.Some?
    ensures PrevView(Retree(regions, t), x) == PrevView(regions, x)
    ensures var w := Process(ctl, t, TreeView(regions, t.id), ch);
            !w.res.rejected ==> TreeView(Retree(regions, t), x) == if x == t.id then w.tree else TreeView(regions, x)
    ensures Process(ctl, t, TreeView(regions, t.id), ch).res.rejected ==>
              Process(ctl, t, TreeView(regions, t.id), ch).tree == TreeView(regions, t.id)
  {
    var item := Some(Item(t.pos, t.dims));
    match t.kind {
      case TaskTransition =>
        if t.oldRegion.Some? {
          PutItemView(regions, t.oldRegion.value, t.id, None, x);
          PutItemView(PutItem(regions, t.oldRegion.value, t.id, None), t.region, t.id, item, x);
        }
      case TaskRemove => PutItemView(regions, t.region, t.id, None, x);
      case _ => PutItemView(regions, t.region, t.id, item, x);
    }
  }

  lemma WorkView(cfg: Config, s: Sys, w: nat, ch: Choice, x: ObjectID)
    requires Can(cfg, s, AWork(w, ch))
    requires var t := s.workers[w].inbox[0];
             && Get(s.tok, t.id) == Some(TaskTok(t)) && t.id in s.ctls
             && t.region < |s.regions| && (t.kind == TaskTransition && t.oldRegion.Some? ==> t.oldRegion.value < |s.regions|)
    ensures Follows(cfg, x, View(s, x), LabelFor(s, AWork(w, ch), x), View(WorkOne(s, w, ch), x))
  {
    hide Retree, ValidChoice;
    var t := s.workers[w].inbox[0];
    RetreeView(s.regions, t, Get(s.ctls, t.id), ch, x);
    hide Process;
  }

  lemma SpawnView(cfg: Config, s: Sys, p: nat, x: ObjectID)
    requires Can(cfg, s, ASpawn(p))
    requires var env := s.pubs[p].hold.value; Get(s.tok, env.objectID) == Some(CommitTok(env))
    ensures Follows(cfg, x, View(s, x), LabelFor(s, ASpawn(p), x), View(SpawnJob(s, p), x))
  {}

  lemma TryPublishView(cfg: Config, s: Sys, p: nat, j: nat, out: Outcome, x: ObjectID)
    requires Can(cfg, s, ATryPublish(p, j, out))
    requires var job := s.pubs[p].jobs[j]; Get(s.tok, job.env.objectID) == Some(JobTok(job)) && About(JobMsg(job), job.env.objectID)
    ensures Follows(cfg, x, View(s, x), LabelFor(s, ATryPublish(p, j, out), x), View(TryPublish(s, p, j, out), x))
  {
    hide Confirms, LogAfter, LogView;
    var job := s.pubs[p].jobs[j];
    LogAfterView(s.log, JobMsg(job), out, x);
    ConfirmsInView(s.log, JobMsg(job), out, job.env.objectID);
  }

  lemma FinishView(cfg: Config, s: Sys, p: nat, j: nat, x: ObjectID)
    requires Can(cfg, s, AFinish(p, j))
    requires var job := s.pubs[p].jobs[j]; Get(s.tok, job.env.objectID) == Some(JobTok(job))
    ensures Follows(cfg, x, View(s, x), LabelFor(s, AFinish(p, j), x), View(FinishJob(s, p, j), x))
  {}

  /** One object's entry after the area is erased from a region's snapshots. */
  lemma ForgetEntry(prev: map<ObjectID, set<AreaID>>, area: AreaID, x: ObjectID)
    requires x in prev ==> prev[x] != {}
    ensures Get(ForgetIn(prev, area), x) ==
            if x !in prev then None
            else if area in prev[x] then (if prev[x] - {area} == {} then None else Some(prev[x] - {area}))
            else Some(prev[x])
  {
    if x in prev { Without(prev[x], area); }
  }

  lemma RegionView(regions: seq<RegionState>, r: Region, prev: map<ObjectID, set<AreaID>>, x: ObjectID)
    requires r < |regions|
    ensures var regions' := regions[r := regions[r].(prev := prev)];
            && TreeView(regions', x) == TreeView(regions, x)
            && PrevView(regions', x) == if x in prev then PrevView(regions, x)[r := prev[x]] else PrevView(regions, x) - {r}
  {}

  lemma RemoveAreaView(cfg: Config, s: Sys, r: Region, area: AreaID, x: ObjectID)
    requires s.up && (r in PrevView(s.regions, x) ==> PrevView(s.regions, x)[r] != {})
    ensures Follows(cfg, x, View(s, x), Some(LForgetArea(r, area)), View(RemoveAreaIn(s, r, area), x))
  {
    var prev: map<Region, set<AreaID>> := PrevView(s.regions, x);
    if r < |s.regions| {
      var here := s.regions[r].prev;
      assert x in here <==> r in prev;
      ForgetEntry(here, area, x);
      RegionView(s.regions, r, ForgetIn(here, area), x);
      hide ForgetIn, LogView, PrevView, TreeView;
      assert r !in prev ==> prev - {r} == prev;
      assert r in prev ==> prev[r := prev[r]] == prev;
    }
  }

  lemma Without(inside: set<AreaID>, area: AreaID)
    requires inside != {}
    ensures inside - {area} == {} <==> inside == {area}
    ensures area !in inside ==> inside - {area} == inside
  {
    if inside - {area} == {} {
      assert forall a :: a in inside ==> a in inside - {area} || a == area;
      var a :| a in inside;
      assert inside == {area};
    }
  }

  lemma CrashView(cfg: Config, s: Sys, x: ObjectID)
    ensures Follows(cfg, x, View(s, x), Some(LCrash), View(CrashAll(cfg, s), x))
  {
    assert TreeView(CrashAll(cfg, s).regions, x) == map[] && PrevView(CrashAll(cfg, s).regions, x) == map[];
  }

  lemma AppendView(s: Sys, m: Msg, x: ObjectID)
    ensures View(s.(log := s.log + [m]), x) == if About(m, x) then Repair(View(s, x), m) else View(s, x)
  {
    LogViewSnoc(s.log, m, x);
  }

  lemma BootView(cfg: Config, s: Sys, x: ObjectID)
    requires Can(cfg, s, ABoot)
    requires forall r {:trigger r in BootState(cfg, LogView(s.log, x)).tree} :: r in BootState(cfg, LogView(s.log, x)).tree ==> r < cfg.regions
    requires forall r {:trigger r in BootState(cfg, LogView(s.log, x)).prev} :: r in BootState(cfg, LogView(s.log, x)).prev ==> r < cfg.regions
    ensures Follows(cfg, x, View(s, x), Some(LBoot), View(BootAll(cfg, s), x))
  {
    hide BootState, Repaired, LogView, ObjectsIn;
    if x in ObjectsIn(s.log) {
      assert Repaired(LogView(s.log, x));
    } else {
      ViewOfUnknown(s.log, x);
      NothingToBoot(cfg);
    }
    BootCtlView(cfg, s, x);
    BootTreeView(cfg, s, x);
    BootPrevView(cfg, s, x);
    hide TreeView, PrevView;
  }

  /** An object that is not in the log has nothing to boot. */
  ghost predicate KnownOrNothing(cfg: Config, s: Sys, x: ObjectID) {
    x in ObjectsIn(s.log) || BootState(cfg, LogView(s.log, x)) == Booted(None, map[], map[])
  }

  lemma BootCtlView(cfg: Config, s: Sys, x: ObjectID)
    requires KnownOrNothing(cfg, s, x)
    ensures Get(BootAll(cfg, s).ctls, x) == BootState(cfg, LogView(s.log, x)).ctl
  {
    hide BootState, LogView, ObjectsIn;
  }

  lemma BootTreeView(cfg: Config, s: Sys, x: ObjectID)
    requires KnownOrNothing(cfg, s, x)
    requires forall r {:trigger r in BootState(cfg, LogView(s.log, x)).tree} :: r in BootState(cfg, LogView(s.log, x)).tree ==> r < cfg.regions
    ensures TreeView(BootAll(cfg, s).regions, x) == BootState(cfg, LogView(s.log, x)).tree
  {
    hide BootState, LogView, ObjectsIn;
  }

  lemma BootPrevView(cfg: Config, s: Sys, x: ObjectID)
    requires KnownOrNothing(cfg, s, x)
    requires forall r {:trigger r in BootState(cfg, LogView(s.log, x)).prev} :: r in BootState(cfg, LogView(s.log, x)).prev ==> r < cfg.regions
    ensures PrevView(BootAll(cfg, s).regions, x) == BootState(cfg, LogView(s.log, x)).prev
  {
    hide BootState, LogView, ObjectsIn;
  }

  lemma NothingToBoot(cfg: Config)
    ensures BootState(cfg, []) == Booted(None, map[], map[]) && Repaired([])
  {}
}
