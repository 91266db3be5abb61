/** Main results on the log: with repeats dropped it is the write sets of the numbered commits, in
    order, and repair after a crash completes the one commit that may be incomplete. */
module ObjectRefinement {
  import opened Domain
  import opened Events
  import opened EventLog
  import opened Mailbox
  import opened ObjectMachine
  import opened ObjectInvariant
  import opened ObjectSteps
  import opened ObjectLog

  /** Within an instance the numbers strictly increase, so no two commits have the same name. */
  lemma {:induction false} NumbersIncrease(cfg: Config, id: ObjectID, cs: seq<StateRecord>, j: nat, k: nat)
    requires ChainOK(cfg, id, cs) && j < k < |cs| && cs[j].instanceID == cs[k].instanceID
    ensures cs[j].commitSeq < cs[k].commitSeq
    decreases k
  {
    assert Succeeds(cs, k);
    if j < k - 1 { NumbersIncrease(cfg, id, cs, j, k - 1); }
  }

  // ---- event ids name their commit --------------------------------------------------------------

  function NameOf(e: EventID): (string, nat) {
    match e
    case PositionID(_, i, s) => (i, s)
    case RegisteredID(_, i, s) => (i, s)
    case RemovedID(_, i, s) => (i, s)
    case EnterID(_, _, i, s) => (i, s)
    case ExitID(_, _, i, s) => (i, s)
    case BootedID(s) => ("", s)
  }

  ghost predicate Named(m: Msg, i: string, s: nat) { m.data.i == i && m.data.s == s && NameOf(m.data.e) == (i, s) }

  lemma MessageNamed(id: ObjectID, m: Msg)
    requires MsgOK(id, m)
    ensures Named(m, m.data.i, m.data.s)
  {}

  lemma WriteSetNamed(id: ObjectID, env: CommitEnvelope, m: Msg)
    requires EnvelopeOK(id, env) && m in WriteSet(env)
    ensures Named(m, env.instanceID, env.commitSeq)
  {
    WriteSetNames(id, env, m);
    if m != env.commit { var k :| 0 <= k < |env.projections| && env.projections[k] == m; }
    assert MsgOK(id, m);
  }

  /** Every message bears the name of one of the commits. */
  ghost predicate NamedBy(ms: seq<Msg>, cs: seq<StateRecord>) {
    forall m {:trigger m in ms} :: m in ms ==> Named(m, m.data.i, m.data.s) && Listed(cs, m.data.i, m.data.s)
  }

  ghost predicate DistinctNames(cs: seq<StateRecord>) {
    forall j, k :: 0 <= j < k < |cs| ==> (cs[j].instanceID, cs[j].commitSeq) != (cs[k].instanceID, cs[k].commitSeq)
  }

  lemma ChainNamesDistinct(cfg: Config, id: ObjectID, cs: seq<StateRecord>)
    requires ChainOK(cfg, id, cs)
    ensures DistinctNames(cs)
  {
    forall j, k | 0 <= j < k < |cs| && cs[j].instanceID == cs[k].instanceID ensures cs[j].commitSeq < cs[k].commitSeq {
      NumbersIncrease(cfg, id, cs, j, k);
    }
  }

  /** Messages of earlier commits share no id with a later commit's. */
  lemma IDsApart(id: ObjectID, ms: seq<Msg>, cs: seq<StateRecord>, p: nat, env: CommitEnvelope, reach: nat)
    requires p < |cs| && DistinctNames(cs) && NamedBy(ms, cs[..p])
    requires EnvelopeOK(id, env) && StateOf(env.commit) == Some(cs[p]) && reach <= |WriteSet(env)|
    ensures IDs(ms) !! IDs(WriteSet(env)[..reach])
  {
    hide EnvelopeOK, Listed, StateOf, DistinctNames;
    var name := (cs[p].instanceID, cs[p].commitSeq);
    forall e | e in IDs(ms) ensures NameOf(e) != name {
      var m :| m in ms && m.data.e == e;
      ListedBelow(cs, p, m.data.i, m.data.s);
    }
    forall e | e in IDs(WriteSet(env)[..reach]) ensures NameOf(e) == name {
      var x :| x in WriteSet(env)[..reach] && x.data.e == e;
      WriteSetNamed(id, env, x);
      EnvelopeName(id, env);
    }
  }

  lemma EnvelopeName(id: ObjectID, env: CommitEnvelope)
    requires EnvelopeOK(id, env)
    ensures StateOf(env.commit).Some?
    ensures env.instanceID == StateOf(env.commit).value.instanceID && env.commitSeq == StateOf(env.commit).value.commitSeq
  {}

  lemma ListedBelow(cs: seq<StateRecord>, p: nat, i: string, s: nat)
    requires p < |cs| && DistinctNames(cs) && Listed(cs[..p], i, s)
    ensures (i, s) != (cs[p].instanceID, cs[p].commitSeq)
  {
    var k :| 0 <= k < p && cs[..p][k].instanceID == i && cs[..p][k].commitSeq == s;
    assert cs[..p][k] == cs[k];
  }

  lemma NamedByMore(id: ObjectID, ms: seq<Msg>, cs: seq<StateRecord>, p: nat, env: CommitEnvelope)
    requires p < |cs| && NamedBy(ms, cs[..p])
    requires EnvelopeOK(id, env) && StateOf(env.commit) == Some(cs[p])
    ensures NamedBy(ms + WriteSet(env), cs[..p + 1])
  {
    forall m | m in ms + WriteSet(env) ensures Named(m, m.data.i, m.data.s) && Listed(cs[..p + 1], m.data.i, m.data.s) {
      if m in ms {
        assert Listed(cs[..p], m.data.i, m.data.s);
        var k :| 0 <= k < p && cs[..p][k].instanceID == m.data.i && cs[..p][k].commitSeq == m.data.s;
        assert cs[..p + 1][k] == cs[..p][k];
      } else {
        WriteSetNamed(id, env, m);
        assert cs[..p + 1][p] == cs[p];
      }
    }
  }

  // ---- refinement ---------------------------------------------------------------------------------

  /** The write sets one after the other, each with its own repeats dropped. */
  function EachOnce(sent: seq<CommitEnvelope>): seq<Msg> {
    if sent == [] then [] else EachOnce(sent[..|sent| - 1]) + Dedup(WriteSet(sent[|sent| - 1]))
  }

  ghost predicate SentAs(id: ObjectID, sent: seq<CommitEnvelope>, cs: seq<StateRecord>, n: nat) {
    && |cs| >= n + |sent|
    && forall k {:trigger sent[k]} :: 0 <= k < |sent| ==>
         EnvelopeOK(id, sent[k]) && StateOf(sent[k].commit) == Some(cs[n + k])
  }

  lemma {:induction false} FlatRefines(id: ObjectID, base: seq<Msg>, sent: seq<CommitEnvelope>, cs: seq<StateRecord>, n: nat)
    requires SentAs(id, sent, cs, n) && DistinctNames(cs) && NamedBy(base, cs[..n])
    ensures Dedup(base + Flat(sent)) == Dedup(base) + EachOnce(sent)
    ensures NamedBy(base + Flat(sent), cs[..n + |sent|])
    decreases |sent|
  {
    hide EnvelopeOK, DistinctNames, Dedup, StateOf, WriteSet, NamedBy;
    if sent == [] {
      assert base + Flat(sent) == base && cs[..n + |sent|] == cs[..n];
    } else {
      var front, env := sent[..|sent| - 1], sent[|sent| - 1];
      var p := n + |front|;
      assert SentAs(id, front, cs, n) by { assert forall k :: 0 <= k < |front| ==> front[k] == sent[k]; }
      FlatRefines(id, base, front, cs, n);
      IDsApart(id, base + Flat(front), cs, p, env, |WriteSet(env)|);
      assert WriteSet(env)[..|WriteSet(env)|] == WriteSet(env);
      DedupConcat(base + Flat(front), WriteSet(env));
      NamedByMore(id, base + Flat(front), cs, p, env);
      assert base + Flat(sent) == base + Flat(front) + WriteSet(env);
    }
  }

  lemma BaseNamed(id: ObjectID, o: Obj)
    requires LogInv(id, o) && o.up
    ensures |Commits(o.base)| <= |Commits(o.log)| && NamedBy(o.base, Commits(o.log)[..|Commits(o.base)|])
  {
    hide Commits;
    var cs, n := Commits(o.log), |Commits(o.base)|;
    assert Confirmed(o.log, o.tok) <= cs;
    assert cs[..n] == Commits(o.base);
    forall m | m in o.base ensures Named(m, m.data.i, m.data.s) && Listed(cs[..n], m.data.i, m.data.s) {
      assert MsgOK(id, m);
      MessageNamed(id, m);
    }
  }

  /** Log refinement: in every reachable state of a running process, the object's log with repeated
      event ids dropped is what was there at boot, then the write set of each confirmed commit in
      order, then the part of the current one that is known to be stored. */
  lemma LogRefinement(cfg: Config, id: ObjectID, o: Obj)
    requires Inv(cfg, id, o) && LogInv(id, o) && o.up
    ensures Dedup(o.log) == Dedup(o.base) + EachOnce(o.sent) + Dedup(Pending(o.tok))
    ensures SentAs(id, o.sent, Commits(o.log), |Commits(o.base)|)
  {
    hide Commits, EnvelopeOK, Stage, NumberOK, MailboxOK, StateOK, Succeeds, MsgOK, StateOf, Dedup, WriteSet, NamedBy, DistinctNames;
    var cs, n := Commits(o.log), |Commits(o.base)|;
    ChainNamesDistinct(cfg, id, cs);
    BaseNamed(id, o);
    assert SentAs(id, o.sent, cs, n);
    FlatRefines(id, o.base, o.sent, cs, n);
    var known := o.base + Flat(o.sent);
    if Pending(o.tok) == [] {
      assert Published(o) == known;
      DedupDistinct(Pending(o.tok));
    } else {
      var env := PendingEnvelope(cfg, id, o);
      IDsApart(id, known, cs, n + |o.sent|, env, |Pending(o.tok)|);
      DedupConcat(known, Pending(o.tok));
    }
  }

  lemma PendingEnvelope(cfg: Config, id: ObjectID, o: Obj) returns (env: CommitEnvelope)
    requires Inv(cfg, id, o) && LogInv(id, o) && o.up && Pending(o.tok) != []
    ensures EnvelopeOK(id, env) && |Pending(o.tok)| <= |WriteSet(env)| && Pending(o.tok) == WriteSet(env)[..|Pending(o.tok)|]
    ensures var p := |Commits(o.base)| + |o.sent|;
            |Commits(o.log)| == p + 1 && StateOf(env.commit) == Some(Commits(o.log)[p])
  {
    hide Inv, EnvelopeOK, Commits, AllListed, LogOK, Dedup, StateOf, CommitFollows;
    if o.tok.value.JobTok? {
      env := o.tok.value.job.env;
      JobSubmitting(cfg, id, o);
    } else {
      env := o.tok.value.env;
      DoneIsLast(cfg, id, o);
      assert WriteSet(env)[..|WriteSet(env)|] == WriteSet(env);
    }
    StoredIsLast(cfg, id, o);
  }

  /** A write set has no repeats of its own exactly when its commit has no repeated transition. */
  lemma WriteSetDistinct(id: ObjectID, env: CommitEnvelope)
    requires EnvelopeOK(id, env)
    ensures StateOf(env.commit).Some?
    ensures Dedup(WriteSet(env)) == WriteSet(env) <==> Distinct(StateOf(env.commit).value.transitions)
  {
    hide Dedup, Distinct, EnvelopeOK, StateOf, WriteSet;
    ProjectionsNamed(id, env);
    CommitIDApart(id, env);
    DistinctByTransition(id, WriteSet(env), StateOf(env.commit).value);
  }

  lemma ProjectionsNamed(id: ObjectID, env: CommitEnvelope)
    requires EnvelopeOK(id, env)
    ensures StateOf(env.commit).Some? && |WriteSet(env)| == |StateOf(env.commit).value.transitions| + 1
    ensures var ws, st := WriteSet(env), StateOf(env.commit).value;
            && ws[0] == env.commit
            && forall k :: 0 <= k < |st.transitions| ==>
                 ws[k + 1].data.e == TransitionID(st.transitions[k], id, st.instanceID, st.commitSeq)
  {
    hide RepairKnown, GeofenceMsgOK, StateOf;
    var ws, st := WriteSet(env), StateOf(env.commit).value;
    forall k | 0 <= k < |st.transitions|
      ensures ws[k + 1].data.e == TransitionID(st.transitions[k], id, st.instanceID, st.commitSeq)
    {
      assert ws[k + 1] == env.projections[k];
    }
  }

  /** Event ids that name a transition each are distinct exactly when the transitions are. */
  lemma DistinctByTransition(id: ObjectID, ws: seq<Msg>, st: StateRecord)
    requires |ws| == |st.transitions| + 1
    requires forall k :: 0 <= k < |st.transitions| ==>
               ws[k + 1].data.e == TransitionID(st.transitions[k], id, st.instanceID, st.commitSeq)
    requires forall k :: 1 <= k < |ws| ==> ws[k].data.e != ws[0].data.e
    ensures Dedup(ws) == ws <==> Distinct(st.transitions)
  {
    hide Dedup, TransitionID;
    var ts := st.transitions;
    IDsOfDistinct(id, ts, st.instanceID, st.commitSeq);
    if Distinct(ts) {
      forall i, j | 0 <= i < j < |ws| ensures ws[i].data.e != ws[j].data.e {
        if i > 0 {
          assert ts[i - 1] != ts[j - 1];
          assert ws[i - 1 + 1].data.e == TransitionID(ts[i - 1], id, st.instanceID, st.commitSeq);
          assert ws[j - 1 + 1].data.e == TransitionID(ts[j - 1], id, st.instanceID, st.commitSeq);
        }
      }
      DedupDistinct(ws);
    } else {
      var i, j :| 0 <= i < j < |ts| && ts[i] == ts[j];
      assert ws[i + 1].data.e == ws[j + 1].data.e;
      DedupShrinks(ws, i + 1, j + 1);
    }
  }

  lemma IDsOfDistinct(id: ObjectID, ts: seq<Transition>, i: string, s: nat)
    ensures forall j, k :: 0 <= j < |ts| && 0 <= k < |ts| ==>
              (TransitionID(ts[j], id, i, s) == TransitionID(ts[k], id, i, s) <==> ts[j] == ts[k])
  {}

  lemma CommitIDApart(id: ObjectID, env: CommitEnvelope)
    requires EnvelopeOK(id, env)
    ensures forall k :: 1 <= k < |WriteSet(env)| ==> WriteSet(env)[k].data.e != env.commit.data.e
  {
    hide RepairKnown;
    forall k | 1 <= k < |WriteSet(env)| ensures WriteSet(env)[k].data.e != env.commit.data.e {
      assert WriteSet(env)[k] == env.projections[k - 1];
    }
  }

  lemma {:induction false} DedupLength(ms: seq<Msg>)
    ensures |Dedup(ms)| <= |ms|
  {
    if ms != [] { DedupLength(ms[..|ms| - 1]); }
  }

  lemma {:induction false} DedupShrinks(ms: seq<Msg>, i: nat, j: nat)
    requires i < j < |ms| && ms[i].data.e == ms[j].data.e
    ensures |Dedup(ms)| < |ms|
  {
    var front, m := ms[..|ms| - 1], ms[|ms| - 1];
    assert ms == front + [m];
    DedupLength(front);
    if j == |ms| - 1 {
      assert front[i] in front && m.data.e in IDs(front);
      DedupRepeat(front, m);
    } else {
      DedupShrinks(front, i, j);
    }
  }

  /** Commits sent are numbered without gaps: each is number 1 of a new instance, after a removal,
      or the successor of the commit before it. */
  lemma NumberedWithoutGaps(cfg: Config, id: ObjectID, o: Obj, k: nat)
    requires Inv(cfg, id, o) && LogInv(id, o) && o.up && k < |o.sent|
    ensures var cs, at := Commits(o.log), |Commits(o.base)| + k;
            && at < |cs| && o.sent[k].instanceID == cs[at].instanceID && o.sent[k].commitSeq == cs[at].commitSeq
            && (o.sent[k].commitSeq == 1 || (at > 0 && cs[at - 1].instanceID == o.sent[k].instanceID
                                             && o.sent[k].commitSeq == cs[at - 1].commitSeq + 1))
            && forall j :: 0 <= j < at && o.sent[k].commitSeq == 1 ==> cs[j].instanceID != o.sent[k].instanceID
  {
    hide LogOK, ChainOK, Present, Commits, EnvelopeOK, StateOf, Dedup;
    var cs, at := Commits(o.log), |Commits(o.base)| + k;
    assert Confirmed(o.log, o.tok)[at] == cs[at];
    EnvelopeName(id, o.sent[k]);
    ChainSucceeds(cfg, id, cs, at);
  }

  lemma ChainSucceeds(cfg: Config, id: ObjectID, cs: seq<StateRecord>, k: nat)
    requires ChainOK(cfg, id, cs) && k < |cs|
    ensures Succeeds(cs, k)
  {}

  // ---- repair -------------------------------------------------------------------------------------

  /** Projections of `ms` whose id is not in the log. */
  function Missing(log: seq<Msg>, ms: seq<Msg>): seq<Msg> {
    if ms == [] then []
    else (if ms[0].data.e in IDs(log) then [] else [ms[0]]) + Missing(log, ms[1..])
  }

  lemma {:induction false} MissingFillsIn(log: seq<Msg>, ms: seq<Msg>)
    ensures IDs(ms) <= IDs(log + Missing(log, ms))
    ensures forall m :: m in Missing(log, ms) ==> m in ms
    decreases |ms|
  {
    if ms != [] {
      MissingFillsIn(log, ms[1..]);
      IDsConcat(log, Missing(log, ms));
      IDsConcat(log, Missing(log, ms[1..]));
      assert ms == [ms[0]] + ms[1..];
      IDsConcat([ms[0]], ms[1..]);
      IDsConcat(if ms[0].data.e in IDs(log) then [] else [ms[0]], Missing(log, ms[1..]));
      assert ms[0] in [ms[0]];
    }
  }

  /** In every reachable crashed state repair succeeds: the projections can be derived, and once the
      missing ones are published the log is complete, so a boot is possible. */
  lemma RepairCompletes(cfg: Config, id: ObjectID, o: Obj, now: nat)
    requires Inv(cfg, id, o) && !o.up && LastCommit(o.log).Some?
    ensures var c := LastCommit(o.log).value;
            var expected := ExpectedProjectionMsgs(StateOf(c).value, c.data, now);
            && expected.Ok? && IDs(expected.value) == ExpectedIDs(StateOf(c).value)
            && (forall m :: m in Missing(o.log, expected.value) ==> CanRepair(o, m, now))
            && Repaired(o.log + Missing(o.log, expected.value))
  {
    var c := LastCommit(o.log).value;
    assert MsgOK(id, c);
    assert CommitMsgOK(id, c) && RepairYields(c, now) by { assert !GeofenceMsgOK(id, c); }
    var expected := ExpectedProjectionMsgs(StateOf(c).value, c.data, now).value;
    MissingFillsIn(o.log, expected);
    LastCommitKept(id, o.log, Missing(o.log, expected));
  }

  lemma {:induction false} LastCommitKept(id: ObjectID, log: seq<Msg>, more: seq<Msg>)
    requires forall m :: m in more ==> GeofenceMsgOK(id, m)
    ensures LastCommit(log + more) == LastCommit(log)
    decreases |more|
  {
    if more == [] {
      assert log + more == log;
    } else {
      var front, m := more[..|more| - 1], more[|more| - 1];
      assert log + more == log + front + [m];
      LastCommitKept(id, log, front);
      LastCommitSnoc(log + front, m);
      assert m in more;
    }
  }
}
