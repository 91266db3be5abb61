/** Repairing projections at boot (RepairLatestProjections in internal/gtevents/stream.go). */
module Recovery {
  import opened Domain
  import opened Events
  import opened EventLog
  import opened ObjectMachine
  import opened Stream
  import opened ObjectInvariant
  import opened ObjectSteps

  /** The messages of the stream, in order. */
  function Msgs(es: seq<Entry>): (ms: seq<Msg>)
    ensures |ms| == |es| && forall i :: 0 <= i < |es| ==> ms[i] == es[i].m
  {
    seq(|es|, i requires 0 <= i < |es| => es[i].m)
  }

  function IDsOf(es: seq<Entry>): set<EventID> { set e | e in es :: e.m.data.e }

  /** The latest commit found by recovery is the one the object's own log ends with. */
  lemma {:induction false} LatestIsLastCommit(es: seq<Entry>, id: ObjectID)
    requires WellFormed(es)
    ensures LastCommit(LogView(Msgs(es), id)) == if LatestOf(es, id).Some? then Some(LatestOf(es, id).value.m) else None
    decreases |es|
  {
    if es != [] {
      var n := |es| - 1;
      var front, m := es[..n], es[n].m;
      LatestIsLastCommit(front, id);
      assert Msgs(es) == Msgs(front) + [m];
      LogViewSnoc(Msgs(front), m, id);
      if About(m, id) { LastCommitSnoc(LogView(Msgs(front), id), m); }
      assert WellFormedMsg(es[n].m);
      assert LogView(Msgs(es), id) == LogView(Msgs(front), id) + if About(m, id) then [m] else [];
      assert !About(m, id) ==> LogView(Msgs(es), id) == LogView(Msgs(front), id);
    }
  }

  // ---- the repair loop --------------------------------------------------------------------------------

  /** The projections every commit should have, by event id. */
  ghost predicate Expects(commits: map<ObjectID, Recovered>, ids: set<ObjectID>, expected: map<EventID, Msg>, now: nat) {
    && (forall id {:trigger commits[id]} :: id in ids && id in commits ==>
          var ms := ExpectedProjectionMsgs(commits[id].state, commits[id].m.data, now);
          ms.Ok? && forall m {:trigger m in ms.value} :: m in ms.value ==> m.data.e in expected)
    && (forall e {:trigger expected[e]} :: e in expected ==> expected[e].data.e == e && ExpectedBy(commits, ids, expected[e], now))
  }

  /** The message is a projection of one of the commits. */
  ghost predicate ExpectedBy(commits: map<ObjectID, Recovered>, ids: set<ObjectID>, m: Msg, now: nat) {
    exists id :: id in ids && id in commits
                 && ExpectedProjectionMsgs(commits[id].state, commits[id].m.data, now).Ok?
                 && m in ExpectedProjectionMsgs(commits[id].state, commits[id].m.data, now).value
  }

  class EventStream {
    var entries: seq<Entry>
    var lastSeq: nat
    var outcomes: seq<Outcome>

    constructor (entries: seq<Entry>, lastSeq: nat, outcomes: seq<Outcome>)
      ensures this.entries == entries && this.lastSeq == lastSeq && this.outcomes == outcomes
    {
      this.entries, this.lastSeq, this.outcomes := entries, lastSeq, outcomes;
    }

    ghost predicate Valid()
      reads this
    {
      && Increasing(entries) && (forall e {:trigger e in entries} :: e in entries ==> 0 < e.at <= lastSeq)
      && forall i {:trigger outcomes[i]} :: 0 <= i < |outcomes| ==> ValidOutcome(outcomes[i])
    }

    /** publishOrVerifyOnce: on success an event with the message's id is in the stream; nothing else
        is ever appended. */
    method PublishOnce(m: Msg) returns (ok: bool)
      requires Valid()
      modifies this
      ensures Valid() && lastSeq >= old(lastSeq)
      ensures entries == old(entries) || entries == old(entries) + [Entry(old(lastSeq) + 1, m)]
      ensures ok ==> m.data.e in IDsOf(entries)
      ensures ok <==> old(outcomes) != [] && Confirms(Msgs(old(entries)), m, old(outcomes)[0])
      ensures old(outcomes) != [] ==> outcomes == old(outcomes)[1..] && (entries != old(entries) <==> old(outcomes)[0].stored)
    {
      if outcomes == [] { return false; }
      var out := outcomes[0];
      outcomes := outcomes[1..];
      if out.stored {
        assert forall i :: 0 <= i < |entries| ==> entries[i] in entries;
        entries := entries + [Entry(lastSeq + 1, m)];
        lastSeq := lastSeq + 1;
        assert entries[|entries| - 1].m == m;
        assert Msgs(entries) == Msgs(old(entries)) + [m];
      }
      assert Msgs(entries) == LogAfter(Msgs(old(entries)), m, out);
      if out.acked { return true; }
      if !out.readable { return false; }
      var found := LastEntryOn(m.subject);
      return found.Some? && found.value.m.data.e == m.data.e;
    }

    /** GetLastMsgForSubject. */
    method LastEntryOn(subject: Subject) returns (r: Option<Entry>)
      ensures r.Some? ==> r.value in entries && r.value.m.subject == subject
      ensures r.None? ==> forall e :: e in entries ==> e.m.subject != subject
      ensures LastOnSubject(Msgs(entries), subject) == if r.Some? then Some(r.value.m) else None
    {
      var k := |entries|;
      while k > 0
        invariant 0 <= k <= |entries|
        invariant forall j :: k <= j < |entries| ==> entries[j].m.subject != subject
      {
        k := k - 1;
        if entries[k].m.subject == subject {
          LastAt(Msgs(entries), subject, k);
          return Some(entries[k]);
        }
      }
      NoneOn(Msgs(entries), subject);
      return None;
    }

    /** The events of the stream from `startSeq` on that are expected. */
    method Scan(startSeq: nat, expected: map<EventID, Msg>) returns (found: set<EventID>)
      ensures forall e {:trigger e in found} :: e in found <==> e in expected && FoundIn(entries, startSeq, e)
    {
      found := {};
      for k := 0 to |entries|
        invariant forall e {:trigger e in found} :: e in found <==> e in expected && FoundIn(entries[..k], startSeq, e)
      {
        assert entries[..k + 1] == entries[..k] + [entries[k]];
        var e := entries[k].m.data.e;
        if entries[k].at >= startSeq && entries[k].m.subject.IsGeofence() && e in expected {
          found := found + {e};
        }
      }
      assert entries[..|entries|] == entries;
    }

    /** Publishes the expected messages not found, until one fails. */
    method PublishMissing(expected: map<EventID, Msg>, found: set<EventID>) returns (ok: bool)
      requires Valid() && found <= expected.Keys && found <= IDsOf(entries)
      requires forall e {:trigger expected[e]} :: e in expected ==> expected[e].data.e == e
      modifies this
      ensures Valid()
      ensures ok ==> expected.Keys <= IDsOf(entries)
      ensures Filled(expected, found, old(entries), entries)
      ensures !ok ==> Troubled(old(outcomes)) || |old(outcomes)| < |expected.Keys - found|
    {
      hide Confirms, IDsOf, Increasing, Filled, Missed;
      var missing := expected.Keys - found;
      FilledNone(expected, found, entries);
      while missing != {}
        invariant Valid() && missing <= expected.Keys - found
        invariant Filled(expected, found, old(entries), entries)
        invariant expected.Keys - missing <= IDsOf(entries)
        invariant Used(old(outcomes), outcomes) && |old(outcomes)| - |outcomes| == |expected.Keys - found| - |missing|
        decreases |missing|
      {
        var e :| e in missing;
        if outcomes != [] { NotTroubled(old(outcomes), outcomes, Msgs(entries), expected[e]); }
        ghost var was := entries;
        var published := PublishOnce(expected[e]);
        FilledMore(expected, found, old(entries), was, entries, e);
        if !published { return false; }
        missing := missing - {e};
      }
      return true;
    }

    /** RepairLatestProjections.  On success every projection of the given commits is in the stream;
        and whatever the outcome, all that was appended are projections of those commits whose event
        id was not found when the stream was scanned. */
    method RepairLatestProjections(commits: map<ObjectID, Recovered>, now: nat) returns (ok: bool)
      requires Valid()
      modifies this
      ensures Valid()
      ensures ok ==> AllThere(commits, entries, now)
      ensures Underivable(commits, now) ==> !ok && entries == old(entries)
      ensures Repairs(commits, old(entries), entries, now)
      ensures forall k :: |old(entries)| <= k < |entries| ==> !FoundFrom(old(entries), commits, entries[k].m.data.e)
      ensures !ok ==>
                Underivable(commits, now) || Troubled(old(outcomes)) || TooFew(commits, old(entries), old(outcomes), now)
    {
      hide Expects, StartsBelow, ExpectedBy, Filled, Troubled, TooFew, FoundFrom, FoundIn, AllThere, Underivable;
      hide Missed, IDsOf, Repairs;
      var derived, expected, startSeq := CollectExpected(commits, now);
      if !derived {
        RepairsNothing(commits, entries, now);
        return false;
      }
      ExpectedThere(commits, expected, now);
      if expected == map[] {
        RepairsNothing(commits, entries, now);
        return true;
      }
      var found := Scan(startSeq, expected);
      FoundAreThere(entries, expected, found, startSeq);
      ok := PublishMissing(expected, found);
      MissingAre(commits, expected, found, startSeq, old(entries), now);
      Appended(commits, expected, found, startSeq, old(entries), entries, now);
      RepairsSome(commits, expected, found, old(entries), entries, now);
    }
  }

  /** Some attempt goes wrong: its message is not stored, or that is not noticed. */
  predicate Troubled(outs: seq<Outcome>) {
    exists i :: 0 <= i < |outs| && !(outs[i].stored && (outs[i].acked || outs[i].readable))
  }

  /** The projections of some commit cannot be derived. */
  ghost predicate Underivable(commits: map<ObjectID, Recovered>, now: nat) {
    exists id :: id in commits && ExpectedProjectionMsgs(commits[id].state, commits[id].m.data, now).Err?
  }

  /** Some of the attempts have been used up. */
  predicate Used(all: seq<Outcome>, rest: seq<Outcome>) { |rest| <= |all| && rest == all[|all| - |rest|..] }

  lemma NotTroubled(all: seq<Outcome>, rest: seq<Outcome>, log: seq<Msg>, m: Msg)
    requires Used(all, rest) && rest != []
    ensures Used(all, rest[1..]) && (Confirms(log, m, rest[0]) || Troubled(all))
  {
    hide Confirms;
    ConfirmsExactly(log, m, rest[0]);
    assert rest[0] == all[|all| - |rest|];
  }

  /** Some commit expects a projection with this id. */
  ghost predicate ExpectedID(commits: map<ObjectID, Recovered>, e: EventID, now: nat) {
    exists m: Msg :: m.data.e == e && ExpectedBy(commits, commits.Keys, m, now)
  }

  lemma MissingAre(commits: map<ObjectID, Recovered>, expected: map<EventID, Msg>, found: set<EventID>, startSeq: nat,
                   stream: seq<Entry>, now: nat)
    requires Expects(commits, commits.Keys, expected, now) && StartsBelow(commits, commits.Keys, startSeq, now)
    requires forall e {:trigger e in found} :: e in found <==> e in expected && FoundIn(stream, startSeq, e)
    ensures forall outs: seq<Outcome> :: |outs| < |expected.Keys - found| ==> TooFew(commits, stream, outs, now)
  {
    hide ExpectedProjectionMsgs;
    forall e | e in expected.Keys - found ensures !FoundFrom(stream, commits, e) && ExpectedID(commits, e, now) {
      assert ExpectedBy(commits, commits.Keys, expected[e], now);
      var id :| id in commits.Keys && id in commits && ExpectedProjectionMsgs(commits[id].state, commits[id].m.data, now).Ok?
                && expected[e] in ExpectedProjectionMsgs(commits[id].state, commits[id].m.data, now).value;
      assert startSeq <= commits[id].at + 1;
      assert FoundFrom(stream, commits, e) ==> FoundIn(stream, startSeq, e);
    }
    forall outs: seq<Outcome> | |outs| < |expected.Keys - found| ensures TooFew(commits, stream, outs, now) {
      assert forall e {:trigger e in expected.Keys - found} :: e in expected.Keys - found ==>
               !FoundFrom(stream, commits, e) && ExpectedID(commits, e, now);
    }
  }

  /** More projections are missing than attempts can be made. */
  ghost predicate TooFew(commits: map<ObjectID, Recovered>, es: seq<Entry>, outs: seq<Outcome>, now: nat) {
    exists missing: set<EventID> :: |missing| > |outs| &&
      forall e {:trigger e in missing} :: e in missing ==> !FoundFrom(es, commits, e) && ExpectedID(commits, e, now)
  }

  /** Every projection of every commit is in the stream. */
  ghost predicate AllThere(commits: map<ObjectID, Recovered>, es: seq<Entry>, now: nat) {
    forall id {:trigger commits[id]} :: id in commits ==>
      var ms := ExpectedProjectionMsgs(commits[id].state, commits[id].m.data, now);
      ms.Ok? && forall m {:trigger m in ms.value} :: m in ms.value ==> m.data.e in IDsOf(es)
  }

  lemma ExpectedThere(commits: map<ObjectID, Recovered>, expected: map<EventID, Msg>, now: nat)
    requires Expects(commits, commits.Keys, expected, now)
    ensures !Underivable(commits, now)
    ensures forall es :: expected.Keys <= IDsOf(es) ==> AllThere(commits, es, now)
  {
    hide ExpectedProjectionMsgs, IDsOf;
  }

  lemma RepairsNothing(commits: map<ObjectID, Recovered>, es: seq<Entry>, now: nat)
    requires Increasing(es) && forall e {:trigger e in es} :: e in es ==> e.at > 0
    ensures Repairs(commits, es, es, now)
  {}

  lemma RepairsSome(commits: map<ObjectID, Recovered>, expected: map<EventID, Msg>, found: set<EventID>,
                    before: seq<Entry>, after: seq<Entry>, now: nat)
    requires Increasing(after) && (forall e {:trigger e in after} :: e in after ==> e.at > 0) && Filled(expected, found, before, after)
    requires forall k :: |before| <= k < |after| ==> ExpectedBy(commits, commits.Keys, after[k].m, now)
    ensures Repairs(commits, before, after, now)
  {
    hide ExpectedBy;
  }

  /** The message was expected and not found. */
  predicate Missed(expected: map<EventID, Msg>, found: set<EventID>, m: Msg) {
    m.data.e in expected && m.data.e !in found && m == expected[m.data.e]
  }

  /** The stream has only grown, by messages that were expected and not found. */
  predicate Filled(expected: map<EventID, Msg>, found: set<EventID>, before: seq<Entry>, after: seq<Entry>) {
    && |after| >= |before| && after[..|before|] == before
    && forall j {:trigger after[j]} :: |before| <= j < |after| ==> Missed(expected, found, after[j].m)
  }

  lemma FilledNone(expected: map<EventID, Msg>, found: set<EventID>, es: seq<Entry>)
    ensures Filled(expected, found, es, es)
  {}

  lemma FilledMore(expected: map<EventID, Msg>, found: set<EventID>, before: seq<Entry>, was: seq<Entry>, after: seq<Entry>, e: EventID)
    requires Filled(expected, found, before, was) && e in expected && e !in found && expected[e].data.e == e
    requires after == was || exists at :: after == was + [Entry(at, expected[e])]
    ensures Filled(expected, found, before, after) && IDsOf(was) <= IDsOf(after)
  {
    IDsGrow(was, after);
  }

  /** The projections that should be there, and where the scan has to start. */
  method CollectExpected(commits: map<ObjectID, Recovered>, now: nat)
    returns (ok: bool, expected: map<EventID, Msg>, startSeq: nat)
    ensures ok ==> Expects(commits, commits.Keys, expected, now) && StartsBelow(commits, commits.Keys, startSeq, now)
    ensures !ok ==> Underivable(commits, now)
  {
    expected, startSeq := map[], 0;
    var todo := commits.Keys;
    while todo != {}
      invariant todo <= commits.Keys
      invariant Expects(commits, commits.Keys - todo, expected, now)
      invariant StartsBelow(commits, commits.Keys - todo, startSeq, now)
      decreases |todo|
    {
      var id :| id in todo;
      var commit := commits[id];
      ghost var done, before := commits.Keys - todo, expected;
      todo := todo - {id};
      assert commits.Keys - todo == done + {id};
      var projections := ExpectedProjectionMsgs(commit.state, commit.m.data, now);
      if projections.Err? { return false, expected, startSeq; }
      if projections.value != [] {
        if startSeq == 0 || commit.at + 1 < startSeq { startSeq := commit.at + 1; }
        expected := AddAll(expected, projections.value);
      }
      ExpectsMore(commits, done, id, before, expected, now);
    }
    assert commits.Keys - {} == commits.Keys;
    return true, expected, startSeq;
  }

  lemma {:induction false} LastAt(ms: seq<Msg>, subject: Subject, k: nat)
    requires k < |ms| && ms[k].subject == subject && forall j :: k < j < |ms| ==> ms[j].subject != subject
    ensures LastOnSubject(ms, subject) == Some(ms[k])
    decreases |ms|
  {
    if k < |ms| - 1 { LastAt(ms[..|ms| - 1], subject, k); }
  }

  lemma {:induction false} NoneOn(ms: seq<Msg>, subject: Subject)
    requires forall j :: 0 <= j < |ms| ==> ms[j].subject != subject
    ensures LastOnSubject(ms, subject) == None
    decreases |ms|
  {
    if ms != [] { NoneOn(ms[..|ms| - 1], subject); }
  }

  function AddAll(expected: map<EventID, Msg>, ms: seq<Msg>): (r: map<EventID, Msg>)
    ensures forall e :: e in expected ==> e in r
    ensures forall m :: m in ms ==> m.data.e in r
    ensures forall e {:trigger r[e]} :: e in r ==> (e in expected && r[e] == expected[e]) || (r[e] in ms && r[e].data.e == e)
    decreases |ms|
  {
    if ms == [] then expected else AddAll(expected[ms[0].data.e := ms[0]], ms[1..])
  }

  lemma ExpectsMore(commits: map<ObjectID, Recovered>, done: set<ObjectID>, id: ObjectID, before: map<EventID, Msg>,
                    after: map<EventID, Msg>, now: nat)
    requires Expects(commits, done, before, now) && id in commits
    requires ExpectedProjectionMsgs(commits[id].state, commits[id].m.data, now).Ok?
    requires var ms := ExpectedProjectionMsgs(commits[id].state, commits[id].m.data, now).value;
             && (forall e :: e in before ==> e in after) && (forall m :: m in ms ==> m.data.e in after)
             && forall e {:trigger after[e]} :: e in after ==> (e in before && after[e] == before[e]) || (after[e] in ms && after[e].data.e == e)
    ensures Expects(commits, done + {id}, after, now)
  {
    hide ExpectedProjectionMsgs;
    forall e | e in after ensures after[e].data.e == e && ExpectedBy(commits, done + {id}, after[e], now) {
      if e in before && after[e] == before[e] {
        var x :| x in done && x in commits && ExpectedProjectionMsgs(commits[x].state, commits[x].m.data, now).Ok?
                 && before[e] in ExpectedProjectionMsgs(commits[x].state, commits[x].m.data, now).value;
        assert x in done + {id};
      } else {
        assert id in done + {id};
      }
    }
  }

  /** The scan starts no later than right after any commit that should have projections. */
  ghost predicate StartsBelow(commits: map<ObjectID, Recovered>, ids: set<ObjectID>, startSeq: nat, now: nat) {
    forall id {:trigger commits[id]} :: id in ids && id in commits ==>
      var ms := ExpectedProjectionMsgs(commits[id].state, commits[id].m.data, now);
      ms.Ok? && (ms.value != [] ==> 0 < startSeq <= commits[id].at + 1)
  }

  predicate FoundIn(es: seq<Entry>, startSeq: nat, e: EventID) {
    exists i :: 0 <= i < |es| && es[i].at >= startSeq && es[i].m.subject.IsGeofence() && es[i].m.data.e == e
  }

  /** The event is stored after every commit that should have projections. */
  ghost predicate FoundFrom(es: seq<Entry>, commits: map<ObjectID, Recovered>, e: EventID) {
    exists i :: 0 <= i < |es| && es[i].m.subject.IsGeofence() && es[i].m.data.e == e
                && forall id :: id in commits ==> es[i].at > commits[id].at
  }

  lemma IDsGrow(was: seq<Entry>, es: seq<Entry>)
    requires |es| >= |was| && es[..|was|] == was
    ensures IDsOf(was) <= IDsOf(es)
  {
    forall e | e in IDsOf(was) ensures e in IDsOf(es) {
      var x :| x in was && x.m.data.e == e;
      assert x in es[..|was|];
    }
  }

  lemma FoundAreThere(es: seq<Entry>, expected: map<EventID, Msg>, found: set<EventID>, startSeq: nat)
    requires forall e {:trigger e in found} :: e in found <==> e in expected && FoundIn(es, startSeq, e)
    ensures found <= IDsOf(es) && found <= expected.Keys
  {
    forall e | e in found ensures e in IDsOf(es) {
      var i :| 0 <= i < |es| && es[i].at >= startSeq && es[i].m.subject.IsGeofence() && es[i].m.data.e == e;
      assert es[i] in es;
    }
  }

  lemma Appended(commits: map<ObjectID, Recovered>, expected: map<EventID, Msg>, found: set<EventID>, startSeq: nat,
                 stream: seq<Entry>, es: seq<Entry>, now: nat)
    requires Expects(commits, commits.Keys, expected, now) && StartsBelow(commits, commits.Keys, startSeq, now)
    requires forall e {:trigger e in found} :: e in found <==> e in expected && FoundIn(stream, startSeq, e)
    requires Filled(expected, found, stream, es)
    ensures forall k :: |stream| <= k < |es| ==>
              ExpectedBy(commits, commits.Keys, es[k].m, now) && !FoundFrom(stream, commits, es[k].m.data.e)
  {
    hide ExpectedProjectionMsgs;
    forall k | |stream| <= k < |es| ensures ExpectedBy(commits, commits.Keys, es[k].m, now) && !FoundFrom(stream, commits, es[k].m.data.e) {
      var e := es[k].m.data.e;
      assert ExpectedBy(commits, commits.Keys, expected[e], now);
      var id :| id in commits.Keys && id in commits && ExpectedProjectionMsgs(commits[id].state, commits[id].m.data, now).Ok?
                && expected[e] in ExpectedProjectionMsgs(commits[id].state, commits[id].m.data, now).value;
      assert startSeq <= commits[id].at + 1;
      assert FoundFrom(stream, commits, e) ==> FoundIn(stream, startSeq, e);
    }
  }

  // ---- a repaired stream can be booted from -------------------------------------------------------------

  lemma {:induction false} InLogView(log: seq<Msg>, m: Msg, id: ObjectID)
    ensures m in LogView(log, id) <==> m in log && About(m, id)
  {
    if log != [] {
      var n := |log| - 1;
      assert log == log[..n] + [log[n]];
      InLogView(log[..n], m, id);
    }
  }

  /** Entries written by this service: each object's part as its machine keeps it, and boot notices. */
  ghost predicate Sane(es: seq<Entry>) {
    && WellFormed(es)
    && (forall x {:trigger LogView(Msgs(es), x)} :: LogOK(x, LogView(Msgs(es), x)))
    && (forall e {:trigger e in es} :: e in es && e.m.subject.GeoTruthBooted? ==> e.m.data.e.BootedID?)
  }

  /** An event id of a projection of the object is found only in the object's own part. */
  lemma OwnID(es: seq<Entry>, id: ObjectID, p: Msg)
    requires Sane(es) && GeofenceMsgOK(id, p) && p.data.e in IDsOf(es)
    ensures p.data.e in IDs(LogView(Msgs(es), id))
  {
    hide IsCommit, RepairKnown, StateOf;
    var en :| en in es && en.m.data.e == p.data.e;
    var i :| 0 <= i < |es| && es[i] == en;
    var m := en.m;
    assert Msgs(es)[i] == m;
    assert !m.subject.GeoTruthBooted?;
    var x := m.subject.o;
    InLogView(Msgs(es), m, x);
    assert LogOK(x, LogView(Msgs(es), x));
    assert MsgOK(x, m);
    InLogView(Msgs(es), m, id);
  }

  lemma NoNewCommit(more: seq<Entry>, id: ObjectID)
    requires forall k :: 0 <= k < |more| ==> !more[k].m.subject.IsCommit()
    ensures LatestOf(more, id).None?
  {}

  lemma {:induction false} LogViewConcat(a: seq<Msg>, b: seq<Msg>, id: ObjectID)
    ensures LogView(a + b, id) == LogView(a, id) + LogView(b, id)
    decreases |b|
  {
    if b == [] {
      assert a + b == a;
    } else {
      var n := |b| - 1;
      assert a + b == (a + b[..n]) + [b[n]] && b == b[..n] + [b[n]];
      LogViewSnoc(a + b[..n], b[n], id);
      LogViewSnoc(b[..n], b[n], id);
      LogViewConcat(a, b[..n], id);
    }
  }

  /** A rebuilt projection carries no checkpoint. */
  lemma ExpectedBare(st: StateRecord, data: Payload, now: nat, m: Msg)
    requires ExpectedProjectionMsgs(st, data, now).Ok? && m in ExpectedProjectionMsgs(st, data, now).value
    ensures m.data.cp.None?
  {}

  /** The stream is only extended by projections of the recovered commits, as `RepairLatestProjections`
      promises. */
  ghost predicate Repairs(commits: map<ObjectID, Recovered>, before: seq<Entry>, after: seq<Entry>, now: nat) {
    && |after| >= |before| && after[..|before|] == before
    && Increasing(after) && (forall e {:trigger e in after} :: e in after ==> e.at > 0)
    && forall k {:trigger after[k]} :: |before| <= k < |after| ==> ExpectedBy(commits, commits.Keys, after[k].m, now)
  }

  /** Which object an added message is about. */
  lemma AddedIsProjection(before: seq<Entry>, delivered: seq<Entry>, commits: map<ObjectID, Recovered>, m: Msg, now: nat)
    returns (id: ObjectID)
    requires Sane(before) && Delivers(before, delivered) && Picks(delivered, commits)
    requires ExpectedBy(commits, commits.Keys, m, now)
    ensures GeofenceMsgOK(id, m) && WellFormedMsg(m)
  {
    hide ExpectedProjectionMsgs, StateOf, IsLastOfSubject, Delivers, Picks;
    id :| id in commits && ExpectedProjectionMsgs(commits[id].state, commits[id].m.data, now).Ok?
          && m in ExpectedProjectionMsgs(commits[id].state, commits[id].m.data, now).value;
    var c := commits[id].m;
    RecoveryPicksLatest(before, delivered, commits, id);
    LatestIsLastCommit(before, id);
    var log := LogView(Msgs(before), id);
    assert LastCommit(log) == Some(c);
    assert LogOK(id, log);
    assert MsgOK(id, c);
    assert RepairYields(c, now);
    ExpectedBare(commits[id].state, c.data, now, m);
  }

  /** Repair keeps the stream sane. */
  lemma RepairedIsSane(before: seq<Entry>, delivered: seq<Entry>, commits: map<ObjectID, Recovered>, after: seq<Entry>, now: nat)
    requires Sane(before) && Delivers(before, delivered) && Picks(delivered, commits) && Repairs(commits, before, after, now)
    ensures Sane(after) && forall k :: |before| <= k < |after| ==> !after[k].m.subject.IsCommit()
  {
    hide Delivers, Picks, ExpectedBy, LogOK, Increasing, WellFormedMsg, GeofenceMsgOK;
    forall k | |before| <= k < |after| ensures WellFormedMsg(after[k].m) && after[k].m.subject.IsGeofence() {
      var x := AddedIsProjection(before, delivered, commits, after[k].m, now);
      GeofenceSubject(x, after[k].m);
    }
    forall k | 0 <= k < |before| ensures WellFormedMsg(after[k].m) && (after[k].m.subject.GeoTruthBooted? ==> after[k].m.data.e.BootedID?) {
      assert after[k] == before[k] && before[k] in before;
    }
    forall x ensures LogOK(x, LogView(Msgs(after), x)) { RepairedLogOK(before, delivered, commits, after, now, x); }
    assert WellFormed(after) by { assert forall i :: 0 <= i < |after| ==> after[i] in after; }
  }

  lemma GeofenceSubject(id: ObjectID, m: Msg)
    requires GeofenceMsgOK(id, m)
    ensures m.subject.IsGeofence() && m.subject.o == id
  {}

  lemma RepairedLogOK(before: seq<Entry>, delivered: seq<Entry>, commits: map<ObjectID, Recovered>, after: seq<Entry>, now: nat,
                      x: ObjectID)
    requires Sane(before) && Delivers(before, delivered) && Picks(delivered, commits) && Repairs(commits, before, after, now)
    ensures LogOK(x, LogView(Msgs(after), x))
  {
    hide Delivers, Picks, ExpectedBy, GeofenceMsgOK, WellFormed, CommitMsgOK;
    var more := Msgs(after[|before|..]);
    assert Msgs(after) == Msgs(before) + more;
    LogViewConcat(Msgs(before), more, x);
    forall m | m in LogView(Msgs(after), x) ensures MsgOK(x, m) {
      if m in LogView(Msgs(before), x) {
        assert LogOK(x, LogView(Msgs(before), x));
      } else {
        InLogView(more, m, x);
        var k :| 0 <= k < |more| && more[k] == m;
        assert m == after[|before| + k].m;
        var id := AddedIsProjection(before, delivered, commits, m, now);
        GeofenceSubject(id, m);
      }
    }
  }

  /** After a successful repair of what recovery found the object can be booted: the projections of its latest
      commit are in its own log. */
  lemma RepairOpensBoot(before: seq<Entry>, delivered: seq<Entry>, commits: map<ObjectID, Recovered>, after: seq<Entry>,
                        now: nat, id: ObjectID)
    requires Sane(before) && Delivers(before, delivered) && Picks(delivered, commits) && Repairs(commits, before, after, now)
    requires id in commits ==>
               var ms := ExpectedProjectionMsgs(commits[id].state, commits[id].m.data, now);
               ms.Ok? && forall m {:trigger m in ms.value} :: m in ms.value ==> m.data.e in IDsOf(after)
    ensures Repaired(LogView(Msgs(after), id))
  {
    hide ExpectedProjectionMsgs, StateOf, IsLastOfSubject, ExpectedBy;
    RepairedIsSane(before, delivered, commits, after, now);
    var more, log := after[|before|..], LogView(Msgs(after), id);
    assert after == before + more;
    NoNewCommit(more, id);
    LatestConcat(before, more, id);
    LatestIsLastCommit(after, id);
    RecoveryPicksLatest(before, delivered, commits, id);
    if LastCommit(log).Some? {
      var c := LastCommit(log).value;
      assert MsgOK(id, c);
      AllFound(after, id, c, now);
    }
  }

  lemma AllFound(es: seq<Entry>, id: ObjectID, c: Msg, now: nat)
    requires Sane(es) && IsCommit(c) && CommitMsgOK(id, c)
    requires var ms := ExpectedProjectionMsgs(StateOf(c).value, c.data, now);
             ms.Ok? && forall m {:trigger m in ms.value} :: m in ms.value ==> m.data.e in IDsOf(es)
    ensures Complete(LogView(Msgs(es), id), StateOf(c).value)
  {
    hide ExpectedProjectionMsgs, StateOf;
    assert RepairYields(c, now);
    var st := StateOf(c).value;
    var ms := ExpectedProjectionMsgs(st, c.data, now).value;
    forall e | e in ExpectedIDs(st) ensures e in IDs(LogView(Msgs(es), id)) {
      assert e in IDs(ms);
      var p :| p in ms && p.data.e == e;
      OwnID(es, id, p);
    }
  }
}
