/** The part of the GT_EVENTS stream that belongs to one object, in stream order: its messages with
    repeats dropped, its distinct commits, and which commits have all their projections. */
module EventLog {
  import opened Domain
  import opened Events

  function IDs(ms: seq<Msg>): set<EventID> { set m | m in ms :: m.data.e }

  lemma IDsConcat(a: seq<Msg>, b: seq<Msg>)
    ensures IDs(a + b) == IDs(a) + IDs(b)
  {
    forall e ensures e in IDs(a + b) <==> e in IDs(a) || e in IDs(b) {
      assert forall m :: m in a + b <==> m in a || m in b;
    }
  }

  // ---- repeats dropped ------------------------------------------------------------------------

  /** The first occurrence of every event id. */
  function Dedup(ms: seq<Msg>): seq<Msg> {
    if ms == [] then []
    else
      var front, m := Dedup(ms[..|ms| - 1]), ms[|ms| - 1];
      if m.data.e in IDs(front) then front else front + [m]
  }

  lemma DedupSnoc(ms: seq<Msg>, m: Msg)
    ensures Dedup(ms + [m]) == if m.data.e in IDs(Dedup(ms)) then Dedup(ms) else Dedup(ms) + [m]
  {
    assert (ms + [m])[..|ms|] == ms;
  }

  lemma {:induction false} DedupIDs(ms: seq<Msg>)
    ensures IDs(Dedup(ms)) == IDs(ms)
  {
    if ms != [] {
      var front, m := ms[..|ms| - 1], ms[|ms| - 1];
      DedupIDs(front);
      assert ms == front + [m];
      IDsConcat(front, [m]);
      IDsConcat(Dedup(front), [m]);
    }
  }

  /** Appending the same message keeps two deduplicated logs equal. */
  lemma DedupAppend(a: seq<Msg>, b: seq<Msg>, m: Msg)
    requires Dedup(a) == Dedup(b)
    ensures Dedup(a + [m]) == Dedup(b + [m])
  {
    DedupSnoc(a, m);
    DedupSnoc(b, m);
  }

  /** A message whose id is already there changes nothing. */
  lemma DedupRepeat(ms: seq<Msg>, m: Msg)
    requires m.data.e in IDs(ms)
    ensures Dedup(ms + [m]) == Dedup(ms)
  {
    DedupSnoc(ms, m);
    DedupIDs(ms);
  }

  lemma {:induction false} DedupConcat(a: seq<Msg>, b: seq<Msg>)
    requires IDs(a) !! IDs(b)
    ensures Dedup(a + b) == Dedup(a) + Dedup(b)
    decreases |b|
  {
    if b == [] {
      assert a + b == a;
    } else {
      var front, m := b[..|b| - 1], b[|b| - 1];
      assert b == front + [m] && a + b == (a + front) + [m];
      IDsConcat(front, [m]);
      assert m in [m];
      DedupConcat(a, front);
      DedupSnoc(a + front, m);
      DedupIDs(a);
      IDsConcat(Dedup(a), Dedup(front));
    }
  }

  ghost predicate DistinctIDs(ms: seq<Msg>) {
    forall i, j :: 0 <= i < j < |ms| ==> ms[i].data.e != ms[j].data.e
  }

  lemma {:induction false} DedupDistinct(ms: seq<Msg>)
    requires DistinctIDs(ms)
    ensures Dedup(ms) == ms
    decreases |ms|
  {
    if ms != [] {
      var front, m := ms[..|ms| - 1], ms[|ms| - 1];
      DedupDistinct(front);
      assert ms == front + [m];
    }
  }

  // ---- commits --------------------------------------------------------------------------------

  /** The recovery view of a message, if it is a commit. */
  function StateOf(m: Msg): Option<StateRecord> {
    if m.subject.IsCommit() then
      match CheckpointStateFromPublicEvent(m.data)
      case Ok(st) => st
      case Err => None
    else None
  }

  predicate IsCommit(m: Msg) { StateOf(m).Some? }

  /** The latest commit: what last-per-subject delivery and the highest sequence pick. */
  function LastCommit(ms: seq<Msg>): (c: Option<Msg>)
    ensures c.Some? ==> c.value in ms && IsCommit(c.value)
    ensures c.None? ==> forall m :: m in ms ==> !IsCommit(m)
  {
    if ms == [] then None
    else if IsCommit(ms[|ms| - 1]) then Some(ms[|ms| - 1])
    else LastCommit(ms[..|ms| - 1])
  }

  lemma LastCommitSnoc(ms: seq<Msg>, m: Msg)
    ensures LastCommit(ms + [m]) == if IsCommit(m) then Some(m) else LastCommit(ms)
  {
    assert (ms + [m])[..|ms|] == ms;
  }

  /** The states of the distinct commits, oldest first. */
  function Commits(ms: seq<Msg>): seq<StateRecord> {
    if ms == [] then []
    else
      var front, m := ms[..|ms| - 1], ms[|ms| - 1];
      if IsCommit(m) && m.data.e !in CommitIDs(front) then Commits(front) + [StateOf(m).value]
      else Commits(front)
  }

  function CommitIDs(ms: seq<Msg>): set<EventID> { set m | m in ms && IsCommit(m) :: m.data.e }

  lemma CommitsSnoc(ms: seq<Msg>, m: Msg)
    ensures Commits(ms + [m]) ==
            if IsCommit(m) && m.data.e !in CommitIDs(ms) then Commits(ms) + [StateOf(m).value] else Commits(ms)
    ensures CommitIDs(ms + [m]) == CommitIDs(ms) + if IsCommit(m) then {m.data.e} else {}
  {
    assert (ms + [m])[..|ms|] == ms;
    assert forall x :: x in ms + [m] <==> x in ms || x == m;
  }

  // ---- projections ----------------------------------------------------------------------------

  function ExpectedIDs(st: StateRecord): set<EventID> {
    set k | 0 <= k < |st.transitions| :: TransitionID(st.transitions[k], st.objectID, st.instanceID, st.commitSeq)
  }

  /** Every projection of the commit is in the log. */
  ghost predicate Complete(ms: seq<Msg>, st: StateRecord) {
    ExpectedIDs(st) <= IDs(ms)
  }

  lemma CompleteMonotone(ms: seq<Msg>, more: seq<Msg>, st: StateRecord)
    requires Complete(ms, st)
    ensures Complete(ms + more, st)
  {
    IDsConcat(ms, more);
  }

  function LastOnSubject(ms: seq<Msg>, subject: Subject): Option<Msg> {
    if ms == [] then None
    else if ms[|ms| - 1].subject == subject then Some(ms[|ms| - 1])
    else LastOnSubject(ms[..|ms| - 1], subject)
  }

  lemma {:induction false} LastOnSubjectIn(ms: seq<Msg>, subject: Subject)
    requires LastOnSubject(ms, subject).Some?
    ensures LastOnSubject(ms, subject).value in ms
  {
    if ms[|ms| - 1].subject != subject { LastOnSubjectIn(ms[..|ms| - 1], subject); }
  }

  /** Message i is the last one of its subject. */
  predicate IsLastOf(ms: seq<Msg>, i: int) {
    0 <= i < |ms| && forall j :: i < j < |ms| ==> ms[j].subject != ms[i].subject
  }

  lemma {:induction false} LastOnSubjectExactly(ms: seq<Msg>, m: Msg, subject: Subject)
    ensures LastOnSubject(ms, subject) == Some(m) <==> exists i :: IsLastOf(ms, i) && ms[i] == m && m.subject == subject
  {
    if ms != [] {
      var front, n := ms[..|ms| - 1], |ms| - 1;
      LastOnSubjectExactly(front, m, subject);
      if ms[n].subject == subject {
        assert IsLastOf(ms, n);
      } else {
        if i :| IsLastOf(front, i) && front[i] == m && m.subject == subject { assert IsLastOf(ms, i); }
        if i :| IsLastOf(ms, i) && ms[i] == m && m.subject == subject { assert IsLastOf(front, i); }
      }
    }
  }

  // ---- one object's part of the shared stream -------------------------------------------------

  predicate About(m: Msg, id: ObjectID) { !m.subject.GeoTruthBooted? && m.subject.o == id }

  /** The object's part of the stream. */
  function LogView(log: seq<Msg>, id: ObjectID): seq<Msg> {
    if log == [] then []
    else
      var m := log[|log| - 1];
      LogView(log[..|log| - 1], id) + if About(m, id) then [m] else []
  }

  lemma LogViewSnoc(log: seq<Msg>, m: Msg, id: ObjectID)
    ensures LogView(log + [m], id) == LogView(log, id) + if About(m, id) then [m] else []
  {
    assert (log + [m])[..|log|] == log;
  }
}
