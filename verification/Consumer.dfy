/** The subscription bookkeeping of the multiplexing consumer (pkg/natsconsumer/consumer.go):
    the minimal filter set sent to the server, and the reference counts, entries and trie that
    Subscribe, unsubscribe and a reset keep in step. */
module Consumer {
  import opened Subjects
  import opened SubjectTrie

  // ---- filter minimisation ----------------------------------------------------------------

  ghost predicate AllValid(patterns: set<string>) {
    forall p :: p in patterns ==> IsValidPattern(p)
  }

  /** No other pattern of the set is at least as broad. */
  ghost predicate IsMaximal(patterns: set<string>, p: string) {
    p in patterns && forall o :: o in patterns && o != p ==> !PatternCovers(o, p)
  }

  ghost predicate MatchedByAny(patterns: set<string>, s: string) {
    exists p :: p in patterns && SubjectMatch(p, s)
  }

  lemma CoversTransitive(p: string, q: string, r: string)
    requires PatternCovers(p, q) && PatternCovers(q, r)
    ensures PatternCovers(p, r)
  {
    ContainsTransitive(Tokenize(p), Tokenize(q), Tokenize(r));
  }

  lemma CoversAntisymmetric(p: string, q: string)
    requires IsValidPattern(p) && IsValidPattern(q)
    requires PatternCovers(p, q) && PatternCovers(q, p)
    ensures p == q
  {
    ContainsAntisymmetric(Tokenize(p), Tokenize(q));
    assert Join(Tokenize(p)) == Join(Tokenize(q));
  }

  /** Every pattern lies under a maximal one; this is where the order has to be partial. */
  lemma {:induction false} MaximalAbove(patterns: set<string>, p: string) returns (m: string)
    requires AllValid(patterns) && p in patterns
    ensures IsMaximal(patterns, m) && PatternCovers(m, p)
    decreases patterns
  {
    if IsMaximal(patterns, p) {
      m := p;
      ContainsReflexive(Tokenize(p));
    } else {
      var o :| o in patterns && o != p && PatternCovers(o, p);
      m := MaximalAbove(patterns - {p}, o);
      CoversTransitive(m, o, p);
      if PatternCovers(p, m) {
        CoversTransitive(p, m, o);
        CoversAntisymmetric(p, o);
      }
    }
  }

  /** Main result on filters: keeping only the maximal patterns changes no delivery. */
  lemma MaximalFiltersDeliverTheSame(patterns: set<string>, s: string)
    requires AllValid(patterns)
    ensures MatchedByAny((set p | p in patterns && IsMaximal(patterns, p)), s) <==> MatchedByAny(patterns, s)
  {
    var kept := set p | p in patterns && IsMaximal(patterns, p);
    if MatchedByAny(patterns, s) {
      var p :| p in patterns && SubjectMatch(p, s);
      var m := MaximalAbove(patterns, p);
      ContainsIsSound(Tokenize(m), Tokenize(p), Tokenize(s));
      assert m in kept;
    }
  }

  predicate NoRepeats(s: seq<string>) {
    forall i, j :: 0 <= i < j < |s| ==> s[i] != s[j]
  }

  ghost function Elements(s: seq<string>): set<string> { set p | p in s }

  lemma MaximalFiltersSuffice(subjects: seq<string>, result: seq<string>)
    requires AllValid(Elements(subjects))
    requires forall p :: p in result <==> IsMaximal(Elements(subjects), p)
    ensures forall p, q :: p in result && q in result && p != q ==> !Includes(p, q)
    ensures forall s :: MatchedByAny(Elements(result), s) <==> MatchedByAny(Elements(subjects), s)
  {
    assert Elements(result) == set p | p in Elements(subjects) && IsMaximal(Elements(subjects), p);
    forall s ensures MatchedByAny(Elements(result), s) <==> MatchedByAny(Elements(subjects), s) {
      MaximalFiltersDeliverTheSame(Elements(subjects), s);
    }
    forall p, q | p in result && q in result && p != q ensures !Includes(p, q) {
      ContainmentIsInclusion(p, q);
      assert IsMaximal(Elements(subjects), q);
    }
  }

  /** The nested scan over the referenced subjects, in whatever order the map gave them. */
  method FilterSubjects(subjects: seq<string>) returns (result: seq<string>)
    requires NoRepeats(subjects) && AllValid(Elements(subjects))
    ensures NoRepeats(result)
    ensures forall p :: p in result <==> IsMaximal(Elements(subjects), p)
    ensures forall p, q :: p in result && q in result && p != q ==> !Includes(p, q)
    ensures forall s :: MatchedByAny(Elements(result), s) <==> MatchedByAny(Elements(subjects), s)
  {
    result := [];
    var i := 0;
    while i < |subjects|
      invariant 0 <= i <= |subjects|
      invariant NoRepeats(result)
      invariant forall p :: p in result <==> p in subjects[..i] && IsMaximal(Elements(subjects), p)
    {
      var subj := subjects[i];
      var covered := false;
      var j := 0;
      while j < |subjects| && !covered
        invariant 0 <= j <= |subjects|
        invariant covered ==> exists o :: o in Elements(subjects) && o != subj && PatternCovers(o, subj)
        invariant !covered ==> forall k :: 0 <= k < j && subjects[k] != subj ==> !PatternCovers(subjects[k], subj)
      {
        var other := subjects[j];
        if subj != other {
          covered := PatternContains(other, subj);
          assert other in Elements(subjects);
        }
        j := j + 1;
      }
      assert subjects[..i + 1] == subjects[..i] + [subj];
      assert subj !in subjects[..i];
      if !covered {
        result := result + [subj];
      }
      i := i + 1;
    }
    assert subjects[..i] == subjects;
    MaximalFiltersSuffice(subjects, result);
  }

  // ---- reference counts -------------------------------------------------------------------

  /** How many subscriptions name this subject. */
  ghost function Subscribers(subs: map<nat, string>, subject: string): set<nat> {
    set id | id in subs && subs[id] == subject
  }

  ghost predicate CountRight(refs: map<string, nat>, subs: map<nat, string>, subject: string) {
    var n := |Subscribers(subs, subject)|;
    if subject in refs then refs[subject] == n > 0 else n == 0
  }

  ghost predicate CountsRight(refs: map<string, nat>, subs: map<nat, string>) {
    forall subject {:trigger CountRight(refs, subs, subject)} :: CountRight(refs, subs, subject)
  }

  function Bumped(refs: map<string, nat>, subject: string): map<string, nat> {
    refs[subject := if subject in refs then refs[subject] + 1 else 1]
  }

  function Dropped(refs: map<string, nat>, subject: string): map<string, nat>
    requires subject in refs && refs[subject] > 0
  {
    var n := refs[subject] - 1;
    if n == 0 then refs - {subject} else refs[subject := n]
  }

  lemma SubscribersAfterAdd(subs: map<nat, string>, id: nat, subject: string, s: string)
    requires id !in subs
    ensures |Subscribers(subs[id := subject], s)| == |Subscribers(subs, s)| + if s == subject then 1 else 0
  {
    var was, now := Subscribers(subs, s), Subscribers(subs[id := subject], s);
    assert now == if s == subject then was + {id} else was;
  }

  lemma SubscribersAfterDrop(subs: map<nat, string>, id: nat, s: string)
    requires id in subs
    ensures |Subscribers(subs - {id}, s)| == |Subscribers(subs, s)| - if s == subs[id] then 1 else 0
  {
    var was, now := Subscribers(subs, s), Subscribers(subs - {id}, s);
    assert now == if s == subs[id] then was - {id} else was;
  }

  lemma CountsAfterAdd(refs: map<string, nat>, subs: map<nat, string>, id: nat, subject: string)
    requires CountsRight(refs, subs) && id !in subs
    ensures CountsRight(Bumped(refs, subject), subs[id := subject])
  {
    var subs' := subs[id := subject];
    forall s ensures CountRight(Bumped(refs, subject), subs', s) {
      assert CountRight(refs, subs, s);
      SubscribersAfterAdd(subs, id, subject, s);
    }
  }

  lemma CountsAfterDrop(refs: map<string, nat>, subs: map<nat, string>, id: nat)
    requires CountsRight(refs, subs) && id in subs
    ensures subs[id] in refs && refs[subs[id]] > 0
    ensures CountsRight(Dropped(refs, subs[id]), subs - {id})
  {
    var subject := subs[id];
    var subs' := subs - {id};
    assert CountRight(refs, subs, subject) && id in Subscribers(subs, subject);
    forall s ensures CountRight(Dropped(refs, subject), subs', s) {
      assert CountRight(refs, subs, s);
      SubscribersAfterDrop(subs, id, s);
    }
  }

  lemma ReferencedExactly(refs: map<string, nat>, subs: map<nat, string>, subject: string)
    requires CountsRight(refs, subs)
    ensures subject in refs <==> exists id :: id in subs && subs[id] == subject
  {
    assert CountRight(refs, subs, subject);
    assert forall id :: id in Subscribers(subs, subject) <==> id in subs && subs[id] == subject;
    if subject in refs {
      var id :| id in Subscribers(subs, subject);
    }
  }

  /** The entry table and the trie know the same subscriptions. */
  ghost predicate Agree(subs: map<nat, string>, entries: map<nat, SubEntry>, live: map<nat, Subscription>, nextID: nat) {
    && subs.Keys == entries.Keys == live.Keys
    && forall id {:trigger AgreeOn(subs, entries, live, nextID, id)} :: id in subs ==> AgreeOn(subs, entries, live, nextID, id)
  }

  ghost predicate AgreeOn(subs: map<nat, string>, entries: map<nat, SubEntry>, live: map<nat, Subscription>, nextID: nat, id: nat)
    requires id in subs && id in entries && id in live
  {
    && id < nextID && IsValidPattern(subs[id]) && entries[id].id == id
    && live[id] == Subscription(Tokenize(subs[id]), entries[id])
  }

  lemma AgreeAfterAdd(subs: map<nat, string>, entries: map<nat, SubEntry>, live: map<nat, Subscription>, nextID: nat,
                      subject: string, e: SubEntry)
    requires Agree(subs, entries, live, nextID) && e.id == nextID && IsValidPattern(subject)
    ensures nextID !in subs
    ensures Agree(subs[e.id := subject], entries[e.id := e],
                  live[e.id := Subscription(Tokenize(subject), e)], nextID + 1)
  {
    assert nextID in subs ==> AgreeOn(subs, entries, live, nextID, nextID);
    var subs', entries', live' :=
      subs[e.id := subject], entries[e.id := e], live[e.id := Subscription(Tokenize(subject), e)];
    forall id | id in subs' ensures AgreeOn(subs', entries', live', nextID + 1, id) {
      if id in subs { assert AgreeOn(subs, entries, live, nextID, id); }
    }
  }

  lemma AgreeAfterDrop(subs: map<nat, string>, entries: map<nat, SubEntry>, live: map<nat, Subscription>, nextID: nat, id: nat)
    requires Agree(subs, entries, live, nextID)
    ensures Agree(subs - {id}, entries - {id}, live - {id}, nextID)
  {
    var subs', entries', live' := subs - {id}, entries - {id}, live - {id};
    forall k | k in subs' ensures AgreeOn(subs', entries', live', nextID, k) {
      assert AgreeOn(subs, entries, live, nextID, k);
    }
  }

  /** What the server answers to the request that follows a bookkeeping change. */
  datatype ServerReply = Ok | Missing | OtherError

  lemma AddThenDrop<T>(m: map<nat, T>, id: nat, v: T)
    requires id !in m
    ensures m[id := v] - {id} == m
  {}

  class Mux {
    var trie: SubTrie
    var refs: map<string, nat>
    var entries: map<nat, SubEntry>
    var nextID: nat
    var cons: bool
    var closed: bool
    ghost var subs: map<nat, string>

    /** Without subscriptions the server has no consumer. */
    ghost predicate Valid()
      reads this, trie, trie.at.Values
    {
      && InStep()
      && (cons ==> subs != map[])
    }

    /** The trie, the counts and the entries know the same subscriptions. */
    ghost predicate InStep()
      reads this, trie, trie.at.Values
    {
      && trie.Valid()
      && CountsRight(refs, subs)
      && Agree(subs, entries, trie.live, nextID)
    }

    constructor ()
      ensures Valid() && subs == map[] && !cons && !closed && fresh(trie) && fresh(trie.at.Values)
    {
      trie := new SubTrie();
      refs, entries, nextID, cons, closed, subs := map[], map[], 0, false, false, map[];
    }

    /** Subscribe, up to the start of the dispatch loop: `reply` is the outcome of the server call
        (creating the consumer, or updating its filters), `recovered` that of creating a
        replacement for a consumer the server no longer has. */
    method Subscribe(subject: string, out: nat, durable: bool, reply: ServerReply, recovered: bool)
      returns (ok: bool, id: nat)
      requires Valid()
      modifies this, trie, trie.at.Values
      ensures Valid() && (trie == old(trie) || fresh(trie)) && fresh(trie.at.Values - old(trie.at.Values))
      ensures var go := IsValidPattern(subject) && !old(closed);
              var lost := go && old(cons) && reply == Missing;
              && ok == (go && (reply == Ok || (lost && !durable && recovered)))
              && closed == (old(closed) || (lost && durable))
              && subs == (if ok then old(subs)[id := subject] else if lost then map[] else old(subs))
              && entries == (if ok then old(entries)[id := SubEntry(id, out)] else if lost then map[] else old(entries))
              && cons == (ok || (old(cons) && !lost))
              && nextID == old(nextID) + if go then 1 else 0
      ensures id == old(nextID) && id !in old(subs)
      ensures old(subs) == map[] ==> ok == (IsValidPattern(subject) && !old(closed) && reply == Ok) && closed == old(closed)
    {
      NextIsNew();
      hide InStep, SubTrie.Valid, Agree, CountsRight;
      id := nextID;
      var valid := ValidateSubject(subject);
      if !valid || closed {
        return false, id;
      }
      ok := Enroll(subject, out, durable, reply, recovered);
    }

    /** Subscribe on an open consumer: the entry is added, then the server is told. */
    method Enroll(subject: string, out: nat, durable: bool, reply: ServerReply, recovered: bool) returns (ok: bool)
      requires Valid() && nextID !in subs && nextID !in entries && IsValidPattern(subject)
      modifies this, trie, trie.at.Values
      ensures Valid() && (trie == old(trie) || fresh(trie)) && fresh(trie.at.Values - old(trie.at.Values))
      ensures var lost := old(cons) && reply == Missing;
              && ok == (reply == Ok || (lost && !durable && recovered))
              && closed == (old(closed) || (lost && durable))
              && subs == (if ok then old(subs)[old(nextID) := subject] else if lost then map[] else old(subs))
              && entries == (if ok then old(entries)[old(nextID) := SubEntry(old(nextID), out)] else if lost then map[] else old(entries))
              && cons == (ok || (old(cons) && !lost))
              && nextID == old(nextID) + 1
    {
      hide InStep, SubTrie.Valid, Agree, CountsRight, IsValidPattern;
      ghost var was, had := subs, entries;
      var id := nextID;
      AddEntry(subject, out);
      if !cons {
        ok := CreateConsumer(subject, id, reply, was, had, out);
      } else {
        ok := UpdateFilters(subject, id, durable, reply, recovered, was, had, out);
      }
      assert ok ==> id in subs;
    }

    /** A consumer for the first subscription, which is taken back when the server refuses. */
    method CreateConsumer(subject: string, id: nat, reply: ServerReply,
                          ghost was: map<nat, string>, ghost had: map<nat, SubEntry>, out: nat) returns (ok: bool)
      requires InStep() && !cons && id !in was && id !in had
      requires subs == was[id := subject] && entries == had[id := SubEntry(id, out)]
      modifies this, trie, trie.at.Values
      ensures InStep() && trie == old(trie) && trie.at.Values <= old(trie.at.Values)
      ensures ok == (reply == Ok) && cons == ok && closed == old(closed) && nextID == old(nextID)
      ensures subs == (if ok then old(subs) else was) && entries == (if ok then old(entries) else had)
    {
      hide SubTrie.Valid, Agree, CountsRight;
      if reply != Ok {
        RemoveEntry(subject, id);
        AddThenDrop(was, id, subject);
        AddThenDrop(had, id, SubEntry(id, out));
        return false;
      }
      cons := true;
      return true;
    }

    /** The filters of the consumer the server already has, with what follows when it refuses. */
    method UpdateFilters(subject: string, id: nat, durable: bool, reply: ServerReply, recovered: bool,
                         ghost was: map<nat, string>, ghost had: map<nat, SubEntry>, out: nat) returns (ok: bool)
      requires InStep() && cons && id !in was && was != map[] && id !in had
      requires subs == was[id := subject] && entries == had[id := SubEntry(id, out)]
      modifies this, trie, trie.at.Values
      ensures InStep() && (trie == old(trie) || fresh(trie)) && fresh(trie.at.Values - old(trie.at.Values))
      ensures ok == (reply == Ok || (reply == Missing && !durable && recovered))
      ensures closed == (old(closed) || (reply == Missing && durable)) && nextID == old(nextID)
      ensures subs == (if ok then old(subs) else if reply == Missing then map[] else was)
      ensures entries == (if ok then old(entries) else if reply == Missing then map[] else had)
      ensures cons == (ok || reply != Missing)
    {
      hide SubTrie.Valid, Agree, CountsRight;
      ok := true;
      if reply == Missing {
        if durable {
          Reset();
          closed, ok := true, false;
        } else if !recovered {
          Reset();
          ok := false;
        }
      } else if reply == OtherError {
        RemoveEntry(subject, id);
        AddThenDrop(was, id, subject);
        AddThenDrop(had, id, SubEntry(id, out));
        ok := false;
      }
    }

    lemma NextIsNew()
      requires InStep()
      ensures nextID !in subs && nextID !in entries
    {
      assert nextID in subs ==> AgreeOn(subs, entries, trie.live, nextID, nextID);
    }

    /** Subscribe's local part: the id is taken, the trie, counts and entries all get the entry. */
    method AddEntry(subject: string, out: nat)
      requires InStep() && IsValidPattern(subject)
      modifies this, trie, trie.at.Values
      ensures InStep() && trie == old(trie) && fresh(trie.at.Values - old(trie.at.Values))
      ensures old(nextID) !in old(subs) && subs == old(subs)[old(nextID) := subject]
      ensures entries == old(entries)[old(nextID) := SubEntry(old(nextID), out)]
      ensures closed == old(closed) && cons == old(cons) && nextID == old(nextID) + 1
    {
      hide SubTrie.Sound;
      var entry := SubEntry(nextID, out);
      AgreeAfterAdd(subs, entries, trie.live, nextID, subject, entry);
      nextID := nextID + 1;
      trie.Insert(Tokenize(subject), entry);
      CountsAfterAdd(refs, subs, entry.id, subject);
      refs := Bumped(refs, subject);
      entries := entries[entry.id := entry];
      subs := subs[entry.id := subject];
    }

    method RemoveEntry(subject: string, id: nat)
      requires InStep() && id in subs && subs[id] == subject
      modifies this, trie, trie.at.Values
      ensures InStep() && trie == old(trie) && trie.at.Values <= old(trie.at.Values)
      ensures subs == old(subs) - {id} && entries == old(entries) - {id}
      ensures closed == old(closed) && cons == old(cons) && nextID == old(nextID)
    {
      hide SubTrie.Sound;
      CountsAfterDrop(refs, subs, id);
      assert AgreeOn(subs, entries, trie.live, nextID, id);
      AgreeAfterDrop(subs, entries, trie.live, nextID, id);
      var _ := trie.Remove(Tokenize(subject), id);
      refs := Dropped(refs, subject);
      entries := entries - {id};
      subs := subs - {id};
    }

    /** The unsubscribe closure: `reply` and `recovered` as for Subscribe; a failed update of the
        filters undoes nothing locally unless the consumer is gone. */
    method Unsubscribe(subject: string, id: nat, durable: bool, reply: ServerReply, recovered: bool)
      requires Valid()
      requires id in subs ==> subs[id] == subject
      modifies this, trie, trie.at.Values
      ensures Valid()
      ensures var lost := id in old(subs) && old(subs) - {id} != map[] && old(cons)
                          && reply == Missing && (durable || !recovered);
              && subs == (if lost then map[] else old(subs) - {id})
              && entries == (if lost then map[] else old(entries) - {id})
              && closed == (old(closed) || (lost && durable))
      ensures cons == (old(cons) && (id in old(subs) ==> subs != map[]))
      ensures nextID == old(nextID) && (trie == old(trie) || fresh(trie)) && fresh(trie.at.Values - old(trie.at.Values))
    {
      hide SubTrie.Valid;
      if id !in entries {
        assert id !in subs;
        return;
      }
      RemoveEntry(subject, id);
      if !cons {
        return;
      }
      if refs == map[] {
        if subs != map[] {
          var k :| k in subs;
          ReferencedExactly(refs, subs, subs[k]);
        }
        cons := false;
      } else {
        var p :| p in refs;
        ReferencedExactly(refs, subs, p);
        if reply == Missing {
          if durable {
            Reset();
            closed := true;
          } else if !recovered {
            Reset();
          }
        }
      }
    }

    method Reset()
      modifies this
      ensures Valid() && subs == map[] && !cons && fresh(trie) && fresh(trie.at.Values)
      ensures closed == old(closed) && nextID == old(nextID) && entries == map[]
    {
      hide SubTrie.Valid;
      trie := new SubTrie();
      refs, entries, cons, subs := map[], map[], false, map[];
    }

    /** The two halves meet: a message passes the server filters exactly when some subscriber is
        to receive it. */
    method Dispatch(subject: string, order: seq<string>) returns (filters: seq<string>, matches: seq<SubEntry>)
      requires Valid()
      requires NoRepeats(order) && Elements(order) == refs.Keys
      ensures DistinctIds(matches)
      ensures forall e :: e in matches <==>
                e.id in subs && entries[e.id] == e && SubjectMatch(subs[e.id], subject)
      ensures MatchedByAny(Elements(filters), subject) <==> matches != []
    {
      hide SubTrie.Sound;
      forall p ensures p in refs <==> exists id :: id in subs && subs[id] == p {
        ReferencedExactly(refs, subs, p);
      }
      forall id | id in subs ensures AgreeOn(subs, entries, trie.live, nextID, id) {}
      filters := FilterSubjects(order);
      matches := trie.Match(Tokenize(subject));
      if matches != [] {
        assert matches[0] in matches && subs[matches[0].id] in refs.Keys;
      }
      if MatchedByAny(refs.Keys, subject) {
        var p :| p in refs.Keys && SubjectMatch(p, subject);
        var id :| id in subs && subs[id] == p;
        assert entries[id] in matches;
      }
    }
  }
}
