/** The subject trie (pkg/natsconsumer/subject.go, `subTrie`): inserts and removes on a linked
    tree of nodes, and a match that must agree with a linear scan of the live entries.

    The ghost map `at` names every node by the token path leading to it, with `*` for the star
    child; `live` is the set of subscriptions the trie stands for.  The invariants are stated on
    values (`at`, the node contents by path, `live`), so that each heap update is followed by one
    small lemma about maps. */
module SubjectTrie {
  import opened Subjects

  type Path = seq<Token>

  datatype SubEntry = SubEntry(id: nat, out: nat)

  datatype Subscription = Subscription(pattern: seq<Token>, entry: SubEntry)

  class TrieNode {
    var children: map<Token, TrieNode>
    var wcStar: TrieNode?
    var wcGt: seq<SubEntry>
    var entries: seq<SubEntry>

    constructor ()
      ensures Contents() == EMPTY_NODE
    {
      children, wcStar, wcGt, entries := map[], null, [], [];
    }

    ghost function Contents(): NodeVal
      reads this
    {
      NodeVal(children, wcStar, wcGt, entries)
    }

    method CutLink(tok: Token)
      modifies this
      ensures Contents() == Cut(old(Contents()), tok)
    {
      if tok == STAR {
        wcStar := null;
      } else {
        children := children - {tok};
      }
    }
  }

  datatype NodeVal = NodeVal(children: map<Token, TrieNode>, wcStar: TrieNode?,
                             wcGt: seq<SubEntry>, entries: seq<SubEntry>)

  ghost function Cut(n: NodeVal, tok: Token): NodeVal {
    if tok == STAR then n.(wcStar := null) else n.(children := n.children - {tok})
  }

  ghost const EMPTY_NODE := NodeVal(map[], null, [], [])

  // ---- invariants on values -----------------------------------------------------------------

  ghost predicate DistinctIds(es: seq<SubEntry>) {
    forall i, j :: 0 <= i < j < |es| ==> es[i].id != es[j].id
  }

  ghost predicate Injective(at: map<Path, TrieNode>) {
    forall p, q :: p in at && q in at && p != q ==> at[p] != at[q]
  }

  /** Every link of the node at `p` leads to the node named by the longer path. */
  ghost predicate LinksDown(at: map<Path, TrieNode>, n: NodeVal, p: Path) {
    && (forall t :: t in n.children ==>
          IsConcreteToken(t) && p + [t] in at && at[p + [t]] == n.children[t])
    && (n.wcStar != null ==> p + [STAR] in at && at[p + [STAR]] == n.wcStar)
  }

  /** The parent of `p` links to it. */
  ghost predicate LinkedUp(at: map<Path, TrieNode>, val: map<Path, NodeVal>, p: Path)
    requires p in at && p != []
  {
    var q, t := p[..|p| - 1], p[|p| - 1];
    && q in val && t != GT
    && if t == STAR then val[q].wcStar == at[p]
       else t in val[q].children && val[q].children[t] == at[p]
  }

  /** `at` is exactly the tree hanging off the root, and no node is shared. */
  ghost predicate Shape(at: map<Path, TrieNode>, val: map<Path, NodeVal>) {
    && at.Keys == val.Keys && [] in at
    && Injective(at)
    && (forall p {:trigger LinksDown(at, val[p], p)} :: p in val ==> LinksDown(at, val[p], p))
    && (forall p {:trigger LinkedUp(at, val, p)} :: p in at && p != [] ==> LinkedUp(at, val, p))
  }

  /** The node at `p` holds only live entries of its own path. */
  ghost predicate HoldsOwn(n: NodeVal, p: Path, live: map<nat, Subscription>) {
    && DistinctIds(n.entries) && DistinctIds(n.wcGt)
    && (forall e :: e in n.entries ==> e.id in live && live[e.id] == Subscription(p, e))
    && (forall e :: e in n.wcGt ==> e.id in live && live[e.id] == Subscription(p + [GT], e))
  }

  ghost predicate Stored(val: map<Path, NodeVal>, id: nat, sub: Subscription) {
    var p, e := sub.pattern, sub.entry;
    && e.id == id && IsValid(p)
    && if p != [] && p[|p| - 1] == GT
       then p[..|p| - 1] in val && e in val[p[..|p| - 1]].wcGt
       else p in val && e in val[p].entries
  }

  ghost predicate Content(val: map<Path, NodeVal>, live: map<nat, Subscription>) {
    && (forall p {:trigger HoldsOwn(val[p], p, live)} :: p in val ==> HoldsOwn(val[p], p, live))
    && (forall id {:trigger Stored(val, id, live[id])} :: id in live ==> Stored(val, id, live[id]))
  }

  /** Some live pattern goes through `p`. */
  ghost predicate Used(live: map<nat, Subscription>, p: Path) {
    exists id :: id in live && p <= live[id].pattern
  }

  /** No dead branch: every node but the root leads to a live entry. */
  ghost predicate Pruned(keys: set<Path>, live: map<nat, Subscription>) {
    forall p {:trigger Used(live, p)} :: p in keys && p != [] ==> Used(live, p)
  }

  // ---- how the invariants survive an update ---------------------------------------------------

  lemma NoNodeYet(at: map<Path, TrieNode>, val: map<Path, NodeVal>, p: Path, t: Token)
    requires Shape(at, val) && p in at
    requires if t == STAR then val[p].wcStar == null else t !in val[p].children
    ensures p + [t] !in at
  {
    var q := p + [t];
    assert q[..|q| - 1] == p && q[|q| - 1] == t;
    assert q in at ==> LinkedUp(at, val, q);
  }

  lemma AttachKeeps(at: map<Path, TrieNode>, val: map<Path, NodeVal>, live: map<nat, Subscription>,
                    p: Path, t: Token, child: TrieNode, n: NodeVal)
    requires Shape(at, val) && Content(val, live)
    requires p in at && t != GT && child !in at.Values && p + [t] !in at
    requires n == if t == STAR then val[p].(wcStar := child)
                  else val[p].(children := val[p].children[t := child])
    ensures var at', val' := at[p + [t] := child], val[p := n][p + [t] := EMPTY_NODE];
            Shape(at', val') && Content(val', live)
  {
    AttachKeepsShape(at, val, p, t, child, n);
    AttachKeepsContent(val, live, p, p + [t], n);
  }

  lemma AttachKeepsShape(at: map<Path, TrieNode>, val: map<Path, NodeVal>, p: Path, t: Token, child: TrieNode, n: NodeVal)
    requires Shape(at, val) && p in at && t != GT && child !in at.Values && p + [t] !in at
    requires n == if t == STAR then val[p].(wcStar := child) else val[p].(children := val[p].children[t := child])
    ensures Shape(at[p + [t] := child], val[p := n][p + [t] := EMPTY_NODE])
  {
    var at', val' := at[p + [t] := child], val[p := n][p + [t] := EMPTY_NODE];
    forall q | q in val' ensures LinksDown(at', val'[q], q) {
      if q in val {
        assert LinksDown(at, val[q], q);
        AttachKeepsLinks(at, val[q], p, t, child, q, val'[q]);
      }
    }
    forall q | q in at' && q != [] ensures LinkedUp(at', val', q) {
      if q in at {
        assert LinkedUp(at, val, q);
        assert q == q[..|q| - 1] + [q[|q| - 1]];
      } else {
        LastToken(p, t);
      }
    }
  }

  lemma AttachKeepsLinks(at: map<Path, TrieNode>, was: NodeVal, p: Path, t: Token, child: TrieNode, q: Path, now: NodeVal)
    requires LinksDown(at, was, q) && p + [t] !in at
    requires now == if q != p then was else if t == STAR then was.(wcStar := child) else was.(children := was.children[t := child])
    requires IsConcreteToken(t) || t == STAR
    ensures LinksDown(at[p + [t] := child], now, q)
  {}

  lemma AttachKeepsContent(val: map<Path, NodeVal>, live: map<nat, Subscription>, p: Path, added: Path, n: NodeVal)
    requires Content(val, live) && p in val && added !in val
    requires n.entries == val[p].entries && n.wcGt == val[p].wcGt
    ensures Content(val[p := n][added := EMPTY_NODE], live)
  {
    var val' := val[p := n][added := EMPTY_NODE];
    forall q | q in val' ensures HoldsOwn(val'[q], q, live) {
      if q in val { assert HoldsOwn(val[q], q, live); }
    }
    forall id | id in live ensures Stored(val', id, live[id]) {
      assert Stored(val, id, live[id]);
    }
  }

  lemma AppendKeeps(at: map<Path, TrieNode>, val: map<Path, NodeVal>, live: map<nat, Subscription>,
                    p: Path, tokens: seq<Token>, entry: SubEntry, n: NodeVal)
    requires Shape(at, val) && Content(val, live)
    requires p in at && IsValid(tokens) && entry.id !in live
    requires || (tokens == p && (tokens == [] || tokens[|tokens| - 1] != GT)
                 && n == val[p].(entries := val[p].entries + [entry]))
             || (tokens == p + [GT] && n == val[p].(wcGt := val[p].wcGt + [entry]))
    ensures var val', live' := val[p := n], live[entry.id := Subscription(tokens, entry)];
            Shape(at, val') && Content(val', live')
  {
    TakeKeepsShape(at, val, p, n);
    hide Shape;
    assert Appended(val[p], n, p, tokens, entry);
    AppendKeepsContent(val, live, p, tokens, entry, n);
  }

  /** The entry is added to the node's entries, or to its `>` entries. */
  ghost predicate Appended(was: NodeVal, n: NodeVal, p: Path, tokens: seq<Token>, entry: SubEntry) {
    || (tokens == p && n == was.(entries := was.entries + [entry]))
    || (tokens == p + [GT] && n == was.(wcGt := was.wcGt + [entry]))
  }

  lemma AppendKeepsContent(val: map<Path, NodeVal>, live: map<nat, Subscription>, p: Path, tokens: seq<Token>, entry: SubEntry, n: NodeVal)
    requires Content(val, live) && p in val && IsValid(tokens) && entry.id !in live
    requires Appended(val[p], n, p, tokens, entry) && (tokens == p ==> tokens == [] || tokens[|tokens| - 1] != GT)
    ensures Content(val[p := n], live[entry.id := Subscription(tokens, entry)])
  {
    var val', live' := val[p := n], live[entry.id := Subscription(tokens, entry)];
    forall q | q in val' ensures HoldsOwn(val'[q], q, live') {
      assert HoldsOwn(val[q], q, live);
      AppendKeepsOwn(val[q], val'[q], q, live, p, tokens, entry);
    }
    forall id | id in live' ensures Stored(val', id, live'[id]) {
      if id != entry.id { assert Stored(val, id, live[id]); }
    }
  }

  lemma AppendKeepsOwn(was: NodeVal, now: NodeVal, q: Path, live: map<nat, Subscription>, p: Path, tokens: seq<Token>, entry: SubEntry)
    requires HoldsOwn(was, q, live) && entry.id !in live
    requires if q == p then Appended(was, now, p, tokens, entry) else now == was
    ensures HoldsOwn(now, q, live[entry.id := Subscription(tokens, entry)])
  {}

  // ---- removal --------------------------------------------------------------------------------

  lemma {:induction false} PrefixesPresent(at: map<Path, TrieNode>, val: map<Path, NodeVal>, p: Path, k: nat)
    requires Shape(at, val) && p in at && k <= |p|
    ensures p[..k] in at
    decreases |p|
  {
    if k < |p| {
      assert LinkedUp(at, val, p);
      PrefixesPresent(at, val, p[..|p| - 1], k);
      assert p[..|p| - 1][..k] == p[..k];
    } else {
      assert p[..k] == p;
    }
  }

  /** The walk along a live pattern never misses a node. */
  lemma OnPath(at: map<Path, TrieNode>, val: map<Path, NodeVal>, live: map<nat, Subscription>,
               id: nat, k: nat)
    requires Shape(at, val) && Content(val, live) && id in live
    requires k < |live[id].pattern| && live[id].pattern[k] != GT
    ensures var p := live[id].pattern;
            && p[..k] in val
            && if p[k] == STAR then val[p[..k]].wcStar != null else p[k] in val[p[..k]].children
  {
    var p := live[id].pattern;
    assert Stored(val, id, live[id]);
    var home := if p[|p| - 1] == GT then p[..|p| - 1] else p;
    PrefixesPresent(at, val, home, k + 1);
    var q := p[..k + 1];
    assert home[..k + 1] == q && q[..|q| - 1] == p[..k] && q[|q| - 1] == p[k];
    assert LinkedUp(at, val, q);
  }

  /** `es` without the entry at `i`: the last one takes its place. */
  function SwapRemove(es: seq<SubEntry>, i: nat): seq<SubEntry>
    requires i < |es|
  {
    es[i := es[|es| - 1]][..|es| - 1]
  }

  lemma SwapRemoved(es: seq<SubEntry>, i: nat)
    requires i < |es| && DistinctIds(es)
    ensures DistinctIds(SwapRemove(es, i))
    ensures forall e :: e in SwapRemove(es, i) <==> e in es && e.id != es[i].id
  {
    var r := SwapRemove(es, i);
    forall e | e in es && e.id != es[i].id ensures e in r {
      var k :| 0 <= k < |es| && es[k] == e;
      if k < |es| - 1 { assert r[k] == e; } else { assert r[i] == e; }
    }
  }

  lemma TakeKeeps(at: map<Path, TrieNode>, val: map<Path, NodeVal>, live: map<nat, Subscription>,
                  p: Path, i: nat, gt: bool)
    requires Shape(at, val) && Content(val, live) && p in val
    requires i < if gt then |val[p].wcGt| else |val[p].entries|
    ensures var e := if gt then val[p].wcGt[i] else val[p].entries[i];
            var n := if gt then val[p].(wcGt := SwapRemove(val[p].wcGt, i))
                     else val[p].(entries := SwapRemove(val[p].entries, i));
            && e.id in live && live[e.id] == Subscription(if gt then p + [GT] else p, e)
            && Shape(at, val[p := n]) && Content(val[p := n], live - {e.id})
  {
    assert HoldsOwn(val[p], p, live);
    var es := if gt then val[p].wcGt else val[p].entries;
    var e := es[i];
    assert e in es;
    SwapRemoved(es, i);
    PathsHaveNoGt(at, val, p);
    var n := if gt then val[p].(wcGt := SwapRemove(es, i)) else val[p].(entries := SwapRemove(es, i));
    TakeKeepsShape(at, val, p, n);
    TakeKeepsContent(at, val, live, p, e, gt, n);
  }

  lemma TakeKeepsShape(at: map<Path, TrieNode>, val: map<Path, NodeVal>, p: Path, n: NodeVal)
    requires Shape(at, val) && p in val && n.children == val[p].children && n.wcStar == val[p].wcStar
    ensures Shape(at, val[p := n])
  {
    var val' := val[p := n];
    forall q | q in val' ensures LinksDown(at, val'[q], q) { assert LinksDown(at, val[q], q); }
    forall q | q in at && q != [] ensures LinkedUp(at, val', q) { assert LinkedUp(at, val, q); }
  }

  lemma TakeKeepsContent(at: map<Path, TrieNode>, val: map<Path, NodeVal>, live: map<nat, Subscription>,
                         p: Path, e: SubEntry, gt: bool, n: NodeVal)
    requires Shape(at, val) && Content(val, live) && p in val
    requires e.id in live && live[e.id] == Subscription(if gt then p + [GT] else p, e)
    requires DistinctIds(n.entries) && DistinctIds(n.wcGt)
    requires if gt then n.entries == val[p].entries && forall f :: f in n.wcGt <==> f in val[p].wcGt && f.id != e.id
             else n.wcGt == val[p].wcGt && forall f :: f in n.entries <==> f in val[p].entries && f.id != e.id
    ensures Content(val[p := n], live - {e.id})
  {
    var val', live' := val[p := n], live - {e.id};
    forall q | q in val' ensures HoldsOwn(val'[q], q, live') {
      assert HoldsOwn(val[q], q, live);
      PathsHaveNoGt(at, val, q);
      PathsHaveNoGt(at, val, p);
      hide Shape, Content;
      OthersKeepTheirEntries(val, live, p, e, gt, q);
    }
    forall id | id in live' ensures Stored(val', id, live'[id]) {
      assert Stored(val, id, live[id]);
    }
  }

  lemma OthersKeepTheirEntries(val: map<Path, NodeVal>, live: map<nat, Subscription>,
                               p: Path, e: SubEntry, gt: bool, q: Path)
    requires p in val && q in val && HoldsOwn(val[q], q, live)
    requires e.id in live && live[e.id] == Subscription(if gt then p + [GT] else p, e)
    requires GT !in p && GT !in q
    ensures forall f :: f in val[q].entries && f.id == e.id ==> !gt && q == p
    ensures forall f :: f in val[q].wcGt && f.id == e.id ==> gt && q == p
  {
    if gt { assert GT in p + [GT]; }
    assert (q + [GT])[..|q|] == q && (p + [GT])[..|p|] == p && GT in q + [GT];
  }

  lemma {:induction false} PathsHaveNoGt(at: map<Path, TrieNode>, val: map<Path, NodeVal>, p: Path)
    requires Shape(at, val) && p in at
    ensures GT !in p
    decreases |p|
  {
    if p != [] {
      assert LinkedUp(at, val, p);
      PathsHaveNoGt(at, val, p[..|p| - 1]);
      assert p == p[..|p| - 1] + [p[|p| - 1]];
    }
  }

  lemma DetachKeeps(at: map<Path, TrieNode>, val: map<Path, NodeVal>, live: map<nat, Subscription>,
                    p: Path, t: Token, n: NodeVal)
    requires Shape(at, val) && Content(val, live)
    requires p in at && p + [t] in at && val[p + [t]] == EMPTY_NODE
    requires n == if t == STAR then val[p].(wcStar := null)
                  else val[p].(children := val[p].children - {t})
    ensures var at', val' := at - {p + [t]}, val[p := n] - {p + [t]};
            Shape(at', val') && Content(val', live)
  {
    var gone := p + [t];
    LastToken(p, t);
    assert LinkedUp(at, val, gone);
    DetachKeepsShape(at, val, p, t, n);
    DetachKeepsContent(val, live, p, gone, n);
  }

  lemma DetachKeepsShape(at: map<Path, TrieNode>, val: map<Path, NodeVal>, p: Path, t: Token, n: NodeVal)
    requires Shape(at, val) && p in at && p + [t] in at && val[p + [t]] == EMPTY_NODE
    requires n == if t == STAR then val[p].(wcStar := null)
                  else val[p].(children := val[p].children - {t})
    ensures Shape(at - {p + [t]}, val[p := n] - {p + [t]})
  {
    var gone := p + [t];
    var at', val' := at - {gone}, val[p := n] - {gone};
    forall q | q in val' ensures LinksDown(at', val'[q], q) {
      assert LinksDown(at, val[q], q);
      DetachKeepsLinks(at, val[q], p, t, q, val'[q]);
    }
    forall q | q in at' && q != [] ensures LinkedUp(at', val', q) {
      assert LinkedUp(at, val, q);
      DetachKeepsUp(at, val, p, t, n, q);
    }
  }

  lemma DetachKeepsUp(at: map<Path, TrieNode>, val: map<Path, NodeVal>, p: Path, t: Token, n: NodeVal, q: Path)
    requires q in at && q != [] && q != p + [t] && LinkedUp(at, val, q)
    requires p in val && p + [t] in val && val[p + [t]] == EMPTY_NODE
    requires n == if t == STAR then val[p].(wcStar := null)
                  else val[p].(children := val[p].children - {t})
    ensures LinkedUp(at - {p + [t]}, val[p := n] - {p + [t]}, q)
  {
    assert q == q[..|q| - 1] + [q[|q| - 1]];
  }

  lemma PrunedAfterDetach(keys: set<Path>, live: map<nat, Subscription>, p: Path, t: Token)
    requires PrunedBut(keys, live, true, p + [t])
    ensures PrunedBut(keys - {p + [t]}, live, true, p)
  {
    forall q {:trigger Used(live, q)} | q in keys - {p + [t]} && q != [] ensures Used(live, q) || q <= p {
      if q <= p + [t] {
        assert (p + [t])[..|p| + 1] == p + [t] && q == (p + [t])[..|q|];
        assert q == p[..|q|];
      }
    }
  }

  lemma PrefixWithoutGt(p: Path, q: Path)
    requires GT !in p && p <= q + [GT]
    ensures p <= q
  {
    assert (q + [GT])[|q|] == GT;
  }

  lemma DetachKeepsLinks(at: map<Path, TrieNode>, m: NodeVal, p: Path, t: Token, q: Path, n: NodeVal)
    requires LinksDown(at, m, q)
    requires if q != p then n == m
             else n == if t == STAR then m.(wcStar := null) else m.(children := m.children - {t})
    ensures LinksDown(at - {p + [t]}, n, q)
  {
    LastToken(p, t);
    LastToken(q, STAR);
    forall u | u in n.children
      ensures IsConcreteToken(u) && q + [u] in at - {p + [t]} && at[q + [u]] == n.children[u]
    {
      LastToken(q, u);
    }
  }

  lemma LastToken(q: Path, u: Token)
    ensures (q + [u])[..|q|] == q && (q + [u])[|q|] == u
  {}

  lemma DetachKeepsContent(val: map<Path, NodeVal>, live: map<nat, Subscription>,
                           p: Path, gone: Path, n: NodeVal)
    requires Content(val, live) && p in val && gone in val && val[gone] == EMPTY_NODE && p != gone
    requires n.wcGt == val[p].wcGt && n.entries == val[p].entries
    ensures Content(val[p := n] - {gone}, live)
  {
    var val' := val[p := n] - {gone};
    forall q | q in val' ensures HoldsOwn(val'[q], q, live) {
      assert HoldsOwn(val[q], q, live);
    }
    forall id | id in live ensures Stored(val', id, live[id]) {
      assert Stored(val, id, live[id]);
    }
  }

  /** A node that is not empty is in use once everything below it is. */
  lemma NonEmptyIsUsed(at: map<Path, TrieNode>, val: map<Path, NodeVal>, live: map<nat, Subscription>, p: Path)
    requires Shape(at, val) && Content(val, live) && p in at
    requires val[p] != EMPTY_NODE
    requires forall q {:trigger Used(live, q)} :: q in at && q != [] ==> Used(live, q) || q <= p
    ensures Used(live, p)
    ensures Pruned(at.Keys, live)
  {
    var n := val[p];
    assert HoldsOwn(n, p, live) && LinksDown(at, n, p);
    if n.entries != [] {
      assert n.entries[0] in n.entries && p <= live[n.entries[0].id].pattern;
    } else if n.wcGt != [] {
      assert n.wcGt[0] in n.wcGt && p <= live[n.wcGt[0].id].pattern;
    } else {
      var t :| (t == STAR && n.wcStar != null) || t in n.children;
      assert Used(live, p + [t]);
      PrefixIsUsed(live, p, p + [t]);
    }
    forall q | q in at && q != [] ensures Used(live, q) {
      if !Used(live, q) { PrefixIsUsed(live, q, p); }
    }
  }

  lemma PrefixIsUsed(live: map<nat, Subscription>, p: Path, q: Path)
    requires Used(live, q) && p <= q
    ensures Used(live, p)
  {
    var id :| id in live && q <= live[id].pattern;
    assert p <= live[id].pattern;
  }

  lemma UsedUnless(was: map<nat, Subscription>, id: nat, p: Path)
    requires id in was && Used(was, p) && !(p <= was[id].pattern)
    ensures Used(was - {id}, p)
  {
    var k :| k in was && p <= was[k].pattern;
    assert k in was - {id};
  }

  class SubTrie {
    var root: TrieNode
    ghost var at: map<Path, TrieNode>
    ghost var live: map<nat, Subscription>

    ghost function Nodes(): map<Path, NodeVal>
      reads this, at.Values
    {
      map p | p in at :: at[p].Contents()
    }

    ghost predicate Sound()
      reads this, at.Values
    {
      Shape(at, Nodes()) && at[[]] == root && Content(Nodes(), live)
    }

    ghost predicate Valid()
      reads this, at.Values
    {
      Sound() && Pruned(at.Keys, live)
    }

    constructor ()
      ensures Valid() && live == map[] && fresh(at.Values)
    {
      var n := new TrieNode();
      root := n;
      at := map[[] := n];
      live := map[];
    }

    method Insert(tokens: seq<Token>, entry: SubEntry)
      requires Valid() && IsValid(tokens) && entry.id !in live
      modifies this, at.Values
      ensures Valid() && fresh(at.Values - old(at.Values))
      ensures root == old(root)
      ensures live == old(live)[entry.id := Subscription(tokens, entry)]
    {
      hide SubTrie.Sound;
      RootIsNamed();
      assert tokens[..0] == [];
      var node := root;
      var i := 0;
      while i < |tokens|
        invariant 0 <= i <= |tokens|
        invariant Sound()
        invariant tokens[..i] in at && node == at[tokens[..i]]
        invariant PrunedBut(at.Keys, live, true, tokens[..i])
        invariant fresh(at.Values - old(at.Values))
        invariant live == old(live) && root == old(root)
        invariant forall k :: 0 <= k < i ==> tokens[k] != GT
      {
        var tok := tokens[i];
        ghost var path := tokens[..i];
        assert tokens[..i + 1] == path + [tok];
        if tok == GT {
          assert tokens == path + [GT];
          AppendGt(node, path, tokens, entry);
          return;
        }
        node := Child(node, path, tok);
        i := i + 1;
      }
      assert tokens[..|tokens|] == tokens;
      AppendEntry(node, tokens, entry);
    }

    lemma RootIsNamed()
      requires Sound()
      ensures [] in at && at[[]] == root
    {}

    /** One step down, creating the node when it is missing. */
    method Child(node: TrieNode, ghost path: Path, tok: Token) returns (child: TrieNode)
      requires Sound() && path in at && node == at[path] && tok != GT
      requires PrunedBut(at.Keys, live, true, path)
      modifies node, this`at
      ensures Sound() && path + [tok] in at && child == at[path + [tok]]
      ensures fresh(at.Values - old(at.Values))
      ensures PrunedBut(at.Keys, live, true, path + [tok])
    {
      assert LinksDown(at, Nodes()[path], path);
      if tok == STAR {
        if node.wcStar == null {
          var added := new TrieNode();
          AttachStar(node, path, added);
        }
        child := node.wcStar;
      } else {
        if tok !in node.children {
          var added := new TrieNode();
          AttachChild(node, path, tok, added);
        }
        child := node.children[tok];
      }
    }

    method AttachStar(node: TrieNode, ghost path: Path, child: TrieNode)
      requires Sound() && path in at && node == at[path] && node.wcStar == null
      requires child !in at.Values && child.Contents() == EMPTY_NODE
      modifies node, this`at
      ensures Sound() && at == old(at)[path + [STAR] := child] && node.wcStar == child
    {
      ghost var val := Nodes();
      NoNodeYet(at, val, path, STAR);
      node.wcStar := child;
      at := at[path + [STAR] := child];
      AttachKeeps(old(at), val, live, path, STAR, child, node.Contents());
      assert Nodes() == val[path := node.Contents()][path + [STAR] := EMPTY_NODE];
    }

    method AttachChild(node: TrieNode, ghost path: Path, tok: Token, child: TrieNode)
      requires Sound() && path in at && node == at[path] && tok !in node.children
      requires child !in at.Values && child.Contents() == EMPTY_NODE && IsConcreteToken(tok)
      modifies node, this`at
      ensures Sound() && at == old(at)[path + [tok] := child]
      ensures tok in node.children && node.children[tok] == child
    {
      ghost var val := Nodes();
      NoNodeYet(at, val, path, tok);
      node.children := node.children[tok := child];
      at := at[path + [tok] := child];
      AttachKeeps(old(at), val, live, path, tok, child, node.Contents());
      assert Nodes() == val[path := node.Contents()][path + [tok] := EMPTY_NODE];
    }

    method AppendGt(node: TrieNode, ghost path: Path, ghost tokens: seq<Token>, entry: SubEntry)
      requires Sound() && path in at && node == at[path]
      requires tokens == path + [GT] && IsValid(tokens) && entry.id !in live
      requires PrunedBut(at.Keys, live, true, path)
      modifies node, this`live
      ensures Valid() && live == old(live)[entry.id := Subscription(tokens, entry)]
    {
      ghost var val := Nodes();
      node.wcGt := node.wcGt + [entry];
      live := live[entry.id := Subscription(tokens, entry)];
      AppendKeeps(at, val, old(live), path, tokens, entry, node.Contents());
      assert Nodes() == val[path := node.Contents()];
      StillPruned(old(live), entry.id, Subscription(tokens, entry));
    }

    method AppendEntry(node: TrieNode, ghost tokens: seq<Token>, entry: SubEntry)
      requires Sound() && tokens in at && node == at[tokens]
      requires (forall k :: 0 <= k < |tokens| ==> tokens[k] != GT) && entry.id !in live
      requires PrunedBut(at.Keys, live, true, tokens)
      modifies node, this`live
      ensures Valid() && live == old(live)[entry.id := Subscription(tokens, entry)]
    {
      ghost var val := Nodes();
      node.entries := node.entries + [entry];
      live := live[entry.id := Subscription(tokens, entry)];
      AppendKeeps(at, val, old(live), tokens, tokens, entry, node.Contents());
      assert Nodes() == val[tokens := node.Contents()];
      StillPruned(old(live), entry.id, Subscription(tokens, entry));
    }

    lemma StillPruned(was: map<nat, Subscription>, id: nat, sub: Subscription)
      requires id !in was && live == was[id := sub]
      requires forall p {:trigger Used(was, p)} :: p in at && p != [] ==> Used(was, p) || p <= sub.pattern
      ensures Pruned(at.Keys, live)
    {
      forall p | p in at && p != [] ensures Used(live, p) {
        if Used(was, p) {
          var k :| k in was && p <= was[k].pattern;
          assert k in live && live[k] == was[k];
        } else {
          assert p <= live[id].pattern;
        }
      }
    }

    method Remove(tokens: seq<Token>, id: nat) returns (removed: SubEntry)
      requires Valid() && IsValid(tokens)
      modifies this`at, this`live, at.Values
      ensures Valid() && root == old(root) && at.Values <= old(at.Values)
      ensures var known := id in old(live) && old(live)[id].pattern == tokens;
              && live == (if known then old(live) - {id} else old(live))
              && (known ==> removed == old(live)[id].entry)
    {
      var found, prune;
      removed, found, prune := RemoveWalk(root, tokens, 0, id);
    }

    /** Removes below `node` and tells the caller whether the node is now dead.  Until the caller
        has acted on that answer, only the nodes on the walked path may lack a live entry. */
    method RemoveWalk(node: TrieNode, tokens: seq<Token>, idx: nat, id: nat)
      returns (removed: SubEntry, found: bool, prune: bool)
      requires Valid() && IsValid(tokens) && idx <= |tokens|
      requires tokens[..idx] in at && node == at[tokens[..idx]]
      modifies this`at, this`live, at.Values
      ensures Sound() && tokens[..idx] in at && Shrunk(at, old(at))
      ensures Taken(old(live), live, tokens, id, removed, found)
      ensures prune ==> node.Contents() == EMPTY_NODE
      ensures PrunedBut(at.Keys, live, prune, tokens[..idx])
      decreases |tokens| - idx, 1
    {
      ghost var path := tokens[..idx];
      removed, found, prune := SubEntry(0, 0), false, false;
      if idx == |tokens| {
        assert path == tokens;
        removed, found := TakeEntry(node, tokens, id);
        prune := |node.entries| == 0 && |node.wcGt| == 0 && node.wcStar == null && node.children == map[];
        Settle(node, path, prune);
        return;
      }
      var tok := tokens[idx];
      assert tokens[..idx + 1] == path + [tok];
      assert LinksDown(at, Nodes()[path], path);
      if tok == GT {
        assert tokens == path + [GT];
        removed, found := TakeGt(node, path, tokens, id);
        prune := |node.wcGt| == 0;
        if !prune && found { Settle(node, path, false); }
      } else if tok == STAR {
        if node.wcStar != null {
          removed, found, prune := Descend(node, node.wcStar, tokens, idx, id);
        } else {
          Missed(tokens, idx, id);
        }
      } else {
        if tok in node.children {
          removed, found, prune := Descend(node, node.children[tok], tokens, idx, id);
        } else {
          Missed(tokens, idx, id);
        }
      }
      if prune {
        prune := |node.entries| == 0 && |node.wcGt| == 0 && node.wcStar == null && node.children == map[];
        Settle(node, path, prune);
      }
    }

    /** One recursive call, and the child dropped when it is dead. */
    method Descend(node: TrieNode, child: TrieNode, tokens: seq<Token>, idx: nat, id: nat)
      returns (removed: SubEntry, found: bool, prune: bool)
      requires Valid() && IsValid(tokens) && idx < |tokens| && tokens[idx] != GT
      requires tokens[..idx] in at && node == at[tokens[..idx]]
      requires tokens[..idx + 1] in at && child == at[tokens[..idx + 1]]
      modifies this`at, this`live, at.Values
      ensures Sound() && tokens[..idx] in at && Shrunk(at, old(at))
      ensures Taken(old(live), live, tokens, id, removed, found)
      ensures PrunedBut(at.Keys, live, prune, tokens[..idx])
      decreases |tokens| - idx, 0
    {
      hide SubTrie.Sound;
      ghost var path, tok := tokens[..idx], tokens[idx];
      assert tokens[..idx + 1] == path + [tok];
      removed, found, prune := RemoveWalk(child, tokens, idx + 1, id);
      ParentIsNamed(path, tok);
      if prune {
        Detach(node, path, tokens[idx]);
      }
    }

    /** After the last change at `path`: a node that keeps something is in use. */
    lemma Settle(node: TrieNode, path: Path, prune: bool)
      requires Sound() && path in at && node == at[path]
      requires !prune ==> node.Contents() != EMPTY_NODE
      requires PrunedBut(at.Keys, live, true, path)
      ensures PrunedBut(at.Keys, live, prune, path)
    {
      if !prune { NonEmptyIsUsed(at, Nodes(), live, path); }
    }

    lemma Missed(tokens: seq<Token>, idx: nat, id: nat)
      requires Sound() && idx < |tokens| && tokens[idx] != GT && tokens[..idx] in at
      requires if tokens[idx] == STAR then at[tokens[..idx]].wcStar == null
               else tokens[idx] !in at[tokens[..idx]].children
      ensures !(id in live && live[id].pattern == tokens)
    {
      if id in live && live[id].pattern == tokens {
        OnPath(at, Nodes(), live, id, idx);
        assert false;
      }
    }

    method TakeEntry(node: TrieNode, ghost path: Path, id: nat) returns (removed: SubEntry, found: bool)
      requires Valid() && path in at && node == at[path]
      modifies node, this`live
      ensures Sound() && Taken(old(live), live, path, id, removed, found)
      ensures PrunedBut(at.Keys, live, true, path)
    {
      var es := node.entries;
      var i;
      i, found := IndexOf(es, id);
      PathsHaveNoGt(at, Nodes(), path);
      if !found {
        assert id in live ==> Stored(Nodes(), id, live[id]);
        removed := SubEntry(0, 0);
        return;
      }
      ghost var val := Nodes();
      removed := es[i];
      node.entries := SwapRemove(es, i);
      live := live - {id};
      TakeKeeps(at, val, old(live), path, i, false);
      assert Nodes() == val[path := node.Contents()];
      forall p {:trigger Used(live, p)} | p in at && p != [] ensures Used(live, p) || p <= path {
        if !(p <= path) { UsedUnless(old(live), id, p); }
      }
    }

    method TakeGt(node: TrieNode, ghost path: Path, ghost tokens: seq<Token>, id: nat)
      returns (removed: SubEntry, found: bool)
      requires Valid() && path in at && node == at[path] && tokens == path + [GT]
      modifies node, this`live
      ensures Sound() && Taken(old(live), live, tokens, id, removed, found)
      ensures PrunedBut(at.Keys, live, |node.wcGt| == 0 || found, path)
    {
      var es := node.wcGt;
      var i;
      i, found := IndexOf(es, id);
      PathsHaveNoGt(at, Nodes(), path);
      if !found {
        assert id in live ==> Stored(Nodes(), id, live[id]);
        removed := SubEntry(0, 0);
        return;
      }
      ghost var val := Nodes();
      removed := es[i];
      node.wcGt := SwapRemove(es, i);
      live := live - {id};
      TakeKeeps(at, val, old(live), path, i, true);
      assert Nodes() == val[path := node.Contents()];
      forall p {:trigger Used(live, p)} | p in at && p != [] ensures Used(live, p) || p <= path {
        if !(p <= path) {
          PathsHaveNoGt(at, val, p);
          if p <= tokens { PrefixWithoutGt(p, path); }
          UsedUnless(old(live), id, p);
        }
      }
    }

    lemma ParentIsNamed(path: Path, tok: Token)
      requires Sound() && path + [tok] in at
      ensures path in at
    {
      LastToken(path, tok);
      assert LinkedUp(at, Nodes(), path + [tok]);
    }

    method Detach(node: TrieNode, ghost path: Path, tok: Token)
      requires Sound() && path in at && node == at[path]
      requires path + [tok] in at && at[path + [tok]].Contents() == EMPTY_NODE
      requires PrunedBut(at.Keys, live, true, path + [tok])
      modifies node, this`at
      ensures Sound() && at == old(at) - {path + [tok]}
      ensures PrunedBut(at.Keys, live, true, path)
    {
      ghost var val := Nodes();
      assert |path + [tok]| != |path|;
      Unlink(node, path, tok, path + [tok]);
      DetachKeeps(old(at), val, live, path, tok, node.Contents());
      PrunedAfterDetach(old(at).Keys, live, path, tok);
    }

    /** The node no longer leads to the child, and the child's place is gone. */
    method Unlink(node: TrieNode, ghost path: Path, tok: Token, ghost gone: Path)
      requires Injective(at) && path in at && node == at[path] && gone != path
      modifies node, this`at
      ensures at == old(at) - {gone}
      ensures node.Contents() == Cut(old(node.Contents()), tok)
      ensures Nodes() == old(Nodes())[path := node.Contents()] - {gone}
    {
      node.CutLink(tok);
      at := at - {gone};
    }

    /** The dispatch lookup: every live entry whose pattern matches, once, and nothing else. */
    method Match(tokens: seq<Token>) returns (result: seq<SubEntry>)
      requires Valid()
      ensures DistinctIds(result)
      ensures forall e :: e in result <==>
                e.id in live && live[e.id].entry == e && Matches(live[e.id].pattern, tokens)
    {
      result := MatchWalk(root, [], tokens, 0);
    }

    ghost predicate Hit(e: SubEntry, path: Path, rest: seq<Token>)
      reads this
    {
      && e.id in live && live[e.id].entry == e
      && path <= live[e.id].pattern && Matches(live[e.id].pattern[|path|..], rest)
    }

    method MatchWalk(node: TrieNode, ghost path: Path, tokens: seq<Token>, idx: nat)
      returns (result: seq<SubEntry>)
      requires Valid() && path in at && node == at[path] && idx <= |tokens|
      ensures DistinctIds(result)
      ensures forall e :: e in result <==> Hit(e, path, tokens[idx..])
      decreases |tokens| - idx
    {
      assert HoldsOwn(Nodes()[path], path, live) && LinksDown(at, Nodes()[path], path);
      if idx == |tokens| {
        result := node.entries;
        forall e ensures e in result <==> Hit(e, path, []) { HitAtEnd(node, path, e); }
        assert tokens[idx..] == [];
        return;
      }
      result := node.wcGt;
      var tok := tokens[idx];
      ghost var rest := tokens[idx..];
      assert rest[1..] == tokens[idx + 1..] && rest[0] == tok;
      var viaChild, viaStar := [], [];
      if tok in node.children {
        viaChild := MatchWalk(node.children[tok], path + [tok], tokens, idx + 1);
      }
      if node.wcStar != null {
        viaStar := MatchWalk(node.wcStar, path + [STAR], tokens, idx + 1);
      }
      forall e ensures Hit(e, path, rest) <==> e in result || e in viaChild || e in viaStar {
        HitStep(node, path, rest, e);
      }
      forall e | e in viaChild ensures live[e.id].pattern[|path|] == tok { LastToken(path, tok); }
      forall e | e in viaStar ensures live[e.id].pattern[|path|] == STAR { LastToken(path, STAR); }
      LastToken(path, GT);
      AppendDistinct(result, viaChild);
      AppendDistinct(result + viaChild, viaStar);
      result := result + viaChild + viaStar;
    }

    lemma HitAtEnd(node: TrieNode, path: Path, e: SubEntry)
      requires Valid() && path in at && node == at[path]
      ensures e in node.entries <==> Hit(e, path, [])
    {
      var val := Nodes();
      assert HoldsOwn(val[path], path, live);
      PathsHaveNoGt(at, val, path);
      if Hit(e, path, []) {
        var p := live[e.id].pattern;
        assert p == p[..|path|] + p[|path|..] && p == path;
        assert Stored(val, e.id, live[e.id]);
      }
      if e in node.entries { assert path[|path|..] == []; }
    }

    lemma HitStep(node: TrieNode, path: Path, rest: seq<Token>, e: SubEntry)
      requires Valid() && path in at && node == at[path] && rest != []
      ensures Hit(e, path, rest) <==>
              || e in node.wcGt
              || (rest[0] in node.children && Hit(e, path + [rest[0]], rest[1..]))
              || (node.wcStar != null && Hit(e, path + [STAR], rest[1..]))
    {
      var val := Nodes();
      assert HoldsOwn(val[path], path, live) && LinksDown(at, val[path], path);
      PathsHaveNoGt(at, val, path);
      LastToken(path, GT);
      if e.id in live && live[e.id].entry == e && path <= live[e.id].pattern {
        var p := live[e.id].pattern;
        assert Stored(val, e.id, live[e.id]);
        if |p| > |path| {
          HitByNextToken(p, path, rest);
          if p[|path|] == GT {
            assert |p| == |path| + 1 && p == path + [GT];
          } else {
            OnPath(at, val, live, e.id, |path|);
            assert p[..|path|] == path;
          }
        }
      }
    }

    /** How one more token of the pattern is consumed. */
    lemma HitByNextToken(p: Path, path: Path, rest: seq<Token>)
      requires path <= p && |p| > |path| && rest != []
      ensures var t := p[|path|];
              Matches(p[|path|..], rest) <==>
                t == GT || ((t == STAR || t == rest[0]) && Matches(p[|path| + 1..], rest[1..]))
      ensures forall t :: path + [t] <= p <==> t == p[|path|]
    {
      assert p[|path|..][1..] == p[|path| + 1..];
      assert p[..|path|] == path && p[..|path| + 1] == path + [p[|path|]];
      forall t ensures path + [t] <= p <==> t == p[|path|] { LastToken(path, t); }
    }
  }

  lemma AppendDistinct(a: seq<SubEntry>, b: seq<SubEntry>)
    requires DistinctIds(a) && DistinctIds(b)
    requires forall e, f :: e in a && f in b ==> e.id != f.id
    ensures DistinctIds(a + b)
  {}

  method IndexOf(es: seq<SubEntry>, id: nat) returns (i: nat, found: bool)
    ensures found ==> i < |es| && es[i].id == id
    ensures !found ==> forall e :: e in es ==> e.id != id
  {
    i := 0;
    while i < |es|
      invariant i <= |es|
      invariant forall k :: 0 <= k < i ==> es[k].id != id
    {
      if es[i].id == id {
        return i, true;
      }
      i := i + 1;
    }
    found := false;
  }

  /** What a walk for `tokens` and `id` takes off the books. */
  ghost predicate Taken(was: map<nat, Subscription>, now: map<nat, Subscription>,
                        tokens: seq<Token>, id: nat, removed: SubEntry, found: bool) {
    && (found <==> id in was && was[id].pattern == tokens)
    && (found ==> removed == was[id].entry)
    && now == if found then was - {id} else was
  }

  ghost predicate PrunedBut(keys: set<Path>, live: map<nat, Subscription>, prune: bool, path: Path) {
    forall p {:trigger Used(live, p)} :: p in keys && p != [] ==> Used(live, p) || (prune && p <= path)
  }

  ghost predicate Shrunk(at: map<Path, TrieNode>, was: map<Path, TrieNode>) {
    at.Keys <= was.Keys && forall p :: p in at ==> at[p] == was[p]
  }
}
