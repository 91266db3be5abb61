/** Subject patterns of the multiplexing consumer (pkg/natsconsumer/subject.go).

    A subject is a dot-separated list of tokens.  In a pattern the token `*` stands for
    exactly one token and `>` for one or more remaining ones.  The index walks of the source
    are methods; what they decide is stated with the predicates `Matches` and `Contains`, and
    the main result is that `Contains` decides inclusion of the matched languages. */
module Subjects {
  type Token = string

  const STAR: Token := "*"
  const GT: Token := ">"

  // ---- tokens -----------------------------------------------------------------------------

  /** The split on dots; it is never empty, and no token holds a dot. */
  function Split(s: string): (tokens: seq<Token>)
    ensures |tokens| >= 1
    ensures DotFree(tokens)
    ensures Join(tokens) == s
  {
    if s == "" then [""]
    else
      var rest := Split(s[1..]);
      if s[0] == '.' then
        assert ([""] + rest)[1..] == rest;
        [""] + rest
      else
        var r := [[s[0]] + rest[0]] + rest[1..];
        assert r[1..] == rest[1..];
        r
  }

  ghost predicate DotFree(tokens: seq<Token>) {
    forall i :: 0 <= i < |tokens| ==> '.' !in tokens[i]
  }

  function Join(tokens: seq<Token>): string {
    if |tokens| == 0 then ""
    else if |tokens| == 1 then tokens[0]
    else tokens[0] + "." + Join(tokens[1..])
  }

  function Tokenize(subject: string): (tokens: seq<Token>)
    ensures DotFree(tokens) && tokens != [""]
    ensures Join(tokens) == subject
  {
    if subject == "" then [] else Split(subject)
  }

  lemma {:induction false} SplitJoin(tokens: seq<Token>)
    requires |tokens| >= 1 && DotFree(tokens)
    ensures Split(Join(tokens)) == tokens
    decreases |tokens|, |tokens[0]|
  {
    var t := tokens[0];
    if t == "" {
      if |tokens| > 1 {
        assert Join(tokens)[1..] == Join(tokens[1..]);
        SplitJoin(tokens[1..]);
        assert tokens == [""] + tokens[1..];
      }
    } else {
      var shorter := [t[1..]] + tokens[1..];
      assert shorter[1..] == tokens[1..];
      assert t == [t[0]] + t[1..];
      assert Join(tokens)[1..] == Join(shorter) && Join(tokens)[0] == t[0];
      assert t[0] in t;
      SplitJoin(shorter);
      assert tokens == [[t[0]] + shorter[0]] + shorter[1..];
    }
  }

  /** Token sequences that some string spells. */
  lemma TokenizeJoin(tokens: seq<Token>)
    requires DotFree(tokens) && tokens != [""]
    ensures Tokenize(Join(tokens)) == tokens
  {
    if |tokens| > 0 {
      SplitJoin(tokens);
    }
  }

  // ---- matching ---------------------------------------------------------------------------

  /** The meaning of a pattern: a `>` ends the pattern and takes whatever is left. */
  predicate Matches(p: seq<Token>, s: seq<Token>) {
    if p == [] then s == []
    else if p[0] == GT then s != []
    else s != [] && (p[0] == STAR || p[0] == s[0]) && Matches(p[1..], s[1..])
  }

  predicate SubjectMatch(pattern: string, subject: string) {
    Matches(Tokenize(pattern), Tokenize(subject))
  }

  predicate IsConcreteToken(t: Token) { t != STAR && t != GT }

  predicate IsConcrete(s: seq<Token>) {
    forall i :: 0 <= i < |s| ==> IsConcreteToken(s[i])
  }

  predicate IsConcreteSubject(subject: string) { IsConcrete(Tokenize(subject)) }

  /** `>` only as the last token: what `validateSubject` accepts. */
  predicate IsValid(p: seq<Token>) {
    forall i :: 0 <= i < |p| - 1 ==> p[i] != GT
  }

  predicate IsValidPattern(pattern: string) { IsValid(Tokenize(pattern)) }

  lemma {:induction false} MatchesItself(p: seq<Token>)
    ensures Matches(p, p)
  {
    if p != [] && p[0] != GT { MatchesItself(p[1..]); }
  }

  /** The documented reading of a valid pattern, position by position. */
  lemma {:induction false} MatchesByPosition(p: seq<Token>, s: seq<Token>)
    requires IsValid(p)
    ensures Matches(p, s) <==>
            var open := p != [] && p[|p| - 1] == GT;
            var fixed := if open then |p| - 1 else |p|;
            && (if open then |s| >= |p| else |s| == |p|)
            && forall i :: 0 <= i < fixed && i < |s| ==> p[i] == STAR || p[i] == s[i]
  {
    if p != [] && p[0] != GT && s != [] {
      var p', s' := p[1..], s[1..];
      MatchesByPosition(p', s');
      assert forall i :: 1 <= i < |p| ==> p[i] == p'[i - 1];
      assert forall i :: 1 <= i < |s| ==> s[i] == s'[i - 1];
      assert forall i :: 0 <= i < |p'| ==> p'[i] == p[i + 1];
      assert forall i :: 0 <= i < |s'| ==> s'[i] == s[i + 1];
    }
  }

  method MatchTokens(ptokens: seq<Token>, stokens: seq<Token>) returns (r: bool)
    ensures r <==> Matches(ptokens, stokens) || ptokens == [GT]
  {
    var pi, si := 0, 0;
    while true
      invariant 0 <= pi <= |ptokens| && 0 <= si <= |stokens|
      invariant pi == si
      invariant Matches(ptokens, stokens) <==> Matches(ptokens[pi..], stokens[si..])
      invariant ptokens == [GT] ==> pi == 0
      decreases |ptokens| - pi
    {
      if pi == |ptokens| {
        return si == |stokens|;
      }
      if ptokens[pi] == GT {
        if pi == 0 && |ptokens| == 1 {
          return true;
        }
        return si < |stokens|;
      }
      if si == |stokens| {
        return false;
      }
      assert ptokens[pi..][1..] == ptokens[pi + 1..];
      assert stokens[si..][1..] == stokens[si + 1..];
      if ptokens[pi] != STAR && ptokens[pi] != stokens[si] {
        return false;
      }
      pi, si := pi + 1, si + 1;
    }
  }

  /** The public matcher agrees with the token meaning for every pattern and every subject,
      although its helper lets a lone `>` match the empty subject. */
  method SubjectMatches(pattern: string, subject: string) returns (r: bool)
    ensures r <==> SubjectMatch(pattern, subject)
  {
    if pattern == ">" {
      return subject != "";
    }
    if pattern == subject {
      MatchesItself(Tokenize(pattern));
      return true;
    }
    var ptokens, stokens := Tokenize(pattern), Tokenize(subject);
    assert Join([GT]) == ">";
    r := MatchTokens(ptokens, stokens);
  }

  method ValidateSubject(subject: string) returns (ok: bool)
    ensures ok <==> IsValidPattern(subject)
  {
    if subject == ">" || subject == "" {
      return true;
    }
    var tokens := Tokenize(subject);
    var i := 0;
    while i < |tokens|
      invariant 0 <= i <= |tokens|
      invariant forall j :: 0 <= j < i && j < |tokens| - 1 ==> tokens[j] != GT
    {
      if tokens[i] == GT && i != |tokens| - 1 {
        return false;
      }
      i := i + 1;
    }
    return true;
  }

  // ---- containment ------------------------------------------------------------------------

  /** The rules of `containsTokens`. */
  predicate Contains(c: seq<Token>, d: seq<Token>) {
    if c == [] then d == []
    else if c[0] == GT then d != []
    else
      && d != [] && d[0] != GT
      && (c[0] == STAR || (d[0] != STAR && c[0] == d[0]))
      && Contains(c[1..], d[1..])
  }

  predicate PatternCovers(container: string, contained: string) {
    Contains(Tokenize(container), Tokenize(contained))
  }

  ghost predicate Includes(container: string, contained: string) {
    forall s: string ::
      IsConcreteSubject(s) && SubjectMatch(contained, s) ==> SubjectMatch(container, s)
  }

  lemma {:induction false} ContainsIsSound(c: seq<Token>, d: seq<Token>, s: seq<Token>)
    requires Contains(c, d) && Matches(d, s)
    ensures Matches(c, s)
  {
    if c != [] && c[0] != GT { ContainsIsSound(c[1..], d[1..], s[1..]); }
  }

  /** A token that is no token of `c` and no wildcard. */
  function FreshToken(c: seq<Token>): (t: Token)
    ensures |t| >= 1 && forall i :: 0 <= i < |t| ==> t[i] == 'x'
    ensures t !in c && IsConcreteToken(t) && '.' !in t
  {
    var n := 1 + MaxLength(c);
    var t := seq(n, i => 'x');
    assert t[0] == 'x';
    t
  }

  function MaxLength(c: seq<Token>): (n: nat)
    ensures forall t :: t in c ==> |t| <= n
  {
    if c == [] then 0
    else
      var n := MaxLength(c[1..]);
      if |c[0]| > n then |c[0]| else n
  }

  /** A concrete subject matched by `d`: every wildcard becomes one `filler` token. */
  function Instance(d: seq<Token>, filler: Token): (s: seq<Token>)
    requires IsConcreteToken(filler) && '.' !in filler && DotFree(d)
    ensures Matches(d, s) && IsConcrete(s) && DotFree(s)
    ensures d != [] ==> s != []
    ensures s == [""] ==> d == [""] || filler == ""
  {
    if d == [] then []
    else if d[0] == GT then [filler]
    else [if d[0] == STAR then filler else d[0]] + Instance(d[1..], filler)
  }

  /** A concrete subject matched by `d` and not by `c`, following the two walks until they part. */
  function Separator(c: seq<Token>, d: seq<Token>, filler: Token): (s: seq<Token>)
    requires !Contains(c, d)
    requires IsConcreteToken(filler) && '.' !in filler && filler !in c && DotFree(d)
    ensures Matches(d, s) && !Matches(c, s) && IsConcrete(s) && DotFree(s)
    ensures s == [""] ==> d == [""] || filler == ""
  {
    if c == [] || d == [] then Instance(d, filler)
    else if d[0] == GT then
      if c == [STAR] then [filler, filler] else [filler]
    else
      var t := if d[0] == STAR then filler else d[0];
      if c[0] == STAR || c[0] == d[0] then
        [t] + Separator(c[1..], d[1..], filler)
      else
        [t] + Instance(d[1..], filler)
  }

  /** Main result: containment decides inclusion of the matched concrete subjects. */
  lemma ContainmentIsInclusion(container: string, contained: string)
    ensures PatternCovers(container, contained) <==> Includes(container, contained)
  {
    var c, d := Tokenize(container), Tokenize(contained);
    if Contains(c, d) {
      forall s: string | IsConcreteSubject(s) && SubjectMatch(contained, s)
        ensures SubjectMatch(container, s)
      {
        ContainsIsSound(c, d, Tokenize(s));
      }
    } else {
      var s := Separator(c, d, FreshToken(c));
      TokenizeJoin(s);
      assert IsConcreteSubject(Join(s)) && SubjectMatch(contained, Join(s));
    }
  }

  method PatternContains(container: string, contained: string) returns (r: bool)
    ensures r <==> PatternCovers(container, contained)
    ensures r <==> Includes(container, contained)
  {
    ContainmentIsInclusion(container, contained);
    var ct, dt := Tokenize(container), Tokenize(contained);
    var ci, di := 0, 0;
    while true
      invariant 0 <= ci == di <= |ct| && di <= |dt|
      invariant Contains(ct, dt) <==> Contains(ct[ci..], dt[di..])
      decreases |ct| - ci
    {
      if ci == |ct| {
        return di == |dt|;
      }
      if ct[ci] == GT {
        return di < |dt|;
      }
      if di == |dt| {
        return false;
      }
      assert ct[ci..][1..] == ct[ci + 1..];
      assert dt[di..][1..] == dt[di + 1..];
      if ct[ci] == STAR {
        if dt[di] == GT {
          return false;
        }
        ci, di := ci + 1, di + 1;
        continue;
      }
      if dt[di] == GT || dt[di] == STAR {
        return false;
      }
      if ct[ci] != dt[di] {
        return false;
      }
      ci, di := ci + 1, di + 1;
    }
  }

  // ---- containment is a partial order on valid patterns ------------------------------------

  lemma {:induction false} ContainsReflexive(c: seq<Token>)
    ensures Contains(c, c)
  {
    if c != [] && c[0] != GT { ContainsReflexive(c[1..]); }
  }

  lemma {:induction false} ContainsTransitive(c: seq<Token>, d: seq<Token>, e: seq<Token>)
    requires Contains(c, d) && Contains(d, e)
    ensures Contains(c, e)
  {
    if c != [] && c[0] != GT { ContainsTransitive(c[1..], d[1..], e[1..]); }
  }

  lemma {:induction false} ContainsAntisymmetric(c: seq<Token>, d: seq<Token>)
    requires IsValid(c) && IsValid(d)
    requires Contains(c, d) && Contains(d, c)
    ensures c == d
  {
    if c != [] && c[0] != GT {
      assert IsValid(c[1..]) && IsValid(d[1..]);
      ContainsAntisymmetric(c[1..], d[1..]);
      assert c == [c[0]] + c[1..] && d == [d[0]] + d[1..];
    } else if c != [] {
      assert |c| == 1 && |d| == 1;
    }
  }

  /** Equivalent patterns are the same string, so neither of two patterns drops the other unless
      one is strictly broader. */
  lemma EquivalentPatternsAreEqual(p: string, q: string)
    requires IsValidPattern(p) && IsValidPattern(q)
    requires Includes(p, q) && Includes(q, p)
    ensures p == q
  {
    ContainmentIsInclusion(p, q);
    ContainmentIsInclusion(q, p);
    ContainsAntisymmetric(Tokenize(p), Tokenize(q));
    assert Join(Tokenize(p)) == Join(Tokenize(q));
  }

  /** Without the rule on `>` antisymmetry fails: two spellings of one language. */
  lemma InvalidPatternsCanBeEquivalent()
    ensures Contains([GT], [GT, "a"]) && Contains([GT, "a"], [GT]) && !IsValid([GT, "a"])
  {
    assert [GT, "a"][0] == GT;
  }
}
