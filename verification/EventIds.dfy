/** The textual event and instance identifiers (internal/gtevents/ids.go) and the second copy of
    the commit-number formatter in pkg/geotruthops/ops.go.

    The protocol model works with structured `EventID`s.  `RenderInjective` is what makes that
    sound: as long as no instance is given to two objects, identifiers are equal as strings only when
    they are equal as values, whatever the object and area identifiers hold. */
module EventIds {
  import opened Events

  // ---- numerals in base 36 -------------------------------------------------------------------

  predicate IsDigit(c: char) { '0' <= c <= '9' || 'a' <= c <= 'z' }

  /** The k-th of the digits 0 to 9 and a to z. */
  function Digit(k: nat): (c: char)
    requires k < 36
    ensures IsDigit(c)
  {
    if k < 10 then '0' + k as char else 'a' + (k - 10) as char
  }

  function Base36(n: nat): (s: string)
    ensures |s| >= 1 && forall i :: 0 <= i < |s| ==> IsDigit(s[i])
  {
    (if n < 36 then "" else Base36(n / 36)) + [Digit(n % 36)]
  }

  lemma DigitInjective(a: nat, b: nat)
    requires a < 36 && b < 36 && Digit(a) == Digit(b)
    ensures a == b
  {}

  lemma Base36Parts(n: nat)
    ensures var s := Base36(n);
            && s[|s| - 1] == Digit(n % 36)
            && s[..|s| - 1] == if n < 36 then "" else Base36(n / 36)
  {}

  lemma {:induction false} Base36Injective(m: nat, n: nat)
    requires Base36(m) == Base36(n)
    ensures m == n
    decreases m
  {
    hide Digit, Base36;
    Base36Parts(m);
    Base36Parts(n);
    DigitInjective(m % 36, n % 36);
    if m >= 36 && n >= 36 {
      Base36Injective(m / 36, n / 36);
    }
  }

  /** What a character counts for in a numeral. */
  function Worth(c: char): int { if '0' <= c <= '9' then c as int - '0' as int else c as int - 'a' as int + 10 }

  function Read(s: string): int { if s == "" then 0 else 36 * Read(s[..|s| - 1]) + Worth(s[|s| - 1]) }

  /** A numeral is read back as its number, and does not begin with a superfluous zero. */
  lemma {:induction false} ReadsBack(n: nat)
    ensures Read(Base36(n)) == n
    ensures n > 0 ==> Base36(n)[0] != '0'
    decreases n
  {
    Base36Parts(n);
    if n >= 36 { ReadsBack(n / 36); }
  }

  function Pow36(k: nat): nat { if k == 0 then 1 else 36 * Pow36(k - 1) }

  /** The hand-written formatter of the compaction tool: thirteen digits are enough for 64 bits,
      and the result is the numeral that the publisher's library call produces. */
  method FormatCommitSeq(commitSeq: nat) returns (s: string)
    requires commitSeq < 0x1_0000_0000_0000_0000
    ensures s == Base36(commitSeq)
  {
    if commitSeq == 0 {
      return "0";
    }
    ThirteenDigits();
    assert Unwritten(commitSeq) == Base36(commitSeq);
    hide Digit, Base36, Pow36, Unwritten;
    var buf := new char[13];
    var i: nat := 13;
    var n: nat := commitSeq;
    ghost var written := "";
    while n > 0
      invariant i <= 13 && n < Pow36(i) && buf[i..] == written
      invariant Base36(commitSeq) == Unwritten(n) + written
      decreases n
    {
      var rest, digit := LastDigit(n, i);
      Shift(Unwritten(rest), digit, written);
      i := i - 1;
      PutDigit(buf, i, digit);
      written := [digit] + written;
      n := rest;
    }
    NothingUnwritten(written);
    s := buf[i..];
  }

  method PutDigit(buf: array<char>, i: nat, digit: char)
    requires i < buf.Length
    modifies buf
    ensures buf[i..] == [digit] + old(buf[i + 1..])
  {
    buf[i] := digit;
  }

  /** The digits still to be written. */
  function Unwritten(n: nat): string { if n == 0 then "" else Base36(n) }

  lemma NothingUnwritten(written: string)
    ensures Unwritten(0) + written == written
  {}

  lemma Shift(front: string, c: char, tail: string)
    ensures (front + [c]) + tail == front + ([c] + tail)
  {}

  method LastDigit(n: nat, ghost i: nat) returns (rest: nat, digit: char)
    requires 0 < n < Pow36(i)
    ensures i > 0 && rest < Pow36(i - 1) && rest < n
    ensures Unwritten(n) == Unwritten(rest) + [digit]
  {
    rest, digit := n / 36, Digit(n % 36);
  }

  lemma ThirteenDigits()
    ensures Pow36(13) > 0x1_0000_0000_0000_0000
  {
    assert Pow36(4) == 1679616;
    assert Pow36(8) == 1679616 * 1679616;
    assert Pow36(12) == 1679616 * 1679616 * 1679616;
  }

  // ---- event identifiers ----------------------------------------------------------------------

  predicate NoColon(s: string) { ':' !in s }

  function ThreeFields(o: string, i: string, s: nat): string { o + ":" + i + ":" + Base36(s) }

  function Tag(id: EventID): string {
    match id
    case PositionID(_, _, _) => "gt:p:"
    case RegisteredID(_, _, _) => "gt:o:r:"
    case RemovedID(_, _, _) => "gt:o:d:"
    case EnterID(_, _, _, _) => "gt:gf:e:"
    case ExitID(_, _, _, _) => "gt:gf:x:"
    case BootedID(_) => "gt:geotruth:booted:"
  }

  function Body(id: EventID): string {
    match id
    case PositionID(o, i, s) => ThreeFields(o, i, s)
    case RegisteredID(o, i, s) => ThreeFields(o, i, s)
    case RemovedID(o, i, s) => ThreeFields(o, i, s)
    case EnterID(a, o, i, s) => a + ":" + ThreeFields(o, i, s)
    case ExitID(a, o, i, s) => a + ":" + ThreeFields(o, i, s)
    case BootedID(s) => Base36(s)
  }

  function Render(id: EventID): string { Tag(id) + Body(id) }

  // ---- what a rendered identifier tells ----------------------------------------------------------

  /** The object, or the area and the object, as the text has them. */
  function Owner(id: EventID): string {
    match id
    case PositionID(o, _, _) => o
    case RegisteredID(o, _, _) => o
    case RemovedID(o, _, _) => o
    case EnterID(a, o, _, _) => a + ":" + o
    case ExitID(a, o, _, _) => a + ":" + o
    case BootedID(_) => ""
  }

  function InstanceOf(id: EventID): string { if id.BootedID? then "" else id.i }

  /** Instance identifiers never hold a colon, see `InstanceIDsOfOneBoot`. */
  predicate Issued(id: EventID) { NoColon(InstanceOf(id)) }

  /** Text splits in one way at the last separator. */
  lemma LastField(a: string, x: string, b: string, y: string, c: char)
    requires c !in x && c !in y && a + [c] + x == b + [c] + y
    ensures a == b && x == y
  {
    var s := a + [c] + x;
    assert s[|a|] == c && s[|b|] == c;
    NoneAfter(a, x, c);
    NoneAfter(b, y, c);
    assert |a| == |b|;
    assert a == s[..|a|] && b == s[..|b|];
    assert x == s[|a| + 1..] && y == s[|b| + 1..];
  }

  lemma NoneAfter(a: string, x: string, c: char)
    requires c !in x
    ensures forall k :: |a| < k < |a + [c] + x| ==> (a + [c] + x)[k] != c
  {
    forall k | |a| < k < |a + [c] + x| ensures (a + [c] + x)[k] != c {
      assert (a + [c] + x)[k] == x[k - |a| - 1];
    }
  }

  lemma ThreeFieldsInjective(o: string, i: string, s: nat, o': string, i': string, s': nat)
    requires NoColon(i) && NoColon(i') && ThreeFields(o, i, s) == ThreeFields(o', i', s')
    ensures o == o' && i == i' && s == s'
  {
    hide Base36;
    LastField(o + ":" + i, Base36(s), o' + ":" + i', Base36(s'), ':');
    LastField(o, i, o', i', ':');
    Base36Injective(s, s');
  }

  lemma BodyIs(x: EventID)
    requires !x.BootedID?
    ensures Body(x) == ThreeFields(Owner(x), x.i, x.s)
  {
    hide Base36;
    if x.EnterID? || x.ExitID? { Regroup(x.area + ":", x.o, ":" + x.i, ":" + Base36(x.s)); }
  }

  /** The tag of a rendered identifier, read off its first characters. */
  function TagOf(r: string): string
    requires |r| > 6
  {
    if r[3] == 'p' then "gt:p:"
    else if r[3] == 'o' then (if r[5] == 'r' then "gt:o:r:" else "gt:o:d:")
    else if r[4] == 'e' then "gt:geotruth:booted:"
    else if r[6] == 'e' then "gt:gf:e:" else "gt:gf:x:"
  }

  lemma BodyLength(x: EventID)
    ensures |Body(x)| >= if x.PositionID? then 2 else 1
  {}

  lemma TagIsReadable(x: EventID)
    ensures |Render(x)| > 6 && TagOf(Render(x)) == Tag(x)
  {
    hide Body;
    BodyLength(x);
    var t, r := Tag(x), Render(x);
    assert r[3] == t[3] && r[4] == t[4];
    assert !x.PositionID? ==> r[5] == t[5] && r[6] == t[6];
  }

  /** Main result on event identifiers: exactly when two are the same string.  Object and area identifiers
      may hold colons. */
  lemma RenderEqualIff(x: EventID, y: EventID)
    requires Issued(x) && Issued(y)
    ensures Render(x) == Render(y) <==>
            Tag(x) == Tag(y) && Owner(x) == Owner(y) && InstanceOf(x) == InstanceOf(y) && x.s == y.s
  {
    TagIsReadable(x);
    TagIsReadable(y);
    assert Body(x) == Render(x)[|Tag(x)|..] && Body(y) == Render(y)[|Tag(y)|..];
    if Tag(x) == Tag(y) {
      assert x.BootedID? == y.BootedID?;
      if x.BootedID? {
        hide Render;
        if x.s != y.s && Base36(x.s) == Base36(y.s) { Base36Injective(x.s, y.s); }
      } else {
        BodyIs(x);
        BodyIs(y);
        hide Body, Owner, Render;
        if Body(x) == Body(y) { ThreeFieldsInjective(Owner(x), x.i, x.s, Owner(y), y.i, y.s); }
      }
    }
  }

  /** The instance was given to one object. */
  predicate OneObject(x: EventID, y: EventID) {
    !x.BootedID? && !y.BootedID? && x.i == y.i ==> x.o == y.o
  }

  /** As long as no instance is given to two objects, different events have different identifiers. */
  lemma RenderInjective(x: EventID, y: EventID)
    requires Issued(x) && Issued(y) && OneObject(x, y)
    ensures Render(x) == Render(y) <==> x == y
  {
    RenderEqualIff(x, y);
    hide Render;
    if Render(x) == Render(y) && (x.EnterID? || x.ExitID?) { SameArea(x.area, y.area, x.o); }
  }

  lemma SameArea(a: string, b: string, o: string)
    requires a + ":" + o == b + ":" + o
    ensures a == b
  {
    assert |a| == |b|;
    assert a == (a + ":" + o)[..|a|] && b == (b + ":" + o)[..|b|];
  }

  // ---- instance identifiers -------------------------------------------------------------------

  function NewInstanceID(bootEpoch: nat, counter: nat): string {
    "b" + Base36(bootEpoch) + "i" + Base36(counter)
  }

  /** Fresh within one boot. */
  lemma InstanceIDsOfOneBoot(bootEpoch: nat, m: nat, n: nat)
    ensures NewInstanceID(bootEpoch, m) == NewInstanceID(bootEpoch, n) <==> m == n
    ensures NoColon(NewInstanceID(bootEpoch, m))
  {
    if NewInstanceID(bootEpoch, m) == NewInstanceID(bootEpoch, n) {
      var k := |"b" + Base36(bootEpoch) + "i"|;
      assert Base36(m) == NewInstanceID(bootEpoch, m)[k..] && Base36(n) == NewInstanceID(bootEpoch, n)[k..];
      Base36Injective(m, n);
    }
  }

  lemma {:induction false} NoLeadingZero(n: nat)
    ensures |Base36(n)| > 1 ==> Base36(n)[0] != '0'
    ensures n > 0 ==> Base36(n)[0] != '0'
  {
    if n >= 36 { NoLeadingZero(n / 36); }
  }

  /** Every string of digits that does not start with a zero is a numeral. */
  lemma {:induction false} Numeral(s: string) returns (n: nat)
    requires |s| >= 1 && s[0] != '0' && forall k :: 0 <= k < |s| ==> IsDigit(s[k])
    ensures n > 0 && Base36(n) == s
    decreases |s|
  {
    var last := |s| - 1;
    var d: nat := if '0' <= s[last] <= '9' then (s[last] - '0') as nat else 10 + (s[last] - 'a') as nat;
    assert d < 36 && Digit(d) == s[last];
    if last == 0 {
      n := d;
      assert Base36(n) == [s[0]] == s;
    } else {
      var front := Numeral(s[..last]);
      n := 36 * front + d;
      assert n / 36 == front && n % 36 == d;
      assert s == s[..last] + [s[last]];
    }
  }

  /** The numeral of y goes on after that of x with the separator and no leading zero. */
  predicate GoesOn(x: string, y: string) {
    |y| > |x| && y[..|x|] == x && y[|x|] == 'i' && (|y| > |x| + 1 ==> y[|x| + 1] != '0')
  }

  lemma LongerGoesOn(x: string, m: nat, y: string, n: nat)
    requires x + ['i'] + Base36(m) == y + ['i'] + Base36(n) && |x| < |y|
    ensures GoesOn(x, y)
  {
    NoLeadingZero(m);
    hide Base36;
    var s := x + ['i'] + Base36(m);
    assert s[..|y|] == y && s[|x|] == 'i' && s[..|x|] == x;
    assert y[..|x|] == s[..|x|];
    assert Base36(m) == s[|x| + 1..];
    if |y| > |x| + 1 { assert y[|x| + 1] == Base36(m)[0] && |Base36(m)| > 1; }
  }

  lemma Regroup(a: string, x: string, c: string, m: string)
    ensures a + x + c + m == a + (x + c + m)
    ensures (x + c + m)[|x| + |c|..] == m
  {}

  lemma InstanceIDIs(b: nat, m: nat)
    ensures NewInstanceID(b, m) == ['b'] + (Base36(b) + ['i'] + Base36(m))
  {
    hide Base36;
    Regroup(['b'], Base36(b), ['i'], Base36(m));
  }

  /** What follows the separator, with another separator and a digit, is a numeral. */
  lemma TailIsNumeral(x: string, b: nat) returns (tail: string, m: nat)
    requires GoesOn(x, Base36(b))
    ensures Base36(b) == x + ['i'] + tail && Base36(m) == tail + ['i'] + ['1']
  {
    var y := Base36(b);
    hide Base36;
    tail := y[|x| + 1..];
    assert y == x + ['i'] + tail;
    var s := tail + ['i'] + ['1'];
    forall k | 0 <= k < |s| ensures IsDigit(s[k]) {
      if k < |tail| { assert s[k] == y[|x| + 1 + k]; }
    }
    assert s[0] == if tail == "" then 'i' else y[|x| + 1];
    m := Numeral(s);
  }

  lemma GoingOnCollides(b: nat, b': nat) returns (m: nat, n: nat)
    requires GoesOn(Base36(b), Base36(b'))
    ensures NewInstanceID(b, m) == NewInstanceID(b', n)
  {
    assert Base36(1) == ['1'];
    hide Base36, NewInstanceID;
    var tail;
    tail, m := TailIsNumeral(Base36(b), b');
    n := 1;
    InstanceIDIs(b, m);
    InstanceIDIs(b', n);
    Reassociate(Base36(b), ['i'], tail, ['1']);
  }

  lemma Reassociate(x: string, c: string, tail: string, d: string)
    ensures x + c + (tail + c + d) == (x + c + tail) + c + d
  {}

  /** Main result on instance identifiers: two boots can issue the same one exactly when one epoch's
      numeral goes on after the other's with an `i` and no zero. */
  lemma InstanceIDsCollideIff(b: nat, b': nat)
    requires b != b'
    ensures (exists m, n :: NewInstanceID(b, m) == NewInstanceID(b', n))
            <==> GoesOn(Base36(b), Base36(b')) || GoesOn(Base36(b'), Base36(b))
  {
    hide Base36, NewInstanceID;
    var x, y := Base36(b), Base36(b');
    if GoesOn(x, y) { var m, n := GoingOnCollides(b, b'); }
    if GoesOn(y, x) { var n, m := GoingOnCollides(b', b); }
    if exists m, n :: NewInstanceID(b, m) == NewInstanceID(b', n) {
      var m, n :| NewInstanceID(b, m) == NewInstanceID(b', n);
      SameWithoutPrefix(b, m, b', n);
      if |x| < |y| {
        LongerGoesOn(x, m, y, n);
      } else if |y| < |x| {
        LongerGoesOn(y, n, x, m);
      } else {
        var s := x + ['i'] + Base36(m);
        assert s[..|x|] == x && s[..|y|] == y;
        Base36Injective(b, b');
      }
    }
  }

  lemma SameWithoutPrefix(b: nat, m: nat, b': nat, n: nat)
    requires NewInstanceID(b, m) == NewInstanceID(b', n)
    ensures Base36(b) + ['i'] + Base36(m) == Base36(b') + ['i'] + Base36(n)
  {
    InstanceIDIs(b, m);
    InstanceIDIs(b', n);
    hide Base36, NewInstanceID;
    assert NewInstanceID(b, m)[1..] == Base36(b) + ['i'] + Base36(m);
    assert NewInstanceID(b', n)[1..] == Base36(b') + ['i'] + Base36(n);
  }

  /** The epochs 1 and 54 are such a pair. */
  lemma InstanceIDsCollide()
    ensures NewInstanceID(54, 2) == NewInstanceID(1, 650) == "b1ii2"
  {
    assert Base36(54) == "1i";
    assert Base36(650) == "i2";
    assert NewInstanceID(54, 2) == "b" + "1i" + "i" + "2";
    assert NewInstanceID(1, 650) == "b" + "1" + "i" + "i2";
  }

  // ---- events of two boots ----------------------------------------------------------------------------

  /** An event of an object whose instance the boot issued. */
  ghost predicate OfBoot(x: EventID, bootEpoch: nat) {
    !x.BootedID? && exists n :: InstanceOf(x) == NewInstanceID(bootEpoch, n)
  }

  /** Within one boot, where every counter value goes to one object, identifiers are distinct. */
  lemma OneBootInjective(bootEpoch: nat, x: EventID, m: nat, y: EventID, n: nat)
    requires !x.BootedID? && !y.BootedID? && x.i == NewInstanceID(bootEpoch, m) && y.i == NewInstanceID(bootEpoch, n)
    requires m == n ==> x.o == y.o
    ensures Render(x) == Render(y) <==> x == y
  {
    InstanceIDsOfOneBoot(bootEpoch, m, n);
    InstanceIDsOfOneBoot(bootEpoch, n, m);
    hide NewInstanceID, Render;
    RenderInjective(x, y);
  }

  /** With one instance given to two objects, a colon can move from the object to the area. */
  lemma SharedInstanceCollides(i: string, s: nat)
    ensures Render(EnterID("a:b", "c", i, s)) == Render(EnterID("a", "b:c", i, s))
  {
    var x, y := EnterID("a:b", "c", i, s), EnterID("a", "b:c", i, s);
    BodyIs(x);
    BodyIs(y);
    assert Owner(x) == "a:b:c" == Owner(y);
  }

  /** A shared instance identifier gives two different events one identifier. */
  lemma SharedInstanceGivesEvents(b: nat, m: nat, b': nat, n: nat)
    requires NewInstanceID(b, m) == NewInstanceID(b', n)
    ensures exists x, y :: OfBoot(x, b) && OfBoot(y, b') && x != y && Render(x) == Render(y)
  {
    hide NewInstanceID, Render;
    var i := NewInstanceID(b, m);
    var x, y := EnterID("a:b", "c", i, 2), EnterID("a", "b:c", i, 2);
    SharedInstanceCollides(i, 2);
    assert OfBoot(x, b) && OfBoot(y, b');
    assert |x.area| != |y.area|;
  }

  lemma EventsShareInstance(b: nat, x: EventID, b': nat, y: EventID)
    requires OfBoot(x, b) && OfBoot(y, b') && Render(x) == Render(y)
    ensures exists m, n :: NewInstanceID(b, m) == NewInstanceID(b', n)
  {
    hide NewInstanceID, Render;
    var m :| InstanceOf(x) == NewInstanceID(b, m);
    var n :| InstanceOf(y) == NewInstanceID(b', n);
    InstanceIDsOfOneBoot(b, m, m);
    InstanceIDsOfOneBoot(b', n, n);
    RenderEqualIff(x, y);
    assert NewInstanceID(b, m) == NewInstanceID(b', n);
  }

  /** Main result across boots: different events of two boots can have the same identifier exactly when the
      boots can issue the same instance identifier. */
  lemma BootsShareEventIDsIff(b: nat, b': nat)
    requires b != b'
    ensures (exists x, y :: OfBoot(x, b) && OfBoot(y, b') && x != y && Render(x) == Render(y))
            <==> GoesOn(Base36(b), Base36(b')) || GoesOn(Base36(b'), Base36(b))
  {
    InstanceIDsCollideIff(b, b');
    hide Render, GoesOn, NewInstanceID, Base36, OfBoot;
    if exists x, y :: OfBoot(x, b) && OfBoot(y, b') && x != y && Render(x) == Render(y) {
      var x, y :| OfBoot(x, b) && OfBoot(y, b') && x != y && Render(x) == Render(y);
      EventsShareInstance(b, x, b', y);
    }
    if exists m, n :: NewInstanceID(b, m) == NewInstanceID(b', n) {
      var m, n :| NewInstanceID(b, m) == NewInstanceID(b', n);
      SharedInstanceGivesEvents(b, m, b', n);
    }
  }

  /** Two enters that the service can publish under one identifier: the boots 54 and 1 register the objects
      `c` and `b:c` under the same instance, and both enter an area with their second commit. */
  lemma EventIDsCollide()
    ensures var x := EnterID("a:b", "c", NewInstanceID(54, 2), 2);
            var y := EnterID("a", "b:c", NewInstanceID(1, 650), 2);
            OfBoot(x, 54) && OfBoot(y, 1) && x != y && Render(x) == Render(y)
  {
    InstanceIDsCollide();
    SharedInstanceCollides(NewInstanceID(54, 2), 2);
    hide NewInstanceID, Render;
    assert |"a:b"| != |"a"|;
  }
}
