/** Values shared by the engine, the event builder and the log: positions, dimensions, geofence
    transitions and their replay. */
module Domain {
  datatype Option<+T> = None | Some(value: T)

  datatype Result<+T> = Ok(value: T) | Err

  type ObjectID = string
  type AreaID = string

  /** A region is named by its position in the resolver's list of known regions. */
  type Region = nat

  datatype Position = Position(x: real, y: real, z: real, rotY: real)
  datatype Dims = Dims(width: real, height: real)

  datatype Transition = Transition(area: AreaID, entered: bool)

  // ---- enumerations of finite sets ---------------------------------------------------------

  function Elems<T>(s: seq<T>): set<T> { set x | x in s }

  ghost predicate Distinct<T>(s: seq<T>) {
    forall i, j :: 0 <= i < j < |s| ==> s[i] != s[j]
  }

  /** `ids` lists the members of `s`, each once, in some order (that of a Go map). */
  ghost predicate Lists<T>(ids: seq<T>, s: set<T>) {
    Distinct(ids) && Elems(ids) == s
  }

  lemma {:induction false} SomeListing<T>(s: set<T>) returns (ids: seq<T>)
    ensures Lists(ids, s)
    decreases s
  {
    if s == {} {
      ids := [];
    } else {
      var x :| x in s;
      var rest := SomeListing(s - {x});
      ids := rest + [x];
      assert x !in Elems(rest);
      assert Elems(ids) == Elems(rest) + {x};
    }
  }

  function Marks(ids: seq<AreaID>, entered: bool): (ts: seq<Transition>)
    ensures |ts| == |ids| && forall i :: 0 <= i < |ids| ==> ts[i] == Transition(ids[i], entered)
  {
    seq(|ids|, i requires 0 <= i < |ids| => Transition(ids[i], entered))
  }

  // ---- replay of transitions -----------------------------------------------------------------

  /** The inside set after a list of transitions, or none when an area is entered twice or left
      without having been entered. */
  function Replay(inside: set<AreaID>, ts: seq<Transition>): Option<set<AreaID>>
    decreases |ts|
  {
    if ts == [] then Some(inside)
    else if ts[0].entered == (ts[0].area in inside) then None
    else Replay(if ts[0].entered then inside + {ts[0].area} else inside - {ts[0].area}, ts[1..])
  }

  lemma {:induction false} ReplayConcat(inside: set<AreaID>, a: seq<Transition>, b: seq<Transition>)
    ensures Replay(inside, a + b) ==
            match Replay(inside, a) case None => None case Some(mid) => Replay(mid, b)
    decreases |a|
  {
    if a == [] {
      assert a + b == b;
    } else {
      assert (a + b)[0] == a[0] && (a + b)[1..] == a[1..] + b;
      if a[0].entered != (a[0].area in inside) {
        ReplayConcat(if a[0].entered then inside + {a[0].area} else inside - {a[0].area}, a[1..], b);
      }
    }
  }

  /** Entering areas works exactly when all of them are outside. */
  lemma {:induction false} ReplayEnters(inside: set<AreaID>, ids: seq<AreaID>)
    requires Distinct(ids)
    ensures Replay(inside, Marks(ids, true)) == if Elems(ids) !! inside then Some(inside + Elems(ids)) else None
    decreases |ids|
  {
    if ids == [] {
      assert inside + Elems(ids) == inside;
    } else {
      var rest := ids[1..];
      assert Marks(ids, true)[1..] == Marks(rest, true);
      assert ids[0] in Elems(ids);
      assert Elems(ids) == {ids[0]} + Elems(rest);
      assert ids[0] !in Elems(rest);
      ReplayEnters(inside + {ids[0]}, rest);
      assert inside + {ids[0]} + Elems(rest) == inside + Elems(ids);
    }
  }

  /** Leaving areas works exactly when all of them are inside. */
  lemma {:induction false} ReplayExits(inside: set<AreaID>, ids: seq<AreaID>)
    requires Distinct(ids)
    ensures Replay(inside, Marks(ids, false)) == if Elems(ids) <= inside then Some(inside - Elems(ids)) else None
    decreases |ids|
  {
    if ids == [] {
      assert inside - Elems(ids) == inside;
    } else {
      var rest := ids[1..];
      assert Marks(ids, false)[1..] == Marks(rest, false);
      assert ids[0] in Elems(ids);
      assert Elems(ids) == {ids[0]} + Elems(rest);
      assert ids[0] !in Elems(rest);
      ReplayExits(inside - {ids[0]}, rest);
      assert inside - {ids[0]} - Elems(rest) == inside - Elems(ids);
    }
  }

  /** Entering what is new and leaving what is gone, by a stored set, leads to the current set exactly when
      the stored set is where one starts. */
  lemma ReplayDifference(from: set<AreaID>, stored: set<AreaID>, cur: set<AreaID>, enters: seq<AreaID>, exits: seq<AreaID>)
    requires Lists(enters, cur - stored) && Lists(exits, stored - cur)
    ensures Replay(from, Marks(enters, true) + Marks(exits, false)) == Some(cur) <==> from == stored
  {
    ReplayEnters(from, enters);
    ReplayExits(from + Elems(enters), exits);
    ReplayConcat(from, Marks(enters, true), Marks(exits, false));
    assert stored + (cur - stored) - (stored - cur) == cur;
    if Replay(from, Marks(enters, true) + Marks(exits, false)) == Some(cur) {
      forall a ensures a in from <==> a in stored {
        assert a in cur <==> a in from + (cur - stored) - (stored - cur);
      }
    }
  }

  /** The enter/exit flags of one area, in order. */
  function FlagsOf(ts: seq<Transition>, area: AreaID): seq<bool> {
    if ts == [] then []
    else if ts[0].area == area then [ts[0].entered] + FlagsOf(ts[1..], area)
    else FlagsOf(ts[1..], area)
  }

  predicate Alternates(flags: seq<bool>, first: bool) {
    forall i :: 0 <= i < |flags| ==> flags[i] == if i % 2 == 0 then first else !first
  }

  /** A list of transitions replays exactly when the events of every area alternate, starting with
      an enter for the areas outside and with an exit for those inside. */
  lemma {:induction false} ReplayIffAlternating(inside: set<AreaID>, ts: seq<Transition>)
    ensures Replay(inside, ts).Some? <==>
            forall a :: Alternates(FlagsOf(ts, a), a !in inside)
    decreases |ts|
  {
    if ts != [] {
      var t := ts[0];
      var flags := FlagsOf(ts, t.area);
      if t.entered == (t.area in inside) {
        assert flags[0] == t.entered;
        assert !Alternates(flags, t.area !in inside);
      } else {
        var next := if t.entered then inside + {t.area} else inside - {t.area};
        ReplayIffAlternating(next, ts[1..]);
        forall a ensures Alternates(FlagsOf(ts, a), a !in inside) <==> Alternates(FlagsOf(ts[1..], a), a !in next) {
          if a == t.area { AlternatesTail(FlagsOf(ts[1..], a), t.entered); }
        }
      }
    }
  }

  lemma AlternatesTail(flags: seq<bool>, first: bool)
    ensures Alternates([first] + flags, first) <==> Alternates(flags, !first)
  {
    var all := [first] + flags;
    assert forall i :: 0 <= i < |flags| ==> all[i + 1] == flags[i];
    if Alternates(all, first) {
      forall i | 0 <= i < |flags| ensures flags[i] == if i % 2 == 0 then !first else first {
        assert all[i + 1] == if (i + 1) % 2 == 0 then first else !first;
      }
    }
  }
}
