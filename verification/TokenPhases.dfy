/** Which slots are given back and registered at the start of a cycle, and which waits go on. */
module TokenPhases {
  import opened Options
  import opened Tokens
  import opened TokenSafety
  import Overtaking

  /** A slot is given back exactly if its robot is seen outside, and has been inside or no longer comes by. */
  lemma GivenBack(c: Config, s: State, i: Input, k: Slot)
    requires Valid(c, s)
    ensures k in Released(s, i).held ==> k in s.held && Released(s, i).held[k] == s.held[k]
    ensures k in s.held && k !in Released(s, i).held <==>
              k in s.held && k !in i.occupied && k.1 !in i.frozen && (k in s.entered || k.0 !in Lookup(i.upcoming, k.1))
    ensures k in Released(s, i).entered <==> k in Released(s, i).held && (k in s.entered || k in i.occupied)
  {
  }

  /** The direction a body is seen to go in, or else the one it asked for. */
  ghost function WayInside(i: Input, k: Slot): Direction {
    if k in i.directions && i.directions[k].Some? then i.directions[k]
    else if k.1 in i.requests && k.0 in i.requests[k.1].directions then i.requests[k.1].directions[k.0]
    else None
  }

  lemma WayInsideIs(i: Input, k: Slot)
    ensures DirectionAt(i, k) == WayInside(i, k)
  {
  }

  /** Somebody else is in the zone and does not go the same way. */
  ghost predicate Opposed(c: Config, held: map<Slot, Direction>, k: Slot, d: Direction) {
    exists l :: l in held && l.0 == k.0 && l.1 != k.1 && !SameWay(c, k.0, held[l], d)
  }

  /** After n bodies: slots taken are those of bodies in known zones, and a body without its slot is opposed. */
  ghost predicate Inside(c: Config, s: State, i: Input, n: nat, t: State)
    requires n <= |i.occupied|
  {
    && (forall k :: k in s.held ==> k in t.held && t.held[k] == s.held[k])
    && (forall k :: k in t.held && k !in s.held ==>
          k in i.occupied[..n] && k.0 in c.zones && t.held[k] == WayInside(i, k) && k in t.entered)
    && (forall k :: k in i.occupied[..n] && k.0 in c.zones && k !in t.held ==> Opposed(c, t.held, k, WayInside(i, k)))
    && (forall k :: k in t.entered && k !in s.entered ==> k in t.held && k !in s.held)
    && s.entered <= t.entered && t.waits == s.waits && t.number == s.number
  }

  lemma OneInside(c: Config, s: State, i: Input, n: nat, t: State)
    requires n < |i.occupied| && Inside(c, s, i, n, t)
    ensures Inside(c, s, i, n + 1, RegisterOne(c, t, i, i.occupied[n]))
  {
    hide DirectionAt, WayInside, SameWay;
    var k := i.occupied[n];
    WayInsideIs(i, k);
    var u := RegisterOne(c, t, i, k);
    assert i.occupied[..n + 1] == i.occupied[..n] + [k];
    forall l | l in i.occupied[..n + 1] && l.0 in c.zones && l !in u.held ensures Opposed(c, u.held, l, WayInside(i, l)) {
      if l in i.occupied[..n] {
        var x :| x in t.held && x.0 == l.0 && x.1 != l.1 && !SameWay(c, l.0, t.held[x], WayInside(i, l));
        assert x in u.held && u.held[x] == t.held[x];
      } else {
        var x :| x in t.held && x.0 == k.0 && x.1 != k.1 && !SameWay(c, k.0, t.held[x], WayInside(i, k));
        assert x in u.held && u.held[x] == t.held[x];
      }
    }
  }

  /** Every body in a known zone has its slot then, unless somebody there goes another way. */
  lemma {:induction false} BodiesRegistered(c: Config, s: State, i: Input, n: nat)
    requires n <= |i.occupied|
    ensures Inside(c, s, i, n, Registered(c, s, i, n))
  {
    hide Inside, RegisterOne;
    if n > 0 {
      BodiesRegistered(c, s, i, n - 1);
      OneInside(c, s, i, n - 1, Registered(c, s, i, n - 1));
    } else {
      NobodyInside(c, s, i);
    }
  }

  lemma NobodyInside(c: Config, s: State, i: Input)
    ensures Inside(c, s, i, 0, s)
  {
  }

  // ---------------------------------------------------------------- waits

  /** r waited before, still needs something, and asks for one of the zones it waited for. */
  ghost predicate GoesOn(s: State, i: Input, need: map<Robot, seq<Zone>>, r: Robot) {
    r in s.waits && r in need && r in i.requests && exists z :: z in s.waits[r].zones && z in i.requests[r].zones
  }

  /** After n requests: waits go on unchanged but for their zones, the others begin now, numbered in turn. */
  ghost predicate WaitsSo(s: State, i: Input, need: map<Robot, seq<Zone>>, n: nat, t: State)
    requires n <= |i.order|
  {
    && t.number >= s.number
    && (forall r :: r in t.waits ==> r in i.requests && t.waits[r].zones == i.requests[r].zones)
    && (forall r :: GoesOn(s, i, need, r) ==> r in t.waits && t.waits[r] == s.waits[r].(zones := i.requests[r].zones))
    && (forall r :: r in t.waits && !GoesOn(s, i, need, r) ==>
          && r in i.order[..n] && r in need && t.waits[r].since == i.now && t.waits[r].bypassed == 0
          && s.number < t.waits[r].number <= t.number)
    && (forall r :: r in i.order[..n] && r in need && r in i.requests ==> r in t.waits)
    && (forall r, o :: r in t.waits && o in t.waits && !GoesOn(s, i, need, r) && !GoesOn(s, i, need, o) && r != o ==>
          t.waits[r].number != t.waits[o].number)
  }

  lemma WaitStarts(s: State, i: Input, need: map<Robot, seq<Zone>>, n: nat, t: State)
    requires n < |i.order| && WaitsSo(s, i, need, n, t)
    ensures var r := i.order[n];
            var u := if r in need && r in i.requests && r !in t.waits
                     then t.(waits := t.waits[r := Wait(i.requests[r].zones, i.now, t.number + 1, 0)], number := t.number + 1)
                     else t;
            WaitsSo(s, i, need, n + 1, u)
  {
    hide GoesOn;
    assert i.order[..n + 1] == i.order[..n] + [i.order[n]];
  }

  lemma {:induction false} StartedSo(s: State, i: Input, need: map<Robot, seq<Zone>>, t: State, n: nat)
    requires n <= |i.order| && WaitsSo(s, i, need, 0, t)
    ensures WaitsSo(s, i, need, n, Started(t, i, need, n))
  {
    hide WaitsSo;
    if n > 0 {
      StartedSo(s, i, need, t, n - 1);
      WaitStarts(s, i, need, n - 1, Started(t, i, need, n - 1));
    }
  }

  /**
   Exactly the needing robots wait when grants are decided: whoever still asks for a zone it waited
   for keeps its time, number and count, everybody else begins to wait now, with a number of its own.
   */
  lemma WaitsExactly(c: Config, s: State, i: Input)
    requires i.Valid()
    ensures var m := Prepared(c, s, i);
            m.waits.Keys == Need(c, m, i).Keys && WaitsSo(s, i, Need(c, m, i), |i.order|, m)
  {
    hide Released, RegisterOne, Missing, WaitsSo;
    var t := Registered(c, Released(s, i), i, |i.occupied|);
    Overtaking.RegisteredWaits(c, Released(s, i), i, |i.occupied|);
    NumberKept(c, Released(s, i), i, |i.occupied|);
    var need := Need(c, t, i);
    var u := t.(waits := Continued(t, i, need));
    ReleasedParts(s, i);
    ContinuedSo(s, t, i, need);
    StartedSo(s, i, need, u, |i.order|);
    StartedSame(u, i, need, |i.order|);
    assert Need(c, Started(u, i, need, |i.order|), i) == need;
    Overtaking.PreparedWaits(c, s, i);
  }

  lemma ReleasedParts(s: State, i: Input)
    ensures Released(s, i).waits == s.waits && Released(s, i).number == s.number
  {
  }

  lemma {:induction false} NumberKept(c: Config, s: State, i: Input, n: nat)
    requires n <= |i.occupied|
    ensures Registered(c, s, i, n).number == s.number
  {
    if n > 0 {
      NumberKept(c, s, i, n - 1);
    }
  }

  lemma ContinuedSo(s: State, t: State, i: Input, need: map<Robot, seq<Zone>>)
    requires t.waits == s.waits && t.number == s.number
    ensures WaitsSo(s, i, need, 0, t.(waits := Continued(t, i, need)))
  {
  }
}
