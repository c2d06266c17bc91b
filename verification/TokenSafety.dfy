/** What every cycle of the token manager keeps: exclusion, entered slots, frozen robots, all-or-nothing grants. */
module TokenSafety {
  import opened Options
  import opened Tokens

  lemma ReleasedValid(c: Config, s: State, i: Input)
    requires Valid(c, s)
    ensures Valid(c, Released(s, i))
  {
  }

  lemma RegisterOneValid(c: Config, s: State, i: Input, k: Slot)
    requires Valid(c, s)
    ensures Valid(c, RegisterOne(c, s, i, k))
    ensures forall l :: l in s.held ==> l in RegisterOne(c, s, i, k).held
  {
    if k.0 in c.zones && k !in s.held && Compatible(c, s.held, k.0, k.1, DirectionAt(i, k)) {
      JoinExclusive(c, s.held, k.0, k.1, DirectionAt(i, k));
    }
  }

  lemma {:induction false} RegisteredValid(c: Config, s: State, i: Input, n: nat)
    requires Valid(c, s) && n <= |i.occupied|
    ensures Valid(c, Registered(c, s, i, n))
    ensures forall l :: l in s.held ==> l in Registered(c, s, i, n).held
    ensures Registered(c, s, i, n).waits == s.waits
  {
    if n > 0 {
      RegisteredValid(c, s, i, n - 1);
      RegisterOneValid(c, Registered(c, s, i, n - 1), i, i.occupied[n - 1]);
    }
  }

  lemma {:induction false} StartedSame(s: State, i: Input, need: map<Robot, seq<Zone>>, n: nat)
    requires n <= |i.order|
    ensures Started(s, i, need, n).held == s.held && Started(s, i, need, n).entered == s.entered
  {
    if n > 0 {
      StartedSame(s, i, need, n - 1);
    }
  }

  lemma PreparedValid(c: Config, s: State, i: Input)
    requires Valid(c, s)
    ensures Valid(c, Prepared(c, s, i))
    ensures forall l :: l in Released(s, i).held ==> l in Prepared(c, s, i).held
  {
    ReleasedValid(c, s, i);
    var t := Registered(c, Released(s, i), i, |i.occupied|);
    RegisteredValid(c, Released(s, i), i, |i.occupied|);
    StartedSame(t.(waits := Continued(t, i, Need(c, t, i))), i, Need(c, t, i), |i.order|);
  }

  // ---------------------------------------------------------------- grants

  /** Giving a robot a list of zones changes exactly those slots. */
  lemma {:induction false} GiveHolds(i: Input, held: map<Slot, Direction>, r: Robot, zones: seq<Zone>)
    ensures forall k :: k in Give(i, held, r, zones) <==> k in held || (k.1 == r && k.0 in zones)
    ensures forall k :: k in held && k.1 != r ==> Give(i, held, r, zones)[k] == held[k]
  {
    if zones != [] {
      GiveHolds(i, held, r, zones[..|zones| - 1]);
      assert zones == zones[..|zones| - 1] + [zones[|zones| - 1]];
    }
  }

  lemma {:induction false} GiveExclusive(c: Config, i: Input, held: map<Slot, Direction>, r: Robot, zones: seq<Zone>)
    requires Exclusive(c, held)
    requires forall z :: z in zones ==> Compatible(c, held, z, r, DirectionFor(i, r, z))
    ensures Exclusive(c, Give(i, held, r, zones))
  {
    if zones != [] {
      var rest, z := zones[..|zones| - 1], zones[|zones| - 1];
      assert zones == rest + [z];
      GiveExclusive(c, i, held, r, rest);
      GiveHolds(i, held, r, rest);
      var h := Give(i, held, r, rest);
      assert z in zones;
      assert Compatible(c, h, z, r, DirectionFor(i, r, z)) by {
        assert forall k :: k in h && k.1 != r ==> k in held && h[k] == held[k];
      }
      JoinExclusive(c, h, z, r, DirectionFor(i, r, z));
    }
  }

  /** What holds of the grant phase after the first n robots of the queue. */
  ghost predicate Granting(c: Config, m: State, need: map<Robot, seq<Zone>>, q: seq<Robot>, n: nat, g: Grants)
    requires n <= |q| && forall r :: r in q ==> r in need
  {
    && Exclusive(c, g.held)
    && (forall k :: k in g.held <==> k in m.held || (k.1 in g.granted && k.0 in g.granted[k.1]))
    && (forall r :: r in g.granted ==> r in q[..n] && r in need && g.granted[r] == need[r])
    && (forall z :: z in g.reserved ==> g.reserved[z] in q[..n])
  }

  lemma GrantStep(c: Config, m: State, i: Input, need: map<Robot, seq<Zone>>, q: seq<Robot>, n: nat, g: Grants)
    requires n < |q| && (forall r :: r in q ==> r in need) && (forall a, b :: 0 <= a < b < |q| ==> q[a] != q[b])
    requires Granting(c, m, need, q, n, g)
    ensures Granting(c, m, need, q, n + 1, GrantOne(c, m, i, g, q[n], need[q[n]]))
    ensures q[n] !in g.granted
  {
    hide Exclusive, Give, Compatible, BlockersOf;
    var r := q[n];
    assert q[..n + 1] == q[..n] + [r];
    assert r !in q[..n];
    if Grantable(c, i, g, r, need[r]) {
      GiveExclusive(c, i, g.held, r, need[r]);
      GiveHolds(i, g.held, r, need[r]);
    }
  }

  lemma {:induction false} GrantAllHolds(c: Config, m: State, i: Input, need: map<Robot, seq<Zone>>, q: seq<Robot>, n: nat)
    requires n <= |q| && (forall r :: r in q ==> r in need) && (forall a, b :: 0 <= a < b < |q| ==> q[a] != q[b])
    requires Exclusive(c, m.held)
    ensures Granting(c, m, need, q, n, GrantAll(c, m, i, need, q, n))
  {
    hide Granting, GrantOne, Exclusive;
    if n > 0 {
      GrantAllHolds(c, m, i, need, q, n - 1);
      GrantStep(c, m, i, need, q, n - 1, GrantAll(c, m, i, need, q, n - 1));
    } else {
      NothingGranted(c, m, need, q);
    }
  }

  lemma NothingGranted(c: Config, m: State, need: map<Robot, seq<Zone>>, q: seq<Robot>)
    requires Exclusive(c, m.held) && forall r :: r in q ==> r in need
    ensures Granting(c, m, need, q, 0, Grants(m.held, map[], map[], map[]))
  {
  }

  /** Grants are all or nothing: a robot gets every zone it needs, or no slot of its changes. */
  lemma AllOrNothing(c: Config, m: State, i: Input)
    requires Valid(c, m) && i.Valid()
    ensures var need, g := Need(c, m, i), Outcome(c, m, i);
            && Exclusive(c, g.held)
            && (forall r :: r in g.granted ==> r in need && g.granted[r] == need[r])
            && (forall k :: k in g.held <==> k in m.held || (k.1 in g.granted && k.0 in g.granted[k.1]))
  {
    hide Exclusive, Need, Queue, GrantAll, Ordered;
    var need, q := Need(c, m, i), ServingOrder(c, m, i);
    QueueMembers(c, m, i, need, |i.order|);
    QueueDistinct(c, m, i, q);
    GrantAllHolds(c, m, i, need, q, |q|);
    assert Granting(c, m, need, q, |q|, Outcome(c, m, i));
  }

  lemma QueueDistinct(c: Config, m: State, i: Input, q: seq<Robot>)
    requires Ordered(c, m, i, q)
    ensures forall a, b :: 0 <= a < b < |q| ==> q[a] != q[b]
  {
  }

  // ---------------------------------------------------------------- one cycle

  /** One cycle keeps the exclusion of zones and the entered slots within the held ones. */
  lemma UpdatedValid(c: Config, s: State, i: Input)
    requires Valid(c, s) && i.Valid()
    ensures Valid(c, Updated(c, s, i))
  {
    PreparedValid(c, s, i);
    var m := Prepared(c, s, i);
    AllOrNothing(c, m, i);
  }

  /** A slot is given up only by a robot seen outside it, after entering it or with the zone off its way. */
  lemma OnlyReleased(c: Config, s: State, i: Input, k: Slot)
    requires Valid(c, s) && i.Valid() && k in s.held && k !in Updated(c, s, i).held
    ensures k.1 !in i.frozen && k !in i.occupied
    ensures k in s.entered || k.0 !in Lookup(i.upcoming, k.1)
  {
    PreparedValid(c, s, i);
    AllOrNothing(c, Prepared(c, s, i), i);
  }

  /** A body inside a zone it holds keeps the token. */
  lemma OccupiedStays(c: Config, s: State, i: Input, k: Slot)
    requires Valid(c, s) && i.Valid() && k in s.held && (k in i.occupied || k.1 in i.frozen)
    ensures k in Updated(c, s, i).held
  {
    if k !in Updated(c, s, i).held {
      OnlyReleased(c, s, i, k);
    }
  }

  // ---------------------------------------------------------------- reserving, forgetting, changing the zones

  /** The zones of a list that are known and not held by r. */
  function ToReserve(c: Config, s: State, r: Robot, zones: seq<Zone>): seq<Zone> {
    Missing(c, s.held, r, zones)
  }

  predicate CanReserve(c: Config, s: State, r: Robot, zones: seq<Zone>, directions: map<Zone, Direction>) {
    forall z :: z in ToReserve(c, s, r, zones) ==>
      Compatible(c, s.held, z, r, if z in directions then directions[z] else None)
  }

  /** Immediate reservation of a whole list of zones, or of none. */
  function Reserved(c: Config, s: State, r: Robot, zones: seq<Zone>, directions: map<Zone, Direction>): State {
    if CanReserve(c, s, r, zones, directions)
    then s.(held := Taking(s.held, r, ToReserve(c, s, r, zones), directions))
    else s
  }

  function Taking(held: map<Slot, Direction>, r: Robot, zones: seq<Zone>, directions: map<Zone, Direction>): map<Slot, Direction> {
    held + map z | z in zones :: (z, r) := if z in directions then directions[z] else None
  }

  lemma {:induction false} MissingMembers(c: Config, held: map<Slot, Direction>, r: Robot, zones: seq<Zone>)
    ensures forall z :: z in Missing(c, held, r, zones) <==> z in zones && z in c.zones && (z, r) !in held
  {
    if zones != [] {
      MissingMembers(c, held, r, zones[1..]);
    }
  }

  lemma ReservedValid(c: Config, s: State, r: Robot, zones: seq<Zone>, directions: map<Zone, Direction>)
    requires Valid(c, s)
    ensures Valid(c, Reserved(c, s, r, zones, directions))
    ensures forall k :: k in s.held ==> k in Reserved(c, s, r, zones, directions).held &&
                                        Reserved(c, s, r, zones, directions).held[k] == s.held[k]
    ensures (forall z :: z in zones && z in c.zones ==> (z, r) in Reserved(c, s, r, zones, directions).held) <==>
              CanReserve(c, s, r, zones, directions)
  {
    hide Missing;
    MissingMembers(c, s.held, r, zones);
    if CanReserve(c, s, r, zones, directions) {
      ReservedExclusive(c, s, r, zones, directions);
      hide Exclusive, SameWay, Compatible;
    } else {
      var z :| z in ToReserve(c, s, r, zones) && !Compatible(c, s.held, z, r, if z in directions then directions[z] else None);
    }
  }

  lemma ReservedExclusive(c: Config, s: State, r: Robot, zones: seq<Zone>, directions: map<Zone, Direction>)
    requires Exclusive(c, s.held) && CanReserve(c, s, r, zones, directions)
    ensures Exclusive(c, Reserved(c, s, r, zones, directions).held)
  {
    hide Missing, SameWay;
    MissingMembers(c, s.held, r, zones);
    var t := Reserved(c, s, r, zones, directions);
    forall k, l | k in t.held && l in t.held && k.0 == l.0 && k.1 != l.1
      ensures SameWay(c, k.0, t.held[k], t.held[l])
    {
      if k.1 == r && k !in s.held {
        assert l in s.held && SameWay(c, l.0, s.held[l], t.held[k]);
        SameWaySymmetric(c, k.0, s.held[l], t.held[k]);
      } else if l.1 == r && l !in s.held {
        assert k in s.held && SameWay(c, k.0, s.held[k], t.held[l]);
      }
    }
  }

  lemma SameWaySymmetric(c: Config, z: Zone, d: Direction, e: Direction)
    ensures SameWay(c, z, d, e) == SameWay(c, z, e, d)
  {
  }

  function Forgotten(s: State, r: Robot): State {
    State(map k | k in s.held && k.1 != r :: s.held[k], (set k | k in s.entered && k.1 != r), s.waits - {r}, s.number)
  }

  lemma ForgottenValid(c: Config, s: State, r: Robot)
    requires Valid(c, s)
    ensures Valid(c, Forgotten(s, r))
    ensures forall k :: k in Forgotten(s, r).held <==> k in s.held && k.1 != r
  {
  }

  /** Replacing the zones drops the records of zones that are gone. */
  function Rezoned(s: State, zones: map<Zone, bool>): State {
    s.(held := map k | k in s.held && k.0 in zones :: s.held[k], entered := set k | k in s.entered && k.0 in zones)
  }

  /** A change of zones keeps exclusion exactly when every zone that is shared at that moment still may be. */
  lemma RezonedValid(c: Config, s: State, zones: map<Zone, bool>)
    requires Valid(c, s)
    ensures Valid(c.(zones := zones), Rezoned(s, zones)) <==>
              forall k, l :: k in s.held && l in s.held && k.0 == l.0 && k.1 != l.1 && k.0 in zones ==> zones[k.0]
  {
    var c', t := c.(zones := zones), Rezoned(s, zones);
    assert t.entered <= t.held.Keys;
    if Exclusive(c', t.held) {
      forall k, l | k in s.held && l in s.held && k.0 == l.0 && k.1 != l.1 && k.0 in zones ensures zones[k.0] {
        assert k in t.held && l in t.held;
        assert SameWay(c', k.0, t.held[k], t.held[l]);
      }
    }
    if forall k, l :: k in s.held && l in s.held && k.0 == l.0 && k.1 != l.1 && k.0 in zones ==> zones[k.0] {
      forall k, l | k in t.held && l in t.held && k.0 == l.0 && k.1 != l.1
        ensures SameWay(c', k.0, t.held[k], t.held[l])
      {
        assert SameWay(c, k.0, s.held[k], s.held[l]);
      }
    }
  }
}
