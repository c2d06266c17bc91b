/** The token manager with its tables updated in place, phase by phase. */
module ZoneTokens {
  import opened Options
  import opened Sorting
  import opened Tokens
  import opened TokenSafety
  import GrantOrder
  import Overtaking

  /** The result for one request: granted, or who stands in the way and for how long. */
  datatype Decision = Decision(granted: bool, blockers: set<Robot>, waiting: real, bypassed: nat)

  class ZoneTokenManager {
    const maxBypass: nat
    const minCos: real
    var zones: map<Zone, bool>
    var held: map<Slot, Direction>
    var entered: set<Slot>
    var waits: map<Robot, Wait>
    var number: int

    constructor (zones: map<Zone, bool>, maxBypass: nat, minCos: real)
      ensures Now() == State(map[], {}, map[], 0) && Cfg() == Config(zones, maxBypass, minCos)
      ensures Valid(Cfg(), Now())
    {
      this.zones, this.maxBypass, this.minCos := zones, maxBypass, minCos;
      held, entered, waits, number := map[], {}, map[], 0;
    }

    function Now(): State
      reads this
    {
      State(held, entered, waits, number)
    }

    function Cfg(): Config
      reads this
    {
      Config(zones, maxBypass, minCos)
    }

    method SetZones(z: map<Zone, bool>)
      modifies this
      ensures Now() == Rezoned(old(Now()), z) && Cfg() == old(Cfg()).(zones := z)
    {
      zones := z;
      held := map k | k in held && k.0 in z :: held[k];
      entered := set k | k in entered && k.0 in z;
    }

    method ReserveNow(r: Robot, list: seq<Zone>, directions: map<Zone, Direction>) returns (ok: bool)
      requires Valid(Cfg(), Now())
      modifies this
      ensures Now() == Reserved(Cfg(), old(Now()), r, list, directions) && Cfg() == old(Cfg())
      ensures ok == CanReserve(Cfg(), old(Now()), r, list, directions)
      ensures Valid(Cfg(), Now())
    {
      hide Valid, ToReserve, CanReserve, Taking;
      ReservedValid(Cfg(), Now(), r, list, directions);
      var need := ToReserve(Cfg(), Now(), r, list);
      ok := CanReserve(Cfg(), Now(), r, list, directions);
      if ok {
        held := Taking(held, r, need, directions);
      }
    }

    method Forget(r: Robot)
      requires Valid(Cfg(), Now())
      modifies this
      ensures Now() == Forgotten(old(Now()), r) && Cfg() == old(Cfg())
      ensures Valid(Cfg(), Now())
    {
      ForgottenValid(Cfg(), Now(), r);
      held := map k | k in held && k.1 != r :: held[k];
      entered := set k | k in entered && k.1 != r;
      waits := waits - {r};
    }

    /** Phase 1: goes over the held slots in any order. */
    method Release(i: Input)
      modifies this
      ensures Now() == Released(old(Now()), i) && Cfg() == old(Cfg())
    {
      ghost var s := Now();
      var todo := held.Keys;
      while todo != {}
        invariant todo <= s.held.Keys && Cfg() == old(Cfg()) && waits == s.waits && number == s.number
        invariant held.Keys <= s.held.Keys && forall k :: k in held ==> held[k] == s.held[k]
        invariant forall k :: k in s.held ==> (k in held <==> k in todo || Kept(s, i, k))
        invariant forall k :: k in entered <==>
                    if k in todo || k !in s.held then k in s.entered
                    else (k in s.entered || k in i.occupied) && Kept(s, i, k)
        decreases todo
      {
        ghost var some := Pick(todo);
        var k :| k in todo;
        todo := todo - {k};
        if k in i.occupied {
          entered := entered + {k};
        } else if k.1 !in i.frozen {
          if k in entered || k.0 !in Lookup(i.upcoming, k.1) {
            held := held - {k};
            entered := entered - {k};
          }
        }
      }
      assert held == Released(s, i).held;
      assert entered == Released(s, i).entered;
    }

    /** Phase 2: goes over the occupied slots in the given order. */
    method Register(i: Input)
      modifies this
      ensures Now() == Registered(Cfg(), old(Now()), i, |i.occupied|) && Cfg() == old(Cfg())
    {
      ghost var s := Now();
      for n := 0 to |i.occupied|
        invariant Now() == Registered(old(Cfg()), s, i, n) && Cfg() == old(Cfg())
      {
        var k := i.occupied[n];
        if k.0 in zones && k !in held {
          var d := DirectionAt(i, k);
          if Compatible(Cfg(), held, k.0, k.1, d) {
            held := held[k := d];
            entered := entered + {k};
          }
        }
      }
    }

    /** Phase 3: drops or carries over waits, then lets newcomers wait in request order. */
    method Refresh(i: Input) returns (need: map<Robot, seq<Zone>>)
      modifies this
      ensures need == Need(Cfg(), old(Now()), i) && Cfg() == old(Cfg())
      ensures Now() == Refreshed(Cfg(), old(Now()), i)
    {
      need := Need(Cfg(), Now(), i);
      waits := Continued(Now(), i, need);
      ghost var s := Now();
      for n := 0 to |i.order|
        invariant Now() == Started(s, i, need, n) && Cfg() == old(Cfg())
      {
        var r := i.order[n];
        if r in need && r in i.requests && r !in waits {
          number := number + 1;
          waits := waits[r := Wait(i.requests[r].zones, i.now, number, 0)];
        }
      }
    }

    /** Phase 4: serves the needing robots one after the other. */
    method Grant(i: Input, need: map<Robot, seq<Zone>>) returns (granted: map<Robot, seq<Zone>>, blockers: map<Robot, set<Robot>>)
      requires need == Need(Cfg(), Now(), i)
      modifies this
      ensures held == Outcome(Cfg(), old(Now()), i).held && Cfg() == old(Cfg())
      ensures entered == old(entered) && waits == old(waits) && number == old(number)
      ensures granted == Outcome(Cfg(), old(Now()), i).granted && blockers == Outcome(Cfg(), old(Now()), i).blockers
    {
      hide Queue, KeyOf, InsertByKey, Ordered, Missing, Grantable, Give, Reserve, BlockersOf, Compatible;
      ghost var m := Now();
      var q := ServingOrder(Cfg(), Now(), i);
      QueueMembers(Cfg(), Now(), i, need, |i.order|);
      var reserved: map<Zone, Robot> := map[];
      granted, blockers := map[], map[];
      for n := 0 to |q|
        invariant Grants(held, reserved, granted, blockers) == GrantAll(old(Cfg()), m, i, need, q, n)
        invariant Cfg() == old(Cfg()) && entered == m.entered && waits == m.waits && number == m.number
      {
        var r := q[n];
        var list := need[r];
        var g := Grants(held, reserved, granted, blockers);
        if Grantable(Cfg(), i, g, r, list) {
          held := Give(i, held, r, list);
          granted := granted[r := list];
        } else {
          blockers := blockers[r := BlockersOf(Cfg(), i, g, r, list)];
          if r in waits && Starved(Cfg(), waits[r]) {
            reserved := Reserve(reserved, r, list);
          }
        }
      }
    }

    /** Phase 5: counts overtakings, and takes the granted robots off the waiting list. */
    method CountOvertaking(need: map<Robot, seq<Zone>>, granted: map<Robot, seq<Zone>>)
      requires waits.Keys == need.Keys
      modifies this`waits
      ensures waits == Counted(old(Now()), need, granted)
    {
      hide LaterGranted, Sinces, CountedBut, Overtakers;
      ghost var m := Now();
      var sinces := Sinces(waits);
      var todo := need.Keys;
      NoneCounted(m, need, granted);
      while todo != {}
        invariant todo <= need.Keys && CountedBut(m, need, granted, todo, waits)
        decreases todo
      {
        ghost var some := Pick(todo);
        var r :| r in todo;
        OneCounted(m, need, granted, todo, waits, r);
        todo := todo - {r};
        if r !in granted {
          var passed := LaterGranted(sinces, granted, need[r], waits[r].since);
          waits := waits[r := waits[r].(bypassed := waits[r].bypassed + |passed|)];
        }
      }
      AllCounted(m, need, granted, waits);
      waits := waits - granted.Keys;
    }

    /** One cycle: the five phases, and a decision for every request. */
    method Update(i: Input) returns (out: map<Robot, Decision>)
      requires i.Valid() && Valid(Cfg(), Now())
      modifies this
      ensures Now() == Updated(Cfg(), old(Now()), i) && Cfg() == old(Cfg())
      ensures Valid(Cfg(), Now())
      ensures out.Keys == i.requests.Keys
      ensures forall r :: r in out ==>
                (out[r].granted <==> forall z :: z in i.requests[r].zones && z in zones ==> (z, r) in held)
      ensures GrantOrder.Fairly(Cfg(), Prepared(Cfg(), old(Now()), i), i, Winners(Cfg(), Prepared(Cfg(), old(Now()), i), i, out))
      ensures forall r :: r in out && !out[r].granted ==> Refusal(Cfg(), Prepared(Cfg(), old(Now()), i), i, Now(), r, out[r])
      ensures forall r :: r in out && !out[r].granted ==>
                GrantOrder.TellsWho(Cfg(), Prepared(Cfg(), old(Now()), i), i,
                                    Winners(Cfg(), Prepared(Cfg(), old(Now()), i), i, out), r, out[r].blockers)
    {
      hide *;
      ghost var s := State(held, entered, waits, number);
      ghost var c := Config(zones, maxBypass, minCos);
      States(this);
      UpdatedValid(c, s, i);
      DecisionsRight(c, s, i);
      NeedSame(c, s, i);
      UpdatedParts(c, s, i);
      Release(i);
      Register(i);
      var need := Refresh(i);
      States(this);
      var granted, blockers := Grant(i, need);
      States(this);
      ghost var m := State(held, entered, waits, number);
      CountedKeys(m, need, granted);
      CountOvertaking(need, granted);
      States(this);
      out := Decisions(i, need, granted, blockers, waits);
      DecisionsAre(i, need, granted, blockers, waits);
      RefusalsRight(c, s, i, need, granted, blockers, waits, out);
      WinnersFair(c, s, i, granted, blockers, waits, out);
    }
  }

  function Decisions(i: Input, need: map<Robot, seq<Zone>>, granted: map<Robot, seq<Zone>>, blockers: map<Robot, set<Robot>>,
                     waits: map<Robot, Wait>): map<Robot, Decision>
  {
    map r | r in i.requests ::
      if r in need && r !in granted && r in waits
      then Decision(false, if r in blockers then blockers[r] else {}, i.now - waits[r].since, waits[r].bypassed)
      else Decision(true, {}, 0.0, 0)
  }

  lemma DecisionsAre(i: Input, need: map<Robot, seq<Zone>>, granted: map<Robot, seq<Zone>>, blockers: map<Robot, set<Robot>>,
                     waits: map<Robot, Wait>)
    ensures var out := Decisions(i, need, granted, blockers, waits);
            && out.Keys == i.requests.Keys
            && forall r :: r in out ==> (!out[r].granted <==> r in need && r !in granted && r in waits)
  {
  }

  /** The robots still to do keep their counts; the others have been counted. */
  ghost predicate CountedBut(m: State, need: map<Robot, seq<Zone>>, granted: map<Robot, seq<Zone>>, todo: set<Robot>,
                             waits: map<Robot, Wait>)
  {
    && waits.Keys == need.Keys == m.waits.Keys
    && forall r :: r in waits ==>
         waits[r] == if r in todo || r in granted then m.waits[r]
                     else m.waits[r].(bypassed := m.waits[r].bypassed + |Overtakers(m, need, granted, r)|)
  }

  lemma NoneCounted(m: State, need: map<Robot, seq<Zone>>, granted: map<Robot, seq<Zone>>)
    requires m.waits.Keys == need.Keys
    ensures CountedBut(m, need, granted, need.Keys, m.waits)
  {
  }

  lemma OneCounted(m: State, need: map<Robot, seq<Zone>>, granted: map<Robot, seq<Zone>>, todo: set<Robot>,
                   waits: map<Robot, Wait>, r: Robot)
    requires CountedBut(m, need, granted, todo, waits) && r in todo && todo <= need.Keys
    ensures r in need && r in waits
    ensures r in granted ==> CountedBut(m, need, granted, todo - {r}, waits)
    ensures r !in granted ==>
              var passed := LaterGranted(Sinces(m.waits), granted, need[r], waits[r].since);
              CountedBut(m, need, granted, todo - {r}, waits[r := waits[r].(bypassed := waits[r].bypassed + |passed|)])
  {
    hide LaterGranted, Sinces;
  }

  lemma AllCounted(m: State, need: map<Robot, seq<Zone>>, granted: map<Robot, seq<Zone>>, waits: map<Robot, Wait>)
    requires CountedBut(m, need, granted, {}, waits)
    ensures waits - granted.Keys == Counted(m, need, granted)
  {
    hide Overtakers;
  }

  /** Who holds or has reserved what r needs, how long r has waited, and its count, this cycle's overtakings included. */
  ghost predicate Refusal(c: Config, m: State, i: Input, after: State, r: Robot, d: Decision) {
    && r in m.waits && r in after.waits && r in Need(c, m, i)
    && d.waiting == i.now - m.waits[r].since && d.bypassed == after.waits[r].bypassed
    && d.bypassed == m.waits[r].bypassed + |Overtaking.Over(c, m, i, r)|
    && Overtaking.NamesThoseInTheWay(Outcome(c, m, i), r, Need(c, m, i)[r], d.blockers)
  }

  /** The robots that needed something and got it. */
  function Winners(c: Config, m: State, i: Input, out: map<Robot, Decision>): set<Robot> {
    set r | r in Need(c, m, i) && r in out && out[r].granted
  }

  lemma WinnersFair(c: Config, s: State, i: Input, granted: map<Robot, seq<Zone>>, blockers: map<Robot, set<Robot>>,
                    waits: map<Robot, Wait>, out: map<Robot, Decision>)
    requires i.Valid() && Valid(c, s)
    requires var m := Prepared(c, s, i);
             && granted == Outcome(c, m, i).granted && blockers == Outcome(c, m, i).blockers
             && waits == Updated(c, s, i).waits && out == Decisions(i, Need(c, m, i), granted, blockers, waits)
    ensures var m := Prepared(c, s, i);
            && GrantOrder.Fairly(c, m, i, Winners(c, m, i, out))
            && forall r :: r in out && !out[r].granted ==>
                 GrantOrder.TellsWho(c, m, i, Winners(c, m, i, out), r, out[r].blockers)
  {
    hide Prepared, Need, Outcome, Valid, GrantOrder.Fairly, GrantOrder.TellsWho, Overtakers;
    var m := Prepared(c, s, i);
    PreparedValid(c, s, i);
    Overtaking.PreparedWaits(c, s, i);
    GrantOrder.OutcomeFair(c, m, i);
    AllOrNothing(c, m, i);
    NeedAsked(c, m, i);
    forall r ensures r in Winners(c, m, i, out) <==> r in granted.Keys {
      assert r in Need(c, m, i) && r !in granted ==> r in m.waits && r in waits;
    }
    assert Winners(c, m, i, out) == granted.Keys;
  }

  lemma NeedAsked(c: Config, m: State, i: Input)
    ensures Need(c, m, i).Keys <= i.requests.Keys
  {
  }

  lemma RefusalsRight(c: Config, s: State, i: Input, need: map<Robot, seq<Zone>>, granted: map<Robot, seq<Zone>>,
                      blockers: map<Robot, set<Robot>>, waits: map<Robot, Wait>, out: map<Robot, Decision>)
    requires i.Valid()
    requires var m := Prepared(c, s, i);
             && need == Need(c, m, i) && granted == Outcome(c, m, i).granted && blockers == Outcome(c, m, i).blockers
             && waits == Updated(c, s, i).waits
    requires out == Decisions(i, need, granted, blockers, waits)
    ensures forall r :: r in out && !out[r].granted ==> Refusal(c, Prepared(c, s, i), i, Updated(c, s, i), r, out[r])
  {
    hide Prepared, Need, Outcome, Overtaking.NamesThoseInTheWay, Overtakers;
    var m := Prepared(c, s, i);
    forall r | r in out && !out[r].granted ensures Refusal(c, m, i, Updated(c, s, i), r, out[r]) {
      Overtaking.RefusedBy(c, m, i, r);
      assert r in m.waits && waits[r].since == m.waits[r].since;
    }
  }

  lemma States(t: ZoneTokenManager)
    ensures t.Now() == State(t.held, t.entered, t.waits, t.number)
    ensures t.Cfg() == Config(t.zones, t.maxBypass, t.minCos)
  {
  }

  lemma UpdatedParts(c: Config, s: State, i: Input)
    ensures Prepared(c, s, i) == Refreshed(c, Registered(c, Released(s, i), i, |i.occupied|), i)
    ensures var m := Prepared(c, s, i);
            && Updated(c, s, i) == State(Outcome(c, m, i).held, m.entered,
                                         Counted(m, Need(c, m, i), Outcome(c, m, i).granted), m.number)
            && forall m2: State :: m2.waits == m.waits ==>
                 Counted(m2, Need(c, m, i), Outcome(c, m, i).granted) == Counted(m, Need(c, m, i), Outcome(c, m, i).granted)
  {
    hide Outcome, Need, Refreshed, Registered, Released;
    var m := Prepared(c, s, i);
    assert forall m2: State, r :: m2.waits == m.waits ==>
      Overtakers(m2, Need(c, m, i), Outcome(c, m, i).granted, r) == Overtakers(m, Need(c, m, i), Outcome(c, m, i).granted, r);
  }

  lemma CountedKeys(m: State, need: map<Robot, seq<Zone>>, granted: map<Robot, seq<Zone>>)
    ensures Counted(m, need, granted).Keys == m.waits.Keys - granted.Keys
  {
  }

  lemma NeedSame(c: Config, s: State, i: Input)
    requires i.Valid()
    ensures var t := Registered(c, Released(s, i), i, |i.occupied|);
            Need(c, Prepared(c, s, i), i) == Need(c, t, i)
    ensures Prepared(c, s, i).waits.Keys == Need(c, Prepared(c, s, i), i).Keys
  {
    Overtaking.PreparedWaits(c, s, i);
    var t := Registered(c, Released(s, i), i, |i.occupied|);
    StartedSame(t.(waits := Continued(t, i, Need(c, t, i))), i, Need(c, t, i), |i.order|);
  }

  /** A request is answered with a grant exactly if all its known zones are held at the end of the cycle. */
  lemma DecisionsRight(c: Config, s: State, i: Input)
    requires i.Valid() && Valid(c, s)
    ensures var m := Prepared(c, s, i);
            var g := Outcome(c, m, i);
            forall r :: r in i.requests ==>
              (!(r in Need(c, m, i) && r !in g.granted) <==>
               forall z :: z in i.requests[r].zones && z in c.zones ==> (z, r) in g.held)
  {
    hide Prepared, Valid, Outcome;
    var m := Prepared(c, s, i);
    PreparedValid(c, s, i);
    AllOrNothing(c, m, i);
    forall r | r in i.requests
      ensures !(r in Need(c, m, i) && r !in Outcome(c, m, i).granted) <==>
                forall z :: z in i.requests[r].zones && z in c.zones ==> (z, r) in Outcome(c, m, i).held
    {
      DecisionRight(c, m, i, Outcome(c, m, i), r);
    }
  }

  lemma DecisionRight(c: Config, m: State, i: Input, g: Grants, r: Robot)
    requires r in i.requests && (r in g.granted ==> r in Need(c, m, i) && g.granted[r] == Need(c, m, i)[r])
    requires forall k :: k in g.held <==> k in m.held || (k.1 in g.granted && k.0 in g.granted[k.1])
    ensures !(r in Need(c, m, i) && r !in g.granted) <==>
              forall z :: z in i.requests[r].zones && z in c.zones ==> (z, r) in g.held
  {
    hide Missing;
    var zones := i.requests[r].zones;
    var miss := Missing(c, m.held, r, zones);
    MissingMembers(c, m.held, r, zones);
    NeedWhen(c, m, i, r);
    if r in Need(c, m, i) {
      var z := miss[0];
      assert z in miss && z in zones && z in c.zones && (z, r) !in m.held;
      if r in g.granted {
        forall z | z in zones && z in c.zones ensures (z, r) in g.held {
          assert (z, r) in m.held || z in miss;
          assert (z, r).1 == r && (z, r).0 == z;
        }
      } else {
        assert (z, r).1 == r;
        assert (z, r) !in g.held;
      }
    } else {
      forall z | z in zones && z in c.zones ensures (z, r) in g.held {
        assert z !in miss;
      }
    }
  }

  lemma NeedWhen(c: Config, m: State, i: Input, r: Robot)
    requires r in i.requests
    ensures r in Need(c, m, i) <==> Missing(c, m.held, r, i.requests[r].zones) != []
    ensures r in Need(c, m, i) ==> Need(c, m, i)[r] == Missing(c, m.held, r, i.requests[r].zones)
  {
  }
}
