/** How often a waiting robot can be overtaken before it gets its zones. */
module Overtaking {
  import opened Options
  import opened Sorting
  import opened Tokens
  import opened TokenSafety
  import opened TokenRuns

  // ---------------------------------------------------------------- one grant phase

  ghost predicate Queued(need: map<Robot, seq<Zone>>, q: seq<Robot>) {
    (forall r :: r in q ==> r in need) && forall a, b :: 0 <= a < b < |q| ==> q[a] != q[b]
  }

  lemma TurnKeeps(c: Config, m: State, i: Input, g: Grants, r: Robot, zones: seq<Zone>, o: Robot)
    requires o != r
    ensures o in g.granted <==> o in GrantOne(c, m, i, g, r, zones).granted
    ensures forall z :: z in g.reserved ==> z in GrantOne(c, m, i, g, r, zones).reserved
  {
  }

  /** Later turns neither take a grant away nor give one to a robot already served, and keep reservations. */
  lemma {:induction false} LaterTurns(c: Config, m: State, i: Input, need: map<Robot, seq<Zone>>, q: seq<Robot>,
                                      a: nat, n: nat)
    requires Queued(need, q) && a < n <= |q|
    ensures var g, g' := GrantAll(c, m, i, need, q, a + 1), GrantAll(c, m, i, need, q, n);
            && (q[a] in g.granted <==> q[a] in g'.granted)
            && (forall z :: z in g.reserved ==> z in g'.reserved)
  {
    hide GrantOne;
    if a + 1 < n {
      LaterTurns(c, m, i, need, q, a, n - 1);
      TurnKeeps(c, m, i, GrantAll(c, m, i, need, q, n - 1), q[n - 1], need[q[n - 1]], q[a]);
    }
  }

  /** Whoever reserved or got a zone is among the given robots. */
  ghost predicate Served(g: Grants, turns: seq<Robot>) {
    && (forall z :: z in g.reserved ==> g.reserved[z] in turns)
    && (forall r :: r in g.granted ==> r in turns)
  }

  lemma ServedStep(c: Config, m: State, i: Input, g: Grants, r: Robot, zones: seq<Zone>, turns: seq<Robot>)
    requires Served(g, turns)
    ensures Served(GrantOne(c, m, i, g, r, zones), turns + [r])
  {
  }

  lemma {:induction false} ReservedEarlier(c: Config, m: State, i: Input, need: map<Robot, seq<Zone>>, q: seq<Robot>,
                                           n: nat)
    requires Queued(need, q) && n <= |q|
    ensures Served(GrantAll(c, m, i, need, q, n), q[..n])
  {
    if n > 0 {
      ReservedEarlier(c, m, i, need, q, n - 1);
      assert q[..n] == q[..n - 1] + [q[n - 1]];
      ServedStep(c, m, i, GrantAll(c, m, i, need, q, n - 1), q[n - 1], need[q[n - 1]], q[..n - 1]);
    }
  }

  /** The turn of a robot decides: it is granted exactly if its zones can be granted then. */
  lemma OwnTurn(c: Config, m: State, i: Input, need: map<Robot, seq<Zone>>, q: seq<Robot>, a: nat)
    requires Queued(need, q) && a < |q|
    ensures q[a] in GrantAll(c, m, i, need, q, |q|).granted <==>
              Grantable(c, i, GrantAll(c, m, i, need, q, a), q[a], need[q[a]])
  {
    ReservedEarlier(c, m, i, need, q, a);
    LaterTurns(c, m, i, need, q, a, |q|);
    assert q[a] !in q[..a];
  }

  lemma StarvedReserves(c: Config, m: State, i: Input, need: map<Robot, seq<Zone>>, q: seq<Robot>, a: nat, b: nat)
    requires Queued(need, q) && a < b <= |q| && q[a] in m.waits && Starved(c, m.waits[q[a]])
    requires q[a] !in GrantAll(c, m, i, need, q, |q|).granted
    ensures forall z :: z in need[q[a]] ==> z in GrantAll(c, m, i, need, q, b).reserved
  {
    OwnTurn(c, m, i, need, q, a);
    LaterTurns(c, m, i, need, q, a, b);
  }

  lemma StarvedFirst(c: Config, m: State, i: Input, w: Robot, o: Robot)
    requires w in m.waits && o in m.waits && w in i.requests && o in i.requests
    requires Starved(c, m.waits[w]) && m.waits[o].since > m.waits[w].since
    ensures LexLess(KeyOf(c, m, i, w), KeyOf(c, m, i, o))
  {
  }

  /** Nobody who asked strictly later than a starved robot left waiting gets a zone that robot needs. */
  lemma StarvedProtected(c: Config, m: State, i: Input, w: Robot, o: Robot)
    requires i.Valid() && w in Need(c, m, i) && w in m.waits && o in m.waits
    requires Starved(c, m.waits[w]) && m.waits[o].since > m.waits[w].since
    requires w !in Outcome(c, m, i).granted && o in Outcome(c, m, i).granted
    ensures o in Need(c, m, i) && !Overlap(Need(c, m, i)[o], Need(c, m, i)[w])
  {
    hide Grantable, LexLess, KeyOf, GrantAll, Queue, Overlap, Need;
    var need, q := Need(c, m, i), ServingOrder(c, m, i);
    QueueMembers(c, m, i, need, |i.order|);
    assert i.order[..|i.order|] == i.order;
    QueueDistinct(c, m, i, q);
    ReservedEarlier(c, m, i, need, q, |q|);
    assert q[..|q|] == q;
    InRequests(c, m, i, w);
    InRequests(c, m, i, o);
    var a :| 0 <= a < |q| && q[a] == w;
    var b :| 0 <= b < |q| && q[b] == o;
    StarvedFirst(c, m, i, w, o);
    assert a < b;
    StarvedReserves(c, m, i, need, q, a, b);
    OwnTurn(c, m, i, need, q, b);
    ReservedEarlier(c, m, i, need, q, b);
    Refused(c, m, i, GrantAll(c, m, i, need, q, b), o, q, b, need[o], need[w]);
  }

  lemma InRequests(c: Config, m: State, i: Input, r: Robot)
    requires i.Valid() && r in Need(c, m, i)
    ensures r in i.requests && r in i.order
  {
  }

  lemma Refused(c: Config, m: State, i: Input, g: Grants, o: Robot, q: seq<Robot>, b: nat, zones: seq<Zone>,
                taken: seq<Zone>)
    requires b < |q| && q[b] == o && o !in q[..b] && Grantable(c, i, g, o, zones)
    requires forall z :: z in g.reserved ==> g.reserved[z] in q[..b]
    requires forall z :: z in taken ==> z in g.reserved
    ensures !Overlap(zones, taken)
  {
  }

  // ---------------------------------------------------------------- who stands in the way

  /** b holds one of the zones, or has it reserved. */
  ghost predicate InTheWay(g: Grants, b: Robot, zones: seq<Zone>) {
    exists z :: z in zones && ((z, b) in g.held || (z in g.reserved && g.reserved[z] == b))
  }

  ghost predicate NamesThoseInTheWay(g: Grants, r: Robot, zones: seq<Zone>, blockers: set<Robot>) {
    blockers != {} && forall b :: b in blockers ==> b != r && InTheWay(g, b, zones)
  }

  lemma TurnKeepsMore(c: Config, m: State, i: Input, g: Grants, r: Robot, zones: seq<Zone>, o: Robot)
    requires o != r
    ensures var g' := GrantOne(c, m, i, g, r, zones);
            && (o in g.blockers <==> o in g'.blockers) && (o in g.blockers ==> g'.blockers[o] == g.blockers[o])
            && (forall z :: z in g.reserved ==> z in g'.reserved && g'.reserved[z] == g.reserved[z])
            && (forall k :: k in g.held ==> k in g'.held)
  {
    hide Give, Compatible, BlockersOf;
    GiveHolds(i, g.held, r, zones);
  }

  /** Whoever is refused in its turn is told somebody, and only others who hold or have reserved what it needs. */
  lemma RefusedInTurn(c: Config, m: State, i: Input, g: Grants, r: Robot, zones: seq<Zone>)
    requires !Grantable(c, i, g, r, zones)
    ensures var g' := GrantOne(c, m, i, g, r, zones);
            r in g'.blockers && NamesThoseInTheWay(g', r, zones, g'.blockers[r])
  {
    hide Compatible, DirectionFor;
    var b := BlockersOf(c, i, g, r, zones);
    var g' := GrantOne(c, m, i, g, r, zones);
    assert forall z :: z in g.reserved ==> z in g'.reserved && g'.reserved[z] == g.reserved[z] by {
      TurnKeepsMore(c, m, i, g, r, zones, r + 1);
    }
    forall x | x in b ensures x != r && InTheWay(g', x, zones) {
      if z :| z in zones && z in g.reserved && g.reserved[z] != r && g.reserved[z] == x {
        assert z in g'.reserved;
      } else {
        var k :| k in g.held && k.0 in zones && k.1 != r && k.1 == x;
        assert (k.0, x) in g'.held;
      }
    }
    SomebodyBlocks(c, i, g, r, zones);
  }

  lemma SomebodyBlocks(c: Config, i: Input, g: Grants, r: Robot, zones: seq<Zone>)
    requires !Grantable(c, i, g, r, zones)
    ensures BlockersOf(c, i, g, r, zones) != {}
  {
    hide DirectionFor, SameWay;
    var z :| z in zones && !((z in g.reserved ==> g.reserved[z] == r) && Compatible(c, g.held, z, r, DirectionFor(i, r, z)));
    if z in g.reserved && g.reserved[z] != r {
      assert g.reserved[z] in BlockersOf(c, i, g, r, zones);
    } else {
      var k :| k in g.held && k.0 == z && k.1 != r && !SameWay(c, z, g.held[k], DirectionFor(i, r, z));
      assert k.1 in BlockersOf(c, i, g, r, zones);
    }
  }

  lemma {:induction false} StaysNamed(c: Config, m: State, i: Input, need: map<Robot, seq<Zone>>, q: seq<Robot>, a: nat, n: nat)
    requires Queued(need, q) && a < n <= |q|
    requires var g := GrantAll(c, m, i, need, q, a + 1);
             q[a] in g.blockers && NamesThoseInTheWay(g, q[a], need[q[a]], g.blockers[q[a]])
    ensures var g := GrantAll(c, m, i, need, q, n);
            q[a] in g.blockers && NamesThoseInTheWay(g, q[a], need[q[a]], g.blockers[q[a]])
  {
    hide GrantOne;
    if a + 1 < n {
      StaysNamed(c, m, i, need, q, a, n - 1);
      TurnKeepsMore(c, m, i, GrantAll(c, m, i, need, q, n - 1), q[n - 1], need[q[n - 1]], q[a]);
    }
  }

  /** Every robot refused in a cycle is told who stands in its way. */
  lemma RefusedBy(c: Config, m: State, i: Input, r: Robot)
    requires i.Valid() && r in Need(c, m, i) && r !in Outcome(c, m, i).granted
    ensures var g := Outcome(c, m, i); r in g.blockers && NamesThoseInTheWay(g, r, Need(c, m, i)[r], g.blockers[r])
  {
    hide Grantable, LexLess, KeyOf, GrantAll, Queue, Need, GrantOne, NamesThoseInTheWay;
    var need, q := Need(c, m, i), ServingOrder(c, m, i);
    QueueMembers(c, m, i, need, |i.order|);
    assert i.order[..|i.order|] == i.order;
    QueueDistinct(c, m, i, q);
    InRequests(c, m, i, r);
    var a :| 0 <= a < |q| && q[a] == r;
    OwnTurn(c, m, i, need, q, a);
    RefusedInTurn(c, m, i, GrantAll(c, m, i, need, q, a), r, need[r]);
    OneTurn(c, m, i, need, q, a);
    StaysNamed(c, m, i, need, q, a, |q|);
  }

  lemma OneTurn(c: Config, m: State, i: Input, need: map<Robot, seq<Zone>>, q: seq<Robot>, a: nat)
    requires Queued(need, q) && a < |q|
    ensures GrantAll(c, m, i, need, q, a + 1) == GrantOne(c, m, i, GrantAll(c, m, i, need, q, a), q[a], need[q[a]])
  {
  }

  // ---------------------------------------------------------------- how often in one cycle

  /** The robots granted something that w still needs. */
  ghost function Passing(c: Config, m: State, i: Input, w: Robot): set<Robot> {
    set o | o in Outcome(c, m, i).granted && w in Need(c, m, i) &&
            Overlap(Outcome(c, m, i).granted[o], Need(c, m, i)[w])
  }

  /** The other waiting robots that asked no later than w. */
  ghost function Earlier(m: State, w: Robot): set<Robot> {
    set r | r in m.waits && r != w && w in m.waits && m.waits[r].since <= m.waits[w].since
  }

  /** A prepared state: exactly the needing robots wait. */
  ghost predicate Waits(c: Config, m: State, i: Input) {
    i.Valid() && m.waits.Keys == Need(c, m, i).Keys
  }

  /** w is waiting and is not served in this cycle. */
  ghost predicate LeftWaiting(c: Config, m: State, i: Input, w: Robot) {
    Waits(c, m, i) && w in m.waits && w !in Outcome(c, m, i).granted
  }

  /** Every grant that passes w either counts as overtaking or removes an earlier waiter. */
  lemma PassingSplit(c: Config, m: State, i: Input, w: Robot)
    requires LeftWaiting(c, m, i, w) && Valid(c, m)
    ensures var over := Overtakers(m, Need(c, m, i), Outcome(c, m, i).granted, w);
            && over <= Passing(c, m, i, w)
            && Passing(c, m, i, w) - over <= Earlier(m, w)
            && (Starved(c, m.waits[w]) ==> over == {})
            && over <= m.waits.Keys - {w}
  {
    hide Outcome, Need, Overlap;
    AllOrNothing(c, m, i);
    var over := Overtakers(m, Need(c, m, i), Outcome(c, m, i).granted, w);
    forall o | o in Passing(c, m, i, w) ensures o in m.waits && o != w && (o !in over ==> o in Earlier(m, w)) {
      assert o in Outcome(c, m, i).granted && o in Need(c, m, i).Keys;
    }
    if Starved(c, m.waits[w]) {
      forall o | o in over ensures false {
        StarvedProtected(c, m, i, w, o);
      }
    }
  }

  /** An exclusive zone goes to at most one robot in a cycle. */
  lemma PassingOne(c: Config, m: State, i: Input, w: Robot, z: Zone)
    requires LeftWaiting(c, m, i, w) && Valid(c, m)
    requires z in c.zones && !c.zones[z] && forall x :: x in Need(c, m, i)[w] ==> x == z
    ensures |Passing(c, m, i, w)| <= 1
  {
    hide Need;
    AllOrNothing(c, m, i);
    var g := Outcome(c, m, i);
    hide Outcome;
    forall a, b | a in Passing(c, m, i, w) && b in Passing(c, m, i, w) ensures a == b {
      assert z in g.granted[a] && z in g.granted[b];
      assert (z, a) in g.held && (z, b) in g.held;
      assert a != b ==> SameWay(c, z, g.held[(z, a)], g.held[(z, b)]);
    }
    AtMostOne(Passing(c, m, i, w));
  }

  lemma AtMostOne(s: set<Robot>)
    requires forall a, b :: a in s && b in s ==> a == b
    ensures |s| <= 1
  {
    if s != {} {
      var x := Pick(s);
      assert forall y :: y in s ==> y == x;
      assert s == {x};
    }
  }

  // ---------------------------------------------------------------- from one cycle to the next

  /** Where the waits of a prepared state come from: carried over, or begun in this cycle. */
  lemma {:induction false} StartedWaits(s: State, i: Input, need: map<Robot, seq<Zone>>, n: nat)
    requires n <= |i.order|
    ensures var t := Started(s, i, need, n);
            && (forall r :: r in s.waits ==> r in t.waits && t.waits[r] == s.waits[r])
            && (forall r :: r in t.waits && r !in s.waits ==>
                  r in need && t.waits[r].since == i.now && t.waits[r].bypassed == 0)
            && (forall r :: r in i.order[..n] && r in need && r in i.requests ==> r in t.waits)
  {
    if n > 0 {
      StartedWaits(s, i, need, n - 1);
      assert i.order[..n] == i.order[..n - 1] + [i.order[n - 1]];
    }
  }

  lemma PreparedWaits(c: Config, s: State, i: Input)
    requires i.Valid()
    ensures Waits(c, Prepared(c, s, i), i)
    ensures forall r :: r in Prepared(c, s, i).waits ==>
              var w := Prepared(c, s, i).waits[r];
              || (r in s.waits && w.since == s.waits[r].since && w.bypassed == s.waits[r].bypassed)
              || (w.since == i.now && w.bypassed == 0)
  {
    hide Released, RegisterOne, Missing, Overlap;
    var t := Registered(c, Released(s, i), i, |i.occupied|);
    RegisteredWaits(c, Released(s, i), i, |i.occupied|);
    assert t.waits == s.waits by { ReleasedWaits(s, i); }
    var need := Need(c, t, i);
    var u := t.(waits := Continued(t, i, need));
    StartedWaits(u, i, need, |i.order|);
    StartedSame(u, i, need, |i.order|);
    assert i.order[..|i.order|] == i.order;
    var m := Started(u, i, need, |i.order|);
    assert Need(c, m, i) == need;
    assert m.waits.Keys == need.Keys;
  }

  lemma ReleasedWaits(s: State, i: Input)
    ensures Released(s, i).waits == s.waits
  {
  }

  lemma {:induction false} RegisteredWaits(c: Config, s: State, i: Input, n: nat)
    requires n <= |i.occupied|
    ensures Registered(c, s, i, n).waits == s.waits
  {
    if n > 0 {
      RegisteredWaits(c, s, i, n - 1);
    }
  }

  // ---------------------------------------------------------------- between two cycles

  /** Steps between cycles add no waits and change none. */
  ghost predicate WaitsLeft(a: map<Robot, Wait>, b: map<Robot, Wait>) {
    forall r :: r in b ==> r in a && b[r] == a[r]
  }

  lemma {:induction false} StepsWaits(m: Manager, steps: seq<Step>)
    ensures WaitsLeft(m.s.waits, AfterSteps(m, steps).s.waits)
    ensures AfterSteps(m, steps).c.maxBypass == m.c.maxBypass
  {
    hide Reserved, Forgotten, Rezoned;
    if steps != [] {
      var n := |steps| - 1;
      StepsWaits(m, steps[..n]);
      StepWaits(AfterSteps(m, steps[..n]), steps[n]);
    }
  }

  lemma StepWaits(m: Manager, e: Step)
    ensures WaitsLeft(m.s.waits, Stepped(m, e).s.waits) && Stepped(m, e).c.maxBypass == m.c.maxBypass
  {
  }

  /** While w goes on waiting, earlier waiters only leave, and its count grows by its overtakers. */
  lemma NextCycle(c: Config, m: State, i: Input, w: Robot, b: Manager, i': Input)
    requires LeftWaiting(c, m, i, w) && i'.Valid() && WaitsLeft(Finished(c, m, i).waits, b.s.waits)
    requires var m' := Prepared(b.c, b.s, i');
             w in m'.waits && m'.waits[w].since == m.waits[w].since < i'.now
    ensures var m' := Prepared(b.c, b.s, i');
            && Earlier(m', w) <= Earlier(m, w) - Outcome(c, m, i).granted.Keys
            && m'.waits[w].bypassed ==
                 m.waits[w].bypassed + |Overtakers(m, Need(c, m, i), Outcome(c, m, i).granted, w)|
  {
    hide Outcome, Need, Overtakers, Prepared;
    PreparedWaits(b.c, b.s, i');
  }

  // ---------------------------------------------------------------- over a whole wait

  ghost function Over(c: Config, m: State, i: Input, w: Robot): set<Robot> {
    Overtakers(m, Need(c, m, i), Outcome(c, m, i).granted, w)
  }

  /** w asks for the one exclusive zone z only. */
  ghost predicate OnlyZone(c: Config, m: State, i: Input, w: Robot, z: Zone) {
    z in c.zones && !c.zones[z] && w in Need(c, m, i) && forall x :: x in Need(c, m, i)[w] ==> x == z
  }

  /** The most often a waiting robot is overtaken by robots that asked later, among n robots. */
  ghost function MostOvertaken(c: Config, n: nat, only: Option<Zone>): int {
    if only.Some? then c.maxBypass else if c.maxBypass == 0 then 0 else c.maxBypass + n - 2
  }

  /** The count of overtakings stays within its bound in every cycle. */
  lemma OvertakenBound(c: Config, m: State, i: Input, w: Robot, n: nat, only: Option<Zone>)
    requires LeftWaiting(c, m, i, w) && Valid(c, m) && |i.requests| <= n
    requires only.Some? ==> OnlyZone(c, m, i, w, only.value)
    requires m.waits[w].bypassed <= MostOvertaken(c, n, only)
    ensures m.waits[w].bypassed + |Over(c, m, i, w)| <= MostOvertaken(c, n, only)
  {
    hide Outcome, Need, Valid;
    PassingSplit(c, m, i, w);
    var over := Over(c, m, i, w);
    if only.Some? {
      PassingOne(c, m, i, w, only.value);
      SubsetSize(over, Passing(c, m, i, w));
    } else {
      WaitsFew(c, m, i, w, n);
      SubsetSize(over, m.waits.Keys - {w});
    }
  }

  lemma WaitsFew(c: Config, m: State, i: Input, w: Robot, n: nat)
    requires Waits(c, m, i) && w in m.waits && |i.requests| <= n
    ensures |m.waits.Keys - {w}| <= n - 1
  {
    assert Need(c, m, i).Keys <= i.requests.Keys;
    SubsetSize(Need(c, m, i).Keys, i.requests.Keys);
    assert |i.requests.Keys| == |i.requests|;
  }

  /** The prepared state of the first cycle of a run. */
  function FirstPrepared(m: Manager, turns: seq<Turn>): State
    requires turns != []
  {
    var b := AfterSteps(m, turns[0].steps);
    Prepared(b.c, b.s, turns[0].input)
  }

  function FirstConfig(m: Manager, turns: seq<Turn>): Config
    requires turns != []
  {
    AfterSteps(m, turns[0].steps).c
  }

  function FirstDone(m: Manager, turns: seq<Turn>): Manager
    requires turns != []
  {
    Cycled(AfterSteps(m, turns[0].steps), turns[0].input)
  }

  /** Grants in cycles that left w waiting, of something w needs. */
  ghost function Passed(m: Manager, turns: seq<Turn>, w: Robot): nat
    decreases |turns|
  {
    if turns == [] then 0
    else |Passing(FirstConfig(m, turns), FirstPrepared(m, turns), turns[0].input, w)| + Passed(FirstDone(m, turns), turns[1..], w)
  }

  /** An immediate reservation gives another robot something w waits for, whatever w's claim. */
  ghost predicate Jumps(m: Manager, e: Step, w: Robot) {
    && e.Reserve? && e.robot != w && w in m.s.waits && CanReserve(m.c, m.s, e.robot, e.zones, e.directions)
    && Overlap(ToReserve(m.c, m.s, e.robot, e.zones), m.s.waits[w].zones)
  }

  ghost function JumpsIn(m: Manager, steps: seq<Step>, w: Robot): nat {
    if steps == [] then 0
    else JumpsIn(m, steps[..|steps| - 1], w) +
         if Jumps(AfterSteps(m, steps[..|steps| - 1]), steps[|steps| - 1], w) then 1 else 0
  }

  /** Reservations between the cycles that give away something w waits for. */
  ghost function Jumped(m: Manager, turns: seq<Turn>, w: Robot): nat
    decreases |turns|
  {
    if turns == [] then 0 else JumpsIn(m, turns[0].steps, w) + Jumped(FirstDone(m, turns), turns[1..], w)
  }

  /** w waits since the given time through all the cycles, at most n robots asking; time advances. */
  ghost predicate KeepsWaiting(m: Manager, turns: seq<Turn>, w: Robot, since: real, n: nat, only: Option<Zone>)
    decreases |turns|
  {
    turns != [] ==>
      var c, p, i := FirstConfig(m, turns), FirstPrepared(m, turns), turns[0].input;
      && MaySteps(m, turns[0].steps)
      && LeftWaiting(c, p, i, w) && p.waits[w].since == since
      && |i.requests| <= n && (only.Some? ==> OnlyZone(c, p, i, w, only.value))
      && (|turns| > 1 ==> since < turns[1].input.now)
      && KeepsWaiting(FirstDone(m, turns), turns[1..], w, since, n, only)
  }

  lemma {:induction false} PassedBound(m: Manager, turns: seq<Turn>, w: Robot, since: real, n: nat, only: Option<Zone>)
    requires Fine(m) && turns != [] && KeepsWaiting(m, turns, w, since, n, only)
    requires FirstPrepared(m, turns).waits[w].bypassed <= MostOvertaken(m.c, n, only)
    ensures var p := FirstPrepared(m, turns);
            Passed(m, turns, w) <= |Earlier(p, w)| + MostOvertaken(m.c, n, only) - p.waits[w].bypassed
    ensures w in AfterTurns(m, turns).s.waits && AfterTurns(m, turns).s.waits[w].bypassed <= MostOvertaken(m.c, n, only)
    decreases |turns|
  {
    hide Prepared, Outcome, Need, Earlier, Passing, LeftWaiting, OnlyZone, Valid, Fine, Overtakers, AfterSteps, MaySteps;
    var b, i := AfterSteps(m, turns[0].steps), turns[0].input;
    var p := Prepared(b.c, b.s, i);
    FirstTurn(m, turns, w, since, n, only);
    CountAfter(b, p, i, w, n, only);
    CyclePassing(b.c, p, i, w);
    if |turns| > 1 {
      var d := FirstDone(m, turns);
      var b', i' := AfterSteps(d, turns[1].steps), turns[1].input;
      assert turns[1..][0] == turns[1];
      StepsWaits(d, turns[1].steps);
      NextCycle(b.c, p, i, w, b', i');
      PassedBound(d, turns[1..], w, since, n, only);
      CycleEarlier(b.c, p, i, w, Prepared(b'.c, b'.s, i'));
    } else {
      assert Passed(FirstDone(m, turns), turns[1..], w) == 0;
    }
  }

  /** The first turn of a wait: the state is fine when the cycle begins, and w waits on afterwards. */
  lemma FirstTurn(m: Manager, turns: seq<Turn>, w: Robot, since: real, n: nat, only: Option<Zone>)
    requires Fine(m) && turns != [] && KeepsWaiting(m, turns, w, since, n, only)
    ensures var b, i := AfterSteps(m, turns[0].steps), turns[0].input;
            var p := Prepared(b.c, b.s, i);
            && b.c.maxBypass == m.c.maxBypass && Valid(b.c, p) && i.Valid() && |i.requests| <= n
            && LeftWaiting(b.c, p, i, w) && w in p.waits && p.waits[w].since == since
            && (only.Some? ==> OnlyZone(b.c, p, i, w, only.value))
            && Fine(Cycled(b, i)) && Cycled(b, i) == Manager(b.c, Finished(b.c, p, i))
            && KeepsWaiting(Cycled(b, i), turns[1..], w, since, n, only)
    ensures |turns| > 1 ==>
              var d := FirstDone(m, turns);
              var b', i' := AfterSteps(d, turns[1].steps), turns[1].input;
              && i'.Valid() && since < i'.now
              && w in Prepared(b'.c, b'.s, i').waits && Prepared(b'.c, b'.s, i').waits[w].since == since
  {
    hide Prepared, Outcome, Need, OnlyZone, AfterSteps, MaySteps, Valid, Finished;
    StepsWaits(m, turns[0].steps);
    StepsFine(m, turns[0].steps);
    var b, i := AfterSteps(m, turns[0].steps), turns[0].input;
    CycleFine(b, i);
    PreparedValid(b.c, b.s, i);
    if |turns| > 1 {
      assert turns[1..][0] == turns[1];
    }
  }

  /** After a cycle that left w waiting its count is within the bound. */
  lemma CountAfter(b: Manager, p: State, i: Input, w: Robot, n: nat, only: Option<Zone>)
    requires LeftWaiting(b.c, p, i, w) && Valid(b.c, p) && |i.requests| <= n
    requires only.Some? ==> OnlyZone(b.c, p, i, w, only.value)
    requires p.waits[w].bypassed <= MostOvertaken(b.c, n, only)
    ensures var f := Finished(b.c, p, i);
            w in f.waits && f.waits[w].bypassed == p.waits[w].bypassed + |Over(b.c, p, i, w)| <= MostOvertaken(b.c, n, only)
  {
    hide Outcome, Need, Overtakers, Valid, OnlyZone, MostOvertaken;
    OvertakenBound(b.c, p, i, w, n, only);
  }

  lemma CyclePassing(c: Config, m: State, i: Input, w: Robot)
    requires LeftWaiting(c, m, i, w) && Valid(c, m)
    ensures |Passing(c, m, i, w)| <= |Over(c, m, i, w)| + |Earlier(m, w)|
  {
    hide Outcome, Need, Valid;
    PassingSplit(c, m, i, w);
    SubsetSize(Passing(c, m, i, w) - Over(c, m, i, w), Earlier(m, w));
  }

  lemma CycleEarlier(c: Config, m: State, i: Input, w: Robot, m': State)
    requires LeftWaiting(c, m, i, w) && Valid(c, m)
    requires Earlier(m', w) <= Earlier(m, w) - Outcome(c, m, i).granted.Keys
    ensures |Passing(c, m, i, w)| <= |Over(c, m, i, w)| + |Earlier(m, w)| - |Earlier(m', w)|
  {
    hide Need, Valid, Outcome;
    PassingSplit(c, m, i, w);
    var rest := Passing(c, m, i, w) - Over(c, m, i, w);
    assert rest <= Outcome(c, m, i).granted.Keys;
    assert rest !! Earlier(m', w);
    SubsetSize(rest + Earlier(m', w), Earlier(m, w));
  }

  /**
   From the start of a wait: at most n - 1 grants to robots that asked no later, and the overtakings,
   whatever is reserved, forgotten and rezoned between the cycles; and the count stays within its bound.
   */
  lemma WholeWait(m: Manager, turns: seq<Turn>, w: Robot, since: real, n: nat, only: Option<Zone>)
    requires Fine(m) && turns != [] && KeepsWaiting(m, turns, w, since, n, only)
    requires FirstPrepared(m, turns).waits[w].bypassed == 0
    ensures Passed(m, turns, w) <= MostOvertaken(m.c, n, only) + n - 1
    ensures w in AfterTurns(m, turns).s.waits && AfterTurns(m, turns).s.waits[w].bypassed <= MostOvertaken(m.c, n, only)
  {
    hide Prepared, Outcome, Need, Valid, Fine, AfterSteps, MaySteps, OnlyZone, Earlier;
    FirstTurn(m, turns, w, since, n, only);
    var b := AfterSteps(m, turns[0].steps);
    var p := Prepared(b.c, b.s, turns[0].input);
    EarlierFew(b.c, p, turns[0].input, w, n);
    PassedBound(m, turns, w, since, n, only);
  }

  lemma EarlierFew(c: Config, m: State, i: Input, w: Robot, n: nat)
    requires LeftWaiting(c, m, i, w) && |i.requests| <= n
    ensures n >= 1 && |Earlier(m, w)| <= n - 1
  {
    hide Outcome, Need;
    WaitsFew(c, m, i, w, n);
    SubsetSize(Earlier(m, w), m.waits.Keys - {w});
  }

  /** The advertised bound holds in cycles for a single exclusive zone, between two robots, and if nobody may be overtaken. */
  lemma AdvertisedBound(m: Manager, turns: seq<Turn>, w: Robot, since: real, n: nat, only: Option<Zone>)
    requires Fine(m) && turns != [] && KeepsWaiting(m, turns, w, since, n, only)
    requires FirstPrepared(m, turns).waits[w].bypassed == 0
    requires only.Some? || n <= 2 || m.c.maxBypass == 0
    ensures Passed(m, turns, w) <= m.c.maxBypass + n - 1
  {
    hide FirstPrepared, KeepsWaiting, Passed, AfterTurns, Fine;
    WholeWait(m, turns, w, since, n, only);
  }

  // ---------------------------------------------------------------- the count over any run

  /** Nobody waiting has been overtaken more often than the bound for chains allows. */
  ghost predicate CountsBounded(m: Manager, n: nat) {
    forall r :: r in m.s.waits ==> m.s.waits[r].bypassed <= MostOvertaken(m.c, n, None)
  }

  /** Over every run of turns with at most n robots asking, no count ever exceeds its bound. */
  lemma {:induction false} CountsStayBounded(m: Manager, turns: seq<Turn>, n: nat)
    requires Fine(m) && MayTurns(m, turns) && CountsBounded(m, n)
    requires forall k :: 0 <= k < |turns| ==> |turns[k].input.requests| <= n
    ensures CountsBounded(AfterTurns(m, turns), n)
    decreases |turns|
  {
    hide Fine, MaySteps, AfterSteps, Cycled, CountsBounded, Input.Valid;
    if turns != [] {
      var b, i := AfterSteps(m, turns[0].steps), turns[0].input;
      StepsFine(m, turns[0].steps);
      StepsWaits(m, turns[0].steps);
      StepsCounts(m, b, n);
      CycleFine(b, i);
      CycleCounts(b, i, n);
      CountsStayBounded(Cycled(b, i), turns[1..], n);
    }
  }

  lemma StepsCounts(m: Manager, b: Manager, n: nat)
    requires CountsBounded(m, n) && WaitsLeft(m.s.waits, b.s.waits) && b.c.maxBypass == m.c.maxBypass
    ensures CountsBounded(b, n)
  {
  }

  lemma CycleCounts(b: Manager, i: Input, n: nat)
    requires Fine(b) && i.Valid() && CountsBounded(b, n) && |i.requests| <= n
    ensures CountsBounded(Cycled(b, i), n)
  {
    hide Prepared, Outcome, Need, Overtakers, Valid;
    var p := Prepared(b.c, b.s, i);
    PreparedValid(b.c, b.s, i);
    PreparedWaits(b.c, b.s, i);
    var f := Finished(b.c, p, i);
    forall r | r in f.waits ensures f.waits[r].bypassed <= MostOvertaken(b.c, n, None) {
      assert LeftWaiting(b.c, p, i, r);
      EarlierFew(b.c, p, i, r, n);
      CountAfter(b, p, i, r, n, None);
    }
  }
}
